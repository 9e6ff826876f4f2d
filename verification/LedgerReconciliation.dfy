/** The reconciliation of a mailbox is a run of expunges and deletions, and so keeps whatever all runs keep. */
module LedgerReconciliation {

  import opened LedgerOnce
  import opened LedgerState
  import opened LedgerSteps
  import LedgerTokens

  function Expunging(id: int, canonical: map<int, int>, now: int): seq<Timed> {
    [Timed(Transferring(Expunged(id, Digest(canonical, id))), now)] + [Timed(Turning(Deleted(id)), now)]
  }

  /** One expunge with its deletion after another, all at one instant. */
  function Expunges(stale: seq<int>, canonical: map<int, int>, now: int): seq<Timed> {
    if stale == [] then [] else Expunging(stale[0], canonical, now) + Expunges(stale[1..], canonical, now)
  }

  lemma ExpungingIsTwoSteps(s: Ledger, id: int, canonical: map<int, int>, now: int)
    requires s.clock == now
    ensures var t := Delete(Expunge(s, id, Digest(canonical, id), now), {id});
            t == Execute(s, Expunging(id, canonical, now)) && t.clock == now
  {
    var first, last := Timed(Transferring(Expunged(id, Digest(canonical, id))), now), Timed(Turning(Deleted(id)), now);
    ExpungeKeepsArrivals(s, id, Digest(canonical, id), now);
    hide Expunge, Delete;
    assert s.(clock := now) == s;
    var u := Expunge(s, id, Digest(canonical, id), now);
    assert u.(clock := now) == u;
    assert [first][..0] == [] && ([first] + [last])[..1] == [first];
    assert Execute(s, [first]) == u;
    assert Execute(s, [first] + [last]) == Delete(u, {id});
    DeletingKeepsClock(u, id);
  }

  lemma DeletingKeepsClock(s: Ledger, id: int)
    ensures Delete(s, {id}).clock == s.clock
  {
  }

  /** Whether anything goes wrong or not: the mailbox is reconciled by steps, or not at all. */
  lemma {:induction false} ExpungeEachIsSteps(s: Ledger, stale: seq<int>, canonical: map<int, int>, now: int)
    requires s.clock == now && ExpungeEach(s, stale, canonical, now).Some?
    ensures ExpungeEach(s, stale, canonical, now).value == Execute(s, Expunges(stale, canonical, now))
    decreases |stale|
  {
    hide Expunge, Delete, Apply, MayExpunge;
    if stale != [] {
      ExpungingIsTwoSteps(s, stale[0], canonical, now);
      var next := Delete(Expunge(s, stale[0], Digest(canonical, stale[0]), now), {stale[0]});
      ExpungeEachIsSteps(next, stale[1..], canonical, now);
      ExecuteConcat(s, Expunging(stale[0], canonical, now), Expunges(stale[1..], canonical, now));
    }
  }

  /** In particular each suppressed arrival still has its own token after it. */
  lemma ReconcilingConserves(
    steps: seq<Timed>, mailbox: int, local: seq<int>, remote: set<int>, uidValidity: int, uidNext: int,
    canonical: map<int, int>, now: int)
    requires now == Execute(Empty(), steps).clock
    requires forall i :: 0 <= i < |local| ==> local[i] in Execute(Empty(), steps).messages
    ensures var t := ReconcileMailbox(Execute(Empty(), steps), mailbox, local, remote, uidValidity, uidNext, canonical, now);
            LedgerTokens.Conserved(t) && exists more :: t == Execute(Empty(), steps + more)
  {
    hide LedgerTokens.Conserved, ExpungeEach, Missing, Execute;
    var s := Execute(Empty(), steps);
    var t := ReconcileMailbox(s, mailbox, local, remote, uidValidity, uidNext, canonical, now);
    var stale := Missing(s, local, remote, uidNext);
    if t == s {
      assert steps + [] == steps;
      LedgerTokens.TokensAreConserved(steps);
    } else {
      var more := Expunges(stale, canonical, now);
      ExpungeEachIsSteps(s, stale, canonical, now);
      ExecuteConcat(Empty(), steps, more);
      LedgerTokens.TokensAreConserved(steps + more);
    }
  }
}
