/** Dispatch claims: every attempt of a transfer is handed out once, and only the latest one can act on it. */
module LedgerClaims {

  import opened Bytes
  import opened HeaderText
  import opened LedgerState
  import opened LedgerSteps
  import opened LedgerTransfers

  // ----- what claims hand out -----

  /** One claim handed out: the transfer, the owner as stored, and the number of the attempt. */
  datatype Handed = Handed(t: int, owner: seq<Byte>, attempt: int)

  /** What a step hands out. */
  function HandedBy(s: Ledger, step: Step, now: int): seq<Handed> {
    if && now >= s.clock && step.Transferring? && step.transferring.Claimed?
       && ValidOwner(step.transferring.claimant) && Claimable(s, step.transferring.t)
    then
      var t := step.transferring.t;
      [Handed(t, TrimSpace(step.transferring.claimant), s.transfers[t].attempt + 1)]
    else []
  }

  ghost function History(steps: seq<Timed>): seq<Handed> {
    if steps == [] then []
    else
      var last := steps[|steps| - 1];
      History(steps[..|steps| - 1]) + HandedBy(Execute(Empty(), steps[..|steps| - 1]), last.step, last.at)
  }

  /** Everything handed out for a transfer is numbered upwards, and its row carries the latest number. */
  ghost predicate Accounted(s: Ledger, history: seq<Handed>) {
    && (forall i :: 0 <= i < |history| ==>
          && 0 < history[i].attempt && history[i].t < s.nextTransfer
          && (history[i].t in s.transfers ==> history[i].attempt <= s.transfers[history[i].t].attempt))
    && (forall i, j :: 0 <= i < j < |history| && history[i].t == history[j].t ==> history[i].attempt < history[j].attempt)
  }

  lemma EvolvingStaysAccounted(s: Ledger, t: Ledger, history: seq<Handed>)
    requires Accounted(s, history) && Evolves(s, t)
    ensures Accounted(t, history)
  {
  }

  lemma HandedOutIsNumbered(s: Ledger, step: Step, now: int, h: Handed)
    requires Numbered(s) && HandedBy(s, step, now) == [h]
    ensures var t := Apply(s, step, now);
            && 0 < h.attempt && h.t < t.nextTransfer && h.t in t.transfers && t.transfers[h.t].attempt == h.attempt
            && h.t in s.transfers && s.transfers[h.t].attempt < h.attempt
  {
    hide TrimSpace;
    assert WellClaimed(s.transfers[h.t]);
  }

  /** A claim that is handed out bears a number above all before it. */
  lemma ClaimIsAccounted(s: Ledger, step: Step, now: int, history: seq<Handed>)
    requires Numbered(s) && Accounted(s, history) && Evolves(s, Apply(s, step, now))
    ensures Accounted(Apply(s, step, now), history + HandedBy(s, step, now))
  {
    var t := Apply(s, step, now);
    EvolvingStaysAccounted(s, t, history);
    if HandedBy(s, step, now) != [] {
      var h := HandedBy(s, step, now)[0];
      HandedOutIsNumbered(s, step, now, h);
      hide Apply, HandedBy, Numbered, Evolves;
    }
  }

  lemma {:induction false} RunIsAccounted(steps: seq<Timed>)
    ensures Accounted(Execute(Empty(), steps), History(steps))
  {
    if steps != [] {
      var before, last := steps[..|steps| - 1], steps[|steps| - 1];
      RunIsAccounted(before);
      RunIsExclusive(before);
      StepEvolves(Execute(Empty(), before), last.step, last.at);
      ClaimIsAccounted(Execute(Empty(), before), last.step, last.at, History(before));
    }
  }

  // ----- what an old claim can do: nothing -----

  /** Over any interleaving of owners, no attempt of a transfer is handed out twice, and later ones have higher
      numbers; a claim that a later one has followed can neither finish nor reopen the transfer. */
  lemma OldClaimsAreDead(steps: seq<Timed>, i: int, j: int, currentOwner: seq<Byte>, now: int)
    requires 0 <= i < j < |History(steps)| && History(steps)[i].t == History(steps)[j].t
    ensures var s, earlier, later := Execute(Empty(), steps), History(steps)[i], History(steps)[j];
            && earlier.attempt < later.attempt
            && Finish(s, earlier.t, earlier.owner, earlier.attempt, now) == s
            && Reopen(s, earlier.t, earlier.owner, earlier.attempt, currentOwner) == s
  {
    RunIsAccounted(steps);
  }

  /** The owner's own claim, while it runs, is safe from being reopened by the process that holds it exactly when the
      process names itself without surrounding white space: claims store the trimmed name, and the comparison that
      protects them is with the name as it comes. */
  lemma OwnClaimIsSafeIfTrimmed(s: Ledger, t: int, owner: seq<Byte>, now: int)
    requires Numbered(s) && ValidOwner(owner) && Claimable(s, t) && now > 0
    ensures var claimed := Claim(s, t, owner, now);
            var row := claimed.transfers[t];
            Reopen(claimed, t, row.owner, row.attempt, owner) == claimed <==> TrimSpace(owner) == owner
  {
    hide TrimSpace;
    var claimed := Claim(s, t, owner, now);
    var row := claimed.transfers[t];
    if TrimSpace(owner) != owner {
      assert Reopen(claimed, t, row.owner, row.attempt, owner).transfers[t].dispatchedAt == 0;
    }
  }

  /** In general, what reopens a claim that runs is a name other than the stored one, and nothing else. */
  lemma RunningClaimReopens(s: Ledger, t: int, owner: seq<Byte>, attempt: int, currentOwner: seq<Byte>)
    requires Numbered(s) && Holds(s, t, owner, attempt) && s.transfers[t].finishedAt == 0
    ensures Reopen(s, t, owner, attempt, currentOwner) != s <==> TrimSpace(currentOwner) != [] && currentOwner != owner
  {
    hide TrimSpace;
    if TrimSpace(currentOwner) != [] && currentOwner != owner {
      assert Reopen(s, t, owner, attempt, currentOwner).transfers[t].dispatchedAt == 0;
    }
  }

  // ----- how a claim ends: only by being reopened -----

  predicate StillClaimed(row: Transfer, h: Handed) {
    row.dispatchedAt > 0 && row.owner == h.owner && row.attempt == h.attempt
  }

  /** The step reopens the claim: it quotes it exactly, and the attempt is finished or another owner's. */
  predicate Reopens(s: Ledger, step: Step, now: int, h: Handed) {
    && now >= s.clock && step.Transferring? && step.transferring.Reopened? && step.transferring.t == h.t
    && step.transferring.claimant == h.owner && step.transferring.attempt == h.attempt
    && Holds(s, h.t, h.owner, h.attempt) && TrimSpace(step.transferring.currentOwner) != []
    && (s.transfers[h.t].finishedAt > 0 || h.owner != step.transferring.currentOwner)
  }

  lemma LegalKeepsClaims(s: Ledger, t: Ledger, h: Handed)
    requires LegalRows(s, t) && h.t in s.transfers && StillClaimed(s.transfers[h.t], h)
    ensures h.t in t.transfers ==> StillClaimed(t.transfers[h.t], h)
  {
  }

  lemma StageKeepsClaims(s: Ledger, source: int, destination: int, kind: Kind, canonical: int, now: int, h: Handed)
    requires Numbered(s) && h.t in s.transfers && StillClaimed(s.transfers[h.t], h)
    ensures var u := Stage(s, source, destination, kind, canonical, now);
            h.t in u.transfers ==> StillClaimed(u.transfers[h.t], h)
  {
    hide SameOperation, Active, Resolve, Stamp, MayStage;
    assert h.t != s.nextTransfer;
  }

  lemma RowStepKeepsClaims(s: Ledger, step: TransferStep, now: int, h: Handed)
    requires !step.Staged? && !step.Expunged? && now > 0 && s.clock <= now
    requires h.t in s.transfers && StillClaimed(s.transfers[h.t], h)
    ensures var u := DoTransfer(s, step, now);
            && h.t in u.transfers
            && (StillClaimed(u.transfers[h.t], h) || Reopens(s, Transferring(step), now, h))
  {
    hide TrimSpace;
  }

  /** In one step a claim stays, goes with its row, or is reopened. */
  lemma ClaimStaysOrReopens(s: Ledger, step: Step, now: int, h: Handed)
    requires Numbered(s) && h.t in s.transfers && StillClaimed(s.transfers[h.t], h)
    ensures var u := Apply(s, step, now);
            h.t in u.transfers ==> StillClaimed(u.transfers[h.t], h) || Reopens(s, step, now, h)
  {
    if now >= s.clock {
      var c := s.(clock := now);
      assert Numbered(c) && 0 !in c.transfers;
      hide Numbered, LegalRows, DoArrival, DoWorld, StillClaimed, TrimSpace;
      match step
      case Arriving(arriving) =>
        ArrivalStepIsLegal(c, arriving, now);
        LegalKeepsClaims(c, DoArrival(c, arriving, now), h);
      case Turning(turning) =>
        WorldStepIsLegal(c, turning, now);
        LegalKeepsClaims(c, DoWorld(c, turning, now), h);
      case Transferring(transferring) =>
        ClockIsPositive(s, now);
        TransferStepKeepsClaims(c, transferring, now, h);
        ReopensAtTheSame(s, c, step, now, h);
        hide DoTransfer, Reopens;
    }
  }

  lemma ReopensAtTheSame(s: Ledger, c: Ledger, step: Step, now: int, h: Handed)
    requires now >= s.clock && c == s.(clock := now)
    ensures Reopens(c, step, now, h) <==> Reopens(s, step, now, h)
  {
    hide TrimSpace;
  }

  lemma TransferStepKeepsClaims(s: Ledger, step: TransferStep, now: int, h: Handed)
    requires Numbered(s) && 0 < now == s.clock && h.t in s.transfers && StillClaimed(s.transfers[h.t], h)
    ensures var u := DoTransfer(s, step, now);
            h.t in u.transfers ==> StillClaimed(u.transfers[h.t], h) || Reopens(s, Transferring(step), now, h)
  {
    hide LegalRows, Stage, Expunge, StillClaimed, Reopens, Numbered;
    match step
    case Staged(source, destination, kind, canonical) =>
      StageKeepsClaims(s, source, destination, kind, canonical, now, h);
    case Expunged(id, canonical) =>
      ExpungeIsLegal(s, id, canonical, now);
      LegalKeepsClaims(s, Expunge(s, id, canonical, now), h);
    case _ => RowStepKeepsClaims(s, step, now, h);
  }

  lemma ClockIsPositive(s: Ledger, now: int)
    requires Numbered(s) && now >= s.clock
    ensures now > 0
  {
  }

  ghost function At(steps: seq<Timed>, n: nat): Ledger
    requires n <= |steps|
  {
    Execute(Empty(), steps[..n])
  }

  /** The k-th step hands out this claim. */
  ghost predicate HandsOut(steps: seq<Timed>, k: nat, h: Handed)
    requires k < |steps|
  {
    HandedBy(At(steps, k), steps[k].step, steps[k].at) == [h]
  }

  ghost predicate ReopenedBetween(steps: seq<Timed>, k: nat, n: nat, h: Handed)
    requires n <= |steps|
  {
    exists m :: k < m < n && Reopens(At(steps, m), steps[m].step, steps[m].at, h)
  }

  lemma OneStepMore(steps: seq<Timed>, n: nat)
    requires n < |steps|
    ensures At(steps, n + 1) == Apply(At(steps, n), steps[n].step, steps[n].at)
  {
    assert steps[..n + 1][..n] == steps[..n];
  }

  lemma HandedOutIsClaimed(s: Ledger, step: Step, now: int, h: Handed)
    requires Numbered(s) && HandedBy(s, step, now) == [h]
    ensures var u := Apply(s, step, now); h.t in s.transfers && h.t in u.transfers && StillClaimed(u.transfers[h.t], h)
  {
    hide TrimSpace;
  }

  /** The claim is on its row, as long as the row is there. */
  ghost predicate OnItsRow(s: Ledger, h: Handed) {
    h.t < s.nextTransfer && (h.t in s.transfers ==> StillClaimed(s.transfers[h.t], h))
  }

  /** From its hand-out on, a claim that is not reopened stays on its row as long as the row is there. */
  lemma {:induction false} ClaimStays(steps: seq<Timed>, k: nat, n: nat, h: Handed)
    requires k < n <= |steps| && HandsOut(steps, k, h) && !ReopenedBetween(steps, k, n, h)
    ensures OnItsRow(At(steps, n), h)
    decreases n
  {
    hide *;
    OneStepMore(steps, n - 1);
    StateIsNumbered(steps, n - 1);
    if n == k + 1 {
      HandsOutHere(steps, k, h);
      NewClaimStays(At(steps, k), steps[k].step, steps[k].at, h);
    } else {
      NotReopenedEarlier(steps, k, n, h);
      ClaimStays(steps, k, n - 1, h);
      OldClaimStays(At(steps, n - 1), steps[n - 1].step, steps[n - 1].at, h);
    }
  }

  lemma StateIsNumbered(steps: seq<Timed>, n: nat)
    requires n <= |steps|
    ensures Numbered(At(steps, n)) && Exclusive(At(steps, n))
  {
    RunIsExclusive(steps[..n]);
  }

  lemma HandsOutHere(steps: seq<Timed>, k: nat, h: Handed)
    requires k < |steps| && HandsOut(steps, k, h)
    ensures HandedBy(At(steps, k), steps[k].step, steps[k].at) == [h]
  {
  }

  lemma NotReopenedEarlier(steps: seq<Timed>, k: nat, n: nat, h: Handed)
    requires k + 1 < n <= |steps| && !ReopenedBetween(steps, k, n, h)
    ensures !ReopenedBetween(steps, k, n - 1, h)
    ensures !Reopens(At(steps, n - 1), steps[n - 1].step, steps[n - 1].at, h)
  {
    hide Reopens, At;
  }

  lemma NewClaimStays(s: Ledger, step: Step, now: int, h: Handed)
    requires Numbered(s) && Exclusive(s) && HandedBy(s, step, now) == [h]
    ensures OnItsRow(Apply(s, step, now), h)
  {
    hide Exclusive, StillClaimed, Apply, HandedBy;
    StepEvolves(s, step, now);
    HandedOutIsClaimed(s, step, now, h);
    TransferIsNumbered(s, h.t);
  }

  lemma OldClaimStays(s: Ledger, step: Step, now: int, h: Handed)
    requires Numbered(s) && Exclusive(s) && OnItsRow(s, h) && !Reopens(s, step, now, h)
    ensures OnItsRow(Apply(s, step, now), h)
  {
    hide Exclusive, Numbered, StillClaimed, Apply, Reopens;
    StepEvolves(s, step, now);
    if h.t in Apply(s, step, now).transfers {
      OldRowsOnly(s, Apply(s, step, now), h.t);
      ClaimStaysOrReopens(s, step, now, h);
    }
  }

  lemma TransferIsNumbered(s: Ledger, t: int)
    requires Numbered(s) && t in s.transfers
    ensures 0 < t < s.nextTransfer
  {
  }

  lemma OldRowsOnly(s: Ledger, u: Ledger, t: int)
    requires Evolves(s, u) && t < s.nextTransfer && t in u.transfers
    ensures t in s.transfers
  {
  }

  /** Over any interleaving of owners and of everything else: between two hand-outs of a transfer the first claim was
      reopened, by a step that quoted exactly its owner and attempt, when it was finished or for another owner. */
  lemma ClaimsEndByReopening(steps: seq<Timed>, k: nat, n: nat, h: Handed, next: Handed)
    requires k < n < |steps| && HandsOut(steps, k, h) && HandsOut(steps, n, next) && h.t == next.t
    ensures ReopenedBetween(steps, k, n, h)
  {
    if !ReopenedBetween(steps, k, n, h) {
      ClaimStays(steps, k, n, h);
    }
  }

  /** So in every state a run can reach, of all claims ever handed out for a transfer at most one was not reopened. */
  lemma AtMostOneClaimIsOpen(steps: seq<Timed>, k: nat, n: nat, h: Handed, other: Handed)
    requires k < |steps| && n < |steps| && HandsOut(steps, k, h) && HandsOut(steps, n, other) && h.t == other.t
    requires !ReopenedBetween(steps, k, |steps|, h) && !ReopenedBetween(steps, n, |steps|, other)
    ensures k == n && h == other
  {
    hide HandedBy, Reopens;
    if k < n {
      ClaimsEndByReopening(steps, k, n, h, other);
    } else if n < k {
      ClaimsEndByReopening(steps, n, k, other, h);
    }
  }

  /** And it is the latest: while its row is there, it is the one that the row shows. */
  lemma OpenClaimIsOnItsRow(steps: seq<Timed>, k: nat, h: Handed)
    requires k < |steps| && HandsOut(steps, k, h) && !ReopenedBetween(steps, k, |steps|, h)
    ensures var s := Execute(Empty(), steps); h.t in s.transfers ==> StillClaimed(s.transfers[h.t], h)
  {
    ClaimStays(steps, k, |steps|, h);
    assert steps[..|steps|] == steps;
  }
}
