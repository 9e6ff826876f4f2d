/** Token conservation: every suppressed arrival used up a transfer or a tombstone of its own. */
module LedgerTokens {

  import opened Candidates
  import opened LedgerState
  import opened LedgerSteps
  import opened LedgerVerdict

  ghost predicate Ids(s: Ledger) {
    && s.clock > 0 && s.nextTransfer > 0 && s.nextTombstone > 0 && s.nextArrival > 0
    && (forall t :: t in s.transfers ==> 0 < t < s.nextTransfer)
    && (forall f :: f in s.tombstones ==> 0 < f < s.nextTombstone)
    && (forall id :: id in s.arrivals ==> 0 < s.arrivals[id].id < s.nextArrival)
    && (forall i, j :: i in s.arrivals && j in s.arrivals && i != j ==> s.arrivals[i].id != s.arrivals[j].id)
  }

  /** What stands behind the outcome of the arrival of message id. Rows may be pruned, their ids stay taken. */
  ghost predicate TokenOf(s: Ledger, id: int, a: Arrival) {
    && (if a.outcome == LocalMove || a.outcome == LocalCopy then a.transfer > 0 else a.transfer == 0)
    && (a.outcome in {Undecided, Delivery, LocalCopy} ==> a.tombstone == 0)
    && (a.outcome == ExternalMove ==> a.tombstone > 0)
    && a.transfer < s.nextTransfer && a.tombstone < s.nextTombstone
    && (a.transfer in s.transfers ==>
          && s.transfers[a.transfer].state == Consumed && s.transfers[a.transfer].consumedMessage == id
          && s.transfers[a.transfer].kind == (if a.outcome == LocalCopy then Copy else Move))
    && (a.tombstone in s.tombstones ==>
          && s.tombstones[a.tombstone].consumedAt > 0 && s.tombstones[a.tombstone].consumedMessage == id)
  }

  predicate Apart(a: Arrival, b: Arrival) {
    && (a.transfer > 0 ==> a.transfer != b.transfer)
    && (a.tombstone > 0 ==> a.tombstone != b.tombstone)
  }

  ghost predicate OwnTokens(arrivals: map<int, Arrival>) {
    forall i, j :: i in arrivals && j in arrivals && i != j ==> Apart(arrivals[i], arrivals[j])
  }

  ghost predicate Backings(s: Ledger) {
    forall id :: id in s.arrivals ==> TokenOf(s, id, s.arrivals[id])
  }

  ghost predicate Conserved(s: Ledger) {
    Ids(s) && Backings(s) && OwnTokens(s.arrivals)
  }

  // ----- what leaves the tokens alone -----

  /** No used-up row is revived or given away, and no new row takes an old id. */
  ghost predicate KeepsRows(s: Ledger, t: Ledger) {
    && s.clock <= t.clock
    && s.nextTransfer <= t.nextTransfer && s.nextTombstone <= t.nextTombstone && s.nextArrival <= t.nextArrival
    && (forall x :: x in t.transfers ==>
          && 0 < x < t.nextTransfer
          && (x < s.nextTransfer ==>
                && x in s.transfers
                && (s.transfers[x].state == Consumed ==>
                      && t.transfers[x].state == Consumed && t.transfers[x].kind == s.transfers[x].kind
                      && (s.transfers[x].consumedMessage in t.arrivals ==>
                            t.transfers[x].consumedMessage == s.transfers[x].consumedMessage))))
    && (forall x :: x in t.tombstones ==>
          && 0 < x < t.nextTombstone
          && (x < s.nextTombstone ==>
                && x in s.tombstones
                && (s.tombstones[x].consumedAt > 0 ==>
                      && t.tombstones[x].consumedAt > 0
                      && (s.tombstones[x].consumedMessage in t.arrivals ==>
                            t.tombstones[x].consumedMessage == s.tombstones[x].consumedMessage))))
  }

  predicate SameToken(a: Arrival, b: Arrival) {
    a.id == b.id && a.outcome == b.outcome && a.transfer == b.transfer && a.tombstone == b.tombstone
  }

  ghost predicate KeepsArrivals(s: Ledger, t: Ledger) {
    forall id :: id in t.arrivals ==> id in s.arrivals && SameToken(s.arrivals[id], t.arrivals[id])
  }

  lemma ConservedBecauseKept(s: Ledger, t: Ledger)
    requires Conserved(s) && KeepsRows(s, t) && KeepsArrivals(s, t)
    ensures Conserved(t)
  {
    forall id | id in t.arrivals ensures TokenOf(t, id, t.arrivals[id]) {
      assert TokenOf(s, id, s.arrivals[id]);
    }
  }

  // ----- using tokens up -----

  /** An arrival that takes the place of an undecided one, or of none. */
  ghost predicate Fits(s: Ledger, id: int, a: Arrival) {
    && (id in s.arrivals ==> s.arrivals[id].outcome == Undecided && a.id == s.arrivals[id].id)
    && (id !in s.arrivals ==> a.id == s.nextArrival)
  }

  /** The rows of a verdict are still free, so they are behind no other arrival. */
  lemma VerdictIsFree(s: Ledger, v: Verdict, m: Message, id: int, a: Arrival, other: int, now: int)
    requires Conserved(s) && Backed(s, v, m) && now > 0 && other in s.arrivals && other != id
    ensures TokenOf(Settle(s, v, id, a, now), other, s.arrivals[other])
    ensures v.transfer > 0 ==> s.arrivals[other].transfer != v.transfer
    ensures v.tombstone > 0 ==> s.arrivals[other].tombstone != v.tombstone
  {
    assert TokenOf(s, other, s.arrivals[other]);
  }

  lemma VerdictIsToken(s: Ledger, v: Verdict, m: Message, id: int, a: Arrival, now: int)
    requires Ids(s) && Backed(s, v, m) && now > 0
    requires a.outcome == v.outcome && a.transfer == v.transfer && a.tombstone == v.tombstone
    ensures TokenOf(Settle(s, v, id, a, now), id, a)
  {
  }

  lemma SettleKeepsIds(s: Ledger, v: Verdict, m: Message, id: int, a: Arrival, now: int)
    requires Ids(s) && Backed(s, v, m) && Fits(s, id, a)
    ensures Ids(Settle(s, v, id, a, now))
  {
  }

  lemma OneMoreApart(arrivals: map<int, Arrival>, id: int, a: Arrival)
    requires OwnTokens(arrivals)
    requires forall other :: other in arrivals && other != id ==> Apart(a, arrivals[other]) && Apart(arrivals[other], a)
    ensures OwnTokens(arrivals[id := a])
  {
  }

  lemma OneMoreBacked(s: Ledger, t: Ledger, id: int, a: Arrival)
    requires t.arrivals == s.arrivals[id := a] && TokenOf(t, id, a)
    requires forall other :: other in s.arrivals && other != id ==> TokenOf(t, other, s.arrivals[other])
    ensures Backings(t)
  {
    hide TokenOf;
  }

  lemma SettleConserves(s: Ledger, v: Verdict, m: Message, id: int, a: Arrival, now: int)
    requires Conserved(s) && Backed(s, v, m) && Fits(s, id, a) && now > 0
    requires a.outcome == v.outcome && a.transfer == v.transfer && a.tombstone == v.tombstone
    ensures Conserved(Settle(s, v, id, a, now))
  {
    var t := Settle(s, v, id, a, now);
    assert t.arrivals == s.arrivals[id := a];
    SettleKeepsIds(s, v, m, id, a, now);
    VerdictIsToken(s, v, m, id, a, now);
    hide TokenOf, Backed, Settle, Ids, Fits, Backings, OwnTokens;
    forall other | other in s.arrivals && other != id
      ensures TokenOf(t, other, s.arrivals[other])
      ensures Apart(a, s.arrivals[other]) && Apart(s.arrivals[other], a)
    {
      VerdictIsFree(s, v, m, id, a, other, now);
    }
    OneMoreApart(s.arrivals, id, a);
    OneMoreBacked(s, t, id, a);
  }

  // ----- every step conserves them -----

  lemma RestConserves(s: Ledger, t: Ledger)
    requires Conserved(s)
    requires t.transfers == s.transfers && t.nextTransfer == s.nextTransfer && t.clock >= s.clock
    requires t.tombstones == s.tombstones && t.nextTombstone == s.nextTombstone && t.nextArrival == s.nextArrival
    requires KeepsArrivals(s, t)
    ensures Conserved(t)
  {
    ConservedBecauseKept(s, t);
  }

  lemma PruneConserves(s: Ledger, now: int)
    requires Conserved(s)
    ensures Conserved(Prune(s, now))
  {
    ConservedBecauseKept(s, Prune(s, now));
  }

  lemma UpdateConserves(s: Ledger, t: int, row: Transfer)
    requires Conserved(s) && t in s.transfers
    requires s.transfers[t].state == Consumed ==>
               row.state == Consumed && row.kind == s.transfers[t].kind
               && row.consumedMessage == s.transfers[t].consumedMessage
    ensures Conserved(Update(s, t, row))
  {
    ConservedBecauseKept(s, Update(s, t, row));
  }

  lemma ReheldConserves(s: Ledger, id: int, run: int, now: int)
    requires Conserved(s) && id in s.arrivals
    ensures Conserved(Reheld(s, id, run, now))
  {
    hide Conserved;
    var a := s.arrivals[id];
    if a.outcome == Delivery {
      var effective := EitherRun(run, a.run);
      var told := Announce(s, id, effective, a.account, now);
      RestConserves(s, told);
      EditConserves(told, id, a.(run := effective));
    }
  }

  lemma EditConserves(s: Ledger, id: int, a: Arrival)
    requires Conserved(s) && id in s.arrivals && SameToken(s.arrivals[id], a)
    ensures Conserved(Record(s, id, a))
  {
    ConservedBecauseKept(s, Record(s, id, a));
  }

  lemma HoldConserves(s: Ledger, id: int, run: int, supplied: Fingerprint, now: int)
    requires Conserved(s) && now > 0
    ensures Conserved(Hold(s, id, run, supplied, now))
  {
    if id in s.messages && Resolve(s.messages[id], supplied).Some? {
      var fingerprint := Resolve(s.messages[id], supplied).value;
      var stamped := Stamp(s, id, fingerprint);
      RestConserves(s, stamped);
      PruneConserves(stamped, now);
      var pruned := Prune(stamped, now);
      assert pruned.messages == stamped.messages;
      if id in pruned.arrivals && pruned.arrivals[id].outcome != Undecided {
        ReheldConserves(pruned, id, run, now);
      } else {
        HeldOpenConserves(pruned, id, run, fingerprint, now);
      }
      hide Conserved, Prune, HeldOpen, Reheld;
    }
  }

  lemma HeldOpenConserves(s: Ledger, id: int, run: int, fingerprint: Fingerprint, now: int)
    requires Conserved(s) && now > 0 && id in s.messages
    requires id in s.arrivals ==> s.arrivals[id].outcome == Undecided
    ensures Conserved(HeldOpen(s, id, run, fingerprint, now))
  {
    var m := s.messages[id];
    VerdictIsBacked(s, id, m, fingerprint, now);
    var v := Classify(s, id, m, fingerprint, now);
    hide Classify, Settle, Conserved, Backed;
    var a := if id in s.arrivals then Decided(s.arrivals[id].(run := EitherRun(run, s.arrivals[id].run)), v, now)
             else NewArrival(s, m, run, fingerprint, v, now);
    SettleConserves(s, v, m, id, a, now);
  }

  lemma DeliveryConserves(s: Ledger, t: Ledger, id: int, a: Arrival)
    requires Conserved(s) && id in s.arrivals && s.arrivals[id].outcome == Undecided
    requires t == s.(arrivals := s.arrivals[id := a], events := t.events, runs := t.runs)
    requires a.id == s.arrivals[id].id && a.outcome == Delivery && a.transfer == 0 && a.tombstone == 0
    ensures Conserved(t)
  {
    forall other | other in t.arrivals ensures TokenOf(t, other, t.arrivals[other]) {
      assert other != id ==> TokenOf(s, other, s.arrivals[other]);
      assert TokenOf(s, id, s.arrivals[id]);
    }
  }

  lemma LateUseConserves(s: Ledger, v: Verdict, m: Message, id: int, now: int)
    requires Conserved(s) && Backed(s, v, m) && now > 0
    ensures Conserved(Consume(s, v, id, now))
  {
    ConservedBecauseKept(s, Consume(s, v, id, now));
  }

  lemma FinalizeOneConserves(s: Ledger, id: int, account: int, now: int)
    requires Conserved(s) && now > 0
    ensures FinalizeOne(s, id, account, now).Some? ==> Conserved(FinalizeOne(s, id, account, now).value)
  {
    if id in s.arrivals && id in s.messages && Resolve(s.messages[id], s.arrivals[id].fingerprint).Some? {
      var a := s.arrivals[id];
      var fingerprint := Resolve(s.messages[id], a.fingerprint).value;
      var stamped := Stamp(s, id, fingerprint);
      RestConserves(s, stamped);
      assert FinalizeOne(s, id, account, now).value == Conclude(stamped, id, fingerprint, account, now);
      hide FinalizeOne, Conclude, Conserved, Stamp, Resolve;
      ConcludeConserves(stamped, id, fingerprint, account, now);
    }
  }

  lemma ConcludeConserves(s: Ledger, id: int, fingerprint: Fingerprint, account: int, now: int)
    requires Conserved(s) && now > 0 && id in s.arrivals && id in s.messages
    ensures Conserved(Conclude(s, id, fingerprint, account, now))
  {
    var a, m := s.arrivals[id], s.messages[id];
    VerdictIsBacked(s, id, m, fingerprint, now);
    var v := Classify(s, id, m, fingerprint, now);
    assert TokenOf(s, id, a);
    hide Classify, Settle, Conserved, Backed, TokenOf;
    if v.outcome != Undecided {
      if a.outcome == Undecided {
        SettleConserves(s, v, m, id, Decided(a, v, now), now);
      } else {
        LateUseConserves(s, v, m, id, now);
      }
    } else {
      if a.outcome == Undecided {
        assert a.transfer == 0 && a.tombstone == 0;
        DeliveryConserves(s, Deliver(s, id, a, account, now), id, a.(outcome := Delivery, finalizedAt := now));
      } else {
        RestConserves(s, Announce(s, id, a.run, account, now));
      }
    }
  }

  lemma {:induction false} FinalizeEachConserves(s: Ledger, due: seq<Candidate>, account: int, now: int)
    requires Conserved(s) && now > 0
    ensures FinalizeEach(s, due, account, now).Some? ==> Conserved(FinalizeEach(s, due, account, now).value)
    decreases |due|
  {
    hide Conserved, FinalizeOne;
    if due != [] {
      if HasArrival(s, due[0].id) {
        FinalizeOneConserves(s, MessageOf(s, due[0].id), account, now);
        var next := FinalizeOne(s, MessageOf(s, due[0].id), account, now);
        if next.Some? {
          FinalizeEachConserves(next.value, due[1..], account, now);
        }
      } else {
        FinalizeEachConserves(s, due[1..], account, now);
      }
    }
  }

  lemma FinalizeDueConserves(s: Ledger, account: int, now: int)
    requires Conserved(s) && now > 0
    ensures Conserved(FinalizeDue(s, account, now))
  {
    PruneConserves(s, now);
    FinalizeEachConserves(Prune(s, now), DueBatch(Prune(s, now), account, now), account, now);
    hide Conserved, Prune, FinalizeEach;
  }

  lemma SweepConserves(s: Ledger, now: int)
    requires Conserved(s)
    ensures Conserved(s.(transfers := LiveTransfers(s.transfers, now)))
  {
    ConservedBecauseKept(s, s.(transfers := LiveTransfers(s.transfers, now)));
  }

  lemma NewTransferConserves(s: Ledger, row: Transfer)
    requires Conserved(s)
    ensures Conserved(s.(transfers := s.transfers[s.nextTransfer := row], nextTransfer := s.nextTransfer + 1))
  {
    ConservedBecauseKept(s, s.(transfers := s.transfers[s.nextTransfer := row], nextTransfer := s.nextTransfer + 1));
  }

  lemma StageConserves(s: Ledger, source: int, destination: int, kind: Kind, canonical: int, now: int)
    requires Conserved(s)
    ensures Conserved(Stage(s, source, destination, kind, canonical, now))
  {
    hide Conserved, LiveTransfers, SameOperation, Active;
    if MayStage(s, source, destination, kind)
       && Resolve(s.messages[source], Fingerprint(0, canonical, 0, 0, 0)).Some? {
      var fingerprint := Resolve(s.messages[source], Fingerprint(0, canonical, 0, 0, 0)).value;
      var stamped := Stamp(s, source, fingerprint);
      RestConserves(s, stamped);
      SweepConserves(stamped, now);
      var live := stamped.(transfers := LiveTransfers(s.transfers, now));
      NewTransferConserves(live, NewTransfer(s.messages[source], kind, s.mailboxes[destination].account, destination,
                                             fingerprint, now));
    }
  }

  lemma BuryConserves(s: Ledger, m: Message, fingerprint: Fingerprint, now: int)
    requires Conserved(s)
    ensures Conserved(Bury(s, m, fingerprint, now))
  {
    hide IsKnown, Conserved;
    if !IsKnown(s, m) {
      NewTombstoneConserves(s, Bury(s, m, fingerprint, now).tombstones[s.nextTombstone]);
    }
  }

  lemma NewTombstoneConserves(s: Ledger, row: Tombstone)
    requires Conserved(s)
    ensures Conserved(s.(tombstones := s.tombstones[s.nextTombstone := row], nextTombstone := s.nextTombstone + 1))
  {
    var t := s.(tombstones := s.tombstones[s.nextTombstone := row], nextTombstone := s.nextTombstone + 1);
    assert KeepsRows(s, t) && KeepsArrivals(s, t);
    ConservedBecauseKept(s, t);
  }

  lemma ExpungeConserves(s: Ledger, id: int, canonical: int, now: int)
    requires Conserved(s)
    ensures Conserved(Expunge(s, id, canonical, now))
  {
    hide First, SourceMoves, Conserved, Bury, Resolve, ResolveMove;
    if id in s.messages && s.messages[id].mailbox in s.mailboxes {
      var m := s.messages[id];
      if SourceMoves(s, m) != {} {
        ResolveMoveConserves(s, s.nextTransfer - First(SourceMoves(s, m)).id, now);
      } else if Resolve(m, Fingerprint(0, canonical, 0, 0, 0)).Some? {
        var fingerprint := Resolve(m, Fingerprint(0, canonical, 0, 0, 0)).value;
        RestConserves(s, Stamp(s, id, fingerprint));
        BuryConserves(Stamp(s, id, fingerprint), m, fingerprint, now);
      }
    }
  }

  lemma ResolveMoveConserves(s: Ledger, t: int, now: int)
    requires Conserved(s)
    ensures Conserved(ResolveMove(s, t, now))
  {
    hide Conserved;
    if t in s.transfers && s.transfers[t].state == Pending {
      UpdateConserves(s, t, ResolveMove(s, t, now).transfers[t]);
    }
  }

  lemma DeleteConserves(s: Ledger, gone: set<int>)
    requires Conserved(s)
    ensures Conserved(Delete(s, gone))
  {
    ConservedBecauseKept(s, Delete(s, gone));
  }

  lemma DropConserves(s: Ledger, mailbox: int)
    requires Conserved(s)
    ensures Conserved(Drop(s, mailbox))
  {
    var gone := set id | id in s.messages && s.messages[id].mailbox == mailbox;
    DeleteConserves(s, gone);
    ConservedBecauseKept(Delete(s, gone), Drop(s, mailbox));
  }

  lemma RestoreConserves(s: Ledger, id: int, a: Arrival)
    requires Conserved(s) && MayRestore(s, id, a)
    ensures Conserved(Record(s, id, a))
  {
    var t := Record(s, id, a);
    forall other | other in s.arrivals ensures TokenOf(t, other, s.arrivals[other]) {
      assert TokenOf(s, other, s.arrivals[other]);
    }
  }

  lemma TransferStepConserves(s: Ledger, step: TransferStep, now: int)
    requires Conserved(s)
    ensures Conserved(DoTransfer(s, step, now))
  {
    hide Conserved, Stage, Expunge;
    match step
    case Staged(source, destination, kind, canonical) => StageConserves(s, source, destination, kind, canonical, now);
    case Expunged(id, canonical) => ExpungeConserves(s, id, canonical, now);
    case _ =>
      var t := step.t;
      if t in s.transfers && DoTransfer(s, step, now) != s {
        UpdateConserves(s, t, DoTransfer(s, step, now).transfers[t]);
      }
  }

  lemma DeferKeepsTokens(s: Ledger, account: int, ids: seq<int>, retryAt: int)
    ensures KeepsArrivals(s, Defer(s, account, ids, retryAt))
    ensures Defer(s, account, ids, retryAt) == s.(arrivals := Defer(s, account, ids, retryAt).arrivals)
  {
  }

  lemma DeferConserves(s: Ledger, account: int, ids: seq<int>, retryAt: int)
    requires Conserved(s)
    ensures Conserved(Defer(s, account, ids, retryAt))
  {
    hide Conserved, Defer, KeepsArrivals;
    DeferKeepsTokens(s, account, ids, retryAt);
    RestConserves(s, Defer(s, account, ids, retryAt));
  }

  lemma ArrivalStepConserves(s: Ledger, step: ArrivalStep, now: int)
    requires Conserved(s) && now > 0
    ensures Conserved(DoArrival(s, step, now))
  {
    hide Conserved, Hold, FinalizeDue, Defer, MayRestore, Record;
    match step
    case Held(id, run, supplied) => HoldConserves(s, id, run, supplied, now);
    case Finalized(account) => FinalizeDueConserves(s, account, now);
    case Deferred(account, ids, retryAt) => DeferConserves(s, account, ids, retryAt);
    case Restored(id, arrival) =>
      if MayRestore(s, id, arrival) {
        RestoreConserves(s, id, arrival);
      }
  }

  lemma WorldStepConserves(s: Ledger, step: WorldStep, now: int)
    requires Conserved(s)
    ensures Conserved(DoWorld(s, step, now))
  {
    hide Conserved, Delete, Drop;
    match step
    case Deleted(id) => DeleteConserves(s, {id});
    case Dropped(mailbox) => DropConserves(s, mailbox);
    case _ =>
      WorldKeepsTokens(s, step, now);
      RestConserves(s, DoWorld(s, step, now));
  }

  lemma WorldKeepsTokens(s: Ledger, step: WorldStep, now: int)
    requires !step.Deleted? && !step.Dropped?
    ensures var t := DoWorld(s, step, now);
            && t.transfers == s.transfers && t.nextTransfer == s.nextTransfer && t.clock == s.clock
            && t.tombstones == s.tombstones && t.nextTombstone == s.nextTombstone
            && t.arrivals == s.arrivals && t.nextArrival == s.nextArrival
    ensures KeepsArrivals(s, DoWorld(s, step, now))
  {
    WorldMovesNoToken(s, step, now);
    hide DoWorld, KeepsArrivals;
    SameArrivalsKeepTokens(s, DoWorld(s, step, now));
  }

  lemma WorldMovesNoToken(s: Ledger, step: WorldStep, now: int)
    requires !step.Deleted? && !step.Dropped?
    ensures var t := DoWorld(s, step, now);
            && t.transfers == s.transfers && t.nextTransfer == s.nextTransfer && t.clock == s.clock
            && t.tombstones == s.tombstones && t.nextTombstone == s.nextTombstone
            && t.arrivals == s.arrivals && t.nextArrival == s.nextArrival
  {
    hide DoWorld;
    if step.Stored? || step.Fingerprinted? {
      MessagesMoveNoToken(s, step, now);
    } else if step.RunStarted? || step.RunReported? {
      RunsMoveNoToken(s, step, now);
    } else {
      RestMovesNoToken(s, step, now);
    }
  }

  ghost predicate SameTokens(s: Ledger, t: Ledger) {
    && t.transfers == s.transfers && t.nextTransfer == s.nextTransfer && t.clock == s.clock
    && t.tombstones == s.tombstones && t.nextTombstone == s.nextTombstone
    && t.arrivals == s.arrivals && t.nextArrival == s.nextArrival
  }

  lemma MessagesMoveNoToken(s: Ledger, step: WorldStep, now: int)
    requires step.Stored? || step.Fingerprinted?
    ensures SameTokens(s, DoWorld(s, step, now))
  {
  }

  lemma RunsMoveNoToken(s: Ledger, step: WorldStep, now: int)
    requires step.RunStarted? || step.RunReported?
    ensures SameTokens(s, DoWorld(s, step, now))
  {
  }

  lemma RestMovesNoToken(s: Ledger, step: WorldStep, now: int)
    requires step.MailboxSet? || step.Marked? || step.Unmarked? || step.EventRestored?
    ensures SameTokens(s, DoWorld(s, step, now))
  {
  }

  lemma SameArrivalsKeepTokens(s: Ledger, t: Ledger)
    requires t.arrivals == s.arrivals
    ensures KeepsArrivals(s, t)
  {
  }

  /** Whatever happens, in whatever order. */
  lemma ApplyConserves(s: Ledger, step: Step, now: int)
    requires Conserved(s)
    ensures Conserved(Apply(s, step, now))
  {
    if now >= s.clock {
      assert now > 0;
      var c := s.(clock := now);
      RestConserves(s, c);
      hide Conserved, DoArrival, DoTransfer, DoWorld;
      match step
      case Arriving(arriving) => ArrivalStepConserves(c, arriving, now);
      case Transferring(transferring) => TransferStepConserves(c, transferring, now);
      case Turning(turning) => WorldStepConserves(c, turning, now);
    }
  }

  /** In every state a run can reach, each suppressed arrival has a token of its own behind it. */
  lemma {:induction false} TokensAreConserved(steps: seq<Timed>)
    ensures Conserved(Execute(Empty(), steps))
  {
    hide Conserved;
    if steps == [] {
      EmptyIsConserved();
    } else {
      TokensAreConserved(steps[..|steps| - 1]);
      var last := steps[|steps| - 1];
      ApplyConserves(Execute(Empty(), steps[..|steps| - 1]), last.step, last.at);
    }
  }

  lemma EmptyIsConserved()
    ensures Conserved(Empty())
  {
  }

  /** A local copy never takes a tombstone away from the move it belongs to, and no token serves two arrivals. */
  lemma NoTokenServesTwice(s: Ledger, i: int, j: int)
    requires Conserved(s) && i in s.arrivals && j in s.arrivals
    ensures s.arrivals[i].outcome == LocalCopy ==> s.arrivals[i].transfer > 0 && s.arrivals[i].tombstone == 0
    ensures s.arrivals[i].outcome == LocalMove ==> s.arrivals[i].transfer > 0
    ensures s.arrivals[i].outcome == ExternalMove ==> s.arrivals[i].transfer == 0 && s.arrivals[i].tombstone > 0
    ensures i != j ==> Apart(s.arrivals[i], s.arrivals[j])
  {
    assert TokenOf(s, i, s.arrivals[i]);
  }
}
