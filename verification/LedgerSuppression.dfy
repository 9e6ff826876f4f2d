/**
 How long a message stays suppressed: exactly as long as its arrival row. The row goes when it is pruned, a week after
 the decision, by the next hold or finalization of any arrival, or with its message; and then it takes a new row to
 announce the message.
 */
module LedgerSuppression {

  import opened LedgerAnnouncements
  import opened LedgerDelivery
  import opened LedgerOnce
  import opened LedgerState
  import opened LedgerSteps

  // ----- when a row goes -----

  ghost predicate SameRow(s: Ledger, t: Ledger, id: int)
    requires id in s.arrivals
  {
    id in t.arrivals && t.arrivals[id].id == s.arrivals[id].id
  }

  /** The step is one of the two transactions that prune, and goes through. */
  ghost predicate Prunes(s: Ledger, step: Step, now: int) {
    && now >= s.clock && step.Arriving?
    && match step.arriving
       case Held(id, run, supplied) => MayHold(s, id, run, supplied)
       case Finalized(account) => MayFinalize(s.(clock := now), account, now)
       case _ => false
  }

  /** The guard under which the arrival row of a message goes. */
  ghost predicate Removes(s: Ledger, step: Step, now: int, id: int)
    requires id in s.arrivals
  {
    || (Prunes(s, step, now) && Outlived(s.arrivals[id], now))
    || (now >= s.clock && step == Turning(Deleted(id)))
    || (now >= s.clock && step == Turning(Dropped(s.arrivals[id].mailbox)))
  }

  /** The guard under which a message can get one: a hold of it, or a restore after a reset. */
  predicate Records(s: Ledger, step: Step, now: int, id: int) {
    && now >= s.clock && step.Arriving?
    && match step.arriving
       case Held(held, run, supplied) => held == id && MayHold(s, id, run, supplied)
       case Restored(restored, arrival) => restored == id && MayRestore(s.(clock := now), id, arrival)
       case _ => false
  }

  lemma PrunedRows(s: Ledger, now: int, id: int)
    ensures id in Prune(s, now).arrivals <==> id in s.arrivals && !Outlived(s.arrivals[id], now)
    ensures id in Prune(s, now).arrivals ==> Prune(s, now).arrivals[id] == s.arrivals[id]
  {
    hide Stale, LiveTransfers;
  }

  lemma HoldRows(s: Ledger, held: int, run: int, supplied: Fingerprint, now: int, id: int)
    requires AllTold(s) && 0 < now <= s.clock && MayHold(s, held, run, supplied)
    ensures var t := Hold(s, held, run, supplied, now);
            && (id in s.arrivals ==> (SameRow(s, t, id) <==> !Outlived(s.arrivals[id], now)))
            && (id in t.arrivals ==> id == held || (id in s.arrivals && SameRow(s, t, id)))
  {
    var fingerprint := Resolve(s.messages[held], supplied).value;
    var pruned := Prune(Stamp(s, held, fingerprint), now);
    PrunedRows(Stamp(s, held, fingerprint), now, id);
    StampedAndPruned(s, held, fingerprint, now);
    if id in s.arrivals {
      ToldHere(s, id);
    }
    assert held in pruned.messages && pruned.nextArrival == s.nextArrival;
    hide AllTold, Prune, Resolve, Reheld, HeldOpen, Quiet, Outlived;
    if held in pruned.arrivals && pruned.arrivals[held].outcome != Undecided {
      ReheldAnnouncesNothing(pruned, held, run, now);
    } else {
      HeldOpenDecides(pruned, held, run, fingerprint, now);
    }
  }

  lemma FinalizeRows(s: Ledger, account: int, now: int, id: int)
    requires AllTold(s) && 0 < now <= s.clock && MayFinalize(s, account, now)
    ensures var t := FinalizeDue(s, account, now);
            && (id in s.arrivals ==> (SameRow(s, t, id) <==> !Outlived(s.arrivals[id], now)))
            && (id in t.arrivals ==> id in s.arrivals && SameRow(s, t, id))
  {
    var pruned := Prune(s, now);
    PrunedRows(s, now, id);
    PruneIsQuiet(s, now);
    BatchWaits(pruned, account, now);
    assert DistinctIds(pruned.arrivals);
    var due := DueBatch(pruned, account, now);
    hide AllTold, Prune, Quiet, Outlived, DueBatch, Waits, FinalizeEach;
    FinalizeEachSettles(pruned, due, account, now);
  }

  lemma TurningRows(s: Ledger, step: WorldStep, now: int, id: int)
    requires AllTold(s)
    ensures var t := DoWorld(s, step, now);
            && (id in s.arrivals ==>
                  (SameRow(s, t, id) <==> step != Deleted(id) && step != Dropped(s.arrivals[id].mailbox)))
            && (id in t.arrivals ==> id in s.arrivals && SameRow(s, t, id))
  {
    if id in s.arrivals {
      assert Told(s, id, s.arrivals[id]);
    }
    hide AllTold, Told;
    match step
    case Dropped(mailbox) =>
      assert DoWorld(s, step, now).arrivals ==
             s.arrivals - (set other | other in s.messages && s.messages[other].mailbox == mailbox);
    case _ =>
  }

  lemma RestRows(s: Ledger, step: Step, now: int, id: int)
    requires step.Transferring? || (step.Arriving? && (step.arriving.Deferred? || step.arriving.Restored?))
    ensures var t := Do(s, step, now);
            && (id in s.arrivals ==> SameRow(s, t, id))
            && (id in t.arrivals && id !in s.arrivals ==>
                  step.Arriving? && step.arriving.Restored? && step.arriving.id == id
                  && MayRestore(s, id, step.arriving.arrival))
  {
    hide DoTransfer, MayRestore, Defer, SameRow;
    match step
    case Transferring(transferring) =>
      TransferStepKeepsArrivals(s, transferring, now);
      SameArrivalsKeepRows(s, DoTransfer(s, transferring, now), id);
    case Arriving(arriving) =>
      SameArrivalsKeepRows(s, s, id);
      match arriving {
        case Deferred(account, ids, retryAt) => DeferRows(s, account, ids, retryAt, id);
        case Restored(restored, arrival) =>
          if MayRestore(s, restored, arrival) {
            RestoreRows(s, restored, arrival, id);
          }
        case _ =>
      }
  }

  lemma SameArrivalsKeepRows(s: Ledger, t: Ledger, id: int)
    requires t.arrivals == s.arrivals
    ensures id in s.arrivals ==> SameRow(s, t, id)
  {
  }

  lemma DeferRows(s: Ledger, account: int, ids: seq<int>, retryAt: int, id: int)
    ensures var t := Defer(s, account, ids, retryAt);
            (id in t.arrivals <==> id in s.arrivals) && (id in s.arrivals ==> SameRow(s, t, id))
  {
    hide DeferRow;
    if id in s.arrivals {
      PutOffOrNot(s.arrivals[id], id in ids, account, retryAt);
    }
  }

  lemma RestoreRows(s: Ledger, restored: int, a: Arrival, id: int)
    requires MayRestore(s, restored, a)
    ensures var t := Record(s, restored, a);
            && (id in s.arrivals ==> SameRow(s, t, id))
            && (id in t.arrivals && id !in s.arrivals ==> id == restored)
  {
  }

  /** In one step the row of a message goes, or is replaced, if and only if the guard holds; and it comes, or is
      replaced, only by a hold or a restore of that message. */
  lemma RowIsRemoved(s: Ledger, step: Step, now: int, id: int)
    requires AllTold(s)
    ensures var t := Apply(s, step, now);
            && (id in s.arrivals ==> (!SameRow(s, t, id) <==> Removes(s, step, now, id)))
            && (id in t.arrivals && (id in s.arrivals ==> !SameRow(s, t, id)) ==> Records(s, step, now, id))
  {
    if now >= s.clock {
      var c := s.(clock := now);
      ClockStaysTold(s, now);
      hide AllTold, Outlived;
      match step
      case Turning(turning) => TurningRows(c, turning, now, id);
      case Transferring(_) => RestRows(c, step, now, id);
      case Arriving(arriving) =>
        match arriving {
          case Held(held, run, supplied) =>
            if MayHold(c, held, run, supplied) {
              HoldRows(c, held, run, supplied, now, id);
            }
          case Finalized(account) =>
            if MayFinalize(c, account, now) {
              FinalizeRows(c, account, now, id);
            }
          case _ => RestRows(c, step, now, id);
        }
    }
  }

  // ----- whole runs -----

  /** The state after the first n of more steps. */
  ghost function After(steps: seq<Timed>, more: seq<Timed>, n: nat): Ledger
    requires n <= |more|
  {
    Execute(Execute(Empty(), steps), more[..n])
  }

  ghost predicate RemovedAt(steps: seq<Timed>, more: seq<Timed>, n: nat, id: int)
    requires n < |more|
  {
    id in After(steps, more, n).arrivals && Removes(After(steps, more, n), more[n].step, more[n].at, id)
  }

  ghost predicate RecordedAt(steps: seq<Timed>, more: seq<Timed>, n: nat, id: int)
    requires n < |more|
  {
    Records(After(steps, more, n), more[n].step, more[n].at, id)
  }

  /** The guard under which the step announces the message. */
  ghost predicate AnnouncesAt(steps: seq<Timed>, more: seq<Timed>, n: nat, id: int)
    requires n < |more|
  {
    Announces(After(steps, more, n), more[n].step, more[n].at, id)
  }

  /** The step announces the message; putting back an old event does not. */
  ghost predicate AnnouncedAt(steps: seq<Timed>, more: seq<Timed>, n: nat, id: int)
    requires n < |more|
  {
    && !RestoresEvent(more[n].step)
    && id !in After(steps, more, n).events && id in After(steps, more, n + 1).events
  }

  lemma NextStep(steps: seq<Timed>, more: seq<Timed>, n: nat)
    requires n < |more|
    ensures After(steps, more, n + 1) == Apply(After(steps, more, n), more[n].step, more[n].at)
    ensures AllTold(After(steps, more, n)) && AllTold(After(steps, more, n + 1))
  {
    assert more[..n + 1][..n] == more[..n];
    ExecuteConcat(Empty(), steps, more[..n]);
    ExecuteConcat(Empty(), steps, more[..n + 1]);
    RunStaysTold(steps + more[..n]);
    RunStaysTold(steps + more[..n + 1]);
  }

  lemma AnnouncedByGuard(steps: seq<Timed>, more: seq<Timed>, n: nat, id: int)
    requires n < |more|
    ensures AnnouncedAt(steps, more, n, id) <==> AnnouncesAt(steps, more, n, id)
    ensures var s := After(steps, more, n);
            AnnouncedAt(steps, more, n, id) ==> id in s.arrivals && s.arrivals[id].outcome == Undecided
  {
    NextStep(steps, more, n);
    var s, x := After(steps, more, n), more[n];
    hide AllTold, After, Apply;
    if !RestoresEvent(x.step) {
      AnnouncedIfUnexplained(s, x.step, x.at, id);
      StepIsFaithful(s, x.step, x.at);
    }
  }

  /** As long as no row of the message is removed, its arrival stays as it was decided. */
  lemma {:induction false} DecidedStays(steps: seq<Timed>, more: seq<Timed>, n: nat, id: int)
    requires n <= |more| && id in After(steps, more, 0).arrivals
    requires After(steps, more, 0).arrivals[id].outcome != Undecided
    requires forall i :: 0 <= i < n ==> !RemovedAt(steps, more, i, id)
    ensures var a, t := After(steps, more, 0).arrivals[id], After(steps, more, n);
            && id in t.arrivals && t.arrivals[id].id == a.id && t.arrivals[id].outcome == a.outcome
            && t.arrivals[id].finalizedAt == a.finalizedAt && t.arrivals[id].mailbox == a.mailbox
  {
    if n > 0 {
      DecidedStays(steps, more, n - 1, id);
      NextStep(steps, more, n - 1);
      var s, x := After(steps, more, n - 1), more[n - 1];
      RowIsRemoved(s, x.step, x.at, id);
      StepIsFaithful(s, x.step, x.at);
      assert !RemovedAt(steps, more, n - 1, id);
      hide AllTold, After, Apply, Removes, Records;
    }
  }

  lemma RecordedHere(steps: seq<Timed>, more: seq<Timed>, n: nat, id: int)
    requires n < |more| && id in After(steps, more, n + 1).arrivals
    ensures id !in After(steps, more, n).arrivals || RemovedAt(steps, more, n, id) ==> RecordedAt(steps, more, n, id)
  {
    NextStep(steps, more, n);
    RowIsRemoved(After(steps, more, n), more[n].step, more[n].at, id);
    hide AllTold, After, Apply, Removes, Records;
  }

  /** A row that is there and was not, or is another one, was recorded on the way. */
  lemma {:induction false} RecordedOnTheWay(steps: seq<Timed>, more: seq<Timed>, i: nat, k: nat, id: int)
    requires i < k <= |more| && RemovedAt(steps, more, i, id) && id in After(steps, more, k).arrivals
    requires forall n :: i < n < k ==> !RemovedAt(steps, more, n, id)
    ensures exists j :: i <= j < k && RecordedAt(steps, more, j, id)
    decreases k
  {
    hide After, RemovedAt, RecordedAt;
    RecordedHere(steps, more, k - 1, id);
    if k - 1 > i && id in After(steps, more, k - 1).arrivals {
      RecordedOnTheWay(steps, more, i, k - 1, id);
      var j :| i <= j < k - 1 && RecordedAt(steps, more, j, id);
    } else {
      assert RecordedAt(steps, more, k - 1, id);
    }
  }

  ghost predicate RemovedBefore(steps: seq<Timed>, more: seq<Timed>, k: nat, id: int)
    requires k <= |more|
  {
    exists i :: 0 <= i < k && RemovedAt(steps, more, i, id)
  }

  lemma {:induction false} LastRemoval(steps: seq<Timed>, more: seq<Timed>, k: nat, id: int) returns (i: nat)
    requires k <= |more| && RemovedBefore(steps, more, k, id)
    ensures i < k && RemovedAt(steps, more, i, id) && forall n :: i < n < k ==> !RemovedAt(steps, more, n, id)
    decreases k
  {
    hide RemovedAt;
    if RemovedAt(steps, more, k - 1, id) {
      i := k - 1;
    } else {
      assert RemovedBefore(steps, more, k - 1, id);
      i := LastRemoval(steps, more, k - 1, id);
    }
  }

  ghost predicate Suppressed(s: Ledger, id: int) {
    id in s.arrivals && s.arrivals[id].outcome in {LocalMove, LocalCopy, ExternalMove}
  }

  /** A message that was suppressed is announced, over any continuation of any run, if and only if its row was removed, it
      got a new one after that, and that one has its turn in a batch that goes through, with nothing to explain it. */
  lemma SuppressedUntilRemoved(steps: seq<Timed>, more: seq<Timed>, k: nat, id: int)
    requires k < |more| && Suppressed(Execute(Empty(), steps), id)
    ensures AnnouncedAt(steps, more, k, id) <==>
              && AnnouncesAt(steps, more, k, id)
              && exists i, j :: 0 <= i <= j < k && RemovedAt(steps, more, i, id) && RecordedAt(steps, more, j, id)
  {
    AnnouncedByGuard(steps, more, k, id);
    if AnnouncedAt(steps, more, k, id) {
      assert After(steps, more, 0) == Execute(Empty(), steps);
      if !RemovedBefore(steps, more, k, id) {
        DecidedStays(steps, more, k, id);
      }
      hide After, RemovedAt, RecordedAt;
      var i := LastRemoval(steps, more, k, id);
      RecordedOnTheWay(steps, more, i, k, id);
    }
  }

  lemma {:induction false} NoneIsRemoved(steps: seq<Timed>, more: seq<Timed>, k: nat, id: int)
    requires k <= |more| && Suppressed(After(steps, more, 0), id)
    requires var a := After(steps, more, 0).arrivals[id];
             forall n :: 0 <= n < k ==>
               && more[n].at < a.finalizedAt + FINALIZED_RETENTION
               && more[n].step != Turning(Deleted(id)) && more[n].step != Turning(Dropped(a.mailbox))
    ensures forall n :: 0 <= n < k ==> !RemovedAt(steps, more, n, id)
  {
    hide After;
    if k > 0 {
      NoneIsRemoved(steps, more, k - 1, id);
      DecidedStays(steps, more, k - 1, id);
    }
  }

  /** In time: until the retention is over, a message that is neither deleted nor in a deleted mailbox stays suppressed,
      whatever else happens. */
  lemma SuppressedWhileRetained(steps: seq<Timed>, more: seq<Timed>, k: nat, id: int)
    requires k < |more| && Suppressed(Execute(Empty(), steps), id)
    requires var a := Execute(Empty(), steps).arrivals[id];
             forall n :: 0 <= n < k ==>
               && more[n].at < a.finalizedAt + FINALIZED_RETENTION
               && more[n].step != Turning(Deleted(id)) && more[n].step != Turning(Dropped(a.mailbox))
    ensures !AnnouncedAt(steps, more, k, id)
    ensures Suppressed(After(steps, more, k), id)
  {
    assert After(steps, more, 0) == Execute(Empty(), steps);
    NoneIsRemoved(steps, more, k, id);
    DecidedStays(steps, more, k, id);
    AnnouncedByGuard(steps, more, k, id);
  }
}
