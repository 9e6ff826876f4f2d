/**
 When exactly a message is announced: in the finalization of a batch that goes through, when the turn of its arrival
 comes and no transfer and no tombstone explains it.
 */
module LedgerDelivery {

  import opened Candidates
  import opened LedgerAnnouncements
  import opened LedgerOnce
  import opened LedgerState
  import opened LedgerSteps
  import opened LedgerVerdict

  /** Whether all due arrivals can be decided; a transaction that fails on one of them leaves everything as it was. */
  ghost predicate MayFinalize(s: Ledger, account: int, now: int) {
    var pruned := Prune(s, now);
    FinalizeEach(pruned, DueBatch(pruned, account, now), account, now).Some?
  }

  /** The ledger when the turn of the message's arrival comes in the batch, if it comes. */
  ghost function AtTurn(s: Ledger, due: seq<Candidate>, id: int, account: int, now: int): Option<Ledger>
    decreases |due|
  {
    if due == [] then None
    else if !HasArrival(s, due[0].id) then AtTurn(s, due[1..], id, account, now)
    else if MessageOf(s, due[0].id) == id then Some(s)
    else
      match FinalizeOne(s, MessageOf(s, due[0].id), account, now)
      case None => None
      case Some(next) => AtTurn(next, due[1..], id, account, now)
  }

  /** No transfer and no tombstone explains the arrival of the message. */
  ghost predicate Unexplained(s: Ledger, id: int, now: int) {
    && id in s.arrivals && id in s.messages
    && match Resolve(s.messages[id], s.arrivals[id].fingerprint)
       case None => false
       case Some(fingerprint) =>
         var stamped := Stamp(s, id, fingerprint);
         Classify(stamped, id, stamped.messages[id], fingerprint, now).outcome == Undecided
  }

  /** The guard under which a step announces a message. */
  ghost predicate Announces(s: Ledger, step: Step, now: int, id: int) {
    && now >= s.clock && step.Arriving? && step.arriving.Finalized? && id !in s.events
    && var account, c := step.arriving.account, s.(clock := now);
    && MayFinalize(c, account, now)
    && var pruned := Prune(c, now);
       var turn := AtTurn(pruned, DueBatch(pruned, account, now), id, account, now);
       turn.Some? && Unexplained(turn.value, id, now)
  }

  // ----- one arrival -----

  lemma UnexplainedIsDelivered(s: Ledger, id: int, account: int, now: int)
    requires AllTold(s) && id in s.arrivals && s.arrivals[id].outcome == Undecided
    requires FinalizeOne(s, id, account, now).Some?
    ensures var t := FinalizeOne(s, id, account, now).value;
            && id in t.arrivals && t.arrivals[id].outcome != Undecided
            && (t.arrivals[id].outcome == Delivery <==> Unexplained(s, id, now))
  {
    ToldHere(s, id);
    var fingerprint := Resolve(s.messages[id], s.arrivals[id].fingerprint).value;
    var stamped := Stamp(s, id, fingerprint);
    VerdictIsBacked(stamped, id, stamped.messages[id], fingerprint, now);
    hide AllTold, Classify, Resolve, Announce;
  }

  // ----- the batch -----

  /** What a batch of waiting arrivals does first, and that the others keep waiting. */
  lemma FirstOfBatch(s: Ledger, due: seq<Candidate>, account: int, now: int) returns (id: int, next: Ledger)
    requires AllTold(s) && 0 < now <= s.clock && FinalizeEach(s, due, account, now).Some? && due != []
    requires forall i :: 0 <= i < |due| ==> Waits(s, due[i].id, account, now)
    requires forall i, j :: 0 <= i < j < |due| ==> due[i].id != due[j].id
    ensures HasArrival(s, due[0].id) && id == MessageOf(s, due[0].id)
    ensures id in s.arrivals && s.arrivals[id].outcome == Undecided
    ensures FinalizeOne(s, id, account, now) == Some(next) && AllTold(next) && Settles(s, next, now) && next.clock == s.clock
    ensures forall other :: other in s.arrivals && other != id ==> other in next.arrivals && next.arrivals[other] == s.arrivals[other]
    ensures next.arrivals.Keys == s.arrivals.Keys
    ensures forall i :: 0 <= i < |due[1..]| ==> Waits(next, due[1..][i].id, account, now)
    ensures FinalizeEach(next, due[1..], account, now) == FinalizeEach(s, due, account, now)
  {
    hide Settles, AllTold, FinalizeOne, Waits, DistinctIds;
    WaitingIsFound(s, due[0].id, account, now);
    id := MessageOf(s, due[0].id);
    next := FinalizeOne(s, id, account, now).value;
    FinalizeOneSettles(s, id, account, now);
    SettlingKeepsRows(s, next, now);
    forall i | 0 <= i < |due[1..]| ensures Waits(next, due[1..][i].id, account, now) {
      StillWaits(s, next, id, due[0].id, due[i + 1].id, account, now);
    }
  }

  /** A batch that goes through delivers exactly the arrivals that nothing explains at their turn. */
  lemma {:induction false} BatchDelivers(s: Ledger, due: seq<Candidate>, id: int, account: int, now: int)
    requires AllTold(s) && 0 < now <= s.clock && FinalizeEach(s, due, account, now).Some?
    requires forall i :: 0 <= i < |due| ==> Waits(s, due[i].id, account, now)
    requires forall i, j :: 0 <= i < j < |due| ==> due[i].id != due[j].id
    ensures var t, turn := FinalizeEach(s, due, account, now).value, AtTurn(s, due, id, account, now);
            (id in s.arrivals && s.arrivals[id].outcome == Undecided && id in t.arrivals && t.arrivals[id].outcome == Delivery)
            <==> (turn.Some? && Unexplained(turn.value, id, now))
    decreases |due|
  {
    hide AllTold, FinalizeOne, Waits, Settles, Unexplained;
    if due != [] {
      var first, next := FirstOfBatch(s, due, account, now);
      if first == id {
        UnexplainedIsDelivered(s, id, account, now);
        FinalizeEachSettles(next, due[1..], account, now);
        DecidedIsSettled(next, FinalizeEach(s, due, account, now).value, id, now);
      } else {
        BatchDelivers(next, due[1..], id, account, now);
      }
    }
  }

  lemma DecidedIsSettled(s: Ledger, t: Ledger, id: int, now: int)
    requires Settles(s, t, now) && id in s.arrivals && s.arrivals[id].outcome != Undecided
    ensures id in t.arrivals && t.arrivals[id].outcome == s.arrivals[id].outcome
  {
    assert id in t.arrivals.Keys;
  }

  // ----- any step -----

  lemma OnlyFinalizingAnnounces(s: Ledger, step: Step, now: int)
    requires AllTold(s) && !RestoresEvent(step) && (now >= s.clock ==> !(step.Arriving? && step.arriving.Finalized?))
    ensures Apply(s, step, now).events.Keys <= s.events.Keys
  {
    if now >= s.clock {
      var c := s.(clock := now);
      ClockStaysTold(s, now);
      hide AllTold;
      match step
      case Turning(turning) => TurningAnnouncesNothing(c, turning, now);
      case Transferring(transferring) => TransferStepKeepsArrivals(c, transferring, now);
      case Arriving(arriving) =>
        match arriving {
          case Held(id, run, supplied) => HoldAnnouncesNothing(c, id, run, supplied, now);
          case _ =>
            hide MayRestore, DeferRow;
        }
    }
  }

  lemma TurningAnnouncesNothing(s: Ledger, step: WorldStep, now: int)
    requires !step.EventRestored?
    ensures DoWorld(s, step, now).events.Keys <= s.events.Keys
  {
  }

  lemma HoldAnnouncesNothing(s: Ledger, id: int, run: int, supplied: Fingerprint, now: int)
    requires AllTold(s) && 0 < now <= s.clock
    ensures Hold(s, id, run, supplied, now).events == s.events
  {
    if MayHold(s, id, run, supplied) {
      var fingerprint := Resolve(s.messages[id], supplied).value;
      StampedAndPruned(s, id, fingerprint, now);
      var pruned := Prune(Stamp(s, id, fingerprint), now);
      hide AllTold, Prune, Resolve, Reheld, HeldOpen, Quiet;
      HoldPruned(pruned, id, run, fingerprint, now);
    }
  }

  lemma FinalizingDelivers(s: Ledger, account: int, now: int, id: int)
    requires AllTold(s) && 0 < now <= s.clock && MayFinalize(s, account, now)
    ensures var t, pruned := FinalizeDue(s, account, now), Prune(s, now);
            var turn := AtTurn(pruned, DueBatch(pruned, account, now), id, account, now);
            (id in s.arrivals && s.arrivals[id].outcome == Undecided && id in t.arrivals && t.arrivals[id].outcome == Delivery)
            <==> (turn.Some? && Unexplained(turn.value, id, now))
  {
    var pruned := Prune(s, now);
    PruneIsQuiet(s, now);
    UndecidedIsNotPruned(s, now, id);
    BatchWaits(pruned, account, now);
    assert DistinctIds(pruned.arrivals);
    var due := DueBatch(pruned, account, now);
    hide AllTold, Prune, Quiet, DueBatch, Waits, FinalizeEach, Unexplained, AtTurn;
    BatchDelivers(pruned, due, id, account, now);
  }

  lemma UndecidedIsNotPruned(s: Ledger, now: int, id: int)
    requires AllTold(s)
    ensures id in s.arrivals && s.arrivals[id].outcome == Undecided <==>
            id in Prune(s, now).arrivals && Prune(s, now).arrivals[id].outcome == Undecided
  {
    hide Stale, LiveTransfers;
    if id in s.arrivals {
      assert Told(s, id, s.arrivals[id]);
    }
  }

  /** In one step a message comes to be announced, other than by an old event put back, if and only if the guard holds. */
  lemma AnnouncedIfUnexplained(s: Ledger, step: Step, now: int, id: int)
    requires AllTold(s) && !RestoresEvent(step)
    ensures id !in s.events && id in Apply(s, step, now).events <==> Announces(s, step, now, id)
  {
    StepIsFaithful(s, step, now);
    if now >= s.clock && step.Arriving? && step.arriving.Finalized? {
      var c, account := s.(clock := now), step.arriving.account;
      ClockStaysTold(s, now);
      if MayFinalize(c, account, now) {
        FinalizingDelivers(c, account, now, id);
        DeliveryIsTold(Apply(s, step, now), id);
      }
      hide AllTold, Prune, DueBatch, FinalizeEach, AtTurn, Unexplained;
    } else {
      OnlyFinalizingAnnounces(s, step, now);
      hide AllTold, Apply;
    }
  }

  lemma DeliveryIsTold(s: Ledger, id: int)
    requires AllTold(s)
    ensures id in s.arrivals && s.arrivals[id].outcome == Delivery ==> id in s.events
  {
    if id in s.arrivals {
      assert Told(s, id, s.arrivals[id]);
    }
  }
}
