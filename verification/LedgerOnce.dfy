/** Every step keeps outcomes final, events in place and announcements on time and counted. */
module LedgerOnce {

  import opened Candidates
  import opened LedgerState
  import opened LedgerSteps
  import opened LedgerVerdict
  import opened LedgerAnnouncements
  import opened LedgerPruning

  ghost predicate Faithful(s: Ledger, t: Ledger, now: int) {
    && OutcomesStay(s, t, now) && EventsStay(s, t) && s.runs.Keys <= t.runs.Keys
    && AnnouncesOnTime(s, t, now) && CountsAnnouncements(s, t)
  }

  /** Nothing new is announced, and every arrival that is still there is as it was, or waits on. */
  ghost predicate Quiet(s: Ledger, t: Ledger) {
    && t.clock == s.clock && s.nextArrival <= t.nextArrival
    && t.runs == s.runs && EventsStay(s, t)
    && t.events.Keys <= s.events.Keys && (forall id :: id in t.events ==> t.events[id] == s.events[id])
    && (forall id :: id in t.arrivals ==> id in s.arrivals)
    && (forall id :: id in t.arrivals ==>
          t.arrivals[id] == s.arrivals[id]
          || (s.arrivals[id].outcome == Undecided
              && t.arrivals[id] == s.arrivals[id].(availableAt := t.arrivals[id].availableAt)))
  }

  lemma NoneAnnounced(s: Ledger, t: Ledger)
    requires t.runs == s.runs && t.events.Keys <= s.events.Keys
    ensures CountsAnnouncements(s, t)
  {
    forall run | run in t.runs ensures AnnouncedFor(s, t, run) == {} {
      assert AnnouncedFor(s, t, run) <= t.events.Keys - s.events.Keys;
    }
  }

  lemma QuietIsFaithful(s: Ledger, t: Ledger, now: int)
    requires Quiet(s, t)
    ensures Faithful(s, t, now)
  {
    NoneAnnounced(s, t);
  }

  lemma QuietStaysTold(s: Ledger, t: Ledger)
    requires AllTold(s) && Quiet(s, t)
    requires forall id :: id in t.arrivals || id in t.events ==> id in t.messages
    requires forall id :: id in t.messages && id in s.messages ==>
               t.messages[id].account == s.messages[id].account && t.messages[id].mailbox == s.messages[id].mailbox
    ensures AllTold(t)
  {
    forall id | id in t.arrivals ensures Told(t, id, t.arrivals[id]) {
      assert Told(s, id, s.arrivals[id]);
    }
    forall i, j | i in t.arrivals && j in t.arrivals && t.arrivals[i].id == t.arrivals[j].id ensures i == j {
      assert s.arrivals[i].id == s.arrivals[j].id;
    }
  }

  /** What a quiet step is followed by decides what both do together. */
  lemma QuietThenSettles(s: Ledger, t: Ledger, u: Ledger, now: int)
    requires Quiet(s, t) && Settles(t, u, now) && t.events == s.events
    requires forall id :: id in t.arrivals ==> t.arrivals[id] == s.arrivals[id]
    ensures Faithful(s, u, now)
  {
    forall run | run in u.runs ensures AnnouncedFor(s, u, run) == AnnouncedFor(t, u, run) {
    }
  }

  lemma PruneIsQuiet(s: Ledger, now: int)
    requires AllTold(s)
    ensures Quiet(s, Prune(s, now)) && AllTold(Prune(s, now))
    ensures Prune(s, now).messages == s.messages && Prune(s, now).nextArrival == s.nextArrival
    ensures forall id :: id in Prune(s, now).arrivals ==> Prune(s, now).arrivals[id] == s.arrivals[id]
  {
    forall id | id in s.arrivals ensures Told(s, id, s.arrivals[id]) {
    }
    var t := Prune(s, now);
    assert t.events == s.events && t.runs == s.runs && t.messages == s.messages && t.clock == s.clock;
    assert forall id :: id in t.arrivals ==> id in s.arrivals && t.arrivals[id] == s.arrivals[id];
    hide Prune, Told;
    assert Quiet(s, t);
    assert forall id :: id in t.arrivals ==> id in t.messages by {
      forall id | id in t.arrivals ensures id in t.messages {
        ToldHere(s, id);
      }
    }
    QuietStaysTold(s, t);
  }

  lemma ToldHere(s: Ledger, id: int)
    requires AllTold(s) && id in s.arrivals
    ensures id in s.messages && s.arrivals[id].account == s.messages[id].account
    ensures s.arrivals[id].outcome == Delivery ==> id in s.events
    ensures s.arrivals[id].id < s.nextArrival
  {
    assert Told(s, id, s.arrivals[id]);
  }

  // ----- holding -----

  /** A repeated hold of a delivery finds it announced: it may take over the run and does nothing else. */
  lemma ReheldAnnouncesNothing(s: Ledger, id: int, run: int, now: int)
    requires AllTold(s) && id in s.arrivals
    ensures var t := Reheld(s, id, run, now);
            && t.events == s.events && t.runs == s.runs && t.messages == s.messages
            && t.clock == s.clock && t.nextArrival == s.nextArrival
            && t.arrivals == s.arrivals[id := s.arrivals[id].(run := t.arrivals[id].run)]
            && (t.arrivals[id].run == s.arrivals[id].run || t.arrivals[id].run == run)
  {
    ToldHere(s, id);
    var t := Reheld(s, id, run, now);
    assert t.arrivals == s.arrivals[id := s.arrivals[id].(run := t.arrivals[id].run)];
  }

  lemma HeldOpenDecides(s: Ledger, id: int, run: int, fingerprint: Fingerprint, now: int)
    requires AllTold(s) && id in s.messages && now > 0
    requires id in s.arrivals ==> s.arrivals[id].outcome == Undecided
    ensures var t := HeldOpen(s, id, run, fingerprint, now);
            && t.events == s.events && t.runs == s.runs && t.messages == s.messages && t.clock == s.clock
            && id in t.arrivals && t.arrivals == s.arrivals[id := t.arrivals[id]]
            && s.nextArrival <= t.nextArrival && t.arrivals[id].id < t.nextArrival
            && t.arrivals[id].outcome != Delivery
            && (t.arrivals[id].outcome == Undecided <==> t.arrivals[id].finalizedAt == 0)
            && t.arrivals[id].finalizedAt in {0, now}
            && t.arrivals[id].account == s.messages[id].account && t.arrivals[id].mailbox == s.messages[id].mailbox
            && (if id in s.arrivals
                then Ages(s.arrivals[id], t.arrivals[id], now) && t.arrivals[id].run == EitherRun(run, s.arrivals[id].run)
                else t.arrivals[id].id == s.nextArrival && t.arrivals[id].run == run)
  {
    if id in s.arrivals {
      assert Told(s, id, s.arrivals[id]);
    }
    var m := s.messages[id];
    VerdictIsBacked(s, id, m, fingerprint, now);
    var v := Classify(s, id, m, fingerprint, now);
    hide Classify;
    assert HeldOpen(s, id, run, fingerprint, now).arrivals
        == s.arrivals[id := HeldOpen(s, id, run, fingerprint, now).arrivals[id]];
  }

  /** One arrival was put in place of another of the same row, or is new. */
  lemma OneArrivalMore(s: Ledger, t: Ledger, id: int, now: int)
    requires AllTold(s) && t.events == s.events && t.runs == s.runs && t.messages == s.messages && t.clock == s.clock
    requires id in t.arrivals && t.arrivals == s.arrivals[id := t.arrivals[id]] && s.nextArrival <= t.nextArrival
    requires Told(t, id, t.arrivals[id]) && t.arrivals[id].id < t.nextArrival
    requires if id in s.arrivals then Ages(s.arrivals[id], t.arrivals[id], now)
             else forall other :: other in s.arrivals ==> s.arrivals[other].id != t.arrivals[id].id
    ensures AllTold(t) && Faithful(s, t, now)
  {
    forall other | other in t.arrivals ensures Told(t, other, t.arrivals[other]) {
      if other != id {
        assert Told(s, other, s.arrivals[other]);
      }
    }
    NoneAnnounced(s, t);
  }

  lemma QuietThenFaithful(s: Ledger, t: Ledger, u: Ledger, now: int)
    requires Quiet(s, t) && Faithful(t, u, now) && u.events == t.events && u.runs == t.runs
    requires t.messages.Keys == s.messages.Keys == u.messages.Keys
    requires forall id :: id in t.arrivals ==> t.arrivals[id] == s.arrivals[id]
    requires forall id :: id in s.arrivals && id !in t.arrivals && id in u.arrivals ==>
               u.arrivals[id].id != s.arrivals[id].id
    ensures Faithful(s, u, now)
  {
    NoneAnnounced(s, u);
  }

  lemma StampedAndPruned(s: Ledger, id: int, fingerprint: Fingerprint, now: int)
    requires AllTold(s) && id in s.messages
    ensures var t := Prune(Stamp(s, id, fingerprint), now);
            && Quiet(s, t) && AllTold(t) && t.messages == Stamp(s, id, fingerprint).messages
            && t.nextArrival == s.nextArrival && t.runs == s.runs && t.events == s.events && t.clock == s.clock
            && (forall other :: other in t.arrivals ==> other in s.arrivals && t.arrivals[other] == s.arrivals[other])
  {
    var stamped := Stamp(s, id, fingerprint);
    StampSettles(s, id, fingerprint, now);
    hide AllTold, Settles;
    PruneIsQuiet(stamped, now);
    assert Prune(stamped, now).events == s.events;
    hide Prune;
  }

  lemma HoldIsFaithful(s: Ledger, id: int, run: int, supplied: Fingerprint, now: int)
    requires AllTold(s) && 0 < now <= s.clock
    ensures Faithful(s, Hold(s, id, run, supplied, now), now) && AllTold(Hold(s, id, run, supplied, now))
  {
    hide Prune, HeldOpen, Reheld, Resolve, Faithful, Quiet, AllTold;
    if id in s.messages && run >= 0 && Resolve(s.messages[id], supplied).Some?
       && !(run > 0 && !RunOf(s, run, s.messages[id].account)) {
      var fingerprint := Resolve(s.messages[id], supplied).value;
      StampedAndPruned(s, id, fingerprint, now);
      var pruned := Prune(Stamp(s, id, fingerprint), now);
      HoldPruned(pruned, id, run, fingerprint, now);
      if id in s.arrivals {
        ToldHere(s, id);
      }
      QuietThenFaithful(s, pruned, Hold(s, id, run, supplied, now), now);
    } else {
      NothingIsQuiet(s);
      QuietIsFaithful(s, s, now);
    }
  }

  lemma NothingIsQuiet(s: Ledger)
    ensures Quiet(s, s)
  {
  }

  lemma HoldPruned(s: Ledger, id: int, run: int, fingerprint: Fingerprint, now: int)
    requires AllTold(s) && id in s.messages && 0 < now <= s.clock && run >= 0
    requires run > 0 ==> RunOf(s, run, s.messages[id].account)
    ensures var t := if id in s.arrivals && s.arrivals[id].outcome != Undecided then Reheld(s, id, run, now)
                     else HeldOpen(s, id, run, fingerprint, now);
            && AllTold(t) && Faithful(s, t, now)
            && t.events == s.events && t.runs == s.runs && t.messages == s.messages
            && (forall other :: other in t.arrivals ==> other in s.arrivals || other == id)
            && (id in t.arrivals && id !in s.arrivals ==> t.arrivals[id].id == s.nextArrival)
  {
    if id in s.arrivals {
      assert Told(s, id, s.arrivals[id]);
    }
    if id in s.arrivals && s.arrivals[id].outcome != Undecided {
      ReheldAnnouncesNothing(s, id, run, now);
      var t := Reheld(s, id, run, now);
      hide Reheld;
      assert Told(t, id, t.arrivals[id]);
      OneArrivalMore(s, t, id, now);
    } else {
      HeldOpenDecides(s, id, run, fingerprint, now);
      var t := HeldOpen(s, id, run, fingerprint, now);
      hide HeldOpen;
      assert Told(t, id, t.arrivals[id]);
      OneArrivalMore(s, t, id, now);
    }
  }

  // ----- finalizing -----

  lemma FinalizeDueIsFaithful(s: Ledger, account: int, now: int)
    requires AllTold(s) && 0 < now <= s.clock
    ensures Faithful(s, FinalizeDue(s, account, now), now) && AllTold(FinalizeDue(s, account, now))
  {
    PruneIsQuiet(s, now);
    var pruned := Prune(s, now);
    assert pruned.events == s.events && DistinctIds(pruned.arrivals);
    BatchWaits(pruned, account, now);
    var due := DueBatch(pruned, account, now);
    hide Prune, AllTold, Faithful, Quiet, Settles, Waits, DueBatch;
    if FinalizeEach(pruned, due, account, now).Some? {
      FinalizeEachSettles(pruned, due, account, now);
      QuietThenSettles(s, pruned, FinalizeEach(pruned, due, account, now).value, now);
    } else {
      NothingIsQuiet(s);
      QuietIsFaithful(s, s, now);
    }
  }

  lemma ArrivalStepIsFaithful(s: Ledger, step: ArrivalStep, now: int)
    requires AllTold(s) && 0 < now <= s.clock
    ensures Faithful(s, DoArrival(s, step, now), now) && AllTold(DoArrival(s, step, now))
  {
    match step
    case Held(id, run, supplied) => HoldIsFaithful(s, id, run, supplied, now);
    case Finalized(account) => FinalizeDueIsFaithful(s, account, now);
    case Deferred(account, ids, retryAt) => DeferIsFaithful(s, account, ids, retryAt, now);
    case Restored(id, arrival) => RestoreIsFaithful(s, id, arrival, now);
  }

  lemma DeferIsFaithful(s: Ledger, account: int, ids: seq<int>, retryAt: int, now: int)
    requires AllTold(s)
    ensures Faithful(s, Defer(s, account, ids, retryAt), now) && AllTold(Defer(s, account, ids, retryAt))
  {
    var t := Defer(s, account, ids, retryAt);
    forall id | id in s.arrivals ensures id in s.messages {
      ToldHere(s, id);
    }
    DeferIsQuiet(s, account, ids, retryAt);
    hide AllTold, Defer, Quiet;
    QuietIsFaithful(s, t, now);
    EventsAreOfMessages(s);
    QuietStaysTold(s, t);
  }

  lemma DeferIsQuiet(s: Ledger, account: int, ids: seq<int>, retryAt: int)
    requires forall id :: id in s.arrivals ==> id in s.messages
    ensures Quiet(s, Defer(s, account, ids, retryAt)) && Defer(s, account, ids, retryAt).messages == s.messages
    ensures Defer(s, account, ids, retryAt).arrivals.Keys == s.arrivals.Keys
  {
    hide Quiet, DeferRow;
    var t := Defer(s, account, ids, retryAt);
    assert t == s.(arrivals := t.arrivals);
    assert t.arrivals.Keys == s.arrivals.Keys;
    forall id | id in s.arrivals
      ensures id in t.arrivals && PutOff(s.arrivals[id], t.arrivals[id])
    {
      PutOffOrNot(s.arrivals[id], id in ids, account, retryAt);
    }
    hide Defer;
    PuttingOffIsQuiet(s, t.arrivals);
  }

  predicate PutOff(a: Arrival, b: Arrival) {
    b == a || (a.outcome == Undecided && b == a.(availableAt := b.availableAt))
  }

  lemma PutOffOrNot(a: Arrival, listed: bool, account: int, retryAt: int)
    ensures PutOff(a, DeferRow(a, listed, account, retryAt)) && PutOff(a, a)
  {
  }

  lemma PuttingOffIsQuiet(s: Ledger, rows: map<int, Arrival>)
    requires rows.Keys == s.arrivals.Keys && forall id :: id in rows ==> PutOff(s.arrivals[id], rows[id])
    ensures Quiet(s, s.(arrivals := rows))
  {
    assert forall id :: id in rows <==> id in rows.Keys;
  }

  lemma EventsAreOfMessages(s: Ledger)
    requires AllTold(s)
    ensures forall id :: id in s.events ==> id in s.messages
  {
  }

  lemma RestoreIsFaithful(s: Ledger, id: int, a: Arrival, now: int)
    requires AllTold(s)
    ensures var t := if MayRestore(s, id, a) then Record(s, id, a) else s; Faithful(s, t, now) && AllTold(t)
  {
    if MayRestore(s, id, a) {
      var t := Record(s, id, a);
      assert Told(t, id, a);
      OneArrivalMore(s, t, id, now);
    } else {
      NothingIsQuiet(s);
      QuietIsFaithful(s, s, now);
    }
  }

  // ----- everything else -----

  ghost predicate SameArrivals(s: Ledger, t: Ledger) {
    && t.clock == s.clock && t.nextArrival == s.nextArrival
    && t.arrivals == s.arrivals && t.events == s.events && t.runs == s.runs
    && t.messages.Keys == s.messages.Keys
    && forall id :: id in s.messages ==>
         t.messages[id].account == s.messages[id].account && t.messages[id].mailbox == s.messages[id].mailbox
  }

  lemma SameArrivalsAreFaithful(s: Ledger, t: Ledger, now: int)
    requires AllTold(s) && SameArrivals(s, t)
    ensures Faithful(s, t, now) && AllTold(t)
  {
    forall id | id in s.arrivals ensures id in s.messages {
      ToldHere(s, id);
    }
    QuietIsFaithful(s, t, now);
    QuietStaysTold(s, t);
  }

  lemma StageKeepsArrivals(s: Ledger, source: int, destination: int, kind: Kind, canonical: int, now: int)
    ensures SameArrivals(s, Stage(s, source, destination, kind, canonical, now))
  {
    hide LiveTransfers, SameOperation, Active, NewTransfer, Resolve, SameArrivals;
    SameAsItself(s);
    if MayStage(s, source, destination, kind) && Resolve(s.messages[source], Fingerprint(0, canonical, 0, 0, 0)).Some? {
      var fingerprint := Resolve(s.messages[source], Fingerprint(0, canonical, 0, 0, 0)).value;
      var stamped := Stamp(s, source, fingerprint);
      StampKeepsArrivals(s, source, fingerprint);
      StagingMovesTransfers(s, source, destination, kind, canonical, now, fingerprint);
      var t := Stage(s, source, destination, kind, canonical, now);
      hide Stage, Stamp, MayStage;
      if t != s {
        OnlyTokensMove(s, stamped, t);
      }
    }
  }

  lemma StagingMovesTransfers(s: Ledger, source: int, destination: int, kind: Kind, canonical: int, now: int,
                              fingerprint: Fingerprint)
    requires MayStage(s, source, destination, kind)
    requires Resolve(s.messages[source], Fingerprint(0, canonical, 0, 0, 0)) == Some(fingerprint)
    ensures var stamped, t := Stamp(s, source, fingerprint), Stage(s, source, destination, kind, canonical, now);
            t == s || stamped == t.(transfers := stamped.transfers, nextTransfer := stamped.nextTransfer)
  {
    hide LiveTransfers, SameOperation, Active, NewTransfer, Resolve, Stamp, MayStage;
  }

  lemma StampKeepsArrivals(s: Ledger, id: int, fingerprint: Fingerprint)
    requires id in s.messages
    ensures SameArrivals(s, Stamp(s, id, fingerprint))
  {
  }

  lemma OnlyTokensMove(s: Ledger, u: Ledger, t: Ledger)
    requires SameArrivals(s, u)
    requires u == t.(transfers := u.transfers, nextTransfer := u.nextTransfer,
                     tombstones := u.tombstones, nextTombstone := u.nextTombstone)
    ensures SameArrivals(s, t)
  {
    assert u.arrivals == t.arrivals && u.events == t.events && u.messages == t.messages && u.runs == t.runs;
  }

  lemma ExpungeKeepsArrivals(s: Ledger, id: int, canonical: int, now: int)
    ensures SameArrivals(s, Expunge(s, id, canonical, now))
  {
    hide First, SourceMoves, Bury, Resolve, ResolveMove, SameArrivals;
    SameAsItself(s);
    if id in s.messages && s.messages[id].mailbox in s.mailboxes {
      var m := s.messages[id];
      if SourceMoves(s, m) != {} {
        ResolveMoveKeepsArrivals(s, s.nextTransfer - First(SourceMoves(s, m)).id, now);
      } else if Resolve(m, Fingerprint(0, canonical, 0, 0, 0)).Some? {
        BuryKeepsArrivals(s, id, m, Resolve(m, Fingerprint(0, canonical, 0, 0, 0)).value, now);
      }
    }
  }

  lemma SameAsItself(s: Ledger)
    ensures SameArrivals(s, s)
  {
  }

  lemma ResolveMoveKeepsArrivals(s: Ledger, t: int, now: int)
    ensures SameArrivals(s, ResolveMove(s, t, now))
  {
  }

  lemma BuryKeepsArrivals(s: Ledger, id: int, m: Message, fingerprint: Fingerprint, now: int)
    requires id in s.messages
    ensures SameArrivals(s, Bury(Stamp(s, id, fingerprint), m, fingerprint, now))
  {
    hide IsKnown, SameArrivals;
    var stamped := Stamp(s, id, fingerprint);
    StampKeepsArrivals(s, id, fingerprint);
    OnlyTokensMove(s, stamped, Bury(stamped, m, fingerprint, now));
  }

  lemma OneTransferMoves(s: Ledger, step: TransferStep, now: int)
    requires !step.Staged? && !step.Expunged?
    ensures s == DoTransfer(s, step, now).(transfers := s.transfers)
  {
    var t := DoTransfer(s, step, now);
    if t != s {
      OneRowIsUpdated(s, step, now);
      hide DoTransfer;
      UpdateMovesTransfers(s, step.t, t.transfers[step.t]);
    }
  }

  lemma OneRowIsUpdated(s: Ledger, step: TransferStep, now: int)
    requires !step.Staged? && !step.Expunged? && DoTransfer(s, step, now) != s
    ensures var t := DoTransfer(s, step, now); step.t in t.transfers && t == Update(s, step.t, t.transfers[step.t])
  {
    hide Holds, Claimable, ValidOwner;
  }

  lemma UpdateMovesTransfers(s: Ledger, x: int, row: Transfer)
    ensures s == Update(s, x, row).(transfers := s.transfers)
  {
  }

  lemma TransferStepKeepsArrivals(s: Ledger, step: TransferStep, now: int)
    ensures SameArrivals(s, DoTransfer(s, step, now))
  {
    hide Stage, Expunge, SameArrivals;
    match step
    case Staged(source, destination, kind, canonical) =>
      StageKeepsArrivals(s, source, destination, kind, canonical, now);
    case Expunged(id, canonical) => ExpungeKeepsArrivals(s, id, canonical, now);
    case _ =>
      OneTransferMoves(s, step, now);
      SameAsItself(s);
      hide DoTransfer;
      OnlyTokensMove(s, s, DoTransfer(s, step, now));
  }

  lemma DeleteIsFaithful(s: Ledger, gone: set<int>, now: int)
    requires AllTold(s)
    ensures Faithful(s, Delete(s, gone), now) && AllTold(Delete(s, gone))
  {
    var t := Delete(s, gone);
    forall id | id in s.arrivals ensures id in s.messages {
      ToldHere(s, id);
    }
    EventsAreOfMessages(s);
    assert t.arrivals == s.arrivals - gone && t.events == s.events - gone && t.messages == s.messages - gone;
    assert t.runs == s.runs && t.clock == s.clock && t.nextArrival == s.nextArrival;
    hide Delete, AllTold;
    QuietIsFaithful(s, t, now);
    QuietStaysTold(s, t);
  }

  lemma DropIsFaithful(s: Ledger, mailbox: int, now: int)
    requires AllTold(s)
    ensures Faithful(s, Drop(s, mailbox), now) && AllTold(Drop(s, mailbox))
  {
    var gone := set id | id in s.messages && s.messages[id].mailbox == mailbox;
    DeleteIsFaithful(s, gone, now);
    var left, t := Delete(s, gone), Drop(s, mailbox);
    assert t.arrivals == left.arrivals && t.events == left.events && t.runs == left.runs;
    assert t.messages == left.messages && t.clock == left.clock && t.nextArrival == left.nextArrival;
    hide Delete, Drop, AllTold;
    SameArrivalsAreFaithful(left, t, now);
    assert AnnouncesOnTime(s, t, now) && OutcomesStay(s, t, now) && EventsStay(s, t);
    NoneAnnounced(s, t) by {
      DeleteOnlyForgets(s, gone);
    }
  }

  lemma DeleteOnlyForgets(s: Ledger, gone: set<int>)
    ensures forall id :: id in Delete(s, gone).events ==> id in s.events
    ensures Delete(s, gone).runs == s.runs
  {
  }

  lemma WorldStepIsFaithful(s: Ledger, step: WorldStep, now: int)
    requires AllTold(s) && 0 < now == s.clock && !step.EventRestored? && !step.RunReported?
    ensures Faithful(s, DoWorld(s, step, now), now) && AllTold(DoWorld(s, step, now))
  {
    hide Delete, Drop, Faithful, AllTold, SameArrivals;
    match step
    case Deleted(id) => DeleteIsFaithful(s, {id}, now);
    case Dropped(mailbox) => DropIsFaithful(s, mailbox, now);
    case Stored(id, message) => StoreIsFaithful(s, id, message, now);
    case RunStarted(run, account) => RunIsFaithful(s, run, account, now);
    case _ =>
      WorldKeepsArrivals(s, step, now);
      SameArrivalsAreFaithful(s, DoWorld(s, step, now), now);
  }

  lemma WorldKeepsArrivals(s: Ledger, step: WorldStep, now: int)
    requires step.MailboxSet? || step.Fingerprinted? || step.Marked? || step.Unmarked?
    ensures SameArrivals(s, DoWorld(s, step, now))
  {
    hide Delete, Drop, SameArrivals;
    match step
    case Fingerprinted(id, canonical, messageId) =>
      SameAsItself(s);
      if id in s.messages {
        FingerprintKeepsArrivals(s, id, canonical, messageId);
      }
    case MailboxSet(mailbox, row) =>
      SameAsItself(s);
      NoRowMoves(s, s.mailboxes[mailbox := row], s.markers);
    case Marked(mailbox, marker) => NoRowMoves(s, s.mailboxes, s.markers[mailbox := marker]);
    case Unmarked(mailbox) => NoRowMoves(s, s.mailboxes, s.markers - {mailbox});
  }

  lemma FingerprintKeepsArrivals(s: Ledger, id: int, canonical: int, messageId: int)
    requires id in s.messages
    ensures SameArrivals(s, s.(messages := s.messages[id := s.messages[id].(canonical := canonical, messageId := messageId)]))
  {
  }

  lemma NoRowMoves(s: Ledger, mailboxes: map<int, Mailbox>, markers: map<int, Marker>)
    ensures SameArrivals(s, s.(mailboxes := mailboxes, markers := markers))
  {
  }

  lemma StoreIsFaithful(s: Ledger, id: int, m: Message, now: int)
    requires AllTold(s)
    ensures var t := if id == 0 || id in s.messages || m.mailbox !in s.mailboxes then s
                     else s.(messages := s.messages[id := m]);
            Faithful(s, t, now) && AllTold(t)
  {
    var t := if id == 0 || id in s.messages || m.mailbox !in s.mailboxes then s
             else s.(messages := s.messages[id := m]);
    forall other | other in s.arrivals ensures other in s.messages {
      ToldHere(s, other);
    }
    EventsAreOfMessages(s);
    QuietIsFaithful(s, t, now);
    QuietStaysTold(s, t);
  }

  lemma RunIsFaithful(s: Ledger, run: int, account: int, now: int)
    requires AllTold(s)
    ensures var t := if run <= 0 || run in s.runs then s else s.(runs := s.runs[run := Run(account, 0)]);
            Faithful(s, t, now) && AllTold(t)
  {
    if run <= 0 || run in s.runs {
      NothingIsQuiet(s);
      QuietIsFaithful(s, s, now);
    } else {
      NewRunStaysTold(s, run, account);
      var t := s.(runs := s.runs[run := Run(account, 0)]);
      hide AllTold;
      forall r | r in t.runs ensures AnnouncedFor(s, t, r) == {} {
      }
    }
  }

  lemma NewRunStaysTold(s: Ledger, run: int, account: int)
    requires AllTold(s) && run > 0 && run !in s.runs
    ensures AllTold(s.(runs := s.runs[run := Run(account, 0)]))
  {
    var t := s.(runs := s.runs[run := Run(account, 0)]);
    forall id | id in s.arrivals ensures Told(t, id, s.arrivals[id]) {
      assert Told(s, id, s.arrivals[id]);
    }
  }

  lemma OldEventStaysTold(s: Ledger, id: int, announcedAt: int)
    requires AllTold(s) && id in s.messages && announcedAt <= s.clock
    ensures AllTold(s.(events := s.events[id := announcedAt]))
  {
    var t := s.(events := s.events[id := announcedAt]);
    forall other | other in s.arrivals ensures Told(t, other, s.arrivals[other]) {
      assert Told(s, other, s.arrivals[other]);
    }
  }

  lemma EventRestoredStaysTold(s: Ledger, id: int, announcedAt: int, now: int)
    requires AllTold(s) && now == s.clock
    ensures var t := DoWorld(s, EventRestored(id, announcedAt), now);
            AllTold(t) && OutcomesStay(s, t, now) && EventsStay(s, t) && t.runs == s.runs
  {
    if id in s.messages && id !in s.events && announcedAt <= now {
      OldEventStaysTold(s, id, announcedAt);
    }
    hide AllTold;
  }

  lemma ReportStaysTold(s: Ledger, run: int, count: int, now: int)
    requires AllTold(s)
    ensures var t := Report(s, run, count);
            AllTold(t) && OutcomesStay(s, t, now) && EventsStay(s, t) && AnnouncesOnTime(s, t, now) && t.runs.Keys == s.runs.Keys
  {
    var t := Report(s, run, count);
    assert t == s.(runs := t.runs) && t.runs.Keys == s.runs.Keys;
    assert forall r :: r in s.runs ==> t.runs[r].account == s.runs[r].account;
    hide Report, DistinctIds;
    forall id | id in t.arrivals ensures Told(t, id, t.arrivals[id]) {
      assert Told(s, id, s.arrivals[id]);
    }
  }

  lemma TurningIsFaithful(s: Ledger, step: WorldStep, now: int)
    requires AllTold(s) && 0 < now == s.clock
    ensures var t := DoWorld(s, step, now);
            && AllTold(t) && OutcomesStay(s, t, now) && EventsStay(s, t) && s.runs.Keys <= t.runs.Keys
            && (!step.EventRestored? ==> AnnouncesOnTime(s, t, now))
            && (!step.EventRestored? && !step.RunReported? ==> CountsAnnouncements(s, t))
            && (step.EventRestored? ==> t.runs == s.runs)
  {
    if step.EventRestored? {
      EventRestoredStaysTold(s, step.id, step.announcedAt, now);
      hide *;
    } else if step.RunReported? {
      ReportStaysTold(s, step.run, step.count, now);
      assert DoWorld(s, step, now) == Report(s, step.run, step.count);
      hide *;
    } else {
      WorldStepIsFaithful(s, step, now);
      hide DoWorld, AllTold;
    }
  }

  /** The step puts back an old event. */
  predicate RestoresEvent(step: Step) {
    step.Turning? && step.turning.EventRestored?
  }

  /** The step reports a run's own count. */
  predicate Reports(step: Step) {
    step.Turning? && step.turning.RunReported?
  }

  /** Any step at any instant: outcomes are final, events stay, and unless an old event is put back, what is new
      among them was due and is counted for its run, to which only a report adds anything else. */
  lemma StepIsFaithful(s: Ledger, step: Step, now: int)
    requires AllTold(s)
    ensures AllTold(Apply(s, step, now))
    ensures OutcomesStay(s, Apply(s, step, now), now) && EventsStay(s, Apply(s, step, now))
    ensures s.runs.Keys <= Apply(s, step, now).runs.Keys
    ensures !RestoresEvent(step) ==> AnnouncesOnTime(s, Apply(s, step, now), now)
    ensures !RestoresEvent(step) && !Reports(step) ==> CountsAnnouncements(s, Apply(s, step, now))
    ensures RestoresEvent(step) ==> Apply(s, step, now).runs == s.runs
  {
    if now < s.clock {
      NothingIsQuiet(s);
      QuietIsFaithful(s, s, now);
    } else {
      var c := s.(clock := now);
      ClockStaysTold(s, now);
      hide AllTold, DoArrival, DoTransfer, DoWorld;
      match step
      case Arriving(arriving) => ArrivalStepIsFaithful(c, arriving, now);
      case Transferring(transferring) =>
        TransferStepKeepsArrivals(c, transferring, now);
        SameArrivalsAreFaithful(c, DoTransfer(c, transferring, now), now);
      case Turning(turning) => TurningIsFaithful(c, turning, now);
      hide DoWorld;
      SameButClock(s, c, Apply(s, step, now), now);
    }
  }

  lemma ClockStaysTold(s: Ledger, now: int)
    requires AllTold(s) && now >= s.clock
    ensures AllTold(s.(clock := now)) && now > 0
  {
    var t := s.(clock := now);
    forall id | id in s.arrivals ensures Told(t, id, s.arrivals[id]) {
      assert Told(s, id, s.arrivals[id]);
    }
  }

  lemma SameButClock(s: Ledger, c: Ledger, t: Ledger, now: int)
    requires c == s.(clock := c.clock)
    ensures OutcomesStay(c, t, now) ==> OutcomesStay(s, t, now)
    ensures EventsStay(c, t) ==> EventsStay(s, t)
    ensures AnnouncesOnTime(c, t, now) ==> AnnouncesOnTime(s, t, now)
    ensures CountsAnnouncements(c, t) ==> CountsAnnouncements(s, t)
  {
    if CountsAnnouncements(c, t) {
      forall run | run in t.runs ensures AnnouncedFor(s, t, run) == AnnouncedFor(c, t, run) {
      }
    }
  }

  // ----- whole runs -----

  lemma {:induction false} RunStaysTold(steps: seq<Timed>)
    ensures AllTold(Execute(Empty(), steps))
  {
    if steps != [] {
      RunStaysTold(steps[..|steps| - 1]);
      var last := steps[|steps| - 1];
      StepIsFaithful(Execute(Empty(), steps[..|steps| - 1]), last.step, last.at);
    }
  }

  /** How many messages the steps announced for a run, old events put back not counted. */
  ghost function Announcements(steps: seq<Timed>, run: int): nat {
    if steps == [] then 0
    else
      var before, last := Execute(Empty(), steps[..|steps| - 1]), steps[|steps| - 1];
      Announcements(steps[..|steps| - 1], run)
      + if RestoresEvent(last.step) then 0
        else |AnnouncedFor(before, Execute(Empty(), steps), run)|
  }

  /** The counter of a run that is there is the number of announcements made for it. */
  ghost predicate Exact(steps: seq<Timed>, run: int) {
    var s := Execute(Empty(), steps);
    run in s.runs ==> s.runs[run].announced == Announcements(steps, run)
  }

  ghost predicate ExactThroughout(steps: seq<Timed>, run: int) {
    Exact(steps, run) && (steps != [] ==> ExactThroughout(steps[..|steps| - 1], run))
  }

  /** A report of more new messages than the counter has. */
  predicate Overstates(s: Ledger, last: Timed, run: int) {
    && last.at >= s.clock && Reports(last.step) && last.step.turning.run == run
    && run in s.runs && s.runs[run].announced < last.step.turning.count
  }

  ghost predicate NeverOverstates(steps: seq<Timed>, run: int) {
    steps != [] ==>
      && NeverOverstates(steps[..|steps| - 1], run)
      && !Overstates(Execute(Empty(), steps[..|steps| - 1]), steps[|steps| - 1], run)
  }

  /** One step adds to the counter what it announces, or puts a larger report in its place. */
  lemma StepCounts(steps: seq<Timed>, run: int)
    requires steps != [] && run > 0
    ensures var s, t, last := Execute(Empty(), steps[..|steps| - 1]), Execute(Empty(), steps), steps[|steps| - 1];
            var more := Announcements(steps, run) - Announcements(steps[..|steps| - 1], run);
            var before := if run in s.runs then s.runs[run].announced else 0;
            && (run in s.runs ==> run in t.runs)
            && more >= 0 && (run !in t.runs ==> more == 0)
            && (run in t.runs ==>
                  t.runs[run].announced == if Overstates(s, last, run) then last.step.turning.count else before + more)
            && (Overstates(s, last, run) ==> more == 0 && run in t.runs && t.runs[run].announced > before)
  {
    var s, last := Execute(Empty(), steps[..|steps| - 1]), steps[|steps| - 1];
    var t := Execute(Empty(), steps);
    RunStaysTold(steps[..|steps| - 1]);
    RunStaysTold(steps);
    StepIsFaithful(s, last.step, last.at);
    assert t == Apply(s, last.step, last.at);
    if Reports(last.step) {
      ReportAnnouncesNothing(s, last.step, last.at, run);
    } else if !RestoresEvent(last.step) && run !in t.runs {
      NoAnnouncementWithoutRun(s, t, run);
    }
    hide Execute, Apply, AllTold;
  }

  lemma ReportAnnouncesNothing(s: Ledger, step: Step, now: int, run: int)
    requires Reports(step)
    ensures var t := Apply(s, step, now);
            && AnnouncedFor(s, t, run) == {} && t.runs.Keys == s.runs.Keys
            && (run in s.runs ==>
                  t.runs[run].announced == if Overstates(s, Timed(step, now), run) then step.turning.count
                                           else s.runs[run].announced)
  {
    hide AnnouncedFor, Report;
    var t := Apply(s, step, now);
    if now >= s.clock {
      ReportIsMax(s.(clock := now), step.turning.run, step.turning.count);
    }
    SameEventsAnnounceNothing(s, t, run);
  }

  lemma ReportIsMax(s: Ledger, run: int, count: int)
    ensures var t := Report(s, run, count);
            && t == s.(runs := t.runs) && t.runs.Keys == s.runs.Keys
            && forall r :: r in s.runs ==>
                 t.runs[r].announced == if r == run && s.runs[r].announced < count then count else s.runs[r].announced
  {
  }

  lemma SameEventsAnnounceNothing(s: Ledger, t: Ledger, run: int)
    requires t.events == s.events
    ensures AnnouncedFor(s, t, run) == {}
  {
  }

  /** A run's counter misses no announcement that was made for it. */
  lemma {:induction false} CountersMissNothing(steps: seq<Timed>, run: int)
    requires run > 0
    ensures var s := Execute(Empty(), steps);
            if run in s.runs then s.runs[run].announced >= Announcements(steps, run) else Announcements(steps, run) == 0
  {
    if steps != [] {
      CountersMissNothing(steps[..|steps| - 1], run);
      StepCounts(steps, run);
      hide Execute;
    }
  }

  /** It is exactly their number throughout if and only if the run never reports more than it has. */
  lemma {:induction false} CountersAreExact(steps: seq<Timed>, run: int)
    requires run > 0
    ensures ExactThroughout(steps, run) <==> NeverOverstates(steps, run)
  {
    if steps != [] {
      CountersAreExact(steps[..|steps| - 1], run);
      CountersMissNothing(steps[..|steps| - 1], run);
      StepCounts(steps, run);
      hide Execute, Overstates;
    }
  }

  lemma NoAnnouncementWithoutRun(s: Ledger, t: Ledger, run: int)
    requires AllTold(t) && run > 0 && run !in t.runs
    ensures AnnouncedFor(s, t, run) == {}
  {
    forall id | id in t.arrivals ensures t.arrivals[id].run != run {
      assert Told(t, id, t.arrivals[id]);
    }
  }

  /** The arrival row of a message is there, the same row, in every state on the way. */
  ghost predicate Lasts(steps: seq<Timed>, more: seq<Timed>, id: int, arrival: int) {
    && (more != [] ==> Lasts(steps, more[..|more| - 1], id, arrival))
    && id in Execute(Execute(Empty(), steps), more).arrivals
    && Execute(Execute(Empty(), steps), more).arrivals[id].id == arrival
  }

  /** An arrival is decided once: as long as its row is there, its outcome, its tokens and the time of its decision
      never change again. */
  lemma {:induction false} OutcomesAreFinal(steps: seq<Timed>, more: seq<Timed>, id: int, arrival: int)
    requires Lasts(steps, more, id, arrival)
    requires Lasts(steps, [], id, arrival) && Execute(Empty(), steps).arrivals[id].outcome != Undecided
    ensures var a, b := Execute(Empty(), steps).arrivals[id], Execute(Execute(Empty(), steps), more).arrivals[id];
            b.outcome == a.outcome && b.transfer == a.transfer && b.tombstone == a.tombstone
            && b.finalizedAt == a.finalizedAt
  {
    if more != [] {
      var before, last := more[..|more| - 1], more[|more| - 1];
      OutcomesAreFinal(steps, before, id, arrival);
      RunStaysTold(steps + before);
      ExecuteConcat(Empty(), steps, before);
      StepIsFaithful(Execute(Execute(Empty(), steps), before), last.step, last.at);
    }
  }

  lemma {:induction false} ExecuteConcat(s: Ledger, steps: seq<Timed>, more: seq<Timed>)
    ensures Execute(s, steps + more) == Execute(Execute(s, steps), more)
  {
    if more == [] {
      assert steps + more == steps;
    } else {
      ExecuteConcat(s, steps, more[..|more| - 1]);
      assert (steps + more)[..|steps + more| - 1] == steps + more[..|more| - 1];
    }
  }

  /** In every state a run can reach, pruning first or not makes no difference to a classification. */
  lemma PruningIsUnobservableInRuns(steps: seq<Timed>, id: int, fingerprint: Fingerprint, now: int)
    requires id in Execute(Empty(), steps).messages
    ensures var s := Execute(Empty(), steps);
            Classify(Prune(s, now), id, s.messages[id], fingerprint, now) == Classify(s, id, s.messages[id], fingerprint, now)
  {
    RunStaysTold(steps);
    var s := Execute(Empty(), steps);
    forall other | other in s.arrivals && s.arrivals[other].outcome == Undecided
      ensures s.arrivals[other].finalizedAt == 0 {
      assert Told(s, other, s.arrivals[other]);
    }
    PruningIsUnobservable(s, id, s.messages[id], fingerprint, now);
  }
}
