/** Exactly-once announcement: when events come into being, what they count for, and that outcomes are final. */
module LedgerAnnouncements {

  import opened Candidates
  import opened LedgerState
  import opened LedgerSteps
  import opened LedgerVerdict

  ghost predicate Told(s: Ledger, id: int, a: Arrival) {
    && id in s.messages && a.account == s.messages[id].account && a.mailbox == s.messages[id].mailbox
    && (a.run > 0 ==> RunOf(s, a.run, a.account))
    && (a.outcome == Undecided <==> a.finalizedAt == 0)
    && a.finalizedAt <= s.clock
    && (a.outcome == Delivery ==> id in s.events && a.availableAt <= a.finalizedAt)
  }

  ghost predicate DistinctIds(arrivals: map<int, Arrival>) {
    forall i, j :: i in arrivals && j in arrivals && arrivals[i].id == arrivals[j].id ==> i == j
  }

  ghost predicate AllTold(s: Ledger) {
    && s.clock > 0 && (forall run :: run in s.runs ==> run > 0) && DistinctIds(s.arrivals)
    && (forall id :: id in s.arrivals ==> s.arrivals[id].id < s.nextArrival)
    && (forall id :: id in s.arrivals ==> Told(s, id, s.arrivals[id]))
    && (forall id :: id in s.events ==> id in s.messages && s.events[id] <= s.clock)
  }

  // ----- what a transaction may do to arrivals and events -----

  /** A decided arrival stays what it is; an undecided one may be decided at this instant, and only on time may it
      become a delivery. */
  predicate Ages(a: Arrival, b: Arrival, now: int) {
    && b.id == a.id && b.account == a.account && b.mailbox == a.mailbox
    && (a.outcome != Undecided ==>
          && b.outcome == a.outcome && b.finalizedAt == a.finalizedAt && b.availableAt == a.availableAt
          && b.transfer == a.transfer && b.tombstone == a.tombstone)
    && (a.outcome == Undecided && b.outcome != Undecided ==> b.finalizedAt == now && b.availableAt == a.availableAt)
    && (a.outcome == Undecided && b.outcome == Delivery ==> a.availableAt <= now)
  }

  /** The messages announced between two states for a run. */
  ghost function AnnouncedFor(s: Ledger, t: Ledger, run: int): set<int> {
    set id | id in t.events && id !in s.events && id in t.arrivals && t.arrivals[id].run == run
  }

  ghost predicate CountsAnnouncements(s: Ledger, t: Ledger) {
    forall run :: run in t.runs ==>
      t.runs[run].announced == (if run in s.runs then s.runs[run].announced else 0) + |AnnouncedFor(s, t, run)|
  }

  /** New events are announcements of arrivals that were due and are deliveries now. */
  ghost predicate AnnouncesOnTime(s: Ledger, t: Ledger, now: int) {
    forall id :: id in t.events && id !in s.events ==>
      && t.events[id] == now
      && id in s.arrivals && s.arrivals[id].outcome == Undecided && s.arrivals[id].availableAt <= now
      && id in t.arrivals && t.arrivals[id].outcome == Delivery
  }

  ghost predicate EventsStay(s: Ledger, t: Ledger) {
    forall id :: id in s.events && id in t.messages && id in s.messages ==> id in t.events && t.events[id] == s.events[id]
  }

  ghost predicate OutcomesStay(s: Ledger, t: Ledger, now: int) {
    forall id :: id in s.arrivals && id in t.arrivals && s.arrivals[id].id == t.arrivals[id].id
      ==> Ages(s.arrivals[id], t.arrivals[id], now)
  }

  // ----- one due arrival after another -----

  ghost predicate SameRows(s: Ledger, t: Ledger) {
    && t.clock == s.clock && t.nextArrival == s.nextArrival && t.markers == s.markers && t.mailboxes == s.mailboxes
    && t.messages.Keys == s.messages.Keys && t.arrivals.Keys == s.arrivals.Keys && t.runs.Keys == s.runs.Keys
    && (forall id :: id in s.messages ==>
          t.messages[id].account == s.messages[id].account && t.messages[id].mailbox == s.messages[id].mailbox)
    && (forall run :: run in s.runs ==> t.runs[run].account == s.runs[run].account)
  }

  ghost predicate ArrivalsAge(s: Ledger, t: Ledger, now: int) {
    forall id :: id in s.arrivals && id in t.arrivals ==>
      && t.arrivals[id].run == s.arrivals[id].run && t.arrivals[id].availableAt == s.arrivals[id].availableAt
      && Ages(s.arrivals[id], t.arrivals[id], now)
  }

  ghost predicate EventsGrow(s: Ledger, t: Ledger) {
    forall id :: id in s.events ==> id in t.events && t.events[id] == s.events[id]
  }

  /** What finalizing does, arrival by arrival: nothing appears or disappears but events. */
  ghost predicate Settles(s: Ledger, t: Ledger, now: int) {
    SameRows(s, t) && ArrivalsAge(s, t, now) && EventsGrow(s, t) && AnnouncesOnTime(s, t, now) && CountsAnnouncements(s, t)
  }

  lemma SettlesNothing(s: Ledger, t: Ledger, now: int)
    requires SameRows(s, t) && t.arrivals == s.arrivals && t.events == s.events && t.runs == s.runs
    ensures Settles(s, t, now)
  {
    forall run | run in s.runs ensures AnnouncedFor(s, t, run) == {} {
    }
  }

  lemma SettlesTwice(s: Ledger, t: Ledger, u: Ledger, now: int)
    requires Settles(s, t, now) && Settles(t, u, now)
    ensures Settles(s, u, now)
  {
    assert SameRows(s, u) && ArrivalsAge(s, u, now) && EventsGrow(s, u) && AnnouncesOnTime(s, u, now);
    forall run | run in u.runs
      ensures u.runs[run].announced == s.runs[run].announced + |AnnouncedFor(s, u, run)|
    {
      AnnouncedInTwo(s, t, u, run, now);
    }
  }

  lemma AnnouncedInTwo(s: Ledger, t: Ledger, u: Ledger, run: int, now: int)
    requires SameRows(s, t) && SameRows(t, u) && ArrivalsAge(s, t, now) && ArrivalsAge(t, u, now)
    requires EventsGrow(s, t) && EventsGrow(t, u)
    ensures |AnnouncedFor(s, u, run)| == |AnnouncedFor(s, t, run)| + |AnnouncedFor(t, u, run)|
  {
    forall id ensures id in AnnouncedFor(s, u, run) <==> id in AnnouncedFor(s, t, run) || id in AnnouncedFor(t, u, run) {
      assert id in u.arrivals <==> id in t.arrivals.Keys;
    }
    assert AnnouncedFor(s, u, run) == AnnouncedFor(s, t, run) + AnnouncedFor(t, u, run);
    assert AnnouncedFor(s, t, run) !! AnnouncedFor(t, u, run);
  }

  lemma DeliveryIsOnTime(s: Ledger, id: int, account: int, now: int)
    requires AllTold(s) && id in s.arrivals && s.arrivals[id].account == account
    requires s.arrivals[id].outcome == Undecided && s.arrivals[id].availableAt <= now
    ensures var t := Deliver(s, id, s.arrivals[id], account, now);
            SameRows(s, t) && ArrivalsAge(s, t, now) && EventsGrow(s, t) && AnnouncesOnTime(s, t, now)
  {
    var a := s.arrivals[id];
    var t := Deliver(s, id, a, account, now);
    assert Told(s, id, a);
    hide AllTold, Told;
    AnnouncingKeepsRuns(s, id, a.run, account, now);
    assert t.arrivals == s.arrivals[id := a.(outcome := Delivery, finalizedAt := now)];
    assert t.events == if id in s.events then s.events else s.events[id := now];
    assert t == s.(arrivals := t.arrivals, events := t.events, runs := Announce(s, id, a.run, account, now).runs);
    hide Deliver, Announce;
    assert SameRows(s, t);
    assert ArrivalsAge(s, t, now);
  }

  lemma AnnouncingKeepsRuns(s: Ledger, id: int, run: int, account: int, now: int)
    ensures var t := Announce(s, id, run, account, now);
            && t.runs.Keys == s.runs.Keys && forall r :: r in s.runs ==> t.runs[r].account == s.runs[r].account
  {
  }

  lemma DeliveryCounts(s: Ledger, id: int, account: int, now: int)
    requires AllTold(s) && id in s.arrivals && s.arrivals[id].account == account
    ensures CountsAnnouncements(s, Deliver(s, id, s.arrivals[id], account, now))
  {
    var a := s.arrivals[id];
    var t := Deliver(s, id, a, account, now);
    assert Told(s, id, a);
    assert a.run in s.runs ==> RunOf(s, a.run, a.account);
    hide AllTold, Told;
    forall run | run in t.runs
      ensures t.runs[run].announced == s.runs[run].announced + |AnnouncedFor(s, t, run)|
    {
      assert AnnouncedFor(s, t, run) == if id !in s.events && a.run == run then {id} else {};
    }
  }

  /** The delivery of one arrival: an event unless there is one, counted for the arrival's run. */
  lemma DeliverySettles(s: Ledger, id: int, account: int, now: int)
    requires AllTold(s) && id in s.arrivals && s.arrivals[id].account == account
    requires s.arrivals[id].outcome == Undecided && s.arrivals[id].availableAt <= now
    ensures Settles(s, Deliver(s, id, s.arrivals[id], account, now), now)
  {
    DeliveryIsOnTime(s, id, account, now);
    DeliveryCounts(s, id, account, now);
  }

  lemma VerdictSettles(s: Ledger, v: Verdict, id: int, now: int)
    requires AllTold(s) && id in s.arrivals && s.arrivals[id].outcome == Undecided && v.outcome != Delivery
    ensures Settles(s, Settle(s, v, id, Decided(s.arrivals[id], v, now), now), now)
  {
    var t := Settle(s, v, id, Decided(s.arrivals[id], v, now), now);
    assert Told(s, id, s.arrivals[id]);
    hide AllTold, Told;
    assert t.arrivals == s.arrivals[id := Decided(s.arrivals[id], v, now)];
    assert SameRows(s, t) && EventsGrow(s, t) && AnnouncesOnTime(s, t, now);
    hide Settle, SameRows, EventsGrow, AnnouncesOnTime;
    assert ArrivalsAge(s, t, now);
    hide ArrivalsAge;
    forall run | run in t.runs ensures AnnouncedFor(s, t, run) == {} {
    }
  }

  // ----- what the invariant needs -----

  lemma ToldAfterSettling(s: Ledger, t: Ledger, now: int)
    requires AllTold(s) && Settles(s, t, now) && 0 < now <= s.clock
    requires forall id :: id in s.arrivals ==>
               (s.arrivals[id].outcome == Undecided && t.arrivals[id].outcome == Delivery ==> id in t.events)
    requires forall id :: id in s.arrivals && s.arrivals[id].outcome == Undecided ==>
               (t.arrivals[id].outcome == Undecided ==> t.arrivals[id].finalizedAt == 0)
    ensures AllTold(t)
  {
    forall id | id in t.arrivals ensures Told(t, id, t.arrivals[id]) {
      assert Told(s, id, s.arrivals[id]);
    }
    forall i, j | i in t.arrivals && j in t.arrivals && t.arrivals[i].id == t.arrivals[j].id ensures i == j {
      assert s.arrivals[i].id == s.arrivals[j].id;
    }
  }

  // ----- one due arrival after another -----

  /** The arrival of this id waits, undecided and due, for this account. */
  ghost predicate Waits(s: Ledger, arrival: int, account: int, now: int) {
    exists id :: id in s.arrivals && s.arrivals[id].id == arrival && s.arrivals[id].outcome == Undecided
              && s.arrivals[id].account == account && s.arrivals[id].availableAt <= now
  }

  lemma StampSettles(s: Ledger, id: int, fingerprint: Fingerprint, now: int)
    requires AllTold(s) && id in s.messages
    ensures Settles(s, Stamp(s, id, fingerprint), now) && AllTold(Stamp(s, id, fingerprint))
  {
    var t := Stamp(s, id, fingerprint);
    forall other | other in s.arrivals ensures Told(t, other, s.arrivals[other]) {
      assert Told(s, other, s.arrivals[other]);
    }
    SettlesNothing(s, t, now);
  }

  /** One arrival is decided, in time, and no other is touched. */
  lemma DecisionSettles(s: Ledger, v: Verdict, id: int, account: int, now: int)
    requires AllTold(s) && 0 < now <= s.clock && v.outcome != Delivery
    requires id in s.arrivals && s.arrivals[id].outcome == Undecided
    requires s.arrivals[id].account == account && s.arrivals[id].availableAt <= now
    ensures var a := s.arrivals[id];
            var t := if v.outcome != Undecided then Settle(s, v, id, Decided(a, v, now), now)
                     else Deliver(s, id, a, account, now);
            && Settles(s, t, now) && AllTold(t)
            && forall other :: other in s.arrivals && other != id ==> t.arrivals[other] == s.arrivals[other]
  {
    var a := s.arrivals[id];
    assert Told(s, id, a);
    if v.outcome != Undecided {
      VerdictSettles(s, v, id, now);
      var t := Settle(s, v, id, Decided(a, v, now), now);
      assert t.arrivals == s.arrivals[id := Decided(a, v, now)];
      hide Settle, Settles;
      ToldAfterOne(s, t, id, now);
    } else {
      DeliverySettles(s, id, account, now);
      var t := Deliver(s, id, a, account, now);
      assert t.arrivals == s.arrivals[id := a.(outcome := Delivery, finalizedAt := now)] && id in t.events;
      hide Deliver, Settles;
      ToldAfterOne(s, t, id, now);
    }
  }

  lemma ToldAfterOne(s: Ledger, t: Ledger, id: int, now: int)
    requires AllTold(s) && Settles(s, t, now) && 0 < now <= s.clock && id in s.arrivals
    requires id in t.arrivals && t.arrivals == s.arrivals[id := t.arrivals[id]]
    requires s.arrivals[id].outcome == Undecided && t.arrivals[id].outcome != Undecided
    requires t.arrivals[id].outcome == Delivery ==> id in t.events && s.arrivals[id].availableAt <= now
    ensures AllTold(t)
  {
    ToldAfterSettling(s, t, now);
  }

  lemma FinalizeOneSettles(s: Ledger, id: int, account: int, now: int)
    requires AllTold(s) && 0 < now <= s.clock
    requires id in s.arrivals && s.arrivals[id].outcome == Undecided
    requires s.arrivals[id].account == account && s.arrivals[id].availableAt <= now
    requires FinalizeOne(s, id, account, now).Some?
    ensures var t := FinalizeOne(s, id, account, now).value;
            && Settles(s, t, now) && AllTold(t)
            && forall other :: other in s.arrivals && other != id ==> t.arrivals[other] == s.arrivals[other]
  {
    assert Told(s, id, s.arrivals[id]);
    var a := s.arrivals[id];
    var fingerprint := Resolve(s.messages[id], a.fingerprint).value;
    var stamped := Stamp(s, id, fingerprint);
    StampSettles(s, id, fingerprint, now);
    var m := stamped.messages[id];
    VerdictIsBacked(stamped, id, m, fingerprint, now);
    var v := Classify(stamped, id, m, fingerprint, now);
    DecisionSettles(stamped, v, id, account, now);
    hide Classify, Settle, Deliver, Settles, AllTold, Told;
    SettlesTwice(s, stamped, FinalizeOne(s, id, account, now).value, now);
  }

  lemma {:induction false} FinalizeEachSettles(s: Ledger, due: seq<Candidate>, account: int, now: int)
    requires AllTold(s) && 0 < now <= s.clock && FinalizeEach(s, due, account, now).Some?
    requires forall i :: 0 <= i < |due| ==> Waits(s, due[i].id, account, now)
    requires forall i, j :: 0 <= i < j < |due| ==> due[i].id != due[j].id
    ensures Settles(s, FinalizeEach(s, due, account, now).value, now)
    ensures AllTold(FinalizeEach(s, due, account, now).value)
    decreases |due|
  {
    hide Settles, AllTold, FinalizeOne, Waits, DistinctIds;
    if due == [] {
      SettlesByNothing(s, now);
    } else {
      WaitingIsFound(s, due[0].id, account, now);
      var id := MessageOf(s, due[0].id);
      FinalizeOneSettles(s, id, account, now);
      var next := FinalizeOne(s, id, account, now).value;
      SettlingKeepsRows(s, next, now);
      forall i | 0 <= i < |due[1..]| ensures Waits(next, due[1..][i].id, account, now) {
        StillWaits(s, next, id, due[0].id, due[i + 1].id, account, now);
      }
      FinalizeEachSettles(next, due[1..], account, now);
      SettlesTwice(s, next, FinalizeEach(next, due[1..], account, now).value, now);
    }
  }

  lemma SettlesByNothing(s: Ledger, now: int)
    ensures Settles(s, s, now)
  {
    SettlesNothing(s, s, now);
  }

  lemma SettlingKeepsRows(s: Ledger, t: Ledger, now: int)
    requires Settles(s, t, now)
    ensures t.clock == s.clock && t.arrivals.Keys == s.arrivals.Keys
  {
  }

  /** A waiting arrival is the one its id leads to. */
  lemma WaitingIsFound(s: Ledger, arrival: int, account: int, now: int)
    requires AllTold(s) && Waits(s, arrival, account, now)
    ensures HasArrival(s, arrival)
    ensures var id := MessageOf(s, arrival);
            && s.arrivals[id].outcome == Undecided && s.arrivals[id].account == account
            && s.arrivals[id].availableAt <= now
  {
    hide Told;
    var holder :| holder in s.arrivals && s.arrivals[holder].id == arrival && s.arrivals[holder].outcome == Undecided
               && s.arrivals[holder].account == account && s.arrivals[holder].availableAt <= now;
    assert MessageOf(s, arrival) == holder;
  }

  lemma StillWaits(s: Ledger, next: Ledger, id: int, done: int, arrival: int, account: int, now: int)
    requires Waits(s, arrival, account, now) && arrival != done && next.arrivals.Keys == s.arrivals.Keys
    requires id in s.arrivals && s.arrivals[id].id == done
    requires forall other :: other in s.arrivals && other != id ==> next.arrivals[other] == s.arrivals[other]
    ensures Waits(next, arrival, account, now)
  {
    var holder :| holder in s.arrivals && s.arrivals[holder].id == arrival && s.arrivals[holder].outcome == Undecided
               && s.arrivals[holder].account == account && s.arrivals[holder].availableAt <= now;
    assert next.arrivals[holder] == s.arrivals[holder];
  }

  lemma BatchWaits(s: Ledger, account: int, now: int)
    requires DistinctIds(s.arrivals)
    ensures forall i :: 0 <= i < |DueBatch(s, account, now)| ==> Waits(s, DueBatch(s, account, now)[i].id, account, now)
    ensures forall i, j :: 0 <= i < j < |DueBatch(s, account, now)| ==>
              DueBatch(s, account, now)[i].id != DueBatch(s, account, now)[j].id
  {
    var rows := DueRows(s, account, now);
    TakenAreFirst(rows, DUE_BATCH);
    assert forall c :: c in rows ==> Waits(s, c.id, account, now);
    forall i, j | 0 <= i < j < |DueBatch(s, account, now)|
      ensures DueBatch(s, account, now)[i].id != DueBatch(s, account, now)[j].id
    {
      var a, b := DueBatch(s, account, now)[i], DueBatch(s, account, now)[j];
      assert a in rows && b in rows && Before(a, b);
    }
  }
}
