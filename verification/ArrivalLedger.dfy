/** The ledger's transactions as the store runs them: queries and row updates one after another, in place. */
module ArrivalLedger {

  import opened Bytes
  import opened Candidates
  import opened LedgerState
  import opened LedgerSteps
  import opened LedgerVerdict

  /** The first n rows in order, found by scanning. */
  method FirstRows(rows: set<Candidate>, n: nat) returns (taken: seq<Candidate>)
    ensures taken == Take(rows, n)
  {
    taken := [];
    var left := rows;
    while |taken| < n && left != {}
      invariant left <= rows && |taken| <= n
      invariant taken + Take(left, n - |taken|) == Take(rows, n)
      decreases left
    {
      var best := LeastRow(left);
      FirstIs(best, left);
      taken, left := taken + [best], left - {best};
    }
  }

  method LeastRow(rows: set<Candidate>) returns (best: Candidate)
    requires rows != {}
    ensures IsFirst(best, rows)
  {
    best :| best in rows;
    var left := rows - {best};
    while left != {}
      invariant left <= rows && best in rows - left
      invariant forall c :: c in rows - left && c != best ==> Before(best, c)
      decreases left
    {
      var next :| next in left;
      assert next != best && (Before(next, best) || Before(best, next)) by {
        assert next == Candidate(next.strength, next.id) && best == Candidate(best.strength, best.id);
      }
      ghost var seen, was := rows - left, best;
      if Before(next, best) {
        best := next;
      }
      left := left - {next};
      forall c | c in rows - left && c != best ensures Before(best, c) {
        assert c == next || c in seen;
        assert c in seen && c != was ==> Before(was, c);
      }
    }
  }

  lemma OneMoreThan<T>(earlier: set<T>, now: set<T>, x: T)
    requires earlier <= now && x !in now
    ensures |now + {x} - earlier| == |now - earlier| + 1
  {
    assert now + {x} - earlier == (now - earlier) + {x};
  }

  class Store {
    var mailboxes: map<int, Mailbox>
    var messages: map<int, Message>
    var transfers: map<int, Transfer>
    var nextTransfer: int
    var tombstones: map<int, Tombstone>
    var nextTombstone: int
    var arrivals: map<int, Arrival>
    var nextArrival: int
    var events: map<int, int>
    var runs: map<int, Run>
    var markers: map<int, Marker>

    constructor ()
      ensures View(1) == Empty()
    {
      mailboxes, messages, transfers, tombstones, arrivals := map[], map[], map[], map[], map[];
      events, runs, markers := map[], map[], map[];
      nextTransfer, nextTombstone, nextArrival := 1, 1, 1;
    }

    function View(clock: int): Ledger
      reads this
    {
      Ledger(clock, mailboxes, messages, transfers, nextTransfer, tombstones, nextTombstone, arrivals, nextArrival,
             events, runs, markers)
    }

    /** What a rolled-back transaction leaves: everything as it was. */
    method RollBack(saved: Ledger)
      modifies this
      ensures View(saved.clock) == saved
    {
      mailboxes, messages, transfers, nextTransfer := saved.mailboxes, saved.messages, saved.transfers, saved.nextTransfer;
      tombstones, nextTombstone := saved.tombstones, saved.nextTombstone;
      arrivals, nextArrival := saved.arrivals, saved.nextArrival;
      events, runs, markers := saved.events, saved.runs, saved.markers;
    }

    /** Ids are positive, and one tombstone stands for one source, as the schema's UNIQUE constraint has it. */
    ghost predicate Valid()
      reads this
    {
      && (forall t :: t in transfers ==> 0 < t) && (forall f :: f in tombstones ==> 0 < f)
      && nextTransfer > 0 && nextTombstone > 0
      && forall f, g :: f in tombstones && g in tombstones && SameGrave(tombstones[f], tombstones[g]) ==> f == g
    }

    // ----- classification -----

    method PruneArrivalCorrelationRows(now: int)
      requires Valid()
      modifies this
      ensures Valid() && View(now) == Prune(old(View(now)), now)
      ensures old(Linked()) ==> Linked()
      ensures old(DistinctArrivals()) ==> DistinctArrivals()
    {
      transfers := LiveTransfers(transfers, now);
      var s := View(now);
      tombstones := map f | f in tombstones && !Stale(s, tombstones[f], now) :: tombstones[f];
      arrivals := map id | id in arrivals && !Outlived(arrivals[id], now) :: arrivals[id];
    }

    method MatchMessageTransfer(id: int, m: Message, fingerprint: Fingerprint, now: int) returns (matched: int)
      requires Valid()
      modifies this`transfers
      ensures Valid() && matched == MatchTransfer(old(View(now)), m, fingerprint)
      ensures if matched in old(transfers)
              then transfers == old(transfers)[matched := UseTransfer(old(transfers)[matched], id, now)]
              else matched == 0 && transfers == old(transfers)
    {
      var rows := TransferRows(View(now), m, fingerprint);
      var candidates := FirstRows(rows, 2);
      TakenAreFirst(rows, 2);
      if |candidates| == 0
         || (candidates[0].strength == IDENTITY && |candidates| > 1 && candidates[1].strength == IDENTITY) {
        return 0;
      }
      var chosen := candidates[0].id;
      transfers := transfers[chosen := UseTransfer(transfers[chosen], id, now)];
      return chosen;
    }

    method ConsumeTransferSourceExpunge(id: int, t: Transfer, m: Message, fingerprint: Fingerprint, now: int)
      returns (consumed: int)
      requires Valid()
      modifies this`tombstones
      ensures Valid() && consumed == SourceTombstone(old(View(now)), t, m, fingerprint, now)
      ensures if consumed in old(tombstones)
              then tombstones == old(tombstones)[consumed := UseTombstone(old(tombstones)[consumed], id, now)]
              else consumed == 0 && tombstones == old(tombstones)
    {
      if t.sourceMailbox <= 0 || t.sourceUid == 0 || t.sourceUidValidity <= 0 {
        return 0;
      }
      var rows := SourceRows(View(now), t, m, fingerprint, now);
      if rows == {} {
        return 0;
      }
      var first := LeastRow(rows);
      FirstIs(first, rows);
      ghost var before := tombstones;
      tombstones := map f | f in tombstones ::
        if OfSource(tombstones[f], t, m, fingerprint, now) then UseTombstone(tombstones[f], id, now) else tombstones[f];
      assert tombstones == before[first.id := UseTombstone(before[first.id], id, now)] by {
        forall f | f in before && OfSource(before[f], t, m, fingerprint, now) ensures f == first.id {
          assert SameGrave(before[f], before[first.id]);
        }
      }
      return first.id;
    }

    method MatchExpungedFingerprint(id: int, m: Message, fingerprint: Fingerprint, now: int) returns (matched: int)
      requires Valid()
      modifies this`tombstones
      ensures Valid() && matched == MatchTombstone(old(View(now)), id, m, fingerprint, now)
      ensures if matched in old(tombstones)
              then tombstones == old(tombstones)[matched := UseTombstone(old(tombstones)[matched], id, now)]
              else matched == 0 && tombstones == old(tombstones)
    {
      var rows := TombstoneRows(View(now), id, m, fingerprint, now);
      var candidates := FirstRows(rows, 2);
      TakenAreFirst(rows, 2);
      if |candidates| == 0 || (|candidates| > 1 && candidates[0].strength == candidates[1].strength) {
        return 0;
      }
      var chosen := candidates[0].id;
      tombstones := tombstones[chosen := UseTombstone(tombstones[chosen], id, now)];
      return chosen;
    }

    method ConsumePendingMoveForExpunge(id: int, f: Tombstone, m: Message, fingerprint: Fingerprint, now: int)
      returns (consumed: int)
      requires Valid()
      modifies this`transfers
      ensures Valid() && consumed == MoveInFlight(old(View(now)), f, m, fingerprint)
      ensures if consumed in old(transfers)
              then transfers == old(transfers)[consumed := UseTransfer(old(transfers)[consumed], id, now)]
              else consumed == 0 && transfers == old(transfers)
    {
      var rows := FlightRows(View(now), f, m, fingerprint);
      if rows == {} {
        return 0;
      }
      var first := LeastRow(rows);
      FirstIs(first, rows);
      transfers := transfers[first.id := UseTransfer(transfers[first.id], id, now)];
      return first.id;
    }

    method ClassifyArrivalWithoutDelivery(id: int, m: Message, fingerprint: Fingerprint, now: int) returns (v: Verdict)
      requires Valid()
      modifies this`transfers, this`tombstones
      ensures Valid() && v == Classify(old(View(now)), id, m, fingerprint, now)
      ensures View(now) == Consume(old(View(now)), v, id, now)
    {
      ghost var s := View(now);
      MatchedTransferExplains(s, m, fingerprint);
      MatchedTombstoneExplains(s, id, m, fingerprint, now);
      var before := transfers;
      var t := MatchMessageTransfer(id, m, fingerprint, now);
      if t > 0 {
        if before[t].kind == Copy {
          return Verdict(LocalCopy, t, 0);
        }
        var f := ConsumeTransferSourceExpunge(id, before[t], m, fingerprint, now);
        return Verdict(LocalMove, t, f);
      }
      var graves := tombstones;
      var f := MatchExpungedFingerprint(id, m, fingerprint, now);
      if f > 0 {
        var move := ConsumePendingMoveForExpunge(id, graves[f], m, fingerprint, now);
        if move > 0 {
          return Verdict(LocalMove, move, f);
        }
        return Verdict(ExternalMove, 0, f);
      }
      return Verdict(Undecided, 0, 0);
    }

    // ----- holding and finalizing -----

    /** Reads the message with its fingerprint completed, and writes the completed fingerprint back. */
    method LoadInboxArrivalMessage(id: int, supplied: Fingerprint) returns (fingerprint: Option<Fingerprint>)
      requires id in messages
      modifies this`messages
      ensures fingerprint == Resolve(old(messages)[id], supplied)
      ensures messages == match fingerprint
                          case None => old(messages)
                          case Some(known) => old(messages)[id := Stamped(old(messages)[id], known)]
    {
      var m := messages[id];
      if supplied.raw != 0 && supplied.raw != m.raw {
        return None;
      }
      var canonical := supplied.canonical;
      if m.canonical != 0 && canonical != 0 && m.canonical != canonical {
        return None;
      }
      if canonical == 0 {
        canonical := m.canonical;
      }
      var messageId := m.header;
      if m.messageId != 0 {
        messageId := m.messageId;
      }
      if supplied.messageId != 0 && messageId != supplied.messageId {
        return None;
      }
      messages := messages[id := m.(canonical := canonical, messageId := messageId)];
      return Some(Fingerprint(m.raw, canonical, messageId, m.date, m.size));
    }

    method InsertNewMailEvent(id: int, now: int) returns (created: bool)
      modifies this`events
      ensures created == (id !in old(events))
      ensures events == if created then old(events)[id := now] else old(events)
    {
      created := id !in events;
      if created {
        events := events[id := now];
      }
    }

    method IncrementSyncRunForArrival(account: int, run: int)
      modifies this`runs
      ensures runs == if RunOf(old(View(0)), run, account)
                      then old(runs)[run := old(runs)[run].(announced := old(runs)[run].announced + 1)] else old(runs)
    {
      if run in runs && runs[run].account == account {
        runs := runs[run := runs[run].(announced := runs[run].announced + 1)];
      }
    }

    /** A delivery held again: makes sure it was announced, for the run it is known by now. */
    method Rehold(id: int, run: int, now: int) returns (announced: bool)
      requires Valid() && id in arrivals && id in messages && arrivals[id].account == messages[id].account
      requires run >= 0 && forall r :: r in runs ==> r > 0
      modifies this`arrivals, this`events, this`runs
      ensures Valid() && View(now) == Reheld(old(View(now)), id, run, now)
      ensures announced <==> id in events && id !in old(events)
    {
      announced := false;
      var existing := arrivals[id];
      if existing.outcome == Delivery {
        var created := InsertNewMailEvent(id, now);
        var effectiveRun := existing.run;
        if run > 0 {
          effectiveRun := run;
        }
        announced := created;
        if created && effectiveRun > 0 {
          IncrementSyncRunForArrival(messages[id].account, effectiveRun);
        }
        arrivals := arrivals[id := existing.(run := effectiveRun)];
      }
    }

    /** Classifies the message and inserts its arrival, or decides the undecided one it has. */
    method HoldUndecided(id: int, run: int, fingerprint: Fingerprint, now: int)
      requires Valid() && id in messages
      modifies this`transfers, this`tombstones, this`arrivals, this`nextArrival
      ensures Valid() && View(now) == HeldOpen(old(View(now)), id, run, fingerprint, now)
    {
      var m := messages[id];
      var v := ClassifyArrivalWithoutDelivery(id, m, fingerprint, now);
      var availableAt, finalizedAt := now + HOLD_SECONDS, 0;
      if v.outcome != Undecided {
        availableAt, finalizedAt := now, now;
      }
      if id in arrivals {
        var existing := arrivals[id];
        arrivals := arrivals[id := existing.(run := if run > 0 then run else existing.run, outcome := v.outcome,
                                             transfer := v.transfer, tombstone := v.tombstone, finalizedAt := finalizedAt)];
      } else {
        arrivals := arrivals[id := Arrival(nextArrival, m.account, m.mailbox, run, v.outcome, fingerprint, v.transfer,
                                           v.tombstone, now, availableAt, finalizedAt)];
        nextArrival := nextArrival + 1;
      }
    }

    /** What the rows say of each other, as the schema's foreign keys have it. */
    ghost predicate Linked()
      reads this
    {
      && (forall r :: r in runs ==> r > 0)
      && forall id :: id in arrivals ==> id in messages && arrivals[id].account == messages[id].account
    }

    /** Holds or decides the arrival of a message that is in the mailbox the caller takes it to be in. */
    method HoldOrClassifyInboxArrival(id: int, account: int, mailbox: int, run: int, supplied: Fingerprint, now: int)
      returns (decision: Option<Arrival>, announced: bool)
      requires Valid() && Linked()
      modifies this
      ensures Valid()
      ensures var s, there := old(View(now)), id in old(messages) && old(messages)[id].account == account
                                              && old(messages)[id].mailbox == mailbox;
              && View(now) == (if there then Hold(s, id, run, supplied, now) else s)
              && (decision.Some? <==> there && MayHold(s, id, run, supplied))
      ensures decision.Some? ==> id in arrivals && decision.value == arrivals[id]
      ensures announced <==> id in events && id !in old(events)
    {
      decision, announced := None, false;
      if id !in messages || run < 0 {
        return;
      }
      var saved := View(now);
      var fingerprint := LoadInboxArrivalMessage(id, supplied);
      if fingerprint.None? {
        return;
      }
      if messages[id].account != account || messages[id].mailbox != mailbox {
        RollBack(saved);
        return;
      }
      if run > 0 && !(run in runs && runs[run].account == messages[id].account) {
        RollBack(saved);
        return;
      }
      PruneArrivalCorrelationRows(now);
      if id in arrivals && arrivals[id].outcome != Undecided {
        announced := Rehold(id, run, now);
      } else {
        HoldUndecided(id, run, fingerprint.value, now);
      }
      decision := Some(arrivals[id]);
    }

    /** Every row as before, but for what deciding arrivals may change. */
    twostate predicate SameKeys()
      reads this
    {
      && arrivals.Keys == old(arrivals.Keys) && messages.Keys == old(messages.Keys) && runs.Keys == old(runs.Keys)
      && (forall id :: id in arrivals ==> arrivals[id].id == old(arrivals)[id].id && arrivals[id].account == old(arrivals)[id].account)
      && (forall id :: id in messages ==> messages[id].account == old(messages)[id].account)
    }

    /** The one event that may be new is of this message. */
    twostate predicate Created(created: bool, id: int)
      reads this
    {
      if created then id !in old(events) && events.Keys == old(events.Keys) + {id} else events == old(events)
    }

    method DeliverArrival(id: int, account: int, now: int) returns (created: bool)
      requires Valid() && Linked() && id in arrivals
      modifies this`arrivals, this`events, this`runs
      ensures Valid() && Linked() && SameKeys()
      ensures var s, a := old(View(now)), old(arrivals)[id];
              View(now) == if a.outcome == Undecided then Deliver(s, id, a, account, now)
                           else Announce(s, id, a.run, account, now)
      ensures Created(created, id)
    {
      var pending := arrivals[id];
      created := InsertNewMailEvent(id, now);
      if created && pending.run > 0 {
        IncrementSyncRunForArrival(account, pending.run);
      }
      assert View(now) == Announce(old(View(now)), id, pending.run, account, now);
      if pending.outcome == Undecided {
        arrivals := arrivals[id := pending.(outcome := Delivery, finalizedAt := now)];
      }
    }

    method ConcludeArrival(id: int, fingerprint: Fingerprint, account: int, now: int) returns (created: bool)
      requires Valid() && Linked() && id in arrivals
      modifies this`transfers, this`tombstones, this`arrivals, this`events, this`runs
      ensures Valid() && Linked() && SameKeys()
      ensures View(now) == Conclude(old(View(now)), id, fingerprint, account, now)
      ensures Created(created, id)
    {
      created := false;
      var pending := arrivals[id];
      var v := ClassifyArrivalWithoutDelivery(id, messages[id], fingerprint, now);
      if v.outcome != Undecided {
        if pending.outcome == Undecided {
          arrivals := arrivals[id := Decided(pending, v, now)];
        }
      } else {
        created := DeliverArrival(id, account, now);
      }
    }

    /** Decides one due arrival; refused when its fingerprint contradicts the message. */
    method FinalizeArrival(id: int, account: int, now: int) returns (decided: bool, created: bool)
      requires Valid() && Linked() && id in arrivals
      modifies this`messages, this`transfers, this`tombstones, this`arrivals, this`events, this`runs
      ensures Valid() && Linked() && SameKeys()
      ensures FinalizeOne(old(View(now)), id, account, now) == if decided then Some(View(now)) else None
      ensures Created(created, id)
    {
      var fingerprint := LoadInboxArrivalMessage(id, arrivals[id].fingerprint);
      if fingerprint.None? {
        return false, false;
      }
      assert View(now) == Stamp(old(View(now)), id, fingerprint.value);
      created := ConcludeArrival(id, fingerprint.value, account, now);
      decided := true;
    }

    method FindArrival(arrival: int, now: int) returns (found: bool, id: int)
      requires DistinctArrivals()
      ensures found == HasArrival(View(now), arrival)
      ensures found ==> id == MessageOf(View(now), arrival) && id in arrivals
    {
      found, id := exists other :: other in arrivals && arrivals[other].id == arrival, 0;
      if found {
        id :| id in arrivals && arrivals[id].id == arrival;
      }
    }

    method FinalizeBatch(due: seq<Candidate>, account: int, now: int) returns (complete: bool, count: nat)
      requires Valid() && Linked() && DistinctArrivals()
      modifies this
      ensures Valid() && FinalizeEach(old(View(now)), due, account, now) == if complete then Some(View(now)) else None
      ensures old(events.Keys) <= events.Keys && count == |events.Keys - old(events.Keys)|
    {
      count := 0;
      ghost var outcome := FinalizeEach(View(now), due, account, now);
      hide FinalizeOne;
      for i := 0 to |due|
        invariant Valid() && Linked() && DistinctArrivals()
        invariant FinalizeEach(View(now), due[i..], account, now) == outcome
        invariant old(events.Keys) <= events.Keys && count == |events.Keys - old(events.Keys)|
      {
        assert due[i..][1..] == due[i + 1..];
        var found, id := FindArrival(due[i].id, now);
        if found {
          ghost var before := events.Keys;
          var decided, created := FinalizeArrival(id, account, now);
          if created {
            OneMoreThan(old(events.Keys), before, id);
            count := count + 1;
          }
          if !decided {
            return false, count;
          }
        }
      }
      assert due[|due|..] == [];
      complete := true;
    }

    method PruneAndFinalize(account: int, now: int) returns (complete: bool, count: nat)
      requires Valid() && Linked() && DistinctArrivals()
      modifies this
      ensures var pruned := Prune(old(View(now)), now);
              && Valid() && FinalizeEach(pruned, DueBatch(pruned, account, now), account, now)
                            == if complete then Some(View(now)) else None
      ensures old(events.Keys) <= events.Keys && count == |events.Keys - old(events.Keys)|
    {
      PruneArrivalCorrelationRows(now);
      assert View(now).events == Prune(old(View(now)), now).events == old(events);
      hide Prune, DueRows, FinalizeEach;
      var due := FirstRows(DueRows(View(now), account, now), DUE_BATCH);
      complete, count := FinalizeBatch(due, account, now);
    }

    method FinalizeDueInboxArrivals(account: int, now: int) returns (count: nat)
      requires Valid() && Linked() && DistinctArrivals()
      modifies this
      ensures Valid() && View(now) == FinalizeDue(old(View(now)), account, now)
      ensures old(events.Keys) <= events.Keys && count == |events.Keys - old(events.Keys)|
    {
      var saved := View(now);
      var complete;
      hide Prune, FinalizeEach;
      complete, count := PruneAndFinalize(account, now);
      if !complete {
        RollBack(saved);
        assert events.Keys - old(events.Keys) == {};
        count := 0;
      }
    }

    ghost predicate DistinctArrivals()
      reads this
    {
      forall i, j :: i in arrivals && j in arrivals && arrivals[i].id == arrivals[j].id ==> i == j
    }

    method DeferPendingInboxArrivalProbes(account: int, ids: seq<int>, retryAt: int, now: int)
      modifies this
      ensures View(now) == Defer(old(View(now)), account, ids, retryAt)
    {
      if |ids| > DUE_BATCH {
        return;
      }
      var saved := View(now);
      var seen: set<int> := {};
      for k := 0 to |ids|
        invariant View(now) == saved.(arrivals := arrivals)
        invariant arrivals.Keys == saved.arrivals.Keys
        invariant forall id :: id in arrivals ==> arrivals[id] == DeferRow(saved.arrivals[id], id in seen, account, retryAt)
        invariant forall id :: id in seen <==> id in ids[..k]
        invariant forall i :: 0 <= i < k ==> ids[i] > 0
      {
        var id := ids[k];
        assert ids[..k + 1] == ids[..k] + [id];
        if id <= 0 {
          RollBack(saved);
          return;
        }
        if id in seen {
          continue;
        }
        seen := seen + {id};
        if id in arrivals && arrivals[id].account == account && arrivals[id].outcome == Undecided {
          arrivals := arrivals[id := arrivals[id].(availableAt := retryAt)];
        }
      }
      assert ids[..|ids|] == ids;
      assert forall id :: id in seen <==> id in ids;
      assert forall id :: id in arrivals ==> arrivals[id] == DeferRow(saved.arrivals[id], id in ids, account, retryAt);
      assert arrivals == map id | id in saved.arrivals :: DeferRow(saved.arrivals[id], id in ids, account, retryAt);
    }

    // ----- transfers -----

    ghost predicate IsNewest(t: int, m: Message, kind: Kind, account: int, destination: int, now: int)
      reads this
    {
      && t in transfers && SameOperation(transfers[t], m, kind, account, destination, now)
      && forall u :: u in transfers && SameOperation(transfers[u], m, kind, account, destination, now) ==> u <= t
    }

    method FindOperation(m: Message, kind: Kind, account: int, destination: int, now: int) returns (found: Option<int>)
      requires Numbering()
      ensures found.Some? <==>
                exists t :: t in transfers && SameOperation(transfers[t], m, kind, account, destination, now)
      ensures found.Some? ==> IsNewest(found.value, m, kind, account, destination, now)
    {
      hide SameOperation;
      var t := nextTransfer;
      while t > 1
        invariant forall u :: u in transfers && SameOperation(transfers[u], m, kind, account, destination, now) ==> u < t
      {
        t := t - 1;
        if t in transfers && SameOperation(transfers[t], m, kind, account, destination, now) {
          return Some(t);
        }
      }
      return None;
    }

    ghost predicate Numbering()
      reads this
    {
      forall t :: t in transfers ==> 0 < t < nextTransfer
    }

    /** Answers the transfer that stands for the operation, the newest of those there are, and whether it is new. */
    method StageMessageTransfer(source: int, destination: int, kind: Kind, canonical: int, now: int)
      returns (staged: Option<int>, created: bool)
      requires Numbering()
      modifies this
      ensures View(now) == Stage(old(View(now)), source, destination, kind, canonical, now)
      ensures staged.None? ==> !created && View(now) == old(View(now))
      ensures created ==> staged == Some(old(nextTransfer)) && nextTransfer == old(nextTransfer) + 1
      ensures staged.Some? && !created ==>
                && source in old(messages) && destination in old(mailboxes) && nextTransfer == old(nextTransfer)
                && IsNewest(staged.value, old(messages)[source], kind, old(mailboxes)[destination].account, destination, now)
    {
      staged, created := None, false;
      if source !in messages || destination !in mailboxes || messages[source].mailbox !in mailboxes
         || messages[source].outboxJob != 0 {
        return;
      }
      var m, account := messages[source], mailboxes[destination].account;
      if kind == Move && (m.account != account || m.uidValidity <= 0 || mailboxes[m.mailbox].uidValidity != m.uidValidity) {
        return;
      }
      var saved := View(now);
      var fingerprint := LoadInboxArrivalMessage(source, Fingerprint(0, canonical, 0, 0, 0));
      if fingerprint.None? {
        return;
      }
      transfers := LiveTransfers(transfers, now);
      staged := FindOperation(m, kind, account, destination, now);
      if staged.Some? {
        return;
      }
      if |Active(transfers)| >= MAX_UNRESOLVED_TRANSFERS {
        RollBack(saved);
        return;
      }
      hide SameOperation, LiveTransfers;
      transfers := transfers[nextTransfer := NewTransfer(m, kind, account, destination, fingerprint.value, now)];
      staged, created := Some(nextTransfer), true;
      nextTransfer := nextTransfer + 1;
    }

    method ClaimMessageTransferDispatchForOwner(t: int, owner: seq<Byte>, now: int) returns (claimed: bool, attempt: int)
      modifies this`transfers
      ensures View(now) == Claim(old(View(now)), t, owner, now)
      ensures claimed <==> ValidOwner(owner) && Claimable(old(View(now)), t)
      ensures claimed ==> t in transfers && attempt == transfers[t].attempt
    {
      var name := HeaderText.TrimSpace(owner);
      claimed, attempt := false, 0;
      if name == [] || |name| > 128 {
        return;
      }
      if t in transfers && transfers[t].state == Pending && transfers[t].dispatchedAt == 0 {
        transfers := transfers[t := transfers[t].(dispatchedAt := now, owner := name, attempt := transfers[t].attempt + 1,
                                                  finishedAt := 0)];
        claimed, attempt := true, transfers[t].attempt;
      }
    }

    method FinishMessageTransferDispatch(t: int, owner: seq<Byte>, attempt: int, now: int) returns (found: bool)
      modifies this`transfers
      ensures View(now) == Finish(old(View(now)), t, owner, attempt, now)
      ensures found <==> HeaderText.TrimSpace(owner) != [] && attempt > 0 && Holds(old(View(now)), t, owner, attempt)
    {
      found := HeaderText.TrimSpace(owner) != [] && attempt > 0 && Holds(View(now), t, owner, attempt);
      if found {
        transfers := transfers[t := transfers[t].(finishedAt := now)];
      }
    }

    method ReopenMessageTransferDispatchAfterProof(
      t: int, owner: seq<Byte>, attempt: int, currentOwner: seq<Byte>, now: int) returns (reopened: bool)
      modifies this`transfers
      ensures View(now) == Reopen(old(View(now)), t, owner, attempt, currentOwner)
      ensures reopened <==>
                && HeaderText.TrimSpace(currentOwner) != [] && attempt >= 0 && Holds(old(View(now)), t, owner, attempt)
                && (old(transfers)[t].finishedAt > 0 || old(transfers)[t].owner != currentOwner)
    {
      reopened := false;
      if HeaderText.TrimSpace(currentOwner) == [] || attempt < 0 || !Holds(View(now), t, owner, attempt) {
        return;
      }
      if transfers[t].finishedAt > 0 || transfers[t].owner != currentOwner {
        transfers := transfers[t := transfers[t].(dispatchedAt := 0, owner := [], finishedAt := 0)];
        reopened := true;
      }
    }

    method SetMessageTransferDestinationSnapshot(t: int, uidValidity: int, uidNext: int, now: int)
      modifies this`transfers
      ensures View(now) == Snapshot(old(View(now)), t, uidValidity, uidNext)
    {
      if uidValidity <= 0 || uidNext <= 0 {
        return;
      }
      if && t in transfers && transfers[t].kind == Copy && transfers[t].state == Pending
         && transfers[t].dispatchedAt == 0 && transfers[t].snapshotUidValidity == 0 {
        transfers := transfers[t := transfers[t].(snapshotUidValidity := uidValidity, snapshotUidNext := uidNext)];
      }
    }

    method MarkMessageTransferSucceeded(t: int, uid: int, uidValidity: int, now: int) returns (found: bool)
      modifies this`transfers
      ensures View(now) == Succeed(old(View(now)), t, uid, uidValidity, now)
      ensures found <==> uidValidity >= 0 && t in old(transfers) && old(transfers)[t].state != Failed
    {
      found := uidValidity >= 0 && t in transfers && transfers[t].state != Failed;
      if found {
        var row := transfers[t];
        var state := Succeeded;
        if row.state == Consumed {
          state := Consumed;
        }
        row := row.(state := state, completedAt := AtFirst(row.completedAt, now));
        if uid > 0 {
          row := row.(uid := uid);
        }
        if uidValidity > 0 {
          row := row.(uidValidity := uidValidity);
        }
        transfers := transfers[t := row];
      }
    }

    method TerminalizeMessageTransferWithoutArrival(t: int, now: int)
      modifies this`transfers
      ensures View(now) == Terminalize(old(View(now)), t, now)
    {
      if t !in transfers || transfers[t].mailbox !in mailboxes || mailboxes[transfers[t].mailbox].isInbox {
        return;
      }
      var row := transfers[t];
      if row.state == Succeeded {
        transfers := transfers[t := row.(state := Consumed, consumedAt := now, expiresAt := now + TRANSFER_TTL,
                                         completedAt := AtFirst(row.completedAt, now))];
      } else if row.state == Consumed {
        transfers := transfers[t := row.(completedAt := AtFirst(row.completedAt, now))];
      }
    }

    method MarkMessageTransferFailed(t: int, now: int) returns (found: bool)
      modifies this`transfers
      ensures View(now) == Fail(old(View(now)), t, now)
      ensures found <==> t in old(transfers) && old(transfers)[t].state in {Pending, Failed}
    {
      found := t in transfers && (transfers[t].state == Pending || transfers[t].state == Failed);
      if found {
        var row := transfers[t];
        var expiresAt := row.expiresAt;
        if now + TOMBSTONE_TTL < expiresAt {
          expiresAt := now + TOMBSTONE_TTL;
        }
        transfers := transfers[t := row.(state := Failed, completedAt := AtFirst(row.completedAt, now),
                                         expiresAt := expiresAt)];
      }
    }

    // ----- expunges -----

    method RecordExpungedMessageFingerprint(id: int, canonical: int, now: int) returns (recorded: bool)
      requires Valid()
      modifies this
      ensures Valid() && View(now) == Expunge(old(View(now)), id, canonical, now)
      ensures recorded <==> MayExpunge(old(View(now)), id, canonical)
    {
      if id !in messages || messages[id].mailbox !in mailboxes {
        return false;
      }
      var m, mailbox := messages[id], mailboxes[messages[id].mailbox];
      if m.uidValidity <= 0 || m.uidValidity != mailbox.uidValidity || mailbox.isAllMail {
        return true;
      }
      var moves := SourceMoves(View(now), m);
      if moves != {} {
        var first := LeastRow(moves);
        FirstIs(first, moves);
        ResolveUnknownMove(nextTransfer - first.id, now);
        return true;
      }
      var fingerprint := LoadInboxArrivalMessage(id, Fingerprint(0, canonical, 0, 0, 0));
      if fingerprint.None? {
        return false;
      }
      if !IsKnown(View(now), m) {
        tombstones := tombstones[nextTombstone :=
          Tombstone(m.account, m.mailbox, m.uid, m.uidValidity, fingerprint.value, 0, now, 0, now + TOMBSTONE_TTL)];
        nextTombstone := nextTombstone + 1;
      }
      return true;
    }

    method ResolveUnknownMove(t: int, now: int)
      requires Valid()
      modifies this`transfers
      ensures Valid() && View(now) == ResolveMove(old(View(now)), t, now)
    {
      if t in transfers && transfers[t].state == Pending {
        var row := transfers[t].(completedAt := AtFirst(transfers[t].completedAt, now));
        if row.mailbox in mailboxes && mailboxes[row.mailbox].isInbox {
          row := row.(state := Succeeded);
        } else {
          row := row.(state := Consumed, consumedAt := now, expiresAt := now + TRANSFER_TTL);
        }
        transfers := transfers[t := row];
      }
    }

    /** Deletes a message row and what the foreign keys take with it. */
    method DeleteMessage(id: int, now: int)
      requires Valid()
      modifies this
      ensures Valid() && View(now) == Delete(old(View(now)), {id})
    {
      messages := messages - {id};
      arrivals, events := arrivals - {id}, events - {id};
      transfers := map t | t in transfers :: transfers[t].(consumedMessage := Forget(transfers[t].consumedMessage, {id}));
      tombstones := map f | f in tombstones :: tombstones[f].(consumedMessage := Forget(tombstones[f].consumedMessage, {id}));
    }

    /** Records and deletes the messages in turn; not complete when one of them cannot be recorded. */
    method ExpungeMessages(stale: seq<int>, canonical: map<int, int>, now: int) returns (complete: bool)
      requires Valid()
      modifies this
      ensures Valid() && ExpungeEach(old(View(now)), stale, canonical, now) == if complete then Some(View(now)) else None
    {
      ghost var outcome := ExpungeEach(View(now), stale, canonical, now);
      hide Expunge, MayExpunge, Delete;
      for n := 0 to |stale|
        invariant Valid() && ExpungeEach(View(now), stale[n..], canonical, now) == outcome
      {
        assert stale[n..][1..] == stale[n + 1..];
        var digest := Digest(canonical, stale[n]);
        var recorded := RecordExpungedMessageFingerprint(stale[n], digest, now);
        if !recorded {
          return false;
        }
        DeleteMessage(stale[n], now);
      }
      assert stale[|stale|..] == [];
      complete := true;
    }

    method ListMissing(local: seq<int>, remote: set<int>, uidNext: int, now: int) returns (stale: seq<int>)
      requires forall i :: 0 <= i < |local| ==> local[i] in messages
      ensures stale == Missing(View(now), local, remote, uidNext)
    {
      stale := [];
      for n := 0 to |local|
        invariant stale == Missing(View(now), local[..n], remote, uidNext)
      {
        assert local[..n + 1][..n] == local[..n];
        var uid := messages[local[n]].uid;
        if uid < uidNext && uid !in remote {
          stale := stale + [local[n]];
        }
      }
      assert local[..|local|] == local;
    }

    /** The rows are given in the order in which the query lists them. */
    method DeleteMessagesMissingUIDsAndRecordExpunges(
      mailbox: int, local: seq<int>, remote: set<int>, uidValidity: int, uidNext: int, canonical: map<int, int>, now: int)
      returns (deleted: seq<int>)
      requires Valid()
      requires forall i :: 0 <= i < |local| ==>
                 local[i] in messages && messages[local[i]].mailbox == mailbox && messages[local[i]].outboxJob == 0
      requires forall id :: id in messages && messages[id].mailbox == mailbox && messages[id].outboxJob == 0 ==> id in local
      modifies this
      ensures Valid()
      ensures View(now) == ReconcileMailbox(old(View(now)), mailbox, local, remote, uidValidity, uidNext, canonical, now)
      ensures deleted == [] || deleted == Missing(old(View(now)), local, remote, uidNext)
      ensures deleted == [] ==> View(now) == old(View(now))
    {
      if uidValidity <= 0 || uidNext <= 0 || mailbox !in mailboxes || mailboxes[mailbox].uidValidity != uidValidity {
        return [];
      }
      var saved := View(now);
      deleted := ListMissing(local, remote, uidNext, now);
      hide Missing;
      var complete := ExpungeMessages(deleted, canonical, now);
      if !complete {
        RollBack(saved);
        deleted := [];
      }
    }
  }

  predicate SameGrave(f: Tombstone, g: Tombstone) {
    f.account == g.account && f.mailbox == g.mailbox && f.uid == g.uid && f.uidValidity == g.uidValidity
  }
}
