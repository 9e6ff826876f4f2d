/** The life of a transfer: what may follow what, one active move per source, and a bound on the unresolved. */
module LedgerTransfers {

  import opened Candidates
  import opened LedgerState
  import opened LedgerSteps
  import LedgerTokens
  import opened LedgerVerdict

  predicate SameJourney(a: Transfer, b: Transfer) {
    && b.kind == a.kind && b.fingerprint == a.fingerprint && b.account == a.account && b.mailbox == a.mailbox
    && b.sourceAccount == a.sourceAccount && b.sourceUid == a.sourceUid && b.sourceUidValidity == a.sourceUidValidity
    && (b.sourceMailbox == a.sourceMailbox || b.sourceMailbox == 0)
  }

  /** A row is claimed with a trimmed owner and a numbered attempt, or not claimed at all. */
  predicate WellClaimed(row: Transfer) {
    && 0 <= row.attempt && 0 <= row.dispatchedAt
    && (row.dispatchedAt == 0 ==> row.owner == [] && row.finishedAt == 0)
    && (row.dispatchedAt > 0 ==>
          row.attempt > 0 && row.owner != [] && HeaderText.TrimSpace(row.owner) == row.owner)
  }

  /** How one row may change: what it is about stays, its state only moves forward, its attempts only grow and its
      snapshot is written once. */
  predicate Legal(a: Transfer, b: Transfer) {
    && SameJourney(a, b)
    && (a.state == Failed ==> b.state == Failed)
    && (a.state == Consumed ==> b.state == Consumed)
    && (a.state == Succeeded ==> b.state == Succeeded || b.state == Consumed)
    && a.attempt <= b.attempt && (WellClaimed(a) ==> WellClaimed(b))
    && (a.snapshotUidValidity != 0 ==>
          b.snapshotUidValidity == a.snapshotUidValidity && b.snapshotUidNext == a.snapshotUidNext)
  }

  ghost predicate RowsAdvance(s: Ledger, t: Ledger) {
    && s.clock <= t.clock && t.nextTransfer == s.nextTransfer && t.transfers.Keys <= s.transfers.Keys
    && forall x :: x in t.transfers ==> Legal(s.transfers[x], t.transfers[x])
  }

  /** Nothing happens to the row's claim. */
  predicate KeepsClaim(a: Transfer, b: Transfer) {
    b.dispatchedAt == a.dispatchedAt && b.owner == a.owner && b.attempt == a.attempt && b.finishedAt == a.finishedAt
  }

  /** How rows change in every step but claiming, finishing and reopening. */
  ghost predicate LegalRows(s: Ledger, t: Ledger) {
    RowsAdvance(s, t) && forall x :: x in t.transfers ==> KeepsClaim(s.transfers[x], t.transfers[x])
  }

  lemma LegalAdvances(s: Ledger, t: Ledger)
    requires LegalRows(s, t)
    ensures RowsAdvance(s, t)
  {
  }

  lemma LegalTwice(s: Ledger, t: Ledger, u: Ledger)
    requires LegalRows(s, t) && LegalRows(t, u)
    ensures LegalRows(s, u)
  {
    forall x | x in u.transfers
      ensures x in s.transfers && Legal(s.transfers[x], u.transfers[x]) && KeepsClaim(s.transfers[x], u.transfers[x])
    {
      assert x in t.transfers.Keys;
    }
  }

  lemma SameTransfersAreLegal(s: Ledger, t: Ledger)
    requires s.clock <= t.clock && t.nextTransfer == s.nextTransfer && t.transfers == s.transfers
    ensures LegalRows(s, t)
  {
  }

  lemma UpdateIsLegal(s: Ledger, x: int, row: Transfer)
    requires x in s.transfers && Legal(s.transfers[x], row)
    ensures RowsAdvance(s, Update(s, x, row))
    ensures KeepsClaim(s.transfers[x], row) ==> LegalRows(s, Update(s, x, row))
  {
  }

  lemma ConsumeIsLegal(s: Ledger, v: Verdict, m: Message, id: int, now: int)
    requires Backed(s, v, m) && 0 !in s.transfers
    ensures LegalRows(s, Consume(s, v, id, now))
  {
  }

  lemma SettleIsLegal(s: Ledger, v: Verdict, m: Message, id: int, a: Arrival, now: int)
    requires Backed(s, v, m) && 0 !in s.transfers
    ensures LegalRows(s, Settle(s, v, id, a, now))
  {
    ConsumeIsLegal(s, v, m, id, now);
    hide Backed;
  }

  lemma PruneIsLegal(s: Ledger, now: int)
    ensures LegalRows(s, Prune(s, now))
    ensures Prune(s, now).messages == s.messages
  {
  }

  lemma HoldIsLegal(s: Ledger, id: int, run: int, supplied: Fingerprint, now: int)
    requires 0 !in s.transfers
    ensures LegalRows(s, Hold(s, id, run, supplied, now))
  {
    hide Classify, Prune, Settle, LegalRows, Resolve;
    SameTransfersAreLegal(s, s);
    if id in s.messages && Resolve(s.messages[id], supplied).Some? {
      var fingerprint := Resolve(s.messages[id], supplied).value;
      var stamped := Stamp(s, id, fingerprint);
      SameTransfersAreLegal(s, stamped);
      PruneIsLegal(stamped, now);
      LegalTwice(s, stamped, Prune(stamped, now));
      var pruned := Prune(stamped, now);
      NoZero(s, pruned);
      if id in pruned.arrivals && pruned.arrivals[id].outcome != Undecided {
        SameTransfersAreLegal(pruned, Reheld(pruned, id, run, now));
        LegalTwice(s, pruned, Reheld(pruned, id, run, now));
      } else {
        HeldOpenIsLegal(pruned, id, run, fingerprint, now);
        LegalTwice(s, pruned, HeldOpen(pruned, id, run, fingerprint, now));
      }
    }
  }

  lemma NoZero(s: Ledger, t: Ledger)
    requires LegalRows(s, t) && 0 !in s.transfers
    ensures 0 !in t.transfers
  {
    assert 0 in t.transfers.Keys ==> 0 in s.transfers.Keys;
  }

  lemma HeldOpenIsLegal(s: Ledger, id: int, run: int, fingerprint: Fingerprint, now: int)
    requires 0 !in s.transfers && id in s.messages
    ensures LegalRows(s, HeldOpen(s, id, run, fingerprint, now))
  {
    var m := s.messages[id];
    VerdictIsBacked(s, id, m, fingerprint, now);
    var v := Classify(s, id, m, fingerprint, now);
    hide Classify, Settle, Backed, LegalRows;
    var a := if id in s.arrivals then Decided(s.arrivals[id].(run := EitherRun(run, s.arrivals[id].run)), v, now)
             else NewArrival(s, m, run, fingerprint, v, now);
    SettleIsLegal(s, v, m, id, a, now);
  }

  lemma FinalizeOneIsLegal(s: Ledger, id: int, account: int, now: int)
    requires 0 !in s.transfers
    ensures FinalizeOne(s, id, account, now).Some? ==> LegalRows(s, FinalizeOne(s, id, account, now).value)
  {
    SameTransfersAreLegal(s, s);
    if id in s.arrivals && id in s.messages && Resolve(s.messages[id], s.arrivals[id].fingerprint).Some? {
      var a := s.arrivals[id];
      var fingerprint := Resolve(s.messages[id], a.fingerprint).value;
      var stamped := Stamp(s, id, fingerprint);
      SameTransfersAreLegal(s, stamped);
      assert FinalizeOne(s, id, account, now).value == Conclude(stamped, id, fingerprint, account, now);
      hide FinalizeOne, Conclude, LegalRows, Stamp, Resolve;
      ConcludeIsLegal(stamped, id, fingerprint, account, now);
      LegalTwice(s, stamped, Conclude(stamped, id, fingerprint, account, now));
    }
  }

  lemma ConcludeIsLegal(s: Ledger, id: int, fingerprint: Fingerprint, account: int, now: int)
    requires 0 !in s.transfers && id in s.arrivals && id in s.messages
    ensures LegalRows(s, Conclude(s, id, fingerprint, account, now))
  {
    var a, m := s.arrivals[id], s.messages[id];
    VerdictIsBacked(s, id, m, fingerprint, now);
    var v := Classify(s, id, m, fingerprint, now);
    DeliveringMovesNothing(s, id, a, account, now);
    hide Classify, Settle, Backed, LegalRows, Deliver, Announce;
    SettleIsLegal(s, v, m, id, Decided(a, v, now), now);
    ConsumeIsLegal(s, v, m, id, now);
    SameTransfersAreLegal(s, Deliver(s, id, a, account, now));
    SameTransfersAreLegal(s, Announce(s, id, a.run, account, now));
  }

  lemma DeliveringMovesNothing(s: Ledger, id: int, a: Arrival, account: int, now: int)
    ensures var t := Deliver(s, id, a, account, now);
            t.transfers == s.transfers && t.nextTransfer == s.nextTransfer && t.clock == s.clock
    ensures var t := Announce(s, id, a.run, account, now);
            t.transfers == s.transfers && t.nextTransfer == s.nextTransfer && t.clock == s.clock
  {
  }

  lemma {:induction false} FinalizeEachIsLegal(s: Ledger, due: seq<Candidate>, account: int, now: int)
    requires 0 !in s.transfers
    ensures FinalizeEach(s, due, account, now).Some? ==> LegalRows(s, FinalizeEach(s, due, account, now).value)
    decreases |due|
  {
    SameTransfersAreLegal(s, s);
    hide FinalizeOne, LegalRows;
    if due != [] {
      if HasArrival(s, due[0].id) {
        FinalizeOneIsLegal(s, MessageOf(s, due[0].id), account, now);
        var next := FinalizeOne(s, MessageOf(s, due[0].id), account, now);
        if next.Some? {
          NoZero(s, next.value);
          FinalizeEachIsLegal(next.value, due[1..], account, now);
          if FinalizeEach(s, due, account, now).Some? {
            LegalTwice(s, next.value, FinalizeEach(s, due, account, now).value);
          }
        }
      } else {
        FinalizeEachIsLegal(s, due[1..], account, now);
      }
    }
  }

  lemma ArrivalStepIsLegal(s: Ledger, step: ArrivalStep, now: int)
    requires 0 !in s.transfers
    ensures LegalRows(s, DoArrival(s, step, now))
  {
    hide LegalRows, Hold, FinalizeEach, DueBatch, Prune, MayRestore;
    SameTransfersAreLegal(s, s);
    match step
    case Held(id, run, supplied) => HoldIsLegal(s, id, run, supplied, now);
    case Finalized(account) =>
      var pruned := Prune(s, now);
      PruneIsLegal(s, now);
      NoZero(s, pruned);
      FinalizeEachIsLegal(pruned, DueBatch(pruned, account, now), account, now);
      if FinalizeEach(pruned, DueBatch(pruned, account, now), account, now).Some? {
        LegalTwice(s, pruned, FinalizeDue(s, account, now));
      }
    case Deferred(account, ids, retryAt) => SameTransfersAreLegal(s, Defer(s, account, ids, retryAt));
    case Restored(id, arrival) => SameTransfersAreLegal(s, Record(s, id, arrival));
  }

  lemma ExpungeIsLegal(s: Ledger, id: int, canonical: int, now: int)
    ensures LegalRows(s, Expunge(s, id, canonical, now))
  {
    hide LegalRows, ResolveMove, Bury, First, SourceMoves, Resolve;
    SameTransfersAreLegal(s, s);
    if id in s.messages && s.messages[id].mailbox in s.mailboxes {
      var m := s.messages[id];
      if SourceMoves(s, m) != {} {
        ResolveMoveIsLegal(s, s.nextTransfer - First(SourceMoves(s, m)).id, now);
      } else if Resolve(m, Fingerprint(0, canonical, 0, 0, 0)).Some? {
        BuryIsLegal(s, id, m, Resolve(m, Fingerprint(0, canonical, 0, 0, 0)).value, now);
      }
    }
  }

  lemma ResolveMoveIsLegal(s: Ledger, x: int, now: int)
    ensures LegalRows(s, ResolveMove(s, x, now))
  {
    if x in s.transfers && s.transfers[x].state == Pending {
      UpdateIsLegal(s, x, ResolveMove(s, x, now).transfers[x]);
    }
  }

  lemma BuryIsLegal(s: Ledger, id: int, m: Message, fingerprint: Fingerprint, now: int)
    requires id in s.messages
    ensures LegalRows(s, Bury(Stamp(s, id, fingerprint), m, fingerprint, now))
  {
    hide IsKnown;
    SameTransfersAreLegal(s, Bury(Stamp(s, id, fingerprint), m, fingerprint, now));
  }

  lemma RowStepIsLegal(s: Ledger, step: TransferStep, now: int)
    requires !step.Staged? && !step.Expunged? && now > 0
    ensures RowsAdvance(s, DoTransfer(s, step, now))
  {
    var t := DoTransfer(s, step, now);
    if t == s {
      SameTransfersAreLegal(s, s);
    } else {
      if step.Claimed? {
        HeaderText.TrimIsTrimmed(step.claimant);
      }
      hide HeaderText.TrimSpace;
      UpdateIsLegal(s, step.t, t.transfers[step.t]);
    }
  }

  lemma DeleteIsLegal(s: Ledger, gone: set<int>)
    ensures LegalRows(s, Delete(s, gone))
  {
  }

  lemma DropIsLegal(s: Ledger, mailbox: int)
    ensures LegalRows(s, Drop(s, mailbox))
  {
    var gone := set id | id in s.messages && s.messages[id].mailbox == mailbox;
    DeleteIsLegal(s, gone);
    hide Delete;
    assert LegalRows(Delete(s, gone), Drop(s, mailbox));
    LegalTwice(s, Delete(s, gone), Drop(s, mailbox));
  }

  lemma WorldStepIsLegal(s: Ledger, step: WorldStep, now: int)
    ensures LegalRows(s, DoWorld(s, step, now))
  {
    hide LegalRows, Delete, Drop, Report;
    match step
    case Deleted(id) => DeleteIsLegal(s, {id});
    case Dropped(mailbox) => DropIsLegal(s, mailbox);
    case _ =>
      LedgerTokens.WorldMovesNoToken(s, step, now);
      SameTransfersAreLegal(s, DoWorld(s, step, now));
  }

  // ----- staging -----

  /** Rows that stand for the same remote operation on the same source. */
  predicate Competes(a: Transfer, b: Transfer) {
    && a.sourceMailbox != 0 && a.sourceMailbox == b.sourceMailbox && a.sourceAccount == b.sourceAccount
    && a.sourceUid == b.sourceUid && a.sourceUidValidity == b.sourceUidValidity && a.kind == b.kind
    && (a.kind == Move || (a.account == b.account && a.mailbox == b.mailbox))
  }

  /** One unresolved move per source, one unresolved copy per source and destination, and not too many of either. */
  ghost predicate Exclusive(s: Ledger) {
    && (forall x, y :: x in s.transfers && y in s.transfers && x != y
                       && Unresolved(s.transfers[x]) && Unresolved(s.transfers[y])
          ==> !Competes(s.transfers[x], s.transfers[y]))
    && |Active(s.transfers)| <= MAX_UNRESOLVED_TRANSFERS
  }

  lemma Fewer<T>(a: set<T>, b: set<T>)
    requires a <= b
    ensures |a| <= |b|
  {
    assert b == a + (b - a);
  }

  lemma LegalStaysExclusive(s: Ledger, t: Ledger)
    requires Exclusive(s) && RowsAdvance(s, t)
    ensures Exclusive(t)
  {
    forall x | x in t.transfers ensures x in s.transfers && Legal(s.transfers[x], t.transfers[x]) {
      assert x in t.transfers.Keys;
    }
    forall x | x in Active(t.transfers) ensures x in Active(s.transfers) {
      assert x in t.transfers && Unresolved(t.transfers[x]);
    }
    Fewer(Active(t.transfers), Active(s.transfers));
  }

  lemma AddedStaysExclusive(s: Ledger, row: Transfer)
    requires Exclusive(s) && |Active(s.transfers)| < MAX_UNRESOLVED_TRANSFERS && s.nextTransfer !in s.transfers
    requires forall x :: x in s.transfers && Unresolved(s.transfers[x]) ==>
               !Competes(s.transfers[x], row) && !Competes(row, s.transfers[x])
    ensures Exclusive(s.(transfers := s.transfers[s.nextTransfer := row], nextTransfer := s.nextTransfer + 1))
  {
    Fewer(Active(s.transfers[s.nextTransfer := row]), Active(s.transfers) + {s.nextTransfer});
  }

  lemma SweepIsLegal(s: Ledger, source: int, fingerprint: Fingerprint, now: int)
    requires source in s.messages
    ensures LegalRows(s, Stamp(s, source, fingerprint).(transfers := LiveTransfers(s.transfers, now)))
  {
  }

  /** Staging finds the operation already under way, refuses, or adds one row under the next id. */
  lemma StageStaysExclusive(s: Ledger, source: int, destination: int, kind: Kind, canonical: int, now: int)
    requires Exclusive(s) && s.nextTransfer !in s.transfers
    ensures Exclusive(Stage(s, source, destination, kind, canonical, now))
  {
    hide Exclusive, LiveTransfers, Resolve;
    if MayStage(s, source, destination, kind)
       && Resolve(s.messages[source], Fingerprint(0, canonical, 0, 0, 0)).Some? {
      var fingerprint := Resolve(s.messages[source], Fingerprint(0, canonical, 0, 0, 0)).value;
      var m, account := s.messages[source], s.mailboxes[destination].account;
      var live := Stamp(s, source, fingerprint).(transfers := LiveTransfers(s.transfers, now));
      SweepIsLegal(s, source, fingerprint, now);
      LegalStaysExclusive(s, live);
      assert s.nextTransfer !in live.transfers by {
        assert live.transfers.Keys <= s.transfers.Keys;
      }
      var row := NewTransfer(m, kind, account, destination, fingerprint, now);
      if && !(exists t :: t in live.transfers && SameOperation(live.transfers[t], m, kind, account, destination, now))
         && |Active(live.transfers)| < MAX_UNRESOLVED_TRANSFERS {
        forall x | x in live.transfers && Unresolved(live.transfers[x])
          ensures !Competes(live.transfers[x], row) && !Competes(row, live.transfers[x]) {
          assert !SameOperation(live.transfers[x], m, kind, account, destination, now);
        }
        AddedStaysExclusive(live, row);
      }
    }
  }

  // ----- any step -----

  ghost predicate Numbered(s: Ledger) {
    && s.clock > 0 && s.nextTransfer > 0
    && forall x :: x in s.transfers ==> 0 < x < s.nextTransfer && WellClaimed(s.transfers[x])
  }

  /** From one state to a later one: old rows change legally or go, and what is new has a new id. */
  ghost predicate Evolves(s: Ledger, t: Ledger) {
    && s.nextTransfer <= t.nextTransfer
    && forall x :: x in t.transfers && x < s.nextTransfer ==> x in s.transfers && Legal(s.transfers[x], t.transfers[x])
  }

  lemma LegalEvolves(s: Ledger, t: Ledger)
    requires RowsAdvance(s, t) && Numbered(s)
    ensures Evolves(s, t) && Numbered(t)
  {
    forall x | x in t.transfers ensures x in s.transfers && Legal(s.transfers[x], t.transfers[x]) {
      assert x in t.transfers.Keys;
    }
  }

  lemma StageEvolves(s: Ledger, source: int, destination: int, kind: Kind, canonical: int, now: int)
    requires Numbered(s)
    ensures Evolves(s, Stage(s, source, destination, kind, canonical, now))
    ensures Numbered(Stage(s, source, destination, kind, canonical, now))
  {
    SameTransfersAreLegal(s, s);
    LegalEvolves(s, s);
    hide SameOperation, Active, Resolve, Evolves, Numbered, LiveTransfers;
    if MayStage(s, source, destination, kind)
       && Resolve(s.messages[source], Fingerprint(0, canonical, 0, 0, 0)).Some? {
      var fingerprint := Resolve(s.messages[source], Fingerprint(0, canonical, 0, 0, 0)).value;
      var live := Stamp(s, source, fingerprint).(transfers := LiveTransfers(s.transfers, now));
      SweepIsLegal(s, source, fingerprint, now);
      LegalEvolves(s, live);
      var row := NewTransfer(s.messages[source], kind, s.mailboxes[destination].account, destination, fingerprint, now);
      NewRowEvolves(s, live, row);
    }
  }

  lemma NewRowEvolves(s: Ledger, live: Ledger, row: Transfer)
    requires Evolves(s, live) && Numbered(live) && live.nextTransfer == s.nextTransfer && WellClaimed(row)
    ensures var t := live.(transfers := live.transfers[s.nextTransfer := row], nextTransfer := s.nextTransfer + 1);
            Evolves(s, t) && Numbered(t)
  {
    hide WellClaimed, Legal;
  }

  lemma StepEvolves(s: Ledger, step: Step, now: int)
    requires Numbered(s) && Exclusive(s)
    ensures var t := Apply(s, step, now); Evolves(s, t) && Numbered(t) && Exclusive(t)
  {
    SameTransfersAreLegal(s, s);
    LegalEvolves(s, s);
    if now >= s.clock {
      var c := s.(clock := now);
      SameTransfersAreLegal(s, c);
      LegalStaysExclusive(s, c);
      LegalEvolves(s, c);
      assert 0 !in c.transfers;
      hide LegalRows, RowsAdvance, Evolves, Numbered, Exclusive, DoArrival, DoWorld;
      var t := Apply(s, step, now);
      match step {
        case Arriving(arriving) =>
          ArrivalStepIsLegal(c, arriving, now);
          LegalAdvances(c, t);
          LegalStep(c, t);
        case Turning(turning) =>
          WorldStepIsLegal(c, turning, now);
          LegalAdvances(c, t);
          LegalStep(c, t);
        case Transferring(transferring) => TransferStepEvolves(c, transferring, now);
      }
      EvolvesFromClock(s, c, t);
    }
  }

  lemma LegalStep(s: Ledger, t: Ledger)
    requires Numbered(s) && Exclusive(s) && RowsAdvance(s, t)
    ensures Evolves(s, t) && Numbered(t) && Exclusive(t)
  {
    hide Exclusive, Numbered, Evolves, RowsAdvance;
    LegalEvolves(s, t);
    LegalStaysExclusive(s, t);
  }

  lemma TransferStepEvolves(s: Ledger, step: TransferStep, now: int)
    requires Numbered(s) && Exclusive(s) && now > 0
    ensures var t := DoTransfer(s, step, now); Evolves(s, t) && Numbered(t) && Exclusive(t)
  {
    assert s.nextTransfer !in s.transfers;
    hide Exclusive, Numbered, Evolves, LegalRows, RowsAdvance, Stage, Expunge;
    match step
    case Staged(source, destination, kind, canonical) =>
      StageEvolves(s, source, destination, kind, canonical, now);
      StageStaysExclusive(s, source, destination, kind, canonical, now);
    case Expunged(id, canonical) =>
      ExpungeIsLegal(s, id, canonical, now);
      LegalAdvances(s, Expunge(s, id, canonical, now));
      LegalStep(s, Expunge(s, id, canonical, now));
    case _ =>
      RowStepIsLegal(s, step, now);
      hide DoTransfer;
      LegalStep(s, DoTransfer(s, step, now));
  }

  lemma EvolvesFromClock(s: Ledger, c: Ledger, t: Ledger)
    requires c == s.(clock := c.clock) && Evolves(c, t)
    ensures Evolves(s, t)
  {
  }

  // ----- whole runs -----

  lemma {:induction false} RunIsExclusive(steps: seq<Timed>)
    ensures Numbered(Execute(Empty(), steps)) && Exclusive(Execute(Empty(), steps))
  {
    if steps != [] {
      RunIsExclusive(steps[..|steps| - 1]);
      var last := steps[|steps| - 1];
      StepEvolves(Execute(Empty(), steps[..|steps| - 1]), last.step, last.at);
    }
  }

  /** Over any run: a transfer that is still there is the same operation; failed and consumed are for good, nothing
      becomes pending again, attempts never fall, and a snapshot once taken is never replaced. */
  lemma {:induction false} TransfersEvolve(s: Ledger, steps: seq<Timed>)
    requires Numbered(s) && Exclusive(s)
    ensures var t := Execute(s, steps); Evolves(s, t) && Numbered(t) && Exclusive(t)
  {
    if steps == [] {
      SameTransfersAreLegal(s, s);
      LegalEvolves(s, s);
    } else {
      var before, last := Execute(s, steps[..|steps| - 1]), steps[|steps| - 1];
      TransfersEvolve(s, steps[..|steps| - 1]);
      StepEvolves(before, last.step, last.at);
      EvolvesTwice(s, before, Execute(s, steps));
    }
  }

  lemma EvolvesTwice(s: Ledger, t: Ledger, u: Ledger)
    requires Evolves(s, t) && Evolves(t, u)
    ensures Evolves(s, u)
  {
  }
}
