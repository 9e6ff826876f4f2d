/** Runs that anybody's mail can take, to states in which the ledger does less than one might expect of it. */
module LedgerRuns {

  import opened Bytes
  import opened Candidates
  import opened LedgerState
  import opened LedgerSteps

  // ----- one account, an Inbox and a folder, and a message in the folder that is being moved to the Inbox -----

  const MAILBOXES: map<int, Mailbox> := map[1 := Mailbox(1, true, false, 7), 2 := Mailbox(1, false, false, 8)]

  const UNKNOWN := Fingerprint(0, 0, 0, 0, 0)
  const CONTENT := Fingerprint(1, 0, 0, 0, 0)

  const SOURCE := Message(1, 2, 5, 8, 0, 1, 0, 0, 0, 0, 0)
  const COPY := Message(1, 1, 9, 7, 0, 1, 0, 0, 0, 0, 0)

  function Mail(clock: int, messages: map<int, Message>, transfers: map<int, Transfer>, nextTransfer: int,
                arrivals: map<int, Arrival>, nextArrival: int, events: map<int, int>): Ledger {
    Ledger(clock, MAILBOXES, messages, transfers, nextTransfer, map[], 1, arrivals, nextArrival, events, map[], map[])
  }

  const STAGED := NewTransfer(SOURCE, Move, 1, 1, CONTENT, 1)

  function StagedMail(): Ledger {
    Mail(1, map[10 := SOURCE], map[1 := STAGED], 2, map[], 1, map[])
  }

  const STAGING := [Timed(Turning(MailboxSet(1, Mailbox(1, true, false, 7))), 1),
                    Timed(Turning(MailboxSet(2, Mailbox(1, false, false, 8))), 1),
                    Timed(Turning(Stored(10, SOURCE)), 1),
                    Timed(Transferring(Staged(10, 1, Move, 0)), 1)]

  lemma WithMailboxes()
    ensures Apply(Apply(Empty(), STAGING[0].step, 1), STAGING[1].step, 1) == Mail(1, map[], map[], 1, map[], 1, map[])
  {
    var s := Apply(Empty(), STAGING[0].step, 1);
    assert s.mailboxes == map[1 := Mailbox(1, true, false, 7)];
    assert s.mailboxes[2 := Mailbox(1, false, false, 8)] == MAILBOXES;
  }

  lemma WithSource()
    ensures Apply(Mail(1, map[], map[], 1, map[], 1, map[]), Turning(Stored(10, SOURCE)), 1)
         == Mail(1, map[10 := SOURCE], map[], 1, map[], 1, map[])
  {
  }

  lemma WithTransfer()
    ensures Apply(Mail(1, map[10 := SOURCE], map[], 1, map[], 1, map[]), Transferring(Staged(10, 1, Move, 0)), 1) == StagedMail()
  {
    var s := Mail(1, map[10 := SOURCE], map[], 1, map[], 1, map[]);
    assert Resolve(SOURCE, UNKNOWN) == Some(CONTENT) && Stamped(SOURCE, CONTENT) == SOURCE;
    assert Stamp(s, 10, CONTENT).messages == map[10 := SOURCE];
    assert LiveTransfers(map[], 1) == map[] && Active(map[]) == {};
  }

  lemma Last(steps: seq<Timed>, n: nat)
    requires 0 < n <= |steps|
    ensures Execute(Empty(), steps[..n]) == Apply(Execute(Empty(), steps[..n - 1]), steps[n - 1].step, steps[n - 1].at)
    ensures Execute(Empty(), steps[..0]) == Empty()
  {
    hide Apply;
    assert steps[..n][..n - 1] == steps[..n - 1];
  }

  lemma StagingLeadsThere()
    ensures Execute(Empty(), STAGING) == StagedMail()
  {
    hide Apply, Mail, StagedMail;
    WithMailboxes();
    WithSource();
    WithTransfer();
    Last(STAGING, 1);
    Last(STAGING, 2);
    Last(STAGING, 3);
    Last(STAGING, 4);
    assert STAGING[..4] == STAGING;
  }

  lemma OneMore(steps: seq<Timed>, last: Timed)
    ensures Execute(Empty(), steps + [last]) == Apply(Execute(Empty(), steps), last.step, last.at)
  {
    hide Apply;
    assert (steps + [last])[..|steps|] == steps;
  }

  // ----- a live claim that its owner reopens -----

  /** A name with a space in front, the way it was given; claims store it without. */
  const SPACED: seq<Byte> := [SPACE, 97]

  const CLAIMED := STAGED.(dispatchedAt := 1, owner := [97], attempt := 1)

  function ClaimedMail(): Ledger {
    Mail(1, map[10 := SOURCE], map[1 := CLAIMED], 2, map[], 1, map[])
  }

  lemma SpacedIsTrimmed()
    ensures HeaderText.TrimSpace(SPACED) == [97] && HeaderText.TrimSpace([97]) == [97]
  {
    HeaderText.TokenIsTrimmed([97]);
    assert [SPACE] + [97] == SPACED;
  }

  lemma ClaimingLeadsThere()
    ensures Apply(StagedMail(), Transferring(Claimed(1, SPACED)), 1) == ClaimedMail()
  {
    SpacedIsTrimmed();
    hide HeaderText.TrimSpace;
    assert StagedMail().transfers[1 := CLAIMED] == map[1 := CLAIMED];
  }

  /** A process claims a transfer under that name and, while the claim runs, reopens it under the same name: the row
      may be claimed again although the first command may still be on its way. */
  lemma LiveClaimIsReopened()
    ensures var steps := STAGING + [Timed(Transferring(Claimed(1, SPACED)), 1)];
            var s := Execute(Empty(), steps);
            var t := Execute(Empty(), steps + [Timed(Transferring(Reopened(1, [97], 1, SPACED)), 1)]);
            && ValidOwner(SPACED) && Holds(s, 1, [97], 1) && s.transfers[1].finishedAt == 0
            && Claimable(t, 1)
  {
    hide *;
    StagingLeadsThere();
    ClaimingLeadsThere();
    OneMore(STAGING, Timed(Transferring(Claimed(1, SPACED)), 1));
    OneMore(STAGING + [Timed(Transferring(Claimed(1, SPACED)), 1)], Timed(Transferring(Reopened(1, [97], 1, SPACED)), 1));
    ReopeningFreesTheRow();
  }

  lemma ReopeningFreesTheRow()
    ensures ValidOwner(SPACED) && Holds(ClaimedMail(), 1, [97], 1) && ClaimedMail().transfers[1].finishedAt == 0
    ensures Claimable(Apply(ClaimedMail(), Transferring(Reopened(1, [97], 1, SPACED)), 1), 1)
  {
    SpacedIsTrimmed();
    hide HeaderText.TrimSpace;
  }

  // ----- a suppressed message that is announced after all -----

  const SUCCEEDED := CLAIMED.(state := Succeeded, completedAt := 1)

  function ConfirmedMail(): Ledger {
    Mail(1, map[10 := SOURCE], map[1 := SUCCEEDED], 2, map[], 1, map[])
  }

  lemma ConfirmingLeadsThere()
    ensures Apply(ClaimedMail(), Transferring(Confirmed(1, 0, 0)), 1) == ConfirmedMail()
  {
    assert ClaimedMail().transfers[1 := SUCCEEDED] == map[1 := SUCCEEDED];
  }

  const BOTH: map<int, Message> := map[10 := SOURCE, 11 := COPY]

  lemma CopyArrives()
    ensures Apply(ConfirmedMail(), Turning(Stored(11, COPY)), 1)
         == Mail(1, BOTH, map[1 := SUCCEEDED], 2, map[], 1, map[])
  {
    assert map[10 := SOURCE][11 := COPY] == BOTH;
  }

  lemma CopyIsKnown(s: Ledger)
    requires s.messages == BOTH
    ensures Resolve(COPY, UNKNOWN) == Some(CONTENT) && Resolve(COPY, CONTENT) == Some(CONTENT)
    ensures Stamp(s, 11, CONTENT) == s
  {
    assert Stamped(COPY, CONTENT) == COPY;
    assert BOTH[11 := COPY] == BOTH;
  }

  lemma SoleTransferMatches(s: Ledger)
    requires s.transfers == map[1 := SUCCEEDED] && s.tombstones == map[]
    ensures Classify(s, 11, COPY, CONTENT, 1) == Verdict(LocalMove, 1, 0)
  {
    var rows, own := TransferRows(s, COPY, CONTENT), Candidate(EXACT, 1);
    assert ExplainsArrival(SUCCEEDED, COPY, CONTENT) && TransferStrength(SUCCEEDED, COPY, CONTENT) == EXACT;
    assert 1 in s.transfers && s.transfers[1] == SUCCEEDED;
    assert own in rows;
    forall c | c in rows ensures c == own {
    }
    assert rows == {own};
    FirstIs(own, rows);
    FirstTwo(rows);
    assert MatchTransfer(s, COPY, CONTENT) == 1;
    assert SourceRows(s, SUCCEEDED, COPY, CONTENT, 1) == {};
  }

  const CONSUMED := UseTransfer(SUCCEEDED, 11, 1)
  const SUPPRESSED := Arrival(1, 1, 1, 0, LocalMove, CONTENT, 1, 0, 1, 1, 1)

  function SuppressedMail(): Ledger {
    Mail(1, BOTH, map[1 := CONSUMED], 2, map[11 := SUPPRESSED], 2, map[])
  }

  lemma NothingToPrune(s: Ledger)
    requires s.transfers == map[1 := SUCCEEDED] && s.tombstones == map[] && s.arrivals == map[]
    ensures Prune(s, 1) == s
  {
    assert LiveTransfers(s.transfers, 1) == s.transfers;
  }

  /** The arrival is recognised as the move and uses up its receipt. */
  lemma CopyIsSuppressed()
    ensures Apply(Mail(1, BOTH, map[1 := SUCCEEDED], 2, map[], 1, map[]), Arriving(Held(11, 0, UNKNOWN)), 1) == SuppressedMail()
  {
    var s := Mail(1, BOTH, map[1 := SUCCEEDED], 2, map[], 1, map[]);
    CopyIsKnown(s);
    NothingToPrune(s);
    SoleTransferMatches(s);
    hide Classify, Prune, Resolve, Stamp;
    assert NewArrival(s, COPY, 0, CONTENT, Verdict(LocalMove, 1, 0), 1) == SUPPRESSED;
    assert s.transfers[1 := CONSUMED] == map[1 := CONSUMED];
    assert HeldOpen(s, 11, 0, CONTENT, 1) == SuppressedMail();
    assert s.(clock := 1) == s;
  }

  const A_WEEK_LATER := 1 + FINALIZED_RETENTION

  lemma AWeekLaterAllIsPruned()
    ensures Prune(SuppressedMail().(clock := A_WEEK_LATER), A_WEEK_LATER)
         == Mail(A_WEEK_LATER, BOTH, map[], 2, map[], 2, map[])
  {
    var s := SuppressedMail().(clock := A_WEEK_LATER);
    assert Spent(CONSUMED, A_WEEK_LATER) && Outlived(SUPPRESSED, A_WEEK_LATER);
    assert LiveTransfers(s.transfers, A_WEEK_LATER) == map[];
    assert Prune(s, A_WEEK_LATER).arrivals == map[] && Prune(s, A_WEEK_LATER).tombstones == map[];
  }

  lemma NothingMatches(s: Ledger, now: int)
    requires s.transfers == map[] && s.tombstones == map[]
    ensures Classify(s, 11, COPY, CONTENT, now) == Verdict(Undecided, 0, 0)
  {
    assert TransferRows(s, COPY, CONTENT) == {} && TombstoneRows(s, 11, COPY, CONTENT, now) == {};
    assert MatchTransfer(s, COPY, CONTENT) == 0 && MatchTombstone(s, 11, COPY, CONTENT, now) == 0;
  }

  const WAITING := Arrival(2, 1, 1, 0, Undecided, CONTENT, 0, 0, A_WEEK_LATER, A_WEEK_LATER + HOLD_SECONDS, 0)

  function WaitingMail(): Ledger {
    Mail(A_WEEK_LATER, BOTH, map[], 2, map[11 := WAITING], 3, map[])
  }

  /** Held again, a week after the decision: receipt and decision are gone, and the message is new. */
  lemma CopyIsHeldAgain()
    ensures Apply(SuppressedMail(), Arriving(Held(11, 0, UNKNOWN)), A_WEEK_LATER) == WaitingMail()
  {
    var c := SuppressedMail().(clock := A_WEEK_LATER);
    var s := Mail(A_WEEK_LATER, BOTH, map[], 2, map[], 2, map[]);
    CopyIsKnown(c);
    AWeekLaterAllIsPruned();
    NothingMatches(s, A_WEEK_LATER);
    hide Classify, Prune, Resolve, Stamp;
    assert NewArrival(s, COPY, 0, CONTENT, Verdict(Undecided, 0, 0), A_WEEK_LATER) == WAITING;
    assert HeldOpen(s, 11, 0, CONTENT, A_WEEK_LATER) == WaitingMail();
    assert SuppressedMail().messages[11] == COPY;
  }

  const DUE := A_WEEK_LATER + HOLD_SECONDS

  function AnnouncedMail(): Ledger {
    Mail(DUE, BOTH, map[], 2, map[11 := WAITING.(outcome := Delivery, finalizedAt := DUE)], 3, map[11 := DUE])
  }

  lemma CopyIsDue(s: Ledger)
    requires s == WaitingMail().(clock := DUE)
    ensures Prune(s, DUE) == s && DueBatch(s, 1, DUE) == [Candidate(DUE, 2)]
  {
    assert LiveTransfers(s.transfers, DUE) == s.transfers;
    assert Prune(s, DUE).arrivals == s.arrivals && Prune(s, DUE).tombstones == s.tombstones;
    var rows, own := DueRows(s, 1, DUE), Candidate(DUE, 2);
    assert Due(s, 11, 1, DUE);
    assert rows == {own};
    FirstIs(own, rows);
    assert rows - {own} == {};
    assert Take({}, DUE_BATCH - 1) == [];
  }

  lemma CopyIsConcluded(s: Ledger)
    requires s == WaitingMail().(clock := DUE)
    ensures FinalizeOne(s, 11, 1, DUE) == Some(AnnouncedMail())
  {
    CopyIsKnown(s);
    NothingMatches(s, DUE);
    hide Classify, Resolve, Stamp;
    assert Deliver(s, 11, WAITING, 1, DUE) == AnnouncedMail();
  }

  lemma CopyIsAnnounced()
    ensures Apply(WaitingMail(), Arriving(Finalized(1)), DUE) == AnnouncedMail()
  {
    var s := WaitingMail().(clock := DUE);
    CopyIsDue(s);
    CopyIsConcluded(s);
    assert s.arrivals[11].id == 2 && HasArrival(s, 2);
    assert MessageOf(s, 2) == 11;
    hide Prune, DueBatch, FinalizeOne;
    var due := [Candidate(DUE, 2)];
    assert due[1..] == [] && FinalizeEach(AnnouncedMail(), [], 1, DUE) == Some(AnnouncedMail());
    assert FinalizeEach(s, due, 1, DUE) == Some(AnnouncedMail());
  }

  const SUPPRESSION: seq<Timed> :=
    STAGING + [Timed(Transferring(Claimed(1, SPACED)), 1)] + [Timed(Transferring(Confirmed(1, 0, 0)), 1)]
    + [Timed(Turning(Stored(11, COPY)), 1)] + [Timed(Arriving(Held(11, 0, UNKNOWN)), 1)]

  lemma SuppressionLeadsThere()
    ensures Execute(Empty(), SUPPRESSION) == SuppressedMail()
  {
    assert SUPPRESSION ==
           STAGING + [Timed(Transferring(Claimed(1, SPACED)), 1)] + [Timed(Transferring(Confirmed(1, 0, 0)), 1)]
           + [Timed(Turning(Stored(11, COPY)), 1)] + [Timed(Arriving(Held(11, 0, UNKNOWN)), 1)];
    hide *;
    var a := STAGING + [Timed(Transferring(Claimed(1, SPACED)), 1)];
    var b := a + [Timed(Transferring(Confirmed(1, 0, 0)), 1)];
    var c := b + [Timed(Turning(Stored(11, COPY)), 1)];
    StagingLeadsThere();
    ClaimingLeadsThere();
    ConfirmingLeadsThere();
    CopyArrives();
    CopyIsSuppressed();
    OneMore(STAGING, Timed(Transferring(Claimed(1, SPACED)), 1));
    OneMore(a, Timed(Transferring(Confirmed(1, 0, 0)), 1));
    OneMore(b, Timed(Turning(Stored(11, COPY)), 1));
    OneMore(c, Timed(Arriving(Held(11, 0, UNKNOWN)), 1));
  }

  /** The message was suppressed as a move of the user's own; held again a week later, it is announced. */
  lemma SuppressedIsAnnounced()
    ensures var more := [Timed(Arriving(Held(11, 0, UNKNOWN)), A_WEEK_LATER)] + [Timed(Arriving(Finalized(1)), DUE)];
            var s, t := Execute(Empty(), SUPPRESSION), Execute(Empty(), SUPPRESSION + more);
            && 11 in s.arrivals && s.arrivals[11].outcome == LocalMove && 11 !in s.events
            && 11 in t.events && 11 in t.arrivals && t.arrivals[11].outcome == Delivery
  {
    hide *;
    var held, finalized := Timed(Arriving(Held(11, 0, UNKNOWN)), A_WEEK_LATER), Timed(Arriving(Finalized(1)), DUE);
    SuppressionLeadsThere();
    CopyIsHeldAgain();
    CopyIsAnnounced();
    OneMore(SUPPRESSION, held);
    OneMore(SUPPRESSION + [held], finalized);
    assert SUPPRESSION + ([held] + [finalized]) == SUPPRESSION + [held] + [finalized];
    Outcomes();
  }

  lemma Outcomes()
    ensures 11 in SuppressedMail().arrivals && SuppressedMail().arrivals[11].outcome == LocalMove
    ensures 11 !in SuppressedMail().events
    ensures 11 in AnnouncedMail().events && 11 in AnnouncedMail().arrivals && AnnouncedMail().arrivals[11].outcome == Delivery
  {
  }
}
