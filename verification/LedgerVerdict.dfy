/** What a verdict stands on: the rows it names exist, explain the arrival and are not used up yet. */
module LedgerVerdict {

  import opened Candidates
  import opened LedgerState

  lemma MatchedTransferExplains(s: Ledger, m: Message, fingerprint: Fingerprint)
    ensures var t := MatchTransfer(s, m, fingerprint);
            t > 0 ==> t in s.transfers && ExplainsArrival(s.transfers[t], m, fingerprint)
  {
    TakenAreFirst(TransferRows(s, m, fingerprint), 2);
  }

  lemma MatchedTombstoneExplains(s: Ledger, id: int, m: Message, fingerprint: Fingerprint, now: int)
    ensures var f := MatchTombstone(s, id, m, fingerprint, now);
            f > 0 ==> f in s.tombstones && ExplainsExpunge(s, s.tombstones[f], id, m, fingerprint, now)
  {
    TakenAreFirst(TombstoneRows(s, id, m, fingerprint, now), 2);
  }

  lemma SourceTombstoneIsFree(s: Ledger, t: Transfer, m: Message, fingerprint: Fingerprint, now: int)
    ensures var f := SourceTombstone(s, t, m, fingerprint, now);
            f > 0 ==> f in s.tombstones && FromPlaceOf(t, s.tombstones[f]) && s.tombstones[f].consumedAt == 0
                      && Matches(s.tombstones[f].fingerprint, fingerprint)
  {
  }

  lemma FlightIsOpen(s: Ledger, f: Tombstone, m: Message, fingerprint: Fingerprint)
    ensures var t := MoveInFlight(s, f, m, fingerprint);
            t > 0 ==> t in s.transfers && InFlight(s.transfers[t]) && SameSource(s.transfers[t], f)
                      && s.transfers[t].account == m.account && s.transfers[t].mailbox == m.mailbox
                      && Matches(s.transfers[t].fingerprint, fingerprint)
  {
  }

  predicate Unresolved(t: Transfer) {
    t.state == Pending || t.state == Succeeded
  }

  /** The rows behind a verdict, by its outcome. */
  ghost predicate Backed(s: Ledger, v: Verdict, m: Message) {
    && v.outcome != Delivery
    && (if v.outcome == LocalMove || v.outcome == LocalCopy then v.transfer > 0 else v.transfer == 0)
    && (v.outcome == LocalCopy || v.outcome == Undecided ==> v.tombstone == 0)
    && (v.outcome == ExternalMove ==> v.tombstone > 0)
    && (v.transfer > 0 ==>
          && v.transfer in s.transfers && Unresolved(s.transfers[v.transfer])
          && s.transfers[v.transfer].kind == (if v.outcome == LocalCopy then Copy else Move)
          && s.transfers[v.transfer].account == m.account && s.transfers[v.transfer].mailbox == m.mailbox)
    && (v.tombstone > 0 ==>
          v.tombstone in s.tombstones && s.tombstones[v.tombstone].consumedAt == 0)
    && (v.transfer > 0 && v.tombstone > 0 ==>
          FromPlaceOf(s.transfers[v.transfer], s.tombstones[v.tombstone]))
  }

  /** They are of the same message as the arrival: by the server's word, or by content or identity. */
  ghost predicate Fitting(s: Ledger, v: Verdict, m: Message, fingerprint: Fingerprint) {
    && (v.transfer > 0 ==>
          v.transfer in s.transfers &&
          (NamesDestination(s.transfers[v.transfer], m) || Matches(s.transfers[v.transfer].fingerprint, fingerprint)))
    && (v.tombstone > 0 ==> v.tombstone in s.tombstones && Matches(s.tombstones[v.tombstone].fingerprint, fingerprint))
  }

  lemma VerdictIsBacked(s: Ledger, id: int, m: Message, fingerprint: Fingerprint, now: int)
    ensures Backed(s, Classify(s, id, m, fingerprint, now), m)
    ensures Fitting(s, Classify(s, id, m, fingerprint, now), m, fingerprint)
  {
    hide MatchTransfer, MatchTombstone, SourceTombstone, MoveInFlight;
    MatchedTransferExplains(s, m, fingerprint);
    MatchedTombstoneExplains(s, id, m, fingerprint, now);
    var t, f := MatchTransfer(s, m, fingerprint), MatchTombstone(s, id, m, fingerprint, now);
    if t > 0 {
      SourceTombstoneIsFree(s, s.transfers[t], m, fingerprint, now);
    } else if f > 0 {
      FlightIsOpen(s, s.tombstones[f], m, fingerprint);
    }
  }

  /** A transfer the server confirmed is never passed over for a tombstone. */
  lemma TransferComesFirst(s: Ledger, id: int, m: Message, fingerprint: Fingerprint, now: int)
    requires forall t :: t in s.transfers ==> t > 0
    requires exists t :: t in s.transfers && ExplainsArrival(s.transfers[t], m, fingerprint)
                      && TransferStrength(s.transfers[t], m, fingerprint) < IDENTITY
    ensures Classify(s, id, m, fingerprint, now).transfer > 0
  {
    var rows := TransferRows(s, m, fingerprint);
    var t :| t in s.transfers && ExplainsArrival(s.transfers[t], m, fingerprint)
          && TransferStrength(s.transfers[t], m, fingerprint) < IDENTITY;
    assert Candidate(TransferStrength(s.transfers[t], m, fingerprint), t) in rows;
    TwoRowsDecideWeakTies(rows, IDENTITY);
    MatchedTransferExplains(s, m, fingerprint);
  }
}
