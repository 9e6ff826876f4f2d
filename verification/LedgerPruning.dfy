/** Pruning the ledger cannot be observed by a classification at the same instant. */
module LedgerPruning {

  import opened LedgerState
  import opened LedgerVerdict

  /** Only decided arrivals carry a time of decision. */
  ghost predicate UndecidedUnfinalized(s: Ledger) {
    forall id :: id in s.arrivals && s.arrivals[id].outcome == Undecided ==> s.arrivals[id].finalizedAt == 0
  }

  lemma SpentExplainsNothing(s: Ledger, m: Message, fingerprint: Fingerprint, now: int)
    ensures TransferRows(Prune(s, now), m, fingerprint) == TransferRows(s, m, fingerprint)
  {
    var p := Prune(s, now);
    forall id | id in s.transfers && ExplainsArrival(s.transfers[id], m, fingerprint)
      ensures id in p.transfers && p.transfers[id] == s.transfers[id] {
    }
  }

  lemma FlightsSurvive(s: Ledger, now: int)
    ensures forall t :: t in Prune(s, now).transfers ==> t in s.transfers && Prune(s, now).transfers[t] == s.transfers[t]
    ensures forall t :: t in s.transfers && InFlight(s.transfers[t]) ==> t in Prune(s, now).transfers
  {
  }

  lemma TombstoneSurvives(s: Ledger, f: int, id: int, m: Message, now: int)
    requires UndecidedUnfinalized(s) && f in s.tombstones
    ensures f in Prune(s, now).tombstones && Alive(Prune(s, now), s.tombstones[f], id, m, now)
       <==> Alive(s, s.tombstones[f], id, m, now)
    ensures s.tombstones[f].expiresAt > now ==> f in Prune(s, now).tombstones
    ensures f in Prune(s, now).tombstones ==> Prune(s, now).tombstones[f] == s.tombstones[f]
  {
    FlightsSurvive(s, now);
    var p, row := Prune(s, now), s.tombstones[f];
    if Alive(s, row, id, m, now) && row.expiresAt <= now {
      var s1 := s.(transfers := LiveTransfers(s.transfers, now));
      if t :| t in s.transfers && SameSource(s.transfers[t], row) && InFlight(s.transfers[t])
                && s.transfers[t].account == m.account && s.transfers[t].mailbox == m.mailbox
                && Matches(s.transfers[t].fingerprint, row.fingerprint) {
        assert t in p.transfers && p.transfers[t] == s.transfers[t];
        assert !Stale(s1, row, now);
      } else {
        assert HoldsOpen(s.arrivals[id], row);
        assert !Stale(s1, row, now);
      }
    }
  }

  lemma StaleExplainsNothing(s: Ledger, id: int, m: Message, fingerprint: Fingerprint, now: int)
    requires UndecidedUnfinalized(s)
    ensures TombstoneRows(Prune(s, now), id, m, fingerprint, now) == TombstoneRows(s, id, m, fingerprint, now)
  {
    var p := Prune(s, now);
    forall f | f in s.tombstones
      ensures f in p.tombstones && ExplainsExpunge(p, p.tombstones[f], id, m, fingerprint, now)
         <==> ExplainsExpunge(s, s.tombstones[f], id, m, fingerprint, now)
      ensures f in p.tombstones ==> p.tombstones[f] == s.tombstones[f] {
      TombstoneSurvives(s, f, id, m, now);
    }
    assert forall f :: f in p.tombstones ==> f in s.tombstones;
  }

  lemma FlightsAreTheSame(s: Ledger, f: Tombstone, m: Message, fingerprint: Fingerprint, now: int)
    ensures MoveInFlight(Prune(s, now), f, m, fingerprint) == MoveInFlight(s, f, m, fingerprint)
  {
    FlightsSurvive(s, now);
    var p := Prune(s, now);
    assert FlightRows(p, f, m, fingerprint) == FlightRows(s, f, m, fingerprint);
  }

  lemma SourcesAreTheSame(s: Ledger, t: Transfer, m: Message, fingerprint: Fingerprint, now: int)
    requires UndecidedUnfinalized(s)
    ensures SourceTombstone(Prune(s, now), t, m, fingerprint, now) == SourceTombstone(s, t, m, fingerprint, now)
  {
    var p := Prune(s, now);
    forall f | f in s.tombstones && s.tombstones[f].expiresAt > now
      ensures f in p.tombstones && p.tombstones[f] == s.tombstones[f] {
      TombstoneSurvives(s, f, 0, m, now);
    }
    assert SourceRows(p, t, m, fingerprint, now) == SourceRows(s, t, m, fingerprint, now);
  }

  lemma VerdictIsTheSame(s: Ledger, id: int, m: Message, fingerprint: Fingerprint, now: int)
    requires UndecidedUnfinalized(s)
    ensures Classify(Prune(s, now), id, m, fingerprint, now) == Classify(s, id, m, fingerprint, now)
  {
    hide Prune, TransferRows, TombstoneRows, SourceTombstone, MoveInFlight;
    var p := Prune(s, now);
    SpentExplainsNothing(s, m, fingerprint, now);
    StaleExplainsNothing(s, id, m, fingerprint, now);
    MatchedTransferExplains(s, m, fingerprint);
    MatchedTransferExplains(p, m, fingerprint);
    MatchedTombstoneExplains(s, id, m, fingerprint, now);
    MatchedTombstoneExplains(p, id, m, fingerprint, now);
    FlightsSurvive(s, now);
    var t, f := MatchTransfer(s, m, fingerprint), MatchTombstone(s, id, m, fingerprint, now);
    if t > 0 {
      SourcesAreTheSame(s, s.transfers[t], m, fingerprint, now);
    } else if f > 0 {
      TombstoneSurvives(s, f, id, m, now);
      FlightsAreTheSame(s, s.tombstones[f], m, fingerprint, now);
    }
  }

  /** Whatever the ledger, the arrival and the instant: pruned or not, the verdict is the same and so are the
      tokens it uses up. */
  lemma PruningIsUnobservable(s: Ledger, id: int, m: Message, fingerprint: Fingerprint, now: int)
    requires UndecidedUnfinalized(s)
    ensures var v := Classify(s, id, m, fingerprint, now);
            && Classify(Prune(s, now), id, m, fingerprint, now) == v
            && var a, b := Consume(s, v, id, now), Consume(Prune(s, now), v, id, now);
            && (v.transfer > 0 ==> v.transfer in a.transfers && v.transfer in b.transfers
                                   && a.transfers[v.transfer] == b.transfers[v.transfer])
            && (v.tombstone > 0 ==> v.tombstone in a.tombstones && v.tombstone in b.tombstones
                                    && a.tombstones[v.tombstone] == b.tombstones[v.tombstone])
  {
    VerdictIsTheSame(s, id, m, fingerprint, now);
    VerdictIsBacked(s, id, m, fingerprint, now);
    VerdictIsBacked(Prune(s, now), id, m, fingerprint, now);
    var v := Classify(s, id, m, fingerprint, now);
    hide Classify;
    FlightsSurvive(s, now);
    if v.tombstone > 0 {
      TombstoneSurvives(s, v.tombstone, id, m, now);
    }
  }
}
