/** The generation-bound transactions as the store runs them: counting, journaling, deleting and restoring row by row. */
module MailboxGeneration {

  import opened ArrivalLedger
  import opened Candidates
  import opened GenerationInvariant
  import opened GenerationState
  import opened LedgerState

  function NewIdsBelow(s: Cache, n: int): set<int> {
    set id | id in s.rows && id < n && Mirrored(s.rows[id]) && WorthKeeping(s.rows[id].state) :: s.nextSaved + id
  }

  /** The journal when the rows below n have been looked at. */
  function JournaledBelow(s: Cache, target: int, n: int): map<int, Saved> {
    map j | j in s.journal.Keys + NewIdsBelow(s, n) ::
      if j in s.journal then s.journal[j].(target := target) else Save(j - s.nextSaved, s.rows[j - s.nextSaved], target)
  }

  predicate Worthy(s: Cache, id: int) {
    id in s.rows && Mirrored(s.rows[id]) && WorthKeeping(s.rows[id].state)
  }

  /** Ids are given out in increasing order. */
  predicate IdsAreTaken(s: Cache) {
    && (forall id :: id in s.rows ==> 0 < id < s.nextRow)
    && (forall j :: j in s.journal ==> 0 < j < s.nextSaved)
  }

  lemma OneMoreJournaled(s: Cache, target: int, id: int)
    requires IdsAreTaken(s) && id > 0
    ensures JournaledBelow(s, target, id + 1) ==
            if Worthy(s, id) then JournaledBelow(s, target, id)[s.nextSaved + id := Save(id, s.rows[id], target)]
            else JournaledBelow(s, target, id)
  {
    hide WorthKeeping;
    assert NewIdsBelow(s, id + 1) == NewIdsBelow(s, id) + if Worthy(s, id) then {s.nextSaved + id} else {};
    assert s.nextSaved + id !in s.journal;
  }

  lemma AllJournaled(s: Cache, target: int)
    requires IdsAreTaken(s)
    ensures JournaledBelow(s, target, s.nextRow) == Journaled(s, target)
    ensures JournaledBelow(s, target, 1) == map j | j in s.journal :: s.journal[j].(target := target)
  {
    hide WorthKeeping, Save;
    assert NewIdsBelow(s, s.nextRow) == NewSavedIds(s);
    assert NewIdsBelow(s, 1) == {};
  }

  lemma SameMirrored(s: Cache, t: Cache)
    requires t.rows == s.rows
    ensures MirroredIds(t) == MirroredIds(s)
  {
  }

  class Mirror {
    var uidValidity: int
    var lastUid: int
    var rows: map<int, Row>
    var nextRow: int
    var journal: map<int, Saved>
    var nextSaved: int
    var rebuild: Option<Rebuild>
    var nextItem: int
    var elsewhere: set<int>

    constructor ()
      ensures View() == Fresh()
    {
      uidValidity, lastUid, rows, nextRow := 0, 0, map[], 1;
      journal, nextSaved, rebuild := map[], 1, None;
      nextItem, elsewhere := 1, {};
    }

    function View(): Cache
      reads this
    {
      Cache(uidValidity, lastUid, rows, nextRow, journal, nextSaved, rebuild, nextItem, elsewhere)
    }

    method RollBack(saved: Cache)
      modifies this
      ensures View() == saved
    {
      uidValidity, lastUid, rows, nextRow := saved.uidValidity, saved.lastUid, saved.rows, saved.nextRow;
      journal, nextSaved, rebuild := saved.journal, saved.nextSaved, saved.rebuild;
      nextItem, elsewhere := saved.nextItem, saved.elsewhere;
    }

    // ----- resets -----

    /** Counts the mirrored rows and those that cannot be proven to be of the generation. */
    method CountRows(generation: int) returns (messageCount: int, unprovenCount: int)
      requires Bound(View())
      ensures messageCount > 0 <==> MirroredIds(View()) != {}
      ensures unprovenCount > 0 <==> Unproven(View(), generation)
    {
      messageCount, unprovenCount := 0, 0;
      for id := 1 to nextRow
        invariant messageCount >= 0 && unprovenCount >= 0
        invariant messageCount > 0 <==> exists k :: k in rows && k < id && Mirrored(rows[k])
        invariant unprovenCount > 0 <==> exists k :: k in rows && k < id && OfOtherGeneration(rows[k], generation)
      {
        if id in rows && Mirrored(rows[id]) {
          messageCount := messageCount + 1;
          if rows[id].generation <= 0 || rows[id].generation != generation {
            unprovenCount := unprovenCount + 1;
          }
        }
      }
      if messageCount > 0 {
        var k :| k in rows && Mirrored(rows[k]);
        assert k in MirroredIds(View());
      }
      if unprovenCount > 0 {
        var k :| k in rows && OfOtherGeneration(rows[k], generation);
        assert k in MirroredIds(View());
      }
    }

    /** Retargets the journal and adds the state of the mirrored rows, in the order of their ids. */
    method Journal(target: int)
      requires nextRow > 0 && IdsAreTaken(View())
      modifies this`journal
      ensures journal == Journaled(old(View()), target)
    {
      ghost var s := View();
      AllJournaled(s, target);
      var journaled := map j | j in journal :: journal[j].(target := target);
      hide IdsAreTaken, JournaledBelow, Journaled, WorthKeeping, Save, Mirrored;
      for id := 1 to nextRow
        invariant journaled == JournaledBelow(s, target, id)
      {
        OneMoreJournaled(s, target, id);
        if id in rows && Mirrored(rows[id]) && WorthKeeping(rows[id].state) {
          assert Worthy(s, id);
          journaled := journaled[nextSaved + id := Save(id, rows[id], target)];
        }
      }
      journal := journaled;
    }

    method SnapshotMailboxGenerationState(target: int, floor: int)
      requires Bound(View()) && Journals(View())
      modifies this`journal, this`nextSaved, this`rebuild
      ensures rebuild == Some(Mark(old(rebuild), target, floor))
      ensures journal == Journaled(old(View()), target) && nextSaved == old(nextSaved) + nextRow
    {
      if rebuild.Some? && rebuild.value.target == target && rebuild.value.floor > 0 {
        rebuild := Some(Rebuild(target, rebuild.value.floor));
      } else {
        rebuild := Some(Rebuild(target, floor));
      }
      Journal(target);
      nextSaved := nextSaved + nextRow;
    }

    method ResetMailboxForRemoteGeneration(generation: int, floor: int) returns (reset: bool)
      requires Bound(View()) && Journals(View())
      modifies this
      ensures View() == Reset(old(View()), generation, floor)
      ensures reset <==> 0 < generation && 0 < floor && NeedsReset(old(View()), generation)
    {
      reset := false;
      if generation <= 0 {
        return;
      }
      var messageCount, unprovenCount := CountRows(generation);
      reset := unprovenCount > 0 || (uidValidity != generation && (uidValidity > 0 || lastUid > 0 || messageCount > 0));
      if !reset {
        if uidValidity != generation {
          uidValidity := generation;
        }
        return;
      }
      if floor <= 0 {
        return false;
      }
      ghost var mirrored := MirroredIds(View());
      hide Journaled, Mark, Bound, Journals, MirroredIds;
      SnapshotMailboxGenerationState(generation, floor);
      assert MirroredIds(View()) == mirrored by {
        SameMirrored(old(View()), View());
      }
      rows := rows - MirroredIds(View());
      uidValidity, lastUid := generation, 0;
    }

    // ----- importing -----

    /** Re-inserts the saved items one by one. */
    method InsertItems(id: int, saved: map<Slot, Item>)
      requires id in rows && forall slot :: slot in saved ==> slot !in rows[id].state.items
      modifies this`rows
      ensures rows == old(rows)[id := old(rows)[id].(state := old(rows)[id].state.(items := old(rows)[id].state.items + saved))]
    {
      var row := rows[id];
      var items := row.state.items;
      var left := saved.Keys;
      while left != {}
        invariant left <= saved.Keys
        invariant items == row.state.items + (saved - left)
        decreases left
      {
        var slot :| slot in left;
        items := items[slot := saved[slot]];
        left := left - {slot};
      }
      assert saved - left == saved;
      rows := rows[id := row.(state := row.state.(items := items))];
    }

    /** The journal row that is the only strongest match, or 0. */
    method FindMatch(i: Import) returns (j: int)
      requires forall k :: k in journal ==> k > 0
      ensures j == MatchSaved(journal, i) && (j != 0 <==> j in journal)
    {
      var matching := MatchingRows(journal, i);
      var candidates := FirstRows(matching, 2);
      TakenAreFirst(matching, 2);
      if |candidates| == 0 || (|candidates| > 1 && candidates[0].strength == candidates[1].strength) {
        return 0;
      }
      return candidates[0].id;
    }

    /** Reattaches the state of the only strongest match; not possible when the tables refuse it. */
    method RestoreMailboxGenerationState(id: int, i: Import) returns (possible: bool)
      requires id in rows && forall j :: j in journal ==> j > 0
      modifies this`rows, this`journal
      ensures Restore(old(View()), id, i) == if possible then Some(View()) else None
    {
      var j := FindMatch(i);
      hide MatchSaved;
      if j == 0 {
        return true;
      }
      var saved := journal[j].state;
      if !Insertable(rows, elsewhere, id, saved) {
        return false;
      }
      ghost var before := rows[id];
      RestoreFlags(id, saved);
      InsertItems(id, saved.items);
      assert rows == old(rows)[id := before.(state := Reattach(before.state, saved))];
      journal := journal - {j};
      return true;
    }

    /** Pending flag changes take precedence over what the import brought. */
    method RestoreFlags(id: int, saved: State)
      requires id in rows
      modifies this`rows
      ensures rows == old(rows)[id := old(rows)[id].(state :=
                                        Reattach(old(rows)[id].state, saved).(items := old(rows)[id].state.items))]
    {
      var state := rows[id].state;
      if saved.readPending {
        state := state.(isRead := saved.isRead, readPending := true);
      }
      if saved.starPending {
        state := state.(isStarred := saved.isStarred, starPending := true);
      }
      rows := rows[id := rows[id].(state := state)];
    }

    method CreateMessage(i: Import) returns (stored: bool)
      requires Bound(View()) && Journals(View())
      modifies this
      ensures View() == if i.generation <= 0 then StoreUnbound(old(View()), i) else Create(old(View()), i)
      ensures stored <==> i.generation <= 0 || Storing(old(View()), i).Some?
    {
      if i.generation > 0 && uidValidity != i.generation {
        return false;
      }
      var saved := View();
      var id: int;
      if exists other :: other in rows && rows[other].uid == i.uid {
        id :| id in rows && rows[id].uid == i.uid;
        assert id == Holder(saved, i.uid);
        if i.generation > 0 && rows[id].generation != i.generation {
          return false;
        }
        rows := rows[id := Refresh(rows[id], i)];
      } else {
        assert !HasUid(saved, i.uid);
        id := nextRow;
        rows := rows[id := Row(i.uid, i.generation, 0, i.keys, i.completed, State(i.isRead, false, i.isStarred, false, map[]))];
        nextRow := nextRow + 1;
      }
      stored := true;
      if i.generation > 0 {
        stored := RestoreMailboxGenerationState(id, i);
      }
      if !stored {
        RollBack(saved);
      }
    }

    // ----- checkpoints, status, reconciliation -----

    method UpdateMailboxLastUIDForGeneration(uid: int, expected: int) returns (matched: bool)
      modifies this`lastUid
      ensures View() == UpdateLastUid(old(View()), uid, expected)
      ensures matched <==> 0 < expected == uidValidity
    {
      matched := expected > 0 && uidValidity == expected;
      if matched && lastUid < uid {
        lastUid := uid;
      }
    }

    method InitializeMailboxRemoteStatus(validity: int) returns (matched: bool)
      modifies this`uidValidity
      ensures View() == InitializeStatus(old(View()), validity)
      ensures matched <==> validity > 0 && old(uidValidity) == 0
    {
      matched := validity > 0 && uidValidity == 0;
      if matched {
        uidValidity := validity;
      }
    }

    method InitializeMailboxGenerationRebuildArrivalUIDFloor(target: int, floor: int) returns (durable: int)
      modifies this`rebuild
      ensures View() == InitializeFloor(old(View()), target, floor)
      ensures durable == if target > 0 && floor > 0 && rebuild.Some? && rebuild.value.target == target
                         then rebuild.value.floor else 0
    {
      durable := 0;
      if target <= 0 || floor <= 0 {
        return;
      }
      if rebuild.Some? && rebuild.value.target == target {
        if rebuild.value.floor == 0 {
          rebuild := Some(Rebuild(target, floor));
        }
        durable := rebuild.value.floor;
      }
    }

    method FinalizeMailboxGenerationRebuild(target: int)
      modifies this`journal, this`rebuild
      ensures View() == FinalizeRebuild(old(View()), target)
    {
      if target <= 0 {
        return;
      }
      journal := map j | j in journal && journal[j].target != target :: journal[j];
      if rebuild.Some? && rebuild.value.target == target {
        rebuild := None;
      }
    }

    /** First the list of rows that are gone, then their deletion one by one. */
    method DeleteMessagesMissingUIDsAndRecordExpunges(remote: set<int>, validity: int, uidNext: int)
      returns (stale: seq<int>)
      requires Bound(View())
      modifies this`rows
      ensures View() == Reconcile(old(View()), remote, validity, uidNext)
      ensures forall id :: id in rows ==> id in old(rows) && rows[id] == old(rows)[id]
      ensures forall id :: id in old(rows) ==>
                (id !in rows <==> && validity > 0 && uidNext > 0 && uidValidity == validity && Mirrored(old(rows)[id])
                                  && old(rows)[id].uid < uidNext && old(rows)[id].uid !in remote)
      ensures forall id :: id in stale <==> id in old(rows) && id !in rows
    {
      stale := [];
      if validity <= 0 || uidNext <= 0 || uidValidity != validity {
        return;
      }
      for id := 1 to nextRow
        invariant forall k :: k in stale <==> k in rows && k < id && Gone(rows[k], remote, uidNext)
      {
        if id in rows && Mirrored(rows[id]) && rows[id].uid < uidNext && rows[id].uid !in remote {
          stale := stale + [id];
        }
      }
      for n := 0 to |stale|
        invariant forall k :: k in rows <==> k in old(rows) && k !in stale[..n]
        invariant forall k :: k in rows ==> rows[k] == old(rows)[k]
      {
        rows := rows - {stale[n]};
        assert stale[..n + 1] == stale[..n] + [stale[n]];
      }
      assert stale[..|stale|] == stale;
      ghost var kept := Reconcile(old(View()), remote, validity, uidNext).rows;
      forall k
        ensures k in rows <==> k in kept
        ensures k in rows ==> rows[k] == kept[k]
      {
      }
      assert rows == kept;
    }
  }

  predicate OfOtherGeneration(row: Row, generation: int) {
    Mirrored(row) && (row.generation <= 0 || row.generation != generation)
  }
}
