/** The round trip: a reset deletes every mirrored message, refetching brings them all back under new UIDs, and each
    has exactly the user's state it had. */
module GenerationRoundTrip {

  import opened Candidates
  import opened LedgerState
  import opened GenerationState
  import opened GenerationInvariant
  import opened GenerationIdentities

  /** How the messages of the mailbox are fetched again: each under the new generation, under a UID of its own, with
      keys by which it is recognised and taken for no other. */
  ghost predicate Recognizable(s: Cache, imports: map<int, Import>, generation: int) {
    && imports.Keys == MirroredIds(s)
    && (forall id :: id in imports ==>
          imports[id].generation == generation && Matches(s.rows[id].keys, imports[id].keys))
    && (forall a, b :: a in imports && b in imports && a != b ==>
          imports[a].uid != imports[b].uid && !Matches(s.rows[a].keys, imports[b].keys))
    && (forall a, b :: a in imports && b in s.rows && !Mirrored(s.rows[b]) ==> imports[a].uid != s.rows[b].uid)
  }

  /** Distinct digests and identities are enough, when the messages come back with the keys they had. */
  lemma DistinctKeysAreRecognizable(s: Cache, imports: map<int, Import>, generation: int)
    requires imports.Keys == MirroredIds(s)
    requires forall id :: id in imports ==>
               imports[id].generation == generation && imports[id].keys == s.rows[id].keys && s.rows[id].keys.raw != 0
    requires forall a, b :: a in imports && b in imports && a != b ==>
               var k, l := s.rows[a].keys, s.rows[b].keys;
               && imports[a].uid != imports[b].uid && k.raw != l.raw && (k.canonical != 0 ==> k.canonical != l.canonical)
               && (k.messageId != 0 ==> !(k.messageId == l.messageId && k.date == l.date && k.size == l.size))
    requires forall a, b :: a in imports && b in s.rows && !Mirrored(s.rows[b]) ==> imports[a].uid != s.rows[b].uid
    ensures Recognizable(s, imports, generation)
  {
  }

  /** The state of a message fetched again: pending flags and what is kept of its items, the rest as the server has it. */
  function Back(state: State, i: Import): State {
    State(if state.readPending then state.isRead else i.isRead, state.readPending,
          if state.starPending then state.isStarred else i.isStarred, state.starPending,
          KeptItems(state.items))
  }

  function BackRow(row: Row, i: Import): Row {
    Row(i.uid, i.generation, 0, i.keys, i.completed, Back(row.state, i))
  }

  /** The k messages fetched first, each once. */
  ghost predicate Order(order: seq<int>, ids: set<int>) {
    && (forall k :: 0 <= k < |order| ==> order[k] in ids)
    && (forall k, l :: 0 <= k < l < |order| ==> order[k] != order[l])
  }

  ghost function Refetch(t: Cache, imports: map<int, Import>, order: seq<int>): Cache
    requires forall k :: 0 <= k < |order| ==> order[k] in imports
  {
    if order == [] then t
    else Create(Refetch(t, imports, order[..|order| - 1]), imports[order[|order| - 1]])
  }

  /** The rows after so many messages came back: those that were never deleted, and the new ones in order. */
  function RowsAfter(s: Cache, imports: map<int, Import>, order: seq<int>): map<int, Row>
    requires forall k :: 0 <= k < |order| ==> order[k] in imports && order[k] in s.rows
  {
    if order == [] then s.rows - MirroredIds(s)
    else
      var n := |order| - 1;
      RowsAfter(s, imports, order[..n])[s.nextRow + n := BackRow(s.rows[order[n]], imports[order[n]])]
  }

  /** The journal then: what has come back is taken out. */
  function JournalAfter(s: Cache, generation: int, order: seq<int>): map<int, Saved> {
    if order == [] then Journaled(s, generation)
    else JournalAfter(s, generation, order[..|order| - 1]) - {s.nextSaved + order[|order| - 1]}
  }

  lemma {:induction false} JournalAfterHas(s: Cache, generation: int, order: seq<int>, j: int)
    ensures j in JournalAfter(s, generation, order) <==> j in Journaled(s, generation) && j - s.nextSaved !in order
    ensures j in JournalAfter(s, generation, order) ==>
              JournalAfter(s, generation, order)[j] == Journaled(s, generation)[j]
  {
    hide Journaled;
    if order != [] {
      var n := |order| - 1;
      JournalAfterHas(s, generation, order[..n], j);
      assert order == order[..n] + [order[n]];
    }
  }

  ghost function Expected(s: Cache, generation: int, floor: int, imports: map<int, Import>, order: seq<int>): Cache
    requires forall k :: 0 <= k < |order| ==> order[k] in imports && order[k] in s.rows
  {
    Reset(s, generation, floor).(
      rows := RowsAfter(s, imports, order), nextRow := s.nextRow + |order|, journal := JournalAfter(s, generation, order))
  }

  /** Where the round trip starts: a consistent cache without an unfinished rebuild, and a reset that is due. */
  ghost predicate Ready(s: Cache, generation: int, floor: int) {
    && Bound(s) && Journals(s) && OneHome(s) && ThreadsOnce(s) && s.journal == map[]
    && generation > 0 && floor > 0 && NeedsReset(s, generation)
  }

  lemma NothingFetchedYet(s: Cache, generation: int, floor: int, imports: map<int, Import>)
    requires Ready(s, generation, floor)
    ensures Expected(s, generation, floor, imports, []) == Reset(s, generation, floor)
  {
    hide NeedsReset, Journaled;
  }

  // ----- one message more -----

  /** The new journal rows are those of the messages that had something to keep. */
  lemma JournalOf(s: Cache, generation: int, floor: int, id: int)
    requires Ready(s, generation, floor) && id in MirroredIds(s)
    ensures s.nextSaved + id in Journaled(s, generation) <==> WorthKeeping(s.rows[id].state)
    ensures WorthKeeping(s.rows[id].state) ==>
              Journaled(s, generation)[s.nextSaved + id] == Save(id, s.rows[id], generation)
  {
    hide WorthKeeping, NeedsReset, OneHome, ThreadsOnce;
  }

  lemma JournalIsOfRows(s: Cache, generation: int, floor: int, j: int)
    requires Ready(s, generation, floor) && j in Journaled(s, generation)
    ensures j - s.nextSaved in MirroredIds(s) && j > 0
    ensures Journaled(s, generation)[j] == Save(j - s.nextSaved, s.rows[j - s.nextSaved], generation)
  {
    JournaledRow(s, generation, j);
    hide NeedsReset, OneHome, ThreadsOnce;
  }

  lemma NoOtherMatches(
    s: Cache, generation: int, floor: int, imports: map<int, Import>, order: seq<int>, id: int, j: int)
    requires Ready(s, generation, floor) && Recognizable(s, imports, generation) && id in imports
    requires j in JournalAfter(s, generation, order)
    requires Matches(JournalAfter(s, generation, order)[j].keys, imports[id].keys)
    ensures j == s.nextSaved + id
  {
    JournalAfterHas(s, generation, order, j);
    JournalIsOfRows(s, generation, floor, j);
    hide Ready, Journaled, JournalAfter;
    assert j - s.nextSaved in imports;
  }

  /** The import is recognised by its own journal row and by no other. */
  lemma MatchesItsOwn(s: Cache, generation: int, floor: int, imports: map<int, Import>, order: seq<int>, id: int)
    requires Ready(s, generation, floor) && Recognizable(s, imports, generation)
    requires id in imports && id !in order
    ensures MatchSaved(JournalAfter(s, generation, order), imports[id])
         == if WorthKeeping(s.rows[id].state) then s.nextSaved + id else 0
    ensures s.nextSaved + id in JournalAfter(s, generation, order) <==> WorthKeeping(s.rows[id].state)
    ensures WorthKeeping(s.rows[id].state) ==>
              s.nextSaved + id > 0 && JournalAfter(s, generation, order)[s.nextSaved + id] == Save(id, s.rows[id], generation)
  {
    var journal, i := JournalAfter(s, generation, order), imports[id];
    JournalOf(s, generation, floor, id);
    JournalAfterHas(s, generation, order, s.nextSaved + id);
    if WorthKeeping(s.rows[id].state) {
      JournalIsOfRows(s, generation, floor, s.nextSaved + id);
    }
    hide Ready, WorthKeeping, Journaled, JournalAfter;
    forall j | j in journal && Matches(journal[j].keys, i.keys) ensures j == s.nextSaved + id {
      NoOtherMatches(s, generation, floor, imports, order, id, j);
    }
    OnlyOneMatches(journal, i, s.nextSaved + id);
  }

  lemma OnlyOneMatches(journal: map<int, Saved>, i: Import, j: int)
    requires forall k :: k in journal && Matches(journal[k].keys, i.keys) ==> k == j
    ensures MatchSaved(journal, i) ==
            if j in journal && journal[j].target == i.generation && Matches(journal[j].keys, i.keys) then j else 0
  {
    var rows := MatchingRows(journal, i);
    if j in journal && journal[j].target == i.generation && Matches(journal[j].keys, i.keys) {
      var own := Candidate(Strength(journal[j].keys, i.keys), j);
      assert rows == {own};
      FirstIs(own, rows);
      FirstTwo(rows);
    } else {
      assert rows == {};
    }
  }

  // ----- the rows on the way -----

  /** The message a row was, before the reset or still. */
  function Origin(s: Cache, order: seq<int>, x: int): int {
    if s.nextRow <= x < s.nextRow + |order| then order[x - s.nextRow] else x
  }

  lemma {:induction false} RowHasOrigin(s: Cache, imports: map<int, Import>, order: seq<int>, x: int)
    requires Bound(s) && forall k :: 0 <= k < |order| ==> order[k] in imports && order[k] in s.rows
    requires x in RowsAfter(s, imports, order)
    ensures s.nextRow <= x < s.nextRow + |order| || (x < s.nextRow && x in s.rows && !Mirrored(s.rows[x]))
    ensures var o, row := Origin(s, order, x), RowsAfter(s, imports, order)[x];
            && o in s.rows && (forall slot :: slot in row.state.items ==>
                                 slot in s.rows[o].state.items && row.state.items[slot] == s.rows[o].state.items[slot])
            && row.uid == if x < s.nextRow then s.rows[x].uid else imports[o].uid
    decreases |order|
  {
    hide Bound;
    if order == [] {
      NotMirrored(s, x);
    } else {
      var n := |order| - 1;
      assert forall k :: 0 <= k < n ==> order[..n][k] == order[k];
      if x != s.nextRow + n {
        RowHasOrigin(s, imports, order[..n], x);
      }
    }
  }

  lemma NotMirrored(s: Cache, x: int)
    requires Bound(s) && x in s.rows - MirroredIds(s)
    ensures x < s.nextRow && !Mirrored(s.rows[x])
  {
  }

  lemma UidIsFree(s: Cache, imports: map<int, Import>, generation: int, floor: int, order: seq<int>, id: int)
    requires Ready(s, generation, floor) && Recognizable(s, imports, generation)
    requires Order(order, imports.Keys) && id in imports && id !in order
    ensures !HasUid(Expected(s, generation, floor, imports, order), imports[id].uid)
  {
    var rows := RowsAfter(s, imports, order);
    forall x | x in rows ensures rows[x].uid != imports[id].uid {
      RowHasOrigin(s, imports, order, x);
    }
    hide RowsAfter, Ready, Recognizable;
  }

  function Blank(i: Import): Row {
    Row(i.uid, i.generation, 0, i.keys, i.completed, State(i.isRead, false, i.isStarred, false, map[]))
  }

  /** Whatever else is live came from another message than this one, and so has nothing of its items. */
  lemma OthersUseNot(s: Cache, imports: map<int, Import>, generation: int, floor: int, order: seq<int>, id: int,
                     slot: Slot, other: int)
    requires Ready(s, generation, floor) && Order(order, imports.Keys) && imports.Keys == MirroredIds(s)
    requires id in imports && id !in order && slot in s.rows[id].state.items && other in RowsAfter(s, imports, order)
    ensures var state, item := RowsAfter(s, imports, order)[other].state, s.rows[id].state.items[slot];
            && !Uses(state, TableOf(slot), item.id)
            && (slot == SnoozeSlot ==> !SnoozedFor(state, item.thread) && item.thread !in s.elsewhere)
  {
    RowHasOrigin(s, imports, order, other);
    var o := Origin(s, order, other);
    assert o != id;
    HomesAreApart(s, Live(o), Live(id));
    hide RowsAfter;
  }

  /** What the journal gives back to a message may be inserted. */
  lemma SavedIsInsertable(s: Cache, imports: map<int, Import>, generation: int, floor: int, order: seq<int>, id: int)
    requires Ready(s, generation, floor) && Order(order, imports.Keys) && imports.Keys == MirroredIds(s)
    requires id in imports && id !in order
    ensures var rows := RowsAfter(s, imports, order)[s.nextRow + |order| := Blank(imports[id])];
            Insertable(rows, s.elsewhere, s.nextRow + |order|, Save(id, s.rows[id], generation).state)
  {
    var before := RowsAfter(s, imports, order);
    var rows := before[s.nextRow + |order| := Blank(imports[id])];
    var saved := KeptItems(s.rows[id].state.items);
    hide Ready, RowsAfter, Order;
    forall slot, other | slot in saved && other in rows
      ensures !Uses(rows[other].state, TableOf(slot), saved[slot].id)
      ensures slot == SnoozeSlot ==> !SnoozedFor(rows[other].state, saved[slot].thread)
    {
      if other != s.nextRow + |order| {
        OthersUseNot(s, imports, generation, floor, order, id, slot, other);
      }
    }
    if SnoozeSlot in saved {
      ThreadsStayHome(s, generation, floor, id);
    }
  }

  lemma ThreadsStayHome(s: Cache, generation: int, floor: int, id: int)
    requires Ready(s, generation, floor) && id in s.rows && SnoozeSlot in s.rows[id].state.items
    ensures s.rows[id].state.items[SnoozeSlot].thread !in s.elsewhere
  {
  }

  // ----- one message after another -----

  /** The row an import leaves when its journal row is j, or when it has none. */
  lemma CreatedIs(t: Cache, i: Import, j: int, state: State)
    requires i.generation > 0 && t.uidValidity == i.generation && !HasUid(t, i.uid)
    requires j == MatchSaved(t.journal, i)
    requires j in t.journal ==>
               && Insertable(t.rows[t.nextRow := Blank(i)], t.elsewhere, t.nextRow, t.journal[j].state)
               && state == Reattach(Blank(i).state, t.journal[j].state)
    requires j !in t.journal ==> state == Blank(i).state
    ensures Create(t, i) == t.(rows := t.rows[t.nextRow := Blank(i).(state := state)], nextRow := t.nextRow + 1,
                               journal := t.journal - {j})
  {
    hide HasUid, Insertable, MatchSaved, Reattach;
    var u := Insert(t, i);
    assert u.rows == t.rows[t.nextRow := Blank(i)];
    if j in t.journal {
      assert u.rows[t.nextRow := u.rows[t.nextRow].(state := state)] == t.rows[t.nextRow := Blank(i).(state := state)];
    } else {
      assert t.journal - {j} == t.journal;
    }
  }

  lemma FetchingOneMore(s: Cache, imports: map<int, Import>, generation: int, floor: int, order: seq<int>, id: int)
    requires Ready(s, generation, floor) && Recognizable(s, imports, generation)
    requires Order(order, imports.Keys) && id in imports && id !in order
    ensures Create(Expected(s, generation, floor, imports, order), imports[id])
         == Expected(s, generation, floor, imports, order + [id])
  {
    hide Ready, Recognizable, MatchSaved, Insertable, HasUid, Matches, Reset, Create, WorthKeeping, Back, Order;
    RecognizedRows(s, imports, generation, order, id);
    var t, i := Expected(s, generation, floor, imports, order), imports[id];
    ExpectedGrows(s, imports, generation, floor, order, id);
    ResetSets(s, generation, floor);
    UidIsFree(s, imports, generation, floor, order, id);
    MatchesItsOwn(s, generation, floor, imports, order, id);
    SavedIsInsertable(s, imports, generation, floor, order, id);
    BackIsReattached(s.rows[id], i);
    NoZeroId(s, generation, floor, order);
    hide JournalAfter, RowsAfter;
    var j := MatchSaved(t.journal, i);
    CreatedIs(t, i, j, Back(s.rows[id].state, i));
    assert t.journal - {j} == t.journal - {s.nextSaved + id};
  }

  lemma RecognizedRows(s: Cache, imports: map<int, Import>, generation: int, order: seq<int>, id: int)
    requires Recognizable(s, imports, generation) && Order(order, imports.Keys) && id in imports
    ensures imports.Keys == MirroredIds(s) && id in s.rows && imports[id].generation == generation
    ensures forall k :: 0 <= k < |order| ==> order[k] in imports && order[k] in s.rows
  {
  }

  lemma ResetSets(s: Cache, generation: int, floor: int)
    requires Ready(s, generation, floor)
    ensures var t := Reset(s, generation, floor);
            generation > 0 && t.uidValidity == generation && t.elsewhere == s.elsewhere
  {
  }

  lemma ExpectedGrows(s: Cache, imports: map<int, Import>, generation: int, floor: int, order: seq<int>, id: int)
    requires (forall k :: 0 <= k < |order| ==> order[k] in imports && order[k] in s.rows) && id in imports && id in s.rows
    ensures var t := Expected(s, generation, floor, imports, order);
            Expected(s, generation, floor, imports, order + [id]) ==
            t.(rows := t.rows[t.nextRow := BackRow(s.rows[id], imports[id])], nextRow := t.nextRow + 1,
               journal := t.journal - {s.nextSaved + id})
  {
    assert (order + [id])[..|order|] == order;
    hide Reset;
  }

  lemma NoZeroId(s: Cache, generation: int, floor: int, order: seq<int>)
    requires Ready(s, generation, floor)
    ensures 0 !in JournalAfter(s, generation, order)
  {
    JournalAfterHas(s, generation, order, 0);
    if 0 in Journaled(s, generation) {
      JournalIsOfRows(s, generation, floor, 0);
    }
  }

  lemma BackIsReattached(row: Row, i: Import)
    ensures Back(row.state, i) == Reattach(Blank(i).state, row.state.(items := KeptItems(row.state.items)))
    ensures !WorthKeeping(row.state) ==> Back(row.state, i) == Blank(i).state
  {
  }

  lemma {:induction false} RefetchIsExpected(
    s: Cache, imports: map<int, Import>, generation: int, floor: int, order: seq<int>)
    requires Ready(s, generation, floor) && Recognizable(s, imports, generation) && Order(order, imports.Keys)
    ensures Refetch(Reset(s, generation, floor), imports, order) == Expected(s, generation, floor, imports, order)
    decreases |order|
  {
    hide Ready, Recognizable, Reset, Create, Expected;
    if order == [] {
      NothingFetchedYet(s, generation, floor, imports);
    } else {
      var n := |order| - 1;
      var init, last := order[..n], order[n];
      assert order == init + [last];
      RefetchIsExpected(s, imports, generation, floor, init);
      FetchingOneMore(s, imports, generation, floor, init, last);
    }
  }

  /** Reset and refetch, in any order: the journal is empty again, and every message is back under its new UID with
      its pending flags, snooze, event, undecided arrival, reminders and sends. */
  lemma RoundTrip(s: Cache, imports: map<int, Import>, generation: int, floor: int, order: seq<int>)
    requires Ready(s, generation, floor) && Recognizable(s, imports, generation)
    requires Order(order, imports.Keys) && forall id :: id in imports ==> id in order
    ensures var t := Refetch(Reset(s, generation, floor), imports, order);
            && t.journal == map[]
            && (forall id :: id in imports ==>
                  && HasUid(t, imports[id].uid)
                  && t.rows[Holder(t, imports[id].uid)] == BackRow(s.rows[id], imports[id]))
            && (forall id :: id in s.rows && !Mirrored(s.rows[id]) ==> id in t.rows && t.rows[id] == s.rows[id])
  {
    hide Reset, RowsAfter, Recognizable, Ready, Refetch, BackRow, JournalAfter, Order;
    RefetchedInOrder(s, imports, generation, order);
    RefetchIsExpected(s, imports, generation, floor, order);
    var t := Expected(s, generation, floor, imports, order);
    JournalIsEmpty(s, imports, generation, floor, order);
    forall id | id in imports
      ensures HasUid(t, imports[id].uid) && t.rows[Holder(t, imports[id].uid)] == BackRow(s.rows[id], imports[id])
    {
      var k :| 0 <= k < |order| && order[k] == id;
      RowIsBack(s, imports, generation, order, k);
      HolderIs(s, imports, generation, floor, order, k);
    }
    forall id | id in s.rows && !Mirrored(s.rows[id]) ensures id in t.rows && t.rows[id] == s.rows[id] {
      ReadyIsBound(s, generation, floor);
      KeptRowStays(s, imports, order, id);
    }
  }

  lemma RefetchedInOrder(s: Cache, imports: map<int, Import>, generation: int, order: seq<int>)
    requires Recognizable(s, imports, generation) && Order(order, imports.Keys)
    ensures imports.Keys == MirroredIds(s)
    ensures forall k :: 0 <= k < |order| ==> order[k] in imports && order[k] in s.rows
  {
  }

  lemma ReadyIsBound(s: Cache, generation: int, floor: int)
    requires Ready(s, generation, floor)
    ensures Bound(s)
  {
  }

  lemma JournalIsEmpty(s: Cache, imports: map<int, Import>, generation: int, floor: int, order: seq<int>)
    requires Ready(s, generation, floor) && imports.Keys == MirroredIds(s) && forall id :: id in imports ==> id in order
    ensures JournalAfter(s, generation, order) == map[]
  {
    forall j ensures j !in JournalAfter(s, generation, order) {
      JournalAfterHas(s, generation, order, j);
      if j in Journaled(s, generation) {
        JournalIsOfRows(s, generation, floor, j);
      }
    }
    assert JournalAfter(s, generation, order).Keys == {};
  }

  lemma {:induction false} RowIsBack(s: Cache, imports: map<int, Import>, generation: int, order: seq<int>, k: int)
    requires (forall k :: 0 <= k < |order| ==> order[k] in imports && order[k] in s.rows) && 0 <= k < |order|
    ensures s.nextRow + k in RowsAfter(s, imports, order)
    ensures RowsAfter(s, imports, order)[s.nextRow + k] == BackRow(s.rows[order[k]], imports[order[k]])
    decreases |order|
  {
    var n := |order| - 1;
    if k < n {
      RowIsBack(s, imports, generation, order[..n], k);
    }
  }

  lemma HolderIs(s: Cache, imports: map<int, Import>, generation: int, floor: int, order: seq<int>, k: int)
    requires Ready(s, generation, floor) && Recognizable(s, imports, generation) && Order(order, imports.Keys)
    requires 0 <= k < |order|
    ensures var t := Expected(s, generation, floor, imports, order);
            && HasUid(t, imports[order[k]].uid) && Holder(t, imports[order[k]].uid) == s.nextRow + k
  {
    var rows := RowsAfter(s, imports, order);
    RowIsBack(s, imports, generation, order, k);
    forall x | x in rows && rows[x].uid == imports[order[k]].uid ensures x == s.nextRow + k {
      RowHasOrigin(s, imports, order, x);
      assert order[k] in imports;
      if x >= s.nextRow {
        assert Origin(s, order, x) == order[x - s.nextRow];
        UidsDiffer(s, imports, generation, order, k, x - s.nextRow);
      } else {
        KeptUidDiffers(s, imports, generation, order[k], x);
      }
    }
    hide Ready, Recognizable, RowsAfter;
  }

  lemma KeptUidDiffers(s: Cache, imports: map<int, Import>, generation: int, id: int, x: int)
    requires Recognizable(s, imports, generation) && id in imports && x in s.rows && !Mirrored(s.rows[x])
    ensures imports[id].uid != s.rows[x].uid
  {
  }

  lemma UidsDiffer(s: Cache, imports: map<int, Import>, generation: int, order: seq<int>, k: int, l: int)
    requires Recognizable(s, imports, generation) && Order(order, imports.Keys)
    requires 0 <= k < |order| && 0 <= l < |order| && imports[order[k]].uid == imports[order[l]].uid
    ensures k == l
  {
    assert order[k] in imports && order[l] in imports;
    assert order[k] == order[l];
  }

  lemma {:induction false} KeptRowStays(s: Cache, imports: map<int, Import>, order: seq<int>, id: int)
    requires Bound(s) && forall k :: 0 <= k < |order| ==> order[k] in imports && order[k] in s.rows
    requires id in s.rows && !Mirrored(s.rows[id])
    ensures id in RowsAfter(s, imports, order) && RowsAfter(s, imports, order)[id] == s.rows[id]
    decreases |order|
  {
    if order != [] {
      KeptRowStays(s, imports, order[..|order| - 1], id);
    }
  }
}
