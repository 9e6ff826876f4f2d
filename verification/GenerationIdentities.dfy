/** Conservation of the user's state: every snooze, event, arrival, reminder and send has one home, a live message
    or a journal row, over any number of resets. */
module GenerationIdentities {

  import opened GenerationState
  import opened GenerationInvariant

  datatype Home = Live(id: int) | Journal(j: int)

  predicate IsHome(s: Cache, h: Home) {
    match h case Live(id) => id in s.rows case Journal(j) => j in s.journal
  }

  function ItemsAt(s: Cache, h: Home): map<Slot, Item>
    requires IsHome(s, h)
  {
    match h case Live(id) => s.rows[id].state.items case Journal(j) => s.journal[j].state.items
  }

  predicate Apart(a: map<Slot, Item>, b: map<Slot, Item>) {
    forall x, y :: x in a && y in b && TableOf(x) == TableOf(y) ==> a[x].id != b[y].id
  }

  /** The items of one home: no two of a table share an id, and all ids were given out. */
  predicate Proper(items: map<Slot, Item>, nextItem: int) {
    && (forall x, y :: x in items && y in items && x != y && TableOf(x) == TableOf(y) ==> items[x].id != items[y].id)
    && (forall x :: x in items ==> items[x].id < nextItem)
  }

  ghost predicate OneHome(s: Cache) {
    && (forall h :: IsHome(s, h) ==> Proper(ItemsAt(s, h), s.nextItem))
    && (forall g, h :: IsHome(s, g) && IsHome(s, h) && g != h ==> Apart(ItemsAt(s, g), ItemsAt(s, h)))
  }

  predicate Within(a: map<Slot, Item>, b: map<Slot, Item>) {
    forall x :: x in a ==> x in b && a[x].id == b[x].id
  }

  lemma FewerStayProper(a: map<Slot, Item>, b: map<Slot, Item>, nextItem: int, more: int)
    requires Within(a, b) && Proper(b, nextItem) && nextItem <= more
    ensures Proper(a, more)
  {
  }

  lemma FewerStayApart(a: map<Slot, Item>, b: map<Slot, Item>, c: map<Slot, Item>, d: map<Slot, Item>)
    requires Within(a, b) && Within(c, d) && Apart(b, d)
    ensures Apart(a, c)
  {
  }

  /** Items may go, as long as those that stay are at home. */
  lemma StayingKeepsHomes(s: Cache, t: Cache)
    requires OneHome(s) && s.nextItem <= t.nextItem
    requires forall h :: IsHome(t, h) && ItemsAt(t, h) != map[] ==> IsHome(s, h) && Within(ItemsAt(t, h), ItemsAt(s, h))
    ensures OneHome(t)
  {
    forall h | IsHome(t, h) ensures Proper(ItemsAt(t, h), t.nextItem) {
      if ItemsAt(t, h) != map[] {
        FewerStayProper(ItemsAt(t, h), ItemsAt(s, h), s.nextItem, t.nextItem);
      }
    }
    forall g, h | IsHome(t, g) && IsHome(t, h) && g != h ensures Apart(ItemsAt(t, g), ItemsAt(t, h)) {
      if ItemsAt(t, g) != map[] && ItemsAt(t, h) != map[] {
        FewerStayApart(ItemsAt(t, g), ItemsAt(s, g), ItemsAt(t, h), ItemsAt(s, h));
      }
    }
  }

  // ----- resets -----

  /** Where an item was before a snapshot put it into the journal. */
  function Before(s: Cache, h: Home): Home {
    if h.Journal? && h.j >= s.nextSaved then Live(h.j - s.nextSaved) else h
  }

  lemma ItemsComeFrom(s: Cache, generation: int, floor: int, h: Home)
    requires Bound(s) && Journals(s) && generation > 0 && NeedsReset(s, generation) && floor > 0
    requires IsHome(Reset(s, generation, floor), h)
    ensures IsHome(s, Before(s, h)) && Within(ItemsAt(Reset(s, generation, floor), h), ItemsAt(s, Before(s, h)))
    ensures h.Live? ==> h.id in s.rows && !Mirrored(s.rows[h.id])
    ensures h.Journal? && h.j >= s.nextSaved ==> h.j - s.nextSaved in s.rows && Mirrored(s.rows[h.j - s.nextSaved])
  {
    hide NeedsReset;
    if h.Journal? {
      JournaledRow(s, generation, h.j);
    }
    hide Journaled;
  }

  lemma ResetKeepsHomes(s: Cache, generation: int, floor: int)
    requires OneHome(s) && Bound(s) && Journals(s)
    ensures OneHome(Reset(s, generation, floor))
  {
    var t := Reset(s, generation, floor);
    if generation > 0 && NeedsReset(s, generation) && floor > 0 {
      assert t.nextItem == s.nextItem;
      hide Reset, ItemsAt, Bound, Journals, NeedsReset, Within, Proper, Apart;
      forall h | IsHome(t, h) ensures Proper(ItemsAt(t, h), t.nextItem) {
        ItemsComeFrom(s, generation, floor, h);
        FewerStayProper(ItemsAt(t, h), ItemsAt(s, Before(s, h)), s.nextItem, t.nextItem);
      }
      forall g, h | IsHome(t, g) && IsHome(t, h) && g != h ensures Apart(ItemsAt(t, g), ItemsAt(t, h)) {
        ItemsComeFrom(s, generation, floor, g);
        ItemsComeFrom(s, generation, floor, h);
        FewerStayApart(ItemsAt(t, g), ItemsAt(s, Before(s, g)), ItemsAt(t, h), ItemsAt(s, Before(s, h)));
      }
    } else {
      StayingKeepsHomes(s, t);
    }
  }

  // ----- restoring -----

  lemma MergeKeepsHomes(s: Cache, t: Cache, id: int, j: int)
    requires OneHome(s) && id in s.rows && j in s.journal && t.nextItem == s.nextItem
    requires id in t.rows && t.rows.Keys == s.rows.Keys && t.journal == s.journal - {j}
    requires forall other :: other in s.rows && other != id ==> t.rows[other] == s.rows[other]
    requires t.rows[id].state.items == s.rows[id].state.items + s.journal[j].state.items
    ensures OneHome(t)
  {
    var a, b := s.rows[id].state.items, s.journal[j].state.items;
    HomesAreApart(s, Live(id), Journal(j));
    MergedIsProper(a, b, s.nextItem);
    forall h | IsHome(t, h) && h != Live(id)
      ensures IsHome(s, h) && ItemsAt(t, h) == ItemsAt(s, h) && Proper(ItemsAt(s, h), s.nextItem)
      ensures Apart(ItemsAt(s, h), a + b) && Apart(a + b, ItemsAt(s, h))
    {
      assert IsHome(s, h) && h != Journal(j);
      HomesAreApart(s, h, Live(id));
      HomesAreApart(s, h, Journal(j));
      MergedIsApart(a, b, ItemsAt(s, h));
    }
    forall g, h | IsHome(t, g) && IsHome(t, h) && g != h ensures Apart(ItemsAt(t, g), ItemsAt(t, h)) {
      if g != Live(id) && h != Live(id) {
        HomesAreApart(s, g, h);
      }
    }
    hide Apart, Proper;
  }

  lemma HomesAreApart(s: Cache, g: Home, h: Home)
    requires OneHome(s) && IsHome(s, g) && IsHome(s, h) && g != h
    ensures Apart(ItemsAt(s, g), ItemsAt(s, h)) && Apart(ItemsAt(s, h), ItemsAt(s, g))
    ensures Proper(ItemsAt(s, g), s.nextItem) && Proper(ItemsAt(s, h), s.nextItem)
  {
  }

  lemma MergedIsApart(a: map<Slot, Item>, b: map<Slot, Item>, c: map<Slot, Item>)
    requires Apart(a, c) && Apart(b, c) && Apart(c, a) && Apart(c, b)
    ensures Apart(a + b, c) && Apart(c, a + b)
  {
  }

  lemma MergedIsProper(a: map<Slot, Item>, b: map<Slot, Item>, nextItem: int)
    requires Proper(a, nextItem) && Proper(b, nextItem) && Apart(a, b) && Apart(b, a)
    ensures Proper(a + b, nextItem)
  {
  }

  lemma RestoreKeepsHomes(s: Cache, id: int, i: Import)
    requires OneHome(s) && id in s.rows && (forall j :: j in s.journal ==> j > 0) && Restore(s, id, i).Some?
    ensures OneHome(Restore(s, id, i).value)
  {
    RestoreTouchesOneRow(s, id, i);
    var t := Restore(s, id, i).value;
    if MatchSaved(s.journal, i) in s.journal {
      hide Restore, MatchSaved, OneHome;
      MergeKeepsHomes(s, t, id, MatchSaved(s.journal, i));
    }
  }

  lemma CreateKeepsHomes(s: Cache, i: Import)
    requires OneHome(s) && Journals(s)
    ensures OneHome(Create(s, i))
  {
    hide Restore, HasUid;
    if i.generation > 0 && s.uidValidity == i.generation {
      if HasUid(s, i.uid) {
        var id := Holder(s, i.uid);
        var t := s.(rows := s.rows[id := Refresh(s.rows[id], i)]);
        StayingKeepsHomes(s, t);
        hide OneHome;
        if Restore(t, id, i).Some? {
          RestoreKeepsHomes(t, id, i);
        }
      } else {
        InsertsNext(s, i);
        InsertKeepsHomes(s, i);
        hide OneHome;
        if Restore(Insert(s, i), s.nextRow, i).Some? {
          RestoreKeepsHomes(Insert(s, i), s.nextRow, i);
        }
      }
    }
  }

  lemma InsertKeepsHomes(s: Cache, i: Import)
    requires OneHome(s)
    ensures OneHome(Insert(s, i)) && Insert(s, i).journal == s.journal
  {
    StayingKeepsHomes(s, Insert(s, i));
  }

  // ----- changes by the user -----

  lemma ChangeKeepsHomes(s: Cache, id: int, state: State, nextItem: int)
    requires OneHome(s)
    ensures OneHome(Change(s, id, state, nextItem))
  {
    var t := Change(s, id, state, nextItem);
    if MayChange(s, id, state) && t.rows == s.rows[id := s.rows[id].(state := state)] && t.nextItem == nextItem {
      var a := s.rows[id].state.items;
      assert IsHome(s, Live(id)) && ItemsAt(s, Live(id)) == a;
      forall h | IsHome(t, h) && h != Live(id)
        ensures IsHome(s, h) && ItemsAt(t, h) == ItemsAt(s, h)
        ensures Proper(ItemsAt(s, h), t.nextItem)
        ensures Apart(ItemsAt(s, h), state.items) && Apart(state.items, ItemsAt(s, h))
      {
        assert Apart(ItemsAt(s, h), a) && Apart(a, ItemsAt(s, h)) && Proper(ItemsAt(s, h), s.nextItem);
      }
    }
  }

  lemma StepKeepsHomes(s: Cache, step: Step)
    requires OneHome(s) && Bound(s) && Journals(s)
    ensures OneHome(Apply(s, step))
  {
    match step
    case WasReset(generation, floor) => ResetKeepsHomes(s, generation, floor);
    case Created(i) => CreateKeepsHomes(s, i);
    case Changed(id, state, nextItem) => ChangeKeepsHomes(s, id, state, nextItem);
    case _ => StayingKeepsHomes(s, Apply(s, step));
  }

  /** Over any number of resets and restores, in any order, nothing the user has on a message is ever on two live
      messages, or on one and in the journal as well. */
  lemma {:induction false} NothingIsAttachedTwice(steps: seq<Step>)
    ensures OneHome(Execute(Fresh(), steps))
  {
    if steps != [] {
      NothingIsAttachedTwice(steps[..|steps| - 1]);
      RunStaysBound(steps[..|steps| - 1]);
      StepKeepsHomes(Execute(Fresh(), steps[..|steps| - 1]), steps[|steps| - 1]);
    }
  }

  // ----- snoozed threads -----

  /** A thread is snoozed at most once, as the schema's UNIQUE constraint has it. */
  ghost predicate ThreadsOnce(s: Cache) {
    && (forall a, b :: a in s.rows && b in s.rows && a != b && SnoozeSlot in s.rows[a].state.items
          ==> !SnoozedFor(s.rows[b].state, s.rows[a].state.items[SnoozeSlot].thread))
    && (forall a :: a in s.rows && SnoozeSlot in s.rows[a].state.items
          ==> s.rows[a].state.items[SnoozeSlot].thread !in s.elsewhere)
  }

  lemma FewerThreads(s: Cache, t: Cache)
    requires ThreadsOnce(s) && t.elsewhere == s.elsewhere
    requires forall a :: a in t.rows && SnoozeSlot in t.rows[a].state.items ==>
               a in s.rows && SnoozeSlot in s.rows[a].state.items
               && s.rows[a].state.items[SnoozeSlot].thread == t.rows[a].state.items[SnoozeSlot].thread
    ensures ThreadsOnce(t)
  {
  }

  lemma CreateKeepsThreads(s: Cache, i: Import)
    requires ThreadsOnce(s) && Journals(s)
    ensures ThreadsOnce(Create(s, i))
  {
    hide HasUid, Restore, ThreadsOnce, SnoozedFor;
    if i.generation > 0 && s.uidValidity == i.generation {
      if HasUid(s, i.uid) {
        var id := Holder(s, i.uid);
        var t := s.(rows := s.rows[id := Refresh(s.rows[id], i)]);
        FewerThreads(s, t);
        if Restore(t, id, i).Some? {
          RestoreKeepsThreads(t, id, i);
        }
      } else {
        InsertsNext(s, i);
        FewerThreads(s, Insert(s, i));
        if Restore(Insert(s, i), s.nextRow, i).Some? {
          RestoreKeepsThreads(Insert(s, i), s.nextRow, i);
        }
      }
    }
  }

  lemma RestoreKeepsThreads(s: Cache, id: int, i: Import)
    requires ThreadsOnce(s) && id in s.rows && (forall j :: j in s.journal ==> j > 0) && Restore(s, id, i).Some?
    ensures ThreadsOnce(Restore(s, id, i).value)
  {
    RestoreTouchesOneRow(s, id, i);
    var t := Restore(s, id, i).value;
    var j := MatchSaved(s.journal, i);
    if j in s.journal {
      assert Insertable(s.rows, s.elsewhere, id, s.journal[j].state);
      hide MatchSaved, Restore;
    }
  }

  lemma {:induction false} ThreadsAreSnoozedOnce(steps: seq<Step>)
    ensures ThreadsOnce(Execute(Fresh(), steps))
  {
    if steps != [] {
      var before, last := steps[..|steps| - 1], steps[|steps| - 1];
      ThreadsAreSnoozedOnce(before);
      RunStaysBound(before);
      StepKeepsThreads(Execute(Fresh(), before), last);
    }
  }

  lemma StepKeepsThreads(s: Cache, step: Step)
    requires ThreadsOnce(s) && Journals(s)
    ensures ThreadsOnce(Apply(s, step))
  {
    hide Create, Journaled;
    match step
    case Created(i) => CreateKeepsThreads(s, i);
    case Changed(id, state, nextItem) =>
    case SnoozedElsewhere(threads) =>
    case _ => FewerThreads(s, Apply(s, step));
  }

  // ----- when an import fails -----

  /** The tables refuse what the journal holds for the message: a snooze of a thread that is snoozed already, or, for a
      message that is there, anything in a place that is taken. */
  ghost predicate Clashes(s: Cache, i: Import) {
    var j := MatchSaved(s.journal, i);
    && j in s.journal
    && var items := s.journal[j].state.items;
    || (SnoozeSlot in items && !ThreadIsFree(s.rows, s.elsewhere, items[SnoozeSlot].thread))
    || (HasUid(s, i.uid) && exists slot :: slot in items && slot in s.rows[Holder(s, i.uid)].state.items)
  }

  /** A message fetched under a generation is stored, except in three cases: the mailbox is of another one, the UID is of
      a row of another one, or the tables refuse what the journal holds for it; then it is not stored at all. */
  lemma ImportIsRefused(s: Cache, i: Import)
    requires OneHome(s) && Bound(s) && Journals(s) && i.generation > 0
    ensures Storing(s, i).None? <==>
              || s.uidValidity != i.generation
              || (HasUid(s, i.uid) && s.rows[Holder(s, i.uid)].generation != i.generation)
              || Clashes(s, i)
  {
    hide OneHome, Bound, Journals, MatchSaved, Insertable, ThreadIsFree;
    if s.uidValidity == i.generation {
      if HasUid(s, i.uid) {
        KnownIsRefused(s, i, Holder(s, i.uid));
      } else {
        NewIsRefused(s, i);
      }
    }
  }

  lemma NewIsRefused(s: Cache, i: Import)
    requires OneHome(s) && Bound(s) && Journals(s) && i.generation > 0
    ensures var j := MatchSaved(s.journal, i);
            s.nextRow in Insert(s, i).rows &&
            (Restore(Insert(s, i), s.nextRow, i).None? <==>
             && j in s.journal && SnoozeSlot in s.journal[j].state.items
             && !ThreadIsFree(s.rows, s.elsewhere, s.journal[j].state.items[SnoozeSlot].thread))
  {
    var j, t := MatchSaved(s.journal, i), Insert(s, i);
    if j in s.journal {
      var saved := s.journal[j].state;
      SavedIsUnused(s, i, j);
      assert t.rows == s.rows[s.nextRow := t.rows[s.nextRow]] && t.rows[s.nextRow].state.items == map[];
      if SnoozeSlot in saved.items {
        BlankRowSnoozesNothing(s, i, saved.items[SnoozeSlot].thread);
      }
    }
    hide OneHome, Bound, Journals, HasUid, MatchSaved;
  }

  lemma KnownIsRefused(s: Cache, i: Import, id: int)
    requires OneHome(s) && id in s.rows
    ensures var j := MatchSaved(s.journal, i);
            Restore(s.(rows := s.rows[id := Refresh(s.rows[id], i)]), id, i).None? <==>
            && j in s.journal
            && ((exists slot :: slot in s.journal[j].state.items && slot in s.rows[id].state.items)
                || (SnoozeSlot in s.journal[j].state.items
                    && !ThreadIsFree(s.rows, s.elsewhere, s.journal[j].state.items[SnoozeSlot].thread)))
  {
    var j, rows := MatchSaved(s.journal, i), s.rows[id := Refresh(s.rows[id], i)];
    if j in s.journal {
      var items := s.journal[j].state.items;
      assert forall other :: other in rows ==> other in s.rows && rows[other].state == s.rows[other].state;
      assert forall thread :: ThreadIsFree(rows, s.elsewhere, thread) <==> ThreadIsFree(s.rows, s.elsewhere, thread);
      forall slot, other | slot in items && other in rows ensures !Uses(rows[other].state, TableOf(slot), items[slot].id) {
        HomesAreApart(s, Live(other), Journal(j));
      }
    }
    hide OneHome, MatchSaved;
  }

  lemma SavedIsUnused(s: Cache, i: Import, j: int)
    requires OneHome(s) && Bound(s) && j in s.journal
    ensures var items, rows := s.journal[j].state.items, Insert(s, i).rows;
            forall slot, other :: slot in items && other in rows ==>
              !Uses(rows[other].state, TableOf(slot), items[slot].id)
  {
    var items, rows := s.journal[j].state.items, Insert(s, i).rows;
    forall slot, other | slot in items && other in rows ensures !Uses(rows[other].state, TableOf(slot), items[slot].id) {
      if other != s.nextRow {
        HomesAreApart(s, Live(other), Journal(j));
      }
    }
  }

  lemma BlankRowSnoozesNothing(s: Cache, i: Import, thread: int)
    requires Bound(s)
    ensures ThreadIsFree(Insert(s, i).rows, s.elsewhere, thread) <==> ThreadIsFree(s.rows, s.elsewhere, thread)
  {
    var rows := Insert(s, i).rows;
    assert s.nextRow !in s.rows;
    forall other | other in s.rows ensures rows[other] == s.rows[other] {
    }
  }
}
