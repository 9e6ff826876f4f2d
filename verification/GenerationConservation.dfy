/**
 Conservation of the user's state over any number of resets, interrupted or not: whatever a message was owed when its
 UIDs changed is still owed, in its row or in the journal, until a step that is about that very message.
 */
module GenerationConservation {

  import opened GenerationInvariant
  import opened GenerationRoundTrip
  import opened GenerationState
  import opened LedgerState

  /** What of a message's state has to survive: flag changes the server has not seen, and the items worth keeping. */
  function Essence(state: State): State {
    State(state.readPending && state.isRead, state.readPending, state.starPending && state.isStarred, state.starPending,
          KeptItems(state.items))
  }

  const NOTHING := State(false, false, false, false, map[])

  predicate IsOf(s: Cache, id: int, k: Fingerprint) {
    id in s.rows && Mirrored(s.rows[id]) && s.rows[id].keys == k
  }

  predicate SavedFor(s: Cache, j: int, k: Fingerprint) {
    j in s.journal && s.journal[j].keys == k
  }

  /** What the message with these keys is owed, wherever it is. */
  ghost function Owed(s: Cache, k: Fingerprint): State {
    if exists id :: IsOf(s, id, k) then
      var id :| IsOf(s, id, k);
      Essence(s.rows[id].state)
    else if exists j :: SavedFor(s, j, k) then
      var j :| SavedFor(s, j, k);
      Essence(s.journal[j].state)
    else NOTHING
  }

  /** Keys that tell the messages of a mailbox apart. */
  ghost predicate Telling(keys: set<Fingerprint>) {
    forall a, b :: a in keys && b in keys ==> (Matches(a, b) <==> a == b)
  }

  /** Each message is in one place, live or journaled. */
  ghost predicate Once(s: Cache, keys: set<Fingerprint>) {
    && (forall id :: id in s.rows && Mirrored(s.rows[id]) ==> s.rows[id].keys in keys)
    && (forall j :: j in s.journal ==> s.journal[j].keys in keys)
    && (forall a, b ::
          a in s.rows && b in s.rows && Mirrored(s.rows[a]) && Mirrored(s.rows[b]) && s.rows[a].keys == s.rows[b].keys
          ==> a == b)
    && (forall i, j :: i in s.journal && j in s.journal && s.journal[i].keys == s.journal[j].keys ==> i == j)
    && (forall id, j :: id in s.rows && Mirrored(s.rows[id]) && j in s.journal ==> s.rows[id].keys != s.journal[j].keys)
    && (forall j :: j in s.journal ==> AllKept(s.journal[j].state.items))
  }

  predicate AllKept(items: map<Slot, Item>) {
    forall slot :: slot in items ==> Kept(slot, items[slot])
  }

  lemma OwedIs(s: Cache, keys: set<Fingerprint>, k: Fingerprint)
    requires Once(s, keys)
    ensures forall id :: IsOf(s, id, k) ==> Owed(s, k) == Essence(s.rows[id].state)
    ensures forall j :: SavedFor(s, j, k) ==> Owed(s, k) == Essence(s.journal[j].state)
    ensures (forall id :: !IsOf(s, id, k)) && (forall j :: !SavedFor(s, j, k)) ==> Owed(s, k) == NOTHING
  {
    hide Essence, Mirrored;
  }

  // ----- states -----

  lemma KeptTwice(items: map<Slot, Item>)
    ensures AllKept(KeptItems(items)) && (AllKept(items) ==> KeptItems(items) == items)
  {
  }

  lemma SavedIsEssential(id: int, row: Row, target: int)
    ensures Essence(Save(id, row, target).state) == Essence(row.state)
    ensures AllKept(Save(id, row, target).state.items) && Save(id, row, target).keys == row.keys
  {
    KeptTwice(row.state.items);
    KeptTwice(KeptItems(row.state.items));
  }

  lemma NotWorthKeepingIsNothing(state: State)
    requires !WorthKeeping(state)
    ensures Essence(state) == NOTHING
  {
  }

  lemma ReattachedIsEssential(state: State, saved: State)
    requires !state.readPending && !state.starPending && state.items == map[] && AllKept(saved.items)
    ensures Essence(Reattach(state, saved)) == Essence(saved)
  {
    assert state.items + saved.items == saved.items;
  }

  // ----- resets -----

  lemma SavedByReset(s: Cache, target: int, k: Fingerprint, j: int)
    requires Bound(s) && Journals(s) && j in Journaled(s, target) && Journaled(s, target)[j].keys == k
    ensures AllKept(Journaled(s, target)[j].state.items) || SavedFor(s, j, k)
    ensures if j < s.nextSaved then SavedFor(s, j, k) && Journaled(s, target)[j].state == s.journal[j].state
            else IsOf(s, j - s.nextSaved, k) && WorthKeeping(s.rows[j - s.nextSaved].state)
                 && AllKept(Journaled(s, target)[j].state.items)
                 && Essence(Journaled(s, target)[j].state) == Essence(s.rows[j - s.nextSaved].state)
  {
    JournaledRow(s, target, j);
    if j >= s.nextSaved {
      SavedIsEssential(j - s.nextSaved, s.rows[j - s.nextSaved], target);
    }
    hide Journaled, WorthKeeping, Essence, AllKept, Save;
  }

  ghost predicate JournaledOnce(journal: map<int, Saved>, keys: set<Fingerprint>) {
    && (forall j :: j in journal ==> journal[j].keys in keys && AllKept(journal[j].state.items))
    && (forall i, j :: i in journal && j in journal && journal[i].keys == journal[j].keys ==> i == j)
  }

  lemma SnapshotIsOnce(s: Cache, keys: set<Fingerprint>, target: int)
    requires Bound(s) && Journals(s) && Once(s, keys)
    ensures JournaledOnce(Journaled(s, target), keys)
  {
    hide Journaled, Bound, Journals, WorthKeeping, Essence, AllKept, Save;
    var journal := Journaled(s, target);
    forall j | j in journal ensures journal[j].keys in keys && AllKept(journal[j].state.items) {
      SavedByReset(s, target, journal[j].keys, j);
    }
    forall i, j | i in journal && j in journal && journal[i].keys == journal[j].keys ensures i == j {
      SavedByReset(s, target, journal[j].keys, i);
      SavedByReset(s, target, journal[j].keys, j);
    }
  }

  /** A reset leaves everything as it was, or takes the snapshot and clears the mirrored rows. */
  lemma ResetOrNot(s: Cache, generation: int, floor: int)
    requires Bound(s)
    ensures var t := Reset(s, generation, floor);
            || (t.rows == s.rows && t.journal == s.journal)
            || (t.rows == s.rows - MirroredIds(s) && t.journal == Journaled(s, generation)
                && forall id :: id in t.rows ==> !Mirrored(t.rows[id]))
  {
    hide NeedsReset, Journaled, Mark;
  }

  lemma ResetKeepsOnce(s: Cache, keys: set<Fingerprint>, generation: int, floor: int)
    requires Bound(s) && Journals(s) && Once(s, keys)
    ensures Once(Reset(s, generation, floor), keys)
  {
    hide Journaled, Reset, MirroredIds, AllKept, Bound, Journals;
    ResetOrNot(s, generation, floor);
    SnapshotIsOnce(s, keys, generation);
  }

  /** A reset changes what nobody is owed. */
  lemma ResetOwes(s: Cache, keys: set<Fingerprint>, generation: int, floor: int, k: Fingerprint)
    requires Bound(s) && Journals(s) && Once(s, keys)
    ensures Owed(Reset(s, generation, floor), k) == Owed(s, k)
  {
    hide Journaled, Reset, MirroredIds, Bound, Journals, Once, Owed, Essence;
    var t := Reset(s, generation, floor);
    OwedIs(s, keys, k);
    ResetKeepsOnce(s, keys, generation, floor);
    OwedIs(t, keys, k);
    ResetOrNot(s, generation, floor);
    SnapshotOwes(s, keys, generation, k);
    NotSnapshotIsNothing(s, keys, generation, k);
    if t.rows == s.rows && t.journal == s.journal {
      assert forall id :: IsOf(t, id, k) <==> IsOf(s, id, k);
      assert forall j :: SavedFor(t, j, k) <==> SavedFor(s, j, k);
    }
  }

  lemma SnapshotOwes(s: Cache, keys: set<Fingerprint>, target: int, k: Fingerprint)
    requires Bound(s) && Journals(s) && Once(s, keys)
    ensures var journal := Journaled(s, target);
            forall j :: j in journal && journal[j].keys == k ==> Essence(journal[j].state) == Owed(s, k)
  {
    hide Journaled, Bound, Journals, Once, Owed, Essence, WorthKeeping;
    OwedIs(s, keys, k);
    var journal := Journaled(s, target);
    forall j | j in journal && journal[j].keys == k ensures Essence(journal[j].state) == Owed(s, k) {
      SavedByReset(s, target, k, j);
    }
  }

  lemma NotSnapshotIsNothing(s: Cache, keys: set<Fingerprint>, target: int, k: Fingerprint)
    requires Bound(s) && Journals(s) && Once(s, keys)
    ensures (forall j :: j in Journaled(s, target) ==> Journaled(s, target)[j].keys != k) ==> Owed(s, k) == NOTHING
  {
    hide Bound, Once, Owed, Essence, WorthKeeping;
    OwedIs(s, keys, k);
    var journal := Journaled(s, target);
    if forall j :: j in journal ==> journal[j].keys != k {
      forall j ensures !SavedFor(s, j, k) {
        assert j in s.journal ==> j in journal && journal[j].keys == s.journal[j].keys;
      }
      forall id | IsOf(s, id, k) ensures Essence(s.rows[id].state) == NOTHING {
        if WorthKeeping(s.rows[id].state) {
          WorthKeepingIsSnapshot(s, target, id);
        } else {
          NotWorthKeepingIsNothing(s.rows[id].state);
        }
      }
    }
  }

  lemma WorthKeepingIsSnapshot(s: Cache, target: int, id: int)
    requires Bound(s) && Journals(s) && id in s.rows && Mirrored(s.rows[id]) && WorthKeeping(s.rows[id].state)
    ensures s.nextSaved + id in Journaled(s, target)
    ensures Journaled(s, target)[s.nextSaved + id].keys == s.rows[id].keys
  {
    hide WorthKeeping;
  }

  // ----- imports -----

  /** The server lists each message once, under one UID of the present generation. */
  ghost predicate Genuine(s: Cache, i: Import, keys: set<Fingerprint>) {
    && i.keys in keys
    && (forall id :: id in s.rows && s.rows[id].uid == i.uid ==> IsOf(s, id, i.keys))
    && (forall id :: IsOf(s, id, i.keys) ==> s.rows[id].uid == i.uid)
  }

  /** The journal row that is found is the message's own. */
  lemma MatchIsItsOwn(s: Cache, keys: set<Fingerprint>, i: Import)
    requires Journals(s) && Once(s, keys) && Telling(keys) && i.keys in keys && i.generation == s.uidValidity
    ensures forall j :: SavedFor(s, j, i.keys) <==> j in s.journal && j == MatchSaved(s.journal, i)
  {
    MatchedIsJournaled(s, i);
    forall j | SavedFor(s, j, i.keys) ensures j == MatchSaved(s.journal, i) {
      OnlyOneMatches(s.journal, i, j);
    }
  }

  /** A message comes back as row n, with what was journaled for it. */
  ghost predicate ComesBack(s: Cache, t: Cache, n: int, k: Fingerprint) {
    && n !in s.rows && IsOf(t, n, k) && (forall id :: !IsOf(s, id, k)) && t.rows == s.rows[n := t.rows[n]]
    && (forall j :: j in t.journal <==> j in s.journal && !SavedFor(s, j, k))
    && (forall j :: j in t.journal ==> t.journal[j] == s.journal[j])
    && Essence(t.rows[n].state) == Owed(s, k)
  }

  lemma ComingBackKeepsOnce(s: Cache, t: Cache, keys: set<Fingerprint>, n: int, k: Fingerprint)
    requires Once(s, keys) && k in keys && ComesBack(s, t, n, k)
    ensures Once(t, keys)
  {
    hide Essence, Owed, AllKept, Mirrored;
    assert forall id :: id in t.rows && id != n ==> id in s.rows && t.rows[id] == s.rows[id];
    assert forall id :: id in s.rows && !IsOf(s, id, k) && Mirrored(s.rows[id]) ==> s.rows[id].keys != k;
    assert forall j :: j in s.journal && !SavedFor(s, j, k) ==> s.journal[j].keys != k;
  }

  lemma ComingBackOwes(s: Cache, t: Cache, keys: set<Fingerprint>, n: int, k: Fingerprint, other: Fingerprint)
    requires Once(s, keys) && k in keys && ComesBack(s, t, n, k)
    ensures Owed(t, other) == Owed(s, other)
  {
    ComingBackKeepsOnce(s, t, keys, n, k);
    OwedIs(s, keys, other);
    OwedIs(t, keys, other);
    hide Essence, Owed, Once, Mirrored;
    if other != k {
      assert forall id :: IsOf(t, id, other) <==> IsOf(s, id, other);
      assert forall j :: SavedFor(t, j, other) <==> SavedFor(s, j, other);
    }
  }

  lemma NewMessageComesBack(s: Cache, keys: set<Fingerprint>, i: Import)
    requires Bound(s) && Journals(s) && Once(s, keys) && Telling(keys) && Genuine(s, i, keys)
    requires i.generation == s.uidValidity && !HasUid(s, i.uid) && Restore(Insert(s, i), s.nextRow, i).Some?
    ensures ComesBack(s, Restore(Insert(s, i), s.nextRow, i).value, s.nextRow, i.keys)
  {
    hide Bound, Once, Telling, Owed, Essence, Insertable, MatchSaved, Reattach, Journals, Restore;
    var u, n := Insert(s, i), s.nextRow;
    RestoresNewRow(s, i);
    var t := Restore(u, n, i).value;
    assert u.journal == s.journal && u.rows == s.rows[n := u.rows[n]];
    assert t.rows == s.rows[n := t.rows[n]] && IsOf(t, n, i.keys);
    MatchIsItsOwn(s, keys, i);
    OwedIs(s, keys, i.keys);
    JournalIsKept(s, keys);
    UnknownIsGone(s, i, keys);
    var j := MatchSaved(s.journal, i);
    NewRowIsEssential(i, u.rows[n].state);
    if j in s.journal {
      assert SavedFor(s, j, i.keys);
      ReattachedIsEssential(u.rows[n].state, s.journal[j].state);
    }
  }

  lemma UnknownIsGone(s: Cache, i: Import, keys: set<Fingerprint>)
    requires Genuine(s, i, keys)
    ensures !HasUid(s, i.uid) ==> forall id :: !IsOf(s, id, i.keys)
  {
  }

  lemma JournalIsKept(s: Cache, keys: set<Fingerprint>)
    requires Once(s, keys)
    ensures forall j :: j in s.journal ==> AllKept(s.journal[j].state.items)
  {
  }

  lemma RestoresNewRow(s: Cache, i: Import)
    requires Bound(s) && Journals(s) && Restore(Insert(s, i), s.nextRow, i).Some?
    ensures var u, n := Insert(s, i), s.nextRow;
            var t := Restore(u, n, i).value;
            && n !in s.rows && n in t.rows && t.rows == u.rows[n := u.rows[n].(state := t.rows[n].state)]
            && (var j := MatchSaved(s.journal, i);
                if j in s.journal then
                  t.journal == s.journal - {j} && t.rows[n].state == Reattach(u.rows[n].state, s.journal[j].state)
                else t == u)
  {
    hide Restore, MatchSaved, Reattach;
    RestoreTouchesOneRow(Insert(s, i), s.nextRow, i);
  }

  lemma NewRowIsEssential(i: Import, state: State)
    requires state == State(i.isRead, false, i.isStarred, false, map[])
    ensures Essence(state) == NOTHING
  {
  }

  /** Fetching a message that is there already changes nothing it is owed. */
  lemma KnownMessageStays(s: Cache, keys: set<Fingerprint>, i: Import, id: int)
    requires Bound(s) && Journals(s) && Once(s, keys) && Telling(keys) && Genuine(s, i, keys)
    requires i.generation == s.uidValidity && id in s.rows && s.rows[id].uid == i.uid
    requires Restore(s.(rows := s.rows[id := Refresh(s.rows[id], i)]), id, i).Some?
    ensures var t := Restore(s.(rows := s.rows[id := Refresh(s.rows[id], i)]), id, i).value;
            && t.journal == s.journal && t.rows.Keys == s.rows.Keys
            && t.rows == s.rows[id := t.rows[id]] && IsOf(t, id, i.keys) && t.rows[id].state == s.rows[id].state
  {
    hide Bound, Telling, Insertable, MatchSaved, Reattach, Journals, Restore, AllKept;
    var u := s.(rows := s.rows[id := Refresh(s.rows[id], i)]);
    assert IsOf(s, id, i.keys);
    MatchIsItsOwn(s, keys, i);
    NotMatchedWhenLive(s, keys, i, id);
    RestoresNothing(u, id, i);
  }

  lemma NotMatchedWhenLive(s: Cache, keys: set<Fingerprint>, i: Import, id: int)
    requires Once(s, keys) && IsOf(s, id, i.keys)
    requires forall j :: SavedFor(s, j, i.keys) <==> j in s.journal && j == MatchSaved(s.journal, i)
    ensures MatchSaved(s.journal, i) !in s.journal
  {
    hide MatchSaved, AllKept;
    forall j ensures !SavedFor(s, j, i.keys) {
    }
  }

  lemma RestoresNothing(s: Cache, id: int, i: Import)
    requires id in s.rows && MatchSaved(s.journal, i) !in s.journal
    ensures Restore(s, id, i) == Some(s)
  {
    hide MatchSaved;
  }

  /** Apart from resets and imports, steps neither bring messages nor move them. */
  ghost predicate NoNewHomes(s: Cache, t: Cache) {
    && (forall id :: id in t.rows && Mirrored(t.rows[id]) ==>
          id in s.rows && Mirrored(s.rows[id]) && t.rows[id].keys == s.rows[id].keys)
    && (forall j :: j in t.journal ==> j in s.journal && t.journal[j].keys == s.journal[j].keys)
    && (forall j :: j in t.journal && AllKept(s.journal[j].state.items) ==> AllKept(t.journal[j].state.items))
  }

  lemma NoNewHomesKeepsOnce(s: Cache, t: Cache, keys: set<Fingerprint>)
    requires Once(s, keys) && NoNewHomes(s, t)
    ensures Once(t, keys)
  {
    hide AllKept, Mirrored;
  }

  /** The step leaves the message with these keys as it is. */
  ghost predicate Spares(s: Cache, t: Cache, k: Fingerprint) {
    && (forall id :: IsOf(s, id, k) ==> IsOf(t, id, k) && Essence(t.rows[id].state) == Essence(s.rows[id].state))
    && (forall j :: SavedFor(s, j, k) ==> SavedFor(t, j, k) && Essence(t.journal[j].state) == Essence(s.journal[j].state))
  }

  lemma SparedIsOwed(s: Cache, t: Cache, keys: set<Fingerprint>, k: Fingerprint)
    requires Once(s, keys) && NoNewHomes(s, t) && Spares(s, t, k)
    ensures Owed(t, k) == Owed(s, k)
  {
    NoNewHomesKeepsOnce(s, t, keys);
    OwedIs(s, keys, k);
    OwedIs(t, keys, k);
    hide Once, Owed, Essence, AllKept, Mirrored;
    assert forall id :: IsOf(t, id, k) ==> IsOf(s, id, k) by {
      assert forall id :: IsOf(t, id, k) ==> id in t.rows && Mirrored(t.rows[id]);
    }
    assert forall j :: SavedFor(t, j, k) ==> SavedFor(s, j, k);
  }

  lemma StateUntouched(s: Cache, t: Cache, id: int, i: Import)
    requires IsOf(s, id, i.keys) && IsOf(t, id, i.keys) && t.rows == s.rows[id := t.rows[id]]
    requires t.journal == s.journal && t.rows[id].state == s.rows[id].state
    ensures NoNewHomes(s, t) && forall k :: Spares(s, t, k)
  {
    hide Essence, AllKept;
    assert forall x :: x in t.rows ==> x in s.rows && t.rows[x].keys == s.rows[x].keys && t.rows[x].state == s.rows[x].state;
  }

  /** An import, stored or not, changes what nobody is owed. */
  lemma CreateOwes(s: Cache, keys: set<Fingerprint>, i: Import, k: Fingerprint)
    requires Bound(s) && Journals(s) && Once(s, keys) && Telling(keys)
    requires i.generation == s.uidValidity ==> Genuine(s, i, keys)
    ensures Once(Create(s, i), keys) && Owed(Create(s, i), k) == Owed(s, k)
  {
    hide Bound, Journals, Once, Telling, Genuine, Owed, Restore, ComesBack, Refresh, Insert;
    if i.generation > 0 && i.generation == s.uidValidity {
      if !HasUid(s, i.uid) {
        InsertsNext(s, i);
        GenuineIsListed(s, keys, i);
        if Restore(Insert(s, i), s.nextRow, i).Some? {
          NewMessageComesBack(s, keys, i);
          ComingBackKeepsOnce(s, Create(s, i), keys, s.nextRow, i.keys);
          ComingBackOwes(s, Create(s, i), keys, s.nextRow, i.keys, k);
        }
      } else {
        var id := Holder(s, i.uid);
        if Create(s, i) != s {
          KnownMessageStays(s, keys, i, id);
          HolderIsIt(s, keys, i, id);
          StateUntouched(s, Create(s, i), id, i);
          NoNewHomesKeepsOnce(s, Create(s, i), keys);
          SparedIsOwed(s, Create(s, i), keys, k);
        }
      }
    }
  }

  lemma GenuineIsListed(s: Cache, keys: set<Fingerprint>, i: Import)
    requires Genuine(s, i, keys)
    ensures i.keys in keys
  {
  }

  lemma HolderIsIt(s: Cache, keys: set<Fingerprint>, i: Import, id: int)
    requires Genuine(s, i, keys) && id in s.rows && s.rows[id].uid == i.uid
    ensures IsOf(s, id, i.keys) && i.keys in keys
  {
  }

  lemma RestBringsNothing(s: Cache, step: Step)
    requires Bound(s) && !step.WasReset? && !step.Created?
    ensures NoNewHomes(s, Apply(s, step))
  {
    hide Gone, Change;
    match step
    case Changed(id, state, nextItem) => ChangeBringsNothing(s, id, state, nextItem);
    case _ =>
  }

  lemma ChangeBringsNothing(s: Cache, id: int, state: State, nextItem: int)
    ensures NoNewHomes(s, Change(s, id, state, nextItem))
  {
  }

  // ----- runs -----

  /** Imports are of the mailbox's messages; whatever else happens, it is not about the message with keys k. */
  ghost predicate Regular(s: Cache, step: Step, keys: set<Fingerprint>, k: Fingerprint) {
    match step
    case WasReset(_, _) => true
    case Created(i) => i.generation == s.uidValidity ==> Genuine(s, i, keys)
    case _ => Spares(s, Apply(s, step), k)
  }

  ghost predicate RegularRun(s: Cache, steps: seq<Step>, keys: set<Fingerprint>, k: Fingerprint) {
    steps != [] ==>
      && RegularRun(s, steps[..|steps| - 1], keys, k)
      && Regular(Execute(s, steps[..|steps| - 1]), steps[|steps| - 1], keys, k)
  }

  lemma StepOwes(s: Cache, step: Step, keys: set<Fingerprint>, k: Fingerprint)
    requires Bound(s) && Journals(s) && Once(s, keys) && Telling(keys) && Regular(s, step, keys, k)
    ensures Once(Apply(s, step), keys) && Owed(Apply(s, step), k) == Owed(s, k)
  {
    hide Bound, Journals, Once, Telling, Genuine, Owed, Reset, Create, NoNewHomes, Spares;
    match step
    case WasReset(generation, floor) =>
      ResetKeepsOnce(s, keys, generation, floor);
      ResetOwes(s, keys, generation, floor, k);
    case Created(i) => CreateOwes(s, keys, i, k);
    case _ =>
      RestBringsNothing(s, step);
      NoNewHomesKeepsOnce(s, Apply(s, step), keys);
      SparedIsOwed(s, Apply(s, step), keys, k);
  }

  /** However often the mailbox is reset, and however far the refetch had come each time, each message is still owed
      what it was owed: it has it, or the journal has it for its return. */
  lemma {:induction false} StateIsConserved(s: Cache, steps: seq<Step>, keys: set<Fingerprint>, k: Fingerprint)
    requires Bound(s) && Journals(s) && Once(s, keys) && Telling(keys) && RegularRun(s, steps, keys, k)
    ensures var t := Execute(s, steps);
            Bound(t) && Journals(t) && Once(t, keys) && Owed(t, k) == Owed(s, k)
  {
    hide Bound, Journals, Once, Telling, Owed, Apply, Regular;
    if steps != [] {
      StateIsConserved(s, steps[..|steps| - 1], keys, k);
      var u := Execute(s, steps[..|steps| - 1]);
      StepStaysBound(u, steps[|steps| - 1]);
      StepOwes(u, steps[|steps| - 1], keys, k);
    }
  }

  /** Once the messages are back, their rows have it, and nothing is left in the journal. */
  lemma RebuildCompletes(s: Cache, steps: seq<Step>, keys: set<Fingerprint>)
    requires Bound(s) && Journals(s) && Once(s, keys) && Telling(keys) && keys != {}
    requires forall k :: k in keys ==> RegularRun(s, steps, keys, k)
    requires forall k :: k in keys ==> exists id :: IsOf(Execute(s, steps), id, k)
    ensures Execute(s, steps).journal == map[]
    ensures forall id, k :: k in keys && IsOf(Execute(s, steps), id, k) ==>
              Essence(Execute(s, steps).rows[id].state) == Owed(s, k)
  {
    hide Bound, Journals, Telling, Owed, RegularRun, Execute, Essence, AllKept;
    var t := Execute(s, steps);
    forall id, k | k in keys && IsOf(t, id, k) ensures Essence(t.rows[id].state) == Owed(s, k) {
      StateIsConserved(s, steps, keys, k);
      OwedIs(t, keys, k);
    }
    var k :| k in keys;
    StateIsConserved(s, steps, keys, k);
    forall j ensures j !in t.journal {
    }
    assert t.journal.Keys == {};
  }
}
