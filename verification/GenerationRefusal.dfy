/** The two ways in which the tables refuse a message that is fetched again, each on a mailbox anybody can have. */
module GenerationRefusal {

  import opened Candidates
  import opened GenerationIdentities
  import opened GenerationInvariant
  import opened GenerationRoundTrip
  import opened GenerationState
  import opened LedgerState

  const FIRST_KEYS := Fingerprint(1, 0, 0, 0, 0)
  const OTHER_KEYS := Fingerprint(2, 0, 0, 0, 0)

  function Plain(uid: int, generation: int, keys: Fingerprint): Import {
    Import(uid, generation, keys, false, false, true)
  }

  /** A state with nothing but a snooze of thread 5. */
  function Snoozed(item: int): State {
    State(false, false, false, false, map[SnoozeSlot := Item(item, 5, false, 0)])
  }

  const BLANK := State(false, false, false, false, map[])

  /** Two messages of one thread: the first is snoozed, the mailbox is reset, the other one comes back first and is
      snoozed in turn. */
  const STEPS := [WasReset(1, 1), Created(Plain(1, 1, FIRST_KEYS)), Changed(1, Snoozed(1), 2),
                  WasReset(2, 1), Created(Plain(1, 2, OTHER_KEYS)), Changed(2, Snoozed(2), 3)]

  /** A message comes and is snoozed, in a mailbox without other rows. */
  lemma ComesAndIsSnoozed(s: Cache, uid: int, keys: Fingerprint, item: int)
    requires s.rows == map[] && s.elsewhere == {} && s.uidValidity > 0 && s.nextItem <= item
    requires forall j :: j in s.journal ==> j > 0 && !Matches(s.journal[j].keys, keys)
    ensures var t := Apply(s, Created(Plain(uid, s.uidValidity, keys)));
            Apply(t, Changed(s.nextRow, Snoozed(item), item + 1)) ==
            s.(rows := map[s.nextRow := Row(uid, s.uidValidity, 0, keys, true, Snoozed(item))], nextRow := s.nextRow + 1,
               nextItem := item + 1)
  {
    var i := Plain(uid, s.uidValidity, keys);
    NothingToRestore(s, i);
    var t := Insert(s, i);
    assert t.rows == map[s.nextRow := Row(uid, s.uidValidity, 0, keys, true, BLANK)];
    hide Create, Insert;
    MayBeSnoozed(t, s.nextRow, item);
    hide MayChange;
  }

  lemma MayBeSnoozed(s: Cache, id: int, item: int)
    requires s.rows.Keys == {id} && s.elsewhere == {} && s.nextItem <= item
    ensures MayChange(s, id, Snoozed(item))
    ensures forall slot :: slot in Snoozed(item).items ==> Snoozed(item).items[slot].id < item + 1
  {
  }

  lemma NothingToRestore(s: Cache, i: Import)
    requires forall j :: j in s.journal ==> j > 0 && !Matches(s.journal[j].keys, i.keys)
    requires i.generation == s.uidValidity > 0 && !HasUid(s, i.uid)
    ensures Create(s, i) == Insert(s, i)
  {
    MatchedIsJournaled(s, i);
    hide MatchSaved;
    InsertsNext(s, i);
  }

  lemma ResetJournalsSnooze(s: Cache)
    requires s == Cache(1, 0, map[1 := Row(1, 1, 0, FIRST_KEYS, true, Snoozed(1))], 2, map[], 1, None, 2, {})
    ensures Reset(s, 2, 1) ==
            Cache(2, 0, map[], 2, map[2 := Saved(2, 1, 1, FIRST_KEYS, Snoozed(1))], 3, Some(Rebuild(2, 1)), 2, {})
  {
    var t := Reset(s, 2, 1);
    assert 1 in MirroredIds(s);
    assert MirroredIds(s) == {1} && s.rows - {1} == map[];
    assert KeptItems(Snoozed(1).items) == Snoozed(1).items && SnoozeSlot in Snoozed(1).items;
    assert NewSavedIds(s) == {2};
    assert t.journal == map[2 := Save(1, s.rows[1], 2)];
  }

  lemma FirstGeneration()
    ensures Reset(Fresh(), 1, 1) == Fresh().(uidValidity := 1)
  {
    assert MirroredIds(Fresh()) == {};
  }

  /** Where these steps lead. */
  function Stuck(): Cache {
    Cache(2, 0, map[2 := Row(1, 2, 0, OTHER_KEYS, true, Snoozed(2))], 3, map[2 := Saved(2, 1, 1, FIRST_KEYS, Snoozed(1))], 3,
          Some(Rebuild(2, 1)), 3, {})
  }

  lemma StepsLeadThere()
    ensures Execute(Fresh(), STEPS) == Stuck()
  {
    var s := Fresh().(uidValidity := 1);
    FirstGeneration();
    ComesAndIsSnoozed(s, 1, FIRST_KEYS, 1);
    var t := Cache(1, 0, map[1 := Row(1, 1, 0, FIRST_KEYS, true, Snoozed(1))], 2, map[], 1, None, 2, {});
    ResetJournalsSnooze(t);
    var u := Reset(t, 2, 1);
    ComesAndIsSnoozed(u, 1, OTHER_KEYS, 2);
    hide Reset, Change, Create, Execute;
    SixSteps();
  }

  lemma SixSteps()
    ensures Execute(Fresh(), STEPS) ==
            Apply(Apply(Apply(Apply(Apply(Apply(Fresh(), STEPS[0]), STEPS[1]), STEPS[2]), STEPS[3]), STEPS[4]), STEPS[5])
  {
    hide Apply;
    Last(STEPS, 6);
    Last(STEPS, 5);
    Last(STEPS, 4);
    Last(STEPS, 3);
    Last(STEPS, 2);
    Last(STEPS, 1);
    assert STEPS[..6] == STEPS;
  }

  lemma Last(steps: seq<Step>, n: int)
    requires 0 < n <= |steps|
    ensures Execute(Fresh(), steps[..n]) == Apply(Execute(Fresh(), steps[..n - 1]), steps[n - 1])
    ensures Execute(Fresh(), steps[..0]) == Fresh()
  {
    hide Apply;
    assert steps[..n][..n - 1] == steps[..n - 1];
  }

  /** The first message is fetched again, and refused: it is not stored. */
  lemma RefusalHappens()
    ensures var s := Execute(Fresh(), STEPS);
            && s == Stuck() && !HasUid(s, 2) && s.journal[2].keys == FIRST_KEYS
            && Create(s, Plain(2, 2, FIRST_KEYS)) == s
  {
    StepsLeadThere();
    var s, i := Stuck(), Plain(2, 2, FIRST_KEYS);
    NothingIsAttachedTwice(STEPS);
    RunStaysBound(STEPS);
    OnlyOneMatches(s.journal, i, 2);
    assert SnoozedFor(s.rows[2].state, 5);
    ImportIsRefused(s, i);
  }

  // ----- a message that is there already -----

  /** Three versions of one text: the same Message-ID, date and size, and three contents. */
  const A := Fingerprint(1, 0, 9, 7, 7)
  const B := Fingerprint(2, 0, 9, 7, 7)
  const C := Fingerprint(3, 0, 9, 7, 7)

  /** A state with nothing but an event. */
  function Announced(item: int): State {
    State(false, false, false, false, map[EventSlot := Item(item, 0, false, 0)])
  }

  /** Two of them are announced before a reset. Then the third one comes, which could be either, and gets nothing; then
      the first one comes back under its own content and takes its event; and the third one is announced. */
  const TWINS := [WasReset(1, 1), Created(Plain(1, 1, A)), Changed(1, Announced(1), 2),
                  Created(Plain(2, 1, B)), Changed(2, Announced(2), 3), WasReset(2, 1),
                  Created(Plain(5, 2, C)), Created(Plain(6, 2, A)), Changed(3, Announced(3), 4)]

  function Stored(uid: int, generation: int, keys: Fingerprint, state: State): Row {
    Row(uid, generation, 0, keys, true, state)
  }

  function FirstTwin(): Cache {
    Cache(1, 0, map[1 := Stored(1, 1, A, Announced(1))], 2, map[], 1, None, 2, {})
  }

  function BothTwins(): Cache {
    Cache(1, 0, map[1 := Stored(1, 1, A, Announced(1)), 2 := Stored(2, 1, B, Announced(2))], 3, map[], 1, None, 3, {})
  }

  const SAVED_A := Saved(2, 1, 1, A, Announced(1))
  const SAVED_B := Saved(2, 2, 2, B, Announced(2))

  function TwinsGone(): Cache {
    Cache(2, 0, map[], 3, map[2 := SAVED_A, 3 := SAVED_B], 4, Some(Rebuild(2, 1)), 3, {})
  }

  function ThirdCame(): Cache {
    TwinsGone().(rows := map[3 := Stored(5, 2, C, BLANK)], nextRow := 4)
  }

  function FirstIsBack(): Cache {
    TwinsGone().(rows := map[3 := Stored(5, 2, C, BLANK), 4 := Stored(6, 2, A, Announced(1))], nextRow := 5,
                 journal := map[3 := SAVED_B])
  }

  function ThirdAnnounced(): Cache {
    FirstIsBack().(rows := map[3 := Stored(5, 2, C, Announced(3)), 4 := Stored(6, 2, A, Announced(1))], nextItem := 4)
  }

  lemma MayBeAnnounced(s: Cache, id: int, item: int)
    requires id in s.rows && s.nextItem <= item
    ensures Change(s, id, Announced(item), item + 1) ==
            s.(rows := s.rows[id := s.rows[id].(state := Announced(item))], nextItem := item + 1)
  {
    assert MayChange(s, id, Announced(item));
    assert forall slot :: slot in Announced(item).items ==> Announced(item).items[slot].id < item + 1;
    hide MayChange;
  }

  lemma FirstTwinIsStored()
    ensures Create(Fresh().(uidValidity := 1), Plain(1, 1, A)) ==
            Cache(1, 0, map[1 := Stored(1, 1, A, BLANK)], 2, map[], 1, None, 1, {})
  {
    NothingToRestore(Fresh().(uidValidity := 1), Plain(1, 1, A));
  }

  lemma FirstTwinComes()
    ensures Apply(Apply(Fresh().(uidValidity := 1), TWINS[1]), TWINS[2]) == FirstTwin()
  {
    var t := Cache(1, 0, map[1 := Stored(1, 1, A, BLANK)], 2, map[], 1, None, 1, {});
    assert t.(rows := t.rows[1 := t.rows[1].(state := Announced(1))], nextItem := 2) == FirstTwin();
    hide *;
    TwinSteps();
    FirstTwinIsStored();
    MayBeAnnounced(t, 1, 1);
  }

  lemma TwinSteps()
    ensures |TWINS| == 9
    ensures forall s :: Apply(s, TWINS[0]) == Reset(s, 1, 1) && Apply(s, TWINS[5]) == Reset(s, 2, 1)
    ensures forall s :: Apply(s, TWINS[1]) == Create(s, Plain(1, 1, A)) && Apply(s, TWINS[2]) == Change(s, 1, Announced(1), 2)
    ensures forall s :: Apply(s, TWINS[3]) == Create(s, Plain(2, 1, B)) && Apply(s, TWINS[4]) == Change(s, 2, Announced(2), 3)
    ensures forall s :: Apply(s, TWINS[6]) == Create(s, Plain(5, 2, C)) && Apply(s, TWINS[7]) == Create(s, Plain(6, 2, A))
    ensures forall s :: Apply(s, TWINS[8]) == Change(s, 3, Announced(3), 4)
  {
    hide Reset, Create, Change;
  }

  function SecondTwin(): Cache {
    Cache(1, 0, map[1 := Stored(1, 1, A, Announced(1)), 2 := Stored(2, 1, B, BLANK)], 3, map[], 1, None, 2, {})
  }

  lemma SecondTwinIsStored()
    ensures Create(FirstTwin(), Plain(2, 1, B)) == SecondTwin()
  {
    NothingToRestore(FirstTwin(), Plain(2, 1, B));
    hide Create;
    assert Insert(FirstTwin(), Plain(2, 1, B)).rows == SecondTwin().rows;
  }

  lemma SecondTwinComes()
    ensures Apply(Apply(FirstTwin(), TWINS[3]), TWINS[4]) == BothTwins()
  {
    var t := SecondTwin();
    assert 2 in t.rows && t.(rows := t.rows[2 := t.rows[2].(state := Announced(2))], nextItem := 3) == BothTwins();
    assert t.nextItem == 2;
    hide *;
    TwinSteps();
    SecondTwinIsStored();
    MayBeAnnounced(t, 2, 2);
  }

  lemma EventsAreJournaled(item: int)
    ensures WorthKeeping(Announced(item)) && KeptItems(Announced(item).items) == Announced(item).items
  {
    assert EventSlot in KeptItems(Announced(item).items);
  }

  lemma TwinsAreReset()
    ensures Reset(BothTwins(), 2, 1) == TwinsGone()
  {
    var s := BothTwins();
    EventsAreJournaled(1);
    EventsAreJournaled(2);
    hide WorthKeeping, KeptItems;
    assert 1 in MirroredIds(s) && MirroredIds(s) == {1, 2};
    assert s.rows - {1, 2} == map[];
    assert NewSavedIds(s) == {2, 3};
    assert Save(1, s.rows[1], 2) == SAVED_A && Save(2, s.rows[2], 2) == SAVED_B;
    assert Journaled(s, 2) == map[2 := SAVED_A, 3 := SAVED_B];
    assert NeedsReset(s, 2);
  }

  /** Two rows match by identity: neither is taken. */
  lemma ThirdMatchesBoth()
    ensures MatchSaved(TwinsGone().journal, Plain(5, 2, C)) == 0
  {
    var journal := TwinsGone().journal;
    var rows, a, b := MatchingRows(journal, Plain(5, 2, C)), Candidate(IDENTITY, 2), Candidate(IDENTITY, 3);
    assert 2 in journal && 3 in journal && journal[2] == SAVED_A && journal[3] == SAVED_B;
    assert a in rows && b in rows;
    forall c | c in rows ensures c == a || c == b {
    }
    FirstIs(a, rows);
    FirstTwo(rows);
    assert rows - {a} == {b};
    FirstIs(b, rows - {a});
  }

  lemma ThirdComes()
    ensures Create(TwinsGone(), Plain(5, 2, C)) == ThirdCame()
  {
    var s, i := TwinsGone(), Plain(5, 2, C);
    ThirdMatchesBoth();
    hide MatchSaved;
    assert !HasUid(s, 5) && 0 !in s.journal;
    assert Insert(s, i).rows == ThirdCame().rows;
    assert Storing(s, i) == Some(Insert(s, i));
  }

  /** The first one matches one row by content, which is stronger. */
  lemma FirstMatchesItsOwn()
    ensures MatchSaved(ThirdCame().journal, Plain(6, 2, A)) == 2
  {
    var journal := ThirdCame().journal;
    var rows, a, b := MatchingRows(journal, Plain(6, 2, A)), Candidate(EXACT, 2), Candidate(IDENTITY, 3);
    assert 2 in journal && 3 in journal && journal[2] == SAVED_A && journal[3] == SAVED_B;
    assert a in rows && b in rows;
    forall c | c in rows ensures c == a || c == b {
    }
    FirstIs(a, rows);
    FirstTwo(rows);
    assert rows - {a} == {b};
    FirstIs(b, rows - {a});
  }

  lemma FirstComesBack()
    ensures Create(ThirdCame(), Plain(6, 2, A)) == FirstIsBack()
  {
    var s, i := ThirdCame(), Plain(6, 2, A);
    FirstMatchesItsOwn();
    hide MatchSaved;
    assert !HasUid(s, 6);
    var t := Insert(s, i);
    assert t.rows == map[3 := Stored(5, 2, C, BLANK), 4 := Stored(6, 2, A, BLANK)];
    assert Insertable(t.rows, {}, 4, Announced(1));
    assert Reattach(BLANK, Announced(1)) == Announced(1);
    assert t.rows[4 := Stored(6, 2, A, Announced(1))] == FirstIsBack().rows;
    assert t.journal - {2} == FirstIsBack().journal;
    assert Storing(s, i) == Some(FirstIsBack());
  }

  lemma ThirdIsAnnounced()
    ensures Change(FirstIsBack(), 3, Announced(3), 4) == ThirdAnnounced()
  {
    MayBeAnnounced(FirstIsBack(), 3, 3);
    assert FirstIsBack().rows[3 := Stored(5, 2, C, Announced(3))] == ThirdAnnounced().rows;
  }

  lemma TwinsLeadThere()
    ensures Execute(Fresh(), TWINS) == ThirdAnnounced()
  {
    hide *;
    NineSteps();
    FirstGeneration();
    FirstTwinComes();
    SecondTwinComes();
    TwinsAreReset();
    TwinSteps();
    ThirdComes();
    FirstComesBack();
    ThirdIsAnnounced();
  }

  lemma NineSteps()
    ensures |TWINS| == 9
    ensures Execute(Fresh(), TWINS) ==
            Apply(Apply(Apply(Apply(Apply(Apply(Apply(Apply(Apply(
              Fresh(), TWINS[0]), TWINS[1]), TWINS[2]), TWINS[3]), TWINS[4]), TWINS[5]), TWINS[6]), TWINS[7]), TWINS[8])
  {
    hide Apply;
    Last(TWINS, 9);
    Last(TWINS, 8);
    Last(TWINS, 7);
    Last(TWINS, 6);
    Last(TWINS, 5);
    Last(TWINS, 4);
    Last(TWINS, 3);
    Last(TWINS, 2);
    Last(TWINS, 1);
    assert TWINS[..9] == TWINS;
  }

  /** The third one is fetched once more, under the UID it has. Only one row matches it now, and its event would go where
      an event is: the import is refused. */
  lemma KnownRefusalHappens()
    ensures var s := Execute(Fresh(), TWINS);
            && s == ThirdAnnounced() && HasUid(s, 5) && Holder(s, 5) == 3 && s.rows[3].keys == C
            && Storing(s, Plain(5, 2, C)).None?
  {
    TwinsLeadThere();
    var s, i := ThirdAnnounced(), Plain(5, 2, C);
    NothingIsAttachedTwice(TWINS);
    RunStaysBound(TWINS);
    OnlyOneMatches(s.journal, i, 3);
    assert s.rows[3].uid == 5;
    assert HasUid(s, 5) && Holder(s, 5) == 3;
    assert EventSlot in s.journal[3].state.items && EventSlot in s.rows[3].state.items;
    ImportIsRefused(s, i);
  }
}
