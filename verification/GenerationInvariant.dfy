/** What every generation-bound step keeps: one generation per mailbox, for its rows, its checkpoint and its journal. */
module GenerationInvariant {

  import opened Candidates
  import opened LedgerState
  import opened GenerationState

  ghost predicate Bound(s: Cache) {
    && s.uidValidity >= 0 && s.lastUid >= 0 && s.nextRow > 0 && s.nextSaved > 0
    && (s.uidValidity == 0 ==> s.lastUid == 0 && s.rebuild.None?)
    && (forall id :: id in s.rows ==> 0 < id < s.nextRow)
    && (forall id :: id in s.rows && Mirrored(s.rows[id]) ==> s.rows[id].generation == s.uidValidity > 0)
    && (forall a, b :: a in s.rows && b in s.rows && s.rows[a].uid == s.rows[b].uid ==> a == b)
  }

  /** The journal belongs to a rebuild for the present generation, each row of it to one message that is gone. */
  ghost predicate Journals(s: Cache) {
    && (s.rebuild.Some? ==> s.rebuild.value.target == s.uidValidity > 0)
    && (s.rebuild.None? ==> s.journal == map[])
    && (forall j :: j in s.journal ==>
          && 0 < j < s.nextSaved && s.journal[j].target == s.uidValidity
          && s.journal[j].source < s.nextRow && s.journal[j].source !in s.rows)
    && (forall j, k :: j in s.journal && k in s.journal && s.journal[j].source == s.journal[k].source ==> j == k)
  }

  // ----- importing -----

  lemma MatchedIsJournaled(s: Cache, i: Import)
    requires forall j :: j in s.journal ==> j > 0
    ensures var j := MatchSaved(s.journal, i);
            && (j != 0 <==> j in s.journal)
            && (j != 0 ==> s.journal[j].target == i.generation && Matches(s.journal[j].keys, i.keys))
  {
    TakenAreFirst(MatchingRows(s.journal, i), 2);
  }

  /** Restoring changes the state of one row and takes its source out of the journal. */
  lemma RestoreTouchesOneRow(s: Cache, id: int, i: Import)
    requires id in s.rows && (forall j :: j in s.journal ==> j > 0) && Restore(s, id, i).Some?
    ensures var t := Restore(s, id, i).value;
            && t == s.(rows := t.rows, journal := t.journal)
            && id in t.rows && t.rows == s.rows[id := s.rows[id].(state := t.rows[id].state)]
            && t.journal.Keys <= s.journal.Keys && (forall j :: j in t.journal ==> t.journal[j] == s.journal[j])
            && (var j := MatchSaved(s.journal, i);
                if j in s.journal then
                  t.journal == s.journal - {j} && t.rows[id].state == Reattach(s.rows[id].state, s.journal[j].state)
                else t == s)
  {
    hide MatchSaved, Insertable;
    var t := Restore(s, id, i).value;
    assert t.rows == s.rows[id := s.rows[id].(state := t.rows[id].state)];
  }

  lemma InsertStaysBound(s: Cache, i: Import)
    requires Bound(s) && Journals(s) && i.generation == s.uidValidity > 0 && !HasUid(s, i.uid)
    ensures Bound(Insert(s, i)) && Journals(Insert(s, i))
  {
  }

  lemma RefreshStaysBound(s: Cache, id: int, i: Import)
    requires Bound(s) && Journals(s) && id in s.rows
    ensures var t := s.(rows := s.rows[id := Refresh(s.rows[id], i)]); Bound(t) && Journals(t)
  {
  }

  lemma RestoreStaysBound(s: Cache, id: int, i: Import)
    requires Bound(s) && Journals(s) && id in s.rows && Restore(s, id, i).Some?
    ensures Bound(Restore(s, id, i).value) && Journals(Restore(s, id, i).value)
  {
    RestoreTouchesOneRow(s, id, i);
    hide Restore, MatchSaved;
  }

  lemma CreateStaysBound(s: Cache, i: Import)
    requires Bound(s) && Journals(s)
    ensures Bound(Create(s, i)) && Journals(Create(s, i))
  {
    hide Bound, Journals, Restore, Insert, HasUid;
    if i.generation > 0 && s.uidValidity == i.generation {
      if HasUid(s, i.uid) {
        var id := Holder(s, i.uid);
        RefreshStaysBound(s, id, i);
        var t := s.(rows := s.rows[id := Refresh(s.rows[id], i)]);
        if Restore(t, id, i).Some? {
          RestoreStaysBound(t, id, i);
        }
      } else {
        InsertStaysBound(s, i);
        InsertsNext(s, i);
        if Restore(Insert(s, i), s.nextRow, i).Some? {
          RestoreStaysBound(Insert(s, i), s.nextRow, i);
        }
      }
    }
  }

  lemma InsertsNext(s: Cache, i: Import)
    ensures s.nextRow in Insert(s, i).rows
  {
  }

  // ----- resets -----

  /** Old journal rows keep their ids; new ones lie above them. */
  lemma JournaledRow(s: Cache, target: int, j: int)
    requires Bound(s) && Journals(s) && j in Journaled(s, target)
    ensures var saved := Journaled(s, target)[j];
            && 0 < j < s.nextSaved + s.nextRow && saved.target == target
            && (j < s.nextSaved ==> j in s.journal && saved == s.journal[j].(target := target))
            && (j >= s.nextSaved ==>
                  var id := j - s.nextSaved;
                  id in s.rows && Mirrored(s.rows[id]) && WorthKeeping(s.rows[id].state)
                  && saved == Save(id, s.rows[id], target))
  {
    hide WorthKeeping;
  }

  lemma JournaledSources(s: Cache, target: int)
    requires Bound(s) && Journals(s)
    ensures forall j :: j in Journaled(s, target) ==>
              && 0 < j < s.nextSaved + s.nextRow && Journaled(s, target)[j].target == target
              && Journaled(s, target)[j].source < s.nextRow
              && Journaled(s, target)[j].source !in s.rows - MirroredIds(s)
    ensures forall j, k ::
              j in Journaled(s, target) && k in Journaled(s, target)
              && Journaled(s, target)[j].source == Journaled(s, target)[k].source
              ==> j == k
  {
    var journal := Journaled(s, target);
    hide Journaled, WorthKeeping, Bound, Journals;
    forall j | j in journal
      ensures 0 < j < s.nextSaved + s.nextRow && journal[j].target == target && journal[j].source < s.nextRow
      ensures journal[j].source !in s.rows - MirroredIds(s)
    {
      JournaledRow(s, target, j);
      SourceOfRow(s, j, journal[j]);
    }
    forall j, k | j in journal && k in journal && journal[j].source == journal[k].source ensures j == k {
      JournaledRow(s, target, j);
      JournaledRow(s, target, k);
      SourcesApart(s, j, k);
    }
  }

  lemma SourceOfRow(s: Cache, j: int, saved: Saved)
    requires Bound(s) && Journals(s)
    requires j < s.nextSaved ==> j in s.journal && saved.source == s.journal[j].source
    requires j >= s.nextSaved ==> j - s.nextSaved in MirroredIds(s) && saved.source == j - s.nextSaved
    ensures saved.source < s.nextRow && saved.source !in s.rows - MirroredIds(s)
  {
  }

  lemma SourcesApart(s: Cache, j: int, k: int)
    requires Bound(s) && Journals(s)
    ensures j in s.journal && k in s.journal && s.journal[j].source == s.journal[k].source ==> j == k
    ensures j in s.journal && k in s.rows ==> s.journal[j].source != k
    ensures k in s.journal && j in s.rows ==> s.journal[k].source != j
    ensures j in s.journal && k - s.nextSaved in s.rows ==> s.journal[j].source != k - s.nextSaved
    ensures k in s.journal && j - s.nextSaved in s.rows ==> s.journal[k].source != j - s.nextSaved
  {
  }

  lemma ResetStaysBound(s: Cache, generation: int, floor: int)
    requires Bound(s) && Journals(s)
    ensures Bound(Reset(s, generation, floor)) && Journals(Reset(s, generation, floor))
  {
    if generation > 0 && NeedsReset(s, generation) && floor > 0 {
      JournaledSources(s, generation);
      hide Journaled, NeedsReset;
    }
  }

  lemma StepStaysBound(s: Cache, step: Step)
    requires Bound(s) && Journals(s)
    ensures Bound(Apply(s, step)) && Journals(Apply(s, step))
  {
    match step
    case WasReset(generation, floor) => ResetStaysBound(s, generation, floor);
    case Created(i) => CreateStaysBound(s, i);
    case _ => RestStaysBound(s, step);
  }

  lemma RestStaysBound(s: Cache, step: Step)
    requires Bound(s) && Journals(s) && !step.WasReset? && !step.Created?
    ensures Bound(Apply(s, step)) && Journals(Apply(s, step))
  {
    hide Create, Reset, Unsnoozed, SnoozedFor;
    match step
    case Checkpointed(uid, expected) =>
    case Initialized(uidValidity) =>
    case FloorSet(target, floor) =>
    case Finalized(target) => FinalizingStaysBound(s, target);
    case Reconciled(remote, uidValidity, uidNext) => ReconcileStaysBound(s, remote, uidValidity, uidNext);
    case Changed(id, state, nextItem) =>
    case JournalUnsnoozed(thread) => UnsnoozingStaysBound(s, thread);
    case SnoozedElsewhere(threads) =>
    case OutboxStored(row) =>
    case Removed(id) =>
  }

  lemma FinalizingStaysBound(s: Cache, target: int)
    requires Bound(s) && Journals(s)
    ensures Bound(FinalizeRebuild(s, target)) && Journals(FinalizeRebuild(s, target))
  {
    var t := FinalizeRebuild(s, target);
    if s.rebuild.None? {
      assert t.journal.Keys <= s.journal.Keys;
    } else if s.rebuild.value.target == target {
      forall j | j in s.journal ensures s.journal[j].target == target {
      }
      assert t.journal.Keys == {};
    }
  }

  lemma ReconcileStaysBound(s: Cache, remote: set<int>, uidValidity: int, uidNext: int)
    requires Bound(s) && Journals(s)
    ensures Bound(Reconcile(s, remote, uidValidity, uidNext)) && Journals(Reconcile(s, remote, uidValidity, uidNext))
  {
  }

  lemma UnsnoozingStaysBound(s: Cache, thread: int)
    requires Bound(s) && Journals(s)
    ensures var t := s.(journal := map j | j in s.journal :: Unsnoozed(s.journal[j], thread)); Bound(t) && Journals(t)
  {
    hide SnoozedFor;
  }

  lemma {:induction false} RunStaysBound(steps: seq<Step>)
    ensures Bound(Execute(Fresh(), steps)) && Journals(Execute(Fresh(), steps))
  {
    if steps != [] {
      RunStaysBound(steps[..|steps| - 1]);
      StepStaysBound(Execute(Fresh(), steps[..|steps| - 1]), steps[|steps| - 1]);
    }
  }

  // ----- what the generation protects -----

  /** A second reset for the same generation does nothing, whatever floor it brings. */
  lemma ResetIsIdempotent(s: Cache, generation: int, floor: int, again: int)
    requires Bound(s) && floor > 0
    ensures var t := Reset(s, generation, floor);
            Reset(t, generation, again) == t && (generation > 0 ==> t.uidValidity == generation)
  {
    hide Journaled;
    var t := Reset(s, generation, floor);
    if generation > 0 {
      assert forall id :: id in MirroredIds(t) ==> t.rows[id].generation == generation;
      assert !NeedsReset(t, generation);
    }
  }

  /** A reset is only refused, or only adopts the generation, where nothing is in doubt; and a change of generation
      that leaves a checkpoint or mirrored rows behind is never let through. */
  lemma ChangeOfGenerationClears(s: Cache, step: Step)
    requires Bound(s) && Journals(s) && Apply(s, step).uidValidity != s.uidValidity
    ensures var t := Apply(s, step);
            t.lastUid == 0 && MirroredIds(t) == {} && (s.uidValidity > 0 ==> t.rebuild.Some?)
  {
    hide Create, Journaled;
    match step
    case WasReset(generation, floor) =>
      if NeedsReset(s, generation) {
        assert MirroredIds(Reset(s, generation, floor)) == {};
      } else {
        assert MirroredIds(s) == {} && s.uidValidity == 0;
      }
    case Initialized(uidValidity) =>
      assert forall id :: id in s.rows ==> !Mirrored(s.rows[id]);
    case Created(i) => CreateKeepsGeneration(s, i);
    case _ => assert false;
  }

  lemma CreateKeepsGeneration(s: Cache, i: Import)
    requires Bound(s) && Journals(s)
    ensures Create(s, i).uidValidity == s.uidValidity && Create(s, i).lastUid == s.lastUid
    ensures Create(s, i).rebuild == s.rebuild
  {
    hide MatchSaved, Insertable;
  }

  lemma FloorStays(s: Cache, step: Step)
    requires Bound(s) && Journals(s)
    requires s.rebuild.Some? && s.rebuild.value.floor > 0
    requires Apply(s, step).rebuild.Some? && Apply(s, step).rebuild.value.target == s.rebuild.value.target
    ensures Apply(s, step).rebuild == s.rebuild
  {
    hide Create, Journaled;
    match step
    case Created(i) => CreateKeepsGeneration(s, i);
    case _ =>
  }

  /** All along the run there is a rebuild for that target. */
  ghost predicate Rebuilding(s: Cache, steps: seq<Step>, target: int) {
    && Execute(s, steps).rebuild.Some? && Execute(s, steps).rebuild.value.target == target
    && (steps != [] ==> Rebuilding(s, steps[..|steps| - 1], target))
  }

  /** The floor is written once: over any run, as long as there is a rebuild for the same target, a floor that is set
      stays what it is. */
  lemma {:induction false} FloorIsWrittenOnce(s: Cache, steps: seq<Step>)
    requires Bound(s) && Journals(s)
    requires s.rebuild.Some? && s.rebuild.value.floor > 0 && Rebuilding(s, steps, s.rebuild.value.target)
    ensures Execute(s, steps).rebuild == s.rebuild
    ensures Bound(Execute(s, steps)) && Journals(Execute(s, steps))
  {
    hide Bound, Journals, Apply;
    if steps != [] {
      var before, last := steps[..|steps| - 1], steps[|steps| - 1];
      FloorIsWrittenOnce(s, before);
      StepStaysBound(Execute(s, before), last);
      FloorStays(Execute(s, before), last);
    }
  }

  /** The generation a run's checkpoint was last written under; 0 after it was cleared. */
  ghost function WrittenUnder(steps: seq<Step>): int {
    if steps == [] then 0
    else
      var before, after, last := Execute(Fresh(), steps[..|steps| - 1]), Execute(Fresh(), steps), steps[|steps| - 1];
      if after.lastUid == before.lastUid then WrittenUnder(steps[..|steps| - 1])
      else if after.lastUid == 0 then 0
      else if last.Checkpointed? then last.expected else -1
  }

  /** Over any run, a checkpoint that is set was written under the mailbox's present generation. */
  lemma {:induction false} CheckpointIsCurrent(steps: seq<Step>)
    ensures var s := Execute(Fresh(), steps);
            if s.lastUid > 0 then WrittenUnder(steps) == s.uidValidity else WrittenUnder(steps) == 0
  {
    if steps != [] {
      var before, last := steps[..|steps| - 1], steps[|steps| - 1];
      CheckpointIsCurrent(before);
      RunStaysBound(before);
      RunStaysBound(steps);
      var s, t := Execute(Fresh(), before), Execute(Fresh(), steps);
      CheckpointMoves(s, last);
      if t.uidValidity != s.uidValidity {
        ChangeOfGenerationClears(s, last);
      }
    }
  }

  lemma CheckpointMoves(s: Cache, step: Step)
    requires Bound(s) && Journals(s)
    ensures var t := Apply(s, step);
            t.lastUid == s.lastUid || t.lastUid == 0
            || (step.Checkpointed? && step.expected == s.uidValidity == t.uidValidity)
  {
    hide Create, Journaled, MayChange;
    if step.Created? {
      CreateKeepsGeneration(s, step.i);
    }
  }
}
