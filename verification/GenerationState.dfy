/**
 One mailbox's local cache under IMAP UIDVALIDITY: message rows with the user's state on them, the journal that
 carries this state across a full delete and refetch, and the transactions bound to a mailbox generation.
 */
module GenerationState {

  import opened Candidates
  import opened LedgerState

  // ----- the user's state of a message -----

  /** What a message can have one of: the UNIQUE constraints of the five tables that refer to a message. */
  datatype Slot = SnoozeSlot | EventSlot | ArrivalSlot | ReminderSlot(generation: int) | SendSlot(url: int)

  datatype Table = Snoozes | Events | Arrivals | Reminders | Sends

  function TableOf(slot: Slot): Table {
    match slot
    case SnoozeSlot => Snoozes
    case EventSlot => Events
    case ArrivalSlot => Arrivals
    case ReminderSlot(_) => Reminders
    case SendSlot(_) => Sends
  }

  /** A row of such a table: its id, the thread a snooze is for, whether an arrival is undecided, and the rest. */
  datatype Item = Item(id: int, thread: int, undecided: bool, details: int)

  datatype State = State(isRead: bool, readPending: bool, isStarred: bool, starPending: bool, items: map<Slot, Item>)

  datatype Row = Row(uid: int, generation: int, outboxJob: int, keys: Fingerprint, completed: bool, state: State)

  /** Journaled state of a deleted message, waiting for the message to come back under the target generation. */
  datatype Saved = Saved(target: int, source: int, sourceUid: int, keys: Fingerprint, state: State)

  datatype Rebuild = Rebuild(target: int, floor: int)

  datatype Cache = Cache(
    uidValidity: int, lastUid: int,
    rows: map<int, Row>, nextRow: int,
    journal: map<int, Saved>, nextSaved: int,
    rebuild: Option<Rebuild>,
    nextItem: int,
    elsewhere: set<int>)        // threads snoozed in the user's other mailboxes

  function Fresh(): Cache {
    Cache(0, 0, map[], 1, map[], 1, None, 1, {})
  }

  /** Rows the mirror put there; rows of messages still being sent are not subject to a generation. */
  predicate Mirrored(row: Row) {
    row.outboxJob == 0
  }

  function MirroredIds(s: Cache): set<int> {
    set id | id in s.rows && Mirrored(s.rows[id])
  }

  // ----- journaling -----

  /** Only an undecided arrival is worth keeping; everything else on a message is. */
  predicate Kept(slot: Slot, item: Item) {
    slot == ArrivalSlot ==> item.undecided
  }

  function KeptItems(items: map<Slot, Item>): map<Slot, Item> {
    map slot | slot in items && Kept(slot, items[slot]) :: items[slot]
  }

  predicate WorthKeeping(state: State) {
    state.readPending || state.starPending || KeptItems(state.items) != map[]
  }

  function Save(id: int, row: Row, target: int): Saved {
    Saved(target, id, row.uid, row.keys, row.state.(items := KeptItems(row.state.items)))
  }

  function Mark(rebuild: Option<Rebuild>, target: int, floor: int): Rebuild {
    match rebuild
    case Some(r) => Rebuild(target, if r.target == target && r.floor > 0 then r.floor else floor)
    case None => Rebuild(target, floor)
  }

  /** Journal ids for the rows worth keeping, given out in the order of the messages' ids. */
  function NewSavedIds(s: Cache): set<int> {
    set id | id in s.rows && Mirrored(s.rows[id]) && WorthKeeping(s.rows[id].state) :: s.nextSaved + id
  }

  /** The journal after a snapshot: what it held is retargeted, and the state of the mirrored rows is added. */
  function Journaled(s: Cache, target: int): map<int, Saved> {
    map j | j in s.journal.Keys + NewSavedIds(s) ::
      if j in s.journal then s.journal[j].(target := target) else Save(j - s.nextSaved, s.rows[j - s.nextSaved], target)
  }

  // ----- resets -----

  predicate Unproven(s: Cache, generation: int) {
    exists id :: id in MirroredIds(s) && (s.rows[id].generation <= 0 || s.rows[id].generation != generation)
  }

  predicate NeedsReset(s: Cache, generation: int) {
    || Unproven(s, generation)
    || (s.uidValidity != generation && (s.uidValidity > 0 || s.lastUid > 0 || MirroredIds(s) != {}))
  }

  /** Adopts a generation; rows that cannot be proven to belong to it are journaled and deleted. A reset without the
      first new UID is refused. */
  function Reset(s: Cache, generation: int, floor: int): Cache {
    if generation <= 0 then s
    else if !NeedsReset(s, generation) then s.(uidValidity := generation)
    else if floor <= 0 then s
    else
      s.(rebuild := Some(Mark(s.rebuild, generation, floor)),
         journal := Journaled(s, generation), nextSaved := s.nextSaved + s.nextRow,
         rows := s.rows - MirroredIds(s), uidValidity := generation, lastUid := 0)
  }

  // ----- importing -----

  datatype Import = Import(uid: int, generation: int, keys: Fingerprint, isRead: bool, isStarred: bool, completed: bool)

  function MatchingRows(journal: map<int, Saved>, i: Import): set<Candidate> {
    set j | j in journal && journal[j].target == i.generation && Matches(journal[j].keys, i.keys)
          :: Candidate(Strength(journal[j].keys, i.keys), j)
  }

  /** The journal row that is the only strongest match, or 0. */
  ghost function MatchSaved(journal: map<int, Saved>, i: Import): int {
    UnlessTied(Take(MatchingRows(journal, i), 2))
  }

  predicate Uses(state: State, table: Table, id: int) {
    exists slot :: slot in state.items && TableOf(slot) == table && state.items[slot].id == id
  }

  predicate SnoozedFor(state: State, thread: int) {
    SnoozeSlot in state.items && state.items[SnoozeSlot].thread == thread
  }

  /** Whether the tables accept the saved items for the message: its slots are free, the ids are unused, and no live
      snooze has the thread. */
  predicate Insertable(rows: map<int, Row>, elsewhere: set<int>, id: int, saved: State)
    requires id in rows
  {
    && (forall slot :: slot in saved.items ==> slot !in rows[id].state.items)
    && (forall slot, other :: slot in saved.items && other in rows ==>
          !Uses(rows[other].state, TableOf(slot), saved.items[slot].id))
    && (SnoozeSlot in saved.items ==> ThreadIsFree(rows, elsewhere, saved.items[SnoozeSlot].thread))
  }

  predicate ThreadIsFree(rows: map<int, Row>, elsewhere: set<int>, thread: int) {
    thread !in elsewhere && forall other :: other in rows ==> !SnoozedFor(rows[other].state, thread)
  }

  /** Pending flag changes take precedence over what the server says; the items come back as they were. */
  function Reattach(state: State, saved: State): State {
    State(if saved.readPending then saved.isRead else state.isRead, state.readPending || saved.readPending,
          if saved.starPending then saved.isStarred else state.isStarred, state.starPending || saved.starPending,
          state.items + saved.items)
  }

  /** The row of message id as the import leaves it, before its state is restored. */
  function Insert(s: Cache, i: Import): Cache {
    s.(rows := s.rows[s.nextRow := Row(i.uid, i.generation, 0, i.keys, i.completed,
                                       State(i.isRead, false, i.isStarred, false, map[]))],
       nextRow := s.nextRow + 1)
  }

  function Refresh(row: Row, i: Import): Row {
    row.(keys := row.keys.(canonical := if i.keys.canonical != 0 then i.keys.canonical else row.keys.canonical,
                           messageId := if i.keys.messageId != 0 then i.keys.messageId else row.keys.messageId),
         completed := row.completed || i.completed)
  }

  /** Moves the matching journal row, if there is one, onto the message; None when the tables refuse it. */
  ghost function Restore(s: Cache, id: int, i: Import): Option<Cache>
    requires id in s.rows
  {
    var j := MatchSaved(s.journal, i);
    if j !in s.journal then Some(s)
    else if !Insertable(s.rows, s.elsewhere, id, s.journal[j].state) then None
    else
      Some(s.(rows := s.rows[id := s.rows[id].(state := Reattach(s.rows[id].state, s.journal[j].state))],
              journal := s.journal - {j}))
  }

  predicate HasUid(s: Cache, uid: int) {
    exists id :: id in s.rows && s.rows[id].uid == uid
  }

  ghost function Holder(s: Cache, uid: int): (id: int)
    requires HasUid(s, uid)
    ensures id in s.rows && s.rows[id].uid == uid
  {
    var id :| id in s.rows && s.rows[id].uid == uid;
    id
  }

  /** A fetched message as it is stored; None when the mailbox or its row is of another generation, or the tables
      refuse what the journal holds for it. */
  ghost function Storing(s: Cache, i: Import): Option<Cache> {
    if i.generation <= 0 || s.uidValidity != i.generation then None
    else if HasUid(s, i.uid) then
      var id := Holder(s, i.uid);
      if s.rows[id].generation != i.generation then None
      else Restore(s.(rows := s.rows[id := Refresh(s.rows[id], i)]), id, i)
    else Restore(Insert(s, i), s.nextRow, i)
  }

  /** A message that comes without a generation is stored unchecked, and nothing is restored to it. */
  ghost function StoreUnbound(s: Cache, i: Import): Cache {
    if HasUid(s, i.uid) then s.(rows := s.rows[Holder(s, i.uid) := Refresh(s.rows[Holder(s, i.uid)], i)])
    else Insert(s, i)
  }

  ghost function Create(s: Cache, i: Import): Cache {
    match Storing(s, i) case None => s case Some(t) => t
  }

  // ----- checkpoints, status, reconciliation -----

  function UpdateLastUid(s: Cache, uid: int, expected: int): Cache {
    if expected <= 0 || s.uidValidity != expected then s
    else s.(lastUid := if s.lastUid < uid then uid else s.lastUid)
  }

  function InitializeStatus(s: Cache, uidValidity: int): Cache {
    if uidValidity <= 0 || s.uidValidity != 0 then s else s.(uidValidity := uidValidity)
  }

  function InitializeFloor(s: Cache, target: int, floor: int): Cache {
    if target > 0 && floor > 0 && s.rebuild == Some(Rebuild(target, 0)) then s.(rebuild := Some(Rebuild(target, floor)))
    else s
  }

  /** Ends a rebuild: what found no message is discarded. */
  function FinalizeRebuild(s: Cache, target: int): Cache {
    if target <= 0 then s
    else
      s.(journal := map j | j in s.journal && s.journal[j].target != target :: s.journal[j],
         rebuild := if s.rebuild.Some? && s.rebuild.value.target == target then None else s.rebuild)
  }

  /** Rows a complete remote listing shows to be gone; rows it may not have seen are not among them. */
  predicate Gone(row: Row, remote: set<int>, uidNext: int) {
    Mirrored(row) && row.uid < uidNext && row.uid !in remote
  }

  function Reconcile(s: Cache, remote: set<int>, uidValidity: int, uidNext: int): Cache {
    if uidValidity <= 0 || uidNext <= 0 || s.uidValidity != uidValidity then s
    else s.(rows := map id | id in s.rows && !Gone(s.rows[id], remote, uidNext) :: s.rows[id])
  }

  // ----- what else happens to the rows -----

  /** A new state of a row: items that stay are the same, items that come have new ids, and a new snooze takes a thread
      that is not snoozed. */
  predicate MayChange(s: Cache, id: int, state: State) {
    && id in s.rows
    && (forall slot :: slot in state.items ==>
          || (slot in s.rows[id].state.items && state.items[slot].id == s.rows[id].state.items[slot].id
              && state.items[slot].thread == s.rows[id].state.items[slot].thread)
          || state.items[slot].id >= s.nextItem)
    && (forall slot, other :: slot in state.items && other in state.items && slot != other && TableOf(slot) == TableOf(other)
          ==> state.items[slot].id != state.items[other].id)
    && (SnoozeSlot in state.items ==>
          && state.items[SnoozeSlot].thread !in s.elsewhere
          && forall other :: other in s.rows && other != id ==> !SnoozedFor(s.rows[other].state, state.items[SnoozeSlot].thread))
  }

  /** Ids up to above all that the state uses are taken. */
  function Change(s: Cache, id: int, state: State, nextItem: int): Cache {
    if MayChange(s, id, state) && s.nextItem <= nextItem && (forall slot :: slot in state.items ==> state.items[slot].id < nextItem)
    then s.(rows := s.rows[id := s.rows[id].(state := state)], nextItem := nextItem)
    else s
  }

  function Unsnoozed(saved: Saved, thread: int): Saved {
    if SnoozedFor(saved.state, thread) then
      saved.(state := saved.state.(items := map slot | slot in saved.state.items && slot != SnoozeSlot && !slot.ReminderSlot?
                                                     :: saved.state.items[slot]))
    else saved
  }

  datatype Step =
    | WasReset(generation: int, floor: int)
    | Created(i: Import)
    | Checkpointed(uid: int, expected: int)
    | Initialized(uidValidity: int)
    | FloorSet(target: int, floor: int)
    | Finalized(target: int)
    | Reconciled(remote: set<int>, uidValidity: int, uidNext: int)
    | Changed(id: int, state: State, nextItem: int)
    | JournalUnsnoozed(thread: int)
    | SnoozedElsewhere(threads: set<int>)
    | OutboxStored(row: Row)
    | Removed(id: int)

  ghost function Apply(s: Cache, step: Step): Cache {
    match step
    case WasReset(generation, floor) => Reset(s, generation, floor)
    case Created(i) => Create(s, i)
    case Checkpointed(uid, expected) => UpdateLastUid(s, uid, expected)
    case Initialized(uidValidity) => InitializeStatus(s, uidValidity)
    case FloorSet(target, floor) => InitializeFloor(s, target, floor)
    case Finalized(target) => FinalizeRebuild(s, target)
    case Reconciled(remote, uidValidity, uidNext) => Reconcile(s, remote, uidValidity, uidNext)
    case Changed(id, state, nextItem) => Change(s, id, state, nextItem)
    case JournalUnsnoozed(thread) => s.(journal := map j | j in s.journal :: Unsnoozed(s.journal[j], thread))
    case SnoozedElsewhere(threads) =>
      if forall id, thread :: id in s.rows && thread in threads ==> !SnoozedFor(s.rows[id].state, thread)
      then s.(elsewhere := threads) else s
    case OutboxStored(row) =>
      if row.outboxJob != 0 && !HasUid(s, row.uid) && row.state.items == map[]
      then s.(rows := s.rows[s.nextRow := row], nextRow := s.nextRow + 1) else s
    case Removed(id) => s.(rows := s.rows - {id})
  }

  ghost function Execute(s: Cache, steps: seq<Step>): Cache {
    if steps == [] then s else Apply(Execute(s, steps[..|steps| - 1]), steps[|steps| - 1])
  }
}
