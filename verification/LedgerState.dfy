/**
 One tenant's arrival and transfer ledger: its rows as finite maps, ids that are never reused, and the decision
 whether a new Inbox message was delivered or moved. Digests are opaque; 0 stands for the empty one, and for NULL
 where a column refers to another row.
 */
module LedgerState {

  import opened Bytes
  import opened Candidates

  const HOLD_SECONDS := 10
  const DUE_BATCH: nat := 100
  const FINALIZED_RETENTION := 7 * 24 * 3600
  const TRANSFER_TTL := 24 * 3600
  const TOMBSTONE_TTL := 15
  const MAX_UNRESOLVED_TRANSFERS := 10000

  datatype Fingerprint = Fingerprint(raw: int, canonical: int, messageId: int, date: int, size: int)

  datatype Mailbox = Mailbox(account: int, isInbox: bool, isAllMail: bool, uidValidity: int)

  /** A message row; raw is its blob's digest, header the hash of its Message-ID header as it stands. */
  datatype Message = Message(
    account: int, mailbox: int, uid: int, uidValidity: int, outboxJob: int,
    raw: int, canonical: int, messageId: int, header: int, date: int, size: int)

  datatype Kind = Move | Copy

  datatype TransferState = Pending | Succeeded | Failed | Consumed

  datatype Transfer = Transfer(
    kind: Kind, state: TransferState,
    sourceAccount: int, sourceMailbox: int, sourceUid: int, sourceUidValidity: int,
    account: int, mailbox: int, uid: int, uidValidity: int,
    fingerprint: Fingerprint,
    dispatchedAt: int, owner: seq<Byte>, attempt: int, finishedAt: int,
    snapshotUidValidity: int, snapshotUidNext: int,
    consumedMessage: int, consumedAt: int, completedAt: int, expiresAt: int)

  /** The fingerprint of a message seen to vanish from a mailbox. */
  datatype Tombstone = Tombstone(
    account: int, mailbox: int, uid: int, uidValidity: int, fingerprint: Fingerprint,
    consumedMessage: int, createdAt: int, consumedAt: int, expiresAt: int)

  datatype Class = Undecided | Delivery | LocalMove | LocalCopy | ExternalMove

  datatype Arrival = Arrival(
    id: int, account: int, mailbox: int, run: int, outcome: Class, fingerprint: Fingerprint,
    transfer: int, tombstone: int, createdAt: int, availableAt: int, finalizedAt: int)

  datatype Run = Run(account: int, announced: int)

  /** A mailbox under rebuild: the generation it is rebuilt for and the first UID that counts as new in it. */
  datatype Marker = Marker(account: int, target: int, floor: int)

  datatype Ledger = Ledger(
    clock: int,                                        // the latest instant any transaction ran at
    mailboxes: map<int, Mailbox>,
    messages: map<int, Message>,
    transfers: map<int, Transfer>, nextTransfer: int,
    tombstones: map<int, Tombstone>, nextTombstone: int,
    arrivals: map<int, Arrival>, nextArrival: int,     // by message
    events: map<int, int>,                             // by message: when it was announced
    runs: map<int, Run>,
    markers: map<int, Marker>)                         // by mailbox

  // ----- fingerprints -----

  predicate SameRaw(a: Fingerprint, b: Fingerprint) {
    a.raw != 0 && a.raw == b.raw
  }

  predicate SameCanonical(a: Fingerprint, b: Fingerprint) {
    a.canonical != 0 && a.canonical == b.canonical
  }

  predicate SameIdentity(a: Fingerprint, b: Fingerprint) {
    a.messageId != 0 && a.messageId == b.messageId && a.date == b.date && a.size == b.size
  }

  predicate Matches(a: Fingerprint, b: Fingerprint) {
    SameRaw(a, b) || SameCanonical(a, b) || SameIdentity(a, b)
  }

  const EXACT := 1
  const CANONICAL := 2
  const IDENTITY := 3

  function Strength(a: Fingerprint, b: Fingerprint): int {
    if SameRaw(a, b) then EXACT else if SameCanonical(a, b) then CANONICAL else IDENTITY
  }

  datatype Option<T> = Some(value: T) | None

  /** The fingerprint of a stored message, completed by a supplied one that must not contradict it. */
  function Resolve(m: Message, supplied: Fingerprint): Option<Fingerprint> {
    var canonical := if supplied.canonical != 0 then supplied.canonical else m.canonical;
    var messageId := if m.messageId != 0 then m.messageId else m.header;
    if supplied.raw != 0 && supplied.raw != m.raw then None
    else if m.canonical != 0 && supplied.canonical != 0 && m.canonical != supplied.canonical then None
    else if supplied.messageId != 0 && messageId != supplied.messageId then None
    else Some(Fingerprint(m.raw, canonical, messageId, m.date, m.size))
  }

  /** The message row after its fingerprint was written back. */
  function Stamped(m: Message, fingerprint: Fingerprint): Message {
    m.(canonical := fingerprint.canonical, messageId := fingerprint.messageId)
  }

  // ----- matching transfers -----

  /** The destination UID the server reported for the transfer. */
  predicate NamesDestination(t: Transfer, m: Message) {
    t.uid > 0 && t.uid == m.uid && t.uidValidity > 0 && m.uidValidity > 0 && t.uidValidity == m.uidValidity
  }

  predicate LacksDestination(t: Transfer) {
    t.uid == 0 || t.uidValidity == 0
  }

  predicate ExplainsArrival(t: Transfer, m: Message, fingerprint: Fingerprint) {
    && t.account == m.account && t.mailbox == m.mailbox && t.state == Succeeded
    && (NamesDestination(t, m) || (LacksDestination(t) && Matches(t.fingerprint, fingerprint)))
  }

  function TransferStrength(t: Transfer, m: Message, fingerprint: Fingerprint): int {
    if NamesDestination(t, m) then 0 else Strength(t.fingerprint, fingerprint)
  }

  function TransferRows(s: Ledger, m: Message, fingerprint: Fingerprint): set<Candidate> {
    set id | id in s.transfers && ExplainsArrival(s.transfers[id], m, fingerprint)
           :: Candidate(TransferStrength(s.transfers[id], m, fingerprint), id)
  }

  /** The succeeded transfer that explains the arrival, or 0. */
  ghost function MatchTransfer(s: Ledger, m: Message, fingerprint: Fingerprint): int {
    UnlessWeaklyTied(Take(TransferRows(s, m, fingerprint), 2), IDENTITY)
  }

  // ----- matching tombstones -----

  predicate SameSource(t: Transfer, f: Tombstone) {
    && t.sourceMailbox != 0
    && t.sourceAccount == f.account && t.sourceMailbox == f.mailbox
    && t.sourceUid == f.uid && t.sourceUidValidity == f.uidValidity
  }

  /** A dispatched move whose outcome is still unknown. */
  predicate InFlight(t: Transfer) {
    t.kind == Move && t.state == Pending && t.dispatchedAt > 0
  }

  function Distance(a: int, b: int): int {
    if a < b then b - a else a - b
  }

  /** A pending arrival close enough in time to be the other half of what the tombstone saw. */
  predicate HoldsOpen(a: Arrival, f: Tombstone) {
    && a.account == f.account && a.mailbox != f.mailbox && a.outcome == Undecided
    && Distance(a.createdAt, f.createdAt) <= TOMBSTONE_TTL && Matches(a.fingerprint, f.fingerprint)
  }

  /** Whether the tombstone may still be matched by the arrival of message id. */
  predicate Alive(s: Ledger, f: Tombstone, id: int, m: Message, now: int) {
    || f.expiresAt > now
    || (exists t :: t in s.transfers && SameSource(s.transfers[t], f) && InFlight(s.transfers[t])
                 && s.transfers[t].account == m.account && s.transfers[t].mailbox == m.mailbox
                 && Matches(s.transfers[t].fingerprint, f.fingerprint))
    || (id in s.arrivals && HoldsOpen(s.arrivals[id], f))
  }

  predicate ExplainsExpunge(s: Ledger, f: Tombstone, id: int, m: Message, fingerprint: Fingerprint, now: int) {
    && f.account == m.account && f.mailbox != m.mailbox
    && f.mailbox in s.mailboxes && !s.mailboxes[f.mailbox].isAllMail
    && f.consumedAt == 0 && Alive(s, f, id, m, now) && Matches(f.fingerprint, fingerprint)
  }

  function TombstoneRows(s: Ledger, id: int, m: Message, fingerprint: Fingerprint, now: int): set<Candidate> {
    set f | f in s.tombstones && ExplainsExpunge(s, s.tombstones[f], id, m, fingerprint, now)
          :: Candidate(Strength(s.tombstones[f].fingerprint, fingerprint), f)
  }

  ghost function MatchTombstone(s: Ledger, id: int, m: Message, fingerprint: Fingerprint, now: int): int {
    UnlessTied(Take(TombstoneRows(s, id, m, fingerprint, now), 2))
  }

  function Plain(id: int): Candidate {
    Candidate(0, id)
  }

  ghost function Oldest(rows: set<Candidate>): int {
    if rows == {} then 0 else First(rows).id
  }

  predicate FromPlaceOf(t: Transfer, f: Tombstone) {
    t.sourceMailbox == f.mailbox && t.sourceUid == f.uid && t.sourceUidValidity == f.uidValidity
  }

  /** A tombstone of the moved message itself, recorded by a reconciliation that raced with the move. */
  predicate OfSource(f: Tombstone, t: Transfer, m: Message, fingerprint: Fingerprint, now: int) {
    && f.account == m.account && FromPlaceOf(t, f) && f.consumedAt == 0 && f.expiresAt > now && Matches(f.fingerprint, fingerprint)
  }

  function SourceRows(s: Ledger, t: Transfer, m: Message, fingerprint: Fingerprint, now: int): set<Candidate> {
    set f | f in s.tombstones && OfSource(s.tombstones[f], t, m, fingerprint, now) :: Plain(f)
  }

  ghost function SourceTombstone(s: Ledger, t: Transfer, m: Message, fingerprint: Fingerprint, now: int): int {
    if t.sourceMailbox <= 0 || t.sourceUid == 0 || t.sourceUidValidity <= 0 then 0
    else Oldest(SourceRows(s, t, m, fingerprint, now))
  }

  /** A move in flight that the vanished message and this arrival are the two ends of. */
  predicate JoinsBoth(t: Transfer, f: Tombstone, m: Message, fingerprint: Fingerprint) {
    && SameSource(t, f) && InFlight(t) && t.account == m.account && t.mailbox == m.mailbox
    && Matches(t.fingerprint, fingerprint)
  }

  function FlightRows(s: Ledger, f: Tombstone, m: Message, fingerprint: Fingerprint): set<Candidate> {
    set t | t in s.transfers && JoinsBoth(s.transfers[t], f, m, fingerprint) :: Plain(t)
  }

  ghost function MoveInFlight(s: Ledger, f: Tombstone, m: Message, fingerprint: Fingerprint): int {
    Oldest(FlightRows(s, f, m, fingerprint))
  }

  // ----- the decision and what it uses up -----

  datatype Verdict = Verdict(outcome: Class, transfer: int, tombstone: int)

  ghost function Classify(s: Ledger, id: int, m: Message, fingerprint: Fingerprint, now: int): Verdict {
    var t := MatchTransfer(s, m, fingerprint);
    if t > 0 && t in s.transfers then
      if s.transfers[t].kind == Copy then Verdict(LocalCopy, t, 0)
      else Verdict(LocalMove, t, SourceTombstone(s, s.transfers[t], m, fingerprint, now))
    else
      var f := MatchTombstone(s, id, m, fingerprint, now);
      if f > 0 && f in s.tombstones then
        var move := MoveInFlight(s, s.tombstones[f], m, fingerprint);
        if move > 0 then Verdict(LocalMove, move, f) else Verdict(ExternalMove, 0, f)
      else Verdict(Undecided, 0, 0)
  }

  function UseTransfer(t: Transfer, id: int, now: int): Transfer {
    t.(state := Consumed, consumedMessage := id, consumedAt := now)
  }

  function UseTombstone(f: Tombstone, id: int, now: int): Tombstone {
    f.(consumedMessage := id, consumedAt := now)
  }

  function Consume(s: Ledger, v: Verdict, id: int, now: int): Ledger {
    var t, f := v.transfer, v.tombstone;
    s.(transfers := if t in s.transfers then s.transfers[t := UseTransfer(s.transfers[t], id, now)] else s.transfers,
       tombstones := if f in s.tombstones then s.tombstones[f := UseTombstone(s.tombstones[f], id, now)]
                     else s.tombstones)
  }

  // ----- pruning -----

  predicate Spent(t: Transfer, now: int) {
    (t.state == Failed || t.state == Consumed) && t.expiresAt <= now
  }

  /** Past its time, and neither a move in flight nor a held arrival may still need it. */
  predicate Stale(s: Ledger, f: Tombstone, now: int) {
    && f.expiresAt <= now
    && (forall t :: t in s.transfers && SameSource(s.transfers[t], f) && InFlight(s.transfers[t])
                    ==> !Matches(s.transfers[t].fingerprint, f.fingerprint))
    && (forall id :: id in s.arrivals ==> !HoldsOpen(s.arrivals[id], f))
  }

  predicate Outlived(a: Arrival, now: int) {
    0 < a.finalizedAt && a.finalizedAt <= now - FINALIZED_RETENTION
  }

  function LiveTransfers(transfers: map<int, Transfer>, now: int): map<int, Transfer> {
    map t | t in transfers && !Spent(transfers[t], now) :: transfers[t]
  }

  /** Three deletes in a row: each sees what the one before it left. */
  function Prune(s: Ledger, now: int): Ledger {
    var s1 := s.(transfers := LiveTransfers(s.transfers, now));
    var s2 := s1.(tombstones := map f | f in s1.tombstones && !Stale(s1, s1.tombstones[f], now) :: s1.tombstones[f]);
    s2.(arrivals := map id | id in s2.arrivals && !Outlived(s2.arrivals[id], now) :: s2.arrivals[id])
  }
}
