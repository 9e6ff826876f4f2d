/** The transactions on the ledger. One that is refused, or fails half-way, leaves the ledger as it was. */
module LedgerSteps {

  import opened Bytes
  import opened Candidates
  import opened LedgerState
  import opened LedgerVerdict
  import HeaderText

  // ----- arrivals -----

  /** Announces a message that was not announced before, and counts it for the run it came with. */
  function Announce(s: Ledger, id: int, run: int, account: int, now: int): Ledger {
    if id in s.events then s
    else
      s.(events := s.events[id := now],
         runs := if run in s.runs && s.runs[run].account == account
                 then s.runs[run := s.runs[run].(announced := s.runs[run].announced + 1)] else s.runs)
  }

  /** A run given now takes the place of the one recorded before. */
  function EitherRun(given: int, recorded: int): int {
    if given > 0 then given else recorded
  }

  /** An undecided arrival after its verdict. */
  function Decided(a: Arrival, v: Verdict, now: int): Arrival {
    a.(outcome := v.outcome, transfer := v.transfer, tombstone := v.tombstone,
       finalizedAt := if v.outcome == Undecided then 0 else now)
  }

  function NewArrival(s: Ledger, m: Message, run: int, fingerprint: Fingerprint, v: Verdict, now: int): Arrival {
    var held := v.outcome == Undecided;
    Arrival(s.nextArrival, m.account, m.mailbox, run, v.outcome, fingerprint, v.transfer, v.tombstone,
            now, if held then now + HOLD_SECONDS else now, if held then 0 else now)
  }

  function Record(s: Ledger, id: int, a: Arrival): Ledger {
    s.(arrivals := s.arrivals[id := a])
  }

  function Stamp(s: Ledger, id: int, fingerprint: Fingerprint): Ledger
    requires id in s.messages
  {
    s.(messages := s.messages[id := Stamped(s.messages[id], fingerprint)])
  }

  /** An arrival decided before: a delivery makes sure of its announcement, anything else stays as it is. */
  function Reheld(s: Ledger, id: int, run: int, now: int): Ledger
    requires id in s.arrivals
  {
    var a := s.arrivals[id];
    if a.outcome != Delivery then s
    else
      var effective := EitherRun(run, a.run);
      Record(Announce(s, id, effective, a.account, now), id, a.(run := effective))
  }

  /** Uses up what the verdict stands on and records the arrival it was given for. */
  function Settle(s: Ledger, v: Verdict, id: int, a: Arrival, now: int): Ledger {
    Record(Consume(s, v, id, now), id, a).(nextArrival := if id in s.arrivals then s.nextArrival else s.nextArrival + 1)
  }

  /** The arrival's first or repeated hold while it is undecided. */
  ghost function HeldOpen(s: Ledger, id: int, run: int, fingerprint: Fingerprint, now: int): Ledger
    requires id in s.messages
  {
    var m := s.messages[id];
    var v := Classify(s, id, m, fingerprint, now);
    Settle(s, v, id,
           if id in s.arrivals then Decided(s.arrivals[id].(run := EitherRun(run, s.arrivals[id].run)), v, now)
           else NewArrival(s, m, run, fingerprint, v, now),
           now)
  }

  predicate RunOf(s: Ledger, run: int, account: int) {
    run in s.runs && s.runs[run].account == account
  }

  /** Whether the message may be held, for the run, with the fingerprint that is supplied. */
  predicate MayHold(s: Ledger, id: int, run: int, supplied: Fingerprint) {
    && id in s.messages && run >= 0 && Resolve(s.messages[id], supplied).Some?
    && (run > 0 ==> RunOf(s, run, s.messages[id].account))
  }

  ghost function Hold(s: Ledger, id: int, run: int, supplied: Fingerprint, now: int): Ledger {
    if id !in s.messages || run < 0 then s
    else
      match Resolve(s.messages[id], supplied)
      case None => s
      case Some(fingerprint) =>
        if run > 0 && !RunOf(s, run, s.messages[id].account) then s
        else
          var pruned := Prune(Stamp(s, id, fingerprint), now);
          if id in pruned.arrivals && pruned.arrivals[id].outcome != Undecided then Reheld(pruned, id, run, now)
          else HeldOpen(pruned, id, run, fingerprint, now)
  }

  /** Whether markers of mailboxes under rebuild let the arrival be decided. */
  predicate Eligible(s: Ledger, id: int, a: Arrival) {
    || (forall mb :: mb in s.markers ==> s.markers[mb].account != a.account)
    || (&& a.mailbox in s.markers && s.markers[a.mailbox].account == a.account && s.markers[a.mailbox].floor > 0
        && a.mailbox in s.mailboxes && s.mailboxes[a.mailbox].account == a.account
        && s.mailboxes[a.mailbox].isInbox && s.mailboxes[a.mailbox].uidValidity == s.markers[a.mailbox].target
        && id in s.messages && s.messages[id].account == a.account && s.messages[id].mailbox == a.mailbox
        && s.messages[id].uidValidity == s.markers[a.mailbox].target && s.messages[id].uid >= s.markers[a.mailbox].floor
        && forall mb :: mb in s.markers && mb != a.mailbox ==> s.markers[mb].account != a.account)
  }

  predicate Due(s: Ledger, id: int, account: int, now: int) {
    && id in s.arrivals && s.arrivals[id].account == account && s.arrivals[id].outcome == Undecided
    && s.arrivals[id].availableAt <= now && Eligible(s, id, s.arrivals[id])
  }

  function DueRows(s: Ledger, account: int, now: int): set<Candidate> {
    set id | id in s.arrivals && Due(s, id, account, now) :: Candidate(s.arrivals[id].availableAt, s.arrivals[id].id)
  }

  /** The arrivals to finalize, oldest deadline first, as many as one batch takes. */
  ghost function DueBatch(s: Ledger, account: int, now: int): seq<Candidate> {
    Take(DueRows(s, account, now), DUE_BATCH)
  }

  ghost predicate HasArrival(s: Ledger, arrival: int) {
    exists id :: id in s.arrivals && s.arrivals[id].id == arrival
  }

  ghost function MessageOf(s: Ledger, arrival: int): (id: int)
    requires HasArrival(s, arrival)
    ensures id in s.arrivals && s.arrivals[id].id == arrival
  {
    var id :| id in s.arrivals && s.arrivals[id].id == arrival;
    id
  }

  function Deliver(s: Ledger, id: int, a: Arrival, account: int, now: int): Ledger {
    Record(Announce(s, id, a.run, account, now), id, a.(outcome := Delivery, finalizedAt := now))
  }

  /** Decides one due arrival: a move found late, or else a delivery. */
  ghost function Conclude(s: Ledger, id: int, fingerprint: Fingerprint, account: int, now: int): Ledger
    requires id in s.arrivals && id in s.messages
  {
    var a, v := s.arrivals[id], Classify(s, id, s.messages[id], fingerprint, now);
    if v.outcome != Undecided then
      if a.outcome == Undecided then Settle(s, v, id, Decided(a, v, now), now) else Consume(s, v, id, now)
    else
      if a.outcome == Undecided then Deliver(s, id, a, account, now) else Announce(s, id, a.run, account, now)
  }

  ghost function FinalizeOne(s: Ledger, id: int, account: int, now: int): Option<Ledger> {
    if id !in s.arrivals || id !in s.messages then Some(s)
    else
      match Resolve(s.messages[id], s.arrivals[id].fingerprint)
      case None => None
      case Some(fingerprint) => Some(Conclude(Stamp(s, id, fingerprint), id, fingerprint, account, now))
  }

  ghost function FinalizeEach(s: Ledger, due: seq<Candidate>, account: int, now: int): Option<Ledger>
    decreases |due|
  {
    if due == [] then Some(s)
    else if !HasArrival(s, due[0].id) then FinalizeEach(s, due[1..], account, now)
    else
      match FinalizeOne(s, MessageOf(s, due[0].id), account, now)
      case None => None
      case Some(next) => FinalizeEach(next, due[1..], account, now)
  }

  ghost function FinalizeDue(s: Ledger, account: int, now: int): Ledger {
    var pruned := Prune(s, now);
    match FinalizeEach(pruned, DueBatch(pruned, account, now), account, now)
    case None => s
    case Some(next) => next
  }

  function DeferRow(a: Arrival, listed: bool, account: int, retryAt: int): Arrival {
    if listed && a.account == account && a.outcome == Undecided then a.(availableAt := retryAt) else a
  }

  /** Puts off the undecided arrivals of the listed messages; no list, too long a list or a bad id puts off nothing. */
  function Defer(s: Ledger, account: int, ids: seq<int>, retryAt: int): Ledger {
    if |ids| > DUE_BATCH || (exists i :: 0 <= i < |ids| && ids[i] <= 0) then s
    else s.(arrivals := map id | id in s.arrivals :: DeferRow(s.arrivals[id], id in ids, account, retryAt))
  }

  // ----- transfers -----

  /** The same remote operation, still unresolved or resolved so recently that a retry means the same one. */
  predicate SameOperation(t: Transfer, m: Message, kind: Kind, account: int, destination: int, now: int) {
    && t.sourceMailbox != 0 && t.sourceAccount == m.account && t.sourceMailbox == m.mailbox
    && t.sourceUid == m.uid && t.sourceUidValidity == m.uidValidity && t.kind == kind
    && (kind == Move || (t.account == account && t.mailbox == destination))
    && (Unresolved(t) || (t.state == Consumed && t.expiresAt > now))
  }

  function Active(transfers: map<int, Transfer>): set<int> {
    set t | t in transfers && Unresolved(transfers[t])
  }

  function NewTransfer(m: Message, kind: Kind, account: int, destination: int, fingerprint: Fingerprint, now: int): Transfer {
    Transfer(kind, Pending, m.account, m.mailbox, m.uid, m.uidValidity, account, destination, 0, 0, fingerprint,
             0, [], 0, 0, 0, 0, 0, 0, 0, now + TRANSFER_TTL)
  }

  predicate MayStage(s: Ledger, source: int, destination: int, kind: Kind) {
    && source in s.messages && destination in s.mailboxes && s.messages[source].mailbox in s.mailboxes
    && s.messages[source].outboxJob == 0
    && (kind == Move ==>
          && s.messages[source].account == s.mailboxes[destination].account
          && s.messages[source].uidValidity > 0
          && s.mailboxes[s.messages[source].mailbox].uidValidity == s.messages[source].uidValidity)
  }

  function Stage(s: Ledger, source: int, destination: int, kind: Kind, canonical: int, now: int): Ledger {
    if !MayStage(s, source, destination, kind) then s
    else
      match Resolve(s.messages[source], Fingerprint(0, canonical, 0, 0, 0))
      case None => s
      case Some(fingerprint) =>
        var m, account := s.messages[source], s.mailboxes[destination].account;
        var live := Stamp(s, source, fingerprint).(transfers := LiveTransfers(s.transfers, now));
        if exists t :: t in live.transfers && SameOperation(live.transfers[t], m, kind, account, destination, now)
        then live
        else if |Active(live.transfers)| >= MAX_UNRESOLVED_TRANSFERS then s
        else
          live.(transfers := live.transfers[s.nextTransfer := NewTransfer(m, kind, account, destination, fingerprint, now)],
                nextTransfer := s.nextTransfer + 1)
  }

  function Update(s: Ledger, t: int, row: Transfer): Ledger {
    s.(transfers := s.transfers[t := row])
  }

  predicate ValidOwner(owner: seq<Byte>) {
    0 < |HeaderText.TrimSpace(owner)| <= 128
  }

  predicate Claimable(s: Ledger, t: int) {
    t in s.transfers && s.transfers[t].state == Pending && s.transfers[t].dispatchedAt == 0
  }

  function Claim(s: Ledger, t: int, owner: seq<Byte>, now: int): Ledger {
    if ValidOwner(owner) && Claimable(s, t) then
      var row := s.transfers[t];
      Update(s, t, row.(dispatchedAt := now, owner := HeaderText.TrimSpace(owner), attempt := row.attempt + 1,
                        finishedAt := 0))
    else s
  }

  /** The claim is the one that is open. */
  predicate Holds(s: Ledger, t: int, owner: seq<Byte>, attempt: int) {
    && t in s.transfers && s.transfers[t].state == Pending && s.transfers[t].dispatchedAt > 0
    && s.transfers[t].owner == owner && s.transfers[t].attempt == attempt
  }

  function Finish(s: Ledger, t: int, owner: seq<Byte>, attempt: int, now: int): Ledger {
    if HeaderText.TrimSpace(owner) != [] && attempt > 0 && Holds(s, t, owner, attempt)
    then Update(s, t, s.transfers[t].(finishedAt := now)) else s
  }

  /** The comparison with the current owner is of the bytes as they come, untrimmed. */
  function Reopen(s: Ledger, t: int, owner: seq<Byte>, attempt: int, currentOwner: seq<Byte>): Ledger {
    if && HeaderText.TrimSpace(currentOwner) != [] && attempt >= 0 && Holds(s, t, owner, attempt)
       && (s.transfers[t].finishedAt > 0 || s.transfers[t].owner != currentOwner)
    then Update(s, t, s.transfers[t].(dispatchedAt := 0, owner := [], finishedAt := 0)) else s
  }

  function Snapshot(s: Ledger, t: int, uidValidity: int, uidNext: int): Ledger {
    if && uidValidity > 0 && uidNext > 0 && Claimable(s, t)
       && s.transfers[t].kind == Copy && s.transfers[t].snapshotUidValidity == 0
    then Update(s, t, s.transfers[t].(snapshotUidValidity := uidValidity, snapshotUidNext := uidNext)) else s
  }

  function AtFirst(at: int, now: int): int {
    if at == 0 then now else at
  }

  function Succeed(s: Ledger, t: int, uid: int, uidValidity: int, now: int): Ledger {
    if uidValidity >= 0 && t in s.transfers && s.transfers[t].state != Failed then
      var row := s.transfers[t];
      Update(s, t, row.(state := if row.state == Consumed then Consumed else Succeeded,
                        uid := if uid > 0 then uid else row.uid,
                        uidValidity := if uidValidity > 0 then uidValidity else row.uidValidity,
                        completedAt := AtFirst(row.completedAt, now)))
    else s
  }

  /** Retires a completed transfer into a mailbox whose arrivals are not classified. */
  function Terminalize(s: Ledger, t: int, now: int): Ledger {
    if && t in s.transfers && (s.transfers[t].state == Succeeded || s.transfers[t].state == Consumed)
       && s.transfers[t].mailbox in s.mailboxes && !s.mailboxes[s.transfers[t].mailbox].isInbox
    then
      var row := s.transfers[t];
      Update(s, t, row.(state := Consumed,
                        consumedAt := if row.state == Succeeded then now else row.consumedAt,
                        completedAt := AtFirst(row.completedAt, now),
                        expiresAt := if row.state == Succeeded then now + TRANSFER_TTL else row.expiresAt))
    else s
  }

  function Fail(s: Ledger, t: int, now: int): Ledger {
    if t in s.transfers && (s.transfers[t].state == Pending || s.transfers[t].state == Failed) then
      var row := s.transfers[t];
      Update(s, t, row.(state := Failed, completedAt := AtFirst(row.completedAt, now),
                        expiresAt := if row.expiresAt <= now + TOMBSTONE_TTL then row.expiresAt else now + TOMBSTONE_TTL))
    else s
  }

  // ----- expunges -----

  predicate MovesSource(t: Transfer, m: Message) {
    && t.kind == Move && t.sourceMailbox != 0 && t.sourceAccount == m.account && t.sourceMailbox == m.mailbox
    && t.sourceUid == m.uid && t.sourceUidValidity == m.uidValidity
    && (t.state == Succeeded || t.state == Consumed || InFlight(t))
  }

  function Settledness(t: Transfer): int {
    match t.state case Consumed => 1 case Succeeded => 2 case _ => 3
  }

  /** The moves that may explain the vanished message; the newest of the most settled ones speaks. The highest id
      comes first, so it is counted down from the next id. */
  function SourceMoves(s: Ledger, m: Message): set<Candidate> {
    set t | t in s.transfers && t < s.nextTransfer && MovesSource(s.transfers[t], m)
          :: Candidate(Settledness(s.transfers[t]), s.nextTransfer - t)
  }

  predicate IsKnown(s: Ledger, m: Message) {
    exists f :: f in s.tombstones && s.tombstones[f].account == m.account && s.tombstones[f].mailbox == m.mailbox
             && s.tombstones[f].uid == m.uid && s.tombstones[f].uidValidity == m.uidValidity
  }

  function Bury(s: Ledger, m: Message, fingerprint: Fingerprint, now: int): Ledger {
    if IsKnown(s, m) then s
    else
      s.(tombstones := s.tombstones[s.nextTombstone :=
           Tombstone(m.account, m.mailbox, m.uid, m.uidValidity, fingerprint, 0, now, 0, now + TOMBSTONE_TTL)],
         nextTombstone := s.nextTombstone + 1)
  }

  /** A move in flight whose source vanished has arrived: into an Inbox it will explain an arrival, elsewhere it is
      done. */
  function ResolveMove(s: Ledger, t: int, now: int): Ledger {
    if t !in s.transfers || s.transfers[t].state != Pending then s
    else
      var row := s.transfers[t].(completedAt := AtFirst(s.transfers[t].completedAt, now));
      var intoInbox := row.mailbox in s.mailboxes && s.mailboxes[row.mailbox].isInbox;
      Update(s, t, if intoInbox then row.(state := Succeeded)
                   else row.(state := Consumed, consumedAt := now, expiresAt := now + TRANSFER_TTL))
  }

  /** A source that vanished resolves a move of unknown outcome; without a move it leaves a tombstone. */
  ghost function Expunge(s: Ledger, id: int, canonical: int, now: int): Ledger {
    if id !in s.messages || s.messages[id].mailbox !in s.mailboxes then s
    else
      var m, mailbox := s.messages[id], s.mailboxes[s.messages[id].mailbox];
      if m.uidValidity <= 0 || m.uidValidity != mailbox.uidValidity || mailbox.isAllMail then s
      else if SourceMoves(s, m) != {} then ResolveMove(s, s.nextTransfer - First(SourceMoves(s, m)).id, now)
      else
        match Resolve(m, Fingerprint(0, canonical, 0, 0, 0))
        case None => s
        case Some(fingerprint) => Bury(Stamp(s, id, fingerprint), m, fingerprint, now)
  }

  /** Whether the expunge of the message can be recorded: it is there, and if it would leave a tombstone, the digest that
      is supplied does not contradict it. */
  predicate MayExpunge(s: Ledger, id: int, canonical: int) {
    && id in s.messages && s.messages[id].mailbox in s.mailboxes
    && var m, mailbox := s.messages[id], s.mailboxes[s.messages[id].mailbox];
    (m.uidValidity <= 0 || m.uidValidity != mailbox.uidValidity || mailbox.isAllMail || SourceMoves(s, m) != {}
     || Resolve(m, Fingerprint(0, canonical, 0, 0, 0)).Some?)
  }

  function Digest(canonical: map<int, int>, id: int): int {
    if id in canonical then canonical[id] else 0
  }

  /** Expunges the messages one after another, each with its deletion; None when one of them cannot be recorded. */
  ghost function ExpungeEach(s: Ledger, stale: seq<int>, canonical: map<int, int>, now: int): Option<Ledger>
    decreases |stale|
  {
    if stale == [] then Some(s)
    else if !MayExpunge(s, stale[0], Digest(canonical, stale[0])) then None
    else ExpungeEach(Delete(Expunge(s, stale[0], Digest(canonical, stale[0]), now), {stale[0]}), stale[1..], canonical, now)
  }

  /** The rows, of those listed, that a complete listing of the mailbox shows to be gone. */
  function Missing(s: Ledger, local: seq<int>, remote: set<int>, uidNext: int): (stale: seq<int>)
    requires forall i :: 0 <= i < |local| ==> local[i] in s.messages
    ensures forall id :: id in stale <==> id in local && s.messages[id].uid < uidNext && s.messages[id].uid !in remote
  {
    if local == [] then []
    else
      var last := local[|local| - 1];
      Missing(s, local[..|local| - 1], remote, uidNext)
      + if s.messages[last].uid < uidNext && s.messages[last].uid !in remote then [last] else []
  }

  /** Reconciles a mailbox with a listing of the server's that was taken of its generation. */
  ghost function ReconcileMailbox(s: Ledger, mailbox: int, local: seq<int>, remote: set<int>, uidValidity: int, uidNext: int,
                                  canonical: map<int, int>, now: int): Ledger
    requires forall i :: 0 <= i < |local| ==> local[i] in s.messages
  {
    if uidValidity <= 0 || uidNext <= 0 || mailbox !in s.mailboxes || s.mailboxes[mailbox].uidValidity != uidValidity then s
    else
      match ExpungeEach(s, Missing(s, local, remote, uidNext), canonical, now)
      case None => s
      case Some(t) => t
  }

  // ----- the world around the ledger -----

  function Forget(consumedMessage: int, gone: set<int>): int {
    if consumedMessage in gone then 0 else consumedMessage
  }

  /** Deletes message rows with what refers to them: arrivals and events go, tokens lose the reference. */
  function Delete(s: Ledger, gone: set<int>): Ledger {
    s.(messages := s.messages - gone, arrivals := s.arrivals - gone, events := s.events - gone,
       transfers := map t | t in s.transfers ::
                      s.transfers[t].(consumedMessage := Forget(s.transfers[t].consumedMessage, gone)),
       tombstones := map f | f in s.tombstones ::
                       s.tombstones[f].(consumedMessage := Forget(s.tombstones[f].consumedMessage, gone)))
  }

  /** Deletes a mailbox: its messages, the transfers into it, its tombstones and its marker go with it. */
  function Drop(s: Ledger, mailbox: int): Ledger {
    var left := Delete(s, set id | id in s.messages && s.messages[id].mailbox == mailbox);
    left.(mailboxes := left.mailboxes - {mailbox}, markers := left.markers - {mailbox},
          transfers := map t | t in left.transfers && left.transfers[t].mailbox != mailbox ::
                         if left.transfers[t].sourceMailbox == mailbox then left.transfers[t].(sourceMailbox := 0)
                         else left.transfers[t],
          tombstones := map f | f in left.tombstones && left.tombstones[f].mailbox != mailbox :: left.tombstones[f])
  }

  /** Puts back what a generation reset had put aside: an undecided arrival under its old id, an old event. */
  predicate MayRestore(s: Ledger, id: int, a: Arrival) {
    && id in s.messages && id !in s.arrivals && 0 < a.id < s.nextArrival
    && (forall other :: other in s.arrivals ==> s.arrivals[other].id != a.id)
    && a.outcome == Undecided && a.transfer == 0 && a.tombstone == 0 && a.finalizedAt == 0
    && a.account == s.messages[id].account && a.mailbox == s.messages[id].mailbox
    && (a.run > 0 ==> RunOf(s, a.run, a.account))
  }

  datatype ArrivalStep =
    | Held(id: int, run: int, supplied: Fingerprint)
    | Finalized(account: int)
    | Deferred(account: int, ids: seq<int>, retryAt: int)
    | Restored(id: int, arrival: Arrival)

  datatype TransferStep =
    | Staged(source: int, destination: int, kind: Kind, canonical: int)
    | Claimed(t: int, claimant: seq<Byte>)
    | Finished(t: int, claimant: seq<Byte>, attempt: int)
    | Reopened(t: int, claimant: seq<Byte>, attempt: int, currentOwner: seq<Byte>)
    | Snapshotted(t: int, uidValidity: int, uidNext: int)
    | Confirmed(t: int, uid: int, validity: int)
    | Terminalized(t: int)
    | Refused(t: int)
    | Expunged(id: int, canonical: int)

  datatype WorldStep =
    | Deleted(id: int)
    | Dropped(mailbox: int)
    | MailboxSet(mailbox: int, row: Mailbox)
    | Stored(id: int, message: Message)
    | Fingerprinted(id: int, canonical: int, messageId: int)
    | RunStarted(run: int, account: int)
    | RunReported(run: int, count: int)
    | Marked(mailbox: int, marker: Marker)
    | Unmarked(mailbox: int)
    | EventRestored(id: int, announcedAt: int)

  datatype Step = Arriving(arriving: ArrivalStep) | Transferring(transferring: TransferStep) | Turning(turning: WorldStep)

  ghost function DoArrival(s: Ledger, step: ArrivalStep, now: int): Ledger {
    match step
    case Held(id, run, supplied) => Hold(s, id, run, supplied, now)
    case Finalized(account) => FinalizeDue(s, account, now)
    case Deferred(account, ids, retryAt) => Defer(s, account, ids, retryAt)
    case Restored(id, arrival) => if MayRestore(s, id, arrival) then Record(s, id, arrival) else s
  }

  ghost function DoTransfer(s: Ledger, step: TransferStep, now: int): Ledger {
    match step
    case Staged(source, destination, kind, canonical) => Stage(s, source, destination, kind, canonical, now)
    case Claimed(t, claimant) => Claim(s, t, claimant, now)
    case Finished(t, claimant, attempt) => Finish(s, t, claimant, attempt, now)
    case Reopened(t, claimant, attempt, currentOwner) => Reopen(s, t, claimant, attempt, currentOwner)
    case Snapshotted(t, uidValidity, uidNext) => Snapshot(s, t, uidValidity, uidNext)
    case Confirmed(t, uid, validity) => Succeed(s, t, uid, validity, now)
    case Terminalized(t) => Terminalize(s, t, now)
    case Refused(t) => Fail(s, t, now)
    case Expunged(id, canonical) => Expunge(s, id, canonical, now)
  }

  /** The progress and finish updates of a run bring their own count of new messages; the larger one stays. */
  function Report(s: Ledger, run: int, count: int): Ledger {
    if run in s.runs && s.runs[run].announced < count then s.(runs := s.runs[run := s.runs[run].(announced := count)]) else s
  }

  function DoWorld(s: Ledger, step: WorldStep, now: int): Ledger {
    match step
    case Deleted(id) => Delete(s, {id})
    case Dropped(mailbox) => Drop(s, mailbox)
    case MailboxSet(mailbox, row) =>
      if mailbox in s.mailboxes && s.mailboxes[mailbox].account != row.account then s
      else s.(mailboxes := s.mailboxes[mailbox := row])
    case Stored(id, message) =>
      if id == 0 || id in s.messages || message.mailbox !in s.mailboxes then s
      else s.(messages := s.messages[id := message])
    case Fingerprinted(id, canonical, messageId) =>
      if id !in s.messages then s
      else s.(messages := s.messages[id := s.messages[id].(canonical := canonical, messageId := messageId)])
    case RunStarted(run, account) =>
      if run <= 0 || run in s.runs then s else s.(runs := s.runs[run := Run(account, 0)])
    case RunReported(run, count) => Report(s, run, count)
    case Marked(mailbox, marker) => s.(markers := s.markers[mailbox := marker])
    case Unmarked(mailbox) => s.(markers := s.markers - {mailbox})
    case EventRestored(id, announcedAt) =>
      if id in s.messages && id !in s.events && announcedAt <= now then s.(events := s.events[id := announcedAt]) else s
  }

  ghost function Do(s: Ledger, step: Step, now: int): Ledger {
    match step
    case Arriving(arriving) => DoArrival(s, arriving, now)
    case Transferring(transferring) => DoTransfer(s, transferring, now)
    case Turning(turning) => DoWorld(s, turning, now)
  }

  /** A step at an instant no earlier than the last one. */
  ghost function Apply(s: Ledger, step: Step, now: int): Ledger {
    if now < s.clock then s else Do(s.(clock := now), step, now)
  }

  datatype Timed = Timed(step: Step, at: int)

  ghost function Execute(s: Ledger, steps: seq<Timed>): Ledger {
    if steps == [] then s
    else Apply(Execute(s, steps[..|steps| - 1]), steps[|steps| - 1].step, steps[|steps| - 1].at)
  }

  function Empty(): Ledger {
    Ledger(1, map[], map[], map[], 1, map[], 1, map[], 1, map[], map[], map[])
  }
}
