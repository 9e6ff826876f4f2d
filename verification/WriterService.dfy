/**
 Index writes end to end: beginWrite, admission by the coordinator, the per-index gate, the
 operation itself, and the close that waits for all of them. One event per atomic step;
 cancellation may strike at every wait.
 */
module WriterService {
  import opened Saturating
  import opened CoordinatorState
  import opened CoordinatorProgress
  import W = WriterLock

  datatype Phase =
    | Begun        // counted in writes, no request made yet
    | Waiting      // inside Acquire
    | Admitted     // Acquire returned the lease
    | Queueing     // standing in line at the gate
    | Locked       // the gate is ours, the operation has not started
    | Running      // the operation is using the index
    | Leaving      // the lease is still to be released
    | Settling     // writes.Done is still to be called
    | Finished

  datatype Ticket = NoTicket | Ticket(number: nat)

  datatype Operation = Operation(user: int, phase: Phase, ticket: Ticket, dones: nat, releases: nat)

  /** users and carriers remember whose request, and which operation's, drew each sequence number. */
  datatype Service = Service(
    perUser: bool, coordinator: Coordinator, users: map<nat, int>, carriers: map<nat, nat>, gates: map<int, W.Gate>,
    operations: map<nat, Operation>, writes: int, closing: bool, closed: bool)

  function Open(perUser: bool, config: Config): Service {
    Service(perUser, Initial(config), map[], map[], map[], map[], 0, false, false)
  }

  datatype Action =
    | Begin(p: nat, user: int)
    | Ask(p: nat, priority: nat, bytes: uint64, queuedAt: int, now: int)
    | GiveUp(p: nat)
    | Receive(p: nat, canceled: bool)
    | CancelWait(p: nat, now: int)
    | Reconcile(p: nat, newBytes: uint64, now: int)
    | Abandon(p: nat)
    | Lock(p: nat)
    | CancelLock(p: nat)
    | Start(p: nat)
    | Unlock(p: nat)
    | ReleaseLease(p: nat, now: int)
    | Done(p: nat)
    | Close
    | CloseHandles

  /** The gate of an operation: one per user index, or one shared by everybody. */
  function Key(s: Service, user: int): int {
    if s.perUser then user else 0
  }

  function GateOf(s: Service, key: int): W.Gate {
    if key in s.gates then s.gates[key] else W.OPEN
  }

  predicate In(s: Service, p: nat, phase: Phase) {
    p in s.operations && s.operations[p].phase == phase
  }

  function Move(s: Service, p: nat, phase: Phase): Service
    requires p in s.operations
  {
    s.(operations := s.operations[p := s.operations[p].(phase := phase)])
  }

  /** The lock passes to the first in line, who is running from then on. */
  function PassGate(s: Service, p: nat): Service
    requires p in s.operations
  {
    var key := Key(s, s.operations[p].user);
    var gate := GateOf(s, key);
    match W.HandOver(gate)
    case Panic => s
    case Ok(next) =>
      var t := s.(gates := s.gates[key := next]);
      if gate.waiters != [] && gate.waiters[0] in t.operations then Move(t, gate.waiters[0], Locked) else t
  }

  // One function per action; an action that is not enabled does nothing.

  function DoBegin(s: Service, p: nat, user: int): Service {
    if p in s.operations || s.closing then s
    else s.(operations := s.operations[p := Operation(user, Begun, NoTicket, 0, 0)], writes := s.writes + 1)
  }

  /** An operation sends the coordinator an event and becomes o. */
  function Tell(s: Service, p: nat, e: Event, o: Operation): Service {
    s.(coordinator := Apply(s.coordinator, e), operations := s.operations[p := o])
  }

  function DoAsk(s: Service, p: nat, e: Event): Service {
    if !In(s, p, Begun) || !e.Requested? || e.user != s.operations[p].user then s
    else
      var number := s.coordinator.nextSequence;
      s.(coordinator := Apply(s.coordinator, e),
         users := s.users[number := e.user],
         carriers := s.carriers[number := p],
         operations := s.operations[p := s.operations[p].(phase := Waiting, ticket := Ticket(number))])
  }

  function DoReceive(s: Service, p: nat, canceled: bool): Service {
    if In(s, p, Waiting) && s.operations[p].ticket.Ticket? && s.operations[p].ticket.number in s.coordinator.leases
    then Move(s, p, if canceled then Leaving else Admitted) else s
  }

  function DoCancelWait(s: Service, p: nat, now: int): Service {
    if !(In(s, p, Waiting) && s.operations[p].ticket.Ticket?) then s
    else
      var number := s.operations[p].ticket.number;
      var granted := number in s.coordinator.states && s.coordinator.states[number] == Granted;
      Tell(s, p, Withdrawn(number, now), s.operations[p].(phase := if granted then Leaving else Settling))
  }

  function DoReconcile(s: Service, p: nat, newBytes: uint64, now: int): Service {
    if In(s, p, Admitted) && s.operations[p].ticket.Ticket?
    then Tell(s, p, Resized(s.operations[p].ticket.number, newBytes, now), s.operations[p]) else s
  }

  function DoLock(s: Service, p: nat): Service {
    if !In(s, p, Admitted) then s
    else
      var key := Key(s, s.operations[p].user);
      var (gate, acquired) := W.Join(GateOf(s, key), p);
      Move(s, p, if acquired then Locked else Queueing).(gates := s.gates[key := gate])
  }

  function DoCancelLock(s: Service, p: nat): Service {
    if !In(s, p, Queueing) then s
    else
      var key := Key(s, s.operations[p].user);
      var (gate, removed) := W.StepOut(GateOf(s, key), p);
      if removed then Move(s, p, Leaving).(gates := s.gates[key := gate]) else s
  }

  function DoUnlock(s: Service, p: nat): Service {
    if In(s, p, Locked) || In(s, p, Running) then PassGate(Move(s, p, Leaving), p) else s
  }

  function DoRelease(s: Service, p: nat, now: int): Service {
    if !(In(s, p, Leaving) && s.operations[p].ticket.Ticket?) then s
    else
      var o := s.operations[p];
      Tell(s, p, Released(o.ticket.number, now), o.(phase := Settling, releases := o.releases + 1))
  }

  function DoDone(s: Service, p: nat): Service {
    if !In(s, p, Settling) then s
    else
      var o := s.operations[p];
      s.(operations := s.operations[p := o.(phase := Finished, dones := o.dones + 1)], writes := s.writes - 1)
  }

  function Advance(s: Service, p: nat, from: Phase, to: Phase): Service {
    if In(s, p, from) then Move(s, p, to) else s
  }

  function Next(s: Service, a: Action): Service {
    match a
    case Begin(p, user) => DoBegin(s, p, user)
    case Ask(p, priority, bytes, queuedAt, now) =>
      if p in s.operations then DoAsk(s, p, Requested(s.operations[p].user, priority, bytes, queuedAt, now)) else s
    case GiveUp(p) => Advance(s, p, Begun, Settling)
    case Receive(p, canceled) => DoReceive(s, p, canceled)
    case CancelWait(p, now) => DoCancelWait(s, p, now)
    case Reconcile(p, newBytes, now) => DoReconcile(s, p, newBytes, now)
    case Abandon(p) => Advance(s, p, Admitted, Leaving)
    case Lock(p) => DoLock(s, p)
    case CancelLock(p) => DoCancelLock(s, p)
    case Start(p) => Advance(s, p, Locked, Running)
    case Unlock(p) => DoUnlock(s, p)
    case ReleaseLease(p, now) => DoRelease(s, p, now)
    case Done(p) => DoDone(s, p)
    case Close => s.(closing := true)
    case CloseHandles => if s.closing && s.writes == 0 then s.(closed := true) else s
  }

  function Run(s: Service, actions: seq<Action>): Service {
    if actions == [] then s else Next(Run(s, actions[..|actions| - 1]), actions[|actions| - 1])
  }

  // ----- the invariant -----

  predicate HoldsLease(phase: Phase) {
    phase in {Admitted, Queueing, Locked, Running, Leaving}
  }

  predicate OwnsGate(phase: Phase) {
    phase == Locked || phase == Running
  }

  /** How far an operation has come agrees with what the coordinator says of its ticket, and with
      the number of Done and Release calls it has made. */
  ghost predicate OperationInv(c: Coordinator, users: map<nat, int>, o: Operation) {
    && o.dones == (if o.phase == Finished then 1 else 0)
    && (o.ticket.Ticket? ==> o.ticket.number in c.states && o.ticket.number in users && users[o.ticket.number] == o.user)
    && (o.phase == Begun ==> o.ticket == NoTicket && o.releases == 0)
    && (o.phase == Waiting ==> o.ticket.Ticket? && o.releases == 0)
    && (o.phase == Waiting ==> StillQueued(c, o.ticket.number) || o.ticket.number in c.leases)
    && (HoldsLease(o.phase) ==> o.ticket.Ticket? && o.releases == 0 && o.ticket.number in c.leases)
    && (o.phase == Settling || o.phase == Finished ==>
          if o.ticket == NoTicket then o.releases == 0
          else if o.releases == 0 then Decided(c, o.ticket.number, Canceled)
          else o.releases == 1 && Decided(c, o.ticket.number, Granted))
  }

  /** Every request belongs to exactly one operation. */
  ghost predicate TicketInv(c: Coordinator, users: map<nat, int>, carriers: map<nat, nat>, operations: map<nat, Operation>) {
    && (forall p :: p in operations ==> OperationInv(c, users, operations[p]))
    && (forall p :: p in operations && operations[p].ticket.Ticket? ==>
          operations[p].ticket.number in carriers && carriers[operations[p].ticket.number] == p)
    && (forall n :: n in c.states ==>
          n in carriers && carriers[n] in operations && operations[carriers[n]].ticket == Ticket(n))
  }

  ghost predicate Owner(s: Service, key: int, p: nat) {
    p in s.operations && OwnsGate(s.operations[p].phase) && Key(s, s.operations[p].user) == key
  }

  ghost predicate Stands(s: Service, key: int, p: nat) {
    In(s, p, Queueing) && Key(s, s.operations[p].user) == key
  }

  /** The operation has had its gate, if it ever stood in line for it. */
  ghost predicate Past(s: Service, p: nat) {
    p in s.operations && s.operations[p].phase in {Locked, Running, Leaving, Settling, Finished}
  }

  /** One gate: held exactly by its single owner, and its line is exactly those queueing for it. */
  ghost predicate GateOk(s: Service, key: int) {
    var gate := GateOf(s, key);
    && W.Distinct(gate.waiters) && (gate.waiters != [] ==> gate.held)
    && (gate.held <==> exists p :: Owner(s, key, p))
    && (forall p, q :: Owner(s, key, p) && Owner(s, key, q) ==> p == q)
    && (forall p :: p in gate.waiters <==> Stands(s, key, p))
    && (forall p :: p in gate.granted ==> Past(s, p))
  }

  ghost predicate GateInv(s: Service) {
    && (forall key :: GateOk(s, key))
    && (s.perUser ==> forall p :: !In(s, p, Queueing))
  }

  ghost function Unfinished(operations: map<nat, Operation>): set<nat> {
    set p | p in operations && operations[p].phase != Finished
  }

  ghost predicate CountInv(s: Service) {
    && s.writes == |Unfinished(s.operations)|
    && (s.closed ==> s.closing && s.writes == 0)
  }

  ghost predicate ServiceInv(s: Service) {
    && Reachable(s.coordinator) && Owned(s.coordinator, s.users)
    && TicketInv(s.coordinator, s.users, s.carriers, s.operations)
    && GateInv(s)
    && CountInv(s)
  }
}
