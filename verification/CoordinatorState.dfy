/**
 The write coordinator as a value: the queue, the live leases and the three
 counters guarded by its mutex, with one function per critical section.
 Every request is named by the sequence number it drew when it was enqueued.
 */
module CoordinatorState {
  import opened Saturating

  const FOREGROUND: int := 2

  datatype Config = Config(maxActive: int, maxActiveBytes: uint64, agingInterval: int)

  datatype Waiter = Waiter(sequence: nat, user: int, priority: int, bytes: uint64, queuedAt: int)

  datatype WaiterState = Queued | Granted | Canceled

  datatype Lease = Lease(user: int, bytes: uint64)

  datatype Coordinator = Coordinator(
    config: Config,
    nextSequence: nat,
    waiters: seq<Waiter>,
    states: map<nat, WaiterState>,
    leases: map<nat, Lease>,        // granted and not yet released
    activeUsers: map<int, int>,
    activeWrites: int,
    activeBytes: uint64)

  function Initial(config: Config): Coordinator {
    Coordinator(config, 0, [], map[], map[], map[], 0, 0)
  }

  /** Integer division as Go rounds it: toward zero. */
  function TruncatedQuotient(a: int, b: int): int
    requires b > 0
  {
    if a >= 0 then a / b else -((-a) / b)
  }

  /** Priority after aging, capped at foreground. */
  function Rank(config: Config, w: Waiter, now: int): int {
    var aged := if config.agingInterval > 0
                then w.priority + TruncatedQuotient(now - w.queuedAt, config.agingInterval)
                else w.priority;
    if aged > FOREGROUND then FOREGROUND else aged
  }

  function ActiveCount(activeUsers: map<int, int>, user: int): int {
    if user in activeUsers then activeUsers[user] else 0
  }

  predicate StillQueued(s: Coordinator, sequence: nat) {
    sequence in s.states && s.states[sequence] == Queued
  }

  predicate Runnable(s: Coordinator, w: Waiter) {
    StillQueued(s, w.sequence) && ActiveCount(s.activeUsers, w.user) <= 0
  }

  predicate Outranks(config: Config, now: int, a: Waiter, b: Waiter) {
    Rank(config, a, now) > Rank(config, b, now)
    || (Rank(config, a, now) == Rank(config, b, now) && a.sequence < b.sequence)
  }

  predicate BytesAvailable(s: Coordinator, bytes: uint64) {
    s.activeWrites == 0
    || (bytes <= s.config.maxActiveBytes && s.activeBytes <= s.config.maxActiveBytes - bytes)
  }

  /** The scan over the first n waiters: -1 when none of them may run. */
  function BestAmong(s: Coordinator, now: int, n: nat): (best: int)
    requires n <= |s.waiters|
    ensures -1 <= best < n
  {
    if n == 0 then -1
    else
      var best := BestAmong(s, now, n - 1);
      var w := s.waiters[n - 1];
      if !Runnable(s, w) then best
      else if best < 0 || Outranks(s.config, now, w, s.waiters[best]) then n - 1
      else best
  }

  /** The waiter dispatch may admit next; -1 also when the best one does not fit. */
  function Candidate(s: Coordinator, now: int): (i: int)
    ensures -1 <= i < |s.waiters|
  {
    var best := BestAmong(s, now, |s.waiters|);
    if best >= 0 && !BytesAvailable(s, s.waiters[best].bytes) then -1 else best
  }

  /** i is the runnable waiter that outranks every other runnable waiter. */
  ghost predicate IsTop(s: Coordinator, now: int, i: int) {
    && 0 <= i < |s.waiters|
    && Runnable(s, s.waiters[i])
    && forall j :: 0 <= j < |s.waiters| && j != i && Runnable(s, s.waiters[j])
                   ==> Outranks(s.config, now, s.waiters[i], s.waiters[j])
  }

  function Grant(s: Coordinator, i: nat): Coordinator
    requires i < |s.waiters|
  {
    var w := s.waiters[i];
    s.(waiters := s.waiters[..i] + s.waiters[i + 1..],
       states := s.states[w.sequence := Granted],
       leases := s.leases[w.sequence := Lease(w.user, w.bytes)],
       activeWrites := s.activeWrites + 1,
       activeBytes := SaturatingAdd(s.activeBytes, w.bytes),
       activeUsers := s.activeUsers[w.user := ActiveCount(s.activeUsers, w.user) + 1])
  }

  /** Whether the dispatch loop would admit one more waiter. */
  predicate CanGrant(s: Coordinator, now: int) {
    s.activeWrites < s.config.maxActive && Candidate(s, now) >= 0
  }

  function Dispatch(s: Coordinator, now: int): Coordinator
    decreases |s.waiters|
  {
    if CanGrant(s, now) then Dispatch(Grant(s, Candidate(s, now)), now) else s
  }

  /** A request whose priority is beyond foreground counts as normal. */
  function AdmittedPriority(priority: nat): int {
    if priority > FOREGROUND then 1 else priority
  }

  function Enqueue(s: Coordinator, user: int, priority: nat, bytes: uint64, queuedAt: int): Coordinator {
    s.(nextSequence := s.nextSequence + 1,
       states := s.states[s.nextSequence := Queued],
       waiters := s.waiters + [Waiter(s.nextSequence, user, AdmittedPriority(priority), bytes, queuedAt)])
  }

  function Acquire(s: Coordinator, user: int, priority: nat, bytes: uint64, queuedAt: int, now: int): Coordinator {
    Dispatch(Enqueue(s, user, priority, bytes, queuedAt), now)
  }

  /** The queue without the waiter of that sequence number. */
  function Without(waiters: seq<Waiter>, sequence: nat): seq<Waiter> {
    if waiters == [] then []
    else if waiters[0].sequence == sequence then waiters[1..]
    else [waiters[0]] + Without(waiters[1..], sequence)
  }

  function Withdraw(s: Coordinator, sequence: nat): Coordinator {
    s.(waiters := Without(s.waiters, sequence), states := s.states[sequence := Canceled])
  }

  function Cancel(s: Coordinator, sequence: nat, now: int): Coordinator {
    if StillQueued(s, sequence) then Dispatch(Withdraw(s, sequence), now) else s
  }

  function SubtractOrZero(total: uint64, part: uint64): uint64 {
    if total >= part then total - part else 0
  }

  function Drop(s: Coordinator, id: nat): Coordinator
    requires id in s.leases
  {
    var lease := s.leases[id];
    s.(leases := s.leases - {id},
       activeWrites := if s.activeWrites > 0 then s.activeWrites - 1 else s.activeWrites,
       activeBytes := SubtractOrZero(s.activeBytes, lease.bytes),
       activeUsers := if ActiveCount(s.activeUsers, lease.user) <= 1 then s.activeUsers - {lease.user}
                      else s.activeUsers[lease.user := s.activeUsers[lease.user] - 1])
  }

  /** Only the first release of a lease does anything. */
  function Release(s: Coordinator, id: nat, now: int): Coordinator {
    if id in s.leases then Dispatch(Drop(s, id), now) else s
  }

  function Resize(s: Coordinator, id: nat, bytes: uint64): Coordinator
    requires id in s.leases
  {
    s.(activeBytes := SaturatingAdd(SubtractOrZero(s.activeBytes, s.leases[id].bytes), bytes),
       leases := s.leases[id := s.leases[id].(bytes := bytes)])
  }

  function UpdateBytes(s: Coordinator, id: nat, bytes: uint64, now: int): Coordinator {
    if id in s.leases && s.leases[id].bytes != bytes then Dispatch(Resize(s, id, bytes), now) else s
  }

  datatype Event =
    | Requested(user: int, priority: nat, bytes: uint64, queuedAt: int, now: int)
    | Withdrawn(sequence: nat, now: int)
    | Released(id: nat, now: int)
    | Resized(id: nat, newBytes: uint64, now: int)

  function Apply(s: Coordinator, e: Event): Coordinator {
    match e
    case Requested(user, priority, bytes, queuedAt, now) => Acquire(s, user, priority, bytes, queuedAt, now)
    case Withdrawn(sequence, now) => Cancel(s, sequence, now)
    case Released(id, now) => Release(s, id, now)
    case Resized(id, newBytes, now) => UpdateBytes(s, id, newBytes, now)
  }

  function Execute(s: Coordinator, events: seq<Event>): Coordinator {
    if events == [] then s else Apply(Execute(s, events[..|events| - 1]), events[|events| - 1])
  }
}
