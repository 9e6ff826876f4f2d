/**
 The coordinator object: the critical sections as they update its fields under the mutex.
 Each one is the step of the same name on the object's view, so what CoordinatorInvariant,
 CoordinatorAccounting, CoordinatorFairness and CoordinatorBarrier prove of steps and runs
 is proved of these methods.
 */
module WriteCoordinator {
  import opened Saturating
  import opened CoordinatorState

  const DEFAULT_MAX_ACTIVE: int := 2
  const DEFAULT_MAX_BYTES: uint64 := 32 * 1024 * 1024
  const DEFAULT_AGING_INTERVAL: int := 30_000_000_000  // thirty seconds, in nanoseconds

  datatype Option<T> = None | Some(value: T)

  class Coordinator {
    const config: Config
    var nextSequence: nat
    var waiters: seq<Waiter>
    var states: map<nat, WaiterState>
    var leases: map<nat, Lease>
    var activeUsers: map<int, int>
    var activeWrites: int
    var activeBytes: uint64

    ghost function View(): CoordinatorState.Coordinator
      reads this
    {
      CoordinatorState.Coordinator(config, nextSequence, waiters, states, leases, activeUsers, activeWrites, activeBytes)
    }

    constructor (maxActive: int, maxActiveBytes: uint64, agingInterval: int)
      ensures View() == Initial(config) && config.agingInterval > 0
      ensures config.maxActive == if maxActive <= 0 then DEFAULT_MAX_ACTIVE else maxActive
      ensures config.maxActiveBytes == if maxActiveBytes == 0 then DEFAULT_MAX_BYTES else maxActiveBytes
      ensures config.agingInterval == if agingInterval <= 0 then DEFAULT_AGING_INTERVAL else agingInterval
    {
      config := Config(if maxActive <= 0 then DEFAULT_MAX_ACTIVE else maxActive,
                       if maxActiveBytes == 0 then DEFAULT_MAX_BYTES else maxActiveBytes,
                       if agingInterval <= 0 then DEFAULT_AGING_INTERVAL else agingInterval);
      nextSequence, waiters, states, leases := 0, [], map[], map[];
      activeUsers, activeWrites, activeBytes := map[], 0, 0;
    }

    method BytesAvailableLocked(bytes: uint64) returns (available: bool)
      ensures available == BytesAvailable(View(), bytes)
    {
      if activeWrites == 0 {
        return true;
      }
      if bytes > config.maxActiveBytes {
        return false;
      }
      return activeBytes <= config.maxActiveBytes - bytes;
    }

    method BestCandidateLocked(now: int) returns (candidate: int)
      ensures candidate == Candidate(View(), now)
    {
      var best, bestPriority, bestSequence := -1, -1, 0;
      for index := 0 to |waiters|
        invariant best == BestAmong(View(), now, index)
        invariant best >= 0 ==> bestPriority == Rank(config, waiters[best], now) && bestSequence == waiters[best].sequence
      {
        var waiter := waiters[index];
        if !(waiter.sequence in states && states[waiter.sequence] == Queued)
           || (waiter.user in activeUsers && activeUsers[waiter.user] > 0) {
          continue;
        }
        var priority := waiter.priority;
        if config.agingInterval > 0 {
          priority := priority + TruncatedQuotient(now - waiter.queuedAt, config.agingInterval);
        }
        if priority > FOREGROUND {
          priority := FOREGROUND;
        }
        if best < 0 || priority > bestPriority || (priority == bestPriority && waiter.sequence < bestSequence) {
          best, bestPriority, bestSequence := index, priority, waiter.sequence;
        }
      }
      if best >= 0 {
        var fits := BytesAvailableLocked(waiters[best].bytes);
        if !fits {
          return -1;
        }
      }
      return best;
    }

    /** Move one waiter from the queue to the live leases and count it. */
    method GrantLocked(candidate: nat)
      requires candidate < |waiters|
      modifies this
      ensures View() == Grant(old(View()), candidate)
    {
      var waiter := waiters[candidate];
      waiters := waiters[..candidate] + waiters[candidate + 1..];
      states := states[waiter.sequence := Granted];
      leases := leases[waiter.sequence := Lease(waiter.user, waiter.bytes)];
      activeWrites := activeWrites + 1;
      activeBytes := SaturatingAdd(activeBytes, waiter.bytes);
      activeUsers := activeUsers[waiter.user := ActiveCount(activeUsers, waiter.user) + 1];
    }

    method DispatchLocked(now: int)
      modifies this
      ensures View() == Dispatch(old(View()), now)
    {
      while activeWrites < config.maxActive
        invariant Dispatch(View(), now) == Dispatch(old(View()), now)
        decreases |waiters|
      {
        var candidate := BestCandidateLocked(now);
        if candidate < 0 {
          return;
        }
        GrantLocked(candidate);
      }
    }

    /** The first critical section of an acquisition: queue the request, then dispatch. */
    method Request(user: int, priority: nat, bytes: uint64, queuedAt: int, now: int) returns (sequence: nat)
      modifies this
      ensures View() == Acquire(old(View()), user, priority, bytes, queuedAt, now)
      ensures sequence == old(nextSequence)
    {
      sequence := nextSequence;
      nextSequence := nextSequence + 1;
      states := states[sequence := Queued];
      waiters := waiters + [Waiter(sequence, user, if priority > FOREGROUND then 1 else priority, bytes, queuedAt)];
      DispatchLocked(now);
    }

    /** Cancellation returns the lease it lost the race to, if it did. */
    method CancelWaiter(sequence: nat, now: int) returns (lease: Option<nat>)
      modifies this
      ensures View() == Cancel(old(View()), sequence, now)
      ensures lease == if sequence in old(states) && old(states)[sequence] == Granted then Some(sequence) else None
    {
      if sequence in states && states[sequence] == Granted {
        return Some(sequence);
      }
      if sequence in states && states[sequence] == Queued {
        RemoveWaiter(sequence);
        states := states[sequence := Canceled];
        DispatchLocked(now);
      }
      return None;
    }

    /** Find the waiter and close the gap it leaves. */
    method RemoveWaiter(sequence: nat)
      modifies this`waiters
      ensures waiters == Without(old(waiters), sequence)
    {
      ghost var before := waiters;
      var index := 0;
      while index < |waiters|
        invariant 0 <= index <= |waiters| && waiters == before
        invariant Without(before, sequence) == before[..index] + Without(before[index..], sequence)
      {
        assert before[index..][1..] == before[index + 1..];
        if waiters[index].sequence == sequence {
          waiters := waiters[..index] + waiters[index + 1..];
          return;
        }
        assert before[..index] + ([before[index]] + Without(before[index + 1..], sequence))
            == before[..index + 1] + Without(before[index + 1..], sequence);
        index := index + 1;
      }
    }

    /** Take a live lease out and uncount it. */
    method DropLocked(id: nat)
      requires id in leases
      modifies this
      ensures View() == Drop(old(View()), id)
    {
      var lease := leases[id];
      leases := leases - {id};
      if activeWrites > 0 {
        activeWrites := activeWrites - 1;
      }
      if activeBytes >= lease.bytes {
        activeBytes := activeBytes - lease.bytes;
      } else {
        activeBytes := 0;
      }
      if ActiveCount(activeUsers, lease.user) <= 1 {
        activeUsers := activeUsers - {lease.user};
      } else {
        activeUsers := activeUsers[lease.user := activeUsers[lease.user] - 1];
      }
    }

    method Release(id: nat, now: int)
      modifies this
      ensures View() == CoordinatorState.Release(old(View()), id, now)
    {
      if id in leases {
        DropLocked(id);
        DispatchLocked(now);
      }
    }

    method UpdateBytes(id: nat, bytes: uint64, now: int)
      modifies this
      ensures View() == CoordinatorState.UpdateBytes(old(View()), id, bytes, now)
    {
      if id !in leases || leases[id].bytes == bytes {
        return;
      }
      if activeBytes >= leases[id].bytes {
        activeBytes := activeBytes - leases[id].bytes;
      } else {
        activeBytes := 0;
      }
      activeBytes := SaturatingAdd(activeBytes, bytes);
      leases := leases[id := leases[id].(bytes := bytes)];
      DispatchLocked(now);
    }
  }
}
