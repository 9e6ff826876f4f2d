/** What every critical section of the write coordinator keeps, and what holds right after it. */
module CoordinatorInvariant {
  import opened Saturating
  import opened CoordinatorState

  ghost predicate InOrder(waiters: seq<Waiter>) {
    forall i, j :: 0 <= i < j < |waiters| ==> waiters[i].sequence < waiters[j].sequence
  }

  ghost predicate Holds(waiters: seq<Waiter>, sequence: nat) {
    exists i :: 0 <= i < |waiters| && waiters[i].sequence == sequence
  }

  /** The queue holds exactly the requests whose state is Queued, oldest first. */
  ghost predicate QueueInv(waiters: seq<Waiter>, states: map<nat, WaiterState>, nextSequence: nat) {
    && InOrder(waiters)
    && (forall q :: q in states ==> q < nextSequence)
    && (forall i :: 0 <= i < |waiters| ==> waiters[i].sequence in states && states[waiters[i].sequence] == Queued)
    && (forall q :: q in states && states[q] == Queued ==> Holds(waiters, q))
    && (forall i :: 0 <= i < |waiters| ==> 0 <= waiters[i].priority <= FOREGROUND)
  }

  ghost function Users(leases: map<nat, Lease>): set<int> {
    set id | id in leases :: leases[id].user
  }

  /** At most one live lease per user, and a user counts as active exactly while it has one. */
  ghost predicate LeaseInv(leases: map<nat, Lease>, activeUsers: map<int, int>) {
    && (forall a, b :: a in leases && b in leases && a != b ==> leases[a].user != leases[b].user)
    && activeUsers.Keys == Users(leases)
    && (forall u :: u in activeUsers ==> activeUsers[u] == 1)
  }

  ghost predicate Inv(s: Coordinator) {
    && s.config.maxActive >= 1
    && QueueInv(s.waiters, s.states, s.nextSequence)
    && LeaseInv(s.leases, s.activeUsers)
    && (forall id :: id in s.leases ==> id in s.states && s.states[id] == Granted)
    && s.activeWrites == |s.leases| <= s.config.maxActive
  }

  ghost predicate NoLostWakeup(s: Coordinator) {
    s.waiters != [] ==> |s.leases| > 0
  }

  // ----- the scan finds the top-ranked runnable waiter -----

  lemma {:induction false} BestAmongIsTop(s: Coordinator, now: int, n: nat)
    requires n <= |s.waiters| && InOrder(s.waiters)
    ensures var b := BestAmong(s, now, n);
            if b < 0 then forall j :: 0 <= j < n ==> !Runnable(s, s.waiters[j])
            else Runnable(s, s.waiters[b]) &&
                 forall j :: 0 <= j < n && j != b && Runnable(s, s.waiters[j])
                             ==> Outranks(s.config, now, s.waiters[b], s.waiters[j])
  {
    if n > 0 {
      BestAmongIsTop(s, now, n - 1);
    }
  }

  lemma TopIsUnique(s: Coordinator, now: int, i: int, j: int)
    requires IsTop(s, now, i) && IsTop(s, now, j)
    ensures i == j
  {
  }

  /** The scan admits a waiter exactly when it is top-ranked and fits; otherwise it admits none. */
  lemma CandidateIsFittingTop(s: Coordinator, now: int)
    requires InOrder(s.waiters)
    ensures forall i :: 0 <= i ==>
              (Candidate(s, now) == i <==> IsTop(s, now, i) && BytesAvailable(s, s.waiters[i].bytes))
    ensures Candidate(s, now) < 0 ==>
              (forall j :: 0 <= j < |s.waiters| ==> !Runnable(s, s.waiters[j]))
              || (exists i :: IsTop(s, now, i) && !BytesAvailable(s, s.waiters[i].bytes))
  {
    BestAmongIsTop(s, now, |s.waiters|);
    var b := BestAmong(s, now, |s.waiters|);
    if b >= 0 {
      assert IsTop(s, now, b);
    }
  }

  // ----- every critical section keeps the invariant -----

  lemma QueueWithoutOne(waiters: seq<Waiter>, states: map<nat, WaiterState>, next: nat, i: nat, left: WaiterState)
    requires QueueInv(waiters, states, next) && i < |waiters| && left != Queued
    ensures QueueInv(waiters[..i] + waiters[i + 1..], states[waiters[i].sequence := left], next)
  {
    var rest := waiters[..i] + waiters[i + 1..];
    var states' := states[waiters[i].sequence := left];
    assert |rest| == |waiters| - 1 && forall k :: 0 <= k < |rest| ==> rest[k] == waiters[if k < i then k else k + 1];
    forall q | q in states' && states'[q] == Queued ensures Holds(rest, q) {
      assert Holds(waiters, q);
      var k :| 0 <= k < |waiters| && waiters[k].sequence == q;
      assert rest[if k < i then k else k - 1].sequence == q;
    }
  }

  lemma LeasesWithOneMore(leases: map<nat, Lease>, activeUsers: map<int, int>, id: nat, lease: Lease)
    requires LeaseInv(leases, activeUsers) && id !in leases && lease.user !in activeUsers
    ensures LeaseInv(leases[id := lease], activeUsers[lease.user := 1])
  {
    var leases' := leases[id := lease];
    forall u ensures u in Users(leases') <==> u in Users(leases) + {lease.user} {
      if u in Users(leases) {
        var other :| other in leases && leases[other].user == u;
        assert other in leases' && leases'[other].user == u;
      }
      assert id in leases' && leases'[id].user == lease.user;
    }
    forall other | other in leases ensures leases[other].user != lease.user {
      assert leases[other].user in Users(leases);
    }
  }

  lemma GrantKeeps(s: Coordinator, i: nat)
    requires Inv(s) && i < |s.waiters| && Runnable(s, s.waiters[i]) && s.activeWrites < s.config.maxActive
    ensures Inv(Grant(s, i))
  {
    var w := s.waiters[i];
    QueueWithoutOne(s.waiters, s.states, s.nextSequence, i, Granted);
    LeasesWithOneMore(s.leases, s.activeUsers, w.sequence, Lease(w.user, w.bytes));
  }

  lemma {:induction false} DispatchKeeps(s: Coordinator, now: int)
    requires Inv(s)
    ensures Inv(Dispatch(s, now))
    decreases |s.waiters|
  {
    if CanGrant(s, now) {
      CandidateIsFittingTop(s, now);
      GrantKeeps(s, Candidate(s, now));
      DispatchKeeps(Grant(s, Candidate(s, now)), now);
    }
  }

  lemma EnqueueKeeps(s: Coordinator, user: int, priority: nat, bytes: uint64, queuedAt: int)
    requires Inv(s)
    ensures Inv(Enqueue(s, user, priority, bytes, queuedAt))
  {
    var t := Enqueue(s, user, priority, bytes, queuedAt);
    forall q | q in t.states && t.states[q] == Queued ensures Holds(t.waiters, q) {
      if q == s.nextSequence {
        assert t.waiters[|s.waiters|].sequence == q;
      } else {
        assert Holds(s.waiters, q);
        var k :| 0 <= k < |s.waiters| && s.waiters[k].sequence == q;
        assert t.waiters[k] == s.waiters[k];
      }
    }
  }

  /** Cancellation closes the gap its waiter leaves, like the copy in the loop that finds it. */
  lemma {:induction false} WithoutClosesGap(waiters: seq<Waiter>, k: nat)
    requires InOrder(waiters) && k < |waiters|
    ensures Without(waiters, waiters[k].sequence) == waiters[..k] + waiters[k + 1..]
  {
    if k > 0 {
      WithoutClosesGap(waiters[1..], k - 1);
      assert [waiters[0]] + (waiters[1..][..k - 1] + waiters[1..][k..]) == waiters[..k] + waiters[k + 1..];
    }
  }

  lemma WithdrawKeeps(s: Coordinator, sequence: nat)
    requires Inv(s) && StillQueued(s, sequence)
    ensures Inv(Withdraw(s, sequence))
  {
    assert Holds(s.waiters, sequence);
    var i :| 0 <= i < |s.waiters| && s.waiters[i].sequence == sequence;
    WithoutClosesGap(s.waiters, i);
    QueueWithoutOne(s.waiters, s.states, s.nextSequence, i, Canceled);
  }

  lemma DropKeeps(s: Coordinator, id: nat)
    requires Inv(s) && id in s.leases
    ensures Inv(Drop(s, id))
  {
    var t := Drop(s, id);
    LeasesWithOneLess(s.leases, s.activeUsers, id);
    assert t.leases.Keys == s.leases.Keys - {id};
    assert |t.leases| == |t.leases.Keys| && |s.leases| == |s.leases.Keys|;
  }

  lemma LeasesWithOneLess(leases: map<nat, Lease>, activeUsers: map<int, int>, id: nat)
    requires LeaseInv(leases, activeUsers) && id in leases
    ensures ActiveCount(activeUsers, leases[id].user) == 1
    ensures LeaseInv(leases - {id}, activeUsers - {leases[id].user})
  {
    assert leases[id].user in Users(leases);
    forall u ensures u in Users(leases - {id}) <==> u in Users(leases) - {leases[id].user} {
      if u in Users(leases) - {leases[id].user} {
        var other :| other in leases && leases[other].user == u;
        assert other in leases - {id};
      }
    }
  }

  lemma LeasesResized(leases: map<nat, Lease>, activeUsers: map<int, int>, id: nat, bytes: uint64)
    requires LeaseInv(leases, activeUsers) && id in leases
    ensures LeaseInv(leases[id := leases[id].(bytes := bytes)], activeUsers)
  {
    var leases' := leases[id := leases[id].(bytes := bytes)];
    forall u ensures u in Users(leases') <==> u in Users(leases) {
      if u in Users(leases) {
        var other :| other in leases && leases[other].user == u;
        assert other in leases' && leases'[other].user == u;
      }
    }
  }

  lemma ResizeKeeps(s: Coordinator, id: nat, bytes: uint64)
    requires Inv(s) && id in s.leases
    ensures Inv(Resize(s, id, bytes))
  {
    LeasesResized(s.leases, s.activeUsers, id, bytes);
  }

  // ----- no lost wakeup -----

  /** Why a dispatch stopped: at the count limit, with every queued user busy, or behind
      the top-ranked waiter because it does not fit. */
  ghost predicate Settled(s: Coordinator, now: int) {
    || s.activeWrites >= s.config.maxActive
    || (forall j :: 0 <= j < |s.waiters| ==> ActiveCount(s.activeUsers, s.waiters[j].user) > 0)
    || (exists i :: IsTop(s, now, i) && !BytesAvailable(s, s.waiters[i].bytes))
  }

  lemma {:induction false} DispatchSettles(s: Coordinator, now: int)
    requires Inv(s)
    ensures Settled(Dispatch(s, now), now)
    decreases |s.waiters|
  {
    CandidateIsFittingTop(s, now);
    if CanGrant(s, now) {
      GrantKeeps(s, Candidate(s, now));
      DispatchSettles(Grant(s, Candidate(s, now)), now);
    }
  }

  /** A settled coordinator with a non-empty queue has a live lease to wake the queue. */
  lemma SettledWakes(s: Coordinator, now: int)
    requires Inv(s) && Settled(s, now)
    ensures NoLostWakeup(s)
  {
    if s.waiters != [] && ActiveCount(s.activeUsers, s.waiters[0].user) > 0 {
      assert s.waiters[0].user in Users(s.leases);
      var id :| id in s.leases;
      assert |s.leases| == |s.leases.Keys| && id in s.leases.Keys;
    }
  }

  /** One step, whichever it is and at whatever instant, keeps the invariant and wakes the queue. */
  lemma StepKeeps(s: Coordinator, e: Event)
    requires Inv(s) && NoLostWakeup(s)
    ensures Inv(Apply(s, e)) && NoLostWakeup(Apply(s, e))
    ensures Apply(s, e) == s || Settled(Apply(s, e), e.now)
    ensures Apply(s, e).config == s.config
  {
    var mid := Before(s, e);
    if Apply(s, e) != s {
      BeforeKeeps(s, e);
      DispatchKeeps(mid, e.now);
      DispatchSettles(mid, e.now);
      SettledWakes(Dispatch(mid, e.now), e.now);
      DispatchFrame(mid, e.now);
    }
  }

  /** The part of a step that runs before its dispatch. */
  function Before(s: Coordinator, e: Event): Coordinator {
    match e
    case Requested(user, priority, bytes, queuedAt, _) => Enqueue(s, user, priority, bytes, queuedAt)
    case Withdrawn(sequence, _) => if StillQueued(s, sequence) then Withdraw(s, sequence) else s
    case Released(id, _) => if id in s.leases then Drop(s, id) else s
    case Resized(id, newBytes, _) => if id in s.leases && s.leases[id].bytes != newBytes then Resize(s, id, newBytes) else s
  }

  lemma BeforeKeeps(s: Coordinator, e: Event)
    requires Inv(s)
    ensures Inv(Before(s, e))
    ensures Apply(s, e) == s || Apply(s, e) == Dispatch(Before(s, e), e.now)
    ensures Before(s, e).config == s.config
  {
    match e
    case Requested(user, priority, bytes, queuedAt, _) => EnqueueKeeps(s, user, priority, bytes, queuedAt);
    case Withdrawn(sequence, _) => if StillQueued(s, sequence) { WithdrawKeeps(s, sequence); }
    case Released(id, _) => if id in s.leases { DropKeeps(s, id); }
    case Resized(id, newBytes, _) => if id in s.leases { ResizeKeeps(s, id, newBytes); }
  }

  lemma {:induction false} DispatchFrame(s: Coordinator, now: int)
    ensures Dispatch(s, now).config == s.config
    ensures Dispatch(s, now).nextSequence == s.nextSequence
    ensures forall id :: id in s.leases && Inv(s) ==> id in Dispatch(s, now).leases && Dispatch(s, now).leases[id] == s.leases[id]
    decreases |s.waiters|
  {
    if CanGrant(s, now) {
      var t := Grant(s, Candidate(s, now));
      DispatchFrame(t, now);
      if Inv(s) {
        CandidateIsFittingTop(s, now);
        GrantKeeps(s, Candidate(s, now));
      }
    }
  }

  /** Over every run: one lease per user, exact counts within the limit, and no lost wakeup. */
  lemma {:induction false} RunKeeps(config: Config, events: seq<Event>)
    requires config.maxActive >= 1
    ensures var s := Execute(Initial(config), events);
            Inv(s) && NoLostWakeup(s) && s.config == config
  {
    if events != [] {
      RunKeeps(config, events[..|events| - 1]);
      StepKeeps(Execute(Initial(config), events[..|events| - 1]), events[|events| - 1]);
    }
  }
}
