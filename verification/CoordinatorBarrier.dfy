/**
 The byte barrier: an aged waiter that does not fit holds back later work until leases drain.
 The barrier leaks exactly when an earlier waiter, still below foreground today, would fit.
 */
module CoordinatorBarrier {
  import opened CoordinatorState
  import opened CoordinatorInvariant
  import opened CoordinatorFairness

  /** No waiter that may run and drew no later number fits into the remaining bytes. */
  ghost predicate Barrier(s: Coordinator, sequence: nat) {
    forall j :: 0 <= j < |s.waiters| && Runnable(s, s.waiters[j]) && s.waiters[j].sequence <= sequence
                ==> !BytesAvailable(s, s.waiters[j].bytes)
  }

  /** New requests and cancellations of others, none before time t; no lease is released or resized. */
  ghost predicate Undrained(events: seq<Event>, sequence: nat, t: int) {
    && NotBefore(events, t)
    && forall k :: 0 <= k < |events| ==>
         events[k].Requested? || (events[k].Withdrawn? && events[k].sequence != sequence)
  }

  lemma BarrierStopsDispatch(s: Coordinator, now: int, sequence: nat, t: int)
    requires Inv(s) && t <= now && Ready(s, sequence) && Aged(s, sequence, t) && Barrier(s, sequence)
    ensures Dispatch(s, now) == s
  {
    if CanGrant(s, now) {
      OnlyEarlierOvertake(s, now, sequence, t);
      CandidateIsFittingTop(s, now);
      assert false;
    }
  }

  lemma BarrierSurvivesRequest(s: Coordinator, e: Event, sequence: nat)
    requires Inv(s) && Ready(s, sequence) && Barrier(s, sequence) && e.Requested?
    ensures Ready(Before(s, e), sequence) && Barrier(Before(s, e), sequence)
  {
    var u := Before(s, e);
    var k :| QueuedAt(s, k, sequence) && Runnable(s, s.waiters[k]);
    assert QueuedAt(u, k, sequence) && Runnable(u, u.waiters[k]);
    forall j | 0 <= j < |u.waiters| && Runnable(u, u.waiters[j]) && u.waiters[j].sequence <= sequence
      ensures !BytesAvailable(u, u.waiters[j].bytes)
    {
      assert u.waiters[j] == s.waiters[j];
    }
  }

  lemma BarrierSurvivesWithdrawal(s: Coordinator, u: Coordinator, i: nat, sequence: nat)
    requires Ready(s, sequence) && Barrier(s, sequence) && InOrder(s.waiters)
    requires i < |s.waiters| && s.waiters[i].sequence != sequence
    requires u == s.(waiters := s.waiters[..i] + s.waiters[i + 1..], states := s.states[s.waiters[i].sequence := Canceled])
    ensures Ready(u, sequence) && Barrier(u, sequence)
  {
    var k :| QueuedAt(s, k, sequence) && Runnable(s, s.waiters[k]);
    var k' := if k < i then k else k - 1;
    assert QueuedAt(u, k', sequence) && Runnable(u, u.waiters[k']);
    forall j | 0 <= j < |u.waiters| && Runnable(u, u.waiters[j]) && u.waiters[j].sequence <= sequence
      ensures !BytesAvailable(u, u.waiters[j].bytes)
    {
      var j' := if j < i then j else j + 1;
      assert u.waiters[j] == s.waiters[j'];
      assert Runnable(s, s.waiters[j']);
    }
  }

  lemma BarrierSurvives(s: Coordinator, e: Event, sequence: nat)
    requires Inv(s) && Ready(s, sequence) && Barrier(s, sequence)
    requires e.Requested? || (e.Withdrawn? && e.sequence != sequence)
    ensures Ready(Before(s, e), sequence) && Barrier(Before(s, e), sequence)
    ensures Before(s, e).leases == s.leases
  {
    if e.Requested? {
      BarrierSurvivesRequest(s, e, sequence);
    } else if StillQueued(s, e.sequence) {
      assert Holds(s.waiters, e.sequence);
      var i :| 0 <= i < |s.waiters| && s.waiters[i].sequence == e.sequence;
      WithoutClosesGap(s.waiters, i);
      BarrierSurvivesWithdrawal(s, Before(s, e), i, sequence);
    }
  }

  /** While no lease drains, nobody is admitted past the barrier, however long the run. */
  lemma {:induction false} BarrierHoldsBackRun(s: Coordinator, events: seq<Event>, sequence: nat, t: int)
    requires Inv(s) && Ready(s, sequence) && Aged(s, sequence, t) && Barrier(s, sequence)
    requires Undrained(events, sequence, t)
    ensures var u := Execute(s, events);
            Inv(u) && Ready(u, sequence) && Aged(u, sequence, t) && Barrier(u, sequence) && u.leases == s.leases
  {
    if events != [] {
      var init, e := events[..|events| - 1], events[|events| - 1];
      BarrierHoldsBackRun(s, init, sequence, t);
      var u := Execute(s, init);
      assert sequence < u.nextSequence;
      BarrierSurvives(u, e, sequence);
      BeforeKeeps(u, e);
      BeforeOvertakes(u, e, sequence, t);
      BarrierStopsDispatch(Before(u, e), e.now, sequence, t);
    }
  }

  // ----- the barrier is exact -----

  lemma DispatchThatGrants(s: Coordinator, now: int)
    requires Inv(s) && CanGrant(s, now)
    ensures Dispatch(s, now).leases != s.leases
  {
    var i := Candidate(s, now);
    CandidateIsFittingTop(s, now);
    GrantKeeps(s, i);
    DispatchFrame(Grant(s, i), now);
    var id := s.waiters[i].sequence;
    assert id in Dispatch(s, now).leases && id !in s.leases;
  }

  function {:induction false} AllAgedBy(config: Config, waiters: seq<Waiter>, t: int): (now: int)
    requires config.agingInterval > 0
    ensures now >= t
    ensures forall k :: 0 <= k < |waiters| ==> now >= waiters[k].queuedAt + 2 * config.agingInterval
  {
    if waiters == [] then t
    else
      var rest := AllAgedBy(config, waiters[..|waiters| - 1], t);
      var own := waiters[|waiters| - 1].queuedAt + 2 * config.agingInterval;
      if rest >= own then rest else own
  }

  lemma TwoIntervalsReachForeground(config: Config, w: Waiter, now: int)
    requires config.agingInterval > 0 && w.priority >= 0 && now >= w.queuedAt + 2 * config.agingInterval
    ensures Rank(config, w, now) == FOREGROUND
  {
    QuotientMonotone(2 * config.agingInterval, now - w.queuedAt, config.agingInterval);
    assert 2 * config.agingInterval / config.agingInterval == 2;
  }

  lemma {:induction false} ExecuteCons(s: Coordinator, e: Event, events: seq<Event>)
    ensures Execute(s, [e] + events) == Execute(Apply(s, e), events)
  {
    hide Apply;
    if events == [] {
      assert [e] + events == [e] && [e][..0] == [];
      assert Execute(s, []) == s;
    } else {
      ExecuteCons(s, e, events[..|events| - 1]);
      assert ([e] + events)[..|events|] == [e] + events[..|events| - 1];
    }
  }

  /** With every waiter aged, the top one is the earliest that may run, and a fresh background
      request at that instant does not displace it. */
  lemma TopWhenAllAged(s: Coordinator, t: int, j: nat) returns (now: int, i: nat)
    requires Inv(s) && s.config.agingInterval > 0 && j < |s.waiters| && Runnable(s, s.waiters[j])
    ensures now >= t && i <= j && IsTop(s, now, i) && IsTop(Enqueue(s, 0, 0, 0, now), now, i)
  {
    now := AllAgedBy(s.config, s.waiters, t);
    forall k | 0 <= k < |s.waiters| ensures Rank(s.config, s.waiters[k], now) == FOREGROUND {
      TwoIntervalsReachForeground(s.config, s.waiters[k], now);
    }
    hide Rank, Inv;
    BestAmongIsTop(s, now, |s.waiters|);
    i := BestAmong(s, now, |s.waiters|);
    hide BestAmong;
    assert i <= j;
    FreshBackgroundStaysBehind(s, now, i);
  }

  lemma FreshBackgroundStaysBehind(s: Coordinator, now: int, i: nat)
    requires Inv(s) && IsTop(s, now, i) && Rank(s.config, s.waiters[i], now) == FOREGROUND
    ensures IsTop(Enqueue(s, 0, 0, 0, now), now, i)
  {
    var u := Enqueue(s, 0, 0, 0, now);
    var newest := Waiter(s.nextSequence, 0, 0, 0, now);
    assert Rank(s.config, newest, now) == 0;
    assert u.waiters == s.waiters + [newest];
    hide Rank, AdmittedPriority;
    assert u.waiters[i] == s.waiters[i] && forall k :: 0 <= k < |s.waiters| ==> u.waiters[k] == s.waiters[k];
    assert forall k :: 0 <= k < |s.waiters| ==> s.waiters[k].sequence != s.nextSequence;
    hide Inv, Outranks;
    forall k | 0 <= k < |u.waiters| && k != i && Runnable(u, u.waiters[k])
      ensures Outranks(u.config, now, u.waiters[i], u.waiters[k])
    {
      if k < |s.waiters| {
        assert Runnable(s, s.waiters[k]);
      } else {
        assert u.waiters[k] == newest;
        BackgroundIsOutranked(s.config, now, s.waiters[i], newest);
      }
    }
  }

  lemma BackgroundIsOutranked(config: Config, now: int, a: Waiter, b: Waiter)
    requires Rank(config, a, now) == FOREGROUND && Rank(config, b, now) == 0
    ensures Outranks(config, now, a, b)
  {
  }

  /** A single step whose dispatch can grant is already a leak. */
  lemma LeaksAtOnce(s: Coordinator, e: Event, sequence: nat, t: int)
    requires Inv(s) && e.now >= t && CanGrant(Before(s, e), e.now)
    requires e.Requested? || (e.Withdrawn? && e.sequence != sequence && StillQueued(s, e.sequence))
    ensures Undrained([e] + [], sequence, t) && Execute(s, [e] + []).leases != s.leases
  {
    BeforeKeeps(s, e);
    DispatchThatGrants(Before(s, e), e.now);
    ExecuteCons(s, e, []);
  }

  /** A fresh background request makes the dispatch that admits the fitting top waiter. */
  lemma LeaksToTop(s: Coordinator, now: int, i: nat, sequence: nat, t: int)
    requires Inv(s) && s.activeWrites < s.config.maxActive && now >= t
    requires IsTop(s, now, i) && BytesAvailable(s, s.waiters[i].bytes) && IsTop(Enqueue(s, 0, 0, 0, now), now, i)
    ensures var events := [Requested(0, 0, 0, now, now)] + [];
            Undrained(events, sequence, t) && Execute(s, events).leases != s.leases
  {
    EnqueueKeeps(s, 0, 0, 0, now);
    CandidateIsFittingTop(Enqueue(s, 0, 0, 0, now), now);
    LeaksAtOnce(s, Requested(0, 0, 0, now, now), sequence, t);
  }

  /** Cancelling an earlier waiter moves a later one up and changes nothing else about it. */
  lemma CancelMovesUp(s: Coordinator, i: nat, j: nat)
    requires InOrder(s.waiters) && i < j < |s.waiters| && Runnable(s, s.waiters[j])
    ensures var u := Withdraw(s, s.waiters[i].sequence);
            && j - 1 < |u.waiters| && u.waiters[j - 1] == s.waiters[j] && Runnable(u, u.waiters[j - 1])
  {
    WithoutClosesGap(s.waiters, i);
  }

  lemma PrependUndrained(e: Event, rest: seq<Event>, sequence: nat, t: int)
    requires e.Withdrawn? && e.sequence != sequence && e.now >= t && Undrained(rest, sequence, t)
    ensures Undrained([e] + rest, sequence, t)
  {
  }

  /** A leak is a run: wait until all have aged, cancel what stands before the waiter that fits. */
  /** The top one is too large and gives up, and nobody is admitted: the others move up. */
  lemma MovesUp(s: Coordinator, i: nat, j: nat, now: int)
    requires Inv(s) && i <= j < |s.waiters| && Runnable(s, s.waiters[i]) && Runnable(s, s.waiters[j])
    requires !BytesAvailable(s, s.waiters[i].bytes) && BytesAvailable(s, s.waiters[j].bytes)
    requires !CanGrant(Before(s, Withdrawn(s.waiters[i].sequence, now)), now)
    ensures var u := Withdraw(s, s.waiters[i].sequence);
            && Apply(s, Withdrawn(s.waiters[i].sequence, now)) == u && Inv(u)
            && u.config == s.config && u.activeWrites == s.activeWrites && u.leases == s.leases
            && i < j && j - 1 < |u.waiters| && u.waiters[j - 1] == s.waiters[j] && Runnable(u, u.waiters[j - 1])
            && BytesAvailable(u, u.waiters[j - 1].bytes)
  {
    assert i != j;
    CancelMovesUp(s, i, j);
    WithdrawKeeps(s, s.waiters[i].sequence);
    hide Inv;
    var u := Withdraw(s, s.waiters[i].sequence);
    assert Dispatch(u, now) == u;
  }

  lemma {:induction false} SlipsThrough(s: Coordinator, sequence: nat, t: int, j: nat) returns (events: seq<Event>)
    requires Inv(s) && s.config.agingInterval > 0 && s.activeWrites < s.config.maxActive
    requires j < |s.waiters| && Runnable(s, s.waiters[j]) && s.waiters[j].sequence <= sequence
    requires BytesAvailable(s, s.waiters[j].bytes)
    ensures Undrained(events, sequence, t) && Execute(s, events).leases != s.leases
    decreases j
  {
    var now, i := TopWhenAllAged(s, t, j);
    var cancel := Withdrawn(s.waiters[i].sequence, now);
    if BytesAvailable(s, s.waiters[i].bytes) {
      LeaksToTop(s, now, i, sequence, t);
      events := [Requested(0, 0, 0, now, now)] + [];
    } else if CanGrant(Before(s, cancel), now) {
      LeaksAtOnce(s, cancel, sequence, t);
      events := [cancel] + [];
    } else {
      var u := Withdraw(s, s.waiters[i].sequence);
      MovesUp(s, i, j, now);
      hide Inv, Dispatch, IsTop, Runnable, BytesAvailable, Undrained, CanGrant;
      var rest := SlipsThrough(u, sequence, t, j - 1);
      ExecuteCons(s, cancel, rest);
      PrependUndrained(cancel, rest, sequence, t);
      events := [cancel] + rest;
    }
  }

  /** With room under the count limit, an aged waiter whose user is idle holds back every
      undrained continuation if and only if no earlier-or-equal waiter that may run fits. */
  lemma BarrierIsExact(s: Coordinator, sequence: nat, t: int)
    requires Inv(s) && s.config.agingInterval > 0 && s.activeWrites < s.config.maxActive
    requires Ready(s, sequence) && Aged(s, sequence, t)
    ensures Barrier(s, sequence) <==>
            (forall events :: Undrained(events, sequence, t) ==> Execute(s, events).leases == s.leases)
  {
    if Barrier(s, sequence) {
      forall events | Undrained(events, sequence, t) ensures Execute(s, events).leases == s.leases {
        BarrierHoldsBackRun(s, events, sequence, t);
      }
    } else {
      var j :| 0 <= j < |s.waiters| && Runnable(s, s.waiters[j]) && s.waiters[j].sequence <= sequence
               && BytesAvailable(s, s.waiters[j].bytes);
      var events := SlipsThrough(s, sequence, t, j);
      assert Undrained(events, sequence, t);
    }
  }

  // ----- a run that slips through -----

  lemma TooLargeOnTop(s: Coordinator, now: int, i: nat)
    requires InOrder(s.waiters) && IsTop(s, now, i) && !BytesAvailable(s, s.waiters[i].bytes)
    ensures Dispatch(s, now) == s
  {
    CandidateIsFittingTop(s, now);
    if CanGrant(s, now) {
      TopIsUnique(s, now, i, Candidate(s, now));
    }
  }

  lemma FittingOnTop(s: Coordinator, now: int, i: nat)
    requires InOrder(s.waiters) && IsTop(s, now, i) && BytesAvailable(s, s.waiters[i].bytes)
    requires s.activeWrites < s.config.maxActive
    ensures Dispatch(s, now) == Dispatch(Grant(s, i), now)
  {
    CandidateIsFittingTop(s, now);
  }

  const THREE_AT_A_TIME := Config(3, 10, 1)

  function Busy(next: nat, waiters: seq<Waiter>, states: map<nat, WaiterState>): Coordinator {
    Coordinator(THREE_AT_A_TIME, next, waiters, states, map[0 := Lease(1, 6)], map[1 := 1], 1, 6)
  }

  const LARGE := Waiter(1, 2, 2, 8, 0)
  const SMALL := Waiter(2, 3, 0, 3, 0)
  const LARGER := Waiter(3, 4, 2, 9, 0)

  lemma FirstIsAdmitted()
    ensures Apply(Initial(THREE_AT_A_TIME), Requested(1, 2, 6, 0, 0)) == Busy(1, [], map[0 := Granted])
  {
    var s := Enqueue(Initial(THREE_AT_A_TIME), 1, 2, 6, 0);
    assert s.waiters == [Waiter(0, 1, 2, 6, 0)];
    assert IsTop(s, 0, 0);
    FittingOnTop(s, 0, 0);
    assert Grant(s, 0) == Busy(1, [], map[0 := Granted]);
    assert BestAmong(Grant(s, 0), 0, 0) == -1;
  }

  lemma LargeIsBlocked()
    ensures Apply(Busy(1, [], map[0 := Granted]), Requested(2, 2, 8, 0, 0)) ==
            Busy(2, [LARGE], map[0 := Granted, 1 := Queued])
  {
    var t := Busy(2, [LARGE], map[0 := Granted, 1 := Queued]);
    assert Enqueue(Busy(1, [], map[0 := Granted]), 2, 2, 8, 0) == t;
    assert IsTop(t, 0, 0);
    TooLargeOnTop(t, 0, 0);
  }

  lemma SmallStandsBehind()
    ensures Apply(Busy(2, [LARGE], map[0 := Granted, 1 := Queued]), Requested(3, 0, 3, 0, 0)) ==
            Busy(3, [LARGE, SMALL], map[0 := Granted, 1 := Queued, 2 := Queued])
  {
    var t := Busy(3, [LARGE, SMALL], map[0 := Granted, 1 := Queued, 2 := Queued]);
    assert Enqueue(Busy(2, [LARGE], map[0 := Granted, 1 := Queued]), 3, 0, 3, 0) == t;
    assert IsTop(t, 0, 0);
    TooLargeOnTop(t, 0, 0);
  }

  lemma LargerStandsBehind()
    ensures Apply(Busy(3, [LARGE, SMALL], map[0 := Granted, 1 := Queued, 2 := Queued]), Requested(4, 2, 9, 0, 0)) ==
            Busy(4, [LARGE, SMALL, LARGER], map[0 := Granted, 1 := Queued, 2 := Queued, 3 := Queued])
  {
    var t := Busy(4, [LARGE, SMALL, LARGER], map[0 := Granted, 1 := Queued, 2 := Queued, 3 := Queued]);
    assert Enqueue(Busy(3, [LARGE, SMALL], map[0 := Granted, 1 := Queued, 2 := Queued]), 4, 2, 9, 0) == t;
    assert IsTop(t, 0, 0);
    TooLargeOnTop(t, 0, 0);
  }

  /** The large one gives up: the larger one, of foreground priority, is on top and blocked. */
  function Blocked(): Coordinator {
    Busy(4, [SMALL, LARGER], map[0 := Granted, 1 := Canceled, 2 := Queued, 3 := Queued])
  }

  lemma LargerIsBlocked()
    ensures Apply(Busy(4, [LARGE, SMALL, LARGER], map[0 := Granted, 1 := Queued, 2 := Queued, 3 := Queued]), Withdrawn(1, 0))
         == Blocked()
    ensures IsTop(Blocked(), 0, 1) && !BytesAvailable(Blocked(), LARGER.bytes)
  {
    var s, t := Busy(4, [LARGE, SMALL, LARGER], map[0 := Granted, 1 := Queued, 2 := Queued, 3 := Queued]), Blocked();
    assert Withdraw(s, 1) == t by {
      assert s.waiters[1..] == [SMALL, LARGER];
    }
    assert IsTop(t, 0, 1);
    TooLargeOnTop(t, 0, 1);
  }

  const NEWEST := Waiter(4, 5, 0, 0, 2)

  function Newest(): Coordinator {
    Busy(5, [SMALL, LARGER, NEWEST], map[0 := Granted, 1 := Canceled, 2 := Queued, 3 := Queued, 4 := Queued])
  }

  lemma RanksAtTwo()
    ensures Rank(THREE_AT_A_TIME, SMALL, 2) == 2 && Rank(THREE_AT_A_TIME, LARGER, 2) == 2
    ensures Rank(THREE_AT_A_TIME, NEWEST, 2) == 0
  {
  }

  lemma SmallIsOnTop()
    ensures Enqueue(Blocked(), 5, 0, 0, 2) == Newest()
    ensures Dispatch(Newest(), 2) == Dispatch(Grant(Newest(), 0), 2)
  {
    hide Rank, Dispatch, Grant;
    RanksAtTwo();
    assert IsTop(Newest(), 2, 0);
    FittingOnTop(Newest(), 2, 0);
  }

  function Passed(): Coordinator {
    Coordinator(THREE_AT_A_TIME, 5, [LARGER, NEWEST],
                map[0 := Granted, 1 := Canceled, 2 := Granted, 3 := Queued, 4 := Queued],
                map[0 := Lease(1, 6), 2 := Lease(3, 3)], map[1 := 1, 3 := 1], 2, 9)
  }

  lemma SmallIsAdmitted()
    ensures Grant(Newest(), 0) == Passed()
  {
    var u := Grant(Newest(), 0);
    assert u.waiters == [LARGER, NEWEST];
  }

  lemma LargerIsNext()
    ensures Dispatch(Passed(), 2) == Passed()
  {
    hide Rank, Dispatch;
    RanksAtTwo();
    assert IsTop(Passed(), 2, 0);
    TooLargeOnTop(Passed(), 2, 0);
  }

  /** Two intervals later the small one has aged to the same rank. The dispatch for any other request admits it. */
  lemma SmallSlipsThrough()
    ensures Apply(Blocked(), Requested(5, 0, 0, 2, 2)) == Passed()
  {
    hide Dispatch, Enqueue, Grant, Newest, Blocked, Passed;
    SmallIsOnTop();
    SmallIsAdmitted();
    LargerIsNext();
  }

  lemma ExecuteFive(s: Coordinator, a: Event, b: Event, c: Event, d: Event, e: Event)
    ensures Execute(s, [a, b, c, d, e]) == Apply(Apply(Apply(Apply(Apply(s, a), b), c), d), e)
  {
    hide Apply;
    ExecuteCons(s, a, [b, c, d, e]);
    ExecuteCons(Apply(s, a), b, [c, d, e]);
    ExecuteCons(Apply(Apply(s, a), b), c, [d, e]);
    ExecuteCons(Apply(Apply(Apply(s, a), b), c), d, [e]);
    ExecuteCons(Apply(Apply(Apply(Apply(s, a), b), c), d), e, []);
    assert [a] + [b, c, d, e] == [a, b, c, d, e] && [b] + [c, d, e] == [b, c, d, e] && [c] + [d, e] == [c, d, e];
    assert [d] + [e] == [d, e] && [e] + [] == [e];
  }

  lemma ExecuteOne(s: Coordinator, e: Event)
    ensures Execute(s, [e]) == Apply(s, e)
  {
    ExecuteCons(s, e, []);
    assert [e] + [] == [e];
  }

  /** A reachable state in which a waiter of foreground rank is on top and does not fit, and yet the next event, with no
      lease released or resized, admits a waiter past it. */
  lemma BarrierLeaks()
    ensures var events := [Requested(1, 2, 6, 0, 0), Requested(2, 2, 8, 0, 0), Requested(3, 0, 3, 0, 0),
                           Requested(4, 2, 9, 0, 0), Withdrawn(1, 0)];
            var s, next := Execute(Initial(THREE_AT_A_TIME), events), [Requested(5, 0, 0, 2, 2)];
            && s == Blocked() && IsTop(s, 0, 1) && Aged(s, 3, 0) && !BytesAvailable(s, LARGER.bytes)
            && Undrained(next, 3, 0)
            && Execute(s, next).leases == s.leases[2 := Lease(3, 3)] && StillQueued(Execute(s, next), 3)
  {
    assert Blocked().leases[2 := Lease(3, 3)] == Passed().leases && StillQueued(Passed(), 3);
    assert Aged(Blocked(), 3, 0);
    hide *;
    FirstIsAdmitted();
    LargeIsBlocked();
    SmallStandsBehind();
    LargerStandsBehind();
    LargerIsBlocked();
    SmallSlipsThrough();
    ExecuteFive(Initial(THREE_AT_A_TIME), Requested(1, 2, 6, 0, 0), Requested(2, 2, 8, 0, 0), Requested(3, 0, 3, 0, 0),
                Requested(4, 2, 9, 0, 0), Withdrawn(1, 0));
    ExecuteOne(Blocked(), Requested(5, 0, 0, 2, 2));
    OneUndrained(Requested(5, 0, 0, 2, 2));
  }

  lemma OneUndrained(e: Event)
    requires e.Requested? && e.now >= 0
    ensures Undrained([e], 3, 0)
  {
  }
}
