/** Starvation freedom of the write coordinator, as bounded overtaking over whole runs. */
module CoordinatorFairness {
  import opened CoordinatorState
  import opened CoordinatorInvariant

  // ----- ageing -----

  lemma QuotientMonotone(a: int, b: int, k: int)
    requires a <= b && k > 0
    ensures TruncatedQuotient(a, k) <= TruncatedQuotient(b, k)
  {
    if a < 0 && b >= 0 {
      assert (-a) / k >= 0 && b / k >= 0;
    } else if a < 0 {
      DivisionMonotone(-b, -a, k);
    } else {
      DivisionMonotone(a, b, k);
    }
  }

  lemma LessThanItself(k: int, x: int)
    requires k > 0
    ensures k * x < k ==> x <= 0
  {
    if x >= 1 {
      assert k * x >= k * 1;
    }
  }

  lemma DivisionMonotone(a: nat, b: nat, k: int)
    requires a <= b && k > 0
    ensures a / k <= b / k
  {
    var p, q := a / k, b / k;
    assert a >= k * p && b < k * (q + 1);
    assert k * (p - q) < k;
    LessThanItself(k, p - q);
  }

  /** A rank never falls, so a waiter once at foreground stays there. */
  lemma RankMonotone(config: Config, w: Waiter, t: int, now: int)
    requires t <= now
    ensures Rank(config, w, t) <= Rank(config, w, now) <= FOREGROUND
  {
    if config.agingInterval > 0 {
      QuotientMonotone(t - w.queuedAt, now - w.queuedAt, config.agingInterval);
    }
  }

  ghost predicate QueuedAt(s: Coordinator, k: int, sequence: nat) {
    0 <= k < |s.waiters| && s.waiters[k].sequence == sequence
  }

  /** Still queued, its user idle. */
  ghost predicate Ready(s: Coordinator, sequence: nat) {
    exists k :: QueuedAt(s, k, sequence) && Runnable(s, s.waiters[k])
  }

  /** Wherever it is queued, the request has reached foreground rank by time t. */
  ghost predicate Aged(s: Coordinator, sequence: nat, t: int) {
    forall k :: QueuedAt(s, k, sequence) ==> Rank(s.config, s.waiters[k], t) == FOREGROUND
  }

  // ----- overtaking -----

  /** How many waiters in the queue drew a smaller sequence number. */
  function CountBefore(waiters: seq<Waiter>, sequence: nat): nat {
    if waiters == [] then 0
    else CountBefore(waiters[..|waiters| - 1], sequence)
         + if waiters[|waiters| - 1].sequence < sequence then 1 else 0
  }

  lemma {:induction false} CountWithoutOne(waiters: seq<Waiter>, i: nat, sequence: nat)
    requires i < |waiters|
    ensures CountBefore(waiters, sequence)
         == CountBefore(waiters[..i] + waiters[i + 1..], sequence) + if waiters[i].sequence < sequence then 1 else 0
  {
    var n := |waiters| - 1;
    if i < n {
      var init := waiters[..n];
      CountWithoutOne(init, i, sequence);
      var rest := waiters[..i] + waiters[i + 1..];
      assert rest[..n - 1] == init[..i] + init[i + 1..];
      assert rest[n - 1] == waiters[n];
    } else {
      assert waiters[..i] + waiters[i + 1..] == waiters[..n];
    }
  }

  /** Grants made by one dispatch to somebody else while the request is queued and its user idle. */
  ghost function Overtakes(s: Coordinator, now: int, sequence: nat): nat
    decreases |s.waiters|
  {
    if !CanGrant(s, now) then 0
    else
      var i := Candidate(s, now);
      Overtakes(Grant(s, i), now, sequence)
      + if Ready(s, sequence) && s.waiters[i].sequence != sequence then 1 else 0
  }

  /** Whoever is admitted past an aged, ready request drew a smaller sequence number. */
  lemma OnlyEarlierOvertake(s: Coordinator, now: int, sequence: nat, t: int)
    requires Inv(s) && CanGrant(s, now) && t <= now
    requires Ready(s, sequence) && Aged(s, sequence, t)
    ensures s.waiters[Candidate(s, now)].sequence <= sequence
  {
    var i := Candidate(s, now);
    CandidateIsFittingTop(s, now);
    var k :| QueuedAt(s, k, sequence) && Runnable(s, s.waiters[k]);
    RankMonotone(s.config, s.waiters[k], t, now);
    RankMonotone(s.config, s.waiters[i], t, now);
  }

  lemma AgedAfterRemoval(s: Coordinator, u: Coordinator, i: nat, sequence: nat, t: int)
    requires i < |s.waiters| && u.config == s.config && u.waiters == s.waiters[..i] + s.waiters[i + 1..]
    requires Aged(s, sequence, t)
    ensures Aged(u, sequence, t)
  {
    forall k | QueuedAt(u, k, sequence) ensures Rank(u.config, u.waiters[k], t) == FOREGROUND {
      assert QueuedAt(s, if k < i then k else k + 1, sequence);
    }
  }

  lemma {:induction false} DispatchOvertakes(s: Coordinator, now: int, sequence: nat, t: int)
    requires Inv(s) && t <= now && Aged(s, sequence, t)
    ensures Overtakes(s, now, sequence) + CountBefore(Dispatch(s, now).waiters, sequence)
         <= CountBefore(s.waiters, sequence)
    ensures Aged(Dispatch(s, now), sequence, t)
    decreases |s.waiters|
  {
    if CanGrant(s, now) {
      var i := Candidate(s, now);
      var u := Grant(s, i);
      CandidateIsFittingTop(s, now);
      GrantKeeps(s, i);
      CountWithoutOne(s.waiters, i, sequence);
      if Ready(s, sequence) {
        OnlyEarlierOvertake(s, now, sequence, t);
      }
      AgedAfterRemoval(s, u, i, sequence, t);
      DispatchOvertakes(u, now, sequence, t);
    }
  }

  /** Nothing that precedes a dispatch adds an earlier waiter or makes one younger. */
  lemma BeforeOvertakes(s: Coordinator, e: Event, sequence: nat, t: int)
    requires Inv(s) && sequence < s.nextSequence && Aged(s, sequence, t)
    ensures CountBefore(Before(s, e).waiters, sequence) <= CountBefore(s.waiters, sequence)
    ensures Aged(Before(s, e), sequence, t)
    ensures Before(s, e).nextSequence >= s.nextSequence
  {
    var u := Before(s, e);
    if e.Requested? {
      assert u.waiters[..|s.waiters|] == s.waiters;
      forall k | QueuedAt(u, k, sequence) ensures Rank(u.config, u.waiters[k], t) == FOREGROUND {
        assert QueuedAt(s, k, sequence);
      }
    } else if e.Withdrawn? && StillQueued(s, e.sequence) {
      assert Holds(s.waiters, e.sequence);
      var i :| 0 <= i < |s.waiters| && s.waiters[i].sequence == e.sequence;
      WithoutClosesGap(s.waiters, i);
      CountWithoutOne(s.waiters, i, sequence);
      AgedAfterRemoval(s, u, i, sequence, t);
    } else {
      forall k | QueuedAt(u, k, sequence) ensures Rank(u.config, u.waiters[k], t) == FOREGROUND {
        assert QueuedAt(s, k, sequence);
      }
    }
  }

  /** Overtakes of one request over a whole run from s. */
  ghost function RunOvertakes(s: Coordinator, events: seq<Event>, sequence: nat): nat {
    if events == [] then 0
    else
      var init, e := events[..|events| - 1], events[|events| - 1];
      var u := Execute(s, init);
      RunOvertakes(s, init, sequence) + if Apply(u, e) == u then 0 else Overtakes(Before(u, e), e.now, sequence)
  }

  ghost predicate NotBefore(events: seq<Event>, t: int) {
    forall k :: 0 <= k < |events| ==> events[k].now >= t
  }

  /** Starvation freedom: from any reachable state in which a request has aged to foreground, along
      any continuation, it is overtaken while its user is idle at most once by each waiter that was
      queued before it. */
  lemma {:induction false} BoundedOvertaking(s: Coordinator, events: seq<Event>, sequence: nat, t: int)
    requires Inv(s) && sequence < s.nextSequence && Aged(s, sequence, t) && NotBefore(events, t)
    ensures RunOvertakes(s, events, sequence) + CountBefore(Execute(s, events).waiters, sequence)
         <= CountBefore(s.waiters, sequence)
    ensures Inv(Execute(s, events)) && sequence < Execute(s, events).nextSequence
    ensures Aged(Execute(s, events), sequence, t)
  {
    if events != [] {
      var init, e := events[..|events| - 1], events[|events| - 1];
      BoundedOvertaking(s, init, sequence, t);
      var u := Execute(s, init);
      if Apply(u, e) != u {
        BeforeKeeps(u, e);
        BeforeOvertakes(u, e, sequence, t);
        DispatchOvertakes(Before(u, e), e.now, sequence, t);
        DispatchKeeps(Before(u, e), e.now);
        DispatchFrame(Before(u, e), e.now);
      }
    }
  }

  /** The position in the queue is that bound. */
  lemma {:induction false} CountIsPosition(waiters: seq<Waiter>, k: nat)
    requires InOrder(waiters) && k < |waiters|
    ensures CountBefore(waiters, waiters[k].sequence) == k
  {
    var n := |waiters| - 1;
    if k < n {
      CountIsPosition(waiters[..n], k);
    } else {
      CountAll(waiters[..n], waiters[n].sequence);
    }
  }

  lemma {:induction false} CountAll(waiters: seq<Waiter>, sequence: nat)
    requires forall i :: 0 <= i < |waiters| ==> waiters[i].sequence < sequence
    ensures CountBefore(waiters, sequence) == |waiters|
  {
    if waiters != [] {
      CountAll(waiters[..|waiters| - 1], sequence);
    }
  }
}
