/** Byte accounting of the write coordinator: when activeBytes is the true sum of the live leases. */
module CoordinatorAccounting {
  import opened Saturating
  import opened CoordinatorState
  import opened CoordinatorInvariant

  /** The true number of bytes held by the live leases. */
  ghost function Total(leases: map<nat, Lease>): nat
    decreases |leases.Keys|
  {
    if leases.Keys == {} then 0
    else
      var id :| id in leases;
      Smaller(leases, id);
      leases[id].bytes + Total(leases - {id})
  }

  lemma Smaller(leases: map<nat, Lease>, id: nat)
    requires id in leases
    ensures |(leases - {id}).Keys| < |leases.Keys|
  {
    assert (leases - {id}).Keys == leases.Keys - {id};
  }

  /** Any lease may be taken out of the sum first. */
  lemma {:induction false} TotalSplit(leases: map<nat, Lease>, id: nat)
    requires id in leases
    ensures Total(leases) == leases[id].bytes + Total(leases - {id})
    decreases |leases.Keys|
  {
    assert leases.Keys != {};
    var first :| first in leases && Total(leases) == leases[first].bytes + Total(leases - {first});
    if first != id {
      Smaller(leases, first);
      Smaller(leases, id);
      TotalSplit(leases - {first}, id);
      TotalSplit(leases - {id}, first);
      assert leases - {first} - {id} == leases - {id} - {first};
    }
  }

  lemma TotalInsert(leases: map<nat, Lease>, id: nat, lease: Lease)
    requires id !in leases
    ensures Total(leases[id := lease]) == Total(leases) + lease.bytes
  {
    TotalSplit(leases[id := lease], id);
    assert leases[id := lease] - {id} == leases;
  }

  ghost predicate Exact(s: Coordinator) {
    s.activeBytes == Total(s.leases)
  }

  /** The counter stuck at its largest value while the true sum is larger still. */
  ghost predicate Overfull(s: Coordinator) {
    s.activeBytes == MAX_UINT64 < Total(s.leases)
  }

  /** A grant beside another live lease stays inside the byte limit, so it never saturates. */
  lemma GrantFits(s: Coordinator, now: int)
    requires Inv(s) && CanGrant(s, now) && s.activeWrites > 0
    ensures Grant(s, Candidate(s, now)).activeBytes == s.activeBytes + s.waiters[Candidate(s, now)].bytes
    ensures Grant(s, Candidate(s, now)).activeBytes <= s.config.maxActiveBytes
  {
    CandidateIsFittingTop(s, now);
  }

  lemma GrantAccounts(s: Coordinator, now: int)
    requires Inv(s) && CanGrant(s, now)
    ensures Exact(s) ==> Exact(Grant(s, Candidate(s, now)))
    ensures Overfull(s) ==> Overfull(Grant(s, Candidate(s, now)))
    ensures Inv(Grant(s, Candidate(s, now)))
  {
    var i := Candidate(s, now);
    CandidateIsFittingTop(s, now);
    GrantKeeps(s, i);
    var w := s.waiters[i];
    TotalInsert(s.leases, w.sequence, Lease(w.user, w.bytes));
    if s.activeWrites == 0 {
      assert |s.leases.Keys| == 0;
      assert Total(s.leases) == 0;
    } else {
      GrantFits(s, now);
    }
  }

  lemma {:induction false} DispatchAccounts(s: Coordinator, now: int)
    requires Inv(s)
    ensures Exact(s) ==> Exact(Dispatch(s, now))
    ensures Overfull(s) ==> Overfull(Dispatch(s, now))
    decreases |s.waiters|
  {
    if CanGrant(s, now) {
      GrantAccounts(s, now);
      DispatchAccounts(Grant(s, Candidate(s, now)), now);
    }
  }

  /** After a dispatch that left two or more leases alive, the last of them having just been
      granted, the counter is within the limit. */
  lemma {:induction false} DispatchStaysInsideLimit(s: Coordinator, now: int)
    requires Inv(s) && Dispatch(s, now) != s && |Dispatch(s, now).leases| >= 2
    ensures Dispatch(s, now).activeBytes <= s.config.maxActiveBytes
    decreases |s.waiters|
  {
    var t := Grant(s, Candidate(s, now));
    GrantAccounts(s, now);
    if CanGrant(t, now) {
      assert |Dispatch(t, now).waiters| < |t.waiters| by { DispatchShrinks(t, now); }
      DispatchStaysInsideLimit(t, now);
    } else {
      assert |t.leases| == |s.leases| + 1;
      GrantFits(s, now);
    }
  }

  lemma {:induction false} DispatchShrinks(s: Coordinator, now: int)
    ensures |Dispatch(s, now).waiters| <= |s.waiters|
    ensures CanGrant(s, now) ==> |Dispatch(s, now).waiters| < |s.waiters|
    decreases |s.waiters|
  {
    if CanGrant(s, now) {
      DispatchShrinks(Grant(s, Candidate(s, now)), now);
    }
  }

  /** With exact accounting the guards against underflow never choose their clamping branch. */
  lemma ClampsAreDead(s: Coordinator, id: nat)
    requires Inv(s) && Exact(s) && id in s.leases
    ensures s.activeWrites > 0
    ensures s.activeBytes >= s.leases[id].bytes
    ensures ActiveCount(s.activeUsers, s.leases[id].user) == 1
  {
    TotalSplit(s.leases, id);
    LeasesWithOneLess(s.leases, s.activeUsers, id);
    assert id in s.leases.Keys && |s.leases| == |s.leases.Keys|;
  }

  /** The one step that can spoil the accounting: a resize whose true sum leaves 64 bits. */
  ghost predicate Overflows(s: Coordinator, e: Event) {
    e.Resized? && e.id in s.leases && Total(s.leases) - s.leases[e.id].bytes + e.newBytes > MAX_UINT64
  }

  lemma BeforeAccounts(s: Coordinator, e: Event)
    requires Inv(s) && Exact(s)
    ensures if Overflows(s, e) then Overfull(Before(s, e)) else Exact(Before(s, e))
  {
    hide Inv, Total;
    match e
    case Requested(_, _, _, _, _) =>
    case Withdrawn(_, _) =>
    case Released(id, _) => if id in s.leases { DropAccounts(s, id); }
    case Resized(id, newBytes, _) => if id in s.leases { ResizeAccounts(s, id, newBytes); }
  }

  lemma DropAccounts(s: Coordinator, id: nat)
    requires Inv(s) && Exact(s) && id in s.leases
    ensures Exact(Drop(s, id))
  {
    hide Inv, Total;
    ClampsAreDead(s, id);
    TotalSplit(s.leases, id);
  }

  lemma ResizeAccounts(s: Coordinator, id: nat, bytes: uint64)
    requires Inv(s) && Exact(s) && id in s.leases
    ensures var rest := Total(s.leases) - s.leases[id].bytes;
            if rest + bytes > MAX_UINT64 then Overfull(Resize(s, id, bytes)) else Exact(Resize(s, id, bytes))
    ensures s.leases[id].bytes == bytes ==> Total(s.leases) - s.leases[id].bytes + bytes <= MAX_UINT64
  {
    hide Inv, Total;
    ClampsAreDead(s, id);
    TotalSplit(s.leases, id);
    var lease := s.leases[id].(bytes := bytes);
    TotalSplit(s.leases[id := lease], id);
    assert s.leases[id := lease] - {id} == s.leases - {id};
  }

  /** From exact accounting, a step stays exact if and only if it does not overflow. */
  lemma StepAccounts(s: Coordinator, e: Event)
    requires Inv(s) && Exact(s)
    ensures Exact(Apply(s, e)) <==> !Overflows(s, e)
  {
    BeforeKeeps(s, e);
    BeforeAccounts(s, e);
    DispatchAccounts(Before(s, e), e.now);
  }

  ghost predicate ExactThroughout(s: Coordinator, events: seq<Event>) {
    && Exact(Execute(s, events))
    && (events != [] ==> ExactThroughout(s, events[..|events| - 1]))
  }

  ghost predicate NeverOverflows(s: Coordinator, events: seq<Event>) {
    events != [] ==>
      && NeverOverflows(s, events[..|events| - 1])
      && !Overflows(Execute(s, events[..|events| - 1]), events[|events| - 1])
  }

  /** A run is exact throughout if and only if no step of it overflows. */
  lemma {:induction false} RunAccounts(config: Config, events: seq<Event>)
    requires config.maxActive >= 1
    ensures ExactThroughout(Initial(config), events) <==> NeverOverflows(Initial(config), events)
  {
    if events != [] {
      var init, e := events[..|events| - 1], events[|events| - 1];
      RunAccounts(config, init);
      RunKeeps(config, init);
      var s := Execute(Initial(config), init);
      if Exact(s) {
        StepAccounts(s, e);
      }
    }
  }

  /** The hypothesis is needed: resizing one of two leases past 64 bits saturates the counter, and
      releasing the other then leaves a counter of zero beside a lease of 2^64 - 1 bytes. */
  lemma OverflowLosesBytes()
    ensures var s := Execute(Initial(Config(2, MAX_UINT64, 1)),
                             [Requested(7, 1, MAX_UINT64, 0, 0), Requested(8, 1, 0, 0, 0),
                              Resized(1, MAX_UINT64, 0), Released(0, 0)]);
            s.activeBytes == 0 && Total(s.leases) == MAX_UINT64
  {
    var a, b, c, d := Requested(7, 1, MAX_UINT64, 0, 0), Requested(8, 1, 0, 0, 0), Resized(1, MAX_UINT64, 0), Released(0, 0);
    var s0 := Initial(Config(2, MAX_UINT64, 1));
    hide Dispatch, Enqueue, Execute, Total;
    ExecuteFour(s0, a, b, c, d);
    TwoAdmitted(s0, 7, MAX_UINT64, 8, 0);
    var s2 := Acquire(Acquire(s0, 7, 1, MAX_UINT64, 0, 0), 8, 1, 0, 0, 0);
    assert Apply(Apply(s0, a), b) == s2;
    hide *;
    SecondOutgrowsFirst(s2);
    TotalInsert(map[], 1, Lease(8, MAX_UINT64));
    TotalOfNone();
  }

  lemma SecondOutgrowsFirst(s: Coordinator)
    requires s.leases == map[0 := Lease(7, MAX_UINT64), 1 := Lease(8, 0)]
    requires s.waiters == [] && s.activeBytes == MAX_UINT64
    ensures var t := Apply(Apply(s, Resized(1, MAX_UINT64, 0)), Released(0, 0));
            t.activeBytes == 0 && t.leases == map[1 := Lease(8, MAX_UINT64)]
  {
    hide Dispatch;
    var t := Resize(s, 1, MAX_UINT64);
    NobodyIsAdmitted(t);
    assert Apply(s, Resized(1, MAX_UINT64, 0)) == t;
    NobodyIsAdmitted(Drop(t, 0));
    assert t.leases - {0} == map[1 := Lease(8, MAX_UINT64)];
  }

  lemma NobodyIsAdmitted(s: Coordinator)
    requires s.waiters == []
    ensures Dispatch(s, 0) == s
  {
  }

  lemma TotalOfNone()
    ensures Total(map[]) == 0
  {
  }

  lemma TwoAdmitted(s: Coordinator, user: int, bytes: uint64, other: int, more: uint64)
    requires s == Initial(Config(2, MAX_UINT64, 1)) && user != other && bytes as int + more as int <= MAX_UINT64 as int
    ensures var t := Acquire(Acquire(s, user, 1, bytes, 0, 0), other, 1, more, 0, 0);
            && t.leases == map[0 := Lease(user, bytes), 1 := Lease(other, more)] && t.waiters == []
            && t.activeBytes == bytes + more && t.activeWrites == 2 && t.activeUsers == map[user := 1, other := 1]
  {
    hide Dispatch;
    AdmittedAtOnce(s, user, bytes);
    AdmittedAtOnce(Acquire(s, user, 1, bytes, 0, 0), other, more);
  }

  /** An empty queue and room to spare: the request is granted by its own dispatch. */
  lemma AdmittedAtOnce(s: Coordinator, user: int, bytes: uint64)
    requires s.waiters == [] && s.activeWrites < s.config.maxActive && user !in s.activeUsers
    requires BytesAvailable(s, bytes)
    ensures Acquire(s, user, 1, bytes, 0, 0) == Grant(Enqueue(s, user, 1, bytes, 0), 0)
    ensures Acquire(s, user, 1, bytes, 0, 0).waiters == []
  {
    var t := Enqueue(s, user, 1, bytes, 0);
    assert t.waiters == [Waiter(s.nextSequence, user, 1, bytes, 0)];
    assert BestAmong(t, 0, 0) == -1;
    assert Runnable(t, t.waiters[0]);
    assert BestAmong(t, 0, 1) == 0;
    assert CanGrant(t, 0) && Candidate(t, 0) == 0;
    var u := Grant(t, 0);
    assert u.waiters == [];
    assert !CanGrant(u, 0) && Dispatch(u, 0) == u;
  }

  lemma ExecuteSnoc(s: Coordinator, events: seq<Event>, e: Event)
    ensures Execute(s, events + [e]) == Apply(Execute(s, events), e)
  {
    assert (events + [e])[..|events|] == events;
  }

  lemma ExecuteFour(s: Coordinator, a: Event, b: Event, c: Event, d: Event)
    ensures Execute(s, [a, b, c, d]) == Apply(Apply(Apply(Apply(s, a), b), c), d)
  {
    ExecuteSnoc(s, [a, b, c], d);
    ExecuteSnoc(s, [a, b], c);
    ExecuteSnoc(s, [a], b);
    ExecuteSnoc(s, [], a);
    assert [a, b, c, d] == [a, b, c] + [d] && [a, b, c] == [a, b] + [c] && [a, b] == [a] + [b] && [a] == [] + [a];
  }
}
