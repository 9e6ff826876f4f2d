/** How one coordinator step moves each request, for those who hold a ticket into the queue. */
module CoordinatorProgress {
  import opened CoordinatorState
  import opened CoordinatorInvariant

  ghost predicate Reachable(s: Coordinator) {
    s.config.maxActive >= 1 && exists events :: s == Execute(Initial(s.config), events)
  }

  lemma ReachableKeeps(s: Coordinator)
    requires Reachable(s)
    ensures Inv(s) && NoLostWakeup(s)
  {
    var events :| s == Execute(Initial(s.config), events);
    RunKeeps(s.config, events);
  }

  lemma ReachableStep(s: Coordinator, e: Event)
    requires Reachable(s)
    ensures Reachable(Apply(s, e)) && Apply(s, e).config == s.config
  {
    var events :| s == Execute(Initial(s.config), events);
    ReachableKeeps(s);
    StepKeeps(s, e);
    assert (events + [e])[..|events|] == events;
    assert Apply(s, e) == Execute(Initial(s.config), events + [e]);
  }

  lemma ReachableInitially(config: Config)
    requires config.maxActive >= 1
    ensures Reachable(Initial(config))
  {
    assert Initial(config) == Execute(Initial(config), []);
  }

  ghost predicate Decided(s: Coordinator, q: nat, state: WaiterState) {
    q in s.states && s.states[q] == state && q !in s.leases
  }

  /** Whose request drew each sequence number. */
  ghost predicate Owned(s: Coordinator, users: map<nat, int>) {
    && (forall i :: 0 <= i < |s.waiters| ==> s.waiters[i].sequence in users && users[s.waiters[i].sequence] == s.waiters[i].user)
    && (forall id :: id in s.leases ==> id in users && users[id] == s.leases[id].user)
  }

  /** A decided request stays decided; a queued one stays queued or comes to hold a live lease. */
  ghost predicate Moves(s: Coordinator, u: Coordinator, q: nat) {
    && q in u.states
    && (q in s.leases ==> q in u.leases)
    && (q in s.states && s.states[q] != Queued ==> u.states[q] == s.states[q] && (q in u.leases ==> q in s.leases))
    && (StillQueued(s, q) ==> StillQueued(u, q) || (u.states[q] == Granted && q in u.leases))
  }

  lemma {:induction false} DispatchMoves(s: Coordinator, now: int, users: map<nat, int>)
    requires Inv(s)
    ensures forall q :: q in s.states ==> Moves(s, Dispatch(s, now), q)
    ensures Dispatch(s, now).states.Keys == s.states.Keys
    ensures Owned(s, users) ==> Owned(Dispatch(s, now), users)
    decreases |s.waiters|
  {
    if CanGrant(s, now) {
      var i := Candidate(s, now);
      var u := Grant(s, i);
      CandidateIsFittingTop(s, now);
      GrantKeeps(s, i);
      DispatchMoves(u, now, users);
      forall q | q in s.states ensures Moves(s, Dispatch(s, now), q) {
        assert Moves(u, Dispatch(u, now), q);
      }
      if Owned(s, users) {
        GrantOwned(s, i, users);
      }
    }
  }

  lemma GrantOwned(s: Coordinator, i: nat, users: map<nat, int>)
    requires i < |s.waiters| && Owned(s, users)
    ensures Owned(Grant(s, i), users)
  {
    var u := Grant(s, i);
    forall j | 0 <= j < |u.waiters|
      ensures u.waiters[j].sequence in users && users[u.waiters[j].sequence] == u.waiters[j].user
    {
      assert u.waiters[j] == s.waiters[if j < i then j else j + 1];
    }
  }

  /** The request an event decides by itself: the one it cancels or whose lease it releases. */
  function Subject(e: Event): int {
    match e
    case Withdrawn(sequence, _) => sequence
    case Released(id, _) => id
    case _ => -1
  }

  function UsersAfter(s: Coordinator, e: Event, users: map<nat, int>): map<nat, int> {
    if e.Requested? then users[s.nextSequence := e.user] else users
  }

  lemma BeforeMoves(s: Coordinator, e: Event)
    requires s.nextSequence !in s.states
    ensures forall q :: q in s.states && q != Subject(e) ==> Moves(s, Before(s, e), q)
    ensures Before(s, e).states.Keys == s.states.Keys + if e.Requested? then {s.nextSequence} else {}
  {
    match e
    case Requested(_, _, _, _, _) =>
    case Withdrawn(sequence, _) => assert Before(s, e).leases == s.leases;
    case Released(id, _) => assert Before(s, e).states == s.states;
    case Resized(_, _, _) => assert Before(s, e).states == s.states;
  }

  lemma MovesCompose(s: Coordinator, u: Coordinator, v: Coordinator, q: nat)
    requires Moves(s, u, q) && Moves(u, v, q)
    ensures Moves(s, v, q)
  {
  }

  lemma DispatchedMoves(s: Coordinator, u: Coordinator, now: int, subject: int)
    requires Inv(u) && s.states.Keys <= u.states.Keys
    requires forall q :: q in s.states && q != subject ==> Moves(s, u, q)
    ensures forall q :: q in s.states && q != subject ==> Moves(s, Dispatch(u, now), q)
    ensures Dispatch(u, now).states.Keys == u.states.Keys
  {
    DispatchMoves(u, now, map[]);
    forall q | q in s.states && q != subject ensures Moves(s, Dispatch(u, now), q) {
      MovesCompose(s, u, Dispatch(u, now), q);
    }
  }

  lemma StepMoves(s: Coordinator, e: Event)
    requires Inv(s)
    ensures forall q :: q in s.states && q != Subject(e) ==> Moves(s, Apply(s, e), q)
    ensures Apply(s, e).states.Keys == s.states.Keys + if e.Requested? then {s.nextSequence} else {}
  {
    BeforeKeeps(s, e);
    BeforeMoves(s, e);
    DispatchedMoves(s, Before(s, e), e.now, Subject(e));
  }

  lemma RequestOwned(s: Coordinator, e: Event, users: map<nat, int>)
    requires Inv(s) && Owned(s, users) && e.Requested?
    ensures Owned(Before(s, e), UsersAfter(s, e, users))
  {
    forall id | id in s.leases ensures id != s.nextSequence { assert id in s.states; }
    forall i | 0 <= i < |s.waiters| ensures s.waiters[i].sequence != s.nextSequence { assert s.waiters[i].sequence in s.states; }
  }

  lemma WithdrawOwned(s: Coordinator, i: nat, users: map<nat, int>)
    requires InOrder(s.waiters) && i < |s.waiters| && Owned(s, users)
    ensures Owned(Withdraw(s, s.waiters[i].sequence), users)
  {
    var u := Withdraw(s, s.waiters[i].sequence);
    WithoutClosesGap(s.waiters, i);
    forall j | 0 <= j < |u.waiters|
      ensures u.waiters[j].sequence in users && users[u.waiters[j].sequence] == u.waiters[j].user
    {
      assert u.waiters[j] == s.waiters[if j < i then j else j + 1];
    }
  }

  lemma BeforeOwned(s: Coordinator, e: Event, users: map<nat, int>)
    requires Inv(s) && Owned(s, users)
    ensures Owned(Before(s, e), UsersAfter(s, e, users))
  {
    match e
    case Requested(_, _, _, _, _) => RequestOwned(s, e, users);
    case Withdrawn(sequence, _) =>
      if StillQueued(s, sequence) {
        assert Holds(s.waiters, sequence);
        var i :| 0 <= i < |s.waiters| && s.waiters[i].sequence == sequence;
        WithdrawOwned(s, i, users);
      }
    case Released(_, _) =>
    case Resized(_, _, _) =>
  }

  lemma StepOwned(s: Coordinator, e: Event, users: map<nat, int>)
    requires Inv(s) && Owned(s, users)
    ensures Owned(Apply(s, e), UsersAfter(s, e, users))
  {
    BeforeKeeps(s, e);
    BeforeOwned(s, e, users);
    DispatchMoves(Before(s, e), e.now, UsersAfter(s, e, users));
  }

  /** A cancelled request holds no lease ever after; a released one neither. */
  lemma SubjectMoves(s: Coordinator, e: Event)
    requires Inv(s)
    ensures e.Withdrawn? && StillQueued(s, e.sequence) ==> Decided(Apply(s, e), e.sequence, Canceled)
    ensures e.Withdrawn? && !StillQueued(s, e.sequence) ==> Apply(s, e) == s
    ensures e.Released? && e.id in s.leases ==> Decided(Apply(s, e), e.id, Granted)
    ensures e.Requested? ==> s.nextSequence !in s.states && Moves(Before(s, e), Apply(s, e), s.nextSequence)
  {
    BeforeKeeps(s, e);
    DispatchMoves(Before(s, e), e.now, map[]);
    if e.Withdrawn? && StillQueued(s, e.sequence) {
      assert Moves(Before(s, e), Apply(s, e), e.sequence);
    } else if e.Released? && e.id in s.leases {
      assert Moves(Before(s, e), Apply(s, e), e.id);
    }
  }
}
