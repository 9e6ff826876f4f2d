/** The two gates cannot stand still together: some operation can always go on, and going on comes to an end. */
module ServiceProgress {
  import opened CoordinatorState
  import opened CoordinatorInvariant
  import opened CoordinatorProgress
  import opened WriterService
  import opened ServiceSafety

  // ----- how much is left to do -----

  function Left(phase: Phase): nat {
    match phase
    case Begun => 8
    case Waiting => 7
    case Admitted => 6
    case Queueing => 5
    case Locked => 4
    case Running => 3
    case Leaving => 2
    case Settling => 1
    case Finished => 0
  }

  ghost function Work(operations: map<nat, Operation>): nat
    decreases |operations.Keys|
  {
    if operations.Keys == {} then 0
    else
      var p :| p in operations;
      OneFewer(operations, p);
      Left(operations[p].phase) + Work(operations - {p})
  }

  lemma OneFewer(operations: map<nat, Operation>, p: nat)
    requires p in operations
    ensures |(operations - {p}).Keys| < |operations.Keys|
  {
    assert (operations - {p}).Keys == operations.Keys - {p};
  }

  lemma {:induction false} WorkSplit(operations: map<nat, Operation>, p: nat)
    requires p in operations
    ensures Work(operations) == Left(operations[p].phase) + Work(operations - {p})
    decreases |operations.Keys|
  {
    var q :| q in operations && Work(operations) == Left(operations[q].phase) + Work(operations - {q});
    if q != p {
      OneFewer(operations, p);
      OneFewer(operations, q);
      WorkSplit(operations - {q}, p);
      WorkSplit(operations - {p}, q);
      assert operations - {q} - {p} == operations - {p} - {q};
    }
  }

  lemma WorkUpdate(operations: map<nat, Operation>, p: nat, o: Operation)
    requires p in operations
    ensures Work(operations[p := o]) == Work(operations) - Left(operations[p].phase) + Left(o.phase)
  {
    WorkSplit(operations, p);
    WorkSplit(operations[p := o], p);
    assert operations[p := o] - {p} == operations - {p};
  }

  // ----- every step of an operation is one step less to do -----

  /** Steps of an operation under way, cancellations among them; not new operations, re-accountings or the close. */
  predicate Advances(a: Action) {
    !a.Begin? && !a.Reconcile? && !a.Close? && !a.CloseHandles?
  }

  lemma UnlockIsProgress(s: Service, p: nat)
    requires GateInv(s) && DoUnlock(s, p) != s
    ensures Work(DoUnlock(s, p).operations) < Work(s.operations)
  {
    UnlockIs(s, p);
    var gate := GateOf(s, Key(s, s.operations[p].user));
    hide GateInv, GateOk, DoUnlock, Work;
    var left := s.operations[p := s.operations[p].(phase := Leaving)];
    WorkUpdate(s.operations, p, left[p]);
    if gate.waiters != [] {
      var first := gate.waiters[0];
      WorkUpdate(left, first, s.operations[first].(phase := Locked));
    }
  }

  lemma MoveIsOnward(s: Service, a: Action)
    requires Advances(a) && !a.Unlock? && Next(s, a) != s
    ensures a.p in s.operations && a.p in Next(s, a).operations
    ensures Left(Next(s, a).operations[a.p].phase) < Left(s.operations[a.p].phase)
  {
    hide Apply;
  }

  lemma StepIsProgress(s: Service, a: Action)
    requires GateInv(s) && Advances(a) && Next(s, a) != s
    ensures Work(Next(s, a).operations) < Work(s.operations)
  {
    hide GateInv;
    var p, t := a.p, Next(s, a);
    if a.Unlock? {
      UnlockIsProgress(s, p);
    } else {
      OneMoves(s, a);
      MoveIsOnward(s, a);
      hide Next, Work;
      WorkUpdate(s.operations, p, t.operations[p]);
    }
  }

  /** Whatever the schedule, and whoever is cancelled, the operations under way take no more steps than that. */
  lemma {:induction false} SchedulesEnd(s: Service, actions: seq<Action>)
    requires ServiceInv(s)
    requires forall k :: 0 <= k < |actions| ==>
               Advances(actions[k]) && Next(Run(s, actions[..k]), actions[k]) != Run(s, actions[..k])
    ensures |actions| + Work(Run(s, actions).operations) <= Work(s.operations)
    ensures ServiceInv(Run(s, actions))
  {
    if actions != [] {
      var init, last := actions[..|actions| - 1], actions[|actions| - 1];
      assert forall k :: 0 <= k < |init| ==> init[..k] == actions[..k];
      SchedulesEnd(s, init);
      NextKeeps(Run(s, init), last);
      StepIsProgress(Run(s, init), last);
    }
  }

  // ----- somebody can always go on -----

  /** Steps in which nobody is cancelled and nothing is given up. */
  predicate Forward(a: Action) {
    a.Ask? || (a.Receive? && !a.canceled) || a.Lock? || a.Start? || a.Unlock? || a.ReleaseLease? || a.Done?
  }

  /** The step that takes an operation on from where it is. */
  function Onward(phase: Phase, p: nat, now: int): Action {
    match phase
    case Begun => Ask(p, 1, 0, now, now)
    case Waiting => Receive(p, false)
    case Admitted => Lock(p)
    case Queueing => Lock(p)
    case Locked => Start(p)
    case Running => Unlock(p)
    case Leaving => ReleaseLease(p, now)
    case Settling => Done(p)
    case Finished => Done(p)
  }

  /** The operation does not wait for others. */
  ghost predicate Free(s: Service, p: nat) {
    && p in s.operations
    && (s.operations[p].phase in {Begun, Admitted, Locked, Running, Leaving, Settling}
        || (s.operations[p].phase == Waiting && s.operations[p].ticket.Ticket?
            && s.operations[p].ticket.number in s.coordinator.leases))
  }

  lemma FreeGoesOn(s: Service, p: nat, now: int)
    requires ServiceInv(s) && Free(s, p)
    ensures var a := Onward(s.operations[p].phase, p, now); Forward(a) && Advances(a) && Next(s, a) != s
  {
    assert OperationInv(s.coordinator, s.users, s.operations[p]);
    if s.operations[p].phase == Running {
      assert GateOk(s, Key(s, s.operations[p].user)) && Owner(s, Key(s, s.operations[p].user), p);
      UnlockGoesOn(s, p);
      hide *;
    } else {
      hide ServiceInv, Apply, PassGate;
      OtherGoesOn(s, p, now);
    }
  }

  lemma UnlockGoesOn(s: Service, p: nat)
    requires In(s, p, Running) && GateOf(s, Key(s, s.operations[p].user)).held
    requires GateOk(s, Key(s, s.operations[p].user))
    ensures Onward(s.operations[p].phase, p, 0) == Unlock(p) && Forward(Unlock(p)) && Advances(Unlock(p))
    ensures forall now :: Onward(s.operations[p].phase, p, now) == Unlock(p)
    ensures Next(s, Unlock(p)) != s
  {
    var key := Key(s, s.operations[p].user);
    var gate := GateOf(s, key);
    assert gate.waiters != [] ==> gate.waiters[0] in gate.waiters && Stands(s, key, gate.waiters[0]);
    assert Next(s, Unlock(p)).operations[p].phase == Leaving;
  }

  lemma OtherGoesOn(s: Service, p: nat, now: int)
    requires Free(s, p) && s.operations[p].phase != Running
    requires s.operations[p].phase == Leaving ==> s.operations[p].ticket.Ticket?
    ensures var a := Onward(s.operations[p].phase, p, now); Forward(a) && Advances(a) && Next(s, a) != s
  {
    hide Apply, PassGate;
    var t := Next(s, Onward(s.operations[p].phase, p, now));
    assert t.operations[p].phase != s.operations[p].phase;
  }

  /** Whoever stands in line at a gate waits for an operation that has it and does not wait. */
  lemma LineMoves(s: Service, p: nat) returns (q: nat)
    requires ServiceInv(s) && In(s, p, Queueing)
    ensures Free(s, q)
  {
    var key := Key(s, s.operations[p].user);
    assert GateOk(s, key) && Stands(s, key, p);
    q :| Owner(s, key, q);
  }

  /** Whoever waits for admission waits for a live lease, and a live lease has an operation that holds it. */
  lemma QueueMoves(s: Service, p: nat) returns (q: nat)
    requires ServiceInv(s) && In(s, p, Waiting)
    ensures Free(s, q) || In(s, q, Queueing)
  {
    assert OperationInv(s.coordinator, s.users, s.operations[p]);
    ReachableKeeps(s.coordinator);
    var n := s.operations[p].ticket.number;
    if n in s.coordinator.leases {
      q := p;
    } else {
      var id := LiveLease(s.coordinator, n);
      q := s.carriers[id];
      assert OperationInv(s.coordinator, s.users, s.operations[q]);
    }
  }

  lemma LiveLease(c: Coordinator, n: nat) returns (id: nat)
    requires Inv(c) && NoLostWakeup(c) && StillQueued(c, n)
    ensures id in c.leases && id in c.states
  {
    assert Holds(c.waiters, n);
    assert c.leases.Keys != {};
    id :| id in c.leases;
  }

  /** As long as an operation is unfinished, some operation can go on, whatever the time. */
  lemma SomebodyGoesOn(s: Service, now: int) returns (q: nat)
    requires ServiceInv(s) && s.writes > 0
    ensures Free(s, q)
    ensures var a := Onward(s.operations[q].phase, q, now);
            Forward(a) && Next(s, a) != s && Work(Next(s, a).operations) < Work(s.operations)
  {
    var p := AnUnfinished(s);
    q := p;
    if In(s, q, Waiting) {
      q := QueueMoves(s, q);
    }
    if In(s, q, Queueing) {
      q := LineMoves(s, q);
    }
    FreeGoesOn(s, q, now);
    StepIsProgress(s, Onward(s.operations[q].phase, q, now));
  }

  lemma AnUnfinished(s: Service) returns (p: nat)
    requires ServiceInv(s) && s.writes > 0
    ensures p in s.operations && s.operations[p].phase != Finished
  {
    assert Unfinished(s.operations) != {};
    p :| p in Unfinished(s.operations);
  }

  // ----- so the close completes -----

  lemma {:induction false} RunCons(s: Service, a: Action, rest: seq<Action>)
    ensures Run(s, [a] + rest) == Run(Next(s, a), rest)
  {
    hide Next;
    if rest == [] {
      assert [a] + rest == [a] && [a][..0] == [];
      assert Run(s, []) == s;
    } else {
      RunCons(s, a, rest[..|rest| - 1]);
      assert ([a] + rest)[..|rest|] == [a] + rest[..|rest| - 1];
    }
  }

  lemma ForwardKeepsClosing(s: Service, a: Action)
    requires Forward(a)
    ensures Next(s, a).closing == s.closing
  {
    hide Apply;
  }

  /** From any state the operations under way can be run to their end without a cancellation, in no more steps than
      there is work left. */
  lemma {:induction false} Drains(s: Service, now: int) returns (actions: seq<Action>)
    requires ServiceInv(s)
    ensures (forall a :: a in actions ==> Forward(a)) && |actions| <= Work(s.operations)
    ensures Run(s, actions).writes == 0 && ServiceInv(Run(s, actions)) && Run(s, actions).closing == s.closing
    decreases Work(s.operations)
  {
    if s.writes <= 0 {
      actions := [];
    } else {
      var q := SomebodyGoesOn(s, now);
      var a := Onward(s.operations[q].phase, q, now);
      NextKeeps(s, a);
      ForwardKeepsClosing(s, a);
      var rest := Drains(Next(s, a), now);
      RunCons(s, a, rest);
      actions := [a] + rest;
    }
  }

  /** A close that is asked for in any state a run can reach completes, once the operations under way have ended. */
  lemma CloseCompletes(s: Service, now: int) returns (actions: seq<Action>)
    requires Occurs(s)
    ensures forall a :: a in actions ==> Forward(a)
    ensures Run(s, [Close] + (actions + [CloseHandles])).closed
  {
    hide *;
    OccursSafely(s);
    NextKeeps(s, Close);
    actions := Drains(Next(s, Close), now);
    var t := Next(s, Close);
    CloseIsAskedFor(s);
    RunCons(s, Close, actions + [CloseHandles]);
    RunSnoc(t, actions, CloseHandles);
    ClosesDrained(Run(t, actions));
  }

  lemma RunSnoc(s: Service, actions: seq<Action>, last: Action)
    ensures Run(s, actions + [last]) == Next(Run(s, actions), last)
  {
    hide Next;
    assert (actions + [last])[..|actions|] == actions;
  }

  lemma CloseIsAskedFor(s: Service)
    ensures Next(s, Close).closing
  {
  }

  lemma ClosesDrained(s: Service)
    requires s.closing && s.writes == 0
    ensures Next(s, CloseHandles).closed
  {
  }
}
