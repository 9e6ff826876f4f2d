/** The two gates compose: what holds of every run of index writes. */
module ServiceSafety {
  import opened Saturating
  import opened CoordinatorState
  import opened CoordinatorInvariant
  import opened CoordinatorProgress
  import opened WriterService

  // ----- tickets -----

  ghost predicate LeasesGranted(c: Coordinator) {
    forall id :: id in c.leases ==> id in c.states && c.states[id] == Granted
  }

  /** Every request but that of the event's subject moves as the coordinator promises. */
  ghost predicate OthersMove(c: Coordinator, c': Coordinator, subject: int) {
    forall q :: q in c.states && q != subject ==> Moves(c, c', q)
  }

  lemma OperationSurvives(c: Coordinator, c': Coordinator, users: map<nat, int>, o: Operation)
    requires OperationInv(c, users, o) && LeasesGranted(c)
    requires o.ticket.Ticket? ==> Moves(c, c', o.ticket.number)
    ensures OperationInv(c', users, o)
  {
  }

  lemma TicketIsThere(c: Coordinator, users: map<nat, int>, o: Operation)
    requires OperationInv(c, users, o)
    ensures o.ticket.Ticket? ==> o.ticket.number in c.states
  {
  }

  /** A step of the coordinator, if any, whose subject is at most the ticket of p, who moves along. */
  lemma TicketAdvance(c: Coordinator, c': Coordinator, subject: int, users: map<nat, int>, carriers: map<nat, nat>,
                      operations: map<nat, Operation>, p: nat, o: Operation)
    requires TicketInv(c, users, carriers, operations) && LeasesGranted(c) && p in operations
    requires OthersMove(c, c', subject) && c'.states.Keys == c.states.Keys
    requires subject < 0 || operations[p].ticket == Ticket(subject)
    requires o.ticket == operations[p].ticket && OperationInv(c', users, o)
    ensures TicketInv(c', users, carriers, operations[p := o])
  {
    var operations' := operations[p := o];
    hide OperationInv, Moves, LeasesGranted;
    forall q | q in operations' ensures OperationInv(c', users, operations'[q]) {
      if q != p {
        TicketIsThere(c, users, operations[q]);
        OperationSurvives(c, c', users, operations[q]);
      }
    }
  }

  lemma TicketMove(c: Coordinator, users: map<nat, int>, carriers: map<nat, nat>, operations: map<nat, Operation>, p: nat, o: Operation)
    requires TicketInv(c, users, carriers, operations) && p in operations
    requires o.ticket == operations[p].ticket && OperationInv(c, users, o)
    ensures TicketInv(c, users, carriers, operations[p := o])
  {
  }

  lemma TicketBegin(c: Coordinator, users: map<nat, int>, carriers: map<nat, nat>, operations: map<nat, Operation>, p: nat, user: int)
    requires TicketInv(c, users, carriers, operations) && p !in operations
    ensures TicketInv(c, users, carriers, operations[p := Operation(user, Begun, NoTicket, 0, 0)])
  {
  }

  lemma TicketAsk(c: Coordinator, c': Coordinator, users: map<nat, int>, carriers: map<nat, nat>,
                  operations: map<nat, Operation>, p: nat, number: nat)
    requires TicketInv(c, users, carriers, operations) && LeasesGranted(c) && p in operations && operations[p].phase == Begun
    requires OthersMove(c, c', -1) && number !in c.states && c'.states.Keys == c.states.Keys + {number}
    requires StillQueued(c', number) || number in c'.leases
    ensures TicketInv(c', users[number := operations[p].user], carriers[number := p],
                      operations[p := operations[p].(phase := Waiting, ticket := Ticket(number))])
  {
    var users' := users[number := operations[p].user];
    var operations' := operations[p := operations[p].(phase := Waiting, ticket := Ticket(number))];
    AskedWaits(c, c', users, operations[p], number);
    hide OperationInv, Moves, StillQueued, LeasesGranted;
    forall q | q in operations' ensures OperationInv(c', users', operations'[q]) {
      if q != p {
        OtherSurvives(c, c', users, operations[q], number, operations[p].user);
      }
    }
  }

  lemma AskedWaits(c: Coordinator, c': Coordinator, users: map<nat, int>, o: Operation, number: nat)
    requires OperationInv(c, users, o) && o.phase == Begun && number in c'.states
    requires StillQueued(c', number) || number in c'.leases
    ensures o.ticket == NoTicket
    ensures OperationInv(c', users[number := o.user], o.(phase := Waiting, ticket := Ticket(number)))
  {
  }

  lemma OtherSurvives(c: Coordinator, c': Coordinator, users: map<nat, int>, o: Operation, number: nat, user: int)
    requires OperationInv(c, users, o) && LeasesGranted(c) && OthersMove(c, c', -1) && number !in c.states
    ensures OperationInv(c', users[number := user], o)
  {
    assert o.ticket.Ticket? ==> Moves(c, c', o.ticket.number);
    OperationSurvives(c, c', users, o);
    hide Moves, StillQueued, LeasesGranted, OthersMove;
  }

  // ----- one action, field by field -----

  /** Actions of one operation by itself; unlocking may move a second one. */
  predicate Alone(a: Action) {
    !a.Unlock? && !a.Close? && !a.CloseHandles?
  }

  /** One operation began, settled, or moved between unfinished phases. */
  predicate Moved(s: Service, t: Service, p: nat) {
    && p in t.operations && t.operations == s.operations[p := t.operations[p]]
    && t.closing == s.closing && t.closed == s.closed && t.perUser == s.perUser
    && (p !in s.operations ==> t.writes == s.writes + 1 && t.operations[p].phase == Begun && !s.closing)
    && (p in s.operations ==>
          && s.operations[p].phase != Finished && t.operations[p].user == s.operations[p].user
          && t.writes == if t.operations[p].phase == Finished then s.writes - 1 else s.writes)
  }

  lemma OneMoves(s: Service, a: Action)
    requires Alone(a) && Next(s, a) != s
    ensures Moved(s, Next(s, a), a.p)
  {
    hide Apply;
  }

  /** It keeps clear of the gates. */
  predicate Clear(s: Service, t: Service, p: nat) {
    && t.gates == s.gates && p in t.operations
    && (p in s.operations ==>
          var from, to := s.operations[p].phase, t.operations[p].phase;
          && (OwnsGate(from) <==> OwnsGate(to)) && from != Queueing && to != Queueing
          && (from in {Locked, Running, Leaving, Settling, Finished} ==> to in {Locked, Running, Leaving, Settling, Finished}))
  }

  lemma OneKeepsClear(s: Service, a: Action)
    requires Alone(a) && !a.Lock? && !a.CancelLock? && Next(s, a) != s
    ensures Clear(s, Next(s, a), a.p)
  {
    hide Apply;
  }

  /** What unlocking does: it opens the gate, or passes it to the first in line. */
  predicate Unlocked(s: Service, t: Service, p: nat, key: int) {
    var gate := GateOf(s, key);
    && p in s.operations && gate.held
    && if gate.waiters == [] then
         t == s.(operations := s.operations[p := s.operations[p].(phase := Leaving)],
                 gates := s.gates[key := gate.(held := false)])
       else
         var first := gate.waiters[0];
         && first != p && first in s.operations
         && t == s.(operations := s.operations[p := s.operations[p].(phase := Leaving)]
                                    [first := s.operations[first].(phase := Locked)],
                    gates := s.gates[key := gate.(waiters := gate.waiters[1..], granted := gate.granted + {first})])
  }

  lemma UnlockIs(s: Service, p: nat)
    requires GateInv(s) && (In(s, p, Locked) || In(s, p, Running))
    ensures var key := Key(s, s.operations[p].user);
            && Unlocked(s, DoUnlock(s, p), p, key) && Owner(s, key, p) && GateOk(s, key)
            && (GateOf(s, key).waiters != [] ==> Stands(s, key, GateOf(s, key).waiters[0]))
  {
    var key := Key(s, s.operations[p].user);
    var gate := GateOf(s, key);
    assert GateOk(s, key) && Owner(s, key, p);
    assert gate.waiters != [] ==> gate.waiters[0] in gate.waiters;
    hide GateInv, GateOk;
  }

  // ----- one action, as the coordinator and the tickets see it -----

  ghost predicate Base(s: Service) {
    Reachable(s.coordinator) && Owned(s.coordinator, s.users) && TicketInv(s.coordinator, s.users, s.carriers, s.operations)
  }

  lemma ApplyKeeps(c: Coordinator, e: Event, users: map<nat, int>)
    requires Reachable(c) && Owned(c, users)
    ensures Reachable(Apply(c, e)) && Owned(Apply(c, e), UsersAfter(c, e, users))
    ensures LeasesGranted(c) && OthersMove(c, Apply(c, e), Subject(e))
    ensures Apply(c, e).states.Keys == c.states.Keys + if e.Requested? then {c.nextSequence} else {}
    ensures e.Withdrawn? && StillQueued(c, e.sequence) ==> Decided(Apply(c, e), e.sequence, Canceled)
    ensures e.Withdrawn? && !StillQueued(c, e.sequence) ==> Apply(c, e) == c
    ensures e.Released? && e.id in c.leases ==> Decided(Apply(c, e), e.id, Granted)
    ensures e.Requested? ==> c.nextSequence !in c.states
    ensures e.Requested? ==> StillQueued(Apply(c, e), c.nextSequence) || c.nextSequence in Apply(c, e).leases
  {
    ReachableKeeps(c);
    ReachableStep(c, e);
    StepMoves(c, e);
    StepOwned(c, e, users);
    SubjectMoves(c, e);
    assert e.Requested? ==> StillQueued(Before(c, e), c.nextSequence);
  }

  lemma AskKeepsBase(s: Service, p: nat, e: Event)
    requires Base(s)
    ensures Base(DoAsk(s, p, e))
  {
    if DoAsk(s, p, e) != s {
      var c := s.coordinator;
      ApplyKeeps(c, e, s.users);
      TicketAsk(c, Apply(c, e), s.users, s.carriers, s.operations, p, c.nextSequence);
    }
  }

  /** p has the coordinator take a step about p's own ticket, if any, and moves on accordingly. */
  lemma TellKeepsBase(s: Service, p: nat, c': Coordinator, subject: int, o: Operation)
    requires Base(s) && p in s.operations && LeasesGranted(s.coordinator)
    requires Reachable(c') && Owned(c', s.users)
    requires OthersMove(s.coordinator, c', subject) && c'.states.Keys == s.coordinator.states.Keys
    requires subject < 0 || s.operations[p].ticket == Ticket(subject)
    requires o.ticket == s.operations[p].ticket && OperationInv(c', s.users, o)
    ensures Base(s.(coordinator := c', operations := s.operations[p := o]))
  {
    TicketAdvance(s.coordinator, c', subject, s.users, s.carriers, s.operations, p, o);
  }

  lemma OfBase(s: Service, p: nat)
    requires Base(s) && p in s.operations
    ensures OperationInv(s.coordinator, s.users, s.operations[p])
    ensures Reachable(s.coordinator) && Owned(s.coordinator, s.users)
  {
  }

  lemma CancelKeepsBase(s: Service, p: nat, now: int)
    requires Base(s)
    ensures Base(DoCancelWait(s, p, now))
  {
    if In(s, p, Waiting) {
      OfBase(s, p);
      hide Base, Reachable, Owned, OthersMove, Apply;
      var c, o := s.coordinator, s.operations[p];
      assert OperationInv(c, s.users, o);
      var e := Withdrawn(o.ticket.number, now);
      ApplyKeeps(c, e, s.users);
      var granted := c.states[e.sequence] == Granted;
      TellKeepsBase(s, p, Apply(c, e), e.sequence, o.(phase := if granted then Leaving else Settling));
    }
  }

  lemma ReleasedKeepsBase(s: Service, p: nat, c': Coordinator)
    requires Base(s) && In(s, p, Leaving) && s.operations[p].ticket.Ticket? && LeasesGranted(s.coordinator)
    requires Reachable(c') && Owned(c', s.users)
    requires OthersMove(s.coordinator, c', s.operations[p].ticket.number) && c'.states.Keys == s.coordinator.states.Keys
    requires Decided(c', s.operations[p].ticket.number, Granted)
    ensures Base(s.(coordinator := c', operations :=
              s.operations[p := s.operations[p].(phase := Settling, releases := s.operations[p].releases + 1)]))
  {
    OfBase(s, p);
    hide Base, Reachable, Owned, OthersMove;
    var o := s.operations[p];
    assert OperationInv(s.coordinator, s.users, o);
    TellKeepsBase(s, p, c', o.ticket.number, o.(phase := Settling, releases := o.releases + 1));
  }

  lemma HoldersTicket(s: Service, p: nat)
    requires Base(s) && p in s.operations && HoldsLease(s.operations[p].phase)
    ensures s.operations[p].ticket.Ticket? && s.operations[p].ticket.number in s.coordinator.leases
  {
    assert OperationInv(s.coordinator, s.users, s.operations[p]);
  }

  lemma ReleaseKeepsBase(s: Service, p: nat, now: int)
    requires Base(s)
    ensures Base(DoRelease(s, p, now))
  {
    hide TicketInv, Reachable, Owned;
    if In(s, p, Leaving) {
      HoldersTicket(s, p);
      var e := Released(s.operations[p].ticket.number, now);
      ApplyKeeps(s.coordinator, e, s.users);
      ReleasedKeepsBase(s, p, Apply(s.coordinator, e));
    }
  }

  lemma ReconcileKeepsBase(s: Service, p: nat, newBytes: uint64, now: int)
    requires Base(s)
    ensures Base(DoReconcile(s, p, newBytes, now))
  {
    if In(s, p, Admitted) {
      OfBase(s, p);
      hide Base, Reachable, Owned, OthersMove, Apply;
      var c, o := s.coordinator, s.operations[p];
      assert OperationInv(c, s.users, o);
      var e := Resized(o.ticket.number, newBytes, now);
      ApplyKeeps(c, e, s.users);
      OperationSurvives(c, Apply(c, e), s.users, o);
      TellKeepsBase(s, p, Apply(c, e), -1, o);
    }
  }

  lemma UnlockKeepsTickets(s: Service, p: nat)
    requires TicketInv(s.coordinator, s.users, s.carriers, s.operations) && GateInv(s)
    ensures var t := DoUnlock(s, p);
            && t.coordinator == s.coordinator && t.users == s.users && t.carriers == s.carriers
            && TicketInv(t.coordinator, t.users, t.carriers, t.operations)
  {
    if In(s, p, Locked) || In(s, p, Running) {
      UnlockIs(s, p);
      var t := Move(s, p, Leaving);
      hide GateInv, GateOk, DoUnlock, TicketInv;
      PlainKeepsTickets(s, p, t, Leaving);
      var gate := GateOf(s, Key(s, s.operations[p].user));
      if gate.waiters != [] {
        var q := gate.waiters[0];
        PlainKeepsTickets(t, q, Move(t, q, Locked), Locked);
      }
    }
  }

  /** The actions that only move one operation along and leave the coordinator alone. */
  lemma PlainKeepsTickets(s: Service, p: nat, t: Service, to: Phase)
    requires TicketInv(s.coordinator, s.users, s.carriers, s.operations) && p in s.operations
    requires t.coordinator == s.coordinator && t.users == s.users && t.carriers == s.carriers
    requires var from := s.operations[p].phase;
             || (from == Begun && to == Settling)
             || (HoldsLease(from) && HoldsLease(to))
             || (from == Waiting && HoldsLease(to) && s.operations[p].ticket.Ticket? && s.operations[p].ticket.number in s.coordinator.leases)
             || (from == Settling && to == Finished)
    requires t.operations == s.operations[p := s.operations[p].(phase := to,
               dones := if to == Finished then s.operations[p].dones + 1 else s.operations[p].dones)]
    ensures TicketInv(t.coordinator, t.users, t.carriers, t.operations)
  {
    assert OperationInv(s.coordinator, s.users, s.operations[p]);
    TicketMove(s.coordinator, s.users, s.carriers, s.operations, p, t.operations[p]);
  }

  lemma QuietKeepsBase(s: Service, a: Action)
    requires Base(s) && GateInv(s) && Next(s, a) != s
    requires !a.Ask? && !a.CancelWait? && !a.Reconcile? && !a.ReleaseLease?
    ensures Base(Next(s, a))
  {
    hide TicketInv, Reachable, Owned, GateInv;
    match a
    case Begin(p, user) => TicketBegin(s.coordinator, s.users, s.carriers, s.operations, p, user);
    case GiveUp(p) => PlainKeepsTickets(s, p, Next(s, a), Settling);
    case Receive(p, canceled) => PlainKeepsTickets(s, p, Next(s, a), if canceled then Leaving else Admitted);
    case Abandon(p) => PlainKeepsTickets(s, p, Next(s, a), Leaving);
    case Lock(p) => PlainKeepsTickets(s, p, Next(s, a), Next(s, a).operations[p].phase);
    case CancelLock(p) => PlainKeepsTickets(s, p, Next(s, a), Leaving);
    case Start(p) => PlainKeepsTickets(s, p, Next(s, a), Running);
    case Unlock(p) => UnlockKeepsTickets(s, p);
    case Done(p) => PlainKeepsTickets(s, p, Next(s, a), Finished);
    case Close =>
    case CloseHandles =>
  }

  lemma NextKeepsBase(s: Service, a: Action)
    requires Base(s) && GateInv(s)
    ensures Base(Next(s, a))
  {
    match a
    case Ask(p, priority, bytes, queuedAt, now) =>
      if p in s.operations {
        AskKeepsBase(s, p, Requested(s.operations[p].user, priority, bytes, queuedAt, now));
      }
    case CancelWait(p, now) => CancelKeepsBase(s, p, now);
    case Reconcile(p, newBytes, now) => ReconcileKeepsBase(s, p, newBytes, now);
    case ReleaseLease(p, now) => ReleaseKeepsBase(s, p, now);
    case _ => if Next(s, a) != s { QuietKeepsBase(s, a); }
  }

  // ----- the gates -----

  lemma GateFrame(s: Service, t: Service, key: int)
    requires GateOk(s, key) && GateOf(t, key) == GateOf(s, key)
    requires forall p :: Owner(s, key, p) <==> Owner(t, key, p)
    requires forall p :: Stands(s, key, p) <==> Stands(t, key, p)
    requires forall p :: Past(s, p) ==> Past(t, p)
    ensures GateOk(t, key)
  {
    if GateOf(s, key).held {
      var p :| Owner(s, key, p);
      assert Owner(t, key, p);
    }
  }

  /** An action of p that neither enters nor leaves a gate or its line keeps every gate. */
  lemma AwayFromGates(s: Service, t: Service, p: nat)
    requires GateInv(s) && t.gates == s.gates && t.perUser == s.perUser
    requires p in t.operations && t.operations == s.operations[p := t.operations[p]]
    requires var to := t.operations[p].phase;
             if p !in s.operations then to == Begun
             else
               var from := s.operations[p].phase;
               && t.operations[p].user == s.operations[p].user
               && (OwnsGate(from) <==> OwnsGate(to)) && from != Queueing && to != Queueing
               && (Past(s, p) ==> Past(t, p))
    ensures GateInv(t)
  {
    forall key ensures GateOk(t, key) {
      assert GateOk(s, key);
      GateFrame(s, t, key);
    }
    forall q | In(t, q, Queueing) ensures In(s, q, Queueing) {}
  }

  /** The only way one user could meet at a gate twice is to hold two leases at once. */
  lemma PerUserGateIsFree(s: Service, p: nat)
    requires Base(s) && GateInv(s) && s.perUser && In(s, p, Admitted)
    ensures !GateOf(s, Key(s, s.operations[p].user)).held
  {
    var key := Key(s, s.operations[p].user);
    assert GateOk(s, key);
    if GateOf(s, key).held {
      var q :| Owner(s, key, q);
      SameUserSameOperation(s, p, q);
      assert false;
    }
  }

  lemma SameUserSameOperation(s: Service, p: nat, q: nat)
    requires Base(s) && p in s.operations && q in s.operations
    requires HoldsLease(s.operations[p].phase) && HoldsLease(s.operations[q].phase)
    requires s.operations[p].user == s.operations[q].user
    ensures p == q
  {
    var c := s.coordinator;
    var o, u := s.operations[p], s.operations[q];
    assert OperationInv(c, s.users, o) && OperationInv(c, s.users, u);
    assert c.leases[o.ticket.number].user == c.leases[u.ticket.number].user;
    OneLeasePerUser(c, o.ticket.number, u.ticket.number);
  }

  lemma OneLeasePerUser(c: Coordinator, a: nat, b: nat)
    requires Reachable(c) && a in c.leases && b in c.leases && c.leases[a].user == c.leases[b].user
    ensures a == b
  {
    ReachableKeeps(c);
  }

  lemma LockKeepsGates(s: Service, p: nat)
    requires Base(s) && GateInv(s) && In(s, p, Admitted)
    ensures GateInv(DoLock(s, p))
  {
    var t := DoLock(s, p);
    var key := Key(s, s.operations[p].user);
    if s.perUser {
      PerUserGateIsFree(s, p);
    }
    hide Base, GateOk;
    assert GateOk(s, key);
    LockAtGate(s, p, key);
    forall q | In(t, q, Queueing) ensures In(s, q, Queueing) || (q == p && GateOf(s, key).held) {}
    forall k ensures GateOk(t, k) {
      assert GateOk(s, k);
      if k != key {
        GateFrame(s, t, k);
      }
    }
  }

  lemma LockAtGate(s: Service, p: nat, key: int)
    requires In(s, p, Admitted) && key == Key(s, s.operations[p].user) && GateOk(s, key)
    ensures GateOk(DoLock(s, p), key)
    ensures GateOf(s, key).held <==> In(DoLock(s, p), p, Queueing)
  {
    var t := DoLock(s, p);
    var gate := GateOf(s, key);
    assert !Stands(s, key, p) && !Owner(s, key, p);
    if !gate.held {
      assert Owner(t, key, p);
      forall q | Owner(t, key, q) ensures q == p { assert q != p ==> Owner(s, key, q); }
    } else {
      var h :| Owner(s, key, h);
      assert Owner(t, key, h);
      forall q | Owner(t, key, q) ensures q == h { assert Owner(s, key, q); }
      assert GateOf(t, key).waiters == gate.waiters + [p];
      forall q ensures q in GateOf(t, key).waiters <==> Stands(t, key, q) {
        assert q in gate.waiters <==> Stands(s, key, q);
      }
    }
    forall q | q in GateOf(t, key).granted ensures Past(t, q) { assert Past(s, q); }
  }

  lemma CancelAtGate(s: Service, p: nat, key: int)
    requires GateOk(s, key) && Stands(s, key, p)
    ensures GateOk(DoCancelLock(s, p), key)
  {
    var t := DoCancelLock(s, p);
    var gate := GateOf(s, key);
    if t != s {
      W.RemoveClosesGap(gate.waiters, p);
      var h :| Owner(s, key, h);
      assert Owner(t, key, h);
      forall q | Owner(t, key, q) ensures q == h { assert Owner(s, key, q); }
      forall q ensures q in GateOf(t, key).waiters <==> Stands(t, key, q) {
        assert q in gate.waiters <==> Stands(s, key, q);
      }
      forall q | q in GateOf(t, key).granted ensures Past(t, q) { assert Past(s, q); }
    }
  }

  lemma CancelLockKeepsGates(s: Service, p: nat)
    requires GateInv(s) && In(s, p, Queueing)
    ensures GateInv(DoCancelLock(s, p))
  {
    var t := DoCancelLock(s, p);
    var key := Key(s, s.operations[p].user);
    assert GateOk(s, key) && Stands(s, key, p);
    CancelAtGate(s, p, key);
    forall k ensures GateOk(t, k) {
      assert GateOk(s, k);
      if k != key {
        GateFrame(s, t, k);
      }
    }
  }

  /** Nobody in line: the gate opens. */
  lemma UnlockOpens(s: Service, t: Service, p: nat, key: int)
    requires GateOk(s, key) && Owner(s, key, p) && GateOf(s, key).waiters == [] && t.perUser == s.perUser
    requires t.operations == s.operations[p := s.operations[p].(phase := Leaving)]
    requires GateOf(t, key) == GateOf(s, key).(held := false)
    ensures GateOk(t, key)
  {
    forall q | Owner(t, key, q) ensures false { assert Owner(s, key, q); }
    forall q ensures !Stands(t, key, q) { assert q in GateOf(s, key).waiters <==> Stands(s, key, q); }
    forall q | q in GateOf(t, key).granted ensures Past(t, q) { assert Past(s, q); }
  }

  /** Somebody in line: the gate stays held and the first in line owns it now. */
  lemma UnlockPasses(s: Service, t: Service, p: nat, first: nat, key: int)
    requires GateOk(s, key) && Owner(s, key, p) && Stands(s, key, first) && t.perUser == s.perUser
    requires GateOf(s, key).waiters != [] && first == GateOf(s, key).waiters[0]
    requires t.operations == s.operations[p := s.operations[p].(phase := Leaving)][first := s.operations[first].(phase := Locked)]
    requires GateOf(t, key) == GateOf(s, key).(waiters := GateOf(s, key).waiters[1..], granted := GateOf(s, key).granted + {first})
    ensures GateOk(t, key)
  {
    var gate := GateOf(s, key);
    assert Owner(t, key, first);
    forall q | Owner(t, key, q) ensures q == first { assert q != first ==> Owner(s, key, q); }
    assert gate.waiters == [first] + gate.waiters[1..];
    forall q ensures q in GateOf(t, key).waiters <==> Stands(t, key, q) {
      assert q in gate.waiters <==> Stands(s, key, q);
      assert Stands(t, key, q) <==> Stands(s, key, q) && q != first;
    }
    forall q | q in GateOf(t, key).granted ensures Past(t, q) { assert q != first ==> Past(s, q); }
  }

  lemma UnlockElsewhere(s: Service, t: Service, p: nat, other: nat, key: int, k: int)
    requires GateOk(s, k) && k != key && Owner(s, key, p) && (other == p || Stands(s, key, other))
    requires t.perUser == s.perUser && GateOf(t, k) == GateOf(s, k)
    requires var mid := s.operations[p := s.operations[p].(phase := Leaving)];
             t.operations == if other == p then mid else mid[other := s.operations[other].(phase := Locked)]
    ensures GateOk(t, k)
  {
    GateFrame(s, t, k);
  }

  /** An owner always finds its gate held, so unlocking cannot panic; the first in line takes over. */
  lemma UnlockKeepsGates(s: Service, p: nat)
    requires GateInv(s) && (In(s, p, Locked) || In(s, p, Running))
    ensures GateInv(DoUnlock(s, p))
    ensures W.HandOver(GateOf(s, Key(s, s.operations[p].user))).Ok?
  {
    UnlockIs(s, p);
    var key, t := Key(s, s.operations[p].user), DoUnlock(s, p);
    var gate := GateOf(s, key);
    hide DoUnlock;
    var other := if gate.waiters == [] then p else gate.waiters[0];
    if gate.waiters == [] {
      UnlockOpens(s, t, p, key);
    } else {
      UnlockPasses(s, t, p, other, key);
    }
    forall k ensures GateOk(t, k) {
      assert GateOk(s, k);
      if k != key {
        UnlockElsewhere(s, t, p, other, key, k);
      }
    }
    NobodyNewInLine(s, t, p, key);
  }

  lemma NobodyNewInLine(s: Service, t: Service, p: nat, key: int)
    requires Unlocked(s, t, p, key)
    ensures forall q :: In(t, q, Queueing) ==> In(s, q, Queueing)
  {
  }

  lemma NextKeepsGates(s: Service, a: Action)
    requires Base(s) && GateInv(s)
    ensures GateInv(Next(s, a))
  {
    hide Base, GateInv;
    if Next(s, a) != s {
      match a
      case Lock(p) => LockKeepsGates(s, p);
      case CancelLock(p) => CancelLockKeepsGates(s, p);
      case Unlock(p) => UnlockKeepsGates(s, p);
      case Close => CloseKeepsGates(s, Next(s, a));
      case CloseHandles => CloseKeepsGates(s, Next(s, a));
      case _ =>
        OneMoves(s, a);
        OneKeepsClear(s, a);
        hide Next;
        AwayFromGates(s, Next(s, a), a.p);
    }
  }

  lemma CloseKeepsGates(s: Service, t: Service)
    requires GateInv(s) && t.gates == s.gates && t.perUser == s.perUser && t.operations == s.operations
    ensures GateInv(t)
  {
    forall key ensures GateOk(t, key) {
      assert GateOk(s, key);
      GateFrame(s, t, key);
    }
    forall q | In(t, q, Queueing) ensures In(s, q, Queueing) {}
  }

  // ----- the write count and the close -----

  lemma UnfinishedUpdate(operations: map<nat, Operation>, p: nat, o: Operation)
    ensures Unfinished(operations[p := o]) ==
            if o.phase == Finished then Unfinished(operations) - {p} else Unfinished(operations) + {p}
  {
  }

  lemma UnlockCounts(s: Service, p: nat)
    requires GateInv(s)
    ensures Unfinished(DoUnlock(s, p).operations) == Unfinished(s.operations)
    ensures DoUnlock(s, p).(operations := s.operations, gates := s.gates) == s
  {
    if In(s, p, Locked) || In(s, p, Running) {
      UnlockIs(s, p);
      var gate := GateOf(s, Key(s, s.operations[p].user));
      hide GateInv, GateOk, DoUnlock, Unfinished;
      UnfinishedUpdate(s.operations, p, s.operations[p].(phase := Leaving));
      InUnfinished(s.operations, p);
      if gate.waiters != [] {
        var first := gate.waiters[0];
        UnfinishedUpdate(s.operations[p := s.operations[p].(phase := Leaving)], first, s.operations[first].(phase := Locked));
        InUnfinished(s.operations, first);
      }
    }
  }

  lemma InUnfinished(operations: map<nat, Operation>, p: nat)
    requires p in operations && operations[p].phase != Finished
    ensures p in Unfinished(operations) && Unfinished(operations) + {p} == Unfinished(operations)
  {
  }

  lemma MoveCounts(s: Service, t: Service, p: nat)
    requires CountInv(s) && Moved(s, t, p)
    ensures CountInv(t)
  {
    UnfinishedUpdate(s.operations, p, t.operations[p]);
    var before := Unfinished(s.operations);
    assert p in s.operations <==> p in before;
    assert p in before ==> before + {p} == before && |before - {p}| == |before| - 1 && |before| > 0;
    assert p !in before ==> |before + {p}| == |before| + 1;
  }

  lemma NextCounts(s: Service, a: Action)
    requires GateInv(s) && CountInv(s)
    ensures CountInv(Next(s, a))
  {
    if Next(s, a) != s {
      if Alone(a) {
        hide *;
        OneMoves(s, a);
        MoveCounts(s, Next(s, a), a.p);
      } else {
        hide GateInv;
        match a
        case Unlock(p) => UnlockCounts(s, p);
        case _ =>
      }
    }
  }

  // ----- over every run -----

  lemma OpensSafely(perUser: bool, config: Config)
    requires config.maxActive >= 1
    ensures ServiceInv(Open(perUser, config))
  {
    ReachableInitially(config);
    assert Unfinished(Open(perUser, config).operations) == {};
  }

  lemma NextKeeps(s: Service, a: Action)
    requires ServiceInv(s)
    ensures ServiceInv(Next(s, a))
  {
    NextKeepsBase(s, a);
    NextKeepsGates(s, a);
    NextCounts(s, a);
  }

  lemma {:induction false} RunIsSafe(perUser: bool, config: Config, actions: seq<Action>)
    requires config.maxActive >= 1
    ensures ServiceInv(Run(Open(perUser, config), actions))
  {
    if actions == [] {
      OpensSafely(perUser, config);
    } else {
      RunIsSafe(perUser, config, actions[..|actions| - 1]);
      NextKeeps(Run(Open(perUser, config), actions[..|actions| - 1]), actions[|actions| - 1]);
    }
  }

  ghost predicate Occurs(s: Service) {
    s.coordinator.config.maxActive >= 1 &&
    exists actions :: s == Run(Open(s.perUser, s.coordinator.config), actions)
  }

  lemma OccursSafely(s: Service)
    requires Occurs(s)
    ensures ServiceInv(s)
  {
    var actions :| s == Run(Open(s.perUser, s.coordinator.config), actions);
    RunIsSafe(s.perUser, s.coordinator.config, actions);
  }

  /** No two operations run on one index, in either mode. */
  lemma MutualExclusion(s: Service, p: nat, q: nat)
    requires Occurs(s) && In(s, p, Running) && In(s, q, Running) && p != q
    ensures Key(s, s.operations[p].user) != Key(s, s.operations[q].user)
  {
    OccursSafely(s);
    var key := Key(s, s.operations[p].user);
    assert GateOk(s, key) && Owner(s, key, p);
    assert Key(s, s.operations[q].user) == key ==> Owner(s, key, q);
  }

  /** No index handle is closed while an operation runs; none starts after the close. */
  lemma NoCloseWhileRunning(s: Service, p: nat)
    requires Occurs(s) && p in s.operations && s.operations[p].phase != Finished
    ensures !s.closed && s.writes > 0 && Next(s, CloseHandles) == s
  {
    hide Occurs, Reachable, Owned, TicketInv, GateInv;
    OccursSafely(s);
    assert p in Unfinished(s.operations);
  }

  /** With one index per user the coordinator already keeps the gate free: nobody ever lines up. */
  lemma PerUserGateHasNoLine(s: Service, key: int)
    requires Occurs(s) && s.perUser
    ensures GateOf(s, key).waiters == []
  {
    var line := GateOf(s, key).waiters;
    assert line != [] ==> line[0] in line;
    OccursSafely(s);
    assert GateOk(s, key);
    assert forall p :: p in line ==> Stands(s, key, p);
  }

  /** A finished operation called Done once, and released once exactly the lease it was granted, if any. */
  lemma ExactlyOnce(s: Service, p: nat)
    requires Occurs(s) && In(s, p, Finished)
    ensures s.operations[p].dones == 1
    ensures s.operations[p].releases ==
            if s.operations[p].ticket.Ticket? && s.operations[p].ticket.number in s.coordinator.states
               && s.coordinator.states[s.operations[p].ticket.number] == Granted then 1 else 0
  {
    OccursSafely(s);
    assert OperationInv(s.coordinator, s.users, s.operations[p]);
  }

  /** Release is never called on a lease that is gone, nor Unlock on a gate that is not held. */
  lemma NoDoubleRelease(s: Service, p: nat)
    requires Occurs(s)
    ensures In(s, p, Leaving) ==> s.operations[p].ticket.Ticket? && s.operations[p].ticket.number in s.coordinator.leases
    ensures In(s, p, Running) || In(s, p, Locked) ==> GateOf(s, Key(s, s.operations[p].user)).held
  {
    OccursSafely(s);
    if In(s, p, Leaving) {
      HoldersTicket(s, p);
    } else if In(s, p, Running) || In(s, p, Locked) {
      assert GateOk(s, Key(s, s.operations[p].user)) && Owner(s, Key(s, s.operations[p].user), p);
    }
  }

  /** Once the write count is back at zero nothing leaked: no live lease, no waiter, no held gate. */
  lemma DrainedIsClean(s: Service)
    requires Occurs(s) && s.writes == 0
    ensures s.coordinator.leases == map[] && s.coordinator.waiters == []
    ensures forall key :: !GateOf(s, key).held
  {
    OccursSafely(s);
    assert Unfinished(s.operations) == {};
    ReachableKeeps(s.coordinator);
    assert s.coordinator.waiters != [] ==> StillQueued(s.coordinator, s.coordinator.waiters[0].sequence);
    forall n | n in s.coordinator.states ensures n !in s.coordinator.leases && s.coordinator.states[n] != Queued {
      var p := s.carriers[n];
      assert p !in Unfinished(s.operations);
      assert OperationInv(s.coordinator, s.users, s.operations[p]);
    }
    assert s.coordinator.leases.Keys == {};
    forall key ensures !GateOf(s, key).held {
      assert GateOk(s, key);
      assert forall p :: Owner(s, key, p) ==> p in Unfinished(s.operations);
    }
  }
}
