/** The per-index gate: a lock that hands itself over in arrival order. */
module WriterLock {

  /** Waiters are named; granted remembers those the lock was handed to. */
  datatype Gate = Gate(held: bool, waiters: seq<nat>, granted: set<nat>)

  const OPEN: Gate := Gate(false, [], {})

  datatype Unlocked = Panic | Ok(gate: Gate)

  /** True when the gate was free; otherwise the caller now stands last in line. */
  function Join(g: Gate, who: nat): (Gate, bool) {
    if !g.held && g.waiters == [] then (g.(held := true), true)
    else (g.(waiters := g.waiters + [who]), false)
  }

  function HandOver(g: Gate): Unlocked {
    if !g.held then Panic
    else if g.waiters == [] then Ok(g.(held := false))
    else Ok(g.(waiters := g.waiters[1..], granted := g.granted + {g.waiters[0]}))
  }

  function Remove(line: seq<nat>, who: nat): seq<nat> {
    if line == [] then []
    else if line[0] == who then line[1..]
    else [line[0]] + Remove(line[1..], who)
  }

  /** False when the lock already belongs to the waiter, or it was never in line. */
  function StepOut(g: Gate, who: nat): (Gate, bool) {
    if who in g.granted || who !in g.waiters then (g, false)
    else (g.(waiters := Remove(g.waiters, who)), true)
  }

  class Lock {
    var held: bool
    var waiters: seq<nat>
    var granted: set<nat>

    ghost function View(): Gate
      reads this
    {
      Gate(held, waiters, granted)
    }

    constructor ()
      ensures View() == OPEN
    {
      held, waiters, granted := false, [], {};
    }

    method TryLock() returns (acquired: bool)
      modifies this
      ensures acquired == (!old(held) && old(waiters) == [])
      ensures View() == if acquired then old(View()).(held := true) else old(View())
    {
      if held || |waiters| > 0 {
        return false;
      }
      held := true;
      return true;
    }

    method AcquireOrQueue(who: nat) returns (acquired: bool)
      modifies this
      ensures (View(), acquired) == Join(old(View()), who)
    {
      if !held && |waiters| == 0 {
        held := true;
        return true;
      }
      waiters := waiters + [who];
      return false;
    }

    method Unlock() returns (panicked: bool)
      modifies this
      ensures panicked == HandOver(old(View())).Panic?
      ensures View() == if panicked then old(View()) else HandOver(old(View())).gate
    {
      if !held {
        return true;
      }
      if |waiters| == 0 {
        held := false;
        return false;
      }
      granted := granted + {waiters[0]};
      waiters := waiters[1..];
      return false;
    }

    method CancelWaiter(who: nat) returns (removed: bool)
      modifies this
      ensures (View(), removed) == StepOut(old(View()), who)
    {
      if who in granted {
        return false;
      }
      ghost var before := waiters;
      var index := 0;
      while index < |waiters|
        invariant 0 <= index <= |waiters| && waiters == before && granted == old(granted) && held == old(held)
        invariant who !in before[..index]
        invariant Remove(before, who) == before[..index] + Remove(before[index..], who)
      {
        assert before[index..][1..] == before[index + 1..];
        if waiters[index] == who {
          waiters := waiters[..index] + waiters[index + 1..];
          return true;
        }
        assert before[..index] + ([before[index]] + Remove(before[index + 1..], who))
            == before[..index + 1] + Remove(before[index + 1..], who);
        index := index + 1;
      }
      assert before[..index] == before;
      return false;
    }
  }

  // ----- first come, first served, over every run -----

  datatype Event = Arrive | Leave | GiveUp(who: nat)

  /** A run in which arrivals are numbered as they come: who lined up, to whom the lock was
      handed, and who left the line. */
  datatype History = History(gate: Gate, arrivals: nat, lined: set<nat>, handed: seq<nat>, gaveUp: set<nat>)

  function Step(h: History, e: Event): History {
    match e
    case Arrive =>
      var (gate, acquired) := Join(h.gate, h.arrivals);
      h.(gate := gate, arrivals := h.arrivals + 1, lined := if acquired then h.lined else h.lined + {h.arrivals})
    case Leave =>
      (match HandOver(h.gate)
       case Panic => h
       case Ok(gate) => h.(gate := gate, handed := if h.gate.waiters == [] then h.handed else h.handed + [h.gate.waiters[0]]))
    case GiveUp(who) =>
      var (gate, removed) := StepOut(h.gate, who);
      h.(gate := gate, gaveUp := if removed then h.gaveUp + {who} else h.gaveUp)
  }

  function Run(events: seq<Event>): History {
    if events == [] then History(OPEN, 0, {}, [], {})
    else Step(Run(events[..|events| - 1]), events[|events| - 1])
  }

  ghost predicate Increasing(line: seq<nat>) {
    forall i, j :: 0 <= i < j < |line| ==> line[i] < line[j]
  }

  ghost predicate Distinct(line: seq<nat>) {
    forall i, j :: 0 <= i < j < |line| ==> line[i] != line[j]
  }

  lemma {:induction false} RemoveAt(line: seq<nat>, k: nat)
    requires Distinct(line) && k < |line|
    ensures Remove(line, line[k]) == line[..k] + line[k + 1..]
  {
    if k > 0 {
      RemoveAt(line[1..], k - 1);
      assert [line[0]] + (line[1..][..k - 1] + line[1..][k..]) == line[..k] + line[k + 1..];
    }
  }

  lemma RemoveClosesGap(line: seq<nat>, who: nat)
    requires Distinct(line) && who in line
    ensures Distinct(Remove(line, who)) && (Increasing(line) ==> Increasing(Remove(line, who)))
    ensures forall x :: x in Remove(line, who) <==> x in line && x != who
  {
    hide Remove, Distinct, Increasing;
    var k :| 0 <= k < |line| && line[k] == who;
    RemoveAt(line, k);
    GapKeepsOrder(line, k);
    GapLosesOne(line, k);
  }

  lemma GapKeepsOrder(line: seq<nat>, k: nat)
    requires k < |line|
    ensures Distinct(line) ==> Distinct(line[..k] + line[k + 1..])
    ensures Increasing(line) ==> Increasing(line[..k] + line[k + 1..])
  {
    var rest := line[..k] + line[k + 1..];
    assert forall i :: 0 <= i < |rest| ==> rest[i] == line[if i < k then i else i + 1];
  }

  lemma GapLosesOne(line: seq<nat>, k: nat)
    requires k < |line| && Distinct(line)
    ensures forall x :: x in line[..k] + line[k + 1..] <==> x in line && x != line[k]
  {
    var rest := line[..k] + line[k + 1..];
    forall x | x in line && x != line[k] ensures x in rest {
      var i :| 0 <= i < |line| && line[i] == x;
      assert rest[if i < k then i else i - 1] == x;
    }
    forall x | x in rest ensures x in line && x != line[k] {
      var i :| 0 <= i < |rest| && rest[i] == x;
      assert x == line[if i < k then i else i + 1];
    }
  }

  lemma IncreasingParts(a: seq<nat>, b: seq<nat>)
    requires Increasing(a + b)
    ensures Increasing(b)
    ensures forall x, y :: x in a && y in b ==> x < y
  {
    assert forall i :: 0 <= i < |b| ==> (a + b)[|a| + i] == b[i];
    assert forall i :: 0 <= i < |a| ==> (a + b)[i] == a[i];
  }

  ghost predicate Served(h: History) {
    && Increasing(h.handed + h.gate.waiters)
    && (forall x :: x in h.handed + h.gate.waiters <==> x in h.lined - h.gaveUp)
    && (forall x :: x in h.lined ==> x < h.arrivals)
    && (forall x :: x in h.gate.granted <==> x in h.handed)
    && h.gaveUp <= h.lined
    && (h.gate.waiters != [] ==> h.gate.held)
  }

  lemma IncreasingJoin(a: seq<nat>, b: seq<nat>)
    requires Increasing(a) && Increasing(b)
    requires forall x, y :: x in a && y in b ==> x < y
    ensures Increasing(a + b)
  {
    forall i, j | 0 <= i < j < |a + b| ensures (a + b)[i] < (a + b)[j] {
      if i < |a| <= j {
        assert a[i] in a && b[j - |a|] in b;
      }
    }
  }

  lemma GiveUpServes(h: History, who: nat)
    requires Served(h)
    ensures Served(Step(h, GiveUp(who)))
  {
    var g := Step(h, GiveUp(who));
    if who !in h.gate.granted && who in h.gate.waiters {
      IncreasingParts(h.handed, h.gate.waiters);
      RemoveClosesGap(h.gate.waiters, who);
      assert Increasing(h.handed) by {
        assert forall i :: 0 <= i < |h.handed| ==> (h.handed + h.gate.waiters)[i] == h.handed[i];
      }
      IncreasingJoin(h.handed, g.gate.waiters);
      assert who in h.handed + h.gate.waiters;
      forall x ensures x in g.handed + g.gate.waiters <==> x in g.lined - g.gaveUp {
        assert x in h.handed + h.gate.waiters <==> x in h.lined - h.gaveUp;
      }
    }
  }

  lemma ArriveServes(h: History)
    requires Served(h)
    ensures Served(Step(h, Arrive))
  {
    var g := Step(h, Arrive);
    if g.lined != h.lined {
      var all := h.handed + h.gate.waiters;
      assert forall i :: 0 <= i < |all| ==> all[i] in h.lined - h.gaveUp;
      IncreasingJoin(all, [h.arrivals]);
      assert g.handed + g.gate.waiters == all + [h.arrivals];
      assert h.arrivals !in h.gaveUp || h.arrivals in h.lined;
    }
  }

  /** The hand-overs made so far, followed by the line, are exactly those who lined up and did not
      give up, in the order in which they arrived. */
  lemma {:induction false} FirstComeFirstServed(events: seq<Event>)
    ensures Served(Run(events))
  {
    if events != [] {
      var init, e := events[..|events| - 1], events[|events| - 1];
      FirstComeFirstServed(init);
      var h, g := Run(init), Run(events);
      match e
      case Arrive => ArriveServes(h);
      case Leave =>
        assert h.gate.waiters != [] ==> g.handed + g.gate.waiters == h.handed + h.gate.waiters;
      case GiveUp(who) => GiveUpServes(h, who);
    }
  }
}
