/** The bounded edit distance behind fuzzy highlighting: two rows, a cutoff, and an early exit. */
module EditDistance {

  type Rune = int

  function Min(x: int, y: int): int {
    if y < x then y else x
  }

  /** Levenshtein's recurrence on the last rune of each string. */
  function Distance(a: seq<Rune>, b: seq<Rune>): nat
    decreases |a| + |b|
  {
    if a == [] then |b|
    else if b == [] then |a|
    else
      var a', b' := a[..|a| - 1], b[..|b| - 1];
      var cost := if a[|a| - 1] == b[|b| - 1] then 0 else 1;
      Min(Min(Distance(a, b') + 1, Distance(a', b) + 1), Distance(a', b') + cost)
  }

  // ----- what the recurrence means -----

  datatype Edit = Keep(r: Rune) | Insert(r: Rune) | Delete(r: Rune) | Replace(r: Rune, s: Rune)

  function Source(script: seq<Edit>): seq<Rune> {
    if script == [] then []
    else
      var last := script[|script| - 1];
      Source(script[..|script| - 1]) + if last.Insert? then [] else [last.r]
  }

  function Target(script: seq<Edit>): seq<Rune> {
    if script == [] then []
    else
      var last := script[|script| - 1];
      Target(script[..|script| - 1])
      + match last case Keep(r) => [r] case Insert(r) => [r] case Delete(_) => [] case Replace(_, s) => [s]
  }

  function Cost(script: seq<Edit>): nat {
    if script == [] then 0
    else Cost(script[..|script| - 1]) + if script[|script| - 1].Keep? then 0 else 1
  }

  ghost predicate Turns(script: seq<Edit>, a: seq<Rune>, b: seq<Rune>) {
    Source(script) == a && Target(script) == b
  }

  lemma {:induction false} ScriptOfCost(a: seq<Rune>, b: seq<Rune>) returns (script: seq<Edit>)
    ensures Turns(script, a, b) && Cost(script) == Distance(a, b)
    decreases |a| + |b|
  {
    if a == [] && b == [] {
      return [];
    }
    var last: Edit;
    var rest: seq<Edit>;
    hide Turns, Cost;
    LastStep(a, b);
    hide Distance;
    if a == [] || (b != [] && Distance(a, b) == Distance(a, b[..|b| - 1]) + 1) {
      last := Insert(b[|b| - 1]);
      rest := ScriptOfCost(a, b[..|b| - 1]);
      OneEditMore(rest, last, a, b[..|b| - 1], a, b);
    } else if b == [] || Distance(a, b) == Distance(a[..|a| - 1], b) + 1 {
      last := Delete(a[|a| - 1]);
      rest := ScriptOfCost(a[..|a| - 1], b);
      OneEditMore(rest, last, a[..|a| - 1], b, a, b);
    } else {
      last := if a[|a| - 1] == b[|b| - 1] then Keep(a[|a| - 1]) else Replace(a[|a| - 1], b[|b| - 1]);
      rest := ScriptOfCost(a[..|a| - 1], b[..|b| - 1]);
      OneEditMore(rest, last, a[..|a| - 1], b[..|b| - 1], a, b);
    }
    script := rest + [last];
  }

  /** The distance comes from one of three shorter ones. */
  lemma LastStep(a: seq<Rune>, b: seq<Rune>)
    ensures a == [] ==> Distance(a, b) == |b|
    ensures b == [] ==> Distance(a, b) == |a|
    ensures a == [] && b != [] ==> Distance(a, b[..|b| - 1]) == |b| - 1
    ensures b == [] && a != [] ==> Distance(a[..|a| - 1], b) == |a| - 1
    ensures a != [] && b != [] ==>
              var a', b' := a[..|a| - 1], b[..|b| - 1];
              || Distance(a, b) == Distance(a, b') + 1
              || Distance(a, b) == Distance(a', b) + 1
              || Distance(a, b) == Distance(a', b') + if a[|a| - 1] == b[|b| - 1] then 0 else 1
  {
  }

  lemma OneEditMore(rest: seq<Edit>, last: Edit, a': seq<Rune>, b': seq<Rune>, a: seq<Rune>, b: seq<Rune>)
    requires Turns(rest, a', b')
    requires a == a' + (if last.Insert? then [] else [last.r])
    requires b == b' + match last case Keep(r) => [r] case Insert(r) => [r] case Delete(_) => [] case Replace(_, s) => [s]
    ensures Turns(rest + [last], a, b) && Cost(rest + [last]) == Cost(rest) + if last.Keep? then 0 else 1
  {
    assert (rest + [last])[..|rest|] == rest;
  }

  lemma {:induction false} NoScriptIsCheaper(script: seq<Edit>, a: seq<Rune>, b: seq<Rune>)
    requires Turns(script, a, b)
    ensures Distance(a, b) <= Cost(script)
    decreases |script|
  {
    if script != [] {
      var rest, last := script[..|script| - 1], script[|script| - 1];
      var a', b' := Source(rest), Target(rest);
      NoScriptIsCheaper(rest, a', b');
      match last
      case Keep(_) => assert a[..|a| - 1] == a' && b[..|b| - 1] == b';
      case Replace(_, _) => assert a[..|a| - 1] == a' && b[..|b| - 1] == b';
      case Insert(_) => assert a == a' && b[..|b| - 1] == b';
      case Delete(_) => assert b == b' && a[..|a| - 1] == a';
    }
  }

  /** The distance is the least cost of a script of insertions, deletions and replacements. */
  lemma DistanceIsLeastCost(a: seq<Rune>, b: seq<Rune>)
    ensures exists script :: Turns(script, a, b) && Cost(script) == Distance(a, b)
    ensures forall script :: Turns(script, a, b) ==> Cost(script) >= Distance(a, b)
  {
    var script := ScriptOfCost(a, b);
    forall other | Turns(other, a, b) ensures Cost(other) >= Distance(a, b) {
      NoScriptIsCheaper(other, a, b);
    }
  }

  // ----- the two shortcuts -----

  /** The first shortcut: a length difference has to be paid for. */
  lemma {:induction false} LengthsBoundDistance(a: seq<Rune>, b: seq<Rune>)
    ensures |a| - |b| <= Distance(a, b) && |b| - |a| <= Distance(a, b)
    decreases |a| + |b|
  {
    if a != [] && b != [] {
      LengthsBoundDistance(a[..|a| - 1], b);
      LengthsBoundDistance(a, b[..|b| - 1]);
      LengthsBoundDistance(a[..|a| - 1], b[..|b| - 1]);
    }
  }

  /** The least distance from a to a prefix of b: the minimum of one row of the table. */
  function RowMin(a: seq<Rune>, b: seq<Rune>): nat {
    if b == [] then Distance(a, []) else Min(RowMin(a, b[..|b| - 1]), Distance(a, b))
  }

  lemma {:induction false} RowMinPrefix(a: seq<Rune>, b: seq<Rune>, j: nat)
    requires j <= |b|
    ensures RowMin(a, b) <= RowMin(a, b[..j]) && RowMin(a, b) <= Distance(a, b[..j])
  {
    if j == |b| {
      assert b[..j] == b;
    } else {
      RowMinPrefix(a, b[..|b| - 1], j);
      assert b[..|b| - 1][..j] == b[..j];
    }
  }

  /** The second shortcut: no entry of the next row is below the minimum of this one. */
  lemma {:induction false} NextRowIsNoSmaller(a: seq<Rune>, b: seq<Rune>, r: Rune)
    ensures RowMin(a, b) <= Distance(a + [r], b) && RowMin(a, b) <= RowMin(a + [r], b)
    decreases |b|
  {
    assert (a + [r])[..|a|] == a;
    if b != [] {
      var b' := b[..|b| - 1];
      NextRowIsNoSmaller(a, b', r);
      RowMinPrefix(a, b, |b| - 1);
      RowMinPrefix(a, b, |b|);
      assert b[..|b|] == b;
    }
  }

  lemma {:induction false} RowMinBoundsDistance(a: seq<Rune>, b: seq<Rune>, i: nat)
    requires i <= |a|
    ensures RowMin(a[..i], b) <= RowMin(a, b) <= Distance(a, b)
    decreases |a| - i
  {
    if i == |a| {
      assert a[..i] == a;
      RowMinPrefix(a, b, |b|);
      assert b[..|b|] == b;
    } else {
      RowMinBoundsDistance(a, b, i + 1);
      NextRowIsNoSmaller(a[..i], b, a[i]);
      assert a[..i] + [a[i]] == a[..i + 1];
    }
  }

  /** When the search gives up: on the lengths, or once a whole row lies beyond the cutoff. */
  ghost predicate GivesUp(a: seq<Rune>, b: seq<Rune>, max: int) {
    || max < 0 || |a| - |b| > max || |b| - |a| > max
    || exists i :: 0 < i <= |a| && RowMin(a[..i], b) > max
  }

  /** Giving up is never wrong, so the answer tells exactly whether the distance is within the
      cutoff, and what it is when it is. */
  lemma GivingUpIsSound(a: seq<Rune>, b: seq<Rune>, max: int)
    requires GivesUp(a, b, max)
    ensures Distance(a, b) > max
  {
    LengthsBoundDistance(a, b);
    if exists i :: 0 < i <= |a| && RowMin(a[..i], b) > max {
      var i :| 0 < i <= |a| && RowMin(a[..i], b) > max;
      RowMinBoundsDistance(a, b, i);
    }
  }

  /** The first n columns of row i of the table. */
  ghost predicate IsRow(row: array<int>, a: seq<Rune>, b: seq<Rune>, i: nat, n: nat)
    requires i <= |a| && n <= |b| + 1 && row.Length == |b| + 1
    reads row
  {
    forall j :: 0 <= j < n ==> row[j] == Distance(a[..i], b[..j])
  }

  lemma TableEdges(a: seq<Rune>, b: seq<Rune>, i: nat, j: nat)
    requires i <= |a| && j <= |b|
    ensures Distance(a[..0], b[..j]) == j
    ensures Distance(a[..i], b[..0]) == i == RowMin(a[..i], b[..0])
  {
    assert a[..0] == [] && b[..0] == [];
  }

  lemma TableStep(a: seq<Rune>, b: seq<Rune>, i: nat, j: nat)
    requires i < |a| && j < |b|
    ensures Distance(a[..i + 1], b[..j + 1])
         == Min(Min(Distance(a[..i + 1], b[..j]) + 1, Distance(a[..i], b[..j + 1]) + 1),
                Distance(a[..i], b[..j]) + if a[i] == b[j] then 0 else 1)
    ensures RowMin(a[..i + 1], b[..j + 1]) == Min(RowMin(a[..i + 1], b[..j]), Distance(a[..i + 1], b[..j + 1]))
  {
    assert a[..i + 1][..i] == a[..i] && b[..j + 1][..j] == b[..j];
  }

  /** The inner loop: row i + 1 and its minimum from row i. */
  method NextRow(a: seq<Rune>, b: seq<Rune>, i: nat, prev: array<int>, curr: array<int>) returns (rowMin: int)
    requires i < |a| && prev != curr && prev.Length == curr.Length == |b| + 1
    requires IsRow(prev, a, b, i, |b| + 1)
    modifies curr
    ensures IsRow(curr, a, b, i + 1, |b| + 1)
    ensures rowMin == RowMin(a[..i + 1], b)
  {
    hide Distance, RowMin;
    TableEdges(a, b, i + 1, 0);
    curr[0] := i + 1;
    rowMin := curr[0];
    for j := 0 to |b|
      invariant IsRow(prev, a, b, i, |b| + 1)
      invariant IsRow(curr, a, b, i + 1, j + 1)
      invariant rowMin == RowMin(a[..i + 1], b[..j])
    {
      TableStep(a, b, i, j);
      var cost := if a[i] == b[j] then 0 else 1;
      curr[j + 1] := Min(Min(curr[j] + 1, prev[j + 1] + 1), prev[j] + cost);
      if curr[j + 1] < rowMin {
        rowMin := curr[j + 1];
      }
    }
    assert b[..|b|] == b;
  }

  // ----- beyond the cutoff -----

  lemma OneMoreEach(a: seq<Rune>, b: seq<Rune>, r: Rune, s: Rune)
    ensures Distance(a + [r], b + [s]) ==
            Min(Min(Distance(a + [r], b) + 1, Distance(a, b + [s]) + 1), Distance(a, b) + if r == s then 0 else 1)
  {
    hide Min;
    var a', b' := a + [r], b + [s];
    assert a'[|a'| - 1] == r && b'[|b'| - 1] == s && a'[..|a'| - 1] == a && b'[..|b'| - 1] == b;
  }

  lemma NothingOrAll(a: seq<Rune>)
    ensures Distance([], a) == |a| && Distance(a, []) == |a|
  {
  }

  lemma SharedInTheWrongPlace(p: Rune, q: Rune, r: Rune, s: Rune)
    requires p != q && p != r && p != s && q != r && q != s
    ensures Distance([p, q], [q]) == 1 && Distance([p, q], [q, r, s]) == 3
  {
    var a, b, c := [p] + [q], [q] + [r], [q] + [r] + [s];
    NothingOrAll([p]);
    NothingOrAll(a);
    NothingOrAll([q]);
    NothingOrAll(b);
    NothingOrAll(c);
    NothingOrAll([]);
    hide Distance;
    assert [] + [p] == [p] && [] + [q] == [q];
    OneMoreEach([], [], p, q);
    OneMoreEach([], [q], p, r);
    OneMoreEach([], b, p, s);
    OneMoreEach([p], [], q, q);
    OneMoreEach([p], [q], q, r);
    OneMoreEach([p], b, q, s);
    assert a == [p, q] && c == [q, r, s];
  }

  /** ab and bxy are at distance 3, and with a cutoff of 1 the search does not give up, for every row of the table has an
      entry within it; so what is returned is 3 and not max + 1. */
  lemma ExactBeyondCutoff()
    ensures var a, b := [97, 98], [98, 120, 121]; !GivesUp(a, b, 1) && Distance(a, b) == 3
  {
    hide Distance, RowMin;
    var a, b := [97, 98], [98, 120, 121];
    SharedInTheWrongPlace(97, 98, 120, 121);
    NothingOrAll([97]);
    RowMinPrefix([97], b, 0);
    RowMinPrefix(a, b, 1);
    assert a[..1] == [97] && a[..2] == a && b[..0] == [] && b[..1] == [98];
  }

  /** The exact distance, or max + 1 when the search gives up; giving up is sound, so the answer decides
      "within max" for every pair of strings. */
  method BoundedEditDistance(a: seq<Rune>, b: seq<Rune>, max: int) returns (distance: int)
    ensures distance == if GivesUp(a, b, max) then max + 1 else Distance(a, b)
    ensures distance <= max <==> Distance(a, b) <= max
    ensures distance <= max ==> distance == Distance(a, b)
  {
    hide Distance, RowMin;
    if GivesUp(a, b, max) {
      GivingUpIsSound(a, b, max);
    }
    if max < 0 {
      return max + 1;
    }
    if |a| - |b| > max || |b| - |a| > max {
      return max + 1;
    }
    var prev, curr := new int[|b| + 1], new int[|b| + 1];
    for j := 0 to |b| + 1
      invariant IsRow(prev, a, b, 0, j)
    {
      TableEdges(a, b, 0, j);
      prev[j] := j;
    }
    for i := 0 to |a|
      invariant prev != curr && prev.Length == curr.Length == |b| + 1 && fresh(prev) && fresh(curr)
      invariant IsRow(prev, a, b, i, |b| + 1)
      invariant forall k :: 0 < k <= i ==> RowMin(a[..k], b) <= max
    {
      var rowMin := NextRow(a, b, i, prev, curr);
      if rowMin > max {
        return max + 1;
      }
      prev, curr := curr, prev;
    }
    assert a[..|a|] == a && b[..|b|] == b;
    return prev[|b|];
  }
}
