/** Queries that order candidate rows by match strength and id and read only the first few of them. */
module Candidates {

  /** A row by its sort key: strength (smaller is better), then id. */
  datatype Candidate = Candidate(strength: int, id: int)

  predicate Before(a: Candidate, b: Candidate) {
    a.strength < b.strength || (a.strength == b.strength && a.id < b.id)
  }

  ghost predicate IsFirst(first: Candidate, rows: set<Candidate>) {
    first in rows && forall c :: c in rows && c != first ==> Before(first, c)
  }

  lemma {:induction false} FirstExists(rows: set<Candidate>)
    requires rows != {}
    ensures exists first :: IsFirst(first, rows)
    decreases |rows|
  {
    var some :| some in rows;
    if rows == {some} {
      assert IsFirst(some, rows);
    } else {
      FirstExists(rows - {some});
      var best :| IsFirst(best, rows - {some});
      var first := if Before(some, best) then some else best;
      forall c | c in rows && c != first ensures Before(first, c) {
        assert c != some ==> c in rows - {some};
      }
      assert IsFirst(first, rows);
    }
  }

  ghost function First(rows: set<Candidate>): (first: Candidate)
    requires rows != {}
    ensures IsFirst(first, rows)
  {
    FirstExists(rows);
    var first :| IsFirst(first, rows);
    first
  }

  lemma FirstIs(first: Candidate, rows: set<Candidate>)
    requires IsFirst(first, rows)
    ensures rows != {} && First(rows) == first
  {
  }

  /** ORDER BY strength, id LIMIT n. */
  ghost function Take(rows: set<Candidate>, n: nat): (taken: seq<Candidate>)
    ensures |taken| <= n
  {
    if n == 0 || rows == {} then [] else [First(rows)] + Take(rows - {First(rows)}, n - 1)
  }

  /** What the first n rows are: members, in order, before all others, and as many as there are up to n. */
  lemma {:induction false} TakenAreFirst(rows: set<Candidate>, n: nat)
    ensures forall i :: 0 <= i < |Take(rows, n)| ==> Take(rows, n)[i] in rows
    ensures forall i, j :: 0 <= i < j < |Take(rows, n)| ==> Before(Take(rows, n)[i], Take(rows, n)[j])
    ensures forall i, c :: 0 <= i < |Take(rows, n)| && c in rows && c !in Take(rows, n) ==> Before(Take(rows, n)[i], c)
    ensures |Take(rows, n)| < n ==> forall c :: c in rows ==> c in Take(rows, n)
  {
    if n > 0 && rows != {} {
      var rest := rows - {First(rows)};
      TakenAreFirst(rest, n - 1);
      forall c | c in rows ensures c == First(rows) || c in rest {
      }
    }
  }

  /** A decision on the rows read: the first one, unless the second is as strong. */
  function UnlessTied(taken: seq<Candidate>): int {
    if |taken| == 0 || (|taken| > 1 && taken[0].strength == taken[1].strength) then 0 else taken[0].id
  }

  /** The same, except that a tie only counts at the weakest strength. */
  function UnlessWeaklyTied(taken: seq<Candidate>, weakest: int): int {
    if |taken| == 0 || (taken[0].strength == weakest && |taken| > 1 && taken[1].strength == weakest) then 0
    else taken[0].id
  }

  /** No other row is as strong. */
  ghost predicate IsOnlyBest(c: Candidate, rows: set<Candidate>) {
    c in rows && forall other :: other in rows && other != c ==> c.strength < other.strength
  }

  lemma FirstTwo(rows: set<Candidate>)
    requires rows != {}
    ensures Take(rows, 2) == [First(rows)] + if rows == {First(rows)} then [] else [First(rows - {First(rows)})]
  {
    var rest := rows - {First(rows)};
    assert rest == {} <==> rows == {First(rows)};
    assert rest != {} ==> Take(rest, 1) == [First(rest)] + Take(rest - {First(rest)}, 0);
  }

  /** Two rows are enough: an id is chosen exactly when one row of all of them is the only best. */
  lemma TwoRowsDecide(rows: set<Candidate>, c: Candidate)
    requires forall r :: r in rows ==> r.id > 0
    requires c in rows
    ensures UnlessTied(Take(rows, 2)) == c.id && First(rows) == c <==> IsOnlyBest(c, rows)
    ensures UnlessTied(Take(rows, 2)) == 0 <==> !exists best :: IsOnlyBest(best, rows)
  {
    FirstTwo(rows);
    var first := First(rows);
    var rest := rows - {first};
    if rest == {} {
      assert IsOnlyBest(first, rows);
    } else if First(rest).strength != first.strength {
      forall other | other in rows && other != first ensures first.strength < other.strength {
        assert other in rest;
      }
      assert IsOnlyBest(first, rows);
    } else {
      forall best ensures !IsOnlyBest(best, rows) {
        assert First(rest) in rows && first in rows;
      }
    }
    forall best | IsOnlyBest(best, rows) ensures best == first {
      FirstIs(best, rows);
    }
  }

  /** So they are for the rule that lets the oldest of several strong rows win and only refuses weak ties. */
  lemma TwoRowsDecideWeakTies(rows: set<Candidate>, weakest: int)
    requires forall r :: r in rows ==> 0 < r.id && r.strength <= weakest
    ensures UnlessWeaklyTied(Take(rows, 2), weakest) ==
            if rows == {} || (First(rows).strength == weakest && !IsOnlyBest(First(rows), rows)) then 0 else First(rows).id
  {
    if rows != {} {
      FirstTwo(rows);
      var first := First(rows);
      var rest := rows - {first};
      if rest != {} && first.strength == weakest {
        assert First(rest) in rows && First(rest).strength == weakest;
      }
    }
  }
}
