/** The 19x19 grid: cell indices, adjacency, and regions of connected cells. */
module Grid {

  predicate Cell(i: int) { 0 <= i < 361 }

  predicate InBoard(r: int, c: int) { 0 <= r < 19 && 0 <= c < 19 }

  function Index(r: int, c: int): (i: int)
    requires InBoard(r, c)
    ensures Cell(i)
  {
    r * 19 + c
  }

  /** Orthogonally adjacent cells; rows do not wrap around. */
  predicate Adj(i: int, j: int) {
    Cell(i) && Cell(j) &&
    (j == i + 19 || j == i - 19 || (j == i + 1 && i % 19 != 18) || (j == i - 1 && i % 19 != 0))
  }

  function AllCells(): set<int> { set i | 0 <= i < 361 && Cell(i) }

  lemma {:induction false} AdjSymmetric(i: int, j: int)
    requires Adj(i, j)
    ensures Adj(j, i)
  {}

  /** The four (row, column) steps of the program, some of which may leave the board. */
  predicate Step(r: int, c: int, r': int, c': int) {
    (c' == c && (r' == r + 1 || r' == r - 1)) || (r' == r && (c' == c + 1 || c' == c - 1))
  }

  lemma {:induction false} StepsAreAdj(r: int, c: int, r': int, c': int)
    requires InBoard(r, c) && InBoard(r', c')
    ensures Step(r, c, r', c') <==> Adj(Index(r, c), Index(r', c'))
  {}

  /** Every adjacent cell is where one of the four steps leads. */
  lemma {:induction false} AdjIsStep(r: int, c: int, n: int)
    requires InBoard(r, c) && Adj(Index(r, c), n)
    ensures || (InBoard(r + 1, c) && n == Index(r + 1, c))
            || (InBoard(r - 1, c) && n == Index(r - 1, c))
            || (InBoard(r, c + 1) && n == Index(r, c + 1))
            || (InBoard(r, c - 1) && n == Index(r, c - 1))
  {}

  /** A walk through adjacent cells that all belong to `ok`. */
  ghost predicate Path(ok: set<int>, p: seq<int>) {
    && |p| > 0
    && (forall k :: 0 <= k < |p| ==> p[k] in ok)
    && (forall k :: 0 <= k < |p| - 1 ==> Adj(p[k], p[k + 1]))
  }

  ghost predicate Linked(ok: set<int>, i: int, j: int) {
    exists p :: Path(ok, p) && p[0] == i && p[|p| - 1] == j
  }

  /** The cells that a walk inside `ok` can reach from `i`. */
  ghost function Reach(ok: set<int>, i: int): set<int> {
    set j | j in ok && Linked(ok, i, j)
  }

  ghost predicate Closed(ok: set<int>, s: set<int>) {
    forall j, k :: j in s && Adj(j, k) && k in ok ==> k in s
  }

  lemma {:induction false} ReachSelf(ok: set<int>, i: int)
    requires i in ok
    ensures i in Reach(ok, i)
  {
    assert Path(ok, [i]);
  }

  lemma {:induction false} ReachClosed(ok: set<int>, i: int)
    ensures Closed(ok, Reach(ok, i))
  {
    forall j, k | j in Reach(ok, i) && Adj(j, k) && k in ok ensures k in Reach(ok, i) {
      var p :| Path(ok, p) && p[0] == i && p[|p| - 1] == j;
      assert Path(ok, p + [k]);
    }
  }

  /** `Reach(ok, i)` is the least closed set holding `i`. */
  lemma {:induction false} ReachLeast(ok: set<int>, i: int, s: set<int>)
    requires i in s && Closed(ok, s)
    ensures Reach(ok, i) <= s
  {
    forall j | j in Reach(ok, i) ensures j in s {
      var p :| Path(ok, p) && p[0] == i && p[|p| - 1] == j;
      PathStays(ok, p, s);
    }
  }

  lemma {:induction false} PathStays(ok: set<int>, p: seq<int>, s: set<int>)
    requires Path(ok, p) && p[0] in s && Closed(ok, s)
    ensures p[|p| - 1] in s
  {
    if |p| > 1 {
      assert Adj(p[0], p[1]);
      PathStays(ok, p[1..], s);
    }
  }

  lemma {:induction false} ReachSymmetric(ok: set<int>, i: int, j: int)
    requires j in Reach(ok, i)
    ensures i in Reach(ok, j)
  {
    var p :| Path(ok, p) && p[0] == i && p[|p| - 1] == j;
    var q := seq(|p|, k requires 0 <= k < |p| => p[|p| - 1 - k]);
    forall k | 0 <= k < |q| - 1 ensures Adj(q[k], q[k + 1]) {
      AdjSymmetric(p[|p| - 2 - k], p[|p| - 2 - k + 1]);
    }
    assert Path(ok, q);
  }

  lemma {:induction false} ReachSubset(ok: set<int>, i: int, j: int)
    requires j in Reach(ok, i)
    ensures Reach(ok, j) <= Reach(ok, i)
  {
    ReachClosed(ok, i);
    ReachLeast(ok, j, Reach(ok, i));
  }

  /** Regions partition `ok`. */
  lemma {:induction false} ReachSame(ok: set<int>, i: int, j: int)
    requires j in Reach(ok, i)
    ensures Reach(ok, j) == Reach(ok, i)
  {
    ReachSubset(ok, i, j);
    ReachSymmetric(ok, i, j);
    ReachSubset(ok, j, i);
  }

  lemma {:induction false} ReachMonotone(ok: set<int>, ok': set<int>, i: int)
    requires ok <= ok'
    ensures Reach(ok, i) <= Reach(ok', i)
  {
    forall j | j in Reach(ok, i) ensures j in Reach(ok', i) {
      var p :| Path(ok, p) && p[0] == i && p[|p| - 1] == j;
      assert Path(ok', p);
    }
  }

  /** Shrinking `ok` leaves a region alone when the region survives. */
  lemma {:induction false} ReachRestrict(ok: set<int>, ok': set<int>, i: int)
    requires i in ok && Reach(ok, i) <= ok' <= ok
    ensures Reach(ok', i) == Reach(ok, i)
  {
    ReachSelf(ok, i);
    ReachClosed(ok, i);
    ReachLeast(ok', i, Reach(ok, i));
    ReachSelf(ok', i);
    ReachClosed(ok', i);
    assert Closed(ok, Reach(ok', i)) by {
      forall j, k | j in Reach(ok', i) && Adj(j, k) && k in ok ensures k in Reach(ok', i) {
        assert j in Reach(ok, i);
      }
    }
    ReachLeast(ok, i, Reach(ok', i));
  }

  /** What a fill started at row `r`, column `c` may mark; nothing off the board or outside `ok`. */
  ghost function RegionAt(ok: set<int>, r: int, c: int): set<int> {
    if InBoard(r, c) && Index(r, c) in ok then Reach(ok, Index(r, c)) else {}
  }

  ghost predicate CoveredAt(ok: set<int>, r: int, c: int, s: set<int>) {
    InBoard(r, c) && Index(r, c) in ok ==> Index(r, c) in s
  }

  /** The fills started by the four steps stay inside the region of the cell. */
  lemma {:induction false} RegionSteps(ok: set<int>, r: int, c: int)
    requires InBoard(r, c) && Index(r, c) in ok
    ensures Index(r, c) in RegionAt(ok, r, c)
    ensures forall r', c' :: Step(r, c, r', c') ==> RegionAt(ok, r', c') <= RegionAt(ok, r, c)
  {
    var i := Index(r, c);
    ReachSelf(ok, i);
    ReachClosed(ok, i);
    forall r', c' | Step(r, c, r', c') && InBoard(r', c') && Index(r', c') in ok
      ensures Reach(ok, Index(r', c')) <= Reach(ok, i)
    {
      StepsAreAdj(r, c, r', c');
      ReachSubset(ok, i, Index(r', c'));
    }
  }
}
