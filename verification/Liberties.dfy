/** `propagate_liberty` and `calculate_liberties`: flood fills over scratch arrays. */
module LibertyCounting {
  import opened Grid
  import opened Board

  /** The scratch state of the fill: which stones were visited, and the running counts. */
  datatype Scratch = Scratch(visited: set<int>, lib: seq<nat>)

  function Marked(visited: seq<bool>): set<int>
    requires |visited| == 361
  {
    set i | 0 <= i < 361 && visited[i]
  }

  /** Every marked stone outside `grey` has all its same-coloured neighbours marked. */
  ghost predicate FilledExcept(b: Position, marked: set<int>, grey: set<int>) {
    forall j, k :: j in marked && j !in grey && Adj(j, k) && Occupied(b, k) == Occupied(b, j) ==> k in marked
  }

  /** One more for each cell of `s`. */
  predicate BumpedOn(lib: seq<nat>, lib': seq<nat>, s: set<int>) {
    |lib| == |lib'| == 361 && forall i :: 0 <= i < 361 ==> lib'[i] == lib[i] + if i in s then 1 else 0
  }

  /** Marks only grow, every new mark lies in `region` and is counted once. */
  ghost predicate Grown(region: set<int>, a: Scratch, z: Scratch) {
    a.visited <= z.visited && z.visited - a.visited <= region && BumpedOn(a.lib, z.lib, z.visited - a.visited)
  }

  /** A fill from (r, c) marks its start and nothing outside the region of its start. */
  ghost predicate FillEffect(ok: set<int>, r: int, c: int, a: Scratch, z: Scratch) {
    Grown(RegionAt(ok, r, c), a, z) && CoveredAt(ok, r, c, z.visited)
  }

  method PropagateLiberty(board: Position, lib: array<nat>, visited: array<bool>, row: int, col: int, side: int,
                          ghost grey: set<int>)
    requires lib.Length == 361 && visited.Length == 361
    requires FilledExcept(board, Marked(visited[..]), grey)
    modifies lib, visited
    ensures FillEffect(Stones(board, side), row, col, Scratch(Marked(old(visited[..])), old(lib[..])),
                       Scratch(Marked(visited[..]), lib[..]))
    ensures FilledExcept(board, Marked(visited[..]), grey)
    decreases AllCells() - Marked(visited[..])
  {
    if row < 0 || row > 18 || col < 0 || col > 18 { return; }
    var index := row * 19 + col;
    if Occupied(board, index) != side { return; }
    if visited[index] { return; }
    hide FillEffect, FilledExcept, RegionAt;
    ghost var ok, s0 := Stones(board, side), Scratch(Marked(visited[..]), lib[..]);
    visited[index] := true;
    lib[index] := lib[index] + 1;
    ghost var s1 := Scratch(Marked(visited[..]), lib[..]);
    assert s1.visited == s0.visited + {index} && index in AllCells() - s0.visited;
    GreyStart(board, s0.visited, index, grey);
    PropagateLiberty(board, lib, visited, row + 1, col, side, grey + {index});
    ghost var s2 := Scratch(Marked(visited[..]), lib[..]);
    MarksKept(ok, s1, s2);
    PropagateLiberty(board, lib, visited, row - 1, col, side, grey + {index});
    ghost var s3 := Scratch(Marked(visited[..]), lib[..]);
    MarksKept(ok, s2, s3);
    PropagateLiberty(board, lib, visited, row, col + 1, side, grey + {index});
    ghost var s4 := Scratch(Marked(visited[..]), lib[..]);
    MarksKept(ok, s3, s4);
    PropagateLiberty(board, lib, visited, row, col - 1, side, grey + {index});
    ghost var s5 := Scratch(Marked(visited[..]), lib[..]);
    assert FillEffect(ok, row, col, s0, s5) && FilledExcept(board, s5.visited, grey) by {
      FillJoin(ok, row, col, s0, s1, s2, s3, s4, s5);
      GreyDone(board, side, row, col, s5.visited, grey);
    }
  }

  lemma {:induction false} GrownTrans(region: set<int>, s: Scratch, t: Scratch, u: Scratch)
    requires Grown(region, s, t) && Grown(region, t, u)
    ensures Grown(region, s, u)
  {}

  lemma {:induction false} StepGrows(ok: set<int>, r: int, c: int, r': int, c': int, s: Scratch, t: Scratch, u: Scratch)
    requires InBoard(r, c) && Index(r, c) in ok && Step(r, c, r', c')
    requires Grown(RegionAt(ok, r, c), s, t) && FillEffect(ok, r', c', t, u)
    ensures Grown(RegionAt(ok, r, c), s, u) && t.visited <= u.visited && CoveredAt(ok, r', c', u.visited)
  {
    RegionSteps(ok, r, c);
    GrownTrans(RegionAt(ok, r, c), s, t, u);
  }

  lemma {:induction false} FillJoin(ok: set<int>, r: int, c: int, s0: Scratch, s1: Scratch, s2: Scratch, s3: Scratch,
                                    s4: Scratch, s5: Scratch)
    requires InBoard(r, c) && Index(r, c) in ok
    requires s1.visited == s0.visited + {Index(r, c)} && BumpedOn(s0.lib, s1.lib, s1.visited - s0.visited)
    requires FillEffect(ok, r + 1, c, s1, s2) && FillEffect(ok, r - 1, c, s2, s3)
    requires FillEffect(ok, r, c + 1, s3, s4) && FillEffect(ok, r, c - 1, s4, s5)
    ensures FillEffect(ok, r, c, s0, s5)
    ensures CoveredAt(ok, r + 1, c, s5.visited) && CoveredAt(ok, r - 1, c, s5.visited)
    ensures CoveredAt(ok, r, c + 1, s5.visited) && CoveredAt(ok, r, c - 1, s5.visited)
  {
    assert Grown(RegionAt(ok, r, c), s0, s1) by { RegionSteps(ok, r, c); }
    hide Grown, RegionAt, FillEffect;
    StepGrows(ok, r, c, r + 1, c, s0, s1, s2);
    StepGrows(ok, r, c, r - 1, c, s0, s2, s3);
    StepGrows(ok, r, c, r, c + 1, s0, s3, s4);
    StepGrows(ok, r, c, r, c - 1, s0, s4, s5);
    FillEffectIntro(ok, r, c, s0, s1, s5);
  }

  lemma {:induction false} FillEffectIntro(ok: set<int>, r: int, c: int, s0: Scratch, s1: Scratch, s5: Scratch)
    requires Grown(RegionAt(ok, r, c), s0, s5) && CoveredAt(ok, r, c, s1.visited) && s1.visited <= s5.visited
    ensures FillEffect(ok, r, c, s0, s5)
  {}

  lemma {:induction false} MarksKept(ok: set<int>, s: Scratch, t: Scratch)
    requires exists r, c :: FillEffect(ok, r, c, s, t)
    ensures s.visited <= t.visited
  {}

  lemma {:induction false} GreyStart(b: Position, m: set<int>, i: int, grey: set<int>)
    requires FilledExcept(b, m, grey)
    ensures FilledExcept(b, m + {i}, grey + {i})
  {}

  lemma {:induction false} GreyDone(b: Position, side: int, r: int, c: int, m: set<int>, grey: set<int>)
    requires InBoard(r, c) && Occupied(b, Index(r, c)) == side
    requires FilledExcept(b, m, grey + {Index(r, c)})
    requires CoveredAt(Stones(b, side), r + 1, c, m) && CoveredAt(Stones(b, side), r - 1, c, m)
    requires CoveredAt(Stones(b, side), r, c + 1, m) && CoveredAt(Stones(b, side), r, c - 1, m)
    ensures FilledExcept(b, m, grey)
  {
    forall j, k | j in m && j !in grey && Adj(j, k) && Occupied(b, k) == Occupied(b, j) ensures k in m {
      if j == Index(r, c) { AdjIsStep(r, c, k); }
    }
  }

  /** The stones of one colour whose chains touch the empty cell `e`. */
  ghost function Touching(b: Position, e: int): set<int> {
    set i | 0 <= i < 361 && Occupied(b, i) != 0 && e in Liberties(b, i)
  }

  /** The liberties of `i` among the cells before `e`. */
  ghost function LibertiesBefore(b: Position, i: int, e: int): set<int>
    requires Cell(i)
  {
    if Occupied(b, i) == 0 then {} else set x | x in Liberties(b, i) && x < e
  }

  ghost predicate CountedBefore(b: Position, lib: seq<nat>, e: int) {
    |lib| == 361 && forall i :: 0 <= i < 361 ==> lib[i] == |LibertiesBefore(b, i, e)|
  }

  lemma {:induction false} CountStep(b: Position, e: int, lib: seq<nat>, lib': seq<nat>)
    requires Cell(e) && CountedBefore(b, lib, e)
    requires BumpedOn(lib, lib', Touching(b, e))
    ensures CountedBefore(b, lib', e + 1)
  {
    hide LibertiesBefore, Touching;
    forall i | 0 <= i < 361 ensures lib'[i] == |LibertiesBefore(b, i, e + 1)| {
      OneMoreBefore(b, i, e);
    }
  }

  lemma {:induction false} OneMoreBefore(b: Position, i: int, e: int)
    requires Cell(i) && Cell(e)
    ensures |LibertiesBefore(b, i, e + 1)| == |LibertiesBefore(b, i, e)| + if i in Touching(b, e) then 1 else 0
  {
    hide Liberties;
    if i in Touching(b, e) {
      assert LibertiesBefore(b, i, e + 1) == LibertiesBefore(b, i, e) + {e};
    } else {
      assert LibertiesBefore(b, i, e + 1) == LibertiesBefore(b, i, e);
    }
  }

  lemma {:induction false} CountDone(b: Position, lib: seq<nat>)
    requires CountedBefore(b, lib, 361)
    ensures forall i :: 0 <= i < 361 ==> lib[i] == LibertyCount(b, i)
  {
    forall i | 0 <= i < 361 ensures lib[i] == LibertyCount(b, i) {
      if Occupied(b, i) != 0 {
        assert LibertiesBefore(b, i, 361) == Liberties(b, i);
      }
    }
  }

  /** The fills around an empty cell started at its occupied neighbours among `done`. */
  ghost predicate FillsAround(b: Position, e: int, done: set<int>, a: Scratch, z: Scratch) {
    && a.visited == {}
    && FilledExcept(b, z.visited, {})
    && (forall n :: n in done && Adj(e, n) && Occupied(b, n) != 0 ==> n in z.visited)
    && Grown(Touching(b, e), a, z)
  }

  lemma {:induction false} FillAroundStep(b: Position, e: int, done: set<int>, n: int, r: int, c: int, a: Scratch,
                                          y: Scratch, z: Scratch)
    requires Cell(e) && Occupied(b, e) == 0 && Adj(e, n) && Occupied(b, n) != 0
    requires InBoard(r, c) && n == Index(r, c)
    requires FillsAround(b, e, done, a, y)
    requires FillEffect(Stones(b, Occupied(b, n)), r, c, y, z) && FilledExcept(b, z.visited, {})
    ensures FillsAround(b, e, done + {n}, a, z)
  {
    assert n in Stones(b, Occupied(b, n));
    AdjSymmetric(e, n);
    forall j | j in Chain(b, n) ensures j in Touching(b, e) {
      EmptyNeighbourIsLiberty(b, n, e);
      ChainColour(b, n, j);
    }
    GrownTrans(Touching(b, e), a, y, z);
  }

  lemma {:induction false} FillsAroundNone(b: Position, e: int, a: Scratch)
    requires a.visited == {} && |a.lib| == 361
    ensures FillsAround(b, e, {}, a, a)
  {}

  lemma {:induction false} OccupiedIsNoLiberty(b: Position, e: int, lib: seq<nat>)
    requires Cell(e) && Occupied(b, e) != 0 && |lib| == 361
    ensures BumpedOn(lib, lib, Touching(b, e))
  {
    assert forall i :: Cell(i) ==> Liberties(b, i) <= Stones(b, 0);
    assert Touching(b, e) == {};
  }

  /** With every neighbour done, the visited stones are exactly those with `e` as a liberty. */
  lemma {:induction false} FillsAroundDone(b: Position, e: int, done: set<int>, a: Scratch, z: Scratch)
    requires Cell(e) && FillsAround(b, e, done, a, z)
    requires forall n :: Adj(e, n) && Occupied(b, n) != 0 ==> n in done
    ensures z.visited == Touching(b, e) && BumpedOn(a.lib, z.lib, Touching(b, e))
  {
    forall i | i in Touching(b, e) ensures i in z.visited {
      var j :| j in Chain(b, i) && Adj(j, e);
      AdjSymmetric(j, e);
      ChainColour(b, i, j);
      InOwnChain(b, i);
      var same := set k | k in z.visited && Cell(k) && Occupied(b, k) == Occupied(b, i);
      assert Closed(Stones(b, Occupied(b, i)), same);
      ReachLeast(Stones(b, Occupied(b, i)), j, same);
    }
  }

  method CalculateLiberties(board: Position) returns (lib: array<nat>)
    ensures fresh(lib) && lib.Length == 361
    ensures forall i :: 0 <= i < 361 ==> lib[i] == LibertyCount(board, i)
  {
    lib := new nat[361](_ => 0);
    var visited := new bool[361];
    assert CountedBefore(board, lib[..], 0) by {
      assert forall i :: 0 <= i < 361 ==> LibertiesBefore(board, i, 0) == {};
    }
    for j := 0 to 19
      invariant CountedBefore(board, lib[..], j * 19)
    {
      for i := 0 to 19
        invariant CountedBefore(board, lib[..], j * 19 + i)
      {
        CountAround(board, lib, visited, j, i);
      }
    }
    CountDone(board, lib[..]);
  }

  /** The body of the two loops of `calculate_liberties`, for row `j` and column `i`. */
  method CountAround(board: Position, lib: array<nat>, visited: array<bool>, j: int, i: int)
    requires InBoard(j, i) && lib.Length == 361 && visited.Length == 361
    requires CountedBefore(board, lib[..], j * 19 + i)
    modifies lib, visited
    ensures CountedBefore(board, lib[..], j * 19 + i + 1)
  {
    ghost var lib0 := lib[..];
    forall k | 0 <= k < 361 { visited[k] := false; }
    var index := Index(j, i);
    ghost var a := Scratch(Marked(visited[..]), lib[..]);
    assert a.visited == {} && a.lib == lib0 && |lib0| == 361;
    hide FillsAround, CountedBefore, BumpedOn;
    if Occupied(board, index) == 0 {
      FillsAroundNone(board, index, a);
      FillFromNeighbour(board, lib, visited, j, i, j, i - 1, {}, a);
      ghost var done := NeighbourAt(j, i - 1);
      FillFromNeighbour(board, lib, visited, j, i, j, i + 1, done, a);
      done := done + NeighbourAt(j, i + 1);
      FillFromNeighbour(board, lib, visited, j, i, j - 1, i, done, a);
      done := done + NeighbourAt(j - 1, i);
      FillFromNeighbour(board, lib, visited, j, i, j + 1, i, done, a);
      done := done + NeighbourAt(j + 1, i);
      NeighboursListed(j, i, done);
      FillsAroundDone(board, index, done, a, Scratch(Marked(visited[..]), lib[..]));
    } else {
      OccupiedIsNoLiberty(board, index, a.lib);
    }
    CountStep(board, index, a.lib, lib[..]);
  }

  /** One of the four guarded calls: fill from (r, c), a neighbour of the empty cell (j, i), if a stone is there. */
  method FillFromNeighbour(board: Position, lib: array<nat>, visited: array<bool>, j: int, i: int, r: int, c: int,
                           ghost done: set<int>, ghost a: Scratch)
    requires lib.Length == 361 && visited.Length == 361
    requires InBoard(j, i) && Occupied(board, Index(j, i)) == 0 && Step(j, i, r, c)
    requires FillsAround(board, Index(j, i), done, a, Scratch(Marked(visited[..]), lib[..]))
    modifies lib, visited
    ensures FillsAround(board, Index(j, i), done + NeighbourAt(r, c), a, Scratch(Marked(visited[..]), lib[..]))
  {
    ghost var y := Scratch(Marked(visited[..]), lib[..]);
    if InBoard(r, c) {
      if Occupied(board, Index(r, c)) != 0 {
        assert FilledExcept(board, y.visited, {});
        hide FillsAround, FilledExcept, FillEffect, Stones;
        PropagateLiberty(board, lib, visited, r, c, Occupied(board, Index(r, c)), {});
        StepsAreAdj(j, i, r, c);
        FillAroundStep(board, Index(j, i), done, Index(r, c), r, c, a, y, Scratch(Marked(visited[..]), lib[..]));
      }
    }
  }

  function NeighbourAt(r: int, c: int): set<int> {
    if InBoard(r, c) then {Index(r, c)} else {}
  }

  lemma {:induction false} NeighboursListed(j: int, i: int, done: set<int>)
    requires InBoard(j, i)
    requires done == NeighbourAt(j, i - 1) + NeighbourAt(j, i + 1) + NeighbourAt(j - 1, i) + NeighbourAt(j + 1, i)
    ensures forall n :: Adj(Index(j, i), n) ==> n in done
  {
    forall n | Adj(Index(j, i), n) ensures n in done {
      AdjIsStep(j, i, n);
    }
  }
}
