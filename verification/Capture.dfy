/** What a move means: capture, suicide and survival, stated by liberties alone. */
module Capture {
  import opened Grid
  import opened Board
  import opened Moves
  import opened Rules

  /** Capture is exact: on an empty point, the removed stones are the opponent's stones
      whose only liberty was that point. */
  lemma {:induction false} CaptureExact(b: Position, p: int, i: int)
    requires Cell(i) && Occupied(b, i) == 0 && (p == 1 || p == -1)
    ensures Captured(b, p, i) == set j | 0 <= j < 361 && Occupied(b, j) == -p && Liberties(b, j) == {i}
  {
    forall j | j in Captured(b, p, i)
      ensures Occupied(b, j) == -p && Liberties(b, j) ==
    {
      i} { CapturedInAtari(b, p, i, j);
    }
    forall j | 0 <= j < 361 && Occupied(b, j) == -p && Liberties(b, j) == {i} ensures j in Captured(b, p, i) {
      InAtariCaptured(b, p, i, j);
    }
  }

  lemma {:induction false} CapturedInAtari(b: Position, p: int, i: int, j: int)
    requires Cell(i) && Occupied(b, i) == 0 && (p == 1 || p == -1) && j in Captured(b, p, i)
    ensures Occupied(b, j) == -p && Liberties(b, j) == {i}
  {
    var ok := Atari(b, p, i);
    var n :| Adj(i, n) && n in ok && j in Reach(ok, n);
    ReachMonotone(ok, Stones(b, -p), n);
    ChainColour(b, n, j);
    AdjSymmetric(i, n);
    EmptyNeighbourIsLiberty(b, n, i);
    SizeAgainstOne(Liberties(b, n), i);
  }

  lemma {:induction false} InAtariCaptured(b: Position, p: int, i: int, j: int)
    requires Cell(i) && Occupied(b, i) == 0 && (p == 1 || p == -1)
    requires Cell(j) && Occupied(b, j) == -p && Liberties(b, j) == {i}
    ensures j in Captured(b, p, i)
  {
    var ok := Atari(b, p, i);
    assert i in Liberties(b, j);
    var n :| n in Chain(b, j) && Adj(n, i);
    forall k | k in Chain(b, j) ensures k in ok { ChainColour(b, j, k); }
    ReachRestrict(Stones(b, -p), ok, j);
    ReachSymmetric(ok, j, n);
    AdjSymmetric(n, i);
  }

  /** What a cell holds after colour `p` plays on the empty point `i`. */
  ghost function AfterMove(b: Position, p: int, i: int, j: int): int
    requires Cell(j)
  {
    if j == i then p else if Occupied(b, j) == -p && Liberties(b, j) == {i} then 0 else Occupied(b, j)
  }

  lemma {:induction false} MoveExact(b: Position, p: int, i: int)
    requires Cell(i) && Occupied(b, i) == 0 && (p == 1 || p == -1)
    ensures forall j :: Cell(j) ==> Occupied(Moved(b, p, i), j) == AfterMove(b, p, i, j)
    ensures forall k :: 722 <= k < 1083 ==> Moved(b, p, i)[k] == b[k]
    ensures NoDouble(b) ==> NoDouble(Moved(b, p, i))
    ensures Uniform(b) ==> Uniform(Moved(b, p, i))
  {
    CaptureExact(b, p, i);
  }

  /** Own stones stay and chains of the mover only grow, so their liberties other than `i` stay. */
  lemma {:induction false} OwnChainKept(b: Position, p: int, i: int, j: int, e: int)
    requires Cell(i) && Occupied(b, i) == 0 && (p == 1 || p == -1)
    requires Cell(j) && Occupied(b, j) == p
    ensures Chain(b, j) <= Chain(Moved(b, p, i), j)
    ensures e in Liberties(b, j) && e != i ==> e in Liberties(Moved(b, p, i), j)
  {
    var b' := Moved(b, p, i);
    MoveExact(b, p, i);
    assert Stones(b, p) <= Stones(b', p);
    ReachMonotone(Stones(b, p), Stones(b', p), j);
  }

  /** The mover's new chain, when no opponent is captured: the point and the chains it joins. */
  lemma {:induction false} JoinedChain(b: Position, p: int, i: int, j: int)
    requires Cell(i) && Occupied(b, i) == 0 && (p == 1 || p == -1) && Captured(b, p, i) == {}
    requires j in Chain(Moved(b, p, i), i) && j != i
    ensures exists n :: Adj(i, n) && Occupied(b, n) == p && j in Chain(b, n)
  {
    var b' := Moved(b, p, i);
    MoveExact(b, p, i);
    CaptureExact(b, p, i);
    var s := set k | k in Stones(b', p) && (k == i || exists n :: Adj(i, n) && Occupied(b, n) == p && k in Chain(b, n));
    forall k, m | k in s && Adj(k, m) && m in Stones(b', p) ensures m in s {
      if k == i {
        if m != i { InOwnChain(b, m); }
      } else if m != i {
        var n :| Adj(i, n) && Occupied(b, n) == p && k in Chain(b, n);
        ReachClosed(Stones(b, p), n);
      }
    }
    ReachLeast(Stones(b', p), i, s);
  }

  /** Without captures, the new stone's chain is exactly the stone and the chains of its own colour next to it. */
  lemma {:induction false} JoinedChainExact(b: Position, p: int, i: int, j: int)
    requires Cell(i) && Occupied(b, i) == 0 && (p == 1 || p == -1) && Captured(b, p, i) == {}
    ensures j in Chain(Moved(b, p, i), i) <==>
              j == i || exists n :: Adj(i, n) && Occupied(b, n) == p && j in Chain(b, n)
  {
    var b' := Moved(b, p, i);
    MoveExact(b, p, i);
    InOwnChain(b', i);
    if j in Chain(b', i) && j != i { JoinedChain(b, p, i, j); }
    if exists n :: Adj(i, n) && Occupied(b, n) == p && j in Chain(b, n) {
      var n :| Adj(i, n) && Occupied(b, n) == p && j in Chain(b, n);
      ReachClosed(Stones(b', p), i);
      OwnChainKept(b, p, i, n, i);
      ReachSame(Stones(b', p), i, n);
    }
  }

  /** The suicide test by counts from before the move is the definition of suicide. */
  lemma {:induction false} SuicideExact(b: Position, p: int, i: int)
    requires Cell(i) && Occupied(b, i) == 0 && (p == 1 || p == -1)
    ensures Suicidal(b, p, i) <==> Liberties(Moved(b, p, i), i) == {}
  {
    forall e | e in Liberties(Moved(b, p, i), i) ensures !Suicidal(b, p, i) {
      var n := LibertyMeansSafe(b, p, i, e);
    }
    forall n | Adj(i, n) && Safe(b, p, n) ensures Liberties(Moved(b, p, i), i) != {} {
      SafeLeavesSome(b, p, i, n);
    }
  }

  lemma {:induction false} LibertyMeansSafe(b: Position, p: int, i: int, e: int) returns (n: int)
    requires Cell(i) && Occupied(b, i) == 0 && (p == 1 || p == -1)
    requires e in Liberties(Moved(b, p, i), i)
    ensures Adj(i, n) && Safe(b, p, n)
  {
    var b' := Moved(b, p, i);
    MoveExact(b, p, i);
    CaptureExact(b, p, i);
    if j :| j in Captured(b, p, i) {
      assert i in Liberties(b, j);
      n :| n in Chain(b, j) && Adj(n, i);
      ChainColour(b, j, n);
      AdjSymmetric(n, i);
    } else {
      var j :| j in Chain(b', i) && Adj(j, e);
      if j == i {
        n := e;
      } else {
        JoinedChain(b, p, i, j);
        n :| Adj(i, n) && Occupied(b, n) == p && j in Chain(b, n);
        AdjSymmetric(i, n);
        EmptyNeighbourIsLiberty(b, n, i);
        assert e in Liberties(b, n);
        SizeAgainstOne(Liberties(b, n), i);
      }
    }
  }

  lemma {:induction false} SafeLeavesSome(b: Position, p: int, i: int, n: int)
    requires Cell(i) && Occupied(b, i) == 0 && (p == 1 || p == -1)
    requires Adj(i, n) && Safe(b, p, n)
    ensures Liberties(Moved(b, p, i), i) != {}
  {
    var b' := Moved(b, p, i);
    MoveExact(b, p, i);
    AdjSymmetric(i, n);
    if Occupied(b, n) != 0 {
      EmptyNeighbourIsLiberty(b, n, i);
      SizeAgainstOne(Liberties(b, n), i);
    }
    if Occupied(b, n) == p {
      var e :| e in Liberties(b, n) && e != i;
      OwnChainKept(b, p, i, n, e);
      InOwnChain(b', i);
      ReachClosed(Stones(b', p), i);
      ChainColour(b', i, n);
      assert e in Liberties(b', i);
    } else {
      EmptyNeighbourIsLiberty(b', i, n);
    }
  }
}
