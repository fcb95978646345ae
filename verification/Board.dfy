/** A board position: 361 cells of the side to move, 361 of the other side, and a turn plane. */
module Board {
  import opened Grid

  type Bit = x: int | 0 <= x <= 1

  type Position = b: seq<Bit> | |b| == 1083 witness seq(1083, _ => 0)

  /** Contents of a cell: 1, -1 or 0. A cell marked in both planes reads as 1. */
  function Occupied(b: Position, i: int): (o: int)
    requires Cell(i)
    ensures o == 1 || o == -1 || o == 0
  {
    if b[i] == 1 then 1 else if b[i + 361] == 1 then -1 else 0
  }

  function Stones(b: Position, side: int): set<int> {
    set i | 0 <= i < 361 && Occupied(b, i) == side
  }

  /** The maximal chain of same-coloured stones through `i`. */
  ghost function Chain(b: Position, i: int): set<int>
    requires Cell(i)
  {
    Reach(Stones(b, Occupied(b, i)), i)
  }

  /** The empty cells next to the chain of `i`. */
  ghost function Liberties(b: Position, i: int): set<int>
    requires Cell(i)
  {
    set e | e in Stones(b, 0) && exists j :: j in Chain(b, i) && Adj(j, e)
  }

  ghost function LibertyCount(b: Position, i: int): nat
    requires Cell(i)
  {
    if Occupied(b, i) == 0 then 0 else |Liberties(b, i)|
  }

  /** Every stone on the board belongs to a chain with a liberty. */
  ghost predicate AllAlive(b: Position) {
    forall i :: Cell(i) && Occupied(b, i) != 0 ==> Liberties(b, i) != {}
  }

  predicate NoDouble(b: Position) {
    forall i :: 0 <= i < 361 ==> !(b[i] == 1 && b[i + 361] == 1)
  }

  predicate Uniform(b: Position) {
    forall i :: 722 <= i < 1083 ==> b[i] == b[722]
  }

  lemma {:induction false} ChainColour(b: Position, i: int, j: int)
    requires Cell(i) && j in Chain(b, i)
    ensures Cell(j) && Occupied(b, j) == Occupied(b, i)
    ensures Chain(b, j) == Chain(b, i) && Liberties(b, j) == Liberties(b, i)
    ensures LibertyCount(b, j) == LibertyCount(b, i)
  {
    ReachSame(Stones(b, Occupied(b, i)), i, j);
  }

  lemma {:induction false} InOwnChain(b: Position, i: int)
    requires Cell(i)
    ensures i in Chain(b, i)
  {
    ReachSelf(Stones(b, Occupied(b, i)), i);
  }

  lemma {:induction false} EmptyNeighbourIsLiberty(b: Position, i: int, e: int)
    requires Adj(i, e) && Occupied(b, e) == 0
    ensures e in Liberties(b, i)
  {
    InOwnChain(b, i);
  }

  /** What the size of a set says about its members, given one of them. */
  lemma {:induction false} SizeAgainstOne(s: set<int>, e: int)
    requires e in s
    ensures |s| == 1 <==> s == {e}
    ensures |s| >= 1
    ensures |s| > 1 <==> exists x :: x in s && x != e
  {
    var t := s - {e};
    assert s == t + {e};
    assert |s| == |t| + 1;
    if exists x :: x in s && x != e {
      var x :| x in s && x != e;
      assert x in t;
    } else {
      assert forall x :: x in s ==> x == e;
      assert s == {e};
    }
  }
}
