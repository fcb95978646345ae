/** Colour symmetry of the rules, and what the ko test compares. */
module Symmetry {
  import opened Grid
  import opened Board
  import opened Moves
  import opened Rules
  import opened Capture

  /** The position in absolute colours: a set turn cell means the planes are already in that order. */
  function Absolute(b: Position): Position {
    if b[722] == 1 then b else Flipped(b)
  }

  function View(b: Position, player: int): Position {
    if player < 0 then Flipped(b) else b
  }

  /** A cell of one player's plane: `first` is the player whose turn plane is all ones. */
  function StoneOf(b: Position, first: bool, i: int): Bit
    requires Cell(i)
  {
    if (b[722] == 1) == first then b[i] else b[i + 361]
  }

  function StonesOf(b: Position, first: bool): set<int> {
    set i | 0 <= i < 361 && StoneOf(b, first, i) == 1
  }

  lemma {:induction false} FlipInvolution(b: Position)
    ensures Flipped(Flipped(b)) == b
  {}

  lemma {:induction false} FlipFacts(b: Position)
    ensures NoDouble(b) ==> NoDouble(Flipped(b))
    ensures Uniform(b) ==> Uniform(Flipped(b))
    ensures Absolute(Flipped(b)) == Absolute(b)
    ensures NoDouble(b) ==> forall i :: Cell(i) ==> Occupied(Flipped(b), i) == -Occupied(b, i)
  {
    FlipInvolution(b);
  }

  /** The ko test compares absolute positions, whichever side's view each board is stored in. */
  lemma {:induction false} KoIsAbsolute(x: Position, ko: Position)
    ensures SameView(x, ko) <==> Absolute(x) == Absolute(ko)
  {
    FlipInvolution(x);
    FlipInvolution(ko);
  }

  /** On uniform turn planes: same stones in absolute colours, and nothing else. */
  lemma {:induction false} KoExact(x: Position, ko: Position)
    requires Uniform(x) && Uniform(ko)
    ensures SameView(x, ko) <==> StonesOf(x, true) == StonesOf(ko, true) && StonesOf(x, false) == StonesOf(ko, false)
  {
    KoIsAbsolute(x, ko);
    AbsolutePlanes(x);
    AbsolutePlanes(ko);
    var a, k := Absolute(x), Absolute(ko);
    if StonesOf(x, true) == StonesOf(ko, true) && StonesOf(x, false) == StonesOf(ko, false) {
      forall i | 0 <= i < 1083 ensures a[i] == k[i] {
        if i < 361 {
          assert i in StonesOf(x, true) <==> i in StonesOf(ko, true);
        } else if i < 722 {
          assert i - 361 in StonesOf(x, false) <==> i - 361 in StonesOf(ko, false);
        }
      }
      assert a == k;
    }
  }

  lemma {:induction false} AbsolutePlanes(x: Position)
    ensures forall i :: 0 <= i < 361 ==> (Absolute(x)[i] == 1 <==> i in StonesOf(x, true))
    ensures forall i :: 361 <= i < 722 ==> (Absolute(x)[i] == 1 <==> i - 361 in StonesOf(x, false))
    ensures Uniform(x) ==> forall i :: 722 <= i < 1083 ==> Absolute(x)[i] == 1
  {}

  /** Chains and liberties do not depend on whose view the board is in. */
  lemma {:induction false} FlipChains(b: Position, i: int)
    requires NoDouble(b) && Cell(i)
    ensures Chain(Flipped(b), i) == Chain(b, i)
    ensures Liberties(Flipped(b), i) == Liberties(b, i)
    ensures LibertyCount(Flipped(b), i) == LibertyCount(b, i)
  {
    FlipFacts(b);
    var f := Flipped(b);
    assert Stones(f, Occupied(f, i)) == Stones(b, Occupied(b, i));
    assert Stones(f, 0) == Stones(b, 0);
  }

  /** Moving for -1 is flipping, moving for 1, and flipping back. */
  lemma {:induction false} MoveSymmetric(b: Position, i: int)
    requires Cell(i) && Occupied(b, i) == 0 && NoDouble(b)
    ensures Moved(b, -1, i) == Flipped(Moved(Flipped(b), 1, i))
  {
    var f := Flipped(b);
    FlipFacts(b);
    CaptureExact(b, -1, i);
    CaptureExact(f, 1, i);
    forall j | Cell(j) ensures Liberties(f, j) == Liberties(b, j) { FlipChains(b, j); }
    assert Captured(b, -1, i) == Captured(f, 1, i);
    hide Captured;
    assert Placed(f, 1, i) == Flipped(Placed(b, -1, i));
    ClearedFlipped(Placed(b, -1, i), Captured(b, -1, i));
    FlipInvolution(Moved(b, -1, i));
  }

  lemma {:induction false} ClearedFlipped(b: Position, s: set<int>)
    ensures Cleared(Flipped(b), s) == Flipped(Cleared(b, s))
  {}

  /** `legal_go` gives the same answer through either side's view. */
  lemma {:induction false} LegalSymmetric(b: Position, ko: Option<Position>, i: int)
    requires Cell(i) && NoDouble(b)
    ensures Legal(b, ko, -1, i) <==> Legal(Flipped(b), ko, 1, i)
  {
    var f := Flipped(b);
    FlipFacts(b);
    if Occupied(b, i) == 0 {
      MoveSymmetric(b, i);
      FlipFacts(Moved(f, 1, i));
      if ko.Some? {
        KoIsAbsolute(Moved(b, -1, i), ko.value);
        KoIsAbsolute(Moved(f, 1, i), ko.value);
      }
      forall n | Adj(i, n) ensures Safe(b, -1, n) <==> Safe(f, 1, n) { FlipChains(b, n); }
    }
  }
}
