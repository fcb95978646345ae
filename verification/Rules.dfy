/** The rule tests: `makes_safe_go`, `suicide_go`, `flip_board`, `check_ko`, `legal_go`. */
module Rules {
  import opened Grid
  import opened Board
  import opened LibertyCounting
  import opened Moves

  datatype Option<+T> = None | Some(value: T)

  /** What `makes_safe_go` answers for the neighbour `n`, from the counts before the stone is placed. */
  ghost predicate Safe(b: Position, p: int, n: int)
    requires Cell(n)
  {
    if Occupied(b, n) == -p then LibertyCount(b, n) <= 1
    else Occupied(b, n) == 0 || LibertyCount(b, n) > 1
  }

  ghost predicate Suicidal(b: Position, p: int, i: int) {
    forall n :: Adj(i, n) ==> !Safe(b, p, n)
  }

  ghost predicate SafeAt(b: Position, p: int, r: int, c: int) {
    InBoard(r, c) && Safe(b, p, Index(r, c))
  }

  method MakesSafeGo(b: Position, lib: array<nat>, p: int, r: int, c: int) returns (safe: bool)
    requires lib.Length == 361 && (p == 1 || p == -1)
    requires forall i :: 0 <= i < 361 ==> lib[i] == LibertyCount(b, i)
    ensures safe <==> SafeAt(b, p, r, c)
  {
    if r < 0 || r >= 19 || c < 0 || c >= 19 { return false; }
    if Occupied(b, r * 19 + c) == -p {
      if lib[r * 19 + c] > 1 { return false; } else { return true; }
    }
    if Occupied(b, r * 19 + c) == 0 { return true; }
    if lib[r * 19 + c] > 1 { return true; }
    return false;
  }

  method SuicideGo(b: Position, p: int, r: int, c: int) returns (suicide: bool)
    requires InBoard(r, c) && (p == 1 || p == -1)
    ensures suicide <==> Suicidal(b, p, Index(r, c))
  {
    var l := CalculateLiberties(b);
    var safe := false;
    hide SafeAt;
    if !safe { safe := MakesSafeGo(b, l, p, r + 1, c); }
    if !safe { safe := MakesSafeGo(b, l, p, r - 1, c); }
    if !safe { safe := MakesSafeGo(b, l, p, r, c + 1); }
    if !safe { safe := MakesSafeGo(b, l, p, r, c - 1); }
    FourNeighbours(b, p, r, c);
    suicide := !safe;
  }

  lemma {:induction false} FourNeighbours(b: Position, p: int, r: int, c: int)
    requires InBoard(r, c)
    ensures Suicidal(b, p, Index(r, c)) <==>
            && !SafeAt(b, p, r + 1, c) && !SafeAt(b, p, r - 1, c) && !SafeAt(b, p, r, c + 1) && !SafeAt(b, p, r, c - 1)
  {
    var i := Index(r, c);
    hide Safe;
    forall r', c' | Step(r, c, r', c') && SafeAt(b, p, r', c') ensures !Suicidal(b, p, i) {
      StepsAreAdj(r, c, r', c');
    }
    assert Step(r, c, r + 1, c) && Step(r, c, r - 1, c) && Step(r, c, r, c + 1) && Step(r, c, r, c - 1);
    hide Adj, Index;
    forall n | Adj(i, n) && Safe(b, p, n)
      ensures SafeAt(b, p, r + 1, c) || SafeAt(b, p, r - 1, c) || SafeAt(b, p, r, c + 1) || SafeAt(b, p, r, c - 1)
    {
      AdjIsStep(r, c, n);
    }
  }

  /** The board with its first `n` cells seen by the other side. */
  function FlippedUpTo(b: Position, n: nat): Position {
    seq(1083, k requires 0 <= k < 1083 =>
      if k < 361 then (if k < n then b[k + 361] else b[k])
      else if k < 722 then (if k - 361 < n then b[k - 361] else b[k])
      else if k - 722 < n then 1 - b[k] else b[k])
  }

  /** The same position seen by the other side. */
  function Flipped(b: Position): Position { FlippedUpTo(b, 361) }

  method FlipBoard(board: array<Bit>)
    requires board.Length == 1083
    modifies board
    ensures board[..] == Flipped(old(board[..]))
  {
    assert board[..] == FlippedUpTo(board[..], 0);
    for i := 0 to 361
      invariant board[..] == FlippedUpTo(old(board[..]), i)
    {
      ghost var b := board[..];
      FlipOneMore(old(board[..]), i);
      hide FlippedUpTo;
      var swap := board[i];
      board[i] := board[i + 361];
      board[i + 361] := swap;
      board[i + 722] := 1 - board[i + 722];
      assert board[..] == b[i := b[i + 361]][i + 361 := b[i]][i + 722 := 1 - b[i + 722]];
    }
  }

  lemma {:induction false} FlipOneMore(b: Position, i: nat)
    requires i < 361
    ensures var x := FlippedUpTo(b, i);
            FlippedUpTo(b, i + 1) == x[i := x[i + 361]][i + 361 := x[i]][i + 722 := 1 - x[i + 722]]
  {}

  /** Two boards show the same position, each from whichever side its first turn cell says. */
  predicate SameView(x: Position, ko: Position) {
    (if x[722] != ko[722] then Flipped(x) else x) == ko
  }

  predicate KoHit(x: Position, ko: Option<Position>) {
    ko.Some? && SameView(x, ko.value)
  }

  method CheckKo(x: Position, ko: Option<Position>) returns (hit: bool)
    ensures hit <==> KoHit(x, ko)
  {
    if ko.None? { return false; }
    var curr := new Bit[1083](k requires 0 <= k < 1083 => x[k]);
    assert curr[..] == x;
    if curr[722] != ko.value[722] { FlipBoard(curr); }
    return curr[..] == ko.value;
  }

  ghost predicate Legal(b: Position, ko: Option<Position>, p: int, i: int)
    requires Cell(i)
  {
    Occupied(b, i) == 0 && !KoHit(Moved(b, p, i), ko) && !Suicidal(b, p, i)
  }

  method LegalGo(b: Position, ko: Option<Position>, p: int, r: int, c: int) returns (legal: bool)
    requires InBoard(r, c) && (p == 1 || p == -1)
    ensures legal <==> Legal(b, ko, p, Index(r, c))
  {
    if Occupied(b, r * 19 + c) != 0 { return false; }
    var curr := new Bit[1083](k requires 0 <= k < 1083 => b[k]);
    assert curr[..] == b;
    MoveGo(curr, p, r, c);
    var hit := CheckKo(curr[..], ko);
    if hit { return false; }
    var suicide := SuicideGo(b, p, r, c);
    return !suicide;
  }
}
