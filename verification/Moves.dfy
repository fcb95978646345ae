/** `remove_connected` and `move_go`: place a stone and take the captured chains off the board. */
module Moves {
  import opened Grid
  import opened Board
  import opened LibertyCounting

  /** The board with the cells of `s` emptied in both stone planes. */
  function Cleared(b: Position, s: set<int>): (b': Position)
    ensures forall i :: 0 <= i < 361 ==> Occupied(b', i) == if i in s then 0 else Occupied(b, i)
  {
    seq(1083, k requires 0 <= k < 1083 =>
      if (k < 361 && k in s) || (361 <= k < 722 && k - 361 in s) then 0 else b[k])
  }

  function Placed(b: Position, p: int, i: int): Position
    requires Cell(i)
  {
    if p > 0 then b[i := 1] else b[i + 361 := 1]
  }

  /** The stones of colour `p` whose recorded liberty count is one. */
  function InAtari(b: Position, lib: seq<nat>, p: int): set<int>
    requires |lib| == 361
  {
    set i | 0 <= i < 361 && Occupied(b, i) == p && lib[i] == 1
  }

  ghost predicate RemovedExcept(ok: set<int>, gone: set<int>, grey: set<int>) {
    forall j, k :: j in gone && j !in grey && Adj(j, k) && k in ok ==> k in gone
  }

  /** From `gone` to `gone'` removed cells: only more, all in the region of the start, which is gone too. */
  ghost predicate RemoveEffect(ok: set<int>, r: int, c: int, gone: set<int>, gone': set<int>) {
    gone <= gone' <= gone + RegionAt(ok, r, c) && CoveredAt(ok, r, c, gone')
  }

  /** `b0` is the board before any removal and `gone` what has been removed from it so far. */
  method RemoveConnected(b: array<Bit>, lib: array<nat>, p: int, r: int, c: int,
                         ghost b0: Position, ghost gone: set<int>, ghost grey: set<int>)
    returns (ghost gone': set<int>)
    requires b.Length == 1083 && lib.Length == 361 && p != 0
    requires b[..] == Cleared(b0, gone)
    requires gone <= InAtari(b0, lib[..], p)
    requires RemovedExcept(InAtari(b0, lib[..], p), gone, grey)
    modifies b
    ensures b[..] == Cleared(b0, gone')
    ensures RemoveEffect(InAtari(b0, lib[..], p), r, c, gone, gone') && gone' <= InAtari(b0, lib[..], p)
    ensures RemovedExcept(InAtari(b0, lib[..], p), gone', grey)
    decreases InAtari(b0, lib[..], p) - gone
  {
    gone' := gone;
    ghost var ok := InAtari(b0, lib[..], p);
    GuardMeaning(b0, lib[..], p, r, c, gone);
    hide Cleared, InAtari, RemovedExcept, RegionAt, CoveredAt, RemoveEffect;
    if r < 0 || r >= 19 || c < 0 || c >= 19 { return; }
    if Occupied(b[..], r * 19 + c) != p { return; }
    if lib[r * 19 + c] != 1 { return; }
    ghost var i := Index(r, c);
    hide Occupied;
    b[r * 19 + c] := 0;
    b[361 + r * 19 + c] := 0;
    gone' := gone + {i};
    ClearedOneMore(b0, gone, i);
    GreyStart(ok, gone, i, grey);
    RegionSteps(ok, r, c);
    ghost var g1 := gone';
    gone' := RemoveConnected(b, lib, p, r + 1, c, b0, gone', grey + {i});
    StepRemoves(ok, r, c, r + 1, c, g1, g1, gone');
    ghost var g2 := gone';
    gone' := RemoveConnected(b, lib, p, r - 1, c, b0, gone', grey + {i});
    StepRemoves(ok, r, c, r - 1, c, g1, g2, gone');
    ghost var g3 := gone';
    gone' := RemoveConnected(b, lib, p, r, c + 1, b0, gone', grey + {i});
    StepRemoves(ok, r, c, r, c + 1, g1, g3, gone');
    ghost var g4 := gone';
    gone' := RemoveConnected(b, lib, p, r, c - 1, b0, gone', grey + {i});
    StepRemoves(ok, r, c, r, c - 1, g1, g4, gone');
    GreyDone(ok, r, c, gone', grey);
    RemoveIntro(ok, r, c, gone, gone');
  }

  /** The three tests of `remove_connected` pick out exactly the cells still to be removed. */
  lemma {:induction false} GuardMeaning(b0: Position, lib: seq<nat>, p: int, r: int, c: int, gone: set<int>)
    requires |lib| == 361 && p != 0 && gone <= InAtari(b0, lib, p)
    ensures InBoard(r, c) && Occupied(Cleared(b0, gone), r * 19 + c) == p && lib[r * 19 + c] == 1
            ==> Index(r, c) in InAtari(b0, lib, p) - gone
    ensures !(InBoard(r, c) && Occupied(Cleared(b0, gone), r * 19 + c) == p && lib[r * 19 + c] == 1)
            ==> RemoveEffect(InAtari(b0, lib, p), r, c, gone, gone)
  {}

  lemma {:induction false} ClearedOneMore(b: Position, gone: set<int>, i: int)
    requires Cell(i)
    ensures Cleared(b, gone)[i := 0][361 + i := 0] == Cleared(b, gone + {i})
  {}

  lemma {:induction false} GreyStart(ok: set<int>, gone: set<int>, i: int, grey: set<int>)
    requires RemovedExcept(ok, gone, grey)
    ensures RemovedExcept(ok, gone + {i}, grey + {i})
  {}

  lemma {:induction false} StepRemoves(ok: set<int>, r: int, c: int, r': int, c': int, g0: set<int>, g: set<int>,
                                       g': set<int>)
    requires InBoard(r, c) && Index(r, c) in ok && Step(r, c, r', c')
    requires g0 <= g <= g0 + RegionAt(ok, r, c) && RemoveEffect(ok, r', c', g, g')
    ensures g <= g' && g0 <= g' <= g0 + RegionAt(ok, r, c) && CoveredAt(ok, r', c', g')
  {
    RegionSteps(ok, r, c);
  }

  lemma {:induction false} RemoveIntro(ok: set<int>, r: int, c: int, gone: set<int>, gone': set<int>)
    requires InBoard(r, c) && Index(r, c) in ok
    requires gone + {Index(r, c)} <= gone' <= gone + {Index(r, c)} + RegionAt(ok, r, c)
    ensures RemoveEffect(ok, r, c, gone, gone')
  {
    RegionSteps(ok, r, c);
  }

  lemma {:induction false} GreyDone(ok: set<int>, r: int, c: int, gone: set<int>, grey: set<int>)
    requires InBoard(r, c) && RemovedExcept(ok, gone, grey + {Index(r, c)})
    requires CoveredAt(ok, r + 1, c, gone) && CoveredAt(ok, r - 1, c, gone)
    requires CoveredAt(ok, r, c + 1, gone) && CoveredAt(ok, r, c - 1, gone)
    ensures RemovedExcept(ok, gone, grey)
  {
    forall j, k | j in gone && j !in grey && Adj(j, k) && k in ok ensures k in gone {
      if j == Index(r, c) { AdjIsStep(r, c, k); }
    }
  }

  /** The opponent stones that `move_go` considers in atari: counts from before the stone, colours from after. */
  ghost function Atari(b: Position, p: int, i: int): set<int>
    requires Cell(i)
  {
    set j | 0 <= j < 361 && Occupied(Placed(b, p, i), j) == -p && LibertyCount(b, j) == 1
  }

  /** Cell `j` lies in a region of `ok` that has a cell next to `i`. */
  ghost predicate EnteredFrom(ok: set<int>, i: int, j: int) {
    exists n :: Adj(i, n) && n in ok && j in Reach(ok, n)
  }

  /** What is removed when colour `p` plays at `i`: the regions in atari next to `i`. */
  ghost function Captured(b: Position, p: int, i: int): set<int>
    requires Cell(i)
  {
    set j | 0 <= j < 361 && EnteredFrom(Atari(b, p, i), i, j)
  }

  ghost function Moved(b: Position, p: int, i: int): Position
    requires Cell(i)
  {
    Cleared(Placed(b, p, i), Captured(b, p, i))
  }

  method MoveGo(b: array<Bit>, p: int, r: int, c: int)
    requires b.Length == 1083 && InBoard(r, c) && (p == 1 || p == -1)
    modifies b
    ensures b[..] == Moved(old(b[..]), p, Index(r, c))
  {
    hide LibertyCount, Cleared, InAtari, RemovedExcept, RemoveEffect, Atari, Captured;
    ghost var start, i := b[..], Index(r, c);
    var l := CalculateLiberties(b[..]);
    if p > 0 { b[r * 19 + c] := 1; } else { b[361 + r * 19 + c] := 1; }
    ghost var b0 := Placed(start, p, i);
    assert b[..] == b0;
    NothingRemovedYet(start, p, i, l[..]);
    hide Placed;
    ghost var g1 := RemoveConnected(b, l, -p, r + 1, c, b0, {}, {});
    ghost var g2 := RemoveConnected(b, l, -p, r - 1, c, b0, g1, {});
    ghost var g3 := RemoveConnected(b, l, -p, r, c + 1, b0, g2, {});
    ghost var g4 := RemoveConnected(b, l, -p, r, c - 1, b0, g3, {});
    RemovedIsCaptured(start, p, r, c, g1, g2, g3, g4);
  }

  lemma {:induction false} NothingRemovedYet(b: Position, p: int, i: int, lib: seq<nat>)
    requires Cell(i) && |lib| == 361 && forall j :: 0 <= j < 361 ==> lib[j] == LibertyCount(b, j)
    ensures Cleared(Placed(b, p, i), {}) == Placed(b, p, i)
    ensures InAtari(Placed(b, p, i), lib, -p) == Atari(b, p, i)
    ensures RemovedExcept(Atari(b, p, i), {}, {})
  {}

  lemma {:induction false} RemovedIsCaptured(b: Position, p: int, r: int, c: int, g1: set<int>, g2: set<int>,
                                             g3: set<int>, g4: set<int>)
    requires InBoard(r, c)
    requires RemoveEffect(Atari(b, p, Index(r, c)), r + 1, c, {}, g1) &&
             RemoveEffect(Atari(b, p, Index(r, c)), r - 1, c, g1, g2)
    requires RemoveEffect(Atari(b, p, Index(r, c)), r, c + 1, g2, g3) &&
             RemoveEffect(Atari(b, p, Index(r, c)), r, c - 1, g3, g4)
    requires RemovedExcept(Atari(b, p, Index(r, c)), g4, {})
    ensures g4 == Captured(b, p, Index(r, c))
  {
    var i, ok := Index(r, c), Atari(b, p, Index(r, c));
    assert ok <= AllCells();
    hide Atari, EnteredFrom, RemovedExcept, RegionAt;
    OnlyEntered(ok, r, c, r + 1, c, {}, g1);
    OnlyEntered(ok, r, c, r - 1, c, g1, g2);
    OnlyEntered(ok, r, c, r, c + 1, g2, g3);
    OnlyEntered(ok, r, c, r, c - 1, g3, g4);
    AllEntered(ok, r, c, g4);
    forall j | j in g4 ensures Cell(j) { EnteredCell(ok, i, j); }
  }

  lemma {:induction false} EnteredCell(ok: set<int>, i: int, j: int)
    requires EnteredFrom(ok, i, j)
    ensures j in ok
  {}

  lemma {:induction false} AllEntered(ok: set<int>, r: int, c: int, gone: set<int>)
    requires InBoard(r, c) && RemovedExcept(ok, gone, {})
    requires CoveredAt(ok, r + 1, c, gone) && CoveredAt(ok, r - 1, c, gone)
    requires CoveredAt(ok, r, c + 1, gone) && CoveredAt(ok, r, c - 1, gone)
    ensures forall j :: EnteredFrom(ok, Index(r, c), j) ==> j in gone
  {
    forall j | EnteredFrom(ok, Index(r, c), j) ensures j in gone {
      var n :| Adj(Index(r, c), n) && n in ok && j in Reach(ok, n);
      AdjIsStep(r, c, n);
      hide Index, Adj, Reach;
      assert n in gone;
      ReachLeast(ok, n, gone);
    }
  }

  lemma {:induction false} OnlyEntered(ok: set<int>, r: int, c: int, r': int, c': int, g: set<int>, g': set<int>)
    requires InBoard(r, c) && Step(r, c, r', c') && RemoveEffect(ok, r', c', g, g')
    requires forall j :: j in g ==> EnteredFrom(ok, Index(r, c), j)
    ensures g <= g' && forall j :: j in g' ==> EnteredFrom(ok, Index(r, c), j)
  {
    forall j | j in g' && j !in g ensures EnteredFrom(ok, Index(r, c), j) {
      StepsAreAdj(r, c, r', c');
    }
  }
}
