/** What simulations do to the record of the node they start at: one, and a whole search. */
module Simulations {
  import opened Grid
  import opened Board
  import opened Moves
  import opened Rules
  import opened SearchStats
  import opened Retries

  /** One simulation, choice by choice: `n` refused choices are ruled out, and then edge `i`, the next choice, is gone
      through and backed up. The parent is told `r`. */
  ghost predicate Simulated(s: Stats, t: Stats, ko: Option<Position>, cpuct: real, explore: real, n: nat, i: nat,
                            r: real)
    requires Sized(s)
  {
    var u := Tried(s, ko, cpuct, explore, n);
    i == Best(u, cpuct, explore) && GoesOn(u, ko, i) && t == BackedUp(u, i, -r)
  }

  lemma {:induction false} BestIsChoice(s: Stats, cpuct: real, explore: real, i: nat)
    requires Sized(s) && IsChoice(s, cpuct, explore, i)
    ensures i == Best(s, cpuct, explore)
  {
    var j := Best(s, cpuct, explore);
    hide ScoreOf;
  }

  /** A refused choice is one more retry. */
  lemma {:induction false} OneMoreRetry(s: Stats, t: Stats, ko: Option<Position>, cpuct: real, explore: real, n: nat,
                                        maxI: nat, i: nat, r: real)
    requires Sized(s) && IsChoice(s, cpuct, explore, maxI) && !GoesOn(s, ko, maxI)
    ensures Simulated(RuledOut(s, maxI), t, ko, cpuct, explore, n, i, r) ==>
            Simulated(s, t, ko, cpuct, explore, n + 1, i, r)
  {
    BestIsChoice(s, cpuct, explore, maxI);
    TriedShift(s, ko, cpuct, explore, n);
    hide GoesOn, RuledOut, BackedUp;
  }

  /** Edge `j` comes before edge `i` in the choice: it scores higher, or the same with a smaller number. */
  predicate Beats(s: Stats, cpuct: real, explore: real, j: int, i: int)
    requires Sized(s) && 0 <= i < 362 && 0 <= j < 362
  {
    ScoreOf(s, cpuct, explore, j) > ScoreOf(s, cpuct, explore, i) ||
    (ScoreOf(s, cpuct, explore, j) == ScoreOf(s, cpuct, explore, i) && j < i)
  }

  predicate SameEdge(s: Stats, t: Stats, j: int)
    requires Sized(s) && Sized(t) && 0 <= j < 362
  {
    s.has[j] == t.has[j] && s.prior[j] == t.prior[j] && s.visits[j] == t.visits[j] && s.value[j] == t.value[j] &&
    s.mean[j] == t.mean[j]
  }

  /** Edge `j` was refused once more. */
  predicate Struck(s: Stats, t: Stats, j: int)
    requires Sized(s) && Sized(t) && 0 <= j < 362
  {
    s.has[j] == t.has[j] && t.visits[j] == s.visits[j] + 1 && t.value[j] == -1.0 && t.mean[j] == -1.0 &&
    t.prior[j] == 0.0
  }

  predicate SameNode(s: Stats, t: Stats) {
    s.board == t.board && s.kos == t.kos && s.result == t.result && s.done == t.done && s.pass == t.pass
  }

  /** Edge `i` is the first of highest score among those that the selection can go on through. */
  ghost predicate FirstWay(s: Stats, ko: Option<Position>, cpuct: real, explore: real, i: int)
    requires Sized(s)
  {
    0 <= i < 362 && GoesOn(s, ko, i) &&
    forall j :: 0 <= j < 362 && j != i && GoesOn(s, ko, j) ==> Beats(s, cpuct, explore, i, j)
  }

  /** The edge was gone through: its visit counts, the result is taken from its value, the mean is their quotient. */
  predicate Through(s: Stats, t: Stats, i: int, r: real)
    requires Sized(s) && Sized(t) && 0 <= i < 362
  {
    t.has[i] && t.visits[i] == s.visits[i] + 1 && t.value[i] == s.value[i] - r &&
    t.mean[i] == t.value[i] / t.visits[i] as real && t.prior[i] == s.prior[i]
  }

  /** One simulation at a stroke. It goes through the first edge of highest score among those with a child, the pass
      and the legal moves; the illegal ones that come before it are struck out; no other edge changes. */
  ghost predicate AtAStroke(s: Stats, t: Stats, ko: Option<Position>, cpuct: real, explore: real, i: int, r: real)
    requires Sized(s)
  {
    && Sized(t) && SameNode(s, t) && t.total == s.total + 1
    && FirstWay(s, ko, cpuct, explore, i)
    && Through(s, t, i, r)
    && forall j :: 0 <= j < 362 && j != i ==>
         if !GoesOn(s, ko, j) && Beats(s, cpuct, explore, j, i) then Struck(s, t, j) else SameEdge(s, t, j)
  }

  /** Edge `j` is as it was, or it was struck out because it comes before all that the selection can go on through. */
  ghost predicate Passed(s: Stats, t: Stats, ko: Option<Position>, cpuct: real, explore: real, j: int)
    requires Sized(s) && Sized(t) && 0 <= j < 362
  {
    SameEdge(s, t, j) ||
    (!GoesOn(s, ko, j) && Struck(s, t, j) &&
     forall k :: 0 <= k < 362 && GoesOn(s, ko, k) ==> Beats(s, cpuct, explore, j, k))
  }

  ghost predicate RetriesSoFar(s: Stats, t: Stats, ko: Option<Position>, cpuct: real, explore: real)
    requires Sized(s)
  {
    Sized(t) && SameNode(s, t) && t.total == s.total && forall j :: 0 <= j < 362 ==> Passed(s, t, ko, cpuct, explore, j)
  }

  lemma {:induction false} PassScores(s: Stats, cpuct: real, explore: real)
    requires NodeOk(s) && cpuct > 0.0 && explore > 0.0
    ensures ScoreOf(s, cpuct, explore, 361) > -1.0
  {
    ScoreBound(s.mean[361], s.prior[361], cpuct, explore, s.visits[361]);
  }

  lemma {:induction false} SameEdgeSame(s: Stats, t: Stats, ko: Option<Position>, cpuct: real, explore: real, j: int)
    requires Sized(s) && Sized(t) && SameNode(s, t) && 0 <= j < 362
    ensures SameEdge(s, t, j) ==> ScoreOf(t, cpuct, explore, j) == ScoreOf(s, cpuct, explore, j)
    ensures SameEdge(s, t, j) || Struck(s, t, j) ==> (GoesOn(t, ko, j) <==> GoesOn(s, ko, j))
  {
    hide Legal;
  }

  lemma {:induction false} StruckScore(s: Stats, t: Stats, cpuct: real, explore: real, j: int)
    requires Sized(s) && Sized(t) && 0 <= j < 362 && Struck(s, t, j) && cpuct > 0.0 && explore > 0.0
    ensures ScoreOf(t, cpuct, explore, j) == -1.0
  {
    ScoreBound(t.mean[j], t.prior[j], cpuct, explore, t.visits[j]);
  }

  /** A choice is never an edge that was struck out before, and it comes before every edge one can go on through. */
  lemma {:induction false} ChoiceFresh(s: Stats, t: Stats, ko: Option<Position>, cpuct: real, explore: real, i: int)
    requires NodeOk(s) && cpuct > 0.0 && explore > 0.0 && RetriesSoFar(s, t, ko, cpuct, explore)
    requires IsChoice(t, cpuct, explore, i)
    ensures SameEdge(s, t, i) && (GoesOn(t, ko, i) <==> GoesOn(s, ko, i))
    ensures forall k :: 0 <= k < 362 && k != i && GoesOn(s, ko, k) ==> Beats(s, cpuct, explore, i, k)
  {
    PassScores(s, cpuct, explore);
    assert Passed(s, t, ko, cpuct, explore, 361) && Passed(s, t, ko, cpuct, explore, i);
    SameEdgeSame(s, t, ko, cpuct, explore, 361);
    SameEdgeSame(s, t, ko, cpuct, explore, i);
    if Struck(s, t, i) { StruckScore(s, t, cpuct, explore, i); }
    forall k | 0 <= k < 362 && k != i && GoesOn(s, ko, k) ensures Beats(s, cpuct, explore, i, k) {
      assert Passed(s, t, ko, cpuct, explore, k);
      SameEdgeSame(s, t, ko, cpuct, explore, k);
    }
  }

  lemma {:induction false} OneRetry(s: Stats, t: Stats, ko: Option<Position>, cpuct: real, explore: real, i: int)
    requires NodeOk(s) && cpuct > 0.0 && explore > 0.0 && RetriesSoFar(s, t, ko, cpuct, explore)
    requires IsChoice(t, cpuct, explore, i) && !GoesOn(t, ko, i)
    ensures RetriesSoFar(s, RuledOut(t, i), ko, cpuct, explore)
  {
    ChoiceFresh(s, t, ko, cpuct, explore, i);
    var u := RuledOut(t, i);
    hide ScoreOf, Legal, GoesOn, NodeOk;
    assert Struck(s, u, i);
    forall j | 0 <= j < 362 ensures Passed(s, u, ko, cpuct, explore, j) {
      assert Passed(s, t, ko, cpuct, explore, j);
      assert j != i ==> SameEdge(t, u, j);
    }
  }

  lemma {:induction false} TriedSoFar(s: Stats, ko: Option<Position>, cpuct: real, explore: real, n: nat)
    requires NodeOk(s) && cpuct > 0.0 && explore > 0.0
    ensures RetriesSoFar(s, Tried(s, ko, cpuct, explore, n), ko, cpuct, explore)
  {
    if n == 0 {
      assert forall j :: 0 <= j < 362 ==> SameEdge(s, s, j);
    } else {
      TriedSoFar(s, ko, cpuct, explore, n - 1);
      var t := Tried(s, ko, cpuct, explore, n - 1);
      var i := Best(t, cpuct, explore);
      hide RetriesSoFar, NodeOk, RuledOut, Best;
      if !GoesOn(t, ko, i) { OneRetry(s, t, ko, cpuct, explore, i); }
    }
  }

  lemma {:induction false} StruckExactly(s: Stats, t: Stats, ko: Option<Position>, cpuct: real, explore: real, i: int,
                                         j: int)
    requires NodeOk(s) && cpuct > 0.0 && explore > 0.0 && RetriesSoFar(s, t, ko, cpuct, explore)
    requires IsChoice(t, cpuct, explore, i) && GoesOn(t, ko, i) && 0 <= j < 362 && j != i
    ensures if !GoesOn(s, ko, j) && Beats(s, cpuct, explore, j, i) then Struck(s, t, j) else SameEdge(s, t, j)
  {
    ChoiceFresh(s, t, ko, cpuct, explore, i);
    SameEdgeSame(s, t, ko, cpuct, explore, i);
    SameEdgeSame(s, t, ko, cpuct, explore, j);
    hide GoesOn, NodeOk, ScoreOf;
    assert Passed(s, t, ko, cpuct, explore, j);
  }

  lemma {:induction false} SizedNode(s: Stats)
    requires NodeOk(s)
    ensures Sized(s)
  {}

  lemma {:induction false} GoneThrough(s: Stats, u: Stats, ko: Option<Position>, cpuct: real, explore: real, i: nat,
                                       r: real)
    requires NodeOk(s) && cpuct > 0.0 && explore > 0.0 && RetriesSoFar(s, u, ko, cpuct, explore)
    requires IsChoice(u, cpuct, explore, i) && GoesOn(u, ko, i)
    ensures AtAStroke(s, BackedUp(u, i, -r), ko, cpuct, explore, i, r)
  {
    hide GoesOn, NodeOk, ScoreOf, Beats, Passed;
    SizedNode(s);
    var t := BackedUp(u, i, -r);
    ChoiceFresh(s, u, ko, cpuct, explore, i);
    forall j | 0 <= j < 362 && j != i
      ensures if !GoesOn(s, ko, j) && Beats(s, cpuct, explore, j, i) then Struck(s, t, j) else SameEdge(s, t, j)
    {
      StruckExactly(s, u, ko, cpuct, explore, i, j);
      assert SameEdge(u, t, j);
    }
  }

  lemma {:induction false} SimulatedAtAStroke(s: Stats, t: Stats, ko: Option<Position>, cpuct: real, explore: real,
                                              n: nat, i: nat, r: real)
    requires NodeOk(s) && cpuct > 0.0 && explore > 0.0 && Simulated(s, t, ko, cpuct, explore, n, i, r)
    ensures AtAStroke(s, t, ko, cpuct, explore, i, r)
  {
    assert 0 <= i < 362;
    hide GoesOn, NodeOk, ScoreOf, Best, Tried, AtAStroke, RetriesSoFar, IsChoice, BackedUp;
    TriedSoFar(s, ko, cpuct, explore, n);
    GoneThrough(s, Tried(s, ko, cpuct, explore, n), ko, cpuct, explore, i, r);
  }

  lemma {:induction false} OneWay(s: Stats, ko: Option<Position>, cpuct: real, explore: real, i: int, j: int)
    requires Sized(s) && FirstWay(s, ko, cpuct, explore, i) && FirstWay(s, ko, cpuct, explore, j)
    ensures i == j
  {
    hide GoesOn, ScoreOf;
    var first, second := Beats(s, cpuct, explore, i, j), Beats(s, cpuct, explore, j, i);
    assert i != j ==> first && second;
  }

  lemma {:induction false} StrokeEdge(s: Stats, t: Stats, u: Stats, ko: Option<Position>, cpuct: real, explore: real,
                                      i: int, k: int, r: real)
    requires Sized(s) && AtAStroke(s, t, ko, cpuct, explore, i, r) && AtAStroke(s, u, ko, cpuct, explore, i, r)
    requires 0 <= k < 362
    ensures SameEdge(t, u, k)
  {
    if k != i {
      var struck := !GoesOn(s, ko, k) && Beats(s, cpuct, explore, k, i);
      hide GoesOn, ScoreOf, FirstWay, Beats;
      assert if struck then Struck(s, t, k) else SameEdge(s, t, k);
    }
  }

  /** There is only one way to make a selection at a stroke. */
  lemma {:induction false} OneStroke(s: Stats, t: Stats, u: Stats, ko: Option<Position>, cpuct: real, explore: real,
                                     i: int, j: int, r: real)
    requires Sized(s) && AtAStroke(s, t, ko, cpuct, explore, i, r) && AtAStroke(s, u, ko, cpuct, explore, j, r)
    ensures i == j && t == u
  {
    OneWay(s, ko, cpuct, explore, i, j);
    hide GoesOn, ScoreOf, FirstWay;
    forall k | 0 <= k < 362 ensures SameEdge(t, u, k) {
      StrokeEdge(s, t, u, ko, cpuct, explore, i, k, r);
    }
    EdgesSame(t, u);
  }

  lemma {:induction false} EdgesSame(t: Stats, u: Stats)
    requires Sized(t) && Sized(u) && SameNode(t, u) && t.total == u.total
    requires forall k :: 0 <= k < 362 ==> SameEdge(t, u, k)
    ensures t == u
  {
    assert forall k :: 0 <= k < 362 ==> SameEdge(t, u, k) ==> t.has[k] == u.has[k] && t.prior[k] == u.prior[k];
    assert forall k :: 0 <= k < 362 ==> SameEdge(t, u, k) ==>
           t.visits[k] == u.visits[k] && t.value[k] == u.value[k] && t.mean[k] == u.mean[k];
    assert t.has == u.has && t.prior == u.prior && t.visits == u.visits && t.value == u.value && t.mean == u.mean;
  }

  /** The selection with its retries is the one at a stroke, and every one at a stroke comes about. */
  lemma {:induction false} SelectionExact(s: Stats, t: Stats, ko: Option<Position>, cpuct: real, explore: real, i: nat,
                                          r: real)
    requires NodeOk(s) && cpuct > 0.0 && explore > 0.0
    ensures (exists n: nat :: Simulated(s, t, ko, cpuct, explore, n, i, r))
            <==> AtAStroke(s, t, ko, cpuct, explore, i, r)
  {
    NodeHasWay(s, ko, cpuct, explore);
    RetryEnds(s, ko, cpuct, explore);
    hide NodeOk, HasWay, GoesOn, AtAStroke;
    if AtAStroke(s, t, ko, cpuct, explore, i, r) {
      var n: nat :| EndsAt(s, ko, cpuct, explore, n);
      var v := Tried(s, ko, cpuct, explore, n);
      var j := Best(v, cpuct, explore);
      assert Simulated(s, BackedUp(v, j, -r), ko, cpuct, explore, n, j, r);
      SimulatedAtAStroke(s, BackedUp(v, j, -r), ko, cpuct, explore, n, j, r);
      OneStroke(s, t, BackedUp(v, j, -r), ko, cpuct, explore, i, j, r);
    } else {
      forall n: nat ensures !Simulated(s, t, ko, cpuct, explore, n, i, r) {
        if Simulated(s, t, ko, cpuct, explore, n, i, r) { SimulatedAtAStroke(s, t, ko, cpuct, explore, n, i, r); }
      }
    }
  }

  /** One call of `select_mcts` on a node. A finished line reports its result and changes nothing. */
  ghost predicate OneSimulation(s: Stats, t: Stats, ko: Option<Position>, cpuct: real, root: nat -> real, r: real) {
    Sized(s) &&
    if s.done then t == s && r == -s.result
    else exists n: nat, i: nat :: Simulated(s, t, ko, cpuct, root(s.total), n, i, r)
  }

  ghost predicate Simulates(s: Stats, t: Stats, ko: Option<Position>, cpuct: real, root: nat -> real) {
    exists r :: OneSimulation(s, t, ko, cpuct, root, r)
  }

  lemma {:induction false} SimulatedIsOne(s: Stats, t: Stats, ko: Option<Position>, cpuct: real, root: nat -> real,
                                          n: nat, i: nat, r: real)
    requires Sized(s) && !s.done && Simulated(s, t, ko, cpuct, root(s.total), n, i, r)
    ensures OneSimulation(s, t, ko, cpuct, root, r)
  {}

  /** The selection that goes on at its first choice. */
  lemma {:induction false} WentOn(s: Stats, t: Stats, ko: Option<Position>, cpuct: real, root: nat -> real, i: nat,
                                  val: real)
    requires Sized(s) && !s.done && IsChoice(s, cpuct, root(s.total), i) && GoesOn(s, ko, i) && t == BackedUp(s, i, val)
    ensures Simulated(s, t, ko, cpuct, root(s.total), 0, i, -val) && OneSimulation(s, t, ko, cpuct, root, -val)
  {
    BestIsChoice(s, cpuct, root(s.total), i);
    hide GoesOn, IsChoice, BackedUp;
    assert Simulated(s, t, ko, cpuct, root(s.total), 0, i, -val);
  }

  /** Some edge has `n` visits. */
  predicate Reached(s: Stats, n: nat) {
    exists i :: 0 <= i < |s.visits| && s.visits[i] >= n
  }

  ghost predicate StepAt(trace: seq<Stats>, k: nat, ko: Option<Position>, n: nat, cpuct: real, root: nat -> real)
    requires k + 1 < |trace|
  {
    !Reached(trace[k], n) && Simulates(trace[k], trace[k + 1], ko, cpuct, root)
  }

  /** The records of a node during a search, which stops when an edge has `n` visits. */
  ghost predicate IsRun(trace: seq<Stats>, ko: Option<Position>, n: nat, cpuct: real, root: nat -> real) {
    0 < |trace| <= n + 1 && forall k: nat :: k + 1 < |trace| ==> StepAt(trace, k, ko, n, cpuct, root)
  }

  lemma {:induction false} StartsRun(s: Stats, ko: Option<Position>, n: nat, cpuct: real, root: nat -> real)
    ensures IsRun([s], ko, n, cpuct, root)
  {}

  lemma {:induction false} SimulatesBy(s: Stats, t: Stats, ko: Option<Position>, cpuct: real, root: nat -> real,
                                       r: real)
    requires OneSimulation(s, t, ko, cpuct, root, r)
    ensures Simulates(s, t, ko, cpuct, root)
  {}

  lemma {:induction false} RunGoesOn(trace: seq<Stats>, t: Stats, ko: Option<Position>, n: nat, cpuct: real,
                                     root: nat -> real)
    requires IsRun(trace, ko, n, cpuct, root) && |trace| <= n && !Reached(trace[|trace| - 1], n)
    requires Simulates(trace[|trace| - 1], t, ko, cpuct, root)
    ensures IsRun(trace + [t], ko, n, cpuct, root)
  {
    var trace' := trace + [t];
    hide Simulates, Reached;
    forall k: nat | k + 1 < |trace'| ensures StepAt(trace', k, ko, n, cpuct, root) {
      if k + 1 < |trace| { assert StepAt(trace, k, ko, n, cpuct, root); }
    }
  }

  /** A search of `n` simulations, or as many as it takes for an edge to have `n` visits, turns `start` into `node`. */
  ghost predicate SearchLeads(start: Stats, node: Stats, ko: Option<Position>, n: nat, cpuct: real, root: nat -> real) {
    exists trace: seq<Stats> ::
      IsRun(trace, ko, n, cpuct, root) && trace[0] == start && trace[|trace| - 1] == node &&
      (|trace| == n + 1 || Reached(node, n))
  }

  lemma {:induction false} LedBy(start: Stats, node: Stats, ko: Option<Position>, n: nat, cpuct: real,
                                 root: nat -> real) returns (trace: seq<Stats>)
    requires SearchLeads(start, node, ko, n, cpuct, root)
    ensures IsRun(trace, ko, n, cpuct, root) && trace[0] == start && trace[|trace| - 1] == node
    ensures |trace| == n + 1 || Reached(node, n)
  {
    trace :| IsRun(trace, ko, n, cpuct, root) && trace[0] == start && trace[|trace| - 1] == node &&
             (|trace| == n + 1 || Reached(node, n));
  }
}
