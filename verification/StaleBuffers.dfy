/** The buffers that `self_go` does not clear between games: an input for which they matter. */
module StaleBuffers {
  import opened Grid
  import opened Board
  import opened Moves
  import opened Rules
  import opened Capture
  import opened Symmetry
  import opened SearchStats
  import opened Retries
  import opened Simulations
  import opened GameRecord
  import opened SelfPlay

  /** A network that likes edge `i` best, the pass a little and no other, and sees even chances. */
  function Hint(i: int): Prediction
    requires 0 <= i < 362
  {
    Prediction(seq(362, j => if j == i then 2.0 else if j == 361 then 1.0 else 0.0), 0.5)
  }

  /** A search that the network gives such a hint begins with that edge. */
  lemma {:induction false} FirstChoice(view: Position, ko: Option<Position>, i: int, cpuct: real, explore: real)
    requires 0 <= i < 362 && (i < 361 ==> Occupied(view, i) == 0) && cpuct > 0.0 && explore > 0.0
    ensures var s := StatsOf(view, ko, Hint(i));
            forall j :: 0 <= j < 362 && j != i ==> Beats(s, cpuct, explore, i, j)
  {
    var s := StatsOf(view, ko, Hint(i));
    assert cpuct * explore > 0.0;
    forall j | 0 <= j < 362 && j != i ensures Beats(s, cpuct, explore, i, j) {
      assert ScoreOf(s, cpuct, explore, i) == cpuct * 2.0 * explore;
      assert s.prior[j] == 0.0 || (j == 361 && s.prior[j] == 1.0);
      assert cpuct * s.prior[j] * explore == s.prior[j] * (cpuct * explore);
      assert ScoreOf(s, cpuct, explore, j) <= cpuct * explore;
    }
  }

  /** Values are within visits on every edge with a child. */
  predicate Bounded(s: Stats) {
    Sized(s) && forall j :: 0 <= j < 362 && s.has[j] ==> -(s.visits[j] as real) <= s.value[j] <= s.visits[j] as real
  }

  lemma {:induction false} ChoiceInPlay(s: Stats, ko: Option<Position>, cpuct: real, explore: real, i: int)
    requires NodeOk(s) && cpuct > 0.0 && explore > 0.0 && ko in s.kos && IsChoice(s, cpuct, explore, i)
    ensures i in Live(s) && (s.has[i] || Untried(s, i))
    ensures !GoesOn(s, ko, i) ==> i < 361 && !s.has[i] && Refused(s, i)
  {
    PassScores(s, cpuct, explore);
    ChoiceLive(s, cpuct, explore, i);
    assert 361 in Live(s);
  }

  lemma {:induction false} TriedOk(s: Stats, ko: Option<Position>, cpuct: real, explore: real, n: nat)
    requires NodeOk(s) && cpuct > 0.0 && explore > 0.0 && ko in s.kos
    ensures NodeOk(Tried(s, ko, cpuct, explore, n)) && Tried(s, ko, cpuct, explore, n).kos == s.kos
  {
    hide NodeOk, GoesOn, Live, Refused, Untried, Best, Dead, SameBut;
    SizedNode(s);
    if n > 0 {
      TriedOk(s, ko, cpuct, explore, n - 1);
      var t := Tried(s, ko, cpuct, explore, n - 1);
      var i := Best(t, cpuct, explore);
      ChoiceInPlay(t, ko, cpuct, explore, i);
      if !GoesOn(t, ko, i) { RuleOutStep(t, i); }
    }
  }

  /** A search can always go on, with an even result. */
  lemma {:induction false} GoOn(s: Stats, ko: Option<Position>, cpuct: real, explore: real) returns (t: Stats, i: nat)
    requires NodeOk(s) && Bounded(s) && !s.done && cpuct > 0.0 && explore > 0.0 && ko in s.kos
    ensures NodeOk(t) && AtAStroke(s, t, ko, cpuct, explore, i, 0.0)
    ensures exists n: nat :: Simulated(s, t, ko, cpuct, explore, n, i, 0.0)
  {
    NodeHasWay(s, ko, cpuct, explore);
    RetryEnds(s, ko, cpuct, explore);
    hide NodeOk, HasWay, AtAStroke, Live, Refused, IsChoice;
    var n: nat :| EndsAt(s, ko, cpuct, explore, n);
    var u := Tried(s, ko, cpuct, explore, n);
    i := Best(u, cpuct, explore);
    t := BackedUp(u, i, 0.0);
    assert Simulated(s, t, ko, cpuct, explore, n, i, 0.0);
    SimulatedAtAStroke(s, t, ko, cpuct, explore, n, i, 0.0);
    TriedOk(s, ko, cpuct, explore, n);
    TriedSoFar(s, ko, cpuct, explore, n);
    ChoiceInPlay(u, ko, cpuct, explore, i);
    StillBounded(s, u, ko, cpuct, explore);
    BackUpNode(u, i, 0.0);
  }

  lemma {:induction false} StillBounded(s: Stats, u: Stats, ko: Option<Position>, cpuct: real, explore: real)
    requires Bounded(s) && RetriesSoFar(s, u, ko, cpuct, explore)
    ensures Bounded(u) && u.done == s.done
  {
    forall j | 0 <= j < 362 && u.has[j] ensures SameEdge(s, u, j) { assert Passed(s, u, ko, cpuct, explore, j); }
  }

  /** The state of a search in which edge `i` was chosen first and all results were even. */
  ghost predicate Going(s: Stats, view: Position, ko: Option<Position>, i: int)
    requires 0 <= i < 362
  {
    && NodeOk(s) && Bounded(s) && s.board == view && s.kos == {ko} && !s.done && !s.pass
    && (s.has[i] ==> s.value[i] == s.mean[i] == 0.0 && GoesOn(s, ko, i) && s.visits[i] > 0)
    && (i < 361 && s.has[i] ==> Legal(view, ko, 1, i))
  }

  lemma {:induction false} EdgeAfter(s: Stats, t: Stats, ko: Option<Position>, cpuct: real, explore: real, i: nat,
                                     k: int)
    requires Sized(s) && AtAStroke(s, t, ko, cpuct, explore, i, 0.0) && 0 <= k < 362
    ensures if k == i then Through(s, t, i, 0.0) && GoesOn(s, ko, i)
            else SameEdge(s, t, k) || (Struck(s, t, k) && !s.has[k])
  {
    hide Legal, Beats, Through;
  }

  lemma {:induction false} OpenEdge(s: Stats, ko: Option<Position>, j: nat)
    requires NodeOk(s) && s.kos == {ko} && j < 362 && GoesOn(s, ko, j) && !s.has[j]
    ensures s.value[j] == 0.0
  {
    hide Legal;
  }

  lemma {:induction false} GoingOn(s: Stats, t: Stats, view: Position, ko: Option<Position>, i: int, cpuct: real,
                                   explore: real, j: nat)
    requires 0 <= i < 362 && Going(s, view, ko, i) && NodeOk(t) && AtAStroke(s, t, ko, cpuct, explore, j, 0.0)
    ensures Going(t, view, ko, i) && t.visits[i] >= s.visits[i] && (s.has[i] ==> t.has[i])
    ensures t.has[i] && !s.has[i] ==> i == 361 || Legal(view, ko, 1, i)
  {
    assert Sized(s) && j < 362;
    if !s.has[j] { OpenEdge(s, ko, j); }
    hide NodeOk, Legal, FirstWay, Beats;
    EdgeAfter(s, t, ko, cpuct, explore, j, i);
    forall k | 0 <= k < 362 && t.has[k] ensures -(t.visits[k] as real) <= t.value[k] <= t.visits[k] as real {
      EdgeAfter(s, t, ko, cpuct, explore, j, k);
    }
  }

  ghost predicate Chosen(s: Stats, view: Position, ko: Option<Position>, i: int)
    requires 0 <= i < 362
  {
    Going(s, view, ko, i) && s.visits[i] > 0 && (s.has[i] <==> i == 361 || Legal(view, ko, 1, i))
  }

  lemma {:induction false} FreshGoing(view: Position, ko: Option<Position>, i: int)
    requires 0 <= i < 362 && NoDouble(view) && Uniform(view)
    ensures Hint(i).InRange()
    ensures var s := StatsOf(view, ko, Hint(i));
            Going(s, view, ko, i) && NodeOk(s) && Bounded(s) && !s.done && ko in s.kos && s.total == 1 && !s.has[i]
  {
    ExpandedOk(view, ko, Hint(i));
  }

  lemma {:induction false} FirstStep(view: Position, ko: Option<Position>, i: int, cpuct: real, root: nat -> real)
    returns (t: Stats)
    requires 0 <= i < 362 && NoDouble(view) && Uniform(view) && (i < 361 ==> Occupied(view, i) == 0)
    requires cpuct > 0.0 && root(1) > 0.0
    ensures Simulates(StatsOf(view, ko, Hint(i)), t, ko, cpuct, root) && Chosen(t, view, ko, i)
  {
    hide NodeOk, Legal, Beats, StatsOf, Going, Simulated, Hint, Bounded, NoDouble, Uniform;
    FreshGoing(view, ko, i);
    var s := StatsOf(view, ko, Hint(i));
    FirstChoice(view, ko, i, cpuct, root(1));
    var j;
    t, j := GoOn(s, ko, cpuct, root(1));
    var n: nat :| Simulated(s, t, ko, cpuct, root(1), n, j, 0.0);
    SimulatedIsOne(s, t, ko, cpuct, root, n, j, 0.0);
    SimulatesBy(s, t, ko, cpuct, root, 0.0);
    GoingOn(s, t, view, ko, i, cpuct, root(1), j);
    FirstIsTaken(s, t, ko, i, cpuct, root(1), j);
    FirstIsChosen(s, t, view, ko, i);
  }

  lemma {:induction false} FirstIsTaken(s: Stats, t: Stats, ko: Option<Position>, i: int, cpuct: real, explore: real,
                                        j: nat)
    requires Sized(s) && 0 <= i < 362 && AtAStroke(s, t, ko, cpuct, explore, j, 0.0)
    requires forall k :: 0 <= k < 362 && k != i ==> Beats(s, cpuct, explore, i, k)
    ensures t.visits[i] == s.visits[i] + 1 && (t.has[i] <==> s.has[i] || GoesOn(s, ko, i))
  {
    hide Legal, ScoreOf;
    var first := j != i ==> Beats(s, cpuct, explore, j, i);
    assert GoesOn(s, ko, i) ==> first;
    assert j != i ==> Beats(s, cpuct, explore, i, j);
  }

  lemma {:induction false} FirstIsChosen(s: Stats, t: Stats, view: Position, ko: Option<Position>, i: int)
    requires 0 <= i < 362 && Going(s, view, ko, i) && Going(t, view, ko, i) && !s.has[i]
    requires t.visits[i] == s.visits[i] + 1 && (t.has[i] <==> s.has[i] || GoesOn(s, ko, i))
    ensures Chosen(t, view, ko, i)
  {
    hide NodeOk, Legal;
  }

  lemma {:induction false} NextStep(s: Stats, view: Position, ko: Option<Position>, i: int, cpuct: real,
                                    root: nat -> real)
    returns (t: Stats)
    requires 0 <= i < 362 && Chosen(s, view, ko, i) && cpuct > 0.0 && root(s.total) > 0.0
    ensures Simulates(s, t, ko, cpuct, root) && Chosen(t, view, ko, i)
  {
    var j;
    t, j := GoOn(s, ko, cpuct, root(s.total));
    var n: nat :| Simulated(s, t, ko, cpuct, root(s.total), n, j, 0.0);
    hide NodeOk, Legal, Beats, Simulated;
    SimulatedIsOne(s, t, ko, cpuct, root, n, j, 0.0);
    SimulatesBy(s, t, ko, cpuct, root, 0.0);
    EdgeAfter(s, t, ko, cpuct, root(s.total), j, i);
    GoingOn(s, t, view, ko, i, cpuct, root(s.total), j);
  }

  /** A whole search in which edge `i` was chosen first. */
  lemma {:induction false} RunOn(view: Position, ko: Option<Position>, i: int, n: nat, cpuct: real, root: nat -> real)
    returns (node: Stats)
    requires 0 <= i < 362 && NoDouble(view) && Uniform(view) && (i < 361 ==> Occupied(view, i) == 0)
    requires n > 0 && cpuct > 0.0 && forall k :: k > 0 ==> root(k) > 0.0
    ensures SearchLeads(StatsOf(view, ko, Hint(i)), node, ko, n, cpuct, root) && Chosen(node, view, ko, i)
  {
    var s := StatsOf(view, ko, Hint(i));
    assert !Reached(s, n);
    hide Chosen, Reached, Simulates, StatsOf, StepAt;
    var trace := [s];
    StartsRun(s, ko, n, cpuct, root);
    node := FirstStep(view, ko, i, cpuct, root);
    RunGoesOn(trace, node, ko, n, cpuct, root);
    trace := trace + [node];
    while |trace| <= n && !Reached(node, n)
      invariant 2 <= |trace| <= n + 1 && IsRun(trace, ko, n, cpuct, root)
      invariant trace[0] == s && trace[|trace| - 1] == node && Chosen(node, view, ko, i)
      decreases n + 1 - |trace|
    {
      TotalPositive(node, view, ko, i);
      var t := NextStep(node, view, ko, i, cpuct, root);
      RunGoesOn(trace, t, ko, n, cpuct, root);
      trace, node := trace + [t], t;
    }
  }

  lemma {:induction false} TotalPositive(s: Stats, view: Position, ko: Option<Position>, i: int)
    requires 0 <= i < 362 && Chosen(s, view, ko, i)
    ensures s.total > 0
  {}

  /** A child that has spent all its simulations but the first on the pass. */
  function PassedNode(view: Position, ko: Option<Position>, total: nat): Stats
    requires total > 0
  {
    var s := StatsOf(view, ko, Hint(361));
    s.(has := s.has[361 := total > 1], visits := s.visits[361 := total - 1], total := total)
  }

  lemma {:induction false} PassedNodeOk(view: Position, ko: Option<Position>, total: nat)
    requires NoDouble(view) && Uniform(view) && total > 0
    ensures var t := PassedNode(view, ko, total);
            NodeOk(t) && ValueSum(t.has, t.value, 362) == 0.0 && t.result == 0.0
  {
    var s, t := StatsOf(view, ko, Hint(361)), PassedNode(view, ko, total);
    ExpandedOk(view, ko, Hint(361));
    NoKidsNoSum(s.has, s.visits, s.value, 362);
    VisitSumChange(s.has, s.visits, t.has, t.visits, 361, 362);
    ValueSumChange(s.has, s.value, t.has, t.value, 361, 362);
    hide Legal, Refused, VisitSum, ValueSum;
    forall j | 0 <= j < 361 ensures Untried(t, j) == Untried(s, j) && Dead(t, j) == Dead(s, j) {}
  }

  /** There is nothing under the tree but a pass. */
  predicate OnlyPass(tree: Option<Stats>) {
    tree.Some? ==> Sized(tree.value) && forall j :: 0 <= j < 361 ==> !tree.value.has[j]
  }

  /** There are searches in which any empty point, or the pass, is sampled, and its edge has a child exactly when the
      move is legal. */
  lemma {:induction false} CanSample(view: Position, ko: Option<Position>, i: int, cpuct: real, root: nat -> real)
    returns (node: Stats, child: Option<Stats>)
    requires 0 <= i < 362 && NoDouble(view) && Uniform(view) && (i < 361 ==> Occupied(view, i) == 0)
    requires cpuct > 0.0 && forall k :: k > 0 ==> root(k) > 0.0
    ensures Sampled(node, view, i, {ko}) && (node.has[i] <==> i == 361 || Legal(view, ko, 1, i))
    ensures ComesOf(None, view, ko, node, Iterations, cpuct, root)
    ensures ChildOf(Some(node), i, child) && OnlyPass(child)
  {
    hide SearchLeads, StatsOf, Legal, Begins, NodeOk, Chosen, NoDouble, Uniform, EdgeOk, PassedNode, After, Hint;
    node := RunOn(view, ko, i, Iterations, cpuct, root);
    HintBegins(view, ko, i);
    child := ChosenChild(node, view, ko, i);
  }

  lemma {:induction false} HintBegins(view: Position, ko: Option<Position>, i: int)
    requires 0 <= i < 362
    ensures Hint(i).InRange() && Begins(None, view, ko, StatsOf(view, ko, Hint(i)))
  {
    assert Hint(i).Ok();
    hide StatsOf;
  }

  lemma {:induction false} ChosenChild(node: Stats, view: Position, ko: Option<Position>, i: int)
    returns (child: Option<Stats>)
    requires 0 <= i < 362 && NoDouble(view) && Uniform(view) && (i < 361 ==> Occupied(view, i) == 0)
    requires Chosen(node, view, ko, i)
    ensures Sampled(node, view, i, {ko}) && (node.has[i] <==> i == 361 || Legal(view, ko, 1, i))
    ensures ChildOf(Some(node), i, child) && OnlyPass(child)
  {
    hide Going, NodeOk, EdgeOk, NoDouble, Uniform, After, Legal, PassedChild;
    ChosenFacts(node, view, ko, i);
    child := None;
    if node.has[i] {
      child := Some(PassedChild(view, i, node.visits[i]));
      PassedChildOk(node, view, i);
    }
  }

  lemma {:induction false} ChosenFacts(node: Stats, view: Position, ko: Option<Position>, i: int)
    requires 0 <= i < 362 && Chosen(node, view, ko, i)
    ensures Sampled(node, view, i, {ko}) && Sized(node) && (node.has[i] <==> i == 361 || Legal(view, ko, 1, i))
    ensures node.has[i] ==> node.value[i] == node.mean[i] == 0.0 && (i < 361 ==> Accepted(node, i))
  {
    hide NodeOk, Legal;
    assert ko in node.kos;
  }

  lemma {:induction false} PassedChildOk(node: Stats, view: Position, i: int)
    requires 0 <= i < 362 && NoDouble(view) && Uniform(view) && (i < 361 ==> Occupied(view, i) == 0)
    requires Sized(node) && node.board == view && !node.pass && node.visits[i] > 0
    requires node.value[i] == node.mean[i] == 0.0 && (i < 361 ==> Accepted(node, i))
    ensures EdgeOk(node, i, PassedChild(view, i, node.visits[i])) &&
            OnlyPass(Some(PassedChild(view, i, node.visits[i])))
  {
    hide NodeOk, Accepted, NoDouble, Uniform, After, ValueSum;
    AfterFacts(view, i);
    var c := PassedNode(After(view, i), Some(view), node.visits[i]);
    PassedNodeOk(After(view, i), Some(view), node.visits[i]);
    FlagKeeps(c, i == 361);
    assert 0.0 / node.visits[i] as real == 0.0;
  }

  lemma {:induction false} FlagKeeps(s: Stats, pass: bool)
    requires NodeOk(s)
    ensures NodeOk(s.(pass := pass)) && Sized(s)
  {
    hide Legal;
    var t := s.(pass := pass);
    assert forall j :: 0 <= j < 361 ==> Untried(t, j) == Untried(s, j) && Dead(t, j) == Dead(s, j);
  }

  ghost function PassedChild(view: Position, i: int, total: nat): Stats
    requires 0 <= i < 362 && total > 0
  {
    PassedNode(After(view, i), Some(view), total).(pass := i == 361)
  }

  /** A game in which no player has gone on thinking in an old tree may go on with any stone on an empty point. */
  lemma {:induction false} OnePly(g: Record, i: nat, root: nat -> real) returns (h: Record)
    requires AllSearched(g, root) && g.last.None? && i < 361 && Occupied(g.positions[|g.moves|], i) == 0
    requires g.trees[|g.moves|].0.None? && OnlyPass(g.trees[|g.moves|].1)
    requires forall k :: k > 0 ==> root(k) > 0.0
    ensures AllSearched(h, root) && h.before == g.before && h.number == g.number && h.moves == g.moves + [i]
    ensures h.positions == g.positions + [Moved(g.positions[|g.moves|], Mover(|g.moves|), i)]
    ensures h.last.None? && h.trees[|h.moves|].0.None? && OnlyPass(h.trees[|h.moves|].1)
  {
    var k := |g.moves|;
    var view, two := View(g.positions[k], Mover(k)), KoAt(g, k);
    PositionFacts(g, k);
    FlipFacts(g.positions[k]);
    KoIsShown(g);
    var node, child := CanSample(view, Some(two), i, CpuctAt(g, k), root);
    assert {Some(two)} + {} == {Some(two)};
    hide IsPly, Legal, Moved, Sampled, View, Searched, Absolute, Start, ComesOf;
    var next := (None, child);
    ExtendRecord(g, i, node, two, {}, next, root);
    h := Extended(g, Moved(g.positions[k], Mover(k), i), i, node, next);
    OneMoreSearched(g, h, root);
  }

  /** ... or end with a pass. */
  lemma {:induction false} LastPly(g: Record, root: nat -> real) returns (h: Record)
    requires AllSearched(g, root) && g.last.None? && g.trees[|g.moves|].0.None?
    requires forall k :: k > 0 ==> root(k) > 0.0
    ensures AllSearched(h, root) && h.last.Some? && h == g.(last := h.last)
  {
    var k := |g.moves|;
    var view, two := View(g.positions[k], Mover(k)), KoAt(g, k);
    PositionFacts(g, k);
    FlipFacts(g.positions[k]);
    KoIsShown(g);
    var node, child := CanSample(view, Some(two), 361, CpuctAt(g, k), root);
    assert {Some(two)} + {} == {Some(two)};
    hide IsPly, Legal, Moved, Sampled, View, Searched, Absolute, Start, ComesOf;
    SearchesIsThought(g, 361, node, two, {}, root);
    h := g.(last := Some(node));
    PassEnds(g, node, root);
  }

  lemma {:induction false} KoIsShown(g: Record)
    requires IsRecord(g)
    ensures Absolute(KoAt(g, |g.moves|)) == Held(g).0
  {
    var k := |g.moves|;
    if k >= 2 { PositionFacts(g, k - 1); }
  }

  lemma {:induction false} EmptyGame(g: Record, root: nat -> real)
    requires AllSearched(g, root) && g.moves == []
    ensures g.positions == [Start()] && g.trees == [(None, None)] && forall i :: Cell(i) ==> Occupied(Start(), i) == 0
  {}

  lemma {:induction false} TwoStones(empty: Record, root: nat -> real) returns (g: Record)
    requires AllSearched(empty, root) && empty.moves == [] && empty.last.None?
    requires forall k :: k > 0 ==> root(k) > 0.0
    ensures AllSearched(g, root) && g.before == empty.before && g.number == empty.number && g.moves == [0, 40]
    ensures g.positions[1] == Moved(Start(), 1, 0) && g.positions[2] == Moved(Moved(Start(), 1, 0), -1, 40)
    ensures g.last.Some?
  {
    hide Moved, Start, AllSearched, Liberties, Occupied;
    EmptyGame(empty, root);
    FirstStone();
    var h := OnePly(empty, 0, root);
    assert |h.positions| == 2 && h.positions[1] == Moved(Start(), 1, 0);
    h := OnePly(h, 40, root);
    g := LastPly(h, root);
  }

  lemma {:induction false} FirstRecord(root: nat -> real)
    ensures AllSearched(NewRecord(0, (Start(), Start())), root)
  {}

  /** The exception for the first two plies is real. A game of two stones, at the first and the forty-first point,
      leaves its two positions in the buffers: in the next game the same two stones are proper, and both are
      refused. */
  lemma {:induction false} StaleRefusal(root: nat -> real) returns (g1: Record, g2: Record)
    requires forall k :: k > 0 ==> root(k) > 0.0
    ensures AllGames([g1, g2], root) && g1.moves == [0, 40] && g2.moves == [0, 40]
    ensures IsRecord(g2) && Proper(g2, 0) && !Kept(g2, 0) && Proper(g2, 1) && !Kept(g2, 1)
  {
    hide Moved, Start, IsRecord, AllSearched, Liberties, Thought;
    var first := NewRecord(0, (Start(), Start()));
    FirstRecord(root);
    g1 := TwoStones(first, root);
    RecordOf(g1, root);
    HeldIsRecord(g1, root);
    g2 := TwoStones(NewRecord(1, Held(g1)), root);
    RecordOf(g2, root);
    RefusedTwice(g1, g2, root);
    TwoGames(g1, g2, root);
  }

  lemma {:induction false} TwoGames(g1: Record, g2: Record, root: nat -> real)
    requires AllSearched(g1, root) && AllSearched(g2, root) && FollowsOn([], g1) && FollowsOn([g1], g2)
    ensures AllGames([g1, g2], root)
  {
    hide AllSearched;
    var log := [g1, g2];
    assert log[..0] == [] && log[..1] == [g1];
  }

  lemma {:induction false} RefusedTwice(g1: Record, g2: Record, root: nat -> real)
    requires AllSearched(g2, root) && IsRecord(g2) && g2.moves == [0, 40] && |g1.positions| == 3 && |g1.moves| == 2
    requires g2.before == Held(g1) && g1.positions[1] == Moved(Start(), 1, 0) == g2.positions[1]
    requires g1.positions[2] == Moved(Moved(Start(), 1, 0), -1, 40) == g2.positions[2]
    ensures Proper(g2, 0) && !Kept(g2, 0) && Proper(g2, 1) && !Kept(g2, 1)
  {
    RecordOf(g2, root);
    FirstStone();
    SecondStone();
    assert Searched(g2, 0, root) && Searched(g2, 1, root);
    hide Moved, Start, IsRecord, Searched, Liberties, IsPly, Kept;
    KeptIsProper(g2, 0, root);
    KeptIsProper(g2, 1, root);
    PassesAt(g2, 1);
  }

  lemma {:induction false} FirstStone()
    ensures var b := Moved(Start(), 1, 0); Occupied(b, 40) == 0 && Liberties(b, 0) != {}
  {
    assert forall i :: Cell(i) ==> Occupied(Start(), i) == 0;
    var b := Moved(Start(), 1, 0);
    MoveExact(Start(), 1, 0);
    assert Occupied(b, 40) == AfterMove(Start(), 1, 0, 40) && Occupied(b, 1) == AfterMove(Start(), 1, 0, 1);
    assert Occupied(b, 0) == AfterMove(Start(), 1, 0, 0);
    hide Moved, Start, Liberties;
    EmptyNeighbourIsLiberty(b, 0, 1);
  }

  lemma {:induction false} SecondStone()
    ensures Liberties(Moved(Moved(Start(), 1, 0), -1, 40), 40) != {}
  {
    FirstStone();
    assert forall i :: Cell(i) ==> Occupied(Start(), i) == 0;
    var b := Moved(Start(), 1, 0);
    MoveExact(Start(), 1, 0);
    assert Occupied(b, 41) == AfterMove(Start(), 1, 0, 41);
    var c := Moved(b, -1, 40);
    MoveExact(b, -1, 40);
    assert Occupied(c, 41) == AfterMove(b, -1, 40, 41);
    hide Moved, Start, Liberties;
    EmptyNeighbourIsLiberty(c, 40, 41);
  }

  lemma {:induction false} HeldIsRecord(g: Record, root: nat -> real)
    requires IsRecord(g)
    ensures AllSearched(NewRecord(g.number + 1, Held(g)), root)
  {
    var n := |g.moves|;
    PositionFacts(g, n);
    if n >= 2 { PositionFacts(g, n - 1); }
  }
}
