/** `run_mcts`, `move_mcts` and the game loop of `self_go`. */
module SelfPlay {
  import opened Facts
  import opened Grid
  import opened Board
  import opened Moves
  import opened Rules
  import opened Capture
  import opened Symmetry
  import opened SearchStats
  import opened Simulations
  import opened Search
  import opened Release
  import opened GameRecord

  ghost function ReprOf(t: MctsTree?): set<MctsTree>
    reads t
  {
    if t == null then {} else {t} + t.Repr
  }

  ghost function KosOf(t: MctsTree?): set<Option<Position>>
    reads t
  {
    if t == null then {} else t.s.kos
  }

  function NodeOf(t: MctsTree?): Option<Stats>
    reads t
  {
    if t == null then None else Some(t.s)
  }

  /** The tree stands at the live board, seen by the player to move, and is not at a pass. */
  ghost predicate AtBoard(t: MctsTree?, board: Position, player: int)
    reads t, ReprOf(t)
  {
    t != null ==> t.Valid() && t.s.board == View(board, player) && !t.s.done && !t.s.pass
  }

  lemma {:induction false} SomeVisit(has: seq<bool>, visits: seq<nat>, n: nat)
    requires n <= |has| && n <= |visits| && VisitSum(has, visits, n) > 0
    ensures exists i :: 0 <= i < n && has[i] && visits[i] > 0
  {
    if !(has[n - 1] && visits[n - 1] > 0) { SomeVisit(has, visits, n - 1); }
  }

  method MaxIntIndex(a: seq<nat>) returns (m: nat)
    requires |a| > 0
    ensures m < |a| && (forall j :: 0 <= j < |a| ==> a[j] <= a[m]) && forall j :: 0 <= j < m ==> a[j] < a[m]
  {
    m := 0;
    for i := 1 to |a|
      invariant m < i
      invariant forall j :: 0 <= j < i ==> a[j] <= a[m]
      invariant forall j :: 0 <= j < m ==> a[j] < a[m]
    {
      if a[i] > a[m] { m := i; }
    }
  }

  /** The simulation loop: at most `n` simulations, stopping once one edge has `n` visits. */
  method Simulate(t: MctsTree, ko: Option<Position>, n: nat, root: nat -> real, cpuct: real)
    requires t.Valid() && ko in t.s.kos && !t.s.done
    requires cpuct > 0.0 && forall k :: k > 0 ==> root(k) > 0.0
    modifies t.Repr
    ensures t.Valid() && fresh(t.Repr - old(t.Repr))
    ensures t.s.board == old(t.s.board) && t.s.kos == old(t.s.kos) && !t.s.done && t.s.pass == old(t.s.pass)
    ensures SearchLeads(old(t.s), t.s, ko, n, cpuct, root) && (n > 0 ==> exists i :: 0 <= i < 362 && t.s.visits[i] > 0)
  {
    hide NodeOk, MctsTree.Linked, MctsTree.Valid, EdgeOk, OneSimulation, MctsTree.WentDown, Simulated,
         MctsTree.ElseUnchanged, StepAt;
    t.NodeShape();
    VisitsCounted(t.s);
    ghost var s0, r0, trace := t.s, t.Repr, [t.s];
    StartsRun(t.s, ko, n, cpuct, root);
    var maxI := 0;
    for i := 0 to n
      invariant t.Valid() && fresh(t.Repr - r0)
      invariant ko in t.s.kos && t.s.board == s0.board && t.s.kos == s0.kos && !t.s.done && t.s.pass == s0.pass
      invariant t.s.total >= 1 + i && |trace| == i + 1 && IsRun(trace, ko, n, cpuct, root)
      invariant trace[0] == s0 && trace[i] == t.s
    {
      t.NodeShape();
      VisitsCounted(t.s);
      maxI := MaxIntIndex(t.s.visits);
      if t.s.visits[maxI] >= n { break; }
      var r;
      ghost var m, j;
      ghost var before := t.s;
      r, m, j := t.SelectMcts(ko, root, cpuct);
      SimulatesBy(before, t.s, ko, cpuct, root, r);
      RunGoesOn(trace, t.s, ko, n, cpuct, root);
      trace := trace + [t.s];
    }
    t.NodeShape();
    VisitsCounted(t.s);
  }

  lemma {:induction false} VisitsCounted(s: Stats)
    ensures NodeOk(s) ==> |s.visits| == 362 && s.total >= 1
    ensures NodeOk(s) && s.total > 1 ==> exists i :: 0 <= i < 362 && s.visits[i] > 0
  {
    if NodeOk(s) && s.total > 1 { SomeVisit(s.has, s.visits, 362); }
  }

  /** A tree for the board: the one at hand, or a fresh one. */
  method RootFor(tree: MctsTree?, view: Position, ko: Option<Position>) returns (t: MctsTree)
    requires NoDouble(view) && Uniform(view)
    requires tree != null ==> tree.Valid() && tree.s.board == view && !tree.s.done && !tree.s.pass
    modifies tree
    ensures t.Valid() && t.s.board == view && !t.s.done && !t.s.pass
    ensures fresh(t.Repr - old(ReprOf(tree)))
    ensures t.s.kos == {ko} + old(KosOf(tree)) && Begins(old(NodeOf(tree)), view, ko, t.s)
  {
    if tree == null {
      var pred := NetworkPredictRotations(view);
      t := new MctsTree.Expand(view, ko, pred);
    } else {
      t := tree;
      t.AddKo(ko);
    }
    assert t.s.board == view;
  }

  method RunMcts(tree: MctsTree?, board: array<Bit>, ko: Option<Position>, player: int, n: nat, root: nat -> real,
                 cpuct: real)
    returns (t: MctsTree)
    requires board.Length == 1083 && (player == 1 || player == -1)
    requires NoDouble(board[..]) && Uniform(board[..])
    requires AtBoard(tree, board[..], player)
    requires cpuct > 0.0 && forall k :: k > 0 ==> root(k) > 0.0
    modifies board, ReprOf(tree)
    ensures board[..] == old(board[..])
    ensures AtBoard(t, board[..], player) && fresh(t.Repr - old(ReprOf(tree)))
    ensures t.s.kos == {ko} + old(KosOf(tree))
    ensures ComesOf(old(NodeOf(tree)), View(board[..], player), ko, t.s, n, cpuct, root)
    ensures n > 0 ==> exists i :: 0 <= i < 362 && t.s.visits[i] > 0
  {
    hide NoDouble, Uniform, Flipped, FlippedUpTo, MctsTree.Valid, MctsTree.Linked, NodeOk, EdgeOk, SearchLeads, Begins;
    FlipFacts(board[..]);
    FlipInvolution(board[..]);
    if player < 0 { FlipBoard(board); }
    t := RootFor(tree, board[..], ko);
    Simulate(t, ko, n, root, cpuct);
    if player < 0 { FlipBoard(board); }
  }

  /** A tree that has followed the game through move `index` from `view`. */
  ghost predicate Followed(t: MctsTree?, view: Position, index: int)
    requires 0 <= index < 362
    reads t, ReprOf(t)
  {
    t != null ==>
      t.Valid() && t.s.board == After(view, index) && t.s.kos == {Some(view)} &&
      t.s.pass == (index == 361) && !t.s.done
  }

  /** `pick_move` samples an edge by its visits, so any visited edge may come back; one without a child was refused. */
  method PickMove(t: MctsTree) returns (index: nat)
    requires t.Valid() && exists i :: 0 <= i < 362 && t.s.visits[i] > 0
    ensures index < 362 && |t.s.visits| == |t.s.has| == |t.children| == 362 && t.s.visits[index] > 0
    ensures index < 361 ==> Occupied(t.s.board, index) == 0
    ensures t.s.has[index] <==> t.children[index] != null
    ensures t.s.has[index] && index < 361 ==> Accepted(t.s, index)
    ensures !t.s.has[index] ==> index < 361 && Refused(t.s, index)
  {
    index :| index < 362 && t.s.visits[index] > 0;
    if t.s.has[index] { assert EdgeOk(t.s, index, t.children[index].s); }
  }

  lemma {:induction false} MovedChild(s: Stats, index: int, c: Stats)
    requires Sized(s) && 0 <= index < 362 && EdgeOk(s, index, c) && !s.pass
    ensures c.board == After(s.board, index) && c.kos == {Some(s.board)} && c.pass == (index == 361) && !c.done
  {}

  /** `move_mcts` for a tree that stands at the board: the subtree under the move remains, as it was; without one,
      nothing does. */
  method StepTree(tree: MctsTree?, ghost view: Position, index: nat) returns (t: MctsTree?)
    requires index < 362 && (tree != null ==> tree.Valid() && tree.s.board == view && !tree.s.pass)
    modifies if tree != null then {tree} else {}
    ensures t == if tree == null then null else old(tree.children[index])
    ensures t != null ==>
              t.s == old(tree.children[index].s) && tree !in t.Repr && t.Repr == old(tree.children[index].Repr)
    ensures ChildOf(old(NodeOf(tree)), index, NodeOf(t))
    ensures Followed(t, view, index) && ReprOf(t) <= old(ReprOf(tree))
    ensures tree != null ==> tree !in ReprOf(t)
  {
    if tree != null { ValidIsTidy(tree); }
    ghost var freed;
    t, freed := MoveMcts(tree, index);
    if t != null { MovedChild(old(tree.s), index, t.s); }
  }

  /** The player to move searches in its own tree and samples an edge. */
  method Think(mine: MctsTree?, board: array<Bit>, ko: Option<Position>, player: int, n: nat, root: nat -> real,
               cpuct: real)
    returns (t: MctsTree, index: nat, node: Stats)
    requires board.Length == 1083 && (player == 1 || player == -1) && n == Iterations
    requires NoDouble(board[..]) && Uniform(board[..]) && AtBoard(mine, board[..], player)
    requires cpuct > 0.0 && forall k :: k > 0 ==> root(k) > 0.0
    modifies board, ReprOf(mine)
    ensures board[..] == old(board[..])
    ensures AtBoard(t, board[..], player) && fresh(t.Repr - old(ReprOf(mine)))
    ensures index < 362 && (index < 361 ==> Occupied(View(board[..], player), index) == 0) && node == t.s
    ensures Sampled(node, View(board[..], player), index, {ko} + old(KosOf(mine)))
    ensures ComesOf(old(NodeOf(mine)), View(board[..], player), ko, node, n, cpuct, root)
  {
    hide MctsTree.Valid, NodeOk, Legal, View, EdgeOk, ComesOf;
    t := RunMcts(mine, board, ko, player, n, root, cpuct);
    index := PickMove(t);
    node := t.s;
  }

  /** Both trees follow the sampled move. */
  method FollowBoth(t: MctsTree, other: MctsTree?, ghost view: Position, index: nat)
    returns (mine': MctsTree?, other': MctsTree?)
    requires index < 362 && t.Valid() && t.s.board == view && !t.s.pass
    requires other != null ==> other.Valid() && other.s.board == view && !other.s.pass
    requires t.Repr !! ReprOf(other)
    modifies t, other
    ensures Followed(mine', view, index) && Followed(other', view, index)
    ensures mine' == old(t.children)[index] && other' == if other == null then null else old(other.children)[index]
    ensures ChildOf(Some(old(t.s)), index, NodeOf(mine')) && ChildOf(old(NodeOf(other)), index, NodeOf(other'))
    ensures ReprOf(mine') <= old(t.Repr) && ReprOf(other') <= old(ReprOf(other))
  {
    hide MctsTree.Valid, NodeOk, ChildOf;
    mine' := StepTree(t, view, index);
    other' := StepTree(other, view, index);
  }

  /** Between plies, each tree is absent or stands at the board, its moves were checked against the last board, and
      the record says what it has come to. */
  ghost predicate TreesFollow(mover: MctsTree?, other: MctsTree?, g: Record)
    requires IsRecord(g)
    reads mover, ReprOf(mover), other, ReprOf(other)
  {
    var k := |g.moves|;
    && AtBoard(mover, g.positions[k], Mover(k)) && AtBoard(other, g.positions[k], Mover(k))
    && ReprOf(mover) !! ReprOf(other)
    && g.trees[k] == (NodeOf(mover), NodeOf(other))
    && (k > 0 ==> KosOf(mover) + KosOf(other) <= {Some(View(g.positions[k - 1], Mover(k - 1)))})
  }

  /** What the two swapped buffers hold. */
  ghost predicate Buffers(one: Position, two: Position, g: Record)
    requires IsRecord(g)
  {
    (Absolute(two), Absolute(one)) == Held(g)
  }

  /** What the search half of a ply leaves behind. */
  ghost predicate PlySearched(mine: MctsTree?, other: MctsTree?, g: Record, index: nat, node: Stats,
                              kos: set<Option<Position>>, two: Position, root: nat -> real)
    requires IsRecord(g) && index < 362
    reads mine, ReprOf(mine), other, ReprOf(other)
  {
    var k := |g.moves|;
    var view := View(g.positions[k], Mover(k));
    && Searches(g, index, node, two, kos, root) && (index < 361 ==> Occupied(view, index) == 0)
    && TreesStep(g.trees[k], node, index, (NodeOf(other), NodeOf(mine)))
    && Followed(mine, view, index) && Followed(other, view, index) && ReprOf(mine) !! ReprOf(other)
  }

  ghost predicate Stopped(t: MctsTree?)
    reads t, ReprOf(t)
  {
    t != null ==> t.Valid()
  }

  lemma {:induction false} FollowedStops(t: MctsTree?, view: Position, index: nat)
    requires index < 362
    ensures Followed(t, view, index) ==> Stopped(t)
  {}

  /** The mover's tree before a ply; the second player has none at the second ply. */
  lemma {:induction false} BeforePly(mover: MctsTree?, other: MctsTree?, g: Record, root: nat -> real)
    requires AllSearched(g, root)
    ensures IsRecord(g) && |g.positions| == |g.trees| == |g.moves| + 1
    ensures TreesFollow(mover, other, g) ==>
              && KosOk(g, KosOf(mover)) && g.trees[|g.moves|] == (NodeOf(mover), NodeOf(other))
              && ReprOf(mover) !! ReprOf(other) && AtBoard(mover, g.positions[|g.moves|], Mover(|g.moves|))
              && AtBoard(other, g.positions[|g.moves|], Mover(|g.moves|))
  {
    hide MctsTree.Valid, View, Thought, IsPly, Start, EdgeOk;
    if |g.moves| == 1 { assert Searched(g, 0, root); }
  }

  /** The search half of a ply: think in one's own tree, sample an edge, and let both trees follow it. */
  method SearchPly(mine: MctsTree?, other: MctsTree?, board: array<Bit>, two: Position, player: int,
                   n: nat, root: nat -> real, cpuct: real, g: Record)
    returns (mine': MctsTree?, other': MctsTree?, index: nat, node: Stats)
    requires board.Length == 1083 && n == Iterations
    requires AllSearched(g, root) && board[..] == g.positions[|g.moves|] && player == Mover(|g.moves|)
    requires TreesFollow(mine, other, g) && cpuct == CpuctAt(g, |g.moves|)
    requires forall k :: k > 0 ==> root(k) > 0.0
    modifies board, ReprOf(mine), other
    ensures board[..] == old(board[..])
    ensures IsRecord(g) && index < 362 && Stopped(mine') && Stopped(other')
    ensures PlySearched(mine', other', g, index, node, old(KosOf(mine)), two, root)
    ensures fresh(ReprOf(mine') - old(ReprOf(mine))) && ReprOf(other') <= old(ReprOf(other))
  {
    hide IsRecord, NoDouble, Uniform, View, MctsTree.Valid, Legal, Sampled, KosOk, Stopped, AllSearched, TreesFollow,
         ComesOf, ChildOf, Followed;
    BeforePly(mine, other, g, root);
    ghost var b, k := board[..], |g.moves|;
    PositionFacts(g, k);
    var t;
    t, index, node := Think(mine, board, Some(two), player, n, root, cpuct);
    mine', other' := FollowBoth(t, other, View(b, player), index);
    FollowedStops(mine', View(b, player), index);
    FollowedStops(other', View(b, player), index);
  }

  /** The board half of a ply: play the stone and copy the position into the buffer that was swapped in. */
  method PlayStone(board: array<Bit>, one: array<Bit>, player: int, index: nat)
    requires board.Length == one.Length == 1083 && board != one && (player == 1 || player == -1) && index < 361
    modifies board, one
    ensures board[..] == one[..] == Moved(old(board[..]), player, index)
  {
    assert Index(index / 19, index % 19) == index;
    MoveGo(board, player, index / 19, index % 19);
    forall i | 0 <= i < 1083 { one[i] := board[i]; }
    assert one[..] == board[..];
  }

  /** The trees after a stone stand at the new board, checked against the old one. */
  lemma {:induction false} TreesStepped(mover: MctsTree?, other: MctsTree?, g: Record, h: Record, index: nat,
                                        node: Stats)
    requires IsRecord(g) && index < 361 && Occupied(g.positions[|g.moves|], index) == 0 && IsRecord(h)
    requires h == Extended(g, Moved(g.positions[|g.moves|], Mover(|g.moves|), index), index, node,
                           (NodeOf(mover), NodeOf(other)))
    requires Followed(mover, View(g.positions[|g.moves|], Mover(|g.moves|)), index)
    requires Followed(other, View(g.positions[|g.moves|], Mover(|g.moves|)), index)
    requires ReprOf(mover) !! ReprOf(other)
    ensures TreesFollow(mover, other, h)
  {
    var k := |g.moves|;
    assert h.positions[k] == g.positions[k] && |h.positions| == k + 2 && |h.moves| == k + 1;
    assert Mover(k + 1) == -Mover(k);
    hide MctsTree.Valid, After, Moved, View, IsRecord, Mover, NoDouble, Uniform, Occupied;
    PositionFacts(g, k);
    MoverIsPlayer(k);
    ViewAfter(g.positions[k], Mover(k), index);
  }

  lemma {:induction false} MoverIsPlayer(k: nat)
    ensures Mover(k) == 1 || Mover(k) == -1
  {}

  ghost predicate AllSearched(g: Record, root: nat -> real) {
    IsRecord(g) && (forall k :: 0 <= k < |g.moves| ==> Searched(g, k, root)) && Ended(g, root)
  }

  lemma {:induction false} OneMoreSearched(g: Record, h: Record, root: nat -> real)
    requires AllSearched(g, root) && IsRecord(h) && |h.moves| == |g.moves| + 1 && Searched(h, |g.moves|, root)
    requires g.before == h.before && g.number == h.number && g.last.None? && h.last.None?
    requires g.positions <= h.positions && g.moves <= h.moves && g.nodes <= h.nodes && g.trees <= h.trees
    ensures AllSearched(h, root)
  {
    hide Searched, Thought;
    forall k | 0 <= k < |h.moves| ensures Searched(h, k, root) {
      if k < |g.moves| { SearchedStays(g, h, k, root); }
    }
  }

  /** What a stone does to the record, the trees and the buffers, given what the search half of the ply promised. */
  lemma {:induction false} PlyDone(mine: MctsTree?, other: MctsTree?, g: Record, index: nat, node: Stats,
                                   kos: set<Option<Position>>, one: Position, two: Position, root: nat -> real)
    requires IsRecord(g) && index < 361
    ensures AllSearched(g, root) && g.last.None? && Buffers(one, two, g) &&
            PlySearched(mine, other, g, index, node, kos, two, root) ==>
              var k := |g.moves|;
              var b := Moved(g.positions[k], Mover(k), index);
              var h := Extended(g, b, index, node, (NodeOf(other), NodeOf(mine)));
              AllSearched(h, root) && IsRecord(h) && TreesFollow(other, mine, h) && Buffers(b, one, h) &&
              Mover(k + 1) == -Mover(k)
  {
    hide Legal, View, IsPly, Followed, Moved, SameKo, Start, Searched, TreesFollow, Sampled, KosOk, Searches, TreesStep,
         Ended;
    if AllSearched(g, root) && g.last.None? && Buffers(one, two, g) &&
       PlySearched(mine, other, g, index, node, kos, two, root) {
      var k, next := |g.moves|, (NodeOf(other), NodeOf(mine));
      var h := Extended(g, Moved(g.positions[k], Mover(k), index), index, node, next);
      ExtendRecord(g, index, node, two, kos, next, root);
      OneMoreSearched(g, h, root);
      TreesStepped(other, mine, g, h, index, node);
      PositionFacts(g, k);
      PositionFacts(h, k + 1);
      if k >= 1 { PositionFacts(h, k); }
    }
  }

  lemma {:induction false} EndedIsRecord(g: Record, last: Option<Stats>)
    requires IsRecord(g)
    ensures IsRecord(g.(last := last))
  {
    hide Moved, Start;
    var h := g.(last := last);
    forall j | 0 <= j < |h.moves| ensures IsPly(h, j) { assert IsPly(g, j); }
  }

  /** A pass ends the record. */
  lemma {:induction false} PassEnds(g: Record, node: Stats, root: nat -> real)
    requires AllSearched(g, root) && Thought(g, |g.moves|, 361, node, root)
    ensures AllSearched(g.(last := Some(node)), root)
  {
    hide View, IsPly, SameKo, Start, Sampled, ComesOf;
    var h := g.(last := Some(node));
    EndedIsRecord(g, Some(node));
    assert KoAt(h, |g.moves|) == KoAt(g, |g.moves|) && CpuctAt(h, |g.moves|) == CpuctAt(g, |g.moves|);
    assert Thought(h, |g.moves|, 361, node, root);
    forall k | 0 <= k < |h.moves| ensures Searched(h, k, root) { SearchedStays(g, h, k, root); }
  }

  /** What a pass does to the record, given what the search half of the ply promised. */
  lemma {:induction false} PassDone(mine: MctsTree?, other: MctsTree?, g: Record, node: Stats,
                                    kos: set<Option<Position>>, one: Position, two: Position, root: nat -> real)
    requires IsRecord(g)
    ensures AllSearched(g, root) && Buffers(one, two, g) && PlySearched(mine, other, g, 361, node, kos, two, root) ==>
              AllSearched(g.(last := Some(node)), root) && Buffers(one, two, g.(last := Some(node)))
  {
    hide View, IsPly, Followed, Start, Searches, TreesStep, Thought;
    if AllSearched(g, root) && Buffers(one, two, g) && PlySearched(mine, other, g, 361, node, kos, two, root) {
      SearchesIsThought(g, 361, node, two, kos, root);
      PassEnds(g, node, root);
      EndedIsRecord(g, Some(node));
    }
  }

  lemma {:induction false} SearchedEmpty(mine: MctsTree?, other: MctsTree?, g: Record, index: nat, node: Stats,
                                         kos: set<Option<Position>>, two: Position, root: nat -> real)
    requires IsRecord(g) && index < 361
    ensures PlySearched(mine, other, g, index, node, kos, two, root) ==> Occupied(g.positions[|g.moves|], index) == 0
  {
    ViewEmpty(g, index);
  }

  /** The record so far is of checked plies, and the board and the buffers show what it says. */
  ghost predicate Standing(board: Position, one: Position, two: Position, g: Record, root: nat -> real) {
    AllSearched(g, root) && board == g.positions[|g.moves|] && Buffers(one, two, g)
  }

  /** The state of `self_go` at the top of a turn of a game in progress. */
  ghost predicate InPlay(mover: MctsTree?, other: MctsTree?, board: Position, one: Position, two: Position, player: int,
                         g: Record, root: nat -> real)
    reads mover, ReprOf(mover), other, ReprOf(other)
  {
    Standing(board, one, two, g, root) && g.last.None? && player == Mover(|g.moves|) && TreesFollow(mover, other, g)
  }

  /** The tree of the player to move. */
  function ToMove(tree1: MctsTree?, tree2: MctsTree?, total: nat, player: int): MctsTree? {
    if (total % 2 == 0) == (player == 1) then tree1 else tree2
  }

  /** The other tree. */
  function Waiting(tree1: MctsTree?, tree2: MctsTree?, total: nat, player: int): MctsTree? {
    if (total % 2 == 0) == (player == 1) then tree2 else tree1
  }

  /** One turn of the loop of `self_go` for the player whose tree is `mine`. Unless it is a pass, the stone is played
      and the new position copied into `two`, which the caller swaps with `one`. */
  method PlayTurn(mine: MctsTree?, other: MctsTree?, board: array<Bit>, one: array<Bit>, two: array<Bit>, player: int,
                  n: nat, root: nat -> real, cpuct: real, g: Record)
    returns (mine': MctsTree?, other': MctsTree?, passed: bool, h: Record)
    requires board.Length == one.Length == two.Length == 1083 && board != one && board != two && one != two &&
             n == Iterations
    requires Known(InPlay(mine, other, board[..], one[..], two[..], player, g, root)) && cpuct == CpuctAt(g, |g.moves|)
    requires forall k :: k > 0 ==> root(k) > 0.0
    modifies board, two, ReprOf(mine), other
    ensures passed ==>
              Known(Stopped(mine')) && Known(Stopped(other')) && h.last.Some? &&
              Known(Standing(board[..], one[..], two[..], h, root))
    ensures h.before == g.before && h.number == g.number && |h.moves| == |g.moves| + if passed then 0 else 1
    ensures !passed ==> Known(InPlay(other', mine', board[..], two[..], one[..], -player, h, root))
    ensures fresh(ReprOf(mine') - old(ReprOf(mine))) && ReprOf(other') <= old(ReprOf(other))
  {
    hide AllSearched, IsPly, TreesFollow, Buffers, Stopped, PlySearched, MctsTree.Valid, Moved;
    RecordOf(g, root);
    ghost var kos, two0 := KosOf(mine), two[..];
    var index;
    var node;
    mine', other', index, node := SearchPly(mine, other, board, two[..], player, n, root, cpuct, g);
    passed := index / 19 == 19;
    if passed {
      PassDone(mine', other', g, node, kos, one[..], two0, root);
      h := g.(last := Some(node));
    } else {
      SearchedEmpty(mine', other', g, index, node, kos, two0, root);
      PlayStone(board, two, player, index);
      PlyDone(mine', other', g, index, node, kos, one[..], two0, root);
      h := Extended(g, board[..], index, node, (NodeOf(other'), NodeOf(mine')));
    }
  }

  /** The turn of whichever tree is to move, and the swap of the two buffers after a stone. */
  method TakeTurn(tree1: MctsTree?, tree2: MctsTree?, board: array<Bit>, one: array<Bit>, two: array<Bit>, player: int,
                  total: nat, n: nat, root: nat -> real, g: Record)
    returns (tree1': MctsTree?, tree2': MctsTree?, one': array<Bit>, two': array<Bit>, passed: bool, h: Record)
    requires board.Length == one.Length == two.Length == 1083 && board != one && board != two && one != two &&
             n == Iterations
    requires Known(InPlay(ToMove(tree1, tree2, total, player), Waiting(tree1, tree2, total, player),
                          board[..], one[..], two[..], player, g, root))
    requires g.number == total && forall k :: k > 0 ==> root(k) > 0.0
    modifies board, two, ReprOf(tree1), ReprOf(tree2)
    ensures (one', two') == if passed then (one, two) else (two, one)
    ensures Known(AtLoopTop(tree1', tree2', board[..], one'[..], two'[..],
                             if passed then player else -player, total, passed, h, root))
    ensures h.before == g.before && h.number == g.number && |h.moves| == |g.moves| + if passed then 0 else 1
    ensures fresh(ReprOf(tree1') + ReprOf(tree2') - old(ReprOf(tree1) + ReprOf(tree2)))
  {
    hide Standing, Stopped, TreesFollow;
    MoverIsPlayer(|g.moves|);
    var mine := (total % 2 == 0) == (player == 1);
    var cpuct := if mine then 5.0 else 1.0;
    one', two' := one, two;
    if mine {
      tree1', tree2', passed, h := PlayTurn(tree1, tree2, board, one, two, player, n, root, cpuct, g);
    } else {
      tree2', tree1', passed, h := PlayTurn(tree2, tree1, board, one, two, player, n, root, cpuct, g);
    }
    if !passed { one', two' := two, one; }
  }

  lemma {:induction false} RecordOf(g: Record, root: nat -> real)
    ensures AllSearched(g, root) ==> IsRecord(g)
  {}

  /** The state of `self_go` at the top of its loop: a game in progress, or one just ended by a pass. */
  ghost predicate AtLoopTop(tree1: MctsTree?, tree2: MctsTree?, board: Position, one: Position, two: Position,
                            player: int, total: nat, done: bool, g: Record, root: nat -> real)
    reads tree1, ReprOf(tree1), tree2, ReprOf(tree2)
  {
    if done then Stopped(tree1) && Stopped(tree2) && g.last.Some? && Standing(board, one, two, g, root)
    else InPlay(ToMove(tree1, tree2, total, player), Waiting(tree1, tree2, total, player), board, one, two, player, g,
                root)
  }

  /** The loop body of `self_go`. `g` is the record of the game at hand; a finished one is appended to `log`. */
  method LoopBody(tree1: MctsTree?, tree2: MctsTree?, board: array<Bit>, one: array<Bit>, two: array<Bit>, done: bool,
                  player: int, total: nat, n: nat, root: nat -> real, g: Record, log: seq<Record>)
    returns (tree1': MctsTree?, tree2': MctsTree?, one': array<Bit>, two': array<Bit>, done': bool, player': int,
             total': nat, g': Record, log': seq<Record>)
    requires board.Length == one.Length == two.Length == 1083 && board != one && board != two && one != two &&
             n == Iterations
    requires Known(AtLoopTop(tree1, tree2, board[..], one[..], two[..], player, total, done, g, root))
    requires g.number == total && forall k :: k > 0 ==> root(k) > 0.0
    modifies board, two, ReprOf(tree1), ReprOf(tree2)
    ensures one'.Length == two'.Length == 1083 && ((one', two') == (one, two) || (one', two') == (two, one))
    ensures log' == (if done then log + [g] else log) && total' == (if done then total + 1 else total)
    ensures IsRecord(g) && g'.before == (if done then Held(g) else g.before) && g'.number == total'
    ensures |g'.moves| + (if done' then 1 else 0) == (if done then 0 else |g.moves|) + 1
    ensures Known(AtLoopTop(tree1', tree2', board[..], one'[..], two'[..], player', total', done', g', root))
    ensures fresh(ReprOf(tree1') + ReprOf(tree2') - old(ReprOf(tree1) + ReprOf(tree2)))
  {
    hide IsRecord, Standing, InPlay, Stopped, Start, Held, Buffers, AllSearched, TreesFollow;
    AtLoopTopFacts(tree1, tree2, board[..], one[..], two[..], player, total, done, g, root);
    tree1', tree2', player', total', g', log' := tree1, tree2, player, total, g, log;
    if done {
      tree1', tree2', g' := NextGame(tree1, tree2, board, one, two, g, root);
      log' := log + [g];
      total' := total + 1;
      player' := 1;
    }
    tree1', tree2', one', two', done', g' :=
      TakeTurn(tree1', tree2', board, one, two, player', total', n, root, g');
    player' := if done' then player' else -player';
  }

  /** `self_go`, run for any number of turns of its endless loop: every game it plays is a record of checked plies,
      and the tree assertion of `run_mcts` holds throughout. */
  method SelfGo(turns: nat, root: nat -> real)
    returns (board: array<Bit>, tree1: MctsTree?, tree2: MctsTree?, total: nat, done: bool, log: seq<Record>)
    requires forall k :: k > 0 ==> root(k) > 0.0
    ensures |log| == total + 1 && AllGames(log, root) && forall j :: 0 <= j <= total ==> Sound(log[j])
    ensures turns == Plies(log) + total + if done then 1 else 0
    ensures var g := log[total];
            AllSearched(g, root) && board[..] == g.positions[|g.moves|] && (done <==> g.last.Some?) &&
            (!done ==> TreesFollow(ToMove(tree1, tree2, total, Mover(|g.moves|)),
                                   Waiting(tree1, tree2, total, Mover(|g.moves|)), g))
  {
    hide AllSearched, AllGames, FollowsOn, Sound, TreesFollow, AtBoard, Standing, AtLoopTop, InPlay, IsRecord, Stopped,
         Start, Blank, Held, Plies;
    tree1, tree2 := null, null;
    var one, two;
    board, one, two := NewBoards();
    var player, mctsIters := 1, Iterations;
    done, total, log := false, 0, [];
    var g := NewRecord(0, (Start(), Start()));
    FirstGame(one[..], two[..], root);
    for turn := 0 to turns
      invariant board.Length == one.Length == two.Length == 1083 && board != one && board != two && one != two
      invariant fresh(board) && fresh(one) && fresh(two) && fresh(ReprOf(tree1) + ReprOf(tree2))
      invariant Known(AllGames(log, root)) && Known(FollowsOn(log, g)) && |log| == total == g.number
      invariant turn == Plies(log) + |g.moves| + total + if done then 1 else 0
      invariant Known(AtLoopTop(tree1, tree2, board[..], one[..], two[..], player, total, done, g, root))
    {
      AtLoopTopFacts(tree1, tree2, board[..], one[..], two[..], player, total, done, g, root);
      OneMoreGame(log, g, root);
      ghost var g0, log0 := g, log;
      tree1, tree2, one, two, done, player, total, g, log :=
        LoopBody(tree1, tree2, board, one, two, done, player, total, mctsIters, root, g, log);
      FollowsStill(log0, g0, log, g);
    }
    AtLoopTopFacts(tree1, tree2, board[..], one[..], two[..], player, total, done, g, root);
    OneMoreGame(log, g, root);
    log := log + [g];
    GamesSound(log, root);
  }

  /** The stones of all games. */
  function Plies(log: seq<Record>): nat {
    if log == [] then 0 else Plies(log[..|log| - 1]) + |log[|log| - 1].moves|
  }

  /** The record of a game that is about to begin. */
  function NewRecord(number: nat, before: (Position, Position)): Record {
    Record(number, before, [Start()], [], [], [(None, None)], None)
  }

  /** A game begins when the one before it has ended, with what that has left in the buffers; the first one begins with
      blank boards. */
  ghost predicate FollowsOn(log: seq<Record>, g: Record) {
    g.number == |log| &&
    if log == [] then g.before == (Start(), Start())
    else
      var last := log[|log| - 1];
      IsRecord(last) && last.last.Some? && g.before == Held(last)
  }

  ghost predicate AllGames(log: seq<Record>, root: nat -> real) {
    forall j :: 0 <= j < |log| ==> AllSearched(log[j], root) && FollowsOn(log[..j], log[j])
  }

  lemma {:induction false} GamesSound(log: seq<Record>, root: nat -> real)
    requires AllGames(log, root)
    ensures forall j :: 0 <= j < |log| ==> Sound(log[j])
  {
    hide Sound, Searched;
    forall j | 0 <= j < |log| ensures Sound(log[j]) { SearchedIsSound(log[j], root); }
  }

  lemma {:induction false} OneMoreGame(log: seq<Record>, g: Record, root: nat -> real)
    ensures AllGames(log, root) && FollowsOn(log, g) && AllSearched(g, root) ==> AllGames(log + [g], root)
    ensures Plies(log + [g]) == Plies(log) + |g.moves|
  {
    hide AllSearched, FollowsOn;
    assert (log + [g])[..|log|] == log;
    forall j | 0 <= j < |log| ensures (log + [g])[..j] == log[..j] {}
  }

  lemma {:induction false} FollowsStill(log0: seq<Record>, g0: Record, log: seq<Record>, g: Record)
    requires IsRecord(g0)
    ensures log == log0 && g.before == g0.before && g.number == g0.number && FollowsOn(log0, g0) ==> FollowsOn(log, g)
    ensures log == log0 + [g0] && g0.last.Some? && g.before == Held(g0) && g.number == |log| ==> FollowsOn(log, g)
  {}

  lemma {:induction false} AtLoopTopFacts(tree1: MctsTree?, tree2: MctsTree?, board: Position, one: Position,
                                          two: Position, player: int, total: nat, done: bool, g: Record,
                                          root: nat -> real)
    ensures AtLoopTop(tree1, tree2, board, one, two, player, total, done, g, root) ==>
              && Standing(board, one, two, g, root) && AllSearched(g, root) && IsRecord(g)
              && board == g.positions[|g.moves|] && Buffers(one, two, g) && (done <==> g.last.Some?)
              && (done ==> Stopped(tree1) && Stopped(tree2))
              && (!done ==>
                  player == Mover(|g.moves|) &&
                  TreesFollow(ToMove(tree1, tree2, total, player), Waiting(tree1, tree2, total, player), g) &&
                  InPlay(ToMove(tree1, tree2, total, player), Waiting(tree1, tree2, total, player), board, one, two,
                          player, g, root))
  {
    hide Searched, IsPly, TreesFollow, Buffers, Start, Ended;
  }

  /** The three boards of `self_go`: an empty one turned to the first player, and two blank buffers. */
  method NewBoards() returns (board: array<Bit>, one: array<Bit>, two: array<Bit>)
    ensures fresh(board) && fresh(one) && fresh(two) && board != one && board != two && one != two
    ensures board.Length == one.Length == two.Length == 1083
    ensures board[..] == Start() && one[..] == Blank() && two[..] == Blank()
  {
    board := new Bit[1083](_ => 0);
    FlipBlank(board[..]);
    FlipBoard(board);
    one := new Bit[1083](_ => 0);
    two := new Bit[1083](_ => 0);
    FlipBlank(one[..]);
    FlipBlank(two[..]);
  }

  lemma {:induction false} StoppedIsTidy(t: MctsTree?)
    ensures Stopped(t) && t != null ==> Tidy(t)
  {
    if Stopped(t) && t != null { ValidIsTidy(t); }
  }

  /** The reset between games: both trees are released, the board is cleared and turned to the first player. */
  method ClearGame(tree1: MctsTree?, tree2: MctsTree?, board: array<Bit>)
    returns (t: MctsTree?, u: MctsTree?, ghost freed: multiset<MctsTree>)
    requires board.Length == 1083 && Known(Stopped(tree1)) && Known(Stopped(tree2))
    requires (tree1 != null ==> Tidy(tree1)) && (tree2 != null ==> Tidy(tree2))
    modifies board
    ensures t == u == null && board[..] == Start() && freed == old(AllOf(tree1)) + old(AllOf(tree2))
  {
    hide AllOf, Tidy;
    ghost var freed1, freed2;
    t, freed1 := MoveMcts(tree1, -1);
    u, freed2 := MoveMcts(tree2, -1);
    freed := freed1 + freed2;
    forall i | 0 <= i < 1083 { board[i] := 0; }
    FlipBlank(board[..]);
    FlipBoard(board);
  }

  /** The arm of the loop that begins another game. */
  method NextGame(tree1: MctsTree?, tree2: MctsTree?, board: array<Bit>, one: array<Bit>, two: array<Bit>, g: Record,
                  root: nat -> real)
    returns (t: MctsTree?, u: MctsTree?, g': Record)
    requires board.Length == one.Length == two.Length == 1083 && board != one && board != two
    requires Known(Stopped(tree1)) && Known(Stopped(tree2)) && IsRecord(g) && Known(Buffers(one[..], two[..], g))
    modifies board
    ensures t == u == null && g' == NewRecord(g.number + 1, Held(g))
    ensures Known(InPlay(t, u, board[..], one[..], two[..], 1, g', root))
  {
    g' := NewRecord(g.number + 1, Held(g));
    hide Stopped, IsRecord, Buffers, Start, Held, InPlay, AllOf, Tidy;
    StoppedIsTidy(tree1);
    StoppedIsTidy(tree2);
    ghost var freed;
    t, u, freed := ClearGame(tree1, tree2, board);
    NewGame(g, one[..], two[..], root);
  }

  lemma {:induction false} FlipBlank(b: Position)
    ensures (forall i :: 0 <= i < 1083 ==> b[i] == 0) ==> b == Blank() && Flipped(b) == Start()
  {
    if forall i :: 0 <= i < 1083 ==> b[i] == 0 { assert b == Blank(); }
  }

  lemma {:induction false} NewGame(last: Record, one: Position, two: Position, root: nat -> real)
    requires IsRecord(last)
    ensures Buffers(one, two, last) ==>
              InPlay(null, null, Start(), one, two, 1, NewRecord(last.number + 1, Held(last)), root)
  {
    var n := |last.moves|;
    PositionFacts(last, n);
    if n >= 2 { PositionFacts(last, n - 1); }
  }

  lemma {:induction false} FirstGame(one: Position, two: Position, root: nat -> real)
    requires one == two == Blank()
    ensures var g := NewRecord(0, (Start(), Start()));
            AllGames([], root) && FollowsOn([], g) && Plies([]) == 0 &&
            AtLoopTop(null, null, Start(), one, two, 1, 0, false, g, root)
  {}
}
