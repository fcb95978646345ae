/** Whole games as values: what a record of plies guarantees. */
module GameRecord {
  import opened Grid
  import opened Board
  import opened Moves
  import opened Rules
  import opened Capture
  import opened Survival
  import opened Symmetry
  import opened SearchStats
  import opened Simulations

  /** The stones played from the start, the positions between them (first player's planes first), and for each stone the
      root of the search it was sampled from; in `last` that of the pass that ended the game. `trees` are the roots of
      the mover's tree and of the other one, as far as there are any, before each ply and after the last. `before` are
      the positions in the buffers `two` and `one` when the game begins, `number` says how many games came before. */
  datatype Record = Record(number: nat, before: (Position, Position), positions: seq<Position>, moves: seq<nat>,
                           nodes: seq<Stats>, trees: seq<(Option<Stats>, Option<Stats>)>, last: Option<Stats>)

  function Blank(): Position { seq(1083, _ => 0) }

  /** `flip_board` of a cleared board: no stones, turn plane all ones. */
  function Start(): Position { Flipped(Blank()) }

  function Mover(k: nat): int { if k % 2 == 0 then 1 else -1 }

  ghost predicate IsRecord(g: Record) {
    && |g.positions| == |g.trees| == |g.moves| + 1 && |g.nodes| == |g.moves| && g.trees[0] == (None, None)
    && g.positions[0] == Start() && Absolute(g.before.0) == g.before.0 && Absolute(g.before.1) == g.before.1
    && forall k :: 0 <= k < |g.moves| ==> IsPly(g, k)
  }

  ghost predicate IsPly(g: Record, k: nat)
    requires |g.positions| == |g.moves| + 1 && k < |g.moves|
  {
    g.moves[k] < 361 && Occupied(g.positions[k], g.moves[k]) == 0
    && g.positions[k + 1] == Moved(g.positions[k], Mover(k), g.moves[k])
  }

  /** The position that the search of ply `k` is given to avoid. The buffers are not cleared between games, so the first
      two plies of a game are given positions of the game before. */
  function KoAt(g: Record, k: nat): Position
    requires k <= |g.positions|
  {
    if k == 0 then g.before.0 else if k == 1 then g.before.1 else g.positions[k - 1]
  }

  /** The positions in the buffers `two` and `one` after the last ply. */
  function Held(g: Record): (Position, Position)
    requires |g.positions| == |g.moves| + 1
  {
    var n := |g.moves|;
    (KoAt(g, n), if n == 0 then g.before.1 else g.positions[n])
  }

  /** The stone of ply `k` passes `legal_go` against `ko`. */
  ghost predicate Passes(g: Record, k: nat, ko: Position)
    requires IsRecord(g) && k < |g.moves|
  {
    assert IsPly(g, k);
    Legal(g.positions[k], Some(ko), Mover(k), g.moves[k])
  }

  /** The sampled edge of ply `k` has a child. */
  predicate Kept(g: Record, k: nat)
    requires k < |g.moves| == |g.nodes|
  {
    g.moves[k] < |g.nodes[k].has| && g.nodes[k].has[g.moves[k]]
  }

  /** How many simulations a search of `self_go` is given. */
  const Iterations: nat := 500

  /** The exploration weight at ply `k`: the two networks take turns in beginning a game, and the first one has 5. */
  function CpuctAt(g: Record, k: nat): real { if (g.number + k) % 2 == 0 then 5.0 else 1.0 }

  /** Edge `i` was sampled at this node after a search, which stands at `view` and whose moves were checked against
      `kos`. */
  ghost predicate Sampled(node: Stats, view: Position, i: int, kos: set<Option<Position>>)
    requires 0 <= i < 362
  {
    && NodeOk(node) && node.board == view && node.kos == kos && !node.done && !node.pass
    && node.visits[i] > 0 && (node.has[i] && i < 361 ==> Accepted(node, i))
  }

  /** A search begins at a fresh node with some answer of the network, or where the tree at hand stands. */
  ghost predicate Begins(tree: Option<Stats>, view: Position, ko: Option<Position>, start: Stats) {
    match tree
    case None => exists pred: Prediction :: pred.Ok() && start == StatsOf(view, ko, pred)
    case Some(s) => start == s.(kos := s.kos + {ko})
  }

  /** `node` is what a search of `n` simulations makes of the tree at hand. */
  ghost predicate ComesOf(tree: Option<Stats>, view: Position, ko: Option<Position>, node: Stats, n: nat, cpuct: real,
                          root: nat -> real)
  {
    exists start :: Begins(tree, view, ko, start) && SearchLeads(start, node, ko, n, cpuct, root)
  }

  /** The root of the subtree that remains of a tree after move `i`: there is one exactly when the edge has a child. */
  ghost predicate ChildOf(tree: Option<Stats>, i: int, child: Option<Stats>)
    requires 0 <= i < 362
  {
    && (child.Some? <==> tree.Some? && Sized(tree.value) && tree.value.has[i])
    && (child.Some? ==> EdgeOk(tree.value, i, child.value))
  }

  /** Both trees follow move `i`, and change roles. */
  ghost predicate TreesStep(trees: (Option<Stats>, Option<Stats>), node: Stats, i: int,
                            next: (Option<Stats>, Option<Stats>))
    requires 0 <= i < 362
  {
    ChildOf(trees.1, i, next.0) && ChildOf(Some(node), i, next.1)
  }

  /** Edge `i` was sampled from a search of the position before ply `k`, made in the mover's tree, which avoided the
      position in the buffer. */
  ghost predicate Thought(g: Record, k: nat, i: nat, node: Stats, root: nat -> real)
    requires k < |g.positions| == |g.trees| && i < 362
  {
    && Sampled(node, View(g.positions[k], Mover(k)), i, node.kos)
    && (forall o :: o in node.kos ==> SameKo(o, Some(KoAt(g, k))))
    && exists ko :: SameKo(ko, Some(KoAt(g, k))) &&
                    ComesOf(g.trees[k].0, View(g.positions[k], Mover(k)), ko, node, Iterations, CpuctAt(g, k), root)
  }

  /** The stone of ply `k` was sampled from a search, and both trees followed it. */
  ghost predicate Searched(g: Record, k: nat, root: nat -> real)
    requires k < |g.moves| == |g.nodes| && |g.positions| == |g.trees| == |g.moves| + 1
  {
    && g.moves[k] < 361 && Thought(g, k, g.moves[k], g.nodes[k], root)
    && TreesStep(g.trees[k], g.nodes[k], g.moves[k], g.trees[k + 1])
  }

  /** The search of a ply, spelled out: from where the mover's tree stands, up to 500 simulations, with weight 5 for
      the player who begins the games of even number, and 1 for the other. */
  lemma {:induction false} SearchOfPly(g: Record, k: nat, root: nat -> real)
    returns (ko: Option<Position>, trace: seq<Stats>)
    requires IsRecord(g) && k < |g.moves| && Searched(g, k, root)
    ensures SameKo(ko, Some(KoAt(g, k))) && IsRun(trace, ko, 500, if (g.number + k) % 2 == 0 then 5.0 else 1.0, root)
    ensures Begins(g.trees[k].0, View(g.positions[k], Mover(k)), ko, trace[0])
    ensures trace[|trace| - 1] == g.nodes[k] && (|trace| == 501 || Reached(g.nodes[k], 500))
  {
    hide IsRun, Begins, SameKo, Sampled, Reached, TreesStep, View, IsPly, Start, Absolute, SearchLeads;
    var view := View(g.positions[k], Mover(k));
    ko :| SameKo(ko, Some(KoAt(g, k))) &&
          ComesOf(g.trees[k].0, view, ko, g.nodes[k], Iterations, CpuctAt(g, k), root);
    var start :| Begins(g.trees[k].0, view, ko, start) &&
                 SearchLeads(start, g.nodes[k], ko, Iterations, CpuctAt(g, k), root);
    trace := LedBy(start, g.nodes[k], ko, Iterations, CpuctAt(g, k), root);
  }

  /** The pass that ended the game, if it has ended, was sampled from a search, too. */
  ghost predicate Ended(g: Record, root: nat -> real)
    requires |g.positions| == |g.trees| == |g.moves| + 1
  {
    g.last.Some? ==> Thought(g, |g.moves|, 361, g.last.value, root)
  }

  lemma {:induction false} PositionFacts(g: Record, k: nat)
    requires IsRecord(g) && k < |g.positions|
    ensures NoDouble(g.positions[k]) && Uniform(g.positions[k]) && g.positions[k][722] == 1
    ensures Absolute(g.positions[k]) == g.positions[k]
  {
    if k > 0 {
      PositionFacts(g, k - 1);
      assert IsPly(g, k - 1);
      MoveExact(g.positions[k - 1], Mover(k - 1), g.moves[k - 1]);
    }
  }

  /** The stone of ply `k` leaves its own chain without a liberty. */
  ghost predicate Suicide(g: Record, k: nat)
    requires |g.positions| == |g.moves| + 1 && k < |g.moves|
  {
    g.moves[k] < 361 && Liberties(g.positions[k + 1], g.moves[k]) == {}
  }

  /** Ply `k` is no suicide and does not restore the position of two plies before. */
  ghost predicate Proper(g: Record, k: nat)
    requires |g.positions| == |g.moves| + 1 && k < |g.moves|
  {
    !Suicide(g, k) && (k >= 1 ==> g.positions[k + 1] != g.positions[k - 1])
  }

  /** Passing `legal_go` in terms of the positions of the game. */
  lemma {:induction false} PassesExact(g: Record, k: nat, ko: Position)
    requires IsRecord(g) && k < |g.moves| && Absolute(ko) == ko
    ensures Passes(g, k, ko) <==> !Suicide(g, k) && g.positions[k + 1] != ko
  {
    assert IsPly(g, k);
    PositionFacts(g, k + 1);
    SuicideExact(g.positions[k], Mover(k), g.moves[k]);
    KoIsAbsolute(g.positions[k + 1], ko);
    hide Moved, Liberties, SameView, Suicidal;
  }

  /** No ply restores the empty board. */
  lemma {:induction false} NotStart(g: Record, k: nat)
    requires IsRecord(g) && k < |g.moves|
    ensures g.positions[k + 1] != Start()
  {
    assert IsPly(g, k);
    MoveExact(g.positions[k], Mover(k), g.moves[k]);
    assert Occupied(g.positions[k + 1], g.moves[k]) == Mover(k);
    assert Occupied(Start(), g.moves[k]) == 0;
  }

  /** The first game of a run, which begins with blank buffers. */
  predicate FirstOfRun(g: Record) { g.before.0 == Start() && g.before.1 == Start() }

  /** What a child on the sampled edge means: the ply is proper, and avoids the position in the buffer, which only at
      the first two plies of a later game is any other than that of two plies before. */
  ghost predicate KeptExactly(g: Record, k: nat)
    requires |g.positions| == |g.moves| + 1 && |g.nodes| == |g.moves| && k < |g.moves|
  {
    && (Kept(g, k) <==> Proper(g, k) && (k < 2 ==> g.positions[k + 1] != KoAt(g, k)))
    && (FirstOfRun(g) ==> (Kept(g, k) <==> Proper(g, k)))
  }

  /** A child on the sampled edge was accepted, and an edge sampled without one was refused, by one of the boards the
      node's moves were checked against. */
  lemma {:induction false} SampledLegal(node: Stats, view: Position, i: int, kos: set<Option<Position>>)
    returns (o: Option<Position>)
    requires Cell(i) && Sampled(node, view, i, kos)
    ensures o in kos && (node.has[i] <==> Legal(view, o, 1, i))
  {
    if node.has[i] {
      o :| o in kos && Legal(view, o, 1, i);
    } else {
      assert Dead(node, i);
      o :| o in kos && !Legal(view, o, 1, i);
    }
  }

  /** What these boards say in the mover's view, they say of the board itself and the position in the buffer. */
  lemma {:induction false} CheckSeen(g: Record, k: nat, root: nat -> real)
    requires IsRecord(g) && k < |g.moves| && Searched(g, k, root)
    ensures Kept(g, k) <==> Passes(g, k, KoAt(g, k))
  {
    var b, p, i := g.positions[k], Mover(k), g.moves[k];
    assert IsPly(g, k);
    PositionFacts(g, k);
    var o := SampledLegal(g.nodes[k], View(b, p), i, g.nodes[k].kos);
    hide Legal, View, NodeOk, IsPly, Accepted, ComesOf, TreesStep;
    LegalView(b, o, p, i);
    SameKoSameLegal(b, o, Some(KoAt(g, k)), p, i);
  }

  lemma {:induction false} KeptIsProper(g: Record, k: nat, root: nat -> real)
    requires IsRecord(g) && k < |g.moves| && Searched(g, k, root)
    ensures KeptExactly(g, k)
  {
    hide Passes, Suicide, IsPly, Start, Searched, Kept, SameKo, Absolute;
    PassesAt(g, k);
    CheckSeen(g, k, root);
  }

  /** Passing against the buffer, and what avoiding it has to do with the position of two plies before. */
  lemma {:induction false} PassesAt(g: Record, k: nat)
    requires IsRecord(g) && k < |g.moves|
    ensures Passes(g, k, KoAt(g, k)) <==> !Suicide(g, k) && g.positions[k + 1] != KoAt(g, k)
    ensures g.positions[k + 1] != Start() && g.positions[0] == Start() && (k >= 2 ==> KoAt(g, k) == g.positions[k - 1])
  {
    hide Passes, Suicide, IsPly, Start;
    if k >= 2 { PositionFacts(g, k - 1); }
    NotStart(g, k);
    PassesExact(g, k, KoAt(g, k));
  }

  lemma {:induction false} StartAlive()
    ensures AllAlive(Start())
  {
    assert forall i :: Cell(i) ==> Occupied(Start(), i) == 0;
  }

  lemma {:induction false} PlyAlive(g: Record, k: nat)
    requires IsRecord(g) && k < |g.moves|
    ensures AllAlive(g.positions[k]) ==> (AllAlive(g.positions[k + 1]) <==> !Suicide(g, k))
  {
    assert IsPly(g, k);
    hide AllAlive, Liberties, Suicidal, Moved;
    if AllAlive(g.positions[k]) {
      AliveIffNotSuicide(g.positions[k], Mover(k), g.moves[k]);
      SuicideExact(g.positions[k], Mover(k), g.moves[k]);
    }
  }

  ghost predicate AliveThrough(g: Record, n: nat)
    requires n < |g.positions|
  {
    forall k :: 0 <= k <= n ==> AllAlive(g.positions[k])
  }

  /** Every position up to the `n`th is without dead chains exactly when no ply before it is a suicide. */
  lemma {:induction false} NoDeadChains(g: Record, n: nat)
    requires IsRecord(g) && n < |g.positions|
    ensures AliveThrough(g, n) <==> (forall k :: 0 <= k < n ==> !Suicide(g, k))
  {
    hide AllAlive, Suicide, Start;
    if n == 0 {
      StartAlive();
    } else {
      NoDeadChains(g, n - 1);
      PlyAlive(g, n - 1);
    }
  }

  /** What the rules promise of a game. */
  ghost predicate Sound(g: Record) {
    && IsRecord(g)
    && (forall k :: 0 <= k < |g.moves| ==> KeptExactly(g, k))
    && forall n :: 0 <= n < |g.positions| ==>
         (AliveThrough(g, n) <==> forall k :: 0 <= k < n ==> !Suicide(g, k))
  }

  lemma {:induction false} SearchedIsSound(g: Record, root: nat -> real)
    requires IsRecord(g) && forall k :: 0 <= k < |g.moves| ==> Searched(g, k, root)
    ensures Sound(g)
  {
    hide AllAlive, Searched, IsPly, Start, KeptExactly, Suicide;
    forall k | 0 <= k < |g.moves| ensures KeptExactly(g, k) { KeptIsProper(g, k, root); }
    forall n | 0 <= n < |g.positions|
      ensures AliveThrough(g, n) <==> (forall k :: 0 <= k < n ==> !Suicide(g, k))
    {
      NoDeadChains(g, n);
    }
  }

  /** The next board from the other side is what the mover's view leads to. */
  lemma {:induction false} ViewAfter(b: Position, player: int, i: int)
    requires Cell(i) && Occupied(b, i) == 0 && NoDouble(b) && (player == 1 || player == -1)
    ensures After(View(b, player), i) == View(Moved(b, player, i), -player)
  {
    if player == -1 { MoveSymmetric(b, i); }
  }

  lemma {:induction false} LegalView(b: Position, ko: Option<Position>, player: int, i: int)
    requires Cell(i) && NoDouble(b) && (player == 1 || player == -1)
    ensures Legal(View(b, player), ko, 1, i) <==> Legal(b, ko, player, i)
  {
    if player == -1 { LegalSymmetric(b, ko, i); }
  }

  function Extended(g: Record, b: Position, i: nat, node: Stats, next: (Option<Stats>, Option<Stats>)): Record {
    g.(positions := g.positions + [b], moves := g.moves + [i], nodes := g.nodes + [node], trees := g.trees + [next])
  }

  lemma {:induction false} ExtendedIsRecord(g: Record, i: nat, node: Stats, next: (Option<Stats>, Option<Stats>))
    requires IsRecord(g) && i < 361 && Occupied(g.positions[|g.moves|], i) == 0
    ensures IsRecord(Extended(g, Moved(g.positions[|g.moves|], Mover(|g.moves|), i), i, node, next))
  {
    var h := Extended(g, Moved(g.positions[|g.moves|], Mover(|g.moves|), i), i, node, next);
    hide Moved, Start;
    forall j | 0 <= j < |h.moves| ensures IsPly(h, j) { if j < |g.moves| { assert IsPly(g, j); } }
  }

  /** The boards that a ply's search checks against: the buffer, and from the third ply on perhaps the position of
      the ply before, which is the same. */
  lemma {:induction false} KosAgree(g: Record, two: Position, kos: set<Option<Position>>, o: Option<Position>)
    requires IsRecord(g) && Absolute(two) == Held(g).0 && o in {Some(two)} + kos && KosOk(g, kos)
    ensures SameKo(o, Some(KoAt(g, |g.moves|)))
  {
    var k := |g.moves|;
    hide NoDouble, Uniform, IsPly, Start, FlippedUpTo;
    if k >= 2 {
      PositionFacts(g, k - 1);
      FlipFacts(g.positions[k - 1]);
      assert KoAt(g, k) == g.positions[k - 1];
    }
  }

  /** What the mover's tree has been checked against before its turn: nothing at the first two plies, for it is not
      there yet. */
  ghost predicate KosOk(g: Record, kos: set<Option<Position>>)
    requires IsRecord(g)
  {
    var k := |g.moves|;
    if k <= 1 then kos == {} else kos <= {Some(View(g.positions[k - 1], Mover(k - 1)))}
  }

  /** What the search for a ply has to show: it was made in the mover's tree against the buffer `two`, and edge `i` was
      sampled from it. */
  ghost predicate Searches(g: Record, i: nat, node: Stats, two: Position, kos: set<Option<Position>>, root: nat -> real)
    requires IsRecord(g) && i < 362
  {
    var k := |g.moves|;
    var view := View(g.positions[k], Mover(k));
    && Sampled(node, view, i, {Some(two)} + kos) && KosOk(g, kos)
    && ComesOf(g.trees[k].0, view, Some(two), node, Iterations, CpuctAt(g, k), root)
  }

  lemma {:induction false} SearchesIsThought(g: Record, i: nat, node: Stats, two: Position,
                                             kos: set<Option<Position>>, root: nat -> real)
    requires IsRecord(g) && i < 362 && Absolute(two) == Held(g).0 && Searches(g, i, node, two, kos, root)
    ensures Thought(g, |g.moves|, i, node, root)
  {
    assert node.kos == {Some(two)} + kos;
    hide ComesOf, NodeOk, Accepted, SameKo, IsPly, KosOk, Absolute, View;
    forall o | o in node.kos ensures SameKo(o, Some(KoAt(g, |g.moves|))) { KosAgree(g, two, kos, o); }
    assert Some(two) in node.kos;
  }

  lemma {:induction false} ViewEmpty(g: Record, i: int)
    requires IsRecord(g) && Cell(i)
    ensures Occupied(View(g.positions[|g.moves|], Mover(|g.moves|)), i) == 0 <==>
              Occupied(g.positions[|g.moves|], i) == 0
  {
    PositionFacts(g, |g.moves|);
    FlipFacts(g.positions[|g.moves|]);
  }

  /** A sampled stone extends the record by a searched ply. */
  lemma {:induction false} ExtendRecord(g: Record, i: nat, node: Stats, two: Position, kos: set<Option<Position>>,
                                        next: (Option<Stats>, Option<Stats>), root: nat -> real)
    requires IsRecord(g) && i < 361 && Absolute(two) == Held(g).0 && Searches(g, i, node, two, kos, root)
    requires Occupied(View(g.positions[|g.moves|], Mover(|g.moves|)), i) == 0
    requires TreesStep(g.trees[|g.moves|], node, i, next)
    ensures var k := |g.moves|;
            Occupied(g.positions[k], i) == 0 &&
            var h := Extended(g, Moved(g.positions[k], Mover(k), i), i, node, next);
            IsRecord(h) && Searched(h, k, root)
  {
    hide Moved, Flipped, FlippedUpTo, NoDouble, Uniform, IsPly, SameKo, Occupied, Sampled, Start, Absolute, ComesOf,
         TreesStep, Searches, View;
    var k := |g.moves|;
    SearchesIsThought(g, i, node, two, kos, root);
    ViewEmpty(g, i);
    ExtendedIsRecord(g, i, node, next);
    var h := Extended(g, Moved(g.positions[k], Mover(k), i), i, node, next);
    assert h.positions[k] == g.positions[k] && KoAt(h, k) == KoAt(g, k) && h.trees[k] == g.trees[k];
  }

  /** What earlier plies were sampled from does not change. */
  lemma {:induction false} SearchedStays(g: Record, h: Record, k: nat, root: nat -> real)
    requires IsRecord(g) && IsRecord(h) && k < |g.moves| && Searched(g, k, root) && g.before == h.before
    requires g.number == h.number && g.positions <= h.positions && g.moves <= h.moves && g.nodes <= h.nodes &&
             g.trees <= h.trees
    ensures k < |h.moves| && Searched(h, k, root)
  {
    hide Sampled, SameKo, View, ComesOf, TreesStep;
    assert KoAt(h, k) == KoAt(g, k);
  }
}
