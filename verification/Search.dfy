/** The search tree: `expand` and `select_mcts` on linked, mutable nodes. */
module Search {
  import opened Grid
  import opened Board
  import opened Moves
  import opened Rules
  import opened SearchStats
  import opened Retries
  import opened Simulations

  class MctsTree {
    /** The node's record: board, priors, counters, flags, and which edges have a child. */
    var s: Stats
    /** The scratch buffer of selection scores. */
    var prob: seq<real>
    var children: seq<MctsTree?>
    ghost var Repr: set<MctsTree>

    /** Children sit exactly where the record says, in separate subtrees below this node. */
    ghost predicate Linked()
      reads this, Repr
    {
      && this in Repr && |prob| == |children| == |s.has| == 362
      && (forall i :: 0 <= i < 362 ==> (s.has[i] <==> children[i] != null))
      && (forall i :: 0 <= i < 362 && children[i] != null ==>
           children[i] in Repr && children[i] in children[i].Repr && children[i].Repr <= Repr &&
           this !in children[i].Repr)
      && (forall i, j :: 0 <= i < j < 362 && children[i] != null && children[j] != null ==>
           children[i].Repr !! children[j].Repr)
    }

    ghost predicate Valid()
      reads this, Repr
      ensures Valid() ==> this in Repr && NodeOk(s) && |children| == 362
      decreases Repr
    {
      && Linked() && NodeOk(s)
      && forall i :: 0 <= i < 362 && children[i] != null ==> children[i].Valid() && EdgeOk(s, i, children[i].s)
    }

    /** The subtree under edge `i`. */
    ghost function Under(i: int): set<MctsTree>
      requires 0 <= i < |children|
      reads this, children[i]
    {
      if children[i] != null then children[i].Repr else {}
    }

    /** `expand`: a fresh node for `next`, with the network's priors; occupied points are ruled out. */
    constructor Expand(next: Position, koBoard: Option<Position>, pred: Prediction)
      requires NoDouble(next) && Uniform(next) && pred.Ok()
      ensures Valid() && fresh(Repr) && Repr == {this}
      ensures s == StatsOf(next, koBoard, pred)
    {
      s := StatsOf(next, koBoard, pred);
      children := seq(362, _ => null);
      prob := seq(362, _ => 0.0);
      Repr := {this};
      new;
      ExpandedOk(next, koBoard, pred);
    }

    /** The argmax loop of `select_mcts`: the first edge of highest score. A ruled-out edge scores exactly -1 and the
        pass more, so the choice is live. */
    method Choose(root: nat -> real, cpuct: real) returns (maxI: nat)
      requires Valid() && cpuct > 0.0 && root(s.total) > 0.0
      modifies this`prob
      ensures Valid() && maxI < 362 && IsChoice(s, cpuct, root(s.total), maxI) && maxI in SearchStats.Live(s)
      ensures forall j :: 0 <= j < 362 ==> prob[j] == ScoreOf(s, cpuct, root(s.total), j)
    {
      var max := -1000.0;
      maxI := 0;
      hide EdgeOk;
      for i := 0 to 362
        invariant |prob| == 362 && 0 <= maxI < 362
        invariant forall j :: 0 <= j < i ==> prob[j] == ScoreOf(s, cpuct, root(s.total), j)
        invariant i > 0 ==> maxI < i && max == prob[maxI]
        invariant i == 0 ==> max == -1000.0
        invariant forall j :: 0 <= j < i ==> prob[j] <= max && (j < maxI ==> prob[j] < max)
      {
        if i == 0 { ScoreBound(s.mean[0], s.prior[0], cpuct, root(s.total), s.visits[0]); }
        prob := prob[i := Score(s.mean[i], s.prior[i], cpuct, root(s.total), s.visits[i])];
        if prob[i] > max {
          max := prob[i];
          maxI := i;
        }
      }
      BestIsLive(s, cpuct, root(s.total), prob, maxI);
    }

    /** Only this node, edge `i` and the subtree under it were touched; new nodes are fresh. */
    twostate predicate TouchedOnly(i: int)
      requires 0 <= i < 362
      reads this, Repr, if |children| == 362 && children[i] != null then {children[i]} else {}
    {
      && |children| == |old(children)| == |prob| == 362
      && (forall j :: 0 <= j < 362 && j != i ==> children[j] == old(children[j]))
      && (forall o :: o in Under(i) ==> o in old(Under(i)) || !old(allocated(o)))
      && this !in Under(i) && (children[i] != null ==> children[i] in Under(i))
      && Repr == old(Repr) + Under(i)
      && (forall o :: o in old(Repr) && o != this && o !in old(Under(i)) ==> unchanged(o))
    }

    /** All other edges, and the nodes that are not under edge `i`, are as they were; a child that was there stays. */
    twostate predicate ElseUnchanged(i: int)
      requires 0 <= i < 362
      reads this, Repr
    {
      && |old(children)| == |children| == 362 && children == old(children)[i := children[i]] && old(Repr) <= Repr
      && (old(children[i]) != null ==> children[i] == old(children[i]))
      && forall o :: o in old(Repr) && o != this && o !in old(Under(i)) ==> unchanged(o)
    }

    /** The record of the child at edge `i`, if there is one. */
    ghost function ChildRecord(i: int): Option<Stats>
      requires 0 <= i < |children|
      reads this, children[i]
    {
      if children[i] == null then None else Some(children[i].s)
    }

    /** What a simulation through edge `i` has done below it: a child was expanded for the position
        that the edge leads to, or a simulation was made in the one that was there. */
    ghost predicate WentDown(i: nat, board: Position, pass: bool, child: Option<Stats>, cpuct: real, root: nat -> real,
                             r: real)
      requires i < 362
      reads this, if i < |children| && children[i] != null then {children[i]} else {}
    {
      && |children| == 362 && children[i] != null
      && match child
         case None => IsExpanded(children[i].s, board, i, pass) && r == children[i].s.result
         case Some(c) => OneSimulation(c, children[i].s, Some(board), cpuct, root, -r)
    }

    twostate lemma {:induction false} LinkedAgain(i: int)
      requires old(Linked()) && 0 <= i < 362 && TouchedOnly(i) && Sized(old(s)) && Sized(s) && SameBut(old(s), s, i)
      requires s.has[i] <==> children[i] != null
      ensures Linked()
    {
      assert forall j :: 0 <= j < 362 && j != i && children[j] != null ==>
        children[j].Repr <= old(Repr) && children[j].Repr !! Under(i);
    }

    twostate lemma {:induction false} SiblingsValid(i: int)
      requires old(Valid()) && 0 <= i < 362 && TouchedOnly(i)
      requires NodeOk(s) && SameBut(old(s), s, i)
      ensures forall j :: 0 <= j < 362 && j != i && children[j] != null ==>
        children[j].Valid() && EdgeOk(s, j, children[j].s)
    {
      assert Sized(old(s)) && Sized(s);
      hide NodeOk, EdgeOk, SameBut, Sized;
      forall j | 0 <= j < 362 && j != i && children[j] != null
        ensures children[j].Valid() && EdgeOk(s, j, children[j].s)
      {
        assert old(children[j].Repr) !! old(Under(i));
        EdgeKept(old(s), s, i, j, children[j].s);
      }
    }

    ghost predicate EdgeRight(i: int)
      requires 0 <= i < 362 && |children| == 362 && Sized(s)
      reads this, Repr, children[i], if children[i] != null then children[i].Repr else {}
    {
      children[i] != null ==> children[i].Valid() && EdgeOk(s, i, children[i].s)
    }

    /** A node is valid again when its own record and edge `i` are right after a touch. */
    twostate lemma {:induction false} ValidAgain(i: int)
      requires old(Valid()) && 0 <= i < 362 && TouchedOnly(i)
      requires Sized(old(s)) && Sized(s) && (s.has[i] <==> children[i] != null)
      ensures NodeOk(s) && SameBut(old(s), s, i) && EdgeRight(i) ==> Valid()
    {
      hide NodeOk, EdgeOk, SameBut, Sized;
      if NodeOk(s) && SameBut(old(s), s, i) {
        LinkedAgain(i);
        SiblingsValid(i);
      }
    }

    /** The board to avoid that the next simulations at this root are given. */
    method AddKo(ko: Option<Position>)
      requires Valid()
      modifies this`s
      ensures Valid() && s == old(s).(kos := old(s.kos) + {ko})
    {
      ghost var d := s;
      s := s.(kos := s.kos + {ko});
      MoreKos(d, s);
    }

    /** One simulation. `r` is what the parent adds to the value of its edge. After `n` retries the selection goes on
        through edge `i`; the record becomes what that makes of it, and only the subtree under that edge changes. */
    method SelectMcts(prev: Option<Position>, root: nat -> real, cpuct: real)
      returns (r: real, ghost n: nat, ghost i: nat)
      requires Valid() && prev in s.kos
      requires cpuct > 0.0 && forall n :: n > 0 ==> root(n) > 0.0
      modifies Repr
      ensures Valid() && fresh(Repr - old(Repr))
      ensures ChildStep(old(s), s, r) && OneSimulation(old(s), s, prev, cpuct, root, r)
      ensures i < 362 == |old(children)| && if old(s.done) then unchanged(old(Repr)) else
                Simulated(old(s), s, prev, cpuct, root(old(s.total)), n, i, r) &&
                ElseUnchanged(i) && WentDown(i, old(s.board), old(s.pass), old(ChildRecord(i)), cpuct, root, r)
      decreases Repr, 2, SearchStats.Live(s), 2
    {
      hide Valid, Linked, NodeOk, EdgeOk, ChildStep, SearchStats.Live, Simulated, WentDown, OneSimulation, IsChoice;
      NodeFacts(prev, cpuct, root);
      if s.done { return -s.result, 0, 0; }
      var maxI := Choose(root, cpuct);
      r, n, i := GoThrough(maxI, prev, root, cpuct);
    }

    /** The selection goes on through the edge that was chosen, or is retried. */
    method GoThrough(maxI: nat, prev: Option<Position>, root: nat -> real, cpuct: real)
      returns (r: real, ghost n: nat, ghost i: nat)
      requires Valid() && prev in s.kos && !s.done
      requires maxI < 362 && IsChoice(s, cpuct, root(s.total), maxI) && maxI in SearchStats.Live(s)
      requires cpuct > 0.0 && forall n :: n > 0 ==> root(n) > 0.0
      modifies Repr
      ensures Valid() && fresh(Repr - old(Repr))
      ensures ChildStep(old(s), s, r) && OneSimulation(old(s), s, prev, cpuct, root, r)
      ensures i < 362 == |old(children)| && Sized(old(s)) &&
              Simulated(old(s), s, prev, cpuct, root(old(s.total)), n, i, r) &&
              ElseUnchanged(i) && WentDown(i, old(s.board), old(s.pass), old(ChildRecord(i)), cpuct, root, r)
      decreases Repr, 2, SearchStats.Live(s), 1
    {
      hide Valid, Linked, NodeOk, EdgeOk, ChildStep, SearchStats.Live, Refused, Accepted, Simulated, WentDown, Legal,
           OneSimulation, IsExpanded, IsChoice, BackedUp, TouchedOnly;
      NodeFacts(prev, cpuct, root);
      ghost var d := s;
      var val;
      n, i := 0, maxI;
      if children[maxI] != null {
        val := Descend(maxI, root, cpuct);
      } else {
        var legal := IsLegal(prev, maxI);
        if !legal {
          r, n, i := Retry(maxI, prev, root, cpuct);
          SimulatedIsOne(d, s, prev, cpuct, root, n, i, r);
          return;
        }
        val := Grow(maxI, root, cpuct);
      }
      r := -val;
      WentOn(d, s, prev, cpuct, root, maxI, val);
    }

    lemma {:induction false} NodeShape()
      requires Valid()
      ensures Sized(s) && NodeOk(s) && this in Repr
    {}

    lemma {:induction false} NodeFacts(prev: Option<Position>, cpuct: real, root: nat -> real)
      requires Valid() && forall n :: n > 0 ==> root(n) > 0.0
      ensures this in Repr && |children| == |prob| == 362 && Sized(s) && root(s.total) > 0.0
      ensures forall i :: 0 <= i < 362 ==> children[i] != this && (s.has[i] <==> children[i] != null)
      ensures s.done ==> ChildStep(s, s, -s.result) && OneSimulation(s, s, prev, cpuct, root, -s.result)
    {}

    /** An illegal selection is ruled out and the selection starts over, with one edge less in play. */
    method Retry(maxI: nat, prev: Option<Position>, root: nat -> real, cpuct: real)
      returns (r: real, ghost n: nat, ghost i: nat)
      requires Valid() && prev in s.kos
      requires maxI < 361 && maxI in SearchStats.Live(s) && children[maxI] == null && Refused(s, maxI)
      requires !s.done && IsChoice(s, cpuct, root(s.total), maxI) && !Legal(s.board, prev, 1, maxI)
      requires cpuct > 0.0 && forall n :: n > 0 ==> root(n) > 0.0
      modifies Repr
      ensures Valid() && fresh(Repr - old(Repr))
      ensures ChildStep(old(s), s, r)
      ensures Simulated(old(s), s, prev, cpuct, root(old(s.total)), n, i, r) && i < 362
      ensures |old(children)| == 362 && ElseUnchanged(i) &&
              WentDown(i, old(s.board), old(s.pass), old(ChildRecord(i)), cpuct, root, r)
      decreases Repr, 2, SearchStats.Live(s), 0
    {
      hide Valid, Linked, NodeOk, EdgeOk, ChildStep, SearchStats.Live, Refused, Simulated, WentDown, Legal,
           OneSimulation, IsChoice, RuledOut;
      ghost var d := s;
      NodeFacts(prev, cpuct, root);
      RetryStats(d, maxI, d, 0.0);
      RuleOut(maxI);
      r, n, i := SelectMcts(prev, root, cpuct);
      RetryStats(d, maxI, s, r);
      OneMoreRetry(d, s, prev, cpuct, root(d.total), n, maxI, i, r);
      n := n + 1;
    }

    /** The pass is always legal; a stone is checked against the board to avoid. */
    method IsLegal(prev: Option<Position>, i: nat) returns (legal: bool)
      requires i < 362 && prev in s.kos
      ensures legal <==> i == 361 || Legal(s.board, prev, 1, i)
      ensures legal && i < 361 ==> Accepted(s, i)
      ensures !legal ==> i < 361 && Refused(s, i)
    {
      if i == 361 { return true; }
      legal := LegalGo(s.board, prev, 1, i / 19, i % 19);
    }

    /** The arm for an illegal selection: the total is taken back, the visit is not, and the edge is ruled out. */
    method RuleOut(i: nat)
      requires Valid() && i < 361 && i in SearchStats.Live(s) && children[i] == null && Refused(s, i)
      modifies this`s
      ensures Valid() && s == RuledOut(old(s), i)
    {
      RuleOutStep(s, i);
      assert s.has[i] <==> children[i] != null;
      s := RuledOut(s, i);
      ValidAgain(i);
    }

    /** The arm of `select_mcts` that expands a legal move or the pass: make the child and link it... */
    method Grow(i: nat, ghost root: nat -> real, ghost cpuct: real) returns (val: real)
      requires i < 362 && Valid() && !s.done && i in SearchStats.Live(s) && children[i] == null
      requires i < 361 ==> Accepted(s, i)
      modifies this`s, this`children, this`Repr
      ensures Valid() && fresh(Repr - old(Repr))
      ensures ChildStep(old(s), s, -val) && Sized(old(s)) && s == BackedUp(old(s), i, val)
      ensures ElseUnchanged(i) && WentDown(i, old(s.board), old(s.pass), None, cpuct, root, -val)
    {
      hide Valid, Linked, NodeOk, EdgeOk, ChildStep, IsNewChild, IsExpanded, Untried, BackedUp, SameBut, Accepted,
           NoDouble, Uniform, SearchStats.Live;
      UntriedFacts(i);
      ghost var d := s;
      val := Link(i);
      GrowStats(d, i, children[i].s);
      ValidAgain(i);
    }

    /** ... and back up the child's own result. */
    method Link(i: nat) returns (val: real)
      requires this in Repr && |prob| == |children| == 362 && i < 362 && children[i] == null
      requires Sized(s) && NoDouble(s.board) && Uniform(s.board) && (i < 361 ==> Occupied(s.board, i) == 0)
      modifies this`s, this`children, this`Repr
      ensures TouchedOnly(i) && fresh(Repr - old(Repr)) && children[i] != null && children[i].Valid()
      ensures IsNewChild(children[i].s, old(s.board), i, old(s.pass))
      ensures IsExpanded(children[i].s, old(s.board), i, old(s.pass))
      ensures val == -children[i].s.result && s == BackedUp(old(s), i, val)
    {
      hide Valid, IsNewChild, IsExpanded, NodeOk, BackedUp, NoDouble, Uniform;
      var c := NewChild(s.board, i, s.pass);
      children := children[i := c];
      val := -c.s.result;
      s := BackedUp(s, i, val);
      Repr := Repr + c.Repr;
    }

    lemma {:induction false} UntriedFacts(i: int)
      requires Valid() && i in SearchStats.Live(s) && children[i] == null && (i < 361 ==> Accepted(s, i))
      ensures |prob| == 362 && Sized(s) && NodeOk(s) && Untried(s, i) && NoDouble(s.board) && Uniform(s.board)
      ensures i < 361 ==> Occupied(s.board, i) == 0
    {}

    /** The child of edge `i`: the board after the move or the pass, expanded and flagged. */
    static method NewChild(board: Position, i: nat, pass: bool) returns (c: MctsTree)
      requires NoDouble(board) && Uniform(board) && i < 362 && (i < 361 ==> Occupied(board, i) == 0)
      ensures c.Valid() && fresh(c.Repr) && c in c.Repr
      ensures IsNewChild(c.s, board, i, pass) && IsExpanded(c.s, board, i, pass)
    {
      var next := new Bit[1083](k requires 0 <= k < 1083 => board[k]);
      assert next[..] == board;
      if i < 361 {
        assert Index(i / 19, i % 19) == i;
        MoveGo(next, 1, i / 19, i % 19);
      }
      FlipBoard(next);
      ghost var after := next[..];
      assert after == After(board, i);
      AfterFacts(board, i);
      var pred := NetworkPredictRotations(next[..]);
      hide After, NoDouble, Uniform, NodeOk, IsNewChild, IsExpanded, StatsOf;
      NewChildStats(board, i, pass, pred);
      c := new MctsTree.Expand(next[..], Some(board), pred);
      if i == 361 {
        c.s := c.s.(pass := true);
        if pass { c.s := c.s.(done := true); }
      }
    }

    lemma {:induction false} ChildFacts(i: int)
      requires Valid() && 0 <= i < 362 && children[i] != null
      ensures Sized(s) && s.has[i] && |prob| == 362
      ensures children[i] in Repr && children[i] in children[i].Repr && children[i].Repr < Repr &&
              this !in children[i].Repr
      ensures children[i].Valid() && EdgeOk(s, i, children[i].s) && Some(s.board) in children[i].s.kos
    {}

    /** The arm of `select_mcts` that follows an existing child: the recursive call... */
    method Recurse(i: nat, root: nat -> real, cpuct: real) returns (val: real)
      requires this in Repr && |prob| == |children| == 362 && i < 362 && children[i] != null
      requires children[i] in children[i].Repr && children[i].Repr < Repr && this !in children[i].Repr
      requires children[i].Valid() && Some(s.board) in children[i].s.kos
      requires Sized(s)
      requires cpuct > 0.0 && forall n :: n > 0 ==> root(n) > 0.0
      modifies Repr
      ensures TouchedOnly(i) && fresh(Repr - old(Repr)) && children == old(children)
      ensures s == Bumped(old(s), i)
      ensures children[i].Valid() && ChildStep(old(children[i].s), children[i].s, val)
      ensures OneSimulation(old(children[i].s), children[i].s, Some(old(s.board)), cpuct, root, val)
      decreases Repr, 0
    {
      hide Valid, Linked, NodeOk, EdgeOk, ChildStep, OneSimulation;
      var c := children[i];
      s := Bumped(s, i);
      ghost var n, j;
      val, n, j := c.SelectMcts(Some(s.board), root, cpuct);
      Repr := Repr + c.Repr;
    }

    /** ... and the backup of its value. */
    method Descend(i: nat, root: nat -> real, cpuct: real) returns (val: real)
      requires Valid() && !s.done && i < 362 && children[i] != null
      requires cpuct > 0.0 && forall n :: n > 0 ==> root(n) > 0.0
      modifies Repr
      ensures Valid() && fresh(Repr - old(Repr))
      ensures ChildStep(old(s), s, -val) && Sized(old(s)) && s == BackedUp(old(s), i, val)
      ensures ElseUnchanged(i) && WentDown(i, old(s.board), old(s.pass), Some(old(children[i].s)), cpuct, root, -val)
      decreases Repr, 1
    {
      hide Valid, Linked, NodeOk, EdgeOk, ChildStep, Bumped, Recorded, BackedUp, SameBut, OneSimulation;
      ChildFacts(i);
      ghost var d, dc := s, children[i].s;
      val := Recurse(i, root, cpuct);
      BackedUpInTwo(d, i, val);
      s := Recorded(s, i, val);
      DescendStats(d, i, dc, children[i].s, val);
      ValidAgain(i);
    }
  }

  /** The network is an oracle: any answer of the right shape may come back. */
  method NetworkPredictRotations(next: Position) returns (pred: Prediction)
    ensures pred.Ok()
  {
    assert Prediction(seq(362, _ => 1.0), 0.5).Ok();
    pred :| pred.Ok();
  }
}
