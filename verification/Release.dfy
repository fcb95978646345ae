/** `free_mcts`: every node of a tree is released exactly once, and `move_mcts` releases all but the chosen subtree. */
module Release {
  import opened SearchStats
  import opened Search

  /** A tree of separate subtrees, whatever its records say. */
  ghost predicate Tidy(t: MctsTree)
    reads t, t.Repr
    decreases t.Repr
  {
    && t in t.Repr && |t.children| == 362
    && (forall i :: 0 <= i < 362 && t.children[i] != null ==>
         t.children[i] in t.Repr && t.children[i].Repr <= t.Repr && t !in t.children[i].Repr && Tidy(t.children[i]))
    && (forall i, j :: 0 <= i < j < 362 && t.children[i] != null && t.children[j] != null ==>
         t.children[i].Repr !! t.children[j].Repr)
  }

  lemma {:induction false} ValidIsTidy(t: MctsTree)
    requires t.Valid()
    ensures Tidy(t)
    decreases t.Repr
  {
    hide NodeOk, EdgeOk;
    forall i | 0 <= i < 362 && t.children[i] != null ensures Tidy(t.children[i]) {
      ValidIsTidy(t.children[i]);
    }
  }

  /** The node and everything under its first `n` edges. */
  ghost function NodesUpTo(t: MctsTree, n: nat): set<MctsTree>
    requires Tidy(t) && n <= 362
    reads t, t.Repr
    decreases t.Repr, n
  {
    if n == 0 then {t}
    else NodesUpTo(t, n - 1) + if t.children[n - 1] == null then {} else NodesUpTo(t.children[n - 1], 362)
  }

  ghost function Nodes(t: MctsTree): set<MctsTree>
    requires Tidy(t)
    reads t, t.Repr
  {
    NodesUpTo(t, 362)
  }

  lemma {:induction false} NodesInRepr(t: MctsTree, n: nat)
    requires Tidy(t) && n <= 362
    ensures t in NodesUpTo(t, n) && NodesUpTo(t, n) <= t.Repr
    decreases t.Repr, n
  {
    if n > 0 {
      NodesInRepr(t, n - 1);
      if t.children[n - 1] != null { NodesInRepr(t.children[n - 1], 362); }
    }
  }

  /** The nodes under edge `n` are no other nodes of the tree. */
  lemma {:induction false} EdgeApart(t: MctsTree, n: nat, m: nat)
    requires Tidy(t) && n <= m < 362 && t.children[m] != null
    ensures NodesUpTo(t, n) !! NodesUpTo(t.children[m], 362)
    decreases n
  {
    NodesInRepr(t.children[m], 362);
    if n > 0 {
      EdgeApart(t, n - 1, m);
      if t.children[n - 1] != null { NodesInRepr(t.children[n - 1], 362); }
    }
  }

  /** Each node under the first `n` edges, once. */
  ghost function Under(t: MctsTree, n: nat): multiset<MctsTree>
    requires Tidy(t) && n <= 362
    reads t, t.Repr
  {
    multiset(NodesUpTo(t, n) - {t})
  }

  ghost function AllOf(t: MctsTree?): multiset<MctsTree>
    requires t != null ==> Tidy(t)
    reads if t == null then {} else {t} + t.Repr
  {
    if t == null then multiset{} else multiset(Nodes(t))
  }

  lemma {:induction false} OneEdge(t: MctsTree, i: nat)
    requires Tidy(t) && i < 362
    ensures Under(t, 0) == multiset{}
    ensures |t.children| == 362 && (t.children[i] != null ==> Tidy(t.children[i]) && t.children[i].Repr < t.Repr)
    ensures Under(t, i + 1) == Under(t, i) + AllOf(t.children[i])
  {
    var c := t.children[i];
    if c != null {
      NodesInRepr(c, 362);
      EdgeApart(t, i, i);
      var s, u := NodesUpTo(t, i) - {t}, NodesUpTo(c, 362);
      assert NodesUpTo(t, i + 1) - {t} == s + u && s !! u;
    }
  }

  lemma {:induction false} AllEdges(t: MctsTree)
    requires Tidy(t)
    ensures AllOf(t) == Under(t, 362) + multiset{t}
  {
    NodesInRepr(t, 362);
    var node := {t};
    assert Nodes(t) == (Nodes(t) - node) + node;
  }

  /** `freed` counts how often each node is released: once for every node of the tree. */
  method FreeMcts(root: MctsTree?) returns (ghost freed: multiset<MctsTree>)
    requires root != null ==> Tidy(root)
    ensures freed == AllOf(root)
    decreases if root == null then {} else root.Repr, 2
  {
    NoChild(null);
    hide AllOf, Under, Tidy;
    if root == null { return multiset{}; }
    AllEdges(root);
    freed := FreeChildren(root);
    freed := freed + multiset{root};
  }

  /** The loop over the edges. */
  method FreeChildren(root: MctsTree) returns (ghost freed: multiset<MctsTree>)
    requires Tidy(root)
    ensures freed == Under(root, 362)
    decreases root.Repr, 1
  {
    OneEdge(root, 0);
    hide Under, AllOf, Tidy;
    freed := multiset{};
    for i := 0 to 362
      invariant freed == Under(root, i)
    {
      freed := FreeEdge(root, i, freed);
    }
  }

  method FreeEdge(root: MctsTree, i: nat, ghost freed: multiset<MctsTree>) returns (ghost freed': multiset<MctsTree>)
    requires Tidy(root) && i < 362 && freed == Under(root, i)
    ensures freed' == Under(root, i + 1)
    decreases root.Repr, 0
  {
    OneEdge(root, i);
    NoChild(null);
    hide Under, AllOf, Tidy;
    freed' := freed;
    if root.children[i] != null {
      ghost var under := FreeMcts(root.children[i]);
      freed' := freed + under;
    }
  }

  lemma {:induction false} NoChild(t: MctsTree?)
    requires t == null
    ensures AllOf(t) == multiset{}
  {}

  twostate lemma {:induction false} TidyAgain(t: MctsTree)
    requires old(Tidy(t)) && t.Repr == old(t.Repr) && |t.children| == 362
    requires forall i :: 0 <= i < 362 ==> t.children[i] == null || t.children[i] == old(t.children)[i]
    requires forall o: MctsTree :: o in t.Repr && o != t ==> unchanged(o)
    ensures Tidy(t)
  {}

  /** Cutting edge `index` splits the nodes of a tree into those that remain and the subtree that was cut off. */
  twostate lemma {:induction false} Cut(t: MctsTree, new index: nat)
    requires old(Tidy(t)) && index < 362 && old(t.children)[index] != null
    requires t.Repr == old(t.Repr) && t.children == old(t.children)[index := null]
    requires forall o: MctsTree :: o in t.Repr && o != t ==> unchanged(o)
    ensures Tidy(t) && Tidy(old(t.children)[index])
    ensures Nodes(t) !! Nodes(old(t.children)[index])
    ensures old(Nodes(t)) == Nodes(t) + Nodes(old(t.children)[index])
  {
    var c := old(t.children)[index];
    TidyAgain(t);
    NodesInRepr(c, 362);
    for n := 0 to 362
      invariant NodesUpTo(t, n) !! c.Repr
      invariant old(NodesUpTo(t, n)) == NodesUpTo(t, n) + if n > index then Nodes(c) else {}
    {
      var d := t.children[n];
      if d != null {
        NodesInRepr(d, 362);
        assert old(NodesUpTo(d, 362)) == NodesUpTo(d, 362) && d.Repr !! c.Repr;
      }
    }
  }

  twostate lemma {:induction false} CutAll(t: MctsTree, new index: nat)
    requires old(Tidy(t)) && index < 362 && old(t.children)[index] != null
    requires t.Repr == old(t.Repr) && t.children == old(t.children)[index := null]
    requires forall o: MctsTree :: o in t.Repr && o != t ==> unchanged(o)
    ensures Tidy(t) && Tidy(old(t.children)[index])
    ensures old(AllOf(t)) == AllOf(t) + AllOf(old(t.children)[index])
  {
    Cut(t, index);
    hide Tidy, NodesUpTo;
    Split(old(Nodes(t)), Nodes(t), Nodes(old(t.children)[index]));
  }

  lemma {:induction false} Split(s: set<MctsTree>, a: set<MctsTree>, b: set<MctsTree>)
    requires s == a + b && a !! b
    ensures multiset(s) == multiset(a) + multiset(b)
  {}

  /** `move_mcts` with its releases: the nodes of the tree are split into the kept subtree and the rest, released
      once each. */
  method MoveMcts(tree: MctsTree?, index: int) returns (t: MctsTree?, ghost freed: multiset<MctsTree>)
    requires tree != null ==> tree.Valid() && Tidy(tree)
    modifies if tree != null && 0 <= index <= 361 then {tree} else {}
    ensures t == if index < 0 || index > 361 || tree == null then null else old(tree.children)[index]
    ensures t != null ==> t.Valid() && tree !in t.Repr && t.Repr <= old(tree.Repr) && EdgeOk(old(tree.s), index, t.s)
    ensures t != null ==> Tidy(t) && t.s == old(tree.children[index].s) && Nodes(t) == old(Nodes(tree.children[index]))
    ensures t != null ==> AllOf(t) + freed == old(AllOf(tree))
    ensures t == null ==> freed == old(AllOf(tree))
  {
    hide AllOf;
    if index < 0 || index > 361 || tree == null || tree.children[index] == null {
      freed := FreeMcts(tree);
      return null, freed;
    }
    tree.ChildFacts(index);
    var swap := tree;
    t := tree.children[index];
    hide MctsTree.Valid, EdgeOk, NodeOk, Tidy, NodesUpTo;
    swap.children := swap.children[index := null];
    CutAll(swap, index);
    freed := FreeMcts(swap);
  }
}
