/** Route lists and the size of a meter's flow window, from the configured paths. */
module Capacity {
  import opened Grouping
  import opened Forwarding

  /** A path is a list of connections for each of its switches. */
  type PathPorts = seq<seq<(nat, nat)>>

  function PathCount(path: PathPorts, n: nat): nat
    requires n <= |path|
  {
    if n == 0 then 0 else PathCount(path, n - 1) + |path[n - 1]|
  }

  /** The window size of flow_v012: twice the number of connections of the largest path. */
  method MaxFlows(ports: seq<PathPorts>) returns (m: nat)
    ensures forall i :: 0 <= i < |ports| ==> 2 * PathCount(ports[i], |ports[i]|) <= m
    ensures m == 0 || exists i :: 0 <= i < |ports| && m == 2 * PathCount(ports[i], |ports[i]|)
  {
    m := 0;
    var i := 0;
    while i < |ports|
      invariant 0 <= i <= |ports|
      invariant forall k :: 0 <= k < i ==> PathCount(ports[k], |ports[k]|) <= m
      invariant m == 0 || exists k :: 0 <= k < i && m == PathCount(ports[k], |ports[k]|)
    {
      var p, tempCount := 0, 0;
      while p < |ports[i]|
        invariant 0 <= p <= |ports[i]| && tempCount == PathCount(ports[i], p)
      {
        tempCount := tempCount + |ports[i][p]|;
        p := p + 1;
      }
      i := i + 1;
      if tempCount > m { m := tempCount; }
    }
    m := m * 2;
  }

  /** The running value of flow_v013, which doubles inside the maximum. */
  function RunningMax(counts: seq<nat>): nat {
    if counts == [] then 0
    else
      var r := RunningMax(counts[..|counts| - 1]);
      var c := counts[|counts| - 1];
      if c > r then 2 * c else r
  }

  function Counts(ports: seq<PathPorts>): (cs: seq<nat>)
    ensures |cs| == |ports|
  {
    seq(|ports|, i requires 0 <= i < |ports| => PathCount(ports[i], |ports[i]|))
  }

  method MaxFlowsDoubling(ports: seq<PathPorts>) returns (m: nat)
    ensures m == RunningMax(Counts(ports))
  {
    ghost var counts := Counts(ports);
    m := 0;
    var i := 0;
    while i < |ports|
      invariant 0 <= i <= |ports| && m == RunningMax(counts[..i])
    {
      var p, tempCount := 0, 0;
      while p < |ports[i]|
        invariant 0 <= p <= |ports[i]| && tempCount == PathCount(ports[i], p)
      {
        tempCount := tempCount + |ports[i][p]|;
        p := p + 1;
      }
      assert counts[..i + 1][..i] == counts[..i];
      i := i + 1;
      if tempCount > m {
        m := tempCount;
        m := m * 2;
      }
    }
    assert counts[..i] == counts;
  }

  lemma {:induction false} RunningMaxBounds(counts: seq<nat>, j: nat)
    requires j <= |counts|
    ensures RunningMax(counts) >= RunningMax(counts[..j])
    ensures RunningMax(counts) > 0 ==> exists i :: 0 <= i < |counts| && RunningMax(counts) == 2 * counts[i]
    decreases |counts|
  {
    if j < |counts| {
      var front := counts[..|counts| - 1];
      RunningMaxBounds(front, j);
      assert front[..j] == counts[..j];
    } else {
      assert counts[..j] == counts;
      if counts != [] { RunningMaxBounds(counts[..|counts| - 1], 0); }
    }
  }

  /** The doubled running maximum is twice the largest count exactly when the first path of that count passes
      the test `temp_count > max` when its turn comes. */
  lemma {:induction false} DoublingExact(counts: seq<nat>, i: nat)
    requires i < |counts| && counts[i] > 0
    requires forall j :: 0 <= j < |counts| ==> counts[j] <= counts[i]
    requires forall j :: 0 <= j < i ==> counts[j] < counts[i]
    ensures RunningMax(counts) == 2 * counts[i] <==> counts[i] > RunningMax(counts[..i])
  {
    RunningMaxBounds(counts, i + 1);
    RunningMaxBounds(counts[..i], 0);
    assert counts[..i + 1][..i] == counts[..i];
    if counts[i] <= RunningMax(counts[..i]) { DoublingStalls(counts, i); }
  }

  /** Once the running value has reached the largest count, it never changes again. */
  lemma {:induction false} DoublingStalls(counts: seq<nat>, i: nat)
    requires i <= |counts|
    requires forall j :: 0 <= j < |counts| ==> counts[j] <= RunningMax(counts[..i])
    ensures RunningMax(counts) == RunningMax(counts[..i])
    decreases |counts|
  {
    if i < |counts| {
      assert counts[..|counts| - 1][..i] == counts[..i];
      DoublingStalls(counts[..|counts| - 1], i);
    } else {
      assert counts[..i] == counts;
    }
  }

  /** The count of path `i` exceeds the running value when its turn comes. */
  predicate Exceeds(counts: seq<nat>, i: nat)
    requires i < |counts|
  {
    counts[i] > RunningMax(counts[..i])
  }

  lemma {:induction false} LastExceeding(counts: seq<nat>) returns (i: nat)
    requires RunningMax(counts) > 0
    ensures i < |counts| && Exceeds(counts, i) && RunningMax(counts) == 2 * counts[i]
  {
    var n := |counts| - 1;
    if Exceeds(counts, n) {
      i := n;
    } else {
      i := LastExceeding(counts[..n]);
      assert counts[..n][..i] == counts[..i];
    }
  }

  /** The window of flow_v013 is twice the count of path `p` exactly when some path with no fewer connections exceeds
      the running value at its turn. */
  lemma {:induction false} DoublingSuffices(counts: seq<nat>, p: nat)
    requires p < |counts| && counts[p] > 0
    ensures RunningMax(counts) >= 2 * counts[p] <==>
            exists i :: 0 <= i < |counts| && counts[i] >= counts[p] && Exceeds(counts, i)
  {
    if RunningMax(counts) >= 2 * counts[p] {
      var i := LastExceeding(counts);
    }
    forall i | 0 <= i < |counts| && Exceeds(counts, i) ensures RunningMax(counts) >= 2 * counts[i] {
      RunningMaxBounds(counts, i + 1);
      assert counts[..i + 1][..i] == counts[..i];
    }
  }

  /** For the first path it always is. */
  lemma {:induction false} DoublingFirst(counts: seq<nat>)
    requires counts != []
    ensures RunningMax(counts) >= 2 * counts[0]
  {
    RunningMaxBounds(counts, 1);
    assert counts[..1][..0] == [];
    assert RunningMax(counts[..1]) == 2 * counts[0];
  }

  /** The two routes of each connection, one for each direction. */
  function ConnRoutes(sw: nat, path: nat, conns: seq<(nat, nat)>, n: nat): seq<Route>
    requires n <= |conns|
  {
    if n == 0 then []
    else
      var c := conns[n - 1];
      ConnRoutes(sw, path, conns, n - 1) + [Route(sw, c.0, c.1, 0, path), Route(sw, c.1, c.0, 1, path)]
  }

  function PathRoutes(sws: seq<nat>, path: nat, ports: PathPorts, n: nat): seq<Route>
    requires n <= |sws| && n <= |ports|
  {
    if n == 0 then []
    else PathRoutes(sws, path, ports, n - 1) + ConnRoutes(sws[n - 1], path, ports[n - 1], |ports[n - 1]|)
  }

  function AllRoutes(sNums: seq<seq<nat>>, ports: seq<PathPorts>, n: nat): seq<Route>
    requires Shaped(sNums, ports) && n <= |sNums|
  {
    if n == 0 then []
    else AllRoutes(sNums, ports, n - 1) + PathRoutes(sNums[n - 1], n - 1, ports[n - 1], |sNums[n - 1]|)
  }

  predicate Shaped(sNums: seq<seq<nat>>, ports: seq<PathPorts>) {
    |sNums| <= |ports| && forall p :: 0 <= p < |sNums| ==> |sNums[p]| <= |ports[p]|
  }

  lemma {:induction false} ConnRoutesOn(sw: nat, path: nat, conns: seq<(nat, nat)>, n: nat)
    requires n <= |conns|
    ensures forall r :: r in ConnRoutes(sw, path, conns, n) ==> r.sw == sw && r.path == path
  {
    if n > 0 { ConnRoutesOn(sw, path, conns, n - 1); }
  }

  lemma {:induction false} PathRoutesOn(sws: seq<nat>, path: nat, ports: PathPorts, n: nat)
    requires n <= |sws| && n <= |ports|
    ensures forall r :: r in PathRoutes(sws, path, ports, n) ==> r.sw in sws && r.path == path
  {
    if n > 0 {
      PathRoutesOn(sws, path, ports, n - 1);
      ConnRoutesOn(sws[n - 1], path, ports[n - 1], |ports[n - 1]|);
    }
  }

  /** Every listed route is on a switch of its path. */
  lemma {:induction false} AllRoutesOn(sNums: seq<seq<nat>>, ports: seq<PathPorts>, n: nat)
    requires Shaped(sNums, ports) && n <= |sNums|
    ensures forall r :: r in AllRoutes(sNums, ports, n) ==> r.path < n && r.sw in sNums[r.path]
  {
    if n > 0 {
      AllRoutesOn(sNums, ports, n - 1);
      PathRoutesOn(sNums[n - 1], n - 1, ports[n - 1], |sNums[n - 1]|);
    }
  }

  /** Route `r` takes connection `c` of the `i`th switch of path `p` one way or the other: from its first port to its
      second in direction 0, and back in direction 1. */
  predicate OnConn(sNums: seq<seq<nat>>, ports: seq<PathPorts>, p: nat, i: nat, c: nat, r: Route)
    requires Shaped(sNums, ports)
  {
    && p < |sNums| && i < |sNums[p]| && c < |ports[p][i]|
    && r.path == p && r.sw == sNums[p][i]
    && ((r.dir == 0 && (r.inp, r.out) == ports[p][i][c]) || (r.dir == 1 && (r.out, r.inp) == ports[p][i][c]))
  }

  lemma {:induction false} ConnRouteOf(sw: nat, path: nat, conns: seq<(nat, nat)>, n: nat, r: Route)
    requires n <= |conns|
    ensures r in ConnRoutes(sw, path, conns, n) <==>
              r.path == path && r.sw == sw &&
              exists c :: 0 <= c < n && ((r.dir == 0 && (r.inp, r.out) == conns[c]) ||
                                         (r.dir == 1 && (r.out, r.inp) == conns[c]))
  {
    if n > 0 { ConnRouteOf(sw, path, conns, n - 1, r); }
  }

  lemma {:induction false} PathRouteOf(sws: seq<nat>, path: nat, ports: PathPorts, n: nat, r: Route)
    requires n <= |sws| && n <= |ports|
    ensures r in PathRoutes(sws, path, ports, n) <==>
              exists i :: 0 <= i < n && r in ConnRoutes(sws[i], path, ports[i], |ports[i]|)
  {
    hide ConnRoutes;
    if n > 0 { PathRouteOf(sws, path, ports, n - 1, r); }
  }

  lemma {:induction false} RouteOf(sNums: seq<seq<nat>>, ports: seq<PathPorts>, n: nat, r: Route)
    requires Shaped(sNums, ports) && n <= |sNums|
    ensures r in AllRoutes(sNums, ports, n) <==>
              exists p :: 0 <= p < n && r in PathRoutes(sNums[p], p, ports[p], |sNums[p]|)
  {
    hide PathRoutes;
    if n > 0 { RouteOf(sNums, ports, n - 1, r); }
  }

  /** The routes are exactly the configured connections, each in both directions. */
  lemma {:induction false} RoutesExact(sNums: seq<seq<nat>>, ports: seq<PathPorts>, r: Route)
    requires Shaped(sNums, ports)
    ensures r in AllRoutes(sNums, ports, |sNums|) <==> exists p: nat, i: nat, c: nat :: OnConn(sNums, ports, p, i, c, r)
  {
    RouteOf(sNums, ports, |sNums|, r);
    hide AllRoutes, ConnRoutes, PathRoutes;
    if r in AllRoutes(sNums, ports, |sNums|) {
      var p :| 0 <= p < |sNums| && r in PathRoutes(sNums[p], p, ports[p], |sNums[p]|);
      PathRouteOf(sNums[p], p, ports[p], |sNums[p]|, r);
      var i :| 0 <= i < |sNums[p]| && r in ConnRoutes(sNums[p][i], p, ports[p][i], |ports[p][i]|);
      ConnRouteOf(sNums[p][i], p, ports[p][i], |ports[p][i]|, r);
      var c :| 0 <= c < |ports[p][i]| && ((r.dir == 0 && (r.inp, r.out) == ports[p][i][c]) ||
                                          (r.dir == 1 && (r.out, r.inp) == ports[p][i][c]));
      assert OnConn(sNums, ports, p, i, c, r);
    }
    forall p: nat, i: nat, c: nat | OnConn(sNums, ports, p, i, c, r) ensures r in AllRoutes(sNums, ports, |sNums|) {
      ConnRouteOf(sNums[p][i], p, ports[p][i], |ports[p][i]|, r);
      PathRouteOf(sNums[p], p, ports[p], |sNums[p]|, r);
    }
  }

  /** Packets of a user who may take the paths `allowed` are configured to come through port `inp` of switch `s`: by
      the first port of a connection, or by the second when they are for the user. */
  ghost predicate ComesThrough(sNums: seq<seq<nat>>, ports: seq<PathPorts>, allowed: set<int>, s: nat, inp: nat,
                               toUser: bool)
    requires Shaped(sNums, ports)
  {
    exists p: nat, i: nat, c: nat :: EntersBy(sNums, ports, p, i, c, allowed, s, inp, toUser)
  }

  predicate EntersBy(sNums: seq<seq<nat>>, ports: seq<PathPorts>, p: nat, i: nat, c: nat, allowed: set<int>, s: nat,
                     inp: nat, toUser: bool)
    requires Shaped(sNums, ports)
  {
    && p < |sNums| && i < |sNums[p]| && c < |ports[p][i]| && p in allowed && sNums[p][i] == s
    && inp == if toUser then ports[p][i][c].1 else ports[p][i][c].0
  }

  /** Some connection on switch `s` joins the two ports. */
  ghost predicate Joins(sNums: seq<seq<nat>>, ports: seq<PathPorts>, s: nat, inp: nat, o: nat)
    requires Shaped(sNums, ports)
  {
    exists p: nat, i: nat, c: nat :: JoinsAt(sNums, ports, p, i, c, s, inp, o)
  }

  predicate JoinsAt(sNums: seq<seq<nat>>, ports: seq<PathPorts>, p: nat, i: nat, c: nat, s: nat, inp: nat, o: nat)
    requires Shaped(sNums, ports)
  {
    && p < |sNums| && i < |sNums[p]| && c < |ports[p][i]| && sNums[p][i] == s
    && (ports[p][i][c] == (inp, o) || ports[p][i][c] == (o, inp))
  }

  /** The routes have an output exactly when a connection joins the ports. */
  lemma {:induction false} OutputsJoin(sNums: seq<seq<nat>>, ports: seq<PathPorts>, s: nat, inp: nat, o: nat)
    requires Shaped(sNums, ports)
    ensures HasOutput(AllRoutes(sNums, ports, |sNums|), s, inp, o) <==> Joins(sNums, ports, s, inp, o)
  {
    var routes := AllRoutes(sNums, ports, |sNums|);
    hide AllRoutes;
    if HasOutput(routes, s, inp, o) {
      var j :| 0 <= j < |routes| && routes[j].sw == s && routes[j].inp == inp && routes[j].out == o;
      RoutesExact(sNums, ports, routes[j]);
      var p: nat, i: nat, c: nat :| OnConn(sNums, ports, p, i, c, routes[j]);
      assert JoinsAt(sNums, ports, p, i, c, s, inp, o);
    }
    forall p: nat, i: nat, c: nat | JoinsAt(sNums, ports, p, i, c, s, inp, o) ensures HasOutput(routes, s, inp, o) {
      var r := Route(s, inp, o, if ports[p][i][c] == (inp, o) then 0 else 1, p);
      RoutesExact(sNums, ports, r);
      assert OnConn(sNums, ports, p, i, c, r);
    }
  }

  /** The innermost of the loops below: both directions of every connection of one switch. */
  method ListConnections(routes: seq<Route>, sw: nat, path: nat, conns: seq<(nat, nat)>) returns (routes': seq<Route>)
    ensures routes' == routes + ConnRoutes(sw, path, conns, |conns|)
  {
    routes' := routes;
    for cn := 0 to |conns|
      invariant routes' == routes + ConnRoutes(sw, path, conns, cn)
    {
      routes' := routes' + [Route(sw, conns[cn].0, conns[cn].1, 0, path)];
      routes' := routes' + [Route(sw, conns[cn].1, conns[cn].0, 1, path)];
    }
  }

  /** The loops of `create_topology` that list the routes. */
  method ListRoutes(sNums: seq<seq<nat>>, ports: seq<PathPorts>) returns (routes: seq<Route>)
    requires Shaped(sNums, ports)
    ensures routes == AllRoutes(sNums, ports, |sNums|)
  {
    routes := [];
    for p := 0 to |sNums|
      invariant routes == AllRoutes(sNums, ports, p)
    {
      for sn := 0 to |sNums[p]|
        invariant routes == AllRoutes(sNums, ports, p) + PathRoutes(sNums[p], p, ports[p], sn)
      {
        routes := ListConnections(routes, sNums[p][sn], p, ports[p][sn]);
      }
    }
  }

  /** How many routes of a list belong to path `p`. */
  function OnPath(routes: seq<Route>, p: nat): nat {
    if routes == [] then 0 else OnPath(routes[..|routes| - 1], p) + if routes[|routes| - 1].path == p then 1 else 0
  }

  lemma {:induction false} OnPathAppend(a: seq<Route>, b: seq<Route>, p: nat)
    ensures OnPath(a + b, p) == OnPath(a, p) + OnPath(b, p)
  {
    if b == [] {
      assert a + b == a;
    } else {
      assert (a + b)[..|a + b| - 1] == a + b[..|b| - 1];
      OnPathAppend(a, b[..|b| - 1], p);
    }
  }

  lemma {:induction false} ConnRoutesCount(sw: nat, path: nat, conns: seq<(nat, nat)>, n: nat, p: nat)
    requires n <= |conns|
    ensures OnPath(ConnRoutes(sw, path, conns, n), p) == if p == path then 2 * n else 0
  {
    if n > 0 {
      ConnRoutesCount(sw, path, conns, n - 1, p);
      var c := conns[n - 1];
      var two := [Route(sw, c.0, c.1, 0, path), Route(sw, c.1, c.0, 1, path)];
      OnPathAppend(ConnRoutes(sw, path, conns, n - 1), two, p);
      assert two[..1] == [two[0]] && two[..1][..0] == [];
      assert OnPath(two[..1], p) == if p == path then 1 else 0;
    }
  }

  lemma {:induction false} PathRoutesCount(sws: seq<nat>, path: nat, ports: PathPorts, n: nat, p: nat)
    requires n <= |sws| && n <= |ports|
    ensures OnPath(PathRoutes(sws, path, ports, n), p) == if p == path then 2 * PathCount(ports, n) else 0
  {
    if n > 0 {
      PathRoutesCount(sws, path, ports, n - 1, p);
      ConnRoutesCount(sws[n - 1], path, ports[n - 1], |ports[n - 1]|, p);
      OnPathAppend(PathRoutes(sws, path, ports, n - 1), ConnRoutes(sws[n - 1], path, ports[n - 1], |ports[n - 1]|), p);
    }
  }

  lemma {:induction false} AllRoutesCount(sNums: seq<seq<nat>>, ports: seq<PathPorts>, n: nat, p: nat)
    requires Shaped(sNums, ports) && n <= |sNums|
    ensures OnPath(AllRoutes(sNums, ports, n), p) == if p < n then 2 * PathCount(ports[p], |sNums[p]|) else 0
  {
    if n > 0 {
      AllRoutesCount(sNums, ports, n - 1, p);
      PathRoutesCount(sNums[n - 1], n - 1, ports[n - 1], |sNums[n - 1]|, p);
      OnPathAppend(AllRoutes(sNums, ports, n - 1), PathRoutes(sNums[n - 1], n - 1, ports[n - 1], |sNums[n - 1]|), p);
    }
  }

  lemma {:induction false} PathCountGrows(path: PathPorts, n: nat, k: nat)
    requires n <= k <= |path|
    ensures PathCount(path, n) <= PathCount(path, k)
  {
    if n < k { PathCountGrows(path, n, k - 1); }
  }

  lemma {:induction false} WantedOnPath(routes: seq<Route>, n: nat, sw: nat, p: nat)
    requires n <= |routes|
    ensures Wanted(routes, n, sw, (r: Route) => r.path == p) <= OnPath(routes[..n], p)
  {
    if n > 0 {
      WantedOnPath(routes, n - 1, sw, p);
      assert routes[..n][..n - 1] == routes[..n - 1];
    }
  }

  /** One path's routes through any one switch fit into a window of twice its connections. */
  lemma {:induction false} PathFits(sNums: seq<seq<nat>>, ports: seq<PathPorts>, m: nat, sw: nat, p: nat)
    requires Shaped(sNums, ports) && (p < |sNums| ==> 2 * PathCount(ports[p], |ports[p]|) <= m)
    ensures var routes := AllRoutes(sNums, ports, |sNums|);
            Wanted(routes, |routes|, sw, (r: Route) => r.path == p) <= m
  {
    var routes := AllRoutes(sNums, ports, |sNums|);
    WantedOnPath(routes, |routes|, sw, p);
    assert routes[..|routes|] == routes;
    AllRoutesCount(sNums, ports, |sNums|, p);
    if p < |sNums| { PathCountGrows(ports[p], |sNums[p]|, |ports[p]|); }
  }

  lemma {:induction false} WantedAllOn(routes: seq<Route>, n: nat, sw: nat, p: nat)
    requires n <= |routes| && forall r :: r in routes && r.path == p ==> r.sw == sw
    ensures Wanted(routes, n, sw, (r: Route) => r.path == p) == OnPath(routes[..n], p)
  {
    if n > 0 {
      WantedAllOn(routes, n - 1, sw, p);
      assert routes[..n][..n - 1] == routes[..n - 1];
    }
  }

  /** A path through a single switch needs two entries for each of its connections there. */
  lemma {:induction false} OneSwitchNeeds(sNums: seq<seq<nat>>, ports: seq<PathPorts>, sw: nat, p: nat)
    requires Shaped(sNums, ports) && p < |sNums| && sNums[p] == [sw] && |ports[p]| == 1
    ensures var routes := AllRoutes(sNums, ports, |sNums|);
            Wanted(routes, |routes|, sw, (r: Route) => r.path == p) == 2 * Counts(ports)[p]
  {
    var routes := AllRoutes(sNums, ports, |sNums|);
    AllRoutesOn(sNums, ports, |sNums|);
    WantedAllOn(routes, |routes|, sw, p);
    assert routes[..|routes|] == routes;
    AllRoutesCount(sNums, ports, |sNums|, p);
  }

  /** For a path through a single switch, the window of flow_v013 has room exactly under the condition above. */
  lemma {:induction false} PathWindowExact(sNums: seq<seq<nat>>, ports: seq<PathPorts>, sw: nat, p: nat)
    requires Shaped(sNums, ports) && p < |sNums| && sNums[p] == [sw] && |ports[p]| == 1 && Counts(ports)[p] > 0
    ensures var routes := AllRoutes(sNums, ports, |sNums|); var counts := Counts(ports);
            Wanted(routes, |routes|, sw, (r: Route) => r.path == p) <= RunningMax(counts) <==>
            exists i :: 0 <= i < |counts| && counts[i] >= counts[p] && Exceeds(counts, i)
  {
    OneSwitchNeeds(sNums, ports, sw, p);
    DoublingSuffices(Counts(ports), p);
  }

  /** Two paths of three and five connections through one switch: if the second were the allowed one, ten entries
      would be wanted in a window of six. */
  lemma {:induction false} DoublingFallsShort(three: seq<(nat, nat)>, five: seq<(nat, nat)>)
    requires |three| == 3 && |five| == 5
    ensures var sNums, ports := [[0], [0]], [[three], [five]];
            && Shaped(sNums, ports) && RunningMax(Counts(ports)) == 6
            && var routes := AllRoutes(sNums, ports, 2);
               Wanted(routes, |routes|, 0, (r: Route) => r.path == 1) == 10
  {
    var sNums: seq<seq<nat>>, ports := [[0], [0]], [[three], [five]];
    assert PathCount([three], 1) == 3 && PathCount([five], 1) == 5;
    assert Counts(ports) == [3, 5];
    assert [3, 5][..1] == [3] && [3][..0] == [];
    assert RunningMax([3]) == 6;
    OneSwitchNeeds(sNums, ports, 0, 1);
  }
}
