/** The grouping pass of `create_topology`: port routes become single-output rules or group-all rules. */
module Grouping {
  import opened Facts

  /** One direction of a connection through a switch; `dir` is 0 for the user's sending side, 1 for receiving. */
  datatype Route = Route(sw: nat, inp: nat, out: nat, dir: nat, path: nat)

  /** An entry of the route list; `sw` becomes -1 once the route has been dealt with. */
  datatype Arp = Arp(sw: int, inp: nat, out: nat, dir: nat, path: nat)

  /** The verdict on a route: `kind` 1 for the leader of a group, 0 for a single-output rule, -1 for none of its own. */
  datatype Sug = Sug(kind: int, group: int, sw: int, inp: int, out: int, dirs: seq<int>, paths: seq<int>)

  predicate SameKey(r: Route, q: Route) { r.sw == q.sw && r.inp == q.inp }

  /** No earlier route has the same switch and input port. */
  predicate Leader(routes: seq<Route>, k: nat)
    requires k < |routes|
  {
    forall j :: 0 <= j < k ==> !SameKey(routes[j], routes[k])
  }

  predicate Below(ms: seq<nat>, n: nat) { forall i :: 0 <= i < |ms| ==> ms[i] < n }

  /** The routes below `t` that leader `k` stands for, in order: itself and the later ones with its key. */
  function Members(routes: seq<Route>, k: nat, t: nat): (ms: seq<nat>)
    requires k < |routes| && t <= |routes|
    ensures |ms| >= 1 && ms[0] == k && Below(ms, |routes|)
  {
    if t <= k + 1 then [k]
    else Members(routes, k, t - 1) + if SameKey(routes[k], routes[t - 1]) then [t - 1] else []
  }

  function PathsOf(routes: seq<Route>, ms: seq<nat>): seq<int>
    requires Below(ms, |routes|)
  {
    seq(|ms|, i requires 0 <= i < |ms| => routes[ms[i]].path)
  }

  function DirsOf(routes: seq<Route>, ms: seq<nat>): seq<int>
    requires Below(ms, |routes|)
  {
    seq(|ms|, i requires 0 <= i < |ms| => routes[ms[i]].dir)
  }

  /** The output ports collected for leader `k`: its own, then each differing one of its followers below `t`. */
  function Outputs(routes: seq<Route>, k: nat, t: nat): (os: seq<nat>)
    requires k < |routes| && t <= |routes|
    ensures |os| >= 1 && os[0] == routes[k].out
  {
    if t <= k + 1 then [routes[k].out]
    else Outputs(routes, k, t - 1) +
         if SameKey(routes[k], routes[t - 1]) && routes[t - 1].out != routes[k].out then [routes[t - 1].out] else []
  }

  /** How many group leaders of switch `sw` come before `n`. */
  function GroupsBefore(routes: seq<Route>, n: nat, sw: nat): nat
    requires n <= |routes|
  {
    if n == 0 then 0
    else GroupsBefore(routes, n - 1, sw) + if IsGroupLeader(routes, n - 1) && routes[n - 1].sw == sw then 1 else 0
  }

  predicate IsGroupLeader(routes: seq<Route>, k: nat)
    requires k < |routes|
  {
    Leader(routes, k) && |Outputs(routes, k, |routes|)| > 1
  }

  /** The verdict on route `k` of the finished pass. */
  function Verdict(routes: seq<Route>, k: nat): Sug
    requires k < |routes|
  {
    var r := routes[k];
    if !Leader(routes, k) then Sug(-1, -1, -1, -1, -1, [r.dir], [-1])
    else
      var ms := Members(routes, k, |routes|);
      if IsGroupLeader(routes, k)
      then Sug(1, 1 + GroupsBefore(routes, k, r.sw), r.sw, r.inp, r.out, DirsOf(routes, ms), PathsOf(routes, ms))
      else Sug(0, 0, r.sw, r.inp, r.out, DirsOf(routes, ms), PathsOf(routes, ms))
  }

  function Listed(r: Route): Arp { Arp(r.sw, r.inp, r.out, r.dir, r.path) }

  /** The route list when leaders below `n` are done and leader `n` has claimed its followers below `t`. */
  predicate ListAt(routes: seq<Route>, arps: seq<Arp>, n: nat, t: nat)
    requires n <= |routes| && t <= |routes|
  {
    && |arps| == |routes|
    && forall j :: 0 <= j < |routes| ==>
         arps[j] == if j < n || Claimed(routes, n, t, j) then Listed(routes[j]).(sw := -1) else Listed(routes[j])
  }

  predicate Claimed(routes: seq<Route>, n: nat, t: nat, j: nat)
    requires n <= |routes| && t <= |routes| && j < |routes|
  {
    || (exists i :: 0 <= i < n && i < j && SameKey(routes[i], routes[j]))
    || (n < j < t && SameKey(routes[n], routes[j]))
  }

  function Initial(r: Route, claimed: bool): Sug {
    Sug(-1, -1, -1, -1, -1, [r.dir], [if claimed then -1 else r.path])
  }

  /** The verdicts when leaders below `n` are done and leader `n` has claimed its followers below `t`. */
  predicate VerdictsAt(routes: seq<Route>, sug: seq<Sug>, n: nat, t: nat)
    requires n <= |routes| && t <= |routes|
  {
    && |sug| == |routes|
    && (forall j :: 0 <= j < n ==> sug[j] == Verdict(routes, j))
    && (forall j :: n < j < |routes| ==> sug[j] == Initial(routes[j], Claimed(routes, n, t, j)))
  }

  /** The group entries written for the group leaders below `n`. */
  ghost predicate GroupsAt(routes: seq<Route>, groups: map<(nat, nat), seq<nat>>, n: nat)
    requires n <= |routes|
  {
    && (forall k :: 0 <= k < n && IsGroupLeader(routes, k) ==> GroupKey(routes, k) in groups)
    && (forall key :: key in groups ==> exists k :: 0 <= k < n && WritesGroup(routes, groups, k, key))
  }

  ghost predicate WritesGroup(routes: seq<Route>, groups: map<(nat, nat), seq<nat>>, k: nat, key: (nat, nat))
    requires k < |routes| && key in groups
  {
    IsGroupLeader(routes, k) && key == GroupKey(routes, k) && groups[key] == Outputs(routes, k, |routes|)
  }

  function GroupKey(routes: seq<Route>, k: nat): (nat, nat)
    requires k < |routes|
  {
    (routes[k].sw, 1 + GroupsBefore(routes, k, routes[k].sw))
  }

  predicate CountersAt(routes: seq<Route>, counter: seq<nat>, n: nat)
    requires n <= |routes|
  {
    forall sw :: 0 <= sw < |counter| ==> counter[sw] == 1 + GroupsBefore(routes, n, sw)
  }

  lemma {:induction false} NotClaimedIsLeader(routes: seq<Route>, n: nat)
    requires n < |routes|
    ensures Claimed(routes, n, n, n) <==> !Leader(routes, n)
  {}

  lemma {:induction false} ClaimStep(routes: seq<Route>, n: nat)
    requires n < |routes|
    ensures forall j :: n < j < |routes| ==>
      (Claimed(routes, n + 1, n + 1, j) <==> Claimed(routes, n, n, j) || SameKey(routes[n], routes[j]))
  {}

  /** What the test on route `t` finds, and what the lists must look like after it. */
  lemma {:induction false} ListNext(routes: seq<Route>, arps: seq<Arp>, n: nat, t: nat)
    requires n < t < |routes| == |arps|
    ensures Leader(routes, n) && ListAt(routes, arps, n, t) ==>
            && arps[n] == Listed(routes[n])
            && (arps[t].sw != -1 && arps[t].sw == arps[n].sw && arps[t].inp == arps[n].inp <==>
                 SameKey(routes[n], routes[t]))
            && (SameKey(routes[n], routes[t]) ==> arps[t] == Listed(routes[t]))
            && ListAt(routes, if SameKey(routes[n], routes[t]) then arps[t := arps[t].(sw := -1)] else arps, n, t + 1)
  {
    if Leader(routes, n) {
      NotClaimedIsLeader(routes, n);
      ClaimedNext(routes, n, t);
    }
  }

  lemma {:induction false} ClaimedNext(routes: seq<Route>, n: nat, t: nat)
    requires n < t < |routes| && Leader(routes, n)
    ensures Claimed(routes, n, t, t) ==> !SameKey(routes[n], routes[t])
    ensures forall j :: 0 <= j < |routes| ==>
      (Claimed(routes, n, t + 1, j) <==> Claimed(routes, n, t, j) || (j == t && SameKey(routes[n], routes[t])))
  {}

  lemma {:induction false} VerdictsNext(routes: seq<Route>, sug: seq<Sug>, n: nat, t: nat, lead: Sug)
    requires n < t < |routes| == |sug|
    ensures Leader(routes, n) && VerdictsAt(routes, sug, n, t) ==>
            VerdictsAt(routes,
                         if SameKey(routes[n], routes[t]) then sug[n := lead][t := sug[t].(paths := [-1])] else sug,
                         n, t + 1)
  {
    if Leader(routes, n) { ClaimedNext(routes, n, t); }
    hide Verdict, Claimed, Leader;
  }

  /** The leader's verdict and outputs when the routes below `t` have been tested against it. */
  predicate LeadAt(routes: seq<Route>, lead: Sug, outs: seq<nat>, n: nat, t: nat)
    requires n < |routes| && t <= |routes|
  {
    var ms := Members(routes, n, t);
    lead == Sug(-1, -1, -1, -1, -1, DirsOf(routes, ms), PathsOf(routes, ms)) && outs == Outputs(routes, n, t)
  }

  lemma {:induction false} LeadNext(routes: seq<Route>, lead: Sug, outs: seq<nat>, n: nat, t: nat)
    requires n < t < |routes|
    ensures LeadAt(routes, lead, outs, n, t) ==>
            if SameKey(routes[n], routes[t])
            then LeadAt(routes, lead.(paths := lead.paths + [routes[t].path], dirs := lead.dirs + [routes[t].dir]),
                        outs + if routes[t].out != routes[n].out then [routes[t].out] else [], n, t + 1)
            else LeadAt(routes, lead, outs, n, t + 1)
  {
    var a, b := Members(routes, n, t), Members(routes, n, t + 1);
    if SameKey(routes[n], routes[t]) {
      assert PathsOf(routes, b) == PathsOf(routes, a) + [routes[t].path];
      assert DirsOf(routes, b) == DirsOf(routes, a) + [routes[t].dir];
    } else {
      assert Outputs(routes, n, t + 1) == Outputs(routes, n, t) + [];
    }
  }

  lemma {:induction false} ClaimStarts(routes: seq<Route>, arps: seq<Arp>, sug: seq<Sug>, n: nat)
    requires n < |routes| == |arps| == |sug|
    ensures Leader(routes, n) && ListAt(routes, arps, n, n) && VerdictsAt(routes, sug, n, n) &&
            sug[n] == Initial(routes[n], false) ==>
            && arps[n] == Listed(routes[n])
            && ListAt(routes, arps, n, n + 1) && VerdictsAt(routes, sug, n, n + 1)
            && LeadAt(routes, sug[n], [routes[n].out], n, n + 1)
  {
    NotClaimedIsLeader(routes, n);
    assert forall j :: 0 <= j < |routes| ==> Claimed(routes, n, n + 1, j) == Claimed(routes, n, n, j);
  }

  /** The test of leader `n` against route `t`: a follower is struck from the list, its path and direction go to the
      leader's verdict, and its output joins the group when it differs. */
  method ClaimOne(arps: seq<Arp>, sug: seq<Sug>, outs: seq<nat>, n: nat, t: nat)
    returns (arps': seq<Arp>, sug': seq<Sug>, outs': seq<nat>)
    requires n < t < |arps| == |sug|
    ensures var hit := arps[t].sw != -1 && arps[t].sw == arps[n].sw && arps[t].inp == arps[n].inp;
            && arps' == (if hit then arps[t := arps[t].(sw := -1)] else arps)
            && sug' == (if hit then sug[n := sug[n].(paths := sug[n].paths + [arps[t].path],
                                                          dirs := sug[n].dirs + [arps[t].dir])]
                                       [t := sug[t].(paths := [-1])] else sug)
            && outs' == outs + if hit && arps[t].out != arps[n].out then [arps[t].out] else []
  {
    arps', sug', outs' := arps, sug, outs;
    if arps[t].sw != -1 {
      if arps[n].sw == arps[t].sw && arps[n].inp == arps[t].inp && arps[n].out == arps[t].out {
        arps' := arps'[t := arps'[t].(sw := -1)];
        sug' := sug'[n := sug'[n].(paths := sug'[n].paths + [arps[t].path])];
        sug' := sug'[n := sug'[n].(dirs := sug'[n].dirs + [arps[t].dir])];
        sug' := sug'[t := sug'[t].(paths := [-1])];
      } else if arps[n].sw == arps[t].sw && arps[n].inp == arps[t].inp && arps[n].out != arps[t].out {
        outs' := outs' + [arps[t].out];
        arps' := arps'[t := arps'[t].(sw := -1)];
        sug' := sug'[n := sug'[n].(paths := sug'[n].paths + [arps[t].path])];
        sug' := sug'[n := sug'[n].(dirs := sug'[n].dirs + [arps[t].dir])];
        sug' := sug'[t := sug'[t].(paths := [-1])];
      }
    }
  }

  /** The inner loop of the pass: leader `n` claims its followers. */
  method Claim(routes: seq<Route>, arps: seq<Arp>, sug: seq<Sug>, n: nat)
    returns (arps': seq<Arp>, sug': seq<Sug>, groupList: seq<nat>)
    requires n < |routes| == |arps| == |sug| && Known(Leader(routes, n))
    requires Known(ListAt(routes, arps, n, n)) && Known(VerdictsAt(routes, sug, n, n)) &&
             sug[n] == Initial(routes[n], false)
    ensures |arps'| == |sug'| == |routes|
    ensures Known(ListAt(routes, arps', n, |routes|)) && Known(VerdictsAt(routes, sug', n, |routes|))
    ensures Known(LeadAt(routes, sug'[n], groupList, n, |routes|))
  {
    hide ListAt, VerdictsAt, LeadAt, Leader;
    arps', sug' := arps, sug;
    ClaimStarts(routes, arps, sug, n);
    groupList := [arps'[n].out];
    var t := n + 1;
    while t < |routes|
      invariant n < t <= |routes| && |arps'| == |sug'| == |routes|
      invariant Known(ListAt(routes, arps', n, t)) && Known(VerdictsAt(routes, sug', n, t))
      invariant Known(LeadAt(routes, sug'[n], groupList, n, t))
    {
      ListNext(routes, arps', n, t);
      LeadNext(routes, sug'[n], groupList, n, t);
      ghost var sug0 := sug';
      assert groupList + [] == groupList;
      arps', sug', groupList := ClaimOne(arps', sug', groupList, n, t);
      VerdictsNext(routes, sug0, n, t, sug'[n]);
      t := t + 1;
    }
  }

  /** The body of the outer loop for a leader: claim the followers, then decide between a group and a single output. */
  method Lead(routes: seq<Route>, arps: seq<Arp>, sug: seq<Sug>, counter: seq<nat>, groups: map<(nat, nat), seq<nat>>,
              n: nat, install: bool)
    returns (arps': seq<Arp>, sug': seq<Sug>, counter': seq<nat>, groups': map<(nat, nat), seq<nat>>)
    requires n < |routes| == |arps| == |sug| && Leader(routes, n) && routes[n].sw < |counter|
    requires ListAt(routes, arps, n, n) && VerdictsAt(routes, sug, n, n) && sug[n] == Initial(routes[n], false)
    requires CountersAt(routes, counter, n) && if install then GroupsAt(routes, groups, n) else groups == map[]
    ensures |arps'| == |sug'| == |routes| && ListAt(routes, arps', n + 1, n + 1) &&
            VerdictsAt(routes, sug', n + 1, n + 1)
    ensures n + 1 < |routes| ==> sug'[n + 1] == Initial(routes[n + 1], Claimed(routes, n + 1, n + 1, n + 1))
    ensures |counter'| == |counter| && CountersAt(routes, counter', n + 1)
    ensures if install then GroupsAt(routes, groups', n + 1) else groups' == map[]
  {
    hide Leader, Verdict, Claimed, ListAt, VerdictsAt, CountersAt, GroupsAt, IsGroupLeader, Members, Outputs, PathsOf,
         DirsOf;
    counter', groups' := counter, groups;
    var groupList;
    arps', sug', groupList := Claim(routes, arps, sug, n);
    ListHead(routes, arps', n);
    ghost var sug0 := sug';
    var switchNum: nat := arps'[n].sw;
    if |groupList| > 1 {
      if install { groups' := groups'[(switchNum, counter'[switchNum]) := groupList]; }
      sug' := sug'[n := sug'[n].(kind := 1, group := counter'[switchNum], sw := switchNum,
                          inp := arps'[n].inp, out := arps'[n].out)];
      counter' := counter'[switchNum := counter'[switchNum] + 1];
    } else {
      sug' := sug'[n := sug'[n].(kind := 0, group := 0, sw := switchNum, inp := arps'[n].inp, out := arps'[n].out)];
    }
    arps' := arps'[n := arps'[n].(sw := -1)];
    LeaderDone(routes, sug0, counter, groups, n, sug'[n]);
  }

  /** The pass. Group entries are written only while the network is initialised. */
  method GroupRoutes(routes: seq<Route>, switches: nat, install: bool)
    returns (sug: seq<Sug>, groups: map<(nat, nat), seq<nat>>)
    requires forall r :: r in routes ==> r.sw < switches
    ensures |sug| == |routes| && forall k :: 0 <= k < |routes| ==> sug[k] == Verdict(routes, k)
    ensures if install then GroupsAt(routes, groups, |routes|) else groups == map[]
  {
    var arps := seq(|routes|, k requires 0 <= k < |routes| => Listed(routes[k]));
    sug := seq(|routes|, k requires 0 <= k < |routes| => Initial(routes[k], false));
    var counter := seq(switches, _ => 1);
    groups := map[];
    var n := 0;
    hide Leader, Verdict, Claimed, ListAt, VerdictsAt, CountersAt, GroupsAt, IsGroupLeader, Members, Outputs, PathsOf,
         DirsOf;
    PassStarts(routes, arps, sug, counter, groups);
    while n < |routes|
      invariant 0 <= n <= |routes| && |counter| == switches && |arps| == |sug| == |routes|
      invariant ListAt(routes, arps, n, n) && VerdictsAt(routes, sug, n, n)
      invariant n < |routes| ==> sug[n] == Initial(routes[n], Claimed(routes, n, n, n))
      invariant CountersAt(routes, counter, n)
      invariant if install then GroupsAt(routes, groups, n) else groups == map[]
    {
      NotClaimedIsLeader(routes, n);
      ListHead(routes, arps, n);
      assert routes[n] in routes;
      if arps[n].sw != -1 {
        arps, sug, counter, groups := Lead(routes, arps, sug, counter, groups, n, install);
      } else {
        FollowerDone(routes, arps, sug, counter, groups, n);
      }
      n := n + 1;
    }
    PassEnds(routes, sug);
  }

  lemma {:induction false} PassStarts(routes: seq<Route>, arps: seq<Arp>, sug: seq<Sug>, counter: seq<nat>,
                                      groups: map<(nat, nat), seq<nat>>)
    requires |arps| == |sug| == |routes| && groups == map[]
    requires forall k :: 0 <= k < |routes| ==> arps[k] == Listed(routes[k]) && sug[k] == Initial(routes[k], false)
    requires forall k :: 0 <= k < |counter| ==> counter[k] == 1
    ensures ListAt(routes, arps, 0, 0) && VerdictsAt(routes, sug, 0, 0) && CountersAt(routes, counter, 0) &&
            GroupsAt(routes, groups, 0)
    ensures |routes| > 0 ==> sug[0] == Initial(routes[0], Claimed(routes, 0, 0, 0))
  {}

  lemma {:induction false} PassEnds(routes: seq<Route>, sug: seq<Sug>)
    requires VerdictsAt(routes, sug, |routes|, |routes|)
    ensures |sug| == |routes| && forall k :: 0 <= k < |routes| ==> sug[k] == Verdict(routes, k)
  {}

  lemma {:induction false} ListHead(routes: seq<Route>, arps: seq<Arp>, n: nat)
    requires n < |routes|
    ensures ListAt(routes, arps, n, n) ==>
            |arps| == |routes| && (arps[n].sw != -1 <==> Leader(routes, n)) &&
            (Leader(routes, n) ==> arps[n] == Listed(routes[n]))
    ensures Leader(routes, n) && ListAt(routes, arps, n, |routes|) ==>
            arps[n] == Listed(routes[n]) && ListAt(routes, arps[n := arps[n].(sw := -1)], n + 1, n + 1)
    ensures !Leader(routes, n) && ListAt(routes, arps, n, n) ==> ListAt(routes, arps, n + 1, n + 1)
  {
    NotClaimedIsLeader(routes, n);
    ClaimStep(routes, n);
  }

  lemma {:induction false} ClaimRange(routes: seq<Route>, n: nat)
    requires n < |routes|
    ensures forall j :: n < j < |routes| ==>
      (Claimed(routes, n + 1, n + 1, j) <==>
       if Leader(routes, n) then Claimed(routes, n, |routes|, j) else Claimed(routes, n, n, j))
  {
    ClaimStep(routes, n);
    if !Leader(routes, n) {
      forall j | n < j < |routes| && SameKey(routes[n], routes[j]) ensures Claimed(routes, n, n, j) {
        var i :| 0 <= i < n && SameKey(routes[i], routes[n]);
        assert SameKey(routes[i], routes[j]);
      }
    }
  }

  lemma {:induction false} CountersNext(routes: seq<Route>, counter: seq<nat>, n: nat)
    requires n < |routes| && routes[n].sw < |counter| && CountersAt(routes, counter, n)
    ensures counter[routes[n].sw] == 1 + GroupsBefore(routes, n, routes[n].sw)
    ensures IsGroupLeader(routes, n) ==>
            CountersAt(routes, counter[routes[n].sw := counter[routes[n].sw] + 1], n + 1)
    ensures !IsGroupLeader(routes, n) ==> CountersAt(routes, counter, n + 1)
  {
    hide IsGroupLeader;
  }

  lemma {:induction false} GroupsGrow(routes: seq<Route>, i: nat, k: nat, sw: nat)
    requires i <= k <= |routes|
    ensures GroupsBefore(routes, i, sw) <= GroupsBefore(routes, k, sw)
    ensures i < k && IsGroupLeader(routes, i) && routes[i].sw == sw ==>
              GroupsBefore(routes, i, sw) < GroupsBefore(routes, k, sw)
  {
    if i < k { GroupsGrow(routes, i, k - 1, sw); }
  }

  lemma {:induction false} GroupsNext(routes: seq<Route>, groups: map<(nat, nat), seq<nat>>, n: nat)
    requires n < |routes| && GroupsAt(routes, groups, n)
    ensures IsGroupLeader(routes, n) ==>
            GroupsAt(routes, groups[GroupKey(routes, n) := Outputs(routes, n, |routes|)], n + 1)
    ensures !IsGroupLeader(routes, n) ==> GroupsAt(routes, groups, n + 1)
  {
    hide IsGroupLeader, Outputs, GroupsBefore;
    if IsGroupLeader(routes, n) {
      var g := groups[GroupKey(routes, n) := Outputs(routes, n, |routes|)];
      forall key | key in g ensures exists k :: 0 <= k < n + 1 && WritesGroup(routes, g, k, key) {
        if key in groups {
          var k :| 0 <= k < n && WritesGroup(routes, groups, k, key);
          GroupsGrow(routes, k, n, routes[k].sw);
          assert WritesGroup(routes, g, k, key);
        } else {
          assert WritesGroup(routes, g, n, key);
        }
      }
    } else {
      forall key | key in groups ensures exists k :: 0 <= k < n + 1 && WritesGroup(routes, groups, k, key) {
        var k :| 0 <= k < n && WritesGroup(routes, groups, k, key);
      }
    }
  }

  lemma {:induction false} VerdictsDone(routes: seq<Route>, sug: seq<Sug>, n: nat, t: nat)
    requires n < |routes| && t == if Leader(routes, n) then |routes| else n
    requires VerdictsAt(routes, sug, n, t) && sug[n] == Verdict(routes, n)
    ensures VerdictsAt(routes, sug, n + 1, n + 1)
    ensures n + 1 < |routes| ==> sug[n + 1] == Initial(routes[n + 1], Claimed(routes, n + 1, n + 1, n + 1))
  {
    ClaimRange(routes, n);
    hide Claimed, Verdict, Leader;
  }

  /** Leader `n` is done: its verdict is final, and counter and group table are ready for `n` + 1. */
  lemma {:induction false} LeaderDone(routes: seq<Route>, sug: seq<Sug>, counter: seq<nat>, groups: map<(nat, nat),
                                      seq<nat>>, n: nat, lead: Sug)
    requires n < |routes| && Leader(routes, n) && routes[n].sw < |counter|
    requires VerdictsAt(routes, sug, n, |routes|) && CountersAt(routes, counter, n)
    requires var ms := Members(routes, n, |routes|); var r := routes[n];
             lead == if |Outputs(routes, n, |routes|)| > 1
                     then Sug(1, counter[r.sw], r.sw, r.inp, r.out, DirsOf(routes, ms), PathsOf(routes, ms))
                     else Sug(0, 0, r.sw, r.inp, r.out, DirsOf(routes, ms), PathsOf(routes, ms))
    ensures VerdictsAt(routes, sug[n := lead], n + 1, n + 1)
    ensures n + 1 < |routes| ==> sug[n := lead][n + 1] == Initial(routes[n + 1], Claimed(routes, n + 1, n + 1, n + 1))
    ensures (|Outputs(routes, n, |routes|)| > 1) == IsGroupLeader(routes, n)
    ensures IsGroupLeader(routes, n) ==> CountersAt(routes, counter[routes[n].sw := counter[routes[n].sw] + 1], n + 1)
    ensures !IsGroupLeader(routes, n) ==> CountersAt(routes, counter, n + 1)
    ensures GroupsAt(routes, groups, n) && IsGroupLeader(routes, n) ==>
            GroupsAt(routes, groups[(routes[n].sw, counter[routes[n].sw]) := Outputs(routes, n, |routes|)], n + 1)
    ensures GroupsAt(routes, groups, n) && !IsGroupLeader(routes, n) ==> GroupsAt(routes, groups, n + 1)
  {
    CountersNext(routes, counter, n);
    if GroupsAt(routes, groups, n) { GroupsNext(routes, groups, n); }
    assert lead == Verdict(routes, n);
    hide Verdict, GroupsAt, CountersAt;
    assert VerdictsAt(routes, sug[n := lead], n, |routes|);
    VerdictsDone(routes, sug[n := lead], n, |routes|);
  }

  lemma {:induction false} FollowerDone(routes: seq<Route>, arps: seq<Arp>, sug: seq<Sug>, counter: seq<nat>,
                                        groups: map<(nat, nat), seq<nat>>, n: nat)
    requires n < |routes| && !Leader(routes, n) && routes[n].sw < |counter|
    requires VerdictsAt(routes, sug, n, n) && sug[n] == Initial(routes[n], true) && CountersAt(routes, counter, n)
    ensures VerdictsAt(routes, sug, n + 1, n + 1) && CountersAt(routes, counter, n + 1)
    ensures n + 1 < |routes| ==> sug[n + 1] == Initial(routes[n + 1], Claimed(routes, n + 1, n + 1, n + 1))
    ensures GroupsAt(routes, groups, n) ==> GroupsAt(routes, groups, n + 1)
  {
    CountersNext(routes, counter, n);
    if GroupsAt(routes, groups, n) { GroupsNext(routes, groups, n); }
    VerdictsDone(routes, sug, n, n);
  }
}
