/** What the grouping pass promises: forwarding is preserved, and every route is accounted for once. */
module Forwarding {
  import opened Grouping

  predicate HasOutput(routes: seq<Route>, sw: nat, inp: nat, o: nat) {
    exists j :: 0 <= j < |routes| && routes[j].sw == sw && routes[j].inp == inp && routes[j].out == o
  }

  /** The compiled table sends what arrives on (`sw`, `inp`) to `o`. */
  ghost predicate Delivers(sug: seq<Sug>, groups: map<(nat, nat), seq<nat>>, sw: nat, inp: nat, o: nat) {
    exists k :: 0 <= k < |sug| && Sends(sug[k], groups, sw, inp, o)
  }

  ghost predicate Sends(v: Sug, groups: map<(nat, nat), seq<nat>>, sw: nat, inp: nat, o: nat) {
    && v.sw == sw && v.inp == inp
    && if v.kind == 1 then v.group >= 0 && (sw, v.group) in groups && o in groups[(sw, v.group)]
       else v.kind == 0 && v.out == o
  }

  lemma {:induction false} OutputsExact(routes: seq<Route>, k: nat, t: nat, o: nat)
    requires k < |routes| && k < t <= |routes|
    ensures o in Outputs(routes, k, t) <==>
              exists j :: k <= j < t && SameKey(routes[k], routes[j]) && routes[j].out == o
  {
    if t > k + 1 { OutputsExact(routes, k, t - 1, o); }
  }

  lemma {:induction false} LeaderOf(routes: seq<Route>, j: nat) returns (k: nat)
    requires j < |routes|
    ensures k <= j && Leader(routes, k) && SameKey(routes[k], routes[j])
  {
    if Leader(routes, j) {
      k := j;
    } else {
      var i :| 0 <= i < j && SameKey(routes[i], routes[j]);
      k := LeaderOf(routes, i);
    }
  }

  /** There is exactly one rule-bearing verdict for each (switch, input port) that occurs. */
  lemma {:induction false} OneLeaderPerKey(routes: seq<Route>, k: nat, l: nat)
    requires k < |routes| && l < |routes| && Leader(routes, k) && Leader(routes, l) && SameKey(routes[k], routes[l])
    ensures k == l
  {}

  /** Group numbers are never shared on a switch. */
  lemma {:induction false} GroupKeysDiffer(routes: seq<Route>, k: nat, l: nat)
    requires k < |routes| && l < |routes| && IsGroupLeader(routes, k) && IsGroupLeader(routes, l)
    requires GroupKey(routes, k) == GroupKey(routes, l)
    ensures k == l
  {
    if k < l { GroupsGrow(routes, k, l, routes[k].sw); }
    if l < k { GroupsGrow(routes, l, k, routes[l].sw); }
  }

  lemma {:induction false} GroupLookup(routes: seq<Route>, groups: map<(nat, nat), seq<nat>>, k: nat)
    requires k < |routes| && IsGroupLeader(routes, k) && GroupsAt(routes, groups, |routes|)
    ensures GroupKey(routes, k) in groups && groups[GroupKey(routes, k)] == Outputs(routes, k, |routes|)
  {
    hide IsGroupLeader, GroupsBefore, Outputs;
    var l :| 0 <= l < |routes| && WritesGroup(routes, groups, l, GroupKey(routes, k));
    GroupKeysDiffer(routes, k, l);
  }

  /** A leader that is no group leader has one output for all its routes. */
  lemma {:induction false} SingleOutput(routes: seq<Route>, k: nat, o: nat)
    requires k < |routes| && Leader(routes, k) && !IsGroupLeader(routes, k)
    ensures o in Outputs(routes, k, |routes|) <==> o == routes[k].out
  {
    var os := Outputs(routes, k, |routes|);
    assert |os| == 1 && os[0] == routes[k].out;
  }

  /** What one leader's rule sends is what the routes with its key ask for. */
  lemma {:induction false} LeaderSends(routes: seq<Route>, groups: map<(nat, nat), seq<nat>>, k: nat, o: nat)
    requires k < |routes| && Leader(routes, k) && GroupsAt(routes, groups, |routes|)
    ensures Sends(Verdict(routes, k), groups, routes[k].sw, routes[k].inp, o) <==>
              HasOutput(routes, routes[k].sw, routes[k].inp, o)
  {
    OutputsExact(routes, k, |routes|, o);
    if IsGroupLeader(routes, k) { GroupLookup(routes, groups, k); } else { SingleOutput(routes, k, o); }
    assert o in Outputs(routes, k, |routes|) <==> HasOutput(routes, routes[k].sw, routes[k].inp, o) by {
      if HasOutput(routes, routes[k].sw, routes[k].inp, o) {
        var j :| 0 <= j < |routes| && routes[j].sw == routes[k].sw &&
                 routes[j].inp == routes[k].inp && routes[j].out == o;
        assert SameKey(routes[k], routes[j]) && SameKey(routes[j], routes[k]);
      }
    }
  }

  /** Grouping preserves forwarding: the compiled rules and groups deliver to exactly the ports of the routes. */
  lemma {:induction false} ForwardingPreserved(routes: seq<Route>, sug: seq<Sug>, groups: map<(nat, nat), seq<nat>>,
                                               sw: nat, inp: nat, o: nat)
    requires |sug| == |routes| && forall k :: 0 <= k < |routes| ==> sug[k] == Verdict(routes, k)
    requires GroupsAt(routes, groups, |routes|)
    ensures Delivers(sug, groups, sw, inp, o) <==> HasOutput(routes, sw, inp, o)
  {
    if Delivers(sug, groups, sw, inp, o) {
      var k :| 0 <= k < |sug| && Sends(sug[k], groups, sw, inp, o);
      assert Leader(routes, k);
      LeaderSends(routes, groups, k, o);
    }
    if HasOutput(routes, sw, inp, o) {
      var j :| 0 <= j < |routes| && routes[j].sw == sw && routes[j].inp == inp && routes[j].out == o;
      var k := LeaderOf(routes, j);
      LeaderSends(routes, groups, k, o);
      assert Sends(sug[k], groups, sw, inp, o);
    }
  }

  /** How many of the listed routes satisfy `want`. */
  function Hits(routes: seq<Route>, ms: seq<nat>, want: Route -> bool): nat
    requires Below(ms, |routes|)
  {
    if ms == [] then 0
    else
      var j := ms[|ms| - 1];
      Hits(routes, ms[..|ms| - 1], want) + if want(routes[j]) then 1 else 0
  }

  /** How many of the first `n` routes on switch `sw` satisfy `want`. */
  function Wanted(routes: seq<Route>, n: nat, sw: nat, want: Route -> bool): nat
    requires n <= |routes|
  {
    if n == 0 then 0
    else Wanted(routes, n - 1, sw, want) + if routes[n - 1].sw == sw && want(routes[n - 1]) then 1 else 0
  }

  /** The same count through the leaders below `n` and the members they have below `t`. */
  function Entries(routes: seq<Route>, n: nat, t: nat, sw: nat, want: Route -> bool): nat
    requires n <= |routes| && t <= |routes|
  {
    if n == 0 then 0
    else Entries(routes, n - 1, t, sw, want) + Share(routes, n - 1, t, sw, want)
  }

  /** What route `k` contributes: if it is a leader on the switch, the members it has below `t`. */
  function Share(routes: seq<Route>, k: nat, t: nat, sw: nat, want: Route -> bool): nat
    requires k < |routes| && t <= |routes|
  {
    if Leader(routes, k) && routes[k].sw == sw then Hits(routes, Members(routes, k, t), want) else 0
  }

  lemma {:induction false} HitsAppend(routes: seq<Route>, ms: seq<nat>, j: nat, want: Route -> bool)
    requires j < |routes| && Below(ms, |routes|)
    ensures Hits(routes, ms + [j], want) == Hits(routes, ms, want) + if want(routes[j]) then 1 else 0
  {
    assert (ms + [j])[..|ms|] == ms;
  }

  lemma {:induction false} MembersNext(routes: seq<Route>, k: nat, t: nat)
    requires k < t < |routes|
    ensures Members(routes, k, t + 1) ==
            if SameKey(routes[k], routes[t]) then Members(routes, k, t) + [t] else Members(routes, k, t)
  {}

  /** Testing route `t` adds it to the share of the first route with its key. */
  lemma {:induction false} ShareNext(routes: seq<Route>, k: nat, t: nat, sw: nat, want: Route -> bool)
    requires k < t < |routes|
    ensures Share(routes, k, t + 1, sw, want) == Share(routes, k, t, sw, want) +
            if Met(routes, k + 1, t) && !Met(routes, k, t) && routes[t].sw == sw && want(routes[t]) then 1 else 0
    ensures Met(routes, k, t) ==> Met(routes, k + 1, t)
  {
    MembersNext(routes, k, t);
    HitsAppend(routes, Members(routes, k, t), t, want);
    MetNext(routes, k, t);
    assert SameKey(routes[k], routes[t]) ==> routes[k].sw == routes[t].sw;
    hide Met, Leader, Members, SameKey, Hits;
  }

  /** Testing route `t` adds it to its leader, if that is among the first `n`. */
  lemma {:induction false} EntriesNext(routes: seq<Route>, n: nat, t: nat, sw: nat, want: Route -> bool)
    requires n <= t < |routes|
    ensures Entries(routes, n, t + 1, sw, want) == Entries(routes, n, t, sw, want) +
            if Met(routes, n, t) && routes[t].sw == sw && want(routes[t]) then 1 else 0
  {
    hide Share;
    if n > 0 {
      hide Met;
      EntriesNext(routes, n - 1, t, sw, want);
      ShareNext(routes, n - 1, t, sw, want);
    }
  }

  /** One of the first `n` routes has the key of route `t`. */
  predicate Met(routes: seq<Route>, n: nat, t: nat)
    requires n <= |routes| && t < |routes|
  {
    exists k :: 0 <= k < n && SameKey(routes[k], routes[t])
  }

  lemma {:induction false} MetNext(routes: seq<Route>, k: nat, t: nat)
    requires k < t < |routes|
    ensures Met(routes, k + 1, t) <==> Met(routes, k, t) || SameKey(routes[k], routes[t])
    ensures SameKey(routes[k], routes[t]) ==> (Leader(routes, k) <==> !Met(routes, k, t))
  {
    if SameKey(routes[k], routes[t]) {
      assert forall i :: 0 <= i < k ==> SameKey(routes[i], routes[k]) == SameKey(routes[i], routes[t]);
    }
  }

  /** Leaders' entries account for every route exactly once, whatever is counted. */
  lemma {:induction false} EntriesConserved(routes: seq<Route>, t: nat, sw: nat, want: Route -> bool)
    requires t <= |routes|
    ensures Entries(routes, t, t, sw, want) == Wanted(routes, t, sw, want)
  {
    if t > 0 {
      var k := t - 1;
      EntriesConserved(routes, k, sw, want);
      EntriesNext(routes, k, k, sw, want);
      assert Leader(routes, k) <==> !Met(routes, k, k);
      assert Members(routes, k, t) == [k];
      HitsAppend(routes, [], k, want);
      assert [] + [k] == [k];
    }
  }
}
