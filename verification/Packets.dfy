/** What the installed entries do to packets: end to end from the configured routes. */
module Packets {
  import opened Facts
  import opened FlowTable
  import opened Ledger
  import opened Grouping
  import opened Forwarding
  import opened Capacity
  import opened UserRules
  import opened Slices

  /** The entry's action on switch `s` sends a packet to port `o`. */
  ghost predicate SendsTo(groups: map<(nat, nat), seq<nat>>, s: nat, r: Rule, o: nat) {
    match r.target
    case Port(port) => port == o
    case Group(group) => group >= 0 && (s, group as nat) in groups && o in groups[(s, group as nat)]
  }

  /** Under the meter, a packet from port `inp` that is to or from the user goes to port `o`. */
  ghost predicate Forwards(f: Flows, groups: map<(nat, nat), seq<nat>>, s: nat, meter: int, inp: nat, user: string,
                           toUser: bool, o: nat) {
    exists n :: n in FlowsOf(f, meter) && AppliesTo(f[n], inp, user, toUser) && SendsTo(groups, s, f[n], o)
  }

  predicate AppliesTo(r: Rule, inp: nat, user: string, toUser: bool) {
    !r.arp && r.inPort == inp && r.user == user && r.toUser == toUser
  }

  /** An ARP packet from port `inp` goes to port `o`. */
  ghost predicate ForwardsArp(f: Flows, groups: map<(nat, nat), seq<nat>>, s: nat, meter: int, inp: nat, o: nat) {
    exists n :: n in FlowsOf(f, meter) && f[n].arp && f[n].inPort == inp && SendsTo(groups, s, f[n], o)
  }

  /** One of the user's paths comes through port `inp` of switch `s` in that direction. */
  ghost predicate OnRoute(routes: seq<Route>, allowed: set<int>, s: nat, inp: nat, toUser: bool) {
    exists j :: 0 <= j < |routes| && Through(routes[j], allowed, s, inp, toUser)
  }

  predicate Through(r: Route, allowed: set<int>, s: nat, inp: nat, toUser: bool) {
    r.sw == s && r.inp == inp && r.path in allowed && (r.dir == 1) == toUser
  }

  /** The rule that path `i` of verdict `c` leads to. */
  predicate FromPath(sug: seq<Sug>, c: nat, i: nat, allowed: set<int>, user: string, meter: int, s: nat, r: Rule)
    requires c < |sug| && i < |sug[c].paths| == |sug[c].dirs|
  {
    sug[c].sw == s && Bears(sug[c]) && sug[c].paths[i] in allowed && r == RuleFor(sug[c], i, user, meter)
  }

  lemma {:induction false} VerdictRuleFrom(v: Sug, n: nat, allowed: set<int>, user: string, meter: int, s: nat,
                                           r: Rule) returns (i: nat)
    requires n <= |v.paths| == |v.dirs| && r in VerdictRules(v, n, allowed, user, meter, s)
    ensures i < n && FromPath([v], 0, i, allowed, user, meter, s, r)
  {
    if r in VerdictRules(v, n - 1, allowed, user, meter, s) {
      i := VerdictRuleFrom(v, n - 1, allowed, user, meter, s, r);
    } else {
      i := n - 1;
    }
  }

  lemma {:induction false} RuleFrom(sug: seq<Sug>, n: nat, allowed: set<int>, user: string, meter: int, s: nat,
                                    r: Rule) returns (c: nat, i: nat)
    requires Paired(sug) && n <= |sug| && r in RulesOn(sug, n, allowed, user, meter, s)
    ensures c < n && i < |sug[c].paths| && FromPath(sug, c, i, allowed, user, meter, s, r)
  {
    if r in RulesOn(sug, n - 1, allowed, user, meter, s) {
      c, i := RuleFrom(sug, n - 1, allowed, user, meter, s, r);
    } else {
      c := n - 1;
      i := VerdictRuleFrom(sug[c], |sug[c].paths|, allowed, user, meter, s, r);
    }
  }

  lemma {:induction false} VerdictHasRule(v: Sug, n: nat, allowed: set<int>, user: string, meter: int, s: nat, i: nat)
    requires i < n <= |v.paths| == |v.dirs| && v.sw == s && Bears(v) && v.paths[i] in allowed
    ensures RuleFor(v, i, user, meter) in VerdictRules(v, n, allowed, user, meter, s)
  {
    if i < n - 1 { VerdictHasRule(v, n - 1, allowed, user, meter, s, i); }
  }

  lemma {:induction false} HasRule(sug: seq<Sug>, n: nat, allowed: set<int>, user: string, meter: int, s: nat, c: nat,
                                   i: nat)
    requires Paired(sug) && c < n <= |sug| && i < |sug[c].paths| && sug[c].sw == s && Bears(sug[c]) &&
             sug[c].paths[i] in allowed
    ensures RuleFor(sug[c], i, user, meter) in RulesOn(sug, n, allowed, user, meter, s)
  {
    if c < n - 1 {
      HasRule(sug, n - 1, allowed, user, meter, s, c, i);
    } else {
      VerdictHasRule(sug[c], |sug[c].paths|, allowed, user, meter, s, i);
    }
  }

  lemma {:induction false} MemberKey(routes: seq<Route>, k: nat, t: nat, i: nat)
    requires k < |routes| && t <= |routes| && i < |Members(routes, k, t)|
    ensures Members(routes, k, t)[i] < |routes| && SameKey(routes[k], routes[Members(routes, k, t)[i]])
  {
    if t > k + 1 && i < |Members(routes, k, t - 1)| { MemberKey(routes, k, t - 1, i); }
  }

  lemma {:induction false} IsMember(routes: seq<Route>, k: nat, t: nat, j: nat) returns (i: nat)
    requires k <= j < t <= |routes| && SameKey(routes[k], routes[j])
    ensures i < |Members(routes, k, t)| && Members(routes, k, t)[i] == j
  {
    if t <= k + 1 {
      i := 0;
    } else if j < t - 1 {
      i := IsMember(routes, k, t - 1, j);
    } else {
      i := |Members(routes, k, t)| - 1;
    }
  }

  /** A rule for a leader sends where the verdict does. */
  lemma {:induction false} RuleSends(routes: seq<Route>, groups: map<(nat, nat), seq<nat>>, k: nat, i: nat,
                                     user: string, meter: int, o: nat)
    requires k < |routes| && Leader(routes, k) && i < |Verdict(routes, k).dirs| && GroupsAt(routes, groups, |routes|)
    ensures SendsTo(groups, routes[k].sw, RuleFor(Verdict(routes, k), i, user, meter), o) <==>
            HasOutput(routes, routes[k].sw, routes[k].inp, o)
  {
    LeaderSends(routes, groups, k, o);
    hide GroupsAt, HasOutput, GroupsBefore, Outputs, Members, Leader;
  }

  /** A user's packets go to exactly the ports of the routes through their switch and input port, if one of the
      user's paths comes that way, and nowhere otherwise. */
  lemma {:induction false} UserPackets(p: Plan, u: nat, name: string, t: nat, s: nat, f: Flows,
                                       rows: map<Key, seq<Row>>, groups: map<(nat, nat), seq<nat>>, inp: nat,
                                       toUser: bool, o: nat)
    requires Served(p, u, name, t, s, f, rows) && GroupsAt(p.routes, groups, |p.routes|)
    ensures Forwards(f, groups, s, Meter(p, u, t, s), inp, name, toUser, o) <==>
            OnRoute(p.routes, Allowed(p, u), s, inp, toUser) && HasOutput(p.routes, s, inp, o)
  {
    var meter, allowed, rules := Meter(p, u, t, s), Allowed(p, u), RulesOf(p, u, name, t, s);
    var sug := Verdicts(p.routes);
    if Forwards(f, groups, s, meter, inp, name, toUser, o) {
      var n :| n in FlowsOf(f, meter) && AppliesTo(f[n], inp, name, toUser) && SendsTo(groups, s, f[n], o);
      ServesRule(f, p.m, meter, rules, n);
      RuleMeans(p.routes, allowed, groups, s, meter, inp, name, toUser, o, f[n]);
    }
    if OnRoute(p.routes, allowed, s, inp, toUser) && HasOutput(p.routes, s, inp, o) {
      var r := RuleExists(p.routes, allowed, groups, s, meter, inp, name, toUser, o);
      var n := ServesNumber(f, p.m, meter, rules, r);
    }
  }

  lemma {:induction false} ServesRule(f: Flows, m: nat, meter: int, rules: seq<Rule>, n: int)
    requires Serves(f, m, meter, rules) && n in FlowsOf(f, meter)
    ensures f[n] in rules
  {
    hide Base;
    assert n in Range(Base(m, meter), |rules|);
    assert f[n] == rules[n - Base(m, meter)];
  }

  lemma {:induction false} ServesNumber(f: Flows, m: nat, meter: int, rules: seq<Rule>, r: Rule) returns (n: int)
    requires Serves(f, m, meter, rules) && r in rules
    ensures n in FlowsOf(f, meter) && f[n] == r
  {
    var i :| 0 <= i < |rules| && rules[i] == r;
    n := Base(m, meter) + i;
    hide Base;
    assert n in Range(Base(m, meter), |rules|);
    assert f[n] == rules[n - Base(m, meter)];
  }

  lemma {:induction false} RuleMeans(routes: seq<Route>, allowed: set<int>, groups: map<(nat, nat), seq<nat>>, s: nat,
                                     meter: int, inp: nat, user: string, toUser: bool, o: nat, r: Rule)
    requires GroupsAt(routes, groups, |routes|) && r in RulesOn(Verdicts(routes), |routes|, allowed, user, meter, s)
    requires AppliesTo(r, inp, user, toUser) && SendsTo(groups, s, r, o)
    ensures OnRoute(routes, allowed, s, inp, toUser) && HasOutput(routes, s, inp, o)
  {
    var c, i := RuleFrom(Verdicts(routes), |routes|, allowed, user, meter, s, r);
    assert Verdicts(routes)[c] == Verdict(routes, c) && Leader(routes, c);
    RuleSends(routes, groups, c, i, user, meter, o);
    MemberKey(routes, c, |routes|, i);
    assert Through(routes[Members(routes, c, |routes|)[i]], allowed, s, inp, toUser);
  }

  lemma {:induction false} RuleExists(routes: seq<Route>, allowed: set<int>, groups: map<(nat, nat), seq<nat>>, s: nat,
                                      meter: int,
                                      inp: nat, user: string, toUser: bool, o: nat) returns (r: Rule)
    requires GroupsAt(routes, groups, |routes|) && OnRoute(routes, allowed, s, inp, toUser) &&
             HasOutput(routes, s, inp, o)
    ensures r in RulesOn(Verdicts(routes), |routes|, allowed, user, meter, s)
    ensures AppliesTo(r, inp, user, toUser) && SendsTo(groups, s, r, o)
  {
    var j :| 0 <= j < |routes| && Through(routes[j], allowed, s, inp, toUser);
    var c := LeaderOf(routes, j);
    var i := IsMember(routes, c, |routes|, j);
    assert Verdicts(routes)[c] == Verdict(routes, c) && Bears(Verdict(routes, c));
    HasRule(Verdicts(routes), |routes|, allowed, user, meter, s, c, i);
    RuleSends(routes, groups, c, i, user, meter, o);
    r := RuleFor(Verdict(routes, c), i, user, meter);
  }

  lemma {:induction false} ArpRuleFrom(p: Plan, n: nat, s: nat, r: Rule) returns (c: nat)
    requires n <= |p.routes| && r in ArpRules(p, n, s)
    ensures c < n && Verdict(p.routes, c).sw == s && Bears(Verdict(p.routes, c)) &&
            r == ArpRule(p, Verdict(p.routes, c))
  {
    if r in ArpRules(p, n - 1, s) { c := ArpRuleFrom(p, n - 1, s, r); } else { c := n - 1; }
  }

  lemma {:induction false} HasArpRule(p: Plan, n: nat, s: nat, c: nat)
    requires c < n <= |p.routes| && Verdict(p.routes, c).sw == s && Bears(Verdict(p.routes, c))
    ensures ArpRule(p, Verdict(p.routes, c)) in ArpRules(p, n, s)
  {
    if c < n - 1 { HasArpRule(p, n - 1, s, c); }
  }

  lemma {:induction false} ArpRuleSends(p: Plan, groups: map<(nat, nat), seq<nat>>, k: nat, o: nat)
    requires k < |p.routes| && Leader(p.routes, k) && GroupsAt(p.routes, groups, |p.routes|)
    ensures SendsTo(groups, p.routes[k].sw, ArpRule(p, Verdict(p.routes, k)), o) <==>
            HasOutput(p.routes, p.routes[k].sw, p.routes[k].inp, o)
  {
    LeaderSends(p.routes, groups, k, o);
    hide GroupsAt, HasOutput, GroupsBefore, Outputs, Members, Leader;
  }

  /** ARP packets go to exactly the ports of the routes through their switch and input port. */
  lemma {:induction false} ArpPackets(p: Plan, s: nat, f: Flows, groups: map<(nat, nat), seq<nat>>, inp: nat, o: nat)
    requires Serves(f, p.m, Last(p), ArpRules(p, |p.routes|, s)) && GroupsAt(p.routes, groups, |p.routes|)
    ensures ForwardsArp(f, groups, s, Last(p), inp, o) <==> HasOutput(p.routes, s, inp, o)
  {
    var rules := ArpRules(p, |p.routes|, s);
    if ForwardsArp(f, groups, s, Last(p), inp, o) {
      var n :| n in FlowsOf(f, Last(p)) && f[n].arp && f[n].inPort == inp && SendsTo(groups, s, f[n], o);
      ServesRule(f, p.m, Last(p), rules, n);
      ArpRuleMeans(p, groups, s, inp, o, f[n]);
    }
    if HasOutput(p.routes, s, inp, o) {
      var r := ArpRuleExists(p, groups, s, inp, o);
      var n := ServesNumber(f, p.m, Last(p), rules, r);
    }
  }

  lemma {:induction false} ArpRuleMeans(p: Plan, groups: map<(nat, nat), seq<nat>>, s: nat, inp: nat, o: nat, r: Rule)
    requires r in ArpRules(p, |p.routes|, s) && GroupsAt(p.routes, groups, |p.routes|)
    requires r.inPort == inp && SendsTo(groups, s, r, o)
    ensures HasOutput(p.routes, s, inp, o)
  {
    var c := ArpRuleFrom(p, |p.routes|, s, r);
    assert Leader(p.routes, c);
    ArpRuleSends(p, groups, c, o);
  }

  lemma {:induction false} ArpRuleExists(p: Plan, groups: map<(nat, nat), seq<nat>>, s: nat, inp: nat, o: nat)
    returns (r: Rule)
    requires HasOutput(p.routes, s, inp, o) && GroupsAt(p.routes, groups, |p.routes|)
    ensures r in ArpRules(p, |p.routes|, s) && r.arp && r.inPort == inp && SendsTo(groups, s, r, o)
  {
    var j :| 0 <= j < |p.routes| && p.routes[j].sw == s && p.routes[j].inp == inp && p.routes[j].out == o;
    var c := LeaderOf(p.routes, j);
    assert Bears(Verdict(p.routes, c));
    HasArpRule(p, |p.routes|, s, c);
    ArpRuleSends(p, groups, c, o);
    r := ArpRule(p, Verdict(p.routes, c));
  }

  /** A route of the user's comes that way exactly when it is configured so. */
  lemma {:induction false} OnRouteComes(sNums: seq<seq<nat>>, ports: seq<PathPorts>, allowed: set<int>, s: nat,
                                        inp: nat, toUser: bool)
    requires Shaped(sNums, ports)
    ensures OnRoute(AllRoutes(sNums, ports, |sNums|), allowed, s, inp, toUser) <==>
              ComesThrough(sNums, ports, allowed, s, inp, toUser)
  {
    var routes := AllRoutes(sNums, ports, |sNums|);
    hide AllRoutes;
    if OnRoute(routes, allowed, s, inp, toUser) {
      var j :| 0 <= j < |routes| && Through(routes[j], allowed, s, inp, toUser);
      RoutesExact(sNums, ports, routes[j]);
      var p: nat, i: nat, c: nat :| OnConn(sNums, ports, p, i, c, routes[j]);
      assert EntersBy(sNums, ports, p, i, c, allowed, s, inp, toUser);
    }
    forall p: nat, i: nat, c: nat | EntersBy(sNums, ports, p, i, c, allowed, s, inp, toUser)
      ensures OnRoute(routes, allowed, s, inp, toUser)
    {
      var conn := ports[p][i][c];
      var r := if toUser then Route(s, conn.1, conn.0, 1, p) else Route(s, conn.0, conn.1, 0, p);
      RoutesExact(sNums, ports, r);
      assert OnConn(sNums, ports, p, i, c, r);
      var j :| 0 <= j < |routes| && routes[j] == r;
      assert Through(routes[j], allowed, s, inp, toUser);
    }
  }

  /** On a network set up from its configured paths, ARP packets go along the connections of their switch, either
      way. */
  lemma {:induction false} ConfiguredArp(p: Plan, sNums: seq<seq<nat>>, ports: seq<PathPorts>, s: nat, f: Flows,
                                         groups: map<(nat, nat), seq<nat>>, inp: nat, o: nat)
    requires Shaped(sNums, ports) && p.routes == AllRoutes(sNums, ports, |sNums|)
    requires Serves(f, p.m, Last(p), ArpRules(p, |p.routes|, s)) && GroupsAt(p.routes, groups, |p.routes|)
    ensures ForwardsArp(f, groups, s, Last(p), inp, o) <==> Joins(sNums, ports, s, inp, o)
  {
    ArpPackets(p, s, f, groups, inp, o);
    OutputsJoin(sNums, ports, s, inp, o);
  }
}
