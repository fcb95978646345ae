/** The rules that `create_topology` installs for one user, switch by switch. */
module UserRules {
  import opened FlowTable
  import opened Grouping
  import opened Forwarding
  import opened Capacity

  /** The entry for one recorded path of a verdict: to a group or to a port, matched by the user's address. */
  function RuleFor(v: Sug, i: nat, user: string, meter: int): Rule
    requires i < |v.dirs|
  {
    Rule(v.inp, if v.kind > 0 && v.group > 0 then Group(v.group) else Port(v.out),
         user, v.dirs[i] == 1, meter, true, false)
  }

  predicate Bears(v: Sug) { (v.kind > 0 && v.group > 0) || (v.kind == 0 && v.group == 0) }

  /** The rules on switch `s` from the first `n` paths of one verdict. */
  function VerdictRules(v: Sug, n: nat, allowed: set<int>, user: string, meter: int, s: nat): seq<Rule>
    requires n <= |v.paths| == |v.dirs|
  {
    if n == 0 then []
    else VerdictRules(v, n - 1, allowed, user, meter, s) +
         if v.sw == s && Bears(v) && v.paths[n - 1] in allowed then [RuleFor(v, n - 1, user, meter)] else []
  }

  predicate Paired(sug: seq<Sug>) {
    forall k :: 0 <= k < |sug| ==> |sug[k].paths| == |sug[k].dirs|
  }

  /** The rules on switch `s` from the first `n` verdicts. */
  function RulesOn(sug: seq<Sug>, n: nat, allowed: set<int>, user: string, meter: int, s: nat): seq<Rule>
    requires Paired(sug) && n <= |sug|
  {
    if n == 0 then []
    else RulesOn(sug, n - 1, allowed, user, meter, s) +
         VerdictRules(sug[n - 1], |sug[n - 1].paths|, allowed, user, meter, s)
  }

  lemma {:induction false} RulesAreMetered(sug: seq<Sug>, n: nat, allowed: set<int>, user: string, meter: int, s: nat)
    requires Paired(sug) && n <= |sug|
    ensures forall r :: r in RulesOn(sug, n, allowed, user, meter, s) ==> r.metered && r.meter == meter
  {
    if n > 0 {
      RulesAreMetered(sug, n - 1, allowed, user, meter, s);
      VerdictRulesMetered(sug[n - 1], |sug[n - 1].paths|, allowed, user, meter, s);
    }
  }

  lemma {:induction false} VerdictRulesMetered(v: Sug, n: nat, allowed: set<int>, user: string, meter: int, s: nat)
    requires n <= |v.paths| == |v.dirs|
    ensures forall r :: r in VerdictRules(v, n, allowed, user, meter, s) ==> r.metered && r.meter == meter
  {
    if n > 0 { VerdictRulesMetered(v, n - 1, allowed, user, meter, s); }
  }

  function InPaths(allowed: set<int>): Route -> bool {
    (r: Route) => r.path in allowed
  }

  ghost predicate Passed(routes: seq<Route>, sug: seq<Sug>) {
    |sug| == |routes| && forall k :: 0 <= k < |routes| ==> sug[k] == Verdict(routes, k)
  }

  /** A leader's rules are its members whose path is allowed; a follower has none. */
  lemma {:induction false} LeaderRulesCount(routes: seq<Route>, k: nat, n: nat, allowed: set<int>, user: string,
                                            meter: int, s: nat)
    requires k < |routes| && -1 !in allowed
    requires n <= |Verdict(routes, k).paths| == |Verdict(routes, k).dirs|
    ensures |VerdictRules(Verdict(routes, k), n, allowed, user, meter, s)| ==

            if Leader(routes, k) && routes[k].sw == s
            then Hits(routes, Members(routes, k, |routes|)[..n], InPaths(allowed))
            else 0
  {
    if n > 0 {
      LeaderRulesCount(routes, k, n - 1, allowed, user, meter, s);
      var ms := Members(routes, k, |routes|);
      if Leader(routes, k) { assert ms[..n][..n - 1] == ms[..n - 1]; }
      hide Leader, Members;
    }
  }

  /** The entries that verdict `k` adds on a switch. */
  lemma {:induction false} StepRulesCount(routes: seq<Route>, k: nat, allowed: set<int>, user: string, meter: int,
                                          s: nat)
    requires k < |routes| && -1 !in allowed
    ensures var v := Verdict(routes, k);
            |v.paths| == |v.dirs| &&
            Entries(routes, k + 1, |routes|, s, InPaths(allowed)) ==
            Entries(routes, k, |routes|, s, InPaths(allowed)) + |VerdictRules(v, |v.paths|, allowed, user, meter, s)|
  {
    var ms := Members(routes, k, |routes|);
    LeaderRulesCount(routes, k, |Verdict(routes, k).paths|, allowed, user, meter, s);
    if Leader(routes, k) { assert ms[..|ms|] == ms; }
    hide Leader, Members, Hits, VerdictRules;
  }

  lemma {:induction false} RulesCount(routes: seq<Route>, sug: seq<Sug>, n: nat, allowed: set<int>, user: string,
                                      meter: int, s: nat)
    requires Passed(routes, sug) && Paired(sug) && n <= |sug| && -1 !in allowed
    ensures |RulesOn(sug, n, allowed, user, meter, s)| == Entries(routes, n, |routes|, s, InPaths(allowed))
  {
    if n > 0 {
      var k := n - 1;
      assert sug[k] == Verdict(routes, k);
      hide Leader, Members, Hits, VerdictRules, Verdict, Passed, Entries, InPaths;
      RulesCount(routes, sug, k, allowed, user, meter, s);
      StepRulesCount(routes, k, allowed, user, meter, s);
    }
  }

  /** A user gets as many rules on a switch as there are routes of allowed paths there. */
  lemma {:induction false} RulesConserved(routes: seq<Route>, sug: seq<Sug>, allowed: set<int>, user: string,
                                          meter: int, s: nat)
    requires Passed(routes, sug) && Paired(sug) && -1 !in allowed
    ensures |RulesOn(sug, |sug|, allowed, user, meter, s)| == Wanted(routes, |routes|, s, InPaths(allowed))
  {
    RulesCount(routes, sug, |sug|, allowed, user, meter, s);
    EntriesConserved(routes, |routes|, s, InPaths(allowed));
  }

  lemma {:induction false} WantedSame(routes: seq<Route>, n: nat, s: nat, f: Route -> bool, g: Route -> bool)
    requires n <= |routes| && forall r :: f(r) == g(r)
    ensures Wanted(routes, n, s, f) == Wanted(routes, n, s, g)
  {
    if n > 0 { WantedSame(routes, n - 1, s, f, g); }
  }

  /** With one allowed path, what a user needs on any switch fits into a window of twice that path's connections. */
  lemma {:induction false} WindowSuffices(sNums: seq<seq<nat>>, ports: seq<PathPorts>, m: nat, p: nat, s: nat)
    requires Shaped(sNums, ports) && (p < |sNums| ==> 2 * PathCount(ports[p], |ports[p]|) <= m)
    ensures var routes := AllRoutes(sNums, ports, |sNums|); Wanted(routes, |routes|, s, InPaths({p as int})) <= m
  {
    var routes := AllRoutes(sNums, ports, |sNums|);
    PathFits(sNums, ports, m, s, p);
    WantedSame(routes, |routes|, s, InPaths({p as int}), (r: Route) => r.path == p);
  }

  /** As the code is configured, with path 0 allowed, the window of flow_v013 is large enough. */
  lemma {:induction false} DoubledWindowSuffices(sNums: seq<seq<nat>>, ports: seq<PathPorts>, s: nat)
    requires Shaped(sNums, ports)
    ensures var routes := AllRoutes(sNums, ports, |sNums|);
            Wanted(routes, |routes|, s, InPaths({0})) <= RunningMax(Counts(ports))
  {
    if ports != [] { DoublingFirst(Counts(ports)); }
    WindowSuffices(sNums, ports, RunningMax(Counts(ports)), 0, s);
  }
}
