/** The controller's flow and meter tables: first-free flow numbers in per-meter windows, and the bounded-miss scan. */
module FlowTable {

  datatype Target = Port(port: int) | Group(group: int)

  /** A flow entry. `user` is the address matched, as destination when `toUser`; `arp` tells the ethernet type. */
  datatype Rule = Rule(inPort: int, target: Target, user: string, toUser: bool, meter: int, metered: bool, arp: bool)

  type Flows = map<int, Rule>

  /** The first flow number of a meter; `m` flows per meter. */
  function Base(m: nat, meter: int): int {
    1 + m * (meter - 1)
  }

  predicate InWindow(m: nat, meter: int, n: int) {
    Base(m, meter) <= n < Base(m, meter) + m
  }

  /** The first meter's numbers start at 1, and those of a meter `m` after those of the one before; no window begins
      before the one before it ends. */
  lemma {:induction false} WindowsInTurn(m: nat, meter: nat, n: int)
    requires meter > 0
    ensures InWindow(m, meter, n) <==> m * (meter - 1) < n <= m * meter
    ensures InWindow(m, 1, n) <==> 1 <= n <= m
  {
    assert m * meter == m * (meter - 1) + m;
  }

  lemma {:induction false} WindowsOrdered(m: nat, a: int, b: int)
    requires a < b
    ensures Base(m, a) + m <= Base(m, b)
    decreases b - a
  {
    assert m * a == m * (a - 1) + m;
    if a + 1 < b { WindowsOrdered(m, a + 1, b); }
  }

  /** Windows of different meters do not meet. */
  lemma {:induction false} WindowsApart(m: nat, a: int, b: int, n: int)
    requires InWindow(m, a, n) && InWindow(m, b, n)
    ensures a == b
  {
    if a < b { WindowsOrdered(m, a, b); }
    if b < a { WindowsOrdered(m, b, a); }
  }

  ghost predicate Carries(f: Flows, meter: int, n: int) {
    n in f && f[n].metered && f[n].meter == meter
  }

  ghost function FlowsOf(f: Flows, meter: int): set<int> {
    set n | n in f && Carries(f, meter, n)
  }

  /** Every entry is metered and numbered inside its meter's window; entries of the last meter may run past it. */
  ghost predicate Windowed(f: Flows, m: nat, last: int) {
    forall n :: n in f ==> f[n].metered && Fits(m, last, f[n].meter, n)
  }

  predicate Fits(m: nat, last: int, meter: int, n: int) {
    Base(m, meter) <= n && (n < Base(m, meter) + m || meter == last)
  }

  /** A number in the window of a meter before the last is no other meter's. */
  lemma {:induction false} FitsApart(m: nat, last: int, meter: int, other: int, n: int)
    requires InWindow(m, meter, n) && meter < last && Fits(m, last, other, n)
    ensures other == meter
  {
    if InWindow(m, other, n) { WindowsApart(m, meter, other, n); } else { WindowsOrdered(m, meter, last); }
  }

  /** What the scan takes out: entries of the meter, and entries with no meter that are not ARP. */
  predicate Matches(r: Rule, meter: int) {
    (r.metered && r.meter == meter) || (!r.metered && !r.arp)
  }

  /** How many of the `k` numbers from `from` on the scan for a meter counts as misses. */
  function Misses(f: Flows, meter: int, from: int, k: nat): nat {
    if k == 0 then 0
    else Misses(f, meter, from, k - 1) + if from + k - 1 in f && Matches(f[from + k - 1], meter) then 0 else 1
  }

  /** The table after the scan has seen the first `k` numbers: their matching entries are gone. */
  ghost predicate Scanned(f0: Flows, f: Flows, m: nat, meter: int, k: nat) {
    && (forall n :: n in f <==> n in f0 && !(Base(m, meter) <= n < Base(m, meter) + k && Matches(f0[n], meter)))
    && (forall n :: n in f ==> f[n] == f0[n])
    && (k > 0 ==> Misses(f0, meter, Base(m, meter), k - 1) <= m)
  }

  lemma {:induction false} ScanStarts(f: Flows, m: nat, meter: int)
    ensures Scanned(f, f, m, meter, 0) && Misses(f, meter, Base(m, meter), 0) == 0
  {}

  lemma {:induction false} ScanNext(f0: Flows, f: Flows, m: nat, meter: int, k: nat)
    requires Scanned(f0, f, m, meter, k) && Misses(f0, meter, Base(m, meter), k) <= m
    ensures var n, misses := Base(m, meter) + k, Misses(f0, meter, Base(m, meter), k);
            if n in f && Matches(f[n], meter)
            then Scanned(f0, f - {n}, m, meter, k + 1) && Misses(f0, meter, Base(m, meter), k + 1) == misses
            else Scanned(f0, f, m, meter, k + 1) && Misses(f0, meter, Base(m, meter), k + 1) == misses + 1
  {
    hide Base, Matches;
  }

  lemma {:induction false} ScanDone(f0: Flows, f: Flows, m: nat, meter: int, k: nat)
    requires Scanned(f0, f, m, meter, k) && Misses(f0, meter, Base(m, meter), k) == m + 1
    ensures forall n :: n in f ==> n in f0 && f[n] == f0[n]
    ensures forall n :: n in f0 ==> (n !in f <==> Reached(f0, m, meter, n))
    ensures forall n :: n in f0 && InWindow(m, meter, n) ==> (n !in f <==> Matches(f0[n], meter))
  {
    var base := Base(m, meter);
    hide Base, Matches;
    MissesGrow(f0, meter, base, 0, k);
    MissesBound(f0, meter, base, k);
    forall n | n in f0 ensures n !in f <==> Reached(f0, m, meter, n) {
      if base <= n < base + k { MissesGrow(f0, meter, base, n - base, k - 1); }
      if n >= base + k { MissesGrow(f0, meter, base, k, n - base); }
    }
  }

  /** On a windowed table the scan takes out all flows of a meter before the last. */
  lemma {:induction false} ScanPurges(f0: Flows, f: Flows, m: nat, meter: int, last: int)
    requires forall n :: n in f ==> n in f0 && f[n] == f0[n]
    requires forall n :: n in f0 ==> (n !in f <==> Reached(f0, m, meter, n))
    requires forall n :: n in f0 && InWindow(m, meter, n) ==> (n !in f <==> Matches(f0[n], meter))
    requires meter < last && Windowed(f0, m, last)
    ensures var g := Purged(f0, meter);
            (forall n :: n in f ==> n in g && f[n] == g[n]) && forall n :: n in g ==> n in f
  {
    hide Base, Misses;
    forall n | n in f0 ensures n in f <==> !Matches(f0[n], meter) {
      if f0[n].meter == meter { assert InWindow(m, meter, n); }
    }
  }

  lemma {:induction false} MissesBound(f: Flows, meter: int, from: int, k: nat)
    ensures Misses(f, meter, from, k) <= k
  {
    if k > 0 { MissesBound(f, meter, from, k - 1); }
  }

  lemma {:induction false} MissesGrow(f: Flows, meter: int, from: int, j: nat, k: nat)
    requires j <= k
    ensures Misses(f, meter, from, j) <= Misses(f, meter, from, k)
  {
    if j < k { MissesGrow(f, meter, from, j, k - 1); }
  }

  /** The scan takes out entry `n`: it matches, and at most `m` misses come before it. */
  predicate Reached(f: Flows, m: nat, meter: int, n: int) {
    n in f && Matches(f[n], meter) && Base(m, meter) <= n && Misses(f, meter, Base(m, meter), n - Base(m, meter)) <= m
  }

  function Purged(f: Flows, meter: int): Flows {
    map n | n in f && !Matches(f[n], meter) :: f[n]
  }

  function Range(a: int, k: nat): (s: set<int>)
    ensures |s| == k
    ensures forall n :: n in s <==> a <= n < a + k
  {
    if k == 0 then {} else Range(a, k - 1) + {a + k - 1}
  }

  /** The numbers still ahead of a probe. */
  ghost function Above(keys: set<int>, n: int): set<int> {
    set k | k in keys && k >= n
  }

  lemma {:induction false} SubsetSize(s: set<int>, t: set<int>)
    requires s <= t
    ensures |s| <= |t|
    ensures s < t ==> |s| < |t|
  {
    assert t == s + (t - s);
    if s < t && t - s == {} { assert false; }
  }

  /** First-free probing lands in the meter's window exactly when the meter holds fewer than `m` flows. */
  lemma {:induction false} ProbeLands(f: Flows, m: nat, last: int, meter: int, n: int)
    requires Windowed(f, m, last) && meter < last && Base(m, meter) <= n && n !in f
    requires forall k :: Base(m, meter) <= k < n ==> k in f
    ensures InWindow(m, meter, n) <==> |FlowsOf(f, meter)| < m
  {
    var w := Range(Base(m, meter), m);
    forall k | k in f && InWindow(m, meter, k) ensures k in FlowsOf(f, meter) {
      FitsApart(m, last, meter, f[k].meter, k);
    }
    assert FlowsOf(f, meter) <= w;
    if InWindow(m, meter, n) {
      assert n in w && n !in FlowsOf(f, meter);
      SubsetSize(FlowsOf(f, meter), w);
    } else {
      SubsetSize(w, FlowsOf(f, meter));
    }
  }

  /** Adding a metered flow by first-free probing keeps every flow where it belongs exactly when the meter is not
      full, or is the last. */
  lemma {:induction false} ProbeKeepsWindows(f: Flows, m: nat, last: int, rule: Rule, n: int)
    requires Windowed(f, m, last) && rule.metered && rule.meter <= last && Base(m, rule.meter) <= n && n !in f
    requires forall k :: Base(m, rule.meter) <= k < n ==> k in f
    ensures Windowed(f[n := rule], m, last) <==> |FlowsOf(f, rule.meter)| < m || rule.meter == last
  {
    if rule.meter < last { ProbeLands(f, m, last, rule.meter, n); }
    assert f[n := rule][n] == rule;
  }

  /** Misplaced entries stay misplaced. */
  lemma {:induction false} MisplacedStays(f: Flows, m: nat, last: int, rule: Rule, n: int)
    requires n !in f && Windowed(f[n := rule], m, last)
    ensures Windowed(f, m, last)
  {
    forall k | k in f ensures f[k].metered && Fits(m, last, f[k].meter, k) { assert f[n := rule][k] == f[k]; }
  }

  lemma {:induction false} OneFlowMore(f: Flows, rule: Rule, n: int)
    requires n !in f && rule.metered
    ensures |FlowsOf(f[n := rule], rule.meter)| == |FlowsOf(f, rule.meter)| + 1
  {
    var g := f[n := rule];
    forall k ensures k in FlowsOf(g, rule.meter) <==> k in FlowsOf(f, rule.meter) + {n} {
      assert k in f ==> g[k] == if k == n then rule else f[k];
    }
    assert FlowsOf(g, rule.meter) == FlowsOf(f, rule.meter) + {n} && n !in FlowsOf(f, rule.meter);
  }

  /** `rules` stored under consecutive numbers from `base` on. */
  function Stored(f: Flows, base: int, rules: seq<Rule>): Flows {
    if rules == [] then f
    else Stored(f, base, rules[..|rules| - 1])[base + |rules| - 1 := rules[|rules| - 1]]
  }

  lemma {:induction false} StoredAt(f: Flows, base: int, rules: seq<Rule>, n: int)
    ensures base <= n < base + |rules| ==> n in Stored(f, base, rules) && Stored(f, base, rules)[n] == rules[n - base]
    ensures !(base <= n < base + |rules|) ==> (n in Stored(f, base, rules) <==> n in f)
    ensures !(base <= n < base + |rules|) && n in f ==> Stored(f, base, rules)[n] == f[n]
  {
    if rules != [] { StoredAt(f, base, rules[..|rules| - 1], n); }
  }

  /** The table after a meter without flows got `rules`, in order. */
  function Installed(f: Flows, m: nat, meter: int, rules: seq<Rule>): Flows {
    Stored(f, Base(m, meter), rules)
  }

  lemma {:induction false} EmptyWindow(f: Flows, m: nat, last: int, meter: int, n: int)
    requires Windowed(f, m, last) && meter < last && FlowsOf(f, meter) == {} && InWindow(m, meter, n)
    ensures n !in f
  {
    if n in f { FitsApart(m, last, meter, f[n].meter, n); }
    assert n in f ==> n in FlowsOf(f, meter);
  }

  /** Where the numbers from `base` on are free, each probe finds the next one. */
  lemma {:induction false} StoredNext(f: Flows, base: int, rules: seq<Rule>, rule: Rule, n: int)
    requires base + |rules| !in f
    requires base <= n && n !in Stored(f, base, rules) && forall k :: base <= k < n ==> k in Stored(f, base, rules)
    ensures n == base + |rules| && Stored(f, base, rules)[n := rule] == Stored(f, base, rules + [rule])
  {
    hide Stored;
    StoredAt(f, base, rules, base + |rules|);
    StoredAt(f, base, rules, n);
    assert n == base + |rules|;
    StoredLast(f, base, rules, rule);
  }

  lemma {:induction false} StoredLast(f: Flows, base: int, rules: seq<Rule>, rule: Rule)
    ensures Stored(f, base, rules)[base + |rules| := rule] == Stored(f, base, rules + [rule])
  {
    assert (rules + [rule])[..|rules|] == rules;
  }

  /** On a windowed table without flows of the meter, each probe finds the next number of the window. */
  lemma {:induction false} InstallNext(f: Flows, m: nat, last: int, meter: int, rules: seq<Rule>, rule: Rule, n: int)
    requires Windowed(f, m, last) && meter < last && FlowsOf(f, meter) == {} && |rules| < m
    requires Base(m, meter) <= n && n !in Installed(f, m, meter, rules)
    requires forall k :: Base(m, meter) <= k < n ==> k in Installed(f, m, meter, rules)
    ensures n == Base(m, meter) + |rules|
    ensures Installed(f, m, meter, rules)[n := rule] == Installed(f, m, meter, rules + [rule])
  {
    EmptyWindow(f, m, last, meter, Base(m, meter) + |rules|);
    hide Base, Windowed, FlowsOf, Stored;
    StoredNext(f, Base(m, meter), rules, rule, n);
  }

  lemma {:induction false} InstalledAt(f: Flows, m: nat, last: int, meter: int, rules: seq<Rule>, n: int)
    requires Windowed(f, m, last) && meter < last && FlowsOf(f, meter) == {} && |rules| <= m
    ensures var g, base := Installed(f, m, meter, rules), Base(m, meter);
            if base <= n < base + |rules|
            then n !in f && n in g && g[n] == rules[n - base] && g[n] in rules && Fits(m, last, meter, n)
            else (n in g <==> n in f) && (n in f ==> g[n] == f[n] && !Carries(f, meter, n))
  {
    var base := Base(m, meter);
    assert n !in FlowsOf(f, meter);
    StoredAt(f, base, rules, n);
    if base <= n < base + |rules| { EmptyWindow(f, m, last, meter, n); }
  }

  /** Installing keeps the windows and every other meter's flows, and gives the meter exactly the rules. */
  lemma {:induction false} InstalledWindowed(f: Flows, m: nat, last: int, meter: int, rules: seq<Rule>)
    requires Windowed(f, m, last) && meter < last && FlowsOf(f, meter) == {} && |rules| <= m
    requires forall r :: r in rules ==> r.metered && r.meter == meter
    ensures Windowed(Installed(f, m, meter, rules), m, last)
    ensures forall n :: n in f ==> n in Installed(f, m, meter, rules) && Installed(f, m, meter, rules)[n] == f[n]
    ensures FlowsOf(Installed(f, m, meter, rules), meter) == Range(Base(m, meter), |rules|)
    ensures forall a :: a != meter ==> FlowsOf(Installed(f, m, meter, rules), a) == FlowsOf(f, a)
  {
    var g, base := Installed(f, m, meter, rules), Base(m, meter);
    assert forall n :: n in f ==> f[n].metered && Fits(m, last, f[n].meter, n);
    hide Installed, Stored, Base, Windowed, FlowsOf, Fits;
    forall n ensures n in f ==> n in g && g[n] == f[n] { InstalledAt(f, m, last, meter, rules, n); }
    forall n | n in g ensures g[n].metered && Fits(m, last, g[n].meter, n) { InstalledAt(f, m, last, meter, rules, n); }
    forall a, n ensures Carries(g, a, n) <==> if a == meter then base <= n < base + |rules| else Carries(f, a, n) {
      InstalledAt(f, m, last, meter, rules, n);
    }
    InstalledFlows(f, g, meter, base, |rules|);
    WindowedFrom(g, m, last);
  }

  lemma {:induction false} WindowedFrom(g: Flows, m: nat, last: int)
    requires forall n :: n in g ==> g[n].metered && Fits(m, last, g[n].meter, n)
    ensures Windowed(g, m, last)
  {}

  lemma {:induction false} InstalledFlows(f: Flows, g: Flows, meter: int, base: int, k: nat)
    requires forall a, n :: Carries(g, a, n) <==> if a == meter then base <= n < base + k else Carries(f, a, n)
    ensures FlowsOf(g, meter) == Range(base, k)
    ensures forall a :: a != meter ==> FlowsOf(g, a) == FlowsOf(f, a)
  {
    forall n ensures n in FlowsOf(g, meter) <==> n in Range(base, k) {
      assert Carries(g, meter, n) <==> base <= n < base + k;
    }
    forall a | a != meter ensures FlowsOf(g, a) == FlowsOf(f, a) {
      forall n ensures n in FlowsOf(g, a) <==> n in FlowsOf(f, a) {
        assert Carries(g, a, n) <==> Carries(f, a, n);
      }
    }
  }

  /** `k` kilobits per second are a rate in megabytes per second: 8000 times the rate, but for the part behind the
      point, which is cut off. */
  predicate Kilobits(k: int, rate: real) {
    if rate >= 0.0 then k as real <= 8.0 * 1000.0 * rate < k as real + 1.0
    else k as real - 1.0 < 8.0 * 1000.0 * rate <= k as real
  }

  /** The rate in kilobits per second, truncated toward zero. */
  function Kbps(rate: real): (k: int)
    ensures Kilobits(k, rate)
  {
    if rate >= 0.0 then (rate * 8000.0).Floor else -((-rate * 8000.0).Floor)
  }

  /** The configuration of every switch, as the controller holds it. */
  class Store {
    const m: nat
    var flows: seq<Flows>
    var meters: seq<map<int, int>>

    ghost predicate Valid()
      reads this
    {
      |flows| == |meters|
    }

    /** Cleared switches. */
    constructor (m: nat, switches: nat)
      ensures Valid() && this.m == m && |flows| == switches
      ensures forall s :: 0 <= s < switches ==> flows[s] == map[] && meters[s] == map[]
    {
      this.m := m;
      flows := seq(switches, _ => map[]);
      meters := seq(switches, _ => map[]);
    }

    /** `add_meter`: the first free meter number from 1. */
    method AddMeter(s: nat, rate: real) returns (meter: int)
      requires Valid() && s < |flows|
      modifies this`meters
      ensures Valid() && meter >= 1 && meter !in old(meters)[s]
      ensures forall k :: 1 <= k < meter ==> k in old(meters)[s]
      ensures meters == old(meters)[s := old(meters)[s][meter := Kbps(rate)]] && Kilobits(meters[s][meter], rate)
    {
      meter := 1;
      while meter in meters[s]
        invariant meter >= 1
        invariant forall k :: 1 <= k < meter ==> k in meters[s]
        decreases Above(meters[s].Keys, meter)
      {
        assert Above(meters[s].Keys, meter + 1) == Above(meters[s].Keys, meter) - {meter};
        meter := meter + 1;
      }
      meters := meters[s := meters[s][meter := Kbps(rate)]];
    }

    /** The number probing of `add_flow_with_meter`, and the entry it stores. */
    method AddFlow(s: nat, rule: Rule) returns (n: int)
      requires Valid() && s < |flows|
      modifies this`flows
      ensures Valid() && Base(m, rule.meter) <= n && n !in old(flows)[s]
      ensures forall k :: Base(m, rule.meter) <= k < n ==> k in old(flows)[s]
      ensures flows == old(flows)[s := old(flows)[s][n := rule]]
    {
      n := Base(m, rule.meter);
      while n in flows[s]
        invariant Base(m, rule.meter) <= n
        invariant forall k :: Base(m, rule.meter) <= k < n ==> k in flows[s]
        decreases Above(flows[s].Keys, n)
      {
        assert Above(flows[s].Keys, n + 1) == Above(flows[s].Keys, n) - {n};
        n := n + 1;
      }
      flows := flows[s := flows[s][n := rule]];
    }

    /** `delete_meter`: scan from the meter's first number until `m` + 1 misses. Whatever the table holds, exactly the
        matching entries before that go, and none is left in the window; on a windowed table that is every flow of
        the meter, unless it is the last. */
    method DeleteMeter(s: nat, meter: int)
      requires Valid() && s < |flows|
      modifies this`flows
      ensures Valid() && |flows| == |old(flows)| && flows == old(flows)[s := flows[s]]
      ensures forall n :: n in flows[s] ==> n in old(flows)[s] && flows[s][n] == old(flows)[s][n]
      ensures forall n :: n in old(flows)[s] ==> (n !in flows[s] <==> Reached(old(flows)[s], m, meter, n))
      ensures forall n :: n in old(flows)[s] && InWindow(m, meter, n) ==>
                (n in flows[s] <==> var r := old(flows)[s][n]; if r.metered then r.meter != meter else r.arp)
      ensures forall last :: meter < last && Windowed(old(flows)[s], m, last) ==>
                flows[s] == Purged(old(flows)[s], meter)
    {
      ghost var f0 := flows;
      var outCount, curFlow := 0, Base(m, meter);
      hide Scanned, Misses;
      ScanStarts(f0[s], m, meter);
      while outCount < m + 1
        invariant 0 <= outCount <= m + 1 && Base(m, meter) <= curFlow
        invariant |flows| == |f0| && flows == f0[s := flows[s]]
        invariant outCount == Misses(f0[s], meter, Base(m, meter), curFlow - Base(m, meter))
        invariant Scanned(f0[s], flows[s], m, meter, curFlow - Base(m, meter))
        decreases flows[s].Keys, m + 1 - outCount
      {
        ScanNext(f0[s], flows[s], m, meter, curFlow - Base(m, meter));
        if curFlow in flows[s] {
          if Matches(flows[s][curFlow], meter) {
            flows := flows[s := flows[s] - {curFlow}];
          } else {
            outCount := outCount + 1;
          }
        } else {
          outCount := outCount + 1;
        }
        curFlow := curFlow + 1;
      }
      ScanDone(f0[s], flows[s], m, meter, curFlow - Base(m, meter));
      forall last | meter < last && Windowed(f0[s], m, last) ensures flows[s] == Purged(f0[s], meter) {
        ScanPurges(f0[s], flows[s], m, meter, last);
        ghost var f, g := flows[s], Purged(f0[s], meter);
        assert forall n :: n in f ==> n in g && f[n] == g[n];
        assert forall n :: n in g ==> n in f;
        assert f.Keys <= g.Keys && g.Keys <= f.Keys;
      }
    }

    /** `modify_meter`: the meter and its flows go, and the meter comes back with the new rate. */
    method ModifyMeter(s: nat, meter: int, rate: real)
      requires Valid() && s < |flows|
      modifies this
      ensures Valid() && |flows| == |old(flows)| && flows == old(flows)[s := flows[s]]
      ensures meters == old(meters)[s := old(meters)[s][meter := Kbps(rate)]] && Kilobits(meters[s][meter], rate)
      ensures forall last :: meter < last && Windowed(old(flows)[s], m, last) ==>
                flows[s] == Purged(old(flows)[s], meter)
    {
      meters := meters[s := meters[s] - {meter}];
      DeleteMeter(s, meter);
      meters := meters[s := meters[s][meter := Kbps(rate)]];
      assert (old(meters)[s] - {meter})[meter := Kbps(rate)] == old(meters)[s][meter := Kbps(rate)];
    }
  }
}
