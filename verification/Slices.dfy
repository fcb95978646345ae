/** Updating users' slices: `multiple_switch_test_v006.py` on top of the flow tables and the ledger. */
module Slices {
  import opened Text
  import opened FlowTable
  import opened Ledger
  import opened Grouping
  import opened Forwarding
  import opened Capacity
  import opened UserRules
  import opened Facts

  /** The first name from `i` on that contains `ip`, or `|names|`. */
  function FirstHolding(names: seq<string>, ip: string, i: nat): (u: nat)
    requires i <= |names|
    ensures i <= u <= |names| && (u < |names| ==> Occurs(names[u], ip))
    ensures forall j :: i <= j < u ==> !Occurs(names[j], ip)
    decreases |names| - i
  {
    if i == |names| || Occurs(names[i], ip) then i else FirstHolding(names, ip, i + 1)
  }

  function FirstEqual(names: seq<string>, ip: string, i: nat): (u: nat)
    requires i <= |names|
    ensures i <= u <= |names| && (u < |names| ==> names[u] == ip)
    ensures forall j :: i <= j < u ==> names[j] != ip
    decreases |names| - i
  {
    if i == |names| || names[i] == ip then i else FirstEqual(names, ip, i + 1)
  }

  /** The user an address stands for, or -1. */
  function UserOf(b1: seq<string>, b2: seq<string>, ip: string): int {
    var u, v := FirstHolding(b1, ip, 0), FirstEqual(b2, ip, 0);
    if u < |b1| then u else if v < |b2| then |b1| + v else -1
  }

  /** A user of base station 1 is found by its own address unless an earlier address contains it. */
  lemma {:induction false} OwnAddress(b1: seq<string>, b2: seq<string>, u: nat)
    requires u < |b1|
    ensures UserOf(b1, b2, b1[u]) == u <==> forall j :: 0 <= j < u ==> !Occurs(b1[j], b1[u])
  {
    assert OccursAt(b1[u], b1[u], 0);
    assert Occurs(b1[u], b1[u]);
  }

  /** Such an address exists: with 155.0.0.34 listed before it, 155.0.0.3 stands for the wrong user. */
  lemma {:induction false} ShadowedAddress()
    ensures UserOf(["155.0.0.34", "155.0.0.3"], [], "155.0.0.3") == 0
  {
    assert OccursAt("155.0.0.34", "155.0.0.3", 0);
  }

  /** A user of base station 2 is found unless an address of station 1 contains its own. */
  lemma {:induction false} OwnAddress2(b1: seq<string>, b2: seq<string>, i: nat)
    requires i < |b2| && forall j :: 0 <= j < i ==> b2[j] != b2[i]
    ensures UserOf(b1, b2, b2[i]) == |b1| + i <==> forall j :: 0 <= j < |b1| ==> !Occurs(b1[j], b2[i])
  {}

  datatype Order = Order(ip: string, rate: real)

  /** What the update script does, as its caller can see it. */
  datatype Act = Frees(user: nat) | PrintsError | Rebuilds | Saves | PrintsComplete

  function FreesAll(users: seq<nat>): seq<Act> { seq(|users|, i requires 0 <= i < |users| => Frees(users[i])) }

  /** The script frees the users found; an unknown address makes it print an error; then, unless no user was found, it
      rebuilds, saves its state, and reports that it is complete. */
  function Trace(users: seq<nat>, n: nat): seq<Act> {
    FreesAll(users) + (if |users| < n then [PrintsError] else []) +
    if users == [] then [] else [Rebuilds, Saves, PrintsComplete]
  }

  /** What stays the same over all updates; `meterOf` is `m_l`. */
  datatype Plan = Plan(b1: seq<string>, b2: seq<string>, routes: seq<Route>, m: nat, switches: nat, size: nat,
                       meterOf: map<Key, int>)

  function Users(p: Plan): nat { |p.b1| + |p.b2| }

  /** `m_l[u][t][s][0]`, which starts out as zero. */
  function Meter(p: Plan, u: nat, t: nat, s: nat): int {
    if (u, t, s) in p.meterOf then p.meterOf[(u, t, s)] else 0
  }

  /** The meter of ARP entries: the one handed out last. */
  function Last(p: Plan): int { 2 * (Users(p) + 1) }

  /** Every user has meters of its own on every switch, one for each topology, and none has the last meter. */
  ghost predicate MetersOk(p: Plan) {
    && (forall u: nat, t: nat, s: nat :: u < Users(p) && t < 2 && s < p.switches ==> 0 < Meter(p, u, t, s) < Last(p))
    && (forall u: nat, t: nat, v: nat, w: nat, s: nat ::
          u < Users(p) && t < 2 && v < Users(p) && w < 2 && s < p.switches && Meter(p, u, t, s) == Meter(p, v, w, s)
          ==> u == v && t == w)
  }

  /** Path 0, the only one configured for users of base station 1, fits into a window on every switch. */
  ghost predicate PlanOk(p: Plan) {
    && MetersOk(p)
    && (forall r :: r in p.routes ==> r.sw < p.switches)
    && forall s: nat :: s < p.switches ==> Wanted(p.routes, |p.routes|, s, InPaths({0})) <= p.m
  }

  function Verdicts(routes: seq<Route>): (sug: seq<Sug>)
    ensures Passed(routes, sug) && Paired(sug)
  {
    seq(|routes|, k requires 0 <= k < |routes| => Verdict(routes, k))
  }

  /** The paths that a user may take: path 0 for base station 1, none for base station 2. */
  function Allowed(p: Plan, u: nat): set<int> { if u < |p.b1| then {0} else {} }

  /** The rules that user `u` is to have on switch `s` in topology `t`. */
  function RulesOf(p: Plan, u: nat, name: string, t: nat, s: nat): seq<Rule> {
    RulesOn(Verdicts(p.routes), |p.routes|, Allowed(p, u), name, Meter(p, u, t, s), s)
  }

  lemma {:induction false} NoPathWanted(routes: seq<Route>, n: nat, s: nat)
    requires n <= |routes|
    ensures Wanted(routes, n, s, InPaths({})) == 0
  {
    if n > 0 { NoPathWanted(routes, n - 1, s); }
  }

  /** A user's rules fit its window; a user of base station 2 has none. */
  lemma {:induction false} RulesFit(p: Plan, u: nat, name: string, t: nat, s: nat)
    requires PlanOk(p) && s < p.switches
    ensures |RulesOf(p, u, name, t, s)| <= p.m
    ensures u >= |p.b1| ==> RulesOf(p, u, name, t, s) == []
  {
    RulesConserved(p.routes, Verdicts(p.routes), Allowed(p, u), name, Meter(p, u, t, s), s);
    NoPathWanted(p.routes, |p.routes|, s);
  }

  /** The meter holds exactly these rules, in order, from its first number on. */
  ghost predicate Serves(f: Flows, m: nat, meter: int, rules: seq<Rule>) {
    && FlowsOf(f, meter) == Range(Base(m, meter), |rules|)
    && forall n :: Base(m, meter) <= n < Base(m, meter) + |rules| ==> n in f && f[n] == rules[n - Base(m, meter)]
  }

  lemma {:induction false} InstalledServes(f: Flows, m: nat, last: int, meter: int, rules: seq<Rule>)
    requires Windowed(f, m, last) && meter < last && FlowsOf(f, meter) == {} && |rules| <= m
    requires forall r :: r in rules ==> r.metered && r.meter == meter
    ensures Serves(Installed(f, m, meter, rules), m, meter, rules)
  {
    var g, base := Installed(f, m, meter, rules), Base(m, meter);
    hide FlowsOf, Windowed, Stored, Base, Range;
    assert FlowsOf(g, meter) == Range(base, |rules|) by { hide Installed; InstalledWindowed(f, m, last, meter, rules); }
    assert forall n :: base <= n < base + |rules| ==>
             n in g && g[n] == rules[n - base] by { StoredEntries(f, base, rules); }
  }

  lemma {:induction false} StoredEntries(f: Flows, base: int, rules: seq<Rule>)
    ensures forall n :: base <= n < base + |rules| ==>
              n in Stored(f, base, rules) && Stored(f, base, rules)[n] == rules[n - base]
  {
    hide Stored;
    forall n | base <= n < base + |rules|
      ensures n in Stored(f, base, rules) && Stored(f, base, rules)[n] == rules[n - base]
    {
      StoredAt(f, base, rules, n);
    }
  }

  /** What the ledger lists for a served meter is on the switch; everything on the switch is listed exactly when the
      table has rows enough. */
  lemma {:induction false} LedgerTruthful(f: Flows, m: nat, meter: int, rules: seq<Rule>, size: nat)
    requires Serves(f, m, meter, rules)
    ensures var list := Listing(Page(Base(m, meter), rules, size));
            && (forall i :: 0 <= i < |list| ==>
                  list[i].Entry? && list[i].flow in FlowsOf(f, meter) && list[i].rule == f[list[i].flow])
            && ((forall n :: n in FlowsOf(f, meter) ==> Entry(n, f[n]) in list) <==> |rules| <= size)
  {
    var base := Base(m, meter);
    var list := Listing(Page(base, rules, size));
    PageListing(base, rules, size);
    hide Listing, Base, FlowsOf, Page;
    forall i | 0 <= i < |list|
      ensures list[i].Entry? && list[i].flow in FlowsOf(f, meter) && list[i].rule == f[list[i].flow]
    {
      assert list[i] == Entry(base + i, rules[i]);
    }
    if |rules| <= size {
      forall n | n in FlowsOf(f, meter) ensures Entry(n, f[n]) in list {
        assert list[n - base] == Entry(base + (n - base), rules[n - base]);
      }
    } else {
      var n := base + size;
      assert n in FlowsOf(f, meter);
      assert forall i :: 0 <= i < |list| ==> list[i] == Entry(base + i, rules[i]);
      assert Entry(n, f[n]) !in list;
    }
  }

  /** One of the users owns the meter. */
  ghost predicate Owned(p: Plan, users: seq<nat>, s: nat, meter: int) {
    exists i :: 0 <= i < |users| && Owns(p, users[i], s, meter)
  }

  predicate Owns(p: Plan, u: nat, s: nat, meter: int) {
    meter == Meter(p, u, 0, s) || meter == Meter(p, u, 1, s)
  }

  /** The table without the flows of the users' meters. */
  ghost function Without(p: Plan, users: seq<nat>, s: nat, f: Flows): Flows {
    map n | n in f && !Owned(p, users, s, f[n].meter) :: f[n]
  }

  lemma {:induction false} OwnedNext(p: Plan, users: seq<nat>, u: nat, s: nat, meter: int)
    ensures Owned(p, users + [u], s, meter) <==> Owned(p, users, s, meter) || Owns(p, u, s, meter)
  {
    if Owned(p, users, s, meter) {
      var i :| 0 <= i < |users| && Owns(p, users[i], s, meter);
      assert (users + [u])[i] == users[i];
    }
    if Owns(p, u, s, meter) { assert (users + [u])[|users|] == u; }
  }

  lemma {:induction false} PurgedWindowed(f: Flows, m: nat, last: int, meter: int)
    requires Windowed(f, m, last)
    ensures Windowed(Purged(f, meter), m, last)
  {}

  /** The table after the flows of both meters of the user went, those of topology `t` first. */
  function Swapped(p: Plan, u: nat, t: nat, s: nat, f: Flows): Flows
    requires t < 2
  {
    Purged(Purged(f, Meter(p, u, t, s)), Meter(p, u, 1 - t, s))
  }

  lemma {:induction false} SwappedWindowed(p: Plan, u: nat, t: nat, s: nat, f: Flows)
    requires Windowed(f, p.m, Last(p)) && t < 2
    ensures Windowed(Swapped(p, u, t, s, f), p.m, Last(p))
  {}

  /** Purging both meters of one more user. */
  lemma {:induction false} PurgedBoth(p: Plan, users: seq<nat>, u: nat, t: nat, s: nat, f: Flows)
    requires Windowed(f, p.m, Last(p)) && t < 2
    ensures Swapped(p, u, t, s, Without(p, users, s, f)) == Without(p, users + [u], s, f)
  {
    forall n | n in f
      ensures Owned(p, users + [u], s, f[n].meter) <==> Owned(p, users, s, f[n].meter) || Owns(p, u, s, f[n].meter)
    {
      OwnedNext(p, users, u, s, f[n].meter);
    }
    hide Owned, InWindow, Meter;
    var g := Without(p, users, s, f);
    assert t == 0 || t == 1;
    forall n | n in f
      ensures n in Without(p, users + [u], s, f) <==>
                n in g && !Matches(f[n], Meter(p, u, t, s)) && !Matches(f[n], Meter(p, u, 1 - t, s))
    {
      assert f[n].metered;
    }
  }

  predicate TableOk(p: Plan, rows: map<Key, seq<Row>>, u: nat, t: nat, s: nat) {
    && (u, t, s) in rows && |rows[(u, t, s)]| == p.size
    && NoHole(rows[(u, t, s)]) && OneMeter(rows[(u, t, s)], Meter(p, u, t, s))
  }

  /** Every table of the ledger has no hole and rows of its own meter only. */
  ghost predicate BookOk(p: Plan, rows: map<Key, seq<Row>>) {
    && (forall u: nat, t: nat, s: nat :: u < Users(p) && t < 2 && s < p.switches ==> (u, t, s) in rows)
    && forall u: nat, t: nat, s: nat :: u < Users(p) && t < 2 && s < p.switches ==> TableOk(p, rows, u, t, s)
  }

  function Empty(size: nat): seq<Row> { seq(size, _ => Blank) }

  ghost predicate AllWindowed(flows: seq<Flows>, m: nat, last: int) {
    forall s :: 0 <= s < |flows| ==> Windowed(flows[s], m, last)
  }

  /** The controller's state between updates. */
  class Controller {
    const plan: Plan
    const store: Store
    const book: Book
    /** `top_num`, the active topology of each user. */
    var top: seq<nat>
    /** The group table of every switch. */
    var groups: map<(nat, nat), seq<nat>>

    ghost predicate Shape()
      reads this, store, book
    {
      && store.Valid() && store.m == plan.m && |store.flows| == plan.switches
      && book.switches == plan.switches
      && |top| == Users(plan) && forall u :: 0 <= u < |top| ==> top[u] < 2
    }

    /** What holds before the groups are in place, too. */
    ghost predicate Sane()
      reads this, store, book
    {
      PlanOk(plan) && Shape() && AllWindowed(store.flows, plan.m, Last(plan)) && BookOk(plan, book.rows)
    }

    ghost predicate Valid()
      reads this, store, book
    {
      Sane() && GroupsAt(plan.routes, groups, |plan.routes|)
    }

    constructor (plan: Plan, store: Store, book: Book)
      ensures this.plan == plan && this.store == store && this.book == book
      ensures top == seq(Users(plan), _ => 0) && groups == map[]
    {
      this.plan := plan;
      this.store := store;
      this.book := book;
      top := seq(Users(plan), _ => 0);
      groups := map[];
    }

    /** One switch of a user: the meter to be used comes back with its rate and without flows, the other's flows go. */
    method SwapMeters(s: nat, a: int, b: int, rate: real)
      requires Shape() && s < plan.switches && Windowed(store.flows[s], plan.m, Last(plan)) && a < Last(plan) &&
               b < Last(plan)
      modifies store
      ensures Shape()
      ensures store.flows == old(store.flows)[s := Purged(Purged(old(store.flows)[s], a), b)]
      ensures store.meters == old(store.meters)[s := old(store.meters)[s][a := Kbps(rate)]]
    {
      store.ModifyMeter(s, a, rate);
      PurgedWindowed(old(store.flows)[s], plan.m, Last(plan), a);
      store.DeleteMeter(s, b);
    }

    /** One switch of a user being flipped: its meters, then its ledger. */
    method FlipSwitch(u: nat, s: nat, rate: real)
      requires Shape() && MetersOk(plan) && BookOk(plan, book.rows) && u < Users(plan) && s < plan.switches &&
               Windowed(store.flows[s], plan.m, Last(plan))
      modifies store, book
      ensures Shape() && BookOk(plan, book.rows)
      ensures store.flows == old(store.flows)[s := Swapped(plan, u, top[u], s, old(store.flows)[s])]
      ensures store.meters == old(store.meters)[s := old(store.meters)[s][Meter(plan, u, top[u], s) := Kbps(rate)]]
      ensures ClearedOn(plan, old(book.rows), book.rows, u, top[u], s)
    {
      SwapMeters(s, Meter(plan, u, top[u], s), Meter(plan, u, 1 - top[u], s), rate);
      book.Modify(u, top[u], Meter(plan, u, top[u], s));
      ModifiedBook(plan, old(book.rows), book.rows, u, top[u], s);
    }

    /** The part of an update that flips one user. */
    method FlipUser(u: nat, rate: real)
      requires Sane() && u < Users(plan)
      modifies this`top, store, book
      ensures Sane() && top == old(top)[u := 1 - old(top)[u]]
      ensures Flipped(plan, u, top[u], rate, plan.switches,
                      old(store.flows), store.flows, old(store.meters), store.meters, old(book.rows), book.rows)
    {
      if top[u] == 1 {
        top := top[u := 0];
      } else if top[u] == 0 {
        top := top[u := 1];
      }
      var swl := [];
      for s := 0 to plan.switches
        invariant swl == seq(s, i => i)
      {
        if Meter(plan, u, top[u], s) > 0 { swl := swl + [s]; }
      }
      ghost var f0, m0, r0 := store.flows, store.meters, book.rows;
      hide PlanOk, BookOk, Flipped, Swapped, Windowed;
      FlippedStarts(plan, u, top[u], rate, f0, m0, r0);
      for i := 0 to |swl|
        invariant Shape() && BookOk(plan, book.rows) && top == old(top)[u := 1 - old(top)[u]]
        invariant forall q :: i <= q < plan.switches ==> store.flows[q] == f0[q]
        invariant Flipped(plan, u, top[u], rate, i, f0, store.flows, m0, store.meters, r0, book.rows)
      {
        ghost var f1, m1, r1 := store.flows, store.meters, book.rows;
        FlipSwitch(u, swl[i], rate);
        FlippedNext(plan, u, top[u], rate, i, f0, f1, store.flows, m0, m1, store.meters, r0, r1, book.rows);
      }
      FlippedWindowed(plan, u, top[u], rate, f0, store.flows, m0, store.meters, r0, book.rows);
    }

    /** One flow for user `u`, on the switch and in the ledger. */
    method AddRule(u: nat, s: nat, rule: Rule, ghost lists: seq<seq<Rule>>, ghost f0: seq<Flows>,
                   ghost r0: map<Key, seq<Row>>)
      requires Shape() && u < Users(plan) && s < plan.switches
      requires InstalledTo(plan, u, top[u], lists, f0, store.flows, r0, book.rows)
      requires rule.meter == Meter(plan, u, top[u], s) && 0 < rule.meter < Last(plan) && |lists[s]| < plan.m
      requires Known(Windowed(f0[s], plan.m, Last(plan))) && FlowsOf(f0[s], rule.meter) == {}
      modifies store`flows, book
      ensures Shape()
      ensures InstalledTo(plan, u, top[u], lists[s := lists[s] + [rule]], f0, store.flows, r0, book.rows)
    {
      hide FlowsOf, Installed, Page, Filled, Base;
      ghost var f1, r1 := store.flows, book.rows;
      var n := store.AddFlow(s, rule);
      book.Add(u, top[u], s, [Ledger.Blank, Entry(n, rule)]);
      InstalledToNext(plan, u, top[u], lists, f0, f1, store.flows, r0, r1, book.rows, s, n, rule);
    }

    /** One recorded path of a verdict: to the group or to the port, if the path is allowed to the user. */
    method InstallPath(sug: seq<Sug>, c: nat, i: nat, u: nat, name: string, allowed: set<int>,
                       ghost f0: seq<Flows>, ghost r0: map<Key, seq<Row>>)
      requires Shape() && u < Users(plan) && Paired(sug) && c < |sug| && i < |sug[c].paths| &&
               allowed == Allowed(plan, u)
      requires Known(InstalledTo(plan, u, top[u], Lists(plan, sug, c, i, u, name, top[u]),
                                    f0, store.flows, r0, book.rows))
      requires Known(RoomAt(plan, sug, c, i, u, name, top[u], f0))
      modifies store`flows, book
      ensures Shape()
      ensures Known(InstalledTo(plan, u, top[u], Lists(plan, sug, c, i + 1, u, name, top[u]),
                                   f0, store.flows, r0, book.rows))
    {
      hide InstalledTo, Lists, FlowsOf, Windowed, Meter;
      ListsNext(plan, sug, c, i, u, name, top[u]);
      var v := sug[c];
      if v.paths[i] in allowed {
        if v.kind > 0 && v.group > 0 {
          var rule := Rule(v.inp, Group(v.group), name, v.dirs[i] == 1, Meter(plan, u, top[u], v.sw), true, false);
          AddRule(u, v.sw, rule, Lists(plan, sug, c, i, u, name, top[u]), f0, r0);
        } else if v.kind == 0 && v.group == 0 {
          var rule := Rule(v.inp, Port(v.out), name, v.dirs[i] == 1, Meter(plan, u, top[u], v.sw), true, false);
          AddRule(u, v.sw, rule, Lists(plan, sug, c, i, u, name, top[u]), f0, r0);
        }
      }
    }

    /** The loop of `create_topology` over the paths of one verdict. */
    method InstallVerdict(sug: seq<Sug>, c: nat, u: nat, name: string, allowed: set<int>,
                          ghost f0: seq<Flows>, ghost r0: map<Key, seq<Row>>)
      requires Shape() && u < Users(plan) && Paired(sug) && c < |sug| && allowed == Allowed(plan, u)
      requires Known(InstalledTo(plan, u, top[u], Lists(plan, sug, c, 0, u, name, top[u]),
                                    f0, store.flows, r0, book.rows))
      requires Known(forall i :: 0 <= i < |sug[c].paths| ==> RoomAt(plan, sug, c, i, u, name, top[u], f0))
      modifies store`flows, book
      ensures Shape()
      ensures Known(InstalledTo(plan, u, top[u], Lists(plan, sug, c + 1, 0, u, name, top[u]),
                                   f0, store.flows, r0, book.rows))
    {
      hide InstalledTo, Lists, RoomAt;
      for i := 0 to |sug[c].paths|
        invariant Shape()
        invariant InstalledTo(plan, u, top[u], Lists(plan, sug, c, i, u, name, top[u]), f0, store.flows, r0, book.rows)
      {
        InstallPath(sug, c, i, u, name, allowed, f0, r0);
      }
      ListsNextVerdict(plan, sug, c, u, name, top[u]);
    }

    /** The loop of `create_topology` over the verdicts, for one user. */
    method InstallUser(sug: seq<Sug>, u: nat, name: string, allowed: set<int>)
      requires Shape() && u < Users(plan) && Paired(sug) && allowed == Allowed(plan, u)
      requires Known(PlanOk(plan)) && Known(sug == Verdicts(plan.routes))
      requires Known(AllWindowed(store.flows, plan.m, Last(plan))) &&
               Known(ReadyFor(plan, u, top[u], store.flows, book.rows))
      modifies store`flows, book
      ensures Shape()
      ensures Known(InstalledTo(plan, u, top[u], Lists(plan, sug, |sug|, 0, u, name, top[u]),
                                old(store.flows), store.flows, old(book.rows), book.rows))
    {
      ghost var f0, r0 := store.flows, book.rows;
      hide PlanOk, AllWindowed, InstalledTo, Lists, ReadyFor, RoomAt, Verdicts;
      InstalledToStarts(plan, sug, u, name, top[u], f0, r0);
      for c := 0 to |sug|
        invariant Shape()
        invariant InstalledTo(plan, u, top[u], Lists(plan, sug, c, 0, u, name, top[u]), f0, store.flows, r0, book.rows)
      {
        RoomFor(plan, sug, c, u, name, top[u], f0, r0);
        InstallVerdict(sug, c, u, name, allowed, f0, r0);
      }
    }

    /** The part of `create_topology` after the grouping pass: the rules of every user not masked by 'none'. */
    method InstallUsers(sug: seq<Sug>, names: seq<string>)
      requires Sane() && |names| == Users(plan) && sug == Verdicts(plan.routes)
      requires Known(forall u: nat :: u < |names| && names[u] != "none" ==>
                 ReadyFor(plan, u, top[u], store.flows, book.rows))
      modifies store`flows, book
      ensures Shape()
      ensures Known(Built(plan, names, |names|, top, old(store.flows), store.flows, old(book.rows), book.rows))
    {
      ghost var f0, r0 := store.flows, book.rows;
      hide PlanOk, Built, ReadyFor, InstalledTo, Lists, Verdicts, AllWindowed, BookOk, Verdict;
      BuiltStarts(plan, names, top, f0, r0);
      for u := 0 to |names|
        invariant Shape()
        invariant Built(plan, names, u, top, f0, store.flows, r0, book.rows)
      {
        if names[u] != "none" {
          StillReady(plan, names, u, top, f0, store.flows, r0, book.rows);
          BuiltWindowed(plan, names, u, top, f0, store.flows, r0, book.rows);
          ghost var f1, r1 := store.flows, book.rows;
          InstallUser(sug, u, names[u], if u < |plan.b1| then {0} else {});
          BuiltNext(plan, names, u, top, f0, f1, store.flows, r0, r1, book.rows);
        } else {
          BuiltSkip(plan, names, u, top, f0, store.flows, r0, book.rows);
        }
      }
    }

    /** `create_topology` once the network is up: the grouping pass only says which rules there are. */
    method CreateTopology(names: seq<string>)
      requires Sane() && |names| == Users(plan)
      requires Known(forall u: nat :: u < |names| && names[u] != "none" ==>
                 ReadyFor(plan, u, top[u], store.flows, book.rows))
      modifies store`flows, book
      ensures Shape()
      ensures Known(Built(plan, names, |names|, top, old(store.flows), store.flows, old(book.rows), book.rows))
    {
      var sug, none := GroupRoutes(plan.routes, plan.switches, false);
      assert sug == Verdicts(plan.routes);
      hide PlanOk, Built, ReadyFor, Verdicts, AllWindowed, BookOk, Verdict;
      InstallUsers(sug, names);
    }

    /** The ARP entry of one verdict, on its switch and in the ledger. */
    method AddArp(sug: seq<Sug>, k: nat, ghost r0: map<Key, seq<Row>>)
      requires Shape() && k < |sug| && sug == Verdicts(plan.routes) &&
               (forall r :: r in plan.routes ==> r.sw < plan.switches)
      requires forall s :: 0 <= s < plan.switches ==> Meter(plan, Users(plan), 1, s) == Last(plan)
      requires Known(ArpTo(plan, k, store.flows, r0, book.rows))
      modifies store`flows, book
      ensures Shape() && Known(ArpTo(plan, k + 1, store.flows, r0, book.rows))
    {
      var v := sug[k];
      if v.kind == 1 || v.kind == 0 {
        BearerSwitch(plan, k);
        var meter := Meter(plan, Users(plan), 1, v.sw);
        var target := if v.kind == 1 then Group(v.group) else Port(v.out);
        ghost var f1, r1 := store.flows, book.rows;
        hide Verdict, ArpTo, Stored, Page, Filled, Base;
        ArpKeys(plan, k, f1, r0, r1);
        var rule := Rule(v.inp, target, "0.0.0.0", true, meter, true, true);
        var n := store.AddFlow(v.sw, rule);
        book.Add(Users(plan), 1, v.sw, [Entry(n, rule), Ledger.Blank]);
        ArpToNext(plan, k, f1, store.flows, r0, r1, book.rows, n, rule);
      } else {
        hide Verdict;
        ArpToSkip(plan, k, store.flows, r0, book.rows);
      }
    }

    /** The ARP entries of all verdicts. */
    method InstallArp(sug: seq<Sug>)
      requires Sane() && sug == Verdicts(plan.routes) && Known(ArpTo(plan, 0, store.flows, book.rows, book.rows))
      requires forall s :: 0 <= s < plan.switches ==> Meter(plan, Users(plan), 1, s) == Last(plan)
      modifies store`flows, book
      ensures Shape() && Known(ArpTo(plan, |plan.routes|, store.flows, old(book.rows), book.rows))
    {
      ghost var r0 := book.rows;
      hide BookOk, AllWindowed, ArpTo, Verdict, MetersOk;
      for k := 0 to |sug|
        invariant Shape() && ArpTo(plan, k, store.flows, r0, book.rows)
      {
        AddArp(sug, k, r0);
      }
    }

    /** `create_topology` when the network is brought up: the grouping pass installs groups and ARP entries, too. */
    method FirstTopology(names: seq<string>)
      requires Sane() && |names| == Users(plan) && (forall u :: 0 <= u < |top| ==> top[u] == 0)
      requires Known(forall s :: 0 <= s < plan.switches ==> store.flows[s] == map[])
      requires forall s :: 0 <= s < plan.switches ==> Meter(plan, Users(plan), 1, s) == Last(plan)
      requires Known(AllBlank(plan, book.rows))
      modifies this`groups, store`flows, book
      ensures Sane() && Known(GroupsAt(plan.routes, groups, |plan.routes|))
      ensures Known(FirstDone(plan, names, top, store.flows, book.rows))
    {
      var sug;
      sug, groups := GroupRoutes(plan.routes, plan.switches, true);
      assert sug == Verdicts(plan.routes);
      ghost var r0 := book.rows;
      PlanMeters(plan);
      hide GroupsAt, PlanOk, MetersOk, BookOk, AllWindowed, Built, ReadyFor, ArpTo, Verdict, Verdicts, FirstDone,
           AllBlank, Serves;
      ArpStarts(plan, store.flows, r0);
      InstallArp(sug);
      ghost var f1, r1 := store.flows, book.rows;
      ArpReady(plan, top, f1, r0, r1);
      InstallUsers(sug, names);
      FirstIsDone(plan, names, top, f1, store.flows, r0, r1, book.rows);
    }

    /** Which user an address stands for: base station 1 by substring, then base station 2 by equality. */
    method Lookup(ip: string) returns (u: int)
      ensures u == UserOf(plan.b1, plan.b2, ip)
    {
      var ii, i, check := 0, 0, -1;
      while ii < |plan.b1| && check == -1
        invariant 0 <= ii <= |plan.b1| && check == -1
        invariant forall j :: 0 <= j < ii ==> !Occurs(plan.b1[j], ip)
      {
        if Occurs(plan.b1[ii], ip) {
          check := ii;
          break;
        }
        ii := ii + 1;
      }
      if check == -1 {
        while i < |plan.b2| && check == -1
          invariant 0 <= i <= |plan.b2| && check == -1
          invariant forall j :: 0 <= j < i ==> plan.b2[j] != ip
        {
          if plan.b2[i] == ip {
            check := |plan.b1| + i;
            break;
          }
          i := i + 1;
        }
      }
      u := if check != -1 then ii + i else -1;
    }

    /** One order: its user is flipped. */
    method FreeUser(orders: seq<Order>, users: seq<nat>, u: nat, ghost top0: seq<nat>, ghost f0: seq<Flows>,
                    ghost m0: seq<map<int, int>>, ghost r0: map<Key, seq<Row>>)
      requires Known(Sane()) && |users| < |orders| && u < Users(plan) && Known(AllWindowed(f0, plan.m, Last(plan)))
      requires Known(Freed(plan, orders, users, top0, top, f0, store.flows, m0, store.meters, r0, book.rows))
      modifies this`top, store, book
      ensures Known(Sane())
      ensures Known(Freed(plan, orders, users + [u], top0, top, f0, store.flows, m0, store.meters, r0, book.rows))
    {
      hide PlanOk, Freed, Flipped, BookOk, AllWindowed, MetersOk;
      ghost var top1, f1, m1, r1 := top, store.flows, store.meters, book.rows;
      FlipUser(u, orders[|users|].rate);
      PlanMeters(plan);
      FreedNext(plan, orders, users, u, top0, top1, f0, f1, store.flows, m0, m1, store.meters, r0, r1, book.rows);
    }

    method Unmask(ghost users: seq<nat>, u: nat, b1Mod: seq<string>, b2Mod: seq<string>) returns (b1Mod': seq<string>,
                  b2Mod': seq<string>)
      requires Masked(plan, users, b1Mod, b2Mod) && u < Users(plan)
      ensures Masked(plan, users + [u], b1Mod', b2Mod')
    {
      b1Mod', b2Mod' := b1Mod, b2Mod;
      if u < |plan.b1| {
        b1Mod' := b1Mod'[u := plan.b1[u]];
      } else {
        b2Mod' := b2Mod'[u - |plan.b1| := plan.b2[u - |plan.b1|]];
      }
    }

    /** The loop over the orders, up to the first unknown address. */
    method FreeUsers(orders: seq<Order>)
      returns (users: seq<nat>, b1Mod: seq<string>, b2Mod: seq<string>, ghost acts: seq<Act>)
      requires Known(Sane())
      modifies this`top, store, book
      ensures Known(Sane())
      ensures |users| <= |orders| && forall i :: 0 <= i < |users| ==> users[i] == UserOf(plan.b1, plan.b2, orders[i].ip)
      ensures |users| < |orders| ==> UserOf(plan.b1, plan.b2, orders[|users|].ip) == -1
      ensures acts == FreesAll(users) + if |users| < |orders| then [PrintsError] else []
      ensures Masked(plan, users, b1Mod, b2Mod)
      ensures Known(Freed(plan, orders, users, old(top), top, old(store.flows), store.flows,
                          old(store.meters), store.meters, old(book.rows), book.rows))
    {
      ghost var top0, f0, m0, r0 := top, store.flows, store.meters, book.rows;
      b1Mod, b2Mod := seq(|plan.b1|, _ => "none"), seq(|plan.b2|, _ => "none");
      users, acts := [], [];
      FreedStarts(plan, orders, top0, f0, m0, r0);
      assert Masked(plan, users, b1Mod, b2Mod);
      hide Sane, Freed, AllWindowed, UserOf, Masked;
      ValidWindowed();
      for i := 0 to |orders|
        invariant Sane() && |users| == i && acts == FreesAll(users)
        invariant forall j :: 0 <= j < i ==> users[j] == UserOf(plan.b1, plan.b2, orders[j].ip)
        invariant Masked(plan, users, b1Mod, b2Mod)
        invariant Freed(plan, orders, users, top0, top, f0, store.flows, m0, store.meters, r0, book.rows)
      {
        var u := Lookup(orders[i].ip);
        UserOfRange(plan.b1, plan.b2, orders[i].ip);
        if u == -1 {
          acts := acts + [PrintsError];
          break;
        }
        b1Mod, b2Mod := Unmask(users, u, b1Mod, b2Mod);
        FreeUser(orders, users, u, top0, f0, m0, r0);
        users, acts := users + [u], acts + [Frees(u)];
      }
    }

    lemma {:induction false} ValidMeters()
      requires Sane()
      ensures Known(MetersOk(plan))
    {}

    lemma {:induction false} ValidWindowed()
      requires Sane()
      ensures Known(AllWindowed(store.flows, plan.m, Last(plan)))
    {}

    /** One update. The users found, up to the first unknown address, are updated; if there is none, the script stops
        at an unset variable before it has changed anything. */
    method Update(orders: seq<Order>) returns (users: seq<nat>, ghost acts: seq<Act>)
      requires Valid()
      modifies this`top, store, book
      ensures Valid()
      ensures |users| <= |orders| && forall i :: 0 <= i < |users| ==> users[i] == UserOf(plan.b1, plan.b2, orders[i].ip)
      ensures |users| < |orders| ==> UserOf(plan.b1, plan.b2, orders[|users|].ip) == -1
      ensures acts == Trace(users, |orders|)
      ensures Updated(plan, orders, users, old(top), top, old(store.flows), store.flows,
                      old(store.meters), store.meters, old(book.rows), book.rows)
    {
      hide GroupsAt, PlanOk, Freed, BookOk, AllWindowed, Built, ReadyFor, Updated, MetersOk, UserOf;
      ghost var top0, f0, m0, r0 := top, store.flows, store.meters, book.rows;
      var b1Mod, b2Mod;
      users, b1Mod, b2Mod, acts := FreeUsers(orders);
      ghost var f1, r1 := store.flows, book.rows;
      var names := b1Mod + b2Mod;
      PlanMeters(plan);
      if users != [] {
        FreedReady(plan, orders, users, names, top0, top, f0, f1, m0, store.meters, r0, r1);
        CreateTopology(names);
        acts := acts + [Rebuilds];
        acts := acts + [Saves];
        acts := acts + [PrintsComplete];
        BuiltBook(plan, names, top, f1, store.flows, r1, book.rows);
        BuiltWindowed(plan, names, |names|, top, f1, store.flows, r1, book.rows);
      } else {
        BuiltNobody(plan, names, top, f1, r1);
      }
      UpdatedFrom(plan, orders, users, names, top0, top, f0, f1, store.flows, m0, store.meters, r0, r1, book.rows);
    }
  }

  lemma {:induction false} PlanMeters(p: Plan)
    requires PlanOk(p)
    ensures Known(MetersOk(p))
  {}

  /** The table of switch `s` for the user's topology became empty, others emptied or stayed, and nothing else
      changed. */
  ghost predicate ClearedOn(p: Plan, r0: map<Key, seq<Row>>, r1: map<Key, seq<Row>>, u: nat, t: nat, s: nat) {
    && r1.Keys == r0.Keys
    && (forall k :: k in r0 && !(k.0 == u && k.1 == t) ==> r1[k] == r0[k])
    && forall q: nat :: q < p.switches && (u, t, q) in r0 && (q == s || r0[(u, t, q)] == Empty(p.size)) ==>
         r1[(u, t, q)] == Empty(p.size)
  }

  /** What flipping user `u` to topology `t` has done when the first `n` switches are dealt with. */
  ghost predicate Flipped(p: Plan, u: nat, t: nat, rate: real, n: nat, f0: seq<Flows>, f1: seq<Flows>,
                          m0: seq<map<int, int>>, m1: seq<map<int, int>>, r0: map<Key, seq<Row>>,
                          r1: map<Key, seq<Row>>)
  {
    && t < 2 && n <= |f0| == |f1| == |m0| == |m1|
    && (forall s :: 0 <= s < |f0| ==> f1[s] == if s < n then Swapped(p, u, t, s, f0[s]) else f0[s])
    && (forall s :: 0 <= s < |m0| ==> m1[s] == if s < n then m0[s][Meter(p, u, t, s) := Kbps(rate)] else m0[s])
    && r1.Keys == r0.Keys
    && (forall k :: k in r0 && !(k.0 == u && k.1 == t) ==> r1[k] == r0[k])
    && forall q: nat :: q < n && (u, t, q) in r0 ==> r1[(u, t, q)] == Empty(p.size)
  }

  lemma {:induction false} FlippedStarts(p: Plan, u: nat, t: nat, rate: real, f0: seq<Flows>, m0: seq<map<int, int>>,
                                         r0: map<Key, seq<Row>>)
    requires t < 2 && |f0| == |m0|
    ensures Flipped(p, u, t, rate, 0, f0, f0, m0, m0, r0, r0)
  {}

  lemma {:induction false} FlippedNext(p: Plan, u: nat, t: nat, rate: real, n: nat, f0: seq<Flows>, f1: seq<Flows>,
                                       f2: seq<Flows>,
                    m0: seq<map<int, int>>, m1: seq<map<int, int>>, m2: seq<map<int, int>>,
                    r0: map<Key, seq<Row>>, r1: map<Key, seq<Row>>, r2: map<Key, seq<Row>>)
    requires t < 2 && n < |f0| == |f1| == |m1| && n < p.switches
    requires Flipped(p, u, t, rate, n, f0, f1, m0, m1, r0, r1)
    requires f2 == f1[n := Swapped(p, u, t, n, f1[n])]
    requires m2 == m1[n := m1[n][Meter(p, u, t, n) := Kbps(rate)]]
    requires ClearedOn(p, r1, r2, u, t, n)
    ensures Flipped(p, u, t, rate, n + 1, f0, f2, m0, m2, r0, r2)
  {
    hide Swapped, Meter, Kbps;
  }

  lemma {:induction false} FlippedWindowed(p: Plan, u: nat, t: nat, rate: real, f0: seq<Flows>, f1: seq<Flows>,
                        m0: seq<map<int, int>>, m1: seq<map<int, int>>, r0: map<Key, seq<Row>>, r1: map<Key, seq<Row>>)
    requires Flipped(p, u, t, rate, |f0|, f0, f1, m0, m1, r0, r1) && AllWindowed(f0, p.m, Last(p))
    ensures AllWindowed(f1, p.m, Last(p))
  {
    hide Windowed, Swapped;
    forall s | 0 <= s < |f1| ensures Windowed(f1[s], p.m, Last(p)) { SwappedWindowed(p, u, t, s, f0[s]); }
  }

  /** Clearing switch `s`'s meter from all tables of a user's topology empties that switch's table. */
  lemma {:induction false} ModifiedBook(p: Plan, before: map<Key, seq<Row>>, after: map<Key, seq<Row>>, u: nat, t: nat,
                                        s: nat)
    requires BookOk(p, before) && u < Users(p) && t < 2 && s < p.switches && after.Keys == before.Keys
    requires forall q :: 0 <= q < p.switches ==> after[(u, t, q)] == Cleared(before[(u, t, q)], Meter(p, u, t, s))
    requires forall k :: k in after && !(k.0 == u && k.1 == t && k.2 < p.switches) ==> after[k] == before[k]
    ensures BookOk(p, after) && ClearedOn(p, before, after, u, t, s)
  {
    assert TableOk(p, before, u, t, s);
    ClearedOneMeter(before[(u, t, s)], Meter(p, u, t, s));
    forall q: nat | q < p.switches ensures TableOk(p, after, u, t, q) {
      assert TableOk(p, before, u, t, q);
      ClearedHoles(before[(u, t, q)], Meter(p, u, t, s));
    }
    forall v: nat, w: nat, q: nat | v < Users(p) && w < 2 && q < p.switches ensures TableOk(p, after, v, w, q) {
      assert TableOk(p, before, v, w, q);
    }
  }

  function Times(users: seq<nat>, u: nat): nat {
    if users == [] then 0 else Times(users[..|users| - 1], u) + if users[|users| - 1] == u then 1 else 0
  }

  /** Order `i` is the last one for its user. */
  predicate Final(users: seq<nat>, i: nat)
    requires i < |users|
  {
    forall j :: i < j < |users| ==> users[j] != users[i]
  }

  /** What the loop over the orders has done for the users found so far: both meters of each are without flows, its
      topology flipped once for each order, its active meter has the last rate, and nothing else changed. */
  ghost predicate Freed(p: Plan, orders: seq<Order>, users: seq<nat>, top0: seq<nat>, top1: seq<nat>,
                        f0: seq<Flows>, f1: seq<Flows>, m0: seq<map<int, int>>, m1: seq<map<int, int>>,
                        r0: map<Key, seq<Row>>, r1: map<Key, seq<Row>>)
  {
    && |users| <= |orders| && |f0| == |f1| == |m0| == |m1| == p.switches && |top0| == |top1| == Users(p) &&
       r1.Keys == r0.Keys
    && (forall i :: 0 <= i < |users| ==> users[i] < Users(p))
    && (forall u :: 0 <= u < |top0| ==> top1[u] == (top0[u] + Times(users, u)) % 2)
    && (forall s :: 0 <= s < |f0| ==> f1[s] == Without(p, users, s, f0[s]))
    && (forall i: nat, s: nat :: i < |users| && Final(users, i) && s < |m0| ==>
         Rated(p, m1, users[i], top1, s, orders[i].rate))
    && (forall s: nat, k :: s < |m0| && !Owned(p, users, s, k) ==> SameEntry(m0[s], m1[s], k))
    && (forall k :: k in r0 && k.0 !in users ==> r1[k] == r0[k])
    && forall u: nat, q: nat :: u in users && q < p.switches && u < |top1| && (u, top1[u], q) in r0 ==>
         r1[(u, top1[u], q)] == Empty(p.size)
  }

  predicate SameEntry(m0: map<int, int>, m1: map<int, int>, k: int) {
    (k in m0 <==> k in m1) && (k in m0 ==> m0[k] == m1[k])
  }

  predicate Rated(p: Plan, meters: seq<map<int, int>>, u: nat, top: seq<nat>, s: nat, rate: real)
    requires u < |top| && s < |meters|
  {
    Meter(p, u, top[u], s) in meters[s] && Kilobits(meters[s][Meter(p, u, top[u], s)], rate)
  }

  lemma {:induction false} FinalBefore(users: seq<nat>, u: nat, i: nat)
    requires i < |users| && Final(users + [u], i)
    ensures Final(users, i) && users[i] != u
  {
    assert (users + [u])[|users|] == u;
    assert forall j :: i <= j < |users| ==> (users + [u])[j] == users[j];
  }

  lemma {:induction false} RatedNext(p: Plan, orders: seq<Order>, users: seq<nat>, u: nat, top1: seq<nat>,
                  m1: seq<map<int, int>>, m2: seq<map<int, int>>, i: nat, s: nat)
    requires MetersOk(p) && u < |top1| == Users(p) && top1[u] < 2 && |users| < |orders| && i <= |users| &&
             s < |m1| == |m2| == p.switches
    requires m2[s] == m1[s][Meter(p, u, 1 - top1[u], s) := Kbps(orders[|users|].rate)]
    requires i < |users| ==>
               users[i] < Users(p) && users[i] != u && top1[users[i]] < 2 &&
               Rated(p, m1, users[i], top1, s, orders[i].rate)
    ensures Rated(p, m2, (users + [u])[i], top1[u := 1 - top1[u]], s, orders[i].rate)
  {
    hide Kbps, Meter;
  }

  /** One order more. */
  lemma {:induction false} FreedNext(p: Plan, orders: seq<Order>, users: seq<nat>, u: nat, top0: seq<nat>,
                                     top1: seq<nat>, f0: seq<Flows>, f1: seq<Flows>, f2: seq<Flows>,
                                     m0: seq<map<int, int>>, m1: seq<map<int, int>>, m2: seq<map<int, int>>,
                                     r0: map<Key, seq<Row>>, r1: map<Key, seq<Row>>, r2: map<Key, seq<Row>>)
    requires Freed(p, orders, users, top0, top1, f0, f1, m0, m1, r0, r1) && MetersOk(p)
    requires |users| < |orders| && u < Users(p) && top1[u] < 2 && AllWindowed(f0, p.m, Last(p))
    requires Flipped(p, u, 1 - top1[u], orders[|users|].rate, p.switches, f1, f2, m1, m2, r1, r2)
    ensures Freed(p, orders, users + [u], top0, top1[u := 1 - top1[u]], f0, f2, m0, m2, r0, r2)
  {
    var us, t := users + [u], 1 - top1[u];
    var top2 := top1[u := t];
    assert us[..|users|] == users;
    hide Swapped, Without, Windowed, Owned, Kbps;
    forall s | 0 <= s < |f0| ensures f2[s] == Without(p, us, s, f0[s]) {
      PurgedBoth(p, users, u, t, s, f0[s]);
    }
    forall i: nat, s: nat | i < |us| && Final(us, i) && s < |m0| ensures Rated(p, m2, us[i], top2, s, orders[i].rate) {
      if i < |users| { FinalBefore(users, u, i); }
      RatedNext(p, orders, users, u, top1, m1, m2, i, s);
    }
    hide Final, Rated, MetersOk;
    forall s: nat, k | s < |m0| && !Owned(p, us, s, k) ensures SameEntry(m0[s], m2[s], k) {
      OwnedNext(p, users, u, s, k);
      assert t == 0 || t == 1;
    }
  }

  /** The rules per switch after `c` verdicts and `i` paths of the next. */
  function Lists(p: Plan, sug: seq<Sug>, c: nat, i: nat, u: nat, name: string, t: nat): (ls: seq<seq<Rule>>)
    requires Paired(sug) && c <= |sug| && i <= if c < |sug| then |sug[c].paths| else 0
    ensures |ls| == p.switches
  {
    seq(p.switches, s requires 0 <= s < p.switches =>
      var meter := Meter(p, u, t, s);
      RulesOn(sug, c, Allowed(p, u), name, meter, s) +
      if c < |sug| then VerdictRules(sug[c], i, Allowed(p, u), name, meter, s) else [])
  }

  lemma {:induction false} ListsNext(p: Plan, sug: seq<Sug>, c: nat, i: nat, u: nat, name: string, t: nat)
    requires Paired(sug) && c < |sug| && i < |sug[c].paths|
    ensures var v := sug[c]; var ls := Lists(p, sug, c, i, u, name, t);
            Lists(p, sug, c, i + 1, u, name, t) ==
            if 0 <= v.sw < p.switches && Bears(v) && v.paths[i] in Allowed(p, u)
            then ls[v.sw := ls[v.sw] + [RuleFor(v, i, name, Meter(p, u, t, v.sw))]] else ls
  {
    var v, ls, ls1 := sug[c], Lists(p, sug, c, i, u, name, t), Lists(p, sug, c, i + 1, u, name, t);
    hide RulesOn, Allowed, Meter;
    forall s | 0 <= s < p.switches
      ensures ls1[s] == if s == v.sw && Bears(v) && v.paths[i] in Allowed(p, u)
                        then ls[s] + [RuleFor(v, i, name, Meter(p, u, t, s))] else ls[s]
    {}
  }

  lemma {:induction false} ListsNextVerdict(p: Plan, sug: seq<Sug>, c: nat, u: nat, name: string, t: nat)
    requires Paired(sug) && c < |sug|
    ensures Lists(p, sug, c, |sug[c].paths|, u, name, t) == Lists(p, sug, c + 1, 0, u, name, t)
  {
    var l1, l2 := Lists(p, sug, c, |sug[c].paths|, u, name, t), Lists(p, sug, c + 1, 0, u, name, t);
    forall s | 0 <= s < p.switches ensures l1[s] == l2[s] {
      if c + 1 < |sug| { assert VerdictRules(sug[c + 1], 0, Allowed(p, u), name, Meter(p, u, t, s), s) == []; }
    }
  }

  lemma {:induction false} ListsGrow(sug: seq<Sug>, c: nat, n: nat, allowed: set<int>, user: string, meter: int, s: nat)
    requires Paired(sug) && c <= n <= |sug|
    ensures |RulesOn(sug, c, allowed, user, meter, s)| <= |RulesOn(sug, n, allowed, user, meter, s)|
  {
    if c < n { ListsGrow(sug, c, n - 1, allowed, user, meter, s); }
  }

  lemma {:induction false} VerdictGrows(v: Sug, i: nat, n: nat, allowed: set<int>, user: string, meter: int, s: nat)
    requires i <= n <= |v.paths| == |v.dirs|
    ensures |VerdictRules(v, i, allowed, user, meter, s)| <= |VerdictRules(v, n, allowed, user, meter, s)|
  {
    if i < n { VerdictGrows(v, i, n - 1, allowed, user, meter, s); }
  }

  lemma {:induction false} BearerSwitch(p: Plan, c: nat)
    requires c < |p.routes| && Bears(Verdict(p.routes, c)) && forall r :: r in p.routes ==> r.sw < p.switches
    ensures 0 <= Verdict(p.routes, c).sw < p.switches
  {
    assert p.routes[c] in p.routes;
    hide Leader, IsGroupLeader, Members;
  }

  /** Before each rule, there is still room in the window. */
  lemma {:induction false} ListsFit(p: Plan, sug: seq<Sug>, c: nat, i: nat, u: nat, name: string, t: nat, s: nat)
    requires Paired(sug) && c < |sug| && i < |sug[c].paths| && Bears(sug[c]) && sug[c].paths[i] in Allowed(p, u)
    requires s == sug[c].sw && s < p.switches
    requires |RulesOn(sug, |sug|, Allowed(p, u), name, Meter(p, u, t, s), s)| <= p.m
    ensures |Lists(p, sug, c, i, u, name, t)[s]| < p.m
  {
    var v, allowed, meter := sug[c], Allowed(p, u), Meter(p, u, t, s);
    VerdictGrows(v, i + 1, |v.paths|, allowed, name, meter, s);
    ListsGrow(sug, c + 1, |sug|, allowed, name, meter, s);
  }

  /** What installing user `u` has done, with `lists` the rules so far on each switch. */
  ghost predicate InstalledTo(p: Plan, u: nat, t: nat, lists: seq<seq<Rule>>, f0: seq<Flows>, f1: seq<Flows>,
                              r0: map<Key, seq<Row>>, r1: map<Key, seq<Row>>)
  {
    && |lists| == |f0| == |f1| == p.switches && r1.Keys == r0.Keys
    && (forall s: nat :: s < p.switches ==> (u, t, s) in r0)
    && (forall s: nat :: s < p.switches ==> f1[s] == Installed(f0[s], p.m, Meter(p, u, t, s), lists[s]))
    && (forall s: nat :: s < p.switches ==> r1[(u, t, s)] == Page(Base(p.m, Meter(p, u, t, s)), lists[s], p.size))
    && forall k :: k in r0 && !(k.0 == u && k.1 == t) ==> r1[k] == r0[k]
  }

  lemma {:induction false} InstalledToNext(p: Plan, u: nat, t: nat, lists: seq<seq<Rule>>, f0: seq<Flows>,
                                           f1: seq<Flows>, f2: seq<Flows>, r0: map<Key, seq<Row>>,
                                           r1: map<Key, seq<Row>>, r2: map<Key, seq<Row>>, s: nat, n: int, rule: Rule)
    requires InstalledTo(p, u, t, lists, f0, f1, r0, r1) && s < p.switches
    requires var meter := Meter(p, u, t, s);
             && 0 < meter < Last(p) && Windowed(f0[s], p.m, Last(p)) && FlowsOf(f0[s], meter) == {} && |lists[s]| < p.m
             && Base(p.m, meter) <= n && n !in f1[s] && forall k :: Base(p.m, meter) <= k < n ==> k in f1[s]
    requires f2 == f1[s := f1[s][n := rule]]
    requires r2 == r1[(u, t, s) := Filled(r1[(u, t, s)], [Ledger.Blank, Entry(n, rule)])]
    ensures InstalledTo(p, u, t, lists[s := lists[s] + [rule]], f0, f2, r0, r2)
  {
    var meter := Meter(p, u, t, s);
    InstallNext(f0[s], p.m, Last(p), meter, lists[s], rule, n);
    BasePositive(p.m, meter);
    PageNext(Base(p.m, meter), lists[s], p.size, rule);
    hide Installed, Windowed, FlowsOf, Base, Filled, Page;
  }

  lemma {:induction false} BasePositive(m: nat, meter: int)
    requires meter > 0
    ensures Base(m, meter) > 0
  {
    assert m * (meter - 1) >= 0;
  }

  /** User `u` has no flows on the meters of topology `t`, and no records. */
  ghost predicate ReadyFor(p: Plan, u: nat, t: nat, flows: seq<Flows>, rows: map<Key, seq<Row>>) {
    forall s: nat :: s < p.switches && s < |flows| ==>
      FlowsOf(flows[s], Meter(p, u, t, s)) == {} && (u, t, s) in rows && rows[(u, t, s)] == Empty(p.size)
  }

  lemma {:induction false} InstalledToStarts(p: Plan, sug: seq<Sug>, u: nat, name: string, t: nat, f: seq<Flows>,
                                             r: map<Key, seq<Row>>)
    requires |f| == p.switches && Paired(sug) && ReadyFor(p, u, t, f, r)
    ensures InstalledTo(p, u, t, Lists(p, sug, 0, 0, u, name, t), f, f, r, r)
  {
    var ls := Lists(p, sug, 0, 0, u, name, t);
    forall s: nat | s < p.switches
      ensures f[s] == Installed(f[s], p.m, Meter(p, u, t, s), ls[s]) &&
              r[(u, t, s)] == Page(Base(p.m, Meter(p, u, t, s)), ls[s], p.size)
    {
      assert ls[s] == [];
    }
  }

  /** If verdict `c` bears a rule for path `i`, the meter's window on its switch has room for it. */
  ghost predicate RoomAt(p: Plan, sug: seq<Sug>, c: nat, i: nat, u: nat, name: string, t: nat, f: seq<Flows>)
    requires Paired(sug) && c < |sug| && i < |sug[c].paths|
  {
    Bears(sug[c]) && sug[c].paths[i] in Allowed(p, u) ==>
      && 0 <= sug[c].sw < p.switches && sug[c].sw < |f| && 0 < Meter(p, u, t, sug[c].sw) < Last(p)
      && |Lists(p, sug, c, i, u, name, t)[sug[c].sw]| < p.m
      && Known(Windowed(f[sug[c].sw], p.m, Last(p))) && FlowsOf(f[sug[c].sw], Meter(p, u, t, sug[c].sw)) == {}
  }

  lemma {:induction false} RoomFor(p: Plan, sug: seq<Sug>, c: nat, u: nat, name: string, t: nat, f: seq<Flows>,
                                   r: map<Key, seq<Row>>)
    requires PlanOk(p) && u < Users(p) && t < 2 && sug == Verdicts(p.routes) && |f| == p.switches
    requires c < |sug| && AllWindowed(f, p.m, Last(p)) && ReadyFor(p, u, t, f, r)
    ensures Known(forall i :: 0 <= i < |sug[c].paths| ==> RoomAt(p, sug, c, i, u, name, t, f))
  {
    hide RoomAt;
    forall i | 0 <= i < |sug[c].paths| ensures RoomAt(p, sug, c, i, u, name, t, f) {
      RoomForPath(p, sug, c, i, u, name, t, f, r);
    }
  }

  lemma {:induction false} RoomForPath(p: Plan, sug: seq<Sug>, c: nat, i: nat, u: nat, name: string, t: nat,
                                       f: seq<Flows>, r: map<Key, seq<Row>>)
    requires PlanOk(p) && u < Users(p) && t < 2 && sug == Verdicts(p.routes) && |f| == p.switches
    requires c < |sug| && i < |sug[c].paths| && AllWindowed(f, p.m, Last(p)) && ReadyFor(p, u, t, f, r)
    ensures RoomAt(p, sug, c, i, u, name, t, f)
  {
    if Bears(sug[c]) && sug[c].paths[i] in Allowed(p, u) {
      BearerSwitch(p, c);
      RulesFit(p, u, name, t, sug[c].sw);
      hide Verdict, PlanOk, FlowsOf, Lists;
      ListsFit(p, sug, c, i, u, name, t, sug[c].sw);
    }
  }

  /** The active meter of one of the first `v` users that are not 'none'. */
  ghost predicate BuiltMeter(p: Plan, names: seq<string>, v: nat, top: seq<nat>, s: nat, meter: int) {
    exists u: nat :: u < v && u < |names| && u < |top| && names[u] != "none" && Meter(p, u, top[u], s) == meter
  }

  /** User `u` has exactly its rules on the switch, and the same in the ledger. */
  ghost predicate Served(p: Plan, u: nat, name: string, t: nat, s: nat, f: Flows, rows: map<Key, seq<Row>>) {
    var meter, rules := Meter(p, u, t, s), RulesOf(p, u, name, t, s);
    Serves(f, p.m, meter, rules) && (u, t, s) in rows && rows[(u, t, s)] == Page(Base(p.m, meter), rules, p.size)
  }

  /** The same flows of the meter in both tables. */
  ghost predicate SameFlows(f0: Flows, f1: Flows, meter: int) {
    FlowsOf(f0, meter) == FlowsOf(f1, meter) && forall n :: n in FlowsOf(f0, meter) ==> f0[n] == f1[n]
  }

  /** What `create_topology` has done for the first `v` users. */
  ghost predicate Built(p: Plan, names: seq<string>, v: nat, top: seq<nat>, f0: seq<Flows>, f1: seq<Flows>,
                        r0: map<Key, seq<Row>>, r1: map<Key, seq<Row>>)
  {
    && |f0| == |f1| == p.switches && |top| == |names| == Users(p) && r1.Keys == r0.Keys && AllWindowed(f1, p.m, Last(p))
    && (forall u: nat, s: nat :: u < v && u < |names| && s < |f1| && names[u] != "none" ==>
         Served(p, u, names[u], top[u], s, f1[s], r1))
    && (forall s: nat, a :: s < |f1| && !BuiltMeter(p, names, v, top, s, a) ==> SameFlows(f0[s], f1[s], a))
    && forall k :: k in r0 && !(k.0 < v && k.0 < |names| && names[k.0] != "none" && k.1 == top[k.0]) ==> r1[k] == r0[k]
  }

  lemma {:induction false} BuiltStarts(p: Plan, names: seq<string>, top: seq<nat>, f: seq<Flows>, r: map<Key, seq<Row>>)
    requires |f| == p.switches && |top| == |names| == Users(p) && AllWindowed(f, p.m, Last(p))
    ensures Built(p, names, 0, top, f, f, r, r)
  {}

  lemma {:induction false} BuiltSkip(p: Plan, names: seq<string>, v: nat, top: seq<nat>, f0: seq<Flows>, f1: seq<Flows>,
                  r0: map<Key, seq<Row>>, r1: map<Key, seq<Row>>)
    requires Built(p, names, v, top, f0, f1, r0, r1) && v < |names| && names[v] == "none"
    ensures Built(p, names, v + 1, top, f0, f1, r0, r1)
  {
    hide SameFlows, Served;
    forall s: nat, a | s < |f1| && !BuiltMeter(p, names, v + 1, top, s, a) ensures SameFlows(f0[s], f1[s], a) {
      assert !BuiltMeter(p, names, v, top, s, a);
    }
  }

  /** The users still to come stay ready. */
  lemma {:induction false} StillReady(p: Plan, names: seq<string>, v: nat, top: seq<nat>, f0: seq<Flows>,
                                      f1: seq<Flows>, r0: map<Key, seq<Row>>, r1: map<Key, seq<Row>>)
    requires Built(p, names, v, top, f0, f1, r0, r1) && v < |names| && MetersOk(p) && ReadyFor(p, v, top[v], f0, r0)
    requires forall u :: 0 <= u < |top| ==> top[u] < 2
    ensures ReadyFor(p, v, top[v], f1, r1)
  {
    forall s: nat | s < p.switches ensures FlowsOf(f1[s], Meter(p, v, top[v], s)) == {} {
      assert !BuiltMeter(p, names, v, top, s, Meter(p, v, top[v], s));
      assert SameFlows(f0[s], f1[s], Meter(p, v, top[v], s));
    }
  }

  /** Installing one user keeps every other meter's flows, and serves the user. */
  lemma {:induction false} InstalledOne(p: Plan, u: nat, name: string, t: nat, s: nat, f1: Flows, f2: Flows)
    requires PlanOk(p) && u < Users(p) && t < 2 && s < p.switches && Windowed(f1, p.m, Last(p)) &&
             FlowsOf(f1, Meter(p, u, t, s)) == {}
    requires f2 == Installed(f1, p.m, Meter(p, u, t, s), RulesOf(p, u, name, t, s))
    ensures Windowed(f2, p.m, Last(p)) && Serves(f2, p.m, Meter(p, u, t, s), RulesOf(p, u, name, t, s))
    ensures forall a :: a != Meter(p, u, t, s) ==> SameFlows(f1, f2, a)
  {
    var meter, rules := Meter(p, u, t, s), RulesOf(p, u, name, t, s);
    RulesFit(p, u, name, t, s);
    RulesAreMetered(Verdicts(p.routes), |p.routes|, Allowed(p, u), name, meter, s);
    hide PlanOk, Meter, RulesOf, Installed, RulesOn;
    InstalledServes(f1, p.m, Last(p), meter, rules);
    InstalledWindowed(f1, p.m, Last(p), meter, rules);
  }

  lemma {:induction false} InstalledAll(p: Plan, u: nat, name: string, t: nat, f1: seq<Flows>, f2: seq<Flows>,
                                        r1: map<Key, seq<Row>>, r2: map<Key, seq<Row>>)
    requires PlanOk(p) && u < Users(p) && t < 2 && |f1| == p.switches && AllWindowed(f1, p.m, Last(p)) &&
             ReadyFor(p, u, t, f1, r1)
    requires InstalledTo(p, u, t, Lists(p, Verdicts(p.routes), |p.routes|, 0, u, name, t), f1, f2, r1, r2)
    ensures forall s: nat :: s < p.switches ==> Windowed(f2[s], p.m, Last(p)) && Served(p, u, name, t, s, f2[s], r2)
    ensures forall s: nat, a :: s < p.switches && a != Meter(p, u, t, s) ==> SameFlows(f1[s], f2[s], a)
  {
    hide PlanOk, Windowed, SameFlows, Installed, Base, Page, Serves, FlowsOf;
    forall s: nat | s < p.switches
      ensures Windowed(f2[s], p.m, Last(p)) && Served(p, u, name, t, s, f2[s], r2)
      ensures forall a :: a != Meter(p, u, t, s) ==> SameFlows(f1[s], f2[s], a)
    {
      assert Lists(p, Verdicts(p.routes), |p.routes|, 0, u, name, t)[s] == RulesOf(p, u, name, t, s);
      InstalledOne(p, u, name, t, s, f1[s], f2[s]);
    }
  }

  lemma {:induction false} ServedKept(p: Plan, u: nat, name: string, t: nat, s: nat, f1: Flows, f2: Flows, r1: map<Key,
                                      seq<Row>>, r2: map<Key, seq<Row>>)
    requires Served(p, u, name, t, s, f1, r1) && SameFlows(f1, f2, Meter(p, u, t, s))
    requires (u, t, s) in r2 && r2[(u, t, s)] == r1[(u, t, s)]
    ensures Served(p, u, name, t, s, f2, r2)
  {
    hide RulesOf, Meter, Page, Base;
    var meter, rules := Meter(p, u, t, s), RulesOf(p, u, name, t, s);
    forall n | Base(p.m, meter) <= n < Base(p.m, meter) + |rules|
      ensures n in f2 && f2[n] == rules[n - Base(p.m, meter)]
    {
      assert n in FlowsOf(f1, meter) && n in FlowsOf(f2, meter);
    }
  }

  /** One user more. */
  lemma {:induction false} BuiltNext(p: Plan, names: seq<string>, v: nat, top: seq<nat>, f0: seq<Flows>, f1: seq<Flows>,
                                     f2: seq<Flows>,
                  r0: map<Key, seq<Row>>, r1: map<Key, seq<Row>>, r2: map<Key, seq<Row>>)
    requires Built(p, names, v, top, f0, f1, r0, r1) && v < |names| && names[v] != "none" && PlanOk(p)
    requires ReadyFor(p, v, top[v], f1, r1) && forall u :: 0 <= u < |top| ==> top[u] < 2
    requires InstalledTo(p, v, top[v], Lists(p, Verdicts(p.routes), |p.routes|, 0, v, names[v], top[v]), f1, f2, r1, r2)
    ensures Built(p, names, v + 1, top, f0, f2, r0, r2)
  {
    assert MetersOk(p);
    InstalledAll(p, v, names[v], top[v], f1, f2, r1, r2);
    hide PlanOk, Windowed, Served, Installed, RulesOf, Meter, SameFlows, ReadyFor, Lists, BuiltMeter;
    forall u: nat, s: nat | u < v + 1 && s < |f2| && names[u] != "none"
      ensures Served(p, u, names[u], top[u], s, f2[s], r2)
    {
      if u < v {
        assert Served(p, u, names[u], top[u], s, f1[s], r1) && Meter(p, u, top[u], s) != Meter(p, v, top[v], s);
        ServedKept(p, u, names[u], top[u], s, f1[s], f2[s], r1, r2);
      }
    }
    forall s: nat, a | s < |f2| && !BuiltMeter(p, names, v + 1, top, s, a) ensures SameFlows(f0[s], f2[s], a) {
      BuiltMeterNext(p, names, v, top, s, a);
      SameFlowsChain(f0[s], f1[s], f2[s], a);
    }
  }

  lemma {:induction false} BuiltMeterNext(p: Plan, names: seq<string>, v: nat, top: seq<nat>, s: nat, a: int)
    requires v < |names| == |top| && names[v] != "none" && !BuiltMeter(p, names, v + 1, top, s, a)
    ensures !BuiltMeter(p, names, v, top, s, a) && a != Meter(p, v, top[v], s)
  {}

  lemma {:induction false} SameFlowsChain(f0: Flows, f1: Flows, f2: Flows, a: int)
    requires SameFlows(f0, f1, a) && SameFlows(f1, f2, a)
    ensures SameFlows(f0, f2, a)
  {}

  lemma {:induction false} BuiltWindowed(p: Plan, names: seq<string>, v: nat, top: seq<nat>, f0: seq<Flows>,
                                         f1: seq<Flows>, r0: map<Key, seq<Row>>, r1: map<Key, seq<Row>>)
    requires Built(p, names, v, top, f0, f1, r0, r1)
    ensures Known(AllWindowed(f1, p.m, Last(p)))
  {}

  function Name(p: Plan, u: nat): string
    requires u < Users(p)
  {
    if u < |p.b1| then p.b1[u] else p.b2[u - |p.b1|]
  }

  /** `b1_u_mod` and `b2_u_mod` hold the names of the users found so far. */
  predicate Masked(p: Plan, users: seq<nat>, b1Mod: seq<string>, b2Mod: seq<string>) {
    && |b1Mod| == |p.b1| && |b2Mod| == |p.b2|
    && forall u: nat :: u < Users(p) ==> (b1Mod + b2Mod)[u] == if u in users then Name(p, u) else "none"
  }

  /** The whole effect of an update: every listed user's flows are those of its newly active meter, which has the rate
      last asked for, and the ledger agrees; all other meters and tables are as before. */
  ghost predicate Updated(p: Plan, orders: seq<Order>, users: seq<nat>, top0: seq<nat>, top1: seq<nat>,
                          f0: seq<Flows>, f1: seq<Flows>, m0: seq<map<int, int>>, m1: seq<map<int, int>>,
                          r0: map<Key, seq<Row>>, r1: map<Key, seq<Row>>)
  {
    && |users| <= |orders| && |f0| == |f1| == |m0| == |m1| == p.switches && |top0| == |top1| == Users(p) &&
       r1.Keys == r0.Keys
    && (forall i :: 0 <= i < |users| ==> users[i] < Users(p))
    && (forall u :: 0 <= u < |top0| ==> top1[u] == (top0[u] + Times(users, u)) % 2)
    && (forall u: nat, s: nat :: u in users && s < |f1| && Name(p, u) != "none" ==>
         Served(p, u, Name(p, u), top1[u], s, f1[s], r1))
    && (forall u: nat, s: nat :: u in users && s < |f1| && top1[u] < 2 ==>
         FlowsOf(f1[s], Meter(p, u, 1 - top1[u], s)) == {})
    && (forall i: nat, s: nat :: i < |users| && Final(users, i) && s < |m1| ==>
         Rated(p, m1, users[i], top1, s, orders[i].rate))
    && (forall s: nat, a :: s < |f1| && !Owned(p, users, s, a) ==>
         SameFlows(f0[s], f1[s], a) && SameEntry(m0[s], m1[s], a))
    && forall k :: k in r0 && k.0 !in users ==> r1[k] == r0[k]
  }

  lemma {:induction false} FreedStarts(p: Plan, orders: seq<Order>, top: seq<nat>, f: seq<Flows>, m: seq<map<int, int>>,
                                       r: map<Key, seq<Row>>)
    requires |f| == |m| == p.switches && |top| == Users(p) && forall u :: 0 <= u < |top| ==> top[u] < 2
    ensures Freed(p, orders, [], top, top, f, f, m, m, r, r)
  {
    forall s | 0 <= s < |f| ensures f[s] == Without(p, [], s, f[s]) {
      assert forall n :: n in f[s] ==> !Owned(p, [], s, f[s][n].meter);
    }
  }

  lemma {:induction false} UserOfRange(b1: seq<string>, b2: seq<string>, ip: string)
    ensures -1 <= UserOf(b1, b2, ip) < |b1| + |b2|
  {}

  /** A freed user has no flows on either meter. */
  lemma {:induction false} FreedNoFlows(p: Plan, users: seq<nat>, u: nat, t: nat, s: nat, f: Flows)
    requires u in users && t < 2
    ensures FlowsOf(Without(p, users, s, f), Meter(p, u, t, s)) == {}
  {
    var i :| 0 <= i < |users| && users[i] == u;
    assert Owns(p, users[i], s, Meter(p, u, t, s));
  }

  lemma {:induction false} FreedReady(p: Plan, orders: seq<Order>, users: seq<nat>, names: seq<string>, top0: seq<nat>,
                                      top1: seq<nat>,
                   f0: seq<Flows>, f1: seq<Flows>, m0: seq<map<int, int>>, m1: seq<map<int, int>>,
                   r0: map<Key, seq<Row>>, r1: map<Key, seq<Row>>)
    requires Freed(p, orders, users, top0, top1, f0, f1, m0, m1, r0, r1) && BookOk(p, r1)
    requires |names| == Users(p) && forall u: nat :: u < |names| && u !in users ==> names[u] == "none"
    ensures Known(forall u: nat :: u < |names| && names[u] != "none" ==> ReadyFor(p, u, top1[u], f1, r1))
  {
    hide Without, FlowsOf;
    forall u: nat | u < |names| && names[u] != "none" ensures ReadyFor(p, u, top1[u], f1, r1) {
      forall s: nat | s < p.switches
        ensures FlowsOf(f1[s], Meter(p, u, top1[u], s)) == {} && (u, top1[u], s) in r1 &&
                r1[(u, top1[u], s)] == Empty(p.size)
      {
        FreedNoFlows(p, users, u, top1[u], s, f0[s]);
      }
    }
  }

  lemma {:induction false} BuiltNobody(p: Plan, names: seq<string>, top: seq<nat>, f: seq<Flows>, r: map<Key, seq<Row>>)
    requires |f| == p.switches && |top| == |names| == Users(p) && AllWindowed(f, p.m, Last(p))
    requires forall u :: 0 <= u < |names| ==> names[u] == "none"
    ensures Known(Built(p, names, |names|, top, f, f, r, r))
  {
    forall s: nat, a | s < |f| ensures SameFlows(f[s], f[s], a) {}
  }

  /** The ledger stays in order. */
  lemma {:induction false} BuiltBook(p: Plan, names: seq<string>, top: seq<nat>, f0: seq<Flows>, f1: seq<Flows>,
                  r0: map<Key, seq<Row>>, r1: map<Key, seq<Row>>)
    requires Built(p, names, |names|, top, f0, f1, r0, r1) && BookOk(p, r0) && MetersOk(p) && |f0| == p.switches
    ensures BookOk(p, r1)
  {
    forall u: nat, t: nat, s: nat | u < Users(p) && t < 2 && s < p.switches ensures TableOk(p, r1, u, t, s) {
      assert TableOk(p, r0, u, t, s);
      if names[u] != "none" && t == top[u] {
        assert Served(p, u, names[u], top[u], s, f1[s], r1);
        var meter, rules := Meter(p, u, t, s), RulesOf(p, u, names[u], t, s);
        RulesAreMetered(Verdicts(p.routes), |p.routes|, Allowed(p, u), names[u], meter, s);
        BasePositive(p.m, meter);
        PageListing(Base(p.m, meter), rules, p.size);
      }
    }
  }

  lemma {:induction false} UpdatedFrom(p: Plan, orders: seq<Order>, users: seq<nat>, names: seq<string>, top0: seq<nat>,
                                       top1: seq<nat>,
                    f0: seq<Flows>, f1: seq<Flows>, f2: seq<Flows>, m0: seq<map<int, int>>, m1: seq<map<int, int>>,
                    r0: map<Key, seq<Row>>, r1: map<Key, seq<Row>>, r2: map<Key, seq<Row>>)
    requires Freed(p, orders, users, top0, top1, f0, f1, m0, m1, r0, r1)
    requires Built(p, names, |names|, top1, f1, f2, r1, r2) && MetersOk(p)
    requires |names| == Users(p) && forall u: nat :: u < |names| ==>
               names[u] == if u in users then Name(p, u) else "none"
    ensures Updated(p, orders, users, top0, top1, f0, f2, m0, m1, r0, r2)
  {
    hide Without, FlowsOf, Served, Kbps;
    forall u: nat, s: nat | u in users && s < |f2| && top1[u] < 2
      ensures FlowsOf(f2[s], Meter(p, u, 1 - top1[u], s)) == {}
    {
      FreedNoFlows(p, users, u, 1 - top1[u], s, f0[s]);
      assert !BuiltMeter(p, names, |names|, top1, s, Meter(p, u, 1 - top1[u], s));
      assert SameFlows(f1[s], f2[s], Meter(p, u, 1 - top1[u], s));
    }
    forall s: nat, a | s < |f2| && !Owned(p, users, s, a)
      ensures SameFlows(f0[s], f2[s], a) && SameEntry(m0[s], m1[s], a)
    {
      if BuiltMeter(p, names, |names|, top1, s, a) { BuiltAreOwned(p, users, names, top1, s, a); }
      WithoutSame(p, users, s, f0[s], a);
      SameFlowsChain(f0[s], f1[s], f2[s], a);
    }
  }

  lemma {:induction false} BuiltAreOwned(p: Plan, users: seq<nat>, names: seq<string>, top: seq<nat>, s: nat, a: int)
    requires |names| == |top| == Users(p) && forall u :: 0 <= u < |top| ==> top[u] < 2
    requires forall u: nat :: u < |names| && u !in users ==> names[u] == "none"
    requires BuiltMeter(p, names, |names|, top, s, a)
    ensures Owned(p, users, s, a)
  {
    var u: nat :| u < |names| && names[u] != "none" && Meter(p, u, top[u], s) == a;
    var i :| 0 <= i < |users| && users[i] == u;
    assert top[u] == 0 || top[u] == 1;
    assert Owns(p, users[i], s, a);
  }

  lemma {:induction false} WithoutSame(p: Plan, users: seq<nat>, s: nat, f: Flows, a: int)
    requires !Owned(p, users, s, a)
    ensures SameFlows(f, Without(p, users, s, f), a)
  {
    hide Owned;
  }

  /** Meters have been handed out to the first `n` pairs of user and topology: number 2u + t + 1 on each switch. */
  ghost predicate Numbered(meterOf: map<Key, int>, n: nat, switches: nat) {
    forall u: nat, t: nat, s: nat :: t < 2 && s < switches && 2 * u + t < n ==> NumberedAt(meterOf, u, t, s)
  }

  predicate NumberedAt(meterOf: map<Key, int>, u: nat, t: nat, s: nat) {
    (u, t, s) in meterOf && meterOf[(u, t, s)] == 2 * u + t + 1
  }

  /** The switch has meters 1 to `n`, all with the default rate. */
  ghost predicate FirstMeters(meters: map<int, int>, n: nat, rate: real) {
    forall k :: (k in meters <==> 1 <= k <= n) && (k in meters ==> Kilobits(meters[k], rate))
  }

  lemma {:induction false} FirstMetersNext(meters: map<int, int>, n: nat, rate: real, meter: int)
    requires FirstMeters(meters, n, rate) && meter >= 1 && meter !in meters && forall k :: 1 <= k < meter ==>
               k in meters
    ensures meter == n + 1 && FirstMeters(meters[meter := Kbps(rate)], n + 1, rate)
  {
    hide Kbps;
    assert n + 1 !in meters;
  }

  /** The loops of `init_network_v4.py` that add the meters, on cleared switches. */
  method AddMeters(store: Store, users: nat, rate: real) returns (meterOf: map<Key, int>)
    requires store.Valid() && forall s :: 0 <= s < |store.flows| ==> store.meters[s] == map[]
    modifies store`meters
    ensures store.Valid() && Numbered(meterOf, 2 * users, |store.flows|)
    ensures forall s :: 0 <= s < |store.flows| ==> FirstMeters(store.meters[s], 2 * users, rate)
  {
    meterOf := map[];
    hide FirstMeters;
    forall s | 0 <= s < |store.flows| ensures FirstMeters(store.meters[s], 0, rate) { NoMeters(rate); }
    for e := 0 to users
      invariant store.Valid() && Numbered(meterOf, 2 * e, |store.flows|)
      invariant forall s :: 0 <= s < |store.flows| ==> FirstMeters(store.meters[s], 2 * e, rate)
    {
      for t := 0 to 2
        invariant store.Valid() && Numbered(meterOf, 2 * e + t, |store.flows|)
        invariant forall s :: 0 <= s < |store.flows| ==> FirstMeters(store.meters[s], 2 * e + t, rate)
      {
        for s := 0 to |store.flows|
          invariant store.Valid() && Numbered(meterOf, 2 * e + t, |store.flows|)
          invariant forall q :: 0 <= q < s ==>
                      FirstMeters(store.meters[q], 2 * e + t + 1, rate) && NumberedAt(meterOf, e, t, q)
          invariant forall q :: s <= q < |store.flows| ==> FirstMeters(store.meters[q], 2 * e + t, rate)
        {
          ghost var before := store.meters[s];
          var meter := store.AddMeter(s, rate);
          FirstMetersNext(before, 2 * e + t, rate, meter);
          NumberedKept(meterOf, e, t, s, meter, |store.flows|);
          meterOf := meterOf[(e, t, s) := meter];
        }
      }
    }
  }

  lemma {:induction false} NumberedKept(meterOf: map<Key, int>, e: nat, t: nat, s: nat, meter: int, switches: nat)
    requires Numbered(meterOf, 2 * e + t, switches) && t < 2
    ensures Numbered(meterOf[(e, t, s) := meter], 2 * e + t, switches)
  {
    var after := meterOf[(e, t, s) := meter];
    forall u: nat, v: nat, q: nat | v < 2 && q < switches && 2 * u + v < 2 * e + t ensures NumberedAt(after, u, v, q) {
      assert NumberedAt(meterOf, u, v, q);
    }
  }

  lemma {:induction false} NoMeters(rate: real)
    ensures FirstMeters(map[], 0, rate)
  {}

  lemma {:induction false} NumberedMeters(p: Plan)
    requires Numbered(p.meterOf, 2 * (Users(p) + 1), p.switches)
    ensures MetersOk(p)
    ensures forall u: nat, t: nat, s: nat :: u <= Users(p) && t < 2 && s < p.switches ==>
              Meter(p, u, t, s) == 2 * u + t + 1
  {
    forall u: nat, t: nat, s: nat | u <= Users(p) && t < 2 && s < p.switches
      ensures Meter(p, u, t, s) == 2 * u + t + 1
    {
      assert NumberedAt(p.meterOf, u, t, s);
    }
  }

  function ArpRule(p: Plan, v: Sug): Rule {
    Rule(v.inp, if v.kind == 1 then Group(v.group) else Port(v.out), "0.0.0.0", true, Last(p), true, true)
  }

  /** The ARP entries on switch `s` of the first `n` verdicts. */
  function ArpRules(p: Plan, n: nat, s: nat): seq<Rule>
    requires n <= |p.routes|
  {
    if n == 0 then []
    else
      var v := Verdict(p.routes, n - 1);
      ArpRules(p, n - 1, s) + if v.sw == s && Bears(v) then [ArpRule(p, v)] else []
  }

  lemma {:induction false} ArpRulesLast(p: Plan, n: nat, s: nat)
    requires n <= |p.routes|
    ensures forall r :: r in ArpRules(p, n, s) ==> r.metered && r.meter == Last(p)
  {
    if n > 0 { ArpRulesLast(p, n - 1, s); }
  }

  /** The ARP entries of the first `k` verdicts are on the switches and in the ledger, and nothing else happened. */
  ghost predicate ArpTo(p: Plan, k: nat, f: seq<Flows>, r0: map<Key, seq<Row>>, r1: map<Key, seq<Row>>) {
    && k <= |p.routes| && |f| == p.switches && r1.Keys == r0.Keys
    && (forall s: nat :: s < p.switches ==> (Users(p), 1, s) in r0)
    && (forall s: nat :: s < p.switches ==> f[s] == Stored(map[], Base(p.m, Last(p)), ArpRules(p, k, s)))
    && (forall s: nat :: s < p.switches ==> r1[(Users(p), 1, s)] == Page(Base(p.m, Last(p)), ArpRules(p, k, s), p.size))
    && forall key :: key in r0 && key.0 != Users(p) ==> r1[key] == r0[key]
  }

  /** All tables of the ledger are empty, those of the ARP entries, too. */
  ghost predicate AllBlank(p: Plan, r: map<Key, seq<Row>>) {
    forall u: nat, t: nat, s: nat :: u <= Users(p) && t < 2 && s < p.switches ==>
      (u, t, s) in r && r[(u, t, s)] == Empty(p.size)
  }

  lemma {:induction false} ArpStarts(p: Plan, f: seq<Flows>, r: map<Key, seq<Row>>)
    requires |f| == p.switches && (forall s :: 0 <= s < |f| ==> f[s] == map[]) && AllBlank(p, r)
    ensures Known(ArpTo(p, 0, f, r, r))
  {
    forall s: nat | s < p.switches ensures r[(Users(p), 1, s)] == Page(Base(p.m, Last(p)), [], p.size) {
      assert r[(Users(p), 1, s)] == Empty(p.size);
    }
  }

  lemma {:induction false} ArpKeys(p: Plan, k: nat, f: seq<Flows>, r0: map<Key, seq<Row>>, r1: map<Key, seq<Row>>)
    requires ArpTo(p, k, f, r0, r1)
    ensures forall s: nat :: s < p.switches ==> (Users(p), 1, s) in r1
  {
    forall s: nat | s < p.switches ensures (Users(p), 1, s) in r1 { assert (Users(p), 1, s) in r0; }
  }

  lemma {:induction false} ArpToNext(p: Plan, k: nat, f1: seq<Flows>, f2: seq<Flows>, r0: map<Key, seq<Row>>,
                                     r1: map<Key, seq<Row>>, r2: map<Key, seq<Row>>, n: int, rule: Rule)
    requires ArpTo(p, k, f1, r0, r1) && k < |p.routes|
    requires var v := Verdict(p.routes, k); var base := Base(p.m, Last(p));
             && Bears(v) && 0 <= v.sw < p.switches && rule == ArpRule(p, v)
             && base <= n && n !in f1[v.sw] && (forall i :: base <= i < n ==> i in f1[v.sw])
             && f2 == f1[v.sw := f1[v.sw][n := rule]]
             && (Users(p), 1, v.sw as nat) in r1
             && r2 == r1[(Users(p), 1, v.sw as nat) :=
                    Filled(r1[(Users(p), 1, v.sw as nat)], [Entry(n, rule), Ledger.Blank])]
    ensures ArpTo(p, k + 1, f2, r0, r2)
  {
    var s, base, rules := Verdict(p.routes, k).sw, Base(p.m, Last(p)), ArpRules(p, k, Verdict(p.routes, k).sw);
    hide Verdict, ArpRule, ArpRules, Bears, Stored, Base, Page, Filled;
    var f, row := f1[s], r1[(Users(p), 1, s as nat)];
    assert f == Stored(map[], base, rules) && row == Page(base, rules, p.size);
    hide ArpTo;
    ArpRulesNext(p, k);
    ArpEntryNext(p, base, rules, rule, n, f, row);
    ArpToPut(p, k, s, f1, f2, r0, r1, r2);
  }

  lemma {:induction false} ArpEntryNext(p: Plan, base: int, rules: seq<Rule>, rule: Rule, n: int, f: Flows,
                                        row: seq<Row>)
    requires base == Base(p.m, Last(p)) && f == Stored(map[], base, rules) && row == Page(base, rules, p.size)
    requires base <= n && n !in f && forall i :: base <= i < n ==> i in f
    ensures f[n := rule] == Stored(map[], base, rules + [rule])
    ensures Filled(row, [Entry(n, rule), Ledger.Blank]) == Page(base, rules + [rule], p.size)
  {
    BasePositive(p.m, Last(p));
    hide Stored, Base, Page, Filled;
    StoredNext(map[], base, rules, rule, n);
    PageNextArp(base, rules, p.size, rule);
  }

  lemma {:induction false} ArpToPut(p: Plan, k: nat, s: nat, f1: seq<Flows>, f2: seq<Flows>,
                                    r0: map<Key, seq<Row>>, r1: map<Key, seq<Row>>, r2: map<Key, seq<Row>>)
    requires k < |p.routes| && s < p.switches && ArpTo(p, k, f1, r0, r1)
    requires forall q: nat :: q != s ==> ArpRules(p, k + 1, q) == ArpRules(p, k, q)
    requires f2 == f1[s := Stored(map[], Base(p.m, Last(p)), ArpRules(p, k + 1, s))]
    requires r2 == r1[(Users(p), 1, s) := Page(Base(p.m, Last(p)), ArpRules(p, k + 1, s), p.size)]
    ensures ArpTo(p, k + 1, f2, r0, r2)
  {
    hide Stored, Base, Page, ArpRules;
    ArpKeys(p, k, f1, r0, r1);
  }

  lemma {:induction false} ArpRulesNext(p: Plan, k: nat)
    requires k < |p.routes|
    ensures var v := Verdict(p.routes, k);
            forall q: nat :: ArpRules(p, k + 1, q) ==
              if q == v.sw && Bears(v) then ArpRules(p, k, q) + [ArpRule(p, v)] else ArpRules(p, k, q)
  {
    hide Verdict, Bears, ArpRule;
  }

  /** For the ledger it does not matter on which side of the entry the empty row is. */
  lemma {:induction false} PageNextArp(base: int, rules: seq<Rule>, size: nat, rule: Rule)
    requires base > 0
    ensures Filled(Page(base, rules, size), [Entry(base + |rules|, rule), Ledger.Blank]) ==
            Page(base, rules + [rule], size)
  {
    var e := Entry(base + |rules|, rule);
    PageNext(base, rules, size, rule);
    assert [Ledger.Blank, e][..1] == [Ledger.Blank] && [Ledger.Blank][..0] == [] && [e, Ledger.Blank][..1] == [e] &&
           [e][..0] == [];
    assert Kept([Ledger.Blank, e]) == Kept([e, Ledger.Blank]);
  }

  lemma {:induction false} ArpToSkip(p: Plan, k: nat, f: seq<Flows>, r0: map<Key, seq<Row>>, r1: map<Key, seq<Row>>)
    requires ArpTo(p, k, f, r0, r1) && k < |p.routes| && !Bears(Verdict(p.routes, k))
    ensures ArpTo(p, k + 1, f, r0, r1)
  {
    ArpRulesNext(p, k);
    hide Verdict, ArpRules, Stored, Page;
  }

  /** The ARP entries are exactly the last meter's flows, and no other meter has any. */
  ghost predicate OnlyArp(p: Plan, f: seq<Flows>) {
    && (forall s: nat :: s < |f| ==> Serves(f[s], p.m, Last(p), ArpRules(p, |p.routes|, s)))
    && forall s: nat, a :: s < |f| && a != Last(p) ==> FlowsOf(f[s], a) == {}
  }

  /** Some user owns the meter. */
  ghost predicate UserMeter(p: Plan, s: nat, meter: int) {
    exists u: nat :: u < Users(p) && Owns(p, u, s, meter)
  }

  /** There are no flows but the users' and the ARP entries. */
  ghost predicate NoStrays(p: Plan, f: seq<Flows>) {
    forall s: nat, a :: s < |f| && a != Last(p) && !UserMeter(p, s, a) ==> FlowsOf(f[s], a) == {}
  }

  /** With the ARP entries in place, every user is ready, and the ARP entries are exactly the last meter's flows. */
  lemma {:induction false} ArpReady(p: Plan, top: seq<nat>, f: seq<Flows>, r0: map<Key, seq<Row>>,
                                    r1: map<Key, seq<Row>>)
    requires ArpTo(p, |p.routes|, f, r0, r1) && MetersOk(p) && |top| == Users(p) && forall u :: 0 <= u < |top| ==>
               top[u] == 0
    requires BookOk(p, r0) && AllBlank(p, r0)
    ensures AllWindowed(f, p.m, Last(p)) && BookOk(p, r1) && Known(OnlyArp(p, f))
    ensures Known(forall u: nat :: u < |top| ==> ReadyFor(p, u, top[u], f, r1))
  {
    hide Meter, ArpRules, Base, Stored;
    forall s: nat | s < p.switches
      ensures Windowed(f[s], p.m, Last(p)) && Serves(f[s], p.m, Last(p), ArpRules(p, |p.routes|, s))
      ensures forall a :: a != Last(p) ==> FlowsOf(f[s], a) == {}
    {
      ArpRulesLast(p, |p.routes|, s);
      StoredAlone(p.m, Last(p), ArpRules(p, |p.routes|, s));
    }
    forall u: nat, t: nat, s: nat | u < Users(p) && t < 2 && s < p.switches ensures TableOk(p, r1, u, t, s) {
      assert TableOk(p, r0, u, t, s);
    }
    hide FlowsOf;
    forall u: nat | u < |top| ensures ReadyFor(p, u, top[u], f, r1) {
      forall s: nat | s < p.switches
        ensures FlowsOf(f[s], Meter(p, u, top[u], s)) == {} && (u, top[u], s) in r1 &&
                r1[(u, top[u], s)] == Empty(p.size)
      {
        assert r0[(u, top[u], s)] == Empty(p.size);
      }
    }
  }

  /** Entries of the last meter alone in a table. */
  lemma {:induction false} StoredAlone(m: nat, last: int, rules: seq<Rule>)
    requires forall r :: r in rules ==> r.metered && r.meter == last
    ensures var f := Stored(map[], Base(m, last), rules);
            Windowed(f, m, last) && Serves(f, m, last, rules) && forall a :: a != last ==> FlowsOf(f, a) == {}
  {
    var base := Base(m, last);
    var f := Stored(map[], base, rules);
    hide Stored;
    StoredEntries(map[], base, rules);
    forall n | n in f ensures base <= n < base + |rules| && f[n] in rules {
      StoredAt(map[], base, rules, n);
      assert f[n] == rules[n - base];
    }
    forall n ensures n in FlowsOf(f, last) <==> n in Range(base, |rules|) {}
  }

  /** What bringing up the network leaves behind. */
  ghost predicate FirstDone(p: Plan, names: seq<string>, top: seq<nat>, f: seq<Flows>, r: map<Key, seq<Row>>) {
    && |f| == p.switches && |names| == |top| == Users(p)
    && (forall u: nat, s: nat :: u < Users(p) && s < |f| && names[u] != "none" ==>
         Served(p, u, names[u], top[u], s, f[s], r))
    && (forall u: nat, s: nat :: u < Users(p) && s < |f| ==> FlowsOf(f[s], Meter(p, u, 1, s)) == {})
    && (forall s: nat :: s < |f| ==> Serves(f[s], p.m, Last(p), ArpRules(p, |p.routes|, s))) && NoStrays(p, f)
    && forall s: nat :: s < |f| ==>
         (Users(p), 1, s) in r && r[(Users(p), 1, s)] == Page(Base(p.m, Last(p)), ArpRules(p, |p.routes|, s), p.size)
  }

  lemma {:induction false} FirstIsDone(p: Plan, names: seq<string>, top: seq<nat>, f1: seq<Flows>, f2: seq<Flows>,
                                       r0: map<Key, seq<Row>>, r1: map<Key, seq<Row>>, r2: map<Key, seq<Row>>)
    requires Built(p, names, |names|, top, f1, f2, r1, r2) && MetersOk(p) && forall u :: 0 <= u < |top| ==> top[u] == 0
    requires ArpTo(p, |p.routes|, f1, r0, r1) && OnlyArp(p, f1) && BookOk(p, r1)
    ensures Known(FirstDone(p, names, top, f2, r2)) && Known(BookOk(p, r2)) && Known(AllWindowed(f2, p.m, Last(p)))
  {
    BuiltBook(p, names, top, f1, f2, r1, r2);
    hide Served, ArpRules, Base, Meter, FlowsOf, Stored;
    forall u: nat, s: nat | u < Users(p) && s < |f2| ensures FlowsOf(f2[s], Meter(p, u, 1, s)) == {} {
      assert !BuiltMeter(p, names, |names|, top, s, Meter(p, u, 1, s));
      assert SameFlows(f1[s], f2[s], Meter(p, u, 1, s));
    }
    forall s: nat | s < |f2| ensures Serves(f2[s], p.m, Last(p), ArpRules(p, |p.routes|, s)) {
      assert !BuiltMeter(p, names, |names|, top, s, Last(p));
      ServesKept(f1[s], f2[s], p.m, Last(p), ArpRules(p, |p.routes|, s));
    }
    hide Serves, Last, SameFlows, Owns, BuiltMeter;
    forall s: nat, a | s < |f2| && a != Last(p) && !UserMeter(p, s, a) ensures FlowsOf(f2[s], a) == {} {
      if BuiltMeter(p, names, |names|, top, s, a) { BuiltIsUsers(p, names, top, s, a); }
      assert SameFlows(f1[s], f2[s], a);
      SameFlowsOf(f1[s], f2[s], a);
    }
  }

  lemma {:induction false} SameFlowsOf(f0: Flows, f1: Flows, a: int)
    requires SameFlows(f0, f1, a)
    ensures FlowsOf(f0, a) == FlowsOf(f1, a)
  {}

  lemma {:induction false} BuiltIsUsers(p: Plan, names: seq<string>, top: seq<nat>, s: nat, a: int)
    requires |names| == |top| == Users(p) && (forall u :: 0 <= u < |top| ==> top[u] == 0) &&
             BuiltMeter(p, names, |names|, top, s, a)
    ensures UserMeter(p, s, a)
  {
    var u: nat :| u < |names| && Meter(p, u, top[u], s) == a;
    assert Owns(p, u, s, a);
  }

  lemma {:induction false} ServesKept(f1: Flows, f2: Flows, m: nat, meter: int, rules: seq<Rule>)
    requires Serves(f1, m, meter, rules) && SameFlows(f1, f2, meter)
    ensures Serves(f2, m, meter, rules)
  {
    hide Base;
    forall n | Base(m, meter) <= n < Base(m, meter) + |rules| ensures n in f2 && f2[n] == rules[n - Base(m, meter)] {
      assert n in FlowsOf(f1, meter) && n in FlowsOf(f2, meter);
    }
  }

  /** Bringing up the network: cleared switches, a meter for every user and topology, groups and ARP entries, and the
      first topology for all. */
  method SetUp(b1: seq<string>, b2: seq<string>, routes: seq<Route>, m: nat, switches: nat, size: nat)
    returns (c: Controller)
    requires forall r :: r in routes ==> r.sw < switches
    requires forall s: nat :: s < switches ==> Wanted(routes, |routes|, s, InPaths({0})) <= m
    ensures fresh(c) && fresh(c.store) && fresh(c.book) && c.Valid()
    ensures c.plan.(meterOf := map[]) == Plan(b1, b2, routes, m, switches, size, map[])
    ensures forall u: nat, t: nat, s: nat :: u < |b1| + |b2| && t < 2 && s < switches ==>
              Meter(c.plan, u, t, s) == 2 * u + t + 1
    ensures forall s :: 0 <= s < switches ==> FirstMeters(c.store.meters[s], 2 * (|b1| + |b2| + 1), 10.0)
    ensures c.top == seq(|b1| + |b2|, _ => 0)
    ensures FirstDone(c.plan, b1 + b2, c.top, c.store.flows, c.book.rows)
  {
    var store := new Store(m, switches);
    var meterOf := AddMeters(store, |b1| + |b2| + 1, 10.0);
    var p := Plan(b1, b2, routes, m, switches, size, meterOf);
    NumberedMeters(p);
    var book := new Book(|b1| + |b2| + 1, 2, switches, size);
    c := new Controller(p, store, book);
    assert AllBlank(p, book.rows);
    hide FirstMeters, MetersOk, AllWindowed, BookOk, FirstDone, GroupsAt, AllBlank;
    BlankOk(p, store.flows, book.rows);
    assert PlanOk(p);
    hide PlanOk, Numbered, Meter;
    c.FirstTopology(b1 + b2);
  }

  lemma {:induction false} BlankOk(p: Plan, f: seq<Flows>, r: map<Key, seq<Row>>)
    requires (forall s :: 0 <= s < |f| ==> f[s] == map[]) && AllBlank(p, r)
    ensures AllWindowed(f, p.m, Last(p)) && BookOk(p, r)
  {
    hide Meter;
    forall u: nat, t: nat, s: nat | u < Users(p) && t < 2 && s < p.switches ensures TableOk(p, r, u, t, s) {
      assert r[(u, t, s)] == Empty(p.size);
    }
  }
}
