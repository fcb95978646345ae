/** Whole runs of the slice allocator: bringing up the network, then update after update. */
module Sessions {
  import opened Facts
  import opened Text
  import opened FlowTable
  import opened Ledger
  import opened Grouping
  import opened Forwarding
  import opened Capacity
  import opened UserRules
  import opened Slices
  import opened Packets

  /** A user's slice on one switch: exactly its rules on the active meter and in the ledger, none on the other meter,
      and the active meter at the rate in force. */
  ghost predicate SliceOk(p: Plan, u: nat, t: nat, rate: real, s: nat, f: Flows, meters: map<int, int>,
                          rows: map<Key, seq<Row>>)
    requires u < Users(p) && t < 2
  {
    && (Name(p, u) != "none" ==> Served(p, u, Name(p, u), t, s, f, rows))
    && FlowsOf(f, Meter(p, u, 1 - t, s)) == {}
    && Meter(p, u, t, s) in meters && Kilobits(meters[Meter(p, u, t, s)], rate)
  }

  ghost predicate AllSlicesOk(p: Plan, top: seq<nat>, rates: seq<real>, flows: seq<Flows>, meters: seq<map<int, int>>,
                              rows: map<Key, seq<Row>>)
  {
    && |top| == |rates| == Users(p) && |flows| == |meters| == p.switches && (forall u :: 0 <= u < |top| ==> top[u] < 2)
    && forall u: nat, s: nat :: u < |top| && s < |flows| ==>
         SliceOk(p, u, top[u], rates[u], s, flows[s], meters[s], rows)
  }

  /** The rates in force after the orders of the users found. */
  function NewRates(rates: seq<real>, orders: seq<Order>, users: seq<nat>): (r: seq<real>)
    requires |users| <= |orders|
    ensures |r| == |rates|
  {
    if users == [] then rates
    else
      var n := |users| - 1;
      var r := NewRates(rates, orders, users[..n]);
      if users[n] < |r| then r[users[n] := orders[n].rate] else r
  }

  /** A listed user gets the rate of its last order; all others keep theirs. */
  lemma {:induction false} RateInForce(rates: seq<real>, orders: seq<Order>, users: seq<nat>, u: nat)
    requires |users| <= |orders| && u < |rates|
    ensures u !in users ==> NewRates(rates, orders, users)[u] == rates[u]
    ensures u in users ==>
              exists i :: 0 <= i < |users| && users[i] == u && Final(users, i) &&
                          NewRates(rates, orders, users)[u] == orders[i].rate
  {
    if users != [] {
      var n := |users| - 1;
      RateInForce(rates, orders, users[..n], u);
      if users[n] == u {
        assert Final(users, n);
      } else if u in users {
        var i :| 0 <= i < n && users[..n][i] == u && Final(users[..n], i)
                 && NewRates(rates, orders, users[..n])[u] == orders[i].rate;
        assert users[i] == u && Final(users, i) by {
          assert forall j :: 0 <= j < n ==> users[..n][j] == users[j];
        }
      }
    }
  }

  lemma {:induction false} ListedSlice(p: Plan, orders: seq<Order>, users: seq<nat>, top0: seq<nat>, top1: seq<nat>,
                                       rates: seq<real>,
                                       f0: seq<Flows>, f1: seq<Flows>, m0: seq<map<int, int>>, m1: seq<map<int, int>>,
                                       r0: map<Key, seq<Row>>, r1: map<Key, seq<Row>>, u: nat, s: nat)
    requires Updated(p, orders, users, top0, top1, f0, f1, m0, m1, r0, r1) && |rates| == Users(p)
    requires u in users && u < |top1| && s < |f1| && top1[u] < 2
    ensures SliceOk(p, u, top1[u], NewRates(rates, orders, users)[u], s, f1[s], m1[s], r1)
  {
    hide Served, Kbps, FlowsOf, Name;
    RateInForce(rates, orders, users, u);
    var i :| 0 <= i < |users| && users[i] == u && Final(users, i) &&
             NewRates(rates, orders, users)[u] == orders[i].rate;
    assert Rated(p, m1, users[i], top1, s, orders[i].rate);
  }

  lemma {:induction false} UnlistedSlice(p: Plan, orders: seq<Order>, users: seq<nat>, top0: seq<nat>, top1: seq<nat>,
                                         rates: seq<real>,
                                         f0: seq<Flows>, f1: seq<Flows>, m0: seq<map<int, int>>, m1: seq<map<int, int>>,
                                         r0: map<Key, seq<Row>>, r1: map<Key, seq<Row>>, u: nat, s: nat)
    requires Updated(p, orders, users, top0, top1, f0, f1, m0, m1, r0, r1) && MetersOk(p)
    requires u !in users && u < |top0| == |rates| && s < |f0| && top0[u] < 2
    requires SliceOk(p, u, top0[u], rates[u], s, f0[s], m0[s], r0)
    ensures top1[u] == top0[u] && SliceOk(p, u, top0[u], NewRates(rates, orders, users)[u], s, f1[s], m1[s], r1)
  {
    hide SliceOk, Served, Kbps, FlowsOf, Rated;
    RateInForce(rates, orders, users, u);
    Unlisted(p, users, u, top0, top1, s);
    UnlistedKept(p, u, top0[u], rates[u], s, f0[s], f1[s], m0[s], m1[s], r0, r1);
  }

  /** An update keeps every slice right, of the users it lists and of all others. */
  lemma {:induction false} SlicesKept(p: Plan, orders: seq<Order>, users: seq<nat>, top0: seq<nat>, top1: seq<nat>,
                                      rates: seq<real>,
                                      f0: seq<Flows>, f1: seq<Flows>, m0: seq<map<int, int>>, m1: seq<map<int, int>>,
                                      r0: map<Key, seq<Row>>, r1: map<Key, seq<Row>>)
    requires MetersOk(p) && AllSlicesOk(p, top0, rates, f0, m0, r0)
    requires Updated(p, orders, users, top0, top1, f0, f1, m0, m1, r0, r1)
    ensures AllSlicesOk(p, top1, NewRates(rates, orders, users), f1, m1, r1)
  {
    forall u: nat, s: nat | u < |top1| && s < |f1|
      ensures SliceOk(p, u, top1[u], NewRates(rates, orders, users)[u], s, f1[s], m1[s], r1)
    {
      hide SliceOk, Served, Owned, SameFlows, SameEntry, Rated, FlowsOf, MetersOk;
      if u in users {
        ListedSlice(p, orders, users, top0, top1, rates, f0, f1, m0, m1, r0, r1, u, s);
      } else {
        UnlistedSlice(p, orders, users, top0, top1, rates, f0, f1, m0, m1, r0, r1, u, s);
      }
    }
    hide SliceOk, Served, Owned, SameFlows, SameEntry, Rated, FlowsOf;
  }

  lemma {:induction false} Unlisted(p: Plan, users: seq<nat>, u: nat, top0: seq<nat>, top1: seq<nat>, s: nat)
    requires MetersOk(p) && u < Users(p) && u !in users && s < p.switches && u < |top0| == |top1| && top0[u] < 2
    requires (forall i :: 0 <= i < |users| ==> users[i] < Users(p)) && top1[u] == (top0[u] + Times(users, u)) % 2
    ensures top1[u] == top0[u]
    ensures !Owned(p, users, s, Meter(p, u, 0, s)) && !Owned(p, users, s, Meter(p, u, 1, s))
  {
    NotListed(users, u);
  }

  lemma {:induction false} NotListed(users: seq<nat>, u: nat)
    requires u !in users
    ensures Times(users, u) == 0
  {
    if users != [] { NotListed(users[..|users| - 1], u); }
  }

  lemma {:induction false} UnlistedKept(p: Plan, u: nat, t: nat, rate: real, s: nat, f0: Flows, f1: Flows,
                                        m0: map<int, int>, m1: map<int, int>, r0: map<Key, seq<Row>>,
                                        r1: map<Key, seq<Row>>)
    requires u < Users(p) && t < 2 && SliceOk(p, u, t, rate, s, f0, m0, r0) && r1.Keys == r0.Keys
    requires forall w :: 0 <= w < 2 ==> SameFlows(f0, f1, Meter(p, u, w, s)) && SameEntry(m0, m1, Meter(p, u, w, s))
    requires (u, t, s) in r0 ==> r1[(u, t, s)] == r0[(u, t, s)]
    ensures SliceOk(p, u, t, rate, s, f1, m1, r1)
  {
    hide Kbps, Name;
    if Name(p, u) != "none" { ServedKept(p, u, Name(p, u), t, s, f0, f1, r0, r1); }
  }

  /** The users that the orders of one update are about, up to the first unknown address. */
  function Found(b1: seq<string>, b2: seq<string>, orders: seq<Order>): (users: seq<nat>)
    ensures |users| <= |orders|
  {
    if orders == [] || UserOf(b1, b2, orders[0].ip) < 0 then []
    else [UserOf(b1, b2, orders[0].ip)] + Found(b1, b2, orders[1..])
  }

  lemma {:induction false} FoundExactly(b1: seq<string>, b2: seq<string>, orders: seq<Order>, users: seq<nat>)
    requires |users| <= |orders| && forall i :: 0 <= i < |users| ==> users[i] == UserOf(b1, b2, orders[i].ip)
    requires |users| < |orders| ==> UserOf(b1, b2, orders[|users|].ip) == -1
    ensures users == Found(b1, b2, orders)
  {
    hide UserOf;
    if users != [] {
      FoundExactly(b1, b2, orders[1..], users[1..]);
      assert users == [users[0]] + users[1..];
    }
  }

  /** Each user's topology flips once for every order about it, over all updates. */
  function TopsAfter(b1: seq<string>, b2: seq<string>, requests: seq<seq<Order>>, top: seq<nat>): (t: seq<nat>)
    ensures |t| == |top|
  {
    if requests == [] then top
    else
      var n := |requests| - 1;
      var before := TopsAfter(b1, b2, requests[..n], top);
      var users := Found(b1, b2, requests[n]);
      seq(|top|, u requires 0 <= u < |top| => (before[u] + Times(users, u)) % 2)
  }

  /** The rates in force after all updates. */
  function RatesAfter(b1: seq<string>, b2: seq<string>, requests: seq<seq<Order>>, rates: seq<real>): (r: seq<real>)
    ensures |r| == |rates|
  {
    if requests == [] then rates
    else
      var n := |requests| - 1;
      NewRates(RatesAfter(b1, b2, requests[..n], rates), requests[n], Found(b1, b2, requests[n]))
  }

  /** What the script does for these orders. */
  function Acts(b1: seq<string>, b2: seq<string>, orders: seq<Order>): seq<Act> {
    Trace(Found(b1, b2, orders), |orders|)
  }

  /** The caller stops reading at act `k` and takes the script for finished. */
  predicate Answers(acts: seq<Act>, k: nat) {
    k < |acts| && (acts[k].PrintsError? || acts[k].PrintsComplete?)
    && forall i :: 0 <= i < k ==> !acts[i].PrintsError? && !acts[i].PrintsComplete?
  }

  /** The caller takes the script for failed. */
  ghost predicate Fails(acts: seq<Act>) { exists k: nat :: Answers(acts, k) && acts[k].PrintsError? }

  /** The script has nothing left to do when its caller takes it for finished. */
  ghost predicate WaitsForAll(acts: seq<Act>) {
    exists k: nat :: Answers(acts, k) && forall i :: k < i < |acts| ==> acts[i].PrintsError? || acts[i].PrintsComplete?
  }

  /** All addresses of the request are known, or its first is not. */
  predicate Settles(b1: seq<string>, b2: seq<string>, orders: seq<Order>) {
    orders != [] && (UserOf(b1, b2, orders[0].ip) < 0 ||
                     forall i :: 0 <= i < |orders| ==> UserOf(b1, b2, orders[i].ip) >= 0)
  }

  lemma {:induction false} FoundAll(b1: seq<string>, b2: seq<string>, orders: seq<Order>)
    ensures |Found(b1, b2, orders)| == |orders| <==> forall i :: 0 <= i < |orders| ==> UserOf(b1, b2, orders[i].ip) >= 0
  {
    hide UserOf;
    if orders != [] {
      FoundAll(b1, b2, orders[1..]);
      if forall i :: 0 <= i < |orders| ==> UserOf(b1, b2, orders[i].ip) >= 0 {
        assert forall i :: 0 <= i < |orders[1..]| ==> orders[1..][i] == orders[i + 1];
      } else if UserOf(b1, b2, orders[0].ip) >= 0 {
        var i :| 0 <= i < |orders| && UserOf(b1, b2, orders[i].ip) < 0;
        assert orders[1..][i - 1] == orders[i];
      }
    }
  }

  /** The executing thread, which goes on at the first answer, waits for the whole update exactly when the request
      settles. */
  lemma {:induction false} WaitsExactly(b1: seq<string>, b2: seq<string>, orders: seq<Order>)
    ensures WaitsForAll(Acts(b1, b2, orders)) <==> Settles(b1, b2, orders)
  {
    var users, acts := Found(b1, b2, orders), Acts(b1, b2, orders);
    var n := |users|;
    FoundAll(b1, b2, orders);
    FoundNone(b1, b2, orders);
    hide UserOf, Found;
    assert forall i :: 0 <= i < n ==> acts[i].Frees?;
    if n < |orders| {
      assert acts[n] == PrintsError && Answers(acts, n);
      assert forall k: nat :: Answers(acts, k) ==> k == n;
      if n > 0 {
        assert acts[n + 1] == Rebuilds;
      } else {
        assert |acts| == 1;
      }
    } else if n > 0 {
      assert acts[n] == Rebuilds && acts[n + 1] == Saves && acts[n + 2] == PrintsComplete && |acts| == n + 3;
      assert Answers(acts, n + 2);
    } else {
      assert acts == [];
    }
  }

  /** The caller takes the script for failed exactly when some address of the request is unknown. */
  lemma {:induction false} FailsExactly(b1: seq<string>, b2: seq<string>, orders: seq<Order>)
    ensures Fails(Acts(b1, b2, orders)) <==> exists i :: 0 <= i < |orders| && UserOf(b1, b2, orders[i].ip) < 0
  {
    var users, acts := Found(b1, b2, orders), Acts(b1, b2, orders);
    FoundAll(b1, b2, orders);
    hide UserOf, Found;
    assert forall i :: 0 <= i < |users| ==> acts[i].Frees?;
    if |users| < |orders| {
      assert acts[|users|] == PrintsError && Answers(acts, |users|);
    } else {
      assert forall k: nat :: k < |acts| ==> !acts[k].PrintsError?;
    }
  }

  lemma {:induction false} FoundNone(b1: seq<string>, b2: seq<string>, orders: seq<Order>)
    ensures orders != [] ==> (Found(b1, b2, orders) == [] <==> UserOf(b1, b2, orders[0].ip) < 0)
  {}

  /** A known address before an unknown one: the caller goes on while the script has yet to rebuild. */
  lemma {:induction false} KnownThenUnknown(b1: seq<string>, b2: seq<string>, known: string, unknown: string, r: real)
    requires UserOf(b1, b2, known) >= 0 && UserOf(b1, b2, unknown) < 0
    ensures var orders := [Order(known, r), Order(unknown, r)];
            !Settles(b1, b2, orders) && Acts(b1, b2, orders) ==
              [Frees(UserOf(b1, b2, known)), PrintsError, Rebuilds, Saves, PrintsComplete]
  {
    var orders := [Order(known, r), Order(unknown, r)];
    assert Found(b1, b2, orders[1..]) == [];
    assert Found(b1, b2, orders) == [UserOf(b1, b2, known)];
  }

  /** What comes of it: an update of the same user that starts in between reads the old topology, frees the same
      meters and installs the user's rules; then the first script installs them again. The meter ends up with twice
      its flows, and all flows stay in their windows exactly when the window has room for both. */
  method OverlappingRebuild(store: Store, s: nat, meter: int, rules: seq<Rule>, ghost last: int)
    requires store.Valid() && s < |store.flows| && FlowsOf(store.flows[s], meter) == {} && rules != []
    requires forall r :: r in rules ==> r.metered && r.meter == meter
    modifies store`flows
    ensures store.Valid() && store.flows == old(store.flows)[s := store.flows[s]]
    ensures forall n :: n in old(store.flows)[s] ==> n in store.flows[s] && store.flows[s][n] == old(store.flows)[s][n]
    ensures |FlowsOf(store.flows[s], meter)| == 2 * |rules| && !Serves(store.flows[s], store.m, meter, rules)
    ensures meter < last && Windowed(old(store.flows)[s], store.m, last) ==>
              (Windowed(store.flows[s], store.m, last) <==> 2 * |rules| <= store.m)
  {
    ghost var f0 := store.flows[s];
    hide FlowsOf, Windowed;
    InstallRules(store, s, meter, rules, last, f0, 0);
    InstallRules(store, s, meter, rules, last, f0, |rules|);
    NotOnce(store.flows[s], store.m, meter, rules);
  }

  lemma {:induction false} NotOnce(f: Flows, m: nat, meter: int, rules: seq<Rule>)
    requires rules != [] && |FlowsOf(f, meter)| == 2 * |rules|
    ensures !Serves(f, m, meter, rules)
  {
    hide FlowsOf;
    assert |Range(Base(m, meter), |rules|)| == |rules|;
  }

  /** One script's rebuild of a user's rules on a switch where `before` of them have been added to the table `f0`
      already. */
  method InstallRules(store: Store, s: nat, meter: int, rules: seq<Rule>, ghost last: int, ghost f0: Flows,
                      ghost before: nat)
    requires store.Valid() && s < |store.flows| && forall r :: r in rules ==> r.metered && r.meter == meter
    requires Grown(f0, store.flows[s], store.m, meter, last, before)
    modifies store`flows
    ensures store.Valid() && store.flows == old(store.flows)[s := store.flows[s]]
    ensures Grown(f0, store.flows[s], store.m, meter, last, before + |rules|)
  {
    hide Grown;
    for i := 0 to |rules|
      invariant store.Valid() && |store.flows| == |old(store.flows)| &&
                store.flows == old(store.flows)[s := store.flows[s]]
      invariant Grown(f0, store.flows[s], store.m, meter, last, before + i)
    {
      ghost var f := store.flows[s];
      var n := store.AddFlow(s, rules[i]);
      GrownNext(f0, f, store.m, meter, last, before + i, rules[i], n);
    }
  }

  /** The table `f` is `f0`, which has no flows of the meter, with `k` flows of the meter added by probing. */
  ghost predicate Grown(f0: Flows, f: Flows, m: nat, meter: int, last: int, k: nat) {
    && FlowsOf(f0, meter) == {} && |FlowsOf(f, meter)| == k
    && (forall n :: n in f0 ==> n in f && f[n] == f0[n])
    && (meter < last && Windowed(f0, m, last) ==> (Windowed(f, m, last) <==> k <= m))
  }

  lemma {:induction false} GrownNext(f0: Flows, f: Flows, m: nat, meter: int, last: int, k: nat, rule: Rule, n: int)
    requires Grown(f0, f, m, meter, last, k) && rule.metered && rule.meter == meter
    requires Base(m, meter) <= n && n !in f && forall i :: Base(m, meter) <= i < n ==> i in f
    ensures Grown(f0, f[n := rule], m, meter, last, k + 1)
  {
    OneFlowMore(f, rule, n);
    if meter < last && Windowed(f0, m, last) {
      if Windowed(f, m, last) {
        ProbeKeepsWindows(f, m, last, rule, n);
      } else if Windowed(f[n := rule], m, last) {
        MisplacedStays(f, m, last, rule, n);
        assert false;
      }
    }
    hide FlowsOf, Windowed, Base;
  }

  /** As shipped, with one path through one switch, the window has room for the rules once and no more. */
  lemma {:induction false} NoRoomForTwo(p: Plan, sNums: seq<seq<nat>>, ports: seq<PathPorts>, sw: nat, u: nat,
                                        name: string, t: nat)
    requires Shaped(sNums, ports) && sNums != [] && sNums[0] == [sw] && |ports[0]| == 1 && u < |p.b1|
    requires p.routes == AllRoutes(sNums, ports, |sNums|) && p.m == 2 * Counts(ports)[0] > 0
    ensures |RulesOf(p, u, name, t, sw)| == p.m < 2 * |RulesOf(p, u, name, t, sw)|
  {
    RulesConserved(p.routes, Verdicts(p.routes), {0}, name, Meter(p, u, t, sw), sw);
    WantedSame(p.routes, |p.routes|, sw, InPaths({0}), (r: Route) => r.path == 0);
    OneSwitchNeeds(sNums, ports, sw, 0);
  }

  /** The ARP entries are right on every switch, and nothing else is there but users' entries. */
  ghost predicate ArpOk(p: Plan, flows: seq<Flows>) {
    (forall s: nat :: s < |flows| ==> Serves(flows[s], p.m, Last(p), ArpRules(p, |p.routes|, s))) && NoStrays(p, flows)
  }

  lemma {:induction false} ArpKept(p: Plan, orders: seq<Order>, users: seq<nat>, top0: seq<nat>, top1: seq<nat>,
                                   f0: seq<Flows>, f1: seq<Flows>, m0: seq<map<int, int>>, m1: seq<map<int, int>>,
                                   r0: map<Key, seq<Row>>, r1: map<Key, seq<Row>>)
    requires MetersOk(p) && ArpOk(p, f0) && Updated(p, orders, users, top0, top1, f0, f1, m0, m1, r0, r1)
    ensures ArpOk(p, f1)
  {
    hide Served, Serves, Rated;
    forall s: nat | s < |f1| ensures Serves(f1[s], p.m, Last(p), ArpRules(p, |p.routes|, s)) {
      assert !Owned(p, users, s, Last(p));
      ServesKept(f0[s], f1[s], p.m, Last(p), ArpRules(p, |p.routes|, s));
    }
    hide Last, SameFlows, Owns, Meter, FlowsOf;
    forall s: nat, a | s < |f1| && a != Last(p) && !UserMeter(p, s, a) ensures FlowsOf(f1[s], a) == {} {
      assert !Owned(p, users, s, a);
      assert SameFlows(f0[s], f1[s], a);
      SameFlowsOf(f0[s], f1[s], a);
    }
  }

  lemma {:induction false} StartsOk(p: Plan, top: seq<nat>, rates: seq<real>, flows: seq<Flows>,
                                    meters: seq<map<int, int>>, rows: map<Key, seq<Row>>)
    requires |top| == |rates| == Users(p) && |flows| == |meters| == p.switches
    requires forall u: nat, t: nat, s: nat :: u < Users(p) && t < 2 && s < p.switches ==>
               Meter(p, u, t, s) == 2 * u + t + 1
    requires forall s :: 0 <= s < p.switches ==> FirstMeters(meters[s], 2 * (Users(p) + 1), 10.0)
    requires FirstDone(p, p.b1 + p.b2, top, flows, rows) && forall u :: 0 <= u < |top| ==>
               top[u] == 0 && rates[u] == 10.0
    ensures Known(AllSlicesOk(p, top, rates, flows, meters, rows)) && Known(ArpOk(p, flows))
  {
    hide Served, Kbps, FlowsOf, Serves;
    forall u: nat, s: nat | u < |top| && s < |flows|
      ensures SliceOk(p, u, top[u], rates[u], s, flows[s], meters[s], rows)
    {
      assert Meter(p, u, 0, s) in meters[s];
      assert (p.b1 + p.b2)[u] == Name(p, u);
    }
  }

  /** The state of the controller after the requests `done`: every user is on the topology that its orders have
      flipped it to, has exactly its rules there and none on the other, at the rate last asked for, in switch and
      ledger; and the ARP entries and groups are as they were installed. */
  ghost predicate UpToDate(c: Controller, done: seq<seq<Order>>)
    reads c, c.store, c.book
  {
    var p := c.plan;
    && c.Valid() && c.top == TopsAfter(p.b1, p.b2, done, seq(Users(p), _ => 0))
    && AllSlicesOk(p, c.top, RatesAfter(p.b1, p.b2, done, seq(Users(p), _ => 10.0)),
                   c.store.flows, c.store.meters, c.book.rows)
    && ArpOk(p, c.store.flows)
  }

  /** Bringing up the network with windows of twice the connections of the first path, the one that users are
      allowed. */
  method BringUp(b1: seq<string>, b2: seq<string>, sNums: seq<seq<nat>>, ports: seq<PathPorts>, m: nat, switches: nat,
                 size: nat)
    returns (c: Controller)
    requires Shaped(sNums, ports) && forall p, s :: 0 <= p < |sNums| && s in sNums[p] ==> s < switches
    requires sNums != [] ==> 2 * PathCount(ports[0], |ports[0]|) <= m
    ensures fresh(c) && fresh(c.store) && fresh(c.book) && Known(UpToDate(c, []))
    ensures c.plan.(meterOf := map[]) == Plan(b1, b2, AllRoutes(sNums, ports, |sNums|), m, switches, size, map[])
  {
    var routes := ListRoutes(sNums, ports);
    AllRoutesOn(sNums, ports, |sNums|);
    forall s: nat | s < switches
      ensures Wanted(routes, |routes|, s, InPaths({0})) <= m
    {
      WindowSuffices(sNums, ports, m, 0, s);
    }
    c := SetUp(b1, b2, routes, m, switches, size);
    hide Served, MetersOk, AllWindowed, BookOk, FirstDone, GroupsAt, AllSlicesOk, ArpOk, Shaped, AllRoutes;
    StartsOk(c.plan, c.top, seq(|b1| + |b2|, _ => 10.0), c.store.flows, c.store.meters, c.book.rows);
  }

  /** A whole run of requests that settle: at the end, as after each of them, the controller is up to date. */
  method Session(b1: seq<string>, b2: seq<string>, sNums: seq<seq<nat>>, ports: seq<PathPorts>, m: nat, switches: nat,
                 size: nat, requests: seq<seq<Order>>) returns (c: Controller)
    requires Shaped(sNums, ports) && forall p, s :: 0 <= p < |sNums| && s in sNums[p] ==> s < switches
    requires sNums != [] ==> 2 * PathCount(ports[0], |ports[0]|) <= m
    requires forall i :: 0 <= i < |requests| ==> Settles(b1, b2, requests[i])
    ensures c.plan.(meterOf := map[]) == Plan(b1, b2, AllRoutes(sNums, ports, |sNums|), m, switches, size, map[])
    ensures UpToDate(c, requests)
  {
    c := BringUp(b1, b2, sNums, ports, m, switches, size);
    hide UpToDate, Settles, AllRoutes, Shaped;
    AllRequests(c, requests);
  }

  /** The requests of a run, one after the other. */
  method AllRequests(c: Controller, requests: seq<seq<Order>>)
    requires Known(UpToDate(c, [])) && forall i :: 0 <= i < |requests| ==> Settles(c.plan.b1, c.plan.b2, requests[i])
    modifies c`top, c.store, c.book
    ensures Known(UpToDate(c, requests))
  {
    hide UpToDate, Settles;
    assert requests[..0] == [];
    for i := 0 to |requests|
      invariant UpToDate(c, requests[..i])
    {
      assert requests[..i + 1] == requests[..i] + [requests[i]];
      ghost var acts := OneRequest(c, requests[..i], requests[i]);
    }
    assert requests[..|requests|] == requests;
  }

  /** One request of a run. */
  method OneRequest(c: Controller, done: seq<seq<Order>>, orders: seq<Order>) returns (ghost acts: seq<Act>)
    requires Known(UpToDate(c, done)) && Settles(c.plan.b1, c.plan.b2, orders)
    modifies c`top, c.store, c.book
    ensures Known(UpToDate(c, done + [orders])) && acts == Acts(c.plan.b1, c.plan.b2, orders)
  {
    ghost var p := c.plan;
    ghost var tops, rates := seq(Users(p), _ => 0), seq(Users(p), _ => 10.0);
    ghost var before := RatesAfter(p.b1, p.b2, done, rates);
    ghost var top0, f0, m0, r0 := c.top, c.store.flows, c.store.meters, c.book.rows;
    hide Controller.Valid, MetersOk, Updated, AllSlicesOk, ArpOk, TopsAfter, RatesAfter, NewRates;
    var users;
    users, acts := c.Update(orders);
    c.ValidMeters();
    FoundExactly(p.b1, p.b2, orders, users);
    SlicesKept(p, orders, users, top0, c.top, before, f0, c.store.flows, m0, c.store.meters, r0, c.book.rows);
    ArpKept(p, orders, users, top0, c.top, f0, c.store.flows, m0, c.store.meters, r0, c.book.rows);
    OneMoreRequest(p, done, orders, users, tops, rates, top0, c.top, f0,
                   c.store.flows, m0, c.store.meters, r0, c.book.rows);
  }

  lemma {:induction false} OneMoreRequest(p: Plan, done: seq<seq<Order>>, orders: seq<Order>, users: seq<nat>,
                                          tops: seq<nat>, rates: seq<real>, top0: seq<nat>, top1: seq<nat>,
                                          f0: seq<Flows>, f1: seq<Flows>, m0: seq<map<int, int>>,
                                          m1: seq<map<int, int>>, r0: map<Key, seq<Row>>, r1: map<Key, seq<Row>>)
    requires users == Found(p.b1, p.b2, orders) && top0 == TopsAfter(p.b1, p.b2, done, tops)
    requires Updated(p, orders, users, top0, top1, f0, f1, m0, m1, r0, r1)
    ensures top1 == TopsAfter(p.b1, p.b2, done + [orders], tops)
    ensures RatesAfter(p.b1, p.b2, done + [orders], rates) ==
            NewRates(RatesAfter(p.b1, p.b2, done, rates), orders, users)
  {
    assert (done + [orders])[..|done|] == done;
    hide Served, Owned, SameFlows, Found, FlowsOf, Rated;
  }

  /** The run as the scripts configure it, with the window size of flow_v013. */
  method ConfiguredSession(b1: seq<string>, b2: seq<string>, sNums: seq<seq<nat>>, ports: seq<PathPorts>, switches: nat,
                           size: nat,
                           requests: seq<seq<Order>>) returns (c: Controller)
    requires Shaped(sNums, ports) && forall p, s :: 0 <= p < |sNums| && s in sNums[p] ==> s < switches
    requires forall i :: 0 <= i < |requests| ==> Settles(b1, b2, requests[i])
    ensures c.plan.(meterOf := map[]) ==
            Plan(b1, b2, AllRoutes(sNums, ports, |sNums|), RunningMax(Counts(ports)), switches, size, map[])
    ensures UpToDate(c, requests)
  {
    hide UpToDate, Settles;
    var m := MaxFlowsDoubling(ports);
    if ports != [] { DoublingFirst(Counts(ports)); }
    c := Session(b1, b2, sNums, ports, m, switches, size, requests);
  }

  /** On a right slice, a user's packets are forwarded end to end as configured: to the ports of the routes through
      their switch and input port, if a path allowed to the user comes that way. */
  lemma {:induction false} SlicePackets(p: Plan, u: nat, t: nat, rate: real, s: nat, f: Flows, meters: map<int, int>,
                                        rows: map<Key, seq<Row>>,
                                        groups: map<(nat, nat), seq<nat>>, inp: nat, toUser: bool, o: nat)
    requires u < Users(p) && t < 2 && SliceOk(p, u, t, rate, s, f, meters, rows) &&
             GroupsAt(p.routes, groups, |p.routes|)
    requires Name(p, u) != "none"
    ensures Forwards(f, groups, s, Meter(p, u, t, s), inp, Name(p, u), toUser, o) <==>
            OnRoute(p.routes, Allowed(p, u), s, inp, toUser) && HasOutput(p.routes, s, inp, o)
    ensures !Forwards(f, groups, s, Meter(p, u, 1 - t, s), inp, Name(p, u), toUser, o)
  {
    UserPackets(p, u, Name(p, u), t, s, f, rows, groups, inp, toUser, o);
    hide Served, Name;
  }

  /** Any entry of the switch's table sends the user's packets from port `inp` to port `o`. */
  ghost predicate TableForwards(f: Flows, groups: map<(nat, nat), seq<nat>>, s: nat, inp: nat, user: string,
                                toUser: bool, o: nat)
  {
    exists n :: n in f && AppliesTo(f[n], inp, user, toUser) && SendsTo(groups, s, f[n], o)
  }

  lemma {:induction false} RulesForUser(sug: seq<Sug>, n: nat, allowed: set<int>, user: string, meter: int, s: nat)
    requires Paired(sug) && n <= |sug|
    ensures forall r :: r in RulesOn(sug, n, allowed, user, meter, s) ==> r.user == user && !r.arp
  {
    forall r | r in RulesOn(sug, n, allowed, user, meter, s) ensures r.user == user && !r.arp {
      var c, i := RuleFrom(sug, n, allowed, user, meter, s, r);
    }
  }

  /** With addresses that differ, an entry that applies to a user's packets is of that user's active meter. */
  lemma {:induction false} AppliesToOwn(p: Plan, top: seq<nat>, rates: seq<real>, flows: seq<Flows>,
                                        meters: seq<map<int, int>>, rows: map<Key, seq<Row>>, u: nat, s: nat, n: int,
                                        inp: nat, toUser: bool)
    requires AllSlicesOk(p, top, rates, flows, meters, rows) && ArpOk(p, flows) && AllWindowed(flows, p.m, Last(p))
    requires forall v: nat, w: nat :: v < w < Users(p) ==> Name(p, v) != Name(p, w)
    requires forall v: nat :: v < Users(p) ==> Name(p, v) != "none"
    requires u < Users(p) && s < |flows| && n in flows[s] && AppliesTo(flows[s][n], inp, Name(p, u), toUser)
    ensures n in FlowsOf(flows[s], Meter(p, u, top[u], s))
  {
    var f := flows[s];
    var a := f[n].meter;
    assert n in FlowsOf(f, a) by { assert Windowed(f, p.m, Last(p)); }
    if a == Last(p) {
      ServesRule(f, p.m, a, ArpRules(p, |p.routes|, s), n);
      var c := ArpRuleFrom(p, |p.routes|, s, f[n]);
      assert false;
    }
    assert UserMeter(p, s, a);
    var v: nat :| v < Users(p) && Owns(p, v, s, a);
    assert SliceOk(p, v, top[v], rates[v], s, f, meters[s], rows);
    var rules := RulesOf(p, v, Name(p, v), top[v], s);
    assert a == Meter(p, v, top[v], s);
    ServesRule(f, p.m, a, rules, n);
    RulesForUser(Verdicts(p.routes), |p.routes|, Allowed(p, v), Name(p, v), a, s);
    assert v == u;
  }

  /** End to end over the whole table of a switch: a user's packets go to exactly the ports of the routes through
      their switch and input port, if a path allowed to the user comes that way. */
  lemma {:induction false} TablePackets(c: Controller, done: seq<seq<Order>>, u: nat, s: nat, inp: nat, toUser: bool,
                                        o: nat)
    requires UpToDate(c, done) && u < Users(c.plan) && s < c.plan.switches
    requires forall v: nat, w: nat :: v < w < Users(c.plan) ==> Name(c.plan, v) != Name(c.plan, w)
    requires forall v: nat :: v < Users(c.plan) ==> Name(c.plan, v) != "none"
    ensures TableForwards(c.store.flows[s], c.groups, s, inp, Name(c.plan, u), toUser, o) <==>
            OnRoute(c.plan.routes, Allowed(c.plan, u), s, inp, toUser) && HasOutput(c.plan.routes, s, inp, o)
  {
    var p, f, user := c.plan, c.store.flows[s], Name(c.plan, u);
    var rates := RatesAfter(p.b1, p.b2, done, seq(Users(p), _ => 10.0));
    assert SliceOk(p, u, c.top[u], rates[u], s, f, c.store.meters[s], c.book.rows);
    SlicePackets(p, u, c.top[u], rates[u], s, f, c.store.meters[s], c.book.rows, c.groups, inp, toUser, o);
    if TableForwards(f, c.groups, s, inp, user, toUser, o) {
      var n :| n in f && AppliesTo(f[n], inp, user, toUser) && SendsTo(c.groups, s, f[n], o);
      AppliesToOwn(p, c.top, rates, c.store.flows, c.store.meters, c.book.rows, u, s, n, inp, toUser);
    }
  }

  /** The same from the configuration: a user of base station 1 has its packets forwarded along the connections of the
      first path, and wherever else a connection leads from where they come in; one of base station 2 has none
      forwarded. */
  lemma {:induction false} ConfiguredPackets(c: Controller, done: seq<seq<Order>>, sNums: seq<seq<nat>>,
                                             ports: seq<PathPorts>, u: nat, s: nat, inp: nat, toUser: bool, o: nat)
    requires Shaped(sNums, ports) && c.plan.routes == AllRoutes(sNums, ports, |sNums|)
    requires UpToDate(c, done) && u < Users(c.plan) && s < c.plan.switches
    requires forall v: nat, w: nat :: v < w < Users(c.plan) ==> Name(c.plan, v) != Name(c.plan, w)
    requires forall v: nat :: v < Users(c.plan) ==> Name(c.plan, v) != "none"
    ensures TableForwards(c.store.flows[s], c.groups, s, inp, Name(c.plan, u), toUser, o) <==>
            u < |c.plan.b1| && ComesThrough(sNums, ports, {0}, s, inp, toUser) && Joins(sNums, ports, s, inp, o)
  {
    TablePackets(c, done, u, s, inp, toUser, o);
    OnRouteComes(sNums, ports, Allowed(c.plan, u), s, inp, toUser);
    OutputsJoin(sNums, ports, s, inp, o);
    hide UpToDate, TableForwards, AllRoutes, OnRoute, HasOutput, Joins;
  }

  /** As shipped, with the connections 1-4, 5-8 and 9-12 on one switch: what the first user sends from port 1 goes out
      at port 4 and nowhere else, and what comes back for it by port 4 goes out at port 1. */
  lemma {:induction false} ShippedPackets(c: Controller, done: seq<seq<Order>>, toUser: bool, o: nat)
    requires c.plan.routes == AllRoutes([[0]], [[[(1, 4), (5, 8), (9, 12)]]], 1)
    requires UpToDate(c, done) && |c.plan.b1| > 0 && c.plan.switches == 1
    requires forall v: nat, w: nat :: v < w < Users(c.plan) ==> Name(c.plan, v) != Name(c.plan, w)
    requires forall v: nat :: v < Users(c.plan) ==> Name(c.plan, v) != "none"
    ensures TableForwards(c.store.flows[0], c.groups, 0, 1, Name(c.plan, 0), toUser, o) <==> !toUser && o == 4
    ensures TableForwards(c.store.flows[0], c.groups, 0, 4, Name(c.plan, 0), toUser, o) <==> toUser && o == 1
  {
    hide UpToDate, TableForwards, AllRoutes;
    var sNums: seq<seq<nat>>, ports: seq<PathPorts> := [[0]], [[[(1, 4), (5, 8), (9, 12)]]];
    ConfiguredPackets(c, done, sNums, ports, 0, 0, 1, toUser, o);
    ConfiguredPackets(c, done, sNums, ports, 0, 0, 4, toUser, o);
    assert EntersBy(sNums, ports, 0, 0, 0, {0}, 0, 1, false) && EntersBy(sNums, ports, 0, 0, 0, {0}, 0, 4, true);
    assert JoinsAt(sNums, ports, 0, 0, 0, 0, 1, 4) && JoinsAt(sNums, ports, 0, 0, 0, 0, 4, 1);
  }
}
