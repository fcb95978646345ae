/** The two threads and the controller together: requests come in at any time and are executed one by one. */
module Service {
  import opened Facts
  import opened Ledger
  import opened Capacity
  import opened Slices
  import opened Sessions
  import Queue = RequestQueue

  /** The orders of a request, as the update script reads them; `rate` parses a number. */
  function OrdersOf(r: Queue.Request, rate: string -> real): seq<Order> {
    seq(|r| / 2, i requires 0 <= i < |r| / 2 => Order(r[2 * i], rate(r[2 * i + 1])))
  }

  function AllOrders(rs: seq<Queue.Request>, rate: string -> real): seq<seq<Order>> {
    seq(|rs|, i requires 0 <= i < |rs| => OrdersOf(rs[i], rate))
  }

  /** Every request that the executing thread wants, of those that come in, settles. */
  predicate AllSettle(b1: seq<string>, b2: seq<string>, events: seq<Queue.Event>, rate: string -> real) {
    forall i :: 0 <= i < |events| && events[i].Collect? && Queue.Wanted(events[i].message) ==>
      Settles(b1, b2, OrdersOf(events[i].message, rate))
  }

  lemma {:induction false} HeardSettles(b1: seq<string>, b2: seq<string>, events: seq<Queue.Event>,
                                        rate: string -> real)
    requires AllSettle(b1, b2, events, rate)
    ensures forall r :: r in Queue.Run(events, true).heard && Queue.Wanted(r) ==> Settles(b1, b2, OrdersOf(r, rate))
  {
    hide Settles, Queue.Wanted, OrdersOf, Queue.Heard;
    if events != [] {
      var front := events[..|events| - 1];
      assert forall i :: 0 <= i < |front| ==> front[i] == events[i];
      HeardSettles(b1, b2, front, rate);
      HeardNext(Queue.Run(front, true), events[|events| - 1]);
    }
  }

  lemma {:induction false} HeardNext(s: Queue.State, e: Queue.Event)
    ensures var t := Queue.Next(s, e, true); t.heard == s.heard || (e.Collect? && t.heard == s.heard + [e.message])
  {}

  lemma {:induction false} OnlyWanted(rs: seq<Queue.Request>)
    ensures forall r :: r in Queue.Only(rs) ==> r in rs && Queue.Wanted(r)
  {
    hide Queue.Wanted;
    if rs != [] { OnlyWanted(rs[..|rs| - 1]); }
  }

  /** What the executing thread reads when it runs the script is what the update script prints. */
  ghost predicate HonestAt(b1: seq<string>, b2: seq<string>, s: Queue.State, e: Queue.Event, rate: string -> real) {
    s.exe.Running? && Queue.Queue(s) != [] && e.Execute? ==>
      (e.failed <==> Fails(Acts(b1, b2, OrdersOf(Queue.Queue(s)[0], rate))))
  }

  ghost predicate Honest(b1: seq<string>, b2: seq<string>, events: seq<Queue.Event>, rate: string -> real) {
    forall i :: 0 <= i < |events| ==> HonestAt(b1, b2, Queue.Run(events[..i], true), events[i], rate)
  }

  /** Some address of the request is unknown. */
  predicate AnyUnknown(b1: seq<string>, b2: seq<string>, orders: seq<Order>) {
    exists i :: 0 <= i < |orders| && UserOf(b1, b2, orders[i].ip) < 0
  }

  /** The outcomes so far are those of the requests executed. */
  predicate OutcomesOk(b1: seq<string>, b2: seq<string>, s: Queue.State, rate: string -> real) {
    |s.outcomes| == |s.executed| && forall k :: 0 <= k < |s.executed| ==>
      (s.outcomes[k] <==> AnyUnknown(b1, b2, OrdersOf(s.executed[k], rate)))
  }

  lemma {:induction false} OutcomeNext(b1: seq<string>, b2: seq<string>, s: Queue.State, e: Queue.Event,
                                       rate: string -> real)
    requires OutcomesOk(b1, b2, s, rate) && HonestAt(b1, b2, s, e, rate)
    ensures OutcomesOk(b1, b2, Queue.Next(s, e, true), rate)
  {
    if s.exe.Running? && Queue.Queue(s) != [] { FailsExactly(b1, b2, OrdersOf(Queue.Queue(s)[0], rate)); }
    hide AnyUnknown, Fails, Acts, OrdersOf, Queue.Wanted, Queue.Heard;
  }

  lemma {:induction false} OutcomesRight(b1: seq<string>, b2: seq<string>, events: seq<Queue.Event>,
                                         rate: string -> real)
    requires Honest(b1, b2, events, rate)
    ensures OutcomesOk(b1, b2, Queue.Run(events, true), rate)
  {
    hide HonestAt, OutcomesOk, Queue.Next;
    if events == [] {
      NoOutcomes(b1, b2, rate);
    } else {
      var front := events[..|events| - 1];
      forall i | 0 <= i < |front| ensures HonestAt(b1, b2, Queue.Run(front[..i], true), front[i], rate) {
        assert front[..i] == events[..i];
      }
      OutcomesRight(b1, b2, front, rate);
      OutcomeNext(b1, b2, Queue.Run(front, true), events[|events| - 1], rate);
    }
  }

  lemma {:induction false} NoOutcomes(b1: seq<string>, b2: seq<string>, rate: string -> real)
    ensures OutcomesOk(b1, b2, Queue.Start(), rate)
  {}

  /** Each answer says whether some address of its request was unknown. */
  predicate AnswersTrue(b1: seq<string>, b2: seq<string>, s: Queue.State, rate: string -> real) {
    |s.answers| <= |s.executed| && forall k :: 0 <= k < |s.answers| ==>
      (s.answers[k].failed <==> AnyUnknown(b1, b2, OrdersOf(s.executed[k], rate)))
  }

  lemma {:induction false} AnswersRight(b1: seq<string>, b2: seq<string>, events: seq<Queue.Event>,
                                        rate: string -> real)
    requires Honest(b1, b2, events, rate)
    ensures AnswersTrue(b1, b2, Queue.Run(events, true), rate)
  {
    Queue.ExecutedInOrder(events);
    OutcomesRight(b1, b2, events, rate);
    hide AnyUnknown, OrdersOf, Queue.Run, Queue.Joined, Honest;
  }

  /** Addresses and rates, written down in turn. */
  function InTurn(pairs: seq<(string, string)>): Queue.Request {
    if pairs == [] then [] else InTurn(pairs[..|pairs| - 1]) + [pairs[|pairs| - 1].0, pairs[|pairs| - 1].1]
  }

  /** The script reads them as pairs again; an odd item at the end is left out. */
  lemma {:induction false} OrdersInTurn(pairs: seq<(string, string)>, odd: Queue.Request, rate: string -> real)
    requires |odd| <= 1
    ensures OrdersOf(InTurn(pairs) + odd, rate) ==
            seq(|pairs|, i requires 0 <= i < |pairs| => Order(pairs[i].0, rate(pairs[i].1)))
  {
    InTurnAt(pairs);
  }

  lemma {:induction false} InTurnAt(pairs: seq<(string, string)>)
    ensures |InTurn(pairs)| == 2 * |pairs|
    ensures forall i :: 0 <= i < |pairs| ==>
              InTurn(pairs)[2 * i] == pairs[i].0 && InTurn(pairs)[2 * i + 1] == pairs[i].1
  {
    if pairs != [] { InTurnAt(pairs[..|pairs| - 1]); }
  }

  /** A turn executes at most one request. */
  lemma {:induction false} ExecutedNext(s: Queue.State, e: Queue.Event)
    ensures var t := Queue.Next(s, e, true);
            t.executed == s.executed || (|t.executed| == |s.executed| + 1 && s.executed < t.executed)
  {}

  lemma {:induction false} ExecutedSettles(b1: seq<string>, b2: seq<string>, events: seq<Queue.Event>,
                                           rate: string -> real)
    requires AllSettle(b1, b2, events, rate)
    ensures forall r :: r in Queue.Run(events, true).executed ==> Settles(b1, b2, OrdersOf(r, rate))
  {
    HeardSettles(b1, b2, events, rate);
    Queue.ExecutedInOrder(events);
    OnlyWanted(Queue.Run(events, true).heard);
    hide Settles, Queue.Wanted, Queue.Run, Queue.Only;
    var s := Queue.Run(events, true);
    forall r | r in s.executed ensures r in Queue.Only(s.heard) {
      var i :| 0 <= i < |s.executed| && s.executed[i] == r;
      assert Queue.Only(s.heard)[i] == r;
    }
  }

  /** Over every interleaving of the two threads, the controller is up to date with the requests that have been
      executed, and these are the wanted ones in order of arrival. */
  method Serve(b1: seq<string>, b2: seq<string>, sNums: seq<seq<nat>>, ports: seq<PathPorts>, m: nat, switches: nat,
               size: nat, events: seq<Queue.Event>, rate: string -> real) returns (c: Controller, s: Queue.State)
    requires Shaped(sNums, ports) && forall p, s :: 0 <= p < |sNums| && s in sNums[p] ==> s < switches
    requires sNums != [] ==> 2 * PathCount(ports[0], |ports[0]|) <= m
    requires AllSettle(b1, b2, events, rate)
    ensures c.plan.(meterOf := map[]) == Plan(b1, b2, AllRoutes(sNums, ports, |sNums|), m, switches, size, map[])
    ensures s == Queue.Run(events, true) && exists n: nat :: Queue.AskedUpTo(s.heard, n, s.executed)
    ensures |s.executed| - 1 <= |s.answers| && (Honest(b1, b2, events, rate) ==> AnswersTrue(b1, b2, s, rate))
    ensures UpToDate(c, AllOrders(s.executed, rate))
  {
    c := BringUp(b1, b2, sNums, ports, m, switches, size);
    s := Queue.Start();
    Queue.ExecutedInOrder(events);
    if Honest(b1, b2, events, rate) { AnswersRight(b1, b2, events, rate); }
    assert AllOrders([], rate) == [];
    assert events[..0] == [] && events[..|events|] == events;
    hide UpToDate, AllSettle, Shaped, AllRoutes, AllOrders, Queue.Next, Queue.Only, Queue.ExactlyAsked, Honest,
         AnswersTrue;
    for i := 0 to |events|
      invariant fresh(c) && fresh(c.store) && fresh(c.book) && c.plan.b1 == b1 && c.plan.b2 == b2
      invariant s == Queue.Run(events[..i], true) && UpToDate(c, AllOrders(s.executed, rate))
    {
      s := Turn(c, s, events, i, rate);
    }
  }

  /** One turn of either thread. The update that a request asks for is run to its end before the executing thread
      goes on. */
  method Turn(c: Controller, s: Queue.State, events: seq<Queue.Event>, i: nat, rate: string -> real)
    returns (t: Queue.State)
    requires i < |events| && AllSettle(c.plan.b1, c.plan.b2, events, rate)
    requires s == Queue.Run(events[..i], true) && Known(UpToDate(c, AllOrders(s.executed, rate)))
    modifies c`top, c.store, c.book
    ensures t == Queue.Run(events[..i + 1], true) && Known(UpToDate(c, AllOrders(t.executed, rate)))
  {
    t := Queue.Next(s, events[i], true);
    NextExecuted(c.plan.b1, c.plan.b2, events, i, rate);
    hide UpToDate, AllSettle, Settles, OrdersOf, AllOrders, Queue.Next, Queue.Run;
    if |t.executed| > |s.executed| {
      ghost var acts := OneRequest(c, AllOrders(s.executed, rate), OrdersOf(t.executed[|s.executed|], rate));
    }
  }

  lemma {:induction false} NextExecuted(b1: seq<string>, b2: seq<string>, events: seq<Queue.Event>, i: nat,
                                        rate: string -> real)
    requires i < |events| && AllSettle(b1, b2, events, rate)
    ensures var s, t := Queue.Run(events[..i], true), Queue.Run(events[..i + 1], true);
            && t == Queue.Next(s, events[i], true) && |t.executed| >= |s.executed|
            && (|t.executed| == |s.executed| ==> t.executed == s.executed)
            && (|t.executed| > |s.executed| ==>
                  Settles(b1, b2, OrdersOf(t.executed[|s.executed|], rate)) &&
                  AllOrders(t.executed, rate) ==
                    AllOrders(s.executed, rate) + [OrdersOf(t.executed[|s.executed|], rate)])
  {
    assert events[..i + 1] == events[..i] + [events[i]];
    Queue.RunAppend(events[..i], events[i], true);
    ExecutedNext(Queue.Run(events[..i], true), events[i]);
    PrefixSettles(b1, b2, events, i + 1, rate);
    ExecutedSettles(b1, b2, events[..i + 1], rate);
    hide AllSettle, Settles, OrdersOf, Queue.Next, Queue.Run;
  }

  lemma {:induction false} PrefixSettles(b1: seq<string>, b2: seq<string>, events: seq<Queue.Event>, i: nat,
                                         rate: string -> real)
    requires AllSettle(b1, b2, events, rate) && i <= |events|
    ensures AllSettle(b1, b2, events[..i], rate)
  {
    hide Settles, Queue.Wanted, OrdersOf;
  }
}
