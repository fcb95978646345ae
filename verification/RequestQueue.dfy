/** The request queue of `init_network_v4.py`: one thread appends what it hears, another executes and removes. */
module RequestQueue {
  import opened Text

  /** The printed items of a parsed request: addresses and rates in turn. The queue starts with an empty one. */
  type Request = seq<string>

  const Null: Request := []

  predicate Mentions(r: Request, pattern: string) { exists i :: 0 <= i < |r| && Occurs(r[i], pattern) }

  /** The receiving thread's test on what it queues. */
  predicate Heard(r: Request) { Mentions(r, "155.0.") || Mentions(r, "172.16.") }

  /** The executing thread's test on the head of the queue. */
  predicate Wanted(r: Request) { Mentions(r, "155.0.0") || Mentions(r, "172.16.0") }

  /** The list of parameters that goes back with the answer. */
  function Joined(r: Request, n: nat): string
    requires n <= |r|
  {
    if n == 0 then "" else Joined(r, n - 1) + if n != |r| then r[n - 1] + "," else r[n - 1]
  }

  datatype Holder = Nobody | ByCollector | ByExecutor

  /** The receiving thread: waiting, with a request parsed, with the lock, with the list object at hand, appended. */
  datatype Collector = Listening | Parsed(r: Request) | Locked(r: Request) | Loaded(r: Request, list: nat) | Appended

  /** The executing thread, one value for each point between two accesses to shared data. */
  datatype Executor =
    | Checking
    | Guarding
    | Running
    | Replying(failed: bool, i: nat, total: string)
    | Sending(failed: bool, total: string)
    | Acquiring
    | Slicing
    | Assigning(list: nat)
    | Releasing

  datatype Answer = Answer(failed: bool, params: string)

  /** `lists` are all list objects made so far, `cur` the one that `queue_param` names. The last five fields record
      what was heard, removed and executed, whether the script then printed an error, and what was answered. */
  datatype State = State(lists: seq<seq<Request>>, cur: nat, holder: Holder, col: Collector, exe: Executor,
                         heard: seq<Request>, removed: seq<Request>, executed: seq<Request>, outcomes: seq<bool>,
                         answers: seq<Answer>)

  function Queue(s: State): seq<Request> { if s.cur < |s.lists| then s.lists[s.cur] else [] }

  function Start(): State { State([[Null]], 0, Nobody, Listening, Checking, [], [], [], [], []) }

  /** A thread's turn, with what it finds: a message on the socket, or the script's outcome. */
  datatype Event = Collect(message: Request) | Execute(failed: bool)

  /** One turn; a thread that has to wait stays where it is. Without `locking`, nobody waits for the lock. */
  function Next(s: State, e: Event, locking: bool): State {
    match e
    case Collect(message) => CollectorTurn(s, message, locking)
    case Execute(failed) => ExecutorTurn(s, failed, locking)
  }

  function CollectorTurn(s: State, message: Request, locking: bool): State {
    match s.col
    case Listening => if Heard(message) then s.(col := Parsed(message), heard := s.heard + [message]) else s
    case Parsed(r) => if s.holder == Nobody || !locking then s.(holder := ByCollector, col := Locked(r)) else s
    case Locked(r) => s.(col := Loaded(r, s.cur))
    case Loaded(r, list) =>
      if list < |s.lists| then s.(lists := s.lists[list := s.lists[list] + [r]], col := Appended)
      else s
    case Appended => s.(holder := Nobody, col := Listening)
  }

  function ExecutorTurn(s: State, failed: bool, locking: bool): State {
    var q := Queue(s);
    match s.exe
    case Checking => if |q| > 0 then s.(exe := Guarding) else s
    case Guarding => if |q| == 0 then s else if Wanted(q[0]) then s.(exe := Running) else s.(exe := Acquiring)
    case Running =>
      if |q| == 0 then s
      else s.(executed := s.executed + [q[0]], outcomes := s.outcomes + [failed], exe := Replying(failed, 0, ""))
    case Replying(bad, i, total) =>
      if |q| == 0 then s
      else if i < |q[0]| then
        if i + 1 != |q[0]| then s.(exe := Replying(bad, i + 1, total + (q[0][i] + ",")))
        else s.(exe := Replying(bad, i + 1, total + q[0][i]))
      else s.(exe := Sending(bad, total))
    case Sending(bad, total) => s.(answers := s.answers + [Answer(bad, total)], exe := Acquiring)
    case Acquiring => if s.holder == Nobody || !locking then s.(holder := ByExecutor, exe := Slicing) else s
    case Slicing => if |q| == 0 then s else s.(lists := s.lists + [q[1..]], exe := Assigning(|s.lists|))
    case Assigning(list) => s.(cur := list, removed := s.removed + q[..if |q| > 0 then 1 else 0], exe := Releasing)
    case Releasing => s.(holder := Nobody, exe := Checking)
  }

  /** The state after any interleaving of turns. */
  function Run(events: seq<Event>, locking: bool): State {
    if events == [] then Start() else Next(Run(events[..|events| - 1], locking), events[|events| - 1], locking)
  }

  function Only(rs: seq<Request>): seq<Request> {
    if rs == [] then [] else Only(rs[..|rs| - 1]) + if Wanted(rs[|rs| - 1]) then [rs[|rs| - 1]] else []
  }

  lemma {:induction false} OnlyAppend(rs: seq<Request>, r: Request)
    ensures Only(rs + [r]) == Only(rs) + if Wanted(r) then [r] else []
  {
    assert (rs + [r])[..|rs|] == rs;
  }

  lemma {:induction false} OnlyPrefix(rs: seq<Request>, qs: seq<Request>)
    ensures Only(rs) <= Only(rs + qs)
  {
    if qs == [] {
      assert rs + qs == rs;
    } else {
      OnlyPrefix(rs, qs[..|qs| - 1]);
      assert (rs + qs)[..|rs + qs| - 1] == rs + qs[..|qs| - 1];
    }
  }

  /** The item has one of the executing thread's two prefixes at position `j`. */
  predicate AddressAt(item: string, j: nat) {
    (j + 7 <= |item| && item[j..j + 7] == "155.0.0") || (j + 8 <= |item| && item[j..j + 8] == "172.16.0")
  }

  /** Some item of the request has one of the two at some position. */
  ghost predicate AsksFor(r: Request) { exists i: nat, j: nat :: i < |r| && AddressAt(r[i], j) }

  lemma {:induction false} WantedAsks(r: Request)
    ensures Wanted(r) <==> AsksFor(r)
  {
    if Mentions(r, "155.0.0") {
      var i :| 0 <= i < |r| && Occurs(r[i], "155.0.0");
      var j :| 0 <= j <= |r[i]| && OccursAt(r[i], "155.0.0", j);
      assert AddressAt(r[i], j);
    }
    if Mentions(r, "172.16.0") {
      var i :| 0 <= i < |r| && Occurs(r[i], "172.16.0");
      var j :| 0 <= j <= |r[i]| && OccursAt(r[i], "172.16.0", j);
      assert AddressAt(r[i], j);
    }
    forall i: nat, j: nat | i < |r| && AddressAt(r[i], j) ensures Wanted(r) {
      assert OccursAt(r[i], "155.0.0", j) || OccursAt(r[i], "172.16.0", j);
    }
  }

  /** `done` are, in order and once each, exactly the requests of `heard` that ask for a user of the two networks;
      `at` says where in `heard` they are. */
  ghost predicate Picks(heard: seq<Request>, done: seq<Request>, at: seq<nat>) {
    && |at| == |done| && (forall k, l :: 0 <= k < l < |at| ==> at[k] < at[l])
    && (forall k :: 0 <= k < |at| ==> at[k] < |heard| && done[k] == heard[at[k]])
    && forall j: nat :: j < |heard| ==> (AsksFor(heard[j]) <==> j in at)
  }

  ghost predicate ExactlyAsked(heard: seq<Request>, done: seq<Request>) {
    exists at: seq<nat> :: Picks(heard, done, at)
  }

  lemma {:induction false} OnlyPicks(rs: seq<Request>) returns (at: seq<nat>)
    ensures Picks(rs, Only(rs), at)
  {
    at := [];
    if rs != [] {
      var n := |rs| - 1;
      at := OnlyPicks(rs[..n]);
      WantedAsks(rs[n]);
      hide AsksFor, Wanted;
      if Wanted(rs[n]) { at := at + [n]; }
    }
  }

  /** What is heard but not appended yet. */
  function InHand(col: Collector): seq<Request> {
    match col
    case Parsed(r) => [r]
    case Locked(r) => [r]
    case Loaded(r, _) => [r]
    case _ => []
  }

  /** The lock is held by the thread that is inside its critical section. */
  predicate LockOk(s: State) {
    && (s.holder == ByCollector <==> s.col.Locked? || s.col.Loaded? || s.col.Appended?)
    && (s.holder == ByExecutor <==> s.exe.Slicing? || s.exe.Assigning? || s.exe.Releasing?)
  }

  /** List objects: the collector appends to the current one, and the executor's slice is the current one's tail. */
  predicate ListsOk(s: State) {
    && s.cur < |s.lists|
    && (s.col.Loaded? ==> s.col.list == s.cur)
    && (s.exe.Assigning? ==> s.exe.list < |s.lists| && |Queue(s)| > 0 && s.lists[s.exe.list] == Queue(s)[1..])
  }

  /** Between its check and the removal, the executor's head is there and stays. */
  predicate HeadOk(s: State) {
    && (!s.exe.Checking? && !s.exe.Releasing? ==> |Queue(s)| > 0)
    && (s.exe.Running? || s.exe.Replying? || s.exe.Sending? ==> Wanted(Queue(s)[0]))
    && (s.exe.Replying? ==> s.exe.i <= |Queue(s)[0]| && s.exe.total == Joined(Queue(s)[0], s.exe.i))
    && (s.exe.Sending? ==> s.exe.total == Joined(Queue(s)[0], |Queue(s)[0]|))
  }

  /** Nothing is lost or made up: what was heard is what was removed, what is queued and what is in hand. */
  predicate Conserved(s: State) {
    [Null] + s.heard == s.removed + Queue(s) + InHand(s.col)
  }

  /** The requests executed and answered are the wanted ones among those removed, and perhaps the head. */
  predicate WorkOk(s: State) {
    && s.executed == Only(s.removed) + ExecutedHead(s)
    && |s.outcomes| == |s.executed|
    && |s.answers| == |s.executed| - (if s.exe.Replying? || s.exe.Sending? then 1 else 0)
    && (s.exe.Replying? || s.exe.Sending? ==> |s.outcomes| > 0 && s.exe.failed == s.outcomes[|s.answers|])
    && AnswersOk(s)
  }

  /** Each answer tells the outcome of its own request, and lists its parameters. */
  predicate AnswersOk(s: State) {
    && |s.answers| <= |s.executed| == |s.outcomes|
    && forall k :: 0 <= k < |s.answers| ==>
         s.answers[k] == Answer(s.outcomes[k], Joined(s.executed[k], |s.executed[k]|))
  }

  function ExecutedHead(s: State): seq<Request> {
    if !s.exe.Checking? && !s.exe.Guarding? && !s.exe.Running? && !s.exe.Releasing? &&
       |Queue(s)| > 0 && Wanted(Queue(s)[0])
    then [Queue(s)[0]] else []
  }

  predicate Inv(s: State) { LockOk(s) && ListsOk(s) && HeadOk(s) && Conserved(s) && WorkOk(s) }

  lemma {:induction false} CollectorKeeps(s: State, message: Request)
    requires Inv(s)
    ensures Inv(CollectorTurn(s, message, true))
  {
    var t := CollectorTurn(s, message, true);
    hide Heard, Wanted, Only, Joined;
    if s.col.Loaded? { assert Queue(t) == Queue(s) + [s.col.r]; }
    assert Conserved(t) by {
      if s.col.Listening? && t.col.Parsed? {
        assert [Null] + t.heard == ([Null] + s.heard) + [message];
      } else if s.col.Loaded? {
        assert s.removed + Queue(t) + [] == s.removed + Queue(s) + [s.col.r];
      }
    }
  }

  lemma {:induction false} ExecutorConserves(s: State, failed: bool)
    requires Inv(s)
    ensures Conserved(ExecutorTurn(s, failed, true))
  {
    var t := ExecutorTurn(s, failed, true);
    hide Wanted, Joined, Only;
    if s.exe.Assigning? {
      assert Queue(s) == Queue(s)[..1] + Queue(t);
      assert t.removed + Queue(t) == s.removed + Queue(s);
    } else {
      assert Queue(t) == Queue(s) && t.removed == s.removed;
    }
  }

  lemma {:induction false} ExecutorHead(s: State, failed: bool)
    requires Inv(s)
    ensures LockOk(ExecutorTurn(s, failed, true)) && ListsOk(ExecutorTurn(s, failed, true)) &&
            HeadOk(ExecutorTurn(s, failed, true))
  {
    hide Wanted, Joined, Only;
    if s.exe.Replying? { JoinedNext(Queue(s)[0], s.exe.i); }
    if s.exe.Running? { JoinedNext(Queue(s)[0], 0); }
  }

  lemma {:induction false} RemovalTurn(s: State, failed: bool)
    requires ListsOk(s) && s.exe.Assigning?
    ensures var t := ExecutorTurn(s, failed, true);
            t.removed == s.removed + [Queue(s)[0]] && t.exe == Releasing &&
            t.executed == s.executed && t.answers == s.answers && t.outcomes == s.outcomes
  {
    assert Queue(s)[..1] == [Queue(s)[0]];
  }

  lemma {:induction false} RemovalWork(s: State, failed: bool)
    requires ListsOk(s) && HeadOk(s) && WorkOk(s) && s.exe.Assigning?
    ensures WorkOk(ExecutorTurn(s, failed, true))
  {
    RemovalTurn(s, failed);
    OnlyAppend(s.removed, Queue(s)[0]);
    hide Wanted, Joined, Only, ExecutorTurn;
  }

  lemma {:induction false} AnswerWork(s: State, failed: bool)
    requires ListsOk(s) && HeadOk(s) && WorkOk(s) && (s.exe.Sending? || s.exe.Running?)
    ensures WorkOk(ExecutorTurn(s, failed, true))
  {
    hide Wanted, Joined, Only;
    if s.exe.Sending? { assert s.executed[|s.answers|] == Queue(s)[0]; }
  }

  lemma {:induction false} ExecutorWork(s: State, failed: bool)
    requires ListsOk(s) && HeadOk(s) && WorkOk(s)
    ensures WorkOk(ExecutorTurn(s, failed, true))
  {
    hide Wanted, Joined, Only;
    if s.exe.Assigning? {
      RemovalWork(s, failed);
    } else if s.exe.Sending? || s.exe.Running? {
      AnswerWork(s, failed);
    } else {
      var t := ExecutorTurn(s, failed, true);
      assert t.executed == s.executed && t.answers == s.answers && t.removed == s.removed && t.outcomes == s.outcomes;
    }
  }

  lemma {:induction false} ExecutorKeeps(s: State, failed: bool)
    requires Inv(s)
    ensures Inv(ExecutorTurn(s, failed, true))
  {
    ExecutorConserves(s, failed);
    ExecutorHead(s, failed);
    ExecutorWork(s, failed);
  }

  lemma {:induction false} JoinedNext(r: Request, i: nat)
    requires i <= |r|
    ensures i == 0 ==> Joined(r, i) == ""
    ensures i < |r| ==> Joined(r, i + 1) == Joined(r, i) + if i + 1 != |r| then r[i] + "," else r[i]
  {}

  lemma {:induction false} RunKeeps(events: seq<Event>)
    ensures Inv(Run(events, true))
  {
    if events != [] {
      var s := Run(events[..|events| - 1], true);
      RunKeeps(events[..|events| - 1]);
      match events[|events| - 1] {
        case Collect(message) => CollectorKeeps(s, message);
        case Execute(failed) => ExecutorKeeps(s, failed);
      }
    }
  }

  /** Safety of every interleaving: what has been executed is a prefix of the wanted requests in the order heard, each
      once, and each answer carries the parameters of its own request. */
  lemma {:induction false} ExecutedInOrder(events: seq<Event>)
    ensures var s := Run(events, true);
            && s.executed <= Only(s.heard) && (exists n: nat :: AskedUpTo(s.heard, n, s.executed))
            && |s.executed| - 1 <= |s.answers| && AnswersOk(s)
  {
    RunKeeps(events);
    ExecutedPrefix(Run(events, true));
    var n := OnlyCut(Run(events, true).heard, Run(events, true).executed);
    hide Run, Only, Joined;
  }

  /** `done` are exactly the requests that ask for a user among the first `n`. */
  ghost predicate AskedUpTo(heard: seq<Request>, n: nat, done: seq<Request>) {
    n <= |heard| && ExactlyAsked(heard[..n], done)
  }

  lemma {:induction false} OnlyCut(rs: seq<Request>, done: seq<Request>) returns (n: nat)
    requires done <= Only(rs)
    ensures AskedUpTo(rs, n, done)
  {
    hide Picks, Wanted;
    if done == Only(rs) {
      n := |rs|;
      assert rs[..n] == rs;
      var at := OnlyPicks(rs);
    } else {
      n := OnlyCut(rs[..|rs| - 1], done);
      assert rs[..|rs| - 1][..n] == rs[..n];
    }
  }

  lemma {:induction false} ExecutedPrefix(s: State)
    requires s.cur < |s.lists| && Conserved(s) && s.executed == Only(s.removed) + ExecutedHead(s)
    ensures s.executed <= Only(s.heard)
  {
    var q, h := Queue(s), InHand(s.col);
    OnlyAfterNull(s.heard);
    QueuePrefix(s.removed, q, h);
    assert ExecutedHead(s) == [] || (q != [] && Wanted(q[0]) && ExecutedHead(s) == [q[0]]);
    hide Only, ExecutedHead, Queue, InHand, Wanted;
  }

  lemma {:induction false} QueuePrefix(removed: seq<Request>, q: seq<Request>, h: seq<Request>)
    ensures Only(removed) <= Only(removed + q + h)
    ensures q != [] && Wanted(q[0]) ==> Only(removed) + [q[0]] <= Only(removed + q + h)
  {
    OnlyPrefix(removed, q + h);
    assert removed + (q + h) == removed + q + h;
    if q != [] && Wanted(q[0]) {
      OnlyAppend(removed, q[0]);
      hide Only;
      OnlyPrefix(removed + [q[0]], q[1..] + h);
      assert removed + [q[0]] + (q[1..] + h) == removed + q + h;
    }
  }

  /** The initial empty entry is never executed. */
  lemma {:induction false} OnlyAfterNull(rs: seq<Request>)
    ensures Only([Null] + rs) == Only(rs)
  {
    if rs == [] {
      assert [Null] + rs == [Null] && [Null][..0] == [];
    } else {
      OnlyAfterNull(rs[..|rs| - 1]);
      assert ([Null] + rs)[..|rs|] == [Null] + rs[..|rs| - 1];
    }
  }

  /** When the queue is empty and nothing is in hand, every wanted request heard has been executed and answered. */
  lemma {:induction false} NoneLost(events: seq<Event>)
    requires var s := Run(events, true); Queue(s) == [] && InHand(s.col) == []
    ensures var s := Run(events, true);
            ExactlyAsked(s.heard, s.executed) && |s.answers| == |s.executed| && AnswersOk(s)
  {
    RunKeeps(events);
    AllDone(Run(events, true));
  }

  lemma {:induction false} RunAppend(events: seq<Event>, e: Event, locking: bool)
    ensures Run(events + [e], locking) == Next(Run(events, locking), e, locking)
  {
    hide Next;
    assert (events + [e])[..|events|] == events;
  }

  function Phase(exe: Executor): nat {
    match exe
    case Releasing => 8
    case Checking => 7
    case Guarding => 6
    case Running => 5
    case Replying(_, _, _) => 4
    case Sending(_, _) => 3
    case Acquiring => 2
    case Slicing => 1
    case Assigning(_) => 0
  }

  function ItemsLeft(s: State): nat {
    if s.exe.Replying? && |Queue(s)| > 0 && s.exe.i <= |Queue(s)[0]| then |Queue(s)[0]| - s.exe.i else 0
  }

  function CollectorPhase(col: Collector): nat {
    match col
    case Listening => 0
    case Parsed(_) => 4
    case Locked(_) => 3
    case Loaded(_, _) => 2
    case Appended => 1
  }

  predicate Finished(s: State) { Queue(s) == [] && s.exe.Checking? && s.col.Listening? }

  /** The turn that makes progress: a thread inside its critical section first, then the collector, then the
      executor. */
  function Choice(s: State): Event {
    if s.holder == ByExecutor then Execute(false)
    else if !s.col.Listening? then Collect([])
    else Execute(false)
  }

  /** No deadlock: in every reachable state that is not finished, some turn brings the end nearer. */
  lemma {:induction false} Progress(s: State)
    requires Inv(s) && !Finished(s)
    ensures var t := Next(s, Choice(s), true); t.heard == s.heard && Nearer(t, s)
  {
    hide Heard, Wanted, Only, Joined;
  }

  /** Going on from a state. */
  function After(s: State, events: seq<Event>): State
    decreases |events|
  {
    if events == [] then s else After(Next(s, events[0], true), events[1..])
  }

  lemma {:induction false} RunAfter(events: seq<Event>, more: seq<Event>)
    ensures Run(events + more, true) == After(Run(events, true), more)
    decreases |more|
  {
    hide Next;
    if more == [] {
      assert events + more == events;
    } else {
      RunAppend(events, more[0], true);
      RunAfter(events + [more[0]], more[1..]);
      assert events + [more[0]] + more[1..] == events + more;
    }
  }

  lemma {:induction false} InvNext(s: State, e: Event)
    requires Inv(s)
    ensures Inv(Next(s, e, true))
  {
    hide Inv;
    match e {
      case Collect(message) => CollectorKeeps(s, message);
      case Execute(failed) => ExecutorKeeps(s, failed);
    }
  }

  lemma {:induction false} Drain(s: State) returns (more: seq<Event>)
    requires Inv(s)
    ensures Inv(After(s, more)) && Finished(After(s, more)) && After(s, more).heard == s.heard
    decreases CollectorPhase(s.col), |Queue(s)|, Phase(s.exe), ItemsLeft(s)
  {
    hide Inv, Finished, Next, Choice, Queue, ItemsLeft, CollectorPhase, Phase;
    if Finished(s) {
      more := [];
    } else {
      Progress(s);
      InvNext(s, Choice(s));
      var rest := Drain(Next(s, Choice(s), true));
      more := [Choice(s)] + rest;
      assert more[1..] == rest;
    }
  }

  /** From every reachable state, the threads can go on to answer everything that was heard. */
  lemma {:induction false} EverythingAnswered(events: seq<Event>) returns (more: seq<Event>)
    ensures var s := Run(events + more, true);
            s.heard == Run(events, true).heard && ExactlyAsked(s.heard, s.executed) &&
            |s.answers| == |s.executed| && AnswersOk(s)
  {
    RunKeeps(events);
    more := Drain(Run(events, true));
    RunAfter(events, more);
    NoneLost(events + more);
  }

  /** Whose turn it is, for ever. */
  type Schedule = nat -> Event

  /** Both threads get turns again and again. */
  ghost predicate Fair(sch: Schedule) {
    forall n: nat, executor: bool :: TurnFrom(sch, n, executor)
  }

  ghost predicate TurnFrom(sch: Schedule, n: nat, executor: bool) {
    exists k: nat :: n <= k && sch(k).Execute? == executor
  }

  /** No further request comes in. */
  ghost predicate Quiet(sch: Schedule) {
    forall k: nat :: sch(k).Collect? ==> !Heard(sch(k).message)
  }

  /** The state after `m` turns from the `n`th on. */
  function Going(s: State, sch: Schedule, n: nat, m: nat): State {
    if m == 0 then s else Next(Going(s, sch, n, m - 1), sch(n + m - 1), true)
  }

  lemma {:induction false} GoingShift(s: State, sch: Schedule, n: nat, m: nat)
    ensures Going(s, sch, n, m + 1) == Going(Next(s, sch(n), true), sch, n + 1, m)
  {
    hide Next;
    if m > 0 { GoingShift(s, sch, n, m - 1); }
  }

  lemma {:induction false} GoingOn(s: State, sch: Schedule, n: nat, i: nat, m: nat)
    ensures Going(s, sch, n, i + m) == Going(Going(s, sch, n, i), sch, n + i, m)
  {
    hide Next;
    if m > 0 { GoingOn(s, sch, n, i, m - 1); }
  }

  /** The state `t` is nearer to the end than `s`. */
  predicate Nearer(t: State, s: State) {
    var a, b, n, k := CollectorPhase(s.col), CollectorPhase(t.col), |Queue(s)|, |Queue(t)|;
    b < a || (b == a && (k < n || (k == n &&
      (Phase(t.exe) < Phase(s.exe) || (Phase(t.exe) == Phase(s.exe) && ItemsLeft(t) < ItemsLeft(s))))))
  }

  /** Without new requests, a turn does nothing or brings the end nearer. */
  lemma {:induction false} QuietTurn(s: State, e: Event)
    requires Inv(s) && (e.Collect? ==> !Heard(e.message))
    ensures var t := Next(s, e, true); Inv(t) && t.heard == s.heard && (t == s || Nearer(t, s))
  {
    hide Heard, Wanted, Only, Joined, WorkOk, Conserved;
    InvNext(s, e);
  }

  /** In a state that is not finished, the next turn of one of the two threads brings the end nearer. */
  lemma {:induction false} NextTurn(s: State, e: Event)
    requires Inv(s) && !Finished(s) && e.Execute? == Choice(s).Execute?
    ensures Nearer(Next(s, e, true), s)
  {
    hide Heard, Wanted, Only, Joined;
  }

  lemma {:induction false} FirstChange(s: State, sch: Schedule, n: nat, k: nat) returns (m: nat)
    requires Inv(s) && !Finished(s) && Quiet(sch) && n <= k && sch(k).Execute? == Choice(s).Execute?
    ensures var t := Going(s, sch, n, m); Inv(t) && t.heard == s.heard && Nearer(t, s)
    decreases k - n
  {
    hide Inv, Finished, Nearer, Next, Heard, Choice;
    QuietTurn(s, sch(n));
    var t := Next(s, sch(n), true);
    GoingShift(s, sch, n, 0);
    if t != s {
      m := 1;
    } else {
      if n == k { NextTurn(s, sch(n)); NotNearer(s); assert false; }
      var i := FirstChange(s, sch, n + 1, k);
      GoingShift(s, sch, n, i);
      m := i + 1;
    }
  }

  lemma {:induction false} NotNearer(s: State)
    ensures !Nearer(s, s)
  {}

  lemma {:induction false} FairEnd(s: State, sch: Schedule, n: nat) returns (m: nat)
    requires Inv(s) && Fair(sch) && Quiet(sch)
    ensures var t := Going(s, sch, n, m); Inv(t) && t.heard == s.heard && Finished(t)
    decreases CollectorPhase(s.col), |Queue(s)|, Phase(s.exe), ItemsLeft(s)
  {
    hide Inv, Finished, Next, Heard, Choice, Quiet;
    if Finished(s) {
      m := 0;
    } else {
      assert TurnFrom(sch, n, Choice(s).Execute?);
      var k: nat :| n <= k && sch(k).Execute? == Choice(s).Execute?;
      var i := FirstChange(s, sch, n, k);
      var j := FairEnd(Going(s, sch, n, i), sch, n + i);
      GoingOn(s, sch, n, i, j);
      m := i + j;
    }
  }

  /** Under every schedule that gives both threads turns again and again, once no more requests come in, everything
      heard gets executed and answered. */
  lemma {:induction false} FairDrains(events: seq<Event>, sch: Schedule) returns (m: nat)
    requires Fair(sch) && Quiet(sch)
    ensures var s, t := Run(events, true), Going(Run(events, true), sch, 0, m);
            Queue(t) == [] && t.heard == s.heard && ExactlyAsked(s.heard, t.executed) &&
            |t.answers| == |t.executed| && AnswersOk(t)
  {
    RunKeeps(events);
    m := FairEnd(Run(events, true), sch, 0);
    AllDone(Going(Run(events, true), sch, 0, m));
  }

  lemma {:induction false} AllDone(s: State)
    requires Inv(s) && Queue(s) == [] && InHand(s.col) == []
    ensures ExactlyAsked(s.heard, s.executed) && |s.answers| == |s.executed| && AnswersOk(s)
  {
    OnlyAfterNull(s.heard);
    assert s.removed + Queue(s) + InHand(s.col) == s.removed;
    assert ExecutedHead(s) == [] && s.removed == [Null] + s.heard;
    var at := OnlyPicks(s.heard);
    assert s.executed == Only(s.heard);
    hide Picks, Only;
  }

  /** The executor has sliced the old list while the collector has a request in hand. */
  function Racing(r: Request): State {
    State([[Null], []], 0, ByExecutor, Parsed(r), Assigning(1), [r], [], [], [], [])
  }

  lemma {:induction false} RaceOpens(r: Request)
    requires Heard(r)
    ensures var e, c := Execute(false), Collect(r);
            Next(Next(Next(Next(Next(Start(), e, false), e, false), c, false), e, false), e, false) == Racing(r)
  {
    var e, c := Execute(false), Collect(r);
    var q: seq<Request> := [Null];
    assert q[1..] == [] && !Wanted(Null);
    var s1 := Next(Next(Next(Start(), e, false), e, false), c, false);
    assert s1.exe == Acquiring && s1.col == Parsed(r) && s1.lists == [q];
    assert Next(Next(s1, e, false), e, false).lists == [q] + [q[1..]];
  }

  lemma {:induction false} RaceCloses(r: Request)
    ensures var e, c := Execute(false), Collect(r);
            var s := Next(Next(Next(Next(Next(Next(Racing(r), c, false), c, false), c, false), c, false),
                                e, false), e, false);
            s.heard == [r] && s.exe.Checking? && s.col.Listening? && Queue(s) == [] && s.executed == []
  {
    var e, c := Execute(false), Collect(r);
    var s := Next(Next(Next(Racing(r), c, false), c, false), c, false);
    var q: seq<Request> := [Null];
    assert s.lists == [q, []][0 := q + [r]] && s.col == Appended;
  }

  /** Without the lock any request can be lost: it is appended between the executor's slice and its assignment. */
  lemma {:induction false} LostWithoutLock(r: Request) returns (events: seq<Event>)
    requires Heard(r)
    ensures var s := Run(events, false);
            s.heard == [r] && s.exe.Checking? && s.col.Listening? && Queue(s) == [] && s.executed == []
  {
    var e, c := Execute(false), Collect(r);
    RaceOpens(r);
    RaceCloses(r);
    hide Next;
    events := [];
    events := More(events, e);
    events := More(events, e);
    events := More(events, c);
    events := More(events, e);
    events := More(events, e);
    events := More(events, c);
    events := More(events, c);
    events := More(events, c);
    events := More(events, c);
    events := More(events, e);
    events := More(events, e);
  }

  lemma {:induction false} More(events: seq<Event>, e: Event) returns (longer: seq<Event>)
    ensures Run(longer, false) == Next(Run(events, false), e, false)
  {
    longer := events + [e];
    RunAppend(events, e, false);
  }

  /** What the executor wants, the collector hears; not the other way round: such a request is dropped unanswered. */
  lemma {:induction false} WantedIsHeard(r: Request)
    ensures Wanted(r) ==> Heard(r)
  {
    if Mentions(r, "155.0.0") { MentionsPart(r, "155.0.0", "155.0."); }
    if Mentions(r, "172.16.0") { MentionsPart(r, "172.16.0", "172.16."); }
  }

  lemma {:induction false} MentionsPart(r: Request, whole: string, part: string)
    requires Mentions(r, whole) && part <= whole
    ensures Mentions(r, part)
  {
    var k :| 0 <= k < |r| && Occurs(r[k], whole);
    var i :| 0 <= i <= |r[k]| && OccursAt(r[k], whole, i);
    assert r[k][i..i + |part|] == whole[..|part|];
    assert OccursAt(r[k], part, i);
  }

  /** What the receiving thread queues: messages that arrive while it listens and have "155.0." or "172.16." at some
      position of an item. */
  lemma {:induction false} HearsExactly(s: State, message: Request)
    ensures var t := Next(s, Collect(message), true);
            if s.col.Listening? && (exists i: nat, j: nat :: i < |message| && NetworkAt(message[i], j))
            then t.heard == s.heard + [message] && InHand(t.col) == [message]
            else t.heard == s.heard
  {
    if Mentions(message, "155.0.") {
      var i :| 0 <= i < |message| && Occurs(message[i], "155.0.");
      var j :| 0 <= j <= |message[i]| && OccursAt(message[i], "155.0.", j);
      assert NetworkAt(message[i], j);
    }
    if Mentions(message, "172.16.") {
      var i :| 0 <= i < |message| && Occurs(message[i], "172.16.");
      var j :| 0 <= j <= |message[i]| && OccursAt(message[i], "172.16.", j);
      assert NetworkAt(message[i], j);
    }
    forall i: nat, j: nat | i < |message| && NetworkAt(message[i], j) ensures Heard(message) {
      assert OccursAt(message[i], "155.0.", j) || OccursAt(message[i], "172.16.", j);
    }
  }

  predicate NetworkAt(item: string, j: nat) {
    (j + 6 <= |item| && item[j..j + 6] == "155.0.") || (j + 7 <= |item| && item[j..j + 7] == "172.16.")
  }

  /** A text taken apart at its commas. */
  function Fields(s: string): (f: seq<string>)
    ensures f != []
  {
    if s == "" then [""]
    else
      var f, c := Fields(s[..|s| - 1]), s[|s| - 1];
      if c == ',' then f + [""] else f[|f| - 1 := f[|f| - 1] + [c]]
  }

  lemma {:induction false} FieldsAppend(s: string, item: string)
    requires ',' !in item
    ensures var f := Fields(s); Fields(s + item) == f[|f| - 1 := f[|f| - 1] + item]
  {
    var f := Fields(s);
    if item == "" {
      assert s + item == s && f[|f| - 1] + item == f[|f| - 1];
    } else {
      var n := |item| - 1;
      FieldsAppend(s, item[..n]);
      assert (s + item)[..|s + item| - 1] == s + item[..n];
      assert item == item[..n] + [item[n]];
      assert f[|f| - 1] + item == f[|f| - 1] + item[..n] + [item[n]];
    }
  }

  lemma {:induction false} FieldsEmpty()
    ensures Fields("") == [""]
  {}

  lemma {:induction false} FieldsComma(s: string)
    ensures Fields(s + ",") == Fields(s) + [""]
  {
    assert (s + ",")[..|s|] == s;
  }

  /** An answer's parameters, taken apart at the commas, are the items of its request, as these hold no commas. */
  lemma {:induction false} FieldsJoined(r: Request, n: nat)
    requires n <= |r| && forall i :: 0 <= i < |r| ==> ',' !in r[i]
    ensures Fields(Joined(r, n)) == if n == 0 then [""] else r[..n] + if n == |r| then [] else [""]
  {
    hide Fields;
    FieldsEmpty();
    if n > 0 {
      var before, item := Joined(r, n - 1), r[n - 1];
      FieldsJoined(r, n - 1);
      FieldsAppend(before, item);
      FieldsComma(before + item);
      assert before + (item + ",") == before + item + ",";
      assert "" + item == item && r[..n] == r[..n - 1] + [item];
      assert Fields(before) == r[..n - 1] + [""];
    }
  }

  lemma {:induction false} HeardNotWanted()
    ensures Heard(["155.0.1.2", "10.0"]) && !Wanted(["155.0.1.2", "10.0"])
  {
    var r: Request := ["155.0.1.2", "10.0"];
    assert OccursAt(r[0], "155.0.", 0) && Occurs(r[0], "155.0.");
    forall k | 0 <= k < |r| ensures !Occurs(r[k], "155.0.0") && !Occurs(r[k], "172.16.0") {
      forall i | 0 <= i <= |r[k]| ensures !OccursAt(r[k], "155.0.0", i) && !OccursAt(r[k], "172.16.0", i) {
        if OccursAt(r[k], "155.0.0", i) { Occurrence(r[k], "155.0.0", i, 0); Occurrence(r[k], "155.0.0", i, 6);
          assert false; }
        if OccursAt(r[k], "172.16.0", i) { Occurrence(r[k], "172.16.0", i, 1); assert false; }
      }
    }
  }
}
