/** The statistics of one search node and of the edge to a child, as values: what every step keeps. */
module SearchStats {
  import opened Grid
  import opened Board
  import opened Moves
  import opened Rules
  import opened Capture
  import opened Symmetry

  /** The network's answer for a board: a prior for each cell and for the pass, and a winning chance. */
  datatype Prediction = Prediction(prior: seq<real>, win: real) {
    predicate InRange() {
      |prior| == 362 && (forall i :: 0 <= i < 362 ==> prior[i] >= 0.0) && 0.0 <= win <= 1.0
    }

    predicate Ok() { InRange() && prior[361] > 0.0 }
  }

  /** A node without its links: `has[i]` says whether edge `i` has a child, and `kos` are the boards
      that its own moves have been checked against. */
  datatype Stats = Stats(board: Position, kos: set<Option<Position>>, result: real, has: seq<bool>, prior: seq<real>,
                         visits: seq<nat>, value: seq<real>, mean: seq<real>, total: nat, done: bool, pass: bool)

  /** The board that edge `i` leads to, seen by the opponent; edge 361 is the pass. */
  ghost function After(b: Position, i: int): Position
    requires 0 <= i < 362
  {
    if i == 361 then Flipped(b) else Flipped(Moved(b, 1, i))
  }

  lemma {:induction false} AfterFacts(b: Position, i: int)
    requires 0 <= i < 362 && NoDouble(b) && Uniform(b) && (i < 361 ==> Occupied(b, i) == 0)
    ensures NoDouble(After(b, i)) && Uniform(After(b, i))
  {
    if i < 361 {
      MoveExact(b, 1, i);
      FlipFacts(Moved(b, 1, i));
    } else {
      FlipFacts(b);
    }
  }

  /** Two ko boards that forbid the same positions. */
  ghost predicate SameKo(k: Option<Position>, l: Option<Position>) {
    (k.None? && l.None?) || (k.Some? && l.Some? && Absolute(k.value) == Absolute(l.value))
  }

  lemma {:induction false} SameKoSameLegal(b: Position, k: Option<Position>, l: Option<Position>, p: int, i: int)
    requires Cell(i) && SameKo(k, l)
    ensures Legal(b, k, p, i) <==> Legal(b, l, p, i)
  {
    if k.Some? {
      KoIsAbsolute(Moved(b, p, i), k.value);
      KoIsAbsolute(Moved(b, p, i), l.value);
    }
  }

  /** Visits over the edges that have a child. */
  ghost function VisitSum(has: seq<bool>, visits: seq<nat>, n: nat): nat
    requires n <= |has| && n <= |visits|
  {
    if n == 0 then 0 else VisitSum(has, visits, n - 1) + if has[n - 1] then visits[n - 1] else 0
  }

  /** Values over the edges that have a child. */
  ghost function ValueSum(has: seq<bool>, values: seq<real>, n: nat): real
    requires n <= |has| && n <= |values|
  {
    if n == 0 then 0.0 else ValueSum(has, values, n - 1) + if has[n - 1] then values[n - 1] else 0.0
  }

  lemma {:induction false} VisitSumChange(k: seq<bool>, v: seq<nat>, k': seq<bool>, v': seq<nat>, i: nat, n: nat)
    requires |k| == |v| == |k'| == |v'| && n <= |k| && i < |k|
    requires forall j :: 0 <= j < |k| && j != i ==> k'[j] == k[j] && v'[j] == v[j]
    ensures VisitSum(k', v', n) + (if i < n && k[i] then v[i] else 0)
         == VisitSum(k, v, n) + (if i < n && k'[i] then v'[i] else 0)
  {
    if n > 0 { VisitSumChange(k, v, k', v', i, n - 1); }
  }

  lemma {:induction false} ValueSumChange(k: seq<bool>, v: seq<real>, k': seq<bool>, v': seq<real>, i: nat, n: nat)
    requires |k| == |v| == |k'| == |v'| && n <= |k| && i < |k|
    requires forall j :: 0 <= j < |k| && j != i ==> k'[j] == k[j] && v'[j] == v[j]
    ensures ValueSum(k', v', n) + (if i < n && k[i] then v[i] else 0.0)
         == ValueSum(k, v, n) + (if i < n && k'[i] then v'[i] else 0.0)
  {
    if n > 0 { ValueSumChange(k, v, k', v', i, n - 1); }
  }

  lemma {:induction false} NoKidsNoSum(k: seq<bool>, v: seq<nat>, w: seq<real>, n: nat)
    requires n <= |k| && n <= |v| && n <= |w| && forall j :: 0 <= j < n ==> !k[j]
    ensures VisitSum(k, v, n) == 0 && ValueSum(k, w, n) == 0.0
  {
    if n > 0 { NoKidsNoSum(k, v, w, n - 1); }
  }

  /** Values bounded by visits on every edge stay bounded in total. */
  lemma {:induction false} SumBound(k: seq<bool>, v: seq<nat>, w: seq<real>, n: nat)
    requires n <= |k| && n <= |v| && n <= |w|
    requires forall j :: 0 <= j < n && k[j] ==> -(v[j] as real) <= w[j] <= v[j] as real
    ensures -(VisitSum(k, v, n) as real) <= ValueSum(k, w, n) <= VisitSum(k, v, n) as real
  {
    if n > 0 { SumBound(k, v, w, n - 1); }
  }

  lemma {:induction false} MeanBound(v: real, n: nat)
    requires n > 0 && -(n as real) <= v <= n as real
    ensures -1.0 <= v / n as real <= 1.0
  {
    var d := n as real;
    var q := v / d;
    assert q * d == v;
    TimesMore(q - 1.0, d);
    TimesMore(-1.0 - q, d);
    assert (q - 1.0) * d == v - d && (-1.0 - q) * d == -d - v;
  }

  lemma {:induction false} TimesMore(a: real, d: real)
    requires d > 0.0
    ensures a > 0.0 ==> a * d > 0.0
  {}

  /** The selection score of one edge. */
  function Score(mean: real, prior: real, cpuct: real, explore: real, visits: nat): real {
    mean + cpuct * prior * explore / (1.0 + visits as real)
  }

  lemma {:induction false} ScoreBound(mean: real, prior: real, cpuct: real, explore: real, visits: nat)
    requires cpuct > 0.0 && explore > 0.0 && prior >= 0.0
    ensures Score(mean, prior, cpuct, explore, visits) >= mean
    ensures prior > 0.0 ==> Score(mean, prior, cpuct, explore, visits) > mean
    ensures prior == 0.0 ==> Score(mean, prior, cpuct, explore, visits) == mean
  {
    var a := cpuct * prior * explore;
    assert cpuct * prior >= 0.0 && (prior > 0.0 ==> cpuct * prior > 0.0);
    assert a >= 0.0 && (prior > 0.0 ==> a > 0.0);
    Quotient(a, 1.0 + visits as real);
  }

  /** The exploration part of a score falls with the visits: times one more than the visits, it is the product of the
      three weights. */
  lemma {:induction false} ScoreExact(mean: real, prior: real, cpuct: real, explore: real, visits: nat)
    ensures (Score(mean, prior, cpuct, explore, visits) - mean) * (1.0 + visits as real) == cpuct * prior * explore
  {}

  lemma {:induction false} ScoreFalls(mean: real, prior: real, cpuct: real, explore: real, visits: nat, more: nat)
    requires cpuct > 0.0 && explore > 0.0 && prior > 0.0 && visits < more
    ensures Score(mean, prior, cpuct, explore, visits) > Score(mean, prior, cpuct, explore, more)
  {
    assert cpuct * prior > 0.0;
    var a := cpuct * prior * explore;
    assert a > 0.0;
    SmallerShare(a, 1.0 + visits as real, 1.0 + more as real);
  }

  lemma {:induction false} SmallerShare(a: real, d: real, e: real)
    requires a > 0.0 && 0.0 < d < e
    ensures a / d > a / e
  {
    var q, s := a / d, a / e;
    Quotient(a, e);
    assert q * d == a && s * e == a;
    assert (q - s) * d == s * (e - d) && s * (e - d) > 0.0;
    NotMore(q - s, d);
  }

  lemma {:induction false} NotMore(a: real, d: real)
    requires d > 0.0
    ensures a <= 0.0 ==> a * d <= 0.0
  {}

  lemma {:induction false} Quotient(a: real, d: real)
    requires a >= 0.0 && d > 0.0
    ensures a / d >= 0.0 && (a > 0.0 ==> a / d > 0.0) && (a == 0.0 ==> a / d == 0.0)
  {}

  predicate Sized(s: Stats) {
    |s.has| == |s.prior| == |s.visits| == |s.value| == |s.mean| == 362
  }

  ghost predicate Accepted(s: Stats, i: int)
    requires Cell(i)
  {
    exists k :: k in s.kos && Legal(s.board, k, 1, i)
  }

  ghost predicate Refused(s: Stats, i: int)
    requires Cell(i)
  {
    exists k :: k in s.kos && !Legal(s.board, k, 1, i)
  }

  /** When the boards to avoid all show one position, accepted means legal and refused means illegal. */
  lemma {:induction false} OneKo(s: Stats, ko: Option<Position>, i: int)
    requires Cell(i) && s.kos != {} && forall k :: k in s.kos ==> SameKo(k, ko)
    ensures Accepted(s, i) <==> Legal(s.board, ko, 1, i)
    ensures Refused(s, i) <==> !Legal(s.board, ko, 1, i)
  {
    forall k | k in s.kos ensures Legal(s.board, k, 1, i) <==> Legal(s.board, ko, 1, i) {
      SameKoSameLegal(s.board, k, ko, 1, i);
    }
    if forall k :: k !in s.kos { assert false; }
  }

  /** Edge `i` has been ruled out: an illegal move without a child. Occupied points are ruled out
      from the start; any other illegal move once it has been tried. */
  ghost predicate Dead(s: Stats, i: int)
    requires Sized(s) && 0 <= i < 361
  {
    !s.has[i] && s.value[i] == -1.0 && s.mean[i] == -1.0 && s.prior[i] == 0.0 && Refused(s, i)
  }

  ghost predicate Untried(s: Stats, i: int)
    requires Sized(s) && 0 <= i < 362
  {
    !s.has[i] && s.visits[i] == 0 && s.value[i] == 0.0 && (i < 361 ==> Occupied(s.board, i) == 0)
  }

  ghost function Live(s: Stats): set<int>
    requires Sized(s)
  {
    set i | 0 <= i < 362 && !(i < 361 && Dead(s, i))
  }

  /** What holds of every node. */
  ghost predicate NodeOk(s: Stats) {
    && Sized(s)
    && NoDouble(s.board) && Uniform(s.board) && s.kos != {}
    && -1.0 <= s.result <= 1.0
    && (forall i :: 0 <= i < 362 ==> s.prior[i] >= 0.0) && s.prior[361] > 0.0
    && (forall i :: 0 <= i < 362 ==> -1.0 <= s.mean[i] <= 1.0)
    && s.total == 1 + VisitSum(s.has, s.visits, 362)
    && (s.done ==> forall i :: 0 <= i < 362 ==> !s.has[i])
    && (forall i :: 0 <= i < 361 && !s.has[i] ==> Untried(s, i) || Dead(s, i))
    && (!s.has[361] ==> Untried(s, 361))
    && (forall i :: 0 <= i < 361 && Occupied(s.board, i) != 0 ==> !s.has[i] && s.visits[i] == 0)
  }

  /** What holds of an edge `i` with a child `c`: a pass or a legal move, and the child's statistics mirrored. */
  ghost predicate EdgeOk(s: Stats, i: int, c: Stats)
    requires Sized(s) && 0 <= i < 362
  {
    && NodeOk(c)
    && c.board == After(s.board, i) && c.kos == {Some(s.board)}
    && (i < 361 ==> Accepted(s, i))
    && c.pass == (i == 361) && c.done == (i == 361 && s.pass)
    && s.visits[i] >= 1
    && (if c.done then s.value[i] == -(s.visits[i] as real * c.result)
        else s.visits[i] == c.total && s.value[i] == -(c.result + ValueSum(c.has, c.value, 362)))
    && s.mean[i] == s.value[i] / s.visits[i] as real
    && -(s.visits[i] as real) <= s.value[i] <= s.visits[i] as real
  }

  /** `s'` is `s` but for its counters and edge `i`. */
  predicate SameBut(s: Stats, s': Stats, i: int)
    requires Sized(s) && Sized(s')
  {
    && s'.board == s.board && s'.kos == s.kos && s'.result == s.result && s'.done == s.done && s'.pass == s.pass
    && (forall j :: 0 <= j < 362 && j != i ==>
         s'.has[j] == s.has[j] && s'.prior[j] == s.prior[j] && s'.visits[j] == s.visits[j] &&
         s'.value[j] == s.value[j] && s'.mean[j] == s.mean[j])
  }

  lemma {:induction false} EdgeKept(s: Stats, s': Stats, i: int, j: int, c: Stats)
    requires Sized(s) && Sized(s') && SameBut(s, s', i) && 0 <= j < 362 && j != i
    requires EdgeOk(s, j, c)
    ensures EdgeOk(s', j, c)
  {}

  /** Checking against one more board undoes nothing. */
  lemma {:induction false} MoreKos(s: Stats, t: Stats)
    requires NodeOk(s) && s.kos <= t.kos && t == s.(kos := t.kos)
    ensures NodeOk(t) && forall i, c :: 0 <= i < 362 && EdgeOk(s, i, c) ==> EdgeOk(t, i, c)
  {
    forall i | 0 <= i < 361 ensures Accepted(s, i) ==> Accepted(t, i)
                            ensures Refused(s, i) ==> Refused(t, i) {}
  }

  function StatsOf(board: Position, ko: Option<Position>, pred: Prediction): Stats
    requires pred.InRange()
  {
    var val := 2.0 * pred.win - 1.0;
    Stats(board, {ko}, val, seq(362, _ => false),
          seq(362, i requires 0 <= i < 362 => if i < 361 && Occupied(board, i) != 0 then 0.0 else pred.prior[i]),
          seq(362, _ => 0),
          seq(362, i requires 0 <= i < 362 => if i < 361 && Occupied(board, i) != 0 then -1.0 else 0.0),
          seq(362, i requires 0 <= i < 362 => if i < 361 && Occupied(board, i) != 0 then -1.0 else val),
          1, false, false)
  }

  /** What a fresh node holds: the winning chance from 0 to 1 as a result from -1 to 1, the network's priors on the
      empty points and the pass, and nothing but a loss on the occupied ones. */
  lemma {:induction false} FreshNode(board: Position, ko: Option<Position>, pred: Prediction)
    requires pred.InRange()
    ensures var s := StatsOf(board, ko, pred);
            && s.board == board && s.kos == {ko} && s.total == 1 && !s.done && !s.pass
            && (s.result + 1.0) / 2.0 == pred.win
            && forall i :: 0 <= i < 362 ==>
                 && !s.has[i] && s.visits[i] == 0
                 && if i < 361 && Occupied(board, i) != 0
                    then s.prior[i] == 0.0 && s.value[i] == s.mean[i] == -1.0
                    else s.prior[i] == pred.prior[i] && s.value[i] == 0.0 && s.mean[i] == s.result
  {}

  /** A pass leaves the stones where they are, seen from the other side; after a move the other side sees what the move
      has left. */
  lemma {:induction false} AfterExact(b: Position, i: int)
    requires 0 <= i < 362 && NoDouble(b) && (i < 361 ==> Occupied(b, i) == 0)
    ensures forall j :: 0 <= j < 361 ==>
              Occupied(After(b, i), j) == -(if i == 361 then Occupied(b, j) else AfterMove(b, 1, i, j))
    ensures forall j :: 722 <= j < 1083 ==> After(b, i)[j] == 1 - b[j]
  {
    if i < 361 { MoveExact(b, 1, i); }
  }

  lemma {:induction false} ExpandedOk(board: Position, ko: Option<Position>, pred: Prediction)
    requires NoDouble(board) && Uniform(board) && pred.Ok()
    ensures NodeOk(StatsOf(board, ko, pred))
  {
    var s := StatsOf(board, ko, pred);
    assert ko in s.kos;
    NoKidsNoSum(s.has, s.visits, s.value, 362);
  }

  /** The visit that every pass through `select_mcts` records before it knows the outcome. */
  function Bumped(s: Stats, i: int): Stats
    requires Sized(s) && 0 <= i < 362
  {
    s.(visits := s.visits[i := s.visits[i] + 1], total := s.total + 1)
  }

  /** The state after an illegal selection: the total is taken back, the visit is not. */
  function RuledOut(s: Stats, i: int): Stats
    requires Sized(s) && 0 <= i < 362
  {
    Bumped(s, i).(mean := s.mean[i := -1.0], value := s.value[i := -1.0], prior := s.prior[i := 0.0], total := s.total)
  }

  /** The state after a simulation through edge `i` came back with `val`. */
  function BackedUp(s: Stats, i: int, val: real): Stats
    requires Sized(s) && 0 <= i < 362
  {
    var v := s.value[i] + val;
    var n := s.visits[i] + 1;
    Bumped(s, i).(has := s.has[i := true], value := s.value[i := v], mean := s.mean[i := v / n as real])
  }

  function Recorded(s: Stats, i: int, val: real): Stats
    requires Sized(s) && 0 <= i < 362 && s.visits[i] > 0
  {
    var v := s.value[i] + val;
    s.(value := s.value[i := v], mean := s.mean[i := v / s.visits[i] as real])
  }

  lemma {:induction false} BackedUpInTwo(s: Stats, i: int, val: real)
    requires Sized(s) && 0 <= i < 362 && s.has[i]
    ensures Sized(Bumped(s, i)) && Bumped(s, i).visits[i] > 0 && Bumped(s, i).board == s.board
    ensures Recorded(Bumped(s, i), i, val) == BackedUp(s, i, val)
  {
    assert s.has[i := true] == s.has;
  }

  lemma {:induction false} SameTests(s: Stats, t: Stats)
    requires s.board == t.board && s.kos == t.kos
    ensures forall i :: 0 <= i < 361 ==> (Accepted(t, i) <==> Accepted(s, i)) && (Refused(t, i) <==> Refused(s, i))
  {
    hide Legal;
  }

  /** An illegal try keeps every fact about the node and takes one edge out of play. */
  lemma {:induction false} RuleOutStep(s: Stats, i: int)
    requires NodeOk(s) && 0 <= i < 361 && i in Live(s) && !s.has[i] && Refused(s, i)
    ensures var t := RuledOut(s, i);
            Sized(t) && NodeOk(t) && SameBut(s, t, i) && Live(t) == Live(s) - {i} &&
            ValueSum(t.has, t.value, 362) == ValueSum(s.has, s.value, 362)
  {
    hide Legal, Accepted, Refused, VisitSum, ValueSum, NoDouble, Uniform, Occupied;
    var t := RuledOut(s, i);
    VisitSumChange(s.has, s.visits, t.has, t.visits, i, 362);
    ValueSumChange(s.has, s.value, t.has, t.value, i, 362);
    SameTests(s, t);
    assert Untried(s, i);
    assert Dead(t, i);
    forall j | 0 <= j < 361 && j != i ensures Dead(t, j) == Dead(s, j) && Untried(t, j) == Untried(s, j) {}
  }

  function ScoreOf(s: Stats, cpuct: real, explore: real, i: int): real
    requires Sized(s) && 0 <= i < 362
  {
    Score(s.mean[i], s.prior[i], cpuct, explore, s.visits[i])
  }

  /** What the argmax loop of `select_mcts` chooses: the first edge of highest score. */
  predicate IsChoice(s: Stats, cpuct: real, explore: real, i: int)
    requires Sized(s)
  {
    && 0 <= i < 362
    && forall j :: 0 <= j < 362 ==>
         ScoreOf(s, cpuct, explore, j) <= ScoreOf(s, cpuct, explore, i) &&
         (j < i ==> ScoreOf(s, cpuct, explore, j) < ScoreOf(s, cpuct, explore, i))
  }

  /** The choice is an edge still in play exactly when one in play scores above -1, or the first edge is in play. */
  lemma {:induction false} ChoiceLive(s: Stats, cpuct: real, explore: real, i: int)
    requires Sized(s) && cpuct > 0.0 && explore > 0.0 && IsChoice(s, cpuct, explore, i)
    requires forall j :: 0 <= j < 362 ==> s.prior[j] >= 0.0 && s.mean[j] >= -1.0
    ensures i in Live(s) <==> 0 in Live(s) || exists j :: j in Live(s) && ScoreOf(s, cpuct, explore, j) > -1.0
  {
    forall j | 0 <= j < 362
      ensures ScoreOf(s, cpuct, explore, j) >= -1.0 && (j !in Live(s) ==> ScoreOf(s, cpuct, explore, j) == -1.0)
    {
      ScoreBound(s.mean[j], s.prior[j], cpuct, explore, s.visits[j]);
    }
    hide Dead, ScoreOf;
  }

  /** On a valid node the pass scores above -1, so the first edge of highest score is in play. */
  lemma {:induction false} BestIsLive(s: Stats, cpuct: real, explore: real, scores: seq<real>, i: int)
    requires NodeOk(s) && cpuct > 0.0 && explore > 0.0 && |scores| == 362 && 0 <= i < 362
    requires forall j :: 0 <= j < 362 ==> scores[j] == ScoreOf(s, cpuct, explore, j)
    requires forall j :: 0 <= j < 362 ==> scores[j] <= scores[i] && (j < i ==> scores[j] < scores[i])
    ensures IsChoice(s, cpuct, explore, i) && i in Live(s)
  {
    ScoreBound(s.mean[361], s.prior[361], cpuct, explore, s.visits[361]);
    assert 361 in Live(s) && ScoreOf(s, cpuct, explore, 361) > -1.0;
    hide Dead, ScoreOf;
    ChoiceLive(s, cpuct, explore, i);
  }

  /** The node after `n` retries of the first edge. */
  function Retried(s: Stats, n: nat): Stats
    requires Sized(s)
    ensures Sized(Retried(s, n))
  {
    if n == 0 then s else RuledOut(Retried(s, n - 1), 0)
  }

  function NoHope(): Prediction { Prediction(seq(362, _ => 0.0), 0.0) }

  /** With a pass prior of 0 the retry may never end: on a board with a stone on the first point, for which the network
      gives no prior and no winning chance, every retry chooses that point again, which is illegal and has no child. */
  lemma {:induction false} RetryForever(b: Position, ko: Option<Position>, cpuct: real, explore: real, n: nat)
    requires Occupied(b, 0) != 0
    ensures var s := Retried(StatsOf(b, ko, NoHope()), n);
            IsChoice(s, cpuct, explore, 0) && !s.has[0] && !Legal(s.board, ko, 1, 0) && s.total == 1 && 0 !in Live(s)
  {
    RetriedFlat(b, ko, n);
    var s := Retried(StatsOf(b, ko, NoHope()), n);
    forall i | 0 <= i < 362 ensures ScoreOf(s, cpuct, explore, i) == -1.0 {
      assert cpuct * 0.0 * explore == 0.0;
      assert 0.0 / (1.0 + s.visits[i] as real) == 0.0;
    }
    assert ko in s.kos && !Legal(s.board, ko, 1, 0);
    assert Refused(s, 0);
  }

  lemma {:induction false} RetriedFlat(b: Position, ko: Option<Position>, n: nat)
    requires Occupied(b, 0) != 0
    ensures var s := Retried(StatsOf(b, ko, NoHope()), n);
            && s.board == b && s.kos == {ko} && s.total == 1 && !s.has[0] && s.value[0] == -1.0
            && forall i :: 0 <= i < 362 ==> s.mean[i] == -1.0 && s.prior[i] == 0.0
  {
    if n > 0 { RetriedFlat(b, ko, n - 1); }
  }

  /** What the result of a simulation through a child must be for the edge to stay in step with the child. */
  ghost predicate ChildStep(c: Stats, c': Stats, r: real) {
    && Sized(c) && NodeOk(c')
    && c'.board == c.board && c'.kos == c.kos && c'.result == c.result && c'.done == c.done && c'.pass == c.pass
    && -1.0 <= r <= 1.0
    && (if c.done then r == -c.result && c'.total == c.total
        else c'.total == c.total + 1 && ValueSum(c'.has, c'.value, 362) == ValueSum(c.has, c.value, 362) - r)
  }

  /** A finished or retried selection reports to the parent as if it had been made directly. */
  lemma {:induction false} RetryStats(s: Stats, i: int, t: Stats, r: real)
    requires Sized(s) && 0 <= i < 361
    ensures var u := RuledOut(s, i);
            u.board == s.board && u.kos == s.kos && u.done == s.done && u.pass == s.pass && u.total == s.total
    ensures NodeOk(s) && s.done ==> ChildStep(s, s, -s.result)
    ensures NodeOk(s) && i in Live(s) && !s.has[i] && Refused(s, i) ==>
            Live(RuledOut(s, i)) == Live(s) - {i} && (ChildStep(RuledOut(s, i), t, r) ==> ChildStep(s, t, r))
  {
    if NodeOk(s) && i in Live(s) && !s.has[i] && Refused(s, i) { RuleOutStep(s, i); }
  }

  lemma {:induction false} BackUpNode(s: Stats, i: int, val: real)
    requires NodeOk(s) && !s.done && 0 <= i < 362
    requires s.has[i] || Untried(s, i)
    requires -1.0 <= val <= 1.0
    requires -(s.visits[i] as real) <= s.value[i] <= s.visits[i] as real
    ensures var t := BackedUp(s, i, val);
            NodeOk(t) && SameBut(s, t, i) && ValueSum(t.has, t.value, 362) == ValueSum(s.has, s.value, 362) + val
  {
    var t := BackedUp(s, i, val);
    VisitSumChange(s.has, s.visits, t.has, t.visits, i, 362);
    ValueSumChange(s.has, s.value, t.has, t.value, i, 362);
    MeanBound(t.value[i], t.visits[i]);
    hide Legal, Accepted, Refused, VisitSum, ValueSum;
    forall j | 0 <= j < 361 && j != i ensures Dead(t, j) == Dead(s, j) && Untried(t, j) == Untried(s, j) {}
  }

  lemma {:induction false} DescendEdge(s: Stats, i: int, c: Stats, c': Stats, r: real)
    requires NodeOk(s) && 0 <= i < 362 && EdgeOk(s, i, c) && ChildStep(c, c', r)
    ensures EdgeOk(BackedUp(s, i, r), i, c')
  {
    var n := s.visits[i];
    assert (n + 1) as real * c.result == n as real * c.result + c.result;
  }

  /** A simulation through a child keeps the node, the edge, and what the parent sees of the node. */
  lemma {:induction false} DescendStats(s: Stats, i: int, c: Stats, c': Stats, val: real)
    requires Sized(s) && 0 <= i < 362
    ensures NodeOk(s) && !s.done && s.has[i] && EdgeOk(s, i, c) && ChildStep(c, c', val) ==>
            var t := BackedUp(s, i, val);
            Sized(t) && NodeOk(t) && SameBut(s, t, i) && EdgeOk(t, i, c') && ChildStep(s, t, -val) && t.has[i]
  {
    if NodeOk(s) && !s.done && s.has[i] && EdgeOk(s, i, c) && ChildStep(c, c', val) {
      BackUpNode(s, i, val);
      DescendEdge(s, i, c, c', val);
    }
  }

  /** A child just made for edge `i` of a node with this board and pass flag. */
  ghost predicate IsNewChild(c: Stats, board: Position, i: int, pass: bool)
    requires 0 <= i < 362
  {
    && NodeOk(c) && c.board == After(board, i) && c.kos == {Some(board)}
    && c.pass == (i == 361) && c.done == (i == 361 && pass)
    && c.total == 1 && forall j :: 0 <= j < 362 ==> !c.has[j]
  }

  /** The flags that a new child gets: a pass, and the end when the parent was a pass too. */
  function Flagged(c: Stats, i: nat, pass: bool): Stats {
    if i == 361 then c.(pass := true, done := pass) else c
  }

  /** The child is `expand` of the position the edge leads to, with some answer of the network, flagged. */
  ghost predicate IsExpanded(c: Stats, board: Position, i: nat, pass: bool)
    requires i < 362
  {
    exists pred: Prediction :: pred.Ok() && c == Flagged(StatsOf(After(board, i), Some(board), pred), i, pass)
  }

  lemma {:induction false} NewChildStats(board: Position, i: nat, pass: bool, pred: Prediction)
    requires NoDouble(board) && Uniform(board) && pred.Ok() && i < 362 && (i < 361 ==> Occupied(board, i) == 0)
    ensures var c := Flagged(StatsOf(After(board, i), Some(board), pred), i, pass);
            IsNewChild(c, board, i, pass) && IsExpanded(c, board, i, pass)
  {
    AfterFacts(board, i);
    hide After, NoDouble, Uniform;
    ExpandedOk(After(board, i), Some(board), pred);
  }

  /** Expanding an untried legal edge keeps the node and makes the edge right. */
  lemma {:induction false} GrowStats(s: Stats, i: int, c: Stats)
    requires Sized(s) && 0 <= i < 362 && !s.done && (i < 361 ==> Accepted(s, i))
    ensures NodeOk(s) && Untried(s, i) && IsNewChild(c, s.board, i, s.pass) ==>
            var t := BackedUp(s, i, -c.result);
            Sized(t) && NodeOk(t) && SameBut(s, t, i) && t.has[i] && EdgeOk(t, i, c) && ChildStep(s, t, c.result)
  {
    if NodeOk(s) && Untried(s, i) && IsNewChild(c, s.board, i, s.pass) {
      NoKidsNoSum(c.has, c.visits, c.value, 362);
      BackUpNode(s, i, -c.result);
    }
  }
}
