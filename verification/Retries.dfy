/** When the retry of `select_mcts` on illegal moves comes to an end, whatever the network answers. */
module Retries {
  import opened Grid
  import opened Board
  import opened Rules
  import opened SearchStats

  /** The first edge of highest score among the first `n`. */
  function BestOf(s: Stats, cpuct: real, explore: real, n: nat): (i: nat)
    requires Sized(s) && 1 <= n <= 362
    ensures i < n
    ensures forall j :: 0 <= j < n ==> ScoreOf(s, cpuct, explore, j) <= ScoreOf(s, cpuct, explore, i)
    ensures forall j :: 0 <= j < i ==> ScoreOf(s, cpuct, explore, j) < ScoreOf(s, cpuct, explore, i)
  {
    if n == 1 then 0
    else
      var i := BestOf(s, cpuct, explore, n - 1);
      if ScoreOf(s, cpuct, explore, n - 1) > ScoreOf(s, cpuct, explore, i) then n - 1 else i
  }

  function Best(s: Stats, cpuct: real, explore: real): (i: nat)
    requires Sized(s)
    ensures IsChoice(s, cpuct, explore, i)
  {
    BestOf(s, cpuct, explore, 362)
  }

  /** The selection goes on through edge `i`: it has a child, or is the pass, or a legal move. */
  ghost predicate GoesOn(s: Stats, ko: Option<Position>, i: int)
    requires Sized(s) && 0 <= i < 362
  {
    s.has[i] || i == 361 || Legal(s.board, ko, 1, i)
  }

  /** The node after `n` retries, or fewer if the selection goes on before. */
  ghost function Tried(s: Stats, ko: Option<Position>, cpuct: real, explore: real, n: nat): (t: Stats)
    requires Sized(s)
    ensures Sized(t)
  {
    if n == 0 then s
    else
      var t := Tried(s, ko, cpuct, explore, n - 1);
      var i := Best(t, cpuct, explore);
      if GoesOn(t, ko, i) then t else RuledOut(t, i)
  }

  ghost predicate EndsAt(s: Stats, ko: Option<Position>, cpuct: real, explore: real, n: nat)
    requires Sized(s)
  {
    var t := Tried(s, ko, cpuct, explore, n);
    GoesOn(t, ko, Best(t, cpuct, explore))
  }

  /** An edge that the selection can go on through scores above -1, or is the first. */
  ghost predicate HasWay(s: Stats, ko: Option<Position>, cpuct: real, explore: real)
    requires Sized(s)
  {
    exists j :: 0 <= j < 362 && IsWay(s, ko, cpuct, explore, j)
  }

  ghost predicate IsWay(s: Stats, ko: Option<Position>, cpuct: real, explore: real, j: int)
    requires Sized(s) && 0 <= j < 362
  {
    GoesOn(s, ko, j) && (j == 0 || ScoreOf(s, cpuct, explore, j) > -1.0)
  }

  predicate InRange(s: Stats) {
    Sized(s) && forall j :: 0 <= j < 362 ==> s.prior[j] >= 0.0 && s.mean[j] >= -1.0
  }

  lemma {:induction false} ScoresInRange(s: Stats, cpuct: real, explore: real)
    requires InRange(s) && cpuct > 0.0 && explore > 0.0
    ensures forall j :: 0 <= j < 362 ==> ScoreOf(s, cpuct, explore, j) >= -1.0
  {
    forall j | 0 <= j < 362 ensures ScoreOf(s, cpuct, explore, j) >= -1.0 {
      ScoreBound(s.mean[j], s.prior[j], cpuct, explore, s.visits[j]);
    }
  }

  /** Ruling an edge out sets its score to -1 and changes no other. */
  lemma {:induction false} RuledOutScores(s: Stats, ko: Option<Position>, cpuct: real, explore: real, i: nat)
    requires InRange(s) && cpuct > 0.0 && explore > 0.0 && i < 362
    ensures var t := RuledOut(s, i);
            && InRange(t) && ScoreOf(t, cpuct, explore, i) == -1.0
            && (forall j :: 0 <= j < 362 && j != i ==> ScoreOf(t, cpuct, explore, j) == ScoreOf(s, cpuct, explore, j))
            && forall j :: 0 <= j < 362 ==> (GoesOn(t, ko, j) <==> GoesOn(s, ko, j))
  {
    var t := RuledOut(s, i);
    ScoreBound(t.mean[i], t.prior[i], cpuct, explore, t.visits[i]);
    hide Legal;
  }

  /** The edges still to be ruled out before the selection can go on. */
  ghost function InTheWay(s: Stats, ko: Option<Position>, cpuct: real, explore: real): set<int>
    requires Sized(s)
  {
    set j | 0 <= j < 362 && !GoesOn(s, ko, j) && ScoreOf(s, cpuct, explore, j) > -1.0
  }

  lemma {:induction false} TriedShift(s: Stats, ko: Option<Position>, cpuct: real, explore: real, n: nat)
    requires Sized(s) && !GoesOn(s, ko, Best(s, cpuct, explore))
    ensures Tried(s, ko, cpuct, explore, n + 1) == Tried(RuledOut(s, Best(s, cpuct, explore)), ko, cpuct, explore, n)
  {
    hide GoesOn, RuledOut, Best;
    if n == 0 {
      assert Tried(s, ko, cpuct, explore, 0) == s;
    } else {
      TriedShift(s, ko, cpuct, explore, n - 1);
    }
  }

  lemma {:induction false} WayLeads(s: Stats, ko: Option<Position>, cpuct: real, explore: real) returns (n: nat)
    requires InRange(s) && cpuct > 0.0 && explore > 0.0 && HasWay(s, ko, cpuct, explore)
    ensures EndsAt(s, ko, cpuct, explore, n)
    decreases InTheWay(s, ko, cpuct, explore)
  {
    var i := Best(s, cpuct, explore);
    if GoesOn(s, ko, i) {
      n := 0;
    } else {
      var t := RuledOut(s, i);
      Removed(s, ko, cpuct, explore, i);
      hide GoesOn, RuledOut, ScoreOf;
      n := WayLeads(t, ko, cpuct, explore);
      TriedShift(s, ko, cpuct, explore, n);
      n := n + 1;
    }
  }

  /** A choice that is refused was in the way, and is not any more. */
  lemma {:induction false} Removed(s: Stats, ko: Option<Position>, cpuct: real, explore: real, i: nat)
    requires InRange(s) && cpuct > 0.0 && explore > 0.0 && HasWay(s, ko, cpuct, explore)
    requires IsChoice(s, cpuct, explore, i) && !GoesOn(s, ko, i)
    ensures var t := RuledOut(s, i);
            InRange(t) && HasWay(t, ko, cpuct, explore) &&
            InTheWay(t, ko, cpuct, explore) < InTheWay(s, ko, cpuct, explore)
  {
    var t := RuledOut(s, i);
    var j :| 0 <= j < 362 && IsWay(s, ko, cpuct, explore, j);
    ScoresInRange(s, cpuct, explore);
    RuledOutScores(s, ko, cpuct, explore, i);
    hide GoesOn, RuledOut, ScoreOf, Legal;
    assert ScoreOf(s, cpuct, explore, j) <= ScoreOf(s, cpuct, explore, i);
    assert i in InTheWay(s, ko, cpuct, explore) && i !in InTheWay(t, ko, cpuct, explore);
    assert IsWay(t, ko, cpuct, explore, j);
  }

  /** Without a way, no choice ever is one. */
  lemma {:induction false} NoWay(s: Stats, ko: Option<Position>, cpuct: real, explore: real, n: nat)
    requires InRange(s) && cpuct > 0.0 && explore > 0.0 && !HasWay(s, ko, cpuct, explore)
    ensures var t := Tried(s, ko, cpuct, explore, n);
            InRange(t) && !HasWay(t, ko, cpuct, explore) && !EndsAt(s, ko, cpuct, explore, n)
  {
    var t := Tried(s, ko, cpuct, explore, n);
    if n > 0 {
      NoWay(s, ko, cpuct, explore, n - 1);
      var u := Tried(s, ko, cpuct, explore, n - 1);
      RuledOutScores(u, ko, cpuct, explore, Best(u, cpuct, explore));
      hide GoesOn, RuledOut, ScoreOf, Best;
      forall j | 0 <= j < 362 ensures !IsWay(t, ko, cpuct, explore, j) { assert !IsWay(u, ko, cpuct, explore, j); }
    }
    NoWayChoice(t, ko, cpuct, explore, Best(t, cpuct, explore));
  }

  lemma {:induction false} NoWayChoice(s: Stats, ko: Option<Position>, cpuct: real, explore: real, i: nat)
    requires InRange(s) && cpuct > 0.0 && explore > 0.0 && !HasWay(s, ko, cpuct, explore) &&
             IsChoice(s, cpuct, explore, i)
    ensures !GoesOn(s, ko, i)
  {
    ScoresInRange(s, cpuct, explore);
    hide GoesOn, ScoreOf;
    assert !IsWay(s, ko, cpuct, explore, i);
    assert ScoreOf(s, cpuct, explore, 0) <= ScoreOf(s, cpuct, explore, i);
  }

  /** The retry comes to an end exactly when there is a way: an edge with a child, the pass, or a legal move that
      scores above -1, or is the first edge. */
  lemma {:induction false} RetryEnds(s: Stats, ko: Option<Position>, cpuct: real, explore: real)
    requires InRange(s) && cpuct > 0.0 && explore > 0.0
    ensures (exists n: nat :: EndsAt(s, ko, cpuct, explore, n)) <==> HasWay(s, ko, cpuct, explore)
  {
    hide EndsAt, HasWay;
    if HasWay(s, ko, cpuct, explore) {
      var n := WayLeads(s, ko, cpuct, explore);
    } else {
      forall n: nat ensures !EndsAt(s, ko, cpuct, explore, n) { NoWay(s, ko, cpuct, explore, n); }
    }
  }

  /** On a valid node the pass is a way. */
  lemma {:induction false} NodeHasWay(s: Stats, ko: Option<Position>, cpuct: real, explore: real)
    requires NodeOk(s) && cpuct > 0.0 && explore > 0.0
    ensures InRange(s) && HasWay(s, ko, cpuct, explore)
  {
    ScoreBound(s.mean[361], s.prior[361], cpuct, explore, s.visits[361]);
    assert IsWay(s, ko, cpuct, explore, 361);
  }
}
