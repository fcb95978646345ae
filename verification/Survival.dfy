/** No dead chains: an accepted stone leaves every chain of both colours with a liberty. */
module Survival {
  import opened Grid
  import opened Board
  import opened Moves
  import opened Rules
  import opened Capture

  lemma {:induction false} OwnAlive(b: Position, p: int, i: int, j: int)
    requires Cell(i) && Occupied(b, i) == 0 && (p == 1 || p == -1)
    requires AllAlive(b) && Liberties(Moved(b, p, i), i) != {}
    requires Cell(j) && Occupied(Moved(b, p, i), j) == p
    ensures Liberties(Moved(b, p, i), j) != {}
  {
    var b' := Moved(b, p, i);
    MoveExact(b, p, i);
    if i in Chain(b', j) {
      ChainColour(b', j, i);
    } else {
      InOwnChain(b', j);
      var e :| e in Liberties(b, j);
      OwnChainKept(b, p, i, j, e);
      if e == i {
        var k :| k in Chain(b, j) && Adj(k, i);
        ReachClosed(Stones(b', p), j);
        assert false;
      }
    }
  }

  lemma {:induction false} SurvivorStays(b: Position, p: int, i: int, k: int)
    requires Cell(i) && Occupied(b, i) == 0 && (p == 1 || p == -1)
    requires Cell(k) && Occupied(b, k) == -p && Liberties(b, k) != {i}
    ensures Occupied(Moved(b, p, i), k) == -p
  {
    MoveExact(b, p, i);
    assert Occupied(Moved(b, p, i), k) == AfterMove(b, p, i, k);
  }

  lemma {:induction false} NoNewOpponents(b: Position, p: int, i: int)
    requires Cell(i) && Occupied(b, i) == 0 && (p == 1 || p == -1)
    ensures Stones(Moved(b, p, i), -p) <= Stones(b, -p)
    ensures Stones(b, 0) - {i} <= Stones(Moved(b, p, i), 0)
  {
    MoveExact(b, p, i);
    forall k | Cell(k) ensures Occupied(Moved(b, p, i), k) == AfterMove(b, p, i, k) {}
  }

  /** An opponent chain that is not captured keeps its stones, and with them its other liberties, if it has any. */
  lemma {:induction false} OpponentKept(b: Position, p: int, i: int, j: int)
    requires Cell(i) && Occupied(b, i) == 0 && (p == 1 || p == -1)
    requires Cell(j) && Occupied(b, j) == -p && Liberties(b, j) != {i}
    ensures Chain(Moved(b, p, i), j) == Chain(b, j)
    ensures forall e :: e in Liberties(b, j) && e != i ==> e in Liberties(Moved(b, p, i), j)
  {
    hide Moved, Reach;
    var ok, ok' := Stones(b, -p), Stones(Moved(b, p, i), -p);
    NoNewOpponents(b, p, i);
    InOwnChain(b, j);
    forall k | k in Chain(b, j) ensures k in ok' {
      ChainColour(b, j, k);
      SurvivorStays(b, p, i, k);
    }
    ReachRestrict(ok, ok', j);
  }

  lemma {:induction false} OtherMember(s: set<int>, e: int) returns (x: int)
    requires s != {} && s != {e}
    ensures x in s && x != e
  {
    if forall y :: y in s ==> y == e { assert false; }
    x :| x in s && x != e;
  }

  lemma {:induction false} OpponentAlive(b: Position, p: int, i: int, j: int)
    requires Cell(i) && Occupied(b, i) == 0 && (p == 1 || p == -1) && AllAlive(b)
    requires Cell(j) && Occupied(Moved(b, p, i), j) == -p
    ensures Liberties(Moved(b, p, i), j) != {}
  {
    assert Occupied(b, j) == -p && Liberties(b, j) != {i} by {
      MoveExact(b, p, i);
      assert Occupied(Moved(b, p, i), j) == AfterMove(b, p, i, j);
    }
    var s := Liberties(b, j);
    assert s != {};
    hide Liberties, AllAlive, Moved;
    var e := OtherMember(s, i);
    OpponentKept(b, p, i, j);
  }

  /** On a board without dead chains, playing an empty point leaves no dead chain
      exactly when the suicide test passes. */
  lemma {:induction false} AliveIffNotSuicide(b: Position, p: int, i: int)
    requires Cell(i) && Occupied(b, i) == 0 && (p == 1 || p == -1) && AllAlive(b)
    ensures AllAlive(Moved(b, p, i)) <==> !Suicidal(b, p, i)
  {
    var b' := Moved(b, p, i);
    SuicideExact(b, p, i);
    MoveExact(b, p, i);
    if !Suicidal(b, p, i) {
      forall j | Cell(j) && Occupied(b', j) != 0 ensures Liberties(b', j) != {} {
        if Occupied(b', j) == p { OwnAlive(b, p, i, j); } else { OpponentAlive(b, p, i, j); }
      }
    }
  }

  /** `legal_go` accepts exactly the empty points that avoid the ko position and leave no dead chain. */
  lemma {:induction false} LegalExact(b: Position, ko: Option<Position>, p: int, i: int)
    requires Cell(i) && (p == 1 || p == -1) && AllAlive(b)
    ensures Legal(b, ko, p, i) <==>
            Occupied(b, i) == 0 && !KoHit(Moved(b, p, i), ko) && AllAlive(Moved(b, p, i))
  {
    if Occupied(b, i) == 0 { AliveIffNotSuicide(b, p, i); }
  }
}
