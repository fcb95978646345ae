/** The controller's record of its flows: one table of rows for each user, topology and switch. */
module Ledger {
  import opened Facts
  import opened FlowTable

  /** A row of the table; all cells of a row never filled, or cleared, are empty. */
  datatype Row = Blank | Entry(flow: int, rule: Rule)

  /** What `add_f_l` takes for an empty row. */
  predicate Free(r: Row) { r.Blank? || r.flow == 0 }

  function Kept(recs: seq<Row>): seq<Row> {
    if recs == [] then []
    else Kept(recs[..|recs| - 1]) + if recs[|recs| - 1].Blank? then [] else [recs[|recs| - 1]]
  }

  function FreeBefore(table: seq<Row>, i: nat): nat
    requires i <= |table|
  {
    if i == 0 then 0 else FreeBefore(table, i - 1) + if Free(table[i - 1]) then 1 else 0
  }

  /** The table with the non-empty records in the first free rows, in order, as far as there are free rows. */
  function Filled(table: seq<Row>, recs: seq<Row>): (t: seq<Row>)
    ensures |t| == |table|
  {
    seq(|table|, i requires 0 <= i < |table| =>
      if Free(table[i]) && FreeBefore(table, i) < |Kept(recs)| then Kept(recs)[FreeBefore(table, i)] else table[i])
  }

  lemma {:induction false} KeptGrows(recs: seq<Row>, c: nat)
    requires c <= |recs|
    ensures Kept(recs[..c]) <= Kept(recs)
    decreases |recs|
  {
    if c < |recs| {
      assert recs[..|recs| - 1][..c] == recs[..c];
      KeptGrows(recs[..|recs| - 1], c);
    } else {
      assert recs[..c] == recs;
    }
  }

  lemma {:induction false} FreeBeforeGrows(table: seq<Row>, i: nat, j: nat)
    requires i <= j <= |table|
    ensures FreeBefore(table, i) <= FreeBefore(table, j)
  {
    if i < j { FreeBeforeGrows(table, i, j - 1); }
  }

  /** `add_f_l`. */
  method AddRecords(table: seq<Row>, recs: seq<Row>) returns (temp: seq<Row>)
    ensures temp == Filled(table, recs)
  {
    temp := table;
    var p, counter := 0, 0;
    while p < |temp| && counter < |recs|
      invariant 0 <= p <= |temp| == |table| && 0 <= counter <= |recs|
      invariant |Kept(recs[..counter])| == FreeBefore(table, p)
      invariant forall i :: 0 <= i < p ==> temp[i] == Filled(table, recs)[i]
      invariant forall i :: p <= i < |table| ==> temp[i] == table[i]
    {
      if Free(temp[p]) {
        while counter < |recs| && recs[counter].Blank?
          invariant 0 <= counter <= |recs|
          invariant |Kept(recs[..counter])| == FreeBefore(table, p)
        {
          assert recs[..counter + 1][..counter] == recs[..counter];
          counter := counter + 1;
        }
        if counter < |recs| {
          assert recs[..counter + 1][..counter] == recs[..counter];
          KeptGrows(recs, counter + 1);
          temp := temp[p := recs[counter]];
          counter := counter + 1;
        } else {
          break;
        }
      }
      p := p + 1;
    }
    if p < |table| {
      assert recs[..counter] == recs;
      forall i | p <= i < |table| ensures temp[i] == Filled(table, recs)[i] { FreeBeforeGrows(table, p, i); }
    }
  }

  /** One flow's record goes into the first row that is empty or has flow number 0. */
  lemma {:induction false} FilledFirst(table: seq<Row>, i: nat, rec: Row)
    requires i < |table| && (table[i].Blank? || table[i].flow == 0) && rec.Entry?
    requires forall j :: 0 <= j < i ==> table[j].Entry? && table[j].flow != 0
    ensures Filled(table, [rec, Blank]) == table[i := rec]
  {
    var recs := [rec, Blank];
    assert recs[..1] == [rec] && [rec][..0] == [];
    assert Kept([rec]) == [rec] && Kept(recs) == [rec];
    NoneFreeBefore(table, i);
    forall j | 0 <= j < |table| ensures Filled(table, recs)[j] == table[i := rec][j] {
      if j < i { NoneFreeBefore(table, j); }
      if j > i { FreeBeforeGrows(table, i + 1, j); }
    }
  }

  lemma {:induction false} NoneFreeBefore(table: seq<Row>, i: nat)
    requires i <= |table| && forall j :: 0 <= j < i ==> table[j].Entry? && table[j].flow != 0
    ensures FreeBefore(table, i) == 0
  {
    if i > 0 { NoneFreeBefore(table, i - 1); }
  }

  /** The table without the rows of a meter. */
  function Cleared(table: seq<Row>, meter: int): (t: seq<Row>)
    ensures |t| == |table|
  {
    seq(|table|, i requires 0 <= i < |table| =>
      if table[i].Entry? && table[i].rule.meter == meter then Blank else table[i])
  }

  /** What the listing loop of `output_flow` prints of a table. */
  function Listing(table: seq<Row>): seq<Row> {
    if table == [] || table[0].Blank? then [] else [table[0]] + Listing(table[1..])
  }

  predicate NoHole(table: seq<Row>) {
    forall i, j :: 0 <= i < j < |table| && table[i].Blank? ==> table[j].Blank?
  }

  lemma {:induction false} KeptFirst(table: seq<Row>)
    requires table != []
    ensures Kept(table) == (if table[0].Blank? then [] else [table[0]]) + Kept(table[1..])
  {
    var n := |table| - 1;
    if n > 0 {
      KeptFirst(table[..n]);
      assert table[..n][1..] == table[1..][..n - 1];
    } else {
      assert table[..0] == [] && Kept(table[1..]) == [];
    }
  }

  lemma {:induction false} KeptEmpty(table: seq<Row>)
    ensures Kept(table) == [] <==> forall i :: 0 <= i < |table| ==> table[i].Blank?
  {
    if table != [] {
      KeptEmpty(table[..|table| - 1]);
      forall i | 0 <= i < |table| - 1 ensures table[..|table| - 1][i] == table[i] {}
    }
  }

  lemma {:induction false} ListingLength(table: seq<Row>)
    ensures |Listing(table)| <= |Kept(table)|
  {
    if table != [] && !table[0].Blank? {
      ListingLength(table[1..]);
      KeptFirst(table);
    }
  }

  /** The listing shows every record of the table exactly when the table has no hole. */
  lemma {:induction false} ListingComplete(table: seq<Row>)
    ensures Listing(table) == Kept(table) <==> NoHole(table)
  {
    if table != [] {
      KeptFirst(table);
      var rest := table[1..];
      KeptEmpty(rest);
      if table[0].Blank? {
        assert forall i :: 0 <= i < |rest| ==> rest[i] == table[i + 1];
        if NoHole(table) { assert forall i :: 0 <= i < |rest| ==> rest[i].Blank?; }
      } else {
        ListingComplete(rest);
        assert Listing(table)[1..] == Listing(rest) && Kept(table)[1..] == Kept(rest);
        assert NoHole(table) ==> NoHole(rest);
        if NoHole(rest) {
          forall i, j | 0 <= i < j < |table| && table[i].Blank? ensures table[j].Blank? {
            assert rest[i - 1].Blank? && rest[j - 1] == table[j];
          }
        }
      }
    }
  }

  /** Clearing a meter leaves no hole exactly when its rows are the last ones filled. */
  lemma {:induction false} ClearedHoles(table: seq<Row>, meter: int)
    requires NoHole(table)
    ensures NoHole(Cleared(table, meter)) <==>
            forall i, j :: 0 <= i < j < |table| && table[i].Entry? && table[i].rule.meter == meter && table[j].Entry?
                           ==> table[j].rule.meter == meter
  {
    var t := Cleared(table, meter);
    if NoHole(t) {
      forall i, j | 0 <= i < j < |table| && table[i].Entry? && table[i].rule.meter == meter && table[j].Entry?
        ensures table[j].rule.meter == meter
      {
        assert t[i].Blank? ==> t[j].Blank?;
      }
    }
  }

  /** Filling a table without holes leaves none. */
  lemma {:induction false} FilledNoHole(table: seq<Row>, recs: seq<Row>)
    requires NoHole(table) && forall i :: 0 <= i < |table| ==> Free(table[i]) ==> table[i].Blank?
    ensures NoHole(Filled(table, recs))
  {
    var t := Filled(table, recs);
    KeptIsFilled(recs);
    forall i, j | 0 <= i < j < |table| && t[i].Blank? ensures t[j].Blank? {
      assert table[i].Blank? && table[j].Blank?;
      FreeBeforeGrows(table, i, j);
    }
  }

  lemma {:induction false} KeptIsFilled(recs: seq<Row>)
    ensures forall i :: 0 <= i < |Kept(recs)| ==> Kept(recs)[i].Entry?
  {
    if recs != [] { KeptIsFilled(recs[..|recs| - 1]); }
  }

  /** No record is lost or made up: filling adds as many as there are free rows for. */
  lemma {:induction false} FilledCount(table: seq<Row>, recs: seq<Row>)
    requires forall i :: 0 <= i < |table| ==> Free(table[i]) ==> table[i].Blank?
    ensures |Kept(Filled(table, recs))| == |Kept(table)| + Min(|Kept(recs)|, FreeBefore(table, |table|))
  {
    FilledCountUpTo(table, recs, |table|);
    assert table[..|table|] == table && Filled(table, recs)[..|table|] == Filled(table, recs);
  }

  lemma {:induction false} FilledCountUpTo(table: seq<Row>, recs: seq<Row>, n: nat)
    requires n <= |table| && forall i :: 0 <= i < |table| ==> Free(table[i]) ==> table[i].Blank?
    ensures |Kept(Filled(table, recs)[..n])| == |Kept(table[..n])| + Min(|Kept(recs)|, FreeBefore(table, n))
  {
    if n > 0 {
      FilledCountUpTo(table, recs, n - 1);
      var t := Filled(table, recs);
      assert t[..n][..n - 1] == t[..n - 1] && table[..n][..n - 1] == table[..n - 1];
      KeptIsFilled(recs);
    }
  }

  /** Every filled row is of the one meter, and has a flow number. */
  predicate OneMeter(table: seq<Row>, meter: int) {
    forall i :: 0 <= i < |table| && table[i].Entry? ==> table[i].flow != 0 && table[i].rule.meter == meter
  }

  /** A table of a single meter comes out empty, so clearing cannot leave a hole. */
  lemma {:induction false} ClearedOneMeter(table: seq<Row>, meter: int)
    requires OneMeter(table, meter)
    ensures Cleared(table, meter) == seq(|table|, _ => Blank)
  {}

  /** `rules` from flow number `base` on, in the first rows of a table of `size` rows. */
  function Page(base: int, rules: seq<Rule>, size: nat): (t: seq<Row>)
    ensures |t| == size
  {
    seq(size, i => if 0 <= i < |rules| then Entry(base + i, rules[i]) else Blank)
  }

  lemma {:induction false} PageFree(base: int, rules: seq<Rule>, size: nat, i: nat)
    requires base > 0 && i <= size
    ensures FreeBefore(Page(base, rules, size), i) == if i <= |rules| then 0 else i - |rules|
  {
    if i > 0 { PageFree(base, rules, size, i - 1); }
  }

  /** One record more, as `add_flow_with_meter` returns it: an empty row for ARP, then the entry. */
  lemma {:induction false} PageNext(base: int, rules: seq<Rule>, size: nat, rule: Rule)
    requires base > 0
    ensures Filled(Page(base, rules, size), [Blank, Entry(base + |rules|, rule)]) == Page(base, rules + [rule], size)
  {
    var recs := [Blank, Entry(base + |rules|, rule)];
    assert recs[..1] == [Blank] && [Blank][..0] == [];
    assert Kept(recs) == [recs[1]];
    var t := Filled(Page(base, rules, size), recs);
    forall i | 0 <= i < size ensures t[i] == Page(base, rules + [rule], size)[i] {
      PageFree(base, rules, size, i);
    }
  }

  /** The listing of a page is the flows, in order, as far as there are rows. */
  lemma {:induction false} PageListing(base: int, rules: seq<Rule>, size: nat)
    ensures NoHole(Page(base, rules, size))
    ensures |Listing(Page(base, rules, size))| == Min(|rules|, size)
    ensures forall i :: 0 <= i < |rules| && i < size ==>
              Listing(Page(base, rules, size))[i] == Entry(base + i, rules[i])
    decreases |rules|
  {
    var t := Page(base, rules, size);
    if rules != [] && size > 0 {
      PageListing(base + 1, rules[1..], size - 1);
      assert t[1..] == Page(base + 1, rules[1..], size - 1);
    }
  }

  type Key = (nat, nat, nat)

  /** The rows of every (user, topology, switch). */
  class Book {
    const switches: nat
    var rows: map<Key, seq<Row>>

    /** `f_l` for so many users and topologies, with `size` empty rows in each table. */
    constructor (users: nat, topologies: nat, switches: nat, size: nat)
      ensures this.switches == switches
      ensures forall u: nat, t: nat, s: nat :: u < users && t < topologies && s < switches ==>
                (u, t, s) in rows && rows[(u, t, s)] == seq(size, _ => Blank)
    {
      this.switches := switches;
      var keys := set u: nat, t: nat, s: nat | u < users && t < topologies && s < switches :: (u, t, s);
      assert forall u: nat, t: nat, s: nat :: u < users && t < topologies && s < switches ==> (u, t, s) in keys;
      rows := map k | k in keys :: seq(size, _ => Blank);
    }

    method Add(u: nat, t: nat, s: nat, recs: seq<Row>)
      requires (u, t, s) in rows
      modifies this
      ensures rows == old(rows)[(u, t, s) := Filled(old(rows)[(u, t, s)], recs)]
    {
      var table := AddRecords(rows[(u, t, s)], recs);
      rows := rows[(u, t, s) := table];
    }

    /** `modify_f_l`: the rows of a meter are cleared on every switch. */
    method Modify(u: nat, t: nat, meter: int)
      requires forall s :: 0 <= s < switches ==> (u, t, s) in rows
      modifies this
      ensures rows.Keys == old(rows).Keys
      ensures forall s :: 0 <= s < switches ==> rows[(u, t, s)] == Cleared(old(rows)[(u, t, s)], meter)
      ensures forall k :: k in rows && !(k.0 == u && k.1 == t && k.2 < switches) ==> rows[k] == old(rows)[k]
    {
      for s := 0 to switches
        invariant rows.Keys == old(rows).Keys
        invariant forall q :: 0 <= q < s ==> rows[(u, t, q)] == Cleared(old(rows)[(u, t, q)], meter)
        invariant forall k :: k in rows && !(k.0 == u && k.1 == t && k.2 < s) ==> rows[k] == old(rows)[k]
      {
        ghost var before := rows;
        var table := rows[(u, t, s)];
        var f := 0;
        while f < |table|
          invariant 0 <= f <= |table| == |before[(u, t, s)]|
          invariant forall i :: 0 <= i < f ==> table[i] == Cleared(before[(u, t, s)], meter)[i]
          invariant forall i :: f <= i < |table| ==> table[i] == before[(u, t, s)][i]
        {
          if table[f].Entry? && table[f].rule.meter == meter { table := table[f := Blank]; }
          f := f + 1;
        }
        rows := rows[(u, t, s) := table];
      }
    }

    /** The rows that `output_flow` prints for one user and switch. */
    method Output(u: nat, t: nat, s: nat) returns (out: seq<Row>)
      requires (u, t, s) in rows
      ensures out == Listing(rows[(u, t, s)])
    {
      out := [];
      var table := rows[(u, t, s)];
      var f := 0;
      while f < |table|
        invariant 0 <= f <= |table| && out + Listing(table[f..]) == Listing(table)
      {
        if table[f].Blank? { break; }
        out := out + [table[f]];
        assert table[f..][1..] == table[f + 1..];
        f := f + 1;
      }
    }
  }
}
