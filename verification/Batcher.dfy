/** The cyclic one-hot batches of `get_rnn_data`. */
module Batcher {

  type byte = n: nat | n < 256

  /** The character that stream position `p` reads. */
  function CharAt(text: seq<byte>, p: nat): byte
    requires |text| > 0
  {
    text[p % |text|]
  }

  /** A stream reads the text from its start to its end, and then over again. */
  lemma {:induction false} CharAtExact(text: seq<byte>, p: nat)
    requires |text| > 0
    ensures p < |text| ==> CharAt(text, p) == text[p]
    ensures CharAt(text, p + |text|) == CharAt(text, p)
  {
    ModStep(p, |text|);
  }

  /** Where cell `c` of row `r` is, with rows of `width` cells. */
  function At(r: nat, c: nat, width: nat): nat { r * width + c }

  lemma {:induction false} RowsApart(r: nat, q: nat, width: nat)
    requires r < q
    ensures r * width + width <= q * width
  {
    assert (q - r) * width == q * width - r * width;
    assert (q - r - 1) * width >= 0;
  }

  lemma {:induction false} AtDiffers(r: nat, c: nat, q: nat, d: nat, width: nat)
    requires c < width && d < width && At(r, c, width) == At(q, d, width)
    ensures r == q && c == d
  {
    if r < q { RowsApart(r, q, width); }
    if q < r { RowsApart(q, r, width); }
  }

  lemma {:induction false} AtInside(r: nat, c: nat, rows: nat, width: nat)
    requires r < rows && c < width
    ensures At(r, c, width) < rows * width
  {
    assert (r + 1) * width <= rows * width;
    assert (r + 1) * width == r * width + width;
  }

  /** Row `r` is one-hot at `ch`; a row not written yet has `ch` -1. */
  ghost predicate Row(x: seq<int>, r: nat, width: nat, ch: int) {
    forall c: nat :: c < width ==> At(r, c, width) < |x| && x[At(r, c, width)] == if c == ch then 1 else 0
  }

  lemma {:induction false} RowWritten(x: seq<int>, r: nat, rows: nat, width: nat, ch: nat)
    requires r < rows && ch < width && |x| == rows * width && Row(x, r, width, -1)
    ensures At(r, ch, width) < |x| && Row(x[At(r, ch, width) := 1], r, width, ch)
  {
    AtInside(r, ch, rows, width);
    hide At;
    forall c: nat | c < width ensures x[At(r, ch, width) := 1][At(r, c, width)] == if c == ch then 1 else 0 {
      if At(r, c, width) == At(r, ch, width) { AtDiffers(r, c, r, ch, width); }
    }
  }

  lemma {:induction false} RowKept(x: seq<int>, r: nat, q: nat, rows: nat, width: nat, ch: nat, was: int)
    requires r < rows && q < rows && r != q && ch < width && |x| == rows * width && Row(x, q, width, was)
    ensures At(r, ch, width) < |x| && Row(x[At(r, ch, width) := 1], q, width, was)
  {
    AtInside(r, ch, rows, width);
    hide At;
    forall c: nat | c < width ensures x[At(r, ch, width) := 1][At(q, c, width)] == if c == was then 1 else 0 {
      if At(q, c, width) == At(r, ch, width) { AtDiffers(q, c, r, ch, width); }
    }
  }

  /** Stream `i` has got to step `j`. */
  predicate Past(i: nat, j: nat, streams: nat, steps: nat) { i < streams || (i == streams && j < steps) }

  /** The matrix while stream `i` is at step `j`: row `j' * batch + i'` is one-hot at the character of stream i' at
      step j', or still zero. */
  ghost predicate RowsAt(x: seq<int>, text: seq<byte>, starts: seq<nat>, steps: nat, width: nat, i: nat, j: nat)
    requires |text| > 0
  {
    forall p: nat, q: nat :: p < |starts| && q < steps ==>
      Row(x, At(q, p, |starts|), width, if Past(p, q, i, j) then CharAt(text, starts[p] + q) else -1)
  }

  lemma {:induction false} RowsNext(x: seq<int>, text: seq<byte>, starts: seq<nat>, steps: nat, width: nat, i: nat,
                                    j: nat)
    requires |text| > 0 && i < |starts| && j < steps && |x| == (steps * |starts|) * width
    requires CharAt(text, starts[i] + j) < width && RowsAt(x, text, starts, steps, width, i, j)
    ensures var k := At(At(j, i, |starts|), CharAt(text, starts[i] + j), width);
            k < |x| && RowsAt(x[k := 1], text, starts, steps, width, i, j + 1)
  {
    var r, ch := At(j, i, |starts|), CharAt(text, starts[i] + j);
    AtInside(j, i, steps, |starts|);
    RowWritten(x, r, steps * |starts|, width, ch);
    var x' := x[At(r, ch, width) := 1];
    hide At, Row, CharAt;
    forall p: nat, q: nat | p < |starts| && q < steps
      ensures Row(x', At(q, p, |starts|), width, if Past(p, q, i, j + 1) then CharAt(text, starts[p] + q) else -1)
    {
      if p != i || q != j {
        var was := if Past(p, q, i, j) then CharAt(text, starts[p] + q) as int else -1;
        assert Past(p, q, i, j + 1) == Past(p, q, i, j);
        if At(q, p, |starts|) == r { AtDiffers(q, p, j, i, |starts|); assert false; }
        AtInside(q, p, steps, |starts|);
        RowKept(x, r, At(q, p, |starts|), steps * |starts|, width, ch, was);
      }
    }
  }

  /** A finished matrix, cell by cell: in the row of stream `p` at step `q`, the cell of the stream's character holds 1,
      and the others hold 0. */
  lemma {:induction false} RowsMean(x: seq<int>, text: seq<byte>, starts: seq<nat>, steps: nat, width: nat, p: nat,
                                    q: nat, c: nat)
    requires |text| > 0 && RowsAt(x, text, starts, steps, width, |starts|, 0)
    requires p < |starts| && q < steps && c < width
    ensures var k := (q * |starts| + p) * width + c;
            k < |x| && (starts[p] + q < |text| ==> x[k] == if text[starts[p] + q] == c then 1 else 0)
  {
    assert Row(x, At(q, p, |starts|), width, CharAt(text, starts[p] + q));
    var k := At(At(q, p, |starts|), c, width);
    CharAtExact(text, starts[p] + q);
  }

  lemma {:induction false} NextStream(x: seq<int>, text: seq<byte>, starts: seq<nat>, steps: nat, width: nat, i: nat)
    requires |text| > 0 && RowsAt(x, text, starts, steps, width, i, steps)
    ensures RowsAt(x, text, starts, steps, width, i + 1, 0)
  {
    hide Row, CharAt, At;
    forall p: nat, q: nat | p < |starts| && q < steps
      ensures Row(x, At(q, p, |starts|), width, if Past(p, q, i + 1, 0) then CharAt(text, starts[p] + q) else -1)
    {
      assert Past(p, q, i + 1, 0) == Past(p, q, i, steps);
    }
  }

  lemma {:induction false} NoRows(x: seq<int>, text: seq<byte>, starts: seq<nat>, steps: nat, width: nat)
    requires |text| > 0 && |x| == (steps * |starts|) * width && forall k :: 0 <= k < |x| ==> x[k] == 0
    ensures RowsAt(x, text, starts, steps, width, 0, 0)
  {
    forall p: nat, q: nat | p < |starts| && q < steps ensures Row(x, At(q, p, |starts|), width, -1) {
      AtInside(q, p, steps, |starts|);
      hide At;
      forall c: nat | c < width ensures At(At(q, p, |starts|), c, width) < |x| {
        AtInside(At(q, p, |starts|), c, steps * |starts|, width);
      }
    }
  }

  lemma {:induction false} ModOnce(a: nat, n: nat)
    requires n > 0
    ensures (a % n) % n == a % n && (a % n + 1) % n == (a + 1) % n
    decreases a
  {
    if a >= n {
      ModOnce(a - n, n);
      ModStep(a - n, n);
      ModStep(a - n + 1, n);
    }
  }

  lemma {:induction false} ModStep(a: nat, n: nat)
    requires n > 0
    ensures (a + n) % n == a % n
  {
    var d := (a + n) / n - a / n - 1;
    assert a == a / n * n + a % n && a + n == (a + n) / n * n + (a + n) % n;
    assert d * n == a % n - (a + n) % n by {
      assert d * n == (a + n) / n * n - a / n * n - n;
    }
    MultipleGrows(d, n);
  }

  lemma {:induction false} MultipleGrows(d: int, n: nat)
    ensures d >= 1 ==> d * n >= n
    ensures d <= -1 ==> d * n + n <= 0
  {
    if d >= 1 { assert (d - 1) * n >= 0; }
    if d <= -1 { assert (-d - 1) * n >= 0; }
  }

  /** A zero character makes the program stop with an error. */
  predicate Bad(text: seq<byte>, p: nat)
    requires |text| > 0
  {
    CharAt(text, p) == 0 || CharAt(text, p + 1) == 0
  }

  predicate BadWithin(text: seq<byte>, starts: seq<nat>, steps: nat, i: nat, j: nat)
    requires |text| > 0
  {
    exists p: nat, q: nat :: p < |starts| && q < steps && Past(p, q, i, j) && Bad(text, starts[p] + q)
  }

  lemma {:induction false} BadNext(text: seq<byte>, starts: seq<nat>, steps: nat, i: nat, j: nat)
    requires |text| > 0 && i < |starts| && j < steps
    ensures BadWithin(text, starts, steps, i, j + 1) <==>
              BadWithin(text, starts, steps, i, j) || Bad(text, starts[i] + j)
    ensures Bad(text, starts[i] + j) ==> BadWithin(text, starts, steps, |starts|, 0)
  {
    hide Bad;
    if BadWithin(text, starts, steps, i, j) {
      var p: nat, q: nat :| p < |starts| && q < steps && Past(p, q, i, j) && Bad(text, starts[p] + q);
      assert Past(p, q, i, j + 1);
      assert BadWithin(text, starts, steps, i, j + 1);
    }
    if Bad(text, starts[i] + j) {
      assert Past(i, j, i, j + 1) && Past(i, j, |starts|, 0);
    }
    if BadWithin(text, starts, steps, i, j + 1) && !Bad(text, starts[i] + j) {
      var p: nat, q: nat :| p < |starts| && q < steps && Past(p, q, i, j + 1) && Bad(text, starts[p] + q);
      assert Past(p, q, i, j);
    }
  }

  predicate ZeroAt(text: seq<byte>, start: nat, q: nat)
    requires |text| > 0
  {
    text[(start + q) % |text|] == 0
  }

  /** A call ends with an error exactly when some stream meets a zero character in its steps, or right after them. */
  lemma {:induction false} BadExactly(text: seq<byte>, starts: seq<nat>, steps: nat)
    requires |text| > 0 && steps > 0
    ensures BadWithin(text, starts, steps, |starts|, 0) <==>
              exists p: nat, q: nat :: p < |starts| && q <= steps && ZeroAt(text, starts[p], q)
  {
    if BadWithin(text, starts, steps, |starts|, 0) {
      var p: nat, q: nat :| p < |starts| && q < steps && Past(p, q, |starts|, 0) && Bad(text, starts[p] + q);
      assert ZeroAt(text, starts[p], q) || ZeroAt(text, starts[p], q + 1);
    }
    forall p: nat, q: nat | p < |starts| && q <= steps && ZeroAt(text, starts[p], q)
      ensures BadWithin(text, starts, steps, |starts|, 0)
    {
      var j: nat := if q < steps then q else q - 1;
      assert Past(p, j, |starts|, 0) && Bad(text, starts[p] + j);
    }
  }

  lemma {:induction false} BadStream(text: seq<byte>, starts: seq<nat>, steps: nat, i: nat)
    requires |text| > 0
    ensures BadWithin(text, starts, steps, i, steps) <==> BadWithin(text, starts, steps, i + 1, 0)
    ensures !BadWithin(text, starts, steps, 0, 0)
  {
    hide Bad;
    if BadWithin(text, starts, steps, i, steps) {
      var p: nat, q: nat :| p < |starts| && q < steps && Past(p, q, i, steps) && Bad(text, starts[p] + q);
      assert Past(p, q, i + 1, 0);
    }
    if BadWithin(text, starts, steps, i + 1, 0) {
      var p: nat, q: nat :| p < |starts| && q < steps && Past(p, q, i + 1, 0) && Bad(text, starts[p] + q);
      assert Past(p, q, i, steps);
    }
  }

  /** Every byte that is read, and the one after, fits the width of a row. */
  predicate ReadsBelow(text: seq<byte>, starts: seq<nat>, steps: nat, width: nat)
    requires |text| > 0
  {
    steps > 0 ==> forall p, q: nat :: 0 <= p < |starts| && q <= steps ==> BelowAt(text, starts[p], q, width)
  }

  predicate BelowAt(text: seq<byte>, start: nat, q: nat, width: nat)
    requires |text| > 0
  {
    CharAt(text, start + q) < width
  }

  /** A byte that does not fit is written into a following row, or past the last one. */
  lemma {:induction false} WideByte(r: nat, ch: nat, rows: nat, width: nat)
    requires r < rows && 0 < width <= ch
    ensures At(r, ch, width) == At(r + ch / width, ch % width, width) && ch / width >= 1
    ensures At(r, ch, width) >= rows * width <==> r + ch / width >= rows
  {
    var q := ch / width;
    assert ch == q * width + ch % width;
    assert (r + q) * width == r * width + q * width;
    if r + q >= rows { TimesGrows(rows, r + q, width); } else { TimesGrows(r + q + 1, rows, width); }
    assert (r + q + 1) * width == (r + q) * width + width;
  }

  lemma {:induction false} TimesGrows(a: nat, b: nat, width: nat)
    requires a <= b
    ensures a * width <= b * width
  {
    assert (b - a) * width >= 0;
    assert (b - a) * width == b * width - a * width;
  }

  /** One step of one stream: two cells are set, and the offset moves on. */
  method Emit(text: seq<byte>, offsets: array<nat>, i: nat, x: array<int>, y: array<int>, row: nat,
              characters: nat) returns (bad: bool)
    requires |text| > 0 && i < offsets.Length && x != y
    requires At(row, CharAt(text, offsets[i]), characters) < x.Length &&
             At(row, CharAt(text, offsets[i] + 1), characters) < y.Length
    modifies offsets, x, y
    ensures x[..] == old(x[..])[At(row, CharAt(text, old(offsets[i])), characters) := 1]
    ensures y[..] == old(y[..])[At(row, CharAt(text, old(offsets[i]) + 1), characters) := 1]
    ensures offsets[i] == (old(offsets[i]) + 1) % |text| && forall k :: 0 <= k < offsets.Length && k != i ==>
              offsets[k] == old(offsets[k])
    ensures bad <==> Bad(text, old(offsets[i]))
  {
    var curr := text[offsets[i] % |text|];
    var next := text[(offsets[i] + 1) % |text|];
    x[At(row, curr, characters)] := 1;
    y[At(row, next, characters)] := 1;
    offsets[i] := (offsets[i] + 1) % |text|;
    bad := curr > 255 || curr <= 0 || next > 255 || next <= 0;
  }

  /** All steps of one stream. */
  method EmitStream(text: seq<byte>, offsets: array<nat>, i: nat, x: array<int>, y: array<int>, characters: nat,
                    steps: nat, ghost starts: seq<nat>) returns (bad: bool)
    requires |text| > 0 && i < offsets.Length == |starts| && offsets[i] == starts[i] && x != y
    requires x.Length == y.Length == steps * |starts| * characters && ReadsBelow(text, starts, steps, characters)
    requires RowsAt(x[..], text, starts, steps, characters, i, 0) &&
             RowsAt(y[..], text, Shifted(starts, 1), steps, characters, i, 0)
    requires !BadWithin(text, starts, steps, i, 0)
    modifies offsets, x, y
    ensures !bad ==> RowsAt(x[..], text, starts, steps, characters, i + 1, 0)
    ensures !bad ==> RowsAt(y[..], text, Shifted(starts, 1), steps, characters, i + 1, 0)
    ensures if bad then BadWithin(text, starts, steps, |starts|, 0) else !BadWithin(text, starts, steps, i + 1, 0)
    ensures !bad ==> offsets[i] == Advanced(starts[i], steps, |text|)
    ensures forall k :: 0 <= k < offsets.Length && k != i ==> offsets[k] == old(offsets[k])
  {
    ghost var starts1 := Shifted(starts, 1);
    hide RowsAt, CharAt, BadWithin, Past, Bad, At;
    bad := false;
    var j := 0;
    while j < steps
      invariant 0 <= j <= steps && !bad && offsets[i] == Advanced(starts[i], j, |text|)
      invariant RowsAt(x[..], text, starts, steps, characters, i, j) &&
                RowsAt(y[..], text, starts1, steps, characters, i, j)
      invariant !BadWithin(text, starts, steps, i, j)
      invariant forall k :: 0 <= k < offsets.Length && k != i ==> offsets[k] == old(offsets[k])
    {
      ReadsAhead(text, starts[i], j);
      BadNext(text, starts, steps, i, j);
      assert BelowAt(text, starts[i], j, characters) && BelowAt(text, starts[i], j + 1, characters);
      RowsNext(x[..], text, starts, steps, characters, i, j);
      RowsNext(y[..], text, starts1, steps, characters, i, j);
      bad := Emit(text, offsets, i, x, y, At(j, i, offsets.Length), characters);
      if bad { return; }
      j := j + 1;
    }
    BadStream(text, starts, steps, i);
    NextStream(x[..], text, starts, steps, characters, i);
    NextStream(y[..], text, starts1, steps, characters, i);
  }

  /** Every stream's rows are one-hot at its characters, `y` one character ahead of `x`, and the offsets move on. */
  method GetRnnData(text: seq<byte>, offsets: array<nat>, characters: nat, batch: nat, steps: nat)
    returns (bad: bool, x: array<int>, y: array<int>)
    requires |text| > 0 && batch == offsets.Length && ReadsBelow(text, offsets[..], steps, characters)
    modifies offsets
    ensures fresh(x) && fresh(y) && x != y
    ensures bad <==> BadWithin(text, old(offsets[..]), steps, batch, 0)
    ensures !bad ==> RowsAt(x[..], text, old(offsets[..]), steps, characters, batch, 0)
    ensures !bad ==> RowsAt(y[..], text, Shifted(old(offsets[..]), 1), steps, characters, batch, 0)
    ensures !bad ==> forall i :: 0 <= i < batch ==> offsets[i] == Advanced(old(offsets[i]), steps, |text|)
  {
    ghost var starts := offsets[..];
    ghost var starts1 := Shifted(starts, 1);
    bad := false;
    x := new int[steps * batch * characters](_ => 0);
    y := new int[steps * batch * characters](_ => 0);
    NoRows(x[..], text, starts, steps, characters);
    NoRows(y[..], text, starts1, steps, characters);
    BadStream(text, starts, steps, 0);
    hide RowsAt, CharAt, BadWithin, Past;
    var i := 0;
    while i < batch
      invariant 0 <= i <= batch && !bad && x.Length == y.Length == steps * |starts| * characters
      invariant RowsAt(x[..], text, starts, steps, characters, i, 0) &&
                RowsAt(y[..], text, starts1, steps, characters, i, 0)
      invariant !BadWithin(text, starts, steps, i, 0)
      invariant forall k :: 0 <= k < batch ==>
                  offsets[k] == if k < i then Advanced(starts[k], steps, |text|) else starts[k]
    {
      bad := EmitStream(text, offsets, i, x, y, characters, steps, starts);
      if bad { return; }
      i := i + 1;
    }
  }

  function Shifted(starts: seq<nat>, k: nat): (s: seq<nat>)
    ensures |s| == |starts|
  {
    seq(|starts|, i requires 0 <= i < |starts| => starts[i] + k)
  }

  /** An offset after `j` steps; it is reduced from the first step on. */
  function Advanced(start: nat, j: nat, len: nat): nat
    requires len > 0
  {
    if j == 0 then start else (start + j) % len
  }

  lemma {:induction false} ReadsAhead(text: seq<byte>, start: nat, j: nat)
    requires |text| > 0
    ensures var o := Advanced(start, j, |text|);
            && CharAt(text, o) == CharAt(text, start + j) && CharAt(text, o + 1) == CharAt(text, start + j + 1)
            && (o + 1) % |text| == Advanced(start, j + 1, |text|)
  {
    ModOnce(start + j, |text|);
  }

  /** The next call continues each stream where this one stopped. */
  lemma {:induction false} StreamContinues(text: seq<byte>, start: nat, steps: nat, q: nat)
    requires |text| > 0
    ensures CharAt(text, Advanced(start, steps, |text|) + q) == CharAt(text, start + steps + q)
  {
    ModAdd(start + steps, q, |text|);
  }

  lemma {:induction false} ModAdd(a: nat, q: nat, n: nat)
    requires n > 0
    ensures (a % n + q) % n == (a + q) % n
  {
    if q == 0 {
      ModOnce(a, n);
    } else {
      ModAdd(a, q - 1, n);
      ModOnce(a % n + (q - 1), n);
      ModOnce(a + (q - 1), n);
    }
  }

  /** Two lists of stream positions that read the same characters from now on. */
  ghost predicate SameStreams(text: seq<byte>, a: seq<nat>, b: seq<nat>)
    requires |text| > 0
  {
    |a| == |b| && forall i, q: nat :: 0 <= i < |a| ==> SameAt(text, a[i], b[i], q)
  }

  predicate SameAt(text: seq<byte>, a: nat, b: nat, q: nat)
    requires |text| > 0
  {
    CharAt(text, a + q) == CharAt(text, b + q)
  }

  lemma {:induction false} SameRows(x: seq<int>, text: seq<byte>, a: seq<nat>, b: seq<nat>, steps: nat, width: nat)
    requires |text| > 0 && SameStreams(text, a, b) && RowsAt(x, text, a, steps, width, |a|, 0)
    ensures RowsAt(x, text, b, steps, width, |b|, 0)
  {
    hide Row, CharAt, At;
    forall p: nat, q: nat | p < |b| && q < steps
      ensures Row(x, At(q, p, |b|), width, if Past(p, q, |b|, 0) then CharAt(text, b[p] + q) else -1)
    {
      assert SameAt(text, a[p], b[p], q);
    }
  }

  lemma {:induction false} SameBad(text: seq<byte>, a: seq<nat>, b: seq<nat>, steps: nat)
    requires |text| > 0 && SameStreams(text, a, b) && BadWithin(text, a, steps, |a|, 0)
    ensures BadWithin(text, b, steps, |b|, 0)
  {
    hide CharAt;
    var p: nat, q: nat :| p < |a| && q < steps && Past(p, q, |a|, 0) && Bad(text, a[p] + q);
    assert SameAt(text, a[p], b[p], q) && SameAt(text, a[p], b[p], q + 1);
    assert a[p] + q + 1 == a[p] + (q + 1) && b[p] + q + 1 == b[p] + (q + 1);
    assert Bad(text, b[p] + q);
  }

  lemma {:induction false} SameShifted(text: seq<byte>, a: seq<nat>, b: seq<nat>, k: nat)
    requires |text| > 0 && SameStreams(text, a, b)
    ensures SameStreams(text, Shifted(a, k), Shifted(b, k)) && SameStreams(text, b, a)
  {
    hide CharAt;
    forall i, q: nat | 0 <= i < |a| ensures SameAt(text, b[i], a[i], q) { assert SameAt(text, a[i], b[i], q); }
    var a', b' := Shifted(a, k), Shifted(b, k);
    forall i, q: nat | 0 <= i < |a| ensures SameAt(text, a'[i], b'[i], q) {
      assert SameAt(text, a[i], b[i], k + q);
      assert Shifted(a, k)[i] + q == a[i] + (k + q) && Shifted(b, k)[i] + q == b[i] + (k + q);
    }
  }

  /** The offsets after a batch read on where the batch ends. */
  lemma {:induction false} AdvancedStreams(text: seq<byte>, a: seq<nat>, b: seq<nat>, steps: nat, after: seq<nat>)
    requires |text| > 0 && SameStreams(text, a, b) && |after| == |a|
    requires forall i :: 0 <= i < |a| ==> after[i] == Advanced(a[i], steps, |text|)
    ensures SameStreams(text, after, Shifted(b, steps))
  {
    hide CharAt, Advanced;
    var b' := Shifted(b, steps);
    forall i, q: nat | 0 <= i < |a| ensures SameAt(text, after[i], b'[i], q) {
      StreamContinues(text, a[i], steps, q);
      assert SameAt(text, a[i], b[i], steps + q);
      assert a[i] + steps + q == a[i] + (steps + q) && b[i] + steps + q == b[i] + (steps + q);
    }
  }

  /** Where the streams are before batch `k`. */
  function StartsOf(starts: seq<nat>, steps: nat, k: nat): seq<nat> { Shifted(starts, k * steps) }

  lemma {:induction false} NextStarts(starts: seq<nat>, steps: nat, k: nat)
    ensures Shifted(StartsOf(starts, steps, k), steps) == StartsOf(starts, steps, k + 1)
    ensures StartsOf(starts, steps, 0) == starts
  {
    assert (k + 1) * steps == k * steps + steps;
  }

  /** One call after `k` others. */
  method NextBatch(text: seq<byte>, offsets: array<nat>, characters: nat, batch: nat, steps: nat,
                   ghost starts: seq<nat>, ghost k: nat)
    returns (bad: bool, x: seq<int>, y: seq<int>)
    requires |text| > 0 && batch == offsets.Length == |starts| &&
             ReadsBelow(text, StartsOf(starts, steps, k), steps, characters)
    requires SameStreams(text, offsets[..], StartsOf(starts, steps, k))
    modifies offsets
    ensures bad <==> BadWithin(text, StartsOf(starts, steps, k), steps, batch, 0)
    ensures !bad ==> RowsAt(x, text, StartsOf(starts, steps, k), steps, characters, batch, 0)
    ensures !bad ==> RowsAt(y, text, Shifted(StartsOf(starts, steps, k), 1), steps, characters, batch, 0)
    ensures !bad ==> SameStreams(text, offsets[..], StartsOf(starts, steps, k + 1))
  {
    hide SameStreams, RowsAt, CharAt, BadWithin, Advanced, StartsOf, ReadsBelow;
    ghost var a, b := offsets[..], StartsOf(starts, steps, k);
    SameShifted(text, a, b, 1);
    SameSize(text, a, b);
    SameBelow(text, a, b, steps, characters);
    var xs, ys;
    bad, xs, ys := GetRnnData(text, offsets, characters, batch, steps);
    x, y := xs[..], ys[..];
    if bad { SameBad(text, a, b, steps); return; }
    if BadWithin(text, b, steps, batch, 0) { SameBad(text, b, a, steps); }
    SameRows(x, text, a, b, steps, characters);
    SameRows(y, text, Shifted(a, 1), Shifted(b, 1), steps, characters);
    AdvancedStreams(text, a, b, steps, offsets[..]);
    NextStarts(starts, steps, k);
  }

  lemma {:induction false} SameBelow(text: seq<byte>, a: seq<nat>, b: seq<nat>, steps: nat, width: nat)
    requires |text| > 0 && SameStreams(text, a, b) && ReadsBelow(text, b, steps, width)
    ensures ReadsBelow(text, a, steps, width)
  {
    hide CharAt;
    forall p, q: nat | 0 <= p < |a| && q <= steps && steps > 0 ensures BelowAt(text, a[p], q, width) {
      assert SameAt(text, a[p], b[p], q) && BelowAt(text, b[p], q, width);
    }
  }

  lemma {:induction false} SameSize(text: seq<byte>, a: seq<nat>, b: seq<nat>)
    requires |text| > 0 && SameStreams(text, a, b)
    ensures |a| == |b|
  {}

  /** Batch `k` replays the text from k * steps characters after each stream's start. */
  ghost predicate Replays(text: seq<byte>, starts: seq<nat>, steps: nat, width: nat, k: nat, x: seq<int>, y: seq<int>)
    requires |text| > 0
  {
    var a := StartsOf(starts, steps, k);
    && !BadWithin(text, a, steps, |a|, 0)
    && RowsAt(x, text, a, steps, width, |a|, 0) && RowsAt(y, text, Shifted(a, 1), steps, width, |a|, 0)
  }

  /** `n` successive calls, as the training loop makes them between two resets of its streams, up to a zero
      character. */
  method Batches(text: seq<byte>, offsets: array<nat>, characters: nat, batch: nat, steps: nat, n: nat)
    returns (bad: bool, xs: seq<seq<int>>, ys: seq<seq<int>>)
    requires |text| > 0 && batch == offsets.Length
    requires forall k :: 0 <= k < n ==> ReadsBelow(text, StartsOf(offsets[..], steps, k), steps, characters)
    modifies offsets
    ensures |xs| == |ys| <= n && (bad <==> |xs| < n)
    ensures bad ==> BadWithin(text, StartsOf(old(offsets[..]), steps, |xs|), steps, batch, 0)
    ensures forall k :: 0 <= k < |xs| ==> Replays(text, old(offsets[..]), steps, characters, k, xs[k], ys[k])
  {
    ghost var starts := offsets[..];
    bad, xs, ys := false, [], [];
    NextStarts(starts, steps, 0);
    SelfSame(text, starts);
    hide RowsAt, CharAt, BadWithin, Replays, SameStreams, ReadsBelow;
    for k := 0 to n
      invariant |xs| == |ys| == k && !bad && SameStreams(text, offsets[..], StartsOf(starts, steps, k))
      invariant forall i :: 0 <= i < k ==> Replays(text, starts, steps, characters, i, xs[i], ys[i])
    {
      var x, y;
      bad, x, y := NextBatch(text, offsets, characters, batch, steps, starts, k);
      if bad { return; }
      IsReplay(text, starts, steps, characters, k, x, y);
      xs, ys := xs + [x], ys + [y];
    }
  }

  lemma {:induction false} SelfSame(text: seq<byte>, a: seq<nat>)
    requires |text| > 0
    ensures SameStreams(text, a, a)
  {}

  lemma {:induction false} IsReplay(text: seq<byte>, starts: seq<nat>, steps: nat, width: nat, k: nat, x: seq<int>,
                                    y: seq<int>)
    requires |text| > 0
    ensures var a := StartsOf(starts, steps, k);
            (!BadWithin(text, a, steps, |starts|, 0) && RowsAt(x, text, a, steps, width, |starts|, 0) &&
             RowsAt(y, text, Shifted(a, 1), steps, width, |starts|, 0)) ==> Replays(text, starts, steps, width, k, x, y)
  {
    hide RowsAt, BadWithin;
  }

  /** What `y` holds at a step is what `x` holds at the next. */
  lemma {:induction false} TargetIsNextInput(text: seq<byte>, starts: seq<nat>, steps: nat, width: nat, x: seq<int>,
                                             y: seq<int>, p: nat, q: nat, c: nat)
    requires |text| > 0 && p < |starts| && q + 1 < steps && c < width
    requires RowsAt(x, text, starts, steps, width, |starts|, 0) &&
             RowsAt(y, text, Shifted(starts, 1), steps, width, |starts|, 0)
    ensures At(At(q, p, |starts|), c, width) < |y| && At(At(q + 1, p, |starts|), c, width) < |x|
    ensures y[At(At(q, p, |starts|), c, width)] == x[At(At(q + 1, p, |starts|), c, width)]
  {
    assert Row(y, At(q, p, |starts|), width, CharAt(text, starts[p] + 1 + q));
    assert Row(x, At(q + 1, p, |starts|), width, CharAt(text, starts[p] + (q + 1)));
  }

  /** What `y` holds at the last step of a batch is what `x` holds at the first step of the next. */
  lemma {:induction false} LastTargetIsNextBatch(text: seq<byte>, starts: seq<nat>, steps: nat, width: nat, k: nat,
                                                 x0: seq<int>, y0: seq<int>, x1: seq<int>, y1: seq<int>, p: nat, c: nat)
    requires |text| > 0 && p < |starts| && steps > 0 && c < width
    requires Replays(text, starts, steps, width, k, x0, y0) && Replays(text, starts, steps, width, k + 1, x1, y1)
    ensures At(At(steps - 1, p, |starts|), c, width) < |y0| && At(At(0, p, |starts|), c, width) < |x1|
    ensures y0[At(At(steps - 1, p, |starts|), c, width)] == x1[At(At(0, p, |starts|), c, width)]
  {
    NextStarts(starts, steps, k);
    var a, b := Shifted(StartsOf(starts, steps, k), 1), StartsOf(starts, steps, k + 1);
    assert a[p] + (steps - 1) == b[p] + 0;
    assert Row(y0, At(steps - 1, p, |a|), width, CharAt(text, a[p] + (steps - 1)));
    assert Row(x1, At(0, p, |b|), width, CharAt(text, b[p] + 0));
  }
}
