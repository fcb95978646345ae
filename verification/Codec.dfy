/** The packed game record: two bits a cell, four cells a byte, 91 bytes a board. */
module Codec {
  import opened Grid
  import opened Board

  predicate BitOf(c: bv8, n: nat)
    requires n < 8
  {
    (c >> n) & 1 == 1
  }

  function WithBit(c: bv8, k: nat): bv8
    requires k < 8
  {
    c | (1 << k)
  }

  lemma {:induction false} SetBit(c: bv8, k: nat, n: nat)
    requires k < 8 && n < 8
    ensures BitOf(WithBit(c, k), n) <==> n == k || BitOf(c, n)
  {
    match k
    case 0 => match n { case 0 => case 1 => case 2 => case 3 => case 4 => case 5 => case 6 => case 7 => }
    case 1 => match n { case 0 => case 1 => case 2 => case 3 => case 4 => case 5 => case 6 => case 7 => }
    case 2 => match n { case 0 => case 1 => case 2 => case 3 => case 4 => case 5 => case 6 => case 7 => }
    case 3 => match n { case 0 => case 1 => case 2 => case 3 => case 4 => case 5 => case 6 => case 7 => }
    case 4 => match n { case 0 => case 1 => case 2 => case 3 => case 4 => case 5 => case 6 => case 7 => }
    case 5 => match n { case 0 => case 1 => case 2 => case 3 => case 4 => case 5 => case 6 => case 7 => }
    case 6 => match n { case 0 => case 1 => case 2 => case 3 => case 4 => case 5 => case 6 => case 7 => }
    case 7 => match n { case 0 => case 1 => case 2 => case 3 => case 4 => case 5 => case 6 => case 7 => }
  }

  lemma {:induction false} SameBits(c: bv8, d: bv8)
    requires forall n :: 0 <= n < 8 ==> BitOf(c, n) == BitOf(d, n)
    ensures c == d
  {
    assert BitOf(c, 0) == BitOf(d, 0) && BitOf(c, 1) == BitOf(d, 1) && BitOf(c, 2) == BitOf(d, 2) &&
           BitOf(c, 3) == BitOf(d, 3);
    assert BitOf(c, 4) == BitOf(d, 4) && BitOf(c, 5) == BitOf(d, 5) && BitOf(c, 6) == BitOf(d, 6) &&
           BitOf(c, 7) == BitOf(d, 7);
  }

  predicate MeBit(s: seq<bv8>, k: nat)
    requires |s| == 91 && k < 364
  {
    BitOf(s[k / 4], 2 * (k % 4))
  }

  predicate YouBit(s: seq<bv8>, k: nat)
    requires |s| == 91 && k < 364
  {
    BitOf(s[k / 4], 2 * (k % 4) + 1)
  }

  /** Where the two bits of a cell are, by their weights in the byte: the first cell has 1 and 2, the next 4 and 8, then
      16 and 32, and the last 64 and 128. */
  lemma {:induction false} CellBits(s: seq<bv8>, i: nat)
    requires |s| == 91 && i < 91
    ensures (MeBit(s, 4 * i) <==> s[i] & 1 != 0) && (YouBit(s, 4 * i) <==> s[i] & 2 != 0)
    ensures (MeBit(s, 4 * i + 1) <==> s[i] & 4 != 0) && (YouBit(s, 4 * i + 1) <==> s[i] & 8 != 0)
    ensures (MeBit(s, 4 * i + 2) <==> s[i] & 16 != 0) && (YouBit(s, 4 * i + 2) <==> s[i] & 32 != 0)
    ensures (MeBit(s, 4 * i + 3) <==> s[i] & 64 != 0) && (YouBit(s, 4 * i + 3) <==> s[i] & 128 != 0)
  {
    var c := s[i];
    assert (BitOf(c, 0) <==> c & 1 != 0) && (BitOf(c, 1) <==> c & 2 != 0) && (BitOf(c, 2) <==> c & 4 != 0);
    assert (BitOf(c, 3) <==> c & 8 != 0) && (BitOf(c, 4) <==> c & 16 != 0) && (BitOf(c, 5) <==> c & 32 != 0);
    assert (BitOf(c, 6) <==> c & 64 != 0) && (BitOf(c, 7) <==> c & 128 != 0);
    hide BitOf;
    FourthsOf(i);
  }

  lemma {:induction false} FourthsOf(i: nat)
    ensures 4 * i / 4 == (4 * i + 1) / 4 == (4 * i + 2) / 4 == (4 * i + 3) / 4 == i
    ensures 4 * i % 4 == 0 && (4 * i + 1) % 4 == 1 && (4 * i + 2) % 4 == 2 && (4 * i + 3) % 4 == 3
  {}

  /** What cell `k` of a board adds to its byte. */
  function Share(b: Position, k: nat, me: bv8, you: bv8): bv8 {
    if k >= 361 then 0 else (if b[k] == 1 then me else 0) | (if b[k + 361] == 1 then you else 0)
  }

  /** Each byte of an encoded board, from its four cells. */
  lemma {:induction false} EncodedByte(s: seq<bv8>, b: Position, i: nat)
    requires Encodes(s, b) && i < 91
    ensures s[i] == Share(b, 4 * i, 1, 2) | Share(b, 4 * i + 1, 4, 8) | Share(b, 4 * i + 2, 16, 32) |
                    Share(b, 4 * i + 3, 64, 128)
  {
    CellBits(s, i);
    hide MeBit, YouBit;
  }

  /** The board once the first `n` cells of a record are decoded over blank stone planes;
      a cell with both bits set goes to the first plane. */
  function DecodedUpTo(s: seq<bv8>, b: Position, n: nat): Position
    requires |s| == 91
  {
    seq(1083, k requires 0 <= k < 1083 =>
      if k < 361 then (if k < n && MeBit(s, k) then 1 else 0)
      else if k < 722 then (if k - 361 < n && YouBit(s, k - 361) && !MeBit(s, k - 361) then 1 else 0)
      else b[k])
  }

  function Decoded(s: seq<bv8>, b: Position): Position
    requires |s| == 91
  {
    DecodedUpTo(s, b, 361)
  }

  lemma {:induction false} DecodeCell(s: seq<bv8>, b: Position, n: nat)
    requires |s| == 91 && n < 361
    ensures DecodedUpTo(s, b, n + 1) ==
            if MeBit(s, n) then DecodedUpTo(s, b, n)[n := 1]
            else if YouBit(s, n) then DecodedUpTo(s, b, n)[n + 361 := 1]
            else DecodedUpTo(s, b, n)
  {
    hide MeBit, YouBit;
  }

  /** `s` holds the two bits of each of the first `n` cells of `b` and zeros after them. */
  predicate EncodesUpTo(s: seq<bv8>, b: Position, n: nat) {
    && |s| == 91
    && (forall k :: 0 <= k < 361 && k < n ==> MeBit(s, k) == (b[k] == 1) && YouBit(s, k) == (b[k + 361] == 1))
    && (forall k :: 0 <= k < 364 && n <= k ==> !MeBit(s, k) && !YouBit(s, k))
  }

  predicate Encodes(s: seq<bv8>, b: Position) { EncodesUpTo(s, b, 361) }

  method StringToBoard(s: array<bv8>, board: array<Bit>)
    requires s.Length == 91 && board.Length == 1083
    modifies board
    ensures board[..] == Decoded(s[..], old(board[..]))
  {
    ghost var b0 := board[..];
    forall k | 0 <= k < 722 { board[k] := 0; }
    assert board[..] == DecodedUpTo(s[..], b0, 0);
    var count := 0;
    for i := 0 to 91
      invariant count == if i < 91 then 4 * i else 361
      invariant board[..] == DecodedUpTo(s[..], b0, count)
    {
      var c := s[i];
      for j := 0 to 4
        invariant count == 4 * i + j < 361
        invariant board[..] == DecodedUpTo(s[..], b0, count)
      {
        var me := (c >> (2 * j)) & 1;
        var you := (c >> (2 * j + 1)) & 1;
        assert count / 4 == i && count % 4 == j;
        DecodeCell(s[..], b0, count);
        if me == 1 { board[count] := 1; } else if you == 1 { board[count + 361] := 1; }
        count := count + 1;
        if count >= 361 { break; }
      }
    }
  }

  method BoardToString(s: array<bv8>, board: Position)
    requires s.Length == 91
    modifies s
    ensures Encodes(s[..], board)
  {
    forall k | 0 <= k < 91 { s[k] := 0; }
    ZeroEncodes(s[..], board);
    var count := 0;
    hide EncodesUpTo, BitOf, WithBit;
    for i := 0 to 91
      invariant count == if i < 91 then 4 * i else 361
      invariant EncodesUpTo(s[..], board, count)
    {
      for j := 0 to 4
        invariant count == 4 * i + j < 361
        invariant EncodesUpTo(s[..], board, count)
      {
        ghost var s0 := s[..];
        var me := board[count] == 1;
        var you := board[count + 361] == 1;
        if me { s[i] := WithBit(s[i], 2 * j); }
        if you { s[i] := WithBit(s[i], 2 * j + 1); }
        assert s[..] == s0[i := Packed(s0[i], me, you, j)];
        PackCell(s0, s[..], board, i, j);
        count := count + 1;
        if count >= 361 { break; }
      }
    }
  }

  lemma {:induction false} ZeroEncodes(s: seq<bv8>, b: Position)
    requires |s| == 91 && forall k :: 0 <= k < 91 ==> s[k] == 0
    ensures EncodesUpTo(s, b, 0)
  {
    assert forall n: nat :: n < 8 ==> !BitOf(0, n);
  }

  function Packed(c: bv8, me: bool, you: bool, j: nat): bv8
    requires j < 4
  {
    var c1 := if me then WithBit(c, 2 * j) else c;
    if you then WithBit(c1, 2 * j + 1) else c1
  }

  lemma {:induction false} PackedBits(c: bv8, me: bool, you: bool, j: nat, n: nat)
    requires j < 4 && n < 8 && !BitOf(c, 2 * j) && !BitOf(c, 2 * j + 1)
    ensures BitOf(Packed(c, me, you, j), n) <==>
            if n == 2 * j then me else if n == 2 * j + 1 then you else BitOf(c, n)
  {
    hide BitOf, WithBit;
    SetBit(c, 2 * j, n);
    SetBit(WithBit(c, 2 * j), 2 * j + 1, n);
    SetBit(c, 2 * j + 1, n);
  }

  lemma {:induction false} PackCell(s: seq<bv8>, s': seq<bv8>, b: Position, i: nat, j: nat)
    requires i < 91 && j < 4 && 4 * i + j < 361 && EncodesUpTo(s, b, 4 * i + j)
    requires s' == s[i := Packed(s[i], b[4 * i + j] == 1, b[4 * i + j + 361] == 1, j)]
    ensures EncodesUpTo(s', b, 4 * i + j + 1)
  {
    var count := 4 * i + j;
    var me, you := b[count] == 1, b[count + 361] == 1;
    assert !MeBit(s, count) && !YouBit(s, count) && count / 4 == i && count % 4 == j;
    forall k | 0 <= k < 364
      ensures MeBit(s', k) == if k == count then me else MeBit(s, k)
      ensures YouBit(s', k) == if k == count then you else YouBit(s, k)
    {
      if k / 4 == i {
        PackedBits(s[i], me, you, j, 2 * (k % 4));
        PackedBits(s[i], me, you, j, 2 * (k % 4) + 1);
      }
    }
  }

  /** Decoding an encoded board gives back the stone planes exactly when no cell is doubly occupied. */
  lemma {:induction false} DecodeEncode(s: seq<bv8>, b: Position, into: Position)
    requires Encodes(s, b)
    ensures Decoded(s, into)[..722] == b[..722] <==> NoDouble(b)
  {
    var d := Decoded(s, into);
    if NoDouble(b) {
      forall k | 0 <= k < 722 ensures d[k] == b[k] {
        if k >= 361 { assert YouBit(s, k - 361) == (b[(k - 361) + 361] == 1); }
      }
    }
    if i :| 0 <= i < 361 && b[i] == 1 && b[i + 361] == 1 {
      assert d[i + 361] == 0;
      assert d[..722][i + 361] != b[..722][i + 361];
    }
  }

  /** A record that some board could have produced: no cell with both bits, and zero padding bits. */
  predicate Canonical(s: seq<bv8>) {
    && |s| == 91
    && (forall k :: 0 <= k < 361 ==> !(MeBit(s, k) && YouBit(s, k)))
    && (forall k :: 361 <= k < 364 ==> !MeBit(s, k) && !YouBit(s, k))
  }

  /** Re-encoding a decoded record gives back the record exactly when it is canonical. */
  lemma {:induction false} EncodeDecode(s: seq<bv8>, into: Position, t: seq<bv8>)
    requires |s| == 91 && Encodes(t, Decoded(s, into))
    ensures t == s <==> Canonical(s)
  {
    var d := Decoded(s, into);
    forall k | 0 <= k < 361
      ensures MeBit(t, k) == MeBit(s, k) && YouBit(t, k) == (YouBit(s, k) && !MeBit(s, k))
    {
      assert d[k + 361] == if YouBit(s, k) && !MeBit(s, k) then 1 else 0;
    }
    if Canonical(s) {
      forall i | 0 <= i < 91 ensures t[i] == s[i] { SameByte(s, t, i); }
    }
  }

  lemma {:induction false} SameByte(s: seq<bv8>, t: seq<bv8>, i: nat)
    requires |s| == |t| == 91 && i < 91
    requires forall k :: 0 <= k < 364 ==> MeBit(t, k) == MeBit(s, k) && YouBit(t, k) == YouBit(s, k)
    ensures t[i] == s[i]
  {
    forall n | 0 <= n < 8 ensures BitOf(t[i], n) == BitOf(s[i], n) {
      var k := 4 * i + n / 2;
      assert k / 4 == i && k % 4 == n / 2;
      assert MeBit(t, k) == MeBit(s, k) && YouBit(t, k) == YouBit(s, k);
      assert n == 2 * (k % 4) || n == 2 * (k % 4) + 1;
    }
    SameBits(t[i], s[i]);
  }
}
