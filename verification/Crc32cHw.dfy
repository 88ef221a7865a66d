/** The hardware form: byte tables that apply a zero-run operator, and three registers run side
    by side over adjacent blocks and stitched together.

    `crc32b` and `crc32q` are the bitwise step over one byte and over eight bytes in memory
    order. */
module Crc32cHw {
  import opened Basics
  import opened Crc32c
  import opened Crc32cMatrix

  const LONG: nat := 8192
  const SHORT: nat := 256

  function ByteOf(n: nat): byte
    requires n < 256
  {
    n as bv8
  }

  lemma IndexIsByte(x: byte)
    ensures 0 <= x as int < 256 && ByteOf(x as int) == x
  {
  }

  /** Byte `x` at byte position `k` of a word. */
  function At(x: byte, k: nat): bv32
    requires k < 4
  {
    if k == 0 then x as bv32
    else if k == 1 then (x as bv32) << 8
    else if k == 2 then (x as bv32) << 16
    else (x as bv32) << 24
  }

  function ByteAt(c: bv32, k: nat): byte
    requires k < 4
  {
    if k == 0 then (c & 0xff) as bv8 else if k == 1 then ((c >> 8) & 0xff) as bv8
    else if k == 2 then ((c >> 16) & 0xff) as bv8 else (c >> 24) as bv8
  }

  lemma RawBytes(c: bv32)
    ensures c == (((c & 0xff) as bv8) as bv32 ^ (((((c >> 8) & 0xff) as bv8) as bv32) << 8))
               ^ ((((((c >> 16) & 0xff) as bv8) as bv32) << 16) ^ ((((c >> 24) as bv8) as bv32) << 24))
  {
  }

  lemma BytesPlaced(c: bv32)
    ensures At(ByteAt(c, 0), 0) == ((c & 0xff) as bv8) as bv32
    ensures At(ByteAt(c, 1), 1) == ((((c >> 8) & 0xff) as bv8) as bv32) << 8
    ensures At(ByteAt(c, 2), 2) == ((((c >> 16) & 0xff) as bv8) as bv32) << 16
    ensures At(ByteAt(c, 3), 3) == (((c >> 24) as bv8) as bv32) << 24
  {
  }

  lemma WordIsItsBytes(c: bv32)
    ensures c == Xor(Xor(At(ByteAt(c, 0), 0), At(ByteAt(c, 1), 1)), Xor(At(ByteAt(c, 2), 2), At(ByteAt(c, 3), 3)))
  {
    hide Xor, At, ByteAt;
    BytesPlaced(c);
    RawBytes(c);
    var a, b := ((c & 0xff) as bv8) as bv32, ((((c >> 8) & 0xff) as bv8) as bv32) << 8;
    var d, e := ((((c >> 16) & 0xff) as bv8) as bv32) << 16, (((c >> 24) as bv8) as bv32) << 24;
    XorIs(a, b);
    XorIs(d, e);
    XorIs(a ^ b, d ^ e);
  }

  /** Four tables that together run `k` zero bits, byte by byte. */
  ghost predicate Tables(zeros: array2<bv32>, k: nat)
    reads zeros
  {
    zeros.Length0 == 4 && zeros.Length1 == 256 &&
    forall x: byte, p :: 0 <= p < 4 ==> zeros[p, x as int] == Bits(At(x, p), k)
  }

  /** `crc32c_zeros`. */
  method Column(zeros: array2<bv32>, op: array<bv32>, n: nat, ghost k: nat)
    requires zeros.Length0 == 4 && zeros.Length1 == 256 && n < 256 && op.Length == 32 && Op(op[..], k)
    modifies zeros
    ensures forall p :: 0 <= p < 4 ==> zeros[p, n] == Bits(At(ByteOf(n), p), k)
    ensures forall j, p :: 0 <= j < 256 && j != n && 0 <= p < 4 ==> zeros[p, j] == old(zeros[p, j])
  {
    hide Bits, At, Op, ByteOf, Times;
    var x := ByteOf(n);
    var r0 := MatrixTimes(op, At(x, 0));
    var r1 := MatrixTimes(op, At(x, 1));
    var r2 := MatrixTimes(op, At(x, 2));
    var r3 := MatrixTimes(op, At(x, 3));
    TimesRuns(op[..], k, At(x, 0));
    TimesRuns(op[..], k, At(x, 1));
    TimesRuns(op[..], k, At(x, 2));
    TimesRuns(op[..], k, At(x, 3));
    zeros[0, n], zeros[1, n], zeros[2, n], zeros[3, n] := r0, r1, r2, r3;
  }

  method ZerosTables(len: nat) returns (zeros: array2<bv32>)
    ensures fresh(zeros) && Tables(zeros, 8 * PowerFloor(len))
  {
    hide Bits, At, PowerFloor, Op, ByteOf, Times;
    var op := new bv32[32];
    ZerosOp(op, len);
    ghost var k, rows := 8 * PowerFloor(len), op[..];
    zeros := new bv32[4, 256];
    for n := 0 to 256
      invariant op[..] == rows
      invariant forall j, p :: 0 <= j < n && 0 <= p < 4 ==> zeros[p, j] == Bits(At(ByteOf(j), p), k)
    {
      Column(zeros, op, n, k);
    }
    forall x: byte, p | 0 <= p < 4 ensures zeros[p, x as int] == Bits(At(x, p), k) {
      IndexIsByte(x);
    }
  }

  /** `crc32c_shift`: one look-up per byte runs the zeros over the whole word. */
  method Shift(zeros: array2<bv32>, crc: bv32, ghost k: nat) returns (r: bv32)
    requires Tables(zeros, k)
    ensures r == Bits(crc, k)
  {
    var b0, b1, b2, b3 := ByteAt(crc, 0), ByteAt(crc, 1), ByteAt(crc, 2), ByteAt(crc, 3);
    hide Bits, At, Xor, ByteAt;
    IndexIsByte(b0);
    IndexIsByte(b1);
    IndexIsByte(b2);
    IndexIsByte(b3);
    r := Xor(Xor(zeros[0, b0 as int], zeros[1, b1 as int]), Xor(zeros[2, b2 as int], zeros[3, b3 as int]));
    WordIsItsBytes(crc);
    BitsLinear(At(b0, 0), At(b1, 1), k);
    BitsLinear(At(b2, 2), At(b3, 3), k);
    BitsLinear(Xor(At(b0, 0), At(b1, 1)), Xor(At(b2, 2), At(b3, 3)), k);
  }

  // Feeding along a buffer

  lemma FeedMore(c: bv32, m: seq<byte>, i: nat, j: nat, k: nat)
    requires i <= j <= k <= |m|
    ensures Feed(c, m[i..k]) == Feed(Feed(c, m[i..j]), m[j..k])
  {
    assert m[i..k] == m[i..j] + m[j..k];
    FeedAppend(c, m[i..j], m[j..k]);
  }

  lemma FeedLast(c: bv32, m: seq<byte>, i: nat, j: nat)
    requires i <= j < |m|
    ensures Feed(c, m[i..j + 1]) == FeedByte(Feed(c, m[i..j]), m[j])
  {
    hide FeedByte;
    FeedMore(c, m, i, j, j + 1);
    assert m[j..j + 1] == [m[j]];
  }

  /** Bytes of the buffer, one `crc32b` each. */
  method Bytes(c: bv32, buf: seq<byte>, from: nat, to: nat) returns (r: bv32)
    requires from <= to <= |buf|
    ensures r == Feed(c, buf[from..to])
  {
    hide FeedByte;
    r := c;
    var i := from;
    while i < to
      invariant from <= i <= to && r == Feed(c, buf[from..i])
    {
      FeedLast(c, buf, from, i);
      r := FeedByte(r, buf[i]);
      i := i + 1;
    }
  }

  /** Three registers, `size` bytes each, side by side, then stitched: the first is moved past
      the second block's length and joined to it, and so again for the third. */
  method ThreeBlocks(zeros: array2<bv32>, crc: bv32, buf: seq<byte>, next: nat, size: nat) returns (r: bv32)
    requires Tables(zeros, 8 * size) && 0 < size && size % 8 == 0 && next + 3 * size <= |buf|
    ensures r == Feed(crc, buf[next..next + 3 * size])
  {
    hide Feed, Xor, Tables;
    var crc0, crc1, crc2 := crc, 0, 0;
    var i := 0;
    FeedNone(crc, buf, next);
    FeedNone(0, buf, next + size);
    FeedNone(0, buf, next + 2 * size);
    while i < size
      invariant 0 <= i <= size && i % 8 == 0
      invariant crc0 == Feed(crc, buf[next..next + i])
      invariant crc1 == Feed(0, buf[next + size..next + size + i])
      invariant crc2 == Feed(0, buf[next + 2 * size..next + 2 * size + i])
    {
      FeedMore(crc, buf, next, next + i, next + i + 8);
      FeedMore(0, buf, next + size, next + size + i, next + size + i + 8);
      FeedMore(0, buf, next + 2 * size, next + 2 * size + i, next + 2 * size + i + 8);
      crc0 := Feed(crc0, buf[next + i..next + i + 8]);
      crc1 := Feed(crc1, buf[next + size + i..next + size + i + 8]);
      crc2 := Feed(crc2, buf[next + 2 * size + i..next + 2 * size + i + 8]);
      i := i + 8;
    }
    var s1 := Shift(zeros, crc0, 8 * size);
    Stitch(crc0, buf[next + size..next + 2 * size]);
    crc0 := Xor(s1, crc1);
    FeedMore(crc, buf, next, next + size, next + 2 * size);
    var s2 := Shift(zeros, crc0, 8 * size);
    Stitch(crc0, buf[next + 2 * size..next + 3 * size]);
    r := Xor(s2, crc2);
    FeedMore(crc, buf, next, next + 2 * size, next + 3 * size);
  }

  lemma FeedNone(c: bv32, m: seq<byte>, i: nat)
    requires i <= |m|
    ensures Feed(c, m[i..i]) == c
  {
  }

  /** `crc32c_hw`, for a buffer at any address and of any length. */
  method CrcHw(long: array2<bv32>, short: array2<bv32>, crc: bv32, buf: seq<byte>, address: nat) returns (r: bv32)
    requires Tables(long, 8 * LONG) && Tables(short, 8 * SHORT)
    ensures r == Crc(crc, buf)
  {
    hide Feed, Tables, FeedByte, Invert;
    var c := Invert(crc);
    var crc0 := c;
    var next := 0;
    FeedNone(c, buf, 0);
    while next < |buf| && (address + next) % 8 != 0
      invariant next <= |buf| && crc0 == Feed(c, buf[0..next])
    {
      FeedLast(c, buf, 0, next);
      crc0 := FeedByte(crc0, buf[next]);
      next := next + 1;
    }
    while |buf| - next >= 3 * LONG
      invariant next <= |buf| && crc0 == Feed(c, buf[0..next])
    {
      FeedMore(c, buf, 0, next, next + 3 * LONG);
      crc0 := ThreeBlocks(long, crc0, buf, next, LONG);
      next := next + 3 * LONG;
    }
    while |buf| - next >= 3 * SHORT
      invariant next <= |buf| && crc0 == Feed(c, buf[0..next])
    {
      FeedMore(c, buf, 0, next, next + 3 * SHORT);
      crc0 := ThreeBlocks(short, crc0, buf, next, SHORT);
      next := next + 3 * SHORT;
    }
    var end := next + (|buf| - next - (|buf| - next) % 8);
    while next < end
      invariant next <= end <= |buf| && (end - next) % 8 == 0 && crc0 == Feed(c, buf[0..next])
    {
      FeedMore(c, buf, 0, next, next + 8);
      crc0 := Feed(crc0, buf[next..next + 8]);
      next := next + 8;
    }
    FeedMore(c, buf, 0, next, |buf|);
    crc0 := Bytes(crc0, buf, next, |buf|);
    assert buf[0..|buf|] == buf;
    r := Invert(crc0);
  }

  /** `crc32c_init_hw`: the tables `crc32c_hw` relies on. */
  method InitHw() returns (long: array2<bv32>, short: array2<bv32>)
    ensures Tables(long, 8 * LONG) && Tables(short, 8 * SHORT)
  {
    hide Tables;
    PowerFloorLengths();
    long := ZerosTables(LONG);
    short := ZerosTables(SHORT);
  }

  lemma PowerFloorLengths()
    ensures PowerFloor(LONG) == LONG && PowerFloor(SHORT) == SHORT
  {
    assert PowerFloor(8) == 8;
    assert PowerFloor(32) == 32;
    assert PowerFloor(128) == 128;
    assert PowerFloor(256) == 256;
    assert PowerFloor(1024) == 1024;
    assert PowerFloor(4096) == 4096;
  }
}
