/** CRC-32C, bit by bit: the reference every fast form is proved equal to.

    The polynomial is that of section 12.1 of RFC 3720, in reversed bit order; the register is
    complemented before and after, and message bits enter least significant bit first. */
module Crc32c {
  import opened Basics

  const POLY: bv32 := 0x82f63b78

  /** One zero bit through the register. */
  function Bit(c: bv32): bv32 {
    if c & 1 == 1 then (c >> 1) ^ POLY else c >> 1
  }

  predicate Odd(x: bv32) {
    x & 1 == 1
  }

  function Half(x: bv32): bv32 {
    x >> 1
  }

  /** One message bit. */
  function FeedBit(c: bv32, b: bool): bv32 {
    Bit(Xor(c, if b then 1 else 0))
  }

  /** The `n` low bits of `x`, least significant first. */
  function FeedBits(c: bv32, x: bv32, n: nat): bv32
    decreases n
  {
    if n == 0 then c else FeedBits(FeedBit(c, Odd(x)), Half(x), n - 1)
  }

  function FeedByte(c: bv32, x: byte): bv32 {
    FeedBits(c, x as bv32, 8)
  }

  function Feed(c: bv32, m: seq<byte>): bv32
    decreases m
  {
    if m == [] then c else Feed(FeedByte(c, m[0]), m[1..])
  }

  /** The CRC of `m`, continuing from the CRC of whatever came before it. */
  function Crc(crc: bv32, m: seq<byte>): bv32 {
    Invert(Feed(Invert(crc), m))
  }

  function Invert(x: bv32): bv32 {
    !x
  }

  // Exclusive or.  Proofs below the level of single bits use it through these laws only.

  function Xor(a: bv32, b: bv32): bv32 {
    a ^ b
  }

  lemma XorIs(a: bv32, b: bv32)
    ensures Xor(a, b) == a ^ b
  {
  }

  lemma RawAssoc(a: bv32, b: bv32, c: bv32)
    ensures (a ^ b) ^ c == a ^ (b ^ c)
  {
  }

  lemma XorAssoc(a: bv32, b: bv32, c: bv32)
    ensures Xor(Xor(a, b), c) == Xor(a, Xor(b, c))
  {
    hide Xor;
    RawAssoc(a, b, c);
    XorIs(a, b);
    XorIs(b, c);
    XorIs(a ^ b, c);
    XorIs(a, b ^ c);
  }

  lemma XorComm(a: bv32, b: bv32)
    ensures Xor(a, b) == Xor(b, a)
  {
  }

  lemma XorFour(a: bv32, b: bv32, c: bv32, d: bv32)
    ensures Xor(Xor(a, b), Xor(c, d)) == Xor(Xor(a, c), Xor(b, d))
  {
    hide Xor;
    XorAssoc(a, b, Xor(c, d));
    XorAssoc(b, c, d);
    XorComm(b, c);
    XorAssoc(c, b, d);
    XorAssoc(a, c, Xor(b, d));
  }

  lemma XorZero(a: bv32)
    ensures Xor(a, 0) == a && Xor(0, a) == a && Xor(a, a) == 0
  {
  }

  lemma XorPoly(x: bv32, y: bv32)
    ensures (x ^ POLY) ^ (y ^ POLY) == x ^ y
    ensures (x ^ POLY) ^ y == (x ^ y) ^ POLY
    ensures x ^ (y ^ POLY) == (x ^ y) ^ POLY
  {
  }

  lemma XorShift(a: bv32, b: bv32)
    ensures (a ^ b) & 1 == (a & 1) ^ (b & 1)
    ensures (a ^ b) >> 1 == (a >> 1) ^ (b >> 1)
  {
  }

  lemma LowBit(a: bv32)
    ensures a & 1 == 0 || a & 1 == 1
  {
  }

  // The register is linear

  lemma RawBitLinear(a: bv32, b: bv32)
    ensures Bit(a ^ b) == Bit(a) ^ Bit(b)
  {
    LowBit(a);
    LowBit(b);
    XorShift(a, b);
    XorPoly(a >> 1, b >> 1);
  }

  lemma BitLinear(a: bv32, b: bv32)
    ensures Bit(Xor(a, b)) == Xor(Bit(a), Bit(b))
  {
    hide Bit, Xor;
    RawBitLinear(a, b);
    XorIs(a, b);
    XorIs(Bit(a), Bit(b));
  }

  /** `n` zero bits through the register. */
  function Bits(c: bv32, n: nat): bv32
    decreases n
  {
    if n == 0 then c else Bits(Bit(c), n - 1)
  }

  lemma {:induction false} BitsLinear(a: bv32, b: bv32, n: nat)
    ensures Bits(Xor(a, b), n) == Xor(Bits(a, n), Bits(b, n))
    decreases n
  {
    hide Bit, Xor;
    if n > 0 {
      BitLinear(a, b);
      BitsLinear(Bit(a), Bit(b), n - 1);
    }
  }

  lemma {:induction false} BitsZero(n: nat)
    ensures Bits(0, n) == 0
  {
    if n > 0 {
      assert Bit(0) == 0;
      BitsZero(n - 1);
    }
  }

  lemma {:induction false} BitsAdd(c: bv32, m: nat, n: nat)
    ensures Bits(c, m + n) == Bits(Bits(c, m), n)
    decreases m
  {
    hide Bit;
    if m > 0 {
      BitsAdd(Bit(c), m - 1, n);
    }
  }

  // Bytes

  /** Eight zero bits, as the table builders unroll them. */
  function Bit8(c: bv32): bv32 {
    Bit(Bit(Bit(Bit(Bit(Bit(Bit(Bit(c))))))))
  }

  /** `n` zero bytes through the register. */
  function Zeros(c: bv32, n: nat): bv32 {
    Bits(c, 8 * n)
  }

  lemma Bit8IsBits(c: bv32)
    ensures Bits(c, 8) == Bit8(c)
  {
    hide Bit;
    var c1 := Bit(c);
    var c2 := Bit(c1);
    var c3 := Bit(c2);
    var c4 := Bit(c3);
    assert Bits(c, 8) == Bits(c1, 7) == Bits(c2, 6) == Bits(c3, 5) == Bits(c4, 4);
    var c5 := Bit(c4);
    var c6 := Bit(c5);
    var c7 := Bit(c6);
    assert Bits(c4, 4) == Bits(c5, 3) == Bits(c6, 2) == Bits(c7, 1) == Bits(Bit(c7), 0);
  }

  function High(x: bv32): bv32 {
    x & 0xfffffffe
  }

  lemma RawHigh(x: bv32)
    ensures (x & 0xfffffffe) & 1 == 0 && (x & 0xfffffffe) >> 1 == x >> 1
    ensures x & 1 == 1 ==> x == 1 ^ (x & 0xfffffffe)
    ensures x & 1 == 0 ==> x == 0 ^ (x & 0xfffffffe)
  {
  }

  lemma BitOfEven(y: bv32)
    requires y & 1 == 0
    ensures Bit(y) == y >> 1
  {
  }

  lemma EvenPart(x: bv32)
    ensures Bit(x & 0xfffffffe) == x >> 1
  {
    RawHigh(x);
    BitOfEven(x & 0xfffffffe);
    hide Bit;
  }

  lemma OddPart(x: bv32)
    ensures Odd(x) ==> x == Xor(1, x & 0xfffffffe)
    ensures !Odd(x) ==> x == Xor(0, x & 0xfffffffe)
  {
    hide Xor;
    var h := x & 0xfffffffe;
    XorIs(1, h);
    XorIs(0, h);
    LowBit(x);
    RawHigh(x);
  }

  lemma HighIsShifted(x: bv32)
    ensures Bit(High(x)) == Half(x)
    ensures x == Xor(if Odd(x) then 1 else 0, High(x))
  {
    hide Bit, Xor, Odd;
    EvenPart(x);
    OddPart(x);
  }

  /** Only the low bit of what is added meets the polynomial in the next step. */
  lemma PullBit(c: bv32, x: bv32)
    ensures Bit(Xor(c, x)) == Xor(FeedBit(c, Odd(x)), Half(x))
  {
    hide Bit, Xor, Odd, Half, High;
    HighIsShifted(x);
    var b: bv32 := if Odd(x) then 1 else 0;
    XorAssoc(c, b, High(x));
    BitLinear(Xor(c, b), High(x));
  }

  function Halves(x: bv32, n: nat): bv32
    decreases n
  {
    if n == 0 then x else Halves(Half(x), n - 1)
  }

  /** Bits fed one at a time are bits added at once and then shifted through, up to what is
      left of them. */
  lemma {:induction false} BitsAtOnce(c: bv32, x: bv32, n: nat)
    ensures Bits(Xor(c, x), n) == Xor(FeedBits(c, x, n), Halves(x, n))
    decreases n
  {
    hide Bit, Xor, Odd, Half, FeedBit;
    if n > 0 {
      PullBit(c, x);
      BitsAtOnce(FeedBit(c, Odd(x)), Half(x), n - 1);
    }
  }

  lemma ByteVanishes(x: byte)
    ensures Halves(x as bv32, 8) == 0
  {
    var w := x as bv32;
    var w4 := Half(Half(Half(Half(w))));
    assert Halves(w, 8) == Halves(w4, 4) by {
      hide Half;
      assert Halves(w, 8) == Halves(Half(w), 7) == Halves(Half(Half(w)), 6) == Halves(Half(Half(Half(w))), 5);
    }
    assert w4 <= 15;
  }

  lemma ByteAtOnce(c: bv32, x: byte)
    ensures FeedByte(c, x) == Zeros(Xor(c, x as bv32), 1)
  {
    hide Bit, Xor, FeedBits, Halves, Bits;
    BitsAtOnce(c, x as bv32, 8);
    ByteVanishes(x);
    XorZero(FeedBits(c, x as bv32, 8));
  }

  // Runs of bytes

  lemma ZerosLinear(a: bv32, b: bv32, n: nat)
    ensures Zeros(Xor(a, b), n) == Xor(Zeros(a, n), Zeros(b, n))
  {
    BitsLinear(a, b, 8 * n);
  }

  lemma ZerosAdd(c: bv32, m: nat, n: nat)
    ensures Zeros(c, m + n) == Zeros(Zeros(c, m), n)
  {
    BitsAdd(c, 8 * m, 8 * n);
  }

  lemma {:induction false} FeedAppend(c: bv32, a: seq<byte>, b: seq<byte>)
    ensures Feed(c, a + b) == Feed(Feed(c, a), b)
    decreases a
  {
    hide FeedByte;
    if a == [] {
      assert a + b == b;
    } else {
      assert (a + b)[1..] == a[1..] + b;
      FeedAppend(FeedByte(c, a[0]), a[1..], b);
    }
  }

  /** The law behind the parallel form: a message can be run from an empty register, and the
      register it should have started from brought in later, moved past as many zero bytes. */
  lemma {:induction false} Stitch(c: bv32, m: seq<byte>)
    ensures Feed(c, m) == Xor(Zeros(c, |m|), Feed(0, m))
    decreases m
  {
    hide Bit, Xor, FeedByte, Bits;
    if m == [] {
      ZerosNone(c);
      XorZero(c);
    } else {
      var x := m[0] as bv32;
      var c1, d1 := FeedByte(c, m[0]), FeedByte(0, m[0]);
      var n := |m| - 1;
      ByteAtOnce(c, m[0]);
      ByteAtOnce(0, m[0]);
      XorZero(x);
      ZerosLinear(c, x, 1);
      assert c1 == Xor(Zeros(c, 1), d1);
      Stitch(c1, m[1..]);
      Stitch(d1, m[1..]);
      ZerosLinear(Zeros(c, 1), d1, n);
      ZerosAdd(c, 1, n);
      XorAssoc(Zeros(c, |m|), Zeros(d1, n), Feed(0, m[1..]));
    }
  }

  lemma ZerosNone(c: bv32)
    ensures Zeros(c, 0) == c
  {
  }

  /** A returned CRC is the starting point for the bytes that follow. */
  lemma CrcContinues(crc: bv32, a: seq<byte>, b: seq<byte>)
    ensures Crc(Crc(crc, a), b) == Crc(crc, a + b)
  {
    hide Feed, Invert;
    FeedAppend(Invert(crc), a, b);
    InvertTwice(Feed(Invert(crc), a));
  }

  lemma InvertTwice(x: bv32)
    ensures Invert(Invert(x)) == x
  {
  }
}
