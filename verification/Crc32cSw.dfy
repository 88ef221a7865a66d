/** The software forms: eight tables, eight bytes a step, for little- and big-endian loads. */
module Crc32cSw {
  import opened Basics
  import opened Crc32c
  import opened Crc32cHw

  // One byte by table

  function Word(x: byte): bv32 {
    x as bv32
  }

  function Index(x: byte): (n: nat)
    ensures n < 256
  {
    x as int
  }

  lemma IndexRound(x: byte)
    ensures ByteOf(Index(x)) == x
  {
  }

  function Low(c: bv32): byte {
    (c & 0xff) as bv8
  }

  function Rest(c: bv32): bv32 {
    c >> 8
  }

  lemma RawSplit(c: bv32)
    ensures c == ((c & 0xff) as bv8) as bv32 ^ (c & 0xffffff00)
    ensures (c & 0xffffff00) >> 8 == c >> 8 && (c & 0xffffff00) & 0xff == 0
  {
  }

  lemma SplitByte(c: bv32)
    ensures c == Xor(((c & 0xff) as bv8) as bv32, c & 0xffffff00)
  {
    hide Xor;
    RawSplit(c);
    XorIs(((c & 0xff) as bv8) as bv32, c & 0xffffff00);
  }

  lemma ShiftsOut(y: bv32)
    requires y & 0xff == 0
    ensures Bit8(y) == y >> 8
  {
  }

  lemma HighOut(y: bv32)
    requires y & 0xff == 0
    ensures Zeros(y, 1) == y >> 8
  {
    hide Bit8, Bits;
    Bit8IsBits(y);
    ShiftsOut(y);
  }

  function Upper(c: bv32): bv32 {
    c & 0xffffff00
  }

  lemma UpperOut(c: bv32)
    ensures Zeros(Upper(c), 1) == Rest(c)
  {
    hide Zeros;
    RawSplit(c);
    HighOut(c & 0xffffff00);
  }

  lemma LowAndUpper(c: bv32)
    ensures c == Xor(Word(Low(c)), Upper(c))
  {
    hide Xor;
    SplitByte(c);
  }

  /** A zero byte through the register: look up the low byte, shift the rest. */
  lemma TableStep(c: bv32)
    ensures Zeros(c, 1) == Xor(Zeros(Word(Low(c)), 1), Rest(c))
  {
    hide Xor, Zeros, Word, Low, Upper, Rest;
    LowAndUpper(c);
    ZerosLinear(Word(Low(c)), Upper(c), 1);
    UpperOut(c);
  }

  /** Table `k` moves a byte past `k + 1` zero bytes. */
  ghost predicate Tables8(t: array2<bv32>)
    reads t
  {
    t.Length0 == 8 && t.Length1 == 256 &&
    forall j, k :: 0 <= j < 256 && 0 <= k < 8 ==> t[k, j] == Zeros(Word(ByteOf(j)), k + 1)
  }

  lemma LookUp(t: array2<bv32>, x: byte, k: nat)
    requires Tables8(t) && k < 8
    ensures t[k, Index(x)] == Zeros(Word(x), k + 1)
  {
    hide Zeros, Word;
    IndexRound(x);
  }

  /** `crc32c_init_sw_little`. */
  method InitLittle() returns (t: array2<bv32>)
    ensures fresh(t) && Tables8(t)
  {
    hide Zeros, Bit, ByteOf, Word;
    t := new bv32[8, 256];
    for n := 0 to 256
      invariant forall j :: 0 <= j < n ==> t[0, j] == Zeros(Word(ByteOf(j)), 1)
    {
      var crc := Word(ByteOf(n));
      OneByte(crc);
      crc := Bit(crc);
      crc := Bit(crc);
      crc := Bit(crc);
      crc := Bit(crc);
      crc := Bit(crc);
      crc := Bit(crc);
      crc := Bit(crc);
      crc := Bit(crc);
      t[0, n] := crc;
    }
    for n := 0 to 256
      invariant forall j :: 0 <= j < 256 ==> t[0, j] == Zeros(Word(ByteOf(j)), 1)
      invariant forall j, k :: 0 <= j < n && 0 <= k < 8 ==> t[k, j] == Zeros(Word(ByteOf(j)), k + 1)
    {
      FillColumn(t, n);
    }
  }

  lemma OneByte(c: bv32)
    ensures Bit8(c) == Zeros(c, 1)
  {
    Bit8IsBits(c);
  }

  /** Each table entry is the one above it, moved past one more zero byte. */
  method FillColumn(t: array2<bv32>, n: nat)
    requires t.Length0 == 8 && t.Length1 == 256 && n < 256
    requires forall j :: 0 <= j < 256 ==> t[0, j] == Zeros(Word(ByteOf(j)), 1)
    modifies t
    ensures forall k :: 0 <= k < 8 ==> t[k, n] == Zeros(Word(ByteOf(n)), k + 1)
    ensures forall j, k :: 0 <= j < 256 && 0 <= k < 8 && (j != n || k == 0) ==> t[k, j] == old(t[k, j])
  {
    hide Zeros, Xor, ByteOf, Low, Rest, Word, Index;
    var x := Word(ByteOf(n));
    var crc := t[0, n];
    for k := 1 to 8
      invariant crc == Zeros(x, k)
      invariant forall j :: 0 <= j < k ==> t[j, n] == Zeros(x, j + 1)
      invariant forall j, i :: 0 <= j < 256 && 0 <= i < 8 && (j != n || i == 0) ==> t[i, j] == old(t[i, j])
    {
      IndexRound(Low(crc));
      TableStep(crc);
      ZerosAdd(x, k, 1);
      crc := Xor(t[0, Index(Low(crc))], Rest(crc));
      t[k, n] := crc;
    }
  }

  lemma RawByteGone(c: bv32, x: byte)
    ensures (c ^ (x as bv32)) >> 8 == c >> 8
  {
  }

  lemma RestOfSum(c: bv32, x: byte)
    ensures Rest(Xor(c, Word(x))) == Rest(c)
  {
    RawByteGone(c, x);
    XorIs(c, x as bv32);
    hide Xor;
  }

  /** One byte: look up its sum with the low byte, shift the rest. */
  lemma ByteByTable(crc: bv32, x: byte)
    ensures Xor(Zeros(Word(Low(Xor(crc, Word(x)))), 1), Rest(crc)) == FeedByte(crc, x)
  {
    var w := Word(x);
    assert w == x as bv32;
    hide Zeros, Xor, Low, Rest, Word, FeedByte;
    TableStep(Xor(crc, w));
    RestOfSum(crc, x);
    ByteAtOnce(crc, x);
  }

  /** `crc = table[0][(crc ^ *next++) & 0xff] ^ (crc >> 8)`. */
  method ByteStep(t: array2<bv32>, crc: bv32, x: byte) returns (r: bv32)
    requires Tables8(t)
    ensures r == FeedByte(crc, x)
  {
    hide Zeros, Xor, Low, Rest, Word, Index, FeedByte, ByteOf;
    var i := Low(Xor(crc, Word(x)));
    LookUp(t, i, 0);
    ByteByTable(crc, x);
    r := Xor(t[0, Index(i)], Rest(crc));
  }

  // Eight bytes at once

  /** What each byte of a block adds to the register at its end. */
  function Contributions(m: seq<byte>): bv32 {
    if m == [] then 0 else Xor(Zeros(Word(m[0]), |m|), Contributions(m[1..]))
  }

  lemma {:induction false} FeedIsContributions(m: seq<byte>)
    ensures Feed(0, m) == Contributions(m)
  {
    hide Xor, Zeros, FeedByte;
    if m != [] {
      var x := Word(m[0]);
      ByteAtOnce(0, m[0]);
      XorZero(x);
      var d := FeedByte(0, m[0]);
      Stitch(d, m[1..]);
      ZerosAdd(x, 1, |m| - 1);
      FeedIsContributions(m[1..]);
    }
  }

  lemma RawAt(x: byte)
    ensures ((x as bv32) << 8) & 0xff == 0 && ((x as bv32) << 8) >> 8 == x as bv32
    ensures ((x as bv32) << 16) & 0xff == 0 && ((x as bv32) << 16) >> 8 == (x as bv32) << 8
    ensures ((x as bv32) << 24) & 0xff == 0 && ((x as bv32) << 24) >> 8 == (x as bv32) << 16
  {
  }

  /** A zero byte moves a placed byte down one place. */
  lemma AtMoves(x: byte, k: nat)
    requires 0 < k < 4
    ensures Zeros(At(x, k), 1) == At(x, k - 1)
  {
    hide Zeros;
    RawAt(x);
    HighOut(At(x, k));
  }

  lemma {:induction false} AtIsEarlier(x: byte, k: nat, n: nat)
    requires k < 4 && k <= n
    ensures Zeros(At(x, k), n) == Zeros(Word(x), n - k)
    decreases k
  {
    if k > 0 {
      hide Zeros, At;
      AtMoves(x, k);
      ZerosAdd(At(x, k), 1, n - 1);
      AtIsEarlier(x, k - 1, n - 1);
    }
  }

  lemma ZerosOfWord(c: bv32)
    ensures Zeros(c, 8) == Xor(Zeros(Word(ByteAt(c, 0)), 8),
                             Xor(Zeros(Word(ByteAt(c, 1)), 7),
                               Xor(Zeros(Word(ByteAt(c, 2)), 6), Zeros(Word(ByteAt(c, 3)), 5))))
  {
    hide Xor, Zeros, At, ByteAt, Word;
    WordIsItsBytes(c);
    var b0, b1, b2, b3 := ByteAt(c, 0), ByteAt(c, 1), ByteAt(c, 2), ByteAt(c, 3);
    ZerosLinear(Xor(At(b0, 0), At(b1, 1)), Xor(At(b2, 2), At(b3, 3)), 8);
    ZerosLinear(At(b0, 0), At(b1, 1), 8);
    ZerosLinear(At(b2, 2), At(b3, 3), 8);
    AtIsEarlier(b0, 0, 8);
    AtIsEarlier(b1, 1, 8);
    AtIsEarlier(b2, 2, 8);
    AtIsEarlier(b3, 3, 8);
    XorAssoc(Zeros(Word(b0), 8), Zeros(Word(b1), 7), Xor(Zeros(Word(b2), 6), Zeros(Word(b3), 5)));
  }

  /** The eight lanes a step looks up: the register is added to the first four bytes. */
  function Lanes(c: bv32, m: seq<byte>): (x: seq<byte>)
    requires |m| == 8
    ensures |x| == 8
  {
    [Mixed(ByteAt(c, 0), m[0]), Mixed(ByteAt(c, 1), m[1]), Mixed(ByteAt(c, 2), m[2]), Mixed(ByteAt(c, 3), m[3]),
     m[4], m[5], m[6], m[7]]
  }

  function Mixed(a: byte, b: byte): byte {
    a ^ b
  }

  lemma ZerosOfSum(a: byte, b: byte, n: nat)
    ensures Xor(Zeros(Word(a), n), Zeros(Word(b), n)) == Zeros(Word(Mixed(a, b)), n)
  {
    hide Xor, Zeros, Word, Mixed;
    WordXor(a, b);
    ZerosLinear(Word(a), Word(b), n);
  }

  lemma RawWordXor(a: byte, b: byte)
    ensures (a ^ b) as bv32 == (a as bv32) ^ (b as bv32)
  {
  }

  lemma WordXor(a: byte, b: byte)
    ensures Word(Mixed(a, b)) == Xor(Word(a), Word(b))
  {
    RawWordXor(a, b);
    XorIs(a as bv32, b as bv32);
    hide Xor;
  }

  /** Adding two sums term by term. */
  lemma XorColumns(z0: bv32, z1: bv32, z2: bv32, z3: bv32, y0: bv32, y1: bv32, y2: bv32, y3: bv32, rest: bv32)
    ensures Xor(Xor(z0, Xor(z1, Xor(z2, z3))), Xor(y0, Xor(y1, Xor(y2, Xor(y3, rest)))))
         == Xor(Xor(z0, y0), Xor(Xor(z1, y1), Xor(Xor(z2, y2), Xor(Xor(z3, y3), rest))))
  {
    hide Xor;
    XorFour(z0, Xor(z1, Xor(z2, z3)), y0, Xor(y1, Xor(y2, Xor(y3, rest))));
    XorFour(z1, Xor(z2, z3), y1, Xor(y2, Xor(y3, rest)));
    XorFour(z2, z3, y2, Xor(y3, rest));
    XorAssoc(z3, y3, rest);
  }

  lemma ContributionsEight(m: seq<byte>)
    requires |m| == 8
    ensures Contributions(m) ==
      Xor(Zeros(Word(m[0]), 8), Xor(Zeros(Word(m[1]), 7), Xor(Zeros(Word(m[2]), 6), Xor(Zeros(Word(m[3]), 5),
      Xor(Zeros(Word(m[4]), 4), Xor(Zeros(Word(m[5]), 3), Xor(Zeros(Word(m[6]), 2), Zeros(Word(m[7]), 1))))))))
  {
    hide Xor, Zeros, Word;
    ContributionsFour(m);
    ContributionsFour(m[4..]);
    XorZero(Zeros(Word(m[7]), 1));
    assert Contributions(m[4..][4..]) == 0;
    hide Contributions;
  }

  lemma ContributionsFour(m: seq<byte>)
    requires |m| >= 4
    ensures var n := |m|;
      Contributions(m) == Xor(Zeros(Word(m[0]), n), Xor(Zeros(Word(m[1]), n - 1), Xor(Zeros(Word(m[2]), n - 2),
                            Xor(Zeros(Word(m[3]), n - 3), Contributions(m[4..])))))
  {
    hide Xor, Zeros, Word;
    assert m[1..][1..] == m[2..] && m[2..][1..] == m[3..] && m[3..][1..] == m[4..];
    assert Contributions(m[2..]) == Xor(Zeros(Word(m[2]), |m| - 2), Contributions(m[3..]));
  }

  lemma SliceSum(b0: byte, b1: byte, b2: byte, b3: byte, m0: byte, m1: byte, m2: byte, m3: byte, rest: bv32)
    ensures Xor(Xor(Zeros(Word(b0), 8), Xor(Zeros(Word(b1), 7), Xor(Zeros(Word(b2), 6), Zeros(Word(b3), 5)))),
                Xor(Zeros(Word(m0), 8),
                Xor(Zeros(Word(m1), 7), Xor(Zeros(Word(m2), 6), Xor(Zeros(Word(m3), 5), rest)))))
         == Xor(Zeros(Word(Mixed(b0, m0)), 8),
            Xor(Zeros(Word(Mixed(b1, m1)), 7),
            Xor(Zeros(Word(Mixed(b2, m2)), 6), Xor(Zeros(Word(Mixed(b3, m3)), 5), rest))))
  {
    hide Xor, Zeros, Word, Mixed;
    XorColumns(Zeros(Word(b0), 8), Zeros(Word(b1), 7), Zeros(Word(b2), 6), Zeros(Word(b3), 5),
               Zeros(Word(m0), 8), Zeros(Word(m1), 7), Zeros(Word(m2), 6), Zeros(Word(m3), 5), rest);
    ZerosOfSum(b0, m0, 8);
    ZerosOfSum(b1, m1, 7);
    ZerosOfSum(b2, m2, 6);
    ZerosOfSum(b3, m3, 5);
  }

  /** What the eight look-ups of a step add up to. */
  function LookUps(x: seq<byte>): bv32
    requires |x| == 8
  {
    Xor(Zeros(Word(x[0]), 8), Xor(Zeros(Word(x[1]), 7), Xor(Zeros(Word(x[2]), 6), Xor(Zeros(Word(x[3]), 5),
    Xor(Zeros(Word(x[4]), 4), Xor(Zeros(Word(x[5]), 3), Xor(Zeros(Word(x[6]), 2), Zeros(Word(x[7]), 1))))))))
  }

  /** One step of the loop: eight look-ups are eight bytes through the register. */
  lemma SliceStep(c: bv32, m: seq<byte>)
    requires |m| == 8
    ensures Feed(c, m) == LookUps(Lanes(c, m))
  {
    hide Xor, Zeros, Word, ByteAt, Feed, Contributions, Mixed;
    Stitch(c, m);
    FeedIsContributions(m);
    ContributionsEight(m);
    ZerosOfWord(c);
    SliceSum(ByteAt(c, 0), ByteAt(c, 1), ByteAt(c, 2), ByteAt(c, 3), m[0], m[1], m[2], m[3],
             Xor(Zeros(Word(m[4]), 4), Xor(Zeros(Word(m[5]), 3), Xor(Zeros(Word(m[6]), 2), Zeros(Word(m[7]), 1)))));
  }

  // Sixty-four-bit words

  /** A little-endian load of eight bytes. */
  function Load(m: seq<byte>): bv64
    requires |m| == 8
  {
    (m[0] as bv64) | ((m[1] as bv64) << 8) | ((m[2] as bv64) << 16) | ((m[3] as bv64) << 24)
    | ((m[4] as bv64) << 32) | ((m[5] as bv64) << 40) | ((m[6] as bv64) << 48) | ((m[7] as bv64) << 56)
  }

  /** A big-endian load of eight bytes. */
  function LoadBig(m: seq<byte>): bv64
    requires |m| == 8
  {
    ((m[0] as bv64) << 56) | ((m[1] as bv64) << 48) | ((m[2] as bv64) << 40) | ((m[3] as bv64) << 32)
    | ((m[4] as bv64) << 24) | ((m[5] as bv64) << 16) | ((m[6] as bv64) << 8) | (m[7] as bv64)
  }

  /** The bytes of a word, least significant first, by the shifts and masks of the look-ups. */
  function Split(w: bv64): (x: seq<byte>)
    ensures |x| == 8
  {
    [(w & 0xff) as bv8, ((w >> 8) & 0xff) as bv8, ((w >> 16) & 0xff) as bv8,
     ((w >> 24) & 0xff) as bv8, ((w >> 32) & 0xff) as bv8, ((w >> 40) & 0xff) as bv8,
     ((w >> 48) & 0xff) as bv8, (w >> 56) as bv8]
  }

  function Xor64(a: bv64, b: bv64): bv64 {
    a ^ b
  }

  lemma Xor64Is(a: bv64, b: bv64)
    ensures Xor64(a, b) == a ^ b
  {
  }

  function Extend(c: bv32): bv64 {
    c as bv64
  }

  function Truncate(w: bv64): bv32 {
    (w & 0xffffffff) as bv32
  }

  /** Byte reversal, as the portable fallback computes it. */
  function Swap(x: bv64): bv64 {
    var y := ((x << 8) & 0xff00ff00ff00ff00) | ((x >> 8) & 0xff00ff00ff00ff);
    var z := ((y << 16) & 0xffff0000ffff0000) | ((y >> 16) & 0xffff0000ffff);
    (z << 32) | (z >> 32)
  }

  /** Loading and adding, lane by lane. */
  lemma RawLanes(c: bv32, m0: byte, m1: byte, m2: byte, m3: byte, m4: byte, m5: byte, m6: byte, m7: byte)
    ensures var w := (c as bv64) ^
                     ((m0 as bv64) | ((m1 as bv64) << 8) | ((m2 as bv64) << 16) | ((m3 as bv64) << 24) |
                      ((m4 as bv64) << 32) | ((m5 as bv64) << 40) | ((m6 as bv64) << 48) | ((m7 as bv64) << 56));
            && (w & 0xff) as bv8 == ((c & 0xff) as bv8) ^ m0
            && ((w >> 8) & 0xff) as bv8 == (((c >> 8) & 0xff) as bv8) ^ m1
            && ((w >> 16) & 0xff) as bv8 == (((c >> 16) & 0xff) as bv8) ^ m2
            && ((w >> 24) & 0xff) as bv8 == ((c >> 24) as bv8) ^ m3
            && ((w >> 32) & 0xff) as bv8 == m4
            && ((w >> 40) & 0xff) as bv8 == m5
            && ((w >> 48) & 0xff) as bv8 == m6
            && (w >> 56) as bv8 == m7
  {
  }

  lemma LittleLanes(c: bv32, m: seq<byte>)
    requires |m| == 8
    ensures Split(Xor64(Extend(c), Load(m))) == Lanes(c, m)
  {
    RawLanes(c, m[0], m[1], m[2], m[3], m[4], m[5], m[6], m[7]);
  }

  lemma TruncateExtend(c: bv32)
    ensures Truncate(Extend(c)) == c
  {
  }

  // The little-endian form

  /** One step of the eight-byte loop; `c` is the register the word holds. */
  method SliceLittle(t: array2<bv32>, ghost c: bv32, crcw: bv64, m: seq<byte>) returns (r: bv64)
    requires Tables8(t) && |m| == 8 && crcw == Extend(c)
    ensures r == Extend(Feed(c, m))
  {
    hide Xor, Zeros, Word, Feed, Lanes, Xor64, Load, Split, Extend, Index;
    var x := Split(Xor64(crcw, Load(m)));
    LittleLanes(c, m);
    SliceStep(c, m);
    forall k | 0 <= k < 8
      ensures t[7 - k, Index(x[k])] == Zeros(Word(x[k]), 8 - k)
    {
      LookUp(t, x[k], 7 - k);
    }
    r := Extend(Xor(t[7, Index(x[0])], Xor(t[6, Index(x[1])], Xor(t[5, Index(x[2])], Xor(t[4, Index(x[3])],
                  Xor(t[3, Index(x[4])], Xor(t[2, Index(x[5])], Xor(t[1, Index(x[6])], t[0, Index(x[7])]))))))));
  }

  /** `crc32c_sw_little`, for a buffer at any address and of any length. */
  method CrcLittle(t: array2<bv32>, crc: bv32, buf: seq<byte>, address: nat) returns (r: bv32)
    requires Tables8(t)
    ensures r == Crc(crc, buf)
  {
    hide Zeros, Feed, Tables8, FeedByte, Invert, Extend, Truncate;
    var c := Invert(crc);
    var reg := c;
    var next := 0;
    FeedNone(c, buf, 0);
    while next < |buf| && (address + next) % 8 != 0
      invariant next <= |buf| && reg == Feed(c, buf[0..next])
    {
      FeedLast(c, buf, 0, next);
      reg := ByteStep(t, reg, buf[next]);
      next := next + 1;
    }
    if |buf| - next >= 8 {
      var crcw := Extend(reg);
      while |buf| - next >= 8
        invariant next <= |buf| && crcw == Extend(Feed(c, buf[0..next]))
      {
        FeedMore(c, buf, 0, next, next + 8);
        crcw := SliceLittle(t, Feed(c, buf[0..next]), crcw, buf[next..next + 8]);
        next := next + 8;
      }
      reg := Truncate(crcw);
      TruncateExtend(Feed(c, buf[0..next]));
    }
    while next < |buf|
      invariant next <= |buf| && reg == Feed(c, buf[0..next])
    {
      FeedLast(c, buf, 0, next);
      reg := ByteStep(t, reg, buf[next]);
      next := next + 1;
    }
    assert buf[0..|buf|] == buf;
    r := Invert(reg);
  }

  // The big-endian form

  lemma RawLanesBig(c: bv32, m0: byte, m1: byte, m2: byte, m3: byte, m4: byte, m5: byte, m6: byte, m7: byte)
    ensures var w := Swap(c as bv64) ^
                     (((m0 as bv64) << 56) | ((m1 as bv64) << 48) | ((m2 as bv64) << 40) | ((m3 as bv64) << 32) |
                      ((m4 as bv64) << 24) | ((m5 as bv64) << 16) | ((m6 as bv64) << 8) | (m7 as bv64));
            && (w >> 56) as bv8 == ((c & 0xff) as bv8) ^ m0
            && ((w >> 48) & 0xff) as bv8 == (((c >> 8) & 0xff) as bv8) ^ m1
            && ((w >> 40) & 0xff) as bv8 == (((c >> 16) & 0xff) as bv8) ^ m2
            && ((w >> 32) & 0xff) as bv8 == ((c >> 24) as bv8) ^ m3
            && ((w >> 24) & 0xff) as bv8 == m4
            && ((w >> 16) & 0xff) as bv8 == m5
            && ((w >> 8) & 0xff) as bv8 == m6
            && (w & 0xff) as bv8 == m7
  {
  }

  /** The lanes from the other end. */
  function Reversed(x: seq<byte>): seq<byte>
    requires |x| == 8
  {
    [x[7], x[6], x[5], x[4], x[3], x[2], x[1], x[0]]
  }

  lemma BigLanes(c: bv32, m: seq<byte>)
    requires |m| == 8
    ensures Split(Xor64(Swap(Extend(c)), LoadBig(m))) == Reversed(Lanes(c, m))
  {
    hide Swap, Xor64;
    RawLanesBig(c, m[0], m[1], m[2], m[3], m[4], m[5], m[6], m[7]);
    Xor64Is(Swap(Extend(c)), LoadBig(m));
  }

  lemma SwapTwice(c: bv32)
    ensures Truncate(Swap(Swap(Extend(c)))) == c
  {
  }

  lemma RawSwapXor(a: bv32, b: bv32)
    ensures Swap(a as bv64) ^ Swap(b as bv64) == Swap((a ^ b) as bv64)
  {
  }

  lemma SwapXor(a: bv32, b: bv32)
    ensures Xor64(Swap(Extend(a)), Swap(Extend(b))) == Swap(Extend(Xor(a, b)))
  {
    hide Swap, Xor, Xor64;
    RawSwapXor(a, b);
    XorIs(a, b);
    Xor64Is(Swap(a as bv64), Swap(b as bv64));
  }

  ghost predicate ByteTable(t: array<bv32>)
    reads t
  {
    t.Length == 256 && forall j :: 0 <= j < 256 ==> t[j] == Zeros(Word(ByteOf(j)), 1)
  }

  /** The same eight tables, every entry byte-swapped. */
  ghost predicate SwappedTables(t: array2<bv64>)
    reads t
  {
    t.Length0 == 8 && t.Length1 == 256 &&
    forall j, k :: 0 <= j < 256 && 0 <= k < 8 ==> t[k, j] == Swap(Extend(Zeros(Word(ByteOf(j)), k + 1)))
  }

  lemma SwappedLookUp(t: array2<bv64>, x: byte, k: nat)
    requires SwappedTables(t) && k < 8
    ensures t[k, Index(x)] == Swap(Extend(Zeros(Word(x), k + 1)))
  {
    hide Zeros, Word, Swap, Extend;
    IndexRound(x);
  }

  /** `crc32c_init_sw_big`. */
  method InitBig() returns (bytes: array<bv32>, t: array2<bv64>)
    ensures fresh(bytes) && fresh(t) && ByteTable(bytes) && SwappedTables(t)
  {
    hide Zeros, Bit, ByteOf, Word, Swap, Extend;
    bytes := new bv32[256];
    for n := 0 to 256
      invariant forall j :: 0 <= j < n ==> bytes[j] == Zeros(Word(ByteOf(j)), 1)
    {
      var crc := Word(ByteOf(n));
      OneByte(crc);
      crc := Bit(crc);
      crc := Bit(crc);
      crc := Bit(crc);
      crc := Bit(crc);
      crc := Bit(crc);
      crc := Bit(crc);
      crc := Bit(crc);
      crc := Bit(crc);
      bytes[n] := crc;
    }
    t := new bv64[8, 256];
    for n := 0 to 256
      invariant ByteTable(bytes)
      invariant forall j, k :: 0 <= j < n && 0 <= k < 8 ==> t[k, j] == Swap(Extend(Zeros(Word(ByteOf(j)), k + 1)))
    {
      FillSwapped(bytes, t, n);
    }
  }

  method FillSwapped(bytes: array<bv32>, t: array2<bv64>, n: nat)
    requires t.Length0 == 8 && t.Length1 == 256 && n < 256 && ByteTable(bytes)
    modifies t
    ensures forall k :: 0 <= k < 8 ==> t[k, n] == Swap(Extend(Zeros(Word(ByteOf(n)), k + 1)))
    ensures forall j, k :: 0 <= j < 256 && 0 <= k < 8 && j != n ==> t[k, j] == old(t[k, j])
  {
    hide Zeros, Xor, ByteOf, Low, Rest, Word, Index, Swap, Extend;
    var x := Word(ByteOf(n));
    var crc := bytes[n];
    t[0, n] := Swap(Extend(crc));
    for k := 1 to 8
      invariant crc == Zeros(x, k)
      invariant forall j :: 0 <= j < k ==> t[j, n] == Swap(Extend(Zeros(x, j + 1)))
      invariant forall j, i :: 0 <= j < 256 && 0 <= i < 8 && j != n ==> t[i, j] == old(t[i, j])
    {
      IndexRound(Low(crc));
      TableStep(crc);
      ZerosAdd(x, k, 1);
      crc := Xor(bytes[Index(Low(crc))], Rest(crc));
      t[k, n] := Swap(Extend(crc));
    }
  }

  method ByteStepBig(bytes: array<bv32>, crc: bv32, x: byte) returns (r: bv32)
    requires ByteTable(bytes)
    ensures r == FeedByte(crc, x)
  {
    hide Zeros, Xor, Low, Rest, Word, Index, FeedByte, ByteOf;
    var i := Low(Xor(crc, Word(x)));
    IndexRound(i);
    ByteByTable(crc, x);
    r := Xor(bytes[Index(i)], Rest(crc));
  }

  /** The look-ups of the swapped tables add up to the swapped sum. */
  lemma SwappedSum(y: seq<byte>)
    requires |y| == 8
    ensures Xor64(Swap(Extend(Zeros(Word(y[7]), 1))), Xor64(Swap(Extend(Zeros(Word(y[6]), 2))),
            Xor64(Swap(Extend(Zeros(Word(y[5]), 3))), Xor64(Swap(Extend(Zeros(Word(y[4]), 4))),
            Xor64(Swap(Extend(Zeros(Word(y[3]), 5))), Xor64(Swap(Extend(Zeros(Word(y[2]), 6))),
            Xor64(Swap(Extend(Zeros(Word(y[1]), 7))), Swap(Extend(Zeros(Word(y[0]), 8))))))))))
         == Swap(Extend(LookUps(y)))
  {
    hide Xor, Zeros, Word, Xor64, Swap, Extend;
    var z := seq(8, k requires 0 <= k < 8 => Zeros(Word(y[k]), 8 - k));
    var s1 := Xor(z[1], z[0]);
    var s2 := Xor(z[2], s1);
    var s3 := Xor(z[3], s2);
    var s4 := Xor(z[4], s3);
    var s5 := Xor(z[5], s4);
    var s6 := Xor(z[6], s5);
    SwapXor(z[1], z[0]);
    SwapXor(z[2], s1);
    SwapXor(z[3], s2);
    SwapXor(z[4], s3);
    SwapXor(z[5], s4);
    SwapXor(z[6], s5);
    SwapXor(z[7], s6);
    XorReversed(z[0], z[1], z[2], z[3], z[4], z[5], z[6], z[7]);
  }

  lemma XorReversed(a: bv32, b: bv32, c: bv32, d: bv32, e: bv32, f: bv32, g: bv32, h: bv32)
    ensures Xor(h, Xor(g, Xor(f, Xor(e, Xor(d, Xor(c, Xor(b, a)))))))
         == Xor(a, Xor(b, Xor(c, Xor(d, Xor(e, Xor(f, Xor(g, h)))))))
  {
    hide Xor;
    XorTurn(a, b, c, d);
    XorTurn(e, f, g, h);
    var low, high := Xor(a, Xor(b, Xor(c, d))), Xor(e, Xor(f, Xor(g, h)));
    XorPast(h, g, f, e, Xor(d, Xor(c, Xor(b, a))));
    XorPast(a, b, c, d, Xor(e, Xor(f, Xor(g, h))));
    XorComm(low, high);
  }

  lemma XorTurn(a: bv32, b: bv32, c: bv32, d: bv32)
    ensures Xor(d, Xor(c, Xor(b, a))) == Xor(a, Xor(b, Xor(c, d)))
  {
    hide Xor;
    XorComm(b, a);
    XorComm(c, Xor(a, b));
    XorAssoc(a, b, c);
    XorComm(d, Xor(a, Xor(b, c)));
    XorAssoc(a, Xor(b, c), d);
    XorAssoc(b, c, d);
  }

  lemma XorPast(a: bv32, b: bv32, c: bv32, d: bv32, rest: bv32)
    ensures Xor(a, Xor(b, Xor(c, Xor(d, rest)))) == Xor(Xor(a, Xor(b, Xor(c, d))), rest)
  {
    hide Xor;
    XorAssoc(c, d, rest);
    XorAssoc(b, Xor(c, d), rest);
    XorAssoc(a, Xor(b, Xor(c, d)), rest);
  }

  method SliceBig(t: array2<bv64>, ghost c: bv32, crcw: bv64, m: seq<byte>) returns (r: bv64)
    requires SwappedTables(t) && |m| == 8 && crcw == Swap(Extend(c))
    ensures r == Swap(Extend(Feed(c, m)))
  {
    hide Xor, Zeros, Word, Feed, Lanes, Xor64, LoadBig, Split, Extend, Swap, Index, LookUps;
    var x := Split(Xor64(crcw, LoadBig(m)));
    BigLanes(c, m);
    SliceStep(c, m);
    forall k | 0 <= k < 8
      ensures t[k, Index(x[k])] == Swap(Extend(Zeros(Word(x[k]), k + 1)))
    {
      SwappedLookUp(t, x[k], k);
    }
    SwappedSum(Lanes(c, m));
    r := Xor64(t[0, Index(x[0])], Xor64(t[1, Index(x[1])], Xor64(t[2, Index(x[2])], Xor64(t[3, Index(x[3])],
         Xor64(t[4, Index(x[4])], Xor64(t[5, Index(x[5])], Xor64(t[6, Index(x[6])], t[7, Index(x[7])])))))));
  }

  /** `crc32c_sw_big`, for a buffer at any address and of any length. */
  method CrcBig(bytes: array<bv32>, t: array2<bv64>, crc: bv32, buf: seq<byte>, address: nat) returns (r: bv32)
    requires ByteTable(bytes) && SwappedTables(t)
    ensures r == Crc(crc, buf)
  {
    hide Zeros, Feed, ByteTable, SwappedTables, FeedByte, Invert, Extend, Truncate, Swap;
    var c := Invert(crc);
    var reg := c;
    var next := 0;
    FeedNone(c, buf, 0);
    while next < |buf| && (address + next) % 8 != 0
      invariant next <= |buf| && reg == Feed(c, buf[0..next])
    {
      FeedLast(c, buf, 0, next);
      reg := ByteStepBig(bytes, reg, buf[next]);
      next := next + 1;
    }
    if |buf| - next >= 8 {
      var crcw := Swap(Extend(reg));
      while |buf| - next >= 8
        invariant next <= |buf| && crcw == Swap(Extend(Feed(c, buf[0..next])))
      {
        FeedMore(c, buf, 0, next, next + 8);
        crcw := SliceBig(t, Feed(c, buf[0..next]), crcw, buf[next..next + 8]);
        next := next + 8;
      }
      reg := Truncate(Swap(crcw));
      SwapTwice(Feed(c, buf[0..next]));
    }
    while next < |buf|
      invariant next <= |buf| && reg == Feed(c, buf[0..next])
    {
      FeedLast(c, buf, 0, next);
      reg := ByteStepBig(bytes, reg, buf[next]);
      next := next + 1;
    }
    assert buf[0..|buf|] == buf;
    r := Invert(reg);
  }
}
