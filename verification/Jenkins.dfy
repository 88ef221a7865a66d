/** The little-endian Jenkins hash: three ways to read a key, one value. */
module Jenkins {
  import opened Basics

  datatype Mixed = Mixed(a: bv32, b: bv32, c: bv32)

  // Mixing

  function Rot(x: bv32, k: nat): bv32
    requires k in {4, 6, 8, 11, 14, 16, 19, 24, 25}
  {
    match k
    case 4 => (x << 4) ^ (x >> 28)
    case 6 => (x << 6) ^ (x >> 26)
    case 8 => (x << 8) ^ (x >> 24)
    case 11 => (x << 11) ^ (x >> 21)
    case 14 => (x << 14) ^ (x >> 18)
    case 16 => (x << 16) ^ (x >> 16)
    case 19 => (x << 19) ^ (x >> 13)
    case 24 => (x << 24) ^ (x >> 8)
    case _ => (x << 25) ^ (x >> 7)
  }

  // 32-bit arithmetic; the proofs about mixing use it through these laws only.

  function Add(x: bv32, y: bv32): bv32 {
    x + y
  }

  function Sub(x: bv32, y: bv32): bv32 {
    x - y
  }

  function Xor(x: bv32, y: bv32): bv32 {
    x ^ y
  }

  lemma SubOfSum(u: bv32, p: bv32)
    ensures Sub(u + p, p) == u
  {
  }

  lemma AddOfDifference(u: bv32, p: bv32)
    ensures Add(u - p, p) == u
  {
  }

  lemma SubAdd(u: bv32, p: bv32)
    ensures Sub(Add(u, p), p) == u
  {
    SubOfSum(u, p);
    assert Add(u, p) == u + p;
    hide Sub;
  }

  lemma AddSub(u: bv32, p: bv32)
    ensures Add(Sub(u, p), p) == u
  {
    AddOfDifference(u, p);
    assert Sub(u, p) == u - p;
    hide Add;
  }

  lemma XorTwice(x: bv32, r: bv32)
    ensures Xor(Xor(x, r), r) == x
  {
  }

  /** One line of the mix: `x -= z; x ^= r; z += y`, as the new `x` and `z`. */
  function Line(x: bv32, y: bv32, z: bv32, r: bv32): (bv32, bv32) {
    (Xor(Sub(x, z), r), Add(z, y))
  }

  function Mix(m: Mixed): Mixed {
    var (a1, c1) := Line(m.a, m.b, m.c, Rot(m.c, 4));
    var (b1, a2) := Line(m.b, c1, a1, Rot(a1, 6));
    var (c2, b2) := Line(c1, a2, b1, Rot(b1, 8));
    var (a3, c3) := Line(a2, b2, c2, Rot(c2, 16));
    var (b3, a4) := Line(b2, c3, a3, Rot(a3, 19));
    var (c4, b4) := Line(c3, a4, b3, Rot(b3, 4));
    Mixed(a4, b4, c4)
  }

  /** A line undone: first `z`, then `x`. */
  function UnLineZ(y: bv32, z: bv32): bv32 {
    Sub(z, y)
  }

  function UnLineX(x: bv32, z: bv32, r: bv32): bv32 {
    Add(Xor(x, r), z)
  }

  lemma LineUndone(x: bv32, y: bv32, z: bv32, r: bv32)
    ensures UnLineZ(y, Line(x, y, z, r).1) == z && UnLineX(Line(x, y, z, r).0, z, r) == x
  {
    hide Add, Sub, Xor;
    SubAdd(z, y);
    AddSub(x, z);
    XorTwice(Sub(x, z), r);
  }

  lemma UndoneLine(x: bv32, y: bv32, z: bv32, r: bv32)
    ensures Line(UnLineX(x, UnLineZ(y, z), r), y, UnLineZ(y, z), r) == (x, z)
  {
    hide Add, Sub, Xor;
    var p := UnLineZ(y, z);
    AddSub(z, y);
    SubAdd(Xor(x, r), p);
    XorTwice(x, r);
  }

  /** The mix run backwards. */
  function Unmix(m: Mixed): Mixed {
    var b3' := UnLineZ(m.a, m.b);
    var c3 := UnLineX(m.c, b3', Rot(b3', 4));
    var a3 := UnLineZ(c3, m.a);
    var b2 := UnLineX(b3', a3, Rot(a3, 19));
    var c2 := UnLineZ(b2, c3);
    var a2 := UnLineX(a3, c2, Rot(c2, 16));
    var b1 := UnLineZ(a2, b2);
    var c1 := UnLineX(c2, b1, Rot(b1, 8));
    var a1 := UnLineZ(c1, a2);
    var b := UnLineX(b1, a1, Rot(a1, 6));
    var c := UnLineZ(b, c1);
    var a := UnLineX(a1, c, Rot(c, 4));
    Mixed(a, b, c)
  }

  /** `mix` is reversible: nothing of (a, b, c) is lost. */
  lemma MixUndone(m: Mixed)
    ensures Unmix(Mix(m)) == m
  {
    hide Line, UnLineZ, UnLineX, Rot;
    var (a1, c1) := Line(m.a, m.b, m.c, Rot(m.c, 4));
    var (b1, a2) := Line(m.b, c1, a1, Rot(a1, 6));
    var (c2, b2) := Line(c1, a2, b1, Rot(b1, 8));
    var (a3, c3) := Line(a2, b2, c2, Rot(c2, 16));
    var (b3, a4) := Line(b2, c3, a3, Rot(a3, 19));
    LineUndone(c3, a4, b3, Rot(b3, 4));
    LineUndone(b2, c3, a3, Rot(a3, 19));
    LineUndone(a2, b2, c2, Rot(c2, 16));
    LineUndone(c1, a2, b1, Rot(b1, 8));
    LineUndone(m.b, c1, a1, Rot(a1, 6));
    LineUndone(m.a, m.b, m.c, Rot(m.c, 4));
  }

  lemma UndoneMixes(m: Mixed)
    ensures Mix(Unmix(m)) == m
  {
    hide Line, UnLineZ, UnLineX, Rot;
    var b3 := UnLineZ(m.a, m.b);
    var c3 := UnLineX(m.c, b3, Rot(b3, 4));
    var a3 := UnLineZ(c3, m.a);
    var b2 := UnLineX(b3, a3, Rot(a3, 19));
    var c2 := UnLineZ(b2, c3);
    var a2 := UnLineX(a3, c2, Rot(c2, 16));
    var b1 := UnLineZ(a2, b2);
    var c1 := UnLineX(c2, b1, Rot(b1, 8));
    var a1 := UnLineZ(c1, a2);
    var b := UnLineX(b1, a1, Rot(a1, 6));
    var c := UnLineZ(b, c1);
    UndoneLine(a1, b, c1, Rot(c, 4));
    UndoneLine(b1, c1, a2, Rot(a1, 6));
    UndoneLine(c2, a2, b2, Rot(b1, 8));
    UndoneLine(a3, b2, c3, Rot(c2, 16));
    UndoneLine(b3, c3, m.a, Rot(a3, 19));
    UndoneLine(m.c, m.a, m.b, Rot(b3, 4));
  }

  /** One line of the final mix: `x ^= y; x -= rot(y, k)`. */
  function FinalLine(x: bv32, y: bv32, r: bv32): bv32 {
    Sub(Xor(x, y), r)
  }

  function Final(m: Mixed): bv32 {
    var c1 := FinalLine(m.c, m.b, Rot(m.b, 14));
    var a1 := FinalLine(m.a, c1, Rot(c1, 11));
    var b1 := FinalLine(m.b, a1, Rot(a1, 25));
    var c2 := FinalLine(c1, b1, Rot(b1, 16));
    var a2 := FinalLine(a1, c2, Rot(c2, 4));
    var b2 := FinalLine(b1, a2, Rot(a2, 14));
    FinalLine(c2, b2, Rot(b2, 24))
  }

  // The reference

  /** Four bytes, least significant first. */
  function Word(b0: byte, b1: byte, b2: byte, b3: byte): bv32 {
    (b0 as bv32) | ((b1 as bv32) << 8) | ((b2 as bv32) << 16) | ((b3 as bv32) << 24)
  }

  function ByteAt(key: seq<byte>, i: nat): byte {
    if i < |key| then key[i] else 0
  }

  /** The `i`th word of the key, with zeros past its end. */
  function WordAt(key: seq<byte>, i: nat): bv32 {
    Word(ByteAt(key, 4 * i), ByteAt(key, 4 * i + 1), ByteAt(key, 4 * i + 2), ByteAt(key, 4 * i + 3))
  }

  /** (a, b, c) with the first three words of the key added. */
  function Added(m: Mixed, key: seq<byte>): Mixed {
    Mixed(Add(m.a, WordAt(key, 0)), Add(m.b, WordAt(key, 1)), Add(m.c, WordAt(key, 2)))
  }

  /** Blocks of twelve bytes are mixed in while more than one is left; the last is padded with zeros. */
  function HashFrom(m: Mixed, key: seq<byte>): bv32
    decreases |key|
  {
    if |key| > 12 then HashFrom(Mix(Added(m, key)), key[12..])
    else if key == [] then m.c
    else Final(Added(m, key))
  }

  function Seed(length: nat): Mixed {
    var s := 0xdeadbeef + ((length % 0x1_0000_0000) as bv32);
    Mixed(s, s, s)
  }

  function Hash(key: seq<byte>): bv32 {
    HashFrom(Seed(|key|), key)
  }

  // Known values

  /** The sentence that the hash's author publishes a value for: "Four score and seven years ago". */
  function Sentence(): seq<byte> {
    Part1() + (Part2() + Part3())
  }

  function Part1(): seq<byte> {
    [70, 111, 117, 114, 32, 115, 99, 111, 114, 101, 32, 97]
  }

  function Part2(): seq<byte> {
    [110, 100, 32, 115, 101, 118, 101, 110, 32, 121, 101, 97]
  }

  function Part3(): seq<byte> {
    [114, 115, 32, 97, 103, 111]
  }

  lemma FirstBlock()
    ensures Mix(Mixed(0x51232e53, 0x4e11322d, 0x3fce247f)) == Mixed(0xf859ad7a, 0x04bc57ae, 0x40dddd7e)
  {
  }

  lemma SecondBlock()
    ensures Mix(Mixed(0x6b7a11e8, 0x7321ce13, 0xa243569e)) == Mixed(0x336aded2, 0x059f2642, 0xbd02ebd5)
  {
  }

  lemma LastLine1()
    ensures FinalLine(0xbd02ebd5, 0x059f95a9, Rot(0x059f95a9, 14)) == 0xd3333d15
  {
  }

  lemma LastLine2()
    ensures FinalLine(0x948b5244, 0xd3333d15, Rot(0xd3333d15, 11)) == 0xadcfc0b8
  {
  }

  lemma LastLine3()
    ensures FinalLine(0x059f95a9, 0xadcfc0b8, Rot(0xadcfc0b8, 25)) == 0x36f4b590
  {
  }

  lemma LastLine4()
    ensures FinalLine(0xd3333d15, 0x36f4b590, Rot(0x36f4b590, 16)) == 0x30375191
  {
  }

  lemma LastLine5()
    ensures FinalLine(0xadcfc0b8, 0x30375191, Rot(0x30375191, 4)) == 0x9a837816
  {
  }

  lemma LastLine6()
    ensures FinalLine(0x36f4b590, 0x9a837816, Rot(0x9a837816, 14)) == 0xce7226e6
  {
  }

  lemma LastLine7()
    ensures FinalLine(0x30375191, 0xce7226e6, Rot(0xce7226e6, 24)) == 0x17770551
  {
  }

  lemma LastBlock()
    ensures Final(Mixed(0x948b5244, 0x059f95a9, 0xbd02ebd5)) == 0x17770551
  {
    LastLine1();
    LastLine2();
    LastLine3();
    LastLine4();
    LastLine5();
    LastLine6();
    LastLine7();
    hide FinalLine, Rot;
  }

  lemma WordOf(a: seq<byte>, b: seq<byte>, i: nat)
    requires 4 * i + 4 <= |a|
    ensures WordAt(a + b, i) == Word(a[4 * i], a[4 * i + 1], a[4 * i + 2], a[4 * i + 3])
  {
  }

  lemma Words1(rest: seq<byte>)
    ensures WordAt(Part1() + rest, 0) == 0x72756f46 && WordAt(Part1() + rest, 1) == 0x6f637320
    ensures WordAt(Part1() + rest, 2) == 0x61206572
  {
    var a := Part1();
    WordOf(a, rest, 0);
    WordOf(a, rest, 1);
    WordOf(a, rest, 2);
    hide WordAt;
    assert Word(70, 111, 117, 114) == 0x72756f46;
    assert Word(32, 115, 99, 111) == 0x6f637320;
    assert Word(114, 101, 32, 97) == 0x61206572;
  }

  lemma Words2(rest: seq<byte>)
    ensures WordAt(Part2() + rest, 0) == 0x7320646e && WordAt(Part2() + rest, 1) == 0x6e657665
    ensures WordAt(Part2() + rest, 2) == 0x61657920
  {
    var a := Part2();
    WordOf(a, rest, 0);
    WordOf(a, rest, 1);
    WordOf(a, rest, 2);
    hide WordAt;
    assert Word(110, 100, 32, 115) == 0x7320646e;
    assert Word(101, 118, 101, 110) == 0x6e657665;
    assert Word(32, 121, 101, 97) == 0x61657920;
  }

  lemma Words3()
    ensures WordAt(Part3(), 0) == 0x61207372 && WordAt(Part3(), 1) == 0x00006f67 && WordAt(Part3(), 2) == 0
  {
    assert Word(114, 115, 32, 97) == 0x61207372;
    assert Word(103, 111, 0, 0) == 0x00006f67;
  }

  lemma Block1(rest: seq<byte>)
    ensures Added(Seed(30), Part1() + rest) == Mixed(0x51232e53, 0x4e11322d, 0x3fce247f)
  {
    Words1(rest);
    hide WordAt, Part1;
  }

  lemma Block2(rest: seq<byte>)
    ensures Added(Mixed(0xf859ad7a, 0x04bc57ae, 0x40dddd7e), Part2() + rest) ==
      Mixed(0x6b7a11e8, 0x7321ce13, 0xa243569e)
  {
    Words2(rest);
    hide WordAt, Part2;
  }

  lemma Block3()
    ensures Added(Mixed(0x336aded2, 0x059f2642, 0xbd02ebd5), Part3()) == Mixed(0x948b5244, 0x059f95a9, 0xbd02ebd5)
  {
    Words3();
    hide WordAt, Part3;
  }

  /** The published value, and that of the empty key. */
  lemma KnownValues()
    ensures Hash(Sentence()) == 0x17770551 && Hash([]) == 0xdeadbeef
  {
    var s, t := Part2() + Part3(), Part3();
    FirstBlock();
    SecondBlock();
    LastBlock();
    Block1(s);
    Block2(t);
    Block3();
    Lengths();
    hide Mix, Final, Added, Part1, Part2, Part3;
    assert (Part1() + s)[12..] == s && (Part2() + t)[12..] == t;
    assert Hash(Sentence()) == HashFrom(Seed(30), Part1() + s);
    assert HashFrom(Seed(30), Part1() + s) == HashFrom(Mixed(0xf859ad7a, 0x04bc57ae, 0x40dddd7e), s);
    assert HashFrom(Mixed(0xf859ad7a, 0x04bc57ae, 0x40dddd7e), s) ==
      HashFrom(Mixed(0x336aded2, 0x059f2642, 0xbd02ebd5), t);
  }

  lemma Lengths()
    ensures |Part1()| == 12 && |Part2()| == 12 && |Part3()| == 6
  {
  }

  // Sums of bytes

  /** A byte as it is added: shifted to its place. */
  function Placed(b: byte, j: nat): bv32
    requires j < 4
  {
    if j == 0 then b as bv32
    else if j == 1 then (b as bv32) << 8
    else if j == 2 then (b as bv32) << 16
    else (b as bv32) << 24
  }

  /** Two bytes read as a 16-bit word, and the same shifted up. */
  function Half(b0: byte, b1: byte): bv32 {
    (b0 as bv32) | ((b1 as bv32) << 8)
  }

  function Upper(b0: byte, b1: byte): bv32 {
    ((b0 as bv32) | ((b1 as bv32) << 8)) << 16
  }

  // Each fact first with the sums and shifts written out, then by name.

  lemma RawPair(b0: byte, b1: byte)
    ensures Add(b0 as bv32, (b1 as bv32) << 8) == (b0 as bv32) | ((b1 as bv32) << 8)
  {
  }

  lemma RawThree(b0: byte, b1: byte, b2: byte)
    ensures Add((b0 as bv32) | ((b1 as bv32) << 8), (b2 as bv32) << 16) ==
      (b0 as bv32) | ((b1 as bv32) << 8) | ((b2 as bv32) << 16)
  {
  }

  lemma RawFour(b0: byte, b1: byte, b2: byte, b3: byte)
    ensures Add((b0 as bv32) | ((b1 as bv32) << 8) | ((b2 as bv32) << 16), (b3 as bv32) << 24) ==
            (b0 as bv32) | ((b1 as bv32) << 8) | ((b2 as bv32) << 16) | ((b3 as bv32) << 24)
  {
  }

  lemma RawHalves(b0: byte, b1: byte, b2: byte, b3: byte)
    ensures Add((b0 as bv32) | ((b1 as bv32) << 8), ((b2 as bv32) | ((b3 as bv32) << 8)) << 16) ==
            (b0 as bv32) | ((b1 as bv32) << 8) | ((b2 as bv32) << 16) | ((b3 as bv32) << 24)
  {
  }

  lemma RawWords(b0: byte, b1: byte, b2: byte)
    ensures Word(0, 0, 0, 0) == 0 && Word(b0, 0, 0, 0) == b0 as bv32
    ensures Word(b0, b1, 0, 0) == (b0 as bv32) | ((b1 as bv32) << 8)
    ensures Word(b0, b1, b2, 0) == (b0 as bv32) | ((b1 as bv32) << 8) | ((b2 as bv32) << 16)
  {
  }

  /** Bytes shifted to their places add up to the word they make. */
  lemma WordSums(b0: byte, b1: byte, b2: byte, b3: byte)
    ensures Word(b0, 0, 0, 0) == Placed(b0, 0) && Word(0, 0, 0, 0) == 0
    ensures Add(Placed(b0, 0), Placed(b1, 1)) == Word(b0, b1, 0, 0)
    ensures Add(Word(b0, b1, 0, 0), Placed(b2, 2)) == Word(b0, b1, b2, 0)
    ensures Add(Word(b0, b1, b2, 0), Placed(b3, 3)) == Word(b0, b1, b2, b3)
    ensures Half(b0, b1) == Word(b0, b1, 0, 0)
    ensures Add(Half(b0, b1), Upper(b2, b3)) == Word(b0, b1, b2, b3)
  {
    hide Add;
    RawWords(b0, b1, b2);
    RawPair(b0, b1);
    RawThree(b0, b1, b2);
    RawFour(b0, b1, b2, b3);
    RawHalves(b0, b1, b2, b3);
  }

  lemma RawAssoc(x: bv32, y: bv32, z: bv32)
    ensures Add(x + y, z) == Add(x, y + z)
  {
  }

  lemma AddAssoc(x: bv32, y: bv32, z: bv32)
    ensures Add(Add(x, y), z) == Add(x, Add(y, z))
  {
    RawAssoc(x, y, z);
    assert Add(x, y) == x + y && Add(y, z) == y + z;
    hide Add;
  }

  lemma AddComm(x: bv32, y: bv32)
    ensures Add(x, y) == Add(y, x) && Add(x, 0) == x
  {
  }

  /** The low `n` bytes of a word, by the masks of the last block. */
  function Keep(w: bv32, n: nat): bv32
    requires 1 <= n <= 4
  {
    if n == 4 then w else if n == 3 then w & 0xffffff else if n == 2 then w & 0xffff else w & 0xff
  }

  lemma RawKeep(b0: byte, b1: byte, b2: byte, b3: byte)
    ensures Keep((b0 as bv32) | ((b1 as bv32) << 8) | ((b2 as bv32) << 16) | ((b3 as bv32) << 24), 3) ==
            (b0 as bv32) | ((b1 as bv32) << 8) | ((b2 as bv32) << 16)
    ensures Keep((b0 as bv32) | ((b1 as bv32) << 8) | ((b2 as bv32) << 16) | ((b3 as bv32) << 24), 2) ==
            (b0 as bv32) | ((b1 as bv32) << 8)
    ensures Keep((b0 as bv32) | ((b1 as bv32) << 8) | ((b2 as bv32) << 16) | ((b3 as bv32) << 24), 1) == b0 as bv32
  {
  }

  function First(b: byte, n: nat, j: nat): byte {
    if j < n then b else 0
  }

  /** A word of which only the first `n` bytes belong to the key. */
  function Part(b0: byte, b1: byte, b2: byte, b3: byte, n: nat): bv32 {
    Word(First(b0, n, 0), First(b1, n, 1), First(b2, n, 2), First(b3, n, 3))
  }

  lemma KeepIsPart(b0: byte, b1: byte, b2: byte, b3: byte, n: nat)
    requires 1 <= n <= 4
    ensures Keep(Word(b0, b1, b2, b3), n) == Part(b0, b1, b2, b3, n)
  {
    assert Keep(Word(b0, b1, b2, b3), 4) == Word(b0, b1, b2, b3);
    hide Keep;
    RawKeep(b0, b1, b2, b3);
    RawWords(b0, b1, b2);
  }

  /** A full block, byte by byte. */
  lemma Ascending(x: bv32, b0: byte, b1: byte, b2: byte, b3: byte)
    ensures Add(Add(Add(Add(x, Placed(b0, 0)), Placed(b1, 1)), Placed(b2, 2)), Placed(b3, 3)) ==
      Add(x, Word(b0, b1, b2, b3))
  {
    hide Add, Placed, Word, Half, Upper;
    WordSums(b0, b1, b2, b3);
    AddAssoc(x, Placed(b0, 0), Placed(b1, 1));
    AddAssoc(x, Word(b0, b1, 0, 0), Placed(b2, 2));
    AddAssoc(x, Word(b0, b1, b2, 0), Placed(b3, 3));
  }

  /** The last block, byte by byte: the cases fall through from the highest byte to the lowest. */
  function Falling(x: bv32, b0: byte, b1: byte, b2: byte, b3: byte, n: nat): bv32 {
    var x3 := if n >= 4 then Add(x, Placed(b3, 3)) else x;
    var x2 := if n >= 3 then Add(x3, Placed(b2, 2)) else x3;
    var x1 := if n >= 2 then Add(x2, Placed(b1, 1)) else x2;
    if n >= 1 then Add(x1, Placed(b0, 0)) else x1
  }

  lemma FallingIsPart(x: bv32, b0: byte, b1: byte, b2: byte, b3: byte, n: nat)
    ensures Falling(x, b0, b1, b2, b3, n) == Add(x, Part(b0, b1, b2, b3, n))
  {
    hide Add, Placed, Word, Half, Upper;
    WordSums(b0, b1, b2, b3);
    AddComm(x, 0);
    var p0, p1, p2, p3 := Placed(b0, 0), Placed(b1, 1), Placed(b2, 2), Placed(b3, 3);
    Turn(x, p0, p1);
    Turn(Add(x, p2), p0, p1);
    Turn(Add(Add(x, p3), p2), p0, p1);
    Turn(x, Add(p0, p1), p2);
    Turn(Add(x, p3), Add(p0, p1), p2);
    Turn(x, Add(Add(p0, p1), p2), p3);
  }

  /** Adding two things one after the other is adding their sum, in either order. */
  lemma Turn(x: bv32, p: bv32, q: bv32)
    ensures Add(Add(x, q), p) == Add(x, Add(p, q)) && Add(Add(x, p), q) == Add(x, Add(p, q))
  {
    hide Add;
    AddAssoc(x, q, p);
    AddAssoc(x, p, q);
    AddComm(p, q);
  }

  /** The last block in 16-bit words: a lone third byte is added before the word below it. */
  function Halves(x: bv32, b0: byte, b1: byte, b2: byte, b3: byte, n: nat): bv32 {
    if n >= 4 then Add(x, Add(Half(b0, b1), Upper(b2, b3)))
    else if n == 3 then Add(Add(x, Placed(b2, 2)), Half(b0, b1))
    else if n == 2 then Add(x, Half(b0, b1))
    else if n == 1 then Add(x, Placed(b0, 0))
    else x
  }

  lemma HalvesIsPart(x: bv32, b0: byte, b1: byte, b2: byte, b3: byte, n: nat)
    ensures Halves(x, b0, b1, b2, b3, n) == Add(x, Part(b0, b1, b2, b3, n))
  {
    hide Add, Placed, Word, Half, Upper;
    WordSums(b0, b1, b2, b3);
    AddComm(x, 0);
    Turn(x, Half(b0, b1), Placed(b2, 2));
  }

  // Reading the key

  function Over(n: nat, k: nat): nat {
    if n > k then n - k else 0
  }

  /** The words of what is left of a key, from any memory that begins with it. */
  lemma PartOfKey(mem: seq<byte>, length: nat, i: nat, j: nat)
    requires i <= length <= |mem|
    ensures WordAt(mem[..length][i..], j) ==
      Part(ByteAt(mem, i + 4 * j), ByteAt(mem, i + 4 * j + 1), ByteAt(mem, i + 4 * j + 2), ByteAt(mem, i + 4 * j + 3),
        Over(length - i, 4 * j))
  {
    var key, n, at := mem[..length][i..], Over(length - i, 4 * j), i + 4 * j;
    assert ByteAt(key, 4 * j) == First(ByteAt(mem, at), n, 0);
    assert ByteAt(key, 4 * j + 1) == First(ByteAt(mem, at + 1), n, 1);
    assert ByteAt(key, 4 * j + 2) == First(ByteAt(mem, at + 2), n, 2);
    assert ByteAt(key, 4 * j + 3) == First(ByteAt(mem, at + 3), n, 3);
    hide Word;
  }

  function Read32(mem: seq<byte>, i: nat): bv32
    requires i + 4 <= |mem|
  {
    Word(mem[i], mem[i + 1], mem[i + 2], mem[i + 3])
  }

  lemma WholePart(b0: byte, b1: byte, b2: byte, b3: byte, n: nat)
    requires n >= 4
    ensures Part(b0, b1, b2, b3, n) == Word(b0, b1, b2, b3)
  {
  }

  lemma NoPart(b0: byte, b1: byte, b2: byte, b3: byte)
    ensures Part(b0, b1, b2, b3, 0) == 0
  {
    RawWords(b0, b1, b2);
  }

  /** A 32-bit read of the `j`th word, masked where the key ends. */
  method AddWord(mem: seq<byte>, length: nat, i: nat, j: nat, x: bv32) returns (r: bv32)
    requires i <= length <= |mem| && |mem| % 4 == 0 && i % 4 == 0
    ensures r == Add(x, WordAt(mem[..length][i..], j))
  {
    hide Add, Word, Keep, Part, WordAt;
    PartOfKey(mem, length, i, j);
    var at := i + 4 * j;
    AddComm(x, 0);
    if length <= at {
      NoPart(ByteAt(mem, at), ByteAt(mem, at + 1), ByteAt(mem, at + 2), ByteAt(mem, at + 3));
      return x;
    }
    var n := length - at;
    assert at + 4 <= |mem|;
    if n >= 4 {
      WholePart(mem[at], mem[at + 1], mem[at + 2], mem[at + 3], n);
      r := Add(x, Read32(mem, at));
    } else {
      KeepIsPart(mem[at], mem[at + 1], mem[at + 2], mem[at + 3], n);
      r := Add(x, Keep(Read32(mem, at), n));
    }
  }

  /** The same in 16-bit reads, with single bytes where the key ends. */
  method AddHalves(mem: seq<byte>, length: nat, i: nat, j: nat, x: bv32) returns (r: bv32)
    requires i <= length <= |mem|
    ensures r == Add(x, WordAt(mem[..length][i..], j))
  {
    hide Add, Word, Part, WordAt, Placed, Half, Upper;
    PartOfKey(mem, length, i, j);
    var at := i + 4 * j;
    HalvesIsPart(x, ByteAt(mem, at), ByteAt(mem, at + 1), ByteAt(mem, at + 2), ByteAt(mem, at + 3),
      Over(length - i, 4 * j));
    r := x;
    if length >= at + 4 {
      r := Add(r, Add(Half(mem[at], mem[at + 1]), Upper(mem[at + 2], mem[at + 3])));
    } else {
      if length == at + 3 {
        r := Add(r, Placed(mem[at + 2], 2));
      }
      if length >= at + 2 {
        r := Add(r, Half(mem[at], mem[at + 1]));
      } else if length == at + 1 {
        r := Add(r, Placed(mem[at], 0));
      }
    }
  }

  /** A word of a full block byte by byte, from the lowest. */
  method AddBytesUp(mem: seq<byte>, length: nat, i: nat, j: nat, x: bv32) returns (r: bv32)
    requires i + 4 * j + 4 <= length <= |mem|
    ensures r == Add(x, WordAt(mem[..length][i..], j))
  {
    hide Add, Word, Part, WordAt, Placed;
    PartOfKey(mem, length, i, j);
    var at := i + 4 * j;
    WholePart(mem[at], mem[at + 1], mem[at + 2], mem[at + 3], Over(length - i, 4 * j));
    Ascending(x, mem[at], mem[at + 1], mem[at + 2], mem[at + 3]);
    r := Add(x, Placed(mem[at], 0));
    r := Add(r, Placed(mem[at + 1], 1));
    r := Add(r, Placed(mem[at + 2], 2));
    r := Add(r, Placed(mem[at + 3], 3));
  }

  /** The last block byte by byte, from the highest that is left. */
  method AddBytes(mem: seq<byte>, length: nat, i: nat, j: nat, x: bv32) returns (r: bv32)
    requires i <= length <= |mem|
    ensures r == Add(x, WordAt(mem[..length][i..], j))
  {
    hide Add, Word, Part, WordAt, Placed;
    PartOfKey(mem, length, i, j);
    var at := i + 4 * j;
    FallingIsPart(x, ByteAt(mem, at), ByteAt(mem, at + 1), ByteAt(mem, at + 2), ByteAt(mem, at + 3),
      Over(length - i, 4 * j));
    r := x;
    if length >= at + 4 {
      r := Add(r, Placed(mem[at + 3], 3));
    }
    if length >= at + 3 {
      r := Add(r, Placed(mem[at + 2], 2));
    }
    if length >= at + 2 {
      r := Add(r, Placed(mem[at + 1], 1));
    }
    if length >= at + 1 {
      r := Add(r, Placed(mem[at], 0));
    }
  }

  /** A key at a multiple of four: whole words are read, also past the end of the key. */
  method HashWords(mem: seq<byte>, length: nat) returns (r: bv32)
    requires length <= |mem| && |mem| % 4 == 0
    ensures r == Hash(mem[..length])
  {
    hide Add, WordAt, Mix, Final, Seed;
    var m := Seed(length);
    var a, b, c := m.a, m.b, m.c;
    var i, left := 0, length;
    ghost var key := mem[..length];
    assert key[0..] == key;
    while left > 12
      invariant i + left == length && i % 4 == 0 && HashFrom(Mixed(a, b, c), key[i..]) == Hash(key)
    {
      a := AddWord(mem, length, i, 0, a);
      b := AddWord(mem, length, i, 1, b);
      c := AddWord(mem, length, i, 2, c);
      var n := Mix(Mixed(a, b, c));
      a, b, c := n.a, n.b, n.c;
      assert key[i..][12..] == key[i + 12..];
      i, left := i + 12, left - 12;
    }
    if left == 0 {
      return c;
    }
    c := AddWord(mem, length, i, 2, c);
    b := AddWord(mem, length, i, 1, b);
    a := AddWord(mem, length, i, 0, a);
    r := Final(Mixed(a, b, c));
  }

  /** A key at an even address. */
  method HashHalves(mem: seq<byte>, length: nat) returns (r: bv32)
    requires length <= |mem|
    ensures r == Hash(mem[..length])
  {
    hide Add, WordAt, Mix, Final, Seed;
    var m := Seed(length);
    var a, b, c := m.a, m.b, m.c;
    var i, left := 0, length;
    ghost var key := mem[..length];
    assert key[0..] == key;
    while left > 12
      invariant i + left == length && i % 4 == 0 && HashFrom(Mixed(a, b, c), key[i..]) == Hash(key)
    {
      a := AddHalves(mem, length, i, 0, a);
      b := AddHalves(mem, length, i, 1, b);
      c := AddHalves(mem, length, i, 2, c);
      var n := Mix(Mixed(a, b, c));
      a, b, c := n.a, n.b, n.c;
      assert key[i..][12..] == key[i + 12..];
      i, left := i + 12, left - 12;
    }
    if left == 0 {
      return c;
    }
    c := AddHalves(mem, length, i, 2, c);
    b := AddHalves(mem, length, i, 1, b);
    a := AddHalves(mem, length, i, 0, a);
    r := Final(Mixed(a, b, c));
  }

  /** A key at any address. */
  method HashBytes(mem: seq<byte>, length: nat) returns (r: bv32)
    requires length <= |mem|
    ensures r == Hash(mem[..length])
  {
    hide Add, WordAt, Mix, Final, Seed;
    var m := Seed(length);
    var a, b, c := m.a, m.b, m.c;
    var i, left := 0, length;
    ghost var key := mem[..length];
    assert key[0..] == key;
    while left > 12
      invariant i + left == length && i % 4 == 0 && HashFrom(Mixed(a, b, c), key[i..]) == Hash(key)
    {
      a := AddBytesUp(mem, length, i, 0, a);
      b := AddBytesUp(mem, length, i, 1, b);
      c := AddBytesUp(mem, length, i, 2, c);
      var n := Mix(Mixed(a, b, c));
      a, b, c := n.a, n.b, n.c;
      assert key[i..][12..] == key[i + 12..];
      i, left := i + 12, left - 12;
    }
    if left == 0 {
      return c;
    }
    c := AddBytes(mem, length, i, 2, c);
    b := AddBytes(mem, length, i, 1, b);
    a := AddBytes(mem, length, i, 0, a);
    r := Final(Mixed(a, b, c));
  }

  /** `jenkins_hash`: however the key is aligned, and whatever lies behind it, the value depends on the
      bytes of the key alone.  `mem` is the memory from the key on, to the end of an aligned word. */
  method JenkinsHash(mem: seq<byte>, length: nat, address: nat) returns (r: bv32)
    requires length <= |mem| && (address + |mem|) % 4 == 0
    ensures r == Hash(mem[..length])
  {
    if address % 4 == 0 {
      r := HashWords(mem, length);
    } else if address % 2 == 0 {
      r := HashHalves(mem, length);
    } else {
      r := HashBytes(mem, length);
    }
  }
}
