/** What base64 is: the bits of the data, first bit first, in groups of six, each written as a letter of the alphabet
    of section 4 of RFC 4648. */
module Base64Bits {
  import opened Basics
  import opened Base64

  /** Table 1 of RFC 4648: A to Z, a to z, 0 to 9, + and /. */
  function Alphabet(): (t: seq<byte>)
    ensures |t| == 64
  {
    Upper() + Lower() + Others()
  }

  function Upper(): seq<byte> {
    [65, 66, 67, 68, 69, 70, 71, 72, 73, 74, 75, 76, 77, 78, 79, 80, 81, 82, 83, 84, 85, 86, 87, 88, 89, 90]
  }

  function Lower(): seq<byte> {
    [97, 98, 99, 100, 101, 102, 103, 104, 105, 106, 107, 108, 109, 110, 111, 112, 113, 114,
     115, 116, 117, 118, 119, 120, 121, 122]
  }

  function Others(): seq<byte> {
    [48, 49, 50, 51, 52, 53, 54, 55, 56, 57, 43, 47]
  }

  predicate Has(x: byte, bit: byte) {
    x & bit != 0
  }

  /** The bits of a byte, most significant first. */
  function Bits8(x: byte): (s: seq<bool>)
    ensures |s| == 8
  {
    [Has(x, 0x80), Has(x, 0x40), Has(x, 0x20), Has(x, 0x10), Has(x, 8), Has(x, 4), Has(x, 2), Has(x, 1)]
  }

  function BitString(s: seq<byte>): seq<bool> {
    if s == [] then [] else Bits8(s[0]) + BitString(s[1..])
  }

  function Worth(b: bool, n: nat): nat {
    if b then n else 0
  }

  /** Six bits as a number. */
  function Number(g: seq<bool>): (n: nat)
    requires |g| == 6
    ensures n < 64
  {
    Worth(g[0], 32) + Worth(g[1], 16) + Worth(g[2], 8) + Worth(g[3], 4) + Worth(g[4], 2) + Worth(g[5], 1)
  }

  function Letters(bits: seq<bool>): seq<byte> {
    if |bits| < 6 then [] else [Alphabet()[Number(bits[..6])]] + Letters(bits[6..])
  }

  /** The definition: zero bits fill up the last group, and signs of padding the last four letters. */
  function Text(s: seq<byte>): seq<byte> {
    Letters(BitString(s) + Filling(|s| % 3)) + Padding(|s| % 3)
  }

  function Filling(over: nat): seq<bool> {
    if over == 1 then [false, false, false, false] else if over == 2 then [false, false] else []
  }

  function Padding(over: nat): seq<byte> {
    if over == 1 then [PAD, PAD] else if over == 2 then [PAD] else []
  }

  // Letters of numbers

  lemma UpperIs(v: byte)
    requires v < 26
    ensures Upper()[v as int] == Symbol(v)
  {
  }

  lemma LowerIs(v: byte)
    requires 26 <= v < 52
    ensures Lower()[v as int - 26] == Symbol(v)
  {
  }

  lemma OthersAre(v: byte)
    requires 52 <= v < 64
    ensures Others()[v as int - 52] == Symbol(v)
  {
  }

  lemma SymbolIs(v: byte)
    requires v < 64
    ensures Alphabet()[v as int] == Symbol(v)
  {
    if v < 26 {
      UpperIs(v);
    } else if v < 52 {
      LowerIs(v);
    } else {
      OthersAre(v);
    }
    hide Upper, Lower, Others, Symbol;
  }

  lemma UpperValue(c: byte)
    requires 65 <= c <= 90
    ensures Value(c) < 26 && Symbol(Value(c)) == c
  {
  }

  lemma LowerValue(c: byte)
    requires 97 <= c <= 122
    ensures 26 <= Value(c) < 52 && Symbol(Value(c)) == c
  {
  }

  lemma OtherValue(c: byte)
    requires 48 <= c <= 57 || c == 43 || c == 47
    ensures 52 <= Value(c) < 64 && Symbol(Value(c)) == c
  {
  }

  lemma SymbolRange(v: byte)
    requires v < 64
    ensures var c := Symbol(v); 65 <= c <= 90 || 97 <= c <= 122 || 48 <= c <= 57 || c == 43 || c == 47
  {
  }

  /** The decoder takes exactly the letters of the alphabet, each for its place in it, and the sign of padding; all
      else is nothing to it. */
  lemma ValueIs(c: byte)
    ensures Value(c) == NOTHING <==> c != PAD && c !in Alphabet()
    ensures c in Alphabet() ==> Value(c) < 64 && Alphabet()[Value(c) as int] == c
    ensures Value(PAD) == 0
  {
    hide Alphabet, Symbol;
    if 65 <= c <= 90 || 97 <= c <= 122 || 48 <= c <= 57 || c == 43 || c == 47 {
      if 65 <= c <= 90 { UpperValue(c); } else if 97 <= c <= 122 { LowerValue(c); } else { OtherValue(c); }
      SymbolIs(Value(c));
    } else if c in Alphabet() {
      var i :| 0 <= i < 64 && Alphabet()[i] == c;
      SymbolIs(i as byte);
      SymbolRange(i as byte);
    }
  }

  function Bits6(v: byte): (g: seq<bool>)
    ensures |g| == 6
  {
    [Has(v, 0x20), Has(v, 0x10), Has(v, 8), Has(v, 4), Has(v, 2), Has(v, 1)]
  }

  function Bit(v: byte, n: byte): byte {
    if v & n != 0 then n else 0
  }

  lemma SumOfBits(v: byte)
    requires v < 64
    ensures v == Bit(v, 32) + Bit(v, 16) + Bit(v, 8) + Bit(v, 4) + Bit(v, 2) + Bit(v, 1)
  {
  }

  lemma NumberIs(v: byte)
    requires v < 64
    ensures Number(Bits6(v)) == v as int
  {
    SumOfBits(v);
    var a, b, c, d, e, f := Bit(v, 32), Bit(v, 16), Bit(v, 8), Bit(v, 4), Bit(v, 2), Bit(v, 1);
    assert (a + b + c + d + e + f) as int == a as int + b as int + c as int + d as int + e as int + f as int;
  }

  // Groups of six

  lemma Group0Bits(a: byte)
    ensures Bits6(Group0(a)) == Bits8(a)[..6]
  {
  }

  lemma Group1Bits(a: byte, b: byte)
    ensures Bits6(Group1(a, b)) == Bits8(a)[6..] + Bits8(b)[..4]
  {
    hide Group1, Has;
    Raw1(a, b);
  }

  lemma Raw1(a: byte, b: byte)
    ensures var g := Group1(a, b);
      (Has(g, 0x20) <==> Has(a, 2)) && (Has(g, 0x10) <==> Has(a, 1)) && (Has(g, 8) <==> Has(b, 0x80)) &&
      (Has(g, 4) <==> Has(b, 0x40)) && (Has(g, 2) <==> Has(b, 0x20)) && (Has(g, 1) <==> Has(b, 0x10))
  {
  }

  lemma Group2Bits(b: byte, c: byte)
    ensures Bits6(Group2(b, c)) == Bits8(b)[4..] + Bits8(c)[..2]
  {
  }

  lemma Group3Bits(c: byte)
    ensures Bits6(Group3(c)) == Bits8(c)[2..]
  {
  }

  /** The letter of a group in front of further bits. */
  lemma NextLetter(v: byte, rest: seq<bool>)
    requires v < 64
    ensures Letters(Bits6(v) + rest) == [Symbol(v)] + Letters(rest)
  {
    hide Bits6, Number, Symbol, Alphabet;
    NumberIs(v);
    SymbolIs(v);
    var all := Bits6(v) + rest;
    assert all[..6] == Bits6(v) && all[6..] == rest;
  }

  lemma Letters3(a: byte, b: byte, c: byte, rest: seq<bool>)
    ensures Letters(Bits8(a) + Bits8(b) + Bits8(c) + rest) == Encode3(a, b, c) + Letters(rest)
  {
    hide Bits6, Bits8, Letters, Symbol, Group0, Group1, Group2, Group3;
    Group0Bits(a);
    Group1Bits(a, b);
    Group2Bits(b, c);
    Group3Bits(c);
    SmallGroups(a, b);
    SmallGroups(b, c);
    SmallGroups(c, c);
    var g0, g1, g2, g3 := Group0(a), Group1(a, b), Group2(b, c), Group3(c);
    var r3 := Bits6(g3) + rest;
    var r2 := Bits6(g2) + r3;
    var r1 := Bits6(g1) + r2;
    assert Bits8(a) + Bits8(b) + Bits8(c) + rest == Bits6(g0) + r1;
    NextLetter(g3, rest);
    NextLetter(g2, r3);
    NextLetter(g1, r2);
    NextLetter(g0, r1);
  }

  lemma NoLetters()
    ensures Letters([]) == []
  {
  }

  lemma ZeroBits()
    ensures Bits8(0) == [false, false, false, false, false, false, false, false]
  {
  }

  /** Bits cut at one place and put together again. */
  lemma Regrouped(s: seq<bool>, k: nat, rest: seq<bool>, front: seq<bool>, back: seq<bool>)
    requires k <= |s| && front == s[..k] && back == s[k..] + rest
    ensures s + rest == front + back
  {
    assert s == s[..k] + s[k..];
  }

  lemma Letters2(a: byte, b: byte)
    ensures Letters(Bits8(a) + Bits8(b) + [false, false]) + [PAD] == Encode2(a, b)
  {
    hide Bits6, Bits8, Letters, Symbol, Group0, Group1, Group2;
    Group0Bits(a);
    Group1Bits(a, b);
    Group2Bits(b, 0);
    ZeroBits();
    SmallGroups(a, b);
    SmallGroups(b, 0);
    var g0, g1, g2 := Group0(a), Group1(a, b), Group2(b, 0);
    var r2 := Bits6(g2) + [];
    var r1 := Bits6(g1) + r2;
    Regrouped(Bits8(b), 4, [false, false], Bits8(b)[..4], r2);
    Regrouped(Bits8(a), 6, Bits8(b) + [false, false], Bits6(g0), r1);
    assert Bits8(a) + Bits8(b) + [false, false] == Bits8(a) + (Bits8(b) + [false, false]);
    NoLetters();
    NextLetter(g2, []);
    NextLetter(g1, r2);
    NextLetter(g0, r1);
  }

  lemma Letters1(a: byte)
    ensures Letters(Bits8(a) + [false, false, false, false]) + [PAD, PAD] == Encode1(a)
  {
    hide Bits6, Bits8, Letters, Symbol, Group0, Group1;
    Group0Bits(a);
    Group1Bits(a, 0);
    ZeroBits();
    SmallGroups(a, 0);
    var g0, g1 := Group0(a), Group1(a, 0);
    var r1 := Bits6(g1) + [];
    Regrouped(Bits8(a), 6, [false, false, false, false], Bits6(g0), r1);
    NoLetters();
    NextLetter(g1, []);
    NextLetter(g0, r1);
  }

  /** Every string is encoded as the definition says. */
  lemma {:induction false} EncodedIsText(s: seq<byte>)
    ensures Encoded(s) == Text(s)
  {
    hide Bits8, Letters, Encode1, Encode2, Encode3, BitString, Text, Filling, Padding;
    if |s| < 3 {
      ShortText(s);
    } else {
      EncodedIsText(s[3..]);
      LongText(s);
    }
  }

  lemma ShortText(s: seq<byte>)
    requires |s| < 3
    ensures Encoded(s) == Text(s)
  {
    hide Encoded, Text;
    if |s| == 0 { NoText(s); } else if |s| == 1 { TextOfOne(s); } else { TextOfTwo(s); }
  }

  lemma NoText(s: seq<byte>)
    requires s == []
    ensures Encoded(s) == Text(s)
  {
    hide Letters, BitString;
    NoBits();
    NoLetters();
    assert BitString(s) + Filling(0) == [];
  }

  lemma TextOfOne(s: seq<byte>)
    requires |s| == 1
    ensures Encoded(s) == Text(s)
  {
    hide Bits8, Letters, Encode1, BitString;
    NoBits();
    NextBits(s);
    assert s[1..] == [] && BitString(s) == Bits8(s[0]);
    Letters1(s[0]);
  }

  lemma TextOfTwo(s: seq<byte>)
    requires |s| == 2
    ensures Encoded(s) == Text(s)
  {
    hide Bits8, Letters, Encode2, BitString;
    NoBits();
    NextBits(s);
    NextBits(s[1..]);
    assert s[1..][1..] == [] && BitString(s) == Bits8(s[0]) + Bits8(s[1]);
    Letters2(s[0], s[1]);
  }

  lemma LongText(s: seq<byte>)
    requires |s| >= 3
    ensures Text(s) == Encode3(s[0], s[1], s[2]) + Text(s[3..])
  {
    hide Bits8, Letters, Encode3, BitString, Filling, Padding;
    assert |s[3..]| % 3 == |s| % 3;
    LongerBy3(s, Filling(|s| % 3));
  }

  lemma LongerBy3(s: seq<byte>, fill: seq<bool>)
    requires |s| >= 3
    ensures Letters(BitString(s) + fill) == Encode3(s[0], s[1], s[2]) + Letters(BitString(s[3..]) + fill)
  {
    hide Bits8, Letters, Encode3, BitString;
    var rest := BitString(s[3..]) + fill;
    BitsOfThree(s);
    assert BitString(s) + fill == Bits8(s[0]) + Bits8(s[1]) + Bits8(s[2]) + rest;
    Letters3(s[0], s[1], s[2], rest);
  }

  lemma BitsOfThree(s: seq<byte>)
    requires |s| >= 3
    ensures BitString(s) == Bits8(s[0]) + Bits8(s[1]) + Bits8(s[2]) + BitString(s[3..])
  {
    hide Bits8, BitString;
    var t := s[1..];
    var u := t[1..];
    assert u[1..] == s[3..];
    NextBits(s);
    NextBits(t);
    NextBits(u);
    Chain(Bits8(s[0]), Bits8(s[1]), Bits8(s[2]), BitString(s[3..]));
  }

  lemma NoBits()
    ensures BitString([]) == []
  {
  }

  lemma NextBits(s: seq<byte>)
    requires s != []
    ensures BitString(s) == Bits8(s[0]) + BitString(s[1..])
  {
  }

  lemma Chain(a: seq<bool>, b: seq<bool>, c: seq<bool>, d: seq<bool>)
    ensures a + (b + (c + d)) == a + b + c + d
  {
  }
}
