/** What the register of CRC-32C holds: the remainder of the message, as a polynomial over the field of two
    elements, modulo the generator of section 12.1 of RFC 3720.  A polynomial is the set of its exponents. */
module Crc32cPoly {
  import opened Basics
  import opened Crc32c

  type Poly = set<nat>

  function Generator(): Poly {
    {32, 28, 27, 26, 25, 23, 22, 20, 19, 18, 14, 13, 11, 10, 9, 8, 6, 0}
  }

  function Plus(a: Poly, b: Poly): Poly {
    (a - b) + (b - a)
  }

  /** The product with x^k. */
  function Shift(a: Poly, k: nat): Poly {
    set i | i in a :: i + k
  }

  /** The first bit is the coefficient of the highest power. */
  function PolyOf(bits: seq<bool>): Poly {
    set j | 0 <= j < |bits| && bits[j] :: |bits| - 1 - j
  }

  function Term(b: bool, a: Poly): Poly {
    if b then a else {}
  }

  /** The product of the generator and the polynomial with these coefficients. */
  function Times(q: seq<bool>): Poly {
    if q == [] then {} else Plus(Shift(Times(q[..|q| - 1]), 1), Term(q[|q| - 1], Generator()))
  }

  ghost predicate IsRemainder(r: Poly, p: Poly) {
    (forall i <- r :: i < 32) && exists q :: p == Plus(Times(q), r)
  }

  // Laws of addition and of shifting

  lemma PlusIn(a: Poly, b: Poly, i: nat)
    ensures i in Plus(a, b) <==> (i in a) != (i in b)
  {
  }

  lemma PlusSame(a: Poly, b: Poly)
    requires forall i: nat :: i in a <==> i in b
    ensures a == b
  {
  }

  lemma PlusComm(a: Poly, b: Poly)
    ensures Plus(a, b) == Plus(b, a)
  {
  }

  lemma PlusZero(a: Poly)
    ensures Plus(a, {}) == a && Plus({}, a) == a && Plus(a, a) == {}
  {
  }

  lemma PlusAssoc(a: Poly, b: Poly, c: Poly)
    ensures Plus(Plus(a, b), c) == Plus(a, Plus(b, c))
  {
    forall i: nat
      ensures i in Plus(Plus(a, b), c) <==> i in Plus(a, Plus(b, c))
    {
      PlusIn(a, b, i);
      PlusIn(Plus(a, b), c, i);
      PlusIn(b, c, i);
      PlusIn(a, Plus(b, c), i);
    }
    PlusSame(Plus(Plus(a, b), c), Plus(a, Plus(b, c)));
  }

  lemma PlusFour(a: Poly, b: Poly, c: Poly, d: Poly)
    ensures Plus(Plus(a, b), Plus(c, d)) == Plus(Plus(a, c), Plus(b, d))
  {
    hide Plus;
    PlusAssoc(a, b, Plus(c, d));
    PlusAssoc(b, c, d);
    PlusComm(b, c);
    PlusAssoc(c, b, d);
    PlusAssoc(a, c, Plus(b, d));
  }

  lemma ShiftIn(a: Poly, k: nat, i: nat)
    ensures i in Shift(a, k) <==> i >= k && i - k in a
  {
    if i >= k && i - k in a {
      assert (i - k) + k == i;
    }
  }

  lemma ShiftPlus(a: Poly, b: Poly, k: nat)
    ensures Shift(Plus(a, b), k) == Plus(Shift(a, k), Shift(b, k))
  {
    forall i: nat
      ensures i in Shift(Plus(a, b), k) <==> i in Plus(Shift(a, k), Shift(b, k))
    {
      ShiftIn(Plus(a, b), k, i);
      ShiftIn(a, k, i);
      ShiftIn(b, k, i);
      PlusIn(Shift(a, k), Shift(b, k), i);
      if i >= k { PlusIn(a, b, i - k); }
    }
    PlusSame(Shift(Plus(a, b), k), Plus(Shift(a, k), Shift(b, k)));
  }

  lemma ShiftShift(a: Poly, j: nat, k: nat)
    ensures Shift(Shift(a, j), k) == Shift(a, j + k)
  {
    forall i: nat
      ensures i in Shift(Shift(a, j), k) <==> i in Shift(a, j + k)
    {
      ShiftIn(Shift(a, j), k, i);
      ShiftIn(a, j + k, i);
      if i >= k { ShiftIn(a, j, i - k); }
    }
    PlusSame(Shift(Shift(a, j), k), Shift(a, j + k));
  }

  lemma ShiftNone(a: Poly, k: nat)
    ensures Shift(a, 0) == a && Shift({}, k) == {}
  {
    forall i: nat
      ensures i in Shift(a, 0) <==> i in a
    {
      ShiftIn(a, 0, i);
    }
    PlusSame(Shift(a, 0), a);
  }

  lemma PolyIn(bits: seq<bool>, i: nat)
    ensures i in PolyOf(bits) <==> i < |bits| && bits[|bits| - 1 - i]
  {
    if i < |bits| && bits[|bits| - 1 - i] {
      var j := |bits| - 1 - i;
      assert bits[j] && |bits| - 1 - j == i;
    }
  }

  /** One more bit at the end. */
  lemma PolyNext(bits: seq<bool>, b: bool)
    ensures PolyOf(bits + [b]) == Plus(Shift(PolyOf(bits), 1), Term(b, {0}))
  {
    var next, sum := PolyOf(bits + [b]), Plus(Shift(PolyOf(bits), 1), Term(b, {0}));
    forall i: nat
      ensures i in next <==> i in sum
    {
      PolyIn(bits + [b], i);
      ShiftIn(PolyOf(bits), 1, i);
      PlusIn(Shift(PolyOf(bits), 1), Term(b, {0}), i);
      if i > 0 { PolyIn(bits, i - 1); }
    }
    PlusSame(next, sum);
  }

  /** One more bit at the front. */
  lemma PolyFirst(b: bool, bits: seq<bool>)
    ensures PolyOf([b] + bits) == Plus(Term(b, {|bits|}), PolyOf(bits))
  {
    var all, sum := PolyOf([b] + bits), Plus(Term(b, {|bits|}), PolyOf(bits));
    forall i: nat
      ensures i in all <==> i in sum
    {
      PolyIn([b] + bits, i);
      PolyIn(bits, i);
      PlusIn(Term(b, {|bits|}), PolyOf(bits), i);
    }
    PlusSame(all, sum);
  }

  // There is one remainder

  lemma GeneratorTop()
    ensures 32 in Generator() && forall i <- Generator() :: i <= 32
  {
  }

  lemma {:induction false} MultipleIsHigh(q: seq<bool>)
    ensures Times(q) == {} || exists d :: d in Times(q) && d >= 32
  {
    hide Generator, Plus, Shift;
    GeneratorTop();
    if q != [] {
      var rest, b := q[..|q| - 1], q[|q| - 1];
      MultipleIsHigh(rest);
      ShiftNone({}, 1);
      PlusZero(Term(b, Generator()));
      if Times(rest) != {} {
        var d :| d in Times(rest) && d >= 32;
        ShiftIn(Times(rest), 1, d + 1);
        PlusIn(Shift(Times(rest), 1), Term(b, Generator()), d + 1);
      }
    }
  }

  lemma {:induction false} TimesPad(q: seq<bool>)
    ensures Times([false] + q) == Times(q)
  {
    ShiftNone({}, 1);
    PlusZero({});
    if q == [] {
      assert [false] + q == [false] && [false][..0] == [];
    } else {
      assert ([false] + q)[..|q|] == [false] + q[..|q| - 1];
      TimesPad(q[..|q| - 1]);
    }
  }

  function Zip(p: seq<bool>, q: seq<bool>): (z: seq<bool>)
    requires |p| == |q|
    ensures |z| == |p|
  {
    seq(|p|, i requires 0 <= i < |p| => p[i] != q[i])
  }

  lemma {:induction false} TimesPlus(p: seq<bool>, q: seq<bool>)
    requires |p| == |q|
    ensures Plus(Times(p), Times(q)) == Times(Zip(p, q))
  {
    PlusZero({});
    if p != [] {
      var n := |p| - 1;
      var p', q' := p[..n], q[..n];
      assert Zip(p, q)[..n] == Zip(p', q');
      TimesPlus(p', q');
      hide Plus, Shift;
      PlusFour(Shift(Times(p'), 1), Term(p[n], Generator()), Shift(Times(q'), 1), Term(q[n], Generator()));
      ShiftPlus(Times(p'), Times(q'), 1);
      PlusZero(Generator());
      PlusZero({});
    }
  }

  lemma {:induction false} MultiplesAdd(p: seq<bool>, q: seq<bool>) returns (z: seq<bool>)
    ensures Plus(Times(p), Times(q)) == Times(z)
    decreases |p| + |q| - 2 * (if |p| < |q| then |p| else |q|)
  {
    if |p| == |q| {
      TimesPlus(p, q);
      z := Zip(p, q);
    } else if |p| < |q| {
      TimesPad(p);
      z := MultiplesAdd([false] + p, q);
    } else {
      TimesPad(q);
      z := MultiplesAdd(p, [false] + q);
    }
  }

  lemma OneRemainder(r: Poly, t: Poly, p: Poly)
    requires IsRemainder(r, p) && IsRemainder(t, p)
    ensures r == t
  {
    var a :| p == Plus(Times(a), r);
    var b :| p == Plus(Times(b), t);
    var z := MultiplesAdd(a, b);
    MultipleIsHigh(z);
    SumOfEquals(Times(a), r, Times(b), t);
    forall i: nat
      ensures i in r <==> i in t
    {
      PlusIn(r, t, i);
      if Times(z) != {} {
        var d :| d in Times(z) && d >= 32;
        PlusIn(r, t, d);
      }
    }
    PlusSame(r, t);
  }

  lemma SumOfEquals(a: Poly, r: Poly, b: Poly, t: Poly)
    requires Plus(a, r) == Plus(b, t)
    ensures Plus(a, b) == Plus(r, t)
  {
    forall i: nat
      ensures i in Plus(a, b) <==> i in Plus(r, t)
    {
      PlusIn(a, b, i);
      PlusIn(r, t, i);
      PlusIn(a, r, i);
      PlusIn(b, t, i);
    }
    PlusSame(Plus(a, b), Plus(r, t));
  }

  // The register

  /** The low bits, least significant first. */
  function BitsOf(x: bv32, n: nat): (s: seq<bool>)
    ensures |s| == n
  {
    if n == 0 then [] else [Odd(x)] + BitsOf(Half(x), n - 1)
  }

  /** The register as a polynomial: its lowest bit is the coefficient of x^31. */
  function Reg(c: bv32): Poly {
    PolyOf(BitsOf(c, 32))
  }

  lemma OddXor(a: bv32, b: bv32)
    ensures Odd(Xor(a, b)) == (Odd(a) != Odd(b)) && Half(Xor(a, b)) == Xor(Half(a), Half(b))
  {
    XorShift(a, b);
    LowBit(a);
    LowBit(b);
  }

  lemma {:induction false} BitsXor(a: bv32, b: bv32, n: nat)
    ensures PolyOf(BitsOf(Xor(a, b), n)) == Plus(PolyOf(BitsOf(a, n)), PolyOf(BitsOf(b, n)))
    decreases n
  {
    hide Odd, Half, Xor, PolyOf, Plus;
    if n == 0 {
      assert PolyOf([]) == {} by { EmptyPoly(); }
      PlusZero({});
    } else {
      OddXor(a, b);
      BitsXor(Half(a), Half(b), n - 1);
      PolyFirst(Odd(a), BitsOf(Half(a), n - 1));
      PolyFirst(Odd(b), BitsOf(Half(b), n - 1));
      PolyFirst(Odd(Xor(a, b)), BitsOf(Half(Xor(a, b)), n - 1));
      PlusFour(Term(Odd(a), {n - 1}), PolyOf(BitsOf(Half(a), n - 1)), Term(Odd(b), {n - 1}),
               PolyOf(BitsOf(Half(b), n - 1)));
      PlusZero({n - 1});
      PlusZero({});
    }
  }

  lemma EmptyPoly()
    ensures PolyOf([]) == {}
  {
  }

  // The constants

  function PolyBits(): seq<bool> {
    LowPart() + HighPart()
  }

  function LowPart(): seq<bool> {
    [false, false, false, true, true, true, true, false, true, true, false, true, true, true, false, false]
  }

  function HighPart(): seq<bool> {
    [false, true, true, false, true, true, true, true, false, true, false, false, false, false, false, true]
  }

  function Second(x: bv32): bv32 {
    Half(Half(x))
  }

  lemma Pair(x: bv32, n: nat)
    requires n >= 2
    ensures BitsOf(x, n) == [Odd(x), Odd(Half(x))] + BitsOf(Second(x), n - 2)
  {
    hide Odd, Half;
    var y := Half(x);
    assert BitsOf(x, n) == [Odd(x)] + BitsOf(y, n - 1);
    assert BitsOf(y, n - 1) == [Odd(y)] + BitsOf(Half(y), n - 2);
  }

  lemma Nibble(x: bv32, n: nat)
    requires n >= 4
    ensures BitsOf(x, n) == [Odd(x), Odd(Half(x)), Odd(Second(x)), Odd(Half(Second(x)))] + BitsOf(Quarter(x), n - 4)
  {
    NibbleShifts(x);
    hide Odd, Half, Quarter, Second, BitsOf;
    Pair(x, n);
    Pair(Second(x), n - 2);
  }

  lemma NibbleShifts(x: bv32)
    ensures Half(Half(Half(Half(x)))) == Quarter(x) == Second(Second(x))
  {
  }

  lemma PolyLow()
    ensures BitsOf(POLY, 32) == LowPart() + BitsOf(0x82f6, 16)
  {
    hide BitsOf;
    Nibble(0x82f63b78, 32);
    Nibble(0x82f63b7, 28);
    Nibble(0x82f63b, 24);
    Nibble(0x82f63, 20);
  }

  lemma PolyHigh()
    ensures BitsOf(0x82f6, 16) == HighPart()
  {
    hide BitsOf;
    Nibble(0x82f6, 16);
    Nibble(0x82f, 12);
    Nibble(0x82, 8);
    Nibble(0x8, 4);
    NoneLeft(0);
  }

  lemma PolyBitsAre()
    ensures BitsOf(POLY, 32) == PolyBits()
  {
    hide BitsOf;
    PolyLow();
    PolyHigh();
  }

  lemma NoneLeft(x: bv32)
    ensures BitsOf(x, 0) == []
  {
  }

  lemma PolyIsGenerator()
    ensures Plus(Reg(POLY), {32}) == Generator()
  {
    PolyBitsAre();
    var sum := Plus(Reg(POLY), {32});
    forall i: nat
      ensures i in sum <==> i in Generator()
    {
      PlusIn(Reg(POLY), {32}, i);
      PolyIn(PolyBits(), i);
    }
    PlusSame(sum, Generator());
  }

  lemma {:induction false} NoBits(n: nat)
    ensures PolyOf(BitsOf(0, n)) == {}
  {
    hide PolyOf, Plus;
    EmptyPoly();
    PlusZero({});
    if n > 0 {
      assert !Odd(0) && Half(0) == 0;
      NoBits(n - 1);
      PolyFirst(false, BitsOf(0, n - 1));
    }
  }

  lemma OneBit()
    ensures Reg(1) == {31}
  {
    hide PolyOf, Plus;
    assert Odd(1) && Half(1) == 0;
    NoBits(31);
    PolyFirst(true, BitsOf(0, 31));
    PlusZero({31});
  }

  // One bit through the register

  function Halves(x: bv32, n: nat): bv32 {
    if n == 0 then x else Halves(Half(x), n - 1)
  }

  lemma {:induction false} BitsLast(x: bv32, n: nat)
    ensures BitsOf(x, n + 1) == BitsOf(x, n) + [Odd(Halves(x, n))]
    decreases n
  {
    hide Odd, Half;
    if n > 0 {
      BitsLast(Half(x), n - 1);
    }
  }

  lemma {:induction false} HalvesAdd(x: bv32, m: nat, n: nat)
    ensures Halves(x, m + n) == Halves(Halves(x, m), n)
    decreases m
  {
    hide Half;
    if m > 0 {
      HalvesAdd(Half(x), m - 1, n);
    }
  }

  lemma HalvesFour(x: bv32)
    ensures Halves(x, 4) == Quarter(x)
  {
    NibbleShifts(x);
    hide Half;
    var y := Half(x);
    var z := Half(y);
    var w := Half(z);
    assert Halves(x, 4) == Halves(y, 3) && Halves(y, 3) == Halves(z, 2) && Halves(z, 2) == Halves(w, 1);
    assert Halves(w, 1) == Halves(Half(w), 0);
  }

  function Quarter(x: bv32): bv32 {
    x >> 4
  }

  lemma {:induction false} HalvesFours(x: bv32, k: nat)
    ensures Halves(x, 4 * k) == Quarters(x, k)
    decreases k
  {
    hide Quarter;
    if k > 0 {
      HalvesFour(x);
      HalvesAdd(x, 4, 4 * (k - 1));
      HalvesFours(Quarter(x), k - 1);
    }
    hide Half;
  }

  function Quarters(x: bv32, k: nat): bv32 {
    if k == 0 then x else Quarters(Quarter(x), k - 1)
  }

  lemma AllGone(x: bv32)
    ensures Halves(x, 32) == 0
  {
    HalvesFours(x, 8);
    hide Halves, Quarter;
    var y := Quarter(Quarter(Quarter(Quarter(x))));
    assert Quarters(x, 8) == Quarters(Quarter(x), 7) && Quarters(Quarter(x), 7) == Quarters(Quarter(Quarter(x)), 6);
    assert Quarters(Quarter(Quarter(x)), 6) == Quarters(Quarter(Quarter(Quarter(x))), 5);
    assert Quarters(Quarter(Quarter(Quarter(x))), 5) == Quarters(y, 4);
    assert Quarters(y, 4) == Quarters(Quarter(y), 3) && Quarters(Quarter(y), 3) == Quarters(Quarter(Quarter(y)), 2);
    assert Quarters(Quarter(Quarter(y)), 2) == Quarters(Quarter(Quarter(Quarter(y))), 1);
    assert Quarters(Quarter(Quarter(Quarter(y))), 1) == Quarters(Quarter(Quarter(Quarter(Quarter(y)))), 0);
    ShiftedOut(x);
  }

  lemma ShiftedOut(x: bv32)
    ensures Quarter(Quarter(Quarter(Quarter(Quarter(Quarter(Quarter(Quarter(x)))))))) == 0
  {
  }

  /** A zero bit multiplies the register by x, less the generator when that has a term x^32. */
  lemma BitIs(c: bv32)
    ensures Reg(Bit(c)) == Plus(Shift(Reg(c), 1), Term(Odd(c), Generator()))
  {
    var b := BitsOf(Half(c), 31);
    BitsLast(Half(c), 31);
    AllGone(c);
    BitRaw(c);
    hide Bit, Odd, Half, PolyOf, Plus, Shift, Generator, Xor, BitsOf, Halves;
    assert BitsOf(Half(c), 32) == b + [false] by { LastGone(c); }
    assert BitsOf(c, 32) == [Odd(c)] + b by { BitsFirst(c, 31); }
    PolyFirst(Odd(c), b);
    PolyNext(b, false);
    ShiftPlus(Term(Odd(c), {31}), PolyOf(b), 1);
    ShiftTop(Odd(c));
    PlusZero(Shift(PolyOf(b), 1));
    PlusZero(Reg(Half(c)));
    BitsXor(Half(c), if Odd(c) then POLY else 0, 32);
    NoBits(32);
    if Odd(c) {
      PolyIsGenerator();
      PlusComm({32}, Shift(PolyOf(b), 1));
      PlusAssoc(Shift(PolyOf(b), 1), {32}, Generator());
      PlusComm(Reg(POLY), {32});
      PlusAssoc({32}, {32}, Reg(POLY));
      PlusZero({32});
      PlusZero(Reg(POLY));
    }
  }

  lemma BitsFirst(c: bv32, n: nat)
    ensures BitsOf(c, n + 1) == [Odd(c)] + BitsOf(Half(c), n)
  {
  }

  lemma LastGone(c: bv32)
    ensures BitsOf(Half(c), 32) == BitsOf(Half(c), 31) + [false]
  {
    BitsLast(Half(c), 31);
    AllGone(c);
    hide Half;
    assert Halves(c, 32) == Halves(Half(c), 31);
  }

  lemma BitRaw(c: bv32)
    ensures Bit(c) == Xor(Half(c), if Odd(c) then POLY else 0)
  {
    XorZero(Half(c));
    XorIs(Half(c), POLY);
    hide Xor;
  }

  lemma ShiftTop(b: bool)
    ensures Shift(Term(b, {31}), 1) == Term(b, {32})
  {
  }

  /** A message bit is added to the term x^31 first, so that after the step it stands at x^32. */
  lemma FeedBitIs(c: bv32, b: bool) returns (t: bool)
    ensures Plus(Reg(FeedBit(c, b)), Term(t, Generator())) == Plus(Shift(Reg(c), 1), Term(b, {32}))
  {
    var d := Xor(c, if b then 1 else 0);
    t := Odd(d);
    hide Bit, Odd, Half, PolyOf, Plus, Shift, Generator, Xor, BitsOf;
    BitIs(d);
    BitsXor(c, if b then 1 else 0, 32);
    NoBits(32);
    OneBit();
    assert Reg(d) == Plus(Reg(c), Term(b, {31}));
    ShiftPlus(Reg(c), Term(b, {31}), 1);
    ShiftTop(b);
    var g := Term(t, Generator());
    PlusAssoc(Shift(Reg(d), 1), g, g);
    PlusZero(g);
    PlusZero(Shift(Reg(d), 1));
  }

  // Whole messages

  /** The bits of a message in the order in which they enter. */
  function MessageBits(m: seq<byte>): seq<bool> {
    if m == [] then [] else BitsOf(m[0] as bv32, 8) + MessageBits(m[1..])
  }

  lemma {:induction false} MessageLength(m: seq<byte>)
    ensures |MessageBits(m)| == 8 * |m|
  {
    if m != [] { MessageLength(m[1..]); }
  }

  function FeedAll(c: bv32, bits: seq<bool>): bv32 {
    if bits == [] then c else FeedBit(FeedAll(c, bits[..|bits| - 1]), bits[|bits| - 1])
  }

  lemma {:induction false} FeedAllAdd(c: bv32, a: seq<bool>, b: seq<bool>)
    ensures FeedAll(c, a + b) == FeedAll(FeedAll(c, a), b)
    decreases b
  {
    hide FeedBit;
    if b == [] {
      assert a + b == a;
    } else {
      assert (a + b)[..|a + b| - 1] == a + b[..|b| - 1];
      FeedAllAdd(c, a, b[..|b| - 1]);
    }
  }

  lemma {:induction false} FeedBitsAll(c: bv32, x: bv32, n: nat)
    ensures FeedBits(c, x, n) == FeedAll(c, BitsOf(x, n))
    decreases n
  {
    hide FeedBit, Odd, Half;
    if n > 0 {
      FeedBitsAll(FeedBit(c, Odd(x)), Half(x), n - 1);
      FeedAllAdd(c, [Odd(x)], BitsOf(Half(x), n - 1));
      assert [Odd(x)][..0] == [];
      assert FeedAll(c, [Odd(x)]) == FeedBit(c, Odd(x));
    }
  }

  lemma {:induction false} FeedIsAll(c: bv32, m: seq<byte>)
    ensures Feed(c, m) == FeedAll(c, MessageBits(m))
    decreases m
  {
    hide FeedAll, FeedBits, BitsOf;
    if m == [] {
      FeedNothing(c);
    } else {
      FeedIsAll(FeedByte(c, m[0]), m[1..]);
      FeedBitsAll(c, m[0] as bv32, 8);
      FeedAllAdd(c, BitsOf(m[0] as bv32, 8), MessageBits(m[1..]));
    }
  }

  lemma FeedNothing(c: bv32)
    ensures FeedAll(c, []) == c
  {
  }

  lemma {:induction false} FeedAllIs(c: bv32, bits: seq<bool>) returns (q: seq<bool>)
    ensures Plus(Times(q), Reg(FeedAll(c, bits))) == Plus(Shift(PolyOf(bits), 32), Shift(Reg(c), |bits|))
    decreases bits
  {
    hide Reg, PolyOf, Plus, Shift, Generator, FeedBit;
    if bits == [] {
      q := [];
      EmptyPoly();
      ShiftNone(Reg(c), 32);
    } else {
      var n := |bits| - 1;
      var rest, b := bits[..n], bits[n];
      var q' := FeedAllIs(c, rest);
      var d := FeedAll(c, rest);
      var t := FeedBitIs(d, b);
      q := q' + [t];
      assert q[..|q| - 1] == q';
      assert bits == rest + [b];
      OneFurther(PolyOf(rest), b, Reg(c), n);
      PolyNext(rest, b);
      ShiftPlus(Times(q'), Reg(d), 1);
      Rearrange(Shift(Times(q'), 1), Term(t, Generator()), Reg(FeedBit(d, b)), Shift(Reg(d), 1), Term(b, {32}));
    }
  }

  lemma OneFurther(m: Poly, b: bool, r: Poly, n: nat)
    ensures Plus(Shift(Plus(Shift(m, 1), Term(b, {0})), 32), Shift(r, n + 1)) ==
      Plus(Shift(Plus(Shift(m, 32), Shift(r, n)), 1), Term(b, {32}))
  {
    hide Plus, Shift;
    ShiftPlus(Shift(m, 1), Term(b, {0}), 32);
    ShiftShift(m, 1, 32);
    UnitShift(b);
    ShiftPlus(Shift(m, 32), Shift(r, n), 1);
    ShiftShift(m, 32, 1);
    ShiftShift(r, n, 1);
    var a, u, v := Shift(m, 33), Term(b, {32}), Shift(r, n + 1);
    PlusAssoc(a, u, v);
    PlusComm(u, v);
    PlusAssoc(a, v, u);
  }

  lemma UnitShift(b: bool)
    ensures Shift(Term(b, {0}), 32) == Term(b, {32})
  {
  }

  lemma Rearrange(x: Poly, g: Poly, f: Poly, d: Poly, b: Poly)
    requires Plus(f, g) == Plus(d, b)
    ensures Plus(Plus(x, g), f) == Plus(Plus(x, d), b)
  {
    hide Plus;
    PlusAssoc(x, g, f);
    PlusComm(g, f);
    PlusAssoc(x, d, b);
  }

  /** For every message and every register: afterwards it holds the remainder of the message times x^32, plus
      what it held before, moved past the message. */
  lemma FeedIsRemainder(c: bv32, m: seq<byte>)
    ensures IsRemainder(Reg(Feed(c, m)), Plus(Shift(PolyOf(MessageBits(m)), 32), Shift(Reg(c), 8 * |m|)))
  {
    MessageLength(m);
    FeedIsAll(c, m);
    var q := FeedAllIs(c, MessageBits(m));
    RegLow(Feed(c, m));
    hide Reg, PolyOf, Plus, Shift, Times, Feed, FeedAll, MessageBits;
  }

  lemma RegLow(c: bv32)
    ensures forall i <- Reg(c) :: i < 32
  {
    hide BitsOf;
  }

  /** All powers below x^32. */
  function Ones(): Poly {
    PolyOf(AllTrue())
  }

  function AllTrue(): seq<bool> {
    seq(32, _ => true)
  }

  lemma AllBitsAre()
    ensures BitsOf(0xffffffff, 32) == AllTrue()
  {
    hide BitsOf;
    Nibble(0xffffffff, 32);
    Nibble(0xfffffff, 28);
    Nibble(0xffffff, 24);
    Nibble(0xfffff, 20);
    Nibble(0xffff, 16);
    Nibble(0xfff, 12);
    Nibble(0xff, 8);
    Nibble(0xf, 4);
    NoneLeft(0);
  }

  lemma InvertIs(x: bv32)
    ensures Reg(Invert(x)) == Plus(Reg(x), Ones())
  {
    InvertRaw(x);
    AllBitsAre();
    hide Invert, Xor, BitsOf, PolyOf, Plus, AllTrue;
    BitsXor(x, 0xffffffff, 32);
  }

  lemma InvertRaw(x: bv32)
    ensures Invert(x) == Xor(x, 0xffffffff)
  {
  }

  /** The CRC: start and result are complemented. */
  lemma CrcIsRemainder(crc: bv32, m: seq<byte>)
    ensures IsRemainder(Plus(Reg(Crc(crc, m)), Ones()),
                        Plus(Shift(PolyOf(MessageBits(m)), 32), Shift(Plus(Reg(crc), Ones()), 8 * |m|)))
  {
    hide Reg, PolyOf, Plus, Shift, Feed, Invert, IsRemainder, Ones, MessageBits;
    var c := Invert(crc);
    InvertIs(crc);
    InvertIs(Feed(c, m));
    PlusAssoc(Reg(Feed(c, m)), Ones(), Ones());
    PlusZero(Ones());
    PlusZero(Reg(Feed(c, m)));
    FeedIsRemainder(c, m);
  }
}
