/** Zero-run operators as matrices over the field of two elements: 32 words, the images of the
    32 one-bit words. */
module Crc32cMatrix {
  import opened Basics
  import opened Crc32c

  function Double(x: bv32): bv32 {
    x << 1
  }

  /** `x` moved up by `i` bits. */
  function Up(x: bv32, i: nat): bv32
    decreases i
  {
    if i == 0 then x else Double(Up(x, i - 1))
  }

  /** The word with bit `i` set. */
  function E(i: nat): bv32 {
    Up(1, i)
  }

  lemma {:induction false} UpOfDouble(x: bv32, i: nat)
    ensures Up(Double(x), i) == Up(x, i + 1)
    decreases i
  {
    hide Double;
    if i > 0 {
      UpOfDouble(x, i - 1);
    }
  }

  lemma RawDouble(a: bv32, b: bv32)
    ensures (a ^ b) << 1 == (a << 1) ^ (b << 1)
  {
  }

  lemma DoubleLinear(a: bv32, b: bv32)
    ensures Double(Xor(a, b)) == Xor(Double(a), Double(b))
  {
    hide Xor;
    RawDouble(a, b);
    XorIs(a, b);
    XorIs(a << 1, b << 1);
  }

  lemma {:induction false} UpLinear(a: bv32, b: bv32, i: nat)
    ensures Up(Xor(a, b), i) == Xor(Up(a, i), Up(b, i))
    decreases i
  {
    hide Double, Xor;
    if i > 0 {
      UpLinear(a, b, i - 1);
      DoubleLinear(Up(a, i - 1), Up(b, i - 1));
    }
  }

  lemma {:induction false} UpZero(i: nat)
    ensures Up(0, i) == 0
    decreases i
  {
    if i > 0 {
      UpZero(i - 1);
    }
  }

  /** Any word is its low bit and twice its half. */
  lemma RawHalves(x: bv32)
    ensures x & 1 == 1 ==> x == 1 ^ ((x >> 1) << 1)
    ensures x & 1 == 0 ==> x == 0 ^ ((x >> 1) << 1)
  {
  }

  lemma RawOddAndHalf(x: bv32)
    ensures Odd(x) ==> x == Xor(1, (x >> 1) << 1)
    ensures !Odd(x) ==> x == Xor(0, (x >> 1) << 1)
  {
    hide Xor;
    var h := (x >> 1) << 1;
    XorIs(1, h);
    XorIs(0, h);
    LowBit(x);
    RawHalves(x);
  }

  lemma OddAndHalf(x: bv32)
    ensures x == Xor(if Odd(x) then 1 else 0, Double(Half(x)))
  {
    hide Xor, Odd;
    RawOddAndHalf(x);
  }

  // Multiplication

  /** The sum of the rows of `mat`, from row `i` on, that the bits of `v` select. */
  function Times(mat: seq<bv32>, v: bv32, i: nat): bv32
    requires |mat| == 32 && i <= 32
    decreases 32 - i
  {
    if i == 32 then 0 else Xor(if Odd(v) then mat[i] else 0, Times(mat, Half(v), i + 1))
  }

  lemma {:induction false} TimesZero(mat: seq<bv32>, i: nat)
    requires |mat| == 32 && i <= 32
    ensures Times(mat, 0, i) == 0
    decreases 32 - i
  {
    hide Xor;
    if i < 32 {
      TimesZero(mat, i + 1);
      assert !Odd(0) && Half(0) == 0;
      XorZero(0);
    }
  }

  /** The matrix of the operator that runs `k` zero bits through the register. */
  ghost predicate Op(mat: seq<bv32>, k: nat) {
    |mat| == 32 && forall n :: 0 <= n < 32 ==> mat[n] == Bits(E(n), k)
  }

  /** A matrix of an operator, applied to a word that fits in the remaining rows. */
  lemma {:induction false} TimesIsBits(mat: seq<bv32>, k: nat, v: bv32, i: nat)
    requires Op(mat, k) && i <= 32 && Halves(v, 32 - i) == 0
    ensures Times(mat, v, i) == Bits(Up(v, i), k)
    decreases 32 - i
  {
    hide Xor, Odd, Half, Double, Bits;
    if i == 32 {
      UpZero(32);
      BitsZero(k);
    } else {
      var b: bv32 := if Odd(v) then 1 else 0;
      TimesIsBits(mat, k, Half(v), i + 1);
      OddAndHalf(v);
      UpLinear(b, Double(Half(v)), i);
      UpOfDouble(Half(v), i);
      BitsLinear(Up(b, i), Up(Half(v), i + 1), k);
      UpZero(i);
      BitsZero(k);
    }
  }

  lemma {:induction false} HalvesAdd(x: bv32, m: nat, n: nat)
    ensures Halves(x, m + n) == Halves(Halves(x, m), n)
    decreases m
  {
    hide Half;
    if m > 0 {
      HalvesAdd(Half(x), m - 1, n);
    }
  }

  lemma HalvesEight(x: bv32)
    ensures Halves(x, 8) == x >> 8
  {
    var x4 := Half(Half(Half(Half(x))));
    assert Halves(x, 8) == Halves(x4, 4) by {
      hide Half;
      assert Halves(x, 8) == Halves(Half(x), 7) == Halves(Half(Half(x)), 6) == Halves(Half(Half(Half(x))), 5);
    }
    var x8 := Half(Half(Half(Half(x4))));
    assert Halves(x4, 4) == x8 by {
      hide Half;
      assert Halves(x4, 4) == Halves(Half(x4), 3) == Halves(Half(Half(x4)), 2);
    }
  }

  lemma RawBytesGone(x: bv32)
    ensures (((x >> 8) >> 8) >> 8) >> 8 == 0
  {
  }

  lemma WordVanishes(x: bv32)
    ensures Halves(x, 32) == 0
  {
    hide Halves;
    HalvesAdd(x, 8, 24);
    HalvesEight(x);
    HalvesAdd(x >> 8, 8, 16);
    HalvesEight(x >> 8);
    HalvesAdd((x >> 8) >> 8, 8, 8);
    HalvesEight((x >> 8) >> 8);
    HalvesEight(((x >> 8) >> 8) >> 8);
    RawBytesGone(x);
  }

  /** Multiplying by the matrix is running the zero bits. */
  lemma TimesRuns(mat: seq<bv32>, k: nat, v: bv32)
    requires Op(mat, k)
    ensures Times(mat, v, 0) == Bits(v, k)
  {
    WordVanishes(v);
    TimesIsBits(mat, k, v, 0);
  }

  // One zero bit

  predicate PowerOfTwo(x: bv32) {
    x & (x - 1) == 0
  }

  lemma DoublePower(x: bv32)
    requires PowerOfTwo(x) && Double(x) != 0
    ensures PowerOfTwo(Double(x)) && Half(Double(x)) == x && !Odd(Double(x))
  {
  }

  lemma {:induction false} UpAdd(x: bv32, m: nat, n: nat)
    ensures Up(x, m + n) == Up(Up(x, m), n)
    decreases n
  {
    hide Double;
    if n > 0 {
      UpAdd(x, m, n - 1);
    }
  }

  lemma TopBit()
    ensures E(31) == 0x80000000
  {
    assert E(2) == 0x4;
    assert E(4) == 0x10;
    assert E(6) == 0x40;
    assert E(8) == 0x100;
    assert E(10) == 0x400;
    assert E(12) == 0x1000;
    assert E(14) == 0x4000;
    assert E(16) == 0x10000;
    assert E(18) == 0x40000;
    assert E(20) == 0x100000;
    assert E(22) == 0x400000;
    assert E(24) == 0x1000000;
    assert E(26) == 0x4000000;
    assert E(28) == 0x10000000;
    assert E(30) == 0x40000000;
  }

  /** The one-bit words are distinct powers: none is lost before bit 31. */
  lemma {:induction false} EIsPower(n: nat)
    requires n < 32
    ensures PowerOfTwo(E(n)) && E(n) != 0
  {
    TopBit();
    UpAdd(1, n, 31 - n);
    UpZero(31 - n);
    hide Double, PowerOfTwo;
    if n == 0 {
      OneIsPower();
    } else {
      EIsPower(n - 1);
      DoublePower(E(n - 1));
    }
  }

  lemma OneIsPower()
    ensures PowerOfTwo(1)
  {
  }

  lemma EvenBit(x: bv32)
    requires !Odd(x)
    ensures Bit(x) == Half(x)
  {
    LowBit(x);
  }

  /** One zero bit moves every one-bit word down, and turns the lowest into the polynomial. */
  lemma BitOfE(n: nat)
    requires n < 32
    ensures Bit(E(n)) == if n == 0 then POLY else E(n - 1)
  {
    if n > 0 {
      EIsPower(n - 1);
      EIsPower(n);
      hide PowerOfTwo, Bit, Double, Half, Odd;
      DoublePower(E(n - 1));
      EvenBit(E(n));
    }
  }

  // Squaring

  lemma SquareDoubles(mat: seq<bv32>, square: seq<bv32>, k: nat)
    requires Op(mat, k) && |square| == 32
    requires forall n :: 0 <= n < 32 ==> square[n] == Times(mat, mat[n], 0)
    ensures Op(square, 2 * k)
  {
    hide Bits, Times;
    forall n | 0 <= n < 32 ensures square[n] == Bits(E(n), 2 * k) {
      TimesRuns(mat, k, mat[n]);
      BitsAdd(E(n), k, k);
    }
  }

  // The loops

  /** `gf2_matrix_times`: the loop stops before it runs past the last row. */
  method MatrixTimes(mat: array<bv32>, vec: bv32) returns (sum: bv32)
    requires mat.Length == 32
    ensures sum == Times(mat[..], vec, 0)
  {
    hide Xor, Odd, Half, Times;
    sum := 0;
    var v, i := vec, 0;
    WordVanishes(vec);
    XorZero(Times(mat[..], vec, 0));
    while v != 0
      invariant i <= 32 && Halves(v, 32 - i) == 0
      invariant Xor(sum, Times(mat[..], v, i)) == Times(mat[..], vec, 0)
      decreases 32 - i
    {
      TimesStep(mat[..], v, i, sum);
      if Odd(v) {
        sum := Xor(sum, mat[i]);
      }
      v := Half(v);
      i := i + 1;
    }
    TimesZero(mat[..], i);
    XorZero(sum);
  }

  lemma TimesStep(mat: seq<bv32>, v: bv32, i: nat, sum: bv32)
    requires |mat| == 32 && i <= 32 && v != 0 && Halves(v, 32 - i) == 0
    ensures i < 32 && Halves(Half(v), 32 - (i + 1)) == 0
    ensures Xor(sum, Times(mat, v, i)) == Xor(if Odd(v) then Xor(sum, mat[i]) else sum, Times(mat, Half(v), i + 1))
  {
    hide Xor, Odd, Half;
    var b := if Odd(v) then mat[i] else 0;
    XorAssoc(sum, b, Times(mat, Half(v), i + 1));
    XorZero(sum);
  }

  /** `gf2_matrix_square`. */
  method MatrixSquare(square: array<bv32>, mat: array<bv32>, ghost k: nat)
    requires square.Length == mat.Length == 32 && square != mat && Op(mat[..], k)
    modifies square
    ensures Op(square[..], 2 * k)
  {
    hide Times, Op;
    for n := 0 to 32
      invariant mat[..] == old(mat[..])
      invariant forall j :: 0 <= j < n ==> square[j] == Times(mat[..], mat[j], 0)
    {
      var row := MatrixTimes(mat, mat[n]);
      square[n] := row;
    }
    SquareDoubles(mat[..], square[..], k);
  }

  /** How many zero bits the operator built for `len` stands for: start from `k`, double once
      for every halving of `len`. */
  function Doublings(k: nat, len: nat): nat
    decreases len
  {
    if len < 2 then k else Doublings(2 * k, len / 2)
  }

  /** The largest power of two that is at most `len`, and 1 for 0. */
  function PowerFloor(len: nat): nat {
    if len < 2 then 1 else 2 * PowerFloor(len / 2)
  }

  predicate IsPower(p: nat) {
    p == 1 || (p > 1 && p % 2 == 0 && IsPower(p / 2))
  }

  ghost predicate LargestPower(p: nat, len: nat) {
    IsPower(p) && if len == 0 then p == 1 else p <= len < 2 * p
  }

  lemma {:induction false} PowerFloorIs(len: nat)
    ensures LargestPower(PowerFloor(len), len)
  {
    if len >= 2 {
      PowerFloorIs(len / 2);
    }
  }

  lemma {:induction false} DoublingsIsPower(k: nat, len: nat)
    ensures Doublings(k, len) == k * PowerFloor(len)
    decreases len
  {
    if len >= 2 {
      DoublingsIsPower(2 * k, len / 2);
      assert (2 * k) * PowerFloor(len / 2) == k * (2 * PowerFloor(len / 2));
    }
  }

  /** `crc32c_zeros_op`: for every length, the operator for the largest power of two of zero
      bytes that does not exceed it. */
  method ZerosOp(even: array<bv32>, len: nat)
    requires even.Length == 32
    modifies even
    ensures Op(even[..], 8 * PowerFloor(len)) && LargestPower(PowerFloor(len), len)
  {
    hide Bits, Op;
    PowerFloorIs(len);
    var odd := new bv32[32];
    OneBitMatrix(odd);
    MatrixSquare(even, odd, 1);
    MatrixSquare(odd, even, 2);
    var n := len;
    ghost var k: nat := 4;
    DoublingsIsPower(8, len);
    while true
      invariant fresh(odd) && odd.Length == 32 && odd != even
      invariant Op(odd[..], k) && Doublings(2 * k, n) == 8 * PowerFloor(len)
      decreases n
    {
      MatrixSquare(even, odd, k);
      n := n / 2;
      if n == 0 {
        return;
      }
      MatrixSquare(odd, even, 2 * k);
      k := 4 * k;
      n := n / 2;
      if n == 0 {
        break;
      }
    }
    ghost var rows := odd[..];
    for i := 0 to 32
      invariant odd[..] == rows
      invariant forall j :: 0 <= j < i ==> even[j] == odd[j]
    {
      even[i] := odd[i];
    }
    assert even[..] == odd[..];
  }

  /** The operator for one zero bit. */
  method OneBitMatrix(odd: array<bv32>)
    requires odd.Length == 32
    modifies odd
    ensures Op(odd[..], 1)
  {
    hide Bit, Double;
    odd[0] := POLY;
    BitOfE(0);
    var row: bv32 := 1;
    for n := 1 to 32
      invariant row == E(n - 1)
      invariant forall j :: 0 <= j < n ==> odd[j] == Bits(E(j), 1)
    {
      BitOfE(n);
      odd[n] := row;
      row := Double(row);
    }
  }
}
