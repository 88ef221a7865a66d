/** Numbers as text: what `safe_strtoull` reads and what `itoa_u64` writes. */
module Numbers {
  import opened Basics
  import opened Flatten

  const TWO_TO_THE_63 := 0x8000_0000_0000_0000
  const TWO_TO_THE_64 := 0x1_0000_0000_0000_0000

  const MINUS: byte := 45
  const PLUS: byte := 43

  predicate IsSpace(b: byte) {
    b == 32 || 9 <= b <= 13
  }

  predicate IsDigit(b: byte) {
    48 <= b <= 57
  }

  function DigitValue(b: byte): nat
    requires IsDigit(b)
  {
    (b - 48) as nat
  }

  predicate AllDigits(t: seq<byte>) {
    forall i :: 0 <= i < |t| ==> IsDigit(t[i])
  }

  function Decimal(t: seq<byte>): nat
    requires AllDigits(t)
  {
    if t == [] then 0 else 10 * Decimal(t[..|t| - 1]) + DigitValue(t[|t| - 1])
  }

  // Reading

  /** The C string at the start of some memory. */
  function CString(mem: seq<byte>): seq<byte> {
    if mem == [] || mem[0] == 0 then [] else [mem[0]] + CString(mem[1..])
  }

  function SpaceRun(t: seq<byte>): (n: nat)
    ensures n <= |t|
  {
    if t != [] && IsSpace(t[0]) then 1 + SpaceRun(t[1..]) else 0
  }

  function DigitRun(t: seq<byte>): (n: nat)
    ensures n <= |t| && AllDigits(t[..n])
  {
    if t != [] && IsDigit(t[0]) then 1 + DigitRun(t[1..]) else 0
  }

  datatype Reading = Reading(value: nat, end: nat)

  /** `strtoull` in base ten: blanks, an optional sign, digits.  Nothing if there are no digits or too
      many; a minus sign negates modulo 2^64. */
  function Strtoull(t: seq<byte>): (r: Option<Reading>)
    ensures r.Some? ==> r.value.end <= |t| && r.value.value < TWO_TO_THE_64
  {
    var i := SpaceRun(t);
    var j := if i < |t| && (t[i] == MINUS || t[i] == PLUS) then i + 1 else i;
    var n := DigitRun(t[j..]);
    if n == 0 || Decimal(t[j..][..n]) >= TWO_TO_THE_64 then None
    else
      var v := Decimal(t[j..][..n]);
      Some(Reading(if t[i] == MINUS then (TWO_TO_THE_64 - v) % TWO_TO_THE_64 else v, j + n))
  }

  /** `safe_strtoull`: the number must end at a blank or at the end of the string, and a large one is
      refused if there is a minus sign anywhere in the string. */
  function SafeStrtoull(t: seq<byte>): (r: Option<nat>)
    ensures r.Some? ==> r.value < TWO_TO_THE_64
  {
    var x := Strtoull(t);
    if x.None? then None
    else if x.value.end < |t| && !IsSpace(t[x.value.end]) then None
    else if x.value.value >= TWO_TO_THE_63 && MINUS in t then None
    else Some(x.value.value)
  }

  // Writing

  function Digit(n: nat): byte
    requires n < 10
  {
    (48 + n) as byte
  }

  /** `itoa_u64`. */
  function Itoa(n: nat): (s: seq<byte>)
    ensures |s| > 0
  {
    if n < 10 then [Digit(n)] else Itoa(n / 10) + [Digit(n % 10)]
  }

  function Spaces(n: nat): (s: seq<byte>)
    ensures |s| == n
  {
    if n == 0 then [] else [32] + Spaces(n - 1)
  }

  // What is read

  predicate AllSpaces(t: seq<byte>) {
    forall i :: 0 <= i < |t| ==> IsSpace(t[i])
  }

  predicate IsSign(t: seq<byte>) {
    t == [] || t == [MINUS] || t == [PLUS]
  }

  /** Blanks, perhaps a sign, digits, and then the end or a blank. */
  predicate Splits(t: seq<byte>, blanks: seq<byte>, sign: seq<byte>, digits: seq<byte>, rest: seq<byte>) {
    && t == blanks + (sign + (digits + rest))
    && AllSpaces(blanks) && IsSign(sign) && AllDigits(digits) && digits != []
    && (rest == [] || IsSpace(rest[0]))
  }

  /** Such a text shows `v`: its digits, negated modulo 2^64 after a minus sign. */
  predicate Means(sign: seq<byte>, digits: seq<byte>, v: nat)
    requires AllDigits(digits)
  {
    var n := Decimal(digits);
    n < TWO_TO_THE_64 && v == if sign == [MINUS] && n > 0 then TWO_TO_THE_64 - n else n
  }

  lemma {:induction false} SpaceRunIs(s: seq<byte>, rest: seq<byte>)
    requires AllSpaces(s) && (rest == [] || !IsSpace(rest[0]))
    ensures SpaceRun(s + rest) == |s|
  {
    if s == [] {
      assert s + rest == rest;
    } else {
      assert (s + rest)[1..] == s[1..] + rest;
      SpaceRunIs(s[1..], rest);
    }
  }

  lemma {:induction false} SpaceRunStops(t: seq<byte>)
    ensures var n := SpaceRun(t); AllSpaces(t[..n]) && (n == |t| || !IsSpace(t[n]))
  {
    if t != [] && IsSpace(t[0]) {
      SpaceRunStops(t[1..]);
      var n := SpaceRun(t[1..]);
      assert t[..n + 1] == [t[0]] + t[1..][..n];
    }
  }

  lemma SplitReads(t: seq<byte>, blanks: seq<byte>, sign: seq<byte>, digits: seq<byte>, rest: seq<byte>)
    requires Splits(t, blanks, sign, digits, rest)
    ensures var n := Decimal(digits);
      Strtoull(t) == if n >= TWO_TO_THE_64 then None else
        Some(Reading(if sign == [MINUS] then (TWO_TO_THE_64 - n) % TWO_TO_THE_64 else n, |t| - |rest|))
  {
    hide Decimal, SpaceRun, DigitRun;
    var after := sign + (digits + rest);
    var i, j := |blanks|, |blanks| + |sign|;
    assert after[0] == if sign == [] then digits[0] else sign[0];
    SpaceRunIs(blanks, after);
    assert t[i] == after[0];
    assert t[j..] == digits + rest;
    DigitRunIs(digits, rest);
  }

  function SignEnd(t: seq<byte>): (j: nat)
    ensures SpaceRun(t) <= j <= |t| && j <= SpaceRun(t) + 1
  {
    var i := SpaceRun(t);
    if i < |t| && (t[i] == MINUS || t[i] == PLUS) then i + 1 else i
  }

  lemma ReadNeeds(t: seq<byte>)
    requires SafeStrtoull(t).Some?
    ensures var j := SignEnd(t);
      var n := DigitRun(t[j..]);
      n > 0 && (j + n == |t| || IsSpace(t[j + n]))
  {
    hide Decimal, SpaceRun, DigitRun;
  }

  lemma ReadSplits(t: seq<byte>) returns (blanks: seq<byte>, sign: seq<byte>, digits: seq<byte>, rest: seq<byte>)
    requires SafeStrtoull(t).Some?
    ensures Splits(t, blanks, sign, digits, rest)
  {
    hide SafeStrtoull, SpaceRun, DigitRun, IsSpace, IsDigit;
    ReadNeeds(t);
    SpaceRunStops(t);
    var i, j := SpaceRun(t), SignEnd(t);
    var n := DigitRun(t[j..]);
    blanks, sign, digits, rest := t[..i], t[i..j], t[j..][..n], t[j + n..];
    Parts(t, i, j, n);
  }

  lemma Parts(t: seq<byte>, i: nat, j: nat, n: nat)
    requires i <= j <= j + n <= |t| && j <= i + 1
    ensures t == t[..i] + (t[i..j] + (t[j..][..n] + t[j + n..]))
    ensures t[i..j] == if j == i then [] else [t[i]]
  {
    assert t[j..] == t[j..][..n] + t[j + n..];
    assert t[i..] == t[i..j] + t[j..];
    assert t == t[..i] + t[i..];
  }

  /** Exactly which texts are read, and as which number. */
  lemma ReadsIff(t: seq<byte>, v: nat)
    ensures SafeStrtoull(t) == Some(v) <==>
      (exists blanks, sign, digits, rest :: Splits(t, blanks, sign, digits, rest) && Means(sign, digits, v)) &&
      (v >= TWO_TO_THE_63 ==> MINUS !in t)
  {
    hide Strtoull, Decimal;
    if SafeStrtoull(t) == Some(v) {
      var blanks, sign, digits, rest := ReadSplits(t);
      SplitReads(t, blanks, sign, digits, rest);
      assert Means(sign, digits, v);
    }
    if blanks, sign, digits, rest :| Splits(t, blanks, sign, digits, rest) && Means(sign, digits, v) {
      SplitReads(t, blanks, sign, digits, rest);
      assert rest != [] ==> t[|t| - |rest|] == rest[0];
    }
  }

  // Reading back what was written

  lemma DigitBack(n: nat)
    requires n < 10
    ensures IsDigit(Digit(n)) && DigitValue(Digit(n)) == n
  {
  }

  lemma {:induction false} ItoaIsDecimal(n: nat)
    ensures AllDigits(Itoa(n)) && Decimal(Itoa(n)) == n
  {
    if n < 10 {
      DigitBack(n);
      assert Itoa(n)[..0] == [];
    } else {
      ItoaIsDecimal(n / 10);
      hide Decimal, AllDigits, Digit;
      DigitAppended(Itoa(n / 10), n % 10);
    }
  }

  lemma DigitAppended(s: seq<byte>, n: nat)
    requires AllDigits(s) && n < 10
    ensures AllDigits(s + [Digit(n)]) && Decimal(s + [Digit(n)]) == 10 * Decimal(s) + n
  {
    DigitBack(n);
    var t := s + [Digit(n)];
    assert t[..|t| - 1] == s;
  }

  lemma {:induction false} DigitRunIs(s: seq<byte>, rest: seq<byte>)
    requires AllDigits(s) && (rest == [] || !IsDigit(rest[0]))
    ensures DigitRun(s + rest) == |s| && (s + rest)[..|s|] == s
  {
    if s == [] {
      assert s + rest == rest;
    } else {
      assert (s + rest)[1..] == s[1..] + rest;
      DigitRunIs(s[1..], rest);
    }
  }

  /** A written number followed by a blank reads as itself, unless it is large and a minus sign follows
      somewhere in the string. */
  lemma ItoaReads(n: nat, rest: seq<byte>)
    requires n < TWO_TO_THE_64 && (rest == [] || IsSpace(rest[0]))
    ensures SafeStrtoull(Itoa(n) + rest) == if n >= TWO_TO_THE_63 && MINUS in rest then None else Some(n)
  {
    var s := Itoa(n);
    var t := s + rest;
    ItoaIsDecimal(n);
    DigitRunIs(s, rest);
    assert t[0] == s[0] && IsDigit(s[0]);
    assert t[0..] == t;
    assert Strtoull(t) == Some(Reading(n, |s|));
    assert MINUS !in s;
    assert MINUS in t <==> MINUS in rest;
    if rest != [] { assert t[|s|] == rest[0]; }
  }

  lemma {:induction false} CStringAppend(s: seq<byte>, rest: seq<byte>)
    requires forall i :: 0 <= i < |s| ==> s[i] != 0
    ensures CString(s + rest) == s + CString(rest)
  {
    if s == [] {
      assert s + rest == rest;
    } else {
      assert (s + rest)[1..] == s[1..] + rest;
      CStringAppend(s[1..], rest);
    }
  }

  /** The data shows `n`: its digits, and then something that starts with a blank. */
  ghost predicate Shows(data: seq<byte>, n: nat) {
    var k := |Itoa(n)|;
    k < |data| && data[..k] == Itoa(n) && IsSpace(data[k])
  }

  /** Such data reads as `n`, except that a number of 2^63 or more is refused when a minus sign follows
      before the next zero byte, be it in the data or in the memory behind it. */
  lemma ShownIsRead(data: seq<byte>, n: nat, beyond: seq<byte>)
    requires n < TWO_TO_THE_64 && Shows(data, n)
    ensures SafeStrtoull(CString(data + beyond)) ==
      if n >= TWO_TO_THE_63 && MINUS in CString(data[|Itoa(n)|..] + beyond) then None else Some(n)
  {
    var s := Itoa(n);
    var rest := data[|s|..] + beyond;
    ItoaIsDecimal(n);
    assert data + beyond == s + rest;
    CStringAppend(s, rest);
    assert rest[0] == data[|s|];
    ItoaReads(n, CString(rest));
  }

  lemma MinusFollows()
    ensures MINUS in CString([13, 10] + [MINUS])
  {
    var s := [13, 10, MINUS];
    assert [13, 10] + [MINUS] == s;
    CStringAppend(s, []);
    assert s + [] == s && s[2] == MINUS;
  }

  /** For example any number of 2^63 or more in an item that a minus sign follows, as the data of the next item
      in memory may begin with one. */
  lemma LargeIsRefused(n: nat)
    requires TWO_TO_THE_63 <= n < TWO_TO_THE_64
    ensures Shows(Itoa(n) + [13, 10], n) && SafeStrtoull(CString(Itoa(n) + [13, 10] + [MINUS])) == None
  {
    hide Itoa, SafeStrtoull, CString;
    var s := Itoa(n);
    var data := s + [13, 10];
    assert data[..|s|] == s && data[|s|..] == [13, 10];
    MinusFollows();
    ShownIsRead(data, n, [MINUS]);
  }
}
