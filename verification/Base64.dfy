/** Base64, section 4 of RFC 4648, as keys and tokens use it. */
module Base64 {
  import opened Basics

  const PAD: byte := 61
  const NOTHING: byte := 0x80

  // The alphabet

  /** `base64_table`. */
  function Symbol(v: byte): byte {
    if v < 26 then v + 65
    else if v < 52 then v + 71
    else if v < 62 then v - 4
    else if v == 62 then 43
    else 47
  }

  /** `dtable`; the padding sign counts as a symbol of value zero. */
  function Value(c: byte): byte {
    if 65 <= c <= 90 then c - 65
    else if 97 <= c <= 122 then c - 71
    else if 48 <= c <= 57 then c + 4
    else if c == 43 then 62
    else if c == 47 then 63
    else if c == PAD then 0
    else NOTHING
  }

  lemma SymbolValue(v: byte)
    requires v < 64
    ensures Value(Symbol(v)) == v && Symbol(v) != PAD && v != NOTHING
  {
  }

  // Encoding

  /** The four groups of six bits in three bytes. */
  function Group0(a: byte): byte {
    a >> 2
  }

  function Group1(a: byte, b: byte): byte {
    ((a & 0x03) << 4) | (b >> 4)
  }

  function Group2(b: byte, c: byte): byte {
    ((b & 0x0f) << 2) | (c >> 6)
  }

  function Group3(c: byte): byte {
    c & 0x3f
  }

  function Encode3(a: byte, b: byte, c: byte): (e: seq<byte>)
    ensures |e| == 4
  {
    [Symbol(Group0(a)), Symbol(Group1(a, b)), Symbol(Group2(b, c)), Symbol(Group3(c))]
  }

  function Encode2(a: byte, b: byte): (e: seq<byte>)
    ensures |e| == 4
  {
    [Symbol(Group0(a)), Symbol(Group1(a, b)), Symbol(Group2(b, 0)), PAD]
  }

  function Encode1(a: byte): (e: seq<byte>)
    ensures |e| == 4
  {
    [Symbol(Group0(a)), Symbol(Group1(a, 0)), PAD, PAD]
  }

  function Encoded(s: seq<byte>): (e: seq<byte>)
    ensures |e| % 4 == 0 && (s != [] ==> |e| >= 4)
  {
    if |s| == 0 then []
    else if |s| == 1 then Encode1(s[0])
    else if |s| == 2 then Encode2(s[0], s[1])
    else Encode3(s[0], s[1], s[2]) + Encoded(s[3..])
  }

  lemma {:induction false} EncodedLength(s: seq<byte>)
    ensures |Encoded(s)| == 4 * ((|s| + 2) / 3)
  {
    if |s| > 2 {
      EncodedLength(s[3..]);
    }
  }

  // Decoding

  function Kept(s: seq<byte>): seq<byte> {
    if s == [] then [] else Kept(s[..|s| - 1]) + (if Value(s[|s| - 1]) == NOTHING then [] else [s[|s| - 1]])
  }

  function Pads(b: seq<byte>): (n: nat)
    ensures n <= |b|
  {
    if b == [] then 0 else Pads(b[..|b| - 1]) + if b[|b| - 1] == PAD then 1 else 0
  }

  /** The three bytes in four groups of six bits. */
  function Byte0(u: byte, v: byte): byte {
    (u << 2) | (v >> 4)
  }

  function Byte1(v: byte, w: byte): byte {
    (v << 4) | (w >> 2)
  }

  function Byte2(w: byte, x: byte): byte {
    (w << 6) | x
  }

  function Three(b: seq<byte>): (r: seq<byte>)
    requires |b| == 4
    ensures |r| == 3
  {
    [Byte0(Value(b[0]), Value(b[1])), Byte1(Value(b[1]), Value(b[2])), Byte2(Value(b[2]), Value(b[3]))]
  }

  /** Block by block up to the first that is padded; more than two signs of padding are an error. */
  function Blocks(f: seq<byte>): Option<seq<byte>>
    requires |f| % 4 == 0
  {
    if f == [] then Some([])
    else
      var b := f[..4];
      if Pads(b) == 0 then
        var r := Blocks(f[4..]);
        if r.None? then None else Some(Three(b) + r.value)
      else if Pads(b) <= 2 then Some(Three(b)[..3 - Pads(b)])
      else None
  }

  function Decoded(s: seq<byte>): Option<seq<byte>> {
    var f := Kept(s);
    if f == [] || |f| % 4 != 0 then None else Blocks(f)
  }

  // Decoding undoes encoding

  // Bit by bit

  lemma SmallGroups(a: byte, b: byte)
    ensures Group0(a) < 64 && Group1(a, b) < 64 && Group2(a, b) < 64 && Group3(a) < 64
  {
  }

  lemma Byte0Back(a: byte, b: byte)
    ensures Byte0(a >> 2, ((a & 0x03) << 4) | (b >> 4)) == a
  {
  }

  lemma Byte1Back(a: byte, b: byte, c: byte)
    ensures Byte1(((a & 0x03) << 4) | (b >> 4), ((b & 0x0f) << 2) | (c >> 6)) == b
  {
  }

  lemma Byte2Back(b: byte, c: byte)
    ensures Byte2(((b & 0x0f) << 2) | (c >> 6), c & 0x3f) == c
  {
  }

  lemma GroupsBack(a: byte, b: byte, c: byte)
    ensures Byte0(Group0(a), Group1(a, b)) == a
    ensures Byte1(Group1(a, b), Group2(b, c)) == b
    ensures Byte2(Group2(b, c), Group3(c)) == c
  {
    hide Byte0, Byte1, Byte2;
    Byte0Back(a, b);
    Byte1Back(a, b, c);
    Byte2Back(b, c);
  }

  lemma PadsFour(b: seq<byte>)
    requires |b| == 4
    ensures Pads(b) == (if b[0] == PAD then 1 else 0) + (if b[1] == PAD then 1 else 0) +
                       (if b[2] == PAD then 1 else 0) + (if b[3] == PAD then 1 else 0)
  {
    assert b[..3][..2] == b[..2] && b[..2][..1] == b[..1] && b[..1][..0] == [];
    assert Pads(b[..1]) == if b[0] == PAD then 1 else 0;
    assert Pads(b[..2]) == Pads(b[..1]) + if b[1] == PAD then 1 else 0;
    assert Pads(b[..3]) == Pads(b[..2]) + if b[2] == PAD then 1 else 0;
  }

  ghost predicate AllSymbols(s: seq<byte>) {
    forall i :: 0 <= i < |s| ==> Value(s[i]) != NOTHING
  }

  lemma Block3(a: byte, b: byte, c: byte)
    ensures var e := Encode3(a, b, c); Pads(e) == 0 && Three(e) == [a, b, c] && AllSymbols(e)
  {
    hide Symbol, Value, Pads, Group0, Group1, Group2, Group3, Byte0, Byte1, Byte2;
    SmallGroups(a, b);
    SmallGroups(b, c);
    SmallGroups(c, c);
    SymbolValue(Group0(a));
    SymbolValue(Group1(a, b));
    SymbolValue(Group2(b, c));
    SymbolValue(Group3(c));
    PadsFour(Encode3(a, b, c));
    GroupsBack(a, b, c);
  }

  lemma PadValue()
    ensures Value(PAD) == 0 && NOTHING != 0
  {
  }

  lemma Block2(a: byte, b: byte)
    ensures var e := Encode2(a, b); Pads(e) == 1 && Three(e)[..2] == [a, b] && AllSymbols(e)
  {
    hide Symbol, Value, Pads, Group0, Group1, Group2, Group3, Byte0, Byte1, Byte2;
    SmallGroups(a, b);
    SmallGroups(b, 0);
    SymbolValue(Group0(a));
    SymbolValue(Group1(a, b));
    SymbolValue(Group2(b, 0));
    PadsFour(Encode2(a, b));
    PadValue();
    GroupsBack(a, b, 0);
  }

  lemma Block1(a: byte)
    ensures var e := Encode1(a); Pads(e) == 2 && Three(e)[..1] == [a] && AllSymbols(e)
  {
    hide Symbol, Value, Pads, Group0, Group1, Group2, Group3, Byte0, Byte1, Byte2;
    SmallGroups(a, 0);
    SymbolValue(Group0(a));
    SymbolValue(Group1(a, 0));
    PadsFour(Encode1(a));
    PadValue();
    GroupsBack(a, 0, 0);
  }

  lemma {:induction false} EncodedSymbols(s: seq<byte>)
    ensures AllSymbols(Encoded(s))
  {
    hide Encode1, Encode2, Encode3, Value;
    if |s| == 1 {
      Block1(s[0]);
    } else if |s| == 2 {
      Block2(s[0], s[1]);
    } else if |s| > 2 {
      Block3(s[0], s[1], s[2]);
      EncodedSymbols(s[3..]);
    }
  }

  lemma {:induction false} KeptAll(s: seq<byte>)
    requires AllSymbols(s)
    ensures Kept(s) == s
  {
    hide Value;
    if s != [] {
      KeptAll(s[..|s| - 1]);
      assert Value(s[|s| - 1]) != NOTHING;
    }
  }

  lemma {:induction false} BlocksEncoded(s: seq<byte>)
    ensures |Encoded(s)| % 4 == 0 && Blocks(Encoded(s)) == Some(s)
  {
    hide Encode1, Encode2, Encode3, Value, Pads, Three;
    if |s| == 0 {
    } else if |s| == 1 {
      Block1(s[0]);
      assert Encoded(s)[..4] == Encode1(s[0]) && [s[0]] == s;
    } else if |s| == 2 {
      Block2(s[0], s[1]);
      assert Encoded(s)[..4] == Encode2(s[0], s[1]) && [s[0], s[1]] == s;
    } else {
      var e := Encode3(s[0], s[1], s[2]);
      Block3(s[0], s[1], s[2]);
      BlocksEncoded(s[3..]);
      assert Encoded(s)[..4] == e && Encoded(s)[4..] == Encoded(s[3..]);
      assert [s[0], s[1], s[2]] + s[3..] == s;
    }
  }

  /** Every byte string but the empty one comes back; the empty one decodes as a failure, also of length 0. */
  lemma RoundTrip(s: seq<byte>)
    ensures Decoded(Encoded(s)) == if s == [] then None else Some(s)
  {
    EncodedSymbols(s);
    KeptAll(Encoded(s));
    BlocksEncoded(s);
    hide Blocks, Encode1, Encode2, Encode3;
  }

  // The encoder

  const TWO_TO_THE_64 := 0x1_0000_0000_0000_0000

  /** The space the encoder asks for, in 64-bit arithmetic. */
  function Asked(len: nat): nat {
    var a := (len * 4 % TWO_TO_THE_64 / 3 + 4) % TWO_TO_THE_64;
    (a + a / 72 + 1) % TWO_TO_THE_64
  }

  /** A length whose quadruple does not fit in 64 bits never passes the overflow test. */
  lemma OverflowIsSeen(len: nat)
    requires len < TWO_TO_THE_64 <= 4 * len
    ensures Asked(len) < len
  {
    var k := if 4 * len >= 3 * TWO_TO_THE_64 then 3 else if 4 * len >= 2 * TWO_TO_THE_64 then 2 else 1;
    var low := 4 * len - k * TWO_TO_THE_64;
    assert len * 4 % TWO_TO_THE_64 == low;
    var a := low / 3 + 4;
    assert 3 * a <= low + 12 && low < TWO_TO_THE_64;
    Small(a);
    var b := a / 72;
    assert 72 * b <= a;
    Small(a + b + 1);
    assert Asked(len) == a + b + 1;
  }

  /** What passes both tests has room for the text and its terminator. */
  lemma AskedIsEnough(len: nat, room: nat)
    requires len < TWO_TO_THE_64 && len <= Asked(len) <= room
    ensures 4 * len < TWO_TO_THE_64 && 4 * ((len + 2) / 3) + 1 <= room
  {
    hide Asked;
    if 4 * len >= TWO_TO_THE_64 {
      OverflowIsSeen(len);
    } else {
      AskedIs(len);
      Quarter(len);
    }
  }

  /** Four letters for every three bytes begun, one for every line of 72, and one for the end. */
  lemma AskedIs(len: nat)
    requires 4 * len < TWO_TO_THE_64
    ensures var a := 4 * len / 3 + 4; Asked(len) == a + a / 72 + 1
  {
    var q := len * 4;
    var a := q / 3 + 4;
    Small(q);
    assert a <= q + 4 && 3 * a <= q + 12;
    Small(a);
    var b := a / 72;
    assert b <= a;
    Small(a + b + 1);
  }

  lemma Small(x: nat)
    ensures x < TWO_TO_THE_64 ==> x % TWO_TO_THE_64 == x
  {
  }

  lemma Quarter(len: nat)
    ensures 4 * ((len + 2) / 3) <= 4 * len / 3 + 4
  {
  }

  /** `base64_encode`. */
  method Encode(src: seq<byte>, out: array<byte>) returns (n: nat)
    requires |src| < TWO_TO_THE_64
    modifies out
    ensures if |src| <= Asked(|src|) <= out.Length then
              n == |Encoded(src)| < out.Length && out[..n] == Encoded(src) && out[n] == 0 &&
              forall i :: n < i < out.Length ==> out[i] == old(out[i])
            else n == 0 && out[..] == old(out[..])
  {
    hide Encoded, Asked;
    var olen := Asked(|src|);
    if olen < |src| {
      return 0;
    }
    if olen > out.Length {
      return 0;
    }
    AskedIsEnough(|src|, out.Length);
    EncodedLength(src);
    n := EncodeText(src, out);
    out[n] := 0;
  }

  /** The text itself, without the terminator. */
  method EncodeText(src: seq<byte>, out: array<byte>) returns (pos: nat)
    requires |Encoded(src)| <= out.Length
    modifies out
    ensures pos == |Encoded(src)| && out[..pos] == Encoded(src)
    ensures forall k :: pos <= k < out.Length ==> out[k] == old(out[k])
  {
    hide Encoded, Encode1, Encode2, Encode3;
    assert src[0..] == src;
    pos := 0;
    var i := 0;
    while |src| - i >= 3
      invariant 0 <= i <= |src| && pos <= out.Length
      invariant out[..pos] + Encoded(src[i..]) == Encoded(src)
      invariant forall k :: pos <= k < out.Length ==> out[k] == old(out[k])
    {
      EncodeStep(src, i);
      var block := Encode3(src[i], src[i + 1], src[i + 2]);
      Regroup(out[..pos], block, Encoded(src[i + 3..]));
      Put(out, pos, block);
      i, pos := i + 3, pos + 4;
    }
    EncodeLast(src, i);
    if i < |src| {
      if |src| - i == 1 {
        Put(out, pos, Encode1(src[i]));
      } else {
        Put(out, pos, Encode2(src[i], src[i + 1]));
      }
      pos := pos + 4;
    }
  }

  lemma Regroup(a: seq<byte>, b: seq<byte>, c: seq<byte>)
    ensures a + (b + c) == (a + b) + c
  {
  }

  /** Four symbols, one after the other. */
  method Put(out: array<byte>, pos: nat, s: seq<byte>)
    requires pos + 4 <= out.Length && |s| == 4
    modifies out
    ensures out[..pos + 4] == old(out[..pos]) + s
    ensures forall k :: pos + 4 <= k < out.Length ==> out[k] == old(out[k])
  {
    out[pos], out[pos + 1], out[pos + 2], out[pos + 3] := s[0], s[1], s[2], s[3];
  }

  lemma EncodeStep(src: seq<byte>, i: nat)
    requires i + 3 <= |src|
    ensures Encoded(src[i..]) == Encode3(src[i], src[i + 1], src[i + 2]) + Encoded(src[i + 3..])
  {
    hide Encode1, Encode2, Encode3;
    assert src[i..][3..] == src[i + 3..];
  }

  lemma EncodeLast(src: seq<byte>, i: nat)
    requires i <= |src| < i + 3
    ensures Encoded(src[i..]) ==
      if |src| == i then [] else if |src| == i + 1 then Encode1(src[i]) else Encode2(src[i], src[i + 1])
  {
    hide Encode1, Encode2, Encode3;
  }

  // The decoder

  lemma KeptNext(s: seq<byte>, i: nat)
    requires i < |s|
    ensures Kept(s[..i + 1]) == Kept(s[..i]) + (if Value(s[i]) == NOTHING then [] else [s[i]])
  {
    assert s[..i + 1][..i] == s[..i];
  }

  lemma {:induction false} KeptShort(s: seq<byte>)
    ensures |Kept(s)| <= |s|
  {
    if s != [] {
      KeptShort(s[..|s| - 1]);
    }
  }

  lemma {:induction false} KeptPrefix(s: seq<byte>, i: nat)
    requires i <= |s|
    ensures |Kept(s[..i])| <= |Kept(s)| && Kept(s[..i]) == Kept(s)[..|Kept(s[..i])|]
    decreases |s| - i
  {
    if i < |s| {
      KeptPrefix(s, i + 1);
      KeptNext(s, i);
    } else {
      assert s[..i] == s;
    }
  }

  ghost function Front(p: seq<byte>, r: Option<seq<byte>>): Option<seq<byte>> {
    if r.None? then None else Some(p + r.value)
  }

  lemma Multiple(n: nat, k: nat)
    requires n % 4 == 0 && 4 * k <= n
    ensures (n - 4 * k) % 4 == 0
  {
  }

  /** What the blocks from the `k`th on decode to. */
  ghost function BlocksFrom(f: seq<byte>, k: nat): Option<seq<byte>>
    requires |f| % 4 == 0 && 4 * k <= |f|
  {
    Multiple(|f|, k);
    Blocks(f[4 * k..])
  }

  lemma BlocksNext(f: seq<byte>, k: nat)
    requires |f| % 4 == 0 && 4 * k + 4 <= |f|
    ensures var b := f[4 * k..4 * k + 4];
      (Pads(b) == 0 ==> BlocksFrom(f, k) == Front(Three(b), BlocksFrom(f, k + 1))) &&
      (1 <= Pads(b) <= 2 ==> BlocksFrom(f, k) == Some(Three(b)[..3 - Pads(b)])) &&
      (Pads(b) > 2 ==> BlocksFrom(f, k).None?)
  {
    hide Pads, Three;
    var g := f[4 * k..];
    Multiple(|f|, k);
    Multiple(|f|, k + 1);
    assert g[..4] == f[4 * k..4 * k + 4] && g[4..] == f[4 * (k + 1)..];
  }

  /** How many symbols there are. */
  method Count(src: array<byte>, len: nat) returns (count: nat)
    requires len <= src.Length
    ensures count == |Kept(src[..len])|
  {
    hide Kept, Value;
    ghost var s := src[..len];
    assert s[..0] == [];
    KeptNone();
    count := 0;
    for i := 0 to len
      invariant count == |Kept(s[..i])|
    {
      KeptNext(s, i);
      if Value(src[i]) != NOTHING {
        count := count + 1;
      }
    }
    assert s[..len] == s;
  }

  lemma KeptNone()
    ensures Kept([]) == []
  {
  }

  /** What has been decoded so far: `k` blocks without padding, and the beginning of the next. */
  ghost predicate Decoding(s: seq<byte>, i: nat, k: nat, block: seq<byte>, done: seq<byte>)
    requires |Kept(s)| % 4 == 0
  {
    i <= |s| && |block| < 4 && 4 * k + |block| <= |Kept(s)| && Kept(s[..i]) == Kept(s)[..4 * k + |block|] &&
    block == Kept(s)[4 * k..4 * k + |block|] && |done| == 3 * k &&
    Blocks(Kept(s)) == Front(done, BlocksFrom(Kept(s), k))
  }

  lemma StartDecoding(s: seq<byte>)
    requires |Kept(s)| % 4 == 0
    ensures Decoding(s, 0, 0, [], [])
  {
    var f := Kept(s);
    assert s[..0] == [] && f[..0] == [] && f[0..] == f;
    if Blocks(f).Some? { assert [] + Blocks(f).value == Blocks(f).value; }
  }

  lemma SkipSymbol(s: seq<byte>, i: nat, k: nat, block: seq<byte>, done: seq<byte>)
    requires |Kept(s)| % 4 == 0 && Decoding(s, i, k, block, done) && i < |s| && Value(s[i]) == NOTHING
    ensures Decoding(s, i + 1, k, block, done)
  {
    hide Kept, Value, Blocks, BlocksFrom;
    KeptNext(s, i);
  }

  /** Another symbol joins the block. */
  lemma TakeSymbol(s: seq<byte>, i: nat, k: nat, block: seq<byte>, done: seq<byte>)
    requires |Kept(s)| % 4 == 0 && Decoding(s, i, k, block, done) && i < |s| && Value(s[i]) != NOTHING
    ensures var b := block + [s[i]];
      4 * k + |b| <= |Kept(s)| && Kept(s[..i + 1]) == Kept(s)[..4 * k + |b|] && b == Kept(s)[4 * k..4 * k + |b|] &&
      4 * k + |b| <= i + 1
    ensures Blocks(Kept(s)) == Front(done, BlocksFrom(Kept(s), k)) &&
      (|block| < 3 ==> Decoding(s, i + 1, k, block + [s[i]], done))
  {
    hide Kept, Value, Blocks, BlocksFrom;
    KeptNext(s, i);
    KeptPrefix(s, i + 1);
    KeptShort(s[..i + 1]);
    var f, n := Kept(s), 4 * k + |block| + 1;
    assert f[..n][4 * k..] == f[4 * k..n];
  }

  /** A full block without padding. */
  lemma TakeBlock(s: seq<byte>, i: nat, k: nat, block: seq<byte>, done: seq<byte>)
    requires |Kept(s)| % 4 == 0 && i <= |s| && |block| == 4 && 4 * k + 4 <= |Kept(s)| && |done| == 3 * k
    requires Kept(s[..i]) == Kept(s)[..4 * k + 4] && block == Kept(s)[4 * k..4 * k + 4] && Pads(block) == 0
    requires Blocks(Kept(s)) == Front(done, BlocksFrom(Kept(s), k))
    ensures Decoding(s, i, k + 1, [], done + Three(block))
  {
    hide Kept, Blocks, BlocksFrom, Three, Pads;
    var f := Kept(s);
    BlocksNext(f, k);
    var r := BlocksFrom(f, k + 1);
    if r.Some? {
      assert done + (Three(block) + r.value) == (done + Three(block)) + r.value;
    }
  }

  lemma EndDecoding(s: seq<byte>, k: nat, block: seq<byte>, done: seq<byte>)
    requires |Kept(s)| % 4 == 0 && Decoding(s, |s|, k, block, done)
    ensures Blocks(Kept(s)) == Some(done)
  {
    var f := Kept(s);
    assert s[..|s|] == s;
    assert |f| == 4 * k + |block|;
    Multiple(|f|, k);
    assert f[4 * k..] == [];
    assert done + [] == done;
  }

  lemma PadsNext(b: seq<byte>, x: byte)
    ensures Pads(b + [x]) == Pads(b) + (if x == PAD then 1 else 0) && Pads([]) == 0
  {
    assert (b + [x])[..|b|] == b;
  }

  /** `base64_decode`.  The output may be the input itself: nothing is overwritten before it is read. */
  method Decode(src: array<byte>, len: nat, out: array<byte>, room: nat) returns (r: nat)
    requires len <= src.Length && room <= out.Length
    modifies out
    ensures var s := old(src[..len]);
      var n := |Kept(s)|;
      if n == 0 || n % 4 != 0 || n / 4 * 3 > room || Decoded(s).None? then r == 0
      else r == |Decoded(s).value| && r <= room && out[..r] == Decoded(s).value
    ensures forall k :: room <= k < out.Length ==> out[k] == old(out[k])
  {
    hide Kept, Value, Blocks, BlocksFrom, Three, Pads, Decoding;
    ghost var s := src[..len];
    var count := Count(src, len);
    if count == 0 || count % 4 != 0 {
      return 0;
    }
    var olen := count / 4 * 3;
    if olen > room {
      return 0;
    }
    StartDecoding(s);
    ghost var f, k, done := Kept(s), 0, [];
    var pos, pad, i := 0, 0, 0;
    var block: seq<byte> := [];
    PadsNext([], 0);
    while i < len
      invariant 0 <= i <= len && pos == 3 * k && |block| < 4 && 4 * k + |block| <= count
      invariant pad == Pads(block) && out[..pos] == done && Decoding(s, i, k, block, done)
      invariant forall j :: i <= j < len ==> src[j] == s[j]
      invariant forall j :: room <= j < out.Length ==> out[j] == old(out[j])
    {
      if Value(src[i]) == NOTHING {
        SkipSymbol(s, i, k, block, done);
        i := i + 1;
        continue;
      }
      TakeSymbol(s, i, k, block, done);
      PadsNext(block, src[i]);
      if src[i] == PAD {
        pad := pad + 1;
      }
      block := block + [src[i]];
      i := i + 1;
      if |block| == 4 {
        BlocksNext(f, k);
        var three := Three(block);
        Put3(out, pos, three);
        if pad != 0 {
          if pad == 1 {
            r := pos + 3 - 1;
          } else if pad == 2 {
            r := pos + 3 - 2;
          } else {
            return 0;
          }
          assert out[..r] == done + three[..3 - pad];
          return;
        }
        TakeBlock(s, i, k, block, done);
        pos, block, k, done := pos + 3, [], k + 1, done + three;
      }
    }
    EndDecoding(s, k, block, done);
    r := pos;
  }

  method Put3(out: array<byte>, pos: nat, b: seq<byte>)
    requires pos + 3 <= out.Length && |b| == 3
    modifies out
    ensures out[..pos + 3] == old(out[..pos]) + b
    ensures forall k :: pos + 3 <= k < out.Length ==> out[k] == old(out[k])
  {
    out[pos], out[pos + 1], out[pos + 2] := b[0], b[1], b[2];
  }
}
