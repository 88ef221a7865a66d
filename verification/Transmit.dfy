/** Sending queued responses: vectors are built from the queue, and what was sent is taken off it. */
module Transmit {
  import opened Basics
  import opened Flatten

  const IOV_MAX := 1024
  const MC_RESP_IOVCOUNT := 4

  /** `base` is the memory at `iov_base`. */
  datatype Iov = Iov(base: seq<byte>, len: nat)

  /** A response.  When `chunkedDataIov` is not zero, that vector stands for the data of a chunked item:
      `chunks` are the used parts of its chunks, and its length says how much of the `chunkedTotal` bytes
      is left. */
  datatype Resp = Resp(
    iov: seq<Iov>, tosend: int, chunkedDataIov: nat, chunkedTotal: nat, chunks: seq<seq<byte>>, skip: bool)

  // Bytes still to be sent

  predicate Chunked(r: Resp, x: nat) {
    r.chunkedDataIov != 0 && x == r.chunkedDataIov
  }

  predicate IovOk(r: Resp, x: nat)
    requires x < |r.iov|
  {
    if Chunked(r, x) then r.iov[x].len <= r.chunkedTotal <= |Flat(r.chunks)| else r.iov[x].len <= |r.iov[x].base|
  }

  function IovBytes(r: Resp, x: nat): (b: seq<byte>)
    requires x < |r.iov| && IovOk(r, x)
    ensures |b| == r.iov[x].len
  {
    var n := r.iov[x].len;
    if Chunked(r, x) then Flat(r.chunks)[r.chunkedTotal - n..r.chunkedTotal] else r.iov[x].base[..n]
  }

  function LengthFrom(r: Resp, x: nat): nat
    requires x <= |r.iov|
    decreases |r.iov| - x
  {
    if x == |r.iov| then 0 else r.iov[x].len + LengthFrom(r, x + 1)
  }

  /** The bytes of the vectors from `x` on. */
  function BytesFrom(r: Resp, x: nat): (b: seq<byte>)
    requires x <= |r.iov| && forall y :: x <= y < |r.iov| ==> IovOk(r, y)
    ensures |b| == LengthFrom(r, x)
    decreases |r.iov| - x
  {
    if x == |r.iov| then [] else IovBytes(r, x) + BytesFrom(r, x + 1)
  }

  ghost predicate RespOk(r: Resp) {
    |r.iov| <= MC_RESP_IOVCOUNT && (r.chunkedDataIov != 0 ==> r.chunkedDataIov < |r.iov|) &&
    r.tosend == LengthFrom(r, 0) && forall y :: 0 <= y < |r.iov| ==> IovOk(r, y)
  }

  ghost predicate QueueOk(q: seq<Resp>) {
    forall i :: 0 <= i < |q| ==> RespOk(q[i])
  }

  /** What the socket is still owed: the responses that are not skipped, in order. */
  ghost function Pending(q: seq<Resp>): seq<byte>
    requires QueueOk(q)
  {
    if q == [] then [] else (if q[0].skip then [] else BytesFrom(q[0], 0)) + Pending(q[1..])
  }

  // Building responses

  /** `resp_add_iov`. */
  function WithIov(r: Resp, base: seq<byte>, len: nat): Resp {
    r.(iov := r.iov + [Iov(base, len)], tosend := r.tosend + len)
  }

  /** `resp_add_chunked_iov`. */
  function WithChunkedIov(r: Resp, chunks: seq<seq<byte>>, len: nat): Resp {
    WithIov(r.(chunkedDataIov := |r.iov|, chunkedTotal := len, chunks := chunks), [], len)
  }

  lemma TakeChunk(chunks: seq<seq<byte>>, k: nat, skip: nat, take: nat, out: seq<seq<byte>>, before: seq<byte>,
      off: nat, n: nat)
    requires k < |chunks| && skip + take <= |chunks[k]|
    requires off + n == |Flat(chunks[..k])| + skip && off + n <= |Flat(chunks)| &&
      Flat(out) == before + Flat(chunks)[off..off + n]
    ensures off + n + take <= |Flat(chunks)|
    ensures Flat(out + [chunks[k][skip..skip + take]]) == before + Flat(chunks)[off..off + n + take]
  {
    hide Flat;
    FlatSlice(chunks, k, skip, take);
    FlatPush(out, chunks[k][skip..skip + take]);
    Longer(Flat(chunks), before, Flat(out), chunks[k][skip..skip + take], off, n, take);
  }

  lemma Longer(f: seq<byte>, before: seq<byte>, a: seq<byte>, piece: seq<byte>, off: nat, n: nat, take: nat)
    requires off + n + take <= |f| && a == before + f[off..off + n] && piece == f[off + n..off + n + take]
    ensures a + piece == before + f[off..off + n + take]
  {
    Slices(f, off, off + n, off + n + take);
    Reassociate(before, f[off..off + n], piece);
  }

  // Building the vectors to send

  /** The chunks of an item, from where the last send left off. */
  method ChunkIovs(chunks: seq<seq<byte>>, total: nat, len: nat, iovs: seq<seq<byte>>)
      returns (out: seq<seq<byte>>, ghost n: nat)
    requires len <= total <= |Flat(chunks)| && |iovs| < IOV_MAX - 1
    ensures n <= len && |iovs| <= |out| < IOV_MAX && (n == len || |out| == IOV_MAX - 1)
    ensures Flat(out) == Flat(iovs) + Flat(chunks)[total - len..total - len + n]
    ensures |out| == |iovs| ==> n == len == 0
  {
    hide Flat;
    out := iovs;
    n := 0;
    FlatNone(chunks);
    ghost var off := total - len;
    var done := total - len;
    var todo: int := len;
    var k := 0;
    while k < |chunks| && todo > 0 && |out| < IOV_MAX - 1
      invariant 0 <= k <= |chunks| && 0 <= n <= len && |iovs| <= |out| <= IOV_MAX - 1 && done >= 0
      invariant Flat(out) == Flat(iovs) + Flat(chunks)[off..off + n]
      invariant if todo > 0 then todo == len - n && off + n == |Flat(chunks[..k])| + done else n == len
      invariant |out| == |iovs| ==> n == 0
      decreases |chunks| - k
    {
      var used := |chunks[k]|;
      var skip := 0;
      FlatSlice(chunks, k, 0, 0);
      if used == 0 {
        k := k + 1;
        continue;
      }
      if done >= used {
        done := done - used;
        k := k + 1;
        continue;
      } else if done != 0 {
        skip := done;
        done := 0;
      }
      var take := if used - skip > todo then todo else used - skip;
      TakeChunk(chunks, k, skip, take, out, Flat(iovs), off, n);
      out := out + [chunks[k][skip..skip + take]];
      n := n + take;
      todo := todo - (used - skip);
      k := k + 1;
    }
    assert k == |chunks| ==> chunks[..k] == chunks;
  }

  /** The vectors of one response: all of them, or as many as there is room for. */
  method RespIovs(r: Resp, iovs: seq<seq<byte>>) returns (out: seq<seq<byte>>, ghost n: nat)
    requires RespOk(r) && |iovs| + |r.iov| < IOV_MAX - 1
    ensures |iovs| <= |out| < IOV_MAX && n <= |BytesFrom(r, 0)|
    ensures Flat(out) == Flat(iovs) + BytesFrom(r, 0)[..n]
    ensures n == |BytesFrom(r, 0)| || |out| == IOV_MAX - 1
    ensures |out| == |iovs| ==> BytesFrom(r, 0) == []
  {
    hide Flat, BytesFrom, LengthFrom, IovBytes, IovOk;
    out := iovs;
    ghost var all, was := BytesFrom(r, 0), Flat(iovs);
    n := 0;
    var x := 0;
    while x < |r.iov|
      invariant 0 <= x <= |r.iov| && |iovs| <= |out| < IOV_MAX - 1
      invariant 0 <= n <= |all| && Flat(out) == was + all[..n] && all[n..] == BytesFrom(r, x)
      invariant |out| == |iovs| ==> n == 0
    {
      IovIs(r, x);
      ghost var m := 0;
      if x == r.chunkedDataIov && r.chunkedDataIov != 0 {
        out, m := ChunkIovs(r.chunks, r.chunkedTotal, r.iov[x].len, out);
        ChunkBytes(r, x, m);
      } else {
        m := r.iov[x].len;
        PlainBytes(r, x);
        FlatPush(out, r.iov[x].base[..m]);
        out := out + [r.iov[x].base[..r.iov[x].len]];
      }
      Advance(all, n, m);
      Reassociate(was, all[..n], all[n..][..m]);
      n := n + m;
      if |out| >= IOV_MAX - 1 {
        break;
      }
      x := x + 1;
    }
    NoBytes(r);
  }

  lemma Advance(all: seq<byte>, n: nat, m: nat)
    requires n + m <= |all|
    ensures all[..n] + all[n..][..m] == all[..n + m] && all[n..][m..] == all[n + m..]
  {
  }

  lemma NoBytes(r: Resp)
    requires forall y :: 0 <= y < |r.iov| ==> IovOk(r, y)
    ensures BytesFrom(r, |r.iov|) == []
  {
  }

  lemma IovIs(r: Resp, x: nat)
    requires RespOk(r) && x < |r.iov|
    ensures IovOk(r, x)
    ensures Chunked(r, x) ==> r.iov[x].len <= r.chunkedTotal <= |Flat(r.chunks)|
    ensures !Chunked(r, x) ==> r.iov[x].len <= |r.iov[x].base|
  {
    hide Flat;
    assert IovOk(r, x);
  }

  lemma ChunkBytes(r: Resp, x: nat, m: nat)
    requires x < |r.iov| && IovOk(r, x) && (forall y :: x <= y < |r.iov| ==> IovOk(r, y)) && Chunked(r, x) &&
      m <= r.iov[x].len
    ensures var off := r.chunkedTotal - r.iov[x].len;
      m <= |BytesFrom(r, x)| && Flat(r.chunks)[off..off + m] == BytesFrom(r, x)[..m]
    ensures m == r.iov[x].len ==> BytesFrom(r, x)[m..] == BytesFrom(r, x + 1)
  {
    hide Flat;
  }

  lemma PlainBytes(r: Resp, x: nat)
    requires x < |r.iov| && IovOk(r, x) && (forall y :: x <= y < |r.iov| ==> IovOk(r, y)) && !Chunked(r, x)
    ensures var n := r.iov[x].len;
      n <= |BytesFrom(r, x)| && r.iov[x].base[..n] == BytesFrom(r, x)[..n] &&
      BytesFrom(r, x)[n..] == BytesFrom(r, x + 1)
  {
    hide Flat;
  }

  lemma PendingFrom(q: seq<Resp>, i: nat)
    requires QueueOk(q) && i < |q|
    ensures RespOk(q[i]) && QueueOk(q[i..]) && QueueOk(q[i + 1..])
    ensures Pending(q[i..]) == (if q[i].skip then [] else BytesFrom(q[i], 0)) + Pending(q[i + 1..])
  {
    assert q[i..][1..] == q[i + 1..];
  }

  lemma NonePending(q: seq<Resp>)
    ensures QueueOk(q[|q|..]) && Pending(q[|q|..]) == []
  {
  }

  /** `_transmit_pre`: the vectors hold the first bytes owed, and all of them unless there is no room for
      another response. */
  method TransmitPre(q: seq<Resp>) returns (iovs: seq<seq<byte>>, ghost n: nat)
    requires QueueOk(q)
    ensures |iovs| < IOV_MAX && n <= |Pending(q)| && Flat(iovs) == Pending(q)[..n]
    ensures n == |Pending(q)| || |iovs| + MC_RESP_IOVCOUNT >= IOV_MAX - 1
    ensures iovs == [] ==> Pending(q) == []
    ensures q == [] ==> iovs == []
  {
    hide Flat, BytesFrom, Pending, RespOk;
    iovs, n := [], 0;
    FlatNone([]);
    ghost var all := Pending(q);
    assert q[0..] == q;
    var i := 0;
    while i < |q| && |iovs| + |q[i].iov| < IOV_MAX - 1
      invariant 0 <= i <= |q| && |iovs| < IOV_MAX && QueueOk(q[i..])
      invariant 0 <= n <= |all| && Flat(iovs) == all[..n]
      invariant all[n..] == Pending(q[i..]) || |iovs| == IOV_MAX - 1
      invariant (iovs == [] ==> n == 0) && (q == [] ==> iovs == [])
    {
      PendingFrom(q, i);
      if !q[i].skip {
        ghost var m;
        iovs, m := RespIovs(q[i], iovs);
        Advance(all, n, m);
        n := n + m;
      }
      i := i + 1;
    }
    NonePending(q);
    if i < |q| {
      SmallResp(q, i);
    }
  }

  lemma SmallResp(q: seq<Resp>, i: nat)
    requires QueueOk(q) && i < |q|
    ensures |q[i].iov| <= MC_RESP_IOVCOUNT
  {
  }

  // Taking off what was sent

  ghost predicate SameFrom(r: Resp, s: Resp, x: nat) {
    |r.iov| == |s.iov| && x <= |r.iov| && r.chunkedDataIov == s.chunkedDataIov && r.chunkedTotal == s.chunkedTotal &&
    r.chunks == s.chunks && forall y :: x <= y < |r.iov| ==> r.iov[y] == s.iov[y]
  }

  lemma {:induction false} SameBytes(r: Resp, s: Resp, x: nat)
    requires SameFrom(r, s, x) && forall y :: x <= y < |r.iov| ==> IovOk(r, y)
    ensures (forall y :: x <= y < |r.iov| ==> IovOk(s, y)) && BytesFrom(r, x) == BytesFrom(s, x)
    decreases |r.iov| - x
  {
    forall y | x <= y < |r.iov| ensures IovOk(s, y) {
      assert IovOk(r, y);
    }
    if x < |r.iov| {
      SameBytes(r, s, x + 1);
      assert IovOk(r, x) && r.iov[x] == s.iov[x];
    }
  }

  /** Vectors of length zero contribute nothing. */
  lemma {:induction false} ZeroBytes(r: Resp, x: nat, z: nat)
    requires x <= z <= |r.iov| && (forall y :: x <= y < z ==> r.iov[y].len == 0)
    requires forall y :: x <= y < |r.iov| ==> IovOk(r, y)
    ensures BytesFrom(r, x) == BytesFrom(r, z) && LengthFrom(r, x) == LengthFrom(r, z)
    decreases z - x
  {
    hide IovOk;
    if x < z {
      ZeroBytes(r, x + 1, z);
    }
  }

  /** A vector of which `n` bytes have been sent; that of a chunked item keeps its base. */
  function Cut(r: Resp, x: nat, n: nat): Iov
    requires x < |r.iov| && IovOk(r, x) && n <= r.iov[x].len
  {
    var v := r.iov[x];
    Iov(if Chunked(r, x) then v.base else v.base[n..], v.len - n)
  }

  lemma CutIov(r: Resp, s: Resp, x: nat, n: nat)
    requires x < |r.iov| && IovOk(r, x) && n <= r.iov[x].len && SameFrom(r, s, x + 1) && s.iov[x] == Cut(r, x, n)
    ensures IovOk(s, x) && IovBytes(s, x) == IovBytes(r, x)[n..]
  {
    hide Flat;
  }

  lemma CutBytes(r: Resp, s: Resp, x: nat, n: nat)
    requires x < |r.iov| && IovOk(r, x) && n <= r.iov[x].len && SameFrom(r, s, x + 1) && s.iov[x] == Cut(r, x, n)
    requires forall y :: x <= y < |r.iov| ==> IovOk(r, y)
    ensures forall y :: x <= y < |r.iov| ==> IovOk(s, y)
    ensures BytesFrom(s, x) == BytesFrom(r, x)[n..]
  {
    hide Flat, IovOk, IovBytes, Cut, BytesFrom, LengthFrom;
    CutIov(r, s, x, n);
    SameBytes(r, s, x + 1);
    Unroll(r, x);
    Unroll(s, x);
    DropFirst(IovBytes(r, x), BytesFrom(r, x + 1), n);
  }

  lemma Unroll(r: Resp, x: nat)
    requires x < |r.iov| && IovOk(r, x) && forall y :: x <= y < |r.iov| ==> IovOk(r, y)
    ensures BytesFrom(r, x) == IovBytes(r, x) + BytesFrom(r, x + 1)
  {
    hide Flat;
  }

  lemma DropFirst(a: seq<byte>, b: seq<byte>, n: nat)
    requires n <= |a|
    ensures (a + b)[n..] == a[n..] + b
  {
  }

  lemma BytesSplit(r: Resp, x: nat)
    requires x < |r.iov| && forall y :: x <= y < |r.iov| ==> IovOk(r, y)
    ensures var n := r.iov[x].len;
      n <= |BytesFrom(r, x)| && BytesFrom(r, x)[n..] == BytesFrom(r, x + 1) &&
      LengthFrom(r, x) == n + LengthFrom(r, x + 1)
  {
    hide Flat;
    assert IovOk(r, x);
  }

  lemma ZeroOk(r: Resp, s: Resp, x: nat)
    requires x < |r.iov| && IovOk(r, x) && SameFrom(r, s, x + 1) && s.iov[x].len == 0
    ensures IovOk(s, x)
  {
    hide Flat;
  }

  /** All vectors before `x` sent in full, and `n` bytes of the one at `x`. */
  ghost predicate SentTo(r: Resp, s: Resp, x: nat, n: nat)
    requires x < |r.iov| && IovOk(r, x) && n <= r.iov[x].len
  {
    SameFrom(r, s, x + 1) && s.iov[x] == Cut(r, x, n) && forall y :: 0 <= y < x ==> s.iov[y].len == 0 && IovOk(s, y)
  }

  lemma SentBytes(r: Resp, s: Resp, x: nat, n: nat, res: nat)
    requires RespOk(r) && x < |r.iov| && IovOk(r, x) && n < r.iov[x].len && SentTo(r, s, x, n)
    requires n <= res < r.tosend && BytesFrom(r, x) == BytesFrom(r, 0)[res - n..] && s.tosend == r.tosend - res
    ensures RespOk(s) && BytesFrom(s, 0) == BytesFrom(r, 0)[res..]
  {
    CutBytes(r, s, x, n);
    hide IovOk, Flat, IovBytes, Cut;
    ZeroBytes(s, 0, x);
    assert BytesFrom(r, 0)[res - n..][n..] == BytesFrom(r, 0)[res..];
  }

  /** The loop of `_transmit_post` over the vectors of a response that has been sent in part. */
  method PostResp(r: Resp, res: nat) returns (s: Resp)
    requires RespOk(r) && res < r.tosend
    ensures RespOk(s) && s.tosend == r.tosend - res && s.skip == r.skip && BytesFrom(s, 0) == BytesFrom(r, 0)[res..]
  {
    hide Flat, BytesFrom, LengthFrom;
    s := r;
    var left := res;
    var x := 0;
    while x < |s.iov|
      invariant 0 <= x <= |r.iov| && SameFrom(r, s, x) && s.skip == r.skip && 0 <= left <= res
      invariant forall y :: 0 <= y < x ==> s.iov[y].len == 0 && IovOk(s, y)
      invariant s.tosend == r.tosend - (res - left) && BytesFrom(r, x) == BytesFrom(r, 0)[res - left..]
      invariant left < LengthFrom(r, x)
    {
      assert IovOk(r, x);
      BytesSplit(r, x);
      var v := s.iov[x];
      if left >= v.len {
        Later(BytesFrom(r, 0), res - left, v.len);
        s := s.(tosend := s.tosend - v.len, iov := s.iov[x := Iov(v.base, 0)]);
        left := left - v.len;
        ZeroOk(r, s, x);
      } else {
        var base := if s.chunkedDataIov == 0 || x != s.chunkedDataIov then v.base[left..] else v.base;
        s := s.(tosend := s.tosend - left, iov := s.iov[x := Iov(base, v.len - left)]);
        SentBytes(r, s, x, left, res);
        return;
      }
      x := x + 1;
    }
    NoLength(r);
  }

  lemma Later(b: seq<byte>, i: nat, n: nat)
    requires i + n <= |b|
    ensures b[i..][n..] == b[i + n..]
  {
  }

  lemma NoLength(r: Resp)
    ensures LengthFrom(r, |r.iov|) == 0
  {
  }

  /** `_transmit_post`: `res` bytes come off the front, and so does every response they complete. */
  method TransmitPost(q: seq<Resp>, res: nat) returns (rest: seq<Resp>)
    requires QueueOk(q) && res <= |Pending(q)|
    ensures QueueOk(rest) && Pending(rest) == Pending(q)[res..]
    ensures rest == [] <==> Pending(rest) == []
  {
    hide RespOk, BytesFrom, LengthFrom, Pending;
    rest := q;
    var left := res;
    while rest != []
      invariant QueueOk(rest) && 0 <= left <= |Pending(rest)| && Pending(rest)[left..] == Pending(q)[res..]
      decreases |rest|
    {
      PendingHead(rest);
      if rest[0].skip {
        rest := rest[1..];
        continue;
      }
      if left >= rest[0].tosend {
        left := left - rest[0].tosend;
        rest := rest[1..];
        continue;
      }
      var r := PostResp(rest[0], left);
      PendingPush(r, rest[1..]);
      rest := [r] + rest[1..];
      return;
    }
    PendingNone();
  }

  lemma PendingHead(q: seq<Resp>)
    requires QueueOk(q) && q != []
    ensures RespOk(q[0]) && QueueOk(q[1..]) && q[0].tosend == |BytesFrom(q[0], 0)|
    ensures Pending(q) == (if q[0].skip then [] else BytesFrom(q[0], 0)) + Pending(q[1..])
  {
  }

  lemma PendingPush(r: Resp, q: seq<Resp>)
    requires RespOk(r) && QueueOk(q)
    ensures QueueOk([r] + q) && Pending([r] + q) == (if r.skip then [] else BytesFrom(r, 0)) + Pending(q)
    ensures r.tosend == |BytesFrom(r, 0)|
  {
    assert ([r] + q)[1..] == q;
  }

  lemma PendingNone()
    ensures QueueOk([]) && Pending([]) == []
  {
  }

  lemma {:induction false} PendingAppend(q: seq<Resp>, r: Resp)
    requires QueueOk(q) && RespOk(r)
    ensures QueueOk(q + [r]) && Pending(q + [r]) == Pending(q) + (if r.skip then [] else BytesFrom(r, 0))
  {
    hide RespOk, BytesFrom;
    if q == [] {
      assert [r][1..] == [];
      assert q + [r] == [r];
      PendingPush(r, []);
    } else {
      assert (q + [r])[1..] == q[1..] + [r];
      PendingAppend(q[1..], r);
    }
  }

  lemma {:induction false} PendingJoin(a: seq<Resp>, b: seq<Resp>)
    requires QueueOk(a) && QueueOk(b)
    ensures QueueOk(a + b) && Pending(a + b) == Pending(a) + Pending(b)
    decreases a
  {
    hide RespOk, BytesFrom;
    if a == [] {
      assert a + b == b;
    } else {
      assert (a + b)[1..] == a[1..] + b;
      PendingJoin(a[1..], b);
      PendingHead(a);
      PendingHead(a + b);
    }
  }

  /** A queue with another response at one place. */
  lemma PendingAt(q: seq<Resp>, k: nat, r: Resp)
    requires QueueOk(q) && k < |q| && RespOk(r)
    ensures QueueOk(q[k := r]) && QueueOk(q[..k]) && QueueOk(q[k + 1..])
    ensures Pending(q[k := r]) == Pending(q[..k]) + (if r.skip then [] else BytesFrom(r, 0)) + Pending(q[k + 1..])
  {
    hide RespOk, BytesFrom, Pending;
    PendingPush(r, q[k + 1..]);
    PendingJoin(q[..k], [r] + q[k + 1..]);
    assert q[k := r] == q[..k] + ([r] + q[k + 1..]);
  }

  lemma SkipOk(r: Resp)
    requires RespOk(r)
    ensures RespOk(r.(skip := true))
  {
    var s := r.(skip := true);
    assert forall y :: 0 <= y < |r.iov| ==> IovOk(r, y) ==> IovOk(s, y);
    SameLength(r, s, 0);
  }

  lemma {:induction false} SameLength(r: Resp, s: Resp, x: nat)
    requires x <= |r.iov| && s.iov == r.iov
    ensures LengthFrom(r, x) == LengthFrom(s, x)
    decreases |r.iov| - x
  {
    if x < |r.iov| { SameLength(r, s, x + 1); }
  }

  /** A response that is skipped after all no longer contributes. */
  lemma SkippedAt(q: seq<Resp>, k: nat)
    requires QueueOk(q) && k < |q|
    ensures QueueOk(q[k := q[k].(skip := true)]) && QueueOk(q[..k]) && QueueOk(q[k + 1..])
    ensures Pending(q[k := q[k].(skip := true)]) == Pending(q[..k]) + Pending(q[k + 1..])
  {
    hide BytesFrom, Pending;
    SkipOk(q[k]);
    PendingAt(q, k, q[k].(skip := true));
  }

  lemma AtEnd(q: seq<Resp>)
    requires q != [] && QueueOk(q)
    ensures RespOk(q[|q| - 1]) && q[|q| - 1 := q[|q| - 1]] == q && q[|q|..] == []
  {
  }

  /** `resp_add_iov` adds the vector's bytes at the end. */
  lemma AddIovOk(r: Resp, base: seq<byte>, len: nat)
    requires RespOk(r) && |r.iov| < MC_RESP_IOVCOUNT && len <= |base|
    ensures RespOk(WithIov(r, base, len)) && BytesFrom(WithIov(r, base, len), 0) == BytesFrom(r, 0) + base[..len]
  {
    AddFrom(r, WithIov(r, base, len), 0);
  }

  /** `resp_add_chunked_iov` adds the first `len` bytes of the chunked item, after at least one vector. */
  lemma AddChunkedIovOk(r: Resp, chunks: seq<seq<byte>>, len: nat)
    requires RespOk(r) && 0 < |r.iov| < MC_RESP_IOVCOUNT && r.chunkedDataIov == 0 && len <= |Flat(chunks)|
    ensures RespOk(WithChunkedIov(r, chunks, len))
    ensures BytesFrom(WithChunkedIov(r, chunks, len), 0) == BytesFrom(r, 0) + Flat(chunks)[..len]
  {
    AddFrom(r, WithChunkedIov(r, chunks, len), 0);
  }

  lemma {:induction false} AddFrom(r: Resp, s: Resp, x: nat)
    requires |s.iov| == |r.iov| + 1 && s.iov[..|r.iov|] == r.iov && IovOk(s, |r.iov|)
    requires forall y :: 0 <= y < |r.iov| ==>
      (Chunked(s, y) <==> Chunked(r, y)) && (Chunked(r, y) ==> s.chunks == r.chunks && s.chunkedTotal == r.chunkedTotal)
    requires x <= |r.iov| && forall y :: x <= y < |r.iov| ==> IovOk(r, y)
    ensures forall y :: x <= y < |s.iov| ==> IovOk(s, y)
    ensures BytesFrom(s, x) == BytesFrom(r, x) + IovBytes(s, |r.iov|)
    decreases |r.iov| - x
  {
    hide Flat;
    forall y | x <= y < |r.iov| ensures IovOk(s, y) && IovBytes(s, y) == IovBytes(r, y) {
      assert IovOk(r, y) && s.iov[y] == s.iov[..|r.iov|][y];
      assert Chunked(s, y) <==> Chunked(r, y);
    }
    if x < |r.iov| {
      AddFrom(r, s, x + 1);
    } else {
      assert BytesFrom(s, x + 1) == [];
    }
  }

  datatype Result = Complete | Incomplete | SoftError | HardError

  /** What `sendmsg` answers: how many bytes it takes, that it would block, or that it failed. */
  datatype Answer = Took(n: nat) | WouldBlock | Failed

  /** The response queued last is given one more vector. */
  lemma AddedAtEnd(q: seq<Resp>, base: seq<byte>, len: nat)
    requires QueueOk(q) && q != [] && |q[|q| - 1].iov| < MC_RESP_IOVCOUNT && len <= |base|
    ensures var k := |q| - 1;
      var p := q[k := WithIov(q[k], base, len)];
      QueueOk(p) && Pending(p) == Pending(q) + if q[k].skip then [] else base[..len]
  {
    hide BytesFrom, Pending, QueueOk, RespOk;
    var k := |q| - 1;
    var r := q[k];
    AtEnd(q);
    AddIovOk(r, base, len);
    PendingAt(q, k, r);
    PendingAt(q, k, WithIov(r, base, len));
    PendingNone();
  }

  /** The other side of `sendmsg`: it decides how much it takes of what it is offered, keeps that, and says how
      much it was. */
  class Socket {
    var received: seq<byte>

    constructor ()
      ensures received == []
    {
      received := [];
    }

    method SendMsg(iovs: seq<seq<byte>>, answer: Answer) returns (res: int)
      modifies this
      ensures received == old(received) + Flat(iovs)[..Taken(iovs, answer)]
      ensures res == if answer.Took? then Taken(iovs, answer) else -1
    {
      received := received + Flat(iovs)[..Taken(iovs, answer)];
      res := if answer.Took? then Taken(iovs, answer) else -1;
    }
  }

  function Taken(iovs: seq<seq<byte>>, answer: Answer): (k: nat)
    ensures k <= |Flat(iovs)|
  {
    if !answer.Took? then 0 else if answer.n > |Flat(iovs)| then |Flat(iovs)| else answer.n
  }

  /** What a connection does: responses are queued, and the queue is sent from. */
  datatype Op = Queue(r: Resp) | Send(answer: Answer, eventOk: bool)

  ghost predicate OpsOk(ops: seq<Op>) {
    forall op <- ops :: op.Queue? ==> RespOk(op.r)
  }

  /** What the queued responses say, one after the other. */
  ghost function Owed(ops: seq<Op>): seq<byte>
    requires OpsOk(ops)
  {
    if ops == [] then []
    else (if ops[0].Queue? && !ops[0].r.skip then BytesFrom(ops[0].r, 0) else []) + Owed(ops[1..])
  }

  lemma {:induction false} OwedNext(ops: seq<Op>, i: nat)
    requires OpsOk(ops) && i < |ops|
    ensures OpsOk(ops[..i]) && OpsOk(ops[..i + 1])
    ensures Owed(ops[..i + 1]) ==
      Owed(ops[..i]) + if ops[i].Queue? && !ops[i].r.skip then BytesFrom(ops[i].r, 0) else []
    decreases i
  {
    hide BytesFrom, RespOk;
    assert ops[i] in ops;
    if i == 0 {
      assert ops[..1] == [ops[0]] && ops[..0] == [] && [ops[0]][1..] == [];
    } else {
      assert ops[..i + 1][1..] == ops[1..][..i] && ops[..i][1..] == ops[1..][..i - 1];
      OwedNext(ops[1..], i - 1);
    }
  }

  class Conn {
    const socket: Socket
    var queue: seq<Resp>

    /** What has been promised since the connection opened. */
    ghost var promised: seq<byte>

    /** What the socket has and what is still queued is what was promised. */
    ghost predicate Valid()
      reads this, socket
    {
      QueueOk(queue) && socket.received + Pending(queue) == promised
    }

    constructor ()
      ensures Valid() && queue == [] && promised == [] && fresh(socket)
    {
      socket := new Socket();
      queue, promised := [], [];
    }

    /** Another response joins the chain. */
    method Enqueue(r: Resp)
      requires Valid() && RespOk(r)
      modifies this`queue, this`promised
      ensures Valid() && queue == old(queue) + [r]
      ensures promised == old(promised) + if r.skip then [] else BytesFrom(r, 0)
    {
      hide BytesFrom, Pending, IovOk;
      PendingAppend(queue, r);
      queue := queue + [r];
      promised := promised + if r.skip then [] else BytesFrom(r, 0);
    }

    /** `resp_add_iov` on the response that was queued last and is being built. */
    method AddIov(base: seq<byte>, len: nat)
      requires Valid() && queue != [] && |queue[|queue| - 1].iov| < MC_RESP_IOVCOUNT && len <= |base|
      modifies this`queue, this`promised
      ensures Valid() && queue == old(queue)[..|old(queue)| - 1] + [WithIov(old(queue)[|old(queue)| - 1], base, len)]
      ensures promised == old(promised) + if old(queue)[|queue| - 1].skip then [] else base[..len]
    {
      hide BytesFrom, Pending, QueueOk, RespOk, WithIov;
      AddedAtEnd(queue, base, len);
      var k := |queue| - 1;
      promised := promised + if queue[k].skip then [] else base[..len];
      queue := queue[k := WithIov(queue[k], base, len)];
    }

    /** A queued response is to be skipped after all: what has not been sent of it is withdrawn. */
    method Skip(k: nat)
      requires Valid() && k < |queue|
      modifies this`queue, this`promised
      ensures Valid() && queue == old(queue)[k := old(queue)[k].(skip := true)]
      ensures QueueOk(old(queue)[..k]) && QueueOk(old(queue)[k + 1..])
      ensures promised == socket.received + Pending(old(queue)[..k]) + Pending(old(queue)[k + 1..])
    {
      hide BytesFrom, Pending, QueueOk, RespOk;
      SkippedAt(queue, k);
      promised := socket.received + Pending(queue[..k]) + Pending(queue[k + 1..]);
      queue := queue[k := queue[k].(skip := true)];
    }

    /** `transmit`.  `offer` is what was put before the socket: nothing only if nothing is owed, and all that is
        owed unless it ran out of vectors. */
    method Transmit(answer: Answer, eventOk: bool) returns (result: Result, ghost offer: seq<seq<byte>>)
      requires Valid()
      modifies this`queue, socket
      ensures Valid()
      ensures |offer| < IOV_MAX && Flat(offer) <= old(Pending(queue))
      ensures Flat(offer) == old(Pending(queue)) || |offer| + MC_RESP_IOVCOUNT >= IOV_MAX - 1
      ensures offer == [] ==> old(Pending(queue)) == [] && queue == [] && result == Complete
      ensures offer == [] ==> socket.received == old(socket.received)
      ensures offer != [] && answer.Took? ==>
        var k := if answer.n > |Flat(offer)| then |Flat(offer)| else answer.n;
        socket.received == old(socket.received) + old(Pending(queue))[..k] &&
        Pending(queue) == old(Pending(queue))[k..] && (queue == [] <==> Pending(queue) == []) &&
        result == if queue == [] then Complete else Incomplete
      ensures offer != [] && !answer.Took? ==>
        queue == old(queue) && socket.received == old(socket.received) &&
        result == if answer.WouldBlock? && eventOk then SoftError else HardError
    {
      hide RespOk, BytesFrom, Pending, Flat;
      ghost var n;
      var iovs;
      iovs, n := TransmitPre(queue);
      offer := iovs;
      if |iovs| == 0 {
        queue := TransmitPost(queue, 0);
        FlatNone([]);
        return Complete, offer;
      }
      ghost var p := Pending(queue);
      var res := socket.SendMsg(iovs, answer);
      if res >= 0 {
        assert Flat(iovs)[..res] == p[..res];
        queue := TransmitPost(queue, res);
        if queue != [] {
          return Incomplete, offer;
        } else {
          return Complete, offer;
        }
      }
      assert Flat(iovs)[..0] == [];
      if answer.WouldBlock? {
        if !eventOk {
          return HardError, offer;
        }
        return SoftError, offer;
      }
      return HardError, offer;
    }

    /** Over any course of queueing and sending, whatever the socket answers each time: what it has received is
        the beginning of what the responses say, in order, each byte once, and the rest is queued. */
    method Serve(ops: seq<Op>)
      requires Valid() && OpsOk(ops)
      modifies this`queue, this`promised, socket
      ensures Valid()
      ensures socket.received + Pending(queue) == old(socket.received) + old(Pending(queue)) + Owed(ops)
      ensures queue == [] ==> socket.received == old(socket.received) + old(Pending(queue)) + Owed(ops)
    {
      hide RespOk, BytesFrom, Pending, QueueOk;
      ghost var before := promised;
      assert ops[..0] == [];
      for i := 0 to |ops|
        invariant Valid() && promised == before + Owed(ops[..i])
      {
        OwedNext(ops, i);
        match ops[i] {
          case Queue(r) =>
            assert ops[i] in ops;
            Enqueue(r);
          case Send(answer, eventOk) =>
            var result;
            ghost var offer;
            result, offer := Transmit(answer, eventOk);
        }
      }
      assert ops[..|ops|] == ops;
      PendingNone();
    }
  }
}
