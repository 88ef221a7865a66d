/** The bip buffer: a byte ring kept as two contiguous regions, A = [aStart, aEnd) and
    B = [0, bEnd), so that producers and consumers always see unbroken memory.

    The queue it stands for is region A followed by region B.  Consumers look at region A
    outside the lock (`PeekAll`), work on the bytes, and only then drop them (`Poll`). */
module BipBuffer {
  import opened Basics

  /** The cursors alone.  `AfterPush` and `AfterPoll` are total, as in the source: nothing
      stops a caller from polling more than region A holds. */
  datatype Cursors = Cursors(size: nat, aStart: nat, aEnd: nat, bEnd: nat, bInuse: bool) {

    /** The region discipline every well-behaved run keeps. */
    predicate Ok() {
      && aStart <= aEnd <= size
      && (aStart == aEnd ==> aStart == 0)
      && (bInuse ==> bEnd <= aStart < aEnd)
      && (!bInuse ==> bEnd == 0 && aStart <= size - aEnd)
    }

    function Unused(): int {
      if bInuse then aStart - bEnd else size - aEnd
    }

    function Used(): int {
      (aEnd - aStart) + bEnd
    }

    function CheckForSwitchToB(): Cursors {
      if size - aEnd < aStart - bEnd then this.(bInuse := true) else this
    }

    function AfterPush(n: nat): Cursors {
      if Unused() < n then this
      else if bInuse then this.(bEnd := bEnd + n).CheckForSwitchToB()
      else this.(aEnd := aEnd + n).CheckForSwitchToB()
    }

    function AfterPoll(n: nat): Cursors {
      if aStart == aEnd || size < aStart + n then this
      else
        var c := this.(aStart := aStart + n);
        var c' :=
          if c.aStart != c.aEnd then c
          else if c.bInuse then c.(aStart := 0, aEnd := c.bEnd, bEnd := 0, bInuse := false)
          else c.(aStart := 0, aEnd := 0);
        c'.CheckForSwitchToB()
    }
  }

  /** A successful poll keeps the regions well formed exactly when it takes no more than
      region A holds.  The header promises a null result for any other poll. */
  lemma PollKeepsOkIff(c: Cursors, n: nat)
    requires c.Ok() && c.aStart < c.aEnd && c.aStart + n <= c.size
    ensures c.AfterPoll(n).Ok() <==> n <= c.aEnd - c.aStart
  {
  }

  /** The promise fails: one byte is queued, two are polled, and the cursors cross. */
  lemma PollPastEndBreaksRegions()
    ensures var c := Cursors(4, 0, 1, 0, false);
            c.Ok() && c.Used() == 1 && c.AfterPoll(2) != c && !c.AfterPoll(2).Ok()
  {
  }

  /** Room granted by a successful request is not lost: after pushing k of n granted bytes,
      n - k bytes still fit, even when the push moves the writer to region B. */
  lemma RequestSurvivesPush(c: Cursors, n: nat, k: nat)
    requires c.Ok() && n <= c.Unused() && k <= n
    ensures c.AfterPush(k).Ok()
    ensures n - k <= c.AfterPush(k).Unused()
  {
  }

  /** The same over any number of pushes out of one grant. */
  ghost function PushAll(c: Cursors, ks: seq<nat>): Cursors
    decreases ks
  {
    if ks == [] then c else PushAll(c.AfterPush(ks[0]), ks[1..])
  }

  lemma {:induction false} RequestSurvivesPushes(c: Cursors, n: nat, ks: seq<nat>)
    requires c.Ok() && n <= c.Unused() && Sum(ks) <= n
    ensures PushAll(c, ks).Ok()
    ensures n - Sum(ks) <= PushAll(c, ks).Unused()
    ensures PushAll(c, ks).Used() == c.Used() + Sum(ks)
    decreases ks
  {
    if ks != [] {
      RequestSurvivesPush(c, n, ks[0]);
      RequestSurvivesPushes(c.AfterPush(ks[0]), n - ks[0], ks[1..]);
    }
  }

  /** Where the writer stands, and the bytes the cursors mark. */
  function WriteAt(c: Cursors): nat {
    if c.bInuse then c.bEnd else c.aEnd
  }

  ghost function Queue(c: Cursors, data: seq<byte>): seq<byte>
    requires c.Ok() && |data| == c.size
  {
    data[c.aStart..c.aEnd] + data[..c.bEnd]
  }

  /** Writing into unused room does not touch the queue. */
  lemma OutsideQueue(c: Cursors, was: seq<byte>, now: seq<byte>, n: nat)
    requires c.Ok() && |was| == |now| == c.size && n <= c.Unused()
    requires now[..WriteAt(c)] == was[..WriteAt(c)]
    requires now[WriteAt(c) + n..] == was[WriteAt(c) + n..]
    ensures now[c.aStart..c.aEnd] == was[c.aStart..c.aEnd] && Queue(c, now) == Queue(c, was)
  {
    var at := WriteAt(c);
    if c.bInuse {
      Within(now, was, at + n, c.aStart, c.aEnd);
    } else {
      assert now[c.aStart..at] == now[..at][c.aStart..] && was[c.aStart..at] == was[..at][c.aStart..];
    }
  }

  lemma Within(a: seq<byte>, b: seq<byte>, k: nat, i: nat, j: nat)
    requires |a| == |b| && k <= i <= j <= |a| && a[k..] == b[k..]
    ensures a[i..j] == b[i..j]
  {
    forall x | i <= x < j
      ensures a[x] == b[x]
    {
      assert a[k..][x - k] == b[k..][x - k];
    }
  }

  /** Bytes published where the writer stands join the end of the queue. */
  lemma PushAppends(c: Cursors, data: seq<byte>, n: nat)
    requires c.Ok() && |data| == c.size && n <= c.Unused()
    ensures c.AfterPush(n).Ok() && WriteAt(c) + n <= c.size
    ensures Queue(c.AfterPush(n), data) == Queue(c, data) + data[WriteAt(c)..WriteAt(c) + n]
  {
    RequestSurvivesPush(c, n, n);
    if c.bInuse { PushToB(c, data, n); } else { PushToA(c, data, n); }
    hide Queue;
  }

  lemma PushToA(c: Cursors, data: seq<byte>, n: nat)
    requires c.Ok() && |data| == c.size && n <= c.Unused() && !c.bInuse
    ensures c.AfterPush(n).Ok()
    ensures Queue(c.AfterPush(n), data) == Queue(c, data) + data[c.aEnd..c.aEnd + n]
  {
    assert data[c.aStart..c.aEnd + n] == data[c.aStart..c.aEnd] + data[c.aEnd..c.aEnd + n];
  }

  lemma PushToB(c: Cursors, data: seq<byte>, n: nat)
    requires c.Ok() && |data| == c.size && n <= c.Unused() && c.bInuse
    ensures c.AfterPush(n).Ok()
    ensures Queue(c.AfterPush(n), data) == Queue(c, data) + data[c.bEnd..c.bEnd + n]
  {
    assert data[..c.bEnd + n] == data[..c.bEnd] + data[c.bEnd..c.bEnd + n];
  }

  class Buffer {
    const size: nat
    var aStart: nat
    var aEnd: nat
    var bEnd: nat
    var bInuse: bool
    const data: array<byte>

    ghost function Cur(): Cursors
      reads this
    {
      Cursors(size, aStart, aEnd, bEnd, bInuse)
    }

    ghost predicate Valid()
      reads this
    {
      Cur().Ok() && data.Length == size
    }

    /** The queued bytes, oldest first. */
    ghost function Contents(): seq<byte>
      reads this, data
      requires Valid()
    {
      Queue(Cur(), data[..])
    }

    constructor (size: nat)
      ensures Valid() && Contents() == [] && this.size == size && fresh(data)
    {
      this.size := size;
      aStart, aEnd, bEnd, bInuse := 0, 0, 0, false;
      data := new byte[size](_ => 0);
    }

    method Unused() returns (n: int)
      ensures n == Cur().Unused()
    {
      if bInuse {
        n := aStart - bEnd;
      } else {
        n := size - aEnd;
      }
    }

    method Used() returns (n: int)
      requires Valid()
      ensures n == |Contents()|
    {
      n := (aEnd - aStart) + bEnd;
    }

    method IsEmpty() returns (e: bool)
      requires Valid()
      ensures e <==> Contents() == []
    {
      e := aStart == aEnd;
    }

    /** Where the next `n` bytes may be written, or nothing when they do not fit. */
    method Request(n: nat) returns (at: int)
      requires Valid()
      ensures at < 0 <==> Cur().Unused() < n
      ensures at >= 0 ==> at + n <= size && at == WriteAt(Cur())
    {
      var room := Unused();
      if room < n { return -1; }
      if bInuse { return bEnd; } else { return aEnd; }
    }

    /** Publishes `n` bytes the caller has already written at the requested place. */
    method Push(n: nat) returns (pushed: nat)
      requires Valid()
      modifies this
      ensures Valid() && Cur() == old(Cur().AfterPush(n))
      ensures pushed == if old(Cur().Unused()) < n then 0 else n
      ensures pushed == 0 ==> Contents() == old(Contents())
      ensures pushed == n ==>
        var at := old(WriteAt(Cur()));
        at + n <= size && Contents() == old(Contents()) + data[at..at + n]
    {
      hide Queue;
      if n <= Cur().Unused() { PushAppends(Cur(), data[..], n); }
      var room := Unused();
      if room < n { return 0; }
      if bInuse {
        bEnd := bEnd + n;
      } else {
        aEnd := aEnd + n;
      }
      CheckForSwitchToB();
      pushed := n;
    }

    method CheckForSwitchToB()
      modifies this`bInuse
      ensures Cur() == old(Cur().CheckForSwitchToB())
    {
      if size - aEnd < aStart - bEnd {
        bInuse := true;
      }
    }

    /** Copies and publishes; all or nothing.  The region a consumer may be reading is not
        written: only its upper end can move. */
    method Offer(bytes: seq<byte>) returns (n: nat)
      requires Valid()
      modifies this, data
      ensures Valid() && Cur() == old(Cur().AfterPush(|bytes|))
      ensures n == if old(Cur().Unused()) < |bytes| then 0 else |bytes|
      ensures Contents() == old(Contents()) + if n == |bytes| then bytes else []
      ensures aStart == old(aStart) && old(aEnd) <= aEnd
      ensures data[aStart..old(aEnd)] == old(data[aStart..aEnd])
    {
      hide Queue;
      var room := Unused();
      if room < |bytes| { return 0; }
      var at := if bInuse then bEnd else aEnd;
      CopyIn(bytes, at);
      OutsideQueue(Cur(), old(data[..]), data[..], |bytes|);
      PushAppends(Cur(), data[..], |bytes|);
      if bInuse {
        bEnd := bEnd + |bytes|;
      } else {
        aEnd := aEnd + |bytes|;
      }
      CheckForSwitchToB();
      n := |bytes|;
    }

    method CopyIn(bytes: seq<byte>, at: nat)
      requires at + |bytes| <= data.Length
      modifies data
      ensures data[at..at + |bytes|] == bytes
      ensures data[..at] == old(data[..at]) && data[at + |bytes|..] == old(data[at + |bytes|..])
    {
      for i := 0 to |bytes|
        invariant data[at..at + i] == bytes[..i]
        invariant data[..at] == old(data[..at])
        invariant data[at + i..] == old(data[at + i..])
      {
        data[at + i] := bytes[i];
      }
    }

    /** All of region A, without moving a cursor. */
    method PeekAll() returns (at: int, n: nat)
      requires Valid()
      ensures at < 0 <==> Contents() == []
      ensures at < 0 ==> n == 0
      ensures at >= 0 ==> at == aStart && at + n == aEnd && 0 < n
      ensures at >= 0 ==> data[at..at + n] == Contents()[..n]
    {
      if aStart == aEnd { return -1, 0; }
      return aStart, aEnd - aStart;
    }

    /** A view of `n` bytes.  The guard is the end of the buffer, so the view is queued data
        exactly when it stays inside region A. */
    method Peek(n: nat) returns (at: int)
      requires Valid()
      ensures at < 0 <==> size < aStart + n || Contents() == []
      ensures at >= 0 ==> at == aStart && at + n <= size
      ensures at >= 0 && n <= aEnd - aStart ==> data[at..at + n] == Contents()[..n]
    {
      if size < aStart + n { return -1; }
      if aStart == aEnd { return -1; }
      return aStart;
    }

    /** Drops `n` bytes from the front.  The guard looks at the end of the buffer, not at the
        end of region A, so only a caller that stays inside region A gets the FIFO promise. */
    method Poll(n: nat) returns (at: int)
      requires Valid()
      modifies this
      ensures Cur() == old(Cur().AfterPoll(n))
      ensures at < 0 <==> old(aStart == aEnd || size < aStart + n)
      ensures at >= 0 ==> at == old(aStart)
      ensures Valid() <==> at < 0 || n <= old(aEnd - aStart)
      ensures 0 < n <= old(aEnd - aStart) ==> at >= 0
      ensures n < old(aEnd - aStart) ==> aStart == old(aStart) + n && aEnd == old(aEnd)
      ensures n <= old(aEnd - aStart) ==> Contents() == old(Contents())[n..]
    {
      if aStart == aEnd { return -1; }
      if size < aStart + n { return -1; }
      at := aStart;
      aStart := aStart + n;
      if aStart == aEnd {
        if bInuse {
          aStart, aEnd := 0, bEnd;
          bEnd, bInuse := 0, false;
        } else {
          aStart, aEnd := 0, 0;
        }
      }
      CheckForSwitchToB();
    }
  }

  /** One step of a run with several producers and one consumer. `Give` offers a copy; `Fill`
      asks for `n` bytes of room, writes at the granted place and pushes; `Take(k)` polls k bytes out
      of the last peeked window, reading them from memory only then. */
  datatype Op = Give(bytes: seq<byte>) | Fill(n: nat, bytes: seq<byte>) | Look | Take(k: nat)

  /** The in-place producer: request, write, push.  A granted request never fails to push. */
  method Fill(b: Buffer, n: nat, bytes: seq<byte>) returns (ok: bool)
    requires b.Valid() && |bytes| <= n
    modifies b, b.data
    ensures b.Valid() && ok == (n <= old(b.Cur().Unused()))
    ensures b.Contents() == old(b.Contents()) + if ok then bytes else []
    ensures b.aStart == old(b.aStart) && old(b.aEnd) <= b.aEnd
    ensures b.data[b.aStart..old(b.aEnd)] == old(b.data[b.aStart..b.aEnd])
  {
    hide Queue;
    var at := b.Request(n);
    if at < 0 { return false; }
    b.CopyIn(bytes, at);
    OutsideQueue(b.Cur(), old(b.data[..]), b.data[..], |bytes|);
    var k := b.Push(|bytes|);
    ok := true;
  }

  /** Reads k bytes of the peeked window from memory, then drops them. */
  method Take(b: Buffer, at: nat, k: nat) returns (bytes: seq<byte>)
    requires b.Valid() && at == b.aStart && 0 < k && at + k <= b.aEnd
    modifies b
    ensures b.Valid() && |bytes| == k && old(b.Contents()) == bytes + b.Contents()
    ensures k < old(b.aEnd) - at ==> b.aStart == at + k && b.aEnd == old(b.aEnd)
  {
    bytes := b.data[at..at + k];
    assert b.Contents()[..k] == bytes;
    var _ := b.Poll(k);
  }

  /** One step of a run.  `at` and `left` are the part of the peeked window not yet taken; a
      take beyond the window is not attempted. */
  method Step(b: Buffer, op: Op, at: nat, left: nat)
    returns (gave: seq<byte>, took: seq<byte>, at': nat, left': nat)
    requires b.Valid()
    requires left > 0 ==> at == b.aStart && at + left <= b.aEnd
    modifies b, b.data
    ensures b.Valid() && old(b.Contents()) + gave == took + b.Contents()
    ensures left' > 0 ==> at' == b.aStart && at' + left' <= b.aEnd
    ensures gave == [] || (op.Give? && gave == op.bytes) || (op.Fill? && gave == op.bytes)
    ensures op.Take? && op.k <= left ==> |took| == op.k
  {
    gave, took, at', left' := [], [], at, left;
    match op {
      case Give(bytes) =>
        var n := b.Offer(bytes);
        if n == |bytes| { gave := bytes; }
      case Fill(n, bytes) =>
        if |bytes| <= n {
          var ok := Fill(b, n, bytes);
          if ok { gave := bytes; }
        }
      case Look =>
        var p, n := b.PeekAll();
        if p >= 0 { at', left' := p, n; } else { left' := 0; }
      case Take(k) =>
        if 0 < k <= left {
          took := Take(b, at, k);
          at', left' := at + k, left - k;
        }
    }
  }

  /** Any interleaving is a FIFO queue: what was accepted is what was taken followed by what
      is still queued, and every byte taken was read from the window found by the last look,
      however many pushes came in between. */
  method Replay(b: Buffer, ops: seq<Op>) returns (accepted: seq<byte>, taken: seq<byte>)
    requires b.Valid() && b.Contents() == []
    modifies b, b.data
    ensures b.Valid()
    ensures accepted == taken + b.Contents()
  {
    accepted, taken := [], [];
    var at: nat, left: nat := 0, 0;
    for i := 0 to |ops|
      invariant b.Valid()
      invariant accepted == taken + b.Contents()
      invariant left > 0 ==> at == b.aStart && at + left <= b.aEnd
    {
      ghost var before := b.Contents();
      var gave, took;
      gave, took, at, left := Step(b, ops[i], at, left);
      assert accepted + gave == taken + (before + gave);
      accepted, taken := accepted + gave, taken + took;
    }
  }
}
