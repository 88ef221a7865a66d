/** The invariant of the storage engine. */
module ExtstoreInv {
  import opened Basics
  import opened Division
  import opened Extstore

  function SumLen(xss: seq<seq<nat>>): nat {
    if xss == [] then 0 else |xss[0]| + SumLen(xss[1..])
  }

  ghost predicate Shape(s: State) {
    && s.cfg.Ok()
    && |s.pages| == |s.disk| == s.cfg.pageCount
    && |s.wbufs| == s.cfg.wbufCount
    && |s.buckets| == |s.freeBuckets| == s.cfg.bucketCount
    && (forall p :: 0 <= p < |s.disk| ==> |s.disk[p]| == s.cfg.pageSize)
    && (forall w :: 0 <= w < |s.wbufs| ==> |s.wbufs[w].buf| == s.cfg.wbufSize)
    && 0 < s.nextVersion
    && !s.fault
  }

  /** How much of an attached buffer is page contents: all of it once shipped. */
  function Filled(b: Wbuf): nat {
    if b.full then |b.buf| else b.bufPos
  }

  /** The image of an open page is its flushed prefix on disk, then its buffer. */
  ghost predicate ImageOk(img: seq<byte>, disk: seq<byte>, written: nat) {
    written <= |img| && written <= |disk| && img[..written] == disk[..written]
  }

  ghost predicate BufferOk(img: seq<byte>, b: Wbuf, written: nat, wbufSize: nat) {
    && b.offset == written <= |img|
    && b.free <= wbufSize && b.bufPos == wbufSize - b.free && |b.buf| == wbufSize
    && img[written..] == b.buf[..Filled(b)]
  }

  /** One page: which fields go together in each of its stages, and where its contents are. */
  ghost predicate PageOk(cfg: Config, g: Page, disk: seq<byte>, wbufs: seq<Wbuf>, images: map<nat, seq<byte>>,
      nextVersion: nat)
    requires cfg.Ok()
  {
    && g.written % cfg.wbufSize == 0 && g.written <= cfg.pageSize
    && g.freeBucket < cfg.bucketCount && g.bucket < cfg.bucketCount
    && (g.free ==> g == InitialPage(g.freeBucket))
    && (!g.free ==>
          && 0 < g.version < nextVersion && g.version in images
          && (g.active <==> g.written < cfg.pageSize)
          && ImageOk(images[g.version], disk, g.written))
    && (g.wbuf.None? ==> g.claimed == g.written && !g.held)
    && (g.wbuf.None? && !g.free ==> |images[g.version]| == g.written)
    && (g.wbuf.Some? ==>
          && !g.free && HasWbuf(g, wbufs)
          && g.claimed == g.written + cfg.wbufSize <= cfg.pageSize
          && BufferOk(images[g.version], WbufOf(g, wbufs), g.written, cfg.wbufSize))
  }

  ghost predicate AllPagesOk(cfg: Config, pages: seq<Page>, disk: seq<seq<byte>>, wbufs: seq<Wbuf>,
                             images: map<nat, seq<byte>>, nextVersion: nat)
    requires cfg.Ok() && |pages| == |disk|
  {
    forall p :: 0 <= p < |pages| ==> PageOk(cfg, pages[p], disk[p], wbufs, images, nextVersion)
  }

  /** An open version names one page. */
  ghost predicate VersionsOk(pages: seq<Page>) {
    forall p, q :: 0 <= p < q < |pages| && !pages[p].free && !pages[q].free ==> pages[p].version != pages[q].version
  }

  /** Every buffer is on the stack or attached to exactly one page. */
  ghost predicate WbufsOk(pages: seq<Page>, stack: seq<nat>, count: nat) {
    && NoRepeats(stack)
    && (forall w :: w in stack ==> w < count)
    && (forall p :: 0 <= p < |pages| && pages[p].wbuf.Some? ==> pages[p].wbuf.value !in stack)
    && (forall p, q :: 0 <= p < q < |pages| && pages[p].wbuf.Some? ==> pages[p].wbuf != pages[q].wbuf)
    && (forall w :: 0 <= w < count && w !in stack ==> Attached(pages, w))
  }

  ghost predicate Attached(pages: seq<Page>, w: nat) {
    exists p :: 0 <= p < |pages| && pages[p].wbuf == Some(w)
  }

  /** A write IO carries the shipped buffer of its page, and what has landed of it is on disk. */
  ghost predicate FlushOk(cfg: Config, f: Flush, pages: seq<Page>, wbufs: seq<Wbuf>, disk: seq<seq<byte>>) {
    && f.page < |pages| && f.page < |disk| && f.wbuf < |wbufs|
    && pages[f.page].wbuf == Some(f.wbuf)
    && wbufs[f.wbuf].full
    && f.offset == pages[f.page].written
    && cfg.wbufSize <= |wbufs[f.wbuf].buf|
    && f.offset + cfg.wbufSize <= cfg.pageSize <= |disk[f.page]|
    && (forall i :: i in f.landed ==> i < cfg.wbufSize && disk[f.page][f.offset + i] == wbufs[f.wbuf].buf[i])
  }

  ghost predicate FlushesOk(cfg: Config, flushes: map<nat, Flush>, pages: seq<Page>, wbufs: seq<Wbuf>,
      disk: seq<seq<byte>>) {
    && (forall io :: io in flushes ==> FlushOk(cfg, flushes[io], pages, wbufs, disk))
    && (forall i, j :: i in flushes && j in flushes && i != j ==> flushes[i].page != flushes[j].page)
  }

  /** Every IO is on the stack or in flight, and every shipped buffer is in flight. */
  ghost predicate IosOk(count: nat, stack: seq<nat>, flushes: map<nat, Flush>, pages: seq<Page>, wbufs: seq<Wbuf>) {
    && NoRepeats(stack)
    && (forall io :: io in stack ==> io < count && io !in flushes)
    && (forall io :: io in flushes ==> io < count)
    && (forall io :: 0 <= io < count && io !in stack ==> io in flushes)
    && (forall p :: 0 <= p < |pages| && HasWbuf(pages[p], wbufs) && WbufOf(pages[p], wbufs).full ==>
        InFlight(flushes, p))
  }

  ghost predicate InFlight(flushes: map<nat, Flush>, p: nat) {
    exists io :: io in flushes && flushes[io].page == p
  }

  /** Every page but the first is on exactly one list: the free list of its kind, or the list
      of the bucket it is open in. */
  ghost predicate ListsOk(pages: seq<Page>, freeList: seq<nat>, freeBuckets: seq<seq<nat>>, buckets: seq<seq<nat>>,
      pageFree: nat) {
    && FreeListOk(pages, freeList)
    && FreeBucketsOk(pages, freeBuckets)
    && BucketsOk(pages, buckets)
    && pageFree == |freeList| + SumLen(freeBuckets)
    && (|pages| > 0 ==> pages[0].free)
  }

  ghost predicate FreeIn(pages: seq<Page>, p: nat, fb: nat) {
    0 < p < |pages| && pages[p].free && pages[p].freeBucket == fb
  }

  ghost predicate OpenIn(pages: seq<Page>, p: nat, b: nat) {
    0 < p < |pages| && !pages[p].free && pages[p].bucket == b
  }

  ghost predicate FreeListOk(pages: seq<Page>, xs: seq<nat>) {
    NoRepeats(xs) && forall p :: p in xs <==> FreeIn(pages, p, 0)
  }

  ghost predicate FreeBucketsOk(pages: seq<Page>, xss: seq<seq<nat>>) {
    forall b :: 0 <= b < |xss| ==> FreeBucketOk(pages, b, xss[b])
  }

  ghost predicate FreeBucketOk(pages: seq<Page>, b: nat, xs: seq<nat>) {
    NoRepeats(xs) && forall p :: p in xs <==> b != 0 && FreeIn(pages, p, b)
  }

  ghost predicate BucketsOk(pages: seq<Page>, xss: seq<seq<nat>>) {
    forall b :: 0 <= b < |xss| ==> BucketOk(pages, b, xss[b])
  }

  ghost predicate BucketOk(pages: seq<Page>, b: nat, xs: seq<nat>) {
    NoRepeats(xs) && forall p :: p in xs <==> OpenIn(pages, p, b)
  }

  /** The reads that hold a reference on page `p`. */
  function Readers(readIos: map<nat, Read>, p: nat): set<nat> {
    set r | r in readIos && readIos[r].Reading? && readIos[r].page == p
  }

  /** A read in progress has a prefix of the right bytes; a finished one missed or has them all. */
  ghost predicate ReadOk(cfg: Config, r: Read, pages: seq<Page>, images: map<nat, seq<byte>>) {
    && r.page < |pages|
    && Stored(cfg, images, r.version, r.off, r.len)
    && (r.Reading? ==>
          && !pages[r.page].free && pages[r.page].version == r.version
          && r.off + r.len <= pages[r.page].written
          && |r.got| <= r.len && r.got == images[r.version][r.off..r.off + |r.got|])
    && (r.Done? && r.result.Some? ==> r.result.value == images[r.version][r.off..r.off + r.len])
  }

  ghost predicate ReadsOk(cfg: Config, readIos: map<nat, Read>, pages: seq<Page>, images: map<nat, seq<byte>>) {
    forall r :: r in readIos ==> ReadOk(cfg, readIos[r], pages, images)
  }

  ghost predicate RefcountsOk(pages: seq<Page>, readIos: map<nat, Read>) {
    forall p :: 0 <= p < |pages| ==> pages[p].refcount == |Readers(readIos, p)|
  }

  ghost predicate WriterOk(cfg: Config, w: Writer, pages: seq<Page>, wbufs: seq<Wbuf>) {
    match w
    case Picked(p, bucket, freeBucket, len) => p < |pages| && bucket < cfg.bucketCount && freeBucket < cfg.bucketCount
    case Refilling(bucket, freeBucket) => bucket < cfg.bucketCount && freeBucket < cfg.bucketCount
    case Granted(p, at, len) =>
      p < |pages| && pages[p].held && Fits(pages[p], wbufs, len) && at == WbufOf(pages[p], wbufs).bufPos
  }

  ghost predicate WritersOk(cfg: Config, writers: map<nat, Writer>, pages: seq<Page>, wbufs: seq<Wbuf>) {
    && (forall t :: t in writers ==> WriterOk(cfg, writers[t], pages, wbufs))
    && (forall t, u :: t in writers && u in writers && t != u && writers[t].Granted? && writers[u].Granted?
                       ==> writers[t].page != writers[u].page)
  }

  /** The eviction candidate is still the full page the scan saw, under the same version. */
  ghost predicate MaintOk(maint: Maint, pages: seq<Page>) {
    maint.Scanning? ==>
      && maint.next <= |pages|
      && (maint.low.Some? ==> maint.low.value.page < maint.next && CandidateOk(maint.low.value, pages))
  }

  ghost predicate CandidateOk(low: Low, pages: seq<Page>) {
    low.page < |pages| &&
    var g := pages[low.page];
    !g.free && !g.active && g.version == low.version && g.freeBucket == 0
  }

  /** A stored object lies in the image of its version, and only its page can carry it. */
  ghost predicate ObjectOk(cfg: Config, h: Handle, data: seq<byte>, pages: seq<Page>, images: map<nat, seq<byte>>) {
    && h.version in images
    && h.off + |data| <= |images[h.version]|
    && images[h.version][h.off..h.off + |data|] == data
    && InBlock(cfg, h.off, |data|)
    && (forall p :: 0 <= p < |pages| && pages[p].version == h.version ==> p == h.page)
  }

  ghost predicate HistoryOk(cfg: Config, objects: map<Handle, seq<byte>>, pages: seq<Page>, images: map<nat, seq<byte>>,
      nextVersion: nat) {
    && (forall v :: v in images ==> 0 < v < nextVersion)
    && (forall h :: h in objects ==> ObjectOk(cfg, h, objects[h], pages, images))
  }

  ghost predicate Inv(s: State) {
    && Shape(s)
    && AllPagesOk(s.cfg, s.pages, s.disk, s.wbufs, s.images, s.nextVersion)
    && VersionsOk(s.pages)
    && WbufsOk(s.pages, s.wbufStack, s.cfg.wbufCount)
    && FlushesOk(s.cfg, s.flushes, s.pages, s.wbufs, s.disk)
    && IosOk(s.cfg.wbufCount, s.ioStack, s.flushes, s.pages, s.wbufs)
    && ListsOk(s.pages, s.freeList, s.freeBuckets, s.buckets, s.pageFree)
    && ReadsOk(s.cfg, s.readIos, s.pages, s.images)
    && RefcountsOk(s.pages, s.readIos)
    && WritersOk(s.cfg, s.writers, s.pages, s.wbufs)
    && MaintOk(s.maint, s.pages)
    && HistoryOk(s.cfg, s.objects, s.pages, s.images, s.nextVersion)
  }

  // Arithmetic and sequence facts

  lemma BlockStep(a: nat, b: nat, w: nat)
    requires a * w < b * w
    ensures (a + 1) * w <= b * w
  {
    if a == b {
      assert false;
    } else if b < a {
      BlockUp(b, a, w);
      assert false;
    }
    BlockUp(a, b, w);
  }

  lemma NextBlockFits(n: nat, pageSize: nat, w: nat)
    requires 0 < w && n % w == 0 && pageSize % w == 0 && n < pageSize
    ensures n + w <= pageSize && (n + w) % w == 0
  {
    BlockStep(n / w, pageSize / w, w);
    ModUnique(n / w + 1, 0, w);
    assert (n / w + 1) * w == n + w;
  }

  lemma BlockOffset(n: nat, r: nat, w: nat)
    requires 0 < w && n % w == 0 && r < w
    ensures (n + r) % w == r
  {
    ModUnique(n / w, r, w);
    assert n / w * w == n;
  }

  /** A block-contained range that starts below a block boundary ends below it. */
  lemma RangeBelow(off: nat, len: nat, written: nat, w: nat)
    requires 0 < w && written % w == 0 && off % w + len <= w && off < written
    ensures off + len <= written
  {
    BlockStep(off / w, written / w, w);
  }

  lemma SumLenUpdate(xss: seq<seq<nat>>, b: nat, xs: seq<nat>)
    requires b < |xss|
    ensures SumLen(xss[b := xs]) == SumLen(xss) - |xss[b]| + |xs|
  {
    if b == 0 {
      assert xss[b := xs][1..] == xss[1..];
    } else {
      assert xss[b := xs][1..] == xss[1..][b - 1 := xs];
      SumLenUpdate(xss[1..], b - 1, xs);
    }
  }

  lemma PopSpec(xs: seq<nat>)
    requires NoRepeats(xs) && xs != []
    ensures NoRepeats(xs[1..])
    ensures forall y :: y in xs[1..] <==> y in xs && y != xs[0]
  {
    assert xs == [xs[0]] + xs[1..];
  }

  lemma PushSpec(x: nat, xs: seq<nat>)
    requires NoRepeats(xs) && x !in xs
    ensures NoRepeats([x] + xs)
    ensures forall y :: y in [x] + xs <==> y in xs || y == x
  {
  }

  lemma RemoveFirstSpec(xs: seq<nat>, x: nat)
    requires NoRepeats(xs)
    ensures NoRepeats(RemoveFirst(xs, x))
    ensures forall y :: y in RemoveFirst(xs, x) <==> y in xs && y != x
  {
    if xs != [] {
      RemoveFirstSpec(xs[1..], x);
      assert xs == [xs[0]] + xs[1..];
      if xs[0] != x {
        var r := RemoveFirst(xs[1..], x);
        assert RemoveFirst(xs, x) == [xs[0]] + r;
        assert xs[0] !in xs[1..];
      }
    }
  }

  /** More IOs than buffers other than `b` cannot all be in flight. */
  lemma Pigeonhole(f: map<nat, nat>, n: nat, b: nat)
    requires forall i :: i in f ==> f[i] < n && f[i] != b
    requires forall i, j :: i in f && j in f && f[i] == f[j] ==> i == j
    requires b < n
    ensures |f| < n
  {
    var range := set i | i in f.Keys :: f[i];
    InjectiveCard(f, f.Keys, range);
    CardBelow(n);
    assert range <= Below(n) - {b};
    CardMono(range, Below(n) - {b});
  }

  lemma InjectiveCard(f: map<nat, nat>, dom: set<nat>, range: set<nat>)
    requires dom <= f.Keys && range == set i | i in dom :: f[i]
    requires forall i, j :: i in f && j in f && f[i] == f[j] ==> i == j
    ensures |dom| == |range|
  {
    if dom == {} {
      assert range == {};
    } else {
      var x :| x in dom;
      var range' := set i | i in dom - {x} :: f[i];
      InjectiveCard(f, dom - {x}, range');
      assert range == range' + {f[x]};
    }
  }

  function Below(n: nat): set<nat> {
    if n == 0 then {} else Below(n - 1) + {n - 1}
  }

  lemma CardBelow(n: nat)
    ensures |Below(n)| == n
    ensures forall i: nat :: i in Below(n) <==> i < n
  {
    if n > 0 {
      CardBelow(n - 1);
    }
  }

  lemma CardMono(a: set<nat>, b: set<nat>)
    requires a <= b
    ensures |a| <= |b|
  {
    assert b == a + (b - a);
  }
}
