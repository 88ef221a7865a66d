/** Opening a page, attaching and shipping a buffer: each keeps the invariant. */
module ExtstorePageSteps {
  import opened Basics
  import opened Extstore
  import opened ExtstoreInv
  import opened ExtstoreFrames

  // Opening a page

  /** The free lists hold every free page but `p`. */
  ghost predicate FreeExcept(pages: seq<Page>, p: nat, freeList: seq<nat>, freeBuckets: seq<seq<nat>>) {
    && NoRepeats(freeList) && (forall q :: q in freeList <==> FreeIn(pages, q, 0) && q != p)
    && (forall b :: 0 <= b < |freeBuckets| ==> FreeBucketExcept(pages, p, b, freeBuckets[b]))
  }

  ghost predicate FreeBucketExcept(pages: seq<Page>, p: nat, b: nat, xs: seq<nat>) {
    NoRepeats(xs) && forall q :: q in xs <==> b != 0 && FreeIn(pages, q, b) && q != p
  }

  lemma PopFreeSpec(s: State, freeBucket: nat)
    requires ListsOk(s.pages, s.freeList, s.freeBuckets, s.buckets, s.pageFree) && freeBucket < |s.freeBuckets|
    ensures var (s', tmp) := PopFree(s, freeBucket);
            tmp.Some? ==>
              && 0 < tmp.value < |s.pages| && s.pages[tmp.value].free && s.pageFree > 0
              && |s'.freeList| + SumLen(s'.freeBuckets) == s.pageFree - 1
              && |s'.freeBuckets| == |s.freeBuckets|
              && FreeExcept(s.pages, tmp.value, s'.freeList, s'.freeBuckets)
  {
    if freeBucket != 0 && s.freeBuckets[freeBucket] != [] {
      PopBucketSpec(s.pages, s.freeList, s.freeBuckets, freeBucket);
      hide FreeExcept, FreeListOk, FreeBucketsOk, BucketsOk;
    } else if s.freeList != [] {
      PopListSpec(s.pages, s.freeList, s.freeBuckets);
      hide FreeExcept, FreeListOk, FreeBucketsOk, BucketsOk;
    }
  }

  lemma PopBucketSpec(pages: seq<Page>, freeList: seq<nat>, freeBuckets: seq<seq<nat>>, fb: nat)
    requires FreeListOk(pages, freeList) && FreeBucketsOk(pages, freeBuckets)
    requires 0 < fb < |freeBuckets| && freeBuckets[fb] != []
    ensures var xs := freeBuckets[fb];
            var xss := freeBuckets[fb := xs[1..]];
            && 0 < xs[0] < |pages| && pages[xs[0]].free
            && SumLen(xss) == SumLen(freeBuckets) - 1 && SumLen(freeBuckets) > 0
            && FreeExcept(pages, xs[0], freeList, xss)
  {
    var xs := freeBuckets[fb];
    assert FreeBucketOk(pages, fb, xs);
    PopSpec(xs);
    assert xs[0] in xs;
    SumLenUpdate(freeBuckets, fb, xs[1..]);
    SumLenUpdate(freeBuckets, fb, []);
    var xss := freeBuckets[fb := xs[1..]];
    forall b | 0 <= b < |xss| ensures FreeBucketExcept(pages, xs[0], b, xss[b]) {
      assert FreeBucketOk(pages, b, freeBuckets[b]);
    }
  }

  lemma PopListSpec(pages: seq<Page>, freeList: seq<nat>, freeBuckets: seq<seq<nat>>)
    requires FreeListOk(pages, freeList) && FreeBucketsOk(pages, freeBuckets) && freeList != []
    ensures 0 < freeList[0] < |pages| && pages[freeList[0]].free
    ensures FreeExcept(pages, freeList[0], freeList[1..], freeBuckets)
  {
    PopSpec(freeList);
    assert freeList[0] in freeList;
    forall b | 0 <= b < |freeBuckets| ensures FreeBucketExcept(pages, freeList[0], b, freeBuckets[b]) {
      assert FreeBucketOk(pages, b, freeBuckets[b]);
    }
  }

  lemma OpenedFreeLists(pages: seq<Page>, p: nat, g: Page, freeList: seq<nat>, freeBuckets: seq<seq<nat>>)
    requires p < |pages| && !g.free && FreeExcept(pages, p, freeList, freeBuckets)
    ensures FreeListOk(pages[p := g], freeList) && FreeBucketsOk(pages[p := g], freeBuckets)
  {
    forall b | 0 <= b < |freeBuckets| ensures FreeBucketOk(pages[p := g], b, freeBuckets[b]) {
      assert FreeBucketExcept(pages, p, b, freeBuckets[b]);
    }
  }

  lemma OpenedBuckets(pages: seq<Page>, p: nat, g: Page, buckets: seq<seq<nat>>)
    requires 0 < p < |pages| && pages[p].free && !g.free && g.bucket < |buckets| && BucketsOk(pages, buckets)
    ensures BucketsOk(pages[p := g], buckets[g.bucket := [p] + buckets[g.bucket]])
  {
    var buckets' := buckets[g.bucket := [p] + buckets[g.bucket]];
    forall b | 0 <= b < |buckets| ensures BucketOk(pages[p := g], b, buckets'[b]) {
      assert BucketOk(pages, b, buckets[b]);
      if b == g.bucket { PushSpec(p, buckets[b]); }
    }
  }

  lemma FreeHead(s: State, freeBucket: nat)
    requires Shape(s) && freeBucket < |s.freeBuckets|
    requires AllPagesOk(s.cfg, s.pages, s.disk, s.wbufs, s.images, s.nextVersion)
    requires ListsOk(s.pages, s.freeList, s.freeBuckets, s.buckets, s.pageFree)
    ensures var tmp := PopFree(s, freeBucket).1;
            tmp.Some? ==> FreshPage(s, tmp.value)
  {
    PopFreeSpec(s, freeBucket);
    var tmp := PopFree(s, freeBucket).1;
    if tmp.Some? {
      assert PageOk(s.cfg, s.pages[tmp.value], s.disk[tmp.value], s.wbufs, s.images, s.nextVersion);
    }
  }

  ghost predicate FreshPage(s: State, p: nat) {
    p < |s.pages| && s.pages[p] == InitialPage(s.pages[p].freeBucket)
    && s.pages[p].freeBucket < s.cfg.bucketCount && s.pageFree > 0
  }

  /** What opening a page does to the state around it. */
  lemma AllocatePageEffect(s: State, bucket: nat, freeBucket: nat, p: nat)
    requires Shape(s) && bucket < |s.buckets| && freeBucket < |s.freeBuckets|
    requires PopFree(s, freeBucket).1 == Some(p) && FreshPage(s, p)
    ensures var (s', tmp) := AllocatePage(s, bucket, freeBucket);
            && tmp == Some(p)
            && s' == s.(pages := s.pages[p := InitialPage(s.pages[p].freeBucket)
                                   .(active := true, free := false, version := s.nextVersion, bucket := bucket)],
                        freeList := s'.freeList, freeBuckets := s'.freeBuckets, buckets := s'.buckets,
                        nextVersion := s.nextVersion + 1, pageFree := s'.pageFree,
                        images := s.images[s.nextVersion := []])
            && Shape(s')
  {
  }

  lemma AllocatePageLocal(s: State, s': State, p: nat)
    requires Shape(s) && Shape(s') && FreshPage(s, p) && s'.cfg == s.cfg
    requires s'.pages == s.pages[p := s'.pages[p]] && s'.disk == s.disk && s'.wbufs == s.wbufs
    requires s'.pages[p].bucket < s.cfg.bucketCount
    requires s'.pages[p] ==
      s.pages[p].(active := true, free := false, version := s.nextVersion, bucket := s'.pages[p].bucket)
    requires s'.nextVersion == s.nextVersion + 1 && s'.images == s.images[s.nextVersion := []]
    requires forall v :: v in s.images ==> 0 < v < s.nextVersion
    ensures Touches(s, s', p)
    ensures PageOk(s'.cfg, s'.pages[p], s'.disk[p], s'.wbufs, s'.images, s'.nextVersion)
    ensures forall v :: v in s'.images ==> 0 < v < s'.nextVersion
  {
  }

  lemma AllocatePageLists(s: State, bucket: nat, freeBucket: nat)
    requires bucket < |s.buckets| && freeBucket < |s.freeBuckets|
    requires ListsOk(s.pages, s.freeList, s.freeBuckets, s.buckets, s.pageFree)
    requires AllocatePage(s, bucket, freeBucket).1.Some?
    ensures var s' := AllocatePage(s, bucket, freeBucket).0;
            ListsOk(s'.pages, s'.freeList, s'.freeBuckets, s'.buckets, s'.pageFree)
  {
    hide FreeExcept, FreeListOk, FreeBucketsOk, BucketsOk;
    var (s', tmp) := AllocatePage(s, bucket, freeBucket);
    var s1 := PopFree(s, freeBucket).0;
    PopFreeSpec(s, freeBucket);
    var p := tmp.value;
    OpenedFreeLists(s.pages, p, s'.pages[p], s1.freeList, s1.freeBuckets);
    OpenedBuckets(s.pages, p, s'.pages[p], s.buckets);
  }

  lemma AllocatePageNone(s: State, bucket: nat, freeBucket: nat)
    requires bucket < |s.buckets| && freeBucket < |s.freeBuckets|
    ensures AllocatePage(s, bucket, freeBucket).1 == PopFree(s, freeBucket).1
    ensures AllocatePage(s, bucket, freeBucket).1.None? ==> AllocatePage(s, bucket, freeBucket).0 == s
  {
  }

  lemma AllocatePageKeeps(s: State, bucket: nat, freeBucket: nat)
    requires Inv(s) && bucket < s.cfg.bucketCount && freeBucket < s.cfg.bucketCount
    ensures var (s', tmp) := AllocatePage(s, bucket, freeBucket);
            Inv(s') && (tmp.Some? ==> tmp.value < |s.pages|)
            && s'.writers == s.writers && s'.cfg == s.cfg && |s'.pages| == |s.pages|
  {
    assert |s.buckets| == |s.freeBuckets| == s.cfg.bucketCount;
    hide AllocatePage, PageOk, Shape, AllPagesOk, VersionsOk, WbufsOk, FlushesOk, IosOk, ListsOk,
      ReadsOk, RefcountsOk, WritersOk, MaintOk, HistoryOk, Touches;
    var (s', tmp) := AllocatePage(s, bucket, freeBucket);
    AllocatePageNone(s, bucket, freeBucket);
    FreeHead(s, freeBucket);
    if tmp.Some? {
      var p := tmp.value;
      AllocatePageEffect(s, bucket, freeBucket, p);
      AllocatePageLocal(s, s', p);
      AllocatePageLists(s, bucket, freeBucket);
      PagesFrame(s, s', p);
      VersionsFrame(s, s', p);
      WbufsFrame(s.pages, p, s'.pages[p], s.wbufStack, s.cfg.wbufCount);
      NoFlushOn(s.cfg, s.flushes, s.pages, s.wbufs, s.disk, p);
      FlushesFrame(s, s', p);
      IosFrame(s, s', p);
      ReadsFrame(s, s', p);
      RefcountsFrame(s.pages, s.readIos, p, s'.pages[p]);
      WritersFrame(s, s', p);
      MaintFrame(s.maint, s.pages, p, s'.pages[p]);
      HistoryFrame(s, s', p);
    }
  }

  // Attaching a buffer

  lemma AttachWbufs(pages: seq<Page>, p: nat, g: Page, stack: seq<nat>, count: nat)
    requires WbufsOk(pages, stack, count) && p < |pages| && pages[p].wbuf.None?
    requires stack != [] && g.wbuf == Some(stack[0])
    ensures WbufsOk(pages[p := g], stack[1..], count)
  {
    PopSpec(stack);
    forall w | 0 <= w < count && w !in stack[1..] ensures Attached(pages[p := g], w) {
      if w == stack[0] {
        assert pages[p := g][p].wbuf == Some(w);
      } else {
        assert Attached(pages, w);
        var q :| 0 <= q < |pages| && pages[q].wbuf == Some(w);
        assert pages[p := g][q].wbuf == Some(w);
      }
    }
  }

  lemma AllocateWbufLocal(s: State, p: nat, w: nat)
    requires Shape(s) && p < |s.pages| && s.wbufStack != [] && w == s.wbufStack[0] && w < |s.wbufs|
    requires PageOk(s.cfg, s.pages[p], s.disk[p], s.wbufs, s.images, s.nextVersion)
    requires s.pages[p].active && s.pages[p].wbuf.None?
    ensures var s' := AllocateWbuf(s, p);
            && s' == s.(pages := s.pages[p := s.pages[p].(claimed := s.pages[p].claimed + s.cfg.wbufSize,
                                                          wbuf := Some(w))],
                        wbufs := s'.wbufs, wbufStack := s.wbufStack[1..])
            && Shape(s') && Touches(s, s', p)
            && PageOk(s'.cfg, s'.pages[p], s'.disk[p], s'.wbufs, s'.images, s'.nextVersion)
            && !s'.wbufs[w].full
  {
    NextBlockFits(s.pages[p].written, s.cfg.pageSize, s.cfg.wbufSize);
  }

  lemma AllocateWbufKeeps(s: State, p: nat)
    requires Inv(s) && p < |s.pages| && s.pages[p].active && s.pages[p].wbuf.None?
    ensures Inv(AllocateWbuf(s, p)) && AllocateWbuf(s, p).writers == s.writers
    ensures |AllocateWbuf(s, p).pages| == |s.pages| && !AllocateWbuf(s, p).pages[p].held
  {
    var s' := AllocateWbuf(s, p);
    assert PageOk(s.cfg, s.pages[p], s.disk[p], s.wbufs, s.images, s.nextVersion);
    if s.wbufStack != [] {
      assert s.wbufStack[0] in s.wbufStack;
      AllocateWbufLocal(s, p, s.wbufStack[0]);
      hide AllocateWbuf, PageOk, Shape, AllPagesOk, VersionsOk, WbufsOk, FlushesOk, IosOk, ListsOk,
        ReadsOk, RefcountsOk, WritersOk, MaintOk, HistoryOk, Touches;
      PagesFrame(s, s', p);
      VersionsFrame(s, s', p);
      AttachWbufs(s.pages, p, s'.pages[p], s.wbufStack, s.cfg.wbufCount);
      NoFlushOn(s.cfg, s.flushes, s.pages, s.wbufs, s.disk, p);
      FlushesFrame(s, s', p);
      IosFrame(s, s', p);
      ListsFrame(s.pages, p, s'.pages[p], s.freeList, s.freeBuckets, s.buckets, s.pageFree);
      ReadsFrame(s, s', p);
      RefcountsFrame(s.pages, s.readIos, p, s'.pages[p]);
      WritersFrame(s, s', p);
      MaintFrame(s.maint, s.pages, p, s'.pages[p]);
      HistoryFrame(s, s', p);
    }
  }

  // Shipping a buffer

  /** Writes in flight carry different buffers, none of them an unshipped one. */
  lemma FlushedBuffers(cfg: Config, flushes: map<nat, Flush>, pages: seq<Page>, wbufs: seq<Wbuf>, disk: seq<seq<byte>>,
                       stack: seq<nat>, w: nat, i: nat, j: nat)
    requires WbufsOk(pages, stack, |wbufs|) && FlushesOk(cfg, flushes, pages, wbufs, disk)
    requires w < |wbufs| && !wbufs[w].full && i in flushes && j in flushes
    ensures flushes[i].wbuf < |wbufs| && flushes[i].wbuf != w
    ensures flushes[i].wbuf == flushes[j].wbuf ==> i == j
  {
    assert FlushOk(cfg, flushes[i], pages, wbufs, disk) && FlushOk(cfg, flushes[j], pages, wbufs, disk);
  }

  /** A page with an unshipped buffer leaves an IO on the stack: there are as many IOs as
      buffers, and every IO in flight carries another, shipped, buffer. */
  lemma IoAvailable(cfg: Config, flushes: map<nat, Flush>, pages: seq<Page>, wbufs: seq<Wbuf>, disk: seq<seq<byte>>,
                    stack: seq<nat>, ioStack: seq<nat>, w: nat)
    requires WbufsOk(pages, stack, |wbufs|) && FlushesOk(cfg, flushes, pages, wbufs, disk)
    requires IosOk(|wbufs|, ioStack, flushes, pages, wbufs)
    requires w < |wbufs| && !wbufs[w].full
    ensures ioStack != []
  {
    hide WbufsOk, FlushesOk, IosOk;
    if ioStack == [] {
      var f := map io | io in flushes :: flushes[io].wbuf;
      forall i | i in f ensures f[i] < |wbufs| && f[i] != w {
        FlushedBuffers(cfg, flushes, pages, wbufs, disk, stack, w, i, i);
      }
      forall i, j | i in f && j in f && f[i] == f[j] ensures i == j {
        FlushedBuffers(cfg, flushes, pages, wbufs, disk, stack, w, i, j);
      }
      AllInFlight(|wbufs|, flushes, pages, wbufs);
      Pigeonhole(f, |wbufs|, w);
      CardBelow(|wbufs|);
      assert f.Keys == flushes.Keys;
      CardMono(Below(|wbufs|), f.Keys);
    }
  }

  lemma AllInFlight(count: nat, flushes: map<nat, Flush>, pages: seq<Page>, wbufs: seq<Wbuf>)
    requires IosOk(count, [], flushes, pages, wbufs)
    ensures Below(count) <= flushes.Keys
  {
    CardBelow(count);
  }

  lemma SubmitWbufLocal(s: State, p: nat)
    requires Shape(s) && p < |s.pages| && HasWbuf(s.pages[p], s.wbufs) && !WbufOf(s.pages[p], s.wbufs).full
    requires PageOk(s.cfg, s.pages[p], s.disk[p], s.wbufs, s.images, s.nextVersion)
    requires s.ioStack != []
    ensures var s' := SubmitWbuf(s, p);
            var g := s.pages[p];
            && s' == s.(wbufs := s'.wbufs, ioStack := s.ioStack[1..], images := s'.images,
                        flushes := s.flushes[s.ioStack[0] := Flush(p, g.wbuf.value, g.written, {})])
            && Shape(s') && Touches(s, s', p)
            && PageOk(s'.cfg, s'.pages[p], s'.disk[p], s'.wbufs, s'.images, s'.nextVersion)
            && HasWbuf(s'.pages[p], s'.wbufs) && WbufOf(s'.pages[p], s'.wbufs).full
            && s'.images.Keys == s.images.Keys
            && FlushOk(s'.cfg, Flush(p, g.wbuf.value, g.written, {}), s'.pages, s'.wbufs, s'.disk)
  {
    var g, b := s.pages[p], WbufOf(s.pages[p], s.wbufs);
    var img := s.images[g.version];
    var buf' := Splice(b.buf, |b.buf| - b.free, Zeros(b.free));
    assert buf' == b.buf[..b.bufPos] + Zeros(b.free);
    assert (img + Zeros(b.free))[..g.written] == img[..g.written];
    assert (img + Zeros(b.free))[g.written..] == img[g.written..] + Zeros(b.free);
  }

  lemma ShipFlushes(s: State, s': State, p: nat, io: nat, f: Flush)
    requires Touches(s, s', p) && WbufsOk(s.pages, s.wbufStack, s.cfg.wbufCount)
    requires FlushesOk(s.cfg, s.flushes, s.pages, s.wbufs, s.disk)
    requires f.page == p && FlushOk(s'.cfg, f, s'.pages, s'.wbufs, s'.disk)
    requires s'.flushes == s.flushes[io := f] && forall i :: i in s.flushes ==> s.flushes[i].page != p
    ensures FlushesOk(s'.cfg, s'.flushes, s'.pages, s'.wbufs, s'.disk)
  {
    forall i | i in s'.flushes ensures FlushOk(s'.cfg, s'.flushes[i], s'.pages, s'.wbufs, s'.disk) {
      if i != io { FlushFrame(s, s', p, s.flushes[i]); }
    }
  }

  lemma ShipIos(s: State, s': State, p: nat, f: Flush)
    requires Touches(s, s', p) && WbufsOk(s.pages, s.wbufStack, s.cfg.wbufCount)
    requires IosOk(s.cfg.wbufCount, s.ioStack, s.flushes, s.pages, s.wbufs)
    requires s.ioStack != [] && f.page == p && s'.pages == s.pages
    requires s'.ioStack == s.ioStack[1..] && s'.flushes == s.flushes[s.ioStack[0] := f]
    ensures IosOk(s'.cfg.wbufCount, s'.ioStack, s'.flushes, s'.pages, s'.wbufs)
  {
    PopSpec(s.ioStack);
    var io := s.ioStack[0];
    assert io in s.ioStack;
    forall q | 0 <= q < |s'.pages| && HasWbuf(s'.pages[q], s'.wbufs) && WbufOf(s'.pages[q], s'.wbufs).full
      ensures InFlight(s'.flushes, q)
    {
      if q == p {
        assert s'.flushes[io].page == p;
      } else {
        assert InFlight(s.flushes, q);
        var i :| i in s.flushes && s.flushes[i].page == q;
        assert i in s'.flushes && s'.flushes[i].page == q;
      }
    }
  }

  lemma SubmitWbufKeeps(s: State, p: nat)
    requires Inv(s) && p < |s.pages| && HasWbuf(s.pages[p], s.wbufs) && !WbufOf(s.pages[p], s.wbufs).full
    requires !s.pages[p].held
    ensures Inv(SubmitWbuf(s, p)) && SubmitWbuf(s, p).writers == s.writers && SubmitWbuf(s, p).pages == s.pages
  {
    var s' := SubmitWbuf(s, p);
    var g := s.pages[p];
    assert PageOk(s.cfg, g, s.disk[p], s.wbufs, s.images, s.nextVersion);
    IoAvailable(s.cfg, s.flushes, s.pages, s.wbufs, s.disk, s.wbufStack, s.ioStack, g.wbuf.value);
    SubmitWbufLocal(s, p);
    hide SubmitWbuf, PageOk, Shape, AllPagesOk, VersionsOk, WbufsOk, FlushesOk, IosOk, ListsOk,
      ReadsOk, RefcountsOk, WritersOk, MaintOk, HistoryOk, Touches;
    var f := Flush(p, g.wbuf.value, g.written, {});
    PagesFrame(s, s', p);
    NoFlushOn(s.cfg, s.flushes, s.pages, s.wbufs, s.disk, p);
    ShipFlushes(s, s', p, s.ioStack[0], f);
    ShipIos(s, s', p, f);
    ReadsFrame(s, s', p);
    WritersFrame(s, s', p);
    HistoryFrame(s, s', p);
  }
}
