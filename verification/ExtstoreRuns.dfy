/** Page reclaim, write requests and the maintenance scan: each keeps the invariant, and so does every event. */
module ExtstoreRuns {
  import opened Basics
  import opened Extstore
  import opened ExtstoreInv
  import opened ExtstoreFrames
  import opened ExtstorePageSteps
  import opened ExtstoreIoSteps

  // Giving a page back

  lemma FreedFreeLists(pages: seq<Page>, p: nat, freeList: seq<nat>, freeBuckets: seq<seq<nat>>)
    requires 0 < p < |pages| && !pages[p].free && pages[p].freeBucket < |freeBuckets|
    requires FreeListOk(pages, freeList) && FreeBucketsOk(pages, freeBuckets)
    ensures var fb := pages[p].freeBucket;
            var pages' := pages[p := InitialPage(fb)];
            if fb != 0 then
              FreeListOk(pages', freeList) && FreeBucketsOk(pages', freeBuckets[fb := [p] + freeBuckets[fb]])
            else
              FreeListOk(pages', [p] + freeList) && FreeBucketsOk(pages', freeBuckets)
  {
    var fb := pages[p].freeBucket;
    var pages' := pages[p := InitialPage(fb)];
    assert forall q, b :: FreeIn(pages', q, b) <==> FreeIn(pages, q, b) || (q == p && b == fb);
    if fb == 0 { PushSpec(p, freeList); }
    var freeBuckets' := if fb != 0 then freeBuckets[fb := [p] + freeBuckets[fb]] else freeBuckets;
    forall b | 0 <= b < |freeBuckets| ensures FreeBucketOk(pages', b, freeBuckets'[b]) {
      assert FreeBucketOk(pages, b, freeBuckets[b]);
      if b == fb != 0 { PushSpec(p, freeBuckets[b]); }
    }
  }

  lemma FreedBuckets(pages: seq<Page>, p: nat, g: Page, buckets: seq<seq<nat>>)
    requires 0 < p < |pages| && !pages[p].free && g.free && pages[p].bucket < |buckets| && BucketsOk(pages, buckets)
    ensures var b := pages[p].bucket;
            BucketsOk(pages[p := g], buckets[b := RemoveFirst(buckets[b], p)])
  {
    var b0 := pages[p].bucket;
    var buckets' := buckets[b0 := RemoveFirst(buckets[b0], p)];
    forall b | 0 <= b < |buckets| ensures BucketOk(pages[p := g], b, buckets'[b]) {
      assert BucketOk(pages, b, buckets[b]);
      if b == b0 { RemoveFirstSpec(buckets[b], p); }
    }
  }

  /** A page ready to be given back: full, not being read, flushed. */
  ghost predicate Idle(g: Page) {
    !g.free && !g.active && g.refcount == 0 && g.wbuf.None? && !g.held
  }

  lemma IdleFact(s: State, p: nat)
    requires Inv(s) && p < |s.pages| && !s.pages[p].free && !s.pages[p].active && s.pages[p].refcount == 0
    ensures Idle(s.pages[p]) && p > 0 && s.pages[p].bucket < |s.buckets| && s.pages[p].freeBucket < |s.freeBuckets|
  {
    assert PageOk(s.cfg, s.pages[p], s.disk[p], s.wbufs, s.images, s.nextVersion);
  }

  lemma FreePageEffect(s: State, p: nat)
    requires Shape(s) && p < |s.pages| && Idle(s.pages[p])
    requires s.pages[p].bucket < |s.buckets| && s.pages[p].freeBucket < |s.freeBuckets|
    ensures var s' := FreePage(s, p);
            && s' == s.(pages := s.pages[p := InitialPage(s.pages[p].freeBucket)], objectsUsed := s'.objectsUsed,
                        bytesUsed := s'.bytesUsed, buckets := s'.buckets, freeList := s'.freeList,
                        freeBuckets := s'.freeBuckets, pageFree := s.pageFree + 1)
            && s'.buckets == s.buckets[s.pages[p].bucket := RemoveFirst(s.buckets[s.pages[p].bucket], p)]
            && Shape(s')
  {
  }

  lemma FreedFields(s: State, p: nat)
    requires p < |s.pages| && Idle(s.pages[p])
    requires s.pages[p].bucket < |s.buckets| && s.pages[p].freeBucket < |s.freeBuckets|
    ensures var s', fb, b := FreePage(s, p), s.pages[p].freeBucket, s.pages[p].bucket;
            && s'.pages == s.pages[p := InitialPage(fb)] && s'.pageFree == s.pageFree + 1
            && s'.buckets == s.buckets[b := RemoveFirst(s.buckets[b], p)]
            && s'.freeList == (if fb != 0 then s.freeList else [p] + s.freeList)
            && s'.freeBuckets == if fb != 0 then s.freeBuckets[fb := [p] + s.freeBuckets[fb]] else s.freeBuckets
  {
    var s1 := LeaveBucket(s, p);
    LeftFields(s, p);
    assert FreePage(s, p) == BackToFree(s1, p);
    hide LeaveBucket, FreePage, RemoveFirst;
    BackFields(s1, p);
  }

  lemma LeftFields(s: State, p: nat)
    requires p < |s.pages| && s.pages[p].bucket < |s.buckets|
    ensures var s', b := LeaveBucket(s, p), s.pages[p].bucket;
            && s'.buckets == s.buckets[b := RemoveFirst(s.buckets[b], p)]
            && s'.freeList == s.freeList && s'.pageFree == s.pageFree
  {
    hide RemoveFirst;
  }

  lemma BackFields(s: State, p: nat)
    requires p < |s.pages| && Idle(s.pages[p]) && s.pages[p].freeBucket < |s.freeBuckets|
    ensures var s', fb := BackToFree(s, p), s.pages[p].freeBucket;
            && s'.pages == s.pages[p := InitialPage(fb)] && s'.pageFree == s.pageFree + 1 && s'.buckets == s.buckets
            && s'.freeList == (if fb != 0 then s.freeList else [p] + s.freeList)
            && s'.freeBuckets == if fb != 0 then s.freeBuckets[fb := [p] + s.freeBuckets[fb]] else s.freeBuckets
  {
    var fb, s' := s.pages[p].freeBucket, BackToFree(s, p);
    if fb != 0 {
      assert s' == s.(pages := s.pages[p := InitialPage(fb)], pageFree := s.pageFree + 1,
                      freeBuckets := s.freeBuckets[fb := [p] + s.freeBuckets[fb]]);
    } else {
      assert s' == s.(pages := s.pages[p := InitialPage(fb)], pageFree := s.pageFree + 1, freeList := [p] + s.freeList);
    }
  }

  lemma FreePageLists(s: State, p: nat)
    requires 0 < p < |s.pages| && Idle(s.pages[p])
    requires s.pages[p].bucket < |s.buckets| && s.pages[p].freeBucket < |s.freeBuckets|
    requires ListsOk(s.pages, s.freeList, s.freeBuckets, s.buckets, s.pageFree)
    ensures var s' := FreePage(s, p);
            ListsOk(s'.pages, s'.freeList, s'.freeBuckets, s'.buckets, s'.pageFree)
  {
    hide FreeListOk, FreeBucketsOk, BucketsOk, FreePage;
    var fb := s.pages[p].freeBucket;
    FreedFields(s, p);
    FreedFreeLists(s.pages, p, s.freeList, s.freeBuckets);
    FreedBuckets(s.pages, p, InitialPage(fb), s.buckets);
    SumLenUpdate(s.freeBuckets, fb, [p] + s.freeBuckets[fb]);
  }

  lemma FreePageLocal(s: State, s': State, p: nat)
    requires Shape(s) && p < |s.pages| && s.pages[p].freeBucket < s.cfg.bucketCount
    requires s'.cfg == s.cfg && s'.pages == s.pages[p := InitialPage(s.pages[p].freeBucket)] && s'.disk == s.disk
    requires s'.wbufs == s.wbufs && s'.images == s.images && s'.nextVersion == s.nextVersion
    ensures Touches(s, s', p) && PageOk(s'.cfg, s'.pages[p], s'.disk[p], s'.wbufs, s'.images, s'.nextVersion)
  {
    assert s.disk == s.disk[p := s.disk[p]];
  }

  /** Reclaim keeps the invariant, for a maintenance thread that no longer needs the page. */
  lemma FreePageKeeps(s: State, p: nat)
    requires Inv(s)
    requires p < |s.pages| && !s.pages[p].free && !s.pages[p].active && s.pages[p].refcount == 0
    requires s.maint.Scanning? && s.maint.low.Some? ==> s.maint.low.value.page != p
    ensures Inv(FreePage(s, p))
  {
    var s' := FreePage(s, p);
    IdleFact(s, p);
    FreePageEffect(s, p);
    FreePageLocal(s, s', p);
    hide FreePage, PageOk, Shape, AllPagesOk, VersionsOk, WbufsOk, FlushesOk, IosOk, ListsOk,
      ReadsOk, RefcountsOk, WritersOk, HistoryOk, Touches;
    FreePageLists(s, p);
    var g := s'.pages[p];
    PagesFrame(s, s', p);
    VersionsFrame(s, s', p);
    WbufsFrame(s.pages, p, g, s.wbufStack, s.cfg.wbufCount);
    NoFlushOn(s.cfg, s.flushes, s.pages, s.wbufs, s.disk, p);
    FlushesFrame(s, s', p);
    IosFrame(s, s', p);
    ReadsFrame(s, s', p);
    RefcountsFrame(s.pages, s.readIos, p, g);
    WritersFrame(s, s', p);
    HistoryFrame(s, s', p);
  }

  // The maintenance thread

  lemma MaintOnly(s: State, m: Maint)
    requires Inv(s) && MaintOk(m, s.pages)
    ensures Inv(s.(maint := m))
  {
  }

  lemma MaintFact(s: State)
    requires Inv(s)
    ensures MaintOk(s.maint, s.pages)
  {
  }

  /** Does the visit free the page it looks at? */
  predicate Frees(s: State)
    requires s.maint.Scanning? && s.maint.next < |s.pages|
  {
    var g := s.pages[s.maint.next];
    !g.active && !g.free && (g.objCount == 0 || g.closed) && g.refcount == 0
  }

  /** What the maintenance thread remembers after the visit. */
  function Seen(s: State): Maint
    requires s.maint.Scanning? && s.maint.next < |s.pages|
  {
    var Scanning(i, evict, low) := s.maint;
    var g := s.pages[i];
    if Frees(s) then Scanning(i + 1, false, low)
    else if !g.active && !g.free && g.objCount > 0 && !g.closed && g.freeBucket == 0 &&
            (low.None? || g.version < low.value.version)
    then Scanning(i + 1, evict, Some(Low(i, g.version)))
    else Scanning(i + 1, evict, low)
  }

  lemma VisitIs(s: State)
    requires s.maint.Scanning? && s.maint.next < |s.pages|
    ensures ApplyMaintVisit(s) ==
      if Frees(s) then FreePage(s.(maint := Seen(s)), s.maint.next) else s.(maint := Seen(s))
  {
    hide FreePage;
  }

  lemma SeenOk(s: State)
    requires Inv(s) && s.maint.Scanning? && s.maint.next < |s.pages|
    ensures MaintOk(Seen(s), s.pages)
    ensures Frees(s) && s.maint.low.Some? ==> s.maint.low.value.page != s.maint.next
  {
    hide Inv;
    MaintFact(s);
  }

  lemma MaintVisitKeeps(s: State)
    requires Inv(s) && s.maint.Scanning? && Unlocked(s, s.maint.next)
    ensures Inv(ApplyMaintVisit(s))
  {
    hide Inv, FreePage, MaintOk, ApplyMaintVisit;
    var i := s.maint.next;
    var m := Seen(s);
    SeenOk(s);
    MaintOnly(s, m);
    VisitIs(s);
    if Frees(s) { FreePageKeeps(s.(maint := m), i); }
  }

  lemma MaintEvictKeeps(s: State)
    requires Inv(s) && Enabled(s, MaintEvict)
    ensures Inv(ApplyMaintEvict(s))
  {
    if s.maint.evict && s.maint.low.Some? && !s.pages[s.maint.low.value.page].closed {
      var p := s.maint.low.value.page;
      var s1 := SetPage(s, p, s.pages[p].(closed := true)).(maint := Asleep);
      BookkeepingKeeps(s, p, s1.pages[p]);
      assert Inv(s1);
      if s.pages[p].refcount == 0 { FreePageKeeps(s1, p); }
    } else {
      MaintOnly(s, Asleep);
    }
  }

  // Writers

  lemma WritersSet(cfg: Config, writers: map<nat, Writer>, pages: seq<Page>, wbufs: seq<Wbuf>, t: nat, w: Writer)
    requires WritersOk(cfg, writers, pages, wbufs) && !w.Granted? && WriterOk(cfg, w, pages, wbufs)
    ensures WritersOk(cfg, writers[t := w], pages, wbufs)
  {
  }

  lemma WritersDrop(cfg: Config, writers: map<nat, Writer>, pages: seq<Page>, wbufs: seq<Wbuf>, t: nat)
    requires WritersOk(cfg, writers, pages, wbufs)
    ensures WritersOk(cfg, writers - {t}, pages, wbufs)
  {
  }

  lemma WritersGrant(cfg: Config, writers: map<nat, Writer>, pages: seq<Page>, wbufs: seq<Wbuf>, t: nat, p: nat,
      len: nat)
    requires WritersOk(cfg, writers, pages, wbufs) && p < |pages| && !pages[p].held && Fits(pages[p], wbufs, len)
    ensures WritersOk(cfg, writers[t := Granted(p, WbufOf(pages[p], wbufs).bufPos, len)],
      pages[p := pages[p].(held := true)], wbufs)
  {
    NoGrantOn(cfg, writers, pages, wbufs, p);
    var w := Granted(p, WbufOf(pages[p], wbufs).bufPos, len);
    var pages' := pages[p := pages[p].(held := true)];
    var writers' := writers[t := w];
    forall u | u in writers' ensures WriterOk(cfg, writers'[u], pages', wbufs) {
      if u != t { assert WriterOk(cfg, writers[u], pages, wbufs); }
    }
  }

  lemma PickKeeps(s: State, t: nat, bucket: nat, freeBucket: nat, len: nat)
    requires Inv(s) && freeBucket < s.cfg.bucketCount
    ensures Inv(ApplyPick(s, t, bucket, freeBucket, len))
  {
    hide AllPagesOk, VersionsOk, WbufsOk, FlushesOk, IosOk, FreeListOk, FreeBucketsOk, ReadsOk, RefcountsOk,
      WritersOk, MaintOk, HistoryOk, AllocatePage;
    if bucket < |s.buckets| {
      if s.buckets[bucket] != [] {
        var p := s.buckets[bucket][0];
        assert BucketOk(s.pages, bucket, s.buckets[bucket]);
        assert p in s.buckets[bucket];
        WritersSet(s.cfg, s.writers, s.pages, s.wbufs, t, Picked(p, bucket, freeBucket, len));
      } else {
        AllocatePageKeeps(s, bucket, freeBucket);
        var (s1, tmp) := AllocatePage(s, bucket, freeBucket);
        if tmp.Some? {
          WritersSet(s1.cfg, s1.writers, s1.pages, s1.wbufs, t, Picked(tmp.value, bucket, freeBucket, len));
        }
      }
    }
  }

  lemma RefillKeeps(s: State, t: nat)
    requires Inv(s) && t in s.writers && s.writers[t].Refilling?
    ensures Inv(Apply(s, Refill(t)))
  {
    var w := s.writers[t];
    assert WriterOk(s.cfg, w, s.pages, s.wbufs);
    hide AllPagesOk, VersionsOk, WbufsOk, FlushesOk, IosOk, ListsOk, ReadsOk, RefcountsOk,
      WritersOk, MaintOk, HistoryOk, AllocatePage;
    AllocatePageKeeps(s, w.bucket, w.freeBucket);
    var s1 := AllocatePage(s, w.bucket, w.freeBucket).0;
    WritersDrop(s1.cfg, s1.writers, s1.pages, s1.wbufs, t);
  }

  lemma MakeRoomKeeps(s: State, p: nat, len: nat)
    requires Inv(s) && p < |s.pages| && s.pages[p].active && !s.pages[p].held
    ensures var s' := MakeRoom(s, p, len);
            Inv(s') && s'.writers == s.writers && |s'.pages| == |s.pages| && !s'.pages[p].held
            && s'.cfg == s.cfg
  {
    PageShape(s, p);
    hide Inv, SubmitWbuf, AllocateWbuf;
    var g := s.pages[p];
    if HasWbuf(g, s.wbufs) && WbufOf(g, s.wbufs).free < len && !WbufOf(g, s.wbufs).full {
      SubmitWbufKeeps(s, p);
      SubmitWbufCfg(s, p);
    } else if g.wbuf.None? && g.claimed < s.cfg.pageSize {
      AllocateWbufKeeps(s, p);
      SubmitWbufCfg(s, p);
    }
  }

  lemma PageShape(s: State, p: nat)
    requires Inv(s) && p < |s.pages|
    ensures s.pages[p].wbuf.Some? ==> HasWbuf(s.pages[p], s.wbufs)
  {
    assert PageOk(s.cfg, s.pages[p], s.disk[p], s.wbufs, s.images, s.nextVersion);
  }

  lemma SubmitWbufCfg(s: State, p: nat)
    requires p < |s.pages|
    ensures s.pages[p].wbuf.Some? ==> SubmitWbuf(s, p).cfg == s.cfg
    ensures AllocateWbuf(s, p).cfg == s.cfg
  {
  }

  lemma GrantKeeps(s: State, t: nat, p: nat, len: nat)
    requires Inv(s) && p < |s.pages| && !s.pages[p].held && Fits(s.pages[p], s.wbufs, len)
    ensures Inv(SetPage(s, p, s.pages[p].(held := true))
                  .(writers := s.writers[t := Granted(p, WbufOf(s.pages[p], s.wbufs).bufPos, len)]))
  {
    var g := s.pages[p].(held := true);
    assert PageOk(s.cfg, s.pages[p], s.disk[p], s.wbufs, s.images, s.nextVersion);
    hide AllPagesOk, VersionsOk, WbufsOk, FlushesOk, IosOk, ListsOk, ReadsOk, RefcountsOk,
      WritersOk, MaintOk, HistoryOk, PageOk;
    BookkeepingKeeps(s, p, g);
    WritersGrant(s.cfg, s.writers, s.pages, s.wbufs, t, p, len);
  }

  lemma CheckKeeps(s: State, t: nat)
    requires Inv(s) && t in s.writers && s.writers[t].Picked? && Unlocked(s, s.writers[t].page)
    ensures Inv(ApplyCheck(s, t))
  {
    hide AllPagesOk, VersionsOk, WbufsOk, FlushesOk, IosOk, ListsOk, ReadsOk, RefcountsOk,
      MaintOk, HistoryOk, PageOk, MakeRoom;
    var Picked(p, bucket, freeBucket, len) := s.writers[t];
    assert WriterOk(s.cfg, s.writers[t], s.pages, s.wbufs);
    if OutOfRoom(s.pages[p], s.wbufs, s.cfg.pageSize) {
      WritersSet(s.cfg, s.writers, s.pages, s.wbufs, t, Refilling(bucket, freeBucket));
    } else {
      MakeRoomKeeps(s, p, len);
      var s1 := MakeRoom(s, p, len);
      if Fits(s1.pages[p], s1.wbufs, len) {
        GrantKeeps(s1, t, p, len);
      } else {
        WritersDrop(s1.cfg, s1.writers, s1.pages, s1.wbufs, t);
      }
    }
  }

  /** Every event keeps the invariant. */
  lemma StepKeeps(s: State, ev: Event)
    requires Inv(s) && Enabled(s, ev)
    ensures Inv(Apply(s, ev))
  {
    hide Inv, ApplyPick, ApplyCheck, ApplyCommit, ApplyPwrite, ApplyFlushed, ApplyStartRead, ApplyPread,
      ApplyFinishRead, ApplyDelete, ApplyClose, ApplyMaintVisit, ApplyMaintEvict, AllocatePage;
    match ev
    case Pick(t, bucket, freeBucket, len) => BucketCount(s); PickKeeps(s, t, bucket, freeBucket, len);
    case Check(t) => CheckKeeps(s, t);
    case Refill(t) => RefillKeeps(s, t);
    case Commit(t, data) => CommitKeeps(s, t, data);
    case PwriteSome(io, at, k) => PwriteKeeps(s, io, at, k);
    case Flushed(io) => FlushedKeeps(s, io);
    case SubmitRead(r, page, version, off, len) => SubmitReadKeeps(s, r, page, version, off, len);
    case StartRead(r) => StartReadKeeps(s, r);
    case PreadSome(r, k) => PreadKeeps(s, r, k);
    case FinishRead(r) => FinishReadKeeps(s, r);
    case Delete(page, version, count, bytes) => DeleteKeeps(s, page, version, count, bytes);
    case Close(page, version) => CloseKeeps(s, page, version);
    case MaintWake => MaintOnly(s, Scanning(0, s.pageFree == 0 || s.freeList == [], None));
    case MaintVisit => MaintVisitKeeps(s);
    case MaintEvict => MaintEvictKeeps(s);
  }

  lemma BucketCount(s: State)
    requires Inv(s)
    ensures |s.buckets| == |s.freeBuckets| == s.cfg.bucketCount
  {
  }
}
