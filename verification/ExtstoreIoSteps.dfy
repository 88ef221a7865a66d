/** Storing an object, the disk, reads, deletes and closes: each keeps the invariant. */
module ExtstoreIoSteps {
  import opened Basics
  import opened Extstore
  import opened ExtstoreInv
  import opened ExtstoreFrames

  // Changes of counters and flags of an open page

  ghost predicate Bookkeeping(g: Page, g': Page) {
    && g' == g.(closed := g'.closed, objCount := g'.objCount, bytesUsed := g'.bytesUsed,
                refcount := g'.refcount, held := g'.held)
    && !g.free && (g'.held ==> g.wbuf.Some?)
  }

  lemma BookkeepingKeeps(s: State, p: nat, g: Page)
    requires Inv(s) && p < |s.pages| && Bookkeeping(s.pages[p], g)
    ensures var pages' := s.pages[p := g];
            && AllPagesOk(s.cfg, pages', s.disk, s.wbufs, s.images, s.nextVersion)
            && VersionsOk(pages')
            && WbufsOk(pages', s.wbufStack, s.cfg.wbufCount)
            && FlushesOk(s.cfg, s.flushes, pages', s.wbufs, s.disk)
            && IosOk(s.cfg.wbufCount, s.ioStack, s.flushes, pages', s.wbufs)
            && ListsOk(pages', s.freeList, s.freeBuckets, s.buckets, s.pageFree)
            && MaintOk(s.maint, pages')
            && HistoryOk(s.cfg, s.objects, pages', s.images, s.nextVersion)
            && ReadsOk(s.cfg, s.readIos, pages', s.images)
            && (g.refcount == s.pages[p].refcount ==> RefcountsOk(pages', s.readIos))
            && (!s.pages[p].held ==> WritersOk(s.cfg, s.writers, pages', s.wbufs))
  {
    var s' := s.(pages := s.pages[p := g]);
    assert PageOk(s.cfg, s.pages[p], s.disk[p], s.wbufs, s.images, s.nextVersion);
    BookkeepingLocal(s, p, g);
    hide PageOk, Shape, AllPagesOk, VersionsOk, WbufsOk, FlushesOk, IosOk, ListsOk,
      ReadsOk, RefcountsOk, WritersOk, MaintOk, HistoryOk, Touches;
    PagesFrame(s, s', p);
    VersionsFrame(s, s', p);
    WbufsFrame(s.pages, p, g, s.wbufStack, s.cfg.wbufCount);
    FlushesBookkeeping(s.cfg, s.flushes, s.pages, s.wbufs, s.disk, p, g);
    IosFrame(s, s', p);
    ListsFrame(s.pages, p, g, s.freeList, s.freeBuckets, s.buckets, s.pageFree);
    ReadsFrame(s, s', p);
    if g.refcount == s.pages[p].refcount { RefcountsFrame(s.pages, s.readIos, p, g); }
    if !s.pages[p].held { WritersFrame(s, s', p); }
    MaintFrame(s.maint, s.pages, p, g);
    HistoryFrame(s, s', p);
  }

  lemma BookkeepingLocal(s: State, p: nat, g: Page)
    requires Shape(s) && p < |s.pages| && Bookkeeping(s.pages[p], g)
    requires PageOk(s.cfg, s.pages[p], s.disk[p], s.wbufs, s.images, s.nextVersion)
    ensures var s' := s.(pages := s.pages[p := g]);
            && Shape(s') && Touches(s, s', p)
            && PageOk(s'.cfg, s'.pages[p], s'.disk[p], s'.wbufs, s'.images, s'.nextVersion)
  {
    assert s.disk == s.disk[p := s.disk[p]];
  }

  lemma DeleteKeeps(s: State, p: nat, version: nat, count: nat, bytes: nat)
    requires Inv(s) && Unlocked(s, p) && version > 0
    ensures Inv(ApplyDelete(s, p, version, count, bytes))
  {
    assert PageOk(s.cfg, s.pages[p], s.disk[p], s.wbufs, s.images, s.nextVersion);
    var s' := ApplyDelete(s, p, version, count, bytes);
    if s' != s {
      BookkeepingKeeps(s, p, s'.pages[p]);
    }
  }

  lemma CloseKeeps(s: State, p: nat, version: nat)
    requires Inv(s) && Unlocked(s, p) && version > 0
    ensures Inv(ApplyClose(s, p, version))
  {
    assert PageOk(s.cfg, s.pages[p], s.disk[p], s.wbufs, s.images, s.nextVersion);
    var s' := ApplyClose(s, p, version);
    if s' != s {
      BookkeepingKeeps(s, p, s'.pages[p]);
    }
  }

  // Storing an object in the granted place

  /** The granted place lies in one buffer-sized block, behind all that was written before. */
  lemma CommitBlock(s: State, t: nat)
    requires Shape(s) && t in s.writers && s.writers[t].Granted?
    requires WriterOk(s.cfg, s.writers[t], s.pages, s.wbufs)
    requires PageOk(s.cfg, s.pages[s.writers[t].page], s.disk[s.writers[t].page], s.wbufs, s.images, s.nextVersion)
    ensures InBlock(s.cfg, |s.images[s.pages[s.writers[t].page].version]|, s.writers[t].len)
  {
    var p := s.writers[t].page;
    var g, b := s.pages[p], WbufOf(s.pages[p], s.wbufs);
    var img := s.images[g.version];
    assert |img| == g.written + b.bufPos by {
      assert img == img[..g.written] + img[g.written..];
    }
    if b.bufPos < s.cfg.wbufSize {
      BlockOffset(g.written, b.bufPos, s.cfg.wbufSize);
    } else {
      NextBlockFits(g.written, s.cfg.pageSize, s.cfg.wbufSize);
    }
  }

  lemma CommitLocal(s: State, t: nat, data: seq<byte>)
    requires Shape(s) && t in s.writers && s.writers[t].Granted? && |data| == s.writers[t].len
    requires WriterOk(s.cfg, s.writers[t], s.pages, s.wbufs)
    requires PageOk(s.cfg, s.pages[s.writers[t].page], s.disk[s.writers[t].page], s.wbufs, s.images, s.nextVersion)
    ensures var s' := ApplyCommit(s, t, data);
            var p := s.writers[t].page;
            var g := s.pages[p];
            var img := s.images[g.version];
            && s' == s.(pages := s'.pages, wbufs := s'.wbufs, bytesUsed := s'.bytesUsed, objectsUsed := s'.objectsUsed,
                        writers := s.writers - {t}, images := s.images[g.version := img + data],
                        objects := s.objects[Handle(p, g.version, |img|) := data])
            && s'.pages == s.pages[p := g.(bytesUsed := g.bytesUsed + |data|,
                                           objCount := g.objCount + 1, held := false)]
            && Shape(s') && Touches(s, s', p)
            && PageOk(s'.cfg, s'.pages[p], s'.disk[p], s'.wbufs, s'.images, s'.nextVersion)
            && HasWbuf(g, s.wbufs) && !WbufOf(g, s.wbufs).full
            && HasWbuf(s'.pages[p], s'.wbufs) && !WbufOf(s'.pages[p], s'.wbufs).full
            && InBlock(s.cfg, |img|, |data|)
  {
    var p := s.writers[t].page;
    var g, b := s.pages[p], WbufOf(s.pages[p], s.wbufs);
    var img := s.images[g.version];
    assert |img| == g.written + b.bufPos by {
      assert img == img[..g.written] + img[g.written..];
    }
    assert Splice(b.buf, b.bufPos, data)[..b.bufPos + |data|] == b.buf[..b.bufPos] + data;
    assert (img + data)[..g.written] == img[..g.written];
    assert (img + data)[g.written..] == img[g.written..] + data;
    assert s.disk == s.disk[p := s.disk[p]];
    CommitBlock(s, t);
    hide InBlock;
  }

  /** The writer that held the page lets go of it. */
  lemma WritersRelease(s: State, s': State, p: nat, t: nat)
    requires Touches(s, s', p) && WbufsOk(s.pages, s.wbufStack, s.cfg.wbufCount)
    requires WritersOk(s.cfg, s.writers, s.pages, s.wbufs)
    requires t in s.writers && s.writers[t].Granted? && s.writers[t].page == p && s'.writers == s.writers - {t}
    ensures WritersOk(s'.cfg, s'.writers, s'.pages, s'.wbufs)
  {
    forall u | u in s'.writers ensures WriterOk(s'.cfg, s'.writers[u], s'.pages, s'.wbufs) {
      assert WriterOk(s.cfg, s.writers[u], s.pages, s.wbufs);
    }
  }

  lemma OwnVersion(s: State, p: nat)
    requires Shape(s) && AllPagesOk(s.cfg, s.pages, s.disk, s.wbufs, s.images, s.nextVersion) && VersionsOk(s.pages)
    requires p < |s.pages| && !s.pages[p].free
    ensures forall q :: 0 <= q < |s.pages| && s.pages[q].version == s.pages[p].version ==> q == p
  {
    VersionBound(s);
    forall q | 0 <= q < |s.pages| && s.pages[q].version == s.pages[p].version ensures q == p {
      assert PageOk(s.cfg, s.pages[q], s.disk[q], s.wbufs, s.images, s.nextVersion);
    }
  }

  /** Old objects stay; the new one is the tail of the image. */
  lemma HistoryCommit(s: State, s': State, p: nat, data: seq<byte>)
    requires Touches(s, s', p) && s'.pages[p].version == s.pages[p].version && s'.pages[p].free == s.pages[p].free
    requires HistoryOk(s.cfg, s.objects, s.pages, s.images, s.nextVersion) && s'.nextVersion == s.nextVersion
    requires forall q :: 0 <= q < |s.pages| && s.pages[q].version == s.pages[p].version ==> q == p
    requires s.pages[p].version in s.images
    requires var v := s.pages[p].version;
             && s'.images == s.images[v := s.images[v] + data]
             && s'.objects == s.objects[Handle(p, v, |s.images[v]|) := data]
             && InBlock(s.cfg, |s.images[v]|, |data|)
    ensures HistoryOk(s'.cfg, s'.objects, s'.pages, s'.images, s'.nextVersion)
  {
    var v := s.pages[p].version;
    forall h | h in s'.objects ensures ObjectOk(s'.cfg, h, s'.objects[h], s'.pages, s'.images) {
      if h == Handle(p, v, |s.images[v]|) {
        assert s'.images[v][|s.images[v]|..|s.images[v]| + |data|] == data;
      } else {
        assert ObjectOk(s.cfg, h, s.objects[h], s.pages, s.images);
        ObjectFrame(s.cfg, h, s.objects[h], s.pages, p, s'.pages[p], s.images, s'.images, v, s.nextVersion);
      }
    }
  }

  lemma CommitKeeps(s: State, t: nat, data: seq<byte>)
    requires Inv(s) && Enabled(s, Commit(t, data))
    ensures Inv(ApplyCommit(s, t, data))
  {
    var s' := ApplyCommit(s, t, data);
    var p := s.writers[t].page;
    assert WriterOk(s.cfg, s.writers[t], s.pages, s.wbufs);
    assert PageOk(s.cfg, s.pages[p], s.disk[p], s.wbufs, s.images, s.nextVersion);
    CommitLocal(s, t, data);
    hide ApplyCommit, PageOk, Shape, AllPagesOk, VersionsOk, WbufsOk, FlushesOk, IosOk, ListsOk,
      ReadsOk, RefcountsOk, WritersOk, MaintOk, HistoryOk, Touches;
    PagesFrame(s, s', p);
    VersionsFrame(s, s', p);
    WbufsFrame(s.pages, p, s'.pages[p], s.wbufStack, s.cfg.wbufCount);
    NoFlushOn(s.cfg, s.flushes, s.pages, s.wbufs, s.disk, p);
    FlushesFrame(s, s', p);
    IosFrame(s, s', p);
    ListsFrame(s.pages, p, s'.pages[p], s.freeList, s.freeBuckets, s.buckets, s.pageFree);
    ReadsFrame(s, s', p);
    RefcountsFrame(s.pages, s.readIos, p, s'.pages[p]);
    WritersRelease(s, s', p, t);
    MaintFrame(s.maint, s.pages, p, s'.pages[p]);
    OwnVersion(s, p);
    HistoryCommit(s, s', p, data);
  }

  // The disk

  /** Where the bytes land, and what they leave alone. */
  lemma Lands(d: seq<byte>, buf: seq<byte>, offset: nat, at: nat, k: nat)
    requires at + k <= |buf| && offset + |buf| <= |d|
    ensures var d' := Splice(d, offset + at, buf[at..at + k]);
      |d'| == |d| && d'[..offset] == d[..offset] &&
      forall i :: 0 <= i < |buf| ==> d'[offset + i] == if at <= i < at + k then buf[i] else d[offset + i]
  {
  }

  lemma PwriteLocal(s: State, io: nat, at: nat, k: nat)
    requires Shape(s) && io in s.flushes && at + k <= s.cfg.wbufSize
    requires FlushOk(s.cfg, s.flushes[io], s.pages, s.wbufs, s.disk)
    requires PageOk(s.cfg, s.pages[s.flushes[io].page], s.disk[s.flushes[io].page], s.wbufs, s.images, s.nextVersion)
    ensures var s' := ApplyPwrite(s, io, at, k);
            var f := s.flushes[io];
            && s' == s.(disk := s'.disk, flushes := s.flushes[io := f.(landed := f.landed + Range(at, k))])
            && Shape(s') && Touches(s, s', f.page)
            && PageOk(s'.cfg, s'.pages[f.page], s'.disk[f.page], s'.wbufs, s'.images, s'.nextVersion)
            && FlushOk(s'.cfg, s'.flushes[io], s'.pages, s'.wbufs, s'.disk)
  {
    hide ApplyPwrite, FlushOk, PageOk;
    PwriteEffect(s, io, at, k);
    var f := s.flushes[io];
    var s' := ApplyPwrite(s, io, at, k);
    assert s.pages == s.pages[f.page := s.pages[f.page]];
    PwritePage(s.cfg, s.pages[f.page], s.disk[f.page], s'.disk[f.page], s.wbufs, s.images, s.nextVersion);
  }

  /** Only bytes of the page from the flushed buffer's place on are written, and as they are in the buffer. */
  lemma PwriteEffect(s: State, io: nat, at: nat, k: nat)
    requires Shape(s) && io in s.flushes && at + k <= s.cfg.wbufSize
    requires FlushOk(s.cfg, s.flushes[io], s.pages, s.wbufs, s.disk)
    ensures var s' := ApplyPwrite(s, io, at, k);
            var f := s.flushes[io];
            && f.page < |s.disk| && f.page < |s.pages| && f.offset == s.pages[f.page].written <= |s.disk[f.page]|
            && s' == s.(disk := s'.disk, flushes := s.flushes[io := f.(landed := f.landed + Range(at, k))])
            && |s'.disk| == |s.disk| && s'.disk == s.disk[f.page := s'.disk[f.page]]
            && |s'.disk[f.page]| == |s.disk[f.page]| && s'.disk[f.page][..f.offset] == s.disk[f.page][..f.offset]
            && FlushOk(s'.cfg, s'.flushes[io], s'.pages, s'.wbufs, s'.disk)
  {
    hide Splice;
    var f := s.flushes[io];
    Lands(s.disk[f.page], s.wbufs[f.wbuf].buf, f.offset, at, k);
  }

  lemma PwritePage(cfg: Config, g: Page, d: seq<byte>, d': seq<byte>, wbufs: seq<Wbuf>, images: map<nat, seq<byte>>,
      nextVersion: nat)
    requires cfg.Ok() && PageOk(cfg, g, d, wbufs, images, nextVersion)
    requires g.written <= |d| == |d'| && d'[..g.written] == d[..g.written]
    ensures PageOk(cfg, g, d', wbufs, images, nextVersion)
  {
    forall i | 0 <= i < g.written ensures d'[i] == d[i] {
      assert d'[i] == d'[..g.written][i];
    }
  }

  lemma PwriteIos(count: nat, stack: seq<nat>, flushes: map<nat, Flush>, pages: seq<Page>, wbufs: seq<Wbuf>, io: nat,
      f: Flush)
    requires IosOk(count, stack, flushes, pages, wbufs) && io in flushes && f.page == flushes[io].page
    ensures IosOk(count, stack, flushes[io := f], pages, wbufs)
  {
    forall p | 0 <= p < |pages| && HasWbuf(pages[p], wbufs) && WbufOf(pages[p], wbufs).full
      ensures InFlight(flushes[io := f], p)
    {
      assert InFlight(flushes, p);
      var i :| i in flushes && flushes[i].page == p;
      assert i in flushes[io := f] && flushes[io := f][i].page == p;
    }
  }

  lemma PwriteFlushes(s: State, s': State, p: nat, io: nat)
    requires Touches(s, s', p) && WbufsOk(s.pages, s.wbufStack, s.cfg.wbufCount)
    requires FlushesOk(s.cfg, s.flushes, s.pages, s.wbufs, s.disk)
    requires io in s.flushes && s.flushes[io].page == p && io in s'.flushes && s'.flushes[io].page == p
    requires s'.flushes == s.flushes[io := s'.flushes[io]] &&
      FlushOk(s'.cfg, s'.flushes[io], s'.pages, s'.wbufs, s'.disk)
    ensures FlushesOk(s'.cfg, s'.flushes, s'.pages, s'.wbufs, s'.disk)
  {
    forall i | i in s'.flushes ensures FlushOk(s'.cfg, s'.flushes[i], s'.pages, s'.wbufs, s'.disk) {
      if i != io { FlushFrame(s, s', p, s.flushes[i]); }
    }
  }

  lemma PwriteKeeps(s: State, io: nat, at: nat, k: nat)
    requires Inv(s) && Enabled(s, PwriteSome(io, at, k))
    ensures Inv(ApplyPwrite(s, io, at, k))
  {
    hide ApplyPwrite, PageOk, FlushOk, Shape, AllPagesOk, VersionsOk, WbufsOk, FlushesOk, IosOk, ListsOk,
      ReadsOk, RefcountsOk, WritersOk, MaintOk, HistoryOk, Touches;
    var s' := ApplyPwrite(s, io, at, k);
    var p := s.flushes[io].page;
    FlushFact(s, io);
    PwriteLocal(s, io, at, k);
    PagesFrame(s, s', p);
    PwriteFlushes(s, s', p, io);
    PwriteIos(s.cfg.wbufCount, s.ioStack, s.flushes, s.pages, s.wbufs, io, s'.flushes[io]);
  }

  // The flush callback

  lemma FlushedLocal(s: State, io: nat)
    requires Shape(s) && io in s.flushes && AllLanded(s.flushes[io], s.cfg.wbufSize)
    requires FlushOk(s.cfg, s.flushes[io], s.pages, s.wbufs, s.disk)
    requires PageOk(s.cfg, s.pages[s.flushes[io].page], s.disk[s.flushes[io].page], s.wbufs, s.images, s.nextVersion)
    requires !s.pages[s.flushes[io].page].held
    ensures var s' := ApplyFlushed(s, io);
            var f := s.flushes[io];
            var g := s.pages[f.page];
            && s' == s.(pages := s.pages[f.page := s'.pages[f.page]], wbufStack := [f.wbuf] + s.wbufStack,
                        ioStack := [io] + s.ioStack, flushes := s.flushes - {io})
            && s'.pages[f.page] == g.(written := g.written + s.cfg.wbufSize, wbuf := None,
                                      active := s'.pages[f.page].active)
            && (s'.pages[f.page].active ==> g.active)
            && Shape(s') && Touches(s, s', f.page)
            && PageOk(s'.cfg, s'.pages[f.page], s'.disk[f.page], s'.wbufs, s'.images, s'.nextVersion)
  {
    var f := s.flushes[io];
    var g, b := s.pages[f.page], s.wbufs[f.wbuf];
    var img, d := s.images[g.version], s.disk[f.page];
    var n := g.written + s.cfg.wbufSize;
    NextBlockFits(g.written, s.cfg.pageSize, s.cfg.wbufSize);
    assert img == img[..g.written] + img[g.written..];
    assert d[..n] == d[..g.written] + d[g.written..n];
    assert d[g.written..n] == b.buf;
    assert s.disk == s.disk[f.page := s.disk[f.page]];
  }

  lemma FlushFact(s: State, io: nat)
    requires Shape(s) && AllPagesOk(s.cfg, s.pages, s.disk, s.wbufs, s.images, s.nextVersion)
    requires FlushesOk(s.cfg, s.flushes, s.pages, s.wbufs, s.disk) && io in s.flushes
    ensures var f := s.flushes[io];
            && FlushOk(s.cfg, f, s.pages, s.wbufs, s.disk)
            && f.page < |s.pages| && f.wbuf < s.cfg.wbufCount && s.pages[f.page].wbuf == Some(f.wbuf)
            && s.cfg.Ok() && f.page < |s.disk|
            && PageOk(s.cfg, s.pages[f.page], s.disk[f.page], s.wbufs, s.images, s.nextVersion)
  {
    var f := s.flushes[io];
    assert FlushOk(s.cfg, f, s.pages, s.wbufs, s.disk);
    assert PageOk(s.cfg, s.pages[f.page], s.disk[f.page], s.wbufs, s.images, s.nextVersion);
  }

  lemma DetachWbufs(pages: seq<Page>, p: nat, g: Page, stack: seq<nat>, count: nat, w: nat)
    requires WbufsOk(pages, stack, count) && p < |pages| && pages[p].wbuf == Some(w) && w < count && g.wbuf.None?
    ensures WbufsOk(pages[p := g], [w] + stack, count)
  {
    PushSpec(w, stack);
    forall v | 0 <= v < count && v !in [w] + stack ensures Attached(pages[p := g], v) {
      assert Attached(pages, v);
      var q :| 0 <= q < |pages| && pages[q].wbuf == Some(v);
      assert pages[p := g][q].wbuf == Some(v);
    }
  }

  lemma LandFlushes(s: State, s': State, p: nat, io: nat)
    requires Touches(s, s', p) && WbufsOk(s.pages, s.wbufStack, s.cfg.wbufCount)
    requires FlushesOk(s.cfg, s.flushes, s.pages, s.wbufs, s.disk)
    requires io in s.flushes && s.flushes[io].page == p && s'.flushes == s.flushes - {io}
    ensures FlushesOk(s'.cfg, s'.flushes, s'.pages, s'.wbufs, s'.disk)
  {
    forall i | i in s'.flushes ensures FlushOk(s'.cfg, s'.flushes[i], s'.pages, s'.wbufs, s'.disk) {
      FlushFrame(s, s', p, s.flushes[i]);
    }
  }

  lemma LandIos(count: nat, stack: seq<nat>, flushes: map<nat, Flush>, pages: seq<Page>, wbufs: seq<Wbuf>, p: nat,
      g: Page, io: nat)
    requires IosOk(count, stack, flushes, pages, wbufs) && io in flushes && flushes[io].page == p && p < |pages| &&
      g.wbuf.None?
    ensures IosOk(count, [io] + stack, flushes - {io}, pages[p := g], wbufs)
  {
    PushSpec(io, stack);
    var pages', flushes' := pages[p := g], flushes - {io};
    forall q | 0 <= q < |pages'| && HasWbuf(pages'[q], wbufs) && WbufOf(pages'[q], wbufs).full
      ensures InFlight(flushes', q)
    {
      assert InFlight(flushes, q);
      var i :| i in flushes && flushes[i].page == q;
      assert i in flushes' && flushes'[i].page == q;
    }
  }

  lemma FlushedKeeps(s: State, io: nat)
    requires Inv(s) && Enabled(s, Flushed(io))
    ensures Inv(ApplyFlushed(s, io))
  {
    hide ApplyFlushed, PageOk, FlushOk, Shape, AllPagesOk, VersionsOk, WbufsOk, FlushesOk, IosOk, ListsOk,
      ReadsOk, RefcountsOk, WritersOk, MaintOk, HistoryOk, Touches;
    var s' := ApplyFlushed(s, io);
    var f := s.flushes[io];
    var p := f.page;
    FlushFact(s, io);
    FlushedLocal(s, io);
    var g := s'.pages[p];
    PagesFrame(s, s', p);
    VersionsFrame(s, s', p);
    DetachWbufs(s.pages, p, g, s.wbufStack, s.cfg.wbufCount, f.wbuf);
    LandFlushes(s, s', p, io);
    LandIos(s.cfg.wbufCount, s.ioStack, s.flushes, s.pages, s.wbufs, p, g, io);
    ListsFrame(s.pages, p, g, s.freeList, s.freeBuckets, s.buckets, s.pageFree);
    ReadsFrame(s, s', p);
    RefcountsFrame(s.pages, s.readIos, p, g);
    WritersFrame(s, s', p);
    MaintFrame(s.maint, s.pages, p, g);
    HistoryFrame(s, s', p);
  }

  // Reads

  lemma ReadersUpdate(readIos: map<nat, Read>, r: nat, x: Read, p: nat)
    ensures Readers(readIos[r := x], p) ==
            (if x.Reading? && x.page == p then Readers(readIos, p) + {r} else Readers(readIos, p) - {r})
  {
  }

  /** Changing a read that holds no reference before or after. */
  lemma RefcountsQuiet(pages: seq<Page>, readIos: map<nat, Read>, r: nat, x: Read)
    requires RefcountsOk(pages, readIos) && (r in readIos ==> !readIos[r].Reading?) && !x.Reading?
    ensures RefcountsOk(pages, readIos[r := x])
  {
    forall p | 0 <= p < |pages| ensures pages[p].refcount == |Readers(readIos[r := x], p)| {
      ReadersUpdate(readIos, r, x, p);
      assert Readers(readIos, p) - {r} == Readers(readIos, p);
    }
  }

  lemma RefcountsTake(pages: seq<Page>, readIos: map<nat, Read>, r: nat, x: Read, g: Page)
    requires RefcountsOk(pages, readIos) && (r in readIos ==> !readIos[r].Reading?) && x.Reading? && x.page < |pages|
    requires g.refcount == pages[x.page].refcount + 1
    ensures RefcountsOk(pages[x.page := g], readIos[r := x])
  {
    var pages' := pages[x.page := g];
    forall p | 0 <= p < |pages'| ensures pages'[p].refcount == |Readers(readIos[r := x], p)| {
      ReadersUpdate(readIos, r, x, p);
      assert Readers(readIos, p) - {r} == Readers(readIos, p);
    }
  }

  lemma RefcountsDrop(pages: seq<Page>, readIos: map<nat, Read>, r: nat, x: Read, g: Page)
    requires RefcountsOk(pages, readIos) && r in readIos && readIos[r].Reading? && !x.Reading? &&
      readIos[r].page < |pages|
    requires g.refcount == pages[readIos[r].page].refcount - 1
    ensures RefcountsOk(pages[readIos[r].page := g], readIos[r := x])
  {
    var q := readIos[r].page;
    var pages' := pages[q := g];
    forall p | 0 <= p < |pages'| ensures pages'[p].refcount == |Readers(readIos[r := x], p)| {
      ReadersUpdate(readIos, r, x, p);
      if p != q { assert Readers(readIos, p) - {r} == Readers(readIos, p); }
    }
  }

  lemma RefcountsSwap(pages: seq<Page>, readIos: map<nat, Read>, r: nat, x: Read)
    requires RefcountsOk(pages, readIos) && r in readIos && readIos[r].Reading? && x.Reading? &&
      readIos[r].page == x.page
    ensures RefcountsOk(pages, readIos[r := x])
  {
    forall p | 0 <= p < |pages| ensures pages[p].refcount == |Readers(readIos[r := x], p)| {
      assert Readers(readIos[r := x], p) == Readers(readIos, p);
    }
  }

  lemma ReadsUpdate(cfg: Config, readIos: map<nat, Read>, pages: seq<Page>, images: map<nat, seq<byte>>, r: nat,
      x: Read)
    requires ReadsOk(cfg, readIos, pages, images) && ReadOk(cfg, x, pages, images)
    ensures ReadsOk(cfg, readIos[r := x], pages, images)
  {
  }

  lemma SubmitReadKeeps(s: State, r: nat, page: nat, version: nat, off: nat, len: nat)
    requires Inv(s) && Enabled(s, SubmitRead(r, page, version, off, len))
    ensures Inv(Apply(s, SubmitRead(r, page, version, off, len)))
  {
    var x := Queued(page, version, off, len);
    ReadsUpdate(s.cfg, s.readIos, s.pages, s.images, r, x);
    RefcountsQuiet(s.pages, s.readIos, r, x);
  }

  /** A range of the image that starts in the unflushed part lies in the attached buffer. */
  lemma BufferServes(cfg: Config, g: Page, disk: seq<byte>, wbufs: seq<Wbuf>, images: map<nat, seq<byte>>,
      nextVersion: nat, off: nat, len: nat)
    requires cfg.Ok() && PageOk(cfg, g, disk, wbufs, images, nextVersion) && !g.free
    requires Stored(cfg, images, g.version, off, len) && off >= g.written
    ensures HasWbuf(g, wbufs) && WbufOf(g, wbufs).offset == g.written && g.active
    ensures off < g.written + cfg.wbufSize && off - g.written + len <= |WbufOf(g, wbufs).buf|
    ensures var at := off - g.written;
            WbufOf(g, wbufs).buf[at..at + len] == images[g.version][off..off + len]
  {
    var img := images[g.version];
    assert img == img[..g.written] + img[g.written..];
    var b, at := WbufOf(g, wbufs), off - g.written;
    assert img[g.written..][at..at + len] == img[off..off + len];
    assert b.buf[..Filled(b)][at..at + len] == b.buf[at..at + len];
  }

  /** Any other range lies wholly in the flushed part. */
  lemma DiskServes(cfg: Config, g: Page, disk: seq<byte>, wbufs: seq<Wbuf>, images: map<nat, seq<byte>>,
      nextVersion: nat, off: nat, len: nat)
    requires cfg.Ok() && PageOk(cfg, g, disk, wbufs, images, nextVersion) && !g.free
    requires Stored(cfg, images, g.version, off, len) && !(g.active && off >= g.written)
    ensures off + len <= g.written
  {
    if off >= g.written {
      BufferServes(cfg, g, disk, wbufs, images, nextVersion, off, len);
    } else {
      RangeBelow(off, len, g.written, cfg.wbufSize);
    }
  }

  lemma ReadFact(s: State, r: nat)
    requires Inv(s) && r in s.readIos
    ensures s.cfg.Ok() && ReadOk(s.cfg, s.readIos[r], s.pages, s.images)
    ensures var p := s.readIos[r].page;
            p < |s.disk| == |s.pages| && PageOk(s.cfg, s.pages[p], s.disk[p], s.wbufs, s.images, s.nextVersion)
  {
    assert ReadOk(s.cfg, s.readIos[r], s.pages, s.images);
    var p := s.readIos[r].page;
    assert PageOk(s.cfg, s.pages[p], s.disk[p], s.wbufs, s.images, s.nextVersion);
  }

  lemma StartReadKeeps(s: State, r: nat)
    requires Inv(s) && Enabled(s, StartRead(r))
    ensures Inv(ApplyStartRead(s, r))
  {
    hide Inv, PageOk;
    ReadFact(s, r);
    var Queued(p, version, off, len) := s.readIos[r];
    var g := s.pages[p];
    if !Readable(g, version) {
      StartReadQuiet(s, r, None);
    } else if g.active && off >= g.written {
      BufferServes(s.cfg, g, s.disk[p], s.wbufs, s.images, s.nextVersion, off, len);
      var at := off - g.written;
      StartReadQuiet(s, r, Some(WbufOf(g, s.wbufs).buf[at..at + len]));
    } else {
      DiskServes(s.cfg, g, s.disk[p], s.wbufs, s.images, s.nextVersion, off, len);
      StartReadDisk(s, r);
    }
  }

  lemma StartReadQuiet(s: State, r: nat, result: Option<seq<byte>>)
    requires Inv(s) && r in s.readIos && s.readIos[r].Queued?
    requires var q := s.readIos[r];
             result.Some? ==>
               Stored(s.cfg, s.images, q.version, q.off, q.len) &&
               result.value == s.images[q.version][q.off..q.off + q.len]
    ensures var q := s.readIos[r];
            Inv(s.(readIos := s.readIos[r := Done(q.page, q.version, q.off, q.len, result)]))
  {
    var q := s.readIos[r];
    var x := Done(q.page, q.version, q.off, q.len, result);
    assert ReadOk(s.cfg, q, s.pages, s.images);
    ReadsUpdate(s.cfg, s.readIos, s.pages, s.images, r, x);
    RefcountsQuiet(s.pages, s.readIos, r, x);
  }

  lemma StartReadDisk(s: State, r: nat)
    requires Inv(s) && r in s.readIos && s.readIos[r].Queued?
    requires var Queued(p, version, off, len) := s.readIos[r];
             p < |s.pages| && !s.pages[p].held && Readable(s.pages[p], version) && off + len <= s.pages[p].written
    ensures var Queued(p, version, off, len) := s.readIos[r];
            Inv(SetPage(s, p, s.pages[p].(refcount := s.pages[p].refcount + 1))
                  .(readIos := s.readIos[r := Reading(p, version, off, len, [])]))
  {
    var Queued(p, version, off, len) := s.readIos[r];
    var g := s.pages[p].(refcount := s.pages[p].refcount + 1);
    var x := Reading(p, version, off, len, []);
    assert ReadOk(s.cfg, s.readIos[r], s.pages, s.images);
    BookkeepingKeeps(s, p, g);
    ReadsUpdate(s.cfg, s.readIos, s.pages[p := g], s.images, r, x);
    RefcountsTake(s.pages, s.readIos, r, x, g);
  }

  lemma PreadLocal(img: seq<byte>, d: seq<byte>, written: nat, off: nat, got: seq<byte>, k: nat)
    requires ImageOk(img, d, written) && off + |got| + k <= written && got == img[off..off + |got|]
    ensures got + d[off + |got|..off + |got| + k] == img[off..off + |got| + k]
  {
    var i := off + |got|;
    assert d[i..i + k] == d[..written][i..i + k];
    assert img[..written][i..i + k] == img[i..i + k];
  }

  lemma ImageFact(cfg: Config, g: Page, disk: seq<byte>, wbufs: seq<Wbuf>, images: map<nat, seq<byte>>,
      nextVersion: nat)
    requires cfg.Ok() && PageOk(cfg, g, disk, wbufs, images, nextVersion) && !g.free
    ensures g.version in images && ImageOk(images[g.version], disk, g.written)
  {
  }

  lemma PreadKeeps(s: State, r: nat, k: nat)
    requires Inv(s) && Enabled(s, PreadSome(r, k))
    ensures Inv(ApplyPread(s, r, k))
  {
    hide PageOk, AllPagesOk, VersionsOk, WbufsOk, FlushesOk, IosOk, ListsOk,
      ReadsOk, RefcountsOk, WritersOk, MaintOk, HistoryOk;
    var Reading(p, version, off, len, got) := s.readIos[r];
    ReadFact(s, r);
    ImageFact(s.cfg, s.pages[p], s.disk[p], s.wbufs, s.images, s.nextVersion);
    PreadLocal(s.images[version], s.disk[p], s.pages[p].written, off, got, k);
    var i := off + |got|;
    var x := Reading(p, version, off, len, got + s.disk[p][i..i + k]);
    ReadsUpdate(s.cfg, s.readIos, s.pages, s.images, r, x);
    RefcountsSwap(s.pages, s.readIos, r, x);
  }

  lemma FinishReadKeeps(s: State, r: nat)
    requires Inv(s) && Enabled(s, FinishRead(r))
    ensures Inv(ApplyFinishRead(s, r))
  {
    var Reading(p, version, off, len, got) := s.readIos[r];
    assert ReadOk(s.cfg, s.readIos[r], s.pages, s.images);
    assert r in Readers(s.readIos, p);
    assert s.pages[p].refcount > 0;
    FinishReadDrop(s, r);
  }

  lemma FinishReadDrop(s: State, r: nat)
    requires Inv(s) && r in s.readIos && s.readIos[r].Reading? && s.readIos[r].page < |s.pages|
    requires ReadOk(s.cfg, s.readIos[r], s.pages, s.images)
    requires |s.readIos[r].got| == s.readIos[r].len && s.pages[s.readIos[r].page].refcount > 0 &&
      !s.pages[s.readIos[r].page].held
    ensures Inv(ApplyFinishRead(s, r))
  {
    hide AllPagesOk, VersionsOk, WbufsOk, FlushesOk, IosOk, ListsOk,
      ReadsOk, RefcountsOk, WritersOk, MaintOk, HistoryOk, Stored;
    var Reading(p, version, off, len, got) := s.readIos[r];
    var g := s.pages[p].(refcount := s.pages[p].refcount - 1);
    var x := Done(p, version, off, len, Some(got));
    BookkeepingKeeps(s, p, g);
    ReadsUpdate(s.cfg, s.readIos, s.pages[p := g], s.images, r, x);
    RefcountsDrop(s.pages, s.readIos, r, x, g);
  }
}
