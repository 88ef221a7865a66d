/** What survives a step that works on one page: the parts of the invariant about other pages,
    and the parts whose ingredients did not change. */
module ExtstoreFrames {
  import opened Basics
  import opened Extstore
  import opened ExtstoreInv

  ghost predicate Prefix(a: seq<byte>, b: seq<byte>) {
    |a| <= |b| && b[..|a|] == a
  }

  lemma PrefixSlice(a: seq<byte>, b: seq<byte>, i: nat, j: nat)
    requires Prefix(a, b) && i <= j <= |a|
    ensures b[i..j] == a[i..j]
  {
    assert forall k :: 0 <= k < |a| ==> b[..|a|][k] == b[k];
  }

  /** Images only grow, and only that of version `v` does. */
  ghost predicate Grows(images: map<nat, seq<byte>>, images': map<nat, seq<byte>>, v: nat) {
    forall u :: u in images ==>
      u in images' && Prefix(images[u], images'[u]) && (u != v ==> images'[u] == images[u])
  }

  /** The step from `s` to `s'` works on page `p`: on its record, its disk area, its buffer or a
      buffer from the stack, and on the image of its version. */
  ghost predicate Touches(s: State, s': State, p: nat) {
    && p < |s.pages| && p < |s.disk|
    && s'.cfg == s.cfg && s.nextVersion <= s'.nextVersion
    && |s'.pages| == |s.pages| && s'.pages == s.pages[p := s'.pages[p]]
    && |s'.disk| == |s.disk| && s'.disk == s.disk[p := s'.disk[p]]
    && |s'.wbufs| == |s.wbufs|
    && (forall w :: 0 <= w < |s.wbufs| && s.pages[p].wbuf != Some(w) && w !in s.wbufStack ==> s'.wbufs[w] == s.wbufs[w])
    && Grows(s.images, s'.images, s.pages[p].version)
  }

  lemma PagesFrame(s: State, s': State, p: nat)
    requires Shape(s) && Shape(s') && Touches(s, s', p)
    requires AllPagesOk(s.cfg, s.pages, s.disk, s.wbufs, s.images, s.nextVersion)
    requires VersionsOk(s.pages) && WbufsOk(s.pages, s.wbufStack, s.cfg.wbufCount)
    requires PageOk(s'.cfg, s'.pages[p], s'.disk[p], s'.wbufs, s'.images, s'.nextVersion)
    ensures AllPagesOk(s'.cfg, s'.pages, s'.disk, s'.wbufs, s'.images, s'.nextVersion)
  {
    forall q | 0 <= q < |s'.pages|
      ensures PageOk(s'.cfg, s'.pages[q], s'.disk[q], s'.wbufs, s'.images, s'.nextVersion)
    {
      assert PageOk(s.cfg, s.pages[p], s.disk[p], s.wbufs, s.images, s.nextVersion);
      assert PageOk(s.cfg, s.pages[q], s.disk[q], s.wbufs, s.images, s.nextVersion);
    }
  }

  /** The version of the page is kept, cleared, or new. */
  ghost predicate VersionStep(g: Page, g': Page, nextVersion: nat) {
    || (g'.version == g.version && g'.free == g.free)
    || (g'.version == 0 && g'.free)
    || nextVersion <= g'.version
  }

  lemma VersionsFrame(s: State, s': State, p: nat)
    requires Shape(s) && Touches(s, s', p) && VersionStep(s.pages[p], s'.pages[p], s.nextVersion)
    requires AllPagesOk(s.cfg, s.pages, s.disk, s.wbufs, s.images, s.nextVersion) && VersionsOk(s.pages)
    ensures VersionsOk(s'.pages)
  {
    VersionBound(s);
  }

  lemma VersionBound(s: State)
    requires Shape(s) && AllPagesOk(s.cfg, s.pages, s.disk, s.wbufs, s.images, s.nextVersion)
    ensures forall p :: 0 <= p < |s.pages| ==> s.pages[p].version < s.nextVersion
    ensures forall p :: 0 <= p < |s.pages| && !s.pages[p].free ==>
      0 < s.pages[p].version && s.pages[p].version in s.images
  {
    forall p | 0 <= p < |s.pages|
      ensures s.pages[p].version < s.nextVersion
      ensures !s.pages[p].free ==> 0 < s.pages[p].version && s.pages[p].version in s.images
    {
      assert PageOk(s.cfg, s.pages[p], s.disk[p], s.wbufs, s.images, s.nextVersion);
    }
  }

  lemma ObjectFrame(cfg: Config, h: Handle, data: seq<byte>, pages: seq<Page>, p: nat, g: Page,
                    images: map<nat, seq<byte>>, images': map<nat, seq<byte>>, v: nat, nextVersion: nat)
    requires p < |pages| && VersionStep(pages[p], g, nextVersion) && Grows(images, images', v)
    requires ObjectOk(cfg, h, data, pages, images) && 0 < h.version < nextVersion
    ensures ObjectOk(cfg, h, data, pages[p := g], images')
  {
    PrefixSlice(images[h.version], images'[h.version], h.off, h.off + |data|);
  }

  /** Old objects stay where they are in a step that stores none. */
  lemma HistoryFrame(s: State, s': State, p: nat)
    requires Touches(s, s', p) && VersionStep(s.pages[p], s'.pages[p], s.nextVersion)
    requires HistoryOk(s.cfg, s.objects, s.pages, s.images, s.nextVersion)
    requires forall v :: v in s'.images ==> v in s.images || 0 < v < s'.nextVersion
    requires s'.objects == s.objects
    ensures HistoryOk(s'.cfg, s'.objects, s'.pages, s'.images, s'.nextVersion)
  {
    forall h | h in s'.objects ensures ObjectOk(s'.cfg, h, s'.objects[h], s'.pages, s'.images) {
      assert ObjectOk(s.cfg, h, s.objects[h], s.pages, s.images);
      ObjectFrame(s.cfg, h, s.objects[h], s.pages, p, s'.pages[p], s.images, s'.images, s.pages[p].version,
        s.nextVersion);
    }
  }

  lemma WbufsFrame(pages: seq<Page>, p: nat, g: Page, stack: seq<nat>, count: nat)
    requires p < |pages| && g.wbuf == pages[p].wbuf && WbufsOk(pages, stack, count)
    ensures WbufsOk(pages[p := g], stack, count)
  {
    forall w | 0 <= w < count && w !in stack ensures Attached(pages[p := g], w) {
      assert Attached(pages, w);
      var q :| 0 <= q < |pages| && pages[q].wbuf == Some(w);
      assert pages[p := g][q].wbuf == Some(w);
    }
  }

  /** A page whose buffer was not shipped has no write in flight. */
  lemma NoFlushOn(cfg: Config, flushes: map<nat, Flush>, pages: seq<Page>, wbufs: seq<Wbuf>, disk: seq<seq<byte>>,
      p: nat)
    requires FlushesOk(cfg, flushes, pages, wbufs, disk) && p < |pages|
    requires !HasWbuf(pages[p], wbufs) || !WbufOf(pages[p], wbufs).full
    ensures forall io :: io in flushes ==> flushes[io].page != p
  {
    forall io | io in flushes ensures flushes[io].page != p {
      assert FlushOk(cfg, flushes[io], pages, wbufs, disk);
    }
  }

  /** A write in flight on another page is not disturbed. */
  lemma FlushFrame(s: State, s': State, p: nat, f: Flush)
    requires Touches(s, s', p) && WbufsOk(s.pages, s.wbufStack, s.cfg.wbufCount)
    requires f.page != p && FlushOk(s.cfg, f, s.pages, s.wbufs, s.disk)
    ensures FlushOk(s'.cfg, f, s'.pages, s'.wbufs, s'.disk)
  {
  }

  lemma FlushesFrame(s: State, s': State, p: nat)
    requires Touches(s, s', p) && WbufsOk(s.pages, s.wbufStack, s.cfg.wbufCount)
    requires FlushesOk(s.cfg, s.flushes, s.pages, s.wbufs, s.disk)
    requires s'.flushes == s.flushes && forall io :: io in s.flushes ==> s.flushes[io].page != p
    ensures FlushesOk(s'.cfg, s'.flushes, s'.pages, s'.wbufs, s'.disk)
  {
    forall io | io in s'.flushes ensures FlushOk(s'.cfg, s'.flushes[io], s'.pages, s'.wbufs, s'.disk) {
      FlushFrame(s, s', p, s.flushes[io]);
    }
  }

  lemma FlushesBookkeeping(cfg: Config, flushes: map<nat, Flush>, pages: seq<Page>, wbufs: seq<Wbuf>,
      disk: seq<seq<byte>>, p: nat, g: Page)
    requires FlushesOk(cfg, flushes, pages, wbufs, disk) && p < |pages|
    requires g.wbuf == pages[p].wbuf && g.written == pages[p].written
    ensures FlushesOk(cfg, flushes, pages[p := g], wbufs, disk)
  {
    forall io | io in flushes ensures FlushOk(cfg, flushes[io], pages[p := g], wbufs, disk) {
      assert FlushOk(cfg, flushes[io], pages, wbufs, disk);
    }
  }

  lemma IosFrame(s: State, s': State, p: nat)
    requires Touches(s, s', p) && WbufsOk(s.pages, s.wbufStack, s.cfg.wbufCount)
    requires IosOk(s.cfg.wbufCount, s.ioStack, s.flushes, s.pages, s.wbufs)
    requires s'.ioStack == s.ioStack && s'.flushes == s.flushes
    requires HasWbuf(s'.pages[p], s'.wbufs) && WbufOf(s'.pages[p], s'.wbufs).full
             ==> HasWbuf(s.pages[p], s.wbufs) && WbufOf(s.pages[p], s.wbufs).full
    ensures IosOk(s'.cfg.wbufCount, s'.ioStack, s'.flushes, s'.pages, s'.wbufs)
  {
  }

  lemma ListsFrame(pages: seq<Page>, p: nat, g: Page, freeList: seq<nat>, freeBuckets: seq<seq<nat>>,
      buckets: seq<seq<nat>>, pageFree: nat)
    requires ListsOk(pages, freeList, freeBuckets, buckets, pageFree) && p < |pages|
    requires g.free == pages[p].free && g.freeBucket == pages[p].freeBucket && g.bucket == pages[p].bucket
    ensures ListsOk(pages[p := g], freeList, freeBuckets, buckets, pageFree)
  {
    var pages' := pages[p := g];
    assert forall q, b :: FreeIn(pages, q, b) == FreeIn(pages', q, b);
    assert forall q, b :: OpenIn(pages, q, b) == OpenIn(pages', q, b);
    forall b | 0 <= b < |freeBuckets| ensures FreeBucketOk(pages', b, freeBuckets[b]) {
      assert FreeBucketOk(pages, b, freeBuckets[b]);
    }
    forall b | 0 <= b < |buckets| ensures BucketOk(pages', b, buckets[b]) {
      assert BucketOk(pages, b, buckets[b]);
    }
  }

  /** A page that is being read stays open, under its version, with no less of it flushed. */
  ghost predicate KeepsReaders(g: Page, g': Page) {
    !g.free && g.refcount > 0 ==> !g'.free && g'.version == g.version && g.written <= g'.written
  }

  lemma ReadFrame(s: State, s': State, p: nat, r: nat)
    requires RefcountsOk(s.pages, s.readIos) && Touches(s, s', p) && KeepsReaders(s.pages[p], s'.pages[p])
    requires r in s.readIos && ReadOk(s.cfg, s.readIos[r], s.pages, s.images)
    ensures ReadOk(s'.cfg, s.readIos[r], s'.pages, s'.images)
  {
    var io := s.readIos[r];
    PrefixSlice(s.images[io.version], s'.images[io.version], io.off, io.off + io.len);
    if io.Reading? {
      PrefixSlice(s.images[io.version], s'.images[io.version], io.off, io.off + |io.got|);
      assert r in Readers(s.readIos, io.page);
      assert s.pages[io.page].refcount > 0;
    }
  }

  lemma ReadsFrame(s: State, s': State, p: nat)
    requires ReadsOk(s.cfg, s.readIos, s.pages, s.images) && RefcountsOk(s.pages, s.readIos)
    requires Touches(s, s', p) && KeepsReaders(s.pages[p], s'.pages[p])
    requires forall r :: r in s'.readIos ==>
               (r in s.readIos && s'.readIos[r] == s.readIos[r]) || ReadOk(s'.cfg, s'.readIos[r], s'.pages, s'.images)
    ensures ReadsOk(s'.cfg, s'.readIos, s'.pages, s'.images)
  {
    forall r | r in s'.readIos ensures ReadOk(s'.cfg, s'.readIos[r], s'.pages, s'.images) {
      if r in s.readIos && s'.readIos[r] == s.readIos[r] {
        ReadFrame(s, s', p, r);
      }
    }
  }

  lemma RefcountsFrame(pages: seq<Page>, readIos: map<nat, Read>, p: nat, g: Page)
    requires RefcountsOk(pages, readIos) && p < |pages| && g.refcount == pages[p].refcount
    ensures RefcountsOk(pages[p := g], readIos)
  {
  }

  /** A page no writer holds has no grant on it. */
  lemma NoGrantOn(cfg: Config, writers: map<nat, Writer>, pages: seq<Page>, wbufs: seq<Wbuf>, p: nat)
    requires WritersOk(cfg, writers, pages, wbufs) && p < |pages| && !pages[p].held
    ensures forall t :: t in writers && writers[t].Granted? ==> writers[t].page != p
  {
    forall t | t in writers && writers[t].Granted? ensures writers[t].page != p {
      assert WriterOk(cfg, writers[t], pages, wbufs);
    }
  }

  lemma WritersFrame(s: State, s': State, p: nat)
    requires Touches(s, s', p) && WbufsOk(s.pages, s.wbufStack, s.cfg.wbufCount)
    requires WritersOk(s.cfg, s.writers, s.pages, s.wbufs)
    requires s'.writers == s.writers && !s.pages[p].held
    ensures WritersOk(s'.cfg, s'.writers, s'.pages, s'.wbufs)
  {
    NoGrantOn(s.cfg, s.writers, s.pages, s.wbufs, p);
    forall t | t in s'.writers ensures WriterOk(s'.cfg, s'.writers[t], s'.pages, s'.wbufs) {
      assert WriterOk(s.cfg, s.writers[t], s.pages, s.wbufs);
    }
  }

  lemma MaintFrame(maint: Maint, pages: seq<Page>, p: nat, g: Page)
    requires MaintOk(maint, pages) && p < |pages|
    requires !pages[p].free ==>
               && !g.free && g.freeBucket == pages[p].freeBucket
               && g.version == pages[p].version && (g.active ==> pages[p].active)
    ensures MaintOk(maint, pages[p := g])
  {
  }
}
