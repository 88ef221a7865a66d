/** What holds in every run of the storage engine. */
module ExtstoreTheorems {
  import opened Basics
  import opened Extstore
  import opened ExtstoreInv
  import opened ExtstoreFrames
  import opened ExtstoreRuns

  ghost predicate IsRun(s: State, evs: seq<Event>)
    decreases evs
  {
    evs == [] || (Enabled(s, evs[0]) && IsRun(Apply(s, evs[0]), evs[1..]))
  }

  ghost function Run(s: State, evs: seq<Event>): State
    requires IsRun(s, evs)
    decreases evs
  {
    if evs == [] then s else Run(Apply(s, evs[0]), evs[1..])
  }

  // The initial state

  ghost predicate GoodStart(cfg: Config, freeBucketOf: seq<nat>, disk: seq<seq<byte>>) {
    && cfg.Ok() && |freeBucketOf| == |disk| == cfg.pageCount
    && (forall p :: 0 <= p < |freeBucketOf| ==> freeBucketOf[p] < cfg.bucketCount)
    && (forall p :: 0 <= p < |disk| ==> |disk[p]| == cfg.pageSize)
  }

  lemma {:induction false} PagesFromSpec(fbs: seq<nat>, i: nat, fb: nat)
    ensures NoRepeats(PagesFrom(fbs, i, fb))
    ensures forall p :: p in PagesFrom(fbs, i, fb) <==> i <= p < |fbs| && fbs[p] == fb
    decreases |fbs| - i
  {
    if i < |fbs| {
      PagesFromSpec(fbs, i + 1, fb);
    }
  }

  lemma {:induction false} CountdownSpec(n: nat)
    ensures NoRepeats(Countdown(n)) && |Countdown(n)| == n
    ensures forall i :: i in Countdown(n) <==> 0 <= i < n
  {
    if n > 0 {
      CountdownSpec(n - 1);
      PushSpec(n - 1, Countdown(n - 1));
    }
  }

  lemma SumLenEmpty(xss: seq<seq<nat>>)
    requires forall b :: 0 <= b < |xss| ==> xss[b] == []
    ensures SumLen(xss) == 0
  {
    if xss != [] {
      assert forall b :: 0 <= b < |xss[1..]| ==> xss[1..][b] == xss[b + 1];
      SumLenEmpty(xss[1..]);
    }
  }

  /** Every page from `i` on is on exactly one of the initial free lists. */
  lemma {:induction false} FreeCount(fbs: seq<nat>, i: nat, count: nat)
    requires i <= |fbs| && count > 0 && forall p :: 0 <= p < |fbs| ==> fbs[p] < count
    ensures |PagesFrom(fbs, i, 0)| + SumLen(FreeBucketsFrom(fbs, i, count)) == |fbs| - i
    decreases |fbs| - i
  {
    var xss := FreeBucketsFrom(fbs, i, count);
    if i == |fbs| {
      SumLenEmpty(xss);
    } else {
      FreeCount(fbs, i + 1, count);
      var yss := FreeBucketsFrom(fbs, i + 1, count);
      var fb := fbs[i];
      if fb == 0 {
        assert xss == yss;
      } else {
        assert xss == yss[fb := [i] + yss[fb]];
        SumLenUpdate(yss, fb, [i] + yss[fb]);
      }
    }
  }

  lemma InitialLists(cfg: Config, fbs: seq<nat>, disk: seq<seq<byte>>)
    requires GoodStart(cfg, fbs, disk)
    ensures var s := Initial(cfg, fbs, disk);
            ListsOk(s.pages, s.freeList, s.freeBuckets, s.buckets, s.pageFree)
  {
    var s := Initial(cfg, fbs, disk);
    PagesFromSpec(fbs, 1, 0);
    forall b | 0 <= b < |s.freeBuckets| ensures FreeBucketOk(s.pages, b, s.freeBuckets[b]) {
      PagesFromSpec(fbs, 1, b);
    }
    if |fbs| > 0 {
      FreeCount(fbs, 1, cfg.bucketCount);
    } else {
      assert forall b :: 0 <= b < |s.freeBuckets| ==> s.freeBuckets[b] == [];
      SumLenEmpty(s.freeBuckets);
    }
  }

  lemma InitialOk(cfg: Config, fbs: seq<nat>, disk: seq<seq<byte>>)
    requires GoodStart(cfg, fbs, disk)
    ensures Inv(Initial(cfg, fbs, disk))
  {
    InitialLists(cfg, fbs, disk);
    CountdownSpec(cfg.wbufCount);
    var s := Initial(cfg, fbs, disk);
    hide ListsOk, PagesFrom, Countdown;
    forall p | 0 <= p < |s.pages| ensures PageOk(s.cfg, s.pages[p], s.disk[p], s.wbufs, s.images, s.nextVersion) {
    }
    forall p | 0 <= p < |s.pages| ensures s.pages[p].refcount == |Readers(s.readIos, p)| {
      assert Readers(s.readIos, p) == {};
    }
  }

  // Safety over runs

  lemma {:induction false} RunKeeps(s: State, evs: seq<Event>)
    requires Inv(s) && IsRun(s, evs)
    ensures Inv(Run(s, evs))
    decreases evs
  {
    hide Inv, Enabled, Apply;
    if evs != [] {
      StepKeeps(s, evs[0]);
      RunKeeps(Apply(s, evs[0]), evs[1..]);
    }
  }

  /** From start-up, whatever the interleaving: no assertion of the buffer or read paths fails,
      no empty IO stack is popped, and the invariant holds. */
  lemma EveryRunIsSafe(cfg: Config, fbs: seq<nat>, disk: seq<seq<byte>>, evs: seq<Event>)
    requires GoodStart(cfg, fbs, disk) && IsRun(Initial(cfg, fbs, disk), evs)
    ensures Inv(Run(Initial(cfg, fbs, disk), evs))
    ensures !Run(Initial(cfg, fbs, disk), evs).fault
  {
    InitialOk(cfg, fbs, disk);
    RunKeeps(Initial(cfg, fbs, disk), evs);
  }

  // Images only grow

  ghost predicate HistoryGrows(a: map<nat, seq<byte>>, b: map<nat, seq<byte>>) {
    forall v :: v in a ==> v in b && Prefix(a[v], b[v])
  }

  lemma GrowsRefl(a: map<nat, seq<byte>>)
    ensures HistoryGrows(a, a)
  {
  }

  lemma GrowsTrans(a: map<nat, seq<byte>>, b: map<nat, seq<byte>>, c: map<nat, seq<byte>>)
    requires HistoryGrows(a, b) && HistoryGrows(b, c)
    ensures HistoryGrows(a, c)
  {
    forall v | v in a ensures v in c && Prefix(a[v], c[v]) {
      PrefixSlice(b[v], c[v], 0, |a[v]|);
      assert c[v][..|a[v]|] == c[v][0..|a[v]|] && b[v][..|a[v]|] == b[v][0..|a[v]|];
    }
  }

  lemma AllocatePageGrows(s: State, bucket: nat, freeBucket: nat)
    requires s.nextVersion !in s.images
    ensures HistoryGrows(s.images, AllocatePage(s, bucket, freeBucket).0.images)
  {
    if bucket < |s.buckets| && freeBucket < |s.freeBuckets| {
      var (s1, tmp) := PopFree(s, freeBucket);
      assert s1 == s.(freeList := s1.freeList, freeBuckets := s1.freeBuckets);
      hide PopFree;
    }
  }

  lemma MakeRoomGrows(s: State, p: nat, len: nat)
    requires p < |s.pages|
    ensures HistoryGrows(s.images, MakeRoom(s, p, len).images)
  {
    assert s.pages[p].wbuf.Some? ==> HistoryGrows(s.images, SubmitWbuf(s, p).images);
  }

  lemma CheckGrows(s: State, t: nat)
    requires t in s.writers && s.writers[t].Picked? && s.writers[t].page < |s.pages|
    ensures HistoryGrows(s.images, ApplyCheck(s, t).images)
  {
    hide MakeRoom, OutOfRoom;
    MakeRoomGrows(s, s.writers[t].page, s.writers[t].len);
  }

  lemma PickGrows(s: State, t: nat, bucket: nat, freeBucket: nat, len: nat)
    requires s.nextVersion !in s.images
    ensures HistoryGrows(s.images, ApplyPick(s, t, bucket, freeBucket, len).images)
  {
    AllocatePageGrows(s, bucket, freeBucket);
    hide AllocatePage;
  }

  lemma CommitGrows(s: State, t: nat, data: seq<byte>)
    requires t in s.writers && s.writers[t].Granted? && s.writers[t].page < |s.pages|
    ensures HistoryGrows(s.images, ApplyCommit(s, t, data).images)
  {
  }

  lemma OthersGrow(s: State, ev: Event)
    requires Enabled(s, ev) && !ev.Pick? && !ev.Check? && !ev.Refill? && !ev.Commit?
    ensures Apply(s, ev).images == s.images
  {
    hide ApplyPwrite, ApplyFlushed, ApplyStartRead, ApplyPread, ApplyFinishRead, ApplyDelete, ApplyClose,
      ApplyMaintVisit, ApplyMaintEvict;
  }

  lemma NextVersionIsNew(s: State)
    requires Inv(s)
    ensures s.nextVersion !in s.images
  {
  }

  lemma StepGrows(s: State, ev: Event)
    requires Inv(s) && Enabled(s, ev)
    ensures HistoryGrows(s.images, Apply(s, ev).images)
  {
    hide Inv, HistoryGrows, ApplyPick, ApplyCheck, ApplyCommit, ApplyPwrite, ApplyFlushed, ApplyStartRead, ApplyPread,
      ApplyFinishRead, ApplyDelete, ApplyClose, ApplyMaintVisit, ApplyMaintEvict, AllocatePage;
    NextVersionIsNew(s);
    match ev
    case Pick(t, bucket, freeBucket, len) => PickGrows(s, t, bucket, freeBucket, len);
    case Check(t) => CheckGrows(s, t);
    case Refill(t) => AllocatePageGrows(s, s.writers[t].bucket, s.writers[t].freeBucket);
    case Commit(t, data) => CommitGrows(s, t, data);
    case _ => OthersGrow(s, ev); GrowsRefl(s.images);
  }

  lemma {:induction false} RunGrows(s: State, evs: seq<Event>)
    requires Inv(s) && IsRun(s, evs)
    ensures HistoryGrows(s.images, Run(s, evs).images)
    decreases evs
  {
    hide Inv, Enabled, Apply, HistoryGrows;
    if evs == [] {
      GrowsRefl(s.images);
    } else {
      var s1 := Apply(s, evs[0]);
      StepKeeps(s, evs[0]);
      StepGrows(s, evs[0]);
      RunGrows(s1, evs[1..]);
      GrowsTrans(s.images, s1.images, Run(s1, evs[1..]).images);
    }
  }

  // Reads return what was written

  /** The handle `extstore_write` fills in for the writer `t`. */
  function HandleFor(s: State, t: nat): Handle
    requires t in s.writers && s.writers[t].Granted? && s.writers[t].page < |s.pages|
    requires HasWbuf(s.pages[s.writers[t].page], s.wbufs)
  {
    var g := s.pages[s.writers[t].page];
    var b := WbufOf(g, s.wbufs);
    Handle(s.writers[t].page, g.version, b.offset + (if s.cfg.wbufSize >= b.free then s.cfg.wbufSize - b.free else 0))
  }

  lemma CommitStores(s: State, t: nat, data: seq<byte>)
    requires Inv(s) && Enabled(s, Commit(t, data))
    ensures HasWbuf(s.pages[s.writers[t].page], s.wbufs)
    ensures var h := HandleFor(s, t);
            var s' := Apply(s, Commit(t, data));
            && h.version in s'.images && h.off + |data| <= |s'.images[h.version]|
            && s'.images[h.version][h.off..h.off + |data|] == data
            && s'.objects == s.objects[h := data]
  {
    var p := s.writers[t].page;
    assert WriterOk(s.cfg, s.writers[t], s.pages, s.wbufs);
    assert PageOk(s.cfg, s.pages[p], s.disk[p], s.wbufs, s.images, s.nextVersion);
    var img := s.images[s.pages[p].version];
    assert img == img[..s.pages[p].written] + img[s.pages[p].written..];
  }

  lemma FinishedReadIsImage(s: State, r: nat)
    requires Inv(s) && r in s.readIos && s.readIos[r].Done? && s.readIos[r].result.Some?
    ensures var q := s.readIos[r];
            && q.version in s.images && q.off + q.len <= |s.images[q.version]|
            && q.result.value == s.images[q.version][q.off..q.off + q.len]
  {
    assert ReadOk(s.cfg, s.readIos[r], s.pages, s.images);
  }

  /** In any run: an object is stored after `before`, and `after` is everything that happens
      next, with any interleaving of writers, flushes, readers, deletes, closes, evictions and
      page reuse.  A read of any part of the object, by the handle its writer was given, has
      either missed or returned exactly the bytes stored. */
  lemma ReadsReturnStoredBytes(cfg: Config, fbs: seq<nat>, disk: seq<seq<byte>>,
                               before: seq<Event>, t: nat, data: seq<byte>, after: seq<Event>, r: nat)
    requires GoodStart(cfg, fbs, disk) && IsRun(Initial(cfg, fbs, disk), before)
    requires var s := Run(Initial(cfg, fbs, disk), before);
             Enabled(s, Commit(t, data)) && IsRun(Apply(s, Commit(t, data)), after)
    ensures var s := Run(Initial(cfg, fbs, disk), before);
            HasWbuf(s.pages[s.writers[t].page], s.wbufs)
    ensures var s := Run(Initial(cfg, fbs, disk), before);
            var h := HandleFor(s, t);
            var s' := Run(Apply(s, Commit(t, data)), after);
            r in s'.readIos && s'.readIos[r].Done? && s'.readIos[r].version == h.version
            && h.off <= s'.readIos[r].off && s'.readIos[r].off + s'.readIos[r].len <= h.off + |data| ==>
              var q := s'.readIos[r];
              q.result.None? || q.result.value == data[q.off - h.off..q.off - h.off + q.len]
  {
    hide Inv, Enabled, Apply, Initial, HistoryGrows;
    EveryRunIsSafe(cfg, fbs, disk, before);
    var s := Run(Initial(cfg, fbs, disk), before);
    CommitEnabled(s, t, data);
    CommitStores(s, t, data);
    var h := HandleFor(s, t);
    StepKeeps(s, Commit(t, data));
    var s1 := Apply(s, Commit(t, data));
    RunKeeps(s1, after);
    RunGrows(s1, after);
    var s' := Run(s1, after);
    if r in s'.readIos && s'.readIos[r].Done? && s'.readIos[r].version == h.version && s'.readIos[r].result.Some?
       && h.off <= s'.readIos[r].off && s'.readIos[r].off + s'.readIos[r].len <= h.off + |data| {
      var q := s'.readIos[r];
      FinishedReadIsImage(s', r);
      GrownSlice(s1.images, s'.images, h.version, h.off, data, q.off, q.len);
    }
  }

  lemma CommitEnabled(s: State, t: nat, data: seq<byte>)
    requires Enabled(s, Commit(t, data))
    ensures t in s.writers && s.writers[t].Granted? && s.writers[t].page < |s.pages|
  {
  }

  lemma GrownSlice(a: map<nat, seq<byte>>, b: map<nat, seq<byte>>, v: nat, at: nat, data: seq<byte>, off: nat, len: nat)
    requires HistoryGrows(a, b) && v in a && at + |data| <= |a[v]| && a[v][at..at + |data|] == data
    requires at <= off && off + len <= at + |data|
    ensures v in b && off + len <= |b[v]| && b[v][off..off + len] == data[off - at..off - at + len]
  {
    PrefixSlice(a[v], b[v], off, off + len);
    var img := a[v];
    assert forall k :: 0 <= k < |data| ==> data[k] == img[at + k];
    assert data[off - at..off - at + len] == img[off..off + len];
  }

  /** A read that starts while the page is open under its version does not miss. */
  lemma OpenPageIsRead(s: State, r: nat)
    requires Inv(s) && Enabled(s, StartRead(r)) && Readable(s.pages[s.readIos[r].page], s.readIos[r].version)
    ensures var q := Apply(s, StartRead(r)).readIos[r];
            q.Reading? || (q.Done? && q.result.Some?)
  {
    StepKeeps(s, StartRead(r));
    hide Inv, PageOk, ApplyStartRead;
    InvFault(Apply(s, StartRead(r)));
    ReadStarts(s, r);
  }

  lemma ReadStarts(s: State, r: nat)
    requires r in s.readIos && s.readIos[r].Queued? && s.readIos[r].page < |s.pages|
    requires Readable(s.pages[s.readIos[r].page], s.readIos[r].version) && !ApplyStartRead(s, r).fault
    ensures r in ApplyStartRead(s, r).readIos
    ensures var q := ApplyStartRead(s, r).readIos[r];
            q.Reading? || (q.Done? && q.result.Some?)
  {
  }

  lemma InvFault(s: State)
    requires Inv(s)
    ensures !s.fault
  {
  }

  // Conservation

  ghost function Elements(xs: seq<nat>): set<nat> {
    set x | x in xs
  }

  lemma {:induction false} NoDupCard(xs: seq<nat>)
    requires NoRepeats(xs)
    ensures |Elements(xs)| == |xs|
  {
    if xs != [] {
      PopSpec(xs);
      NoDupCard(xs[1..]);
      assert Elements(xs) == Elements(xs[1..]) + {xs[0]};
    } else {
      assert Elements(xs) == {};
    }
  }

  lemma IosCount(count: nat, stack: seq<nat>, flushes: map<nat, Flush>, pages: seq<Page>, wbufs: seq<Wbuf>)
    requires IosOk(count, stack, flushes, pages, wbufs)
    ensures |stack| + |flushes| == count
  {
    NoDupCard(stack);
    CardBelow(count);
    assert Elements(stack) + flushes.Keys == Below(count);
    assert |Elements(stack) + flushes.Keys| == |Elements(stack)| + |flushes.Keys|;
  }

  /** Every write IO is idle on the stack or in flight: none is lost and none is doubled. */
  lemma IosAreConserved(s: State)
    requires Inv(s)
    ensures |s.ioStack| + |s.flushes| == s.cfg.wbufCount
  {
    hide IosOk;
    IosCount(s.cfg.wbufCount, s.ioStack, s.flushes, s.pages, s.wbufs);
  }

  ghost function Writing(pages: seq<Page>): set<nat> {
    set p | 0 <= p < |pages| && pages[p].wbuf.Some?
  }

  lemma {:induction false} AttachedCard(pages: seq<Page>, ps: set<nat>, ws: set<nat>)
    requires forall p :: p in ps ==> p < |pages| && pages[p].wbuf.Some?
    requires forall p, q :: 0 <= p < q < |pages| && pages[p].wbuf.Some? ==> pages[p].wbuf != pages[q].wbuf
    requires ws == set p | p in ps :: pages[p].wbuf.value
    ensures |ws| == |ps|
  {
    if ps != {} {
      var p :| p in ps;
      var ws' := set q | q in ps - {p} :: pages[q].wbuf.value;
      AttachedCard(pages, ps - {p}, ws');
      assert ws == ws' + {pages[p].wbuf.value};
    } else {
      assert ws == {};
    }
  }

  lemma WbufsCount(pages: seq<Page>, stack: seq<nat>, count: nat)
    requires WbufsOk(pages, stack, count)
    requires forall p :: 0 <= p < |pages| && pages[p].wbuf.Some? ==> pages[p].wbuf.value < count
    ensures |stack| + |Writing(pages)| == count
  {
    NoDupCard(stack);
    CardBelow(count);
    var ws := set p | p in Writing(pages) :: pages[p].wbuf.value;
    AttachedCard(pages, Writing(pages), ws);
    forall w | w in Below(count) ensures w in Elements(stack) + ws {
      if w !in stack {
        assert Attached(pages, w);
        var p :| 0 <= p < |pages| && pages[p].wbuf == Some(w);
        assert p in Writing(pages);
      }
    }
    assert Elements(stack) + ws == Below(count);
    assert |Elements(stack) + ws| == |Elements(stack)| + |ws|;
  }

  /** Every write buffer is idle on the stack or attached to exactly one page. */
  lemma WbufsAreConserved(s: State)
    requires Inv(s)
    ensures |s.wbufStack| + |Writing(s.pages)| == s.cfg.wbufCount
  {
    forall p | 0 <= p < |s.pages| && s.pages[p].wbuf.Some? ensures s.pages[p].wbuf.value < s.cfg.wbufCount {
      assert PageOk(s.cfg, s.pages[p], s.disk[p], s.wbufs, s.images, s.nextVersion);
    }
    hide WbufsOk;
    WbufsCount(s.pages, s.wbufStack, s.cfg.wbufCount);
  }

  /** Each page in circulation is on one list only, and which one its flags say; and `written`
      trails the attached buffer, or has caught up when none is attached. */
  lemma PagesAreConserved(s: State, p: nat)
    requires Inv(s) && 0 < p < |s.pages|
    ensures var g := s.pages[p];
            && (p in s.freeList <==> g.free && g.freeBucket == 0)
            && (forall b :: 0 <= b < |s.freeBuckets| ==>
              (p in s.freeBuckets[b] <==> g.free && b == g.freeBucket && b != 0))
            && (forall b :: 0 <= b < |s.buckets| ==> (p in s.buckets[b] <==> !g.free && b == g.bucket))
            && (g.wbuf.None? ==> g.written == g.claimed)
            && (g.wbuf.Some? ==> HasWbuf(g, s.wbufs) && g.written == WbufOf(g, s.wbufs).offset
                                 && g.claimed == g.written + s.cfg.wbufSize)
    ensures s.pageFree == |s.freeList| + SumLen(s.freeBuckets)
  {
    var g := s.pages[p];
    assert PageOk(s.cfg, g, s.disk[p], s.wbufs, s.images, s.nextVersion);
    assert p in s.freeList <==> FreeIn(s.pages, p, 0);
    forall b | 0 <= b < |s.freeBuckets| ensures p in s.freeBuckets[b] <==> g.free && b == g.freeBucket && b != 0 {
      assert FreeBucketOk(s.pages, b, s.freeBuckets[b]);
      assert FreeIn(s.pages, p, b) <==> g.free && g.freeBucket == b;
    }
    forall b | 0 <= b < |s.buckets| ensures p in s.buckets[b] <==> !g.free && b == g.bucket {
      assert BucketOk(s.pages, b, s.buckets[b]);
      assert OpenIn(s.pages, p, b) <==> !g.free && g.bucket == b;
    }
  }

  /** The eviction step looks at neither version nor flags again, and need not: the page it
      closes is still the full, open page, under the version, that the scan picked. */
  lemma EvictionClosesItsCandidate(s: State)
    requires Inv(s) && Enabled(s, MaintEvict) && s.maint.evict && s.maint.low.Some?
    ensures var Low(p, v) := s.maint.low.value;
            && p < |s.pages| && !s.pages[p].free && !s.pages[p].active
            && s.pages[p].version == v && s.pages[p].freeBucket == 0
            && s.pages[p].wbuf.None? && s.pages[p].written == s.cfg.pageSize
  {
    var p := s.maint.low.value.page;
    assert CandidateOk(s.maint.low.value, s.pages);
    assert PageOk(s.cfg, s.pages[p], s.disk[p], s.wbufs, s.images, s.nextVersion);
  }
}
