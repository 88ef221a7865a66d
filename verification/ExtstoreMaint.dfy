/** What the maintenance thread does: which pages it takes back, and which one it evicts. */
module ExtstoreMaint {
  import opened Basics
  import opened Extstore
  import opened ExtstoreInv
  import opened ExtstoreRuns
  import opened ExtstoreTheorems

  /** A page in use that is completely written, holds objects, and may be given up for the common free list. */
  predicate Evictable(g: Page) {
    !g.free && !g.active && !g.closed && g.objCount > 0 && g.freeBucket == 0
  }

  /** A written page that holds nothing that can be read, and that nobody is reading. */
  predicate Reclaimable(g: Page) {
    !g.free && !g.active && g.refcount == 0 && (g.closed || g.objCount == 0)
  }

  // One visit

  /** Nothing but this page differs. */
  ghost predicate OnlyPage(s: State, s': State, p: nat) {
    p < |s.pages| && |s'.pages| == |s.pages| && s'.pages == s.pages[p := s'.pages[p]] &&
    s'.writers == s.writers && s'.readIos == s.readIos && s'.flushes == s.flushes && s'.disk == s.disk &&
    s'.wbufs == s.wbufs
  }

  /** The page is as it was at start-up, off its bucket and first on the free list it came from. */
  ghost predicate TakenBack(s: State, s': State, p: nat) {
    OnlyPage(s, s', p) && s'.pages[p] == InitialPage(s.pages[p].freeBucket) && s'.pageFree == s.pageFree + 1 &&
    (forall b :: 0 <= b < |s'.buckets| ==> p !in s'.buckets[b]) &&
    var fb := s.pages[p].freeBucket;
    if fb == 0 then s'.freeList == [p] + s.freeList && s'.freeBuckets == s.freeBuckets
    else fb < |s.freeBuckets| && s'.freeBuckets == s.freeBuckets[fb := [p] + s.freeBuckets[fb]] &&
         s'.freeList == s.freeList
  }

  lemma FreedIs(s: State, p: nat)
    requires Inv(s) && p < |s.pages| && !s.pages[p].free && !s.pages[p].active && s.pages[p].refcount == 0
    requires s.maint.Scanning? && s.maint.low.Some? ==> s.maint.low.value.page != p
    ensures TakenBack(s, FreePage(s, p), p)
  {
    hide FreePage;
    IdleFact(s, p);
    FreePageEffect(s, p);
    FreedFields(s, p);
    FreePageKeeps(s, p);
    var s' := FreePage(s, p);
    ListsOnly(s', p);
    hide Inv, InitialPage;
  }

  lemma ListsOnly(s: State, p: nat)
    requires Inv(s) && p < |s.pages| && s.pages[p].free
    ensures forall b :: 0 <= b < |s.buckets| ==> p !in s.buckets[b]
  {
    forall b | 0 <= b < |s.buckets|
      ensures p !in s.buckets[b]
    {
      assert BucketOk(s.pages, b, s.buckets[b]);
    }
  }

  /** A visit takes the page back exactly if it can be, and changes no page otherwise. */
  lemma VisitTakesBack(s: State)
    requires Inv(s) && Enabled(s, MaintVisit)
    ensures var s', p := Apply(s, MaintVisit), s.maint.next;
      if Reclaimable(s.pages[p]) then TakenBack(s, s', p)
      else s' == s.(maint := s'.maint)
  {
    hide Inv, FreePage;
    var p := s.maint.next;
    VisitIs(s);
    if Reclaimable(s.pages[p]) {
      SeenOk(s);
      MaintOnly(s, Seen(s));
      FreedIs(s.(maint := Seen(s)), p);
    }
  }

  // One scan

  /** The events of other threads, and visits. */
  predicate OneScan(evs: seq<Event>) {
    forall ev <- evs :: !ev.MaintWake? && !ev.MaintEvict?
  }

  /** The pages as they were when they were visited. */
  ghost function Met(s: State, evs: seq<Event>): seq<Page>
    requires IsRun(s, evs)
    decreases evs
  {
    if evs == [] then []
    else (if evs[0].MaintVisit? then [s.pages[s.maint.next]] else []) + Met(Apply(s, evs[0]), evs[1..])
  }

  /** The candidate has the least version of all pages that could have been evicted when they were visited, and
      there is none only if there was no such page. */
  ghost predicate Oldest(low: Option<Low>, met: seq<Page>) {
    match low
    case None => forall i :: 0 <= i < |met| ==> !Evictable(met[i])
    case Some(l) =>
      l.page < |met| && Evictable(met[l.page]) && met[l.page].version == l.version &&
      forall i :: 0 <= i < |met| && Evictable(met[i]) ==> l.version <= met[i].version
  }

  ghost predicate NoneTakenBack(met: seq<Page>) {
    forall i :: 0 <= i < |met| ==> !Reclaimable(met[i])
  }

  lemma VisitRemembers(s: State)
    requires Inv(s) && Enabled(s, MaintVisit)
    ensures var m, n, g := s.maint, Apply(s, MaintVisit).maint, s.pages[s.maint.next];
      n.Scanning? && n.next == m.next + 1 && (n.evict <==> m.evict && !Reclaimable(g)) &&
      if Evictable(g) && (m.low.None? || g.version < m.low.value.version) then n.low == Some(Low(m.next, g.version))
      else n.low == m.low
  {
    hide Inv, FreePage;
    VisitIs(s);
    if Frees(s) {
      FreeKeepsMaint(s.(maint := Seen(s)), s.maint.next);
    }
  }

  lemma FreeKeepsMaint(s: State, p: nat)
    requires p < |s.pages|
    ensures FreePage(s, p).maint == s.maint
  {
    if s.pages[p].bucket < |s.buckets| && s.pages[p].freeBucket < |s.freeBuckets| {
      LeaveKeepsMaint(s, p);
      BackKeepsMaint(LeaveBucket(s, p), p);
    }
    hide LeaveBucket, BackToFree;
  }

  lemma LeaveKeepsMaint(s: State, p: nat)
    requires p < |s.pages| && s.pages[p].bucket < |s.buckets|
    ensures LeaveBucket(s, p).maint == s.maint
  {
    hide RemoveFirst;
  }

  lemma BackKeepsMaint(s: State, p: nat)
    requires p < |s.pages| && s.pages[p].freeBucket < |s.freeBuckets|
    ensures BackToFree(s, p).maint == s.maint
  {
  }

  /** The maintenance thread's own state, and the configuration. */
  ghost predicate Aside(s: State, s': State) {
    s'.maint == s.maint && s'.cfg == s.cfg
  }

  lemma AllocateAside(s: State, bucket: nat, freeBucket: nat)
    ensures Aside(s, AllocatePage(s, bucket, freeBucket).0)
  {
    if bucket < |s.buckets| && freeBucket < |s.freeBuckets| {
      var (s1, tmp) := PopFree(s, freeBucket);
      assert Aside(s, s1);
      hide PopFree;
    }
  }

  lemma PickAside(s: State, t: nat, bucket: nat, freeBucket: nat, len: nat)
    ensures Aside(s, ApplyPick(s, t, bucket, freeBucket, len))
  {
    hide AllocatePage;
    AllocateAside(s, bucket, freeBucket);
  }

  lemma SubmitAside(s: State, p: nat)
    requires p < |s.pages| && s.pages[p].wbuf.Some?
    ensures Aside(s, SubmitWbuf(s, p))
  {
    hide Splice, Zeros;
    var s' := SubmitWbuf(s, p);
    assert s' == s.(wbufs := s'.wbufs, ioStack := s'.ioStack, flushes := s'.flushes, images := s'.images,
                    fault := s'.fault);
  }

  lemma AttachAside(s: State, p: nat)
    requires p < |s.pages|
    ensures Aside(s, AllocateWbuf(s, p))
  {
    var s' := AllocateWbuf(s, p);
    assert s' == s.(wbufs := s'.wbufs, pages := s'.pages, wbufStack := s'.wbufStack, fault := s'.fault);
  }

  lemma CheckAside(s: State, t: nat)
    requires Enabled(s, Check(t))
    ensures Aside(s, ApplyCheck(s, t))
  {
    var p, len := s.writers[t].page, s.writers[t].len;
    RoomAside(s, p, len);
    hide MakeRoom, OutOfRoom;
  }

  lemma RoomAside(s: State, p: nat, len: nat)
    requires p < |s.pages|
    ensures Aside(s, MakeRoom(s, p, len))
  {
    hide SubmitWbuf, AllocateWbuf;
    var g := s.pages[p];
    if HasWbuf(g, s.wbufs) && WbufOf(g, s.wbufs).free < len && !WbufOf(g, s.wbufs).full {
      SubmitAside(s, p);
      SubmitKeepsPages(s, p);
      AttachAside(SubmitWbuf(s, p), p);
    } else {
      AttachAside(s, p);
    }
  }

  lemma SubmitKeepsPages(s: State, p: nat)
    requires p < |s.pages| && s.pages[p].wbuf.Some?
    ensures SubmitWbuf(s, p).pages == s.pages && SubmitWbuf(s, p).writers == s.writers
  {
    hide Splice, Zeros;
    var s' := SubmitWbuf(s, p);
    assert s' == s.(wbufs := s'.wbufs, ioStack := s'.ioStack, flushes := s'.flushes, images := s'.images,
                    fault := s'.fault);
  }

  lemma CommitAside(s: State, t: nat, data: seq<byte>)
    requires Enabled(s, Commit(t, data))
    ensures Aside(s, ApplyCommit(s, t, data))
  {
    hide Splice;
    var s' := ApplyCommit(s, t, data);
    assert s' == s.(wbufs := s'.wbufs, pages := s'.pages, bytesUsed := s'.bytesUsed, objectsUsed := s'.objectsUsed,
                    writers := s'.writers, images := s'.images, objects := s'.objects, fault := s'.fault);
  }

  lemma IoAside(s: State, ev: Event)
    requires Enabled(s, ev) && (ev.PwriteSome? || ev.Flushed? || ev.SubmitRead?)
    ensures Aside(s, Apply(s, ev))
  {
    hide ApplyPwrite, ApplyFlushed, Stored;
    if ev.PwriteSome? {
      PwriteAside(s, ev.io, ev.at, ev.k);
    } else if ev.Flushed? {
      FlushedAside(s, ev.io);
    }
  }

  lemma PwriteAside(s: State, io: nat, at: nat, k: nat)
    requires io in s.flushes
    ensures Aside(s, ApplyPwrite(s, io, at, k))
  {
    hide Splice, Range;
    var s' := ApplyPwrite(s, io, at, k);
    assert s' == s.(disk := s'.disk, flushes := s'.flushes, fault := s'.fault);
  }

  lemma FlushedAside(s: State, io: nat)
    requires io in s.flushes && s.flushes[io].page < |s.pages|
    ensures Aside(s, ApplyFlushed(s, io))
  {
    var s' := ApplyFlushed(s, io);
    assert s' == s.(pages := s'.pages, wbufStack := s'.wbufStack, ioStack := s'.ioStack, flushes := s'.flushes,
                    fault := s'.fault);
  }

  lemma ReadAside(s: State, ev: Event)
    requires Enabled(s, ev) && (ev.StartRead? || ev.PreadSome? || ev.FinishRead?)
    ensures Aside(s, Apply(s, ev))
  {
    hide ApplyStartRead, ApplyPread, ApplyFinishRead;
    if ev.StartRead? {
      StartAside(s, ev.r);
    } else if ev.PreadSome? {
      PreadAside(s, ev.r, ev.k);
    } else {
      FinishAside(s, ev.r);
    }
  }

  lemma PreadAside(s: State, r: nat, k: nat)
    requires r in s.readIos && s.readIos[r].Reading?
    ensures Aside(s, ApplyPread(s, r, k))
  {
    var s' := ApplyPread(s, r, k);
    assert s' == s.(readIos := s'.readIos, fault := s'.fault);
  }

  lemma FinishAside(s: State, r: nat)
    requires r in s.readIos && s.readIos[r].Reading? && s.readIos[r].page < |s.pages|
    ensures Aside(s, ApplyFinishRead(s, r))
  {
    var s' := ApplyFinishRead(s, r);
    assert s' == s.(pages := s'.pages, readIos := s'.readIos, fault := s'.fault);
  }

  lemma StartAside(s: State, r: nat)
    requires r in s.readIos && s.readIos[r].Queued? && s.readIos[r].page < |s.pages|
    ensures Aside(s, ApplyStartRead(s, r))
  {
    var s' := ApplyStartRead(s, r);
    assert s' == s.(pages := s'.pages, readIos := s'.readIos, fault := s'.fault);
  }

  lemma CountAside(s: State, ev: Event)
    requires Enabled(s, ev) && (ev.Delete? || ev.Close?)
    ensures Aside(s, Apply(s, ev))
  {
    hide ApplyDelete, ApplyClose;
    if ev.Delete? {
      DeleteAside(s, ev.page, ev.version, ev.count, ev.bytes);
    } else {
      CloseAside(s, ev.page, ev.version);
    }
  }

  lemma DeleteAside(s: State, p: nat, version: nat, count: nat, bytes: nat)
    requires p < |s.pages|
    ensures Aside(s, ApplyDelete(s, p, version, count, bytes))
  {
    var s' := ApplyDelete(s, p, version, count, bytes);
    assert s' == s.(pages := s'.pages, bytesUsed := s'.bytesUsed, objectsUsed := s'.objectsUsed);
  }

  lemma CloseAside(s: State, p: nat, version: nat)
    requires p < |s.pages|
    ensures Aside(s, ApplyClose(s, p, version))
  {
    var s' := ApplyClose(s, p, version);
    assert s' == s.(pages := s'.pages);
  }

  lemma OthersAside(s: State, ev: Event)
    requires Enabled(s, ev) && !ev.MaintWake? && !ev.MaintVisit? && !ev.MaintEvict?
    ensures Aside(s, Apply(s, ev))
  {
    hide ApplyPick, ApplyCheck, AllocatePage, ApplyCommit, ApplyPwrite, ApplyFlushed, ApplyStartRead, ApplyPread,
      ApplyFinishRead, ApplyDelete, ApplyClose, Aside;
    if ev.Pick? {
      PickAside(s, ev.t, ev.bucket, ev.freeBucket, ev.len);
    } else if ev.Check? {
      CheckAside(s, ev.t);
    } else if ev.Refill? {
      RefillAside(s, ev.t);
    } else if ev.Commit? {
      CommitAside(s, ev.t, ev.data);
    } else if ev.PwriteSome? || ev.Flushed? || ev.SubmitRead? {
      IoAside(s, ev);
    } else if ev.Delete? || ev.Close? {
      CountAside(s, ev);
    } else {
      ReadAside(s, ev);
    }
  }

  lemma RefillAside(s: State, t: nat)
    requires Enabled(s, Refill(t))
    ensures Aside(s, Apply(s, Refill(t)))
  {
    hide AllocatePage;
    AllocateAside(s, s.writers[t].bucket, s.writers[t].freeBucket);
  }

  lemma OldestNext(low: Option<Low>, met: seq<Page>, g: Page, low': Option<Low>)
    requires Oldest(low, met)
    requires low' == if Evictable(g) && (low.None? || g.version < low.value.version) then Some(Low(|met|, g.version))
                     else low
    ensures Oldest(low', met + [g])
  {
    hide Evictable;
  }

  lemma {:induction false} ScanFrom(s: State, evs: seq<Event>, met: seq<Page>, evict: bool)
    requires Inv(s) && IsRun(s, evs) && OneScan(evs)
    requires s.maint.Scanning? && s.maint.next == |met| && Oldest(s.maint.low, met)
    requires s.maint.evict <==> evict && NoneTakenBack(met)
    ensures var m, all := Run(s, evs).maint, met + Met(s, evs);
      m.Scanning? && m.next == |all| && Oldest(m.low, all) && (m.evict <==> evict && NoneTakenBack(all))
    decreases evs
  {
    hide Inv, Apply, Enabled, Oldest, Reclaimable, Evictable;
    if evs == [] {
      assert met + [] == met;
    } else {
      var ev, s' := evs[0], Apply(s, evs[0]);
      assert ev in evs;
      assert OneScan(evs[1..]);
      StepKeeps(s, ev);
      if ev.MaintVisit? {
        VisitInRange(s);
        var g := s.pages[s.maint.next];
        VisitRemembers(s);
        OldestNext(s.maint.low, met, g, s'.maint.low);
        NextMet(met, g, evict, s.maint.evict, s'.maint.evict);
        ScanFrom(s', evs[1..], met + [g], evict);
        assert met + [g] + Met(s', evs[1..]) == met + Met(s, evs);
      } else {
        OthersAside(s, ev);
        ScanFrom(s', evs[1..], met, evict);
        assert Met(s, evs) == Met(s', evs[1..]);
      }
    }
  }

  lemma NextMet(met: seq<Page>, g: Page, evict: bool, was: bool, now: bool)
    requires (was <==> evict && NoneTakenBack(met)) && (now <==> was && !Reclaimable(g))
    ensures now <==> evict && NoneTakenBack(met + [g])
  {
    hide Reclaimable;
    if NoneTakenBack(met + [g]) {
      assert forall i :: 0 <= i < |met| ==> met[i] == (met + [g])[i];
      assert (met + [g])[|met|] == g;
    }
  }

  lemma VisitInRange(s: State)
    requires Enabled(s, MaintVisit)
    ensures s.maint.Scanning? && s.maint.next < |s.pages|
  {
  }

  // Waking and evicting

  /** The thread means to evict exactly if the common free list is empty. */
  lemma WakeLooks(s: State)
    requires Inv(s) && Enabled(s, MaintWake)
    ensures Apply(s, MaintWake).maint == Scanning(0, s.freeList == [], None)
    ensures Apply(s, MaintWake).pages == s.pages
  {
    assert ListsOk(s.pages, s.freeList, s.freeBuckets, s.buckets, s.pageFree);
  }

  /** Afterwards nothing stored under the page's version can be read: the page is taken back, or closed until its
      last reader is done. */
  ghost predicate Evicted(s: State, s': State, p: nat) {
    p < |s.pages| &&
    if s.pages[p].refcount == 0 then TakenBack(s, s', p)
    else
      OnlyPage(s, s', p) && s'.pages[p] == s.pages[p].(closed := true) && s'.freeList == s.freeList &&
      s'.freeBuckets == s.freeBuckets && s'.buckets == s.buckets
  }

  lemma EvictDoes(s: State)
    requires Inv(s) && Enabled(s, MaintEvict)
    ensures var s', m := Apply(s, MaintEvict), s.maint;
      s'.maint == Asleep && (m.low.Some? ==> m.low.value.page < |s.pages|) &&
      if m.evict && m.low.Some? && !s.pages[m.low.value.page].closed then Evicted(s, s', m.low.value.page)
      else s' == s.(maint := Asleep)
  {
    hide Inv, FreePage;
    var m := s.maint;
    if m.evict && m.low.Some? && !s.pages[m.low.value.page].closed {
      var p := m.low.value.page;
      EvictionClosesItsCandidate(s);
      hide Evicted;
      EvictedIs(s, p);
    }
  }

  lemma EvictedIs(s: State, p: nat)
    requires Inv(s) && p < |s.pages| && !s.pages[p].free && !s.pages[p].active && !s.pages[p].closed
    ensures var s1 := SetPage(s, p, s.pages[p].(closed := true)).(maint := Asleep);
      var s' := if s.pages[p].refcount == 0 then FreePage(s1, p) else s1;
      Evicted(s, s', p) && s'.maint == Asleep
  {
    hide Inv, FreePage, TakenBack;
    var s1 := SetPage(s, p, s.pages[p].(closed := true)).(maint := Asleep);
    ClosedKeeps(s, p);
    if s.pages[p].refcount == 0 {
      FreedIs(s1, p);
      FreeKeepsMaint(s1, p);
      SamePlace(s, s1, FreePage(s1, p), p);
    }
  }

  lemma ClosedKeeps(s: State, p: nat)
    requires Inv(s) && p < |s.pages| && !s.pages[p].free
    ensures Inv(SetPage(s, p, s.pages[p].(closed := true)).(maint := Asleep))
  {
    var s1 := SetPage(s, p, s.pages[p].(closed := true));
    ExtstoreIoSteps.BookkeepingKeeps(s, p, s1.pages[p]);
    hide AllPagesOk, VersionsOk, WbufsOk, FlushesOk, IosOk, ListsOk, ReadsOk, RefcountsOk, WritersOk, HistoryOk;
    assert Inv(s1);
    AsleepKeeps(s1);
  }

  lemma AsleepKeeps(s: State)
    requires Inv(s)
    ensures Inv(s.(maint := Asleep))
  {
    hide AllPagesOk, VersionsOk, WbufsOk, FlushesOk, IosOk, ListsOk, ReadsOk, RefcountsOk, WritersOk, HistoryOk;
  }

  lemma SamePlace(s: State, s1: State, s2: State, p: nat)
    requires p < |s.pages| && s1 == SetPage(s, p, s.pages[p].(closed := true)).(maint := Asleep)
    requires TakenBack(s1, s2, p)
    ensures TakenBack(s, s2, p)
  {
    assert s1.pages[p := s2.pages[p]] == s.pages[p := s2.pages[p]];
  }

  /** A whole scan, with whatever other threads do meanwhile.  A page is evicted exactly if the common free list was
      empty at the start, the scan took no page back, some page could be evicted when it was visited, and the oldest
      of those has not been closed since; then it is that page, still under the version it had when it was
      visited, and no other page changes. */
  lemma EvictsOldest(s: State, evs: seq<Event>)
    requires Inv(s) && Enabled(s, MaintWake) && OneScan(evs) && IsRun(Apply(s, MaintWake), evs)
    requires Enabled(Run(Apply(s, MaintWake), evs), MaintEvict)
    ensures var s1 := Apply(s, MaintWake);
      var s2, met := Run(s1, evs), Met(s1, evs);
      var s3 := Apply(s2, MaintEvict);
      |met| == |s.pages| == |s2.pages| &&
      if s.freeList == [] && NoneTakenBack(met) && exists i :: 0 <= i < |met| && Evictable(met[i])
      then exists p :: 0 <= p < |met| && Chosen(met, p) && Meets(s2, s3, p, met[p].version)
      else s3 == s2.(maint := Asleep)
  {
    hide Inv, Run, Met, Evicted, Evictable, Reclaimable, Apply, IsRun;
    var s1 := Apply(s, MaintWake);
    WakeLooks(s);
    StepKeeps(s, MaintWake);
    RunKeeps(s1, evs);
    var s2, met := Run(s1, evs), Met(s1, evs);
    ScanFrom(s1, evs, [], s.freeList == []);
    assert [] + met == met;
    PageCount(s);
    PageCount(s2);
    RunKeepsConfig(s1, evs);
    StepKeepsConfig(s, MaintWake);
    EvictDoes(s2);
    var m := s2.maint;
    if m.low.Some? {
      var p := m.low.value.page;
      CandidateKept(s2);
      assert Chosen(met, p);
    }
  }

  /** The page is still under that version, and is evicted unless it has been closed. */
  ghost predicate Meets(s: State, s': State, p: nat, version: nat) {
    p < |s.pages| && s.pages[p].version == version &&
    if s.pages[p].closed then s' == s.(maint := Asleep) else Evicted(s, s', p)
  }

  /** The oldest of the pages that could be evicted. */
  ghost predicate Chosen(met: seq<Page>, p: nat) {
    p < |met| && Evictable(met[p]) &&
    forall i :: 0 <= i < |met| && Evictable(met[i]) ==> met[p].version <= met[i].version
  }

  lemma CandidateKept(s: State)
    requires Inv(s) && s.maint.Scanning? && s.maint.low.Some?
    ensures var Low(p, v) := s.maint.low.value; p < |s.pages| && s.pages[p].version == v
  {
    assert CandidateOk(s.maint.low.value, s.pages);
  }

  lemma PageCount(s: State)
    requires Inv(s)
    ensures |s.pages| == s.cfg.pageCount
  {
  }

  lemma {:induction false} RunKeepsConfig(s: State, evs: seq<Event>)
    requires IsRun(s, evs)
    ensures Run(s, evs).cfg == s.cfg
    decreases evs
  {
    hide Apply, Enabled;
    if evs != [] {
      StepKeepsConfig(s, evs[0]);
      RunKeepsConfig(Apply(s, evs[0]), evs[1..]);
    }
  }

  lemma StepKeepsConfig(s: State, ev: Event)
    requires Enabled(s, ev)
    ensures Apply(s, ev).cfg == s.cfg
  {
    if ev.MaintWake? || ev.MaintVisit? || ev.MaintEvict? {
      hide FreePage;
    } else {
      hide Apply, Enabled;
      OthersAside(s, ev);
    }
  }
}
