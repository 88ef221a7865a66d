/** The usage statistics: global counters against the sums over pages. */
module ExtstoreAccounts {
  import opened Basics
  import opened Extstore
  import opened ExtstoreInv
  import ExtstoreFrames
  import opened ExtstorePageSteps
  import ExtstoreIoSteps
  import opened ExtstoreRuns
  import opened ExtstoreTheorems

  function SumObjects(pages: seq<Page>): int {
    if pages == [] then 0 else pages[0].objCount + SumObjects(pages[1..])
  }

  function SumBytes(pages: seq<Page>): int {
    if pages == [] then 0 else pages[0].bytesUsed + SumBytes(pages[1..])
  }

  ghost predicate SumsOk(s: State) {
    s.objectsUsed == SumObjects(s.pages) && s.bytesUsed == SumBytes(s.pages)
  }

  lemma {:induction false} SumsUpdate(pages: seq<Page>, p: nat, g: Page)
    requires p < |pages|
    ensures SumObjects(pages[p := g]) == SumObjects(pages) - pages[p].objCount + g.objCount
    ensures SumBytes(pages[p := g]) == SumBytes(pages) - pages[p].bytesUsed + g.bytesUsed
  {
    if p == 0 {
      assert pages[p := g][1..] == pages[1..];
    } else {
      assert pages[p := g][1..] == pages[1..][p - 1 := g];
      SumsUpdate(pages[1..], p - 1, g);
    }
  }

  /** The counters and flags the statistics depend on. */
  datatype Account = Account(free: bool, closed: bool, version: nat, objCount: nat, bytesUsed: nat)

  function AccountOf(g: Page): Account {
    Account(g.free, g.closed, g.version, g.objCount, g.bytesUsed)
  }

  /** Nothing the statistics depend on has changed. */
  ghost predicate SameAccounts(s: State, s': State) {
    && s'.objectsUsed == s.objectsUsed && s'.bytesUsed == s.bytesUsed && |s'.pages| == |s.pages|
    && s'.nextVersion == s.nextVersion
    && forall p :: 0 <= p < |s.pages| ==> AccountOf(s'.pages[p]) == AccountOf(s.pages[p])
  }

  lemma {:induction false} SumsSame(a: seq<Page>, b: seq<Page>)
    requires |a| == |b| && forall p :: 0 <= p < |a| ==> AccountOf(a[p]) == AccountOf(b[p])
    ensures SumObjects(a) == SumObjects(b) && SumBytes(a) == SumBytes(b)
  {
    if a != [] {
      assert AccountOf(a[0]) == AccountOf(b[0]);
      assert forall p :: 0 <= p < |a[1..]| ==> AccountOf(a[1..][p]) == AccountOf(a[p + 1]);
      assert forall p :: 0 <= p < |b[1..]| ==> AccountOf(b[1..][p]) == AccountOf(b[p + 1]);
      SumsSame(a[1..], b[1..]);
    }
  }

  /** A delete keeps the totals exact if and only if it is ignored, or takes no more than the
      page has: the page counters stop at zero while the global ones go on down. */
  lemma DeleteKeepsSumsIff(s: State, p: nat, version: nat, count: nat, bytes: nat)
    requires p < |s.pages| && SumsOk(s)
    ensures SumsOk(ApplyDelete(s, p, version, count, bytes)) <==>
              s.pages[p].closed || s.pages[p].version != version
              || (count <= s.pages[p].objCount && bytes <= s.pages[p].bytesUsed)
  {
    var s' := ApplyDelete(s, p, version, count, bytes);
    SumsUpdate(s.pages, p, s'.pages[p]);
  }

  // The callers' ledger

  /** The lengths of the objects stored under a page and version and not yet deleted. */
  type Ledger = map<(nat, nat), seq<nat>>

  function Lens(live: Ledger, p: nat, version: nat): seq<nat> {
    if (p, version) in live then live[(p, version)] else []
  }

  /** A disciplined caller deletes one object at a time, one that it stored and has not deleted
      yet, with its stored length. */
  predicate Disciplined(live: Ledger, ev: Event) {
    ev.Delete? ==> ev.count == 1 && ev.bytes in Lens(live, ev.page, ev.version)
  }

  function NextLedger(live: Ledger, s: State, ev: Event): Ledger {
    match ev
    case Commit(t, data) =>
      if t in s.writers && s.writers[t].Granted? && s.writers[t].page < |s.pages| then
        var p := s.writers[t].page;
        var v := s.pages[p].version;
        live[(p, v) := Lens(live, p, v) + [|data|]]
      else live
    case Delete(p, v, count, bytes) => live[(p, v) := RemoveFirst(Lens(live, p, v), bytes)]
    case _ => live
  }

  ghost predicate PageLedgerOk(live: Ledger, p: nat, a: Account) {
    !a.free && !a.closed ==>
      a.objCount == |Lens(live, p, a.version)| && a.bytesUsed == Sum(Lens(live, p, a.version))
  }

  ghost predicate LedgerOk(s: State, live: Ledger) {
    && (forall p :: 0 <= p < |s.pages| ==> PageLedgerOk(live, p, AccountOf(s.pages[p])))
    && (forall k :: k in live ==> 0 < k.1 < s.nextVersion)
  }

  lemma {:induction false} SumSnoc(xs: seq<nat>, x: nat)
    ensures Sum(xs + [x]) == Sum(xs) + x
  {
    if xs != [] {
      assert (xs + [x])[1..] == xs[1..] + [x];
      SumSnoc(xs[1..], x);
    }
  }

  lemma {:induction false} SumRemove(xs: seq<nat>, x: nat)
    requires x in xs
    ensures |RemoveFirst(xs, x)| == |xs| - 1 && Sum(RemoveFirst(xs, x)) == Sum(xs) - x
  {
    if xs[0] != x {
      SumRemove(xs[1..], x);
      assert RemoveFirst(xs, x)[1..] == RemoveFirst(xs[1..], x);
    }
  }

  // What each step does to the accounts

  /** Only an open page may have changed, and then it is free or closed now, or was free and has
      been opened empty under a new version. */
  ghost predicate Harmless(s: State, s': State) {
    && |s'.pages| == |s.pages| && s.nextVersion <= s'.nextVersion
    && forall p :: 0 <= p < |s.pages| ==>
         || AccountOf(s'.pages[p]) == AccountOf(s.pages[p])
         || s'.pages[p].free || s'.pages[p].closed
         || AccountOf(s'.pages[p]) == Account(false, false, s.nextVersion, 0, 0)
  }

  lemma LedgerFrame(s: State, s': State, live: Ledger)
    requires LedgerOk(s, live) && Harmless(s, s')
    ensures LedgerOk(s', live)
  {
    forall p | 0 <= p < |s'.pages| ensures PageLedgerOk(live, p, AccountOf(s'.pages[p])) {
      assert PageLedgerOk(live, p, AccountOf(s.pages[p]));
      assert (p, s.nextVersion) !in live;
    }
  }

  ghost predicate SameTotals(s: State, s': State) {
    s'.objectsUsed == s.objectsUsed && s'.bytesUsed == s.bytesUsed
    && SumObjects(s'.pages) == SumObjects(s.pages) && SumBytes(s'.pages) == SumBytes(s.pages)
  }

  lemma SameIsHarmless(s: State, s': State)
    requires SameAccounts(s, s')
    ensures Harmless(s, s') && SameTotals(s, s')
  {
    SumsSame(s.pages, s'.pages);
  }

  lemma AllocatePageAccounts(s: State, bucket: nat, freeBucket: nat)
    requires Inv(s) && bucket < s.cfg.bucketCount && freeBucket < s.cfg.bucketCount
    ensures var s' := AllocatePage(s, bucket, freeBucket).0;
            Harmless(s, s') && SameTotals(s, s')
  {
    hide AllPagesOk, VersionsOk, WbufsOk, FlushesOk, IosOk, ListsOk, ReadsOk, RefcountsOk,
      WritersOk, MaintOk, HistoryOk, AllocatePage;
    AllocatePageNone(s, bucket, freeBucket);
    FreeHead(s, freeBucket);
    var (s', tmp) := AllocatePage(s, bucket, freeBucket);
    if tmp.Some? {
      AllocatePageEffect(s, bucket, freeBucket, tmp.value);
      SumsUpdate(s.pages, tmp.value, s'.pages[tmp.value]);
    }
  }

  lemma MakeRoomAccounts(s: State, p: nat, len: nat)
    requires p < |s.pages|
    ensures SameAccounts(s, MakeRoom(s, p, len))
  {
    if s.pages[p].wbuf.Some? {
      SubmitWbufAccounts(s, p);
    } else {
      AllocateWbufAccounts(s, p);
    }
    hide SubmitWbuf, AllocateWbuf;
  }

  lemma SubmitWbufAccounts(s: State, p: nat)
    requires p < |s.pages| && s.pages[p].wbuf.Some?
    ensures SameAccounts(s, SubmitWbuf(s, p)) && SubmitWbuf(s, p).pages == s.pages
  {
  }

  lemma AllocateWbufAccounts(s: State, p: nat)
    requires p < |s.pages|
    ensures SameAccounts(s, AllocateWbuf(s, p))
  {
    if s.wbufStack != [] && s.wbufStack[0] < |s.wbufs| {
      var g := s.pages[p].(claimed := s.pages[p].claimed + s.cfg.wbufSize, wbuf := Some(s.wbufStack[0]));
      assert AllocateWbuf(s, p).pages == s.pages[p := g];
      assert AccountOf(g) == AccountOf(s.pages[p]);
      hide AllocateWbuf;
    }
  }

  lemma CheckAccounts(s: State, t: nat)
    requires t in s.writers && s.writers[t].Picked? && s.writers[t].page < |s.pages|
    ensures SameAccounts(s, ApplyCheck(s, t))
  {
    hide MakeRoom, SameAccounts;
    var p, len := s.writers[t].page, s.writers[t].len;
    MakeRoomAccounts(s, p, len);
    GrantAccounts(MakeRoom(s, p, len), t, p, len);
    AccountsTrans(s, MakeRoom(s, p, len), GrantOrReturn(MakeRoom(s, p, len), t, p, len));
    AccountsWriters(s, s.writers[t := Refilling(s.writers[t].bucket, s.writers[t].freeBucket)]);
    hide GrantOrReturn;
  }

  lemma AccountsTrans(a: State, b: State, c: State)
    requires SameAccounts(a, b) && SameAccounts(b, c)
    ensures SameAccounts(a, c)
  {
  }

  lemma AccountsWriters(s: State, writers: map<nat, Writer>)
    ensures SameAccounts(s, s.(writers := writers))
  {
  }

  lemma GrantAccounts(s: State, t: nat, p: nat, len: nat)
    requires p < |s.pages|
    ensures SameAccounts(s, GrantOrReturn(s, t, p, len))
  {
  }

  lemma FlushedAccounts(s: State, io: nat)
    requires io in s.flushes && s.flushes[io].page < |s.pages|
    ensures SameAccounts(s, ApplyFlushed(s, io))
  {
  }

  lemma StartReadAccounts(s: State, r: nat)
    requires r in s.readIos && s.readIos[r].Queued? && s.readIos[r].page < |s.pages|
    ensures SameAccounts(s, ApplyStartRead(s, r))
  {
    var p := s.readIos[r].page;
    var pages' := ApplyStartRead(s, r).pages;
    assert pages' == s.pages || pages' == s.pages[p := s.pages[p].(refcount := s.pages[p].refcount + 1)];
    hide ApplyStartRead;
  }

  lemma FinishReadAccounts(s: State, r: nat)
    requires r in s.readIos && s.readIos[r].Reading? && s.readIos[r].page < |s.pages|
    ensures SameAccounts(s, ApplyFinishRead(s, r))
  {
  }

  /** Reclaim takes the page's counts out of both sides. */
  lemma FreePageAccounts(s: State, p: nat)
    requires p < |s.pages| && s.pages[p].bucket < |s.buckets| && s.pages[p].freeBucket < |s.freeBuckets|
    ensures var s' := FreePage(s, p);
            && Harmless(s, s')
            && s'.objectsUsed - s.objectsUsed == SumObjects(s'.pages) - SumObjects(s.pages)
            && s'.bytesUsed - s.bytesUsed == SumBytes(s'.pages) - SumBytes(s.pages)
  {
    var g := s.pages[p].(version := 0, objCount := 0, bytesUsed := 0, claimed := 0,
                         written := 0, bucket := 0, active := false, closed := false, free := true);
    assert FreePage(s, p).pages == s.pages[p := g];
    SumsUpdate(s.pages, p, g);
  }

  ghost predicate Balanced(s: State, s': State) {
    && s'.objectsUsed - s.objectsUsed == SumObjects(s'.pages) - SumObjects(s.pages)
    && s'.bytesUsed - s.bytesUsed == SumBytes(s'.pages) - SumBytes(s.pages)
  }

  lemma MaintVisitAccounts(s: State)
    requires Inv(s) && s.maint.Scanning? && Unlocked(s, s.maint.next)
    ensures Harmless(s, ApplyMaintVisit(s)) && Balanced(s, ApplyMaintVisit(s))
  {
    hide Inv, FreePage;
    var Scanning(i, evict, low) := s.maint;
    PageBounds(s, i);
    var g := s.pages[i];
    if !g.active && !g.free && (g.objCount == 0 || g.closed) && g.refcount == 0 {
      var s1 := s.(maint := Scanning(i + 1, false, low));
      FreePageAccounts(s1, i);
      assert ApplyMaintVisit(s) == FreePage(s1, i);
    } else {
      assert ApplyMaintVisit(s) == s.(maint := ApplyMaintVisit(s).maint);
    }
  }

  lemma CloseAccounts(s: State, p: nat)
    requires p < |s.pages|
    ensures var s' := SetPage(s, p, s.pages[p].(closed := true));
            Harmless(s, s') && Balanced(s, s')
  {
    SumsUpdate(s.pages, p, s.pages[p].(closed := true));
  }

  lemma PageBounds(s: State, p: nat)
    requires Inv(s) && p < |s.pages|
    ensures s.pages[p].bucket < |s.buckets| && s.pages[p].freeBucket < |s.freeBuckets|
    ensures !s.pages[p].free ==> 0 < s.pages[p].version < s.nextVersion
  {
    assert PageOk(s.cfg, s.pages[p], s.disk[p], s.wbufs, s.images, s.nextVersion);
  }

  lemma MaintEvictAccounts(s: State)
    requires Inv(s) && Enabled(s, MaintEvict)
    ensures Harmless(s, ApplyMaintEvict(s)) && Balanced(s, ApplyMaintEvict(s))
  {
    hide Inv, FreePage;
    if s.maint.evict && s.maint.low.Some? && !s.pages[s.maint.low.value.page].closed {
      var p := s.maint.low.value.page;
      PageBounds(s, p);
      var s1 := SetPage(s, p, s.pages[p].(closed := true)).(maint := Asleep);
      assert ApplyMaintEvict(s) == if s.pages[p].refcount == 0 then FreePage(s1, p) else s1;
      hide ApplyMaintEvict, Enabled;
      EvictAccounts(s, p);
    } else {
      assert ApplyMaintEvict(s) == s.(maint := Asleep);
    }
  }

  lemma EvictAccounts(s: State, p: nat)
    requires p < |s.pages| && s.pages[p].bucket < |s.buckets| && s.pages[p].freeBucket < |s.freeBuckets|
    ensures var s1 := SetPage(s, p, s.pages[p].(closed := true)).(maint := Asleep);
      Harmless(s, s1) && Balanced(s, s1) && Harmless(s, FreePage(s1, p)) && Balanced(s, FreePage(s1, p))
  {
    hide FreePage;
    var s1 := SetPage(s, p, s.pages[p].(closed := true)).(maint := Asleep);
    CloseAccounts(s, p);
    FreePageAccounts(s1, p);
  }

  lemma CommitEffect(s: State, t: nat, data: seq<byte>)
    requires Inv(s) && Enabled(s, Commit(t, data))
    ensures var s' := ApplyCommit(s, t, data);
            var p := s.writers[t].page;
            var g := s.pages[p];
            && s'.pages == s.pages[p := g.(bytesUsed := g.bytesUsed + |data|,
                                           objCount := g.objCount + 1, held := false)]
            && s'.nextVersion == s.nextVersion && !s'.fault && 0 < g.version < s.nextVersion
  {
    var p := s.writers[t].page;
    assert WriterOk(s.cfg, s.writers[t], s.pages, s.wbufs);
    assert PageOk(s.cfg, s.pages[p], s.disk[p], s.wbufs, s.images, s.nextVersion);
    ExtstoreIoSteps.CommitLocal(s, t, data);
    hide ApplyCommit, PageOk, ExtstoreFrames.Touches;
  }

  lemma CommitAccounts(s: State, t: nat, data: seq<byte>, live: Ledger)
    requires Inv(s) && Enabled(s, Commit(t, data)) && LedgerOk(s, live)
    ensures var s' := ApplyCommit(s, t, data);
            Balanced(s, s') && LedgerOk(s', NextLedger(live, s, Commit(t, data)))
  {
    hide Inv, ApplyCommit;
    CommitEffect(s, t, data);
    CommitTotals(s, t, data);
    var p := s.writers[t].page;
    var s' := ApplyCommit(s, t, data);
    var v := s.pages[p].version;
    SumsUpdate(s.pages, p, s'.pages[p]);
    SumSnoc(Lens(live, p, v), |data|);
    var live' := NextLedger(live, s, Commit(t, data));
    forall q | 0 <= q < |s'.pages| ensures PageLedgerOk(live', q, AccountOf(s'.pages[q])) {
      assert PageLedgerOk(live, q, AccountOf(s.pages[q]));
    }
  }

  lemma CommitTotals(s: State, t: nat, data: seq<byte>)
    requires t in s.writers && s.writers[t].Granted? && s.writers[t].page < |s.pages| && |data| == s.writers[t].len
    requires !ApplyCommit(s, t, data).fault
    ensures ApplyCommit(s, t, data).objectsUsed == s.objectsUsed + 1
    ensures ApplyCommit(s, t, data).bytesUsed == s.bytesUsed + |data|
  {
  }

  lemma DeleteAccounts(s: State, p: nat, v: nat, bytes: nat, live: Ledger)
    requires p < |s.pages| && LedgerOk(s, live) && bytes in Lens(live, p, v)
    requires s.pages[p].free ==> s.pages[p].version != v
    ensures var s' := ApplyDelete(s, p, v, 1, bytes);
            Balanced(s, s') && LedgerOk(s', live[(p, v) := RemoveFirst(Lens(live, p, v), bytes)])
  {
    var s' := ApplyDelete(s, p, v, 1, bytes);
    SumsUpdate(s.pages, p, s'.pages[p]);
    SumRemove(Lens(live, p, v), bytes);
    SumMember(Lens(live, p, v), bytes);
    assert PageLedgerOk(live, p, AccountOf(s.pages[p]));
    var live' := live[(p, v) := RemoveFirst(Lens(live, p, v), bytes)];
    forall q | 0 <= q < |s'.pages| ensures PageLedgerOk(live', q, AccountOf(s'.pages[q])) {
      assert PageLedgerOk(live, q, AccountOf(s.pages[q]));
    }
  }

  lemma {:induction false} SumMember(xs: seq<nat>, x: nat)
    requires x in xs
    ensures x <= Sum(xs) && |xs| > 0
  {
    if xs[0] != x { SumMember(xs[1..], x); }
  }

  lemma SumsFrame(s: State, s': State)
    requires SumsOk(s) && Balanced(s, s')
    ensures SumsOk(s')
  {
  }

  /** Every event but commit and delete. */
  lemma QuietAccounts(s: State, ev: Event)
    requires Inv(s) && Enabled(s, ev) && !ev.Commit? && !ev.Delete?
    ensures Harmless(s, Apply(s, ev)) && Balanced(s, Apply(s, ev))
  {
    hide Inv, ApplyPick, ApplyCheck, ApplyPwrite, ApplyFlushed, ApplyStartRead, ApplyPread,
      ApplyFinishRead, ApplyClose, ApplyMaintVisit, ApplyMaintEvict, AllocatePage;
    match ev
    case Pick(t, bucket, freeBucket, len) => PickAccounts(s, t, bucket, freeBucket, len);
    case Check(t) => CheckAccounts(s, t); SameIsHarmless(s, Apply(s, ev));
    case Refill(t) => RefillBounds(s, t); AllocatePageAccounts(s, s.writers[t].bucket, s.writers[t].freeBucket);
    case PwriteSome(io, at, k) => PwriteAccounts(s, io, at, k); SameIsHarmless(s, Apply(s, ev));
    case Flushed(io) => FlushedAccounts(s, io); SameIsHarmless(s, Apply(s, ev));
    case SubmitRead(r, page, version, off, len) => SameIsHarmless(s, Apply(s, ev));
    case StartRead(r) => StartReadAccounts(s, r); SameIsHarmless(s, Apply(s, ev));
    case PreadSome(r, k) => PreadAccounts(s, r, k); SameIsHarmless(s, Apply(s, ev));
    case FinishRead(r) => FinishReadAccounts(s, r); SameIsHarmless(s, Apply(s, ev));
    case Close(page, version) => ClosingAccounts(s, page, version);
    case MaintWake => SameIsHarmless(s, Apply(s, ev));
    case MaintVisit => MaintVisitAccounts(s);
    case MaintEvict => MaintEvictAccounts(s);
  }

  lemma PickAccounts(s: State, t: nat, bucket: nat, freeBucket: nat, len: nat)
    requires Inv(s) && freeBucket < |s.freeBuckets|
    ensures Harmless(s, ApplyPick(s, t, bucket, freeBucket, len)) &&
      Balanced(s, ApplyPick(s, t, bucket, freeBucket, len))
  {
    BucketCount(s);
    hide Inv, AllocatePage;
    if bucket < |s.buckets| { AllocatePageAccounts(s, bucket, freeBucket); }
  }

  lemma RefillBounds(s: State, t: nat)
    requires Inv(s) && t in s.writers && s.writers[t].Refilling?
    ensures s.writers[t].bucket < s.cfg.bucketCount && s.writers[t].freeBucket < s.cfg.bucketCount
  {
    assert WriterOk(s.cfg, s.writers[t], s.pages, s.wbufs);
  }

  lemma PwriteAccounts(s: State, io: nat, at: nat, k: nat)
    requires io in s.flushes
    ensures SameAccounts(s, ApplyPwrite(s, io, at, k))
  {
  }

  lemma PreadAccounts(s: State, r: nat, k: nat)
    requires r in s.readIos && s.readIos[r].Reading?
    ensures SameAccounts(s, ApplyPread(s, r, k))
  {
  }

  lemma ClosingAccounts(s: State, p: nat, version: nat)
    requires p < |s.pages|
    ensures Harmless(s, ApplyClose(s, p, version)) && Balanced(s, ApplyClose(s, p, version))
  {
    CloseAccounts(s, p);
  }

  lemma FreeVersion(s: State, p: nat)
    requires Inv(s) && p < |s.pages|
    ensures s.pages[p].free ==> s.pages[p].version == 0
  {
    assert PageOk(s.cfg, s.pages[p], s.disk[p], s.wbufs, s.images, s.nextVersion);
  }

  lemma StepAccounts(s: State, ev: Event, live: Ledger)
    requires Inv(s) && Enabled(s, ev) && SumsOk(s) && LedgerOk(s, live) && Disciplined(live, ev)
    ensures SumsOk(Apply(s, ev)) && LedgerOk(Apply(s, ev), NextLedger(live, s, ev))
  {
    hide Inv, SumsOk, Balanced, Harmless, LedgerOk, ApplyCommit, ApplyDelete;
    if ev.Commit? {
      CommitAccounts(s, ev.t, ev.data, live);
    } else if ev.Delete? {
      FreeVersion(s, ev.page);
      DeleteAccounts(s, ev.page, ev.version, ev.bytes, live);
    } else {
      QuietAccounts(s, ev);
      LedgerFrame(s, Apply(s, ev), live);
    }
    SumsFrame(s, Apply(s, ev));
  }

  ghost predicate IsDisciplinedRun(s: State, live: Ledger, evs: seq<Event>)
    decreases evs
  {
    evs == [] ||
    (Enabled(s, evs[0]) && Disciplined(live, evs[0])
     && IsDisciplinedRun(Apply(s, evs[0]), NextLedger(live, s, evs[0]), evs[1..]))
  }

  lemma {:induction false} RunAccounts(s: State, live: Ledger, evs: seq<Event>)
    requires Inv(s) && SumsOk(s) && LedgerOk(s, live) && IsDisciplinedRun(s, live, evs)
    ensures IsRun(s, evs) && SumsOk(Run(s, evs))
    decreases evs
  {
    hide Inv, SumsOk, LedgerOk, Enabled, Apply, Disciplined, NextLedger;
    if evs != [] {
      StepKeeps(s, evs[0]);
      StepAccounts(s, evs[0], live);
      RunAccounts(Apply(s, evs[0]), NextLedger(live, s, evs[0]), evs[1..]);
    }
  }

  /** For callers that delete each object at most once, with its stored length, the global
      counters equal the sums over pages at every point of every run. */
  lemma UsageIsExact(cfg: Config, fbs: seq<nat>, disk: seq<seq<byte>>, evs: seq<Event>)
    requires GoodStart(cfg, fbs, disk) && IsDisciplinedRun(Initial(cfg, fbs, disk), map[], evs)
    ensures IsRun(Initial(cfg, fbs, disk), evs) && SumsOk(Run(Initial(cfg, fbs, disk), evs))
  {
    InitialOk(cfg, fbs, disk);
    var s := Initial(cfg, fbs, disk);
    assert SumsOk(s) && LedgerOk(s, map[]) by {
      hide Inv;
      EmptySums(s.pages);
    }
    RunAccounts(s, map[], evs);
  }

  lemma {:induction false} EmptySums(pages: seq<Page>)
    requires forall p :: 0 <= p < |pages| ==> pages[p].objCount == 0 && pages[p].bytesUsed == 0
    ensures SumObjects(pages) == 0 && SumBytes(pages) == 0
  {
    if pages != [] { EmptySums(pages[1..]); }
  }
}
