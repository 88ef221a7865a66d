/** The engine as it is in memory: page, buffer and IO records with `next` links, updated in place, one method per
    critical section.  Every method follows and rewrites the links, takes the step that the state machine takes,
    and keeps the machine's invariant. */
module ExtstoreEngine {
  import opened Basics
  import opened Extstore
  import opened ExtstoreInv
  import ExtstorePageSteps
  import ExtstoreIoSteps
  import opened ExtstoreRuns
  import opened ExtstoreTheorems
  import opened ExtstoreChains

  /** What the engine's functions share with the threads around them. */
  datatype World = World(
    disk: seq<seq<byte>>, flushes: map<nat, Flush>, writers: map<nat, Writer>, readIos: map<nat, Read>, maint: Maint,
    images: map<nat, seq<byte>>, objects: map<Handle, seq<byte>>)

  function Nulls(n: nat): (s: seq<Option<nat>>)
    ensures |s| == n && forall i :: 0 <= i < n ==> s[i] == None
  {
    seq(n, _ => None)
  }

  /** While the lists are filled from the last page down, a page is on none of them before its turn. */
  lemma Later(fbs: seq<nat>, i: nat, n: nat, buckets: seq<seq<nat>>)
    requires i < |fbs| && forall b :: 0 <= b < |buckets| ==> buckets[b] == []
    ensures Nowhere(Lists(PagesFrom(fbs, i + 1, 0), FreeBucketsFrom(fbs, i + 1, n), buckets), i)
  {
    var ls := Lists(PagesFrom(fbs, i + 1, 0), FreeBucketsFrom(fbs, i + 1, n), buckets);
    forall l
      ensures i !in ListOf(ls, l)
    {
      match l
      case Free => PagesFromSpec(fbs, i + 1, 0);
      case FreeBucket(b) => PagesFromSpec(fbs, i + 1, b);
      case Bucket(b) =>
    }
  }

  /** And then it goes to the front of the list of its kind. */
  lemma Turn(fbs: seq<nat>, i: nat, n: nat, buckets: seq<seq<nat>>)
    requires i < |fbs| && fbs[i] < n
    ensures var ls := Lists(PagesFrom(fbs, i + 1, 0), FreeBucketsFrom(fbs, i + 1, n), buckets);
      var l := if fbs[i] == 0 then Free else FreeBucket(fbs[i]);
      |ls.freeBuckets| == n &&
      SetList(ls, l, [i] + ListOf(ls, l)) == Lists(PagesFrom(fbs, i, 0), FreeBucketsFrom(fbs, i, n), buckets)
  {
  }

  lemma NoneYet(fbs: seq<nat>, n: nat)
    ensures PagesFrom(fbs, |fbs|, 0) == [] && |FreeBucketsFrom(fbs, |fbs|, n)| == n
    ensures forall b :: 0 <= b < n ==> FreeBucketsFrom(fbs, |fbs|, n)[b] == []
    ensures PagesFrom(fbs, |fbs| + 1, 0) == [] && FreeBucketsFrom(fbs, |fbs| + 1, n) == FreeBucketsFrom(fbs, |fbs|, n)
  {
  }

  lemma NoLists(pages: nat, buckets: nat, wbufs: nat)
    ensures Chains(Nulls(pages), Heads(None, Nulls(buckets), Nulls(buckets)),
      Lists([], EmptyLists(buckets), EmptyLists(buckets)))
    ensures Linked(Nulls(wbufs), None, [])
  {
  }

  class Engine {
    const cfg: Config
    var pages: seq<Page>
    var wbufs: seq<Wbuf>
    /** The `next` field of every page, buffer and IO record, and where each list starts. */
    var pageNext: seq<Option<nat>>
    var wbufNext: seq<Option<nat>>
    var ioNext: seq<Option<nat>>
    var heads: Heads
    var wbufHead: Option<nat>
    var ioHead: Option<nat>
    var nextVersion: nat
    var pageFree: nat
    var objectsUsed: int
    var bytesUsed: int
    /** What the links spell out, and the disk, the IOs and threads in flight, and the history. */
    ghost var lists: Lists
    ghost var wbufStack: seq<nat>
    ghost var ioStack: seq<nat>
    ghost var world: World

    ghost function View(): State
      reads this
    {
      State(cfg, pages, wbufs, world.disk, wbufStack, ioStack, lists.free, lists.freeBuckets, lists.buckets,
            nextVersion, pageFree, objectsUsed, bytesUsed,
            world.flushes, world.writers, world.readIos, world.maint, world.images, world.objects, false)
    }

    ghost predicate Chained()
      reads this`pages, this`wbufs, this`pageNext, this`wbufNext, this`ioNext, this`heads, this`wbufHead, this`ioHead
      reads this`lists, this`wbufStack, this`ioStack
    {
      |pageNext| == |pages| && |wbufNext| == |wbufs| && Chains(pageNext, heads, lists) &&
      Linked(wbufNext, wbufHead, wbufStack) && Linked(ioNext, ioHead, ioStack) &&
      |ioNext| == cfg.wbufCount
    }

    ghost predicate Valid()
      reads this
    {
      Chained() && Inv(View())
    }

    /** `extstore_init`: the page records, then the free lists, linked from the last page down to the second,
        then the stacks of buffers and IOs. */
    constructor (cfg: Config, freeBucketOf: seq<nat>, disk: seq<seq<byte>>)
      requires GoodStart(cfg, freeBucketOf, disk)
      ensures Valid() && View() == Initial(cfg, freeBucketOf, disk)
    {
      hide Inv, Chained, Chains, Linked, PagesFrom, FreeBucketsFrom, Countdown, Initial;
      this.cfg := cfg;
      pages, wbufs := InitialPages(freeBucketOf), InitialWbufs(cfg);
      pageNext, wbufNext, ioNext := Nulls(|freeBucketOf|), Nulls(cfg.wbufCount), Nulls(cfg.wbufCount);
      heads, wbufHead, ioHead := Heads(None, Nulls(cfg.bucketCount), Nulls(cfg.bucketCount)), None, None;
      nextVersion, pageFree, objectsUsed, bytesUsed := 1, 0, 0, 0;
      lists, wbufStack, ioStack := Lists([], EmptyLists(cfg.bucketCount), EmptyLists(cfg.bucketCount)), [], [];
      world := World(disk, map[], map[], map[], Asleep, map[], map[]);
      new;
      Fill(freeBucketOf, disk);
    }

    method Fill(freeBucketOf: seq<nat>, ghost disk: seq<seq<byte>>)
      requires GoodStart(cfg, freeBucketOf, disk) && pages == InitialPages(freeBucketOf) && wbufs == InitialWbufs(cfg)
      requires pageNext == Nulls(|freeBucketOf|) && wbufNext == ioNext == Nulls(cfg.wbufCount)
      requires heads == Heads(None, Nulls(cfg.bucketCount), Nulls(cfg.bucketCount)) && wbufHead == ioHead == None
      requires nextVersion == 1 && pageFree == 0 && objectsUsed == bytesUsed == 0
      requires lists == Lists([], EmptyLists(cfg.bucketCount), EmptyLists(cfg.bucketCount)) &&
        wbufStack == ioStack == []
      requires world == World(disk, map[], map[], map[], Asleep, map[], map[])
      modifies this
      ensures Valid() && View() == Initial(cfg, freeBucketOf, disk)
    {
      hide Inv, Chains, Linked, PagesFrom, FreeBucketsFrom, Countdown;
      NoLists(|freeBucketOf|, cfg.bucketCount, cfg.wbufCount);
      InitialOk(cfg, freeBucketOf, disk);
      assert Chained();
      hide Chained;
      FillFreeLists(freeBucketOf);
      FillStacks();
    }

    method FillFreeLists(freeBucketOf: seq<nat>)
      requires Chained() && |pages| == |freeBucketOf| && pageFree == 0
      requires forall p :: 0 <= p < |pages| ==> pages[p].freeBucket == freeBucketOf[p] < |lists.freeBuckets|
      requires lists.free == [] && forall b :: 0 <= b < |lists.freeBuckets| ==> lists.freeBuckets[b] == []
      requires forall b :: 0 <= b < |lists.buckets| ==> lists.buckets[b] == []
      modifies this`pageNext, this`heads, this`lists, this`pageFree
      ensures Chained() && lists == Lists(PagesFrom(freeBucketOf, 1, 0),
                                          FreeBucketsFrom(freeBucketOf, 1, |old(lists).freeBuckets|),
                                          old(lists).buckets)
      ensures pageFree == if |pages| == 0 then 0 else |pages| - 1
    {
      var i: nat := |pages|;
      ghost var n, buckets := |lists.freeBuckets|, lists.buckets;
      NoneYet(freeBucketOf, n);
      hide Chained, PagesFrom, FreeBucketsFrom, SetList, ListOf, Nowhere;
      while i > 1
        invariant i <= |pages| && (|pages| >= 1 ==> i >= 1) && pageFree == |pages| - i && Chained()
        invariant lists == Lists(PagesFrom(freeBucketOf, i, 0), FreeBucketsFrom(freeBucketOf, i, n), buckets)
      {
        i := i - 1;
        pageFree := pageFree + 1;
        var fb := pages[i].freeBucket;
        PushFree(freeBucketOf, i, fb, n, buckets);
      }
    }

    method PushFree(ghost fbs: seq<nat>, i: nat, fb: nat, ghost n: nat, ghost buckets: seq<seq<nat>>)
      requires Chained() && i < |pages| == |fbs| && fbs[i] == fb < n
      requires forall b :: 0 <= b < |buckets| ==> buckets[b] == []
      requires lists == Lists(PagesFrom(fbs, i + 1, 0), FreeBucketsFrom(fbs, i + 1, n), buckets)
      modifies this`pageNext, this`heads, this`lists
      ensures Chained() && lists == Lists(PagesFrom(fbs, i, 0), FreeBucketsFrom(fbs, i, n), buckets)
    {
      hide Chained, PagesFrom, FreeBucketsFrom, SetList, ListOf, Nowhere;
      SameCounts();
      Later(fbs, i, n, buckets);
      Turn(fbs, i, n, buckets);
      if fb == 0 {
        Push(Free, i);
      } else {
        Push(FreeBucket(fb), i);
      }
    }

    method FillStacks()
      requires Chained() && wbufStack == [] && ioStack == [] && |wbufs| == cfg.wbufCount
      modifies this`wbufNext, this`wbufHead, this`wbufStack, this`ioNext, this`ioHead, this`ioStack
      ensures Chained() && wbufStack == Countdown(cfg.wbufCount) && ioStack == Countdown(cfg.wbufCount)
    {
      hide Chained;
      var w := 0;
      while w < cfg.wbufCount
        invariant w <= cfg.wbufCount && wbufStack == Countdown(w) && ioStack == Countdown(w) && Chained()
      {
        CountdownSpec(w);
        Return(w, w);
        w := w + 1;
      }
    }

    /** The fields of a page record other than its link. */
    method WritePage(p: nat, g: Page)
      requires Chained() && p < |pages|
      modifies this`pages
      ensures Chained() && pages == old(pages)[p := g]
    {
      hide Chains, Linked;
      pages := pages[p := g];
    }

    // Lists of pages

    /** Takes the first page off a list. */
    method Pop(l: Place) returns (p: nat)
      requires Chained() && Is(heads, l) && HeadOf(heads, l).Some?
      modifies this`heads, this`lists
      ensures Chained() && ListOf(old(lists), l) != [] && p == ListOf(old(lists), l)[0] < |pages|
      ensures Is(old(heads), l) && lists == SetList(old(lists), l, ListOf(old(lists), l)[1..])
      ensures old(Apart(lists)) ==> Nowhere(lists, p)
    {
      assert Linked(pageNext, HeadOf(heads, l), ListOf(lists, l));
      if Apart(lists) { PoppedIsNowhere(lists, l); }
      PopChains(pageNext, heads, lists, l);
      hide Chains, Apart;
      p := HeadOf(heads, l).value;
      heads := SetHead(heads, l, pageNext[p]);
      lists := SetList(lists, l, ListOf(lists, l)[1..]);
    }

    /** Puts a page at the front of a list. */
    method Push(l: Place, p: nat)
      requires Chained() && Is(heads, l) && p < |pages| && Nowhere(lists, p)
      modifies this`heads, this`lists, this`pageNext
      ensures Chained() && Is(old(heads), l) && lists == SetList(old(lists), l, [p] + ListOf(old(lists), l))
    {
      PushChains(pageNext, heads, lists, l, p);
      hide Chains, Nowhere;
      pageNext := pageNext[p := HeadOf(heads, l)];
      heads := SetHead(heads, l, Some(p));
      lists := SetList(lists, l, [p] + ListOf(lists, l));
    }

    // Opening a page

    /** `_allocate_page` up to the page: the requested list first, failing that the common one. */
    method PopFree(freeBucket: nat) returns (tmp: Option<nat>)
      requires Chained() && Apart(lists) && freeBucket < |heads.freeBuckets|
      modifies this`heads, this`lists
      ensures Chained() && freeBucket < |old(lists).freeBuckets|
      ensures (View(), tmp) == Extstore.PopFree(old(View()), freeBucket) && lists.buckets == old(lists).buckets
      ensures tmp.Some? ==> tmp.value < |pages| && Nowhere(lists, tmp.value)
    {
      assert Linked(pageNext, HeadOf(heads, Free), lists.free);
      assert Linked(pageNext, HeadOf(heads, FreeBucket(freeBucket)), lists.freeBuckets[freeBucket]);
      hide Chains, Linked, Apart, Nowhere;
      tmp := None;
      if freeBucket != 0 && heads.freeBuckets[freeBucket].Some? {
        var p := Pop(FreeBucket(freeBucket));
        tmp := Some(p);
      }
      if tmp.None? && heads.free.Some? {
        var p := Pop(Free);
        tmp := Some(p);
      }
    }

    /** The rest of it: the page becomes the head of the bucket, under a new version. */
    method OpenPage(p: nat, bucket: nat)
      requires Chained() && p < |pages| && bucket < |heads.buckets| && pageFree > 0 && Nowhere(lists, p)
      modifies this`pages, this`pageNext, this`heads, this`lists, this`nextVersion, this`pageFree, this`world
      ensures Chained() && bucket < |old(lists).buckets| && View() == Extstore.OpenPage(old(View()), p, bucket)
    {
      hide Chained, Nowhere;
      SameCounts();
      Push(Bucket(bucket), p);
      WritePage(p, pages[p].(active := true, free := false, closed := false, version := nextVersion, bucket := bucket));
      world := world.(images := world.images[nextVersion := []]);
      nextVersion := nextVersion + 1;
      pageFree := pageFree - 1;
    }

    lemma SameCounts()
      requires Chained()
      ensures |heads.freeBuckets| == |lists.freeBuckets| && |heads.buckets| == |lists.buckets|
    {
    }

    method AllocatePage(bucket: nat, freeBucket: nat) returns (tmp: Option<nat>)
      requires Valid() && bucket < cfg.bucketCount && freeBucket < cfg.bucketCount
      modifies this`pages, this`pageNext, this`heads, this`lists, this`nextVersion, this`pageFree, this`world
      ensures Valid() && (View(), tmp) == Extstore.AllocatePage(old(View()), bucket, freeBucket)
    {
      hide Inv, Chained, Extstore.OpenPage, Extstore.PopFree, Apart, Nowhere;
      ghost var s := View();
      ExtstorePageSteps.AllocatePageKeeps(s, bucket, freeBucket);
      BucketCount(s);
      SameCounts();
      ListsApart(s);
      tmp := PopFree(freeBucket);
      SameCounts();
      if pageFree > 0 && tmp.Some? {
        OpenPage(tmp.value, bucket);
      }
    }

    // Giving a page back

    lemma BucketLinked(b: nat)
      requires Chained() && b < |heads.buckets|
      ensures b < |lists.buckets| && Linked(pageNext, heads.buckets[b], lists.buckets[b])
      ensures heads.buckets[b] == At(lists.buckets[b], 0)
    {
      assert Linked(pageNext, HeadOf(heads, Bucket(b)), ListOf(lists, Bucket(b)));
    }

    /** `_free_page`, the walk along the bucket's links: `prev` and `tmp` are neighbours until `tmp` is the page. */
    method Walk(p: nat, b: nat) returns (prev: Option<nat>, ghost i: nat)
      requires Chained() && b < |heads.buckets| && b < |lists.buckets| && p in lists.buckets[b]
      ensures i < |lists.buckets[b]| && lists.buckets[b][i] == p && p !in lists.buckets[b][..i]
      ensures prev == if i == 0 then None else Some(lists.buckets[b][i - 1])
    {
      hide Chained, Linked;
      BucketLinked(b);
      ghost var s := lists.buckets[b];
      ghost var k := PlaceIn(s, p);
      var tmp := heads.buckets[b];
      prev, i := None, 0;
      while tmp != Some(p)
        invariant 0 <= i <= k && tmp == Some(s[i]) && prev == (if i == 0 then None else Some(s[i - 1]))
        invariant p !in s[..i]
        decreases |s| - i
      {
        NextOnChain(pageNext, heads.buckets[b], s, i);
        prev := tmp;
        tmp := pageNext[tmp.value];
        i := i + 1;
      }
    }

    method Locate(p: nat, b: nat) returns (prev: Option<nat>, ghost i: nat)
      requires Chained() && b < |heads.buckets| && p in ListOf(lists, Bucket(b))
      ensures b < |lists.buckets| && i < |lists.buckets[b]| && lists.buckets[b][i] == p
      ensures RemoveFirst(lists.buckets[b], p) == lists.buckets[b][..i] + lists.buckets[b][i + 1..]
      ensures prev == if i == 0 then None else Some(lists.buckets[b][i - 1])
    {
      hide Chained, RemoveFirst;
      prev, i := Walk(p, b);
      FoundAt(lists.buckets[b], p, i);
    }

    /** And the page is cut out where it was found. */
    method CutAt(p: nat, b: nat, prev: Option<nat>, ghost i: nat)
      requires Chained() && Apart(lists) && b < |heads.buckets| == |lists.buckets|
      requires i < |lists.buckets[b]| && lists.buckets[b][i] == p
      requires prev == if i == 0 then None else Some(lists.buckets[b][i - 1])
      modifies this`pageNext, this`heads, this`lists
      ensures Chained() && Nowhere(lists, p)
      ensures var s := old(lists).buckets[b];
        lists == SetList(old(lists), Bucket(b), s[..i] + s[i + 1..])
    {
      hide Chains, Apart, Linked, Nowhere, SetHead, SetList;
      ghost var s, next, h := lists.buckets[b], pageNext, heads;
      assert ListOf(lists, Bucket(b)) == s;
      CutChains(pageNext, heads, lists, Bucket(b), i);
      if prev.Some? {
        pageNext := pageNext[prev.value := pageNext[p]];
      } else {
        heads := SetHead(heads, Bucket(b), pageNext[p]);
      }
      pageNext := pageNext[p := None];
      assert pageNext == CutNext(next, s, i) && heads == CutHeads(h, Bucket(b), next, s, i);
      hide CutNext, CutHeads;
      lists := SetList(lists, Bucket(b), s[..i] + s[i + 1..]);
    }

    method LeaveBucket(p: nat)
      requires Chained() && Apart(lists) && p < |pages| && pages[p].bucket < |heads.buckets| == |lists.buckets|
      requires p in lists.buckets[pages[p].bucket]
      modifies this`pageNext, this`heads, this`lists, this`objectsUsed, this`bytesUsed
      ensures Chained() && Nowhere(lists, p) && View() == Extstore.LeaveBucket(old(View()), p)
    {
      hide Chained, Apart, Nowhere;
      objectsUsed := objectsUsed - pages[p].objCount;
      bytesUsed := bytesUsed - pages[p].bytesUsed;
      var prev, i := Locate(p, pages[p].bucket);
      CutAt(p, pages[p].bucket, prev, i);
    }

    /** The rest of it: every field is reset and the page goes back to the list it came from. */
    method BackToFree(p: nat)
      requires Chained() && p < |pages| && pages[p].freeBucket < |heads.freeBuckets| == |lists.freeBuckets| &&
        Nowhere(lists, p)
      modifies this`pages, this`pageNext, this`heads, this`lists, this`pageFree
      ensures Chained() && View() == Extstore.BackToFree(old(View()), p)
    {
      hide Chained, Nowhere;
      var g := pages[p];
      WritePage(p, g.(version := 0, objCount := 0, bytesUsed := 0, claimed := 0, written := 0,
                      bucket := 0, active := false, closed := false, free := true));
      if g.freeBucket != 0 {
        Push(FreeBucket(g.freeBucket), p);
      } else {
        Push(Free, p);
      }
      pageFree := pageFree + 1;
    }

    method FreePage(p: nat)
      requires Valid() && p < |pages| && !pages[p].free && !pages[p].active && pages[p].refcount == 0
      requires world.maint.Scanning? && world.maint.low.Some? ==> world.maint.low.value.page != p
      modifies this`pages, this`pageNext, this`heads, this`lists, this`pageFree, this`objectsUsed, this`bytesUsed
      ensures Valid() && View() == Extstore.FreePage(old(View()), p)
    {
      hide Inv, Chained, Apart, Nowhere, Extstore.BackToFree, Extstore.LeaveBucket;
      ghost var s := View();
      FreePageKeeps(s, p);
      IdleFact(s, p);
      ListsApart(s);
      OnItsList(s, p);
      SameCounts();
      LeaveBucket(p);
      SameCounts();
      BackToFree(p);
    }

    // Buffers and IOs

    method TakeWbuf() returns (o: Option<nat>)
      requires Chained() && NoRepeats(wbufStack)
      modifies this`wbufNext, this`wbufHead, this`wbufStack
      ensures Chained() && o == At(old(wbufStack), 0) && (o.Some? ==> o.value < |wbufs|)
      ensures wbufStack == if o.Some? then old(wbufStack)[1..] else old(wbufStack)
    {
      EmptyLinked(wbufNext, wbufHead, wbufStack);
      if wbufStack != [] { TakeLinked(wbufNext, wbufHead, wbufStack); }
      hide Chains, Linked;
      o := wbufHead;
      if o.Some? {
        wbufHead := wbufNext[o.value];
        wbufNext := wbufNext[o.value := None];
        wbufStack := wbufStack[1..];
      }
    }

    method TakeIo() returns (io: nat)
      requires Chained() && NoRepeats(ioStack) && ioStack != []
      modifies this`ioNext, this`ioHead, this`ioStack
      ensures Chained() && io == old(ioStack)[0] && ioStack == old(ioStack)[1..]
    {
      TakeLinked(ioNext, ioHead, ioStack);
      hide Chains, Linked;
      io := ioHead.value;
      ioHead := ioNext[io];
      ioNext := ioNext[io := None];
      ioStack := ioStack[1..];
    }

    method WriteWbuf(w: nat, b: Wbuf)
      requires Chained() && w < |wbufs|
      modifies this`wbufs
      ensures Chained() && wbufs == old(wbufs)[w := b]
    {
      hide Chains, Linked;
      wbufs := wbufs[w := b];
    }

    /** `_allocate_wbuf`. */
    method AllocateWbuf(p: nat)
      requires Valid() && p < |pages| && pages[p].active && pages[p].wbuf.None?
      modifies this`pages, this`wbufs, this`wbufNext, this`wbufHead, this`wbufStack
      ensures Valid() && View() == Extstore.AllocateWbuf(old(View()), p)
    {
      hide Inv, Chained;
      ExtstorePageSteps.AllocateWbufKeeps(View(), p);
      StacksUnique(View());
      var o := TakeWbuf();
      if o.Some? {
        WriteWbuf(o.value, wbufs[o.value].(offset := pages[p].claimed, free := cfg.wbufSize,
                                           bufPos := 0, full := false));
        WritePage(p, pages[p].(claimed := pages[p].claimed + cfg.wbufSize, wbuf := o));
      }
    }

    /** `_submit_wbuf`, with the mark its caller sets: the tail of the buffer is cleared and it is on its way. */
    method SubmitWbuf(p: nat)
      requires Valid() && p < |pages| && HasWbuf(pages[p], wbufs) && !WbufOf(pages[p], wbufs).full && !pages[p].held
      modifies this`wbufs, this`ioNext, this`ioHead, this`ioStack, this`world
      ensures Valid() && View() == Extstore.SubmitWbuf(old(View()), p)
    {
      hide Inv, Chained, Splice;
      ExtstorePageSteps.SubmitWbufKeeps(View(), p);
      SubmitIsSafe(View(), p);
      StacksUnique(View());
      var io := TakeIo();
      var w := pages[p].wbuf.value;
      var b := wbufs[w];
      WriteWbuf(w, b.(buf := Splice(b.buf, |b.buf| - b.free, Zeros(b.free)), full := true));
      ghost var v := pages[p].version;
      world := world.(flushes := world.flushes[io := Flush(p, w, b.offset, {})],
                      images := world.images[v := world.images[v] + Zeros(b.free)]);
    }

    /** The middle of `extstore_write_request`: ship the buffer when the object does not fit, attach one when
        there is none. */
    method MakeRoom(p: nat, len: nat)
      requires Valid() && p < |pages| && pages[p].active && !pages[p].held
      modifies this`pages, this`wbufs, this`wbufNext, this`wbufHead, this`wbufStack, this`ioNext, this`ioHead,
        this`ioStack
      modifies this`world
      ensures Valid() && View() == Extstore.MakeRoom(old(View()), p, len)
    {
      hide Inv, Chained, Extstore.SubmitWbuf, Extstore.AllocateWbuf;
      PageShape(View(), p);
      SubmitKeepsPages(View(), p);
      if pages[p].wbuf.Some? {
        if WbufOf(pages[p], wbufs).free < len && !WbufOf(pages[p], wbufs).full {
          SubmitWbuf(p);
        }
      } else if pages[p].claimed < cfg.pageSize {
        AllocateWbuf(p);
      }
    }

    /** The caller's copy into the granted place, then `extstore_write`. */
    method Write(t: nat, data: seq<byte>, p: nat, at: nat) returns (h: Handle)
      requires Valid() && Enabled(View(), Commit(t, data))
      requires t in world.writers && world.writers[t] == Granted(p, at, |data|)
      modifies this`wbufs, this`pages, this`bytesUsed, this`objectsUsed, this`world
      ensures Valid() && View() == ApplyCommit(old(View()), t, data)
      ensures p < |old(pages)| && HasWbuf(old(pages)[p], old(wbufs)) && h == HandleFor(old(View()), t)
    {
      hide Inv, Chained, Splice, ApplyCommit;
      ExtstoreIoSteps.CommitKeeps(View(), t, data);
      WriteIsSafe(View(), t, data);
      CommitIs(View(), t, data);
      h := CopyIn(p, at, data);
      ghost var v := pages[p].version;
      world := world.(writers := world.writers - {t},
                      images := world.images[v := world.images[v] + data],
                      objects := world.objects[h := data]);
    }

    method CopyIn(p: nat, at: nat, data: seq<byte>) returns (h: Handle)
      requires Chained() && p < |pages| && HasWbuf(pages[p], wbufs)
      requires |data| <= WbufOf(pages[p], wbufs).free <= cfg.wbufSize
      requires at + |data| <= |WbufOf(pages[p], wbufs).buf|
      modifies this`wbufs, this`pages, this`bytesUsed, this`objectsUsed
      ensures Chained() && bytesUsed == old(bytesUsed) + |data| && objectsUsed == old(objectsUsed) + 1
      ensures var g, b := old(pages)[p], WbufOf(old(pages)[p], old(wbufs));
        h == Handle(p, g.version, b.offset + (cfg.wbufSize - b.free)) &&
        pages == old(pages)[p := g.(bytesUsed := g.bytesUsed + |data|, objCount := g.objCount + 1, held := false)] &&
        wbufs == old(wbufs)[g.wbuf.value := b.(buf := Splice(b.buf, at, data), bufPos := b.bufPos + |data|,
                                               free := b.free - |data|)]
    {
      hide Chained, Splice;
      var g := pages[p];
      var w := g.wbuf.value;
      var b := wbufs[w];
      h := Handle(p, g.version, b.offset + (cfg.wbufSize - b.free));
      WriteWbuf(w, b.(buf := Splice(b.buf, at, data), bufPos := b.bufPos + |data|, free := b.free - |data|));
      WritePage(p, g.(bytesUsed := g.bytesUsed + |data|, objCount := g.objCount + 1, held := false));
      bytesUsed := bytesUsed + |data|;
      objectsUsed := objectsUsed + 1;
    }

    /** `_wbuf_cb`, for the IO that carried buffer `w` of page `p`: both go back on their stacks. */
    method WbufCb(io: nat, p: nat, w: nat)
      requires Valid() && Enabled(View(), Flushed(io))
      requires io in world.flushes && world.flushes[io].page == p && world.flushes[io].wbuf == w
      modifies this`pages, this`wbufNext, this`wbufHead, this`wbufStack, this`ioNext, this`ioHead, this`ioStack,
        this`world
      ensures Valid() && View() == ApplyFlushed(old(View()), io)
    {
      hide Inv, Chained, Enabled, ApplyFlushed;
      ExtstoreIoSteps.FlushedKeeps(View(), io);
      CallbackIsSafe(View(), io);
      FlushedIs(View(), io);
      InUse(View(), io);
      var g := pages[p];
      var written := g.written + cfg.wbufSize;
      var active := g.active;
      if written == cfg.pageSize {
        active := false;
      }
      WritePage(p, g.(written := written, wbuf := None, active := active));
      Return(w, io);
      world := world.(flushes := world.flushes - {io});
    }

    method Return(w: nat, io: nat)
      requires Chained() && w < |wbufs| && w !in wbufStack && io < cfg.wbufCount && io !in ioStack
      modifies this`wbufNext, this`wbufHead, this`wbufStack, this`ioNext, this`ioHead, this`ioStack
      ensures Chained() && wbufStack == [w] + old(wbufStack) && ioStack == [io] + old(ioStack)
    {
      PushLinked(wbufNext, wbufHead, wbufStack, w);
      PushLinked(ioNext, ioHead, ioStack, io);
      hide Chains, Linked;
      wbufNext := wbufNext[w := wbufHead];
      wbufHead := Some(w);
      ioNext := ioNext[io := ioHead];
      ioHead := Some(io);
      wbufStack, ioStack := [w] + wbufStack, [io] + ioStack;
    }

    /** `extstore_delete`. */
    method Delete(p: nat, version: nat, count: nat, bytes: nat) returns (ok: bool)
      requires Valid() && Enabled(View(), Event.Delete(p, version, count, bytes))
      modifies this`pages, this`bytesUsed, this`objectsUsed
      ensures Valid() && View() == ApplyDelete(old(View()), p, version, count, bytes)
      ensures ok == (!old(pages)[p].closed && old(pages)[p].version == version)
    {
      hide Inv, Chained;
      ExtstoreIoSteps.DeleteKeeps(View(), p, version, count, bytes);
      var g := pages[p];
      ok := !g.closed && g.version == version;
      if ok {
        var left := if g.bytesUsed >= bytes then g.bytesUsed - bytes else 0;
        var objs := if g.objCount >= count then g.objCount - count else 0;
        WritePage(p, g.(bytesUsed := left, objCount := objs));
        bytesUsed := bytesUsed - bytes;
        objectsUsed := objectsUsed - count;
      }
    }
  }

  lemma StacksUnique(s: State)
    requires Inv(s)
    ensures NoRepeats(s.wbufStack) && NoRepeats(s.ioStack)
  {
  }

  lemma SubmitKeepsPages(s: State, p: nat)
    requires p < |s.pages|
    ensures s.pages[p].wbuf.Some? ==> Extstore.SubmitWbuf(s, p).pages == s.pages
  {
  }

  /** In every safe state the source may rely on what it does rely on. */
  lemma SubmitIsSafe(s: State, p: nat)
    requires Inv(s) && p < |s.pages| && HasWbuf(s.pages[p], s.wbufs) && !WbufOf(s.pages[p], s.wbufs).full
    ensures s.ioStack != [] && WbufOf(s.pages[p], s.wbufs).free <= |WbufOf(s.pages[p], s.wbufs).buf|
    ensures s.pages[p].version in s.images
  {
    assert PageOk(s.cfg, s.pages[p], s.disk[p], s.wbufs, s.images, s.nextVersion);
    hide AllPagesOk, VersionsOk, WbufsOk, FlushesOk, IosOk, ListsOk, ReadsOk, RefcountsOk, WritersOk, MaintOk,
      HistoryOk;
    ExtstorePageSteps.IoAvailable(s.cfg, s.flushes, s.pages, s.wbufs, s.disk, s.wbufStack, s.ioStack,
      s.pages[p].wbuf.value);
  }

  lemma WriteIsSafe(s: State, t: nat, data: seq<byte>)
    requires Inv(s) && Enabled(s, Commit(t, data))
    ensures var Granted(p, at, len) := s.writers[t];
            && HasWbuf(s.pages[p], s.wbufs) && s.pages[p].version in s.images
            && len <= WbufOf(s.pages[p], s.wbufs).free <= s.cfg.wbufSize
            && at + len <= |WbufOf(s.pages[p], s.wbufs).buf|
  {
    var p := s.writers[t].page;
    assert WriterOk(s.cfg, s.writers[t], s.pages, s.wbufs);
    assert PageOk(s.cfg, s.pages[p], s.disk[p], s.wbufs, s.images, s.nextVersion);
  }

  lemma CommitIs(s: State, t: nat, data: seq<byte>)
    requires Inv(s) && Enabled(s, Commit(t, data))
    ensures var Granted(p, at, len) := s.writers[t];
            && len == |data| && HasWbuf(s.pages[p], s.wbufs) && s.pages[p].version in s.images
            && len <= WbufOf(s.pages[p], s.wbufs).free
            && at + len <= |WbufOf(s.pages[p], s.wbufs).buf|
            && var g, b := s.pages[p], WbufOf(s.pages[p], s.wbufs);
            ApplyCommit(s, t, data) == s.(
              wbufs := s.wbufs[g.wbuf.value := b.(buf := Splice(b.buf, at, data), bufPos := b.bufPos + len,
                                                  free := b.free - len)],
              pages := s.pages[p := g.(bytesUsed := g.bytesUsed + len, objCount := g.objCount + 1, held := false)],
              bytesUsed := s.bytesUsed + len, objectsUsed := s.objectsUsed + 1, writers := s.writers - {t},
              images := s.images[g.version := s.images[g.version] + data],
              objects := s.objects[HandleFor(s, t) := data])
  {
    WriteIsSafe(s, t, data);
    hide Inv, Splice;
  }

  lemma CallbackIsSafe(s: State, io: nat)
    requires Inv(s) && io in s.flushes
    ensures var f := s.flushes[io];
            && f.page < |s.pages| && f.wbuf < |s.wbufs| && s.pages[f.page].wbuf == Some(f.wbuf)
            && s.pages[f.page].written == s.wbufs[f.wbuf].offset
  {
    var f := s.flushes[io];
    assert FlushOk(s.cfg, f, s.pages, s.wbufs, s.disk);
    assert PageOk(s.cfg, s.pages[f.page], s.disk[f.page], s.wbufs, s.images, s.nextVersion);
  }

  lemma FlushedIs(s: State, io: nat)
    requires Inv(s) && io in s.flushes
    ensures var f := s.flushes[io];
            && f.page < |s.pages|
            && var g := s.pages[f.page];
            ApplyFlushed(s, io) == s.(
              pages := s.pages[f.page := g.(written := g.written + s.cfg.wbufSize, wbuf := None,
                                            active := g.written + s.cfg.wbufSize != s.cfg.pageSize && g.active)],
              wbufStack := [f.wbuf] + s.wbufStack, ioStack := [io] + s.ioStack, flushes := s.flushes - {io})
  {
    hide Inv;
    CallbackIsSafe(s, io);
    var s' := ApplyFlushed(s, io);
    assert s' == s.(pages := s'.pages, wbufStack := s'.wbufStack, ioStack := s'.ioStack, flushes := s'.flushes);
  }

  /** A buffer and an IO in flight are on no stack. */
  lemma InUse(s: State, io: nat)
    requires Inv(s) && io in s.flushes && s.flushes[io].page < |s.pages|
    requires s.pages[s.flushes[io].page].wbuf == Some(s.flushes[io].wbuf)
    ensures s.flushes[io].wbuf !in s.wbufStack && io !in s.ioStack && io < s.cfg.wbufCount
  {
  }

  lemma PlaceIn(s: seq<nat>, p: nat) returns (k: nat)
    requires p in s
    ensures k < |s| && s[k] == p
  {
    k :| k < |s| && s[k] == p;
  }

  lemma NextOnChain(next: seq<Option<nat>>, head: Option<nat>, s: seq<nat>, i: nat)
    requires Linked(next, head, s) && i < |s|
    ensures s[i] < |next| && next[s[i]] == At(s, i + 1)
  {
  }

  lemma {:induction false} FoundAt(s: seq<nat>, p: nat, i: nat)
    requires i < |s| && s[i] == p && p !in s[..i]
    ensures RemoveFirst(s, p) == s[..i] + s[i + 1..]
  {
    if i > 0 {
      assert s[0] in s[..i] && s[..i] == [s[0]] + s[1..][..i - 1];
      FoundAt(s[1..], p, i - 1);
      assert [s[0]] + (s[1..][..i - 1] + s[1..][i..]) == s[..i] + s[i + 1..];
    }
  }

  /** A page in use is on the list of its bucket. */
  lemma OnItsList(s: State, p: nat)
    requires Inv(s) && 0 < p < |s.pages| && !s.pages[p].free && s.pages[p].bucket < |s.buckets|
    ensures p in s.buckets[s.pages[p].bucket]
  {
    assert BucketOk(s.pages, s.pages[p].bucket, s.buckets[s.pages[p].bucket]);
    assert OpenIn(s.pages, p, s.pages[p].bucket);
  }
}
