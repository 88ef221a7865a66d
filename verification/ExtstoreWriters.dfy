/** The assertion of `_allocate_page`: when it fails, and that one writer at a time on each bucket keeps it. */
module ExtstoreWriters {
  import opened Basics
  import opened Extstore
  import opened ExtstoreInv
  import opened ExtstoreRuns
  import opened ExtstoreTheorems

  /** The bucket a write request is under way on, before it is granted. */
  function BucketOf(w: Writer): Option<nat> {
    match w
    case Picked(_, bucket, _, _) => Some(bucket)
    case Refilling(bucket, _) => Some(bucket)
    case Granted(_, _, _) => None
  }

  ghost predicate Full(pages: seq<Page>, p: nat, pageSize: nat) {
    p < |pages| && pages[p].claimed == pageSize
  }

  /** Every page of a bucket but its head is full. */
  ghost predicate TailFull(pages: seq<Page>, xs: seq<nat>, pageSize: nat) {
    forall j :: 0 < j < |xs| ==> Full(pages, xs[j], pageSize)
  }

  ghost predicate HeadFull(pages: seq<Page>, xs: seq<nat>, pageSize: nat) {
    xs == [] || Full(pages, xs[0], pageSize)
  }

  /** The pages of the request's bucket that were there when it was made: all full, but for the page it
      picked while it has not looked at that. */
  ghost predicate Looks(w: Writer, mark: nat, pages: seq<Page>, buckets: seq<seq<nat>>, pageSize: nat) {
    match w
    case Picked(p, b, _, _) =>
      b < |buckets| ==> forall q <- buckets[b] ::
        q < |pages| && pages[q].version < mark ==> q == p || Full(pages, q, pageSize)
    case Refilling(b, _) =>
      b < |buckets| ==> forall q <- buckets[b] :: q < |pages| && pages[q].version < mark ==> Full(pages, q, pageSize)
    case Granted(_, _, _) => true
  }

  /** `marks` remembers, for each request under way, the next version to be issued when it was made: pages
      of that version or a later one have been opened since. */
  type Marks = map<nat, nat>

  ghost function NextMarks(marks: Marks, s: State, ev: Event): Marks
    requires Enabled(s, ev)
  {
    if ev.Pick? then marks[ev.t := Apply(s, ev).nextVersion] else marks
  }

  /** As long as the assertion has not failed: every page behind the head of a bucket is full, and so is
      what a request has seen. */
  ghost predicate Tidy(s: State, marks: Marks) {
    (forall b :: 0 <= b < |s.buckets| ==> TailFull(s.pages, s.buckets[b], s.cfg.pageSize)) &&
    forall t :: t in s.writers ==>
      t in marks && marks[t] <= s.nextVersion && Looks(s.writers[t], marks[t], s.pages, s.buckets, s.cfg.pageSize)
  }

  /** The one place where the assertion can fail: a request that found its page full opens another. */
  predicate FailsAt(s: State, ev: Event) {
    ev.Refill? && ev.t in s.writers && s.writers[ev.t].Refilling? && s.writers[ev.t].bucket < |s.buckets| &&
    !AllocateAssertion(s, s.writers[ev.t].bucket)
  }

  // Steps that open and free no page

  ghost predicate Quiet(s: State, s': State) {
    s'.cfg == s.cfg && s'.buckets == s.buckets && |s'.pages| == |s.pages| && s'.nextVersion == s.nextVersion &&
    (forall p :: 0 <= p < |s.pages| ==>
      s'.pages[p].version == s.pages[p].version &&
      (s.pages[p].claimed == s.cfg.pageSize ==> s'.pages[p].claimed == s.cfg.pageSize)) &&
    s'.writers.Keys <= s.writers.Keys &&
    forall t :: t in s'.writers && BucketOf(s'.writers[t]).Some? ==> s'.writers[t] == s.writers[t]
  }

  lemma QuietKeeps(s: State, s': State, marks: Marks)
    requires Tidy(s, marks) && Quiet(s, s')
    ensures Tidy(s', marks)
  {
    forall t | t in s'.writers
      ensures t in marks && Looks(s'.writers[t], marks[t], s'.pages, s'.buckets, s'.cfg.pageSize)
    {
      assert Looks(s.writers[t], marks[t], s.pages, s.buckets, s.cfg.pageSize);
    }
  }

  /** One page changes, neither in its version nor in what it has claimed. */
  ghost predicate SamePlaces(s: State, s': State, p: nat) {
    p < |s.pages| && |s'.pages| == |s.pages| && s'.pages == s.pages[p := s'.pages[p]] &&
    s'.pages[p].claimed == s.pages[p].claimed && s'.pages[p].version == s.pages[p].version &&
    s'.cfg == s.cfg && s'.buckets == s.buckets && s'.writers == s.writers && s'.nextVersion == s.nextVersion
  }

  lemma SamePlacesQuiet(s: State, s': State, p: nat)
    requires SamePlaces(s, s', p)
    ensures Quiet(s, s')
  {
  }

  lemma QuietIo(s: State, ev: Event)
    requires Enabled(s, ev) && (ev.PwriteSome? || ev.SubmitRead? || ev.PreadSome? || ev.MaintWake?)
    ensures Quiet(s, Apply(s, ev))
  {
    hide Stored, ApplyPwrite, ApplyPread;
    match ev
    case PwriteSome(io, at, k) => PwriteAside(s, io, at, k);
    case PreadSome(r, k) => PreadAside(s, r, k);
    case SubmitRead(_, _, _, _, _) =>
    case MaintWake =>
  }

  lemma PwriteAside(s: State, io: nat, at: nat, k: nat)
    requires io in s.flushes
    ensures var s' := ApplyPwrite(s, io, at, k); s' == s.(disk := s'.disk, flushes := s'.flushes, fault := s'.fault)
  {
    hide Splice, Range;
  }

  lemma PreadAside(s: State, r: nat, k: nat)
    requires r in s.readIos && s.readIos[r].Reading?
    ensures var s' := ApplyPread(s, r, k); s' == s.(readIos := s'.readIos, fault := s'.fault)
  {
  }

  lemma QuietFlushed(s: State, io: nat)
    requires Enabled(s, Flushed(io))
    ensures SamePlaces(s, ApplyFlushed(s, io), s.flushes[io].page)
  {
  }

  lemma QuietStartRead(s: State, r: nat)
    requires Enabled(s, StartRead(r))
    ensures SamePlaces(s, ApplyStartRead(s, r), s.readIos[r].page)
  {
    var Queued(p, version, off, len) := s.readIos[r];
    var s' := ApplyStartRead(s, r);
    if !Readable(s.pages[p], version) || (s.pages[p].active && off >= s.pages[p].written) {
      assert s'.pages == s.pages && s'.buckets == s.buckets && s'.writers == s.writers;
    } else {
      assert s'.pages == s.pages[p := s.pages[p].(refcount := s.pages[p].refcount + 1)];
    }
    hide ApplyStartRead;
  }

  lemma QuietFinishRead(s: State, r: nat)
    requires Enabled(s, FinishRead(r))
    ensures SamePlaces(s, ApplyFinishRead(s, r), s.readIos[r].page)
  {
  }

  lemma QuietDelete(s: State, p: nat, version: nat, count: nat, bytes: nat)
    requires Enabled(s, Delete(p, version, count, bytes))
    ensures SamePlaces(s, ApplyDelete(s, p, version, count, bytes), p)
  {
    if s.pages[p].closed || s.pages[p].version != version {
      hide Enabled;
      SamePage(s, p);
    } else {
      hide Enabled;
      DeletePlaces(s, p, version, count, bytes);
    }
  }

  lemma SamePage(s: State, p: nat)
    requires p < |s.pages|
    ensures SamePlaces(s, s, p)
  {
    assert s.pages == s.pages[p := s.pages[p]];
  }

  lemma DeletePlaces(s: State, p: nat, version: nat, count: nat, bytes: nat)
    requires p < |s.pages| && !s.pages[p].closed && s.pages[p].version == version
    ensures SamePlaces(s, ApplyDelete(s, p, version, count, bytes), p)
  {
    var g := s.pages[p];
    var g' := g.(bytesUsed := Minus(g.bytesUsed, bytes), objCount := Minus(g.objCount, count));
    assert ApplyDelete(s, p, version, count, bytes) ==
      s.(pages := s.pages[p := g'], bytesUsed := s.bytesUsed - bytes, objectsUsed := s.objectsUsed - count);
  }

  lemma QuietClose(s: State, p: nat, version: nat)
    requires Enabled(s, Close(p, version))
    ensures SamePlaces(s, ApplyClose(s, p, version), p)
  {
    if s.pages[p].closed || s.pages[p].version != version {
      hide Enabled;
      SamePage(s, p);
    } else {
      hide Enabled;
      assert ApplyClose(s, p, version) == s.(pages := s.pages[p := s.pages[p].(closed := true)]);
    }
  }

  lemma QuietCommit(s: State, t: nat, data: seq<byte>)
    requires Enabled(s, Commit(t, data))
    ensures Quiet(s, ApplyCommit(s, t, data))
  {
    hide ApplyCommit;
    CommitPlaces(s, t, data);
  }

  lemma CommitPlaces(s: State, t: nat, data: seq<byte>)
    requires t in s.writers && s.writers[t].Granted? && s.writers[t].page < |s.pages|
    ensures var s', p := ApplyCommit(s, t, data), s.writers[t].page;
            && s'.cfg == s.cfg && s'.buckets == s.buckets && s'.nextVersion == s.nextVersion
            && s'.writers.Keys <= s.writers.Keys && (forall u :: u in s'.writers ==> s'.writers[u] == s.writers[u])
            && |s'.pages| == |s.pages| && s'.pages == s.pages[p := s'.pages[p]]
            && s'.pages[p].version == s.pages[p].version && s'.pages[p].claimed == s.pages[p].claimed
  {
    hide Splice;
    var Granted(p, at, len) := s.writers[t];
    var g := s.pages[p];
    if !HasWbuf(g, s.wbufs) || WbufOf(g, s.wbufs).free < len || at + |data| > |WbufOf(g, s.wbufs).buf|
       || WbufOf(g, s.wbufs).free > s.cfg.wbufSize {
      assert ApplyCommit(s, t, data) == s.(fault := true);
      assert s.pages == s.pages[p := g];
    } else {
      var s' := ApplyCommit(s, t, data);
      assert s'.pages == s.pages[p := g.(bytesUsed := g.bytesUsed + len, objCount := g.objCount + 1, held := false)];
      assert s'.writers == s.writers - {t};
    }
  }

  // Making room on a page

  lemma QuietSubmit(s: State, p: nat)
    requires p < |s.pages| && s.pages[p].wbuf.Some?
    ensures SamePlaces(s, SubmitWbuf(s, p), p)
  {
    hide Splice, Zeros;
    SamePage(s, p);
    var w := s.pages[p].wbuf.value;
    if s.ioStack == [] || w >= |s.wbufs| || s.wbufs[w].free > |s.wbufs[w].buf| {
      assert SubmitWbuf(s, p) == s.(fault := true);
    } else {
      var s' := SubmitWbuf(s, p);
      assert s' == s.(wbufs := s'.wbufs, ioStack := s'.ioStack, flushes := s'.flushes, images := s'.images);
    }
  }

  lemma QuietAllocateWbuf(s: State, p: nat)
    requires p < |s.pages| && s.pages[p].claimed < s.cfg.pageSize
    ensures Quiet(s, AllocateWbuf(s, p)) && AllocateWbuf(s, p).writers == s.writers
  {
    hide AllocateWbuf;
    AllocateWbufPlaces(s, p);
  }

  lemma AllocateWbufPlaces(s: State, p: nat)
    requires p < |s.pages|
    ensures var s' := AllocateWbuf(s, p);
            && s'.cfg == s.cfg && s'.buckets == s.buckets && s'.writers == s.writers && s'.nextVersion == s.nextVersion
            && |s'.pages| == |s.pages| && s'.pages == s.pages[p := s'.pages[p]]
            && s'.pages[p].version == s.pages[p].version
  {
    if s.wbufStack != [] && s.wbufStack[0] < |s.wbufs| {
      var w, g := s.wbufStack[0], s.pages[p];
      var b := s.wbufs[w].(offset := g.claimed, free := s.cfg.wbufSize, bufPos := 0, full := false);
      var g' := g.(claimed := g.claimed + s.cfg.wbufSize, wbuf := Some(w));
      assert AllocateWbuf(s, p) ==
        s.(wbufs := s.wbufs[w := b], pages := s.pages[p := g'], wbufStack := s.wbufStack[1..]);
    } else {
      assert AllocateWbuf(s, p).pages == s.pages[p := s.pages[p]];
    }
  }

  lemma QuietThen(s: State, s1: State, s2: State)
    requires Quiet(s, s1) && Quiet(s1, s2)
    ensures Quiet(s, s2)
  {
  }

  lemma QuietMakeRoom(s: State, p: nat, len: nat)
    requires p < |s.pages|
    ensures Quiet(s, MakeRoom(s, p, len)) && MakeRoom(s, p, len).writers == s.writers
  {
    hide SubmitWbuf, AllocateWbuf, Quiet;
    var g := s.pages[p];
    var ship := HasWbuf(g, s.wbufs) && WbufOf(g, s.wbufs).free < len && !WbufOf(g, s.wbufs).full;
    var s1 := if ship then SubmitWbuf(s, p) else s;
    NothingQuiet(s);
    if ship {
      QuietSubmit(s, p);
      SamePlacesQuiet(s, s1, p);
    }
    if s1.pages[p].wbuf.None? && s1.pages[p].claimed < s1.cfg.pageSize {
      QuietAllocateWbuf(s1, p);
      QuietThen(s, s1, AllocateWbuf(s1, p));
    }
  }

  lemma NothingQuiet(s: State)
    ensures Quiet(s, s)
  {
  }

  lemma QuietGrant(s: State, t: nat, p: nat, len: nat)
    requires p < |s.pages| && t in s.writers
    ensures Quiet(s, GrantOrReturn(s, t, p, len))
  {
  }

  // Opening a page

  /** Either nothing visible happens, or a page goes to the head of the bucket under the next version. */
  ghost predicate Opens(s: State, s1: State, b: nat, tmp: Option<nat>) {
    s1.cfg == s.cfg && s1.writers == s.writers && |s1.pages| == |s.pages| && |s1.buckets| == |s.buckets| &&
    s.nextVersion <= s1.nextVersion && (forall p :: 0 <= p < |s.pages| ==> s1.pages[p].claimed == s.pages[p].claimed) &&
    if s1.buckets == s.buckets then forall p :: 0 <= p < |s.pages| ==> s1.pages[p].version == s.pages[p].version
    else
      b < |s.buckets| && tmp.Some? && tmp.value < |s.pages| &&
      s1.buckets == s.buckets[b := [tmp.value] + s.buckets[b]] &&
      forall p :: 0 <= p < |s.pages| ==>
        s1.pages[p].version == if p == tmp.value then s.nextVersion else s.pages[p].version
  }

  lemma AllocateOpens(s: State, b: nat, fb: nat)
    ensures var (s1, tmp) := AllocatePage(s, b, fb); Opens(s, s1, b, tmp)
  {
    if b < |s.buckets| && fb < |s.freeBuckets| {
      PopFreeQuiet(s, fb);
      var (s1, tmp) := PopFree(s, fb);
      hide PopFree;
      if s.pageFree > 0 && tmp.Some? && tmp.value < |s.pages| {
        OpenPageOpens(s1, tmp.value, b);
        assert |[tmp.value] + s.buckets[b]| == |s.buckets[b]| + 1;
        hide OpenPage;
      }
    }
  }

  lemma PopFreeQuiet(s: State, fb: nat)
    requires fb < |s.freeBuckets|
    ensures var s1 := PopFree(s, fb).0;
      s1.cfg == s.cfg && s1.writers == s.writers && s1.pages == s.pages && s1.buckets == s.buckets &&
      s1.pageFree == s.pageFree && s1.nextVersion == s.nextVersion
  {
    if fb != 0 && s.freeBuckets[fb] != [] {
      assert PopFree(s, fb).0 == s.(freeBuckets := s.freeBuckets[fb := s.freeBuckets[fb][1..]]);
    } else if s.freeList != [] {
      assert PopFree(s, fb).0 == s.(freeList := s.freeList[1..]);
    }
  }

  lemma OpenPageOpens(s: State, p: nat, b: nat)
    requires p < |s.pages| && b < |s.buckets| && s.pageFree > 0
    ensures var s1 := OpenPage(s, p, b);
      s1.cfg == s.cfg && s1.writers == s.writers && |s1.pages| == |s.pages| && s1.nextVersion == s.nextVersion + 1 &&
      s1.buckets == s.buckets[b := [p] + s.buckets[b]] && s1.pages[p].version == s.nextVersion &&
      forall q :: 0 <= q < |s.pages| ==>
        s1.pages[q].claimed == s.pages[q].claimed && (q != p ==> s1.pages[q].version == s.pages[q].version)
  {
  }

  /** A page in front of a full head, or of nothing, and of a version that no request under way has seen. */
  lemma OpenedTidy(s: State, s1: State, b: nat, tmp: Option<nat>, marks: Marks)
    requires Tidy(s, marks) && Opens(s, s1, b, tmp) && b < |s.buckets| &&
      HeadFull(s.pages, s.buckets[b], s.cfg.pageSize)
    ensures Tidy(s1, marks)
  {
    forall c | 0 <= c < |s1.buckets|
      ensures TailFull(s1.pages, s1.buckets[c], s.cfg.pageSize)
    {
      OpenedTail(s, s1, b, tmp, c);
    }
    forall t | t in s1.writers
      ensures Looks(s1.writers[t], marks[t], s1.pages, s1.buckets, s.cfg.pageSize)
    {
      OpenedLooks(s, s1, b, tmp, s.writers[t], marks[t]);
    }
  }

  lemma OpenedTail(s: State, s1: State, b: nat, tmp: Option<nat>, c: nat)
    requires Opens(s, s1, b, tmp) && b < |s.buckets| && HeadFull(s.pages, s.buckets[b], s.cfg.pageSize)
    requires c < |s.buckets| && TailFull(s.pages, s.buckets[c], s.cfg.pageSize)
    ensures TailFull(s1.pages, s1.buckets[c], s.cfg.pageSize)
  {
    var xs, ys := s.buckets[c], s1.buckets[c];
    if ys != xs {
      assert ys == [tmp.value] + xs;
      forall j | 0 < j < |ys|
        ensures Full(s1.pages, ys[j], s.cfg.pageSize)
      {
        assert ys[j] == xs[j - 1];
      }
    }
  }

  lemma OpenedLooks(s: State, s1: State, b: nat, tmp: Option<nat>, w: Writer, mark: nat)
    requires Opens(s, s1, b, tmp) && Looks(w, mark, s.pages, s.buckets, s.cfg.pageSize) && mark <= s.nextVersion
    ensures Looks(w, mark, s1.pages, s1.buckets, s.cfg.pageSize)
  {
  }

  lemma PickTidy(s: State, t: nat, b: nat, fb: nat, len: nat, marks: Marks)
    requires Tidy(s, marks) && t !in s.writers
    ensures Tidy(ApplyPick(s, t, b, fb, len), marks[t := ApplyPick(s, t, b, fb, len).nextVersion])
  {
    if b < |s.buckets| && s.buckets[b] == [] {
      var (s1, tmp) := AllocatePage(s, b, fb);
      AllocateOpens(s, b, fb);
      hide AllocatePage;
      OpenedTidy(s, s1, b, tmp, marks);
      if tmp.Some? {
        assert |s1.buckets[b]| <= 1;
        Joins(s1, t, Picked(tmp.value, b, fb, len), marks);
      }
    } else if b < |s.buckets| {
      Joins(s, t, Picked(s.buckets[b][0], b, fb, len), marks);
    }
  }

  /** A request starts with the head of a bucket. */
  lemma Joins(s: State, t: nat, w: Writer, marks: Marks)
    requires Tidy(s, marks) && t !in s.writers && w.Picked? && w.bucket < |s.buckets|
    requires s.buckets[w.bucket] == [] || s.buckets[w.bucket][0] == w.page
    ensures Tidy(s.(writers := s.writers[t := w]), marks[t := s.nextVersion])
  {
    var xs := s.buckets[w.bucket];
    assert TailFull(s.pages, xs, s.cfg.pageSize);
    forall q | q in xs
      ensures q == w.page || Full(s.pages, q, s.cfg.pageSize)
    {
      var j :| 0 <= j < |xs| && xs[j] == q;
    }
  }

  // Looking for room

  /** A request goes from the page it picked, which is full, to finding another. */
  lemma Gives(s: State, t: nat, w: Writer, marks: Marks)
    requires Tidy(s, marks) && t in s.writers && s.writers[t].Picked? && w.Refilling? && w.bucket == s.writers[t].bucket
    requires w.bucket < |s.buckets| && s.writers[t].page in s.buckets[w.bucket] ==>
      Full(s.pages, s.writers[t].page, s.cfg.pageSize)
    ensures Tidy(s.(writers := s.writers[t := w]), marks)
  {
    assert Looks(s.writers[t], marks[t], s.pages, s.buckets, s.cfg.pageSize);
  }

  /** A page on a bucket's list that has no room is full: only the last flush makes a page inactive. */
  lemma OutOfRoomIsFull(s: State, p: nat, b: nat)
    requires Inv(s) && p < |s.pages| && OutOfRoom(s.pages[p], s.wbufs, s.cfg.pageSize)
    ensures b < |s.buckets| && p in s.buckets[b] ==> Full(s.pages, p, s.cfg.pageSize)
  {
    assert PageOk(s.cfg, s.pages[p], s.disk[p], s.wbufs, s.images, s.nextVersion);
    if b < |s.buckets| && p in s.buckets[b] {
      assert BucketOk(s.pages, b, s.buckets[b]);
      assert OpenIn(s.pages, p, b);
    }
  }

  // Freeing a page

  /** Lists lose pages, and the pages that stay on them are as they were. */
  ghost predicate Shrinks(s: State, s': State) {
    s'.cfg == s.cfg && s'.writers == s.writers && s'.nextVersion == s.nextVersion &&
    |s'.pages| == |s.pages| && |s'.buckets| == |s.buckets| &&
    forall b :: 0 <= b < |s.buckets| ==> Shorter(s.pages, s'.pages, s.buckets[b], s'.buckets[b], s.cfg.pageSize)
  }

  ghost predicate Shorter(pages: seq<Page>, pages': seq<Page>, xs: seq<nat>, ys: seq<nat>, pageSize: nat)
    requires |pages'| == |pages|
  {
    (TailFull(pages, xs, pageSize) ==> TailFull(pages', ys, pageSize)) &&
    forall q <- ys :: q in xs && (q < |pages| ==> pages'[q] == pages[q])
  }

  lemma ShrinkTidy(s: State, s': State, marks: Marks)
    requires Tidy(s, marks) && Shrinks(s, s')
    ensures Tidy(s', marks)
  {
    forall b | 0 <= b < |s.buckets|
      ensures TailFull(s'.pages, s'.buckets[b], s.cfg.pageSize)
      ensures forall q <- s'.buckets[b] :: q in s.buckets[b] && (q < |s.pages| ==> s'.pages[q] == s.pages[q])
    {
      assert Shorter(s.pages, s'.pages, s.buckets[b], s'.buckets[b], s.cfg.pageSize);
    }
    hide Shorter, TailFull;
    forall t | t in s'.writers
      ensures Looks(s'.writers[t], marks[t], s'.pages, s'.buckets, s.cfg.pageSize)
    {
      assert Looks(s.writers[t], marks[t], s.pages, s.buckets, s.cfg.pageSize);
    }
  }

  lemma NothingShrinks(s: State)
    ensures Shrinks(s, s)
  {
  }

  /** A page that can be given back. */
  ghost predicate Freeable(s: State, p: nat) {
    Shape(s) && BucketsOk(s.pages, s.buckets) && 0 < p < |s.pages| && Idle(s.pages[p]) &&
    s.pages[p].bucket < |s.buckets| && s.pages[p].freeBucket < |s.freeBuckets|
  }

  lemma FreeShrinks(s: State, p: nat)
    requires Freeable(s, p)
    ensures Shrinks(s, FreePage(s, p))
  {
    FreePageEffect(s, p);
    var b0, s' := s.pages[p].bucket, FreePage(s, p);
    hide FreePage, Shape, BucketOk;
    forall b | 0 <= b < |s.buckets|
      ensures Shorter(s.pages, s'.pages, s.buckets[b], s'.buckets[b], s.cfg.pageSize)
    {
      FreedList(s.pages, s'.pages, b, b0, p, s.buckets[b], s'.buckets[b], s.cfg.pageSize);
    }
  }

  lemma FreeableFact(s: State, p: nat)
    requires Inv(s) && p < |s.pages| && !s.pages[p].free && !s.pages[p].active && s.pages[p].refcount == 0
    ensures Freeable(s, p)
  {
    IdleFact(s, p);
  }

  /** Neither the maintenance thread's place nor the mark of a closed page matters. */
  lemma FreeableStill(s: State, s1: State, p: nat)
    requires Freeable(s, p) && s1 == s.(maint := s1.maint, pages := s1.pages)
    requires s1.pages == s.pages || s1.pages == s.pages[p := s.pages[p].(closed := true)]
    ensures Freeable(s1, p)
  {
    assert forall q, b :: OpenIn(s1.pages, q, b) <==> OpenIn(s.pages, q, b);
    forall b | 0 <= b < |s.buckets| ensures BucketOk(s1.pages, b, s1.buckets[b]) {
      assert BucketOk(s.pages, b, s.buckets[b]);
    }
  }

  lemma FreedList(pages: seq<Page>, pages': seq<Page>, b: nat, b0: nat, p: nat, xs: seq<nat>, ys: seq<nat>,
      pageSize: nat)
    requires BucketOk(pages, b, xs) && OpenIn(pages, p, b0) && |pages'| == |pages|
    requires ys == (if b == b0 then RemoveFirst(xs, p) else xs)
    requires forall q :: 0 <= q < |pages| && q != p ==> pages'[q] == pages[q]
    ensures Shorter(pages, pages', xs, ys, pageSize)
  {
    if b != b0 {
      assert p !in xs;
    } else {
      var i := RemovedAt(xs, p);
      CutShorter(pages, pages', xs, i, pageSize);
    }
  }

  lemma CutShorter(pages: seq<Page>, pages': seq<Page>, xs: seq<nat>, i: nat, pageSize: nat)
    requires NoRepeats(xs) && i < |xs| && |pages'| == |pages|
    requires forall q :: 0 <= q < |pages| && q != xs[i] ==> pages'[q] == pages[q]
    ensures Shorter(pages, pages', xs, xs[..i] + xs[i + 1..], pageSize)
  {
    var ys := xs[..i] + xs[i + 1..];
    forall j | 0 <= j < |ys|
      ensures ys[j] in xs && ys[j] != xs[i]
      ensures 0 < j && TailFull(pages, xs, pageSize) ==> Full(pages', ys[j], pageSize)
    {
      var k := if j < i then j else j + 1;
      assert ys[j] == xs[k];
    }
  }

  lemma {:induction false} RemovedAt(xs: seq<nat>, p: nat) returns (i: nat)
    requires p in xs
    ensures i < |xs| && xs[i] == p && RemoveFirst(xs, p) == xs[..i] + xs[i + 1..]
  {
    if xs[0] == p {
      i := 0;
      assert xs[..0] + xs[1..] == xs[1..];
    } else {
      var j := RemovedAt(xs[1..], p);
      i := j + 1;
      CutLater(xs, j);
    }
  }

  lemma CutLater(xs: seq<nat>, j: nat)
    requires j + 1 < |xs|
    ensures [xs[0]] + (xs[1..][..j] + xs[1..][j + 1..]) == xs[..j + 1] + xs[j + 2..]
  {
  }

  // Steps that open no page and end no request's search

  /** Such a step changes places at most by freeing a page. */
  ghost predicate Calm(s: State, s': State) {
    exists m :: Quiet(s, m) && Shrinks(m, s')
  }

  lemma QuietIsCalm(s: State, s': State)
    requires Quiet(s, s')
    ensures Calm(s, s')
  {
    NothingShrinks(s');
  }

  lemma CalmTidy(s: State, s': State, marks: Marks)
    requires Tidy(s, marks) && Calm(s, s')
    ensures Tidy(s', marks)
  {
    hide Tidy, Quiet, Shrinks;
    var m :| Quiet(s, m) && Shrinks(m, s');
    QuietKeeps(s, m, marks);
    ShrinkTidy(m, s', marks);
  }

  lemma MaintVisitCalm(s: State)
    requires Inv(s) && Enabled(s, MaintVisit)
    ensures Calm(s, ApplyMaintVisit(s))
  {
    hide Inv, FreePage, Freeable, Quiet, Shrinks, ApplyMaintVisit, Frees, Seen;
    var i, s1 := s.maint.next, s.(maint := Seen(s));
    VisitIs(s);
    OnlyMaint(s, Seen(s));
    NothingShrinks(s1);
    if Frees(s) {
      FreesFact(s);
      FreeableFact(s, i);
      FreeableStill(s, s1, i);
      FreeShrinks(s1, i);
    }
  }

  lemma FreesFact(s: State)
    requires s.maint.Scanning? && s.maint.next < |s.pages| && Frees(s)
    ensures var g := s.pages[s.maint.next]; !g.free && !g.active && g.refcount == 0
  {
  }

  lemma OnlyMaint(s: State, m: Maint)
    ensures Quiet(s, s.(maint := m))
  {
  }

  lemma MaintEvictCalm(s: State)
    requires Inv(s) && Enabled(s, MaintEvict)
    ensures Calm(s, ApplyMaintEvict(s))
  {
    hide Inv, FreePage, Freeable, Quiet, Shrinks;
    if s.maint.evict && s.maint.low.Some? && !s.pages[s.maint.low.value.page].closed {
      EvictedFact(s);
      var p := s.maint.low.value.page;
      var s1 := SetPage(s, p, s.pages[p].(closed := true)).(maint := Asleep);
      assert SamePlaces(s, s1, p);
      SamePlacesQuiet(s, s1, p);
      NothingShrinks(s1);
      if s.pages[p].refcount == 0 {
        FreeableFact(s, p);
        FreeableStill(s, s1, p);
        FreeShrinks(s1, p);
      }
    } else {
      OnlyMaint(s, Asleep);
      NothingShrinks(s.(maint := Asleep));
    }
  }

  lemma EvictedFact(s: State)
    requires Inv(s) && s.maint.Scanning? && s.maint.low.Some?
    ensures var p := s.maint.low.value.page; p < |s.pages| && !s.pages[p].free && !s.pages[p].active
  {
  }

  /** Does the step leave all searches where they are? */
  predicate Calms(s: State, ev: Event)
    requires Enabled(s, ev)
  {
    !ev.Pick? && !ev.Refill? && (ev.Check? ==> !OutOfRoom(s.pages[s.writers[ev.t].page], s.wbufs, s.cfg.pageSize))
  }

  lemma StepCalm(s: State, ev: Event)
    requires Inv(s) && Enabled(s, ev) && Calms(s, ev)
    ensures Calm(s, Apply(s, ev))
  {
    hide Calm, Quiet, SamePlaces, OutOfRoom, MakeRoom;
    if ev.MaintVisit? {
      MaintVisitCalm(s);
    } else if ev.MaintEvict? {
      MaintEvictCalm(s);
    } else {
      StepQuiet(s, ev);
      QuietIsCalm(s, Apply(s, ev));
    }
  }

  lemma StepQuiet(s: State, ev: Event)
    requires Inv(s) && Enabled(s, ev) && Calms(s, ev) && !ev.MaintVisit? && !ev.MaintEvict?
    ensures Quiet(s, Apply(s, ev))
  {
    hide Inv, Quiet, SamePlaces, OutOfRoom, MakeRoom;
    match ev
    case Check(t) =>
      var Picked(p, b, fb, len) := s.writers[t];
      QuietMakeRoom(s, p, len);
      QuietGrant(MakeRoom(s, p, len), t, p, len);
      QuietThen(s, MakeRoom(s, p, len), ApplyCheck(s, t));
    case Commit(t, data) => QuietCommit(s, t, data);
    case Flushed(io) =>
      QuietFlushed(s, io);
      SamePlacesQuiet(s, Apply(s, ev), s.flushes[io].page);
    case StartRead(r) =>
      QuietStartRead(s, r);
      SamePlacesQuiet(s, Apply(s, ev), s.readIos[r].page);
    case FinishRead(r) =>
      QuietFinishRead(s, r);
      SamePlacesQuiet(s, Apply(s, ev), s.readIos[r].page);
    case Delete(p, version, count, bytes) =>
      QuietDelete(s, p, version, count, bytes);
      SamePlacesQuiet(s, Apply(s, ev), p);
    case Close(p, version) =>
      QuietClose(s, p, version);
      SamePlacesQuiet(s, Apply(s, ev), p);
    case _ => QuietIo(s, ev);
  }

  // Whole runs

  lemma RefillTidy(s: State, t: nat, marks: Marks)
    requires Tidy(s, marks) && t in s.writers && s.writers[t].Refilling? && s.writers[t].bucket < |s.buckets|
    requires AllocateAssertion(s, s.writers[t].bucket)
    ensures var s1 := AllocatePage(s, s.writers[t].bucket, s.writers[t].freeBucket).0;
      Tidy(s1.(writers := s1.writers - {t}), marks)
  {
    var b, fb := s.writers[t].bucket, s.writers[t].freeBucket;
    var (s1, tmp) := AllocatePage(s, b, fb);
    AllocateOpens(s, b, fb);
    hide AllocatePage;
    OpenedTidy(s, s1, b, tmp, marks);
  }

  /** One step: what requests have seen stays full, and so do the pages behind the heads, unless this very
      step fails the assertion. */
  lemma StepTidy(s: State, ev: Event, marks: Marks)
    requires Inv(s) && Tidy(s, marks) && Enabled(s, ev) && !FailsAt(s, ev)
    ensures Tidy(Apply(s, ev), NextMarks(marks, s, ev))
  {
    hide Tidy, Calm, AllocatePage, ApplyPick;
    if Calms(s, ev) {
      StepCalm(s, ev);
      CalmTidy(s, Apply(s, ev), marks);
    } else {
      hide Inv, OutOfRoom;
      match ev
      case Pick(t, b, fb, len) => PickTidy(s, t, b, fb, len, marks);
      case Check(t) =>
        OutOfRoomIsFull(s, s.writers[t].page, s.writers[t].bucket);
        Gives(s, t, Refilling(s.writers[t].bucket, s.writers[t].freeBucket), marks);
      case Refill(t) =>
        RefillingFact(s, t);
        RefillTidy(s, t, marks);
    }
  }

  lemma RefillingFact(s: State, t: nat)
    requires Inv(s) && t in s.writers && s.writers[t].Refilling?
    ensures s.writers[t].bucket < |s.buckets|
  {
    assert WriterOk(s.cfg, s.writers[t], s.pages, s.wbufs);
  }

  /** The marks after a run. */
  ghost function RunMarks(s: State, marks: Marks, evs: seq<Event>): Marks
    requires IsRun(s, evs)
    decreases evs
  {
    if evs == [] then marks else RunMarks(Apply(s, evs[0]), NextMarks(marks, s, evs[0]), evs[1..])
  }

  /** No step of the run fails the assertion. */
  ghost predicate NoFailure(s: State, evs: seq<Event>)
    requires IsRun(s, evs)
    decreases evs
  {
    evs == [] || (!FailsAt(s, evs[0]) && NoFailure(Apply(s, evs[0]), evs[1..]))
  }

  lemma {:induction false} RunTidy(s: State, marks: Marks, evs: seq<Event>)
    requires Inv(s) && Tidy(s, marks) && IsRun(s, evs) && NoFailure(s, evs)
    ensures Inv(Run(s, evs)) && Tidy(Run(s, evs), RunMarks(s, marks, evs))
    decreases evs
  {
    hide Inv, Tidy, Apply, Enabled, FailsAt, NextMarks;
    if evs != [] {
      StepKeeps(s, evs[0]);
      StepTidy(s, evs[0], marks);
      RunTidy(Apply(s, evs[0]), NextMarks(marks, s, evs[0]), evs[1..]);
    }
  }

  /** A page of the bucket was opened since the mark was set, and is not yet fully claimed. */
  ghost predicate OpenedSince(s: State, b: nat, mark: nat)
    requires b < |s.buckets|
  {
    exists q <- s.buckets[b] :: q < |s.pages| && s.pages[q].version >= mark && s.pages[q].claimed < s.cfg.pageSize
  }

  /** When the assertion fails.  After any run from start-up in which it has not failed so far, a request
      that is about to open a page fails it exactly if, since the request was made, another one has opened
      a page on the bucket that is not yet fully claimed. */
  lemma AssertionFailsIff(cfg: Config, fbs: seq<nat>, disk: seq<seq<byte>>, evs: seq<Event>, t: nat)
    requires GoodStart(cfg, fbs, disk) && |fbs| == cfg.pageCount
    requires IsRun(Initial(cfg, fbs, disk), evs) && NoFailure(Initial(cfg, fbs, disk), evs)
    requires Enabled(Run(Initial(cfg, fbs, disk), evs), Refill(t))
    ensures var s, marks := Run(Initial(cfg, fbs, disk), evs), RunMarks(Initial(cfg, fbs, disk), map[], evs);
      t in marks && s.writers[t].bucket < |s.buckets| &&
      (FailsAt(s, Refill(t)) <==> OpenedSince(s, s.writers[t].bucket, marks[t]))
  {
    var s0 := Initial(cfg, fbs, disk);
    InitialOk(cfg, fbs, disk);
    assert Tidy(s0, map[]);
    hide Inv, Initial, IsRun, NoFailure, Run, RunMarks;
    RunTidy(s0, map[], evs);
    var s, marks := Run(s0, evs), RunMarks(s0, map[], evs);
    RefillingFact(s, t);
    TidyFails(s, t, marks);
  }

  lemma TidyFails(s: State, t: nat, marks: Marks)
    requires Inv(s) && Tidy(s, marks) && t in s.writers && s.writers[t].Refilling? && s.writers[t].bucket < |s.buckets|
    ensures FailsAt(s, Refill(t)) <==> OpenedSince(s, s.writers[t].bucket, marks[t])
  {
    var b := s.writers[t].bucket;
    var xs := s.buckets[b];
    assert Looks(s.writers[t], marks[t], s.pages, s.buckets, s.cfg.pageSize);
    assert TailFull(s.pages, xs, s.cfg.pageSize);
    forall q | q in xs
      ensures q < |s.pages| && s.pages[q].claimed <= s.cfg.pageSize
    {
      ListedPage(s, b, q);
    }
    if OpenedSince(s, b, marks[t]) {
      var q :| q in xs && s.pages[q].version >= marks[t] && s.pages[q].claimed < s.cfg.pageSize;
      var j :| 0 <= j < |xs| && xs[j] == q;
      assert j == 0;
    } else if xs != [] {
      assert xs[0] in xs;
    }
  }

  lemma ListedPage(s: State, b: nat, q: nat)
    requires Inv(s) && b < |s.buckets| && q in s.buckets[b]
    ensures q < |s.pages| && s.pages[q].claimed <= s.cfg.pageSize && s.pages[q].version < s.nextVersion
    ensures s.pages[q].bucket == b
  {
    assert BucketOk(s.pages, b, s.buckets[b]);
    assert OpenIn(s.pages, q, b);
    assert PageOk(s.cfg, s.pages[q], s.disk[q], s.wbufs, s.images, s.nextVersion);
  }

  // One writer at a time on each bucket

  ghost predicate Alone(writers: map<nat, Writer>) {
    forall t, u :: t in writers && u in writers && t != u && BucketOf(writers[t]).Some? ==>
      BucketOf(writers[t]) != BucketOf(writers[u])
  }

  /** The caller's rule: no request on a bucket while another is under way on it. */
  ghost predicate OneWriter(s: State, ev: Event) {
    ev.Pick? ==> forall t :: t in s.writers ==> BucketOf(s.writers[t]) != Some(ev.bucket)
  }

  /** Nothing was opened on the request's bucket since it was made. */
  ghost predicate Unmoved(w: Writer, mark: nat, pages: seq<Page>, buckets: seq<seq<nat>>) {
    BucketOf(w).Some? && BucketOf(w).value < |buckets| ==>
      forall q <- buckets[BucketOf(w).value] :: q < |pages| ==> pages[q].version < mark
  }

  ghost predicate Apart(s: State, marks: Marks) {
    Alone(s.writers) && forall t :: t in s.writers ==> t in marks && Unmoved(s.writers[t], marks[t], s.pages, s.buckets)
  }

  lemma CalmApart(s: State, s': State, marks: Marks)
    requires Apart(s, marks) && Calm(s, s')
    ensures Apart(s', marks)
  {
    var m :| Quiet(s, m) && Shrinks(m, s');
    forall t | t in s'.writers
      ensures t in marks && Unmoved(s'.writers[t], marks[t], s'.pages, s'.buckets)
    {
      assert Unmoved(s.writers[t], marks[t], s.pages, s.buckets);
      var o := BucketOf(s'.writers[t]);
      if o.Some? && o.value < |s'.buckets| {
        assert Shorter(m.pages, s'.pages, m.buckets[o.value], s'.buckets[o.value], m.cfg.pageSize);
      }
    }
  }

  /** A page opened on one bucket is on no other. */
  lemma OpenedApart(s: State, s1: State, b: nat, tmp: Option<nat>, w: Writer, mark: nat)
    requires Opens(s, s1, b, tmp) && Unmoved(w, mark, s.pages, s.buckets) && BucketOf(w) != Some(b)
    requires BucketsOk(s1.pages, s1.buckets) && b < |s.buckets|
    ensures Unmoved(w, mark, s1.pages, s1.buckets)
  {
    var o := BucketOf(w);
    if o.Some? && o.value < |s1.buckets| && s1.buckets != s.buckets {
      assert BucketOk(s1.pages, o.value, s1.buckets[o.value]) && BucketOk(s1.pages, b, s1.buckets[b]);
      assert tmp.value in s1.buckets[b];
      assert OpenIn(s1.pages, tmp.value, b);
    }
  }

  lemma PickApart(s: State, t: nat, b: nat, fb: nat, len: nat, marks: Marks)
    requires Inv(s) && Apart(s, marks) && Enabled(s, Pick(t, b, fb, len)) && OneWriter(s, Pick(t, b, fb, len))
    ensures Apart(ApplyPick(s, t, b, fb, len), marks[t := ApplyPick(s, t, b, fb, len).nextVersion])
  {
    StepKeeps(s, Pick(t, b, fb, len));
    var s' := ApplyPick(s, t, b, fb, len);
    hide Inv;
    if b < |s.buckets| && s.buckets[b] == [] {
      hide Apart, ApplyPick;
      PickOpensApart(s, s', t, b, fb, len, marks);
    } else if b < |s.buckets| {
      hide Apart;
      PickHeadApart(s, s', t, Picked(s.buckets[b][0], b, fb, len), marks);
    }
  }

  lemma PickHeadApart(s: State, s': State, t: nat, w: Writer, marks: Marks)
    requires Inv(s') && w.Picked? && s' == s.(writers := s.writers[t := w]) && Apart(s, marks) && t !in s.writers
    requires forall u :: u in s.writers ==> BucketOf(s.writers[u]) != Some(w.bucket)
    ensures Apart(s', marks[t := s'.nextVersion])
  {
    hide Inv, Unmoved;
    NewUnmoved(s', t, w.bucket);
  }

  lemma PickOpensApart(s: State, s': State, t: nat, b: nat, fb: nat, len: nat, marks: Marks)
    requires Inv(s') && s' == ApplyPick(s, t, b, fb, len) && Apart(s, marks) && t !in s.writers
    requires OneWriter(s, Pick(t, b, fb, len)) && b < |s.buckets| && s.buckets[b] == []
    ensures Apart(s', marks[t := s'.nextVersion])
  {
    hide Inv, ApplyPick, Opens, BucketsOk, Unmoved, AllocatePage;
    PickOpens(s, t, b, fb, len);
    ListsFact(s');
    var (s1, tmp) := AllocatePage(s, b, fb);
    forall u | u in s.writers
      ensures Unmoved(s.writers[u], marks[u], s1.pages, s1.buckets)
    {
      OpenedApart(s, s1, b, tmp, s.writers[u], marks[u]);
    }
    if t in s'.writers { NewUnmoved(s', t, b); }
  }

  lemma PickOpens(s: State, t: nat, b: nat, fb: nat, len: nat)
    requires b < |s.buckets| && s.buckets[b] == [] && t !in s.writers
    ensures var (s1, tmp), s' := AllocatePage(s, b, fb), ApplyPick(s, t, b, fb, len);
      Opens(s, s1, b, tmp) && s'.pages == s1.pages && s'.buckets == s1.buckets && s'.nextVersion == s1.nextVersion &&
      s'.writers == if tmp.Some? then s.writers[t := Picked(tmp.value, b, fb, len)] else s.writers
  {
    AllocateOpens(s, b, fb);
    var (s1, tmp) := AllocatePage(s, b, fb);
    hide AllocatePage;
    assert s1.writers == s.writers;
    if tmp.Some? {
      assert ApplyPick(s, t, b, fb, len) == s1.(writers := s1.writers[t := Picked(tmp.value, b, fb, len)]);
    } else {
      assert ApplyPick(s, t, b, fb, len) == s1;
    }
  }

  lemma ListsFact(s: State)
    requires Inv(s)
    ensures BucketsOk(s.pages, s.buckets)
  {
  }

  /** Whatever is on the bucket's list has been given a version already. */
  lemma NewUnmoved(s: State, t: nat, b: nat)
    requires Inv(s) && t in s.writers && s.writers[t].Picked? && s.writers[t].bucket == b
    ensures Unmoved(s.writers[t], s.nextVersion, s.pages, s.buckets)
  {
    hide Inv;
    if b < |s.buckets| {
      forall q | q in s.buckets[b]
        ensures q < |s.pages| && s.pages[q].version < s.nextVersion
      {
        ListedPage(s, b, q);
      }
    }
  }

  lemma RefillApart(s: State, t: nat, marks: Marks)
    requires Inv(s) && Apart(s, marks) && Enabled(s, Refill(t))
    ensures Apart(Apply(s, Refill(t)), marks)
  {
    var b, fb, s' := s.writers[t].bucket, s.writers[t].freeBucket, Apply(s, Refill(t));
    StepKeeps(s, Refill(t));
    RefillingFact(s, t);
    var (s1, tmp) := AllocatePage(s, b, fb);
    AllocateOpens(s, b, fb);
    hide AllocatePage;
    ListsFact(s');
    hide Inv, Opens, BucketsOk, Unmoved;
    forall u | u in s'.writers
      ensures Unmoved(s.writers[u], marks[u], s1.pages, s1.buckets)
    {
      OpenedApart(s, s1, b, tmp, s.writers[u], marks[u]);
    }
  }

  lemma StepApart(s: State, ev: Event, marks: Marks)
    requires Inv(s) && Apart(s, marks) && Enabled(s, ev) && OneWriter(s, ev)
    ensures Apart(Apply(s, ev), NextMarks(marks, s, ev))
  {
    if Calms(s, ev) {
      StepCalm(s, ev);
      hide Calm, Apart, Apply;
      CalmApart(s, Apply(s, ev), marks);
    } else {
      hide Inv, OutOfRoom, AllocatePage;
      if ev.Pick? {
        hide Apart;
        PickApart(s, ev.t, ev.bucket, ev.freeBucket, ev.len, marks);
      } else if ev.Refill? {
        hide Apart;
        RefillApart(s, ev.t, marks);
      } else {
        hide Apart;
        CheckApart(s, ev.t, marks);
      }
    }
  }

  /** The request has found its page full, and goes on to open another. */
  lemma CheckApart(s: State, t: nat, marks: Marks)
    requires Apart(s, marks) && Enabled(s, Check(t))
    requires OutOfRoom(s.pages[s.writers[t].page], s.wbufs, s.cfg.pageSize)
    ensures Apart(Apply(s, Check(t)), marks)
  {
    hide OutOfRoom, MakeRoom;
    var w := s.writers[t];
    assert Apply(s, Check(t)) == s.(writers := s.writers[t := Refilling(w.bucket, w.freeBucket)]);
    hide Apply, Enabled;
  }

  /** A run in which no request is made on a bucket while another is under way on it. */
  ghost predicate OneWriterRun(s: State, evs: seq<Event>)
    requires IsRun(s, evs)
    decreases evs
  {
    evs == [] || (OneWriter(s, evs[0]) && OneWriterRun(Apply(s, evs[0]), evs[1..]))
  }

  lemma ApartNeverFails(s: State, ev: Event, marks: Marks)
    requires Inv(s) && Tidy(s, marks) && Apart(s, marks) && Enabled(s, ev)
    ensures !FailsAt(s, ev)
  {
    if ev.Refill? {
      RefillingFact(s, ev.t);
      TidyFails(s, ev.t, marks);
      assert Unmoved(s.writers[ev.t], marks[ev.t], s.pages, s.buckets);
    }
  }

  lemma {:induction false} OneWriterSucceeds(s: State, marks: Marks, evs: seq<Event>)
    requires Inv(s) && Tidy(s, marks) && Apart(s, marks) && IsRun(s, evs) && OneWriterRun(s, evs)
    ensures NoFailure(s, evs)
    decreases evs
  {
    hide Inv, Tidy, Apart, Apply, Enabled, OneWriter, FailsAt, NextMarks;
    if evs != [] {
      ApartNeverFails(s, evs[0], marks);
      StepKeeps(s, evs[0]);
      StepTidy(s, evs[0], marks);
      StepApart(s, evs[0], marks);
      OneWriterSucceeds(Apply(s, evs[0]), NextMarks(marks, s, evs[0]), evs[1..]);
    }
  }

  /** From start-up on, with one request at a time on each bucket, the assertion never fails. */
  lemma AllocationIsAsserted(cfg: Config, fbs: seq<nat>, disk: seq<seq<byte>>, evs: seq<Event>)
    requires GoodStart(cfg, fbs, disk) && |fbs| == cfg.pageCount
    requires IsRun(Initial(cfg, fbs, disk), evs) && OneWriterRun(Initial(cfg, fbs, disk), evs)
    ensures NoFailure(Initial(cfg, fbs, disk), evs)
  {
    var s0 := Initial(cfg, fbs, disk);
    InitialOk(cfg, fbs, disk);
    assert Tidy(s0, map[]) && Apart(s0, map[]);
    hide Inv, Initial, IsRun, OneWriterRun, NoFailure;
    OneWriterSucceeds(s0, map[], evs);
  }
}
