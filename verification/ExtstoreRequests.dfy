/** What a request to the storage engine comes to: which page it gets, when it is granted, and that a page once closed
    is never read again. */
module ExtstoreRequests {
  import opened Basics
  import opened Extstore
  import opened ExtstoreInv
  import opened ExtstoreRuns
  import opened ExtstoreTheorems
  import opened ExtstoreMaint
  import opened ExtstoreAccounts

  // Opening a page

  /** The page that an allocation gets: from the special list asked for, if it has one, or from the common list. */
  function FirstFree(s: State, freeBucket: nat): Option<nat> {
    if freeBucket != 0 && freeBucket < |s.freeBuckets| && s.freeBuckets[freeBucket] != []
    then Some(s.freeBuckets[freeBucket][0])
    else if s.freeList != [] then Some(s.freeList[0])
    else None
  }

  /** It becomes the head of its bucket, active, open and under the next version; no other page changes, and without
      a free page nothing does. */
  lemma AllocationGets(s: State, bucket: nat, freeBucket: nat)
    requires Inv(s) && bucket < |s.buckets| && freeBucket < |s.freeBuckets|
    ensures var (s', p) := AllocatePage(s, bucket, freeBucket);
      p == FirstFree(s, freeBucket) &&
      if p.None? then s' == s
      else
        p.value < |s.pages| && s.pages[p.value].free && |s'.pages| == |s.pages| &&
        s'.buckets == s.buckets[bucket := [p.value] + s.buckets[bucket]] && s'.pageFree == s.pageFree - 1 &&
        s'.nextVersion == s.nextVersion + 1 &&
        s'.pages == s.pages[p.value := s.pages[p.value].(active := true, free := false, closed := false,
                                                         version := s.nextVersion, bucket := bucket)]
  {
    var p := FirstFree(s, freeBucket);
    if p.Some? {
      FreePagesCount(s, freeBucket);
    }
    hide Inv;
    var (s1, tmp) := PopFree(s, freeBucket);
    assert tmp == p && s1 == s.(freeList := s1.freeList, freeBuckets := s1.freeBuckets);
    hide PopFree;
  }

  lemma FreePagesCount(s: State, freeBucket: nat)
    requires Inv(s) && freeBucket < |s.freeBuckets| && FirstFree(s, freeBucket).Some?
    ensures var p := FirstFree(s, freeBucket).value; p < |s.pages| && s.pages[p].free && s.pageFree > 0
  {
    assert ListsOk(s.pages, s.freeList, s.freeBuckets, s.buckets, s.pageFree);
    if freeBucket != 0 && s.freeBuckets[freeBucket] != [] {
      var p := s.freeBuckets[freeBucket][0];
      assert p in s.freeBuckets[freeBucket];
      assert FreeIn(s.pages, p, freeBucket);
      PartOfSum(s.freeBuckets, freeBucket);
    } else {
      assert s.freeList[0] in s.freeList;
      assert FreeIn(s.pages, s.freeList[0], 0);
    }
  }

  lemma {:induction false} PartOfSum(xss: seq<seq<nat>>, i: nat)
    requires i < |xss|
    ensures |xss[i]| <= SumLen(xss)
  {
    if i > 0 {
      PartOfSum(xss[1..], i - 1);
    }
  }

  /** A request takes the newest page of its bucket, opening one only where there is none, and is refused if the
      bucket does not exist or no page is free. */
  lemma PickGets(s: State, t: nat, bucket: nat, freeBucket: nat, len: nat)
    requires Inv(s) && Enabled(s, Pick(t, bucket, freeBucket, len))
    ensures var s' := Apply(s, Pick(t, bucket, freeBucket, len));
      if bucket >= |s.buckets| then s' == s
      else
        var p := if s.buckets[bucket] != [] then Some(s.buckets[bucket][0]) else FirstFree(s, freeBucket);
        s'.writers == (if p.Some? then s.writers[t := Picked(p.value, bucket, freeBucket, len)] else s.writers) &&
        (s.buckets[bucket] != [] ==> s'.pages == s.pages && s'.buckets == s.buckets)
  {
    hide AllocatePage, Inv;
    if bucket < |s.buckets| && s.buckets[bucket] == [] {
      AllocationGets(s, bucket, freeBucket);
      AllocationKeepsWriters(s, bucket, freeBucket);
    }
  }

  lemma AllocationKeepsWriters(s: State, bucket: nat, freeBucket: nat)
    ensures AllocatePage(s, bucket, freeBucket).0.writers == s.writers
  {
    if bucket < |s.buckets| && freeBucket < |s.freeBuckets| {
      var (s1, tmp) := PopFree(s, freeBucket);
      assert s1 == s.(freeList := s1.freeList, freeBuckets := s1.freeBuckets);
      hide PopFree;
    }
  }

  // Granting a write

  /** The page has a buffer with room for the object, or can be given one. */
  ghost predicate HasRoom(s: State, p: nat, len: nat)
    requires p < |s.pages|
  {
    var g := s.pages[p];
    if HasWbuf(g, s.wbufs) then !WbufOf(g, s.wbufs).full && len <= WbufOf(g, s.wbufs).free
    else g.claimed < s.cfg.pageSize && s.wbufStack != [] && len <= s.cfg.wbufSize
  }

  /** The page takes no more data: it is completely written, or its last buffer is on its way. */
  ghost predicate UsedUp(s: State, p: nat)
    requires p < |s.pages|
  {
    var g := s.pages[p];
    !g.active || (g.claimed == s.cfg.pageSize && (HasWbuf(g, s.wbufs) ==> WbufOf(g, s.wbufs).full))
  }

  /** A request for a page that is used up goes on to open another; otherwise it is granted exactly if the page has
      room for it, and given up if not. */
  lemma CheckDecides(s: State, t: nat)
    requires Inv(s) && Enabled(s, Check(t))
    ensures var Picked(p, bucket, freeBucket, len) := s.writers[t];
      var s' := Apply(s, Check(t));
      if UsedUp(s, p) then s' == s.(writers := s.writers[t := Refilling(bucket, freeBucket)])
      else if HasRoom(s, p, len) then
        t in s'.writers && s'.writers[t].Granted? && s'.writers[t].page == p && s'.writers[t].len == len
      else s'.writers == s.writers - {t}
  {
    var p, len := s.writers[t].page, s.writers[t].len;
    PageFact(s, p);
    StackFact(s);
    hide Inv;
    assert OutOfRoom(s.pages[p], s.wbufs, s.cfg.pageSize) <==> UsedUp(s, p);
    if !UsedUp(s, p) {
      RoomMade(s, p, len);
      hide MakeRoom, UsedUp, HasRoom, OutOfRoom;
    }
  }

  lemma PageFact(s: State, p: nat)
    requires Inv(s) && p < |s.pages|
    ensures s.pages[p].claimed <= s.cfg.pageSize && (s.pages[p].wbuf.Some? ==> HasWbuf(s.pages[p], s.wbufs))
    ensures HasWbuf(s.pages[p], s.wbufs) ==> WbufOf(s.pages[p], s.wbufs).free <= |WbufOf(s.pages[p], s.wbufs).buf|
  {
    assert PageOk(s.cfg, s.pages[p], s.disk[p], s.wbufs, s.images, s.nextVersion);
  }

  lemma StackFact(s: State)
    requires Inv(s)
    ensures s.wbufStack != [] ==> s.wbufStack[0] < |s.wbufs|
  {
    assert WbufsOk(s.pages, s.wbufStack, s.cfg.wbufCount);
    if s.wbufStack != [] { assert s.wbufStack[0] in s.wbufStack; }
  }

  lemma RoomMade(s: State, p: nat, len: nat)
    requires p < |s.pages| && (s.pages[p].wbuf.Some? ==> HasWbuf(s.pages[p], s.wbufs))
    requires s.wbufStack != [] ==> s.wbufStack[0] < |s.wbufs|
    ensures var s' := MakeRoom(s, p, len);
      s'.writers == s.writers && (Fits(s'.pages[p], s'.wbufs, len) <==> HasRoom(s, p, len))
  {
    var g := s.pages[p];
    if g.wbuf.Some? {
      if WbufOf(g, s.wbufs).free < len && !WbufOf(g, s.wbufs).full {
        ShippedIs(s, p, len);
        SubmitKeepsPages(s, p);
        hide SubmitWbuf, AllocateWbuf;
        assert MakeRoom(s, p, len) == SubmitWbuf(s, p);
      } else {
        hide SubmitWbuf, AllocateWbuf;
        assert MakeRoom(s, p, len) == s;
      }
    } else if g.claimed < s.cfg.pageSize {
      AttachedIs(s, p);
      hide SubmitWbuf, AllocateWbuf;
      assert MakeRoom(s, p, len) == AllocateWbuf(s, p);
    } else {
      hide SubmitWbuf, AllocateWbuf;
      assert MakeRoom(s, p, len) == s;
    }
  }

  lemma ShippedIs(s: State, p: nat, len: nat)
    requires p < |s.pages| && HasWbuf(s.pages[p], s.wbufs) && WbufOf(s.pages[p], s.wbufs).free < len
    ensures !Fits(s.pages[p], SubmitWbuf(s, p).wbufs, len)
  {
    hide Splice, Zeros;
    var w, s' := s.pages[p].wbuf.value, SubmitWbuf(s, p);
    assert s'.wbufs == s.wbufs || s'.wbufs == s.wbufs[w := s'.wbufs[w]];
  }

  lemma AttachedIs(s: State, p: nat)
    requires p < |s.pages| && s.pages[p].wbuf.None? && (s.wbufStack != [] ==> s.wbufStack[0] < |s.wbufs|)
    ensures var s' := AllocateWbuf(s, p);
      s'.writers == s.writers && |s'.pages| == |s.pages| &&
      if s.wbufStack == [] then s'.pages[p].wbuf.None?
      else HasWbuf(s'.pages[p], s'.wbufs) && !WbufOf(s'.pages[p], s'.wbufs).full &&
           WbufOf(s'.pages[p], s'.wbufs).free == s.cfg.wbufSize
  {
    var s' := AllocateWbuf(s, p);
    if s.wbufStack != [] {
      var w, g := s.wbufStack[0], s.pages[p];
      var b := s.wbufs[w].(offset := g.claimed, free := s.cfg.wbufSize, bufPos := 0, full := false);
      assert s' == s.(wbufs := s.wbufs[w := b], wbufStack := s.wbufStack[1..],
                      pages := s.pages[p := g.(claimed := g.claimed + s.cfg.wbufSize, wbuf := Some(w))]);
    }
  }

  // Closed pages

  /** Nothing can be read under this version of this page any more. */
  ghost predicate Gone(s: State, p: nat, version: nat) {
    p < |s.pages| && version < s.nextVersion && !Readable(s.pages[p], version)
  }

  lemma CloseEnds(s: State, p: nat, version: nat)
    requires p < |s.pages| && version < s.nextVersion
    ensures Gone(ApplyClose(s, p, version), p, version)
  {
    var s' := ApplyClose(s, p, version);
    assert s' == s || s' == s.(pages := s.pages[p := s.pages[p].(closed := true)]);
  }

  /** No step brings it back: a page is only ever opened again under a version that was never used. */
  lemma StaysGone(s: State, ev: Event, p: nat, version: nat)
    requires Inv(s) && Enabled(s, ev) && Gone(s, p, version)
    ensures Gone(Apply(s, ev), p, version)
  {
    hide Inv, Apply, Enabled;
    if ev.Commit? {
      CommitSpares(s, ev.t, ev.data, p);
    } else if ev.Delete? {
      DeleteSpares(s, ev, p);
    } else {
      QuietAccounts(s, ev);
    }
  }

  lemma CommitSpares(s: State, t: nat, data: seq<byte>, p: nat)
    requires Inv(s) && Enabled(s, Commit(t, data)) && p < |s.pages|
    ensures var s' := Apply(s, Commit(t, data));
      |s'.pages| == |s.pages| && s'.nextVersion == s.nextVersion && s'.pages[p].free == s.pages[p].free &&
      s'.pages[p].closed == s.pages[p].closed && s'.pages[p].version == s.pages[p].version
  {
    hide Inv, ApplyCommit;
    CommitEffect(s, t, data);
  }

  lemma DeleteSpares(s: State, ev: Event, p: nat)
    requires ev.Delete? && Enabled(s, ev) && p < |s.pages|
    ensures var s' := Apply(s, ev);
      |s'.pages| == |s.pages| && s'.nextVersion == s.nextVersion && s'.pages[p].free == s.pages[p].free &&
      s'.pages[p].closed == s.pages[p].closed && s'.pages[p].version == s.pages[p].version
  {
    hide ApplyDelete;
    DeletedSpares(s, ev.page, ev.version, ev.count, ev.bytes, p);
  }

  lemma DeletedSpares(s: State, q: nat, version: nat, count: nat, bytes: nat, p: nat)
    requires q < |s.pages| && p < |s.pages|
    ensures var s' := ApplyDelete(s, q, version, count, bytes);
      |s'.pages| == |s.pages| && s'.nextVersion == s.nextVersion && s'.pages[p].free == s.pages[p].free &&
      s'.pages[p].closed == s.pages[p].closed && s'.pages[p].version == s.pages[p].version
  {
    var s' := ApplyDelete(s, q, version, count, bytes);
    assert s' == s.(pages := s'.pages, bytesUsed := s'.bytesUsed, objectsUsed := s'.objectsUsed);
    assert s'.pages == s.pages || s'.pages == s.pages[q := s'.pages[q]];
  }

  lemma {:induction false} GoneForever(s: State, evs: seq<Event>, p: nat, version: nat)
    requires Inv(s) && IsRun(s, evs) && Gone(s, p, version)
    ensures Inv(Run(s, evs)) && Gone(Run(s, evs), p, version)
    decreases evs
  {
    hide Inv, Apply, Enabled, Gone;
    if evs != [] {
      StepKeeps(s, evs[0]);
      StaysGone(s, evs[0], p, version);
      GoneForever(Apply(s, evs[0]), evs[1..], p, version);
    }
  }

  /** After a page was closed, whatever happens: a read under the version that it had is a miss. */
  lemma ClosedIsMissed(s: State, p: nat, version: nat, evs: seq<Event>, r: nat)
    requires Inv(s) && Enabled(s, Close(p, version)) && version < s.nextVersion
    requires IsRun(Apply(s, Close(p, version)), evs)
    requires var d := Run(Apply(s, Close(p, version)), evs);
      Enabled(d, StartRead(r)) && d.readIos[r].page == p && d.readIos[r].version == version
    ensures var d := Run(Apply(s, Close(p, version)), evs);
      var q := Apply(d, StartRead(r)).readIos[r];
      q.Done? && q.result.None?
  {
    var s1 := Apply(s, Close(p, version));
    StepKeeps(s, Close(p, version));
    CloseEnds(s, p, version);
    hide Inv, IsRun, Run;
    GoneForever(s1, evs, p, version);
    MissedIs(Run(s1, evs), r);
  }

  lemma MissedIs(s: State, r: nat)
    requires Enabled(s, StartRead(r)) && !Readable(s.pages[s.readIos[r].page], s.readIos[r].version)
    ensures var q := Apply(s, StartRead(r)).readIos[r];
      q.Done? && q.result.None?
  {
    assert Apply(s, StartRead(r)).readIos ==
      s.readIos[r := Done(s.readIos[r].page, s.readIos[r].version, s.readIos[r].off, s.readIos[r].len, None)];
  }
}
