/** The external storage engine: a log-structured store of fixed-size pages that worker
    threads, IO threads and one maintenance thread share.

    The state holds every field those threads read or write, plus the local state each thread
    carries between two critical sections.  An event is one critical section, one piece of a
    `pwrite` or `pread`, or a caller's request; a run is any sequence of enabled events. */
module Extstore {
  import opened Basics

  /** `page_size`, `wbuf_size`, `wbuf_count`, `page_buckets` and the page count. */
  datatype Config = Config(pageSize: nat, wbufSize: nat, wbufCount: nat, bucketCount: nat, pageCount: nat) {
    ghost predicate Ok() {
      0 < wbufSize <= pageSize && pageSize % wbufSize == 0 && 0 < bucketCount <= wbufCount
    }
  }

  /** A page.  `held` says that a writer kept the page mutex between a granted write request
      and the write that follows it. */
  datatype Page = Page(
    version: nat, refcount: nat, claimed: nat, written: nat, bucket: nat, freeBucket: nat,
    active: bool, closed: bool, free: bool, wbuf: Option<nat>, objCount: nat, bytesUsed: nat,
    held: bool)

  /** A write buffer.  `offset` is the place in the page where it will land. */
  datatype Wbuf = Wbuf(buf: seq<byte>, bufPos: nat, free: nat, offset: nat, full: bool)

  /** A write IO on its way to the disk, and which of its bytes have landed; they do so in any order. */
  datatype Flush = Flush(page: nat, wbuf: nat, offset: nat, landed: set<nat>)

  /** What a writer remembers between the critical sections of one write request. */
  datatype Writer =
    | Picked(page: nat, bucket: nat, freeBucket: nat, len: nat)
    | Refilling(bucket: nat, freeBucket: nat)
    | Granted(page: nat, at: nat, len: nat)

  datatype Read =
    | Queued(page: nat, version: nat, off: nat, len: nat)
    | Reading(page: nat, version: nat, off: nat, len: nat, got: seq<byte>)
    | Done(page: nat, version: nat, off: nat, len: nat, result: Option<seq<byte>>)

  datatype Low = Low(page: nat, version: nat)

  /** The maintenance thread: waiting, or about to visit page `next`. */
  datatype Maint = Asleep | Scanning(next: nat, evict: bool, low: Option<Low>)

  /** What a caller keeps in order to read an object back. */
  datatype Handle = Handle(page: nat, version: nat, off: nat)

  /** `images` and `objects` are history: the logical contents of every page version ever
      opened, and every object ever stored.  No step reads them.  `fault` is set where the
      source would fail an assertion or follow a null or stray pointer; the one assertion that depends
      on how callers share buckets, `AllocateAssertion`, is stated apart. */
  datatype State = State(
    cfg: Config,
    pages: seq<Page>, wbufs: seq<Wbuf>, disk: seq<seq<byte>>,
    wbufStack: seq<nat>, ioStack: seq<nat>,
    freeList: seq<nat>, freeBuckets: seq<seq<nat>>, buckets: seq<seq<nat>>,
    nextVersion: nat, pageFree: nat, objectsUsed: int, bytesUsed: int,
    flushes: map<nat, Flush>, writers: map<nat, Writer>, readIos: map<nat, Read>, maint: Maint,
    images: map<nat, seq<byte>>, objects: map<Handle, seq<byte>>,
    fault: bool)

  datatype Event =
    | Pick(t: nat, bucket: nat, freeBucket: nat, len: nat)
    | Check(t: nat)
    | Refill(t: nat)
    | Commit(t: nat, data: seq<byte>)
    | PwriteSome(io: nat, at: nat, k: nat)
    | Flushed(io: nat)
    | SubmitRead(r: nat, page: nat, version: nat, off: nat, len: nat)
    | StartRead(r: nat)
    | PreadSome(r: nat, k: nat)
    | FinishRead(r: nat)
    | Delete(page: nat, version: nat, count: nat, bytes: nat)
    | Close(page: nat, version: nat)
    | MaintWake
    | MaintVisit
    | MaintEvict

  function Zeros(n: nat): (z: seq<byte>)
    ensures |z| == n && forall i :: 0 <= i < n ==> z[i] == 0
  {
    seq(n, _ => 0)
  }

  /** `bytes` laid over `mem` at `at`. */
  function Splice(mem: seq<byte>, at: nat, bytes: seq<byte>): (r: seq<byte>)
    requires at + |bytes| <= |mem|
    ensures |r| == |mem|
    ensures r[..at] == mem[..at] && r[at..at + |bytes|] == bytes && r[at + |bytes|..] == mem[at + |bytes|..]
  {
    mem[..at] + bytes + mem[at + |bytes|..]
  }

  function RemoveFirst(xs: seq<nat>, x: nat): seq<nat> {
    if xs == [] then [] else if xs[0] == x then xs[1..] else [xs[0]] + RemoveFirst(xs[1..], x)
  }

  function SetPage(s: State, p: nat, g: Page): State
    requires p < |s.pages|
  {
    s.(pages := s.pages[p := g])
  }

  function SetWbuf(s: State, w: nat, b: Wbuf): State
    requires w < |s.wbufs|
  {
    s.(wbufs := s.wbufs[w := b])
  }

  /** The free page an allocation would take, and the lists without it. */
  function PopFree(s: State, freeBucket: nat): (r: (State, Option<nat>))
    requires freeBucket < |s.freeBuckets|
  {
    if freeBucket != 0 && s.freeBuckets[freeBucket] != [] then
      (s.(freeBuckets := s.freeBuckets[freeBucket := s.freeBuckets[freeBucket][1..]]),
       Some(s.freeBuckets[freeBucket][0]))
    else if s.freeList != [] then
      (s.(freeList := s.freeList[1..]), Some(s.freeList[0]))
    else
      (s, None)
  }

  /** `_allocate_page`: opens a free page at the head of a bucket, under a new version. */
  function AllocatePage(s: State, bucket: nat, freeBucket: nat): (r: (State, Option<nat>))
  {
    if bucket >= |s.buckets| || freeBucket >= |s.freeBuckets| then (s.(fault := true), None)
    else
    var (s1, tmp) := PopFree(s, freeBucket);
    if s.pageFree > 0 && tmp.Some? && tmp.value < |s.pages| then (OpenPage(s1, tmp.value, bucket), tmp)
    else (s1, tmp)
  }

  /** Puts a free page at the head of a bucket and starts an empty image for its new version. */
  function OpenPage(s: State, p: nat, bucket: nat): State
    requires p < |s.pages| && bucket < |s.buckets| && s.pageFree > 0
  {
    SetPage(s, p, s.pages[p].(active := true, free := false, closed := false,
                              version := s.nextVersion, bucket := bucket))
      .(buckets := s.buckets[bucket := [p] + s.buckets[bucket]],
        nextVersion := s.nextVersion + 1,
        pageFree := s.pageFree - 1,
        images := s.images[s.nextVersion := []])
  }

  /** The assertion at the head of `_allocate_page`. */
  predicate AllocateAssertion(s: State, bucket: nat)
    requires bucket < |s.buckets|
  {
    s.buckets[bucket] == [] ||
    (s.buckets[bucket][0] < |s.pages| && s.pages[s.buckets[bucket][0]].claimed == s.cfg.pageSize)
  }

  /** `_allocate_wbuf`: attaches a buffer from the stack, if there is one. */
  function AllocateWbuf(s: State, p: nat): (s': State)
    requires p < |s.pages|
    ensures s'.images == s.images && s'.objects == s.objects && s'.cfg == s.cfg
  {
    if s.wbufStack == [] then s
    else
      var w := s.wbufStack[0];
      if w >= |s.wbufs| then s.(fault := true)
      else
        var g := s.pages[p];
        var s1 := SetWbuf(s, w, s.wbufs[w].(offset := g.claimed, free := s.cfg.wbufSize, bufPos := 0, full := false));
        SetPage(s1, p, g.(claimed := g.claimed + s.cfg.wbufSize, wbuf := Some(w)))
          .(wbufStack := s.wbufStack[1..])
  }

  /** `_submit_wbuf`, with the `full` mark its caller sets: zeroes the unused tail and ships the
      buffer.  Popping an empty IO stack is a null dereference. */
  function SubmitWbuf(s: State, p: nat): State
    requires p < |s.pages| && s.pages[p].wbuf.Some?
  {
    var w := s.pages[p].wbuf.value;
    if s.ioStack == [] || w >= |s.wbufs| || s.wbufs[w].free > |s.wbufs[w].buf| then s.(fault := true)
    else
      var b := s.wbufs[w];
      var io := s.ioStack[0];
      var v := s.pages[p].version;
      SetWbuf(s, w, b.(buf := Splice(b.buf, |b.buf| - b.free, Zeros(b.free)), full := true))
        .(ioStack := s.ioStack[1..],
          flushes := s.flushes[io := Flush(p, w, b.offset, {})],
          images := if v in s.images then s.images[v := s.images[v] + Zeros(b.free)] else s.images)
  }

  /** `_free_page`, first half: the page leaves the totals and its bucket. */
  function LeaveBucket(s: State, p: nat): (s': State)
    requires p < |s.pages| && s.pages[p].bucket < |s.buckets|
    ensures s'.images == s.images && s'.objects == s.objects && s'.cfg == s.cfg && s'.pages == s.pages
            && s'.freeBuckets == s.freeBuckets
  {
    var g := s.pages[p];
    s.(objectsUsed := s.objectsUsed - g.objCount,
       bytesUsed := s.bytesUsed - g.bytesUsed,
       buckets := s.buckets[g.bucket := RemoveFirst(s.buckets[g.bucket], p)])
  }

  /** Second half: every field is reset and the page goes back to the list it came from. */
  function BackToFree(s: State, p: nat): (s': State)
    requires p < |s.pages| && s.pages[p].freeBucket < |s.freeBuckets|
    ensures s'.images == s.images && s'.objects == s.objects && s'.cfg == s.cfg
  {
    var g := s.pages[p];
    var s1 := SetPage(s, p, g.(version := 0, objCount := 0, bytesUsed := 0, claimed := 0, written := 0,
                               bucket := 0, active := false, closed := false, free := true))
                .(pageFree := s.pageFree + 1);
    if g.freeBucket != 0 then
      s1.(freeBuckets := s1.freeBuckets[g.freeBucket := [p] + s1.freeBuckets[g.freeBucket]])
    else
      s1.(freeList := [p] + s1.freeList)
  }

  function FreePage(s: State, p: nat): (s': State)
    requires p < |s.pages|
    ensures s'.images == s.images && s'.objects == s.objects && s'.cfg == s.cfg
  {
    if s.pages[p].bucket >= |s.buckets| || s.pages[p].freeBucket >= |s.freeBuckets| then s.(fault := true)
    else BackToFree(LeaveBucket(s, p), p)
  }

  /** First critical section of `extstore_write_request`: take the head of the bucket, or open
      a page for it.  A bad bucket or a full store ends the request. */
  function ApplyPick(s: State, t: nat, bucket: nat, freeBucket: nat, len: nat): State
  {
    if bucket >= |s.buckets| then s
    else if s.buckets[bucket] != [] then
      s.(writers := s.writers[t := Picked(s.buckets[bucket][0], bucket, freeBucket, len)])
    else
      var (s1, tmp) := AllocatePage(s, bucket, freeBucket);
      if tmp.None? then s1
      else s1.(writers := s1.writers[t := Picked(tmp.value, bucket, freeBucket, len)])
  }

  /** Does the page hold a buffer, through a good pointer? */
  predicate HasWbuf(g: Page, wbufs: seq<Wbuf>) {
    g.wbuf.Some? && g.wbuf.value < |wbufs|
  }

  function WbufOf(g: Page, wbufs: seq<Wbuf>): Wbuf
    requires HasWbuf(g, wbufs)
  {
    wbufs[g.wbuf.value]
  }

  predicate OutOfRoom(g: Page, wbufs: seq<Wbuf>, pageSize: nat) {
    !g.active || ((!HasWbuf(g, wbufs) || WbufOf(g, wbufs).full) && g.claimed >= pageSize)
  }

  /** Ship the current buffer when the object does not fit in it; attach one when there is none. */
  function MakeRoom(s: State, p: nat, len: nat): (s': State)
    requires p < |s.pages|
    ensures |s'.pages| == |s.pages|
  {
    var g := s.pages[p];
    var s1 :=
      if HasWbuf(g, s.wbufs) && WbufOf(g, s.wbufs).free < len && !WbufOf(g, s.wbufs).full then SubmitWbuf(s, p) else s;
    if s1.pages[p].wbuf.None? && s1.pages[p].claimed < s1.cfg.pageSize then AllocateWbuf(s1, p) else s1
  }

  predicate Fits(g: Page, wbufs: seq<Wbuf>, len: nat) {
    HasWbuf(g, wbufs) && !WbufOf(g, wbufs).full && WbufOf(g, wbufs).free >= len
  }

  /** Second critical section, under the page mutex, which a grant keeps held. */
  function ApplyCheck(s: State, t: nat): State
    requires t in s.writers && s.writers[t].Picked? && s.writers[t].page < |s.pages|
  {
    var Picked(p, bucket, freeBucket, len) := s.writers[t];
    if OutOfRoom(s.pages[p], s.wbufs, s.cfg.pageSize) then
      s.(writers := s.writers[t := Refilling(bucket, freeBucket)])
    else
      GrantOrReturn(MakeRoom(s, p, len), t, p, len)
  }

  /** Hand over the place to copy to and keep the page locked, or give up. */
  function GrantOrReturn(s: State, t: nat, p: nat, len: nat): State
    requires p < |s.pages|
  {
    if Fits(s.pages[p], s.wbufs, len) then
      SetPage(s, p, s.pages[p].(held := true))
        .(writers := s.writers[t := Granted(p, WbufOf(s.pages[p], s.wbufs).bufPos, len)])
    else
      s.(writers := s.writers - {t})
  }

  /** The caller copies into the granted place, then `extstore_write` accounts for it and
      releases the page.  The caller learns the handle under which the object is stored. */
  function ApplyCommit(s: State, t: nat, data: seq<byte>): State
    requires t in s.writers && s.writers[t].Granted? && s.writers[t].page < |s.pages|
  {
    var Granted(p, at, len) := s.writers[t];
    var g := s.pages[p];
    if !HasWbuf(g, s.wbufs) || WbufOf(g, s.wbufs).free < len || at + |data| > |WbufOf(g, s.wbufs).buf|
       || WbufOf(g, s.wbufs).free > s.cfg.wbufSize then
      s.(fault := true)
    else
      var b := WbufOf(g, s.wbufs);
      var off := b.offset + (s.cfg.wbufSize - b.free);
      var s1 := SetWbuf(s, g.wbuf.value,
                        b.(buf := Splice(b.buf, at, data), bufPos := b.bufPos + len, free := b.free - len));
      SetPage(s1, p, g.(bytesUsed := g.bytesUsed + len, objCount := g.objCount + 1, held := false))
        .(bytesUsed := s.bytesUsed + len,
          objectsUsed := s.objectsUsed + 1,
          writers := s.writers - {t},
          images := if g.version in s.images then s.images[g.version := s.images[g.version] + data] else s.images,
          objects := s.objects[Handle(p, g.version, off) := data])
  }

  function Range(at: nat, k: nat): (r: set<nat>)
    ensures forall i :: i in r <==> at <= i < at + k
    decreases k
  {
    if k == 0 then {} else {at} + Range(at + 1, k - 1)
  }

  /** Some `k` bytes of the buffer reach the disk. */
  function ApplyPwrite(s: State, io: nat, at: nat, k: nat): (s': State)
    requires io in s.flushes
    ensures s'.images == s.images && s'.objects == s.objects && s'.cfg == s.cfg
  {
    var f := s.flushes[io];
    if f.page >= |s.disk| || f.wbuf >= |s.wbufs| || at + k > |s.wbufs[f.wbuf].buf|
       || f.offset + at + k > |s.disk[f.page]| then s.(fault := true)
    else
      s.(disk := s.disk[f.page := Splice(s.disk[f.page], f.offset + at, s.wbufs[f.wbuf].buf[at..at + k])],
         flushes := s.flushes[io := f.(landed := f.landed + Range(at, k))])
  }

  predicate AllLanded(f: Flush, n: nat) {
    forall i :: 0 <= i < n ==> i in f.landed
  }

  /** `_wbuf_cb`: detach the flushed buffer and give buffer and IO back. */
  function ApplyFlushed(s: State, io: nat): (s': State)
    requires io in s.flushes && s.flushes[io].page < |s.pages|
    ensures s'.images == s.images && s'.objects == s.objects && s'.cfg == s.cfg
  {
    var f := s.flushes[io];
    var g := s.pages[f.page];
    if g.wbuf != Some(f.wbuf) || f.wbuf >= |s.wbufs| || g.written != s.wbufs[f.wbuf].offset then s.(fault := true)
    else
      var written := g.written + s.cfg.wbufSize;
      SetPage(s, f.page, g.(written := written, wbuf := None,
                            active := if written == s.cfg.pageSize then false else g.active))
        .(wbufStack := [f.wbuf] + s.wbufStack,
          ioStack := [io] + s.ioStack,
          flushes := s.flushes - {io})
  }

  /** The IO thread's guard on a read: the page is open and still the version asked for. */
  predicate Readable(g: Page, version: nat) {
    !g.free && !g.closed && g.version == version
  }

  /** `OBJ_IO_READ` up to the disk access: a miss, a copy out of the attached buffer, or a
      reference on the page while the disk is read. */
  function ApplyStartRead(s: State, r: nat): (s': State)
    requires r in s.readIos && s.readIos[r].Queued? && s.readIos[r].page < |s.pages|
    ensures s'.images == s.images && s'.objects == s.objects && s'.cfg == s.cfg
  {
    var Queued(p, version, off, len) := s.readIos[r];
    var g := s.pages[p];
    if !Readable(g, version) then
      s.(readIos := s.readIos[r := Done(p, version, off, len, None)])
    else if g.active && off >= g.written then
      if !HasWbuf(g, s.wbufs) || off >= g.written + s.cfg.wbufSize || off < WbufOf(g, s.wbufs).offset
         || off - WbufOf(g, s.wbufs).offset + len > |WbufOf(g, s.wbufs).buf| then s.(fault := true)
      else
        var at := off - WbufOf(g, s.wbufs).offset;
        s.(readIos := s.readIos[r := Done(p, version, off, len, Some(WbufOf(g, s.wbufs).buf[at..at + len]))])
    else
      SetPage(s, p, g.(refcount := g.refcount + 1))
        .(readIos := s.readIos[r := Reading(p, version, off, len, [])])
  }

  function ApplyPread(s: State, r: nat, k: nat): (s': State)
    requires r in s.readIos && s.readIos[r].Reading?
    ensures s'.images == s.images && s'.objects == s.objects && s'.cfg == s.cfg
  {
    var Reading(p, version, off, len, got) := s.readIos[r];
    if p >= |s.disk| || off + |got| + k > |s.disk[p]| then s.(fault := true)
    else s.(readIos := s.readIos[r := Reading(p, version, off, len, got + s.disk[p][off + |got|..off + |got| + k])])
  }

  function ApplyFinishRead(s: State, r: nat): (s': State)
    requires r in s.readIos && s.readIos[r].Reading? && s.readIos[r].page < |s.pages|
    ensures s'.images == s.images && s'.objects == s.objects && s'.cfg == s.cfg
  {
    var Reading(p, version, off, len, got) := s.readIos[r];
    var g := s.pages[p];
    if g.refcount == 0 then s.(fault := true)
    else
      SetPage(s, p, g.(refcount := g.refcount - 1))
        .(readIos := s.readIos[r := Done(p, version, off, len, Some(got))])
  }

  function Minus(a: nat, b: nat): nat {
    if a >= b then a - b else 0
  }

  /** `extstore_delete`: accounting only, and only while the version still matches. */
  function ApplyDelete(s: State, p: nat, version: nat, count: nat, bytes: nat): (s': State)
    requires p < |s.pages|
    ensures s'.images == s.images && s'.objects == s.objects && s'.cfg == s.cfg
  {
    var g := s.pages[p];
    if g.closed || g.version != version then s
    else
      SetPage(s, p, g.(bytesUsed := Minus(g.bytesUsed, bytes), objCount := Minus(g.objCount, count)))
        .(bytesUsed := s.bytesUsed - bytes, objectsUsed := s.objectsUsed - count)
  }

  function ApplyClose(s: State, p: nat, version: nat): (s': State)
    requires p < |s.pages|
    ensures s'.images == s.images && s'.objects == s.objects && s'.cfg == s.cfg
  {
    var g := s.pages[p];
    if g.closed || g.version != version then s else SetPage(s, p, g.(closed := true))
  }

  /** One iteration of the maintenance thread's page loop. */
  function ApplyMaintVisit(s: State): (s': State)
    requires s.maint.Scanning? && s.maint.next < |s.pages|
    ensures s'.images == s.images && s'.objects == s.objects && s'.cfg == s.cfg
  {
    var Scanning(i, evict, low) := s.maint;
    var g := s.pages[i];
    if g.active || g.free then s.(maint := Scanning(i + 1, evict, low))
    else
      var low' :=
        if g.objCount > 0 && !g.closed && g.freeBucket == 0 && (low.None? || g.version < low.value.version)
        then Some(Low(i, g.version)) else low;
      if (g.objCount == 0 || g.closed) && g.refcount == 0 then
        FreePage(s.(maint := Scanning(i + 1, false, low')), i)
      else
        s.(maint := Scanning(i + 1, evict, low'))
  }

  /** Eviction of the page the scan chose.  Neither version nor `active` is looked at again. */
  function ApplyMaintEvict(s: State): (s': State)
    requires s.maint.Scanning?
    requires s.maint.low.Some? ==> s.maint.low.value.page < |s.pages|
    ensures s'.images == s.images && s'.objects == s.objects && s'.cfg == s.cfg
  {
    if s.maint.evict && s.maint.low.Some? && !s.pages[s.maint.low.value.page].closed then
      var p := s.maint.low.value.page;
      var s1 := SetPage(s, p, s.pages[p].(closed := true)).(maint := Asleep);
      if s.pages[p].refcount == 0 then FreePage(s1, p) else s1
    else
      s.(maint := Asleep)
  }

  /** May page `p`'s mutex be taken? */
  predicate Unlocked(s: State, p: nat) {
    p < |s.pages| && !s.pages[p].held
  }

  /** A range a caller may ask for: inside one buffer-sized block of data that was written
      under that version.  Every stored object is such a range, and so is a whole block, which
      the compactor reads back blind. */
  predicate Stored(cfg: Config, images: map<nat, seq<byte>>, version: nat, off: nat, len: nat) {
    && version in images
    && 0 < len && off + len <= |images[version]|
    && InBlock(cfg, off, len)
  }

  predicate InBlock(cfg: Config, off: nat, len: nat) {
    cfg.wbufSize > 0 && off % cfg.wbufSize + len <= cfg.wbufSize
  }

  /** Which events can happen: mutexes are free, threads are where the step starts, and callers
      keep the interface's rules. */
  predicate Enabled(s: State, ev: Event) {
    match ev
    case Pick(t, bucket, freeBucket, len) => t !in s.writers && freeBucket < |s.freeBuckets|
    case Check(t) => t in s.writers && s.writers[t].Picked? && Unlocked(s, s.writers[t].page)
    case Refill(t) => t in s.writers && s.writers[t].Refilling?
    case Commit(t, data) =>
      t in s.writers && s.writers[t].Granted? && s.writers[t].page < |s.pages| && |data| == s.writers[t].len
    case PwriteSome(io, at, k) => io in s.flushes && at + k <= s.cfg.wbufSize
    case Flushed(io) => io in s.flushes && AllLanded(s.flushes[io], s.cfg.wbufSize) && Unlocked(s, s.flushes[io].page)
    case SubmitRead(r, page, version, off, len) =>
      r !in s.readIos && page < |s.pages| && Stored(s.cfg, s.images, version, off, len)
    case StartRead(r) => r in s.readIos && s.readIos[r].Queued? && Unlocked(s, s.readIos[r].page)
    case PreadSome(r, k) => r in s.readIos && s.readIos[r].Reading? && |s.readIos[r].got| + k <= s.readIos[r].len
    case FinishRead(r) =>
      r in s.readIos && s.readIos[r].Reading? && |s.readIos[r].got| == s.readIos[r].len &&
      Unlocked(s, s.readIos[r].page)
    case Delete(page, version, count, bytes) => Unlocked(s, page) && version > 0
    case Close(page, version) => Unlocked(s, page) && version > 0
    case MaintWake => s.maint.Asleep?
    case MaintVisit => s.maint.Scanning? && Unlocked(s, s.maint.next)
    case MaintEvict =>
      s.maint.Scanning? && s.maint.next == |s.pages|
      && (s.maint.low.Some? ==> Unlocked(s, s.maint.low.value.page))
  }

  function Apply(s: State, ev: Event): State
    requires Enabled(s, ev)
  {
    match ev
    case Pick(t, bucket, freeBucket, len) => ApplyPick(s, t, bucket, freeBucket, len)
    case Check(t) => ApplyCheck(s, t)
    case Refill(t) =>
      var s1 := AllocatePage(s, s.writers[t].bucket, s.writers[t].freeBucket).0;
      s1.(writers := s1.writers - {t})
    case Commit(t, data) => ApplyCommit(s, t, data)
    case PwriteSome(io, at, k) => ApplyPwrite(s, io, at, k)
    case Flushed(io) => ApplyFlushed(s, io)
    case SubmitRead(r, page, version, off, len) => s.(readIos := s.readIos[r := Queued(page, version, off, len)])
    case StartRead(r) => ApplyStartRead(s, r)
    case PreadSome(r, k) => ApplyPread(s, r, k)
    case FinishRead(r) => ApplyFinishRead(s, r)
    case Delete(page, version, count, bytes) => ApplyDelete(s, page, version, count, bytes)
    case Close(page, version) => ApplyClose(s, page, version)
    case MaintWake => s.(maint := Scanning(0, s.pageFree == 0 || s.freeList == [], None))
    case MaintVisit => ApplyMaintVisit(s)
    case MaintEvict => ApplyMaintEvict(s)
  }

  /** `extstore_init`: pages from the last down to the second are pushed on their free lists;
      the first page stays outside every list. */
  function PagesFrom(freeBucketOf: seq<nat>, i: nat, fb: nat): seq<nat>
    decreases |freeBucketOf| - i
  {
    if i >= |freeBucketOf| then []
    else if freeBucketOf[i] == fb then [i] + PagesFrom(freeBucketOf, i + 1, fb)
    else PagesFrom(freeBucketOf, i + 1, fb)
  }

  function Countdown(n: nat): seq<nat> {
    if n == 0 then [] else [n - 1] + Countdown(n - 1)
  }

  function InitialPage(freeBucket: nat): Page {
    Page(0, 0, 0, 0, 0, freeBucket, false, false, true, None, 0, 0, false)
  }

  function InitialPages(freeBucketOf: seq<nat>): (pages: seq<Page>)
    ensures |pages| == |freeBucketOf| && forall p :: 0 <= p < |pages| ==> pages[p] == InitialPage(freeBucketOf[p])
  {
    seq(|freeBucketOf|, i requires 0 <= i < |freeBucketOf| => InitialPage(freeBucketOf[i]))
  }

  function InitialWbufs(cfg: Config): (wbufs: seq<Wbuf>)
    ensures |wbufs| == cfg.wbufCount
    ensures forall w :: 0 <= w < |wbufs| ==> wbufs[w] == Wbuf(Zeros(cfg.wbufSize), 0, cfg.wbufSize, 0, false)
  {
    seq(cfg.wbufCount, _ => Wbuf(Zeros(cfg.wbufSize), 0, cfg.wbufSize, 0, false))
  }

  function EmptyLists(n: nat): (xss: seq<seq<nat>>)
    ensures |xss| == n && forall b :: 0 <= b < n ==> xss[b] == []
  {
    seq(n, _ => [])
  }

  function FreeBucketsFrom(freeBucketOf: seq<nat>, i: nat, count: nat): seq<seq<nat>> {
    seq(count, b requires 0 <= b => if b == 0 then [] else PagesFrom(freeBucketOf, i, b))
  }

  function Initial(cfg: Config, freeBucketOf: seq<nat>, disk: seq<seq<byte>>): State
    requires |freeBucketOf| == cfg.pageCount
  {
    State(cfg,
          InitialPages(freeBucketOf), InitialWbufs(cfg), disk,
          Countdown(cfg.wbufCount), Countdown(cfg.wbufCount),
          PagesFrom(freeBucketOf, 1, 0), FreeBucketsFrom(freeBucketOf, 1, cfg.bucketCount), EmptyLists(cfg.bucketCount),
          1, if cfg.pageCount == 0 then 0 else cfg.pageCount - 1, 0, 0,
          map[], map[], map[], Asleep, map[], map[], false)
  }
}
