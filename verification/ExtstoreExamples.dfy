/** Two runs of a small engine that start-up accepts: in one, two writers on one bucket fail the assertion of
    `_allocate_page`; in the other, an object deleted twice makes the usage counters disagree. */
module ExtstoreExamples {
  import opened Basics
  import opened Extstore
  import opened ExtstoreTheorems
  import opened ExtstoreWriters
  import opened ExtstoreAccounts

  const ALIGNMENT := 2097152

  /** What `extstore_init` asks of a configuration beyond `Ok`: sizes in units of two MiB. */
  predicate Aligned(cfg: Config) {
    cfg.pageSize % ALIGNMENT == 0 && cfg.wbufSize % ALIGNMENT == 0
  }

  /** Two pages to open, each as large as the one buffer. */
  function Small(w: nat): Config {
    Config(w, w, 1, 1, 3)
  }

  function Start(w: nat, disk: seq<seq<byte>>): State {
    Initial(Small(w), [0, 0, 0], disk)
  }

  /** An object of one byte is stored; one that does not fit beside it ships the buffer and is put off; then
      two requests side by side find the page full, and the first opens another. */
  function Race(w: nat, x: byte): seq<Event> {
    [Pick(0, 0, 0, 1), Check(0), Commit(0, [x]), Pick(0, 0, 0, w), Check(0),
     Pick(0, 0, 0, 1), Pick(1, 0, 0, 1), Check(0), Check(1), Refill(0)]
  }

  /** What the run depends on: page 1 at the head of the bucket, page 2 free. */
  ghost predicate Stage(s: State, w: nat, head: Page, b: Wbuf, stack: seq<nat>, ios: seq<nat>,
      writers: map<nat, Writer>) {
    |s.pages| == 3 && s.pages[1] == head && s.pages[2] == InitialPage(0) && s.wbufs == [b] &&
    s.wbufStack == stack && s.ioStack == ios && s.writers == writers && s.buckets == [[1]] && s.freeList == [2] &&
    s.freeBuckets == [[]] && s.pageFree == 1 && s.cfg == Small(w)
  }

  function Opened(): Page {
    InitialPage(0).(active := true, free := false, version := 1)
  }

  function Claimed(w: nat): Page {
    Opened().(claimed := w, wbuf := Some(0))
  }

  function Used(w: nat): Page {
    Claimed(w).(objCount := 1, bytesUsed := 1)
  }

  function Empty(w: nat): Wbuf {
    Wbuf(Zeros(w), 0, w, 0, false)
  }

  ghost predicate Begun(b: Wbuf, w: nat, full: bool) {
    0 < w && |b.buf| == w && b.bufPos == 1 && b.free == w - 1 && b.offset == 0 && b.full == full
  }

  lemma StartIs(w: nat, disk: seq<seq<byte>>)
    requires 0 < w
    ensures var s := Start(w, disk);
      s.buckets == [[]] && s.freeList == [1, 2] && s.freeBuckets == [[]] && s.pageFree == 2 && s.wbufStack == [0] &&
      s.ioStack == [0] && s.writers == map[] && s.pages == [InitialPage(0), InitialPage(0), InitialPage(0)] &&
      s.wbufs == [Empty(w)] && s.cfg == Small(w) && s.nextVersion == 1
  {
    var fbs: seq<nat> := [0, 0, 0];
    assert PagesFrom(fbs, 3, 0) == [];
    assert PagesFrom(fbs, 2, 0) == [2];
    assert PagesFrom(fbs, 1, 0) == [1] + [2];
    assert Countdown(1) == [0] + Countdown(0);
  }

  lemma FirstPick(w: nat, disk: seq<seq<byte>>)
    requires 0 < w
    ensures var s, ev := Start(w, disk), Pick(0, 0, 0, 1);
      Enabled(s, ev) && Stage(Apply(s, ev), w, Opened(), Empty(w), [0], [0], map[0 := Picked(1, 0, 0, 1)])
  {
    StartIs(w, disk);
    hide Start;
    var s := Start(w, disk);
    assert s.freeList[1..] == [2];
    assert [1] + s.buckets[0] == [1];
  }

  lemma FirstCheck(s: State, w: nat)
    requires 0 < w && Stage(s, w, Opened(), Empty(w), [0], [0], map[0 := Picked(1, 0, 0, 1)])
    ensures Enabled(s, Check(0))
    ensures Stage(Apply(s, Check(0)), w, Claimed(w).(held := true), Empty(w), [], [0], map[0 := Granted(1, 0, 1)])
  {
    hide Zeros;
    assert s.wbufs[0 := Empty(w)] == [Empty(w)];
  }

  lemma Store(s: State, w: nat, x: byte)
    requires 0 < w && Stage(s, w, Claimed(w).(held := true), Empty(w), [], [0], map[0 := Granted(1, 0, 1)])
    ensures Enabled(s, Commit(0, [x]))
    ensures var s1 := Apply(s, Commit(0, [x]));
      |s1.wbufs| == 1 && Begun(s1.wbufs[0], w, false) && Stage(s1, w, Used(w), s1.wbufs[0], [], [0], map[])
  {
    hide Splice, Zeros;
  }

  lemma PickAgain(s: State, w: nat, t: nat, len: nat, b: Wbuf, ios: seq<nat>, writers: map<nat, Writer>)
    requires Stage(s, w, Used(w), b, [], ios, writers) && t !in writers
    ensures var ev := Pick(t, 0, 0, len);
      Enabled(s, ev) && Stage(Apply(s, ev), w, Used(w), b, [], ios, writers[t := Picked(1, 0, 0, len)])
  {
  }

  /** The buffer is shipped, and the page has no room left. */
  lemma Ship(s: State, w: nat, b: Wbuf)
    requires Begun(b, w, false) && Stage(s, w, Used(w), b, [], [0], map[0 := Picked(1, 0, 0, w)])
    ensures Enabled(s, Check(0))
    ensures var s1 := Apply(s, Check(0));
      |s1.wbufs| == 1 && Begun(s1.wbufs[0], w, true) && Stage(s1, w, Used(w), s1.wbufs[0], [], [], map[])
  {
    hide Splice, Zeros;
  }

  lemma FullCheck(s: State, w: nat, t: nat, b: Wbuf, writers: map<nat, Writer>)
    requires Begun(b, w, true) && Stage(s, w, Used(w), b, [], [], writers)
    requires t in writers && writers[t] == Picked(1, 0, 0, 1)
    ensures Enabled(s, Check(t)) && Stage(Apply(s, Check(t)), w, Used(w), b, [], [], writers[t := Refilling(0, 0)])
  {
  }

  /** The first of the two opens an empty page, and the other comes to the assertion. */
  lemma RefillBreaks(s: State, w: nat, b: Wbuf)
    requires Begun(b, w, true) && Stage(s, w, Used(w), b, [], [], map[0 := Refilling(0, 0), 1 := Refilling(0, 0)])
    ensures Enabled(s, Refill(0)) && !FailsAt(s, Refill(0))
    ensures Enabled(Apply(s, Refill(0)), Refill(1)) && FailsAt(Apply(s, Refill(0)), Refill(1))
  {
    assert [2] + s.buckets[0] == [2, 1];
  }

  ghost predicate Breaks(s: State, evs: seq<Event>) {
    IsRun(s, evs) && NoFailure(s, evs) && Enabled(Run(s, evs), Refill(1)) && FailsAt(Run(s, evs), Refill(1))
  }

  lemma Extend(s: State, ev: Event, evs: seq<Event>)
    requires Enabled(s, ev) && !FailsAt(s, ev) && Breaks(Apply(s, ev), evs)
    ensures Breaks(s, [ev] + evs)
  {
    assert ([ev] + evs)[1..] == evs;
  }

  lemma NoEvents(s: State)
    requires Enabled(s, Refill(1)) && FailsAt(s, Refill(1))
    ensures Breaks(s, [])
  {
  }

  lemma NotYet(s: State, ev: Event)
    requires !ev.Refill?
    ensures !FailsAt(s, ev)
  {
  }

  /** With the page full, two requests go through the same steps side by side. */
  lemma TwoRefills(s: State, w: nat, b: Wbuf)
    requires Begun(b, w, true) && Stage(s, w, Used(w), b, [], [], map[])
    ensures Breaks(s, [Pick(0, 0, 0, 1), Pick(1, 0, 0, 1), Check(0), Check(1), Refill(0)])
  {
    hide Apply, Enabled, Stage, FailsAt, Breaks, Begun, Used;
    var e0, e1, e2, e3, e4 := Pick(0, 0, 0, 1), Pick(1, 0, 0, 1), Check(0), Check(1), Refill(0);
    var p := Picked(1, 0, 0, 1);
    PickAgain(s, w, 0, 1, b, [], map[]);
    var s1 := Apply(s, e0);
    PickAgain(s1, w, 1, 1, b, [], map[0 := p]);
    var s2 := Apply(s1, e1);
    assert map[0 := p][1 := p] == map[0 := p, 1 := p];
    FullCheck(s2, w, 0, b, map[0 := p, 1 := p]);
    var s3 := Apply(s2, e2);
    FullCheck(s3, w, 1, b, map[0 := p, 1 := p][0 := Refilling(0, 0)]);
    var s4 := Apply(s3, e3);
    assert map[0 := p, 1 := p][0 := Refilling(0, 0)][1 := Refilling(0, 0)] ==
      map[0 := Refilling(0, 0), 1 := Refilling(0, 0)];
    RefillBreaks(s4, w, b);
    NoEvents(Apply(s4, e4));
    Extend(s4, e4, []);
    NotYet(s3, e3);
    Extend(s3, e3, [e4] + []);
    NotYet(s2, e2);
    Extend(s2, e2, [e3] + ([e4] + []));
    NotYet(s1, e1);
    Extend(s1, e1, [e2] + ([e3] + ([e4] + [])));
    NotYet(s, e0);
    Extend(s, e0, [e1] + ([e2] + ([e3] + ([e4] + []))));
    assert [e0] + ([e1] + ([e2] + ([e3] + ([e4] + [])))) == [e0, e1, e2, e3, e4];
  }

  /** Without the rule the assertion fails, for every buffer size, every disk and every byte stored, although
      no object is larger than the buffer: two requests on one bucket both find its page full. */
  lemma TwoWritersBreakIt(w: nat, disk: seq<seq<byte>>, x: byte)
    requires 0 < w && |disk| == 3 && forall p :: 0 <= p < 3 ==> |disk[p]| == w
    ensures GoodStart(Small(w), [0, 0, 0], disk) && (w % ALIGNMENT == 0 ==> Aligned(Small(w)))
    ensures Breaks(Start(w, disk), Race(w, x)) && forall e <- Race(w, x) :: e.Pick? ==> 0 < e.len <= w
  {
    hide Start, Apply, Enabled, Stage, FailsAt, Breaks, Begun, Used, Claimed, Opened, Empty;
    var e0, e1, e2, e3, e4 := Pick(0, 0, 0, 1), Check(0), Commit(0, [x]), Pick(0, 0, 0, w), Check(0);
    var s0 := Start(w, disk);
    FirstPick(w, disk);
    var s1 := Apply(s0, e0);
    FirstCheck(s1, w);
    var s2 := Apply(s1, e1);
    Store(s2, w, x);
    var s3 := Apply(s2, e2);
    PickAgain(s3, w, 0, w, s3.wbufs[0], [0], map[]);
    var s4 := Apply(s3, e3);
    Ship(s4, w, s3.wbufs[0]);
    var s5 := Apply(s4, e4);
    TwoRefills(s5, w, s5.wbufs[0]);
    var rest := [Pick(0, 0, 0, 1), Pick(1, 0, 0, 1), Check(0), Check(1), Refill(0)];
    NotYet(s4, e4);
    Extend(s4, e4, rest);
    NotYet(s3, e3);
    Extend(s3, e3, [e4] + rest);
    NotYet(s2, e2);
    Extend(s2, e2, [e3] + ([e4] + rest));
    NotYet(s1, e1);
    Extend(s1, e1, [e2] + ([e3] + ([e4] + rest)));
    NotYet(s0, e0);
    Extend(s0, e0, [e1] + ([e2] + ([e3] + ([e4] + rest))));
    assert [e0] + ([e1] + ([e2] + ([e3] + ([e4] + rest)))) == Race(w, x);
  }

  /** In particular at the smallest sizes that start-up accepts. */
  lemma AcceptedEngineBreaks(x: byte)
    ensures var w, disk := ALIGNMENT, [Zeros(ALIGNMENT), Zeros(ALIGNMENT), Zeros(ALIGNMENT)];
      GoodStart(Small(w), [0, 0, 0], disk) && Aligned(Small(w)) && Breaks(Start(w, disk), Race(w, x))
  {
    hide Breaks, Start, Race, Zeros;
    TwoWritersBreakIt(ALIGNMENT, [Zeros(ALIGNMENT), Zeros(ALIGNMENT), Zeros(ALIGNMENT)], x);
  }

  // One object deleted twice

  function Twice(x: byte): seq<Event> {
    [Pick(0, 0, 0, 1), Check(0), Commit(0, [x]), Delete(1, 1, 1, 1), Delete(1, 1, 1, 1)]
  }

  lemma RunOne(s: State, evs: seq<Event>)
    requires evs != [] && Enabled(s, evs[0]) && IsRun(Apply(s, evs[0]), evs[1..])
    ensures IsRun(s, evs) && Run(s, evs) == Run(Apply(s, evs[0]), evs[1..])
  {
  }

  lemma RunNone(s: State)
    ensures IsRun(s, []) && Run(s, []) == s
  {
  }

  lemma DisciplinedOne(s: State, live: Ledger, evs: seq<Event>)
    requires evs != [] && Enabled(s, evs[0]) && Disciplined(live, evs[0])
    requires IsDisciplinedRun(Apply(s, evs[0]), NextLedger(live, s, evs[0]), evs[1..])
    ensures IsDisciplinedRun(s, live, evs)
  {
  }

  lemma DisciplinedNone(s: State, live: Ledger)
    ensures IsDisciplinedRun(s, live, [])
  {
  }

  /** The object is stored: page 1 counts it, and so do the totals. */
  lemma StoredOne(w: nat, disk: seq<seq<byte>>, x: byte)
    requires 0 < w && |disk| == 3 && forall p :: 0 <= p < 3 ==> |disk[p]| == w
    ensures var s0, evs := Start(w, disk), [Pick(0, 0, 0, 1), Check(0), Commit(0, [x])];
      IsRun(s0, evs) && SumsOk(Run(s0, evs)) && |Run(s0, evs).pages| == 3 && Run(s0, evs).pages[1] == Used(w)
  {
    hide Start, Apply, Enabled, IsRun, Run, IsDisciplinedRun, NextLedger, SumsOk, Used, Claimed, Opened, Empty, Begun;
    var s0 := Start(w, disk);
    FirstPick(w, disk);
    var e0, e1, e2 := Pick(0, 0, 0, 1), Check(0), Commit(0, [x]);
    var s1 := Apply(s0, e0);
    FirstCheck(s1, w);
    var s2 := Apply(s1, e1);
    Store(s2, w, x);
    var s3 := Apply(s2, e2);
    assert [e0, e1, e2][1..] == [e1, e2] && [e1, e2][1..] == [e2] && [e2][1..] == [];
    RunNone(s3);
    RunOne(s2, [e2]);
    RunOne(s1, [e1, e2]);
    RunOne(s0, [e0, e1, e2]);
    var l1 := NextLedger(map[], s0, e0);
    var l2 := NextLedger(l1, s1, e1);
    DisciplinedNone(s3, NextLedger(l2, s2, e2));
    DisciplinedOne(s2, l2, [e2]);
    DisciplinedOne(s1, l1, [e1, e2]);
    DisciplinedOne(s0, map[], [e0, e1, e2]);
    StartIsInitial(w, disk);
    UsageIsExact(Small(w), [0, 0, 0], disk, [e0, e1, e2]);
  }

  lemma StartIsInitial(w: nat, disk: seq<seq<byte>>)
    requires 0 < w && |disk| == 3 && forall p :: 0 <= p < 3 ==> |disk[p]| == w
    ensures GoodStart(Small(w), [0, 0, 0], disk) && Start(w, disk) == Initial(Small(w), [0, 0, 0], disk)
  {
    hide Initial;
  }

  lemma TwiceIs(x: byte)
    ensures var evs, del := [Pick(0, 0, 0, 1), Check(0), Commit(0, [x])], Delete(1, 1, 1, 1);
      |Twice(x)| == 5 && Twice(x)[..4] == evs + [del] && Twice(x) == evs + [del] + [del]
  {
  }

  lemma TwoDeletes(s: State, w: nat)
    requires SumsOk(s) && |s.pages| == 3 && s.pages[1] == Used(w)
    ensures var del := Delete(1, 1, 1, 1);
      Enabled(s, del) && SumsOk(Apply(s, del)) && Enabled(Apply(s, del), del) && !SumsOk(Apply(Apply(s, del), del))
  {
    hide SumsOk;
    DeleteKeepsSumsIff(s, 1, 1, 1, 1);
    DeleteKeepsSumsIff(ApplyDelete(s, 1, 1, 1, 1), 1, 1, 1, 1);
  }

  /** After the first delete the totals are right, after the second they are not. */
  lemma DoubleDeleteDrifts(w: nat, disk: seq<seq<byte>>, x: byte)
    requires 0 < w && |disk| == 3 && forall p :: 0 <= p < 3 ==> |disk[p]| == w
    ensures var s0 := Start(w, disk);
      IsRun(s0, Twice(x)) && IsRun(s0, Twice(x)[..4]) && SumsOk(Run(s0, Twice(x)[..4])) && !SumsOk(Run(s0, Twice(x)))
  {
    hide Start, IsRun, Run, SumsOk, Apply, Enabled, Twice, Used;
    var s0, evs, del := Start(w, disk), [Pick(0, 0, 0, 1), Check(0), Commit(0, [x])], Delete(1, 1, 1, 1);
    StoredOne(w, disk, x);
    TwoDeletes(Run(s0, evs), w);
    RunAfter(s0, evs, del);
    RunAfter(s0, evs + [del], del);
    TwiceIs(x);
  }

  lemma {:induction false} RunAfter(s: State, evs: seq<Event>, ev: Event)
    requires IsRun(s, evs) && Enabled(Run(s, evs), ev)
    ensures IsRun(s, evs + [ev]) && Run(s, evs + [ev]) == Apply(Run(s, evs), ev)
    decreases evs
  {
    if evs == [] {
      assert [ev][1..] == [] && [] + [ev] == [ev];
    } else {
      assert (evs + [ev])[1..] == evs[1..] + [ev];
      RunAfter(Apply(s, evs[0]), evs[1..], ev);
    }
  }
}
