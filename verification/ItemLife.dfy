/** The life of an item: when a lookup finds it, and what links and unlinks it, over every run. */
module ItemLife {
  import opened Basics
  import opened Items
  import opened LruPull
  import opened TailWalk
  import opened ItemRuns

  // Lookups

  /** Neither outdated by a flush nor past its time. */
  predicate Live(x: Item, flushed: bool, now: int) {
    !flushed && (x.exptime == 0 || now < x.exptime)
  }

  /** A lookup hits exactly if there is a live item under the key, and then returns that. */
  lemma GetHitsIff(c: Cache, key: Key, b: nat, flushed: bool, room: bool, now: int, update: bool, segmented: bool)
    requires Inv(c) && b < |c.bufs|
    ensures key in c.table ==> c.table[key] in c.items && c.items[c.table[key]].refcount > 0
    ensures Got(c, key, b, flushed, room, now, update, segmented).1 ==
      if key in c.table && Live(c.items[c.table[key]], flushed, now) then Some(c.table[key]) else None
  {
    if key in c.table { InTable(c, key); }
    hide Inv, Bumped, Unlinked, Released;
  }

  /** The same item under the same key, on the same list and with the same data. */
  ghost predicate SameItem(x: Item, y: Item) {
    y.key == x.key && y.home == x.home && y.linked == x.linked && y.exptime == x.exptime && y.bytes == x.bytes
  }

  /** A hit leaves the table and all other items as they were, and gives the caller one reference. */
  lemma HitSpares(c: Cache, key: Key, b: nat, flushed: bool, room: bool, now: int, update: bool, segmented: bool)
    requires Inv(c) && b < |c.bufs| && key in c.table
    ensures c.table[key] in c.items && c.items[c.table[key]].refcount > 0
    ensures Live(c.items[c.table[key]], flushed, now) ==>
      var d, i := Got(c, key, b, flushed, room, now, update, segmented).0, c.table[key];
      d.table == c.table && d.holders == c.holders + multiset{i} && d.items.Keys == c.items.Keys &&
      SameItem(c.items[i], d.items[i]) && (forall j :: j in c.items && j != i ==> d.items[j] == c.items[j]) &&
      (!update ==>
        d.items[i] == c.items[i].(refcount := c.items[i].refcount + 1) && d.lists == c.lists && d.bufs == c.bufs)
  {
    InTable(c, key);
    var i, c1 := c.table[key], Taken(c, c.table[key]);
    hide Inv, Unlinked, Released, Bumped;
    if Live(c.items[i], flushed, now) && update {
      BumpSpares(c1, b, i, room, now, segmented);
    }
  }

  lemma BumpSpares(c: Cache, b: nat, i: Id, room: bool, now: int, segmented: bool)
    requires i in c.items && b < |c.bufs|
    ensures var d := Bumped(c, b, i, room, now, segmented);
      d.table == c.table && d.holders == c.holders && d.items.Keys == c.items.Keys &&
      SameItem(c.items[i], d.items[i]) && forall j :: j in c.items && j != i ==> d.items[j] == c.items[j]
  {
    hide Without;
  }

  /** A dead item is unlinked: its key goes, every other key and item stays, and so do everyone's references. */
  lemma MissDrops(c: Cache, key: Key, b: nat, flushed: bool, room: bool, now: int, update: bool, segmented: bool)
    requires Inv(c) && b < |c.bufs| && key in c.table
    ensures c.table[key] in c.items && c.items[c.table[key]].refcount > 0
    ensures !Live(c.items[c.table[key]], flushed, now) ==>
      var d, i := Got(c, key, b, flushed, room, now, update, segmented).0, c.table[key];
      d.table == c.table - {key} && d.holders == c.holders && d.bufs == c.bufs &&
      OffTheList(c.items[i], Now(d, i)) && (i in d.items <==> c.items[i].refcount > 1) &&
      (forall j :: j in c.items && j != i ==> j in d.items && d.items[j] == c.items[j]) &&
      (forall j :: j in d.items ==> j in c.items)
  {
    InTable(c, key);
    var i, c1 := c.table[key], Taken(c, c.table[key]);
    hide Inv, Bumped;
    if !Live(c.items[i], flushed, now) {
      KillIs(c, i);
      hide Unlinked, Released;
    }
  }

  lemma KillIs(c: Cache, i: Id)
    requires i in c.items && c.items[i].refcount > 0 && c.items[i].linked
    ensures var c1 := Taken(c, i);
      i in Unlinked(c1, i).items && Unlinked(c1, i).items[i].refcount > 0 &&
      var d := Released(Unlinked(c1, i), i);
      d.table == c.table - {c.items[i].key} && d.holders == c.holders && d.bufs == c.bufs &&
      OffTheList(c.items[i], Now(d, i)) && (i in d.items <==> c.items[i].refcount > 1) &&
      (forall j :: j in c.items && j != i ==> j in d.items && d.items[j] == c.items[j]) &&
      (forall j :: j in d.items ==> j in c.items)
  {
    var c1 := Taken(c, i);
    assert c.holders + multiset{i} - multiset{i} == c.holders;
    UnlinkedItem(c1, i, i);
    hide Without;
  }

  // What links an item and what unlinks it

  ghost predicate Is(c: Cache, i: Id) {
    i in c.items && c.items[i].linked
  }

  /** The event links the item. */
  predicate Begins(e: Event, i: Id) {
    (e.Link? && e.i == i) || (e.Replace? && e.j == i)
  }

  /** The event unlinks the item, which is linked: as it is told to, by linking another in its place, because a
      lookup or the crawler finds it dead, or because a walk from the tail comes to it. */
  ghost predicate Ends(c: Cache, e: Event, i: Id)
    requires i in c.items
  {
    var x := c.items[i];
    match e
    case Unlink(j) => j == i
    case Replace(j, _, _) => j == i
    case Get(key, _, flushed, _, now, _, _) => key == x.key && !Live(x, flushed, now)
    case PullTail(p) => p.cls != 0 && Meets(c, p, SourceList(c, p), 5, It(i)) && Falls(p, i, x)
    case Visit(p, j) => j == i && Falls(p, i, x)
    case CrawlerEval(_, j, dead) => j == i && dead && x.refcount == 1
    case _ => false
  }

  /** Unlinked if the walk comes to it. */
  predicate Falls(p: Pull, i: Id, x: Item) {
    i !in p.busy && (Expired(p, i, x) || (p.lru == Cold && p.evict && p.evictToFree))
  }

  lemma AllocStep(c: Cache, e: Event, i: Id)
    requires Inv(c) && Enabled(c, e) && e.Alloc?
    ensures Is(Apply(c, e), i) <==> Is(c, i)
  {
    hide Inv;
  }

  lemma LinkStep(c: Cache, j: Id, now: int, i: Id)
    requires j in c.items
    ensures Is(Linked(c, j, now), i) <==> Is(c, i) || j == i
  {
    LinkedIs(c, j, now);
    hide Linked;
  }

  lemma UnlinkStep(c: Cache, j: Id, i: Id)
    requires j in c.items && c.items[j].refcount > 0
    ensures Is(Unlinked(c, j), i) <==> Is(c, i) && j != i
  {
    if i in c.items {
      UnlinkedItem(c, j, i);
    }
    DroppedKeys(c, j);
    hide Unlinked;
  }

  /** Dropping a reference unlinks nothing. */
  lemma DropStep(c: Cache, j: Id, i: Id)
    requires j in c.items && c.items[j].refcount > 0 && (c.items[j].refcount == 1 ==> !c.items[j].linked)
    ensures Is(Drop(c, j), i) <==> Is(c, i)
  {
  }

  lemma ReleaseStep(c: Cache, j: Id, i: Id)
    requires Inv(c) && j in c.holders
    ensures j in c.items && c.items[j].refcount > 0 && (Is(Released(c, j), i) <==> Is(c, i))
  {
    ReleaseKeeps(c, j);
    HeldTwice(c, j);
    hide Inv;
    DropStep(c, j, i);
  }

  lemma HeldTwice(c: Cache, j: Id)
    requires Inv(c) && j in c.holders
    ensures j in c.items && (c.items[j].linked ==> c.items[j].refcount > 1)
  {
    assert j in c.items;
    hide Pending;
  }

  lemma UpdateStep(c: Cache, j: Id, now: int, segmented: bool, i: Id)
    requires j in c.items
    ensures Is(Updated(c, j, now, segmented), i) <==> Is(c, i)
  {
    hide Without;
  }

  lemma ReplaceStep(c: Cache, j: Id, k: Id, now: int, i: Id)
    requires Inv(c) && Enabled(c, Replace(j, k, now))
    ensures Is(Apply(c, Replace(j, k, now)), i) <==> k == i || (Is(c, i) && j != i)
  {
    hide Inv, Linked, Unlinked;
    RefCountPositive(c, j);
    UnlinkedSpares(c, j, k);
    UnlinkStep(c, j, i);
    LinkStep(Unlinked(c, j), k, now, i);
  }

  lemma GetStep(c: Cache, e: Event, i: Id)
    requires Inv(c) && Enabled(c, e) && e.Get?
    ensures Is(Apply(c, e), i) <==> Is(c, i) && !Ends(c, e, i)
  {
    hide Inv, Got;
    var Get(key, b, flushed, room, now, update, segmented) := e;
    if key in c.table {
      HitSpares(c, key, b, flushed, room, now, update, segmented);
      MissDrops(c, key, b, flushed, room, now, update, segmented);
      InTable(c, key);
      if Is(c, i) { KeyIsHis(c, i); }
    } else {
      AbsentGet(c, key, b, flushed, room, now, update, segmented);
      if Is(c, i) { KeyIsHis(c, i); }
    }
  }

  lemma AbsentGet(c: Cache, key: Key, b: nat, flushed: bool, room: bool, now: int, update: bool, segmented: bool)
    requires b < |c.bufs| && key !in c.table
    ensures Got(c, key, b, flushed, room, now, update, segmented) == (c, None)
  {
  }

  lemma KeyIsHis(c: Cache, i: Id)
    requires Inv(c) && Is(c, i)
    ensures c.items[i].key in c.table && c.table[c.items[i].key] == i
  {
  }

  lemma BumpStep(c: Cache, b: nat, j: Id, room: bool, now: int, segmented: bool, i: Id)
    requires j in c.items && b < |c.bufs|
    ensures Is(Bumped(c, b, j, room, now, segmented), i) <==> Is(c, i)
  {
    hide Bumped;
    BumpSpares(c, b, j, room, now, segmented);
  }

  lemma DrainStep(c: Cache, b: nat, now: int, segmented: bool, i: Id)
    requires Inv(c) && b < |c.bufs| && c.bufs[b] != []
    ensures c.bufs[b][0] in c.items && c.items[c.bufs[b][0]].refcount > 0
    ensures Is(Drained(c, b, now, segmented), i) <==> Is(c, i)
  {
    hide Inv, InvBut, Updated;
    var j := c.bufs[b][0];
    DrainBut(c, b, now, segmented);
    var u := Updated(c, j, now, segmented).(bufs := c.bufs[b := c.bufs[b][1..]]);
    DropKeeps(u, j);
    UpdateStep(c, j, now, segmented, i);
    UpdatedBufs(c, j, now, segmented);
    DropStep(u, j, i);
  }

  lemma PullStep(c: Cache, p: Pull, i: Id)
    requires Inv(c)
    ensures Is(PulledTail(c, p).c, i) <==> Is(c, i) && !Ends(c, PullTail(p), i)
  {
    hide Inv, PulledTail, Meets, BytesThen;
    PullDoes(c, p);
    var d := PulledTail(c, p).c;
    if p.cls != 0 {
      if i in c.items {
        assert Outcome(c, d, p, SourceList(c, p), 5, i);
        if Meets(c, p, SourceList(c, p), 5, It(i)) {
          MetIsLinked(c, p, i);
        }
      } else {
        assert i !in d.items;
      }
    }
  }

  lemma MetIsLinked(c: Cache, p: Pull, i: Id)
    requires Inv(c) && Meets(c, p, SourceList(c, p), 5, It(i))
    ensures i in c.items && c.items[i].linked && c.items[i].home == Source(p)
  {
    var s := SourceList(c, p);
    var k :| 0 <= k < |s| && MeetsAt(c, p, s, 5, It(i), k);
    assert On(c.lists, Source(p), i);
    OnIsLinked(c, Source(p), i);
  }

  lemma VisitStep(c: Cache, p: Pull, j: Id, i: Id)
    requires Inv(c) && On(c.lists, Source(p), j)
    ensures Is(After(c, p, j), i) <==> Is(c, i) && !Ends(c, Visit(p, j), i)
  {
    hide Inv, After, On, Bytes, Visited;
    NothingNew(c, p, j);
    OnIsLinked(c, Source(p), j);
    if i == j {
      VisitExact(c, p, j);
      if j in p.busy { SkipIs(c, p, j); }
    } else if i in c.items {
      OthersSpared(c, p, j, i);
    }
  }

  lemma SkipIs(c: Cache, p: Pull, j: Id)
    requires Inv(c) && On(c.lists, Source(p), j) && j in p.busy
    ensures After(c, p, j) == c
  {
    VisitKeeps(c, p, j);
    hide Inv, Settled;
  }

  lemma EvalStep(c: Cache, l: ListId, j: Id, dead: bool, i: Id)
    requires Inv(c) && On(c.lists, l, j)
    ensures j in c.items && c.items[j].refcount > 0
    ensures Is(Evaluated(c, j, dead), i) <==> Is(c, i) && !Ends(c, CrawlerEval(l, j, dead), i)
  {
    hide Inv, On, Unlinked, Released, Taken, Is;
    OnIsLinked(c, l, j);
    RefCountPositive(c, j);
    IsOne(c, i);
    KillStep(c, j, i);
  }

  lemma IsOne(c: Cache, i: Id)
    ensures Is(c, i) ==> i in c.items
  {
  }

  lemma KillStep(c: Cache, j: Id, i: Id)
    requires j in c.items && c.items[j].refcount > 0 && c.items[j].linked
    ensures j in Taken(c, j).items && Taken(c, j).items[j].refcount > 0
    ensures j in Unlinked(Taken(c, j), j).items && Unlinked(Taken(c, j), j).items[j].refcount > 0
    ensures Is(Released(Unlinked(Taken(c, j), j), j), i) <==> Is(c, i) && i != j
  {
    KillIs(c, j);
    hide Unlinked, Released;
  }

  /** Every event: an item is linked afterwards exactly if the event links it, or it was linked and the event does
      not unlink it. */
  lemma LinkedStep(c: Cache, e: Event, i: Id)
    requires Inv(c) && Enabled(c, e)
    ensures Is(Apply(c, e), i) <==> Begins(e, i) || (Is(c, i) && !Ends(c, e, i))
  {
    hide Inv, On, Allocated, Linked, Unlinked, Released, Updated, Replaced, Got, Bumped, Drained, PulledTail, After,
      Evaluated, Stepped, Without, Meets, Falls, Live;
    match e
    case Alloc(_, _, _, _, _, _) => AllocStep(c, e, i);
    case Link(j, now) => LinkStep(c, j, now, i);
    case Unlink(j) => RefCountPositive(c, j); UnlinkStep(c, j, i);
    case Release(j) => ReleaseStep(c, j, i);
    case Update(j, now, segmented) => UpdateStep(c, j, now, segmented, i);
    case Replace(j, k, now) => ReplaceStep(c, j, k, now, i);
    case Get(_, _, _, _, _, _, _) => GetStep(c, e, i);
    case Touch(_, _) =>
    case Bump(b, j, room, now, segmented) => BumpStep(c, b, j, room, now, segmented, i);
    case Drain(b, now, segmented) => DrainStep(c, b, now, segmented, i);
    case PullTail(p) => PullStep(c, p, i);
    case Visit(p, j) => VisitStep(c, p, j, i);
    case CrawlerLink(_) =>
    case CrawlerStep(_) =>
    case CrawlerUnlink(_) =>
    case CrawlerEval(l, j, dead) => EvalStep(c, l, j, dead, i);
  }

  // Over runs

  /** The state before the event at `n`. */
  ghost function At(c: Cache, es: seq<Event>, n: nat): (d: Cache)
    requires Inv(c) && IsRun(c, es) && n <= |es|
    ensures Inv(d)
    decreases n
  {
    if n == 0 then c else At(Apply(c, es[0]), es[1..], n - 1)
  }

  ghost predicate EndsAt(c: Cache, es: seq<Event>, n: nat, i: Id)
    requires Inv(c) && IsRun(c, es) && n < |es|
  {
    var s := At(c, es, n);
    Is(s, i) && Ends(s, es[n], i)
  }

  ghost predicate NeverEnds(c: Cache, es: seq<Event>, i: Id, from: nat)
    requires Inv(c) && IsRun(c, es)
  {
    forall m: nat :: from <= m < |es| ==> !EndsAt(c, es, m, i)
  }

  /** Some event links the item, and none unlinks it after that. */
  ghost predicate LinkedSince(c: Cache, es: seq<Event>, i: Id)
    requires Inv(c) && IsRun(c, es)
  {
    exists n: nat :: n < |es| && Begins(es[n], i) && NeverEnds(c, es, i, n + 1)
  }

  lemma NeverEndsNext(c: Cache, es: seq<Event>, i: Id, from: nat)
    requires Inv(c) && IsRun(c, es) && es != []
    ensures NeverEnds(c, es, i, from + 1) <==> NeverEnds(Apply(c, es[0]), es[1..], i, from)
  {
    hide Inv, Apply, Enabled, Ends;
    var c', rest := Apply(c, es[0]), es[1..];
    if NeverEnds(c', rest, i, from) {
      forall m: nat | from + 1 <= m < |es|
        ensures !EndsAt(c, es, m, i)
      {
        assert !EndsAt(c', rest, m - 1, i);
      }
    }
    if NeverEnds(c, es, i, from + 1) {
      forall m: nat | from <= m < |rest|
        ensures !EndsAt(c', rest, m, i)
      {
        assert !EndsAt(c, es, m + 1, i);
      }
    }
  }

  lemma LinkedSinceNext(c: Cache, es: seq<Event>, i: Id)
    requires Inv(c) && IsRun(c, es) && es != []
    ensures LinkedSince(c, es, i) <==>
      LinkedSince(Apply(c, es[0]), es[1..], i) || (Begins(es[0], i) && NeverEnds(Apply(c, es[0]), es[1..], i, 0))
  {
    hide Inv, Apply, Enabled, Ends, NeverEnds, Begins;
    var c', rest := Apply(c, es[0]), es[1..];
    NeverEndsNext(c, es, i, 0);
    if LinkedSince(c, es, i) {
      var n: nat :| n < |es| && Begins(es[n], i) && NeverEnds(c, es, i, n + 1);
      if n > 0 {
        NeverEndsNext(c, es, i, n);
        assert rest[n - 1] == es[n];
      }
    }
    if LinkedSince(c', rest, i) {
      var n: nat :| n < |rest| && Begins(rest[n], i) && NeverEnds(c', rest, i, n + 1);
      NeverEndsNext(c, es, i, n + 1);
      assert es[n + 1] == rest[n];
    }
  }

  lemma {:induction false} LinkedIff(c: Cache, es: seq<Event>, i: Id)
    requires Inv(c) && IsRun(c, es)
    ensures Is(Run(c, es), i) <==> LinkedSince(c, es, i) || (Is(c, i) && NeverEnds(c, es, i, 0))
    decreases es
  {
    hide Inv, Apply, Enabled, Ends, Begins, LinkedSince, Is;
    if es == [] {
      NothingYet(c, i);
    } else {
      var c', rest := Apply(c, es[0]), es[1..];
      LinkedStep(c, es[0], i);
      LinkedIff(c', rest, i);
      LinkedSinceNext(c, es, i);
      if Is(c, i) { FirstEnds(c, es, i); }
    }
  }

  lemma NothingYet(c: Cache, i: Id)
    requires Inv(c)
    ensures IsRun(c, []) && !LinkedSince(c, [], i) && NeverEnds(c, [], i, 0)
  {
  }

  lemma FirstEnds(c: Cache, es: seq<Event>, i: Id)
    requires Inv(c) && IsRun(c, es) && es != [] && Is(c, i)
    ensures i in c.items
    ensures NeverEnds(c, es, i, 0) <==> !Ends(c, es[0], i) && NeverEnds(Apply(c, es[0]), es[1..], i, 0)
  {
    hide Inv, Apply, Enabled, Ends;
    NeverEndsNext(c, es, i, 0);
    assert EndsAt(c, es, 0, i) <==> Ends(c, es[0], i);
    if NeverEnds(c, es, i, 1) && !EndsAt(c, es, 0, i) {
      assert NeverEnds(c, es, i, 0);
    }
  }

  /** What a lookup asks, and what it meets with. */
  datatype Query = Query(key: Key, b: nat, flushed: bool, room: bool, now: int, update: bool, segmented: bool)

  ghost predicate Finds(c: Cache, q: Query, i: Id)
    requires Inv(c) && q.b < |c.bufs|
  {
    GetKeeps(c, q.key, q.b, q.flushed, q.room, q.now, q.update, q.segmented);
    Got(c, q.key, q.b, q.flushed, q.room, q.now, q.update, q.segmented).1 == Some(i)
  }

  lemma FindsIff(c: Cache, q: Query, i: Id)
    requires Inv(c) && q.b < |c.bufs|
    ensures Finds(c, q, i) <==> Is(c, i) && c.items[i].key == q.key && Live(c.items[i], q.flushed, q.now)
  {
    hide Inv, Got, Live;
    GetHitsIff(c, q.key, q.b, q.flushed, q.room, q.now, q.update, q.segmented);
    GetKeeps(c, q.key, q.b, q.flushed, q.room, q.now, q.update, q.segmented);
    if q.key in c.table { InTable(c, q.key); }
    if Is(c, i) { KeyIsHis(c, i); }
  }

  /** From an empty cache, after any run: a lookup finds exactly the item that was linked under the key and not since
      unlinked, provided it is live. */
  lemma LookupFinds(start: Cache, es: seq<Event>, q: Query, i: Id)
    requires Fresh(start) && (FreshInv(start); IsRun(start, es) && q.b < |Run(start, es).bufs|)
    ensures (FreshInv(start);
             var c := Run(start, es);
             Finds(c, q, i) <==>
               LinkedSince(start, es, i) && i in c.items && c.items[i].key == q.key &&
               Live(c.items[i], q.flushed, q.now))
  {
    assert !Is(start, i);
    FreshInv(start);
    hide Inv, IsRun, Run, Finds, LinkedSince, Live;
    LinkedIff(start, es, i);
    FindsIff(Run(start, es), q, i);
  }

  // Hits

  /** With segments, the first hit only marks an item as fetched, and the second makes it active: at once, with the
      time of the hit, unless it is on COLD, where it is queued to be moved if there is room, and left if not.  Further
      hits do nothing. */
  lemma SecondHitActivates(c: Cache, b: nat, i: Id, room: bool, now: int, room': bool, now': int)
    requires i in c.items && b < |c.bufs| && !c.items[i].fetched && !c.items[i].active
    ensures var x, c1 := c.items[i], Bumped(c, b, i, room, now, true);
      c1 == SetItem(c, i, x.(fetched := true)) &&
      var c2 := Bumped(c1, b, i, room', now', true);
      (if x.home.lru != Cold then c2 == SetItem(c, i, x.(fetched := true, active := true, time := now'))
       else if room' then
         c2 == SetItem(c, i, x.(fetched := true, active := true, refcount := x.refcount + 1))
                 .(bufs := c.bufs[b := c.bufs[b] + [i]])
       else c2 == c1)
  {
    var x := c.items[i];
    assert c.items[i := x.(fetched := true)][i := x.(fetched := true, active := true, time := now')] ==
      c.items[i := x.(fetched := true, active := true, time := now')];
    assert c.items[i := x.(fetched := true)][i := x.(fetched := true, active := true)]
      [i := x.(fetched := true, active := true, refcount := x.refcount + 1)] ==
      c.items[i := x.(fetched := true, active := true, refcount := x.refcount + 1)];
  }

  lemma ActiveStays(c: Cache, b: nat, i: Id, room: bool, now: int)
    requires i in c.items && b < |c.bufs| && c.items[i].active
    ensures Bumped(c, b, i, room, now, true) == c
  {
  }

  /** A hit on COLD, once the queue is drained, has taken the item to the head of WARM, idle again, with the references
      it had before. */
  lemma HitGoesWarm(c: Cache, b: nat, i: Id, now: int, now': int)
    requires Inv(c) && i in c.items && b < |c.bufs| && c.bufs[b] == []
    requires var x := c.items[i]; x.linked && x.fetched && !x.active && x.home.lru == Cold
    ensures var x, c1 := c.items[i], Bumped(c, b, i, true, now, true);
      b < |c1.bufs| && c1.bufs[b] == [i] && i in c1.items && c1.items[i].refcount > 0 &&
      var d, warm := Drained(c1, b, now', true), ListId(x.home.cls, Warm);
      d.items == c.items[i := x.(home := warm, active := false, time := now')] && d.bufs == c.bufs &&
      d.table == c.table && d.holders == c.holders && ListAt(d.lists, warm) == [It(i)] + ListAt(c.lists, warm) &&
      ListAt(d.lists, x.home) == Without(ListAt(c.lists, x.home), It(i)) &&
      forall l :: l != warm && l != x.home ==> ListAt(d.lists, l) == ListAt(c.lists, l)
  {
    RefCountPositive(c, i);
    hide Inv, Without;
    var x, c1 := c.items[i], Bumped(c, b, i, true, now, true);
    var y := x.(active := true, refcount := x.refcount + 1);
    assert c1 == c.(items := c.items[i := y], bufs := c.bufs[b := [i]]) by {
      assert c.items[i := x.(active := true)][i := y] == c.items[i := y];
      assert [] + [i] == [i];
    }
    hide Bumped;
    QueuedGoesWarm(c, b, i, y, now');
  }

  lemma QueuedGoesWarm(c: Cache, b: nat, i: Id, y: Item, now: int)
    requires i in c.items && b < |c.bufs| && c.bufs[b] == [] && c.items[i].refcount > 0
    requires c.items[i].linked && c.items[i].home.lru == Cold
    requires y == c.items[i].(active := true, refcount := c.items[i].refcount + 1)
    ensures var x, c1 := c.items[i], c.(items := c.items[i := y], bufs := c.bufs[b := [i]]);
      var d, warm := Drained(c1, b, now, true), ListId(x.home.cls, Warm);
      d.items == c.items[i := x.(home := warm, active := false, time := now)] && d.bufs == c.bufs &&
      d.table == c.table && d.holders == c.holders && ListAt(d.lists, warm) == [It(i)] + ListAt(c.lists, warm) &&
      ListAt(d.lists, x.home) == Without(ListAt(c.lists, x.home), It(i)) &&
      forall l :: l != warm && l != x.home ==> ListAt(d.lists, l) == ListAt(c.lists, l)
  {
    hide Without;
    var x, c1 := c.items[i], c.(items := c.items[i := y], bufs := c.bufs[b := [i]]);
    var z := y.(time := now, home := ListId(x.home.cls, Warm), active := false);
    var d := Drained(c1, b, now, true);
    assert d.items == c.items[i := z.(refcount := x.refcount)];
    assert d.bufs == c.bufs[b := [i]][b := []] == c.bufs;
  }
}
