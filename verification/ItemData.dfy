/** What an item holds, over every run: as asked for when it was allocated, but for the time of expiry, which a touch
    changes. */
module ItemData {
  import opened Basics
  import opened Items
  import opened LruPull
  import opened TailWalk
  import opened ItemRuns
  import opened ItemLife

  ghost predicate SameData(x: Item, y: Item) {
    y.key == x.key && y.bytes == x.bytes && y.home.cls == x.home.cls
  }

  predicate Allocs(e: Event, i: Id) {
    e.Alloc? && e.i == i
  }

  /** The event gives the item a time of expiry. */
  predicate Times(e: Event, i: Id) {
    Allocs(e, i) || (e.Touch? && e.i == i)
  }

  /** The item is as this event asked for it. */
  ghost predicate Made(e: Event, i: Id, x: Item) {
    Allocs(e, i) && x.key == e.key && x.bytes == e.bytes && x.home.cls == e.home.cls
  }

  /** If the item is there now, it was before, with the same data. */
  ghost predicate Kept(c: Cache, d: Cache, i: Id) {
    i in d.items ==> i in c.items && SameData(c.items[i], d.items[i]) && d.items[i].exptime == c.items[i].exptime
  }

  lemma AllocatedIs(c: Cache, i: Id, key: Key, home: ListId, exptime: int, now: int, bytes: nat)
    requires Inv(c) && i !in c.items
    ensures var d := Allocated(c, i, key, home, exptime, now, bytes);
      i in d.items && d.holders[i] == 1 && d.table == c.table && d.lists == c.lists && d.bufs == c.bufs &&
      (var x := d.items[i];
       x.key == key && x.home == home && x.exptime == exptime && x.time == now && x.bytes == bytes &&
       !x.linked && !x.fetched && !x.active && x.refcount == 1) &&
      forall j :: j in c.items ==> j in d.items && d.items[j] == c.items[j]
  {
    assert c.holders[i] == 0;
    hide Inv;
  }

  lemma LinkedKept(c: Cache, j: Id, now: int, i: Id)
    requires j in c.items
    ensures Kept(c, Linked(c, j, now), i)
  {
    LinkedIs(c, j, now);
    hide Linked;
  }

  lemma UnlinkedKept(c: Cache, j: Id, i: Id)
    requires j in c.items && c.items[j].refcount > 0
    ensures Kept(c, Unlinked(c, j), i)
  {
    DroppedKeys(c, j);
    if i in c.items { UnlinkedItem(c, j, i); }
    hide Unlinked;
  }

  lemma DropKept(c: Cache, j: Id, i: Id)
    requires j in c.items && c.items[j].refcount > 0
    ensures Kept(c, Drop(c, j), i) && Kept(c, Released(c, j), i)
  {
  }

  lemma UpdatedKept(c: Cache, j: Id, now: int, segmented: bool, i: Id)
    requires j in c.items
    ensures Kept(c, Updated(c, j, now, segmented), i)
  {
    hide Without;
  }

  lemma ReplacedKept(c: Cache, e: Event, i: Id)
    requires Inv(c) && Enabled(c, e) && e.Replace?
    ensures Kept(c, Apply(c, e), i)
  {
    hide Inv, Linked, Unlinked;
    RefCountPositive(c, e.i);
    UnlinkedSpares(c, e.i, e.j);
    UnlinkedKept(c, e.i, i);
    LinkedKept(Unlinked(c, e.i), e.j, e.now, i);
  }

  lemma GetKept(c: Cache, e: Event, i: Id)
    requires Inv(c) && Enabled(c, e) && e.Get?
    ensures Kept(c, Apply(c, e), i)
  {
    hide Inv, Got;
    var Get(key, b, flushed, room, now, update, segmented) := e;
    if key in c.table {
      HitSpares(c, key, b, flushed, room, now, update, segmented);
      MissDrops(c, key, b, flushed, room, now, update, segmented);
    } else {
      AbsentGet(c, key, b, flushed, room, now, update, segmented);
    }
  }

  lemma BumpKept(c: Cache, b: nat, j: Id, room: bool, now: int, segmented: bool, i: Id)
    requires j in c.items && b < |c.bufs|
    ensures Kept(c, Bumped(c, b, j, room, now, segmented), i)
  {
    hide Bumped;
    BumpSpares(c, b, j, room, now, segmented);
  }

  lemma DrainKept(c: Cache, b: nat, now: int, segmented: bool, i: Id)
    requires Inv(c) && b < |c.bufs| && c.bufs[b] != []
    ensures c.bufs[b][0] in c.items && c.items[c.bufs[b][0]].refcount > 0
    ensures Kept(c, Drained(c, b, now, segmented), i)
  {
    hide Inv, InvBut, Updated;
    var j := c.bufs[b][0];
    DrainBut(c, b, now, segmented);
    var u := Updated(c, j, now, segmented).(bufs := c.bufs[b := c.bufs[b][1..]]);
    DropKeeps(u, j);
    UpdatedKept(c, j, now, segmented, i);
    UpdatedBufs(c, j, now, segmented);
    DropKept(u, j, i);
  }

  lemma PullKept(c: Cache, p: Pull, i: Id)
    requires Inv(c)
    ensures Kept(c, PulledTail(c, p).c, i)
  {
    hide Inv, PulledTail, Meets, BytesThen;
    PullDoes(c, p);
    if p.cls != 0 && i in c.items {
      assert Outcome(c, PulledTail(c, p).c, p, SourceList(c, p), 5, i);
    }
  }

  lemma VisitKept(c: Cache, p: Pull, j: Id, i: Id)
    requires Inv(c) && On(c.lists, Source(p), j)
    ensures Kept(c, After(c, p, j), i)
  {
    hide Inv, After, On, Bytes, Visited;
    NothingNew(c, p, j);
    if i == j {
      VisitExact(c, p, j);
      if j in p.busy { SkipIs(c, p, j); }
    } else if i in c.items {
      OthersSpared(c, p, j, i);
    }
  }

  lemma EvalKept(c: Cache, l: ListId, j: Id, dead: bool, i: Id)
    requires Inv(c) && On(c.lists, l, j)
    ensures j in c.items && c.items[j].refcount > 0 && Kept(c, Evaluated(c, j, dead), i)
  {
    OnIsLinked(c, l, j);
    RefCountPositive(c, j);
    KillIs(c, j);
    hide Inv, Unlinked, Released, Taken;
  }

  /** Every event: an item there afterwards is the one the event allocates, as asked for, or was there before and
      has kept its key, its size and its class, and, unless the event touches it, its time of expiry. */
  lemma DataStep(c: Cache, e: Event, i: Id)
    requires Inv(c) && Enabled(c, e)
    ensures i in Apply(c, e).items ==>
      if Allocs(e, i) then Made(e, i, Apply(c, e).items[i])
      else i in c.items && SameData(c.items[i], Apply(c, e).items[i])
    ensures i in Apply(c, e).items ==>
      Apply(c, e).items[i].exptime == if Times(e, i) then e.exptime else if i in c.items then c.items[i].exptime else 0
  {
    hide Inv, On, Linked, Unlinked, Released, Updated, Replaced, Got, Bumped, Drained, PulledTail, After,
      Evaluated, Stepped, Without;
    match e
    case Alloc(_, _, _, _, _, _) =>
    case Link(j, now) => LinkedKept(c, j, now, i);
    case Unlink(j) => RefCountPositive(c, j); UnlinkedKept(c, j, i);
    case Release(j) => ReleaseKeeps(c, j); DropKept(c, j, i);
    case Update(j, now, segmented) => UpdatedKept(c, j, now, segmented, i);
    case Replace(_, _, _) => ReplacedKept(c, e, i);
    case Get(_, _, _, _, _, _, _) => GetKept(c, e, i);
    case Touch(_, _) =>
    case Bump(b, j, room, now, segmented) => BumpKept(c, b, j, room, now, segmented, i);
    case Drain(b, now, segmented) => DrainKept(c, b, now, segmented, i);
    case PullTail(p) => PullKept(c, p, i);
    case Visit(p, j) => VisitKept(c, p, j, i);
    case CrawlerLink(_) =>
    case CrawlerStep(_) =>
    case CrawlerUnlink(_) =>
    case CrawlerEval(l, j, dead) => EvalKept(c, l, j, dead, i);
  }

  // Over runs

  predicate NoAlloc(es: seq<Event>, i: Id, from: nat) {
    forall m :: from <= m < |es| ==> !Allocs(es[m], i)
  }

  /** The last event that allocates the item asked for what it is now. */
  ghost predicate MadeBy(es: seq<Event>, i: Id, x: Item) {
    exists n :: 0 <= n < |es| && Made(es[n], i, x) && NoAlloc(es, i, n + 1)
  }

  predicate NoTime(es: seq<Event>, i: Id, from: nat) {
    forall m :: from <= m < |es| ==> !Times(es[m], i)
  }

  /** The last event that gives the item a time gave it this. */
  ghost predicate TimedBy(es: seq<Event>, i: Id, exptime: int) {
    exists n :: 0 <= n < |es| && Times(es[n], i) && es[n].exptime == exptime && NoTime(es, i, n + 1)
  }

  lemma MadeEarlier(es: seq<Event>, i: Id, x: Item)
    requires es != []
    ensures MadeBy(es[1..], i, x) ==> MadeBy(es, i, x)
    ensures NoAlloc(es[1..], i, 0) && Made(es[0], i, x) ==> MadeBy(es, i, x)
    ensures NoAlloc(es[1..], i, 0) && !Allocs(es[0], i) ==> NoAlloc(es, i, 0)
  {
    hide Made;
    var rest := es[1..];
    assert forall m :: 0 < m < |es| ==> es[m] == rest[m - 1];
    if MadeBy(rest, i, x) {
      var n :| 0 <= n < |rest| && Made(rest[n], i, x) && NoAlloc(rest, i, n + 1);
      assert Made(es[n + 1], i, x) && NoAlloc(es, i, n + 2);
    }
    if NoAlloc(rest, i, 0) && Made(es[0], i, x) {
      assert NoAlloc(es, i, 0 + 1);
    }
  }

  lemma TimedEarlier(es: seq<Event>, i: Id, exptime: int)
    requires es != []
    ensures TimedBy(es[1..], i, exptime) ==> TimedBy(es, i, exptime)
    ensures NoTime(es[1..], i, 0) && Times(es[0], i) && es[0].exptime == exptime ==> TimedBy(es, i, exptime)
    ensures NoTime(es[1..], i, 0) && !Times(es[0], i) ==> NoTime(es, i, 0)
  {
    var rest := es[1..];
    assert forall m :: 0 < m < |es| ==> es[m] == rest[m - 1];
    if TimedBy(rest, i, exptime) {
      var n :| 0 <= n < |rest| && Times(rest[n], i) && rest[n].exptime == exptime && NoTime(rest, i, n + 1);
      assert Times(es[n + 1], i) && NoTime(es, i, n + 2);
    }
    if NoTime(rest, i, 0) && Times(es[0], i) {
      assert NoTime(es, i, 0 + 1);
    }
  }

  lemma {:induction false} DataIs(c: Cache, es: seq<Event>, i: Id)
    requires Inv(c) && IsRun(c, es) && i in Run(c, es).items
    ensures var x := Run(c, es).items[i];
      (MadeBy(es, i, x) || (i in c.items && SameData(c.items[i], x) && NoAlloc(es, i, 0))) &&
      (TimedBy(es, i, x.exptime) || (i in c.items && c.items[i].exptime == x.exptime && NoTime(es, i, 0)))
    decreases es
  {
    hide Inv, Apply, Enabled, MadeBy, TimedBy;
    if es != [] {
      var c', rest := Apply(c, es[0]), es[1..];
      DataStep(c, es[0], i);
      DataIs(c', rest, i);
      MadeEarlier(es, i, Run(c, es).items[i]);
      TimedEarlier(es, i, Run(c, es).items[i].exptime);
    }
  }

  /** From an empty cache, after any run: what a lookup finds was allocated under the key it asks for, and the time of
      expiry that it was given last, then or by a touch, has not come. */
  lemma FoundIsMade(start: Cache, es: seq<Event>, q: Query, i: Id)
    requires Fresh(start) && (FreshInv(start); IsRun(start, es) && q.b < |Run(start, es).bufs|)
    requires (FreshInv(start); Finds(Run(start, es), q, i))
    ensures exists n :: 0 <= n < |es| && Allocs(es[n], i) && es[n].key == q.key && NoAlloc(es, i, n + 1)
    ensures exists exptime :: TimedBy(es, i, exptime) && (exptime == 0 || q.now < exptime)
  {
    assert i !in start.items;
    FreshInv(start);
    hide Inv, IsRun, Run, Finds, TimedBy;
    FindsIff(Run(start, es), q, i);
    DataIs(start, es, i);
    var x := Run(start, es).items[i];
    var n :| 0 <= n < |es| && Made(es[n], i, x) && NoAlloc(es, i, n + 1);
    assert Allocs(es[n], i) && es[n].key == q.key;
    assert TimedBy(es, i, x.exptime);
  }

  // Touching an item

  /** Without segments a touch puts a linked item at the head of its list, with the time, if more than 60 seconds have
      passed since its time, and otherwise changes nothing. */
  lemma TouchRelinksIff(c: Cache, i: Id, now: int)
    requires i in c.items
    ensures var x, d := c.items[i], Updated(c, i, now, false);
      if x.linked && now - x.time > 60 then
        d.items == c.items[i := x.(time := now)] && d.table == c.table && d.bufs == c.bufs && d.holders == c.holders &&
        ListAt(d.lists, x.home) == [It(i)] + Without(ListAt(c.lists, x.home), It(i)) &&
        forall l :: l != x.home ==> ListAt(d.lists, l) == ListAt(c.lists, l)
      else d == c
  {
    hide Without;
  }

  /** Without segments a hit is a touch, and marks the item as fetched. */
  lemma FlatHitTouches(c: Cache, b: nat, i: Id, room: bool, now: int)
    requires i in c.items && b < |c.bufs|
    ensures var x, d := c.items[i], Bumped(c, b, i, room, now, false);
      d.table == c.table && d.bufs == c.bufs && d.holders == c.holders &&
      if x.linked && now - x.time > 60 then
        d.items == c.items[i := x.(fetched := true, time := now)] &&
        ListAt(d.lists, x.home) == [It(i)] + Without(ListAt(c.lists, x.home), It(i)) &&
        forall l :: l != x.home ==> ListAt(d.lists, l) == ListAt(c.lists, l)
      else d.items == c.items[i := x.(fetched := true)] && d.lists == c.lists
  {
    var x := c.items[i];
    TouchRelinksIff(SetItem(c, i, x.(fetched := true)), i, now);
    hide Updated, Without;
    assert c.items[i := x.(fetched := true)][i := x.(fetched := true, time := now)] ==
      c.items[i := x.(fetched := true, time := now)];
  }

  /** With segments it notes the time of a linked item, and takes it to the head of WARM exactly if it is active on
      COLD. */
  lemma TouchWarmsIff(c: Cache, i: Id, now: int)
    requires i in c.items
    ensures var x, d := c.items[i], Updated(c, i, now, true);
      var warm := ListId(x.home.cls, Warm);
      d.table == c.table && d.bufs == c.bufs && d.holders == c.holders &&
      if !x.linked then d == c
      else if x.active && x.home.lru == Cold then
        d.items == c.items[i := x.(time := now, home := warm, active := false)] &&
        ListAt(d.lists, warm) == [It(i)] + ListAt(c.lists, warm) &&
        ListAt(d.lists, x.home) == Without(ListAt(c.lists, x.home), It(i)) &&
        forall l :: l != x.home && l != warm ==> ListAt(d.lists, l) == ListAt(c.lists, l)
      else d.items == c.items[i := x.(time := now)] && d.lists == c.lists
  {
    hide Without;
  }
}
