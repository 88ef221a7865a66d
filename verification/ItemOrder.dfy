/** The order of the lists: without segments, a list is in order of use, and an eviction takes the item that was
    longest unused of those that are free to go. */
module ItemOrder {
  import opened Basics
  import opened Items
  import opened LruPull
  import opened TailWalk
  import opened ItemRuns
  import opened ItemLife

  /** Nearer the head. */
  ghost predicate Precedes(s: seq<Entry>, x: Id, y: Id) {
    exists a, b :: 0 <= a < b < |s| && s[a] == It(x) && s[b] == It(y)
  }

  /** From head to tail the times do not grow. */
  ghost predicate Ordered(c: Cache) {
    forall l, x, y :: Precedes(ListAt(c.lists, l), x, y) && x in c.items && y in c.items ==>
      c.items[x].time >= c.items[y].time
  }

  /** Every item is on COLD, as without segments, and was last used at this time or before. */
  ghost predicate Compat(c: Cache, clock: int) {
    forall i :: i in c.items ==> c.items[i].home.lru == Cold && (c.items[i].linked ==> c.items[i].time <= clock)
  }

  // Lists that lose entries, and lists that gain one at the head

  ghost predicate Within(t: seq<Entry>, s: seq<Entry>) {
    forall x, y :: Precedes(t, x, y) ==> Precedes(s, x, y)
  }

  lemma {:induction false} WithoutWithin(s: seq<Entry>, e: Entry)
    ensures Within(Without(s, e), s)
  {
    if s != [] {
      var t := s[1..];
      WithoutWithin(t, e);
      forall x, y | Precedes(Without(s, e), x, y)
        ensures Precedes(s, x, y)
      {
        if s[0] == e {
          TailPrecedes(s, x, y);
        } else {
          FrontPrecedes(s[0], Without(t, e), x, y);
          if Precedes(Without(t, e), x, y) {
            TailPrecedes(s, x, y);
          } else {
            WithoutFrom(t, e, It(y));
            var b :| 0 <= b < |t| && t[b] == It(y);
            assert s[0] == It(x) && s[b + 1] == It(y);
          }
        }
      }
    }
  }

  lemma {:induction false} WithoutFrom(s: seq<Entry>, e: Entry, f: Entry)
    requires f in Without(s, e)
    ensures f in s
  {
    if s[0] != e {
      var r := [s[0]] + Without(s[1..], e);
      if f != s[0] {
        assert f in Without(s[1..], e);
        WithoutFrom(s[1..], e, f);
      }
    }
  }

  lemma TailPrecedes(s: seq<Entry>, x: Id, y: Id)
    requires s != [] && Precedes(s[1..], x, y)
    ensures Precedes(s, x, y)
  {
    var a, b :| 0 <= a < b < |s[1..]| && s[1..][a] == It(x) && s[1..][b] == It(y);
    assert s[a + 1] == It(x) && s[b + 1] == It(y);
  }

  lemma FrontPrecedes(e: Entry, t: seq<Entry>, x: Id, y: Id)
    requires Precedes([e] + t, x, y)
    ensures Precedes(t, x, y) || (e == It(x) && It(y) in t)
  {
    var s := [e] + t;
    var a, b :| 0 <= a < b < |s| && s[a] == It(x) && s[b] == It(y);
    assert t[b - 1] == It(y);
    if a > 0 {
      assert t[a - 1] == It(x);
    }
  }

  /** Lists only lose entries, and what is on them keeps its time. */
  ghost predicate Fewer(c: Cache, d: Cache) {
    (forall l :: Within(ListAt(d.lists, l), ListAt(c.lists, l))) &&
    forall i :: i in d.items && d.items[i].linked ==>
      i in c.items && c.items[i].linked && d.items[i].time == c.items[i].time
  }

  lemma FewerOrdered(c: Cache, d: Cache)
    requires Inv(d) && Ordered(c) && Fewer(c, d)
    ensures Ordered(d)
  {
    forall l, x, y | Precedes(ListAt(d.lists, l), x, y) && x in d.items && y in d.items
      ensures d.items[x].time >= d.items[y].time
    {
      assert Within(ListAt(d.lists, l), ListAt(c.lists, l));
      var s := ListAt(d.lists, l);
      var a, b :| 0 <= a < b < |s| && s[a] == It(x) && s[b] == It(y);
      assert On(d.lists, l, x) && On(d.lists, l, y);
      OnIsLinked(d, l, x);
      OnIsLinked(d, l, y);
    }
  }

  lemma WithinSame(s: seq<Entry>)
    ensures Within(s, s)
  {
  }

  ghost predicate PutFirst(t: seq<Entry>, s: seq<Entry>, i: Id) {
    t != [] && t[0] == It(i) && Within(t[1..], s)
  }

  /** One item at the head of its list with the latest time, and the other lists and items as they were. */
  ghost predicate OnTop(c: Cache, d: Cache, i: Id) {
    i in d.items && d.items[i].linked &&
    PutFirst(ListAt(d.lists, d.items[i].home), ListAt(c.lists, d.items[i].home), i) &&
    (forall l :: l != d.items[i].home ==> Within(ListAt(d.lists, l), ListAt(c.lists, l))) &&
    (forall j :: j in d.items && d.items[j].linked && j != i ==> j in c.items && d.items[j].time == c.items[j].time) &&
    forall j :: j in d.items && d.items[j].linked ==> d.items[j].time <= d.items[i].time
  }

  lemma OnTopOrdered(c: Cache, d: Cache, i: Id)
    requires Inv(d) && Ordered(c) && OnTop(c, d, i)
    ensures Ordered(d)
  {
    forall l, x, y | Precedes(ListAt(d.lists, l), x, y) && x in d.items && y in d.items
      ensures d.items[x].time >= d.items[y].time
    {
      BothOn(d, l, x, y);
      hide Inv;
      if x != i {
        OnTopPrecedes(c, d, i, l, x, y);
      }
    }
  }

  lemma BothOn(d: Cache, l: ListId, x: Id, y: Id)
    requires Inv(d) && Precedes(ListAt(d.lists, l), x, y)
    ensures x in d.items && d.items[x].linked && d.items[x].home == l
    ensures y in d.items && d.items[y].linked && d.items[y].home == l
  {
    var t := ListAt(d.lists, l);
    var a, b :| 0 <= a < b < |t| && t[a] == It(x) && t[b] == It(y);
    assert On(d.lists, l, x) && On(d.lists, l, y);
    OnIsLinked(d, l, x);
    OnIsLinked(d, l, y);
  }

  lemma OnTopPrecedes(c: Cache, d: Cache, i: Id, l: ListId, x: Id, y: Id)
    requires Inv(d) && OnTop(c, d, i) && Precedes(ListAt(d.lists, l), x, y) && x != i
    ensures y != i && Precedes(ListAt(c.lists, l), x, y)
  {
    var t := ListAt(d.lists, l);
    BothOn(d, l, x, y);
    if l == d.items[i].home {
      assert t == [t[0]] + t[1..];
      FrontPrecedes(t[0], t[1..], x, y);
      NotFirst(d, l, x, y);
    }
    hide Inv, Precedes;
  }

  lemma NotFirst(d: Cache, l: ListId, x: Id, y: Id)
    requires Inv(d) && Precedes(ListAt(d.lists, l), x, y)
    ensures ListAt(d.lists, l)[0] != It(y)
  {
    var t := ListAt(d.lists, l);
    assert NoRepeats(t);
    var a, b :| 0 <= a < b < |t| && t[a] == It(x) && t[b] == It(y);
    assert t[0] != t[b];
  }

  lemma SameLists(c: Cache, d: Cache)
    requires d.lists == c.lists
    requires forall i :: i in d.items && d.items[i].linked ==>
      i in c.items && c.items[i].linked && d.items[i].time == c.items[i].time
    ensures Fewer(c, d)
  {
    hide Within;
    forall l
      ensures Within(ListAt(d.lists, l), ListAt(c.lists, l))
    {
      WithinSame(ListAt(c.lists, l));
    }
  }

  lemma CutLists(c: Cache, d: Cache, l: ListId, e: Entry)
    requires d.lists == c.lists[l := Without(ListAt(c.lists, l), e)]
    requires forall i :: i in d.items && d.items[i].linked ==>
      i in c.items && c.items[i].linked && d.items[i].time == c.items[i].time
    ensures Fewer(c, d)
  {
    hide Within;
    forall m
      ensures Within(ListAt(d.lists, m), ListAt(c.lists, m))
    {
      WithinSame(ListAt(c.lists, m));
      WithoutWithin(ListAt(c.lists, l), e);
    }
  }

  // The operations

  lemma LinkTops(c: Cache, i: Id, now: int)
    requires Inv(c) && i in c.items && !c.items[i].linked && c.items[i].key !in c.table && Compat(c, now)
    ensures OnTop(c, Linked(c, i, now), i) && Compat(Linked(c, i, now), now)
  {
    hide Linked, Inv, OnTop;
    LinkedIs(c, i, now);
    var d, x := Linked(c, i, now), c.items[i];
    FirstOnTop(c, d, i, x.(linked := true, time := now, refcount := x.refcount + 1), ListAt(c.lists, x.home));
  }

  lemma FirstOnTop(c: Cache, d: Cache, i: Id, x: Item, s: seq<Entry>)
    requires d.items == c.items[i := x] && x.linked && d.lists == c.lists[x.home := [It(i)] + s]
    requires Within(s, ListAt(c.lists, x.home))
    requires forall j :: j in c.items && c.items[j].linked ==> c.items[j].time <= x.time
    ensures OnTop(c, d, i)
  {
    hide Within;
    forall m
      ensures Within(ListAt(c.lists, m), ListAt(c.lists, m))
    {
      WithinSame(ListAt(c.lists, m));
    }
    assert ListAt(d.lists, x.home)[1..] == s;
  }

  lemma UnlinkFewer(c: Cache, i: Id)
    requires i in c.items && c.items[i].refcount > 0
    ensures Fewer(c, Unlinked(c, i))
  {
    var d := Unlinked(c, i);
    forall j | j in d.items && d.items[j].linked
      ensures j in c.items && c.items[j].linked && d.items[j].time == c.items[j].time
    {
      DroppedKeys(c, i);
      UnlinkedItem(c, i, j);
    }
    if c.items[i].linked {
      UnlinkedLists(c, i);
      hide Unlinked;
      CutLists(c, d, c.items[i].home, It(i));
    } else {
      SameLists(c, d);
    }
  }

  lemma KillFewer(c: Cache, i: Id)
    requires i in c.items && c.items[i].refcount > 0 && c.items[i].linked
    ensures i in Unlinked(Taken(c, i), i).items && Unlinked(Taken(c, i), i).items[i].refcount > 0
    ensures Fewer(c, Released(Unlinked(Taken(c, i), i), i))
  {
    KillIs(c, i);
    KilledLists(c, i);
    var d := Released(Unlinked(Taken(c, i), i), i);
    hide Released, Unlinked;
    CutLists(c, d, c.items[i].home, It(i));
  }

  /** Without segments an update does nothing, or takes the item to the head under the time of the update. */
  lemma UpdateTops(c: Cache, i: Id, now: int)
    requires Inv(c) && i in c.items && Compat(c, now)
    ensures var d := Updated(c, i, now, false); (d == c || OnTop(c, d, i)) && Compat(d, now)
  {
    var x, d := c.items[i], Updated(c, i, now, false);
    if x.time < now - ITEM_UPDATE_INTERVAL && x.linked {
      var l := x.home;
      assert d == c.(items := c.items[i := x.(time := now)],
                     lists := c.lists[l := [It(i)] + Without(ListAt(c.lists, l), It(i))]) by {
        MovedIs(c, i, now);
      }
      hide Updated, Within, Inv, Without, OnTop;
      WithoutWithin(ListAt(c.lists, l), It(i));
      FirstOnTop(c, d, i, x.(time := now), Without(ListAt(c.lists, l), It(i)));
    }
  }

  lemma MovedIs(c: Cache, i: Id, now: int)
    requires i in c.items
    ensures var x := c.items[i];
      Moved(c, i, x.(time := now)) ==
        c.(items := c.items[i := x.(time := now)],
           lists := c.lists[x.home := [It(i)] + Without(ListAt(c.lists, x.home), It(i))])
  {
    hide Without;
    var x, s := c.items[i], Without(ListAt(c.lists, c.items[i].home), It(i));
    assert c.lists[x.home := s][x.home := [It(i)] + s] == c.lists[x.home := [It(i)] + s];
  }

  lemma UpdateOrdered(c: Cache, i: Id, now: int)
    requires Inv(c) && i in c.items && Compat(c, now) && Ordered(c)
    ensures var d := Updated(c, i, now, false); Inv(d) && Ordered(d) && Compat(d, now)
  {
    UpdateKeeps(c, i, now, false);
    UpdateTops(c, i, now);
    hide Inv, Updated, OnTop, Ordered, Compat;
    if Updated(c, i, now, false) != c {
      OnTopOrdered(c, Updated(c, i, now, false), i);
    }
  }

  /** A change to an item that touches neither its place nor its time. */
  lemma MarkOrdered(c: Cache, i: Id, x: Item, clock: int)
    requires Inv(c) && Ordered(c) && Compat(c, clock) && i in c.items && Inv(SetItem(c, i, x))
    requires x.time == c.items[i].time && x.home == c.items[i].home && x.linked == c.items[i].linked
    ensures Ordered(SetItem(c, i, x)) && Compat(SetItem(c, i, x), clock)
  {
    hide Inv, Ordered, Fewer;
    SameLists(c, SetItem(c, i, x));
    FewerOrdered(c, SetItem(c, i, x));
  }

  lemma BumpOrdered(c: Cache, b: nat, i: Id, room: bool, now: int)
    requires Inv(c) && i in c.items && b < |c.bufs| && Compat(c, now) && Ordered(c)
    ensures var d := Bumped(c, b, i, room, now, false); Inv(d) && Ordered(d) && Compat(d, now)
  {
    hide Inv, Ordered, Compat, Updated;
    var x := c.items[i].(fetched := true);
    SetKeeps(c, i, x);
    MarkOrdered(c, i, x, now);
    UpdateOrdered(SetItem(c, i, x), i, now);
  }

  lemma TouchOrdered(c: Cache, i: Id, exptime: int, clock: int)
    requires Inv(c) && Ordered(c) && Compat(c, clock) && i in c.items
    ensures Ordered(Touched(c, i, exptime)) && Compat(Touched(c, i, exptime), clock)
  {
    hide Inv, Ordered, Compat;
    TouchKeeps(c, i, exptime);
    MarkOrdered(c, i, c.items[i].(exptime := exptime), clock);
  }

  /** Fewer entries, and no item in another place. */
  lemma FewerStep(c: Cache, d: Cache, clock: int, later: int)
    requires Inv(d) && Ordered(c) && Compat(c, clock) && Fewer(c, d) && clock <= later
    requires forall i :: i in d.items ==> i in c.items && d.items[i].home == c.items[i].home
    ensures Ordered(d) && Compat(d, later)
  {
    FewerOrdered(c, d);
  }

  // Walks and the crawler

  lemma CompatSource(c: Cache, p: Pull, i: Id, clock: int)
    requires Inv(c) && Compat(c, clock) && On(c.lists, Source(p), i)
    ensures p.lru == Cold && i in c.items
  {
    OnIsLinked(c, Source(p), i);
  }

  lemma VisitKeepsPlace(c: Cache, p: Pull, i: Id, j: Id)
    requires Inv(c) && On(c.lists, Source(p), i) && p.lru == Cold && !p.segmented && j in After(c, p, i).items
    ensures j in c.items
    ensures var x, y := c.items[j], After(c, p, i).items[j];
      y.home == x.home && y.time == x.time && (y.linked ==> x.linked)
  {
    hide Inv, After, On, Bytes, Visited;
    NothingNew(c, p, i);
    if j == i {
      OnIsLinked(c, Source(p), i);
      VisitExact(c, p, i);
      if i in p.busy { SkipIs(c, p, i); }
    } else {
      OthersSpared(c, p, i, j);
    }
  }

  lemma VisitFewer(c: Cache, p: Pull, i: Id, clock: int)
    requires Inv(c) && Compat(c, clock) && On(c.lists, Source(p), i) && !p.segmented
    ensures Fewer(c, After(c, p, i))
    ensures var d := After(c, p, i); forall j :: j in d.items ==> j in c.items && d.items[j].home == c.items[j].home
  {
    hide Inv, After, Within, Without, Expired;
    CompatSource(c, p, i, clock);
    VisitLists(c, p, i);
    var d := After(c, p, i);
    forall j | j in d.items
      ensures j in c.items && d.items[j].home == c.items[j].home && d.items[j].time == c.items[j].time
      ensures d.items[j].linked ==> c.items[j].linked
    {
      VisitKeepsPlace(c, p, i, j);
    }
    forall l
      ensures Within(ListAt(d.lists, l), ListAt(c.lists, l))
    {
      WithinSame(ListAt(c.lists, l));
      WithoutWithin(ListAt(c.lists, l), It(i));
      assert ListAt(d.lists, l) == ListThen(c, p, i, l);
    }
  }

  lemma {:induction false} WalkOrdered(c: Cache, p: Pull, search: Option<Entry>, tries: nat, removed: nat, clock: int)
    requires Inv(c) && (search.Some? ==> search.value in SourceList(c, p))
    requires Ordered(c) && Compat(c, clock) && !p.segmented
    ensures var d := Walked(c, p, search, tries, removed).c; Ordered(d) && Compat(d, clock)
    decreases tries, Position(SourceList(c, p), search)
  {
    hide Inv, Visited, Settled, Before, IndexOf, Ordered, Compat, Fewer;
    if tries > 0 && search.Some? {
      var s := SourceList(c, p);
      UniqueSource(c, p);
      BeforeIsCloser(s, search.value);
      var prev := Before(s, search.value);
      match search.value
      case Crawler =>
        if !p.crawlBlocks { WalkOrdered(c, p, prev, tries, removed, clock); }
      case It(i) =>
        VisitKeeps(c, p, i);
        assert On(c.lists, Source(p), i);
        VisitFewer(c, p, i, clock);
        AfterInv(c, p, i);
        FewerStep(c, After(c, p, i), clock, clock);
        var v := Visited(c, p, i);
        if v.Next? {
          if prev.Some? { NextKeepsOthers(c, p, i, prev.value); }
          WalkOrdered(v.c, p, prev, tries - 1, removed + v.removed, clock);
        }
    }
  }

  lemma CrawlerWithin(c: Cache, l: ListId, t: seq<Entry>)
    requires Within(t, ListAt(c.lists, l))
    ensures Fewer(c, SetList(c, l, t))
  {
    hide Within;
    var d := SetList(c, l, t);
    forall m
      ensures Within(ListAt(d.lists, m), ListAt(c.lists, m))
    {
      WithinSame(ListAt(c.lists, m));
    }
  }

  lemma LastWithin(s: seq<Entry>)
    ensures Within(s + [Crawler], s)
  {
    var t := s + [Crawler];
    forall x, y | Precedes(t, x, y)
      ensures Precedes(s, x, y)
    {
      var a, b :| 0 <= a < b < |t| && t[a] == It(x) && t[b] == It(y);
      assert s[a] == It(x) && s[b] == It(y);
    }
  }

  lemma StepWithin(s: seq<Entry>)
    requires Crawler in s
    ensures Within(Stepped(s), s)
  {
    var i, t := IndexOf(s, Crawler), Stepped(s);
    forall x, y | Precedes(t, x, y)
      ensures Precedes(s, x, y)
    {
      if i > 0 {
        var a, b :| 0 <= a < b < |t| && t[a] == It(x) && t[b] == It(y);
        var a', b' := if a == i then i - 1 else a, if b == i then i - 1 else b;
        assert s[a'] == It(x) && s[b'] == It(y) && a' < b';
      } else if |s| > 1 {
        TailPrecedes(s, x, y);
      }
    }
  }

  // Runs

  /** Events of a server without segments, with a clock that does not go back: items are made for COLD, and each
      operation happens at the time on the clock. */
  predicate CompatEvent(e: Event, clock: int) {
    match e
    case Alloc(_, _, home, _, _, _) => home.lru == Cold
    case Link(_, now) => clock <= now
    case Replace(_, _, now) => clock <= now
    case Update(_, now, segmented) => !segmented && clock <= now
    case Get(_, _, _, _, now, _, segmented) => !segmented && clock <= now
    case Bump(_, _, _, now, segmented) => !segmented && clock <= now
    case Drain(_, now, segmented) => !segmented && clock <= now
    case PullTail(p) => !p.segmented
    case Visit(p, _) => !p.segmented
    case _ => true
  }

  function Later(e: Event, clock: int): int {
    match e
    case Link(_, now) => now
    case Replace(_, _, now) => now
    case Update(_, now, _) => now
    case Get(_, _, _, _, now, _, _) => now
    case Bump(_, _, _, now, _) => now
    case Drain(_, now, _) => now
    case _ => clock
  }

  lemma CompatLater(c: Cache, clock: int, later: int)
    requires Compat(c, clock) && clock <= later
    ensures Compat(c, later)
  {
  }

  lemma ReplaceOrdered(c: Cache, i: Id, j: Id, now: int)
    requires Inv(c) && Enabled(c, Replace(i, j, now)) && Ordered(c) && Compat(c, now)
    ensures var d := Apply(c, Replace(i, j, now)); Ordered(d) && Compat(d, now)
  {
    hide Inv, Linked, Unlinked, Ordered, Compat, Fewer, OnTop;
    UnlinkKeeps(c, i);
    UnlinkFewer(c, i);
    UnlinkedHomes(c, i);
    UnlinkedSpares(c, i, j);
    var c1 := Unlinked(c, i);
    FewerStep(c, c1, now, now);
    LinkKeeps(c1, j, now);
    LinkTops(c1, j, now);
    OnTopOrdered(c1, Linked(c1, j, now), j);
  }

  lemma UnlinkedHomes(c: Cache, i: Id)
    requires i in c.items && c.items[i].refcount > 0
    ensures var d := Unlinked(c, i); forall j :: j in d.items ==> j in c.items && d.items[j].home == c.items[j].home
  {
    var d := Unlinked(c, i);
    forall j | j in d.items
      ensures j in c.items && d.items[j].home == c.items[j].home
    {
      DroppedKeys(c, i);
      UnlinkedItem(c, i, j);
    }
  }

  lemma GetOrdered(c: Cache, e: Event, clock: int)
    requires Inv(c) && Enabled(c, e) && e.Get? && !e.segmented && Ordered(c) && Compat(c, e.now)
    ensures var d := Apply(c, e); Ordered(d) && Compat(d, e.now)
  {
    hide Inv, Unlinked, Released, Ordered, Compat, Fewer, Bumped;
    if e.key in c.table {
      InTable(c, e.key);
      var i := c.table[e.key];
      if Live(c.items[i], e.flushed, e.now) {
        TakeOrdered(c, i, e.now);
        BumpOrdered(Taken(c, i), e.b, i, e.room, e.now);
      } else {
        KillOrdered(c, i, e.now);
      }
    }
  }

  lemma TakeOrdered(c: Cache, i: Id, clock: int)
    requires Inv(c) && Ordered(c) && Compat(c, clock) && i in c.items
    ensures Inv(Taken(c, i)) && Ordered(Taken(c, i)) && Compat(Taken(c, i), clock)
  {
    hide Inv, Ordered, Fewer;
    TakeKeeps(c, i);
    SameLists(c, Taken(c, i));
    FewerOrdered(c, Taken(c, i));
  }

  lemma KillOrdered(c: Cache, i: Id, clock: int)
    requires Inv(c) && Ordered(c) && Compat(c, clock) && i in c.items && c.items[i].linked
    ensures i in Unlinked(Taken(c, i), i).items && Unlinked(Taken(c, i), i).items[i].refcount > 0
    ensures var d := Released(Unlinked(Taken(c, i), i), i); Ordered(d) && Compat(d, clock)
  {
    hide Inv, Ordered, Fewer, Unlinked, Released;
    RefCountPositive(c, i);
    KillKeeps(c, i);
    KillFewer(c, i);
    KillIs(c, i);
    FewerStep(c, Released(Unlinked(Taken(c, i), i), i), clock, clock);
  }

  lemma DrainOrdered(c: Cache, b: nat, now: int)
    requires Inv(c) && b < |c.bufs| && c.bufs[b] != [] && Ordered(c) && Compat(c, now)
    ensures c.bufs[b][0] in c.items && c.items[c.bufs[b][0]].refcount > 0
    ensures var d := Drained(c, b, now, false); Ordered(d) && Compat(d, now)
  {
    hide Inv, Ordered, Fewer, Updated, InvBut;
    DrainKeeps(c, b, now, false);
    var i := c.bufs[b][0];
    UpdateOrdered(c, i, now);
    UpdatedBufs(c, i, now, false);
    var u, d := Updated(c, i, now, false), Drained(c, b, now, false);
    assert d == Drop(u.(bufs := d.bufs), i);
    DropFewerBufs(u, d.bufs, i);
    FewerStep(u, d, now, now);
  }

  lemma DropFewerBufs(c: Cache, bufs: seq<seq<Id>>, i: Id)
    requires i in c.items && c.items[i].refcount > 0
    ensures var d := Drop(c.(bufs := bufs), i);
      Fewer(c, d) && forall j :: j in d.items ==> j in c.items && d.items[j].home == c.items[j].home
  {
    SameLists(c, Drop(c.(bufs := bufs), i));
  }

  lemma ReleaseOrdered(c: Cache, i: Id, clock: int)
    requires Inv(c) && Ordered(c) && Compat(c, clock) && i in c.holders
    ensures i in c.items && c.items[i].refcount > 0 && Ordered(Released(c, i)) && Compat(Released(c, i), clock)
  {
    hide Inv, Ordered, Fewer;
    ReleaseKeeps(c, i);
    SameLists(c, Released(c, i));
    FewerStep(c, Released(c, i), clock, clock);
  }

  lemma EvalOrdered(c: Cache, l: ListId, i: Id, dead: bool, clock: int)
    requires Inv(c) && Ordered(c) && Compat(c, clock) && On(c.lists, l, i)
    ensures i in c.items && c.items[i].refcount > 0
    ensures Ordered(Evaluated(c, i, dead)) && Compat(Evaluated(c, i, dead), clock)
  {
    hide Inv, Ordered, Compat, Unlinked, Released, Taken, On;
    OnIsLinked(c, l, i);
    RefCountPositive(c, i);
    KillKeeps(c, i);
    KillOrdered(c, i, clock);
  }

  lemma CrawlerOrdered(c: Cache, e: Event, clock: int)
    requires Inv(c) && Enabled(c, e) && Ordered(c) && Compat(c, clock)
    requires e.CrawlerLink? || e.CrawlerStep? || e.CrawlerUnlink?
    ensures Ordered(Apply(c, e)) && Compat(Apply(c, e), clock)
  {
    hide Inv, Ordered, Within, Fewer, Stepped, Without;
    var s := ListAt(c.lists, e.l);
    if e.CrawlerLink? {
      LastWithin(s);
      CrawlerWithin(c, e.l, s + [Crawler]);
    } else if e.CrawlerStep? {
      StepWithin(s);
      CrawlerWithin(c, e.l, Stepped(s));
    } else {
      WithoutWithin(s, Crawler);
      CrawlerWithin(c, e.l, Without(s, Crawler));
    }
    FewerOrdered(c, Apply(c, e));
  }

  lemma AllocOrdered(c: Cache, e: Event, clock: int)
    requires Inv(c) && Enabled(c, e) && e.Alloc? && Ordered(c) && Compat(c, clock) && e.home.lru == Cold
    ensures Ordered(Apply(c, e)) && Compat(Apply(c, e), clock)
  {
    hide Inv, Ordered, Fewer;
    SameLists(c, Apply(c, e));
    FewerOrdered(c, Apply(c, e));
  }

  lemma StepOrdered(c: Cache, e: Event, clock: int)
    requires Inv(c) && Enabled(c, e) && Ordered(c) && Compat(c, clock) && CompatEvent(e, clock)
    ensures Ordered(Apply(c, e)) && Compat(Apply(c, e), Later(e, clock)) && clock <= Later(e, clock)
  {
    hide Inv, On, Ordered, Compat, Allocated, Linked, Unlinked, Released, Updated, Replaced, Got, Bumped, Drained,
      Touched, Walked, After, Evaluated, Stepped, Without, Fewer, OnTop;
    var later := Later(e, clock);
    CompatLater(c, clock, later);
    match e
    case Alloc(_, _, _, _, _, _) => AllocOrdered(c, e, clock);
    case Link(i, now) => LinkTops(c, i, now); LinkKeeps(c, i, now); OnTopOrdered(c, Linked(c, i, now), i);
    case Unlink(i) =>
      UnlinkKeeps(c, i);
      UnlinkFewer(c, i);
      UnlinkedHomes(c, i);
      FewerStep(c, Unlinked(c, i), clock, clock);
    case Release(i) => ReleaseOrdered(c, i, clock);
    case Update(i, now, segmented) => UpdateOrdered(c, i, now);
    case Replace(i, j, now) => ReplaceOrdered(c, i, j, now);
    case Get(_, _, _, _, _, _, _) => GetOrdered(c, e, clock);
    case Touch(i, exptime) => TouchOrdered(c, i, exptime, clock);
    case Bump(b, i, room, now, segmented) => BumpOrdered(c, b, i, room, now);
    case Drain(b, now, segmented) => DrainOrdered(c, b, now);
    case PullTail(p) => WalkOrdered(c, p, Last(SourceList(c, p)), 5, 0, clock);
    case Visit(p, i) => VisitFewer(c, p, i, clock); AfterInv(c, p, i); FewerStep(c, After(c, p, i), clock, clock);
    case CrawlerLink(_) => CrawlerOrdered(c, e, clock);
    case CrawlerStep(_) => CrawlerOrdered(c, e, clock);
    case CrawlerUnlink(_) => CrawlerOrdered(c, e, clock);
    case CrawlerEval(l, i, dead) => EvalOrdered(c, l, i, dead, clock);
  }

  ghost predicate CompatRun(c: Cache, es: seq<Event>, clock: int)
    requires Inv(c) && IsRun(c, es)
    decreases es
  {
    es == [] || (CompatEvent(es[0], clock) && CompatRun(Apply(c, es[0]), es[1..], Later(es[0], clock)))
  }

  lemma {:induction false} RunOrdered(c: Cache, es: seq<Event>, clock: int) returns (later: int)
    requires Inv(c) && IsRun(c, es) && CompatRun(c, es, clock) && Ordered(c) && Compat(c, clock)
    ensures Ordered(Run(c, es)) && Compat(Run(c, es), later)
    decreases es
  {
    hide Inv, Apply, Enabled, Ordered, Compat;
    later := clock;
    if es != [] {
      StepOrdered(c, es[0], clock);
      later := RunOrdered(Apply(c, es[0]), es[1..], Later(es[0], clock));
    }
  }

  /** After any run of such a server from an empty cache: if a pull takes a live item off a list, then every item of
      that list that was used longer ago is locked or expired. */
  lemma EvictsLeastRecent(start: Cache, es: seq<Event>, clock: int, p: Pull, i: Id, j: Id)
    requires Fresh(start) && (FreshInv(start); IsRun(start, es) && CompatRun(start, es, clock))
    requires (FreshInv(start); var c := Run(start, es);
              Is(c, i) && Ends(c, PullTail(p), i) && !Expired(p, i, c.items[i]) &&
              Is(c, j) && c.items[j].home == c.items[i].home && c.items[j].time < c.items[i].time)
    ensures (FreshInv(start); j in p.busy || Expired(p, j, Run(start, es).items[j]))
  {
    FreshInv(start);
    FreshOrdered(start, clock);
    var later := RunOrdered(start, es, clock);
    hide Inv, IsRun, Run, CompatRun, Fresh, Ordered, Compat, Ends, Expired;
    OlderIsStuck(Run(start, es), p, i, j);
  }

  lemma OlderIsStuck(c: Cache, p: Pull, i: Id, j: Id)
    requires Inv(c) && Ordered(c) && Is(c, i) && Ends(c, PullTail(p), i) && !Expired(p, i, c.items[i])
    requires Is(c, j) && c.items[j].home == c.items[i].home && c.items[j].time < c.items[i].time
    ensures j in p.busy || Expired(p, j, c.items[j])
  {
    hide Inv, Ordered, Precedes;
    MetIsLinked(c, p, i);
    ListedIs(c, j);
    NotBefore(c, Source(p), j, i);
    Behind(c, p, SourceList(c, p), i, j);
  }

  lemma ListedIs(c: Cache, j: Id)
    requires Inv(c) && Is(c, j)
    ensures It(j) in ListAt(c.lists, c.items[j].home)
  {
    assert On(c.lists, c.items[j].home, j);
  }

  lemma Behind(c: Cache, p: Pull, s: seq<Entry>, i: Id, j: Id)
    requires Meets(c, p, s, 5, It(i)) && It(j) in s && i != j && !Precedes(s, j, i)
    ensures Passes(c, p, It(j))
  {
    hide Passes;
    var k :| 0 <= k < |s| && MeetsAt(c, p, s, 5, It(i), k);
    var m :| 0 <= m < |s| && s[m] == It(j);
    assert s[k] == It(i) && m > k;
    assert Passes(c, p, s[m]);
  }

  lemma NotBefore(c: Cache, l: ListId, j: Id, i: Id)
    requires Ordered(c) && i in c.items && j in c.items && c.items[j].time < c.items[i].time
    ensures !Precedes(ListAt(c.lists, l), j, i)
  {
  }

  lemma FreshOrdered(c: Cache, clock: int)
    requires Fresh(c)
    ensures Ordered(c) && Compat(c, clock)
  {
  }
}
