/** `lru_pull_tail` as a whole: a bounded walk from the tail of one list. */
module LruPull {
  import opened Basics
  import opened Items

  /** `removed`, the item stored in `ret_it`, and the item whose reference is still held. */
  datatype Pulled = Pulled(c: Cache, removed: nat, ret: Option<Id>, kept: Option<Id>)

  function Last(s: seq<Entry>): Option<Entry> {
    if s == [] then None else Some(s[|s| - 1])
  }

  /** `search->prev`. */
  function Before(s: seq<Entry>, e: Entry): Option<Entry>
    requires e in s
  {
    var i := IndexOf(s, e);
    if i == 0 then None else Some(s[i - 1])
  }

  function Position(s: seq<Entry>, e: Option<Entry>): nat
    requires e.Some? ==> e.value in s
  {
    if e.None? then 0 else IndexOf(s, e.value) + 1
  }

  lemma BeforeIsCloser(s: seq<Entry>, e: Entry)
    requires NoRepeats(s) && e in s
    ensures var b := Before(s, e);
      (b.Some? ==> b.value in s && b.value != e) && Position(s, b) == IndexOf(s, e)
  {
    var i := IndexOf(s, e);
    if i > 0 {
      IndexIs(s, s[i - 1], i - 1);
    }
  }

  ghost function SourceList(c: Cache, p: Pull): seq<Entry> {
    ListAt(c.lists, Source(p))
  }

  lemma KilledLists(c: Cache, i: Id)
    requires i in c.items && c.items[i].refcount > 0 && c.items[i].linked
    ensures var l := c.items[i].home;
      Released(Unlinked(Taken(c, i), i), i).lists == c.lists[l := Without(ListAt(c.lists, l), It(i))]
  {
    hide Without, ListAt;
  }

  lemma RelinkedLists(c: Cache, i: Id)
    requires i in c.items && c.items[i].refcount > 0
    ensures var l, c1 := c.items[i].home, Taken(c, i);
      Released(LinkQ(UnlinkQ(SetItem(c1, i, c1.items[i].(active := false)), i), i), i).lists ==
      c.lists[l := [It(i)] + Without(ListAt(c.lists, l), It(i))]
  {
    hide Without;
  }

  /** Going on leaves the list as it was, or without the item, or with it at the head. */
  lemma NextLists(c: Cache, p: Pull, i: Id)
    requires i in c.items && c.items[i].refcount > 0 && c.items[i].linked && c.items[i].home == Source(p)
    requires Visited(c, p, i).Next?
    ensures var s, t := SourceList(c, p), SourceList(Visited(c, p, i).c, p);
      t == s || t == Without(s, It(i)) || t == [It(i)] + Without(s, It(i))
  {
    KilledLists(c, i);
    RelinkedLists(c, i);
    hide Without, Released, Unlinked, LinkQ, UnlinkQ, Taken, Bytes, Limit;
  }

  lemma NextKeepsOthers(c: Cache, p: Pull, i: Id, e: Entry)
    requires Inv(c) && On(c.lists, Source(p), i) && i in c.items && c.items[i].refcount > 0
    requires Visited(c, p, i).Next? && e in SourceList(c, p) && e != It(i)
    ensures e in SourceList(Visited(c, p, i).c, p)
  {
    hide Inv, Visited, Without;
    OnIsLinked(c, Source(p), i);
    UniqueSource(c, p);
    WithoutSeq(SourceList(c, p), i);
    NextLists(c, p, i);
  }

  lemma UniqueSource(c: Cache, p: Pull)
    requires Inv(c)
    ensures NoRepeats(SourceList(c, p))
  {
  }

  // The walk

  /** The loop, with `tries` turns left; a crawler costs none. */
  ghost function Walked(c: Cache, p: Pull, search: Option<Entry>, tries: nat, removed: nat): (r: Pulled)
    requires Inv(c) && (search.Some? ==> search.value in SourceList(c, p))
    ensures Inv(r.c)
    decreases tries, Position(SourceList(c, p), search)
  {
    if tries == 0 || search.None? then Pulled(c, removed, None, None) else
    var s := SourceList(c, p);
    UniqueSource(c, p);
    BeforeIsCloser(s, search.value);
    var prev := Before(s, search.value);
    match search.value
    case Crawler =>
      if p.crawlBlocks then Pulled(c, 0, None, None) else Walked(c, p, prev, tries, removed)
    case It(i) =>
      VisitKeeps(c, p, i);
      var v := Visited(c, p, i);
      if v.Next? then
        assert prev.Some? ==> prev.value in SourceList(v.c, p) by {
          if prev.Some? { NextKeepsOthers(c, p, i, prev.value); }
        }
        Walked(v.c, p, prev, tries - 1, removed + v.removed)
      else
        Pulled(Settled(v.c, p, i, v.to), removed + v.removed,
               if p.returnItem && p.lru == Cold && !p.evict then Some(i) else None,
               if p.returnItem then Some(i) else None)
  }

  /** `lru_pull_tail`. */
  ghost function PulledTail(c: Cache, p: Pull): (r: Pulled)
    requires Inv(c)
    ensures Inv(r.c)
  {
    if p.cls == 0 then Pulled(c, 0, None, None)
    else Walked(c, p, Last(SourceList(c, p)), 5, 0)
  }

  // What becomes of the items

  ghost function Now(c: Cache, j: Id): Option<Item> {
    if j in c.items then Some(c.items[j]) else None
  }

  ghost predicate Alike(x: Item, y: Item) {
    y.key == x.key && y.exptime == x.exptime && y.time == x.time && y.fetched == x.fetched && y.bytes == x.bytes &&
    (y.active ==> x.active)
  }

  /** From which segment to which, and for whom. */
  ghost predicate MayMove(p: Pull, x: Item, to: Lru) {
    (to == Warm && x.active && (p.lru == Hot || (p.lru == Cold && p.segmented && !p.evict && !p.returnItem))) ||
    (to == Cold && (p.lru == Warm || (p.lru == Hot && !x.active)))
  }

  /** `x` before the call, `y` after it. */
  ghost predicate Fate(p: Pull, j: Id, x: Item, y: Option<Item>) {
    // items that are not on the list are not touched
    (!x.linked || x.home != Source(p) ==> y == Some(x)) &&
    // only the dead are unlinked, or, from COLD when evicting, the one in the way
    (x.linked && (y.None? || !y.value.linked) ==>
      j !in p.busy && (Dead(p, j, x) || (p.lru == Cold && p.evict && p.evictToFree))) &&
    (y.Some? ==> Alike(x, y.value) && (y.value.linked ==> x.linked)) &&
    (y.Some? && y.value.linked && y.value.home != x.home ==>
      j !in p.busy && !y.value.active && y.value.home.cls == x.home.cls && MayMove(p, x, y.value.home.lru)) &&
    (y.Some? && y.value.linked && y.value.home == x.home && y.value.active != x.active ==> p.lru == Warm)
  }

  ghost predicate Fates(p: Pull, c: Cache, d: Cache) {
    d.bufs == c.bufs && (forall j :: j in d.items ==> j in c.items) &&
    forall j :: j in c.items ==> Fate(p, j, c.items[j], Now(d, j))
  }

  lemma SettledItem(c: Cache, p: Pull, i: Id, to: Option<Lru>, j: Id)
    requires i in c.items && c.items[i].refcount > 0 && j in c.items
    ensures var d, x := Settled(c, p, i, to), c.items[j];
      d.bufs == c.bufs && (if j != i then Now(d, j) == Some(x) else
      match Now(d, j)
      case None => !p.returnItem && x.refcount == 1
      case Some(y) =>
        y == x.(home := y.home, refcount := y.refcount) &&
        y.home == (if to.Some? then ListId(x.home.cls, to.value) else x.home))
  {
  }

  /** The state a visit leaves, settled if the walk stops there. */
  ghost function After(c: Cache, p: Pull, i: Id): Cache
    requires Inv(c) && On(c.lists, Source(p), i)
  {
    VisitKeeps(c, p, i);
    var v := Visited(c, p, i);
    if v.Next? then v.c else Settled(v.c, p, i, v.to)
  }

  lemma AfterInv(c: Cache, p: Pull, i: Id)
    requires Inv(c) && On(c.lists, Source(p), i)
    ensures Inv(After(c, p, i))
  {
    hide Inv, Visited, Settled;
    VisitKeeps(c, p, i);
  }

  lemma UnlinkedItem(c: Cache, i: Id, j: Id)
    requires i in c.items && c.items[i].refcount > 0 && j in c.items
    ensures var d, x := Unlinked(c, i), c.items[j];
      d.bufs == c.bufs && (if j != i then Now(d, j) == Some(x)
      else if !x.linked then Now(d, j) == Some(x)
      else if x.refcount == 1 then Now(d, j) == None
      else Now(d, j) == Some(x.(linked := false, refcount := x.refcount - 1)))
  {
  }

  lemma ReleasedItem(c: Cache, i: Id, j: Id)
    requires i in c.items && c.items[i].refcount > 0 && j in c.items
    ensures var d, x := Released(c, i), c.items[j];
      d.bufs == c.bufs && (if j != i then Now(d, j) == Some(x)
      else if x.refcount == 1 then Now(d, j) == None
      else Now(d, j) == Some(x.(refcount := x.refcount - 1)))
  {
  }

  lemma VisitedItem(c: Cache, p: Pull, i: Id, j: Id)
    requires i in c.items && c.items[i].refcount > 0 && c.items[i].linked && j in c.items && j != i
    ensures var v := Visited(c, p, i); v.c.bufs == c.bufs && Now(v.c, j) == Some(c.items[j])
  {
    var c1 := Taken(c, i);
    UnlinkedItem(c1, i, j);
    UnlinkedItem(c1, i, i);
    ReleasedItem(Unlinked(c1, i), i, j);
    var c2 := SetItem(c1, i, c1.items[i].(active := false));
    ReleasedItem(LinkQ(UnlinkQ(c2, i), i), i, j);
    hide Unlinked, Released, Bytes, Limit, Dead;
  }

  lemma OthersSpared(c: Cache, p: Pull, i: Id, j: Id)
    requires Inv(c) && On(c.lists, Source(p), i) && j in c.items && j != i
    ensures After(c, p, i).bufs == c.bufs && Now(After(c, p, i), j) == Some(c.items[j])
  {
    hide Inv, Visited, Settled, On;
    OnIsLinked(c, Source(p), i);
    VisitKeeps(c, p, i);
    VisitedItem(c, p, i, j);
    var v := Visited(c, p, i);
    if v.Stop? {
      SettledItem(v.c, p, i, v.to, j);
    }
  }

  lemma SelfSorted(c: Cache, p: Pull, i: Id, bytes: nat)
    requires i in c.items && c.items[i].refcount > 1 && c.items[i].linked
    ensures var x, v := c.items[i], Sorted(c, p, i, bytes);
      var y := Now(v.c, i);
      v.c.bufs == c.bufs &&
      if v.Next? then p.lru == Warm && y == Some(x.(active := false, refcount := x.refcount - 1))
      else if v.to.Some? then y == Some(x.(active := false)) && MayMove(p, x, v.to.value)
      else if p.lru == Cold && p.evict && p.evictToFree then y == Some(x.(linked := false, refcount := x.refcount - 1))
      else y == Some(x)
  {
    hide Unlinked, Released, Limit, Without;
    UnlinkedItem(c, i, i);
    var c2 := SetItem(c, i, c.items[i].(active := false));
    ReleasedItem(LinkQ(UnlinkQ(c2, i), i), i, i);
  }

  /** What a visit does to the item itself. */
  lemma SelfVisited(c: Cache, p: Pull, i: Id)
    requires i in c.items && c.items[i].refcount > 0 && c.items[i].linked && c.items[i].home == Source(p)
    ensures var x, v := c.items[i], Visited(c, p, i);
      var y := Now(v.c, i);
      v.c.bufs == c.bufs &&
      if i in p.busy then v == Next(c, 0)
      else if Dead(p, i, x) then v.Next? && (y.Some? ==> y.value == x.(linked := false, refcount := y.value.refcount))
      else if v.Next? then p.lru == Warm && y == Some(x.(active := false))
      else if v.to.Some? then
        y == Some(x.(active := false, refcount := x.refcount + 1)) && MayMove(p, x, v.to.value)
      else if p.lru == Cold && p.evict && p.evictToFree then y == Some(x.(linked := false))
      else y == Some(x.(refcount := x.refcount + 1))
  {
    hide Unlinked, Released, Bytes, Dead, Sorted;
    var c1 := Taken(c, i);
    UnlinkedItem(c1, i, i);
    ReleasedItem(Unlinked(c1, i), i, i);
    SelfSorted(c1, p, i, Bytes(c.items, SourceList(c, p)));
  }

  lemma VisitFate(c: Cache, p: Pull, i: Id)
    requires Inv(c) && On(c.lists, Source(p), i)
    ensures i in c.items && Fate(p, i, c.items[i], Now(After(c, p, i), i))
  {
    hide Inv, Visited, Settled, On, Dead;
    OnIsLinked(c, Source(p), i);
    VisitKeeps(c, p, i);
    SelfVisited(c, p, i);
    var v := Visited(c, p, i);
    if v.Stop? {
      SettledItem(v.c, p, i, v.to, i);
    }
  }

  lemma DroppedKeys(c: Cache, i: Id)
    requires i in c.items && c.items[i].refcount > 0
    ensures Unlinked(c, i).items.Keys <= c.items.Keys && Released(c, i).items.Keys <= c.items.Keys
  {
  }

  lemma SortedKeys(c: Cache, p: Pull, i: Id, bytes: nat)
    requires i in c.items && c.items[i].refcount > 1
    ensures Sorted(c, p, i, bytes).c.items.Keys <= c.items.Keys
  {
    DroppedKeys(c, i);
    var c2 := SetItem(c, i, c.items[i].(active := false));
    assert c2.items.Keys == c.items.Keys;
    DroppedKeys(LinkQ(UnlinkQ(c2, i), i), i);
    hide Unlinked, Released, Limit;
  }

  lemma VisitedKeys(c: Cache, p: Pull, i: Id)
    requires i in c.items && c.items[i].refcount > 0
    ensures Visited(c, p, i).c.items.Keys <= c.items.Keys
  {
    hide Unlinked, Released, Bytes, Dead, Sorted;
    var c1 := Taken(c, i);
    DroppedKeys(c1, i);
    assert c1.items.Keys == c.items.Keys;
    UnlinkedItem(c1, i, i);
    DroppedKeys(Unlinked(c1, i), i);
    SortedKeys(c1, p, i, Bytes(c.items, SourceList(c, p)));
  }

  lemma SettledKeys(c: Cache, p: Pull, i: Id, to: Option<Lru>)
    requires i in c.items && c.items[i].refcount > 0
    ensures Settled(c, p, i, to).items.Keys <= c.items.Keys
  {
    DroppedKeys(c, i);
    var x := c.items[i];
    if to.Some? {
      var d := LinkQ(SetItem(c, i, x.(home := ListId(x.home.cls, to.value))), i);
      assert d.items.Keys == c.items.Keys;
      DroppedKeys(d, i);
    }
    hide Released;
  }

  lemma NothingNew(c: Cache, p: Pull, i: Id)
    requires Inv(c) && On(c.lists, Source(p), i)
    ensures After(c, p, i).items.Keys <= c.items.Keys
  {
    hide Inv, On, Visited, Settled;
    VisitKeeps(c, p, i);
    VisitedKeys(c, p, i);
    var v := Visited(c, p, i);
    if v.Stop? {
      SettledKeys(v.c, p, i, v.to);
    }
  }

  lemma BufsKept(c: Cache, p: Pull, i: Id)
    requires Inv(c) && On(c.lists, Source(p), i)
    ensures After(c, p, i).bufs == c.bufs
  {
    hide Inv, On, Visited, Settled;
    OnIsLinked(c, Source(p), i);
    VisitKeeps(c, p, i);
    SelfVisited(c, p, i);
    var v := Visited(c, p, i);
    if v.Stop? {
      SettledItem(v.c, p, i, v.to, i);
    }
  }

  lemma VisitFates(c: Cache, p: Pull, i: Id)
    requires Inv(c) && On(c.lists, Source(p), i)
    ensures Fates(p, c, After(c, p, i))
  {
    hide Inv, On, After, Fate;
    NothingNew(c, p, i);
    BufsKept(c, p, i);
    VisitFate(c, p, i);
    var d := After(c, p, i);
    forall j | j in c.items
      ensures Fate(p, j, c.items[j], Now(d, j))
    {
      if j != i {
        OthersSpared(c, p, i, j);
        SparedFate(p, j, c.items[j]);
      }
    }
  }

  lemma NextKeepsHomes(c: Cache, p: Pull, i: Id)
    requires Inv(c) && On(c.lists, Source(p), i) && i in c.items && c.items[i].refcount > 0 && Visited(c, p, i).Next?
    ensures HomesKept(c, Visited(c, p, i).c)
  {
    hide Inv, On, Visited;
    OnIsLinked(c, Source(p), i);
    SelfVisited(c, p, i);
    var d := Visited(c, p, i).c;
    forall j | j in c.items && j in d.items
      ensures d.items[j].home == c.items[j].home
    {
      if j != i {
        VisitedItem(c, p, i, j);
      }
    }
  }

  ghost predicate HomesKept(c: Cache, d: Cache) {
    forall j :: j in c.items && j in d.items ==> d.items[j].home == c.items[j].home
  }

  lemma SparedFate(p: Pull, j: Id, x: Item)
    ensures Fate(p, j, x, Some(x))
  {
  }

  lemma FateThen(p: Pull, j: Id, x: Item, y: Item, z: Option<Item>)
    requires Fate(p, j, x, Some(y)) && y.home == x.home && Fate(p, j, y, z)
    ensures Fate(p, j, x, z)
  {
  }

  lemma FatesThen(p: Pull, c: Cache, d: Cache, e: Cache)
    requires Fates(p, c, d) && HomesKept(c, d) && Fates(p, d, e)
    ensures Fates(p, c, e)
  {
    hide Fate;
    forall j | j in c.items
      ensures Fate(p, j, c.items[j], Now(e, j))
    {
      if j in d.items {
        assert Fate(p, j, d.items[j], Now(e, j));
        FateThen(p, j, c.items[j], d.items[j], Now(e, j));
      } else {
        assert Now(e, j) == None == Now(d, j);
      }
    }
  }

  lemma {:induction false} WalkFates(c: Cache, p: Pull, search: Option<Entry>, tries: nat, removed: nat)
    requires Inv(c) && (search.Some? ==> search.value in SourceList(c, p))
    ensures Fates(p, c, Walked(c, p, search, tries, removed).c)
    decreases tries, Position(SourceList(c, p), search)
  {
    hide Inv, Visited, Settled, Fate, Before, IndexOf;
    if tries == 0 || search.None? {
      AllSpared(p, c);
    } else {
      var s := SourceList(c, p);
      UniqueSource(c, p);
      BeforeIsCloser(s, search.value);
      var prev := Before(s, search.value);
      match search.value
      case Crawler =>
        AllSpared(p, c);
        if !p.crawlBlocks { WalkFates(c, p, prev, tries, removed); }
      case It(i) =>
        VisitKeeps(c, p, i);
        VisitFates(c, p, i);
        var v := Visited(c, p, i);
        if v.Next? {
          if prev.Some? { NextKeepsOthers(c, p, i, prev.value); }
          NextKeepsHomes(c, p, i);
          WalkFates(v.c, p, prev, tries - 1, removed + v.removed);
          FatesThen(p, c, v.c, Walked(v.c, p, prev, tries - 1, removed + v.removed).c);
        }
    }
  }

  lemma AllSpared(p: Pull, c: Cache)
    ensures Fates(p, c, c)
  {
  }

  // Who holds what afterwards

  lemma HoldersReleased(c: Cache, i: Id)
    requires i in c.items && c.items[i].refcount > 0
    ensures Released(c, i).holders == c.holders - multiset{i}
  {
  }

  lemma SortedHolders(c: Cache, p: Pull, i: Id, bytes: nat)
    requires i in c.items && c.items[i].refcount > 1
    ensures var v := Sorted(c, p, i, bytes); v.c.holders == if v.Next? then c.holders - multiset{i} else c.holders
  {
    UnlinkedSelf(c, i);
    var c2 := SetItem(c, i, c.items[i].(active := false));
    HoldersReleased(LinkQ(UnlinkQ(c2, i), i), i);
    hide Unlinked, Released, Limit;
  }

  lemma VisitedHolders(c: Cache, p: Pull, i: Id)
    requires i in c.items && c.items[i].refcount > 0
    ensures var v := Visited(c, p, i);
      v.c.holders == if v.Next? then c.holders else c.holders + multiset{i}
  {
    hide Unlinked, Released, Bytes, Dead, Sorted;
    var c1 := Taken(c, i);
    UnlinkedItem(c1, i, i);
    ReleasedHolders(c, i);
    SortedHolders(c1, p, i, Bytes(c.items, SourceList(c, p)));
    assert c.holders + multiset{i} - multiset{i} == c.holders;
  }

  lemma SettledHolders(c: Cache, p: Pull, i: Id, to: Option<Lru>)
    requires i in c.items && c.items[i].refcount > 0
    ensures Settled(c, p, i, to).holders == if p.returnItem then c.holders else c.holders - multiset{i}
  {
    var x := c.items[i];
    HoldersReleased(c, i);
    if to.Some? {
      HoldersReleased(LinkQ(SetItem(c, i, x.(home := ListId(x.home.cls, to.value))), i), i);
    }
    hide Released;
  }

  lemma VisitHolders(c: Cache, p: Pull, i: Id)
    requires Inv(c) && On(c.lists, Source(p), i)
    ensures var d := After(c, p, i);
      i in c.items && c.items[i].refcount > 0 &&
      d.holders == if Visited(c, p, i).Stop? && p.returnItem then c.holders + multiset{i} else c.holders
  {
    hide Inv, On, Visited, Settled;
    VisitKeeps(c, p, i);
    VisitedHolders(c, p, i);
    var v := Visited(c, p, i);
    if v.Stop? {
      SettledHolders(v.c, p, i, v.to);
      assert c.holders + multiset{i} - multiset{i} == c.holders;
    }
  }

  /** The references held after the call are those held before and that of the item kept, if any;
      an item is handed back only from COLD when not evicting. */
  lemma {:induction false} WalkHolders(c: Cache, p: Pull, search: Option<Entry>, tries: nat, removed: nat)
    requires Inv(c) && (search.Some? ==> search.value in SourceList(c, p))
    ensures var r := Walked(c, p, search, tries, removed);
      r.c.holders == c.holders + (if r.kept.Some? then multiset{r.kept.value} else multiset{}) &&
      (r.kept.Some? ==> p.returnItem) && r.ret == (if p.lru == Cold && !p.evict then r.kept else None)
    decreases tries, Position(SourceList(c, p), search)
  {
    hide Inv, Visited, Settled, Before, IndexOf;
    if tries > 0 && search.Some? {
      var s := SourceList(c, p);
      UniqueSource(c, p);
      BeforeIsCloser(s, search.value);
      var prev := Before(s, search.value);
      match search.value
      case Crawler =>
        if !p.crawlBlocks { WalkHolders(c, p, prev, tries, removed); }
      case It(i) =>
        VisitKeeps(c, p, i);
        VisitHolders(c, p, i);
        var v := Visited(c, p, i);
        if v.Next? {
          if prev.Some? { NextKeepsOthers(c, p, i, prev.value); }
          WalkHolders(v.c, p, prev, tries - 1, removed + v.removed);
        }
    }
  }

  /** `lru_pull_tail` keeps every invariant, touches only the list it was asked about, and leaves no
      reference behind unless told to return an item. */
  lemma PullTailIsSafe(c: Cache, p: Pull)
    requires Inv(c)
    ensures var r := PulledTail(c, p);
      Inv(r.c) && Fates(p, c, r.c) &&
      r.c.holders == c.holders + (if r.kept.Some? then multiset{r.kept.value} else multiset{}) &&
      (r.kept.Some? ==> p.returnItem)
  {
    hide Inv, Fates, Walked;
    AllSpared(p, c);
    WalkFates(c, p, Last(SourceList(c, p)), 5, 0);
    WalkHolders(c, p, Last(SourceList(c, p)), 5, 0);
  }

  /** One linked, live, inactive item and nothing else, on the given list. */
  function Lone(l: ListId, i: Id): Cache {
    Cache(map[i := Item("k", l, true, false, false, 1, 0, 0, 0)], map["k" := i], map[l := [It(i)]], [], multiset{})
  }

  lemma LoneInv(l: ListId, i: Id)
    ensures Inv(Lone(l, i))
  {
    var c := Lone(l, i);
    assert ListAt(c.lists, l) == [It(i)];
    assert On(c.lists, l, i);
    assert Unique(c.lists);
    assert Placed(c.items, c.lists);
  }

  lemma {:induction false} Unused(s: set<Id>) returns (i: Id)
    ensures i !in s && forall j :: j in s ==> j < i
  {
    if s == {} {
      i := 0;
    } else {
      var j :| j in s;
      i := Unused(s - {j});
      if i <= j { i := j + 1; }
      assert forall k :: k in s ==> k == j || k in s - {j};
    }
  }

  /** The pull stops at such an item, whatever the list, and keeps its reference if asked to. */
  lemma LoneIsKept(p: Pull, i: Id)
    requires p.cls != 0 && i !in p.busy && i !in p.flushed
    ensures Inv(Lone(Source(p), i))
    ensures PulledTail(Lone(Source(p), i), p).kept == if p.returnItem then Some(i) else None
  {
    var c := Lone(Source(p), i);
    LoneInv(Source(p), i);
    assert SourceList(c, p) == [It(i)];
    assert Visited(c, p, i).Stop?;
    hide Inv, Visited, Settled;
    assert PulledTail(c, p) == Walked(c, p, Some(It(i)), 5, 0);
  }

  /** Which calls lose no reference: in every cache the item kept is the item returned, exactly if the call
      does nothing, or does not ask for an item, or asks COLD for one without evicting. */
  lemma KeptIsReturnedIff(p: Pull)
    ensures (forall c: Cache | Inv(c) :: PulledTail(c, p).ret == PulledTail(c, p).kept) <==>
            p.cls == 0 || !p.returnItem || (p.lru == Cold && !p.evict)
  {
    hide Inv, Walked;
    forall c: Cache | Inv(c)
      ensures p.cls == 0 || !p.returnItem || (p.lru == Cold && !p.evict) ==>
        PulledTail(c, p).ret == PulledTail(c, p).kept
    {
      WalkHolders(c, p, Last(SourceList(c, p)), 5, 0);
    }
    if p.cls != 0 && p.returnItem && !(p.lru == Cold && !p.evict) {
      var i := Unused(p.busy + p.flushed);
      LoneIsKept(p, i);
      ReturnLoses(p, i);
    }
  }

  /** For every other call there is a cache in which a reference is kept that nobody is told about. */
  lemma ReturnLoses(p: Pull, i: Id)
    requires p.cls != 0 && p.returnItem && !(p.lru == Cold && !p.evict) && i !in p.busy && i !in p.flushed
    ensures Inv(Lone(Source(p), i))
    ensures var r := PulledTail(Lone(Source(p), i), p); r.kept == Some(i) && r.ret == None
  {
    hide Inv, Walked;
    LoneIsKept(p, i);
    WalkHolders(Lone(Source(p), i), p, Last(SourceList(Lone(Source(p), i), p)), 5, 0);
  }
}
