/** Items from allocation to release: the hash table, the LRU lists, reference counts and bump buffers. */
module Items {
  import opened Basics

  type Id = nat
  type Key = string

  datatype Lru = Hot | Warm | Cold | Temp

  /** `slabs_clsid`: the slab class with the segment in its upper bits. */
  datatype ListId = ListId(cls: nat, lru: Lru)

  /** What an LRU list holds. */
  datatype Entry = It(id: Id) | Crawler

  datatype Item = Item(key: Key, home: ListId, linked: bool, fetched: bool, active: bool,
                       refcount: nat, exptime: int, time: int, bytes: nat)

  /** `holders` are the references callers have been given and not yet dropped. */
  datatype Cache = Cache(items: map<Id, Item>, table: map<Key, Id>, lists: map<ListId, seq<Entry>>,
                         bufs: seq<seq<Id>>, holders: multiset<Id>)

  // What holds between operations

  function ListAt(lists: map<ListId, seq<Entry>>, l: ListId): seq<Entry> {
    if l in lists then lists[l] else []
  }

  /** All undrained bump entries. */
  function Pending(bufs: seq<seq<Id>>): multiset<Id> {
    if bufs == [] then multiset{} else multiset(bufs[0]) + Pending(bufs[1..])
  }

  ghost predicate On(lists: map<ListId, seq<Entry>>, l: ListId, i: Id) {
    It(i) in ListAt(lists, l)
  }

  /** A list holds only linked items, each on the list its `slabs_clsid` names. */
  ghost predicate Placed(items: map<Id, Item>, lists: map<ListId, seq<Entry>>) {
    forall l, i :: On(lists, l, i) ==>
      i in items && items[i].linked && items[i].home == l
  }

  ghost predicate Unique(lists: map<ListId, seq<Entry>>) {
    forall l :: NoRepeats(ListAt(lists, l))
  }

  /** Every linked item is on its list. */
  ghost predicate Listed(items: map<Id, Item>, lists: map<ListId, seq<Entry>>) {
    forall i :: i in items && items[i].linked ==> On(lists, items[i].home, i)
  }

  /** The hash table holds exactly the linked items, each under its key. */
  ghost predicate Hashed(items: map<Id, Item>, table: map<Key, Id>) {
    (forall k :: k in table ==> table[k] in items && items[table[k]].linked && items[table[k]].key == k) &&
    (forall i :: i in items && items[i].linked ==> items[i].key in table && table[items[i].key] == i)
  }

  function Link(x: Item): nat {
    if x.linked then 1 else 0
  }

  /** A count is the link's reference, the callers' and the bump buffers', and is never zero. */
  ghost predicate Counted(items: map<Id, Item>, pending: multiset<Id>, holders: multiset<Id>) {
    (forall i :: i in items ==>
      items[i].refcount == Link(items[i]) + holders[i] + pending[i] && items[i].refcount > 0) &&
    (forall i :: i in holders ==> i in items) &&
    (forall i :: i in pending ==> i in items)
  }

  /** As above, with one more reference to `i` than there is anything to account for it. */
  ghost predicate CountedBut(items: map<Id, Item>, pending: multiset<Id>, holders: multiset<Id>, i: Id) {
    (forall j :: j in items ==>
      items[j].refcount == Link(items[j]) + holders[j] + pending[j] + (if j == i then 1 else 0) &&
      items[j].refcount > 0) &&
    (forall j :: j in holders ==> j in items) &&
    (forall j :: j in pending ==> j in items)
  }

  ghost predicate Inv(c: Cache) {
    Placed(c.items, c.lists) && Unique(c.lists) && Listed(c.items, c.lists) &&
    Hashed(c.items, c.table) && Counted(c.items, Pending(c.bufs), c.holders)
  }

  // Parts of the operations

  /** `do_item_link_q`. */
  function LinkQ(c: Cache, i: Id): Cache
    requires i in c.items
  {
    var l := c.items[i].home;
    c.(lists := c.lists[l := [It(i)] + ListAt(c.lists, l)])
  }

  function Without(s: seq<Entry>, e: Entry): seq<Entry> {
    if s == [] then [] else if s[0] == e then s[1..] else [s[0]] + Without(s[1..], e)
  }

  /** `do_item_unlink_q`. */
  function UnlinkQ(c: Cache, i: Id): Cache
    requires i in c.items
  {
    var l := c.items[i].home;
    c.(lists := c.lists[l := Without(ListAt(c.lists, l), It(i))])
  }

  function SetItem(c: Cache, i: Id, x: Item): Cache {
    c.(items := c.items[i := x])
  }

  /** `refcount_incr`. */
  function Incr(c: Cache, i: Id): Cache
    requires i in c.items
  {
    SetItem(c, i, c.items[i].(refcount := c.items[i].refcount + 1))
  }

  /** `do_item_remove`: drop a reference and free the item with the last one. */
  function Drop(c: Cache, i: Id): Cache
    requires i in c.items && c.items[i].refcount > 0
  {
    var x := c.items[i];
    if x.refcount == 1 then c.(items := c.items - {i}) else SetItem(c, i, x.(refcount := x.refcount - 1))
  }

  // Operations

  /** A fresh item, held by its caller only. */
  function Allocated(c: Cache, i: Id, key: Key, home: ListId, exptime: int, now: int, bytes: nat): Cache {
    SetItem(c, i, Item(key, home, false, false, false, 1, exptime, now, bytes)).(holders := c.holders + multiset{i})
  }

  /** A caller takes a reference. */
  function Taken(c: Cache, i: Id): Cache
    requires i in c.items
  {
    Incr(c, i).(holders := c.holders + multiset{i})
  }

  /** A caller drops its reference. */
  function Released(c: Cache, i: Id): Cache
    requires i in c.items && c.items[i].refcount > 0
  {
    Drop(c, i).(holders := c.holders - multiset{i})
  }

  /** `do_item_link`. */
  function Linked(c: Cache, i: Id, now: int): Cache
    requires i in c.items
  {
    var c1 := SetItem(c, i, c.items[i].(linked := true, time := now));
    var c2 := c1.(table := c1.table[c.items[i].key := i]);
    Incr(LinkQ(c2, i), i)
  }

  /** `do_item_unlink` and `do_item_unlink_nolock`. */
  function Unlinked(c: Cache, i: Id): Cache
    requires i in c.items && c.items[i].refcount > 0
  {
    if !c.items[i].linked then c else Drop(Detached(c, i), i)
  }

  /** The item off the table and its list; the reference of the link not dropped yet. */
  function Detached(c: Cache, i: Id): Cache
    requires i in c.items
  {
    var c1 := SetItem(c, i, c.items[i].(linked := false));
    UnlinkQ(c1.(table := c1.table - {c.items[i].key}), i)
  }

  /** Off one list and onto the head of another, or of the same. */
  function Moved(c: Cache, i: Id, x: Item): Cache
    requires i in c.items
  {
    LinkQ(SetItem(UnlinkQ(c, i), i, x), i)
  }

  const ITEM_UPDATE_INTERVAL := 60

  /** `do_item_update`: hits on COLD go to WARM; without segments, relink when the last time is old. */
  function Updated(c: Cache, i: Id, now: int, segmented: bool): Cache
    requires i in c.items
  {
    var x := c.items[i];
    if segmented then
      if !x.linked then c
      else if x.home.lru == Cold && x.active then
        Moved(c, i, x.(time := now, home := ListId(x.home.cls, Warm), active := false))
      else SetItem(c, i, x.(time := now))
    else if x.time < now - ITEM_UPDATE_INTERVAL && x.linked then Moved(c, i, x.(time := now))
    else c
  }

  /** `lru_bump_async`, on a thread's buffer with or without room for one more entry. */
  function BumpQueued(c: Cache, b: nat, i: Id, room: bool): Cache
    requires i in c.items && b < |c.bufs|
  {
    if room then Incr(c, i).(bufs := c.bufs[b := c.bufs[b] + [i]]) else c
  }

  /** `do_item_bump`. */
  function Bumped(c: Cache, b: nat, i: Id, room: bool, now: int, segmented: bool): Cache
    requires i in c.items && b < |c.bufs|
  {
    var x := c.items[i];
    if segmented then
      if x.active then c
      else if !x.fetched then SetItem(c, i, x.(fetched := true))
      else if x.home.lru != Cold then SetItem(c, i, x.(active := true, time := now))
      else if room then BumpQueued(SetItem(c, i, x.(active := true)), b, i, true)
      else c
    else Updated(SetItem(c, i, x.(fetched := true)), i, now, false)
  }

  /** One entry of `lru_maintainer_bumps`. */
  function Drained(c: Cache, b: nat, now: int, segmented: bool): Cache
    requires b < |c.bufs| && c.bufs[b] != [] && c.bufs[b][0] in c.items && c.items[c.bufs[b][0]].refcount > 0
  {
    var i := c.bufs[b][0];
    Drop(Updated(c, i, now, segmented).(bufs := c.bufs[b := c.bufs[b][1..]]), i)
  }

  /** `do_item_replace`. */
  function Replaced(c: Cache, i: Id, j: Id, now: int): Cache
    requires i in c.items && c.items[i].refcount > 0 && j in c.items && j != i
  {
    Linked(Unlinked(c, i), j, now)
  }

  /** `do_item_get`: the item, held for the caller, unless it turns out to be flushed or expired. */
  function Got(c: Cache, key: Key, b: nat, flushed: bool, room: bool, now: int, update: bool, segmented: bool)
      : (Cache, Option<Id>)
    requires b < |c.bufs|
    requires key in c.table ==> c.table[key] in c.items && c.items[c.table[key]].refcount > 0
  {
    if key !in c.table then (c, None) else
    var i := c.table[key];
    var x, c1 := c.items[i], Taken(c, i);
    if flushed || (x.exptime != 0 && x.exptime <= now) then (Released(Unlinked(c1, i), i), None)
    else (if update then Bumped(c1, b, i, room, now, segmented) else c1, Some(i))
  }

  /** The end of `do_item_touch`: the item that a lookup has found gets another time of expiry. */
  function Touched(c: Cache, i: Id, exptime: int): Cache
    requires i in c.items
  {
    SetItem(c, i, c.items[i].(exptime := exptime))
  }

  // Pulling from the tail of a list

  /** The call's arguments, the settings, and what the world says: which items' locks are taken by others,
      and which items a flush has outdated. */
  datatype Pull = Pull(cls: nat, lru: Lru, evict: bool, returnItem: bool, crawlBlocks: bool,
                       totalBytes: nat, maxAge: int, now: int,
                       hotPct: nat, warmPct: nat, segmented: bool, evictToFree: bool,
                       busy: set<Id>, flushed: set<Id>)

  /** What visiting an item does: go on to the next one, or stop with the item in hand and perhaps off its
      list, to be put on another. */
  datatype Visit = Next(c: Cache, removed: nat) | Stop(c: Cache, to: Option<Lru>, removed: nat)

  function Source(p: Pull): ListId {
    ListId(p.cls, p.lru)
  }

  /** `sizes_bytes`. */
  function Bytes(items: map<Id, Item>, s: seq<Entry>): nat {
    if s == [] then 0
    else (if s[0].It? && s[0].id in items then items[s[0].id].bytes else 0) + Bytes(items, s[1..])
  }

  function Limit(p: Pull): nat {
    var hot, warm := p.totalBytes * p.hotPct / 100, p.totalBytes * p.warmPct / 100;
    if p.lru == Hot && hot != 0 then hot else warm
  }

  predicate Dead(p: Pull, i: Id, x: Item) {
    (x.exptime != 0 && x.exptime < p.now) || i in p.flushed
  }

  /** The body of the loop, for an item. */
  function Visited(c: Cache, p: Pull, i: Id): Visit
    requires i in c.items && c.items[i].refcount > 0
  {
    var x := c.items[i];
    if i in p.busy then Next(c, 0) else
    var c1 := Taken(c, i);
    if Dead(p, i, x) then Next(Released(Unlinked(c1, i), i), 1)
    else Sorted(c1, p, i, Bytes(c.items, ListAt(c.lists, Source(p))))
  }

  /** The switch on the segment, for an item that is live and held; `bytes` is the size of the list. */
  function Sorted(c1: Cache, p: Pull, i: Id, bytes: nat): Visit
    requires i in c1.items && c1.items[i].refcount > 1
  {
    var x := c1.items[i];
    match p.lru
    case Hot =>
      if x.active then Stop(UnlinkQ(SetItem(c1, i, c1.items[i].(active := false)), i), Some(Warm), 1)
      else if bytes > Limit(p) || p.now - x.time > p.maxAge
      then Stop(UnlinkQ(c1, i), Some(Cold), 1)
      else Stop(c1, None, 0)
    case Warm =>
      if x.active then
        Next(Released(LinkQ(UnlinkQ(SetItem(c1, i, c1.items[i].(active := false)), i), i), i), 1)
      else if bytes > Limit(p) || p.now - x.time > p.maxAge
      then Stop(UnlinkQ(c1, i), Some(Cold), 1)
      else Stop(c1, None, 0)
    case Cold =>
      if p.evict then if p.evictToFree then Stop(Unlinked(c1, i), None, 1) else Stop(c1, None, 0)
      else if p.returnItem then Stop(c1, None, 0)
      else if x.active && p.segmented
      then Stop(UnlinkQ(SetItem(c1, i, c1.items[i].(active := false)), i), Some(Warm), 1)
      else Stop(c1, None, 0)
    case Temp => Stop(c1, None, 0)
  }

  /** After the loop: put the item on its new list, and drop the reference unless asked to keep it. */
  function Settled(c: Cache, p: Pull, i: Id, to: Option<Lru>): Cache
    requires i in c.items && c.items[i].refcount > 0
  {
    var x := c.items[i];
    var d := if to.Some? then LinkQ(SetItem(c, i, x.(home := ListId(x.home.cls, to.value))), i) else c;
    if p.returnItem then d else Released(d, i)
  }

  // List changes

  lemma PushOn(lists: map<ListId, seq<Entry>>, l: ListId, i: Id)
    requires Unique(lists) && !On(lists, l, i)
    ensures var lists' := lists[l := [It(i)] + ListAt(lists, l)];
      Unique(lists') && forall l', j :: On(lists', l', j) <==> On(lists, l', j) || (l' == l && j == i)
  {
    var lists' := lists[l := [It(i)] + ListAt(lists, l)];
    forall l'
      ensures NoRepeats(ListAt(lists', l'))
      ensures forall j :: On(lists', l', j) <==> On(lists, l', j) || (l' == l && j == i)
    {
      assert NoRepeats(ListAt(lists, l'));
      if l' == l {
        PushSeq(ListAt(lists, l), i);
      }
    }
  }

  lemma PushSeq(s: seq<Entry>, i: Id)
    requires NoRepeats(s) && It(i) !in s
    ensures NoRepeats([It(i)] + s) && forall j :: It(j) in [It(i)] + s <==> It(j) in s || j == i
  {
    var r := [It(i)] + s;
    forall p, q | 0 <= p < q < |r|
      ensures r[p] != r[q]
    {
      assert r[q] == s[q - 1];
      if p > 0 {
        assert r[p] == s[p - 1];
      }
    }
  }

  lemma FirstOf(s: seq<Entry>)
    requires NoRepeats(s) && s != []
    ensures NoRepeats(s[1..]) && s[0] !in s[1..] && forall e: Entry :: e in s <==> e == s[0] || e in s[1..]
  {
    var t := s[1..];
    assert s == [s[0]] + t && forall p :: 0 <= p < |t| ==> t[p] == s[p + 1];
  }

  lemma InFront(e: Entry, u: seq<Entry>)
    requires NoRepeats(u) && e !in u
    ensures NoRepeats([e] + u)
  {
  }

  lemma {:induction false} WithoutSeq(s: seq<Entry>, i: Id)
    requires NoRepeats(s)
    ensures NoRepeats(Without(s, It(i))) && |Without(s, It(i))| == |s| - (if It(i) in s then 1 else 0)
    ensures forall e: Entry :: e in Without(s, It(i)) <==> e in s && e != It(i)
  {
    hide NoRepeats;
    if s != [] {
      FirstOf(s);
      WithoutSeq(s[1..], i);
      if s[0] != It(i) {
        InFront(s[0], Without(s[1..], It(i)));
      }
    }
  }

  lemma CutOn(lists: map<ListId, seq<Entry>>, l: ListId, i: Id)
    requires Unique(lists)
    ensures var lists' := lists[l := Without(ListAt(lists, l), It(i))];
      Unique(lists') && forall l', j :: On(lists', l', j) <==> On(lists, l', j) && (l' != l || j != i)
  {
    var lists' := lists[l := Without(ListAt(lists, l), It(i))];
    forall l'
      ensures NoRepeats(ListAt(lists', l'))
      ensures forall j :: On(lists', l', j) <==> On(lists, l', j) && (l' != l || j != i)
    {
      assert NoRepeats(ListAt(lists, l'));
      if l' == l {
        WithoutSeq(ListAt(lists, l), i);
      }
    }
  }

  // Linking

  lemma LinkedIs(c: Cache, i: Id, now: int)
    requires i in c.items
    ensures var x := c.items[i];
      Linked(c, i, now) == c.(items := c.items[i := x.(linked := true, time := now, refcount := x.refcount + 1)],
                              table := c.table[x.key := i],
                              lists := c.lists[x.home := [It(i)] + ListAt(c.lists, x.home)])
  {
    assert c.items[i := c.items[i].(linked := true, time := now)]
      [i := c.items[i].(linked := true, time := now, refcount := c.items[i].refcount + 1)] ==
      c.items[i := c.items[i].(linked := true, time := now, refcount := c.items[i].refcount + 1)];
  }

  // One item changes and keeps its place

  lemma KeepLists(items: map<Id, Item>, lists: map<ListId, seq<Entry>>, i: Id, x: Item)
    requires Placed(items, lists) && Listed(items, lists)
    requires i in items && x.linked == items[i].linked && x.home == items[i].home
    ensures Placed(items[i := x], lists) && Listed(items[i := x], lists)
  {
    hide On;
  }

  lemma KeepTable(items: map<Id, Item>, table: map<Key, Id>, i: Id, x: Item)
    requires Hashed(items, table) && i in items && x.linked == items[i].linked && x.key == items[i].key
    ensures Hashed(items[i := x], table)
  {
  }

  lemma LinkLists(items: map<Id, Item>, lists: map<ListId, seq<Entry>>, i: Id, x: Item)
    requires Placed(items, lists) && Unique(lists) && Listed(items, lists)
    requires i in items && !items[i].linked && x.linked && x.home == items[i].home
    ensures var lists' := lists[x.home := [It(i)] + ListAt(lists, x.home)];
      Placed(items[i := x], lists') && Unique(lists') && Listed(items[i := x], lists')
  {
    assert !On(lists, x.home, i);
    PushOn(lists, x.home, i);
    hide On, Unique;
  }

  lemma LinkTable(items: map<Id, Item>, table: map<Key, Id>, i: Id, x: Item)
    requires Hashed(items, table) && i in items && !items[i].linked && x.linked && x.key == items[i].key &&
      x.key !in table
    ensures Hashed(items[i := x], table[x.key := i])
  {
  }

  lemma LinkCount(items: map<Id, Item>, pending: multiset<Id>, holders: multiset<Id>, i: Id, x: Item)
    requires Counted(items, pending, holders) && i in items
    requires x.refcount == items[i].refcount + Link(x) - Link(items[i]) && x.refcount > 0
    ensures Counted(items[i := x], pending, holders)
  {
  }

  /** `do_item_link` of an item that is not linked, under a key that is not taken. */
  lemma LinkKeeps(c: Cache, i: Id, now: int)
    requires Inv(c) && i in c.items && !c.items[i].linked && c.items[i].key !in c.table
    ensures Inv(Linked(c, i, now))
  {
    LinkedIs(c, i, now);
    var x := Linked(c, i, now).items[i];
    hide Placed, Unique, Listed, Hashed, Counted, Linked, Pending;
    LinkLists(c.items, c.lists, i, x);
    LinkTable(c.items, c.table, i, x);
    LinkCount(c.items, Pending(c.bufs), c.holders, i, x);
  }

  // Dropping references

  ghost predicate InvBut(c: Cache, i: Id) {
    Placed(c.items, c.lists) && Unique(c.lists) && Listed(c.items, c.lists) && Hashed(c.items, c.table) &&
    i in c.items && CountedBut(c.items, Pending(c.bufs), c.holders, i)
  }

  lemma FreeLists(items: map<Id, Item>, lists: map<ListId, seq<Entry>>, table: map<Key, Id>, i: Id)
    requires Placed(items, lists) && Listed(items, lists) && Hashed(items, table) && i in items && !items[i].linked
    ensures Placed(items - {i}, lists) && Listed(items - {i}, lists) && Hashed(items - {i}, table)
  {
    hide On;
  }

  lemma FreeCount(items: map<Id, Item>, pending: multiset<Id>, holders: multiset<Id>, i: Id)
    requires CountedBut(items, pending, holders, i) && i in items && items[i].refcount == 1
    ensures Counted(items - {i}, pending, holders) && !items[i].linked
  {
    assert holders[i] == 0 && pending[i] == 0;
  }

  lemma DropCount(items: map<Id, Item>, pending: multiset<Id>, holders: multiset<Id>, i: Id, x: Item)
    requires CountedBut(items, pending, holders, i) && i in items && items[i].refcount > 1
    requires x == items[i].(refcount := items[i].refcount - 1)
    ensures Counted(items[i := x], pending, holders)
  {
  }

  /** The reference that nothing accounts for is the one `do_item_remove` drops; the item is freed when
      it was the last, and then it is on no list and not in the table. */
  lemma DropKeeps(c: Cache, i: Id)
    requires InvBut(c, i)
    ensures c.items[i].refcount > 0 && Inv(Drop(c, i))
    ensures i !in Drop(c, i).items <==> c.items[i].refcount == 1
    ensures c.items[i].refcount == 1 ==> !c.items[i].linked
  {
    var x := c.items[i];
    var n := Pending(c.bufs);
    assert x.refcount > 0;
    hide Placed, Unique, Listed, Hashed, Counted, CountedBut, Pending;
    if x.refcount == 1 {
      FreeCount(c.items, n, c.holders, i);
      FreeLists(c.items, c.lists, c.table, i);
    } else {
      var y := x.(refcount := x.refcount - 1);
      DropCount(c.items, n, c.holders, i, y);
      KeepLists(c.items, c.lists, i, y);
      KeepTable(c.items, c.table, i, y);
    }
  }

  lemma CutLists(items: map<Id, Item>, lists: map<ListId, seq<Entry>>, i: Id, x: Item)
    requires Placed(items, lists) && Unique(lists) && Listed(items, lists)
    requires i in items && items[i].linked && !x.linked && x.home == items[i].home
    ensures var lists' := lists[x.home := Without(ListAt(lists, x.home), It(i))];
      Placed(items[i := x], lists') && Unique(lists') && Listed(items[i := x], lists')
  {
    CutOn(lists, x.home, i);
    hide On, Unique;
  }

  lemma CutTable(items: map<Id, Item>, table: map<Key, Id>, i: Id, x: Item)
    requires Hashed(items, table) && i in items && items[i].linked && !x.linked && x.key == items[i].key
    ensures Hashed(items[i := x], table - {x.key})
  {
  }

  lemma DetachCount(items: map<Id, Item>, pending: multiset<Id>, holders: multiset<Id>, i: Id, x: Item)
    requires Counted(items, pending, holders) && i in items && items[i].linked && x == items[i].(linked := false)
    ensures CountedBut(items[i := x], pending, holders, i)
  {
  }

  lemma DetachKeeps(c: Cache, i: Id)
    requires Inv(c) && i in c.items && c.items[i].linked
    ensures InvBut(Detached(c, i), i)
  {
    var x := c.items[i].(linked := false);
    hide Placed, Unique, Listed, Hashed, Counted, CountedBut, Pending;
    CutLists(c.items, c.lists, i, x);
    CutTable(c.items, c.table, i, x);
    DetachCount(c.items, Pending(c.bufs), c.holders, i, x);
  }

  /** `do_item_unlink`, whether or not the item is linked. */
  lemma UnlinkKeeps(c: Cache, i: Id)
    requires Inv(c) && i in c.items
    ensures c.items[i].refcount > 0 && Inv(Unlinked(c, i))
    ensures i in Unlinked(c, i).items ==> !Unlinked(c, i).items[i].linked
    ensures i !in Unlinked(c, i).items <==> c.items[i].linked && c.items[i].refcount == 1
  {
    assert c.items[i].refcount > 0;
    if c.items[i].linked {
      DetachKeeps(c, i);
      hide Inv, InvBut, UnlinkQ;
      DropKeeps(Detached(c, i), i);
    }
  }

  lemma ReleaseCount(items: map<Id, Item>, pending: multiset<Id>, holders: multiset<Id>, i: Id)
    requires Counted(items, pending, holders) && i in holders
    ensures CountedBut(items, pending, holders - multiset{i}, i)
  {
  }

  /** Dropping a reference that is held. */
  lemma ReleaseKeeps(c: Cache, i: Id)
    requires Inv(c) && i in c.holders
    ensures i in c.items && c.items[i].refcount > 0 && Inv(Released(c, i))
  {
    assert i in c.items;
    var d := c.(holders := c.holders - multiset{i});
    ReleaseCount(c.items, Pending(c.bufs), c.holders, i);
    hide Placed, Unique, Listed, Hashed, Counted, CountedBut, Pending;
    DropKeeps(d, i);
  }

  lemma TakeKeeps(c: Cache, i: Id)
    requires Inv(c) && i in c.items
    ensures Inv(Taken(c, i))
  {
    var x := c.items[i].(refcount := c.items[i].refcount + 1);
    TakeCount(c.items, Pending(c.bufs), c.holders, i, x);
    hide Placed, Unique, Listed, Hashed, Counted, Pending;
    KeepLists(c.items, c.lists, i, x);
    KeepTable(c.items, c.table, i, x);
  }

  lemma TakeCount(items: map<Id, Item>, pending: multiset<Id>, holders: multiset<Id>, i: Id, x: Item)
    requires Counted(items, pending, holders) && i in items && x == items[i].(refcount := items[i].refcount + 1)
    ensures Counted(items[i := x], pending, holders + multiset{i})
  {
  }

  lemma NewLists(items: map<Id, Item>, lists: map<ListId, seq<Entry>>, table: map<Key, Id>, i: Id, x: Item)
    requires Placed(items, lists) && Listed(items, lists) && Hashed(items, table) && i !in items && !x.linked
    ensures Placed(items[i := x], lists) && Listed(items[i := x], lists) && Hashed(items[i := x], table)
  {
    hide On;
  }

  lemma NewCount(items: map<Id, Item>, pending: multiset<Id>, holders: multiset<Id>, i: Id, x: Item)
    requires Counted(items, pending, holders) && i !in items && !x.linked && x.refcount == 1
    ensures Counted(items[i := x], pending, holders + multiset{i})
  {
    assert i !in holders && i !in pending;
  }

  lemma AllocateKeeps(c: Cache, i: Id, key: Key, home: ListId, exptime: int, now: int, bytes: nat)
    requires Inv(c) && i !in c.items
    ensures Inv(Allocated(c, i, key, home, exptime, now, bytes))
  {
    var x := Allocated(c, i, key, home, exptime, now, bytes).items[i];
    hide Placed, Unique, Listed, Hashed, Counted, Pending;
    NewLists(c.items, c.lists, c.table, i, x);
    NewCount(c.items, Pending(c.bufs), c.holders, i, x);
  }

  // Moving between lists

  lemma MoveLists(items: map<Id, Item>, lists: map<ListId, seq<Entry>>, i: Id, x: Item)
    requires Placed(items, lists) && Unique(lists) && Listed(items, lists)
    requires i in items && items[i].linked && x.linked
    ensures var lists1 := lists[items[i].home := Without(ListAt(lists, items[i].home), It(i))];
      var lists2 := lists1[x.home := [It(i)] + ListAt(lists1, x.home)];
      Placed(items[i := x], lists2) && Unique(lists2) && Listed(items[i := x], lists2)
  {
    CutOn(lists, items[i].home, i);
    var lists1 := lists[items[i].home := Without(ListAt(lists, items[i].home), It(i))];
    assert !On(lists1, x.home, i);
    PushOn(lists1, x.home, i);
    hide On, Unique;
  }

  lemma MoveKeeps(c: Cache, i: Id, x: Item)
    requires Inv(c) && i in c.items && c.items[i].linked && x.linked && x.key == c.items[i].key &&
      x.refcount == c.items[i].refcount
    ensures Inv(Moved(c, i, x))
  {
    hide Placed, Unique, Listed, Hashed, Counted, Pending;
    MoveLists(c.items, c.lists, i, x);
    KeepTable(c.items, c.table, i, x);
    RefCountPositive(c, i);
    LinkCount(c.items, Pending(c.bufs), c.holders, i, x);
  }

  lemma RefCountPositive(c: Cache, i: Id)
    requires Inv(c) && i in c.items
    ensures c.items[i].refcount > 0
  {
  }

  /** A change to an item that touches neither its place nor its count. */
  lemma TouchKeeps(c: Cache, i: Id, exptime: int)
    requires Inv(c) && i in c.items
    ensures Inv(Touched(c, i, exptime))
  {
    hide Inv;
    SetKeeps(c, i, c.items[i].(exptime := exptime));
  }

  lemma SetKeeps(c: Cache, i: Id, x: Item)
    requires Inv(c) && i in c.items && x.key == c.items[i].key && x.home == c.items[i].home
    requires x.linked == c.items[i].linked && x.refcount == c.items[i].refcount
    ensures Inv(SetItem(c, i, x))
  {
    hide Placed, Unique, Listed, Hashed, Counted, Pending;
    KeepLists(c.items, c.lists, i, x);
    KeepTable(c.items, c.table, i, x);
    RefCountPositive(c, i);
    LinkCount(c.items, Pending(c.bufs), c.holders, i, x);
  }

  lemma UpdateKeeps(c: Cache, i: Id, now: int, segmented: bool)
    requires Inv(c) && i in c.items
    ensures Inv(Updated(c, i, now, segmented))
    ensures i in Updated(c, i, now, segmented).items
  {
    var x := c.items[i];
    hide Inv;
    if segmented {
      if x.linked {
        if x.home.lru == Cold && x.active {
          MoveKeeps(c, i, x.(time := now, home := ListId(x.home.cls, Warm), active := false));
        } else {
          SetKeeps(c, i, x.(time := now));
        }
      }
    } else if x.time < now - ITEM_UPDATE_INTERVAL && x.linked {
      MoveKeeps(c, i, x.(time := now));
    }
  }

  // Bump buffers

  lemma {:induction false} PendingUpdate(bufs: seq<seq<Id>>, b: nat, s: seq<Id>)
    requires b < |bufs|
    ensures forall j :: Pending(bufs[b := s])[j] + multiset(bufs[b])[j] == Pending(bufs)[j] + multiset(s)[j]
    decreases |bufs|
  {
    if b == 0 {
      assert bufs[0 := s][1..] == bufs[1..];
    } else {
      assert bufs[b := s][1..] == bufs[1..][b - 1 := s];
      PendingUpdate(bufs[1..], b - 1, s);
    }
  }

  lemma PendingPush(bufs: seq<seq<Id>>, b: nat, i: Id)
    requires b < |bufs|
    ensures Pending(bufs[b := bufs[b] + [i]]) == Pending(bufs) + multiset{i}
  {
    var s := bufs[b] + [i];
    PendingUpdate(bufs, b, s);
    assert multiset(s) == multiset(bufs[b]) + multiset{i};
    hide Pending;
    assert forall j :: Pending(bufs[b := s])[j] == (Pending(bufs) + multiset{i})[j];
  }

  lemma PendingPop(bufs: seq<seq<Id>>, b: nat)
    requires b < |bufs| && bufs[b] != []
    ensures Pending(bufs) == Pending(bufs[b := bufs[b][1..]]) + multiset{bufs[b][0]}
  {
    var i, s := bufs[b][0], bufs[b][1..];
    PendingUpdate(bufs, b, s);
    assert bufs[b] == [i] + s;
    assert multiset(bufs[b]) == multiset{i} + multiset(s);
    hide Pending;
    assert forall j :: Pending(bufs)[j] == (Pending(bufs[b := s]) + multiset{i})[j];
  }

  lemma QueueCount(items: map<Id, Item>, pending: multiset<Id>, holders: multiset<Id>, i: Id, x: Item)
    requires Counted(items, pending, holders) && i in items && x == items[i].(refcount := items[i].refcount + 1)
    ensures Counted(items[i := x], pending + multiset{i}, holders)
  {
  }

  lemma BumpQueueKeeps(c: Cache, b: nat, i: Id, room: bool)
    requires Inv(c) && i in c.items && b < |c.bufs|
    ensures Inv(BumpQueued(c, b, i, room))
  {
    hide Placed, Unique, Listed, Hashed, Counted, Pending;
    if room {
      var x := c.items[i].(refcount := c.items[i].refcount + 1);
      PendingPush(c.bufs, b, i);
      QueueCount(c.items, Pending(c.bufs), c.holders, i, x);
      KeepLists(c.items, c.lists, i, x);
      KeepTable(c.items, c.table, i, x);
    }
  }

  lemma BumpKeeps(c: Cache, b: nat, i: Id, room: bool, now: int, segmented: bool)
    requires Inv(c) && i in c.items && b < |c.bufs|
    ensures Inv(Bumped(c, b, i, room, now, segmented))
  {
    hide Inv, Updated;
    var x := c.items[i];
    SetKeeps(c, i, x.(fetched := true));
    SetKeeps(c, i, x.(active := true, time := now));
    SetKeeps(c, i, x.(active := true));
    UpdateKeeps(SetItem(c, i, x.(fetched := true)), i, now, false);
    BumpQueueKeeps(SetItem(c, i, x.(active := true)), b, i, true);
  }

  lemma DrainCount(items: map<Id, Item>, pending: multiset<Id>, holders: multiset<Id>, i: Id)
    requires Counted(items, pending + multiset{i}, holders)
    ensures i in items && CountedBut(items, pending, holders, i)
  {
    assert i in pending + multiset{i};
  }

  /** Before the drop, the entry's reference is the only one unaccounted for. */
  lemma DrainBut(c: Cache, b: nat, now: int, segmented: bool)
    requires Inv(c) && b < |c.bufs| && c.bufs[b] != []
    ensures var i := c.bufs[b][0];
      i in c.items && c.items[i].refcount > 0 &&
      InvBut(Updated(c, i, now, segmented).(bufs := c.bufs[b := c.bufs[b][1..]]), i)
  {
    var i := c.bufs[b][0];
    PendingPop(c.bufs, b);
    var rest := c.bufs[b := c.bufs[b][1..]];
    DrainCount(c.items, Pending(rest), c.holders, i);
    RefCountPositive(c, i);
    UpdateKeeps(c, i, now, segmented);
    UpdatedBufs(c, i, now, segmented);
    var u := Updated(c, i, now, segmented);
    hide Placed, Unique, Listed, Hashed, Counted, CountedBut, Pending, Updated;
    DrainCount(u.items, Pending(rest), u.holders, i);
  }

  /** Every queued entry still names a live item, and draining it drops just the reference it held. */
  lemma DrainKeeps(c: Cache, b: nat, now: int, segmented: bool)
    requires Inv(c) && b < |c.bufs| && c.bufs[b] != []
    ensures c.bufs[b][0] in c.items && c.items[c.bufs[b][0]].refcount > 0
    ensures Inv(Drained(c, b, now, segmented))
  {
    hide Inv, InvBut, Updated;
    DrainBut(c, b, now, segmented);
    var i := c.bufs[b][0];
    DropKeeps(Updated(c, i, now, segmented).(bufs := c.bufs[b := c.bufs[b][1..]]), i);
  }

  lemma UpdatedBufs(c: Cache, i: Id, now: int, segmented: bool)
    requires i in c.items
    ensures var u := Updated(c, i, now, segmented); u.bufs == c.bufs && u.holders == c.holders && u.table == c.table
    ensures var u := Updated(c, i, now, segmented); i in u.items && u.items[i].refcount == c.items[i].refcount
  {
  }

  // Lookups and replacement

  lemma ReplaceKeeps(c: Cache, i: Id, j: Id, now: int)
    requires Inv(c) && i in c.items && c.items[i].linked && j in c.items && !c.items[j].linked
    requires c.items[j].key == c.items[i].key
    ensures c.items[i].refcount > 0 && Inv(Replaced(c, i, j, now))
  {
    UnlinkKeeps(c, i);
    UnlinkedSpares(c, i, j);
    hide Inv, Linked, Unlinked;
    LinkKeeps(Unlinked(c, i), j, now);
  }

  lemma UnlinkedSpares(c: Cache, i: Id, j: Id)
    requires i in c.items && c.items[i].refcount > 0 && j in c.items && j != i
    ensures var u := Unlinked(c, i);
      j in u.items && u.items[j] == c.items[j] && u.holders == c.holders && u.bufs == c.bufs
    ensures c.items[i].linked ==> Unlinked(c, i).table == c.table - {c.items[i].key}
  {
  }

  lemma UnlinkedSelf(c: Cache, i: Id)
    requires i in c.items && c.items[i].refcount > 0
    ensures var u := Unlinked(c, i); u.holders == c.holders && u.bufs == c.bufs
    ensures var u := Unlinked(c, i);
      i in u.items <==> !c.items[i].linked || c.items[i].refcount > 1
  {
  }

  /** Unlink and drop the caller's reference, as for a dead item that has just been taken. */
  lemma KillKeeps(c: Cache, i: Id)
    requires Inv(c) && i in c.items
    ensures var c1 := Taken(c, i);
      i in Unlinked(c1, i).items && Unlinked(c1, i).items[i].refcount > 0 && Inv(Released(Unlinked(c1, i), i))
  {
    var c1 := Taken(c, i);
    TakeKeeps(c, i);
    RefCountPositive(c, i);
    hide Inv, Unlinked, Released;
    UnlinkKeeps(c1, i);
    UnlinkedSelf(c1, i);
    ReleaseKeeps(Unlinked(c1, i), i);
  }

  lemma BumpedFacts(c: Cache, b: nat, i: Id, room: bool, now: int, segmented: bool)
    requires i in c.items && b < |c.bufs|
    ensures var d := Bumped(c, b, i, room, now, segmented);
      d.holders == c.holders && d.table == c.table && i in d.items && d.items[i].linked == c.items[i].linked
  {
  }

  lemma ReleasedHolders(c: Cache, i: Id)
    requires i in c.items && c.items[i].refcount > 0
    ensures Released(Unlinked(Taken(c, i), i), i).holders == c.holders
  {
    UnlinkedSelf(Taken(c, i), i);
    hide Unlinked;
    assert c.holders + multiset{i} - multiset{i} == c.holders;
  }

  lemma InTable(c: Cache, key: Key)
    requires Inv(c) && key in c.table
    ensures var i := c.table[key]; i in c.items && c.items[i].linked && c.items[i].key == key && c.items[i].refcount > 0
  {
  }

  /** A lookup hands out a live, linked item under the key asked for, and holds it; a flushed or expired
      item is unlinked instead and nothing is held. */
  lemma GetKeeps(c: Cache, key: Key, b: nat, flushed: bool, room: bool, now: int, update: bool, segmented: bool)
    requires Inv(c) && b < |c.bufs|
    ensures key in c.table ==> c.table[key] in c.items && c.items[c.table[key]].refcount > 0
    ensures var (d, r) := Got(c, key, b, flushed, room, now, update, segmented);
      Inv(d) && d.holders == c.holders + (if r.Some? then multiset{r.value} else multiset{}) &&
      (r.Some? ==> key in c.table && r.value == c.table[key] && r.value in d.items && d.items[r.value].linked)
  {
    hide Inv, Bumped, Unlinked, Released;
    if key in c.table {
      InTable(c, key);
      var i := c.table[key];
      KillKeeps(c, i);
      TakeKeeps(c, i);
      ReleasedHolders(c, i);
      BumpKeeps(Taken(c, i), b, i, room, now, segmented);
      BumpedFacts(Taken(c, i), b, i, room, now, segmented);
    }
  }

  // Pulling from the tail

  /** The item is put on another list and then released, or kept for the caller. */
  lemma SettleKeeps(c: Cache, p: Pull, i: Id)
    requires Inv(c) && i in c.holders
    ensures i in c.items && c.items[i].refcount > 0 && Inv(Settled(c, p, i, None))
  {
    hide Inv, Released;
    ReleaseKeeps(c, i);
  }

  lemma MoveSettles(c: Cache, p: Pull, i: Id, active: bool, to: Lru)
    requires Inv(c) && i in c.holders && i in c.items && c.items[i].linked
    ensures var c1 := UnlinkQ(SetItem(c, i, c.items[i].(active := active)), i);
      i in c1.items && c1.items[i].refcount > 0 && Inv(Settled(c1, p, i, Some(to)))
  {
    var x := c.items[i].(active := active, home := ListId(c.items[i].home.cls, to));
    RefCountPositive(c, i);
    MoveKeeps(c, i, x);
    var c1 := UnlinkQ(SetItem(c, i, c.items[i].(active := active)), i);
    assert c1.items[i := x] == c.items[i := x];
    assert LinkQ(SetItem(c1, i, x), i) == Moved(c, i, x);
    hide Inv, Released, UnlinkQ, LinkQ;
    ReleaseKeeps(Moved(c, i, x), i);
  }

  lemma OnIsLinked(c: Cache, l: ListId, i: Id)
    requires Inv(c) && On(c.lists, l, i)
    ensures i in c.items && c.items[i].linked && c.items[i].home == l
  {
  }

  /** Visiting an item on the list, and settling it when the walk stops there, keeps the invariant. */
  lemma VisitKeeps(c: Cache, p: Pull, i: Id)
    requires Inv(c) && On(c.lists, Source(p), i)
    ensures i in c.items && c.items[i].refcount > 0
    ensures var v := Visited(c, p, i);
      if v.Next? then Inv(v.c)
      else i in v.c.items && v.c.items[i].refcount > 0 && Inv(Settled(v.c, p, i, v.to))
  {
    hide Inv, Settled, Unlinked, Released, UnlinkQ, LinkQ, Bytes, Limit, On;
    OnIsLinked(c, Source(p), i);
    RefCountPositive(c, i);
    var c1 := Taken(c, i);
    TakeKeeps(c, i);
    KillKeeps(c, i);
    SettleKeeps(c1, p, i);
    MoveSettles(c1, p, i, false, Warm);
    if p.lru == Warm && c.items[i].active {
      WarmKeeps(c1, i);
    }
    if !c.items[i].active {
      assert SetItem(c1, i, c1.items[i].(active := false)) == c1;
      MoveSettles(c1, p, i, false, Cold);
    }
    if p.lru == Cold && p.evict {
      EvictKeeps(c1, p, i);
    }
  }

  lemma WarmKeeps(c: Cache, i: Id)
    requires Inv(c) && i in c.holders && i in c.items && c.items[i].linked
    ensures var d := LinkQ(UnlinkQ(SetItem(c, i, c.items[i].(active := false)), i), i);
      i in d.items && d.items[i].refcount > 0 && Inv(Released(d, i))
  {
    var x := c.items[i].(active := false);
    MoveKeeps(c, i, x);
    RefCountPositive(c, i);
    var d := LinkQ(UnlinkQ(SetItem(c, i, x), i), i);
    assert d == Moved(c, i, x);
    hide Inv, LinkQ, UnlinkQ;
    ReleaseKeeps(d, i);
  }

  lemma EvictKeeps(c: Cache, p: Pull, i: Id)
    requires Inv(c) && i in c.holders && i in c.items && c.items[i].linked
    ensures c.items[i].refcount > 0
    ensures var d := Unlinked(c, i);
      i in d.items && d.items[i].refcount > 0 && Inv(Settled(d, p, i, None))
  {
    RefCountPositive(c, i);
    UnlinkKeeps(c, i);
    UnlinkedSelf(c, i);
    hide Inv, Unlinked, Settled;
    SettleKeeps(Unlinked(c, i), p, i);
  }
}
