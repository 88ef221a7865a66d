/** The item operations as they run, each proved against its effect on the whole cache. */
module ItemStore {
  import opened Basics
  import opened Items
  import opened LruPull

  class Store {
    var items: map<Id, Item>
    var table: map<Key, Id>
    var lists: map<ListId, seq<Entry>>
    var bufs: seq<seq<Id>>
    ghost var holders: multiset<Id>

    ghost function View(): Cache
      reads this
    {
      Cache(items, table, lists, bufs, holders)
    }

    constructor (threads: nat)
      ensures Inv(View()) && items == map[] && |bufs| == threads && holders == multiset{}
    {
      items, table, lists, bufs, holders := map[], map[], map[], seq(threads, i => []), multiset{};
      new;
      NoPending(bufs);
    }

    /** An allocation that succeeds, at an address not in use. */
    method Alloc(i: Id, key: Key, home: ListId, exptime: int, now: int, bytes: nat)
      requires Inv(View()) && i !in items
      modifies this`items, this`holders
      ensures Inv(View()) && View() == Allocated(old(View()), i, key, home, exptime, now, bytes)
    {
      hide Inv;
      AllocateKeeps(View(), i, key, home, exptime, now, bytes);
      items := items[i := Item(key, home, false, false, false, 1, exptime, now, bytes)];
      holders := holders + multiset{i};
    }

    method DoLinkQ(i: Id)
      requires i in items
      modifies this`lists
      ensures View() == LinkQ(old(View()), i)
    {
      var l := items[i].home;
      lists := lists[l := [It(i)] + ListAt(lists, l)];
    }

    method DoUnlinkQ(i: Id)
      requires i in items
      modifies this`lists
      ensures View() == UnlinkQ(old(View()), i)
    {
      var l := items[i].home;
      lists := lists[l := Without(ListAt(lists, l), It(i))];
    }

    method RefcountIncr(i: Id)
      requires i in items
      modifies this`items
      ensures View() == Incr(old(View()), i)
    {
      items := items[i := items[i].(refcount := items[i].refcount + 1)];
    }

    /** `do_item_remove`, asserting what `item_free` asserts. */
    method DropRef(i: Id)
      requires i in items && items[i].refcount > 0
      requires items[i].refcount == 1 ==> !items[i].linked && forall l :: !On(lists, l, i)
      modifies this`items
      ensures View() == Drop(old(View()), i)
    {
      var n := items[i].refcount - 1;
      items := items[i := items[i].(refcount := n)];
      if n == 0 {
        assert !items[i].linked && forall l :: !On(lists, l, i);
        items := items - {i};
      }
      hide On;
      assert n == 0 ==> items == old(items) - {i};
    }

    /** `do_item_link`. */
    method DoItemLink(i: Id, now: int)
      requires Inv(View()) && i in items && !items[i].linked && items[i].key !in table
      modifies this`items, this`table, this`lists
      ensures Inv(View()) && View() == Linked(old(View()), i, now)
    {
      hide Inv;
      LinkKeeps(View(), i, now);
      items := items[i := items[i].(linked := true, time := now)];
      table := table[items[i].key := i];
      DoLinkQ(i);
      RefcountIncr(i);
    }

    /** `do_item_unlink`, and `do_item_unlink_nolock` with the list already locked. */
    method DoItemUnlink(i: Id)
      requires Inv(View()) && i in items
      modifies this`items, this`table, this`lists
      ensures Inv(View()) && old(items[i].refcount) > 0 && View() == Unlinked(old(View()), i)
    {
      hide Inv, InvBut, On;
      UnlinkKeeps(View(), i);
      if items[i].linked {
        DetachKeeps(View(), i);
        items := items[i := items[i].(linked := false)];
        table := table - {items[i].key};
        DoUnlinkQ(i);
        DropKeeps(View(), i);
        LastIsUnlinked(View(), i);
        DropRef(i);
      }
    }

    /** `do_item_remove` by a caller that holds the item. */
    method DoItemRemove(i: Id)
      requires Inv(View()) && i in holders
      modifies this`items, this`holders
      ensures Inv(View()) && i in old(items) && old(items[i].refcount) > 0 && View() == Released(old(View()), i)
    {
      hide Inv, InvBut, On;
      ReleaseKeeps(View(), i);
      ReleaseBut(View(), i);
      holders := holders - multiset{i};
      LastIsUnlinked(View(), i);
      DropRef(i);
    }

    /** `do_item_update`. */
    method DoItemUpdate(i: Id, now: int, segmented: bool)
      requires i in items
      modifies this`items, this`lists
      ensures View() == Updated(old(View()), i, now, segmented)
      ensures old(Inv(View())) ==> Inv(View())
    {
      hide Inv;
      if Inv(View()) { UpdateKeeps(View(), i, now, segmented); }
      if segmented {
        if items[i].linked {
          if items[i].home.lru == Cold && items[i].active {
            DoUnlinkQ(i);
            items := items[i := items[i].(time := now, home := ListId(items[i].home.cls, Warm), active := false)];
            DoLinkQ(i);
          } else {
            items := items[i := items[i].(time := now)];
          }
        }
      } else if items[i].time < now - ITEM_UPDATE_INTERVAL {
        if items[i].linked {
          DoUnlinkQ(i);
          items := items[i := items[i].(time := now)];
          DoLinkQ(i);
        }
      }
    }

    /** `do_item_replace`. */
    method DoItemReplace(i: Id, j: Id, now: int)
      requires Inv(View()) && i in items && items[i].linked && j in items && !items[j].linked
      requires items[j].key == items[i].key
      modifies this`items, this`table, this`lists
      ensures Inv(View()) && old(items[i].refcount) > 0 && View() == Replaced(old(View()), i, j, now)
    {
      hide Inv, Linked, Unlinked;
      RefCountPositive(View(), i);
      UnlinkedSpares(View(), i, j);
      DoItemUnlink(i);
      DoItemLink(j, now);
    }

    /** `lru_bump_async`; the buffer may have no room. */
    method LruBumpAsync(b: nat, i: Id, room: bool) returns (queued: bool)
      requires Inv(View()) && i in items && b < |bufs|
      modifies this`items, this`bufs
      ensures Inv(View()) && queued == room && View() == BumpQueued(old(View()), b, i, room)
    {
      hide Inv;
      BumpQueueKeeps(View(), b, i, room);
      RefcountIncr(i);
      if room {
        bufs := bufs[b := bufs[b] + [i]];
        return true;
      }
      items := items[i := items[i].(refcount := items[i].refcount - 1)];
      assert items == old(items);
      return false;
    }

    /** `do_item_bump`. */
    method DoItemBump(b: nat, i: Id, room: bool, now: int, segmented: bool)
      requires Inv(View()) && i in items && b < |bufs|
      modifies this`items, this`lists, this`bufs
      ensures Inv(View()) && View() == Bumped(old(View()), b, i, room, now, segmented)
    {
      hide Inv, Updated;
      BumpKeeps(View(), b, i, room, now, segmented);
      var x := items[i];
      if segmented {
        if !x.active {
          if !x.fetched {
            items := items[i := x.(fetched := true)];
          } else {
            SetKeeps(View(), i, x.(active := true));
            items := items[i := x.(active := true)];
            if x.home.lru != Cold {
              items := items[i := items[i].(time := now)];
              assert items == old(items)[i := x.(active := true, time := now)];
            } else {
              var queued := LruBumpAsync(b, i, room);
              if !queued {
                items := items[i := items[i].(active := false)];
                assert items == old(items);
              }
            }
          }
        }
      } else {
        SetKeeps(View(), i, x.(fetched := true));
        items := items[i := x.(fetched := true)];
        DoItemUpdate(i, now, false);
      }
    }

    /** `refcount_incr` by a caller that will hold the item. */
    method Take(i: Id)
      requires Inv(View()) && i in items
      modifies this`items, this`holders
      ensures Inv(View()) && View() == Taken(old(View()), i)
    {
      hide Inv;
      TakeKeeps(View(), i);
      RefcountIncr(i);
      holders := holders + multiset{i};
    }

    /** `do_item_get`. */
    method DoItemGet(key: Key, b: nat, flushed: bool, room: bool, now: int, update: bool, segmented: bool)
      returns (it: Option<Id>)
      requires Inv(View()) && b < |bufs|
      modifies this
      ensures Inv(View())
      ensures key in old(table) ==> old(table[key]) in old(items) && old(items[table[key]].refcount) > 0
      ensures (View(), it) == Got(old(View()), key, b, flushed, room, now, update, segmented)
    {
      hide Inv, Bumped, Unlinked;
      GetKeeps(View(), key, b, flushed, room, now, update, segmented);
      if key !in table {
        return None;
      }
      var i := table[key];
      ghost var c := View();
      KillKeeps(c, i);
      Take(i);
      UnlinkedSelf(Taken(c, i), i);
      if flushed {
        DoItemUnlink(i);
        DoItemRemove(i);
        return None;
      } else if items[i].exptime != 0 && items[i].exptime <= now {
        DoItemUnlink(i);
        DoItemRemove(i);
        return None;
      }
      if update {
        DoItemBump(b, i, room, now, segmented);
      }
      return Some(i);
    }

    /** `do_item_touch`. */
    method DoItemTouch(key: Key, exptime: int, b: nat, flushed: bool, room: bool, now: int, segmented: bool)
      returns (it: Option<Id>)
      requires Inv(View()) && b < |bufs|
      modifies this
      ensures Inv(View())
      ensures key in old(table) ==> old(table[key]) in old(items) && old(items[table[key]].refcount) > 0
      ensures var (c, r) := Got(old(View()), key, b, flushed, room, now, true, segmented);
        it == r && (it.None? ==> View() == c) &&
        (it.Some? ==> it.value in c.items && View() == Touched(c, it.value, exptime))
    {
      hide Inv, Got;
      ghost var c := View();
      it := DoItemGet(key, b, flushed, room, now, true, segmented);
      GetFinds(c, key, b, flushed, room, now, true, segmented);
      if it.Some? {
        TouchKeeps(View(), it.value, exptime);
        items := items[it.value := items[it.value].(exptime := exptime)];
      }
    }

    /** `lru_maintainer_bumps` on one buffer: every entry of the peeked window is drained, and only then
        is the window given back. */
    method DrainBuffer(b: nat, now: int, segmented: bool)
      requires Inv(View()) && b < |bufs|
      modifies this`items, this`lists, this`bufs
      ensures Inv(View()) && bufs == old(bufs)[b := []]
      ensures View() == DrainedAll(old(View()), b, now, segmented)
    {
      hide Inv, Updated, InvBut, On, Drained;
      var window := bufs[b];
      var k := 0;
      ghost var d := View();
      assert bufs[b := window[k..]] == bufs;
      while k < |window|
        invariant 0 <= k <= |window| && bufs == old(bufs)
        invariant d == View().(bufs := bufs[b := window[k..]]) && Inv(d)
        invariant DrainedAll(d, b, now, segmented) == DrainedAll(old(View()), b, now, segmented)
      {
        assert d.bufs[b] == window[k..] && d.bufs[b][0] == window[k];
        DrainEntry(window[k], d, b, now, segmented);
        DrainKeeps(d, b, now, segmented);
        DrainedBufs(d, b, now, segmented);
        d := Drained(d, b, now, segmented);
        assert d.bufs == bufs[b := window[k + 1..]];
        k := k + 1;
      }
      bufs := bufs[b := window[|window|..]];
      assert d.bufs[b] == [];
    }

    /** One entry: update its item, then drop the reference the entry held.  `d` is the cache with this
        entry first in its buffer and the ones before it gone. */
    method DrainEntry(i: Id, ghost d: Cache, ghost b: nat, now: int, segmented: bool)
      requires Inv(d) && d == View().(bufs := d.bufs) && b < |d.bufs| && d.bufs[b] != [] && d.bufs[b][0] == i
      modifies this`items, this`lists
      ensures i in d.items && d.items[i].refcount > 0
      ensures View() == Drained(d, b, now, segmented).(bufs := old(bufs))
    {
      hide Inv, Updated, InvBut, On;
      DrainBut(d, b, now, segmented);
      UpdatedAnyBufs(View(), d.bufs, i, now, segmented);
      DoItemUpdate(i, now, segmented);
      LastIsUnlinked(Updated(d, i, now, segmented).(bufs := d.bufs[b := d.bufs[b][1..]]), i);
      DropRef(i);
    }

    /** `lru_maintainer_bumps`: all buffers in turn. */
    method LruMaintainerBumps(now: int, segmented: bool)
      requires Inv(View())
      modifies this`items, this`lists, this`bufs
      ensures Inv(View()) && |bufs| == |old(bufs)| && forall b :: 0 <= b < |bufs| ==> bufs[b] == []
      ensures View() == DrainedTo(old(View()), |bufs|, now, segmented)
    {
      hide Inv, DrainedAll;
      for b := 0 to |bufs|
        invariant Inv(View()) && |bufs| == |old(bufs)|
        invariant forall a :: 0 <= a < b ==> bufs[a] == []
        invariant View() == DrainedTo(old(View()), b, now, segmented)
      {
        DrainBuffer(b, now, segmented);
      }
    }

    /** The body of `lru_pull_tail`'s loop for an item: what it did, and whether the walk stops here. */
    method VisitItem(p: Pull, i: Id) returns (stop: bool, to: Option<Lru>, removed: nat)
      requires Inv(View()) && On(lists, Source(p), i)
      modifies this`items, this`table, this`lists, this`holders
      ensures i in old(items) && old(items[i].refcount) > 0
      ensures Visited(old(View()), p, i) == if stop then Stop(View(), to, removed) else Next(View(), removed)
    {
      hide Inv, Unlinked, On, Bytes, Limit;
      OnIsLinked(View(), Source(p), i);
      RefCountPositive(View(), i);
      stop, to, removed := false, None, 0;
      if i in p.busy {
        return;
      }
      ghost var c := View();
      KillKeeps(c, i);
      var bytes := Bytes(items, ListAt(lists, Source(p)));
      Take(i);
      UnlinkedSelf(Taken(c, i), i);
      if (items[i].exptime != 0 && items[i].exptime < p.now) || i in p.flushed {
        DoItemUnlink(i);
        DoItemRemove(i);
        removed := 1;
        return;
      }
      stop, to, removed := Sort(p, i, bytes);
    }

    /** The switch on the segment. */
    method Sort(p: Pull, i: Id, bytes: nat) returns (stop: bool, to: Option<Lru>, removed: nat)
      requires Inv(View()) && i in items && items[i].linked && i in holders && items[i].refcount > 1
      modifies this`items, this`table, this`lists, this`holders
      ensures Sorted(old(View()), p, i, bytes) == if stop then Stop(View(), to, removed) else Next(View(), removed)
    {
      hide Inv, Unlinked, Limit;
      stop, to, removed := false, None, 0;
      match p.lru {
        case Hot =>
          stop := true;
          if items[i].active {
            items := items[i := items[i].(active := false)];
            removed := 1;
            to := Some(Warm);
            DoUnlinkQ(i);
          } else if bytes > Limit(p) || p.now - items[i].time > p.maxAge {
            to := Some(Cold);
            DoUnlinkQ(i);
            removed := 1;
          }
        case Warm =>
          if items[i].active {
            WarmKeeps(View(), i);
            items := items[i := items[i].(active := false)];
            removed := 1;
            DoUnlinkQ(i);
            DoLinkQ(i);
            DropHeld(i);
          } else {
            stop := true;
            if bytes > Limit(p) || p.now - items[i].time > p.maxAge {
              to := Some(Cold);
              DoUnlinkQ(i);
              removed := 1;
            }
          }
        case Cold =>
          stop := true;
          if p.evict {
            if p.evictToFree {
              DoItemUnlink(i);
              removed := 1;
            }
          } else if p.returnItem {
          } else if items[i].active && p.segmented {
            items := items[i := items[i].(active := false)];
            to := Some(Warm);
            DoUnlinkQ(i);
            removed := 1;
          }
        case Temp =>
          stop := true;
      }
    }

    /** `do_item_remove` by the holder of one of several references. */
    method DropHeld(i: Id)
      requires i in items && items[i].refcount > 1
      modifies this`items, this`holders
      ensures View() == Released(old(View()), i)
    {
      holders := holders - multiset{i};
      DropRef(i);
    }

    /** After the loop. */
    method Settle(p: Pull, i: Id, to: Option<Lru>)
      requires i in items && items[i].refcount > 0 && Inv(Settled(View(), p, i, to))
      requires items[i].refcount == 1 ==> !items[i].linked && to.None? && forall l :: !On(lists, l, i)
      modifies this`items, this`lists, this`holders
      ensures View() == Settled(old(View()), p, i, to)
    {
      hide Inv, On;
      if to.Some? {
        items := items[i := items[i].(home := ListId(items[i].home.cls, to.value))];
        DoLinkQ(i);
      }
      if !p.returnItem {
        holders := holders - multiset{i};
        DropRef(i);
      }
    }

    /** `lru_pull_tail`. */
    method LruPullTail(p: Pull) returns (removed: nat, ret: Option<Id>)
      requires Inv(View())
      modifies this`items, this`table, this`lists, this`holders
      ensures Inv(View())
      ensures var r := PulledTail(old(View()), p); View() == r.c && removed == r.removed && ret == r.ret
    {
      hide Inv, Visited, Settled, Before, IndexOf, On;
      removed, ret := 0, None;
      if p.cls == 0 {
        return;
      }
      var l := Source(p);
      var tries := 5;
      var search := Last(ListAt(lists, l));
      while tries > 0 && search.Some?
        invariant tries >= 0 && Inv(View()) && (search.Some? ==> search.value in ListAt(lists, l))
        invariant ret == None && Walked(View(), p, search, tries, removed) == PulledTail(old(View()), p)
        decreases tries, Position(ListAt(lists, l), search)
      {
        UniqueSource(View(), p);
        BeforeIsCloser(ListAt(lists, l), search.value);
        var next := Before(ListAt(lists, l), search.value);
        if search.value.Crawler? {
          if p.crawlBlocks {
            removed := 0;
            return;
          }
          search := next;
          continue;
        }
        var i := search.value.id;
        ghost var c := View();
        OnSource(c, p, i);
        VisitKeeps(c, p, i);
        var stop, to, r := VisitItem(p, i);
        removed := removed + r;
        if stop {
          SettleSafely(c, p, i);
          Settle(p, i, to);
          if p.returnItem && p.lru == Cold && !p.evict {
            ret := Some(i);
          }
          return;
        }
        if next.Some? {
          NextKeepsOthers(c, p, i, next.value);
        }
        search, tries := next, tries - 1;
      }
    }
  }

  lemma OnSource(c: Cache, p: Pull, i: Id)
    requires It(i) in SourceList(c, p)
    ensures On(c.lists, Source(p), i)
  {
  }

  /** When the item in hand has one reference left, it has been evicted. */
  lemma SettleSafely(c: Cache, p: Pull, i: Id)
    requires Inv(c) && On(c.lists, Source(p), i) && i in c.items && c.items[i].refcount > 0 && Visited(c, p, i).Stop?
    ensures var v := Visited(c, p, i);
      i in v.c.items && v.c.items[i].refcount > 0 &&
      (v.c.items[i].refcount == 1 ==> !v.c.items[i].linked && v.to.None? && forall l :: !On(v.c.lists, l, i))
  {
    VisitKeeps(c, p, i);
    OnIsLinked(c, Source(p), i);
    SelfVisited(c, p, i);
    var v := Visited(c, p, i);
    hide Inv, Visited, On, Dead;
    if v.c.items[i].refcount == 1 {
      EvictedIsOff(c, p, i);
    }
  }

  lemma EvictedIsOff(c: Cache, p: Pull, i: Id)
    requires Inv(c) && i in c.items && c.items[i].refcount > 0 && c.items[i].linked
    requires p.lru == Cold && p.evict && p.evictToFree && i !in p.busy && !Dead(p, i, c.items[i])
    ensures forall l :: !On(Visited(c, p, i).c.lists, l, i)
  {
    var c1 := Taken(c, i);
    TakeKeeps(c, i);
    UnlinkKeeps(c1, i);
    assert Visited(c, p, i).c == Unlinked(c1, i);
    UnlinkedSelf(c1, i);
    hide Visited, Unlinked;
  }

  /** What a lookup returns is there. */
  lemma GetFinds(c: Cache, key: Key, b: nat, flushed: bool, room: bool, now: int, update: bool, segmented: bool)
    requires Inv(c) && b < |c.bufs|
    ensures key in c.table ==> c.table[key] in c.items && c.items[c.table[key]].refcount > 0
    ensures var (d, r) := Got(c, key, b, flushed, room, now, update, segmented); r.Some? ==> r.value in d.items
  {
    GetKeeps(c, key, b, flushed, room, now, update, segmented);
    hide Inv, Unlinked, Released, Without;
  }

  ghost function DrainedAll(c: Cache, b: nat, now: int, segmented: bool): (d: Cache)
    requires Inv(c) && b < |c.bufs|
    ensures Inv(d) && d.bufs == c.bufs[b := []]
    decreases |c.bufs[b]|
  {
    if c.bufs[b] == [] then c
    else
      DrainKeeps(c, b, now, segmented);
      DrainedBufs(c, b, now, segmented);
      DrainedAll(Drained(c, b, now, segmented), b, now, segmented)
  }

  /** The first `n` buffers drained, the first of them first. */
  ghost function DrainedTo(c: Cache, n: nat, now: int, segmented: bool): (d: Cache)
    requires Inv(c) && n <= |c.bufs|
    ensures Inv(d) && |d.bufs| == |c.bufs|
  {
    if n == 0 then c else DrainedAll(DrainedTo(c, n - 1, now, segmented), n - 1, now, segmented)
  }

  lemma DrainedBufs(c: Cache, b: nat, now: int, segmented: bool)
    requires Inv(c) && b < |c.bufs| && c.bufs[b] != []
    ensures c.bufs[b][0] in c.items && c.items[c.bufs[b][0]].refcount > 0
    ensures Drained(c, b, now, segmented).bufs == c.bufs[b := c.bufs[b][1..]]
  {
    hide Inv, Updated;
    DrainKeeps(c, b, now, segmented);
  }

  lemma UpdatedAnyBufs(c: Cache, w: seq<seq<Id>>, i: Id, now: int, segmented: bool)
    requires i in c.items
    ensures Updated(c.(bufs := w), i, now, segmented) == Updated(c, i, now, segmented).(bufs := w)
  {
  }

  lemma LastIsUnlinked(c: Cache, i: Id)
    requires InvBut(c, i)
    ensures i in c.items && c.items[i].refcount > 0
    ensures c.items[i].refcount == 1 ==> !c.items[i].linked && forall l :: !On(c.lists, l, i)
  {
    DropKeeps(c, i);
  }

  lemma ReleaseBut(c: Cache, i: Id)
    requires Inv(c) && i in c.holders
    ensures InvBut(c.(holders := c.holders - multiset{i}), i)
  {
    assert i in c.items;
    ReleaseCount(c.items, Pending(c.bufs), c.holders, i);
    hide Placed, Unique, Listed, Hashed, Counted, CountedBut, Pending;
  }

  lemma {:induction false} NoPending(bufs: seq<seq<Id>>)
    requires forall k :: 0 <= k < |bufs| ==> bufs[k] == []
    ensures Pending(bufs) == multiset{}
  {
    if bufs != [] {
      NoPending(bufs[1..]);
    }
  }
}
