/** Items over whole runs: every thread's operations, the crawler and the walks from the tail in any order. */
module ItemRuns {
  import opened Basics
  import opened Items
  import opened LruPull
  import opened ItemStore

  // The crawler among the items

  function SetList(c: Cache, l: ListId, s: seq<Entry>): Cache {
    c.(lists := c.lists[l := s])
  }

  /** `do_item_crawl_q`: past the item before it, or off the list at the head unless it is alone there. */
  function Stepped(s: seq<Entry>): seq<Entry>
    requires Crawler in s
  {
    var i := IndexOf(s, Crawler);
    if i > 0 then s[i - 1 := Crawler][i := s[i - 1]] else if |s| > 1 then s[1..] else s
  }

  /** The same items, each once, in any order and with or without the crawler. */
  ghost predicate SameItems(s: seq<Entry>, t: seq<Entry>) {
    NoRepeats(t) && forall i :: It(i) in t <==> It(i) in s
  }

  lemma SameItemsKeep(c: Cache, l: ListId, t: seq<Entry>)
    requires Inv(c) && SameItems(ListAt(c.lists, l), t)
    ensures Inv(SetList(c, l, t))
  {
    var d := SetList(c, l, t);
    assert forall m :: ListAt(d.lists, m) == if m == l then t else ListAt(c.lists, m);
    assert forall m, i :: On(d.lists, m, i) <==> On(c.lists, m, i);
    hide ListAt, Pending;
  }

  lemma ListUnique(c: Cache, l: ListId)
    requires Inv(c)
    ensures NoRepeats(ListAt(c.lists, l))
  {
  }

  lemma CrawlerLinkKeeps(c: Cache, l: ListId)
    requires Inv(c) && Crawler !in ListAt(c.lists, l)
    ensures Inv(SetList(c, l, ListAt(c.lists, l) + [Crawler]))
  {
    ListUnique(c, l);
    SameItemsKeep(c, l, ListAt(c.lists, l) + [Crawler]);
  }

  lemma CrawlerStepKeeps(c: Cache, l: ListId)
    requires Inv(c) && Crawler in ListAt(c.lists, l)
    ensures Inv(SetList(c, l, Stepped(ListAt(c.lists, l))))
  {
    hide Inv;
    ListUnique(c, l);
    SteppedSame(ListAt(c.lists, l));
    SameItemsKeep(c, l, Stepped(ListAt(c.lists, l)));
  }

  lemma SteppedSame(s: seq<Entry>)
    requires NoRepeats(s) && Crawler in s
    ensures SameItems(s, Stepped(s))
  {
    var i, t := IndexOf(s, Crawler), Stepped(s);
    if i > 0 {
      forall j | It(j) in s
        ensures It(j) in t
      {
        var k :| 0 <= k < |s| && s[k] == It(j);
        assert t[if k == i - 1 then i else k] == It(j);
      }
    } else if |s| > 1 {
      forall j | It(j) in s
        ensures It(j) in t
      {
        var k :| 0 <= k < |s| && s[k] == It(j);
        assert t[k - 1] == It(j);
      }
    }
  }

  lemma CrawlerUnlinkKeeps(c: Cache, l: ListId)
    requires Inv(c)
    ensures Inv(SetList(c, l, Without(ListAt(c.lists, l), Crawler)))
  {
    hide Inv;
    ListUnique(c, l);
    WithoutCrawler(ListAt(c.lists, l));
    SameItemsKeep(c, l, Without(ListAt(c.lists, l), Crawler));
  }

  lemma {:induction false} WithoutCrawler(s: seq<Entry>)
    requires NoRepeats(s)
    ensures SameItems(s, Without(s, Crawler)) && forall e: Entry :: e in Without(s, Crawler) ==> e in s
  {
    if s != [] {
      var t := s[1..];
      assert forall k :: 0 <= k < |t| ==> t[k] == s[k + 1];
      assert NoRepeats(t) && s[0] !in t;
      if s[0] != Crawler { WithoutCrawler(t); }
    }
  }

  /** `crawler_expired_eval` on an item that nobody else holds; others are left alone. */
  function Evaluated(c: Cache, i: Id, dead: bool): Cache
    requires i in c.items && c.items[i].refcount > 0
  {
    if dead && c.items[i].refcount == 1 then Released(Unlinked(Taken(c, i), i), i) else c
  }

  lemma EvalKeeps(c: Cache, l: ListId, i: Id, dead: bool)
    requires Inv(c) && On(c.lists, l, i)
    ensures i in c.items && c.items[i].refcount > 0 && Inv(Evaluated(c, i, dead))
  {
    OnIsLinked(c, l, i);
    RefCountPositive(c, i);
    hide Inv;
    KillKeeps(c, i);
  }

  // Runs

  /** Everything the threads of the server do to items, with what the environment answered.  A pull from the
      tail is one event, or any number of visits with whatever other threads do in between. */
  datatype Event =
    | Alloc(i: Id, key: Key, home: ListId, exptime: int, now: int, bytes: nat)
    | Link(i: Id, now: int)
    | Unlink(i: Id)
    | Release(i: Id)
    | Update(i: Id, now: int, segmented: bool)
    | Replace(i: Id, j: Id, now: int)
    | Get(key: Key, b: nat, flushed: bool, room: bool, now: int, update: bool, segmented: bool)
    | Touch(i: Id, exptime: int)
    | Bump(b: nat, i: Id, room: bool, now: int, segmented: bool)
    | Drain(b: nat, now: int, segmented: bool)
    | PullTail(p: Pull)
    | Visit(p: Pull, i: Id)
    | CrawlerLink(l: ListId)
    | CrawlerStep(l: ListId)
    | CrawlerUnlink(l: ListId)
    | CrawlerEval(l: ListId, i: Id, dead: bool)

  /** What callers owe: an item is touched while it is held, linked only under a free key. */
  ghost predicate Enabled(c: Cache, e: Event) {
    match e
    case Alloc(i, _, _, _, _, _) => i !in c.items
    case Link(i, _) => i in c.holders && i in c.items && !c.items[i].linked && c.items[i].key !in c.table
    case Unlink(i) => i in c.holders && i in c.items
    case Release(i) => i in c.holders
    case Update(i, _, _) => i in c.holders && i in c.items
    case Replace(i, j, _) =>
      i in c.holders && i in c.items && c.items[i].linked && j in c.holders && j in c.items && !c.items[j].linked &&
      c.items[j].key == c.items[i].key
    case Get(_, b, _, _, _, _, _) => b < |c.bufs|
    case Touch(i, _) => i in c.holders && i in c.items
    case Bump(b, i, _, _, _) => i in c.holders && i in c.items && b < |c.bufs|
    case Drain(b, _, _) => b < |c.bufs| && c.bufs[b] != []
    case PullTail(_) => true
    case Visit(p, i) => On(c.lists, Source(p), i)
    case CrawlerLink(l) => Crawler !in ListAt(c.lists, l)
    case CrawlerStep(l) => Crawler in ListAt(c.lists, l)
    case CrawlerUnlink(l) => true
    case CrawlerEval(l, i, _) => On(c.lists, l, i)
  }

  ghost function Apply(c: Cache, e: Event): (d: Cache)
    requires Inv(c) && Enabled(c, e)
    ensures Inv(d)
  {
    hide Inv;
    match e
    case Alloc(i, key, home, exptime, now, bytes) =>
      AllocateKeeps(c, i, key, home, exptime, now, bytes); Allocated(c, i, key, home, exptime, now, bytes)
    case Link(i, now) => LinkKeeps(c, i, now); Linked(c, i, now)
    case Unlink(i) => UnlinkKeeps(c, i); Unlinked(c, i)
    case Release(i) => ReleaseKeeps(c, i); Released(c, i)
    case Update(i, now, segmented) => UpdateKeeps(c, i, now, segmented); Updated(c, i, now, segmented)
    case Replace(i, j, now) => ReplaceKeeps(c, i, j, now); Replaced(c, i, j, now)
    case Get(key, b, flushed, room, now, update, segmented) =>
      GetKeeps(c, key, b, flushed, room, now, update, segmented);
      Got(c, key, b, flushed, room, now, update, segmented).0
    case Touch(i, exptime) => TouchKeeps(c, i, exptime); Touched(c, i, exptime)
    case Bump(b, i, room, now, segmented) =>
      BumpKeeps(c, b, i, room, now, segmented); Bumped(c, b, i, room, now, segmented)
    case Drain(b, now, segmented) => DrainKeeps(c, b, now, segmented); Drained(c, b, now, segmented)
    case PullTail(p) => PulledTail(c, p).c
    case Visit(p, i) => AfterInv(c, p, i); After(c, p, i)
    case CrawlerLink(l) => CrawlerLinkKeeps(c, l); SetList(c, l, ListAt(c.lists, l) + [Crawler])
    case CrawlerStep(l) => CrawlerStepKeeps(c, l); SetList(c, l, Stepped(ListAt(c.lists, l)))
    case CrawlerUnlink(l) => CrawlerUnlinkKeeps(c, l); SetList(c, l, Without(ListAt(c.lists, l), Crawler))
    case CrawlerEval(l, i, dead) => EvalKeeps(c, l, i, dead); Evaluated(c, i, dead)
  }

  ghost predicate IsRun(c: Cache, es: seq<Event>)
    requires Inv(c)
    decreases es
  {
    es == [] || (Enabled(c, es[0]) && IsRun(Apply(c, es[0]), es[1..]))
  }

  ghost function Run(c: Cache, es: seq<Event>): (d: Cache)
    requires Inv(c) && IsRun(c, es)
    ensures Inv(d)
    decreases es
  {
    if es == [] then c else Run(Apply(c, es[0]), es[1..])
  }

  /** No items yet, and one bump buffer for each thread. */
  ghost predicate Fresh(c: Cache) {
    c.items == map[] && c.table == map[] && c.lists == map[] && c.holders == multiset{} &&
    forall b :: 0 <= b < |c.bufs| ==> c.bufs[b] == []
  }

  lemma FreshInv(c: Cache)
    requires Fresh(c)
    ensures Inv(c)
  {
    NoPending(c.bufs);
  }

  /** How often an item is on the list named by its `slabs_clsid`, and on any other. */
  ghost predicate OnItsListOnly(c: Cache, i: Id)
    requires i in c.items
  {
    multiset(ListAt(c.lists, c.items[i].home))[It(i)] == 1 && forall l :: On(c.lists, l, i) ==> l == c.items[i].home
  }

  lemma {:induction false} CountOnce(s: seq<Entry>, e: Entry)
    requires NoRepeats(s)
    ensures multiset(s)[e] == if e in s then 1 else 0
  {
    if s != [] {
      var t := s[1..];
      assert NoRepeats(t) by {
        assert forall p :: 0 <= p < |t| ==> t[p] == s[p + 1];
      }
      CountOnce(t, e);
      assert s == [s[0]] + t;
      assert forall p :: 0 <= p < |t| ==> t[p] != s[0];
    }
  }

  /** Linked, in the table, and on exactly one list once are the same thing; the count is what the link, the
      callers and the bump buffers hold; and nothing referenced has been freed. */
  ghost predicate Safe(c: Cache, i: Id) {
    var pending := Pending(c.bufs);
    (i in c.items ==>
      (c.items[i].linked <==> c.items[i].key in c.table && c.table[c.items[i].key] == i) &&
      (c.items[i].linked <==> exists l :: On(c.lists, l, i)) &&
      (c.items[i].linked ==> OnItsListOnly(c, i)) &&
      c.items[i].refcount == Items.Link(c.items[i]) + c.holders[i] + pending[i]) &&
    (i in c.holders || i in pending || (exists k :: k in c.table && c.table[k] == i) ||
     (exists l :: On(c.lists, l, i)) ==>
      i in c.items)
  }

  lemma SafeInv(c: Cache, i: Id)
    requires Inv(c)
    ensures Safe(c, i)
  {
    if i in c.items && c.items[i].linked {
      assert NoRepeats(ListAt(c.lists, c.items[i].home));
      CountOnce(ListAt(c.lists, c.items[i].home), It(i));
      assert On(c.lists, c.items[i].home, i);
    }
    hide Pending;
  }

  /** From an empty cache, after any run. */
  lemma EveryRunIsSafe(start: Cache, es: seq<Event>, i: Id)
    requires Fresh(start) && (FreshInv(start); IsRun(start, es))
    ensures (FreshInv(start); Safe(Run(start, es), i))
  {
    hide Inv, IsRun, Run, Safe;
    FreshInv(start);
    SafeInv(Run(start, es), i);
  }

  // What a step frees

  /** A walk frees only items that nothing but their link refers to. */
  lemma VisitFrees(c: Cache, p: Pull, i: Id, j: Id)
    requires Inv(c) && On(c.lists, Source(p), i) && j in c.items
    ensures j !in After(c, p, i).items ==> c.items[j].linked && c.items[j].refcount == 1
    ensures j in After(c, p, i).items && After(c, p, i).items[j].linked && Visited(c, p, i).Next? ==>
      c.items[j].linked && After(c, p, i).items[j].refcount == c.items[j].refcount
  {
    if j != i {
      OthersSpared(c, p, i, j);
    } else {
      OnIsLinked(c, Source(p), i);
      VisitKeeps(c, p, i);
      VisitedFrees(c, p, i);
    }
  }

  lemma VisitedFrees(c: Cache, p: Pull, i: Id)
    requires Inv(c) && On(c.lists, Source(p), i) && i in c.items && c.items[i].refcount > 0
    requires c.items[i].linked && c.items[i].home == Source(p)
    ensures var d := After(c, p, i);
      if i in d.items then d.items[i].linked && Visited(c, p, i).Next? ==> d.items[i].refcount == c.items[i].refcount
      else c.items[i].refcount == 1
  {
    var c1 := Taken(c, i);
    UnlinkedItem(c1, i, i);
    ReleasedItem(Unlinked(c1, i), i, i);
    SelfVisited(c, p, i);
    var v := Visited(c, p, i);
    VisitKeeps(c, p, i);
    if v.Stop? {
      SettledFrees(v.c, p, i, v.to);
    }
    hide Inv, Sorted, Settled, Unlinked, Released, Taken;
  }

  lemma SettledFrees(c: Cache, p: Pull, i: Id, to: Option<Lru>)
    requires i in c.items && c.items[i].refcount > 0
    ensures i in Settled(c, p, i, to).items || c.items[i].refcount == 1
  {
  }

  lemma {:induction false} WalkFrees(c: Cache, p: Pull, search: Option<Entry>, tries: nat, removed: nat, j: Id)
    requires Inv(c) && (search.Some? ==> search.value in SourceList(c, p)) && j in c.items
    ensures j !in Walked(c, p, search, tries, removed).c.items ==> c.items[j].linked && c.items[j].refcount == 1
    decreases tries, Position(SourceList(c, p), search)
  {
    hide Inv, Visited, Settled, Before, IndexOf;
    if tries > 0 && search.Some? {
      var s := SourceList(c, p);
      UniqueSource(c, p);
      BeforeIsCloser(s, search.value);
      var prev := Before(s, search.value);
      match search.value
      case Crawler =>
        if !p.crawlBlocks { WalkFrees(c, p, prev, tries, removed, j); }
      case It(i) =>
        VisitKeeps(c, p, i);
        VisitFrees(c, p, i, j);
        var v := Visited(c, p, i);
        if v.Next? {
          if prev.Some? { NextKeepsOthers(c, p, i, prev.value); }
          if j in v.c.items { WalkFrees(v.c, p, prev, tries - 1, removed + v.removed, j); }
          else { NothingBack(v.c, p, prev, tries - 1, removed + v.removed, j); }
        }
    }
  }

  lemma NothingBack(c: Cache, p: Pull, search: Option<Entry>, tries: nat, removed: nat, j: Id)
    requires Inv(c) && (search.Some? ==> search.value in SourceList(c, p)) && j !in c.items
    ensures j !in Walked(c, p, search, tries, removed).c.items
  {
    hide Inv, Walked;
    WalkFates(c, p, search, tries, removed);
  }

  /** What is freed, and by what.  Before the step exactly one reference to the item was left, and the step
      is the one that drops it: the holder lets go of it or a bump is drained, the item being unlinked
      already, or its link goes.  Afterwards nothing refers to it. */
  lemma FreedIsUnreferenced(c: Cache, e: Event, i: Id)
    requires Inv(c) && Enabled(c, e) && i in c.items && i !in Apply(c, e).items
    ensures c.items[i].refcount == 1 == Items.Link(c.items[i]) + c.holders[i] + Pending(c.bufs)[i]
    ensures !c.items[i].linked ==>
      e == Release(i) || (e.Drain? && e.b < |c.bufs| && c.bufs[e.b] != [] && c.bufs[e.b][0] == i)
    ensures c.items[i].linked ==> e.Get? || e.PullTail? || e.Visit? || e.CrawlerEval?
    ensures var d := Apply(c, e);
      i !in d.holders && i !in Pending(d.bufs) && (forall k :: k in d.table ==> d.table[k] != i) &&
      forall l :: !On(d.lists, l, i)
  {
    FreedHow(c, e, i);
    CountIs(c, i);
    NothingLeft(Apply(c, e), i);
  }

  lemma CountIs(c: Cache, i: Id)
    requires Inv(c) && i in c.items
    ensures c.items[i].refcount == Items.Link(c.items[i]) + c.holders[i] + Pending(c.bufs)[i]
  {
    hide Pending;
  }

  lemma NothingLeft(d: Cache, i: Id)
    requires Inv(d) && i !in d.items
    ensures i !in d.holders && i !in Pending(d.bufs) && (forall k :: k in d.table ==> d.table[k] != i) &&
      forall l :: !On(d.lists, l, i)
  {
    hide Pending;
  }

  lemma FreedHow(c: Cache, e: Event, i: Id)
    requires Inv(c) && Enabled(c, e) && i in c.items && i !in Apply(c, e).items
    ensures c.items[i].refcount == 1
    ensures !c.items[i].linked ==>
      e == Release(i) || (e.Drain? && e.b < |c.bufs| && c.bufs[e.b] != [] && c.bufs[e.b][0] == i)
    ensures c.items[i].linked ==> e.Get? || e.PullTail? || e.Visit? || e.CrawlerEval?
  {
    if e.Alloc? || e.Link? || e.CrawlerLink? || e.CrawlerStep? || e.CrawlerUnlink? {
      AllStay(c, e, i);
    } else if e.PullTail? || e.Visit? || e.CrawlerEval? {
      WalkersFree(c, e, i);
    } else {
      ClientsFree(c, e, i);
    }
  }

  lemma AllStay(c: Cache, e: Event, i: Id)
    requires Inv(c) && Enabled(c, e) && i in c.items
    requires e.Alloc? || e.Link? || e.CrawlerLink? || e.CrawlerStep? || e.CrawlerUnlink?
    ensures i in Apply(c, e).items
  {
    hide Inv, Without, Stepped, ListAt;
  }

  lemma WalkersFree(c: Cache, e: Event, i: Id)
    requires Inv(c) && Enabled(c, e) && i in c.items && (e.PullTail? || e.Visit? || e.CrawlerEval?)
    ensures i !in Apply(c, e).items ==> c.items[i].linked && c.items[i].refcount == 1
  {
    hide Inv, Walked, After, Evaluated;
    match e
    case PullTail(p) =>
      if p.cls != 0 { WalkFrees(c, p, Last(SourceList(c, p)), 5, 0, i); }
    case Visit(p, j) => VisitFrees(c, p, j, i);
    case CrawlerEval(l, j, dead) => EvalFrees(c, l, j, dead, i);
  }

  lemma ClientsFree(c: Cache, e: Event, i: Id)
    requires Inv(c) && Enabled(c, e) && i in c.items
    requires e.Unlink? || e.Release? || e.Update? || e.Replace? || e.Get? || e.Touch? || e.Bump? || e.Drain?
    ensures i !in Apply(c, e).items ==>
      c.items[i].refcount == 1 &&
      if c.items[i].linked then e.Get?
      else e == Release(i) || (e.Drain? && e.b < |c.bufs| && c.bufs[e.b] != [] && c.bufs[e.b][0] == i)
  {
    hide Inv, Unlinked, Released, Updated, Replaced, Got, Bumped, Drained;
    match e
    case Drain(b, now, segmented) => DrainFrees(c, b, now, segmented, i);
    case Get(key, b, flushed, room, now, update, segmented) =>
      GetFrees(c, key, b, flushed, room, now, update, segmented, i);
    case Release(j) => ReleaseFrees(c, j, i);
    case Unlink(j) => UnlinkHeld(c, j, i);
    case Replace(j, k, now) => ReplaceHeld(c, j, k, now, i);
    case Update(j, now, segmented) => UpdateKeepsAll(c, j, now, segmented, i);
    case Touch(_, _) =>
    case Bump(b, j, room, now, segmented) => BumpKeepsAll(c, b, j, room, now, segmented, i);
  }

  lemma ReleaseFrees(c: Cache, j: Id, i: Id)
    requires Inv(c) && j in c.holders && i in c.items
    ensures j in c.items && c.items[j].refcount > 0
    ensures i !in Released(c, j).items ==> i == j && c.items[j].refcount == 1 && !c.items[j].linked
  {
    ReleaseKeeps(c, j);
    CountIs(c, j);
    hide Inv, Pending;
  }

  /** Whoever unlinks an item holds it, so it outlives its link. */
  lemma UnlinkHeld(c: Cache, j: Id, i: Id)
    requires Inv(c) && j in c.holders && j in c.items && i in c.items
    ensures c.items[j].refcount > 0 && i in Unlinked(c, j).items
  {
    RefCountPositive(c, j);
    CountIs(c, j);
    hide Inv, Pending, UnlinkQ;
  }

  lemma ReplaceHeld(c: Cache, j: Id, k: Id, now: int, i: Id)
    requires Inv(c) && j in c.holders && j in c.items && k in c.items && k != j && i in c.items
    ensures c.items[j].refcount > 0 && i in Replaced(c, j, k, now).items
  {
    UnlinkHeld(c, j, i);
    UnlinkHeld(c, j, k);
    hide Inv, Unlinked, LinkQ;
  }

  lemma UpdateKeepsAll(c: Cache, j: Id, now: int, segmented: bool, i: Id)
    requires j in c.items && i in c.items
    ensures i in Updated(c, j, now, segmented).items
  {
    hide Without, ListAt;
  }

  lemma BumpKeepsAll(c: Cache, b: nat, j: Id, room: bool, now: int, segmented: bool, i: Id)
    requires j in c.items && i in c.items && b < |c.bufs|
    ensures i in Bumped(c, b, j, room, now, segmented).items
  {
    hide Updated;
    if !segmented { UpdateKeepsAll(SetItem(c, j, c.items[j].(fetched := true)), j, now, false, i); }
  }

  lemma KillFrees(c: Cache, j: Id, i: Id)
    requires j in c.items && c.items[j].refcount > 0 && c.items[j].linked && i in c.items
    ensures i !in Released(Unlinked(Taken(c, j), j), j).items ==> i == j && c.items[j].refcount == 1
  {
    hide Without, ListAt;
  }

  lemma GetFrees(c: Cache, key: Key, b: nat, flushed: bool, room: bool, now: int, update: bool, segmented: bool, i: Id)
    requires Inv(c) && b < |c.bufs| && i in c.items
    ensures key in c.table ==> c.table[key] in c.items && c.items[c.table[key]].refcount > 0
    ensures i !in Got(c, key, b, flushed, room, now, update, segmented).0.items ==>
      c.items[i].linked && c.items[i].refcount == 1
  {
    if key in c.table {
      InTable(c, key);
      var j := c.table[key];
      KillFrees(c, j, i);
      BumpKeepsAll(Taken(c, j), b, j, room, now, segmented, i);
      hide Inv, Bumped, Unlinked, Released;
    }
  }

  lemma EvalFrees(c: Cache, l: ListId, j: Id, dead: bool, i: Id)
    requires Inv(c) && On(c.lists, l, j) && i in c.items
    ensures j in c.items && c.items[j].refcount > 0
    ensures i !in Evaluated(c, j, dead).items ==> c.items[i].linked && c.items[i].refcount == 1
  {
    OnIsLinked(c, l, j);
    RefCountPositive(c, j);
    KillFrees(c, j, i);
    hide Inv, Unlinked, Released, Taken;
  }

  lemma DrainFrees(c: Cache, b: nat, now: int, segmented: bool, i: Id)
    requires Inv(c) && b < |c.bufs| && c.bufs[b] != [] && i in c.items
    ensures c.bufs[b][0] in c.items && c.items[c.bufs[b][0]].refcount > 0
    ensures i !in Drained(c, b, now, segmented).items ==>
      i == c.bufs[b][0] && c.items[i].refcount == 1 && !c.items[i].linked
  {
    DrainKeeps(c, b, now, segmented);
    var j := c.bufs[b][0];
    UpdateKeepsAll(c, j, now, segmented, i);
    UpdatedBufs(c, j, now, segmented);
    PendingPop(c.bufs, b);
    CountIs(c, j);
    hide Inv, Updated, Pending;
  }
}
