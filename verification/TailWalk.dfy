/** What a pull from the tail does to every item: which ones it meets, and what becomes of each. */
module TailWalk {
  import opened Basics
  import opened Items
  import opened LruPull

  // The rules

  /** Outdated by a flush, or past its time. */
  predicate Expired(p: Pull, i: Id, x: Item) {
    i in p.flushed || (x.exptime != 0 && x.exptime < p.now)
  }

  datatype Turn = Stay | Relink | Go(to: Lru) | Evict

  /** The list is larger than its share, HOT's own or else that of WARM. */
  predicate Crowded(p: Pull, bytes: nat) {
    var hot, warm := p.totalBytes * p.hotPct / 100, p.totalBytes * p.warmPct / 100;
    bytes > if p.lru == Hot && hot != 0 then hot else warm
  }

  /** What a live item that the walk meets is due: active ones are rescued, from HOT to WARM and within WARM; idle
      ones go to COLD when the list is too large or they are too old; on COLD an eviction takes whatever it meets,
      and otherwise an active item goes back to WARM, unless the caller wants it. */
  function Due(p: Pull, x: Item, bytes: nat): Turn {
    match p.lru
    case Hot =>
      if x.active then Go(Warm) else if Crowded(p, bytes) || p.now - x.time > p.maxAge then Go(Cold) else Stay
    case Warm =>
      if x.active then Relink else if Crowded(p, bytes) || p.now - x.time > p.maxAge then Go(Cold) else Stay
    case Cold =>
      if p.evict then (if p.evictToFree then Evict else Stay)
      else if x.active && p.segmented && !p.returnItem then Go(Warm) else Stay
    case Temp => Stay
  }

  // Which items are met

  /** The walk goes on past a crawler unless it is to be blocked by one, and past items that are locked, expired, or
      rescued within WARM. */
  ghost predicate Passes(c: Cache, p: Pull, e: Entry) {
    match e
    case Crawler => !p.crawlBlocks
    case It(i) =>
      i in p.busy || (i in c.items && (Expired(p, i, c.items[i]) || (p.lru == Warm && c.items[i].active)))
  }

  function CountItems(s: seq<Entry>): nat {
    if s == [] then 0 else (if s[0].It? then 1 else 0) + CountItems(s[1..])
  }

  /** Coming down `pre` from its end with so many tries left, the walk comes to the entry. */
  ghost predicate Meets(c: Cache, p: Pull, pre: seq<Entry>, tries: nat, x: Entry) {
    exists k :: 0 <= k < |pre| && MeetsAt(c, p, pre, tries, x, k)
  }

  ghost predicate MeetsAt(c: Cache, p: Pull, pre: seq<Entry>, tries: nat, x: Entry, k: nat) {
    k < |pre| && pre[k] == x && (forall m :: k < m < |pre| ==> Passes(c, p, pre[m])) &&
    CountItems(pre[k + 1..]) < tries
  }

  lemma MeetsNothing(c: Cache, p: Pull, pre: seq<Entry>, tries: nat, x: Entry)
    requires tries == 0 || pre == []
    ensures !Meets(c, p, pre, tries, x)
  {
  }

  lemma {:induction false} CountSnoc(s: seq<Entry>, e: Entry)
    ensures CountItems(s + [e]) == CountItems(s) + if e.It? then 1 else 0
  {
    if s == [] {
      assert s + [e] == [e] && [e][1..] == [];
    } else {
      assert (s + [e])[1..] == s[1..] + [e];
      CountSnoc(s[1..], e);
    }
  }

  lemma MeetsAtLast(c: Cache, p: Pull, pre: seq<Entry>, e: Entry, tries: nat, x: Entry, k: nat)
    requires tries > 0 && k < |pre|
    ensures MeetsAt(c, p, pre + [e], tries, x, k) <==>
      Passes(c, p, e) && MeetsAt(c, p, pre, if e.It? then tries - 1 else tries, x, k)
  {
    hide Passes;
    var all := pre + [e];
    assert all[k + 1..] == pre[k + 1..] + [e] && all[|pre|] == e;
    CountSnoc(pre[k + 1..], e);
    hide CountItems;
    if MeetsAt(c, p, all, tries, x, k) {
      forall m | k < m < |pre|
        ensures Passes(c, p, pre[m])
      {
        assert all[m] == pre[m];
      }
    }
  }

  /** One entry further down. */
  lemma MeetsLast(c: Cache, p: Pull, pre: seq<Entry>, e: Entry, tries: nat, x: Entry)
    requires tries > 0 && e !in pre
    ensures Meets(c, p, pre + [e], tries, x) <==>
      e == x || (Passes(c, p, e) && Meets(c, p, pre, if e.It? then tries - 1 else tries, x))
  {
    var all, t := pre + [e], if e.It? then tries - 1 else tries;
    if e == x {
      assert all[|pre| + 1..] == [];
      assert MeetsAt(c, p, all, tries, x, |pre|);
    }
    if Passes(c, p, e) && Meets(c, p, pre, t, x) {
      var k :| 0 <= k < |pre| && MeetsAt(c, p, pre, t, x, k);
      hide MeetsAt, Passes;
      MeetsAtLast(c, p, pre, e, tries, x, k);
    }
    if Meets(c, p, all, tries, x) && e != x {
      var k :| 0 <= k < |all| && MeetsAt(c, p, all, tries, x, k);
      assert k < |pre|;
      hide MeetsAt, Passes;
      MeetsAtLast(c, p, pre, e, tries, x, k);
    }
  }

  /** Only the entries of the part still to be walked matter. */
  lemma MeetsSame(c: Cache, d: Cache, p: Pull, pre: seq<Entry>, tries: nat, x: Entry)
    requires forall e <- pre :: Passes(c, p, e) <==> Passes(d, p, e)
    ensures Meets(c, p, pre, tries, x) <==> Meets(d, p, pre, tries, x)
  {
    forall k | 0 <= k < |pre|
      ensures MeetsAt(c, p, pre, tries, x, k) <==> MeetsAt(d, p, pre, tries, x, k)
    {
      assert forall m :: k < m < |pre| ==> pre[m] in pre;
    }
  }

  lemma MeetsAtFront(c: Cache, p: Pull, f: Entry, pre: seq<Entry>, tries: nat, x: Entry, k: nat)
    requires k < |pre|
    ensures MeetsAt(c, p, [f] + pre, tries, x, k + 1) <==> MeetsAt(c, p, pre, tries, x, k)
  {
    hide Passes;
    var all := [f] + pre;
    assert all[k + 2..] == pre[k + 1..];
    if MeetsAt(c, p, pre, tries, x, k) {
      forall m | k + 1 < m < |all|
        ensures Passes(c, p, all[m])
      {
        assert all[m] == pre[m - 1];
      }
    }
    if MeetsAt(c, p, all, tries, x, k + 1) {
      forall m | k < m < |pre|
        ensures Passes(c, p, pre[m])
      {
        assert all[m + 1] == pre[m];
      }
    }
  }

  /** An entry put in front is met last. */
  lemma MeetsFront(c: Cache, p: Pull, f: Entry, pre: seq<Entry>, tries: nat, x: Entry)
    requires f != x
    ensures Meets(c, p, [f] + pre, tries, x) <==> Meets(c, p, pre, tries, x)
  {
    var all := [f] + pre;
    if Meets(c, p, pre, tries, x) {
      var k :| 0 <= k < |pre| && MeetsAt(c, p, pre, tries, x, k);
      hide MeetsAt;
      MeetsAtFront(c, p, f, pre, tries, x, k);
    }
    if Meets(c, p, all, tries, x) {
      var k :| 0 <= k < |all| && MeetsAt(c, p, all, tries, x, k);
      assert k > 0;
      hide MeetsAt;
      MeetsAtFront(c, p, f, pre, tries, x, k - 1);
    }
  }

  // What becomes of the items

  ghost predicate OffTheList(x: Item, y: Option<Item>) {
    y.Some? ==> y.value == x.(linked := false, refcount := y.value.refcount)
  }

  /** The same item, but for its place, its references and whether it is active. */
  ghost predicate IsNow(x: Item, y: Option<Item>, lru: Lru, active: bool) {
    y.Some? && y.value == x.(home := ListId(x.home.cls, lru), active := active, refcount := y.value.refcount)
  }

  // One visit

  lemma SortedExact(c: Cache, p: Pull, i: Id, bytes: nat)
    requires i in c.items && c.items[i].refcount > 1 && c.items[i].linked && c.items[i].home == Source(p)
    ensures var x, v, turn := c.items[i], Sorted(c, p, i, bytes), Due(p, c.items[i], bytes);
      v.removed == (if turn == Stay then 0 else 1) && (v.Next? <==> turn == Relink) &&
      match turn
      case Relink => Now(v.c, i) == Some(x.(active := false, refcount := x.refcount - 1))
      case Stay => v.to == None && v.c == c
      case Go(to) => v.to == Some(to) && v.c == UnlinkQ(SetItem(c, i, x.(active := false)), i)
      case Evict => v.to == None && v.c == Unlinked(c, i)
  {
    var x := c.items[i];
    var c2 := SetItem(c, i, x.(active := false));
    ReleasedItem(LinkQ(UnlinkQ(c2, i), i), i, i);
    if !x.active {
      assert x == x.(active := false);
      assert c2 == c;
    }
    hide Unlinked, Released, UnlinkQ, LinkQ;
  }

  /** The item itself after a visit that met it. */
  ghost predicate Treated(x: Item, y: Option<Item>, turn: Turn) {
    match turn
    case Stay => IsNow(x, y, x.home.lru, x.active)
    case Relink => IsNow(x, y, Warm, false)
    case Go(to) => IsNow(x, y, to, false)
    case Evict => OffTheList(x, y)
  }

  lemma VisitExact(c: Cache, p: Pull, i: Id)
    requires Inv(c) && On(c.lists, Source(p), i)
    ensures i in c.items && c.items[i].refcount > 0
    ensures var x, v, y := c.items[i], Visited(c, p, i), Now(After(c, p, i), i);
      var turn := Due(p, x, Bytes(c.items, SourceList(c, p)));
      if i in p.busy then v == Next(c, 0)
      else if Expired(p, i, x) then v.Next? && v.removed == 1 && OffTheList(x, y)
      else
        v.removed == (if turn == Stay then 0 else 1) && (v.Next? <==> turn == Relink) && Treated(x, y, turn)
  {
    hide Inv, Settled, Sorted, Bytes, Unlinked, Released, UnlinkQ, LinkQ, On;
    OnIsLinked(c, Source(p), i);
    VisitKeeps(c, p, i);
    var c1, b := Taken(c, i), Bytes(c.items, SourceList(c, p));
    UnlinkedItem(c1, i, i);
    ReleasedItem(Unlinked(c1, i), i, i);
    SortedExact(c1, p, i, b);
    SameTurn(p, c.items[i], c1.items[i], b);
    var v := Visited(c, p, i);
    if v.Stop? {
      StopExact(c, p, i);
    }
  }

  lemma SameTurn(p: Pull, x: Item, y: Item, bytes: nat)
    requires y == x.(refcount := y.refcount)
    ensures Due(p, x, bytes) == Due(p, y, bytes)
  {
  }

  lemma StopExact(c: Cache, p: Pull, i: Id)
    requires Inv(c) && On(c.lists, Source(p), i) && i in c.items && c.items[i].refcount > 0 && Visited(c, p, i).Stop?
    ensures Treated(c.items[i], Now(After(c, p, i), i), Due(p, c.items[i], Bytes(c.items, SourceList(c, p))))
  {
    hide Inv, Settled, Sorted, Bytes, Released, On, Unlinked;
    OnIsLinked(c, Source(p), i);
    VisitKeeps(c, p, i);
    var c1, b := Taken(c, i), Bytes(c.items, SourceList(c, p));
    SortedExact(c1, p, i, b);
    SameTurn(p, c.items[i], c1.items[i], b);
    UnlinkedItem(c1, i, i);
    var v := Visited(c, p, i);
    SettledItem(v.c, p, i, v.to, i);
  }

  /** The lists after a visit. */
  ghost function ListThen(c: Cache, p: Pull, i: Id, l: ListId): seq<Entry>
    requires i in c.items
  {
    var s, x := ListAt(c.lists, l), c.items[i];
    if i in p.busy then s
    else if Expired(p, i, x) then if l == Source(p) then Without(s, It(i)) else s
    else
      match Due(p, x, Bytes(c.items, SourceList(c, p)))
      case Stay => s
      case Relink => if l == Source(p) then [It(i)] + Without(s, It(i)) else s
      case Go(to) =>
        if l == ListId(p.cls, to) then [It(i)] + s else if l == Source(p) then Without(s, It(i)) else s
      case Evict => if l == Source(p) then Without(s, It(i)) else s
  }

  lemma UnlinkedLists(c: Cache, i: Id)
    requires i in c.items && c.items[i].refcount > 0 && c.items[i].linked
    ensures var l := c.items[i].home; Unlinked(c, i).lists == c.lists[l := Without(ListAt(c.lists, l), It(i))]
  {
    hide Without, ListAt;
  }

  lemma ReleasedLists(c: Cache, i: Id)
    requires i in c.items && c.items[i].refcount > 0
    ensures Released(c, i).lists == c.lists
  {
  }

  lemma SettledLists(c: Cache, p: Pull, i: Id, to: Option<Lru>)
    requires i in c.items && c.items[i].refcount > 0
    ensures var l := if to.Some? then ListId(c.items[i].home.cls, to.value) else c.items[i].home;
      Settled(c, p, i, to).lists == if to.Some? then c.lists[l := [It(i)] + ListAt(c.lists, l)] else c.lists
  {
    var x := c.items[i];
    ReleasedLists(c, i);
    if to.Some? {
      ReleasedLists(LinkQ(SetItem(c, i, x.(home := ListId(x.home.cls, to.value))), i), i);
    }
    hide Released, ListAt;
  }

  lemma StopLists(c: Cache, p: Pull, i: Id)
    requires Inv(c) && On(c.lists, Source(p), i) && i in c.items && c.items[i].refcount > 0 && Visited(c, p, i).Stop?
    ensures forall l :: ListAt(After(c, p, i).lists, l) == ListThen(c, p, i, l)
  {
    hide Inv, Settled, Sorted, Bytes, Released, On, Unlinked, Without;
    OnIsLinked(c, Source(p), i);
    VisitKeeps(c, p, i);
    var c1, b := Taken(c, i), Bytes(c.items, SourceList(c, p));
    SortedExact(c1, p, i, b);
    SameTurn(p, c.items[i], c1.items[i], b);
    UnlinkedLists(c1, i);
    UnlinkedItem(c1, i, i);
    var v := Visited(c, p, i);
    SettledLists(v.c, p, i, v.to);
    hide Due;
  }

  lemma VisitLists(c: Cache, p: Pull, i: Id)
    requires Inv(c) && On(c.lists, Source(p), i)
    ensures i in c.items && forall l :: ListAt(After(c, p, i).lists, l) == ListThen(c, p, i, l)
  {
    hide Inv, Settled, Sorted, Bytes, Released, On, Unlinked, Without, LinkQ, UnlinkQ, Due;
    OnIsLinked(c, Source(p), i);
    VisitKeeps(c, p, i);
    VisitExact(c, p, i);
    KilledLists(c, i);
    RelinkedLists(c, i);
    if Visited(c, p, i).Stop? {
      StopLists(c, p, i);
    } else if i !in p.busy && !Expired(p, i, c.items[i]) {
      RelinkIs(c, p, i);
    }
  }

  lemma RelinkIs(c: Cache, p: Pull, i: Id)
    requires i in c.items && c.items[i].refcount > 0 && i !in p.busy && !Expired(p, i, c.items[i])
    requires Visited(c, p, i).Next?
    ensures var c1 := Taken(c, i);
      Visited(c, p, i).c == Released(LinkQ(UnlinkQ(SetItem(c1, i, c1.items[i].(active := false)), i), i), i)
  {
    hide Released, LinkQ, UnlinkQ, Bytes, Limit, Unlinked;
  }

  // Bytes on the list

  lemma {:induction false} BytesSame(a: map<Id, Item>, b: map<Id, Item>, s: seq<Entry>)
    requires forall i :: It(i) in s ==> i in a && i in b && a[i].bytes == b[i].bytes
    ensures Bytes(a, s) == Bytes(b, s)
  {
    if s != [] {
      BytesSame(a, b, s[1..]);
      if s[0].It? { assert It(s[0].id) in s; }
    }
  }

  lemma {:induction false} BytesWithout(items: map<Id, Item>, s: seq<Entry>, i: Id)
    requires It(i) in s && i in items
    ensures Bytes(items, s) == Bytes(items, Without(s, It(i))) + items[i].bytes
  {
    if s[0] != It(i) {
      BytesWithout(items, s[1..], i);
      assert ([s[0]] + Without(s[1..], It(i)))[1..] == Without(s[1..], It(i));
    }
  }

  /** What was on the list when the item was met: what is on it afterwards, and the item if it has left. */
  ghost function BytesThen(d: Cache, p: Pull, x: Item, y: Option<Item>): nat {
    Bytes(d.items, SourceList(d, p)) + if y.Some? && y.value.linked && y.value.home == x.home then 0 else x.bytes
  }

  lemma StillBytes(c: Cache, p: Pull, i: Id)
    requires Inv(c) && On(c.lists, Source(p), i) && i in c.items
    ensures var d := After(c, p, i); Bytes(d.items, SourceList(d, p)) == Bytes(c.items, SourceList(d, p))
  {
    var d := After(c, p, i);
    AfterInv(c, p, i);
    VisitFates(c, p, i);
    hide Visited, Settled, After;
    forall j | It(j) in SourceList(d, p)
      ensures j in d.items && j in c.items && d.items[j].bytes == c.items[j].bytes
    {
      assert On(d.lists, Source(p), j);
      OnIsLinked(d, Source(p), j);
      assert Fate(p, j, c.items[j], Now(d, j));
    }
    BytesSame(c.items, d.items, SourceList(d, p));
  }

  lemma StopBytes(c: Cache, p: Pull, i: Id)
    requires Inv(c) && On(c.lists, Source(p), i) && i in c.items && c.items[i].refcount > 0 && Visited(c, p, i).Stop?
    ensures var x, d := c.items[i], After(c, p, i);
      Due(p, x, BytesThen(d, p, x, Now(d, i))) == Due(p, x, Bytes(c.items, SourceList(c, p)))
  {
    var x, d, s := c.items[i], After(c, p, i), SourceList(c, p);
    var turn := Due(p, x, Bytes(c.items, s));
    if turn == Stay || turn == Go(Cold) {
      hide Inv, After, Visited;
      OnIsLinked(c, Source(p), i);
      VisitExact(c, p, i);
      VisitLists(c, p, i);
      StillBytes(c, p, i);
      if turn == Go(Cold) {
        BytesWithout(c.items, s, i);
      }
    }
  }

  // The whole walk

  /** What becomes of an item in the course of a walk down `pre`: nothing, unless the walk comes to it and finds it
      unlocked; then it is unlinked if it has expired, and otherwise gets what it is due.  An active item of WARM,
      put at the head, may be met again there, idle. */
  ghost predicate Outcome(c: Cache, d: Cache, p: Pull, pre: seq<Entry>, tries: nat, j: Id)
    requires j in c.items
  {
    var x, y := c.items[j], Now(d, j);
    if j in p.busy || !Meets(c, p, pre, tries, It(j)) then y == Some(x)
    else if Expired(p, j, x) then OffTheList(x, y)
    else if Due(p, x, BytesThen(d, p, x, y)) == Relink then IsNow(x, y, Warm, false) || IsNow(x, y, Cold, false)
    else Treated(x, y, Due(p, x, BytesThen(d, p, x, y)))
  }

  ghost predicate Outcomes(c: Cache, d: Cache, p: Pull, pre: seq<Entry>, tries: nat) {
    d.items.Keys <= c.items.Keys && forall j :: j in c.items ==> Outcome(c, d, p, pre, tries, j)
  }

  lemma {:induction false} WithoutLast(s: seq<Entry>, pre: seq<Entry>, e: Entry)
    requires NoRepeats(s) && pre + [e] <= s
    ensures pre <= Without(s, e) && e !in pre
    decreases pre
  {
    assert s[|pre|] == e;
    if pre != [] {
      var r := s[1..];
      assert forall k :: 0 <= k < |r| ==> r[k] == s[k + 1];
      assert pre[1..] + [e] <= r;
      WithoutLast(r, pre[1..], e);
      assert s[0] == pre[0] != e;
    }
  }

  lemma PrevIs(s: seq<Entry>, pre: seq<Entry>, e: Entry)
    requires NoRepeats(s) && pre + [e] <= s
    ensures e in s && Before(s, e) == Last(pre)
  {
    assert s[|pre|] == e;
    IndexIs(s, e, |pre|);
  }

  lemma NothingMet(c: Cache, p: Pull, pre: seq<Entry>, tries: nat)
    requires forall j :: !Meets(c, p, pre, tries, It(j))
    ensures Outcomes(c, c, p, pre, tries)
  {
  }

  /** An entry that is passed and changes nothing. */
  lemma PassedBy(c: Cache, d: Cache, p: Pull, pre: seq<Entry>, e: Entry, tries: nat)
    requires tries > 0 && e !in pre && Passes(c, p, e) && (e.It? ==> e.id in p.busy)
    requires Outcomes(c, d, p, pre, if e.It? then tries - 1 else tries)
    ensures Outcomes(c, d, p, pre + [e], tries)
  {
    hide Meets, Treated, Due, BytesThen, OffTheList, IsNow;
    var t := if e.It? then tries - 1 else tries;
    forall j | j in c.items
      ensures Outcome(c, d, p, pre + [e], tries, j)
    {
      assert Outcome(c, d, p, pre, t, j);
      MeetsLast(c, p, pre, e, tries, It(j));
    }
  }

  /** The other items look to the walk as they did. */
  lemma PassesSame(c: Cache, d: Cache, p: Pull, i: Id, e: Entry)
    requires e != It(i) && (e.It? ==> Now(d, e.id) == Now(c, e.id))
    ensures Passes(c, p, e) <==> Passes(d, p, e)
  {
  }

  lemma {:induction false} OnlyOne(c: Cache, p: Pull, i: Id, j: Id)
    requires Inv(c) && On(c.lists, Source(p), i) && j != i
    ensures Now(After(c, p, i), j) == Now(c, j)
  {
    hide Inv, After, On;
    NothingNew(c, p, i);
    if j in c.items {
      OthersSpared(c, p, i, j);
    }
  }

  lemma MeetsAfter(c: Cache, p: Pull, i: Id, pre: seq<Entry>, tries: nat, x: Entry)
    requires Inv(c) && On(c.lists, Source(p), i) && It(i) !in pre
    ensures Meets(c, p, pre, tries, x) <==> Meets(After(c, p, i), p, pre, tries, x)
  {
    var d := After(c, p, i);
    hide Inv, After, On, Meets, Passes;
    forall e | e in pre
      ensures Passes(c, p, e) <==> Passes(d, p, e)
    {
      if e.It? { OnlyOne(c, p, i, e.id); }
      PassesSame(c, d, p, i, e);
    }
    MeetsSame(c, d, p, pre, tries, x);
  }

  lemma NotThere(c: Cache, p: Pull, pre: seq<Entry>, tries: nat, i: Id)
    requires It(i) !in pre
    ensures !Meets(c, p, pre, tries, It(i))
  {
  }

  /** An expired item is unlinked and passed. */
  lemma KillCase(c: Cache, d: Cache, p: Pull, pre: seq<Entry>, i: Id, tries: nat)
    requires Inv(c) && On(c.lists, Source(p), i) && It(i) !in pre && tries > 0 && i in c.items
    requires i !in p.busy && Expired(p, i, c.items[i]) && Outcomes(After(c, p, i), d, p, pre, tries - 1)
    ensures Outcomes(c, d, p, pre + [It(i)], tries)
  {
    hide Inv, After, On, Meets, Treated, Due, BytesThen, IsNow, Visited;
    var c1 := After(c, p, i);
    NothingNew(c, p, i);
    VisitKilled(c, p, i);
    forall j | j in c.items
      ensures Outcome(c, d, p, pre + [It(i)], tries, j)
    {
      MeetsLast(c, p, pre, It(i), tries, It(j));
      OnlyOneOr(c, p, i, j);
      if j == i {
        NotThere(c1, p, pre, tries - 1, i);
        if i in c1.items { assert Outcome(c1, d, p, pre, tries - 1, i); }
      } else {
        assert Outcome(c1, d, p, pre, tries - 1, j);
        MeetsAfter(c, p, i, pre, tries - 1, It(j));
      }
    }
  }

  lemma OnlyOneOr(c: Cache, p: Pull, i: Id, j: Id)
    requires Inv(c) && On(c.lists, Source(p), i) && j in c.items
    ensures j != i ==> j in After(c, p, i).items && After(c, p, i).items[j] == c.items[j]
  {
    hide Inv, After, On;
    if j != i { OthersSpared(c, p, i, j); }
  }

  lemma VisitKilled(c: Cache, p: Pull, i: Id)
    requires Inv(c) && On(c.lists, Source(p), i) && i in c.items && i !in p.busy && Expired(p, i, c.items[i])
    ensures OffTheList(c.items[i], Now(After(c, p, i), i))
  {
    hide Inv, After, On, Visited;
    VisitExact(c, p, i);
  }

  /** An active item of WARM is made idle and goes to the head, where the walk may come to it again. */
  lemma RelinkCase(c: Cache, d: Cache, p: Pull, pre: seq<Entry>, again: seq<Entry>, i: Id, tries: nat)
    requires Inv(c) && On(c.lists, Source(p), i) && It(i) !in pre && tries > 0 && i in c.items
    requires i !in p.busy && !Expired(p, i, c.items[i]) && p.lru == Warm && c.items[i].active
    requires again == (if pre == [] then [] else [It(i)] + pre) && Outcomes(After(c, p, i), d, p, again, tries - 1)
    ensures Outcomes(c, d, p, pre + [It(i)], tries)
  {
    hide Inv, After, On, Meets, BytesThen, Visited, Bytes;
    var c1 := After(c, p, i);
    NothingNew(c, p, i);
    VisitExact(c, p, i);
    forall j | j in c.items
      ensures Outcome(c, d, p, pre + [It(i)], tries, j)
    {
      MeetsLast(c, p, pre, It(i), tries, It(j));
      OnlyOneOr(c, p, i, j);
      if j == i {
        OnIsLinked(c, Source(p), i);
        assert Outcome(c1, d, p, again, tries - 1, i);
      } else {
        assert Outcome(c1, d, p, again, tries - 1, j);
        MeetsFront(c1, p, It(i), pre, tries - 1, It(j));
        MeetsAfter(c, p, i, pre, tries - 1, It(j));
      }
    }
  }

  /** The walk ends at an item that is neither locked nor expired nor rescued within WARM. */
  lemma StopCase(c: Cache, p: Pull, pre: seq<Entry>, i: Id, tries: nat)
    requires Inv(c) && On(c.lists, Source(p), i) && It(i) !in pre && tries > 0
    requires i in c.items && c.items[i].refcount > 0 && Visited(c, p, i).Stop?
    ensures Outcomes(c, After(c, p, i), p, pre + [It(i)], tries)
  {
    hide Inv, After, On, Meets, BytesThen, Visited, Bytes;
    var d := After(c, p, i);
    NothingNew(c, p, i);
    VisitExact(c, p, i);
    StopBytes(c, p, i);
    forall j | j in c.items
      ensures Outcome(c, d, p, pre + [It(i)], tries, j)
    {
      MeetsLast(c, p, pre, It(i), tries, It(j));
      OnlyOneOr(c, p, i, j);
    }
  }

  lemma RelinkMeans(p: Pull, x: Item, bytes: nat)
    requires Due(p, x, bytes) == Relink
    ensures p.lru == Warm && x.active
  {
  }

  lemma {:induction false} WalkExact(c: Cache, p: Pull, pre: seq<Entry>, tries: nat, removed: nat)
    requires Inv(c) && pre <= SourceList(c, p)
    ensures Outcomes(c, Walked(c, p, Last(pre), tries, removed).c, p, pre, tries)
    decreases tries, |pre|, 1
  {
    hide Inv, Visited, Settled, Before, IndexOf, Outcomes, Due, Bytes, Meets, Passes;
    if tries == 0 || pre == [] {
      forall j
        ensures !Meets(c, p, pre, tries, It(j))
      {
        MeetsNothing(c, p, pre, tries, It(j));
      }
      NothingMet(c, p, pre, tries);
    } else {
      var s, n := SourceList(c, p), |pre| - 1;
      var e, rest := pre[n], pre[..n];
      assert pre == rest + [e];
      UniqueSource(c, p);
      WithoutLast(s, rest, e);
      PrevIs(s, rest, e);
      match e
      case Crawler =>
        BeforeIsCloser(s, e);
        CrawlerPasses(c, p);
        if p.crawlBlocks {
          forall j
            ensures !Meets(c, p, pre, tries, It(j))
          {
            MeetsLast(c, p, rest, e, tries, It(j));
          }
          NothingMet(c, p, pre, tries);
        } else {
          WalkExact(c, p, rest, tries, removed);
          PassedBy(c, Walked(c, p, Last(rest), tries, removed).c, p, rest, e, tries);
        }
      case It(i) =>
        WalkItem(c, p, rest, i, tries, removed);
    }
  }

  lemma CrawlerPasses(c: Cache, p: Pull)
    ensures Passes(c, p, Crawler) <==> !p.crawlBlocks
  {
  }

  lemma {:induction false} WalkItem(c: Cache, p: Pull, rest: seq<Entry>, i: Id, tries: nat, removed: nat)
    requires Inv(c) && rest + [It(i)] <= SourceList(c, p) && tries > 0 && It(i) !in rest
    requires It(i) in SourceList(c, p) && Before(SourceList(c, p), It(i)) == Last(rest)
    ensures Outcomes(c, Walked(c, p, Some(It(i)), tries, removed).c, p, rest + [It(i)], tries)
    decreases tries, |rest| + 1, 0
  {
    hide Inv, Visited, Settled, Before, IndexOf, Outcomes, Due, Bytes, Meets, Passes, Without, Position;
    var s := SourceList(c, p);
    UniqueSource(c, p);
    BeforeIsCloser(s, It(i));
    VisitKeeps(c, p, i);
    VisitExact(c, p, i);
    var v := Visited(c, p, i);
    if v.Next? {
      if rest != [] { NextKeepsOthers(c, p, i, rest[|rest| - 1]); }
      if i in p.busy {
        BusyPasses(c, p, i);
        WalkExact(c, p, rest, tries - 1, removed);
        PassedBy(c, Walked(c, p, Last(rest), tries - 1, removed).c, p, rest, It(i), tries);
      } else if Expired(p, i, c.items[i]) {
        RestStays(c, p, rest, i);
        WalkExact(v.c, p, rest, tries - 1, removed + v.removed);
        KillCase(c, Walked(v.c, p, Last(rest), tries - 1, removed + v.removed).c, p, rest, i, tries);
      } else {
        RelinkMeans(p, c.items[i], Bytes(c.items, s));
        RestStays(c, p, rest, i);
        var again := if rest == [] then [] else [It(i)] + rest;
        WalkExact(v.c, p, again, tries - 1, removed + v.removed);
        RelinkCase(c, Walked(v.c, p, Last(rest), tries - 1, removed + v.removed).c, p, rest, again, i, tries);
      }
    } else {
      StopCase(c, p, rest, i, tries);
    }
  }

  lemma BusyPasses(c: Cache, p: Pull, i: Id)
    requires i in p.busy
    ensures Passes(c, p, It(i))
  {
  }

  /** What is still to be walked stands at the front of the list, behind the item if that has gone to the head. */
  lemma RestStays(c: Cache, p: Pull, rest: seq<Entry>, i: Id)
    requires Inv(c) && rest + [It(i)] <= SourceList(c, p) && i in c.items && c.items[i].refcount > 0
    requires i !in p.busy && Visited(c, p, i).Next?
    ensures var t := SourceList(Visited(c, p, i).c, p);
      if Expired(p, i, c.items[i]) then rest <= t
      else var again := if rest == [] then [] else [It(i)] + rest; again <= t && Last(again) == Last(rest)
  {
    hide Inv, Visited, Due, Bytes, Without;
    assert SourceList(c, p)[|rest|] == It(i);
    assert On(c.lists, Source(p), i);
    UniqueSource(c, p);
    WithoutLast(SourceList(c, p), rest, It(i));
    VisitExact(c, p, i);
    VisitLists(c, p, i);
  }

  /** Every call: what it does to every item, in terms of the list as it found it. */
  lemma PullDoes(c: Cache, p: Pull)
    requires Inv(c)
    ensures p.cls == 0 ==> PulledTail(c, p).c == c
    ensures p.cls != 0 ==> Outcomes(c, PulledTail(c, p).c, p, SourceList(c, p), 5)
  {
    hide Inv, Outcomes, Walked;
    WalkExact(c, p, SourceList(c, p), 5, 0);
  }

  // What the call returns

  /** Unlinked, moved to another list, or taken to the head of its own. */
  ghost predicate Disturbed(x: Item, y: Option<Item>) {
    x.linked && (y.None? || !y.value.linked || y.value.home != x.home || y.value.active != x.active)
  }

  ghost function AllDisturbed(c: Cache, d: Cache): set<Id> {
    set j | j in c.items && Disturbed(c.items[j], Now(d, j))
  }

  lemma NoneDisturbed(c: Cache)
    ensures AllDisturbed(c, c) == {}
  {
  }

  lemma StopDisturbs(c: Cache, p: Pull, i: Id)
    requires Inv(c) && On(c.lists, Source(p), i) && i in c.items && c.items[i].refcount > 0 && Visited(c, p, i).Stop?
    ensures |AllDisturbed(c, After(c, p, i))| == Visited(c, p, i).removed
  {
    hide Inv, After, On, Visited, Bytes;
    var d, turn := After(c, p, i), Due(p, c.items[i], Bytes(c.items, SourceList(c, p)));
    OnIsLinked(c, Source(p), i);
    VisitExact(c, p, i);
    assert Disturbed(c.items[i], Now(d, i)) <==> turn != Stay;
    hide Disturbed, Due, Treated;
    forall j | j in c.items && j != i
      ensures !Disturbed(c.items[j], Now(d, j))
    {
      OthersSpared(c, p, i, j);
      Undisturbed(c.items[j]);
    }
    assert AllDisturbed(c, d) == if turn != Stay then {i} else {};
  }

  lemma Undisturbed(x: Item)
    ensures !Disturbed(x, Some(x))
  {
  }

  lemma NextDisturbs(c: Cache, d: Cache, p: Pull, i: Id)
    requires Inv(c) && On(c.lists, Source(p), i) && i in c.items && c.items[i].refcount > 0 && Visited(c, p, i).Next?
    requires Fates(p, After(c, p, i), d)
    ensures var n, v := |AllDisturbed(After(c, p, i), d)|, Visited(c, p, i);
      |AllDisturbed(c, d)| <= n + v.removed && (p.lru != Warm ==> |AllDisturbed(c, d)| == n + v.removed)
  {
    hide Inv, After, On, Visited, Bytes, Due;
    var c1, v := After(c, p, i), Visited(c, p, i);
    OnIsLinked(c, Source(p), i);
    VisitExact(c, p, i);
    NothingNew(c, p, i);
    var all, rest := AllDisturbed(c, d), AllDisturbed(c1, d);
    forall j | j in c.items && j != i
      ensures j in all <==> j in rest
    {
      OthersSpared(c, p, i, j);
    }
    if i in p.busy {
      NextAfter(c, p, i);
      assert all == rest;
    } else {
      if Expired(p, i, c.items[i]) {
        if i in c1.items { assert Fate(p, i, c1.items[i], Now(d, i)); }
        Killed(c.items[i], Now(c1, i), Now(d, i));
        hide Disturbed, Fate;
        assert all == rest + {i} && i !in rest;
      } else {
        RelinkMeans(p, c.items[i], Bytes(c.items, SourceList(c, p)));
        assert all <= rest + {i};
        Subset(all, rest + {i});
      }
    }
  }

  lemma NextAfter(c: Cache, p: Pull, i: Id)
    requires Inv(c) && On(c.lists, Source(p), i) && i in c.items && c.items[i].refcount > 0 && Visited(c, p, i).Next?
    ensures After(c, p, i) == Visited(c, p, i).c
  {
  }

  lemma {:induction false} Subset(a: set<Id>, b: set<Id>)
    requires a <= b
    ensures |a| <= |b|
  {
    if a != {} {
      var x :| x in a;
      Subset(a - {x}, b - {x});
    }
  }

  lemma Killed(x: Item, y: Option<Item>, z: Option<Item>)
    requires x.linked && OffTheList(x, y) && (y.None? ==> z.None?) && (y.Some? ==> z == y)
    ensures Disturbed(x, z) && (y.Some? ==> !Disturbed(y.value, z))
  {
  }

  /** The number returned is that of the items unlinked, moved or taken to the head, so it is zero only if none was;
      but a walk that comes to a crawler it may not pass returns nothing at all.  On WARM an item counts each time it
      is met. */
  ghost predicate CountIs(c: Cache, p: Pull, pre: seq<Entry>, tries: nat, removed: nat, r: Pulled) {
    if p.crawlBlocks && Meets(c, p, pre, tries, Crawler) then r.removed == 0
    else
      var n := |AllDisturbed(c, r.c)|;
      r.removed >= removed + n && (p.lru != Warm ==> r.removed == removed + n)
  }

  lemma CountOver(c: Cache, p: Pull, pre: seq<Entry>, tries: nat, removed: nat)
    requires tries == 0 || pre == []
    ensures CountIs(c, p, pre, tries, removed, Pulled(c, removed, None, None))
  {
    hide Meets, AllDisturbed;
    NoneDisturbed(c);
    MeetsNothing(c, p, pre, tries, Crawler);
  }

  /** What the walk has before it after passing the item: from WARM an active item goes to the head. */
  ghost function Again(c: Cache, p: Pull, rest: seq<Entry>, i: Id): seq<Entry>
    requires i in c.items
  {
    if i in p.busy || Expired(p, i, c.items[i]) || rest == [] then rest else [It(i)] + rest
  }

  lemma VisitPasses(c: Cache, p: Pull, i: Id)
    requires Inv(c) && On(c.lists, Source(p), i) && i in c.items && c.items[i].refcount > 0
    ensures Visited(c, p, i).Next? <==> Passes(c, p, It(i))
  {
    hide Inv, On, Visited, Bytes, After;
    VisitExact(c, p, i);
    OnIsLinked(c, Source(p), i);
  }

  lemma NextCounts(c: Cache, p: Pull, rest: seq<Entry>, i: Id, tries: nat, removed: nat, r: Pulled)
    requires Inv(c) && On(c.lists, Source(p), i) && i in c.items && c.items[i].refcount > 0 && Visited(c, p, i).Next?
    requires tries > 0 && It(i) !in rest
    requires var v := Visited(c, p, i);
      Fates(p, v.c, r.c) && CountIs(v.c, p, Again(c, p, rest, i), tries - 1, removed + v.removed, r)
    ensures CountIs(c, p, rest + [It(i)], tries, removed, r)
  {
    hide Inv, On, Visited, Meets, Passes, AllDisturbed, After, Fates;
    var c1 := After(c, p, i);
    NextAfter(c, p, i);
    VisitPasses(c, p, i);
    MeetsLast(c, p, rest, It(i), tries, Crawler);
    MeetsAfter(c, p, i, rest, tries - 1, Crawler);
    MeetsFront(c1, p, It(i), rest, tries - 1, Crawler);
    NextDisturbs(c, r.c, p, i);
  }

  lemma StopCounts(c: Cache, p: Pull, rest: seq<Entry>, i: Id, tries: nat, removed: nat, r: Pulled)
    requires Inv(c) && On(c.lists, Source(p), i) && i in c.items && c.items[i].refcount > 0 && Visited(c, p, i).Stop?
    requires tries > 0 && It(i) !in rest && r.c == After(c, p, i) && r.removed == removed + Visited(c, p, i).removed
    ensures CountIs(c, p, rest + [It(i)], tries, removed, r)
  {
    hide Inv, On, Visited, Meets, Passes, AllDisturbed, After;
    VisitPasses(c, p, i);
    MeetsLast(c, p, rest, It(i), tries, Crawler);
    StopDisturbs(c, p, i);
  }

  lemma {:induction false} WalkCounts(c: Cache, p: Pull, pre: seq<Entry>, tries: nat, removed: nat)
    requires Inv(c) && pre <= SourceList(c, p)
    ensures CountIs(c, p, pre, tries, removed, Walked(c, p, Last(pre), tries, removed))
    decreases tries, |pre|, 1
  {
    hide Inv, Visited, Settled, Before, IndexOf, Meets, Passes, AllDisturbed;
    if tries == 0 || pre == [] {
      CountOver(c, p, pre, tries, removed);
    } else {
      var s, n := SourceList(c, p), |pre| - 1;
      var e, rest := pre[n], pre[..n];
      assert pre == rest + [e];
      UniqueSource(c, p);
      WithoutLast(s, rest, e);
      PrevIs(s, rest, e);
      match e
      case Crawler =>
        BeforeIsCloser(s, e);
        MeetsLast(c, p, rest, e, tries, Crawler);
        if !p.crawlBlocks { WalkCounts(c, p, rest, tries, removed); }
      case It(i) =>
        ItemCounts(c, p, rest, i, tries, removed);
    }
  }

  lemma {:induction false} ItemCounts(c: Cache, p: Pull, rest: seq<Entry>, i: Id, tries: nat, removed: nat)
    requires Inv(c) && rest + [It(i)] <= SourceList(c, p) && tries > 0 && It(i) !in rest
    requires It(i) in SourceList(c, p) && Before(SourceList(c, p), It(i)) == Last(rest)
    ensures CountIs(c, p, rest + [It(i)], tries, removed, Walked(c, p, Some(It(i)), tries, removed))
    decreases tries, |rest| + 1, 0
  {
    hide Inv, Visited, Settled, Before, IndexOf, Due, Bytes, Without, Position, CountIs, Fates;
    var s := SourceList(c, p);
    UniqueSource(c, p);
    BeforeIsCloser(s, It(i));
    VisitKeeps(c, p, i);
    VisitExact(c, p, i);
    var v := Visited(c, p, i);
    if v.Next? {
      if rest != [] { NextKeepsOthers(c, p, i, rest[|rest| - 1]); }
      var again := Again(c, p, rest, i);
      if i !in p.busy { RestStays(c, p, rest, i); }
      WalkCounts(v.c, p, again, tries - 1, removed + v.removed);
      WalkFates(v.c, p, Last(rest), tries - 1, removed + v.removed);
      NextCounts(c, p, rest, i, tries, removed, Walked(v.c, p, Last(rest), tries - 1, removed + v.removed));
    } else {
      StopCounts(c, p, rest, i, tries, removed, Walked(c, p, Some(It(i)), tries, removed));
    }
  }

  lemma PullCounts(c: Cache, p: Pull)
    requires Inv(c) && p.cls != 0
    ensures CountIs(c, p, SourceList(c, p), 5, 0, PulledTail(c, p))
  {
    hide Inv, Walked, CountIs;
    WalkCounts(c, p, SourceList(c, p), 5, 0);
  }
}
