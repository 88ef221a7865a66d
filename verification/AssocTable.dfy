/** The hash table in memory: two arrays of chain heads and items linked through `next`. */
module AssocTable {
  import opened Basics
  import opened Assoc

  /** `_hashitem_before` returns the address of a link: a bucket head or the `next` of an item. */
  datatype Link = Head(place: Place) | NextOf(item: Item)

  function At(s: seq<Item>, i: nat): Item? {
    if i < |s| then s[i] else null
  }

  // Links as values: `nx` gives the `next` of every item of the table

  ghost predicate Linked(nx: map<Item, Item?>, head: Item?, s: seq<Item>) {
    head == At(s, 0) &&
    forall i {:trigger s[i]} :: 0 <= i < |s| ==> s[i] in nx && nx[s[i]] == At(s, i + 1)
  }

  /** The heads of all buckets, as the two arrays hold them. */
  datatype Heads = Heads(old_: seq<Item?>, primary: seq<Item?>)

  ghost predicate Fit(t: Table, h: Heads) {
    |h.old_| == |t.old_| && |h.primary| == |t.primary|
  }

  ghost function HeadAt(t: Table, h: Heads, p: Place): Item?
    requires Fit(t, h) && p.bucket < Count(t, p)
  {
    if p.Old? then h.old_[p.bucket] else h.primary[p.bucket]
  }

  ghost predicate Chains(t: Table, h: Heads, nx: map<Item, Item?>) {
    Fit(t, h) &&
    forall p: Place {:trigger ChainAt(t, p)} :: p.bucket < Count(t, p) ==> Linked(nx, HeadAt(t, h, p), ChainAt(t, p))
  }

  ghost function WithHead(h: Heads, p: Place, it: Item?): Heads
    requires p.bucket < if p.Old? then |h.old_| else |h.primary|
  {
    if p.Old? then h.(old_ := h.old_[p.bucket := it]) else h.(primary := h.primary[p.bucket := it])
  }

  lemma SameLinks(nx: map<Item, Item?>, head: Item?, s: seq<Item>, it: Item, to: Item?)
    requires Linked(nx, head, s) && it !in s
    ensures Linked(nx[it := to], head, s)
  {
  }

  lemma PushLinks(nx: map<Item, Item?>, it: Item, head: Item?, s: seq<Item>)
    requires Linked(nx, head, s) && it in nx && nx[it] == head
    ensures Linked(nx, it, [it] + s)
  {
    var r := [it] + s;
    forall i | 0 <= i < |r|
      ensures r[i] in nx && nx[r[i]] == At(r, i + 1)
    {
      if i > 0 {
        assert r[i] == s[i - 1];
      }
    }
  }

  lemma AfterWrite(t: Table, h: Heads, p: Place, it: Item?, chain: seq<Item>, q: Place)
    requires Fit(t, h) && p.bucket < Count(t, p) && q.bucket < Count(t, q)
    ensures Fit(WithChain(t, p, chain), WithHead(h, p, it))
    ensures var u, h' := WithChain(t, p, chain), WithHead(h, p, it);
      Count(u, q) == Count(t, q) &&
      ChainAt(u, q) == (if q == p then chain else ChainAt(t, q)) &&
      HeadAt(u, h', q) == (if q == p then it else HeadAt(t, h, q))
  {
  }

  /** Pushing an item on the front of one chain, when the item is in none. */
  lemma PushChains(t: Table, h: Heads, nx: map<Item, Item?>, it: Item, p: Place)
    requires Chains(t, h, nx) && p.bucket < Count(t, p)
    requires !Present(t, it)
    ensures Chains(WithChain(t, p, [it] + ChainAt(t, p)), WithHead(h, p, it), nx[it := HeadAt(t, h, p)])
  {
    var s := [it] + ChainAt(t, p);
    var u, h', ny := WithChain(t, p, s), WithHead(h, p, it), nx[it := HeadAt(t, h, p)];
    AfterWrite(t, h, p, it, s, p);
    hide Linked;
    forall q: Place | q.bucket < Count(u, q)
      ensures Linked(ny, HeadAt(u, h', q), ChainAt(u, q))
    {
      AfterWrite(t, h, p, it, s, q);
      NotIn(t, it, q);
      SameLinks(nx, HeadAt(t, h, q), ChainAt(t, q), it, HeadAt(t, h, p));
      if q == p {
        PushLinks(ny, it, HeadAt(t, h, p), ChainAt(t, p));
      }
    }
  }

  lemma NotIn(t: Table, it: Item, q: Place)
    requires !Present(t, it) && q.bucket < Count(t, q)
    ensures it !in ChainAt(t, q)
  {
    var s := ChainAt(t, q);
    if it in s {
      var i :| 0 <= i < |s| && s[i] == it;
      assert IsAt(t, q, i, it);
    }
  }

  /** The link in front of position `d` of a chain. */
  function LinkTo(p: Place, s: seq<Item>, d: nat): Link
    requires d <= |s|
  {
    if d == 0 then Head(p) else NextOf(s[d - 1])
  }

  /** Taking position `d` out of a chain: clear its own link, then redirect the one before it. */
  lemma CutLinks(nx: map<Item, Item?>, head: Item?, s: seq<Item>, d: nat)
    requires Linked(nx, head, s) && 0 < d < |s| && NoRepeats(s)
    ensures Linked(nx[s[d] := null][s[d - 1] := nx[s[d]]], head, s[..d] + s[d + 1..])
  {
    var r, ny := s[..d] + s[d + 1..], nx[s[d] := null][s[d - 1] := nx[s[d]]];
    forall i | 0 <= i < |r|
      ensures r[i] in ny && ny[r[i]] == At(r, i + 1)
    {
      if i < d - 1 {
        assert r[i] == s[i] && r[i + 1] == s[i + 1];
      } else if i == d - 1 {
        assert r[i] == s[i] && At(r, d) == At(s, d + 1);
      } else {
        assert r[i] == s[i + 1] && At(r, i + 1) == At(s, i + 2);
      }
    }
  }

  lemma CutFirst(nx: map<Item, Item?>, head: Item?, s: seq<Item>)
    requires Linked(nx, head, s) && 0 < |s| && NoRepeats(s)
    ensures Linked(nx[s[0] := null], nx[s[0]], s[1..])
  {
    var r, ny := s[1..], nx[s[0] := null];
    forall i | 0 <= i < |r|
      ensures r[i] in ny && ny[r[i]] == At(r, i + 1)
    {
      assert r[i] == s[i + 1] && At(r, i + 1) == At(s, i + 2);
    }
  }

  /** The memory after taking the item at position `d` of the chain at `p` out. */
  ghost function CutHeads(h: Heads, p: Place, s: seq<Item>, nx: map<Item, Item?>, d: nat): Heads
    requires d < |s| && s[d] in nx && p.bucket < if p.Old? then |h.old_| else |h.primary|
  {
    if d == 0 then WithHead(h, p, nx[s[d]]) else h
  }

  ghost function CutNexts(s: seq<Item>, nx: map<Item, Item?>, d: nat): map<Item, Item?>
    requires d < |s| && s[d] in nx
  {
    var ny := nx[s[d] := null];
    if d == 0 then ny else ny[s[d - 1] := nx[s[d]]]
  }

  lemma ChainDistinct(t: Table, p: Place, q: Place)
    requires Distinct(t) && p.bucket < Count(t, p) && q.bucket < Count(t, q)
    ensures NoRepeats(ChainAt(t, p))
    ensures p != q ==> forall x <- ChainAt(t, p) :: x !in ChainAt(t, q)
  {
    forall i, j | 0 <= i < |ChainAt(t, p)| && 0 <= j < |ChainAt(t, q)| && ChainAt(t, p)[i] == ChainAt(t, q)[j]
      ensures p == q
    {
      assert IsAt(t, p, i, ChainAt(t, p)[i]) && IsAt(t, q, j, ChainAt(t, p)[i]);
    }
    forall i, j | 0 <= i < j < |ChainAt(t, p)|
      ensures ChainAt(t, p)[i] != ChainAt(t, p)[j]
    {
      assert IsAt(t, p, i, ChainAt(t, p)[i]) && IsAt(t, p, j, ChainAt(t, p)[j]);
    }
  }

  lemma CutChains(t: Table, h: Heads, nx: map<Item, Item?>, p: Place, d: nat)
    requires Chains(t, h, nx) && Distinct(t) && p.bucket < Count(t, p) && d < |ChainAt(t, p)|
    ensures var s := ChainAt(t, p);
      s[d] in nx &&
      Chains(WithChain(t, p, s[..d] + s[d + 1..]), CutHeads(h, p, s, nx, d), CutNexts(s, nx, d))
  {
    var s := ChainAt(t, p);
    assert s[d] in nx;
    var r := s[..d] + s[d + 1..];
    var u, h', ny := WithChain(t, p, r), CutHeads(h, p, s, nx, d), CutNexts(s, nx, d);
    ChainDistinct(t, p, p);
    if d == 0 {
      CutFirst(nx, HeadAt(t, h, p), s);
      assert r == s[1..];
    } else {
      CutLinks(nx, HeadAt(t, h, p), s, d);
    }
    hide Linked;
    forall q: Place | q.bucket < Count(u, q)
      ensures Linked(ny, HeadAt(u, h', q), ChainAt(u, q))
    {
      AfterWrite(t, h, p, nx[s[d]], r, q);
      if q != p {
        ChainDistinct(t, p, q);
        SameLinks(nx, HeadAt(t, h, q), ChainAt(t, q), s[d], null);
        if d > 0 {
          SameLinks(nx[s[d] := null], HeadAt(t, h, q), ChainAt(t, q), s[d - 1], nx[s[d]]);
        }
      }
    }
  }

  /** Taking the first item off a chain without touching its link. */
  lemma PopChains(t: Table, h: Heads, nx: map<Item, Item?>, p: Place)
    requires Chains(t, h, nx) && p.bucket < Count(t, p) && ChainAt(t, p) != []
    ensures var s := ChainAt(t, p); s[0] in nx && Chains(WithChain(t, p, s[1..]), WithHead(h, p, nx[s[0]]), nx)
  {
    var s := ChainAt(t, p);
    assert s[0] in nx;
    var u, h' := WithChain(t, p, s[1..]), WithHead(h, p, nx[s[0]]);
    assert Linked(nx, nx[s[0]], s[1..]) by {
      var r := s[1..];
      assert forall i :: 0 <= i < |r| ==> r[i] == s[i + 1];
    }
    hide Linked;
    forall q: Place | q.bucket < Count(u, q)
      ensures Linked(nx, HeadAt(u, h', q), ChainAt(u, q))
    {
      AfterWrite(t, h, p, nx[s[0]], s[1..], q);
    }
  }

  lemma PopRemoves(t: Table, p: Place)
    requires Distinct(t) && p.bucket < Count(t, p) && ChainAt(t, p) != []
    ensures !Present(WithChain(t, p, ChainAt(t, p)[1..]), ChainAt(t, p)[0])
  {
    var s, u := ChainAt(t, p), WithChain(t, p, ChainAt(t, p)[1..]);
    assert IsAt(t, p, 0, s[0]);
    if Present(u, s[0]) {
      var q, i :| IsAt(u, q, i, s[0]);
      assert IsAt(t, q, if q == p then i + 1 else i, s[0]);
    }
  }

  /** One turn of the migration loop, in memory. */
  lemma MoveChains(hash: Key -> nat, t: Table, h: Heads, nx: map<Item, Item?>)
    requires Chains(t, h, nx) && Shape(t) && Distinct(t) && t.expanding && t.old_[t.frontier] != []
    ensures var it := t.old_[t.frontier][0];
      var b := Mask(hash(it.key), t.power);
      it in nx &&
      Chains(MoveOne(hash, t), WithHead(WithHead(h, Old(t.frontier), nx[it]), Primary(b), it), nx[it := h.primary[b]])
  {
    var p := Old(t.frontier);
    var it := t.old_[t.frontier][0];
    var b := Mask(hash(it.key), t.power);
    PopChains(t, h, nx, p);
    PopRemoves(t, p);
    var u, g := WithChain(t, p, ChainAt(t, p)[1..]), WithHead(h, p, nx[it]);
    PushChains(u, g, nx, it, Primary(b));
    assert WithChain(u, Primary(b), [it] + ChainAt(u, Primary(b))) == MoveOne(hash, t);
    hide Chains;
  }

  lemma DropItem(t: Table, h: Heads, nx: map<Item, Item?>, x: Item)
    requires Chains(t, h, nx) && !Present(t, x)
    ensures Chains(t, h, nx - {x})
  {
    forall p: Place | p.bucket < Count(t, p)
      ensures Linked(nx - {x}, HeadAt(t, h, p), ChainAt(t, p))
    {
      NotIn(t, x, p);
    }
  }

  lemma ExpandChains(t: Table, h: Heads, nx: map<Item, Item?>)
    requires Chains(t, h, nx)
    ensures Chains(Expanded(t), Heads(h.primary, seq(Pow2(t.power + 1), i => null)), nx)
  {
    var u := Expanded(t);
    forall p: Place | p.bucket < Count(u, p)
      ensures Linked(nx, HeadAt(u, Heads(h.primary, seq(Pow2(t.power + 1), i => null)), p), ChainAt(u, p))
    {
      if p.Old? {
        assert ChainAt(u, p) == ChainAt(t, Primary(p.bucket));
      }
    }
  }

  lemma FinishChains(t: Table, h: Heads, nx: map<Item, Item?>)
    requires Chains(t, h, nx) && Shape(t) && t.expanding
    ensures var u := FinishBucket(t); Chains(u, if u.expanding then h else Heads([], h.primary), nx)
  {
    var u := FinishBucket(t);
    forall p: Place | p.bucket < Count(u, p)
      ensures ChainAt(u, p) == ChainAt(t, p)
    {
    }
  }

  ghost function Nexts(items: set<Item>): map<Item, Item?>
    reads items
  {
    map x | x in items :: x.next
  }

  lemma FollowLink(items: set<Item>, head: Item?, s: seq<Item>, i: nat)
    requires Linked(Nexts(items), head, s) && i < |s|
    ensures s[i].next == At(s, i + 1)
  {
    assert s[i] in Nexts(items);
  }

  class HashTable {
    const hash: Key -> nat
    var power: nat
    var expanding: bool
    var frontier: nat
    var primary: array<Item?>
    var old_: array<Item?>

    /** The chains, the map they stand for, and the items in them. */
    ghost var t: Table
    ghost var contents: map<Key, Item>
    ghost var items: set<Item>

    ghost predicate Arrays()
      reads this
    {
      power == t.power && expanding == t.expanding && frontier == t.frontier && Shape(t) &&
      primary.Length == |t.primary| && (expanding ==> old_.Length == |t.old_| && old_ != primary)
    }

    ghost function HeadsNow(): Heads
      reads this, primary, old_
    {
      Heads(if expanding then old_[..] else [], primary[..])
    }

    ghost predicate Owned()
      reads this
    {
      forall x <- items :: x.key in contents && contents[x.key] == x
    }

    ghost predicate Valid()
      reads this, primary, old_, items
    {
      Arrays() && Owned() && Ok(hash, t, false, contents) && Chains(t, HeadsNow(), Nexts(items))
    }

    lemma HeadLinked(p: Place)
      requires Valid() && p.bucket < Count(t, p)
      ensures Fit(t, HeadsNow()) && Linked(Nexts(items), HeadAt(t, HeadsNow(), p), ChainAt(t, p))
    {
    }

    /** `assoc_init`. */
    constructor (hash: Key -> nat, power: nat)
      ensures Valid() && contents == map[] && !expanding && this.power == power && this.hash == hash
      ensures fresh(primary) && fresh(old_)
    {
      this.hash := hash;
      this.power, expanding, frontier := power, false, 0;
      primary := new Item?[Pow2(power)](i => null);
      old_ := new Item?[0];
      t := Table(power, false, 0, [], seq(Pow2(power), i => []));
      contents := map[];
      items := {};
    }

    method Resolve(hv: nat) returns (p: Place)
      requires Arrays()
      ensures p == PlaceOf(t, hv)
    {
      if expanding {
        var bucket := Mask(hv, power - 1);
        if bucket >= frontier {
          return Old(bucket);
        }
      }
      return Primary(Mask(hv, power));
    }

    method ReadHead(p: Place) returns (it: Item?)
      requires Arrays() && p.bucket < Count(t, p)
      ensures Fit(t, HeadsNow()) && it == HeadAt(t, HeadsNow(), p)
    {
      if p.Old? { it := old_[p.bucket]; } else { it := primary[p.bucket]; }
    }

    method WriteHead(p: Place, it: Item?)
      requires Arrays() && p.bucket < Count(t, p)
      modifies primary, old_
      ensures HeadsNow() == WithHead(old(HeadsNow()), p, it)
    {
      if p.Old? { old_[p.bucket] := it; } else { primary[p.bucket] := it; }
    }

    /** `assoc_find`. */
    method Find(key: Key, hv: nat) returns (ret: Item?)
      requires Valid() && hv == hash(key)
      ensures ret == if key in contents then contents[key] else null
    {
      hide Ok, Chains, Linked, Nexts;
      ghost var s := ChainOf(t, hv);
      var p := Resolve(hv);
      var it := ReadHead(p);
      HeadLinked(p);
      ChainHoldsKey(hash, t, false, contents, key);
      ghost var head := it;
      ghost var i := 0;
      while it != null
        invariant i <= |s| && it == At(s, i)
        invariant forall j :: 0 <= j < i ==> s[j].key != key
        decreases |s| - i
      {
        FollowLink(items, head, s, i);
        if it.key == key {
          return it;
        }
        it := it.next;
        i := i + 1;
      }
      return null;
    }

    /** `_hashitem_before`. */
    method HashitemBefore(key: Key, hv: nat) returns (link: Link)
      requires Valid() && hv == hash(key)
      ensures link == LinkTo(PlaceOf(t, hv), ChainOf(t, hv), DepthOf(ChainOf(t, hv), key))
    {
      hide Ok, Chains, Linked, Nexts;
      ghost var s := ChainOf(t, hv);
      var p := Resolve(hv);
      var it := ReadHead(p);
      HeadLinked(p);
      ghost var head := it;
      link := Head(p);
      ghost var i := 0;
      while it != null && it.key != key
        invariant i <= |s| && it == At(s, i) && link == LinkTo(p, s, i)
        invariant forall j :: 0 <= j < i ==> s[j].key != key
        decreases |s| - i
      {
        FollowLink(items, head, s, i);
        link := NextOf(it);
        it := it.next;
        i := i + 1;
      }
    }

    lemma ShapeKept(t: Table, u: Table)
      requires Shape(t) && SameLayout(t, u)
      ensures Shape(u)
    {
    }

    lemma InsertFacts(it: Item, hv: nat)
      requires Valid() && hv == hash(it.key) && it.key !in contents
      ensures var h, p, u := HeadsNow(), PlaceOf(t, hv), Inserted(t, it, hv);
        Ok(hash, u, false, contents[it.key := it]) && SameLayout(t, u) && Fit(t, h) &&
        Chains(u, WithHead(h, p, it), Nexts(items)[it := HeadAt(t, h, p)])
    {
      InsertOk(hash, t, false, contents, it);
      InsertCells(t, it, hv);
      assert !Present(t, it);
      hide Linked;
      PushChains(t, HeadsNow(), Nexts(items), it, PlaceOf(t, hv));
    }

    /** `assoc_insert`. */
    method Insert(it: Item, hv: nat)
      requires Valid() && hv == hash(it.key) && it.key !in contents
      modifies this`t, this`contents, this`items, primary, old_, it
      ensures Valid()
      ensures contents == old(contents)[it.key := it] && t == Inserted(old(t), it, hv)
      ensures items == old(items) + {it}
    {
      hide Ok, Chains, Linked, Inserted, WithHead;
      InsertFacts(it, hv);
      ShapeKept(t, Inserted(t, it, hv));
      var p := Resolve(hv);
      hide PlaceOf, Shape;
      it.next := ReadHead(p);
      WriteHead(p, it);
      t := Inserted(t, it, hv);
      contents := contents[it.key := it];
      items := items + {it};
      assert Nexts(items) == old(Nexts(items))[it := it.next];
    }

    method ReadLink(link: Link) returns (it: Item?)
      requires Arrays() && (link.Head? ==> link.place.bucket < Count(t, link.place))
      ensures Fit(t, HeadsNow()) && it == if link.Head? then HeadAt(t, HeadsNow(), link.place) else link.item.next
    {
      match link
      case Head(p) => it := ReadHead(p);
      case NextOf(x) => it := x.next;
    }

    /** What taking the key's item out of its chain leaves in memory. */
    lemma DeleteFacts(key: Key, hv: nat)
      requires Valid() && hv == hash(key) && key in contents
      ensures var h, nx, p, s := HeadsNow(), Nexts(items), PlaceOf(t, hv), ChainOf(t, hv);
        var u, d := Deleted(t, key, hv), DepthOf(s, key);
        d < |s| && s[d] == contents[key] && s[d] in nx && (d > 0 ==> s[d - 1] in nx && s[d - 1] != s[d]) && Fit(t, h) &&
        s[d] == (if d == 0 then HeadAt(t, h, p) else nx[s[d - 1]]) &&
        Ok(hash, u, false, contents - {key}) && SameLayout(t, u) &&
        Chains(u, CutHeads(h, p, s, nx, d), CutNexts(s, nx, d) - {s[d]})
    {
      hide Ok, Chains, Nexts, HeadsNow, Deleted, ChainOf, CutHeads, CutNexts;
      DeletePosition(hash, t, contents, key);
      DeleteMemory(hash, t, contents, HeadsNow(), Nexts(items), key);
    }

    /** Where the key's item is, in memory. */
    lemma DeleteLinks(key: Key, hv: nat)
      requires Valid() && hv == hash(key) && key in contents
      ensures var p, s := PlaceOf(t, hv), ChainOf(t, hv);
        var d := DepthOf(s, key);
        p.bucket < Count(t, p) && d < |s| && s[d] in items && (d > 0 ==> s[d - 1] in items && s[d - 1] != s[d]) &&
        Fit(t, HeadsNow()) && s[d] == if d == 0 then HeadAt(t, HeadsNow(), p) else s[d - 1].next
    {
      hide Ok, Chains, HeadsNow, Deleted, CutHeads, CutNexts;
      DeleteFacts(key, hv);
    }

    method WriteLink(link: Link, to: Item?)
      requires Arrays() && (link.Head? ==> link.place.bucket < Count(t, link.place))
      requires link.NextOf? ==> link.item in items
      modifies primary, old_, if link.NextOf? then {link.item} else {}
      ensures HeadsNow() == if link.Head? then WithHead(old(HeadsNow()), link.place, to) else old(HeadsNow())
      ensures Nexts(items) == if link.NextOf? then old(Nexts(items))[link.item := to] else old(Nexts(items))
    {
      match link
      case Head(p) => WriteHead(p, to);
      case NextOf(x) => x.next := to;
    }

    /** Taking the item behind a link out: clear its own link, redirect the one before it. */
    method Cut(before: Link, ghost p: Place, ghost s: seq<Item>, ghost d: nat) returns (it: Item)
      requires Arrays() && p.bucket < Count(t, p) && d < |s| && before == LinkTo(p, s, d)
      requires s[d] in items && (d > 0 ==> s[d - 1] in items && s[d - 1] != s[d])
      requires Fit(t, HeadsNow()) && s[d] == if d == 0 then HeadAt(t, HeadsNow(), p) else s[d - 1].next
      modifies primary, old_, items
      ensures it == s[d] && it.next == null
      ensures HeadsNow() == CutHeads(old(HeadsNow()), p, s, old(Nexts(items)), d)
      ensures Nexts(items) == CutNexts(s, old(Nexts(items)), d)
    {
      it := ReadLink(before);
      var nxt := it.next;
      it.next := null;
      assert Nexts(items) == old(Nexts(items))[it := null];
      WriteLink(before, nxt);
    }

    method CutOut(before: Link, ghost p: Place, ghost s: seq<Item>, ghost d: nat)
      requires Arrays() && p.bucket < Count(t, p) && d < |s| && before == LinkTo(p, s, d)
      requires s[d] in items && (d > 0 ==> s[d - 1] in items && s[d - 1] != s[d])
      requires Fit(t, HeadsNow()) && s[d] == if d == 0 then HeadAt(t, HeadsNow(), p) else s[d - 1].next
      modifies this`items, primary, old_, items
      ensures items == old(items) - {s[d]} && s[d].next == null
      ensures HeadsNow() == CutHeads(old(HeadsNow()), p, s, old(Nexts(items)), d)
      ensures Nexts(items) == CutNexts(s, old(Nexts(items)), d) - {s[d]}
    {
      hide Nexts, CutHeads, CutNexts, HeadAt, Shape;
      var it := Cut(before, p, s, d);
      Forgotten(items, it);
      items := items - {it};
    }

    /** `assoc_delete`; its callers never ask for a key that is not there. */
    method Delete(key: Key, hv: nat)
      requires Valid() && hv == hash(key) && key in contents
      modifies this`t, this`contents, this`items, primary, old_, items
      ensures Valid()
      ensures contents == old(contents) - {key} && t == Deleted(old(t), key, hv)
      ensures items == old(items) - {old(contents)[key]} && old(contents)[key].next == null
    {
      hide Ok, Chains, Linked, Deleted, WithHead, CutHeads, CutNexts, Nexts, HeadAt;
      DeleteFacts(key, hv);
      DeleteLinks(key, hv);
      ghost var p, s, nx := PlaceOf(t, hv), ChainOf(t, hv), Nexts(items);
      ghost var d := DepthOf(s, key);
      ShapeKept(t, Deleted(t, key, hv));
      var before := HashitemBefore(key, hv);
      hide DepthOf, PlaceOf, ChainOf, Shape;
      CutOut(before, p, s, d);
      t := Deleted(t, key, hv);
      contents := contents - {key};
    }

    lemma ExpandFacts()
      requires Valid() && !expanding
      ensures var u := Expanded(t);
        Ok(hash, u, false, contents) && Shape(u) && |u.primary| == Pow2(power + 1) && u.old_ == t.primary &&
        Chains(u, Heads(primary[..], seq(Pow2(power + 1), i => null)), Nexts(items))
    {
      ExpandOk(hash, t, contents);
      ExpandCells(t);
      ExpandChains(t, HeadsNow(), Nexts(items));
      hide Ok, Chains;
    }

    /** `assoc_expand`, with and without memory for the new table. */
    method Expand(allocationOk: bool)
      requires Valid() && !expanding
      modifies this`power, this`expanding, this`frontier, this`primary, this`old_, this`t
      ensures Valid() && t == if allocationOk then Expanded(old(t)) else old(t)
      ensures allocationOk ==> fresh(primary) && old_ == old(primary)
      ensures !allocationOk ==> primary == old(primary)
    {
      hide Ok, Chains, Shape;
      ExpandFacts();
      old_ := primary;
      if allocationOk {
        primary := new Item?[Pow2(power + 1)](i => null);
        power := power + 1;
        expanding := true;
        frontier := 0;
        t := Expanded(t);
        assert primary[..] == seq(Pow2(power), i => null);
      }
    }

    /** In the middle of the migration loop: `it` is the first item left of the frontier chain, while
        its head in the old array has not been written yet. */
    ghost predicate Moving(it: Item?)
      reads this, primary, old_, items
    {
      Arrays() && Owned() && expanding && Ok(hash, t, true, contents) &&
      Chains(t, WithHead(HeadsNow(), Old(frontier), it), Nexts(items))
    }

    lemma MoveFacts(it: Item)
      requires Moving(it)
      ensures var h, nx, b := HeadsNow(), Nexts(items), Mask(hash(it.key), power);
        t.old_[frontier] != [] && t.old_[frontier][0] == it && it in items && b < |h.primary| &&
        var u := MoveOne(hash, t);
        Ok(hash, u, true, contents) && SameLayout(t, u) && Shape(u) &&
        Chains(u, WithHead(WithHead(h, Primary(b), it), Old(frontier), nx[it]), nx[it := h.primary[b]])
    {
      var h, nx, b, p := HeadsNow(), Nexts(items), Mask(hash(it.key), power), Old(frontier);
      assert Linked(nx, it, ChainAt(t, p));
      assert t.old_[frontier] != [] && t.old_[frontier][0] == it;
      MoveOk(hash, t, contents);
      MoveCells(hash, t);
      MoveChains(hash, t, WithHead(h, p, it), nx);
      HeadsCommute(h, frontier, it, nx[it], b);
    }

    /** The body of the migration loop. */
    method MoveItem(it: Item) returns (next: Item?)
      requires Moving(it)
      modifies this`t, primary, it
      ensures Moving(next) && old(t.old_[frontier]) != [] && t == old(MoveOne(hash, t))
    {
      hide Ok, Chains, MoveOne, Shape;
      MoveFacts(it);
      ghost var h, nx := HeadsNow(), Nexts(items);
      next := it.next;
      var bucket := Mask(hash(it.key), power);
      it.next := primary[bucket];
      primary[bucket] := it;
      t := MoveOne(hash, t);
      assert Nexts(items) == nx[it := h.primary[bucket]];
      assert HeadsNow() == WithHead(h, Primary(bucket), it);
    }

    lemma StartMoving()
      requires Valid() && expanding
      ensures Moving(old_[frontier])
    {
      StartOk(hash, t, contents);
      hide Ok, Chains;
      assert WithHead(HeadsNow(), Old(frontier), old_[frontier]) == HeadsNow();
    }

    lemma FinishFacts()
      requires Moving(null)
      ensures var h, u := WithHead(HeadsNow(), Old(frontier), null), FinishBucket(t);
        t.old_[frontier] == [] && Shape(u) && Ok(hash, u, false, contents) &&
        Chains(u, if u.expanding then h else Heads([], h.primary), Nexts(items))
    {
      var h, p := WithHead(HeadsNow(), Old(frontier), null), Old(frontier);
      assert Linked(Nexts(items), null, ChainAt(t, p));
      FinishOk(hash, t, contents);
      FinishCells(t);
      FinishChains(t, h, Nexts(items));
    }

    /** The loop that empties the frontier bucket into the new table. */
    method MoveBucket()
      requires Valid() && expanding
      modifies this`t, primary, items
      ensures Moving(null) && t == MoveAll(hash, old(t))
    {
      hide Ok, Chains, MoveOne, Linked;
      StartMoving();
      var it := old_[frontier];
      hide Shape;
      while it != null
        invariant Moving(it)
        invariant MoveAll(hash, t) == MoveAll(hash, old(t))
        decreases |t.old_[frontier]|
      {
        MoveFacts(it);
        MoveShape(hash, t);
        it := MoveItem(it);
      }
      FinishFacts();
    }

    /** One turn of `assoc_maintenance_thread`, done under the bucket's item lock. */
    method MigrateBucket()
      requires Valid() && expanding
      modifies this`t, this`frontier, this`expanding, primary, old_, items
      ensures Valid() && t == FinishBucket(MoveAll(hash, old(t)))
    {
      hide Ok, Chains, MoveAll;
      MoveBucket();
      FinishFacts();
      old_[frontier] := null;
      frontier := frontier + 1;
      if frontier == Pow2(power - 1) {
        expanding := false;
      }
      t := FinishBucket(t);
    }
  }

  lemma HeadsCommute(h: Heads, f: nat, it: Item?, next: Item?, b: nat)
    requires f < |h.old_| && b < |h.primary|
    ensures WithHead(WithHead(WithHead(h, Old(f), it), Old(f), next), Primary(b), it)
         == WithHead(WithHead(h, Primary(b), it), Old(f), next)
  {
  }

  lemma Forgotten(items: set<Item>, it: Item)
    ensures Nexts(items - {it}) == Nexts(items) - {it}
  {
  }

  lemma AbsentItem(t: Table, m: map<Key, Item>, x: Item)
    requires Represents(t, m) && x.key !in m
    ensures !Present(t, x)
  {
  }

  lemma DeletePosition(hash: Key -> nat, t: Table, m: map<Key, Item>, key: Key)
    requires Ok(hash, t, false, m) && key in m
    ensures var s := ChainOf(t, hash(key));
      var d := DepthOf(s, key);
      d < |s| && s[d] == m[key] && (d > 0 ==> s[d - 1] != s[d]) &&
      Deleted(t, key, hash(key)) == WithChain(t, PlaceOf(t, hash(key)), s[..d] + s[d + 1..])
  {
    ChainHoldsKey(hash, t, false, m, key);
    hide Placed, Represents, Distinct;
    WithoutIs(ChainOf(t, hash(key)), key);
  }

  lemma LinksAround(nx: map<Item, Item?>, head: Item?, s: seq<Item>, d: nat)
    requires Linked(nx, head, s) && d < |s|
    ensures s[d] in nx && (d > 0 ==> s[d - 1] in nx)
    ensures s[d] == if d == 0 then head else nx[s[d - 1]]
  {
  }

  lemma ChainLinked(t: Table, h: Heads, nx: map<Item, Item?>, p: Place)
    requires Chains(t, h, nx) && p.bucket < Count(t, p)
    ensures Fit(t, h) && Linked(nx, HeadAt(t, h, p), ChainAt(t, p))
  {
  }

  lemma DeleteLayout(t: Table, key: Key, hv: nat)
    requires Shape(t)
    ensures SameLayout(t, Deleted(t, key, hv))
  {
  }

  lemma DeleteMemory(hash: Key -> nat, t: Table, m: map<Key, Item>, h: Heads, nx: map<Item, Item?>, key: Key)
    requires Ok(hash, t, false, m) && Chains(t, h, nx) && key in m
    ensures var p, s, hv := PlaceOf(t, hash(key)), ChainOf(t, hash(key)), hash(key);
      var u, d := Deleted(t, key, hv), DepthOf(s, key);
      d < |s| && s[d] in nx && (d > 0 ==> s[d - 1] in nx) && Fit(t, h) &&
      s[d] == (if d == 0 then HeadAt(t, h, p) else nx[s[d - 1]]) &&
      Ok(hash, u, false, m - {key}) && SameLayout(t, u) &&
      Chains(u, CutHeads(h, p, s, nx, d), CutNexts(s, nx, d) - {s[d]})
  {
    hide Chains, CutHeads, CutNexts, Deleted, Linked, Present, Placed, Distinct, Represents, WithChain;
    var hv := hash(key);
    var p, s := PlaceOf(t, hv), ChainOf(t, hv);
    var u, d := Deleted(t, key, hv), DepthOf(s, key);
    DeletePosition(hash, t, m, key);
    ChainLinked(t, h, nx, p);
    LinksAround(nx, HeadAt(t, h, p), s, d);
    DeleteOk(hash, t, false, m, key);
    DeleteLayout(t, key, hv);
    CutChains(t, h, nx, p, d);
    AbsentItem(u, m - {key}, s[d]);
    DropItem(u, CutHeads(h, p, s, nx, d), CutNexts(s, nx, d), s[d]);
  }
}
