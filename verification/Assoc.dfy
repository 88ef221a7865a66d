/** The hash table as values: two arrays of chains, one being emptied into the other. */
module Assoc {
  import opened Basics
  import opened Division

  type Key = seq<byte>

  /** An item, as far as the table is concerned: a key and the link to the next item of its chain. */
  class Item {
    const key: Key
    var next: Item?

    constructor (key: Key)
      ensures this.key == key && next == null
    {
      this.key := key;
      next := null;
    }
  }

  /** `frontier` is the first bucket of the old table that has not been moved yet. */
  datatype Table = Table(power: nat, expanding: bool, frontier: nat, old_: seq<seq<Item>>, primary: seq<seq<Item>>)

  datatype Place = Old(bucket: nat) | Primary(bucket: nat)

  // Masks

  function Pow2(n: nat): (p: nat)
    ensures 0 < p
  {
    if n == 0 then 1 else 2 * Pow2(n - 1)
  }

  /** `hv & hashmask(n)`: the low `n` bits. */
  function Mask(hv: nat, n: nat): (b: nat)
    ensures b < Pow2(n)
  {
    hv % Pow2(n)
  }

  lemma {:induction false} PowAdd(a: nat, b: nat)
    ensures Pow2(a + b) == Pow2(a) * Pow2(b)
    decreases a
  {
    if a > 0 {
      PowAdd(a - 1, b);
      assert Pow2(a + b) == 2 * Pow2(a - 1 + b);
      assert 2 * (Pow2(a - 1) * Pow2(b)) == (2 * Pow2(a - 1)) * Pow2(b);
    }
  }

  /** The low bits of the low bits: a narrower mask sees through a wider one. */
  lemma MaskMask(hv: nat, a: nat, b: nat)
    requires a <= b
    ensures Mask(Mask(hv, b), a) == Mask(hv, a)
  {
    PowAdd(b - a, a);
    ModOfMod(hv, Pow2(b - a), Pow2(a));
  }

  // Where a hash value resolves to

  /** The branch `assoc_find`, `_hashitem_before` and `assoc_insert` share. */
  function PlaceOf(t: Table, hv: nat): Place
    requires t.expanding ==> t.power > 0
  {
    if t.expanding && Mask(hv, t.power - 1) >= t.frontier
    then Old(Mask(hv, t.power - 1)) else Primary(Mask(hv, t.power))
  }

  ghost predicate Shape(t: Table) {
    |t.primary| == Pow2(t.power) &&
    (t.expanding ==> t.power > 0 && |t.old_| == Pow2(t.power - 1) && t.frontier < |t.old_|) &&
    (!t.expanding ==> t.old_ == [])
  }

  function Count(t: Table, p: Place): nat {
    if p.Old? then |t.old_| else |t.primary|
  }

  function ChainAt(t: Table, p: Place): seq<Item>
    requires p.bucket < Count(t, p)
  {
    if p.Old? then t.old_[p.bucket] else t.primary[p.bucket]
  }

  function WithChain(t: Table, p: Place, s: seq<Item>): Table
    requires p.bucket < Count(t, p)
  {
    if p.Old? then t.(old_ := t.old_[p.bucket := s]) else t.(primary := t.primary[p.bucket := s])
  }

  function ChainOf(t: Table, hv: nat): seq<Item>
    requires Shape(t)
  {
    ChainAt(t, PlaceOf(t, hv))
  }

  // Well-formedness

  /** Is `p` a bucket in which an item of hash `hv` may be?  While the frontier bucket is being
      moved its items may be in either table. */
  ghost predicate Fits(t: Table, moving: bool, p: Place, hv: nat)
    requires t.expanding ==> t.power > 0
  {
    p == PlaceOf(t, hv) ||
    (moving && t.expanding && Mask(hv, t.power - 1) == t.frontier && p == Primary(Mask(hv, t.power)))
  }

  /** `x` is the item at position `i` of the chain at `p`. */
  ghost predicate IsAt(t: Table, p: Place, i: int, older x: Item) {
    p.bucket < Count(t, p) && 0 <= i < |ChainAt(t, p)| && ChainAt(t, p)[i] == x
  }

  ghost predicate Placed(hash: Key -> nat, t: Table, moving: bool)
    requires t.expanding ==> t.power > 0
  {
    forall p, i, x :: IsAt(t, p, i, x) ==> Fits(t, moving, p, hash(x.key))
  }

  /** No item is in two positions. */
  ghost predicate Distinct(t: Table) {
    forall p, i, q, j, x :: IsAt(t, p, i, x) && IsAt(t, q, j, x) ==> p == q && i == j
  }

  ghost predicate Present(t: Table, x: Item) {
    exists p, i :: IsAt(t, p, i, x)
  }

  /** The items in the table are those of the map, each under its own key. */
  ghost predicate Represents(t: Table, m: map<Key, Item>) {
    (forall k :: k in m ==> m[k].key == k && Present(t, m[k])) &&
    (forall p, i, x :: IsAt(t, p, i, x) ==> x.key in m && m[x.key] == x)
  }

  ghost predicate Ok(hash: Key -> nat, t: Table, moving: bool, m: map<Key, Item>) {
    Shape(t) && (moving ==> t.expanding) && Placed(hash, t, moving) && Distinct(t) && Represents(t, m)
  }

  /** A lookup resolves to the bucket holding the item, unless that bucket is being moved. */
  ghost predicate Settled(t: Table, moving: bool, hv: nat)
    requires Shape(t)
  {
    moving && t.expanding ==> Mask(hv, t.power - 1) != t.frontier
  }

  /** Reading the chain a key resolves to is reading the map. */
  lemma ChainHoldsKey(hash: Key -> nat, t: Table, moving: bool, m: map<Key, Item>, k: Key)
    requires Ok(hash, t, moving, m) && Settled(t, moving, hash(k))
    ensures k in m ==> m[k] in ChainOf(t, hash(k)) && m[k].key == k
    ensures forall x <- ChainOf(t, hash(k)) :: x.key == k ==> k in m && m[k] == x
  {
    var p := PlaceOf(t, hash(k));
    if k in m {
      assert Present(t, m[k]);
      var q, i :| IsAt(t, q, i, m[k]);
      assert Fits(t, moving, q, hash(m[k].key));
    }
    forall x | x in ChainAt(t, p) && x.key == k
      ensures k in m && m[k] == x
    {
      var i :| 0 <= i < |ChainAt(t, p)| && ChainAt(t, p)[i] == x;
      assert IsAt(t, p, i, x);
    }
  }

  // Operations

  function Inserted(t: Table, it: Item, hv: nat): Table
    requires Shape(t)
  {
    WithChain(t, PlaceOf(t, hv), [it] + ChainOf(t, hv))
  }

  /** A chain without the first item of the given key. */
  function Without(s: seq<Item>, key: Key): seq<Item> {
    if s == [] then [] else if s[0].key == key then s[1..] else [s[0]] + Without(s[1..], key)
  }

  function Deleted(t: Table, key: Key, hv: nat): Table
    requires Shape(t)
  {
    WithChain(t, PlaceOf(t, hv), Without(ChainOf(t, hv), key))
  }

  /** `assoc_expand`: the table becomes the old one, under an empty one of twice the size. */
  function Expanded(t: Table): Table {
    Table(t.power + 1, true, 0, t.primary, seq(Pow2(t.power + 1), i => []))
  }

  /** One turn of the migration loop: the first item of the frontier chain moves up. */
  function MoveOne(hash: Key -> nat, t: Table): Table
    requires Shape(t) && t.expanding && t.old_[t.frontier] != []
  {
    var s := t.old_[t.frontier];
    var b := Mask(hash(s[0].key), t.power);
    t.(old_ := t.old_[t.frontier := s[1..]], primary := t.primary[b := [s[0]] + t.primary[b]])
  }

  lemma MoveShape(hash: Key -> nat, t: Table)
    requires Shape(t) && t.expanding && t.old_[t.frontier] != []
    ensures var u := MoveOne(hash, t);
      Shape(u) && u.expanding && u.frontier == t.frontier && |u.old_[u.frontier]| == |t.old_[t.frontier]| - 1
  {
  }

  /** The whole loop over the frontier bucket. */
  function MoveAll(hash: Key -> nat, t: Table): (u: Table)
    requires Shape(t) && t.expanding
    ensures Shape(u) && u.expanding && u.frontier == t.frontier && u.old_[u.frontier] == []
    decreases |t.old_[t.frontier]|
  {
    if t.old_[t.frontier] == [] then t else (MoveShape(hash, t); MoveAll(hash, MoveOne(hash, t)))
  }

  /** The frontier bucket is empty: step over it, and drop the old table after its last bucket. */
  function FinishBucket(t: Table): Table
    requires Shape(t) && t.expanding
  {
    if t.frontier + 1 == |t.old_| then t.(frontier := t.frontier + 1, expanding := false, old_ := [])
    else t.(frontier := t.frontier + 1)
  }

  /** What the operations leave alone: which bucket a hash value resolves to. */
  ghost predicate SameLayout(t: Table, u: Table) {
    t.power == u.power && t.expanding == u.expanding && t.frontier == u.frontier &&
    |t.primary| == |u.primary| && |t.old_| == |u.old_|
  }

  ghost predicate InsertedAt(t: Table, u: Table, p: Place, it: Item) {
    forall q, i, x: Item {:trigger IsAt(u, q, i, x)} :: IsAt(u, q, i, x) ==>
      (q != p && IsAt(t, q, i, x)) || (q == p && i == 0 && x == it) || (q == p && i > 0 && IsAt(t, q, i - 1, x))
  }

  lemma InsertCells(t: Table, it: Item, hv: nat)
    requires Shape(t)
    ensures var u, p := Inserted(t, it, hv), PlaceOf(t, hv);
      SameLayout(t, u) && InsertedAt(t, u, p, it) && IsAt(u, p, 0, it)
  {
    var u, p := Inserted(t, it, hv), PlaceOf(t, hv);
    forall q, i, x | IsAt(u, q, i, x)
      ensures q != p ==> IsAt(t, q, i, x)
      ensures q == p && i == 0 ==> x == it
      ensures q == p && i != 0 ==> IsAt(t, q, i - 1, x)
    {
    }
  }

  lemma InsertKeepsPresent(t: Table, it: Item, hv: nat, x: Item)
    requires Shape(t) && Present(t, x)
    ensures Present(Inserted(t, it, hv), x)
  {
    var q, i :| IsAt(t, q, i, x);
    assert IsAt(Inserted(t, it, hv), q, if q == PlaceOf(t, hv) then i + 1 else i, x);
  }

  lemma SamePlaces(t: Table, u: Table, moving: bool)
    requires SameLayout(t, u) && Shape(t)
    ensures Shape(u) && forall h :: PlaceOf(u, h) == PlaceOf(t, h)
    ensures forall q, h :: Fits(u, moving, q, h) <==> Fits(t, moving, q, h)
  {
  }

  lemma InsertDistinct(t: Table, u: Table, p: Place, it: Item)
    requires Distinct(t) && InsertedAt(t, u, p, it) && !Present(t, it)
    ensures Distinct(u)
  {
    hide IsAt;
    forall q, i, r, j, x | IsAt(u, q, i, x) && IsAt(u, r, j, x)
      ensures q == r && i == j
    {
      if q == p && i == 0 {
      } else if r == p && j == 0 {
      } else {
        assert IsAt(t, q, if q == p then i - 1 else i, x);
        assert IsAt(t, r, if r == p then j - 1 else j, x);
      }
    }
  }

  lemma InsertPlaced(hash: Key -> nat, t: Table, u: Table, moving: bool, p: Place, it: Item)
    requires Shape(t) && SameLayout(t, u) && Placed(hash, t, moving) && InsertedAt(t, u, p, it)
    requires p == PlaceOf(t, hash(it.key))
    ensures Shape(u) && Placed(hash, u, moving)
  {
    SamePlaces(t, u, moving);
    assert Fits(t, moving, p, hash(it.key));
    hide IsAt, Fits, PlaceOf;
  }

  lemma InsertRepresents(t: Table, m: map<Key, Item>, it: Item, hv: nat)
    requires Shape(t) && Represents(t, m) && it.key !in m
    ensures Represents(Inserted(t, it, hv), m[it.key := it])
  {
    var u, p, n := Inserted(t, it, hv), PlaceOf(t, hv), m[it.key := it];
    InsertCells(t, it, hv);
    hide IsAt, Inserted, PlaceOf;
    forall k | k in n
      ensures n[k].key == k && Present(u, n[k])
    {
      if k != it.key {
        InsertKeepsPresent(t, it, hv, m[k]);
      }
    }
  }

  /** `assoc_insert` adds one entry to the map, in any phase of an expansion. */
  lemma InsertOk(hash: Key -> nat, t: Table, moving: bool, m: map<Key, Item>, it: Item)
    requires Ok(hash, t, moving, m) && it.key !in m
    ensures Ok(hash, Inserted(t, it, hash(it.key)), moving, m[it.key := it])
  {
    var hv := hash(it.key);
    var u := Inserted(t, it, hv);
    InsertCells(t, it, hv);
    InsertRepresents(t, m, it, hv);
    hide IsAt, Inserted, Fits;
    InsertDistinct(t, u, PlaceOf(t, hv), it);
    InsertPlaced(hash, t, u, moving, PlaceOf(t, hv), it);
  }

  // Deletion

  /** Position of the first item of the given key. */
  function DepthOf(s: seq<Item>, key: Key): (d: nat)
    ensures d <= |s| && (d < |s| ==> s[d].key == key)
    ensures forall i :: 0 <= i < d ==> s[i].key != key
  {
    if s == [] || s[0].key == key then 0 else 1 + DepthOf(s[1..], key)
  }

  lemma {:induction false} WithoutIs(s: seq<Item>, key: Key)
    requires exists i :: 0 <= i < |s| && s[i].key == key
    ensures var d := DepthOf(s, key); d < |s| && Without(s, key) == s[..d] + s[d + 1..]
  {
    if s[0].key != key {
      var i :| 0 <= i < |s| && s[i].key == key;
      assert s[1..][i - 1].key == key;
      WithoutIs(s[1..], key);
      Behind(s, DepthOf(s[1..], key));
    }
  }

  lemma Behind(s: seq<Item>, d: nat)
    requires s != [] && d < |s[1..]|
    ensures [s[0]] + (s[1..][..d] + s[1..][d + 1..]) == s[..d + 1] + s[d + 2..]
  {
    assert s[..d + 1] == [s[0]] + s[1..][..d];
    assert s[1..][d + 1..] == s[d + 2..];
  }

  ghost predicate DeletedAt(t: Table, u: Table, p: Place, d: nat) {
    forall q, i, x: Item {:trigger IsAt(u, q, i, x)} :: IsAt(u, q, i, x) ==>
      (q != p && IsAt(t, q, i, x)) || (q == p && i < d && IsAt(t, q, i, x)) ||
      (q == p && i >= d && IsAt(t, q, i + 1, x))
  }

  lemma DeleteCells(t: Table, key: Key, hv: nat)
    requires Shape(t) && exists i :: 0 <= i < |ChainOf(t, hv)| && ChainOf(t, hv)[i].key == key
    ensures var u, p, d := Deleted(t, key, hv), PlaceOf(t, hv), DepthOf(ChainOf(t, hv), key);
      SameLayout(t, u) && DeletedAt(t, u, p, d) && IsAt(t, p, d, ChainOf(t, hv)[d])
  {
    var s := ChainOf(t, hv);
    WithoutIs(s, key);
    hide Without;
    var u, p, d := Deleted(t, key, hv), PlaceOf(t, hv), DepthOf(s, key);
    var r := s[..d] + s[d + 1..];
    assert forall i :: 0 <= i < |r| ==> r[i] == s[if i < d then i else i + 1];
    forall q, i, x | IsAt(u, q, i, x)
      ensures q != p ==> IsAt(t, q, i, x)
      ensures q == p && i < d ==> IsAt(t, q, i, x)
      ensures q == p && i >= d ==> IsAt(t, q, i + 1, x)
    {
      if q == p {
        assert ChainAt(u, q) == r;
      } else {
        assert ChainAt(u, q) == ChainAt(t, q);
      }
    }
  }

  lemma CutKeepsPresent(t: Table, p: Place, d: nat, x: Item)
    requires p.bucket < Count(t, p) && d < |ChainAt(t, p)| && Present(t, x) && x != ChainAt(t, p)[d]
    ensures var s := ChainAt(t, p); Present(WithChain(t, p, s[..d] + s[d + 1..]), x)
  {
    var s := ChainAt(t, p);
    var r := s[..d] + s[d + 1..];
    var u := WithChain(t, p, r);
    var q, i :| IsAt(t, q, i, x);
    if q != p {
      assert IsAt(u, q, i, x);
    } else {
      var j := if i < d then i else i - 1;
      assert r[j] == s[i];
      assert IsAt(u, q, j, x);
    }
  }

  lemma DeleteKeepsPresent(t: Table, key: Key, hv: nat, x: Item)
    requires Shape(t) && exists i :: 0 <= i < |ChainOf(t, hv)| && ChainOf(t, hv)[i].key == key
    requires Present(t, x) && x.key != key
    ensures Present(Deleted(t, key, hv), x)
  {
    hide Present, WithChain;
    WithoutIs(ChainOf(t, hv), key);
    CutKeepsPresent(t, PlaceOf(t, hv), DepthOf(ChainOf(t, hv), key), x);
  }

  lemma DeleteDistinct(t: Table, u: Table, p: Place, d: nat)
    requires Distinct(t) && DeletedAt(t, u, p, d)
    ensures Distinct(u)
  {
    hide IsAt;
    forall q, i, r, j, x | IsAt(u, q, i, x) && IsAt(u, r, j, x)
      ensures q == r && i == j
    {
      assert IsAt(t, q, if q == p && i >= d then i + 1 else i, x);
      assert IsAt(t, r, if r == p && j >= d then j + 1 else j, x);
    }
  }

  lemma DeletePlaced(hash: Key -> nat, t: Table, u: Table, moving: bool, p: Place, d: nat)
    requires Shape(t) && SameLayout(t, u) && Placed(hash, t, moving) && DeletedAt(t, u, p, d)
    ensures Shape(u) && Placed(hash, u, moving)
  {
    SamePlaces(t, u, moving);
    hide IsAt, Fits, PlaceOf;
  }

  lemma DeleteRepresents(t: Table, m: map<Key, Item>, key: Key, hv: nat)
    requires Shape(t) && Represents(t, m) && Distinct(t)
    requires exists i :: 0 <= i < |ChainOf(t, hv)| && ChainOf(t, hv)[i].key == key
    ensures Represents(Deleted(t, key, hv), m - {key})
  {
    var u, p, n, d := Deleted(t, key, hv), PlaceOf(t, hv), m - {key}, DepthOf(ChainOf(t, hv), key);
    DeleteCells(t, key, hv);
    var y := ChainOf(t, hv)[d];
    hide IsAt, Deleted, PlaceOf;
    forall k | k in n
      ensures n[k].key == k && Present(u, n[k])
    {
      DeleteKeepsPresent(t, key, hv, m[k]);
    }
    forall q, i, x | IsAt(u, q, i, x)
      ensures x.key in n && n[x.key] == x
    {
      assert IsAt(t, q, if q == p && i >= d then i + 1 else i, x);
    }
  }

  /** `assoc_delete` removes one entry from the map. */
  lemma DeleteOk(hash: Key -> nat, t: Table, moving: bool, m: map<Key, Item>, key: Key)
    requires Ok(hash, t, moving, m) && key in m && Settled(t, moving, hash(key))
    ensures Ok(hash, Deleted(t, key, hash(key)), moving, m - {key})
  {
    var hv := hash(key);
    ChainHoldsKey(hash, t, moving, m, key);
    var i :| 0 <= i < |ChainOf(t, hv)| && ChainOf(t, hv)[i] == m[key];
    var u, d := Deleted(t, key, hv), DepthOf(ChainOf(t, hv), key);
    DeleteCells(t, key, hv);
    DeleteRepresents(t, m, key, hv);
    hide IsAt, Deleted, Fits;
    DeleteDistinct(t, u, PlaceOf(t, hv), d);
    DeletePlaced(hash, t, u, moving, PlaceOf(t, hv), d);
  }

  // Expansion

  ghost predicate ExpandedAt(t: Table, u: Table) {
    forall q, i, x: Item {:trigger IsAt(u, q, i, x)} :: IsAt(u, q, i, x) ==> q.Old? && IsAt(t, Primary(q.bucket), i, x)
  }

  lemma ExpandCells(t: Table)
    requires Shape(t) && !t.expanding
    ensures Shape(Expanded(t)) && ExpandedAt(t, Expanded(t))
  {
  }

  lemma ExpandRepresents(t: Table, m: map<Key, Item>)
    requires Shape(t) && !t.expanding && Represents(t, m)
    ensures Represents(Expanded(t), m)
  {
    var u := Expanded(t);
    ExpandCells(t);
    forall k | k in m
      ensures Present(u, m[k])
    {
      var q, i :| IsAt(t, q, i, m[k]);
      assert IsAt(u, Old(q.bucket), i, m[k]);
    }
  }

  lemma ExpandPlaced(hash: Key -> nat, t: Table)
    requires Shape(t) && !t.expanding && Placed(hash, t, false)
    ensures Placed(hash, Expanded(t), false)
  {
    var u := Expanded(t);
    ExpandCells(t);
    forall h ensures Fits(u, false, Old(Mask(h, t.power)), h) {
    }
    forall q, i, x | IsAt(u, q, i, x)
      ensures Fits(u, false, q, hash(x.key))
    {
      assert IsAt(t, Primary(q.bucket), i, x);
    }
  }

  /** Starting an expansion leaves the map as it was. */
  lemma ExpandOk(hash: Key -> nat, t: Table, m: map<Key, Item>)
    requires Ok(hash, t, false, m) && !t.expanding
    ensures Ok(hash, Expanded(t), false, m)
  {
    ExpandCells(t);
    ExpandRepresents(t, m);
    ExpandPlaced(hash, t);
    hide IsAt, Expanded;
  }

  // Migration

  lemma StartOk(hash: Key -> nat, t: Table, m: map<Key, Item>)
    requires Ok(hash, t, false, m) && t.expanding
    ensures Ok(hash, t, true, m)
  {
    hide IsAt;
    forall p, h | Fits(t, false, p, h) ensures Fits(t, true, p, h) {
    }
    hide Fits;
  }

  ghost predicate MovedAt(t: Table, u: Table, p: Place, r: Place, y: Item) {
    forall q, i, x: Item {:trigger IsAt(u, q, i, x)} :: IsAt(u, q, i, x) ==>
      (q != p && q != r && IsAt(t, q, i, x)) || (q == p && IsAt(t, q, i + 1, x)) ||
      (q == r && i == 0 && x == y) || (q == r && i > 0 && IsAt(t, q, i - 1, x))
  }

  lemma MoveCells(hash: Key -> nat, t: Table)
    requires Shape(t) && t.expanding && t.old_[t.frontier] != []
    ensures var u, y := MoveOne(hash, t), t.old_[t.frontier][0];
      SameLayout(t, u) && MovedAt(t, u, Old(t.frontier), Primary(Mask(hash(y.key), t.power)), y) &&
      IsAt(t, Old(t.frontier), 0, y)
  {
    var u, y := MoveOne(hash, t), t.old_[t.frontier][0];
    var p, r := Old(t.frontier), Primary(Mask(hash(y.key), t.power));
    forall q, i, x | IsAt(u, q, i, x)
      ensures q != p && q != r ==> IsAt(t, q, i, x)
      ensures q == p ==> IsAt(t, q, i + 1, x)
      ensures q == r && i == 0 ==> x == y
      ensures q == r && i != 0 ==> IsAt(t, q, i - 1, x)
    {
    }
  }

  /** What is in the table now was in it before. */
  lemma MovedFrom(t: Table, u: Table, p: Place, r: Place, y: Item, q: Place, i: int, x: Item)
    requires MovedAt(t, u, p, r, y) && IsAt(t, p, 0, y) && IsAt(u, q, i, x)
    ensures exists q', i' :: IsAt(t, q', i', x)
  {
    hide IsAt;
  }

  lemma MoveKeepsPresent(hash: Key -> nat, t: Table, x: Item)
    requires Shape(t) && t.expanding && t.old_[t.frontier] != [] && Present(t, x)
    ensures Present(MoveOne(hash, t), x)
  {
    var u, y := MoveOne(hash, t), t.old_[t.frontier][0];
    var p, r := Old(t.frontier), Primary(Mask(hash(y.key), t.power));
    var q, i :| IsAt(t, q, i, x);
    if q == p && i == 0 {
      assert IsAt(u, r, 0, x);
    } else {
      assert IsAt(u, q, if q == p then i - 1 else if q == r then i + 1 else i, x);
    }
  }

  lemma MoveDistinct(t: Table, u: Table, p: Place, r: Place, y: Item)
    requires Distinct(t) && MovedAt(t, u, p, r, y) && p != r && IsAt(t, p, 0, y)
    ensures Distinct(u)
  {
    forall q, i, x | IsAt(u, q, i, x) ensures 0 <= i {
    }
    hide IsAt;
    forall q, i, x | IsAt(u, q, i, x)
      ensures var q', i' := Whence(p, r, q, i).0, Whence(p, r, q, i).1; IsAt(t, q', i', x)
    {
    }
    forall q, i, q', i', x | IsAt(u, q, i, x) && IsAt(u, q', i', x)
      ensures q == q' && i == i'
    {
      assert IsAt(t, Whence(p, r, q, i).0, Whence(p, r, q, i).1, x);
      assert IsAt(t, Whence(p, r, q', i').0, Whence(p, r, q', i').1, x);
    }
  }

  /** Where the item now at position `i` of bucket `q` was before the move. */
  function Whence(p: Place, r: Place, q: Place, i: int): (Place, int) {
    if q == p then (p, i + 1) else if q != r then (q, i) else if i == 0 then (p, 0) else (r, i - 1)
  }

  lemma MovePlaced(hash: Key -> nat, t: Table, u: Table, p: Place, r: Place, y: Item)
    requires Shape(t) && SameLayout(t, u) && t.expanding && Placed(hash, t, true)
    requires p == Old(t.frontier) && r == Primary(Mask(hash(y.key), t.power)) && MovedAt(t, u, p, r, y) &&
      IsAt(t, p, 0, y)
    ensures Shape(u) && Placed(hash, u, true)
  {
    SamePlaces(t, u, true);
    assert Fits(t, true, r, hash(y.key)) by {
      assert Fits(t, true, p, hash(y.key));
    }
    hide IsAt, Fits, PlaceOf;
  }

  lemma MoveRepresents(hash: Key -> nat, t: Table, m: map<Key, Item>)
    requires Shape(t) && t.expanding && t.old_[t.frontier] != [] && Represents(t, m)
    ensures Represents(MoveOne(hash, t), m)
  {
    hide IsAt, MoveOne, Pow2, Mask, Present, MovedAt, SameLayout;
    var u, y := MoveOne(hash, t), t.old_[t.frontier][0];
    MoveCells(hash, t);
    forall k | k in m
      ensures Present(u, m[k])
    {
      MoveKeepsPresent(hash, t, m[k]);
    }
    forall q, i, x | IsAt(u, q, i, x)
      ensures x.key in m && m[x.key] == x
    {
      MovedFrom(t, u, Old(t.frontier), Primary(Mask(hash(y.key), t.power)), y, q, i, x);
    }
  }

  /** Moving one item of the frontier bucket leaves the map as it was. */
  lemma MoveOk(hash: Key -> nat, t: Table, m: map<Key, Item>)
    requires Ok(hash, t, true, m) && t.old_[t.frontier] != []
    ensures Ok(hash, MoveOne(hash, t), true, m)
  {
    var u, y := MoveOne(hash, t), t.old_[t.frontier][0];
    var p, r := Old(t.frontier), Primary(Mask(hash(y.key), t.power));
    MoveCells(hash, t);
    MoveRepresents(hash, t, m);
    hide IsAt, MoveOne, Fits;
    MoveDistinct(t, u, p, r, y);
    MovePlaced(hash, t, u, p, r, y);
  }

  lemma FinishCells(t: Table)
    requires Shape(t) && t.expanding && t.old_[t.frontier] == []
    ensures Shape(FinishBucket(t))
    ensures forall q, i, x: Item :: IsAt(FinishBucket(t), q, i, x) ==> IsAt(t, q, i, x)
    ensures forall i, x: Item :: !IsAt(t, Old(t.frontier), i, x)
  {
  }

  lemma FinishFits(t: Table, q: Place, h: nat)
    requires Shape(t) && t.expanding && Fits(t, true, q, h) && q != Old(t.frontier)
    ensures Fits(FinishBucket(t), false, q, h)
    ensures t.frontier + 1 == |t.old_| ==> q.Primary?
  {
  }

  lemma FinishPlaced(hash: Key -> nat, t: Table)
    requires Shape(t) && t.expanding && t.old_[t.frontier] == [] && Placed(hash, t, true)
    ensures Placed(hash, FinishBucket(t), false)
  {
    var u := FinishBucket(t);
    FinishCells(t);
    hide IsAt, Fits, FinishBucket;
    forall q, i, x | IsAt(u, q, i, x)
      ensures Fits(u, false, q, hash(x.key))
    {
      FinishFits(t, q, hash(x.key));
    }
  }

  lemma FinishRepresents(hash: Key -> nat, t: Table, m: map<Key, Item>)
    requires Shape(t) && t.expanding && t.old_[t.frontier] == [] && Placed(hash, t, true) && Represents(t, m)
    ensures Represents(FinishBucket(t), m)
  {
    var u := FinishBucket(t);
    FinishCells(t);
    forall k | k in m
      ensures Present(u, m[k])
    {
      var q, i :| IsAt(t, q, i, m[k]);
      FinishFits(t, q, hash(k));
      assert IsAt(u, q, i, m[k]);
    }
  }

  /** Stepping over the emptied bucket leaves the map as it was, and nothing is left half moved. */
  lemma FinishOk(hash: Key -> nat, t: Table, m: map<Key, Item>)
    requires Ok(hash, t, true, m) && t.old_[t.frontier] == []
    ensures Ok(hash, FinishBucket(t), false, m)
  {
    FinishCells(t);
    FinishPlaced(hash, t);
    FinishRepresents(hash, t, m);
    hide IsAt, Fits, FinishBucket;
  }

  // A whole expansion

  lemma {:induction false} MoveAllOk(hash: Key -> nat, t: Table, m: map<Key, Item>)
    requires Ok(hash, t, true, m)
    ensures Ok(hash, MoveAll(hash, t), true, m)
    ensures var u := MoveAll(hash, t); u.power == t.power && |u.old_| == |t.old_|
    decreases |t.old_[t.frontier]|
  {
    hide Placed, Distinct, Represents;
    if t.old_[t.frontier] != [] {
      MoveOk(hash, t, m);
      MoveShape(hash, t);
      MoveAllOk(hash, MoveOne(hash, t), m);
    }
  }

  /** The maintenance thread's work, bucket by bucket, until it is done. */
  function MovedUp(hash: Key -> nat, t: Table): Table
    requires Shape(t)
    decreases if t.expanding then |t.old_| - t.frontier else 0
  {
    if !t.expanding then t
    else
      var u := MoveAll(hash, t);
      FinishCells(u);
      LessToMove(hash, t);
      MovedUp(hash, FinishBucket(u))
  }

  lemma LessToMove(hash: Key -> nat, t: Table)
    requires Shape(t) && t.expanding
    ensures var u := FinishBucket(MoveAll(hash, t));
      (u.expanding ==> |u.old_| - u.frontier < |t.old_| - t.frontier) && (u.expanding <==> t.frontier + 1 < |t.old_|)
  {
    hide MoveAll, Pow2;
    SameWidth(hash, t);
  }

  lemma {:induction false} SameWidth(hash: Key -> nat, t: Table)
    requires Shape(t) && t.expanding
    ensures var u := MoveAll(hash, t); u.power == t.power && |u.old_| == |t.old_|
    decreases |t.old_[t.frontier]|
  {
    hide Pow2;
    if t.old_[t.frontier] != [] {
      MoveShape(hash, t);
      SameWidth(hash, MoveOne(hash, t));
    }
  }

  lemma {:induction false} MovedUpOk(hash: Key -> nat, t: Table, m: map<Key, Item>)
    requires Ok(hash, t, false, m)
    ensures var u := MovedUp(hash, t); Ok(hash, u, false, m) && !u.expanding && u.power == t.power
    decreases if t.expanding then |t.old_| - t.frontier else 0
  {
    hide Placed, Distinct, Represents, MoveAll;
    if t.expanding {
      StartOk(hash, t, m);
      MoveAllOk(hash, t, m);
      FinishOk(hash, MoveAll(hash, t), m);
      LessToMove(hash, t);
      MovedUpOk(hash, FinishBucket(MoveAll(hash, t)), m);
    }
  }

  /** An expansion ends, with the same items in a table of twice the size. */
  lemma ExpansionDoubles(hash: Key -> nat, t: Table, m: map<Key, Item>)
    requires Ok(hash, t, false, m) && !t.expanding
    ensures Shape(Expanded(t))
    ensures var u := MovedUp(hash, Expanded(t));
      Ok(hash, u, false, m) && !u.expanding && |u.primary| == 2 * |t.primary|
  {
    ExpandOk(hash, t, m);
    hide Placed, Distinct, Represents, MovedUp;
    MovedUpOk(hash, Expanded(t), m);
  }
}
