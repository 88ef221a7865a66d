/** Item locks: worker threads, and the maintenance thread that moves buckets under a single lock. */
module ItemLocks {
  import opened Basics
  import opened Assoc

  // Sizing the lock table

  function LockPower(threads: nat): (power: nat)
    ensures 10 <= power <= 15
    ensures (power == 10 <==> threads <= 2) && (power == 13 <==> 5 <= threads <= 10) && (power == 15 <==> threads > 20)
    ensures threads == 3 ==> power == 11
    ensures threads == 4 ==> power == 12
  {
    if threads < 3 then 10
    else if threads < 4 then 11
    else if threads < 5 then 12
    else if threads <= 10 then 13
    else if threads <= 20 then 14
    else 15
  }

  /** The process exits unless the hash table is strictly the wider of the two. */
  function Setup(threads: nat, hashpower: nat): Option<nat> {
    if LockPower(threads) >= hashpower then None else Some(LockPower(threads))
  }

  // Threads, locks and the table

  datatype Owner = Worker(id: nat) | Maintenance

  datatype Phase = Idle | Moving | Unlocking(lock: nat)

  datatype State = State(t: Table, lockPower: nat, owner: map<nat, Owner>, phase: Phase)

  datatype Event =
    | ItemLock(w: nat, hv: nat)
    | ItemUnlock(w: nat, hv: nat)
    | Insert(w: nat, it: Item)
    | Delete(w: nat, key: Key)
    | TryLock
    | Move
    | Finish
    | TryUnlock
    | Expand(allocationOk: bool)

  function LockOf(s: State, hv: nat): nat {
    Mask(hv, s.lockPower)
  }

  predicate Holds(s: State, o: Owner, hv: nat) {
    LockOf(s, hv) in s.owner && s.owner[LockOf(s, hv)] == o
  }

  /** What the calling code observes before each step: a worker locks before it touches an item,
      inserts only absent keys and deletes only present ones, the maintenance thread moves items only
      after a successful trylock, and expansion starts with every other thread paused. */
  ghost predicate Enabled(hash: Key -> nat, s: State, e: Event)
    requires Shape(s.t)
  {
    match e
    case ItemLock(w, hv) => LockOf(s, hv) !in s.owner
    case ItemUnlock(w, hv) => Holds(s, Worker(w), hv)
    case Insert(w, it) => Holds(s, Worker(w), hash(it.key)) && forall x <- ChainOf(s.t, hash(it.key)) :: x.key != it.key
    case Delete(w, key) => Holds(s, Worker(w), hash(key)) && exists x <- ChainOf(s.t, hash(key)) :: x.key == key
    case TryLock => s.phase.Idle? && s.t.expanding && LockOf(s, s.t.frontier) !in s.owner
    case Move => s.phase.Moving? && s.t.expanding && s.t.old_[s.t.frontier] != []
    case Finish => s.phase.Moving? && s.t.expanding && s.t.old_[s.t.frontier] == []
    case TryUnlock => s.phase.Unlocking?
    case Expand(_) => s.phase.Idle? && !s.t.expanding && s.owner == map[]
  }

  ghost function Apply(hash: Key -> nat, s: State, e: Event): State
    requires Shape(s.t) && Enabled(hash, s, e)
  {
    match e
    case ItemLock(w, hv) => s.(owner := s.owner[LockOf(s, hv) := Worker(w)])
    case ItemUnlock(w, hv) => s.(owner := s.owner - {LockOf(s, hv)})
    case Insert(w, it) => s.(t := Inserted(s.t, it, hash(it.key)))
    case Delete(w, key) => s.(t := Deleted(s.t, key, hash(key)))
    case TryLock => s.(owner := s.owner[LockOf(s, s.t.frontier) := Maintenance], phase := Moving)
    case Move => s.(t := MoveOne(hash, s.t))
    case Finish => s.(t := FinishBucket(s.t), phase := Unlocking(LockOf(s, s.t.frontier)))
    case TryUnlock => s.(owner := s.owner - {s.phase.lock}, phase := Idle)
    case Expand(ok) => if ok then s.(t := Expanded(s.t)) else s
  }

  /** The plain map the table stands for: only inserts and deletes touch it. */
  function MapAfter(m: map<Key, Item>, e: Event): map<Key, Item> {
    match e
    case Insert(w, it) => m[it.key := it]
    case Delete(w, key) => m - {key}
    case _ => m
  }

  ghost predicate LocksOk(s: State) {
    s.lockPower < (if s.t.expanding then s.t.power - 1 else s.t.power) &&
    (s.phase.Moving? ==> s.t.expanding && Holds(s, Maintenance, s.t.frontier)) &&
    (s.phase.Unlocking? ==> s.phase.lock in s.owner && s.owner[s.phase.lock] == Maintenance)
  }

  ghost predicate Inv(hash: Key -> nat, s: State, m: map<Key, Item>) {
    Ok(hash, s.t, s.phase.Moving?, m) && LocksOk(s)
  }

  // The lock index is a low-bit prefix of the bucket index in both tables

  lemma PlaceFixesLock(s: State, a: nat, b: nat)
    requires Shape(s.t) && LocksOk(s) && PlaceOf(s.t, a) == PlaceOf(s.t, b)
    ensures LockOf(s, a) == LockOf(s, b)
  {
    hide Mask;
    var n := if PlaceOf(s.t, a).Old? then s.t.power - 1 else s.t.power;
    MaskMask(a, s.lockPower, n);
    MaskMask(b, s.lockPower, n);
  }

  lemma BucketFixesLock(s: State, hv: nat)
    requires LocksOk(s) && s.t.expanding && Mask(hv, s.t.power - 1) == s.t.frontier
    ensures LockOf(s, hv) == LockOf(s, s.t.frontier)
  {
    hide Mask;
    MaskMask(hv, s.lockPower, s.t.power - 1);
  }

  /** A bucket a worker has locked is not the one being moved. */
  lemma LockedIsSettled(s: State, w: nat, hv: nat)
    requires Shape(s.t) && LocksOk(s) && Holds(s, Worker(w), hv)
    ensures Settled(s.t, s.phase.Moving?, hv)
  {
    if s.phase.Moving? && Mask(hv, s.t.power - 1) == s.t.frontier {
      BucketFixesLock(s, hv);
    }
  }

  /** What a worker reads under its lock is what the map holds, in every phase of an expansion. */
  lemma LookupIsMap(hash: Key -> nat, s: State, m: map<Key, Item>, w: nat, k: Key)
    requires Inv(hash, s, m) && Holds(s, Worker(w), hash(k))
    ensures k in m ==> m[k] in ChainOf(s.t, hash(k))
    ensures forall x <- ChainOf(s.t, hash(k)) :: x.key == k ==> k in m && m[k] == x
  {
    LockedIsSettled(s, w, hash(k));
    ChainHoldsKey(hash, s.t, s.phase.Moving?, m, k);
  }

  // Every step keeps the invariant

  lemma InsertStep(hash: Key -> nat, s: State, m: map<Key, Item>, w: nat, it: Item)
    requires Inv(hash, s, m) && Enabled(hash, s, Insert(w, it))
    ensures Inv(hash, Apply(hash, s, Insert(w, it)), m[it.key := it])
  {
    LookupIsMap(hash, s, m, w, it.key);
    assert it.key !in m;
    InsertOk(hash, s.t, s.phase.Moving?, m, it);
    hide Ok, Mask;
  }

  lemma DeleteStep(hash: Key -> nat, s: State, m: map<Key, Item>, w: nat, key: Key)
    requires Inv(hash, s, m) && Enabled(hash, s, Delete(w, key))
    ensures Inv(hash, Apply(hash, s, Delete(w, key)), m - {key})
  {
    LockedIsSettled(s, w, hash(key));
    LookupIsMap(hash, s, m, w, key);
    assert key in m;
    DeleteOk(hash, s.t, s.phase.Moving?, m, key);
    hide Ok, Mask;
  }

  lemma StepKeeps(hash: Key -> nat, s: State, m: map<Key, Item>, e: Event)
    requires Inv(hash, s, m) && Enabled(hash, s, e)
    ensures Inv(hash, Apply(hash, s, e), MapAfter(m, e))
  {
    assert Shape(s.t);
    match e
    case ItemLock(w, hv) =>
      hide Ok, Mask;
    case ItemUnlock(w, hv) =>
      hide Ok, Mask;
    case Insert(w, it) =>
      InsertStep(hash, s, m, w, it);
    case Delete(w, key) =>
      DeleteStep(hash, s, m, w, key);
    case TryLock =>
      StartOk(hash, s.t, m);
      hide Ok, Mask;
    case Move =>
      MoveOk(hash, s.t, m);
      hide Ok, Mask;
    case Finish =>
      FinishOk(hash, s.t, m);
      hide Ok, Mask;
    case TryUnlock =>
      hide Ok, Mask;
    case Expand(ok) =>
      ExpandOk(hash, s.t, m);
      hide Ok, Mask;
  }

  // Runs

  lemma StepShape(hash: Key -> nat, s: State, e: Event)
    requires Shape(s.t) && Enabled(hash, s, e)
    ensures Shape(Apply(hash, s, e).t)
  {
    hide Mask, Without;
  }

  ghost predicate IsRun(hash: Key -> nat, s: State, es: seq<Event>)
    requires Shape(s.t)
    decreases es
  {
    es == [] ||
    (Enabled(hash, s, es[0]) && (StepShape(hash, s, es[0]); IsRun(hash, Apply(hash, s, es[0]), es[1..])))
  }

  ghost function Run(hash: Key -> nat, s: State, es: seq<Event>): (r: State)
    requires Shape(s.t) && IsRun(hash, s, es)
    ensures Shape(r.t)
    decreases es
  {
    if es == [] then s else (StepShape(hash, s, es[0]); Run(hash, Apply(hash, s, es[0]), es[1..]))
  }

  function Replay(m: map<Key, Item>, es: seq<Event>): map<Key, Item>
    decreases es
  {
    if es == [] then m else Replay(MapAfter(m, es[0]), es[1..])
  }

  /** Over every interleaving, the table is the map that the inserts and deletes alone build. */
  lemma {:induction false} RunRefinesMap(hash: Key -> nat, s: State, m: map<Key, Item>, es: seq<Event>)
    requires Inv(hash, s, m) && IsRun(hash, s, es)
    ensures Inv(hash, Run(hash, s, es), Replay(m, es))
    decreases es
  {
    hide Inv, Enabled, Apply, Shape, MapAfter;
    if es != [] {
      ShapeOf(hash, s, m);
      StepShape(hash, s, es[0]);
      StepKeeps(hash, s, m, es[0]);
      RunRefinesMap(hash, Apply(hash, s, es[0]), MapAfter(m, es[0]), es[1..]);
    }
  }

  lemma ShapeOf(hash: Key -> nat, s: State, m: map<Key, Item>)
    requires Inv(hash, s, m)
    ensures Shape(s.t)
  {
  }

  /** The empty table `assoc_init` makes, under the lock table the thread setup accepts. */
  function Start(hashpower: nat, lockPower: nat): State {
    State(Table(hashpower, false, 0, [], seq(Pow2(hashpower), i => [])), lockPower, map[], Idle)
  }

  lemma StartIsOk(hash: Key -> nat, threads: nat, hashpower: nat)
    requires Setup(threads, hashpower).Some?
    ensures Inv(hash, Start(hashpower, Setup(threads, hashpower).value), map[])
  {
  }

  /** From start-up on, every thread that holds a key's lock reads the map's value for the key. */
  lemma EveryLookupIsRight(hash: Key -> nat, threads: nat, hashpower: nat, es: seq<Event>, w: nat, k: Key)
    requires Setup(threads, hashpower).Some?
    requires var s := Start(hashpower, Setup(threads, hashpower).value);
      Shape(s.t) && IsRun(hash, s, es) && Holds(Run(hash, s, es), Worker(w), hash(k))
    ensures var s, m := Run(hash, Start(hashpower, Setup(threads, hashpower).value), es), Replay(map[], es);
      (k in m ==> m[k] in ChainOf(s.t, hash(k))) &&
      forall x <- ChainOf(s.t, hash(k)) :: x.key == k ==> k in m && m[k] == x
  {
    var s := Start(hashpower, Setup(threads, hashpower).value);
    StartIsOk(hash, threads, hashpower);
    hide Start, Inv, Run, Replay, Shape, IsRun, Holds;
    RunRefinesMap(hash, s, map[], es);
    LookupIsMap(hash, Run(hash, s, es), Replay(map[], es), w, k);
  }

  // What a lock protects

  ghost predicate By(e: Event, w: nat) {
    (e.ItemLock? || e.ItemUnlock? || e.Insert? || e.Delete?) && e.w == w
  }

  /** The bucket a hash value resolves to and the whole chain in it. */
  ghost predicate SameView(t: Table, u: Table, hv: nat) {
    Shape(t) && Shape(u) && PlaceOf(t, hv) == PlaceOf(u, hv) && ChainOf(t, hv) == ChainOf(u, hv)
  }

  lemma OtherChain(t: Table, p: Place, chain: seq<Item>, hv: nat)
    requires Shape(t) && p.bucket < Count(t, p) && p != PlaceOf(t, hv)
    ensures SameView(t, WithChain(t, p, chain), hv)
  {
  }

  lemma MoveSpares(hash: Key -> nat, s: State, m: map<Key, Item>, hv: nat)
    requires Inv(hash, s, m) && Enabled(hash, s, Move) && LockOf(s, hv) != LockOf(s, s.t.frontier)
    ensures SameView(s.t, MoveOne(hash, s.t), hv)
  {
    var t := s.t;
    var y := t.old_[t.frontier][0];
    assert IsAt(t, Old(t.frontier), 0, y);
    assert Mask(hash(y.key), t.power - 1) == t.frontier;
    BucketFixesLock(s, hash(y.key));
    var b := Mask(hash(y.key), t.power);
    if PlaceOf(t, hv) == Primary(b) {
      MaskMask(hv, s.lockPower, t.power);
      MaskMask(hash(y.key), s.lockPower, t.power);
    } else if PlaceOf(t, hv) == Old(t.frontier) {
      BucketFixesLock(s, hv);
    }
    hide Mask;
  }

  lemma FinishSpares(hash: Key -> nat, s: State, m: map<Key, Item>, hv: nat)
    requires Inv(hash, s, m) && Enabled(hash, s, Finish) && LockOf(s, hv) != LockOf(s, s.t.frontier)
    ensures SameView(s.t, FinishBucket(s.t), hv)
  {
    if Mask(hv, s.t.power - 1) == s.t.frontier {
      BucketFixesLock(s, hv);
    }
    FinishCells(s.t);
    hide Mask;
  }

  /** No step of another thread changes the bucket, or anything in the chain, that a held lock covers;
      a migration step included. */
  lemma Undisturbed(hash: Key -> nat, s: State, m: map<Key, Item>, e: Event, w: nat, hv: nat)
    requires Inv(hash, s, m) && Enabled(hash, s, e) && Holds(s, Worker(w), hv) && !By(e, w)
    ensures Holds(Apply(hash, s, e), Worker(w), hv)
    ensures SameView(s.t, Apply(hash, s, e).t, hv)
  {
    match e
    case ItemLock(v, h) =>
    case ItemUnlock(v, h) =>
    case Insert(v, it) =>
      if PlaceOf(s.t, hash(it.key)) == PlaceOf(s.t, hv) { PlaceFixesLock(s, hash(it.key), hv); }
      OtherChain(s.t, PlaceOf(s.t, hash(it.key)), [it] + ChainOf(s.t, hash(it.key)), hv);
    case Delete(v, key) =>
      if PlaceOf(s.t, hash(key)) == PlaceOf(s.t, hv) { PlaceFixesLock(s, hash(key), hv); }
      OtherChain(s.t, PlaceOf(s.t, hash(key)), Without(ChainOf(s.t, hash(key)), key), hv);
    case TryLock =>
    case Move => MoveSpares(hash, s, m, hv);
    case Finish => FinishSpares(hash, s, m, hv);
    case TryUnlock =>
    case Expand(ok) =>
  }

  /** The same over any number of steps of other threads. */
  lemma {:induction false} UndisturbedRun(hash: Key -> nat, s: State, m: map<Key, Item>, es: seq<Event>, w: nat,
      hv: nat)
    requires Inv(hash, s, m) && IsRun(hash, s, es) && Holds(s, Worker(w), hv) && forall e <- es :: !By(e, w)
    ensures Holds(Run(hash, s, es), Worker(w), hv)
    ensures SameView(s.t, Run(hash, s, es).t, hv)
    decreases es
  {
    hide Inv, Enabled, Apply, MapAfter, Holds, By;
    ShapeOf(hash, s, m);
    if es != [] {
      StepKeeps(hash, s, m, es[0]);
      Undisturbed(hash, s, m, es[0], w, hv);
      UndisturbedRun(hash, Apply(hash, s, es[0]), MapAfter(m, es[0]), es[1..], w, hv);
    }
  }

  // A whole expansion

  ghost predicate Reaches(hash: Key -> nat, s: State, es: seq<Event>, r: State) {
    Shape(s.t) && IsRun(hash, s, es) && Run(hash, s, es) == r
  }

  lemma StepThen(hash: Key -> nat, s: State, e: Event, es: seq<Event>, r: State)
    requires Shape(s.t) && Enabled(hash, s, e) && Reaches(hash, Apply(hash, s, e), es, r)
    ensures Reaches(hash, s, [e] + es, r)
  {
    hide Shape, Enabled, Apply;
    StepShape(hash, s, e);
    assert ([e] + es)[1..] == es;
  }

  lemma {:induction false} MovesReach(hash: Key -> nat, s: State, es: seq<Event>, r: State) returns (es': seq<Event>)
    requires Shape(s.t) && s.phase == Moving && s.t.expanding && Reaches(hash, s.(t := MoveAll(hash, s.t)), es, r)
    ensures Reaches(hash, s, es', r)
    decreases |s.t.old_[s.t.frontier]|
  {
    hide Reaches, Pow2;
    if s.t.old_[s.t.frontier] == [] {
      es' := es;
    } else {
      MoveShape(hash, s.t);
      var s1 := s.(t := MoveOne(hash, s.t));
      es' := MovesReach(hash, s1, es, r);
      StepThen(hash, s, Move, es', r);
      es' := [Move] + es';
    }
  }

  lemma BucketReach(hash: Key -> nat, s: State, es: seq<Event>, r: State) returns (es': seq<Event>)
    requires Shape(s.t) && s.phase == Idle && s.t.expanding && s.owner == map[]
    requires Reaches(hash, s.(t := FinishBucket(MoveAll(hash, s.t))), es, r)
    ensures Reaches(hash, s, es', r)
  {
    hide Reaches, MoveAll, FinishBucket, Shape, Mask;
    var l := LockOf(s, s.t.frontier);
    var s1 := s.(owner := map[l := Maintenance], phase := Moving);
    var s2 := s1.(t := MoveAll(hash, s.t));
    var s3 := s2.(t := FinishBucket(s2.t), phase := Unlocking(l));
    var s4 := s.(t := FinishBucket(s2.t));
    FinishCells(s2.t);
    assert Apply(hash, s3, TryUnlock) == s4 by { assert s3.owner - {l} == map[]; }
    StepThen(hash, s3, TryUnlock, es, r);
    StepThen(hash, s2, Finish, [TryUnlock] + es, r);
    es' := MovesReach(hash, s1, [Finish] + ([TryUnlock] + es), r);
    StepThen(hash, s, TryLock, es', r);
    es' := [TryLock] + es';
  }

  lemma {:induction false} AllReach(hash: Key -> nat, s: State) returns (es: seq<Event>)
    requires Shape(s.t) && s.phase == Idle && s.owner == map[]
    ensures Reaches(hash, s, es, s.(t := MovedUp(hash, s.t)))
    decreases if s.t.expanding then |s.t.old_| - s.t.frontier else 0
  {
    hide Pow2, MoveAll, FinishBucket;
    if !s.t.expanding {
      es := [];
    } else {
      var u := MoveAll(hash, s.t);
      FinishCells(u);
      LessToMove(hash, s.t);
      es := AllReach(hash, s.(t := FinishBucket(u)));
      es := BucketReach(hash, s, es, s.(t := MovedUp(hash, s.t)));
    }
  }

  /** Once begun, an expansion that is left to the maintenance thread ends, with no lock held and the same items in a
      table of twice the size. */
  lemma ExpansionEnds(hash: Key -> nat, s: State, m: map<Key, Item>) returns (es: seq<Event>, r: State)
    requires Inv(hash, s, m) && s.phase == Idle && !s.t.expanding && s.owner == map[]
    ensures Reaches(hash, s, es, r) && es != [] && es[0] == Expand(true)
    ensures Inv(hash, r, m) && !r.t.expanding && r.phase == Idle && r.owner == map[]
    ensures |r.t.primary| == 2 * |s.t.primary|
  {
    hide Ok, MovedUp, Reaches;
    ShapeOf(hash, s, m);
    ExpansionDoubles(hash, s.t, m);
    MovedUpWide(hash, Expanded(s.t));
    var s1 := s.(t := Expanded(s.t));
    es := AllReach(hash, s1);
    r := s1.(t := MovedUp(hash, s1.t));
    StepThen(hash, s, Expand(true), es, r);
    es := [Expand(true)] + es;
  }

  lemma {:induction false} MovedUpWide(hash: Key -> nat, t: Table)
    requires Shape(t)
    ensures var u := MovedUp(hash, t); u.power == t.power && Shape(u) && !u.expanding
    decreases if t.expanding then |t.old_| - t.frontier else 0
  {
    hide MoveAll, Pow2;
    if t.expanding {
      var u := MoveAll(hash, t);
      SameWidth(hash, t);
      FinishCells(u);
      LessToMove(hash, t);
      MovedUpWide(hash, FinishBucket(u));
    }
  }
}
