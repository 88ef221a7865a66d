/** Storing and changing values under compare-and-swap ids. */
module CasStore {
  import opened Basics
  import opened Flatten
  import opened Numbers
  import ChunkCopy

  type Key = seq<byte>

  /** A linked item: its data, ending in CRLF, and its CAS id (0 when ids are switched off).  `large`
      marks items whose data is in chunks or in external storage, `external` those in external storage. */
  datatype Entry = Entry(
    value: seq<byte>, cas: nat, exptime: int, stale: bool, tokenSent: bool, large: bool, external: bool)

  /** An item that a client has fetched and not yet let go of: its data and its id as they are now, and
      whether it is still the linked one.  The client sends the data and reads the id after the item lock
      has been released. */
  datatype Held = Held(key: Key, value: seq<byte>, cas: nat, linked: bool)

  datatype Cache = Cache(entries: map<Key, Entry>, casId: nat, useCas: bool, held: map<nat, Held>)

  datatype Command = Add | Set | Replace | Append | Prepend | Cas

  datatype Stored = NotStored | Stored | Exists | NotFound

  datatype CasResult = CasNone | CasMatch | CasBadval | CasStale

  // Linking draws an id

  /** `get_cas_id` when ids are in use. */
  function NextId(c: Cache): nat {
    if c.useCas then c.casId + 1 else 0
  }

  /** Whoever holds the key's item holds an unlinked one from now on. */
  function Displaced(held: map<nat, Held>, k: Key): map<nat, Held> {
    map h | h in held :: if held[h].key == k then held[h].(linked := false) else held[h]
  }

  /** The key's linked item gets another id, under the eyes of those who hold it. */
  function Restamped(held: map<nat, Held>, k: Key, id: nat): map<nat, Held> {
    map h | h in held :: if held[h].key == k && held[h].linked then held[h].(cas := id) else held[h]
  }

  function Counted(c: Cache): nat {
    if c.useCas then c.casId + 1 else c.casId
  }

  /** `do_item_link`, in place of whatever was under the key. */
  function Linked(c: Cache, k: Key, e: Entry): Cache {
    c.(entries := c.entries[k := e.(cas := NextId(c))], casId := Counted(c), held := Displaced(c.held, k))
  }

  /** The linked item is changed where it is. */
  function Stamped(c: Cache, k: Key, e: Entry): Cache {
    c.(entries := c.entries[k := e.(cas := NextId(c))], casId := Counted(c), held := Restamped(c.held, k, NextId(c)))
  }

  /** The end of `storage_write`: a header item takes the place of the item whose data went to external storage,
      and with it the id, although linking has drawn another. */
  function Exported(c: Cache, k: Key): Cache
    requires k in c.entries
  {
    c.(entries := c.entries[k := c.entries[k].(stale := false, tokenSent := false, large := true, external := true)],
       casId := Counted(c), held := Displaced(c.held, k))
  }

  /** `do_item_unlink`. */
  function Removed(c: Cache, k: Key): Cache {
    c.(entries := c.entries - {k}, held := Displaced(c.held, k))
  }

  // What a store does

  /** A store request: the new item with the id the client sent, and what the allocator answers. */
  datatype Request = Request(key: Key, item: Entry, comm: Command, setStale: bool, memory: bool, copied: bool)

  /** The id the request compares; without ids in use, items carry none. */
  function RequestId(c: Cache, q: Request): nat {
    if c.useCas then q.item.cas else 0
  }

  function Compare(c: Cache, q: Request, was: Entry): CasResult {
    var id := RequestId(c, q);
    if id == 0 then CasNone
    else if id == was.cas then CasMatch
    else if q.setStale && id < was.cas then CasStale
    else CasBadval
  }

  /** What will be linked, if anything, over an item that exists. */
  function Over(c: Cache, q: Request, was: Entry): Option<Entry>
    requires |was.value| >= 2 && |q.item.value| >= 2
  {
    match q.comm
    case Add => None
    case Set => Some(q.item)
    case Replace => Some(q.item)
    case Cas =>
      (match Compare(c, q, was)
       case CasMatch => Some(q.item)
       case CasStale =>
         Some(q.item.(exptime := was.exptime, stale := true, tokenSent := q.item.tokenSent || was.tokenSent))
       case _ => None)
    case Append => Grown(c, q, was, ChunkCopy.Joined(was.value, q.item.value))
    case Prepend => Grown(c, q, was, ChunkCopy.Joined(q.item.value, was.value))
  }

  /** The item an append or a prepend makes, if the id allows it and there is memory for it. */
  function Grown(c: Cache, q: Request, was: Entry, value: seq<byte>): Option<Entry> {
    var r := Compare(c, q, was);
    if (r == CasNone || r == CasMatch) && !was.external && q.memory && q.copied
    then Some(Entry(value, 0, was.exptime, false, false, q.item.large || was.large, false))
    else None
  }

  /** What will be linked, if anything. */
  function Decided(c: Cache, q: Request): Option<Entry>
    requires |q.item.value| >= 2 && (q.key in c.entries ==> |c.entries[q.key].value| >= 2)
  {
    if q.key in c.entries then Over(c, q, c.entries[q.key])
    else if q.comm == Add || q.comm == Set then Some(q.item) else None
  }

  function Answer(c: Cache, q: Request): Stored
    requires |q.item.value| >= 2 && (q.key in c.entries ==> |c.entries[q.key].value| >= 2)
  {
    if Decided(c, q).Some? then Stored
    else if q.key in c.entries then Refused(c, q, c.entries[q.key])
    else if q.comm == Cas then NotFound
    else NotStored
  }

  /** The answer when the item that exists stays. */
  function Refused(c: Cache, q: Request, was: Entry): Stored {
    var r := Compare(c, q, was);
    if q.comm == Cas || ((q.comm == Append || q.comm == Prepend) && (r == CasBadval || r == CasStale)) then Exists
    else NotStored
  }

  function AfterStore(c: Cache, q: Request): Cache
    requires |q.item.value| >= 2 && (q.key in c.entries ==> |c.entries[q.key].value| >= 2)
  {
    var d := Decided(c, q);
    if d.Some? then Linked(c, q.key, d.value) else c
  }

  // Arithmetic on values

  datatype DeltaResult = Ok | NonNumeric | Eom | DeltaNotFound | CasMismatch

  /** `beyond` is the memory behind the item, which reading a number does not stop short of; `alone` says
      that nobody else holds the item. */
  datatype Delta = Delta(key: Key, incr: bool, delta: nat, cas: nat, beyond: seq<byte>, alone: bool, memory: bool)

  /** What the value reads as, if it is a number. */
  function NumberOf(e: Entry, d: Delta): Option<nat> {
    SafeStrtoull(CString(e.value + d.beyond))
  }

  function Computed(d: Delta, n: nat): nat {
    if d.incr then (n + d.delta) % TWO_TO_THE_64 else if d.delta > n then 0 else n - d.delta
  }

  function DeltaAnswer(c: Cache, d: Delta): DeltaResult {
    if d.key !in c.entries then DeltaNotFound else
    var e := c.entries[d.key];
    if |e.value| <= 2 || e.large then NonNumeric
    else if d.cas != 0 && e.cas != d.cas then CasMismatch
    else if NumberOf(e, d).None? then NonNumeric
    else if InPlace(e, d) || d.memory then Ok
    else Eom
  }

  predicate InPlace(e: Entry, d: Delta)
    requires NumberOf(e, d).Some?
  {
    |Itoa(Computed(d, NumberOf(e, d).value))| + 2 <= |e.value| && d.alone
  }

  /** The digits, over the old data and padded with blanks, or in an item of their own. */
  function NewValue(e: Entry, d: Delta): seq<byte>
    requires NumberOf(e, d).Some? && |e.value| >= 2
  {
    var s, n := Itoa(Computed(d, NumberOf(e, d).value)), |e.value|;
    if InPlace(e, d) then s + Spaces(n - |s| - 2) + e.value[n - 2..] else s + [13, 10]
  }

  /** Either way a fresh id is drawn.  When a new item takes the place of the old one, the old one is given
      its id too, since the answer is read from there. */
  function AfterDelta(c: Cache, d: Delta): Cache {
    if DeltaAnswer(c, d) != Ok then c else
    var e := c.entries[d.key];
    if InPlace(e, d) then Stamped(c, d.key, e.(value := NewValue(e, d)))
    else Linked(c.(held := Restamped(c.held, d.key, NextId(c))), d.key,
                Entry(NewValue(e, d), 0, e.exptime, false, false, false, false))
  }

  // Runs

  datatype Event =
    | Store(q: Request)
    | Change(d: Delta)
    | Remove(k: Key)
    | Touch(k: Key, exptime: int)
    | MarkStale(k: Key, exptime: int)
    | Export(k: Key)
    | Get(h: nat, k: Key)
    | Release(h: nat)

  ghost predicate Terminated(value: seq<byte>) {
    |value| >= 2 && value[|value| - 2..] == [13, 10]
  }

  /** Values end in CRLF, ids are unique and none is above the counter. */
  ghost predicate EntriesOk(entries: map<Key, Entry>, casId: nat, useCas: bool) {
    (forall k :: k in entries ==> Terminated(entries[k].value)) &&
    (forall k :: k in entries ==> if useCas then 0 < entries[k].cas <= casId else entries[k].cas == 0) &&
    (useCas ==> forall j, k :: j in entries && k in entries && entries[j].cas == entries[k].cas ==> j == k)
  }

  ghost predicate Inv(c: Cache) {
    EntriesOk(c.entries, c.casId, c.useCas) && forall h :: h in c.held ==> HeldOk(c, c.held[h])
  }

  /** A held item that is still linked is what is under its key. */
  ghost predicate HeldOk(c: Cache, x: Held) {
    (x.linked ==> x.key in c.entries && x.value == c.entries[x.key].value && x.cas == c.entries[x.key].cas) &&
    if c.useCas then 0 < x.cas <= c.casId else x.cas == 0
  }

  /** An item is changed in place only while nobody else holds it. */
  ghost predicate Enabled(c: Cache, e: Event) {
    match e
    case Store(q) => Terminated(q.item.value)
    case Change(d) => d.alone ==> forall h :: h in c.held && c.held[h].linked ==> c.held[h].key != d.key
    case Remove(k) => true
    case Touch(k, _) => k in c.entries
    case MarkStale(k, _) => k in c.entries
    case Export(k) => k in c.entries && !c.entries[k].external
    case Get(h, k) => h !in c.held && k in c.entries
    case Release(h) => h in c.held
  }

  /** `Remove` is a deletion, an expiry or an eviction; `MarkStale` is a meta delete that only marks. */
  ghost function Apply(c: Cache, e: Event): Cache
    requires Inv(c) && Enabled(c, e)
  {
    match e
    case Store(q) => AfterStore(c, q)
    case Change(d) => AfterDelta(c, d)
    case Remove(k) => Removed(c, k)
    case Touch(k, exptime) => c.(entries := c.entries[k := c.entries[k].(exptime := exptime)])
    case MarkStale(k, exptime) => Stamped(c, k, c.entries[k].(exptime := exptime, stale := true, tokenSent := false))
    case Export(k) => Exported(c, k)
    case Get(h, k) => c.(held := c.held[h := Held(k, c.entries[k].value, c.entries[k].cas, true)])
    case Release(h) => c.(held := c.held - {h})
  }

  lemma SetOk(c: Cache, k: Key, e: Entry)
    requires EntriesOk(c.entries, c.casId, c.useCas) && Terminated(e.value)
    ensures EntriesOk(c.entries[k := e.(cas := NextId(c))], Counted(c), c.useCas)
  {
    hide Terminated;
  }

  lemma LinkKeeps(c: Cache, k: Key, e: Entry)
    requires Inv(c) && Terminated(e.value)
    ensures Inv(Linked(c, k, e))
  {
    SetOk(c, k, e);
    hide EntriesOk;
  }

  lemma DecidedOk(c: Cache, q: Request)
    requires Inv(c) && Terminated(q.item.value) && Decided(c, q).Some?
    ensures Terminated(Decided(c, q).value.value)
  {
    if q.key in c.entries {
      EntryOk(c, q.key);
      JoinedEnds(c.entries[q.key].value, q.item.value);
      JoinedEnds(q.item.value, c.entries[q.key].value);
      hide Inv, Terminated, ChunkCopy.Joined;
    }
  }

  lemma JoinedEnds(a: seq<byte>, b: seq<byte>)
    requires |a| >= 2 && Terminated(b)
    ensures Terminated(ChunkCopy.Joined(a, b))
  {
    assert ChunkCopy.Joined(a, b)[|a| - 2 + |b| - 2..] == b[|b| - 2..];
  }

  lemma EntryOk(c: Cache, k: Key)
    requires Inv(c) && k in c.entries
    ensures Terminated(c.entries[k].value)
  {
  }

  lemma NewValueEnds(e: Entry, d: Delta)
    requires NumberOf(e, d).Some? && Terminated(e.value)
    ensures Terminated(NewValue(e, d))
  {
    hide NumberOf, Itoa, Spaces;
  }

  lemma StampKeeps(c: Cache, k: Key, e: Entry)
    requires Inv(c) && Terminated(e.value) && k in c.entries
    requires e.value == c.entries[k].value || forall h :: h in c.held && c.held[h].linked ==> c.held[h].key != k
    ensures Inv(Stamped(c, k, e))
  {
    SetOk(c, k, e);
    hide EntriesOk;
  }

  /** Held items of the key have the id that is about to be issued, and then a new item takes it. */
  lemma ReplaceKeeps(c: Cache, k: Key, e: Entry)
    requires Inv(c) && Terminated(e.value)
    ensures Inv(Linked(c.(held := Restamped(c.held, k, NextId(c))), k, e))
  {
    SetOk(c, k, e);
    hide EntriesOk;
    var d := Linked(c.(held := Restamped(c.held, k, NextId(c))), k, e);
    forall h | h in d.held
      ensures HeldOk(d, d.held[h])
    {
      var x := c.held[h];
      assert HeldOk(c, x);
      if x.key == k {
        assert d.held[h] == (if x.linked then x.(cas := NextId(c), linked := false) else x);
      } else {
        assert d.held[h] == x;
      }
    }
  }

  lemma ChangeKeeps(c: Cache, d: Delta)
    requires Inv(c) && Enabled(c, Change(d))
    ensures Inv(AfterDelta(c, d))
  {
    hide Inv, Linked, Stamped, NewValue, NumberOf, Restamped;
    if DeltaAnswer(c, d) == Ok {
      var x := c.entries[d.key];
      EntryOk(c, d.key);
      NewValueEnds(x, d);
      if InPlace(x, d) {
        StampKeeps(c, d.key, x.(value := NewValue(x, d)));
      } else {
        ReplaceKeeps(c, d.key, Entry(NewValue(x, d), 0, x.exptime, false, false, false, false));
      }
    }
  }

  lemma OtherKeeps(c: Cache, e: Event)
    requires Inv(c) && Enabled(c, e) && (e.Remove? || e.Touch? || e.Export? || e.Get? || e.Release?)
    ensures Inv(Apply(c, e))
  {
    hide Terminated;
    if e.Export? {
      hide Inv;
      ExportKeeps(c, e.k);
    } else if e.Remove? || e.Touch? {
      var d := Apply(c, e);
      assert EntriesOk(d.entries, d.casId, d.useCas);
      hide EntriesOk;
    } else {
      hide EntriesOk;
    }
  }

  lemma ExportKeeps(c: Cache, k: Key)
    requires Inv(c) && k in c.entries
    ensures Inv(Exported(c, k))
  {
    hide Terminated;
    var d := Exported(c, k);
    assert EntriesOk(d.entries, d.casId, d.useCas);
    hide EntriesOk;
  }

  lemma StoreKeeps(c: Cache, q: Request)
    requires Inv(c) && Enabled(c, Store(q)) && (q.key in c.entries ==> |c.entries[q.key].value| >= 2)
    ensures Inv(AfterStore(c, q))
  {
    hide Inv, Decided, Linked;
    if Decided(c, q).Some? {
      DecidedOk(c, q);
      LinkKeeps(c, q.key, Decided(c, q).value);
    }
  }

  lemma StepKeeps(c: Cache, e: Event)
    requires Inv(c) && Enabled(c, e)
    ensures Inv(Apply(c, e))
  {
    if e.Remove? || e.Touch? || e.Export? || e.Get? || e.Release? {
      OtherKeeps(c, e);
    } else {
      hide AfterStore, AfterDelta, Stamped;
      match e
      case Store(q) =>
        if q.key in c.entries { EntryOk(c, q.key); }
        hide Inv;
        StoreKeeps(c, q);
      case Change(d) =>
        hide Inv;
        ChangeKeeps(c, d);
      case MarkStale(k, exptime) =>
        EntryOk(c, k);
        hide Inv;
        StampKeeps(c, k, c.entries[k].(exptime := exptime, stale := true, tokenSent := false));
    }
  }

  ghost predicate Kept(c: Cache, d: Cache, k: Key) {
    k in c.entries && k in d.entries && d.entries[k].cas == c.entries[k].cas && d.entries[k].value == c.entries[k].value
  }

  /** Every step that puts a new value under a key gives it an id above all that came before. */
  lemma StepDrawsIds(c: Cache, e: Event, k: Key)
    requires Inv(c) && Enabled(c, e) && c.useCas
    ensures var d := Apply(c, e);
      d.useCas && d.casId >= c.casId &&
      (k in d.entries ==> d.entries[k].cas > c.casId || Kept(c, d, k))
  {
    hide Decided, NewValue, Inv;
  }

  // Tokens

  ghost predicate IsRun(c: Cache, es: seq<Event>)
    requires Inv(c)
    decreases es
  {
    es == [] || (Enabled(c, es[0]) && (StepKeeps(c, es[0]); IsRun(Apply(c, es[0]), es[1..])))
  }

  ghost function Run(c: Cache, es: seq<Event>): (d: Cache)
    requires Inv(c) && IsRun(c, es)
    ensures Inv(d)
    decreases es
  {
    if es == [] then c else (StepKeeps(c, es[0]); Run(Apply(c, es[0]), es[1..]))
  }

  /** The key has kept this value and this id in every state of the run. */
  ghost predicate Unchanged(c: Cache, es: seq<Event>, k: Key, value: seq<byte>, id: nat)
    requires Inv(c) && IsRun(c, es)
    decreases es
  {
    k in c.entries && c.entries[k].value == value && c.entries[k].cas == id &&
    (es == [] || (StepKeeps(c, es[0]); Unchanged(Apply(c, es[0]), es[1..], k, value, id)))
  }

  /** An id that was issued and is not under the key will not come to be under it. */
  lemma {:induction false} GoneForGood(c: Cache, es: seq<Event>, k: Key, id: nat)
    requires Inv(c) && IsRun(c, es) && c.useCas && id <= c.casId && (k in c.entries ==> c.entries[k].cas != id)
    ensures var d := Run(c, es); d.useCas && (k in d.entries ==> d.entries[k].cas != id)
    decreases es
  {
    hide Inv, Enabled, Apply;
    if es != [] {
      StepKeeps(c, es[0]);
      StepDrawsIds(c, es[0], k);
      GoneForGood(Apply(c, es[0]), es[1..], k, id);
    }
  }

  lemma {:induction false} TokenTells(c: Cache, es: seq<Event>, k: Key)
    requires Inv(c) && IsRun(c, es) && c.useCas && k in c.entries
    ensures var d, t := Run(c, es), c.entries[k].cas;
      d.useCas && (k in d.entries && d.entries[k].cas == t <==> Unchanged(c, es, k, c.entries[k].value, t))
    decreases es
  {
    var t := c.entries[k].cas;
    assert t <= c.casId;
    hide Inv, Enabled, Apply;
    if es != [] {
      var d := Apply(c, es[0]);
      StepKeeps(c, es[0]);
      StepDrawsIds(c, es[0], k);
      if k in d.entries && d.entries[k].cas == t {
        TokenTells(d, es[1..], k);
      } else {
        GoneForGood(d, es[1..], k, t);
        NotUnchanged(d, es[1..], k, c.entries[k].value, t);
      }
    }
  }

  lemma NotUnchanged(c: Cache, es: seq<Event>, k: Key, value: seq<byte>, id: nat)
    requires Inv(c) && IsRun(c, es) && !(k in c.entries && c.entries[k].cas == id)
    ensures !Unchanged(c, es, k, value, id)
  {
  }

  /** A token read from a key, whatever happens after: a cas store with it succeeds exactly if the key has
      kept the value and the id all the while. */
  lemma CasStoresIffUnchanged(c: Cache, es: seq<Event>, q: Request)
    requires Inv(c) && IsRun(c, es) && c.useCas && q.key in c.entries && |q.item.value| >= 2
    requires q.comm == Cas && !q.setStale && q.item.cas == c.entries[q.key].cas
    ensures var d := Run(c, es);
      (q.key in d.entries ==> |d.entries[q.key].value| >= 2) &&
      (Answer(d, q) == Stored <==> Unchanged(c, es, q.key, c.entries[q.key].value, c.entries[q.key].cas))
  {
    TokenTells(c, es, q.key);
    var d := Run(c, es);
    assert q.item.cas != 0;
    hide Run, IsRun, Unchanged, Apply;
  }

  /** Without ids nothing ever matches, and a cas store is refused. */
  lemma NoIdsNoCas(c: Cache, q: Request)
    requires Inv(c) && !c.useCas && q.comm == Cas && |q.item.value| >= 2
    ensures (q.key in c.entries ==> |c.entries[q.key].value| >= 2) && Answer(c, q) != Stored
  {
  }

  /** The id under a key never falls back below one that it has had. */
  lemma {:induction false} IdsGrow(c: Cache, es: seq<Event>, k: Key, id: nat)
    requires Inv(c) && IsRun(c, es) && c.useCas && id <= c.casId && (k in c.entries ==> c.entries[k].cas >= id)
    ensures var d := Run(c, es); d.useCas && (k in d.entries ==> d.entries[k].cas >= id)
    decreases es
  {
    hide Inv, Enabled, Apply;
    if es != [] {
      StepKeeps(c, es[0]);
      StepDrawsIds(c, es[0], k);
      IdsGrow(Apply(c, es[0]), es[1..], k, id);
    }
  }

  /** With the stale option, whatever has happened since the token was read: the store succeeds exactly if
      there still is an item under the key, and the result is marked exactly if that item's id has moved on;
      it then keeps the item's time. */
  lemma StaleStoresIff(c: Cache, es: seq<Event>, q: Request)
    requires Inv(c) && IsRun(c, es) && c.useCas && q.key in c.entries && |q.item.value| >= 2
    requires q.comm == Cas && q.setStale && !q.item.stale && q.item.cas == c.entries[q.key].cas
    ensures var d := Run(c, es);
      (q.key in d.entries ==> |d.entries[q.key].value| >= 2) &&
      (Answer(d, q) == Stored <==> q.key in d.entries) &&
      (q.key in d.entries ==>
         var was, now := d.entries[q.key], AfterStore(d, q).entries[q.key];
         now.value == q.item.value && now.cas == d.casId + 1 && (now.stale <==> was.cas != q.item.cas) &&
         now.exptime == if now.stale then was.exptime else q.item.exptime)
  {
    assert 0 < q.item.cas <= c.casId;
    IdsGrow(c, es, q.key, q.item.cas);
    var d := Run(c, es);
    hide Run, IsRun, Apply;
    if q.key in d.entries { ValueOk(d, q.key); }
  }

  // The operations as they run

  lemma ValueOk(c: Cache, k: Key)
    requires Inv(c) && k in c.entries
    ensures |c.entries[k].value| >= 2
  {
  }

  /** An item in memory, which the hash table and any number of clients may refer to. */
  class Item {
    const key: Key
    var value: seq<byte>
    var cas: nat
    var exptime: int
    var stale: bool
    var tokenSent: bool
    var large: bool
    var external: bool

    constructor (key: Key, e: Entry)
      ensures this.key == key && Now() == e
    {
      this.key, value, cas, exptime := key, e.value, e.cas, e.exptime;
      stale, tokenSent, large, external := e.stale, e.tokenSent, e.large, e.external;
    }

    function Now(): Entry
      reads this
    {
      Entry(value, cas, exptime, stale, tokenSent, large, external)
    }
  }

  class Store {
    const useCas: bool
    var entries: map<Key, Item>
    var casId: nat
    /** The items that clients hold. */
    var held: map<nat, Item>

    function Holds(x: Item): Held
      reads this`entries, x
    {
      Held(x.key, x.value, x.cas, x.key in entries && entries[x.key] == x)
    }

    ghost function Table(): map<Key, Entry>
      reads this`entries, entries.Values
    {
      map k | k in entries :: entries[k].Now()
    }

    ghost function Holders(): map<nat, Held>
      reads this`entries, this`held, held.Values
    {
      map h | h in held :: Holds(held[h])
    }

    ghost function View(): Cache
      reads this, entries.Values, held.Values
    {
      Cache(Table(), casId, useCas, Holders())
    }

    ghost predicate Keyed()
      reads this, entries.Values
    {
      forall k :: k in entries ==> entries[k].key == k
    }

    ghost predicate Valid()
      reads this, entries.Values, held.Values
    {
      Keyed() && Inv(View())
    }

    constructor (useCas: bool)
      ensures Valid() && entries == map[] && held == map[] && casId == 0 && this.useCas == useCas
    {
      this.useCas, entries, casId, held := useCas, map[], 0, map[];
    }

    /** `get_cas_id`. */
    method GetCasId() returns (id: nat)
      modifies this`casId
      ensures id == casId == old(casId) + 1
    {
      casId := casId + 1;
      id := casId;
    }

    /** A new item, which nothing refers to yet, under a fresh id. */
    method Make(k: Key, e: Entry) returns (it: Item)
      modifies this`casId
      ensures fresh(it) && it.key == k && casId == old(if useCas then casId + 1 else casId)
      ensures it.Now() == e.(cas := old(if useCas then casId + 1 else 0))
    {
      it := new Item(k, e);
      it.cas := 0;
      if useCas {
        it.cas := GetCasId();
      }
    }

    /** The item takes the place of whatever was under its key. */
    method Enter(it: Item)
      requires Keyed() && forall h :: h in held ==> held[h] != it
      modifies this`entries
      ensures Keyed() && entries == old(entries)[it.key := it]
      ensures Table() == old(Table())[it.key := it.Now()] && Holders() == Displaced(old(Holders()), it.key)
    {
      entries := entries[it.key := it];
    }

    method Link(k: Key, e: Entry)
      requires Keyed()
      modifies this`entries, this`casId
      ensures Keyed() && View() == Linked(old(View()), k, e)
      ensures k in entries && fresh(entries[k]) && entries == old(entries)[k := entries[k]]
    {
      hide Displaced;
      var it := Make(k, e);
      hide Table, Holders;
      Enter(it);
    }

    /** `do_item_unlink`. */
    method Unlink(k: Key)
      requires Keyed()
      modifies this`entries
      ensures Keyed() && View() == Removed(old(View()), k)
    {
      entries := entries - {k};
      assert Table() == old(Table()) - {k};
      assert Holders() == Displaced(old(Holders()), k);
      hide Table, Holders, Displaced;
    }

    /** The end of `storage_write`: the header is linked, and then given the old item's id. */
    method PutHeader(k: Key)
      requires Valid() && k in entries && !entries[k].external
      modifies this`entries, this`casId
      ensures Valid() && View() == Apply(old(View()), Export(k))
      ensures k in entries && fresh(entries[k]) && entries == old(entries)[k := entries[k]]
    {
      hide Inv, Displaced;
      StepKeeps(View(), Export(k));
      var made := Header(k);
      hide Table, Holders;
      Enter(made);
    }

    method Header(k: Key) returns (it: Item)
      requires k in entries
      modifies this`casId
      ensures fresh(it) && it.key == k && casId == old(if useCas then casId + 1 else casId)
      ensures it.Now() == old(entries[k].Now()).(stale := false, tokenSent := false, large := true, external := true)
    {
      it := Make(k, entries[k].Now().(stale := false, tokenSent := false, large := true, external := true));
      it.cas := entries[k].cas;
    }

    /** `item_get`: the client holds the item from now on. */
    method Fetch(h: nat, k: Key)
      requires Valid() && h !in held && k in entries
      modifies this`held
      ensures Valid() && held == old(held)[h := entries[k]] && View() == Apply(old(View()), Get(h, k))
    {
      hide Inv;
      StepKeeps(View(), Get(h, k));
      held := held[h := entries[k]];
      assert Holders() == old(Holders())[h := Holds(entries[k])];
      hide Table, Holders;
    }

    /** What the client sends: the data, and the id as it is now. */
    method Answered(h: nat) returns (value: seq<byte>, token: nat)
      requires h in held
      ensures var x := View().held[h]; value == x.value && token == x.cas
    {
      value, token := held[h].value, held[h].cas;
    }

    /** `do_store_item`.  `dead` says that the item found turned out to be flushed or expired. */
    method DoStoreItem(q: Request, dead: bool) returns (stored: Stored, cas: nat)
      requires Valid() && Terminated(q.item.value)
      modifies this`entries, this`casId
      ensures Valid()
      ensures var c := if dead then Removed(old(View()), q.key) else old(View());
        (q.key in c.entries ==> |c.entries[q.key].value| >= 2) && View() == AfterStore(c, q) && stored == Answer(c, q)
      ensures stored == Stored ==> q.key in entries && cas == entries[q.key].cas
    {
      hide Inv, Linked, Removed, Decided, Answer;
      if dead {
        StepKeeps(View(), Remove(q.key));
        Unlink(q.key);
      }
      stored, cas := StoreItem(q);
    }

    /** The rest of it, with what the lookup has left. */
    method StoreItem(q: Request) returns (stored: Stored, cas: nat)
      requires Valid() && Terminated(q.item.value)
      modifies this`entries, this`casId
      ensures Valid()
      ensures var c := old(View());
        (q.key in c.entries ==> |c.entries[q.key].value| >= 2) && View() == AfterStore(c, q) && stored == Answer(c, q)
      ensures stored == Stored ==> q.key in entries && cas == entries[q.key].cas
    {
      hide Inv, Linked, Removed, Decided, Answer;
      StepKeeps(View(), Event.Store(q));
      if q.key in View().entries { ValueOk(View(), q.key); }
      var doStore, it;
      doStore, stored, it := Choose(q);
      hide View;
      cas := 0;
      if doStore {
        Link(q.key, it);
        stored, cas := Stored, entries[q.key].cas;
      }
    }

    /** What to link, if anything, and what to answer if nothing. */
    method Choose(q: Request) returns (doStore: bool, stored: Stored, it: Entry)
      requires |q.item.value| >= 2 && (q.key in View().entries ==> |View().entries[q.key].value| >= 2)
      ensures doStore <==> Decided(View(), q).Some?
      ensures if doStore then it == Decided(View(), q).value && Answer(View(), q) == Stored
              else stored == Answer(View(), q) != Stored
    {
      if q.key in entries {
        var was := entries[q.key].Now();
        assert was == View().entries[q.key];
        hide Table, Holders, Over, Compare;
        doStore, stored, it := ChooseOver(q, was);
        return;
      }
      doStore, stored, it := false, NotStored, q.item;
      match q.comm {
        case Add =>
          doStore := true;
        case Set =>
          doStore := true;
        case Cas =>
          stored := NotFound;
        case Replace =>
        case Append =>
        case Prepend =>
      }
    }

    /** The same where there is an item already. */
    method ChooseOver(q: Request, was: Entry) returns (doStore: bool, stored: Stored, it: Entry)
      requires |q.item.value| >= 2 && |was.value| >= 2
      ensures doStore <==> Over(View(), q, was).Some?
      ensures if doStore then it == Over(View(), q, was).value else stored == Refused(View(), q, was)
    {
      hide Table, Holders;
      doStore, stored, it := false, NotStored, q.item;
      var id := if useCas then it.cas else 0;
      var res;
      if id == 0 {
        res := CasNone;
      } else if id == was.cas {
        res := CasMatch;
      } else if q.setStale && id < was.cas {
        res := CasStale;
      } else {
        res := CasBadval;
      }
      match q.comm {
        case Add =>
        case Cas =>
          if res == CasMatch {
            doStore := true;
          } else if res == CasStale {
            it := it.(exptime := was.exptime, stale := true);
            if was.tokenSent {
              it := it.(tokenSent := true);
            }
            doStore := true;
          } else {
            stored := Exists;
          }
        case Append =>
          doStore, stored, it := Grow(q, was, res);
        case Prepend =>
          doStore, stored, it := Grow(q, was, res);
        case Replace =>
          doStore := true;
        case Set =>
          doStore := true;
      }
    }

    /** Append or prepend: a new item holding both values. */
    method Grow(q: Request, was: Entry, res: CasResult) returns (doStore: bool, stored: Stored, it: Entry)
      requires |q.item.value| >= 2 && |was.value| >= 2 && (q.comm == Append || q.comm == Prepend)
      requires res == Compare(View(), q, was)
      ensures doStore <==> Over(View(), q, was).Some?
      ensures doStore ==> it == Over(View(), q, was).value
      ensures !doStore ==> stored == if res == CasBadval || res == CasStale then Exists else NotStored
    {
      doStore, stored, it := false, NotStored, q.item;
      if res != CasNone && res != CasMatch {
        stored := Exists;
        return;
      }
      if was.external || !q.memory || !q.copied {
        return;
      }
      var value := if q.comm == Append then was.value[..|was.value| - 2] + q.item.value
                   else q.item.value[..|q.item.value| - 2] + was.value;
      it := Entry(value, 0, was.exptime, false, false, q.item.large || was.large, false);
      doStore := true;
    }

    /** `do_add_delta`.  `dead` says that the item found turned out to be flushed or expired. */
    method DoAddDelta(d: Delta, dead: bool) returns (result: DeltaResult, cas: nat)
      requires Valid() && Enabled(View(), Change(d))
      modifies this`entries, this`casId, entries.Values
      ensures Valid()
      ensures var c := if dead then Removed(old(View()), d.key) else old(View());
        View() == AfterDelta(c, d) && result == DeltaAnswer(c, d)
      ensures result == Ok ==> d.key in entries && cas == entries[d.key].cas
    {
      if dead {
        hide Inv, Displaced;
        StepKeeps(View(), Remove(d.key));
        Unlink(d.key);
        return DeltaNotFound, 0;
      }
      result, cas := AddDelta(d);
    }

    /** The rest of it, on an item that is neither. */
    method AddDelta(d: Delta) returns (result: DeltaResult, cas: nat)
      requires Valid() && Enabled(View(), Change(d))
      modifies this`entries, this`casId, entries.Values
      ensures Valid() && View() == AfterDelta(old(View()), d) && result == DeltaAnswer(old(View()), d)
      ensures result == Ok ==> d.key in entries && cas == entries[d.key].cas
    {
      hide Inv, Itoa, Spaces, SafeStrtoull, CString, Linked, Stamped, Restamped;
      StepKeeps(View(), Change(d));
      cas := 0;
      if d.key !in entries {
        return DeltaNotFound, 0;
      }
      var it := entries[d.key];
      if |it.value| <= 2 || it.large {
        return NonNumeric, 0;
      }
      if d.cas != 0 && it.cas != d.cas {
        return CasMismatch, 0;
      }
      var number := SafeStrtoull(CString(it.value + d.beyond));
      if number.None? {
        return NonNumeric, 0;
      }
      var value := number.value;
      if d.incr {
        value := (value + d.delta) % TWO_TO_THE_64;
      } else if d.delta > value {
        value := 0;
      } else {
        value := value - d.delta;
      }
      var buf := Itoa(value);
      var n := |it.value|;
      if |buf| + 2 <= n && d.alone {
        AloneUnheld(d);
        Overwrite(it, buf + Spaces(n - |buf| - 2) + it.value[n - 2..]);
      } else if d.memory {
        Supplant(it, Entry(buf + [13, 10], 0, it.exptime, false, false, false, false));
      } else {
        return Eom, 0;
      }
      return Ok, it.cas;
    }

    lemma AloneUnheld(d: Delta)
      requires Keyed() && Enabled(View(), Change(d)) && d.alone && d.key in entries
      ensures forall h :: h in held ==> held[h] != entries[d.key]
    {
      forall h | h in held
        ensures held[h] != entries[d.key]
      {
        assert View().held[h] == Holds(held[h]);
      }
    }

    /** The digits go over the old data, under a fresh id. */
    method Overwrite(it: Item, value: seq<byte>)
      requires Keyed() && it.key in entries && entries[it.key] == it
      requires forall h :: h in held ==> held[h] != it
      modifies this`casId, it
      ensures Keyed() && View() == Stamped(old(View()), it.key, old(it.Now()).(value := value))
      ensures it.cas == View().entries[it.key].cas
    {
      var id := 0;
      if useCas {
        id := GetCasId();
      }
      Write(it, value, id);
      HoldersElsewhere(it);
      hide Table, Holders, Restamped;
    }

    method Write(it: Item, value: seq<byte>, id: nat)
      requires Keyed() && it.key in entries && entries[it.key] == it
      requires forall h :: h in held ==> held[h] != it
      modifies it
      ensures Keyed() && Table() == old(Table())[it.key := old(it.Now()).(value := value, cas := id)]
      ensures Holders() == old(Holders()) && it.cas == id
    {
      it.cas := id;
      it.value := value;
      assert forall k :: k in entries && k != it.key ==> entries[k] != it;
    }

    /** No client holds the linked item. */
    lemma HoldersElsewhere(it: Item)
      requires it.key in entries && entries[it.key] == it && forall h :: h in held ==> held[h] != it
      ensures forall id :: Restamped(Holders(), it.key, id) == Holders()
    {
    }

    /** A new item is linked, and the old one is given its id: the answer is read from there, and so is the
        token of whoever holds the old item. */
    method Supplant(it: Item, e: Entry)
      requires Keyed() && it.key in entries && entries[it.key] == it
      modifies this`entries, this`casId, it
      ensures Keyed()
      ensures var c := old(View());
        View() == Linked(c.(held := Restamped(c.held, it.key, NextId(c))), it.key, e)
      ensures it.key in entries && it.cas == entries[it.key].cas
    {
      hide Table, Holders, Displaced, Restamped, Linked;
      LinkedIs(View(), it.key, e);
      var made := Make(it.key, e);
      TakeOver(it, made);
    }

    method TakeOver(it: Item, made: Item)
      requires Keyed() && it.key in entries && entries[it.key] == it && made.key == it.key && made != it
      requires (useCas || made.cas == 0) && forall h :: h in held ==> held[h] != made
      modifies this`entries, it`cas
      ensures Keyed() && Table() == old(Table())[it.key := old(made.Now())]
      ensures Holders() == Displaced(Restamped(old(Holders()), it.key, made.cas), it.key)
      ensures it.key in entries && entries[it.key] == made && it.cas == made.cas
    {
      hide Table, Holders, Displaced, Restamped;
      ghost var mine := set h | h in held && held[h] == it;
      MineLinked(it, mine);
      StampEither(Holders(), mine, it.key, made.cas);
      Enter(made);
      SetCas(it, if useCas then made.cas else 0, mine);
    }

    lemma MineLinked(it: Item, mine: set<nat>)
      requires Keyed() && it.key in entries && entries[it.key] == it && mine == set h | h in held && held[h] == it
      ensures mine <= Holders().Keys
      ensures forall h :: h in Holders() ==> (h in mine <==> Holders()[h].key == it.key && Holders()[h].linked)
    {
    }

    /** The id of an item that is not linked, seen by those who hold it. */
    method SetCas(it: Item, id: nat, ghost mine: set<nat>)
      requires Keyed() && (forall k :: k in entries ==> entries[k] != it) && mine == set h | h in held && held[h] == it
      modifies it`cas
      ensures Keyed() && it.cas == id && Table() == old(Table()) && Holders() == Marked(old(Holders()), mine, id)
    {
      it.cas := id;
    }
  }

  lemma LinkedIs(c: Cache, k: Key, e: Entry)
    ensures Linked(c.(held := Restamped(c.held, k, NextId(c))), k, e) ==
      Cache(c.entries[k := e.(cas := NextId(c))], Counted(c), c.useCas, Displaced(Restamped(c.held, k, NextId(c)), k))
  {
  }

  ghost function Marked(held: map<nat, Held>, mine: set<nat>, id: nat): map<nat, Held> {
    map h | h in held :: if h in mine then held[h].(cas := id) else held[h]
  }

  /** Marking the displaced holders of an item is displacing its marked holders. */
  lemma StampEither(held: map<nat, Held>, mine: set<nat>, k: Key, id: nat)
    requires forall h :: h in held ==> (h in mine <==> held[h].key == k && held[h].linked)
    ensures Marked(Displaced(held, k), mine, id) == Displaced(Restamped(held, k, id), k)
  {
  }
}
