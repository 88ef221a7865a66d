/** What each storage command answers and leaves, command by command. */
module Commands {
  import opened Basics
  import opened Flatten
  import opened Numbers
  import opened CasStore
  import opened Counters
  import ChunkCopy

  /** The id a client sent, where ids are in use; zero asks for nothing. */
  function Asked(c: Cache, q: Request): nat {
    if c.useCas then q.item.cas else 0
  }

  /** When a command stores. */
  predicate Accepted(c: Cache, q: Request) {
    var present := q.key in c.entries;
    var id := Asked(c, q);
    match q.comm
    case Set => true
    case Add => !present
    case Replace => present
    case Cas =>
      present && id != 0 && (id == c.entries[q.key].cas || (q.setStale && id < c.entries[q.key].cas))
    case Append => present && (id == 0 || id == c.entries[q.key].cas) && Extensible(c, q)
    case Prepend => present && (id == 0 || id == c.entries[q.key].cas) && Extensible(c, q)
  }

  /** The old value is at hand, and there is memory for both. */
  predicate Extensible(c: Cache, q: Request)
    requires q.key in c.entries
  {
    !c.entries[q.key].external && q.memory && q.copied
  }

  /** Stored exactly if accepted; otherwise a cas or an append that met another id says so, a cas without an item
      says that, and everything else was simply not stored. */
  lemma AnswerIs(c: Cache, q: Request)
    requires Inv(c) && Terminated(q.item.value)
    ensures q.key in c.entries ==> |c.entries[q.key].value| >= 2
    ensures Answer(c, q) ==
      if Accepted(c, q) then Stored
      else if q.key !in c.entries then (if q.comm == Cas then NotFound else NotStored)
      else if q.comm == Cas then Exists
      else if (q.comm == Append || q.comm == Prepend) && Asked(c, q) != 0 && Asked(c, q) != c.entries[q.key].cas
           then Exists
      else NotStored
  {
    if q.key in c.entries { ValueOk(c, q.key); }
    hide Inv;
  }

  /** The value that a client reads back after the command was accepted. */
  function Expected(c: Cache, q: Request): seq<byte>
    requires |q.item.value| >= 2 && (q.key in c.entries ==> |c.entries[q.key].value| >= 2)
  {
    if q.key !in c.entries then q.item.value else
    var was, now := c.entries[q.key].value, q.item.value;
    if q.comm == Append then was[..|was| - 2] + now
    else if q.comm == Prepend then now[..|now| - 2] + was
    else now
  }

  /** After an accepted command the key has the value it should have under the next id; its time is the request's,
      unless the command extends a value or stores over a newer one.  Every other key is as it was, a held item of
      the key is no longer the linked one, and a refused command changes nothing. */
  lemma StoreDoes(c: Cache, q: Request)
    requires Inv(c) && Terminated(q.item.value)
    ensures q.key in c.entries ==> |c.entries[q.key].value| >= 2
    ensures var d := AfterStore(c, q);
      if !Accepted(c, q) then d == c
      else
        q.key in d.entries && d.entries[q.key].value == Expected(c, q) && d.useCas == c.useCas &&
        d.entries[q.key].cas == (if c.useCas then c.casId + 1 else 0) &&
        d.casId == (if c.useCas then c.casId + 1 else c.casId) &&
        d.entries[q.key].exptime ==
          (if q.comm == Append || q.comm == Prepend || (q.comm == Cas && Asked(c, q) != c.entries[q.key].cas)
           then c.entries[q.key].exptime else q.item.exptime) &&
        OthersSame(c, d, q.key) && d.held.Keys == c.held.Keys &&
        forall h :: h in c.held ==>
          d.held[h] == if c.held[h].key == q.key then c.held[h].(linked := false) else c.held[h]
  {
    if q.key in c.entries { ValueOk(c, q.key); }
    hide Inv, Decided, Linked, Accepted, Expected;
    DecidedIs(c, q);
    if Accepted(c, q) {
      LinkedDoes(c, q.key, Decided(c, q).value);
    }
  }

  lemma DecidedIs(c: Cache, q: Request)
    requires |q.item.value| >= 2 && (q.key in c.entries ==> |c.entries[q.key].value| >= 2)
    ensures Decided(c, q).Some? <==> Accepted(c, q)
    ensures Accepted(c, q) ==>
      Decided(c, q).value.value == Expected(c, q) &&
      Decided(c, q).value.exptime ==
        (if q.comm == Append || q.comm == Prepend || (q.comm == Cas && Asked(c, q) != c.entries[q.key].cas)
         then c.entries[q.key].exptime else q.item.exptime)
  {
  }

  /** Storing over a newer item marks the value as stale and remembers that the token to refresh it is out; extending a
      value clears both marks; every other command takes the marks of its item. */
  lemma StoredMarks(c: Cache, q: Request)
    requires Inv(c) && Terminated(q.item.value) && Accepted(c, q)
    ensures q.key in c.entries ==> |c.entries[q.key].value| >= 2
    ensures q.key in AfterStore(c, q).entries
    ensures Marks(c, q, AfterStore(c, q).entries[q.key])
  {
    if q.key in c.entries { ValueOk(c, q.key); }
    hide Inv, Decided, Linked, Accepted, Marks, Terminated;
    DecidedMarks(c, q);
    LinkedDoes(c, q.key, Decided(c, q).value);
    SameMarks(c, q, Decided(c, q).value, AfterStore(c, q).entries[q.key]);
  }

  ghost predicate Marks(c: Cache, q: Request, now: Entry)
    requires Accepted(c, q)
  {
    var grows, late := q.comm == Append || q.comm == Prepend, q.comm == Cas && Asked(c, q) != c.entries[q.key].cas;
    (now.stale <==> late || (!grows && q.item.stale)) &&
    (now.tokenSent <==> !grows && (q.item.tokenSent || (late && c.entries[q.key].tokenSent))) &&
    (now.large <==> q.item.large || (grows && c.entries[q.key].large)) &&
    (now.external <==> !grows && q.item.external)
  }

  lemma DecidedMarks(c: Cache, q: Request)
    requires |q.item.value| >= 2 && (q.key in c.entries ==> |c.entries[q.key].value| >= 2) && Accepted(c, q)
    ensures Decided(c, q).Some? && Marks(c, q, Decided(c, q).value)
  {
    hide ChunkCopy.Joined;
  }

  lemma SameMarks(c: Cache, q: Request, e: Entry, now: Entry)
    requires Accepted(c, q) && Marks(c, q, e) && now == e.(cas := now.cas)
    ensures Marks(c, q, now)
  {
  }

  /** What linking an item under a key does to keys, ids and holders. */
  lemma LinkedDoes(c: Cache, k: Key, e: Entry)
    ensures var d := Linked(c, k, e);
      k in d.entries && d.entries[k] == e.(cas := if c.useCas then c.casId + 1 else 0) && d.useCas == c.useCas &&
      d.casId == (if c.useCas then c.casId + 1 else c.casId) && OthersSame(c, d, k) && d.held.Keys == c.held.Keys &&
      forall h :: h in c.held ==> d.held[h] == if c.held[h].key == k then c.held[h].(linked := false) else c.held[h]
  {
  }

  ghost predicate OthersSame(c: Cache, d: Cache, k: Key) {
    (forall j :: j != k ==> (j in d.entries <==> j in c.entries)) &&
    forall j :: j != k && j in c.entries ==> d.entries[j] == c.entries[j]
  }

  /** No event of the run writes the key or takes it away. */
  predicate LeftAlone(es: seq<Event>, k: Key) {
    forall e <- es :: !Writes(e, k)
  }

  /** A value once stored is what a lookup finds until the key itself is written or removed. */
  lemma {:induction false} StaysStored(c: Cache, es: seq<Event>, k: Key)
    requires Inv(c) && IsRun(c, es) && LeftAlone(es, k) && k in c.entries
    ensures k in Run(c, es).entries && Run(c, es).entries[k].value == c.entries[k].value
    decreases es
  {
    hide Inv, Enabled, Apply, Writes;
    if es != [] {
      assert es[0] in es;
      StepKeeps(c, es[0]);
      OthersSpare(c, es[0], k);
      StaysStored(Apply(c, es[0]), es[1..], k);
    }
  }

  /** From a command that is accepted to any later lookup. */
  lemma StoredIsRead(c: Cache, q: Request, es: seq<Event>)
    requires Inv(c) && Terminated(q.item.value) && Accepted(c, q)
    requires (StepKeeps(c, Event.Store(q)); IsRun(Apply(c, Event.Store(q)), es)) && LeftAlone(es, q.key)
    ensures q.key in c.entries ==> |c.entries[q.key].value| >= 2
    ensures Inv(Apply(c, Event.Store(q)))
    ensures var d := Run(Apply(c, Event.Store(q)), es);
      q.key in d.entries && d.entries[q.key].value == Expected(c, q)
  {
    hide Inv, IsRun, Run, AfterStore, Accepted, Expected;
    StepKeeps(c, Event.Store(q));
    StoreDoes(c, q);
    StaysStored(Apply(c, Event.Store(q)), es, q.key);
  }

  // Other commands

  ghost predicate SameHeld(c: Cache, d: Cache, k: Key) {
    d.held.Keys == c.held.Keys && forall h :: h in c.held && c.held[h].key != k ==> d.held[h] == c.held[h]
  }

  /** A removed key is gone and no held item is linked under it; other keys, and what is held of them, stay. */
  lemma RemoveDoes(c: Cache, k: Key)
    requires Inv(c)
    ensures var d := Apply(c, Remove(k));
      k !in d.entries && OthersSame(c, d, k) && SameHeld(c, d, k) && d.casId == c.casId &&
      forall h :: h in c.held && c.held[h].key == k ==> d.held[h] == c.held[h].(linked := false)
  {
  }

  /** A touch gives the item its time and changes nothing else. */
  lemma TouchDoes(c: Cache, k: Key, exptime: int)
    requires Inv(c) && k in c.entries
    ensures var d := Apply(c, Touch(k, exptime));
      k in d.entries && d.entries[k].exptime == exptime &&
      d.entries[k].(exptime := c.entries[k].exptime) == c.entries[k] &&
      OthersSame(c, d, k) && d.held == c.held && d.casId == c.casId
  {
  }

  /** Marking an item stale keeps its data, under the next id, and lets the token be sent again. */
  lemma MarkStaleDoes(c: Cache, k: Key, exptime: int)
    requires Inv(c) && k in c.entries
    ensures var d := Apply(c, MarkStale(k, exptime));
      k in d.entries && OthersSame(c, d, k) && SameHeld(c, d, k) &&
      var was, now := c.entries[k], d.entries[k];
      now.value == was.value && now.stale && !now.tokenSent && now.exptime == exptime && now.large == was.large &&
      now.external == was.external && now.cas == if c.useCas then c.casId + 1 else 0
  {
  }

  /** An item whose data has gone to external storage has the data, the id and the time it had. */
  lemma ExportDoes(c: Cache, k: Key)
    requires Inv(c) && k in c.entries && !c.entries[k].external
    ensures var d := Apply(c, Export(k));
      k in d.entries && OthersSame(c, d, k) && SameHeld(c, d, k) &&
      var was, now := c.entries[k], d.entries[k];
      now.value == was.value && now.cas == was.cas && now.exptime == was.exptime && now.external && now.large
  {
  }

  // Arithmetic

  /** The answers of incr and decr. */
  lemma DeltaAnswerIs(c: Cache, d: Delta)
    ensures DeltaAnswer(c, d) == DeltaNotFound <==> d.key !in c.entries
    ensures d.key in c.entries ==>
      var e := c.entries[d.key];
      var number := SafeStrtoull(CString(e.value + d.beyond));
      (DeltaAnswer(c, d) == CasMismatch <==> |e.value| > 2 && !e.large && d.cas != 0 && d.cas != e.cas) &&
      (DeltaAnswer(c, d) == NonNumeric <==>
        |e.value| <= 2 || e.large || ((d.cas == 0 || d.cas == e.cas) && number.None?)) &&
      (DeltaAnswer(c, d) == Ok || DeltaAnswer(c, d) == Eom <==>
        |e.value| > 2 && !e.large && (d.cas == 0 || d.cas == e.cas) && number.Some?) &&
      (DeltaAnswer(c, d) == Eom ==> !d.memory)
  {
    hide SafeStrtoull, CString, Itoa;
  }

  /** What an answered command leaves: the number, in place of the old data exactly if it fits there and nobody
      else holds the item, under the next id; the time stays, and so does every other key. */
  lemma DeltaDoes(c: Cache, d: Delta)
    requires Inv(c)
    ensures var e := AfterDelta(c, d);
      if DeltaAnswer(c, d) != Ok then e == c
      else
        d.key in c.entries && d.key in e.entries && |c.entries[d.key].value| >= 2 &&
        SafeStrtoull(CString(c.entries[d.key].value + d.beyond)).Some? &&
        (var was, now := c.entries[d.key], e.entries[d.key];
         now.exptime == was.exptime && now.cas == (if c.useCas then c.casId + 1 else 0) &&
         Rewritten(was.value, now.value, Result(d, SafeStrtoull(CString(was.value + d.beyond)).value), d.alone)) &&
        OthersSame(c, e, d.key)
  {
    if DeltaAnswer(c, d) == Ok {
      DeltaCase(c, d);
      ValueOk(c, d.key);
      hide Inv, Itoa, SafeStrtoull, CString, Rewritten, Result, NewValue, Linked, Stamped, InPlace, DeltaAnswer,
        AfterDelta, Restamped;
      var e := c.entries[d.key];
      NewValueIs(e, d);
      StampedDoes(c, d.key, e.(value := NewValue(e, d)));
      var c1 := c.(held := Restamped(c.held, d.key, NextId(c)));
      LinkedDoes(c1, d.key, Entry(NewValue(e, d), 0, e.exptime, false, false, false, false));
    }
  }

  /** An item changed in place keeps its marks; one that takes its place has none. */
  lemma DeltaMarks(c: Cache, d: Delta)
    requires DeltaAnswer(c, d) == Ok
    ensures d.key in c.entries && d.key in AfterDelta(c, d).entries && NumberOf(c.entries[d.key], d).Some?
    ensures var was, now := c.entries[d.key], AfterDelta(c, d).entries[d.key];
      if d.alone && |Itoa(Result(d, NumberOf(was, d).value))| + 2 <= |was.value|
      then now == was.(value := now.value, cas := now.cas)
      else !now.stale && !now.tokenSent && !now.large && !now.external
  {
    DeltaCase(c, d);
    hide NumberOf, Itoa, DeltaAnswer, AfterDelta, Restamped, NewValue;
  }

  lemma DeltaCase(c: Cache, d: Delta)
    requires DeltaAnswer(c, d) == Ok
    ensures d.key in c.entries && |c.entries[d.key].value| > 2 && NumberOf(c.entries[d.key], d).Some?
    ensures var e := c.entries[d.key];
      AfterDelta(c, d) ==
        if InPlace(e, d) then Stamped(c, d.key, e.(value := NewValue(e, d)))
        else Linked(c.(held := Restamped(c.held, d.key, NextId(c))), d.key,
                    Entry(NewValue(e, d), 0, e.exptime, false, false, false, false))
  {
    hide NumberOf, InPlace, Linked, Stamped, NewValue, Restamped;
  }

  /** Sums wrap at 2^64; differences stop at zero. */
  function Result(d: Delta, n: nat): nat {
    if d.incr then (n + d.delta) % TWO_TO_THE_64 else if d.delta > n then 0 else n - d.delta
  }

  /** The digits stand at the front: with blanks up to the old line end, or with a line end of their own. */
  ghost predicate Rewritten(was: seq<byte>, now: seq<byte>, n: nat, alone: bool) {
    var s := Itoa(n);
    if alone && |s| + 2 <= |was|
    then |now| == |was| && now[..|s|] == s && (forall i :: |s| <= i < |was| - 2 ==> now[i] == 32) &&
         now[|was| - 2..] == was[|was| - 2..]
    else now == s + [13, 10]
  }

  lemma NewValueIs(e: Entry, d: Delta)
    requires NumberOf(e, d).Some? && |e.value| >= 2
    ensures Rewritten(e.value, NewValue(e, d), Result(d, NumberOf(e, d).value), d.alone)
  {
    hide NumberOf, Itoa;
    var s, n := Itoa(Result(d, NumberOf(e, d).value)), |e.value|;
    if d.alone && |s| + 2 <= n {
      SpacesAreBlank(n - |s| - 2);
      hide Spaces;
    }
  }

  lemma {:induction false} SpacesAreBlank(n: nat)
    ensures forall i :: 0 <= i < n ==> Spaces(n)[i] == 32
  {
    if n > 0 { SpacesAreBlank(n - 1); }
  }

  lemma StampedDoes(c: Cache, k: Key, e: Entry)
    ensures var d := Stamped(c, k, e);
      k in d.entries && d.entries[k] == e.(cas := if c.useCas then c.casId + 1 else 0) && OthersSame(c, d, k)
  {
  }
}
