/** What a fetched value and its token are worth: a client holds the item it fetched, and reads the token from
    it after the item lock has been released. */
module HeldTokens {
  import opened Basics
  import opened Flatten
  import opened Numbers
  import opened CasStore
  import opened Counters

  /** The held item carries the id of what is linked, but not its value. */
  ghost predicate Crossed(c: Cache, h: nat)
    requires h in c.held
  {
    var x := c.held[h];
    x.key in c.entries && c.entries[x.key].cas == x.cas && c.entries[x.key].value != x.value
  }

  /** A cas command with the token as it reads now. */
  ghost predicate CasWith(q: Request, x: Held) {
    q.comm == Cas && !q.setStale && q.key == x.key && q.item.cas == x.cas && Terminated(q.item.value)
  }

  /** After any run, does the command store exactly if the fetched value has been current all along? */
  ghost predicate Tells(c: Cache, h: nat, es: seq<Event>, q: Request)
    requires Inv(c) && h in c.held && IsRun(c, es) && CasWith(q, c.held[h])
  {
    var x, d := c.held[h], Run(c, es);
    (q.key in d.entries ==> |d.entries[q.key].value| >= 2) &&
    (Answer(d, q) == Stored <==> Unchanged(c, es, x.key, x.value, x.cas))
  }

  lemma TokenTellsUncrossed(c: Cache, h: nat, es: seq<Event>, q: Request)
    requires Inv(c) && c.useCas && h in c.held && IsRun(c, es) && CasWith(q, c.held[h]) && !Crossed(c, h)
    ensures Tells(c, h, es, q)
  {
    var x, d := c.held[h], Run(c, es);
    assert HeldOk(c, x);
    if x.key in c.entries && c.entries[x.key].cas == x.cas {
      CasStoresIffUnchanged(c, es, q);
    } else {
      GoneForGood(c, es, x.key, x.cas);
      hide Inv, Unchanged, Run, IsRun;
      if q.key in d.entries { ValueOk(d, q.key); }
    }
  }

  /** A crossed pair stores over a value that was never fetched, for as long as that value stays. */
  lemma CrossedStores(c: Cache, h: nat, es: seq<Event>, q: Request)
    requires Inv(c) && c.useCas && h in c.held && IsRun(c, es) && CasWith(q, c.held[h]) && Crossed(c, h)
    ensures var d := Run(c, es);
      (q.key in d.entries ==> |d.entries[q.key].value| >= 2) &&
      (Answer(d, q) == Stored <==> Unchanged(c, es, q.key, c.entries[q.key].value, q.item.cas))
  {
    CasStoresIffUnchanged(c, es, q);
  }

  lemma CrossedLies(c: Cache, h: nat) returns (q: Request)
    requires Inv(c) && c.useCas && h in c.held && Crossed(c, h)
    ensures IsRun(c, []) && CasWith(q, c.held[h]) && !Tells(c, h, [], q)
  {
    var x := c.held[h];
    q := Request(x.key, Entry([13, 10], x.cas, 0, false, false, false, false), Cas, false, false, false);
    assert CasWith(q, x) && Unchanged(c, [], q.key, c.entries[q.key].value, q.item.cas);
    hide Inv;
    CrossedStores(c, h, [], q);
  }

  /** When a token can be relied on: at the moment it is read, exactly if the pair is not crossed. */
  lemma TokenTellsIff(c: Cache, h: nat)
    requires Inv(c) && c.useCas && h in c.held
    ensures (forall es, q: Request | IsRun(c, es) && CasWith(q, c.held[h]) :: Tells(c, h, es, q)) <==> !Crossed(c, h)
  {
    hide Inv, Crossed, CasWith, Tells, IsRun;
    if Crossed(c, h) {
      var q := CrossedLies(c, h);
    } else {
      forall es, q: Request | IsRun(c, es) && CasWith(q, c.held[h])
        ensures Tells(c, h, es, q)
      {
        TokenTellsUncrossed(c, h, es, q);
      }
    }
  }

  // How a pair comes to be crossed

  /** An incr or decr that puts a new item in the place of the key's. */
  ghost predicate Overtakes(c: Cache, e: Event, k: Key) {
    e.Change? && e.d.key == k && DeltaAnswer(c, e.d) == Ok && !InPlace(c.entries[k], e.d)
  }

  /** The holder does not let go. */
  predicate Keeps(es: seq<Event>, h: nat) {
    forall i :: 0 <= i < |es| ==> es[i] != Release(h)
  }

  /** Such a command put another value in the place of the held item while that was linked, and nothing has
      changed under the key since. */
  ghost predicate Swapped(c: Cache, es: seq<Event>, h: nat)
    requires Inv(c) && IsRun(c, es) && h in c.held && Keeps(es, h)
    decreases es
  {
    es != [] &&
    (StepKeeps(c, es[0]);
     StaysHeld(c, es[0], h);
     var c', k := Apply(c, es[0]), c.held[h].key;
     if c.held[h].linked && Overtakes(c, es[0], k)
     then k in c'.entries && c'.entries[k].value != c.held[h].value &&
          Unchanged(c', es[1..], k, c'.entries[k].value, c'.entries[k].cas)
     else Swapped(c', es[1..], h))
  }

  lemma StaysHeld(c: Cache, e: Event, h: nat)
    requires Inv(c) && Enabled(c, e) && h in c.held && e != Release(h)
    ensures h in Apply(c, e).held
    ensures var x, y := c.held[h], Apply(c, e).held[h];
      y.key == x.key && y.value == x.value && (x.linked || y == x) &&
      (Overtakes(c, e, x.key) && x.linked ==> !y.linked && y.cas == NextId(c)) &&
      (x.linked && !y.linked && !Overtakes(c, e, x.key) ==> y.cas == x.cas)
  {
    hide Inv, AfterStore, AfterDelta;
    if e.Store? {
      if e.q.key in c.entries { ValueOk(c, e.q.key); }
      StoreHeld(c, e.q, h);
    } else if e.Change? {
      ChangeHeld(c, e.d, h);
    } else {
      hide DeltaAnswer;
    }
  }

  lemma StoreHeld(c: Cache, q: Request, h: nat)
    requires h in c.held && |q.item.value| >= 2 && (q.key in c.entries ==> |c.entries[q.key].value| >= 2)
    ensures h in AfterStore(c, q).held
    ensures var x, y := c.held[h], AfterStore(c, q).held[h];
      y.key == x.key && y.value == x.value && (x.linked || y == x) && y.cas == x.cas
  {
    hide Decided;
  }

  lemma ChangeHeld(c: Cache, d: Delta, h: nat)
    requires Enabled(c, Change(d)) && h in c.held
    ensures h in AfterDelta(c, d).held
    ensures var x, y := c.held[h], AfterDelta(c, d).held[h];
      y.key == x.key && y.value == x.value && (x.linked || y == x) &&
      (Overtakes(c, Change(d), x.key) && x.linked ==> !y.linked && y.cas == NextId(c)) &&
      (x.linked && !y.linked && !Overtakes(c, Change(d), x.key) ==> y.cas == x.cas)
  {
    hide NewValue, NumberOf;
  }

  /** The step that swaps, if the new value is another. */
  lemma OvertakeCrosses(c: Cache, e: Event, h: nat)
    requires Inv(c) && Enabled(c, e) && h in c.held && c.held[h].linked && Overtakes(c, e, c.held[h].key)
    ensures var x, d := c.held[h], Apply(c, e);
      h in d.held && x.key in d.entries && d.entries[x.key].cas == d.held[h].cas &&
      (Crossed(d, h) <==> d.entries[x.key].value != x.value)
  {
    StaysHeld(c, e, h);
    hide Inv, NewValue, NumberOf;
  }

  /** No other step does. */
  lemma OthersDoNot(c: Cache, e: Event, h: nat)
    requires Inv(c) && c.useCas && Enabled(c, e) && h in c.held && e != Release(h) && !Crossed(c, h)
    requires !(c.held[h].linked && Overtakes(c, e, c.held[h].key))
    ensures h in Apply(c, e).held && !Crossed(Apply(c, e), h)
  {
    var x := c.held[h];
    assert HeldOk(c, x);
    StaysHeld(c, e, h);
    StepDrawsIds(c, e, x.key);
    WhenDisplaced(c, e, h);
    hide Inv, Apply, Overtakes, Enabled;
  }

  /** An item that ceases to be linked leaves its key to a younger one, to its own header, or to none. */
  lemma WhenDisplaced(c: Cache, e: Event, h: nat)
    requires Inv(c) && c.useCas && Enabled(c, e) && h in c.held && e != Release(h)
    ensures h in Apply(c, e).held
    ensures var x, d := c.held[h], Apply(c, e);
      x.linked && !d.held[h].linked && x.key in d.entries ==>
        d.entries[x.key].cas > c.casId || (e.Export? && Kept(c, d, x.key))
  {
    StaysHeld(c, e, h);
    if e.Store? {
      StoreDisplaces(c, e.q, h);
    } else if e.Change? {
      ChangeDisplaces(c, e.d, h);
    }
  }

  lemma LinkDisplaces(c: Cache, k: Key, e: Entry, h: nat)
    requires c.useCas && h in c.held
    ensures var d := Linked(c, k, e);
      h in d.held && d.held[h].key == c.held[h].key &&
      (c.held[h].linked && !d.held[h].linked ==> d.held[h].key in d.entries && d.entries[d.held[h].key].cas > c.casId)
  {
  }

  lemma StoreDisplaces(c: Cache, q: Request, h: nat)
    requires c.useCas && h in c.held && |q.item.value| >= 2 && (q.key in c.entries ==> |c.entries[q.key].value| >= 2)
    ensures var x, d := c.held[h], AfterStore(c, q);
      h in d.held && (x.linked && !d.held[h].linked && x.key in d.entries ==> d.entries[x.key].cas > c.casId)
  {
    var o := Decided(c, q);
    hide Decided, Linked;
    if o.Some? { LinkDisplaces(c, q.key, o.value, h); }
  }

  lemma ChangeDisplaces(c: Cache, d: Delta, h: nat)
    requires c.useCas && h in c.held
    ensures var x, c' := c.held[h], AfterDelta(c, d);
      h in c'.held && (x.linked && !c'.held[h].linked && x.key in c'.entries ==> c'.entries[x.key].cas > c.casId)
  {
    hide NewValue, NumberOf, InPlace, DeltaAnswer;
    if DeltaAnswer(c, d) == Ok && d.key in c.entries {
      var c1 := c.(held := Restamped(c.held, d.key, NextId(c)));
      assert forall e: Entry :: h in Linked(c1, d.key, e).held;
    }
  }

  lemma {:induction false} StaysUnlinked(c: Cache, es: seq<Event>, h: nat)
    requires Inv(c) && IsRun(c, es) && h in c.held && !c.held[h].linked && Keeps(es, h)
    ensures h in Run(c, es).held && Run(c, es).held[h] == c.held[h]
    decreases es
  {
    hide Inv, Enabled, Apply;
    if es != [] {
      StepKeeps(c, es[0]);
      StaysHeld(c, es[0], h);
      StaysUnlinked(Apply(c, es[0]), es[1..], h);
    }
  }

  /** From the fetch to the reading of the token, whatever happens: the pair is crossed exactly if an incr or
      decr replaced the held item by one of another value, and that value and its id are still there. */
  lemma {:induction false} CrossedIff(c: Cache, es: seq<Event>, h: nat)
    requires Inv(c) && c.useCas && IsRun(c, es) && h in c.held && Keeps(es, h) && !Crossed(c, h)
    ensures h in Run(c, es).held && (Crossed(Run(c, es), h) <==> Swapped(c, es, h))
    decreases es
  {
    if es != [] {
      var c', k := Apply(c, es[0]), c.held[h].key;
      StepKeeps(c, es[0]);
      StaysHeld(c, es[0], h);
      UsesCas(c, es[0]);
      if c.held[h].linked && Overtakes(c, es[0], k) {
        OvertakeCrosses(c, es[0], h);
        StaysUnlinked(c', es[1..], h);
        TokenTells(c', es[1..], k);
        RestStays(c', es[1..], k);
      } else {
        OthersDoNot(c, es[0], h);
        CrossedIff(c', es[1..], h);
      }
    }
  }

  /** Where the id is still the same, so is the value. */
  lemma RestStays(c: Cache, es: seq<Event>, k: Key)
    requires Inv(c) && c.useCas && IsRun(c, es) && k in c.entries
    ensures var d := Run(c, es);
      k in d.entries && d.entries[k].cas == c.entries[k].cas ==> d.entries[k].value == c.entries[k].value
  {
    TokenTells(c, es, k);
    if Unchanged(c, es, k, c.entries[k].value, c.entries[k].cas) {
      AtTheEnd(c, es, k, c.entries[k].value, c.entries[k].cas);
    }
  }

  lemma {:induction false} AtTheEnd(c: Cache, es: seq<Event>, k: Key, value: seq<byte>, id: nat)
    requires Inv(c) && IsRun(c, es) && Unchanged(c, es, k, value, id)
    ensures k in Run(c, es).entries && Run(c, es).entries[k].value == value && Run(c, es).entries[k].cas == id
    decreases es
  {
    hide Inv, Enabled, Apply;
    if es != [] {
      StepKeeps(c, es[0]);
      AtTheEnd(Apply(c, es[0]), es[1..], k, value, id);
    }
  }

  lemma UsesCas(c: Cache, e: Event)
    requires Inv(c) && Enabled(c, e)
    ensures Apply(c, e).useCas == c.useCas
  {
    hide Inv, Decided, NewValue, NumberOf;
  }

  /** Altogether, for a client that fetches an item and reads the token any time later: every cas with that
      pair stores exactly if the fetched value has stayed current, if and only if no incr or decr has replaced
      the item in between whose own result, another value, is still untouched. */
  lemma FetchedTokenTellsIff(c: Cache, h: nat, es: seq<Event>)
    requires Inv(c) && c.useCas && h in c.held && c.held[h].linked && IsRun(c, es) && Keeps(es, h)
    ensures var d := Run(c, es);
      h in d.held && d.held[h].value == c.held[h].value &&
      ((forall more, q: Request | IsRun(d, more) && CasWith(q, d.held[h]) :: Tells(d, h, more, q)) <==>
        !Swapped(c, es, h))
  {
    CrossedIff(c, es, h);
    RunUsesCas(c, es);
    KeepsValue(c, es, h);
    hide Inv, Swapped, Crossed, Run;
    TokenTellsIff(Run(c, es), h);
  }

  /** The data of a held item stays: it is changed in place only while nobody holds it. */
  lemma {:induction false} KeepsValue(c: Cache, es: seq<Event>, h: nat)
    requires Inv(c) && IsRun(c, es) && h in c.held && Keeps(es, h)
    ensures h in Run(c, es).held && Run(c, es).held[h].value == c.held[h].value
    decreases es
  {
    hide Inv, Enabled, Apply;
    if es != [] {
      StepKeeps(c, es[0]);
      StaysHeld(c, es[0], h);
      KeepsValue(Apply(c, es[0]), es[1..], h);
    }
  }

  lemma {:induction false} RunUsesCas(c: Cache, es: seq<Event>)
    requires Inv(c) && IsRun(c, es)
    ensures Run(c, es).useCas == c.useCas
    decreases es
  {
    hide Inv, Enabled, Apply;
    if es != [] {
      StepKeeps(c, es[0]);
      UsesCas(c, es[0]);
      RunUsesCas(Apply(c, es[0]), es[1..]);
    }
  }

  // A run that crosses

  /** A number is stored and fetched, and incremented before the token is read. */
  function Overtaken(k: Key, n: nat, d: Delta): seq<Event> {
    [Event.Store(Request(k, Entry(Itoa(n) + [13, 10], 0, 0, false, false, false, false), Set, false, false, false)),
     Get(0, k), Change(d)]
  }

  const EMPTY := Cache(map[], 0, true, map[])

  lemma OneStored(k: Key, n: nat)
    ensures var e := Overtaken(k, n, Delta(k, true, 0, 0, [], false, true))[0];
      Inv(EMPTY) && Enabled(EMPTY, e) &&
      Apply(EMPTY, e) == Cache(map[k := Entry(Itoa(n) + [13, 10], 1, 0, false, false, false, false)], 1, true, map[])
  {
    hide Itoa;
    assert EMPTY.held == map[];
    assert Displaced(EMPTY.held, k) == map[];
  }

  /** For every number below 2^63 and every increment: the client has the old number and the new one's token,
      and a cas with that pair stores over the new number, which is another unless the increment is a multiple
      of 2^64. */
  lemma OvertakenStores(k: Key, n: nat, d: Delta, q: Request)
    requires n < TWO_TO_THE_63 && d.key == k && d.incr && d.cas == 0 && !d.alone && d.memory
    requires q.comm == Cas && !q.setStale && q.key == k && q.item.cas == 2 && Terminated(q.item.value)
    ensures Inv(EMPTY) && IsRun(EMPTY, Overtaken(k, n, d))
    ensures var c := Run(EMPTY, Overtaken(k, n, d));
      k in c.entries && |c.entries[k].value| >= 2 && 0 in c.held &&
      (Crossed(c, 0) <==> (n + d.delta) % TWO_TO_THE_64 != n) &&
      c.held[0].value == Itoa(n) + [13, 10] && c.entries[k].value == Itoa((n + d.delta) % TWO_TO_THE_64) + [13, 10] &&
      CasWith(q, c.held[0]) && Answer(c, q) == Stored
  {
    hide Itoa, Apply, Enabled, IsRun, Run, NumberOf, Inv, Answer;
    var es := Overtaken(k, n, d);
    OvertakenRun(k, n, d);
    var c := Run(EMPTY, es);
    ValueOk(c, k);
    TextTells(n, (n + d.delta) % TWO_TO_THE_64);
    MatchStores(c, q);
  }

  lemma OvertakenRun(k: Key, n: nat, d: Delta)
    requires n < TWO_TO_THE_63 && d.key == k && d.incr && d.cas == 0 && !d.alone && d.memory
    ensures Inv(EMPTY) && IsRun(EMPTY, Overtaken(k, n, d))
    ensures var c := Run(EMPTY, Overtaken(k, n, d));
      k in c.entries && c.useCas && c.held == map[0 := Held(k, Itoa(n) + [13, 10], 2, false)] &&
      c.entries[k].cas == 2 && c.entries[k].value == Itoa((n + d.delta) % TWO_TO_THE_64) + [13, 10]
  {
    hide Itoa, Apply, Enabled, IsRun, Run, NumberOf, Inv;
    var es := Overtaken(k, n, d);
    OneStored(k, n);
    StepKeeps(EMPTY, es[0]);
    var c1 := Apply(EMPTY, es[0]);
    OneFetched(c1, k);
    StepKeeps(c1, es[1]);
    var c2 := Apply(c1, es[1]);
    NumberIs(c2.entries[k], n, d);
    OneOvertaken(c2, n, d);
    StepKeeps(c2, es[2]);
    ThreeSteps(EMPTY, es);
  }

  /** Two numbers are written alike only if they are the same. */
  lemma TextTells(m: nat, n: nat)
    ensures Itoa(m) + [13, 10] == Itoa(n) + [13, 10] <==> m == n
  {
    var s, t := Itoa(m), Itoa(n);
    hide Itoa, Decimal;
    ItoaIsDecimal(m);
    ItoaIsDecimal(n);
    if s + [13, 10] == t + [13, 10] {
      assert (s + [13, 10])[..|s|] == s && (t + [13, 10])[..|t|] == t;
    }
  }

  lemma MatchStores(c: Cache, q: Request)
    requires c.useCas && q.key in c.entries && |c.entries[q.key].value| >= 2 && |q.item.value| >= 2
    requires q.comm == Cas && q.item.cas == c.entries[q.key].cas != 0
    ensures Answer(c, q) == Stored
  {
  }

  lemma ThreeSteps(c: Cache, es: seq<Event>)
    requires Inv(c) && |es| == 3 && Enabled(c, es[0])
    requires Inv(Apply(c, es[0])) && Enabled(Apply(c, es[0]), es[1])
    requires Inv(Apply(Apply(c, es[0]), es[1])) && Enabled(Apply(Apply(c, es[0]), es[1]), es[2])
    requires Inv(Apply(Apply(Apply(c, es[0]), es[1]), es[2]))
    ensures IsRun(c, es) && Run(c, es) == Apply(Apply(Apply(c, es[0]), es[1]), es[2])
  {
    var c1 := Apply(c, es[0]);
    var c2 := Apply(c1, es[1]);
    hide Inv, Apply, Enabled;
    var c3 := Apply(c2, es[2]);
    assert IsRun(c3, []) && Run(c3, []) == c3;
    assert es[2..][1..] == [] && es[1..][1..] == es[2..];
    assert IsRun(c2, es[2..]) && Run(c2, es[2..]) == c3;
    assert IsRun(c1, es[1..]) && Run(c1, es[1..]) == c3;
  }

  lemma OneFetched(c: Cache, k: Key)
    requires k in c.entries && c.held == map[] && Inv(c)
    ensures Enabled(c, Get(0, k))
    ensures Apply(c, Get(0, k)) == c.(held := map[0 := Held(k, c.entries[k].value, c.entries[k].cas, true)])
  {
  }

  lemma OneOvertaken(c: Cache, n: nat, d: Delta)
    requires Inv(c) && c.useCas && d.key in c.entries && d.incr && d.cas == 0 && !d.alone && d.memory
    requires var e := c.entries[d.key]; |e.value| > 2 && !e.large && NumberOf(e, d) == Some(n)
    requires 0 in c.held && c.held[0].key == d.key && c.held[0].linked && c.held.Keys == {0}
    ensures Enabled(c, Change(d))
    ensures var c' := Apply(c, Change(d));
      d.key in c'.entries && c'.entries[d.key].cas == c.casId + 1 && c'.useCas &&
      c'.entries[d.key].value == Itoa((n + d.delta) % TWO_TO_THE_64) + [13, 10] &&
      c'.held == map[0 := c.held[0].(cas := c.casId + 1, linked := false)]
  {
    hide NumberOf, Inv, Itoa;
    var e := c.entries[d.key];
    assert DeltaAnswer(c, d) == Ok && !InPlace(e, d);
    assert NewValue(e, d) == Itoa((n + d.delta) % TWO_TO_THE_64) + [13, 10];
    hide NewValue, DeltaAnswer, InPlace, AfterDelta;
    SwapIs(c, d);
  }

  lemma NumberIs(e: Entry, n: nat, d: Delta)
    requires n < TWO_TO_THE_63 && e.value == Itoa(n) + [13, 10]
    ensures NumberOf(e, d) == Some(n)
  {
    var s := Itoa(n);
    assert e.value[..|s|] == s && e.value[|s|] == 13;
    ShownIsRead(e.value, n, d.beyond);
    hide Itoa, SafeStrtoull, CString;
  }

  /** The old item, which the client holds, takes over the new item's id. */
  lemma SwapIs(c: Cache, d: Delta)
    requires c.useCas && 0 in c.held && c.held[0].key == d.key && c.held[0].linked && c.held.Keys == {0}
    requires DeltaAnswer(c, d) == Ok && d.key in c.entries && NumberOf(c.entries[d.key], d).Some?
    requires !InPlace(c.entries[d.key], d) && |c.entries[d.key].value| >= 2
    ensures var c' := AfterDelta(c, d);
      d.key in c'.entries && c'.entries[d.key].cas == c.casId + 1 && c'.useCas &&
      c'.entries[d.key].value == NewValue(c.entries[d.key], d) &&
      c'.held == map[0 := c.held[0].(cas := c.casId + 1, linked := false)]
  {
    hide NewValue, NumberOf, DeltaAnswer, InPlace;
  }
}
