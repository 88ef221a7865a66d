/** Counters: what a sequence of incr and decr commands leaves under a key. */
module Counters {
  import opened Basics
  import opened Flatten
  import opened Numbers
  import opened CasStore

  /** Does the event write, or take away, the value of this key? */
  predicate Writes(e: Event, k: Key) {
    match e
    case Store(q) => q.key == k
    case Change(d) => d.key == k
    case Remove(x) => x == k
    case Touch(_, _) => false
    case MarkStale(_, _) => false
    case Export(_) => false
    case Get(_, _) => false
    case Release(_) => false
  }

  /** Whatever else happens, the key itself sees only arithmetic that is answered with OK. */
  ghost predicate OnlyCounts(c: Cache, es: seq<Event>, k: Key)
    requires Inv(c) && IsRun(c, es)
    decreases es
  {
    es == [] ||
    ((Writes(es[0], k) ==> es[0].Change? && DeltaAnswer(c, es[0].d) == Ok) &&
     (StepKeeps(c, es[0]); OnlyCounts(Apply(c, es[0]), es[1..], k)))
  }

  /** The arithmetic of the commands on the key, on numbers. */
  function Tally(n: nat, es: seq<Event>, k: Key): nat
    decreases es
  {
    if es == [] then n
    else Tally(if es[0].Change? && es[0].d.key == k then Computed(es[0].d, n) else n, es[1..], k)
  }

  lemma OthersSpare(c: Cache, e: Event, k: Key)
    requires Inv(c) && Enabled(c, e) && !Writes(e, k) && k in c.entries
    ensures k in Apply(c, e).entries && Apply(c, e).entries[k].value == c.entries[k].value
  {
    hide Decided, NewValue, Inv, NumberOf;
  }

  /** An answered command leaves the result under the key, in place or not, where the next one will read it. */
  lemma ResultShows(c: Cache, d: Delta)
    requires Inv(c) && DeltaAnswer(c, d) == Ok
    ensures d.key in c.entries && NumberOf(c.entries[d.key], d).Some? && d.key in AfterDelta(c, d).entries
    ensures var n := Computed(d, NumberOf(c.entries[d.key], d).value);
      n < TWO_TO_THE_64 && Shows(AfterDelta(c, d).entries[d.key].value, n)
  {
    hide Itoa, SafeStrtoull, CString;
    var e := c.entries[d.key];
    var s, n := Itoa(Computed(d, NumberOf(e, d).value)), |e.value|;
    assert Terminated(e.value);
    var v := NewValue(e, d);
    if InPlace(e, d) {
      assert v[..|s|] == s;
      if n > |s| + 2 {
        assert v[|s|] == Spaces(n - |s| - 2)[0];
      } else {
        assert v[|s|] == e.value[n - 2..][0];
      }
    } else {
      assert v[..|s|] == s && v[|s|] == 13;
    }
  }

  /** From a value that shows `n`, after any run in which the key sees only answered arithmetic, the value
      shows what the arithmetic gives: nothing is lost to padding, to a new item, or to other keys' traffic. */
  lemma {:induction false} CounterIsExact(c: Cache, es: seq<Event>, k: Key, n: nat)
    requires Inv(c) && IsRun(c, es) && OnlyCounts(c, es, k)
    requires k in c.entries && Shows(c.entries[k].value, n) && n < TWO_TO_THE_64
    ensures k in Run(c, es).entries && Shows(Run(c, es).entries[k].value, Tally(n, es, k)) &&
      Tally(n, es, k) < TWO_TO_THE_64
    decreases es
  {
    hide Inv, Enabled, Shows, DeltaAnswer;
    if es != [] {
      var e, c' := es[0], Apply(c, es[0]);
      StepKeeps(c, e);
      if Writes(e, k) {
        ShownIsRead(c.entries[k].value, n, e.d.beyond);
        ResultShows(c, e.d);
        CounterIsExact(c', es[1..], k, Computed(e.d, n));
      } else {
        OthersSpare(c, e, k);
        CounterIsExact(c', es[1..], k, n);
      }
    }
  }

  predicate OnlyIncrements(es: seq<Event>, k: Key) {
    forall e <- es :: e.Change? && e.d.key == k ==> e.d.incr
  }

  function Total(es: seq<Event>, k: Key): nat {
    if es == [] then 0 else (if es[0].Change? && es[0].d.key == k then es[0].d.delta else 0) + Total(es[1..], k)
  }

  lemma SumWraps(a: nat, b: nat)
    ensures (a % TWO_TO_THE_64 + b) % TWO_TO_THE_64 == (a + b) % TWO_TO_THE_64
  {
    assert a == TWO_TO_THE_64 * (a / TWO_TO_THE_64) + a % TWO_TO_THE_64;
  }

  /** Increments add up modulo 2^64, whatever their order. */
  lemma {:induction false} IncrementsAddUp(n: nat, es: seq<Event>, k: Key)
    requires n < TWO_TO_THE_64 && OnlyIncrements(es, k)
    ensures Tally(n, es, k) == (n + Total(es, k)) % TWO_TO_THE_64
    decreases es
  {
    if es != [] {
      if es[0].Change? && es[0].d.key == k {
        assert es[0] in es;
        SumWraps(n + es[0].d.delta, Total(es[1..], k));
        IncrementsAddUp((n + es[0].d.delta) % TWO_TO_THE_64, es[1..], k);
      } else {
        IncrementsAddUp(n, es[1..], k);
      }
    }
  }

  predicate OnlyDecrements(es: seq<Event>, k: Key) {
    forall e <- es :: e.Change? && e.d.key == k ==> !e.d.incr
  }

  /** Decrements subtract and stop at zero, whatever their order. */
  lemma {:induction false} DecrementsStopAtZero(n: nat, es: seq<Event>, k: Key)
    requires OnlyDecrements(es, k)
    ensures Tally(n, es, k) == if Total(es, k) > n then 0 else n - Total(es, k)
    decreases es
  {
    if es != [] {
      if es[0].Change? && es[0].d.key == k {
        assert es[0] in es;
        DecrementsStopAtZero(if es[0].d.delta > n then 0 else n - es[0].d.delta, es[1..], k);
      } else {
        DecrementsStopAtZero(n, es[1..], k);
      }
    }
  }
}
