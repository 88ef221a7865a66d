/** The engine's lists as they are in memory: a page record has one `next` link, and a page is on one free list
    or bucket list at a time. */
module ExtstoreChains {
  import opened Basics
  import opened Extstore
  import opened ExtstoreInv

  function At(s: seq<nat>, i: nat): Option<nat> {
    if i < |s| then Some(s[i]) else None
  }

  /** From `head` along the links, one meets exactly `s`. */
  ghost predicate Linked(next: seq<Option<nat>>, head: Option<nat>, s: seq<nat>) {
    head == At(s, 0) && forall i {:trigger s[i]} :: 0 <= i < |s| ==> s[i] < |next| && next[s[i]] == At(s, i + 1)
  }

  lemma PushLinked(next: seq<Option<nat>>, head: Option<nat>, s: seq<nat>, p: nat)
    requires Linked(next, head, s) && p < |next| && p !in s
    ensures Linked(next[p := head], Some(p), [p] + s)
  {
    var t := [p] + s;
    forall i | 0 <= i < |t|
      ensures t[i] < |next| && next[p := head][t[i]] == At(t, i + 1)
    {
      if i > 0 { assert t[i] == s[i - 1]; }
    }
  }

  lemma PopLinked(next: seq<Option<nat>>, head: Option<nat>, s: seq<nat>)
    requires Linked(next, head, s) && s != []
    ensures s[0] < |next| && head == Some(s[0]) && Linked(next, next[s[0]], s[1..])
  {
    var t := s[1..];
    forall i | 0 <= i < |t|
      ensures t[i] < |next| && next[t[i]] == At(t, i + 1)
    {
      assert t[i] == s[i + 1];
    }
  }

  lemma ElsewhereLinked(next: seq<Option<nat>>, head: Option<nat>, s: seq<nat>, p: nat, to: Option<nat>)
    requires Linked(next, head, s) && p !in s && p < |next|
    ensures Linked(next[p := to], head, s)
  {
    forall i | 0 <= i < |s|
      ensures s[i] < |next| && next[p := to][s[i]] == At(s, i + 1)
    {
      assert s[i] in s;
    }
  }

  lemma CutLinked(next: seq<Option<nat>>, head: Option<nat>, s: seq<nat>, i: nat)
    requires Linked(next, head, s) && NoRepeats(s) && i < |s|
    ensures s[i] < |next| && (i > 0 ==> s[i - 1] < |next| && s[i - 1] != s[i])
    ensures var t := s[..i] + s[i + 1..];
      if i == 0 then Linked(next[s[0] := None], next[s[0]], t)
      else Linked(next[s[i - 1] := next[s[i]]][s[i] := None], head, t)
  {
    if i == 0 {
      TakeLinked(next, head, s);
      assert s[..0] + s[1..] == s[1..];
    } else {
      CutAfter(next, head, s, i);
    }
  }

  /** A page behind another. */
  lemma CutAfter(next: seq<Option<nat>>, head: Option<nat>, s: seq<nat>, i: nat)
    requires Linked(next, head, s) && NoRepeats(s) && 0 < i < |s|
    ensures s[i] < |next| && s[i - 1] < |next| && s[i - 1] != s[i]
    ensures Linked(next[s[i - 1] := next[s[i]]][s[i] := None], head, s[..i] + s[i + 1..])
  {
    var t := s[..i] + s[i + 1..];
    var next' := next[s[i - 1] := next[s[i]]][s[i] := None];
    forall j | 0 <= j < |t|
      ensures t[j] < |next| && next'[t[j]] == At(t, j + 1)
    {
      CutLink(next, head, s, i, j);
    }
  }

  /** One link of what is left. */
  lemma CutLink(next: seq<Option<nat>>, head: Option<nat>, s: seq<nat>, i: nat, j: nat)
    requires Linked(next, head, s) && NoRepeats(s) && 0 < i < |s| && j < |s| - 1
    ensures s[i] < |next| && s[i - 1] < |next| && s[i - 1] != s[i]
    ensures var t := s[..i] + s[i + 1..];
      t[j] < |next| && next[s[i - 1] := next[s[i]]][s[i] := None][t[j]] == At(t, j + 1)
  {
    var t := s[..i] + s[i + 1..];
    var k := if j < i then j else j + 1;
    assert t[j] == s[k] && s[k] != s[i];
    if k != i - 1 {
      assert s[k] != s[i - 1];
    }
    assert At(t, j + 1) == if j + 1 < i then At(s, j + 1) else At(s, j + 2);
  }

  /** Taking the first off a stack and clearing its link. */
  lemma TakeLinked(next: seq<Option<nat>>, head: Option<nat>, s: seq<nat>)
    requires Linked(next, head, s) && NoRepeats(s) && s != []
    ensures s[0] < |next| && head == Some(s[0]) && Linked(next[s[0] := None], next[s[0]], s[1..])
  {
    PopLinked(next, head, s);
    assert s[0] !in s[1..];
    ElsewhereLinked(next, next[s[0]], s[1..], s[0], None);
  }

  lemma EmptyLinked(next: seq<Option<nat>>, head: Option<nat>, s: seq<nat>)
    requires Linked(next, head, s)
    ensures head.None? <==> s == []
  {
  }

  // All lists of pages at once

  datatype Place = Free | FreeBucket(b: nat) | Bucket(b: nat)

  /** The heads, and the lists they lead to. */
  datatype Heads = Heads(free: Option<nat>, freeBuckets: seq<Option<nat>>, buckets: seq<Option<nat>>)

  datatype Lists = Lists(free: seq<nat>, freeBuckets: seq<seq<nat>>, buckets: seq<seq<nat>>)

  predicate Is(h: Heads, l: Place) {
    match l
    case Free => true
    case FreeBucket(b) => b < |h.freeBuckets|
    case Bucket(b) => b < |h.buckets|
  }

  function HeadOf(h: Heads, l: Place): Option<nat>
    requires Is(h, l)
  {
    match l
    case Free => h.free
    case FreeBucket(b) => h.freeBuckets[b]
    case Bucket(b) => h.buckets[b]
  }

  function SetHead(h: Heads, l: Place, p: Option<nat>): Heads
    requires Is(h, l)
  {
    match l
    case Free => h.(free := p)
    case FreeBucket(b) => h.(freeBuckets := h.freeBuckets[b := p])
    case Bucket(b) => h.(buckets := h.buckets[b := p])
  }

  lemma SetHeadIs(h: Heads, l: Place, p: Option<nat>)
    requires Is(h, l)
    ensures var h' := SetHead(h, l, p);
      |h'.freeBuckets| == |h.freeBuckets| && |h'.buckets| == |h.buckets| &&
      (forall m :: Is(h', m) <==> Is(h, m)) &&
      forall m :: Is(h, m) ==> HeadOf(h', m) == if m == l then p else HeadOf(h, m)
  {
  }

  function ListOf(ls: Lists, l: Place): seq<nat> {
    match l
    case Free => ls.free
    case FreeBucket(b) => if b < |ls.freeBuckets| then ls.freeBuckets[b] else []
    case Bucket(b) => if b < |ls.buckets| then ls.buckets[b] else []
  }

  predicate Has(ls: Lists, l: Place) {
    match l
    case Free => true
    case FreeBucket(b) => b < |ls.freeBuckets|
    case Bucket(b) => b < |ls.buckets|
  }

  function SetList(ls: Lists, l: Place, s: seq<nat>): Lists
    requires Has(ls, l)
  {
    match l
    case Free => ls.(free := s)
    case FreeBucket(b) => ls.(freeBuckets := ls.freeBuckets[b := s])
    case Bucket(b) => ls.(buckets := ls.buckets[b := s])
  }

  lemma SetListIs(ls: Lists, l: Place, s: seq<nat>)
    requires Has(ls, l)
    ensures var ls' := SetList(ls, l, s);
      |ls'.freeBuckets| == |ls.freeBuckets| && |ls'.buckets| == |ls.buckets| &&
      forall m :: ListOf(ls', m) == if m == l then s else ListOf(ls, m)
  {
  }

  ghost predicate Chains(next: seq<Option<nat>>, h: Heads, ls: Lists) {
    |h.freeBuckets| == |ls.freeBuckets| && |h.buckets| == |ls.buckets| &&
    forall l :: Is(h, l) ==> Linked(next, HeadOf(h, l), ListOf(ls, l))
  }

  ghost predicate Nowhere(ls: Lists, p: nat) {
    forall l :: p !in ListOf(ls, l)
  }

  /** A page is on one list at most, and there once. */
  ghost predicate Apart(ls: Lists) {
    (forall l :: NoRepeats(ListOf(ls, l))) &&
    forall l, m, p :: p in ListOf(ls, l) && p in ListOf(ls, m) ==> l == m
  }

  lemma PushChains(next: seq<Option<nat>>, h: Heads, ls: Lists, l: Place, p: nat)
    requires Chains(next, h, ls) && Is(h, l) && p < |next| && Nowhere(ls, p)
    ensures Chains(next[p := HeadOf(h, l)], SetHead(h, l, Some(p)), SetList(ls, l, [p] + ListOf(ls, l)))
  {
    var next', h', ls' := next[p := HeadOf(h, l)], SetHead(h, l, Some(p)), SetList(ls, l, [p] + ListOf(ls, l));
    SetHeadIs(h, l, Some(p));
    SetListIs(ls, l, [p] + ListOf(ls, l));
    PushLinked(next, HeadOf(h, l), ListOf(ls, l), p);
    forall m | Is(h', m)
      ensures Linked(next', HeadOf(h', m), ListOf(ls', m))
    {
      if m != l { ElsewhereLinked(next, HeadOf(h, m), ListOf(ls, m), p, HeadOf(h, l)); }
    }
  }

  lemma PopChains(next: seq<Option<nat>>, h: Heads, ls: Lists, l: Place)
    requires Chains(next, h, ls) && Is(h, l) && ListOf(ls, l) != []
    ensures var p := ListOf(ls, l)[0];
      p < |next| && HeadOf(h, l) == Some(p) && Chains(next, SetHead(h, l, next[p]), SetList(ls, l, ListOf(ls, l)[1..]))
  {
    PopLinked(next, HeadOf(h, l), ListOf(ls, l));
    var p := ListOf(ls, l)[0];
    var h', ls' := SetHead(h, l, next[p]), SetList(ls, l, ListOf(ls, l)[1..]);
    SetHeadIs(h, l, next[p]);
    SetListIs(ls, l, ListOf(ls, l)[1..]);
    forall m | Is(h', m)
      ensures Linked(next, HeadOf(h', m), ListOf(ls', m))
    {
      if m != l { assert Linked(next, HeadOf(h, m), ListOf(ls, m)); }
    }
  }

  lemma PoppedIsNowhere(ls: Lists, l: Place)
    requires Apart(ls) && ListOf(ls, l) != []
    requires Has(ls, l)
    ensures Nowhere(SetList(ls, l, ListOf(ls, l)[1..]), ListOf(ls, l)[0])
  {
    var s := ListOf(ls, l);
    SetListIs(ls, l, s[1..]);
    assert s[0] in s;
    forall m
      ensures s[0] !in ListOf(SetList(ls, l, s[1..]), m)
    {
      if m == l { assert forall i :: 0 <= i < |s[1..]| ==> s[1..][i] == s[i + 1]; }
    }
  }

  /** The links and heads after cutting position `i` out of a list. */
  ghost function CutNext(next: seq<Option<nat>>, s: seq<nat>, i: nat): seq<Option<nat>>
    requires i < |s| && s[i] < |next| && (i > 0 ==> s[i - 1] < |next|)
  {
    if i == 0 then next[s[0] := None] else next[s[i - 1] := next[s[i]]][s[i] := None]
  }

  ghost function CutHeads(h: Heads, l: Place, next: seq<Option<nat>>, s: seq<nat>, i: nat): Heads
    requires Is(h, l) && i < |s| && s[i] < |next|
  {
    if i == 0 then SetHead(h, l, next[s[0]]) else h
  }

  /** Cutting position `i` out of a list; the links of other lists do not go through it. */
  lemma CutChains(next: seq<Option<nat>>, h: Heads, ls: Lists, l: Place, i: nat)
    requires Chains(next, h, ls) && Apart(ls) && Is(h, l) && i < |ListOf(ls, l)|
    ensures var s := ListOf(ls, l);
      s[i] < |next| && (i > 0 ==> s[i - 1] < |next|) &&
      Nowhere(SetList(ls, l, s[..i] + s[i + 1..]), s[i]) &&
      Chains(CutNext(next, s, i), CutHeads(h, l, next, s, i), SetList(ls, l, s[..i] + s[i + 1..])) &&
      |CutNext(next, s, i)| == |next|
  {
    var s := ListOf(ls, l);
    CutLinked(next, HeadOf(h, l), s, i);
    var next' := if i == 0 then next[s[0] := None] else next[s[i - 1] := next[s[i]]][s[i] := None];
    var h' := if i == 0 then SetHead(h, l, next[s[0]]) else h;
    var ls' := SetList(ls, l, s[..i] + s[i + 1..]);
    SetHeadIs(h, l, next[s[0]]);
    SetListIs(ls, l, s[..i] + s[i + 1..]);
    forall m | Is(h', m)
      ensures Linked(next', HeadOf(h', m), ListOf(ls', m))
    {
      if m != l { CutElsewhere(next, HeadOf(h, m), ListOf(ls, m), s, i); }
    }
    CutIsNowhere(ls, l, i);
  }

  lemma CutElsewhere(next: seq<Option<nat>>, head: Option<nat>, t: seq<nat>, s: seq<nat>, i: nat)
    requires Linked(next, head, t) && i < |s| && s[i] < |next| && (i > 0 ==> s[i - 1] < |next|)
    requires forall p :: p in s ==> p !in t
    ensures Linked(if i == 0 then next[s[0] := None] else next[s[i - 1] := next[s[i]]][s[i] := None], head, t)
  {
    if i == 0 {
      ElsewhereLinked(next, head, t, s[0], None);
    } else {
      ElsewhereLinked(next, head, t, s[i - 1], next[s[i]]);
      ElsewhereLinked(next[s[i - 1] := next[s[i]]], head, t, s[i], None);
    }
  }

  lemma CutIsNowhere(ls: Lists, l: Place, i: nat)
    requires Apart(ls) && i < |ListOf(ls, l)|
    requires Has(ls, l)
    ensures var s := ListOf(ls, l); Nowhere(SetList(ls, l, s[..i] + s[i + 1..]), s[i])
  {
    var s := ListOf(ls, l);
    var t := s[..i] + s[i + 1..];
    forall j | 0 <= j < |t|
      ensures t[j] != s[i]
    {
      assert t[j] == s[if j < i then j else j + 1];
    }
    assert s[i] in s;
    SetListIs(ls, l, t);
  }

  /** In a safe state the lists are apart. */
  lemma ListsApart(s: State)
    requires Inv(s)
    ensures Apart(Lists(s.freeList, s.freeBuckets, s.buckets))
  {
    hide AllPagesOk, VersionsOk, WbufsOk, FlushesOk, IosOk, ReadsOk, RefcountsOk, WritersOk, MaintOk, HistoryOk, Shape;
    ListsOkApart(s.pages, s.freeList, s.freeBuckets, s.buckets, s.pageFree);
  }

  lemma ListsOkApart(pages: seq<Page>, freeList: seq<nat>, freeBuckets: seq<seq<nat>>, buckets: seq<seq<nat>>,
      pageFree: nat)
    requires ListsOk(pages, freeList, freeBuckets, buckets, pageFree)
    ensures Apart(Lists(freeList, freeBuckets, buckets))
  {
    var ls := Lists(freeList, freeBuckets, buckets);
    forall l
      ensures NoRepeats(ListOf(ls, l)) && forall p :: p in ListOf(ls, l) ==> Named(pages, l, p)
    {
      match l
      case Free =>
      case FreeBucket(b) => if b < |freeBuckets| { assert FreeBucketOk(pages, b, freeBuckets[b]); }
      case Bucket(b) => if b < |buckets| { assert BucketOk(pages, b, buckets[b]); }
    }
  }

  /** The list that the page's own fields name. */
  ghost predicate Named(pages: seq<Page>, l: Place, p: nat) {
    match l
    case Free => FreeIn(pages, p, 0)
    case FreeBucket(b) => b != 0 && FreeIn(pages, p, b)
    case Bucket(b) => OpenIn(pages, p, b)
  }
}
