/** One LRU list: items linked both ways, and a crawler node that walks among them. */
module LruList {
  import opened Basics
  import opened DoubleList

  /** An item, or the pseudo-item of the crawler. */
  class Node {
    var prev: Node?
    var next: Node?

    constructor ()
      ensures prev == null && next == null
    {
      prev, next := null, null;
    }
  }

  // Crawling

  function Reversed(s: seq<Node>): (r: seq<Node>)
    ensures |r| == |s|
    ensures forall i :: 0 <= i < |s| ==> r[i] == s[|s| - 1 - i]
  {
    if s == [] then [] else Reversed(s[1..]) + [s[0]]
  }

  /** The items of `s` with the crawler in front of the last `|s| - i` of them. */
  function Walking(s: seq<Node>, c: Node, i: nat): seq<Node>
    requires i <= |s|
  {
    s[..i] + [c] + s[i..]
  }

  lemma WalkStep(s: seq<Node>, c: Node, i: nat)
    requires 0 < i <= |s|
    ensures Swap(Walking(s, c, i), i) == Walking(s, c, i - 1) && Walking(s, c, i)[i - 1] == s[i - 1]
    ensures Reversed(s[i - 1..]) == Reversed(s[i..]) + [s[i - 1]]
  {
    assert s[i - 1..][1..] == s[i..];
  }

  lemma WalkLength(s: seq<Node>, c: Node, i: nat)
    requires i <= |s|
    ensures |Walking(s, c, i)| == |s| + 1 && (i == 0 ==> Walking(s, c, i)[1..] == s)
  {
  }

  lemma WalkingAtTail(s: seq<Node>, c: Node)
    ensures Walking(s, c, |s|) == s + [c] && Reversed(s[|s|..]) == []
  {
  }

  lemma WalkCut(s: seq<Node>, c: Node, i: nat)
    requires i <= |s|
    ensures Walking(s, c, i)[i] == c && Cut(Walking(s, c, i), i) == s
  {
    assert s[..i] + s[i..] == s;
  }

  // Crawling while others link and unlink

  datatype Event = Link(it: Node) | Unlink(it: Node) | Step

  /** The list with the crawler in it, and how often each item has been looked at since it was linked. */
  datatype Walk = Walk(list: seq<Node>, looks: map<Node, nat>)

  ghost predicate Enabled(w: Walk, c: Node, e: Event) {
    c in w.list &&
    match e
    case Link(x) => x !in w.list
    case Unlink(x) => x in w.list && x != c
    case Step => IndexOf(w.list, c) > 0
  }

  ghost function Apply(w: Walk, c: Node, e: Event): Walk
    requires Enabled(w, c, e)
  {
    match e
    case Link(x) => Walk([x] + w.list, w.looks[x := 0])
    case Unlink(x) => w.(list := Cut(w.list, IndexOf(w.list, x)))
    case Step =>
      var i := IndexOf(w.list, c);
      var x := w.list[i - 1];
      Walk(Swap(w.list, i), w.looks[x := 1 + if x in w.looks then w.looks[x] else 0])
  }

  /** Whatever the crawler has passed has been looked at once; whatever is in front of it, not yet. */
  ghost predicate OnceBehind(w: Walk, c: Node) {
    NoRepeats(w.list) && c in w.list &&
    forall j :: 0 <= j < |w.list| && w.list[j] != c ==>
      w.list[j] in w.looks && w.looks[w.list[j]] == if j < IndexOf(w.list, c) then 0 else 1
  }

  lemma LinkOnce(w: Walk, c: Node, x: Node)
    requires OnceBehind(w, c) && Enabled(w, c, Link(x))
    ensures OnceBehind(Apply(w, c, Link(x)), c)
  {
    var u, i := Apply(w, c, Link(x)), IndexOf(w.list, c);
    assert u.list[i + 1] == c;
    IndexIs(u.list, c, i + 1);
    hide IndexOf;
    forall j | 0 <= j < |u.list| && u.list[j] != c
      ensures u.list[j] in u.looks && u.looks[u.list[j]] == if j < i + 1 then 0 else 1
    {
      if j > 0 {
        assert u.list[j] == w.list[j - 1];
      }
    }
  }

  lemma UnlinkOnce(w: Walk, c: Node, x: Node)
    requires OnceBehind(w, c) && Enabled(w, c, Unlink(x))
    ensures OnceBehind(Apply(w, c, Unlink(x)), c)
  {
    var u, i, k := Apply(w, c, Unlink(x)), IndexOf(w.list, c), IndexOf(w.list, x);
    CutNoRepeats(w.list, k);
    var i' := if i < k then i else i - 1;
    CutAt(w.list, k, i');
    IndexIs(u.list, c, i');
    hide IndexOf;
    forall j | 0 <= j < |u.list| && u.list[j] != c
      ensures u.list[j] in u.looks && u.looks[u.list[j]] == if j < i' then 0 else 1
    {
      CutAt(w.list, k, j);
    }
  }

  lemma StepOnce(w: Walk, c: Node)
    requires OnceBehind(w, c) && Enabled(w, c, Step)
    ensures OnceBehind(Apply(w, c, Step), c)
  {
    var u, i := Apply(w, c, Step), IndexOf(w.list, c);
    SwapNoRepeats(w.list, i);
    SwapAt(w.list, i, i - 1);
    IndexIs(u.list, c, i - 1);
    hide IndexOf;
    forall j | 0 <= j < |u.list| && u.list[j] != c
      ensures u.list[j] in u.looks && u.looks[u.list[j]] == if j < i - 1 then 0 else 1
    {
      SwapAt(w.list, i, j);
    }
  }

  ghost predicate IsRun(w: Walk, c: Node, es: seq<Event>)
    decreases es
  {
    es == [] || (Enabled(w, c, es[0]) && IsRun(Apply(w, c, es[0]), c, es[1..]))
  }

  ghost function Run(w: Walk, c: Node, es: seq<Event>): Walk
    requires IsRun(w, c, es)
    decreases es
  {
    if es == [] then w else Run(Apply(w, c, es[0]), c, es[1..])
  }

  lemma {:induction false} RunOnce(w: Walk, c: Node, es: seq<Event>)
    requires OnceBehind(w, c) && IsRun(w, c, es)
    ensures OnceBehind(Run(w, c, es), c)
    decreases es
  {
    if es != [] {
      match es[0] {
        case Link(x) => LinkOnce(w, c, x);
        case Unlink(x) => UnlinkOnce(w, c, x);
        case Step => StepOnce(w, c);
      }
      hide OnceBehind, Enabled, Apply;
      RunOnce(Apply(w, c, es[0]), c, es[1..]);
    }
  }

  /** The crawler joins at the tail; whatever is linked and unlinked around it, when it reaches the
      head every item in the list has been looked at exactly once since it was linked. */
  lemma CrawlSeesAll(items: seq<Node>, c: Node, es: seq<Event>, looks: map<Node, nat>)
    requires NoRepeats(items + [c]) && forall x <- items :: x in looks && looks[x] == 0
    requires IsRun(Walk(items + [c], looks), c, es)
    ensures var w := Run(Walk(items + [c], looks), c, es);
      OnceBehind(w, c) && (IndexOf(w.list, c) == 0 ==> forall x <- w.list :: x != c ==> x in w.looks && w.looks[x] == 1)
  {
    var w := Walk(items + [c], looks);
    IndexIs(w.list, c, |items|);
    RunOnce(w, c, es);
  }

  /** The list without its crawler. */
  ghost function Others(w: Walk, c: Node): seq<Node>
    requires c in w.list
  {
    Cut(w.list, IndexOf(w.list, c))
  }

  /** What the list would be had there been no crawler. */
  ghost function Plain(s: seq<Node>, es: seq<Event>): seq<Node>
    decreases es
  {
    if es == [] then s
    else match es[0]
      case Link(x) => Plain([x] + s, es[1..])
      case Unlink(x) => Plain(if x in s then Cut(s, IndexOf(s, x)) else s, es[1..])
      case Step => Plain(s, es[1..])
  }

  lemma LinkOthers(w: Walk, c: Node, x: Node)
    requires OnceBehind(w, c) && Enabled(w, c, Link(x))
    ensures Others(Apply(w, c, Link(x)), c) == [x] + Others(w, c)
  {
    var u, i := Apply(w, c, Link(x)), IndexOf(w.list, c);
    assert u.list[i + 1] == c;
    LinkOnce(w, c, x);
    IndexIs(u.list, c, i + 1);
  }

  lemma CutTwice(s: seq<Node>, i: nat, k: nat)
    requires i < |s| && k < |s| && i != k
    ensures Cut(Cut(s, k), if i < k then i else i - 1) == Cut(Cut(s, i), if k < i then k else k - 1)
  {
    if i < k {
      assert Cut(Cut(s, k), i) == s[..i] + s[i + 1..k] + s[k + 1..];
    } else {
      assert Cut(Cut(s, k), i - 1) == s[..k] + s[k + 1..i] + s[i + 1..];
    }
  }

  lemma UnlinkOthers(w: Walk, c: Node, x: Node)
    requires OnceBehind(w, c) && Enabled(w, c, Unlink(x))
    ensures x in Others(w, c) && Others(Apply(w, c, Unlink(x)), c) == Cut(Others(w, c), IndexOf(Others(w, c), x))
  {
    var u, i, k := Apply(w, c, Unlink(x)), IndexOf(w.list, c), IndexOf(w.list, x);
    var i', k' := if i < k then i else i - 1, if k < i then k else k - 1;
    CutNoRepeats(w.list, k);
    CutNoRepeats(w.list, i);
    CutAt(w.list, k, i');
    CutAt(w.list, i, k');
    IndexIs(u.list, c, i');
    IndexIs(Others(w, c), x, k');
    CutTwice(w.list, i, k);
  }

  lemma StepOthers(w: Walk, c: Node)
    requires OnceBehind(w, c) && Enabled(w, c, Step)
    ensures c in Apply(w, c, Step).list && Others(Apply(w, c, Step), c) == Others(w, c)
  {
    var u, i := Apply(w, c, Step), IndexOf(w.list, c);
    SwapNoRepeats(w.list, i);
    SwapAt(w.list, i, i - 1);
    IndexIs(u.list, c, i - 1);
  }

  /** The crawler never changes the order, or the number, of the others. */
  lemma {:induction false} OthersUndisturbed(w: Walk, c: Node, es: seq<Event>)
    requires OnceBehind(w, c) && IsRun(w, c, es)
    ensures c in Run(w, c, es).list && Others(Run(w, c, es), c) == Plain(Others(w, c), es)
    decreases es
  {
    if es != [] {
      match es[0] {
        case Link(x) => LinkOnce(w, c, x); LinkOthers(w, c, x);
        case Unlink(x) => UnlinkOnce(w, c, x); UnlinkOthers(w, c, x);
        case Step => StepOnce(w, c); StepOthers(w, c);
      }
      hide Apply, Enabled, Others;
      OthersUndisturbed(Apply(w, c, es[0]), c, es[1..]);
    }
  }

  // The list in memory

  ghost function Opt(x: Node?): Option<Node> {
    if x == null then None else var y: Node := x; Some(y)
  }

  ghost function Nexts(nodes: set<Node>): map<Node, Option<Node>>
    reads nodes`next
  {
    map x | x in nodes :: Opt(x.next)
  }

  ghost function Prevs(nodes: set<Node>): map<Node, Option<Node>>
    reads nodes`prev
  {
    map x | x in nodes :: Opt(x.prev)
  }

  /** `heads`, `tails` and `sizes` at one `slabs_clsid`. */
  class List {
    var head: Node?
    var tail: Node?
    var size: int

    /** The nodes in order, and the footprint: these and perhaps a crawler that has left the list. */
    ghost var list: seq<Node>
    ghost var nodes: set<Node>

    ghost function Now(): Mem<Node>
      reads this, nodes
    {
      Mem(Opt(head), Opt(tail), Nexts(nodes), Prevs(nodes))
    }

    ghost predicate Valid()
      reads this, nodes
    {
      Holds(Now(), list)
    }

    constructor ()
      ensures Valid() && list == [] && nodes == {} && size == 0
    {
      head, tail, size := null, null, 0;
      list, nodes := [], {};
    }

    lemma Footprint(x: Node)
      requires Valid() && x in list
      ensures x in nodes
    {
      var i :| 0 <= i < |list| && list[i] == x;
      assert list[i] in Nexts(nodes);
    }

    lemma Ends()
      requires Valid()
      ensures head == null <==> tail == null
      ensures head != null ==> head in nodes && head in list && head.prev == null
      ensures tail != null ==> tail in nodes && tail in list && tail.next == null
    {
      if list != [] {
        Footprint(list[0]);
        Footprint(list[|list| - 1]);
      }
    }

    // Single writes, and what they do to the memory as a whole

    method SetNext(x: Node, v: Node?)
      requires x in nodes
      modifies x`next
      ensures x.next == v && Now() == old(Now()).(next := old(Now()).next[x := Opt(v)])
    {
      x.next := v;
    }

    method SetPrev(x: Node, v: Node?)
      requires x in nodes
      modifies x`prev
      ensures x.prev == v && Now() == old(Now()).(prev := old(Now()).prev[x := Opt(v)])
    {
      x.prev := v;
    }

    method SetBoth(x: Node, p: Node?, n: Node?)
      modifies x, this`nodes
      ensures nodes == old(nodes) + {x} && x.prev == p && x.next == n
      ensures Now() == old(Now()).(next := old(Now()).next[x := Opt(n)], prev := old(Now()).prev[x := Opt(p)])
    {
      hide Opt;
      x.prev := p;
      x.next := n;
      nodes := nodes + {x};
      assert Nexts(nodes) == old(Nexts(nodes))[x := Opt(n)];
      assert Prevs(nodes) == old(Prevs(nodes))[x := Opt(p)];
    }

    /** `do_item_link_q`: the new head. */
    method LinkQ(it: Node)
      requires Valid() && it !in list
      modifies this, it, nodes
      ensures Valid() && list == [it] + old(list) && nodes == old(nodes) + {it} && size == old(size) + 1
    {
      hide Holds, Nexts, Prevs;
      LinkFirstHolds(Now(), list, it);
      Ends();
      SetBoth(it, null, head);
      if it.next != null {
        SetPrev(it.next, it);
      }
      head := it;
      if tail == null {
        tail := it;
      }
      size := size + 1;
      list := [it] + list;
    }

    /** `do_item_linktail_q`: the crawler becomes the new tail; it is not counted. */
    method LinkTailQ(it: Node)
      requires Valid() && it !in list
      modifies this, it, nodes
      ensures Valid() && list == old(list) + [it] && nodes == old(nodes) + {it} && size == old(size)
    {
      hide Holds, Nexts, Prevs;
      LinkLastHolds(Now(), list, it);
      Ends();
      SetBoth(it, tail, null);
      if it.prev != null {
        assert it.prev.next == null;
        SetNext(it.prev, it);
      }
      tail := it;
      if head == null {
        head := it;
      }
      list := list + [it];
    }

    lemma Around(it: Node, i: nat)
      requires Valid() && i < |list| && list[i] == it
      ensures it in nodes && Opt(it.next) == At(list, i + 1) && Opt(it.prev) == At(list, i - 1)
      ensures it in Now().next && it in Now().prev && Now().next[it] == Opt(it.next) && Now().prev[it] == Opt(it.prev)
      ensures it.next != null ==> it.next in nodes && it.next.prev == it
      ensures it.prev != null ==> it.prev in nodes && it.prev.next == it
      ensures it.prev != it && it.next != it && (head == it <==> i == 0) && (tail == it <==> i == |list| - 1)
    {
      Footprint(it);
      assert it in Nexts(nodes) && it in Prevs(nodes);
      if i + 1 < |list| { Footprint(list[i + 1]); }
      if i > 0 { Footprint(list[i - 1]); }
    }

    /** A crawler that `do_item_crawl_q` has popped off the head: outside the list, its links left over. */
    ghost predicate Popped(it: Node)
      reads this, nodes
    {
      it in nodes && it !in list && it.prev == null && it.next == head && head != null
    }

    /** `do_item_unlinktail_q`.  The crawler is at position `i`, or has been popped already. */
    method UnlinkTailQ(it: Node, ghost i: nat)
      requires Valid() && (if i < |list| then list[i] == it else Popped(it))
      modifies this`head, this`tail, this`list, nodes
      ensures Valid() && list == if i < |old(list)| then Cut(old(list), i) else old(list)
    {
      hide Holds, Nexts, Prevs;
      Ends();
      if i < |list| {
        UnlinkHolds(Now(), list, i);
        Around(it, i);
      } else {
        SameHead();
      }
      if head == it {
        assert it.prev == null;
        head := it.next;
      }
      if tail == it {
        assert it.next == null;
        tail := it.prev;
      }
      assert it.next != it && it.prev != it;
      if it.next != null {
        SetPrev(it.next, it.prev);
      }
      if it.prev != null {
        SetNext(it.prev, it.next);
      }
      list := if i < |list| then Cut(list, i) else list;
    }

    lemma SameHead()
      requires Valid()
      ensures head != null ==> head in nodes && Now().prev[head := None] == Now().prev
    {
      Ends();
    }

    /** `do_item_unlink_q`. */
    method UnlinkQ(it: Node, ghost i: nat)
      requires Valid() && i < |list| && list[i] == it
      modifies this`head, this`tail, this`list, this`size, nodes
      ensures Valid() && list == Cut(old(list), i) && size == old(size) - 1
    {
      hide Holds, Nexts, Prevs;
      UnlinkTailQ(it, i);
      size := size - 1;
    }

    lemma SwingFacts(it: Node, i: nat)
      requires Valid() && 0 < i < |list| && list[i] == it
      ensures it in nodes && it in Now().next && it in Now().prev && it.prev == list[i - 1] && it.prev in nodes
      ensures Now().next[it] == Opt(it.next) && Now().prev[it] == Opt(it.prev) && it.prev in Now().prev &&
        Now().prev[it.prev] == Opt(it.prev.prev)
      ensures Holds(Swung(Now(), it), Swap(list, i))
      ensures it.next != null ==> it.next in nodes && it.next != it.prev
      ensures it.prev.prev != null ==> it.prev.prev in nodes
      ensures it.prev != it && it.next != it && it.prev.prev != it && it.prev.prev != it.prev
      ensures it.prev.next == it
    {
      SwingHolds(Now(), list, i);
      Around(it, i);
      Around(list[i - 1], i - 1);
    }

    /** `do_item_crawl_q`: the crawler, at position `i`, moves one step towards the head.  At the head it
        is popped off, or, with nothing behind it, left for the final unlink. */
    method CrawlQ(it: Node, ghost i: nat) returns (found: Node?)
      requires Valid() && i < |list| && list[i] == it
      modifies this`head, this`tail, this`list, nodes
      ensures Valid()
      ensures i > 0 ==> found == old(list)[i - 1] && list == Swap(old(list), i)
      ensures i == 0 ==> found == null
      ensures i == 0 && |old(list)| > 1 ==> list == old(list)[1..] && Popped(it)
      ensures i == 0 && |old(list)| == 1 ==> list == old(list)
    {
      hide Holds, Nexts, Prevs;
      Around(it, i);
      if it.prev == null {
        assert head == it;
        if it.next != null {
          PopFacts(it);
          head := it.next;
          assert it.next.prev == it;
          SetPrev(it.next, null);
          list := Cut(list, 0);
        }
        return null;
      }
      Swing(it, i);
      return it.next;
    }

    /** The crawler's move when there is an item in front of it. */
    method Swing(it: Node, ghost i: nat)
      requires Valid() && 0 < i < |list| && list[i] == it
      modifies this`head, this`tail, this`list, nodes
      ensures Valid() && it.next == old(list)[i - 1] && list == Swap(old(list), i)
    {
      hide Holds, Nexts, Prevs;
      SwingFacts(it, i);
      assert it.prev != it;
      StepOut(it);
      StepIn(it);
      list := Swap(list, i);
      assert it.next != it && it.prev != it;
    }

    /** The crawler's neighbours are linked to each other. */
    method StepOut(it: Node)
      requires it in nodes && it.prev != null && it.prev in nodes && it.prev != it && it.next != it
      requires it.next != null ==> it.next in nodes && it.next != it.prev && it.prev.next == it
      modifies this`head, this`tail, nodes
      ensures it.prev == old(it.prev) && it.next == old(it.next) && it.prev.prev == old(it.prev.prev)
      ensures var m, n, p := old(Now()), old(it.next), old(it.prev);
        Now() == Mem(if m.head == Opt(p) then Some(it) else m.head, if m.tail == Some(it) then Opt(p) else m.tail,
                     Put(m.next, Opt(p), Opt(n)), Put(m.prev, Opt(n), Opt(p)))
    {
      hide Nexts, Prevs;
      if head == it.prev {
        head := it;
      }
      if tail == it {
        tail := it.prev;
      }
      assert it.next != it;
      if it.next != null {
        assert it.prev.next == it;
        SetNext(it.prev, it.next);
        SetPrev(it.next, it.prev);
      } else {
        SetNext(it.prev, null);
      }
    }

    /** The crawler goes in front of the node that preceded it. */
    method StepIn(it: Node)
      requires it in nodes && it.prev != null && it.prev in nodes && it.prev != it
      requires it.prev.prev != null ==> it.prev.prev in nodes && it.prev.prev != it && it.prev.prev != it.prev
      modifies nodes
      ensures it.next == old(it.prev) && it.prev == old(it.prev.prev)
      ensures var m, p, q := old(Now()), old(it.prev), old(it.prev.prev);
        Now() == Mem(m.head, m.tail, Put(m.next[it := Opt(p)], Opt(q), Some(it)),
                     Put(m.prev[it := Opt(q)], Opt(p), Some(it)))
    {
      hide Nexts, Prevs;
      SetNext(it, it.prev);
      SetPrev(it, it.next.prev);
      SetPrev(it.next, it);
      if it.prev != null {
        SetNext(it.prev, it);
      }
    }

    lemma PopFacts(it: Node)
      requires Valid() && |list| > 1 && list[0] == it
      ensures it in nodes && it.next == list[1] && it.prev == null && it.next in nodes && tail != it &&
        it.next.prev == it
      ensures Holds(Now().(head := Opt(it.next), prev := Now().prev[it.next := None]), Cut(list, 0))
      ensures it !in Cut(list, 0) && Cut(list, 0) == list[1..]
    {
      Around(it, 0);
      UnlinkHolds(Now(), list, 0);
      CutNoRepeats(list, 0);
    }

    /** A crawl of one class from the tail: `do_item_linktail_q`, then a `do_item_crawl_q` for each item
        looked at, then `do_item_unlinktail_q`.  With a limit, the item that exhausts it is not looked at. */
    method Crawl(c: Node, remaining: nat) returns (seen: seq<Node>)
      requires Valid() && c !in list
      modifies this, c, nodes
      ensures Valid() && list == old(list) && size == old(size) && nodes == old(nodes) + {c}
      ensures var all := Reversed(old(list));
        seen == if remaining == 0 || |all| < remaining then all else all[..remaining - 1]
    {
      hide Holds, Nexts, Prevs, Walking;
      ghost var s, i := list, |list|;
      seen := [];
      var left := remaining;
      LinkTailQ(c);
      WalkCut(s, c, i);
      WalkingAtTail(s, c);
      while true
        invariant 0 <= i <= |s| && list == Walking(s, c, i) && seen == Reversed(s[i..]) && |seen| == |s| - i
        invariant Valid() && size == old(size) && nodes == old(nodes) + {c}
        invariant if remaining == 0 then left == 0 else left == remaining - |seen| > 0
        decreases i
      {
        WalkCut(s, c, i);
        WalkLength(s, c, i);
        var found := CrawlQ(c, i);
        if found == null {
          UnlinkTailQ(c, if |s| == 0 then 0 else |list|);
          break;
        }
        WalkStep(s, c, i);
        i := i - 1;
        if left != 0 {
          left := left - 1;
          if left < 1 {
            WalkCut(s, c, i);
            WalkLength(s, c, i);
            UnlinkTailQ(c, i);
            break;
          }
        }
        seen := seen + [found];
      }
    }
  }
}
