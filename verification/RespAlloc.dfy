/** Response objects: slots in bundles, and the list of bundles with a free slot. */
module RespAlloc {
  import opened Basics
  import opened DoubleList

  const READ_BUFFER_SIZE := 16384

  class Bundle {
    var refcount: int
    var nextCheck: nat
    var next: Bundle?
    var prev: Bundle?
    var free: seq<bool>

    constructor (per: nat)
      requires per > 0
      ensures refcount == 1 && nextCheck == 1 && next == null && prev == null
      ensures free == seq(per, i => true)[0 := false]
    {
      nextCheck, refcount := 1, 1;
      free := seq(per, i => true)[0 := false];
      next, prev := null, null;
    }
  }

  // Counting slots

  function Used(free: seq<bool>): (n: nat)
    ensures n <= |free|
  {
    if free == [] then 0 else (if free[0] then 0 else 1) + Used(free[1..])
  }

  lemma {:induction false} UsedUpdate(free: seq<bool>, i: nat, v: bool)
    requires i < |free|
    ensures Used(free[i := v]) == Used(free) + (if free[i] then 1 else 0) - (if v then 1 else 0)
  {
    if i == 0 {
      assert free[0 := v][1..] == free[1..];
    } else {
      assert free[i := v][1..] == free[1..][i - 1 := v];
      UsedUpdate(free[1..], i - 1, v);
    }
  }

  lemma {:induction false} UsedNone(free: seq<bool>)
    requires forall i :: 0 <= i < |free| ==> free[i]
    ensures Used(free) == 0
  {
    if free != [] {
      UsedNone(free[1..]);
    }
  }

  /** A count below the number of slots leaves one free. */
  lemma {:induction false} FreeSlot(free: seq<bool>) returns (f: nat)
    requires Used(free) < |free|
    ensures f < |free| && free[f]
  {
    if free[0] {
      f := 0;
    } else {
      var g := FreeSlot(free[1..]);
      f := g + 1;
    }
  }

  /** Starting anywhere, `per` steps around the ring meet every slot. */
  lemma ScanMeets(start: nat, f: nat, per: nat) returns (i: nat)
    requires start <= per && f < per
    ensures i < per && (i + start) % per == f
  {
    i := if f >= start then f - start else f + per - start;
  }

  /** The slot looked at in the given turn of the scan. */
  function SlotAt(start: nat, turn: nat, per: nat): (x: nat)
    requires per > 0
    ensures x < per
  {
    (turn + start) % per
  }

  /** The free slot that is met first when looking round from `start`. */
  ghost predicate Nearest(free: seq<bool>, start: nat, x: nat) {
    x < |free| && free[x] &&
    exists k: nat :: k < |free| && SlotAt(start, k, |free|) == x &&
      forall j: nat :: j < k ==> !free[SlotAt(start, j, |free|)]
  }

  // Links

  ghost function Opt(b: Bundle?): Option<Bundle> {
    if b == null then None else var c: Bundle := b; Some(c)
  }

  ghost function Nexts(live: set<Bundle>): map<Bundle, Option<Bundle>>
    reads live`next
  {
    map b | b in live :: Opt(b.next)
  }

  ghost function Prevs(live: set<Bundle>): map<Bundle, Option<Bundle>>
    reads live`prev
  {
    map b | b in live :: Opt(b.prev)
  }

  /** One thread's allocator.  `per` is MAX_RESP_PER_BUNDLE. */
  class Allocator {
    const per: nat
    var openBundle: Bundle?
    var responseObjBytes: int

    /** The bundles with a free slot, in list order; all bundles; and the slots handed out. */
    ghost var open: seq<Bundle>
    ghost var live: set<Bundle>
    ghost var busy: set<(Bundle, nat)>

    ghost function Now(): Mem<Bundle>
      reads this`openBundle, this`open, this`live, live`next, live`prev
    {
      Mem(Opt(openBundle), At(open, |open| - 1), Nexts(live), Prevs(live))
    }

    /** The count is the number of slots handed out. */
    ghost predicate SlotsOk(b: Bundle)
      reads this`busy, b`free, b`refcount, b`nextCheck
    {
      |b.free| == per && b.refcount == Used(b.free) && b.nextCheck <= per &&
      forall i: nat :: i < per ==> (!b.free[i] <==> (b, i) in busy)
    }

    /** A bundle is on the list exactly while it has a free slot. */
    ghost predicate ListedOk(b: Bundle)
      reads this`open, b`refcount, b`prev, b`next
    {
      (b in open <==> b.refcount < per) && (b !in open ==> b.prev == null && b.next == null)
    }

    ghost predicate Valid()
      reads this, live
    {
      per >= 2 && Holds(Now(), open) && responseObjBytes == READ_BUFFER_SIZE * |live| &&
      (forall b <- open :: b in live) && (forall b <- live :: SlotsOk(b) && ListedOk(b)) &&
      forall s <- busy :: s.0 in live && s.1 < per
    }

    constructor (per: nat)
      requires per >= 2
      ensures Valid() && this.per == per && busy == {} && live == {}
    {
      this.per := per;
      openBundle, responseObjBytes := null, 0;
      open, live, busy := [], {}, {};
    }

    /** The scan for a free slot, from the one most likely to be free. */
    method Scan(b: Bundle) returns (x: nat)
      requires |b.free| == per && b.nextCheck <= per && Used(b.free) < per
      ensures Nearest(b.free, b.nextCheck, x)
    {
      ghost var f := FreeSlot(b.free);
      ghost var k := ScanMeets(b.nextCheck, f, per);
      var i: nat := 0;
      while i < per
        invariant 0 <= i <= k
        invariant forall j: nat :: j < i ==> !b.free[SlotAt(b.nextCheck, j, per)]
      {
        x := SlotAt(b.nextCheck, i, per);
        if b.free[x] {
          return;
        }
        i := i + 1;
      }
    }

    method SetNext(b: Bundle, v: Bundle?)
      requires b in live
      modifies b`next
      ensures b.next == v && Now() == old(Now()).(next := old(Now()).next[b := Opt(v)])
    {
      b.next := v;
    }

    method SetPrev(b: Bundle, v: Bundle?)
      requires b in live
      modifies b`prev
      ensures b.prev == v && Now() == old(Now()).(prev := old(Now()).prev[b := Opt(v)])
    {
      b.prev := v;
    }

    lemma Around(b: Bundle, i: nat)
      requires Holds(Now(), open) && (forall c <- open :: c in live) && i < |open| && open[i] == b
      ensures b in live && b in Now().next && b in Now().prev && Now().next[b] == Opt(b.next) &&
        Now().prev[b] == Opt(b.prev)
      ensures Opt(b.next) == At(open, i + 1) && Opt(b.prev) == At(open, i - 1) && (openBundle == b <==> i == 0)
      ensures b.next != null ==> b.next in live && b.next != b && b.next.prev == b
      ensures b.prev != null ==> b.prev in live && b.prev != b && b.prev.next == b
    {
      assert open[i] in Nexts(live) && open[i] in Prevs(live);
      if i + 1 < |open| { assert open[i + 1] in Prevs(live); }
      if i > 0 { assert open[i - 1] in Nexts(live); }
    }

    /** A slot of the bundle is handed out. */
    method TakeSlot(b: Bundle, x: nat)
      requires Valid() && b in live && x < per && b.free[x]
      modifies b`refcount, b`free, b`nextCheck, this`busy
      ensures busy == old(busy) + {(b, x)} && (b, x) !in old(busy)
      ensures Now() == old(Now()) && b.refcount == old(b.refcount) + 1 && b.free == old(b.free)[x := false]
      ensures b.nextCheck == x + 1
      ensures (forall c <- live :: SlotsOk(c)) && forall s <- busy :: s.0 in live && s.1 < per
    {
      hide Holds, Used, Nexts, Prevs;
      UsedUpdate(b.free, x, false);
      assert SlotsOk(b);
      b.nextCheck := x + 1;
      b.refcount := b.refcount + 1;
      b.free := b.free[x := false];
      busy := busy + {(b, x)};
      forall c | c in live
        ensures SlotsOk(c)
      {
        if c != b { assert old(SlotsOk(c)); }
      }
    }

    /** Everything holds but that `b` is on the list and should not be, or the other way round. */
    ghost predicate ValidBut(b: Bundle)
      reads this, live
    {
      per >= 2 && Holds(Now(), open) && b in live &&
      responseObjBytes == READ_BUFFER_SIZE * |live| && (forall c <- open :: c in live) &&
      (forall c <- live :: SlotsOk(c)) && (forall c <- live :: c != b ==> ListedOk(c)) &&
      forall s <- busy :: s.0 in live && s.1 < per
    }

    lemma PopFacts(b: Bundle)
      requires ValidBut(b) && open != [] && open[0] == b
      ensures b in live && openBundle == b && b.prev == null && (b.next != null ==> b.next in live && b.next != b)
      ensures var m := Now();
        b in m.next && b in m.prev && m.next[b] == Opt(b.next) && m.prev[b] == None &&
        Holds(Unlinked(m, b), open[1..]) && b !in open[1..]
      ensures Holds(Unlinked(Now(), b).(next := Unlinked(Now(), b).next[b := None]), open[1..])
    {
      var m := Now();
      assert open[0] in Nexts(live) && open[0] in Prevs(live);
      if |open| > 1 { assert open[1] in Nexts(live) && open[1] != open[0]; }
      UnlinkHolds(m, open, 0);
      CutNoRepeats(open, 0);
      assert Cut(open, 0) == open[1..];
      OutsideNext(Unlinked(m, b), open[1..], b, None);
    }

    /** The head has become full: the list goes on without it. */
    method PopHead(b: Bundle)
      requires ValidBut(b) && open != [] && open[0] == b && b.refcount == per
      modifies this`openBundle, this`open, live`next, live`prev
      ensures Valid() && open == old(open)[1..]
    {
      hide Holds, SlotsOk, Nexts, Prevs;
      PopFacts(b);
      ghost var m := Now();
      assert b.prev == null;
      openBundle := b.next;
      if b.next != null {
        SetPrev(b.next, null);
        SetNext(b, null);
      }
      open := open[1..];
      forall c | c in live
        ensures ListedOk(c)
      {
        if c != b {
          assert old(ListedOk(c));
          assert c in old(open) <==> c in open;
        }
      }
    }

    lemma Head()
      requires Valid()
      ensures openBundle == null <==> open == []
      ensures openBundle != null ==> openBundle == open[0] && openBundle in live
    {
    }

    /** `resp_allocate`, with or without memory for another bundle. */
    method Allocate(memory: bool) returns (b: Bundle?, x: nat)
      requires Valid()
      modifies this, live
      ensures Valid() && (b == null <==> old(openBundle) == null && !memory)
      ensures b == null ==> busy == old(busy) && live == old(live)
      ensures b != null ==> (b, x) !in old(busy) && busy == old(busy) + {(b, x)}
      ensures b != null ==>
        if old(openBundle) != null then b == old(openBundle) && live == old(live)
        else fresh(b) && live == old(live) + {b}
      ensures old(openBundle) != null ==>
        Nearest(old(openBundle.free), old(openBundle.nextCheck), x) && b.nextCheck == x + 1 &&
        open == if old(openBundle.refcount) + 1 == per then old(open)[1..] else old(open)
      ensures b != null && old(openBundle) == null ==> x == 0 && b.nextCheck == 1 && open == [b]
    {
      hide Holds, Nexts, Prevs, Used;
      Head();
      if openBundle != null {
        b := openBundle;
        assert ListedOk(b) && SlotsOk(b);
        x := Scan(b);
        TakeSlot(b, x);
        forall c | c in live && c != b
          ensures ListedOk(c)
        {
          assert old(ListedOk(c));
        }
        if b.refcount == per {
          PopHead(b);
        }
        return;
      }
      x := 0;
      if !memory {
        return null, 0;
      }
      b := new Bundle(per);
      AddBundle(b);
    }

    lemma Alone(b: Bundle)
      requires b in live && openBundle == b && open == [b] && b.next == null && b.prev == null
      ensures Holds(Now(), open)
    {
    }

    lemma FirstSlot(b: Bundle)
      requires per >= 2 && b.refcount == 1 && b.nextCheck == 1 && b.free == seq(per, i => true)[0 := false]
      requires b in open && forall i: nat :: (b, i) in busy <==> i == 0
      ensures SlotsOk(b) && ListedOk(b)
    {
      NewSlots(b.free);
    }

    /** No bundle has a free slot: a new one comes into use, its first slot taken. */
    method AddBundle(b: Bundle)
      requires Valid() && openBundle == null && open == [] && b !in live
      requires b.refcount == 1 && b.nextCheck == 1 && b.next == null && b.prev == null &&
        b.free == seq(per, i => true)[0 := false]
      modifies this`responseObjBytes, this`openBundle, this`open, this`live, this`busy
      ensures Valid() && live == old(live) + {b} && (b, 0) !in old(busy) && busy == old(busy) + {(b, 0)} && open == [b]
    {
      hide Holds, Nexts, Prevs, Used, Now;
      responseObjBytes := responseObjBytes + READ_BUFFER_SIZE;
      openBundle := b;
      open, live, busy := [b], live + {b}, busy + {(b, 0)};
      Alone(b);
      FirstSlot(b);
      forall c | c in live
        ensures SlotsOk(c) && ListedOk(c)
      {
        if c != b { assert old(SlotsOk(c) && ListedOk(c)); }
      }
    }

    /** A slot comes back. */
    method GiveSlot(b: Bundle, x: nat)
      requires Valid() && (b, x) in busy
      modifies b`refcount, b`free, this`busy
      ensures b in live && x < per && busy == old(busy) - {(b, x)} && Now() == old(Now())
      ensures b.refcount == old(b.refcount) - 1 >= 0 && b.free == old(b.free)[x := true]
      ensures (forall c <- live :: SlotsOk(c)) && forall s <- busy :: s.0 in live && s.1 < per
    {
      hide Holds, Nexts, Prevs, Used;
      assert b in live && x < per;
      assert SlotsOk(b);
      UsedUpdate(b.free, x, true);
      b.free := b.free[x := true];
      b.refcount := b.refcount - 1;
      busy := busy - {(b, x)};
      forall c | c in live
        ensures SlotsOk(c)
      {
        if c != b { assert old(SlotsOk(c)); }
      }
    }

    lemma HeadIsOpen()
      requires Holds(Now(), open)
      ensures openBundle != null ==> openBundle in open
    {
    }

    lemma Ends(b: Bundle, i: nat)
      requires Holds(Now(), open) && (forall c <- open :: c in live) && i < |open| && open[i] == b
      ensures (openBundle == b <==> i == 0) && (b.prev == null <==> i == 0) && (b.next == null <==> i == |open| - 1)
    {
      hide Holds, Now;
      Around(b, i);
    }

    /** `resp_free`. */
    method Free(b: Bundle, x: nat)
      requires Valid() && (b, x) in busy
      modifies this, live
      ensures Valid() && b in old(live) && x < per && busy == old(busy) - {(b, x)}
      ensures live ==
        if old(b.refcount) == 1 && (old(openBundle) != b || |old(open)| > 1) then old(live) - {b} else old(live)
      ensures old(b.refcount) == per ==> open == [b] + old(open)
      ensures 1 < old(b.refcount) < per || (b in live && old(b.refcount) == 1) ==> open == old(open)
      ensures b !in live ==> exists i :: 0 <= i < |old(open)| && old(open)[i] == b && open == Cut(old(open), i)
      ensures b in live ==> b.nextCheck == if old(b.refcount) == 1 then 0 else old(b.nextCheck)
    {
      hide Holds, Nexts, Prevs, Used, Now, Opt;
      GiveSlot(b, x);
      forall c | c in live && c != b
        ensures ListedOk(c)
      {
        assert old(ListedOk(c));
      }
      assert old(ListedOk(b));
      if b.refcount == 0 {
        LastBack(b);
      } else {
        OneBack(b);
      }
    }

    /** The last slot of a bundle is back: the only bundle on the list is kept for the next response. */
    method LastBack(b: Bundle)
      requires ValidBut(b) && b in open && b.refcount == 0
      modifies this`openBundle, this`open, this`live, this`responseObjBytes, live`next, live`prev, b`nextCheck
      ensures Valid() && live == if old(openBundle) == b && |old(open)| == 1 then old(live) else old(live) - {b}
      ensures b in live ==> open == old(open) && b.nextCheck == 0
      ensures b !in live ==> exists i :: 0 <= i < |old(open)| && old(open)[i] == b && open == Cut(old(open), i)
    {
      hide Holds, Nexts, Prevs, Used, Now, Opt;
      ghost var i :| 0 <= i < |open| && open[i] == b;
      Ends(b, i);
      if b == openBundle && b.next == null {
        assert b.prev == null;
        b.nextCheck := 0;
      } else {
        assert b.next != null || b.prev != null || b == openBundle;
        DropBundle(b, i);
      }
    }

    /** Another slot is back: a bundle that was full joins the list again. */
    method OneBack(b: Bundle)
      requires ValidBut(b) && 0 < b.refcount < per && (b !in open ==> b.prev == null && b.next == null)
      modifies this`openBundle, this`open, live`next, live`prev
      ensures Valid() && open == if b in old(open) then old(open) else [b] + old(open)
    {
      hide Holds, Nexts, Prevs, Used, Now, Opt;
      HeadIsOpen();
      if b in open {
        ghost var i :| 0 <= i < |open| && open[i] == b;
        Ends(b, i);
      }
      if b == openBundle || b.prev != null || b.next != null {
      } else {
        PushHead(b);
      }
    }

    lemma DropFacts(b: Bundle, i: nat)
      requires ValidBut(b) && i < |open| && open[i] == b && b.refcount == 0
      ensures var m := Now();
        b in m.next && b in m.prev && b !in Cut(open, i) &&
        var u := Unlinked(m, b);
        Holds(u, Cut(open, i)) && Holds(u.(next := u.next - {b}, prev := u.prev - {b}), Cut(open, i)) &&
        u.tail == At(Cut(open, i), |Cut(open, i)| - 1)
      ensures forall s <- busy :: s.0 != b
      ensures (forall c <- Cut(open, i) :: c in open && c != b) && forall c <- open :: c != b ==> c in Cut(open, i)
    {
      UnlinkHolds(Now(), open, i);
      CutNoRepeats(open, i);
      OutsideGone(Unlinked(Now(), b), Cut(open, i), b);
      AllFree(b.free);
      assert SlotsOk(b);
      CutMembers(open, i);
    }

    /** The bundle's neighbours are linked to each other. */
    method Unchain(b: Bundle, ghost i: nat)
      requires ValidBut(b) && i < |open| && open[i] == b && b.refcount == 0
      modifies this`openBundle, this`open, live`next, live`prev
      ensures open == Cut(old(open), i) && b !in open
      ensures Holds(Now().(next := Now().next - {b}, prev := Now().prev - {b}), open)
      ensures forall c <- live :: c != b ==> ListedOk(c)
    {
      hide Holds, Nexts, Prevs, SlotsOk, Cut;
      DropFacts(b, i);
      Around(b, i);
      if openBundle == b {
        openBundle := b.next;
      }
      assert b.next != b && b.prev != b;
      if b.next != null {
        SetPrev(b.next, b.prev);
      }
      if b.prev != null {
        SetNext(b.prev, b.next);
      }
      open := Cut(open, i);
      forall c | c in live && c != b
        ensures ListedOk(c)
      {
        assert old(ListedOk(c));
      }
    }

    /** The last slot of a bundle has come back: off the list, and out of use. */
    method DropBundle(b: Bundle, ghost i: nat)
      requires ValidBut(b) && i < |open| && open[i] == b && b.refcount == 0
      modifies this`openBundle, this`open, this`live, this`responseObjBytes, live`next, live`prev
      ensures Valid() && live == old(live) - {b} && open == Cut(old(open), i)
    {
      hide Holds, Nexts, Prevs, SlotsOk, ListedOk, Cut;
      DropFacts(b, i);
      Unchain(b, i);
      responseObjBytes := responseObjBytes - READ_BUFFER_SIZE;
      Forgotten(live, b);
      live := live - {b};
      assert Holds(Now(), open);
      hide Now;
    }

    lemma PushFacts(b: Bundle)
      requires ValidBut(b) && b !in open
      ensures Holds(LinkedFirst(Now(), b), [b] + open) && LinkedFirst(Now(), b).tail == At([b] + open, |open|)
      ensures openBundle != null ==> openBundle in live && openBundle != b && openBundle in open
    {
      LinkFirstHolds(Now(), open, b);
    }

    method LinkHead(b: Bundle)
      requires ValidBut(b) && b !in open
      modifies this`openBundle, this`open, live`next, live`prev
      ensures open == [b] + old(open) && Holds(Now(), open)
      ensures forall c <- live :: c != b && c !in old(open) ==> c.prev == old(c.prev) && c.next == old(c.next)
    {
      hide Holds, Nexts, Prevs, SlotsOk, ListedOk;
      PushFacts(b);
      SetPrev(b, null);
      SetNext(b, openBundle);
      if b.next != null {
        SetPrev(b.next, b);
      }
      openBundle := b;
      open := [b] + open;
    }

    /** A bundle that was full has a free slot again: it becomes the head. */
    method PushHead(b: Bundle)
      requires ValidBut(b) && b !in open && b.refcount < per
      modifies this`openBundle, this`open, live`next, live`prev
      ensures Valid() && open == [b] + old(open)
    {
      hide Holds, Nexts, Prevs, SlotsOk, Now;
      LinkHead(b);
      forall c | c in live
        ensures ListedOk(c)
      {
        if c != b {
          assert old(ListedOk(c));
          assert c in old(open) <==> c in open;
        }
      }
    }
  }

  lemma Forgotten(live: set<Bundle>, b: Bundle)
    ensures Nexts(live - {b}) == Nexts(live) - {b} && Prevs(live - {b}) == Prevs(live) - {b}
  {
  }

  lemma CutMembers(s: seq<Bundle>, i: nat)
    requires NoRepeats(s) && i < |s|
    ensures forall c :: c in Cut(s, i) <==> c in s && c != s[i]
  {
    CutNoRepeats(s, i);
    forall c | c in s && c != s[i]
      ensures c in Cut(s, i)
    {
      var j :| 0 <= j < |s| && s[j] == c;
      assert Cut(s, i)[if j < i then j else j - 1] == c;
    }
  }

  lemma {:induction false} AllFree(free: seq<bool>)
    requires Used(free) == 0
    ensures forall i :: 0 <= i < |free| ==> free[i]
  {
    if free != [] {
      AllFree(free[1..]);
      assert forall i :: 1 <= i < |free| ==> free[i] == free[1..][i - 1];
    }
  }

  lemma NewSlots(free: seq<bool>)
    requires free != [] && !free[0] && forall i :: 1 <= i < |free| ==> free[i]
    ensures Used(free) == 1
  {
    UsedNone(free[1..]);
  }
}
