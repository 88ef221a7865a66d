/** Doubly linked lists as values: what following the links yields, and how each relinking changes it. */
module DoubleList {
  import opened Basics

  ghost function At<T>(s: seq<T>, i: int): Option<T> {
    if 0 <= i < |s| then Some(s[i]) else None
  }

  /** The ends of the list and both links of every node involved. */
  datatype Mem<T> = Mem(head: Option<T>, tail: Option<T>, next: map<T, Option<T>>, prev: map<T, Option<T>>)

  ghost predicate Forward<T>(next: map<T, Option<T>>, s: seq<T>) {
    forall i {:trigger s[i]} :: 0 <= i < |s| ==> s[i] in next && next[s[i]] == At(s, i + 1)
  }

  ghost predicate Backward<T>(prev: map<T, Option<T>>, s: seq<T>) {
    forall i {:trigger s[i]} :: 0 <= i < |s| ==> s[i] in prev && prev[s[i]] == At(s, i - 1)
  }

  /** `s` is what following the links yields, in either direction. */
  ghost predicate Holds<T>(m: Mem<T>, s: seq<T>) {
    NoRepeats(s) && m.head == At(s, 0) && m.tail == At(s, |s| - 1) && Forward(m.next, s) && Backward(m.prev, s)
  }

  ghost function Cut<T>(s: seq<T>, i: nat): seq<T>
    requires i < |s|
  {
    s[..i] + s[i + 1..]
  }

  /** The node at `i` trades places with the one before it. */
  ghost function Swap<T>(s: seq<T>, i: nat): seq<T>
    requires 0 < i < |s|
  {
    s[i - 1 := s[i]][i := s[i - 1]]
  }

  /** A link written through a pointer that may be null. */
  ghost function Put<T>(links: map<T, Option<T>>, at: Option<T>, v: Option<T>): map<T, Option<T>> {
    if at.Some? then links[at.value := v] else links
  }

  /** A new first node. */
  ghost function LinkedFirst<T>(m: Mem<T>, it: T): Mem<T> {
    Mem(Some(it), if m.tail == None then Some(it) else m.tail,
        m.next[it := m.head], Put(m.prev[it := None], m.head, Some(it)))
  }

  /** A new last node. */
  ghost function LinkedLast<T>(m: Mem<T>, it: T): Mem<T> {
    Mem(if m.head == None then Some(it) else m.head, Some(it),
        Put(m.next[it := None], m.tail, Some(it)), m.prev[it := m.tail])
  }

  /** A node's neighbours are linked to each other; its own links stay. */
  ghost function Unlinked<T>(m: Mem<T>, it: T): Mem<T>
    requires it in m.next && it in m.prev
  {
    var n, p := m.next[it], m.prev[it];
    Mem(if m.head == Some(it) then n else m.head, if m.tail == Some(it) then p else m.tail,
        Put(m.next, p, n), Put(m.prev, n, p))
  }

  /** A node swings in front of its predecessor. */
  ghost function Swung<T>(m: Mem<T>, it: T): Mem<T>
    requires it in m.next && it in m.prev && m.prev[it].Some? && m.prev[it].value in m.prev
  {
    var n, p := m.next[it], m.prev[it].value;
    var q := m.prev[p];
    var nx, pv := m.next[p := n], Put(m.prev, n, Some(p));
    var nx', pv' := nx[it := Some(p)], pv[it := q][p := Some(it)];
    Mem(if m.head == Some(p) then Some(it) else m.head, if m.tail == Some(it) then Some(p) else m.tail,
        Put(nx', q, Some(it)), pv')
  }

  lemma LinkFirstHolds<T>(m: Mem<T>, s: seq<T>, it: T)
    requires Holds(m, s) && it !in s
    ensures Holds(LinkedFirst(m, it), [it] + s)
  {
    var r := [it] + s;
    assert forall i :: 0 < i < |r| ==> r[i] == s[i - 1];
  }

  lemma LinkLastHolds<T>(m: Mem<T>, s: seq<T>, it: T)
    requires Holds(m, s) && it !in s
    ensures Holds(LinkedLast(m, it), s + [it])
  {
  }

  lemma CutAt<T>(s: seq<T>, i: nat, j: nat)
    requires i < |s| && j < |Cut(s, i)|
    ensures Cut(s, i)[j] == s[if j < i then j else j + 1]
  {
  }

  lemma CutNoRepeats<T>(s: seq<T>, i: nat)
    requires NoRepeats(s) && i < |s|
    ensures NoRepeats(Cut(s, i)) && s[i] !in Cut(s, i)
  {
    forall j | 0 <= j < |Cut(s, i)| ensures Cut(s, i)[j] == s[if j < i then j else j + 1] {
      CutAt(s, i, j);
    }
    hide Cut;
  }

  lemma CutForward<T>(next: map<T, Option<T>>, s: seq<T>, i: nat)
    requires Forward(next, s) && NoRepeats(s) && i < |s|
    ensures Forward(if i > 0 then next[s[i - 1] := At(s, i + 1)] else next, Cut(s, i))
  {
    var r, nx := Cut(s, i), if i > 0 then next[s[i - 1] := At(s, i + 1)] else next;
    forall j | 0 <= j < |r|
      ensures r[j] in nx && nx[r[j]] == At(r, j + 1)
    {
      if j < i - 1 {
        assert r[j] == s[j] && r[j + 1] == s[j + 1];
      } else if j == i - 1 {
        assert r[j] == s[j] && At(r, i) == At(s, i + 1);
      } else {
        assert r[j] == s[j + 1] && At(r, j + 1) == At(s, j + 2);
      }
    }
  }

  lemma CutBackward<T>(prev: map<T, Option<T>>, s: seq<T>, i: nat)
    requires Backward(prev, s) && NoRepeats(s) && i < |s|
    ensures Backward(if i + 1 < |s| then prev[s[i + 1] := At(s, i - 1)] else prev, Cut(s, i))
  {
    var r, pv := Cut(s, i), if i + 1 < |s| then prev[s[i + 1] := At(s, i - 1)] else prev;
    forall j | 0 <= j < |r|
      ensures r[j] in pv && pv[r[j]] == At(r, j - 1)
    {
      if j < i {
        assert r[j] == s[j] && At(r, j - 1) == At(s, j - 1);
      } else if j == i {
        assert r[j] == s[j + 1] && At(r, j - 1) == At(s, i - 1);
      } else {
        assert r[j] == s[j + 1] && At(r, j - 1) == At(s, j);
      }
    }
  }

  lemma UnlinkHolds<T>(m: Mem<T>, s: seq<T>, i: nat)
    requires Holds(m, s) && i < |s|
    ensures s[i] in m.next && s[i] in m.prev && Holds(Unlinked(m, s[i]), Cut(s, i))
  {
    assert s[i] in m.next && s[i] in m.prev && m.next[s[i]] == At(s, i + 1) && m.prev[s[i]] == At(s, i - 1);
    assert s[0] == s[i] <==> i == 0;
    assert s[|s| - 1] == s[i] <==> i == |s| - 1;
    CutNoRepeats(s, i);
    CutForward(m.next, s, i);
    CutBackward(m.prev, s, i);
    CutEnds(s, i);
    hide Forward, Backward, NoRepeats, Cut;
  }

  lemma CutEnds<T>(s: seq<T>, i: nat)
    requires i < |s|
    ensures |Cut(s, i)| == |s| - 1
    ensures At(Cut(s, i), 0) == At(s, if i == 0 then 1 else 0)
    ensures At(Cut(s, i), |s| - 2) == At(s, if i == |s| - 1 then |s| - 2 else |s| - 1)
  {
  }

  lemma SwapAt<T>(s: seq<T>, i: nat, j: int)
    requires 0 < i < |s|
    ensures At(Swap(s, i), j) == At(s, if j == i - 1 then i else if j == i then i - 1 else j)
  {
  }

  lemma SwapNoRepeats<T>(s: seq<T>, i: nat)
    requires NoRepeats(s) && 0 < i < |s|
    ensures NoRepeats(Swap(s, i))
  {
  }

  lemma SwapForward<T>(next: map<T, Option<T>>, s: seq<T>, i: nat)
    requires Forward(next, s) && NoRepeats(s) && 0 < i < |s|
    ensures var nx := next[s[i - 1] := At(s, i + 1)][s[i] := Some(s[i - 1])];
      Forward(if i > 1 then nx[s[i - 2] := Some(s[i])] else nx, Swap(s, i))
  {
    var r, nx := Swap(s, i), next[s[i - 1] := At(s, i + 1)][s[i] := Some(s[i - 1])];
    var ny := if i > 1 then nx[s[i - 2] := Some(s[i])] else nx;
    forall j | 0 <= j < |r|
      ensures r[j] in ny && ny[r[j]] == At(r, j + 1)
    {
      SwapAt(s, i, j);
      SwapAt(s, i, j + 1);
      if j == i - 2 {
        assert r[j] == s[i - 2];
      } else if j == i - 1 {
        assert r[j] == s[i];
      } else if j == i {
        assert r[j] == s[i - 1];
      } else {
        assert r[j] == s[j] && At(r, j + 1) == At(s, j + 1);
      }
    }
  }

  lemma SwapBackward<T>(prev: map<T, Option<T>>, s: seq<T>, i: nat)
    requires Backward(prev, s) && NoRepeats(s) && 0 < i < |s|
    ensures var pv := if i + 1 < |s| then prev[s[i + 1] := Some(s[i - 1])] else prev;
      Backward(pv[s[i] := At(s, i - 2)][s[i - 1] := Some(s[i])], Swap(s, i))
  {
    var r := Swap(s, i);
    var pv: map<T, Option<T>> := if i + 1 < |s| then prev[s[i + 1] := Some(s[i - 1])] else prev;
    var py := pv[s[i] := At(s, i - 2)][s[i - 1] := Some(s[i])];
    forall j | 0 <= j < |r|
      ensures r[j] in py && py[r[j]] == At(r, j - 1)
    {
      SwapAt(s, i, j);
      SwapAt(s, i, j - 1);
    }
  }

  lemma SwingHolds<T>(m: Mem<T>, s: seq<T>, i: nat)
    requires Holds(m, s) && 0 < i < |s|
    ensures s[i] in m.next && s[i] in m.prev && m.prev[s[i]] == Some(s[i - 1]) && s[i - 1] in m.prev
    ensures Holds(Swung(m, s[i]), Swap(s, i))
  {
    assert s[i] in m.next && s[i] in m.prev && m.prev[s[i]] == Some(s[i - 1]) && s[i - 1] in m.prev;
    assert s[0] == s[i - 1] <==> i == 1;
    assert s[|s| - 1] == s[i] <==> i == |s| - 1;
    SwapNoRepeats(s, i);
    SwapForward(m.next, s, i);
    SwapBackward(m.prev, s, i);
    SwapAt(s, i, 0);
    SwapAt(s, i, |s| - 1);
    hide Forward, Backward, NoRepeats, Swap;
  }

  /** The links of a node that is not in the list do not matter. */
  lemma OutsideNext<T>(m: Mem<T>, s: seq<T>, x: T, v: Option<T>)
    requires Holds(m, s) && x !in s
    ensures Holds(m.(next := m.next[x := v]), s)
  {
  }

  lemma OutsideGone<T>(m: Mem<T>, s: seq<T>, x: T)
    requires Holds(m, s) && x !in s
    ensures Holds(m.(next := m.next - {x}, prev := m.prev - {x}), s)
  {
  }
}
