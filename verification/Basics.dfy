/** Types and predicates that the other modules share. */
module Basics {

  type byte = bv8

  datatype Option<+T> = None | Some(value: T)

  ghost predicate NoRepeats<T>(s: seq<T>) {
    forall i, j :: 0 <= i < j < |s| ==> s[i] != s[j]
  }

  function IndexOf<T(==)>(s: seq<T>, x: T): (i: nat)
    requires x in s
    ensures i < |s| && s[i] == x
    ensures forall j :: 0 <= j < i ==> s[j] != x
  {
    if s[0] == x then 0 else 1 + IndexOf(s[1..], x)
  }

  lemma IndexIs<T>(s: seq<T>, x: T, i: nat)
    requires NoRepeats(s) && i < |s| && s[i] == x
    ensures IndexOf(s, x) == i
  {
  }

  function Sum(xs: seq<nat>): nat {
    if xs == [] then 0 else xs[0] + Sum(xs[1..])
  }
}
