/** Byte strings kept in pieces. */
module Flatten {
  import opened Basics

  function Flat(xs: seq<seq<byte>>): seq<byte> {
    if xs == [] then [] else xs[0] + Flat(xs[1..])
  }

  lemma {:induction false} FlatAppend(xs: seq<seq<byte>>, ys: seq<seq<byte>>)
    ensures Flat(xs + ys) == Flat(xs) + Flat(ys)
  {
    if xs == [] {
      assert xs + ys == ys;
    } else {
      assert (xs + ys)[1..] == xs[1..] + ys;
      FlatAppend(xs[1..], ys);
    }
  }

  lemma FlatPush(xs: seq<seq<byte>>, x: seq<byte>)
    ensures Flat(xs + [x]) == Flat(xs) + x
  {
    FlatAppend(xs, [x]);
    assert Flat([x]) == x + Flat([x][1..]);
  }

  /** A piece of one chunk is a piece of the whole. */
  lemma FlatSlice(xs: seq<seq<byte>>, k: nat, from: nat, n: nat)
    requires k < |xs| && from + n <= |xs[k]|
    ensures var at := |Flat(xs[..k])| + from;
      at + n <= |Flat(xs)| && Flat(xs)[at..at + n] == xs[k][from..from + n]
    ensures |Flat(xs[..k + 1])| == |Flat(xs[..k])| + |xs[k]|
  {
    FlatPush(xs[..k], xs[k]);
    assert xs[..k + 1] == xs[..k] + [xs[k]];
    FlatAppend(xs[..k + 1], xs[k + 1..]);
    assert xs == xs[..k + 1] + xs[k + 1..];
  }

  lemma FlatNone(xs: seq<seq<byte>>)
    ensures Flat(xs[..0]) == [] && Flat([]) == []
  {
  }

  lemma Slices(b: seq<byte>, i: nat, j: nat, k: nat)
    requires i <= j <= k <= |b|
    ensures b[i..j] + b[j..k] == b[i..k]
  {
  }

  lemma Reassociate(a: seq<byte>, b: seq<byte>, c: seq<byte>)
    ensures (a + b) + c == a + (b + c)
  {
  }
}
