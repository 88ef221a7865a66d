/** Facts about quotients and remainders that the solver does not find by itself. */
module Division {

  lemma {:induction false} BlockUp(a: nat, b: nat, w: nat)
    requires a < b
    ensures a * w + w <= b * w
  {
    assert b * w == (b - 1) * w + w;
    if a < b - 1 { BlockUp(a, b - 1, w); }
  }

  lemma ModUnique(q: nat, r: nat, w: nat)
    requires r < w
    ensures (q * w + r) % w == r
  {
    var n := q * w + r;
    var d, m := n / w, n % w;
    assert n == d * w + m;
    if q < d { BlockUp(q, d, w); }
    if d < q { BlockUp(d, q, w); }
  }

  lemma Regroup(q: nat, c: nat, d: nat, p: nat)
    ensures q * (c * p) + d * p == (q * c + d) * p
  {
  }

  /** Reducing modulo a multiple first changes nothing. */
  lemma ModOfMod(x: nat, c: nat, p: nat)
    requires 0 < c * p && 0 < p
    ensures (x % (c * p)) % p == x % p
  {
    var n := c * p;
    var q, r := x / n, x % n;
    var d, e := r / p, r % p;
    assert x == q * n + r;
    assert r == d * p + e;
    Regroup(q, c, d, p);
    ModUnique(q * c + d, e, p);
  }
}
