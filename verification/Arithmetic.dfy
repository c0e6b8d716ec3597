/** Division with remainder. */
module Arithmetic {

  lemma Multiple(n: nat, d: int)
    ensures d >= 1 ==> n * d >= n
    ensures d <= 0 ==> n * d <= 0
    ensures d <= -1 ==> n * d <= 0 - n
  {}

  /** Quotient and remainder are determined by the number they make up. */
  lemma DivMod(n: nat, q: nat, r: nat)
    requires r < n
    ensures (q * n + r) / n == q && (q * n + r) % n == r
  {
    var a := q * n + r;
    var d := a / n - q;
    assert a == n * (a / n) + a % n;
    assert n * d == n * (a / n) - n * q;
    assert n * d == r - a % n;
    Multiple(n, d);
  }

  lemma SmallResidue(n: nat, r: nat)
    requires r < n
    ensures r / n == 0 && r % n == r
  {
    DivMod(n, 0, r);
  }

  lemma NextResidue(a: nat, n: nat)
    requires n > 0
    ensures (a + n) % n == a % n
  {
    assert a + n == (a / n + 1) * n + a % n;
    DivMod(n, a / n + 1, a % n);
  }

  /** Numbers with the same remainder are at least `n` apart. */
  lemma ResidueGap(a: nat, x: nat, n: nat)
    requires n > 0 && a < x && a % n == x % n
    ensures x >= a + n
  {
    var d := x / n - a / n;
    Multiple(n, d);
    assert x - a == n * d;
  }

  lemma MultipleResidue(w: nat, d: int, a: nat)
    requires w > 0 && a == w * d
    ensures a % w == 0
  {
    var e := a / w - d;
    assert w * e == 0 - a % w;
    Multiple(w, e);
  }

  lemma SameResidueIff(w: nat, t: nat, u: nat)
    requires w > 0 && t <= u
    ensures t % w == u % w <==> (u - t) % w == 0
  {
    var d := u / w - t / w;
    assert t == w * (t / w) + t % w && u == w * (u / w) + u % w;
    assert u - t == w * d + (u % w - t % w);
    if t % w == u % w {
      MultipleResidue(w, d, u - t);
    } else if (u - t) % w == 0 {
      var e := (u - t) / w - d;
      assert w * e == u % w - t % w;
      Multiple(w, e);
    }
  }

  lemma CountUp(t: nat, w: nat)
    requires w > 0
    ensures if t % w + 1 < w then (t + 1) / w == t / w && (t + 1) % w == t % w + 1
            else (t + 1) / w == t / w + 1 && (t + 1) % w == 0
  {
    var q, r := t / w, t % w;
    assert t == q * w + r;
    if r + 1 < w {
      DivMod(w, q, r + 1);
    } else {
      assert (q + 1) * w == q * w + w;
      DivMod(w, q + 1, 0);
    }
  }
}
