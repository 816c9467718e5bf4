/** Facts about products, quotients and remainders that the index arithmetic of several modules needs. */
module Arithmetic {
  function Min(a: int, b: int): int {
    if a < b then a else b
  }

  lemma MulAtLeast(a: int, w: int)
    requires a >= 1 && w > 0
    ensures a * w >= w
  {
  }

  lemma MulMono(p: int, q: int, w: nat)
    requires p <= q
    ensures p * w <= q * w
  {
    assert (q - p) * w >= 0;
    assert (q - p) * w == q * w - p * w;
  }

  /** A multiple less than one step above another is not above it. */
  lemma MultiplesApart(p: int, q: int, w: nat)
    requires p * w < q * w + w
    ensures p * w <= q * w
  {
    assert (q + 1) * w == q * w + w;
    if p > q {
      MulMono(q + 1, p, w);
    } else {
      MulMono(p, q, w);
    }
  }

  lemma BlockBefore(i: nat, m: nat, w: nat)
    requires i < m
    ensures i * w + w <= m * w && (i + 1) * w == i * w + w
  {
    assert m * w == (i + 1) * w + (m - i - 1) * w;
  }

  /** Quotient and remainder are determined by x == q * w + r. */
  lemma DivMod(x: int, q: int, r: int, w: int)
    requires 0 < w && x == q * w + r && 0 <= r < w
    ensures x / w == q && x % w == r
  {
    var d, m := x / w, x % w;
    var e := q - d;
    assert e * w == m - r by {
      assert x == d * w + m;
      assert e * w == q * w - d * w;
    }
    assert (0 - e) * w == 0 - e * w;
    if e >= 1 {
      MulAtLeast(e, w);
    } else if e <= -1 {
      MulAtLeast(0 - e, w);
    }
  }

  function Div(n: nat, w: nat): nat
    requires w > 0
  {
    n / w
  }

  predicate Multiple(n: nat, w: nat)
    requires w > 0
  {
    n % w == 0
  }

  lemma BlocksAlign(n: nat, w: nat)
    requires 0 < w <= n && Multiple(n, w)
    ensures Multiple(n - w, w)
  {
    var q := n / w;
    assert n == q * w;
    assert (q - 1) * w == q * w - w;
    DivMod(n - w, q - 1, 0, w);
  }
}
