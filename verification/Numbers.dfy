/** The lesser and the greater of two numbers, powers of two, and quotients. */
module Numbers {
  function Min(a: nat, b: nat): nat {
    if a <= b then a else b
  }

  function Max(a: nat, b: nat): nat {
    if a <= b then b else a
  }

  function Power2(n: nat): (p: nat)
    ensures p >= 1
  {
    if n == 0 then 1 else 2 * Power2(n - 1)
  }

  lemma {:induction false} Product(d: nat, n: nat)
    ensures d * n >= 0
  {
    if n > 0 {
      Product(d, n - 1);
      assert d * n == d * (n - 1) + d;
    }
  }

  lemma MulGap(d: nat, a: int, b: int)
    requires a < b
    ensures d * a + d <= d * b
  {
    var k: nat := b - a - 1;
    Product(d, k);
    assert d * b == d * (a + 1 + k) == d * a + d + d * k;
  }

  lemma QuotientIs(n: nat, d: nat, q: nat)
    requires 0 < d && q * d <= n < (q + 1) * d
    ensures n / d == q
  {
    var q' := n / d;
    assert d * q' <= n < d * q' + d;
    if q' < q {
      MulGap(d, q', q);
    } else if q' > q {
      MulGap(d, q, q');
    }
  }
}
