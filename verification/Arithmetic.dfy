/** Facts about products, quotients and remainders that the solver needs spelled out. */
module Arithmetic {

  lemma AtLeastOnce(d: nat, n: nat)
    requires d >= 1
    ensures d * n >= n
  {
    assert d * n == (d - 1) * n + n;
  }

  lemma ProductGrows(k: nat, x: int, y: int)
    requires x <= y
    ensures k * x <= k * y
  {
    assert k * (y - x) >= 0;
    assert k * y == k * x + k * (y - x);
  }

  lemma SmallerFactor(k: nat, x: int, y: int)
    requires k * x < k * y
    ensures x < y
  {
    if x >= y {
      ProductGrows(k, y, x);
    }
  }

  lemma OneMore(k: nat, x: int)
    ensures k * (x + 1) == k * x + k
  {
  }

  lemma QuotientUnique(n: nat, q: nat, r: nat, q': nat, r': nat)
    requires r < n && r' < n && q * n + r == q' * n + r'
    ensures q == q' && r == r'
  {
    if q < q' {
      assert q' * n == q * n + (q' - q) * n;
      AtLeastOnce(q' - q, n);
    } else if q' < q {
      assert q * n == q' * n + (q - q') * n;
      AtLeastOnce(q - q', n);
    }
  }

  lemma DivModUnique(x: nat, n: nat, q: nat, r: nat)
    requires n > 0 && r < n && x == q * n + r
    ensures x / n == q && x % n == r
  {
    QuotientUnique(n, x / n, x % n, q, r);
  }

  lemma ModStep(x: nat, n: nat)
    requires n > 0
    ensures (x + n) % n == x % n && (x + n) / n == x / n + 1
  {
    var q, r := x / n, x % n;
    assert x + n == (q + 1) * n + r;
    DivModUnique(x + n, n, q + 1, r);
  }

  lemma {:induction false} ModDropsMultiples(x: nat, k: nat, n: nat)
    requires n > 0
    ensures (x + k * n) % n == x % n
  {
    if k > 0 {
      ModDropsMultiples(x, k - 1, n);
      var y: nat := x + (k - 1) * n;
      assert x + k * n == y + n;
      ModStep(y, n);
    }
  }
}
