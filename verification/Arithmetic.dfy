/** Facts about products, quotients and remainders that the solver should not have to search for. */
module Arithmetic {

  lemma Distributes(a: int, b: int, c: int)
    ensures a * (b + c) == a * b + a * c
    ensures (b + c) * a == b * a + c * a
  {
  }

  lemma ProductMonotone(a: int, b: int, c: int)
    requires a <= b && c >= 0
    ensures a * c <= b * c
    ensures c * a <= c * b
  {
  }

  /** x == q * k + r with r in range determines quotient and remainder. */
  lemma QuotientUnique(x: int, q: int, r: int, k: int)
    requires k > 0 && 0 <= r < k && x == q * k + r
    ensures x / k == q && x % k == r
  {
    var q', r' := x / k, x % k;
    assert x == q' * k + r';
    if q' < q {
      ProductMonotone(q' + 1, q, k);
      Distributes(k, q', 1);
      assert false;
    } else if q' > q {
      ProductMonotone(q + 1, q', k);
      Distributes(k, q, 1);
      assert false;
    }
  }

  lemma QuotientOfMultiple(q: int, k: int)
    requires k > 0
    ensures (q * k) / k == q && (q * k) % k == 0
  {
    QuotientUnique(q * k, q, 0, k);
  }

  lemma RemoveOneMultiple(a: int, k: int)
    requires k > 0
    ensures (a - k) % k == a % k && (a - k) / k == a / k - 1
  {
    var q := a / k;
    assert a == q * k + a % k;
    Distributes(k, q, -1);
    QuotientUnique(a - k, q - 1, a % k, k);
  }

  lemma PositiveMultiple(a: int, k: int)
    requires k > 0 && a > 0 && a % k == 0
    ensures a >= k
  {
  }

  function CeilDiv(a: int, b: int): int
    requires b > 0
  {
    (a + b - 1) / b
  }

  lemma CeilDivIs(a: int, b: int, m: int)
    requires b > 0
    ensures a <= m * b <==> CeilDiv(a, b) <= m
  {
    var q, r := (a + b - 1) / b, (a + b - 1) % b;
    assert a + b - 1 == q * b + r;
    if q <= m {
      ProductMonotone(q, m, b);
    } else {
      ProductMonotone(m, q - 1, b);
      Distributes(b, q, -1);
    }
  }
}
