/** Products of reals behind a name, so that the facts below are all the solver needs about them. */
module Reals {

  function Product(a: real, b: real): real {
    a * b
  }

  lemma ProductCommutes(a: real, b: real)
    ensures Product(a, b) == Product(b, a)
  {
  }

  lemma ProductAssociates(a: real, b: real, c: real)
    ensures Product(Product(a, b), c) == Product(a, Product(b, c))
  {
  }

  lemma ProductDistributes(a: real, b: real, c: real)
    ensures Product(a, b + c) == Product(a, b) + Product(a, c)
    ensures Product(a, b - c) == Product(a, b) - Product(a, c)
    ensures Product(b + c, a) == Product(b, a) + Product(c, a)
    ensures Product(b - c, a) == Product(b, a) - Product(c, a)
  {
  }

  lemma ProductOfOne(a: real)
    ensures Product(1.0, a) == a == Product(a, 1.0) && Product(0.0, a) == 0.0 == Product(a, 0.0)
  {
  }

  lemma ProductNonNegative(a: real, b: real)
    requires a >= 0.0 && b >= 0.0
    ensures Product(a, b) >= 0.0
  {
  }

  lemma ProductPositive(a: real, b: real)
    requires a > 0.0 && b > 0.0
    ensures Product(a, b) > 0.0
  {
  }

  lemma ProductMonotone(k: real, a: real, b: real)
    requires k >= 0.0 && a <= b
    ensures Product(k, a) <= Product(k, b) && Product(a, k) <= Product(b, k)
  {
  }

  lemma ProductOfQuotient(a: real, b: real)
    requires b != 0.0
    ensures Product(a / b, b) == a
  {
  }

  lemma SquareNonNegative(a: real)
    ensures Product(a, a) >= 0.0 && (Product(a, a) == 0.0 <==> a == 0.0)
  {
    if a > 0.0 {
      ProductPositive(a, a);
    } else if a < 0.0 {
      ProductPositive(-a, -a);
      ProductOfNegatives(a, a);
    }
  }

  lemma ProductOfNegatives(a: real, b: real)
    ensures Product(-a, -b) == Product(a, b) && Product(-a, b) == -Product(a, b)
  {
  }

  /** A part of a positive whole. */
  lemma QuotientInRange(a: real, b: real)
    requires 0.0 <= a < b
    ensures 0.0 <= a / b < 1.0
  {
    var q := a / b;
    ProductOfQuotient(a, b);
    hide Product;
    ProductOfOne(b);
    if q < 0.0 {
      ProductPositive(-q, b);
      ProductOfNegatives(q, b);
    } else if q >= 1.0 {
      ProductMonotone(b, 1.0, q);
    }
  }

  lemma ProductCancels(a: real, b: real, m: real)
    requires m != 0.0 && Product(a, m) == Product(b, m)
    ensures a == b
  {
    ProductDistributes(m, a, b);
    ProductOfNegatives(a - b, -m);
    ProductOfNegatives(a - b, m);
    ProductOfNegatives(b - a, -m);
    hide Product;
    if a > b {
      if m > 0.0 { ProductPositive(a - b, m); } else { ProductPositive(a - b, -m); }
    } else if a < b {
      if m > 0.0 { ProductPositive(b - a, m); } else { ProductPositive(b - a, -m); }
    }
  }
}
