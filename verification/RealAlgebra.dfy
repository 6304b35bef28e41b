/** Facts about products of reals, each small enough to be used by name where the solver
    would otherwise have to search. */
module RealAlgebra {

  lemma Positive(a: real, b: real)
    requires a > 0.0 && b > 0.0
    ensures a * b > 0.0
  {
  }

  lemma ZeroProduct(a: real, b: real)
    requires a * b == 0.0
    ensures a == 0.0 || b == 0.0
  {
  }

  lemma SquareNonNegative(a: real)
    ensures a * a >= 0.0
  {
  }

  lemma SumOfSquares(a: real, b: real)
    requires a * a + b * b == 0.0
    ensures a == 0.0 && b == 0.0
  {
    SquareNonNegative(a);
    SquareNonNegative(b);
    ZeroProduct(a, a);
    ZeroProduct(b, b);
  }

  lemma CancelSquare(n: real, a: real, b: real)
    requires n > 0.0 && n * n * a == n * n * b
    ensures a == b
  {
    Positive(n, n);
    assert n * n * (a - b) == 0.0;
    ZeroProduct(n * n, a - b);
  }

  lemma SameSquare(a: real, b: real)
    requires a * a == b * b
    ensures a == b || a == -b
  {
    assert (a - b) * (a + b) == 0.0;
    ZeroProduct(a - b, a + b);
  }

  lemma Scale(a: real, b: real, c: real)
    requires a == b
    ensures a * c == b * c
  {
  }

  lemma SquareOf(a: real, b: real)
    requires a == b
    ensures a * a == b * b
  {
  }

  lemma ProductOf(a: real, e: real, b: real, f: real)
    requires a == e && b == f
    ensures a * b == e * f
  {
  }

  lemma TripleProduct(a: real, b: real, c: real, d: real, e: real, f: real)
    requires a == d && b == e && c == f
    ensures a * b * c == d * e * f
  {
  }

  lemma NonZero(a: real)
    requires a * a > 0.0
    ensures a != 0.0
  {
  }
}
