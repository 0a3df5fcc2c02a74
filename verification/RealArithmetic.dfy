/** Facts about products and quotients of reals that the solver is given one at a
    time. */
module RealArithmetic {
  /** The product is passed by name: the solver loses the sign of an unnamed one. */
  lemma Positive(a: real, b: real, product: real)
    requires a > 0.0 && b > 0.0 && product == a * b
    ensures product > 0.0
  {
  }

  lemma SignOfFactor(a: real, b: real)
    requires a > 0.0
    ensures a * b >= 0.0 <==> b >= 0.0
    ensures a * b > 0.0 <==> b > 0.0
  {
  }

  lemma Products(a: real, b: real, c: real, d: real)
    requires 0.0 <= a <= b && 0.0 <= c <= d
    ensures 0.0 <= a * c <= b * d
  {
    assert (b - a) * c >= 0.0;
    assert b * (d - c) >= 0.0;
  }

  lemma Quotient(a: real, b: real, q: real)
    requires a > 0.0 && b > 0.0 && q == a / b
    ensures q * b == a && q > 0.0
  {
    assert q * b == a;
    SignOfFactor(b, q);
  }

  lemma SquareOver(a: real, b: real, q: real)
    requires a > 0.0 && b > 0.0 && q == a * a / b
    ensures q * b == a * a && q > 0.0
  {
    var square := a * a;
    Positive(a, a, square);
    Quotient(square, b, q);
  }
}
