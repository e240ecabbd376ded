/** Arithmetic shared by the components. */
module Numbers {
  function Max(a: int, b: int): int {
    if a >= b then a else b
  }

  lemma ProductNonNegative(x: real, y: real)
    requires x >= 0.0 && y >= 0.0
    ensures x * y >= 0.0
  {
  }

  lemma SquareNonNegative(x: real)
    ensures x * x >= 0.0
  {
  }

  function Product(x: real, y: real): real {
    x * y
  }

  lemma ProductSign(x: real, y: real)
    requires x > 0.0 && y > 0.0
    ensures Product(x, y) > 0.0
  {
  }

  lemma SquareOfNegative(x: real)
    ensures Product(-x, -x) == Product(x, x)
  {
  }

  lemma OnlyZeroSquaresToZero(x: real)
    ensures Product(x, x) == 0.0 ==> x == 0.0
  {
    hide Product;
    if x > 0.0 { ProductSign(x, x); }
    if x < 0.0 {
      ProductSign(-x, -x);
      SquareOfNegative(x);
    }
  }
}
