/** Products and quotients, one small step at a time. */
module Arithmetic {

  lemma MulStep(a: int, x: int)
    ensures (a + 1) * x == a * x + x
  {
  }

  lemma MulNonNegative(a: int, b: int)
    requires 0 <= a && 0 <= b
    ensures 0 <= a * b
  {
  }

  lemma MulOrder(a: int, b: int, x: int)
    requires a <= b && 0 <= x
    ensures a * x <= b * x
  {
    MulNonNegative(b - a, x);
  }

  lemma MulOrderRight(x: int, a: int, b: int)
    requires 0 <= x && a <= b
    ensures x * a <= x * b
  {
    MulNonNegative(x, b - a);
  }

  lemma Distribute(x: int, a: int, b: int)
    ensures x * (a + b) == x * a + x * b
  {
  }

  /** The quotient of a division by a positive number is the only one that fits. */
  lemma QuotientIs(x: int, c: int, q: int)
    requires 0 < c && q * c <= x < q * c + c
    ensures x / c == q
  {
    var d := x / c;
    if q < d {
      MulStep(q, c);
      MulOrder(q + 1, d, c);
    } else if d < q {
      MulStep(d, c);
      MulOrder(d + 1, q, c);
    }
  }

  lemma QuotientAtLeast(x: int, c: int, q: int)
    requires 0 < c && q * c <= x
    ensures q <= x / c
  {
    var d := x / c;
    if d < q {
      MulStep(d, c);
      MulOrder(d + 1, q, c);
    }
  }

  lemma QuotientOneMore(x: int, c: int)
    requires 0 < c
    ensures (x + c) / c == x / c + 1
  {
    MulStep(x / c, c);
    QuotientIs(x + c, c, x / c + 1);
  }

  lemma QuotientOrder(x: int, y: int, c: int)
    requires 0 < c && x <= y
    ensures x / c <= y / c
  {
    QuotientAtLeast(y, c, x / c);
  }
}
