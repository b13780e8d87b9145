/** Real arithmetic shared by the kernels.  Square roots enter as a function known by its sign and its square. */
module Reals {

  /** `sqrt` is known by its sign and its square only. */
  ghost predicate IsSqrt(sqrt: real -> real) {
    forall v :: v >= 0.0 ==> sqrt(v) >= 0.0 && sqrt(v) * sqrt(v) == v
  }

  function Abs(x: real): real {
    if x < 0.0 then -x else x
  }

  function Max(x: real, y: real): real {
    if x >= y then x else y
  }

  function Min(a: real, b: real): real {
    if a <= b then a else b
  }

  function Ceil(x: real): int {
    -((-x).Floor)
  }

  function Square(x: real): real {
    x * x
  }

  lemma QuotientTimes(a: real, b: real)
    requires b != 0.0
    ensures a / b * b == a
  {
  }

  lemma ProductMonotone(a: real, b: real, c: real, d: real)
    requires 0.0 <= a <= c && 0.0 <= b <= d
    ensures a * b <= c * d
  {
    assert a * b <= c * b;
    assert c * b <= c * d;
  }

  /** Non-negative numbers compare as their squares do. */
  lemma SquareOrder(x: real, y: real)
    requires x >= 0.0 && y >= 0.0
    ensures x <= y <==> x * x <= y * y
  {
    if x <= y {
      ProductMonotone(x, x, y, y);
    } else {
      ProductMonotone(y, y, x, y);
      ScalePositive(x, x - y);
      assert x * (x - y) == x * x - x * y;
    }
  }

  lemma ScalePositive(d: real, x: real)
    requires d > 0.0
    ensures (d * x >= 0.0 <==> x >= 0.0) && (d * x <= 0.0 <==> x <= 0.0)
  {
  }
}
