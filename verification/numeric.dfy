/** Rounding and casts that the solver's float code relies on, stated on exact reals. */
module Numeric {

  /** `ceil` of an exact real: the least integer not below `x`. */
  function Ceil(x: real): (r: int)
    ensures r as real - 1.0 < x <= r as real
  {
    -((-x).Floor)
  }

  /** A float-to-`usize` cast of an integral value: negative values saturate to zero. */
  function ToUsize(x: int): (r: nat)
    ensures x >= 0 ==> r == x
    ensures x < 0 ==> r == 0
  {
    if x < 0 then 0 else x
  }

  function Max(a: int, b: int): (m: int)
    ensures m >= a && m >= b && (m == a || m == b)
  {
    if a >= b then a else b
  }

  function Min(a: int, b: int): (m: int)
    ensures m <= a && m <= b && (m == a || m == b)
  {
    if a <= b then a else b
  }

  /** `c * a <= c * b` for `a <= b` and `c >= 0`. */
  lemma IntMulMono(a: int, b: int, c: int)
    requires a <= b && c >= 0
    ensures c * a <= c * b
  {
    assert c * b - c * a == c * (b - a);
  }

  /** `c * a < c * b` for `a < b` and `c > 0`. */
  lemma IntMulStrict(a: int, b: int, c: int)
    requires a < b && c > 0
    ensures c * a < c * b
  {
    assert c * b - c * a == c * (b - a);
  }

  /** Euclidean division is determined by quotient and remainder: if `a == b * q + r` with
      `0 <= r < b`, then `a / b == q` and `a % b == r`. */
  lemma DivModUnique(a: int, b: int, q: int, r: int)
    requires b > 0 && 0 <= r < b && a == b * q + r
    ensures a / b == q && a % b == r
  {
    var q', r' := a / b, a % b;
    assert a == b * q' + r' && 0 <= r' < b;
    if q' < q {
      IntMulMono(q' + 1, q, b);
    } else if q < q' {
      IntMulMono(q + 1, q', b);
    }
  }

  // ---------------------------------------------------------------------------
  // Real arithmetic helpers, stated over distinct variables so that callers can pass
  // the same variable twice

  lemma MulMono(a: real, b: real, c: real)
    requires a <= b && c >= 0.0
    ensures c * a <= c * b
  {
    assert c * b - c * a == c * (b - a);
  }

  lemma MulMonoRight(a: real, b: real, c: real)
    requires a <= b && c >= 0.0
    ensures a * c <= b * c
  {
    assert b * c - a * c == (b - a) * c;
  }

  lemma MulStrict(a: real, b: real, c: real)
    requires a < b && c > 0.0
    ensures c * a < c * b
  {
    assert c * b - c * a == c * (b - a);
  }

  lemma MulPos(a: real, b: real)
    requires a > 0.0 && b > 0.0
    ensures a * b > 0.0
  {
  }

  lemma MulNonpos(a: real, b: real)
    requires a >= 0.0 && b <= 0.0
    ensures a * b <= 0.0
  {
  }

  lemma MulNonneg(a: real, b: real)
    requires a >= 0.0 && b >= 0.0
    ensures a * b >= 0.0
  {
  }

  /** `x y <= x` for `x >= 0` and `y <= 1`. */
  lemma ProductBelow(x: real, y: real)
    requires 0.0 <= x && y <= 1.0
    ensures x * y <= x
  {
    assert x * y - x == x * (y - 1.0);
    MulMono(y - 1.0, 0.0, x);
  }

  lemma DivPos(a: real, b: real)
    requires a > 0.0 && b > 0.0
    ensures a / b > 0.0
  {
  }

  /** Dividing by c and multiplying back gives the original value. */
  lemma DivMulCancel(x: real, c: real)
    requires c != 0.0
    ensures (x / c) * c == x
  {
  }

  /** Dividing by a positive number keeps the sign. */
  lemma DivSign(x: real, c: real)
    requires c > 0.0
    ensures x < 0.0 <==> x / c < 0.0
  {
    DivMulCancel(x, c);
    if x / c < 0.0 {
      MulStrictRight(x / c, 0.0, c);
    } else {
      MulNonneg(x / c, c);
    }
  }

  lemma MulStrictRight(a: real, b: real, c: real)
    requires a < b && c > 0.0
    ensures a * c < b * c
  {
    assert b * c - a * c == (b - a) * c;
    MulPos(b - a, c);
  }
}
