/**
 * The smoothing kernel of the solver (crates/sph/src/kernel.rs) and its TypeScript
 * twin (src/kernel.ts): a piecewise cubic in q = 2 r invH, zero from q = 2 on,
 * and its derivative with respect to r.
 */
module Kernel {
  import opened Numeric

  /** The value of `std::f64::consts::PI` / `Math.PI`; the lemmas use only that it is positive. */
  const PI: real := 3.141592653589793

  /** The 2D normalisation factor `10 invH^2 / (7 pi)`. */
  function Norm(invH: real): real
  {
    10.0 * invH * invH / (7.0 * PI)
  }

  /** The cubic of the inner branch, used for q < 1. */
  function InnerPoly(q: real): real
  {
    4.0 - 6.0 * q * q + 3.0 * q * q * q
  }

  /** Its derivative in q. */
  function DInnerPoly(q: real): real
  {
    -12.0 * q + 9.0 * q * q
  }

  /** The cube (2 - q)^3 of the outer branch, used for 1 <= q < 2. */
  function OuterPoly(q: real): real
  {
    var term := 2.0 - q;
    term * term * term
  }

  /** Its derivative in q. */
  function DOuterPoly(q: real): real
  {
    var term := 2.0 - q;
    -3.0 * term * term
  }

  /** `kernel` for a given normalisation, as a function of q. */
  function KernelQ(norm: real, q: real): real
  {
    if q >= 2.0 then 0.0
    else if q < 1.0 then norm * InnerPoly(q)
    else norm * OuterPoly(q)
  }

  /** `kernel(r, inv_h)`: the piecewise cubic at q = 2 r invH. */
  function Kernel(r: real, invH: real): real
  {
    KernelQ(Norm(invH), 2.0 * r * invH)
  }

  /** `d_kernel` as a function of q: each branch differentiated in q, times the chain factor 2 invH. */
  function DKernelQ(norm: real, q: real, invH: real): real
  {
    if q >= 2.0 then 0.0
    else if q < 1.0 then norm * DInnerPoly(q) * 2.0 * invH
    else norm * DOuterPoly(q) * 2.0 * invH
  }

  /** `d_kernel(r, inv_h)`. */
  function DKernel(r: real, invH: real): real
  {
    DKernelQ(Norm(invH), 2.0 * r * invH, invH)
  }

  /** `kernel` of src/kernel.ts, written out as that file has it. */
  function KernelTs(r: real, invH: real): real
  {
    var norm := 10.0 * invH * invH / (7.0 * PI);
    var q := 2.0 * r * invH;
    if q >= 2.0 then 0.0
    else if q < 1.0 then norm * (4.0 - 6.0 * q * q + 3.0 * q * q * q)
    else var term := 2.0 - q; norm * term * term * term
  }

  /** The normalisation formula is positive for a positive product a b. */
  lemma NormOf(a: real, b: real)
    requires a * b > 0.0
    ensures 10.0 * a * b / (7.0 * PI) > 0.0
  {
    assert 10.0 * a * b == 10.0 * (a * b);
    DivPos(10.0 * (a * b), 7.0 * PI);
  }

  lemma NormPositive(invH: real)
    requires invH != 0.0
    ensures Norm(invH) > 0.0
  {
    if invH > 0.0 {
      MulPos(invH, invH);
    } else {
      MulPos(-invH, -invH);
    }
    NormOf(invH, invH);
  }

  // ---------------------------------------------------------------------------
  // Facts about the polynomials in q

  lemma InnerMinusOne(q: real)
    ensures InnerPoly(q) - 1.0 == 3.0 * (1.0 - q) * (1.0 + q - q * q)
  {
  }

  /** Inside the unit interval the inner cubic stays above its value 1 at q = 1. */
  lemma InnerAboveOne(q: real)
    requires 0.0 <= q < 1.0
    ensures InnerPoly(q) > 1.0
  {
    ProductBelow(q, q);
    InnerMinusOne(q);
    MulPos(3.0 * (1.0 - q), 1.0 + q - q * q);
  }

  lemma InnerDifference(a: real, b: real)
    ensures InnerPoly(a) - InnerPoly(b) == (b - a) * (6.0 * (a + b) - 3.0 * (a * a + a * b + b * b))
  {
  }

  lemma SumBound(x: real, y: real, z: real, a: real, b: real)
    requires x <= a && y <= a && z <= b
    ensures x + y + z <= 2.0 * a + b
  {
  }

  /** The inner cubic strictly decreases on [0, 1]. */
  lemma InnerDecreasing(a: real, b: real)
    requires 0.0 <= a < b <= 1.0
    ensures InnerPoly(b) < InnerPoly(a)
  {
    ProductBelow(a, a);
    ProductBelow(b, b);
    ProductBelow(a, b);
    SumBound(a * a, a * b, b * b, a, b);
    InnerDifference(a, b);
    MulPos(b - a, 6.0 * (a + b) - 3.0 * (a * a + a * b + b * b));
  }

  /** Cubes strictly increase on the non-negative reals. */
  lemma CubeIncreasing(s: real, t: real)
    requires 0.0 <= s < t
    ensures s * s * s < t * t * t
  {
    MulMono(s, t, s);
    MulMonoRight(s, t, t);
    assert s * s <= t * t;
    MulMonoRight(s * s, t * t, s);
    MulPos(t, t);
    MulStrict(s, t, t * t);
    assert (t * t) * s == (t * t) * s;
  }

  /** On [1, 2) the outer cube lies in (0, 1] and strictly decreases. */
  lemma OuterBounds(a: real, b: real)
    requires 1.0 <= a < b <= 2.0
    ensures OuterPoly(b) < OuterPoly(a) <= 1.0
    ensures b < 2.0 ==> 0.0 < OuterPoly(b)
  {
    var s, t := 2.0 - b, 2.0 - a;
    CubeIncreasing(s, t);
    if t < 1.0 {
      CubeIncreasing(t, 1.0);
    }
    if b < 2.0 {
      CubeIncreasing(0.0, s);
    }
  }

  // ---------------------------------------------------------------------------
  // Properties of the kernel as a function of q

  /** Positive on [0, 2) for a positive normalisation. */
  lemma KernelQPositive(norm: real, q: real)
    requires norm > 0.0 && 0.0 <= q < 2.0
    ensures KernelQ(norm, q) > 0.0
  {
    if q < 1.0 {
      InnerAboveOne(q);
      MulPos(norm, InnerPoly(q));
    } else {
      if q > 1.0 {
        OuterBounds(1.0, q);
      }
      MulPos(norm, OuterPoly(q));
    }
  }

  /** Decrease between a point of the inner branch and one of the outer branch. */
  lemma InnerAboveOuter(norm: real, a: real, b: real)
    requires norm > 0.0 && 0.0 <= a < 1.0 <= b < 2.0
    ensures norm * OuterPoly(b) < norm * InnerPoly(a)
  {
    InnerAboveOne(a);
    if b > 1.0 {
      OuterBounds(1.0, b);
    }
    MulMono(OuterPoly(b), 1.0, norm);
    MulStrict(1.0, InnerPoly(a), norm);
  }

  /** Strictly decreasing from any point of [0, 2) on. */
  lemma KernelQStrict(norm: real, a: real, b: real)
    requires norm > 0.0 && 0.0 <= a < b && a < 2.0
    ensures KernelQ(norm, b) < KernelQ(norm, a)
  {
    if b >= 2.0 {
      KernelQPositive(norm, a);
    } else if b < 1.0 {
      InnerDecreasing(a, b);
      MulStrict(InnerPoly(b), InnerPoly(a), norm);
    } else if a >= 1.0 {
      OuterBounds(a, b);
      MulStrict(OuterPoly(b), OuterPoly(a), norm);
    } else {
      InnerAboveOuter(norm, a, b);
    }
  }

  /** The q-derivative is never positive on [0, 2) and is zero beyond. */
  lemma DKernelQNonPositive(norm: real, q: real, invH: real)
    requires norm > 0.0 && invH > 0.0 && q >= 0.0
    ensures DKernelQ(norm, q, invH) <= 0.0
  {
    if q < 2.0 {
      var dp := if q < 1.0 then DInnerPoly(q) else DOuterPoly(q);
      if q < 1.0 {
        DInnerNonPositive(q);
      } else {
        DOuterNonPositive(q);
      }
      NonPositiveScaled(norm, dp, invH);
    }
  }

  lemma NonPositiveScaled(n: real, p: real, h: real)
    requires n > 0.0 && p <= 0.0 && h > 0.0
    ensures n * p * 2.0 * h <= 0.0
  {
    MulNonpos(n, p);
    MulNonpos(2.0 * h, n * p);
    assert n * p * 2.0 * h == (2.0 * h) * (n * p);
  }

  lemma DInnerNonPositive(q: real)
    requires 0.0 <= q < 1.0
    ensures DInnerPoly(q) <= 0.0
  {
    assert DInnerPoly(q) == (3.0 * q) * (3.0 * q - 4.0);
    MulNonpos(3.0 * q, 3.0 * q - 4.0);
  }

  lemma DOuterNonPositive(q: real)
    ensures DOuterPoly(q) <= 0.0
  {
    assert DOuterPoly(q) == -3.0 * ((2.0 - q) * (2.0 - q));
    if 2.0 - q >= 0.0 {
      MulNonneg(2.0 - q, 2.0 - q);
    } else {
      MulNonneg(q - 2.0, q - 2.0);
      assert (q - 2.0) * (q - 2.0) == (2.0 - q) * (2.0 - q);
    }
  }

  /** Remainder of the linear approximation of the inner cubic: of order d^2. */
  function InnerRemainder(q: real, d: real): real
  {
    d * d * (9.0 * q - 6.0 + 3.0 * d)
  }

  /** Remainder of the linear approximation of the outer cube: of order d^2. */
  function OuterRemainder(q: real, d: real): real
  {
    d * d * (6.0 - 3.0 * q - d)
  }

  /** Taylor expansion of the inner cubic: exact, with a remainder quadratic in d. */
  lemma InnerTaylor(q: real, d: real)
    ensures InnerPoly(q + d) - InnerPoly(q) - d * DInnerPoly(q) == InnerRemainder(q, d)
  {
    assert (q + d) * (q + d) == q * q + 2.0 * q * d + d * d;
    assert (q + d) * (q + d) * (q + d) == q * q * q + 3.0 * q * q * d + 3.0 * q * d * d + d * d * d;
  }

  /** Taylor expansion of the outer cube. */
  lemma OuterTaylor(q: real, d: real)
    ensures OuterPoly(q + d) - OuterPoly(q) - d * DOuterPoly(q) == OuterRemainder(q, d)
  {
    assert 2.0 - (q + d) == (2.0 - q) - d;
    assert ((2.0 - q) - d) * ((2.0 - q) - d) == (2.0 - q) * (2.0 - q) - 2.0 * (2.0 - q) * d + d * d;
    assert ((2.0 - q) - d) * ((2.0 - q) - d) * ((2.0 - q) - d)
        == (2.0 - q) * (2.0 - q) * (2.0 - q) - 3.0 * (2.0 - q) * (2.0 - q) * d
           + 3.0 * (2.0 - q) * d * d - d * d * d;
  }

  lemma FactorNorm(n: real, p1: real, p0: real, x: real)
    ensures n * p1 - n * p0 - n * x == n * (p1 - p0 - x)
  {
  }

  /** One step d inside the inner branch. */
  lemma InnerStep(norm: real, q: real, d: real)
    requires 0.0 <= q < 1.0 && 0.0 <= q + d < 1.0
    ensures KernelQ(norm, q + d) - KernelQ(norm, q) - norm * (d * DInnerPoly(q))
         == norm * InnerRemainder(q, d)
  {
    FactorNorm(norm, InnerPoly(q + d), InnerPoly(q), d * DInnerPoly(q));
    InnerTaylor(q, d);
  }

  /** One step d inside the outer branch. */
  lemma OuterStep(norm: real, q: real, d: real)
    requires 1.0 <= q < 2.0 && 1.0 <= q + d < 2.0
    ensures KernelQ(norm, q + d) - KernelQ(norm, q) - norm * (d * DOuterPoly(q))
         == norm * OuterRemainder(q, d)
  {
    FactorNorm(norm, OuterPoly(q + d), OuterPoly(q), d * DOuterPoly(q));
    OuterTaylor(q, d);
  }

  // ---------------------------------------------------------------------------
  // Properties of the kernel in r

  /** Compact support: the kernel and its derivative vanish from r = h on (q = 2 r invH >= 2). */
  lemma KernelSupport(r: real, invH: real)
    requires r * invH >= 1.0
    ensures Kernel(r, invH) == 0.0
    ensures DKernel(r, invH) == 0.0
  {
    assert 2.0 * r * invH == 2.0 * (r * invH);
  }

  /** For 0 <= r < h the argument q = 2 r invH lies in [0, 2). */
  lemma QInSupport(r: real, invH: real)
    requires r >= 0.0 && invH > 0.0 && r * invH < 1.0
    ensures 0.0 <= 2.0 * r * invH < 2.0
  {
    MulNonneg(r, invH);
    assert 2.0 * r * invH == 2.0 * (r * invH);
  }

  /** Positivity inside the support: 0 <= r < h gives a positive weight. */
  lemma KernelPositive(r: real, invH: real)
    requires r >= 0.0 && invH > 0.0 && r * invH < 1.0
    ensures Kernel(r, invH) > 0.0
  {
    NormPositive(invH);
    QInSupport(r, invH);
    KernelQPositive(Norm(invH), 2.0 * r * invH);
  }

  /** The kernel at the origin is four times the normalisation, hence positive,
      and the derivative vanishes there. */
  lemma KernelAtOrigin(invH: real)
    requires invH != 0.0
    ensures Kernel(0.0, invH) == 4.0 * Norm(invH) > 0.0
    ensures DKernel(0.0, invH) == 0.0
  {
    NormPositive(invH);
  }

  /** Both branches equal the normalisation factor at q = 1, so the kernel is continuous there;
      the two branches of the derivative agree at q = 1, and the outer ones vanish at q = 2. */
  lemma KernelContinuousAtOne(norm: real)
    ensures norm * InnerPoly(1.0) == norm == norm * OuterPoly(1.0)
    ensures DInnerPoly(1.0) == -3.0 == DOuterPoly(1.0)
    ensures OuterPoly(2.0) == 0.0 && DOuterPoly(2.0) == 0.0
  {
  }

  /** Scaling by 2 invH > 0 keeps the order of two radii. */
  lemma QOrder(r1: real, r2: real, invH: real)
    requires 0.0 <= r1 < r2 && invH > 0.0
    ensures 2.0 * r1 * invH < 2.0 * r2 * invH
  {
    MulStrict(r1, r2, 2.0 * invH);
    assert 2.0 * r1 * invH == (2.0 * invH) * r1;
    assert 2.0 * r2 * invH == (2.0 * invH) * r2;
  }

  /** Strict decrease: a point inside the support weighs more than any point farther out. */
  lemma KernelStrictlyDecreasing(r1: real, r2: real, invH: real)
    requires 0.0 <= r1 < r2 && invH > 0.0 && r1 * invH < 1.0
    ensures Kernel(r2, invH) < Kernel(r1, invH)
  {
    QOrder(r1, r2, invH);
    QInSupport(r1, invH);
    NormPositive(invH);
    KernelQStrict(Norm(invH), 2.0 * r1 * invH, 2.0 * r2 * invH);
  }

  /** The kernel is non-increasing in r >= 0. */
  lemma KernelMonotone(r1: real, r2: real, invH: real)
    requires 0.0 <= r1 <= r2 && invH > 0.0
    ensures Kernel(r2, invH) <= Kernel(r1, invH)
  {
    if r1 < r2 {
      if r1 * invH < 1.0 {
        KernelStrictlyDecreasing(r1, r2, invH);
      } else {
        MulMono(r1, r2, invH);
        KernelSupport(r1, invH);
        KernelSupport(r2, invH);
      }
    }
  }

  /** Moving r by e moves q = 2 r invH by d = 2 e invH. */
  lemma ShiftQ(r: real, e: real, invH: real)
    ensures 2.0 * (r + e) * invH == 2.0 * r * invH + 2.0 * e * invH
  {
  }

  /** The chain factor: e times the q-derivative times 2 invH is d times the q-derivative. */
  lemma ChainFactor(n: real, dp: real, e: real, invH: real)
    ensures e * (n * dp * 2.0 * invH) == n * ((2.0 * e * invH) * dp)
  {
  }

  /** On the inner branch `d_kernel` is the derivative of `kernel` in r: the error of the
      linear approximation over a step e is norm d^2 (9 q - 6 + 3 d), with q = 2 r invH and
      d = 2 e invH: of second order in e. */
  lemma DKernelInnerIsDerivative(r: real, e: real, invH: real)
    requires 0.0 <= 2.0 * r * invH < 1.0 && 0.0 <= 2.0 * (r + e) * invH < 1.0
    ensures Kernel(r + e, invH) - Kernel(r, invH) - e * DKernel(r, invH)
         == Norm(invH) * InnerRemainder(2.0 * r * invH, 2.0 * e * invH)
  {
    ShiftQ(r, e, invH);
    ChainFactor(Norm(invH), DInnerPoly(2.0 * r * invH), e, invH);
    InnerStep(Norm(invH), 2.0 * r * invH, 2.0 * e * invH);
  }

  /** On the outer branch `d_kernel` is the derivative of `kernel` in r: the error of the
      linear approximation is norm d^2 (6 - 3 q - d). */
  lemma DKernelOuterIsDerivative(r: real, e: real, invH: real)
    requires 1.0 <= 2.0 * r * invH < 2.0 && 1.0 <= 2.0 * (r + e) * invH < 2.0
    ensures Kernel(r + e, invH) - Kernel(r, invH) - e * DKernel(r, invH)
         == Norm(invH) * OuterRemainder(2.0 * r * invH, 2.0 * e * invH)
  {
    ShiftQ(r, e, invH);
    ChainFactor(Norm(invH), DOuterPoly(2.0 * r * invH), e, invH);
    OuterStep(Norm(invH), 2.0 * r * invH, 2.0 * e * invH);
  }

  /** The derivative is never positive for r >= 0 and vanishes outside the support. */
  lemma DKernelNonPositive(r: real, invH: real)
    requires r >= 0.0 && invH > 0.0
    ensures DKernel(r, invH) <= 0.0
    ensures r * invH >= 1.0 ==> DKernel(r, invH) == 0.0
  {
    NormPositive(invH);
    MulNonneg(r, invH);
    assert 2.0 * r * invH == 2.0 * (r * invH);
    DKernelQNonPositive(Norm(invH), 2.0 * r * invH, invH);
  }

  /** The TypeScript kernel gives the same value as the Rust one for every r and invH. */
  lemma KernelTsMatchesRust(r: real, invH: real)
    ensures KernelTs(r, invH) == Kernel(r, invH)
  {
  }
}
