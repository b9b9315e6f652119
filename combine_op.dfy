/**
 * The binary combinators of sdf/combineop.h. Each `combinedDist(s1, s2)` merges the running
 * distance `s1` of a chain with the distance `s2` of the next shape. `float` is modelled as `real`.
 */
module CombineOp {

  /** SDFSmoothUnion divides by its smoothing amount, so zero is excluded. */
  type NonZeroReal = k: real | k != 0.0 witness 1.0

  /** The concrete SDFCombineOp subclasses. */
  datatype CombineOp = Union | SmoothUnion(smoothAmount: NonZeroReal) | Displace

  /** glm::min: `b < a ? b : a`. */
  function Min(a: real, b: real): (r: real)
    ensures r <= a && r <= b
    ensures r == a || r == b
  {
    if b < a then b else a
  }

  /** glm::clamp(x, lo, hi) = min(max(x, lo), hi). */
  function Clamp(x: real, lo: real, hi: real): (r: real)
    requires lo <= hi
    ensures lo <= r <= hi
    ensures lo <= x <= hi ==> r == x
    ensures x <= lo ==> r == lo
    ensures hi <= x ==> r == hi
  {
    var m := if x < lo then lo else x;
    if hi < m then hi else m
  }

  /** glm::mix: linear interpolation from x (a == 0) to y (a == 1). */
  function Mix(x: real, y: real, a: real): real
  {
    x * (1.0 - a) + y * a
  }

  /** SDFUnion::combinedDist (combineop.h:14-16). */
  function UnionDist(s1: real, s2: real): (r: real)
    ensures r <= s1 && r <= s2
    ensures r == s1 || r == s2
  {
    Min(s1, s2)
  }

  /** The blend weight `h` of SDFSmoothUnion (combineop.h:32). */
  function SmoothWeight(k: NonZeroReal, s1: real, s2: real): (h: real)
    ensures 0.0 <= h <= 1.0
  {
    Clamp(0.5 + 0.5 * (s2 - s1) / k, 0.0, 1.0)
  }

  /** SDFSmoothUnion::combinedDist (combineop.h:31-34). */
  function SmoothUnionDist(k: NonZeroReal, s1: real, s2: real): real
  {
    var h := SmoothWeight(k, s1, s2);
    Mix(s2, s1, h) - k * h * (1.0 - h)
  }

  /** SDFDisplace::combinedDist (combineop.h:48). */
  function DisplaceDist(s1: real, s2: real): real
  {
    s1 + s2
  }

  /** Virtual dispatch of SDFCombineOp::combinedDist. */
  function CombinedDist(c: CombineOp, s1: real, s2: real): real
  {
    match c
    case Union => UnionDist(s1, s2)
    case SmoothUnion(k) => SmoothUnionDist(k, s1, s2)
    case Displace => DisplaceDist(s1, s2)
  }

  /** Union does not depend on the order of its operands. */
  lemma UnionCommutative(s1: real, s2: real)
    ensures UnionDist(s1, s2) == UnionDist(s2, s1)
  {
  }

  /** Clamping to [0, 1] commutes with reflection about 1/2. */
  lemma ClampReflect(x: real)
    ensures Clamp(1.0 - x, 0.0, 1.0) == 1.0 - Clamp(x, 0.0, 1.0)
  {
  }

  /** Dividing a negated difference negates the quotient. */
  lemma DivNegate(a: real, k: NonZeroReal)
    ensures (-a) / k == -(a / k)
  {
    var q := a / k;
    assert q * k == a;
    assert (-q) * k == -a;
  }

  /** Halving before or after the division gives the same quotient. */
  lemma DivHalf(a: real, k: NonZeroReal)
    ensures 0.5 * a / k == 0.5 * (a / k)
  {
    var q := a / k;
    assert q * k == a;
    assert (0.5 * q) * k == 0.5 * a;
  }

  /** Swapping the operands maps the weight h to 1 - h. */
  lemma SmoothWeightSwap(k: NonZeroReal, s1: real, s2: real)
    ensures SmoothWeight(k, s2, s1) == 1.0 - SmoothWeight(k, s1, s2)
  {
    var x := 0.5 + 0.5 * (s2 - s1) / k;
    DivNegate(s2 - s1, k);
    DivHalf(s2 - s1, k);
    DivHalf(s1 - s2, k);
    assert s1 - s2 == -(s2 - s1);
    assert 0.5 + 0.5 * (s1 - s2) / k == 1.0 - x;
    ClampReflect(x);
  }

  /** Smooth union is symmetric in its two operands. */
  lemma SmoothUnionSymmetric(k: NonZeroReal, s1: real, s2: real)
    ensures SmoothUnionDist(k, s1, s2) == SmoothUnionDist(k, s2, s1)
  {
    var h := SmoothWeight(k, s1, s2);
    SmoothWeightSwap(k, s1, s2);
    assert SmoothWeight(k, s2, s1) == 1.0 - h;
    calc {
      SmoothUnionDist(k, s2, s1);
      Mix(s1, s2, 1.0 - h) - k * (1.0 - h) * (1.0 - (1.0 - h));
      { assert Mix(s1, s2, 1.0 - h) == Mix(s2, s1, h); }
      Mix(s2, s1, h) - k * h * (1.0 - h);
    }
  }

  /** With equal inputs the weight is exactly 1/2 and the blend bulges by k/4. */
  lemma SmoothUnionEqual(k: NonZeroReal, s: real)
    ensures SmoothWeight(k, s, s) == 0.5
    ensures SmoothUnionDist(k, s, s) == s - k / 4.0
  {
    assert 0.5 + 0.5 * (s - s) / k == 0.5;
  }

  /**
   * The blend inside the smoothing band, with d = s2 - s1 in [0, k), q = d / k, h = 1/2 + q/2
   * and t = 1 - h: the excess t * (d - k * h) over s1 equals -t * t * k, which lies in [-k/4, 0].
   */
  lemma BandAlgebra(k: real, d: real, q: real, h: real, t: real)
    requires k > 0.0 && 0.0 <= d < k && q * k == d
    requires h == 0.5 + 0.5 * q && t == 1.0 - h
    ensures -(k / 4.0) <= t * (d - k * h) <= 0.0
  {
    assert 0.0 <= q < 1.0;
    assert 0.0 < t <= 0.5;
    assert k * h == 0.5 * k + 0.5 * (q * k);
    assert d - k * h == -(t * k);
    assert t * (d - k * h) == -(t * t * k);
    assert t * t <= 0.25 by {
      assert t * t <= t * 0.5;
    }
    assert t * t * k <= 0.25 * k;
  }

  /** For a positive k, the quotient d / k is at least 1 exactly when d >= k, and lies in [0, 1) for d in [0, k). */
  lemma QuotientBounds(d: real, k: real)
    requires k > 0.0
    ensures d >= k <==> d / k >= 1.0
    ensures 0.0 <= d ==> 0.0 <= d / k
  {
    var q := d / k;
    assert q * k == d;
    assert (q - 1.0) * k == d - k;
  }

  /** The case s1 <= s2 of the smooth-union bounds. */
  lemma SmoothUnionOrderedBounds(k: NonZeroReal, s1: real, s2: real)
    requires k > 0.0 && s1 <= s2
    ensures s1 - k / 4.0 <= SmoothUnionDist(k, s1, s2) <= s1
    ensures s2 - s1 >= k ==> SmoothUnionDist(k, s1, s2) == s1
  {
    var d := s2 - s1;
    var q := d / k;
    assert q * k == d;
    DivHalf(d, k);
    var h := SmoothWeight(k, s1, s2);
    var r := SmoothUnionDist(k, s1, s2);
    assert r - s1 == (1.0 - h) * (d - k * h);
    QuotientBounds(d, k);
    if d >= k {
      assert h == 1.0;
    } else {
      assert 0.0 <= q < 1.0;
      assert h == 0.5 + 0.5 * q;
      BandAlgebra(k, d, q, h, 1.0 - h);
    }
  }

  /**
   * For a positive smoothing amount the smooth union never lies above the hard union and
   * never more than k/4 below it; when the inputs are at least k apart the two coincide.
   */
  lemma SmoothUnionBounds(k: NonZeroReal, s1: real, s2: real)
    requires k > 0.0
    ensures Min(s1, s2) - k / 4.0 <= SmoothUnionDist(k, s1, s2) <= Min(s1, s2)
    ensures (s1 - s2 >= k || s2 - s1 >= k) ==> SmoothUnionDist(k, s1, s2) == Min(s1, s2)
  {
    if s1 <= s2 {
      SmoothUnionOrderedBounds(k, s1, s2);
    } else {
      SmoothUnionOrderedBounds(k, s2, s1);
      SmoothUnionSymmetric(k, s1, s2);
    }
  }

  /** Displacement adds its second operand to the first: zero leaves the surface alone, and a bounded displacement moves it by at most that bound. */
  lemma DisplaceBounds(s1: real, s2: real, a: real)
    ensures s2 == 0.0 ==> DisplaceDist(s1, s2) == s1
    ensures -a <= s2 <= a ==> s1 - a <= DisplaceDist(s1, s2) <= s1 + a
  {
  }

  /** Which formula each operator stands for. */
  lemma CombinedDistDispatch(c: CombineOp, s1: real, s2: real)
    ensures c.Union? ==> CombinedDist(c, s1, s2) == Min(s1, s2)
    ensures c.SmoothUnion? ==> CombinedDist(c, s1, s2) == SmoothUnionDist(c.smoothAmount, s1, s2)
    ensures c.Displace? ==> CombinedDist(c, s1, s2) == s1 + s2
  {
  }
}
