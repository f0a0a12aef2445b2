/** Shared vector-field helpers used by every animation: optional values, absolute value,
    clamping, easing toward a target, squared distance, and the two platform services the
    simulations call (a square root and a stream of uniform random draws). */
module Numeric {

  datatype Option<T> = None | Some(value: T)

  /** Pixel size of a drawing surface; canvas dimensions are unsigned integers. */
  datatype Canvas = Canvas(width: nat, height: nat)

  /** `Math.PI` as a double. */
  const Pi: real := 3.141592653589793

  /** JavaScript truthiness of an optional canvas dimension in a worker message: present and
      non-zero. */
  predicate Truthy(v: Option<nat>)
  {
    v.Some? && v.value != 0
  }

  /** A list of indices in strictly increasing order. */
  predicate Increasing(s: seq<nat>)
  {
    forall a, b :: 0 <= a < b < |s| ==> s[a] < s[b]
  }

  function Abs(v: real): (r: real)
    ensures 0.0 <= r && (r == v || r == -v)
  {
    if v < 0.0 then -v else v
  }

  /** `Math.max(lo, Math.min(hi, v))`. */
  function Clamp(v: real, lo: real, hi: real): (r: real)
    ensures lo <= hi ==> lo <= r <= hi
    ensures lo <= v <= hi ==> r == v
    ensures v < lo ==> r == lo
    ensures lo <= hi < v ==> r == hi
  {
    var m := if v < hi then v else hi;
    if lo < m then m else lo
  }

  /** Clamping twice is clamping once. */
  lemma ClampIdempotent(v: real, lo: real, hi: real)
    requires lo <= hi
    ensures Clamp(Clamp(v, lo, hi), lo, hi) == Clamp(v, lo, hi)
  {
  }

  /** A symmetric clamp commutes with negation. */
  lemma ClampNegate(v: real, m: real)
    requires 0.0 <= m
    ensures Clamp(-v, -m, m) == -Clamp(v, -m, m)
  {
  }

  /** One easing step: move the fraction `rate` of the way from `v` to `target`. */
  function Ease(v: real, target: real, rate: real): (r: real)
    ensures target - r == (target - v) * (1.0 - rate)
    ensures 0.0 <= rate <= 1.0 && v <= target ==> v <= r <= target
    ensures 0.0 <= rate <= 1.0 && target <= v ==> target <= r <= v
  {
    EaseGap(target - v, rate, (target - v) * rate);
    EaseBetween(v, target - v, rate, (target - v) * rate);
    v + (target - v) * rate
  }

  /** The gap left after a step of `c = d * rate` out of `d`. */
  lemma EaseGap(d: real, rate: real, c: real)
    requires c == d * rate
    ensures d - c == d * (1.0 - rate)
  {
  }

  /** A step of `c = d * rate` with `rate` in [0, 1] stays between the start and the end; the
      step is named so that the solver reasons about it as a plain value. */
  lemma EaseBetween(v: real, d: real, rate: real, c: real)
    requires c == d * rate
    ensures 0.0 <= rate <= 1.0 && 0.0 <= d ==> v <= v + c <= v + d
    ensures 0.0 <= rate <= 1.0 && d <= 0.0 ==> v + d <= v + c <= v
  {
    ScaleBetween(d, rate);
  }

  /** Scaling by a factor in [0, 1] keeps a value between 0 and itself. */
  lemma ScaleBetween(d: real, rate: real)
    ensures 0.0 <= rate <= 1.0 && 0.0 <= d ==> 0.0 <= d * rate <= d
    ensures 0.0 <= rate <= 1.0 && d <= 0.0 ==> d <= d * rate <= 0.0
  {
    if 0.0 <= rate <= 1.0 {
      assert d - d * rate == d * (1.0 - rate);
      if 0.0 <= d {
        MulNonneg(d, rate);
        MulNonneg(d, 1.0 - rate);
      } else {
        MulNonneg(-d, rate);
        MulNonneg(-d, 1.0 - rate);
      }
    }
  }

  lemma MulNonneg(a: real, b: real)
    requires 0.0 <= a && 0.0 <= b
    ensures 0.0 <= a * b
  {
  }

  lemma MulPos(a: real, b: real)
    requires 0.0 < a && 0.0 < b
    ensures 0.0 < a * b
  {
  }

  /** Scaling a non-negative value by a factor in [lo, hi] lands between lo and hi times it. */
  lemma ScaleWithin(a: real, f: real, lo: real, hi: real)
    requires 0.0 <= a && lo <= f <= hi
    ensures lo * a <= a * f <= hi * a
  {
    MulNonneg(a, f - lo);
    MulNonneg(a, hi - f);
    assert a * (f - lo) == a * f - lo * a;
    assert a * (hi - f) == hi * a - a * f;
  }

  /** An easing step never leaves a half-open interval holding both ends. */
  lemma EaseInside(v: real, target: real, rate: real, lo: real, hi: real)
    requires 0.0 <= rate <= 1.0
    requires lo <= v < hi && lo <= target < hi
    ensures lo <= Ease(v, target, rate) < hi
  {
  }

  function DistSq(x0: real, y0: real, x1: real, y1: real): (r: real)
    ensures 0.0 <= r
  {
    (x0 - x1) * (x0 - x1) + (y0 - y1) * (y0 - y1)
  }

  /** `sqrt` behaves as `Math.sqrt` on non-negative reals. */
  ghost predicate IsSqrt(sqrt: real -> real)
  {
    forall v: real :: 0.0 <= v ==> 0.0 <= sqrt(v) && sqrt(v) * sqrt(v) == v
  }

  /** `rand(k)` is the k-th value returned by `Math.random()`, which lies in [0, 1). */
  ghost predicate IsUnitStream(rand: nat -> real)
  {
    forall k: nat :: 0.0 <= rand(k) < 1.0
  }

  /** `Math.random() * extent`, a coordinate inside the canvas. */
  function Spread(r: real, extent: real): (v: real)
    requires 0.0 <= r < 1.0
    ensures 0.0 <= extent ==> 0.0 <= v <= extent
    ensures 0.0 < extent ==> v < extent
  {
    SpreadBounds(r, extent);
    extent * r
  }

  lemma SpreadBounds(r: real, extent: real)
    requires 0.0 <= r < 1.0
    ensures 0.0 <= extent ==> 0.0 <= extent * r <= extent
    ensures 0.0 < extent ==> extent * r < extent
  {
    ScaleBetween(extent, r);
    if 0.0 < extent {
      assert extent - extent * r == extent * (1.0 - r);
      MulPos(extent, 1.0 - r);
    }
  }

  /** A sum of two squares vanishes only at the origin. */
  lemma SumOfSquaresZero(dx: real, dy: real)
    ensures 0.0 <= dx * dx + dy * dy
    ensures dx * dx + dy * dy == 0.0 <==> dx == 0.0 && dy == 0.0
  {
    var a := SquareBound(dx);
    var b := SquareBound(dy);
  }

  /** A lower bound on `x * x` that is positive whenever `x` is non-zero. The bound is
      returned as a separate value so that callers can add such bounds linearly. */
  lemma SquareBound(x: real) returns (c: real)
    ensures 0.0 <= c <= x * x
    ensures x != 0.0 ==> 0.0 < c
  {
    c := x * x;
    if 0.0 < x {
      ProductPos(x, x, c);
    } else if x < 0.0 {
      ProductPos(-x, -x, c);
    }
  }

  lemma ProductPos(a: real, b: real, c: real)
    requires 0.0 < a && 0.0 < b && c == a * b
    ensures 0.0 < c
  {
  }

  /** The square root is zero exactly at zero. */
  lemma SqrtZeroIff(sqrt: real -> real, v: real)
    requires IsSqrt(sqrt) && 0.0 <= v
    ensures sqrt(v) == 0.0 <==> v == 0.0
  {
    var r := sqrt(v);
    if 0.0 < r {
      LessIffSquareLess(r / 2.0, r);
    }
  }

  /** The square root of `v` is below `c` exactly when `v` is below `c * c`. */
  lemma SqrtBelow(sqrt: real -> real, v: real, c: real)
    requires IsSqrt(sqrt) && 0.0 <= v && 0.0 <= c
    ensures sqrt(v) < c <==> v < c * c
  {
    LessIffSquareLess(sqrt(v), c);
  }

  lemma DivPos(a: real, b: real)
    requires 0.0 < a && 0.0 < b
    ensures 0.0 < a / b
  {
  }

  /** Scaling a non-zero offset by a factor above one makes it strictly longer. */
  lemma ScaledFarther(a: real, b: real, s: real)
    requires 1.0 < s && (a != 0.0 || b != 0.0)
    ensures a * a + b * b < (s * a) * (s * a) + (s * b) * (s * b)
  {
    var ca := SquareBound(a);
    var cb := SquareBound(b);
    var q := a * a + b * b;
    assert (s * a) * (s * a) + (s * b) * (s * b) == (s * s) * q;
    MulPos(s - 1.0, s + 1.0);
    assert s * s - 1.0 == (s - 1.0) * (s + 1.0);
    MulPos(s * s - 1.0, q);
    assert (s * s) * q - q == (s * s - 1.0) * q;
  }

  /** For non-negative reals, comparing values and comparing squares agree. */
  lemma {:induction false} LessIffSquareLess(a: real, b: real)
    requires 0.0 <= a && 0.0 <= b
    ensures a < b <==> a * a < b * b
  {
    if a < b {
      MulNonneg(a, b - a);
      MulPos(b, b - a);
      assert a * (b - a) == a * b - a * a;
      assert b * (b - a) == b * b - a * b;
    } else {
      MulNonneg(b, a - b);
      MulNonneg(a, a - b);
      assert a * (a - b) == a * a - a * b;
      assert b * (a - b) == a * b - b * b;
    }
  }
}
