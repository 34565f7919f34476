/** LinInterpolate: one-dimensional linear interpolation between two support points, with the
    reciprocal of their distance cached at construction. */
module LinearInterpolation {
  import opened RealOps

  /** The support points (x1, y1) and (x2, y2) and the cached X2X1 = 1 / (x2 - x1). */
  datatype LinInterpolate = LinInterpolate(x1: real, x2: real, y1: real, y2: real, x2x1: real)
  {
    /** The cache holds the reciprocal of x2 - x1. */
    predicate Valid()
    {
      x2x1 * (x2 - x1) == 1.0
    }

    /** interpolate: the straight line through both support points, extrapolated beyond them. */
    function Interpolate(x: real): (r: real)
      ensures Valid() ==> (r - y1) * (x2 - x1) == (x - x1) * (y2 - y1)
    {
      assert (x - x1) * (y2 - y1) * x2x1 * (x2 - x1) == (x - x1) * (y2 - y1) * (x2x1 * (x2 - x1));
      (x - x1) * (y2 - y1) * x2x1 + y1
    }

    /** interpolateFlat: y1 up to x1, the line strictly between x1 and x2, y2 from x2 on. */
    function InterpolateFlat(x: real): (r: real)
      ensures x <= x1 ==> r == y1
      ensures x1 < x < x2 ==> r == Interpolate(x)
      ensures x1 < x && x2 <= x ==> r == y2
    {
      if x <= x1 then y1
      else if x < x2 then (x - x1) * (y2 - y1) * x2x1 + y1
      else y2
    }
  }

  /** The constructor: stores the support points and caches 1 / (x2 - x1). */
  function Make(x1: real, x2: real, y1: real, y2: real): (l: LinInterpolate)
    requires x1 != x2
    ensures l.x1 == x1 && l.x2 == x2 && l.y1 == y1 && l.y2 == y2
    ensures l.Valid()
  {
    LinInterpolate(x1, x2, y1, y2, 1.0 / (x2 - x1))
  }

  /** The constructed interpolant is y1 + (x - x1) (y2 - y1) / (x2 - x1). */
  lemma MakeInterpolates(x1: real, x2: real, y1: real, y2: real, x: real)
    requires x1 != x2
    ensures Make(x1, x2, y1, y2).Interpolate(x) == y1 + (x - x1) * (y2 - y1) / (x2 - x1)
  {
    var l := Make(x1, x2, y1, y2);
    assert (l.Interpolate(x) - y1) * (x2 - x1) == (x - x1) * (y2 - y1);
  }

  /** The line passes through both support points. */
  lemma InterpolateEndpoints(l: LinInterpolate)
    requires l.Valid()
    ensures l.Interpolate(l.x1) == l.y1 && l.Interpolate(l.x2) == l.y2
  {
    assert (l.Interpolate(l.x2) - l.y1) * (l.x2 - l.x1) == (l.x2 - l.x1) * (l.y2 - l.y1);
  }

  /** For increasing support points, interpolateFlat is interpolate at the clamped abscissa. */
  lemma FlatIsClampedInterpolate(l: LinInterpolate, x: real)
    requires l.Valid() && l.x1 < l.x2
    ensures l.InterpolateFlat(x) == l.Interpolate(Clamp(x, l.x1, l.x2))
  {
    InterpolateEndpoints(l);
  }

  /** For increasing support points, interpolateFlat never leaves the range of y1 and y2. */
  lemma FlatBetweenEndValues(l: LinInterpolate, x: real)
    requires l.Valid() && l.x1 < l.x2
    ensures Min(l.y1, l.y2) <= l.InterpolateFlat(x) <= Max(l.y1, l.y2)
  {
    if l.x1 < x < l.x2 {
      var t := (x - l.x1) * l.x2x1;
      PositiveReciprocal(l.x2 - l.x1, l.x2x1);
      assert t * (l.x2 - l.x1) == x - l.x1;
      Fraction(x - l.x1, l.x2 - l.x1, t);
      assert l.InterpolateFlat(x) == l.y1 + t * (l.y2 - l.y1);
      BetweenEnds(l.y1, l.y2, t);
    }
  }

  lemma PositiveReciprocal(d: real, inv: real)
    requires 0.0 < d && inv * d == 1.0
    ensures 0.0 < inv
  {
  }

  /** t = n / d lies in [0, 1] when 0 <= n <= d. */
  lemma Fraction(n: real, d: real, t: real)
    requires 0.0 <= n <= d && 0.0 < d && t * d == n
    ensures 0.0 <= t <= 1.0
  {
  }

  /** A convex combination of a and b lies between them. */
  lemma BetweenEnds(a: real, b: real, t: real)
    requires 0.0 <= t <= 1.0
    ensures Min(a, b) <= a + t * (b - a) <= Max(a, b)
  {
    assert (b - a) - t * (b - a) == (1.0 - t) * (b - a);
    if a <= b {
      NonnegativeProduct(t, b - a);
      NonnegativeProduct(1.0 - t, b - a);
    } else {
      NonnegativeProduct(t, a - b);
      NonnegativeProduct(1.0 - t, a - b);
    }
  }

  lemma NonnegativeProduct(p: real, q: real)
    requires 0.0 <= p && 0.0 <= q
    ensures 0.0 <= p * q
  {
  }
}
