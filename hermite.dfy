/** The two-point cubic fit of cubicInterpolateByVal: the 4x4 system it assembles, the coefficient
    vector that solves it, and the Horner evaluation it returns. Coefficients are ordered as the
    source's B vector: B[0] multiplies x^3, B[3] is the constant term. */
module Hermite {

  /** The Horner read at the end of cubicInterpolateByVal; it computes the expanded cubic. */
  function Horner(b: seq<real>, x: real): (r: real)
    requires |b| == 4
    ensures r == Cubic(b, x)
  {
    b[3] + x * (b[2] + x * (b[1] + x * b[0]))
  }

  /** The cubic with coefficients b, written out. */
  function Cubic(b: seq<real>, x: real): real
    requires |b| == 4
  {
    b[0] * x * x * x + b[1] * x * x + b[2] * x + b[3]
  }

  /** The first derivative of Cubic(b, _) at x. */
  function Slope(b: seq<real>, x: real): real
    requires |b| == 4
  {
    3.0 * b[0] * x * x + 2.0 * b[1] * x + b[2]
  }

  /** The coefficient matrix solver.A as cubicInterpolateByVal fills it. */
  function HermiteMatrix(x0: real, x1: real): (m: seq<seq<real>>)
    ensures |m| == 4 && |m[0]| == 4 && |m[1]| == 4 && |m[2]| == 4 && |m[3]| == 4
  {
    [[x0 * x0 * x0, x0 * x0, x0, 1.0],
     [x1 * x1 * x1, x1 * x1, x1, 1.0],
     [3.0 * (x0 * x0), 2.0 * x0, 1.0, 0.0],
     [3.0 * (x1 * x1), 2.0 * x1, 1.0, 0.0]]
  }

  function RowTimes(row: seq<real>, b: seq<real>): real
    requires |row| == 4 && |b| == 4
  {
    row[0] * b[0] + row[1] * b[1] + row[2] * b[2] + row[3] * b[3]
  }

  /** b solves the 4x4 system m * b == rhs. */
  predicate Solves(m: seq<seq<real>>, b: seq<real>, rhs: seq<real>)
  {
    |m| == 4 && |b| == 4 && |rhs| == 4 &&
    |m[0]| == 4 && |m[1]| == 4 && |m[2]| == 4 && |m[3]| == 4 &&
    RowTimes(m[0], b) == rhs[0] && RowTimes(m[1], b) == rhs[1] &&
    RowTimes(m[2], b) == rhs[2] && RowTimes(m[3], b) == rhs[3]
  }

  /** The four rows say: the cubic takes rhs[0] at x0 and rhs[1] at x1, and has slope rhs[2] at x0
      and rhs[3] at x1. */
  lemma HermiteRows(x0: real, x1: real, b: seq<real>, rhs: seq<real>)
    requires |b| == 4 && |rhs| == 4
    ensures Solves(HermiteMatrix(x0, x1), b, rhs) <==>
              Cubic(b, x0) == rhs[0] && Cubic(b, x1) == rhs[1] &&
              Slope(b, x0) == rhs[2] && Slope(b, x1) == rhs[3]
  {
    var m := HermiteMatrix(x0, x1);
    ValueRow(x0, b);
    ValueRow(x1, b);
    SlopeRow(x0, b);
    SlopeRow(x1, b);
    assert m[0] == [x0 * x0 * x0, x0 * x0, x0, 1.0] && m[1] == [x1 * x1 * x1, x1 * x1, x1, 1.0];
    assert m[2] == [3.0 * (x0 * x0), 2.0 * x0, 1.0, 0.0] && m[3] == [3.0 * (x1 * x1), 2.0 * x1, 1.0, 0.0];
  }

  /** A value row of the system applied to b is the cubic at x. */
  lemma ValueRow(x: real, b: seq<real>)
    requires |b| == 4
    ensures RowTimes([x * x * x, x * x, x, 1.0], b) == Cubic(b, x)
  {
  }

  /** A slope row of the system applied to b is the cubic's slope at x. */
  lemma SlopeRow(x: real, b: seq<real>)
    requires |b| == 4
    ensures RowTimes([3.0 * (x * x), 2.0 * x, 1.0, 0.0], b) == Slope(b, x)
  {
  }

  /** The solution of the system, in closed form (the source leaves it to Matrix::autoSolve). */
  function HermiteSolve(x0: real, x1: real, rhs: seq<real>): (b: seq<real>)
    requires x0 != x1 && |rhs| == 4
    ensures Solves(HermiteMatrix(x0, x1), b, rhs)
  {
    ClosedFormFits(x0, x1, 1.0 / (x1 - x0), rhs);
    HermiteRows(x0, x1, ClosedForm(x0, 1.0 / (x1 - x0), rhs), rhs);
    ClosedForm(x0, 1.0 / (x1 - x0), rhs)
  }

  /** With inv = 1 / (x1 - x0): the cubic rhs[0] + rhs[2] u + c2 u^2 + c3 u^3 in u = t - x0,
      expanded in t. */
  function ClosedForm(x0: real, inv: real, rhs: seq<real>): seq<real>
    requires |rhs| == 4
  {
    Expand(x0, rhs[0], rhs[2], QuadraticTerm(inv, rhs), CubicTerm(inv, rhs))
  }

  /** The secant slope (rhs[1] - rhs[0]) / (x1 - x0). */
  function SecantSlope(inv: real, rhs: seq<real>): real
    requires |rhs| == 4
  {
    (rhs[1] - rhs[0]) * inv
  }

  function QuadraticTerm(inv: real, rhs: seq<real>): real
    requires |rhs| == 4
  {
    (3.0 * SecantSlope(inv, rhs) - 2.0 * rhs[2] - rhs[3]) * inv
  }

  function CubicTerm(inv: real, rhs: seq<real>): real
    requires |rhs| == 4
  {
    (rhs[2] + rhs[3] - 2.0 * SecantSlope(inv, rhs)) * inv * inv
  }

  /** The coefficients in t of v0 + d0 u + c2 u^2 + c3 u^3, u = t - x0. */
  function Expand(x0: real, v0: real, d0: real, c2: real, c3: real): seq<real>
  {
    [c3, c2 - 3.0 * c3 * x0, d0 - 2.0 * c2 * x0 + 3.0 * c3 * x0 * x0,
     v0 - d0 * x0 + c2 * x0 * x0 - c3 * x0 * x0 * x0]
  }

  lemma ExpandShift(x0: real, v0: real, d0: real, c2: real, c3: real, t: real, u: real)
    requires t == x0 + u
    ensures Cubic(Expand(x0, v0, d0, c2, c3), t) == v0 + d0 * u + c2 * u * u + c3 * u * u * u
    ensures Slope(Expand(x0, v0, d0, c2, c3), t) == d0 + 2.0 * c2 * u + 3.0 * c3 * u * u
  {
    var b := Expand(x0, v0, d0, c2, c3);
    ShiftedForm(x0, v0, d0, c2, c3, b[0], b[1], b[2], b[3], t, u);
  }

  lemma ClosedFormFits(x0: real, x1: real, inv: real, rhs: seq<real>)
    requires |rhs| == 4 && (x1 - x0) * inv == 1.0
    ensures |ClosedForm(x0, inv, rhs)| == 4
    ensures Cubic(ClosedForm(x0, inv, rhs), x0) == rhs[0] && Cubic(ClosedForm(x0, inv, rhs), x1) == rhs[1]
    ensures Slope(ClosedForm(x0, inv, rhs), x0) == rhs[2] && Slope(ClosedForm(x0, inv, rhs), x1) == rhs[3]
  {
    ClosedFormAtStart(x0, inv, rhs);
    ClosedFormAtEnd(x0, x1, inv, rhs);
  }

  lemma ClosedFormAtStart(x0: real, inv: real, rhs: seq<real>)
    requires |rhs| == 4
    ensures Cubic(ClosedForm(x0, inv, rhs), x0) == rhs[0] && Slope(ClosedForm(x0, inv, rhs), x0) == rhs[2]
  {
    ExpandAtOrigin(x0, rhs[0], rhs[2], QuadraticTerm(inv, rhs), CubicTerm(inv, rhs));
  }

  /** At t = x0 the expanded cubic has value v0 and slope d0. */
  lemma ExpandAtOrigin(x0: real, v0: real, d0: real, c2: real, c3: real)
    ensures Cubic(Expand(x0, v0, d0, c2, c3), x0) == v0 && Slope(Expand(x0, v0, d0, c2, c3), x0) == d0
  {
    ExpandShift(x0, v0, d0, c2, c3, x0, 0.0);
  }

  lemma ClosedFormAtEnd(x0: real, x1: real, inv: real, rhs: seq<real>)
    requires |rhs| == 4 && (x1 - x0) * inv == 1.0
    ensures Cubic(ClosedForm(x0, inv, rhs), x1) == rhs[1] && Slope(ClosedForm(x0, inv, rhs), x1) == rhs[3]
  {
    ScalarFits(rhs[0], rhs[1], rhs[2], rhs[3], x1 - x0, inv,
               SecantSlope(inv, rhs), QuadraticTerm(inv, rhs), CubicTerm(inv, rhs));
    ShiftedEnd(x0, x1, rhs[0], rhs[2], QuadraticTerm(inv, rhs), CubicTerm(inv, rhs), ClosedForm(x0, inv, rhs));
  }

  /** ExpandShift at the far end t = x1, u = x1 - x0, for an already expanded b. */
  lemma ShiftedEnd(x0: real, x1: real, v0: real, d0: real, c2: real, c3: real, b: seq<real>)
    requires b == Expand(x0, v0, d0, c2, c3)
    ensures Cubic(b, x1) == v0 + d0 * (x1 - x0) + c2 * (x1 - x0) * (x1 - x0) + c3 * (x1 - x0) * (x1 - x0) * (x1 - x0)
    ensures Slope(b, x1) == d0 + 2.0 * c2 * (x1 - x0) + 3.0 * c3 * (x1 - x0) * (x1 - x0)
  {
    ExpandShift(x0, v0, d0, c2, c3, x1, x1 - x0);
  }

  /** The closed-form coefficients meet both end conditions at u = h. */
  lemma ScalarFits(v0: real, v1: real, d0: real, d1: real, h: real, inv: real, s: real, c2: real, c3: real)
    requires h * inv == 1.0
    requires s == (v1 - v0) * inv
    requires c2 == (3.0 * s - 2.0 * d0 - d1) * inv
    requires c3 == (d0 + d1 - 2.0 * s) * inv * inv
    ensures v0 + d0 * h + c2 * h * h + c3 * h * h * h == v1
    ensures d0 + 2.0 * c2 * h + 3.0 * c3 * h * h == d1
  {
    Reciprocal(v1 - v0, h, inv);
    Reciprocal(3.0 * s - 2.0 * d0 - d1, h, inv);
    Reciprocal2(d0 + d1 - 2.0 * s, h, inv);
    EndConditions(v0, v1, d0, d1, h, s, c2, c3);
  }

  lemma Reciprocal(n: real, h: real, inv: real)
    requires h * inv == 1.0
    ensures n * inv * h == n
  {
    assert n * inv * h == n * (h * inv);
  }

  lemma Reciprocal2(n: real, h: real, inv: real)
    requires h * inv == 1.0
    ensures n * inv * inv * (h * h) == n
  {
    var p := h * inv;
    assert n * inv * inv * (h * h) == n * p * p;
  }

  /** Value and slope of v0 + d0 u + c2 u^2 + c3 u^3 at u = h, when s h = v1 - v0,
      c2 h = 3 s - 2 d0 - d1 and c3 h^2 = d0 + d1 - 2 s. */
  lemma EndConditions(v0: real, v1: real, d0: real, d1: real, h: real, s: real, c2: real, c3: real)
    requires s * h == v1 - v0
    requires c2 * h == 3.0 * s - 2.0 * d0 - d1
    requires c3 * (h * h) == d0 + d1 - 2.0 * s
    ensures v0 + d0 * h + c2 * h * h + c3 * h * h * h == v1
    ensures d0 + 2.0 * c2 * h + 3.0 * c3 * h * h == d1
  {
    assert c2 * h * h == (3.0 * s - 2.0 * d0 - d1) * h;
    assert c3 * h * h * h == (d0 + d1 - 2.0 * s) * h;
  }

  /** Re-expanding v0 + d0 u + c2 u^2 + c3 u^3 about t = x0 + u. */
  lemma ShiftedForm(x0: real, v0: real, d0: real, c2: real, c3: real,
                    b0: real, b1: real, b2: real, b3: real, t: real, u: real)
    requires b0 == c3 && b1 == c2 - 3.0 * c3 * x0 && b2 == d0 - 2.0 * c2 * x0 + 3.0 * c3 * x0 * x0
    requires b3 == v0 - d0 * x0 + c2 * x0 * x0 - c3 * x0 * x0 * x0
    requires t == x0 + u
    ensures b0 * t * t * t + b1 * t * t + b2 * t + b3 == v0 + d0 * u + c2 * u * u + c3 * u * u * u
    ensures 3.0 * b0 * t * t + 2.0 * b1 * t + b2 == d0 + 2.0 * c2 * u + 3.0 * c3 * u * u
  {
  }

  lemma NonzeroPowers(h: real)
    requires h != 0.0
    ensures h * h != 0.0 && h * h * h != 0.0
  {
    if h > 0.0 {
      assert h * h > 0.0;
      assert h * h * h > 0.0;
    } else {
      assert h * h > 0.0;
      assert h * h * h < 0.0;
    }
  }

  /** Coefficient-wise difference of two cubics. */
  function Difference(b: seq<real>, c: seq<real>): (d: seq<real>)
    requires |b| == 4 && |c| == 4
    ensures |d| == 4 && forall i :: 0 <= i < 4 ==> d[i] == b[i] - c[i]
  {
    [b[0] - c[0], b[1] - c[1], b[2] - c[2], b[3] - c[3]]
  }

  /** Value and slope are linear in the coefficients. */
  lemma Homogeneous(b: seq<real>, c: seq<real>, x: real)
    requires |b| == 4 && |c| == 4
    ensures Cubic(b, x) - Cubic(c, x) == Cubic(Difference(b, c), x)
    ensures Slope(b, x) - Slope(c, x) == Slope(Difference(b, c), x)
  {
  }

  /** A cubic with value and slope zero at two distinct points is the zero cubic. */
  lemma ZeroCubic(d: seq<real>, x0: real, x1: real)
    requires |d| == 4 && x0 != x1
    requires Cubic(d, x0) == 0.0 && Cubic(d, x1) == 0.0
    requires Slope(d, x0) == 0.0 && Slope(d, x1) == 0.0
    ensures d[0] == 0.0 && d[1] == 0.0 && d[2] == 0.0 && d[3] == 0.0
  {
    var h := x1 - x0;
    var e0, e1, e2, e3 := Cubic(d, x0), Cubic(d, x1), Slope(d, x0), Slope(d, x1);
    // Eliminating the other unknowns leaves h^3 * d[0].
    assert h * (e2 + e3) - 2.0 * (e1 - e0) == h * h * h * d[0];
    NonzeroPowers(h);
    assert d[0] == 0.0;
    assert e3 - e2 == 2.0 * h * d[1];
    assert d[1] == 0.0;
  }

  /** When x0 != x1 the system has exactly one solution: any b that solves it is HermiteSolve's. */
  lemma HermiteSolveUnique(x0: real, x1: real, rhs: seq<real>, b: seq<real>)
    requires x0 != x1 && Solves(HermiteMatrix(x0, x1), b, rhs)
    ensures b == HermiteSolve(x0, x1, rhs)
  {
    var c := HermiteSolve(x0, x1, rhs);
    HermiteRows(x0, x1, b, rhs);
    HermiteRows(x0, x1, c, rhs);
    Homogeneous(b, c, x0);
    Homogeneous(b, c, x1);
    ZeroCubic(Difference(b, c), x0, x1);
    assert forall i :: 0 <= i < 4 ==> b[i] == c[i];
  }

  /** cubicInterpolateByVal: fit the cubic through (xPoints[0], values[0]) and (xPoints[1],
      values[1]) with slopes values[2] and values[3] there, and evaluate it at x. */
  function CubicByVal(x: real, xPoints: seq<real>, values: seq<real>): (r: real)
    requires |xPoints| == 2 && |values| == 4 && xPoints[0] != xPoints[1]
    ensures x == xPoints[0] ==> r == values[0]
    ensures x == xPoints[1] ==> r == values[1]
  {
    var b := HermiteSolve(xPoints[0], xPoints[1], values);
    HermiteRows(xPoints[0], xPoints[1], b, values);
    Horner(b, x)
  }

  /** The fitted cubic also has the prescribed slopes at both ends. */
  lemma CubicByValSlopes(xPoints: seq<real>, values: seq<real>)
    requires |xPoints| == 2 && |values| == 4 && xPoints[0] != xPoints[1]
    ensures Slope(HermiteSolve(xPoints[0], xPoints[1], values), xPoints[0]) == values[2]
    ensures Slope(HermiteSolve(xPoints[0], xPoints[1], values), xPoints[1]) == values[3]
  {
    HermiteRows(xPoints[0], xPoints[1], HermiteSolve(xPoints[0], xPoints[1], values), values);
  }

  /** Data taken from a straight line, with its slope as both derivatives, is fitted by that line. */
  lemma CubicByValOnLine(x: real, xPoints: seq<real>, values: seq<real>, slope: real, offset: real)
    requires |xPoints| == 2 && xPoints[0] != xPoints[1] && |values| == 4
    requires values[0] == slope * xPoints[0] + offset && values[1] == slope * xPoints[1] + offset
    requires values[2] == slope && values[3] == slope
    ensures CubicByVal(x, xPoints, values) == slope * x + offset
  {
    var line := [0.0, 0.0, slope, offset];
    HermiteRows(xPoints[0], xPoints[1], line, values);
    HermiteSolveUnique(xPoints[0], xPoints[1], values, line);
  }
}
