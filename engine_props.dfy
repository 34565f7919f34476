/** What evalQubic promises as a whole: the clamp decides everything outside the table, the
    table's own values come back at its nodes, and data sampled from a plane is reproduced. */
module EngineProperties {
  import opened Results
  import opened RealOps
  import opened CellSearch
  import opened Hermite
  import opened Grid
  import opened Engine

  /** The query point is clamped before anything else is done with it. */
  lemma EvaluateClampsFirst(g: Cubic3DInterpolation, x: real, y: real)
    requires Valid(g)
    ensures Evaluate(g, x, y) == Evaluate(g, ClampX(g, x), ClampY(g, y))
  {
    ClampIdempotent(x, g.xArray[0], g.xArray[g.sizeX - 1]);
    ClampIdempotent(y, g.yArray[0], g.yArray[g.sizeY - 1]);
  }

  /** Beyond either end of an axis the surface is flat: it continues the value on that end's
      edge of the table. */
  lemma EvaluateFlatBeyondAxes(g: Cubic3DInterpolation, x: real, y: real)
    requires Valid(g)
    ensures x <= g.xArray[0] ==> Evaluate(g, x, y) == Evaluate(g, g.xArray[0], y)
    ensures g.xArray[g.sizeX - 1] <= x ==> Evaluate(g, x, y) == Evaluate(g, g.xArray[g.sizeX - 1], y)
    ensures y <= g.yArray[0] ==> Evaluate(g, x, y) == Evaluate(g, x, g.yArray[0])
    ensures g.yArray[g.sizeY - 1] <= y ==> Evaluate(g, x, y) == Evaluate(g, x, g.yArray[g.sizeY - 1])
  {
    if x <= g.xArray[0] {
      assert ClampX(g, x) == ClampX(g, g.xArray[0]);
    }
    if g.xArray[g.sizeX - 1] <= x {
      assert ClampX(g, x) == ClampX(g, g.xArray[g.sizeX - 1]);
    }
    if y <= g.yArray[0] {
      assert ClampY(g, y) == ClampY(g, g.yArray[0]);
    }
    if g.yArray[g.sizeY - 1] <= y {
      assert ClampY(g, y) == ClampY(g, g.yArray[g.sizeY - 1]);
    }
  }

  /** A node of a strictly increasing axis is inside the axis range, so clamping keeps it. */
  lemma NodeInRange(a: seq<real>, i: nat)
    requires |a| >= 2 && StrictlyIncreasing(a) && i < |a|
    ensures a[0] <= a[i] <= a[|a| - 1]
    ensures Clamp(a[i], a[0], a[|a| - 1]) == a[i]
  {
    if 0 < i {
      assert a[0] < a[i];
    }
    if i < |a| - 1 {
      assert a[i] < a[|a| - 1];
    }
  }

  /** At a node of the x-axis every slice takes the table's value on its row. */
  lemma SliceAtNode(g: Cubic3DInterpolation, i: nat, row: nat)
    requires Valid(g) && StrictlyIncreasing(g.xArray) && i < g.sizeX && row < g.sizeY
    ensures Bracket(g.xArray, g.xArray[i]).Ok?
    ensures CubicInterpolateYgrid(g, g.xArray[i], Bracket(g.xArray, g.xArray[i]).value, row) == Value(g, i, row)
  {
    BracketAtNode(g.xArray, i);
  }

  /** On strictly increasing axes the surface passes through every value of the table. */
  lemma EvaluateExactAtNodes(g: Cubic3DInterpolation, i: nat, j: nat)
    requires Valid(g) && StrictlyIncreasing(g.xArray) && StrictlyIncreasing(g.yArray)
    requires i < g.sizeX && j < g.sizeY
    ensures Evaluate(g, g.xArray[i], g.yArray[j]) == Ok(Value(g, i, j))
  {
    NodeInRange(g.xArray, i);
    NodeInRange(g.yArray, j);
    BracketAtNode(g.yArray, j);
    var cj := Bracket(g.yArray, g.yArray[j]).value;
    if cj == 0 {
      LowerNodeExact(g, i, j);
    } else if cj == g.sizeY - 2 {
      UpperNodeExact(g, i, j);
    } else {
      InteriorNodeExact(g, i, j, cj);
    }
  }

  /** A node whose y-cell is the first: only row 0 can resolve there. */
  lemma LowerNodeExact(g: Cubic3DInterpolation, i: nat, j: nat)
    requires Valid(g) && StrictlyIncreasing(g.xArray) && StrictlyIncreasing(g.yArray)
    requires i < g.sizeX && j < g.sizeY
    requires ClampX(g, g.xArray[i]) == g.xArray[i] && ClampY(g, g.yArray[j]) == g.yArray[j]
    requires Bracket(g.yArray, g.yArray[j]) == Ok(0)
    ensures Evaluate(g, g.xArray[i], g.yArray[j]) == Ok(Value(g, i, j))
  {
    var x, y := g.xArray[i], g.yArray[j];
    BracketAtNode(g.yArray, j);
    assert j == 0;
    EvaluateDispatches(g, x, y, x, y, 0);
    BracketAtNode(g.xArray, i);
    YzeroPathIsEdge(g, x, y, Bracket(g.xArray, x).value);
    SliceAtNode(g, i, 0);
  }

  /** A node whose y-cell is the last: row sizeY-2 or sizeY-1. */
  lemma UpperNodeExact(g: Cubic3DInterpolation, i: nat, j: nat)
    requires Valid(g) && StrictlyIncreasing(g.xArray) && StrictlyIncreasing(g.yArray)
    requires i < g.sizeX && j < g.sizeY
    requires ClampX(g, g.xArray[i]) == g.xArray[i] && ClampY(g, g.yArray[j]) == g.yArray[j]
    requires Bracket(g.yArray, g.yArray[j]) == Ok(g.sizeY - 2)
    ensures Evaluate(g, g.xArray[i], g.yArray[j]) == Ok(Value(g, i, j))
  {
    var x, y := g.xArray[i], g.yArray[j];
    BracketAtNode(g.yArray, j);
    assert j == g.sizeY - 2 || j == g.sizeY - 1;
    EvaluateDispatches(g, x, y, x, y, g.sizeY - 2);
    BracketAtNode(g.xArray, i);
    YRoofPathIsEdge(g, x, y, Bracket(g.xArray, x).value);
    SliceAtNode(g, i, j);
  }

  /** A node whose y-cell cj lies strictly inside: the node is row cj itself. */
  lemma InteriorNodeExact(g: Cubic3DInterpolation, i: nat, j: nat, cj: nat)
    requires Valid(g) && StrictlyIncreasing(g.xArray) && StrictlyIncreasing(g.yArray)
    requires i < g.sizeX && j < g.sizeY
    requires ClampX(g, g.xArray[i]) == g.xArray[i] && ClampY(g, g.yArray[j]) == g.yArray[j]
    requires Bracket(g.yArray, g.yArray[j]) == Ok(cj) && 0 < cj < g.sizeY - 2
    ensures Evaluate(g, g.xArray[i], g.yArray[j]) == Ok(Value(g, i, j))
  {
    var x, y := g.xArray[i], g.yArray[j];
    BracketAtNode(g.yArray, j);
    assert j == cj;
    EvaluateDispatches(g, x, y, x, y, cj);
    BracketAtNode(g.xArray, i);
    InteriorPathIsInterior(g, x, y, Bracket(g.xArray, x).value, cj);
    SliceAtNode(g, i, j);
  }

  /** Node (i, j) holds the value of the plane a x + b y + c. */
  predicate OnPlane(g: Cubic3DInterpolation, a: real, b: real, c: real, i: nat, j: nat)
    requires WellShaped(g) && i < g.sizeX && j < g.sizeY
  {
    Value(g, i, j) == a * g.xArray[i] + b * g.yArray[j] + c
  }

  /** The table samples the plane a x + b y + c at every node. */
  predicate IsPlane(g: Cubic3DInterpolation, a: real, b: real, c: real)
    requires WellShaped(g)
  {
    forall i: nat, j: nat :: i < g.sizeX && j < g.sizeY ==> OnPlane(g, a, b, c, i, j)
  }

  /** The slice along row `row` over x-cell i, evaluated at x, is the row's value b y + offset
      of a line in y. */
  predicate SliceOnLine(g: Cubic3DInterpolation, x: real, i: nat, row: nat, b: real, offset: real)
    requires Valid(g) && i + 1 < g.sizeX && row < g.sizeY
  {
    CubicInterpolateYgrid(g, x, i, row) == b * g.yArray[row] + offset
  }

  /** On a plane, every slice along x is exact: the row's line evaluated at x. */
  lemma SliceOnPlane(g: Cubic3DInterpolation, a: real, b: real, c: real, x: real, i: nat, row: nat)
    requires Valid(g) && IsPlane(g, a, b, c) && i + 1 < g.sizeX && row < g.sizeY
    ensures SliceOnLine(g, x, i, row, b, a * x + c)
  {
    SliceDataOnPlane(g, a, b, c, i, row);
    SliceOfLineData(g, x, i, row, a, b * g.yArray[row] + c);
  }

  /** A slice whose two nodes lie on the line slope * x + offset and whose two derivative
      estimates are that slope is the line itself. */
  lemma SliceOfLineData(g: Cubic3DInterpolation, x: real, i: nat, row: nat, slope: real, offset: real)
    requires Valid(g) && i + 1 < g.sizeX && row < g.sizeY
    requires Value(g, i, row) == slope * g.xArray[i] + offset
    requires Value(g, i + 1, row) == slope * g.xArray[i + 1] + offset
    requires GetXDer(g, i, row) == slope && GetXDer(g, i + 1, row) == slope
    ensures CubicInterpolateYgrid(g, x, i, row) == slope * x + offset
  {
    CubicByValOnLine(x, [g.xArray[i], g.xArray[i + 1]],
                     [Value(g, i, row), Value(g, i + 1, row), GetXDer(g, i, row), GetXDer(g, i + 1, row)],
                     slope, offset);
  }

  /** The values and x-derivative estimates a slice on a plane is built from. */
  lemma SliceDataOnPlane(g: Cubic3DInterpolation, a: real, b: real, c: real, i: nat, row: nat)
    requires Valid(g) && IsPlane(g, a, b, c) && i + 1 < g.sizeX && row < g.sizeY
    ensures Value(g, i, row) == a * g.xArray[i] + (b * g.yArray[row] + c)
    ensures Value(g, i + 1, row) == a * g.xArray[i + 1] + (b * g.yArray[row] + c)
    ensures GetXDer(g, i, row) == a && GetXDer(g, i + 1, row) == a
  {
    var offset := b * g.yArray[row] + c;
    forall k | 0 <= k < g.sizeX
      ensures Value(g, k, row) == a * g.xArray[k] + offset
    {
      assert OnPlane(g, a, b, c, k, row);
    }
    XDerExactOnLines(g, i, row, a, offset);
    XDerExactOnLines(g, i + 1, row, a, offset);
  }

  /** The y-fit of slices lying on the line b y + offset is that line: the edge and central
      difference quotients all give the slope b. */
  lemma LowerEdgeOnLine(g: Cubic3DInterpolation, y: real, b: real, offset: real, s0: real, s1: real, s2: real)
    requires Valid(g)
    requires s0 == b * g.yArray[0] + offset && s1 == b * g.yArray[1] + offset && s2 == b * g.yArray[2] + offset
    ensures LowerEdge(g, y, s0, s1, s2) == b * y + offset
  {
    var ys := g.yArray;
    var xPoints := ys[0..2];
    var vals := [s0, s1, (s1 - s0) / (ys[1] - ys[0]), (s2 - s0) / (ys[2] - ys[0])];
    SecantOfLine(b, offset, ys[0], ys[1], s0, s1);
    SecantOfLine(b, offset, ys[0], ys[2], s0, s2);
    CubicByValOnLine(y, xPoints, vals, b, offset);
    assert LowerEdge(g, y, s0, s1, s2) == CubicByVal(y, xPoints, vals);
  }

  lemma UpperEdgeOnLine(g: Cubic3DInterpolation, y: real, b: real, offset: real, s0: real, s1: real, s2: real)
    requires Valid(g)
    requires s0 == b * g.yArray[g.sizeY - 3] + offset && s1 == b * g.yArray[g.sizeY - 2] + offset
    requires s2 == b * g.yArray[g.sizeY - 1] + offset
    ensures UpperEdge(g, y, s0, s1, s2) == b * y + offset
  {
    var ys, n := g.yArray, g.sizeY;
    var xPoints := ys[n - 2..n];
    var vals := [s1, s2, (s2 - s0) / (ys[n - 1] - ys[n - 3]), (s2 - s1) / (ys[n - 1] - ys[n - 2])];
    SecantOfLine(b, offset, ys[n - 3], ys[n - 1], s0, s2);
    SecantOfLine(b, offset, ys[n - 2], ys[n - 1], s1, s2);
    CubicByValOnLine(y, xPoints, vals, b, offset);
    assert UpperEdge(g, y, s0, s1, s2) == CubicByVal(y, xPoints, vals);
  }

  lemma InteriorOnLine(g: Cubic3DInterpolation, y: real, j: nat, b: real, offset: real,
                       s0: real, s1: real, s2: real, s3: real)
    requires Valid(g) && 1 <= j && j + 2 < g.sizeY
    requires s0 == b * g.yArray[j - 1] + offset && s1 == b * g.yArray[j] + offset
    requires s2 == b * g.yArray[j + 1] + offset && s3 == b * g.yArray[j + 2] + offset
    ensures Interior(g, y, j, s0, s1, s2, s3) == b * y + offset
  {
    var ys := g.yArray;
    var xPoints := ys[j..j + 2];
    var vals := [s1, s2, (s2 - s0) / (ys[j + 1] - ys[j - 1]), (s3 - s1) / (ys[j + 2] - ys[j])];
    SecantOfLine(b, offset, ys[j - 1], ys[j + 1], s0, s2);
    SecantOfLine(b, offset, ys[j], ys[j + 2], s1, s3);
    CubicByValOnLine(y, xPoints, vals, b, offset);
    assert Interior(g, y, j, s0, s1, s2, s3) == CubicByVal(y, xPoints, vals);
  }

  /** evalQubicYzero when the three slices lie on the line b y + offset. */
  lemma LowerPathFromSlices(g: Cubic3DInterpolation, x: real, y: real, i: nat, b: real, offset: real)
    requires Valid(g) && Bracket(g.xArray, x) == Ok(i)
    requires SliceOnLine(g, x, i, 0, b, offset) && SliceOnLine(g, x, i, 1, b, offset)
    requires SliceOnLine(g, x, i, 2, b, offset)
    ensures YzeroPath(g, x, y) == Ok(b * y + offset)
  {
    var s0, s1, s2 := CubicInterpolateYgrid(g, x, i, 0), CubicInterpolateYgrid(g, x, i, 1),
                      CubicInterpolateYgrid(g, x, i, 2);
    LowerEdgeOnLine(g, y, b, offset, s0, s1, s2);
    YzeroPathIsEdge(g, x, y, i);
  }

  /** Unfolding evalQubicYzero once the x-cell is known. */
  lemma YzeroPathIsEdge(g: Cubic3DInterpolation, x: real, y: real, i: nat)
    requires Valid(g) && Bracket(g.xArray, x) == Ok(i)
    ensures YzeroPath(g, x, y) == Ok(LowerEdge(g, y, CubicInterpolateYgrid(g, x, i, 0),
                                               CubicInterpolateYgrid(g, x, i, 1),
                                               CubicInterpolateYgrid(g, x, i, 2)))
  {
  }

  /** evalQubicYRoof when the last three slices lie on the line b y + offset. */
  lemma UpperPathFromSlices(g: Cubic3DInterpolation, x: real, y: real, i: nat, b: real, offset: real)
    requires Valid(g) && Bracket(g.xArray, x) == Ok(i)
    requires SliceOnLine(g, x, i, g.sizeY - 3, b, offset) && SliceOnLine(g, x, i, g.sizeY - 2, b, offset)
    requires SliceOnLine(g, x, i, g.sizeY - 1, b, offset)
    ensures YRoofPath(g, x, y) == Ok(b * y + offset)
  {
    var n := g.sizeY;
    var s0, s1, s2 := CubicInterpolateYgrid(g, x, i, n - 3), CubicInterpolateYgrid(g, x, i, n - 2),
                      CubicInterpolateYgrid(g, x, i, n - 1);
    UpperEdgeOnLine(g, y, b, offset, s0, s1, s2);
    YRoofPathIsEdge(g, x, y, i);
  }

  /** Unfolding evalQubicYRoof once the x-cell is known. */
  lemma YRoofPathIsEdge(g: Cubic3DInterpolation, x: real, y: real, i: nat)
    requires Valid(g) && Bracket(g.xArray, x) == Ok(i)
    ensures YRoofPath(g, x, y) == Ok(UpperEdge(g, y, CubicInterpolateYgrid(g, x, i, g.sizeY - 3),
                                               CubicInterpolateYgrid(g, x, i, g.sizeY - 2),
                                               CubicInterpolateYgrid(g, x, i, g.sizeY - 1)))
  {
  }

  /** The general path when the four slices lie on the line b y + offset. */
  lemma InteriorPathFromSlices(g: Cubic3DInterpolation, x: real, y: real, i: nat, j: nat, b: real, offset: real)
    requires Valid(g) && Bracket(g.xArray, x) == Ok(i) && 1 <= j && j + 2 < g.sizeY
    requires SliceOnLine(g, x, i, j - 1, b, offset) && SliceOnLine(g, x, i, j, b, offset)
    requires SliceOnLine(g, x, i, j + 1, b, offset) && SliceOnLine(g, x, i, j + 2, b, offset)
    ensures InteriorPath(g, x, y, j) == Ok(b * y + offset)
  {
    var s0, s1 := CubicInterpolateYgrid(g, x, i, j - 1), CubicInterpolateYgrid(g, x, i, j);
    var s2, s3 := CubicInterpolateYgrid(g, x, i, j + 1), CubicInterpolateYgrid(g, x, i, j + 2);
    InteriorOnLine(g, y, j, b, offset, s0, s1, s2, s3);
    InteriorPathIsInterior(g, x, y, i, j);
  }

  /** Unfolding the general path once the x-cell is known. */
  lemma InteriorPathIsInterior(g: Cubic3DInterpolation, x: real, y: real, i: nat, j: nat)
    requires Valid(g) && Bracket(g.xArray, x) == Ok(i) && 1 <= j && j + 2 < g.sizeY
    ensures InteriorPath(g, x, y, j) == Ok(Interior(g, y, j, CubicInterpolateYgrid(g, x, i, j - 1),
                                                    CubicInterpolateYgrid(g, x, i, j),
                                                    CubicInterpolateYgrid(g, x, i, j + 1),
                                                    CubicInterpolateYgrid(g, x, i, j + 2)))
  {
  }

  /** evalQubicYzero on a plane. */
  lemma LowerPathOnPlane(g: Cubic3DInterpolation, a: real, b: real, c: real, x: real, y: real)
    requires Valid(g) && IsPlane(g, a, b, c) && g.xArray[0] <= x <= g.xArray[g.sizeX - 1]
    ensures YzeroPath(g, x, y) == Ok(a * x + b * y + c)
  {
    var i := Bracket(g.xArray, x).value;
    SliceOnPlane(g, a, b, c, x, i, 0);
    SliceOnPlane(g, a, b, c, x, i, 1);
    SliceOnPlane(g, a, b, c, x, i, 2);
    LowerPathFromSlices(g, x, y, i, b, a * x + c);
  }

  /** evalQubicYRoof on a plane. */
  lemma UpperPathOnPlane(g: Cubic3DInterpolation, a: real, b: real, c: real, x: real, y: real)
    requires Valid(g) && IsPlane(g, a, b, c) && g.xArray[0] <= x <= g.xArray[g.sizeX - 1]
    ensures YRoofPath(g, x, y) == Ok(a * x + b * y + c)
  {
    var i, n := Bracket(g.xArray, x).value, g.sizeY;
    SliceOnPlane(g, a, b, c, x, i, n - 3);
    SliceOnPlane(g, a, b, c, x, i, n - 2);
    SliceOnPlane(g, a, b, c, x, i, n - 1);
    UpperPathFromSlices(g, x, y, i, b, a * x + c);
  }

  /** The general path on a plane. */
  lemma InteriorPathOnPlane(g: Cubic3DInterpolation, a: real, b: real, c: real, x: real, y: real, j: nat)
    requires Valid(g) && IsPlane(g, a, b, c) && g.xArray[0] <= x <= g.xArray[g.sizeX - 1]
    requires 1 <= j && j + 2 < g.sizeY
    ensures InteriorPath(g, x, y, j) == Ok(a * x + b * y + c)
  {
    var i := Bracket(g.xArray, x).value;
    SliceOnPlane(g, a, b, c, x, i, j - 1);
    SliceOnPlane(g, a, b, c, x, i, j);
    SliceOnPlane(g, a, b, c, x, i, j + 1);
    SliceOnPlane(g, a, b, c, x, i, j + 2);
    InteriorPathFromSlices(g, x, y, i, j, b, a * x + c);
  }

  /** A table sampled from a plane is reproduced exactly at every point of the table's domain,
      whatever the spacing of the axes. */
  lemma EvaluateReproducesPlanes(g: Cubic3DInterpolation, a: real, b: real, c: real, x: real, y: real)
    requires Valid(g) && IsPlane(g, a, b, c)
    requires g.xArray[0] <= x <= g.xArray[g.sizeX - 1] && g.yArray[0] <= y <= g.yArray[g.sizeY - 1]
    ensures Evaluate(g, x, y) == Ok(a * x + b * y + c)
  {
    ClampedOnPlane(g, a, b, c, x, y, x, y);
  }

  /** The plane theorem for the clamped query point (cx, cy), by the y-cell it falls into. */
  lemma ClampedOnPlane(g: Cubic3DInterpolation, a: real, b: real, c: real, x: real, y: real, cx: real, cy: real)
    requires Valid(g) && IsPlane(g, a, b, c)
    requires g.xArray[0] <= cx <= g.xArray[g.sizeX - 1] && g.yArray[0] <= cy <= g.yArray[g.sizeY - 1]
    requires cx == ClampX(g, x) && cy == ClampY(g, y)
    ensures Evaluate(g, x, y) == Ok(a * cx + b * cy + c)
  {
    var j := Bracket(g.yArray, cy).value;
    if j == 0 {
      LowerCellOnPlane(g, a, b, c, x, y, cx, cy);
    } else if j == g.sizeY - 2 {
      UpperCellOnPlane(g, a, b, c, x, y, cx, cy);
    } else {
      InteriorCellOnPlane(g, a, b, c, x, y, cx, cy, j);
    }
  }

  lemma LowerCellOnPlane(g: Cubic3DInterpolation, a: real, b: real, c: real, x: real, y: real, cx: real, cy: real)
    requires Valid(g) && IsPlane(g, a, b, c) && g.xArray[0] <= cx <= g.xArray[g.sizeX - 1]
    requires cx == ClampX(g, x) && cy == ClampY(g, y) && Bracket(g.yArray, cy) == Ok(0)
    ensures Evaluate(g, x, y) == Ok(a * cx + b * cy + c)
  {
    EvaluateDispatches(g, x, y, cx, cy, 0);
    LowerPathOnPlane(g, a, b, c, cx, cy);
  }

  lemma UpperCellOnPlane(g: Cubic3DInterpolation, a: real, b: real, c: real, x: real, y: real, cx: real, cy: real)
    requires Valid(g) && IsPlane(g, a, b, c) && g.xArray[0] <= cx <= g.xArray[g.sizeX - 1]
    requires cx == ClampX(g, x) && cy == ClampY(g, y) && Bracket(g.yArray, cy) == Ok(g.sizeY - 2)
    ensures Evaluate(g, x, y) == Ok(a * cx + b * cy + c)
  {
    EvaluateDispatches(g, x, y, cx, cy, g.sizeY - 2);
    UpperPathOnPlane(g, a, b, c, cx, cy);
  }

  lemma InteriorCellOnPlane(g: Cubic3DInterpolation, a: real, b: real, c: real, x: real, y: real, cx: real, cy: real,
                            j: nat)
    requires Valid(g) && IsPlane(g, a, b, c) && g.xArray[0] <= cx <= g.xArray[g.sizeX - 1]
    requires cx == ClampX(g, x) && cy == ClampY(g, y) && Bracket(g.yArray, cy) == Ok(j) && 0 < j < g.sizeY - 2
    ensures Evaluate(g, x, y) == Ok(a * cx + b * cy + c)
  {
    EvaluateDispatches(g, x, y, cx, cy, j);
    InteriorPathOnPlane(g, a, b, c, cx, cy, j);
  }

  /** Which of the three paths evalQubic takes for the y-cell j of the clamped query (cx, cy). */
  lemma EvaluateDispatches(g: Cubic3DInterpolation, x: real, y: real, cx: real, cy: real, j: nat)
    requires Valid(g) && cx == ClampX(g, x) && cy == ClampY(g, y) && Bracket(g.yArray, cy) == Ok(j)
    ensures j == 0 ==> Evaluate(g, x, y) == YzeroPath(g, cx, cy)
    ensures j == g.sizeY - 2 ==> Evaluate(g, x, y) == YRoofPath(g, cx, cy)
    ensures 0 < j < g.sizeY - 2 ==> Evaluate(g, x, y) == InteriorPath(g, cx, cy, j)
  {
  }
}
