/** evalQubic and its helpers: clamp the query point into the table, bracket it on both axes,
    pick the y-stencil by the y-cell, build one Hermite cubic along x per stencil row, and fit a
    Hermite cubic across y through those slices. */
module Engine {
  import opened Results
  import opened RealOps
  import opened CellSearch
  import opened Hermite
  import opened Solver
  import opened Grid

  /** The query coordinates after the std::max / std::min steps of evalQubic. */
  function ClampX(g: Cubic3DInterpolation, x: real): real
    requires Valid(g)
  {
    Clamp(x, g.xArray[0], g.xArray[g.sizeX - 1])
  }

  function ClampY(g: Cubic3DInterpolation, y: real): real
    requires Valid(g)
  {
    Clamp(y, g.yArray[0], g.yArray[g.sizeY - 1])
  }

  /** cubicInterpolateYgrid: along row yIndex, the Hermite cubic over the x-cell
      [xArray[zeroXIndex], xArray[zeroXIndex + 1]] with the node values and the x-derivative
      estimates at both ends, evaluated at x. */
  function CubicInterpolateYgrid(g: Cubic3DInterpolation, x: real, zeroXIndex: nat, yIndex: nat): (r: real)
    requires Valid(g) && zeroXIndex + 1 < g.sizeX && yIndex < g.sizeY
    ensures x == g.xArray[zeroXIndex] ==> r == Value(g, zeroXIndex, yIndex)
    ensures x == g.xArray[zeroXIndex + 1] ==> r == Value(g, zeroXIndex + 1, yIndex)
  {
    CubicByVal(x, [g.xArray[zeroXIndex], g.xArray[zeroXIndex + 1]],
               [Value(g, zeroXIndex, yIndex), Value(g, zeroXIndex + 1, yIndex),
                GetXDer(g, zeroXIndex, yIndex), GetXDer(g, zeroXIndex + 1, yIndex)])
  }

  /** The y-fit of evalQubicYzero from the slices s0, s1, s2 along rows 0, 1, 2: over
      [yArray[0], yArray[1]], with a forward difference at row 0 and the difference across rows 0
      and 2 at row 1. */
  function LowerEdge(g: Cubic3DInterpolation, y: real, s0: real, s1: real, s2: real): (r: real)
    requires Valid(g)
    ensures y == g.yArray[0] ==> r == s0
    ensures y == g.yArray[1] ==> r == s1
  {
    CubicByVal(y, g.yArray[0..2],
               [s0, s1, (s1 - s0) / (g.yArray[1] - g.yArray[0]), (s2 - s0) / (g.yArray[2] - g.yArray[0])])
  }

  /** The y-fit of evalQubicYRoof from the slices s0, s1, s2 along the last three rows: over
      the last y-cell, with the difference across rows n-3 and n-1 at row n-2 and a backward
      difference at row n-1. */
  function UpperEdge(g: Cubic3DInterpolation, y: real, s0: real, s1: real, s2: real): (r: real)
    requires Valid(g)
    ensures y == g.yArray[g.sizeY - 2] ==> r == s1
    ensures y == g.yArray[g.sizeY - 1] ==> r == s2
  {
    CubicByVal(y, g.yArray[g.sizeY - 2..g.sizeY],
               [s1, s2,
                (s2 - s0) / (g.yArray[g.sizeY - 1] - g.yArray[g.sizeY - 3]),
                (s2 - s1) / (g.yArray[g.sizeY - 1] - g.yArray[g.sizeY - 2])])
  }

  /** The y-fit of the general path of evalQubic from the slices along rows j-1 .. j+2: over
      [yArray[j], yArray[j+1]], with central differences at both ends. */
  function Interior(g: Cubic3DInterpolation, y: real, j: nat, s0: real, s1: real, s2: real, s3: real): (r: real)
    requires Valid(g) && 1 <= j && j + 2 < g.sizeY
    ensures y == g.yArray[j] ==> r == s1
    ensures y == g.yArray[j + 1] ==> r == s2
  {
    CubicByVal(y, g.yArray[j..j + 2],
               [s1, s2,
                (s2 - s0) / (g.yArray[j + 1] - g.yArray[j - 1]),
                (s3 - s1) / (g.yArray[j + 2] - g.yArray[j])])
  }

  /** evalQubicYzero: bracket x, slice rows 0, 1, 2, fit across y. */
  function YzeroPath(g: Cubic3DInterpolation, x: real, y: real): (r: Result<real>)
    requires Valid(g)
    ensures r.Ok? <==> g.xArray[0] <= x <= g.xArray[g.sizeX - 1]
  {
    match Bracket(g.xArray, x)
    case Err(e) => Err(e)
    case Ok(i) =>
      Ok(LowerEdge(g, y, CubicInterpolateYgrid(g, x, i, 0), CubicInterpolateYgrid(g, x, i, 1),
                   CubicInterpolateYgrid(g, x, i, 2)))
  }

  /** evalQubicYRoof: bracket x, slice the last three rows, fit across y. */
  function YRoofPath(g: Cubic3DInterpolation, x: real, y: real): (r: Result<real>)
    requires Valid(g)
    ensures r.Ok? <==> g.xArray[0] <= x <= g.xArray[g.sizeX - 1]
  {
    match Bracket(g.xArray, x)
    case Err(e) => Err(e)
    case Ok(i) =>
      Ok(UpperEdge(g, y, CubicInterpolateYgrid(g, x, i, g.sizeY - 3),
                   CubicInterpolateYgrid(g, x, i, g.sizeY - 2), CubicInterpolateYgrid(g, x, i, g.sizeY - 1)))
  }

  /** The general path of evalQubic for y-cell j: bracket x, slice rows j-1 .. j+2, fit across y. */
  function InteriorPath(g: Cubic3DInterpolation, x: real, y: real, j: nat): (r: Result<real>)
    requires Valid(g) && 1 <= j && j + 2 < g.sizeY
    ensures r.Ok? <==> g.xArray[0] <= x <= g.xArray[g.sizeX - 1]
  {
    match Bracket(g.xArray, x)
    case Err(e) => Err(e)
    case Ok(i) =>
      Ok(Interior(g, y, j, CubicInterpolateYgrid(g, x, i, j - 1), CubicInterpolateYgrid(g, x, i, j),
                  CubicInterpolateYgrid(g, x, i, j + 1), CubicInterpolateYgrid(g, x, i, j + 2)))
  }

  /** evalQubic as a function of the table and the query point. It reports OutsideDomain exactly
      when an axis ends below where it starts; otherwise the clamped point is bracketed. */
  function Evaluate(g: Cubic3DInterpolation, x: real, y: real): (r: Result<real>)
    requires Valid(g)
    ensures r.Ok? <==> g.xArray[0] <= g.xArray[g.sizeX - 1] && g.yArray[0] <= g.yArray[g.sizeY - 1]
    ensures r.Err? ==> r.error == OutsideDomain
  {
    match Bracket(g.yArray, ClampY(g, y))
    case Err(e) => Err(e)
    case Ok(j) =>
      if j == 0 then YzeroPath(g, ClampX(g, x), ClampY(g, y))
      else if j == g.sizeY - 2 then YRoofPath(g, ClampX(g, x), ClampY(g, y))
      else InteriorPath(g, ClampX(g, x), ClampY(g, y), j)
  }

  /** The dispatch of evalQubic reads only rows of the table: the x-cell's right node exists; the
      lower edge's rows 0 .. 2 exist; at the last cell the upper edge's rows are j-1 .. j+1, the
      last three; otherwise the general path's rows j-1 .. j+2 all exist. */
  lemma DispatchInRange(g: Cubic3DInterpolation, x: real, y: real, i: nat, j: nat)
    requires Valid(g)
    requires Bracket(g.yArray, ClampY(g, y)) == Ok(j) && Bracket(g.xArray, ClampX(g, x)) == Ok(i)
    ensures i + 1 <= g.sizeX - 1 && j + 1 <= g.sizeY - 1
    ensures j == 0 ==> 2 <= g.sizeY - 1
    ensures j == g.sizeY - 2 ==> 1 <= j && j - 1 == g.sizeY - 3 && j + 1 == g.sizeY - 1
    ensures j != 0 && j != g.sizeY - 2 ==> 1 <= j && j + 2 <= g.sizeY - 1
  {
  }

  /** cubicInterpolateByVal: assemble the 4x4 system, solve it in place, and read the cubic at
      x from the solution by Horner's scheme. */
  method CubicInterpolateByVal(x: real, xPoints: seq<real>, values: seq<real>) returns (r: real)
    requires |xPoints| == 2 && |values| == 4 && xPoints[0] != xPoints[1]
    ensures r == CubicByVal(x, xPoints, values)
  {
    var solver := new Matrix(4);
    AssembleHermite(solver, xPoints);
    assert solver.Rows() == HermiteMatrix(xPoints[0], xPoints[1]);
    solver.B[0] := values[0];
    solver.B[1] := values[1];
    solver.B[2] := values[2];
    solver.B[3] := values[3];
    assert solver.B[..] == values;
    solver.AutoSolve();
    HermiteSolveUnique(xPoints[0], xPoints[1], values, solver.B[..]);
    r := solver.B[3] + x * (solver.B[2] + x * (solver.B[1] + x * solver.B[0]));
  }

  /** The assembly step of cubicInterpolateByVal: the value and slope rows at both points go
      into A entry by entry, column by column. */
  method AssembleHermite(solver: Matrix, xPoints: seq<real>)
    requires |xPoints| == 2
    requires solver.A.Length0 == 4 && solver.A.Length1 == 4
    modifies solver.A
    ensures solver.A[0, 0] == xPoints[0] * xPoints[0] * xPoints[0] && solver.A[0, 1] == xPoints[0] * xPoints[0]
    ensures solver.A[0, 2] == xPoints[0] && solver.A[0, 3] == 1.0
    ensures solver.A[1, 0] == xPoints[1] * xPoints[1] * xPoints[1] && solver.A[1, 1] == xPoints[1] * xPoints[1]
    ensures solver.A[1, 2] == xPoints[1] && solver.A[1, 3] == 1.0
    ensures solver.A[2, 0] == 3.0 * (xPoints[0] * xPoints[0]) && solver.A[2, 1] == 2.0 * xPoints[0]
    ensures solver.A[2, 2] == 1.0 && solver.A[2, 3] == 0.0
    ensures solver.A[3, 0] == 3.0 * (xPoints[1] * xPoints[1]) && solver.A[3, 1] == 2.0 * xPoints[1]
    ensures solver.A[3, 2] == 1.0 && solver.A[3, 3] == 0.0
  {
    var x0, x1 := xPoints[0], xPoints[1];
    var x0Sq := x0 * x0;
    var x1Sq := x1 * x1;
    var x0Cu := x0Sq * x0;
    var x1Cu := x1Sq * x1;
    var A := solver.A;
    A[0, 0] := x0Cu;
    A[1, 0] := x1Cu;
    A[2, 0] := 3.0 * x0Sq;
    A[3, 0] := 3.0 * x1Sq;

    A[0, 1] := x0Sq;
    A[1, 1] := x1Sq;
    A[2, 1] := 2.0 * x0;
    A[3, 1] := 2.0 * x1;

    A[0, 2] := x0;
    A[1, 2] := x1;
    A[2, 2] := 1.0;
    A[3, 2] := 1.0;

    A[0, 3] := 1.0;
    A[1, 3] := 1.0;
    A[2, 3] := 0.0;
    A[3, 3] := 0.0;
  }

  /** evalQubicYzero. */
  method EvalQubicYzero(g: Cubic3DInterpolation, x: real, y: real) returns (r: Result<real>)
    requires Valid(g)
    ensures r == YzeroPath(g, x, y)
  {
    var zeroXIndex := FindZero(x, g.xArray);
    if zeroXIndex.Err? {
      return Err(zeroXIndex.error);
    }
    var i := zeroXIndex.value;
    var s0 := CubicInterpolateYgrid(g, x, i, 0);
    var s1 := CubicInterpolateYgrid(g, x, i, 1);
    var s2 := CubicInterpolateYgrid(g, x, i, 2);
    var values := [s0, s1, (s1 - s0) / (g.yArray[1] - g.yArray[0]), (s2 - s0) / (g.yArray[2] - g.yArray[0])];
    var v := CubicInterpolateByVal(y, g.yArray[0..2], values);
    r := Ok(v);
  }

  /** evalQubicYRoof. */
  method EvalQubicYRoof(g: Cubic3DInterpolation, x: real, y: real) returns (r: Result<real>)
    requires Valid(g)
    ensures r == YRoofPath(g, x, y)
  {
    var zeroXIndex := FindZero(x, g.xArray);
    if zeroXIndex.Err? {
      return Err(zeroXIndex.error);
    }
    var i := zeroXIndex.value;
    var n := g.sizeY;
    var s0 := CubicInterpolateYgrid(g, x, i, n - 3);
    var s1 := CubicInterpolateYgrid(g, x, i, n - 2);
    var s2 := CubicInterpolateYgrid(g, x, i, n - 1);
    var values := [s1, s2, (s2 - s0) / (g.yArray[n - 1] - g.yArray[n - 3]), (s2 - s1) / (g.yArray[n - 1] - g.yArray[n - 2])];
    var v := CubicInterpolateByVal(y, g.yArray[n - 2..n], values);
    assert v == UpperEdge(g, y, s0, s1, s2);
    r := Ok(v);
  }

  /** The general path of evalQubic, lines after the dispatch: bracket x, slice the four rows
      j-1 .. j+2 and fit across y. */
  method EvalQubicInterior(g: Cubic3DInterpolation, x: real, y: real, j: nat) returns (r: Result<real>)
    requires Valid(g) && 1 <= j && j + 2 < g.sizeY
    ensures r == InteriorPath(g, x, y, j)
  {
    var zeroXIndex := FindZero(x, g.xArray);
    if zeroXIndex.Err? {
      return Err(zeroXIndex.error);
    }
    var i := zeroXIndex.value;
    var s0 := CubicInterpolateYgrid(g, x, i, j - 1);
    var s1 := CubicInterpolateYgrid(g, x, i, j);
    var s2 := CubicInterpolateYgrid(g, x, i, j + 1);
    var s3 := CubicInterpolateYgrid(g, x, i, j + 2);
    var values := [s1, s2, (s2 - s0) / (g.yArray[j + 1] - g.yArray[j - 1]), (s3 - s1) / (g.yArray[j + 2] - g.yArray[j])];
    var v := CubicInterpolateByVal(y, g.yArray[j..j + 2], values);
    r := Ok(v);
  }

  /** evalQubic: clamp by reassigning the coordinates, bracket y, dispatch, and on the general
      path bracket x, slice four rows and fit across y. A thrown runtime_error is an Err. */
  method EvalQubic(g: Cubic3DInterpolation, x: real, y: real) returns (r: Result<real>)
    requires Valid(g)
    ensures r == Evaluate(g, x, y)
  {
    var qx, qy := x, y;
    qx := Max(g.xArray[0], qx);
    qy := Max(g.yArray[0], qy);
    qx := Min(g.xArray[g.sizeX - 1], qx);
    qy := Min(g.yArray[g.sizeY - 1], qy);
    assert qx == ClampX(g, x) && qy == ClampY(g, y);
    var zeroYIndex := FindZero(qy, g.yArray);
    if zeroYIndex.Err? {
      return Err(zeroYIndex.error);
    }
    var j := zeroYIndex.value;
    if j == 0 {
      r := EvalQubicYzero(g, qx, qy);
      return;
    } else if j == g.sizeY - 2 {
      r := EvalQubicYRoof(g, qx, qy);
      return;
    }
    r := EvalQubicInterior(g, qx, qy, j);
  }
}
