# Bicubic grid interpolation, modelled in Dafny

This project models the interpolation core of CICIND-Ka. The program uses it to look up the
aerodynamic damping parameter Ka from a table sampled on a rectangular grid:

- **`Cubic3DInterpolation`** holds two axes and a value table. The table is flattened node by
  node as `xIndex * sizeY + yIndex`. `evalQubic(x, y)` does five things in order:
  1. It clamps the query point into the axis ranges.
  2. It brackets each clamped coordinate with `findZero`, a downward scan over the axis.
  3. It picks one of three y-stencils by the y-cell: rows 0..2 at the lower edge, the last three
     rows at the upper edge, and rows j-1..j+2 elsewhere.
  4. For each stencil row it builds a Hermite cubic along x (`cubicInterpolateYgrid`). That cubic
     uses the two node values of the x-cell and their finite-difference x-derivatives
     (`getResult`, `getxDerResult`).
  5. It fits one more two-point Hermite cubic across y through those slices
     (`cubicInterpolateByVal`). That step assembles a 4x4 system, solves it in place with a
     `Matrix`, and reads the cubic by Horner's scheme.
- **`LinInterpolate`** is a one-dimensional linear interpolant. It caches 1/(x2-x1) when it is
  constructed. It offers a plain `interpolate` that extrapolates, and an `interpolateFlat` that
  holds the end values outside [x1, x2].

Floating-point numbers are modelled as reals and unsigned indices as naturals. The source's two
`std::runtime_error` throws become `Err` values of a `Result`.

The model keeps the source's form:
- `findZero` is a method with the source's loop over a decrementing counter.
- `cubicInterpolateByVal` is a method. It fills the solver's `array2` and `array` entry by entry
  and calls `Matrix.AutoSolve`, which overwrites `B`.
- `evalQubic` is a method that reassigns its coordinates while clamping.
- Only the y-fit goes through the method `CubicInterpolateByVal`. The x-slices (`CubicInterpolateYgrid`) are a function and call the specification function `CubicByVal`, which that method is proved to compute, so no behaviour is lost.
- Each method is proved equal to a specification function: `Bracket`, `CubicByVal` or `Evaluate`.
- The properties are proved about those functions.

`Solver.Matrix.Rows` is the view of `A` as four rows that `AutoSolve`'s contract reads; the
entries themselves are written by `Engine.AssembleHermite`.

The table and the interpolant never change after construction. They are datatypes, and
`Grid.Cubic3DInterpolation` (the datatype constructor) stores its three sequences and two sizes
unchanged.

The model proves more than the bracket and in-range facts:
- The Hermite system has a unique solution, `Hermite.HermiteSolveUnique`.
- So whatever `autoSolve` does internally, the fit is determined by its postcondition.
- From this, the engine passes through every table value on strictly increasing axes.
- It also reproduces any plane a x + b y + c sampled on the grid, everywhere inside the grid.

Modules: `Results`, `RealOps`, `CellSearch` (findZero), `Hermite` (the cubic algebra), `Solver`
(the `Matrix` object), `Grid` (the table and its reads), `Engine` (evalQubic and its helpers),
`EngineProperties` (what evalQubic promises as a whole) and `LinearInterpolation`.

## Model

| member | source | states |
|---|---|---|
| RealOps.Max | Interpolation.cpp:48-49 | std::max: the result is at least both arguments and is one of them |
| RealOps.Min | Interpolation.cpp:50-51 | std::min: the result is at most both arguments and is one of them |
| RealOps.Clamp | Interpolation.cpp:48-51 | the max-then-min clamp stays at or below hi; it stays at or above lo when lo <= hi; it returns values inside [lo, hi] unchanged and pins values beyond either end to that end |
| RealOps.ClampIdempotent | Interpolation.cpp:48-51 | clamping an already clamped coordinate changes nothing |
| CellSearch.ScanDown | Interpolation.cpp:129-133 | the scan stops at or below its start index, at an index whose value does not exceed the target when a[0] does not, and every index it passes over lies above the target |
| CellSearch.Bracket | Interpolation.cpp:124-136 | Ok exactly when a[0] <= target <= a[last], and otherwise the domain error; the index is at most size-2 with a[k] <= target <= a[k+1]; it is the greatest such index; target < a[k+1] unless target is the last node |
| CellSearch.FindZero | Interpolation.cpp:124-136 | the downward scan with its `currentIndex + 1 != 0` guard and early return computes exactly Bracket |
| CellSearch.BracketUnique | Interpolation.cpp:129-133 | on a strictly increasing axis, the k with a[k] <= target < a[k+1] is what findZero returns |
| CellSearch.BracketAtNode | Interpolation.cpp:129-133 | on a strictly increasing axis a node's cell is its own index; the last node resolves to size-2 |
| Hermite.Horner | Interpolation.cpp:211 | the Horner read B[3] + x(B[2] + x(B[1] + x B[0])) equals the expanded cubic B[0]x^3 + B[1]x^2 + B[2]x + B[3] |
| Hermite.HermiteMatrix | Interpolation.cpp:185-203 | the assembled coefficient matrix has four rows of four entries; what its rows mean is stated by HermiteRows |
| Hermite.HermiteRows | Interpolation.cpp:185-208 | a coefficient vector solves the assembled system exactly when its cubic takes values[0], values[1] at the two points and its slope takes values[2], values[3] there |
| Hermite.HermiteSolve | Interpolation.cpp:209 | the closed-form solution solves the assembled system for any right-hand side when x0 != x1 |
| Hermite.HermiteSolveUnique | Interpolation.cpp:184-209 | any vector that solves the assembled system is the closed-form solution, so the fit does not depend on how the solver eliminates |
| Hermite.CubicByVal | Interpolation.cpp:179-212 | the fitted cubic takes values[0] at xPoints[0] and values[1] at xPoints[1] |
| Hermite.CubicByValSlopes | Interpolation.h:110-121 | the fitted cubic's slope is values[2] at xPoints[0] and values[3] at xPoints[1]: the value, value, derivative, derivative layout |
| Hermite.CubicByValOnLine | Interpolation.cpp:179-212 | data taken from a line (values and slopes) is fitted by that line |
| Solver.Matrix.constructor | Interpolation.cpp:184 | `Matrix solver(4)` allocates a fresh n x n matrix A and a fresh vector B of n entries |
| Solver.Matrix.AutoSolve | Interpolation.cpp:209 | afterwards B solves A * B == the old B (given the Hermite shape and x0 != x1); only B is modified |
| Engine.AssembleHermite | Interpolation.cpp:180-203 | the sixteen entries of A are the value and slope rows at both points |
| Engine.CubicInterpolateByVal | Interpolation.cpp:179-212 | assembling, solving in place and the Horner read yield exactly the Hermite cubic CubicByVal |
| Grid.FlatIndexInRange | Interpolation.cpp:141 | for xIndex < sizeX and yIndex < sizeY the slot xIndex*sizeY + yIndex is below sizeX*sizeY |
| Grid.FlatIndexInjective | Interpolation.cpp:141 | distinct nodes read distinct slots |
| Grid.FlatIndexOnto | Interpolation.cpp:141 | every slot of the table belongs to exactly the node (k / sizeY, k % sizeY) |
| Grid.DocumentedIndexCollides | Interpolation.h:76 | under the documented x*sizeX + y, nodes (0, sizeX) and (1, 0) share a slot whenever 2 <= sizeX < sizeY; the code's encoding separates them |
| Grid.GetResult | Interpolation.cpp:138-142 | with the intended `>=` guard: Ok exactly for in-range indices, then the stored value at its slot; otherwise the access error |
| Grid.GetResultAsWritten | Interpolation.cpp:138-142 | the written `>` guard throws for indices beyond the sizes; any value it returns is the stored value at its slot |
| Grid.AsWrittenAgreesOnNodes | Interpolation.cpp:139-141 | on nodes of the grid the written guard and the intended one agree |
| Grid.GuardAdmitsPastEnd | Interpolation.cpp:139-141 | xIndex == sizeX passes the written guard and reads beyond the table |
| Grid.GuardAdmitsWrongNode | Interpolation.cpp:139-141 | yIndex == sizeY passes the written guard and returns node (xIndex + 1, 0) |
| Grid.GetXDer | Interpolation.cpp:144-154 | the x-derivative estimate is the slope of the secant through the two nodes DiffNodes picks on its row: r (x_q - x_p) == v_q - v_p |
| Grid.GetYDer | Interpolation.cpp:156-163 | the y-derivative estimate is the slope of the secant through the two nodes DiffNodes picks on its column |
| Grid.TwoRowTableMisreads | Interpolation.cpp:124-142 | with two rows, findZero on y can only return cell 0, and the read of row 2 that evalQubicYzero then makes passes the written guard: it returns node (xIndex + 1, 0), or in the last x-cell reads past the table |
| Grid.DiffNodes | Interpolation.cpp:148-153 | forward difference (0, 1) at 0, backward (size-2, size-1) at size-1, central (i-1, i+1) for 0 < i < size-1; both nodes lie in [0, size-1] and bracket the node |
| Grid.XDerExactOnLines | Interpolation.cpp:144-154 | each of the three x-difference quotients returns the slope of a row lying on a line |
| Grid.YDerExactOnLines | Interpolation.cpp:156-163 | each of the three y-difference quotients returns the slope of a column lying on a line |
| Engine.CubicInterpolateYgrid | Interpolation.cpp:165-177 | the x-slice takes the table's values at both nodes of its cell |
| Engine.LowerEdge | Interpolation.cpp:93-99 | with derivatives (v1-v0)/(y1-y0) and (v2-v0)/(y2-y0), the lower y-fit takes slice 0 at y0 and slice 1 at y1 |
| Engine.UpperEdge | Interpolation.cpp:115-121 | with derivatives (v2-v0)/(y[n-1]-y[n-3]) and (v2-v1)/(y[n-1]-y[n-2]), the upper y-fit takes the last two slices at the last two nodes |
| Engine.Interior | Interpolation.cpp:69-76 | with central differences, the general y-fit takes slices j and j+1 at y[j] and y[j+1] |
| Engine.YzeroPath | Interpolation.cpp:79-100 | evalQubicYzero succeeds exactly when x is inside the x-axis range |
| Engine.YRoofPath | Interpolation.cpp:101-122 | evalQubicYRoof succeeds exactly when x is inside the x-axis range |
| Engine.InteriorPath | Interpolation.cpp:59-76 | the general path succeeds exactly when x is inside the x-axis range |
| Engine.Evaluate | Interpolation.cpp:44-77 | evalQubic fails, with the domain error, exactly when an axis ends below where it starts |
| Engine.DispatchInRange | Interpolation.cpp:55-67 | the x-cell's right node exists; for cell 0 the lower edge's rows 0..2 exist; for cell sizeY-2 the upper edge's rows are j-1..j+1, the last three; otherwise the general path's rows j-1..j+2 exist |
| Engine.EvalQubicYzero | Interpolation.cpp:79-100 | the method computes YzeroPath |
| Engine.EvalQubicYRoof | Interpolation.cpp:101-122 | the method computes YRoofPath |
| Engine.EvalQubicInterior | Interpolation.cpp:59-76 | the method computes InteriorPath |
| Engine.EvalQubic | Interpolation.cpp:44-77 | clamping by reassignment, bracketing y and dispatching computes Evaluate |
| EngineProperties.EvaluateClampsFirst | Interpolation.cpp:48-51 | evaluating at a point equals evaluating at its clamped point |
| EngineProperties.EvaluateFlatBeyondAxes | Interpolation.cpp:48-51 | beyond either end of either axis the surface repeats its value on that end's edge |
| EngineProperties.NodeInRange | Interpolation.cpp:48-51 | a node of a strictly increasing axis lies in the axis range and clamping keeps it |
| EngineProperties.SliceAtNode | Interpolation.cpp:165-177 | at an x-node every slice returns the table value of its row |
| EngineProperties.EvaluateExactAtNodes | Interpolation.cpp:44-122 | on strictly increasing axes evalQubic returns the stored value at every node |
| EngineProperties.SliceOfLineData | Interpolation.cpp:165-177 | a slice over data lying on a line in x, with exact derivatives, is that line |
| EngineProperties.SliceDataOnPlane | Interpolation.cpp:144-154 | on a plane, the node values of a slice lie on the row's line and both x-derivatives are the plane's x-slope |
| EngineProperties.SliceOnPlane | Interpolation.cpp:165-177 | on a plane, every x-slice is exact |
| EngineProperties.LowerEdgeOnLine | Interpolation.cpp:93-99 | slices on a line in y give a lower-edge fit equal to that line |
| EngineProperties.UpperEdgeOnLine | Interpolation.cpp:115-121 | slices on a line in y give an upper-edge fit equal to that line |
| EngineProperties.InteriorOnLine | Interpolation.cpp:69-76 | slices on a line in y give a general fit equal to that line |
| EngineProperties.LowerPathOnPlane | Interpolation.cpp:79-100 | on a plane, evalQubicYzero returns the plane's value for in-range x |
| EngineProperties.UpperPathOnPlane | Interpolation.cpp:101-122 | on a plane, evalQubicYRoof returns the plane's value for in-range x |
| EngineProperties.InteriorPathOnPlane | Interpolation.cpp:59-76 | on a plane, the general path returns the plane's value for in-range x |
| EngineProperties.EvaluateReproducesPlanes | Interpolation.cpp:44-77 | a table sampled from a x + b y + c is reproduced exactly at every point inside the grid |
| EngineProperties.ClampedOnPlane | Interpolation.cpp:44-77 | on a plane, evalQubic returns the plane's value at the clamped point |
| LinearInterpolation.Make | Interpolation.cpp:27-28 | the constructor stores the four support values unchanged and caches X2X1 with X2X1 * (x2 - x1) == 1 |
| LinearInterpolation.LinInterpolate.Interpolate | Interpolation.cpp:40-42 | with a valid cache, (r - y1)(x2 - x1) == (x - x1)(y2 - y1): the line through both support points |
| LinearInterpolation.LinInterpolate.InterpolateFlat | Interpolation.cpp:31-38 | y1 for x <= x1, interpolate(x) strictly between, y2 for x >= x2 (when x > x1) |
| LinearInterpolation.MakeInterpolates | Interpolation.h:50-63 | the constructed interpolant is y1 + (x - x1)(y2 - y1)/(x2 - x1) |
| LinearInterpolation.InterpolateEndpoints | Interpolation.cpp:40-42 | interpolate(x1) == y1 and interpolate(x2) == y2 |
| LinearInterpolation.FlatIsClampedInterpolate | Interpolation.h:42-57 | for x1 < x2, interpolateFlat is interpolate at the clamped abscissa |
| LinearInterpolation.FlatBetweenEndValues | Interpolation.h:42-49 | for x1 < x2, interpolateFlat never leaves the range between y1 and y2 |

## Left out

- `LinLogInterpolate` (Interpolation.cpp:9-25) is not modelled. It computes with the logarithm of floats, which the reals of the model do not provide.
- `QD2VL` (Interpolation.cpp:229-240) is not modelled. It is a C-linkage adapter that dereferences pointers and calls `evalQubic`.
- The table loader and `getAerodynamicDampingParameter` (AerodynamicDampingVortex.cpp) and `main.cpp` are not modelled: they are file I/O, a thin wrapper and console output.
- IEEE single precision is not modelled: rounding, NaN and infinity. Division by a zero difference, which yields infinity or NaN in the source, is excluded instead.
- LinearInterpolation.Make requires x1 != x2. The source would cache an infinite X2X1.
- Grid.Valid requires neighbouring nodes, up to two apart, to differ on both axes. This keeps every divisor of a difference quotient and of the Hermite fit nonzero. It is weaker than sorted axes, so a reversed axis still reaches the domain error.
- Grid.Valid requires sizeX >= 2 and sizeY >= 3. The engine on smaller tables is not modelled as a whole. With one node on an axis, `size-2` in `findZero` wraps around as an unsigned number. With sizeY == 2 nothing wraps: `findZero` returns cell 0 for every query, so `evalQubicYzero` reads row 2, which does not exist, and divides by `yArray[2] - yArray[0]` (Interpolation.cpp:97), reading one past the y-axis. The written `getResult` guard lets that read through (Interpolation.cpp:139-141). It returns node (i+1, 0) instead, and in the last x-cell it reads slot 2 sizeX, one past the table. Grid.TwoRowTableMisreads proves these reads.
- 32-bit wrap-around of `xIndex*sizeY + yIndex` is not modelled. Indices are unbounded naturals.
- Solver.Matrix.AutoSolve: `Matrix.h` is not part of this model. The elimination `autoSolve` performs is not modelled. Its contract covers only the Hermite-shaped systems that `cubicInterpolateByVal` assembles, and its body writes the unique closed-form solution.
- The grid stores its three arrays as sequences, not pointers. It therefore does not model the caller changing the arrays after construction, or aliasing between them.
- Grid.GetXDer and Grid.GetYDer require in-range indices. The engine calls them only on nodes, so the written guard of `getResult` does not matter there (Grid.AsWrittenAgreesOnNodes).
- Continuity of the surface across cell boundaries is not stated.

## Findings

| source | as written | input that shows it | evidently intended | confidence | as-written member | corrected member |
|---|---|---|---|---|---|---|
| Interpolation.cpp:139 | `getResult` throws only when `xIndex > sizeX \|\| yIndex > sizeY` | xIndex == sizeX reads past the table; yIndex == sizeY silently reads node (xIndex + 1, 0); a table with sizeY == 2 does this on every evaluation, because evalQubicYzero reads row 2 | reject `xIndex >= sizeX \|\| yIndex >= sizeY` | not executed | Grid.GetResultAsWritten, Grid.GuardAdmitsPastEnd, Grid.GuardAdmitsWrongNode, Grid.TwoRowTableMisreads | Grid.GetResult, Grid.FlatIndexInRange |
| Interpolation.h:76 | the constructor's documentation encodes the table as `x*sizeX + y` | sizeX = 2, sizeY = 3: nodes (0, 2) and (1, 0) both map to slot 2 | `x*sizeY + y`, the encoding `getResult` reads (Interpolation.cpp:141) | not executed | Grid.DocumentedIndexCollides | Grid.FlatIndex, Grid.FlatIndexInjective |
