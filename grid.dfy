/** The value table of Cubic3DInterpolation: its layout, the guarded read getResult, and the
    finite-difference derivatives getxDerResult and getyDerResult. */
module Grid {
  import opened Results
  import opened RealOps
  import opened CellSearch

  /** The engine's state: the two axes, the value table flattened node by node, and the two
      sizes. The engine stores them as given and never changes them. */
  datatype Cubic3DInterpolation = Cubic3DInterpolation(
    xArray: seq<real>,
    yArray: seq<real>,
    resultArray: seq<real>,
    sizeX: nat,
    sizeY: nat)

  /** The axes have the declared sizes and the table has one entry per node. */
  predicate WellShaped(g: Cubic3DInterpolation)
  {
    |g.xArray| == g.sizeX && |g.yArray| == g.sizeY && |g.resultArray| == g.sizeX * g.sizeY
  }

  /** Neighbours up to two apart differ: every divisor of a difference quotient or of the
      Hermite fit is nonzero. Weaker than strictly increasing. */
  predicate LocallyDistinct(a: seq<real>)
  {
    forall i, k :: 0 <= i < k < |a| && k - i <= 2 ==> a[i] != a[k]
  }

  /** The tables the engine can evaluate on: at least the 2 x 3 nodes its stencils need. */
  predicate Valid(g: Cubic3DInterpolation)
  {
    WellShaped(g) && g.sizeX >= 2 && g.sizeY >= 3 &&
    LocallyDistinct(g.xArray) && LocallyDistinct(g.yArray)
  }

  /** The slot getResult reads for node (xIndex, yIndex). */
  function FlatIndex(sizeY: nat, xIndex: nat, yIndex: nat): nat
  {
    xIndex * sizeY + yIndex
  }

  /** Every node of a sizeX x sizeY grid has its slot inside the table. */
  lemma FlatIndexInRange(sizeX: nat, sizeY: nat, xIndex: nat, yIndex: nat)
    requires xIndex < sizeX && yIndex < sizeY
    ensures FlatIndex(sizeY, xIndex, yIndex) < sizeX * sizeY
  {
    assert FlatIndex(sizeY, xIndex, yIndex) < (xIndex + 1) * sizeY;
    assert (xIndex + 1) * sizeY <= sizeX * sizeY;
  }

  /** Distinct nodes have distinct slots. */
  lemma FlatIndexInjective(sizeY: nat, i: nat, j: nat, i': nat, j': nat)
    requires j < sizeY && j' < sizeY
    requires FlatIndex(sizeY, i, j) == FlatIndex(sizeY, i', j')
    ensures i == i' && j == j'
  {
    if i < i' {
      ColumnsOrdered(sizeY, i, j, i', j');
    } else if i' < i {
      ColumnsOrdered(sizeY, i', j', i, j);
    }
  }

  /** Every slot of an earlier column comes before every slot of a later one. */
  lemma ColumnsOrdered(sizeY: nat, i: nat, j: nat, i': nat, j': nat)
    requires j < sizeY && i < i'
    ensures FlatIndex(sizeY, i, j) < FlatIndex(sizeY, i', j')
  {
    assert (i + 1) * sizeY <= i' * sizeY;
  }

  /** Every slot of the table belongs to a node. */
  lemma FlatIndexOnto(sizeX: nat, sizeY: nat, k: nat)
    requires k < sizeX * sizeY
    ensures sizeY > 0 && k / sizeY < sizeX && k % sizeY < sizeY
    ensures FlatIndex(sizeY, k / sizeY, k % sizeY) == k
  {
  }

  /** The encoding the constructor's documentation states: xIndex * sizeX + yIndex. */
  function DocumentedIndex(sizeX: nat, xIndex: nat, yIndex: nat): nat
  {
    xIndex * sizeX + yIndex
  }

  /** Under the documented encoding two distinct nodes share a slot whenever sizeX < sizeY:
      (0, sizeX) and (1, 0). The code's encoding separates them. */
  lemma DocumentedIndexCollides(sizeX: nat, sizeY: nat)
    requires 2 <= sizeX < sizeY
    ensures DocumentedIndex(sizeX, 0, sizeX) == DocumentedIndex(sizeX, 1, 0)
    ensures FlatIndex(sizeY, 0, sizeX) != FlatIndex(sizeY, 1, 0)
  {
  }

  /** getResult with the bound check it evidently intends: an index equal to its size is
      outside the table. */
  function GetResult(g: Cubic3DInterpolation, xIndex: nat, yIndex: nat): (r: Result<real>)
    requires WellShaped(g)
    ensures r.Ok? <==> xIndex < g.sizeX && yIndex < g.sizeY
    ensures r.Err? ==> r.error == AccessOutsideDomain
    ensures r.Ok? ==> FlatIndex(g.sizeY, xIndex, yIndex) < |g.resultArray| &&
                      r.value == g.resultArray[FlatIndex(g.sizeY, xIndex, yIndex)]
  {
    if xIndex >= g.sizeX || yIndex >= g.sizeY then
      Err(AccessOutsideDomain)
    else
      FlatIndexInRange(g.sizeX, g.sizeY, xIndex, yIndex);
      Ok(g.resultArray[FlatIndex(g.sizeY, xIndex, yIndex)])
  }

  /** getResult as written: the guard rejects only indices greater than the sizes, and the
      read that follows is unchecked (ReadPastEnd stands for reading beyond the table). */
  function GetResultAsWritten(g: Cubic3DInterpolation, xIndex: nat, yIndex: nat): (r: Result<real>)
    requires WellShaped(g)
    ensures xIndex > g.sizeX || yIndex > g.sizeY ==> r == Err(AccessOutsideDomain)
    ensures r.Ok? ==> FlatIndex(g.sizeY, xIndex, yIndex) < |g.resultArray| &&
                      r.value == g.resultArray[FlatIndex(g.sizeY, xIndex, yIndex)]
  {
    if xIndex > g.sizeX || yIndex > g.sizeY then
      Err(AccessOutsideDomain)
    else if FlatIndex(g.sizeY, xIndex, yIndex) < |g.resultArray| then
      Ok(g.resultArray[FlatIndex(g.sizeY, xIndex, yIndex)])
    else
      Err(ReadPastEnd)
  }

  /** On the nodes of the grid the two guards agree. */
  lemma AsWrittenAgreesOnNodes(g: Cubic3DInterpolation, xIndex: nat, yIndex: nat)
    requires WellShaped(g) && xIndex < g.sizeX && yIndex < g.sizeY
    ensures GetResultAsWritten(g, xIndex, yIndex) == GetResult(g, xIndex, yIndex)
  {
  }

  /** xIndex == sizeX passes the written guard, and the read lands beyond the table. */
  lemma GuardAdmitsPastEnd(g: Cubic3DInterpolation, yIndex: nat)
    requires WellShaped(g) && yIndex <= g.sizeY
    ensures GetResultAsWritten(g, g.sizeX, yIndex) == Err(ReadPastEnd)
    ensures GetResult(g, g.sizeX, yIndex) == Err(AccessOutsideDomain)
  {
    assert FlatIndex(g.sizeY, g.sizeX, yIndex) >= g.sizeX * g.sizeY;
  }

  /** yIndex == sizeY passes the written guard and silently reads the first node of the next
      column, (xIndex + 1, 0). */
  lemma GuardAdmitsWrongNode(g: Cubic3DInterpolation, xIndex: nat)
    requires WellShaped(g) && xIndex + 1 < g.sizeX && 0 < g.sizeY
    ensures GetResultAsWritten(g, xIndex, g.sizeY) == GetResult(g, xIndex + 1, 0)
    ensures GetResult(g, xIndex, g.sizeY) == Err(AccessOutsideDomain)
  {
    assert FlatIndex(g.sizeY, xIndex, g.sizeY) == FlatIndex(g.sizeY, xIndex + 1, 0);
    FlatIndexInRange(g.sizeX, g.sizeY, xIndex + 1, 0);
  }

  /** A table of two rows: findZero on y then always returns cell 0, so evalQubicYzero reads row 2,
      one past the last row. The written guard lets that read through: in every x-cell but the
      last it returns node (xIndex + 1, 0), and in the last it reads one past the table. */
  lemma TwoRowTableMisreads(g: Cubic3DInterpolation, y: real, xIndex: nat)
    requires WellShaped(g) && 2 <= g.sizeX && g.sizeY == 2 && xIndex < g.sizeX
    ensures Bracket(g.yArray, y).Ok? ==> Bracket(g.yArray, y) == Ok(0)
    ensures xIndex + 1 < g.sizeX ==> GetResultAsWritten(g, xIndex, 2) == GetResult(g, xIndex + 1, 0)
    ensures xIndex + 1 == g.sizeX ==> GetResultAsWritten(g, xIndex, 2) == Err(ReadPastEnd)
  {
    if xIndex + 1 < g.sizeX {
      GuardAdmitsWrongNode(g, xIndex);
    } else {
      assert FlatIndex(g.sizeY, xIndex, 2) == g.sizeX * g.sizeY;
    }
  }

  /** The value stored at node (xIndex, yIndex). */
  function Value(g: Cubic3DInterpolation, xIndex: nat, yIndex: nat): real
    requires WellShaped(g) && xIndex < g.sizeX && yIndex < g.sizeY
  {
    GetResult(g, xIndex, yIndex).value
  }

  /** The two nodes a difference quotient at node i of an axis of n nodes uses: forward at the
      first node, backward at the last, central in between. */
  function DiffNodes(n: nat, i: nat): (p: (nat, nat))
    requires 2 <= n && i < n
    ensures p.0 < p.1 < n
    ensures p.0 <= i <= p.1 && p.1 - p.0 <= 2
    ensures p.1 - p.0 == 2 <==> 0 < i < n - 1
    ensures i == 0 ==> p == (0, 1)
    ensures i == n - 1 ==> p == (n - 2, n - 1)
    ensures 0 < i < n - 1 ==> p == (i - 1, i + 1)
  {
    if i == 0 then (0, 1)
    else if i == n - 1 then (i - 1, i)
    else (i - 1, i + 1)
  }

  /** getxDerResult: the x-derivative estimate at node (xIndex, yIndex), the slope of the secant
      through the two nodes DiffNodes picks on its row. */
  function GetXDer(g: Cubic3DInterpolation, xIndex: nat, yIndex: nat): (r: real)
    requires Valid(g) && xIndex < g.sizeX && yIndex < g.sizeY
    ensures var (p, q) := DiffNodes(g.sizeX, xIndex);
            r * (g.xArray[q] - g.xArray[p]) == Value(g, q, yIndex) - Value(g, p, yIndex)
  {
    (Value(g, DiffNodes(g.sizeX, xIndex).1, yIndex) - Value(g, DiffNodes(g.sizeX, xIndex).0, yIndex))
      / (g.xArray[DiffNodes(g.sizeX, xIndex).1] - g.xArray[DiffNodes(g.sizeX, xIndex).0])
  }

  /** getyDerResult (never called by the engine): the y-derivative estimate at a node, the slope
      of the secant through the two nodes DiffNodes picks on its column. */
  function GetYDer(g: Cubic3DInterpolation, xIndex: nat, yIndex: nat): (r: real)
    requires Valid(g) && xIndex < g.sizeX && yIndex < g.sizeY
    ensures var (p, q) := DiffNodes(g.sizeY, yIndex);
            r * (g.yArray[q] - g.yArray[p]) == Value(g, xIndex, q) - Value(g, xIndex, p)
  {
    (Value(g, xIndex, DiffNodes(g.sizeY, yIndex).1) - Value(g, xIndex, DiffNodes(g.sizeY, yIndex).0))
      / (g.yArray[DiffNodes(g.sizeY, yIndex).1] - g.yArray[DiffNodes(g.sizeY, yIndex).0])
  }

  /** Row yIndex of the table lies on the line slope * x + offset. */
  predicate RowIsLine(g: Cubic3DInterpolation, yIndex: nat, slope: real, offset: real)
    requires WellShaped(g) && yIndex < g.sizeY
  {
    forall k :: 0 <= k < g.sizeX ==> Value(g, k, yIndex) == slope * g.xArray[k] + offset
  }

  /** Column xIndex of the table lies on the line slope * y + offset. */
  predicate ColumnIsLine(g: Cubic3DInterpolation, xIndex: nat, slope: real, offset: real)
    requires WellShaped(g) && xIndex < g.sizeX
  {
    forall k :: 0 <= k < g.sizeY ==> Value(g, xIndex, k) == slope * g.yArray[k] + offset
  }

  /** Each of the three difference quotients reproduces the slope of data lying on a line. */
  lemma XDerExactOnLines(g: Cubic3DInterpolation, xIndex: nat, yIndex: nat, slope: real, offset: real)
    requires Valid(g) && xIndex < g.sizeX && yIndex < g.sizeY
    requires RowIsLine(g, yIndex, slope, offset)
    ensures GetXDer(g, xIndex, yIndex) == slope
  {
    var p := DiffNodes(g.sizeX, xIndex);
    SecantOfLine(slope, offset, g.xArray[p.0], g.xArray[p.1], Value(g, p.0, yIndex), Value(g, p.1, yIndex));
  }

  lemma YDerExactOnLines(g: Cubic3DInterpolation, xIndex: nat, yIndex: nat, slope: real, offset: real)
    requires Valid(g) && xIndex < g.sizeX && yIndex < g.sizeY
    requires ColumnIsLine(g, xIndex, slope, offset)
    ensures GetYDer(g, xIndex, yIndex) == slope
  {
    var p := DiffNodes(g.sizeY, yIndex);
    SecantOfLine(slope, offset, g.yArray[p.0], g.yArray[p.1], Value(g, xIndex, p.0), Value(g, xIndex, p.1));
  }
}
