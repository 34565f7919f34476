/** findZero: the cell of a grid axis that brackets a target value. */
module CellSearch {
  import opened Results

  predicate StrictlyIncreasing(a: seq<real>)
  {
    forall i, k :: 0 <= i < k < |a| ==> a[i] < a[k]
  }

  /** The index at which findZero's downward scan, started at index k, stops: the first index at or
      below k whose value does not exceed the target, or 0 when none does. */
  function ScanDown(a: seq<real>, target: real, k: nat): (r: nat)
    requires k < |a|
    ensures r <= k
    ensures a[0] <= target ==> a[r] <= target
    ensures forall m :: r < m <= k ==> target < a[m]
    decreases k
  {
    if target >= a[k] then k
    else if k == 0 then 0
    else ScanDown(a, target, k - 1)
  }

  /** What findZero returns: an error when the target is outside [a[0], a[|a|-1]], otherwise the
      greatest k <= |a|-2 with a[k] <= target. */
  function Bracket(a: seq<real>, target: real): (r: Result<nat>)
    requires |a| >= 2
    ensures r.Ok? <==> a[0] <= target <= a[|a| - 1]
    ensures r.Err? ==> r.error == OutsideDomain
    ensures r.Ok? ==> r.value <= |a| - 2 && a[r.value] <= target <= a[r.value + 1]
    ensures r.Ok? ==> forall m :: r.value < m <= |a| - 2 ==> target < a[m]
    ensures r.Ok? ==> target < a[r.value + 1] || (r.value == |a| - 2 && target == a[|a| - 1])
  {
    if target > a[|a| - 1] || target < a[0] then Err(OutsideDomain)
    else Ok(ScanDown(a, target, |a| - 2))
  }

  /** On a strictly increasing axis the bracket is the one cell with a[k] <= target < a[k+1]. */
  lemma BracketUnique(a: seq<real>, target: real, k: nat)
    requires |a| >= 2 && StrictlyIncreasing(a)
    requires k + 1 < |a| && a[k] <= target < a[k + 1]
    ensures Bracket(a, target) == Ok(k)
  {
    var r := Bracket(a, target);
    assert a[0] <= a[k];
    assert a[k + 1] <= a[|a| - 1];
    assert r.Ok?;
  }

  /** At a node the bracket is that node's own cell, except at the last node, which resolves to the
      last cell. */
  lemma BracketAtNode(a: seq<real>, i: nat)
    requires |a| >= 2 && StrictlyIncreasing(a) && i < |a|
    ensures Bracket(a, a[i]) == Ok(if i == |a| - 1 then |a| - 2 else i)
  {
    if i == |a| - 1 {
      assert a[0] <= a[i];
      var r := Bracket(a, a[i]);
      assert r.Ok?;
    } else {
      BracketUnique(a, a[i], i);
    }
  }

  /** findZero: rejects a target outside the axis, then scans down from the last cell. */
  method FindZero(target: real, a: seq<real>) returns (r: Result<nat>)
    requires |a| >= 2
    ensures r == Bracket(a, target)
  {
    if target > a[|a| - 1] || target < a[0] {
      return Err(OutsideDomain);
    }
    // The fall-back the source returns after the loop; never reached, since a[0] <= target stops
    // the scan at index 0 at the latest.
    r := Ok(0);
    var currentIndex: int := |a| - 2;
    while currentIndex + 1 != 0
      invariant -1 <= currentIndex <= |a| - 2
      invariant forall m :: currentIndex < m <= |a| - 2 ==> target < a[m]
      decreases currentIndex + 1
    {
      if target >= a[currentIndex] {
        return Ok(currentIndex);
      }
      currentIndex := currentIndex - 1;
    }
  }
}
