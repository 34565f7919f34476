/** The linear-system object cubicInterpolateByVal hands its 4x4 system to. Only the part the
    engine uses is modelled: a square coefficient matrix A, a right-hand side B, and a solve that
    overwrites B with the solution. */
module Solver {
  import opened Hermite

  class Matrix {
    const n: nat
    const A: array2<real>
    const B: array<real>

    /** Matrix solver(n): an n x n matrix and a vector of n entries. */
    constructor(n: nat)
      ensures this.n == n
      ensures A.Length0 == n && A.Length1 == n && B.Length == n
      ensures fresh(A) && fresh(B)
    {
      this.n := n;
      A := new real[n, n];
      B := new real[n];
    }

    /** The current coefficients of a 4x4 system, row by row. */
    function Rows(): (m: seq<seq<real>>)
      requires A.Length0 == 4 && A.Length1 == 4
      reads this, A
      ensures |m| == 4 && forall r :: 0 <= r < 4 ==> |m[r]| == 4
      ensures forall r, c :: 0 <= r < 4 && 0 <= c < 4 ==> m[r][c] == A[r, c]
    {
      [[A[0, 0], A[0, 1], A[0, 2], A[0, 3]],
       [A[1, 0], A[1, 1], A[1, 2], A[1, 3]],
       [A[2, 0], A[2, 1], A[2, 2], A[2, 3]],
       [A[3, 0], A[3, 1], A[3, 2], A[3, 3]]]
    }

    /** autoSolve, for the systems cubicInterpolateByVal assembles: afterwards B solves
        A * B == old(B). The elimination itself is not modelled; B receives the unique
        solution in closed form. */
    method AutoSolve()
      requires A.Length0 == 4 && A.Length1 == 4 && B.Length == 4
      requires A[0, 2] != A[1, 2] && Rows() == HermiteMatrix(A[0, 2], A[1, 2])
      modifies B
      ensures Solves(Rows(), B[..], old(B[..]))
    {
      var b := HermiteSolve(A[0, 2], A[1, 2], B[..]);
      B[0], B[1], B[2], B[3] := b[0], b[1], b[2], b[3];
      assert B[..] == b;
    }
  }
}
