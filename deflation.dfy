/** Schur complement deflation (Mackey, "Deflation Methods for Sparse PCA",
    NIPS 2008), as `scdeflate` computes it:

        A_new = A - outer(A x, x A) / (x A x)

    Over the reals the identities the method rests on hold exactly: x becomes
    a null vector of A_new on both sides, vectors A-conjugate to x are acted on
    as before, and symmetry is kept. */
module Deflation {
  import opened Linalg

  /** np.dot(np.dot(x, A), x), the denominator of the deflation. */
  function QuadForm(A: Matrix, x: Vector): real
    requires IsSquare(A, |x|)
  {
    Dot(VecMat(x, A, |x|), x)
  }

  /** scdeflate(A, x). The source divides by x A x without checking it;
      a zero denominator is the caller's responsibility. */
  function Scdeflate(A: Matrix, x: Vector): (D: Matrix)
    requires IsSquare(A, |x|)
    requires QuadForm(A, x) != 0.0
    ensures IsSquare(D, |x|)
  {
    RankOneUpdate(A, MatVec(A, x), VecMat(x, A, |x|), QuadForm(A, x))
  }

  /** A - np.outer(u, v) / q, row by row: row i is A[i] - (u[i] / q) v. */
  function RankOneUpdate(A: Matrix, u: Vector, v: Vector, q: real): (D: Matrix)
    requires IsSquare(A, |u|) && |v| == |u| && q != 0.0
    ensures IsSquare(D, |u|)
  {
    seq(|u|, i requires 0 <= i < |u| => SubScaled(A[i], u[i] / q, v))
  }

  /** Entry (i, j) of the update is A[i][j] - u[i] v[j] / q. */
  lemma {:induction false} RankOneEntry(A: Matrix, u: Vector, v: Vector, q: real, i: nat, j: nat)
    requires IsSquare(A, |u|) && |v| == |u| && q != 0.0 && i < |u| && j < |u|
    ensures RankOneUpdate(A, u, v, q)[i][j] == A[i][j] - u[i] * v[j] / q
  {
    DivMul(u[i], v[j], q);
  }

  /** How a rank-one update acts on a vector y, at coordinate i:
      (A y)[i] - u[i] (v . y) / q. */
  lemma {:induction false} RankOneApply(A: Matrix, u: Vector, v: Vector, q: real, y: Vector, i: nat)
    requires IsSquare(A, |u|) && |v| == |u| && q != 0.0 && |y| == |u| && i < |u|
    ensures MatVec(RankOneUpdate(A, u, v, q), y)[i] == MatVec(A, y)[i] - u[i] / q * Dot(v, y)
  {
    var c := u[i] / q;
    assert RankOneUpdate(A, u, v, q)[i] == SubScaled(A[i], c, v);
    DotSubScaled(A[i], c, v, y);
  }

  /** How a rank-one update acts on the left of a vector y, at coordinate j:
      (y A)[j] - v[j] (y . u) / q. */
  lemma {:induction false} RankOneApplyLeft(A: Matrix, u: Vector, v: Vector, q: real, y: Vector, j: nat)
    requires IsSquare(A, |u|) && |v| == |u| && q != 0.0 && |y| == |u| && j < |u|
    ensures VecMat(y, RankOneUpdate(A, u, v, q), |u|)[j]
      == VecMat(y, A, |u|)[j] - v[j] / q * Dot(y, u)
  {
    var D := RankOneUpdate(A, u, v, q);
    var col, col' := Column(D, j), SubScaled(Column(A, j), v[j] / q, u);
    forall i | 0 <= i < |u|
      ensures col[i] == col'[i]
    {
      DivMul(u[i], v[j], q);
      DivMul(v[j], u[i], q);
    }
    assert col == col';
    DotComm(y, col');
    DotSubScaled(Column(A, j), v[j] / q, u, y);
    DotComm(Column(A, j), y);
    DotComm(u, y);
  }

  /** How the deflated matrix acts on any vector y:
      A_new y = A y - (A x) (x A y) / (x A x). */
  lemma {:induction false} DeflateApply(A: Matrix, x: Vector, y: Vector, i: nat)
    requires IsSquare(A, |x|) && QuadForm(A, x) != 0.0 && |y| == |x| && i < |x|
    ensures MatVec(Scdeflate(A, x), y)[i]
      == MatVec(A, y)[i] - MatVec(A, x)[i] / QuadForm(A, x) * Dot(VecMat(x, A, |x|), y)
  {
    RankOneApply(A, MatVec(A, x), VecMat(x, A, |x|), QuadForm(A, x), y, i);
  }

  /** x is a right and a left null vector of the deflated matrix. */
  lemma {:induction false} DeflateNullVector(A: Matrix, x: Vector)
    requires IsSquare(A, |x|) && QuadForm(A, x) != 0.0
    ensures MatVec(Scdeflate(A, x), x) == Zeros(|x|)
    ensures VecMat(x, Scdeflate(A, x), |x|) == Zeros(|x|)
  {
    var ax, xa, q := MatVec(A, x), VecMat(x, A, |x|), QuadForm(A, x);
    forall i | 0 <= i < |x|
      ensures MatVec(Scdeflate(A, x), x)[i] == 0.0
    {
      RankOneApply(A, ax, xa, q, x, i);
      assert ax[i] / q * q == ax[i];
    }
    VecMatMatVec(x, A, |x|, x);
    forall j | 0 <= j < |x|
      ensures VecMat(x, Scdeflate(A, x), |x|)[j] == 0.0
    {
      RankOneApplyLeft(A, ax, xa, q, x, j);
      assert xa[j] / q * q == xa[j];
    }
  }

  /** The quadratic form of the deflated matrix vanishes at x, evaluated
      either way round. */
  lemma {:induction false} DeflateQuadFormZero(A: Matrix, x: Vector)
    requires IsSquare(A, |x|) && QuadForm(A, x) != 0.0
    ensures QuadForm(Scdeflate(A, x), x) == 0.0
    ensures Dot(x, MatVec(Scdeflate(A, x), x)) == 0.0
  {
    DeflateNullVector(A, x);
    DotComm(Zeros(|x|), x);
    DotZeroRight(x);
  }

  /** Vectors y with x A y == 0 are mapped exactly as A maps them. */
  lemma {:induction false} DeflateKeepsConjugate(A: Matrix, x: Vector, y: Vector)
    requires IsSquare(A, |x|) && QuadForm(A, x) != 0.0 && |y| == |x|
    requires Dot(VecMat(x, A, |x|), y) == 0.0
    ensures MatVec(Scdeflate(A, x), y) == MatVec(A, y)
  {
    forall i | 0 <= i < |x|
      ensures MatVec(Scdeflate(A, x), y)[i] == MatVec(A, y)[i]
    {
      DeflateApply(A, x, y, i);
    }
  }

  /** Deflating a symmetric matrix gives a symmetric matrix. */
  lemma {:induction false} DeflateSymmetric(A: Matrix, x: Vector)
    requires IsSquare(A, |x|) && QuadForm(A, x) != 0.0 && Symmetric(A)
    ensures Symmetric(Scdeflate(A, x))
  {
    SymmetricVecMat(A, x);
    var D, ax, q := Scdeflate(A, x), MatVec(A, x), QuadForm(A, x);
    forall i, j | 0 <= i < |x| && 0 <= j < |x|
      ensures D[i][j] == D[j][i]
    {
      RankOneEntry(A, ax, ax, q, i, j);
      RankOneEntry(A, ax, ax, q, j, i);
      assert ax[i] * ax[j] == ax[j] * ax[i];
    }
  }
}
