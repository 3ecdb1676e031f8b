/** Dense real vectors and matrices, and the boolean-mask indexing that the
    sparse eigensolver relies on: `v[mask]` (Select), `out[mask] = values`
    on a zero buffer (Embed, implemented in place by Scatter) and
    `M[np.ix_(mask, mask)]` (SubMatrix).

    Every sum runs from the last coordinate, so the inductive lemmas below
    peel one coordinate off the end at a time. */
module Linalg {

  type Vector = seq<real>
  type Matrix = seq<Vector>

  predicate IsMatrix(A: Matrix, rows: nat, cols: nat) {
    |A| == rows && forall i :: 0 <= i < rows ==> |A[i]| == cols
  }

  predicate IsSquare(A: Matrix, n: nat) {
    IsMatrix(A, n, n)
  }

  predicate Symmetric(A: Matrix)
    requires IsSquare(A, |A|)
  {
    forall i, j :: 0 <= i < |A| && 0 <= j < |A| ==> A[i][j] == A[j][i]
  }

  /** np.abs, np.sign (sign of zero is zero) and np.maximum(t, 0) on scalars. */
  function Abs(t: real): real { if t < 0.0 then -t else t }
  function Sign(t: real): real { if 0.0 < t then 1.0 else if t < 0.0 then -1.0 else 0.0 }
  function Pos(t: real): real { if 0.0 < t then t else 0.0 }

  /** np.zeros(n) */
  function Zeros(n: nat): (z: Vector)
    ensures |z| == n
  {
    seq(n, _ => 0.0)
  }

  function Sum(v: Vector): real
    decreases |v|
  {
    if |v| == 0 then 0.0 else Sum(v[..|v| - 1]) + v[|v| - 1]
  }

  /** u * v, coordinate by coordinate */
  function Mul(u: Vector, v: Vector): (r: Vector)
    requires |u| == |v|
    ensures |r| == |u|
  {
    seq(|u|, i requires 0 <= i < |u| => u[i] * v[i])
  }

  /** np.dot(u, v) */
  function Dot(u: Vector, v: Vector): real
    requires |u| == |v|
  {
    Sum(Mul(u, v))
  }

  /** Peeling the last coordinate off a dot product. */
  lemma {:induction false} DotLast(u: Vector, v: Vector)
    requires |u| == |v| > 0
    ensures Dot(u, v) == Dot(u[..|u| - 1], v[..|v| - 1]) + u[|u| - 1] * v[|v| - 1]
  {
    var n := |u|;
    var p, p' := Mul(u, v), Mul(u[..n - 1], v[..n - 1]);
    forall i | 0 <= i < n - 1
      ensures p[i] == p'[i]
    {
    }
    assert p[..n - 1] == p';
  }

  /** u - c * v */
  function SubScaled(u: Vector, c: real, v: Vector): (r: Vector)
    requires |u| == |v|
    ensures |r| == |u|
  {
    seq(|u|, i requires 0 <= i < |u| => u[i] - c * v[i])
  }

  function Diff(u: Vector, v: Vector): (r: Vector)
    requires |u| == |v|
    ensures |r| == |u|
  {
    seq(|u|, i requires 0 <= i < |u| => u[i] - v[i])
  }

  function Column(A: Matrix, j: nat): (c: Vector)
    requires forall i :: 0 <= i < |A| ==> j < |A[i]|
    ensures |c| == |A|
  {
    seq(|A|, i requires 0 <= i < |A| => A[i][j])
  }

  /** A.dot(x) */
  function MatVec(A: Matrix, x: Vector): (r: Vector)
    requires forall i :: 0 <= i < |A| ==> |A[i]| == |x|
    ensures |r| == |A|
  {
    seq(|A|, i requires 0 <= i < |A| => Dot(A[i], x))
  }

  /** np.dot(x, A) for an |x| by n matrix A */
  function VecMat(x: Vector, A: Matrix, n: nat): (r: Vector)
    requires IsMatrix(A, |x|, n)
    ensures |r| == n
  {
    seq(n, j requires 0 <= j < n => Dot(x, Column(A, j)))
  }

  lemma {:induction false} DivMul(a: real, b: real, q: real)
    requires q != 0.0
    ensures a * b / q == (a / q) * b
  {
    assert a == (a / q) * q;
    calc {
      a * b / q;
      ((a / q) * q) * b / q;
      ((a / q) * b) * q / q;
      (a / q) * b;
    }
  }

  lemma {:induction false} DotZeroRight(u: Vector)
    ensures Dot(u, Zeros(|u|)) == 0.0
    decreases |u|
  {
    if |u| > 0 {
      DotLast(u, Zeros(|u|));
      assert Zeros(|u|)[..|u| - 1] == Zeros(|u| - 1);
      DotZeroRight(u[..|u| - 1]);
    }
  }

  lemma {:induction false} DotComm(u: Vector, v: Vector)
    requires |u| == |v|
    ensures Dot(u, v) == Dot(v, u)
    decreases |u|
  {
    if |u| > 0 {
      DotLast(u, v);
      DotLast(v, u);
      DotComm(u[..|u| - 1], v[..|v| - 1]);
    }
  }

  /** The scalar step of DotSubScaled. */
  lemma {:induction false} SubScaledStep(du: real, dv: real, ul: real, vl: real, wl: real, c: real)
    ensures du - c * dv + (ul - c * vl) * wl == (du + ul * wl) - c * (dv + vl * wl)
  {
  }

  /** Dot is linear in its first argument. */
  lemma {:induction false} DotSubScaled(u: Vector, c: real, v: Vector, w: Vector)
    requires |u| == |v| == |w|
    ensures Dot(SubScaled(u, c, v), w) == Dot(u, w) - c * Dot(v, w)
    decreases |u|
  {
    var n := |u|;
    if n > 0 {
      var s, s' := SubScaled(u, c, v), SubScaled(u[..n - 1], c, v[..n - 1]);
      var front := s[..n - 1];
      forall k | 0 <= k < n - 1
        ensures front[k] == s'[k]
      {
      }
      assert front == s';
      DotSubScaled(u[..n - 1], c, v[..n - 1], w[..n - 1]);
      DotLast(s, w);
      DotLast(u, w);
      DotLast(v, w);
      assert s[n - 1] == u[n - 1] - c * v[n - 1];
      SubScaledStep(Dot(u[..n - 1], w[..n - 1]), Dot(v[..n - 1], w[..n - 1]),
        u[n - 1], v[n - 1], w[n - 1], c);
    }
  }

  /** Adding the last row of A to the product x A. */
  lemma {:induction false} VecMatLastRow(x: Vector, A: Matrix, n: nat)
    requires IsMatrix(A, |x|, n) && |x| > 0
    ensures VecMat(x, A, n)
      == SubScaled(VecMat(x[..|x| - 1], A[..|x| - 1], n), -x[|x| - 1], A[|x| - 1])
  {
    var m := |x|;
    var x', A' := x[..m - 1], A[..m - 1];
    forall j | 0 <= j < n
      ensures VecMat(x, A, n)[j] == SubScaled(VecMat(x', A', n), -x[m - 1], A[m - 1])[j]
    {
      DotLast(x, Column(A, j));
      assert Column(A, j)[..m - 1] == Column(A', j);
    }
  }

  /** The two ways of evaluating a bilinear form agree: (x A) . y == x . (A y). */
  lemma {:induction false} VecMatMatVec(x: Vector, A: Matrix, n: nat, y: Vector)
    requires IsMatrix(A, |x|, n) && |y| == n
    ensures Dot(VecMat(x, A, n), y) == Dot(x, MatVec(A, y))
    decreases |x|
  {
    var m := |x|;
    if m == 0 {
      assert VecMat(x, A, n) == Zeros(n);
      DotComm(VecMat(x, A, n), y);
      DotZeroRight(y);
    } else {
      var x', A' := x[..m - 1], A[..m - 1];
      VecMatLastRow(x, A, n);
      DotSubScaled(VecMat(x', A', n), -x[m - 1], A[m - 1], y);
      VecMatMatVec(x', A', n, y);
      DotLast(x, MatVec(A, y));
      assert MatVec(A, y)[..m - 1] == MatVec(A', y);
    }
  }

  /** In a symmetric matrix, x A == A x. */
  lemma {:induction false} SymmetricVecMat(A: Matrix, x: Vector)
    requires IsSquare(A, |x|) && Symmetric(A)
    ensures VecMat(x, A, |x|) == MatVec(A, x)
  {
    forall j | 0 <= j < |x|
      ensures VecMat(x, A, |x|)[j] == MatVec(A, x)[j]
    {
      assert Column(A, j) == A[j];
      DotComm(x, A[j]);
    }
  }

  // ---------------------------------------------------------------------
  // Boolean masks

  /** np.count_nonzero(m) */
  function Count(m: seq<bool>): (k: nat)
    ensures k <= |m|
    decreases |m|
  {
    if |m| == 0 then 0 else Count(m[..|m| - 1]) + (if m[|m| - 1] then 1 else 0)
  }

  /** s[m]: the entries of s where m is true, in increasing index order. */
  function Select<T>(s: seq<T>, m: seq<bool>): (r: seq<T>)
    requires |s| == |m|
    ensures |r| == Count(m)
    decreases |s|
  {
    if |s| == 0 then []
    else Select(s[..|s| - 1], m[..|m| - 1]) + (if m[|m| - 1] then [s[|s| - 1]] else [])
  }

  /** The vector `out = np.zeros(len(m)); out[m] = v`. */
  function Embed(m: seq<bool>, v: Vector): (r: Vector)
    requires |v| == Count(m)
    ensures |r| == |m|
    decreases |m|
  {
    if |m| == 0 then []
    else if m[|m| - 1] then Embed(m[..|m| - 1], v[..|v| - 1]) + [v[|v| - 1]]
    else Embed(m[..|m| - 1], v) + [0.0]
  }

  /** A[np.ix_(m, m)] */
  function SubMatrix(A: Matrix, m: seq<bool>): (S: Matrix)
    requires IsSquare(A, |m|)
    ensures IsSquare(S, Count(m))
  {
    var rows := seq(|A|, i requires 0 <= i < |A| => Select(A[i], m));
    SelectFrom(rows, m);
    var S := Select(rows, m);
    assert forall i :: 0 <= i < |S| ==> S[i] in rows;
    S
  }

  /** Every entry of s[m] is an entry of s. */
  lemma {:induction false} SelectFrom<T>(s: seq<T>, m: seq<bool>)
    requires |s| == |m|
    ensures forall e :: e in Select(s, m) ==> e in s
    decreases |s|
  {
    var n := |s|;
    if n > 0 {
      SelectFrom(s[..n - 1], m[..n - 1]);
      assert forall e :: e in s[..n - 1] ==> e in s;
    }
  }

  lemma {:induction false} CountPrefix(m: seq<bool>, i: nat)
    requires i <= |m|
    ensures Count(m[..i]) <= Count(m)
    decreases |m|
  {
    if i < |m| {
      assert m[..|m| - 1][..i] == m[..i];
      CountPrefix(m[..|m| - 1], i);
    } else {
      assert m[..i] == m;
    }
  }

  /** Position i of s lands at position Count(m[..i]) of s[m]. */
  lemma {:induction false} SelectAt<T>(s: seq<T>, m: seq<bool>, i: nat)
    requires |s| == |m| && i < |m| && m[i]
    ensures Count(m[..i]) < Count(m)
    ensures Select(s, m)[Count(m[..i])] == s[i]
    decreases |s|
  {
    var n := |s|;
    var s', m' := s[..n - 1], m[..n - 1];
    if i == n - 1 {
      assert m[..i] == m';
    } else {
      assert m'[..i] == m[..i];
      SelectAt(s', m', i);
    }
  }

  lemma {:induction false} EmbedAt(m: seq<bool>, v: Vector, i: nat)
    requires |v| == Count(m) && i < |m|
    ensures m[i] ==> Count(m[..i]) < |v| && Embed(m, v)[i] == v[Count(m[..i])]
    ensures !m[i] ==> Embed(m, v)[i] == 0.0
    decreases |m|
  {
    var n := |m|;
    var m' := m[..n - 1];
    var v' := if m[n - 1] then v[..|v| - 1] else v;
    assert Embed(m, v) == Embed(m', v') + [if m[n - 1] then v[|v| - 1] else 0.0];
    if i == n - 1 {
      assert m[..i] == m';
    } else {
      assert m'[..i] == m[..i];
      EmbedAt(m', v', i);
    }
  }

  /** Selecting the mask back out of an embedded vector gives the vector. */
  lemma {:induction false} SelectEmbed(m: seq<bool>, v: Vector)
    requires |v| == Count(m)
    ensures Select(Embed(m, v), m) == v
    decreases |m|
  {
    var n := |m|;
    if n > 0 {
      var m' := m[..n - 1];
      var e := Embed(m, v);
      if m[n - 1] {
        assert e[..n - 1] == Embed(m', v[..|v| - 1]);
        SelectEmbed(m', v[..|v| - 1]);
      } else {
        assert e[..n - 1] == Embed(m', v);
        SelectEmbed(m', v);
      }
    }
  }

  /** An embedded vector is zero off the mask. */
  lemma {:induction false} EmbedOffMask(m: seq<bool>, v: Vector)
    requires |v| == Count(m)
    ensures forall i :: 0 <= i < |m| && !m[i] ==> Embed(m, v)[i] == 0.0
  {
    forall i | 0 <= i < |m| && !m[i]
      ensures Embed(m, v)[i] == 0.0
    {
      EmbedAt(m, v, i);
    }
  }

  lemma {:induction false} DotEmbedLast(u: Vector, m: seq<bool>, v: Vector)
    requires |u| == |m| > 0 && |v| == Count(m) && m[|m| - 1]
    ensures Dot(u, Embed(m, v))
      == Dot(u[..|u| - 1], Embed(m[..|m| - 1], v[..|v| - 1])) + u[|u| - 1] * v[|v| - 1]
  {
    EmbedLast(m, v);
    DotSnocRight(u, Embed(m[..|m| - 1], v[..|v| - 1]), v[|v| - 1]);
  }

  /** Appending x to the first vector adds x times the last of the second. */
  lemma {:induction false} DotSnoc(a: Vector, x: real, b: Vector)
    requires |a| + 1 == |b|
    ensures Dot(a + [x], b) == Dot(a, b[..|b| - 1]) + x * b[|b| - 1]
  {
    DotLast(a + [x], b);
    assert (a + [x])[..|a|] == a;
  }

  /** The mirror image of DotSnoc. */
  lemma {:induction false} DotSnocRight(a: Vector, b: Vector, y: real)
    requires |a| == |b| + 1
    ensures Dot(a, b + [y]) == Dot(a[..|a| - 1], b) + a[|a| - 1] * y
  {
    DotLast(a, b + [y]);
    assert (b + [y])[..|b|] == b;
  }

  lemma {:induction false} EmbedLast(m: seq<bool>, v: Vector)
    requires |m| > 0 && |v| == Count(m)
    ensures m[|m| - 1] ==> Embed(m, v) == Embed(m[..|m| - 1], v[..|v| - 1]) + [v[|v| - 1]]
    ensures !m[|m| - 1] ==> Embed(m, v) == Embed(m[..|m| - 1], v) + [0.0]
  {
  }

  lemma {:induction false} SelectLast<T>(s: seq<T>, m: seq<bool>)
    requires |s| == |m| > 0 && m[|m| - 1]
    ensures Select(s, m) == Select(s[..|s| - 1], m[..|m| - 1]) + [s[|s| - 1]]
  {
  }

  lemma {:induction false} DotSelectLast(u: Vector, m: seq<bool>, v: Vector)
    requires |u| == |m| > 0 && |v| == Count(m) && m[|m| - 1]
    ensures Dot(Select(u, m), v)
      == Dot(Select(u[..|u| - 1], m[..|m| - 1]), v[..|v| - 1]) + u[|u| - 1] * v[|v| - 1]
  {
    SelectLast(u, m);
    DotSnoc(Select(u[..|u| - 1], m[..|m| - 1]), u[|u| - 1], v);
  }

  /** The step of DotEmbed when the last coordinate is selected. */
  lemma {:induction false} DotEmbedOn(u: Vector, m: seq<bool>, v: Vector)
    requires |u| == |m| > 0 && |v| == Count(m) && m[|m| - 1]
    requires Dot(u[..|u| - 1], Embed(m[..|m| - 1], v[..|v| - 1]))
      == Dot(Select(u[..|u| - 1], m[..|m| - 1]), v[..|v| - 1])
    ensures Dot(u, Embed(m, v)) == Dot(Select(u, m), v)
  {
    DotEmbedLast(u, m, v);
    DotSelectLast(u, m, v);
  }

  /** The step of DotEmbed when the last coordinate is not selected. */
  lemma {:induction false} DotEmbedOff(u: Vector, m: seq<bool>, v: Vector)
    requires |u| == |m| > 0 && |v| == Count(m) && !m[|m| - 1]
    requires Dot(u[..|u| - 1], Embed(m[..|m| - 1], v)) == Dot(Select(u[..|u| - 1], m[..|m| - 1]), v)
    ensures Dot(u, Embed(m, v)) == Dot(Select(u, m), v)
  {
    EmbedLast(m, v);
    DotSnocRight(u, Embed(m[..|m| - 1], v), 0.0);
    assert Select(u, m) == Select(u[..|u| - 1], m[..|m| - 1]);
  }

  /** u . Embed(m, v) == u[m] . v */
  lemma {:induction false} DotEmbed(u: Vector, m: seq<bool>, v: Vector)
    requires |u| == |m| && |v| == Count(m)
    ensures Dot(u, Embed(m, v)) == Dot(Select(u, m), v)
    decreases |m|
  {
    var n := |m|;
    if n > 0 {
      if m[n - 1] {
        DotEmbed(u[..n - 1], m[..n - 1], v[..|v| - 1]);
        DotEmbedOn(u, m, v);
      } else {
        DotEmbed(u[..n - 1], m[..n - 1], v);
        DotEmbedOff(u, m, v);
      }
    }
  }

  lemma {:induction false} CountNone(m: seq<bool>)
    requires forall i :: 0 <= i < |m| ==> !m[i]
    ensures Count(m) == 0
    decreases |m|
  {
    if |m| > 0 {
      CountNone(m[..|m| - 1]);
    }
  }

  lemma {:induction false} SelectAll<T>(s: seq<T>, m: seq<bool>)
    requires |s| == |m| && forall i :: 0 <= i < |m| ==> m[i]
    ensures Count(m) == |m| && Select(s, m) == s
    decreases |m|
  {
    var n := |m|;
    if n > 0 {
      SelectAll(s[..n - 1], m[..n - 1]);
      assert s[..n - 1] + [s[n - 1]] == s;
    }
  }

  lemma {:induction false} EmbedAll(m: seq<bool>, v: Vector)
    requires |v| == Count(m) && forall i :: 0 <= i < |m| ==> m[i]
    ensures Embed(m, v) == v
    decreases |m|
  {
    var n := |m|;
    if n > 0 {
      SelectAll(m, m);
      EmbedAll(m[..n - 1], v[..|v| - 1]);
      assert v[..|v| - 1] + [v[|v| - 1]] == v;
    }
  }

  /** With every entry selected, A[np.ix_(m, m)] is A itself. */
  lemma {:induction false} SubMatrixAll(A: Matrix, m: seq<bool>)
    requires IsSquare(A, |m|) && forall i :: 0 <= i < |m| ==> m[i]
    ensures SubMatrix(A, m) == A
  {
    var rows := seq(|A|, i requires 0 <= i < |A| => Select(A[i], m));
    forall i | 0 <= i < |A|
      ensures rows[i] == A[i]
    {
      SelectAll(A[i], m);
    }
    assert rows == A;
    SelectAll(rows, m);
  }

  /** Row i of A restricted to the mask is row Count(m[..i]) of the submatrix. */
  lemma {:induction false} SubMatrixRow(A: Matrix, m: seq<bool>, i: nat)
    requires IsSquare(A, |m|) && i < |m| && m[i]
    ensures Count(m[..i]) < Count(m)
    ensures SubMatrix(A, m)[Count(m[..i])] == Select(A[i], m)
  {
    var rows := seq(|A|, i requires 0 <= i < |A| => Select(A[i], m));
    SelectAt(rows, m, i);
  }

  /** `out = np.zeros(len(m)); out[m] = v`, written into a fresh buffer. */
  method Scatter(m: seq<bool>, v: Vector) returns (out: Vector)
    requires |v| == Count(m)
    ensures out == Embed(m, v)
  {
    var a := new real[|m|](_ => 0.0);
    var j := 0;
    for i := 0 to |m|
      invariant j == Count(m[..i]) <= |v|
      invariant a[..i] == Embed(m[..i], v[..j])
      invariant forall k :: i <= k < |m| ==> a[k] == 0.0
    {
      assert m[..i + 1][..i] == m[..i];
      CountPrefix(m, i + 1);
      if m[i] {
        assert v[..j + 1][..j] == v[..j];
        a[i] := v[j];
        j := j + 1;
      }
      assert a[..i + 1] == a[..i] + [a[i]];
    }
    assert m[..|m|] == m && v[..j] == v;
    out := a[..];
  }
}
