/** One majorization-minimization step of speigh when tau == 0 (Algorithm 1
    of Sriperumbudur, Torres and Lanckriet, lines 9 and 20): the closed-form
    update for a diagonal B (Path 1) and the general-B step (Path 2).

    All vector operations are numpy's elementwise ones, written here as
    sequence comprehensions. The square root is an oracle: any function that
    returns the non-negative root of a non-negative argument. */
module Update {
  import opened Linalg
  import opened Solvers

  ghost predicate SqrtSound(sqrt: real -> real) {
    forall t :: 0.0 <= t ==> 0.0 <= sqrt(t) && sqrt(t) * sqrt(t) == t
  }

  /** w = 1.0 / (np.abs(x) + eps) */
  function Weights(x: Vector, eps: real): (w: Vector)
    requires 0.0 < eps
    ensures |w| == |x|
    ensures forall i :: 0 <= i < |w| ==> 0.0 < w[i]
  {
    seq(|x|, i requires 0 <= i < |x| => 1.0 / (Abs(x[i]) + eps))
  }

  /** gamma = absAx - (rho_e / 2) * w */
  function Gamma(ax: Vector, w: Vector, rhoE: real): (g: Vector)
    requires |w| == |ax|
    ensures |g| == |ax|
  {
    seq(|ax|, i requires 0 <= i < |ax| => Abs(ax[i]) - rhoE / 2.0 * w[i])
  }

  /** np.abs(v) */
  function AbsVec(v: Vector): (r: Vector)
    ensures |r| == |v|
  {
    seq(|v|, i requires 0 <= i < |v| => Abs(v[i]))
  }

  /** w**(-1) */
  function Inverse(w: Vector): (r: Vector)
    requires forall i :: 0 <= i < |w| ==> w[i] != 0.0
    ensures |r| == |w|
  {
    seq(|w|, i requires 0 <= i < |w| => 1.0 / w[i])
  }

  predicate AnyPositive(g: Vector) {
    exists i :: 0 <= i < |g| && 0.0 < g[i]
  }

  predicate HasZero(b: Vector) {
    exists j :: 0 <= j < |b| && b[j] == 0.0
  }

  /** The guard of lines 133 and 154 as written: rho_e < 2 * (|Ax| . w**(-1)),
      a single dot product, so the np.max around it has nothing to choose
      from. */
  predicate GuardAsWritten(ax: Vector, w: Vector, rhoE: real)
    requires |w| == |ax| && forall i :: 0 <= i < |w| ==> 0.0 < w[i]
  {
    rhoE < 2.0 * Dot(AbsVec(ax), Inverse(w))
  }

  /** The guard as written passes for every negative rho_e, and on an empty
      iterate exactly for the negative ones. */
  lemma {:induction false} GuardAsWrittenNegative(ax: Vector, w: Vector, rhoE: real)
    requires |w| == |ax| && forall i :: 0 <= i < |w| ==> 0.0 < w[i]
    ensures rhoE < 0.0 ==> GuardAsWritten(ax, w, rhoE)
    ensures |ax| == 0 ==> (GuardAsWritten(ax, w, rhoE) <==> rhoE < 0.0)
  {
    WeightedAbs(ax, w);
    SumNonNegative(Mul(AbsVec(ax), Inverse(w)));
  }

  /** The guard of line 9 of Algorithm 1: rho_e < 2 max_i |Ax_i| / w_i, which
      holds exactly when some gamma_i is positive (GuardMaxForm). */
  predicate Guard(ax: Vector, w: Vector, rhoE: real)
    requires |w| == |ax|
  {
    AnyPositive(Gamma(ax, w, rhoE))
  }

  /** np.maximum(gamma, 0) * np.sign(Ax) / (b * s) */
  function Shrink(g: Vector, ax: Vector, b: Vector, s: real): (r: Vector)
    requires |ax| == |g| && |b| == |g| && !HasZero(b) && s != 0.0
    ensures |r| == |g|
  {
    seq(|g|, i requires 0 <= i < |g| => Pos(g[i]) * Sign(ax[i]) / (b[i] * s))
  }

  /** np.maximum(gamma, 0)**2 / b */
  function PosSqOver(g: Vector, b: Vector): (r: Vector)
    requires |b| == |g| && !HasZero(b)
    ensures |r| == |g|
  {
    seq(|g|, i requires 0 <= i < |g| => Pos(g[i]) * Pos(g[i]) / b[i])
  }

  /** gamma**2 / b */
  function SqOver(g: Vector, b: Vector): (r: Vector)
    requires |b| == |g| && !HasZero(b)
    ensures |r| == |g|
  {
    seq(|g|, i requires 0 <= i < |g| => g[i] * g[i] / b[i])
  }

  /** Lines 129-140 as written. The guard sums over all coordinates, and the
      normalising sum takes gamma**2 over every coordinate, the negative
      entries of gamma included. An empty x passes the guard when rho_e < 0,
      and numpy divides the empty numerator by the empty denominator without
      complaint. */
  function Path1UpdateAsWritten(A: Matrix, b: Vector, x: Vector, rhoE: real, eps: real,
                                sqrt: real -> real): (r: Result<Vector>)
    requires IsSquare(A, |x|) && |b| == |x| && 0.0 < eps && SqrtSound(sqrt)
    ensures r.Ok? ==> |r.value| == |x|
    ensures r.Err? ==> r.error == NonFinite
    ensures |x| == 0 ==> r == Ok([])
  {
    var ax := MatVec(A, x);
    var w := Weights(x, eps);
    var g := Gamma(ax, w, rhoE);
    if !GuardAsWritten(ax, w, rhoE) then Ok(Zeros(|x|))
    else if |x| == 0 then Ok([])  // an empty x_num over an empty x_den
    else if HasZero(b) then Err(NonFinite)
    else
      var t := Sum(SqOver(g, b));
      if t <= 0.0 then Err(NonFinite)
      else
        SqrtPositive(sqrt, t);
        Ok(Shrink(g, ax, b, sqrt(t)))
  }

  /** Lines 129-140 with the guard of Algorithm 1 (some gamma_i > 0) and the
      normalising sum over max(gamma, 0)**2, so that x^T B x == 1 afterwards
      (Path1Normalized). A zero in b, or a non-positive sum, makes numpy
      divide by zero or take the root of a negative number. */
  function Path1Update(A: Matrix, b: Vector, x: Vector, rhoE: real, eps: real,
                       sqrt: real -> real): (r: Result<Vector>)
    requires IsSquare(A, |x|) && |b| == |x| && 0.0 < eps && SqrtSound(sqrt)
    ensures r.Ok? ==> |r.value| == |x|
    ensures r.Err? ==> r.error == NonFinite
  {
    var ax := MatVec(A, x);
    var w := Weights(x, eps);
    var g := Gamma(ax, w, rhoE);
    if !Guard(ax, w, rhoE) then Ok(Zeros(|x|))
    else if HasZero(b) then Err(NonFinite)
    else
      var t := Sum(PosSqOver(g, b));
      if t <= 0.0 then Err(NonFinite)
      else
        SqrtPositive(sqrt, t);
        Ok(Shrink(g, ax, b, sqrt(t)))
  }

  /** Lines 150-167. The branch taken when the guard holds names `SBSinv`,
      which is never bound (line 157 binds `SBSInv`), so it raises NameError
      before problem1 is reached. */
  function Path2Step(A: Matrix, x: Vector, rhoE: real, eps: real): (r: Result<Vector>)
    requires IsSquare(A, |x|) && 0.0 < eps
    ensures r.Ok? <==> !GuardAsWritten(MatVec(A, x), Weights(x, eps), rhoE)
    ensures r.Ok? ==> r.value == Zeros(|x|)
    ensures r.Err? ==> r.error == NameError("SBSinv")
  {
    var ax := MatVec(A, x);
    var w := Weights(x, eps);
    if GuardAsWritten(ax, w, rhoE) then Err(NameError("SBSinv")) else Ok(Zeros(|x|))
  }

  /** s is the positive square root of t. */
  predicate RootOf(s: real, t: real) {
    0.0 < s && s * s == t
  }

  lemma {:induction false} SqrtPositive(sqrt: real -> real, t: real)
    requires SqrtSound(sqrt) && 0.0 < t
    ensures RootOf(sqrt(t), t)
  {
    assert 0.0 <= sqrt(t) && sqrt(t) * sqrt(t) == t;
  }

  // ---------------------------------------------------------------------
  // The guard

  lemma {:induction false} GammaPositive(a: real, wi: real, rhoE: real)
    requires 0.0 < wi
    ensures 0.0 < Abs(a) - rhoE / 2.0 * wi <==> rhoE < 2.0 * (Abs(a) / wi)
  {
    assert Abs(a) / wi * wi == Abs(a);
    if 0.0 < Abs(a) - rhoE / 2.0 * wi {
      assert rhoE / 2.0 * wi < Abs(a) / wi * wi;
    } else {
      assert Abs(a) / wi * wi <= rhoE / 2.0 * wi;
    }
  }

  /** Some gamma_i is positive exactly when rho_e < 2 |Ax_i| / w_i for some i,
      the maximum taken coordinate by coordinate as line 9 of Algorithm 1
      states it. */
  lemma {:induction false} GuardMaxForm(ax: Vector, w: Vector, rhoE: real)
    requires |w| == |ax| && forall i :: 0 <= i < |w| ==> 0.0 < w[i]
    ensures Guard(ax, w, rhoE) <==> exists i :: 0 <= i < |ax| && rhoE < 2.0 * (Abs(ax[i]) / w[i])
  {
    var g := Gamma(ax, w, rhoE);
    forall i | 0 <= i < |ax|
      ensures 0.0 < g[i] <==> rhoE < 2.0 * (Abs(ax[i]) / w[i])
    {
      GammaPositive(ax[i], w[i], rhoE);
    }
  }

  lemma {:induction false} SumAtLeastEntry(v: Vector, i: nat)
    requires i < |v| && forall k :: 0 <= k < |v| ==> 0.0 <= v[k]
    ensures v[i] <= Sum(v)
    decreases |v|
  {
    var n := |v|;
    SumNonNegative(v[..n - 1]);
    if i < n - 1 {
      SumAtLeastEntry(v[..n - 1], i);
    }
  }

  lemma {:induction false} SumNonNegative(v: Vector)
    requires forall k :: 0 <= k < |v| ==> 0.0 <= v[k]
    ensures 0.0 <= Sum(v)
    decreases |v|
  {
    if |v| > 0 {
      SumNonNegative(v[..|v| - 1]);
    }
  }

  /** Whatever passes the guard of Algorithm 1 passes the guard as written:
      the sum is at least its largest term. */
  lemma {:induction false} GuardAsWrittenAdmits(ax: Vector, w: Vector, rhoE: real)
    requires |w| == |ax| && forall i :: 0 <= i < |w| ==> 0.0 < w[i]
    requires Guard(ax, w, rhoE)
    ensures GuardAsWritten(ax, w, rhoE)
  {
    GuardMaxForm(ax, w, rhoE);
    var i :| 0 <= i < |ax| && rhoE < 2.0 * (Abs(ax[i]) / w[i]);
    var p := Mul(AbsVec(ax), Inverse(w));
    WeightedAbs(ax, w);
    SumAtLeastEntry(p, i);
  }

  /** |Ax| * w**(-1), coordinate by coordinate, is |Ax_i| / w_i >= 0. */
  lemma {:induction false} WeightedAbs(ax: Vector, w: Vector)
    requires |w| == |ax| && forall i :: 0 <= i < |w| ==> 0.0 < w[i]
    ensures forall k :: 0 <= k < |ax| ==>
      Mul(AbsVec(ax), Inverse(w))[k] == Abs(ax[k]) / w[k] && 0.0 <= Abs(ax[k]) / w[k]
  {
    var p := Mul(AbsVec(ax), Inverse(w));
    forall k | 0 <= k < |ax|
      ensures p[k] == Abs(ax[k]) / w[k] && 0.0 <= Abs(ax[k]) / w[k]
    {
      assert p[k] == Abs(ax[k]) * (1.0 / w[k]);
      TimesInverse(Abs(ax[k]), w[k]);
    }
  }

  lemma {:induction false} TimesInverse(a: real, d: real)
    requires 0.0 <= a && 0.0 < d
    ensures a * (1.0 / d) == a / d && 0.0 <= a / d
  {
  }

  // ---------------------------------------------------------------------
  // Path 1

  lemma {:induction false} ShrinkEntrySign(gi: real, a: real, d: real)
    requires 0.0 < d
    ensures Sign(Pos(gi) * Sign(a) / d) == (if 0.0 < gi then Sign(a) else 0.0)
  {
    var p := Pos(gi) * Sign(a);
    if 0.0 < gi && 0.0 < a {
      assert 0.0 < p;
    } else if 0.0 < gi && a < 0.0 {
      assert p < 0.0;
    } else {
      assert p == 0.0;
    }
  }

  lemma {:induction false} PositiveGammaNonZero(a: real, wi: real, rhoE: real)
    requires 0.0 < wi && 0.0 <= rhoE && 0.0 < Abs(a) - rhoE / 2.0 * wi
    ensures a != 0.0
  {
    assert 0.0 <= rhoE / 2.0 * wi;
  }

  lemma {:induction false} PosSquareOver(gi: real, bi: real)
    requires 0.0 < bi
    ensures 0.0 <= Pos(gi) * Pos(gi) / bi
    ensures 0.0 < gi ==> 0.0 < Pos(gi) * Pos(gi) / bi
  {
    SquareOver(Pos(gi), bi);
  }

  /** p * p / d keeps the sign of p * (p / d), a product of two factors of
      the same sign. */
  lemma {:induction false} SquareOver(p: real, d: real)
    requires 0.0 <= p && 0.0 < d
    ensures 0.0 <= p * p / d
    ensures 0.0 < p ==> 0.0 < p * p / d
  {
    assert p * p / d == p * (p / d);
    DivPositive(p, d);
    var q := p / d;
    ProductSign(p, q);
  }

  lemma {:induction false} DivSelf(t: real)
    requires t != 0.0
    ensures t / t == 1.0
  {
  }

  lemma {:induction false} ProductSign(p: real, q: real)
    requires 0.0 <= p && 0.0 <= q
    ensures 0.0 <= p * q
    ensures 0.0 < p && 0.0 < q ==> 0.0 < p * q
  {
  }

  lemma {:induction false} DivPositive(a: real, d: real)
    requires 0.0 < d
    ensures 0.0 <= a ==> 0.0 <= a / d
    ensures 0.0 < a ==> 0.0 < a / d
  {
  }

  /** With b > 0 and rho_e >= 0, and some gamma_i > 0, the normalising sum
      is positive. */
  lemma {:induction false} NormalisingSumPositive(g: Vector, b: Vector, i: nat)
    requires |b| == |g| && (forall k :: 0 <= k < |b| ==> 0.0 < b[k]) && i < |g| && 0.0 < g[i]
    ensures !HasZero(b) && 0.0 < Sum(PosSqOver(g, b))
  {
    var q := PosSqOver(g, b);
    forall k | 0 <= k < |q|
      ensures 0.0 <= q[k]
    {
      PosSquareOver(g[k], b[k]);
    }
    PosSquareOver(g[i], b[i]);
    SumAtLeastEntry(q, i);
  }

  /** With b > 0 and rho_e >= 0 the Path 1 update always produces a finite
      vector, whose i-th entry is non-zero exactly when gamma_i > 0, and then
      has the sign of (Ax)_i. */
  lemma {:induction false} Path1Sparsity(A: Matrix, b: Vector, x: Vector, rhoE: real, eps: real,
                                         sqrt: real -> real)
    requires IsSquare(A, |x|) && |b| == |x| && 0.0 < eps && SqrtSound(sqrt)
    requires (forall i :: 0 <= i < |b| ==> 0.0 < b[i]) && 0.0 <= rhoE
    ensures var r := Path1Update(A, b, x, rhoE, eps, sqrt);
      var ax := MatVec(A, x);
      var g := Gamma(ax, Weights(x, eps), rhoE);
      r.Ok? && forall i :: 0 <= i < |x| ==>
        (r.value[i] != 0.0 <==> 0.0 < g[i])
        && Sign(r.value[i]) == (if 0.0 < g[i] then Sign(ax[i]) else 0.0)
  {
    var ax, w := MatVec(A, x), Weights(x, eps);
    var g := Gamma(ax, w, rhoE);
    if Guard(ax, w, rhoE) {
      var i :| 0 <= i < |g| && 0.0 < g[i];
      NormalisingSumPositive(g, b, i);
      var t := Sum(PosSqOver(g, b));
      SqrtPositive(sqrt, t);
      var s := sqrt(t);
      ShrinkPattern(g, ax, b, s, w, rhoE);
    }
  }

  /** The update as written has the same pattern whenever it returns a
      vector: its wider guard and wider sum change when it divides by zero,
      not where the non-zero entries sit. */
  lemma {:induction false} Path1SparsityAsWritten(A: Matrix, b: Vector, x: Vector, rhoE: real, eps: real,
                                                  sqrt: real -> real)
    requires IsSquare(A, |x|) && |b| == |x| && 0.0 < eps && SqrtSound(sqrt)
    requires (forall i :: 0 <= i < |b| ==> 0.0 < b[i]) && 0.0 <= rhoE
    ensures var r := Path1UpdateAsWritten(A, b, x, rhoE, eps, sqrt);
      var ax := MatVec(A, x);
      var g := Gamma(ax, Weights(x, eps), rhoE);
      r.Ok? ==> forall i :: 0 <= i < |x| ==>
        (r.value[i] != 0.0 <==> 0.0 < g[i])
        && Sign(r.value[i]) == (if 0.0 < g[i] then Sign(ax[i]) else 0.0)
  {
    var ax, w := MatVec(A, x), Weights(x, eps);
    var g := Gamma(ax, w, rhoE);
    if !GuardAsWritten(ax, w, rhoE) {
      if Guard(ax, w, rhoE) {
        GuardAsWrittenAdmits(ax, w, rhoE);
      }
      assert forall i :: 0 <= i < |x| ==> !(0.0 < g[i]);
    } else if !HasZero(b) {
      var t := Sum(SqOver(g, b));
      if 0.0 < t {
        SqrtPositive(sqrt, t);
        ShrinkPattern(g, ax, b, sqrt(t), w, rhoE);
      }
    }
  }

  /** With b > 0 the update as written fails exactly when x is non-empty,
      the summed guard passes and every gamma_i is zero: then the normalising
      sum is 0 and line 138 divides 0 by 0. */
  lemma {:induction false} Path1AsWrittenFails(A: Matrix, b: Vector, x: Vector, rhoE: real, eps: real,
                                               sqrt: real -> real)
    requires IsSquare(A, |x|) && |b| == |x| && 0.0 < eps && SqrtSound(sqrt)
    requires forall i :: 0 <= i < |b| ==> 0.0 < b[i]
    ensures var ax, w := MatVec(A, x), Weights(x, eps);
      var g := Gamma(ax, w, rhoE);
      (Path1UpdateAsWritten(A, b, x, rhoE, eps, sqrt).Err? <==>
        0 < |x| && GuardAsWritten(ax, w, rhoE) && forall i :: 0 <= i < |x| ==> g[i] == 0.0)
  {
    var ax, w := MatVec(A, x), Weights(x, eps);
    var g := Gamma(ax, w, rhoE);
    NormalisingSumZero(g, b);
  }

  /** With b > 0 the sum of gamma**2 / b is at most 0 exactly when gamma is
      zero. */
  lemma {:induction false} NormalisingSumZero(g: Vector, b: Vector)
    requires |b| == |g| && forall i :: 0 <= i < |b| ==> 0.0 < b[i]
    ensures !HasZero(b)
    ensures Sum(SqOver(g, b)) <= 0.0 <==> forall i :: 0 <= i < |g| ==> g[i] == 0.0
  {
    var q := SqOver(g, b);
    forall k | 0 <= k < |q|
      ensures 0.0 <= q[k] && (g[k] != 0.0 ==> 0.0 < q[k])
    {
      SquareOverSigned(g[k], b[k]);
    }
    if i :| 0 <= i < |g| && g[i] != 0.0 {
      SumAtLeastEntry(q, i);
    } else {
      SumAllZero(q);
    }
  }

  /** With b > 0 and rho_e >= 0 a vector returned by the update as written
      keeps x^T B x <= 1, the constraint of the relaxed problem: it divides by
      the sum over all gamma_i**2, at least the sum over max(gamma_i, 0)**2
      that Path1Normalized divides by. */
  lemma {:induction false} Path1AsWrittenBounded(A: Matrix, b: Vector, x: Vector, rhoE: real, eps: real,
                                                 sqrt: real -> real)
    requires IsSquare(A, |x|) && |b| == |x| && 0.0 < eps && SqrtSound(sqrt)
    requires (forall i :: 0 <= i < |b| ==> 0.0 < b[i]) && 0.0 <= rhoE
    ensures var r := Path1UpdateAsWritten(A, b, x, rhoE, eps, sqrt);
      r.Ok? ==> Dot(Mul(b, r.value), r.value) <= 1.0
  {
    var ax, w := MatVec(A, x), Weights(x, eps);
    var g := Gamma(ax, w, rhoE);
    var r := Path1UpdateAsWritten(A, b, x, rhoE, eps, sqrt);
    if !GuardAsWritten(ax, w, rhoE) || |x| == 0 {
      assert r.value == Zeros(|x|);
      assert Mul(b, r.value) == Zeros(|x|);
      DotZeroRight(Zeros(|x|));
    } else {
      assert !HasZero(b);
      var t := Sum(SqOver(g, b));
      if 0.0 < t {
        SqrtPositive(sqrt, t);
        ShrinkNorm(g, ax, b, sqrt(t), t, w, rhoE);
        var p := Sum(PosSqOver(g, b));
        PosSqOverAtMost(g, b);
        NonNegativeTerms(g, b);
        SumNonNegative(PosSqOver(g, b));
        QuotientAtMostOne(p, t);
      }
    }
  }

  lemma {:induction false} NonNegativeTerms(g: Vector, b: Vector)
    requires |b| == |g| && forall k :: 0 <= k < |b| ==> 0.0 < b[k]
    ensures !HasZero(b) && forall k :: 0 <= k < |g| ==> 0.0 <= PosSqOver(g, b)[k]
  {
    var q := PosSqOver(g, b);
    forall k | 0 <= k < |g|
      ensures 0.0 <= q[k]
    {
      PosSquareOver(g[k], b[k]);
    }
  }

  /** Sum of max(gamma, 0)**2 / b <= sum of gamma**2 / b for b > 0. */
  lemma {:induction false} PosSqOverAtMost(g: Vector, b: Vector)
    requires |b| == |g| && forall k :: 0 <= k < |b| ==> 0.0 < b[k]
    ensures !HasZero(b) && Sum(PosSqOver(g, b)) <= Sum(SqOver(g, b))
  {
    var p, q := PosSqOver(g, b), SqOver(g, b);
    forall k | 0 <= k < |g|
      ensures p[k] <= q[k]
    {
      SquareOverSigned(g[k], b[k]);
      if 0.0 < g[k] {
        assert p[k] == q[k];
      } else {
        assert p[k] == 0.0 * 0.0 / b[k];
      }
    }
    SumMonotone(p, q);
  }

  lemma {:induction false} SumMonotone(u: Vector, v: Vector)
    requires |u| == |v| && forall k :: 0 <= k < |u| ==> u[k] <= v[k]
    ensures Sum(u) <= Sum(v)
    decreases |u|
  {
    if |u| > 0 {
      SumMonotone(u[..|u| - 1], v[..|v| - 1]);
    }
  }

  lemma {:induction false} SumAllZero(v: Vector)
    requires forall k :: 0 <= k < |v| ==> v[k] == 0.0
    ensures Sum(v) == 0.0
    decreases |v|
  {
    if |v| > 0 {
      SumAllZero(v[..|v| - 1]);
    }
  }

  /** g * g / d for d > 0 is non-negative, and positive unless g == 0. */
  lemma {:induction false} SquareOverSigned(g: real, d: real)
    requires 0.0 < d
    ensures 0.0 <= g * g / d && (g != 0.0 ==> 0.0 < g * g / d)
  {
    SquareOver(Abs(g), d);
    assert Abs(g) * Abs(g) == g * g;
  }

  lemma {:induction false} QuotientAtMostOne(p: real, t: real)
    requires 0.0 <= p <= t && 0.0 < t
    ensures p / t <= 1.0
  {
    assert p / t * t == p;
  }

  lemma {:induction false} ShrinkPattern(g: Vector, ax: Vector, b: Vector, s: real, w: Vector, rhoE: real)
    requires |ax| == |g| == |b| == |w| && (forall i :: 0 <= i < |b| ==> 0.0 < b[i] && 0.0 < w[i])
    requires 0.0 < s && 0.0 <= rhoE && g == Gamma(ax, w, rhoE)
    ensures !HasZero(b)
    ensures forall k :: 0 <= k < |g| ==>
      (Shrink(g, ax, b, s)[k] != 0.0 <==> 0.0 < g[k])
      && Sign(Shrink(g, ax, b, s)[k]) == (if 0.0 < g[k] then Sign(ax[k]) else 0.0)
  {
    var v := Shrink(g, ax, b, s);
    forall k | 0 <= k < |g|
      ensures (v[k] != 0.0 <==> 0.0 < g[k])
        && Sign(v[k]) == (if 0.0 < g[k] then Sign(ax[k]) else 0.0)
    {
      var d := b[k] * s;
      assert 0.0 < d;
      assert v[k] == Pos(g[k]) * Sign(ax[k]) / d;
      ShrinkEntrySign(g[k], ax[k], d);
      if 0.0 < g[k] {
        PositiveGammaNonZero(ax[k], w[k], rhoE);
      }
    }
  }

  /** v / t, coordinate by coordinate */
  function DivBy(v: Vector, t: real): (r: Vector)
    requires t != 0.0
    ensures |r| == |v|
  {
    seq(|v|, i requires 0 <= i < |v| => v[i] / t)
  }

  lemma {:induction false} SumDivBy(v: Vector, t: real)
    requires t != 0.0
    ensures Sum(DivBy(v, t)) == Sum(v) / t
    decreases |v|
  {
    if |v| > 0 {
      var n := |v|;
      assert DivBy(v, t)[..n - 1] == DivBy(v[..n - 1], t);
      SumDivBy(v[..n - 1], t);
      assert Sum(v[..n - 1]) / t + v[n - 1] / t == (Sum(v[..n - 1]) + v[n - 1]) / t;
    }
  }

  /** One term of x^T diag(b) x after the update: b_i x_i^2 is
      max(gamma_i, 0)^2 / b_i over s^2. */
  lemma {:induction false} NormTerm(p: real, sg: real, bi: real, s: real, t: real)
    requires 0.0 < bi && 0.0 < s && s * s == t && 0.0 < t && sg * sg == 1.0
    ensures bi * (p * sg / (bi * s)) * (p * sg / (bi * s)) == p * p / bi / t
  {
    var d := bi * s;
    assert 0.0 < d;
    var y := p * sg / d;
    assert y * d == p * sg;
    var u := bi * y * y;
    assert u * bi * (s * s) == (y * d) * (y * d);
    assert (y * d) * (y * d) == (p * sg) * (p * sg);
    assert (p * sg) * (p * sg) == p * p * (sg * sg);
    assert u * (bi * t) == p * p;
    var r := p * p / bi / t;
    assert r * (bi * t) == p * p;
    assert 0.0 < bi * t;
  }

  /** NormTerm for the i-th coordinate of the update, whose sign factor
      squares to one wherever gamma_i > 0: y is the new x_i, q the i-th term
      of the normalising sum. */
  lemma {:induction false} ShrinkTerm(gk: real, a: real, bk: real, s: real, t: real, wk: real, rhoE: real,
                                      y: real, q: real)
    requires 0.0 < bk && 0.0 < wk && RootOf(s, t) && 0.0 < t && 0.0 <= rhoE
    requires gk == Abs(a) - rhoE / 2.0 * wk
    requires y == Pos(gk) * Sign(a) / (bk * s) && q == Pos(gk) * Pos(gk) / bk
    ensures bk * y * y == q / t
  {
    var p, sg := Pos(gk), Sign(a);
    if 0.0 < gk {
      PositiveGammaNonZero(a, wk, rhoE);
      assert sg * sg == 1.0;
      NormTerm(p, sg, bk, s, t);
    } else {
      assert p == 0.0;
    }
  }

  lemma {:induction false} ShrinkNormAt(g: Vector, ax: Vector, b: Vector, s: real, t: real,
                                        w: Vector, rhoE: real, k: nat)
    requires |ax| == |g| == |b| == |w| && !HasZero(b) && k < |g| && 0.0 < b[k] && 0.0 < w[k]
    requires RootOf(s, t) && 0.0 < t && 0.0 <= rhoE && g[k] == Abs(ax[k]) - rhoE / 2.0 * w[k]
    ensures Mul(Mul(b, Shrink(g, ax, b, s)), Shrink(g, ax, b, s))[k] == DivBy(PosSqOver(g, b), t)[k]
  {
    var v, q := Shrink(g, ax, b, s), PosSqOver(g, b);
    ShrinkEntries(g, ax, b, s, t, k);
    ShrinkTerm(g[k], ax[k], b[k], s, t, w[k], rhoE, v[k], q[k]);
  }

  /** The k-th entries of the shrunk vector, of its B-norm terms and of the
      normalising terms over t. */
  lemma {:induction false} ShrinkEntries(g: Vector, ax: Vector, b: Vector, s: real, t: real, k: nat)
    requires |ax| == |g| == |b| && !HasZero(b) && k < |g| && s != 0.0 && t != 0.0
    ensures var v, q := Shrink(g, ax, b, s), PosSqOver(g, b);
      v[k] == Pos(g[k]) * Sign(ax[k]) / (b[k] * s) && q[k] == Pos(g[k]) * Pos(g[k]) / b[k]
      && Mul(Mul(b, v), v)[k] == b[k] * v[k] * v[k] && DivBy(q, t)[k] == q[k] / t
  {
  }

  /** x^T diag(b) x of the shrunk vector is the normalising sum over s^2. */
  lemma {:induction false} ShrinkNorm(g: Vector, ax: Vector, b: Vector, s: real, t: real,
                                      w: Vector, rhoE: real)
    requires |ax| == |g| == |b| == |w| && (forall i :: 0 <= i < |b| ==> 0.0 < b[i] && 0.0 < w[i])
    requires RootOf(s, t) && 0.0 < t && 0.0 <= rhoE && g == Gamma(ax, w, rhoE)
    ensures !HasZero(b)
    ensures Dot(Mul(b, Shrink(g, ax, b, s)), Shrink(g, ax, b, s)) == Sum(PosSqOver(g, b)) / t
  {
    assert !HasZero(b);
    var v := Shrink(g, ax, b, s);
    var lhs, rhs := Mul(Mul(b, v), v), DivBy(PosSqOver(g, b), t);
    forall k | 0 <= k < |g|
      ensures lhs[k] == rhs[k]
    {
      ShrinkNormAt(g, ax, b, s, t, w, rhoE, k);
    }
    assert lhs == rhs;
    SumDivBy(PosSqOver(g, b), t);
  }

  /** With b > 0, rho_e >= 0 and the guard holding, the update lands on the
      unit sphere of B = diag(b): x^T B x == 1, the constraint of the
      generalized eigenproblem. */
  lemma {:induction false} Path1Normalized(A: Matrix, b: Vector, x: Vector, rhoE: real, eps: real,
                                           sqrt: real -> real)
    requires IsSquare(A, |x|) && |b| == |x| && 0.0 < eps && SqrtSound(sqrt)
    requires (forall i :: 0 <= i < |b| ==> 0.0 < b[i]) && 0.0 <= rhoE
    requires Guard(MatVec(A, x), Weights(x, eps), rhoE)
    ensures var r := Path1Update(A, b, x, rhoE, eps, sqrt);
      r.Ok? && Dot(Mul(b, r.value), r.value) == 1.0
  {
    var ax, w := MatVec(A, x), Weights(x, eps);
    var g := Gamma(ax, w, rhoE);
    var i :| 0 <= i < |g| && 0.0 < g[i];
    NormalisingSumPositive(g, b, i);
    var t := Sum(PosSqOver(g, b));
    SqrtPositive(sqrt, t);
    ShrinkNorm(g, ax, b, sqrt(t), t, w, rhoE);
    DivSelf(t);
  }

  // ---------------------------------------------------------------------
  // The zero vector

  lemma {:induction false} MatVecZeros(A: Matrix, n: nat)
    requires IsSquare(A, n)
    ensures MatVec(A, Zeros(n)) == Zeros(n)
  {
    forall i | 0 <= i < n
      ensures MatVec(A, Zeros(n))[i] == 0.0
    {
      DotZeroRight(A[i]);
    }
  }

  /** With rho_e >= 0 the zero vector is a fixed point of both tau == 0
      updates: A 0 == 0, so every gamma_i == -(rho_e / 2) w_i <= 0 and both
      guards fail. */
  lemma {:induction false} ZeroIsFixed(A: Matrix, b: Vector, rhoE: real, eps: real, sqrt: real -> real)
    requires IsSquare(A, |b|) && 0.0 < eps && SqrtSound(sqrt) && 0.0 <= rhoE
    ensures Path1Update(A, b, Zeros(|b|), rhoE, eps, sqrt) == Ok(Zeros(|b|))
    ensures Path1UpdateAsWritten(A, b, Zeros(|b|), rhoE, eps, sqrt) == Ok(Zeros(|b|))
    ensures Path2Step(A, Zeros(|b|), rhoE, eps) == Ok(Zeros(|b|))
  {
    var n := |b|;
    var z := Zeros(n);
    MatVecZeros(A, n);
    var w := Weights(z, eps);
    var g := Gamma(z, w, rhoE);
    forall i | 0 <= i < n
      ensures g[i] <= 0.0
    {
      assert 0.0 <= rhoE / 2.0 * w[i];
    }
    assert AbsVec(z) == z;
    DotComm(z, Inverse(w));
    DotZeroRight(Inverse(w));
  }

  // ---------------------------------------------------------------------
  // Two inputs on which the update as written departs from Algorithm 1

  function Identity2(): (I: Matrix)
    ensures IsSquare(I, 2)
  {
    [[1.0, 0.0], [0.0, 1.0]]
  }

  /** A == I, b == [1, 1], x == [1, 1], eps == 1, rho_e == 4: w == [1/2, 1/2]
      and gamma == [0, 0]. The summed guard 4 < 2 * 4 passes, the normalising
      sum is 0 and the update as written divides 0 by 0. */
  lemma {:induction false} GuardSumAsWritten(sqrt: real -> real)
    requires SqrtSound(sqrt)
    ensures Path1UpdateAsWritten(Identity2(), [1.0, 1.0], [1.0, 1.0], 4.0, 1.0, sqrt) == Err(NonFinite)
  {
    GuardSumExampleGamma();
    var ax, w := [1.0, 1.0], [0.5, 0.5];
    var iw := Inverse(w);
    assert AbsVec(ax) == [1.0, 1.0] && iw == [2.0, 2.0];
    DotExample(AbsVec(ax), iw);
    assert GuardAsWritten(ax, w, 4.0);
    var q := SqOver([0.0, 0.0], [1.0, 1.0]);
    assert q == [0.0, 0.0];
    SumExample(q);
  }

  /** On the same input the guard of Algorithm 1 fails, since no gamma_i is
      positive, and the update returns the zero vector. */
  lemma {:induction false} GuardSumCorrected(sqrt: real -> real)
    requires SqrtSound(sqrt)
    ensures Path1Update(Identity2(), [1.0, 1.0], [1.0, 1.0], 4.0, 1.0, sqrt) == Ok(Zeros(2))
  {
    GuardSumExampleGamma();
    var g := [0.0, 0.0];
    assert !AnyPositive(g);
  }

  lemma {:induction false} GuardSumExampleGamma()
    ensures MatVec(Identity2(), [1.0, 1.0]) == [1.0, 1.0]
    ensures Weights([1.0, 1.0], 1.0) == [0.5, 0.5]
    ensures Gamma([1.0, 1.0], [0.5, 0.5], 4.0) == [0.0, 0.0]
  {
    var A, x := Identity2(), [1.0, 1.0];
    DotExample(A[0], x);
    DotExample(A[1], x);
  }

  /** A == I, b == [1, 1], x == [1, 0], eps == 1, rho_e == 1: gamma ==
      [3/4, -1/2]. The update as written normalises by 9/16 + 1/4 and lands
      at x^T B x == 9/13, off the unit sphere of B. */
  lemma {:induction false} NormalisationAsWritten(sqrt: real -> real)
    requires SqrtSound(sqrt)
    ensures var r := Path1UpdateAsWritten(Identity2(), [1.0, 1.0], [1.0, 0.0], 1.0, 1.0, sqrt);
      r.Ok? && Dot(Mul([1.0, 1.0], r.value), r.value) == 9.0 / 13.0
  {
    NormalisationExampleGamma();
    var ax, w, g, b := [1.0, 0.0], [0.5, 1.0], [0.75, -0.5], [1.0, 1.0];
    assert g[0] == 0.75 && Guard(ax, w, 1.0);
    GuardAsWrittenAdmits(ax, w, 1.0);
    NormalisationExampleSums();
    var t := Sum(SqOver(g, b));
    SqrtPositive(sqrt, t);
    ShrinkNorm(g, ax, b, sqrt(t), t, w, 1.0);
    assert Path1UpdateAsWritten(Identity2(), b, [1.0, 0.0], 1.0, 1.0, sqrt) == Ok(Shrink(g, ax, b, sqrt(t)));
  }

  /** The iterate itself on that input: (0.75 / sqrt(0.8125), 0), whose first
      entry lies below 0.9. */
  lemma {:induction false} NormalisationAsWrittenIterate(sqrt: real -> real)
    requires SqrtSound(sqrt)
    ensures RootOf(sqrt(0.8125), 0.8125)
    ensures Path1UpdateAsWritten(Identity2(), [1.0, 1.0], [1.0, 0.0], 1.0, 1.0, sqrt)
      == Ok([0.75 / sqrt(0.8125), 0.0])
    ensures 0.75 / sqrt(0.8125) <= 0.9
  {
    var s := sqrt(0.8125);
    NormalisationExampleUnfold(sqrt);
    ShrinkOfTwo(0.75, -0.5, 1.0, 0.0, 1.0, 1.0, s);
    assert Pos(0.75) * Sign(1.0) / (1.0 * s) == 0.75 / s;
    assert Pos(-0.5) * Sign(0.0) / (1.0 * s) == 0.0;
    RootAbove(s);
  }

  /** The update as written on that input, before the entries are worked
      out: gamma = (0.75, -0.5), and the sum of gamma**2 / b is 0.8125. */
  lemma {:induction false} NormalisationExampleUnfold(sqrt: real -> real)
    requires SqrtSound(sqrt)
    ensures RootOf(sqrt(0.8125), 0.8125) && !HasZero([1.0, 1.0])
    ensures Path1UpdateAsWritten(Identity2(), [1.0, 1.0], [1.0, 0.0], 1.0, 1.0, sqrt)
      == Ok(Shrink([0.75, -0.5], [1.0, 0.0], [1.0, 1.0], sqrt(0.8125)))
  {
    NormalisationExampleGamma();
    var ax, w, g, b := [1.0, 0.0], [0.5, 1.0], [0.75, -0.5], [1.0, 1.0];
    assert g[0] == 0.75 && Guard(ax, w, 1.0);
    GuardAsWrittenAdmits(ax, w, 1.0);
    NormalisationExampleSums();
    SqrtPositive(sqrt, 0.8125);
  }

  /** A positive root of 0.8125 exceeds 0.75 / 0.9. */
  lemma {:induction false} RootAbove(s: real)
    requires RootOf(s, 0.8125)
    ensures 0.75 / s <= 0.9
  {
  }

  /** On the same input Algorithm 1 normalises by 9/16 alone and returns
      [1, 0], on the unit sphere of B. */
  lemma {:induction false} NormalisationCorrected(sqrt: real -> real)
    requires SqrtSound(sqrt)
    ensures Path1Update(Identity2(), [1.0, 1.0], [1.0, 0.0], 1.0, 1.0, sqrt) == Ok([1.0, 0.0])
  {
    NormalisationExampleGamma();
    var ax, w, g, b := [1.0, 0.0], [0.5, 1.0], [0.75, -0.5], [1.0, 1.0];
    assert g[0] == 0.75 && Guard(ax, w, 1.0);
    NormalisationExampleSums();
    var t := Sum(PosSqOver(g, b));
    SqrtPositive(sqrt, t);
    RootUnique(sqrt(t), 0.75);
    ShrinkOfTwo(0.75, -0.5, 1.0, 0.0, 1.0, 1.0, 0.75);
  }

  lemma {:induction false} NormalisationExampleSums()
    ensures !HasZero([1.0, 1.0])
    ensures Sum(SqOver([0.75, -0.5], [1.0, 1.0])) == 0.8125
    ensures Sum(PosSqOver([0.75, -0.5], [1.0, 1.0])) == 0.5625
  {
    SumsOfTwo(0.75, -0.5, 1.0, 1.0);
  }

  /** The normalising sums of a vector of length two, written out. */
  lemma {:induction false} SumsOfTwo(g0: real, g1: real, b0: real, b1: real)
    requires b0 != 0.0 && b1 != 0.0
    ensures !HasZero([b0, b1])
    ensures Sum(SqOver([g0, g1], [b0, b1])) == g0 * g0 / b0 + g1 * g1 / b1
    ensures Sum(PosSqOver([g0, g1], [b0, b1])) == Pos(g0) * Pos(g0) / b0 + Pos(g1) * Pos(g1) / b1
  {
    SumExample(SqOver([g0, g1], [b0, b1]));
    SumExample(PosSqOver([g0, g1], [b0, b1]));
  }

  /** The update of a vector of length two, written out. */
  lemma {:induction false} ShrinkOfTwo(g0: real, g1: real, a0: real, a1: real, b0: real, b1: real, s: real)
    requires b0 != 0.0 && b1 != 0.0 && s != 0.0
    ensures !HasZero([b0, b1])
    ensures Shrink([g0, g1], [a0, a1], [b0, b1], s)
      == [Pos(g0) * Sign(a0) / (b0 * s), Pos(g1) * Sign(a1) / (b1 * s)]
  {
    var v := Shrink([g0, g1], [a0, a1], [b0, b1], s);
    assert v[0] == Pos(g0) * Sign(a0) / (b0 * s);
    assert v[1] == Pos(g1) * Sign(a1) / (b1 * s);
  }

  lemma {:induction false} NormalisationExampleGamma()
    ensures MatVec(Identity2(), [1.0, 0.0]) == [1.0, 0.0]
    ensures Weights([1.0, 0.0], 1.0) == [0.5, 1.0]
    ensures Gamma([1.0, 0.0], [0.5, 1.0], 1.0) == [0.75, -0.5]
  {
    var A, x := Identity2(), [1.0, 0.0];
    DotExample(A[0], x);
    DotExample(A[1], x);
  }

  lemma {:induction false} RootUnique(s: real, r: real)
    requires RootOf(s, r * r) && 0.0 < r
    ensures s == r
  {
    assert (s - r) * (s + r) == 0.0;
    assert 0.0 < s + r;
  }

  /** np.dot of two vectors of length two, written out. */
  lemma {:induction false} DotExample(u: Vector, v: Vector)
    requires |u| == |v| == 2
    ensures Dot(u, v) == u[0] * v[0] + u[1] * v[1]
  {
    SumExample(Mul(u, v));
  }

  lemma {:induction false} SumExample(v: Vector)
    requires |v| == 2
    ensures Sum(v) == v[0] + v[1]
  {
    assert v[..1][..0] == [];
    assert Sum(v[..1]) == Sum(v[..1][..0]) + v[0];
  }
}
