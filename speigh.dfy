/** The driver `speigh(A, B, v_init, rho, eps, tol, tau, maxiter, greedy)`:
    the choice among the three paths, the bounded iteration with its
    convergence test on the support of the previous iterate, and the
    variational renormalization on the support of the final iterate.

    The foreign routines are oracles gathered in a Backend: np.log, np.sqrt,
    the cvxpy solver behind Problem2, and scipy's eigsh. */
module Speigh {
  import opened Linalg
  import opened Solvers
  import opened Update

  /** A generalized eigenpair (lambda, v) with A v == lambda B v. */
  datatype Eigenpair = Eigenpair(value: real, vector: Vector)

  /** eigsh(A=Ak, M=Bk, k=1, v0=v0, which='LA'): the pair with the largest
      eigenvalue, or the exception ARPACK raises. */
  type EigshOracle = (Matrix, Matrix, Vector) -> Result<Eigenpair>

  /** Row i of A v == lambda B v. */
  predicate SolvesAt(A: Matrix, B: Matrix, p: Eigenpair, i: nat)
    requires IsSquare(A, |p.vector|) && IsSquare(B, |p.vector|) && i < |p.vector|
  {
    MatVec(A, p.vector)[i] == p.value * MatVec(B, p.vector)[i]
  }

  predicate IsEigenpair(A: Matrix, B: Matrix, p: Eigenpair)
    requires IsSquare(A, |p.vector|) && IsSquare(B, |p.vector|)
  {
    forall i: nat :: i < |p.vector| ==> SolvesAt(A, B, p, i)
  }

  /** eigsh hands back an eigenpair of the pencil it is given, with a vector
      as long as the starting vector. */
  ghost predicate EigshSound(eigsh: EigshOracle) {
    forall Ak, Bk, v0 :: IsSquare(Ak, |v0|) && IsSquare(Bk, |v0|) && eigsh(Ak, Bk, v0).Ok? ==>
      |eigsh(Ak, Bk, v0).value.vector| == |v0| && IsEigenpair(Ak, Bk, eigsh(Ak, Bk, v0).value)
  }

  /** np.log is positive above 1. */
  ghost predicate LogSound(log: real -> real) {
    forall t :: 1.0 < t ==> 0.0 < log(t)
  }

  datatype Backend = Backend(log: real -> real, sqrt: real -> real, l1: L1Oracle, eigsh: EigshOracle)

  ghost predicate Sound(be: Backend) {
    LogSound(be.log) && SqrtSound(be.sqrt) && L1Sound(be.l1) && EigshSound(be.eigsh)
  }

  // ---------------------------------------------------------------------
  // Set-up (lines 111-117)

  /** rho_e = rho / np.log(1 + 1.0/eps): the penalty rescaled by a positive
      constant, so it keeps the sign of rho. */
  function RhoE(rho: real, eps: real, log: real -> real): (r: real)
    requires 0.0 < eps && LogSound(log)
    ensures 0.0 <= r <==> 0.0 <= rho
    ensures r == 0.0 <==> rho == 0.0
  {
    var c := 1.0 + 1.0 / eps;
    assert 1.0 < c;
    QuotientSign(rho, log(c));
    rho / log(c)
  }

  lemma {:induction false} QuotientSign(a: real, d: real)
    requires 0.0 < d
    ensures 0.0 <= a / d <==> 0.0 <= a
    ensures a / d == 0.0 <==> a == 0.0
  {
    assert a / d * d == a;
    if a < 0.0 {
      assert a / d < 0.0;
    }
  }

  /** np.diag(B) */
  function Diag(B: Matrix): (b: Vector)
    requires IsSquare(B, |B|)
    ensures |b| == |B|
  {
    seq(|B|, i requires 0 <= i < |B| => B[i][i])
  }

  /** np.diag(b) */
  function DiagMatrix(b: Vector): (D: Matrix)
    ensures IsSquare(D, |b|)
  {
    seq(|b|, i requires 0 <= i < |b| => seq(|b|, j requires 0 <= j < |b| => if i == j then b[i] else 0.0))
  }

  predicate IsDiagonal(B: Matrix)
    requires IsSquare(B, |B|)
  {
    forall i, j :: 0 <= i < |B| && 0 <= j < |B| && i != j ==> B[i][j] == 0.0
  }

  /** B_is_diagonal = np.all(np.diag(b) == B) holds exactly when every entry
      off the diagonal is zero. */
  lemma {:induction false} DiagonalTest(B: Matrix)
    requires IsSquare(B, |B|)
    ensures B == DiagMatrix(Diag(B)) <==> IsDiagonal(B)
  {
    var D := DiagMatrix(Diag(B));
    if IsDiagonal(B) {
      forall i | 0 <= i < |B|
        ensures B[i] == D[i]
      {
        assert forall j :: 0 <= j < |B| ==> B[i][j] == D[i][j];
      }
    }
    if B == D {
      forall i, j | 0 <= i < |B| && 0 <= j < |B| && i != j
        ensures B[i][j] == 0.0
      {
        assert D[i][j] == 0.0;
      }
    }
  }

  /** A / tau + np.eye(n) */
  function ScaledA(A: Matrix, tau: real): (S: Matrix)
    requires IsSquare(A, |A|) && tau != 0.0
    ensures IsSquare(S, |A|)
  {
    seq(|A|, i requires 0 <= i < |A| =>
      seq(|A|, j requires 0 <= j < |A| => A[i][j] / tau + (if i == j then 1.0 else 0.0)))
  }

  // ---------------------------------------------------------------------
  // Path selection (lines 119, 141, 169-173)

  /** The three paths: tau == 0 with a diagonal B, tau == 0 with any other
      B, and tau != 0 (the d.c. program with its Problem2). */
  datatype Path =
    | Diagonal(b: Vector)
    | General
    | Dc(scaledA: Matrix, problem: Problem2)

  /** The default tau=None is not 0, so it reaches `A / tau`, which raises
      TypeError. */
  function SelectPath(A: Matrix, B: Matrix, rhoE: real, tau: Option<real>, greedy: bool): (r: Result<Path>)
    requires IsSquare(A, |A|) && IsSquare(B, |A|)
    ensures r.Err? <==> tau.None?
    ensures r.Err? ==> r.error == TypeError
    ensures tau == Some(0.0) && IsDiagonal(B) ==> r == Ok(Diagonal(Diag(B)))
    ensures tau == Some(0.0) && !IsDiagonal(B) ==> r == Ok(General)
    ensures tau.Some? && tau.value != 0.0 ==> r.Ok? && r.value.Dc?
    ensures r.Ok? && r.value.Dc? ==>
      tau.Some? && tau.value != 0.0 && IsSquare(r.value.scaledA, |A|)
      && (forall i, j :: 0 <= i < |A| && 0 <= j < |A| ==>
            r.value.scaledA[i][j] == A[i][j] / tau.value + (if i == j then 1.0 else 0.0))
      && r.value.problem.Valid() && r.value.problem.n == |A| && r.value.problem.B == B
      && r.value.problem.c == rhoE / tau.value && r.value.problem.sparse == greedy
  {
    if tau == Some(0.0) then
      DiagonalTest(B);
      if B == DiagMatrix(Diag(B)) then Ok(Diagonal(Diag(B))) else Ok(General)
    else if tau.None? then Err(TypeError)
    else Ok(Dc(ScaledA(A, tau.value), NewProblem2(B, rhoE / tau.value, greedy)))
  }

  // ---------------------------------------------------------------------
  // One update

  /** Everything an iteration reads: A, the path, rho_e, eps and tol. */
  datatype Setup = Setup(A: Matrix, path: Path, rhoE: real, eps: real, tol: real)
  {
    /** The shapes fit vectors of length n. */
    predicate Valid(n: nat) {
      IsSquare(A, n) && 0.0 < eps
      && (path.Diagonal? ==> |path.b| == n)
      && (path.Dc? ==> IsSquare(path.scaledA, n) && path.problem.Valid() && path.problem.n == n)
    }
  }

  /** np.abs(v) > tol */
  function SupportMask(v: Vector, tol: real): (m: seq<bool>)
    ensures |m| == |v|
  {
    seq(|v|, i requires 0 <= i < |v| => tol < Abs(v[i]))
  }

  /** One pass of the loop body on the current iterate: Path 1's closed
      form as lines 129-140 write it, Path 2's step, or Path 3's call problem2(scaledA x, w, |x| > tol). */
  function Step(s: Setup, be: Backend, x: Vector): (r: Result<Vector>)
    requires s.Valid(|x|) && Sound(be)
    ensures r.Ok? ==> |r.value| == |x|
    ensures s.path.Diagonal? ==> r.Err? ==> r.error == NonFinite
    ensures s.path.General? ==> r.Err? ==> r.error == NameError("SBSinv")
  {
    match s.path
    case Diagonal(b) => Path1UpdateAsWritten(s.A, b, x, s.rhoE, s.eps, be.sqrt)
    case General => Path2Step(s.A, x, s.rhoE, s.eps)
    case Dc(sa, p) => p.Call(MatVec(sa, x), Weights(x, s.eps), Some(SupportMask(x, s.tol)), be.l1)
  }

  // ---------------------------------------------------------------------
  // The convergence test (lines 122-126, 143-147, 171-177)

  /** old_x: filled with inf before the loop, then the previous iterate. */
  datatype Prev = Unset | Was(x: Vector)

  predicate Fits(prev: Prev, n: nat) {
    prev.Was? ==> |prev.x| == n
  }

  /** np.linalg.norm(x[mask] - old_x[mask]) < tol with mask = |old_x| > tol.
      With old_x all inf every coordinate is in the mask and the norm is inf,
      unless x is empty and the norm is 0. Over the reals, norm < tol is
      0 < tol and a sum of squares below tol^2. */
  predicate Converged(x: Vector, prev: Prev, tol: real)
    requires Fits(prev, |x|)
  {
    match prev
    case Unset => |x| == 0 && 0.0 < tol
    case Was(o) =>
      var m := SupportMask(o, tol);
      var d := Diff(Select(x, m), Select(o, m));
      0.0 < tol && Dot(d, d) < tol * tol
  }

  /** The test passes only for tol > 0, and an iterate that equals old_x
      passes it exactly then: the norm of x[mask] - x[mask] is 0. */
  lemma {:induction false} ConvergedRepeat(x: Vector, prev: Prev, tol: real)
    requires Fits(prev, |x|)
    ensures Converged(x, prev, tol) ==> 0.0 < tol
    ensures prev == Was(x) ==> (Converged(x, prev, tol) <==> 0.0 < tol)
  {
    if prev == Was(x) && 0.0 < tol {
      var m := SupportMask(x, tol);
      var d := Diff(Select(x, m), Select(x, m));
      DiffSelfDot(Select(x, m), Select(x, m));
      BelowSquare(Dot(d, d), tol);
    }
  }

  lemma {:induction false} DiffSelfDot(u: Vector, v: Vector)
    requires |u| == |v|
    ensures u == v ==> Dot(Diff(u, v), Diff(u, v)) == 0.0
  {
    if u == v {
      assert Diff(u, v) == Zeros(|u|);
      DotZeroRight(Diff(u, v));
    }
  }


  /** Where the loop stops: the last iterate, the old_x beside it, and how
      many updates were made. */
  datatype LoopEnd = LoopEnd(x: Vector, prev: Prev, updates: nat)

  /** The loop from iterate x with `fuel` passes left and `done` updates
      made. It stops at the cap or at a passing check, and an exception in
      an update ends it. */
  function Run(s: Setup, be: Backend, x: Vector, prev: Prev, fuel: nat, done: nat): (r: Result<LoopEnd>)
    requires s.Valid(|x|) && Sound(be) && Fits(prev, |x|)
    ensures r.Ok? ==> |r.value.x| == |x| && Fits(r.value.prev, |x|)
    ensures r.Ok? ==> done <= r.value.updates <= done + fuel
    ensures r.Ok? ==> r.value.updates == done + fuel || Converged(r.value.x, r.value.prev, s.tol)
    decreases fuel
  {
    if fuel == 0 || Converged(x, prev, s.tol) then Ok(LoopEnd(x, prev, done))
    else
      match Step(s, be, x)
      case Err(e) => Err(e)
      case Ok(x') => Run(s, be, x', Was(x), fuel - 1, done + 1)
  }

  /** One pass of the loop body, Path 3's call run in place. */
  method Advance(s: Setup, be: Backend, x: Vector) returns (next: Result<Vector>)
    requires s.Valid(|x|) && Sound(be)
    ensures next == Step(s, be, x)
  {
    match s.path {
      case Dc(sa, p) =>
        next := p.Invoke(MatVec(sa, x), Weights(x, s.eps), Some(SupportMask(x, s.tol)), be.l1);
      case _ =>
        next := Step(s, be, x);
    }
  }

  /** One pass of the loop past a failing check: an error in the update ends
      the loop, otherwise it goes on from the new iterate. */
  lemma {:induction false} RunPass(s: Setup, be: Backend, x: Vector, prev: Prev, fuel: nat, done: nat)
    requires s.Valid(|x|) && Sound(be) && Fits(prev, |x|) && 0 < fuel && !Converged(x, prev, s.tol)
    ensures Step(s, be, x).Err? ==> Run(s, be, x, prev, fuel, done) == Err(Step(s, be, x).error)
    ensures Step(s, be, x).Ok? ==>
      Run(s, be, x, prev, fuel, done) == Run(s, be, Step(s, be, x).value, Was(x), fuel - 1, done + 1)
  {
  }

  /** The loop of each path, old_x.fill(np.inf) included. */
  method Iterate(s: Setup, be: Backend, x0: Vector, fuel: nat) returns (r: Result<LoopEnd>)
    requires s.Valid(|x0|) && Sound(be)
    ensures r == Run(s, be, x0, Unset, fuel, 0)
  {
    var x, prev, i := x0, Unset, 0;
    ghost var rest: nat := fuel;
    while i < fuel && !Converged(x, prev, s.tol)
      invariant 0 <= i <= fuel && rest == fuel - i && |x| == |x0| && Fits(prev, |x0|)
      invariant Run(s, be, x, prev, rest, i) == Run(s, be, x0, Unset, fuel, 0)
    {
      var next := Advance(s, be, x);
      RunPass(s, be, x, prev, rest, i);
      if next.Err? {
        return Err(next.error);
      }
      prev, x, i, rest := Was(x), next.value, i + 1, rest - 1;
    }
    return Ok(LoopEnd(x, prev, i));
  }

  // ---------------------------------------------------------------------
  // Properties of the loop

  /** The first check never stops a non-empty iterate: old_x is all inf. */
  lemma {:induction false} RunStarts(s: Setup, be: Backend, x: Vector, fuel: nat)
    requires s.Valid(|x|) && Sound(be) && 0 < |x| && 0 < fuel
    ensures var r := Run(s, be, x, Unset, fuel, 0);
      r.Ok? ==> 1 <= r.value.updates
    ensures Step(s, be, x).Err? ==> Run(s, be, x, Unset, fuel, 0) == Err(Step(s, be, x).error)
  {
    assert !Converged(x, Unset, s.tol);
    var next := Step(s, be, x);
    if next.Ok? {
      assert Run(s, be, x, Unset, fuel, 0) == Run(s, be, next.value, Was(x), fuel - 1, 1);
    } else {
      assert Run(s, be, x, Unset, fuel, 0) == Err(next.error);
    }
  }

  /** Once the zero vector is both iterate and old_x, the check passes: the
      support of old_x is empty and so is the norm. */
  lemma {:induction false} ZerosConverge(n: nat, tol: real)
    requires 0.0 < tol
    ensures Converged(Zeros(n), Was(Zeros(n)), tol)
  {
    var m := SupportMask(Zeros(n), tol);
    forall i | 0 <= i < n
      ensures !m[i]
    {
      assert Abs(Zeros(n)[i]) == 0.0;
    }
    CountNone(m);
    var d := Diff(Select(Zeros(n), m), Select(Zeros(n), m));
    assert Mul(d, d) == [];
    BelowSquare(Dot(d, d), tol);
  }

  lemma {:induction false} BelowSquare(a: real, t: real)
    requires a == 0.0 && 0.0 < t
    ensures a < t * t
  {
    calc {
      a;
    ==
      0.0;
    <  { ProductSign(t, t); }
      t * t;
    }
  }

  /** With rho_e >= 0 and tol > 0, on either tau == 0 path the zero vector
      stays put: the loop ends at zero after at most one more update, the
      one that makes old_x zero too. */
  lemma {:induction false} ZerosSettle(s: Setup, be: Backend, n: nat, prev: Prev, fuel: nat, done: nat)
    requires s.Valid(n) && Sound(be) && Fits(prev, n) && !s.path.Dc?
    requires 0.0 <= s.rhoE && 0.0 < s.tol
    ensures var r := Run(s, be, Zeros(n), prev, fuel, done);
      r.Ok? && r.value.x == Zeros(n) && r.value.updates <= done + 1
  {
    var z := Zeros(n);
    ZeroIsFixedAt(s, be, n);
    if fuel != 0 && !Converged(z, prev, s.tol) {
      assert Run(s, be, z, prev, fuel, done) == Run(s, be, z, Was(z), fuel - 1, done + 1);
      ZerosConverge(n, s.tol);
      if fuel - 1 != 0 {
        assert Run(s, be, z, Was(z), fuel - 1, done + 1) == Ok(LoopEnd(z, Was(z), done + 1));
      }
    }
  }

  lemma {:induction false} ZeroIsFixedAt(s: Setup, be: Backend, n: nat)
    requires s.Valid(n) && Sound(be) && !s.path.Dc? && 0.0 <= s.rhoE
    ensures Step(s, be, Zeros(n)) == Ok(Zeros(n))
  {
    match s.path
    case Diagonal(b) => ZeroIsFixed(s.A, b, s.rhoE, s.eps, be.sqrt);
    case General => ZeroIsFixed(s.A, Zeros(n), s.rhoE, s.eps, be.sqrt);
  }

  /** Path 2 never gets past its first update: the update raises NameError
      for `SBSinv`, or its guard fails and the iterate becomes zero, where it
      stays. */
  lemma {:induction false} GeneralPathRun(s: Setup, be: Backend, x: Vector, fuel: nat)
    requires s.Valid(|x|) && Sound(be) && s.path.General?
    requires 0.0 <= s.rhoE && 0.0 < s.tol
    ensures var r := Run(s, be, x, Unset, fuel, 0);
      (r.Err? ==> r.error == NameError("SBSinv"))
      && (r.Ok? ==> r.value.x == x || r.value.x == Zeros(|x|))
  {
    if fuel != 0 && !Converged(x, Unset, s.tol) {
      match Step(s, be, x)
      case Err(e) =>
      case Ok(x') =>
        assert x' == Zeros(|x|);
        assert Run(s, be, x, Unset, fuel, 0) == Run(s, be, x', Was(x), fuel - 1, 1);
        ZerosSettle(s, be, |x|, Was(x), fuel - 1, 1);
    }
  }

  // ---------------------------------------------------------------------
  // Variational renormalization (lines 196-215)

  /** Lines 196-215: threshold x at tol, then
      - no coordinate left: (0, zeros(N));
      - one coordinate k left: (A[k,k] / B[k,k], e_k), where a zero B[k,k]
        makes numpy divide by zero;
      - otherwise the eigsh pair of the submatrices, started from x[mask] and
        written back into a zero vector. */
  function Refine(A: Matrix, B: Matrix, x: Vector, tol: real, eigsh: EigshOracle): (r: Result<Eigenpair>)
    requires IsSquare(A, |x|) && IsSquare(B, |x|) && EigshSound(eigsh)
    ensures r.Ok? ==> |r.value.vector| == |x|
    ensures r.Ok? ==> forall i :: 0 <= i < |x| && Abs(x[i]) <= tol ==> r.value.vector[i] == 0.0
    ensures r.Err? ==> 1 <= Count(SupportMask(x, tol))
  {
    var m := SupportMask(x, tol);
    if Count(m) == 0 then Ok(Eigenpair(0.0, Zeros(|x|)))
    else
      var Ak, Bk := SubMatrix(A, m), SubMatrix(B, m);
      if Count(m) == 1 then
        if Bk[0][0] == 0.0 then Err(NonFinite)
        else
          EmbedOffMask(m, [1.0]);
          Ok(Eigenpair(Ak[0][0] / Bk[0][0], Embed(m, [1.0])))
      else
        match eigsh(Ak, Bk, Select(x, m))
        case Err(e) => Err(e)
        case Ok(p) =>
          EmbedOffMask(m, p.vector);
          Ok(Eigenpair(p.value, Embed(m, p.vector)))
  }

  /** `v = np.zeros(length); v[mask] = ...`, filled in place. */
  method Renormalize(A: Matrix, B: Matrix, x: Vector, tol: real, eigsh: EigshOracle) returns (r: Result<Eigenpair>)
    requires IsSquare(A, |x|) && IsSquare(B, |x|) && EigshSound(eigsh)
    ensures r == Refine(A, B, x, tol, eigsh)
  {
    var m := SupportMask(x, tol);
    if Count(m) == 0 {
      return Ok(Eigenpair(0.0, Zeros(|x|)));
    }
    var Ak, Bk := SubMatrix(A, m), SubMatrix(B, m);
    if Count(m) == 1 {
      if Bk[0][0] == 0.0 {
        return Err(NonFinite);
      }
      var v := Scatter(m, [1.0]);
      return Ok(Eigenpair(Ak[0][0] / Bk[0][0], v));
    }
    var out := eigsh(Ak, Bk, Select(x, m));
    if out.Err? {
      return Err(out.error);
    }
    var v := Scatter(m, out.value.vector);
    return Ok(Eigenpair(out.value.value, v));
  }

  /** e_k */
  function Unit(n: nat, k: nat): (e: Vector)
    ensures |e| == n
  {
    seq(n, i requires 0 <= i < n => if i == k then 1.0 else 0.0)
  }

  /** Nothing above tol: (0, zeros(N)). */
  lemma {:induction false} RefineEmpty(A: Matrix, B: Matrix, x: Vector, tol: real, eigsh: EigshOracle)
    requires IsSquare(A, |x|) && IsSquare(B, |x|) && EigshSound(eigsh)
    requires forall i :: 0 <= i < |x| ==> Abs(x[i]) <= tol
    ensures Refine(A, B, x, tol, eigsh) == Ok(Eigenpair(0.0, Zeros(|x|)))
  {
    CountNone(SupportMask(x, tol));
  }

  /** Only x_k above tol: (A[k,k] / B[k,k], e_k), or a division by zero. */
  lemma {:induction false} RefineSingleton(A: Matrix, B: Matrix, x: Vector, tol: real, eigsh: EigshOracle, k: nat)
    requires IsSquare(A, |x|) && IsSquare(B, |x|) && EigshSound(eigsh) && k < |x|
    requires forall i :: 0 <= i < |x| ==> (tol < Abs(x[i]) <==> i == k)
    ensures B[k][k] == 0.0 ==> Refine(A, B, x, tol, eigsh) == Err(NonFinite)
    ensures B[k][k] != 0.0 ==> Refine(A, B, x, tol, eigsh) == Ok(Eigenpair(A[k][k] / B[k][k], Unit(|x|, k)))
  {
    var m := SupportMask(x, tol);
    CountSingle(m, k);
    CountNone(m[..k]);
    SubMatrixRow(A, m, k);
    SubMatrixRow(B, m, k);
    SelectAt(A[k], m, k);
    SelectAt(B[k], m, k);
    var e := Embed(m, [1.0]);
    forall i | 0 <= i < |x|
      ensures e[i] == Unit(|x|, k)[i]
    {
      EmbedAt(m, [1.0], i);
    }
    assert e == Unit(|x|, k);
  }

  /** A mask with exactly one true entry counts one. */
  lemma {:induction false} CountSingle(m: seq<bool>, k: nat)
    requires k < |m| && forall i :: 0 <= i < |m| ==> (m[i] <==> i == k)
    ensures Count(m) == 1
    decreases |m|
  {
    var n := |m|;
    if k == n - 1 {
      CountNone(m[..n - 1]);
    } else {
      CountSingle(m[..n - 1], k);
    }
  }

  /** Two or more coordinates above tol: the eigenvalue is eigsh's, and the
      vector holds eigsh's eigenvector on the support, in increasing index
      order. */
  lemma {:induction false} RefineGeneral(A: Matrix, B: Matrix, x: Vector, tol: real, eigsh: EigshOracle)
    requires IsSquare(A, |x|) && IsSquare(B, |x|) && EigshSound(eigsh)
    requires 2 <= Count(SupportMask(x, tol))
    ensures var m := SupportMask(x, tol);
      var out := eigsh(SubMatrix(A, m), SubMatrix(B, m), Select(x, m));
      var r := Refine(A, B, x, tol, eigsh);
      (r.Err? <==> out.Err?)
      && (r.Ok? ==> r.value.value == out.value.value && Select(r.value.vector, m) == out.value.vector)
  {
    var m := SupportMask(x, tol);
    var out := eigsh(SubMatrix(A, m), SubMatrix(B, m), Select(x, m));
    if out.Ok? {
      SelectEmbed(m, out.value.vector);
    }
  }

  /** On a coordinate the mask keeps, a vector that is zero off the mask
      acts through the submatrix. */
  lemma {:induction false} MaskedRow(A: Matrix, m: seq<bool>, u: Vector, i: nat)
    requires IsSquare(A, |m|) && |u| == Count(m) && i < |m| && m[i]
    ensures Count(m[..i]) < |u|
    ensures MatVec(A, Embed(m, u))[i] == MatVec(SubMatrix(A, m), u)[Count(m[..i])]
  {
    DotEmbed(A[i], m, u);
    SubMatrixRow(A, m, i);
  }

  /** The refined pair solves A v == lambda B v on every coordinate of the
      support (Proposition 1 of Sriperumbudur et al.): for eigsh's pair of
      the submatrices, and for (A[k,k] / B[k,k], e_k) on a single
      coordinate. */
  lemma {:induction false} RefineEigen(A: Matrix, B: Matrix, x: Vector, tol: real, eigsh: EigshOracle, i: nat)
    requires IsSquare(A, |x|) && IsSquare(B, |x|) && EigshSound(eigsh)
    requires i < |x| && tol < Abs(x[i]) && Refine(A, B, x, tol, eigsh).Ok?
    ensures SolvesAt(A, B, Refine(A, B, x, tol, eigsh).value, i)
  {
    var m := SupportMask(x, tol);
    SelectAt(x, m, i);
    if Count(m) == 1 {
      RefineEigenSingle(A, B, x, tol, eigsh, i);
    } else {
      RefineEigenMany(A, B, x, tol, eigsh, i);
    }
  }

  lemma {:induction false} RefineEigenSingle(A: Matrix, B: Matrix, x: Vector, tol: real, eigsh: EigshOracle, i: nat)
    requires IsSquare(A, |x|) && IsSquare(B, |x|) && EigshSound(eigsh)
    requires i < |x| && tol < Abs(x[i]) && Refine(A, B, x, tol, eigsh).Ok?
    requires Count(SupportMask(x, tol)) == 1
    ensures SolvesAt(A, B, Refine(A, B, x, tol, eigsh).value, i)
  {
    var m := SupportMask(x, tol);
    var Ak, Bk := SubMatrix(A, m), SubMatrix(B, m);
    var p := Eigenpair(Ak[0][0] / Bk[0][0], [1.0]);
    assert Refine(A, B, x, tol, eigsh) == Ok(Eigenpair(p.value, Embed(m, p.vector)));
    SingleEigen(Ak, Bk);
    MaskedEigen(A, B, m, p, i);
  }

  lemma {:induction false} RefineEigenMany(A: Matrix, B: Matrix, x: Vector, tol: real, eigsh: EigshOracle, i: nat)
    requires IsSquare(A, |x|) && IsSquare(B, |x|) && EigshSound(eigsh)
    requires i < |x| && tol < Abs(x[i]) && Refine(A, B, x, tol, eigsh).Ok?
    requires 2 <= Count(SupportMask(x, tol))
    ensures SolvesAt(A, B, Refine(A, B, x, tol, eigsh).value, i)
  {
    var m := SupportMask(x, tol);
    var p := EigshPair(A, B, x, tol, eigsh);
    MaskedEigen(A, B, m, p, i);
  }

  /** With two or more coordinates kept, a successful refinement is eigsh's
      pair of the submatrices, written back into a zero vector. */
  lemma {:induction false} EigshPair(A: Matrix, B: Matrix, x: Vector, tol: real, eigsh: EigshOracle) returns (p: Eigenpair)
    requires IsSquare(A, |x|) && IsSquare(B, |x|) && EigshSound(eigsh)
    requires Refine(A, B, x, tol, eigsh).Ok? && 2 <= Count(SupportMask(x, tol))
    ensures var m := SupportMask(x, tol);
      |p.vector| == Count(m) && IsEigenpair(SubMatrix(A, m), SubMatrix(B, m), p)
      && Refine(A, B, x, tol, eigsh) == Ok(Eigenpair(p.value, Embed(m, p.vector)))
  {
    var m := SupportMask(x, tol);
    p := eigsh(SubMatrix(A, m), SubMatrix(B, m), Select(x, m)).value;
  }

  /** An eigenpair of the submatrices, written back into a zero vector,
      solves the full equation on every coordinate of the mask. */
  lemma {:induction false} MaskedEigen(A: Matrix, B: Matrix, m: seq<bool>, p: Eigenpair, i: nat)
    requires IsSquare(A, |m|) && IsSquare(B, |m|) && |p.vector| == Count(m)
    requires IsEigenpair(SubMatrix(A, m), SubMatrix(B, m), p)
    requires i < |m| && m[i]
    ensures SolvesAt(A, B, Eigenpair(p.value, Embed(m, p.vector)), i)
  {
    MaskedRow(A, m, p.vector, i);
    MaskedRow(B, m, p.vector, i);
    assert SolvesAt(SubMatrix(A, m), SubMatrix(B, m), p, Count(m[..i]));
  }

  /** A 1 x 1 pencil with b != 0 has the eigenpair (a / b, [1]). */
  lemma {:induction false} SingleEigen(Ak: Matrix, Bk: Matrix)
    requires IsSquare(Ak, 1) && IsSquare(Bk, 1) && Bk[0][0] != 0.0
    ensures IsEigenpair(Ak, Bk, Eigenpair(Ak[0][0] / Bk[0][0], [1.0]))
  {
    DotSingle(Ak[0], [1.0]);
    DotSingle(Bk[0], [1.0]);
    DivTimes(Ak[0][0], Bk[0][0]);
  }

  lemma {:induction false} DotSingle(u: Vector, v: Vector)
    requires |u| == |v| == 1 && v[0] == 1.0
    ensures Dot(u, v) == u[0]
  {
    DotLast(u, v);
  }

  lemma {:induction false} DivTimes(a: real, d: real)
    requires d != 0.0
    ensures a == a / d * d
  {
  }

  // ---------------------------------------------------------------------
  // The driver (lines 43-215)

  /** for i in range(maxiter): no pass at all when maxiter <= 0. */
  function Fuel(maxiter: int): nat {
    if maxiter < 0 then 0 else maxiter
  }

  /** speigh(A, B, v_init, rho, eps, tol, tau, maxiter, greedy): rho_e, the
      path, the loop from v_init with old_x all inf, then the
      renormalization of the last iterate. */
  function SpeighResult(A: Matrix, B: Matrix, vInit: Vector, rho: real, eps: real, tol: real,
                        tau: Option<real>, maxiter: int, greedy: bool, be: Backend): (r: Result<Eigenpair>)
    requires IsSquare(A, |vInit|) && IsSquare(B, |vInit|) && 0.0 < eps && Sound(be)
    ensures tau.None? ==> r == Err(TypeError)
    ensures r.Ok? ==> |r.value.vector| == |vInit|
  {
    var rhoE := RhoE(rho, eps, be.log);
    match SelectPath(A, B, rhoE, tau, greedy)
    case Err(e) => Err(e)
    case Ok(path) =>
      var s := Setup(A, path, rhoE, eps, tol);
      match Run(s, be, vInit, Unset, Fuel(maxiter), 0)
      case Err(e) => Err(e)
      case Ok(end) => Refine(A, B, end.x, tol, be.eigsh)
  }

  /** The driver itself: the loop runs in place, and the final vector is
      filled through its mask. */
  method Speigh(A: Matrix, B: Matrix, vInit: Vector, rho: real, eps: real, tol: real,
                tau: Option<real>, maxiter: int, greedy: bool, be: Backend) returns (r: Result<Eigenpair>)
    requires IsSquare(A, |vInit|) && IsSquare(B, |vInit|) && 0.0 < eps && Sound(be)
    ensures r == SpeighResult(A, B, vInit, rho, eps, tol, tau, maxiter, greedy, be)
  {
    var rhoE := RhoE(rho, eps, be.log);
    var path := SelectPath(A, B, rhoE, tau, greedy);
    if path.Err? {
      return Err(path.error);
    }
    var s := Setup(A, path.value, rhoE, eps, tol);
    var end := Iterate(s, be, vInit, Fuel(maxiter));
    if end.Err? {
      return Err(end.error);
    }
    r := Renormalize(A, B, end.value.x, tol, be.eigsh);
  }

  /** The returned pair solves A v == lambda B v on every coordinate where v
      is non-zero. */
  lemma {:induction false} SpeighEigen(A: Matrix, B: Matrix, vInit: Vector, rho: real, eps: real, tol: real,
                                       tau: Option<real>, maxiter: int, greedy: bool, be: Backend, i: nat)
    requires IsSquare(A, |vInit|) && IsSquare(B, |vInit|) && 0.0 < eps && Sound(be)
    requires var r := SpeighResult(A, B, vInit, rho, eps, tol, tau, maxiter, greedy, be);
      r.Ok? && i < |vInit| && r.value.vector[i] != 0.0
    ensures SolvesAt(A, B, SpeighResult(A, B, vInit, rho, eps, tol, tau, maxiter, greedy, be).value, i)
  {
    var rhoE := RhoE(rho, eps, be.log);
    var path := SelectPath(A, B, rhoE, tau, greedy).value;
    var s := Setup(A, path, rhoE, eps, tol);
    var end := Run(s, be, vInit, Unset, Fuel(maxiter), 0).value;
    assert SpeighResult(A, B, vInit, rho, eps, tol, tau, maxiter, greedy, be) == Refine(A, B, end.x, tol, be.eigsh);
    RefineEigen(A, B, end.x, tol, be.eigsh, i);
  }

  /** With no pass of the loop (maxiter <= 0), the result is the
      renormalization of v_init itself. */
  lemma {:induction false} SpeighNoPass(A: Matrix, B: Matrix, vInit: Vector, rho: real, eps: real, tol: real,
                                        tau: Option<real>, maxiter: int, greedy: bool, be: Backend)
    requires IsSquare(A, |vInit|) && IsSquare(B, |vInit|) && 0.0 < eps && Sound(be)
    requires tau.Some? && maxiter <= 0
    ensures SpeighResult(A, B, vInit, rho, eps, tol, tau, maxiter, greedy, be) == Refine(A, B, vInit, tol, be.eigsh)
  {
    var rhoE := RhoE(rho, eps, be.log);
    var path := SelectPath(A, B, rhoE, tau, greedy).value;
    var s := Setup(A, path, rhoE, eps, tol);
    assert Run(s, be, vInit, Unset, 0, 0) == Ok(LoopEnd(vInit, Unset, 0));
  }

  /** With tau == 0, rho >= 0 and tol > 0, starting from the zero vector
      gives back the zero pair (0, zeros(N)). */
  lemma {:induction false} SpeighFromZero(A: Matrix, B: Matrix, n: nat, rho: real, eps: real, tol: real,
                                          maxiter: int, greedy: bool, be: Backend)
    requires IsSquare(A, n) && IsSquare(B, n) && 0.0 < eps && Sound(be)
    requires 0.0 <= rho && 0.0 < tol
    ensures SpeighResult(A, B, Zeros(n), rho, eps, tol, Some(0.0), maxiter, greedy, be) == Ok(Eigenpair(0.0, Zeros(n)))
  {
    var rhoE := RhoE(rho, eps, be.log);
    var path := SelectPath(A, B, rhoE, Some(0.0), greedy).value;
    var s := Setup(A, path, rhoE, eps, tol);
    ZerosSettle(s, be, n, Unset, Fuel(maxiter), 0);
    RefineEmpty(A, B, Zeros(n), tol, be.eigsh);
  }

  /** Path 2 (tau == 0, B not diagonal, rho >= 0, tol > 0) ends in one of
      three ways: the NameError for `SBSinv`, the renormalization of v_init
      unchanged, or the zero pair. */
  lemma {:induction false} SpeighGeneralPath(A: Matrix, B: Matrix, vInit: Vector, rho: real, eps: real, tol: real,
                                             maxiter: int, greedy: bool, be: Backend)
    requires IsSquare(A, |vInit|) && IsSquare(B, |vInit|) && 0.0 < eps && Sound(be)
    requires !IsDiagonal(B) && 0.0 <= rho && 0.0 < tol
    ensures var r := SpeighResult(A, B, vInit, rho, eps, tol, Some(0.0), maxiter, greedy, be);
      r == Err(NameError("SBSinv")) || r == Refine(A, B, vInit, tol, be.eigsh)
      || r == Ok(Eigenpair(0.0, Zeros(|vInit|)))
  {
    var rhoE := RhoE(rho, eps, be.log);
    var s := Setup(A, General, rhoE, eps, tol);
    var run := Run(s, be, vInit, Unset, Fuel(maxiter), 0);
    GeneralPathRun(s, be, vInit, Fuel(maxiter));
    if run.Ok? && run.value.x == Zeros(|vInit|) {
      RefineEmpty(A, B, Zeros(|vInit|), tol, be.eigsh);
    }
  }

  /** Path 1 runs lines 129-140 as written. With A = B = I, v_init = (1, 0),
      eps = 1, rho = log(2) (so rho_e = 1), tol = 0.9 and one pass, the
      iterate (0.75 / sqrt(0.8125), 0) falls below tol everywhere, and the
      result is (0, zeros(2)). */
  lemma {:induction false} SpeighPath1Example(greedy: bool, be: Backend)
    requires Sound(be)
    ensures SpeighResult(Identity2(), Identity2(), [1.0, 0.0], be.log(2.0), 1.0, 0.9, Some(0.0), 1, greedy, be)
      == Ok(Eigenpair(0.0, Zeros(2)))
  {
    var I, x := Identity2(), [1.0, 0.0];
    var v := [0.75 / be.sqrt(0.8125), 0.0];
    ExampleRhoE(be.log);
    ExamplePath(greedy);
    var s := Setup(I, Diagonal([1.0, 1.0]), 1.0, 1.0, 0.9);
    ExampleRun(s, be);
    assert Fuel(1) == 1;
    DivPositive(0.75, be.sqrt(0.8125));
    assert Abs(v[0]) <= 0.9 && Abs(v[1]) <= 0.9;
    RefineEmpty(I, I, v, 0.9, be.eigsh);
    assert SpeighResult(I, I, x, be.log(2.0), 1.0, 0.9, Some(0.0), 1, greedy, be) == Refine(I, I, v, 0.9, be.eigsh);
  }

  lemma {:induction false} ExampleRhoE(log: real -> real)
    requires LogSound(log)
    ensures RhoE(log(2.0), 1.0, log) == 1.0
  {
    assert 1.0 + 1.0 / 1.0 == 2.0;
    DivSelf(log(2.0));
  }

  lemma {:induction false} ExamplePath(greedy: bool)
    ensures SelectPath(Identity2(), Identity2(), 1.0, Some(0.0), greedy) == Ok(Diagonal([1.0, 1.0]))
  {
    var I := Identity2();
    assert Diag(I) == [1.0, 1.0];
    DiagonalTest(I);
    assert IsDiagonal(I);
  }

  lemma {:induction false} ExampleRun(s: Setup, be: Backend)
    requires Sound(be) && s == Setup(Identity2(), Diagonal([1.0, 1.0]), 1.0, 1.0, 0.9)
    ensures s.Valid(2) && RootOf(be.sqrt(0.8125), 0.8125) && 0.75 / be.sqrt(0.8125) <= 0.9
    ensures Run(s, be, [1.0, 0.0], Unset, 1, 0)
      == Ok(LoopEnd([0.75 / be.sqrt(0.8125), 0.0], Was([1.0, 0.0]), 1))
  {
    var x := [1.0, 0.0];
    NormalisationAsWrittenIterate(be.sqrt);
    var v := [0.75 / be.sqrt(0.8125), 0.0];
    assert Step(s, be, x) == Ok(v);
    assert !Converged(x, Unset, 0.9);
  }
}
