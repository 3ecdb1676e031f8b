/** Errors, solver statuses and the two convex subproblems of Algorithm 1:
    `problem1` (line 20 of the algorithm) and `Problem2` (line 31). The
    convex solver itself (cvxpy with SCS) is foreign code: it is an oracle
    passed in as a function value, and the model keeps only the checks the
    Python code performs around it. */
module Solvers {
  import opened Linalg

  /** The values of `problem.status` that cvxpy reports. */
  datatype Status =
    | Optimal
    | OptimalInaccurate
    | Infeasible
    | InfeasibleInaccurate
    | Unbounded
    | UnboundedInaccurate
    | SolverError

  /** The statuses the code accepts; any other raises ValueError(status). */
  predicate Accepted(st: Status) {
    st == Optimal || st == OptimalInaccurate
  }

  /** The exceptions the modelled code raises. NonFinite stands for a numpy
      result that holds inf or nan (a division by zero, or the square root of
      a negative number): numpy warns and goes on, it does not raise. */
  datatype Error =
    | AssertionError
    | ValueError(status: Status)
    | TypeError
    | NameError(name: string)
    | IndexError
    | NonFinite

  datatype Result<T> = Ok(value: T) | Err(error: Error)

  datatype Option<T> = None | Some(value: T)

  /** What the solver leaves behind: `problem.status` and `x.value`. */
  datatype SolverOutput = SolverOutput(status: Status, value: Vector)

  /** argmin_x (x + gamma)^T A (x + gamma) s.t. x >= 0, as solved by cvxpy. */
  type QpOracle = (Matrix, Vector) -> SolverOutput

  /** min ||x - y||^2 + c ||diag(w) x||_1 s.t. x^T B x <= 1, as solved by cvxpy. */
  type L1Oracle = (Matrix, Vector, Vector, real) -> SolverOutput

  /** cvxpy hands back a value with as many entries as the variable it was
      asked for; nothing more is assumed of the solvers. */
  ghost predicate QpSound(qp: QpOracle) {
    forall A, gamma :: |qp(A, gamma).value| == |gamma|
  }

  ghost predicate L1Sound(l1: L1Oracle) {
    forall B, y, w, c :: |l1(B, y, w, c).value| == |y|
  }

  /** problem1(A, gamma): check the shapes, solve, check the status. */
  function Problem1(A: Matrix, gamma: Vector, qp: QpOracle): (r: Result<Vector>)
    requires QpSound(qp)
    ensures r == Err(AssertionError) <==> !IsSquare(A, |gamma|)
    ensures r.Err? && r.error.ValueError? ==> !Accepted(r.error.status)
    ensures IsSquare(A, |gamma|) ==>
      (r.Ok? <==> Accepted(qp(A, gamma).status))
    ensures IsSquare(A, |gamma|) && !Accepted(qp(A, gamma).status) ==>
      r == Err(ValueError(qp(A, gamma).status))
    ensures r.Ok? ==> |r.value| == |gamma|
  {
    if !IsSquare(A, |gamma|) then Err(AssertionError)
    else
      var out := qp(A, gamma);
      if !Accepted(out.status) then Err(ValueError(out.status)) else Ok(out.value)
  }

  /** Problem2 keeps B, c, n and the `sparse` flag as they were given; none
      of them is updated afterwards. */
  datatype Problem2 = Problem2(c: real, B: Matrix, n: nat, sparse: bool)
  {
    /** B is square with n rows, as the quadratic constraint needs. */
    predicate Valid() {
      n == |B| && IsSquare(B, n)
    }

    /** solve(y, w): the dense problem over all n coordinates. */
    function Solve(y: Vector, w: Vector, l1: L1Oracle): (r: Result<Vector>)
      requires L1Sound(l1)
      ensures r == Err(AssertionError) <==> |y| != |w| || |w| != n
      ensures r.Err? && r.error.ValueError? ==> !Accepted(r.error.status)
      ensures |y| == |w| == n ==> (r.Ok? <==> Accepted(l1(B, y, w, c).status))
      ensures |y| == |w| == n && !Accepted(l1(B, y, w, c).status) ==>
        r == Err(ValueError(l1(B, y, w, c).status))
      ensures r.Ok? ==> |r.value| == n
    {
      if |y| != |w| || |w| != n then Err(AssertionError)
      else
        var out := l1(B, y, w, c);
        if !Accepted(out.status) then Err(ValueError(out.status)) else Ok(out.value)
    }

    /** solve_sparse(y, w, mask): the same problem over the coordinates the
        mask keeps, with the answer written back into a zero vector. */
    function SparseSolution(y: Vector, w: Vector, mask: seq<bool>, l1: L1Oracle): (r: Result<Vector>)
      requires Valid() && L1Sound(l1)
      ensures r == Err(AssertionError) <==> |y| != |w| || |w| != n
      ensures r == Err(IndexError) <==> |y| == |w| == n && |mask| != n
      ensures r.Err? && r.error.ValueError? ==> !Accepted(r.error.status)
      ensures |y| == |w| == n == |mask| ==>
        var st := l1(SubMatrix(B, mask), Select(y, mask), Select(w, mask), c).status;
        (r.Ok? <==> Accepted(st)) && (!Accepted(st) ==> r == Err(ValueError(st)))
    {
      if |y| != |w| || |w| != n then Err(AssertionError)
      else if |mask| != |y| then Err(IndexError)
      else
        var out := l1(SubMatrix(B, mask), Select(y, mask), Select(w, mask), c);
        if !Accepted(out.status) then Err(ValueError(out.status))
        else Ok(Embed(mask, out.value))
    }

    /** __call__(y, w, x_mask): the sparse solver only when a mask is given
        and the problem was built with sparse=True. */
    function Call(y: Vector, w: Vector, mask: Option<seq<bool>>, l1: L1Oracle): (r: Result<Vector>)
      requires Valid() && L1Sound(l1)
      ensures r.Ok? ==> |r.value| == n
      ensures mask.None? || !sparse ==> r == Solve(y, w, l1)
      ensures mask.Some? && sparse ==> r == SparseSolution(y, w, mask.value, l1)
    {
      if mask.None? || !sparse then Solve(y, w, l1)
      else
        SparseSolutionShape(y, w, mask.value, l1);
        SparseSolution(y, w, mask.value, l1)
    }

    /** An answer of solve_sparse has n entries, is zero off the mask, and on
        the mask holds the solver's answer to the restricted problem. */
    lemma {:induction false} SparseSolutionShape(y: Vector, w: Vector, mask: seq<bool>, l1: L1Oracle)
      requires Valid() && L1Sound(l1)
      ensures var r := SparseSolution(y, w, mask, l1);
        r.Ok? ==>
          |mask| == n && |r.value| == n
          && (forall i :: 0 <= i < n && !mask[i] ==> r.value[i] == 0.0)
          && Select(r.value, mask)
             == l1(SubMatrix(B, mask), Select(y, mask), Select(w, mask), c).value
    {
      var r := SparseSolution(y, w, mask, l1);
      if r.Ok? {
        var v := l1(SubMatrix(B, mask), Select(y, mask), Select(w, mask), c).value;
        EmbedOffMask(mask, v);
        SelectEmbed(mask, v);
      }
    }

    /** With every coordinate selected, solve_sparse and solve agree. */
    lemma {:induction false} SparseSolutionFullMask(y: Vector, w: Vector, mask: seq<bool>, l1: L1Oracle)
      requires Valid() && L1Sound(l1)
      requires |mask| == n && forall i :: 0 <= i < n ==> mask[i]
      ensures SparseSolution(y, w, mask, l1) == Solve(y, w, l1)
    {
      if |y| == |w| == n {
        SubMatrixAll(B, mask);
        SelectAll(y, mask);
        SelectAll(w, mask);
        var out := l1(B, y, w, c);
        if Accepted(out.status) {
          EmbedAll(mask, out.value);
        }
      }
    }

    /** `out = np.zeros(n); out[x_mask] = x.value`, filled in place. */
    method SolveSparse(y: Vector, w: Vector, mask: seq<bool>, l1: L1Oracle) returns (r: Result<Vector>)
      requires Valid() && L1Sound(l1)
      ensures r == SparseSolution(y, w, mask, l1)
    {
      if |y| != |w| || |w| != n {
        return Err(AssertionError);
      }
      if |mask| != |y| {
        return Err(IndexError);
      }
      var out := l1(SubMatrix(B, mask), Select(y, mask), Select(w, mask), c);
      if !Accepted(out.status) {
        return Err(ValueError(out.status));
      }
      var filled := Scatter(mask, out.value);
      return Ok(filled);
    }

    /** __call__, running solve_sparse in place. */
    method Invoke(y: Vector, w: Vector, mask: Option<seq<bool>>, l1: L1Oracle) returns (r: Result<Vector>)
      requires Valid() && L1Sound(l1)
      ensures r == Call(y, w, mask, l1)
    {
      if mask.None? || !sparse {
        return Solve(y, w, l1);
      }
      r := SolveSparse(y, w, mask.value, l1);
    }
  }

  /** Problem2.__init__(B, c, sparse): n is the number of rows of B. */
  function NewProblem2(B: Matrix, c: real, sparse: bool): (p: Problem2)
    ensures IsSquare(B, |B|) ==> p.Valid()
    ensures p.B == B && p.c == c && p.sparse == sparse && p.n == |B|
  {
    Problem2(c, B, |B|, sparse)
  }
}
