# speigh: sparse generalized eigenvectors, modelled in Dafny

`msmbuilder/decomposition/speigh.py` looks for a sparse approximate solution of
the generalized eigenproblem `A v = lambda B v`. It uses the
majorization-minimization algorithm of Sriperumbudur, Torres and Lanckriet
(Algorithm 1, "A majorization-minimization approach to the sparse generalized
eigenvalue problem", Machine Learning 85, 2011). A variational
renormalization then follows on the support that was found. The file also
holds `scdeflate`, Schur complement deflation after Mackey ("Deflation Methods
for Sparse PCA", NIPS 2008).

The model works over `real`, not float64. Vectors are `seq<real>` and matrices
are sequences of rows. The modules are:

- `Linalg` (`linalg.dfy`) holds vectors, matrices, dot products and masks:
  numpy's boolean indexing `v[mask]` (Select), `A[np.ix_(mask, mask)]`
  (SubMatrix) and `out = np.zeros(n); out[mask] = v` (Embed, and the in-place
  method Scatter).
- `Deflation` (`deflation.dfy`) holds `scdeflate` and the identities it rests on.
- `Solvers` (`solvers.dfy`) holds the exceptions, the cvxpy statuses, `problem1`
  and the `Problem2` class. Problem2's fields are set once in `__init__` and
  never updated, so it is a datatype. `solve_sparse` fills its output buffer
  in place through Scatter.
- `Update` (`update.dfy`) holds one iteration when `tau == 0`: Path 1's closed
  form for a diagonal `B`, both as written and corrected (see Findings), and
  Path 2's step.
- `Speigh` (`speigh.dfy`) holds the driver. It computes `rho_e`, selects the
  path, runs the loop with its convergence test (a method with a `while` loop,
  proved against a recursive specification function), thresholds the final
  iterate, and refines it on the submatrices (a method that fills the output
  vector in place).

The foreign routines are function-typed parameters, each with a soundness
predicate that says how much of it is relied on:

- `np.log` is positive above 1;
- `np.sqrt` gives the non-negative root;
- a cvxpy solve returns a vector as long as its variable, together with a
  status;
- `eigsh` returns an eigenpair of the pencil it is given.

A numpy result that holds `inf` or `nan` (a division by zero, the root of a
negative number) is the error `NonFinite`. The model stops there. Python would
carry the `nan` on.

## Model

| member | source | states |
|---|---|---|
| Deflation.Scdeflate | msmbuilder/decomposition/speigh.py:40 | the deflated matrix is N x N whenever x A x is non-zero, the one case where it is defined |
| Deflation.RankOneEntry | msmbuilder/decomposition/speigh.py:40 | entry (i, j) of A - outer(u, v) / q is A[i][j] - u[i] v[j] / q |
| Deflation.RankOneApply | msmbuilder/decomposition/speigh.py:40 | (A - outer(u, v) / q) y equals A y - u (v . y) / q, coordinate by coordinate |
| Deflation.RankOneApplyLeft | msmbuilder/decomposition/speigh.py:40 | y (A - outer(u, v) / q) equals y A - v (y . u) / q, coordinate by coordinate |
| Deflation.DeflateApply | msmbuilder/decomposition/speigh.py:23 | A_new y = A y - (A x)(x A y) / (x A x) for every y |
| Deflation.DeflateNullVector | msmbuilder/decomposition/speigh.py:40 | A_new x and x A_new are both the zero vector |
| Deflation.DeflateQuadFormZero | msmbuilder/decomposition/speigh.py:40 | x A_new x == 0, with the product taken either way round |
| Deflation.DeflateKeepsConjugate | msmbuilder/decomposition/speigh.py:23 | a vector y with x A y == 0 is mapped by A_new exactly as A maps it |
| Deflation.DeflateSymmetric | msmbuilder/decomposition/speigh.py:23-40 | deflating a symmetric A gives a symmetric matrix |
| Solvers.Problem1 | msmbuilder/decomposition/speigh.py:218-235 | AssertionError exactly when A is not square of gamma's length; otherwise success exactly when the solver's status is OPTIMAL or OPTIMAL_INACCURATE, and any other status raises ValueError carrying that status; a result has gamma's length |
| Solvers.NewProblem2 | msmbuilder/decomposition/speigh.py:245-250 | keeps B, c and sparse as given, sets n to the number of rows of B, and is valid for a square B |
| Solvers.Problem2.Solve | msmbuilder/decomposition/speigh.py:258-273 | AssertionError exactly when the shapes of y, w and n disagree; otherwise success exactly on an accepted status, and a rejected status raises ValueError carrying it; a result has n entries |
| Solvers.Problem2.SparseSolution | msmbuilder/decomposition/speigh.py:276-296 | the same AssertionError condition; IndexError exactly when the shapes agree but the mask's length is not n; with all shapes right, success exactly when the restricted problem's status is accepted, and a rejected status raises ValueError carrying it |
| Solvers.Problem2.SparseSolutionShape | msmbuilder/decomposition/speigh.py:280-296 | a result has n entries, is zero off the mask, and holds the solver's answer for the restricted problem on the mask, in index order |
| Solvers.Problem2.SparseSolutionFullMask | msmbuilder/decomposition/speigh.py:258-296 | with every coordinate selected, solve_sparse and solve return the same |
| Solvers.Problem2.SolveSparse | msmbuilder/decomposition/speigh.py:276-296 | filling the zero buffer in place gives SparseSolution's result |
| Solvers.Problem2.Call | msmbuilder/decomposition/speigh.py:252-256 | solve_sparse is used exactly when a mask is given and sparse is set, solve otherwise; a result has n entries |
| Solvers.Problem2.Invoke | msmbuilder/decomposition/speigh.py:252-256 | the in-place call returns Call's result |
| Linalg.Scatter | msmbuilder/decomposition/speigh.py:294-295 | writing v into a zero buffer through the mask gives Embed(mask, v) |
| Linalg.SelectEmbed | msmbuilder/decomposition/speigh.py:213-214 | reading back the masked entries of the filled buffer gives v again |
| Linalg.EmbedOffMask | msmbuilder/decomposition/speigh.py:213-214 | the filled buffer is zero off the mask and has the mask's length |
| Update.Weights | msmbuilder/decomposition/speigh.py:129 | w = 1 / (abs(x) + eps) has x's length and positive entries |
| Update.Path1UpdateAsWritten | msmbuilder/decomposition/speigh.py:129-140 | the update as written returns a vector of x's length, or fails only by a non-finite result; an empty x gives the empty vector, as numpy's division of empty arrays does |
| Update.GuardAsWrittenNegative | msmbuilder/decomposition/speigh.py:133 | GuardAsWritten, the guard as written, rho_e < 2 (abs(Ax) . w**(-1)), always passes for a negative rho_e, and on an empty iterate passes exactly when rho_e < 0 |
| Update.Path1AsWrittenFails | msmbuilder/decomposition/speigh.py:133-138 | with b > 0 the update as written fails exactly when x is non-empty, the summed guard passes and every gamma_i is 0 |
| Update.Path1AsWrittenBounded | msmbuilder/decomposition/speigh.py:129-140 | with b > 0 and rho_e >= 0 a vector returned by the update as written satisfies x^T B x <= 1 |
| Update.Path1Update | msmbuilder/decomposition/speigh.py:129-140 | the corrected update returns a vector of x's length, or fails only by a non-finite result |
| Update.GuardMaxForm | msmbuilder/decomposition/speigh.py:133 | the corrected guard (some gamma_i > 0) is rho_e < 2 max_i abs(Ax_i) / w_i, the guard of Algorithm 1 |
| Update.GuardAsWrittenAdmits | msmbuilder/decomposition/speigh.py:133 | whenever the corrected guard passes, the guard as written passes too |
| Update.Path1Sparsity | msmbuilder/decomposition/speigh.py:129-140 | with b > 0 and rho_e >= 0 the update succeeds; entry i is non-zero exactly when gamma_i > 0, and then has the sign of (Ax)_i |
| Update.Path1SparsityAsWritten | msmbuilder/decomposition/speigh.py:129-140 | whenever the update as written succeeds, its entries follow the same pattern |
| Update.ShrinkPattern | msmbuilder/decomposition/speigh.py:136-138 | max(gamma, 0) sign(Ax) / (b s) with s > 0 is non-zero exactly where gamma > 0, with the sign of Ax there |
| Update.ShrinkNorm | msmbuilder/decomposition/speigh.py:136-138 | for the shrunk vector v, v^T diag(b) v equals the sum of max(gamma, 0)^2 / b divided by s^2 |
| Update.Path1Normalized | msmbuilder/decomposition/speigh.py:136-138 | when the corrected guard passes, the corrected update satisfies x^T B x == 1 for the diagonal B |
| Update.Path2Step | msmbuilder/decomposition/speigh.py:150-167 | the step succeeds exactly when the guard as written fails, and then gives zeros; otherwise it raises NameError for SBSinv |
| Update.ZeroIsFixed | msmbuilder/decomposition/speigh.py:139-140 | with rho_e >= 0, the zero vector is mapped to itself by both Path 1 updates and by Path 2's step |
| Update.GuardSumAsWritten | msmbuilder/decomposition/speigh.py:133 | on A = I, b = (1, 1), x = (1, 1), rho_e = 4, eps = 1 the update as written divides 0 by 0 |
| Update.GuardSumCorrected | msmbuilder/decomposition/speigh.py:133 | on the same input the corrected update returns zeros |
| Update.NormalisationAsWritten | msmbuilder/decomposition/speigh.py:137 | on A = I, b = (1, 1), x = (1, 0), rho_e = 1, eps = 1 the update as written gives x^T B x == 9/13 |
| Update.NormalisationCorrected | msmbuilder/decomposition/speigh.py:137 | on the same input the corrected update gives (1, 0), with x^T B x == 1 |
| Update.NormalisationAsWrittenIterate | msmbuilder/decomposition/speigh.py:135-138 | on the same input the update as written gives (0.75 / sqrt(0.8125), 0), whose first entry is at most 0.9 |
| Speigh.RhoE | msmbuilder/decomposition/speigh.py:115 | rho_e has the sign of rho and is zero exactly when rho is |
| Speigh.DiagonalTest | msmbuilder/decomposition/speigh.py:116-117 | B equals diag(diag(B)) exactly when every entry off the diagonal is zero |
| Speigh.SelectPath | msmbuilder/decomposition/speigh.py:119-173 | TypeError exactly when tau is None; tau == 0 picks Path 1 for a diagonal B and Path 2 otherwise; any other tau picks Path 3, with scaledA[i][j] == A[i][j] / tau + (1 if i == j else 0) and Problem2(B, rho_e / tau, sparse=greedy) |
| Speigh.Step | msmbuilder/decomposition/speigh.py:129-184 | one update keeps the iterate's length; Path 1 runs lines 129-140 as written and fails only by a non-finite result; on Path 2 the only error is NameError for SBSinv |
| Speigh.ConvergedRepeat | msmbuilder/decomposition/speigh.py:124-125 | Converged, the restricted-norm test, passes only for tol > 0, and an iterate equal to old_x passes it exactly when tol > 0 (the same test stands at lines 145-146 and 175-176) |
| Speigh.Run | msmbuilder/decomposition/speigh.py:122-184 | the loop keeps the length, makes at most maxiter updates, and stops early only when the restricted norm is below tol |
| Speigh.Advance | msmbuilder/decomposition/speigh.py:128-183 | one pass of the loop body, with Path 3's problem2 call filling its buffer in place, returns Step's result |
| Speigh.Iterate | msmbuilder/decomposition/speigh.py:122-184 | the imperative loop, with old_x filled with inf first, returns Run's result |
| Speigh.RunStarts | msmbuilder/decomposition/speigh.py:122-126 | the first check never stops a non-empty iterate, so at least one update is made; an error in that update is the loop's error |
| Speigh.ZerosConverge | msmbuilder/decomposition/speigh.py:124-126 | with zero as both iterate and old_x, the check passes for any tol > 0 |
| Speigh.ZerosSettle | msmbuilder/decomposition/speigh.py:122-140 | on either tau == 0 path with rho_e >= 0 and tol > 0, a loop at zero ends at zero after at most one more update |
| Speigh.ZeroIsFixedAt | msmbuilder/decomposition/speigh.py:139-140 | with rho_e >= 0 the update on either tau == 0 path maps zero to zero |
| Speigh.GeneralPathRun | msmbuilder/decomposition/speigh.py:141-167 | Path 2's loop either raises NameError for SBSinv or ends at v_init or at zero |
| Speigh.Refine | msmbuilder/decomposition/speigh.py:196-215 | the refined vector has length N and is zero wherever abs(x_i) <= tol; an error needs a non-empty support |
| Speigh.Renormalize | msmbuilder/decomposition/speigh.py:196-215 | filling the zero vector in place returns Refine's result |
| Speigh.RefineEmpty | msmbuilder/decomposition/speigh.py:202-203 | an empty support gives (0, zeros(N)) |
| Speigh.RefineSingleton | msmbuilder/decomposition/speigh.py:204-207 | a support {k} gives (A[k,k] / B[k,k], e_k), or a non-finite result when B[k,k] == 0 |
| Speigh.RefineGeneral | msmbuilder/decomposition/speigh.py:209-215 | with two or more coordinates the result fails exactly when eigsh does; otherwise its value is eigsh's and its masked entries, in index order, are eigsh's vector |
| Speigh.EigshPair | msmbuilder/decomposition/speigh.py:209-215 | a successful general refinement is an eigenpair of the submatrices written back into a zero vector |
| Speigh.MaskedEigen | msmbuilder/decomposition/speigh.py:198-215 | an eigenpair of the submatrices, written back, solves A v == lambda B v on every coordinate of the mask |
| Speigh.SingleEigen | msmbuilder/decomposition/speigh.py:207 | (a / b, [1]) is an eigenpair of the 1 x 1 pencil (a, b) when b != 0 |
| Speigh.RefineEigen | msmbuilder/decomposition/speigh.py:196-215 | the refined pair solves A v == lambda B v on every coordinate whose abs(x_i) exceeds tol |
| Speigh.SpeighResult | msmbuilder/decomposition/speigh.py:43-215 | speigh with the default tau=None raises TypeError; a returned vector has length N |
| Speigh.Speigh | msmbuilder/decomposition/speigh.py:43-215 | the driver, with its in-place loop and fill, returns SpeighResult's result |
| Speigh.SpeighEigen | msmbuilder/decomposition/speigh.py:196-215 | the returned pair solves A v == lambda B v on every coordinate where v is non-zero |
| Speigh.SpeighNoPass | msmbuilder/decomposition/speigh.py:123 | with maxiter <= 0 the result is the refinement of v_init itself |
| Speigh.SpeighFromZero | msmbuilder/decomposition/speigh.py:119-167 | with tau == 0, rho >= 0 and tol > 0, starting from zero returns (0, zeros(N)) |
| Speigh.SpeighGeneralPath | msmbuilder/decomposition/speigh.py:141-167 | on Path 2 (rho >= 0, tol > 0) the result is the NameError for SBSinv, the refinement of v_init, or (0, zeros(N)) |
| Speigh.SpeighPath1Example | msmbuilder/decomposition/speigh.py:119-215 | with A = B = I, v_init = (1, 0), eps = 1, rho = log 2, tol = 0.9, tau = 0 and maxiter = 1, Path 1 as written leaves no entry above tol and speigh returns (0, zeros(2)) |

## Left out

- Floating point. The model is over `real`. A numpy `inf` or `nan` is the error
  `NonFinite`, and the model stops there. Python goes on with a `nan` vector,
  and a later comparison with it is false. Rounding, and any claim about
  numerical accuracy, are not modelled.
- The cvxpy optimisations inside `problem1`, `Problem2.solve` and
  `Problem2.solve_sparse` are foreign code. Each is an oracle that returns a
  status and a vector as long as its variable. Nothing is assumed about
  optimality.
- `scipy.sparse.linalg.eigsh` is an oracle. It returns an eigenpair of the
  submatrices, with a vector as long as `v0`, or any error. Which eigenpair
  it returns (`which='LA'`) is not modelled.
- `np.log` and `np.sqrt` are oracles with the properties above.
- Path 2 from line 160 on (`problem1` and the update built from its
  result) is unreachable. Line 160 names `SBSinv`, which is never bound, so
  the branch raises NameError there. `problem1` is modelled on its own.
- Update.Path2Step: `scipy.linalg.pinv` at line 157 runs before that
  NameError. The model assumes it returns, so a LinAlgError from it is not
  modelled.
- Line 209 calls `scipy.sparse.linalg` while line 6 imports only
  `scipy.linalg`. Whether the submodule is loaded depends on what the cvxpy
  import pulls in, so this is not modelled as an error.
- Printing and `time.time()` (lines 108-110, 121, 127, 142, 148, 170, 181, 184, 186) produce output
  only. They are left out.
- The asserts that check array dimensions (`ndim`) and that `c` is a scalar
  have no counterpart. Vectors and matrices are one- and two-dimensional by
  type, and `c` is a `real`.
- Speigh.SpeighResult and Speigh.Speigh: they require `eps > 0`. The source does
  not check it. For a Python float `eps == 0`, `1.0/eps` at line 115 raises
  ZeroDivisionError before `np.log` runs (a numpy zero gives inf instead). For
  -1 < eps < 0, `1 + 1/eps` is negative and `np.log` gives nan; for eps == -1
  it gives -inf; for eps < -1 it is negative and flips the sign of rho_e.
- Speigh.ZerosSettle: it allows one more update after the iterate reaches
  zero. The first check after that compares zero with the previous iterate and
  stops the loop only when no entry of the previous iterate exceeds tol (the
  selection is then empty and the norm 0); otherwise the second check stops
  it.
- Path 3 (`tau != 0`): the model does not claim that zero is a fixed point. That
  would depend on the solver's answer.
- Speigh.SpeighResult and Speigh.Step: where line 138 of Path 1 divides 0 by 0
  (every gamma_i is 0 while the guard as written passes, the input of the first
  Findings row), the model stops with NonFinite. Python carries a nan iterate
  into the next pass, where the guard fails and x becomes zeros, and then
  returns (0, zeros(N)).
- Speigh.SelectPath: `np.all(np.diag(b) == B)` is modelled as exact equality
  of reals.
- Speigh.Run: when the iterate is empty, the first check passes as soon as
  `tol > 0`. Over the reals the norm of an empty selection is 0.

## Findings

| source | as written | input that shows it | evidently intended | confidence | as-written member | corrected member |
|---|---|---|---|---|---|---|
| msmbuilder/decomposition/speigh.py:133 | `np.max(absAx.dot(w**(-1)))` is one dot product, the sum of abs(Ax_i)(abs(x_i) + eps), so the guard can pass while every gamma_i <= 0; if all gamma_i are 0, line 137 computes x_den = 0 and line 138 divides 0 by 0. In Python the nan does no lasting harm: on the next pass the guard compares against nan, is False and resets x to zeros, and a nan iterate thresholds to an empty mask, so speigh still returns (0, zeros(N)) as with the corrected guard | A = I, b = (1, 1), x = (1, 1), rho_e = 4, eps = 1: gamma = (0, 0) while 4 < 8 | the guard of line 9 of Algorithm 1, rho_e < 2 max_i abs(Ax_i) / w_i, which holds exactly when some gamma_i > 0 (GuardMaxForm); the update is then zero | not executed | Update.GuardSumAsWritten | Update.GuardSumCorrected |
| msmbuilder/decomposition/speigh.py:137 | the normalising sum takes gamma**2 over every coordinate, negative gamma_i included, while the numerator keeps only max(gamma, 0); the new x then has x^T B x <= 1 (Path1AsWrittenBounded), below 1 on the input shown | A = I, b = (1, 1), x = (1, 0), rho_e = 1, eps = 1: gamma = (0.75, -0.5), x_new^T B x_new = 9/13 | the sum over max(gamma, 0)**2 / b, which makes x^T B x == 1 (Path1Normalized) | not executed | Update.NormalisationAsWritten | Update.NormalisationCorrected |

The driver runs Path 1 as written, through Update.Path1UpdateAsWritten (Speigh.Step). Update.Path1Update, the corrected update, stands beside it: Path1Sparsity and Path1Normalized state the intended behaviour about it, and Path1SparsityAsWritten shows that the version as written keeps the same zero/sign pattern whenever it returns a vector.
