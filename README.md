# Lateral trajectory optimizer — a Dafny model

This project models the lattice planner's `LateralTrajectoryOptimizer`. It states
the lateral-offset planning problem as a nonlinear program for an interior-point
solver, which calls the optimizer back.

- **The problem.** There are N sample points, one per corridor bound, spaced `delta_s` apart.
  - There are 3N variables: offsets d, rates d' and curvature-rates d''.
  - There are 3N constraints in four blocks: N − 1 curvature-rate rows, N − 1 rate rows, N − 1 position rows, and 3 initial-state rows.
- **The callbacks.** Each one fills caller-provided buffers in place:
  - sizes;
  - variable and constraint bounds;
  - the starting point;
  - the objective and its gradient;
  - the constraint residuals;
  - the sparse Jacobian, in a structure phase and a values phase;
  - the diagonal Hessian.
- **Finalisation.** It turns the solution into a piecewise constant-jerk trajectory.

Modules:

- `ConstantJerk` — the closed-form end state of a constant-jerk segment. It includes the affine forms `v0 + ds (a0 + a1) / 2` and `p0 + v0 ds + ds² a0 / 3 + ds² a1 / 6` that the Jacobian constants come from.
- `PiecewiseJerk` — the trajectory: a start state and an append-only sequence of `(jerk, length)` segments, plus the state reached after k segments.
- `LateralProblem` — the mathematical program as pure functions:
  - the variable and constraint layout, the bounds and the starting point;
  - the objective with its closed-form gradient and Hessian diagonal;
  - the constraint residuals with their partial derivatives.

  Lemmas prove that the gradient and the Hessian diagonal are the exact first- and second-order changes of the objective, and that every constraint is affine with the stated partials.
- `LateralDerivatives` — the enumeration of the Jacobian's 11(N − 1) + 3 nonzeros, how the structure and values phases write them, and their relation to the partial derivatives. It also holds the corrected Jacobian and the Hessian constants.
- `LateralSolution` — the segments finalisation appends, as written and as the constraints intend. It proves that the intended segments reproduce every sample of a feasible point.
- `LateralOptimizer` — the class `LateralTrajectoryOptimizer`.
  - Its fields are the optimizer's members. `nnzJacG` and `optPiecewiseTrajectory` are the two it mutates.
  - There is one method per callback, over Dafny arrays. Its loops mirror the source's loops.
  - Each method is proved against the functions above.

The class follows the code as written, including these behaviours:

- `get_nlp_info` never assigns the Jacobian nonzero count, so the caller's value comes back unchanged.
  - EvalJacG therefore requires that `iRow`, `jCol` and `values` hold at least 11(N − 1) + 3 entries. This is exactly what the unreported count leaves unguaranteed, because the solver sizes those buffers from the count `get_nlp_info` returns.
- `get_starting_point` reports `false`.
- The constructor forwards the initial state to the trajectory but never stores it in `d_init_`, `d_prime_init_` or `d_pprime_init_`.
  - Those members, and the curvature-rate limit `d_ppprime_max_`, are declared in a header that is not part of this model.
  - Here they are constant fields whose values the constructor leaves unconstrained.
- The Hessian values ignore the objective factor and the multipliers.

The code is inconsistent with itself in three places, and the class follows it as written (see "## Findings"):

- `eval_g` writes three initial-state rows, each depending on one variable (lines 212-214). The Jacobian structure phase puts all three entries on row 3(N − 1) (lines 296-308).
- `eval_g` computes the jerk (a1 − a0)/ds per pair (line 204). Finalisation reads the fixed pair x[2N], x[2N − 1] (line 409).
- The curvature-rate residual is d''_{i+1} − d''_i (line 192). Its Jacobian values are +1 on d''_i and −1 on d''_{i+1} (lines 324-328).

All quantities that are `double` in the source are `real` here.

## Model

| member | source | states |
|---|---|---|
| ConstantJerk.EndStateFromEndAccelerations | modules/planning/lattice/trajectory_generation/lateral_trajectory_optimizer.cc:204-208 | with j = (a1 − a0)/ds the segment ends at acceleration a1, at velocity v0 + ds(a0 + a1)/2 and at position p0 + v0·ds + ds²a0/3 + ds²a1/6 (the forms in the comments at lines 245 and 269) |
| PiecewiseJerk.PiecewiseJerkTrajectory.AppendSegment | modules/planning/lattice/trajectory_generation/lateral_trajectory_optimizer.cc:410 | appending keeps the start state and every existing segment, and adds exactly one segment (jerk, length) at the end |
| PiecewiseJerk.AppendAll | modules/planning/lattice/trajectory_generation/lateral_trajectory_optimizer.cc:408-411 | appending a sequence one segment at a time yields the old segments followed by the new ones, with the same start state |
| PiecewiseJerk.StateAfterAppend | modules/planning/lattice/trajectory_generation/lateral_trajectory_optimizer.cc:410 | appending never changes the state reached after any segment already in the trajectory |
| LateralProblem.PointOf | modules/planning/lattice/trajectory_generation/lateral_trajectory_optimizer.cc:136-140 | every variable index lies in exactly one block: it is i, N + i or 2N + i for a sample i < N |
| LateralProblem.BoundsOrdered | modules/planning/lattice/trajectory_generation/lateral_trajectory_optimizer.cc:68-125 | when every corridor interval is ordered and the limit is non-negative, every variable and constraint bound interval is non-empty, and every constraint past the curvature-rate block is the equality lower = upper = 0 |
| LateralProblem.StartingPoint | modules/planning/lattice/trajectory_generation/lateral_trajectory_optimizer.cc:136-144 | the starting point has one entry per variable, 3N in total |
| LateralProblem.PointCostUpdate | modules/planning/lattice/trajectory_generation/lateral_trajectory_optimizer.cc:155-160 | moving x[k] by h changes only the cost of k's own sample, by h·grad_k + h²·H_kk/2 |
| LateralProblem.PartialObjectiveUpdate | modules/planning/lattice/trajectory_generation/lateral_trajectory_optimizer.cc:154-161 | the same change for the sum over the first m samples: present exactly when k's sample is among them |
| LateralProblem.ObjectiveTaylor | modules/planning/lattice/trajectory_generation/lateral_trajectory_optimizer.cc:166-183 | f(x + h·e_k) = f(x) + h·Gradient_k + h²·HessianDiagonal_k/2 exactly, so the closed-form gradient written by eval_grad_f is the partial derivative of the sum eval_f computes |
| LateralProblem.GradientTaylor | modules/planning/lattice/trajectory_generation/lateral_trajectory_optimizer.cc:173-180 | moving x[k] by h moves Gradient_l by h·HessianDiagonal_l when k = l and not at all otherwise: the Hessian is diagonal |
| LateralProblem.ObjectiveExample | modules/planning/lattice/trajectory_generation/lateral_trajectory_optimizer.cc:148-164 | two samples with a zero corridor: the objective is 0 at the origin and 2 (offset term plus centring term) at d_0 = 1 |
| LateralProblem.Constraints | modules/planning/lattice/trajectory_generation/lateral_trajectory_optimizer.cc:185-216 | the constraint vector has exactly 3N entries |
| LateralProblem.ConstraintIsAffine | modules/planning/lattice/trajectory_generation/lateral_trajectory_optimizer.cc:191-214 | every residual is affine: moving x[c] by h moves residual r by exactly h·Partial(r, c) |
| LateralProblem.CurvatureRateRowIsAffine | modules/planning/lattice/trajectory_generation/lateral_trajectory_optimizer.cc:192 | the affinity of d''_{i+1} − d''_i, with partials +1 on d''_{i+1} and −1 on d''_i |
| LateralProblem.RateRowIsAffine | modules/planning/lattice/trajectory_generation/lateral_trajectory_optimizer.cc:204-207 | the affinity of the rate row, with partials 1, −1, ds/2 and ds/2 |
| LateralProblem.PositionRowIsAffine | modules/planning/lattice/trajectory_generation/lateral_trajectory_optimizer.cc:204-208 | the affinity of the position row, with partials 1, −1, ds, ds²/3 and ds²/6 |
| LateralProblem.InitialRowIsAffine | modules/planning/lattice/trajectory_generation/lateral_trajectory_optimizer.cc:211-214 | the affinity of the three initial-state rows, with partial 1 on d_0, d'_0 and d''_0 respectively |
| LateralProblem.RateRowClosedForm | modules/planning/lattice/trajectory_generation/lateral_trajectory_optimizer.cc:204-207 | the integrated rate residual equals d'_i + ds(d''_i + d''_{i+1})/2 − d'_{i+1} |
| LateralProblem.PositionRowClosedForm | modules/planning/lattice/trajectory_generation/lateral_trajectory_optimizer.cc:204-208 | the integrated position residual equals d_i + ds·d'_i + ds²d''_i/3 + ds²d''_{i+1}/6 − d_{i+1} |
| LateralProblem.ContinuityOfExactIntegration | modules/planning/lattice/trajectory_generation/lateral_trajectory_optimizer.cc:195-209 | when sample i + 1 is the exact constant-jerk integration of sample i, its rate and position residuals are 0 |
| LateralDerivatives.JacNnz | modules/planning/lattice/trajectory_generation/lateral_trajectory_optimizer.cc:224-310 | the structure phase writes 2(N−1) + 4(N−1) + 5(N−1) + 3 = 11(N−1) + 3 entries |
| LateralDerivatives.SlotOf | modules/planning/lattice/trajectory_generation/lateral_trajectory_optimizer.cc:228-308 | every nonzero index below the count names a valid (block, pair, slot) position of the loops |
| LateralDerivatives.IndexOf | modules/planning/lattice/trajectory_generation/lateral_trajectory_optimizer.cc:228-308 | the running nz_index at each (block, pair, slot) is below the count and maps back to that slot |
| LateralDerivatives.IndexOfSlotOf | modules/planning/lattice/trajectory_generation/lateral_trajectory_optimizer.cc:228-308 | each nonzero index is reached at exactly one place in the loops |
| LateralDerivatives.SlotRow | modules/planning/lattice/trajectory_generation/lateral_trajectory_optimizer.cc:228-308 | the row of every entry is the first row of its block plus its pair index |
| LateralDerivatives.JacEntryInRange | modules/planning/lattice/trajectory_generation/lateral_trajectory_optimizer.cc:224-310 | every row and every column written lies in [0, 3N), and no row exceeds 3(N − 1) |
| LateralDerivatives.JacRowsNonDecreasing | modules/planning/lattice/trajectory_generation/lateral_trajectory_optimizer.cc:224-310 | row indices never decrease along the pattern |
| LateralDerivatives.JacRowsCovered | modules/planning/lattice/trajectory_generation/lateral_trajectory_optimizer.cc:224-310 | every row 0 .. 3(N − 1) holds at least one entry |
| LateralDerivatives.JacMissesInitialRows | modules/planning/lattice/trajectory_generation/lateral_trajectory_optimizer.cc:296-308 | rows 3N − 2 and 3N − 1 hold no entry; the three initial-state entries are (3(N−1), 0), (3(N−1), N) and (3(N−1), 2N) |
| LateralDerivatives.JacEntriesDistinct | modules/planning/lattice/trajectory_generation/lateral_trajectory_optimizer.cc:224-310 | no (row, column) pair is written twice |
| LateralDerivatives.SlotEntryInjective | modules/planning/lattice/trajectory_generation/lateral_trajectory_optimizer.cc:228-308 | two different loop positions write two different (row, column) pairs |
| LateralDerivatives.SlotColumnInjective | modules/planning/lattice/trajectory_generation/lateral_trajectory_optimizer.cc:228-294 | within one row the columns written are pairwise different |
| LateralDerivatives.JacValuesAgainstPartials | modules/planning/lattice/trajectory_generation/lateral_trajectory_optimizer.cc:320-374 | the written value is the partial derivative of the residual at its (row, column) in the rate and position blocks and for d_0; in the curvature-rate block it is the negated partial; the d'_0 and d''_0 values are the partials of rows 3N − 2 and 3N − 1, while the row they sit on has partial 0 there |
| LateralDerivatives.SlotValueAgainstPartial | modules/planning/lattice/trajectory_generation/lateral_trajectory_optimizer.cc:320-374 | the same relation, stated for each loop position |
| LateralDerivatives.JacPatternCoversPartials | modules/planning/lattice/trajectory_generation/lateral_trajectory_optimizer.cc:224-308 | every nonzero partial derivative of rows 0 .. 3(N − 1) has an entry in the pattern |
| LateralDerivatives.WitnessSlot | modules/planning/lattice/trajectory_generation/lateral_trajectory_optimizer.cc:224-308 | the loop position that writes a given nonzero partial, in the pattern as written (rows up to 3(N − 1)) and in the corrected one (all rows) |
| LateralDerivatives.JacSignFlipInstance | modules/planning/lattice/trajectory_generation/lateral_trajectory_optimizer.cc:322-329 | with N = 2 and ds = 1 the first entry is (0, 4), its value is 1, and the partial of d''_1 − d''_0 by d''_0 is −1 |
| LateralDerivatives.JacCollapsedRowsInstance | modules/planning/lattice/trajectory_generation/lateral_trajectory_optimizer.cc:296-308 | with N = 1 all three entries are on row 0, while row 1 has partial 1 by d'_0 |
| LateralDerivatives.CorrectedJacValueIsPartial | modules/planning/lattice/trajectory_generation/lateral_trajectory_optimizer.cc:320-374 | with the curvature-rate sign corrected and the initial entries on three rows, every value is the partial derivative at its (row, column), all in range |
| LateralDerivatives.CorrectedPatternCoversPartials | modules/planning/lattice/trajectory_generation/lateral_trajectory_optimizer.cc:296-308 | the corrected pattern holds every nonzero partial derivative of every row 0 .. 3N − 1 |
| LateralDerivatives.HessValueIsSecondDerivative | modules/planning/lattice/trajectory_generation/lateral_trajectory_optimizer.cc:389-396 | with the unit weights, 4 on offsets and 2 elsewhere is the exact second partial derivative of the objective |
| LateralSolution.FinalSegments | modules/planning/lattice/trajectory_generation/lateral_trajectory_optimizer.cc:407-411 | finalisation produces N − 1 segments, every one of length ds and jerk (x[2N] − x[2N − 1])/ds |
| LateralSolution.CorrectedFinalSegments | modules/planning/lattice/trajectory_generation/lateral_trajectory_optimizer.cc:407-411 | the intended segments: N − 1, segment i with jerk (d''_{i+1} − d''_i)/ds |
| LateralSolution.CorrectedTrajectoryInterpolates | modules/planning/lattice/trajectory_generation/lateral_trajectory_optimizer.cc:195-214 | on a point that meets every equality constraint, the intended trajectory from the initial state reaches the state (d_i, d'_i, d''_i) of every sample i |
| LateralSolution.FinalSegmentsMissInstance | modules/planning/lattice/trajectory_generation/lateral_trajectory_optimizer.cc:407-411 | a feasible two-point solution on which the segment appended as written (jerk −0.5) misses sample 1, and the intended one (jerk 1) does not |
| LateralOptimizer.LateralTrajectoryOptimizer.constructor | modules/planning/lattice/trajectory_generation/lateral_trajectory_optimizer.cc:31-50 | N = |d_bounds|, 3N variables, the step and corridor stored, unit weights, and an empty trajectory starting at the given initial state |
| LateralOptimizer.LateralTrajectoryOptimizer.GetNlpInfo | modules/planning/lattice/trajectory_generation/lateral_trajectory_optimizer.cc:52-66 | n = m = nnz_h_lag = 3N, C-style indexing, and the Jacobian nonzero count left as the caller passed it |
| LateralOptimizer.LateralTrajectoryOptimizer.GetBoundsInfo | modules/planning/lattice/trajectory_generation/lateral_trajectory_optimizer.cc:68-125 | all 3N entries of each of the four buffers hold their bounds: the corridor on offsets, ±10 on the other variables, ±d_ppprime_max·ds on the curvature-rate rows, 0 on every other row |
| LateralOptimizer.LateralTrajectoryOptimizer.GetStartingPoint | modules/planning/lattice/trajectory_generation/lateral_trajectory_optimizer.cc:127-146 | under the checked arguments, x is the initial state at indices 0, N, 2N and 0 everywhere else, and the result is false |
| LateralOptimizer.LateralTrajectoryOptimizer.EvalF | modules/planning/lattice/trajectory_generation/lateral_trajectory_optimizer.cc:148-164 | the accumulated value is the weighted sum of squares plus the corridor-centring term over all samples |
| LateralOptimizer.LateralTrajectoryOptimizer.EvalGradF | modules/planning/lattice/trajectory_generation/lateral_trajectory_optimizer.cc:166-183 | every entry is the closed-form gradient, which ObjectiveTaylor shows is the partial derivative of the objective |
| LateralOptimizer.LateralTrajectoryOptimizer.EvalG | modules/planning/lattice/trajectory_generation/lateral_trajectory_optimizer.cc:185-216 | the buffer is exactly the constraint vector: all 3N residuals in block order |
| LateralOptimizer.LateralTrajectoryOptimizer.EvalJacG | modules/planning/lattice/trajectory_generation/lateral_trajectory_optimizer.cc:218-379 | without values: the pattern, with its count cached; with values: the constants for the cached count; neither reads x; nothing past the count changes |
| LateralOptimizer.LateralTrajectoryOptimizer.JacStructurePhase | modules/planning/lattice/trajectory_generation/lateral_trajectory_optimizer.cc:224-310 | entries 0 .. nnz − 1 of iRow and jCol hold the pattern, nnz_jac_g = 11(N−1) + 3, and the rest is unchanged |
| LateralOptimizer.LateralTrajectoryOptimizer.CurvatureRatePattern | modules/planning/lattice/trajectory_generation/lateral_trajectory_optimizer.cc:228-242 | the counters end at 2(N−1) and N − 1, with the curvature-rate entries written |
| LateralOptimizer.LateralTrajectoryOptimizer.RatePattern | modules/planning/lattice/trajectory_generation/lateral_trajectory_optimizer.cc:244-266 | the counters end at 6(N−1) and 2(N−1), with the rate entries written |
| LateralOptimizer.LateralTrajectoryOptimizer.PositionPattern | modules/planning/lattice/trajectory_generation/lateral_trajectory_optimizer.cc:268-294 | the counters end at 11(N−1) and 3(N−1), with the position entries written |
| LateralOptimizer.LateralTrajectoryOptimizer.InitialPattern | modules/planning/lattice/trajectory_generation/lateral_trajectory_optimizer.cc:296-308 | the three initial-state entries, all on the current row, bring the count to 11(N−1) + 3 |
| LateralOptimizer.LateralTrajectoryOptimizer.JacValuesPhase | modules/planning/lattice/trajectory_generation/lateral_trajectory_optimizer.cc:311-377 | after zeroing, values 0 .. nnz − 1 hold the constants in pattern order, the count written equals the cached one, and the rest is unchanged |
| LateralOptimizer.LateralTrajectoryOptimizer.CurvatureRateValues | modules/planning/lattice/trajectory_generation/lateral_trajectory_optimizer.cc:320-329 | (1, −1) per curvature-rate row, ending at index 2(N−1) |
| LateralOptimizer.LateralTrajectoryOptimizer.RateValues | modules/planning/lattice/trajectory_generation/lateral_trajectory_optimizer.cc:331-347 | (1, −1, ds/2, ds/2) per rate row, ending at index 6(N−1) |
| LateralOptimizer.LateralTrajectoryOptimizer.PositionValues | modules/planning/lattice/trajectory_generation/lateral_trajectory_optimizer.cc:349-368 | (1, −1, ds, ds²/3, ds²/6) per position row, ending at index 11(N−1) |
| LateralOptimizer.LateralTrajectoryOptimizer.InitialValues | modules/planning/lattice/trajectory_generation/lateral_trajectory_optimizer.cc:370-374 | three ones, ending at index 11(N−1) + 3 |
| LateralOptimizer.LateralTrajectoryOptimizer.EvalH | modules/planning/lattice/trajectory_generation/lateral_trajectory_optimizer.cc:381-399 | structure: the pairs (k, k) for k < 3N; values: 4 for k < N and 2 up to 3N, whatever x, obj_factor and lambda are; nothing else changes |
| LateralOptimizer.LateralTrajectoryOptimizer.FinalizeSolution | modules/planning/lattice/trajectory_generation/lateral_trajectory_optimizer.cc:401-412 | the trajectory becomes the old one followed by the N − 1 segments FinalSegments gives for x, a function of x alone, not of the status |
| LateralOptimizer.LateralTrajectoryOptimizer.GetOptimalTrajectory | modules/planning/lattice/trajectory_generation/lateral_trajectory_optimizer.cc:414-417 | returns the trajectory finalisation built |

## Left out

- The solver library and its types: solver status, bound multipliers, constraint multipliers, and the solver data and quantities objects. Callbacks are plain methods. The parameters that the source ignores are not modelled. They are:
  - `new_x` in `eval_f`, `eval_grad_f`, `eval_g` and `eval_h`;
  - `z_L`, `z_U` and `lambda` in `get_starting_point`;
  - `nele_jac`, and `nele_hess` with `new_lambda`;
  - every argument of `finalize_solution` except `x`: `status`, `z_L`, `z_U`, `g`, `lambda`, `obj_value`, `ip_data` and `ip_cq`.

  EvalJacG keeps `new_x`, and EvalH keeps `obj_factor` and `lambda`, to state that the results do not depend on them. The `n` and `m` arguments are kept only where the source checks them.
- Floating-point rounding: every `double` is a `real`. A zero or negative `delta_s` is excluded by the constructor's precondition.
- Integer widths: indices are unbounded integers. The source computes them as `size_t` and narrows them to `int` when it writes `iRow`/`jCol`. The model does not capture that narrowing, or its overflow for N above about 2^31 / 3.
- N = 0: `num_of_points_ - 1` would wrap around as an unsigned value, so the model requires at least one corridor bound.
- The fatal `CHECK`/`CHECK_EQ` aborts (lines 131-134, 221-222 and 376) are preconditions of the methods that contain them.
- The header `lateral_trajectory_optimizer.h` is not part of this model, so the values of `d_init_`, `d_prime_init_`, `d_pprime_init_` and `d_ppprime_max_` are not known. They are fields the constructor leaves unconstrained.
- The headers of `ConstantJerkTrajectory1d` and `PiecewiseJerkTrajectory1d` are not part of this model. The integrator is its standard closed form, and the trajectory is its start state with its segment list. Evaluating the trajectory between sample points is not modelled.
- EvalJacG: the `new_x` flag is accepted and ignored, as at lines 312-314.
- LateralOptimizer.LateralTrajectoryOptimizer.JacStructurePhase and JacValuesPhase: each of the source's Jacobian loops is a private method of its own. The counters `nz_index` and `constraint_index` pass between them as arguments.
- EvalF, EvalGradF, EvalG and EvalH take the solution as a `seq<real>`, because the source only reads it through a `const` pointer.

## Findings

| source | as written | input that shows it | evidently intended | confidence | as-written member | corrected member |
|---|---|---|---|---|---|---|
| modules/planning/lattice/trajectory_generation/lateral_trajectory_optimizer.cc:324-328 | the curvature-rate block writes +1 on d''_i and −1 on d''_{i+1}, but the residual at line 192 is d''_{i+1} − d''_i, so every value is the negated partial | N = 2, ds = 1: entry 0 is (0, 4) with value 1, while the partial is −1 | the values −1, +1 (or the residual d''_i − d''_{i+1}) | not executed | LateralDerivatives.JacSignFlipInstance | LateralDerivatives.CorrectedJacValueIsPartial |
| modules/planning/lattice/trajectory_generation/lateral_trajectory_optimizer.cc:296-308 | constraint_index is never advanced in the initial-state block, so all three entries sit on row 3(N − 1) and rows 3N − 2, 3N − 1 have none | N = 1: entries (0, 0), (0, 1), (0, 2), while row 1, d'_0 − d'_init, has partial 1 by d'_0 | one entry per initial-state row: (3(N−1) + t, column of block t) | not executed | LateralDerivatives.JacCollapsedRowsInstance | LateralDerivatives.CorrectedPatternCoversPartials |
| modules/planning/lattice/trajectory_generation/lateral_trajectory_optimizer.cc:407-410 | offset is fixed at 2N, so every segment gets the jerk (x[2N] − x[2N − 1])/ds, a curvature-rate minus a rate | N = 2, ds = 1, initial state 0, x = (0, 1/6, 0, 1/2, 0, 1), feasible: the segment as written has jerk −1/2 and misses sample 1 | segment i with jerk (x[2N + i + 1] − x[2N + i])/ds | not executed | LateralSolution.FinalSegmentsMissInstance | LateralSolution.CorrectedTrajectoryInterpolates |

The class keeps the behaviour as written. The corrected definitions are the
reference for the intended Jacobian and trajectory.
