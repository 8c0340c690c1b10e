# Sequential Pólya-urn predictive engine, modelled in Dafny

This project models the core of a small research code base about the
Dirichlet-process (Blackwell–MacQueen) Pólya urn and its one-step predictive
CDF. Given the first m observations x_1..x_m, the predictive CDF is

    P_m(t) = (alpha G0(t) + K_m(t)) / (alpha + m),    K_m(t) = #{k <= m : x_k <= t}.

The model covers the following pieces.

- **Base measure.** `G0_cdf` and `sample_from_base` for the "uniform" and "normal" bases.
- **The urn (`PolyaSequenceModel`).** `P0`, `Pn`, `build_prefix`, `continue_urn_once` and `sample_prior_once`.
- **Sequential predictive methods.**
  - The running ECDF over a fixed-size buffer.
  - The Welford running-moments accumulator.
  - The Normal plug-in and Student-t predictives with their small-sample fallbacks.
  - The Pólya predictive `PolyaPredictive`.
- **Truths and metrics.**
  - The oracle truths `NormalTruth` and `UniformTruth`.
  - The grid metrics `d_infty`, `d_rmse` and `make_grid`.
- **Drivers.**
  - The evaluate-before-update driver `run_stream`.
  - The Part B convergence logger.
  - The predictive-path logger `run_once`.
  - The Proposition 2.6 experiment: prefix loop, V_{n,t} accumulator, continuation of the same urn, and interval rows.
  - The indicator-urn Beta panel.
  - The per-file posterior checks of `analyze_polya`.

## Modelling choices

- **Files and modules.** Each source file is one module.
  - `Urn` covers src/polya.py.
  - `Methods` covers src/methods.py.
  - `Dgps` covers src/dgps.py.
  - `Metrics` covers src/metrics.py.
  - `Simulation` covers src/simulation.py.
  - `Prop26` covers src_cli/partc_log_prop26.py, with `G0_cdf` and `sample_from_base` in `BaseMeasure`.
  - `Paths` covers src_cli/log_predictive_paths.py.
  - `PartB` covers src_cli/partb_log_convergence.py.
  - `Panel` covers examples/polya_panel.py.
  - `AnalyzePolya` covers src_cli/analyze_polya.py.
  - The shared closed form P_m(t) lives in `DpPredictive`; small sequence and counting facts live in `Numerics`.
- **Randomness.** Random draws are explicit inputs.
  - An urn step consumes a `Urn.Coin(u, j, z)`: `u` is the uniform compared with the fresh-draw probability, `j` the index of the copied atom, and `z` the base draw.
  - The indicator urn consumes uniforms `us`.
  - The Beta sampler consumes an input `v`.
  - The observed streams `xs` are parameters.
- **Special functions.** `Phi`, `phi`, the Student-t cdf/pdf, the Beta sampler, the Beta quantile function and `sqrt` are function parameters.
  - `IsCdf(Phi)` states range and monotonicity where a lemma needs them.
  - `IsSqrt(sqrt)` states that `sqrt` returns the non-negative square root.
- **Floats.** Floats are reals.
  - A Python exception is the `Err` case of a `Result`.
  - A NaN produced by the source (`np.nan` records, NaN variances, numpy divisions by zero) is `Undefined` of the `Est` datatype.
- **Mutable state.** State the source mutates is a class.
  - `Methods.EcdfState` has an `array<real>` buffer and a `count`.
  - `Methods.RunningMoments` has the fields `n`, `mean` and `M2`.
  - `Methods.PolyaPredictive` has its list of atoms.
  - The drivers' loops are methods with loop invariants, proved against specification functions (`ExpectedRecord`, `DistRows`, `PmBlocks`, `PathBlocks`, `SweepFold`, `FileBlocks`, `UrnCount`).
- **`PolyaPredictive` is not defined in src/methods.py.** It is imported by src/simulation.py:15 and src_cli/partb_log_convergence.py:7. It is modelled from how those callers use it and from the closed form at src_cli/partc_log_prop26.py:94:
  - the state is the list of atoms;
  - `cdf_est` is P_m(t) with G0 the base CDF;
  - `pdf_est` is undefined.

## Model

| member | source | states |
|---|---|---|
| Numerics.CountLeq | src_cli/log_predictive_paths.py:25 | K(t) = #{x <= t} is at most the number of atoms |
| Numerics.CountLeqSnoc | src_cli/partc_log_prop26.py:83-84 | appending x raises K(t) by exactly 1 when x <= t and leaves it otherwise |
| Numerics.CountLeqAppend | src_cli/partc_log_prop26.py:97-103 | the count over prefix ++ tail is the prefix count plus the tail count |
| Numerics.CountLeqMonotone | src_cli/log_predictive_paths.py:25 | K(t) is non-decreasing in t |
| Numerics.CountLeqPrefixMonotone | src_cli/log_predictive_paths.py:23-25 | K_m(t) is non-decreasing in m and grows by at most the number of added atoms |
| Numerics.CountLeqAllBelow | src/methods.py:30-35 | K(t) is the whole length when every atom is <= t |
| Numerics.CountLeqAllAbove | src/methods.py:30-35 | K(t) is 0 when every atom is > t |
| Numerics.CountLeqPermutation | src_cli/partc_log_prop26.py:94 | K(t) depends only on the multiset of atoms |
| Numerics.Dedup | src_cli/partc_log_prop26.py:72-74 | the key set of a dict built from a threshold list: distinct, with the same members, and no longer than the list |
| Numerics.Clip | src/dgps.py:82 | np.clip: in [lo,hi], equal to lo below, hi above and x inside |
| BaseMeasure.ParseBase | src_cli/partc_log_prop26.py:7-16 | exactly "uniform" and "normal" are accepted, each naming its base |
| BaseMeasure.G0Cdf | src_cli/partc_log_prop26.py:8-14 | uniform base: t clipped to [0,1] (0 for t <= 0, 1 for t >= 1); normal base: Phi(t) |
| BaseMeasure.G0CdfNamed | src_cli/partc_log_prop26.py:7-16 | an error exactly for an unknown base name, otherwise the base CDF |
| BaseMeasure.G0CdfRange | src_cli/partc_log_prop26.py:8-14 | G0(t) lies in [0,1] |
| BaseMeasure.G0CdfMonotone | src_cli/partc_log_prop26.py:8-14 | G0 is non-decreasing in t |
| BaseMeasure.SampleFromBase | src_cli/partc_log_prop26.py:18-24 | an error exactly for an unknown base, otherwise the base draw z |
| Dgps.CdfTruth | src/dgps.py:50-82 | Normal: Phi((t-mean)/sd); Uniform: in [0,1], 0 at or below a, 1 at or above b, (t-a)/(b-a) between |
| Dgps.PdfTruth | src/dgps.py:57-93 | Normal: phi((x-mean)/sd)/sd; Uniform: 1/(b-a) on the closed [a,b] and 0 outside |
| Dgps.CdfTruthGrid | src/dgps.py:78-82 | the truth CDF at every grid point, in order |
| Dgps.UniformCdfMonotone | src/dgps.py:81-82 | the Uniform(a,b) CDF is non-decreasing in t when a < b |
| Dgps.DefaultUniformIsBase | src/dgps.py:71-82 | UniformTruth(0,1) has the uniform base CDF G0 |
| Dgps.DefaultNormalIsBase | src/dgps.py:42-55 | NormalTruth() has the normal base CDF Phi, so the standard-parameter shortcut agrees with the general formula |
| Dgps.CdfTruthHelper | src/dgps.py:106-111 | the module-level cdf_truth is the standard normal CDF |
| Dgps.PdfTruthHelper | src/dgps.py:113-118 | the module-level pdf_truth is the standard normal density |
| DpPredictive.PolyaCdf | src_cli/partc_log_prop26.py:94 | P_n(t) = (alpha g + K)/(alpha + n) lies in [0,1] when alpha > 0 and g in [0,1] |
| DpPredictive.PolyaCdfEmpty | src_cli/partc_log_prop26.py:73 | P_0(t) = G0(t) |
| DpPredictive.PolyaCdfMonotone | src_cli/partc_log_prop26.py:94 | P_n is non-decreasing in t for a non-decreasing G0 |
| DpPredictive.PolyaCdfPermutation | tests/test_exchangeability.py:12-23 | P_n(t) is unchanged by any reordering of the atoms |
| DpPredictive.PolyaCdfWorkedInstance | src_cli/partc_log_prop26.py:94 | alpha = 5, G0 = 0.5, K = 3, n = 10 gives 11/30 |
| DpPredictive.PStep | src_cli/partc_log_prop26.py:85-87 | P_prev after m steps is in [0,1] for alpha > 0 and G0 in [0,1] |
| DpPredictive.PStepIncrement | src_cli/partc_log_prop26.py:85-86 | the martingale increment P_m - P_{m-1} = (1[x_m <= t] - P_{m-1})/(alpha + m) |
| DpPredictive.IncrementTermBelowOne | src_cli/partc_log_prop26.py:86 | each accumulated term m^2 (P_m - P_{m-1})^2 is < 1 |
| Methods.EcdfCdf | src/methods.py:26-35 | 0.5 for an empty buffer, else K(t)/count; always in [0,1] |
| Methods.EcdfMonotone | src/methods.py:30-35 | the ECDF is non-decreasing in t |
| Methods.EcdfExtremes | src/methods.py:30-35 | the ECDF is 0 below every atom and 1 at or above every atom |
| Methods.EcdfState.constructor | src/methods.py:18-19 | a fresh buffer of size max_n with count 0 |
| Methods.EcdfInit | src/methods.py:18-19 | init_state: an error for a negative size (np.empty), else an empty fresh state |
| Methods.EcdfState.Update | src/methods.py:21-24 | writes x at buffer[count] and increments count; earlier entries unchanged; a full buffer is refused and left unchanged |
| Methods.EcdfState.CdfEst | src/methods.py:26-35 | the scalar cdf_est is the ECDF of the stored prefix |
| Methods.EcdfState.CdfEstGrid | src/methods.py:26-33 | the grid cdf_est is the ECDF at every grid point (0.5 everywhere when empty) |
| Methods.EcdfState.PdfEst | src/methods.py:37-39 | pdf_est is always undefined |
| Methods.MomentsOf | src/methods.py:51-55 | the moments of a list: its length and a mean with mean * n = sum |
| Methods.WelfordAccumulates | src/methods.py:51-55 | one Welford update keeps (n, mean, M2) the moments of the extended list |
| Methods.AccumulatesMoments | src/methods.py:45-55 | the accumulator state is exactly MomentsOf(list) and M2 >= 0 |
| Methods.RunningMoments.constructor | src/methods.py:47-49 | starts with n = 0, mean = 0, M2 = 0 over the empty list |
| Methods.RunningMoments.Update | src/methods.py:51-55 | absorbs x: the list seen grows by x and the Welford invariant holds |
| Methods.AccumulateAll | src/methods.py:51-55 | feeding a list through update yields MomentsOf(list) |
| Methods.VarUnbiased | src/methods.py:57-59 | defined iff n >= 2, and then var * (n-1) = M2 |
| Methods.SdUnbiased | src/methods.py:61-64 | defined iff n >= 2 and the variance is >= 0; then sd >= 0 with sd^2 = var |
| Methods.SampleVariance | src/methods.py:57-64 | over a list: var = sum (x_i - mean)^2/(n-1) >= 0 exactly when n >= 2 |
| Methods.VarianceNonNegative | src/methods.py:61-64 | with M2 >= 0, sd is defined exactly when n >= 2 |
| Methods.Location | src/methods.py:87 | mu is the running mean for n >= 1 and 0 otherwise |
| Methods.NormalParams | src/methods.py:85-89 | _params returns (n, mu, sd) with sd defined only for n >= 2 |
| Methods.NormalScale | src/methods.py:94-97 | the scale is 1 for n < 2, an undefined sd or sd <= 0, and sd otherwise; always > 0 |
| Methods.NormalCdf | src/methods.py:91-97 | cdf_est is Phi((t - mu)/scale) |
| Methods.NormalPdf | src/methods.py:99-104 | pdf_est is phi((x - mu)/scale)/scale, divided by the same scale |
| Methods.NormalFallbackOnData | src/methods.py:94-96 | over a list: unit scale iff n < 2 or all values equal the mean |
| Methods.StudentTParams | src/methods.py:126-132 | df = max(n-1, 1); the scale s sqrt(1 + 1/n) is defined iff sd is |
| Methods.TFallbackIff | src/methods.py:137 | the normal fallback is taken iff n < 2 or M2 <= 0 |
| Methods.StudentTCdf | src/methods.py:134-141 | fallback Phi(t - xbar), else Tcdf((t - xbar)/scale, df) |
| Methods.StudentTPdf | src/methods.py:143-150 | fallback phi(x - xbar), else Tpdf((x - xbar)/scale, df)/scale |
| Methods.PolyaPredictive.constructor | src/simulation.py:15-16 | a predictive with the given alpha and base and no atoms |
| Methods.PolyaPredictive.Update | src/simulation.py:84 | update appends x to the atoms |
| Methods.PolyaPredictive.UpdateAll | tests/test_exchangeability.py:14-15 | updating with a list appends the whole list, in order |
| Methods.PolyaPredictive.CdfEst | src_cli/partb_log_convergence.py:58 | an error iff alpha + m = 0, else P_m(t) with G0 the base CDF |
| Methods.PolyaPredictive.CdfEstGrid | src_cli/partb_log_convergence.py:54 | the grid cdf_est is PolyaGrid of the atoms |
| Methods.PolyaPredictive.PdfEst | src/interfaces.py:36 | pdf_est is undefined |
| Methods.PolyaGrid | src_cli/partb_log_convergence.py:54 | an error iff the grid is non-empty and alpha + m = 0, else P_m at every grid point |
| Methods.PolyaGridPermutation | tests/test_exchangeability.py:12-23 | the grid predictive is the same for any permutation of the atoms |
| Methods.PolyaCdfEstRange | src_cli/partb_log_convergence.py:58 | for alpha > 0 the predictive is defined, in [0,1] and non-decreasing in t |
| Methods.ReverseMultiset | tests/test_exchangeability.py:19 | reversing a stream keeps its multiset |
| Methods.OrderInvariance | tests/test_exchangeability.py:6-23 | updating in order and in reverse order gives identical grid CDFs, defined for alpha > 0 |
| Metrics.DInfty | src/metrics.py:5-7 | an error for empty grids, else max_k abs(est[k] - true[k]): >= 0, an upper bound that is attained |
| Metrics.DInftySymmetric | src/metrics.py:5-7 | d_infty is symmetric in its arguments |
| Metrics.DInftyZeroIff | src/metrics.py:5-7 | d_infty = 0 iff the two sequences are equal |
| Metrics.MeanSquare | src/metrics.py:11 | undefined (NaN) for empty grids, else >= 0 |
| Metrics.MeanSquareTimesLength | src/metrics.py:11 | the mean square times the length is the sum of squared differences |
| Metrics.DRmse | src/metrics.py:9-11 | undefined for empty grids, else >= 0 with d_rmse^2 = mean square |
| Metrics.MeanSquareBelowDInfty | src/metrics.py:5-11 | the mean square is <= d_infty^2 |
| Metrics.DRmseBelowDInfty | src/metrics.py:5-11 | d_rmse <= d_infty |
| Metrics.MakeGrid | src/metrics.py:13-14 | an error for J < 0, else J evenly spaced points from tmin to tmax (first tmin, last tmax) |
| Metrics.MakeGridSorted | src/metrics.py:13-14 | for tmin <= tmax the grid is sorted |
| Urn.P0 | src/polya.py:19-25 | an error for an unknown base, else the base draw |
| Urn.Pn | src/polya.py:28-37 | an error unless n = len(history); fresh when u < alpha/(alpha+n), else history[j] with j < n |
| Urn.PnOk | src/polya.py:28-37 | for alpha > 0 and a known base Pn succeeds, and on an empty history it is a base draw |
| Urn.ExtendShape | src/polya.py:48-54 | extending adds exactly one value per draw and keeps the prefix |
| Urn.ExtendProvenance | src/polya.py:32-37 | every appended value is a base draw or a copy of an earlier value |
| Urn.ExtendOk | src/polya.py:28-37 | for alpha > 0 and a known base extending never fails |
| Urn.UnitSupport | src/polya.py:32-37 | with unit base draws and a prefix in [0,1], every value lies in [0,1] |
| Urn.BuildPrefix | src/polya.py:41-46 | length max(n_obs, 1), first element a base draw, the urn sequence of the coins |
| Urn.ContinueUrnOnce | src/polya.py:48-54 | length max(M, len(prefix)), the first len(prefix) values equal the prefix |
| Urn.SamplePriorOnce | src/polya.py:56-61 | the same urn sequence as build_prefix, of length max(M, 1) |
| Urn.UrnSequenceUnitSupport | src/polya.py:41-46 | a sequence from unit base draws lies in [0,1] |
| Prop26.DrawPolyaNext | src_cli/partc_log_prop26.py:27-34 | fresh base draw when u < alpha/(alpha+m), else xs[j] with j < m; an error when alpha + m = 0 |
| Prop26.DrawPolyaNextEmpty | src_cli/partc_log_prop26.py:29-31 | with an empty list the draw is always fresh (threshold 1, never indexes) |
| Prop26.DrawPolyaNextIsPn | src_cli/partc_log_prop26.py:27-34 | draw_polya_next is the urn's Pn on the same coin |
| Prop26.OccCountProduct | src_cli/partc_log_prop26.py:82-84 | the count kept for t is (occurrences of t in the threshold list) times K(t) |
| Prop26.OccCountDistinct | src_cli/partc_log_prop26.py:82-84 | for distinct thresholds the kept count is K(t) |
| Prop26.TrackedIsPStep | src_cli/partc_log_prop26.py:85-87 | for distinct thresholds the kept P value is the predictive P_m(t) |
| Prop26.VSumStepBound | src_cli/partc_log_prop26.py:86 | each step adds a term in [0,1) to the V sum |
| Prop26.VSumBound | src_cli/partc_log_prop26.py:86 | after n >= 1 steps 0 <= V < n |
| Prop26.SweepFold | src_cli/partc_log_prop26.py:82-87 | the threshold sweep keeps every dict's key set |
| Prop26.SweepFoldCounts | src_cli/partc_log_prop26.py:82-84 | after the sweep Km[t] grew by Occ(t) when x <= t |
| Prop26.SweepFoldFresh | src_cli/partc_log_prop26.py:85-87 | after the sweep P_prev[t] is the fresh Pm |
| Prop26.SweepFoldAccumulates | src_cli/partc_log_prop26.py:86 | for distinct keys, V[t] grew by m^2 (Pm - P_prev)^2 |
| Prop26.Sweep | src_cli/partc_log_prop26.py:82-87 | the inner loop computes SweepFold; an error iff alpha + m = 0 with keys present |
| Prop26.BooksAfterStep | src_cli/partc_log_prop26.py:76-87 | one prefix step keeps the bookkeeping equal to the closed forms of the longer prefix |
| Prop26.InitialBooks | src_cli/partc_log_prop26.py:72-74 | Km = 0, P_prev = G0(t), V = 0 are the closed forms of the empty prefix |
| Prop26.PrefixPhase | src_cli/partc_log_prop26.py:70-87 | xs is the urn sequence of the coins, of length n, with the bookkeeping in closed form; never fails for alpha > 0 |
| Prop26.Finalize | src_cli/partc_log_prop26.py:90-91 | an error iff keys are present and n = 0; for distinct keys Vnt = V/n |
| Prop26.PnTable | src_cli/partc_log_prop26.py:94 | an error iff alpha + n = 0 with keys present, else Pn[t] = (alpha G0 + Km)/(alpha + n) |
| Prop26.TailSweep | src_cli/partc_log_prop26.py:101-103 | tail_leq[t] grows by Occ(t) when the new draw is <= t |
| Prop26.Continuation | src_cli/partc_log_prop26.py:97-103 | appends exactly L draws of the same urn, leaves xs[0..n) unchanged, tail_leq counts only new draws |
| Prop26.FhatTable | src_cli/partc_log_prop26.py:104 | an error iff L = 0 with keys present, else Fhat[t] = tail_leq[t]/L |
| Prop26.CriticalValue | src_cli/partc_log_prop26.py:51-56 | z = 1.959963984540054 for every level; the warning flag is set iff abs(level - 0.95) >= 1e-12 |
| Prop26.CiRow | src_cli/partc_log_prop26.py:108-116 | width = hi - lo, covered iff lo <= Fhat <= hi, and lo < Pn < hi |
| Prop26.EmitRows | src_cli/partc_log_prop26.py:107-117 | one row per threshold in list order; an error iff rows are due and n <= 0 |
| Prop26.ReplicateAtoms | src_cli/partc_log_prop26.py:76-100 | prefix and tail are one urn run: the tail extends the prefix; never fails for alpha > 0 |
| Prop26.ReplicateTables | src_cli/partc_log_prop26.py:70-104 | the Pn, Vnt and Fhat tables of one replicate, with their error conditions |
| Prop26.ReplicateOver | src_cli/partc_log_prop26.py:70-117 | one replicate's rows over a given key list: count, order, and each row's Pn, Vnt, Fhat and interval |
| Prop26.RowsFromTables | src_cli/partc_log_prop26.py:107-117 | the emitted rows carry the tables' values for their thresholds |
| Prop26.Replicate | src_cli/partc_log_prop26.py:65-117 | the code as written: one row per listed threshold; Pn and Fhat count a threshold once per listing; the interval facts hold |
| Prop26.ReplicateDistinct | src_cli/partc_log_prop26.py:65-117 | the corrected replicate: Pn = P_n(t), 0 <= Vnt < 1, Fhat in [0,1], and the interval facts |
| Prop26.DistinctRow | src_cli/partc_log_prop26.py:86-104 | with distinct keys a row's Pn is the predictive, Vnt is in [0,1) and Fhat is in [0,1] |
| Prop26.DuplicateThresholdOvercounts | src_cli/partc_log_prop26.py:72-94 | with t listed twice, Pn is 1.25 where the predictive is 0.75 |
| Simulation.BaseOf | src/simulation.py:40 | the base parameter defaults to "uniform" |
| Simulation.SelectTruth | src/simulation.py:40-44 | "uniform" selects UniformTruth(0,1); any other name selects NormalTruth() |
| Simulation.TruthMatchesBase | src/simulation.py:39-44 | for an accepted base name, the truth's CDF is G0 |
| Simulation.TruthGridInUnit | src/simulation.py:49-50 | the truth on the grid lies in [0,1] |
| Simulation.BuildMethod | src/simulation.py:13-18 | an error unless the name is "polya_dp" (and the base is known); else a fresh empty predictive |
| Simulation.ExpectedRecord | src/simulation.py:60-81 | record i carries (i, method, x[i], seed, n); pit is defined iff i >= 1 and is the predictive of x[..i] at x[i]; distances are defined iff i >= 1 and thinned |
| Simulation.RunStream | src/simulation.py:37-84 | exactly n records, record i = ExpectedRecord(i); an error iff the method, base, J, record_every or alpha rule it out |
| Simulation.RecordStream | src/simulation.py:59-84 | the loop evaluates before updating: the records are F(0..n-1) |
| Simulation.AppendRecord | src/simulation.py:81-84 | one iteration appends F(i) for a state that absorbed exactly x[..i] |
| Simulation.EvaluateStep | src/simulation.py:63-81 | evaluation of step i from the state after x[..i]; an error iff alpha + i = 0, record_every = 0 or a thinned step on an empty grid |
| Simulation.RecordIsCausal | src/simulation.py:63-84 | record i depends only on x[..i+1] |
| Simulation.GridDistanceBounds | src/simulation.py:72-76 | distances on the grid are in [0,1] and d_rmse <= d_infty |
| Simulation.RecordBounds | src/simulation.py:63-81 | a record's pit and distances lie in [0,1] |
| PartB.GridRange | src_cli/partb_log_convergence.py:27-43 | the grid range is [0,1] for the uniform base and --tmin/--tmax for the normal base |
| PartB.UniformGridInUnit | src_cli/partb_log_convergence.py:42-43 | with the uniform base every grid point is in [0,1] |
| PartB.TruthOf | src_cli/partb_log_convergence.py:27-31 | the truth's CDF is G0 of the base |
| PartB.DistAt | src_cli/partb_log_convergence.py:53-56 | row (i, d_infty, d_rmse) from the state after x[..i], with d_infty >= 0 |
| PartB.DistRowsEntry | src_cli/partb_log_convergence.py:53-56 | rec_dist row k is the distance row of step k+1 |
| PartB.PmBlock | src_cli/partb_log_convergence.py:57-59 | the rows (i, t, P_i(t)) for each t in order |
| PartB.PmBlocks | src_cli/partb_log_convergence.py:49-59 | block b is PmBlock of x[..b+1] |
| PartB.PmStep | src_cli/partb_log_convergence.py:57-59 | the inner loop produces PmBlock of the current atoms |
| PartB.RunPartB | src_cli/partb_log_convergence.py:26-62 | rec_dist holds n-1 rows (i = 1..n-1) and rec_Pm the flattened blocks; an error iff J or alpha rule it out |
| PartB.LogStream | src_cli/partb_log_convergence.py:49-62 | evaluate before update: the logs after the loop are the tabulated rows of steps 1..n-1 |
| PartB.LogStep | src_cli/partb_log_convergence.py:49-62 | one iteration extends both logs by step i |
| PartB.DistStep | src_cli/partb_log_convergence.py:53-56 | an error iff the grid is empty or alpha + i = 0, else DistAt |
| PartB.PmRowEntry | src_cli/partb_log_convergence.py:57-59 | row b * len(t) + j of rec_Pm is (b+1, t_j, P_{b+1}(t_j)) |
| PartB.PmRowsLayout | src_cli/partb_log_convergence.py:57-59 | rec_Pm has (n-1) * len(t) rows |
| PartB.PmRowsInUnit | src_cli/partb_log_convergence.py:58 | every logged Pm lies in [0,1] |
| PartB.DistRowBounds | src_cli/partb_log_convergence.py:54-56 | d_infty and d_rmse are in [0,1], d_rmse <= d_infty |
| Paths.PathBlock | src_cli/log_predictive_paths.py:26-28 | the rows (m, t, (alpha g0(t) + K_m(t))/(alpha + m)) for each t in order |
| Paths.PathBlocks | src_cli/log_predictive_paths.py:22-28 | block b is the step b+1 block |
| Paths.RunOnceWith | src_cli/log_predictive_paths.py:9-30 | xs is x0 followed by urn draws, of length max(n, 1); rows are the flattened blocks; with its error conditions |
| Paths.RunOnce | src_cli/log_predictive_paths.py:9-30 | the code as written: g0(t) = t |
| Paths.RunOnceCorrected | src_cli/log_predictive_paths.py:9-30 | the corrected run: g0 = G0 of the base; never fails for alpha > 0 |
| Paths.IdentityG0 | src_cli/log_predictive_paths.py:27 | the as-written stand-in for G0: the identity |
| Paths.BaseG0 | src_cli/log_predictive_paths.py:27 | the corrected G0: the base CDF |
| Paths.PathRows | src_cli/log_predictive_paths.py:20-28 | an error iff some alpha + m = 0 with thresholds given, else the flattened blocks of m = 1..n |
| Paths.StepsRows | src_cli/log_predictive_paths.py:22-28 | the m loop builds the flattened blocks |
| Paths.StepRows | src_cli/log_predictive_paths.py:23-28 | one m iteration builds PathBlock |
| Paths.CountAtoms | src_cli/log_predictive_paths.py:23-25 | Km has exactly the thresholds as keys and Km[t] = #{k < m : xs[k] <= t} <= m |
| Paths.PathRowsLength | src_cli/log_predictive_paths.py:21-28 | exactly n * len(ts) rows |
| Paths.PathRowEntry | src_cli/log_predictive_paths.py:22-28 | row b * len(ts) + j is (b+1, t_j, P_{b+1}(t_j)): ordered by m and then by t |
| Paths.KmBounds | src_cli/log_predictive_paths.py:23-25 | K_m(t) <= m, and it is non-decreasing in m by at most one per step |
| Paths.IdentityPathInUnit | src_cli/log_predictive_paths.py:27 | as written, Pm is in [0,1] for t in [0,1] and non-decreasing in t |
| Paths.IdentityPathLeavesUnit | src_cli/log_predictive_paths.py:27 | as written, t = -1 with alpha = 5 gives Pm = -5/6, where the uniform base gives 0 |
| Paths.CorrectedPathInUnit | src_cli/log_predictive_paths.py:27 | with G0 the base CDF, Pm is in [0,1] for every t and non-decreasing in t |
| Panel.PriorParams | examples/polya_panel.py:7 | a0 + b0 = alpha, mean a0/(a0+b0) = p0, shapes >= 0 (> 0) for p0 in [0,1] ((0,1)) and alpha >= 0 (> 0) |
| Panel.DrawPriorSamples | examples/polya_panel.py:6-8 | an error iff reps < 0, else exactly reps Beta(a0, b0) draws, each in [0,1] |
| Panel.UrnProb | examples/polya_panel.py:15 | p_i lies in [0,1] when K <= i-1, p0 in [0,1] and alpha > 0 |
| Panel.UrnProbIsPredictive | examples/polya_panel.py:15 | p_i is the Pólya predictive P_{i-1} of the indicator atoms |
| Panel.UrnCount | examples/polya_panel.py:13-16 | an error iff some alpha + i - 1 = 0, else K in [0, n] |
| Panel.UrnCountStep | examples/polya_panel.py:16 | K grows by 1 exactly when u < p_i, and by 0 otherwise |
| Panel.UrnProbsInUnit | examples/polya_panel.py:14-16 | every p_i along the run lies in [0,1] |
| Panel.PosteriorCount | examples/polya_panel.py:12-16 | the K loop computes UrnCount, with K <= n |
| Panel.UrnCountErrExtends | examples/polya_panel.py:13-16 | once the run fails, a longer run fails too |
| Panel.PosteriorParams | examples/polya_panel.py:17-18 | a_post + b_post = alpha + n, both >= 0 (> 0) under the domain conditions |
| Panel.PosteriorUpdatesPrior | examples/polya_panel.py:17-18 | the posterior shapes are the prior shapes plus K and n - K |
| Panel.PosteriorMeanIsNextProb | examples/polya_panel.py:15-18 | the posterior mean a/(a+b) is the next urn probability p_{n+1} |
| Panel.PosteriorDraw | examples/polya_panel.py:19 | a posterior Beta draw lies in [0,1] |
| Panel.DrawPosteriorSamples | examples/polya_panel.py:10-20 | an error iff reps < 0 or a run divides by zero; else a fresh array of reps posterior draws |
| AnalyzePolya.BaseTruth | src_cli/analyze_polya.py:31 | "uniform" selects UniformTruth(0,1), any other name NormalTruth() |
| AnalyzePolya.PostMean | src_cli/analyze_polya.py:43-46 | defined iff alpha + n != 0, and then equal to a/(a+b) |
| AnalyzePolya.PostMeanIsPredictive | src_cli/analyze_polya.py:43 | post_mean is the Pólya predictive P_n(t) and lies in [0,1] |
| AnalyzePolya.CheckRowMeaning | src_cli/analyze_polya.py:39-57 | a row's n, K_n <= n, post_mean, Beta quantiles at (1-level)/2 and 1-(1-level)/2, and covered iff lo <= g0 <= hi |
| AnalyzePolya.ConsistentRow | src_cli/analyze_polya.py:39-41 | when every row carries the stream length, K_n <= n |
| AnalyzePolya.FileBlockEntry | src_cli/analyze_polya.py:50-57 | the j-th row of a file is the row for t_j |
| AnalyzePolya.FileBlocks | src_cli/analyze_polya.py:36-57 | block i holds the rows of file i |
| AnalyzePolya.Analyze | src_cli/analyze_polya.py:25-57 | an error iff there are no files or some file is empty; else len(files) * len(ts) rows, the flattened file blocks |
| AnalyzePolya.AnalyzeFiles | src_cli/analyze_polya.py:36-57 | the per-file loop appends the blocks in file order |
| AnalyzePolya.FileRows | src_cli/analyze_polya.py:50-57 | the inner loop over ts builds the file's block |
| AnalyzePolya.FileBlocksLength | src_cli/analyze_polya.py:50-57 | one row per (file, t) pair |
| AnalyzePolya.AnalyzeRowEntry | src_cli/analyze_polya.py:50-57 | row i * len(ts) + j is the row of file i and threshold t_j |
| AnalyzePolya.TheoryVar | src_cli/analyze_polya.py:71 | defined iff alpha + n != 0; >= 0 for g0 in [0,1]; 0 for g0 in {0,1}; at most n/(4 (alpha+n)^2) |
| AnalyzePolya.TheoryVarFacts | src_cli/analyze_polya.py:71 | the theoretical variance bounds for n >= 0 and g0 in [0,1] |

## Left out

- Command-line parsing, configuration files, parquet and CSV reading and writing, directory creation and all plotting are left out; they carry no behaviour beyond the values modelled.
- The pandas groupby aggregation of analyze_polya (src_cli/analyze_polya.py:62-67) is left out; it only summarises rows already modelled. Its `theory_var` column is modelled as `AnalyzePolya.TheoryVar`.
- Random generators are not modelled. Each draw is an input: a `Urn.Coin`, a uniform in `us`, an input `v` of the Beta sampler, the first draw `x0` of `run_once` and the observed stream `xs`. The laws of these draws are not modelled, so exchangeability in law, PIT uniformity and coverage rates are not stated.
- `PolyaSequenceModel` with no generator draws from a fresh unseeded generator on every call; reproducibility of runs is not modelled.
- Floating point is modelled as real arithmetic: rounding, overflow and infinities are not modelled, and order invariance is stated exactly over the counts.
- The special functions (erf-based Phi, scipy norm/t cdf and pdf, beta.rvs, beta.ppf, sqrt) are function parameters; only the properties the lemmas name (range, monotonicity, square root) are assumed of them.
- The domain checks of scipy's beta.rvs and beta.ppf (non-positive shapes give NaN or an error) are not modelled: `Panel.DrawPriorSamples` and `Panel.PosteriorDraw` hand any shapes to the sampler parameter, and `AnalyzePolya` hands any shapes to the quantile parameter.
- Division by zero: Python float division raises (modelled as `Err` in `Prop26`, `Panel`, `Paths`, `PartB`, `Simulation`), while numpy array division yields inf or NaN (modelled as `Undefined` in `AnalyzePolya.PostMean` and `AnalyzePolya.TheoryVar`).
- `Dgps.ValidTruth` requires sd > 0 and a < b; a truth with a zero-width interval or zero sd (a division by zero in the source) is not modelled.
- `EmpiricalPredictive.update` past the end of the buffer raises IndexError in numpy; `Methods.EcdfState.Update` returns `false` and leaves the state unchanged instead.
- `NormalPluginPredictive` and `StudentTPredictive` classes are modelled through their parameter functions and the running moments; their `init_state`/`update` wrappers, which only forward to `_RunningMoments`, are not separate members.
- PartB.DistRows: a step the loop never reaches (after an error) holds a placeholder row in the specification function; only reachable rows are stated.
- Prop26.Replicate: with a duplicated threshold, Pn and Fhat are stated as the overcounted values, but the value of Vnt is stated only for distinct thresholds (see Findings).
- The remaining command-line scripts (simulate, sweep_M, analyze, figures, panels, post_continuation), examples/polya_single_t.py and src/plotstyle.py are not part of this model.

## Findings

| source | as written | input that shows it | evidently intended | confidence | as-written member | corrected member |
|---|---|---|---|---|---|---|
| src_cli/partc_log_prop26.py:72-94 | the count, P and V updates loop over the threshold list while the dicts are keyed by threshold, so a threshold given twice is counted twice per draw | `--t 0.5 0.5`, alpha = 1, n = 1, first draw 0.2: Pn(0.5) = (0.5 + 2)/2 = 1.25 | each distinct threshold updated once per draw: Pn(0.5) = (0.5 + 1)/2 = 0.75 | not executed | Prop26.DuplicateThresholdOvercounts | Prop26.ReplicateDistinct |
| src_cli/log_predictive_paths.py:27 | P_m(t) uses alpha * t in place of alpha * G0(t), also for the normal base and for t outside [0,1] | alpha = 5, xs = [0.3], m = 1, t = -1: Pm = -5/6, outside [0,1] | P_m(t) = (alpha G0(t) + K_m(t))/(alpha + m), which lies in [0,1] | not executed | Paths.IdentityPathLeavesUnit | Paths.CorrectedPathInUnit |
