# Instrumental-arm bandit: a Dafny model

This project models the core of a small simulator of an instrumental-variable
bandit. An agent offers an instrument arm `z`. An individual of a latent
compliance type `k`, drawn with probability `p_k[k]`, receives the treatment
`compliance_types[k][z]`. The observed outcome is `mu_kx[k][x]` plus noise
drawn uniformly from [-1, 1].

The environment (`IAB`) has two parts:

- a fixed structure: the parameters plus two derived mean vectors,
  `mu_x` (structural) and `mu_z` (reduced form);
- running statistics: an instrument-by-treatment count matrix `n_zx`,
  outcome sums `s_z` and `s_x`, and three regret lists (ITT, structural,
  complier).

The selection rules (`ucb_at`, `ucb_itt`, `sls_decay` and
`epsilon_greedy`) read those statistics and choose the next instrument.

Files:

- `vectors.dfy` (module `Vectors`): sums, count-matrix marginals and the
  lowest-index `Argmax` used as `np.argmax`.
- `iab.dfy` (module `Environment`): parameters, construction, `Reset`,
  `Pull` as a pure transition, the derived statistics, and runs of many
  pulls.
- `algs.dfy` (module `Algorithms`): UCB, the decaying exploration rate,
  epsilon-greedy as written and corrected, and `sls_decay`.
- `scenarios.dfy` (module `Scenarios`): the two scenarios the experiment
  driver builds, with their means worked out exactly.

Randomness enters only as explicit inputs:

- `Pull` takes the compliance type `k` and the noise vector `eps`.
- Epsilon-greedy takes the uniform `u` in [0, 1) and the random arm `draw`.
- The UCB bonus `sqrt(C * log(t) / (n + 1e-5))` is an arbitrary function
  `(count, step) -> real` supplied by the caller.
- `sls_decay` takes its effect estimate (a regularised matrix inversion) as
  an input vector.

Outcomes are Dafny `real`s, so sums are exact.

## Model

| member | source | states |
|---|---|---|
| `Environment.Construct` | iab.py:9-28 | the nested accumulation loops produce exactly the pk-weighted means `mu_x[x] = Σ_k p_k[k]·mu_kx[k][x]` and `mu_z[z] = Σ_k p_k[k]·mu_kx[k][ct[k][z]]`; the new environment starts cleared, with no pulls and empty regret lists; inconsistent table shapes give `None` |
| `Environment.MuX` | iab.py:20-23 | one structural mean per arm, the `p_k`-weighted sum over the types; its values are pinned by `Construct`'s loop invariants and by the lemmas below |
| `Environment.MuZ` | iab.py:24-27 | one reduced-form mean per instrument, the `p_k`-weighted sum over the types of the outcome of the treatment each type takes |
| `Environment.FullComplianceMeansAgree` | iab.py:20-27 | if every compliance row is the identity map, `mu_z == mu_x` |
| `Environment.UniformResponseMeans` | iab.py:20-27 | if every type answers instrument `z` with the same treatment `x`, then `mu_z[z] == mu_x[x]` |
| `Environment.TypeFreeMean` | iab.py:20-23 | when `p_k` sums to 1 and treatment `x` has the same type mean `c` for every type, `mu_x[x] == c`: `mu_x` is a weighted average over the types |
| `Environment.Reset` | iab.py:30-36 | every count cell and every outcome sum is zero, the three regret lists are empty, and the structure (parameters, `mu_x`, `mu_z`) is unchanged |
| `Environment.Pull` | iab.py:38-61 | exactly cell `n_zx[z][x[z]]` grows by 1 and no other cell moves; `y[x[z]]` is added to `s_z[z]` and to `s_x[x[z]]` only; each regret list gets exactly one value appended and keeps its earlier values; the complier regret is 0 for a non-identity type; the ITT regret is 0 when `z` is the first maximum of `mu_z`; the ST regret is 0 when `x[z]` is the first maximum of `mu_x`; the result is `(x[z], mu_kx[k][x[z]] + eps[x[z]])` with `x[z] < n_arms`; the structure is unchanged |
| `Environment.Outcomes` | iab.py:43 | one outcome per treatment; with noise in [-1, 1] each lies within 1 of the type's mean `mu_kx[k][x]` |
| `Environment.IttRegret` | iab.py:49-50 | zero whenever the drawn type answers `z` with the same treatment as the best instrument; with noise in [-1, 1], at most the gap of the two type means plus 2 |
| `Environment.StRegret` | iab.py:52-53 | zero when the realised treatment is the first maximum of `mu_x`; with noise in [-1, 1], at most the gap of the two type means plus 2 |
| `Environment.CRegret` | iab.py:55-59 | zero for a type that is not a full complier, and zero when `z` is that type's best treatment |
| `Environment.PullConserves` | iab.py:45-59 | a pull keeps every part of the bookkeeping invariant: each regret list has one entry per counted pull, `sum(s_z) == sum(s_x)`, and an instrument or treatment never counted has zero outcome sum; the grand count grows by exactly 1 |
| `Environment.PullCounts` | iab.py:45 | a pull adds one to the grand count, to `n_z[z]` and to `n_x[x[z]]`, and to no other marginal |
| `Environment.PullSums` | iab.py:46-47 | a pull adds the same observed outcome to the total of `s_z` and to the total of `s_x` |
| `Environment.ComplierRegretBounded` | iab.py:55-59 | a complier regret value is never below -2, because the best treatment's type mean is at least the played one's and the noise terms lie in [-1, 1] |
| `Environment.ExpectedIttRegret` | iab.py:49-50 | averaged over the compliance type with the noise at its mean of zero, the ITT regret of instrument `z` equals `mu_z[best] - mu_z[z]`, and so is never negative |
| `Environment.IttRegretAtMeanNoise` | iab.py:43-50 | with zero noise, the ITT regret of type `k` is `mu_kx[k][x_k[best]] - mu_kx[k][x_k[z]]` |
| `Environment.RunBookkeeping` | iab.py:30-59 | after a reset and any sequence of pulls, the count matrix totals the number of pulls, each of the three regret lists has that length, and the invariant holds, including `sum(s_z) == sum(s_x)` |
| `Environment.MarginalsCountPulls` | iab.py:63-69 | after a reset and any pulls, `sum(n_x) == sum(n_z) ==` the number of pulls |
| `Environment.InstrumentCountsMatch` | iab.py:45 | after a reset and any pulls, `n_z[i]` equals an independent count of the pulls that offered instrument `i` |
| `Environment.TreatmentCountsMatch` | iab.py:42-45 | after a reset and any pulls, `n_x[j]` equals an independent count of the pulls whose realised treatment `x[z]` was `j` |
| `Environment.RunRegretEntries` | iab.py:49-59 | entry `i` of each regret list is the regret of pull `i` under that pull's own draw (nothing is reordered or dropped); a pull whose type is not a full complier has complier regret exactly 0 |
| `Environment.ResetForgetsHistory` | iab.py:30-36 | a reset after any pulls gives the same environment as a reset before them; `mu_x` and `mu_z` are unchanged by any run |
| `Environment.NX` | iab.py:63-65 | `n_x` sums `n_zx` over its first axis (`axis=0`, the instruments): one entry per treatment, and entry `j` is at least every cell of column `j` |
| `Environment.NZ` | iab.py:67-69 | `n_z` sums `n_zx` over its second axis (`axis=1`, the treatments): one entry per instrument, and entry `i` is at least every cell of row `i` |
| `Environment.MarginalTotals` | iab.py:63-69 | `n_x` (column totals) and `n_z` (row totals) both add up to the grand total of `n_zx` |
| `Vectors.MarginalsAgree` | iab.py:63-69 | for any count matrix, the column totals and the row totals have the same sum |
| `Environment.UnpulledMeansAreZero` | iab.py:71-77 | under the invariant, the guarded empirical mean `s / (n + 1e-8)` of a never-counted arm is exactly 0 |
| `Environment.GuardedMean` | iab.py:73 | the guarded mean `s / (n + 1e-8)` is negative, zero or positive exactly when the sum `s` is |
| `Environment.UX` | iab.py:71-73 | one mean per treatment, each with the sign of that treatment's outcome sum |
| `Environment.UZ` | iab.py:75-77 | one mean per instrument, each with the sign of that instrument's outcome sum |
| `Environment.InstrumentSumsMatch` | iab.py:46 | after a reset and any pulls, `s_z[i]` equals an independent sum of the outcomes observed on the pulls that offered `i` |
| `Environment.TreatmentSumsMatch` | iab.py:47 | after a reset and any pulls, `s_x[j]` equals an independent sum of the outcomes observed on the pulls that realised `j` |
| `Environment.EmpiricalMeansMatch` | iab.py:71-77 | after a reset and any pulls, `u_z[i]` is the guarded average outcome of the pulls that offered `i`, and `u_x[j]` that of the pulls that realised `j` |
| `Vectors.Argmax` | iab.py:49 | the result is a valid index; no entry exceeds the entry there; every earlier entry is strictly smaller, so ties go to the lowest index (`np.argmax`) |
| `Vectors.ArgmaxUnique` | algs.py:25 | any index with the two argmax properties is the argmax, so the first maximum is fully determined |
| `Algorithms.Ucb` | algs.py:19-20 | an error exactly when `v` is empty (`np.argmax` raises); otherwise an index in `[0, len(v))` that maximises `v[i] + bonus(n[i], t)`, ties to the lowest index |
| `Algorithms.UcbEqualCountsIsGreedy` | algs.py:19-20 | when all counts are equal, UCB picks the first maximum of `v` itself |
| `Algorithms.UcbAt` | algs.py:6-7 | UCB over `(u_x, n_x)`: an error exactly when there are no arms; otherwise a valid arm that maximises `u_x[i] + bonus(n_x[i], t)`, ties to the lowest index |
| `Algorithms.UcbItt` | algs.py:9-10 | UCB over `(u_z, n_z)`: an error exactly when there are no arms; otherwise a valid arm that maximises `u_z[i] + bonus(n_z[i], t)`, ties to the lowest index |
| `Algorithms.UcbAfterResetPicksFirstArm` | algs.py:6-10 | on a freshly reset environment, both `ucb_at` and `ucb_itt` choose arm 0 |
| `Algorithms.DecayRate` | algs.py:13 | `epsilon · (alpha · t) == n_arms`; the rate is positive for `alpha > 0`, `t >= 1` and `n_arms >= 1` |
| `Algorithms.DecayRateDecreasing` | algs.py:13 | for positive alpha, the rate is strictly decreasing in `t` |
| `Algorithms.DecayRateAtMostOne` | algs.py:13 | the rate is at most 1 exactly when `alpha · t >= n_arms` |
| `Algorithms.DecayRateAtLeastOne` | algs.py:13 | the rate is at least 1 exactly when `alpha · t <= n_arms` |
| `Algorithms.DefaultScheduleExploration` | algs.py:13 | with the default alpha of 0.01 and three arms, the rate is at least 1 for every `t <= 300` |
| `Algorithms.EpsilonGreedyAsWritten` | algs.py:22-25 | for `u > epsilon` the result is `argmax(v)`; in the random branch the result is the draw, which lies in `[0, n_arms - 2]`, or an error when `n_arms < 2`; for `len(v) == n_arms >= 2` the result is always a valid arm |
| `Algorithms.AsWrittenNeverExploresLastArm` | algs.py:23-24 | for `epsilon >= 1`, no admissible draw returns arm `n_arms - 1` |
| `Algorithms.AsWrittenMissesBestArm` | algs.py:22-25 | with `v = [0, 0, 1]` and `epsilon = 1`, the best arm 2 is never returned |
| `Algorithms.EpsilonGreedy` | algs.py:22-25 | the corrected selector: greedy when `u > epsilon`; otherwise the draw from `[0, n_arms)`; always a valid arm when `len(v) == n_arms >= 1` |
| `Algorithms.EpsilonGreedyCoversAllArms` | algs.py:23-24 | in the corrected random branch, every arm, including the last, is the result of some draw |
| `Algorithms.EpsilonZeroIsGreedy` | algs.py:23-25 | with `epsilon = 0` and any draw `u > 0`, both selectors return `argmax(v)` (at `u = 0` the test `u <= epsilon` holds and the selector explores) |
| `Algorithms.SlsDecay` | algs.py:12-17 | an error exactly when `alpha·t == 0` (Python's division by zero); otherwise a valid arm, `argmax(effect)` when `u` exceeds `n_arms/(alpha·t)` and the random draw otherwise |
| `Algorithms.SlsDecayExploresEarly` | algs.py:13 | while `alpha · t <= n_arms`, `sls_decay` always explores |
| `Scenarios.Example1Means` | main.py:9-14 | for the first scenario, `mu_x = [-7/8, -5/8, -3/4]` and `mu_z = [-7/8, -17/8, 0]`; the best treatment is 1 and the best instrument is 2 |
| `Scenarios.Example2Means` | main.py:16-21 | for the second scenario, `mu_x = [7/4, -1/4, 3/4]` and `mu_z = [1/4, -1/4, 3/2]`; the best treatment is 0 and the best instrument is 2 |

## Left out

- Sampling of the compliance type from `p_k` and of the noise vector
  (iab.py:39-40). Both are random draws, so `Pull` takes `k` and `eps` as
  inputs. `eps` is required to lie in [-1, 1], the support of the noise
  distribution.
- `p_k` is not checked to be a probability distribution. In the Python
  code a bad `p_k` only raises inside the random choice of `k`, and that
  choice is an input here.
- `Environment.Construct`: returns `None` when `p_k` does not have one
  entry per type, when a compliance row or an outcome row of a type does
  not have exactly one entry per arm, or when a compliance entry is not an
  arm. The Python constructor validates nothing. These surface as an
  indexing or broadcasting error in its loops or at the first pull: an
  overlong `p_k` in the draw of iab.py:40, an overlong outcome row in the
  sum of iab.py:43, and an overlong compliance row in the full-compliance
  comparison of iab.py:55, whose two shapes cannot broadcast. The exception
  is a single arm: NumPy then broadcasts the length-1 noise vector and
  `arange(1)` against a row of any length, so Python goes on, and with an
  overlong outcome row it may report complier regret for an arm past the
  last. The model gives `None` there too. Extra rows of `mu_kx` past the
  last type are accepted, as in Python.
- `Environment.MuX`, `Environment.MuZ`: their own contracts state only
  one entry per arm. What the entries are is stated by `Construct`, whose
  loop invariants prove the entries equal the accumulations of
  iab.py:20-27, and by the three mean lemmas.
- `Algorithms.DecayRate`: requires `alpha·t != 0`. The `ZeroDivisionError`
  that algs.py:13 raises for a zero denominator is modelled by `SlsDecay`,
  which returns `None` there.
- Compliance entries are natural numbers. Numpy's wrap-around for a
  negative index is not modelled.
- Floating point is not modelled. Sums, the `1e-8` guard of `u_x`/`u_z`
  and the exploration rate are exact reals, and no value can be NaN.
- The UCB bonus `sqrt(C·log(t)/(n + 1e-5))` (algs.py:20) is an arbitrary
  caller-supplied function of count and step. The constant `C = 20` only
  feeds that bonus, so it does not appear.
- `Algorithms.Ucb`, `Algorithms.UcbAt`, `Algorithms.UcbItt`: require `t >= 1`. For `t = 0`, numpy's `log(0)` turns
  every index into NaN and `argmax` returns 0. The driver always passes
  `t >= 1`.
- The structural effect estimate of `sls_decay` (algs.py:14-16) is a
  regularised float matrix inverse. `SlsDecay` takes it as an input vector.
- `Algorithms.SlsDecay`: requires at least one arm; with none, the Python
  code would go on to invert an empty matrix.
- `Algorithms.SlsDecay`: uses the corrected `EpsilonGreedy` (see Findings),
  so its random branch ranges over every arm. The Python code passes
  through the narrower range of the as-written selector.
- The experiment driver loop, the cumulative sums, printing and plotting
  (main.py) are orchestration and I/O. So is the seeded generator
  (constants.py). Only the two scenario parameter sets and `ALPHA`
  appear; the horizon `T` only sets the driver's loop length.

## Findings

| source | as written | input that shows it | evidently intended | confidence | as-written member | corrected member |
|---|---|---|---|---|---|---|
| algs.py:24 | `RNG.integers(0, n_arms - 1)` excludes its upper bound, so the random arm lies in `[0, n_arms - 2]` and the last arm is never explored; for `n_arms == 1` the call raises | `n_arms = 3`, `epsilon = 1`, `v = [0, 0, 1]`: every call returns arm 0 or 1, never the best arm 2 | a uniform arm over `[0, n_arms)`, i.e. `RNG.integers(0, n_arms)` | high; not executed | `Algorithms.EpsilonGreedyAsWritten` (shown by `Algorithms.AsWrittenMissesBestArm`, `Algorithms.AsWrittenNeverExploresLastArm`) | `Algorithms.EpsilonGreedy` (proved by `Algorithms.EpsilonGreedyCoversAllArms`) |
