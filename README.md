# RungeKutta4 in Dafny

A model of the numerical core of the RungeKutta4 program:

- **`State`** (`RungeKutta4/State.cs`): a position/velocity pair. It has componentwise `+` and `-`, scaling by a number from either side, and `==`/`!=`. It also has the two bound comparisons `a < b` and `a > b`, meaning "every component's magnitude is below / above b".
- **The adaptive integrator** `RungeKutta.Solve4` / `Step4` (`RungeKutta4/RungeKutta4.cs`). It is generic in the state type. It starts at `dt0` and, with no previous increment, takes the first step unchecked. After that it doubles `dt` when the doubled step agrees with the previous increment within `eps`. Otherwise it halves `dt` until the step agrees with the half-step estimate. `eps` defaults to 1e-5 (`DefaultEps`).
- **The fixed-step array integrator** `RungeKutta4` of the top-level program (`RungeKutta4/Program.cs`), together with:
  - its array helpers `Add`, `Add4` and `Mul`;
  - the example derivative `dXa`/`dX`;
  - the step size `dt = 0.001`.

Numbers are Dafny `real`s: the model is exact arithmetic.

Both integrators first create their output list with the capacity `(int)((t2 - t1) / dt) + 1`. C# truncates the quotient toward zero, and the list constructor throws for a negative capacity. So a call goes on only when that expression is an `int` from 0 to `int.MaxValue`. For a positive step and t1 > t2 this means t1 − t2 < 2·dt. Both calls return `None` in every case where the constructor throws.

Modules:

- `Wrappers` (wrappers.dfy): `Option`, the outcome of a call that may not return a value.
- `ListCapacity` (list_capacity.dfy): the capacity expression, and `CapacityOk`, the condition under which the output list is created.
- `Computable` (computable.dfy): the operator set a state type must provide, standing in for the generic constraint `T : IComputable<T>`. It is passed as the record `Ops<T>` of function values, with the facts about the default value in `ZeroLaws`.
- `StateAlgebra` (state.dfy): `State` as a datatype, its operators as functions, and `StateOps`, the instance of `Ops<State>`.
- `RungeKutta` (runge_kutta.dfy): `Step4`, and the driver `Solve4`.
  - `Solve4` is a method with the source's outer and inner `while` loops.
  - It is proved equal to the functional description `Solve4Spec`, which is built from `Run`, `Control` and `Shrink`.
  - Neither source loop is guaranteed to stop, so `Solve4` takes two bounds: `maxSteps` outer passes and `maxHalvings` halvings per pass. When a bound is hit it returns the samples so far with `finished == false`.
- `RungeKuttaFacts` (runge_kutta_facts.dfy): what the driver guarantees, for any state type.
- `StateRungeKutta` (state_runge_kutta.dfy): `Step4` on `State`.
  - The increment is computed component by component.
  - For a constant derivative c, the increment is exactly `dt·c`.
  - For the linear system y' = λy, the increment is `Y·(z + z²/2 + z³/6 + z⁴/24)` with z = λ·dt.
- `FixedStep` (fixed_step.dfy): the array program.
  - `Add`, `Add4` and `Mul` are methods that fill a new array in a `for` loop. Each is proved against a function on sequences (`SumOf`, `WeightedSum4`, `ScaledBy`).
  - `RungeKutta4` is a method over arrays whose loop (`Loop`) records one new array per iteration. When the output list is created, the result is proved equal to `Trajectory`, the run of `RK4Step` at the loop times `t1, t1 + dt, …`. It has `Count(t1, t2, dt) = floor((t2 − t1)/dt) + 1` entries, none when t1 > t2.

Three details of the loop in RungeKutta4.cs shape the model:

- Nothing requires t1 < t2. With t1 == t2 the loop still takes one step. With t1 > t2 it takes none, provided the output list is created.
- `dY_last != default` is the only test for "a previous increment exists". After a step whose increment is exactly the default value, the next pass skips error control; `RunAtRest` relies on this.
- The halving loop compares every halved step against the same half-step estimate `dY1`. That estimate is computed once, before the loop, from the original dt.

## Model

| member | source | states |
|---|---|---|
| StateAlgebra.Add | RungeKutta4/State.cs:16 | componentwise sum; its laws are stated by `AddDefault`, `AddCommutes` and `AddAssociates`, and `Sub` undoes it |
| StateAlgebra.Scale | RungeKutta4/State.cs:19 | componentwise scaling; its laws are stated by `ScaleLeft`, `ScaleByZeroOrOne` and `ScaleDistributes` |
| StateAlgebra.Sub | RungeKutta4/State.cs:17 | `a - b` undoes `+ b`, and is the default state exactly when a == b |
| StateAlgebra.ScaleLeft | RungeKutta4/State.cs:19-21 | `k * a` equals `a * k` |
| StateAlgebra.Eq | RungeKutta4/State.cs:23 | `==` on the (X, V) tuples holds iff the states are equal |
| StateAlgebra.Ne | RungeKutta4/State.cs:25 | `!=` holds iff the states differ |
| StateAlgebra.Below | RungeKutta4/State.cs:27 | `a < b` iff the larger component magnitude is below b |
| StateAlgebra.Above | RungeKutta4/State.cs:29 | `a > b` iff the smaller component magnitude is above b |
| StateAlgebra.MaxNorm | RungeKutta4/State.cs:27 | the larger component magnitude: an upper bound attained by one component |
| StateAlgebra.MinNorm | RungeKutta4/State.cs:29 | the smaller component magnitude: a lower bound attained by one component |
| StateAlgebra.AddDefault | RungeKutta4/State.cs:16 | the default state is the identity of `+` on both sides |
| StateAlgebra.ScaleByZeroOrOne | RungeKutta4/State.cs:19 | scaling by 0, or scaling the default state, gives the default state; scaling by 1 changes nothing |
| StateAlgebra.AddCommutes | RungeKutta4/State.cs:16 | `+` is commutative |
| StateAlgebra.AddAssociates | RungeKutta4/State.cs:16 | `+` is associative |
| StateAlgebra.ScaleDistributes | RungeKutta4/State.cs:16-19 | scaling distributes over `+` |
| StateAlgebra.BelowExcludesAbove | RungeKutta4/State.cs:27-29 | `<` and `>` against the same bound never both hold |
| StateAlgebra.MixedStateIsNeither | RungeKutta4/State.cs:27-29 | a state with one component above and one below the bound satisfies neither comparison |
| StateAlgebra.StateOpsZeroLaws | RungeKutta4/State.cs:16-25 | the State operators meet the facts the driver needs of the default value |
| ListCapacity.Truncate | RungeKutta4/RungeKutta4.cs:22 | the `(int)` cast truncates toward zero: the result lies within one of the quotient, on the quotient's side of zero |
| ListCapacity.CapacityOk | RungeKutta4/RungeKutta4.cs:22 | whether `new List(...)` accepts the capacity; its meaning is stated by `CapacityOkMeans` and `ReversedInterval` |
| ListCapacity.CapacityOkMeans | RungeKutta4/RungeKutta4.cs:22 | the output list is created exactly when `(int)((t2 - t1) / dt0) + 1` is an `int` from 0 to `int.MaxValue` |
| ListCapacity.ReversedInterval | RungeKutta4/RungeKutta4.cs:22 | for dt > 0 and t1 > t2 the list is created iff t1 - t2 < 2·dt; beyond that the capacity is negative and the constructor throws |
| RungeKutta.Step4 | RungeKutta4/RungeKutta4.cs:62-72 | the RK4 increment dt/6·(k1 + 2k2 + 2k3 + k4) from the caller's k1; its value is stated by `Step4Componentwise`, `Step4ConstantSlope`, `Step4Linear` and `Step4ZeroSlope` |
| RungeKutta.Shrink | RungeKutta4/RungeKutta4.cs:43-49 | the inner halving loop; what it returns is stated by `ShrinkExit` and `ShrinkStopsFirst`, and the imperative loop is proved equal to it in `AcceptStep` |
| RungeKutta.Control | RungeKutta4/RungeKutta4.cs:27-51 | one pass of the loop body up to the accepted step; what it accepts is stated by `ControlAccepts`, `ControlShrinks`, `ControlStepSize` and `ControlIncrement` |
| RungeKutta.Advance | RungeKutta4/RungeKutta4.cs:53-55 | the end of a pass: dY_last becomes the accepted increment, Y has that increment added, dt becomes the accepted step, and t advances by that step |
| RungeKutta.AcceptStep | RungeKutta4/RungeKutta4.cs:27-51 | the loop body up to the accepted step (sentinel test, grow branch, shrink loop) yields what `Control` describes, or fails only when the halving bound is used up |
| RungeKutta.RunAccepts | RungeKutta4/RungeKutta4.cs:25-56 | a pass that accepts a step records (t + dt, Y + dY) before the rest of the run |
| RungeKutta.RunStalls | RungeKutta4/RungeKutta4.cs:25-56 | a pass that hits a bound ends the run unfinished |
| RungeKutta.Solve4 | RungeKutta4/RungeKutta4.cs:11-60 | `None` exactly where creating the output list throws; otherwise the two nested loops return exactly the samples and the finished flag of the run `Solve4Spec` describes; `eps` may be left out and is then 1e-5 |
| RungeKuttaFacts.Halved | RungeKutta4/RungeKutta4.cs:47 | halving a positive step any number of times keeps it positive and no larger |
| RungeKuttaFacts.ShrinkExit | RungeKutta4/RungeKutta4.cs:43-49 | when the halving loop stops, dY0 is the RK4 increment over the final dt, `dY0 - dY1 > eps` fails against the unchanged dY1, and 0 < dt ≤ the incoming dt |
| RungeKuttaFacts.ShrinkStopsFirst | RungeKutta4/RungeKutta4.cs:44-49 | the halving loop stops at the first halving (counting none) whose increment passes `dY0 - dY1 > eps` false: every earlier halving exceeds eps in every component, and there are at most `maxHalvings` of them |
| RungeKuttaFacts.ShrinkBranch | RungeKutta4/RungeKutta4.cs:31-49 | when a previous increment exists and the doubled step disagrees with it, the pass is the halving loop started from the tentative increment against the half-step estimate at the original dt |
| RungeKuttaFacts.ControlShrinks | RungeKutta4/RungeKutta4.cs:41-49 | in the shrink branch the accepted step is positive, no larger than dt, and dt halved n ≤ maxHalvings times where n is the first halving whose increment agrees with the half-step estimate; that increment is `Step4` over the accepted step |
| RungeKuttaFacts.ControlAccepts | RungeKutta4/RungeKutta4.cs:27-51 | one pass accepts the RK4 increment over the accepted step. The step is positive and is dt doubled or halved. dt is kept when there is no previous increment. dt doubles exactly when a previous increment exists and the doubled step agrees with it. Otherwise dt is halved exactly until the first step that agrees with the half-step estimate |
| RungeKuttaFacts.ControlStepSize | RungeKutta4/RungeKutta4.cs:38-47 | the accepted step is positive and is the old step doubled or halved |
| RungeKuttaFacts.ControlIncrement | RungeKutta4/RungeKutta4.cs:29-48 | the accepted increment is `Step4` over the accepted step, with the pass's one k1 |
| RungeKuttaFacts.RunTimesIncrease | RungeKutta4/RungeKutta4.cs:20-56 | with a positive step, sample times are after the start and strictly increasing |
| RungeKuttaFacts.RunStopsPastT2 | RungeKutta4/RungeKutta4.cs:25-59 | every sample but the last is at or before t2. A finished run ends on the first sample past t2 and is empty exactly when it starts past t2. A run cut short by a bound has no sample past t2. At most one sample per pass |
| RungeKuttaFacts.RunFollowsStep4 | RungeKutta4/RungeKutta4.cs:53-56 | each sample is the previous one (the start for the first) plus the RK4 increment over the time between them |
| RungeKuttaFacts.RunStepSizes | RungeKutta4/RungeKutta4.cs:38-55 | the time between consecutive samples is the previous one doubled or halved at most `maxHalvings` times |
| RungeKuttaFacts.Step4ZeroSlope | RungeKutta4/RungeKutta4.cs:62-71 | with every slope the default value the increment is the default value |
| RungeKuttaFacts.RunAtRest | RungeKutta4/RungeKutta4.cs:24-56 | with a zero derivative and no previous increment every sample is the start state, the first at t + dt and each later one dt after the one before |
| RungeKuttaFacts.Solve4Outcome | RungeKutta4/RungeKutta4.cs:11-25 | `Solve4` has an outcome exactly when the capacity is valid; for dt0 > 0 and t1 > t2 it is the empty finished run when t1 - t2 < 2·dt0 and throws otherwise |
| RungeKuttaFacts.Solve4FirstSample | RungeKutta4/RungeKutta4.cs:20-56 | when t1 ≤ t2 and the call returns, the first sample is (t1 + dt0, X0 + Step4(f, t1, X0, f(t1, X0), dt0)): the first step is exactly dt0 |
| RungeKuttaFacts.Solve4Shape | RungeKutta4/RungeKutta4.cs:11-60 | for dt0 > 0, when the call returns: increasing times after t1, each sample one RK4 step from the previous, only the last sample past t2; when the run finished the last sample is past t2, and when it was cut short by a bound every sample is at or before t2 |
| RungeKuttaFacts.Solve4StepSizes | RungeKutta4/RungeKutta4.cs:20-55 | for dt0 > 0, when the call returns: the first step is dt0 doubled or halved, and every later step is the step before it doubled or halved at most `maxHalvings` times |
| RungeKuttaFacts.Solve4AtRest | RungeKutta4/RungeKutta4.cs:11-60 | with a zero derivative, when the call returns, every sample equals X0, and the samples are dt0 apart starting at t1 + dt0 |
| StateRungeKutta.Step4Componentwise | RungeKutta4/RungeKutta4.cs:62-71 | on State, with k2, k3, k4 the slopes at Y + dt/2·k1, Y + dt/2·k2 and Y + dt·k3, the increment is dt/6·(k1 + 2k2 + 2k3 + k4) in X and in V separately |
| StateRungeKutta.Step4ConstantSlope | RungeKutta4/RungeKutta4.cs:62-71 | for a constant derivative c the increment is exactly dt c |
| StateRungeKutta.ScalarLinearStep | RungeKutta4/RungeKutta4.cs:65-69 | the four slope equations of y' = λy give the weighted sum y (z + z²/2 + z³/6 + z⁴/24), z = λ dt |
| StateRungeKutta.Step4Linear | RungeKutta4/RungeKutta4.cs:62-71 | for f(t, Y) = λY the increment is Y scaled by the fourth-order Taylor polynomial of exp(λ dt) - 1 |
| FixedStep.Add | RungeKutta4/Program.cs:149-155 | a new array of X's length with X[i] + Y[i]; inputs unchanged |
| FixedStep.Add4 | RungeKutta4/Program.cs:157-163 | a new array of X1's length with X1[i] + 2 X2[i] + 2 X3[i] + X4[i]; inputs unchanged |
| FixedStep.Mul | RungeKutta4/Program.cs:165-171 | a new array of X's length with X[i] * y; X unchanged |
| FixedStep.WeightedSum4IsSumOfScaled | RungeKutta4/Program.cs:157-163 | the `Add4` weighting equals X1 + 2 X2 + 2 X3 + X4 built from `Add` and `Mul` |
| FixedStep.DXa | RungeKutta4/Program.cs:141-145 | a pair whose velocity entry is a and whose position entry is X[1] + a·dt |
| FixedStep.DX | RungeKutta4/Program.cs:147 | `dX(t, X)` is `dXa(X, F(t))` with the forcing F a parameter: a pair whose velocity entry is F(t) and whose position entry is X[1] + F(t)·dt; vectors shorter than two are returned unchanged |
| FixedStep.DXAdmissible | RungeKutta4/Program.cs:147 | `dX` maps (position, velocity) pairs to pairs |
| FixedStep.RK4Step | RungeKutta4/Program.cs:179-184 | one loop iteration keeps the vector length |
| FixedStep.RK4StepConstantSlope | RungeKutta4/Program.cs:179-184 | for a constant derivative c one iteration adds exactly dt c |
| FixedStep.CountStep | RungeKutta4/Program.cs:177 | advancing t by dt leaves one iteration fewer |
| FixedStep.CountIsFirstTimePast | RungeKutta4/Program.cs:177 | the loop times before `Count` are ≤ t2 and the one at `Count` is > t2 |
| FixedStep.CountExact | RungeKutta4/Program.cs:177 | a loop that stops at the first time past t2 runs floor((t2 - t1)/dt) + 1 times |
| FixedStep.CountIsCapacity | RungeKutta4/Program.cs:176-177 | for dt > 0 and t1 ≤ t2 the list capacity equals the number of loop iterations, floor((t2 - t1)/dt) + 1 |
| FixedStep.TimeAtIsLinear | RungeKutta4/Program.cs:177 | after i iterations the loop time is t1 + i·dt |
| FixedStep.TrajectoryStable | RungeKutta4/Program.cs:186 | further iterations only append: recorded entries never change |
| FixedStep.TrajectoryEntry | RungeKutta4/Program.cs:177-186 | entry i is the step at loop time i from entry i - 1, and the first is from X0 |
| FixedStep.RK4TrajectoryEntry | RungeKutta4/Program.cs:175-186 | each recorded state has X0's length and is one `RK4Step` from the previous recorded state (from X0 for the first); X0 itself is not recorded |
| FixedStep.StepAtRest | RungeKutta4/Program.cs:141-184 | with zero forcing, one iteration from (x, 0) stays at (x, 0) |
| FixedStep.TrajectoryAtRest | RungeKutta4/Program.cs:141-190 | with zero forcing, every recorded state from (x, 0) is (x, 0) |
| FixedStep.Step | RungeKutta4/Program.cs:179-184 | the loop body builds a new array holding `RK4Step` of the old state, from the helper calls |
| FixedStep.Loop | RungeKutta4/Program.cs:175-187 | the loop records one new array per loop time ≤ t2, each distinct from the others, stops at the first time past t2, and holds the trajectory's entries |
| FixedStep.RungeKutta4 | RungeKutta4/Program.cs:173-190 | `None` exactly where creating the output list throws; otherwise a new array of `Count(t1, t2, dt)` pairwise distinct new arrays (none when t1 > t2), entry i holding the i-th state of the RK4 run from X0; X0 unchanged |

## Left out

- Floating point: every `double` is a `real`, so rounding, overflow, NaN and the drift of `t += dt` are not modelled. Accuracy and convergence claims are out of scope.
- Solve4: the source loops have no bound. The model adds `maxSteps` and `maxHalvings` and reports `finished == false` when either is used up, so it does not capture the source's non-termination.
- ListCapacity.CapacityOk: with dt == 0 and t1 == t2 the quotient is NaN, and C# leaves its conversion to `int` unspecified. The model counts that case as the throw; runtimes that convert NaN to 0 go on with capacity 1.
- The list allocation itself is not modelled: only whether the constructor throws. A valid but very large capacity can still fail for lack of memory.
- Console output of step-size changes (RungeKutta4.cs:37, 46) is omitted; it has no effect on the result.
- Generic `T : IComputable<T>`: modelled as the `Ops<T>` record of the same operators. IComputable.cs is not part of this model beyond that. The facts the driver needs of the default value are the hypothesis `ZeroLaws`, proved for `State`.
- `State.ToString` (State.cs:14) is not modelled: it only formats output.
- The forcing `F`, `Gauss` and `Pow2` (Program.cs:135-139) and `dState` in SystemModel.cs use transcendental functions. `dX` takes the forcing as a parameter instead.
- DX: on a vector shorter than two, where the source would throw, the model returns the vector unchanged.
- RungeKutta4: once the output list is created, requires `dt > 0` or `t1 > t2`, because otherwise the source loop does not end. It also requires `f` to keep the vector length (`Admissible`). The source also runs when `f` returns longer arrays, and throws when they are shorter.
- Add, Add4: the index-out-of-range exception for a second (or later) array shorter than the first is a precondition.
- DXa: the source throws on a vector shorter than two; the model requires length at least two.
- Plotting, image export and file output (Program.cs:21-133), ThicknessEx.cs and ColorsEx.cs are out of scope: they are I/O and a plotting library.
