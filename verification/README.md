# Iodine-135 / Xenon-135 transient solver — Dafny model

This project models the numerical engine of a small Python program. The program follows the iodine-135 and xenon-135 concentrations in a reactor core after a change of neutron flux. It has five parts:

- the Bateman decay/production equations for the pair (I, Xe);
- the equilibrium (steady-state) initial conditions at a given flux fraction;
- a generic fixed-step fourth-order Runge-Kutta (RK4) integrator;
- a matrix-exponential propagator that repeats y := M·y with M = expm(dt·A);
- the analytical xenon formula, the poisoning transform ρ and the relative errors between numerical and analytical ρ.

Floating-point numbers become Dafny `real`. States handed to the RK4 integrator are `seq<real>`, like the Python lists. States of the matrix method are the pair `Linear.State`. Python exceptions become `Results.Result` errors: `DivisionByZero` for ZeroDivisionError and `ShortDerivative` for the IndexError of a derivative shorter than the state. The equilibrium search also returns a `Result`, whose `NoUniqueRoot` error marks a singular system. That one is not a Python exception: `calc_initial_conditions` uses whatever `root` returns without checking it. numpy's inf and nan become the `None` of `Results.Option`.

Three foreign computations are parameters, not models:

- `scipy.linalg.expm` is the argument `expm: Mat2 -> Mat2`. The model applies it once to dt·A.
- `np.exp(-λ t)` enters as the two decay factors `decayXe` and `decayI`.
- `scipy.optimize.root` is replaced by the closed-form root. The residual is affine in (I0, Xe0), so that root exists and is unique exactly when the determinant λI·(λXe + σXe·f·Φ) is non-zero. `Bateman.EquilibriumIsUnique` proves the non-singular direction and `Bateman.SingularHasNoUniqueRoot` the singular one.

Modules follow the source files:

- `Bateman` models bateman_eq.py.
- `RungeKutta` models runge_kutta.py.
- `MatrixMethod` models matrix_method.py.
- `AnalyticalSol` models analytical_sol.py.
- `Parameters` models parameters.py.
- `ComputeSolutions` holds the facts about the RK4 call at compute_solutions.py:31, which hands `bateman_equations` to `runge_kutta`.
- `Trajectory` holds the sample type and the step count that both integrators share.
- `Linear` holds the 2×2 algebra taken from numpy.
- `Results` holds the error datatypes.

## Behaviour of the code worth knowing

- **Analytical xenon at t = 0.** Both decay factors are 1 at t = 0. The analytical formula then gives the flux-1 equilibrium xenon Xe0, not zero. The formula is the shutdown transient from that equilibrium (`Bateman.AnalyticStartsAtEquilibrium`, `Bateman.AnalyticSolvesShutdown`).
- **Relative error at index 0.** The analytical value at t = 0 is Xe0, which is positive, so the relative error there is defined (`AnalyticalSol.FirstErrorIsDefined`). When an analytical value is zero, the model returns an undefined (`None`) entry.
- **Step count.** `int()` truncates toward zero, and `range(n)` is empty for a negative n. With q = (tf − t0)/dt, the loop count is therefore ⌊q⌋ for q ≥ 0 and 0 otherwise (`Trajectory.StepsTaken`).
- **Equilibrium solver.** `calc_initial_conditions` uses `root`'s result without checking it. The model returns the exact root when the system is non-singular and `Err(NoUniqueRoot)` exactly when it is singular.

## Model

| member | source | states |
|---|---|---|
| `Parameters.DefaultIsUsable` | parameters.py:7-14 | The shipped constants are all positive and λI > λXe, so the analytical formula is defined for them. |
| `Bateman.Derivative` | bateman_eq.py:5-20 | Iodine is produced at rate a and lost only by decay: dI + λI·I = a. Iodine decay feeds xenon, so the total changes only by the sources less the xenon decay: dI + dXe = a + b − λXe·Xe. |
| `Bateman.Field` | bateman_eq.py:17-20 | The list-valued derivative handed to RK4 maps every pair [I, Xe] to the unforced Bateman derivative, and every other list to the empty list. |
| `Bateman.UnforcedDerivativeIsLinear` | bateman_eq.py:17-20 | With a = b = 0 the derivative is linear: f(c·y1 + y2) = c·f(y1) + f(y2). |
| `Bateman.SourcesShiftDerivative` | bateman_eq.py:5-20 | The sources a and b only add (a, b) to the unforced derivative, so the model is affine. |
| `Bateman.Residual` | bateman_eq.py:32-47 | The iodine residual is fission production minus decay. The xenon residual is the direct yield plus iodine decay, minus decay and burn-up at the combined rate λXe + σXe·f·Φ. |
| `Bateman.ResidualIsAffine` | bateman_eq.py:42-47 | The equilibrium residual is a fixed matrix applied to (I0, Xe0) plus a constant. That matrix's determinant is λI·(λXe + σXe·f·Φ). |
| `Bateman.InitialConditions` | bateman_eq.py:22-52 | Succeeds exactly when the determinant is non-zero, and then returns a state at which the residual is (0, 0). Otherwise it fails with NoUniqueRoot. |
| `Bateman.EquilibriumIsUnique` | bateman_eq.py:44-51 | Every root of the residual is the state InitialConditions returns. |
| `Bateman.SingularHasNoUniqueRoot` | bateman_eq.py:42-51 | When the determinant is zero, every root of the residual has another, different root next to it, so no unique root exists. |
| `Bateman.EquilibriumIsPositive` | bateman_eq.py:44-45 | With valid constants and f ≥ 0 the equilibrium exists. Both concentrations are strictly positive for f > 0 and both are zero for f = 0. |
| `Bateman.Rho` | bateman_eq.py:54-65 | Defined exactly when ν·Σf ≠ 0, and then ρ·ν·Σf = σXe·Xe. Otherwise it is undefined, as numpy's inf/nan. |
| `Bateman.RhoRoundTrip` | bateman_eq.py:54-65 | ρ(Xe) = σXe·Xe/(ν·Σf) has the inverse ρ ↦ ρ·ν·Σf/σXe, in both directions. |
| `Bateman.RhoIsLinear` | bateman_eq.py:64 | ρ is linear and ρ(0) = 0. |
| `Bateman.RhoIsIncreasing` | bateman_eq.py:64 | With valid constants ρ is always defined, and x < y holds if and only if ρ(x) < ρ(y). |
| `Bateman.XePopAnalytical` | bateman_eq.py:68-82 | Defined exactly when λXe + σXe·Φ ≠ 0 and λI ≠ λXe. Otherwise it fails with DivisionByZero. |
| `Bateman.AnalyticStartsAtEquilibrium` | bateman_eq.py:78-82 | With both decay factors equal to 1 (t = 0), the formula equals the equilibrium Xe0 at flux fraction 1. |
| `Bateman.AnalyticSolvesShutdown` | bateman_eq.py:78-82 | Let I = I0·e^(−λI t), with I0 the flux-1 equilibrium iodine. Then the pair (I, analytical Xe) satisfies the unforced Bateman equations: the derivative equals the term-by-term time derivative of the formula. |
| `Bateman.AnalyticIsPositive` | bateman_eq.py:78-82 | When the decay factors are positive and ordered as the decay constants are, the analytical xenon is strictly positive. |
| `Bateman.RelativeError` | bateman_eq.py:96 | Defined exactly when the analytical value is non-zero. Then err·ana = ana − num. |
| `Bateman.RelativeErrorSign` | bateman_eq.py:96 | For a positive analytical value the error is positive iff num < ana, zero iff num = ana, and negative iff num > ana. |
| `Bateman.CalculateErrors` | bateman_eq.py:84-96 | Length min(\|num\|, \|ana\|). Entry i is defined iff ana[i] ≠ 0, and then it satisfies err·ana[i] = ana[i] − num[i]. |
| `Trajectory.Trunc` | runge_kutta.py:16 | Truncation toward zero: r ≤ x < r + 1 for x ≥ 0, and r − 1 < x ≤ r for x < 0. |
| `Trajectory.StepsTaken` | runge_kutta.py:16-25 | Fails with DivisionByZero iff dt = 0. Otherwise, with q = (tf − t0)/dt, the loop count is ⌊q⌋ when q ≥ 0 and 0 when q < 0. |
| `Trajectory.ShortRangeTakesNoStep` | runge_kutta.py:16-25 | With 0 < dt and tf − t0 < dt no step is taken. |
| `Trajectory.IntegerTimesDivide` | runge_kutta.py:16 | For integer t0 ≤ tf and integer dt > 0, the step count is the integer quotient (tf − t0) / dt. |
| `RungeKutta.Rk4Step` | runge_kutta.py:27-39 | A successful step keeps the state's length. A failure is always ShortDerivative. A step from an n-component state never fails when the derivative returns at least n components for every n-component input. |
| `RungeKutta.Rk4StepIsClassical` | runge_kutta.py:27-39 | For such a derivative, the increment form of the code equals the textbook slope form y' = y + dt·(k1 + 2k2 + 2k3 + k4)/6. |
| `RungeKutta.Rk4Steps` | runge_kutta.py:25-42 | k steps give k samples. Sample i is at time t + (i+1)·dt. Steps never fail for a derivative that is long enough on states of y's length. |
| `RungeKutta.Rk4Trajectory` | runge_kutta.py:1-44 | dt = 0 gives DivisionByZero. Otherwise, for a derivative that is long enough on states of y0's length, the result exists. It has StepsTaken + 1 samples, starts with (t0, y0), and sample i is at time t0 + i·dt. |
| `RungeKutta.ShortRangeIsInitialSample` | runge_kutta.py:16-25 | If 0 < dt and tf − t0 < dt, the trajectory is just [(t0, y0)]. |
| `RungeKutta.StepsFollowRecurrence` | runge_kutta.py:25-42 | Each state produced by the loop is one RK4 step from the previous one. |
| `RungeKutta.RungeKuttaRecurrence` | runge_kutta.py:22-42 | Consecutive trajectory states satisfy y[i+1] = Rk4Step(y[i]). |
| `RungeKutta.RungeKuttaKeepsLength` | runge_kutta.py:27-39 | Every state of a trajectory has \|y0\| components. |
| `RungeKutta.ZeroFieldStepIsIdentity` | runge_kutta.py:39 | If f always returns the zero vector, one step returns the state unchanged. |
| `RungeKutta.ZeroFieldStaysPut` | runge_kutta.py:25-42 | If f always returns the zero vector, every state of the trajectory equals y0. |
| `RungeKutta.LinearStagesAreTaylor` | runge_kutta.py:27-39 | For a linear derivative, the four stages combine to I + X + X²/2 + X³/6 + X⁴/24 applied to the state. |
| `RungeKutta.LinearStepOnPairs` | runge_kutta.py:27-39 | On a pair, the list-based step of a linear derivative computes the same stages as the pair-based formulation. |
| `RungeKutta.LinearStepIsTaylor` | runge_kutta.py:27-39 | For f(y) = A·y, one step of size h multiplies the state by the degree-4 Taylor polynomial of h·A. |
| `ComputeSolutions.FieldIsLongEnough` | compute_solutions.py:31 | The Bateman derivative returns a pair for every pair, so RK4 stages from a pair never index past an increment. |
| `ComputeSolutions.FieldStepIsClassical` | compute_solutions.py:31 | On the program's own derivative, an RK4 step from a pair never fails and equals the textbook slope form. |
| `ComputeSolutions.FieldTrajectoryIsClassical` | compute_solutions.py:31 | RK4 on the Bateman derivative, from a pair and with dt ≠ 0, always succeeds. Every state is a pair, and each is the textbook RK4 step of the one before. |
| `MatrixMethod.SystemMatrix` | matrix_method.py:27-30 | A applied to any state is the unforced Bateman derivative. Its trace is −(λI + λXe) and its determinant λI·λXe, so its eigenvalues are −λI and −λXe. |
| `MatrixMethod.SystemMatrixReproducesDerivative` | matrix_method.py:27-30 | A = [[−λI, 0], [λI, −λXe]] applied to y equals the Bateman derivative with a = b = 0. |
| `MatrixMethod.FieldActsAsSystemMatrix` | matrix_method.py:27-30 | The derivative handed to RK4 acts on every pair as multiplication by A. |
| `MatrixMethod.MatrixSteps` | matrix_method.py:34-38 | k steps give k samples, and sample i is at time t + (i+1)·dt. |
| `MatrixMethod.MatrixTrajectory` | matrix_method.py:5-40 | Fails iff dt = 0, with DivisionByZero. Otherwise it has StepsTaken + 1 samples (the same count as RK4), starts with (t0, y0), and sample i is at time t0 + i·dt. |
| `MatrixMethod.StepsArePowers` | matrix_method.py:34-38 | The i-th sample after (t, y) holds M^(i+1)·y. |
| `MatrixMethod.MatrixStatesArePowers` | matrix_method.py:31-38 | State i of the trajectory is M^i·y0, with M = expm(dt·A) computed once. |
| `MatrixMethod.MatrixTrajectoryIsLinear` | matrix_method.py:35 | Scaling y0 by c scales every state by c and leaves the times unchanged. |
| `MatrixMethod.ZeroStateStaysZero` | matrix_method.py:35 | A zero initial state stays zero along the whole trajectory. |
| `MatrixMethod.StepsAgree` | matrix_method.py:31-38 | For a linear derivative, RK4 steps and steps with M = Taylor4(dt·A) produce the same states. |
| `MatrixMethod.TaylorMatrixMatchesRungeKutta` | matrix_method.py:31-38 | With expm replaced by its degree-4 Taylor polynomial, the matrix method and RK4 on the Bateman derivative give equal trajectories: same length, same times and same states. |
| `AnalyticalSol.XeFlux` | analytical_sol.py:4-18 | Defined exactly when λXe + σXe·Φ ≠ 0 and λI ≠ λXe. Otherwise it fails with DivisionByZero. |
| `AnalyticalSol.XeFluxAgrees` | analytical_sol.py:14-18 | Xe_flux equals Xe_pop_analytical for every input, error cases included. |
| `AnalyticalSol.FirstErrorIsDefined` | analytical_sol.py:14-18 | At t = 0 the formula gives the flux-1 equilibrium Xe0. Its ρ is positive, so the relative error at index 0 is defined. |
| `AnalyticalSol.CalculateErrors` | analytical_sol.py:20-32 | The zip-based list has length min(\|num\|, \|ana\|). |
| `AnalyticalSol.CalculateErrorsAgree` | analytical_sol.py:32 | This copy of calculate_errors equals the one in bateman_eq.py, element by element. |
| `AnalyticalSol.ErrorSignConvention` | analytical_sol.py:32 | For a positive analytical value the error is positive iff the numerical value is below it, and zero iff the two are equal. |

## Left out

- `scipy.optimize.root` (bateman_eq.py:49-51): the fixed initial guess (1E21, 1E14), the convergence behaviour and the unchecked result status are foreign. The closed-form root replaces them, and that root is exact rather than within a tolerance.
- `scipy.linalg.expm` (matrix_method.py:31): taken as a parameter. Nothing proves that M = exp(dt·A).
- `np.exp`: the decay factors are inputs. Only two assumptions relate them to a time t. `Bateman.AnalyticIsPositive` assumes their ordering. `Bateman.AnalyticRate`, which `Bateman.AnalyticSolvesShutdown` uses, assumes d/dt e^(−λt) = −λ·e^(−λt).
- Floating-point behaviour: rounding, drift in `t += dt` for non-integer steps, and any claim that RK4, the matrix method and the analytic solution agree within some relative tolerance. None of it holds or fails over the reals.
- `Bateman.RelativeError`: numpy yields inf or nan when the analytical value is zero. The model does not distinguish the two; both become `None`.
- `Bateman.Rho`: numpy yields inf or nan when ν·Σf = 0. The model does not distinguish the two; both become `None`.
- `Bateman.Field`: when the state is not a pair, Python raises ValueError while unpacking. The model instead returns an empty derivative. RK4 then reports ShortDerivative for any non-empty state, and integrates an empty state without error.
- Plotting and output files (plot_results.py, and the plot calls at compute_solutions.py:25-26 and 32), including the float-modulo test that selects which scenarios to plot.
- The execution-time harness (estimate_ex_time.py): wall-clock timing only.
- Command line and orchestration (main.py, and compute_solutions.py apart from its RK4 call): thin loops over flux scenarios that call the modelled operations.
- The `np.linspace` flux sweeps (parameters.py:16-17): configuration data, not logic.
