# Microbial fuel cell simulation model in Dafny

This project models the simulation loop of a microbial fuel cell (MFC) script.
In an MFC, bacteria oxidise a substrate (measured as chemical oxygen demand,
COD), and the electrons they release become an electric current. The script
integrates this with an explicit Euler scheme over a fixed number of equal time
steps. The state is two concentrations: substrate `S` and biomass `X`. Each step
does the following:

- computes the Monod growth rate `mu = mu_max * S / (Ks + S)`;
- computes the biomass increment `dX = (mu*X - b*X) * dt`;
- computes the substrate increment `dS = -(1/Y) * mu * X * dt`;
- adds the increments to the state, then clamps `S` at zero;
- turns the unclamped `dS` into an electron rate `-dS * qe / dt`;
- rescales that rate by `1e-3` and `3600`;
- computes the current `I = n * F * rate`, with `n = 4` and `F = 96485`;
- computes the voltage `V = I * R_ext`;
- appends the new `S`, the new `X`, `I` and `V` to four traces.

The model has three modules:

- `Kinetics` (kinetics.dfy) holds the constants, the parameter record and the
  pure step function `Step`. It also holds the lemmas about a single step.
- `Simulation` (simulation.dfy) holds the loop as the method `Simulate`. The
  method appends to four sequences. It is proved against two specification
  functions: `StateAfter` gives the state carried into iteration k, and
  `SampleAt` gives what iteration k appends. The lemmas about whole runs are
  stated over these two functions.
- `RealArith` (real_arith.dfy) holds small facts about real multiplication and
  division that the other proofs use.

All quantities are `real`. This is an exact-arithmetic abstraction of the
script's floating-point numbers.

- In model/mfbcell.py, the comment on line 41 says the rescaled rate is in
  mol e-/L/s. The code multiplies by `1e-3` and then by `3600`, an overall
  factor of 3.6. The model does the same (`Kinetics.CurrentFromRate`).
- The script has no guard for `Y == 0`, `Ks + S == 0` or `dt == 0`. Depending
  on the case it raises `ZeroDivisionError` or produces `inf`/`NaN` values.
  `1 / Y` (line 33) divides Python numbers and raises. So does `Ks + S` at
  line 31 while `S` is a Python number: on the first step (lines 15, 20) and
  after the clamp at line 37 has returned the integer `0`. Otherwise `S` is a
  NumPy float, and that division, like `/ dt` at line 40 (`dt` is a NumPy
  float, line 10), gives `inf` or `NaN`. The model makes each division a
  precondition instead:
  - `Y != 0`, `Ks + S != 0` and `dt != 0` for one step;
  - `Ks > 0` and `Ks + S0 != 0` for a run.

## Model

| member | source | states |
|---|---|---|
| `Kinetics.Monod` | model/mfbcell.py:31 | the growth rate is defined when `Ks + S != 0`; it is 0 when `S == 0` and when `mu_max == 0` |
| `Kinetics.BiomassIncrement` | model/mfbcell.py:32 | `dX = (mu*X - b*X) * dt`, which is 0 when `X == 0` or `dt == 0`; its other facts are stated in `BiomassIncrementVanishes` and `BiomassDecayFactor` |
| `Kinetics.SubstrateIncrement` | model/mfbcell.py:33 | `dS = -(1/Y) * mu * X * dt`, defined for `Y != 0` and 0 when `mu`, `X` or `dt` is 0; its balance with growth is stated in `SubstrateYieldBalance` |
| `Kinetics.ElectronRate` | model/mfbcell.py:40 | `re = -dS * qe / dt`, defined for `dt != 0` and 0 when `dS == 0`; its balance with `dS` is stated in `ElectronRateBalance` |
| `Kinetics.BiomassIncrementVanishes` | model/mfbcell.py:32 | `dX == 0` when growth equals decay (`mu == b`), when `X == 0` and when `dt == 0` |
| `Kinetics.BiomassDecayFactor` | model/mfbcell.py:32-35 | with `mu == 0` the updated biomass `X + dX` is `X * (1 - b*dt)` |
| `Kinetics.SubstrateYieldBalance` | model/mfbcell.py:33 | for `Y != 0`, the substrate consumed times the yield is the biomass grown: `-dS * Y == mu * X * dt` |
| `Kinetics.RawSubstrateIncrement` | model/mfbcell.py:31-33 | the unclamped `dS` is 0 when `S == 0`, `mu_max == 0`, `X == 0` or `dt == 0` |
| `Kinetics.ClampAtZero` | model/mfbcell.py:37 | `max(S, 0)`: the result is at least 0 and at least `S`, and equals one of them |
| `Kinetics.ElectronRateBalance` | model/mfbcell.py:40 | for `dt != 0`, the electron rate over the step accounts for the consumed substrate: `re * dt == -dS * qe` |
| `Kinetics.CurrentFromRate` | model/mfbcell.py:41-44 | `I == n * F * 1e-3 * 3600 * re`, and that factor is `1389384` (the 3.6 as written) |
| `Kinetics.Step` | model/mfbcell.py:31-47 | after a step the new substrate is `max(S + dS, 0)`: never negative, never below `S + dS`, and either 0 (the clamp fired) or `S + dS`, so a non-negative `S + dS` is kept as it is; and `V == I * R_ext` |
| `Kinetics.Next` | model/mfbcell.py:35-37 | the state carried into the next iteration has non-negative substrate |
| `Kinetics.MonodBounds` | model/mfbcell.py:31 | for `S >= 0`, `Ks > 0`, `mu_max > 0`: `0 <= mu < mu_max`, and `mu == 0` exactly when `S == 0` |
| `Kinetics.MonodNonNegative` | model/mfbcell.py:31 | for `S >= 0`, `Ks > 0`, `mu_max >= 0` the growth rate is non-negative |
| `Kinetics.SubstrateNonIncreasing` | model/mfbcell.py:31-37 | with `S, X >= 0`, `Ks > 0`, `mu_max >= 0`, `Y > 0`, `dt > 0`, a step never increases the substrate |
| `Kinetics.BiomassNonNegative` | model/mfbcell.py:31-35 | there is no biomass floor, but with non-negative growth and `b*dt <= 1` a step keeps non-negative biomass non-negative |
| `Kinetics.BiomassDecaysWithoutGrowth` | model/mfbcell.py:31-47 | when `mu_max == 0` or `S == 0`: `mu == 0`, biomass becomes exactly `X * (1 - b*dt)`, and `I == V == 0` |
| `Kinetics.ZeroSubstrateFixedPoint` | model/mfbcell.py:31-47 | if `S == 0` then `mu == 0` and `dS == 0`, `S` stays 0, and the step's `I` and `V` are 0 |
| `Kinetics.DecayOnlyStep` | model/mfbcell.py:31-37 | with `mu_max == 0` and `S >= 0` the next state is exactly `(S, X * (1 - b*dt))`, and `I == V == 0` |
| `Kinetics.CurrentFromUnclampedIncrement` | model/mfbcell.py:33-44 | `I == 1389384 * (-dS * qe / dt)` with the unclamped `dS`; when the clamp does not fire this is the rate of the substrate actually removed; when it fires (and `qe, dt > 0`) `I` is strictly larger than what the removed substrate accounts for |
| `Kinetics.StepOutputsPositive` | model/mfbcell.py:31-47 | with `S, X, mu_max, Ks, Y, qe, dt, R_ext` all positive, substrate strictly drops and `I > 0`, `V > 0` |
| `Kinetics.StepVoltageLinearInResistance` | model/mfbcell.py:44-47 | replacing `R_ext` by `c * R_ext` leaves `S`, `X`, `I` of the step unchanged and multiplies `V` by `c` |
| `Kinetics.StepIgnoresInternalResistance` | model/mfbcell.py:24-47 | changing `R_int` changes nothing a step produces |
| `Kinetics.ScriptFirstStep` | model/mfbcell.py:5-47 | with the script's constants (`F`, `n`, `mu_max`, `Ks`, `Y`, `b`, `qe`, `R_int`, `R_ext`, held in `Faraday`, `ElectronsPerMole` and `ScriptParams`), `S0 = 1000`, `X0 = 100` and `dt = 100/999`: the first Monod rate is `4/11`, substrate drops, and `I`, `V` are positive |
| `Simulation.StateAfter` | model/mfbcell.py:30-37 | every state the loop reaches keeps all divisions of the next step defined, and after the first step its substrate is non-negative |
| `Simulation.SampleAt` | model/mfbcell.py:30-53 | what iteration i appends: its substrate and biomass are the state after `i + 1` steps, its substrate is non-negative and its voltage is `current * R_ext` |
| `Simulation.Simulate` | model/mfbcell.py:28-53 | the four traces each have exactly `n` entries; entry i of each is the substrate, biomass, current or voltage that iteration i produced; every substrate entry is non-negative and every voltage entry is `current * R_ext` |
| `Simulation.TraceEntriesRelated` | model/mfbcell.py:47-53 | traces holding a run's samples have non-negative substrate entries and voltage entries equal to `current * R_ext` |
| `Simulation.ZeroSubstrateAbsorbing` | model/mfbcell.py:30-47 | once the substrate reaches 0 it stays 0 for every later step, and all later currents and voltages are 0 |
| `Simulation.DecayOnlyNext` | model/mfbcell.py:31-37 | with `mu_max == 0` and `S >= 0`, a step takes biomass `X0 * r^(k-1)` to `X0 * r^k`, where `r == 1 - b*dt` |
| `Simulation.DecayOnlyStates` | model/mfbcell.py:30-37 | with `mu_max == 0` and `S0 >= 0`, the state after k steps is `(S0, X0 * (1 - b*dt)^k)` |
| `Simulation.DecayOnlyRun` | model/mfbcell.py:30-47 | with `mu_max == 0` and `S0 >= 0`, after k steps the state is `(S0, X0 * (1 - b*dt)^k)` and every current and voltage is 0 |
| `Simulation.ResistanceLeavesStatesUnchanged` | model/mfbcell.py:30-47 | scaling `R_ext` by `c` leaves every state a run reaches unchanged |
| `Simulation.VoltageScalesWithResistance` | model/mfbcell.py:30-53 | scaling `R_ext` by `c` leaves the substrate, biomass and current of every sample unchanged and multiplies every voltage sample by `c` |
| `Simulation.InternalResistanceUnused` | model/mfbcell.py:24-53 | `R_int` affects no state and no sample of a run |
| `Simulation.ConcentrationsNonNegative` | model/mfbcell.py:30-37 | from `S0, X0 >= 0`, with `mu_max >= 0`, `dt > 0` and `b*dt <= 1`, substrate and biomass stay non-negative on every step |
| `Simulation.SubstrateNonIncreasingRun` | model/mfbcell.py:30-37 | under the same conditions and `Y > 0`, the substrate never increases: for `j <= k`, `S` after k steps is at most `S` after j steps |

## Left out

- Plotting the four traces (model/mfbcell.py:55-84) is presentation through a foreign library.
- The time axis built by `np.linspace` (model/mfbcell.py:9-10) is not modelled. The step `dt` and the number of steps `n` are parameters; the script uses `dt = 100/999` and `n = 1000`. The loop variable `t` is never read by the loop body.
- IEEE-754 rounding is not modelled: every quantity is an exact `real`. Nothing is claimed about how accurate the Euler scheme is.
- The cases `Y == 0`, `Ks + S == 0` and `dt == 0` are preconditions, not error results. The script either raises `ZeroDivisionError` in them or produces `inf`/`NaN` traces, depending on which division and which step.
- Simulation.Simulate: requires `Ks > 0` and `Ks + S0 != 0`. This is a sufficient condition for every step to be defined. The script is also defined for some runs with `Ks <= 0`, as long as `Ks + S` never hits zero along the way.
- Python's `max(S, 0)` can return `-0.0` for a negative-zero `S`. With exact reals there is no signed zero.
- The model has no separate determinism property: `Simulation.Simulate`'s ensures fix the length and every entry of each trace from `(p, s0, x0, dt, n)`, so equal inputs give equal traces.
