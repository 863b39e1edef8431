/** One explicit-Euler step of the microbial fuel cell model: Monod growth,
    first-order biomass decay, substrate consumption through the yield, the
    clamp of substrate at zero, and the conversion of the (unclamped)
    consumption rate into a current and, by Ohm's law, a voltage.

    All quantities are `real`: an exact-arithmetic abstraction of the
    floating-point numbers the model computes with. */
module Kinetics {

  import RealArith

  /** Faraday constant, C/mol. */
  const Faraday: real := 96485.0
  /** Electrons released per mole of substrate oxidized. */
  const ElectronsPerMole: real := 4.0
  /** The two factors the electron rate is multiplied by before it becomes a
      current: 1e-3, then 3600 (a factor of 3.6 overall). */
  const UnitScale: real := 0.001
  const SecondsPerHour: real := 3600.0

  /** Current produced per unit of electron rate, n * F * 1e-3 * 3600. */
  const CurrentPerRate: real := ElectronsPerMole * Faraday * UnitScale * SecondsPerHour

  /** The model parameters. `rInt` is declared by the model but never used. */
  datatype Params = Params(
    muMax: real,  // 1/h, maximum specific growth rate
    ks: real,     // mg/L, half-saturation constant
    biomassYield: real,  // mg biomass per mg COD
    decay: real,  // 1/h, decay coefficient b
    qe: real,     // mol e- per mg COD removed
    rInt: real,   // ohm, internal resistance
    rExt: real    // ohm, external resistance
  )

  /** The parameter values the simulation script uses. */
  const ScriptParams: Params := Params(0.4, 100.0, 0.5, 0.02, 0.01, 10.0, 100.0)

  /** The carried state: substrate (COD) and biomass concentrations. */
  datatype State = State(s: real, x: real)

  /** What one step appends to the four output traces: the state it carries
      forward (new substrate and biomass), its current and its voltage. */
  datatype Sample = Sample(next: State, current: real, voltage: real)

  /** The divisions of one step are defined: by `Ks + S`, by `Y` and by `dt`. */
  predicate StepDefined(p: Params, st: State, dt: real)
  {
    p.ks + st.s != 0.0 && p.biomassYield != 0.0 && dt != 0.0
  }

  /** Monod specific growth rate. */
  function Monod(muMax: real, ks: real, s: real): (mu: real)
    requires ks + s != 0.0
    ensures s == 0.0 ==> mu == 0.0
    ensures muMax == 0.0 ==> mu == 0.0
  {
    muMax * s / (ks + s)
  }

  /** Biomass increment: growth minus first-order decay over one step. */
  function BiomassIncrement(mu: real, x: real, decay: real, dt: real): (dX: real)
    ensures x == 0.0 || dt == 0.0 ==> dX == 0.0
  {
    (mu * x - decay * x) * dt
  }

  /** Substrate increment: biomass growth divided by the yield, negated. */
  function SubstrateIncrement(mu: real, x: real, biomassYield: real, dt: real): (dS: real)
    requires biomassYield != 0.0
    ensures mu == 0.0 || x == 0.0 || dt == 0.0 ==> dS == 0.0
  {
    -(1.0 / biomassYield) * mu * x * dt
  }

  /** `max(S, 0)`: the least value that is neither below s nor below 0. */
  function ClampAtZero(s: real): (c: real)
    ensures c >= 0.0 && c >= s
    ensures c == s || c == 0.0
  {
    if s < 0.0 then 0.0 else s
  }

  /** Electron release rate from a substrate increment, mol e-/L/h. */
  function ElectronRate(dS: real, qe: real, dt: real): (re: real)
    requires dt != 0.0
    ensures dS == 0.0 ==> re == 0.0
  {
    -dS * qe / dt
  }

  /** The current for an electron rate: the rate is rescaled by 1e-3 and
      3600, then multiplied by n * F. */
  function CurrentFromRate(re: real): (i: real)
    ensures i == CurrentPerRate * re
    ensures CurrentPerRate == 1389384.0
  {
    ElectronsPerMole * Faraday * (re * UnitScale * SecondsPerHour)
  }

  /** The increment the step applies to the substrate, before the clamp. */
  function RawSubstrateIncrement(p: Params, st: State, dt: real): (dS: real)
    requires p.ks + st.s != 0.0 && p.biomassYield != 0.0
    ensures st.s == 0.0 || p.muMax == 0.0 || st.x == 0.0 || dt == 0.0 ==> dS == 0.0
  {
    SubstrateIncrement(Monod(p.muMax, p.ks, st.s), st.x, p.biomassYield, dt)
  }

  /** One loop iteration: the new substrate and biomass and that step's
      current and voltage. The current is computed from the increment
      before the clamp. */
  function Step(p: Params, st: State, dt: real): (r: Sample)
    requires StepDefined(p, st, dt)
    ensures r.next.s >= 0.0
    ensures r.next.s >= st.s + RawSubstrateIncrement(p, st, dt)
    ensures r.next.s == 0.0 || r.next.s == st.s + RawSubstrateIncrement(p, st, dt)
    ensures r.voltage == r.current * p.rExt
  {
    var mu := Monod(p.muMax, p.ks, st.s);
    var dX := BiomassIncrement(mu, st.x, p.decay, dt);
    var dS := SubstrateIncrement(mu, st.x, p.biomassYield, dt);
    var i := CurrentFromRate(ElectronRate(dS, p.qe, dt));
    Sample(State(ClampAtZero(st.s + dS), st.x + dX), i, i * p.rExt)
  }

  /** The state the next step starts from. */
  function Next(p: Params, st: State, dt: real): (r: State)
    requires StepDefined(p, st, dt)
    ensures r.s >= 0.0
  {
    Step(p, st, dt).next
  }

  // ---------------------------------------------------------------------
  // Properties of the parts of a step

  /** The biomass does not change when growth balances decay, when there is
      no biomass, or over a zero-length step. */
  lemma BiomassIncrementVanishes(mu: real, x: real, decay: real, dt: real)
    ensures mu == decay || x == 0.0 || dt == 0.0 ==> BiomassIncrement(mu, x, decay, dt) == 0.0
  {
  }

  /** Without growth the biomass is multiplied by 1 - b*dt. */
  lemma BiomassDecayFactor(x: real, decay: real, dt: real)
    ensures x + BiomassIncrement(0.0, x, decay, dt) == x * (1.0 - decay * dt)
  {
  }

  /** The substrate consumed, times the yield, is the biomass grown:
      -dS * Y == mu * X * dt. */
  lemma SubstrateYieldBalance(mu: real, x: real, biomassYield: real, dt: real)
    requires biomassYield != 0.0
    ensures -SubstrateIncrement(mu, x, biomassYield, dt) * biomassYield == mu * x * dt
  {
  }

  /** The electron rate accounts for the consumed substrate over the step:
      re * dt == -dS * qe. */
  lemma ElectronRateBalance(dS: real, qe: real, dt: real)
    requires dt != 0.0
    ensures ElectronRate(dS, qe, dt) * dt == -dS * qe
  {
  }

  // ---------------------------------------------------------------------
  // Properties of one step

  /** For non-negative substrate and positive `Ks` and `mu_max`, the Monod
      rate lies in [0, mu_max) and is zero exactly when the substrate is. */
  lemma MonodBounds(muMax: real, ks: real, s: real)
    requires s >= 0.0 && ks > 0.0 && muMax > 0.0
    ensures 0.0 <= Monod(muMax, ks, s) < muMax
    ensures Monod(muMax, ks, s) == 0.0 <==> s == 0.0
  {
    var f := s / (ks + s);
    RealArith.FractionBelowOne(s, ks + s);
    RealArith.ProductPositive(muMax, 1.0 - f);
    RealArith.ProductNonNegative(muMax, f);
    assert Monod(muMax, ks, s) == muMax * f;
    if s != 0.0 {
      RealArith.ProductPositive(muMax, f);
    }
  }

  /** The Monod rate is non-negative whenever substrate, `Ks` and `mu_max`
      are; this also covers mu_max == 0. */
  lemma MonodNonNegative(muMax: real, ks: real, s: real)
    requires s >= 0.0 && ks > 0.0 && muMax >= 0.0
    ensures Monod(muMax, ks, s) >= 0.0
  {
    var f := s / (ks + s);
    RealArith.FractionBelowOne(s, ks + s);
    RealArith.ProductNonNegative(muMax, f);
    assert Monod(muMax, ks, s) == muMax * f;
  }

  /** With non-negative substrate, `Ks`, `mu_max` and biomass, and positive
      yield and step, the substrate never grows over a step. */
  lemma SubstrateNonIncreasing(p: Params, st: State, dt: real)
    requires st.s >= 0.0 && st.x >= 0.0 && p.ks > 0.0
    requires p.muMax >= 0.0 && p.biomassYield > 0.0 && dt > 0.0
    ensures Step(p, st, dt).next.s <= st.s
  {
    MonodNonNegative(p.muMax, p.ks, st.s);
    RealArith.ConsumptionSign(p.biomassYield, Monod(p.muMax, p.ks, st.s), st.x, dt);
  }

  /** Biomass has no floor, but it stays non-negative over a step whose
      growth rate is non-negative and whose decay b*dt is at most 1. */
  lemma BiomassNonNegative(p: Params, st: State, dt: real)
    requires StepDefined(p, st, dt)
    requires st.s >= 0.0 && st.x >= 0.0 && p.ks > 0.0 && p.muMax >= 0.0
    requires dt > 0.0 && p.decay * dt <= 1.0
    ensures Step(p, st, dt).next.x >= 0.0
  {
    MonodNonNegative(p.muMax, p.ks, st.s);
    RealArith.EulerUpdateNonNegative(st.x, Monod(p.muMax, p.ks, st.s), p.decay, dt);
  }

  /** Without growth (mu_max == 0) or without substrate, biomass only
      decays: it is multiplied by 1 - b*dt. */
  lemma BiomassDecaysWithoutGrowth(p: Params, st: State, dt: real)
    requires StepDefined(p, st, dt)
    requires p.muMax == 0.0 || st.s == 0.0
    ensures Monod(p.muMax, p.ks, st.s) == 0.0
    ensures Step(p, st, dt).next.x == st.x * (1.0 - p.decay * dt)
    ensures Step(p, st, dt).current == 0.0 && Step(p, st, dt).voltage == 0.0
  {
    assert Monod(p.muMax, p.ks, st.s) == 0.0;
    assert RawSubstrateIncrement(p, st, dt) == 0.0;
  }

  /** Zero substrate is a fixed point: the growth rate and the increment are
      zero, the substrate stays zero, and no current or voltage is produced. */
  lemma ZeroSubstrateFixedPoint(p: Params, st: State, dt: real)
    requires StepDefined(p, st, dt) && st.s == 0.0
    ensures Monod(p.muMax, p.ks, st.s) == 0.0 && RawSubstrateIncrement(p, st, dt) == 0.0
    ensures Step(p, st, dt).next.s == 0.0
    ensures Step(p, st, dt).current == 0.0 && Step(p, st, dt).voltage == 0.0
  {
    BiomassDecaysWithoutGrowth(p, st, dt);
  }

  /** With mu_max == 0 and non-negative substrate, the substrate is unchanged
      and the biomass becomes exactly X * (1 - b*dt). */
  lemma DecayOnlyStep(p: Params, st: State, dt: real)
    requires StepDefined(p, st, dt) && p.muMax == 0.0 && st.s >= 0.0
    ensures Next(p, st, dt) == State(st.s, st.x * (1.0 - p.decay * dt))
    ensures Step(p, st, dt).current == 0.0 && Step(p, st, dt).voltage == 0.0
  {
    BiomassDecaysWithoutGrowth(p, st, dt);
  }

  /** The current is n*F*3.6 times the electron rate of the increment before
      the clamp. When the clamp does not fire this is the electron rate of
      the substrate actually removed; when it fires (and qe, dt > 0) the
      current exceeds what the removed substrate accounts for. */
  lemma CurrentFromUnclampedIncrement(p: Params, st: State, dt: real)
    requires StepDefined(p, st, dt)
    ensures Step(p, st, dt).current
         == CurrentPerRate * ElectronRate(RawSubstrateIncrement(p, st, dt), p.qe, dt)
    ensures st.s + RawSubstrateIncrement(p, st, dt) >= 0.0 ==>
              Step(p, st, dt).current
              == CurrentPerRate * ElectronRate(Step(p, st, dt).next.s - st.s, p.qe, dt)
    ensures st.s + RawSubstrateIncrement(p, st, dt) < 0.0 && p.qe > 0.0 && dt > 0.0 ==>
              Step(p, st, dt).current
              > CurrentPerRate * ElectronRate(Step(p, st, dt).next.s - st.s, p.qe, dt)
  {
    var dS := RawSubstrateIncrement(p, st, dt);
    var r := Step(p, st, dt);
    var re := ElectronRate(dS, p.qe, dt);
    assert r.current == CurrentFromRate(re);
    if st.s + dS >= 0.0 {
      assert r.next.s - st.s == dS;
    } else if p.qe > 0.0 && dt > 0.0 {
      // The clamp removes only st.s, less than -dS.
      assert -(r.next.s - st.s) < -dS;
      RealArith.ScaledQuotientMonotone(-(r.next.s - st.s), -dS, p.qe, dt);
    }
  }

  /** On a step that starts with positive substrate and biomass and has
      positive rates, yield, qe, step and external resistance, substrate is
      consumed and both current and voltage are strictly positive. */
  lemma StepOutputsPositive(p: Params, st: State, dt: real)
    requires st.s > 0.0 && st.x > 0.0
    requires p.muMax > 0.0 && p.ks > 0.0 && p.biomassYield > 0.0 && p.qe > 0.0
    requires dt > 0.0 && p.rExt > 0.0
    ensures Step(p, st, dt).next.s < st.s
    ensures Step(p, st, dt).current > 0.0 && Step(p, st, dt).voltage > 0.0
  {
    MonodBounds(p.muMax, p.ks, st.s);
    RealArith.ConsumptionSign(p.biomassYield, Monod(p.muMax, p.ks, st.s), st.x, dt);
    var dS := RawSubstrateIncrement(p, st, dt);
    RealArith.ScaledQuotientPositive(-dS, p.qe, dt);
    assert ElectronRate(dS, p.qe, dt) > 0.0;
    CurrentFromUnclampedIncrement(p, st, dt);
    var r := Step(p, st, dt);
    RealArith.ProductPositive(r.current, p.rExt);
  }

  /** Scaling the external resistance by c scales the voltage by c and
      leaves everything else of the step unchanged. */
  lemma StepVoltageLinearInResistance(p: Params, st: State, dt: real, c: real)
    requires StepDefined(p, st, dt)
    ensures var q := p.(rExt := c * p.rExt);
      StepDefined(q, st, dt) &&
      Step(q, st, dt) == Step(p, st, dt).(voltage := c * Step(p, st, dt).voltage)
  {
    var q := p.(rExt := c * p.rExt);
    assert q.muMax == p.muMax && q.ks == p.ks && q.biomassYield == p.biomassYield;
    assert q.decay == p.decay && q.qe == p.qe;
    var r, rq := Step(p, st, dt), Step(q, st, dt);
    assert rq.next.s == r.next.s && rq.next.x == r.next.x && rq.current == r.current;
    RealArith.ProductRegroup(r.current, c, p.rExt);
  }

  /** The internal resistance affects no output of a step. */
  lemma StepIgnoresInternalResistance(p: Params, st: State, dt: real, rInt: real)
    requires StepDefined(p, st, dt)
    ensures StepDefined(p.(rInt := rInt), st, dt)
    ensures Step(p.(rInt := rInt), st, dt) == Step(p, st, dt)
  {
    var q := p.(rInt := rInt);
    assert q.muMax == p.muMax && q.ks == p.ks && q.biomassYield == p.biomassYield;
    assert q.decay == p.decay && q.qe == p.qe && q.rExt == p.rExt;
  }

  /** Under the script's parameters, starting from S = 1000 and X = 100 with
      dt = 100/999, the first Monod rate is 0.4 * 1000 / 1100 = 4/11, substrate
      drops and current and voltage are positive. */
  lemma ScriptFirstStep()
    ensures Monod(ScriptParams.muMax, ScriptParams.ks, 1000.0) == 4.0 / 11.0
    ensures StepDefined(ScriptParams, State(1000.0, 100.0), 100.0 / 999.0)
    ensures Step(ScriptParams, State(1000.0, 100.0), 100.0 / 999.0).next.s < 1000.0
    ensures Step(ScriptParams, State(1000.0, 100.0), 100.0 / 999.0).current > 0.0
    ensures Step(ScriptParams, State(1000.0, 100.0), 100.0 / 999.0).voltage > 0.0
  {
    StepOutputsPositive(ScriptParams, State(1000.0, 100.0), 100.0 / 999.0);
  }
}
