/** The simulation loop: starting from an initial substrate and biomass, the
    step is applied once per point of the time axis, and each iteration
    appends its new substrate, new biomass, current and voltage to four
    traces. `StateAfter` and `SampleAt` give the values the loop carries and
    appends, and the lemmas state what holds of every step of a run. */
module Simulation {

  import opened Kinetics
  import RealArith

  /** What a run needs for every step's divisions to be defined: the first
      state must avoid `Ks + S == 0`, and `Ks > 0` keeps every later (clamped,
      hence non-negative) substrate away from it. */
  predicate RunDefined(p: Params, init: State, dt: real)
  {
    p.ks > 0.0 && p.ks + init.s != 0.0 && p.biomassYield != 0.0 && dt != 0.0
  }

  /** The state carried into iteration k (k == 0 is the initial state). */
  function StateAfter(p: Params, init: State, dt: real, k: nat): (st: State)
    requires RunDefined(p, init, dt)
    ensures StepDefined(p, st, dt)
    ensures k > 0 ==> st.s >= 0.0
    decreases k
  {
    if k == 0 then init else Next(p, StateAfter(p, init, dt, k - 1), dt)
  }

  /** The four values iteration i appends. Its substrate and biomass are
      the state after i + 1 steps, so each trace entry is the state at the
      end of its iteration. */
  function SampleAt(p: Params, init: State, dt: real, i: nat): (r: Sample)
    requires RunDefined(p, init, dt)
    ensures r.next == StateAfter(p, init, dt, i + 1)
    ensures r.next.s >= 0.0 && r.voltage == r.current * p.rExt
  {
    Step(p, StateAfter(p, init, dt, i), dt)
  }

  /** r raised to the power k. */
  function Power(r: real, k: nat): (v: real)
    decreases k
  {
    if k == 0 then 1.0 else r * Power(r, k - 1)
  }

  /** Runs n steps from (s0, x0), appending to the substrate, biomass, current
      and voltage traces. Each trace has exactly n entries, entry i holds what
      iteration i produced, substrate entries are never negative and every
      voltage is the current times the external resistance. */
  method Simulate(p: Params, s0: real, x0: real, dt: real, n: nat)
    returns (sTrace: seq<real>, xTrace: seq<real>, iTrace: seq<real>, vTrace: seq<real>)
    requires RunDefined(p, State(s0, x0), dt)
    ensures |sTrace| == n && |xTrace| == n && |iTrace| == n && |vTrace| == n
    ensures forall i :: 0 <= i < n ==> sTrace[i] == SampleAt(p, State(s0, x0), dt, i).next.s
    ensures forall i :: 0 <= i < n ==> xTrace[i] == SampleAt(p, State(s0, x0), dt, i).next.x
    ensures forall i :: 0 <= i < n ==> iTrace[i] == SampleAt(p, State(s0, x0), dt, i).current
    ensures forall i :: 0 <= i < n ==> vTrace[i] == SampleAt(p, State(s0, x0), dt, i).voltage
    ensures EntriesConsistent(sTrace, iTrace, vTrace, p.rExt)
  {
    ghost var init := State(s0, x0);
    var st := State(s0, x0);
    sTrace, xTrace, iTrace, vTrace := [], [], [], [];
    for k := 0 to n
      invariant st == StateAfter(p, init, dt, k)
      invariant |sTrace| == k && |xTrace| == k && |iTrace| == k && |vTrace| == k
      invariant forall i :: 0 <= i < k ==> sTrace[i] == SampleAt(p, init, dt, i).next.s
      invariant forall i :: 0 <= i < k ==> xTrace[i] == SampleAt(p, init, dt, i).next.x
      invariant forall i :: 0 <= i < k ==> iTrace[i] == SampleAt(p, init, dt, i).current
      invariant forall i :: 0 <= i < k ==> vTrace[i] == SampleAt(p, init, dt, i).voltage
    {
      var o := Step(p, st, dt);
      assert o == SampleAt(p, init, dt, k);
      st := o.next;
      sTrace := sTrace + [st.s];
      xTrace := xTrace + [st.x];
      iTrace := iTrace + [o.current];
      vTrace := vTrace + [o.voltage];
    }
    TraceEntriesRelated(p, init, dt, sTrace, iTrace, vTrace);
  }

  /** Substrate entries are never negative and every voltage entry is the
      current entry times the external resistance. */
  predicate EntriesConsistent(sTrace: seq<real>, iTrace: seq<real>, vTrace: seq<real>, rExt: real)
  {
    |iTrace| == |sTrace| && |vTrace| == |sTrace| &&
    forall i :: 0 <= i < |sTrace| ==> sTrace[i] >= 0.0 && vTrace[i] == iTrace[i] * rExt
  }

  /** Traces that hold the samples of a run are consistent. */
  lemma TraceEntriesRelated(p: Params, init: State, dt: real, sTrace: seq<real>, iTrace: seq<real>, vTrace: seq<real>)
    requires RunDefined(p, init, dt)
    requires |iTrace| == |sTrace| && |vTrace| == |sTrace|
    requires forall i :: 0 <= i < |sTrace| ==> sTrace[i] == SampleAt(p, init, dt, i).next.s
    requires forall i :: 0 <= i < |sTrace| ==> iTrace[i] == SampleAt(p, init, dt, i).current
    requires forall i :: 0 <= i < |sTrace| ==> vTrace[i] == SampleAt(p, init, dt, i).voltage
    ensures EntriesConsistent(sTrace, iTrace, vTrace, p.rExt)
  {
    forall i | 0 <= i < |sTrace|
      ensures sTrace[i] >= 0.0 && vTrace[i] == iTrace[i] * p.rExt
    {
      var o := SampleAt(p, init, dt, i);
      assert sTrace[i] == o.next.s && iTrace[i] == o.current && vTrace[i] == o.voltage;
    }
  }

  // ---------------------------------------------------------------------
  // Properties of a whole run

  /** Once the substrate reaches zero it stays zero, and every later step
      produces zero current and zero voltage. */
  lemma {:induction false} ZeroSubstrateAbsorbing(p: Params, init: State, dt: real, j: nat, k: nat)
    requires RunDefined(p, init, dt)
    requires j <= k && StateAfter(p, init, dt, j).s == 0.0
    ensures StateAfter(p, init, dt, k).s == 0.0
    ensures SampleAt(p, init, dt, k).current == 0.0 && SampleAt(p, init, dt, k).voltage == 0.0
    decreases k
  {
    if k > j {
      ZeroSubstrateAbsorbing(p, init, dt, j, k - 1);
      ZeroSubstrateFixedPoint(p, StateAfter(p, init, dt, k - 1), dt);
    }
    ZeroSubstrateFixedPoint(p, StateAfter(p, init, dt, k), dt);
  }

  /** With mu_max == 0 and non-negative initial substrate, the substrate never
      changes and the biomass after k steps is X0 * (1 - b*dt)^k. */
  lemma {:induction false} DecayOnlyStates(p: Params, init: State, dt: real, k: nat)
    requires RunDefined(p, init, dt) && p.muMax == 0.0 && init.s >= 0.0
    ensures StateAfter(p, init, dt, k) == State(init.s, init.x * Power(1.0 - p.decay * dt, k))
    decreases k
  {
    if k > 0 {
      DecayOnlyStates(p, init, dt, k - 1);
      DecayOnlyNext(p, StateAfter(p, init, dt, k - 1), dt, init.x, k);
    }
  }

  /** A decay-only step takes biomass X0 * r^(k-1) to X0 * r^k, where
      r == 1 - b*dt. */
  lemma DecayOnlyNext(p: Params, st: State, dt: real, x0: real, k: nat)
    requires StepDefined(p, st, dt) && p.muMax == 0.0 && st.s >= 0.0
    requires k > 0 && st.x == x0 * Power(1.0 - p.decay * dt, k - 1)
    ensures Next(p, st, dt) == State(st.s, x0 * Power(1.0 - p.decay * dt, k))
  {
    var r := 1.0 - p.decay * dt;
    DecayOnlyStep(p, st, dt);
    RealArith.ProductRotate(x0, Power(r, k - 1), r);
  }

  /** With mu_max == 0 and non-negative initial substrate, the state after k
      steps is (S0, X0 * (1 - b*dt)^k) and no step produces current or
      voltage. */
  lemma DecayOnlyRun(p: Params, init: State, dt: real, k: nat)
    requires RunDefined(p, init, dt) && p.muMax == 0.0 && init.s >= 0.0
    ensures StateAfter(p, init, dt, k) == State(init.s, init.x * Power(1.0 - p.decay * dt, k))
    ensures SampleAt(p, init, dt, k).current == 0.0 && SampleAt(p, init, dt, k).voltage == 0.0
  {
    DecayOnlyStates(p, init, dt, k);
    DecayOnlyStep(p, StateAfter(p, init, dt, k), dt);
  }

  /** Scaling the external resistance by c leaves every carried state
      unchanged. */
  lemma {:induction false} ResistanceLeavesStatesUnchanged(p: Params, init: State, dt: real, c: real, k: nat)
    requires RunDefined(p, init, dt)
    ensures RunDefined(p.(rExt := c * p.rExt), init, dt)
    ensures StateAfter(p.(rExt := c * p.rExt), init, dt, k) == StateAfter(p, init, dt, k)
    decreases k
  {
    var q := p.(rExt := c * p.rExt);
    if k > 0 {
      ResistanceLeavesStatesUnchanged(p, init, dt, c, k - 1);
      var prev := StateAfter(p, init, dt, k - 1);
      StepVoltageLinearInResistance(p, prev, dt, c);
      assert StateAfter(q, init, dt, k) == Next(q, prev, dt) == Next(p, prev, dt);
    }
  }

  /** Scaling the external resistance by c leaves every substrate, biomass
      and current sample unchanged and scales every voltage sample by c. */
  lemma VoltageScalesWithResistance(p: Params, init: State, dt: real, c: real, k: nat)
    requires RunDefined(p, init, dt)
    ensures RunDefined(p.(rExt := c * p.rExt), init, dt)
    ensures SampleAt(p.(rExt := c * p.rExt), init, dt, k).next == SampleAt(p, init, dt, k).next
    ensures SampleAt(p.(rExt := c * p.rExt), init, dt, k).current == SampleAt(p, init, dt, k).current
    ensures SampleAt(p.(rExt := c * p.rExt), init, dt, k).voltage == c * SampleAt(p, init, dt, k).voltage
  {
    var q := p.(rExt := c * p.rExt);
    ResistanceLeavesStatesUnchanged(p, init, dt, c, k);
    var st := StateAfter(p, init, dt, k);
    StepVoltageLinearInResistance(p, st, dt, c);
    assert SampleAt(q, init, dt, k) == Step(q, st, dt);
  }

  /** The internal resistance affects no carried state and no sample. */
  lemma {:induction false} InternalResistanceUnused(p: Params, init: State, dt: real, rInt: real, k: nat)
    requires RunDefined(p, init, dt)
    ensures RunDefined(p.(rInt := rInt), init, dt)
    ensures StateAfter(p.(rInt := rInt), init, dt, k) == StateAfter(p, init, dt, k)
    ensures SampleAt(p.(rInt := rInt), init, dt, k) == SampleAt(p, init, dt, k)
    decreases k
  {
    if k > 0 {
      InternalResistanceUnused(p, init, dt, rInt, k - 1);
      StepIgnoresInternalResistance(p, StateAfter(p, init, dt, k - 1), dt, rInt);
    }
    StepIgnoresInternalResistance(p, StateAfter(p, init, dt, k), dt, rInt);
  }

  /** From non-negative initial concentrations, with non-negative mu_max and
      b*dt at most 1, substrate and biomass stay non-negative on every step. */
  lemma {:induction false} ConcentrationsNonNegative(p: Params, init: State, dt: real, k: nat)
    requires RunDefined(p, init, dt) && init.s >= 0.0 && init.x >= 0.0
    requires p.muMax >= 0.0 && dt > 0.0 && p.decay * dt <= 1.0
    ensures StateAfter(p, init, dt, k).s >= 0.0 && StateAfter(p, init, dt, k).x >= 0.0
    decreases k
  {
    if k > 0 {
      ConcentrationsNonNegative(p, init, dt, k - 1);
      BiomassNonNegative(p, StateAfter(p, init, dt, k - 1), dt);
    }
  }

  /** Under the same conditions and a positive yield, the substrate trace
      never increases: a later state holds no more substrate than an
      earlier one. */
  lemma {:induction false} SubstrateNonIncreasingRun(p: Params, init: State, dt: real, j: nat, k: nat)
    requires RunDefined(p, init, dt) && init.s >= 0.0 && init.x >= 0.0
    requires p.muMax >= 0.0 && p.biomassYield > 0.0 && dt > 0.0 && p.decay * dt <= 1.0
    requires j <= k
    ensures StateAfter(p, init, dt, k).s <= StateAfter(p, init, dt, j).s
    decreases k
  {
    if k > j {
      SubstrateNonIncreasingRun(p, init, dt, j, k - 1);
      ConcentrationsNonNegative(p, init, dt, k - 1);
      SubstrateNonIncreasing(p, StateAfter(p, init, dt, k - 1), dt);
    }
  }
}
