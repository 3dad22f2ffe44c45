/**
 * The circuit of the experiment and the per-frame update that drives it:
 * closing K1 charges the condenser from the battery, closing K2 (with K1
 * open) lets it leak through the high resistance, and with both keys open
 * the charge holds.
 *
 * `Math.exp` is not modelled: the step takes the exponential as a function
 * `exp`, and the leak properties assume only what `IsDecay` says of it.
 */
module Physics {
  import opened Types
  import opened Numeric

  /** The lab's fixed constants. */
  const CAPACITANCE_UF: real := 1.0
  const RESISTANCE_MOHM: real := 5.0
  const BATTERY_VOLTAGE: real := 100.0

  /** Rate of approach to the battery voltage while K1 is closed, per second. */
  const CHARGE_RATE: real := 15.0

  /** The state the lab starts in. */
  const INITIAL_STATE: SimulationState :=
    SimulationState(false, false, 0.0, BATTERY_VOLTAGE, CAPACITANCE_UF, RESISTANCE_MOHM, 0.0)

  /** The time constant of the leakage path. */
  function Rc(s: SimulationState): (rc: real)
    ensures s.resistance > 0.0 && s.capacitance > 0.0 ==> rc > 0.0
  {
    s.resistance * s.capacitance
  }

  /** The leak branch divides by the time constant; the other branches do not. */
  predicate LeakDefined(s: SimulationState) {
    s.isK1Closed || !s.isK2Closed || Rc(s) != 0.0
  }

  /** What any exponential `exp(x)` with `x <= 0` is: a factor in (0, 1]. */
  ghost predicate IsDecay(exp: real -> real) {
    forall x :: x <= 0.0 ==> 0.0 < exp(x) <= 1.0
  }

  /**
   * The voltage the frame's updater computes before it clamps at 0. While
   * charging, the gap to the battery voltage shrinks by the factor
   * `1 - 15 * dt`.
   */
  function NextVoltage(s: SimulationState, dt: real, exp: real -> real): (v': real)
    requires LeakDefined(s)
    ensures s.isK1Closed ==>
      s.maxVoltage - v' == (s.maxVoltage - s.capacitorVoltage) * (1.0 - CHARGE_RATE * dt)
  {
    var v := s.capacitorVoltage;
    if s.isK1Closed then v + (s.maxVoltage - v) * CHARGE_RATE * dt
    else if s.isK2Closed then v * exp(-dt / Rc(s))
    else v
  }

  /**
   * One animation frame, `dt` seconds after the previous one. Only the
   * voltage and the clock change; the voltage is never negative afterwards
   * and the clock has advanced by exactly `dt`.
   */
  function Step(s: SimulationState, dt: real, exp: real -> real): (r: SimulationState)
    requires LeakDefined(s)
    ensures r.capacitorVoltage >= 0.0
    ensures r.simTime == s.simTime + dt
    ensures r.(capacitorVoltage := s.capacitorVoltage, simTime := s.simTime) == s
  {
    s.(capacitorVoltage := Max(0.0, NextVoltage(s, dt, exp)), simTime := s.simTime + dt)
  }

  /** Charging takes priority: with K1 closed the position of K2 makes no difference. */
  lemma ChargeIgnoresK2(s: SimulationState, dt: real, exp: real -> real, k2: bool)
    requires s.isK1Closed
    ensures Step(s.(isK2Closed := k2), dt, exp).capacitorVoltage == Step(s, dt, exp).capacitorVoltage
    ensures Step(s, dt, exp).capacitorVoltage
         == Max(0.0, s.capacitorVoltage + (s.maxVoltage - s.capacitorVoltage) * CHARGE_RATE * dt)
  {
  }

  /** With both keys open a non-negative voltage is left exactly as it was. */
  lemma HoldWhenOpen(s: SimulationState, dt: real, exp: real -> real)
    requires !s.isK1Closed && !s.isK2Closed && s.capacitorVoltage >= 0.0
    ensures Step(s, dt, exp) == s.(simTime := s.simTime + dt)
  {
  }

  lemma ScaleWithin(x: real, a: real)
    requires x >= 0.0 && 0.0 <= a <= 1.0
    ensures 0.0 <= x * a <= x
  {
  }

  lemma NonPositiveQuotient(x: real, y: real)
    requires x <= 0.0 && y > 0.0
    ensures x / y <= 0.0
  {
  }

  /**
   * Charging from between 0 and the battery voltage, with a frame short
   * enough that `15 * dt <= 1`, moves the voltage up and never past the
   * battery voltage.
   */
  lemma ChargeBound(s: SimulationState, dt: real, exp: real -> real)
    requires s.isK1Closed
    requires 0.0 <= s.capacitorVoltage <= s.maxVoltage
    requires 0.0 <= CHARGE_RATE * dt <= 1.0
    ensures s.capacitorVoltage <= Step(s, dt, exp).capacitorVoltage <= s.maxVoltage
  {
    var v, m := s.capacitorVoltage, s.maxVoltage;
    var gain := (m - v) * CHARGE_RATE * dt;
    assert gain == (m - v) * (CHARGE_RATE * dt);
    ScaleWithin(m - v, CHARGE_RATE * dt);
    assert v <= v + gain <= m;
    assert NextVoltage(s, dt, exp) == v + gain;
  }

  /**
   * Nothing bounds `dt`: a one-second frame (say, after the tab was hidden)
   * while charging from 0 lands far above the battery voltage.
   */
  lemma ChargeOvershoot(exp: real -> real)
    ensures Step(INITIAL_STATE.(isK1Closed := true), 1.0, exp).capacitorVoltage == 1500.0
    ensures Step(INITIAL_STATE.(isK1Closed := true), 1.0, exp).capacitorVoltage > BATTERY_VOLTAGE
  {
  }

  /** The leak factor of a non-negative frame lies in (0, 1]. */
  lemma DecayFactor(exp: real -> real, dt: real, rc: real)
    requires IsDecay(exp) && dt >= 0.0 && rc > 0.0
    ensures 0.0 < exp(-dt / rc) <= 1.0
  {
    NonPositiveQuotient(-dt, rc);
  }

  /**
   * With K1 open and K2 closed the voltage leaks: it is multiplied by the
   * decay factor exp(-dt / RC), and the clamp at 0 never bites.
   */
  lemma LeakFormula(s: SimulationState, dt: real, exp: real -> real)
    requires !s.isK1Closed && s.isK2Closed
    requires IsDecay(exp) && dt >= 0.0 && Rc(s) > 0.0
    requires s.capacitorVoltage >= 0.0
    ensures Step(s, dt, exp).capacitorVoltage == s.capacitorVoltage * exp(-dt / Rc(s))
  {
    DecayFactor(exp, dt, Rc(s));
  }

  /** Leaking through the resistance, over a non-negative `dt`, never raises the voltage. */
  lemma LeakBound(s: SimulationState, dt: real, exp: real -> real)
    requires !s.isK1Closed && s.isK2Closed
    requires IsDecay(exp) && dt >= 0.0 && Rc(s) > 0.0
    requires s.capacitorVoltage >= 0.0
    ensures 0.0 <= Step(s, dt, exp).capacitorVoltage <= s.capacitorVoltage
  {
    var e := exp(-dt / Rc(s));
    assert Step(s, dt, exp).capacitorVoltage == Max(0.0, s.capacitorVoltage * e);
    assert 0.0 <= s.capacitorVoltage * e <= s.capacitorVoltage by {
      DecayFactor(exp, dt, Rc(s));
      ScaleWithin(s.capacitorVoltage, e);
    }
  }

  /** Total time covered by a sequence of frames. */
  function Elapsed(dts: seq<real>): real {
    if dts == [] then 0.0 else dts[0] + Elapsed(dts[1..])
  }

  /**
   * The frame loop: one `Step` per entry of `dts`, in order. The keys and
   * constants are those of the start, and the clock has advanced by the
   * frames' total.
   */
  function Run(s: SimulationState, dts: seq<real>, exp: real -> real): (r: SimulationState)
    requires LeakDefined(s)
    ensures r.(capacitorVoltage := s.capacitorVoltage, simTime := s.simTime) == s
    ensures r.simTime == s.simTime + Elapsed(dts)
    ensures dts != [] ==> r.capacitorVoltage >= 0.0
    decreases |dts|
  {
    if dts == [] then s else Run(Step(s, dts[0], exp), dts[1..], exp)
  }

  /** With both keys open, no sequence of frames changes a non-negative voltage. */
  lemma {:induction false} RunHoldsWhenOpen(s: SimulationState, dts: seq<real>, exp: real -> real)
    requires !s.isK1Closed && !s.isK2Closed && s.capacitorVoltage >= 0.0
    ensures Run(s, dts, exp).capacitorVoltage == s.capacitorVoltage
    decreases |dts|
  {
    if dts != [] {
      HoldWhenOpen(s, dts[0], exp);
      RunHoldsWhenOpen(Step(s, dts[0], exp), dts[1..], exp);
    }
  }

  /** While leaking, the voltage never rises over any sequence of non-negative frames. */
  lemma {:induction false} RunLeakNonIncreasing(s: SimulationState, dts: seq<real>, exp: real -> real)
    requires !s.isK1Closed && s.isK2Closed
    requires IsDecay(exp) && Rc(s) > 0.0 && s.capacitorVoltage >= 0.0
    requires forall i :: 0 <= i < |dts| ==> dts[i] >= 0.0
    ensures 0.0 <= Run(s, dts, exp).capacitorVoltage <= s.capacitorVoltage
    decreases |dts|
  {
    if dts != [] {
      LeakBound(s, dts[0], exp);
      RunLeakNonIncreasing(Step(s, dts[0], exp), dts[1..], exp);
    }
  }

  /** While charging with short frames, the voltage only rises and stays at most the battery voltage. */
  lemma {:induction false} RunChargeBounded(s: SimulationState, dts: seq<real>, exp: real -> real)
    requires s.isK1Closed && 0.0 <= s.capacitorVoltage <= s.maxVoltage
    requires forall i :: 0 <= i < |dts| ==> 0.0 <= CHARGE_RATE * dts[i] <= 1.0
    ensures s.capacitorVoltage <= Run(s, dts, exp).capacitorVoltage <= s.maxVoltage
    decreases |dts|
  {
    if dts != [] {
      ChargeBound(s, dts[0], exp);
      RunChargeBounded(Step(s, dts[0], exp), dts[1..], exp);
    }
  }

  /** `toggleK1`: flips K1 and nothing else. */
  function ToggleK1(s: SimulationState): (r: SimulationState)
    ensures r.isK1Closed == !s.isK1Closed
    ensures r.(isK1Closed := s.isK1Closed) == s
  {
    s.(isK1Closed := !s.isK1Closed)
  }

  /** `toggleK2`: flips K2 and nothing else. */
  function ToggleK2(s: SimulationState): (r: SimulationState)
    ensures r.isK2Closed == !s.isK2Closed
    ensures r.(isK2Closed := s.isK2Closed) == s
  {
    s.(isK2Closed := !s.isK2Closed)
  }

  /** Pressing a key twice puts the circuit back as it was. */
  lemma ToggleTwice(s: SimulationState)
    ensures ToggleK1(ToggleK1(s)) == s
    ensures ToggleK2(ToggleK2(s)) == s
  {
  }

  /** The circuit part of `resetExperiment`: both keys open, the condenser empty, constants and clock kept. */
  function Reset(s: SimulationState): (r: SimulationState)
    ensures !r.isK1Closed && !r.isK2Closed && r.capacitorVoltage == 0.0
    ensures r.maxVoltage == s.maxVoltage && r.capacitance == s.capacitance
    ensures r.resistance == s.resistance && r.simTime == s.simTime
  {
    s.(isK1Closed := false, isK2Closed := false, capacitorVoltage := 0.0)
  }

  /** After a reset the condenser stays empty, frame after frame, until a key is pressed. */
  lemma {:induction false} ResetThenRun(s: SimulationState, dts: seq<real>, exp: real -> real)
    ensures Run(Reset(s), dts, exp).capacitorVoltage == 0.0
  {
    RunHoldsWhenOpen(Reset(s), dts, exp);
  }
}
