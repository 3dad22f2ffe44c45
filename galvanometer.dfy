/**
 * The galvanometer dial that shows the condenser's voltage: the needle's
 * deflection over a 120 degree sweep, and the eleven ticks of the scale
 * with a number on every other one.
 */
module Galvanometer {
  import opened Types
  import opened Numeric

  /** The needle's angle at zero and at full scale, in degrees. */
  const ANGLE_MIN: real := -60.0
  const ANGLE_MAX: real := 60.0
  const SWEEP: real := 120.0

  /**
   * The reading as a fraction of full scale, clamped to [0, 1]. A zero
   * full scale is not handled here: the division has no real value.
   */
  function Normalized(value: real, maxValue: real): (n: real)
    requires maxValue != 0.0
    ensures 0.0 <= n <= 1.0
    ensures 0.0 <= value / maxValue <= 1.0 ==> n == value / maxValue
    ensures value / maxValue <= 0.0 ==> n == 0.0
    ensures value / maxValue >= 1.0 ==> n == 1.0
  {
    Clamp(value / maxValue, 0.0, 1.0)
  }

  /** The needle's angle: -60 degrees at zero, +60 at full scale, linear in between. */
  function NeedleAngle(value: real, maxValue: real): (angle: real)
    requires maxValue != 0.0
    ensures ANGLE_MIN <= angle <= ANGLE_MAX
  {
    ANGLE_MIN + Normalized(value, maxValue) * SWEEP
  }

  /** On a positive scale the needle rests at -60 for no voltage and pins at +60 at or above full scale. */
  lemma NeedleEnds(value: real, maxValue: real)
    requires maxValue > 0.0
    ensures value <= 0.0 ==> NeedleAngle(value, maxValue) == ANGLE_MIN
    ensures value >= maxValue ==> NeedleAngle(value, maxValue) == ANGLE_MAX
  {
    if value <= 0.0 {
      assert value / maxValue <= 0.0;
    }
    if value >= maxValue {
      assert value / maxValue >= 1.0;
    }
  }

  /** On a positive scale a higher voltage never moves the needle back. */
  lemma NeedleMonotone(value: real, value': real, maxValue: real)
    requires maxValue > 0.0 && value <= value'
    ensures NeedleAngle(value, maxValue) <= NeedleAngle(value', maxValue)
  {
    assert value / maxValue <= value' / maxValue;
    ClampMonotone(value / maxValue, value' / maxValue, 0.0, 1.0);
  }

  /** Within the scale the needle can be read back: its angle determines the voltage. */
  lemma NeedleReadBack(value: real, maxValue: real)
    requires maxValue > 0.0 && 0.0 <= value <= maxValue
    ensures (NeedleAngle(value, maxValue) - ANGLE_MIN) / SWEEP * maxValue == value
  {
    var n := value / maxValue;
    assert 0.0 <= n <= 1.0;
    assert n * maxValue == value;
  }

  /** A number on the dial: the value shown and the rotation that keeps it upright. */
  datatype Numeral = Numeral(number: int, rotation: int)

  /** A tick of the scale: its angle on the dial and, on every other tick, a number. */
  datatype Tick = Tick(angle: int, numeral: Option<Numeral>)

  const TICK_COUNT: nat := 11

  /**
   * The `i`-th tick: 12 degrees apart from -60, labelled `i * 10` when `i` is
   * even. The ticks of the scale lie on the needle's sweep, and a number is
   * turned back by its tick's angle so that it reads upright.
   */
  function TickAt(i: nat): (t: Tick)
    ensures i < TICK_COUNT ==> ANGLE_MIN <= t.angle as real <= ANGLE_MAX
    ensures t.numeral.Some? ==> t.numeral.value.rotation + t.angle == 0
  {
    var angle := -60 + i * 12;
    Tick(angle, if i % 2 == 0 then Some(Numeral(i * 10, -angle)) else None)
  }

  function Ticks(): (ts: seq<Tick>)
    ensures |ts| == TICK_COUNT
  {
    seq(TICK_COUNT, i requires 0 <= i => TickAt(i))
  }

  /**
   * The scale spans the needle's sweep exactly, the ticks are evenly spaced
   * in increasing order, the labels read 0, 20, ..., 100 on the even ticks
   * only, and every label is turned back upright.
   */
  lemma TicksShape()
    ensures Ticks()[0].angle == -60 && Ticks()[TICK_COUNT - 1].angle == 60
    ensures forall i :: 0 < i < TICK_COUNT ==> Ticks()[i].angle == Ticks()[i - 1].angle + 12
    ensures forall i :: 0 <= i < TICK_COUNT ==> (Ticks()[i].numeral.Some? <==> i % 2 == 0)
    ensures forall i :: 0 <= i < TICK_COUNT && Ticks()[i].numeral.Some? ==>
      Ticks()[i].numeral.value.number == i * 10
      && Ticks()[i].numeral.value.rotation + Ticks()[i].angle == 0
  {
  }

  /** The labels, in order, are the six multiples of 20 from 0 to 100. */
  lemma LabelTexts()
    ensures forall i :: 0 <= i < TICK_COUNT && Ticks()[i].numeral.Some? ==>
      0 <= Ticks()[i].numeral.value.number <= 100 && Ticks()[i].numeral.value.number % 20 == 0
  {
  }
}
