/**
 * The observation table: readings recorded from the live circuit, deleted
 * by id, and annotated with the resistance that the leakage law gives,
 * R = t / (C * ln(theta0 / thetaT)).
 *
 * Ids come from the clock and nothing makes them unique, so deleting and
 * annotating act on every row with the given id. `Math.log` is not
 * modelled: the calculation takes the logarithm as a function `ln`, and
 * assumes only what `LogPositive` says of it.
 */
module Ledger {
  import opened Types
  import opened Numeric
  import opened Physics

  /** At or below this final deflection a reading is refused. */
  const MIN_FINAL_DEFLECTION: real := 0.1
  /** At or below this ratio theta0 / thetaT the calculation is put off. */
  const MIN_RATIO: real := 1.001

  /** What any natural logarithm is above 1: positive. */
  ghost predicate LogPositive(ln: real -> real) {
    forall x :: x > 1.0 ==> ln(x) > 0.0
  }

  /**
   * The row `recordReading` builds: the stopwatch time to two decimals, the
   * battery voltage as theta0, the condenser's voltage to one decimal as
   * thetaT, and no resistance yet.
   */
  function NewReading(id: int, stopwatchSeconds: real, voltage: real): (r: LabReading)
    ensures r.id == id && r.initialDeflection == BATTERY_VOLTAGE && r.calculatedR == None
    ensures Abs(r.timeSeconds - stopwatchSeconds) * 100.0 <= 0.5
    ensures Abs(r.finalDeflection - voltage) * 10.0 <= 0.5
    ensures voltage >= 0.0 ==> r.finalDeflection >= 0.0
    ensures Abs(stopwatchSeconds) < TO_FIXED_LIMIT ==> OnGrid(r.timeSeconds, 100.0)
    ensures Abs(voltage) < TO_FIXED_LIMIT ==> OnGrid(r.finalDeflection, 10.0)
  {
    assert Pow10(1) == 10 && Pow10(2) == 100;
    LabReading(id, ToFixed(stopwatchSeconds, 2), BATTERY_VOLTAGE, ToFixed(voltage, 1), None)
  }

  /** The stopwatch counts in tenths of a second, and those are recorded without loss. */
  lemma RecordedTimeExact(id: int, tenths: nat, voltage: real)
    ensures NewReading(id, tenths as real / 10.0, voltage).timeSeconds == tenths as real / 10.0
  {
    assert Pow10(2) == 100;
    assert (10 * tenths) as real / 100.0 == tenths as real / 10.0;
    ToFixedOnGrid(10 * tenths, 2);
  }

  /** `[...prev, r]`: the new row goes at the end, the earlier rows stay as they were. */
  function Record(rs: seq<LabReading>, r: LabReading): (out: seq<LabReading>)
    ensures |out| == |rs| + 1 && out[|rs|] == r
    ensures out[..|rs|] == rs
  {
    rs + [r]
  }

  /**
   * `prev.filter(r => r.id !== id)`: exactly the rows with another id stay,
   * and when no row has the id nothing changes.
   */
  function Delete(rs: seq<LabReading>, id: int): (out: seq<LabReading>)
    ensures forall x :: x in out <==> x in rs && x.id != id
    ensures |out| <= |rs|
    ensures (forall x :: x in rs ==> x.id != id) ==> out == rs
  {
    if rs == [] then []
    else if rs[0].id == id then Delete(rs[1..], id)
    else [rs[0]] + Delete(rs[1..], id)
  }

  /** Deleting works row by row, so the rows that stay keep their order. */
  lemma {:induction false} DeleteAppend(a: seq<LabReading>, b: seq<LabReading>, id: int)
    ensures Delete(a + b, id) == Delete(a, id) + Delete(b, id)
  {
    if a == [] {
      assert a + b == b;
    } else {
      assert (a + b)[0] == a[0];
      assert (a + b)[1..] == a[1..] + b;
      DeleteAppend(a[1..], b, id);
    }
  }

  /** Deleting a row alone. */
  lemma DeleteSingle(x: LabReading, id: int)
    ensures Delete([x], id) == if x.id == id then [] else [x]
  {
    assert [x][1..] == [];
  }

  /** Number of rows carrying the id. */
  function CountId(rs: seq<LabReading>, id: int): nat {
    if rs == [] then 0 else (if rs[0].id == id then 1 else 0) + CountId(rs[1..], id)
  }

  /** Deleting removes exactly the rows with the id. */
  lemma {:induction false} DeleteLength(rs: seq<LabReading>, id: int)
    ensures |Delete(rs, id)| == |rs| - CountId(rs, id)
  {
    if rs != [] {
      DeleteLength(rs[1..], id);
    }
  }

  /** Deleting twice by the same id is deleting once. */
  lemma DeleteIdempotent(rs: seq<LabReading>, id: int)
    ensures Delete(Delete(rs, id), id) == Delete(rs, id)
  {
  }

  /** No two rows share an id. */
  ghost predicate UniqueIds(rs: seq<LabReading>) {
    forall i, j :: 0 <= i < |rs| && 0 <= j < |rs| && i != j ==> rs[i].id != rs[j].id
  }

  /** With unique ids, deleting the id of row k removes row k and only row k. */
  lemma DeleteUniqueAt(rs: seq<LabReading>, k: nat)
    requires UniqueIds(rs) && k < |rs|
    ensures Delete(rs, rs[k].id) == rs[..k] + rs[k + 1..]
  {
    var id := rs[k].id;
    assert rs == rs[..k] + ([rs[k]] + rs[k + 1..]);
    DeleteAppend(rs[..k], [rs[k]] + rs[k + 1..], id);
    DeleteAppend([rs[k]], rs[k + 1..], id);
    DeleteSingle(rs[k], id);
    assert forall x :: x in rs[..k] ==> x.id != id;
    assert forall x :: x in rs[k + 1..] ==> x.id != id;
  }

  /** Recording a row with a fresh id and then deleting that id gives the table back. */
  lemma RecordThenDelete(rs: seq<LabReading>, r: LabReading)
    requires forall x :: x in rs ==> x.id != r.id
    ensures Delete(Record(rs, r), r.id) == rs
  {
    DeleteAppend(rs, [r], r.id);
    DeleteSingle(r, r.id);
  }

  /**
   * The `map` of `calculateR`: every row with the id gets `value` as its
   * resistance, every other row is left alone, and the length is kept.
   */
  function SetR(rs: seq<LabReading>, id: int, value: real): (out: seq<LabReading>)
    ensures |out| == |rs|
    ensures forall i :: 0 <= i < |rs| ==>
      out[i] == if rs[i].id == id then rs[i].(calculatedR := Some(value)) else rs[i]
  {
    if rs == [] then []
    else [if rs[0].id == id then rs[0].(calculatedR := Some(value)) else rs[0]] + SetR(rs[1..], id, value)
  }

  /** Setting the same resistance twice is setting it once. */
  lemma SetRIdempotent(rs: seq<LabReading>, id: int, value: real)
    ensures SetR(SetR(rs, id, value), id, value) == SetR(rs, id, value)
  {
  }

  /**
   * The resistance the leakage law gives for a reading, in megaohms:
   * t / (C * ln(theta0 / thetaT)). Multiplied back by C and the logarithm
   * it gives the measured time, and it has the sign of that time.
   */
  function ResistanceOf(r: LabReading, ln: real -> real): (value: real)
    requires LogPositive(ln)
    requires r.finalDeflection > MIN_FINAL_DEFLECTION
    requires r.initialDeflection / r.finalDeflection > MIN_RATIO
    ensures value * (CAPACITANCE_UF * ln(r.initialDeflection / r.finalDeflection)) == r.timeSeconds
    ensures r.timeSeconds > 0.0 ==> value > 0.0
    ensures r.timeSeconds == 0.0 ==> value == 0.0
  {
    var logRatio := ln(r.initialDeflection / r.finalDeflection);
    assert logRatio > 0.0;
    r.timeSeconds / (CAPACITANCE_UF * logRatio)
  }

  /** The three ways a press of "Calc" can end. */
  datatype CalcOutcome =
    | Invalid                                        // refused with an alert, table unchanged
    | Deferred                                       // no measurable leakage yet, table unchanged
    | Updated(readings: seq<LabReading>, value: real)  // the new table and the stored resistance

  /**
   * `calculateR` for the row `r`: refused when thetaT <= 0.1 or theta0 <= 0,
   * put off when theta0 / thetaT <= 1.001, and otherwise every row with r's
   * id gets R rounded to two decimals, the other rows unchanged.
   */
  function CalculateR(rs: seq<LabReading>, r: LabReading, ln: real -> real): (out: CalcOutcome)
    requires LogPositive(ln)
    ensures out.Invalid? <==> r.finalDeflection <= MIN_FINAL_DEFLECTION || r.initialDeflection <= 0.0
    ensures out.Deferred? <==>
      r.finalDeflection > MIN_FINAL_DEFLECTION && r.initialDeflection > 0.0
      && r.initialDeflection / r.finalDeflection <= MIN_RATIO
    ensures out.Updated? ==> |out.readings| == |rs|
    ensures out.Updated? ==> forall i :: 0 <= i < |rs| ==>
      out.readings[i] == if rs[i].id == r.id then rs[i].(calculatedR := Some(out.value)) else rs[i]
    ensures out.Updated? ==> Abs(out.value - ResistanceOf(r, ln)) * 100.0 <= 0.5
    ensures out.Updated? && Abs(ResistanceOf(r, ln)) < TO_FIXED_LIMIT ==> OnGrid(out.value, 100.0)
  {
    if r.finalDeflection <= MIN_FINAL_DEFLECTION || r.initialDeflection <= 0.0 then Invalid
    else
      var ratio := r.initialDeflection / r.finalDeflection;
      if ratio <= MIN_RATIO then Deferred
      else
        assert Pow10(2) == 100;
        var value := ToFixed(ResistanceOf(r, ln), 2);
        Updated(SetR(rs, r.id, value), value)
  }

  /** Calculating again for the same row changes nothing more. */
  lemma CalculateRTwice(rs: seq<LabReading>, r: LabReading, ln: real -> real)
    requires LogPositive(ln)
    requires CalculateR(rs, r, ln).Updated?
    ensures CalculateR(CalculateR(rs, r, ln).readings, r, ln) == CalculateR(rs, r, ln)
  {
    var out := CalculateR(rs, r, ln);
    SetRIdempotent(rs, r.id, out.value);
  }

  /** Ten seconds to fall from 100 to 50 on a 1 uF condenser: R = 10 / ln 2, to two decimals. */
  lemma HalvingExample(ln: real -> real)
    requires LogPositive(ln)
    ensures var r := LabReading(1, 10.0, 100.0, 50.0, None);
      CalculateR([r], r, ln)
      == Updated([r.(calculatedR := Some(ToFixed(10.0 / ln(2.0), 2)))], ToFixed(10.0 / ln(2.0), 2))
  {
    var r := LabReading(1, 10.0, 100.0, 50.0, None);
    assert r.initialDeflection / r.finalDeflection == 2.0;
    assert [r][1..] == [];
  }

  /** A final deflection of 0.05 is below the threshold and is refused. */
  lemma TooSmallExample(ln: real -> real)
    requires LogPositive(ln)
    ensures CalculateR([], LabReading(1, 5.0, 100.0, 0.05, None), ln) == Invalid
  {
  }

  /** From 100 to 99.95 the ratio is about 1.0005, under the tolerance, so nothing is stored. */
  lemma NoLeakageExample(ln: real -> real)
    requires LogPositive(ln)
    ensures CalculateR([], LabReading(1, 1.0, 100.0, 99.95, None), ln) == Deferred
  {
  }
}
