/**
 * The handful of JavaScript number operations the lab's code relies on,
 * stated over Dafny's exact `real`: `Math.max`, `Math.min`, the
 * `Math.min(Math.max(x, lo), hi)` clamp, and `parseFloat(x.toFixed(d))`.
 */
module Numeric {

  function Abs(x: real): (r: real)
    ensures r >= 0.0 && (r == x || r == -x)
  {
    if x < 0.0 then -x else x
  }

  /** `Math.max(a, b)`. */
  function Max(a: real, b: real): (r: real)
    ensures r >= a && r >= b
    ensures r == a || r == b
  {
    if a >= b then a else b
  }

  /** `Math.min(a, b)`. */
  function Min(a: real, b: real): (r: real)
    ensures r <= a && r <= b
    ensures r == a || r == b
  {
    if a <= b then a else b
  }

  /** `Math.min(Math.max(x, lo), hi)`, the clamp used for the camera and the needle. */
  function Clamp(x: real, lo: real, hi: real): (r: real)
    ensures lo <= hi ==> lo <= r <= hi
    ensures lo <= x <= hi ==> r == x
    ensures x <= lo <= hi ==> r == lo
    ensures hi <= x ==> r == hi
  {
    Min(Max(x, lo), hi)
  }

  /** The clamp never reorders two inputs. */
  lemma ClampMonotone(x: real, y: real, lo: real, hi: real)
    requires x <= y
    ensures Clamp(x, lo, hi) <= Clamp(y, lo, hi)
  {
  }

  /** Clamping twice into the same range is clamping once. */
  lemma ClampIdempotent(x: real, lo: real, hi: real)
    requires lo <= hi
    ensures Clamp(Clamp(x, lo, hi), lo, hi) == Clamp(x, lo, hi)
  {
  }

  function Pow10(n: nat): (p: nat)
    ensures p >= 1
  {
    if n == 0 then 1 else 10 * Pow10(n - 1)
  }

  /** At and above this magnitude `toFixed` prints the number itself instead of rounding it. */
  const TO_FIXED_LIMIT: real := 1000000000000000000000.0

  /** `r` is a whole number of steps of `1 / scale`: it has no digits past those kept. */
  predicate OnGrid(r: real, scale: real) {
    (r * scale).Floor as real == r * scale
  }

  /** On the grid, `r * scale` is a whole number. */
  lemma GridWhole(r: real, scale: real)
    requires OnGrid(r, scale)
    ensures r * scale == (r * scale).Floor as real
  {
  }

  lemma FloorOfInt(p: real, n: int)
    requires p == n as real
    ensures p.Floor == n
  {
  }

  lemma FloorNeg(p: real)
    requires p.Floor as real == p
    ensures (-p).Floor as real == -p
  {
    FloorOfInt(-p, -p.Floor);
  }

  /** A number on the grid, negated, is still on the grid. */
  lemma NegOnGrid(r: real, scale: real)
    requires OnGrid(r, scale)
    ensures OnGrid(-r, scale)
  {
    assert -r * scale == -(r * scale);
    FloorNeg(r * scale);
  }

  lemma ScaleAbs(a: real, b: real, scale: real)
    requires scale > 0.0
    ensures Abs(a - b) * scale == Abs(a * scale - b * scale)
  {
    assert (a - b) * scale == a * scale - b * scale;
  }

  lemma DivideOut(u: real, v: real, scale: real, us: real, vs: real)
    requires scale > 0.0 && u * scale == us && v * scale == vs && us <= vs
    ensures u <= v
  {
  }

  /**
   * Rounding of a non-negative number to a multiple of `1 / scale` as
   * `toFixed` does it: the nearest multiple, the larger one on a tie.
   */
  function RoundHalfUp(y: real, scale: real): (r: real)
    requires y >= 0.0 && scale >= 1.0
    ensures r >= 0.0 && OnGrid(r, scale)
    ensures Abs(r - y) * scale <= 0.5
  {
    var n := (y * scale + 0.5).Floor;
    var r := n as real / scale;
    assert y * scale >= 0.0;
    assert r * scale == n as real;
    FloorOfInt(r * scale, n);
    assert OnGrid(r, scale);
    assert (r - y) * scale == n as real - y * scale;
    r
  }

  /** The rounding is `scale`-th parts: `r * scale` is the floor of `y * scale + 0.5`. */
  lemma RoundHalfUpScaled(y: real, scale: real)
    requires y >= 0.0 && scale >= 1.0
    ensures RoundHalfUp(y, scale) * scale == (y * scale + 0.5).Floor as real
  {
    var n := (y * scale + 0.5).Floor;
    assert n as real / scale * scale == n as real;
  }

  /** The floor of `ys + 0.5` is never half below `ys`. */
  lemma HalfUpNotBelow(ys: real)
    ensures (ys + 0.5).Floor as real - ys != -0.5
  {
  }

  /** On a tie the rounding goes up. */
  lemma RoundHalfUpTie(y: real, scale: real)
    requires y >= 0.0 && scale >= 1.0
    requires Abs(RoundHalfUp(y, scale) - y) * scale == 0.5
    ensures RoundHalfUp(y, scale) > y
  {
    var r := RoundHalfUp(y, scale);
    RoundHalfUpScaled(y, scale);
    ScaleAbs(r, y, scale);
    HalfUpNotBelow(y * scale);
    assert r * scale - y * scale == 0.5;
    DivideOut(y, r, scale, y * scale, r * scale);
  }

  /** Of two whole numbers, one within half of `ys` is at least as close to it as the other. */
  lemma IntNearest(ys: real, n: int, k: int)
    requires Abs(n as real - ys) <= 0.5
    ensures Abs(n as real - ys) <= Abs(k as real - ys)
  {
    if k > n {
      assert k as real >= n as real + 1.0;
    } else if k < n {
      assert k as real <= n as real - 1.0;
    }
  }

  lemma ScaledNearest(y: real, scale: real, r: real, g: real, n: int, k: int)
    requires scale >= 1.0 && r * scale == n as real && g * scale == k as real
    requires Abs(r - y) * scale <= 0.5
    ensures Abs(r - y) <= Abs(g - y)
  {
    ScaleAbs(r, y, scale);
    ScaleAbs(g, y, scale);
    IntNearest(y * scale, n, k);
    DivideOut(Abs(r - y), Abs(g - y), scale, Abs(n as real - y * scale), Abs(k as real - y * scale));
  }

  /** A grid point within half a step of `y` is at least as close to it as any other grid point. */
  lemma GridNearest(y: real, scale: real, r: real, g: real)
    requires scale >= 1.0 && OnGrid(r, scale) && OnGrid(g, scale)
    requires Abs(r - y) * scale <= 0.5
    ensures Abs(r - y) <= Abs(g - y)
  {
    GridWhole(r, scale);
    GridWhole(g, scale);
    ScaledNearest(y, scale, r, g, (r * scale).Floor, (g * scale).Floor);
  }

  /** No multiple of `1 / scale` is closer to `y` than its rounding. */
  lemma RoundHalfUpNearest(y: real, scale: real, g: real)
    requires y >= 0.0 && scale >= 1.0 && OnGrid(g, scale)
    ensures Abs(RoundHalfUp(y, scale) - y) <= Abs(g - y)
  {
    GridNearest(y, scale, RoundHalfUp(y, scale), g);
  }

  /**
   * `parseFloat(x.toFixed(digits))`: the magnitude is rounded half up to
   * `digits` decimals and the sign put back; huge magnitudes come back
   * unchanged.
   */
  function ToFixed(x: real, digits: nat): (r: real)
    ensures x >= 0.0 ==> r >= 0.0
    ensures Abs(r - x) * Pow10(digits) as real <= 0.5
    ensures Abs(x) < TO_FIXED_LIMIT ==> OnGrid(r, Pow10(digits) as real)
  {
    var scale := Pow10(digits) as real;
    if Abs(x) >= TO_FIXED_LIMIT then x
    else if x < 0.0 then
      var m := RoundHalfUp(-x, scale);
      assert Abs(-m - x) == Abs(m - -x);
      NegOnGrid(m, scale);
      -m
    else RoundHalfUp(x, scale)
  }

  /**
   * Below the limit, `ToFixed` is the rounding of the magnitude with the sign
   * put back, so by `RoundHalfUpTie` a tie goes away from zero.
   */
  lemma ToFixedMagnitude(x: real, digits: nat)
    requires Abs(x) < TO_FIXED_LIMIT
    ensures Abs(ToFixed(x, digits)) == RoundHalfUp(Abs(x), Pow10(digits) as real)
    ensures Abs(ToFixed(x, digits) - x) == Abs(RoundHalfUp(Abs(x), Pow10(digits) as real) - Abs(x))
  {
    var m := RoundHalfUp(Abs(x), Pow10(digits) as real);
    if x < 0.0 {
      assert ToFixed(x, digits) == -m;
      assert Abs(-m - x) == Abs(m - -x);
    } else {
      assert ToFixed(x, digits) == m;
    }
  }

  /** No number with at most `digits` decimals is closer to `x` than `ToFixed` gives. */
  lemma ToFixedNearest(x: real, digits: nat, g: real)
    requires Abs(x) < TO_FIXED_LIMIT && OnGrid(g, Pow10(digits) as real)
    ensures Abs(ToFixed(x, digits) - x) <= Abs(g - x)
  {
    var scale := Pow10(digits) as real;
    ToFixedMagnitude(x, digits);
    if x < 0.0 {
      NegOnGrid(g, scale);
      RoundHalfUpNearest(-x, scale, -g);
      assert Abs(g - x) == Abs(-g - -x);
    } else {
      RoundHalfUpNearest(x, scale, g);
    }
  }

  /** A multiple of `1 / scale` is its own rounding. */
  lemma RoundHalfUpExact(x: real, scale: real, n: nat)
    requires scale >= 1.0 && x >= 0.0
    requires x * scale == n as real
    ensures RoundHalfUp(x, scale) == n as real / scale
  {
    assert (x * scale + 0.5).Floor == n;
  }

  /** Negating the numerator negates the quotient. */
  lemma NegDiv(n: int, scale: real)
    requires scale >= 1.0
    ensures -(n as real / scale) == (-n) as real / scale
  {
  }

  /** The negative of a multiple of `1 / scale` is left as it is. */
  lemma ToFixedOnGridNeg(m: nat, digits: nat)
    requires m > 0
    ensures ToFixed(-(m as real / Pow10(digits) as real), digits) == -(m as real / Pow10(digits) as real)
  {
    var scale := Pow10(digits) as real;
    var y := m as real / scale;
    assert y * scale == m as real;
    RoundHalfUpExact(y, scale, m);
  }

  /** A number, of either sign, that already has at most `digits` decimals is left as it is. */
  lemma ToFixedOnGrid(n: int, digits: nat)
    ensures ToFixed(n as real / Pow10(digits) as real, digits) == n as real / Pow10(digits) as real
  {
    var scale := Pow10(digits) as real;
    var x := n as real / scale;
    if n >= 0 {
      assert x * scale == n as real;
      RoundHalfUpExact(x, scale, n);
    } else {
      NegDiv(-n, scale);
      ToFixedOnGridNeg(-n, digits);
    }
  }
}
