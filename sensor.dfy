/** The battery sensor's reading (sensor.py:39-57): the cached
    `BatteryVoltage` value turned into a percentage. */
module Sensor {
  import opened Wrappers
  import opened Json
  import opened PyText

  /** `round(x)`: the nearest integer, a tie going to the even one. */
  function RoundHalfEven(x: real): (n: int)
    ensures -0.5 <= x - n as real <= 0.5
    ensures x - n as real == 0.5 ==> n % 2 == 0
    ensures n as real - x == 0.5 ==> n % 2 == 0
  {
    var f := x.Floor;
    var d := x - f as real;
    if d < 0.5 then f
    else if d > 0.5 then f + 1
    else if f % 2 == 0 then f
    else f + 1
  }

  /** Rounding never reverses an order. */
  lemma RoundMonotone(x: real, y: real)
    requires x <= y
    ensures RoundHalfEven(x) <= RoundHalfEven(y)
  {
  }

  /** The cell voltages taken as empty and as full. */
  const EmptyVolts: real := 3.30
  const FullVolts: real := 4.20

  /** The volts mapping on its own: clamp to the cell range, scale
      linearly to 0..100, round. */
  function VoltsToPercent(v: real): (p: int)
    ensures 0 <= p <= 100
    ensures v <= EmptyVolts ==> p == 0
    ensures v >= FullVolts ==> p == 100
  {
    var c := if v > FullVolts then FullVolts else if v < EmptyVolts then EmptyVolts else v;
    var pct := (c - EmptyVolts) / (FullVolts - EmptyVolts) * 100.0;
    assert 0.0 <= pct <= 100.0;
    RoundMonotone(0.0, pct);
    RoundMonotone(pct, 100.0);
    RoundHalfEven(pct)
  }

  /** A higher voltage never reads as less charge. */
  lemma VoltsMonotone(v: real, w: real)
    requires v <= w
    ensures VoltsToPercent(v) <= VoltsToPercent(w)
  {
    var cv := if v > FullVolts then FullVolts else if v < EmptyVolts then EmptyVolts else v;
    var cw := if w > FullVolts then FullVolts else if w < EmptyVolts then EmptyVolts else w;
    assert cv <= cw;
    var pv := (cv - EmptyVolts) / (FullVolts - EmptyVolts) * 100.0;
    var pw := (cw - EmptyVolts) / (FullVolts - EmptyVolts) * 100.0;
    assert pv <= pw;
    RoundMonotone(pv, pw);
  }

  /** `native_value` for the cached `BatteryVoltage` entry `raw` (absent
      when the record lacks the key), as the code orders its tests. */
  function NativeValue(raw: Option<Json>): (r: Option<int>)
    ensures raw.None? || raw == Some(JNull) ==> r.None?
    ensures r.Some? <==>
      && raw.Some? && PyFloatOf(raw.value).Some? && PyFloatOf(raw.value).value.Finite?
      && 0.0 <= PyFloatOf(raw.value).value.value <= 100.0
    ensures r.Some? ==> 0 <= r.value <= 100
    ensures r.Some? ==> r.value == RoundHalfEven(PyFloatOf(raw.value).value.value)
  {
    if raw.None? || raw.value.JNull? then None
    else match PyFloatOf(raw.value)
      case None => None
      // NaN and the infinities fail every comparison below
      case Some(NotFinite) => None
      case Some(Finite(v)) =>
        if 0.0 <= v <= 100.0 then
          RoundMonotone(0.0, v);
          RoundMonotone(v, 100.0);
          Some(RoundHalfEven(v))
        else if 2.5 <= v <= 5.5 then Some(VoltsToPercent(v))
        else None
  }

  /** The volts branch is dead: every reading in 2.5..5.5 V is taken as a
      percentage and rounded. */
  lemma VoltsBranchUnreachable(v: real)
    requires 2.5 <= v <= 5.5
    ensures NativeValue(Some(JFloat(v))) == Some(RoundHalfEven(v))
  {
  }

  /** A cell at 3.9 V reads as 4 %; the volts mapping gives 67 %. */
  lemma HealthyCellReadsNearlyEmpty()
    ensures NativeValue(Some(JFloat(3.9))) == Some(4)
    ensures VoltsToPercent(3.9) == 67
  {
    assert RoundHalfEven(3.9) == 4;
    assert (3.9 - EmptyVolts) / (FullVolts - EmptyVolts) * 100.0 == 200.0 / 3.0;
    assert RoundHalfEven(200.0 / 3.0) == 67;
  }

  /** The reading with the voltage range checked first, so that the volts
      branch is reached. */
  function NativeValueVoltsFirst(raw: Option<Json>): (r: Option<int>)
    ensures raw.None? || raw == Some(JNull) ==> r.None?
    ensures r.Some? <==>
      && raw.Some? && PyFloatOf(raw.value).Some? && PyFloatOf(raw.value).value.Finite?
      && 0.0 <= PyFloatOf(raw.value).value.value <= 100.0
    ensures r.Some? ==> 0 <= r.value <= 100
    ensures r.Some? ==> var v := PyFloatOf(raw.value).value.value;
      r.value == if 2.5 <= v <= 5.5 then VoltsToPercent(v) else RoundHalfEven(v)
  {
    if raw.None? || raw.value.JNull? then None
    else match PyFloatOf(raw.value)
      case None => None
      case Some(NotFinite) => None
      case Some(Finite(v)) =>
        if 2.5 <= v <= 5.5 then Some(VoltsToPercent(v))
        else if 0.0 <= v <= 100.0 then
          RoundMonotone(0.0, v);
          RoundMonotone(v, 100.0);
          Some(RoundHalfEven(v))
        else None
  }

  /** With the voltage range first, a voltage reading goes through the
      volts mapping, and any other reading in 0..100 is still a
      percentage. */
  lemma VoltsFirstReadsVolts(v: real)
    ensures 2.5 <= v <= 5.5 ==> NativeValueVoltsFirst(Some(JFloat(v))) == Some(VoltsToPercent(v))
    ensures (0.0 <= v < 2.5 || 5.5 < v <= 100.0) ==> NativeValueVoltsFirst(Some(JFloat(v))) == Some(RoundHalfEven(v))
  {
  }
}
