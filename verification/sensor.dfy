/**
 The `MQ131Sensor` object: its configuration, the baseline resistance R0 and its
 accessors, the ozone reading of `get_o3`, and `calibrate`, which sets R0.

 The analog sample and the calibration readings are parameters instead of calls
 to the analog input, and the floating-point `pow` of the response curve is a
 parameter of the reading.
 */
module Sensor {
  import opened Wrappers
  import opened UInt32
  import opened Units
  import opened Environment
  import opened Resistance
  import Calibration

  /** Default load resistance in ohms (`MQ131_DEFAULT_R_LOAD`). */
  const DefaultLoad: U32 := 10000

  /** Default baseline resistance R0 in ohms (`MQ131_DEFAULT_R0_SENSOR`). */
  const DefaultBaseline: real := 30000.0

  /** The value R0 holds while calibration is running (and after one that never ended). */
  const Calibrating: real := -1.0

  /** Coefficient and exponent of the power-law response curve, in PPM. */
  const CurveCoefficient: real := 8.1399
  const CurveExponent: real := 2.3297

  /** The driver's state: the analog pin, the load resistor, and the baseline R0. */
  datatype Sensor = Sensor(pin: int, rLoad: U32, r0: real)

  /** The constructor: the given pin and load, and the default R0. */
  function New(pin: int, rLoad: U32): (s: Sensor)
    ensures s.pin == pin && s.rLoad == rLoad
    ensures s.r0 == DefaultBaseline
  {
    Sensor(pin, rLoad, DefaultBaseline)
  }

  /** The constructor with its default argument: a 10 kOhm load. */
  function NewWithDefaultLoad(pin: int): (s: Sensor)
    ensures s == New(pin, DefaultLoad)
    ensures s.rLoad == 10000
  {
    Sensor(pin, DefaultLoad, DefaultBaseline)
  }

  /** `get_r0_sensor`: the one baseline that, with the pin and the load, makes up the sensor. */
  function R0(s: Sensor): (r: real)
    ensures s == Sensor(s.pin, s.rLoad, r)
  {
    s.r0
  }

  /** `set_r0_sensor`: replaces R0 and nothing else. */
  function WithR0(s: Sensor, r0: real): (t: Sensor)
    ensures R0(t) == r0
    ensures t.pin == s.pin && t.rLoad == s.rLoad
  {
    s.(r0 := r0)
  }

  /** Setting R0 to the value read back leaves the sensor unchanged. */
  lemma SetWhatWasRead(s: Sensor)
    ensures WithR0(s, R0(s)) == s
  {
  }

  /** A second set overrides the first. */
  lemma SetTwice(s: Sensor, a: real, b: real)
    ensures WithR0(WithR0(s, a), b) == WithR0(s, b)
  {
  }

  /** Two sensors that differ only in R0 are related by a set. */
  lemma SetReachesEverySensor(s: Sensor, t: Sensor)
    requires s.pin == t.pin && s.rLoad == t.rLoad
    ensures WithR0(s, R0(t)) == t
  {
  }

  /**
   The corrected resistance ratio of `get_o3`: Rs / R0 times the environmental
   correction. None when Rs or the quotient is not a finite number: a zero
   sample, or an R0 of 0.
   */
  function Ratio(s: Sensor, sample: Adc, env: Env): (r: Option<real>)
    ensures r.Some? <==> sample != 0 && s.r0 != 0.0
    ensures r.Some? ==> r.value * s.r0 == SensorResistance(sample, s.rLoad).value * CorrectionRatio(env)
    ensures r.Some? && s.r0 > 0.0 && s.rLoad > 0 && env.temperature <= 110 ==> r.value > 0.0
  {
    match SensorResistance(sample, s.rLoad)
    case None => None
    case Some(rs) =>
      if s.r0 == 0.0 then None
      else
        var q := rs / s.r0;
        assert q * s.r0 == rs;
        Some(q * CorrectionRatio(env))
  }

  /** At the reference condition the ratio is the plain Rs / R0. */
  lemma RatioAtReference(s: Sensor, sample: Adc)
    requires sample != 0 && s.r0 != 0.0
    ensures Ratio(s, sample, Reference).value == SensorResistance(sample, s.rLoad).value / s.r0
  {
  }

  /**
   With a positive R0 and a positive correction, a larger sample (a smaller
   sensor resistance) gives a strictly smaller ratio.
   */
  lemma RatioDecreasesWithSample(s: Sensor, a: Adc, b: Adc, env: Env)
    requires 0 < a < b
    requires s.r0 > 0.0 && s.rLoad > 0
    requires env.temperature <= 110
    ensures Ratio(s, b, env).value < Ratio(s, a, env).value
  {
    var k := CorrectionRatio(env);
    var ra := SensorResistance(a, s.rLoad).value;
    var rb := SensorResistance(b, s.rLoad).value;
    StrictlyDecreasing(a, b, s.rLoad);
    ScaledOrder(ra, rb, k, s.r0, Ratio(s, a, env).value, Ratio(s, b, env).value);
  }

  /** If `qa * d == ra * k` and `qb * d == rb * k` with positive d and k, then `rb < ra` gives `qb < qa`. */
  lemma ScaledOrder(ra: real, rb: real, k: real, d: real, qa: real, qb: real)
    requires rb < ra && k > 0.0 && d > 0.0
    requires qa * d == ra * k && qb * d == rb * k
    ensures qb < qa
  {
    assert (qa - qb) * d == (ra - rb) * k;
    assert (ra - rb) * k > 0.0;
  }

  /**
   `get_o3`: the response curve `8.1399 * ratio^2.3297` gives PPM, which is then
   converted to `unit`. `pow` stands for the floating-point power function.
   */
  function O3(s: Sensor, sample: Adc, env: Env, unit: Unit, pow: (real, real) -> real): (r: Option<real>)
    ensures r.Some? <==> Ratio(s, sample, env).Some?
    ensures r.Some? ==> r.value == CurveCoefficient * pow(Ratio(s, sample, env).value, CurveExponent) * PerPpm(unit)
  {
    match Ratio(s, sample, env)
    case None => None
    case Some(ratio) => Some(Convert(CurveCoefficient * pow(ratio, CurveExponent), Ppm, unit))
  }

  /**
   The same reading in the four units: PPB is 1000 times PPM, MG_M3 is PPM times
   48 / 22.71108, and UG_M3 is 1000 times MG_M3.
   */
  lemma O3AcrossUnits(s: Sensor, sample: Adc, env: Env, pow: (real, real) -> real)
    requires sample != 0 && s.r0 != 0.0
    ensures O3(s, sample, env, Ppb, pow).value == 1000.0 * O3(s, sample, env, Ppm, pow).value
    ensures O3(s, sample, env, MgPerM3, pow).value == O3(s, sample, env, Ppm, pow).value * 48.0 / 22.71108
    ensures O3(s, sample, env, UgPerM3, pow).value == 1000.0 * O3(s, sample, env, MgPerM3, pow).value
  {
    var ppm := O3(s, sample, env, Ppm, pow).value;
    MassFromPpm(ppm);
    assert O3(s, sample, env, MgPerM3, pow).value == Convert(ppm, Ppm, MgPerM3);
    assert O3(s, sample, env, UgPerM3, pow).value == Convert(ppm, Ppm, UgPerM3);
  }

  /**
   If the power function is strictly increasing in its base on positive bases, a
   larger sample (more ozone lowers the resistance) gives a strictly smaller
   reading in every unit.
   */
  lemma O3DecreasesWithSample(s: Sensor, a: Adc, b: Adc, env: Env, unit: Unit, pow: (real, real) -> real)
    requires forall x, y :: 0.0 < x < y ==> pow(x, CurveExponent) < pow(y, CurveExponent)
    requires 0 < a < b
    requires s.r0 > 0.0 && s.rLoad > 0
    requires env.temperature <= 110
    ensures O3(s, b, env, unit, pow).value < O3(s, a, env, unit, pow).value
  {
    var ra := Ratio(s, a, env).value;
    var rb := Ratio(s, b, env).value;
    RatioDecreasesWithSample(s, a, b, env);
    assert 0.0 < rb < ra;
    var pa, pb := pow(ra, CurveExponent), pow(rb, CurveExponent);
    assert pb < pa;
    var k := PerPpm(unit);
    assert CurveCoefficient * pb * k < CurveCoefficient * pa * k by {
      assert CurveCoefficient * k > 0.0;
      assert (CurveCoefficient * k) * pb < (CurveCoefficient * k) * pa;
    }
  }

  /**
   `calibrate`: R0 is set to the marker -1 and the calibration loop runs on
   `readings`, the successive `uint32_t` sensor readings. It returns the sensor
   and the number of readings consumed. If calibration ends, R0 is the baseline
   of the first sample on which it ends; if it does not end within `readings`,
   every reading is consumed and R0 is still -1.
   */
  method Calibrate(s: Sensor, readings: seq<U32>) returns (t: Sensor, steps: nat)
    ensures t.pin == s.pin && t.rLoad == s.rLoad
    ensures steps <= |readings|
    ensures R0(t) == Calibrating <==> Calibration.NoneSettle(readings, |readings|)
    ensures R0(t) == Calibrating ==> steps == |readings|
    ensures R0(t) != Calibrating ==> Calibration.FirstSettle(readings, steps)
    ensures R0(t) != Calibrating ==> R0(t) == Calibration.BaselineAt(readings, steps) > 0.0
  {
    t := WithR0(s, Calibrating);
    var outcome := Calibration.Run(readings);
    match outcome
    case None =>
      steps := |readings|;
    case Some(done) =>
      t := WithR0(t, done.baseline);
      steps := done.steps;
      Calibration.NoneSettleIff(readings, |readings|);
  }
}
