/**
 Temperature/humidity compensation (`MQ131Sensor::Env` and
 `get_env_correction_ratio`). Temperatures and humidities are integers, so every
 band threshold is an integer comparison.
 */
module Environment {

  /** Ambient conditions: temperature in degrees Celsius, relative humidity in percent. */
  datatype Env = Env(temperature: int, humidity: int)

  /** The condition the response curve was fitted at (`default_env`). */
  const Reference: Env := Env(20, 60)

  /** The three manufacturer curves, one per humidity band. */
  datatype Band = Humid | Moderate | Dry

  /** Reference partition of humidities: above 75, in (50, 75], and 50 or below. */
  function BandOf(humidity: int): Band
  {
    if humidity > 75 then Humid
    else if humidity > 50 then Moderate
    else Dry
  }

  /** Slope (per degree Celsius) of each band's linear fit. */
  function Slope(b: Band): (k: real)
    ensures k < 0.0
  {
    match b
    case Humid => -0.0141
    case Moderate => -0.0119
    case Dry => -0.0103
  }

  /** Intercept (at 0 degrees Celsius) of each band's linear fit. */
  function Intercept(b: Band): real
  {
    match b
    case Humid => 1.5623
    case Moderate => 1.3261
    case Dry => 1.1507
  }

  /** The linear fit of band `b` evaluated at integer temperature `t`. */
  function Line(b: Band, t: int): real
  {
    Slope(b) * t as real + Intercept(b)
  }

  /**
   `get_env_correction_ratio`: exactly 1 at the reference condition, otherwise the
   fit of the band the humidity falls in. Since no band's fit crosses 1 at an
   integer temperature, the result is 1 exactly at the reference condition; and
   it is positive at every temperature up to 110 degrees Celsius.
   */
  function CorrectionRatio(e: Env): (r: real)
    ensures r == 1.0 <==> e == Reference
    ensures e.temperature <= 110 ==> r > 0.0
  {
    if e.humidity == Reference.humidity && e.temperature == Reference.temperature then 1.0
    else if e.humidity > 75 then -0.0141 * e.temperature as real + 1.5623
    else if e.humidity > 50 then -0.0119 * e.temperature as real + 1.3261
    else -0.0103 * e.temperature as real + 1.1507
  }

  /** Away from the reference condition, the ratio is the fit of the humidity's band. */
  lemma CorrectionFollowsBand(e: Env)
    requires e != Reference
    ensures CorrectionRatio(e) == Line(BandOf(e.humidity), e.temperature)
  {
  }

  /** Band boundaries: 75 belongs to the middle band, 50 to the low band. */
  lemma BandBoundaries(t: int)
    ensures CorrectionRatio(Env(t, 76)) == Line(Humid, t)
    ensures CorrectionRatio(Env(t, 75)) == Line(Moderate, t)
    ensures CorrectionRatio(Env(t, 51)) == Line(Moderate, t)
    ensures CorrectionRatio(Env(t, 50)) == Line(Dry, t)
  {
  }

  /** Only both coordinates together trigger the short-circuit: (20, 61) uses the middle band. */
  lemma ShortCircuitNeedsBoth()
    ensures CorrectionRatio(Env(20, 61)) == Line(Moderate, 20) == 1.0881
    ensures CorrectionRatio(Env(21, 60)) == Line(Moderate, 21)
  {
  }

  /** Within one humidity, off the reference point, a warmer environment has a smaller ratio. */
  lemma CorrectionDecreasesWithTemperature(h: int, t1: int, t2: int)
    requires t1 < t2
    requires Env(t1, h) != Reference && Env(t2, h) != Reference
    ensures CorrectionRatio(Env(t2, h)) < CorrectionRatio(Env(t1, h))
  {
    var b := BandOf(h);
    CorrectionFollowsBand(Env(t1, h));
    CorrectionFollowsBand(Env(t2, h));
    assert Line(b, t2) - Line(b, t1) == Slope(b) * (t2 - t1) as real;
    assert Slope(b) * (t2 - t1) as real < 0.0;
  }

  /**
   The short-circuit is a discontinuity of the 60% curve: its neighbours on
   both sides of 20 degrees Celsius are above 1.
   */
  lemma ReferenceIsAGap()
    ensures CorrectionRatio(Env(19, 60)) > 1.0
    ensures CorrectionRatio(Reference) == 1.0
    ensures CorrectionRatio(Env(21, 60)) > 1.0
  {
  }
}
