/**
 The voltage-divider formula of `read_r_sensor`: the analog sample is a parameter
 instead of a call to the analog input.
 */
module Resistance {
  import opened Wrappers
  import opened UInt32

  /** Full-scale divisor of the 10-bit converter. */
  const FullScale: int := 1024

  /** A raw sample of the 10-bit analog input. */
  type Adc = x: int | 0 <= x < 1024

  /**
   Sensor resistance in ohms for analog sample `sample` across load resistor
   `rLoad`: `1024 * rLoad / sample - rLoad`. A zero sample divides by zero (an
   infinite float in the driver) and yields None.
   */
  function SensorResistance(sample: Adc, rLoad: U32): (r: Option<real>)
    ensures r.None? <==> sample == 0
    ensures r.Some? ==> r.value * sample as real == rLoad as real * (FullScale - sample) as real
    ensures r.Some? && rLoad > 0 ==> r.value > 0.0
  {
    if sample == 0 then None
    else
      var q := FullScale as real * rLoad as real / sample as real;
      assert q * sample as real == FullScale as real * rLoad as real;
      Some(q - rLoad as real)
  }

  /** The closed form `rLoad * (1024 - s) / s` of the same resistance. */
  lemma ClosedForm(sample: Adc, rLoad: U32)
    requires sample > 0
    ensures SensorResistance(sample, rLoad).value == rLoad as real * (FullScale - sample) as real / sample as real
  {
    var r := SensorResistance(sample, rLoad).value;
    var s := sample as real;
    assert r * s == rLoad as real * (FullScale - sample) as real;
    assert r == (r * s) / s;
  }

  /** A larger sample means a strictly smaller resistance. */
  lemma StrictlyDecreasing(a: Adc, b: Adc, rLoad: U32)
    requires 0 < a < b
    requires rLoad > 0
    ensures SensorResistance(b, rLoad).value < SensorResistance(a, rLoad).value
  {
    var k := FullScale as real * rLoad as real;
    var ra, rb := a as real, b as real;
    assert k / rb < k / ra by {
      assert k / rb * rb == k;
      assert k / ra * ra == k;
      assert k / rb * ra < k / rb * rb;
    }
  }

  /** Inverse of the formula: the sample that gives resistance `r` across `rLoad`. */
  function SampleFor(r: real, rLoad: U32): real
    requires r + rLoad as real != 0.0
  {
    FullScale as real * rLoad as real / (r + rLoad as real)
  }

  /** Reading a resistance and inverting the formula returns the sample. */
  lemma SampleRoundTrip(sample: Adc, rLoad: U32)
    requires sample > 0
    requires rLoad > 0
    ensures SensorResistance(sample, rLoad).value + rLoad as real != 0.0
    ensures SampleFor(SensorResistance(sample, rLoad).value, rLoad) == sample as real
  {
    var k := FullScale as real * rLoad as real;
    var s := sample as real;
    var r := SensorResistance(sample, rLoad).value;
    assert r + rLoad as real == k / s;
    assert k / s * s == k;
    assert k / (k / s) == s;
  }

  /** Every reading is at most `1023 * rLoad`, reached at sample 1. */
  lemma ReadingBound(sample: Adc, rLoad: U32)
    requires sample > 0
    ensures SensorResistance(sample, rLoad).value <= (FullScale - 1) as real * rLoad as real
  {
    var r := SensorResistance(sample, rLoad).value;
    var s := sample as real;
    var l := rLoad as real;
    assert r * s == l * (FullScale - sample) as real;
    assert l * (FullScale - sample) as real <= l * (FullScale - 1) as real * s by {
      assert (FullScale - sample) as real <= (FullScale - 1) as real * s;
    }
    assert (r - (FullScale - 1) as real * l) * s <= 0.0;
  }
}
