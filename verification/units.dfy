/**
 Concentration units and the conversion between them (`MQ131Sensor::Unit` and the
 file-local `convert` of the driver).

 The conversion is written for a PPM or PPB source. For a mass-concentration source
 it still treats the input as PPB when the target is PPM or MG_M3, and as PPM when
 the target is PPB or UG_M3; `MassSourceIsReadAsMolar` states this.
 */
module Units {

  /** The closed set of units a reading can be requested in. */
  datatype Unit = Ppm | Ppb | MgPerM3 | UgPerM3

  /** Molar mass of ozone, in g/mol. */
  const OzoneMolarMass: real := 48.0

  /** Molar volume of an ideal gas at standard conditions, in L/mol. */
  const MolarVolume: real := 22.71108

  /** Mass concentration in mg/m3 of one PPM of ozone. */
  const MgPerPpm: real := OzoneMolarMass / MolarVolume

  /**
   Reference table: the value, in `u`, of one PPM of ozone. It is the physical
   meaning of each unit and is defined independently of `Convert`.
   */
  function PerPpm(u: Unit): (f: real)
    ensures f > 0.0
  {
    match u
    case Ppm => 1.0
    case Ppb => 1000.0
    case MgPerM3 => MgPerPpm
    case UgPerM3 => 1000.0 * MgPerPpm
  }

  /**
   `convert(input, unitIn, unitOut)`. From a molar source (PPM or PPB) the result
   is the input's amount of ozone expressed in the target unit.
   */
  function Convert(x: real, from: Unit, to: Unit): (r: real)
    ensures from == to ==> r == x
    ensures from == Ppm ==> r == x * PerPpm(to)
    ensures from == Ppb ==> r == x / PerPpm(Ppb) * PerPpm(to)
  {
    if from == to then x
    else
      match to
      case Ppm => x / 1000.0
      case Ppb => x * 1000.0
      case MgPerM3 =>
        var ppm := if from == Ppm then x else x / 1000.0;
        ppm * OzoneMolarMass / MolarVolume
      case UgPerM3 =>
        var ppb := if from == Ppb then x else x * 1000.0;
        ppb * OzoneMolarMass / MolarVolume
  }

  /** Converting to PPM from any other unit divides by 1000; to PPB multiplies by 1000. */
  lemma MolarTargets(x: real, from: Unit)
    ensures from != Ppm ==> Convert(x, from, Ppm) == x / 1000.0
    ensures from != Ppb ==> Convert(x, from, Ppb) == x * 1000.0
  {
  }

  /** PPM to PPB and back is the identity, and so is PPB to PPM and back. */
  lemma MolarRoundTrip(x: real)
    ensures Convert(Convert(x, Ppm, Ppb), Ppb, Ppm) == x
    ensures Convert(Convert(x, Ppb, Ppm), Ppm, Ppb) == x
  {
  }

  /** From PPM, MG_M3 is `x * 48 / 22.71108` and UG_M3 is exactly 1000 times that. */
  lemma MassFromPpm(x: real)
    ensures Convert(x, Ppm, MgPerM3) == x * 48.0 / 22.71108
    ensures Convert(x, Ppm, UgPerM3) == 1000.0 * Convert(x, Ppm, MgPerM3)
  {
  }

  /**
   A mass-concentration source is read as PPB towards PPM and MG_M3, and as PPM
   towards PPB and UG_M3.
   */
  lemma MassSourceIsReadAsMolar(x: real, from: Unit, to: Unit)
    requires from == MgPerM3 || from == UgPerM3
    requires from != to
    ensures to == Ppm || to == MgPerM3 ==> Convert(x, from, to) == Convert(x, Ppb, to)
    ensures to == Ppb || to == UgPerM3 ==> Convert(x, from, to) == Convert(x, Ppm, to)
  {
  }

  /** Hence a PPM value sent to MG_M3 and back to PPM is not recovered (unless it is 0). */
  lemma MassRoundTripLoses(x: real)
    requires x != 0.0
    ensures Convert(Convert(x, Ppm, MgPerM3), MgPerM3, Ppm) != x
  {
    var k := MgPerPpm;
    assert Convert(Convert(x, Ppm, MgPerM3), MgPerM3, Ppm) == x * (k / 1000.0);
    assert k / 1000.0 < 1.0;
  }

  /** Conversion out of PPM preserves strict order, so it never merges two readings. */
  lemma FromPpmStrictlyIncreasing(a: real, b: real, to: Unit)
    requires a < b
    ensures Convert(a, Ppm, to) < Convert(b, Ppm, to)
  {
    var f := PerPpm(to);
    assert a * f < b * f;
  }
}
