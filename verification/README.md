# MQ131 ozone sensor driver, modelled in Dafny

This project models the MQ131 ozone-sensor driver (`MQ131Sensor`). The driver turns a raw
10-bit analog sample into a sensor resistance. It divides that resistance by a baseline
R0 measured in clean air and applies a temperature/humidity correction. A power-law
response curve then turns the ratio into an ozone concentration in PPM, which is
converted to the requested unit. The baseline R0 is found by a calibration loop that
keeps a 20-slot moving average of readings and stops once that average stops changing.

Modules, one per part of the driver:

- `Units` holds the unit tags and the file-local `convert`. It is proved against an
  independent table, `PerPpm`: the value of one PPM of ozone in each unit.
- `Environment` holds `Env`, the reference condition and `get_env_correction_ratio`.
  It is proved against the three linear band fits `Line(BandOf(h), t)`.
- `Resistance` holds the voltage-divider formula of `read_r_sensor`. The analog sample
  is a parameter. The formula is proved against its closed form and its inverse
  `SampleFor`.
- `Calibration` holds `calibrate`. `Step` is one loop iteration on a pure state.
  `Run` drives the loop over a finite prefix of the sample stream. Both are proved
  against `SettlesAt`, a definition stated only in terms of the stream: calibration
  ends on sample n iff n > 20, sample n equals sample n-20, and the window's sum as a
  `uint32_t` is nonzero.
- `Sensor` holds the driver object: the constructor and its defaults, the R0
  accessors, the ratio and reading of `get_o3`, and `calibrate` setting R0.
- `Wrappers` (an `Option`) and `UInt32` (the 32-bit wrap-around) are helpers.

Calibration ends only when the moving average is unchanged. The driver computes
`diff = |actual - previous| * 100 / actual` and stops when `diff <= 0`
(`MQ131Sensor.cpp:146`). The gap is never negative, so for a nonnegative average the
test holds only for equal, nonzero averages; a zero average gives NaN or infinity, which
fails it. `Calibration.SettledIff` states this, and `Calibration.DipDoesNotSettle` proves
that a falling average does not end calibration.

## Model

| member | source | states |
|---|---|---|
| Units.PerPpm | MQ131Sensor.h:10-16 | every unit's value of one PPM is positive (the reference table the conversion is proved against) |
| Units.Convert | MQ131Sensor.cpp:8-52 | same unit returns the input; from PPM the result is the input times the target's value of one PPM; from PPB it is the input divided by 1000 times that value |
| Units.MolarTargets | MQ131Sensor.cpp:19-28 | converting to PPM from any other unit divides by 1000; converting to PPB from any other unit multiplies by 1000 |
| Units.MolarRoundTrip | MQ131Sensor.cpp:19-28 | PPM to PPB and back, and PPB to PPM and back, are the identity |
| Units.MassFromPpm | MQ131Sensor.cpp:29-48 | PPM to MG_M3 is `x * 48 / 22.71108`; PPM to UG_M3 is exactly 1000 times that |
| Units.MassSourceIsReadAsMolar | MQ131Sensor.cpp:17-48 | a mass-unit source is read as PPB towards PPM and MG_M3, and as PPM towards PPB and UG_M3 |
| Units.MassRoundTripLoses | MQ131Sensor.cpp:19-38 | a nonzero PPM value converted to MG_M3 and back to PPM is not recovered |
| Units.FromPpmStrictlyIncreasing | MQ131Sensor.cpp:8-52 | conversion out of PPM preserves strict order |
| Environment.Slope | MQ131Sensor.cpp:93-107 | every band's temperature slope is negative |
| Environment.CorrectionRatio | MQ131Sensor.cpp:84-108 | the ratio is exactly 1 iff the environment is the reference (20, 60); it is positive up to 110 degrees Celsius |
| Environment.CorrectionFollowsBand | MQ131Sensor.cpp:93-107 | away from the reference, the ratio is the linear fit of the humidity's band (above 75, above 50, otherwise) |
| Environment.BandBoundaries | MQ131Sensor.cpp:93-107 | humidity 76 uses the humid fit, 75 and 51 the middle fit, 50 the dry fit |
| Environment.ShortCircuitNeedsBoth | MQ131Sensor.cpp:55 | (20, 61) and (21, 60) use the middle band fit; (20, 61) gives 1.0881 |
| Environment.CorrectionDecreasesWithTemperature | MQ131Sensor.cpp:93-107 | at a fixed humidity, off the reference, a warmer environment has a strictly smaller ratio |
| Environment.ReferenceIsAGap | MQ131Sensor.cpp:88-91 | at 60% the ratio is above 1 at 19 and at 21 degrees Celsius, but exactly 1 at 20 |
| Resistance.SensorResistance | MQ131Sensor.cpp:68 | a zero sample has no finite resistance; otherwise resistance times sample equals `r_load * (1024 - sample)`, and it is positive for a positive load |
| Resistance.ClosedForm | MQ131Sensor.cpp:68 | `1024 * r_load / s - r_load` equals `r_load * (1024 - s) / s` |
| Resistance.StrictlyDecreasing | MQ131Sensor.cpp:68 | a larger sample gives a strictly smaller resistance |
| Resistance.SampleRoundTrip | MQ131Sensor.cpp:68 | inverting the formula on a reading gives back the sample |
| Resistance.ReadingBound | MQ131Sensor.cpp:68 | every reading is at most `1023 * r_load` |
| Calibration.PercentDiff | MQ131Sensor.cpp:136-139 | the percentage difference is undefined exactly for a zero average, and nonnegative for a positive one |
| Calibration.SettledIff | MQ131Sensor.cpp:134-149 | for a nonnegative average, `diff <= 0` holds iff the average is nonzero and equals the previous one |
| Calibration.Average | MQ131Sensor.cpp:134 | the average times 20 gives back the buffer's `uint32_t` sum; it is nonnegative and below 2^32 / 20 |
| Calibration.Start | MQ131Sensor.cpp:113-119 | the initial state is valid, with an all-zero buffer, index 0, not filled, previous average 0 |
| Calibration.Step | MQ131Sensor.cpp:121-151 | the invariant (index below 20, sum equal to the buffer's sum modulo 2^32) is kept; only the slot at the old index changes, to the sample; the index advances and wraps at 20; filled becomes set exactly at the wrap and is never cleared; the step ends calibration iff the buffer is filled and the new average is nonzero and equals the previous one, and then the baseline is that positive average |
| Calibration.Feed | MQ131Sensor.cpp:121-130 | the state after any number of samples satisfies the invariant |
| Calibration.WindowSlide | MQ131Sensor.cpp:123-125 | the window's sum after a sample is the old sum minus the evicted sample plus the new one |
| Calibration.StepTracks | MQ131Sensor.cpp:121-130 | a step extends the tracked stream: index at count mod 20, filled iff at least 20 samples, the last 20 samples in their ring slots, and the buffer summing to the window |
| Calibration.FeedTracks | MQ131Sensor.cpp:113-130 | after any stream, the state tracks that stream |
| Calibration.StepDecides | MQ131Sensor.cpp:132-151 | on a state tracking the stream, the step ends calibration exactly when the extended stream settles, with the window's average as baseline |
| Calibration.ConvergesAtIff | MQ131Sensor.cpp:113-151 | the state machine ends calibration on sample n iff the stream settles at n, and the baseline is the window's positive average |
| Calibration.NoSettleWhileFilling | MQ131Sensor.cpp:126-132 | no calibration ends on any of the first 20 samples |
| Calibration.NoneSettleIff | MQ131Sensor.cpp:121 | "no settling up to n" is the same as no sample m in 1..n settling |
| Calibration.Advance | MQ131Sensor.cpp:121-151 | one loop pass, given the state after n-1 samples and none settled: the state after n samples, a baseline iff sample n settles (then the first to do so, with the window's positive average), and none settled otherwise |
| Calibration.Run | MQ131Sensor.cpp:110-156 | the loop returns the first sample on which calibration ends and its positive baseline, or None only if no sample of the prefix ends it |
| Calibration.ConstantStreamSettlesAt21 | MQ131Sensor.cpp:117-151 | a constant nonzero stream that does not wrap ends calibration first on sample 21, with its value as baseline |
| Calibration.BaselineIsWindowMean | MQ131Sensor.cpp:116-134 | with samples below 2^32 / 20 the sum never wraps and the baseline is the mean of the last 20 samples |
| Calibration.DipDoesNotSettle | MQ131Sensor.cpp:136-149 | a sample below the one it evicts lowers the average and does not end calibration |
| Calibration.ReadAsMatchesWrap | MQ131Sensor.cpp:116 | the value a `uint32_t` sum holds is the sum modulo 2^32 |
| Sensor.New | MQ131Sensor.cpp:57-63 | a constructed sensor keeps its pin and load and has R0 = 30000 |
| Sensor.NewWithDefaultLoad | MQ131Sensor.h:5-6 | the default argument gives a 10000-ohm load |
| Sensor.R0 | MQ131Sensor.h:28-32 | `get_r0_sensor()` returns the baseline: together with the pin and the load it makes up the whole sensor |
| Sensor.WithR0 | MQ131Sensor.h:34-38 | after `set_r0_sensor(v)`, `get_r0_sensor()` is v; pin and load are unchanged |
| Sensor.SetWhatWasRead | MQ131Sensor.h:28-38 | setting R0 to the value read back changes nothing |
| Sensor.SetTwice | MQ131Sensor.h:34-38 | a second set overrides the first |
| Sensor.SetReachesEverySensor | MQ131Sensor.h:54-56 | sensors with the same pin and load differ only by a set of R0 |
| Sensor.Ratio | MQ131Sensor.cpp:79 | the ratio is defined iff the sample and R0 are nonzero; ratio times R0 equals Rs times the correction; it is positive for positive R0 and load up to 110 degrees Celsius |
| Sensor.RatioAtReference | MQ131Sensor.cpp:79 | at the reference environment the ratio is Rs / R0 |
| Sensor.RatioDecreasesWithSample | MQ131Sensor.cpp:68-79 | with positive R0 and correction, a larger sample gives a strictly smaller ratio |
| Sensor.O3 | MQ131Sensor.cpp:71-81 | the reading is defined iff the ratio is; it is `8.1399 * pow(ratio, 2.3297)` PPM expressed in the requested unit |
| Sensor.O3AcrossUnits | MQ131Sensor.cpp:80 | the same reading in PPB is 1000 times PPM; MG_M3 is PPM times 48 / 22.71108; UG_M3 is 1000 times MG_M3 |
| Sensor.O3DecreasesWithSample | MQ131Sensor.cpp:68-80 | for an increasing power function, a larger sample gives a strictly smaller reading in every unit |
| Sensor.Calibrate | MQ131Sensor.cpp:110-156 | pin and load are unchanged; R0 stays -1 iff no reading ends calibration, and then every reading is consumed; otherwise R0 is the positive baseline of the first reading that ends it |

## Left out

- `pow` in `get_o3` is a parameter of `Sensor.O3`. A real power with a non-integer exponent has no exact model here.
- IEEE-754 `float` behaviour is modelled with exact reals. This covers the rounding of every conversion constant and of `float(all_sum) / 20` (`MQ131Sensor.cpp:134`). NaN and infinity are modelled only as `None`: a zero sample, a zero R0, and a zero average.
- Calibration.StepDecides: in exact reals, unequal sums give unequal averages. In single-precision `float` they need not: from a sum of 10,485,760 (a window average of 2^19 ohms) the spacing of floats, 1/16, exceeds the 1/20 step between neighbouring averages, so 10485762 and 10485763 both give 524288.125. There the driver can end calibration on a sample that differs from the one it evicts, which `Calibration.SettlesAt` rules out. Below that sum every distinct sum gives a distinct float average.
- Calibration.Run: the calibration readings are `uint32_t` values given as a sequence. The `float` to `uint32_t` conversion of `read_r_sensor`'s result (`MQ131Sensor.cpp:124`) is not modelled; for an infinite or out-of-range resistance that conversion is undefined in C++.
- Calibration.Run: the driver's loop blocks until calibration ends. The model runs it over a finite prefix of readings and returns None if the prefix does not end it.
- `analogRead` and `pinMode` are left out. The analog sample is a parameter, and the pin is only stored.
- `Serial.print` diagnostics and `delay(1000)` pacing are left out; they do not affect any value.
- The `default:` branch of `convert` (`MQ131Sensor.cpp:49-50`) is left out. It cannot be reached with the four enum values.
- `get_default_env` is the constant `Environment.Reference`.
- Sensor.Ratio: the ratio is undefined for an R0 of exactly 0. For a negative R0 (the -1 marker, or a value set by the caller) it is defined and negative, as in the driver; `pow` of a negative base is then up to the `pow` parameter.
