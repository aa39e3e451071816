# MAX11609 driver and three-socket power meter

A model of two pieces of an AC power-metering firmware:

- the driver of the MAX11609 10-bit ADC, in `max11609.dfy`: the setup byte (bit 7 set) and
  configuration byte (bit 7 clear) it writes over I2C, the unipolar/bipolar
  bit it flips in its cached setup register, the decoding of the chip's
  two-byte replies into 10-bit codes (sign-extended in differential mode),
  the integer millivolt scaling, the error value 32767 for a reply of the
  wrong length, and the "fast" operations that read without rewriting the
  registers;
- `Power_measurement` in `power_measurement.dfy`: the two calibration
  setters and `calcVI`, which waits for a voltage sample strictly inside
  (-20, 20) mV, re-primes the ADC for a differential scan of the voltage
  and three current channels, samples until the voltage has crossed its
  starting value `crossings` times or `timeout` ms have passed, and then
  writes the RMS voltage and, per socket, RMS current, real power,
  apparent power and the power factor clamped to at most 1.

The driver is a value `Driver(setupReg, voltageRef)`; every operation is a
pure function from the driver, its arguments and the bytes the device
answered to the new driver, the bytes written (one per transmission) and the
result. `calcVI` takes the successive bus replies and the successive
`millis()` readings as input sequences. The `float` arithmetic after the
sampling is modelled over exact reals extended with the infinities and NaN
(`floats.dfy`), because the code divides by the sample count and by the
apparent power without a guard; the math library's square root is a
function parameter.

Integer widths follow the 8-bit AVR target: `unsigned int` (`crossings`,
`timeout`, `crossCount`, `numberOfSamples`) is 16 bits and `unsigned long`
(`millis()`) is 32 bits. The sample counter's wrap-around is modelled,
including its effect on the crossing detection (on a pass where the counter
reads 1 no crossing is counted) and on the final divisions.

Behaviour of the code worth knowing:

- the power factor is only clamped when above 1; a zero apparent power or a
  window without samples is not guarded, so NaN or an infinity can be
  reported (`IdleSocketReadings`, `ZeroCrossingTargetNoSamples`);
- the synchronisation band is strict on both sides;
- a crossing is a change of `sample > startV` between consecutive samples,
  not a change of sign;
- a differential scan requests 8 bytes and a single-ended scan 16;
- a window can end with no sample at all (a crossing target of 0, or a
  timeout before the first pass), so the sample count is not always
  positive at the end;
- the single read scales by `voltage_ref / 1024` and the fast read by
  `voltage_ref / 1023` (`ScaleDivisorsDiffer`); with the 3300 mV reference
  the meter uses, both multiply the code by 3.

## Model

| member | source | states |
|---|---|---|
| Max11609.ModeBit | ecohouse-arduino_1/libraries/MAX11609/MAX11609.h:37-38 | The measurement mode is exactly bit 0 of the configuration byte: 1 for single-ended, 0 for differential, no other bit set. |
| Max11609.SetupAdc | ecohouse-arduino_1/libraries/MAX11609/MAX11609.cpp:48-54 | The byte cached and written has bit 7 set and otherwise equals the argument; the reference voltage is kept. |
| Max11609.Configuration | ecohouse-arduino_1/libraries/MAX11609/MAX11609.cpp:60-66 | Exactly one byte is written; it has bit 7 clear and otherwise equals the argument. |
| Max11609.Begin | ecohouse-arduino_1/libraries/MAX11609/MAX11609.cpp:29-42 | The reference voltage becomes `voltage`; the setup byte written and cached selects the reference `vRef & 7`, with the clock, bipolar, reset and bit-0 fields clear. |
| Max11609.BeginDefault | ecohouse-arduino_1/libraries/MAX11609/MAX11609.cpp:19-22 | The one-argument form writes the setup byte the two-argument form writes for any voltage, and stores the default 2048 mV. |
| Max11609.DefaultBegin | ecohouse-arduino_1/libraries/MAX11609/MAX11609.h:89 | `begin()` with its default selector REF_VDD writes and caches 0x80 and stores 2048 mV. |
| Max11609.ReferenceSetupBytes | ecohouse-arduino_1/libraries/MAX11609/MAX11609.h:68-70 | The VDD, external and internal reference selectors give the setup bytes 0x80, 0xA0 and 0xF0. |
| Max11609.SelectPolarity | ecohouse-arduino_1/libraries/MAX11609/MAX11609.cpp:91-98 | The bipolar bit is set exactly in differential mode; every other bit of the cached setup byte is unchanged. |
| Max11609.SingleChannelConfig | ecohouse-arduino_1/libraries/MAX11609/MAX11609.cpp:102 | The single-channel configuration byte has scan field "only selected", the requested channel and the mode bit. |
| Max11609.ScanConfig | ecohouse-arduino_1/libraries/MAX11609/MAX11609.cpp:167 | The scan configuration byte scans from channel 0 to channel 7 in the requested mode and is never a setup byte. |
| Max11609.ChannelConfig | ecohouse-arduino_1/libraries/MAX11609/MAX11609.cpp:215-223 | ALL_CHANNELS selects the scan byte 0x0E with the mode bit; a channel 0-7 selects 0x60 with the channel in bits 4-1 and the mode bit. |
| Max11609.Configure | ecohouse-arduino_1/libraries/MAX11609/MAX11609.cpp:91-103 | Two bytes are written: the new setup byte (bit 7 set, bipolar iff differential, other bits kept) and the configuration byte with bit 7 cleared. |
| Max11609.Code10 | ecohouse-arduino_1/libraries/MAX11609/MAX11609.cpp:110-111 | The assembled code lies in [0, 1023]. |
| Max11609.WordValue | ecohouse-arduino_1/libraries/MAX11609/MAX11609.cpp:110-114 | The assembled 16-bit word equals the 10-bit code, and its bit 9 is set exactly when the code is at least 512. |
| Max11609.ExtendValue | ecohouse-arduino_1/libraries/MAX11609/MAX11609.cpp:116 | OR-ing 0xFC00 into a 10-bit word adds 0xFC00. |
| Max11609.Decode | ecohouse-arduino_1/libraries/MAX11609/MAX11609.cpp:110-117 | Single-ended decoding is the code in [0, 1023]; differential decoding is the code read as 10-bit two's complement, in [-512, 511]. |
| Max11609.DecodeChipReply | ecohouse-arduino_1/libraries/MAX11609/MAX11609.cpp:110-117 | Every value the chip can send in a mode decodes back to itself (round trip). |
| Max11609.ChipReplyOfDecode | ecohouse-arduino_1/libraries/MAX11609/MAX11609.cpp:110-111 | Re-encoding a decoded reply gives the reply with the six ignored high bits of the first byte set: only those bits are lost. |
| Max11609.CDivBound | ecohouse-arduino_1/libraries/MAX11609/MAX11609.cpp:122 | For any 16-bit reference, `voltage_ref / 1024` (or `/ 1023`) lies in [-32, 32]. |
| Max11609.Scale | ecohouse-arduino_1/libraries/MAX11609/MAX11609.cpp:122 | The scaled reading fits in [-32736, 32736] and, for a non-negative reference, is the truncated quotient times the code. |
| Max11609.Reading | ecohouse-arduino_1/libraries/MAX11609/MAX11609.cpp:119-123 | A decoded reading, raw or scaled, is never the error value 32767; raw returns the code unscaled. |
| Max11609.ReplyValue | ecohouse-arduino_1/libraries/MAX11609/MAX11609.cpp:106-130 | The result is 32767 exactly when the reply does not have two bytes; otherwise it is the decoded (and possibly scaled) value. |
| Max11609.FrameLength | ecohouse-arduino_1/libraries/MAX11609/MAX11609.cpp:152-175 | A scan fills half as many entries as the bytes it requests (4 differential, 8 single-ended). |
| Max11609.DecodeFrame | ecohouse-arduino_1/libraries/MAX11609/MAX11609.cpp:175-192 | Entry `i` of a decoded frame is the reading of byte pair `i`, and there is one entry per pair. |
| Max11609.ScanReply | ecohouse-arduino_1/libraries/MAX11609/MAX11609.cpp:171-193 | A reply of the requested length replaces the first 4 or 8 buffer entries by the decoded channels and keeps the rest; any other length leaves the buffer unchanged. |
| Max11609.Read | ecohouse-arduino_1/libraries/MAX11609/MAX11609.cpp:85-132 | `read` rewrites the setup byte (bipolar iff differential) and writes 0x60 with the channel in bits 4-1 and the mode bit; it returns 32767 iff the reply is not two bytes, else the decoded code times `voltage_ref / 1024` or the raw code. |
| Max11609.Scan | ecohouse-arduino_1/libraries/MAX11609/MAX11609.cpp:150-194 | `scan` rewrites the setup byte, writes 0x0E with the mode bit, and updates the buffer as the reply of 8 or 16 bytes dictates. |
| Max11609.FastConfig | ecohouse-arduino_1/libraries/MAX11609/MAX11609.cpp:201-224 | `fastConfig` changes only the bipolar bit of the cached setup byte, writes it with bit 7 set, then the scan byte for ALL_CHANNELS or the single-channel byte otherwise. |
| Max11609.FastRead | ecohouse-arduino_1/libraries/MAX11609/MAX11609.cpp:240-270 | `fastRead` writes nothing, keeps the driver, and returns 32767 iff the reply is not two bytes, else the decoded code times `voltage_ref / 1023` or the raw code. |
| Max11609.FastScan | ecohouse-arduino_1/libraries/MAX11609/MAX11609.cpp:288-322 | `fastScan` writes nothing, keeps the driver, leaves the buffer unchanged on a wrong-length reply and otherwise fills exactly the first 4 or 8 entries with the readings scaled by `voltage_ref / 1024`, keeping the entries after them. |
| Max11609.ScaleDivisorsDiffer | ecohouse-arduino_1/libraries/MAX11609/MAX11609.cpp:259-262 | With a 1023 mV reference the single and fast reads of code 1 differ (0 against 1); with 3300 mV both give 3 times the code. |
| PowerMeasurement.Config | onsave-arduino_1/libraries/power_measurement/power_measurement.cpp:29-40 | The five-argument setter stores VCAL and I1-I3 as given, the one phase coefficient in all three fields, keeps the readings, and leaves the ADC at setup byte 0xA0 with a 3300 mV reference after writing 0xA0. |
| PowerMeasurement.ConfigPerPhase | onsave-arduino_1/libraries/power_measurement/power_measurement.cpp:52-63 | The seven-argument setter stores every coefficient as given, keeps the readings, and sets the ADC up as the other setter does. |
| PowerMeasurement.ConfigSharesPhase | onsave-arduino_1/libraries/power_measurement/power_measurement.cpp:29-63 | The shared-coefficient setter is the per-phase setter with three equal phase coefficients. |
| PowerMeasurement.Elapsed | onsave-arduino_1/libraries/power_measurement/power_measurement.cpp:119 | `millis() - start` is the plain difference without wrap, and `2^32 - start + now` once the clock has wrapped. |
| PowerMeasurement.ElapsedInverse | onsave-arduino_1/libraries/power_measurement/power_measurement.cpp:119 | Adding the elapsed time to the start on the 32-bit clock gives back the current reading. |
| PowerMeasurement.SyncSample | onsave-arduino_1/libraries/power_measurement/power_measurement.cpp:114 | A synchronisation sample is in the band only if the read succeeded (the error value never is), and is then the decoded differential code times `voltage_ref / 1023`. |
| PowerMeasurement.SyncLoop | onsave-arduino_1/libraries/power_measurement/power_measurement.cpp:108-123 | The loop ends on the first poll that is either past the timeout (timeout, even with an in-band sample) or in the band; every earlier poll was out of band and in time, and the start sample is the in-band sample of the last poll. |
| PowerMeasurement.InBandButLateTimesOut | onsave-arduino_1/libraries/power_measurement/power_measurement.cpp:115-122 | An in-band sample read after the timeout still makes the call time out. |
| PowerMeasurement.SyncSkipsWaiting | onsave-arduino_1/libraries/power_measurement/power_measurement.cpp:112-123 | Polls that are out of band and in time do not affect how the loop ends. |
| PowerMeasurement.FirstInBandSampleStarts | onsave-arduino_1/libraries/power_measurement/power_measurement.cpp:112-123 | When all earlier polls kept waiting, the first in-band sample read in time becomes `startV`. |
| PowerMeasurement.ScanFrame | onsave-arduino_1/libraries/power_measurement/power_measurement.cpp:144 | A scan brings a new frame exactly when the reply has 8 bytes, and then entry `i` is the reading of pair `i` in millivolts. |
| PowerMeasurement.FastScanRefreshes | onsave-arduino_1/libraries/power_measurement/power_measurement.cpp:144 | `fastScan` into the previous buffer gives the new frame on a full reply and the previous buffer otherwise. |
| PowerMeasurement.ScannedBufferIsFastScan | onsave-arduino_1/libraries/power_measurement/power_measurement.cpp:144 | The `k`-th buffer the loop records is exactly what `fastScan` returns on the buffer before it and the `k`-th reply. |
| PowerMeasurement.AddSampleMatchesReference | onsave-arduino_1/libraries/power_measurement/power_measurement.cpp:145-185 | One pass adds exactly the new sample's squared calibrated voltage and currents and its phase-shifted power terms to sums defined independently over all frames. |
| PowerMeasurement.CalibrationScalesSquares | onsave-arduino_1/libraries/power_measurement/power_measurement.cpp:145-168 | The sum of squared calibrated samples is the square of the calibration factor times the sum of squared raw samples. |
| PowerMeasurement.UnitPhaseFollowsVoltage | onsave-arduino_1/libraries/power_measurement/power_measurement.cpp:173-175 | With all three phase coefficients 1 and the filter started at zero, every filter output equals the latest raw voltage sample. |
| PowerMeasurement.UnitPhaseForgetsStart | onsave-arduino_1/libraries/power_measurement/power_measurement.cpp:173-175 | With all three phase coefficients 1, whatever the filter held, two passes leave every output equal to the second raw voltage sample: from the second sample on the filter follows the voltage. |
| PowerMeasurement.CrossCountStep | onsave-arduino_1/libraries/power_measurement/power_measurement.cpp:192-209 | A further sample adds one crossing exactly when its `> startV` flag differs from the previous sample's and the counter does not read 1. |
| PowerMeasurement.CrossCountBound | onsave-arduino_1/libraries/power_measurement/power_measurement.cpp:192-209 | The crossings counted never exceed the flag changes, which never exceed the number of samples minus one. |
| PowerMeasurement.CrossCountIsFlagChanges | onsave-arduino_1/libraries/power_measurement/power_measurement.cpp:192-209 | Up to 65536 samples the count is exactly the number of flag changes between consecutive samples; the first sample never counts. |
| PowerMeasurement.SteadyVoltageNoCrossing | onsave-arduino_1/libraries/power_measurement/power_measurement.cpp:192-209 | A voltage that stays on one side of `startV` counts no crossing. |
| PowerMeasurement.CounterStep | onsave-arduino_1/libraries/power_measurement/power_measurement.cpp:139 | Incrementing the 16-bit counter matches counting modulo 2^16, and it reads 1 exactly after a multiple of 65536 passes. |
| PowerMeasurement.Iterate | onsave-arduino_1/libraries/power_measurement/power_measurement.cpp:137-210 | One pass records the buffer `fastScan` leaves (the new frame, or the old buffer on a bad reply) and adds at most one crossing. |
| PowerMeasurement.StartConsistent | onsave-arduino_1/libraries/power_measurement/power_measurement.cpp:95-102 | The reset accumulators and zero counters are what an empty window determines. |
| PowerMeasurement.IterateTallied | onsave-arduino_1/libraries/power_measurement/power_measurement.cpp:139-209 | One pass keeps the sums, the wrapped sample counter, the crossing count and the flag equal to what the recorded frames determine. |
| PowerMeasurement.IterateConsistent | onsave-arduino_1/libraries/power_measurement/power_measurement.cpp:137-210 | One pass keeps the loop invariant: recorded buffers are those the scans produce, and the tallies follow from them. |
| PowerMeasurement.AccumulationLoop | onsave-arduino_1/libraries/power_measurement/power_measurement.cpp:135-212 | The loop never exceeds the crossing target, stops on it exactly when it is reached, and otherwise stops because the clock reading was at or past the timeout. |
| PowerMeasurement.LoopUnfold | onsave-arduino_1/libraries/power_measurement/power_measurement.cpp:136 | While the guard holds the loop runs one more pass; when it fails the state is final. |
| PowerMeasurement.LoopRunsInTime | onsave-arduino_1/libraries/power_measurement/power_measurement.cpp:136 | Every pass of the measurement loop began with a clock reading inside the timeout. |
| PowerMeasurement.LoopKeepsConsistent | onsave-arduino_1/libraries/power_measurement/power_measurement.cpp:136-212 | The loop invariant holds when the loop ends. |
| PowerMeasurement.ClampPowerFactor | onsave-arduino_1/libraries/power_measurement/power_measurement.cpp:230-233 | The result is never above 1; a value above 1 becomes 1 and anything else, NaN included, is kept. |
| PowerMeasurement.Socket | onsave-arduino_1/libraries/power_measurement/power_measurement.cpp:222-233 | A socket's RMS current is the root of the mean square, its real power the mean power, its apparent power the product of the RMS values, and its power factor the clamped ratio, never above 1. |
| PowerMeasurement.FinaliseReadings | onsave-arduino_1/libraries/power_measurement/power_measurement.cpp:220-248 | After the loop, RMS voltage and currents are roots of the mean squares, real powers are mean powers, apparent powers are products, every power factor is at most 1, and zero samples leave the RMS voltage without a number. |
| PowerMeasurement.FinaliseSocket | onsave-arduino_1/libraries/power_measurement/power_measurement.cpp:227-248 | Each of the three sockets' readings is computed from its own sums and the shared RMS voltage alone. |
| PowerMeasurement.NoSamplesNoPowerFactor | onsave-arduino_1/libraries/power_measurement/power_measurement.cpp:220-229 | With a sample count of 0 the RMS voltage, RMS current and real power are not numbers and the power factor is NaN. |
| PowerMeasurement.IdleSocketPowerFactor | onsave-arduino_1/libraries/power_measurement/power_measurement.cpp:227-233 | A socket with zero current and power under a finite voltage has 0 W, 0 VA and a NaN power factor. |
| PowerMeasurement.IdleSocketReadings | onsave-arduino_1/libraries/power_measurement/power_measurement.cpp:227-248 | The same holds for any socket of a finished window whose current and power sums are zero. |
| PowerMeasurement.CalcVIOutcome | onsave-arduino_1/libraries/power_measurement/power_measurement.h:70-76 | `calcVI` returns -1 exactly when the synchronisation loop timed out, and returns 0 with a measured window only after that loop found an in-band start sample in time, which becomes the window's `startV`. |
| PowerMeasurement.Measure | onsave-arduino_1/libraries/power_measurement/power_measurement.cpp:130-250 | The measuring phase primes the full differential scan (writes the setup byte and 0x0E), keeps the calibration, and writes the readings computed from the final sums only when the loop ended. |
| PowerMeasurement.MeasuredWindow | onsave-arduino_1/libraries/power_measurement/power_measurement.cpp:130-212 | A measured window stopped on the crossing target or the timeout, every pass began in time, and its state is the one its scans determine. |
| PowerMeasurement.PrimingWrites | onsave-arduino_1/libraries/power_measurement/power_measurement.cpp:109-130 | Priming the voltage channel then the full scan writes the same setup byte twice, with 0x60 then 0x0E, and the second priming leaves the driver as the first did. |
| PowerMeasurement.CalcVI | onsave-arduino_1/libraries/power_measurement/power_measurement.cpp:73-252 | `calcVI` keeps the calibration; on timeout it writes only the voltage priming and changes no reading; a measured window writes both primings and replaces the readings with those computed from its sums. |
| PowerMeasurement.CalcVIKeepsSetup | onsave-arduino_1/libraries/power_measurement/power_measurement.cpp:109-130 | Whatever the outcome, the ADC ends in differential (bipolar) mode with its reference selection, reference voltage and other setup bits unchanged. |
| PowerMeasurement.CalcVIMeasured | onsave-arduino_1/libraries/power_measurement/power_measurement.cpp:108-212 | A measured window started on an in-band sample, never exceeds the crossing target, stops on it exactly when reached, and its frames are the buffers the scans of the replies after the synchronisation polls produce, with the sums, counter and crossing count those frames determine; the start sample is the one the synchronisation loop accepted in time. |
| PowerMeasurement.ZeroCrossingTargetNoSamples | onsave-arduino_1/libraries/power_measurement/power_measurement.cpp:136-248 | With a crossing target of 0 the loop takes no sample, the RMS voltage is not a number and every power factor is NaN. |

## Left out

- `serialprint` (text output and `delay`): output only, nothing it prints feeds back.
- The Wire/I2C transactions themselves, `Wire.begin` and `setClock(800000)`: replaced by the returned list of written bytes and the reply bytes passed in; a transmission's acknowledgement is not modelled.
- `millis()` and `micros()`: `millis()` readings are an input sequence; `micros()` only feeds the unused `tempo` variable, which is dropped.
- Finite input sequences: when the replies or clock readings run out before the firmware would stop, the model returns `OutOfInput`, an outcome the firmware does not have.
- Floating-point rounding: the `float` sums, products and divisions are exact reals (with infinities and NaN kept), and `sqrt` is a parameter; the `float` step of the millivolt scaling is exact because the product always fits in 16 bits.
- Uninitialised reads: the model starts `lectura` at [0, 0, 0, 0], `phaseShiftedV` at zero, and `checkVCross` at false (the last is overwritten on the first pass, so it never matters); the driver state before `begin` is a parameter of every operation rather than a fixed power-on value.
- `lastphaseShiftedV`: written from the uninitialised `lectura` and never read, so it has no effect.
- The global `MAX` object: the driver state is passed explicitly.
- The `read`, `scan`, `fastRead` and `fastScan` overloads without `raw`: they are the modelled operations with `raw == 1` (the `toMillivolts` argument set).
- Max11609.Scale: states the exact product only for a non-negative reference; for a negative one it states the bounds, and `Read` and `FastRead` state the truncated quotient.
- PowerMeasurement.Finalise: carries no contract of its own; its properties are stated by `FinaliseReadings`, `FinaliseSocket`, `NoSamplesNoPowerFactor` and `IdleSocketReadings`.
- PowerMeasurement.Socket: the RMS current is stated only for a non-negative sum of squares, the only sums the loop produces.
- PowerMeasurement.UnitPhaseFollowsVoltage: agreement on the first sample rests on the model's zero start of `phaseShiftedV`, which the firmware never initialises; the start-independent fact from the second sample on is `UnitPhaseForgetsStart`.
