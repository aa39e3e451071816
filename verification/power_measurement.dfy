/** Model of `Power_measurement`: the calibration setters and the control
    logic of `calcVI` over the samples the MAX11609 delivers.

    `calcVI` synchronises on a voltage sample near zero, re-primes the ADC
    for a differential scan, then samples until the voltage has crossed its
    starting value `crossings` times or `timeout` milliseconds have passed,
    and finally derives the RMS and power readings.

    The bus replies and the `millis()` readings are input sequences consumed
    in order. Because they are finite, a run can end with `OutOfInput`, which
    only says that the sequences were too short to decide the run; the
    firmware itself has no such outcome.

    Integer widths follow the 8-bit AVR target: `unsigned int` (crossings,
    timeout, crossCount, numberOfSamples) is 16 bits, `unsigned long`
    (`millis()`) is 32 bits. The `float` sums are exact reals and the square
    root of the math library is a parameter. */
module PowerMeasurement {
  import opened Max11609
  import opened Floats

  /** A synchronisation sample must lie strictly inside (-20, 20). */
  const SYNC_BAND: int := 20

  /** `unsigned int` counters wrap at 2^16. */
  const COUNTER_MODULUS: nat := 0x1_0000

  /** `millis()` and the differences taken from it wrap at 2^32. */
  const CLOCK_MODULUS: nat := 0x1_0000_0000

  type UInt16 = x: int | 0 <= x < 0x1_0000
  type UInt32 = x: int | 0 <= x < 0x1_0000_0000

  /** One value per socket. */
  type Triple = s: seq<real> | |s| == 3 witness [0.0, 0.0, 0.0]

  /** One reading per socket, as the three-element result arrays hold them. */
  type FloatTriple = s: seq<Float> | |s| == 3 witness [NaN, NaN, NaN]

  /** The `lectura` buffer a differential scan fills: the voltage pair, then
      the current pairs of sockets 1 to 3. */
  type Frame = f: seq<Int16> | |f| == 4 witness [0, 0, 0, 0]

  /** `VCAL`, `I1`-`I3` and `PHASECAL1`-`PHASECAL3`. A phase coefficient of
      1 means no phase adjustment. */
  datatype Calibration = Calibration(
    vcal: real, i1: real, i2: real, i3: real,
    phasecal1: real, phasecal2: real, phasecal3: real)

  /** The current coefficient of socket `i + 1`. */
  function CurrentCal(cal: Calibration, i: nat): real
    requires i < 3
  {
    if i == 0 then cal.i1 else if i == 1 then cal.i2 else cal.i3
  }

  /** The public result fields: one RMS voltage and, per socket, RMS current,
      real power, apparent power and power factor. */
  datatype Readings = Readings(
    vrms: Float, irms: FloatTriple, realPower: FloatTriple,
    apparentPower: FloatTriple, powerFactor: FloatTriple)

  datatype Meter = Meter(cal: Calibration, readings: Readings)

  /** The meter object together with the ADC driver it uses. */
  datatype Board = Board(meter: Meter, adc: Driver)

  /** The board after an operation, the bytes written to the ADC, and what
      the operation returned. */
  datatype Effect<T> = Effect(board: Board, writes: seq<bv8>, out: T)

  // ---------------------------------------------------------------------
  // Calibration setters.
  // ---------------------------------------------------------------------

  /** `config(VCAL, PHASECAL, I1, I2, I3)`: one phase coefficient for all
      three sockets; the ADC is set up for the external 3.3 V reference. */
  function Config(b: Board, vcal: real, phasecal: real, i1: real, i2: real, i3: real): (r: Effect<()>)
    ensures r.board.meter.cal.vcal == vcal
    ensures r.board.meter.cal.i1 == i1 && r.board.meter.cal.i2 == i2 && r.board.meter.cal.i3 == i3
    ensures r.board.meter.cal.phasecal1 == phasecal
    ensures r.board.meter.cal.phasecal2 == phasecal
    ensures r.board.meter.cal.phasecal3 == phasecal
    ensures r.board.meter.readings == b.meter.readings
    ensures r.board.adc == Driver(0xA0, 3300) && r.writes == [0xA0]
  {
    var cal := Calibration(vcal, i1, i2, i3, phasecal, phasecal, phasecal);
    var s := Begin(b.adc, REF_EXTERNAL, 3300);
    Effect(Board(b.meter.(cal := cal), s.drv), s.writes, ())
  }

  /** `config(VCAL, PHASECAL1, PHASECAL2, PHASECAL3, I1, I2, I3)`. */
  function ConfigPerPhase(b: Board, vcal: real, phasecal1: real, phasecal2: real, phasecal3: real,
                          i1: real, i2: real, i3: real): (r: Effect<()>)
    ensures r.board.meter.cal.vcal == vcal
    ensures r.board.meter.cal.i1 == i1 && r.board.meter.cal.i2 == i2 && r.board.meter.cal.i3 == i3
    ensures r.board.meter.cal.phasecal1 == phasecal1
    ensures r.board.meter.cal.phasecal2 == phasecal2
    ensures r.board.meter.cal.phasecal3 == phasecal3
    ensures r.board.meter.readings == b.meter.readings
    ensures r.board.adc == Driver(0xA0, 3300) && r.writes == [0xA0]
  {
    var cal := Calibration(vcal, i1, i2, i3, phasecal1, phasecal2, phasecal3);
    var s := Begin(b.adc, REF_EXTERNAL, 3300);
    Effect(Board(b.meter.(cal := cal), s.drv), s.writes, ())
  }

  /** The shared-coefficient setter is the per-phase one with three equal coefficients. */
  lemma ConfigSharesPhase(b: Board, vcal: real, phasecal: real, i1: real, i2: real, i3: real)
    ensures Config(b, vcal, phasecal, i1, i2, i3) == ConfigPerPhase(b, vcal, phasecal, phasecal, phasecal, i1, i2, i3)
  {
  }

  // ---------------------------------------------------------------------
  // 1) Synchronisation on a voltage sample near zero.
  // ---------------------------------------------------------------------

  predicate InBand(v: int)
  {
    -SYNC_BAND < v < SYNC_BAND
  }

  /** `millis() - start` computed in `unsigned long`. */
  function Elapsed(start: UInt32, now: UInt32): (e: UInt32)
    ensures start <= now ==> e == now - start
    ensures now < start ==> e == CLOCK_MODULUS - start + now
  {
    (now - start) % CLOCK_MODULUS
  }

  /** The wrapped difference is the one that, added to `start`, gives back
      `now` on the 32-bit clock. */
  lemma ElapsedInverse(start: UInt32, now: UInt32)
    ensures (start + Elapsed(start, now)) % CLOCK_MODULUS == now
  {
  }

  /** One synchronisation sample: `fastRead(DIFFERENTIAL_MODE)`, which
      scales to millivolts. A failed read gives the error value, which is
      outside the band. */
  function SyncSample(adc: Driver, reply: seq<bv8>): (v: Int16)
    ensures InBand(v) ==> |reply| == 2
    ensures |reply| == 2 ==> v == CDiv(adc.voltageRef, 1023) * Decode(Differential, reply[0], reply[1])
  {
    FastRead(adc, Differential, true, reply).out
  }

  /** The samples successive polls read from successive replies. */
  function SyncSamples(adc: Driver, replies: seq<seq<bv8>>): seq<Int16>
  {
    seq(|replies|, j requires 0 <= j < |replies| => SyncSample(adc, replies[j]))
  }

  /** A poll after which the synchronisation loop goes round again: the
      sample is outside the band and the timeout has not passed. */
  predicate KeepsWaiting(start: UInt32, timeout: UInt16, sample: Int16, now: UInt32)
  {
    !InBand(sample) && Elapsed(start, now) <= timeout
  }

  /** How the synchronisation loop ended, and after how many polls. */
  datatype SyncResult = Synced(startV: Int16, polls: nat) | SyncTimedOut(polls: nat) | SyncStalled

  /** The synchronisation loop from poll `k` on: each poll takes one sample,
      then one clock reading; the timeout is checked after the band, so it
      wins even on the poll whose sample is in the band. */
  function SyncLoop(start: UInt32, timeout: UInt16, samples: seq<Int16>, clock: seq<UInt32>, k: nat): (res: SyncResult)
    requires k <= |samples| && k <= |clock|
    ensures !res.SyncStalled? ==> k < res.polls <= |samples| && res.polls <= |clock|
    ensures !res.SyncStalled? ==>
      forall j :: k <= j < res.polls - 1 ==> KeepsWaiting(start, timeout, samples[j], clock[j])
    ensures res.SyncStalled? ==>
      forall j :: k <= j < |samples| && j < |clock| ==> KeepsWaiting(start, timeout, samples[j], clock[j])
    ensures res.Synced? ==>
      && res.startV == samples[res.polls - 1]
      && InBand(res.startV)
      && Elapsed(start, clock[res.polls - 1]) <= timeout
    ensures res.SyncTimedOut? ==> Elapsed(start, clock[res.polls - 1]) > timeout
    decreases |samples| - k
  {
    if k == |samples| || k == |clock| then SyncStalled
    else if Elapsed(start, clock[k]) > timeout then SyncTimedOut(k + 1)
    else if InBand(samples[k]) then Synced(samples[k], k + 1)
    else SyncLoop(start, timeout, samples, clock, k + 1)
  }

  /** A poll whose sample is in the band but whose clock reading is past the
      timeout ends the call with the timeout. */
  lemma InBandButLateTimesOut(start: UInt32, timeout: UInt16, samples: seq<Int16>, clock: seq<UInt32>, k: nat)
    requires k < |samples| && k < |clock|
    requires InBand(samples[k])
    requires Elapsed(start, clock[k]) > timeout
    ensures SyncLoop(start, timeout, samples, clock, k) == SyncTimedOut(k + 1)
  {
  }

  /** Polls that keep the loop waiting change nothing: the loop from poll
      `k` ends as the loop from poll `p` does. */
  lemma {:induction false} SyncSkipsWaiting(start: UInt32, timeout: UInt16, samples: seq<Int16>, clock: seq<UInt32>,
                                            k: nat, p: nat)
    requires k <= p <= |samples| && p <= |clock|
    requires forall j :: k <= j < p ==> KeepsWaiting(start, timeout, samples[j], clock[j])
    ensures SyncLoop(start, timeout, samples, clock, k) == SyncLoop(start, timeout, samples, clock, p)
    decreases p - k
  {
    if k < p {
      assert KeepsWaiting(start, timeout, samples[k], clock[k]);
      SyncSkipsWaiting(start, timeout, samples, clock, k + 1, p);
    }
  }

  /** The start sample is the first in-band sample, provided its poll is
      still inside the timeout and every poll before it kept waiting. */
  lemma FirstInBandSampleStarts(start: UInt32, timeout: UInt16, samples: seq<Int16>, clock: seq<UInt32>, p: nat)
    requires p < |samples| && p < |clock|
    requires forall j :: 0 <= j < p ==> KeepsWaiting(start, timeout, samples[j], clock[j])
    requires InBand(samples[p]) && Elapsed(start, clock[p]) <= timeout
    ensures SyncLoop(start, timeout, samples, clock, 0) == Synced(samples[p], p + 1)
  {
    SyncSkipsWaiting(start, timeout, samples, clock, 0, p);
  }

  // ---------------------------------------------------------------------
  // 2) The measurement loop.
  // ---------------------------------------------------------------------

  /** What one differential scan in millivolts delivers: a fresh frame, or
      nothing when the reply has the wrong length, in which case `fastScan`
      leaves the buffer as it was. */
  datatype Scanned = Fresh(frame: Frame) | Stale

  function ScanFrame(adc: Driver, reply: seq<bv8>): (s: Scanned)
    ensures s.Stale? <==> |reply| != 8
    ensures s.Fresh? ==> forall i :: 0 <= i < 4 ==>
      s.frame[i] == Reading(adc.voltageRef, 1024, true, Decode(Differential, reply[2 * i], reply[2 * i + 1]))
  {
    if |reply| == 8 then Fresh(FastScan(adc, Differential, [0, 0, 0, 0], true, reply).out) else Stale
  }

  /** The buffer after a scan, given the buffer before it. */
  function Refresh(prev: Frame, s: Scanned): Frame
  {
    match s
    case Fresh(f) => f
    case Stale => prev
  }

  /** `fastScan` into the buffer `prev` is `Refresh` of `prev` with the
      decoded reply: a full reply overwrites all four entries. */
  lemma FastScanRefreshes(adc: Driver, prev: Frame, reply: seq<bv8>)
    ensures FastScan(adc, Differential, prev, true, reply).out == Refresh(prev, ScanFrame(adc, reply))
  {
    if |reply| == 8 {
      var out := FastScan(adc, Differential, prev, true, reply).out;
      var decoded := ScanFrame(adc, reply).frame;
      assert |out| == 4 == |decoded|;
      assert forall i :: 0 <= i < 4 ==> out[i] == decoded[i];
    }
  }

  /** What successive scans deliver from successive replies. */
  function ScanFrames(adc: Driver, replies: seq<seq<bv8>>): seq<Scanned>
  {
    seq(|replies|, j requires 0 <= j < |replies| => ScanFrame(adc, replies[j]))
  }

  /** `lectura` is never written before the first scan; the model starts it at zero. */
  const INITIAL_LECTURA: Frame := [0, 0, 0, 0]

  /** The `lectura` buffer after the last of `frames` (or before any). */
  function LastFrame(frames: seq<Frame>): Frame
  {
    if frames == [] then INITIAL_LECTURA else frames[|frames| - 1]
  }

  /** The buffers the successive scans leave behind. */
  function Buffers(scans: seq<Scanned>): (frames: seq<Frame>)
    ensures |frames| == |scans|
    decreases |scans|
  {
    if scans == [] then []
    else
      var prev := Buffers(scans[..|scans| - 1]);
      prev + [Refresh(LastFrame(prev), scans[|scans| - 1])]
  }

  lemma BuffersStep(scans: seq<Scanned>, k: nat)
    requires k < |scans|
    ensures Buffers(scans[..k + 1]) == Buffers(scans[..k]) + [Refresh(LastFrame(Buffers(scans[..k])), scans[k])]
  {
    var p := scans[..k + 1];
    assert p[..|p| - 1] == scans[..k];
    assert p[|p| - 1] == scans[k];
  }

  /** The buffer left by the `k`-th scan is what `fastScan` makes of the
      buffer left by the scans before it and the `k`-th reply. */
  lemma ScannedBufferIsFastScan(adc: Driver, replies: seq<seq<bv8>>, k: nat)
    requires k < |replies|
    ensures var scans := ScanFrames(adc, replies);
      Buffers(scans[..k + 1])[k]
        == FastScan(adc, Differential, LastFrame(Buffers(scans[..k])), true, replies[k]).out
  {
    var scans := ScanFrames(adc, replies);
    BuffersStep(scans, k);
    FastScanRefreshes(adc, LastFrame(Buffers(scans[..k])), replies[k]);
  }

  // --- The arithmetic of one pass -------------------------------------

  /** The running sums and the phase-shifted voltages, one per socket. */
  datatype Sums = Sums(sumV: real, sumI: Triple, sumP: Triple, shifted: Triple)

  /** Sums reset at the start of the call; the uninitialised `phaseShiftedV`
      starts at zero in the model. */
  const ZERO_SUMS: Sums := Sums(0.0, [0.0, 0.0, 0.0], [0.0, 0.0, 0.0], [0.0, 0.0, 0.0])

  /** The three chained first-order phase filters fed by the raw voltage sample. */
  function FilterStep(cal: Calibration, v: Triple, x: real): Triple
  {
    var v0 := v[0] + cal.phasecal1 * (x - v[2]);
    var v1 := v[1] + cal.phasecal2 * (v0 - v[1]);
    var v2 := v[2] + cal.phasecal3 * (v1 - v[2]);
    [v0, v1, v2]
  }

  /** The sample of channel `c` (0 voltage, 1-3 currents) calibrated by `k`. */
  function Calibrated(f: Frame, c: nat, k: real): real
    requires c < 4
  {
    f[c] as real * k
  }

  function Square(x: real): real
  {
    x * x
  }

  /** The instantaneous power of socket `i + 1`: the phase-shifted voltage
      of that socket times its calibrated current. */
  function PowerTerm(cal: Calibration, shifted: Triple, f: Frame, i: nat): real
    requires i < 3
  {
    shifted[i] * Calibrated(f, i + 1, CurrentCal(cal, i))
  }

  /** One pass's sums: squared calibrated voltage and currents, and the
      phase-shifted voltage times the calibrated current. The power uses the
      filtered raw voltage, not the voltage scaled by `VCAL`. */
  function AddSample(cal: Calibration, s: Sums, lectura: Frame): Sums
  {
    var shifted := FilterStep(cal, s.shifted, lectura[0] as real);
    Sums(
      s.sumV + Square(Calibrated(lectura, 0, cal.vcal)),
      [s.sumI[0] + Square(Calibrated(lectura, 1, cal.i1)),
       s.sumI[1] + Square(Calibrated(lectura, 2, cal.i2)),
       s.sumI[2] + Square(Calibrated(lectura, 3, cal.i3))],
      [s.sumP[0] + PowerTerm(cal, shifted, lectura, 0),
       s.sumP[1] + PowerTerm(cal, shifted, lectura, 1),
       s.sumP[2] + PowerTerm(cal, shifted, lectura, 2)],
      shifted)
  }

  /** The sum of the squared samples of channel `c` calibrated by `k`. */
  function SquareSum(frames: seq<Frame>, c: nat, k: real): real
    requires c < 4
    decreases |frames|
  {
    if frames == [] then 0.0
    else
      SquareSum(frames[..|frames| - 1], c, k) + Square(Calibrated(frames[|frames| - 1], c, k))
  }

  /** The phase filter state after the raw voltage samples of `frames`. */
  function PhaseTrace(cal: Calibration, frames: seq<Frame>): Triple
    decreases |frames|
  {
    if frames == [] then ZERO_SUMS.shifted
    else FilterStep(cal, PhaseTrace(cal, frames[..|frames| - 1]), frames[|frames| - 1][0] as real)
  }

  /** The sum over the samples of socket `i + 1` of the filter output after
      that sample times the calibrated current. */
  function PowerSum(cal: Calibration, frames: seq<Frame>, i: nat): real
    requires i < 3
    decreases |frames|
  {
    if frames == [] then 0.0
    else
      PowerSum(cal, frames[..|frames| - 1], i) + PowerTerm(cal, PhaseTrace(cal, frames), frames[|frames| - 1], i)
  }

  /** The sums the loop should hold after `frames`, field by field. */
  function Reference(cal: Calibration, frames: seq<Frame>): Sums
  {
    Sums(
      SquareSum(frames, 0, cal.vcal),
      [SquareSum(frames, 1, cal.i1), SquareSum(frames, 2, cal.i2), SquareSum(frames, 3, cal.i3)],
      [PowerSum(cal, frames, 0), PowerSum(cal, frames, 1), PowerSum(cal, frames, 2)],
      PhaseTrace(cal, frames))
  }

  lemma SquareSumStep(frames: seq<Frame>, f: Frame, c: nat, k: real)
    requires c < 4
    ensures SquareSum(frames + [f], c, k) == SquareSum(frames, c, k) + Square(Calibrated(f, c, k))
  {
    assert (frames + [f])[..|frames|] == frames;
  }

  lemma PhaseTraceStep(cal: Calibration, frames: seq<Frame>, f: Frame)
    ensures PhaseTrace(cal, frames + [f]) == FilterStep(cal, PhaseTrace(cal, frames), f[0] as real)
  {
    assert (frames + [f])[..|frames|] == frames;
  }

  lemma PowerSumStep(cal: Calibration, frames: seq<Frame>, f: Frame, i: nat)
    requires i < 3
    ensures PowerSum(cal, frames + [f], i)
         == PowerSum(cal, frames, i) + PowerTerm(cal, PhaseTrace(cal, frames + [f]), f, i)
  {
    assert (frames + [f])[..|frames|] == frames;
  }

  /** The loop body's arithmetic agrees with the reference sums: one more
      sample adds exactly its terms. */
  lemma {:induction false} AddSampleMatchesReference(cal: Calibration, frames: seq<Frame>, f: Frame)
    ensures AddSample(cal, Reference(cal, frames), f) == Reference(cal, frames + [f])
  {
    SquareSumStep(frames, f, 0, cal.vcal);
    SquareSumStep(frames, f, 1, cal.i1);
    SquareSumStep(frames, f, 2, cal.i2);
    SquareSumStep(frames, f, 3, cal.i3);
    PhaseTraceStep(cal, frames, f);
    PowerSumStep(cal, frames, f, 0);
    PowerSumStep(cal, frames, f, 1);
    PowerSumStep(cal, frames, f, 2);
  }

  lemma ScaledSquare(a: real, s: real, x: real, t: real)
    requires t == s + (x * 1.0) * (x * 1.0)
    ensures a * a * t == a * a * s + (x * a) * (x * a)
  {
  }

  /** A calibration factor `k` scales the sum of squares by `k * k`: the
      mean square `calcVI` takes the root of is `VCAL` (or `I1`-`I3`)
      squared times the mean square of the raw samples. */
  lemma {:induction false} CalibrationScalesSquares(frames: seq<Frame>, c: nat, k: real)
    requires c < 4
    ensures SquareSum(frames, c, k) == k * k * SquareSum(frames, c, 1.0)
    decreases |frames|
  {
    if frames != [] {
      var prefix := frames[..|frames| - 1];
      var x := frames[|frames| - 1][c] as real;
      CalibrationScalesSquares(prefix, c, k);
      ScaledSquare(k, SquareSum(prefix, c, 1.0), x, SquareSum(frames, c, 1.0));
    }
  }

  /** With every phase coefficient at 1 ("no adjustment") the three filter
      outputs all equal the last raw voltage sample. */
  lemma {:induction false} UnitPhaseFollowsVoltage(cal: Calibration, frames: seq<Frame>)
    requires cal.phasecal1 == 1.0 && cal.phasecal2 == 1.0 && cal.phasecal3 == 1.0
    ensures var v := LastFrame(frames)[0] as real;
      PhaseTrace(cal, frames) == [v, v, v]
    decreases |frames|
  {
    if frames != [] {
      UnitPhaseFollowsVoltage(cal, frames[..|frames| - 1]);
    }
  }

  /** With every phase coefficient at 1, whatever the filter held before,
      from the second sample on all three outputs equal the latest raw
      voltage sample. */
  lemma UnitPhaseForgetsStart(cal: Calibration, v: Triple, x: real, y: real)
    requires cal.phasecal1 == 1.0 && cal.phasecal2 == 1.0 && cal.phasecal3 == 1.0
    ensures FilterStep(cal, FilterStep(cal, v, x), y) == [y, y, y]
  {
    var a := v[0] + (x - v[2]);
    assert FilterStep(cal, v, x) == [a, a, a];
  }

  // --- Crossing detection ---------------------------------------------

  /** The crossing flag: the voltage sample is above the start sample. */
  predicate VoltageAbove(f: Frame, startV: Int16)
  {
    f[0] > startV
  }

  /** Crossings counted by the loop over `frames`: a change of the flag from
      one sample to the next, except at a sample whose 16-bit sample counter
      reads 1 (the first, and every 65536th after it), where the previous
      flag is overwritten by the current one. */
  function CrossCount(frames: seq<Frame>, startV: Int16): nat
    decreases |frames|
  {
    if |frames| <= 1 then 0
    else
      var k := |frames| - 1;
      CrossCount(frames[..k], startV)
        + (if VoltageAbove(frames[k], startV) != VoltageAbove(frames[k - 1], startV) && k % COUNTER_MODULUS != 0 then 1 else 0)
  }

  /** Reference count: every change of the flag between consecutive samples. */
  function FlagChanges(frames: seq<Frame>, startV: Int16): nat
    decreases |frames|
  {
    if |frames| <= 1 then 0
    else
      var k := |frames| - 1;
      FlagChanges(frames[..k], startV) + (if VoltageAbove(frames[k], startV) != VoltageAbove(frames[k - 1], startV) then 1 else 0)
  }

  lemma CrossCountStep(frames: seq<Frame>, f: Frame, startV: Int16)
    requires frames != []
    ensures CrossCount(frames + [f], startV)
         == CrossCount(frames, startV)
            + (if VoltageAbove(f, startV) != VoltageAbove(LastFrame(frames), startV)
                  && |frames| % COUNTER_MODULUS != 0 then 1 else 0)
  {
    assert (frames + [f])[..|frames|] == frames;
  }

  /** The loop counts at most one crossing per pass after the first, and
      never more than the flag changes it sees. */
  lemma {:induction false} CrossCountBound(frames: seq<Frame>, startV: Int16)
    ensures CrossCount(frames, startV) <= FlagChanges(frames, startV)
    ensures frames != [] ==> FlagChanges(frames, startV) <= |frames| - 1
    decreases |frames|
  {
    if |frames| > 1 {
      CrossCountBound(frames[..|frames| - 1], startV);
    }
  }

  /** Until the 16-bit sample counter wraps, the loop counts exactly the
      changes of the crossing flag. */
  lemma {:induction false} CrossCountIsFlagChanges(frames: seq<Frame>, startV: Int16)
    requires |frames| <= COUNTER_MODULUS
    ensures CrossCount(frames, startV) == FlagChanges(frames, startV)
    decreases |frames|
  {
    if |frames| > 1 {
      CrossCountIsFlagChanges(frames[..|frames| - 1], startV);
    }
  }

  /** A voltage that stays on one side of the start sample is never
      counted as crossing it. */
  lemma {:induction false} SteadyVoltageNoCrossing(frames: seq<Frame>, startV: Int16)
    requires forall i :: 0 <= i < |frames| ==> VoltageAbove(frames[i], startV) == VoltageAbove(frames[0], startV)
    ensures CrossCount(frames, startV) == 0
    decreases |frames|
  {
    if |frames| > 1 {
      var prefix := frames[..|frames| - 1];
      assert forall i :: 0 <= i < |prefix| ==> prefix[i] == frames[i];
      SteadyVoltageNoCrossing(prefix, startV);
    }
  }

  /** Advancing a wrapping counter by one: it reads 1 exactly when it was 0. */
  lemma CounterStep(k: nat)
    ensures (k % COUNTER_MODULUS + 1) % COUNTER_MODULUS == (k + 1) % COUNTER_MODULUS
    ensures (k + 1) % COUNTER_MODULUS == 1 <==> k % COUNTER_MODULUS == 0
  {
    var q, r := k / COUNTER_MODULUS, k % COUNTER_MODULUS;
    assert k == q * COUNTER_MODULUS + r;
    if r + 1 < COUNTER_MODULUS {
      assert k + 1 == q * COUNTER_MODULUS + (r + 1);
    } else {
      assert k + 1 == (q + 1) * COUNTER_MODULUS;
    }
  }

  // --- The loop -------------------------------------------------------

  /** The state the measurement loop carries from one pass to the next;
      `frames` records every buffer scanned so far. */
  datatype LoopState = LoopState(
    frames: seq<Frame>, lectura: Frame, numberOfSamples: UInt16,
    crossCount: nat, checkVCross: bool, sums: Sums)

  /** `checkVCross` is never set before the first sample; the model starts it false. */
  const START_STATE: LoopState := LoopState([], INITIAL_LECTURA, 0, 0, false, ZERO_SUMS)

  /** One pass of the loop body on the scan it reads: the sample counter
      wraps at 2^16, and on a pass where it reads 1 the previous flag is
      replaced by the current one, so no crossing is counted. */
  function Iterate(cal: Calibration, startV: Int16, st: LoopState, scan: Scanned): (r: LoopState)
    ensures r.lectura == Refresh(st.lectura, scan)
    ensures r.frames == st.frames + [r.lectura]
    ensures r.crossCount <= st.crossCount + 1
  {
    var lectura := Refresh(st.lectura, scan);
    var n := (st.numberOfSamples + 1) % COUNTER_MODULUS;
    var checkVCross := VoltageAbove(lectura, startV);
    var lastVCross := if n == 1 then checkVCross else st.checkVCross;
    var crossCount := if lastVCross != checkVCross then st.crossCount + 1 else st.crossCount;
    LoopState(st.frames + [lectura], lectura, n, crossCount, checkVCross, AddSample(cal, st.sums, lectura))
  }

  /** The buffers recorded so far are those the first |frames| scans leave,
      and `lectura` holds the last of them. */
  predicate Traced(scans: seq<Scanned>, st: LoopState)
  {
    && |st.frames| <= |scans|
    && st.frames == Buffers(scans[..|st.frames|])
    && st.lectura == LastFrame(st.frames)
  }

  /** The sums, the wrapped sample counter, the crossing count and the flag
      are those the recorded buffers determine. */
  predicate Tallied(cal: Calibration, startV: Int16, st: LoopState)
  {
    && st.sums == Reference(cal, st.frames)
    && st.numberOfSamples == |st.frames| % COUNTER_MODULUS
    && st.crossCount == CrossCount(st.frames, startV)
    && (st.frames != [] ==> st.checkVCross == VoltageAbove(LastFrame(st.frames), startV))
  }

  /** The loop invariant: every field of the state is what the scans so far
      determine. */
  predicate Consistent(cal: Calibration, startV: Int16, scans: seq<Scanned>, st: LoopState)
  {
    Traced(scans, st) && Tallied(cal, startV, st)
  }

  lemma StartConsistent(cal: Calibration, startV: Int16, scans: seq<Scanned>)
    ensures Consistent(cal, startV, scans, START_STATE)
  {
    assert scans[..0] == [];
    assert Reference(cal, []) == ZERO_SUMS;
  }

  /** One pass keeps the tallies, whatever buffer was scanned. */
  lemma IterateTallied(cal: Calibration, startV: Int16, st: LoopState, scan: Scanned)
    requires Tallied(cal, startV, st)
    ensures Tallied(cal, startV, Iterate(cal, startV, st, scan))
  {
    var k := |st.frames|;
    var f := Refresh(st.lectura, scan);
    var r := Iterate(cal, startV, st, scan);
    assert r.frames == st.frames + [f];
    assert r.sums == Reference(cal, r.frames) by {
      AddSampleMatchesReference(cal, st.frames, f);
    }
    assert r.numberOfSamples == (k + 1) % COUNTER_MODULUS && (r.numberOfSamples == 1 <==> k % COUNTER_MODULUS == 0) by {
      CounterStep(k);
    }
    assert r.crossCount == CrossCount(r.frames, startV) by {
      if st.frames != [] {
        CrossCountStep(st.frames, f, startV);
      }
    }
  }

  /** The loop body keeps the invariant. */
  lemma IterateConsistent(cal: Calibration, startV: Int16, scans: seq<Scanned>, st: LoopState)
    requires |st.frames| < |scans|
    ensures Consistent(cal, startV, scans, st) ==>
            Consistent(cal, startV, scans, Iterate(cal, startV, st, scans[|st.frames|]))
  {
    if Consistent(cal, startV, scans, st) {
      BuffersStep(scans, |st.frames|);
      IterateTallied(cal, startV, st, scans[|st.frames|]);
    }
  }

  /** Why the measurement loop stopped. */
  datatype Exit = ReachedCrossings | TimedOut | InputExhausted

  /** The state the measurement loop ended in. */
  datatype Window = Window(startV: Int16, last: LoopState, exit: Exit)

  /** The measurement loop from state `st`: `crossCount < crossings` is
      evaluated first, and only then is the clock read and compared with
      `timeout`; each pass takes one scan. */
  function AccumulationLoop(cal: Calibration, startV: Int16, crossings: UInt16, timeout: UInt16,
                            start: UInt32, scans: seq<Scanned>, clock: seq<UInt32>, st: LoopState): (w: Window)
    requires |st.frames| <= |scans| && |st.frames| <= |clock|
    requires st.crossCount <= crossings
    ensures w.startV == startV
    ensures |st.frames| <= |w.last.frames| <= |scans| && |w.last.frames| <= |clock|
    ensures w.last.crossCount <= crossings
    ensures w.exit.ReachedCrossings? <==> w.last.crossCount == crossings
    ensures w.exit.TimedOut? ==> |w.last.frames| < |clock| && Elapsed(start, clock[|w.last.frames|]) >= timeout
    ensures w.exit.InputExhausted? ==> |w.last.frames| == |scans| || |w.last.frames| == |clock|
    decreases |scans| - |st.frames|
  {
    var k := |st.frames|;
    if st.crossCount >= crossings then Window(startV, st, ReachedCrossings)
    else if k == |clock| then Window(startV, st, InputExhausted)
    else if Elapsed(start, clock[k]) >= timeout then Window(startV, st, TimedOut)
    else if k == |scans| then Window(startV, st, InputExhausted)
    else AccumulationLoop(cal, startV, crossings, timeout, start, scans, clock, Iterate(cal, startV, st, scans[k]))
  }

  /** The guard of the measurement loop at state `st`, with a scan and a
      clock reading left to consume. */
  predicate Continues(crossings: UInt16, timeout: UInt16, start: UInt32,
                      scans: seq<Scanned>, clock: seq<UInt32>, st: LoopState)
  {
    var k := |st.frames|;
    st.crossCount < crossings && k < |clock| && Elapsed(start, clock[k]) < timeout && k < |scans|
  }

  /** One unfolding of the loop: either it stops in `st` or it goes on from
      the state after one pass. */
  lemma LoopUnfold(cal: Calibration, startV: Int16, crossings: UInt16, timeout: UInt16,
                   start: UInt32, scans: seq<Scanned>, clock: seq<UInt32>, st: LoopState)
    requires |st.frames| <= |scans| && |st.frames| <= |clock|
    requires st.crossCount <= crossings
    ensures var w := AccumulationLoop(cal, startV, crossings, timeout, start, scans, clock, st);
      if Continues(crossings, timeout, start, scans, clock, st) then
        w == AccumulationLoop(cal, startV, crossings, timeout, start, scans, clock,
                              Iterate(cal, startV, st, scans[|st.frames|]))
      else w.last == st
  {
  }

  /** Every pass of the measurement loop started inside the timeout. */
  lemma {:induction false} LoopRunsInTime(cal: Calibration, startV: Int16, crossings: UInt16, timeout: UInt16,
                                          start: UInt32, scans: seq<Scanned>, clock: seq<UInt32>, st: LoopState)
    requires |st.frames| <= |scans| && |st.frames| <= |clock|
    requires st.crossCount <= crossings
    ensures var w := AccumulationLoop(cal, startV, crossings, timeout, start, scans, clock, st);
      forall j :: |st.frames| <= j < |w.last.frames| ==> Elapsed(start, clock[j]) < timeout
    decreases |scans| - |st.frames|
  {
    LoopUnfold(cal, startV, crossings, timeout, start, scans, clock, st);
    if Continues(crossings, timeout, start, scans, clock, st) {
      LoopRunsInTime(cal, startV, crossings, timeout, start, scans, clock, Iterate(cal, startV, st, scans[|st.frames|]));
    }
  }

  /** The loop invariant holds when the measurement loop ends. */
  lemma {:induction false} LoopKeepsConsistent(cal: Calibration, startV: Int16, crossings: UInt16, timeout: UInt16,
                                               start: UInt32, scans: seq<Scanned>, clock: seq<UInt32>, st: LoopState)
    requires |st.frames| <= |scans| && |st.frames| <= |clock|
    requires st.crossCount <= crossings
    requires Consistent(cal, startV, scans, st)
    ensures Consistent(cal, startV, scans, AccumulationLoop(cal, startV, crossings, timeout, start, scans, clock, st).last)
    decreases |scans| - |st.frames|
  {
    LoopUnfold(cal, startV, crossings, timeout, start, scans, clock, st);
    if Continues(crossings, timeout, start, scans, clock, st) {
      IterateConsistent(cal, startV, scans, st);
      LoopKeepsConsistent(cal, startV, crossings, timeout, start, scans, clock, Iterate(cal, startV, st, scans[|st.frames|]));
    }
  }

  // ---------------------------------------------------------------------
  // 3) Post-loop calculations.
  // ---------------------------------------------------------------------

  /** `if (powerFactor > 1) powerFactor = 1`: NaN compares false and is kept. */
  function ClampPowerFactor(pf: Float): (r: Float)
    ensures !Above(r, 1.0)
    ensures !Above(pf, 1.0) ==> r == pf
    ensures Above(pf, 1.0) ==> r == Finite(1.0)
  {
    if Above(pf, 1.0) then Finite(1.0) else pf
  }

  /** The readings of one socket. */
  datatype SocketReadings = SocketReadings(irms: Float, realPower: Float, apparentPower: Float, powerFactor: Float)

  /** RMS current, mean power, apparent power and clamped power factor of
      one socket; nothing is guarded against a zero count or a zero
      apparent power. */
  function Socket(vrms: Float, sumI: real, sumP: real, n: UInt16, root: real -> real): (r: SocketReadings)
    ensures n > 0 && sumI >= 0.0 ==> r.irms == Finite(root(sumI / n as real))
    ensures n > 0 ==> r.realPower == Finite(sumP / n as real)
    ensures r.apparentPower == Mul(vrms, r.irms)
    ensures !Above(r.powerFactor, 1.0)
    ensures r.powerFactor == ClampPowerFactor(Div(r.realPower, r.apparentPower))
  {
    var irms := Sqrt(Div(Finite(sumI), Finite(n as real)), root);
    var realPower := Div(Finite(sumP), Finite(n as real));
    var apparentPower := Mul(vrms, irms);
    SocketReadings(irms, realPower, apparentPower, ClampPowerFactor(Div(realPower, apparentPower)))
  }

  /** The readings written after the loop, dividing by the wrapped sample
      counter `n`. */
  function Finalise(s: Sums, n: UInt16, root: real -> real): (r: Readings)
  {
    var vrms := Sqrt(Div(Finite(s.sumV), Finite(n as real)), root);
    var s0 := Socket(vrms, s.sumI[0], s.sumP[0], n, root);
    var s1 := Socket(vrms, s.sumI[1], s.sumP[1], n, root);
    var s2 := Socket(vrms, s.sumI[2], s.sumP[2], n, root);
    Readings(
      vrms,
      [s0.irms, s1.irms, s2.irms],
      [s0.realPower, s1.realPower, s2.realPower],
      [s0.apparentPower, s1.apparentPower, s2.apparentPower],
      [s0.powerFactor, s1.powerFactor, s2.powerFactor])
  }

  /** What the readings mean: the RMS values are roots of the mean squares,
      the real power is the mean instantaneous power, the apparent power is
      the product of the RMS values, and the power factor never exceeds 1.
      A zero sample count leaves the RMS voltage without a number. */
  lemma FinaliseReadings(s: Sums, n: UInt16, root: real -> real)
    ensures var r := Finalise(s, n, root);
      && (n > 0 && s.sumV >= 0.0 ==> r.vrms == Finite(root(s.sumV / n as real)))
      && (n == 0 ==> !r.vrms.Finite?)
      && forall i :: 0 <= i < 3 ==>
           && (n > 0 && s.sumI[i] >= 0.0 ==> r.irms[i] == Finite(root(s.sumI[i] / n as real)))
           && (n > 0 ==> r.realPower[i] == Finite(s.sumP[i] / n as real))
           && r.apparentPower[i] == Mul(r.vrms, r.irms[i])
           && !Above(r.powerFactor[i], 1.0)
  {
    forall i | 0 <= i < 3 {
      FinaliseSocket(s, n, root, i);
    }
  }

  /** Socket `i + 1` of the readings is `Socket` applied to its own sums. */
  lemma FinaliseSocket(s: Sums, n: UInt16, root: real -> real, i: nat)
    requires i < 3
    ensures var r := Finalise(s, n, root);
      var k := Socket(r.vrms, s.sumI[i], s.sumP[i], n, root);
      && |r.irms| == |r.realPower| == |r.apparentPower| == |r.powerFactor| == 3
      && r.irms[i] == k.irms && r.realPower[i] == k.realPower
      && r.apparentPower[i] == k.apparentPower && r.powerFactor[i] == k.powerFactor
  {
  }

  /** A window without samples leaves no number in any reading of a socket
      whose sums are non-negative: the division by the zero count is not
      guarded, and the power factor comes out NaN. */
  lemma NoSamplesNoPowerFactor(s: Sums, root: real -> real, i: nat)
    requires i < 3
    requires s.sumV >= 0.0 && s.sumI[i] >= 0.0
    ensures !Finalise(s, 0, root).vrms.Finite?
    ensures !Finalise(s, 0, root).irms[i].Finite?
    ensures !Finalise(s, 0, root).realPower[i].Finite?
    ensures Finalise(s, 0, root).powerFactor[i].NaN?
  {
  }

  /** A socket with no current and no power, under a finite voltage,
      reports a NaN power factor: 0 W over 0 VA is not guarded. */
  lemma IdleSocketPowerFactor(vrms: Float, n: UInt16, root: real -> real)
    requires n > 0 && root(0.0) == 0.0 && vrms.Finite?
    ensures var r := Socket(vrms, 0.0, 0.0, n, root);
      && r.realPower == Finite(0.0)
      && r.apparentPower == Finite(0.0)
      && r.powerFactor.NaN?
  {
    var irms := Sqrt(Div(Finite(0.0), Finite(n as real)), root);
    assert irms == Finite(0.0);
  }

  /** The same for a socket of a finished window: a non-negative voltage sum
      and zero current and power sums give a NaN power factor. */
  lemma IdleSocketReadings(s: Sums, n: UInt16, root: real -> real, i: nat)
    requires i < 3 && n > 0
    requires root(0.0) == 0.0
    requires s.sumV >= 0.0 && s.sumI[i] == 0.0 && s.sumP[i] == 0.0
    ensures Finalise(s, n, root).realPower[i] == Finite(0.0)
    ensures Finalise(s, n, root).apparentPower[i] == Finite(0.0)
    ensures Finalise(s, n, root).powerFactor[i].NaN?
  {
    var vrms := Sqrt(Div(Finite(s.sumV), Finite(n as real)), root);
    IdleSocketPowerFactor(vrms, n, root);
    assert Finalise(s, n, root).powerFactor[i] == Socket(vrms, s.sumI[i], s.sumP[i], n, root).powerFactor;
  }

  // ---------------------------------------------------------------------
  // calcVI
  // ---------------------------------------------------------------------

  /** The outcome of `calcVI`: -1 when no start sample was found in time,
      0 with the measurement window otherwise. */
  datatype Outcome = NoZeroCrossing | Measured(window: Window) | OutOfInput

  /** The value `calcVI` returns. */
  function ReturnCode(o: Outcome): (code: int)
    requires !o.OutOfInput?
  {
    if o.NoZeroCrossing? then -1 else 0
  }

  /** A differential `fastConfig` leaves the same setup byte whatever the
      channel: the prologue fixes bits 7 and 2 and keeps the others. */
  lemma SetupByteDetermined(a: bv8, b: bv8)
    requires a & 0x7B == b & 0x7B
    requires IsSetupByte(a) && IsSetupByte(b) && IsBipolar(a) && IsBipolar(b)
    ensures a == b
  {
  }

  /** The measurement phase of `calcVI`, entered with the start sample
      `startV`: prime the full differential scan, read the window's start
      time, run the loop and write the readings. */
  function Measure(m: Meter, adc: Driver, startV: Int16, crossings: UInt16, timeout: UInt16,
                   replies: seq<seq<bv8>>, clock: seq<UInt32>, root: real -> real): (r: Effect<Outcome>)
    ensures r.out.Measured? || r.out.OutOfInput?
    ensures r.board.meter.cal == m.cal
    ensures r.board.adc == FastConfig(adc, Differential, ALL_CHANNELS).drv
    ensures r.writes == [r.board.adc.setupReg, 0x0E]
    ensures r.out.OutOfInput? ==> r.board.meter.readings == m.readings
    ensures r.out.Measured? ==>
      && r.out.window.startV == startV
      && !r.out.window.exit.InputExhausted?
      && r.board.meter.readings == Finalise(r.out.window.last.sums, r.out.window.last.numberOfSamples, root)
  {
    var scanPrime := FastConfig(adc, Differential, ALL_CHANNELS);
    var primed := Board(m, scanPrime.drv);
    if |clock| == 0 then Effect(primed, scanPrime.writes, OutOfInput)
    else
      var w := AccumulationLoop(m.cal, startV, crossings, timeout, clock[0],
                                ScanFrames(scanPrime.drv, replies), clock[1..], START_STATE);
      if w.exit.InputExhausted? then Effect(primed, scanPrime.writes, OutOfInput)
      else
        var readings := Finalise(w.last.sums, w.last.numberOfSamples, root);
        Effect(Board(m.(readings := readings), scanPrime.drv), scanPrime.writes, Measured(w))
  }

  /** What a measured window satisfies: the loop stopped on the crossing
      target or on the timeout (never on missing input), every pass started
      inside the timeout, and the state is the one the scans determine. */
  lemma MeasuredWindow(m: Meter, adc: Driver, startV: Int16, crossings: UInt16, timeout: UInt16,
                       replies: seq<seq<bv8>>, clock: seq<UInt32>, root: real -> real)
    requires Measure(m, adc, startV, crossings, timeout, replies, clock, root).out.Measured?
    ensures var r := Measure(m, adc, startV, crossings, timeout, replies, clock, root);
      var st := r.out.window.last;
      && |st.frames| < |clock|
      && st.crossCount <= crossings
      && (r.out.window.exit.ReachedCrossings? <==> st.crossCount == crossings)
      && (r.out.window.exit.TimedOut? ==>
            |st.frames| + 1 < |clock| && Elapsed(clock[0], clock[1..][|st.frames|]) >= timeout)
      && (forall j :: 0 <= j < |st.frames| ==> Elapsed(clock[0], clock[1..][j]) < timeout)
      && Consistent(m.cal, startV, ScanFrames(r.board.adc, replies), st)
  {
    var scans := ScanFrames(FastConfig(adc, Differential, ALL_CHANNELS).drv, replies);
    StartConsistent(m.cal, startV, scans);
    LoopKeepsConsistent(m.cal, startV, crossings, timeout, clock[0], scans, clock[1..], START_STATE);
    LoopRunsInTime(m.cal, startV, crossings, timeout, clock[0], scans, clock[1..], START_STATE);
  }

  /** Priming the voltage channel, then the full scan, writes the same setup
      byte twice; the second priming leaves the driver as the first did. */
  lemma PrimingWrites(adc: Driver)
    ensures var p := FastConfig(adc, Differential, CH_0_1);
      var q := FastConfig(p.drv, Differential, ALL_CHANNELS);
      && q.drv == p.drv
      && p.writes + q.writes == [p.drv.setupReg, 0x60, p.drv.setupReg, 0x0E]
  {
    var p := FastConfig(adc, Differential, CH_0_1);
    var q := FastConfig(p.drv, Differential, ALL_CHANNELS);
    SetupByteDetermined(p.drv.setupReg, q.drv.setupReg);
  }

  /** `calcVI(crossings, timeout)`. `clock` holds the successive `millis()`
      readings; `replies` the successive bus replies (two bytes expected
      while synchronising, eight while measuring). Only a measured window
      changes the readings; a missed start sample returns before the scan
      is primed. */
  function CalcVI(b: Board, crossings: UInt16, timeout: UInt16,
                  replies: seq<seq<bv8>>, clock: seq<UInt32>, root: real -> real): (r: Effect<Outcome>)
    ensures r.board.meter.cal == b.meter.cal
    ensures r.board.adc == FastConfig(b.adc, Differential, CH_0_1).drv
    ensures !r.out.Measured? ==> r.board.meter.readings == b.meter.readings
    ensures r.out.NoZeroCrossing? ==> r.writes == [r.board.adc.setupReg, 0x60]
    ensures r.out.Measured? ==> r.writes == [r.board.adc.setupReg, 0x60, r.board.adc.setupReg, 0x0E]
    ensures r.out.Measured? ==>
      r.board.meter.readings == Finalise(r.out.window.last.sums, r.out.window.last.numberOfSamples, root)
  {
    var voltagePrime := FastConfig(b.adc, Differential, CH_0_1);
    var primed := b.(adc := voltagePrime.drv);
    if |clock| == 0 then Effect(primed, voltagePrime.writes, OutOfInput)
    else
      match SyncLoop(clock[0], timeout, SyncSamples(primed.adc, replies), clock[1..], 0)
      case SyncStalled => Effect(primed, voltagePrime.writes, OutOfInput)
      case SyncTimedOut(_) => Effect(primed, voltagePrime.writes, NoZeroCrossing)
      case Synced(startV, polls) =>
        var e := Measure(b.meter, primed.adc, startV, crossings, timeout, replies[polls..], clock[1 + polls..], root);
        PrimingWrites(b.adc);
        Effect(e.board, voltagePrime.writes + e.writes, e.out)
  }

  /** Whatever the outcome, `calcVI` leaves the ADC in differential mode with
      the reference selection and the other setup bits as they were. */
  lemma CalcVIKeepsSetup(b: Board, crossings: UInt16, timeout: UInt16,
                         replies: seq<seq<bv8>>, clock: seq<UInt32>, root: real -> real)
    ensures var adc := CalcVI(b, crossings, timeout, replies, clock, root).board.adc;
      && adc.voltageRef == b.adc.voltageRef
      && IsSetupByte(adc.setupReg) && IsBipolar(adc.setupReg)
      && adc.setupReg & 0x7B == b.adc.setupReg & 0x7B
  {
  }

  /** A measured window of `calcVI` started on an in-band sample, stopped on
      the crossing target or the timeout, and holds the sums, sample count
      and crossing count its scanned buffers determine. */
  lemma CalcVIMeasured(b: Board, crossings: UInt16, timeout: UInt16,
                       replies: seq<seq<bv8>>, clock: seq<UInt32>, root: real -> real)
    requires CalcVI(b, crossings, timeout, replies, clock, root).out.Measured?
    ensures var w := CalcVI(b, crossings, timeout, replies, clock, root).out.window;
      && InBand(w.startV)
      && w.last.crossCount <= crossings
      && (w.exit.ReachedCrossings? <==> w.last.crossCount == crossings)
      && !w.exit.InputExhausted?
      && Tallied(b.meter.cal, w.startV, w.last)
      && var sync := SyncLoop(clock[0], timeout, SyncSamples(FastConfig(b.adc, Differential, CH_0_1).drv, replies), clock[1..], 0);
         && sync.Synced?
         && w.startV == sync.startV
         && Traced(ScanFrames(FastConfig(b.adc, Differential, ALL_CHANNELS).drv, replies[sync.polls..]), w.last)
  {
    var adc := FastConfig(b.adc, Differential, CH_0_1).drv;
    var sync := SyncLoop(clock[0], timeout, SyncSamples(adc, replies), clock[1..], 0);
    MeasuredWindow(b.meter, adc, sync.startV, crossings, timeout, replies[sync.polls..], clock[1 + sync.polls..], root);
  }

  /** `calcVI` returns -1 exactly when the synchronisation loop timed out,
      and 0 only after it found a start sample in time, which then starts
      the measured window. */
  lemma CalcVIOutcome(b: Board, crossings: UInt16, timeout: UInt16,
                      replies: seq<seq<bv8>>, clock: seq<UInt32>, root: real -> real)
    requires |clock| > 0
    ensures var sync := SyncLoop(clock[0], timeout, SyncSamples(FastConfig(b.adc, Differential, CH_0_1).drv, replies), clock[1..], 0);
      var r := CalcVI(b, crossings, timeout, replies, clock, root);
      && (r.out.NoZeroCrossing? <==> sync.SyncTimedOut?)
      && (sync.SyncTimedOut? ==> ReturnCode(r.out) == -1)
      && (r.out.Measured? ==> sync.Synced? && r.out.window.startV == sync.startV && ReturnCode(r.out) == 0)
  {
  }

  /** With a crossing target of 0 the loop body never runs: a measured
      window holds no sample, and the readings are left without a number. */
  lemma ZeroCrossingTargetNoSamples(b: Board, timeout: UInt16, replies: seq<seq<bv8>>, clock: seq<UInt32>,
                                    root: real -> real)
    requires CalcVI(b, 0, timeout, replies, clock, root).out.Measured?
    ensures var r := CalcVI(b, 0, timeout, replies, clock, root);
      && r.out.window.last == START_STATE
      && !r.board.meter.readings.vrms.Finite?
      && forall i :: 0 <= i < 3 ==> r.board.meter.readings.powerFactor[i].NaN?
  {
    var r := CalcVI(b, 0, timeout, replies, clock, root);
    CalcVIMeasured(b, 0, timeout, replies, clock, root);
    assert r.out.window.last.frames == [];
    forall i | 0 <= i < 3
      ensures r.board.meter.readings.powerFactor[i].NaN?
    {
      NoSamplesNoPowerFactor(ZERO_SUMS, root, i);
    }
  }
}
