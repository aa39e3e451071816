/** Model of the MAX11609 driver: the two wire bytes it writes (the setup byte
    and the configuration byte), how it decodes the chip's two-byte replies,
    how it scales them to millivolts, and the fast path that reads without
    rewriting either register.

    The driver is a value `Driver(setupReg, voltageRef)` instead of the global
    `MAX` object. The I2C bus is not modelled as hardware: an operation returns
    the bytes it would write (each byte is one transmission) and receives the
    bytes the device answered with as a parameter; `Wire.available()` is the
    length of that reply. */
module Max11609 {

  /** The C `int16_t` in which the driver returns every reading. */
  type Int16 = x: int | -0x8000 <= x < 0x8000

  // Setup register bit positions; the reference selection occupies bits 6-4.
  const REG_MODE_BIT: nat := 7
  const SEL_0_BIT: nat := 4
  const CLK_INPUT_BIT: nat := 3
  const UNI_BIP_BIT: nat := 2
  const RESET_CONFIG_BIT: nat := 1

  // Configuration register bit positions; the scan field occupies bits 6-5
  // and the channel field bits 4-1.
  const SCAN_0_BIT: nat := 5
  const CHANNEL_0_BIT: nat := 1
  const MEASURE_MODE_BIT: nat := 0

  // Channel codes 0-7 select one input (single-ended) or one input pair
  // (differential); ALL_CHANNELS is the driver's own marker for a scan.
  const CH_0_1: bv8 := 0
  const CH_7: bv8 := 7
  const ALL_CHANNELS: bv8 := 8

  // Values of the two-bit scan field used by the driver.
  const CH_0_TO_SELECTED: bv8 := 0
  const ONLY_SELECTED: bv8 := 3

  // Values of the three-bit reference-select field.
  const REF_VDD: bv8 := 0x00
  const REF_EXTERNAL: bv8 := 0x02
  const REF_INTERNAL: bv8 := 0x07

  /** Reference voltage in millivolts before `begin` stores another one. */
  const DEFAULT_VOLTAGE_REF: Int16 := 2048

  /** What a single read returns when the reply does not have two bytes. */
  const ERROR_VALUE: Int16 := 32767

  /** The driver's `bool mode`: DIFFERENTIAL_MODE is 0, SINGLE_ENDED_MODE is 1. */
  datatype Mode = Differential | SingleEnded

  /** The mode as the value of the configuration byte's bit 0. */
  function ModeBit(m: Mode): (b: bv8)
    ensures b == (1 as bv8) << MEASURE_MODE_BIT <==> m.SingleEnded?
    ensures b & 0xFE == 0
  {
    if m.SingleEnded? then 1 else 0
  }

  function Bit(n: nat): bv8
    requires n < 8
  {
    (1 as bv8) << n
  }

  predicate IsSet(b: bv8, n: nat)
    requires n < 8
  {
    b & Bit(n) != 0
  }

  // ---------------------------------------------------------------------
  // Field views of the two registers, following the bit positions above.
  // ---------------------------------------------------------------------

  /** Bit 7 set selects the setup register; clear selects the configuration register. */
  predicate IsSetupByte(b: bv8)
  {
    IsSet(b, REG_MODE_BIT)
  }

  function ReferenceSelect(setup: bv8): bv8
  {
    (setup >> SEL_0_BIT) & 0x07
  }

  predicate IsBipolar(setup: bv8)
  {
    IsSet(setup, UNI_BIP_BIT)
  }

  function ScanField(config: bv8): bv8
  {
    (config >> SCAN_0_BIT) & 0x03
  }

  function ChannelField(config: bv8): bv8
  {
    (config >> CHANNEL_0_BIT) & 0x0F
  }

  function ModeField(config: bv8): Mode
  {
    if config & 0x01 == 0 then Differential else SingleEnded
  }

  // ---------------------------------------------------------------------
  // Driver state and the result of one operation.
  // ---------------------------------------------------------------------

  datatype Driver = Driver(setupReg: bv8, voltageRef: Int16)

  /** The driver after an operation, the bytes it wrote in order, and what it returned. */
  datatype Step<T> = Step(drv: Driver, writes: seq<bv8>, out: T)

  /** `setupADC`: forces bit 7, caches the byte and writes it. */
  function SetupAdc(d: Driver, data: bv8): (r: Step<()>)
    ensures r.writes == [r.drv.setupReg]
    ensures IsSetupByte(r.drv.setupReg)
    ensures r.drv.setupReg & 0x7F == data & 0x7F
    ensures r.drv.voltageRef == d.voltageRef
  {
    var b := data | 0x80;
    Step(d.(setupReg := b), [b], ())
  }

  /** `configuration`: clears bit 7 and writes the byte; nothing is cached. */
  function Configuration(data: bv8): (w: seq<bv8>)
    ensures |w| == 1
    ensures !IsSetupByte(w[0])
    ensures w[0] & 0x7F == data & 0x7F
  {
    [data & !(0x80 as bv8)]
  }

  /** `begin(vRef, voltage)`: reference selection from the low bits of `vRef`,
      internal clock, unipolar, reset; then the reference voltage is stored. */
  function Begin(d: Driver, vRef: bv8, voltage: Int16): (r: Step<()>)
    ensures r.drv.voltageRef == voltage
    ensures r.writes == [r.drv.setupReg]
    ensures IsSetupByte(r.drv.setupReg)
    ensures ReferenceSelect(r.drv.setupReg) == vRef & 0x07
    ensures !IsSet(r.drv.setupReg, CLK_INPUT_BIT)
    ensures !IsBipolar(r.drv.setupReg)
    ensures !IsSet(r.drv.setupReg, RESET_CONFIG_BIT)
    ensures r.drv.setupReg & 0x01 == 0
  {
    var s := SetupAdc(d, (vRef << SEL_0_BIT) & 0xF0);
    s.(drv := s.drv.(voltageRef := voltage))
  }

  /** `begin(vRef)`: the same setup byte, with the default reference voltage. */
  function BeginDefault(d: Driver, vRef: bv8): (r: Step<()>)
    ensures r.drv.voltageRef == DEFAULT_VOLTAGE_REF
    ensures r.writes == [r.drv.setupReg]
    ensures forall v: Int16 :: r.drv.setupReg == Begin(d, vRef, v).drv.setupReg
  {
    Begin(d, vRef, DEFAULT_VOLTAGE_REF)
  }

  /** `begin()` with the header's default selector: the VDD reference and 2048 mV. */
  lemma DefaultBegin(d: Driver)
    ensures BeginDefault(d, REF_VDD).drv == Driver(0x80, 2048)
    ensures BeginDefault(d, REF_VDD).writes == [0x80]
  {
    ReferenceSetupBytes(d, 2048);
  }

  /** The setup bytes `begin` produces for the three named references. */
  lemma ReferenceSetupBytes(d: Driver, voltage: Int16)
    ensures Begin(d, REF_VDD, voltage).drv.setupReg == 0x80
    ensures Begin(d, REF_EXTERNAL, voltage).drv.setupReg == 0xA0
    ensures Begin(d, REF_INTERNAL, voltage).drv.setupReg == 0xF0
  {
  }

  /** The unipolar/bipolar choice made before each non-fast transaction:
      single-ended clears bit 2 (mask 0xFB), differential sets it (mask 0x04). */
  function SelectPolarity(setup: bv8, m: Mode): (r: bv8)
    ensures IsBipolar(r) <==> m.Differential?
    ensures forall n: nat :: n < 8 && n != UNI_BIP_BIT ==> (IsSet(r, n) <==> IsSet(setup, n))
  {
    if m.SingleEnded? then setup & 0xFB else setup | 0x04
  }

  /** Configuration byte converting only the selected channel. */
  function SingleChannelConfig(m: Mode, channel: bv8): (c: bv8)
    ensures ScanField(c) == ONLY_SELECTED
    ensures ModeField(c) == m
    ensures channel < 16 ==> ChannelField(c) == channel
  {
    (ONLY_SELECTED << SCAN_0_BIT) | (channel << CHANNEL_0_BIT) | ModeBit(m)
  }

  /** Configuration byte scanning from channel 0 up to channel 7. */
  function ScanConfig(m: Mode): (c: bv8)
    ensures ScanField(c) == CH_0_TO_SELECTED
    ensures ChannelField(c) == CH_7
    ensures ModeField(c) == m
    ensures !IsSetupByte(c)
  {
    (CH_0_TO_SELECTED << SCAN_0_BIT) | (CH_7 << CHANNEL_0_BIT) | ModeBit(m)
  }

  /** The configuration byte `fastConfig` writes: the scan of channels 0-7
      for ALL_CHANNELS, the single channel otherwise. */
  function ChannelConfig(m: Mode, channel: bv8): (c: bv8)
    ensures channel == ALL_CHANNELS ==> c == 0x0E | ModeBit(m)
    ensures channel < 8 ==> c == 0x60 | (channel << 1) | ModeBit(m)
  {
    if channel == ALL_CHANNELS then ScanConfig(m) else SingleChannelConfig(m, channel)
  }

  /** The prologue shared by `read`, `scan` and `fastConfig`: select the
      polarity for `m` in the cached setup byte, write it, then write `config`. */
  function Configure(d: Driver, m: Mode, config: bv8): (r: Step<()>)
    ensures r.drv.voltageRef == d.voltageRef
    ensures IsSetupByte(r.drv.setupReg)
    ensures IsBipolar(r.drv.setupReg) <==> m.Differential?
    ensures r.drv.setupReg & 0x7B == d.setupReg & 0x7B
    ensures |r.writes| == 2 && r.writes[0] == r.drv.setupReg
    ensures r.writes[1] == config & 0x7F
  {
    var s := SetupAdc(d, SelectPolarity(d.setupReg, m));
    Step(s.drv, s.writes + Configuration(config), ())
  }

  // ---------------------------------------------------------------------
  // Decoding and scaling of replies.
  // ---------------------------------------------------------------------

  /** The 10-bit conversion code in a reply: the low two bits of the first
      (most significant) byte, then the second byte. */
  function Code10(msb: bv8, lsb: bv8): (c: int)
    ensures 0 <= c < 1024
  {
    (msb & 0x03) as int * 256 + lsb as int
  }

  /** Values a conversion can have: signed in differential mode (bipolar),
      unsigned in single-ended mode (unipolar). */
  predicate InRange(m: Mode, v: int)
  {
    if m.Differential? then -512 <= v < 512 else 0 <= v < 1024
  }

  function Word(msb: bv8, lsb: bv8): bv16
  {
    (((msb & 0x03) as bv16) << 8) | (lsb as bv16)
  }

  /** Two's-complement reading of a 16-bit pattern, as an `int16_t` holds it. */
  function AsInt16(w: bv16): Int16
  {
    var x := w as int;
    if x < 0x8000 then x else x - 0x10000
  }

  /** The word's value is the 10-bit code, and its bit 9 is the sign bit of
      that code read as two's complement. */
  lemma WordValue(msb: bv8, lsb: bv8)
    ensures Word(msb, lsb) as int == Code10(msb, lsb)
    ensures Word(msb, lsb) & 0x0200 != 0 <==> Code10(msb, lsb) >= 512
  {
    var hi := msb & 0x03;
    if hi == 0 {
    } else if hi == 1 {
    } else if hi == 2 {
    } else {
    }
  }

  /** OR-ing 0xFC00 into a 10-bit word adds it: the bits do not overlap. */
  lemma ExtendValue(w: bv16)
    requires w < 0x0400
    ensures (w | 0xFC00) as int == w as int + 0xFC00
  {
    assert w | 0xFC00 == w + 0xFC00;
  }

  /** The driver's decoding: assemble the word, and in differential mode
      sign-extend from bit 9 by OR-ing 0xFC00. */
  function Decode(m: Mode, msb: bv8, lsb: bv8): (v: Int16)
    ensures InRange(m, v)
    ensures m.SingleEnded? ==> v == Code10(msb, lsb)
    ensures m.Differential? && Code10(msb, lsb) < 512 ==> v == Code10(msb, lsb)
    ensures m.Differential? && Code10(msb, lsb) >= 512 ==> v == Code10(msb, lsb) - 1024
  {
    var w := Word(msb, lsb);
    WordValue(msb, lsb);
    var extended := if m.Differential? && w & 0x0200 != 0 then ExtendValue(w); w | 0xFC00 else w;
    AsInt16(extended)
  }

  /** The 10-bit two's-complement pattern of a conversion result. */
  function TwosComplement10(v: int): int
  {
    if v < 0 then v + 1024 else v
  }

  /** The two bytes the chip sends for a 10-bit pattern, most significant
      byte first, with the six unused high bits of that byte set. */
  function CodeBytes(c: int): (reply: seq<bv8>)
    requires 0 <= c < 1024
    ensures |reply| == 2
  {
    [0xFC | (c / 256) as bv8, (c % 256) as bv8]
  }

  /** What the chip sends for the conversion result `v`. */
  function ChipReply(m: Mode, v: int): (reply: seq<bv8>)
    requires InRange(m, v)
    ensures |reply| == 2
  {
    CodeBytes(TwosComplement10(v))
  }

  /** Decoding recovers every value the chip can send. */
  lemma DecodeChipReply(m: Mode, v: int)
    requires InRange(m, v)
    ensures Decode(m, ChipReply(m, v)[0], ChipReply(m, v)[1]) == v
  {
    var u := TwosComplement10(v);
    var hi, lo := u / 256, u % 256;
    assert 0 <= hi < 4 && 0 <= lo < 256 && u == hi * 256 + lo;
    var reply := ChipReply(m, v);
    assert reply == [0xFC | hi as bv8, lo as bv8];
    Code10OfParts(hi, lo);
    DecodeOfCode(m, reply[0], reply[1], v);
  }

  /** Bytes carrying the 10-bit pattern of `v` decode to `v`. */
  lemma DecodeOfCode(m: Mode, msb: bv8, lsb: bv8, v: int)
    requires InRange(m, v)
    requires Code10(msb, lsb) == TwosComplement10(v)
    ensures Decode(m, msb, lsb) == v
  {
  }

  /** Only the low two bits of the first byte matter: re-encoding a decoded
      value gives back the reply with the unused bits set. */
  lemma ChipReplyOfDecode(m: Mode, msb: bv8, lsb: bv8)
    ensures ChipReply(m, Decode(m, msb, lsb)) == [msb | 0xFC, lsb]
  {
    var c := Code10(msb, lsb);
    assert TwosComplement10(Decode(m, msb, lsb)) == c;
    PartsOfCode10(msb, lsb);
  }

  lemma Code10OfParts(hi: int, lo: int)
    requires 0 <= hi < 4 && 0 <= lo < 256
    ensures Code10(0xFC | hi as bv8, lo as bv8) == hi * 256 + lo
  {
    var h := hi as bv8;
    assert (0xFC | h) & 0x03 == h by {
      assert h == 0 || h == 1 || h == 2 || h == 3;
    }
    IntRoundTrip(hi);
    IntRoundTrip(lo);
  }

  lemma PartsOfCode10(msb: bv8, lsb: bv8)
    ensures (Code10(msb, lsb) / 256) as bv8 == msb & 0x03
    ensures (Code10(msb, lsb) % 256) as bv8 == lsb
    ensures 0xFC | (msb & 0x03) == 0xFC | msb
  {
    var hi := msb & 0x03;
    DivMod256(hi as int, lsb as int);
    assert Code10(msb, lsb) / 256 == hi as int && Code10(msb, lsb) % 256 == lsb as int;
    ByteRoundTrip(hi);
    ByteRoundTrip(lsb);
  }

  lemma ByteRoundTrip(b: bv8)
    ensures (b as int) as bv8 == b
  {
  }

  /** Splitting the range keeps the solver's bit-level search small. */
  lemma IntRoundTrip(x: int)
    requires 0 <= x < 256
    ensures (x as bv8) as int == x
  {
    if x < 16 {
    } else if x < 32 {
    } else if x < 64 {
    } else if x < 128 {
    } else {
    }
  }

  lemma DivMod256(hi: int, lo: int)
    requires 0 <= lo < 256
    ensures (hi * 256 + lo) / 256 == hi && (hi * 256 + lo) % 256 == lo
  {
  }

  /** C division of integers, which truncates toward zero. */
  function CDiv(a: int, b: int): (q: int)
    requires b > 0
  {
    if a >= 0 then a / b else -((-a) / b)
  }

  /** Bound on `voltage_ref / divisor` for any 16-bit reference. */
  lemma CDivBound(a: Int16, b: int)
    requires b >= 1023
    ensures -32 <= CDiv(a, b) <= 32
  {
  }

  lemma MulMono(a: int, b: int, c: int)
    requires 0 <= a <= b && c >= 0
    ensures a * c <= b * c
  {
    assert b * c - a * c == (b - a) * c;
  }

  /** `float(voltage_ref / divisor) * code` stored back into an `int16_t`.
      The product always fits in 16 bits, so the float step is exact, and it
      never reaches the error value. */
  function Scale(voltageRef: Int16, divisor: int, code: int): (v: Int16)
    requires divisor >= 1023
    requires -512 <= code < 1024
    ensures -32736 <= v <= 32736
    ensures voltageRef >= 0 ==> v == (voltageRef / divisor) * code
  {
    var k := CDiv(voltageRef, divisor);
    CDivBound(voltageRef, divisor);
    BoundedProduct(k, code);
    k * code
  }

  lemma BoundedProduct(k: int, c: int)
    requires -32 <= k <= 32 && -512 <= c < 1024
    ensures -32736 <= k * c <= 32736
  {
    var ak := if k >= 0 then k else -k;
    var ac := if c >= 0 then c else -c;
    MulMono(ak, 32, ac);
    MulMono(ac, 1023, 32);
    assert ak * ac <= 32736;
    assert k * c == ak * ac || k * c == -(ak * ac);
  }

  /** What a read stores: the decoded code, or millivolts when `toMillivolts`
      (the driver's `raw` flag set to 1). */
  function Reading(voltageRef: Int16, divisor: int, toMillivolts: bool, code: int): (v: Int16)
    requires divisor >= 1023
    requires -512 <= code < 1024
    ensures v != ERROR_VALUE
    ensures !toMillivolts ==> v == code
    ensures toMillivolts ==> v == Scale(voltageRef, divisor, code)
  {
    if toMillivolts then Scale(voltageRef, divisor, code) else code
  }

  /** Result of a single-channel read given the reply: exactly two bytes are
      decoded, any other count gives the error value. */
  function ReplyValue(voltageRef: Int16, divisor: int, m: Mode, toMillivolts: bool, reply: seq<bv8>): (v: Int16)
    requires divisor >= 1023
    ensures v == ERROR_VALUE <==> |reply| != 2
    ensures |reply| == 2 && !toMillivolts ==> v == Decode(m, reply[0], reply[1])
    ensures |reply| == 2 && toMillivolts ==> v == CDiv(voltageRef, divisor) * Decode(m, reply[0], reply[1])
  {
    if |reply| == 2 then Reading(voltageRef, divisor, toMillivolts, Decode(m, reply[0], reply[1]))
    else ERROR_VALUE
  }

  /** Number of reply bytes a scan requests: two per channel, four channel
      pairs in differential mode, eight channels single-ended. */
  function ScanBytes(m: Mode): nat
  {
    if m.Differential? then 8 else 16
  }

  /** Number of buffer entries a complete scan fills. */
  function FrameLength(m: Mode): (n: nat)
    ensures n == ScanBytes(m) / 2
  {
    if m.Differential? then 4 else 8
  }

  /** Decodes consecutive byte pairs, one entry per pair. */
  function DecodeFrame(voltageRef: Int16, divisor: int, m: Mode, toMillivolts: bool, bytes: seq<bv8>): (f: seq<Int16>)
    requires divisor >= 1023
    requires |bytes| % 2 == 0
    ensures |f| == |bytes| / 2
    ensures forall i :: 0 <= i < |f| ==>
      f[i] == Reading(voltageRef, divisor, toMillivolts, Decode(m, bytes[2 * i], bytes[2 * i + 1]))
    decreases |bytes|
  {
    if bytes == [] then []
    else [Reading(voltageRef, divisor, toMillivolts, Decode(m, bytes[0], bytes[1]))]
         + DecodeFrame(voltageRef, divisor, m, toMillivolts, bytes[2..])
  }

  /** The caller's buffer after a scan reply: on a reply of exactly the
      requested length the first FrameLength(m) entries are replaced by the
      decoded channels; otherwise nothing is written. */
  function ScanReply(voltageRef: Int16, m: Mode, toMillivolts: bool, buffer: seq<Int16>, reply: seq<bv8>): (b: seq<Int16>)
    requires |buffer| >= FrameLength(m)
    ensures |b| == |buffer|
    ensures |reply| != ScanBytes(m) ==> b == buffer
    ensures |reply| == ScanBytes(m) ==>
      && (forall i :: 0 <= i < FrameLength(m) ==>
            b[i] == Reading(voltageRef, 1024, toMillivolts, Decode(m, reply[2 * i], reply[2 * i + 1])))
      && b[FrameLength(m)..] == buffer[FrameLength(m)..]
  {
    if |reply| == ScanBytes(m) then
      DecodeFrame(voltageRef, 1024, m, toMillivolts, reply) + buffer[FrameLength(m)..]
    else buffer
  }

  // ---------------------------------------------------------------------
  // The public operations.
  // ---------------------------------------------------------------------

  /** `read(mode, channel, raw)`: reconfigure, convert one channel, decode. */
  function Read(d: Driver, m: Mode, channel: bv8, toMillivolts: bool, reply: seq<bv8>): (r: Step<Int16>)
    ensures r.drv.voltageRef == d.voltageRef
    ensures IsSetupByte(r.drv.setupReg)
    ensures IsBipolar(r.drv.setupReg) <==> m.Differential?
    ensures r.drv.setupReg & 0x7B == d.setupReg & 0x7B
    ensures |r.writes| == 2 && r.writes[0] == r.drv.setupReg && !IsSetupByte(r.writes[1])
    ensures ScanField(r.writes[1]) == ONLY_SELECTED && ModeField(r.writes[1]) == m
    ensures channel < 8 ==> r.writes[1] == 0x60 | (channel << 1) | ModeBit(m)
    ensures r.out == ERROR_VALUE <==> |reply| != 2
    ensures |reply| == 2 && !toMillivolts ==> r.out == Decode(m, reply[0], reply[1])
    ensures |reply| == 2 && toMillivolts ==> r.out == CDiv(d.voltageRef, 1024) * Decode(m, reply[0], reply[1])
  {
    var c := Configure(d, m, SingleChannelConfig(m, channel));
    Step(c.drv, c.writes, ReplyValue(d.voltageRef, 1024, m, toMillivolts, reply))
  }

  /** `scan(mode, buffer, raw)`: reconfigure for a scan of channels 0-7 and
      fill the buffer from the reply. */
  function Scan(d: Driver, m: Mode, buffer: seq<Int16>, toMillivolts: bool, reply: seq<bv8>): (r: Step<seq<Int16>>)
    requires |buffer| >= FrameLength(m)
    ensures r.drv.voltageRef == d.voltageRef
    ensures IsSetupByte(r.drv.setupReg)
    ensures IsBipolar(r.drv.setupReg) <==> m.Differential?
    ensures r.drv.setupReg & 0x7B == d.setupReg & 0x7B
    ensures r.writes == [r.drv.setupReg, 0x0E | ModeBit(m)]
    ensures r.out == ScanReply(d.voltageRef, m, toMillivolts, buffer, reply)
  {
    var c := Configure(d, m, ScanConfig(m));
    Step(c.drv, c.writes, ScanReply(d.voltageRef, m, toMillivolts, buffer, reply))
  }

  /** `fastConfig(mode, channel)`: the same prologue, with the scan byte when
      `channel` is ALL_CHANNELS and the single-channel byte otherwise. */
  function FastConfig(d: Driver, m: Mode, channel: bv8): (r: Step<()>)
    ensures r.drv.voltageRef == d.voltageRef
    ensures IsSetupByte(r.drv.setupReg)
    ensures IsBipolar(r.drv.setupReg) <==> m.Differential?
    ensures r.drv.setupReg & 0x7B == d.setupReg & 0x7B
    ensures |r.writes| == 2 && r.writes[0] == r.drv.setupReg && !IsSetupByte(r.writes[1])
    ensures channel == ALL_CHANNELS ==> r.writes[1] == 0x0E | ModeBit(m)
    ensures channel < 8 ==> r.writes[1] == 0x60 | (channel << 1) | ModeBit(m)
  {
    Configure(d, m, ChannelConfig(m, channel))
  }

  /** `fastRead(mode, raw)`: no write, decode the reply of the channel primed
      by `fastConfig`; the millivolt scale divides by 1023 here. */
  function FastRead(d: Driver, m: Mode, toMillivolts: bool, reply: seq<bv8>): (r: Step<Int16>)
    ensures r.drv == d && r.writes == []
    ensures r.out == ERROR_VALUE <==> |reply| != 2
    ensures |reply| == 2 && !toMillivolts ==> r.out == Decode(m, reply[0], reply[1])
    ensures |reply| == 2 && toMillivolts ==> r.out == CDiv(d.voltageRef, 1023) * Decode(m, reply[0], reply[1])
  {
    Step(d, [], ReplyValue(d.voltageRef, 1023, m, toMillivolts, reply))
  }

  /** `fastScan(mode, buffer, raw)`: no write, fill the buffer from the reply. */
  function FastScan(d: Driver, m: Mode, buffer: seq<Int16>, toMillivolts: bool, reply: seq<bv8>): (r: Step<seq<Int16>>)
    requires |buffer| >= FrameLength(m)
    ensures r.drv == d && r.writes == []
    ensures |r.out| == |buffer|
    ensures |reply| != ScanBytes(m) ==> r.out == buffer
    ensures |reply| == ScanBytes(m) ==>
      forall i :: 0 <= i < FrameLength(m) ==>
        r.out[i] == Reading(d.voltageRef, 1024, toMillivolts, Decode(m, reply[2 * i], reply[2 * i + 1]))
    ensures |reply| == ScanBytes(m) ==> r.out[FrameLength(m)..] == buffer[FrameLength(m)..]
  {
    Step(d, [], ScanReply(d.voltageRef, m, toMillivolts, buffer, reply))
  }

  /** The single read and the fast read scale differently whenever a multiple
      of 1023 lies just below `voltage_ref`: with a 1023 mV reference a code
      of 1 reads 0 mV on one path and 1 mV on the other. With the 3300 mV
      reference the metering code uses, both multiply by 3. */
  lemma ScaleDivisorsDiffer(d: Driver, m: Mode, channel: bv8)
    ensures d.voltageRef == 1023 ==>
      Read(d, m, channel, true, [0x00, 0x01]).out == 0 && FastRead(d, m, true, [0x00, 0x01]).out == 1
    ensures d.voltageRef == 3300 ==> forall reply: seq<bv8> :: |reply| == 2 ==>
      Read(d, m, channel, true, reply).out == FastRead(d, m, true, reply).out == 3 * Decode(m, reply[0], reply[1])
  {
  }
}
