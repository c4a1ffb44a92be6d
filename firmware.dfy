/**
 * mainCode.c: the STM32 firmware that reads two BMP280 temperature sensors. The
 * integer logic is modelled: the chip-ID gate, the assembly of calibration words and
 * of the 20-bit raw temperature from register bytes, and the 120-step sampling loop.
 * Register reads are parameters: `regs` gives the byte a sensor returns for each
 * register address, and `samples` the three temperature bytes read at each step.
 */
module Firmware {
  /** The BMP280's chip identifier, read from register 0xD0. */
  const ChipId: bv8 := 0x58

  /** Calibration registers: T1, T2 and T3, each a little-endian pair. */
  const DigT1Lsb: bv8 := 0x88
  const DigT1Msb: bv8 := 0x89
  const DigT2Lsb: bv8 := 0x8A
  const DigT2Msb: bv8 := 0x8B
  const DigT3Lsb: bv8 := 0x8C
  const DigT3Msb: bv8 := 0x8D

  /** Readings in one session, one per second, and the spacing of the progress messages. */
  const SessionLength: nat := 120
  const ProgressEvery: nat := 10

  /**
   * `read_raw_temperature`: msb, lsb and the high nibble of xlsb, shifted and or-ed in
   * 32 bits. The fields do not overlap, so the or is a sum, and the result fits in
   * 20 bits.
   */
  function RawTemperature(msb: bv8, lsb: bv8, xlsb: bv8): (adc: int)
    ensures adc == msb as int * 4096 + lsb as int * 16 + xlsb as int / 16
    ensures 0 <= adc < 0x10_0000
  {
    (((msb as bv32) << 12) | ((lsb as bv32) << 4) | (((xlsb >> 4) & 0x0F) as bv32)) as int
  }

  /** The raw value gives back the three register fields it was built from. */
  lemma RawTemperatureFields(msb: bv8, lsb: bv8, xlsb: bv8)
    ensures var adc := RawTemperature(msb, lsb, xlsb);
      adc / 4096 == msb as int && (adc / 16) % 256 == lsb as int && adc % 16 == xlsb as int / 16
  {
    var hi, mid, lo := msb as int, lsb as int, xlsb as int / 16;
    assert RawTemperature(msb, lsb, xlsb) == hi * 4096 + mid * 16 + lo;
    FieldsOfSum(hi, mid, lo);
  }

  /** The integer core of `RawTemperatureFields`: a 20-bit sum of an 8-, an 8- and a 4-bit field splits back into them. */
  lemma FieldsOfSum(hi: int, mid: int, lo: int)
    requires 0 <= hi < 256 && 0 <= mid < 256 && 0 <= lo < 16
    ensures var a := hi * 4096 + mid * 16 + lo;
      a / 4096 == hi && (a / 16) % 256 == mid && a % 16 == lo
  {
    var a := hi * 4096 + mid * 16 + lo;
    assert a / 16 == hi * 256 + mid;
  }

  /** C's `uint16_t`. */
  newtype uint16 = x: int | 0 <= x < 0x1_0000

  /** `lo | (hi << 8)`: a little-endian register pair as an unsigned 16-bit word. */
  function Word(lo: bv8, hi: bv8): (w: uint16)
    ensures w as int == lo as int + 256 * hi as int
  {
    var r := ((lo as bv32) | ((hi as bv32) << 8)) as int;
    assert r == lo as int + 256 * hi as int;
    r as uint16
  }

  /**
   * Storing a 16-bit word into an `int16_t`, as the target's two's-complement
   * conversion does: the one value in [-32768, 32768) congruent to it modulo 65536.
   */
  function AsInt16(w: uint16): (v: int)
    ensures -0x8000 <= v < 0x8000
    ensures v % 0x1_0000 == w as int
    ensures w as int < 0x8000 <==> v >= 0
  {
    var n := w as int;
    if n < 0x8000 then n else n - 0x1_0000
  }

  /**
   * `read_calibration`: T1 is the unsigned word of registers 0x88/0x89; T2 and T3 are
   * the words of 0x8A/0x8B and 0x8C/0x8D stored as signed 16-bit values.
   */
  method ReadCalibration(regs: bv8 -> bv8) returns (t1: uint16, t2: int, t3: int)
    ensures t1 as int == regs(DigT1Lsb) as int + 256 * regs(DigT1Msb) as int
    ensures -0x8000 <= t2 < 0x8000 && t2 % 0x1_0000 == regs(DigT2Lsb) as int + 256 * regs(DigT2Msb) as int
    ensures -0x8000 <= t3 < 0x8000 && t3 % 0x1_0000 == regs(DigT3Lsb) as int + 256 * regs(DigT3Msb) as int
  {
    t1 := Word(regs(DigT1Lsb), regs(DigT1Msb));
    t2 := AsInt16(Word(regs(DigT2Lsb), regs(DigT2Msb)));
    t3 := AsInt16(Word(regs(DigT3Lsb), regs(DigT3Msb)));
  }

  /** The three temperature bytes one step reads from a sensor (registers 0xFA, 0xFB, 0xFC). */
  datatype TempBytes = TempBytes(msb: bv8, lsb: bv8, xlsb: bv8)

  function RawOf(t: TempBytes): int {
    RawTemperature(t.msb, t.lsb, t.xlsb)
  }

  /** The steps, among the first n, that send a progress message: those with `i % 10 == 0`. */
  function ProgressSteps(n: nat): (r: seq<nat>)
    decreases n
  {
    if n == 0 then []
    else ProgressSteps(n - 1) + (if (n - 1) % ProgressEvery == 0 then [n - 1] else [])
  }

  /** The progress steps among the first n are 0, 10, 20, ..., one for every started ten. */
  lemma {:induction false} ProgressStepsAreTens(n: nat)
    ensures |ProgressSteps(n)| == (n + 9) / 10
    ensures forall k :: 0 <= k < |ProgressSteps(n)| ==> ProgressSteps(n)[k] == 10 * k
    decreases n
  {
    if n > 0 {
      ProgressStepsAreTens(n - 1);
    }
  }

  /** A session sends twelve progress messages, at 0, 10, ..., 110 seconds. */
  lemma TwelveProgressMessages()
    ensures |ProgressSteps(SessionLength)| == 12
    ensures ProgressSteps(SessionLength)[11] == 110
  {
    ProgressStepsAreTens(SessionLength);
  }

  /**
   * The sampling loop of `main`: 120 steps, each reading both sensors and counting
   * one reading, a progress message at every tenth step. The raw values are what
   * the (unmodelled) float compensation receives.
   */
  method Session(samples1: nat -> TempBytes, samples2: nat -> TempBytes)
    returns (count: nat, progress: seq<nat>, raws: seq<(int, int)>)
    ensures count == SessionLength
    ensures progress == ProgressSteps(SessionLength)
    ensures |raws| == SessionLength
    ensures forall i :: 0 <= i < SessionLength ==> raws[i] == (RawOf(samples1(i)), RawOf(samples2(i)))
  {
    count := 0;
    progress := [];
    raws := [];
    for i := 0 to SessionLength
      invariant count == i
      invariant progress == ProgressSteps(i)
      invariant |raws| == i
      invariant forall k :: 0 <= k < i ==> raws[k] == (RawOf(samples1(k)), RawOf(samples2(k)))
    {
      var raw1 := RawOf(samples1(i));
      var raw2 := RawOf(samples2(i));
      raws := raws + [(raw1, raw2)];
      count := count + 1;
      if i % ProgressEvery == 0 {
        progress := progress + [i];
      }
    }
  }

  /** The calibration triple (T1, T2, T3) that `read_calibration` leaves for a sensor with registers `regs`. */
  predicate Calibrated(cal: (uint16, int, int), regs: bv8 -> bv8) {
    && cal.0 as int == regs(DigT1Lsb) as int + 256 * regs(DigT1Msb) as int
    && -0x8000 <= cal.1 < 0x8000 && cal.1 % 0x1_0000 == regs(DigT2Lsb) as int + 256 * regs(DigT2Msb) as int
    && -0x8000 <= cal.2 < 0x8000 && cal.2 % 0x1_0000 == regs(DigT3Lsb) as int + 256 * regs(DigT3Msb) as int
  }

  /** How the firmware ends up: stopped at the chip-ID check, or after a full session. */
  datatype Outcome =
    | Halted
    | Sampled(cal1: (uint16, int, int), cal2: (uint16, int, int), count: nat, progress: seq<nat>, raws: seq<(int, int)>)

  /**
   * `main`: both chip IDs must be 0x58, or the firmware stops for good before
   * touching the sensors again; otherwise it reads both calibrations and runs one
   * session.
   */
  method Boot(id1: bv8, id2: bv8, regs1: bv8 -> bv8, regs2: bv8 -> bv8,
              samples1: nat -> TempBytes, samples2: nat -> TempBytes)
    returns (o: Outcome)
    ensures o.Halted? <==> id1 != ChipId || id2 != ChipId
    ensures o.Sampled? ==>
      && o.count == SessionLength
      && o.progress == ProgressSteps(SessionLength)
      && |o.raws| == SessionLength
      && (forall i :: 0 <= i < SessionLength ==> o.raws[i] == (RawOf(samples1(i)), RawOf(samples2(i))))
      && Calibrated(o.cal1, regs1)
      && Calibrated(o.cal2, regs2)
  {
    if id1 != ChipId || id2 != ChipId {
      return Halted;
    }
    var a1, a2, a3 := ReadCalibration(regs1);
    var b1, b2, b3 := ReadCalibration(regs2);
    var count, progress, raws := Session(samples1, samples2);
    return Sampled((a1, a2, a3), (b1, b2, b3), count, progress, raws);
  }
}
