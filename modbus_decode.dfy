/**
 * The pure part of the Modbus channel engine: data kinds and how many
 * registers each occupies, the word transforms applied to a successful read
 * (sign extension, big-word-first concatenation, binary16 to binary32
 * re-biasing), the text a decoded value is shown as, and the result-code
 * messages.
 */
module ModbusDecode {
  import opened Wrappers
  import opened CInt
  import opened Decimal

  /** Data kinds a channel can declare (MOD_HALFWORD ... MOD_HALFWORD_SIGNED_SCALED). */
  datatype DataKind =
    | HalfWord | FullWord | Float16 | Float32 | Str
    | ScaledI | ScaledV | ScaledP | Scaled
    | LongRead | HalfWordSigned | HalfWordSignedScaled

  /** Register kinds (MOD_INPUT_REG, MOD_HOLDING_REG, MOD_NOTHING for long reads). */
  datatype RegType = InputReg | HoldingReg | NoRegister

  /** Registers fetched by one long read, which is also the size of the response buffer. */
  const LongReadCount := 64

  // Result codes: the Modbus exception codes of section 7 of the Modbus
  // Application Protocol Specification V1.1b3, the transport library's own
  // codes, and the two codes the channel engine assigns itself.
  const Success: bv8 := 0x00
  const IllegalFunction: bv8 := 0x01
  const IllegalDataAddress: bv8 := 0x02
  const IllegalDataValue: bv8 := 0x03
  const SlaveDeviceFailure: bv8 := 0x04
  const InvalidSlaveId: bv8 := 0xE0
  const InvalidFunction: bv8 := 0xE1
  const ResponseTimedOut: bv8 := 0xE2
  const InvalidCrc: bv8 := 0xE3
  const CacheUnavailable: bv8 := 99
  const Uninitialized: bv8 := 255

  /** The text shown for a channel whose last read failed. */
  const NaNText := "\"NaN\""

  /**
   * setNumRegs(): how many registers a channel of kind `kind` reads.
   * A string of `strLength` characters packs two characters per register.
   */
  function RegCount(kind: DataKind, strLength: int): (n: int)
    ensures kind != Str ==> n == 1 || n == 2 || n == LongReadCount
    ensures kind != Str ==> (n == 2 <==> kind == FullWord || kind == Float32)
    ensures kind != Str ==> (n == LongReadCount <==> kind == LongRead)
    ensures kind == Str && strLength >= 0 ==> 0 <= 2 * n <= strLength <= 2 * n + 1
  {
    match kind
    case HalfWord | HalfWordSigned | HalfWordSignedScaled | Float16
      | ScaledV | ScaledI | ScaledP | Scaled => 1
    case FullWord | Float32 => 2
    case Str => TruncDiv(strLength, 2)
    case LongRead => LongReadCount
  }

  /** Every failure message starts with this. */
  const ErrorPrefix := "ERROR: "

  /** getErrorStrg(): the message for a result code; None where the switch has no case. */
  function ErrorString(code: bv8): (r: Option<string>)
    ensures r.Some? <==> code in {Success, IllegalFunction, IllegalDataAddress, IllegalDataValue,
                                  SlaveDeviceFailure, InvalidSlaveId, InvalidFunction,
                                  ResponseTimedOut, InvalidCrc, Uninitialized, CacheUnavailable}
    ensures r == Some("success") <==> code == Success
    ensures r.Some? && code != Success ==>
              |r.value| > |ErrorPrefix| && r.value[..|ErrorPrefix|] == ErrorPrefix
  {
    if code == Success then Some("success")
    else if code == IllegalFunction then Some(ErrorPrefix + "Illegal Function")
    else if code == IllegalDataAddress then Some(ErrorPrefix + "Illegal Data Address")
    else if code == IllegalDataValue then Some(ErrorPrefix + "Illegal Data Value")
    else if code == SlaveDeviceFailure then Some(ErrorPrefix + "Device Failure")
    else if code == InvalidSlaveId then Some(ErrorPrefix + "Invalid Slave ID")
    else if code == InvalidFunction then Some(ErrorPrefix + "Invalid Function")
    else if code == ResponseTimedOut then Some(ErrorPrefix + "Response Timeout")
    else if code == InvalidCrc then Some(ErrorPrefix + "CRC Error")
    else if code == Uninitialized then Some(ErrorPrefix + "Uninitialized")
    else if code == CacheUnavailable then Some(ErrorPrefix + "on cache access previous long read")
    else None
  }

  /** Distinct result codes are reported with distinct messages. */
  lemma ErrorStringInjective(c1: bv8, c2: bv8)
    requires ErrorString(c1).Some? && ErrorString(c1) == ErrorString(c2)
    ensures c1 == c2
  {}

  // ---------------------------------------------------------------------
  // Word transforms

  lemma Widen(w: bv16)
    ensures (w as bv32) as int == w as int && w as bv32 < 0x1_0000
  {}

  lemma Bit15(w: bv16)
    ensures ((w as bv32) & 0x8000 != 0) == (w as int >= 0x8000)
  {
    assert ((w as bv32) & 0x8000 != 0) == (w >= 0x8000);
    HighHalfValue(w);
  }

  lemma HighHalfValue(w: bv16)
    ensures (w >= 0x8000) == (w as int >= 0x8000)
  {
    var h := w >> 8;
    var l := w & 0xFF;
    assert w == h * 256 + l && h < 256 && l < 256;
    assert (w >= 0x8000) == (h >= 0x80);
    ByteSum(h, l);
    SmallCompare(h);
  }

  lemma ByteSum(h: bv16, l: bv16)
    requires h < 256 && l < 256
    ensures (h * 256 + l) as int == 256 * h as int + l as int
  {}

  lemma SmallCompare(h: bv16)
    requires h < 256
    ensures (h >= 0x80) == (h as int >= 0x80) && h as int < 256
  {}

  lemma OrHighHalf(v: bv32)
    requires v < 0x1_0000
    ensures (v | 0xFFFF_0000) as int == v as int + 0xFFFF_0000
  {
    assert v | 0xFFFF_0000 == v + 0xFFFF_0000;
  }

  /**
   * MOD_HALFWORD_SIGNED: fill bits 16-31 with ones when bit 15 is set, so
   * the 32-bit integer has the value of the register read as int16_t.
   */
  function SignExtend16(w: bv16): (r: bv32)
    ensures ToInt32(r) == ToInt16(w)
  {
    var v := w as bv32;
    Widen(w);
    Bit15(w);
    if v & 0x8000 != 0 then OrHighHalf(v); v | 0xFFFF_0000 else v
  }

  /** MOD_FULLWORD / MOD_FLOAT32: the first register is the high half. */
  function Concat32(hi: bv16, lo: bv16): bv32 {
    ((hi as bv32) << 16) + lo as bv32
  }

  /** The high half of Concat32 is its first word and the low half its second. */
  lemma ConcatHalves(hi: bv16, lo: bv16)
    ensures Concat32(hi, lo) >> 16 == hi as bv32 && Concat32(hi, lo) & 0xFFFF == lo as bv32
  {
    ShiftAddHalves(hi as bv32, lo as bv32);
  }

  lemma ShiftAddHalves(h: bv32, l: bv32)
    requires h < 0x1_0000 && l < 0x1_0000
    ensures ((h << 16) + l) >> 16 == h && ((h << 16) + l) & 0xFFFF == l
  {}

  // Fields of IEEE 754 binary16 and binary32 patterns (section 3.4 of IEEE 754-2008).
  function Sign16(h: bv16): int { (h >> 15) as int }
  function Exponent16(h: bv16): int { ((h >> 10) & 0x1F) as int }
  function Fraction16(h: bv16): int { (h & 0x3FF) as int }
  function Sign32(r: bv32): int { (r >> 31) as int }
  function Exponent32(r: bv32): int { ((r >> 23) & 0xFF) as int }
  function Fraction32(r: bv32): int { (r & 0x7F_FFFF) as int }

  /**
   * MOD_FLOAT16: move the sign from bit 15 to bit 31, add 112 to the
   * exponent field and shift exponent and fraction left by 13. No case is
   * made for zero, subnormals, infinities or NaN.
   */
  function Float16ToFloat32(h: bv16): (r: bv32)
    ensures Sign32(r) == Sign16(h)
    ensures Exponent32(r) == Exponent16(h) + 112
    ensures Fraction32(r) == Fraction16(h) * 0x2000
  {
    var v := h as bv32;
    ((v & 0x8000) << 16) | (((v & 0x7FFF) + 0x1_C000) << 13)
  }

  /** 2 raised to the integer power `e`. */
  function Pow2(e: int): real
    decreases if e < 0 then -e else e
  {
    if e == 0 then 1.0 else if e > 0 then 2.0 * Pow2(e - 1) else Pow2(e + 1) / 2.0
  }

  /** (-1)^sign * 2^exponent * (1 + fraction): a normal floating-point number. */
  function NormalValue(sign: int, exponent: int, fraction: real): real
  {
    (if sign == 1 then -1.0 else 1.0) * Pow2(exponent) * (1.0 + fraction)
  }

  /** The number a normal binary16 pattern denotes (exponent bias 15, 10 fraction bits). */
  function Binary16Value(h: bv16): real
    requires 1 <= Exponent16(h) <= 30
  {
    NormalValue(Sign16(h), Exponent16(h) - 15, Fraction16(h) as real / 1024.0)
  }

  /** The number a normal binary32 pattern denotes (exponent bias 127, 23 fraction bits). */
  function Binary32Value(r: bv32): real
    requires 1 <= Exponent32(r) <= 254
  {
    NormalValue(Sign32(r), Exponent32(r) - 127, Fraction32(r) as real / 8388608.0)
  }

  /** For every normal binary16 input, the re-biased pattern denotes the same number. */
  lemma Float16ValuePreserved(h: bv16)
    requires 1 <= Exponent16(h) <= 30
    ensures 1 <= Exponent32(Float16ToFloat32(h)) <= 254
    ensures Binary32Value(Float16ToFloat32(h)) == Binary16Value(h)
  {
    var r := Float16ToFloat32(h);
    var fraction := Fraction16(h);
    assert Fraction32(r) == fraction * 0x2000;
    assert Fraction32(r) as real / 8388608.0 == fraction as real / 1024.0;
  }

  /** Values the firmware's comments and documentation quote. */
  lemma DecodeFixtures()
    ensures Float16ToFloat32(0x3C00) == 0x3F80_0000   // 1.0
    ensures Float16ToFloat32(0xC000) == 0xC000_0000   // -2.0
    ensures Float16ToFloat32(0x0000) == 0x3800_0000   // binary16 zero becomes 2^-15
    ensures ToInt32(SignExtend16(0x8000)) == -32768
    ensures ToInt32(SignExtend16(0x7FFF)) == 32767
  {}

  // ---------------------------------------------------------------------
  // Decoded values and their text

  /** Which scale factor a scaled kind multiplies by (the factors are floats, not modelled). */
  datatype Factor = ChannelScale | DeviceScaleV | DeviceScaleI | DeviceScaleVI

  /**
   * What the channel's value union holds after a read: a 32-bit pattern
   * (val_int, or the bits of val_float for the float kinds), or the float
   * `multiplicand * factor / divisor` written by a scaled kind.
   */
  datatype RegValue =
    | Bits(bits: bv32)
    | ScaledFloat(multiplicand: int, factor: Factor, divisor: int)

  /** The channel's text buffer: decimal text, or "%8.3f" of the float a value denotes. */
  datatype Display = Text(text: string) | Fixed3(of: RegValue)

  /** Kinds shown with "%d". */
  predicate IntegerKind(kind: DataKind) {
    kind == HalfWord || kind == HalfWordSigned || kind == FullWord
  }

  /** Kinds shown with "%8.3f". */
  predicate FloatKind(kind: DataKind) {
    kind == Float16 || kind == Float32 || kind == ScaledV || kind == ScaledI
    || kind == ScaledP || kind == Scaled || kind == HalfWordSignedScaled
  }

  /**
   * The value a successful read stores, from the word at the channel's
   * buffer offset (`w0`) and the one after it (`w1`).
   */
  function Decode(kind: DataKind, w0: bv16, w1: bv16): (r: RegValue)
    ensures r.Bits? <==> !FloatKind(kind) || kind == Float16 || kind == Float32
  {
    Widen(w0);
    match kind
    case HalfWord | Str | LongRead => Bits(w0 as bv32)
    case HalfWordSigned => Bits(SignExtend16(w0))
    case HalfWordSignedScaled => ScaledFloat(ToInt32(SignExtend16(w0)), ChannelScale, 1)
    case FullWord | Float32 => Bits(Concat32(w0, w1))
    case Float16 => Bits(Float16ToFloat32(w0))
    case ScaledV => ScaledFloat(ToInt32(SignExtend16(w0)), DeviceScaleV, 32768)
    case ScaledI => ScaledFloat(ToInt32(SignExtend16(w0)), DeviceScaleI, 32768)
    case ScaledP => ScaledFloat(w0 as int, DeviceScaleVI, 131072)
    case Scaled => ScaledFloat(w0 as int, ChannelScale, 1)
  }

  /** MOD_HALFWORD (and the unused value of strings and long reads): the word, unsigned. */
  lemma DecodeUnsigned(kind: DataKind, w0: bv16, w1: bv16)
    requires kind == HalfWord || kind == Str || kind == LongRead
    ensures Decode(kind, w0, w1).Bits?
    ensures Decode(kind, w0, w1).bits as int == w0 as int
    ensures ToInt32(Decode(kind, w0, w1).bits) == w0 as int
  {
    Widen(w0);
  }

  /** MOD_HALFWORD_SIGNED: the word read as a 16-bit two's complement integer. */
  lemma DecodeSigned(w0: bv16, w1: bv16)
    ensures Decode(HalfWordSigned, w0, w1).Bits?
    ensures ToInt32(Decode(HalfWordSigned, w0, w1).bits) == ToInt16(w0)
  {}

  /** MOD_FULLWORD and MOD_FLOAT32: first word in the high half, second in the low half. */
  lemma DecodeFullWord(kind: DataKind, w0: bv16, w1: bv16)
    requires kind == FullWord || kind == Float32
    ensures Decode(kind, w0, w1).Bits?
    ensures Decode(kind, w0, w1).bits >> 16 == w0 as bv32
    ensures Decode(kind, w0, w1).bits & 0xFFFF == w1 as bv32
  {
    ConcatHalves(w0, w1);
    assert Decode(kind, w0, w1) == Bits(Concat32(w0, w1));
  }

  /** MOD_FLOAT16: sign kept, exponent re-biased by 112, fraction moved up 13 bits. */
  lemma DecodeFloat16(w0: bv16, w1: bv16)
    ensures Decode(Float16, w0, w1).Bits?
    ensures Sign32(Decode(Float16, w0, w1).bits) == Sign16(w0)
    ensures Exponent32(Decode(Float16, w0, w1).bits) == Exponent16(w0) + 112
    ensures Fraction32(Decode(Float16, w0, w1).bits) == Fraction16(w0) * 0x2000
  {}

  /**
   * The scaled kinds: which integer is multiplied, by which factor, over
   * which divisor. MOD_SCALED_P and MOD_SCALED multiply the unsigned word.
   */
  lemma DecodeScaled(w0: bv16, w1: bv16)
    ensures Decode(ScaledV, w0, w1) == ScaledFloat(ToInt16(w0), DeviceScaleV, 32768)
    ensures Decode(ScaledI, w0, w1) == ScaledFloat(ToInt16(w0), DeviceScaleI, 32768)
    ensures Decode(HalfWordSignedScaled, w0, w1) == ScaledFloat(ToInt16(w0), ChannelScale, 1)
    ensures Decode(ScaledP, w0, w1) == ScaledFloat(w0 as int, DeviceScaleVI, 131072)
    ensures Decode(Scaled, w0, w1) == ScaledFloat(w0 as int, ChannelScale, 1)
  {}

  /**
   * The text buffer after a successful read: "%d" of val_int for the integer
   * kinds, "%8.3f" of val_float for the float kinds, and unchanged for
   * strings and long reads.
   */
  function Render(kind: DataKind, v: RegValue, prev: Display): (r: Display)
    ensures IntegerKind(kind) && v.Bits? ==> r.Text? && Atoi(r.text) == ToInt32(v.bits)
    ensures FloatKind(kind) ==> r == Fixed3(v)
    ensures kind == Str || kind == LongRead ==> r == prev
  {
    if IntegerKind(kind) && v.Bits? then
      AtoiFormatInt(ToInt32(v.bits));
      Text(FormatInt(ToInt32(v.bits)))
    else if FloatKind(kind) then Fixed3(v)
    else prev
  }
}
