/**
 * The DS18x20 one-wire thermometer: the family-code switch that tells a
 * DS18S20 from a DS18B20 or DS1822, and the decode of the nine-byte
 * scratchpad into a signed reading in sixteenths of a degree Celsius.
 * The bus transactions that fetch the bytes are left out; the scratchpad
 * is a parameter.
 */
module Temperature {
  import opened CInt

  const FamilyDS18S20: bv8 := 0x10
  const FamilyDS18B20: bv8 := 0x28
  const FamilyDS1822: bv8 := 0x22
  const ScratchpadSize := 9
  /** The DS18S20's COUNT_PER_C register value that enables the count-remain refinement. */
  const CountPerC: bv8 := 0x10

  /** The little-endian temperature register, (data[1] << 8) | data[0]. */
  function Assemble(lo: bv8, hi: bv8): bv16 {
    (hi as bv16 << 8) | lo as bv16
  }

  /** The configuration's resolution bits, data[4] & 0x60. */
  function Resolution(config: bv8): bv8 {
    config & 0x60
  }

  /** The weight of the lowest bit that is defined at the configured resolution. */
  function Granule(config: bv8): int {
    var cfg := Resolution(config);
    if cfg == 0x00 then 8 else if cfg == 0x20 then 4 else if cfg == 0x40 then 2 else 1
  }

  /** At 9, 10 or 11 bits of resolution the low 3, 2 or 1 bits are cleared. */
  function ResolutionMask(raw: bv16, config: bv8): bv16 {
    var cfg := Resolution(config);
    if cfg == 0x00 then raw & !7
    else if cfg == 0x20 then raw & !3
    else if cfg == 0x40 then raw & !1
    else raw
  }

  /**
   * The DS18S20 path: the half-degree reading scaled to sixteenths
   * (raw << 3, kept in an int16_t) and, when COUNT_PER_C is 16, refined
   * with COUNT_REMAIN: (raw & 0xFFF0) + 12 - count_remain, evaluated as
   * an int and stored back in an int16_t.
   */
  function ExtendedReading(raw: bv16, countRemain: bv8, countPerC: bv8): (t: int)
    ensures -0x8000 <= t < 0x8000
  {
    var s := raw << 3;
    if countPerC == CountPerC then Wrap16((s & 0xFFF0) as int + 12 - countRemain as int)
    else ToInt16(s)
  }

  /** The int16_t reading of readTemp, in sixteenths of a degree. */
  function RawReading(data: seq<bv8>, typeS: bool): (t: int)
    requires |data| == ScratchpadSize
    ensures -0x8000 <= t < 0x8000
  {
    var raw := Assemble(data[0], data[1]);
    if typeS then ExtendedReading(raw, data[6], data[7])
    else ToInt16(ResolutionMask(raw, data[4]))
  }

  // ---- Rounding down, one literal granule at a time ----

  /** x rounded down to a multiple of g, written with a literal modulus for each granule. */
  function FloorTo(x: int, g: int): int {
    if g == 2 then x - x % 2
    else if g == 4 then x - x % 4
    else if g == 8 then x - x % 8
    else if g == 16 then x - x % 16
    else x
  }

  /**
   * For a granule dividing 16: a multiple of 16 passes through the rounding,
   * and the rounded value is the largest multiple of g not above t.
   */
  lemma FloorLaws(g: int, h: int, n: int, t: int)
    requires g in {1, 2, 4, 8, 16}
    ensures FloorTo(16 * h + n, g) == 16 * h + FloorTo(n, g)
    ensures FloorTo(t, g) == t - t % g
    ensures FloorTo(t, g) % g == 0 && FloorTo(t, g) <= t < FloorTo(t, g) + g
    ensures 0 <= t ==> 0 <= FloorTo(t, g)
  {
    if g == 2 {
      Floor2(h, n, t);
    } else if g == 4 {
      Floor4(h, n, t);
    } else if g == 8 {
      Floor8(h, n, t);
    } else if g == 16 {
      Floor16(h, n, t);
    }
  }

  lemma Floor2(h: int, n: int, t: int)
    ensures FloorTo(16 * h + n, 2) == 16 * h + FloorTo(n, 2)
    ensures FloorTo(t, 2) % 2 == 0 && FloorTo(t, 2) <= t < FloorTo(t, 2) + 2
    ensures 0 <= t ==> 0 <= FloorTo(t, 2)
  {
    Residue2(8 * h, n);
    Residue2(t / 2, t % 2);
  }

  lemma Floor4(h: int, n: int, t: int)
    ensures FloorTo(16 * h + n, 4) == 16 * h + FloorTo(n, 4)
    ensures FloorTo(t, 4) % 4 == 0 && FloorTo(t, 4) <= t < FloorTo(t, 4) + 4
    ensures 0 <= t ==> 0 <= FloorTo(t, 4)
  {
    Residue4(4 * h, n);
    Residue4(t / 4, t % 4);
  }

  lemma Floor8(h: int, n: int, t: int)
    ensures FloorTo(16 * h + n, 8) == 16 * h + FloorTo(n, 8)
    ensures FloorTo(t, 8) % 8 == 0 && FloorTo(t, 8) <= t < FloorTo(t, 8) + 8
    ensures 0 <= t ==> 0 <= FloorTo(t, 8)
  {
    Residue8(2 * h, n);
    Residue8(t / 8, t % 8);
  }

  lemma Floor16(h: int, n: int, t: int)
    ensures FloorTo(16 * h + n, 16) == 16 * h + FloorTo(n, 16)
    ensures FloorTo(t, 16) % 16 == 0 && FloorTo(t, 16) <= t < FloorTo(t, 16) + 16
    ensures 0 <= t ==> 0 <= FloorTo(t, 16)
  {
    Residue16(1 * h, n);
    Residue16(t / 16, t % 16);
  }

  /** The remainder modulo a literal granule ignores multiples of the granule. */
  lemma Residue2(q: int, r: int)
    ensures (2 * q + r) % 2 == r % 2
  {
    var a := r / 2;
    assert r == 2 * a + r % 2;
    assert 2 * q + r == 2 * (q + a) + r % 2;
  }

  lemma Residue4(q: int, r: int)
    ensures (4 * q + r) % 4 == r % 4
  {
    var a := r / 4;
    assert r == 4 * a + r % 4;
    assert 4 * q + r == 4 * (q + a) + r % 4;
  }

  lemma Residue8(q: int, r: int)
    ensures (8 * q + r) % 8 == r % 8
  {
    var a := r / 8;
    assert r == 8 * a + r % 8;
    assert 8 * q + r == 8 * (q + a) + r % 8;
  }

  lemma Residue16(q: int, r: int)
    ensures (16 * q + r) % 16 == r % 16
  {
    var a := r / 16;
    assert r == 16 * a + r % 16;
    assert 16 * q + r == 16 * (q + a) + r % 16;
  }

  /** A multiple of the granule plus a smaller remainder rounds down to the multiple. */
  lemma Exact2(q: int, r: int)
    requires 0 <= r < 2
    ensures FloorTo(2 * q + r, 2) == 2 * q
  {
    Residue2(q, r);
  }

  lemma Exact4(q: int, r: int)
    requires 0 <= r < 4
    ensures FloorTo(4 * q + r, 4) == 4 * q
  {
    Residue4(q, r);
  }

  lemma Exact8(q: int, r: int)
    requires 0 <= r < 8
    ensures FloorTo(8 * q + r, 8) == 8 * q
  {
    Residue8(q, r);
  }

  lemma Exact16(q: int, r: int)
    requires 0 <= r < 16
    ensures FloorTo(16 * q + r, 16) == 16 * q
  {
    Residue16(q, r);
  }

  // ---- From bit patterns to integers, one byte at a time ----

  lemma AssembleValue(lo: bv8, hi: bv8)
    ensures Assemble(lo, hi) as int == 256 * hi as int + lo as int
  {
    var h := hi as bv16;
    var l := lo as bv16;
    assert Assemble(lo, hi) == h * 256 + l;
    assert h as int == hi as int && l as int == lo as int;
    AssembleArith(h, l);
  }

  lemma AssembleArith(h: bv16, l: bv16)
    requires h < 256 && l < 256
    ensures (h * 256 + l) as int == 256 * h as int + l as int
  {}

  /** Every 16-bit pattern is the assembly of its two bytes. */
  lemma Bytes(x: bv16)
    ensures x == Assemble((x & 0xFF) as bv8, (x >> 8) as bv8)
  {}

  lemma Join1(a: bv8, b: bv8)
    requires a < 0x80 && b < 2
    ensures ((a << 1) | b) as int == 2 * a as int + b as int
  {}

  lemma Join2(a: bv8, b: bv8)
    requires a < 0x40 && b < 4
    ensures ((a << 2) | b) as int == 4 * a as int + b as int
  {}

  lemma Join3(a: bv8, b: bv8)
    requires a < 0x20 && b < 8
    ensures ((a << 3) | b) as int == 8 * a as int + b as int
  {}

  lemma Join4(a: bv8, b: bv8)
    requires a < 0x10 && b < 16
    ensures ((a << 4) | b) as int == 16 * a as int + b as int
  {}

  lemma Join5(a: bv8, b: bv8)
    requires a < 0x08 && b < 32
    ensures ((a << 5) | b) as int == 32 * a as int + b as int
  {}

  /** A mask that clears only some of the low four bits of a byte. */
  predicate ByteLowClear(m: bv8) {
    m in {0xF0, 0xF8, 0xFC, 0xFE, 0xFF}
  }

  /** The weight of the lowest bit a ByteLowClear mask keeps. */
  function ByteGranule(m: bv8): (g: int)
    ensures g in {1, 2, 4, 8, 16}
  {
    if m == 0xF0 then 16 else if m == 0xF8 then 8 else if m == 0xFC then 4
    else if m == 0xFE then 2 else 1
  }

  /** The 16-bit mask that keeps the high byte and applies m to the low byte. */
  function Widen(m: bv8): bv16 {
    0xFF00 | m as bv16
  }

  /** A byte split at bit k into its high part and its low k bits, for k = 1, 2, 3, 4. */
  lemma Split1(b: bv8)
    ensures b == ((b >> 1) << 1) | (b & 1) && b & 0xFE == ((b >> 1) << 1) | 0
    ensures b >> 1 < 0x80 && b & 1 < 2
  {}

  lemma Split2(b: bv8)
    ensures b == ((b >> 2) << 2) | (b & 3) && b & 0xFC == ((b >> 2) << 2) | 0
    ensures b >> 2 < 0x40 && b & 3 < 4
  {}

  lemma Split3(b: bv8)
    ensures b == ((b >> 3) << 3) | (b & 7) && b & 0xF8 == ((b >> 3) << 3) | 0
    ensures b >> 3 < 0x20 && b & 7 < 8
  {}

  lemma Split4(b: bv8)
    ensures b == ((b >> 4) << 4) | (b & 15) && b & 0xF0 == ((b >> 4) << 4) | 0
    ensures b >> 4 < 0x10 && b & 15 < 16
  {}

  lemma ByteFloor2(b: bv8)
    ensures (b & 0xFE) as int == FloorTo(b as int, 2)
  {
    Split1(b);
    Join1(b >> 1, b & 1);
    Join1(b >> 1, 0);
    Exact2((b >> 1) as int, (b & 1) as int);
  }

  lemma ByteFloor4(b: bv8)
    ensures (b & 0xFC) as int == FloorTo(b as int, 4)
  {
    Split2(b);
    Join2(b >> 2, b & 3);
    Join2(b >> 2, 0);
    Exact4((b >> 2) as int, (b & 3) as int);
  }

  lemma ByteFloor8(b: bv8)
    ensures (b & 0xF8) as int == FloorTo(b as int, 8)
  {
    Split3(b);
    Join3(b >> 3, b & 7);
    Join3(b >> 3, 0);
    Exact8((b >> 3) as int, (b & 7) as int);
  }

  lemma ByteFloor16(b: bv8)
    ensures (b & 0xF0) as int == FloorTo(b as int, 16)
  {
    Split4(b);
    Join4(b >> 4, b & 15);
    Join4(b >> 4, 0);
    Exact16((b >> 4) as int, (b & 15) as int);
  }

  /** Clearing low bits of a byte rounds it down to a multiple of the granule. */
  lemma ByteFloor(b: bv8, m: bv8)
    requires ByteLowClear(m)
    ensures (b & m) as int == FloorTo(b as int, ByteGranule(m))
  {
    if m == 0xFE {
      ByteFloor2(b);
    } else if m == 0xFC {
      ByteFloor4(b);
    } else if m == 0xF8 {
      ByteFloor8(b);
    } else if m == 0xF0 {
      ByteFloor16(b);
    } else {
      assert b & 0xFF == b;
    }
  }

  lemma MaskAssemble(lo: bv8, hi: bv8, m: bv8)
    ensures Assemble(lo, hi) & Widen(m) == Assemble(lo & m, hi)
  {}

  /** The integer step of MaskValue: the high byte passes through the rounding. */
  lemma MaskCombine(a: int, b: int, h: int, l: int, lm: int, g: int)
    requires g in {1, 2, 4, 8, 16}
    requires a == 256 * h + l && b == 256 * h + lm && lm == FloorTo(l, g)
    ensures b == FloorTo(a, g)
  {
    FloorLaws(g, 16 * h, l, l);
  }

  /** Clearing low bits rounds the unsigned pattern down to a multiple of the granule. */
  lemma MaskValue(x: bv16, m: bv8)
    requires ByteLowClear(m)
    ensures (x & Widen(m)) as int == FloorTo(x as int, ByteGranule(m))
  {
    var lo := (x & 0xFF) as bv8;
    var hi := (x >> 8) as bv8;
    Bytes(x);
    MaskBytesValue(lo, hi, m);
  }

  lemma MaskBytesValue(lo: bv8, hi: bv8, m: bv8)
    requires ByteLowClear(m)
    ensures (Assemble(lo, hi) & Widen(m)) as int == FloorTo(Assemble(lo, hi) as int, ByteGranule(m))
  {
    var lm := lo & m;
    MaskAssemble(lo, hi, m);
    AssembleValue(lo, hi);
    AssembleValue(lm, hi);
    ByteFloor(lo, m);
    MaskCombine(Assemble(lo, hi) as int, Assemble(lm, hi) as int, hi as int, lo as int, lm as int, ByteGranule(m));
  }

  /** The int16_t value of a 16-bit pattern given as an unsigned number. */
  function Signed(u: int): int {
    if u < 0x8000 then u else u - 0x1_0000
  }

  lemma SignedIsToInt16(x: bv16)
    ensures ToInt16(x) == Signed(x as int)
  {
    var n := x as int;
    if n < 0x8000 {
      assert ToInt16(x) == n;
    } else {
      assert ToInt16(x) == n - 0x1_0000;
    }
  }

  /** Rounding the pattern down is rounding the signed value down (toward minus infinity). */
  lemma SignedFloor(u: int, g: int)
    requires 0 <= u < 0x1_0000 && g in {1, 2, 4, 8, 16}
    ensures Signed(FloorTo(u, g)) == FloorTo(Signed(u), g)
  {
    FloorLaws(g, 0, u, u);
    if 0x8000 <= u {
      FloorLaws(g, 0x800, u - 0x8000, u - 0x8000);
      FloorLaws(g, -0x1000, u, u);
    }
  }

  /** Clearing the low bits of an int16_t rounds it down to a multiple of the granule. */
  lemma MaskFloors(x: bv16, m: bv8)
    requires ByteLowClear(m)
    ensures ToInt16(x & Widen(m)) == FloorTo(ToInt16(x), ByteGranule(m))
  {
    MaskValue(x, m);
    SignedIsToInt16(x);
    SignedIsToInt16(x & Widen(m));
    SignedFloor(x as int, ByteGranule(m));
  }

  /** Shifting left by three, byte by byte. */
  lemma ShiftBytes(lo: bv8, hi: bv8)
    ensures Assemble(lo, hi) << 3 == Assemble((lo & 0x1F) << 3, ((hi & 0x1F) << 3) | (lo >> 5))
  {}

  /** A byte's top three bits and low five bits. */
  lemma ByteFive(b: bv8)
    ensures b as int == 32 * (b >> 5) as int + (b & 0x1F) as int
    ensures (b >> 5) as int < 8 && (b & 0x1F) as int < 32
  {
    assert b == ((b >> 5) << 5) | (b & 0x1F) && b >> 5 < 8 && b & 0x1F < 0x20;
    Join5(b >> 5, b & 0x1F);
  }

  lemma LowShift(l: bv8)
    ensures ((l & 0x1F) << 3) as int == 8 * (l & 0x1F) as int
  {
    assert (l & 0x1F) << 3 == ((l & 0x1F) << 3) | 0 && l & 0x1F < 0x20;
    Join3(l & 0x1F, 0);
  }

  lemma HighShift(h: bv8, l: bv8)
    ensures (((h & 0x1F) << 3) | (l >> 5)) as int == 8 * (h & 0x1F) as int + (l >> 5) as int
  {
    assert h & 0x1F < 0x20 && l >> 5 < 8;
    Join3(h & 0x1F, l >> 5);
  }

  lemma ShiftInt(s: int, r: int, h: int, hl: int, l: int, ll: int)
    requires s == 256 * (8 * hl + l) + 8 * ll && r == 256 * (32 * h + hl) + 32 * l + ll
    requires 0 <= s < 0x1_0000
    ensures s == (8 * r) % 0x1_0000
  {
    assert 8 * r == 0x1_0000 * h + s;
  }

  /** raw << 3 in 16 bits is eight times the pattern, modulo 2^16. */
  lemma ShiftValue(x: bv16)
    ensures (x << 3) as int == (8 * x as int) % 0x1_0000
  {
    var lo := (x & 0xFF) as bv8;
    var hi := (x >> 8) as bv8;
    Bytes(x);
    ShiftBytesValue(lo, hi);
  }

  lemma ShiftBytesValue(lo: bv8, hi: bv8)
    ensures (Assemble(lo, hi) << 3) as int == (8 * Assemble(lo, hi) as int) % 0x1_0000
  {
    ShiftPieces(lo, hi);
    ShiftInt((Assemble(lo, hi) << 3) as int, Assemble(lo, hi) as int, (hi >> 5) as int, (hi & 0x1F) as int,
             (lo >> 5) as int, (lo & 0x1F) as int);
  }

  /** Both sides of the shift, written with the five-and-three-bit pieces of each byte. */
  lemma ShiftPieces(lo: bv8, hi: bv8)
    ensures (Assemble(lo, hi) << 3) as int
            == 256 * (8 * (hi & 0x1F) as int + (lo >> 5) as int) + 8 * (lo & 0x1F) as int
    ensures Assemble(lo, hi) as int
            == 256 * (32 * (hi >> 5) as int + (hi & 0x1F) as int) + 32 * (lo >> 5) as int + (lo & 0x1F) as int
  {
    ShiftBytes(lo, hi);
    AssembleValue(lo, hi);
    AssembleValue((lo & 0x1F) << 3, ((hi & 0x1F) << 3) | (lo >> 5));
    ByteFive(lo);
    ByteFive(hi);
    LowShift(lo);
    HighShift(hi, lo);
  }

  /** Two int16_t values congruent modulo 2^16 are equal. */
  lemma Int16Unique(a: int, b: int, k: int)
    requires -0x8000 <= a < 0x8000 && -0x8000 <= b < 0x8000 && a - b == 0x1_0000 * k
    ensures a == b
  {}

  /** Wrap16 depends only on the residue modulo 2^16. */
  lemma WrapCongruent(a: int, b: int, k: int)
    requires a - b == 0x1_0000 * k
    ensures Wrap16(a) == Wrap16(b)
  {
    var wa := Wrap16(a);
    var wb := Wrap16(b);
    var ka := (wa - a) / 0x1_0000;
    var kb := (wb - b) / 0x1_0000;
    assert wa - a == 0x1_0000 * ka;
    assert wb - b == 0x1_0000 * kb;
    Int16Unique(wa, wb, ka - kb + k);
  }

  // ---- What the decode means ----

  /** Wrap16 leaves an int16_t value alone. */
  lemma WrapInRange(a: int)
    requires -0x8000 <= a < 0x8000
    ensures Wrap16(a) == a
  {}

  lemma ShiftScalesInt(x: int, u: int)
    requires 0 <= x < 0x1_0000 && u == (8 * x) % 0x1_0000
    ensures Signed(u) == Wrap16(8 * Signed(x)) && Signed(u) % 8 == 0
  {
    var q := (8 * x) / 0x1_0000;
    assert u == 8 * x - 0x1_0000 * q;
    var k := if x < 0x8000 then 0 else 1;
    var ks := if u < 0x8000 then 0 else 1;
    assert Signed(x) == x - 0x1_0000 * k;
    assert Signed(u) == u - 0x1_0000 * ks;
    assert Signed(u) - 8 * Signed(x) == 0x1_0000 * (8 * k - q - ks);
    WrapCongruent(Signed(u), 8 * Signed(x), 8 * k - q - ks);
    WrapInRange(Signed(u));
    assert Signed(u) == 8 * (x - 0x2000 * q - 0x2000 * ks);
  }

  /** The DS18S20 scaling: eight times the reading, wrapped to int16_t; the low three bits are zero. */
  lemma ShiftScales(raw: bv16)
    ensures ToInt16(raw << 3) == Wrap16(8 * ToInt16(raw))
    ensures ToInt16(raw << 3) % 8 == 0
  {
    ShiftValue(raw);
    SignedIsToInt16(raw);
    SignedIsToInt16(raw << 3);
    ShiftScalesInt(raw as int, (raw << 3) as int);
  }

  lemma HalveEight(t: int)
    ensures 8 * t - (8 * t) % 16 == 16 * (t / 2)
  {
    assert 8 * t == 16 * (t / 2) + 8 * (t % 2);
  }

  lemma ResidueShift(a: int, k: int)
    ensures (a + 0x1_0000 * k) % 16 == a % 16
  {
    assert a + 0x1_0000 * k == a + 16 * (0x1000 * k);
  }

  /** In integers: the pattern of 8x, with its low four bits cleared, is 16 (t / 2) modulo 2^16. */
  lemma CountRemainInt(x: int, u: int, f: int, t: int) returns (k: int)
    requires 0 <= x < 0x1_0000 && u == (8 * x) % 0x1_0000 && f == FloorTo(u, 16) && t == Signed(x)
    ensures f == 16 * (t / 2) + 0x1_0000 * k
  {
    Floor16(0, 0, u);
    var q := (8 * x) / 0x1_0000;
    var j := if x < 0x8000 then 0 else 1;
    assert t == x - 0x1_0000 * j;
    assert u == 8 * t + 0x1_0000 * (8 * j - q);
    ResidueShift(8 * t, 8 * j - q);
    HalveEight(t);
    k := 8 * j - q;
  }

  /**
   * The count-remain refinement: sixteen times the whole degrees of the
   * half-degree reading, minus a quarter degree, plus the fraction
   * (16 - COUNT_REMAIN)/16 of a degree, wrapped to int16_t.
   */
  lemma CountRemainValue(raw: bv16, countRemain: bv8)
    ensures ExtendedReading(raw, countRemain, CountPerC)
            == Wrap16(16 * (ToInt16(raw) / 2) + 12 - countRemain as int)
  {
    var f := ((raw << 3) & 0xFFF0) as int;
    var t := ToInt16(raw);
    var k := CountRemainBits(raw);
    WrapCongruent(f + 12 - countRemain as int, 16 * (t / 2) + 12 - countRemain as int, k);
  }

  /** The bits of the count-remain path: (raw << 3) & 0xFFF0 is 16 (t / 2) modulo 2^16. */
  lemma CountRemainBits(raw: bv16) returns (k: int)
    ensures ((raw << 3) & 0xFFF0) as int == 16 * (ToInt16(raw) / 2) + 0x1_0000 * k
  {
    var s := raw << 3;
    SixteenthsFloor(s);
    ShiftValue(raw);
    SignedIsToInt16(raw);
    k := CountRemainInt(raw as int, s as int, (s & 0xFFF0) as int, ToInt16(raw));
  }

  /** raw & 0xFFF0 rounds the pattern down to a multiple of 16. */
  lemma SixteenthsFloor(s: bv16)
    ensures (s & 0xFFF0) as int == FloorTo(s as int, 16)
  {
    SameMask(s, 0xFFF0, Widen(0xF0));
    MaskValue(s, 0xF0);
  }

  /** The DS18B20 and DS1822 path rounds the reading down to the configured resolution. */
  lemma ResolutionFloors(raw: bv16, config: bv8)
    ensures var t := ToInt16(raw);
            ToInt16(ResolutionMask(raw, config)) == t - t % Granule(config)
    ensures ToInt16(ResolutionMask(raw, config)) % Granule(config) == 0
    ensures ToInt16(ResolutionMask(raw, config)) <= ToInt16(raw) < ToInt16(ResolutionMask(raw, config)) + Granule(config)
  {
    MaskedReading(raw, config);
    FloorResult(ToInt16(ResolutionMask(raw, config)), ToInt16(raw), Granule(config));
  }

  lemma MaskedReading(raw: bv16, config: bv8)
    ensures Granule(config) in {1, 2, 4, 8, 16}
    ensures ToInt16(ResolutionMask(raw, config)) == FloorTo(ToInt16(raw), Granule(config))
  {
    var m := ResolutionByteMask(config);
    MaskSelected(raw, config);
    ByteMaskGranule(config);
    MaskFloors(raw, m);
  }

  lemma FloorResult(v: int, t: int, g: int)
    requires g in {1, 2, 4, 8, 16} && v == FloorTo(t, g)
    ensures v == t - t % g && v % g == 0 && v <= t < v + g
  {
    FloorLaws(g, 0, 0, t);
  }

  /** The low byte of the mask the resolution switch applies. */
  function ResolutionByteMask(config: bv8): bv8 {
    var cfg := Resolution(config);
    if cfg == 0x00 then 0xF8 else if cfg == 0x20 then 0xFC else if cfg == 0x40 then 0xFE else 0xFF
  }

  lemma ByteMaskGranule(config: bv8)
    ensures ByteLowClear(ResolutionByteMask(config))
    ensures ByteGranule(ResolutionByteMask(config)) == Granule(config)
  {}

  /** The branch of the resolution switch as one mask. */
  lemma MaskSelected(raw: bv16, config: bv8)
    ensures ResolutionMask(raw, config) == raw & Widen(ResolutionByteMask(config))
  {
    var cfg := Resolution(config);
    var m := ResolutionByteMask(config);
    if cfg == 0x00 {
      assert m == 0xF8;
      SameMask(raw, !7, Widen(0xF8));
    } else if cfg == 0x20 {
      assert m == 0xFC;
      SameMask(raw, !3, Widen(0xFC));
    } else if cfg == 0x40 {
      assert m == 0xFE;
      SameMask(raw, !1, Widen(0xFE));
    } else {
      assert m == 0xFF;
      KeepAll(raw);
    }
  }

  lemma SameMask(x: bv16, a: bv16, b: bv16)
    requires a == b
    ensures x & a == x & b
  {}

  lemma KeepAll(x: bv16)
    ensures x & Widen(0xFF) == x
  {}

  /** Masking twice is masking once. */
  lemma ResolutionMaskIdempotent(raw: bv16, config: bv8)
    ensures ResolutionMask(ResolutionMask(raw, config), config) == ResolutionMask(raw, config)
  {
    var cfg := Resolution(config);
    if cfg == 0x00 {
      AndTwice(raw, !7);
    } else if cfg == 0x20 {
      AndTwice(raw, !3);
    } else if cfg == 0x40 {
      AndTwice(raw, !1);
    }
  }

  lemma AndTwice(x: bv16, m: bv16)
    ensures (x & m) & m == x & m
  {}

  /** The reading of the whole scratchpad, by chip family path. */
  lemma RawReadingCases(data: seq<bv8>, typeS: bool)
    requires |data| == ScratchpadSize
    ensures var t := ToInt16(Assemble(data[0], data[1]));
            && (typeS && data[7] == CountPerC ==>
                  RawReading(data, typeS) == Wrap16(16 * (t / 2) + 12 - data[6] as int))
            && (typeS && data[7] != CountPerC ==>
                  RawReading(data, typeS) == Wrap16(8 * t) && RawReading(data, typeS) % 8 == 0)
            && (!typeS ==>
                  RawReading(data, typeS) == t - t % Granule(data[4])
                  && RawReading(data, typeS) % Granule(data[4]) == 0)
  {
    var raw := Assemble(data[0], data[1]);
    if typeS {
      if data[7] == CountPerC {
        CountRemainValue(raw, data[6]);
      } else {
        ShiftScales(raw);
      }
    } else {
      ResolutionFloors(raw, data[4]);
    }
  }

  class DS18B20 {
    /** 1 for a DS18S20 (or DS1820), 0 for a DS18B20 or DS1822. */
    var typeS: int
    /** Whether the bus search found a device. */
    var present: bool

    constructor ()
      ensures typeS == 0 && !present
    {
      typeS := 0;
      present := false;
    }

    /**
     * init(): record whether a device was found and choose the decode path
     * from the first ROM byte; an unknown family leaves the path as it was.
     */
    method Init(found: bool, family: bv8)
      modifies this`typeS, this`present
      ensures present == found
      ensures typeS == if family == FamilyDS18S20 then 1
                       else if family == FamilyDS18B20 || family == FamilyDS1822 then 0
                       else old(typeS)
    {
      present := found;
      if family == FamilyDS18S20 {
        typeS := 1;
      } else if family == FamilyDS18B20 {
        typeS := 0;
      } else if family == FamilyDS1822 {
        typeS := 0;
      }
    }

    /** readTemp(): the reading, in sixteenths of a degree, of the scratchpad `data`. */
    method ReadTemp(data: seq<bv8>) returns (raw: int)
      requires |data| == ScratchpadSize
      ensures raw == RawReading(data, typeS != 0)
      ensures -0x8000 <= raw < 0x8000
    {
      var r := Assemble(data[0], data[1]);
      if typeS != 0 {
        raw := ExtendedReading(r, data[6], data[7]);
      } else {
        raw := ToInt16(ResolutionMask(r, data[4]));
      }
    }
  }
}
