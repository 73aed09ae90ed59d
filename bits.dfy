// Bit-field helpers of the AArch64 backend: page arithmetic, bit extraction,
// sign extension and the signed/unsigned range checks used by the
// relocation applier. Every value is a 64-bit pattern (bv64), exactly as the
// linker handles uint64_t and int64_t; `SignedLe`/`SignedLt` compare two
// patterns as int64_t values.

module Bits {

  /** a <= b when both are read as int64_t. */
  predicate SignedLe(a: bv64, b: bv64) {
    a ^ 0x8000_0000_0000_0000 <= b ^ 0x8000_0000_0000_0000
  }

  /** a < b when both are read as int64_t. */
  predicate SignedLt(a: bv64, b: bv64) {
    a ^ 0x8000_0000_0000_0000 < b ^ 0x8000_0000_0000_0000
  }

  /** getAArch64Page: the 4 KiB page that holds `expr`, independent of the
      platform's page size. */
  function Page(expr: bv64): (r: bv64)
    ensures r & 0xFFF == 0
    ensures r <= expr && expr - r < 0x1000
    ensures expr - r == expr & 0xFFF
  {
    expr & !0xFFF
  }

  /** A difference of pages has no offset bits. */
  lemma SubAligned(a: bv64, b: bv64)
    requires a & 0xFFF == 0 && b & 0xFFF == 0
    ensures (a - b) & !0xFFF == a - b
  {
  }

  /** The example of the page computation used by ADRP. */
  lemma PageDifferenceExample()
    ensures Page(0x100_2004) - Page(0x100_0008) == 0x2000
  {
  }

  /** getBits: bits start..end of `val`, shifted down to bit 0. The width is
      below 64 at every call site, where the mask computation is defined. */
  function GetBits(val: bv64, start: bv7, end: bv7): (r: bv64)
    requires start <= end < 64 && end - start < 63
  {
    (val >> start) & ((1 << (end + 1 - start)) - 1)
  }

  /** getBits leaves no bit above the extracted width. */
  lemma GetBitsWidth(val: bv64, start: bv7, end: bv7)
    requires start <= end < 64 && end - start < 63
    ensures GetBits(val, start, end) & !((1 << (end + 1 - start)) - 1) == 0
  {
  }

  /** Bit i of getBits(val, start, end) is bit start + i of val, for each
      bit range getImplicitAddend reads: MOVZ/MOVK imm16 (5..20), TBZ imm14
      (5..18), imm19 (5..23), ADD imm12 (10..21), ADR immlo (29..30) and
      B/BL imm26 (0..25). */
  lemma GetBitsFieldBits(val: bv64, i: bv7)
    ensures i <= 15 ==> (GetBits(val, 5, 20) >> i) & 1 == (val >> (5 + i)) & 1
    ensures i <= 13 ==> (GetBits(val, 5, 18) >> i) & 1 == (val >> (5 + i)) & 1
    ensures i <= 18 ==> (GetBits(val, 5, 23) >> i) & 1 == (val >> (5 + i)) & 1
    ensures i <= 11 ==> (GetBits(val, 10, 21) >> i) & 1 == (val >> (10 + i)) & 1
    ensures i <= 1 ==> (GetBits(val, 29, 30) >> i) & 1 == (val >> (29 + i)) & 1
    ensures i <= 25 ==> (GetBits(val, 0, 25) >> i) & 1 == (val >> i) & 1
  {
  }

  /** The example of getBits' comment: bits 4..8 of 0xF0 are 0xF. */
  lemma GetBitsExample()
    ensures GetBits(0xF0, 4, 8) == 0xF
  {
  }

  /** The signed bit widths that the AArch64 backend checks or sign-extends. */
  datatype IntWidth = I12 | I16 | I17 | I21 | I28 | I32 | I33 | I49 {
    /** Bits n-1..63: a value fits in n signed bits iff these are all equal. */
    function SignBits(): bv64 {
      match this
      case I12 => 0xFFFF_FFFF_FFFF_F800
      case I16 => 0xFFFF_FFFF_FFFF_8000
      case I17 => 0xFFFF_FFFF_FFFF_0000
      case I21 => 0xFFFF_FFFF_FFF0_0000
      case I28 => 0xFFFF_FFFF_F800_0000
      case I32 => 0xFFFF_FFFF_8000_0000
      case I33 => 0xFFFF_FFFF_0000_0000
      case I49 => 0xFFFF_0000_0000_0000
    }
    /** Bit n-1, the sign bit of an n-bit field; also 2^(n-1), the bound of the range. */
    function SignBit(): bv64 {
      match this
      case I12 => 0x800
      case I16 => 0x8000
      case I17 => 0x1_0000
      case I21 => 0x10_0000
      case I28 => 0x800_0000
      case I32 => 0x8000_0000
      case I33 => 0x1_0000_0000
      case I49 => 0x1_0000_0000_0000
    }
  }

  /** The unsigned bit widths that the AArch64 backend checks. */
  datatype UIntWidth = U16 | U24 | U32 | U48 {
    /** Bits n..63: a value fits in n unsigned bits iff these are all zero. */
    function HighBits(): bv64 {
      match this
      case U16 => 0xFFFF_FFFF_FFFF_0000
      case U24 => 0xFFFF_FFFF_FF00_0000
      case U32 => 0xFFFF_FFFF_0000_0000
      case U48 => 0xFFFF_0000_0000_0000
    }
    /** 2^n, the exclusive bound of the range. */
    function Limit(): bv64 {
      match this
      case U16 => 0x1_0000
      case U24 => 0x100_0000
      case U32 => 0x1_0000_0000
      case U48 => 0x1_0000_0000_0000
    }
  }

  /** isInt<n>(v): all of bits n-1..63 agree. */
  predicate FitsInt(v: bv64, w: IntWidth) {
    v & w.SignBits() == 0 || v & w.SignBits() == w.SignBits()
  }

  /** isUInt<n>(v): bits n..63 are clear. */
  predicate FitsUInt(v: bv64, w: UIntWidth) {
    v & w.HighBits() == 0
  }

  /** FitsInt is the signed range [-2^(n-1), 2^(n-1)) of int64_t values. */
  lemma FitsIntRange(v: bv64, w: IntWidth)
    ensures FitsInt(v, w) <==> SignedLe(-w.SignBit(), v) && SignedLt(v, w.SignBit())
  {
    match w
    case I12 => FitsIntRange12(v);
    case I16 => FitsIntRange16(v);
    case I17 => FitsIntRange17(v);
    case I21 => FitsIntRange21(v);
    case I28 => FitsIntRange28(v);
    case I32 => FitsIntRange32(v);
    case I33 => FitsIntRange33(v);
    case I49 => FitsIntRange49(v);
  }

  lemma FitsIntRange12(v: bv64)
    ensures FitsInt(v, I12) <==> SignedLe(-0x800, v) && SignedLt(v, 0x800)
  {
  }

  lemma FitsIntRange16(v: bv64)
    ensures FitsInt(v, I16) <==> SignedLe(-0x8000, v) && SignedLt(v, 0x8000)
  {
  }

  lemma FitsIntRange17(v: bv64)
    ensures FitsInt(v, I17) <==> SignedLe(-0x1_0000, v) && SignedLt(v, 0x1_0000)
  {
  }

  lemma FitsIntRange21(v: bv64)
    ensures FitsInt(v, I21) <==> SignedLe(-0x10_0000, v) && SignedLt(v, 0x10_0000)
  {
  }

  lemma FitsIntRange28(v: bv64)
    ensures FitsInt(v, I28) <==> SignedLe(-0x800_0000, v) && SignedLt(v, 0x800_0000)
  {
  }

  lemma FitsIntRange32(v: bv64)
    ensures FitsInt(v, I32) <==> SignedLe(-0x8000_0000, v) && SignedLt(v, 0x8000_0000)
  {
  }

  lemma FitsIntRange33(v: bv64)
    ensures FitsInt(v, I33) <==> SignedLe(-0x1_0000_0000, v) && SignedLt(v, 0x1_0000_0000)
  {
  }

  lemma FitsIntRange49(v: bv64)
    ensures FitsInt(v, I49) <==> SignedLe(-0x1_0000_0000_0000, v) && SignedLt(v, 0x1_0000_0000_0000)
  {
  }

  /** FitsUInt is the unsigned range [0, 2^n). */
  lemma FitsUIntRange(v: bv64, w: UIntWidth)
    ensures FitsUInt(v, w) <==> v < w.Limit()
  {
    match w
    case U16 => FitsUIntRange16(v);
    case U24 => FitsUIntRange24(v);
    case U32 => FitsUIntRange32(v);
    case U48 => FitsUIntRange48(v);
  }

  lemma FitsUIntRange16(v: bv64)
    ensures FitsUInt(v, U16) <==> v < 0x1_0000
  {
  }

  lemma FitsUIntRange24(v: bv64)
    ensures FitsUInt(v, U24) <==> v < 0x100_0000
  {
  }

  lemma FitsUIntRange32(v: bv64)
    ensures FitsUInt(v, U32) <==> v < 0x1_0000_0000
  {
  }

  lemma FitsUIntRange48(v: bv64)
    ensures FitsUInt(v, U48) <==> v < 0x1_0000_0000_0000
  {
  }

  /** SignExtend64(x, n): the low n bits of x, sign-extended from bit n-1. */
  function SignExtend(x: bv64, w: IntWidth): bv64 {
    if x & w.SignBit() == 0 then x & !w.SignBits() else x | w.SignBits()
  }

  /** Sign extension always yields a value of the width. */
  lemma SignExtendInRange(x: bv64, w: IntWidth)
    ensures FitsInt(SignExtend(x, w), w)
  {
    match w
    case I12 => SignExtendInRange12(x);
    case I16 => SignExtendInRange16(x);
    case I17 => SignExtendInRange17(x);
    case I21 => SignExtendInRange21(x);
    case I28 => SignExtendInRange28(x);
    case I32 => SignExtendInRange32(x);
    case I33 => SignExtendInRange33(x);
    case I49 => SignExtendInRange49(x);
  }

  /** Sign extension leaves a value that already fits unchanged. */
  lemma SignExtendFits(v: bv64, w: IntWidth)
    requires FitsInt(v, w)
    ensures SignExtend(v, w) == v
  {
    match w
    case I12 => SignExtendFits12(v);
    case I16 => SignExtendFits16(v);
    case I17 => SignExtendFits17(v);
    case I21 => SignExtendFits21(v);
    case I28 => SignExtendFits28(v);
    case I32 => SignExtendFits32(v);
    case I33 => SignExtendFits33(v);
    case I49 => SignExtendFits49(v);
  }

  lemma SignExtendInRange12(x: bv64)
    ensures FitsInt(SignExtend(x, I12), I12)
  {
  }

  lemma SignExtendFits12(v: bv64)
    requires FitsInt(v, I12)
    ensures SignExtend(v, I12) == v
  {
    if v & 0xFFFF_FFFF_FFFF_F800 == 0 { assert v & 0x800 == 0; } else { assert v & 0x800 != 0; }
  }

  lemma SignExtendInRange16(x: bv64)
    ensures FitsInt(SignExtend(x, I16), I16)
  {
  }

  lemma SignExtendFits16(v: bv64)
    requires FitsInt(v, I16)
    ensures SignExtend(v, I16) == v
  {
    if v & 0xFFFF_FFFF_FFFF_8000 == 0 { assert v & 0x8000 == 0; } else { assert v & 0x8000 != 0; }
  }

  lemma SignExtendInRange17(x: bv64)
    ensures FitsInt(SignExtend(x, I17), I17)
  {
  }

  lemma SignExtendFits17(v: bv64)
    requires FitsInt(v, I17)
    ensures SignExtend(v, I17) == v
  {
    if v & 0xFFFF_FFFF_FFFF_0000 == 0 { assert v & 0x1_0000 == 0; } else { assert v & 0x1_0000 != 0; }
  }

  lemma SignExtendInRange21(x: bv64)
    ensures FitsInt(SignExtend(x, I21), I21)
  {
  }

  lemma SignExtendFits21(v: bv64)
    requires FitsInt(v, I21)
    ensures SignExtend(v, I21) == v
  {
    if v & 0xFFFF_FFFF_FFF0_0000 == 0 { assert v & 0x10_0000 == 0; } else { assert v & 0x10_0000 != 0; }
  }

  lemma SignExtendInRange28(x: bv64)
    ensures FitsInt(SignExtend(x, I28), I28)
  {
  }

  lemma SignExtendFits28(v: bv64)
    requires FitsInt(v, I28)
    ensures SignExtend(v, I28) == v
  {
    if v & 0xFFFF_FFFF_F800_0000 == 0 { assert v & 0x800_0000 == 0; } else { assert v & 0x800_0000 != 0; }
  }

  lemma SignExtendInRange32(x: bv64)
    ensures FitsInt(SignExtend(x, I32), I32)
  {
  }

  lemma SignExtendFits32(v: bv64)
    requires FitsInt(v, I32)
    ensures SignExtend(v, I32) == v
  {
    if v & 0xFFFF_FFFF_8000_0000 == 0 { assert v & 0x8000_0000 == 0; } else { assert v & 0x8000_0000 != 0; }
  }

  lemma SignExtendInRange33(x: bv64)
    ensures FitsInt(SignExtend(x, I33), I33)
  {
  }

  lemma SignExtendFits33(v: bv64)
    requires FitsInt(v, I33)
    ensures SignExtend(v, I33) == v
  {
    if v & 0xFFFF_FFFF_0000_0000 == 0 { assert v & 0x1_0000_0000 == 0; } else { assert v & 0x1_0000_0000 != 0; }
  }

  lemma SignExtendInRange49(x: bv64)
    ensures FitsInt(SignExtend(x, I49), I49)
  {
  }

  lemma SignExtendFits49(v: bv64)
    requires FitsInt(v, I49)
    ensures SignExtend(v, I49) == v
  {
    if v & 0xFFFF_0000_0000_0000 == 0 { assert v & 0x1_0000_0000_0000 == 0; } else { assert v & 0x1_0000_0000_0000 != 0; }
  }

  /** A value that fits in n signed bits is recovered by sign-extending its
      low n bits: an n-bit field holds it losslessly (one lemma per width). */
  lemma SignExtendField12(v: bv64)
    requires FitsInt(v, I12)
    ensures SignExtend(v & 0xFFF, I12) == v
  {
    if v & 0xFFFF_FFFF_FFFF_F800 == 0 { assert v & 0x800 == 0; } else { assert v & 0x800 != 0; }
  }

  lemma SignExtendField16(v: bv64)
    requires FitsInt(v, I16)
    ensures SignExtend(v & 0xFFFF, I16) == v
  {
    if v & 0xFFFF_FFFF_FFFF_8000 == 0 { assert v & 0x8000 == 0; } else { assert v & 0x8000 != 0; }
  }

  lemma SignExtendField17(v: bv64)
    requires FitsInt(v, I17)
    ensures SignExtend(v & 0x1_FFFF, I17) == v
  {
    if v & 0xFFFF_FFFF_FFFF_0000 == 0 { assert v & 0x1_0000 == 0; } else { assert v & 0x1_0000 != 0; }
  }

  lemma SignExtendField21(v: bv64)
    requires FitsInt(v, I21)
    ensures SignExtend(v & 0x1F_FFFF, I21) == v
  {
    if v & 0xFFFF_FFFF_FFF0_0000 == 0 { assert v & 0x10_0000 == 0; } else { assert v & 0x10_0000 != 0; }
  }

  lemma SignExtendField28(v: bv64)
    requires FitsInt(v, I28)
    ensures SignExtend(v & 0xFFF_FFFF, I28) == v
  {
    if v & 0xFFFF_FFFF_F800_0000 == 0 { assert v & 0x800_0000 == 0; } else { assert v & 0x800_0000 != 0; }
  }

  lemma SignExtendField32(v: bv64)
    requires FitsInt(v, I32)
    ensures SignExtend(v & 0xFFFF_FFFF, I32) == v
  {
    if v & 0xFFFF_FFFF_8000_0000 == 0 { assert v & 0x8000_0000 == 0; } else { assert v & 0x8000_0000 != 0; }
  }

  lemma SignExtendField33(v: bv64)
    requires FitsInt(v, I33)
    ensures SignExtend(v & 0x1_FFFF_FFFF, I33) == v
  {
    if v & 0xFFFF_FFFF_0000_0000 == 0 { assert v & 0x1_0000_0000 == 0; } else { assert v & 0x1_0000_0000 != 0; }
  }

  lemma SignExtendField49(v: bv64)
    requires FitsInt(v, I49)
    ensures SignExtend(v & 0x1_FFFF_FFFF_FFFF, I49) == v
  {
    if v & 0xFFFF_0000_0000_0000 == 0 { assert v & 0x1_0000_0000_0000 == 0; } else { assert v & 0x1_0000_0000_0000 != 0; }
  }
}
