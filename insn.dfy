// Instruction-word fields of AArch64 and the in-place helpers that patch
// them: write32AArch64Addr (ADR/ADRP immediate), writeMaskedBits32le,
// write32Imm12 (LDR/STR/ADD 12-bit immediate) and writeSMovWImm (MOVZ/MOVN
// immediate with the opcode chosen by the sign). Each helper is a pure
// function on the 32-bit word and a method that reads the word from the
// buffer, applies the function and writes it back.

module Insn {
  import opened Bits
  import opened Bytes

  /** NOP (hint #0). */
  const Nop: bv32 := 0xd503_201f

  /** ADR X0, 0. */
  const AdrX0: bv32 := 0x1000_0000

  /** ADRP X0, 0. */
  const AdrpX0: bv32 := 0x9000_0000

  /** ADD X0, X0, #0 (64-bit, unshifted immediate). */
  const AddX0: bv32 := 0x9100_0000

  /** immlo (bits 29-30) and immhi (bits 5-23) of ADR and ADRP. */
  const AdrImmMask: bv32 := 0x60FF_FFE0

  /** imm12 (bits 10-21) of LDR/STR (unsigned offset) and ADD (immediate). */
  const Imm12Mask: bv32 := 0x3F_FC00

  /** imm16 (bits 5-20) of MOVZ, MOVN and MOVK. */
  const Imm16Mask: bv32 := 0x1F_FFE0

  // ---- Field decoders --------------------------------------------------

  /** The 21-bit immediate immhi:immlo of ADR/ADRP, unsigned. */
  function AdrImm(w: bv32): (r: bv64)
    ensures r & !0x1F_FFFF == 0
  {
    (GetBits(w as bv64, 5, 23) << 2) | GetBits(w as bv64, 29, 30)
  }

  /** The 12-bit immediate of LDR/STR/ADD, unsigned. */
  function Imm12(w: bv32): (r: bv64)
    ensures r & !0xFFF == 0
  {
    GetBits(w as bv64, 10, 21)
  }

  /** The 16-bit immediate of MOVZ/MOVN/MOVK, unsigned. */
  function Imm16(w: bv32): (r: bv64)
    ensures r & !0xFFFF == 0
  {
    GetBits(w as bv64, 5, 20)
  }

  /** Destination register, bits 0-4. */
  function Rd(w: bv32): bv32 {
    w & 0x1F
  }

  /** First source register, bits 5-9. */
  function Rn(w: bv32): bv32 {
    (w >> 5) & 0x1F
  }

  // ---- Word transforms ---------------------------------------------------

  /** write32AArch64Addr on the word: the low 21 bits of `imm` become the
      ADR/ADRP immediate (AdrImmWordDecodes); every bit outside AdrImmMask
      is kept. */
  function AdrImmWord(insn: bv32, imm: bv64): (r: bv32)
    ensures r & !AdrImmMask == insn & !AdrImmMask
  {
    (insn & !AdrImmMask) | ((imm & 0x3) << 29) as bv32 | ((imm & 0x1F_FFFC) << 3) as bv32
  }

  lemma AdrImmWordDecodes(insn: bv32, imm: bv64)
    ensures AdrImm(AdrImmWord(insn, imm)) == imm & 0x1F_FFFF
  {
    var r := AdrImmWord(insn, imm);
    AdrImmHigh(insn, imm);
    AdrImmLow(insn, imm);
  }

  lemma AdrImmHigh(insn: bv32, imm: bv64)
    ensures GetBits(AdrImmWord(insn, imm) as bv64, 5, 23) == (imm & 0x1F_FFFC) >> 2
  {
  }

  lemma AdrImmLow(insn: bv32, imm: bv64)
    ensures GetBits(AdrImmWord(insn, imm) as bv64, 29, 30) == imm & 0x3
  {
  }

  /** writeMaskedBits32le on the word: the bits of `mask` come from `v`; the
      others are kept when `v` has no bits outside the mask, which holds at
      every call site. */
  function MaskedWord(insn: bv32, v: bv32, mask: bv32): (r: bv32)
    ensures r & mask == v & mask
    ensures v & !mask == 0 ==> r & !mask == insn & !mask
  {
    (insn & !mask) | v
  }

  /** write32Imm12 on the word: the low 12 bits of `imm` become the
      immediate (Imm12WordDecodes); every bit outside Imm12Mask is kept. */
  function Imm12Word(insn: bv32, imm: bv64): (r: bv32)
    ensures r & !Imm12Mask == insn & !Imm12Mask
  {
    MaskedWord(insn, ((imm & 0xFFF) << 10) as bv32, Imm12Mask)
  }

  lemma Imm12WordDecodes(insn: bv32, imm: bv64)
    ensures Imm12(Imm12Word(insn, imm)) == imm & 0xFFF
  {
  }

  /** writeSMovWImm on the word. A MOVK (bit 29 set) keeps its opcode; a
      MOVZ/MOVN becomes MOVN with the inverted operand when bit 16 of `imm`
      is set and MOVZ otherwise. The low 16 bits of the operand are or-ed
      into the immediate field; only bit 30 and that field can change. */
  function SMovWImmWord(insn: bv32, imm: bv32): bv32 {
    if insn & 0x2000_0000 == 0 then
      if imm & 0x1_0000 != 0 then
        (insn & !0x4000_0000) | (((imm ^ 0xFFFF) & 0xFFFF) << 5)
      else
        (insn | 0x4000_0000) | ((imm & 0xFFFF) << 5)
    else
      insn | ((imm & 0xFFFF) << 5)
  }

  /** Only bit 30 and the immediate field can change. */
  lemma SMovWKeepsOtherBits(insn: bv32, imm: bv32)
    ensures SMovWImmWord(insn, imm) & !0x401F_FFE0 == insn & !0x401F_FFE0
  {
    if insn & 0x2000_0000 != 0 {
      MovkKeepsOtherBits(insn, imm);
    } else if imm & 0x1_0000 != 0 {
      MovnKeepsOtherBits(insn, imm);
    } else {
      MovzKeepsOtherBits(insn, imm);
    }
  }

  lemma MovkKeepsOtherBits(insn: bv32, imm: bv32)
    requires insn & 0x2000_0000 != 0
    ensures SMovWImmWord(insn, imm) & !0x401F_FFE0 == insn & !0x401F_FFE0
  {
    SMovWMovk(insn, imm);
    OrFieldKeepsOtherBits(insn, imm & 0xFFFF);
  }

  lemma MovnKeepsOtherBits(insn: bv32, imm: bv32)
    requires insn & 0x2000_0000 == 0 && imm & 0x1_0000 != 0
    ensures SMovWImmWord(insn, imm) & !0x401F_FFE0 == insn & !0x401F_FFE0
  {
    SMovWMovn(insn, imm);
    OrFieldKeepsOtherBits(insn & !0x4000_0000, (imm ^ 0xFFFF) & 0xFFFF);
    ClearBit30KeepsOtherBits(insn);
  }

  lemma MovzKeepsOtherBits(insn: bv32, imm: bv32)
    requires insn & 0x2000_0000 == 0 && imm & 0x1_0000 == 0
    ensures SMovWImmWord(insn, imm) & !0x401F_FFE0 == insn & !0x401F_FFE0
  {
    SMovWMovz(insn, imm);
    OrFieldKeepsOtherBits(insn | 0x4000_0000, imm & 0xFFFF);
    SetBit30KeepsOtherBits(insn);
  }

  lemma SMovWMovk(insn: bv32, imm: bv32)
    requires insn & 0x2000_0000 != 0
    ensures SMovWImmWord(insn, imm) == insn | ((imm & 0xFFFF) << 5)
  {
  }

  lemma SMovWMovn(insn: bv32, imm: bv32)
    requires insn & 0x2000_0000 == 0 && imm & 0x1_0000 != 0
    ensures SMovWImmWord(insn, imm) == (insn & !0x4000_0000) | (((imm ^ 0xFFFF) & 0xFFFF) << 5)
  {
  }

  lemma SMovWMovz(insn: bv32, imm: bv32)
    requires insn & 0x2000_0000 == 0 && imm & 0x1_0000 == 0
    ensures SMovWImmWord(insn, imm) == (insn | 0x4000_0000) | ((imm & 0xFFFF) << 5)
  {
  }

  lemma OrFieldKeepsOtherBits(insn: bv32, op: bv32)
    ensures (insn | ((op & 0xFFFF) << 5)) & !0x401F_FFE0 == insn & !0x401F_FFE0
  {
  }

  lemma ClearBit30KeepsOtherBits(insn: bv32)
    ensures (insn & !0x4000_0000) & !0x401F_FFE0 == insn & !0x401F_FFE0
  {
  }

  lemma SetBit30KeepsOtherBits(insn: bv32)
    ensures (insn | 0x4000_0000) & !0x401F_FFE0 == insn & !0x401F_FFE0
  {
  }

  /** A MOVK keeps its opcode. */
  lemma SMovWKeepsMovk(insn: bv32, imm: bv32)
    requires insn & 0x2000_0000 != 0
    ensures SMovWImmWord(insn, imm) & 0x6000_0000 == insn & 0x6000_0000
  {
  }

  /** A MOVZ/MOVN becomes MOVN (opc 00) exactly for a negative 17-bit operand. */
  lemma SMovWChoosesOpcode(insn: bv32, imm: bv32)
    requires insn & 0x2000_0000 == 0
    ensures SMovWImmWord(insn, imm) & 0x6000_0000 == (if imm & 0x1_0000 != 0 then 0 else 0x4000_0000)
  {
  }

  // ---- In-place helpers on the section buffer -------------------------

  method Write32AArch64Addr(buf: array<bv8>, l: nat, imm: bv64)
    requires l + 4 <= buf.Length
    modifies buf
    ensures buf[..] == Store32le(old(buf[..]), l, AdrImmWord(Load32le(old(buf[..]), l), imm))
  {
    var immLo := ((imm & 0x3) << 29) as bv32;
    var immHi := ((imm & 0x1F_FFFC) << 3) as bv32;
    var mask: bv32 := (0x3 << 29) | (0x1F_FFFC << 3);
    Write32le(buf, l, (Load32le(buf[..], l) & !mask) | immLo | immHi);
  }

  method WriteMaskedBits32le(buf: array<bv8>, p: nat, v: bv32, mask: bv32)
    requires p + 4 <= buf.Length
    modifies buf
    ensures buf[..] == Store32le(old(buf[..]), p, MaskedWord(Load32le(old(buf[..]), p), v, mask))
  {
    Write32le(buf, p, (Load32le(buf[..], p) & !mask) | v);
  }

  method Write32Imm12(buf: array<bv8>, l: nat, imm: bv64)
    requires l + 4 <= buf.Length
    modifies buf
    ensures buf[..] == Store32le(old(buf[..]), l, Imm12Word(Load32le(old(buf[..]), l), imm))
  {
    WriteMaskedBits32le(buf, l, ((imm & 0xFFF) << 10) as bv32, 0xFFF << 10);
  }

  /** The opcode and operand adjustment of writeSMovWImm: one path per
      case of the instruction (MOVK; MOVZ/MOVN with a negative operand;
      MOVZ/MOVN with a non-negative one). */
  method AdjustSMovW(insn: bv32, imm: bv32) returns (r: bv32)
    ensures r == SMovWImmWord(insn, imm)
  {
    if insn & (1 << 29) == 0 {
      if imm & 0x1_0000 != 0 {
        r := (insn & !(1 << 30)) | (((imm ^ 0xFFFF) & 0xFFFF) << 5);
        SMovWMovn(insn, imm);
      } else {
        r := (insn | (1 << 30)) | ((imm & 0xFFFF) << 5);
        SMovWMovz(insn, imm);
      }
    } else {
      r := insn | ((imm & 0xFFFF) << 5);
      SMovWMovk(insn, imm);
    }
  }

  method WriteSMovWImm(buf: array<bv8>, loc: nat, imm: bv32)
    requires loc + 4 <= buf.Length
    modifies buf
    ensures buf[..] == Store32le(old(buf[..]), loc, SMovWImmWord(Load32le(old(buf[..]), loc), imm))
  {
    var inst := AdjustSMovW(Load32le(buf[..], loc), imm);
    Write32le(buf, loc, inst);
  }
}
