// Round trips between relocate and getImplicitAddend: for a value in the
// range relocate accepts, the addend read back from the place is the value
// written. For ADRP the page offset read back, scaled by the page size, is
// the page difference written. Each round trip is proved first on the
// instruction word (the `...Word` lemmas) and then on the section bytes.

module RoundTrip {
  import opened Bits
  import opened Bytes
  import opened Insn
  import opened Reloc
  import opened Apply
  import opened Addend

  // ---- the place -------------------------------------------------------

  /** relocate on an instruction type edits the little-endian word at the
      place and nothing else. */
  lemma RelocatedWord(e: Endian, s: seq<bv8>, o: nat, rel: Relocation, val: bv64)
    requires Handled(rel.rtype) && !IsDataType(rel.rtype)
    requires o + PlaceSize(rel.rtype) <= |s| && o + 4 <= |s|
    ensures RelocateBytes(e, s, o, rel, val) == Store32le(s, o, EditWord(Load32le(s, o), EditOf(rel.rtype, val)))
  {
  }

  /** For an instruction type whose addend is an immediate, the addend
      getImplicitAddend reads back from the relocated section `r` is the one
      the edited word holds: the round trip reduces to the instruction word. */
  lemma RelocatedAddend(e: Endian, s: seq<bv8>, o: nat, rel: Relocation, val: bv64)
    requires Handled(rel.rtype) && !IsDataType(rel.rtype) && InsnField(FieldOf(rel.rtype))
    requires o + PlaceSize(rel.rtype) <= |s| && o + 4 <= |s|
    ensures o + FieldSize(FieldOf(rel.rtype)) <= |s|
    ensures ImplicitAddend(e, RelocateBytes(e, s, o, rel, val), o, rel.rtype)
            == Some(WordAddend(EditWord(Load32le(s, o), EditOf(rel.rtype, val)), FieldOf(rel.rtype)))
  {
    var w := EditWord(Load32le(s, o), EditOf(rel.rtype, val));
    RelocatedWord(e, s, o, rel, val);
    StoredField(e, s, o, w, FieldOf(rel.rtype));
  }

  /** The addend in an instruction field is read from the word stored at
      the place, whatever the output's byte order. */
  lemma StoredField(e: Endian, s: seq<bv8>, o: nat, w: bv32, f: Field)
    requires InsnField(f) && o + 4 <= |s|
    ensures o + FieldSize(f) <= |s|
    ensures ReadField(e, Store32le(s, o, w), o, f) == Some(WordAddend(w, f))
  {
  }

  /** A write changes no byte outside the bytes it covers. */
  lemma ApplyWriteFrame(e: Endian, s: seq<bv8>, o: nat, w: Write, i: nat)
    requires o + WriteSize(w) <= |s|
    requires i < |s| && !(o <= i < o + WriteSize(w))
    ensures ApplyWrite(e, s, o, w)[i] == s[i]
  {
  }

  /** relocate changes no byte outside the place. */
  lemma RelocateFrame(e: Endian, s: seq<bv8>, o: nat, rel: Relocation, val: bv64, i: nat)
    requires Handled(rel.rtype) && o + PlaceSize(rel.rtype) <= |s|
    requires i < |s| && !(o <= i < o + PlaceSize(rel.rtype))
    ensures RelocateBytes(e, s, o, rel, val)[i] == s[i]
  {
    ApplyWriteFrame(e, s, o, WriteOf(rel, val), i);
  }

  // ---- B / BL: imm26 ---------------------------------------------------

  /** The imm26 field, in bytes, of a word whose imm26 bits were written
      from `val`: the 4-aligned low 28 bits of the value. */
  lemma Branch26Field(insn: bv32, val: bv64)
    ensures Branch26(MaskedWord(insn, Trunc32((val & 0x0FFF_FFFC) >> 2), 0x03FF_FFFF))
            == val & 0x0FFF_FFFC
  {
  }

  /** Sign-extending the low 28 bits of an aligned value that fits gives it back. */
  lemma SignExtendLow28(val: bv64)
    requires FitsInt(val, I28) && val & 3 == 0
    ensures SignExtend(val & 0x0FFF_FFFC, I28) == val
  {
    if val & 0xFFFF_FFFF_F800_0000 == 0 {
      assert val & 0x800_0000 == 0;
    } else {
      assert val & 0x800_0000 != 0;
    }
  }

  lemma Call26Edit(insn: bv32, val: bv64)
    ensures EditWord(insn, EditOf(CALL26, val))
            == MaskedWord(insn, Trunc32((val & 0x0FFF_FFFC) >> 2), 0x03FF_FFFF)
    ensures FieldOf(CALL26) == BranchImm26
  {
    assert EditOf(CALL26, val) == MaskedField(Imm26Of(val), 0x03FF_FFFF);
  }

  lemma Jump26Edit(insn: bv32, val: bv64)
    ensures EditWord(insn, EditOf(JUMP26, val))
            == MaskedWord(0x1400_0000, Trunc32((val & 0x0FFF_FFFC) >> 2), 0x03FF_FFFF)
    ensures FieldOf(JUMP26) == BranchImm26
  {
    assert EditOf(JUMP26, val) == BranchWord(Imm26Of(val));
  }

  /** CALL26: a branch offset that passes relocate's check and is a
      multiple of 4 (in [-2^27, 2^27)) reads back from the BL word as
      written. */
  lemma Call26RoundTrip(insn: bv32, val: bv64)
    requires FitsInt(val, I28) && val & 3 == 0
    ensures WordAddend(EditWord(insn, EditOf(CALL26, val)), FieldOf(CALL26)) == val
  {
    Call26Edit(insn, val);
    Branch26Field(insn, val);
    SignExtendLow28(val);
  }

  /** JUMP26 replaces whatever instruction was at the place by an
      unconditional B (opcode 0b000101) whose offset reads back as written. */
  lemma Jump26RoundTrip(insn: bv32, val: bv64)
    requires FitsInt(val, I28) && val & 3 == 0
    ensures EditWord(insn, EditOf(JUMP26, val)) & !0x03FF_FFFF == 0x1400_0000
    ensures WordAddend(EditWord(insn, EditOf(JUMP26, val)), FieldOf(JUMP26)) == val
  {
    Jump26Edit(insn, val);
    Branch26Field(0x1400_0000, val);
    SignExtendLow28(val);
  }

  // ---- B.cond / LDR (literal): imm19 -------------------------------------

  /** The imm19 field, in bytes, of a word whose imm19 bits were written
      from `val`: the 4-aligned low 21 bits of the value. */
  lemma Ldr19Field(insn: bv32, val: bv64)
    ensures Ldr19(MaskedWord(insn, Trunc32((val & 0x1F_FFFC) << 3), 0xFF_FFE0)) == val & 0x1F_FFFC
  {
  }

  lemma SignExtendLow21(val: bv64)
    requires FitsInt(val, I21) && val & 3 == 0
    ensures SignExtend(val & 0x1F_FFFC, I21) == val
  {
    if val & 0xFFFF_FFFF_FFF0_0000 == 0 {
      assert val & 0x10_0000 == 0;
    } else {
      assert val & 0x10_0000 != 0;
    }
  }

  lemma CondBr19Edit(insn: bv32, val: bv64)
    ensures EditWord(insn, EditOf(CONDBR19, val))
            == MaskedWord(insn, Trunc32((val & 0x1F_FFFC) << 3), 0xFF_FFE0)
    ensures FieldOf(CONDBR19) == Imm19
  {
    assert EditOf(CONDBR19, val) == MaskedField(Imm19Of(val), 0xFF_FFE0);
  }

  lemma LdPrelLo19Edit(insn: bv32, val: bv64)
    ensures EditWord(insn, EditOf(LD_PREL_LO19, val))
            == MaskedWord(insn, Trunc32((val & 0x1F_FFFC) << 3), 0xFF_FFE0)
    ensures FieldOf(LD_PREL_LO19) == Imm19
  {
    assert EditOf(LD_PREL_LO19, val) == MaskedField(Imm19Of(val), 0xFF_FFE0);
  }

  /** CONDBR19: a branch offset that passes relocate's checks (a multiple
      of 4 in [-2^20, 2^20)) reads back from the B.cond word as written. */
  lemma CondBr19RoundTrip(insn: bv32, val: bv64)
    requires FitsInt(val, I21) && val & 3 == 0
    ensures WordAddend(EditWord(insn, EditOf(CONDBR19, val)), FieldOf(CONDBR19)) == val
  {
    CondBr19Edit(insn, val);
    Ldr19Field(insn, val);
    SignExtendLow21(val);
  }

  /** LD_PREL_LO19: the same for the offset of an LDR (literal). */
  lemma LdPrelLo19RoundTrip(insn: bv32, val: bv64)
    requires FitsInt(val, I21) && val & 3 == 0
    ensures WordAddend(EditWord(insn, EditOf(LD_PREL_LO19, val)), FieldOf(LD_PREL_LO19)) == val
  {
    LdPrelLo19Edit(insn, val);
    Ldr19Field(insn, val);
    SignExtendLow21(val);
  }

  /** relocate reports nothing for an imm19 type (CONDBR19, LD_PREL_LO19
      and the GOT loads) exactly when the offset is a multiple of 4 in
      [-2^20, 2^20). */
  lemma Ldr19Checks(t: RelType, val: bv64)
    requires IsLdr19Type(t)
    ensures Checks(t, val) == [] <==> FitsInt(val, I21) && val & 3 == 0
  {
    assert CheckOf(t) == AlignedIntRange(4, I21);
  }

  // ---- TBZ / TBNZ: imm14 ---------------------------------------------------

  lemma Tbz14Field(insn: bv32, val: bv64)
    ensures Tbz14(MaskedWord(insn, Trunc32((val & 0xFFFC) << 3), 0x7_FFE0)) == val & 0xFFFC
  {
  }

  lemma SignExtendLow16(val: bv64)
    requires FitsInt(val, I16) && val & 3 == 0
    ensures SignExtend(val & 0xFFFC, I16) == val
  {
    if val & 0xFFFF_FFFF_FFFF_8000 == 0 {
      assert val & 0x8000 == 0;
    } else {
      assert val & 0x8000 != 0;
    }
  }

  lemma Tbz14Edit(insn: bv32, val: bv64)
    ensures EditWord(insn, EditOf(TSTBR14, val))
            == MaskedWord(insn, Trunc32((val & 0xFFFC) << 3), 0x7_FFE0)
    ensures FieldOf(TSTBR14) == TbzImm14
  {
    assert EditOf(TSTBR14, val) == MaskedField(Imm14Of(val), 0x7_FFE0);
  }

  /** TSTBR14: an offset that passes relocate's check and is a multiple of
      4 (in [-2^15, 2^15)) reads back from the TBZ/TBNZ word as written. */
  lemma Tbz14RoundTrip(insn: bv32, val: bv64)
    requires FitsInt(val, I16) && val & 3 == 0
    ensures WordAddend(EditWord(insn, EditOf(TSTBR14, val)), FieldOf(TSTBR14)) == val
  {
    Tbz14Edit(insn, val);
    Tbz14Field(insn, val);
    SignExtendLow16(val);
  }

  // ---- ADR / ADRP: immhi:immlo ---------------------------------------------

  lemma AdrEdit(insn: bv32, val: bv64)
    ensures EditWord(insn, EditOf(ADR_PREL_LO21, val)) == AdrImmWord(insn, val)
    ensures FieldOf(ADR_PREL_LO21) == AdrImm21
  {
    assert EditOf(ADR_PREL_LO21, val) == AdrField(val);
  }

  lemma AdrpEdit(insn: bv32, val: bv64)
    ensures EditWord(insn, EditOf(ADR_PREL_PG_HI21, val)) == AdrImmWord(insn, val >> 12)
    ensures FieldOf(ADR_PREL_PG_HI21) == AdrImm21
  {
    assert EditOf(ADR_PREL_PG_HI21, val) == AdrField(val >> 12);
  }

  /** ADR_PREL_LO21: a value that passes relocate's check (in
      [-2^20, 2^20)) reads back from the ADR word as written. */
  lemma AdrRoundTrip(insn: bv32, val: bv64)
    requires FitsInt(val, I21)
    ensures WordAddend(EditWord(insn, EditOf(ADR_PREL_LO21, val)), FieldOf(ADR_PREL_LO21)) == val
  {
    AdrEdit(insn, val);
    AdrImmWordDecodes(insn, val);
    SignExtendField21(val);
  }

  /** Bits 12-32 of a value in [-2^32, 2^32), sign-extended and scaled by
      the page size, are the value without its offset in the page. */
  lemma PageField(val: bv64)
    requires FitsInt(val, I33)
    ensures SignExtend((val >> 12) & 0x1F_FFFF, I21) << 12 == val & !0xFFF
  {
    if val & 0xFFFF_FFFF_0000_0000 == 0 {
      assert val & 0x1_0000_0000 == 0;
    } else {
      assert val & 0x1_0000_0000 != 0;
    }
  }

  lemma AdrImmShifted(insn: bv32, val: bv64)
    ensures SignExtend(AdrImm(AdrImmWord(insn, val >> 12)), I21) == SignExtend((val >> 12) & 0x1F_FFFF, I21)
  {
    AdrImmWordDecodes(insn, val >> 12);
  }

  /** The ADRP immediate written from a page difference in [-2^32, 2^32),
      sign-extended and scaled by the page size. */
  lemma AdrpField(insn: bv32, val: bv64)
    requires FitsInt(val, I33)
    ensures SignExtend(AdrImm(AdrImmWord(insn, val >> 12)), I21) << 12 == val & !0xFFF
  {
    AdrImmShifted(insn, val);
    PageField(val);
  }

  /** ADR_PREL_PG_HI21: a page difference that passes relocate's check (in
      [-2^32, 2^32)) reads back from the ADRP word as a page count, not
      scaled back to bytes (the ADRP addend is left unshifted); scaled by
      the page size it is the difference without its in-page offset. */
  lemma AdrpRoundTrip(insn: bv32, val: bv64)
    requires FitsInt(val, I33)
    ensures WordAddend(EditWord(insn, EditOf(ADR_PREL_PG_HI21, val)), FieldOf(ADR_PREL_PG_HI21)) << 12
            == val & !0xFFF
  {
    AdrpEdit(insn, val);
    AdrpField(insn, val);
  }

  // ---- ADD (immediate) and MOVW: imm12, imm16 -----------------------------

  lemma Add12Edit(insn: bv32, val: bv64)
    ensures EditWord(insn, EditOf(ADD_ABS_LO12_NC, val)) == Imm12Word(insn, val)
    ensures FieldOf(ADD_ABS_LO12_NC) == AddImm12
  {
    assert EditOf(ADD_ABS_LO12_NC, val) == Imm12Field(val);
  }

  /** ADD_ABS_LO12_NC (not range-checked): a value in [-2^11, 2^11) reads
      back from the ADD word as written. */
  lemma Add12RoundTrip(insn: bv32, val: bv64)
    requires FitsInt(val, I12)
    ensures WordAddend(EditWord(insn, EditOf(ADD_ABS_LO12_NC, val)), FieldOf(ADD_ABS_LO12_NC)) == val
  {
    Add12Edit(insn, val);
    Imm12WordDecodes(insn, val);
    SignExtendField12(val);
  }

  lemma Imm16Field(insn: bv32, val: bv64)
    ensures Imm16(MaskedWord(insn, Trunc32((val & 0xFFFF) << 5), Imm16Mask)) == val & 0xFFFF
  {
  }

  lemma MovwG0Edit(insn: bv32, val: bv64)
    ensures EditWord(insn, EditOf(MOVW_UABS_G0, val))
            == MaskedWord(insn, Trunc32((val & 0xFFFF) << 5), Imm16Mask)
    ensures EditOf(MOVW_UABS_G0_NC, val) == EditOf(MOVW_UABS_G0, val)
    ensures FieldOf(MOVW_UABS_G0) == MovImm16
    ensures FieldOf(MOVW_UABS_G0_NC) == MovImm16
  {
    assert EditOf(MOVW_UABS_G0, val) == MaskedField(MovwG0Of(val), Imm16Mask);
    assert EditOf(MOVW_UABS_G0_NC, val) == MaskedField(MovwG0Of(val), Imm16Mask);
  }

  /** MOVW_UABS_G0 (and G0_NC, the same write without the check): a value
      in [-2^15, 2^15) reads back from the MOVZ/MOVK word as written. */
  lemma MovwG0RoundTrip(insn: bv32, val: bv64)
    requires FitsInt(val, I16)
    ensures WordAddend(EditWord(insn, EditOf(MOVW_UABS_G0, val)), FieldOf(MOVW_UABS_G0)) == val
  {
    MovwG0Edit(insn, val);
    Imm16Field(insn, val);
    SignExtendField16(val);
  }

  // ---- data words ----------------------------------------------------------

  /** Widening a truncated value keeps its low bits. */
  lemma Trunc16Widens(x: bv64)
    ensures Trunc16(x) as bv64 == x & 0xFFFF
  {
  }

  lemma Trunc32Widens(x: bv64)
    ensures Trunc32(x) as bv64 == x & 0xFFFF_FFFF
  {
  }

  /** The low 16 bits of a value, written as a 16-bit data word, read back
      sign-extended from 16 bits. */
  lemma Data16Word(e: Endian, s: seq<bv8>, o: nat, val: bv64)
    requires o + 2 <= |s|
    ensures ReadField(e, Store16(e, s, o, Trunc16(val)), o, Word16) == Some(SignExtend(val & 0xFFFF, I16))
  {
    Trunc16Widens(val);
  }

  /** The low 32 bits of a value, written as a 32-bit data word, read back
      sign-extended from 32 bits. */
  lemma Data32Word(e: Endian, s: seq<bv8>, o: nat, val: bv64)
    requires o + 4 <= |s|
    ensures ReadField(e, Store32(e, s, o, Trunc32(val)), o, Word32) == Some(SignExtend(val & 0xFFFF_FFFF, I32))
  {
    Trunc32Widens(val);
  }

  lemma Data16Write(rel: Relocation, val: bv64)
    requires rel.rtype == ABS16 || rel.rtype == PREL16
    ensures WriteOf(rel, val) == Data16(Trunc16(val))
    ensures FieldOf(rel.rtype) == Word16
  {
  }

  /** ABS16 and PREL16: the addend read back is the written value's low 16
      bits, sign-extended. So a value relocate accepts as a signed 16-bit
      number reads back as written, while one it accepts only as an unsigned
      16-bit number (in [2^15, 2^16)) reads back 2^16 lower. */
  lemma Data16RoundTrip(e: Endian, s: seq<bv8>, o: nat, rel: Relocation, val: bv64)
    requires rel.rtype == ABS16 || rel.rtype == PREL16
    requires o + 2 <= |s|
    ensures ImplicitAddend(e, RelocateBytes(e, s, o, rel, val), o, rel.rtype)
            == Some(SignExtend(val & 0xFFFF, I16))
    ensures FitsInt(val, I16) ==> ImplicitAddend(e, RelocateBytes(e, s, o, rel, val), o, rel.rtype) == Some(val)
  {
    Data16Write(rel, val);
    Data16Word(e, s, o, val);
    if FitsInt(val, I16) {
      SignExtendField16(val);
    }
  }

  lemma Data32Write(rel: Relocation, val: bv64)
    requires rel.rtype == ABS32 || rel.rtype == PREL32
    ensures WriteOf(rel, val) == Data32(Trunc32(val))
    ensures FieldOf(rel.rtype) == Word32
  {
  }

  /** ABS32 and PREL32: the same with 32 bits. */
  lemma Data32RoundTrip(e: Endian, s: seq<bv8>, o: nat, rel: Relocation, val: bv64)
    requires rel.rtype == ABS32 || rel.rtype == PREL32
    requires o + 4 <= |s|
    ensures ImplicitAddend(e, RelocateBytes(e, s, o, rel, val), o, rel.rtype)
            == Some(SignExtend(val & 0xFFFF_FFFF, I32))
    ensures FitsInt(val, I32) ==> ImplicitAddend(e, RelocateBytes(e, s, o, rel, val), o, rel.rtype) == Some(val)
  {
    Data32Write(rel, val);
    Data32Word(e, s, o, val);
    if FitsInt(val, I32) {
      SignExtendField32(val);
    }
  }

  lemma Data64Write(rel: Relocation, val: bv64)
    requires rel.rtype == ABS64 || rel.rtype == PREL64
    ensures WriteOf(rel, val) == Data64(if rel.rtype == ABS64 && TaggedOutOfBounds(rel) then -rel.addend else val)
    ensures FieldOf(rel.rtype) == Word64
  {
  }

  /** ABS64 and PREL64: the 64-bit word reads back as written, except that
      ABS64 against a memory-tagged symbol with an out-of-bounds addend
      writes, and so reads back, the negated addend. */
  lemma Data64RoundTrip(e: Endian, s: seq<bv8>, o: nat, rel: Relocation, val: bv64)
    requires rel.rtype == ABS64 || rel.rtype == PREL64
    requires o + 8 <= |s|
    ensures ImplicitAddend(e, RelocateBytes(e, s, o, rel, val), o, rel.rtype)
            == Some(if rel.rtype == ABS64 && TaggedOutOfBounds(rel) then -rel.addend else val)
  {
    Data64Write(rel, val);
  }

  /** TLSDESC: the second word of the descriptor reads back as written. */
  lemma TlsDescRoundTrip(e: Endian, s: seq<bv8>, o: nat, rel: Relocation, val: bv64)
    requires rel.rtype == TLSDESC && o + 16 <= |s|
    ensures ImplicitAddend(e, RelocateBytes(e, s, o, rel, val), o, TLSDESC) == Some(val)
  {
  }
}
