// The relocation applier, AArch64::relocate: for each relocation type a
// range check (checkInt / checkUInt / checkIntUInt), an alignment check
// (checkAlignment) and a write into the section buffer. A failed check is
// reported and linking goes on, so the write happens whatever the checks
// say. The switch is modelled in two parts: `Checks` lists the diagnostics
// it reports and `WriteOf` says which field write it performs; the method
// `Relocate` reports the first and performs the second in place.

module Apply {
  import opened Bits
  import opened Bytes
  import opened Insn
  import opened Reloc

  /** A diagnostic reported by relocate. */
  datatype Diag =
    | IntOutOfRange(t: RelType, val: bv64, w: IntWidth)        // checkInt
    | UIntOutOfRange(t: RelType, val: bv64, u: UIntWidth)      // checkUInt
    | IntUIntOutOfRange(t: RelType, val: bv64, u: UIntWidth)   // checkIntUInt
    | Misaligned(t: RelType, val: bv64, align: bv64)           // checkAlignment

  /** An edit of the 32-bit little-endian instruction word at the place. */
  datatype Edit =
    | MaskedField(v: bv32, mask: bv32)   // writeMaskedBits32le
    | BranchWord(v: bv32)                // write32le(B), then the imm26 field
    | AdrField(imm: bv64)                // write32AArch64Addr
    | Imm12Field(imm: bv64)              // write32Imm12
    | SMovWField(simm: bv32)             // writeSMovWImm

  /** The write relocate performs at the place. */
  datatype Write =
    | NoWrite
    | Data16(d16: bv16)                  // write16
    | Data32(d32: bv32)                  // write32
    | Data64(d64: bv64)                  // write64
    | Data64At8(d64: bv64)               // write64 at loc + 8
    | InsnEdit(edit: Edit)

  /** The types relocate's switch handles; any other one is unreachable.
      Each of them has a place: an instruction type's is the 4-byte word. */
  predicate Handled(t: RelType)
    ensures Handled(t) ==> PlaceSize(t) > 0
    ensures Handled(t) && !IsDataType(t) ==> PlaceSize(t) == 4
  {
    match t
    case Other(_) | NONE | TLSDESC_CALL | COPY | GLOB_DAT | AUTH_GLOB_DAT | JUMP_SLOT
      | RELATIVE | IRELATIVE | TLS_TPREL64 => false
    case _ => true
  }

  /** The number of bytes at the place that relocate writes and
      getImplicitAddend reads for the type. */
  function PlaceSize(t: RelType): nat {
    match t
    case ABS16 | PREL16 => 2
    case ABS64 | PREL64 | RELATIVE | IRELATIVE | TLS_TPREL64 => 8
    case TLSDESC => 16
    case NONE | GLOB_DAT | AUTH_GLOB_DAT | JUMP_SLOT => 0
    case _ => 4
  }

  /** The bytes a write covers, counted from the place. */
  function WriteSize(w: Write): nat {
    match w
    case NoWrite => 0
    case Data16(_) => 2
    case Data64(_) => 8
    case Data64At8(_) => 16
    case _ => 4
  }

  /** The check that reported `d` failed for the value it names. */
  predicate Failed(d: Diag) {
    match d
    case IntOutOfRange(_, val, w) => !FitsInt(val, w)
    case UIntOutOfRange(_, val, u) => !FitsUInt(val, u)
    case IntUIntOutOfRange(_, val, u) => !FitsUInt(val, u)
    case Misaligned(_, val, align) => val & (align - 1) != 0
  }

  /** Every diagnostic in `r` is about type `t` and value `val`, and its
      check failed. */
  predicate AllFailed(r: seq<Diag>, t: RelType, val: bv64) {
    forall d | d in r :: d.t == t && d.val == val && Failed(d)
  }

  function IntCheck(t: RelType, val: bv64, w: IntWidth): (r: seq<Diag>)
    ensures |r| <= 1 && AllFailed(r, t, val)
  {
    if FitsInt(val, w) then [] else [IntOutOfRange(t, val, w)]
  }

  function UIntCheck(t: RelType, val: bv64, u: UIntWidth): (r: seq<Diag>)
    ensures |r| <= 1 && AllFailed(r, t, val)
  {
    if FitsUInt(val, u) then [] else [UIntOutOfRange(t, val, u)]
  }

  /** checkIntUInt: the value fits as a signed or as an unsigned number. */
  function IntUIntCheck(t: RelType, val: bv64, u: UIntWidth, w: IntWidth): (r: seq<Diag>)
    ensures |r| <= 1 && AllFailed(r, t, val)
  {
    if FitsInt(val, w) || FitsUInt(val, u) then [] else [IntUIntOutOfRange(t, val, u)]
  }

  /** checkAlignment for a power-of-two alignment. */
  function AlignCheck(t: RelType, val: bv64, align: bv64): (r: seq<Diag>)
    ensures |r| <= 1 && AllFailed(r, t, val)
  {
    if val & (align - 1) == 0 then [] else [Misaligned(t, val, align)]
  }

  predicate IsAdrpType(t: RelType) {
    match t
    case ADR_GOT_PAGE | AUTH_ADR_GOT_PAGE | ADR_PREL_PG_HI21 | TLSIE_ADR_GOTTPREL_PAGE21
      | TLSDESC_ADR_PAGE21 | AUTH_TLSDESC_ADR_PAGE21 => true
    case _ => false
  }

  predicate IsLdr19Type(t: RelType) {
    match t
    case CONDBR19 | LD_PREL_LO19 | GOT_LD_PREL19 | AUTH_GOT_LD_PREL19 => true
    case _ => false
  }

  predicate IsLdst64Type(t: RelType) {
    match t
    case LDST64_ABS_LO12_NC | LD64_GOT_LO12_NC | AUTH_LD64_GOT_LO12_NC
      | TLSIE_LD64_GOTTPREL_LO12_NC | TLSLE_LDST64_TPREL_LO12_NC
      | TLSDESC_LD64_LO12 | AUTH_TLSDESC_LD64_LO12 => true
    case _ => false
  }

  /** The checks one case of relocate's switch makes, with their widths. */
  datatype Check =
    | NoCheck
    | IntRange(w: IntWidth)                         // checkInt
    | UIntRange(u: UIntWidth)                       // checkUInt
    | IntOrUIntRange(u: UIntWidth, w: IntWidth)     // checkIntUInt
    | Aligned(align: bv64)                          // checkAlignment
    | AlignedIntRange(align: bv64, w: IntWidth)     // checkAlignment, then checkInt

  /** The checks relocate makes for each type. */
  function CheckOf(t: RelType): Check {
    match t
    case ABS16 | PREL16 => IntOrUIntRange(U16, I16)
    case ABS32 | PREL32 => IntOrUIntRange(U32, I32)
    case PLT32 | GOTPCREL32 => IntRange(I32)
    case ADR_GOT_PAGE | AUTH_ADR_GOT_PAGE | ADR_PREL_PG_HI21
      | TLSIE_ADR_GOTTPREL_PAGE21 | TLSDESC_ADR_PAGE21
      | AUTH_TLSDESC_ADR_PAGE21 => IntRange(I33)
    case ADR_PREL_LO21 | AUTH_GOT_ADR_PREL_LO21 => IntRange(I21)
    case JUMP26 | CALL26 => IntRange(I28)
    case CONDBR19 | LD_PREL_LO19 | GOT_LD_PREL19 | AUTH_GOT_LD_PREL19 =>
      AlignedIntRange(4, I21)
    case LDST16_ABS_LO12_NC | TLSLE_LDST16_TPREL_LO12_NC => Aligned(2)
    case LDST32_ABS_LO12_NC | TLSLE_LDST32_TPREL_LO12_NC => Aligned(4)
    case LDST64_ABS_LO12_NC | LD64_GOT_LO12_NC | AUTH_LD64_GOT_LO12_NC
      | TLSIE_LD64_GOTTPREL_LO12_NC | TLSLE_LDST64_TPREL_LO12_NC
      | TLSDESC_LD64_LO12 | AUTH_TLSDESC_LD64_LO12 => Aligned(8)
    case LDST128_ABS_LO12_NC | TLSLE_LDST128_TPREL_LO12_NC => Aligned(16)
    case LD64_GOTPAGE_LO15 => Aligned(8)
    case MOVW_UABS_G0 => UIntRange(U16)
    case MOVW_UABS_G1 => UIntRange(U32)
    case MOVW_UABS_G2 => UIntRange(U48)
    case MOVW_PREL_G0 | MOVW_SABS_G0 | TLSLE_MOVW_TPREL_G0 => IntRange(I17)
    case MOVW_PREL_G1 | MOVW_SABS_G1 | TLSLE_MOVW_TPREL_G1 => IntRange(I33)
    case MOVW_PREL_G2 | MOVW_SABS_G2 | TLSLE_MOVW_TPREL_G2 => IntRange(I49)
    case TSTBR14 => IntRange(I16)
    case TLSLE_ADD_TPREL_HI12 => UIntRange(U24)
    case _ => NoCheck
  }

  /** The diagnostics the checks `c` report for `val`, in the order made. */
  function RunCheck(c: Check, t: RelType, val: bv64): seq<Diag> {
    match c
    case NoCheck => []
    case IntRange(w) => IntCheck(t, val, w)
    case UIntRange(u) => UIntCheck(t, val, u)
    case IntOrUIntRange(u, w) => IntUIntCheck(t, val, u, w)
    case Aligned(align) => AlignCheck(t, val, align)
    case AlignedIntRange(align, w) => AlignCheck(t, val, align) + IntCheck(t, val, w)
  }

  /** The diagnostics relocate reports for `val`, in the order it checks. */
  function Checks(t: RelType, val: bv64): seq<Diag> {
    RunCheck(CheckOf(t), t, val)
  }

  /** At most two checks are made, and each diagnostic is for one that
      failed. */
  lemma RunCheckFailed(c: Check, t: RelType, val: bv64)
    ensures |RunCheck(c, t, val)| <= 2
    ensures AllFailed(RunCheck(c, t, val), t, val)
  {
    if c.AlignedIntRange? {
      BothFailed(AlignCheck(t, val, c.align), IntCheck(t, val, c.w), t, val);
    }
  }

  /** Every diagnostic relocate reports is about the relocation's type and
      value, and for a check that the value fails; there are at most two. */
  lemma ChecksFailed(t: RelType, val: bv64)
    ensures |Checks(t, val)| <= 2
    ensures AllFailed(Checks(t, val), t, val)
  {
    RunCheckFailed(CheckOf(t), t, val);
  }

  /** A type relocate does not handle reports nothing. */
  lemma UnhandledChecks(t: RelType, val: bv64)
    requires !Handled(t)
    ensures Checks(t, val) == []
  {
    assert CheckOf(t) == NoCheck;
  }

  lemma BothFailed(a: seq<Diag>, b: seq<Diag>, t: RelType, val: bv64)
    requires AllFailed(a, t, val) && AllFailed(b, t, val)
    ensures AllFailed(a + b, t, val)
  {
  }

  /** The low 16 bits, as a conversion to a 16-bit integer keeps them. */
  function Trunc16(x: bv64): bv16 {
    (x & 0xFFFF) as bv16
  }

  /** The low 32 bits, as a conversion to a 32-bit integer keeps them. */
  function Trunc32(x: bv64): bv32 {
    (x & 0xFFFF_FFFF) as bv32
  }

  /** The ABS64 carve-out for memory-tagged symbols (Arm MTE ELF ABI, section
      8.4.1): an addend outside the symbol's bounds is written negated, as
      the offset from which the tag is derived. */
  predicate TaggedOutOfBounds(rel: Relocation)
  {
    rel.sym != null && rel.sym.isTagged
    && (SignedLt(rel.addend, 0) || !SignedLt(rel.addend, rel.sym.size))
  }

  /** The types whose place is a data word rather than an instruction. */
  predicate IsDataType(t: RelType) {
    match t
    case ABS16 | PREL16 | ABS32 | PREL32 | PLT32 | GOTPCREL32 | ABS64 | PREL64
      | AUTH_ABS64 | TLSDESC => true
    case _ => false
  }

  /** The write relocate performs for `rel` and `val`. It never reaches
      beyond the place. */
  function WriteOf(rel: Relocation, val: bv64): (w: Write)
    requires Handled(rel.rtype)
    ensures WriteSize(w) <= PlaceSize(rel.rtype)
  {
    if IsDataType(rel.rtype) then DataWriteOf(rel, val) else InsnEdit(EditOf(rel.rtype, val))
  }

  /** The data-word cases of relocate's switch. */
  function DataWriteOf(rel: Relocation, val: bv64): (w: Write)
    requires IsDataType(rel.rtype)
    ensures WriteSize(w) <= PlaceSize(rel.rtype)
  {
    match rel.rtype
    case ABS16 | PREL16 => Data16(Trunc16(val))
    case ABS32 | PREL32 | PLT32 | GOTPCREL32 => Data32(Trunc32(val))
    case ABS64 => if TaggedOutOfBounds(rel) then Data64(-rel.addend) else Data64(val)
    case PREL64 => Data64(val)
    case AUTH_ABS64 => if FitsInt(val, I32) then Data32(Trunc32(val)) else NoWrite
    case TLSDESC => Data64At8(val)
  }

  /** The instruction cases of relocate's switch. The field masks are
      written as their values: 0x03FF_FFFF is imm26 (0x0FFFFFFC >> 2),
      0xFF_FFE0 is imm19 (0x1FFFFC << 3), 0x7_FFE0 is imm14 (0xFFFC << 3)
      and Imm16Mask the MOVW immediate of every group. */
  function EditOf(t: RelType, val: bv64): Edit
    requires Handled(t) && !IsDataType(t)
  {
    match t
    case ADD_ABS_LO12_NC | AUTH_GOT_ADD_LO12_NC => Imm12Field(val)
    case ADR_GOT_PAGE | AUTH_ADR_GOT_PAGE | ADR_PREL_PG_HI21
      | TLSIE_ADR_GOTTPREL_PAGE21 | TLSDESC_ADR_PAGE21
      | AUTH_TLSDESC_ADR_PAGE21 | ADR_PREL_PG_HI21_NC => AdrField(val >> 12)
    case ADR_PREL_LO21 | AUTH_GOT_ADR_PREL_LO21 => AdrField(val)
    case JUMP26 => BranchWord(Imm26Of(val))
    case CALL26 => MaskedField(Imm26Of(val), 0x03FF_FFFF)
    case CONDBR19 | LD_PREL_LO19 | GOT_LD_PREL19 | AUTH_GOT_LD_PREL19 =>
      MaskedField(Imm19Of(val), 0xFF_FFE0)
    case LDST8_ABS_LO12_NC | TLSLE_LDST8_TPREL_LO12_NC => Imm12Field(GetBits(val, 0, 11))
    case LDST16_ABS_LO12_NC | TLSLE_LDST16_TPREL_LO12_NC => Imm12Field(GetBits(val, 1, 11))
    case LDST32_ABS_LO12_NC | TLSLE_LDST32_TPREL_LO12_NC => Imm12Field(GetBits(val, 2, 11))
    case LDST64_ABS_LO12_NC | LD64_GOT_LO12_NC | AUTH_LD64_GOT_LO12_NC
      | TLSIE_LD64_GOTTPREL_LO12_NC | TLSLE_LDST64_TPREL_LO12_NC
      | TLSDESC_LD64_LO12 | AUTH_TLSDESC_LD64_LO12 => Imm12Field(GetBits(val, 3, 11))
    case LDST128_ABS_LO12_NC | TLSLE_LDST128_TPREL_LO12_NC => Imm12Field(GetBits(val, 4, 11))
    case LD64_GOTPAGE_LO15 => Imm12Field(GetBits(val, 3, 14))
    case MOVW_UABS_G0 | MOVW_UABS_G0_NC => MaskedField(MovwG0Of(val), Imm16Mask)
    case MOVW_UABS_G1 | MOVW_UABS_G1_NC => MaskedField(MovwG1Of(val), Imm16Mask)
    case MOVW_UABS_G2 | MOVW_UABS_G2_NC => MaskedField(MovwG2Of(val), Imm16Mask)
    case MOVW_UABS_G3 => MaskedField(MovwG3Of(val), Imm16Mask)
    case MOVW_PREL_G0 | MOVW_SABS_G0 | TLSLE_MOVW_TPREL_G0
      | MOVW_PREL_G0_NC | TLSLE_MOVW_TPREL_G0_NC => SMovWField(Trunc32(val))
    case MOVW_PREL_G1 | MOVW_SABS_G1 | TLSLE_MOVW_TPREL_G1
      | MOVW_PREL_G1_NC | TLSLE_MOVW_TPREL_G1_NC => SMovWField(Trunc32(val >> 16))
    case MOVW_PREL_G2 | MOVW_SABS_G2 | TLSLE_MOVW_TPREL_G2
      | MOVW_PREL_G2_NC => SMovWField(Trunc32(val >> 32))
    case MOVW_PREL_G3 => SMovWField(Trunc32(val >> 48))
    case TSTBR14 => MaskedField(Imm14Of(val), 0x7_FFE0)
    case TLSLE_ADD_TPREL_HI12 => Imm12Field(val >> 12)
    case TLSLE_ADD_TPREL_LO12_NC | TLSDESC_ADD_LO12 | AUTH_TLSDESC_ADD_LO12 => Imm12Field(val)
  }

  /** (val & 0x0FFFFFFC) >> 2: the imm26 field of B and BL. */
  function Imm26Of(val: bv64): (v: bv32)
    ensures v & !0x03FF_FFFF == 0
  {
    Trunc32((val & 0x0FFF_FFFC) >> 2)
  }

  /** (val & 0x1FFFFC) << 3: the imm19 field of B.cond and LDR (literal). */
  function Imm19Of(val: bv64): (v: bv32)
    ensures v & !0xFF_FFE0 == 0
  {
    Trunc32((val & 0x1F_FFFC) << 3)
  }

  /** (val & 0xFFFC) << 3: the imm14 field of TBZ and TBNZ. */
  function Imm14Of(val: bv64): (v: bv32)
    ensures v & !0x7_FFE0 == 0
  {
    Trunc32((val & 0xFFFC) << 3)
  }

  /** The imm16 field of MOVZ/MOVK for bits 0..15 of val. */
  function MovwG0Of(val: bv64): (v: bv32)
    ensures v & !Imm16Mask == 0
  {
    Trunc32((val & 0xFFFF) << 5)
  }

  /** The imm16 field of MOVZ/MOVK for bits 16..31 of val. */
  function MovwG1Of(val: bv64): (v: bv32)
    ensures v & !Imm16Mask == 0
  {
    Trunc32((val & 0xFFFF_0000) >> 11)
  }

  /** The imm16 field of MOVZ/MOVK for bits 32..47 of val. */
  function MovwG2Of(val: bv64): (v: bv32)
    ensures v & !Imm16Mask == 0
  {
    Trunc32((val & 0xFFFF_0000_0000) >> 27)
  }

  /** The imm16 field of MOVZ/MOVK for bits 48..63 of val. */
  function MovwG3Of(val: bv64): (v: bv32)
    ensures v & !Imm16Mask == 0
  {
    Trunc32((val & 0xFFFF_0000_0000_0000) >> 43)
  }

  /** A masked edit's value lies inside its mask, and a branch's inside
      imm26: the write changes no bit outside the field. */
  predicate EditInField(r: Edit) {
    (r.MaskedField? ==> r.v & !r.mask == 0)
    && (r.BranchWord? ==> r.v & !0x03FF_FFFF == 0)
  }

  /** No instruction edit of relocate writes outside its field. */
  lemma EditOfInField(t: RelType, val: bv64)
    requires Handled(t) && !IsDataType(t)
    ensures EditInField(EditOf(t, val))
  {
    if t == JUMP26 || t == CALL26 {
      Imm26EditInField(t, val);
    } else if IsLdr19Type(t) {
      Imm19EditInField(t, val);
    } else if t == TSTBR14 {
      Imm14EditInField(t, val);
    } else if t == MOVW_UABS_G0 || t == MOVW_UABS_G0_NC || t == MOVW_UABS_G1 || t == MOVW_UABS_G1_NC {
      MovwLowEditInField(t, val);
    } else if IsMovwUAbsType(t) {
      MovwHighEditInField(t, val);
    } else {
      UnmaskedEdit(t, val);
    }
  }

  predicate IsMovwUAbsType(t: RelType) {
    match t
    case MOVW_UABS_G0 | MOVW_UABS_G0_NC | MOVW_UABS_G1 | MOVW_UABS_G1_NC
      | MOVW_UABS_G2 | MOVW_UABS_G2_NC | MOVW_UABS_G3 => true
    case _ => false
  }

  lemma Imm26EditInField(t: RelType, val: bv64)
    requires t == JUMP26 || t == CALL26
    ensures EditInField(EditOf(t, val))
  {
    if t == JUMP26 {
      assert EditOf(t, val) == BranchWord(Imm26Of(val));
    } else {
      assert EditOf(t, val) == MaskedField(Imm26Of(val), 0x03FF_FFFF);
    }
  }

  lemma Imm19EditInField(t: RelType, val: bv64)
    requires IsLdr19Type(t)
    ensures EditInField(EditOf(t, val))
  {
    var v := Imm19Of(val);
    assert EditOf(t, val) == MaskedField(v, 0xFF_FFE0);
    assert v & !0xFF_FFE0 == 0;
  }

  lemma Imm14EditInField(t: RelType, val: bv64)
    requires t == TSTBR14
    ensures EditInField(EditOf(t, val))
  {
    var v := Imm14Of(val);
    assert EditOf(t, val) == MaskedField(v, 0x7_FFE0);
    assert v & !0x7_FFE0 == 0;
  }

  lemma MovwLowEditInField(t: RelType, val: bv64)
    requires t == MOVW_UABS_G0 || t == MOVW_UABS_G0_NC || t == MOVW_UABS_G1 || t == MOVW_UABS_G1_NC
    ensures EditInField(EditOf(t, val))
  {
    if t == MOVW_UABS_G0 || t == MOVW_UABS_G0_NC {
      assert EditOf(t, val) == MaskedField(MovwG0Of(val), Imm16Mask);
    } else {
      assert EditOf(t, val) == MaskedField(MovwG1Of(val), Imm16Mask);
    }
  }

  lemma MovwHighEditInField(t: RelType, val: bv64)
    requires t == MOVW_UABS_G2 || t == MOVW_UABS_G2_NC || t == MOVW_UABS_G3
    ensures EditInField(EditOf(t, val))
  {
    if t == MOVW_UABS_G3 {
      assert EditOf(t, val) == MaskedField(MovwG3Of(val), Imm16Mask);
    } else {
      assert EditOf(t, val) == MaskedField(MovwG2Of(val), Imm16Mask);
    }
  }

  /** The other instruction edits write a whole immediate field. */
  lemma UnmaskedEdit(t: RelType, val: bv64)
    requires Handled(t) && !IsDataType(t)
    requires t != JUMP26 && t != CALL26 && !IsLdr19Type(t) && t != TSTBR14 && !IsMovwUAbsType(t)
    ensures EditInField(EditOf(t, val))
  {
    var r := EditOf(t, val);
    assert r.Imm12Field? || r.AdrField? || r.SMovWField?;
  }

  /** The instruction word an edit leaves in place of `insn`. JUMP26 first
      replaces the word by a B (0x14000000) and then sets its imm26 field. */
  function EditWord(insn: bv32, edit: Edit): bv32 {
    match edit
    case MaskedField(v, mask) => MaskedWord(insn, v, mask)
    case BranchWord(v) => MaskedWord(0x1400_0000, v, 0x03FF_FFFF)
    case AdrField(imm) => AdrImmWord(insn, imm)
    case Imm12Field(imm) => Imm12Word(insn, imm)
    case SMovWField(imm) => SMovWImmWord(insn, imm)
  }

  /** The buffer after the instruction edit `edit` at offset `o`. */
  function ApplyEdit(s: seq<bv8>, o: nat, edit: Edit): (r: seq<bv8>)
    requires o + 4 <= |s|
    ensures |r| == |s|
  {
    Store32le(s, o, EditWord(Load32le(s, o), edit))
  }

  /** The buffer after the write `w` at offset `o`. */
  function ApplyWrite(e: Endian, s: seq<bv8>, o: nat, w: Write): (r: seq<bv8>)
    requires o + WriteSize(w) <= |s|
    ensures |r| == |s|
  {
    match w
    case NoWrite => s
    case Data16(d) => Store16(e, s, o, d)
    case Data32(d) => Store32(e, s, o, d)
    case Data64(d) => Store64(e, s, o, d)
    case Data64At8(d) => Store64(e, s, o + 8, d)
    case InsnEdit(edit) => ApplyEdit(s, o, edit)
  }

  /** The section contents after relocate(loc = o, rel, val). */
  function RelocateBytes(e: Endian, s: seq<bv8>, o: nat, rel: Relocation, val: bv64): (r: seq<bv8>)
    requires Handled(rel.rtype) && o + PlaceSize(rel.rtype) <= |s|
    ensures |r| == |s|
  {
    ApplyWrite(e, s, o, WriteOf(rel, val))
  }

  /** Performs the instruction edit `edit` in place. */
  method PerformEdit(buf: array<bv8>, o: nat, edit: Edit)
    requires o + 4 <= buf.Length
    modifies buf
    ensures buf[..] == ApplyEdit(old(buf[..]), o, edit)
  {
    match edit
    case MaskedField(v, mask) => WriteMaskedBits32le(buf, o, v, mask);
    case BranchWord(v) =>
      Write32le(buf, o, 0x1400_0000);
      WriteMaskedBits32le(buf, o, v, 0x03FF_FFFF);
      StoreStore32le(old(buf[..]), o, 0x1400_0000, MaskedWord(0x1400_0000, v, 0x03FF_FFFF));
    case AdrField(imm) => Write32AArch64Addr(buf, o, imm);
    case Imm12Field(imm) => Write32Imm12(buf, o, imm);
    case SMovWField(imm) => WriteSMovWImm(buf, o, imm);
  }

  /** Performs the write `w` in place. */
  method PerformWrite(e: Endian, buf: array<bv8>, o: nat, w: Write)
    requires o + WriteSize(w) <= buf.Length
    modifies buf
    ensures buf[..] == ApplyWrite(e, old(buf[..]), o, w)
  {
    match w
    case NoWrite =>
    case Data16(d) => Write16(e, buf, o, d);
    case Data32(d) => Write32(e, buf, o, d);
    case Data64(d) => Write64(e, buf, o, d);
    case Data64At8(d) => Write64(e, buf, o + 8, d);
    case InsnEdit(edit) => PerformEdit(buf, o, edit);
  }

  /** relocate(loc, rel, val) with loc = buf + o: reports the failed checks
      and performs the type's write. */
  method Relocate(e: Endian, buf: array<bv8>, o: nat, rel: Relocation, val: bv64)
      returns (diags: seq<Diag>)
    requires Handled(rel.rtype) && o + PlaceSize(rel.rtype) <= buf.Length
    modifies buf
    ensures diags == Checks(rel.rtype, val)
    ensures buf[..] == RelocateBytes(e, old(buf[..]), o, rel, val)
  {
    diags := Checks(rel.rtype, val);
    var w := WriteOf(rel, val);
    PerformWrite(e, buf, o, w);
  }

  /** write32le(loc, insn) followed by relocate(loc, rel, val) for an
      instruction type: a fresh instruction with its immediate filled in. */
  method WriteRelocated(e: Endian, buf: array<bv8>, o: nat, insn: bv32, rel: Relocation, val: bv64)
      returns (diags: seq<Diag>)
    requires Handled(rel.rtype) && !IsDataType(rel.rtype)
    requires o + PlaceSize(rel.rtype) <= buf.Length && o + 4 <= buf.Length
    modifies buf
    ensures diags == Checks(rel.rtype, val)
    ensures buf[..] == Store32le(old(buf[..]), o, EditWord(insn, EditOf(rel.rtype, val)))
  {
    Write32le(buf, o, insn);
    ghost var s1 := buf[..];
    diags := Relocate(e, buf, o, rel, val);
    assert buf[..] == Store32le(s1, o, EditWord(insn, EditOf(rel.rtype, val)));
    StoreStore32le(old(buf[..]), o, insn, EditWord(insn, EditOf(rel.rtype, val)));
  }

  // ---- what the checks and the field writes promise -------------------------

  /** ADR_PREL_PG_HI21 (the page relocation of ADRP; the GOT, TLS and
      descriptor page relocations share its case): relocate reports nothing
      exactly when the page difference fits a signed 33-bit value. The _NC
      form is not checked. */
  lemma AdrpChecks(val: bv64)
    ensures Checks(ADR_PREL_PG_HI21, val) == [] <==> FitsInt(val, I33)
    ensures Checks(ADR_PREL_PG_HI21_NC, val) == []
  {
  }

  /** LDST8_ABS_LO12_NC: no check; the immediate is the value's offset in
      its page. */
  lemma Ldst8Field(val: bv64)
    ensures Checks(LDST8_ABS_LO12_NC, val) == []
    ensures EditOf(LDST8_ABS_LO12_NC, val) == Imm12Field(val & 0xFFF)
  {
  }

  /** LDST16_ABS_LO12_NC: relocate reports nothing exactly when the value is
      2-byte aligned, and then the immediate it writes, scaled by 2, is the
      value's offset in its page. */
  lemma Ldst16Field(val: bv64)
    ensures Checks(LDST16_ABS_LO12_NC, val) == [] <==> val & 1 == 0
    ensures EditOf(LDST16_ABS_LO12_NC, val) == Imm12Field(GetBits(val, 1, 11))
    ensures val & 1 == 0 ==> GetBits(val, 1, 11) << 1 == val & 0xFFF
  {
    assert Checks(LDST16_ABS_LO12_NC, val) == AlignCheck(LDST16_ABS_LO12_NC, val, 2);
    assert EditOf(LDST16_ABS_LO12_NC, val) == Imm12Field(GetBits(val, 1, 11));
    assert GetBits(val, 1, 11) == (val >> 1) & 0x7FF;
  }

  /** LDST32_ABS_LO12_NC: relocate reports nothing exactly when the value is
      4-byte aligned, and then the immediate it writes, scaled by 4, is the
      value's offset in its page. */
  lemma Ldst32Field(val: bv64)
    ensures Checks(LDST32_ABS_LO12_NC, val) == [] <==> val & 3 == 0
    ensures EditOf(LDST32_ABS_LO12_NC, val) == Imm12Field(GetBits(val, 2, 11))
    ensures val & 3 == 0 ==> GetBits(val, 2, 11) << 2 == val & 0xFFF
  {
    assert Checks(LDST32_ABS_LO12_NC, val) == AlignCheck(LDST32_ABS_LO12_NC, val, 4);
    assert EditOf(LDST32_ABS_LO12_NC, val) == Imm12Field(GetBits(val, 2, 11));
    assert GetBits(val, 2, 11) == (val >> 2) & 0x3FF;
  }

  /** LDST64_ABS_LO12_NC: relocate reports nothing exactly when the value is
      8-byte aligned, and then the immediate it writes, scaled by 8, is the
      value's offset in its page. */
  lemma Ldst64Field(val: bv64)
    ensures Checks(LDST64_ABS_LO12_NC, val) == [] <==> val & 7 == 0
    ensures EditOf(LDST64_ABS_LO12_NC, val) == Imm12Field(GetBits(val, 3, 11))
    ensures val & 7 == 0 ==> GetBits(val, 3, 11) << 3 == val & 0xFFF
  {
    assert Checks(LDST64_ABS_LO12_NC, val) == AlignCheck(LDST64_ABS_LO12_NC, val, 8);
    assert EditOf(LDST64_ABS_LO12_NC, val) == Imm12Field(GetBits(val, 3, 11));
    assert GetBits(val, 3, 11) == (val >> 3) & 0x1FF;
  }

  /** LDST128_ABS_LO12_NC: relocate reports nothing exactly when the value is
      16-byte aligned, and then the immediate it writes, scaled by 16, is the
      value's offset in its page. */
  lemma Ldst128Field(val: bv64)
    ensures Checks(LDST128_ABS_LO12_NC, val) == [] <==> val & 15 == 0
    ensures EditOf(LDST128_ABS_LO12_NC, val) == Imm12Field(GetBits(val, 4, 11))
    ensures val & 15 == 0 ==> GetBits(val, 4, 11) << 4 == val & 0xFFF
  {
    assert Checks(LDST128_ABS_LO12_NC, val) == AlignCheck(LDST128_ABS_LO12_NC, val, 16);
    assert EditOf(LDST128_ABS_LO12_NC, val) == Imm12Field(GetBits(val, 4, 11));
    assert GetBits(val, 4, 11) == (val >> 4) & 0xFF;
  }
}
