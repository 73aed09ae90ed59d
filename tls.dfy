// The TLS relaxations: relaxTlsGdToLe and relaxTlsGdToIe rewrite the
// four-instruction TLS descriptor sequence
//   adrp x0, :tlsdesc:v ; ldr x1, [x0, :tlsdesc_lo12:v] ;
//   add x0, x0, :tlsdesc_lo12:v ; .tlsdesccall v ; blr x1
// into an offset materialised in x0 (local exec) or loaded from the GOT
// (initial exec); relaxTlsIeToLe rewrites an initial-exec ADRP/LDR pair
// into a MOVZ/MOVK pair on the same register. Each is a pure function on
// the instruction word and a method that writes it into the buffer.

module Tls {
  import opened Bits
  import opened Bytes
  import opened Insn
  import opened Reloc
  import opened Apply
  import opened RoundTrip

  /** MOVZ X0, #0, LSL #16 (hw = 1). */
  const MovzX0Lsl16: bv32 := 0xd2a0_0000

  /** MOVK X0, #0 (hw = 0). */
  const MovkX0: bv32 := 0xf280_0000

  /** LDR X0, [X0] (64-bit, unsigned offset). */
  const LdrX0: bv32 := 0xf940_0000

  /** The four relocations of a TLS descriptor sequence. */
  predicate IsTlsDescType(t: RelType) {
    t in {TLSDESC_ADR_PAGE21, TLSDESC_LD64_LO12, TLSDESC_ADD_LO12, TLSDESC_CALL}
  }

  /** The two relocations of an initial-exec ADRP/LDR pair. */
  predicate IsTlsIeType(t: RelType) {
    t in {TLSIE_ADR_GOTTPREL_PAGE21, TLSIE_LD64_GOTTPREL_LO12_NC}
  }

  /** relocateNoSym(loc, t, val): relocate with a relocation that has no
      symbol, no addend and expression kind R_NONE. */
  function NoSym(t: RelType): (r: Relocation)
    ensures r.rtype == t && r.sym == null && r.addend == 0
  {
    Relocation(NoneExpr, t, 0, 0, null)
  }

  /** A MOVZ/MOVK word: the opcode and register bits of `op` with the low
      16 bits of `imm` as imm16. */
  function MovWideWord(op: bv32, imm: bv64): (w: bv32)
    requires op & Imm16Mask == 0
    ensures w & !Imm16Mask == op
    ensures Imm16(w) == imm & 0xFFFF
  {
    MovWideKeeps(op, imm);
    MovWideImm(op, imm);
    op | (Low16(imm) << 5)
  }

  /** Bits 0-15 of a 64-bit value. */
  function Low16(x: bv64): (h: bv32)
    ensures h & !0xFFFF == 0
  {
    (x & 0xFFFF) as bv32
  }

  lemma MovWideKeeps(op: bv32, imm: bv64)
    requires op & Imm16Mask == 0
    ensures (op | (Low16(imm) << 5)) & !Imm16Mask == op
  {
  }

  lemma MovWideImm(op: bv32, imm: bv64)
    requires op & Imm16Mask == 0
    ensures Imm16(op | (Low16(imm) << 5)) == imm & 0xFFFF
  {
  }

  // ---- general dynamic to local exec ---------------------------------------

  /** relaxTlsGdToLe on the word: the ADRP becomes MOVZ X0 with bits 16-31
      of the offset, the LDR becomes MOVK X0 with bits 0-15, the ADD and the
      call become NOPs. */
  function GdToLeWord(t: RelType, val: bv64): (w: bv32)
    requires IsTlsDescType(t)
    ensures t == TLSDESC_ADD_LO12 || t == TLSDESC_CALL ==> w == Nop
    ensures t == TLSDESC_ADR_PAGE21 ==> w & !Imm16Mask == MovzX0Lsl16 && Imm16(w) == (val >> 16) & 0xFFFF
    ensures t == TLSDESC_LD64_LO12 ==> w & !Imm16Mask == MovkX0 && Imm16(w) == val & 0xFFFF
  {
    if t == TLSDESC_ADR_PAGE21 then MovWideWord(MovzX0Lsl16, val >> 16)
    else if t == TLSDESC_LD64_LO12 then MovWideWord(MovkX0, val)
    else Nop
  }

  /** The two 16-bit halves put back together: bits 16-31 shifted up and or-ed
      with bits 0-15 give a value below 2^32 back. */
  lemma Halves(val: bv64)
    requires FitsUInt(val, U32)
    ensures (((val >> 16) & 0xFFFF) << 16) | (val & 0xFFFF) == val
  {
  }

  /** The relaxed sequence leaves the thread-pointer offset in X0: MOVZ with
      LSL #16 sets bits 16-31 (clearing the rest) and MOVK then sets bits
      0-15, which for an offset that passes the check is the offset. */
  lemma GdToLeMaterialises(val: bv64)
    requires FitsUInt(val, U32)
    ensures (Imm16(GdToLeWord(TLSDESC_ADR_PAGE21, val)) << 16) | Imm16(GdToLeWord(TLSDESC_LD64_LO12, val)) == val
  {
    Halves(val);
  }

  /** relaxTlsGdToLe(loc = buf + o, rel, val): checks that the offset is an
      unsigned 32-bit value and writes the relaxed instruction. */
  method RelaxTlsGdToLe(buf: array<bv8>, o: nat, rel: Relocation, val: bv64)
      returns (diags: seq<Diag>)
    requires IsTlsDescType(rel.rtype) && o + 4 <= buf.Length
    modifies buf
    ensures diags == UIntCheck(rel.rtype, val, U32)
    ensures buf[..] == Store32le(old(buf[..]), o, GdToLeWord(rel.rtype, val))
  {
    diags := UIntCheck(rel.rtype, val, U32);
    if rel.rtype == TLSDESC_ADD_LO12 || rel.rtype == TLSDESC_CALL {
      Write32le(buf, o, Nop);
    } else if rel.rtype == TLSDESC_ADR_PAGE21 {
      Write32le(buf, o, MovWideWord(MovzX0Lsl16, val >> 16));
    } else {
      Write32le(buf, o, MovWideWord(MovkX0, val));
    }
  }

  // ---- general dynamic to initial exec -------------------------------------

  /** relaxTlsGdToIe on the word: the ADRP becomes ADRP X0 of the GOT entry's
      page, the LDR becomes LDR X0 of the entry, the ADD and the call become
      NOPs. */
  function GdToIeWord(t: RelType, val: bv64): (w: bv32)
    requires IsTlsDescType(t)
    ensures t == TLSDESC_ADD_LO12 || t == TLSDESC_CALL ==> w == Nop
    ensures t == TLSDESC_ADR_PAGE21 ==> w & !AdrImmMask == AdrpX0
    ensures t == TLSDESC_LD64_LO12 ==> w & !Imm12Mask == LdrX0 && Imm12(w) == GetBits(val, 3, 11)
  {
    if t == TLSDESC_ADR_PAGE21 then AdrImmWord(AdrpX0, val >> 12)
    else if t == TLSDESC_LD64_LO12 then Imm12Word(LdrX0, GetBits(val, 3, 11))
    else Nop
  }

  lemma TlsIeAdrEdit(t: RelType, insn: bv32, val: bv64)
    requires t == TLSIE_ADR_GOTTPREL_PAGE21
    ensures EditWord(insn, EditOf(t, val)) == AdrImmWord(insn, val >> 12)
  {
    assert EditOf(t, val) == AdrField(val >> 12);
  }

  lemma TlsIeLdrEdit(t: RelType, insn: bv32, val: bv64)
    requires t == TLSIE_LD64_GOTTPREL_LO12_NC
    ensures EditWord(insn, EditOf(t, val)) == Imm12Word(insn, GetBits(val, 3, 11))
  {
    TlsIeLdrImm(t, val);
  }

  lemma TlsIeLdrImm(t: RelType, val: bv64)
    requires t == TLSIE_LD64_GOTTPREL_LO12_NC
    ensures EditOf(t, val) == Imm12Field(GetBits(val, 3, 11))
  {
  }

  /** The ADRP's immediate, sign-extended and scaled by the page size, is a
      page difference in [-2^32, 2^32) that passes the check. */
  lemma GdToIePage(val: bv64)
    requires FitsInt(val, I33)
    ensures SignExtend(AdrImm(GdToIeWord(TLSDESC_ADR_PAGE21, val)), I21) << 12 == val & !0xFFF
  {
    AdrpField(AdrpX0, val);
  }

  /** The LDR's immediate, scaled by 8, is the GOT entry's offset in its
      page when the entry is 8-byte aligned (the alignment check passes). */
  lemma GdToIeOffset(got: bv64)
    requires got & 7 == 0
    ensures Imm12(GdToIeWord(TLSDESC_LD64_LO12, got)) << 3 == got & 0xFFF
  {
    LowBits(got);
  }

  lemma LowBits(got: bv64)
    requires got & 7 == 0
    ensures GetBits(got, 3, 11) << 3 == got & 0xFFF
  {
  }

  /** The relaxed ADRP/LDR pair addresses the GOT entry `got` from the
      place `p`: the ADRP adds the difference between the two pages, and
      the LDR's offset is the entry's offset in its page, when both
      relocations pass their checks. */
  lemma GdToIeAddressesEntry(p: bv64, got: bv64)
    requires FitsInt(Page(got) - Page(p), I33) && got & 7 == 0
    ensures SignExtend(AdrImm(GdToIeWord(TLSDESC_ADR_PAGE21, Page(got) - Page(p))), I21) << 12
            == Page(got) - Page(p)
    ensures Imm12(GdToIeWord(TLSDESC_LD64_LO12, got)) << 3 == got - Page(got)
  {
    forall val: bv64 | FitsInt(val, I33)
      ensures SignExtend(AdrImm(GdToIeWord(TLSDESC_ADR_PAGE21, val)), I21) << 12 == val & !0xFFF
    {
      GdToIePage(val);
    }
    GdToIeOffset(got);
    SubAligned(Page(got), Page(p));
  }

  /** The diagnostics relaxTlsGdToIe reports: those of the initial-exec
      relocation it applies to the ADRP or the LDR, none for the ADD and the
      call, which become NOPs. */
  function GdToIeDiags(t: RelType, val: bv64): seq<Diag> {
    if t == TLSDESC_ADR_PAGE21 then Checks(TLSIE_ADR_GOTTPREL_PAGE21, val)
    else if t == TLSDESC_LD64_LO12 then Checks(TLSIE_LD64_GOTTPREL_LO12_NC, val)
    else []
  }

  /** relaxTlsGdToIe(loc = buf + o, rel, val): writes the relaxed
      instruction; for the ADRP and the LDR it writes the bare instruction
      and relocates it as the initial-exec GOT relocation, reporting that
      relocation's checks. */
  method RelaxTlsGdToIe(e: Endian, buf: array<bv8>, o: nat, rel: Relocation, val: bv64)
      returns (diags: seq<Diag>)
    requires IsTlsDescType(rel.rtype) && o + 4 <= buf.Length
    modifies buf
    ensures diags == GdToIeDiags(rel.rtype, val)
    ensures buf[..] == Store32le(old(buf[..]), o, GdToIeWord(rel.rtype, val))
  {
    if rel.rtype == TLSDESC_ADD_LO12 || rel.rtype == TLSDESC_CALL {
      Write32le(buf, o, Nop);
      diags := [];
    } else if rel.rtype == TLSDESC_ADR_PAGE21 {
      diags := GdToIeAdrp(e, buf, o, val);
    } else {
      diags := GdToIeLdr(e, buf, o, val);
    }
  }

  /** The ADRP case of relaxTlsGdToIe: a bare ADRP X0 relocated as the
      initial-exec page relocation. */
  method GdToIeAdrp(e: Endian, buf: array<bv8>, o: nat, val: bv64) returns (diags: seq<Diag>)
    requires o + 4 <= buf.Length
    modifies buf
    ensures diags == GdToIeDiags(TLSDESC_ADR_PAGE21, val)
    ensures buf[..] == Store32le(old(buf[..]), o, GdToIeWord(TLSDESC_ADR_PAGE21, val))
  {
    diags := WriteRelocated(e, buf, o, AdrpX0, NoSym(TLSIE_ADR_GOTTPREL_PAGE21), val);
    TlsIeAdrEdit(TLSIE_ADR_GOTTPREL_PAGE21, AdrpX0, val);
  }

  /** The LDR case of relaxTlsGdToIe: a bare LDR X0, [X0] relocated as the
      initial-exec GOT load relocation. */
  method GdToIeLdr(e: Endian, buf: array<bv8>, o: nat, val: bv64) returns (diags: seq<Diag>)
    requires o + 4 <= buf.Length
    modifies buf
    ensures diags == GdToIeDiags(TLSDESC_LD64_LO12, val)
    ensures buf[..] == Store32le(old(buf[..]), o, GdToIeWord(TLSDESC_LD64_LO12, val))
  {
    diags := WriteRelocated(e, buf, o, LdrX0, NoSym(TLSIE_LD64_GOTTPREL_LO12_NC), val);
    TlsIeLdrEdit(TLSIE_LD64_GOTTPREL_LO12_NC, LdrX0, val);
  }

  // ---- initial exec to local exec ------------------------------------------

  /** relaxTlsIeToLe on the word `insn`: the ADRP becomes MOVZ with bits
      16-31 of the offset, the LDR becomes MOVK with bits 0-15, each on the
      register the instruction wrote. */
  function IeToLeWord(t: RelType, insn: bv32, val: bv64): (w: bv32)
    requires IsTlsIeType(t)
    ensures Rd(w) == Rd(insn)
    ensures t == TLSIE_ADR_GOTTPREL_PAGE21
            ==> w & !0x1F_FFFF == MovzX0Lsl16 && Imm16(w) == (val >> 16) & 0xFFFF
    ensures t == TLSIE_LD64_GOTTPREL_LO12_NC
            ==> w & !0x1F_FFFF == MovkX0 && Imm16(w) == val & 0xFFFF
  {
    if t == TLSIE_ADR_GOTTPREL_PAGE21 then MovWideWord(MovzX0Lsl16 | Rd(insn), val >> 16)
    else MovWideWord(MovkX0 | Rd(insn), val)
  }

  /** The MOVZ/MOVK pair leaves the offset in the register, as the GOT entry
      the ADRP/LDR pair loaded would have. */
  lemma IeToLeMaterialises(adrp: bv32, ldr: bv32, val: bv64)
    requires FitsUInt(val, U32)
    ensures (Imm16(IeToLeWord(TLSIE_ADR_GOTTPREL_PAGE21, adrp, val)) << 16)
            | Imm16(IeToLeWord(TLSIE_LD64_GOTTPREL_LO12_NC, ldr, val)) == val
  {
    Halves(val);
  }

  /** relaxTlsIeToLe(loc = buf + o, rel, val): checks that the offset is an
      unsigned 32-bit value and rewrites the instruction, keeping its
      destination register. */
  method RelaxTlsIeToLe(buf: array<bv8>, o: nat, rel: Relocation, val: bv64)
      returns (diags: seq<Diag>)
    requires IsTlsIeType(rel.rtype) && o + 4 <= buf.Length
    modifies buf
    ensures diags == UIntCheck(rel.rtype, val, U32)
    ensures buf[..] == Store32le(old(buf[..]), o, IeToLeWord(rel.rtype, Load32le(old(buf[..]), o), val))
  {
    diags := UIntCheck(rel.rtype, val, U32);
    var regNo := Load32le(buf[..], o) & 0x1F;
    if rel.rtype == TLSIE_ADR_GOTTPREL_PAGE21 {
      Write32le(buf, o, (0xd2a0_0000 | regNo) | Trunc32(((val >> 16) & 0xFFFF) << 5));
    } else {
      Write32le(buf, o, (0xf280_0000 | regNo) | Trunc32((val & 0xFFFF) << 5));
    }
  }
}
