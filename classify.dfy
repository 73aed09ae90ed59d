// The relocation classifier: getRelExpr (type to expression kind), the
// small tables usesOnlyLowPageBits, getDynRel and adjustTlsExpr.

module Classify {
  import opened Bits
  import opened Insn
  import opened Reloc
  import opened Apply

  /** getRelExpr's table: the expression kind of each type it knows, None
      for a type it reports as an unknown relocation. */
  function ExprOf(t: RelType): Option<RelExpr> {
    match t
    case ABS16 | ABS32 | ABS64 | ADD_ABS_LO12_NC
      | LDST128_ABS_LO12_NC | LDST16_ABS_LO12_NC | LDST32_ABS_LO12_NC
      | LDST64_ABS_LO12_NC | LDST8_ABS_LO12_NC
      | MOVW_SABS_G0 | MOVW_SABS_G1 | MOVW_SABS_G2
      | MOVW_UABS_G0 | MOVW_UABS_G0_NC | MOVW_UABS_G1 | MOVW_UABS_G1_NC
      | MOVW_UABS_G2 | MOVW_UABS_G2_NC | MOVW_UABS_G3 => Some(Abs)
    case AUTH_ABS64 => Some(Auth)
    case TLSDESC_ADR_PAGE21 => Some(TlsDescPage)
    case AUTH_TLSDESC_ADR_PAGE21 => Some(AuthTlsDescPage)
    case TLSDESC_LD64_LO12 | TLSDESC_ADD_LO12 => Some(TlsDesc)
    case AUTH_TLSDESC_LD64_LO12 | AUTH_TLSDESC_ADD_LO12 => Some(AuthTlsDesc)
    case TLSDESC_CALL => Some(TlsDescCall)
    case TLSLE_ADD_TPREL_HI12 | TLSLE_ADD_TPREL_LO12_NC
      | TLSLE_LDST8_TPREL_LO12_NC | TLSLE_LDST16_TPREL_LO12_NC
      | TLSLE_LDST32_TPREL_LO12_NC | TLSLE_LDST64_TPREL_LO12_NC
      | TLSLE_LDST128_TPREL_LO12_NC
      | TLSLE_MOVW_TPREL_G0 | TLSLE_MOVW_TPREL_G0_NC | TLSLE_MOVW_TPREL_G1
      | TLSLE_MOVW_TPREL_G1_NC | TLSLE_MOVW_TPREL_G2 => Some(TpRel)
    case CALL26 | CONDBR19 | JUMP26 | TSTBR14 | PLT32 => Some(PltPc)
    case PREL16 | PREL32 | PREL64 | ADR_PREL_LO21 | LD_PREL_LO19
      | MOVW_PREL_G0 | MOVW_PREL_G0_NC | MOVW_PREL_G1 | MOVW_PREL_G1_NC
      | MOVW_PREL_G2 | MOVW_PREL_G2_NC | MOVW_PREL_G3 => Some(Pc)
    case ADR_PREL_PG_HI21 | ADR_PREL_PG_HI21_NC => Some(PagePc)
    case LD64_GOT_LO12_NC | TLSIE_LD64_GOTTPREL_LO12_NC => Some(Got)
    case AUTH_LD64_GOT_LO12_NC | AUTH_GOT_ADD_LO12_NC => Some(AuthGot)
    case AUTH_GOT_LD_PREL19 | AUTH_GOT_ADR_PREL_LO21 => Some(AuthGotPc)
    case LD64_GOTPAGE_LO15 => Some(GotPage)
    case ADR_GOT_PAGE | TLSIE_ADR_GOTTPREL_PAGE21 => Some(GotPagePc)
    case AUTH_ADR_GOT_PAGE => Some(AuthGotPagePc)
    case GOTPCREL32 | GOT_LD_PREL19 => Some(GotPc)
    case NONE => Some(NoneExpr)
    case _ => None
  }

  /** getRelExpr: the expression kind of `t`; an unknown type is reported
      (`unknown`) and classified as R_NONE. A PLT32 reference marks its
      symbol as accessed through a possible thunk (`thunkAccessed`). */
  method GetRelExpr(t: RelType, s: Symbol) returns (e: RelExpr, unknown: bool)
    modifies s
    ensures unknown <==> ExprOf(t).None?
    ensures e == (if unknown then NoneExpr else ExprOf(t).value)
    ensures s.thunkAccessed == (old(s.thunkAccessed) || t == PLT32)
  {
    if t == PLT32 {
      s.thunkAccessed := true;
    }
    var k := ExprOf(t);
    if k.Some? {
      e, unknown := k.value, false;
    } else {
      e, unknown := NoneExpr, true;
    }
  }

  /** Apart from R_NONE and the TLSDESC_CALL marker, which relocate never
      sees, the types getRelExpr knows are those relocate's switch handles,
      less the dynamic TLSDESC. */
  lemma KnownTypesHandled(t: RelType)
    ensures ExprOf(t).Some? && t != NONE && t != TLSDESC_CALL <==> Handled(t) && t != TLSDESC
  {
    if ExprOf(t).None? {
      UnknownUnhandled(t);
    } else if t != NONE && t != TLSDESC_CALL {
      KnownHandled(t);
    }
  }

  lemma KnownHandled(t: RelType)
    requires ExprOf(t).Some? && t != NONE && t != TLSDESC_CALL
    ensures Handled(t) && t != TLSDESC
  {
  }

  lemma UnknownUnhandled(t: RelType)
    requires ExprOf(t).None?
    ensures !Handled(t) || t == TLSDESC
  {
  }

  /** The page-relative kinds are those of exactly the types relocate
      encodes into an ADRP. */
  lemma PageKindsAreAdrp(t: RelType)
    ensures IsPageKind(ExprOf(t)) <==> IsAdrpType(t) || t == ADR_PREL_PG_HI21_NC
  {
    if IsAdrpType(t) || t == ADR_PREL_PG_HI21_NC {
      AdrpIsPageKind(t);
    } else if IsPageKind(ExprOf(t)) {
      PageKindIsAdrp(t);
    }
  }

  predicate IsPageKind(k: Option<RelExpr>) {
    k in {Some(PagePc), Some(GotPagePc), Some(AuthGotPagePc), Some(TlsDescPage), Some(AuthTlsDescPage)}
  }

  lemma AdrpIsPageKind(t: RelType)
    requires IsAdrpType(t) || t == ADR_PREL_PG_HI21_NC
    ensures IsPageKind(ExprOf(t))
  {
  }

  lemma PageKindIsAdrp(t: RelType)
    requires IsPageKind(ExprOf(t))
    ensures IsAdrpType(t) || t == ADR_PREL_PG_HI21_NC
  {
  }

  /** Only the branch relocations (and the 32-bit PLT-relative data word)
      are PC-relative through a PLT, and every PLT-relative type is one of
      them. */
  lemma PltPcTypes(t: RelType)
    ensures ExprOf(t) == Some(PltPc) <==> t in {CALL26, JUMP26, CONDBR19, TSTBR14, PLT32}
  {
  }

  /** adjustTlsExpr: a GD-to-IE relaxation of the TLSDESC page relocation is
      PC-relative to the page; every other GD-to-IE relaxation is absolute;
      other kinds are kept. */
  function AdjustTlsExpr(t: RelType, expr: RelExpr): (r: RelExpr)
    ensures expr != RelaxTlsGdToIe ==> r == expr
    ensures expr == RelaxTlsGdToIe ==> r in {RelaxTlsGdToIePagePc, RelaxTlsGdToIeAbs}
    ensures r == RelaxTlsGdToIePagePc <==> expr == RelaxTlsGdToIePagePc || (expr == RelaxTlsGdToIe && t == TLSDESC_ADR_PAGE21)
  {
    if expr == RelaxTlsGdToIe then
      if t == TLSDESC_ADR_PAGE21 then RelaxTlsGdToIePagePc else RelaxTlsGdToIeAbs
    else expr
  }

  /** Adjusting twice is adjusting once: the adjusted kinds are final. */
  lemma AdjustTlsExprIdempotent(t: RelType, expr: RelExpr)
    ensures AdjustTlsExpr(t, AdjustTlsExpr(t, expr)) == AdjustTlsExpr(t, expr)
  {
  }

  /** usesOnlyLowPageBits: the types whose value is only the low 12 bits of
      the address (the :lo12: forms of ADD and of the 8-byte and narrower
      loads and stores, and their GOT, TLSIE and TLSDESC variants). */
  predicate UsesOnlyLowPageBits(t: RelType)
    ensures UsesOnlyLowPageBits(t) ==> Handled(t) && !IsDataType(t)
  {
    match t
    case ADD_ABS_LO12_NC | LD64_GOT_LO12_NC | LDST128_ABS_LO12_NC
      | LDST16_ABS_LO12_NC | LDST32_ABS_LO12_NC | LDST64_ABS_LO12_NC
      | LDST8_ABS_LO12_NC | TLSDESC_ADD_LO12 | TLSDESC_LD64_LO12
      | TLSIE_LD64_GOTTPREL_LO12_NC => true
    case _ => false
  }

  /** The low-page-bits types are absolute, GOT or TLS-descriptor
      references, never PC-relative ones. */
  lemma LowPageBitsKinds(t: RelType)
    requires UsesOnlyLowPageBits(t)
    ensures ExprOf(t) in {Some(Abs), Some(Got), Some(TlsDesc)}
  {
  }

  /** What "only the low page bits" means: for such a type the word
      relocate writes is the same for the value and for its offset in its
      4 KiB page. */
  lemma LowPageBitsOnly(t: RelType, val: bv64, insn: bv32)
    requires UsesOnlyLowPageBits(t)
    ensures EditWord(insn, EditOf(t, val)) == EditWord(insn, EditOf(t, val & 0xFFF))
  {
    if t == ADD_ABS_LO12_NC || t == TLSDESC_ADD_LO12 {
      AddEdit(t, val);
      AddEdit(t, val & 0xFFF);
    } else if t == LDST8_ABS_LO12_NC {
      Ldst8LowBits(t, val);
    } else if t == LDST16_ABS_LO12_NC {
      Ldst16LowBits(t, val);
    } else if t == LDST32_ABS_LO12_NC {
      Ldst32LowBits(t, val);
    } else if t == LDST128_ABS_LO12_NC {
      Ldst128LowBits(t, val);
    } else if t == LDST64_ABS_LO12_NC || t == LD64_GOT_LO12_NC {
      Ldst64LowBits(t, val);
    } else {
      TlsLd64LowBits(t, val);
    }
  }

  /** An ADD of the low 12 bits puts the whole value in imm12, which keeps
      only its low 12 bits. */
  lemma AddEdit(t: RelType, val: bv64)
    requires t == ADD_ABS_LO12_NC || t == TLSDESC_ADD_LO12
    ensures EditOf(t, val) == Imm12Field(val)
  {
  }

  /** A byte load or store: its immediate is bits 0..11 of the value. */
  lemma Ldst8LowBits(t: RelType, val: bv64)
    requires t == LDST8_ABS_LO12_NC
    ensures EditOf(t, val) == EditOf(t, val & 0xFFF)
  {
    assert GetBits(val, 0, 11) == (val >> 0) & 0xFFF == GetBits(val & 0xFFF, 0, 11);
    assert EditOf(t, val) == Imm12Field(GetBits(val, 0, 11));
    assert EditOf(t, val & 0xFFF) == Imm12Field(GetBits(val & 0xFFF, 0, 11));
  }

  /** A halfword load or store: bits 1..11. */
  lemma Ldst16LowBits(t: RelType, val: bv64)
    requires t == LDST16_ABS_LO12_NC
    ensures EditOf(t, val) == EditOf(t, val & 0xFFF)
  {
    assert GetBits(val, 1, 11) == (val >> 1) & 0x7FF == GetBits(val & 0xFFF, 1, 11);
    assert EditOf(t, val) == Imm12Field(GetBits(val, 1, 11));
    assert EditOf(t, val & 0xFFF) == Imm12Field(GetBits(val & 0xFFF, 1, 11));
  }

  /** A word load or store: bits 2..11. */
  lemma Ldst32LowBits(t: RelType, val: bv64)
    requires t == LDST32_ABS_LO12_NC
    ensures EditOf(t, val) == EditOf(t, val & 0xFFF)
  {
    assert GetBits(val, 2, 11) == (val >> 2) & 0x3FF == GetBits(val & 0xFFF, 2, 11);
    assert EditOf(t, val) == Imm12Field(GetBits(val, 2, 11));
    assert EditOf(t, val & 0xFFF) == Imm12Field(GetBits(val & 0xFFF, 2, 11));
  }

  /** A doubleword load or store and the GOT load: bits 3..11. */
  lemma Ldst64LowBits(t: RelType, val: bv64)
    requires t == LDST64_ABS_LO12_NC || t == LD64_GOT_LO12_NC
    ensures EditOf(t, val) == EditOf(t, val & 0xFFF)
  {
    assert GetBits(val, 3, 11) == (val >> 3) & 0x1FF == GetBits(val & 0xFFF, 3, 11);
    if t == LDST64_ABS_LO12_NC {
      assert EditOf(t, val) == Imm12Field(GetBits(val, 3, 11));
      assert EditOf(t, val & 0xFFF) == Imm12Field(GetBits(val & 0xFFF, 3, 11));
    } else {
      assert EditOf(t, val) == Imm12Field(GetBits(val, 3, 11));
      assert EditOf(t, val & 0xFFF) == Imm12Field(GetBits(val & 0xFFF, 3, 11));
    }
  }

  /** The TLSDESC and TLSIE loads of a GOT entry: bits 3..11. */
  lemma TlsLd64LowBits(t: RelType, val: bv64)
    requires t == TLSDESC_LD64_LO12 || t == TLSIE_LD64_GOTTPREL_LO12_NC
    ensures EditOf(t, val) == EditOf(t, val & 0xFFF)
  {
    assert GetBits(val, 3, 11) == (val >> 3) & 0x1FF == GetBits(val & 0xFFF, 3, 11);
    if t == TLSDESC_LD64_LO12 {
      assert EditOf(t, val) == Imm12Field(GetBits(val, 3, 11));
      assert EditOf(t, val & 0xFFF) == Imm12Field(GetBits(val & 0xFFF, 3, 11));
    } else {
      assert EditOf(t, val) == Imm12Field(GetBits(val, 3, 11));
      assert EditOf(t, val & 0xFFF) == Imm12Field(GetBits(val & 0xFFF, 3, 11));
    }
  }

  /** A quadword load or store: bits 4..11. */
  lemma Ldst128LowBits(t: RelType, val: bv64)
    requires t == LDST128_ABS_LO12_NC
    ensures EditOf(t, val) == EditOf(t, val & 0xFFF)
  {
    assert GetBits(val, 4, 11) == (val >> 4) & 0xFF == GetBits(val & 0xFFF, 4, 11);
    assert EditOf(t, val) == Imm12Field(GetBits(val, 4, 11));
    assert EditOf(t, val & 0xFFF) == Imm12Field(GetBits(val & 0xFFF, 4, 11));
  }

  /** getDynRel: only the two absolute 64-bit types can be emitted as
      dynamic relocations; every other type maps to NONE. */
  function GetDynRel(t: RelType): (r: RelType)
    ensures r == t || r == NONE
    ensures r != NONE <==> t in {ABS64, AUTH_ABS64}
  {
    if t == ABS64 || t == AUTH_ABS64 then t else NONE
  }

  /** A type that survives as a dynamic relocation is an absolute one. */
  lemma DynRelIsAbsolute(t: RelType)
    requires GetDynRel(t) != NONE
    ensures ExprOf(t) in {Some(Abs), Some(Auth)}
  {
  }
}
