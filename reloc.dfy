// The records the AArch64 backend works on: relocation types (the names of
// the ELF for the Arm 64-bit Architecture ABI, without the R_AARCH64_
// prefix), the linker's expression kinds, symbols and relocations.

module Reloc {

  datatype Option<T> = None | Some(value: T)

  /** The relocation types this backend names; `Other` stands for any type
      it does not name (numeric codes are not modelled). */
  datatype RelType =
    | NONE
    | ABS16 | ABS32 | ABS64 | PREL16 | PREL32 | PREL64 | PLT32 | GOTPCREL32
    | AUTH_ABS64
    | ADD_ABS_LO12_NC
    | LDST8_ABS_LO12_NC | LDST16_ABS_LO12_NC | LDST32_ABS_LO12_NC
    | LDST64_ABS_LO12_NC | LDST128_ABS_LO12_NC
    | MOVW_UABS_G0 | MOVW_UABS_G0_NC | MOVW_UABS_G1 | MOVW_UABS_G1_NC
    | MOVW_UABS_G2 | MOVW_UABS_G2_NC | MOVW_UABS_G3
    | MOVW_SABS_G0 | MOVW_SABS_G1 | MOVW_SABS_G2
    | MOVW_PREL_G0 | MOVW_PREL_G0_NC | MOVW_PREL_G1 | MOVW_PREL_G1_NC
    | MOVW_PREL_G2 | MOVW_PREL_G2_NC | MOVW_PREL_G3
    | ADR_PREL_LO21 | ADR_PREL_PG_HI21 | ADR_PREL_PG_HI21_NC | LD_PREL_LO19
    | CALL26 | JUMP26 | CONDBR19 | TSTBR14
    | ADR_GOT_PAGE | LD64_GOT_LO12_NC | LD64_GOTPAGE_LO15 | GOT_LD_PREL19
    | AUTH_ADR_GOT_PAGE | AUTH_LD64_GOT_LO12_NC | AUTH_GOT_ADD_LO12_NC
    | AUTH_GOT_LD_PREL19 | AUTH_GOT_ADR_PREL_LO21
    | TLSIE_ADR_GOTTPREL_PAGE21 | TLSIE_LD64_GOTTPREL_LO12_NC
    | TLSLE_ADD_TPREL_HI12 | TLSLE_ADD_TPREL_LO12_NC
    | TLSLE_LDST8_TPREL_LO12_NC | TLSLE_LDST16_TPREL_LO12_NC
    | TLSLE_LDST32_TPREL_LO12_NC | TLSLE_LDST64_TPREL_LO12_NC
    | TLSLE_LDST128_TPREL_LO12_NC
    | TLSLE_MOVW_TPREL_G0 | TLSLE_MOVW_TPREL_G0_NC | TLSLE_MOVW_TPREL_G1
    | TLSLE_MOVW_TPREL_G1_NC | TLSLE_MOVW_TPREL_G2
    | TLSDESC_ADR_PAGE21 | TLSDESC_LD64_LO12 | TLSDESC_ADD_LO12 | TLSDESC_CALL
    | AUTH_TLSDESC_ADR_PAGE21 | AUTH_TLSDESC_LD64_LO12 | AUTH_TLSDESC_ADD_LO12
    | COPY | GLOB_DAT | AUTH_GLOB_DAT | JUMP_SLOT | RELATIVE | IRELATIVE
    | TLS_TPREL64 | TLSDESC
    | Other(code: nat)

  /** The linker's expression kinds (RelExpr) that this backend produces or
      dispatches on: how the value of a relocation is computed. */
  datatype RelExpr =
    | NoneExpr          // R_NONE
    | Abs               // R_ABS
    | Pc                // R_PC
    | PltPc             // R_PLT_PC
    | Got               // R_GOT
    | GotPc             // R_GOT_PC
    | TpRel             // R_TPREL
    | TlsDesc           // R_TLSDESC
    | TlsDescCall       // R_TLSDESC_CALL
    | PagePc            // RE_AARCH64_PAGE_PC
    | GotPage           // RE_AARCH64_GOT_PAGE
    | GotPagePc         // RE_AARCH64_GOT_PAGE_PC
    | TlsDescPage       // RE_AARCH64_TLSDESC_PAGE
    | Auth              // RE_AARCH64_AUTH
    | AuthGot           // RE_AARCH64_AUTH_GOT
    | AuthGotPc         // RE_AARCH64_AUTH_GOT_PC
    | AuthGotPagePc     // RE_AARCH64_AUTH_GOT_PAGE_PC
    | AuthTlsDesc       // RE_AARCH64_AUTH_TLSDESC
    | AuthTlsDescPage   // RE_AARCH64_AUTH_TLSDESC_PAGE
    | RelaxTlsGdToIe          // R_RELAX_TLS_GD_TO_IE
    | RelaxTlsGdToIeAbs       // R_RELAX_TLS_GD_TO_IE_ABS
    | RelaxTlsGdToIePagePc    // RE_AARCH64_RELAX_TLS_GD_TO_IE_PAGE_PC
    | RelaxTlsGdToLe          // R_RELAX_TLS_GD_TO_LE
    | RelaxTlsIeToLe          // R_RELAX_TLS_IE_TO_LE

  /** A symbol as the backend sees it: its addresses and attributes are
      fixed by the time the backend relocates (`isTagged` included: the
      memtag pass sets it before); `thunkAccessed` is the flag getRelExpr
      sets. */
  class Symbol {
    const va: bv64            // getVA()
    const size: bv64          // getSize()
    const pltVA: bv64         // getPltVA()
    const gotPltVA: bv64      // getGotPltVA()
    const isDefined: bool
    const isUndefined: bool
    const isPreemptible: bool
    const isGnuIFunc: bool
    const hasSection: bool    // a Defined symbol with a section (not absolute)
    const isInPlt: bool
    const isInIplt: bool
    const needsCopy: bool     // the NEEDS_COPY flag
    const isObject: bool      // type == STT_OBJECT
    const isLocal: bool       // binding == STB_LOCAL
    const isTagged: bool      // a memory-tagged (Arm MTE) symbol
    var thunkAccessed: bool

    constructor(va: bv64, size: bv64, pltVA: bv64, gotPltVA: bv64,
                isDefined: bool, isUndefined: bool, isPreemptible: bool,
                isGnuIFunc: bool, hasSection: bool, isInPlt: bool,
                isInIplt: bool, needsCopy: bool, isObject: bool, isLocal: bool,
                isTagged: bool)
      ensures this.va == va && this.size == size
      ensures this.pltVA == pltVA && this.gotPltVA == gotPltVA
      ensures this.isDefined == isDefined && this.isUndefined == isUndefined
      ensures this.isPreemptible == isPreemptible && this.isGnuIFunc == isGnuIFunc
      ensures this.hasSection == hasSection && this.isInPlt == isInPlt
      ensures this.isInIplt == isInIplt && this.needsCopy == needsCopy
      ensures this.isObject == isObject && this.isLocal == isLocal
      ensures this.isTagged == isTagged && !thunkAccessed
    {
      this.va := va;
      this.size := size;
      this.pltVA := pltVA;
      this.gotPltVA := gotPltVA;
      this.isDefined := isDefined;
      this.isUndefined := isUndefined;
      this.isPreemptible := isPreemptible;
      this.isGnuIFunc := isGnuIFunc;
      this.hasSection := hasSection;
      this.isInPlt := isInPlt;
      this.isInIplt := isInIplt;
      this.needsCopy := needsCopy;
      this.isObject := isObject;
      this.isLocal := isLocal;
      this.isTagged := isTagged;
      thunkAccessed := false;
    }
  }

  /** A relocation: where (offset into the section), what type, how its
      value is computed, the addend and the target symbol (null for the
      linker's own relocateNoSym writes). */
  datatype Relocation = Relocation(expr: RelExpr, rtype: RelType, offset: nat,
                                   addend: bv64, sym: Symbol?)
}
