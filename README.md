# AArch64 target of the lld ELF linker, modelled in Dafny

This project models the AArch64 backend of lld's ELF linker,
`lld/ELF/Arch/AArch64.cpp`. It follows the ELF for the Arm 64-bit
Architecture ABI (AAELF64) and the Arm Memory Tagging Extension ELF ABI.
The backend is modelled part by part:

- **Bits** (`bits.dfy`): the page of an address (getAArch64Page), bit-range
  extraction (getBits), and the signed and unsigned ranges behind `checkInt`,
  `checkUInt` and sign extension.
- **Bytes** (`bytes.dfy`): the section buffer as a byte sequence.
  - little- and big-endian loads and stores of 16-, 32- and 64-bit words;
  - `memcpy` as a splice;
  - the in-place `write16/32/64/32le` on an `array<bv8>`.
- **Insn** (`insn.dfy`): the instruction fields and the four field writers,
  `write32AArch64Addr`, `writeMaskedBits32le`, `write32Imm12` and
  `writeSMovWImm`. Each is a function on the 32-bit word plus a method that
  edits the buffer in place.
- **Reloc** (`reloc.dfy`): the relocation types, expression kinds, symbols and
  relocation records the backend uses.
- **Classify** (`classify.dfy`): the tables `getRelExpr`,
  `usesOnlyLowPageBits`, `getDynRel` and `adjustTlsExpr`.
- **Apply** (`apply.dfy`): `relocate`.
  - `CheckOf` names the range and alignment checks each case makes, and
    `Checks` lists the diagnostics they report, in order.
  - `WriteOf`/`EditOf` say which field write its switch performs.
  - The method `Relocate` reports the diagnostics and performs the write in
    place. A failed check is reported, and the write still happens, as in lld.
- **Addend** (`addend.dfy`): `getImplicitAddend`. **RoundTrip**
  (`roundtrip.dfy`) proves that a value `relocate` accepts reads back through
  `getImplicitAddend`, type by type.
- **Tls** (`tls.dfy`): the three TLS descriptor relaxations.
- **Relaxation** (`relaxer.dfy`): `AArch64Relaxer`.
  - The constructor's pairing scan.
  - `tryRelaxAdrpAdd` (ADRP + ADD to NOP + ADR).
  - `tryRelaxAdrpLdr` (ADRP + LDR of a GOT entry to ADRP + ADD). Each is
    specified by a function on the section bytes that returns the relaxed
    section or nothing.
- **Alloc** (`alloc.dfy`): `relocateAlloc`, the loop that relocates a section.
  It consumes two relocations when a pair relaxation applies.
  Without --relax, and with no TLS relaxation among the relocations, it is
  shown equal to a plain loop that relocates each relocation in order.
- **Branch** (`branch.dfy`): `inBranchRange`, `needsThunk`,
  `getThunkSectionSpacing` and the three branch-to-branch callbacks.
- **Plt** (`plt.dfy`): `writeGotPlt`, `writeIgotPlt`, `writePltHeader` and
  `writePlt` for both the plain target and `AArch64BtiPac`.
- **Memtag** (`memtag.dfy`): `createTaggedSymbols` and
  `addTaggedSymbolReferences`.

How values are represented:
- Addresses, values and addends are `bv64`, the bit patterns of lld's
  `uint64_t`/`int64_t`. Wrap-around is therefore that of the source.
- Signed comparisons are written out on the bit patterns.
- Section contents are `seq<bv8>` in functions and lemmas and `array<bv8>` in
  methods.
- Symbol addresses, the target values `getRelocTargetVA` computes, and the
  linker options (`relax`, `isPic`, `writeAddends`, BTI, `-z pac-plt`) are
  parameters.

### How a tagged symbol is demoted

The comment at `lld/ELF/Arch/AArch64.cpp:1238-1251` says that a symbol must
be marked tagged by all of its references and definitions, and that
otherwise it is demoted to untagged. The second pass
(`lld/ELF/Arch/AArch64.cpp:1274-1294`) does this with a countdown. Each
global object declaration takes one from the symbol's count of tagged
references. When a declaration finds the count already at zero
(`lld/ELF/Arch/AArch64.cpp:1287-1290`), the symbol is erased from the map,
so it ends up untagged and nothing is reported. A symbol whose count is
still above zero after the pass stays in the map. It reaches the debug
`assert` at `lld/ELF/Arch/AArch64.cpp:1305-1306` and is then tagged. The
model follows the code:
- `Memtag.CreateTaggedSymbols` returns the symbols the code tags;
- it returns, as `overTagged`, those for which the assertion would fire.

## Model

| member | source | states |
|---|---|---|
| Bits.Page | lld/ELF/Arch/AArch64.cpp:24-29 | the page has its low 12 bits clear, lies at most 4095 bytes below the address, and the distance is the address's low 12 bits, whatever the platform's page size |
| Bits.PageDifferenceExample | lld/ELF/Arch/AArch64.cpp:24-29 | Page(0x1002004) - Page(0x1000008) = 0x2000 |
| Bits.GetBitsWidth | lld/ELF/Arch/AArch64.cpp:106-111 | the result has no bit above the extracted width |
| Bits.GetBitsFieldBits | lld/ELF/Arch/AArch64.cpp:105-111 | for each bit range getImplicitAddend reads, bit i of the result is bit start + i of the value |
| Bits.GetBitsExample | lld/ELF/Arch/AArch64.cpp:105-106 | the example of getBits' comment: bits 4..8 of 0xF0 are 0xF |
| Bits.FitsIntRange | lld/ELF/Arch/AArch64.cpp:509-513 | the bit-level signed check is the range [-2^(n-1), 2^(n-1)) of int64_t values |
| Bits.FitsUIntRange | lld/ELF/Arch/AArch64.cpp:620-625 | the bit-level unsigned check is the range [0, 2^n) |
| Bits.SignExtendInRange | lld/ELF/Arch/AArch64.cpp:278-283 | SignExtend64 always yields a value of the width |
| Bits.SignExtendFits | lld/ELF/Arch/AArch64.cpp:278-283 | SignExtend64 leaves a value that already fits unchanged |
| Insn.AdrImmWord | lld/ELF/Arch/AArch64.cpp:460-465 | write32AArch64Addr keeps every bit outside immhi:immlo (bits 5-23 and 29-30) |
| Insn.AdrImmWordDecodes | lld/ELF/Arch/AArch64.cpp:460-465 | the immediate read back from the written ADR/ADRP is the low 21 bits of imm |
| Insn.MaskedWord | lld/ELF/Arch/AArch64.cpp:467-469 | the bits of the mask come from v; the others are kept when v has no bit outside the mask |
| Insn.Imm12Word | lld/ELF/Arch/AArch64.cpp:471-474 | write32Imm12 keeps every bit outside bits 10-21 |
| Insn.Imm12WordDecodes | lld/ELF/Arch/AArch64.cpp:471-474 | the immediate read back is the low 12 bits of imm |
| Insn.SMovWKeepsOtherBits | lld/ELF/Arch/AArch64.cpp:476-494 | writeSMovWImm changes only bit 30 and the imm16 field |
| Insn.SMovWKeepsMovk | lld/ELF/Arch/AArch64.cpp:482-494 | a MOVK keeps its opcode |
| Insn.SMovWChoosesOpcode | lld/ELF/Arch/AArch64.cpp:482-492 | a MOVZ/MOVN becomes MOVN exactly when bit 16 of the operand is set, and MOVZ otherwise |
| Insn.Write32AArch64Addr | lld/ELF/Arch/AArch64.cpp:460-465 | the buffer changes only in the 4 bytes at the place, which hold AdrImmWord of the old word |
| Insn.WriteMaskedBits32le | lld/ELF/Arch/AArch64.cpp:467-469 | the 4 bytes at the place hold MaskedWord of the old word; nothing else changes |
| Insn.Write32Imm12 | lld/ELF/Arch/AArch64.cpp:471-474 | the 4 bytes at the place hold Imm12Word of the old word; nothing else changes |
| Insn.AdjustSMovW | lld/ELF/Arch/AArch64.cpp:479-493 | the opcode and operand adjustment computes SMovWImmWord, whose effect SMovWKeepsOtherBits, SMovWKeepsMovk and SMovWChoosesOpcode state |
| Insn.WriteSMovWImm | lld/ELF/Arch/AArch64.cpp:479-494 | the 4 bytes at the place hold the adjusted MOVZ/MOVN/MOVK; nothing else changes |
| Classify.GetRelExpr | lld/ELF/Arch/AArch64.cpp:134-234 | reports exactly the types the table does not know, classifies them as R_NONE, and marks the symbol thunk-accessed exactly for PLT32 |
| Classify.PltPcTypes | lld/ELF/Arch/AArch64.cpp:184-190 | R_PLT_PC is the kind of exactly CALL26, JUMP26, CONDBR19, TSTBR14 and PLT32 |
| Classify.KnownTypesHandled | lld/ELF/Arch/AArch64.cpp:134-234 | getRelExpr knows a type, other than NONE and TLSDESC_CALL, exactly when relocate handles it (TLSDESC aside, which relocate writes but getRelExpr leaves to the TLS code) |
| Classify.PageKindsAreAdrp | lld/ELF/Arch/AArch64.cpp:134-234 | the page-relative kinds are exactly those of the ADRP types and ADR_PREL_PG_HI21_NC |
| Classify.AdjustTlsExpr | lld/ELF/Arch/AArch64.cpp:236-243 | only a GD-to-IE relaxation changes: it becomes page-PC-relative exactly for TLSDESC_ADR_PAGE21 and absolute otherwise |
| Classify.AdjustTlsExprIdempotent | lld/ELF/Arch/AArch64.cpp:236-243 | adjusting twice is adjusting once |
| Classify.UsesOnlyLowPageBits | lld/ELF/Arch/AArch64.cpp:245-261 | each type it lists is one relocate edits as an instruction |
| Classify.LowPageBitsOnly | lld/ELF/Arch/AArch64.cpp:245-261 | for each type it lists, the word relocate writes is the same for the value and for the value's offset in its 4 KiB page |
| Classify.LowPageBitsKinds | lld/ELF/Arch/AArch64.cpp:245-261 | a type that uses only the low page bits is an absolute, GOT or TLS-descriptor reference, never a PC-relative one |
| Classify.GetDynRel | lld/ELF/Arch/AArch64.cpp:263-267 | a type survives as a dynamic relocation exactly when it is ABS64 or AUTH_ABS64, and then unchanged; every other type maps to NONE |
| Classify.DynRelIsAbsolute | lld/ELF/Arch/AArch64.cpp:263-267 | a type that survives as a dynamic relocation is classified as absolute |
| Addend.FieldOf | lld/ELF/Arch/AArch64.cpp:269-368 | an instruction immediate is read only for a type relocate edits as an instruction |
| Addend.FieldCoversPlace | lld/ELF/Arch/AArch64.cpp:269-290 | a readable field covers exactly the bytes relocate writes for the type |
| Addend.WordAddend | lld/ELF/Arch/AArch64.cpp:312-364 | a field that is not an instruction immediate holds no addend in the word |
| Addend.WordAddendFits | lld/ELF/Arch/AArch64.cpp:312-364 | an addend read from an immediate fits the width it is sign-extended from, and is a multiple of 4 for TBZ, B.cond/LDR and B/BL |
| Addend.ReadField | lld/ELF/Arch/AArch64.cpp:269-364 | a field yields an addend exactly when it is readable; the addend fits the field's sign-extension width, and a field that counts instructions yields a multiple of 4 |
| Addend.ImplicitAddend | lld/ELF/Arch/AArch64.cpp:269-369 | getImplicitAddend fails (the internal error) exactly for the types its switch has no case for, and otherwise returns an addend of the field's width |
| Addend.ImplicitAddendReadsPlace | lld/ELF/Arch/AArch64.cpp:269-364 | the addend depends only on the bytes of the type's field at the place |
| Apply.Handled | lld/ELF/Arch/AArch64.cpp:496-692 | every type relocate's switch handles has a place, of 4 bytes for an instruction |
| Apply.ChecksFailed | lld/ELF/Arch/AArch64.cpp:496-692 | every diagnostic relocate reports names the relocation's type and value and a check that the value fails; at most two are reported |
| Apply.UnhandledChecks | lld/ELF/Arch/AArch64.cpp:496-692 | a type the switch does not handle reports nothing |
| Apply.Imm26Of | lld/ELF/Arch/AArch64.cpp:575-577 | the imm26 value written for B/BL has no bit outside bits 0-25 |
| Apply.Imm19Of | lld/ELF/Arch/AArch64.cpp:579-585 | the imm19 value written has no bit outside bits 5-23 |
| Apply.Imm14Of | lld/ELF/Arch/AArch64.cpp:672-674 | the imm14 value written has no bit outside bits 5-18 |
| Apply.MovwG0Of | lld/ELF/Arch/AArch64.cpp:620-624 | the MOVW_UABS_G0 value written has no bit outside the imm16 field (bits 5-20) |
| Apply.MovwG1Of | lld/ELF/Arch/AArch64.cpp:626-630 | the same for bits 16-31 of the value |
| Apply.MovwG2Of | lld/ELF/Arch/AArch64.cpp:632-637 | the same for bits 32-47 |
| Apply.MovwG3Of | lld/ELF/Arch/AArch64.cpp:639-641 | the same for bits 48-63 |
| Apply.EditOfInField | lld/ELF/Arch/AArch64.cpp:545-684 | no instruction edit of relocate sets a bit outside the field it writes |
| Apply.WriteOf | lld/ELF/Arch/AArch64.cpp:496-692 | the write relocate chooses never reaches beyond the bytes getImplicitAddend reads for the type |
| Apply.DataWriteOf | lld/ELF/Arch/AArch64.cpp:499-544 | the data-word writes, including the negated addend for ABS64 against a tagged symbol out of bounds and AUTH_ABS64's 32-bit-only write, stay within the place |
| Apply.ApplyEdit | lld/ELF/Arch/AArch64.cpp:545-684 | an instruction edit keeps the section's size |
| Apply.ApplyWrite | lld/ELF/Arch/AArch64.cpp:496-692 | a write keeps the section's size |
| Apply.RelocateBytes | lld/ELF/Arch/AArch64.cpp:496-692 | relocate keeps the section's size |
| Apply.PerformEdit | lld/ELF/Arch/AArch64.cpp:545-684 | the in-place edit leaves ApplyEdit's bytes, including JUMP26's replacement of the word by a B |
| Apply.PerformWrite | lld/ELF/Arch/AArch64.cpp:496-692 | the in-place write leaves ApplyWrite's bytes |
| Apply.Relocate | lld/ELF/Arch/AArch64.cpp:496-692 | relocate reports Checks' diagnostics and leaves RelocateBytes' bytes |
| Apply.WriteRelocated | lld/ELF/Arch/AArch64.cpp:745-750 | writing a fresh instruction and relocating it leaves that instruction with its field edited |
| Apply.AdrpChecks | lld/ELF/Arch/AArch64.cpp:549-559 | ADR_PREL_PG_HI21 reports nothing exactly when the value fits signed 33 bits; the _NC form is never checked |
| Apply.Ldst8Field | lld/ELF/Arch/AArch64.cpp:587-590 | no check; the immediate is the value's offset in its page |
| Apply.Ldst16Field | lld/ELF/Arch/AArch64.cpp:591-595 | nothing is reported exactly when the value is 2-byte aligned, and the immediate scaled by 2 is then the offset in the page |
| Apply.Ldst32Field | lld/ELF/Arch/AArch64.cpp:596-600 | the same with 4-byte alignment |
| Apply.Ldst64Field | lld/ELF/Arch/AArch64.cpp:601-610 | the same with 8-byte alignment |
| Apply.Ldst128Field | lld/ELF/Arch/AArch64.cpp:611-615 | the same with 16-byte alignment |
| RoundTrip.RelocatedWord | lld/ELF/Arch/AArch64.cpp:545-684 | relocate on an instruction type edits the little-endian word at the place and nothing else |
| RoundTrip.RelocatedAddend | lld/ELF/Arch/AArch64.cpp:312-364 | the addend read back from an instruction place is the one its edited word holds |
| RoundTrip.StoredField | lld/ELF/Arch/AArch64.cpp:312-364 | an instruction field is read from the word stored at the place, whatever the data byte order |
| RoundTrip.ApplyWriteFrame | lld/ELF/Arch/AArch64.cpp:496-692 | a write changes no byte outside the bytes it covers |
| RoundTrip.RelocateFrame | lld/ELF/Arch/AArch64.cpp:496-692 | relocate changes no byte outside the place |
| RoundTrip.Call26RoundTrip | lld/ELF/Arch/AArch64.cpp:361-364 | CALL26: a 4-aligned offset in [-2^27, 2^27) reads back from the BL as written |
| RoundTrip.Jump26RoundTrip | lld/ELF/Arch/AArch64.cpp:565-578 | JUMP26 writes an unconditional B whatever was at the place, and a 4-aligned offset in [-2^27, 2^27) reads back as written |
| RoundTrip.CondBr19RoundTrip | lld/ELF/Arch/AArch64.cpp:579-586 | CONDBR19: a 4-aligned offset in [-2^20, 2^20) reads back from the B.cond as written |
| RoundTrip.LdPrelLo19RoundTrip | lld/ELF/Arch/AArch64.cpp:334-340 | LD_PREL_LO19: the same for LDR (literal) |
| RoundTrip.Ldr19Checks | lld/ELF/Arch/AArch64.cpp:579-586 | every imm19 type (CONDBR19, LD_PREL_LO19 and the GOT loads) reports nothing exactly for a 4-aligned value in [-2^20, 2^20) |
| RoundTrip.Tbz14RoundTrip | lld/ELF/Arch/AArch64.cpp:672-675 | TSTBR14: a 4-aligned offset in [-2^15, 2^15) reads back from TBZ/TBNZ as written |
| RoundTrip.AdrRoundTrip | lld/ELF/Arch/AArch64.cpp:560-564 | ADR_PREL_LO21: a value in [-2^20, 2^20) reads back from the ADR as written |
| RoundTrip.PageField | lld/ELF/Arch/AArch64.cpp:549-559 | bits 12-32 of a value in [-2^32, 2^32), sign-extended and scaled by the page size, are the value without its in-page offset |
| RoundTrip.AdrpField | lld/ELF/Arch/AArch64.cpp:353-360 | the ADRP immediate written from a page difference reads back as that difference's page count |
| RoundTrip.AdrpRoundTrip | lld/ELF/Arch/AArch64.cpp:353-360 | ADR_PREL_PG_HI21: the addend read back is the unshifted page count; scaled by 4096 it is the written difference without its low 12 bits |
| RoundTrip.Add12RoundTrip | lld/ELF/Arch/AArch64.cpp:341-345 | ADD_ABS_LO12_NC: a value in [-2^11, 2^11) reads back as written |
| RoundTrip.MovwG0RoundTrip | lld/ELF/Arch/AArch64.cpp:312-318 | MOVW_UABS_G0: a value in [-2^15, 2^15) reads back from the MOVZ/MOVK as written |
| RoundTrip.Data16RoundTrip | lld/ELF/Arch/AArch64.cpp:278-280 | ABS16/PREL16: the value's low 16 bits read back sign-extended, so a signed 16-bit value reads back as written |
| RoundTrip.Data32RoundTrip | lld/ELF/Arch/AArch64.cpp:281-283 | ABS32/PREL32: the same with 32 bits |
| RoundTrip.Data64RoundTrip | lld/ELF/Arch/AArch64.cpp:284-289 | ABS64/PREL64 read back as written, except ABS64 to a tagged symbol with an out-of-bounds addend, which reads back the negated addend |
| RoundTrip.TlsDescRoundTrip | lld/ELF/Arch/AArch64.cpp:270-271 | TLSDESC: the descriptor's second word reads back as written |
| Tls.GdToLeWord | lld/ELF/Arch/AArch64.cpp:709-722 | the ADRP becomes MOVZ X0 with bits 16-31 of the offset, the LDR MOVK X0 with bits 0-15, and the ADD and the call NOPs |
| Tls.GdToLeMaterialises | lld/ELF/Arch/AArch64.cpp:694-719 | for an offset that passes the unsigned 32-bit check, the MOVZ immediate shifted by 16 or-ed with the MOVK immediate is the offset |
| Tls.RelaxTlsGdToLe | lld/ELF/Arch/AArch64.cpp:694-723 | reports the unsigned 32-bit check and stores GdToLeWord at the place, nothing else |
| Tls.GdToIeWord | lld/ELF/Arch/AArch64.cpp:739-754 | the ADRP becomes ADRP X0 of the GOT entry's page, the LDR an LDR X0 of the entry, and the ADD and the call NOPs |
| Tls.GdToIePage | lld/ELF/Arch/AArch64.cpp:744-747 | the new ADRP's immediate, scaled by 4096, is a page difference that passes the 33-bit check |
| Tls.GdToIeOffset | lld/ELF/Arch/AArch64.cpp:748-751 | the new LDR's immediate, scaled by 8, is the entry's offset in its page when the entry is 8-byte aligned |
| Tls.GdToIeAddressesEntry | lld/ELF/Arch/AArch64.cpp:744-751 | the relaxed ADRP/LDR pair addresses the GOT entry from the place when both checks pass |
| Tls.RelaxTlsGdToIe | lld/ELF/Arch/AArch64.cpp:725-755 | writes GdToIeWord; for the ADRP and the LDR it reports the initial-exec relocation's checks |
| Tls.GdToIeAdrp | lld/ELF/Arch/AArch64.cpp:744-747 | a bare ADRP X0 relocated as TLSIE_ADR_GOTTPREL_PAGE21 |
| Tls.GdToIeLdr | lld/ELF/Arch/AArch64.cpp:748-751 | a bare LDR X0, [X0] relocated as TLSIE_LD64_GOTTPREL_LO12_NC |
| Tls.IeToLeWord | lld/ELF/Arch/AArch64.cpp:757-774 | the ADRP becomes MOVZ and the LDR MOVK with the offset's halves, each on the register the instruction wrote |
| Tls.IeToLeMaterialises | lld/ELF/Arch/AArch64.cpp:757-774 | the MOVZ/MOVK pair leaves the offset in that register, as the GOT entry would have |
| Tls.RelaxTlsIeToLe | lld/ELF/Arch/AArch64.cpp:757-774 | reports the unsigned 32-bit check and stores IeToLeWord, keeping the destination register |
| Tls.MovWideWord | lld/ELF/Arch/AArch64.cpp:715-718 | a MOVZ/MOVK word keeps the opcode and register bits and holds the low 16 bits of the operand |
| Relaxation.GotPairedLocally | lld/ELF/Arch/AArch64.cpp:776-796 | the relocations are paired exactly when every ADR_GOT_PAGE is followed by LD64_GOT_LO12_NC and every LD64_GOT_LO12_NC follows an ADR_GOT_PAGE |
| Relaxation.PairedAfterDrop | lld/ELF/Arch/AArch64.cpp:784-794 | dropping a prefix that does not end in ADR_GOT_PAGE leaves the pairing condition of later indices unchanged |
| Relaxation.ScanGotPairs | lld/ELF/Arch/AArch64.cpp:782-795 | the scan reaches the end exactly when the relocations are paired |
| Relaxation.Relaxer.constructor | lld/ELF/Arch/AArch64.cpp:776-796 | safeToRelaxAdrpLdr holds exactly when relaxation is on and the GOT relocations are paired |
| Relaxation.AdrpAddWordsAt | lld/ELF/Arch/AArch64.cpp:808-842 | the words tryRelaxAdrpAdd writes when every check passes: a NOP and an ADR on the ADRP's register |
| Relaxation.AdrpAddWordsAtLoad | lld/ELF/Arch/AArch64.cpp:831-843 | those words leave the symbol's address in the ADRP's register |
| Relaxation.AdrpAddResult | lld/ELF/Arch/AArch64.cpp:798-845 | tryRelaxAdrpAdd on the section bytes applies exactly when every check passes (AdrpAddWordsAt), and keeps the section's size |
| Relaxation.AdrpAddWritesWords | lld/ELF/Arch/AArch64.cpp:839-843 | the relaxed section holds AdrpAddWordsAt's words at the two places and is unchanged elsewhere |
| Relaxation.AdrpAddLoadsAddress | lld/ELF/Arch/AArch64.cpp:801-843 | after the relaxation the NOP + ADR leave the symbol's address in the register the ADRP + ADD set |
| Relaxation.AdrpAddOnce | lld/ELF/Arch/AArch64.cpp:822-824 | the relaxation cannot apply twice: the first word is no longer an ADRP |
| Relaxation.WithinMiBChecks | lld/ELF/Arch/AArch64.cpp:832-843 | a distance within 1 MiB passes relocate's ADR_PREL_LO21 check |
| Relaxation.AdrpLdrWordsAt | lld/ELF/Arch/AArch64.cpp:861-911 | the words tryRelaxAdrpLdr writes before the nested tryRelaxAdrpAdd, when every check passes |
| Relaxation.AdrpLdrWordsAtLoad | lld/ELF/Arch/AArch64.cpp:853-919 | the ADRP + ADD leave the symbol's address in the LDR's register, as the GOT entry of a non-preemptible symbol holds it |
| Relaxation.AdrpLdrFinalWordsLoad | lld/ELF/Arch/AArch64.cpp:903-921 | the final words are NOP + ADR exactly when relaxation is on and the symbol is within 1 MiB, and either way they load the symbol's address |
| Relaxation.AdrpLdrResult | lld/ELF/Arch/AArch64.cpp:847-922 | tryRelaxAdrpLdr on the section bytes, as the nested tryRelaxAdrpAdd leaves them |
| Relaxation.AdrpLdrResultChecks | lld/ELF/Arch/AArch64.cpp:850-901 | the relaxation applies exactly when all of tryRelaxAdrpLdr's checks pass |
| Relaxation.AdrpLdrWritesWords | lld/ELF/Arch/AArch64.cpp:908-921 | after the relaxation the section holds the final words at the two places |
| Relaxation.AdrpLdrFrame | lld/ELF/Arch/AArch64.cpp:908-921 | ... and is unchanged everywhere else |
| Relaxation.AdrpLdrLoadsAddress | lld/ELF/Arch/AArch64.cpp:853-921 | after the relaxation the two words load the symbol's address into the LDR's register |
| Relaxation.AdrpLdrOnce | lld/ELF/Arch/AArch64.cpp:878-883 | the relaxation cannot apply twice: the second word is no longer a 64-bit LDR |
| Relaxation.AdrpLdrPlaces | lld/ELF/Arch/AArch64.cpp:861-871 | relocations that pass the checks are for a symbol, on consecutive words |
| Relaxation.Relaxer.TryRelaxAdrpAdd | lld/ELF/Arch/AArch64.cpp:798-845 | returns whether AdrpAddResult applies and leaves its bytes, or the buffer unchanged |
| Relaxation.Relaxer.TryRelaxAdrpLdr | lld/ELF/Arch/AArch64.cpp:847-922 | returns whether AdrpLdrResult applies and leaves its bytes, or the buffer unchanged |
| Relaxation.Relaxer.WriteAdrpAdd | lld/ELF/Arch/AArch64.cpp:908-919 | an ADRP and an ADD on the register, relocated with the page delta and the address; the diagnostics are ADR_PREL_PG_HI21's checks of the page delta |
| Relaxation.Relaxer.WriteNopAdr | lld/ELF/Arch/AArch64.cpp:839-843 | a NOP over the ADRP and an ADR relocated with the distance; the diagnostics are ADR_PREL_LO21's checks of the distance |
| Alloc.AllocFrom | lld/ELF/Arch/AArch64.cpp:937-976 | the loop from index i: the final bytes and the diagnostics in order |
| Alloc.RelocateAlloc | lld/ELF/Arch/AArch64.cpp:930-977 | the buffer and diagnostics the loop leaves are AllocResult's, which runs the relaxer's scan and AllocFrom from 0 |
| Alloc.NoRewriteAt | lld/ELF/Arch/AArch64.cpp:946-960 | with relax and safeToRelaxAdrpLdr off, neither pair rewrite applies, so a relocation that is not a TLS relaxation is relocated as it is |
| Alloc.NoRelaxRelocatesEach | lld/ELF/Arch/AArch64.cpp:937-976 | with both relaxer flags off and no TLS relaxation from i on, the loop equals the reference loop that relocates each relocation in order |
| Alloc.NoRelaxAllocResult | lld/ELF/Arch/AArch64.cpp:775-778 | without --relax the relaxer's scan leaves safeToRelaxAdrpLdr false, so relocateAlloc over the section is the reference loop |
| Alloc.AllocIteration | lld/ELF/Arch/AArch64.cpp:938-975 | one iteration does what AllocFrom does at i and says where the loop goes on |
| Alloc.AdrpLdrStep | lld/ELF/Arch/AArch64.cpp:947-953 | a GOT page relocation consumes the pair when tryRelaxAdrpLdr applies, and is relocated alone otherwise |
| Alloc.AdrpAddStep | lld/ELF/Arch/AArch64.cpp:954-960 | a PC-relative page relocation consumes the pair when tryRelaxAdrpAdd applies |
| Alloc.GdToIeStep | lld/ELF/Arch/AArch64.cpp:961-964 | GD-to-IE rewrites one instruction |
| Alloc.GdToLeStep | lld/ELF/Arch/AArch64.cpp:965-967 | GD-to-LE rewrites one instruction |
| Alloc.IeToLeStep | lld/ELF/Arch/AArch64.cpp:968-970 | IE-to-LE rewrites one instruction |
| Alloc.SwitchTaken | lld/ELF/Arch/AArch64.cpp:941-946 | past the memory-tagging GOT check, the loop goes through the switch on the expression kind |
| Alloc.NeedsGotForMemtag | lld/ELF/Arch/AArch64.cpp:924-928 | the memory-tagging GOT check only ever holds for a GOT kind, so it keeps a relocation from the GOT-load (ADRP + LDR) rewrite and from no other |
| Branch.InBranchRange26 | lld/ELF/Arch/AArch64.cpp:444-458 | a B/BL in range has an offset that passes relocate's signed 28-bit check; an aligned offset that passes it is in range |
| Branch.InBranchRangePlt32 | lld/ELF/Arch/AArch64.cpp:444-458 | the same for PLT32 and its signed 32-bit check |
| Branch.InBranchRange | lld/ELF/Arch/AArch64.cpp:444-458 | any type other than B, BL and PLT32 is always in range |
| Branch.Range26 | lld/ELF/Arch/AArch64.cpp:444-458 | B/BL are in range exactly within 2^27 - 4 forward and 2^27 backward |
| Branch.RangePlt32 | lld/ELF/Arch/AArch64.cpp:444-458 | PLT32 is in range exactly within 2^31 - 4 forward and 2^31 backward |
| Branch.Reach28 | lld/ELF/Arch/AArch64.cpp:565-578 | the reach of a signed 28-bit offset in each direction |
| Branch.Reach32 | lld/ELF/Arch/AArch64.cpp:509-513 | the reach of a signed 32-bit offset in each direction |
| Branch.ThunkSectionSpacingInRange | lld/ELF/Arch/AArch64.cpp:437-442 | a B/BL across one thunk section spacing, either way, is in range |
| Branch.NeedsThunk | lld/ELF/Arch/AArch64.cpp:418-435 | a thunk is only ever needed for B, BL or PLT32, and never for an undefined symbol without a PLT entry |
| Branch.NeedsThunkOutOfRange | lld/ELF/Arch/AArch64.cpp:418-435 | for a B, BL or PLT32 to anything but an undefined symbol without a PLT entry, a thunk is needed exactly when the destination is out of range |
| Branch.NoThunkFits | lld/ELF/Arch/AArch64.cpp:418-435 | a B/BL that needs no thunk passes relocate's range check |
| Branch.NoThunkFitsPlt32 | lld/ELF/Arch/AArch64.cpp:418-435 | a PLT32 that needs no thunk passes relocate's signed 32-bit check |
| Branch.ControlTransferAddend | lld/ELF/Arch/AArch64.cpp:979-1002 | 0 for PLT32, the addend for CALL26/JUMP26, none for any other type |
| Branch.BranchInfoAtTarget | lld/ELF/Arch/AArch64.cpp:1004-1013 | the first relocation at or after the offset, when it is at the offset and a JUMP26, with its addend; otherwise none and 0 |
| Branch.Redirected | lld/ELF/Arch/AArch64.cpp:1015-1027 | keeps type and offset, takes the target's kind and symbol; PLT32 adds the target's addend, the others take it |
| Branch.InputSection.Redirect | lld/ELF/Arch/AArch64.cpp:1015-1027 | relocation i, and no other, becomes Redirected |
| Branch.RedirectedTransfersLikeTarget | lld/ELF/Arch/AArch64.cpp:979-1027 | a redirected B/BL transfers control exactly where the target B does; a redirected PLT32 keeps effective addend 0 |
| Plt.SlotWordsKeepOpcodes | lld/ELF/Arch/AArch64.cpp:395-398 | relocating the three words changes only their immediates |
| Plt.SlotChecksPass | lld/ELF/Arch/AArch64.cpp:395-398 | nothing is reported exactly when the slot's page is within 4 GiB of the ADRP's and the slot is 8-byte aligned |
| Plt.AdrpReachesSlotPage | lld/ELF/Arch/AArch64.cpp:395-396 | the ADRP leaves the slot's page in x16 |
| Plt.LdrLoadsSlot | lld/ELF/Arch/AArch64.cpp:397 | the LDR loads from the slot |
| Plt.AddReachesSlot | lld/ELF/Arch/AArch64.cpp:398 | the ADD leaves the slot's address in x16 |
| Plt.SlotAddressed | lld/ELF/Arch/AArch64.cpp:395-398 | when nothing is reported, the relocated words address the slot |
| Plt.RelocateSlotAddressing | lld/ELF/Arch/AArch64.cpp:412-415 | relocating the three words leaves SlotWords and changes nothing else |
| Plt.SlotWordsKeepAddrInst | lld/ELF/Arch/AArch64.cpp:395-398 | the relocated ADRP/LDR/ADD are the template's with only their immediates changed |
| Plt.WriteTemplate | lld/ELF/Arch/AArch64.cpp:391-398 | the memcpy of a template followed by its relocation leaves the template with SlotWords in place of its address words |
| Plt.WriteGotPlt | lld/ELF/Arch/AArch64.cpp:371-373 | a lazily bound slot holds the PLT header's address; nothing else changes |
| Plt.HeaderWords | lld/ELF/Arch/AArch64.cpp:380-399 | the header is PltData with only the ADRP, LDR and ADD immediates changed |
| Plt.EntryWords | lld/ELF/Arch/AArch64.cpp:401-416 | the entry is PltInst with only the ADRP, LDR and ADD immediates changed |
| Plt.WriteIgotPlt | lld/ELF/Arch/AArch64.cpp:375-378 | an ifunc's slot holds the symbol's address when addends are written, and nothing changes otherwise |
| Plt.WritePltHeader | lld/ELF/Arch/AArch64.cpp:380-399 | the header's bytes are HeaderWords for .got.plt[2] |
| Plt.HeaderLoadsSlot | lld/ELF/Arch/AArch64.cpp:380-399 | the header addresses .got.plt[2], loads x17 from it and branches there |
| Plt.WritePlt | lld/ELF/Arch/AArch64.cpp:401-416 | the entry's bytes are EntryWords for the symbol's slot |
| Plt.EntryLoadsSlot | lld/ELF/Arch/AArch64.cpp:401-416 | the entry addresses the slot, loads x17 from it and branches there |
| Plt.BtiHeaderWithoutBti | lld/ELF/Arch/AArch64.cpp:1118-1150 | without BTI the BTI/PAC header is the plain header |
| Plt.BtiHeaderWithBti | lld/ELF/Arch/AArch64.cpp:1134-1146 | with BTI the header is `bti c` followed by the plain header one word further on |
| Plt.BtiHeaderWords | lld/ELF/Arch/AArch64.cpp:1118-1150 | the header is its template (`bti c` before the seven header words with BTI, a NOP after them without) with only the ADRP, LDR and ADD immediates changed |
| Plt.BtiEntryWords | lld/ELF/Arch/AArch64.cpp:1152-1205 | the entry is the template for its kind (optional `bti c`, AddrInst, the branch, NOP padding) with only the three immediates changed |
| Plt.BtiEntryLoadsSlot | lld/ELF/Arch/AArch64.cpp:1181-1201 | the entry's ADRP, after the optional `bti c`, addresses the slot; the branch is br, autia1716 + br, or braa by the entry kind |
| Plt.WriteEntryBody | lld/ELF/Arch/AArch64.cpp:1189-1201 | AddrInst relocated for the slot, then the branch |
| Plt.BtiPac.constructor | lld/ELF/Arch/AArch64.cpp:1088-1116 | the entry kind follows -z pac-plt and the PAuth ABI; entries are 24 bytes exactly when either feature is on |
| Plt.BtiPac.WritePltHeader | lld/ELF/Arch/AArch64.cpp:1118-1150 | the header's bytes are BtiHeaderWords; the ADRP place is plt + 8 with BTI and plt + 4 without |
| Plt.BtiPac.WritePlt | lld/ELF/Arch/AArch64.cpp:1152-1205 | the entry gets `bti c` exactly for a NEEDS_COPY, IPLT or thunk-accessed symbol when BTI is on, and its bytes are BtiEntryWords |
| Plt.BtiPac.EntryFillsEntrySize | lld/ELF/Arch/AArch64.cpp:1311-1317 | on a target setAArch64TargetInfo selects, every entry, with or without `bti c`, fills the entry size the constructor chose |
| Memtag.AddTaggedSymbolReferences | lld/ELF/Arch/AArch64.cpp:1207-1236 | counts the global data objects the section references, tags the local ones, and reports a REL section |
| Memtag.CountRefsAt | lld/ELF/Arch/AArch64.cpp:1225-1233 | counting adds its references to each counted symbol, and only counted symbols get a count |
| Memtag.CountRefsAppend | lld/ELF/Arch/AArch64.cpp:1258-1268 | counting two runs of references in turn is counting their concatenation |
| Memtag.ReconcileAt | lld/ELF/Arch/AArch64.cpp:1279-1292 | the second pass keeps exactly the symbols declared no more often than their count and takes their declarations off |
| Memtag.ReconcileAppend | lld/ELF/Arch/AArch64.cpp:1274-1293 | reconciling two runs of declarations in turn is reconciling their concatenation |
| Memtag.CountFileReferences | lld/ELF/Arch/AArch64.cpp:1261-1267 | the counts, locals and diagnostics of one object's memtag globals sections |
| Memtag.CountTaggedReferences | lld/ELF/Arch/AArch64.cpp:1255-1268 | pass 1: the counts of every memtag globals section of every relocatable object |
| Memtag.DropFileUses | lld/ELF/Arch/AArch64.cpp:1279-1292 | the second pass over one file's symbols |
| Memtag.DropUntaggedUses | lld/ELF/Arch/AArch64.cpp:1270-1293 | pass 2 over every object and binary file |
| Memtag.MarkTagged | lld/ELF/Arch/AArch64.cpp:1301-1308 | every symbol left in the map is tagged; overTagged holds those whose count is not zero |
| Memtag.KeptAt | lld/ELF/Arch/AArch64.cpp:1274-1294 | a symbol keeps a count through both passes exactly when it is KeptTagged, and the count is its references minus its declarations |
| Memtag.TaggedOutcome | lld/ELF/Arch/AArch64.cpp:1252-1309 | what the two passes and the last loop leave, in terms of all the files' references and declarations |
| Memtag.CreateTaggedSymbols | lld/ELF/Arch/AArch64.cpp:1252-1309 | see below |

`Memtag.CreateTaggedSymbols` states:
- the tagged symbols are the local data objects referenced from a memtag
  globals section, plus the global data objects referenced from one and
  declared no more often than they are referenced;
- the assertion fires exactly for those declared strictly less often;
- `--apply-dynamic-relocs` is reported exactly when a symbol stays in the map.

## Left out

- isAArch64BTILandingPad (lines 35-61) is not modelled. It needs the section
  contents of another input section and the symbol table.
- The AArch64 constructor's choice of dynamic relocation types, default page
  size and image base (lines 113-132): these are constants used by other
  parts of the linker. Only the PLT sizes appear, in `Plt.BtiPac`.
- Diagnostics are returned as values (`Diag`, `MemtagDiag`) rather than
  printed, and their text is not modelled. `llvm_unreachable` and
  `InternalErr` cases are excluded by preconditions (`Handled`, the TLS type
  predicates).
- `Ctx`, `getVA`, `getGotPltVA`, `getRelocTargetVA` and the output section
  address are parameters. Their computation is not part of this model.
- The `applyBranchToBranchOptImpl` driver is not part of this model; only its
  three callbacks are.
- needsGot (used by needsGotForMemtag) is not part of this model. It is given
  as a predicate on expression kinds.
- Symbol.isTagged is a constant of the symbol in `Apply` and `Alloc`, because
  createTaggedSymbols runs before any relocation. `Memtag` returns the set of
  tagged symbols rather than setting the flag.
- Memtag.AddTaggedSymbolReferences: reading REL or RELA records (the ELFT
  template dispatch) is not modelled. A section is a sequence of referenced
  symbols plus a flag saying its relocations are REL.
- Memtag.AddTaggedSymbolReferences: `sec.markDead()` is not modelled.
- Memtag.CountTaggedReferences: null section entries are not modelled.
- Memtag.CreateTaggedSymbols: the `assert(hasMemtag(ctx))` at entry is not
  modelled.
- Plt.WriteTemplate: the memcpy of a template is performed in three pieces
  (the words before the address words, the address words, the rest). This
  leaves the same bytes as one memcpy.
- Plt.BtiPac.WritePltHeader: the ADRP's place is passed as plt + 4 or
  plt + 8 directly, rather than by advancing `plt` as the source does.
- Templates are given as instruction words laid out little-endian, not as
  byte arrays.
- Plt.BtiPac.EntryFillsEntrySize holds only for a target
  setAArch64TargetInfo selects (BTI or -z pac-plt). With neither feature on,
  the BtiPac entry would be 24 bytes in a 16-byte slot, but lld never creates
  that object.
- Relaxation.Relaxer.TryRelaxAdrpAdd requires the ADRP relocation to have a
  symbol: the source dereferences it once the two symbols compare equal.
- Apply.AdrpChecks is stated for ADR_PREL_PG_HI21. The other page types
  share its case arm, as `CheckOf` shows.
- Apply.Ldst16Field, Apply.Ldst32Field, Apply.Ldst64Field and
  Apply.Ldst128Field are stated for the LDSTn_ABS_LO12_NC types. The TLS,
  GOT and descriptor types share their case arms.
- RoundTrip lemmas cover one representative type of each immediate
  encoding. The MOVW G1-G3 and signed MOVW groups are not covered; their
  immediates are deliberately unshifted.
- The write order inside the relaxations follows the source. Only the final
  bytes are specified; intermediate states are not.
