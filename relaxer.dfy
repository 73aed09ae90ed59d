// AArch64Relaxer: the two ADRP peepholes relocateAlloc tries on consecutive
// relocations.
//   ADRP xn, sym ; ADD xn, xn, :lo12:sym            =>  NOP ; ADR xn, sym
//   ADRP xn, :got:sym ; LDR xn, [xn, :got_lo12:sym]  =>  ADRP xn, sym ; ADD xn, xn, :lo12:sym
// (the second followed by an attempt at the first). Each is a pure function
// from the section bytes to the rewritten bytes, None when the pattern does
// not match, and a method on the buffer that performs it.

module Relaxation {
  import opened Bits
  import opened Bytes
  import opened Insn
  import opened Reloc
  import opened Apply
  import opened RoundTrip

  // ---- the pairing precondition ------------------------------------------

  /** Every ADR_GOT_PAGE is immediately followed by an LD64_GOT_LO12_NC, and
      every LD64_GOT_LO12_NC is the second of such a pair, reading the
      relocations from left to right as the constructor does. */
  predicate GotPaired(relocs: seq<Relocation>)
    decreases |relocs|
  {
    if relocs == [] then true
    else if relocs[0].rtype == ADR_GOT_PAGE then
      |relocs| >= 2 && relocs[1].rtype == LD64_GOT_LO12_NC && GotPaired(relocs[2..])
    else if relocs[0].rtype == LD64_GOT_LO12_NC then false
    else GotPaired(relocs[1..])
  }

  /** The pairing condition at one index: an ADR_GOT_PAGE has its
      LD64_GOT_LO12_NC right after it, an LD64_GOT_LO12_NC its ADR_GOT_PAGE
      right before it. */
  predicate PairedAt(relocs: seq<Relocation>, k: nat)
    requires k < |relocs|
  {
    (relocs[k].rtype == ADR_GOT_PAGE ==> k + 1 < |relocs| && relocs[k + 1].rtype == LD64_GOT_LO12_NC)
    && (relocs[k].rtype == LD64_GOT_LO12_NC ==> 0 < k && relocs[k - 1].rtype == ADR_GOT_PAGE)
  }

  /** Dropping the first `n` relocations leaves the pairing condition at
      each later index as it was, provided the last one dropped is not an
      ADR_GOT_PAGE (which would pair with the first one kept). */
  lemma PairedAfterDrop(relocs: seq<Relocation>, n: nat)
    requires 0 < n <= |relocs| && relocs[n - 1].rtype != ADR_GOT_PAGE
    ensures forall k | n <= k < |relocs| :: PairedAt(relocs, k) == PairedAt(relocs[n..], k - n)
  {
    var rest := relocs[n..];
    forall k | n <= k < |relocs|
      ensures PairedAt(relocs, k) == PairedAt(rest, k - n)
    {
      assert rest[k - n] == relocs[k];
      if k + 1 < |relocs| {
        assert rest[k + 1 - n] == relocs[k + 1];
      }
      if k > n {
        assert rest[k - 1 - n] == relocs[k - 1];
      }
    }
  }

  /** The left-to-right scan accepts exactly the sequences in which every
      index is paired: one solitary ADR_GOT_PAGE or LD64_GOT_LO12_NC anywhere
      makes it fail. */
  lemma {:induction false} GotPairedLocally(relocs: seq<Relocation>)
    ensures GotPaired(relocs) <==> forall k :: 0 <= k < |relocs| ==> PairedAt(relocs, k)
    decreases |relocs|
  {
    if relocs == [] {
    } else if relocs[0].rtype == ADR_GOT_PAGE || relocs[0].rtype == LD64_GOT_LO12_NC {
      if relocs[0].rtype == ADR_GOT_PAGE && |relocs| >= 2 && relocs[1].rtype == LD64_GOT_LO12_NC {
        GotPairedLocally(relocs[2..]);
        PairedAfterDrop(relocs, 2);
        assert PairedAt(relocs, 0) && PairedAt(relocs, 1);
        if forall k :: 0 <= k < |relocs| ==> PairedAt(relocs, k) {
          forall k | 0 <= k < |relocs| - 2
            ensures PairedAt(relocs[2..], k)
          {
            assert PairedAt(relocs, k + 2);
          }
        }
      } else {
        assert !PairedAt(relocs, 0);
      }
    } else {
      GotPairedLocally(relocs[1..]);
      PairedAfterDrop(relocs, 1);
      assert PairedAt(relocs, 0);
      if forall k :: 0 <= k < |relocs| ==> PairedAt(relocs, k) {
        forall k | 0 <= k < |relocs| - 1
          ensures PairedAt(relocs[1..], k)
        {
          assert PairedAt(relocs, k + 1);
        }
      }
    }
  }

  /** The constructor's scan: steps over each ADR_GOT_PAGE/LD64_GOT_LO12_NC
      pair and stops at the first ADR_GOT_PAGE without its partner or the
      first LD64_GOT_LO12_NC on its own; the relocations are paired exactly
      when it reaches the end. */
  method ScanGotPairs(relocs: seq<Relocation>) returns (paired: bool)
    ensures paired == GotPaired(relocs)
  {
    var i := 0;
    while i != |relocs|
      invariant 0 <= i <= |relocs|
      invariant GotPaired(relocs) == GotPaired(relocs[i..])
      decreases |relocs| - i
    {
      if relocs[i].rtype == ADR_GOT_PAGE {
        if i + 1 < |relocs| && relocs[i + 1].rtype == LD64_GOT_LO12_NC {
          assert relocs[i..][2..] == relocs[i + 2..];
          i := i + 2;
          continue;
        }
        break;
      } else if relocs[i].rtype == LD64_GOT_LO12_NC {
        break;
      }
      assert relocs[i..][1..] == relocs[i + 1..];
      i := i + 1;
    }
    paired := i == |relocs|;
  }

  // ---- instruction patterns ----------------------------------------------

  /** ADRP (op = 1, bits 24-28 = 10000). */
  predicate IsAdrp(w: bv32) {
    w & 0x9f00_0000 == 0x9000_0000
  }

  /** ADR (op = 0, bits 24-28 = 10000). */
  predicate IsAdr(w: bv32) {
    w & 0x9f00_0000 == 0x1000_0000
  }

  /** ADD (immediate), 64-bit, without the LSL #12 shift. */
  predicate IsAddImm(w: bv32) {
    w & 0xffc0_0000 == 0x9100_0000
  }

  /** A load/store with an unsigned 12-bit offset whose size field has its
      top bit set (the 64-bit LDR of a GOT entry). */
  predicate IsLdrX(w: bv32) {
    w & 0x3b00_0000 == 0x3900_0000 && w >> 31 != 0
  }


  /** The address of the place at `offset` in a section at `secAddr`,
      computed in 64-bit arithmetic. */
  function AddrOf(secAddr: bv64, offset: nat): bv64 {
    secAddr + (offset % 0x1_0000_0000_0000_0000) as bv64
  }

  /** The ADRP keeps its opcode and destination register whatever its
      immediate. */
  lemma AdrpWordShape(insn: bv32)
    requires IsAdrp(insn)
    ensures forall imm :: IsAdrp(AdrImmWord(insn, imm)) && Rd(AdrImmWord(insn, imm)) == Rd(insn)
  {
  }

  /** The same for ADR. */
  lemma AdrWordShape(insn: bv32)
    requires IsAdr(insn)
    ensures forall imm :: IsAdr(AdrImmWord(insn, imm)) && Rd(AdrImmWord(insn, imm)) == Rd(insn)
  {
  }

  /** The same for ADD (immediate), which keeps its source register too and
      is not a load. */
  lemma AddWordShape(insn: bv32)
    requires IsAddImm(insn)
    ensures forall imm :: IsAddImm(Imm12Word(insn, imm)) && !IsLdrX(Imm12Word(insn, imm))
                          && Rd(Imm12Word(insn, imm)) == Rd(insn)
                          && Rn(Imm12Word(insn, imm)) == Rn(insn)
  {
  }

  /** The opcodes the relaxations write, with the register of `w` filled in. */
  lemma OpcodesWithRegister(w: bv32)
    ensures IsAdr(AdrX0 | Rd(w)) && Rd(AdrX0 | Rd(w)) == Rd(w)
    ensures IsAdrp(AdrpX0 | Rd(w)) && Rd(AdrpX0 | Rd(w)) == Rd(w)
    ensures IsAddImm(AddX0 | Rd(w) | (Rd(w) << 5))
    ensures Rd(AddX0 | Rd(w) | (Rd(w) << 5)) == Rd(w) && Rn(AddX0 | Rd(w) | (Rd(w) << 5)) == Rd(w)
  {
  }

  /** NOP is not an ADRP. */
  lemma NopIsNotAdrp()
    ensures !IsAdrp(Nop)
  {
  }

  /** An ADR or an ADD (immediate) is not a 64-bit LDR. */
  lemma NotLdrX(w: bv32)
    ensures IsAdr(w) || IsAddImm(w) ==> !IsLdrX(w)
  {
  }

  /** Two consecutive instruction words written at `off`. */
  function StorePair(s: seq<bv8>, off: nat, w1: bv32, w2: bv32): (r: seq<bv8>)
    requires off + 8 <= |s|
    ensures |r| == |s|
    ensures Load32le(r, off) == w1 && Load32le(r, off + 4) == w2
    ensures forall j :: 0 <= j < |s| && !(off <= j < off + 8) ==> r[j] == s[j]
  {
    LoadStoreDisjoint(Store32le(s, off, w1), off + 4, w2, off);
    Store32le(Store32le(s, off, w1), off + 4, w2)
  }

  /** Writing a second pair over the first leaves only the second. */
  lemma StorePairTwice(s: seq<bv8>, off: nat, w: (bv32, bv32), v: (bv32, bv32))
    requires off + 8 <= |s|
    ensures StorePair(StorePair(s, off, w.0, w.1), off, v.0, v.1) == StorePair(s, off, v.0, v.1)
  {
    StoreStoreDisjoint32le(Store32le(s, off, w.0), off + 4, w.1, off, v.0);
    StoreStore32le(s, off, w.0, v.0);
    StoreStore32le(Store32le(s, off, v.0), off + 4, w.1, v.1);
  }

  // ---- what the instructions compute (Arm architecture) -----------------

  /** An address plus an offset, wrapping at 2^64. */
  function Advance(base: bv64, off: bv64): bv64 {
    base + off
  }

  /** The value ADRP at `place` writes to its register: the place's 4 KiB
      page plus its signed immediate in pages. */
  function AdrpValue(place: bv64, w: bv32): bv64 {
    Advance(Page(place), SignExtend(AdrImm(w), I21) << 12)
  }

  /** The value ADR at `place` writes: the place plus its signed immediate. */
  function AdrValue(place: bv64, w: bv32): bv64 {
    Advance(place, SignExtend(AdrImm(w), I21))
  }

  /** The value ADD (immediate) writes: its source plus the immediate. */
  function AddValue(x: bv64, w: bv32): bv64 {
    Advance(x, Imm12(w))
  }

  /** ADRP and an ADD that adds to the register the ADRP wrote and writes
      the sum back to it. */
  predicate AdrpAddInsns(adrp: bv32, add: bv32) {
    IsAdrp(adrp) && IsAddImm(add) && Rd(adrp) == Rd(add) && Rd(adrp) == Rn(add)
  }

  /** ADRP reg at p0 followed by ADD reg, reg leaves `va` in `reg`. */
  predicate AdrpAddLoads(p0: bv64, w0: bv32, w1: bv32, reg: bv32, va: bv64) {
    AdrpAddInsns(w0, w1) && Rd(w0) == reg && AddValue(AdrpValue(p0, w0), w1) == va
  }

  /** NOP followed by ADR reg at p1 leaves `va` in `reg`. */
  predicate NopAdrLoads(p1: bv64, w0: bv32, w1: bv32, reg: bv32, va: bv64) {
    w0 == Nop && IsAdr(w1) && Rd(w1) == reg && AdrValue(p1, w1) == va
  }

  /** The distance from `base` to `va` leads to `va`. */
  lemma AdvanceReaches(base: bv64, va: bv64)
    ensures Advance(base, va - base) == va
  {
  }

  /** The page distance leads from one page to another ... */
  lemma PageStep(place: bv64, hi: bv64, va: bv64)
    requires hi == Page(va) - Page(place)
    ensures Advance(Page(place), hi) == Page(va)
  {
    AdvanceReaches(Page(place), Page(va));
  }

  /** ... and the offset in the page from the page to the address. */
  lemma InPageStep(lo: bv64, va: bv64)
    requires lo == va - Page(va)
    ensures Advance(Page(va), lo) == va
  {
    AdvanceReaches(Page(va), va);
  }

  // ---- ADRP + ADD => NOP + ADR -------------------------------------------

  /** The relocation checks of tryRelaxAdrpAdd: an ADR_PREL_PG_HI21 and an
      ADD_ABS_LO12_NC on consecutive instructions, for the same symbol,
      both without addend. */
  predicate AdrpAddRelocs(adrpRel: Relocation, addRel: Relocation) {
    adrpRel.rtype == ADR_PREL_PG_HI21 && addRel.rtype == ADD_ABS_LO12_NC
    && adrpRel.offset + 4 == addRel.offset && adrpRel.sym == addRel.sym
    && adrpRel.addend == 0 && addRel.addend == 0
  }

  /** -1 MiB <= val < 1 MiB, reading val as an int64_t: the reach of ADR. */
  predicate WithinMiB(val: bv64) {
    !SignedLt(val, 0xFFFF_FFFF_FFF0_0000) && SignedLt(val, 0x10_0000)
  }

  /** tryRelaxAdrpAdd on the two instruction words, the ADD being at
      `place` and the symbol at `va`: when the instructions match and the
      distance is within 1 MiB, a NOP and an ADR of that distance on the
      ADRP's register. */
  function AdrpAddWords(adrp: bv32, add: bv32, place: bv64, va: bv64): Option<(bv32, bv32)> {
    if !AdrpAddInsns(adrp, add) || !WithinMiB(va - place) then None
    else Some((Nop, AdrImmWord(AdrX0 | Rd(adrp), va - place)))
  }

  /** The NOP + ADR leave `va` in the ADRP's register. */
  lemma AdrpAddWordsLoad(adrp: bv32, add: bv32, place: bv64, va: bv64)
    ensures AdrpAddWords(adrp, add, place, va).Some?
            ==> NopAdrLoads(place, AdrpAddWords(adrp, add, place, va).value.0,
                            AdrpAddWords(adrp, add, place, va).value.1, Rd(adrp), va)
  {
    if AdrpAddWords(adrp, add, place, va).Some? {
      AdrpAddWordsRewrite(adrp, place, va);
    }
  }

  /** Within 1 MiB is what relocate's check of ADR_PREL_LO21 accepts, so the
      relocation the relaxation applies reports nothing. */
  lemma WithinMiBChecks(val: bv64)
    ensures WithinMiB(val) <==> FitsInt(val, I21)
    ensures WithinMiB(val) <==> Checks(ADR_PREL_LO21, val) == []
  {
    FitsIntRange21(val);
  }

  /** The ADR written for a match decodes to its distance. */
  lemma AdrWordDecodes(adrp: bv32, val: bv64)
    requires WithinMiB(val)
    ensures IsAdr(AdrImmWord(AdrX0 | Rd(adrp), val))
    ensures Rd(AdrImmWord(AdrX0 | Rd(adrp), val)) == Rd(adrp)
    ensures SignExtend(AdrImm(AdrImmWord(AdrX0 | Rd(adrp), val)), I21) == val
  {
    OpcodesWithRegister(adrp);
    AdrWordShape(AdrX0 | Rd(adrp));
    WithinMiBChecks(val);
    AdrImmWordDecodes(AdrX0 | Rd(adrp), val);
    SignExtendField21(val);
  }

  /** ... so the NOP + ADR leave `va` in the register. */
  lemma AdrpAddWordsRewrite(adrp: bv32, place: bv64, va: bv64)
    requires WithinMiB(va - place)
    ensures NopAdrLoads(place, Nop, AdrImmWord(AdrX0 | Rd(adrp), va - place), Rd(adrp), va)
  {
    AdrWordDecodes(adrp, va - place);
    AdvanceReaches(place, va);
  }

  /** The words tryRelaxAdrpAdd writes for the section bytes `s`: when
      `relax` is set and the relocations and the words at their places
      match, a NOP and an ADR on the ADRP's register that leave the
      symbol's address in it. */
  function AdrpAddWordsAt(relax: bool, adrpRel: Relocation, addRel: Relocation,
                          secAddr: bv64, s: seq<bv8>): (r: Option<(bv32, bv32)>)
    requires adrpRel.sym != null
    requires adrpRel.offset + PlaceSize(adrpRel.rtype) <= |s|
    requires addRel.offset + PlaceSize(addRel.rtype) <= |s|
    ensures r.Some? ==> relax && AdrpAddRelocs(adrpRel, addRel)
  {
    if !relax || !AdrpAddRelocs(adrpRel, addRel) then None
    else AdrpAddWords(Load32le(s, adrpRel.offset), Load32le(s, addRel.offset),
                      AddrOf(secAddr, addRel.offset), adrpRel.sym.va)
  }

  /** Those words leave the symbol's address in the ADRP's register. */
  lemma AdrpAddWordsAtLoad(relax: bool, adrpRel: Relocation, addRel: Relocation,
                           secAddr: bv64, s: seq<bv8>)
    requires adrpRel.sym != null
    requires adrpRel.offset + PlaceSize(adrpRel.rtype) <= |s|
    requires addRel.offset + PlaceSize(addRel.rtype) <= |s|
    ensures AdrpAddWordsAt(relax, adrpRel, addRel, secAddr, s).Some?
            ==> NopAdrLoads(AddrOf(secAddr, addRel.offset),
                            AdrpAddWordsAt(relax, adrpRel, addRel, secAddr, s).value.0,
                            AdrpAddWordsAt(relax, adrpRel, addRel, secAddr, s).value.1,
                            Rd(Load32le(s, adrpRel.offset)), adrpRel.sym.va)
  {
    if relax && AdrpAddRelocs(adrpRel, addRel) {
      AdrpAddWordsLoad(Load32le(s, adrpRel.offset), Load32le(s, addRel.offset),
                       AddrOf(secAddr, addRel.offset), adrpRel.sym.va);
    }
  }

  /** tryRelaxAdrpAdd on the section bytes `s`: the section with the two
      instruction words replaced by AdrpAddWordsAt's, or None, with nothing
      written, when that does not apply. */
  function AdrpAddResult(relax: bool, adrpRel: Relocation, addRel: Relocation,
                         secAddr: bv64, s: seq<bv8>): (r: Option<seq<bv8>>)
    requires adrpRel.sym != null
    requires adrpRel.offset + PlaceSize(adrpRel.rtype) <= |s|
    requires addRel.offset + PlaceSize(addRel.rtype) <= |s|
    ensures r.Some? <==> AdrpAddWordsAt(relax, adrpRel, addRel, secAddr, s).Some?
    ensures r.Some? ==> |r.value| == |s| && adrpRel.offset + 8 <= |s|
  {
    match AdrpAddWordsAt(relax, adrpRel, addRel, secAddr, s)
    case None => None
    case Some(ws) => Some(StorePair(s, adrpRel.offset, ws.0, ws.1))
  }

  /** AdrpAddResult stores AdrpAddWordsAt's pair when there is one. */
  lemma AdrpAddResultStores(relax: bool, adrpRel: Relocation, addRel: Relocation,
                            secAddr: bv64, s: seq<bv8>)
    requires adrpRel.sym != null
    requires adrpRel.offset + PlaceSize(adrpRel.rtype) <= |s|
    requires addRel.offset + PlaceSize(addRel.rtype) <= |s|
    requires AdrpAddWordsAt(relax, adrpRel, addRel, secAddr, s).Some?
    ensures adrpRel.offset + 8 <= |s|
    ensures AdrpAddResult(relax, adrpRel, addRel, secAddr, s)
            == Some(StorePair(s, adrpRel.offset, AdrpAddWordsAt(relax, adrpRel, addRel, secAddr, s).value.0,
                              AdrpAddWordsAt(relax, adrpRel, addRel, secAddr, s).value.1))
  {
  }

  /** AdrpAddResult with its checks and its words written out on the
      section's bytes. */
  lemma AdrpAddResultUnfolds(relax: bool, adrpRel: Relocation, addRel: Relocation,
                             secAddr: bv64, s: seq<bv8>)
    requires adrpRel.sym != null
    requires adrpRel.offset + PlaceSize(adrpRel.rtype) <= |s|
    requires addRel.offset + PlaceSize(addRel.rtype) <= |s|
    ensures AdrpAddResult(relax, adrpRel, addRel, secAddr, s).Some?
            <==> relax && AdrpAddRelocs(adrpRel, addRel)
                 && AdrpAddInsns(Load32le(s, adrpRel.offset), Load32le(s, addRel.offset))
                 && WithinMiB(adrpRel.sym.va - AddrOf(secAddr, addRel.offset))
    ensures AdrpAddResult(relax, adrpRel, addRel, secAddr, s).Some?
            ==> AdrpAddResult(relax, adrpRel, addRel, secAddr, s).value
                == Store32le(Store32le(s, adrpRel.offset, Nop), addRel.offset,
                             AdrImmWord(AdrX0 | Rd(Load32le(s, adrpRel.offset)),
                                        adrpRel.sym.va - AddrOf(secAddr, addRel.offset)))
  {
  }

  /** The relaxed section holds AdrpAddWordsAt's words at the two places and
      is unchanged everywhere else. */
  lemma AdrpAddWritesWords(relax: bool, adrpRel: Relocation, addRel: Relocation,
                           secAddr: bv64, s: seq<bv8>)
    requires adrpRel.sym != null
    requires adrpRel.offset + PlaceSize(adrpRel.rtype) <= |s|
    requires addRel.offset + PlaceSize(addRel.rtype) <= |s|
    requires AdrpAddResult(relax, adrpRel, addRel, secAddr, s).Some?
    ensures Load32le(AdrpAddResult(relax, adrpRel, addRel, secAddr, s).value, adrpRel.offset)
            == AdrpAddWordsAt(relax, adrpRel, addRel, secAddr, s).value.0
    ensures Load32le(AdrpAddResult(relax, adrpRel, addRel, secAddr, s).value, addRel.offset)
            == AdrpAddWordsAt(relax, adrpRel, addRel, secAddr, s).value.1
    ensures forall j :: 0 <= j < |s| && !(adrpRel.offset <= j < adrpRel.offset + 8)
                        ==> AdrpAddResult(relax, adrpRel, addRel, secAddr, s).value[j] == s[j]
  {
    var ws := AdrpAddWordsAt(relax, adrpRel, addRel, secAddr, s).value;
    assert AdrpAddResult(relax, adrpRel, addRel, secAddr, s).value
           == StorePair(s, adrpRel.offset, ws.0, ws.1);
  }

  /** After tryRelaxAdrpAdd the section's two words are a NOP and an ADR
      that leave the symbol's address in the ADRP's register. */
  lemma AdrpAddLoadsAddress(relax: bool, adrpRel: Relocation, addRel: Relocation,
                            secAddr: bv64, s: seq<bv8>)
    requires adrpRel.sym != null
    requires adrpRel.offset + PlaceSize(adrpRel.rtype) <= |s|
    requires addRel.offset + PlaceSize(addRel.rtype) <= |s|
    requires AdrpAddResult(relax, adrpRel, addRel, secAddr, s).Some?
    ensures NopAdrLoads(AddrOf(secAddr, addRel.offset),
                        Load32le(AdrpAddResult(relax, adrpRel, addRel, secAddr, s).value, adrpRel.offset),
                        Load32le(AdrpAddResult(relax, adrpRel, addRel, secAddr, s).value, addRel.offset),
                        Rd(Load32le(s, adrpRel.offset)), adrpRel.sym.va)
  {
    AdrpAddWritesWords(relax, adrpRel, addRel, secAddr, s);
    AdrpAddWordsAtLoad(relax, adrpRel, addRel, secAddr, s);
  }

  /** The relaxation cannot apply twice: the first word is no longer an
      ADRP. */
  lemma AdrpAddOnce(relax: bool, adrpRel: Relocation, addRel: Relocation,
                    secAddr: bv64, s: seq<bv8>)
    requires adrpRel.sym != null
    requires adrpRel.offset + PlaceSize(adrpRel.rtype) <= |s|
    requires addRel.offset + PlaceSize(addRel.rtype) <= |s|
    requires AdrpAddResult(relax, adrpRel, addRel, secAddr, s).Some?
    ensures AdrpAddResult(relax, adrpRel, addRel, secAddr,
                          AdrpAddResult(relax, adrpRel, addRel, secAddr, s).value).None?
  {
    var r := AdrpAddResult(relax, adrpRel, addRel, secAddr, s).value;
    AdrpAddWritesWords(relax, adrpRel, addRel, secAddr, s);
    NopIsNotAdrp();
    assert !AdrpAddInsns(Load32le(r, adrpRel.offset), Load32le(r, addRel.offset));
  }

  // ---- ADRP + LDR (GOT) => ADRP + ADD ------------------------------------

  /** The relocation checks of tryRelaxAdrpLdr: an ADR_GOT_PAGE and an
      LD64_GOT_LO12_NC on consecutive instructions, for the same defined,
      non-preemptible symbol that is not an ifunc, both without addend. */
  predicate AdrpLdrRelocs(adrpRel: Relocation, ldrRel: Relocation) {
    adrpRel.rtype == ADR_GOT_PAGE && ldrRel.rtype == LD64_GOT_LO12_NC
    && adrpRel.offset + 4 == ldrRel.offset
    && adrpRel.sym != null && adrpRel.sym == ldrRel.sym
    && adrpRel.sym.isDefined && !adrpRel.sym.isPreemptible && !adrpRel.sym.isGnuIFunc
    && adrpRel.addend == 0 && ldrRel.addend == 0
  }

  /** Its instruction checks: an ADRP and a 64-bit LDR that loads into the
      register the ADRP wrote, from that register. */
  predicate AdrpLdrInsns(adrp: bv32, ldr: bv32) {
    IsAdrp(adrp) && IsLdrX(ldr) && Rd(adrp) == Rd(ldr) && Rd(adrp) == Rn(ldr)
  }

  /** tryRelaxAdrpLdr on the two instruction words, the ADRP being at
      `place` and the symbol at `va`: when the instructions match and the
      page distance is within +/- 4 GiB, an ADRP of the page distance and an
      ADD of the symbol's offset in its page, both on the original register,
      as relocate writes them. */
  function AdrpLdrWords(adrp: bv32, ldr: bv32, place: bv64, va: bv64): Option<(bv32, bv32)> {
    if !AdrpLdrInsns(adrp, ldr) || !FitsInt(Page(va) - Page(place), I33) then None
    else Some(AdrpAddAt(adrp, place, va))
  }

  /** The ADRP + ADD that replace the ADRP word `adrp` at `place` when the
      symbol is at `va`. */
  function AdrpAddAt(adrp: bv32, place: bv64, va: bv64): (bv32, bv32) {
    AdrpAddPair(Rd(adrp), Page(va) - Page(place), va)
  }

  /** The ADRP + ADD on `reg` that tryRelaxAdrpLdr writes and relocates: an
      ADRP of the page distance `delta` and an ADD of `va`'s offset in its
      page. */
  function AdrpAddPair(reg: bv32, delta: bv64, va: bv64): (bv32, bv32) {
    (AdrImmWord(AdrpX0 | reg, delta >> 12), Imm12Word(AddX0 | reg | (reg << 5), va))
  }

  /** The ADRP + ADD leave `va` in the original register. */
  lemma AdrpLdrWordsLoad(adrp: bv32, ldr: bv32, place: bv64, va: bv64)
    ensures AdrpLdrWords(adrp, ldr, place, va).Some?
            ==> AdrpAddLoads(place, AdrpLdrWords(adrp, ldr, place, va).value.0,
                             AdrpLdrWords(adrp, ldr, place, va).value.1, Rd(adrp), va)
  {
    if AdrpLdrWords(adrp, ldr, place, va).Some? {
      AdrpLdrWordsRewrite(adrp, place, va);
    }
  }

  /** The ADRP and ADD written for a match decode to the page distance and
      the offset in the page. */
  lemma AdrpAddWordsDecode(adrp: bv32, pageDiff: bv64, va: bv64)
    requires FitsInt(pageDiff, I33)
    ensures AdrpAddInsns(AdrImmWord(AdrpX0 | Rd(adrp), pageDiff >> 12),
                         Imm12Word(AddX0 | Rd(adrp) | (Rd(adrp) << 5), va))
    ensures Rd(AdrImmWord(AdrpX0 | Rd(adrp), pageDiff >> 12)) == Rd(adrp)
    ensures SignExtend(AdrImm(AdrImmWord(AdrpX0 | Rd(adrp), pageDiff >> 12)), I21) << 12
            == pageDiff & !0xFFF
    ensures Imm12(Imm12Word(AddX0 | Rd(adrp) | (Rd(adrp) << 5), va)) == va & 0xFFF
  {
    OpcodesWithRegister(adrp);
    AdrpWordShape(AdrpX0 | Rd(adrp));
    AddWordShape(AddX0 | Rd(adrp) | (Rd(adrp) << 5));
    AdrpField(AdrpX0 | Rd(adrp), pageDiff);
    Imm12WordDecodes(AddX0 | Rd(adrp) | (Rd(adrp) << 5), va);
  }

  /** ... so the ADRP reaches the symbol's page ... */
  lemma AdrpReachesPage(adrp: bv32, place: bv64, va: bv64)
    requires FitsInt(Page(va) - Page(place), I33)
    ensures AdrpValue(place, AdrImmWord(AdrpX0 | Rd(adrp), (Page(va) - Page(place)) >> 12)) == Page(va)
  {
    AdrpField(AdrpX0 | Rd(adrp), Page(va) - Page(place));
    SubAligned(Page(va), Page(place));
    AdrpImmReachesPage(place, AdrImmWord(AdrpX0 | Rd(adrp), (Page(va) - Page(place)) >> 12), va);
  }

  /** An ADRP whose immediate, in bytes, is the distance between the pages
      reaches the symbol's page. */
  lemma AdrpImmReachesPage(place: bv64, w: bv32, va: bv64)
    requires SignExtend(AdrImm(w), I21) << 12 == Page(va) - Page(place)
    ensures AdrpValue(place, w) == Page(va)
  {
    PageStep(place, SignExtend(AdrImm(w), I21) << 12, va);
  }

  /** ... and the ADD from there the symbol. */
  lemma AddReachesAddress(adrp: bv32, va: bv64)
    ensures AddValue(Page(va), Imm12Word(AddX0 | Rd(adrp) | (Rd(adrp) << 5), va)) == va
  {
    Imm12WordDecodes(AddX0 | Rd(adrp) | (Rd(adrp) << 5), va);
    InPageStep(va & 0xFFF, va);
  }

  /** Together: the ADRP + ADD leave `va` in the register. */
  lemma AdrpLdrWordsRewrite(adrp: bv32, place: bv64, va: bv64)
    requires FitsInt(Page(va) - Page(place), I33)
    ensures AdrpAddLoads(place, AdrImmWord(AdrpX0 | Rd(adrp), (Page(va) - Page(place)) >> 12),
                         Imm12Word(AddX0 | Rd(adrp) | (Rd(adrp) << 5), va), Rd(adrp), va)
  {
    AdrpAddWordsDecode(adrp, Page(va) - Page(place), va);
    AdrpReachesPage(adrp, place, va);
    AddReachesAddress(adrp, va);
  }

  /** The words tryRelaxAdrpLdr writes for the section bytes `s` before it
      tries tryRelaxAdrpAdd on them: when the relocations were found paired,
      the relocations and the words match, the symbol is not absolute in
      position-independent output and its page is within reach, an ADRP +
      ADD as AdrpLdrWords writes them. */
  function AdrpLdrWordsAt(safe: bool, isPic: bool, adrpRel: Relocation, ldrRel: Relocation,
                          secAddr: bv64, s: seq<bv8>): (r: Option<(bv32, bv32)>)
    requires adrpRel.offset + PlaceSize(adrpRel.rtype) <= |s|
    requires ldrRel.offset + PlaceSize(ldrRel.rtype) <= |s|
    ensures r.Some? ==> safe && AdrpLdrRelocs(adrpRel, ldrRel)
                        && !(isPic && !adrpRel.sym.hasSection)
  {
    if !safe || !AdrpLdrRelocs(adrpRel, ldrRel) then None
    else if isPic && !adrpRel.sym.hasSection then None
    else AdrpLdrWords(Load32le(s, adrpRel.offset), Load32le(s, ldrRel.offset),
                      AddrOf(secAddr, adrpRel.offset), adrpRel.sym.va)
  }

  /** Those words leave the symbol's address in the original register, as
      the GOT entry of a non-preemptible symbol holds it. */
  lemma AdrpLdrWordsAtLoad(safe: bool, isPic: bool, adrpRel: Relocation, ldrRel: Relocation,
                           secAddr: bv64, s: seq<bv8>)
    requires adrpRel.offset + PlaceSize(adrpRel.rtype) <= |s|
    requires ldrRel.offset + PlaceSize(ldrRel.rtype) <= |s|
    requires AdrpLdrWordsAt(safe, isPic, adrpRel, ldrRel, secAddr, s).Some?
    ensures adrpRel.sym != null
    ensures AdrpAddLoads(AddrOf(secAddr, adrpRel.offset),
                         AdrpLdrWordsAt(safe, isPic, adrpRel, ldrRel, secAddr, s).value.0,
                         AdrpLdrWordsAt(safe, isPic, adrpRel, ldrRel, secAddr, s).value.1,
                         Rd(Load32le(s, adrpRel.offset)), adrpRel.sym.va)
  {
    AdrpLdrPlaces(adrpRel, ldrRel, s);
    AdrpLdrWordsLoad(Load32le(s, adrpRel.offset), Load32le(s, ldrRel.offset),
                     AddrOf(secAddr, adrpRel.offset), adrpRel.sym.va);
    assert AdrpLdrWordsAt(safe, isPic, adrpRel, ldrRel, secAddr, s)
           == AdrpLdrWords(Load32le(s, adrpRel.offset), Load32le(s, ldrRel.offset),
                           AddrOf(secAddr, adrpRel.offset), adrpRel.sym.va);
  }

  /** The relocation tryRelaxAdrpLdr applies to the ADRP it wrote. */
  function AdrpSymRel(adrpRel: Relocation): (r: Relocation)
    ensures r.rtype == ADR_PREL_PG_HI21 && r.offset == adrpRel.offset && PlaceSize(r.rtype) == 4
    ensures r.addend == 0 && r.sym == adrpRel.sym
  {
    Relocation(PagePc, ADR_PREL_PG_HI21, adrpRel.offset, 0, adrpRel.sym)
  }

  /** The relocation it applies to the ADD it wrote in place of the LDR. */
  function AddRelOf(ldrRel: Relocation, sym: Symbol?): (r: Relocation)
    ensures r.rtype == ADD_ABS_LO12_NC && r.offset == ldrRel.offset && PlaceSize(r.rtype) == 4
    ensures r.addend == 0 && r.sym == sym
  {
    Relocation(Abs, ADD_ABS_LO12_NC, ldrRel.offset, 0, sym)
  }

  /** Two words at p0 and p1 = p0 + 4 that leave `va` in `reg`: an ADRP +
      ADD or a NOP + ADR. */
  predicate LoadsAddress(p0: bv64, p1: bv64, w0: bv32, w1: bv32, reg: bv32, va: bv64) {
    AdrpAddLoads(p0, w0, w1, reg, va) || NopAdrLoads(p1, w0, w1, reg, va)
  }

  /** The words tryRelaxAdrpLdr leaves once it has written the ADRP + ADD
      w0, w1 at p0 and p1: what the nested tryRelaxAdrpAdd turns them into
      when `relax` is set and it applies, w0 and w1 otherwise. */
  function AdrpLdrFinalWords(relax: bool, w0: bv32, w1: bv32, p1: bv64, va: bv64): (bv32, bv32) {
    if relax && AdrpAddWords(w0, w1, p1, va).Some? then AdrpAddWords(w0, w1, p1, va).value
    else (w0, w1)
  }

  /** The final words are a NOP + ADR exactly when relaxation is on and the
      symbol is within 1 MiB of p1, and either way they still leave `va` in
      the register. */
  lemma AdrpLdrFinalWordsLoad(relax: bool, w0: bv32, w1: bv32, p0: bv64, p1: bv64, va: bv64)
    ensures AdrpAddInsns(w0, w1)
            ==> (NopAdrLoads(p1, AdrpLdrFinalWords(relax, w0, w1, p1, va).0,
                             AdrpLdrFinalWords(relax, w0, w1, p1, va).1, Rd(w0), va)
                 <==> relax && WithinMiB(va - p1))
    ensures AdrpAddLoads(p0, w0, w1, Rd(w0), va)
            ==> LoadsAddress(p0, p1, AdrpLdrFinalWords(relax, w0, w1, p1, va).0,
                             AdrpLdrFinalWords(relax, w0, w1, p1, va).1, Rd(w0), va)
  {
    NopIsNotAdrp();
    AdrpAddWordsLoad(w0, w1, p1, va);
  }

  /** tryRelaxAdrpLdr on the section bytes `s`: the two words replaced by
      the ADRP + ADD of AdrpLdrWordsAt, as rewritten by the nested
      tryRelaxAdrpAdd; None, with nothing written, when the first rewrite
      does not apply. */
  function AdrpLdrResult(safe: bool, relax: bool, isPic: bool, adrpRel: Relocation,
                         ldrRel: Relocation, secAddr: bv64, s: seq<bv8>): (r: Option<seq<bv8>>)
    requires adrpRel.offset + PlaceSize(adrpRel.rtype) <= |s|
    requires ldrRel.offset + PlaceSize(ldrRel.rtype) <= |s|
    ensures r.Some? <==> AdrpLdrWordsAt(safe, isPic, adrpRel, ldrRel, secAddr, s).Some?
    ensures r.Some? ==> |r.value| == |s|
  {
    match AdrpLdrWordsAt(safe, isPic, adrpRel, ldrRel, secAddr, s)
    case None => None
    case Some(ws) =>
      AdrpLdrPlaces(adrpRel, ldrRel, s);
      var f := AdrpLdrFinalWords(relax, ws.0, ws.1, AddrOf(secAddr, ldrRel.offset), adrpRel.sym.va);
      Some(StorePair(s, adrpRel.offset, f.0, f.1))
  }

  /** Relocations that pass tryRelaxAdrpLdr's relocation checks are for a
      symbol, on consecutive words inside the section. */
  lemma AdrpLdrPlaces(adrpRel: Relocation, ldrRel: Relocation, s: seq<bv8>)
    requires ldrRel.offset + PlaceSize(ldrRel.rtype) <= |s|
    requires AdrpLdrRelocs(adrpRel, ldrRel)
    ensures adrpRel.sym != null
    ensures adrpRel.offset + 4 == ldrRel.offset && ldrRel.offset + 4 <= |s|
  {
  }

  /** After tryRelaxAdrpLdr the section holds AdrpLdrFinalWords at the two
      places... */
  lemma AdrpLdrWritesWords(safe: bool, relax: bool, isPic: bool, adrpRel: Relocation,
                           ldrRel: Relocation, secAddr: bv64, s: seq<bv8>)
    requires adrpRel.offset + PlaceSize(adrpRel.rtype) <= |s|
    requires ldrRel.offset + PlaceSize(ldrRel.rtype) <= |s|
    requires AdrpLdrResult(safe, relax, isPic, adrpRel, ldrRel, secAddr, s).Some?
    ensures adrpRel.sym != null && adrpRel.offset + 4 == ldrRel.offset && ldrRel.offset + 4 <= |s|
    ensures Load32le(AdrpLdrResult(safe, relax, isPic, adrpRel, ldrRel, secAddr, s).value, adrpRel.offset)
            == AdrpLdrFinalWords(relax, AdrpLdrWordsAt(safe, isPic, adrpRel, ldrRel, secAddr, s).value.0,
                                 AdrpLdrWordsAt(safe, isPic, adrpRel, ldrRel, secAddr, s).value.1,
                                 AddrOf(secAddr, ldrRel.offset),
                                 adrpRel.sym.va).0
    ensures Load32le(AdrpLdrResult(safe, relax, isPic, adrpRel, ldrRel, secAddr, s).value, ldrRel.offset)
            == AdrpLdrFinalWords(relax, AdrpLdrWordsAt(safe, isPic, adrpRel, ldrRel, secAddr, s).value.0,
                                 AdrpLdrWordsAt(safe, isPic, adrpRel, ldrRel, secAddr, s).value.1,
                                 AddrOf(secAddr, ldrRel.offset),
                                 adrpRel.sym.va).1
  {
    AdrpLdrPlaces(adrpRel, ldrRel, s);
  }

  /** ... and is unchanged everywhere else. */
  lemma AdrpLdrFrame(safe: bool, relax: bool, isPic: bool, adrpRel: Relocation,
                     ldrRel: Relocation, secAddr: bv64, s: seq<bv8>)
    requires adrpRel.offset + PlaceSize(adrpRel.rtype) <= |s|
    requires ldrRel.offset + PlaceSize(ldrRel.rtype) <= |s|
    requires AdrpLdrResult(safe, relax, isPic, adrpRel, ldrRel, secAddr, s).Some?
    ensures forall j :: 0 <= j < |s| && !(adrpRel.offset <= j < adrpRel.offset + 8)
                        ==> AdrpLdrResult(safe, relax, isPic, adrpRel, ldrRel, secAddr, s).value[j] == s[j]
  {
    AdrpLdrPlaces(adrpRel, ldrRel, s);
  }

  /** After tryRelaxAdrpLdr the two words load the symbol's address into the
      LDR's register, as an ADRP + ADD or as a NOP + ADR. */
  lemma AdrpLdrLoadsAddress(safe: bool, relax: bool, isPic: bool, adrpRel: Relocation,
                            ldrRel: Relocation, secAddr: bv64, s: seq<bv8>)
    requires adrpRel.offset + PlaceSize(adrpRel.rtype) <= |s|
    requires ldrRel.offset + PlaceSize(ldrRel.rtype) <= |s|
    requires AdrpLdrResult(safe, relax, isPic, adrpRel, ldrRel, secAddr, s).Some?
    ensures adrpRel.sym != null && adrpRel.offset + 4 == ldrRel.offset && ldrRel.offset + 4 <= |s|
    ensures LoadsAddress(AddrOf(secAddr, adrpRel.offset), AddrOf(secAddr, ldrRel.offset),
                         Load32le(AdrpLdrResult(safe, relax, isPic, adrpRel, ldrRel, secAddr, s).value,
                                  adrpRel.offset),
                         Load32le(AdrpLdrResult(safe, relax, isPic, adrpRel, ldrRel, secAddr, s).value,
                                  ldrRel.offset),
                         Rd(Load32le(s, adrpRel.offset)), adrpRel.sym.va)
  {
    var ws := AdrpLdrWordsAt(safe, isPic, adrpRel, ldrRel, secAddr, s).value;
    var r := AdrpLdrResult(safe, relax, isPic, adrpRel, ldrRel, secAddr, s).value;
    AdrpLdrWritesWords(safe, relax, isPic, adrpRel, ldrRel, secAddr, s);
    AdrpLdrWordsAtLoad(safe, isPic, adrpRel, ldrRel, secAddr, s);
    AdrpLdrFinalLoads(relax, ws.0, ws.1, Load32le(r, adrpRel.offset), Load32le(r, ldrRel.offset),
                      AddrOf(secAddr, adrpRel.offset), AddrOf(secAddr, ldrRel.offset),
                      Rd(Load32le(s, adrpRel.offset)), adrpRel.sym.va);
  }

  /** AdrpLdrFinalWordsLoad for final words l0, l1 named by the caller. */
  lemma AdrpLdrFinalLoads(relax: bool, w0: bv32, w1: bv32, l0: bv32, l1: bv32,
                          p0: bv64, p1: bv64, reg: bv32, va: bv64)
    requires AdrpAddLoads(p0, w0, w1, reg, va)
    requires l0 == AdrpLdrFinalWords(relax, w0, w1, p1, va).0
    requires l1 == AdrpLdrFinalWords(relax, w0, w1, p1, va).1
    ensures LoadsAddress(p0, p1, l0, l1, reg, va)
  {
    AdrpLdrFinalWordsLoad(relax, w0, w1, p0, p1, va);
  }

  /** The relaxation cannot apply twice: the second word is no longer a
      64-bit LDR. */
  lemma AdrpLdrOnce(safe: bool, relax: bool, isPic: bool, adrpRel: Relocation,
                    ldrRel: Relocation, secAddr: bv64, s: seq<bv8>)
    requires adrpRel.offset + PlaceSize(adrpRel.rtype) <= |s|
    requires ldrRel.offset + PlaceSize(ldrRel.rtype) <= |s|
    requires AdrpLdrResult(safe, relax, isPic, adrpRel, ldrRel, secAddr, s).Some?
    ensures AdrpLdrResult(safe, relax, isPic, adrpRel, ldrRel, secAddr,
                          AdrpLdrResult(safe, relax, isPic, adrpRel, ldrRel, secAddr, s).value).None?
  {
    var r := AdrpLdrResult(safe, relax, isPic, adrpRel, ldrRel, secAddr, s).value;
    AdrpLdrLoadsAddress(safe, relax, isPic, adrpRel, ldrRel, secAddr, s);
    NotLdrX(Load32le(r, ldrRel.offset));
    assert !AdrpLdrInsns(Load32le(r, adrpRel.offset), Load32le(r, ldrRel.offset));
  }

  /** The nested tryRelaxAdrpAdd of tryRelaxAdrpLdr passes its relocation
      checks, so on a section `s1` holding w0 and w1 it rewrites exactly
      what AdrpAddWords rewrites when relaxation is on. */
  lemma AdrpLdrNestedWords(relax: bool, adrpRel: Relocation, ldrRel: Relocation, secAddr: bv64,
                           s1: seq<bv8>, ws: (bv32, bv32))
    requires adrpRel.sym != null
    requires adrpRel.offset + 4 == ldrRel.offset && ldrRel.offset + 4 <= |s1|
    requires Load32le(s1, adrpRel.offset) == ws.0 && Load32le(s1, ldrRel.offset) == ws.1
    ensures AdrpAddWordsAt(relax, AdrpSymRel(adrpRel), AddRelOf(ldrRel, adrpRel.sym), secAddr, s1)
            == if relax then AdrpAddWords(ws.0, ws.1, AddrOf(secAddr, ldrRel.offset), adrpRel.sym.va)
               else None
  {
  }

  /** ... so the section s2 it leaves, `applied` saying whether it
      rewrote, holds AdrpLdrFinalWords. */
  lemma {:induction false} AdrpLdrNested(relax: bool, adrpRel: Relocation, ldrRel: Relocation, secAddr: bv64,
                      s: seq<bv8>, s1: seq<bv8>, ws: (bv32, bv32), applied: bool, s2: seq<bv8>)
    requires adrpRel.sym != null
    requires adrpRel.offset + 4 == ldrRel.offset && ldrRel.offset + 4 <= |s|
    requires s1 == StorePair(s, adrpRel.offset, ws.0, ws.1)
    requires applied == AdrpAddResult(relax, AdrpSymRel(adrpRel), AddRelOf(ldrRel, adrpRel.sym),
                                      secAddr, s1).Some?
    requires s2 == if applied then AdrpAddResult(relax, AdrpSymRel(adrpRel), AddRelOf(ldrRel, adrpRel.sym),
                                                 secAddr, s1).value
                   else s1
    ensures s2 == StorePair(s, adrpRel.offset,
                            AdrpLdrFinalWords(relax, ws.0, ws.1, AddrOf(secAddr, ldrRel.offset), adrpRel.sym.va).0,
                            AdrpLdrFinalWords(relax, ws.0, ws.1, AddrOf(secAddr, ldrRel.offset), adrpRel.sym.va).1)
  {
    if applied {
      AdrpLdrNestedApplied(relax, adrpRel, ldrRel, secAddr, s, s1, ws, s2);
    } else {
      AdrpLdrNestedDeclined(relax, adrpRel, ldrRel, secAddr, s, s1, ws, s2);
    }
  }

  /** When the nested rewrite applies, the section holds its words in place
      of the ones tryRelaxAdrpLdr wrote first. */
  lemma {:induction false} AdrpLdrNestedApplied(relax: bool, adrpRel: Relocation, ldrRel: Relocation,
                                                secAddr: bv64, s: seq<bv8>, s1: seq<bv8>, ws: (bv32, bv32),
                                                s2: seq<bv8>)
    requires adrpRel.sym != null
    requires adrpRel.offset + 4 == ldrRel.offset && ldrRel.offset + 4 <= |s|
    requires s1 == StorePair(s, adrpRel.offset, ws.0, ws.1)
    requires AdrpAddResult(relax, AdrpSymRel(adrpRel), AddRelOf(ldrRel, adrpRel.sym), secAddr, s1).Some?
    requires s2 == AdrpAddResult(relax, AdrpSymRel(adrpRel), AddRelOf(ldrRel, adrpRel.sym), secAddr, s1).value
    ensures s2 == StorePair(s, adrpRel.offset,
                            AdrpLdrFinalWords(relax, ws.0, ws.1, AddrOf(secAddr, ldrRel.offset), adrpRel.sym.va).0,
                            AdrpLdrFinalWords(relax, ws.0, ws.1, AddrOf(secAddr, ldrRel.offset), adrpRel.sym.va).1)
  {
    var adrRel, addRel := AdrpSymRel(adrpRel), AddRelOf(ldrRel, adrpRel.sym);
    AdrpLdrNestedFinal(relax, adrpRel, ldrRel, secAddr, s, s1, ws);
    AdrpAddResultStores(relax, adrRel, addRel, secAddr, s1);
    StorePairTwice(s, adrpRel.offset, ws, AdrpAddWordsAt(relax, adrRel, addRel, secAddr, s1).value);
  }

  /** When it does not, the words tryRelaxAdrpLdr wrote stay. */
  lemma {:induction false} AdrpLdrNestedDeclined(relax: bool, adrpRel: Relocation, ldrRel: Relocation,
                                                 secAddr: bv64, s: seq<bv8>, s1: seq<bv8>, ws: (bv32, bv32),
                                                 s2: seq<bv8>)
    requires adrpRel.sym != null
    requires adrpRel.offset + 4 == ldrRel.offset && ldrRel.offset + 4 <= |s|
    requires s1 == StorePair(s, adrpRel.offset, ws.0, ws.1)
    requires AdrpAddResult(relax, AdrpSymRel(adrpRel), AddRelOf(ldrRel, adrpRel.sym), secAddr, s1).None?
    requires s2 == s1
    ensures s2 == StorePair(s, adrpRel.offset,
                            AdrpLdrFinalWords(relax, ws.0, ws.1, AddrOf(secAddr, ldrRel.offset), adrpRel.sym.va).0,
                            AdrpLdrFinalWords(relax, ws.0, ws.1, AddrOf(secAddr, ldrRel.offset), adrpRel.sym.va).1)
  {
    AdrpLdrNestedFinal(relax, adrpRel, ldrRel, secAddr, s, s1, ws);
  }

  /** The words the nested rewrite leaves are AdrpLdrFinalWords. */
  lemma {:induction false} AdrpLdrNestedFinal(relax: bool, adrpRel: Relocation, ldrRel: Relocation,
                                              secAddr: bv64, s: seq<bv8>, s1: seq<bv8>, ws: (bv32, bv32))
    requires adrpRel.sym != null
    requires adrpRel.offset + 4 == ldrRel.offset && ldrRel.offset + 4 <= |s|
    requires s1 == StorePair(s, adrpRel.offset, ws.0, ws.1)
    ensures AdrpLdrFinalWords(relax, ws.0, ws.1, AddrOf(secAddr, ldrRel.offset), adrpRel.sym.va)
            == var m := AdrpAddWordsAt(relax, AdrpSymRel(adrpRel), AddRelOf(ldrRel, adrpRel.sym), secAddr, s1);
               if m.Some? then m.value else ws
  {
    AdrpLdrNestedWords(relax, adrpRel, ldrRel, secAddr, s1, ws);
  }

  /** AdrpLdrResult applies exactly when tryRelaxAdrpLdr's checks pass. */
  lemma AdrpLdrResultChecks(safe: bool, relax: bool, isPic: bool, adrpRel: Relocation,
                            ldrRel: Relocation, secAddr: bv64, s: seq<bv8>)
    requires adrpRel.offset + PlaceSize(adrpRel.rtype) <= |s|
    requires ldrRel.offset + PlaceSize(ldrRel.rtype) <= |s|
    ensures AdrpLdrResult(safe, relax, isPic, adrpRel, ldrRel, secAddr, s).Some?
            <==> AdrpLdrChecks(safe, isPic, adrpRel, ldrRel, secAddr, s)
  {
  }

  /** The checks of tryRelaxAdrpLdr on the relocations, the section's words
      and the distance between the pages. */
  predicate AdrpLdrChecks(safe: bool, isPic: bool, adrpRel: Relocation, ldrRel: Relocation,
                          secAddr: bv64, s: seq<bv8>)
    requires adrpRel.offset + PlaceSize(adrpRel.rtype) <= |s|
    requires ldrRel.offset + PlaceSize(ldrRel.rtype) <= |s|
  {
    safe && AdrpLdrRelocs(adrpRel, ldrRel)
    && AdrpLdrInsns(Load32le(s, adrpRel.offset), Load32le(s, ldrRel.offset))
    && !(isPic && !adrpRel.sym.hasSection)
    && FitsInt(Page(adrpRel.sym.va) - Page(AddrOf(secAddr, adrpRel.offset)), I33)
  }

  /** The ADRP + ADD that tryRelaxAdrpLdr writes over the section `s`. */
  function AdrpLdrNewWords(adrpRel: Relocation, secAddr: bv64, s: seq<bv8>): (bv32, bv32)
    requires adrpRel.sym != null && adrpRel.offset + 4 <= |s|
  {
    AdrpAddAt(Load32le(s, adrpRel.offset), AddrOf(secAddr, adrpRel.offset), adrpRel.sym.va)
  }

  /** They are the pair written on the ADRP's register `reg` for the page
      distance `val`. */
  lemma AdrpLdrNewWordsAre(adrpRel: Relocation, secAddr: bv64, s: seq<bv8>, reg: bv32, val: bv64)
    requires adrpRel.sym != null && adrpRel.offset + 4 <= |s|
    requires reg == Rd(Load32le(s, adrpRel.offset))
    requires val == Page(adrpRel.sym.va) - Page(AddrOf(secAddr, adrpRel.offset))
    ensures AdrpAddPair(reg, val, adrpRel.sym.va) == AdrpLdrNewWords(adrpRel, secAddr, s)
  {
  }

  /** When the checks pass, AdrpLdrResult is those words as the nested
      tryRelaxAdrpAdd leaves them. */
  lemma AdrpLdrResultApplies(safe: bool, relax: bool, isPic: bool, adrpRel: Relocation,
                             ldrRel: Relocation, secAddr: bv64, s: seq<bv8>)
    requires adrpRel.offset + PlaceSize(adrpRel.rtype) <= |s|
    requires ldrRel.offset + PlaceSize(ldrRel.rtype) <= |s|
    requires AdrpLdrChecks(safe, isPic, adrpRel, ldrRel, secAddr, s)
    ensures adrpRel.sym != null && adrpRel.offset + 4 == ldrRel.offset && ldrRel.offset + 4 <= |s|
    ensures AdrpLdrResult(safe, relax, isPic, adrpRel, ldrRel, secAddr, s)
            == Some(StorePair(s, adrpRel.offset,
                              AdrpLdrFinalWords(relax, AdrpLdrNewWords(adrpRel, secAddr, s).0,
                                                AdrpLdrNewWords(adrpRel, secAddr, s).1,
                                                AddrOf(secAddr, ldrRel.offset), adrpRel.sym.va).0,
                              AdrpLdrFinalWords(relax, AdrpLdrNewWords(adrpRel, secAddr, s).0,
                                                AdrpLdrNewWords(adrpRel, secAddr, s).1,
                                                AddrOf(secAddr, ldrRel.offset), adrpRel.sym.va).1))
  {
    AdrpLdrPlaces(adrpRel, ldrRel, s);
    AdrpLdrWordsAtApplies(safe, isPic, adrpRel, ldrRel, secAddr, s);
  }

  /** When the checks pass, AdrpLdrWordsAt are the new words. */
  lemma AdrpLdrWordsAtApplies(safe: bool, isPic: bool, adrpRel: Relocation, ldrRel: Relocation,
                              secAddr: bv64, s: seq<bv8>)
    requires adrpRel.offset + PlaceSize(adrpRel.rtype) <= |s|
    requires ldrRel.offset + PlaceSize(ldrRel.rtype) <= |s|
    requires AdrpLdrChecks(safe, isPic, adrpRel, ldrRel, secAddr, s)
    ensures adrpRel.sym != null && adrpRel.offset + 4 <= |s|
    ensures AdrpLdrWordsAt(safe, isPic, adrpRel, ldrRel, secAddr, s)
            == Some(AdrpLdrNewWords(adrpRel, secAddr, s))
  {
    AdrpLdrPlaces(adrpRel, ldrRel, s);
  }

  /** When the checks pass, writing the ADRP + ADD (s1) and then running
      the nested tryRelaxAdrpAdd over them (`applied` saying whether it
      rewrote, s2 what it left) gives AdrpLdrResult; `reg` is the ADRP's
      register and `val` the page distance. */
  lemma AdrpLdrApplied(safe: bool, relax: bool, isPic: bool, adrpRel: Relocation,
                       ldrRel: Relocation, secAddr: bv64, s: seq<bv8>, s1: seq<bv8>,
                       reg: bv32, val: bv64, applied: bool, s2: seq<bv8>)
    requires adrpRel.offset + PlaceSize(adrpRel.rtype) <= |s|
    requires ldrRel.offset + PlaceSize(ldrRel.rtype) <= |s|
    requires AdrpLdrChecks(safe, isPic, adrpRel, ldrRel, secAddr, s)
    requires adrpRel.sym != null && adrpRel.offset + 4 == ldrRel.offset && ldrRel.offset + 4 <= |s|
    requires reg == Rd(Load32le(s, adrpRel.offset))
    requires val == Page(adrpRel.sym.va) - Page(AddrOf(secAddr, adrpRel.offset))
    requires s1 == StorePair(s, adrpRel.offset, AdrpAddPair(reg, val, adrpRel.sym.va).0,
                             AdrpAddPair(reg, val, adrpRel.sym.va).1)
    requires applied == AdrpAddResult(relax, AdrpSymRel(adrpRel), AddRelOf(ldrRel, adrpRel.sym),
                                      secAddr, s1).Some?
    requires s2 == if applied then AdrpAddResult(relax, AdrpSymRel(adrpRel), AddRelOf(ldrRel, adrpRel.sym),
                                                 secAddr, s1).value
                   else s1
    ensures AdrpLdrResult(safe, relax, isPic, adrpRel, ldrRel, secAddr, s) == Some(s2)
  {
    AdrpLdrNewWordsAre(adrpRel, secAddr, s, reg, val);
    AdrpLdrResultApplies(safe, relax, isPic, adrpRel, ldrRel, secAddr, s);
    AdrpLdrNested(relax, adrpRel, ldrRel, secAddr, s, s1, AdrpAddPair(reg, val, adrpRel.sym.va),
                  applied, s2);
  }

  // ---- the relaxer -------------------------------------------------------

  /** AArch64Relaxer: the relaxations of ADRP-based address computations
      applied while a section is relocated. `relax` and `isPic` are the
      linker's options; the ADRP + LDR relaxation is allowed only when the
      section's GOT relocations come in pairs. */
  class Relaxer {
    const relax: bool
    const isPic: bool
    const safeToRelaxAdrpLdr: bool

    /** Scans the section's relocations when relaxation is on. */
    constructor(relax: bool, isPic: bool, relocs: seq<Relocation>)
      ensures this.relax == relax && this.isPic == isPic
      ensures safeToRelaxAdrpLdr == (relax && GotPaired(relocs))
    {
      this.relax := relax;
      this.isPic := isPic;
      var paired := false;
      if relax {
        paired := ScanGotPairs(relocs);
      }
      safeToRelaxAdrpLdr := paired;
    }

    /** tryRelaxAdrpAdd: rewrites ADRP + ADD into NOP + ADR in `buf`, the
        section's bytes at `secAddr`, and reports whether it did. */
    method TryRelaxAdrpAdd(adrpRel: Relocation, addRel: Relocation, secAddr: bv64,
                           buf: array<bv8>) returns (ok: bool)
      requires adrpRel.sym != null
      requires adrpRel.offset + PlaceSize(adrpRel.rtype) <= buf.Length
      requires addRel.offset + PlaceSize(addRel.rtype) <= buf.Length
      modifies buf
      ensures ok == AdrpAddResult(relax, adrpRel, addRel, secAddr, old(buf[..])).Some?
      ensures buf[..] == if ok then AdrpAddResult(relax, adrpRel, addRel, secAddr, old(buf[..])).value
                         else old(buf[..])
    {
      var s := buf[..];
      ok := false;
      if relax && AdrpAddRelocs(adrpRel, addRel) {
        var adrpInstr := Load32le(s, adrpRel.offset);
        var addInstr := Load32le(s, addRel.offset);
        if AdrpAddInsns(adrpInstr, addInstr) {
          var adrpDestReg := Rd(adrpInstr);
          var val := adrpRel.sym.va - AddrOf(secAddr, addRel.offset);
          if WithinMiB(val) {
            var adrRel := Relocation(Abs, ADR_PREL_LO21, addRel.offset, 0, adrpRel.sym);
            WithinMiBChecks(val);
            var diags := WriteNopAdr(buf, adrpRel.offset, adrRel, adrpDestReg, val);
            assert diags == [];
            ok := true;
          }
        }
      }
      AdrpAddResultUnfolds(relax, adrpRel, addRel, secAddr, s);
    }

    /** tryRelaxAdrpLdr: rewrites the GOT load ADRP + LDR into the address
        computation ADRP + ADD in `buf`, then tries tryRelaxAdrpAdd on the
        result, and reports whether the first rewrite happened. */
    method TryRelaxAdrpLdr(adrpRel: Relocation, ldrRel: Relocation, secAddr: bv64,
                           buf: array<bv8>) returns (ok: bool)
      requires adrpRel.offset + PlaceSize(adrpRel.rtype) <= buf.Length
      requires ldrRel.offset + PlaceSize(ldrRel.rtype) <= buf.Length
      modifies buf
      ensures ok == AdrpLdrResult(safeToRelaxAdrpLdr, relax, isPic, adrpRel, ldrRel, secAddr,
                                  old(buf[..])).Some?
      ensures buf[..] == if ok then AdrpLdrResult(safeToRelaxAdrpLdr, relax, isPic, adrpRel, ldrRel,
                                                  secAddr, old(buf[..])).value
                         else old(buf[..])
    {
      var s := buf[..];
      ok := false;
      if safeToRelaxAdrpLdr && AdrpLdrRelocs(adrpRel, ldrRel) {
        AdrpLdrPlaces(adrpRel, ldrRel, s);
        var adrpInstr := Load32le(s, adrpRel.offset);
        var ldrInstr := Load32le(s, ldrRel.offset);
        if AdrpLdrInsns(adrpInstr, ldrInstr) && !(isPic && !adrpRel.sym.hasSection) {
          var adrpDestReg := Rd(adrpInstr);
          var val := Page(adrpRel.sym.va) - Page(AddrOf(secAddr, adrpRel.offset));
          if FitsInt(val, I33) {
            var adrpSymRel := AdrpSymRel(adrpRel);
            var addRel := AddRelOf(ldrRel, adrpRel.sym);
            AdrpChecks(val);
            var diags := WriteAdrpAdd(buf, adrpSymRel, addRel, adrpDestReg, val, adrpRel.sym.va);
            assert diags == [];
            ghost var s1 := buf[..];
            var applied := TryRelaxAdrpAdd(adrpSymRel, addRel, secAddr, buf);
            AdrpLdrApplied(safeToRelaxAdrpLdr, relax, isPic, adrpRel, ldrRel, secAddr, s, s1,
                           adrpDestReg, val, applied, buf[..]);
            ok := true;
          }
        }
      }
      AdrpLdrResultChecks(safeToRelaxAdrpLdr, relax, isPic, adrpRel, ldrRel, secAddr, s);
    }

    /** The writes of tryRelaxAdrpLdr: an ADRP on `reg` relocated with the
        page delta `val`, then an ADD on `reg` relocated with the symbol's
        address `va`. Returns what the two relocate calls report: the ADRP's
        range check, as the ADD has none. */
    static method WriteAdrpAdd(buf: array<bv8>, adrpSymRel: Relocation, addRel: Relocation,
                               reg: bv32, val: bv64, va: bv64) returns (diags: seq<Diag>)
      requires adrpSymRel.rtype == ADR_PREL_PG_HI21 && addRel.rtype == ADD_ABS_LO12_NC
      requires adrpSymRel.offset + 4 == addRel.offset && addRel.offset + 4 <= buf.Length
      modifies buf
      ensures diags == Checks(ADR_PREL_PG_HI21, val)
      ensures buf[..] == StorePair(old(buf[..]), adrpSymRel.offset,
                                   AdrpAddPair(reg, val, va).0, AdrpAddPair(reg, val, va).1)
    {
      var d1 := WriteAdrp(buf, adrpSymRel, reg, val);
      var d2 := WriteAdd(buf, addRel, reg, va);
      diags := d1 + d2;
      assert d2 == [];
      assert diags == d1;
    }

    /** An ADRP on `reg` at the relocation's place, relocated with `val`. */
    static method WriteAdrp(buf: array<bv8>, rel: Relocation, reg: bv32, val: bv64)
      returns (diags: seq<Diag>)
      requires rel.rtype == ADR_PREL_PG_HI21 && rel.offset + 4 <= buf.Length
      modifies buf
      ensures diags == Checks(ADR_PREL_PG_HI21, val)
      ensures buf[..] == Store32le(old(buf[..]), rel.offset, AdrImmWord(AdrpX0 | reg, val >> 12))
    {
      diags := WriteRelocated(Little, buf, rel.offset, AdrpX0 | reg, rel, val);
      AdrpEdit(AdrpX0 | reg, val);
    }

    /** An ADD of `reg` to itself at the relocation's place, relocated with
        `va`. */
    static method WriteAdd(buf: array<bv8>, rel: Relocation, reg: bv32, va: bv64)
      returns (diags: seq<Diag>)
      requires rel.rtype == ADD_ABS_LO12_NC && rel.offset + 4 <= buf.Length
      modifies buf
      ensures diags == []
      ensures buf[..] == Store32le(old(buf[..]), rel.offset, Imm12Word(AddX0 | reg | (reg << 5), va))
    {
      diags := WriteRelocated(Little, buf, rel.offset, AddX0 | reg | (reg << 5), rel, va);
      Add12Edit(AddX0 | reg | (reg << 5), va);
    }

    /** The writes of tryRelaxAdrpAdd: a NOP over the ADRP, then an ADR on
        `reg` over the ADD, relocated by relocate with `val`. */
    static method WriteNopAdr(buf: array<bv8>, adrpOffset: nat, adrRel: Relocation, reg: bv32,
                              val: bv64) returns (diags: seq<Diag>)
      requires adrRel.rtype == ADR_PREL_LO21
      requires adrpOffset + 4 == adrRel.offset && adrRel.offset + 4 <= buf.Length
      modifies buf
      ensures diags == Checks(ADR_PREL_LO21, val)
      ensures buf[..] == Store32le(Store32le(old(buf[..]), adrpOffset, Nop), adrRel.offset,
                                   AdrImmWord(AdrX0 | reg, val))
    {
      Write32le(buf, adrpOffset, Nop);
      diags := WriteRelocated(Little, buf, adrRel.offset, AdrX0 | reg, adrRel, val);
      AdrEdit(AdrX0 | reg, val);
    }
  }
}
