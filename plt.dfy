// PLT synthesis: the .got.plt slots (writeGotPlt, writeIgotPlt), the PLT
// header and the PLT entries of the plain AArch64 target (writePltHeader,
// writePlt) and of the BTI/PAC target (AArch64BtiPac). Each copies a fixed
// template into the buffer and then relocates the ADRP/LDR/ADD that
// address a .got.plt slot with relocateNoSym. The templates are written as
// their instruction words; `Code` lays them out little-endian, which gives
// the byte arrays of the source. What the three relocated words do is
// stated at the instruction level (SlotAddressed).

module Plt {
  import opened Bits
  import opened Bytes
  import opened Insn
  import opened Reloc
  import opened Apply
  import opened Tls
  import opened Relaxation
  import RoundTrip

  // ---- the instructions of the templates ---------------------------------

  /** stp x16, x30, [sp, #-16]! */
  const StpX16X30: bv32 := 0xa9bf_7bf0
  /** adrp x16, #0 */
  const AdrpX16: bv32 := 0x9000_0010
  /** ldr x17, [x16, #0] */
  const LdrX17X16: bv32 := 0xf940_0211
  /** add x16, x16, #0 */
  const AddX16X16: bv32 := 0x9100_0210
  /** br x17 */
  const BrX17: bv32 := 0xd61f_0220
  /** bti c */
  const BtiC: bv32 := 0xd503_245f
  /** autia1716 */
  const Autia1716: bv32 := 0xd503_219f
  /** braa x17, x16 */
  const BraaX17X16: bv32 := 0xd71f_0a30

  /** Instruction words laid out as little-endian bytes. */
  function Code(ws: seq<bv32>): (r: seq<bv8>)
    ensures |r| == 4 * |ws|
  {
    if ws == [] then [] else Encode32(Little, ws[0]) + Code(ws[1..])
  }

  lemma {:induction false} CodeAppend(a: seq<bv32>, b: seq<bv32>)
    ensures Code(a + b) == Code(a) + Code(b)
  {
    if a != [] {
      assert (a + b)[0] == a[0];
      assert (a + b)[1..] == a[1..] + b;
      assert Code(a + b) == Encode32(Little, a[0]) + Code(a[1..] + b);
      CodeAppend(a[1..], b);
    } else {
      assert a + b == b;
    }
  }

  /** Storing a word is splicing in its layout. */
  lemma StoreCode(s: seq<bv8>, o: nat, w: bv32)
    requires o + 4 <= |s|
    ensures Store32le(s, o, w) == Splice(s, o, Code([w]))
  {
    assert [w][1..] == [];
  }

  /** Two adjacent word stores are one splice of their layout ... */
  lemma TwoStoresSplice(s: seq<bv8>, o: nat, a: bv32, b: bv32)
    requires o + 8 <= |s|
    ensures Store32le(Store32le(s, o, a), o + 4, b) == Splice(s, o, Code([a, b]))
  {
    var s1 := Store32le(s, o, a);
    calc {
      Store32le(s1, o + 4, b);
      { StoreCode(s1, o + 4, b); }
      Splice(s1, o + 4, Code([b]));
      { StoreCode(s, o, a); }
      Splice(Splice(s, o, Code([a])), o + 4, Code([b]));
      { SpliceCodes(s, o, [a], [b]); assert [a] + [b] == [a, b]; }
      Splice(s, o, Code([a, b]));
    }
  }

  /** ... and so are three. */
  lemma StoresSplice(s: seq<bv8>, o: nat, a: bv32, b: bv32, c: bv32)
    requires o + 12 <= |s|
    ensures Store32le(Store32le(Store32le(s, o, a), o + 4, b), o + 8, c) == Splice(s, o, Code([a, b, c]))
  {
    var s2 := Store32le(Store32le(s, o, a), o + 4, b);
    calc {
      Store32le(s2, o + 8, c);
      { StoreCode(s2, o + 8, c); }
      Splice(s2, o + 8, Code([c]));
      { TwoStoresSplice(s, o, a, b); }
      Splice(Splice(s, o, Code([a, b])), o + 8, Code([c]));
      { SpliceCodes(s, o, [a, b], [c]); assert [a, b] + [c] == [a, b, c]; }
      Splice(s, o, Code([a, b, c]));
    }
  }

  // ---- the templates -----------------------------------------------------

  /** The plain PLT header. */
  const PltData: seq<bv32> := [StpX16X30, AdrpX16, LdrX17X16, AddX16X16, BrX17, Nop, Nop, Nop]
  /** The plain PLT entry. */
  const PltInst: seq<bv32> := [AdrpX16, LdrX17X16, AddX16X16, BrX17]
  /** The BTI/PAC header without its leading `bti c` or trailing nop. */
  const BtiPltData: seq<bv32> := [StpX16X30, AdrpX16, LdrX17X16, AddX16X16, BrX17, Nop, Nop]
  const BtiData: seq<bv32> := [BtiC]
  const NopData: seq<bv32> := [Nop]
  /** The instructions that address a .got.plt slot. */
  const AddrInst: seq<bv32> := [AdrpX16, LdrX17X16, AddX16X16]
  const PacHintBr: seq<bv32> := [Autia1716, BrX17]
  const PacBr: seq<bv32> := [BraaX17X16, Nop]
  const StdBr: seq<bv32> := [BrX17, Nop]

  /** `t` with the words from index i replaced by `ws`. */
  function Patch(t: seq<bv32>, i: nat, ws: seq<bv32>): (r: seq<bv32>)
    requires i + |ws| <= |t|
    ensures |r| == |t|
    ensures forall j :: 0 <= j < |t| && !(i <= j < i + |ws|) ==> r[j] == t[j]
    ensures forall j :: 0 <= j < |ws| ==> r[i + j] == ws[j]
  {
    t[..i] + ws + t[i + |ws|..]
  }

  // ---- splicing into the buffer ------------------------------------------

  /** Two adjacent splices are one splice of the concatenation. */
  lemma SpliceAdjacent(s: seq<bv8>, o: nat, a: seq<bv8>, b: seq<bv8>)
    requires o + |a| + |b| <= |s|
    ensures Splice(Splice(s, o, a), o + |a|, b) == Splice(s, o, a + b)
  {
  }

  /** The same for word layouts. */
  lemma SpliceCodes(s: seq<bv8>, o: nat, a: seq<bv32>, b: seq<bv32>)
    requires o + 4 * |a| + 4 * |b| <= |s|
    ensures Splice(Splice(s, o, Code(a)), o + 4 * |a|, Code(b)) == Splice(s, o, Code(a + b))
  {
    SpliceAdjacent(s, o, Code(a), Code(b));
    CodeAppend(a, b);
  }

  // ---- addressing a .got.plt slot ----------------------------------------

  /** The page distance relocateNoSym writes into the ADRP at `place`. */
  function PageDelta(slot: bv64, place: bv64): bv64 {
    Page(slot) - Page(place)
  }

  /** AddrInst once relocated for the slot at `slot`, the ADRP being at
      `place`: ADR_PREL_PG_HI21 sets the ADRP's page count,
      LDST64_ABS_LO12_NC the LDR's offset in 8-byte units and
      ADD_ABS_LO12_NC the ADD's immediate. */
  function SlotWords(slot: bv64, place: bv64): (r: seq<bv32>)
    ensures |r| == 3
  {
    [AdrImmWord(AdrpX16, PageDelta(slot, place) >> 12),
     Imm12Word(LdrX17X16, GetBits(slot, 3, 11)),
     Imm12Word(AddX16X16, slot)]
  }

  /** Relocating changes only the immediates: the words are still adrp x16,
      ldr x17, [x16] and add x16, x16. */
  lemma SlotWordsKeepOpcodes(slot: bv64, place: bv64)
    ensures SlotWords(slot, place)[0] & !AdrImmMask == AdrpX16 & !AdrImmMask
    ensures SlotWords(slot, place)[1] & !Imm12Mask == LdrX17X16 & !Imm12Mask
    ensures SlotWords(slot, place)[2] & !Imm12Mask == AddX16X16 & !Imm12Mask
  {
  }

  /** `r` is the template `t` with only the immediates of the ADRP, LDR
      and ADD at index i changed. */
  predicate KeepsTemplate(r: seq<bv32>, t: seq<bv32>, i: nat) {
    |r| == |t| && i + 3 <= |t|
    && (forall j :: 0 <= j < |t| && !(i <= j < i + 3) ==> r[j] == t[j])
    && r[i] & !AdrImmMask == t[i] & !AdrImmMask
    && r[i + 1] & !Imm12Mask == t[i + 1] & !Imm12Mask
    && r[i + 2] & !Imm12Mask == t[i + 2] & !Imm12Mask
  }

  /** Patching AddrInst's words with their relocated forms keeps the
      template. */
  lemma PatchKeepsTemplate(t: seq<bv32>, i: nat, slot: bv64, place: bv64)
    requires i + 3 <= |t| && t[i..i + 3] == AddrInst
    ensures KeepsTemplate(Patch(t, i, SlotWords(slot, place)), t, i)
  {
    SlotWordsKeepOpcodes(slot, place);
    assert t[i] == AddrInst[0] && t[i + 1] == AddrInst[1] && t[i + 2] == AddrInst[2];
  }

  /** The relocated AddrInst is AddrInst with only its immediates changed. */
  lemma SlotWordsKeepAddrInst(slot: bv64, place: bv64)
    ensures KeepsTemplate(SlotWords(slot, place), AddrInst, 0)
  {
    PatchKeepsTemplate(AddrInst, 0, slot, place);
    assert Patch(AddrInst, 0, SlotWords(slot, place)) == SlotWords(slot, place);
  }

  /** Words put in front of both keep the template, further on. */
  lemma KeepsTemplatePrefix(p: seq<bv32>, r: seq<bv32>, t: seq<bv32>, i: nat)
    requires KeepsTemplate(r, t, i)
    ensures KeepsTemplate(p + r, p + t, i + |p|)
  {
    forall j | 0 <= j < |p + t| && !(i + |p| <= j < i + |p| + 3)
      ensures (p + r)[j] == (p + t)[j]
    {
      if j >= |p| {
        assert (p + r)[j] == r[j - |p|] && (p + t)[j] == t[j - |p|];
      }
    }
  }

  /** Words put after both keep the template. */
  lemma KeepsTemplateSuffix(r: seq<bv32>, t: seq<bv32>, i: nat, q: seq<bv32>)
    requires KeepsTemplate(r, t, i)
    ensures KeepsTemplate(r + q, t + q, i)
  {
    forall j | 0 <= j < |t + q| && !(i <= j < i + 3)
      ensures (r + q)[j] == (t + q)[j]
    {
      if j >= |t| {
        assert (r + q)[j] == q[j - |t|] && (t + q)[j] == q[j - |t|];
      }
    }
  }

  /** The diagnostics of the three relocateNoSym calls. */
  function SlotChecks(slot: bv64, place: bv64): seq<Diag> {
    Checks(ADR_PREL_PG_HI21, PageDelta(slot, place))
    + Checks(LDST64_ABS_LO12_NC, slot) + Checks(ADD_ABS_LO12_NC, slot)
  }

  /** Nothing is reported exactly when the slot's page is within 4 GiB of
      the ADRP's and the slot is 8-byte aligned. */
  lemma SlotChecksPass(slot: bv64, place: bv64)
    ensures SlotChecks(slot, place) == []
            <==> FitsInt(PageDelta(slot, place), I33) && slot & 7 == 0
  {
  }

  /** The address a 64-bit LDR with an unsigned offset loads from, the base
      register holding `x`: the immediate counts 8-byte units. */
  function LdrAddress(x: bv64, w: bv32): bv64 {
    Advance(x, Imm12(w) << 3)
  }

  /** The ADRP leaves the slot's page in x16 ... */
  lemma AdrpReachesSlotPage(slot: bv64, place: bv64)
    requires FitsInt(PageDelta(slot, place), I33)
    ensures AdrpValue(place, SlotWords(slot, place)[0]) == Page(slot)
  {
    assert AdrpX0 | Rd(AdrpX16) == AdrpX16;
    AdrpReachesPage(AdrpX16, place, slot);
  }

  /** ... the LDR loads from the slot ... */
  lemma LdrLoadsSlot(slot: bv64, place: bv64)
    requires slot & 7 == 0
    ensures LdrAddress(Page(slot), SlotWords(slot, place)[1]) == slot
  {
    var w := Imm12Word(LdrX17X16, GetBits(slot, 3, 11));
    assert SlotWords(slot, place)[1] == w;
    Imm12WordDecodes(LdrX17X16, GetBits(slot, 3, 11));
    assert (GetBits(slot, 3, 11) & 0xFFF) << 3 == slot & 0xFFF;
    InPageStep(Imm12(w) << 3, slot);
  }

  /** ... and the ADD leaves the slot's address in x16. */
  lemma AddReachesSlot(slot: bv64, place: bv64)
    ensures AddValue(Page(slot), SlotWords(slot, place)[2]) == slot
  {
    assert SlotWords(slot, place)[2] == Imm12Word(AddX16X16, slot);
    Imm12WordDecodes(AddX16X16, slot);
    InPageStep(slot & 0xFFF, slot);
  }

  /** When nothing is reported the relocated words address the slot; only
      their immediates changed (SlotWords). */
  lemma SlotAddressed(slot: bv64, place: bv64)
    requires SlotChecks(slot, place) == []
    ensures AdrpValue(place, SlotWords(slot, place)[0]) == Page(slot)
    ensures LdrAddress(Page(slot), SlotWords(slot, place)[1]) == slot
    ensures AddValue(Page(slot), SlotWords(slot, place)[2]) == slot
  {
    SlotChecksPass(slot, place);
    AdrpReachesSlotPage(slot, place);
    LdrLoadsSlot(slot, place);
    AddReachesSlot(slot, place);
  }

  /** relocateNoSym with an instruction type edits the word at p. */
  lemma NoSymEdit(e: Endian, s: seq<bv8>, p: nat, t: RelType, v: bv64)
    requires Handled(t) && !IsDataType(t) && PlaceSize(t) == 4 && p + 4 <= |s|
    ensures RelocateBytes(e, s, p, NoSym(t), v) == ApplyEdit(s, p, EditOf(t, v))
  {
    assert WriteOf(NoSym(t), v) == InsnEdit(EditOf(t, v));
  }

  /** relocateNoSym with ADR_PREL_PG_HI21 sets the ADRP immediate at p. */
  lemma NoSymAdrp(e: Endian, s: seq<bv8>, p: nat, d: bv64)
    requires p + 4 <= |s|
    ensures RelocateBytes(e, s, p, NoSym(ADR_PREL_PG_HI21), d)
            == Store32le(s, p, AdrImmWord(Load32le(s, p), d >> 12))
  {
    NoSymEdit(e, s, p, ADR_PREL_PG_HI21, d);
    RoundTrip.AdrpEdit(Load32le(s, p), d);
  }

  /** ... with LDST64_ABS_LO12_NC the LDR offset ... */
  lemma NoSymLdst64(e: Endian, s: seq<bv8>, p: nat, v: bv64)
    requires p + 4 <= |s|
    ensures RelocateBytes(e, s, p, NoSym(LDST64_ABS_LO12_NC), v)
            == Store32le(s, p, Imm12Word(Load32le(s, p), GetBits(v, 3, 11)))
  {
    NoSymEdit(e, s, p, LDST64_ABS_LO12_NC, v);
  }

  /** ... and with ADD_ABS_LO12_NC the ADD immediate. */
  lemma NoSymAdd(e: Endian, s: seq<bv8>, p: nat, v: bv64)
    requires p + 4 <= |s|
    ensures RelocateBytes(e, s, p, NoSym(ADD_ABS_LO12_NC), v)
            == Store32le(s, p, Imm12Word(Load32le(s, p), v))
  {
    NoSymEdit(e, s, p, ADD_ABS_LO12_NC, v);
    RoundTrip.Add12Edit(Load32le(s, p), v);
  }

  /** relocateNoSym with ADR_PREL_PG_HI21 at p. */
  method RelocateAdrp(e: Endian, buf: array<bv8>, p: nat, d: bv64) returns (diags: seq<Diag>)
    requires p + 4 <= buf.Length
    modifies buf
    ensures diags == Checks(ADR_PREL_PG_HI21, d)
    ensures buf[..] == Store32le(old(buf[..]), p, AdrImmWord(Load32le(old(buf[..]), p), d >> 12))
  {
    NoSymAdrp(e, buf[..], p, d);
    diags := Relocate(e, buf, p, NoSym(ADR_PREL_PG_HI21), d);
  }

  /** relocateNoSym with LDST64_ABS_LO12_NC at p. */
  method RelocateLdst64(e: Endian, buf: array<bv8>, p: nat, v: bv64) returns (diags: seq<Diag>)
    requires p + 4 <= buf.Length
    modifies buf
    ensures diags == Checks(LDST64_ABS_LO12_NC, v)
    ensures buf[..] == Store32le(old(buf[..]), p, Imm12Word(Load32le(old(buf[..]), p), GetBits(v, 3, 11)))
  {
    NoSymLdst64(e, buf[..], p, v);
    diags := Relocate(e, buf, p, NoSym(LDST64_ABS_LO12_NC), v);
  }

  /** relocateNoSym with ADD_ABS_LO12_NC at p. */
  method RelocateAdd(e: Endian, buf: array<bv8>, p: nat, v: bv64) returns (diags: seq<Diag>)
    requires p + 4 <= buf.Length
    modifies buf
    ensures diags == Checks(ADD_ABS_LO12_NC, v)
    ensures buf[..] == Store32le(old(buf[..]), p, Imm12Word(Load32le(old(buf[..]), p), v))
  {
    NoSymAdd(e, buf[..], p, v);
    diags := Relocate(e, buf, p, NoSym(ADD_ABS_LO12_NC), v);
  }

  /** The bytes at p hold the words of AddrInst. */
  predicate AddrInstAt(s: seq<bv8>, p: nat) {
    p + 12 <= |s|
    && Load32le(s, p) == AdrpX16 && Load32le(s, p + 4) == LdrX17X16
    && Load32le(s, p + 8) == AddX16X16
  }

  /** Storing the relocated words over the bytes of AddrInst at `p` leaves
      the layout of SlotWords there and changes nothing else. */
  lemma SlotStored(s0: seq<bv8>, s1: seq<bv8>, s2: seq<bv8>, s3: seq<bv8>, p: nat,
                   slot: bv64, place: bv64)
    requires AddrInstAt(s0, p)
    requires s1 == Store32le(s0, p, AdrImmWord(Load32le(s0, p), PageDelta(slot, place) >> 12))
    requires s2 == Store32le(s1, p + 4, Imm12Word(Load32le(s1, p + 4), GetBits(slot, 3, 11)))
    requires s3 == Store32le(s2, p + 8, Imm12Word(Load32le(s2, p + 8), slot))
    ensures s3 == Splice(s0, p, Code(SlotWords(slot, place)))
  {
    var ws := SlotWords(slot, place);
    LoadStoreDisjoint(s0, p, ws[0], p + 4);
    LoadStoreDisjoint(s0, p, ws[0], p + 8);
    LoadStoreDisjoint(s1, p + 4, ws[1], p + 8);
    StoresSplice(s0, p, ws[0], ws[1], ws[2]);
    assert [ws[0], ws[1], ws[2]] == ws;
  }

  /** Relocating the three words of AddrInst at `p`: they become SlotWords
      and nothing else changes. */
  method RelocateSlotAddressing(e: Endian, buf: array<bv8>, p: nat, slot: bv64, place: bv64)
      returns (diags: seq<Diag>)
    requires AddrInstAt(buf[..], p)
    modifies buf
    ensures diags == SlotChecks(slot, place)
    ensures buf[..] == Splice(old(buf[..]), p, Code(SlotWords(slot, place)))
  {
    ghost var s0 := buf[..];
    assert p + 12 <= buf.Length;
    var d0 := RelocateAdrp(e, buf, p, PageDelta(slot, place));
    ghost var s1 := buf[..];
    var d1 := RelocateLdst64(e, buf, p + 4, slot);
    ghost var s2 := buf[..];
    var d2 := RelocateAdd(e, buf, p + 8, slot);
    diags := d0 + d1 + d2;
    ghost var s3 := buf[..];
    SlotStored(s0, s1, s2, s3, p, slot, place);
  }

  /** memcpy of a template followed by the relocation of its AddrInst at
      word i: the template with those words replaced by SlotWords. The
      template is copied front to back in three pieces: the words before
      AddrInst, the three words of AddrInst, and the words after them. */
  method WriteTemplate(e: Endian, buf: array<bv8>, o: nat, t: seq<bv32>, i: nat,
                       slot: bv64, place: bv64)
      returns (diags: seq<Diag>)
    requires i + 3 <= |t| && t[i] == AdrpX16 && t[i + 1] == LdrX17X16 && t[i + 2] == AddX16X16
    requires o + 4 * |t| <= buf.Length
    modifies buf
    ensures diags == SlotChecks(slot, place)
    ensures buf[..] == Splice(old(buf[..]), o, Code(Patch(t, i, SlotWords(slot, place))))
  {
    var p := o + 4 * i;
    ghost var s0 := buf[..];
    WriteWords(buf, o, t[..i]);
    ghost var s1 := buf[..];
    Write32le(buf, p, t[i]);
    ghost var s2 := buf[..];
    Write32le(buf, p + 4, t[i + 1]);
    ghost var s3 := buf[..];
    Write32le(buf, p + 8, t[i + 2]);
    ghost var s4 := buf[..];
    WriteWords(buf, p + 12, t[i + 3..]);
    ghost var s5 := buf[..];
    AddrInstWritten(s1, s2, s3, s4, s5, p, Code(t[i + 3..]));
    diags := RelocateSlotAddressing(e, buf, p, slot, place);
    ghost var s6 := buf[..];
    TemplateAssembled(s0, s1, s2, s3, s4, s5, s6, o, p, Code(t[..i]),
                      Code(SlotWords(slot, place)), Code(t[i + 3..]));
    PatchCode(t, i, SlotWords(slot, place));
  }

  /** A load below a splice reads the bytes as they were. */
  lemma LoadBelowSplice(s: seq<bv8>, o: nat, c: seq<bv8>, q: nat)
    requires o + |c| <= |s| && q + 4 <= o
    ensures Load32le(Splice(s, o, c), q) == Load32le(s, q)
  {
    assert Splice(s, o, c)[q..q + 4] == s[q..q + 4];
  }

  /** After the three stores of AddrInst and the copy of the words that
      follow, the bytes at p hold AddrInst. */
  lemma AddrInstWritten(s1: seq<bv8>, s2: seq<bv8>, s3: seq<bv8>, s4: seq<bv8>, s5: seq<bv8>,
                        p: nat, c: seq<bv8>)
    requires p + 12 + |c| <= |s1|
    requires s2 == Store32le(s1, p, AdrpX16)
    requires s3 == Store32le(s2, p + 4, LdrX17X16)
    requires s4 == Store32le(s3, p + 8, AddX16X16)
    requires s5 == Splice(s4, p + 12, c)
    ensures AddrInstAt(s5, p)
  {
    LoadStoreDisjoint(s2, p + 4, LdrX17X16, p);
    LoadStoreDisjoint(s3, p + 8, AddX16X16, p);
    LoadStoreDisjoint(s3, p + 8, AddX16X16, p + 4);
    LoadBelowSplice(s4, p + 12, c, p);
    LoadBelowSplice(s4, p + 12, c, p + 4);
    LoadBelowSplice(s4, p + 12, c, p + 8);
  }

  /** Splicing 12 bytes over the three stores at p makes them immaterial. */
  lemma StoresOverwritten(s1: seq<bv8>, s2: seq<bv8>, s3: seq<bv8>, s4: seq<bv8>, p: nat,
                          c: seq<bv8>, b: seq<bv8>)
    requires p + 12 + |c| <= |s1| && |b| == 12
    requires s2 == Store32le(s1, p, AdrpX16)
    requires s3 == Store32le(s2, p + 4, LdrX17X16)
    requires s4 == Store32le(s3, p + 8, AddX16X16)
    ensures Splice(Splice(s4, p + 12, c), p, b) == Splice(Splice(s1, p + 12, c), p, b)
  {
    var l, r := Splice(Splice(s4, p + 12, c), p, b), Splice(Splice(s1, p + 12, c), p, b);
    forall j | 0 <= j < |s1|
      ensures l[j] == r[j]
    {
      if p <= j < p + 12 {
        assert l[j] == l[p..p + 12][j - p] && r[j] == r[p..p + 12][j - p];
      } else if p + 12 <= j < p + 12 + |c| {
        assert Splice(s4, p + 12, c)[j] == Splice(s4, p + 12, c)[p + 12..p + 12 + |c|][j - p - 12];
        assert Splice(s1, p + 12, c)[j] == Splice(s1, p + 12, c)[p + 12..p + 12 + |c|][j - p - 12];
      }
    }
  }

  /** The pieces of WriteTemplate add up to one copy of a + b + c. */
  lemma TemplateAssembled(s0: seq<bv8>, s1: seq<bv8>, s2: seq<bv8>, s3: seq<bv8>, s4: seq<bv8>,
                          s5: seq<bv8>, s6: seq<bv8>, o: nat, p: nat,
                          a: seq<bv8>, b: seq<bv8>, c: seq<bv8>)
    requires p == o + |a| && |b| == 12 && p + 12 + |c| <= |s0|
    requires s1 == Splice(s0, o, a)
    requires s2 == Store32le(s1, p, AdrpX16)
    requires s3 == Store32le(s2, p + 4, LdrX17X16)
    requires s4 == Store32le(s3, p + 8, AddX16X16)
    requires s5 == Splice(s4, p + 12, c)
    requires s6 == Splice(s5, p, b)
    ensures s6 == Splice(s0, o, a + b + c)
  {
    StoresOverwritten(s1, s2, s3, s4, p, c, b);
    SplicePieces(s0, o, p, p + 12, a, b, c);
  }

  /** Copying a, then c after a gap of |b| bytes, then b into the gap, is
      copying a + b + c. */
  lemma SplicePieces(s: seq<bv8>, o: nat, p: nat, q: nat, a: seq<bv8>, b: seq<bv8>, c: seq<bv8>)
    requires p == o + |a| && q == p + |b| && q + |c| <= |s|
    ensures Splice(Splice(Splice(s, o, a), q, c), p, b) == Splice(s, o, a + b + c)
  {
    var x := Splice(s, o, a);
    calc {
      Splice(Splice(x, q, c), p, b);
      { SpliceSwap(x, p, b, c); }
      Splice(Splice(x, p, b), q, c);
      { SpliceAdjacent(s, o, a, b); }
      Splice(Splice(s, o, a + b), q, c);
      { SpliceAdjacent(s, o, a + b, c); }
      Splice(s, o, a + b + c);
    }
  }

  /** Splices of adjacent regions commute. */
  lemma SpliceSwap(s: seq<bv8>, p: nat, b: seq<bv8>, c: seq<bv8>)
    requires p + |b| + |c| <= |s|
    ensures Splice(Splice(s, p + |b|, c), p, b) == Splice(Splice(s, p, b), p + |b|, c)
  {
    var l, r := Splice(Splice(s, p + |b|, c), p, b), Splice(Splice(s, p, b), p + |b|, c);
    forall j | 0 <= j < |s|
      ensures l[j] == r[j]
    {
      if p <= j < p + |b| {
        assert l[j] == l[p..p + |b|][j - p];
        assert Splice(s, p, b)[j] == Splice(s, p, b)[p..p + |b|][j - p];
      } else if p + |b| <= j < p + |b| + |c| {
        assert r[j] == r[p + |b|..p + |b| + |c|][j - p - |b|];
        assert Splice(s, p + |b|, c)[j] == Splice(s, p + |b|, c)[p + |b|..p + |b| + |c|][j - p - |b|];
      }
    }
  }

  /** The layout of a patched template is the layouts of its pieces. */
  lemma PatchCode(t: seq<bv32>, i: nat, ws: seq<bv32>)
    requires i + |ws| <= |t|
    ensures Code(Patch(t, i, ws)) == Code(t[..i]) + Code(ws) + Code(t[i + |ws|..])
  {
    CodeAppend(t[..i] + ws, t[i + |ws|..]);
    CodeAppend(t[..i], ws);
  }

  /** memcpy of a few fixed words. */
  method WriteWords(buf: array<bv8>, o: nat, ws: seq<bv32>)
    requires o + 4 * |ws| <= buf.Length
    modifies buf
    ensures buf[..] == Splice(old(buf[..]), o, Code(ws))
  {
    WriteBytes(buf, o, Code(ws));
  }

  // ---- the .got.plt slots ------------------------------------------------

  /** writeGotPlt: a lazily bound slot initially holds the address of the
      PLT header, `plt`, and nothing else changes. */
  method WriteGotPlt(e: Endian, buf: array<bv8>, o: nat, plt: bv64)
    requires o + 8 <= buf.Length
    modifies buf
    ensures Load64(e, buf[..], o) == plt
    ensures buf[..] == Store64(e, old(buf[..]), o, plt)
  {
    Write64(e, buf, o, plt);
  }

  /** writeIgotPlt: an ifunc's slot holds the symbol's address when addends
      are written into the output, and is left alone otherwise. */
  method WriteIgotPlt(e: Endian, buf: array<bv8>, o: nat, sym: Symbol, writeAddends: bool)
    requires o + 8 <= buf.Length
    modifies buf
    ensures writeAddends ==> Load64(e, buf[..], o) == sym.va
    ensures buf[..] == if writeAddends then Store64(e, old(buf[..]), o, sym.va) else old(buf[..])
  {
    if writeAddends {
      Write64(e, buf, o, sym.va);
    }
  }

  // ---- the plain AArch64 PLT ---------------------------------------------

  /** The PLT header for .got.plt at `got` and .plt at `plt`: its ADRP
      (at plt + 4), LDR and ADD address .got.plt[2], at got + 16. */
  function HeaderWords(got: bv64, plt: bv64): (r: seq<bv32>)
    ensures |r| == 8
    ensures KeepsTemplate(r, PltData, 1)
  {
    PatchKeepsTemplate(PltData, 1, got + 16, plt + 4);
    Patch(PltData, 1, SlotWords(got + 16, plt + 4))
  }

  /** writePltHeader: copies PltData to `o` and relocates its three words. */
  method WritePltHeader(e: Endian, buf: array<bv8>, o: nat, got: bv64, plt: bv64)
      returns (diags: seq<Diag>)
    requires o + 32 <= buf.Length
    modifies buf
    ensures diags == SlotChecks(got + 16, plt + 4)
    ensures buf[..] == Splice(old(buf[..]), o, Code(HeaderWords(got, plt)))
  {
    diags := WriteTemplate(e, buf, o, PltData, 1, got + 16, plt + 4);
  }

  /** The header saves x16 and x30, leaves the address of .got.plt[2] in
      x16, loads x17 from it and branches there; its last three words are
      padding. */
  lemma HeaderLoadsSlot(got: bv64, plt: bv64)
    requires SlotChecks(got + 16, plt + 4) == []
    ensures HeaderWords(got, plt)[0] == StpX16X30
    ensures AdrpValue(plt + 4, HeaderWords(got, plt)[1]) == Page(got + 16)
    ensures LdrAddress(Page(got + 16), HeaderWords(got, plt)[2]) == got + 16
    ensures AddValue(Page(got + 16), HeaderWords(got, plt)[3]) == got + 16
    ensures HeaderWords(got, plt)[4] == BrX17
    ensures HeaderWords(got, plt)[5..] == [Nop, Nop, Nop]
  {
    SlotAddressed(got + 16, plt + 4);
    assert HeaderWords(got, plt)[1] == SlotWords(got + 16, plt + 4)[0];
    assert HeaderWords(got, plt)[2] == SlotWords(got + 16, plt + 4)[1];
    assert HeaderWords(got, plt)[3] == SlotWords(got + 16, plt + 4)[2];
  }

  /** The PLT entry at `entry` for the slot at `slot`. */
  function EntryWords(slot: bv64, entry: bv64): (r: seq<bv32>)
    ensures |r| == 4
    ensures KeepsTemplate(r, PltInst, 0)
  {
    PatchKeepsTemplate(PltInst, 0, slot, entry);
    Patch(PltInst, 0, SlotWords(slot, entry))
  }

  /** writePlt: copies PltInst to `o` and relocates its three words for the
      symbol's .got.plt slot. */
  method WritePlt(e: Endian, buf: array<bv8>, o: nat, sym: Symbol, entry: bv64)
      returns (diags: seq<Diag>)
    requires o + 16 <= buf.Length
    modifies buf
    ensures diags == SlotChecks(sym.gotPltVA, entry)
    ensures buf[..] == Splice(old(buf[..]), o, Code(EntryWords(sym.gotPltVA, entry)))
  {
    diags := WriteTemplate(e, buf, o, PltInst, 0, sym.gotPltVA, entry);
  }

  /** The entry leaves the slot's address in x16, loads x17 from the slot
      and branches there. */
  lemma EntryLoadsSlot(slot: bv64, entry: bv64)
    requires SlotChecks(slot, entry) == []
    ensures AdrpValue(entry, EntryWords(slot, entry)[0]) == Page(slot)
    ensures LdrAddress(Page(slot), EntryWords(slot, entry)[1]) == slot
    ensures AddValue(Page(slot), EntryWords(slot, entry)[2]) == slot
    ensures EntryWords(slot, entry)[3] == BrX17
  {
    SlotAddressed(slot, entry);
    assert EntryWords(slot, entry)[0] == SlotWords(slot, entry)[0];
    assert EntryWords(slot, entry)[1] == SlotWords(slot, entry)[1];
    assert EntryWords(slot, entry)[2] == SlotWords(slot, entry)[2];
  }

  // ---- the BTI/PAC PLT ---------------------------------------------------

  /** How a PLT entry authenticates the address it branches to. */
  datatype PacEntryKind =
    | NoAuth     // br x17
    | AuthHint   // autia1716; br x17 (hint space)
    | Auth       // braa x17, x16 (PAuthABI, Armv8.3-A)

  /** The branch of a BTI/PAC entry, padded to two words. */
  function BranchWords(k: PacEntryKind): (r: seq<bv32>)
    ensures |r| == 2
  {
    match k
    case NoAuth => StdBr
    case AuthHint => PacHintBr
    case Auth => PacBr
  }

  /** The BTI/PAC header: with `bti c` first, the rest (and so its ADRP) is
      one word further on; without it, a nop rounds the size out to 32. */
  function BtiHeaderWords(bti: bool, got: bv64, plt: bv64): (r: seq<bv32>)
    ensures |r| == 8
    ensures bti ==> KeepsTemplate(r, BtiData + BtiPltData, 2)
    ensures !bti ==> KeepsTemplate(r, BtiPltData + NopData, 1)
  {
    if bti then
      PatchKeepsTemplate(BtiPltData, 1, got + 16, plt + 8);
      KeepsTemplatePrefix(BtiData, Patch(BtiPltData, 1, SlotWords(got + 16, plt + 8)), BtiPltData, 1);
      BtiData + Patch(BtiPltData, 1, SlotWords(got + 16, plt + 8))
    else
      PatchKeepsTemplate(BtiPltData, 1, got + 16, plt + 4);
      KeepsTemplateSuffix(Patch(BtiPltData, 1, SlotWords(got + 16, plt + 4)), BtiPltData, 1, NopData);
      Patch(BtiPltData, 1, SlotWords(got + 16, plt + 4)) + NopData
  }

  /** Without `bti c` the BTI/PAC header is the plain header. */
  lemma BtiHeaderWithoutBti(got: bv64, plt: bv64)
    ensures BtiHeaderWords(false, got, plt) == HeaderWords(got, plt)
  {
  }

  /** With `bti c` the header starts with it and goes on as the plain header
      placed one word further on. */
  lemma BtiHeaderWithBti(got: bv64, plt: bv64)
    ensures BtiHeaderWords(true, got, plt)[0] == BtiC
    ensures BtiHeaderWords(true, got, plt)[1..] == HeaderWords(got, plt + 4)[..7]
  {
    assert plt + 4 + 4 == plt + 8;
  }

  /** The BTI/PAC entry: [bti c] adrp; ldr; add; branch; [nop]. */
  function BtiEntryWords(hasBti: bool, k: PacEntryKind, slot: bv64, entry: bv64): (r: seq<bv32>)
    ensures |r| == 6
    ensures hasBti ==> KeepsTemplate(r, BtiData + AddrInst + BranchWords(k), 1)
    ensures !hasBti ==> KeepsTemplate(r, AddrInst + BranchWords(k) + NopData, 0)
  {
    if hasBti then
      var a := SlotWords(slot, entry + 4);
      SlotWordsKeepAddrInst(slot, entry + 4);
      KeepsTemplateSuffix(a, AddrInst, 0, BranchWords(k));
      KeepsTemplatePrefix(BtiData, a + BranchWords(k), AddrInst + BranchWords(k), 0);
      assert BtiData + (a + BranchWords(k)) == BtiData + a + BranchWords(k);
      assert BtiData + (AddrInst + BranchWords(k)) == BtiData + AddrInst + BranchWords(k);
      BtiData + a + BranchWords(k)
    else
      var a := SlotWords(slot, entry);
      SlotWordsKeepAddrInst(slot, entry);
      KeepsTemplateSuffix(a, AddrInst, 0, BranchWords(k));
      KeepsTemplateSuffix(a + BranchWords(k), AddrInst + BranchWords(k), 0, NopData);
      a + BranchWords(k) + NopData
  }

  /** The entry's ADRP sits after the optional `bti c` and addresses the
      slot from there; the entry then branches to what it loaded: br x17
      without authentication, autia1716 before it in the hint space, braa
      x17, x16 with the PAuthABI. */
  lemma BtiEntryLoadsSlot(hasBti: bool, k: PacEntryKind, slot: bv64, entry: bv64)
    requires SlotChecks(slot, if hasBti then entry + 4 else entry) == []
    ensures var r := BtiEntryWords(hasBti, k, slot, entry);
            var p := if hasBti then 1 else 0;
            var place := if hasBti then entry + 4 else entry;
            (hasBti ==> r[0] == BtiC)
            && AdrpValue(place, r[p]) == Page(slot)
            && LdrAddress(Page(slot), r[p + 1]) == slot
            && AddValue(Page(slot), r[p + 2]) == slot
            && r[p + 3] == (match k case NoAuth => BrX17 case AuthHint => Autia1716
                                    case Auth => BraaX17X16)
            && (k == AuthHint ==> r[p + 4] == BrX17)
            && (!hasBti ==> r[5] == Nop)
  {
    var place := if hasBti then entry + 4 else entry;
    SlotAddressed(slot, place);
  }

  /** The part of a BTI/PAC entry that follows the optional `bti c`: AddrInst
      relocated for the slot, then the branch. */
  method WriteEntryBody(e: Endian, buf: array<bv8>, p: nat, slot: bv64, place: bv64,
                        k: PacEntryKind)
      returns (diags: seq<Diag>)
    requires p + 20 <= buf.Length
    modifies buf
    ensures diags == SlotChecks(slot, place)
    ensures buf[..] == Splice(old(buf[..]), p, Code(SlotWords(slot, place) + BranchWords(k)))
  {
    ghost var s0 := buf[..];
    diags := WriteTemplate(e, buf, p, AddrInst, 0, slot, place);
    ghost var a := SlotWords(slot, place);
    assert Patch(AddrInst, 0, a) == a;
    ghost var s1 := buf[..];
    var br := if k == NoAuth then StdBr else if k == AuthHint then PacHintBr else PacBr;
    WriteWords(buf, p + 12, br);
    Spliced(s0, s1, buf[..], p, a, br);
  }

  /** Two adjacent layouts written one after the other. */
  lemma Spliced(s0: seq<bv8>, s1: seq<bv8>, s2: seq<bv8>, o: nat, a: seq<bv32>, b: seq<bv32>)
    requires o + 4 * |a| + 4 * |b| <= |s0|
    requires s1 == Splice(s0, o, Code(a))
    requires s2 == Splice(s1, o + 4 * |a|, Code(b))
    ensures s2 == Splice(s0, o, Code(a + b))
  {
    SpliceCodes(s0, o, a, b);
  }

  /** The pieces writePltHeader writes make up BtiHeaderWords. */
  lemma HeaderAssembled(bti: bool, s0: seq<bv8>, s1: seq<bv8>, s2: seq<bv8>, s3: seq<bv8>,
                        o: nat, got: bv64, plt: bv64)
    requires o + 32 <= |s0|
    requires s1 == if bti then Splice(s0, o, Code(BtiData)) else s0
    requires s2 == Splice(s1, if bti then o + 4 else o,
                          Code(Patch(BtiPltData, 1, SlotWords(got + 16, if bti then plt + 8 else plt + 4))))
    requires s3 == if bti then s2 else Splice(s2, o + 28, Code(NopData))
    ensures s3 == Splice(s0, o, Code(BtiHeaderWords(bti, got, plt)))
  {
    var body := Patch(BtiPltData, 1, SlotWords(got + 16, if bti then plt + 8 else plt + 4));
    if bti {
      Spliced(s0, s1, s2, o, BtiData, body);
    } else {
      Spliced(s0, s2, s3, o, body, NopData);
    }
  }

  /** The pieces writePlt writes make up BtiEntryWords. */
  lemma EntryAssembled(bti: bool, k: PacEntryKind, s0: seq<bv8>, s1: seq<bv8>, s2: seq<bv8>,
                       s3: seq<bv8>, o: nat, slot: bv64, entry: bv64)
    requires o + 24 <= |s0|
    requires s1 == if bti then Splice(s0, o, Code(BtiData)) else s0
    requires s2 == Splice(s1, if bti then o + 4 else o,
                          Code(SlotWords(slot, if bti then entry + 4 else entry) + BranchWords(k)))
    requires s3 == if bti then s2 else Splice(s2, o + 20, Code(NopData))
    ensures s3 == Splice(s0, o, Code(BtiEntryWords(bti, k, slot, entry)))
  {
    var body := SlotWords(slot, if bti then entry + 4 else entry) + BranchWords(k);
    if bti {
      Spliced(s0, s1, s2, o, BtiData, body);
      assert BtiData + body == BtiEntryWords(true, k, slot, entry);
    } else {
      Spliced(s0, s2, s3, o, body, NopData);
    }
  }

  /** AArch64BtiPac: the plain target with a `bti c` landing pad in the PLT
      when BTI is enabled for the output, and authenticated branches when
      -z pac-plt is given. */
  class BtiPac {
    const btiHeader: bool
    const pacEntryKind: PacEntryKind
    const pltHeaderSize: nat
    const pltEntrySize: nat
    const ipltEntrySize: nat

    /** The object setAArch64TargetInfo creates (BTI enabled or -z
        pac-plt given): one of the two features is on. */
    predicate Selected()
    {
      btiHeader || pacEntryKind != NoAuth
    }

    /** The sizes follow the features as the constructor sets them. */
    predicate Valid()
    {
      pltHeaderSize == 32
      && pltEntrySize == ipltEntrySize == (if Selected() then 24 else 16)
    }

    /** The constructor chooses the entry kind and, once, the entry size:
        24 bytes as soon as either feature is on, the plain 16 otherwise.
        `pauthAbiValid` says that a valid PAuthABI core info is present. */
    constructor(bti: bool, zPacPlt: bool, pauthAbiValid: bool)
      ensures btiHeader == bti
      ensures pacEntryKind == (if !zPacPlt then NoAuth
                               else if pauthAbiValid then PacEntryKind.Auth else AuthHint)
      ensures pltHeaderSize == 32
      ensures pltEntrySize == ipltEntrySize == (if bti || zPacPlt then 24 else 16)
      ensures Valid() && (Selected() <==> bti || zPacPlt)
    {
      btiHeader := bti;
      pacEntryKind := if !zPacPlt then NoAuth
                      else if pauthAbiValid then PacEntryKind.Auth else AuthHint;
      pltHeaderSize := 32;
      pltEntrySize := if bti || zPacPlt then 24 else 16;
      ipltEntrySize := if bti || zPacPlt then 24 else 16;
    }

    /** An entry gets `bti c` when BTI is on and the entry's address may be
        taken: a canonical PLT entry (NEEDS_COPY), a non-preemptible ifunc
        in the IPLT, or a symbol a branch reaches through a thunk. */
    predicate HasBti(sym: Symbol)
      reads sym
    {
      btiHeader && (sym.needsCopy || sym.isInIplt || sym.thunkAccessed)
    }

    /** writePltHeader for the BTI/PAC target. */
    method WritePltHeader(e: Endian, buf: array<bv8>, o: nat, got: bv64, plt: bv64)
        returns (diags: seq<Diag>)
      requires o + 32 <= buf.Length
      modifies buf
      ensures diags == SlotChecks(got + 16, if btiHeader then plt + 8 else plt + 4)
      ensures buf[..] == Splice(old(buf[..]), o, Code(BtiHeaderWords(btiHeader, got, plt)))
    {
      ghost var s0 := buf[..];
      var p := o;
      var adrp := plt + 4;
      if btiHeader {
        WriteWords(buf, o, BtiData);
        p := o + 4;
        adrp := plt + 8;
      }
      ghost var s1 := buf[..];
      diags := WriteTemplate(e, buf, p, BtiPltData, 1, got + 16, adrp);
      ghost var s2 := buf[..];
      if !btiHeader {
        WriteWords(buf, p + 28, NopData);
      }
      HeaderAssembled(btiHeader, s0, s1, s2, buf[..], o, got, plt);
    }

    /** writePlt for the BTI/PAC target: the entry for `sym` at `entry`. */
    method WritePlt(e: Endian, buf: array<bv8>, o: nat, sym: Symbol, entry: bv64)
        returns (diags: seq<Diag>)
      requires o + 24 <= buf.Length
      modifies buf
      ensures diags == SlotChecks(sym.gotPltVA, if HasBti(sym) then entry + 4 else entry)
      ensures buf[..] == Splice(old(buf[..]), o,
                                Code(BtiEntryWords(HasBti(sym), pacEntryKind, sym.gotPltVA, entry)))
    {
      ghost var s0 := buf[..];
      var hasBti := btiHeader && (sym.needsCopy || sym.isInIplt || sym.thunkAccessed);
      var p := o;
      var place := entry;
      if hasBti {
        WriteWords(buf, o, BtiData);
        p := o + 4;
        place := entry + 4;
      }
      ghost var s1 := buf[..];
      diags := WriteEntryBody(e, buf, p, sym.gotPltVA, place, pacEntryKind);
      ghost var s2 := buf[..];
      if !hasBti {
        WriteWords(buf, p + 20, NopData);
      }
      EntryAssembled(hasBti, pacEntryKind, s0, s1, s2, buf[..], o, sym.gotPltVA, entry);
      assert HasBti(sym) == hasBti;
    }

    /** Every entry, with or without `bti c`, fills exactly the entry size
        the constructor chose for a target setAArch64TargetInfo selects. */
    lemma EntryFillsEntrySize(hasBti: bool, slot: bv64, entry: bv64)
      requires Valid() && Selected()
      ensures 4 * |BtiEntryWords(hasBti, pacEntryKind, slot, entry)| == pltEntrySize == ipltEntrySize
    {
    }
  }
}
