// getImplicitAddend: the addend a REL-format relocation keeps in the place.
// Instruction immediates are extracted, scaled as the field encodes them
// and sign-extended (section 5.7.2 "Addends and PC-bias" of the ELF for
// the Arm 64-bit Architecture ABI), except that the MOVW and ADRP families
// are deliberately left unshifted: the addend is added to the low bits of
// the value, not to the 16-bit group or the page the field selects.

module Addend {
  import opened Bits
  import opened Bytes
  import opened Insn
  import opened Reloc
  import opened Apply

  /** The 14-bit branch offset of TBZ/TBNZ in bytes (bits 5-18, times 4). */
  function Tbz14(w: bv32): (r: bv64)
    ensures r & 3 == 0
  {
    GetBits(w as bv64, 5, 18) << 2
  }

  /** The 19-bit offset of B.cond and LDR (literal) in bytes (bits 5-23, times 4). */
  function Ldr19(w: bv32): (r: bv64)
    ensures r & 3 == 0
  {
    GetBits(w as bv64, 5, 23) << 2
  }

  /** The 26-bit offset of B and BL in bytes (bits 0-25, times 4). */
  function Branch26(w: bv32): (r: bv64)
    ensures r & 3 == 0
  {
    GetBits(w as bv64, 0, 25) << 2
  }

  /** Where getImplicitAddend finds the addend of a type. */
  datatype Field =
    | Unreadable     // an internal error: the type cannot carry an addend
    | Zero           // the dynamic types with no addend in the place
    | Word16         // a 16-bit data word, sign-extended
    | Word32         // a 32-bit data word, sign-extended
    | Word64         // a 64-bit data word
    | Word64At8      // the second 64-bit word of a TLS descriptor
    | MovImm16       // MOVZ/MOVK imm16, sign-extended from 16 bits
    | TbzImm14       // TBZ/TBNZ imm14, scaled, sign-extended from 16 bits
    | Imm19          // B.cond / LDR (literal) imm19, scaled, from 21 bits
    | AddImm12       // ADD imm12, sign-extended from 12 bits
    | AdrImm21       // ADR/ADRP immhi:immlo, sign-extended from 21 bits
    | BranchImm26    // B/BL imm26, scaled, sign-extended from 28 bits

  /** The bytes a field covers, counted from the place. */
  function FieldSize(f: Field): nat {
    match f
    case Unreadable | Zero => 0
    case Word16 => 2
    case Word64 => 8
    case Word64At8 => 16
    case _ => 4
  }

  /** The width an addend read from field `f` is sign-extended from; None
      for the fields read as they are (64-bit words) or not at all. */
  function SignWidth(f: Field): Option<IntWidth> {
    match f
    case Word16 | MovImm16 | TbzImm14 => Some(I16)
    case Word32 => Some(I32)
    case Imm19 | AdrImm21 => Some(I21)
    case AddImm12 => Some(I12)
    case BranchImm26 => Some(I28)
    case _ => None
  }

  /** The fields whose immediate counts instructions, so that the addend
      read from them is a multiple of 4. */
  predicate Scaled(f: Field) {
    match f
    case TbzImm14 | Imm19 | BranchImm26 => true
    case _ => false
  }

  /** getImplicitAddend's switch: the field each type keeps its addend in.
      An instruction immediate is only ever read for a type relocate edits
      as an instruction. */
  function FieldOf(t: RelType): (r: Field)
    ensures InsnField(r) ==> Handled(t) && !IsDataType(t)
  {
    match t
    case TLSDESC => Word64At8
    case NONE | GLOB_DAT | AUTH_GLOB_DAT | JUMP_SLOT => Zero
    case ABS16 | PREL16 => Word16
    case ABS32 | PREL32 => Word32
    case ABS64 | PREL64 | RELATIVE | IRELATIVE | TLS_TPREL64 => Word64
    case MOVW_UABS_G0 | MOVW_UABS_G0_NC | MOVW_UABS_G1 | MOVW_UABS_G1_NC
      | MOVW_UABS_G2 | MOVW_UABS_G2_NC | MOVW_UABS_G3 => MovImm16
    case TSTBR14 => TbzImm14
    case CONDBR19 | LD_PREL_LO19 => Imm19
    case ADD_ABS_LO12_NC => AddImm12
    case ADR_PREL_LO21 | ADR_PREL_PG_HI21 | ADR_PREL_PG_HI21_NC => AdrImm21
    case JUMP26 | CALL26 => BranchImm26
    case _ => Unreadable
  }

  /** A readable field covers exactly the place relocate writes for the
      type: the addend is read from the bytes the relocation owns. */
  lemma FieldCoversPlace(t: RelType)
    ensures FieldOf(t) != Unreadable ==> FieldSize(FieldOf(t)) == PlaceSize(t)
  {
  }

  /** The fields that are immediates of the instruction at the place. */
  predicate InsnField(f: Field) {
    match f
    case MovImm16 | TbzImm14 | Imm19 | AddImm12 | AdrImm21 | BranchImm26 => true
    case _ => false
  }

  /** The addend held in the immediate field `f` of instruction word `w`
      (0 for a field that is not an instruction immediate: ReadField never
      asks for one). */
  function WordAddend(w: bv32, f: Field): (r: bv64)
    ensures !InsnField(f) ==> r == 0
  {
    match f
    case Unreadable | Zero | Word16 | Word32 | Word64 | Word64At8 => 0
    case MovImm16 => SignExtend(Imm16(w), I16)
    case TbzImm14 => SignExtend(Tbz14(w), I16)
    case Imm19 => SignExtend(Ldr19(w), I21)
    case AddImm12 => SignExtend(Imm12(w), I12)
    case AdrImm21 => SignExtend(AdrImm(w), I21)
    case BranchImm26 => SignExtend(Branch26(w), I28)
  }

  /** An addend read from an instruction immediate is sign-extended from
      the field's width, and one that counts instructions is a multiple of 4. */
  lemma WordAddendFits(w: bv32, f: Field)
    requires InsnField(f)
    ensures FitsInt(WordAddend(w, f), SignWidth(f).value)
    ensures Scaled(f) ==> WordAddend(w, f) & 3 == 0
  {
    match f
    case MovImm16 => var x := Imm16(w); assert WordAddend(w, f) == SignExtend(x, I16); Extended(x, I16);
    case TbzImm14 => var x := Tbz14(w); assert WordAddend(w, f) == SignExtend(x, I16); Extended(x, I16);
    case Imm19 => var x := Ldr19(w); assert WordAddend(w, f) == SignExtend(x, I21); Extended(x, I21);
    case AddImm12 => var x := Imm12(w); assert WordAddend(w, f) == SignExtend(x, I12); Extended(x, I12);
    case AdrImm21 => var x := AdrImm(w); assert WordAddend(w, f) == SignExtend(x, I21); Extended(x, I21);
    case BranchImm26 => var x := Branch26(w); assert WordAddend(w, f) == SignExtend(x, I28); Extended(x, I28);
  }

  /** Sign extension gives a value of the width and keeps the low two bits. */
  lemma Extended(x: bv64, w: IntWidth)
    ensures FitsInt(SignExtend(x, w), w)
    ensures SignExtend(x, w) & 3 == x & 3
  {
    SignExtendInRange(x, w);
  }

  /** The addend held in field `f` of the place at `o`. */
  function ReadField(e: Endian, s: seq<bv8>, o: nat, f: Field): (r: Option<bv64>)
    requires o + FieldSize(f) <= |s|
    ensures r.None? <==> f == Unreadable
    ensures r.Some? && SignWidth(f).Some? ==> FitsInt(r.value, SignWidth(f).value)
    ensures r.Some? && Scaled(f) ==> r.value & 3 == 0
  {
    match f
    case Unreadable => None
    case Zero => Some(0)
    case Word16 =>
      SignExtendInRange(Load16(e, s, o) as bv64, I16);
      Some(SignExtend(Load16(e, s, o) as bv64, I16))
    case Word32 =>
      SignExtendInRange(Load32(e, s, o) as bv64, I32);
      Some(SignExtend(Load32(e, s, o) as bv64, I32))
    case Word64 => Some(Load64(e, s, o))
    case Word64At8 => Some(Load64(e, s, o + 8))
    case _ => WordAddendFits(Load32le(s, o), f); Some(WordAddend(Load32le(s, o), f))
  }

  /** getImplicitAddend(buf + o, t); None for a type it cannot read an
      addend for (an internal error in the linker). The addend is
      sign-extended from the width of its field, and an instruction offset
      is a multiple of 4. */
  function ImplicitAddend(e: Endian, s: seq<bv8>, o: nat, t: RelType): (r: Option<bv64>)
    requires o + FieldSize(FieldOf(t)) <= |s|
    ensures r.None? <==> FieldOf(t) == Unreadable
    ensures r.Some? && SignWidth(FieldOf(t)).Some? ==> FitsInt(r.value, SignWidth(FieldOf(t)).value)
    ensures r.Some? && Scaled(FieldOf(t)) ==> r.value & 3 == 0
  {
    ReadField(e, s, o, FieldOf(t))
  }

  /** getImplicitAddend reads nothing but the bytes of its field: two
      sections that agree there give the same addend. */
  lemma ImplicitAddendReadsPlace(e: Endian, s: seq<bv8>, s2: seq<bv8>, o: nat, t: RelType)
    requires o + FieldSize(FieldOf(t)) <= |s| && o + FieldSize(FieldOf(t)) <= |s2|
    requires s[o..o + FieldSize(FieldOf(t))] == s2[o..o + FieldSize(FieldOf(t))]
    ensures ImplicitAddend(e, s, o, t) == ImplicitAddend(e, s2, o, t)
  {
    ReadFieldReadsPlace(e, s, s2, o, FieldOf(t));
  }

  lemma ReadFieldReadsPlace(e: Endian, s: seq<bv8>, s2: seq<bv8>, o: nat, f: Field)
    requires o + FieldSize(f) <= |s| && o + FieldSize(f) <= |s2|
    requires s[o..o + FieldSize(f)] == s2[o..o + FieldSize(f)]
    ensures ReadField(e, s, o, f) == ReadField(e, s2, o, f)
  {
    if f == Word16 {
      Word16ReadsPlace(e, s, s2, o);
    } else if f == Word32 {
      Word32ReadsPlace(e, s, s2, o);
    } else if f == Word64 || f == Word64At8 {
      WideWordReadsPlace(e, s, s2, o, f);
    } else if InsnField(f) {
      InsnFieldReadsPlace(e, s, s2, o, f);
    }
  }

  lemma Word16ReadsPlace(e: Endian, s: seq<bv8>, s2: seq<bv8>, o: nat)
    requires o + 2 <= |s| && o + 2 <= |s2|
    requires s[o..o + 2] == s2[o..o + 2]
    ensures ReadField(e, s, o, Word16) == ReadField(e, s2, o, Word16)
  {
    var x := Load16(e, s, o);
    assert x == Load16(e, s2, o);
    Word16Is(e, s, o);
    Word16Is(e, s2, o);
  }

  /** The two sign-extended data words, unfolded. */
  lemma Word16Is(e: Endian, s: seq<bv8>, o: nat)
    requires o + 2 <= |s|
    ensures ReadField(e, s, o, Word16) == Some(SignExtend(Load16(e, s, o) as bv64, I16))
  {
  }

  lemma Word32ReadsPlace(e: Endian, s: seq<bv8>, s2: seq<bv8>, o: nat)
    requires o + 4 <= |s| && o + 4 <= |s2|
    requires s[o..o + 4] == s2[o..o + 4]
    ensures ReadField(e, s, o, Word32) == ReadField(e, s2, o, Word32)
  {
    var x := Load32(e, s, o);
    assert x == Load32(e, s2, o);
    Word32Is(e, s, o);
    Word32Is(e, s2, o);
  }

  lemma Word32Is(e: Endian, s: seq<bv8>, o: nat)
    requires o + 4 <= |s|
    ensures ReadField(e, s, o, Word32) == Some(SignExtend(Load32(e, s, o) as bv64, I32))
  {
  }

  lemma WideWordReadsPlace(e: Endian, s: seq<bv8>, s2: seq<bv8>, o: nat, f: Field)
    requires f == Word64 || f == Word64At8
    requires o + FieldSize(f) <= |s| && o + FieldSize(f) <= |s2|
    requires s[o..o + FieldSize(f)] == s2[o..o + FieldSize(f)]
    ensures ReadField(e, s, o, f) == ReadField(e, s2, o, f)
  {
    if f == Word64 {
      assert Load64(e, s, o) == Load64(e, s2, o);
    } else {
      SubSlice(s, s2, o, 16, o + 8, o + 16);
      assert Load64(e, s, o + 8) == Load64(e, s2, o + 8);
    }
  }

  lemma InsnFieldReadsPlace(e: Endian, s: seq<bv8>, s2: seq<bv8>, o: nat, f: Field)
    requires InsnField(f)
    requires o + FieldSize(f) <= |s| && o + FieldSize(f) <= |s2|
    requires s[o..o + FieldSize(f)] == s2[o..o + FieldSize(f)]
    ensures ReadField(e, s, o, f) == ReadField(e, s2, o, f)
  {
    assert Load32le(s, o) == Load32le(s2, o);
  }

  /** Sections that agree on a range agree on every part of it. */
  lemma SubSlice(s: seq<bv8>, s2: seq<bv8>, o: nat, n: nat, a: nat, b: nat)
    requires o + n <= |s| && o + n <= |s2| && o <= a <= b <= o + n
    requires s[o..o + n] == s2[o..o + n]
    ensures s[a..b] == s2[a..b]
  {
    forall k | a <= k < b
      ensures s[k] == s2[k]
    {
      assert s[k] == s[o..o + n][k - o];
      assert s2[k] == s2[o..o + n][k - o];
    }
    assert s[a..b] == s2[a..b];
  }
}
