// Branch range, range-extension thunks and the branch-to-branch callbacks:
// inBranchRange, needsThunk, getThunkSectionSpacing,
// getControlTransferAddend, getBranchInfoAtTarget and
// redirectControlTransferRelocations.

module Branch {
  import opened Bits
  import opened Reloc

  /** getThunkSectionSpacing: thunk sections are placed this far apart,
      128 MiB less a margin of 0x30000 bytes. */
  const ThunkSectionSpacing: bv64 := 0x800_0000 - 0x3_0000

  /** The types that can reach their target through a thunk. */
  predicate IsThunkable(t: RelType) {
    t == CALL26 || t == JUMP26 || t == PLT32
  }

  /** The reach of a branch: +/- 128 MiB for B and BL, +/- 2 GiB for PLT32. */
  function BranchRange(t: RelType): bv64 {
    if t == PLT32 then 0x8000_0000 else 0x800_0000
  }

  /** inBranchRange: whether a branch of type `t` at `src` reaches `dst`
      (unsigned 64-bit addresses). A forward branch reaches range - 4
      bytes, a backward one `range` bytes; other types always reach. */
  predicate InBranchRange(t: RelType, src: bv64, dst: bv64)
    ensures !IsThunkable(t) ==> InBranchRange(t, src, dst)
  {
    if !IsThunkable(t) then true
    else if dst > src then dst - src <= BranchRange(t) - 4
    else src - dst <= BranchRange(t)
  }

  /** A B or BL in range has an offset that passes relocate's check, a
      signed 28-bit value; conversely an aligned offset that passes it is in
      range, when source and destination are less than 2^63 bytes apart in
      the direction of the branch (so that the unsigned distance and the
      signed offset agree). */
  lemma InBranchRange26(t: RelType, src: bv64, dst: bv64)
    requires t == CALL26 || t == JUMP26
    ensures InBranchRange(t, src, dst) ==> FitsInt(dst - src, I28)
    ensures Apart(src, dst) && (dst - src) & 3 == 0 && FitsInt(dst - src, I28)
            ==> InBranchRange(t, src, dst)
  {
    Range26(t, src, dst);
    Reach28();
    if dst <= src {
      Negated(src, dst);
    }
  }

  /** The same for PLT32 and its signed 32-bit check. */
  lemma InBranchRangePlt32(src: bv64, dst: bv64)
    ensures InBranchRange(PLT32, src, dst) ==> FitsInt(dst - src, I32)
    ensures Apart(src, dst) && (dst - src) & 3 == 0 && FitsInt(dst - src, I32)
            ==> InBranchRange(PLT32, src, dst)
  {
    RangePlt32(src, dst);
    Reach32();
    if dst <= src {
      Negated(src, dst);
    }
  }

  /** InBranchRange with the reach of each type written out. */
  lemma Range26(t: RelType, src: bv64, dst: bv64)
    requires t == CALL26 || t == JUMP26
    ensures InBranchRange(t, src, dst)
            == if dst > src then dst - src <= 0x7FF_FFFC else src - dst <= 0x800_0000
  {
  }

  lemma RangePlt32(src: bv64, dst: bv64)
    ensures InBranchRange(PLT32, src, dst)
            == if dst > src then dst - src <= 0x7FFF_FFFC else src - dst <= 0x8000_0000
  {
  }

  /** The unsigned distance from `src` to `dst`, in the direction of the
      branch, is below 2^63. */
  predicate Apart(src: bv64, dst: bv64) {
    if dst > src then dst - src < 0x8000_0000_0000_0000
    else src - dst < 0x8000_0000_0000_0000
  }

  /** Two's-complement negation, named so that lemmas can be stated for
      every operand. */
  function Negate(x: bv64): bv64 {
    -x
  }

  lemma Negated(src: bv64, dst: bv64)
    ensures dst - src == Negate(src - dst)
  {
  }

  /** The reach of a signed 28-bit offset: forward distances below 2^63
      fit exactly up to 2^27 - 1 (2^27 - 4 when aligned), backward ones,
      negated, exactly up to 2^27. */
  lemma Reach28()
    ensures forall d: bv64 :: d <= 0x7FF_FFFC ==> FitsInt(d, I28)
    ensures forall d: bv64 :: d < 0x8000_0000_0000_0000 && d & 3 == 0 && FitsInt(d, I28)
                              ==> d <= 0x7FF_FFFC
    ensures forall m: bv64 :: m <= 0x800_0000 ==> FitsInt(Negate(m), I28)
    ensures forall m: bv64 :: m < 0x8000_0000_0000_0000 && FitsInt(Negate(m), I28)
                              ==> m <= 0x800_0000
  {
  }

  /** The same for a signed 32-bit offset. */
  lemma Reach32()
    ensures forall d: bv64 :: d <= 0x7FFF_FFFC ==> FitsInt(d, I32)
    ensures forall d: bv64 :: d < 0x8000_0000_0000_0000 && d & 3 == 0 && FitsInt(d, I32)
                              ==> d <= 0x7FFF_FFFC
    ensures forall m: bv64 :: m <= 0x8000_0000 ==> FitsInt(Negate(m), I32)
    ensures forall m: bv64 :: m < 0x8000_0000_0000_0000 && FitsInt(Negate(m), I32)
                              ==> m <= 0x8000_0000
  {
  }

  /** A thunk section spacing apart is within the reach of a B or BL in
      both directions. */
  lemma ThunkSectionSpacingInRange(src: bv64)
    requires src < 0x8000_0000_0000_0000
    ensures InBranchRange(CALL26, src, src + ThunkSectionSpacing)
    ensures src >= ThunkSectionSpacing ==> InBranchRange(CALL26, src, src - ThunkSectionSpacing)
  {
  }

  /** The destination needsThunk measures against: the PLT entry for a
      PLT-relative branch, the symbol plus the addend otherwise. */
  function BranchDestination(expr: RelExpr, s: Symbol, a: bv64): bv64
  {
    if expr == PltPc then s.pltVA else s.va + a
  }

  /** needsThunk: an undefined symbol without a PLT entry (a weak reference
      resolved as a branch to the next instruction) and a type that cannot
      be thunked never need one; otherwise a branch needs a thunk exactly
      when its destination is out of range. */
  predicate NeedsThunk(expr: RelExpr, t: RelType, branchAddr: bv64, s: Symbol, a: bv64)
    ensures NeedsThunk(expr, t, branchAddr, s, a) ==> IsThunkable(t) && !(s.isUndefined && !s.isInPlt)
  {
    if s.isUndefined && !s.isInPlt then false
    else if !IsThunkable(t) then false
    else !InBranchRange(t, branchAddr, BranchDestination(expr, s, a))
  }

  /** For a B, a BL or a PLT32 to a symbol that is not an undefined weak
      one, needsThunk is exactly "out of range". */
  lemma NeedsThunkOutOfRange(expr: RelExpr, t: RelType, branchAddr: bv64, s: Symbol, a: bv64)
    requires IsThunkable(t)
    requires !(s.isUndefined && !s.isInPlt)
    ensures NeedsThunk(expr, t, branchAddr, s, a)
            <==> !InBranchRange(t, branchAddr, BranchDestination(expr, s, a))
  {
  }

  /** ... so a B or BL that needs no thunk reaches its destination with an
      offset that passes relocate's range check. */
  lemma NoThunkFits(expr: RelExpr, t: RelType, branchAddr: bv64, s: Symbol, a: bv64)
    requires t == CALL26 || t == JUMP26
    requires !(s.isUndefined && !s.isInPlt)
    ensures !NeedsThunk(expr, t, branchAddr, s, a)
            ==> FitsInt(BranchDestination(expr, s, a) - branchAddr, I28)
  {
    InBranchRangeFits26(t, branchAddr, BranchDestination(expr, s, a));
  }

  /** The same for PLT32 and its signed 32-bit check. */
  lemma NoThunkFitsPlt32(expr: RelExpr, t: RelType, branchAddr: bv64, s: Symbol, a: bv64)
    requires t == PLT32
    requires !(s.isUndefined && !s.isInPlt)
    ensures !NeedsThunk(expr, t, branchAddr, s, a)
            ==> FitsInt(BranchDestination(expr, s, a) - branchAddr, I32)
  {
    InBranchRangeFitsPlt32(t, branchAddr, BranchDestination(expr, s, a));
  }

  /** InBranchRangePlt32's first half on its own. */
  lemma InBranchRangeFitsPlt32(t: RelType, src: bv64, dst: bv64)
    requires t == PLT32
    ensures InBranchRange(t, src, dst) ==> FitsInt(dst - src, I32)
  {
    InBranchRangePlt32(src, dst);
  }

  /** InBranchRange26's first half on its own. */
  lemma InBranchRangeFits26(t: RelType, src: bv64, dst: bv64)
    requires t == CALL26 || t == JUMP26
    ensures InBranchRange(t, src, dst) ==> FitsInt(dst - src, I28)
  {
    InBranchRange26(t, src, dst);
  }

  // ---- branch-to-branch ------------------------------------------------------

  /** getControlTransferAddend: the addend that determines the target of a
      control transfer: 0 for PLT32 (its addend only adjusts the value),
      the addend for B and BL, none for other types. */
  function ControlTransferAddend(r: Relocation): (a: Option<bv64>)
    ensures a.Some? <==> IsThunkable(r.rtype)
    ensures r.rtype == PLT32 ==> a == Some(0)
    ensures r.rtype == CALL26 || r.rtype == JUMP26 ==> a == Some(r.addend)
  {
    if r.rtype == PLT32 then Some(0)
    else if r.rtype == JUMP26 || r.rtype == CALL26 then Some(r.addend)
    else None
  }

  /** Relocations ordered by offset, as a section keeps them. */
  predicate SortedByOffset(relocs: seq<Relocation>) {
    forall i, j :: 0 <= i < j < |relocs| ==> relocs[i].offset <= relocs[j].offset
  }

  /** getBranchInfoAtTarget: the relocation at `offset` when it is a B
      (JUMP26) and its addend, found by binary search for the first
      relocation at or after `offset` (llvm::partition_point); none, with
      addend 0, otherwise. */
  method BranchInfoAtTarget(relocs: seq<Relocation>, offset: nat)
      returns (idx: Option<nat>, addend: bv64)
    requires SortedByOffset(relocs)
    ensures idx.Some? ==> idx.value < |relocs|
                          && relocs[idx.value].offset == offset
                          && relocs[idx.value].rtype == JUMP26
                          && addend == relocs[idx.value].addend
                          && forall j :: 0 <= j < idx.value ==> relocs[j].offset < offset
    ensures idx.None? ==> addend == 0
                          && forall i :: 0 <= i < |relocs| && relocs[i].offset == offset
                                         && (forall j :: 0 <= j < i ==> relocs[j].offset < offset)
                                         ==> relocs[i].rtype != JUMP26
  {
    var lo, hi := 0, |relocs|;
    while lo < hi
      invariant 0 <= lo <= hi <= |relocs|
      invariant forall j :: 0 <= j < lo ==> relocs[j].offset < offset
      invariant forall j :: hi <= j < |relocs| ==> relocs[j].offset >= offset
      decreases hi - lo
    {
      var mid := lo + (hi - lo) / 2;
      if relocs[mid].offset < offset {
        lo := mid + 1;
      } else {
        hi := mid;
      }
    }
    if lo < |relocs| && relocs[lo].offset == offset && relocs[lo].rtype == JUMP26 {
      idx, addend := Some(lo), relocs[lo].addend;
    } else {
      idx, addend := None, 0;
    }
  }

  /** A section's relocations, which the branch-to-branch pass rewrites. */
  class InputSection {
    var relocations: seq<Relocation>

    constructor(relocations: seq<Relocation>)
      ensures this.relocations == relocations
    {
      this.relocations := relocations;
    }

    /** redirectControlTransferRelocations(relocations[i], r2): the
        relocation now refers to what r2 refers to. */
    method Redirect(i: nat, r2: Relocation)
      requires i < |relocations|
      modifies this
      ensures relocations == old(relocations)[i := Redirected(old(relocations)[i], r2)]
    {
      relocations := relocations[i := Redirected(relocations[i], r2)];
    }
  }

  /** r1 redirected to r2's target: r1 keeps its type and offset and takes
      r2's expression kind and symbol. A PLT32 relocation keeps its own
      addend on top of r2's (it affects the value); any other type takes
      r2's addend, its own having referred into the original target. */
  function Redirected(r1: Relocation, r2: Relocation): (r: Relocation)
    ensures r.rtype == r1.rtype && r.offset == r1.offset
    ensures r.expr == r2.expr && r.sym == r2.sym
    ensures r.addend == (if r1.rtype == PLT32 then r1.addend + r2.addend else r2.addend)
  {
    var a := if r1.rtype == PLT32 then r1.addend + r2.addend else r2.addend;
    Relocation(r2.expr, r1.rtype, r1.offset, a, r2.sym)
  }

  /** A B or BL redirected to a B now transfers control exactly where that
      B does: same symbol, same expression kind and same effective addend;
      a redirected PLT32 still branches to the symbol itself. */
  lemma RedirectedTransfersLikeTarget(r1: Relocation, r2: Relocation)
    requires ControlTransferAddend(r1).Some? && r2.rtype == JUMP26
    ensures ControlTransferAddend(Redirected(r1, r2))
            == (if r1.rtype == PLT32 then Some(0) else ControlTransferAddend(r2))
    ensures Redirected(r1, r2).sym == r2.sym && Redirected(r1, r2).expr == r2.expr
  {
  }
}
