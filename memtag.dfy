// Memory-tagged globals (Arm MTE): which data symbols the link marks as
// tagged. addTaggedSymbolReferences counts, per global data symbol, the
// references that the memtag globals sections (SHT_AARCH64_MEMTAG_GLOBALS_STATIC)
// of the relocatable objects make to it; createTaggedSymbols then takes one
// count off per declaration or definition in the symbol tables, demoting a
// symbol that occurs more often than it is referenced as tagged, and marks
// the survivors tagged. The counts are a map from symbol to count (the
// source's DenseMap); the symbols' isTagged flags are the returned set.

module Memtag {
  import opened Reloc

  /** InputFile::kind(), as far as this pass distinguishes it. */
  datatype FileKind = ObjKind | BinaryKind | OtherKind

  /** An input section: whether it is a memtag globals section, whether it
      is the discarded placeholder, whether its relocations are REL rather
      than RELA, and the target symbol of each of its relocations. */
  datatype Section = Section(isMemtagGlobals: bool, isDiscarded: bool, isRel: bool,
                             refs: seq<Symbol>)

  datatype InputFile = InputFile(kind: FileKind, sections: seq<Section>, symbols: seq<Symbol>)

  datatype MemtagDiag =
    | NonRelaMemtag              // non-RELA relocations are not allowed with memtag globals
    | ApplyDynamicRelocsWithMte  // --apply-dynamic-relocs cannot be used with MTE globals

  // ---- the counts ---------------------------------------------------------

  /** Global (non-local) data objects are counted; local ones are tagged at
      once, and symbols of any other type are never tagged. */
  predicate Counted(s: Symbol) {
    s.isObject && !s.isLocal
  }

  function Count(m: map<Symbol, nat>, s: Symbol): nat {
    if s in m then m[s] else 0
  }

  /** How many times `refs` references `s` as a counted symbol. */
  function Occ(refs: seq<Symbol>, s: Symbol): nat {
    if Counted(s) then multiset(refs)[s] else 0
  }

  /** The local data objects among `refs`: pass 1 tags them at once. */
  function LocalObjects(refs: seq<Symbol>): set<Symbol> {
    set s | s in refs && s.isObject && s.isLocal
  }

  /** One reference: a counted symbol's count goes up by one. */
  function Bump(m: map<Symbol, nat>, s: Symbol): map<Symbol, nat> {
    if Counted(s) then m[s := Count(m, s) + 1] else m
  }

  /** The counts `m` with the references `refs` added, one at a time. */
  function CountRefs(m: map<Symbol, nat>, refs: seq<Symbol>): map<Symbol, nat> {
    if refs == [] then m else Bump(CountRefs(m, refs[..|refs| - 1]), refs[|refs| - 1])
  }

  /** One declaration: a counted symbol with a count takes one off, or is
      dropped when the count is already zero. */
  function Drop(m: map<Symbol, nat>, s: Symbol): map<Symbol, nat> {
    if !Counted(s) || s !in m then m
    else if m[s] == 0 then m - {s}
    else m[s := m[s] - 1]
  }

  /** The counts `m` after the declarations `decls`, one at a time. */
  function Reconcile(m: map<Symbol, nat>, decls: seq<Symbol>): map<Symbol, nat> {
    if decls == [] then m else Drop(Reconcile(m, decls[..|decls| - 1]), decls[|decls| - 1])
  }

  /** Counting adds to a counted symbol the number of its references, and
      gives a count to exactly the counted symbols referenced. */
  lemma {:induction false} CountRefsAt(m: map<Symbol, nat>, refs: seq<Symbol>, s: Symbol)
    ensures s in CountRefs(m, refs) <==> s in m || (Counted(s) && s in refs)
    ensures Count(CountRefs(m, refs), s) == Count(m, s) + Occ(refs, s)
  {
    if refs != [] {
      var a, x := refs[..|refs| - 1], refs[|refs| - 1];
      CountRefsAt(m, a, s);
      assert refs == a + [x];
      assert multiset(refs) == multiset(a) + multiset{x};
    }
  }

  /** Counting two runs of references one after the other is counting
      their concatenation. */
  lemma {:induction false} CountRefsAppend(m: map<Symbol, nat>, a: seq<Symbol>, b: seq<Symbol>)
    ensures CountRefs(CountRefs(m, a), b) == CountRefs(m, a + b)
  {
    if b == [] {
      assert a + b == a;
    } else {
      var c, x := b[..|b| - 1], b[|b| - 1];
      CountRefsAppend(m, a, c);
      assert (a + b)[..|a + b| - 1] == a + c;
    }
  }

  /** Reconciling keeps exactly the symbols of `m` declared no more often
      than their count, and takes the number of their declarations off. */
  lemma {:induction false} ReconcileAt(m: map<Symbol, nat>, decls: seq<Symbol>, s: Symbol)
    ensures s in Reconcile(m, decls) <==> s in m && Occ(decls, s) <= m[s]
    ensures s in Reconcile(m, decls) ==> Reconcile(m, decls)[s] + Occ(decls, s) == m[s]
  {
    if decls != [] {
      var a, x := decls[..|decls| - 1], decls[|decls| - 1];
      ReconcileAt(m, a, s);
      assert decls == a + [x];
      assert multiset(decls) == multiset(a) + multiset{x};
    }
  }

  /** Reconciling against two runs of declarations one after the other is
      reconciling against their concatenation. */
  lemma {:induction false} ReconcileAppend(m: map<Symbol, nat>, a: seq<Symbol>, b: seq<Symbol>)
    ensures Reconcile(Reconcile(m, a), b) == Reconcile(m, a + b)
  {
    if b == [] {
      assert a + b == a;
    } else {
      var c, x := b[..|b| - 1], b[|b| - 1];
      ReconcileAppend(m, a, c);
      assert (a + b)[..|a + b| - 1] == a + c;
    }
  }

  // ---- what the pass reads --------------------------------------------------

  /** The relocation targets a section contributes: those of a live memtag
      globals section. A section with REL relocations has no RELA ones, so it
      contributes none. */
  function Scanned(sec: Section): seq<Symbol> {
    if sec.isMemtagGlobals && !sec.isDiscarded && !sec.isRel then sec.refs else []
  }

  function SectionRefs(secs: seq<Section>): seq<Symbol> {
    if secs == [] then [] else SectionRefs(secs[..|secs| - 1]) + Scanned(secs[|secs| - 1])
  }

  /** Every reference pass 1 counts, in order: the relocatable objects'
      memtag globals sections. */
  function TaggedRefs(files: seq<InputFile>): seq<Symbol> {
    if files == [] then []
    else
      var f := files[|files| - 1];
      TaggedRefs(files[..|files| - 1]) + (if f.kind == ObjKind then SectionRefs(f.sections) else [])
  }

  function RelDiag(sec: Section): seq<MemtagDiag> {
    if sec.isMemtagGlobals && !sec.isDiscarded && sec.isRel then [NonRelaMemtag] else []
  }

  function SectionDiags(secs: seq<Section>): seq<MemtagDiag> {
    if secs == [] then [] else SectionDiags(secs[..|secs| - 1]) + RelDiag(secs[|secs| - 1])
  }

  /** One error per memtag globals section with REL relocations, in order. */
  function RelDiags(files: seq<InputFile>): seq<MemtagDiag> {
    if files == [] then []
    else
      var f := files[|files| - 1];
      RelDiags(files[..|files| - 1]) + (if f.kind == ObjKind then SectionDiags(f.sections) else [])
  }

  /** Every declaration and definition pass 2 sees, in order: the symbol
      tables of the relocatable objects and of the binary blobs. */
  function Declarations(files: seq<InputFile>): seq<Symbol> {
    if files == [] then []
    else
      var f := files[|files| - 1];
      Declarations(files[..|files| - 1])
        + (if f.kind == ObjKind || f.kind == BinaryKind then f.symbols else [])
  }

  /** A global data symbol stays tagged when it is referenced as tagged at
      least as often as it is declared or defined. */
  predicate KeptTagged(files: seq<InputFile>, s: Symbol) {
    Counted(s) && s in TaggedRefs(files)
    && multiset(Declarations(files))[s] <= multiset(TaggedRefs(files))[s]
  }

  // ---- the pass -----------------------------------------------------------

  /** addTaggedSymbolReferences: counts the global data objects the section's
      relocations reference and tags the local ones; a section with REL
      relocations is an error and contributes nothing. */
  method AddTaggedSymbolReferences(sec: Section, count: map<Symbol, nat>)
      returns (count': map<Symbol, nat>, locals: set<Symbol>, diags: seq<MemtagDiag>)
    requires sec.isMemtagGlobals && !sec.isDiscarded
    ensures count' == CountRefs(count, Scanned(sec))
    ensures locals == LocalObjects(Scanned(sec))
    ensures diags == RelDiag(sec)
  {
    diags := if sec.isRel then [NonRelaMemtag] else [];
    var relas := if sec.isRel then [] else sec.refs;
    count' := count;
    locals := {};
    var k := 0;
    while k < |relas|
      invariant k <= |relas|
      invariant count' == CountRefs(count, relas[..k])
      invariant locals == LocalObjects(relas[..k])
    {
      var sym := relas[k];
      if !sym.isObject {
      } else if sym.isLocal {
        locals := locals + {sym};
      } else {
        count' := count'[sym := Count(count', sym) + 1];
      }
      assert relas[..k + 1][..k] == relas[..k];
      k := k + 1;
    }
    assert relas[..k] == relas;
  }

  /** The memtag globals sections of one relocatable object, in order. */
  method CountFileReferences(secs: seq<Section>, count: map<Symbol, nat>)
      returns (count': map<Symbol, nat>, locals: set<Symbol>, diags: seq<MemtagDiag>)
    ensures count' == CountRefs(count, SectionRefs(secs))
    ensures locals == LocalObjects(SectionRefs(secs))
    ensures diags == SectionDiags(secs)
  {
    count', locals, diags := count, {}, [];
    var j := 0;
    while j < |secs|
      invariant j <= |secs|
      invariant count' == CountRefs(count, SectionRefs(secs[..j]))
      invariant locals == LocalObjects(SectionRefs(secs[..j]))
      invariant diags == SectionDiags(secs[..j])
    {
      assert secs[..j + 1][..j] == secs[..j];
      if secs[j].isMemtagGlobals && !secs[j].isDiscarded {
        var c, l, d := AddTaggedSymbolReferences(secs[j], count');
        assert SectionRefs(secs[..j + 1]) == SectionRefs(secs[..j]) + Scanned(secs[j]);
        CountRefsAppend(count, SectionRefs(secs[..j]), Scanned(secs[j]));
        LocalObjectsAppend(SectionRefs(secs[..j]), Scanned(secs[j]));
        count', locals, diags := c, locals + l, diags + d;
      } else {
        NothingAppended(SectionRefs(secs[..j]));
        NothingAppended(SectionDiags(secs[..j]));
        assert SectionRefs(secs[..j + 1]) == SectionRefs(secs[..j]) + [];
        assert SectionDiags(secs[..j + 1]) == SectionDiags(secs[..j]) + [];
      }
      j := j + 1;
    }
    assert secs[..j] == secs;
  }

  lemma NothingAppended<T>(a: seq<T>)
    ensures a + [] == a
  {
  }

  lemma LocalObjectsAppend(a: seq<Symbol>, b: seq<Symbol>)
    ensures LocalObjects(a + b) == LocalObjects(a) + LocalObjects(b)
  {
    assert forall s :: s in a + b <==> s in a || s in b;
  }

  /** Pass 1 of createTaggedSymbols: the counts of every memtag globals
      section of every relocatable object. */
  method CountTaggedReferences(files: seq<InputFile>)
      returns (count: map<Symbol, nat>, locals: set<Symbol>, diags: seq<MemtagDiag>)
    ensures count == CountRefs(map[], TaggedRefs(files))
    ensures locals == LocalObjects(TaggedRefs(files))
    ensures diags == RelDiags(files)
  {
    count, locals, diags := map[], {}, [];
    var i := 0;
    while i < |files|
      invariant i <= |files|
      invariant count == CountRefs(map[], TaggedRefs(files[..i]))
      invariant locals == LocalObjects(TaggedRefs(files[..i]))
      invariant diags == RelDiags(files[..i])
    {
      assert files[..i + 1][..i] == files[..i];
      if files[i].kind == ObjKind {
        var c, l, d := CountFileReferences(files[i].sections, count);
        assert TaggedRefs(files[..i + 1]) == TaggedRefs(files[..i]) + SectionRefs(files[i].sections);
        CountRefsAppend(map[], TaggedRefs(files[..i]), SectionRefs(files[i].sections));
        LocalObjectsAppend(TaggedRefs(files[..i]), SectionRefs(files[i].sections));
        count, locals, diags := c, locals + l, diags + d;
      } else {
        NothingAppended(TaggedRefs(files[..i]));
        NothingAppended(RelDiags(files[..i]));
        assert TaggedRefs(files[..i + 1]) == TaggedRefs(files[..i]) + [];
        assert RelDiags(files[..i + 1]) == RelDiags(files[..i]) + [];
      }
      i := i + 1;
    }
    assert files[..i] == files;
  }

  /** The symbol table of one file, in order. */
  method DropFileUses(syms: seq<Symbol>, count: map<Symbol, nat>) returns (count': map<Symbol, nat>)
    ensures count' == Reconcile(count, syms)
  {
    count' := count;
    var j := 0;
    while j < |syms|
      invariant j <= |syms|
      invariant count' == Reconcile(count, syms[..j])
    {
      var symbol := syms[j];
      if !symbol.isObject || symbol.isLocal {
      } else if symbol !in count' {
      } else if count'[symbol] == 0 {
        count' := count' - {symbol};
      } else {
        count' := count'[symbol := count'[symbol] - 1];
      }
      assert syms[..j + 1][..j] == syms[..j];
      j := j + 1;
    }
    assert syms[..j] == syms;
  }

  /** Pass 2 of createTaggedSymbols: every declaration or definition of a
      counted symbol takes one off its count, and drops the symbol when the
      count is already zero. */
  method DropUntaggedUses(files: seq<InputFile>, count: map<Symbol, nat>)
      returns (count': map<Symbol, nat>)
    ensures count' == Reconcile(count, Declarations(files))
  {
    count' := count;
    var i := 0;
    while i < |files|
      invariant i <= |files|
      invariant count' == Reconcile(count, Declarations(files[..i]))
    {
      assert files[..i + 1][..i] == files[..i];
      if files[i].kind == ObjKind || files[i].kind == BinaryKind {
        count' := DropFileUses(files[i].symbols, count');
        assert Declarations(files[..i + 1]) == Declarations(files[..i]) + files[i].symbols;
        ReconcileAppend(count, Declarations(files[..i]), files[i].symbols);
      } else {
        NothingAppended(Declarations(files[..i]));
        assert Declarations(files[..i + 1]) == Declarations(files[..i]) + [];
      }
      i := i + 1;
    }
    assert files[..i] == files;
  }

  /** createTaggedSymbols: the symbols it marks tagged are the local data
      objects referenced from a memtag globals section and the global data
      objects referenced as tagged at least as often as they are declared;
      `overTagged` holds the survivors whose count did not reach zero (the
      source asserts there are none). */
  method CreateTaggedSymbols(files: seq<InputFile>, writeAddends: bool)
      returns (tagged: set<Symbol>, overTagged: set<Symbol>, diags: seq<MemtagDiag>)
    ensures forall s :: s in tagged <==>
      s in TaggedRefs(files) && s.isObject
      && (s.isLocal || multiset(Declarations(files))[s] <= multiset(TaggedRefs(files))[s])
    ensures forall s :: s in overTagged <==>
      KeptTagged(files, s) && multiset(Declarations(files))[s] < multiset(TaggedRefs(files))[s]
    ensures diags == RelDiags(files)
      + (if writeAddends && (exists s :: KeptTagged(files, s)) then [ApplyDynamicRelocsWithMte] else [])
  {
    var count, locals, d := CountTaggedReferences(files);
    count := DropUntaggedUses(files, count);
    diags := d;
    if count != map[] && writeAddends {
      diags := diags + [ApplyDynamicRelocsWithMte];
    }
    tagged, overTagged := MarkTagged(count, locals);
    TaggedOutcome(files, count, locals, tagged, overTagged);
  }

  /** What the two passes and the last loop leave, in terms of the
      references and declarations of all the files. */
  lemma TaggedOutcome(files: seq<InputFile>, count: map<Symbol, nat>, locals: set<Symbol>,
                      tagged: set<Symbol>, overTagged: set<Symbol>)
    requires count == Reconcile(CountRefs(map[], TaggedRefs(files)), Declarations(files))
    requires locals == LocalObjects(TaggedRefs(files))
    requires forall s :: s in tagged <==> s in locals || s in count
    requires forall s :: s in overTagged <==> s in count && count[s] != 0
    ensures forall s :: s in tagged <==>
      s in TaggedRefs(files) && s.isObject
      && (s.isLocal || multiset(Declarations(files))[s] <= multiset(TaggedRefs(files))[s])
    ensures forall s :: s in overTagged <==>
      KeptTagged(files, s) && multiset(Declarations(files))[s] < multiset(TaggedRefs(files))[s]
    ensures count != map[] <==> exists s :: KeptTagged(files, s)
  {
    forall s
      ensures s in count <==> KeptTagged(files, s)
      ensures s in count ==> count[s] + multiset(Declarations(files))[s] == multiset(TaggedRefs(files))[s]
    {
      KeptAt(files, count, s);
    }
    if count != map[] {
      var s :| s in count;
      assert KeptTagged(files, s);
    }
  }

  /** The last loop of createTaggedSymbols: every symbol left with a count
      is tagged; `overTagged` collects those whose count is not zero. */
  method MarkTagged(count: map<Symbol, nat>, locals: set<Symbol>)
      returns (tagged: set<Symbol>, overTagged: set<Symbol>)
    ensures forall s :: s in tagged <==> s in locals || s in count
    ensures forall s :: s in overTagged <==> s in count && count[s] != 0
  {
    tagged, overTagged := locals, {};
    var rest := count.Keys;
    while rest != {}
      invariant rest <= count.Keys
      invariant forall s :: s in tagged <==> s in locals || (s in count && s !in rest)
      invariant forall s :: s in overTagged <==> s in count && s !in rest && count[s] != 0
      decreases |rest|
    {
      var symbol :| symbol in rest;
      if count[symbol] != 0 {
        overTagged := overTagged + {symbol};
      }
      tagged := tagged + {symbol};
      rest := rest - {symbol};
    }
  }

  /** A symbol keeps a count through both passes exactly when it is
      KeptTagged, and the count is what its references exceed its
      declarations by. */
  lemma KeptAt(files: seq<InputFile>, count: map<Symbol, nat>, s: Symbol)
    requires count == Reconcile(CountRefs(map[], TaggedRefs(files)), Declarations(files))
    ensures s in count <==> KeptTagged(files, s)
    ensures s in count ==> count[s] + multiset(Declarations(files))[s] == multiset(TaggedRefs(files))[s]
  {
    CountRefsAt(map[], TaggedRefs(files), s);
    ReconcileAt(CountRefs(map[], TaggedRefs(files)), Declarations(files), s);
  }
}
