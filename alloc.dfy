// relocateAlloc: applying a section's relocations to its bytes, with the
// peephole relaxations tried first.

module Alloc {
  import opened Bits
  import opened Bytes
  import opened Reloc
  import opened Apply
  import opened Tls
  import opened Relaxation

  /** needsGot: the expression kinds, among those this backend produces,
      whose value goes through a GOT entry. */
  predicate NeedsGot(e: RelExpr) {
    e in {Got, GotPc, GotPage, GotPagePc, AuthGot, AuthGotPc, AuthGotPagePc}
  }

  /** needsGotForMemtag: a tagged symbol reached through the GOT needs the
      full 64-bit entry (the loader adds the tag), so it is never relaxed.
      Such a reference is neither PC-relative to a page nor a TLS
      relaxation: of the switch's rewrites the check only keeps the
      ADRP + LDR one (GOT_PAGE_PC) from it. */
  predicate NeedsGotForMemtag(rel: Relocation)
    requires rel.sym != null
    ensures NeedsGotForMemtag(rel) ==> rel.expr != PagePc && !IsTlsRelax(rel.expr)
  {
    rel.sym.isTagged && NeedsGot(rel.expr)
  }

  /** The expression kinds relocateAlloc hands to relaxTlsGdToIe. */
  predicate IsGdToIe(e: RelExpr) {
    e == RelaxTlsGdToIePagePc || e == RelaxTlsGdToIeAbs
  }

  /** What the section's relocations are, as the scan that made them
      guarantees: each has a symbol and a place inside the section, a TLS
      relaxation only ever has one of the types its rewrite handles, and
      any other relocation has a type relocate handles. */
  predicate Ready(rel: Relocation, n: nat) {
    rel.sym != null && rel.offset + PlaceSize(rel.rtype) <= n
    && if IsGdToIe(rel.expr) || rel.expr == RelaxTlsGdToLe then
         IsTlsDescType(rel.rtype) && rel.offset + 4 <= n
       else if rel.expr == RelaxTlsIeToLe then
         IsTlsIeType(rel.rtype) && rel.offset + 4 <= n
       else Handled(rel.rtype)
  }

  predicate AllReady(relocs: seq<Relocation>, n: nat) {
    forall k :: 0 <= k < |relocs| ==> Ready(relocs[k], n)
  }

  /** The expression kinds relocateAlloc hands to one of the TLS rewrites. */
  predicate IsTlsRelax(e: RelExpr) {
    IsGdToIe(e) || e == RelaxTlsGdToLe || e == RelaxTlsIeToLe
  }

  /** The fixed inputs of one relocateAlloc run: the byte order, the
      relaxer's flags (`safe` is its safeToRelaxAdrpLdr), the section's
      relocations, their target values vals[i] (getRelocTargetVA) and the
      section's address. */
  datatype Job = Job(e: Endian, safe: bool, relax: bool, isPic: bool,
                     relocs: seq<Relocation>, vals: seq<bv64>, secAddr: bv64)

  /** The job's relocations fit a section of n bytes. */
  predicate Fits(job: Job, n: nat) {
    |job.vals| == |job.relocs| && AllReady(job.relocs, n)
  }

  /** relocateAlloc's loop from index i over the bytes s: the final bytes and
      the diagnostics reported, in order. */
  function AllocFrom(job: Job, i: nat, s: seq<bv8>): (r: (seq<bv8>, seq<Diag>))
    requires i <= |job.relocs| && Fits(job, |s|)
    ensures |r.0| == |s|
    decreases |job.relocs| - i, 4
  {
    if i == |job.relocs| then (s, []) else AllocAt(job, i, s)
  }

  /** The iteration at i and the rest of the loop after it: a GOT relocation
      of a tagged symbol is relocated as it is, anything else goes through
      the switch on its expression kind. */
  function AllocAt(job: Job, i: nat, s: seq<bv8>): (r: (seq<bv8>, seq<Diag>))
    requires i < |job.relocs| && Fits(job, |s|)
    ensures |r.0| == |s|
    decreases |job.relocs| - i, 3
  {
    assert Ready(job.relocs[i], |s|);
    if NeedsGotForMemtag(job.relocs[i]) then Relocated(job, i, s) else Switch(job, i, s)
  }

  /** The switch on the expression kind of relocation i: a GOT_PAGE_PC or
      PAGE_PC relocation followed by another one may start a pair rewrite,
      the TLS relaxations rewrite their instruction, anything else is
      relocated. */
  function Switch(job: Job, i: nat, s: seq<bv8>): (r: (seq<bv8>, seq<Diag>))
    requires i < |job.relocs| && Fits(job, |s|)
    ensures |r.0| == |s|
    decreases |job.relocs| - i, 2
  {
    var rel := job.relocs[i];
    assert Ready(rel, |s|);
    if rel.expr == GotPagePc && i + 1 < |job.relocs| then AdrpLdrStep(job, i, s)
    else if rel.expr == PagePc && i + 1 < |job.relocs| then AdrpAddStep(job, i, s)
    else if IsGdToIe(rel.expr) then GdToIeStep(job, i, s)
    else if rel.expr == RelaxTlsGdToLe then GdToLeStep(job, i, s)
    else if rel.expr == RelaxTlsIeToLe then IeToLeStep(job, i, s)
    else Relocated(job, i, s)
  }

  /** Relocation i is applied as it is (relocate) and the loop goes on at
      i + 1. */
  function Relocated(job: Job, i: nat, s: seq<bv8>): (r: (seq<bv8>, seq<Diag>))
    requires i < |job.relocs| && Fits(job, |s|) && Handled(job.relocs[i].rtype)
    ensures |r.0| == |s|
    decreases |job.relocs| - i, 0
  {
    var rel := job.relocs[i];
    assert Ready(rel, |s|);
    var rest := AllocFrom(job, i + 1, RelocateBytes(job.e, s, rel.offset, rel, job.vals[i]));
    (rest.0, Checks(rel.rtype, job.vals[i]) + rest.1)
  }

  /** An ADRP that goes through the GOT: when tryRelaxAdrpLdr rewrites the
      pair at i and i + 1 both relocations are consumed; otherwise
      relocation i is applied as it is. */
  function AdrpLdrStep(job: Job, i: nat, s: seq<bv8>): (r: (seq<bv8>, seq<Diag>))
    requires i + 1 < |job.relocs| && Fits(job, |s|) && job.relocs[i].expr == GotPagePc
    ensures |r.0| == |s|
    decreases |job.relocs| - i, 1
  {
    assert Ready(job.relocs[i], |s|) && Ready(job.relocs[i + 1], |s|);
    match AdrpLdrResult(job.safe, job.relax, job.isPic, job.relocs[i], job.relocs[i + 1], job.secAddr, s)
    case Some(t) => AllocFrom(job, i + 2, t)
    case None => Relocated(job, i, s)
  }

  /** A PC-relative ADRP: when tryRelaxAdrpAdd rewrites the pair at i and
      i + 1 both relocations are consumed; otherwise relocation i is applied
      as it is. */
  function AdrpAddStep(job: Job, i: nat, s: seq<bv8>): (r: (seq<bv8>, seq<Diag>))
    requires i + 1 < |job.relocs| && Fits(job, |s|) && job.relocs[i].expr == PagePc
    ensures |r.0| == |s|
    decreases |job.relocs| - i, 1
  {
    assert Ready(job.relocs[i], |s|) && Ready(job.relocs[i + 1], |s|);
    match AdrpAddResult(job.relax, job.relocs[i], job.relocs[i + 1], job.secAddr, s)
    case Some(t) => AllocFrom(job, i + 2, t)
    case None => Relocated(job, i, s)
  }

  /** relaxTlsGdToIe: the instruction at relocation i is rewritten for the
      initial-exec model and the loop goes on at i + 1. */
  function GdToIeStep(job: Job, i: nat, s: seq<bv8>): (r: (seq<bv8>, seq<Diag>))
    requires i < |job.relocs| && Fits(job, |s|) && IsGdToIe(job.relocs[i].expr)
    ensures |r.0| == |s|
    decreases |job.relocs| - i, 1
  {
    var rel, val := job.relocs[i], job.vals[i];
    assert Ready(rel, |s|);
    var rest := AllocFrom(job, i + 1, Store32le(s, rel.offset, GdToIeWord(rel.rtype, val)));
    (rest.0, GdToIeDiags(rel.rtype, val) + rest.1)
  }

  /** relaxTlsGdToLe: the instruction at relocation i is rewritten for the
      local-exec model and the loop goes on at i + 1. */
  function GdToLeStep(job: Job, i: nat, s: seq<bv8>): (r: (seq<bv8>, seq<Diag>))
    requires i < |job.relocs| && Fits(job, |s|) && job.relocs[i].expr == RelaxTlsGdToLe
    ensures |r.0| == |s|
    decreases |job.relocs| - i, 1
  {
    var rel, val := job.relocs[i], job.vals[i];
    assert Ready(rel, |s|);
    var rest := AllocFrom(job, i + 1, Store32le(s, rel.offset, GdToLeWord(rel.rtype, val)));
    (rest.0, UIntCheck(rel.rtype, val, U32) + rest.1)
  }

  /** relaxTlsIeToLe: the GOT load at relocation i becomes a move of the
      thread-pointer offset and the loop goes on at i + 1. */
  function IeToLeStep(job: Job, i: nat, s: seq<bv8>): (r: (seq<bv8>, seq<Diag>))
    requires i < |job.relocs| && Fits(job, |s|) && job.relocs[i].expr == RelaxTlsIeToLe
    ensures |r.0| == |s|
    decreases |job.relocs| - i, 1
  {
    var rel, val := job.relocs[i], job.vals[i];
    assert Ready(rel, |s|);
    var rest := AllocFrom(job, i + 1, Store32le(s, rel.offset, IeToLeWord(rel.rtype, Load32le(s, rel.offset), val)));
    (rest.0, UIntCheck(rel.rtype, val, U32) + rest.1)
  }

  /** relocateAlloc over the whole section: the relaxer allows the ADRP +
      LDR rewrite only when relaxation is on and the GOT relocations pair. */
  function AllocResult(e: Endian, relax: bool, isPic: bool, relocs: seq<Relocation>,
                       vals: seq<bv64>, secAddr: bv64, s: seq<bv8>): (r: (seq<bv8>, seq<Diag>))
    requires |vals| == |relocs| && AllReady(relocs, |s|)
  {
    AllocFrom(Job(e, relax && GotPaired(relocs), relax, isPic, relocs, vals, secAddr), 0, s)
  }

  /** The relaxer's flags are the job's. */
  predicate Drives(relaxer: Relaxer, job: Job) {
    relaxer.safeToRelaxAdrpLdr == job.safe && relaxer.relax == job.relax && relaxer.isPic == job.isPic
  }

  /** relocateAlloc(sec, buf): `buf` holds the section's bytes, which start
      at `secAddr`; vals[i] is the target value of relocation i. Returns the
      diagnostics reported along the way. */
  method RelocateAlloc(e: Endian, relax: bool, isPic: bool, relocs: seq<Relocation>,
                       vals: seq<bv64>, secAddr: bv64, buf: array<bv8>) returns (diags: seq<Diag>)
    requires |vals| == |relocs| && AllReady(relocs, buf.Length)
    modifies buf
    ensures (buf[..], diags) == AllocResult(e, relax, isPic, relocs, vals, secAddr, old(buf[..]))
  {
    ghost var s0 := buf[..];
    var relaxer := new Relaxer(relax, isPic, relocs);
    var job := Job(e, relaxer.safeToRelaxAdrpLdr, relax, isPic, relocs, vals, secAddr);
    var i := 0;
    diags := [];
    assert [] + AllocFrom(job, 0, s0).1 == AllocFrom(job, 0, s0).1;
    while i != |relocs|
      invariant i <= |relocs|
      invariant AllocFrom(job, 0, s0) == (AllocFrom(job, i, buf[..]).0, diags + AllocFrom(job, i, buf[..]).1)
      decreases |relocs| - i
    {
      var next, d := AllocIteration(relaxer, job, i, buf);
      assert diags + (d + AllocFrom(job, next, buf[..]).1) == (diags + d) + AllocFrom(job, next, buf[..]).1;
      diags := diags + d;
      i := next;
    }
    assert diags + [] == diags;
  }

  /** Nothing reported first leaves the diagnostics as they are. */
  lemma EmptyFirst<T>(x: seq<T>)
    ensures [] + x == x
  {
  }

  /** The body of relocateAlloc's loop at index i: it does what AllocFrom
      does first, and says where the loop goes on. */
  method AllocIteration(relaxer: Relaxer, job: Job, i: nat, buf: array<bv8>) returns (next: nat, d: seq<Diag>)
    requires i < |job.relocs| && Fits(job, buf.Length) && Drives(relaxer, job)
    modifies buf
    ensures i < next <= |job.relocs|
    ensures AllocFrom(job, i, old(buf[..])) == (AllocFrom(job, next, buf[..]).0, d + AllocFrom(job, next, buf[..]).1)
  {
    var rel := job.relocs[i];
    assert Ready(rel, buf.Length);
    if NeedsGotForMemtag(rel) {
      next, d := PlainIteration(job, i, buf);
    } else if rel.expr == GotPagePc && i + 1 < |job.relocs| {
      next, d := AdrpLdrIteration(relaxer, job, i, buf);
    } else if rel.expr == PagePc && i + 1 < |job.relocs| {
      next, d := AdrpAddIteration(relaxer, job, i, buf);
    } else if IsGdToIe(rel.expr) {
      next, d := GdToIeIteration(job, i, buf);
    } else if rel.expr == RelaxTlsGdToLe {
      next, d := GdToLeIteration(job, i, buf);
    } else if rel.expr == RelaxTlsIeToLe {
      next, d := IeToLeIteration(job, i, buf);
    } else {
      next, d := PlainIteration(job, i, buf);
    }
  }

  /** The iteration at i applies relocation i as it is. */
  predicate IsPlain(job: Job, i: nat)
    requires i < |job.relocs| && job.relocs[i].sym != null
  {
    var rel := job.relocs[i];
    NeedsGotForMemtag(rel)
    || (!(rel.expr == GotPagePc && i + 1 < |job.relocs|) && !(rel.expr == PagePc && i + 1 < |job.relocs|)
        && !IsTlsRelax(rel.expr))
  }

  /** Relocation i has kind x, is not a tagged GOT reference, and it and
      the one after it lie inside n bytes. */
  predicate PairAt(job: Job, i: nat, n: nat, x: RelExpr) {
    i + 1 < |job.relocs| && Fits(job, n) && job.relocs[i].expr == x && job.relocs[i].sym != null
    && !NeedsGotForMemtag(job.relocs[i]) && Handled(job.relocs[i].rtype)
    && job.relocs[i].offset + PlaceSize(job.relocs[i].rtype) <= n
    && job.relocs[i + 1].offset + PlaceSize(job.relocs[i + 1].rtype) <= n
  }

  /** relocate(loc, rel, val) and `continue`. */
  method PlainIteration(job: Job, i: nat, buf: array<bv8>) returns (next: nat, d: seq<Diag>)
    requires i < |job.relocs| && Fits(job, buf.Length) && job.relocs[i].sym != null && IsPlain(job, i)
    modifies buf
    ensures next == i + 1
    ensures AllocFrom(job, i, old(buf[..])) == (AllocFrom(job, next, buf[..]).0, d + AllocFrom(job, next, buf[..]).1)
  {
    var rel := job.relocs[i];
    assert Ready(rel, buf.Length);
    ghost var s := buf[..];
    d := Relocate(job.e, buf, rel.offset, rel, job.vals[i]);
    next := i + 1;
    PlainStepIs(job, i, s, buf[..]);
  }

  /** The RE_AARCH64_GOT_PAGE_PC case: tryRelaxAdrpLdr on the pair at i and
      i + 1, and relocate when it declines. */
  method AdrpLdrIteration(relaxer: Relaxer, job: Job, i: nat, buf: array<bv8>) returns (next: nat, d: seq<Diag>)
    requires i + 1 < |job.relocs| && Fits(job, buf.Length) && Drives(relaxer, job)
    requires job.relocs[i].expr == GotPagePc && job.relocs[i].sym != null && !NeedsGotForMemtag(job.relocs[i])
    modifies buf
    ensures i < next <= |job.relocs|
    ensures AllocFrom(job, i, old(buf[..])) == (AllocFrom(job, next, buf[..]).0, d + AllocFrom(job, next, buf[..]).1)
  {
    var rel := job.relocs[i];
    assert Ready(rel, buf.Length) && Ready(job.relocs[i + 1], buf.Length);
    assert PairAt(job, i, buf.Length, GotPagePc);
    ghost var s := buf[..];
    var ok := relaxer.TryRelaxAdrpLdr(rel, job.relocs[i + 1], job.secAddr, buf);
    if ok {
      next, d := i + 2, [];
      AdrpLdrRelaxedIs(job, i, s, buf[..]);
      EmptyFirst(AllocFrom(job, next, buf[..]).1);
    } else {
      d := Relocate(job.e, buf, rel.offset, rel, job.vals[i]);
      next := i + 1;
      AdrpLdrDeclinedIs(job, i, s, buf[..]);
    }
  }

  /** The RE_AARCH64_PAGE_PC case: tryRelaxAdrpAdd on the pair at i and
      i + 1, and relocate when it declines. */
  method AdrpAddIteration(relaxer: Relaxer, job: Job, i: nat, buf: array<bv8>) returns (next: nat, d: seq<Diag>)
    requires i + 1 < |job.relocs| && Fits(job, buf.Length) && Drives(relaxer, job)
    requires job.relocs[i].expr == PagePc && job.relocs[i].sym != null && !NeedsGotForMemtag(job.relocs[i])
    modifies buf
    ensures i < next <= |job.relocs|
    ensures AllocFrom(job, i, old(buf[..])) == (AllocFrom(job, next, buf[..]).0, d + AllocFrom(job, next, buf[..]).1)
  {
    var rel := job.relocs[i];
    assert Ready(rel, buf.Length) && Ready(job.relocs[i + 1], buf.Length);
    assert PairAt(job, i, buf.Length, PagePc);
    ghost var s := buf[..];
    var ok := relaxer.TryRelaxAdrpAdd(rel, job.relocs[i + 1], job.secAddr, buf);
    if ok {
      next, d := i + 2, [];
      AdrpAddRelaxedIs(job, i, s, buf[..]);
      EmptyFirst(AllocFrom(job, next, buf[..]).1);
    } else {
      d := Relocate(job.e, buf, rel.offset, rel, job.vals[i]);
      next := i + 1;
      AdrpAddDeclinedIs(job, i, s, buf[..]);
    }
  }

  /** The relaxTlsGdToIe cases. */
  method GdToIeIteration(job: Job, i: nat, buf: array<bv8>) returns (next: nat, d: seq<Diag>)
    requires i < |job.relocs| && Fits(job, buf.Length) && IsGdToIe(job.relocs[i].expr)
    requires job.relocs[i].sym != null && !NeedsGotForMemtag(job.relocs[i])
    modifies buf
    ensures next == i + 1
    ensures AllocFrom(job, i, old(buf[..])) == (AllocFrom(job, next, buf[..]).0, d + AllocFrom(job, next, buf[..]).1)
  {
    var rel := job.relocs[i];
    assert Ready(rel, buf.Length);
    ghost var s := buf[..];
    d := Tls.RelaxTlsGdToIe(job.e, buf, rel.offset, rel, job.vals[i]);
    next := i + 1;
    GdToIeStepIs(job, i, s, buf[..]);
  }

  /** The R_RELAX_TLS_GD_TO_LE case. */
  method GdToLeIteration(job: Job, i: nat, buf: array<bv8>) returns (next: nat, d: seq<Diag>)
    requires i < |job.relocs| && Fits(job, buf.Length) && job.relocs[i].expr == RelaxTlsGdToLe
    requires job.relocs[i].sym != null && !NeedsGotForMemtag(job.relocs[i])
    modifies buf
    ensures next == i + 1
    ensures AllocFrom(job, i, old(buf[..])) == (AllocFrom(job, next, buf[..]).0, d + AllocFrom(job, next, buf[..]).1)
  {
    var rel := job.relocs[i];
    assert Ready(rel, buf.Length);
    ghost var s := buf[..];
    d := Tls.RelaxTlsGdToLe(buf, rel.offset, rel, job.vals[i]);
    next := i + 1;
    GdToLeStepIs(job, i, s, buf[..]);
  }

  /** The R_RELAX_TLS_IE_TO_LE case. */
  method IeToLeIteration(job: Job, i: nat, buf: array<bv8>) returns (next: nat, d: seq<Diag>)
    requires i < |job.relocs| && Fits(job, buf.Length) && job.relocs[i].expr == RelaxTlsIeToLe
    requires job.relocs[i].sym != null && !NeedsGotForMemtag(job.relocs[i])
    modifies buf
    ensures next == i + 1
    ensures AllocFrom(job, i, old(buf[..])) == (AllocFrom(job, next, buf[..]).0, d + AllocFrom(job, next, buf[..]).1)
  {
    var rel := job.relocs[i];
    assert Ready(rel, buf.Length);
    ghost var s := buf[..];
    d := Tls.RelaxTlsIeToLe(buf, rel.offset, rel, job.vals[i]);
    next := i + 1;
    IeToLeStepIs(job, i, s, buf[..]);
  }

  // One lemma per case of the loop body: what AllocFrom does at i, stated in
  // the terms the case's operation guarantees.

  lemma {:induction false} PlainStepIs(job: Job, i: nat, s: seq<bv8>, t: seq<bv8>)
    requires i < |job.relocs| && Fits(job, |s|) && job.relocs[i].sym != null && IsPlain(job, i)
    requires Handled(job.relocs[i].rtype) && job.relocs[i].offset + PlaceSize(job.relocs[i].rtype) <= |s|
    requires t == RelocateBytes(job.e, s, job.relocs[i].offset, job.relocs[i], job.vals[i])
    ensures |t| == |s|
    ensures AllocFrom(job, i, s)
            == (AllocFrom(job, i + 1, t).0, Checks(job.relocs[i].rtype, job.vals[i]) + AllocFrom(job, i + 1, t).1)
  {
    if !NeedsGotForMemtag(job.relocs[i]) {
      assert AllocAt(job, i, s) == Switch(job, i, s);
    }
    RelocatedIs(job, i, s, t);
  }

  lemma {:induction false} RelocatedIs(job: Job, i: nat, s: seq<bv8>, t: seq<bv8>)
    requires i < |job.relocs| && Fits(job, |s|)
    requires Handled(job.relocs[i].rtype) && job.relocs[i].offset + PlaceSize(job.relocs[i].rtype) <= |s|
    requires t == RelocateBytes(job.e, s, job.relocs[i].offset, job.relocs[i], job.vals[i])
    ensures |t| == |s|
    ensures Relocated(job, i, s)
            == (AllocFrom(job, i + 1, t).0, Checks(job.relocs[i].rtype, job.vals[i]) + AllocFrom(job, i + 1, t).1)
  {
  }

  lemma {:induction false} AdrpLdrStepIs(job: Job, i: nat, s: seq<bv8>)
    requires PairAt(job, i, |s|, GotPagePc)
    ensures AllocFrom(job, i, s)
            == match AdrpLdrResult(job.safe, job.relax, job.isPic, job.relocs[i], job.relocs[i + 1], job.secAddr, s)
               case Some(t) => AllocFrom(job, i + 2, t)
               case None => Relocated(job, i, s)
  {
    assert AllocAt(job, i, s) == Switch(job, i, s);
  }

  lemma {:induction false} AdrpAddStepIs(job: Job, i: nat, s: seq<bv8>)
    requires PairAt(job, i, |s|, PagePc)
    ensures AllocFrom(job, i, s)
            == match AdrpAddResult(job.relax, job.relocs[i], job.relocs[i + 1], job.secAddr, s)
               case Some(t) => AllocFrom(job, i + 2, t)
               case None => Relocated(job, i, s)
  {
    assert AllocAt(job, i, s) == Switch(job, i, s);
  }

  lemma {:induction false} GdToIeStepIs(job: Job, i: nat, s: seq<bv8>, t: seq<bv8>)
    requires i < |job.relocs| && Fits(job, |s|) && IsGdToIe(job.relocs[i].expr)
    requires job.relocs[i].sym != null && !NeedsGotForMemtag(job.relocs[i])
    requires IsTlsDescType(job.relocs[i].rtype) && job.relocs[i].offset + 4 <= |s|
    requires t == Store32le(s, job.relocs[i].offset, GdToIeWord(job.relocs[i].rtype, job.vals[i]))
    ensures |t| == |s|
    ensures AllocFrom(job, i, s)
            == (AllocFrom(job, i + 1, t).0, GdToIeDiags(job.relocs[i].rtype, job.vals[i]) + AllocFrom(job, i + 1, t).1)
  {
    GdToIeDispatch(job, i, s);
  }

  lemma {:induction false} GdToIeDispatch(job: Job, i: nat, s: seq<bv8>)
    requires i < |job.relocs| && Fits(job, |s|) && IsGdToIe(job.relocs[i].expr)
    requires job.relocs[i].sym != null && !NeedsGotForMemtag(job.relocs[i])
    ensures AllocFrom(job, i, s) == GdToIeStep(job, i, s)
  {
    SwitchTaken(job, i, s);
  }

  lemma {:induction false} GdToLeStepIs(job: Job, i: nat, s: seq<bv8>, t: seq<bv8>)
    requires i < |job.relocs| && Fits(job, |s|) && job.relocs[i].expr == RelaxTlsGdToLe
    requires job.relocs[i].sym != null && !NeedsGotForMemtag(job.relocs[i])
    requires IsTlsDescType(job.relocs[i].rtype) && job.relocs[i].offset + 4 <= |s|
    requires t == Store32le(s, job.relocs[i].offset, GdToLeWord(job.relocs[i].rtype, job.vals[i]))
    ensures |t| == |s|
    ensures AllocFrom(job, i, s)
            == (AllocFrom(job, i + 1, t).0, UIntCheck(job.relocs[i].rtype, job.vals[i], U32) + AllocFrom(job, i + 1, t).1)
  {
    GdToLeDispatch(job, i, s);
  }

  lemma {:induction false} GdToLeDispatch(job: Job, i: nat, s: seq<bv8>)
    requires i < |job.relocs| && Fits(job, |s|) && job.relocs[i].expr == RelaxTlsGdToLe
    requires job.relocs[i].sym != null && !NeedsGotForMemtag(job.relocs[i])
    ensures AllocFrom(job, i, s) == GdToLeStep(job, i, s)
  {
    SwitchTaken(job, i, s);
  }

  /** Past the memory-tagging check, AllocFrom is the switch. */
  lemma {:induction false} SwitchTaken(job: Job, i: nat, s: seq<bv8>)
    requires i < |job.relocs| && Fits(job, |s|)
    requires job.relocs[i].sym != null && !NeedsGotForMemtag(job.relocs[i])
    ensures AllocFrom(job, i, s) == Switch(job, i, s)
  {
  }

  lemma {:induction false} IeToLeStepIs(job: Job, i: nat, s: seq<bv8>, t: seq<bv8>)
    requires i < |job.relocs| && Fits(job, |s|) && job.relocs[i].expr == RelaxTlsIeToLe
    requires job.relocs[i].sym != null && !NeedsGotForMemtag(job.relocs[i])
    requires IsTlsIeType(job.relocs[i].rtype) && job.relocs[i].offset + 4 <= |s|
    requires t == Store32le(s, job.relocs[i].offset,
                            IeToLeWord(job.relocs[i].rtype, Load32le(s, job.relocs[i].offset), job.vals[i]))
    ensures |t| == |s|
    ensures AllocFrom(job, i, s)
            == (AllocFrom(job, i + 1, t).0, UIntCheck(job.relocs[i].rtype, job.vals[i], U32) + AllocFrom(job, i + 1, t).1)
  {
    IeToLeDispatch(job, i, s);
  }

  lemma {:induction false} IeToLeDispatch(job: Job, i: nat, s: seq<bv8>)
    requires i < |job.relocs| && Fits(job, |s|) && job.relocs[i].expr == RelaxTlsIeToLe
    requires job.relocs[i].sym != null && !NeedsGotForMemtag(job.relocs[i])
    ensures AllocFrom(job, i, s) == IeToLeStep(job, i, s)
  {
    SwitchTaken(job, i, s);
  }

  lemma {:induction false} AdrpLdrRelaxedIs(job: Job, i: nat, s: seq<bv8>, t: seq<bv8>)
    requires PairAt(job, i, |s|, GotPagePc)
    requires AdrpLdrResult(job.safe, job.relax, job.isPic, job.relocs[i], job.relocs[i + 1], job.secAddr, s).Some? && t == AdrpLdrResult(job.safe, job.relax, job.isPic, job.relocs[i], job.relocs[i + 1], job.secAddr, s).value
    ensures |t| == |s|
    ensures AllocFrom(job, i, s) == AllocFrom(job, i + 2, t)
  {
    AdrpLdrStepIs(job, i, s);
  }

  lemma {:induction false} AdrpLdrDeclinedIs(job: Job, i: nat, s: seq<bv8>, t: seq<bv8>)
    requires PairAt(job, i, |s|, GotPagePc)
    requires AdrpLdrResult(job.safe, job.relax, job.isPic, job.relocs[i], job.relocs[i + 1], job.secAddr, s).None?
    requires t == RelocateBytes(job.e, s, job.relocs[i].offset, job.relocs[i], job.vals[i])
    ensures |t| == |s|
    ensures AllocFrom(job, i, s)
            == (AllocFrom(job, i + 1, t).0, Checks(job.relocs[i].rtype, job.vals[i]) + AllocFrom(job, i + 1, t).1)
  {
    AdrpLdrStepIs(job, i, s);
    RelocatedIs(job, i, s, t);
  }

  lemma {:induction false} AdrpAddRelaxedIs(job: Job, i: nat, s: seq<bv8>, t: seq<bv8>)
    requires PairAt(job, i, |s|, PagePc)
    requires AdrpAddResult(job.relax, job.relocs[i], job.relocs[i + 1], job.secAddr, s).Some? && t == AdrpAddResult(job.relax, job.relocs[i], job.relocs[i + 1], job.secAddr, s).value
    ensures |t| == |s|
    ensures AllocFrom(job, i, s) == AllocFrom(job, i + 2, t)
  {
    AdrpAddStepIs(job, i, s);
  }

  lemma {:induction false} AdrpAddDeclinedIs(job: Job, i: nat, s: seq<bv8>, t: seq<bv8>)
    requires PairAt(job, i, |s|, PagePc)
    requires AdrpAddResult(job.relax, job.relocs[i], job.relocs[i + 1], job.secAddr, s).None?
    requires t == RelocateBytes(job.e, s, job.relocs[i].offset, job.relocs[i], job.vals[i])
    ensures |t| == |s|
    ensures AllocFrom(job, i, s)
            == (AllocFrom(job, i + 1, t).0, Checks(job.relocs[i].rtype, job.vals[i]) + AllocFrom(job, i + 1, t).1)
  {
    AdrpAddStepIs(job, i, s);
    RelocatedIs(job, i, s, t);
  }

  // ---- with relaxation off ---------------------------------------------------

  /** No relocation from index i on is one of the TLS relaxations. */
  predicate NoTlsRelaxFrom(relocs: seq<Relocation>, i: nat) {
    forall k :: i <= k < |relocs| ==> !IsTlsRelax(relocs[k].expr)
  }

  /** The reference loop: every relocation from i on applied as it is, in
      order, and the checks of each reported in that order. */
  function RelocateEachFrom(job: Job, i: nat, s: seq<bv8>): (r: (seq<bv8>, seq<Diag>))
    requires i <= |job.relocs| && Fits(job, |s|) && NoTlsRelaxFrom(job.relocs, i)
    ensures |r.0| == |s|
    decreases |job.relocs| - i
  {
    if i == |job.relocs| then (s, [])
    else
      var rel := job.relocs[i];
      assert Ready(rel, |s|);
      var rest := RelocateEachFrom(job, i + 1, RelocateBytes(job.e, s, rel.offset, rel, job.vals[i]));
      (rest.0, Checks(rel.rtype, job.vals[i]) + rest.1)
  }

  /** With both relaxer flags off, neither pair rewrite applies, so a
      relocation that is not a TLS relaxation is relocated as it is. */
  lemma {:induction false} NoRewriteAt(job: Job, i: nat, s: seq<bv8>)
    requires i < |job.relocs| && Fits(job, |s|) && !job.safe && !job.relax
    requires !IsTlsRelax(job.relocs[i].expr)
    ensures Handled(job.relocs[i].rtype)
    ensures AllocFrom(job, i, s) == Relocated(job, i, s)
  {
    var rel := job.relocs[i];
    assert Ready(rel, |s|);
    if !NeedsGotForMemtag(rel) {
      SwitchTaken(job, i, s);
      if rel.expr == GotPagePc && i + 1 < |job.relocs| {
        assert Ready(job.relocs[i + 1], |s|);
        assert AdrpLdrResult(job.safe, job.relax, job.isPic, rel, job.relocs[i + 1], job.secAddr, s).None?;
      } else if rel.expr == PagePc && i + 1 < |job.relocs| {
        assert Ready(job.relocs[i + 1], |s|);
        assert AdrpAddResult(job.relax, rel, job.relocs[i + 1], job.secAddr, s).None?;
      }
    }
  }

  /** With relaxation off (so safeToRelaxAdrpLdr is false too) and no TLS
      relaxation among the relocations, relocateAlloc is relocate applied to
      each relocation in turn. */
  lemma {:induction false} NoRelaxRelocatesEach(job: Job, i: nat, s: seq<bv8>)
    requires i <= |job.relocs| && Fits(job, |s|) && !job.safe && !job.relax
    requires NoTlsRelaxFrom(job.relocs, i)
    ensures AllocFrom(job, i, s) == RelocateEachFrom(job, i, s)
    decreases |job.relocs| - i
  {
    if i < |job.relocs| {
      var rel := job.relocs[i];
      assert Ready(rel, |s|);
      NoRewriteAt(job, i, s);
      var t := RelocateBytes(job.e, s, rel.offset, rel, job.vals[i]);
      RelocatedIs(job, i, s, t);
      NoRelaxRelocatesEach(job, i + 1, t);
    }
  }

  /** The same for the whole section: without --relax the section's bytes
      and diagnostics are those of the plain loop. */
  lemma NoRelaxAllocResult(e: Endian, isPic: bool, relocs: seq<Relocation>,
                           vals: seq<bv64>, secAddr: bv64, s: seq<bv8>)
    requires |vals| == |relocs| && AllReady(relocs, |s|) && NoTlsRelaxFrom(relocs, 0)
    ensures AllocResult(e, false, isPic, relocs, vals, secAddr, s)
            == RelocateEachFrom(Job(e, false, false, isPic, relocs, vals, secAddr), 0, s)
  {
    NoRelaxRelocatesEach(Job(e, false, false, isPic, relocs, vals, secAddr), 0, s);
  }
}
