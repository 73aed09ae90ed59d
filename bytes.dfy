// Reading and writing 16-, 32- and 64-bit values in a section's byte buffer.
// Data relocations use the output's byte order (read16/write16 and friends);
// instruction words are always little-endian (read32le/write32le).

module Bytes {

  /** The output file's byte order. */
  datatype Endian = Little | Big

  function Byte16(w: bv16, k: bv5): (b: bv8)
    requires k < 16
    ensures b as bv16 == (w >> k) & 0xFF
  {
    ((w >> k) & 0xFF) as bv8
  }

  function Byte32(w: bv32, k: bv6): (b: bv8)
    requires k < 32
    ensures b as bv32 == (w >> k) & 0xFF
  {
    ((w >> k) & 0xFF) as bv8
  }

  function Byte64(w: bv64, k: bv7): (b: bv8)
    requires k < 64
    ensures b as bv64 == (w >> k) & 0xFF
  {
    ((w >> k) & 0xFF) as bv8
  }

  function Decode16(e: Endian, b: seq<bv8>): bv16
    requires |b| == 2
  {
    match e
    case Little => (b[0] as bv16) | (b[1] as bv16 << 8)
    case Big => (b[1] as bv16) | (b[0] as bv16 << 8)
  }

  function Decode32(e: Endian, b: seq<bv8>): bv32
    requires |b| == 4
  {
    match e
    case Little => (b[0] as bv32) | (b[1] as bv32 << 8) | (b[2] as bv32 << 16) | (b[3] as bv32 << 24)
    case Big => (b[3] as bv32) | (b[2] as bv32 << 8) | (b[1] as bv32 << 16) | (b[0] as bv32 << 24)
  }

  function Decode64(e: Endian, b: seq<bv8>): bv64
    requires |b| == 8
  {
    match e
    case Little =>
      (b[0] as bv64) | (b[1] as bv64 << 8) | (b[2] as bv64 << 16) | (b[3] as bv64 << 24)
      | (b[4] as bv64 << 32) | (b[5] as bv64 << 40) | (b[6] as bv64 << 48) | (b[7] as bv64 << 56)
    case Big =>
      (b[7] as bv64) | (b[6] as bv64 << 8) | (b[5] as bv64 << 16) | (b[4] as bv64 << 24)
      | (b[3] as bv64 << 32) | (b[2] as bv64 << 40) | (b[1] as bv64 << 48) | (b[0] as bv64 << 56)
  }

  /** The two bytes of a 16-bit value, in the given order. */
  function Encode16(e: Endian, w: bv16): (b: seq<bv8>)
    ensures |b| == 2
    ensures Decode16(e, b) == w
  {
    match e
    case Little => Decode16Little(w); [Byte16(w, 0), Byte16(w, 8)]
    case Big => Decode16Big(w); [Byte16(w, 8), Byte16(w, 0)]
  }

  lemma Decode16Little(w: bv16)
    ensures Decode16(Little, [Byte16(w, 0), Byte16(w, 8)]) == w
  {
  }

  lemma Decode16Big(w: bv16)
    ensures Decode16(Big, [Byte16(w, 8), Byte16(w, 0)]) == w
  {
  }

  /** The four bytes of a 32-bit value, in the given order. */
  function Encode32(e: Endian, w: bv32): (b: seq<bv8>)
    ensures |b| == 4
    ensures Decode32(e, b) == w
  {
    match e
    case Little => Decode32Little(w); [Byte32(w, 0), Byte32(w, 8), Byte32(w, 16), Byte32(w, 24)]
    case Big => Decode32Big(w); [Byte32(w, 24), Byte32(w, 16), Byte32(w, 8), Byte32(w, 0)]
  }

  lemma Decode32Little(w: bv32)
    ensures Decode32(Little, [Byte32(w, 0), Byte32(w, 8), Byte32(w, 16), Byte32(w, 24)]) == w
  {
  }

  lemma Decode32Big(w: bv32)
    ensures Decode32(Big, [Byte32(w, 24), Byte32(w, 16), Byte32(w, 8), Byte32(w, 0)]) == w
  {
  }

  /** The eight bytes of a 64-bit value, in the given order. */
  function Encode64(e: Endian, w: bv64): (b: seq<bv8>)
    ensures |b| == 8
    ensures Decode64(e, b) == w
  {
    match e
    case Little =>
      Decode64Little(w);
      [Byte64(w, 0), Byte64(w, 8), Byte64(w, 16), Byte64(w, 24), Byte64(w, 32), Byte64(w, 40), Byte64(w, 48), Byte64(w, 56)]
    case Big =>
      Decode64Big(w);
      [Byte64(w, 56), Byte64(w, 48), Byte64(w, 40), Byte64(w, 32), Byte64(w, 24), Byte64(w, 16), Byte64(w, 8), Byte64(w, 0)]
  }

  lemma Decode64Little(w: bv64)
    ensures Decode64(Little, [Byte64(w, 0), Byte64(w, 8), Byte64(w, 16), Byte64(w, 24), Byte64(w, 32), Byte64(w, 40), Byte64(w, 48), Byte64(w, 56)]) == w
  {
  }

  lemma Decode64Big(w: bv64)
    ensures Decode64(Big, [Byte64(w, 56), Byte64(w, 48), Byte64(w, 40), Byte64(w, 32), Byte64(w, 24), Byte64(w, 16), Byte64(w, 8), Byte64(w, 0)]) == w
  {
  }

  /** `s` with the bytes at o..o+|b| replaced by `b` (a memcpy into the buffer). */
  function Splice(s: seq<bv8>, o: nat, b: seq<bv8>): (r: seq<bv8>)
    requires o + |b| <= |s|
    ensures |r| == |s|
    ensures r[o..o + |b|] == b
    ensures forall i :: 0 <= i < |s| && !(o <= i < o + |b|) ==> r[i] == s[i]
  {
    s[..o] + b + s[o + |b|..]
  }

  function Load16(e: Endian, s: seq<bv8>, o: nat): bv16
    requires o + 2 <= |s|
  {
    Decode16(e, s[o..o + 2])
  }

  function Load32(e: Endian, s: seq<bv8>, o: nat): bv32
    requires o + 4 <= |s|
  {
    Decode32(e, s[o..o + 4])
  }

  function Load64(e: Endian, s: seq<bv8>, o: nat): bv64
    requires o + 8 <= |s|
  {
    Decode64(e, s[o..o + 8])
  }

  /** read32le: an instruction word. */
  function Load32le(s: seq<bv8>, o: nat): bv32
    requires o + 4 <= |s|
  {
    Load32(Little, s, o)
  }

  /** write16: only the two bytes at o change, and they read back as w. */
  function Store16(e: Endian, s: seq<bv8>, o: nat, w: bv16): (r: seq<bv8>)
    requires o + 2 <= |s|
    ensures |r| == |s|
    ensures forall i :: 0 <= i < |s| && !(o <= i < o + 2) ==> r[i] == s[i]
    ensures Load16(e, r, o) == w
  {
    Splice(s, o, Encode16(e, w))
  }

  /** write32: only the four bytes at o change, and they read back as w. */
  function Store32(e: Endian, s: seq<bv8>, o: nat, w: bv32): (r: seq<bv8>)
    requires o + 4 <= |s|
    ensures |r| == |s|
    ensures forall i :: 0 <= i < |s| && !(o <= i < o + 4) ==> r[i] == s[i]
    ensures Load32(e, r, o) == w
  {
    Splice(s, o, Encode32(e, w))
  }

  /** write64: only the eight bytes at o change, and they read back as w. */
  function Store64(e: Endian, s: seq<bv8>, o: nat, w: bv64): (r: seq<bv8>)
    requires o + 8 <= |s|
    ensures |r| == |s|
    ensures forall i :: 0 <= i < |s| && !(o <= i < o + 8) ==> r[i] == s[i]
    ensures Load64(e, r, o) == w
  {
    Splice(s, o, Encode64(e, w))
  }

  /** write32le: an instruction word. */
  function Store32le(s: seq<bv8>, o: nat, w: bv32): (r: seq<bv8>)
    requires o + 4 <= |s|
    ensures |r| == |s|
    ensures forall i :: 0 <= i < |s| && !(o <= i < o + 4) ==> r[i] == s[i]
    ensures Load32le(r, o) == w
  {
    Store32(Little, s, o, w)
  }

  /** A store leaves a word that does not overlap it readable as before. */
  lemma LoadStoreDisjoint(s: seq<bv8>, o: nat, w: bv32, p: nat)
    requires o + 4 <= |s| && p + 4 <= |s|
    requires o + 4 <= p || p + 4 <= o
    ensures Load32le(Store32le(s, o, w), p) == Load32le(s, p)
  {
    assert Store32le(s, o, w)[p..p + 4] == s[p..p + 4];
  }

  /** A second store to the same word replaces the first. */
  lemma StoreStore32le(s: seq<bv8>, o: nat, a: bv32, b: bv32)
    requires o + 4 <= |s|
    ensures Store32le(Store32le(s, o, a), o, b) == Store32le(s, o, b)
  {
    var r1 := Store32le(Store32le(s, o, a), o, b);
    var r2 := Store32le(s, o, b);
    assert r1[o..o + 4] == Encode32(Little, b) == r2[o..o + 4];
    assert forall i :: 0 <= i < |s| ==> r1[i] == r2[i] by {
      forall i | 0 <= i < |s|
        ensures r1[i] == r2[i]
      {
        if o <= i < o + 4 {
          assert r1[i] == r1[o..o + 4][i - o];
          assert r2[i] == r2[o..o + 4][i - o];
        }
      }
    }
  }

  /** Stores to words that do not overlap commute. */
  lemma StoreStoreDisjoint32le(s: seq<bv8>, o: nat, a: bv32, p: nat, b: bv32)
    requires o + 4 <= |s| && p + 4 <= |s|
    requires o + 4 <= p || p + 4 <= o
    ensures Store32le(Store32le(s, o, a), p, b) == Store32le(Store32le(s, p, b), o, a)
  {
    var r1 := Store32le(Store32le(s, o, a), p, b);
    var r2 := Store32le(Store32le(s, p, b), o, a);
    forall i | 0 <= i < |s|
      ensures r1[i] == r2[i]
    {
      if o <= i < o + 4 {
        assert r1[i] == Store32le(s, o, a)[o..o + 4][i - o];
        assert r2[i] == r2[o..o + 4][i - o];
      } else if p <= i < p + 4 {
        assert r1[i] == r1[p..p + 4][i - p];
        assert r2[i] == Store32le(s, p, b)[p..p + 4][i - p];
      }
    }
  }

  /** memcpy(buf + o, b, |b|). */
  method WriteBytes(buf: array<bv8>, o: nat, b: seq<bv8>)
    requires o + |b| <= buf.Length
    modifies buf
    ensures buf[..] == Splice(old(buf[..]), o, b)
  {
    ghost var s := buf[..];
    var k := 0;
    while k < |b|
      invariant 0 <= k <= |b|
      invariant forall i :: 0 <= i < buf.Length && !(o <= i < o + k) ==> buf[i] == s[i]
      invariant forall i :: 0 <= i < k ==> buf[o + i] == b[i]
    {
      buf[o + k] := b[k];
      k := k + 1;
    }
    assert buf[..] == Splice(s, o, b);
  }

  method Write16(e: Endian, buf: array<bv8>, o: nat, w: bv16)
    requires o + 2 <= buf.Length
    modifies buf
    ensures buf[..] == Store16(e, old(buf[..]), o, w)
  {
    WriteBytes(buf, o, Encode16(e, w));
  }

  method Write32(e: Endian, buf: array<bv8>, o: nat, w: bv32)
    requires o + 4 <= buf.Length
    modifies buf
    ensures buf[..] == Store32(e, old(buf[..]), o, w)
  {
    WriteBytes(buf, o, Encode32(e, w));
  }

  method Write64(e: Endian, buf: array<bv8>, o: nat, w: bv64)
    requires o + 8 <= buf.Length
    modifies buf
    ensures buf[..] == Store64(e, old(buf[..]), o, w)
  {
    WriteBytes(buf, o, Encode64(e, w));
  }

  method Write32le(buf: array<bv8>, o: nat, w: bv32)
    requires o + 4 <= buf.Length
    modifies buf
    ensures buf[..] == Store32le(old(buf[..]), o, w)
  {
    WriteBytes(buf, o, Encode32(Little, w));
  }
}
