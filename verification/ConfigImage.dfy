/** scripts/qemu-test/mkmeta.py: the printer of the structures ConfigDisk parses.
  * Every structure is described by its aligned 32-bit words. */
module ConfigImage {
  import opened ConfigScan
  import opened Config
  import opened ConfigDisk

  // ---------- packing words into a bytearray ----------

  predicate Aligned(o: nat) { o % 4 == 0 }

  /** The aligned words of s are those of f. */
  ghost predicate WordsAre(s: Bytes, f: Reader) {
    forall o: nat :: Aligned(o) && o + 4 <= |s| ==> Word(s, o) == f(o)
  }

  function Set(f: Reader, off: nat, v: nat): Reader {
    (o: nat) => if o == off then v else f(o)
  }

  /** Byte k of v, the lowest first. */
  function ByteOf(v: nat, k: nat): byte {
    if k == 0 then v % 0x100 else ByteOf(v / 0x100, k - 1)
  }

  lemma FourBytes(v: nat)
    requires v < 0x1_0000_0000
    ensures v == ByteOf(v, 0) as int + 0x100 * (ByteOf(v, 1) as int) + 0x1_0000 * (ByteOf(v, 2) as int)
      + 0x100_0000 * (ByteOf(v, 3) as int)
  {
    var a := v / 0x100;
    var b := a / 0x100;
    var c := b / 0x100;
    assert ByteOf(v, 1) == ByteOf(a, 0) && ByteOf(v, 2) == ByteOf(a, 1) == ByteOf(b, 0);
    assert ByteOf(v, 3) == ByteOf(a, 2) == ByteOf(b, 1) == ByteOf(c, 0);
  }

  /** s with the four bytes of v at off. */
  function Packed(s: Bytes, off: nat, v: nat): (r: Bytes)
    requires off + 4 <= |s| && v < 0x1_0000_0000
    ensures |r| == |s|
  {
    s[off := ByteOf(v, 0)][off + 1 := ByteOf(v, 1)][off + 2 := ByteOf(v, 2)][off + 3 := ByteOf(v, 3)]
  }

  lemma PackedWord(s: Bytes, off: nat, v: nat)
    requires off + 4 <= |s| && v < 0x1_0000_0000
    ensures Word(Packed(s, off, v), off) == v
  {
    FourBytes(v);
  }

  lemma PackedElsewhere(s: Bytes, off: nat, v: nat, o: nat)
    requires off + 4 <= |s| && v < 0x1_0000_0000 && Aligned(off) && Aligned(o) && o != off && o + 4 <= |s|
    ensures Word(Packed(s, off, v), o) == Word(s, o)
  {
    assert o + 4 <= off || off + 4 <= o;
  }

  lemma PackedWords(s: Bytes, off: nat, v: nat, f: Reader)
    requires WordsAre(s, f) && off + 4 <= |s| && v < 0x1_0000_0000 && Aligned(off)
    ensures WordsAre(Packed(s, off, v), Set(f, off, v))
  {
    forall o: nat | Aligned(o) && o + 4 <= |s| ensures Word(Packed(s, off, v), o) == Set(f, off, v)(o) {
      if o == off { PackedWord(s, off, v); } else { PackedElsewhere(s, off, v, o); }
    }
  }

  /** struct.pack_into("<I", b, off, v). */
  method Pack32(b: array<byte>, off: nat, v: nat, ghost f: Reader)
    requires off + 4 <= b.Length && v < 0x1_0000_0000 && Aligned(off) && WordsAre(b[..], f)
    modifies b
    ensures WordsAre(b[..], Set(f, off, v))
  {
    PackedWords(b[..], off, v, f);
    ghost var s := b[..];
    b[off] := ByteOf(v, 0);
    b[off + 1] := ByteOf(v, 1);
    b[off + 2] := ByteOf(v, 2);
    b[off + 3] := ByteOf(v, 3);
    assert b[..] == Packed(s, off, v);
  }

  predicate Fits(v: U64) {
    v.lo < 0x1_0000_0000 && v.hi < 0x1_0000_0000
  }

  function Set64(f: Reader, off: nat, v: U64): Reader {
    Set(Set(f, off, v.lo), off + 4, v.hi)
  }

  /** struct.pack_into("<Q", b, off, v). */
  method Pack64(b: array<byte>, off: nat, v: U64, ghost f: Reader)
    requires off + 8 <= b.Length && Fits(v) && Aligned(off) && WordsAre(b[..], f)
    modifies b
    ensures WordsAre(b[..], Set64(f, off, v))
  {
    Pack32(b, off, v.lo, f);
    Pack32(b, off + 4, v.hi, Set(f, off, v.lo));
  }

  /** bytearray(size). */
  method Zeroed(size: nat) returns (b: array<byte>)
    ensures fresh(b) && b.Length == size && WordsAre(b[..], _ => 0)
  {
    b := new byte[size](_ => 0);
  }

  lemma SameWords(s: Bytes, f: Reader, g: Reader)
    requires WordsAre(s, f) && forall o: nat :: Aligned(o) && o + 4 <= |s| ==> f(o) == g(o)
    ensures WordsAre(s, g)
  {
  }

  // ---------- records ----------

  datatype Elem = Elem(id: U64, allocOffset: U64, allocSize: U64, userOffset: U64, userSize: U64)

  datatype Rec = Rec(devtype: nat, first: nat, second: nat, capacity: U64, chunkIndex: nat, elems: seq<Elem>)
  {
    function Size(): nat { 0x130 + |elems| * 64 }
  }

  /** The word of element e at offset k of its 64 bytes. */
  function ElemWord(e: Elem, k: nat): nat {
    if k == 0x00 then e.id.lo else if k == 0x04 then e.id.hi
    else if k == 0x10 then e.allocOffset.lo else if k == 0x14 then e.allocOffset.hi
    else if k == 0x18 then e.allocSize.lo else if k == 0x1C then e.allocSize.hi
    else if k == 0x20 then e.userOffset.lo else if k == 0x24 then e.userOffset.hi
    else if k == 0x28 then e.userSize.lo else if k == 0x2C then e.userSize.hi
    else 0
  }

  /** The word of a record's fixed part. */
  function FixedWord(r: Rec, o: nat): nat {
    if o == 0x00 then 0x25BD
    else if o == 0x04 then 0x130
    else if o == 0x0C then r.devtype
    else if o == 0x50 then r.capacity.lo else if o == 0x54 then r.capacity.hi
    else if o == 0x68 then |r.elems| else if o == 0x6C then r.first else if o == 0x70 then r.second
    else if o == 0x90 then r.Size()
    else if o == 0x110 then r.chunkIndex
    else 0
  }

  /** The word of a record with its first n elements. */
  function RecWord(r: Rec, n: nat, o: nat): nat
    requires n <= |r.elems|
  {
    if o < 0x130 then FixedWord(r, o)
    else if (o - 0x130) / 64 < n then ElemWord(r.elems[(o - 0x130) / 64], (o - 0x130) % 64)
    else 0
  }

  function RecWords(r: Rec, n: nat): Reader
    requires n <= |r.elems|
  {
    (o: nat) => RecWord(r, n, o)
  }

  predicate ElemFits(e: Elem) {
    Fits(e.id) && Fits(e.allocOffset) && Fits(e.allocSize) && Fits(e.userOffset) && Fits(e.userSize)
  }

  predicate RecFits(r: Rec) {
    && r.devtype < 0x1_0000_0000 && r.first < 0x1_0000_0000 && r.second < 0x1_0000_0000
    && Fits(r.capacity) && r.chunkIndex < 0x1_0000_0000 && r.Size() < 0x1_0000_0000
    && forall j :: 0 <= j < |r.elems| ==> ElemFits(r.elems[j])
  }

  function WithElem(f: Reader, at: nat, e: Elem): Reader {
    (o: nat) => if at <= o < at + 64 then ElemWord(e, o - at) else f(o)
  }

  /** The five fields of one element; the rest of it stays zero. */
  method PackElem(b: array<byte>, at: nat, e: Elem, ghost f: Reader)
    requires at + 64 <= b.Length && ElemFits(e) && Aligned(at) && WordsAre(b[..], f)
    requires forall o: nat :: at <= o < at + 64 ==> f(o) == 0
    modifies b
    ensures WordsAre(b[..], WithElem(f, at, e))
  {
    Pack64(b, at, e.id, f);
    ghost var f1 := Set64(f, at, e.id);
    Pack64(b, at + 0x10, e.allocOffset, f1);
    ghost var f2 := Set64(f1, at + 0x10, e.allocOffset);
    Pack64(b, at + 0x18, e.allocSize, f2);
    ghost var f3 := Set64(f2, at + 0x18, e.allocSize);
    Pack64(b, at + 0x20, e.userOffset, f3);
    ghost var f4 := Set64(f3, at + 0x20, e.userOffset);
    Pack64(b, at + 0x28, e.userSize, f4);
    ghost var f5 := Set64(f4, at + 0x28, e.userSize);
    forall o: nat | Aligned(o) ensures f5(o) == WithElem(f, at, e)(o) {
      FiveFields(f, at, e, o);
    }
    SameWords(b[..], f5, WithElem(f, at, e));
  }

  lemma FiveFields(f: Reader, at: nat, e: Elem, o: nat)
    requires forall k: nat :: at <= k < at + 64 ==> f(k) == 0
    ensures Set64(Set64(Set64(Set64(Set64(f, at, e.id), at + 0x10, e.allocOffset), at + 0x18, e.allocSize),
                        at + 0x20, e.userOffset), at + 0x28, e.userSize)(o) == WithElem(f, at, e)(o)
  {
    if at <= o < at + 64 { assert f(o) == 0; }
    assert Set64(f, at, e.id)(o) == if o == at then e.id.lo else if o == at + 4 then e.id.hi else f(o);
  }

  /** The fixed part of build_raw_disk_ld and build_ld_record. */
  method PackFixed(b: array<byte>, r: Rec)
    requires b.Length == r.Size() && RecFits(r) && WordsAre(b[..], _ => 0)
    modifies b
    ensures WordsAre(b[..], RecWords(r, 0))
  {
    ghost var f0: Reader := _ => 0;
    Pack32(b, 0x00, 0x25BD, f0);
    ghost var f1 := Set(f0, 0x00, 0x25BD);
    Pack32(b, 0x04, 0x130, f1);
    ghost var f2 := Set(f1, 0x04, 0x130);
    Pack32(b, 0x0C, r.devtype, f2);
    ghost var f3 := Set(f2, 0x0C, r.devtype);
    Pack64(b, 0x50, r.capacity, f3);
    ghost var f4 := Set64(f3, 0x50, r.capacity);
    Pack32(b, 0x68, |r.elems|, f4);
    ghost var f5 := Set(f4, 0x68, |r.elems|);
    Pack32(b, 0x6C, r.first, f5);
    ghost var f6 := Set(f5, 0x6C, r.first);
    Pack32(b, 0x70, r.second, f6);
    ghost var f7 := Set(f6, 0x70, r.second);
    Pack32(b, 0x90, r.Size(), f7);
    ghost var f8 := Set(f7, 0x90, r.Size());
    Pack32(b, 0x110, r.chunkIndex, f8);
    ghost var f9 := Set(f8, 0x110, r.chunkIndex);
    SameWords(b[..], f9, RecWords(r, 0));
  }

  /** A whole record. */
  method BuildRecord(r: Rec) returns (b: array<byte>)
    requires RecFits(r)
    ensures fresh(b) && b.Length == r.Size() && WordsAre(b[..], RecWords(r, |r.elems|))
  {
    b := Zeroed(r.Size());
    PackFixed(b, r);
    for pos := 0 to |r.elems|
      invariant b.Length == r.Size() && WordsAre(b[..], RecWords(r, pos))
    {
      ElemIsZero(r, pos);
      PackElem(b, 0x130 + pos * 64, r.elems[pos], RecWords(r, pos));
      NextWords(b[..], r, pos);
    }
  }

  lemma ElemIsZero(r: Rec, pos: nat)
    requires pos < |r.elems|
    ensures forall o: nat :: 0x130 + pos * 64 <= o < 0x130 + pos * 64 + 64 ==> RecWords(r, pos)(o) == 0
  {
  }

  lemma NextWords(s: Bytes, r: Rec, pos: nat)
    requires pos < |r.elems| && WordsAre(s, WithElem(RecWords(r, pos), 0x130 + pos * 64, r.elems[pos]))
    ensures WordsAre(s, RecWords(r, pos + 1))
  {
    forall o: nat | Aligned(o) && o + 4 <= |s| ensures Word(s, o) == RecWords(r, pos + 1)(o) {
      NextElem(r, pos, o);
    }
  }

  lemma NextElem(r: Rec, pos: nat, o: nat)
    requires pos < |r.elems|
    ensures RecWord(r, pos + 1, o)
         == if 0x130 + pos * 64 <= o < 0x130 + pos * 64 + 64 then ElemWord(r.elems[pos], o - (0x130 + pos * 64))
            else RecWord(r, pos, o)
  {
    if o >= 0x130 {
      var k := (o - 0x130) / 64;
      assert o - 0x130 == k * 64 + (o - 0x130) % 64;
    }
  }
}
