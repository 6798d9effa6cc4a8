/** Round trip: what mkmeta.py prints, the driver's parser reads back. */
module ConfigRound {
  import opened Common
  import opened ConfigScan
  import opened Config
  import opened ConfigDisk
  import opened ConfigImage

  // ---------- one record ----------

  function IndexFrom(elems: seq<Elem>, id: U64, j: nat): Option<nat>
    decreases |elems| - j
  {
    if j >= |elems| then None
    else if elems[j].id == id then Some(j)
    else IndexFrom(elems, id, j + 1)
  }

  /** What the parser should make of a record. */
  function Meaning(r: Rec, id: U64): Option<Ld> {
    MeaningAt(r, IndexFrom(r.elems, id, 0))
  }

  function MeaningAt(r: Rec, j: Option<nat>): Option<Ld> {
    if j.None? || |r.elems| < 2 || |r.elems| > 8 || j.value >= |r.elems| then None
    else Some(LdFor(r, j.value))
  }

  function LdFor(r: Rec, j: nat): Ld
    requires j < |r.elems|
  {
    var e := r.elems[j];
    Ld(r.devtype, r.first, r.second, |r.elems|, 0, r.chunkIndex, r.capacity, j, e.allocOffset, e.allocSize,
        e.userOffset, e.userSize)
  }

  /** rd shows record r. */
  ghost predicate Shows(rd: Reader, r: Rec) {
    forall o: nat :: Aligned(o) && o < r.Size() ==> rd(o) == RecWord(r, |r.elems|, o)
  }

  lemma ElemShown(rd: Reader, r: Rec, j: nat, k: nat, o: nat)
    requires Shows(rd, r) && j < |r.elems| && k < 64 && Aligned(k) && o == 0x130 + j * 64 + k
    ensures rd(o) == ElemWord(r.elems[j], k)
  {
    ElemWordAt(r, j, k, o);
    assert Aligned(o);
  }

  lemma ElemWordAt(r: Rec, j: nat, k: nat, o: nat)
    requires j < |r.elems| && k < 64 && o == 0x130 + j * 64 + k
    ensures o < r.Size() && RecWord(r, |r.elems|, o) == ElemWord(r.elems[j], k)
  {
    assert (o - 0x130) / 64 == j && (o - 0x130) % 64 == k;
  }

  lemma IdShown(rd: Reader, r: Rec, j: nat)
    requires Shows(rd, r) && j < |r.elems|
    ensures Le64(rd, 0x130 + j * 64) == r.elems[j].id
  {
    ElemShown(rd, r, j, 0, 0x130 + j * 64 + 0);
    ElemShown(rd, r, j, 4, 0x130 + j * 64 + 4);
  }

  lemma {:induction false} FindShown(rd: Reader, r: Rec, id: U64, j: nat)
    requires Shows(rd, r)
    ensures FindElement(rd, 0x130, |r.elems|, id, j) == IndexFrom(r.elems, id, j)
    decreases |r.elems| - j
  {
    if j < |r.elems| {
      IdShown(rd, r, j);
      FindShown(rd, r, id, j + 1);
    }
  }

  /** A 64-bit field of an element. */
  lemma WideShown(rd: Reader, r: Rec, j: nat, k: nat, o: nat)
    requires Shows(rd, r) && j < |r.elems| && k < 60 && Aligned(k) && o == 0x130 + j * 64 + k
    ensures Le64(rd, o) == U64(ElemWord(r.elems[j], k), ElemWord(r.elems[j], k + 4))
  {
    assert Aligned(k + 4);
    ElemShown(rd, r, j, k, o);
    ElemShown(rd, r, j, k + 4, o + 4);
  }

  lemma ElemFieldsShown(rd: Reader, r: Rec, j: nat, at: nat)
    requires Shows(rd, r) && j < |r.elems| && at == 0x130 + j * 64
    ensures var e := r.elems[j];
      Le64(rd, at + 0x10) == e.allocOffset && Le64(rd, at + 0x18) == e.allocSize
      && Le64(rd, at + 0x20) == e.userOffset && Le64(rd, at + 0x28) == e.userSize
  {
    WideShown(rd, r, j, 0x10, at + 0x10);
    WideShown(rd, r, j, 0x18, at + 0x18);
    WideShown(rd, r, j, 0x20, at + 0x20);
    WideShown(rd, r, j, 0x28, at + 0x28);
  }

  lemma FieldsShown(rd: Reader, r: Rec, j: nat, at: nat)
    requires Shows(rd, r) && j < |r.elems| && at == 0x130 + j * 64
    ensures Fields(rd, at, j) == LdFor(r, j)
  {
    FixedShown(rd, r);
    ElemFieldsShown(rd, r, j, at);
  }

  lemma ElementsShown(rd: Reader, r: Rec, id: U64, j: Option<nat>)
    requires |r.elems| <= 8
    requires j.Some? ==> j.value < |r.elems| && Fields(rd, 0x130 + j.value * 64, j.value) == LdFor(r, j.value)
    ensures ParseElements(rd, 0x130, |r.elems|, id, j) == MeaningAt(r, j)
  {
  }

  lemma FixedShown(rd: Reader, r: Rec)
    requires Shows(rd, r)
    ensures rd(0) == 0x25BD && rd(0x04) == 0x130 && rd(0x0C) == r.devtype && rd(0xAC) == 0
    ensures rd(0x50) == r.capacity.lo && rd(0x54) == r.capacity.hi && rd(0x68) == |r.elems|
    ensures rd(0x6C) == r.first && rd(0x70) == r.second && rd(0x110) == r.chunkIndex
  {
    assert Aligned(0) && Aligned(0x04) && Aligned(0x0C) && Aligned(0xAC) && Aligned(0x50) && Aligned(0x54);
    assert Aligned(0x68) && Aligned(0x6C) && Aligned(0x70) && Aligned(0x110);
  }

  lemma ParseShown(rd: Reader, r: Rec, room: nat, id: U64)
    requires Shows(rd, r) && 1 <= |r.elems| <= 8 && room >= r.Size()
    ensures Parse(rd, room, id) == Meaning(r, id)
  {
    FixedShown(rd, r);
    TaggedShown(rd, r, room, id);
  }

  lemma TaggedShown(rd: Reader, r: Rec, room: nat, id: U64)
    requires Shows(rd, r) && 1 <= |r.elems| <= 8 && room >= r.Size()
    ensures ParseTagged(rd, room, id, |r.elems|, 0x130) == Meaning(r, id)
  {
    FindShown(rd, r, id, 0);
    IndexInRange(r.elems, id, 0);
    var j := IndexFrom(r.elems, id, 0);
    if j.Some? { FieldsShown(rd, r, j.value, 0x130 + j.value * 64); }
    ElementsShown(rd, r, id, j);
  }

  lemma {:induction false} IndexInRange(elems: seq<Elem>, id: U64, j: nat)
    ensures var p := IndexFrom(elems, id, j); p.Some? ==> j <= p.value < |elems|
    decreases |elems| - j
  {
    if j < |elems| && elems[j].id != id { IndexInRange(elems, id, j + 1); }
  }

  // ---------- a generation ----------

  /** The word of a generation of header, raw record and array record. */
  function GenWord(ts: U64, raw: Rec, arr: Rec, o: nat): nat {
    if o < 0x200 then (if o == 0 then ts.lo else if o == 4 then ts.hi else 0)
    else if o < 0x200 + raw.Size() then RecWord(raw, |raw.elems|, o - 0x200)
    else if o < 0x200 + raw.Size() + arr.Size() then RecWord(arr, |arr.elems|, o - 0x200 - raw.Size())
    else 0
  }

  function GenWords(ts: U64, raw: Rec, arr: Rec): Reader {
    (o: nat) => GenWord(ts, raw, arr, o)
  }

  /** No field of a record can be taken for a tag. */
  predicate NoTag(r: Rec) {
    && r.devtype != 0x25BD && r.first != 0x25BD && r.second != 0x25BD && r.chunkIndex != 0x25BD
    && r.capacity.lo != 0x25BD && r.capacity.hi != 0x25BD && |r.elems| <= 8
    && forall j :: 0 <= j < |r.elems| ==> NoTagElem(r.elems[j])
  }

  predicate NoTagElem(e: Elem) {
    forall k: nat :: k < 64 ==> ElemWord(e, k) != 0x25BD
  }

  lemma OneTag(r: Rec, o: nat)
    requires NoTag(r) && 0 < o < r.Size()
    ensures RecWord(r, |r.elems|, o) != 0x25BD
  {
    if o >= 0x130 {
      var j := (o - 0x130) / 64;
      if j < |r.elems| { assert NoTagElem(r.elems[j]); }
    }
  }

  /** In the generation the tag stands at the two records and nowhere else. */
  lemma TagsAre(ts: U64, raw: Rec, arr: Rec, o: nat)
    requires NoTag(raw) && NoTag(arr) && o >= 0x200
    ensures GenWord(ts, raw, arr, o) == 0x25BD <==> o == 0x200 || o == 0x200 + raw.Size()
  {
    if 0x200 < o < 0x200 + raw.Size() {
      OneTag(raw, o - 0x200);
    } else if 0x200 + raw.Size() < o < 0x200 + raw.Size() + arr.Size() {
      OneTag(arr, o - 0x200 - raw.Size());
    }
  }

  /** The generation's bytes, cut from a larger sector-aligned area. */
  ghost predicate Prints(gen: Bytes, ts: U64, raw: Rec, arr: Rec) {
    && WordsAre(gen, GenWords(ts, raw, arr)) && |gen| % 512 == 0
    && 0x200 + raw.Size() + arr.Size() <= |gen| <= 7168
  }

  lemma RawShown(gen: Bytes, ts: U64, raw: Rec, arr: Rec)
    requires Prints(gen, ts, raw, arr)
    ensures Shows(At(gen, 0x200), raw)
  {
    forall o: nat | Aligned(o) && o < raw.Size() ensures At(gen, 0x200)(o) == RecWord(raw, |raw.elems|, o) {
      assert Aligned(0x200 + o);
      assert Word(gen, 0x200 + o) == GenWords(ts, raw, arr)(0x200 + o);
    }
  }

  lemma ArrayShown(gen: Bytes, ts: U64, raw: Rec, arr: Rec)
    requires Prints(gen, ts, raw, arr)
    ensures Shows(At(gen, 0x200 + raw.Size()), arr)
  {
    var p := 0x200 + raw.Size();
    forall o: nat | Aligned(o) && o < arr.Size() ensures At(gen, p)(o) == RecWord(arr, |arr.elems|, o) {
      ArrayWord(gen, ts, raw, arr, p + o);
    }
  }

  lemma ArrayWord(gen: Bytes, ts: U64, raw: Rec, arr: Rec, q: nat)
    requires Prints(gen, ts, raw, arr) && Aligned(q)
    requires 0x200 + raw.Size() <= q < 0x200 + raw.Size() + arr.Size()
    ensures Word(gen, q) == RecWord(arr, |arr.elems|, q - 0x200 - raw.Size())
  {
    assert Word(gen, q) == GenWords(ts, raw, arr)(q);
  }

  /** An offset without the tag holds no record. */
  lemma NoTagNoRecord(gen: Bytes, ts: U64, raw: Rec, arr: Rec, p: nat, lim: nat, id: U64)
    requires Prints(gen, ts, raw, arr) && NoTag(raw) && NoTag(arr) && Visited(p) && p + 4 <= |gen|
    requires p != 0x200 && p != 0x200 + raw.Size()
    ensures Records(gen, id)(p, lim).None?
  {
    assert Aligned(p);
    assert Word(gen, p) == GenWords(ts, raw, arr)(p);
    TagsAre(ts, raw, arr, p);
    NotTagged(At(gen, p), if lim > p then lim - p else 0, id, Word(gen, p));
  }

  lemma NotTagged(r: Reader, room: nat, id: U64, w: nat)
    requires r(0) == w != 0x25BD
    ensures Parse(r, room, id).None?
  {
  }

  /** The scan of a printed generation: the raw single-disk record is passed over, every
    * other word is no tag, and the array record is read back. */
  lemma PrintedParses(gen: Bytes, ts: U64, raw: Rec, arr: Rec, id: U64)
    requires Prints(gen, ts, raw, arr) && NoTag(raw) && NoTag(arr)
    requires |raw.elems| == 1 && 2 <= |arr.elems| <= 8
    ensures Parsed(gen, ts, id) == Meaning(arr, id)
  {
    HeaderPrinted(gen, ts, raw, arr);
    var parse, p := Records(gen, id), 0x200 + raw.Size();
    MissesUpTo(gen, ts, raw, arr, id);
    FirstSkips(parse, |gen|, 0x200, p, false);
    ArrayHit(gen, ts, raw, arr, id);
    if Meaning(arr, id).None? {
      forall k: nat | p <= k < |gen| && Visited(k) ensures Miss(parse, |gen|, k, false) {
        if k != p && k + 4 <= |gen| { NoTagNoRecord(gen, ts, raw, arr, k, Limit(|gen|, k, false), id); }
      }
      FirstSkips(parse, |gen|, p, |gen|, false);
    }
  }

  lemma HeaderPrinted(gen: Bytes, ts: U64, raw: Rec, arr: Rec)
    requires Prints(gen, ts, raw, arr)
    ensures Le64(At(gen, 0), 0) == ts
  {
    assert Aligned(0) && Aligned(4);
    assert Word(gen, 0) == GenWords(ts, raw, arr)(0) && Word(gen, 4) == GenWords(ts, raw, arr)(4);
  }

  lemma MissesUpTo(gen: Bytes, ts: U64, raw: Rec, arr: Rec, id: U64)
    requires Prints(gen, ts, raw, arr) && NoTag(raw) && NoTag(arr) && |raw.elems| == 1
    ensures Visited(0x200 + raw.Size())
    ensures forall k: nat :: 0x200 <= k < 0x200 + raw.Size() && Visited(k) ==>
      Miss(Records(gen, id), |gen|, k, false)
  {
    forall k: nat | 0x200 <= k < 0x200 + raw.Size() && Visited(k) ensures Miss(Records(gen, id), |gen|, k, false) {
      if k == 0x200 {
        RawShown(gen, ts, raw, arr);
        RecordsAt(gen, id, k, |gen|);
        ParseShown(At(gen, 0x200), raw, |gen| - 0x200, id);
      } else {
        NoTagNoRecord(gen, ts, raw, arr, k, Limit(|gen|, k, false), id);
      }
    }
  }

  lemma ArrayHit(gen: Bytes, ts: U64, raw: Rec, arr: Rec, id: U64)
    requires Prints(gen, ts, raw, arr) && 2 <= |arr.elems| <= 8
    ensures var p := 0x200 + raw.Size(); Records(gen, id)(p, Limit(|gen|, p, false)) == Meaning(arr, id)
  {
    var p := 0x200 + raw.Size();
    ArrayShown(gen, ts, raw, arr);
    RecordsAt(gen, id, p, |gen|);
    ParseShown(At(gen, p), arr, |gen| - p, id);
    assert p / 7168 == 0;
  }

  /** Both records of a printed generation fit the overlap: it meets the condition of the
    * chunked scan, with two tags in it. */
  lemma PrintedIsSmall(gen: Bytes, ts: U64, raw: Rec, arr: Rec)
    requires Prints(gen, ts, raw, arr) && NoTag(raw) && NoTag(arr)
    ensures AllSmall(gen) && Tagged(gen, 0x200) && Tagged(gen, 0x200 + raw.Size())
  {
    RawShown(gen, ts, raw, arr);
    RecordIsSmall(gen, 0x200, raw);
    ArrayShown(gen, ts, raw, arr);
    RecordIsSmall(gen, 0x200 + raw.Size(), arr);
    forall p: nat | Tagged(gen, p) ensures Extent(gen, p) <= 1024 {
      OnlyTwoTags(gen, ts, raw, arr, p);
    }
  }

  lemma RecordIsSmall(gen: Bytes, p: nat, r: Rec)
    requires Shows(At(gen, p), r) && |r.elems| <= 8
    ensures Word(gen, p) == 0x25BD && Extent(gen, p) <= 1024
  {
    var rd := At(gen, p);
    FixedShown(rd, r);
    assert rd(0) == Word(gen, p) && rd(0x04) == Word(gen, p + 0x04) && rd(0x68) == Word(gen, p + 0x68);
  }

  lemma OnlyTwoTags(gen: Bytes, ts: U64, raw: Rec, arr: Rec, p: nat)
    requires Prints(gen, ts, raw, arr) && NoTag(raw) && NoTag(arr) && Tagged(gen, p)
    ensures p == 0x200 || p == 0x200 + raw.Size()
  {
    assert Aligned(p);
    assert Word(gen, p) == GenWords(ts, raw, arr)(p);
    TagsAre(ts, raw, arr, p);
  }

  /** So what the driver reads from it is what one linear scan finds. */
  lemma PrintedIsLinear(gen: Bytes, ts: U64, raw: Rec, arr: Rec, id: U64)
    requires Prints(gen, ts, raw, arr) && NoTag(raw) && NoTag(arr)
    requires |raw.elems| == 1 && 2 <= |arr.elems| <= 8
    ensures Linear(gen, ts, id) == Parsed(gen, ts, id) == Meaning(arr, id)
  {
    PrintedIsSmall(gen, ts, raw, arr);
    ParsedIsLinear(gen, ts, id);
    PrintedParses(gen, ts, raw, arr, id);
  }
}
