/** The whole image set of mkmeta.py, and its round trip through the driver. */
module ConfigMkmeta {
  import opened Common
  import opened ConfigScan
  import opened Config
  import opened ConfigDisk
  import opened ConfigImage
  import opened ConfigRound

  const ACTIVE_TS := U64(0x5354_0A11, 0x5243_5445)
  const DECOY_TS := U64(0x5354_0DEA, 0x5243_5445)

  /** The u64 id of member i. */
  function DeviceId(i: nat): U64
    requires i < 8
  {
    U64(0x5354_0000 + i, 0x5243_5445)
  }

  /** CHUNK_INDEX_SECTORS. */
  function ImageChunk(index: nat): nat {
    if index == 3 then 512 else if index == 2 then 256 else 128
  }

  /** rc_volume_chunk_sectors_for. */
  function ChunkSectorsFor(level: Level, chunk: nat, index: nat): nat {
    if level == Raid1 then 512
    else if chunk != 0 then chunk
    else if level == Raid0 || level == Raid10 then
      (if index == 3 then 512 else if index == 2 then 256 else 128)
    else 0
  }

  /** Whole stripes past the metadata reserve. */
  function UserSize(min: nat, index: nat): nat
    requires min >= 0x6000
  {
    var c := ImageChunk(index);
    (min - 0x6000) / c * c
  }

  /** What main accepts: 2 to 8 images, the smallest of min sectors, room for a stripe. */
  predicate Accepted(n: nat, min: nat, index: nat) {
    2 <= n <= 8 && index <= 3 && 0x6000 + ImageChunk(index) < min < 0x1_0000_0000
  }

  /** counts_for. */
  function Counts(raid1: bool, n: nat): (nat, nat) {
    if raid1 then (1, 2) else (n, 1)
  }

  function Capacity(raid1: bool, n: nat, min: nat, index: nat): nat
    requires min >= 0x6000
  {
    if raid1 then UserSize(min, index) else UserSize(min, index) * n
  }

  /** build_raw_disk_ld: member 0's own single-disk record. */
  function RawRec(min: nat): Rec
    requires min < 0x1_0000_0000
  {
    Rec(0x1BF9, 1, 1, U64(min, 0), 1, [Elem(DeviceId(0), U64(0, 0), U64(min, 0), U64(0, 0), U64(min, 0))])
  }

  function ArrayElem(j: nat, user: nat): Elem
    requires j < 8
  {
    Elem(DeviceId(j), U64(0x6000, 0), U64(user, 0), U64(0x6000, 0), U64(user, 0))
  }

  /** build_ld_record. */
  function ArrayRec(raid1: bool, n: nat, min: nat, index: nat): (r: Rec)
    requires Accepted(n, min, index)
    ensures |r.elems| == n && forall j :: 0 <= j < n ==> r.elems[j] == ArrayElem(j, UserSize(min, index))
  {
    var c := Counts(raid1, n);
    Rec(0x1BF6, c.0, c.1, ToU64(Capacity(raid1, n, min, index)), index,
        seq(n, (j: nat) requires j < n => ArrayElem(j, UserSize(min, index))))
  }

  // ---------- no accidental tags ----------

  lemma UserSizeIs(min: nat, index: nat)
    requires Accepted(2, min, index)
    ensures var u := UserSize(min, index); 0 < u <= min - 0x6000 && u % ImageChunk(index) == 0 && u % 128 == 0
  {
    var x := min - 0x6000;
    if index == 3 {
      Floor512(x);
    } else if index == 2 {
      Floor256(x);
    } else {
      Floor128(x);
    }
  }

  lemma Floor512(x: nat)
    requires x >= 512
    ensures 0 < x / 512 * 512 <= x && x / 512 * 512 % 512 == 0 && x / 512 * 512 % 128 == 0
  {
  }

  lemma Floor256(x: nat)
    requires x >= 256
    ensures 0 < x / 256 * 256 <= x && x / 256 * 256 % 256 == 0 && x / 256 * 256 % 128 == 0
  {
  }

  lemma Floor128(x: nat)
    requires x >= 128
    ensures 0 < x / 128 * 128 <= x && x / 128 * 128 % 128 == 0
  {
  }

  lemma CapacityIs(raid1: bool, n: nat, min: nat, index: nat)
    requires Accepted(n, min, index)
    ensures var c := Capacity(raid1, n, min, index);
      c < 0x8_0000_0000 && ToU64(c).lo % 128 == 0 && ToU64(c).hi < 8
  {
    UserSizeIs(min, index);
    TimesMembers(UserSize(min, index), n);
    WordsOf(Capacity(raid1, n, min, index));
  }

  lemma TimesMembers(u: nat, n: nat)
    requires u % 128 == 0 && u < 0x1_0000_0000 && 2 <= n <= 8
    ensures u * n % 128 == 0 && u * n < 0x8_0000_0000
  {
    if n == 2 {} else if n == 3 {} else if n == 4 {} else if n == 5 {} else if n == 6 {} else if n == 7 {}
  }

  lemma WordsOf(c: nat)
    requires c % 128 == 0 && c < 0x8_0000_0000
    ensures ToU64(c).lo % 128 == 0 && ToU64(c).hi < 8
  {
  }

  lemma ImageHasNoTag(raid1: bool, n: nat, min: nat, index: nat)
    requires Accepted(n, min, index)
    ensures NoTag(RawRec(min)) && NoTag(ArrayRec(raid1, n, min, index))
  {
    UserSizeIs(min, index);
    CapacityIs(raid1, n, min, index);
    var arr := ArrayRec(raid1, n, min, index);
    forall j | 0 <= j < n ensures NoTagElem(arr.elems[j]) {
      assert arr.elems[j] == ArrayElem(j, UserSize(min, index));
    }
  }

  // ---------- what a member's disk holds ----------

  /** The word of the metadata block at offset o, past the checksum. */
  function MdWord(id: U64, o: nat): nat {
    if o == 0x08 then 0x4449_4152 else if o == 0x0C then 0x6572_6F43
    else if o == 0x10 then id.lo else if o == 0x14 then id.hi
    else if o == 0x18 then 0x5001 else if o == 0x20 then 0x5800
    else if o == 0x28 then 2048 else if o == 0x2C then 0x0003_0000 else if o == 0x30 then 0x1C
    else 0
  }

  ghost predicate MetadataPrinted(b: Bytes, id: U64) {
    |b| == 512 && LanesAt(b, 0) == Checksum(b, 8, (|b| - 8) / 8) && MdFields(b, id)
  }

  ghost predicate MdFields(b: Bytes, id: U64) {
    forall o: nat :: Aligned(o) && 8 <= o && o + 4 <= |b| ==> Word(b, o) == MdWord(id, o)
  }

  function MdWords(id: U64): Reader {
    (o: nat) => MdWord(id, o)
  }

  function CommitWord(len: nat, o: nat): nat {
    if o == 0x00 || o == 0x10 then ACTIVE_TS.lo else if o == 0x04 || o == 0x14 then ACTIVE_TS.hi
    else if o == 0x08 then 0x5810 else if o == 0x0C then len else if o == 0x30 then 2
    else 0
  }

  function CommitWords(len: nat): Reader {
    (o: nat) => CommitWord(len, o)
  }

  function GenLength(n: nat): nat {
    (0x200 + 0x170 + 0x130 + n * 64 + 511) / 512 * 512
  }

  /** Member pos's disk: the three structures in place; the rest of the ring, decoy
    * generation included, and everything else is arbitrary. */
  ghost predicate Written(disk: Disk, raid1: bool, n: nat, pos: nat, min: nat, index: nat)
    requires Accepted(n, min, index) && pos < n
  {
    && MetadataPrinted(Read(disk, 0x5000 * 512, 512), DeviceId(pos))
    && WordsAre(Read(disk, 0x5001 * 512, 512), CommitWords(GenLength(n)))
    && Prints(Read(disk, 0x5810 * 512, GenLength(n)), ACTIVE_TS, RawRec(min), ArrayRec(raid1, n, min, index))
  }

  lemma MetadataReadsBack(b: Bytes, id: U64)
    requires MetadataPrinted(b, id)
    ensures MetadataOf(b) == Valid(Metadata(id, U64(0x5001, 0), U64(0x5800, 0), 2048))
  {
    assert Aligned(0x08) && Aligned(0x0C) && Aligned(0x10) && Aligned(0x14) && Aligned(0x18) && Aligned(0x1C);
    assert Aligned(0x20) && Aligned(0x24) && Aligned(0x28) && Aligned(0x2C);
    assert Word(b, 0x08) == 0x4449_4152 && Word(b, 0x0C) == 0x6572_6F43;
  }

  lemma CommitReadsBack(b: Bytes, n: nat)
    requires WordsAre(b, CommitWords(GenLength(n))) && |b| == 512 && 2 <= n <= 8
    ensures CommitOf(b, 0x5800, 2048) == Some(Commit(0x5810, GenLength(n), ACTIVE_TS))
  {
    assert Aligned(0x08) && Aligned(0x0C) && Aligned(0x10) && Aligned(0x14);
    assert Word(b, 0x08) == CommitWords(GenLength(n))(0x08) && Word(b, 0x0C) == CommitWords(GenLength(n))(0x0C);
    assert Word(b, 0x10) == CommitWords(GenLength(n))(0x10) && Word(b, 0x14) == CommitWords(GenLength(n))(0x14);
  }

  lemma {:induction false} PositionFound(r: Rec, n: nat, user: nat, pos: nat, j: nat)
    requires |r.elems| == n <= 8 && j <= pos < n
    requires forall k :: 0 <= k < n ==> r.elems[k] == ArrayElem(k, user)
    ensures IndexFrom(r.elems, DeviceId(pos), j) == Some(pos)
    decreases pos - j
  {
    assert r.elems[j] == ArrayElem(j, user);
    if j < pos { PositionFound(r, n, user, pos, j + 1); }
  }

  /** Member pos of an image set reads back exactly the array record, at position pos. */
  lemma ImageReadsBack(disk: Disk, raid1: bool, n: nat, pos: nat, min: nat, index: nat)
    requires Accepted(n, min, index) && pos < n && Written(disk, raid1, n, pos, min, index)
    ensures var md := Metadata(DeviceId(pos), U64(0x5001, 0), U64(0x5800, 0), 2048);
      && MetadataOf(Read(disk, 0x5000 * 512, 512)) == Valid(md)
      && LdOf(disk, md) == Some(LdFor(ArrayRec(raid1, n, min, index), pos))
  {
    var arr := ArrayRec(raid1, n, min, index);
    MetadataReadsBack(Read(disk, 0x5000 * 512, 512), DeviceId(pos));
    CommitReadsBack(Read(disk, 0x5001 * 512, 512), n);
    ImageHasNoTag(raid1, n, min, index);
    PrintedParses(Read(disk, 0x5810 * 512, GenLength(n)), ACTIVE_TS, RawRec(min), arr, DeviceId(pos));
    PositionFound(arr, n, UserSize(min, index), pos, 0);
  }

  /** Every RAID0 image set, of 2 to 8 members and any size below 2^32 sectors: each
    * member passes magic, version and checksum and parses to the level, position,
    * capacity, chunk and user-data extent it was made with. */
  lemma Raid0RoundTrip(disk: Disk, n: nat, pos: nat, min: nat, index: nat)
    requires Accepted(n, min, index) && pos < n && Written(disk, false, n, pos, min, index)
    ensures MetadataOf(Read(disk, 0x5000 * 512, 512)).Valid?
    ensures var md := MetadataOf(Read(disk, 0x5000 * 512, 512)).md;
      LdOf(disk, md).Some? && AsMade(LdOf(disk, md).value, n, pos, min, index)
  {
    ImageReadsBack(disk, false, n, pos, min, index);
    RecordAsMade(n, pos, min, index);
  }

  predicate AsMade(ld: Ld, n: nat, pos: nat, min: nat, index: nat)
    requires Accepted(n, min, index)
  {
    && ld.Level() == Raid0 && ld.position == pos && ld.devices == n
    && ld.capacity.Value() == UserSize(min, index) * n
    && ChunkSectorsFor(Raid0, ld.chunk, ld.chunkIndex) == ImageChunk(index)
    && ld.userOffset.Value() == 0x6000 && ld.userSize.Value() == UserSize(min, index)
    && ld.allocOffset.Value() == 0x6000 && ld.allocSize.Value() == UserSize(min, index)
    && UserSize(min, index) + 0x6000 <= min < UserSize(min, index) + 0x6000 + ImageChunk(index)
    && ld.userSize.Value() % ImageChunk(index) == 0
  }

  lemma WholeStripes(x: nat, c: nat)
    requires c > 0
    ensures x / c * c <= x < x / c * c + c
  {
  }

  lemma RecordAsMade(n: nat, pos: nat, min: nat, index: nat)
    requires Accepted(n, min, index) && pos < n
    ensures AsMade(LdFor(ArrayRec(false, n, min, index), pos), n, pos, min, index)
  {
    CapacityIs(false, n, min, index);
    UserSizeIs(min, index);
    WholeStripes(min - 0x6000, ImageChunk(index));
    GenericLevels(n, 1, n);
  }

  /** A RAID1 image set reads back the same way, but its generic device type with counts
    * 1 x 2 has no level: the driver will not assemble it. */
  lemma Raid1ImageHasNoLevel(disk: Disk, pos: nat, min: nat, index: nat)
    requires Accepted(2, min, index) && pos < 2 && Written(disk, true, 2, pos, min, index)
    ensures MetadataOf(Read(disk, 0x5000 * 512, 512)).Valid?
    ensures var md := MetadataOf(Read(disk, 0x5000 * 512, 512)).md;
      LdOf(disk, md).Some? && LdOf(disk, md).value.position == pos && LdOf(disk, md).value.Level() == Unsupported
  {
    ImageReadsBack(disk, true, 2, pos, min, index);
    GenericLevels(1, 2, 2);
  }

  // ---------- the builders ----------

  lemma HalfRound(v: bv16)
    ensures (v as int % 0x100 + 0x100 * (v as int / 0x100)) as bv16 == v && v as int / 0x100 < 0x100
  {
  }

  function LowByte(v: bv16): byte { v as int % 0x100 }

  function HighByte(v: bv16): byte {
    HalfRound(v);
    v as int / 0x100
  }

  lemma JoinedBytes(v: bv16)
    ensures Joined(LowByte(v), HighByte(v)) == v
  {
    HalfRound(v);
  }

  lemma {:induction false} ChecksumFrame(a: Bytes, b: Bytes, from: nat, words: nat)
    requires |a| == |b| && forall k :: from <= k < |a| ==> a[k] == b[k]
    ensures Checksum(a, from, words) == Checksum(b, from, words)
  {
    if words > 0 {
      ChecksumFrame(a, b, from, words - 1);
      SameLanes(a, b, from, from + (words - 1) * 8);
    }
  }

  lemma SameLanes(a: Bytes, b: Bytes, from: nat, i: nat)
    requires |a| == |b| && from <= i && forall k :: from <= k < |a| ==> a[k] == b[k]
    ensures LanesAt(a, i) == LanesAt(b, i)
  {
    SameHalf(a, b, from, i);
    SameHalf(a, b, from, i + 2);
    SameHalf(a, b, from, i + 4);
    SameHalf(a, b, from, i + 6);
  }

  lemma SameHalf(a: Bytes, b: Bytes, from: nat, i: nat)
    requires |a| == |b| && from <= i && forall k :: from <= k < |a| ==> a[k] == b[k]
    ensures Half(a, i) == Half(b, i)
  {
  }

  /** build_commit_block. */
  method BuildCommit(len: nat) returns (c: array<byte>)
    requires len < 0x1_0000_0000
    ensures fresh(c) && c.Length == 512 && WordsAre(c[..], CommitWords(len))
  {
    c := Zeroed(512);
    ghost var f0: Reader := _ => 0;
    Pack64(c, 0x00, ACTIVE_TS, f0);
    ghost var f1 := Set64(f0, 0x00, ACTIVE_TS);
    Pack32(c, 0x08, 0x5810, f1);
    ghost var f2 := Set(f1, 0x08, 0x5810);
    Pack32(c, 0x0C, len, f2);
    ghost var f3 := Set(f2, 0x0C, len);
    Pack64(c, 0x10, ACTIVE_TS, f3);
    ghost var f4 := Set64(f3, 0x10, ACTIVE_TS);
    Pack32(c, 0x30, 2, f4);
    SameWords(c[..], Set(f4, 0x30, 2), CommitWords(len));
  }

  /** build_metadata_block. */
  method BuildMetadata(id: U64) returns (b: array<byte>)
    requires Fits(id)
    ensures fresh(b) && MetadataPrinted(b[..], id)
  {
    b := PackMetadata(id);
    ghost var before := b[..];
    var acc := ChecksumLoop(b[..], 8, b.Length - 8);
    PackLanes(b, acc);
    ChecksumStored(before, b[..], id);
  }

  lemma ChecksumStored(before: Bytes, b: Bytes, id: U64)
    requires |before| == |b| == 512 && forall k :: 8 <= k < 512 ==> b[k] == before[k]
    requires WordsAre(before, MdWords(id)) && LanesAt(b, 0) == Checksum(before, 8, (|before| - 8) / 8)
    ensures MetadataPrinted(b, id)
  {
    ChecksumFrame(before, b, 8, (|b| - 8) / 8);
    FieldsStay(before, b, id);
  }

  lemma FieldsStay(before: Bytes, b: Bytes, id: U64)
    requires |before| == |b| && WordsAre(before, MdWords(id)) && forall k :: 8 <= k < |b| ==> b[k] == before[k]
    ensures MdFields(b, id)
  {
    forall o: nat | Aligned(o) && 8 <= o && o + 4 <= |b| ensures Word(b, o) == MdWord(id, o) {
      WordStays(before, b, o);
    }
  }

  lemma WordStays(before: Bytes, b: Bytes, o: nat)
    requires |before| == |b| && 8 <= o && forall k :: 8 <= k < |b| ==> b[k] == before[k]
    ensures Word(b, o) == Word(before, o)
  {
  }

  /** struct.pack_into("<Q", b, 0, acc). */
  method PackLanes(b: array<byte>, acc: Lanes)
    requires b.Length >= 8
    modifies b
    ensures LanesAt(b[..], 0) == acc
    ensures forall k :: 8 <= k < b.Length ==> b[k] == old(b[k])
  {
    b[0], b[1] := LowByte(acc[0]), HighByte(acc[0]);
    b[2], b[3] := LowByte(acc[1]), HighByte(acc[1]);
    b[4], b[5] := LowByte(acc[2]), HighByte(acc[2]);
    b[6], b[7] := LowByte(acc[3]), HighByte(acc[3]);
    JoinedBytes(acc[0]);
    JoinedBytes(acc[1]);
    JoinedBytes(acc[2]);
    JoinedBytes(acc[3]);
    assert LanesAt(b[..], 0) == [acc[0], acc[1], acc[2], acc[3]];
  }

  method PackMetadata(id: U64) returns (b: array<byte>)
    requires Fits(id)
    ensures fresh(b) && b.Length == 512 && WordsAre(b[..], MdWords(id))
  {
    b := Zeroed(512);
    ghost var f0: Reader := _ => 0;
    Pack64(b, 0x08, U64(0x4449_4152, 0x6572_6F43), f0);
    ghost var f1 := Set64(f0, 0x08, U64(0x4449_4152, 0x6572_6F43));
    Pack64(b, 0x10, id, f1);
    ghost var f2 := Set64(f1, 0x10, id);
    Pack64(b, 0x18, U64(0x5001, 0), f2);
    ghost var f3 := Set64(f2, 0x18, U64(0x5001, 0));
    Pack64(b, 0x20, U64(0x5800, 0), f3);
    ghost var f4 := Set64(f3, 0x20, U64(0x5800, 0));
    Pack32(b, 0x28, 2048, f4);
    ghost var f5 := Set(f4, 0x28, 2048);
    Pack32(b, 0x2C, 0x0003_0000, f5);
    ghost var f6 := Set(f5, 0x2C, 0x0003_0000);
    Pack32(b, 0x30, 0x1C, f6);
    SameWords(b[..], Set(f6, 0x30, 0x1C), MdWords(id));
  }

  /** build_generation: header, then the records, then zeros up to a sector. */
  method BuildGeneration(ts: U64, raw: Rec, arr: Rec) returns (g: array<byte>)
    requires Fits(ts) && RecFits(raw) && RecFits(arr) && |raw.elems| <= 8 && |arr.elems| <= 8
    ensures fresh(g) && Prints(g[..], ts, raw, arr)
    ensures g.Length == (0x200 + raw.Size() + arr.Size() + 511) / 512 * 512
  {
    var rawBytes := BuildRecord(raw);
    var arrBytes := BuildRecord(arr);
    g := new byte[(0x200 + raw.Size() + arr.Size() + 511) / 512 * 512](_ => 0);
    CopyInto(g, 0x200, rawBytes);
    CopyInto(g, 0x200 + raw.Size(), arrBytes);
    ghost var f: Reader := (o: nat) => if o < 0x200 then 0 else GenWord(ts, raw, arr, o);
    CopiedWords(g[..], rawBytes[..], arrBytes[..], raw, arr, ts, f);
    Pack64(g, 0, ts, f);
    SameWords(g[..], Set64(f, 0, ts), GenWords(ts, raw, arr));
    WholeSectors(g[..], ts, raw, arr);
  }

  lemma WholeSectors(g: Bytes, ts: U64, raw: Rec, arr: Rec)
    requires WordsAre(g, GenWords(ts, raw, arr)) && |raw.elems| <= 8 && |arr.elems| <= 8
    requires |g| == (0x200 + raw.Size() + arr.Size() + 511) / 512 * 512
    ensures Prints(g, ts, raw, arr)
  {
  }

  method CopyInto(g: array<byte>, at: nat, src: array<byte>)
    requires at + src.Length <= g.Length && g != src
    modifies g
    ensures forall k :: 0 <= k < g.Length ==> g[k] == if at <= k < at + src.Length then src[k - at] else old(g[k])
  {
    for i := 0 to src.Length
      invariant forall k :: 0 <= k < g.Length ==> g[k] == if at <= k < at + i then src[k - at] else old(g[k])
    {
      g[at + i] := src[i];
    }
  }

  /** Byte k of a generation before its header is filled in. */
  function PartByte(rawBytes: Bytes, arrBytes: Bytes, k: nat): byte {
    if k < 0x200 then 0
    else if k < 0x200 + |rawBytes| then rawBytes[k - 0x200]
    else if k < 0x200 + |rawBytes| + |arrBytes| then arrBytes[k - 0x200 - |rawBytes|]
    else 0
  }

  lemma CopiedWords(g: Bytes, rawBytes: Bytes, arrBytes: Bytes, raw: Rec, arr: Rec, ts: U64, f: Reader)
    requires |rawBytes| == raw.Size() && |arrBytes| == arr.Size()
    requires WordsAre(rawBytes, RecWords(raw, |raw.elems|)) && WordsAre(arrBytes, RecWords(arr, |arr.elems|))
    requires forall k :: 0 <= k < |g| ==> g[k] == PartByte(rawBytes, arrBytes, k)
    requires forall o: nat :: f(o) == if o < 0x200 then 0 else GenWord(ts, raw, arr, o)
    ensures WordsAre(g, f)
  {
    forall o: nat | Aligned(o) && o + 4 <= |g| ensures Word(g, o) == f(o) {
      CopiedWord(g, rawBytes, arrBytes, raw, arr, ts, o);
    }
  }

  lemma CopiedWord(g: Bytes, rawBytes: Bytes, arrBytes: Bytes, raw: Rec, arr: Rec, ts: U64, o: nat)
    requires |rawBytes| == raw.Size() && |arrBytes| == arr.Size()
    requires WordsAre(rawBytes, RecWords(raw, |raw.elems|)) && WordsAre(arrBytes, RecWords(arr, |arr.elems|))
    requires Aligned(o) && o + 4 <= |g|
    requires forall k :: 0 <= k < |g| ==> g[k] == PartByte(rawBytes, arrBytes, k)
    ensures Word(g, o) == if o < 0x200 then 0 else GenWord(ts, raw, arr, o)
  {
    if 0x200 <= o < 0x200 + raw.Size() {
      assert Aligned(o - 0x200);
      assert Word(rawBytes, o - 0x200) == RecWords(raw, |raw.elems|)(o - 0x200);
    } else if 0x200 + raw.Size() <= o < 0x200 + raw.Size() + arr.Size() {
      var k := o - 0x200 - raw.Size();
      assert Aligned(k);
      assert Word(arrBytes, k) == RecWords(arr, |arr.elems|)(k);
    }
  }

  lemma ImageFits(raid1: bool, n: nat, min: nat, index: nat)
    requires Accepted(n, min, index)
    ensures RecFits(RawRec(min)) && RecFits(ArrayRec(raid1, n, min, index))
  {
    UserSizeIs(min, index);
    CapacityIs(raid1, n, min, index);
    var arr := ArrayRec(raid1, n, min, index);
    forall j | 0 <= j < n ensures ElemFits(arr.elems[j]) {
      assert arr.elems[j] == ArrayElem(j, UserSize(min, index));
    }
  }

  // ---------- the decoy ----------

  /** The word of a generation that holds one record. */
  function LoneWord(ts: U64, r: Rec, o: nat): nat {
    if o < 0x200 then (if o == 0 then ts.lo else if o == 4 then ts.hi else 0)
    else if o < 0x200 + r.Size() then RecWord(r, |r.elems|, o - 0x200)
    else 0
  }

  function LoneWords(ts: U64, r: Rec): Reader {
    (o: nat) => LoneWord(ts, r, o)
  }

  /** The dead array at the head of the ring: the same members at the other level. */
  ghost predicate DecoyPrinted(gen: Bytes, raid1: bool, n: nat, min: nat, index: nat)
    requires Accepted(n, min, index)
  {
    && |gen| == (0x200 + 0x130 + n * 64 + 511) / 512 * 512
    && WordsAre(gen, LoneWords(DECOY_TS, ArrayRec(!raid1, n, min, index)))
  }

  /** build_generation of the decoy's only record. */
  method BuildDecoy(ts: U64, r: Rec) returns (g: array<byte>)
    requires Fits(ts) && RecFits(r) && |r.elems| <= 8
    ensures fresh(g) && g.Length == (0x200 + r.Size() + 511) / 512 * 512 && WordsAre(g[..], LoneWords(ts, r))
  {
    var recBytes := BuildRecord(r);
    g := new byte[(0x200 + r.Size() + 511) / 512 * 512](_ => 0);
    CopyInto(g, 0x200, recBytes);
    ghost var f: Reader := (o: nat) => if o < 0x200 then 0 else LoneWord(ts, r, o);
    forall o: nat | Aligned(o) && o + 4 <= g.Length ensures Word(g[..], o) == f(o) {
      LoneCopied(g[..], recBytes[..], r, ts, o);
    }
    Pack64(g, 0, ts, f);
    SameWords(g[..], Set64(f, 0, ts), LoneWords(ts, r));
  }

  lemma LoneCopied(g: Bytes, recBytes: Bytes, r: Rec, ts: U64, o: nat)
    requires |recBytes| == r.Size() && WordsAre(recBytes, RecWords(r, |r.elems|)) && Aligned(o) && o + 4 <= |g|
    requires forall k :: 0 <= k < |g| ==> g[k] == PartByte(recBytes, [], k)
    ensures Word(g, o) == if o < 0x200 then 0 else LoneWord(ts, r, o)
  {
    if 0x200 <= o < 0x200 + r.Size() {
      assert Aligned(o - 0x200);
      assert Word(recBytes, o - 0x200) == RecWords(r, |r.elems|)(o - 0x200);
    }
  }

  /** A scan that took the first array record of the ring would take the decoy, and come
    * to another capacity than the one the set was made with. */
  lemma DecoyWouldBeFound(gen: Bytes, raid1: bool, n: nat, pos: nat, min: nat, index: nat)
    requires Accepted(n, min, index) && pos < n && DecoyPrinted(gen, raid1, n, min, index)
    ensures First(Records(gen, DeviceId(pos)), |gen|, 0x200, false)
         == Some((0x200, LdFor(ArrayRec(!raid1, n, min, index), pos)))
    ensures LdFor(ArrayRec(!raid1, n, min, index), pos).capacity != LdFor(ArrayRec(raid1, n, min, index), pos).capacity
  {
    var r, id := ArrayRec(!raid1, n, min, index), DeviceId(pos);
    PositionFound(r, n, UserSize(min, index), pos, 0);
    LoneFound(gen, DECOY_TS, r, id, pos);
    CapacitiesDiffer(n, min, index);
  }

  lemma LoneFound(gen: Bytes, ts: U64, r: Rec, id: U64, pos: nat)
    requires WordsAre(gen, LoneWords(ts, r)) && 0x200 + r.Size() <= |gen| && Aligned(r.Size())
    requires 2 <= |r.elems| <= 8 && IndexFrom(r.elems, id, 0) == Some(pos) && pos < |r.elems|
    ensures First(Records(gen, id), |gen|, 0x200, false) == Some((0x200, LdFor(r, pos)))
  {
    LoneShown(gen, ts, r);
    ShownFound(gen, r, id, pos, 0x200, Limit(|gen|, 0x200, false));
  }

  lemma ShownFound(gen: Bytes, r: Rec, id: U64, pos: nat, p: nat, lim: nat)
    requires Shows(At(gen, p), r) && 2 <= |r.elems| <= 8 && IndexFrom(r.elems, id, 0) == Some(pos) && pos < |r.elems|
    requires p + 4 <= |gen| && lim == Limit(|gen|, p, false) && p + r.Size() <= lim
    ensures First(Records(gen, id), |gen|, p, false) == Some((p, LdFor(r, pos)))
  {
    ShownMeans(At(gen, p), r, id, pos, lim - p);
    ParsedFound(gen, id, p, lim, lim - p, LdFor(r, pos));
  }

  lemma ShownMeans(rd: Reader, r: Rec, id: U64, pos: nat, room: nat)
    requires Shows(rd, r) && 2 <= |r.elems| <= 8 && IndexFrom(r.elems, id, 0) == Some(pos) && pos < |r.elems|
    requires r.Size() <= room
    ensures Parse(rd, room, id) == Some(LdFor(r, pos))
  {
    ParseShown(rd, r, room, id);
  }

  lemma ParsedFound(gen: Bytes, id: U64, p: nat, lim: nat, room: nat, ld: Ld)
    requires p + 4 <= |gen| && lim == Limit(|gen|, p, false) && lim > p && room == lim - p
    requires Parse(At(gen, p), room, id) == Some(ld)
    ensures First(Records(gen, id), |gen|, p, false) == Some((p, ld))
  {
    assert Records(gen, id)(p, lim) == Parse(At(gen, p), room, id);
    FirstHere(Records(gen, id), |gen|, p, false, ld);
  }

  lemma LoneShown(gen: Bytes, ts: U64, r: Rec)
    requires WordsAre(gen, LoneWords(ts, r)) && 0x200 + r.Size() <= |gen| && Aligned(r.Size())
    ensures Shows(At(gen, 0x200), r)
  {
    forall o: nat | Aligned(o) && o < r.Size() ensures At(gen, 0x200)(o) == RecWord(r, |r.elems|, o) {
      assert Aligned(0x200 + o);
      assert Word(gen, 0x200 + o) == LoneWords(ts, r)(0x200 + o);
    }
  }

  lemma CapacitiesDiffer(n: nat, min: nat, index: nat)
    requires Accepted(n, min, index)
    ensures ToU64(Capacity(true, n, min, index)) != ToU64(Capacity(false, n, min, index))
  {
    UserSizeIs(min, index);
    var u := UserSize(min, index);
    assert u * n > u;
  }

  /** What main writes to member pos: the three structures Written asks for, and the
    * decoy, which fits below the active generation. */
  method BuildMember(raid1: bool, n: nat, pos: nat, min: nat, index: nat)
    returns (md: array<byte>, commit: array<byte>, gen: array<byte>, decoy: array<byte>)
    requires Accepted(n, min, index) && pos < n
    ensures DecoyPrinted(decoy[..], raid1, n, min, index) && decoy.Length <= 16 * 512
    ensures MetadataPrinted(md[..], DeviceId(pos))
    ensures commit.Length == 512 && WordsAre(commit[..], CommitWords(gen.Length)) && gen.Length == GenLength(n)
    ensures Prints(gen[..], ACTIVE_TS, RawRec(min), ArrayRec(raid1, n, min, index))
  {
    ImageFits(raid1, n, min, index);
    ImageFits(!raid1, n, min, index);
    decoy := BuildDecoy(DECOY_TS, ArrayRec(!raid1, n, min, index));
    gen := BuildGeneration(ACTIVE_TS, RawRec(min), ArrayRec(raid1, n, min, index));
    commit := BuildCommit(gen.Length);
    md := BuildMetadata(DeviceId(pos));
  }
}
