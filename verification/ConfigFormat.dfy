/** The on-disk format as the driver reads it, byte by byte and both ways: what is
  * accepted, what is refused, and where each field comes from. */
module ConfigFormat {
  import opened Common
  import opened ConfigScan
  import opened Config
  import opened ConfigDisk
  import opened ConfigImage
  import opened ConfigMkmeta

  // ---------- a record ----------

  /** Element j names this disk, and no earlier one does. */
  ghost predicate IsFirst(r: Reader, at: nat, devices: nat, id: U64, j: nat) {
    && j < devices && Le64(r, at + j * 64) == id
    && forall k :: 0 <= k < j ==> Le64(r, at + k * 64) != id
  }

  lemma {:induction false} FindsFirst(r: Reader, at: nat, devices: nat, id: U64, j: nat)
    requires forall k :: 0 <= k < j ==> Le64(r, at + k * 64) != id
    ensures var p := FindElement(r, at, devices, id, j);
      && (p.Some? ==> IsFirst(r, at, devices, id, p.value))
      && (p.None? ==> forall k :: 0 <= k < devices ==> Le64(r, at + k * 64) != id)
    decreases devices - j
  {
    if j < devices && Le64(r, at + j * 64) != id {
      FindsFirst(r, at, devices, id, j + 1);
    }
  }

  /** A record is taken exactly if it carries the LogicalDevice tag, its fixed part and its
    * element array were read, it has two to eight devices and one of them is this disk;
    * the position is that of the first such element. */
  lemma ParseIff(r: Reader, room: nat, id: U64)
    ensures Parse(r, room, id).Some? <==>
      && r(0) == 0x25BD && 0x114 <= room && 2 <= r(0x68) <= 8 && r(0x04) + r(0x68) * 64 <= room
      && exists j :: IsFirst(r, r(0x04), r(0x68), id, j)
    ensures Parse(r, room, id).Some? ==>
      IsFirst(r, r(0x04), r(0x68), id, Parse(r, room, id).value.position)
  {
    FindsFirst(r, r(0x04), r(0x68), id, 0);
    if j: nat :| IsFirst(r, r(0x04), r(0x68), id, j) {
      assert FindElement(r, r(0x04), r(0x68), id, 0).Some?;
    }
  }

  /** Where the fields of a record come from. */
  lemma FieldsComeFrom(r: Reader, room: nat, id: U64)
    requires Parse(r, room, id).Some?
    ensures var ld := Parse(r, room, id).value;
      && ld.devtype == r(0x0C) && ld.first == r(0x6C) && ld.second == r(0x70) && ld.devices == r(0x68)
      && ld.chunk == r(0xAC) && ld.chunkIndex == r(0x110)
      && ld.capacity.lo == r(0x50) && ld.capacity.hi == r(0x54)
    ensures var ld := Parse(r, room, id).value; var e := r(0x04) + ld.position * 64;
      && ld.allocOffset == U64(r(e + 0x10), r(e + 0x14)) && ld.allocSize == U64(r(e + 0x18), r(e + 0x1C))
      && ld.userOffset == U64(r(e + 0x20), r(e + 0x24)) && ld.userSize == U64(r(e + 0x28), r(e + 0x2C))
  {
  }

  /** The stripe: RAID1 has a fixed granule; a chunk size on disk wins over the index, of
    * which 2 and 3 alone are explicit; without a level there is none. */
  lemma StripeOf(chunk: nat, index: nat)
    ensures ChunkSectorsFor(Raid1, chunk, index) == 512
    ensures chunk > 0 ==> forall l: Level :: l != Raid1 ==> ChunkSectorsFor(l, chunk, index) == chunk
    ensures forall l: Level :: l == Raid0 || l == Raid10 ==>
      && ChunkSectorsFor(l, 0, 3) == 512 && ChunkSectorsFor(l, 0, 2) == 256
      && (index != 2 && index != 3 ==> ChunkSectorsFor(l, 0, index) == 128)
    ensures ChunkSectorsFor(Unsupported, 0, index) == 0
  {
  }

  // ---------- the commit block ----------

  /** A commit block is accepted exactly if it names a non-empty extent of whole sectors
    * inside the ring and carries a timestamp. */
  lemma CommitIff(sector: Bytes, ringLba: nat, ringSize: nat)
    ensures var c := CommitOf(sector, ringLba, ringSize); var lba, bytes := Word(sector, 0x08), Word(sector, 0x0C);
      && (c.Some? <==>
            && bytes > 0 && bytes % 512 == 0
            && ringLba * 512 <= lba * 512 && lba * 512 + bytes <= (ringLba + ringSize) * 512
            && (Word(sector, 0x10) != 0 || Word(sector, 0x14) != 0))
      && (c.Some? ==> c.value == Commit(lba, bytes, U64(Word(sector, 0x10), Word(sector, 0x14))))
  {
  }

  // ---------- the metadata block ----------

  /** "RAIDCore" in ASCII. */
  const MAGIC: Bytes := [0x52, 0x41, 0x49, 0x44, 0x43, 0x6F, 0x72, 0x65]

  /** Digits to the base 256 are unique. */
  lemma LowDigit(a: byte, v: byte, x: int, y: int)
    ensures a as int + 0x100 * x == v as int + 0x100 * y <==> a == v && x == y
  {
  }

  lemma WordIff(b: Bytes, i: nat, v0: byte, v1: byte, v2: byte, v3: byte)
    requires i + 4 <= |b|
    ensures Word(b, i) == v0 as int + 0x100 * (v1 as int) + 0x1_0000 * (v2 as int) + 0x100_0000 * (v3 as int)
       <==> b[i] == v0 && b[i + 1] == v1 && b[i + 2] == v2 && b[i + 3] == v3
  {
    var b2, w2 := b[i + 2] as int + 0x100 * (b[i + 3] as int), v2 as int + 0x100 * (v3 as int);
    var b1, w1 := b[i + 1] as int + 0x100 * b2, v1 as int + 0x100 * w2;
    LowDigit(b[i], v0, b1, w1);
    LowDigit(b[i + 1], v1, b2, w2);
    LowDigit(b[i + 2], v2, b[i + 3] as int, v3 as int);
  }

  lemma MagicIff(b: Bytes)
    requires |b| == 512
    ensures b[0x08..0x10] == MAGIC <==> Word(b, 0x08) == 0x4449_4152 && Word(b, 0x0C) == 0x6572_6F43
  {
    WordIff(b, 0x08, 0x52, 0x41, 0x49, 0x44);
    WordIff(b, 0x0C, 0x43, 0x6F, 0x72, 0x65);
    var m := b[0x08..0x10];
    assert m[0] == b[0x08] && m[1] == b[0x09] && m[2] == b[0x0A] && m[3] == b[0x0B];
    assert m[4] == b[0x0C] && m[5] == b[0x0D] && m[6] == b[0x0E] && m[7] == b[0x0F];
  }

  /** The block is refused for its magic, its version or its checksum, in this order, and
    * for nothing else. */
  lemma MetadataIff(b: Bytes)
    requires |b| == 512
    ensures MetadataOf(b) == Invalid(NoMagic) <==> b[0x08..0x10] != MAGIC
    ensures MetadataOf(b) == Invalid(BadVersion) <==> b[0x08..0x10] == MAGIC && Word(b, 0x2C) != 0x0003_0000
    ensures MetadataOf(b) == Invalid(BadChecksum) <==>
      b[0x08..0x10] == MAGIC && Word(b, 0x2C) == 0x0003_0000 && LanesAt(b, 0) != Checksum(b, 8, (|b| - 8) / 8)
    ensures MetadataOf(b).Valid? ==> var md := MetadataOf(b).md;
      && md.id == U64(Word(b, 0x10), Word(b, 0x14)) && md.commitLba == U64(Word(b, 0x18), Word(b, 0x1C))
      && md.ringLba == U64(Word(b, 0x20), Word(b, 0x24)) && md.ringSize == Word(b, 0x28)
  {
    MagicIff(b);
  }

  // ---------- the checksum ----------

  /** Lane k of the word at i holds its bytes 2k and 2k + 1, the low one first. */
  lemma LaneBytes(s: Bytes, i: nat, k: nat)
    requires k < 4 && i + 8 <= |s|
    ensures LanesAt(s, i)[k] == (s[i + 2 * k] as int + 0x100 * (s[i + 2 * k + 1] as int)) as bv16
  {
    LaneIsHalf(s, i, k);
    HalfBytes(s, i + 2 * k);
  }

  lemma LaneIsHalf(s: Bytes, i: nat, k: nat)
    requires k < 4
    ensures LanesAt(s, i)[k] == Half(s, i + 2 * k)
  {
    if k == 0 {} else if k == 1 {} else if k == 2 {}
  }

  lemma HalfBytes(s: Bytes, j: nat)
    requires j + 2 <= |s|
    ensures Half(s, j) == (s[j] as int + 0x100 * (s[j + 1] as int)) as bv16
  {
  }

  /** The lane that word n puts in place k, when accumulator and word name the lanes p and
    * q: these two change places, or two named by n if they coincide. */
  function Source(p: nat, q: nat, n: nat, k: nat): (l: nat)
    requires p < 4 && q < 4 && k < 4
    ensures l < 4
  {
    var a, b := if p == q then n % 4 else p, if p == q then (n + 1) % 4 else q;
    if k == a then b else if k == b then a else k
  }

  /** The two low bits of a word. */
  function Low(w: Lanes): (p: nat)
    ensures p < 4
  {
    (w[0] & 3) as nat
  }

  /** The checksum, word by word and lane by lane. */
  lemma ChecksumStep(s: Bytes, from: nat, n: nat, k: nat)
    requires k < 4
    ensures Checksum(s, from, 0)[k] == 0
    ensures var acc, w := Checksum(s, from, n), LanesAt(s, from + n * 8);
      Checksum(s, from, n + 1)[k] == acc[k] ^ w[Source(Low(acc), Low(w), n, k)]
  {
    var acc, w := Checksum(s, from, n), LanesAt(s, from + n * 8);
    RoundAt(acc, w, n, k);
  }

  lemma RoundAt(acc: Lanes, w: Lanes, n: nat, k: nat)
    requires k < 4
    ensures Round(acc, w, n)[k] == acc[k] ^ w[Source(Low(acc), Low(w), n, k)]
  {
    var p, q := Low(acc), Low(w);
    var a, b := if p == q then n % 4 else p, if p == q then (n + 1) % 4 else q;
    assert Round(acc, w, n) == XorLanes(acc, Swapped(w, a, b));
    assert Swapped(w, a, b)[k] == w[Source(p, q, n, k)];
    XorAt(acc, Swapped(w, a, b), k);
  }

  lemma XorAt(v: Lanes, w: Lanes, k: nat)
    requires k < 4
    ensures XorLanes(v, w)[k] == v[k] ^ w[k]
  {
    if k == 0 {
    } else if k == 1 {
    } else if k == 2 {
    } else {
      assert k == 3;
    }
  }

  // ---------- what the image writer stamps ----------

  /** The identities and stamps of an image set, and the words nobody reads back. */
  lemma WriterStamps(i: nat, id: U64, len: nat)
    requires i < 8
    ensures DeviceId(i).Value() == 0x5243_5445_5354_0000 + i
    ensures ACTIVE_TS.Value() == 0x5243_5445_5354_0A11 && DECOY_TS.Value() == 0x5243_5445_5354_0DEA
    ensures MdWord(id, 0x30) == 0x1C && forall o :: o >= 0x34 ==> MdWord(id, o) == 0
    ensures U64(CommitWord(len, 0x00), CommitWord(len, 0x04)) == ACTIVE_TS && CommitWord(len, 0x30) == 2
    ensures forall o :: 0x18 <= o && o != 0x30 ==> CommitWord(len, o) == 0
  {
  }

  // ---------- the whole disk ----------

  /** A disk yields a record exactly if its metadata names a ring and a commit block, the
    * commit is accepted, the generation carries its timestamp, and the scan finds one. */
  lemma RecordIff(disk: Disk, md: Metadata)
    ensures var c := CommitOf(Read(disk, md.commitLba.Value() * 512, 512), md.ringLba.Value(), md.ringSize);
      LdOf(disk, md).Some? <==>
        && md.ringLba != U64(0, 0) && md.commitLba != U64(0, 0) && c.Some?
        && var gen := Read(disk, c.value.lba * 512, c.value.bytes);
          Word(gen, 0) == c.value.ts.lo && Word(gen, 4) == c.value.ts.hi
          && First(Records(gen, md.id), |gen|, 0x200, false).Some?
  {
  }
}
