/** From the raw disk to this member's record: metadata block, commit block, and the
  * chunked walk of the committed generation through one reused buffer. */
module ConfigDisk {
  import opened Common
  import opened ConfigScan
  import opened Config

  /** The disk, byte by byte. */
  type Disk = nat -> byte

  function Read(disk: Disk, at: nat, len: nat): (r: Bytes)
    ensures |r| == len && forall i :: 0 <= i < len ==> r[i] == disk(at + i)
  {
    seq(len, (i: nat) => disk(at + i))
  }

  // ---------- what the walk finds ----------

  /** The record of the committed generation: its header must carry the committed
    * timestamp. */
  function Parsed(gen: Bytes, ts: U64, id: U64): Option<Ld> {
    if Le64(At(gen, 0), 0) != ts then None
    else
      var r := First(Records(gen, id), |gen|, 0x200, false);
      if r.None? then None else Some(r.value.1)
  }

  /** The same by one linear scan of the whole generation. */
  function Linear(gen: Bytes, ts: U64, id: U64): Option<Ld> {
    if Le64(At(gen, 0), 0) != ts then None
    else
      var r := First(Records(gen, id), |gen|, 0x200, true);
      if r.None? then None else Some(r.value.1)
  }

  /** On a generation whose tagged records fit the overlap the chunks make no difference. */
  lemma ParsedIsLinear(gen: Bytes, ts: U64, id: U64)
    requires AllSmall(gen)
    ensures Parsed(gen, ts, id) == Linear(gen, ts, id)
  {
    ChunkedIsLinear(gen, id);
  }

  /** rc_nvme_read_lba into the head of the buffer; the rest keeps what it had. */
  method ReadInto(disk: Disk, at: nat, len: nat, buf: array<byte>)
    requires len <= buf.Length
    modifies buf
    ensures buf[..len] == Read(disk, at, len)
  {
    for i := 0 to len
      invariant forall k :: 0 <= k < i ==> buf[k] == disk(at + k)
    {
      buf[i] := disk(at + i);
    }
  }

  /** The loop over the element array. */
  method FindPosition(r: Reader, at: nat, devices: nat, id: U64) returns (p: Option<nat>)
    ensures p == FindElement(r, at, devices, id, 0)
  {
    for j := 0 to devices
      invariant FindElement(r, at, devices, id, 0) == FindElement(r, at, devices, id, j)
    {
      if Le64(r, at + j * 64) == id { return Some(j); }
    }
    return None;
  }

  /** The body of the tag loop. */
  method ParseRecord(r: Reader, room: nat, id: U64) returns (ld: Option<Ld>)
    ensures ld == Parse(r, room, id)
  {
    if r(0) != 0x25BD { return None; }
    if 0x110 + 4 > room { return None; }
    var devices, elemOff := r(0x68), r(0x04);
    if devices < 1 || devices > 8 { return None; }
    if elemOff + devices * 64 > room { return None; }
    var j := FindPosition(r, elemOff, devices, id);
    if j.None? { return None; }
    if devices < 2 { return None; }
    return Some(Fields(r, elemOff + j.value * 64, j.value));
  }

  /** The buffer shows the generation from pos on. */
  predicate Loaded(buf: Bytes, gen: Bytes, pos: nat, avail: nat) {
    avail <= |buf| && pos + avail <= |gen| && buf[..avail] == gen[pos..pos + avail]
  }

  lemma LoadedAgrees(buf: Bytes, gen: Bytes, pos: nat, avail: nat, i: nat)
    requires Loaded(buf, gen, pos, avail) && i <= avail
    ensures Agree(At(buf, i), At(gen, pos + i), avail - i)
  {
    forall k: nat | k + 4 <= avail - i ensures At(buf, i)(k) == At(gen, pos + i)(k) {
      WordLoaded(buf, gen, pos, avail, i + k);
    }
  }

  lemma WordLoaded(buf: Bytes, gen: Bytes, pos: nat, avail: nat, i: nat)
    requires Loaded(buf, gen, pos, avail) && i + 4 <= avail
    ensures Word(buf, i) == Word(gen, pos + i)
  {
    var a, b := buf[..avail], gen[pos..pos + avail];
    assert a[i] == b[i] && a[i + 1] == b[i + 1] && a[i + 2] == b[i + 2] && a[i + 3] == b[i + 3];
  }

  /** A tag hit in the buffer parses as it does on disk, read as far as its chunk. */
  lemma HitInChunk(buf: Bytes, gen: Bytes, parse: Lookup<Ld>, c: nat, avail: nat, i: nat, id: U64, p: nat)
    requires Loaded(buf, gen, c * 7168, avail) && i + 4 <= avail && p == c * 7168 + i
    requires avail == (if c * 7168 + 8192 < |gen| then 8192 else |gen| - c * 7168)
    requires (i < 7168 || c * 7168 + 8192 >= |gen|) && parse == Records(gen, id)
    ensures Parse(At(buf, i), avail - i, id) == parse(p, ChunkLimit(|gen|, p))
  {
    LimitInChunk(|gen|, c, i);
    RecordsAt(gen, id, p, c * 7168 + avail);
    LoadedAgrees(buf, gen, c * 7168, avail, i);
    ParseAgrees(At(buf, i), At(gen, p), avail - i, id);
  }

  lemma RecordsAt(gen: Bytes, id: U64, p: nat, lim: nat)
    requires p < lim
    ensures Records(gen, id)(p, lim) == Parse(At(gen, p), lim - p, id)
  {
  }

  /** One turn of the tag loop. */
  method TryTag(s: Bytes, ghost c: nat, avail: nat, i: nat, id: U64, ghost gen: Bytes, ghost parse: Lookup<Ld>,
                ghost seen: nat, ghost p: nat)
    returns (ld: Option<Ld>)
    requires Loaded(s, gen, c * 7168, avail) && i + 4 <= avail && p == c * 7168 + i && Visited(p)
    requires avail == (if c * 7168 + 8192 < |gen| then 8192 else |gen| - c * 7168)
    requires (i < 7168 || c * 7168 + 8192 >= |gen|) && parse == Records(gen, id)
    requires NoneBelow(parse, |gen|, Larger(seen, p))
    ensures ld.None? ==> NoneBelow(parse, |gen|, Larger(seen, p + 4))
    ensures ld.Some? ==> Finds(parse, |gen|, ld.value)
  {
    ld := ParseRecord(At(s, i), avail - i, id);
    HitInChunk(s, gen, parse, c, avail, i, id, p);
    HitOrMiss(parse, |gen|, p, seen, ld);
  }

  /** The tag loop over one chunk. */
  method ScanChunk(buf: array<byte>, ghost c: nat, start: nat, limit: nat, avail: nat, id: U64, ghost gen: Bytes,
                   ghost parse: Lookup<Ld>, ghost seen: nat)
    returns (ld: Option<Ld>)
    requires Loaded(buf[..], gen, c * 7168, avail) && start % 4 == limit % 4 == 0 && start <= limit <= avail
    requires avail == (if c * 7168 + 8192 < |gen| then 8192 else |gen| - c * 7168)
    requires (limit <= 7168 || c * 7168 + 8192 >= |gen|) && parse == Records(gen, id)
    requires c * 7168 + start >= 0x200 && NoneBelow(parse, |gen|, Larger(seen, c * 7168 + start))
    ensures ld.None? ==> NoneBelow(parse, |gen|, Larger(seen, c * 7168 + limit))
    ensures ld.Some? ==> Finds(parse, |gen|, ld.value)
  {
    var i, s := start, buf[..];
    ghost var p := c * 7168 + start;
    while i + 4 <= limit
      invariant i % 4 == 0 && start <= i <= limit && p == c * 7168 + i && Visited(p)
      invariant NoneBelow(parse, |gen|, Larger(seen, p))
    {
      ld := TryTag(s, c, avail, i, id, gen, parse, seen, p);
      if ld.Some? { return; }
      i, p := i + 4, p + 4;
    }
    ld := None;
  }

  /** The last chunk of such a generation starts at 2^32 - 9216 or before. */
  lemma PositionBelow(pos: nat, c: nat)
    requires pos == c * 7168 && pos < 0xFFFF_F800
    ensures pos <= 0xFFFF_DC00
  {
    assert c <= 599185;
  }

  /** At chunk c the code's test for the last chunk, in u32, is the test it stands for. */
  predicate TestHolds(c: nat, len: nat) {
    c * 7168 < len ==> ((c * 7168 + 8192) % 0x1_0000_0000 >= len <==> c * 7168 + 8192 >= len)
  }

  /** Of the whole-sector lengths a commit block can name, the test holds at every chunk
    * up to 2^32 - 2048 and on no longer one: there the last chunk is not recognized and
    * the walk goes round. */
  lemma LastChunkTestIff(len: nat)
    requires len < 0x1_0000_0000 && len % 512 == 0
    ensures (forall c: nat :: TestHolds(c, len)) <==> len <= 0xFFFF_F800
  {
    if len <= 0xFFFF_F800 {
      forall c: nat ensures TestHolds(c, len) {
        if c * 7168 < len { PositionBelow(c * 7168, c); }
      }
    } else {
      assert 599186 * 7168 == 0xFFFF_F800;
      assert !TestHolds(599186, len);
    }
  }

  /** How much of the chunk at pos is read, and between which offsets a tag may start. */
  method ChunkBounds(pos: nat, len: nat, ghost c: nat) returns (avail: nat, start: nat, limit: nat)
    requires pos < len <= 0xFFFF_F800 && len % 512 == 0 && pos == c * 7168
    ensures avail == (if pos + 8192 < len then 8192 else len - pos)
    ensures start == (if pos == 0 then 0x200 else 0)
    ensures limit % 4 == 0 && start <= limit <= avail
    ensures limit <= 7168 || pos + 8192 >= len
    ensures pos + limit >= (if pos + 7168 < len then pos + 7168 else len)
    ensures pos == 0 ==> avail >= 8
    ensures pos + 7168 < 0x1_0000_0000
  {
    PositionBelow(pos, c);
    avail := if 8192 < len - pos then 8192 else len - pos;
    var final := (pos + 8192) % 0x1_0000_0000 >= len;
    limit := if final then avail else 7168;
    start := if pos == 0 then (if 0x200 < limit then 0x200 else limit) else 0;
  }

  /** The walk over the generation, whatever the buffer held before.  readable says
    * which of its chunks the disk delivers. */
  method ScanGeneration(disk: Disk, at: nat, len: nat, ts: U64, id: U64, buf: array<byte>, readable: nat -> bool)
    returns (ld: Option<Ld>)
    requires buf.Length == 8192 && 0 < len <= 0xFFFF_F800 && len % 512 == 0
    modifies buf
    ensures ld.Some? ==> ld == Parsed(Read(disk, at, len), ts, id)
    ensures (forall c :: readable(c)) ==> ld == Parsed(Read(disk, at, len), ts, id)
  {
    var pos := 0;
    ghost var gen := Read(disk, at, len);
    ghost var c: nat, seen: nat, parse := 0, 0, Records(gen, id);
    while pos < len
      invariant pos == c * 7168 && NoneBelow(parse, len, seen)
      invariant seen >= (if pos < len then pos else len) && (pos > 0 ==> Le64(At(gen, 0), 0) == ts)
    {
      var avail, i, limit := ChunkBounds(pos, len, c);
      if !readable(pos) { return None; }
      ReadInto(disk, at + pos, avail, buf);
      assert Loaded(buf[..], gen, pos, avail);
      if pos == 0 {
        HeaderLoaded(buf[..], gen, avail);
        if Le64(At(buf[..], 0), 0) != ts { return None; }
      }
      ld := ScanChunk(buf, c, i, limit, avail, id, gen, parse, seen);
      if ld.Some? { return; }
      seen := Larger(seen, pos + limit);
      pos, c := (pos + 7168) % 0x1_0000_0000, c + 1;
    }
    NothingFound(parse, len, seen);
    ld := None;
  }

  lemma HeaderLoaded(buf: Bytes, gen: Bytes, avail: nat)
    requires Loaded(buf, gen, 0, avail) && avail >= 8
    ensures Le64(At(buf, 0), 0) == Le64(At(gen, 0), 0)
  {
    WordLoaded(buf, gen, 0, avail, 0);
    WordLoaded(buf, gen, 0, avail, 4);
  }

  // ---------- commit block and metadata ----------

  datatype Commit = Commit(lba: nat, bytes: nat, ts: U64)

  /** rc_volume_read_commit: an extent inside the ring, or nothing. */
  function CommitOf(sector: Bytes, ringLba: nat, ringSize: nat): (c: Option<Commit>)
    ensures c.Some? ==>
      ringLba <= c.value.lba && c.value.lba * 512 + c.value.bytes <= (ringLba + ringSize) * 512
      && c.value.bytes > 0 && c.value.bytes % 512 == 0
  {
    var lba, bytes, ts := Word(sector, 0x08), Word(sector, 0x0C), Le64(At(sector, 0), 0x10);
    if lba < ringLba || lba >= ringLba + ringSize || bytes == 0 || bytes % 512 != 0
      || lba + bytes / 512 > ringLba + ringSize || ts == U64(0, 0)
    then None
    else Some(Commit(lba, bytes, ts))
  }

  datatype Metadata = Metadata(id: U64, commitLba: U64, ringLba: U64, ringSize: nat)

  datatype MdError = NoMagic | BadVersion | BadChecksum

  datatype MdResult = Valid(md: Metadata) | Invalid(error: MdError)

  type Lanes = s: seq<bv16> | |s| == 4 witness [0, 0, 0, 0]

  /** A 64-bit word of the block, as four 16-bit lanes. */
  function LanesAt(s: Bytes, i: nat): Lanes {
    [Half(s, i), Half(s, i + 2), Half(s, i + 4), Half(s, i + 6)]
  }

  function Half(s: Bytes, i: nat): bv16 {
    if i + 2 <= |s| then Joined(s[i], s[i + 1]) else 0
  }

  function Joined(lo: byte, hi: byte): bv16 {
    (lo as int + 0x100 * (hi as int)) as bv16
  }

  function Lane(w: Lanes): nat { (w[0] & 3) as nat }

  function XorLanes(a: Lanes, b: Lanes): Lanes {
    [a[0] ^ b[0], a[1] ^ b[1], a[2] ^ b[2], a[3] ^ b[3]]
  }

  function Swapped(w: Lanes, a: nat, b: nat): Lanes
    requires a < 4 && b < 4
  {
    w[a := w[b]][b := w[a]]
  }

  /** One round of rc_raidcore_checksum: the two lanes named by accumulator and word
    * change places, or two named by the round when those coincide. */
  function Round(acc: Lanes, w: Lanes, i: nat): Lanes {
    var a, b := Lane(acc), Lane(w);
    XorLanes(acc, if a == b then Swapped(w, i % 4, (i + 1) % 4) else Swapped(w, a, b))
  }

  function Checksum(s: Bytes, from: nat, words: nat): Lanes {
    if words == 0 then [0, 0, 0, 0]
    else Round(Checksum(s, from, words - 1), LanesAt(s, from + (words - 1) * 8), words - 1)
  }

  method ChecksumLoop(s: Bytes, from: nat, bytes: nat) returns (acc: Lanes)
    ensures acc == Checksum(s, from, bytes / 8)
  {
    acc := [0, 0, 0, 0];
    for i := 0 to bytes / 8
      invariant acc == Checksum(s, from, i)
    {
      var w := LanesAt(s, from + i * 8);
      acc := ChecksumRound(acc, w, i, Checksum(s, from, i + 1));
    }
  }

  /** next: what the round makes of the accumulator. */
  method ChecksumRound(acc: Lanes, word: Lanes, i: nat, ghost next: Lanes) returns (r: Lanes)
    requires next == Round(acc, word, i)
    ensures r == next
  {
    var w: seq<bv16>, laneA, laneB := word, Lane(acc), Lane(word);
    if laneA == laneB {
      laneA, laneB := i % 4, (i + 1) % 4;
    }
    var tmp := w[laneA];
    w := w[laneA := w[laneB]];
    w := w[laneB := tmp];
    r := XorLanes(acc, w);
  }

  /** The checks of rc_nvme_read_validate_metadata, in its order. */
  function MetadataOf(b: Bytes): MdResult
    requires |b| == 512
  {
    if Le64(At(b, 0), 0x08) != U64(0x4449_4152, 0x6572_6F43) then Invalid(NoMagic)
    else if Word(b, 0x2C) != 0x0003_0000 then Invalid(BadVersion)
    else if LanesAt(b, 0) != Checksum(b, 8, (|b| - 8) / 8) then Invalid(BadChecksum)
    else Valid(Metadata(Le64(At(b, 0), 0x10), Le64(At(b, 0), 0x18), Le64(At(b, 0), 0x20), Word(b, 0x28)))
  }

  /** The record this disk belongs to, from everything on it. */
  function LdOf(disk: Disk, md: Metadata): Option<Ld> {
    if md.ringLba == U64(0, 0) || md.commitLba == U64(0, 0) then None
    else
      var c := CommitOf(Read(disk, md.commitLba.Value() * 512, 512), md.ringLba.Value(), md.ringSize);
      if c.None? then None else Parsed(Read(disk, c.value.lba * 512, c.value.bytes), c.value.ts, md.id)
  }

  /** rc_volume_parse_logical_device, for a committed extent of at most 4 GiB - 2 KiB. */
  method ParseLogicalDevice(disk: Disk, md: Metadata, buf: array<byte>) returns (ld: Option<Ld>)
    requires buf.Length == 8192
    requires
      var c := CommitOf(Read(disk, md.commitLba.Value() * 512, 512), md.ringLba.Value(), md.ringSize);
      c.Some? ==> c.value.bytes <= 0xFFFF_F800
    modifies buf
    ensures ld == LdOf(disk, md)
  {
    if md.ringLba == U64(0, 0) || md.commitLba == U64(0, 0) { return None; }
    ReadInto(disk, md.commitLba.Value() * 512, 512, buf);
    var c := CommitOf(buf[..512], md.ringLba.Value(), md.ringSize);
    if c.None? { return None; }
    ld := ScanGeneration(disk, c.value.lba * 512, c.value.bytes, c.value.ts, md.id, buf, _ => true);
  }

  // ---------- what the result depends on ----------

  ghost predicate SameBytes(a: Disk, b: Disk, at: nat, len: nat) {
    forall i: nat :: at <= i < at + len ==> a(i) == b(i)
  }

  lemma SameRead(a: Disk, b: Disk, at: nat, len: nat)
    requires SameBytes(a, b, at, len)
    ensures Read(a, at, len) == Read(b, at, len)
  {
  }

  /** Two disks with the same metadata, commit sector and committed extent give the same
    * record, whatever else is in their rings: a deleted array's records never matter. */
  lemma OnlyTheCommittedExtent(a: Disk, b: Disk, md: Metadata)
    requires SameBytes(a, b, md.commitLba.Value() * 512, 512)
    requires var c := CommitOf(Read(a, md.commitLba.Value() * 512, 512), md.ringLba.Value(), md.ringSize);
      c.Some? ==> SameBytes(a, b, c.value.lba * 512, c.value.bytes)
    ensures LdOf(a, md) == LdOf(b, md)
  {
    SameRead(a, b, md.commitLba.Value() * 512, 512);
    var c := CommitOf(Read(a, md.commitLba.Value() * 512, 512), md.ringLba.Value(), md.ringSize);
    if c.Some? { SameRead(a, b, c.value.lba * 512, c.value.bytes); }
  }
}
