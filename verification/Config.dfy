/** The LogicalDevice record of the config journal: what makes a tag hit the record of
  * the array this disk belongs to. */
module Config {
  import opened Common
  import opened ConfigScan

  type byte = b: int | 0 <= b < 256
  type Bytes = seq<byte>

  datatype Level = Raid0 | Raid1 | Raid10 | Unsupported

  /** A 64-bit number, by its two words. */
  datatype U64 = U64(lo: nat, hi: nat)
  {
    function Value(): nat { lo + 0x1_0000_0000 * hi }
  }

  function ToU64(n: nat): (r: U64)
    requires n < 0x1_0000_0000_0000_0000
    ensures r.Value() == n && r.lo < 0x1_0000_0000 && r.hi < 0x1_0000_0000
  {
    U64(n % 0x1_0000_0000, n / 0x1_0000_0000)
  }

  /** What a matching record tells the driver. */
  datatype Ld = Ld(devtype: nat, first: nat, second: nat, devices: nat, chunk: nat, chunkIndex: nat,
                   capacity: U64, position: nat, allocOffset: U64, allocSize: U64, userOffset: U64, userSize: U64)
  {
    function Level(): Level { LevelFrom(devtype, first, second, devices) }
  }

  /** get_unaligned_le32. */
  function Le32(s: Bytes, i: nat): (r: nat)
    requires i + 4 <= |s|
    ensures r < 0x1_0000_0000
  {
    s[i] as int + 0x100 * (s[i + 1] as int) + 0x1_0000 * (s[i + 2] as int) + 0x100_0000 * (s[i + 3] as int)
  }

  /** A record as the parser sees it: the 32-bit word at each offset from its tag. */
  type Reader = nat -> nat

  function Word(s: Bytes, i: nat): nat {
    if i + 4 <= |s| then Le32(s, i) else 0
  }

  function At(s: Bytes, i: nat): Reader {
    (k: nat) => Word(s, i + k)
  }

  /** get_unaligned_le64. */
  function Le64(r: Reader, k: nat): U64 {
    U64(r(k), r(k + 4))
  }

  /** rc_ld_level_from; the product is a u32. */
  function LevelFrom(devtype: nat, first: nat, second: nat, devices: nat): Level {
    if devtype == 0x1BF7 then
      if devices == 2 && (first == 0 || second == 0 || (first == 1 && second == 2)) then Raid1 else Unsupported
    else if devtype == 0x1BF6 then
      if first == 0 || second == 0 || (first * second) % 0x1_0000_0000 != devices then Unsupported
      else if second == 1 then Raid0
      else if first >= 2 && second == 2 then Raid10
      else Unsupported
    else Unsupported
  }

  /** Of the record types with the generic device type 0x1BF6, counts 1 x 2 are not
    * recognized as RAID1: only 0x1BF7 is.  The counts are any u32s, their product one. */
  lemma GenericLevels(first: nat, second: nat, devices: nat)
    requires first < 0x1_0000_0000 && second < 0x1_0000_0000
    ensures LevelFrom(0x1BF6, first, second, devices) != Raid1
    ensures LevelFrom(0x1BF6, first, second, devices) == Raid0 <==> first > 0 && second == 1 && first == devices
    ensures LevelFrom(0x1BF6, first, second, devices) == Raid10 <==>
              first >= 2 && second == 2 && (2 * first == devices || 2 * first == devices + 0x1_0000_0000)
              && devices < 0x1_0000_0000
  {
    if second == 1 {
      assert first * second == first;
    } else if second == 2 {
      assert first * second == 2 * first;
    }
  }

  /** Type 0x1BF7 is RAID1 or nothing: of two devices, with the counts absent or 1 x 2. */
  lemma MirrorLevels(first: nat, second: nat, devices: nat)
    ensures var l := LevelFrom(0x1BF7, first, second, devices);
      && (l == Raid1 || l == Unsupported)
      && (l == Raid1 <==> devices == 2 && (first == 0 || second == 0 || (first == 1 && second == 2)))
  {
  }

  /** Any other type is refused: parity arrays and single disks among them. */
  lemma OtherTypes(devtype: nat, first: nat, second: nat, devices: nat)
    ensures devtype != 0x1BF6 && devtype != 0x1BF7 ==> LevelFrom(devtype, first, second, devices) == Unsupported
  {
  }

  /** A stripe width of 2^31 + 1 passes for a RAID10 of two devices: twice that is 2 in
    * a u32. */
  lemma WrappedProduct()
    ensures LevelFrom(0x1BF6, 0x8000_0001, 2, 2) == Raid10
  {
    assert 0x8000_0001 * 2 == 0x1_0000_0000 + 2;
  }

  /** The first element at or after j that names this disk. */
  function FindElement(r: Reader, at: nat, devices: nat, id: U64, j: nat): (p: Option<nat>)
    ensures p.Some? ==> j <= p.value < devices && Le64(r, at + p.value * 64) == id
    decreases devices - j
  {
    if j >= devices then None
    else if Le64(r, at + j * 64) == id then Some(j)
    else FindElement(r, at, devices, id, j + 1)
  }

  /** The record with room readable bytes from its tag on: None for anything that is not
    * the array this disk belongs to. */
  function Parse(r: Reader, room: nat, id: U64): Option<Ld> {
    if r(0) != 0x25BD || 0x114 > room then None
    else ParseTagged(r, room, id, r(0x68), r(0x04))
  }

  function ParseTagged(r: Reader, room: nat, id: U64, devices: nat, elemOff: nat): Option<Ld> {
    if devices < 1 || devices > 8 || elemOff + devices * 64 > room then None
    else ParseElements(r, elemOff, devices, id, FindElement(r, elemOff, devices, id, 0))
  }

  /** A record of one device is a disk's own raw record, not an array. */
  function ParseElements(r: Reader, elemOff: nat, devices: nat, id: U64, j: Option<nat>): Option<Ld> {
    if j.None? || devices < 2 then None else Some(Fields(r, elemOff + j.value * 64, j.value))
  }

  /** The fields of a record whose element at e, position j, is this disk's. */
  function Fields(r: Reader, e: nat, j: nat): Ld {
    Ld(r(0x0C), r(0x6C), r(0x70), r(0x68), r(0xAC), r(0x110), Le64(r, 0x50), j,
       Le64(r, e + 0x10), Le64(r, e + 0x18), Le64(r, e + 0x20), Le64(r, e + 0x28))
  }

  /** Two views that show the same room bytes. */
  ghost predicate Agree(a: Reader, b: Reader, room: nat) {
    forall k: nat :: k + 4 <= room ==> a(k) == b(k)
  }

  lemma ElementAgrees(a: Reader, b: Reader, room: nat, e: nat)
    requires Agree(a, b, room) && e + 64 <= room
    ensures Le64(a, e) == Le64(b, e)
  {
    assert a(e) == b(e) && a(e + 4) == b(e + 4);
  }

  lemma {:induction false} FindAgrees(a: Reader, b: Reader, room: nat, at: nat, devices: nat, id: U64, j: nat)
    requires Agree(a, b, room) && at + devices * 64 <= room
    ensures FindElement(a, at, devices, id, j) == FindElement(b, at, devices, id, j)
    decreases devices - j
  {
    if j < devices {
      ElementAgrees(a, b, room, at + j * 64);
      FindAgrees(a, b, room, at, devices, id, j + 1);
    }
  }

  /** What lies beyond the bytes that were read has no part in the result. */
  lemma ParseAgrees(a: Reader, b: Reader, room: nat, id: U64)
    requires Agree(a, b, room) && room >= 4
    ensures Parse(a, room, id) == Parse(b, room, id)
  {
    assert a(0) == b(0);
    if 0x114 <= room {
      assert a(0x68) == b(0x68) && a(0x04) == b(0x04);
      TaggedAgrees(a, b, room, id, a(0x68), a(0x04));
    }
  }

  lemma TaggedAgrees(a: Reader, b: Reader, room: nat, id: U64, devices: nat, elemOff: nat)
    requires Agree(a, b, room) && 0x114 <= room
    ensures ParseTagged(a, room, id, devices, elemOff) == ParseTagged(b, room, id, devices, elemOff)
  {
    if 1 <= devices <= 8 && elemOff + devices * 64 <= room {
      FindAgrees(a, b, room, elemOff, devices, id, 0);
      ElementsAgree(a, b, room, elemOff, devices, id, FindElement(a, elemOff, devices, id, 0));
    }
  }

  lemma ElementsAgree(a: Reader, b: Reader, room: nat, elemOff: nat, devices: nat, id: U64, j: Option<nat>)
    requires Agree(a, b, room) && 0x114 <= room && elemOff + devices * 64 <= room && (j.Some? ==> j.value < devices)
    ensures ParseElements(a, elemOff, devices, id, j) == ParseElements(b, elemOff, devices, id, j)
  {
    if j.Some? { FieldsAgree(a, b, room, elemOff + j.value * 64, j.value); }
  }

  lemma FieldsAgree(a: Reader, b: Reader, room: nat, e: nat, j: nat)
    requires Agree(a, b, room) && 0x114 <= room && e + 64 <= room
    ensures Fields(a, e, j) == Fields(b, e, j)
  {
  }

  /** The parse the scan runs over a generation. */
  function Records(gen: Bytes, id: U64): Lookup<Ld> {
    (p: nat, lim: nat) => Parse(At(gen, p), if lim > p then lim - p else 0, id)
  }

  lemma MoreRoom(r: Reader, a: nat, b: nat, id: U64)
    requires a <= b && Parse(r, a, id).Some?
    ensures Parse(r, b, id) == Parse(r, a, id)
  {
  }

  lemma RecordsMonotone(gen: Bytes, id: U64)
    ensures Monotone(Records(gen, id))
  {
    forall p: nat, a: nat, b: nat | a <= b && Records(gen, id)(p, a).Some?
      ensures Records(gen, id)(p, b) == Records(gen, id)(p, a)
    {
      MoreRoom(At(gen, p), if a > p then a - p else 0, if b > p then b - p else 0, id);
    }
  }

  /** A LogicalDevice tag where the tag loop looks for one. */
  predicate Tagged(gen: Bytes, p: nat) {
    Visited(p) && p + 4 <= |gen| && Word(gen, p) == 0x25BD
  }

  /** How many bytes the parse of the record at p looks at: its fixed fields and its
    * element array. */
  function Extent(gen: Bytes, p: nat): nat {
    var elems := Word(gen, p + 0x04) + Word(gen, p + 0x68) * 64;
    if elems < 0x114 then 0x114 else elems
  }

  /** Every tagged record fits the overlap of two chunks. */
  ghost predicate AllSmall(gen: Bytes) {
    forall p: nat :: Tagged(gen, p) ==> Extent(gen, p) <= 1024
  }

  /** The chunked scan finds what one linear scan of the whole generation finds, if and
    * only if there is nothing to find or the first record ends within the chunk that
    * accepts its tag. */
  lemma ChunkedFindsIff(gen: Bytes, id: U64)
    ensures
      var all := First(Records(gen, id), |gen|, 0x200, true);
      First(Records(gen, id), |gen|, 0x200, false) == all <==>
      all.None? || Extent(gen, all.value.0) <= ChunkLimit(|gen|, all.value.0) - all.value.0
  {
    var parse := Records(gen, id);
    RecordsMonotone(gen, id);
    ChunkedIsLinearIff(parse, |gen|, 0x200);
    FirstIsHit(parse, |gen|, 0x200, true);
    var all := First(parse, |gen|, 0x200, true);
    if all.Some? {
      LimitPast(|gen|, all.value.0);
      WholeIff(gen, id, all.value.0, ChunkLimit(|gen|, all.value.0));
    }
  }

  lemma LimitPast(len: nat, p: nat)
    requires p < len
    ensures p < ChunkLimit(len, p) <= len
    ensures ChunkLimit(len, p) == len || ChunkLimit(len, p) - p > 1024
  {
    assert p < p / 7168 * 7168 + 7168;
  }

  /** A record read whole is read up to lim exactly when its extent fits. */
  lemma WholeIff(gen: Bytes, id: U64, p: nat, lim: nat)
    requires p < lim <= |gen| && Records(gen, id)(p, |gen|).Some?
    ensures Records(gen, id)(p, lim).Some? <==> Extent(gen, p) <= lim - p
  {
    RoomIff(At(gen, p), |gen| - p, lim - p, id);
  }

  lemma RoomIff(r: Reader, whole: nat, room: nat, id: U64)
    requires Parse(r, whole, id).Some? && room <= whole
    ensures Parse(r, room, id).Some? <==> 0x114 <= room && r(0x04) + r(0x68) * 64 <= room
  {
  }

  /** With tagged records of at most 1 KiB, the chunked scan of a generation of any
    * length finds the first record that one linear scan finds. */
  lemma ChunkedIsLinear(gen: Bytes, id: U64)
    requires AllSmall(gen)
    ensures First(Records(gen, id), |gen|, 0x200, false) == First(Records(gen, id), |gen|, 0x200, true)
  {
    ChunkedFindsIff(gen, id);
    var all := First(Records(gen, id), |gen|, 0x200, true);
    FirstIsHit(Records(gen, id), |gen|, 0x200, true);
    if all.Some? { SmallFits(gen, id, all.value.0); }
  }

  lemma SmallFits(gen: Bytes, id: U64, p: nat)
    requires AllSmall(gen) && Visited(p) && p + 4 <= |gen| && Records(gen, id)(p, |gen|).Some?
    ensures Extent(gen, p) <= ChunkLimit(|gen|, p) - p
  {
    HitIsTagged(At(gen, p), |gen| - p, id);
    assert Tagged(gen, p);
    LimitPast(|gen|, p);
    WholeIff(gen, id, p, |gen|);
  }

  lemma HitIsTagged(r: Reader, room: nat, id: U64)
    requires Parse(r, room, id).Some?
    ensures r(0) == 0x25BD
  {
  }
}
