/** The scan of the committed config generation.  The simple form is one linear scan
  * of the whole extent; the fast form reads overlapping chunks of 8192 bytes, 7168
  * apart.  parse(p, lim) stands for the record at offset p when bytes up to lim can be
  * read. */
module ConfigScan {
  import opened Common

  type Lookup<T> = (nat, nat) -> Option<T>

  /** Reading further never changes a record that was already whole. */
  ghost predicate Monotone<T>(parse: Lookup<T>) {
    forall p: nat, a: nat, b: nat :: a <= b && parse(p, a).Some? ==> parse(p, b) == parse(p, a)
  }

  /** How far the chunk that accepts a tag at p reads. */
  function ChunkLimit(len: nat, p: nat): nat {
    var end := p / 7168 * 7168 + 8192;
    if end < len then end else len
  }

  function Limit(len: nat, p: nat, whole: bool): nat {
    if whole then len else ChunkLimit(len, p)
  }

  /** The first record at or after p, reading to the end of the generation or only to
    * the end of the record's chunk. */
  function First<T>(parse: Lookup<T>, len: nat, p: nat, whole: bool): Option<(nat, T)>
    decreases len - p
  {
    if p + 4 > len then None
    else
      var r := parse(p, Limit(len, p, whole));
      if r.Some? then Some((p, r.value)) else First(parse, len, p + 4, whole)
  }

  /** A record at p is the first from p on. */
  lemma FirstHere<T>(parse: Lookup<T>, len: nat, p: nat, whole: bool, value: T)
    requires p + 4 <= len && parse(p, Limit(len, p, whole)) == Some(value)
    ensures First(parse, len, p, whole) == Some((p, value))
  {
  }

  predicate Miss<T>(parse: Lookup<T>, len: nat, p: nat, whole: bool) {
    p + 4 <= len ==> parse(p, Limit(len, p, whole)).None?
  }

  /** Offsets the tag loop visits. */
  predicate Visited(p: nat) { p >= 0x200 && p % 4 == 0 }

  lemma {:induction false} FirstSkips<T>(parse: Lookup<T>, len: nat, p: nat, q: nat, whole: bool)
    requires Visited(p) && Visited(q) && p <= q
    requires forall k: nat :: p <= k < q && Visited(k) ==> Miss(parse, len, k, whole)
    ensures First(parse, len, p, whole) == First(parse, len, q, whole)
    decreases q - p
  {
    if p < q {
      assert Miss(parse, len, p, whole) && Visited(p + 4);
      FirstSkips(parse, len, p + 4, q, whole);
    }
  }

  lemma {:induction false} FirstIsHit<T>(parse: Lookup<T>, len: nat, p: nat, whole: bool)
    ensures var r := First(parse, len, p, whole);
      r.Some? ==>
        p <= r.value.0 <= len - 4 && (r.value.0 - p) % 4 == 0
        && parse(r.value.0, Limit(len, r.value.0, whole)) == Some(r.value.1)
    decreases len - p
  {
    if p + 4 <= len && parse(p, Limit(len, p, whole)).None? {
      FirstIsHit(parse, len, p + 4, whole);
    }
  }

  /** The chunked scan finds what one linear scan finds if and only if the record the
    * linear scan finds ends within the chunk that accepts its tag. */
  lemma {:induction false} ChunkedIsLinearIff<T>(parse: Lookup<T>, len: nat, p: nat)
    requires Monotone(parse)
    ensures var all := First(parse, len, p, true);
      First(parse, len, p, false) == all <==> all.None? || parse(all.value.0, ChunkLimit(len, all.value.0)).Some?
    decreases len - p
  {
    if p + 4 <= len {
      if parse(p, ChunkLimit(len, p)).Some? {
        assert parse(p, len) == parse(p, ChunkLimit(len, p));
      } else if parse(p, len).Some? {
        FirstIsHit(parse, len, p + 4, false);
      } else {
        ChunkedIsLinearIff(parse, len, p + 4);
      }
    }
  }

  // ---------- the chunk loop ----------

  /** Every offset below seen that the tag loop visits holds no record. */
  ghost predicate NoneBelow<T>(parse: Lookup<T>, len: nat, seen: nat) {
    forall k: nat :: k < seen && Visited(k) ==> Miss(parse, len, k, false)
  }

  lemma NothingFound<T>(parse: Lookup<T>, len: nat, seen: nat)
    requires NoneBelow(parse, len, seen) && seen >= len
    ensures First(parse, len, 0x200, false) == None
  {
    var q := if len < 0x200 then 0x200 else (len + 3) / 4 * 4;
    if q > 0x200 {
      forall k: nat | 0x200 <= k < q && Visited(k) ensures Miss(parse, len, k, false) {
        if k < seen { assert Visited(k); }
      }
    }
    assert Visited(q);
    FirstSkips(parse, len, 0x200, q, false);
  }

  lemma FoundHere<T>(parse: Lookup<T>, len: nat, p: nat)
    requires NoneBelow(parse, len, p) && Visited(p) && p + 4 <= len
    requires parse(p, ChunkLimit(len, p)).Some?
    ensures First(parse, len, 0x200, false) == Some((p, parse(p, ChunkLimit(len, p)).value))
  {
    FirstSkips(parse, len, 0x200, p, false);
  }

  /** v is what the chunked scan finds. */
  ghost predicate Finds<T>(parse: Lookup<T>, len: nat, v: T) {
    var r := First(parse, len, 0x200, false);
    r.Some? && r.value.1 == v
  }

  /** One turn of the tag loop, at offset p. */
  lemma HitOrMiss<T>(parse: Lookup<T>, len: nat, p: nat, seen: nat, hit: Option<T>)
    requires Visited(p) && p + 4 <= len && NoneBelow(parse, len, Larger(seen, p))
    requires hit == parse(p, ChunkLimit(len, p))
    ensures hit.Some? ==> Finds(parse, len, hit.value)
    ensures hit.None? ==> NoneBelow(parse, len, Larger(seen, p + 4))
  {
    if hit.Some? {
      FoundHere(parse, len, p);
    } else {
      forall k: nat | k < Larger(seen, p + 4) && Visited(k) ensures Miss(parse, len, k, false) {
        if k >= Larger(seen, p) { assert k == p; }
      }
    }
  }

  /** A chunk at a multiple of 7168 reads exactly as far as the tags it accepts need. */
  lemma LimitInChunk(len: nat, c: nat, i: nat)
    requires var pos := c * 7168; pos + i < len && (i < 7168 || pos + 8192 >= len)
    ensures var pos := c * 7168; ChunkLimit(len, pos + i) == (if pos + 8192 < len then pos + 8192 else len)
  {
    var pos := c * 7168;
    if i < 7168 {
      assert (pos + i) / 7168 == c;
    } else {
      assert (pos + i) / 7168 >= c + 1;
    }
  }

  // ---------- the end of the walk ----------

  /** The u32 position after k steps of 7168. */
  function Position(k: nat): nat {
    k * 7168 % 0x1_0000_0000
  }

  /** The walk ends on a generation of len bytes if and only if len is at most
    * 2^32 - 1024: the u32 position runs through every multiple of 1024 before it
    * repeats. */
  lemma WalkEndsIff(len: nat)
    ensures (exists k: nat :: Position(k) >= len) <==> len <= 0xFFFF_FC00
  {
    if len <= 0xFFFF_FC00 {
      assert Position(2396745) == 0xFFFF_FC00;
    }
    if k: nat :| Position(k) >= len {
      PositionIsWhole(k);
    }
  }

  lemma PositionIsWhole(k: nat)
    ensures Position(k) % 1024 == 0 && Position(k) <= 0xFFFF_FC00
  {
    var q := k * 7168 / 0x1_0000_0000;
    assert Position(k) == 1024 * (k * 7 - q * 0x40_0000);
  }
}
