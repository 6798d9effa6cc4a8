/** The multi-stripe fan-out: one start LBA, one length and one scatter list per
  * member, built in a single walk over the request's memory fragments.
  *
  * A scatter list stands for the sequence of byte addresses the device walks
  * through (Flatten).  `own[i]` is the set of members that sector i of the request
  * is dealt to.  ExactIffNoGap is the main result: the one-command-per-member form
  * puts every sector where the per-sector map puts it exactly when no member skips
  * a sector of its column between two that it got.
  */
module FanOut {
  import opened Common
  import opened Striping

  /** A piece of memory: a bio_vec, or one scatterlist entry. */
  datatype Frag = Frag(addr: nat, len: nat)

  /** What one member is told: member_has_data, member_start_lba (less the member's
    * own base offset), member_sectors and its scatter list. */
  datatype Part = Part(has: bool, start: nat, sectors: nat, sg: seq<Frag>)

  const EMPTY := Part(false, 0, 0, [])

  /** Where the dispatch puts a logical sector on its member. */
  type Place = nat -> nat

  // ---------- scatter lists ----------

  function Range(addr: nat, len: nat): (r: seq<nat>)
    ensures |r| == len
  {
    seq(len, (i: nat) => addr + i)
  }

  function Flatten(fs: seq<Frag>): seq<nat> {
    if fs == [] then [] else Flatten(fs[..|fs| - 1]) + Range(fs[|fs| - 1].addr, fs[|fs| - 1].len)
  }

  /** The number of maximal runs of consecutive addresses. */
  function Runs(a: seq<nat>): nat {
    if a == [] then 0
    else Runs(a[..|a| - 1]) + (if |a| > 1 && a[|a| - 1] == a[|a| - 2] + 1 then 0 else 1)
  }

  /** Every entry is non-empty and never continues the one before it. */
  predicate Merged(fs: seq<Frag>) {
    && (forall i :: 0 <= i < |fs| ==> fs[i].len > 0)
    && (forall i :: 0 < i < |fs| ==> fs[i].addr != fs[i - 1].addr + fs[i - 1].len)
  }

  /** rc_volume_sg_append: extend the last entry, add one, or report a full list. */
  function Append(sg: seq<Frag>, f: Frag, max: nat): Option<seq<Frag>> {
    var n := |sg|;
    if n > 0 && f.addr == sg[n - 1].addr + sg[n - 1].len
    then Some(sg[n - 1 := Frag(sg[n - 1].addr, sg[n - 1].len + f.len)])
    else if n >= max then None
    else Some(sg + [f])
  }

  lemma RangeSplit(addr: nat, a: nat, b: nat)
    ensures Range(addr, a + b) == Range(addr, a) + Range(addr + a, b)
  {
  }

  lemma FlattenSnoc(fs: seq<Frag>, f: Frag)
    ensures Flatten(fs + [f]) == Flatten(fs) + Range(f.addr, f.len)
  {
    assert (fs + [f])[..|fs|] == fs;
  }

  lemma {:induction false} FlattenPrefix(fs: seq<Frag>, i: nat)
    requires i <= |fs|
    ensures Flatten(fs[..i]) <= Flatten(fs)
    decreases |fs|
  {
    if i == |fs| {
      assert fs[..i] == fs;
    } else {
      var init := fs[..|fs| - 1];
      FlattenPrefix(init, i);
      assert init[..i] == fs[..i];
    }
  }

  lemma {:induction false} RunsOfRange(a: seq<nat>, addr: nat, len: nat)
    requires len > 0
    ensures Runs(a + Range(addr, len))
         == Runs(a) + (if |a| > 0 && addr == a[|a| - 1] + 1 then 0 else 1)
    decreases len
  {
    var s := a + Range(addr, len);
    assert s[..|s| - 1] == a + Range(addr, len - 1);
    if len == 1 {
      assert a + Range(addr, 0) == a;
    } else {
      RunsOfRange(a, addr, len - 1);
    }
  }

  lemma {:induction false} RunsMonotone(a: seq<nat>, b: seq<nat>)
    ensures Runs(a) <= Runs(a + b)
    decreases |b|
  {
    if b == [] {
      assert a + b == a;
    } else {
      var s := a + b;
      assert s[..|s| - 1] == a + b[..|b| - 1];
      RunsMonotone(a, b[..|b| - 1]);
    }
  }

  /** The bytes so far end where the last entry ends. */
  lemma LastAddress(sg: seq<Frag>)
    requires Merged(sg) && sg != []
    ensures var a := Flatten(sg); var f := sg[|sg| - 1];
      a != [] && a[|a| - 1] + 1 == f.addr + f.len
  {
    var f := sg[|sg| - 1];
    var r := Range(f.addr, f.len);
    assert r[f.len - 1] == f.addr + f.len - 1;
  }

  /** Merging loses no byte, reorders none, and keeps the list as short as the
    * addresses allow: it is full exactly when they need more than max runs. */
  lemma AppendKeepsBytes(sg: seq<Frag>, f: Frag, max: nat)
    requires Merged(sg) && f.len > 0 && |sg| == Runs(Flatten(sg)) <= max
    ensures var whole := Flatten(sg) + Range(f.addr, f.len); var r := Append(sg, f, max);
      && (r.Some? <==> Runs(whole) <= max)
      && (r.Some? ==> Merged(r.value) && Flatten(r.value) == whole && |r.value| == Runs(whole))
  {
    RunsAppended(sg, f);
    AppendFlattens(sg, f, max);
    AppendMerges(sg, f, max);
  }

  lemma AppendFlattens(sg: seq<Frag>, f: Frag, max: nat)
    ensures var r := Append(sg, f, max); r.Some? ==> Flatten(r.value) == Flatten(sg) + Range(f.addr, f.len)
  {
    if sg != [] && f.addr == sg[|sg| - 1].addr + sg[|sg| - 1].len {
      AppendExtends(sg, f);
    } else {
      FlattenSnoc(sg, f);
    }
  }

  lemma AppendMerges(sg: seq<Frag>, f: Frag, max: nat)
    requires Merged(sg) && f.len > 0
    ensures var r := Append(sg, f, max); r.Some? ==> Merged(r.value)
  {
  }

  lemma RunsAppended(sg: seq<Frag>, f: Frag)
    requires Merged(sg) && f.len > 0
    ensures Runs(Flatten(sg) + Range(f.addr, f.len)) == Runs(Flatten(sg))
      + (if sg != [] && f.addr == sg[|sg| - 1].addr + sg[|sg| - 1].len then 0 else 1)
  {
    RunsOfRange(Flatten(sg), f.addr, f.len);
    if sg != [] { LastAddress(sg); }
  }

  lemma AppendExtends(sg: seq<Frag>, f: Frag)
    requires sg != [] && f.addr == sg[|sg| - 1].addr + sg[|sg| - 1].len
    ensures var last := sg[|sg| - 1];
      Flatten(sg[|sg| - 1 := Frag(last.addr, last.len + f.len)]) == Flatten(sg) + Range(f.addr, f.len)
  {
    var n, last := |sg|, sg[|sg| - 1];
    var r := sg[n - 1 := Frag(last.addr, last.len + f.len)];
    assert r[..n - 1] == sg[..n - 1];
    RangeSplit(last.addr, last.len, f.len);
  }

  // ---------- dealing sectors to members ----------

  /** How many sectors of own go to member m. */
  function Count(own: seq<set<nat>>, m: nat): (r: nat)
    ensures r <= |own|
  {
    if own == [] then 0
    else Count(own[..|own| - 1], m) + (if m in own[|own| - 1] then 1 else 0)
  }

  /** The memory of the sectors dealt to m, in request order. */
  function Picked(blocks: seq<seq<nat>>, own: seq<set<nat>>, m: nat): (r: seq<seq<nat>>)
    requires |own| <= |blocks|
    ensures |r| == Count(own, m)
  {
    if own == [] then []
    else
      var n := |own| - 1;
      Picked(blocks, own[..n], m) + (if m in own[n] then [blocks[n]] else [])
  }

  /** The 512 addresses at place i. */
  function Block(a: seq<nat>, i: nat): seq<nat>
    requires (i + 1) * 512 <= |a|
  {
    a[i * 512..(i + 1) * 512]
  }

  /** A request's memory, sector by sector. */
  function BlocksOf(a: seq<nat>): (r: seq<seq<nat>>)
    ensures |r| == |a| / 512 && Uniform(r)
  {
    seq(|a| / 512, (i: nat) requires i < |a| / 512 => Block(a, i))
  }

  predicate Uniform(bs: seq<seq<nat>>) {
    forall i :: 0 <= i < |bs| ==> |bs[i]| == 512
  }

  function Join(bs: seq<seq<nat>>): seq<nat> {
    if bs == [] then [] else Join(bs[..|bs| - 1]) + bs[|bs| - 1]
  }

  lemma {:induction false} JoinAppend(a: seq<seq<nat>>, b: seq<seq<nat>>)
    ensures Join(a + b) == Join(a) + Join(b)
    decreases |b|
  {
    if b == [] {
      assert a + b == a;
    } else {
      var init := b[..|b| - 1];
      JoinAppend(a, init);
      assert (a + b)[..|a + b| - 1] == a + init;
    }
  }

  lemma {:induction false} JoinLength(bs: seq<seq<nat>>)
    requires Uniform(bs)
    ensures |Join(bs)| == |bs| * 512
    decreases |bs|
  {
    if bs != [] { JoinLength(bs[..|bs| - 1]); }
  }

  lemma {:induction false} JoinAt(bs: seq<seq<nat>>, i: nat)
    requires Uniform(bs) && i < |bs|
    ensures |Join(bs)| == |bs| * 512 && Block(Join(bs), i) == bs[i]
    decreases |bs|
  {
    var init := bs[..|bs| - 1];
    JoinLength(bs);
    JoinLength(init);
    if i < |init| { JoinAt(init, i); }
  }

  lemma {:induction false} JoinIsSlice(a: seq<nat>, i: nat, j: nat)
    requires i <= j <= |a| / 512
    ensures Join(BlocksOf(a)[i..j]) == a[i * 512..j * 512]
    decreases j
  {
    var bs := BlocksOf(a)[i..j];
    if i < j {
      JoinIsSlice(a, i, j - 1);
      assert bs[..|bs| - 1] == BlocksOf(a)[i..j - 1];
      assert a[i * 512..j * 512] == a[i * 512..(j - 1) * 512] + Block(a, j - 1);
    }
  }

  lemma {:induction false} PickedUniform(blocks: seq<seq<nat>>, own: seq<set<nat>>, m: nat)
    requires |own| <= |blocks| && Uniform(blocks)
    ensures Uniform(Picked(blocks, own, m))
    decreases |own|
  {
    if own != [] { PickedUniform(blocks, own[..|own| - 1], m); }
  }

  /** longer deals the sectors from |own| on to m, or all of them past m. */
  predicate Extends(own: seq<set<nat>>, longer: seq<set<nat>>, m: nat, take: bool) {
    own <= longer && forall i :: |own| <= i < |longer| ==> (m in longer[i] <==> take)
  }

  lemma {:induction false} CountPiece(own: seq<set<nat>>, longer: seq<set<nat>>, m: nat, take: bool)
    requires Extends(own, longer, m, take)
    ensures Count(longer, m) == Count(own, m) + (if take then |longer| - |own| else 0)
    decreases |longer|
  {
    if |own| == |longer| {
      assert own == longer;
    } else {
      CountPiece(own, longer[..|longer| - 1], m, take);
    }
  }

  /** The sectors dealt to m add their memory. */
  lemma {:induction false} PickedPiece(blocks: seq<seq<nat>>, own: seq<set<nat>>, longer: seq<set<nat>>, m: nat)
    requires |longer| <= |blocks| && Extends(own, longer, m, true)
    ensures Picked(blocks, longer, m) == Picked(blocks, own, m) + blocks[|own|..|longer|]
    decreases |longer|
  {
    if |own| == |longer| {
      assert own == longer;
    } else {
      PickedPiece(blocks, own, longer[..|longer| - 1], m);
    }
  }

  /** The sectors dealt past m add none. */
  lemma {:induction false} SkippedPiece(blocks: seq<seq<nat>>, own: seq<set<nat>>, longer: seq<set<nat>>, m: nat)
    requires |longer| <= |blocks| && Extends(own, longer, m, false)
    ensures Picked(blocks, longer, m) == Picked(blocks, own, m)
    decreases |longer|
  {
    if |own| == |longer| {
      assert own == longer;
    } else {
      SkippedPiece(blocks, own, longer[..|longer| - 1], m);
    }
  }

  /** What a longer deal picks starts with what a shorter one picks. */
  lemma {:induction false} PickedPrefix(blocks: seq<seq<nat>>, own: seq<set<nat>>, i: nat, m: nat)
    requires |own| <= |blocks| && i <= |own|
    ensures Picked(blocks, own[..i], m) <= Picked(blocks, own, m)
    decreases |own|
  {
    if i == |own| {
      assert own[..i] == own;
    } else {
      var init := own[..|own| - 1];
      PickedPrefix(blocks, init, i, m);
      assert init[..i] == own[..i];
    }
  }

  /** Member m's command, as far as own has been dealt. */
  ghost predicate Follows(p: Part, blocks: seq<seq<nat>>, own: seq<set<nat>>, m: nat,
                          pos: nat, at: Place, max: nat)
  {
    Lists(p.sg, blocks, own, m, max) && Counts(p, own, m, pos, at)
  }

  /** The scatter list holds the memory dealt to m, in as few entries as it can. */
  ghost predicate Lists(sg: seq<Frag>, blocks: seq<seq<nat>>, own: seq<set<nat>>, m: nat, max: nat) {
    && |own| <= |blocks| && Uniform(blocks)
    && Merged(sg) && |sg| == Runs(Flatten(sg)) <= max
    && Flatten(sg) == Join(Picked(blocks, own, m))
  }

  /** The start is where the first sector dealt to m lies. */
  ghost predicate Counts(p: Part, own: seq<set<nat>>, m: nat, pos: nat, at: Place) {
    && p.sectors == Count(own, m)
    && (p.has <==> p.sectors > 0)
    && (p.has ==> p.start == at(pos + First(own, m)))
  }

  /** A command as long as its list, which has at most max entries; no sectors, no command. */
  predicate Sized(p: Part, max: nat) {
    |Flatten(p.sg)| == p.sectors * 512 && |p.sg| <= max && (p.has <==> p.sectors > 0)
  }

  lemma FollowsSized(p: Part, blocks: seq<seq<nat>>, own: seq<set<nat>>, m: nat, pos: nat, at: Place, max: nat)
    requires Follows(p, blocks, own, m, pos, at, max)
    ensures Sized(p, max)
  {
    PickedUniform(blocks, own, m);
    JoinLength(Picked(blocks, own, m));
  }

  /** The first sector dealt to m, when there is one. */
  function First(own: seq<set<nat>>, m: nat): nat {
    if own == [] then 0
    else if Count(own[..|own| - 1], m) > 0 then First(own[..|own| - 1], m)
    else |own| - 1
  }

  // ---------- positions ----------

  /** The striping map as a placement. */
  function Striped(stripe: nat, cols: nat): (r: Place)
    requires stripe > 0 && cols > 0
  {
    (x: nat) => Phys(x, stripe, cols)
  }

  /** Rank of x in column c: how many sectors below x the column stores. */
  function Rank(x: nat, c: nat, stripe: nat, cols: nat): int
    requires stripe > 0 && cols > 0
  {
    var row, col := x / stripe / cols, Column(x, stripe, cols);
    if c < col then (row + 1) * stripe
    else if c == col then Phys(x, stripe, cols)
    else row * stripe
  }

  lemma RankStep(x: nat, c: nat, stripe: nat, cols: nat)
    requires stripe > 0 && c < cols
    ensures Rank(x + 1, c, stripe, cols)
         == Rank(x, c, stripe, cols) + (if Column(x, stripe, cols) == c then 1 else 0)
  {
    if x % stripe + 1 < stripe {
      RunWithinStripe(x, 1, stripe, cols);
    } else {
      NextStripe(x, stripe, cols);
    }
  }

  /** The last sector of a stripe is followed by the first of the next column, or
    * of the next row. */
  lemma NextStripe(x: nat, stripe: nat, cols: nat)
    requires stripe > 0 && cols > 0 && x % stripe + 1 == stripe
    ensures (x + 1) % stripe == 0
    ensures var row, col := x / stripe / cols, Column(x, stripe, cols);
      if col + 1 < cols then (x + 1) / stripe / cols == row && Column(x + 1, stripe, cols) == col + 1
      else (x + 1) / stripe / cols == row + 1 && Column(x + 1, stripe, cols) == 0
    ensures Phys(x, stripe, cols) + 1 == (x / stripe / cols + 1) * stripe
    ensures Phys(x + 1, stripe, cols) == (x + 1) / stripe / cols * stripe
  {
    var s := x / stripe;
    DivUnique(x + 1, s + 1, 0, stripe);
    var row, col := s / cols, s % cols;
    if col + 1 < cols {
      DivUnique(s + 1, row, col + 1, cols);
    } else {
      DivUnique(s + 1, row + 1, 0, cols);
    }
  }

  /** No two owners of a sector lie outside its column. */
  predicate InColumn(own: seq<set<nat>>, pos: nat, stripe: nat, cols: nat, colOf: nat -> nat)
    requires stripe > 0 && cols > 0
  {
    forall i, m :: 0 <= i < |own| && m in own[i] ==> colOf(m) == Column(pos + i, stripe, cols)
  }

  /** Between sectors a and b of the request, member m gets no more sectors than its
    * column has, and as many exactly when it skips none. */
  lemma {:induction false} CountAgainstRank(own: seq<set<nat>>, m: nat, a: nat, b: nat, pos: nat,
                                            stripe: nat, cols: nat, colOf: nat -> nat)
    requires stripe > 0 && colOf(m) < cols && InColumn(own, pos, stripe, cols, colOf)
    requires a <= b <= |own|
    ensures var rank := Rank(pos + b, colOf(m), stripe, cols) - Rank(pos + a, colOf(m), stripe, cols);
      var got := Count(own[..b], m) - Count(own[..a], m);
      && 0 <= got <= rank
      && (got == rank <==> forall i :: a <= i < b && Column(pos + i, stripe, cols) == colOf(m) ==> m in own[i])
    decreases b - a
  {
    if a < b {
      CountAgainstRank(own, m, a, b - 1, pos, stripe, cols, colOf);
      assert own[..b][..b - 1] == own[..b - 1];
      RankStep(pos + b - 1, colOf(m), stripe, cols);
    }
  }

  // ---------- the fast form against the per-sector map ----------

  /** The memory that member p's command joins to sector q of the member. */
  function Lands(p: Part, q: nat): Option<seq<nat>> {
    var a := Flatten(p.sg);
    if p.has && p.start <= q < p.start + p.sectors && (q - p.start + 1) * 512 <= |a|
    then Some(Block(a, q - p.start))
    else None
  }

  /** What the per-sector map joins to sector q of member m: the memory of the one
    * logical sector stored there, if the request has it and deals it to m. */
  function Wanted(blocks: seq<seq<nat>>, own: seq<set<nat>>, m: nat, c: nat, q: nat,
                  pos: nat, stripe: nat, cols: nat): Option<seq<nat>>
    requires stripe > 0 && cols > 0 && |own| <= |blocks|
  {
    var x := Logical(c, q, stripe, cols);
    if pos <= x < pos + |own| && m in own[x - pos] then Some(blocks[x - pos]) else None
  }

  /** Member m's one command does what the map asks, sector by sector. */
  ghost predicate Exact(p: Part, blocks: seq<seq<nat>>, own: seq<set<nat>>, m: nat, c: nat,
                        pos: nat, stripe: nat, cols: nat)
    requires stripe > 0 && cols > 0 && |own| <= |blocks|
  {
    forall q: nat :: Lands(p, q) == Wanted(blocks, own, m, c, q, pos, stripe, cols)
  }

  /** Sector b of the request lies on m's column, between two sectors dealt to m,
    * and is not. */
  predicate Gap(own: seq<set<nat>>, m: nat, c: nat, pos: nat, stripe: nat, cols: nat, a: nat, b: nat, d: nat)
    requires stripe > 0 && cols > 0
  {
    a < b < d < |own| && m in own[a] && m in own[d] && m !in own[b] && Column(pos + b, stripe, cols) == c
  }

  ghost predicate NoGap(own: seq<set<nat>>, m: nat, c: nat, pos: nat, stripe: nat, cols: nat)
    requires stripe > 0 && cols > 0
  {
    forall a, b, d :: 0 <= a && 0 <= b && 0 <= d ==> !Gap(own, m, c, pos, stripe, cols, a, b, d)
  }

  lemma {:induction false} PickedAt(blocks: seq<seq<nat>>, own: seq<set<nat>>, m: nat, i: nat)
    requires |own| <= |blocks| && i < |own| && m in own[i]
    ensures Count(own[..i], m) < Count(own, m)
    ensures Picked(blocks, own, m)[Count(own[..i], m)] == blocks[i]
    decreases |own|
  {
    var n := |own| - 1;
    if i == n {
    } else {
      PickedAt(blocks, own[..n], m, i);
      assert own[..n][..i] == own[..i];
    }
  }

  /** Every place of the command belongs to some sector of the request. */
  lemma {:induction false} PlaceHasSector(own: seq<set<nat>>, m: nat, k: nat) returns (i: nat)
    requires k < Count(own, m)
    ensures i < |own| && m in own[i] && Count(own[..i], m) == k
    decreases |own|
  {
    var n := |own| - 1;
    if k < Count(own[..n], m) {
      i := PlaceHasSector(own[..n], m, k);
      assert own[..n][..i] == own[..i];
    } else {
      i := n;
    }
  }

  /** First is the first: m gets it, and nothing before it. */
  lemma {:induction false} FirstIsFirst(own: seq<set<nat>>, m: nat, i: nat)
    requires i < |own| && m in own[i]
    ensures var f := First(own, m);
      f <= i && m in own[f] && Count(own[..f], m) == 0 && Count(own, m) > 0
    decreases |own|
  {
    var init := own[..|own| - 1];
    if Count(init, m) > 0 {
      var j := PlaceHasSector(init, m, 0);
      if i < |init| { FirstIsFirst(init, m, i); } else { FirstIsFirst(init, m, j); }
      assert init[..First(init, m)] == own[..First(init, m)];
    } else if i < |init| {
      PickedNone(init, m, i);
    }
  }

  lemma {:induction false} PickedNone(own: seq<set<nat>>, m: nat, i: nat)
    requires Count(own, m) == 0 && i < |own|
    ensures m !in own[i]
    decreases |own|
  {
    if i < |own| - 1 { PickedNone(own[..|own| - 1], m, i); }
  }

  /** With no gap, sector i lands at its own physical sector. */
  lemma NoGapPlaces(p: Part, blocks: seq<seq<nat>>, own: seq<set<nat>>, m: nat, pos: nat,
                    stripe: nat, cols: nat, max: nat, colOf: nat -> nat, i: nat)
    requires stripe > 0 && colOf(m) < cols && InColumn(own, pos, stripe, cols, colOf)
    requires Follows(p, blocks, own, m, pos, Striped(stripe, cols), max)
    requires NoGap(own, m, colOf(m), pos, stripe, cols)
    requires i < |own| && m in own[i]
    ensures Phys(pos + i, stripe, cols) == p.start + Count(own[..i], m)
  {
    var f := First(own, m);
    FirstIsFirst(own, m, i);
    CountAgainstRank(own, m, f, i, pos, stripe, cols, colOf);
    forall b | f <= b < i && Column(pos + b, stripe, cols) == colOf(m) ensures m in own[b] {
      assert !Gap(own, m, colOf(m), pos, stripe, cols, f, b, i);
    }
  }

  /** Sector i is at place Count(own[..i], m) of m's scatter list. */
  lemma LandsAt(p: Part, blocks: seq<seq<nat>>, own: seq<set<nat>>, m: nat, pos: nat,
                stripe: nat, cols: nat, max: nat, i: nat)
    requires stripe > 0 && cols > 0 && Follows(p, blocks, own, m, pos, Striped(stripe, cols), max)
    requires i < |own| && m in own[i]
    ensures Lands(p, p.start + Count(own[..i], m)) == Some(blocks[i])
  {
    PickedAt(blocks, own, m, i);
    PickedUniform(blocks, own, m);
    JoinAt(Picked(blocks, own, m), Count(own[..i], m));
  }

  lemma NoGapIsExact(p: Part, blocks: seq<seq<nat>>, own: seq<set<nat>>, m: nat, pos: nat,
                     stripe: nat, cols: nat, max: nat, colOf: nat -> nat)
    requires stripe > 0 && colOf(m) < cols && InColumn(own, pos, stripe, cols, colOf)
    requires Follows(p, blocks, own, m, pos, Striped(stripe, cols), max)
    requires NoGap(own, m, colOf(m), pos, stripe, cols)
    ensures Exact(p, blocks, own, m, colOf(m), pos, stripe, cols)
  {
    var c := colOf(m);
    forall q: nat ensures Lands(p, q) == Wanted(blocks, own, m, c, q, pos, stripe, cols) {
      var x := Logical(c, q, stripe, cols);
      MapOfLogical(c, q, stripe, cols);
      if pos <= x < pos + |own| && m in own[x - pos] {
        NoGapPlaces(p, blocks, own, m, pos, stripe, cols, max, colOf, x - pos);
        LandsAt(p, blocks, own, m, pos, stripe, cols, max, x - pos);
      } else if p.has && p.start <= q < p.start + p.sectors {
        var i := PlaceHasSector(own, m, q - p.start);
        NoGapPlaces(p, blocks, own, m, pos, stripe, cols, max, colOf, i);
        LogicalOfMap(pos + i, stripe, cols);
        assert false;
      }
    }
  }

  /** The last sector dealt to m at or after d. */
  lemma {:induction false} LastOf(own: seq<set<nat>>, m: nat, d: nat) returns (l: nat)
    requires d < |own| && m in own[d]
    ensures d <= l < |own| && m in own[l] && Count(own[..l], m) + 1 == Count(own, m)
    decreases |own|
  {
    var n := |own| - 1;
    if m in own[n] {
      l := n;
    } else {
      l := LastOf(own[..n], m, d);
      assert own[..n][..l] == own[..l];
    }
  }

  /** After a gap the last sector dealt to m lies beyond the end of m's command. */
  lemma GapOverruns(p: Part, blocks: seq<seq<nat>>, own: seq<set<nat>>, m: nat, pos: nat,
                    stripe: nat, cols: nat, max: nat, colOf: nat -> nat, a: nat, b: nat, d: nat)
    requires stripe > 0 && colOf(m) < cols && InColumn(own, pos, stripe, cols, colOf)
    requires Follows(p, blocks, own, m, pos, Striped(stripe, cols), max)
    requires Gap(own, m, colOf(m), pos, stripe, cols, a, b, d)
    ensures !Exact(p, blocks, own, m, colOf(m), pos, stripe, cols)
  {
    var c := colOf(m);
    var f := First(own, m);
    FirstIsFirst(own, m, a);
    var l := LastOf(own, m, d);
    CountAgainstRank(own, m, f, l, pos, stripe, cols, colOf);
    var q := Phys(pos + l, stripe, cols);
    assert q >= p.start + p.sectors;
    LogicalOfMap(pos + l, stripe, cols);
    assert Lands(p, q) == None && Wanted(blocks, own, m, c, q, pos, stripe, cols).Some?;
  }

  /** One start LBA and one length per member place every sector where the
    * per-sector map does, and touch nothing else, if and only if no sector of the
    * column is dealt past the member between two that it got. */
  lemma ExactIffNoGap(p: Part, blocks: seq<seq<nat>>, own: seq<set<nat>>, m: nat, pos: nat,
                      stripe: nat, cols: nat, max: nat, colOf: nat -> nat)
    requires stripe > 0 && colOf(m) < cols && InColumn(own, pos, stripe, cols, colOf)
    requires Follows(p, blocks, own, m, pos, Striped(stripe, cols), max)
    ensures Exact(p, blocks, own, m, colOf(m), pos, stripe, cols)
       <==> NoGap(own, m, colOf(m), pos, stripe, cols)
  {
    if NoGap(own, m, colOf(m), pos, stripe, cols) {
      NoGapIsExact(p, blocks, own, m, pos, stripe, cols, max, colOf);
    } else {
      var a, b, d :| 0 <= a && 0 <= b && 0 <= d && Gap(own, m, colOf(m), pos, stripe, cols, a, b, d);
      GapOverruns(p, blocks, own, m, pos, stripe, cols, max, colOf, a, b, d);
    }
  }
}
