/** The two dispatch walks that build the per-member commands of a multi-stripe
  * READ or WRITE, and what they promise for every fragment list, position, stripe
  * and member count. */
module FanOutWalk {
  import opened Common
  import opened Striping
  import opened FanOut

  const MAX_ENTRIES: nat := 128   // RC_VOLUME_MS_PAGES_PER_MEMBER

  /** BLK_STS_OK with the commands to submit, or BLK_STS_IOERR. */
  datatype Outcome = Commands(parts: seq<Part>) | IoErr

  // ---------- how a walk deals the request ----------

  /** The targets of the k-th piece, which starts at logical sector cur. */
  type Plan = (nat, nat) -> seq<nat>

  function Members(ts: seq<nat>): (r: set<nat>)
    ensures forall m :: m in r <==> m in ts
  {
    if ts == [] then {} else Members(ts[..|ts| - 1]) + {ts[|ts| - 1]}
  }

  function Rep(t: set<nat>, k: nat): (r: seq<set<nat>>)
    ensures |r| == k && forall i :: 0 <= i < k ==> r[i] == t
  {
    seq(k, _ => t)
  }

  /** Each fragment is cut at stripe boundaries; every piece goes to the targets the
    * plan names for it.  lens: sectors left in each fragment. */
  function Deal(lens: seq<nat>, cur: nat, k: nat, stripe: nat, plan: Plan): seq<set<nat>>
    requires stripe > 0
    decreases |lens|, if lens == [] then 0 else lens[0]
  {
    if lens == [] then []
    else if lens[0] == 0 then Deal(lens[1..], cur, k, stripe, plan)
    else
      var n := Least(lens[0], stripe - cur % stripe);
      Rep(Members(plan(cur, k)), n) + Deal([lens[0] - n] + lens[1..], cur + n, k + 1, stripe, plan)
  }

  /** Whole sectors of each fragment. */
  function Lengths(bvecs: seq<Frag>): (r: seq<nat>)
    ensures |r| == |bvecs| && forall i :: 0 <= i < |r| ==> r[i] == bvecs[i].len / 512
  {
    seq(|bvecs|, (i: nat) requires i < |bvecs| => bvecs[i].len / 512)
  }

  /** The first i fragments are whole sectors. */
  predicate SplitUpTo(bvecs: seq<Frag>, i: nat) {
    i <= |bvecs| && forall j :: 0 <= j < i ==> WholeSectors(bvecs[j])
  }

  predicate WholeSectors(f: Frag) { f.len % 512 == 0 }

  /** Every fragment is a whole number of sectors. */
  predicate Splittable(bvecs: seq<Frag>) {
    SplitUpTo(bvecs, |bvecs|)
  }

  function Sum(lens: seq<nat>): nat {
    if lens == [] then 0 else lens[0] + Sum(lens[1..])
  }

  lemma {:induction false} DealLength(lens: seq<nat>, cur: nat, k: nat, stripe: nat, plan: Plan)
    requires stripe > 0
    ensures |Deal(lens, cur, k, stripe, plan)| == Sum(lens)
    decreases |lens|, if lens == [] then 0 else lens[0]
  {
    if lens == [] {
    } else if lens[0] == 0 {
      DealLength(lens[1..], cur, k, stripe, plan);
    } else {
      var n := Least(lens[0], stripe - cur % stripe);
      var rest := [lens[0] - n] + lens[1..];
      DealLength(rest, cur + n, k + 1, stripe, plan);
      assert rest[1..] == lens[1..];
    }
  }

  lemma {:induction false} LengthsFit(bvecs: seq<Frag>)
    ensures Sum(Lengths(bvecs)) * 512 <= |Flatten(bvecs)|
    ensures Splittable(bvecs) ==> Sum(Lengths(bvecs)) * 512 == |Flatten(bvecs)|
    decreases |bvecs|
  {
    if bvecs != [] {
      var init := bvecs[..|bvecs| - 1];
      LengthsFit(init);
      assert Lengths(bvecs) == Lengths(init) + [bvecs[|bvecs| - 1].len / 512];
      SumSnoc(Lengths(init), bvecs[|bvecs| - 1].len / 512);
    }
  }

  lemma {:induction false} SumSnoc(lens: seq<nat>, l: nat)
    ensures Sum(lens + [l]) == Sum(lens) + l
    decreases |lens|
  {
    if lens == [] {
    } else {
      assert (lens + [l])[1..] == lens[1..] + [l];
      SumSnoc(lens[1..], l);
    }
  }

  /** The whole deal of a request. */
  function Whole(bvecs: seq<Frag>, pos: nat, stripe: nat, plan: Plan): seq<set<nat>>
    requires stripe > 0
  {
    Deal(Lengths(bvecs), pos, 0, stripe, plan)
  }

  function Memory(bvecs: seq<Frag>): seq<seq<nat>> {
    BlocksOf(Flatten(bvecs))
  }

  lemma WholeFits(bvecs: seq<Frag>, pos: nat, stripe: nat, plan: Plan)
    requires stripe > 0
    ensures |Whole(bvecs, pos, stripe, plan)| <= |Memory(bvecs)|
    ensures Splittable(bvecs) ==> |Whole(bvecs, pos, stripe, plan)| == |Memory(bvecs)|
  {
    DealLength(Lengths(bvecs), pos, 0, stripe, plan);
    LengthsFit(bvecs);
  }

  /** No member needs more scatter entries than its array has. */
  ghost predicate Fits(blocks: seq<seq<nat>>, own: seq<set<nat>>, nm: nat)
    requires |own| <= |blocks|
  {
    forall m :: 0 <= m < nm ==> Runs(Join(Picked(blocks, own, m))) <= MAX_ENTRIES
  }

  /** The targets of a piece are distinct members. */
  ghost predicate Proper(plan: Plan, nm: nat) {
    forall cur: nat, k: nat :: Distinct(plan(cur, k), nm)
  }

  predicate Distinct(ts: seq<nat>, nm: nat) {
    && (forall t :: 0 <= t < |ts| ==> ts[t] < nm)
    && (forall t, u :: 0 <= t < u < |ts| ==> ts[t] != ts[u])
  }

  ghost predicate AllFollow(parts: seq<Part>, blocks: seq<seq<nat>>, own: seq<set<nat>>,
                            pos: nat, at: Place)
  {
    forall m :: 0 <= m < |parts| ==> Follows(parts[m], blocks, own, m, pos, at, MAX_ENTRIES)
  }

  predicate AllSized(parts: seq<Part>) {
    forall m :: 0 <= m < |parts| ==> Sized(parts[m], MAX_ENTRIES)
  }

  // ---------- one piece to one member ----------

  /** The body of the walk for one target: fix the start LBA on the first piece,
    * append the memory, count the sectors. */
  function Give(p: Part, f: Frag, phys: nat): Option<Part> {
    var sg := Append(p.sg, f, MAX_ENTRIES);
    if sg.None? then None
    else Some(Part(true, if p.has then p.start else phys, p.sectors + f.len / 512, sg.value))
  }

  /** n sectors from logical sector pos + |own| on lie in memory at f. */
  predicate PieceAt(blocks: seq<seq<nat>>, own: seq<set<nat>>, f: Frag, n: nat) {
    && n > 0 && f.len == n * 512 && |own| + n <= |blocks|
    && Join(blocks[|own|..|own| + n]) == Range(f.addr, f.len)
  }

  lemma GivenMemory(blocks: seq<seq<nat>>, own: seq<set<nat>>, t: set<nat>, f: Frag, n: nat, m: nat)
    requires PieceAt(blocks, own, f, n) && m in t
    ensures Join(Picked(blocks, own + Rep(t, n), m)) == Join(Picked(blocks, own, m)) + Range(f.addr, f.len)
    ensures Count(own + Rep(t, n), m) == Count(own, m) + n
  {
    var longer := own + Rep(t, n);
    assert Extends(own, longer, m, true);
    PickedPiece(blocks, own, longer, m);
    CountPiece(own, longer, m, true);
    JoinAppend(Picked(blocks, own, m), blocks[|own|..|own| + n]);
  }

  /** Where the first sector dealt to m is, after one more piece. */
  lemma {:induction false} FirstOfPiece(own: seq<set<nat>>, longer: seq<set<nat>>, m: nat, take: bool)
    requires Extends(own, longer, m, take) && (Count(own, m) > 0 || (take && |own| < |longer|))
    ensures First(longer, m) == if Count(own, m) > 0 then First(own, m) else |own|
    decreases |longer|
  {
    if |own| == |longer| {
      assert own == longer;
    } else {
      var init := longer[..|longer| - 1];
      CountPiece(own, init, m, take);
      if Count(own, m) > 0 || |own| < |init| {
        FirstOfPiece(own, init, m, take);
      }
    }
  }

  lemma GiveLists(sg: seq<Frag>, blocks: seq<seq<nat>>, own: seq<set<nat>>, t: set<nat>, f: Frag, n: nat, m: nat)
    requires Lists(sg, blocks, own, m, MAX_ENTRIES) && PieceAt(blocks, own, f, n) && m in t
    ensures var r := Append(sg, f, MAX_ENTRIES); var longer := own + Rep(t, n);
      && (r.None? ==> Runs(Join(Picked(blocks, longer, m))) > MAX_ENTRIES)
      && (r.Some? ==> Lists(r.value, blocks, longer, m, MAX_ENTRIES))
  {
    GivenMemory(blocks, own, t, f, n, m);
    AppendKeepsBytes(sg, f, MAX_ENTRIES);
  }

  lemma GiveCounts(p: Part, own: seq<set<nat>>, t: set<nat>, n: nat, m: nat, pos: nat, at: Place, sg: seq<Frag>)
    requires Counts(p, own, m, pos, at) && m in t && n > 0
    ensures Counts(Part(true, if p.has then p.start else at(pos + |own|), p.sectors + n, sg),
                   own + Rep(t, n), m, pos, at)
  {
    var longer := own + Rep(t, n);
    assert Extends(own, longer, m, true);
    CountPiece(own, longer, m, true);
    FirstOfPiece(own, longer, m, true);
  }

  /** Giving a piece keeps Follows, and fails exactly when the list is too short. */
  lemma GiveFollows(p: Part, blocks: seq<seq<nat>>, own: seq<set<nat>>, t: set<nat>, f: Frag, n: nat,
                    m: nat, pos: nat, at: Place)
    requires Follows(p, blocks, own, m, pos, at, MAX_ENTRIES)
    requires PieceAt(blocks, own, f, n) && m in t
    ensures var r := Give(p, f, at(pos + |own|)); var longer := own + Rep(t, n);
      && (r.None? ==> Runs(Join(Picked(blocks, longer, m))) > MAX_ENTRIES)
      && (r.Some? ==> Follows(r.value, blocks, longer, m, pos, at, MAX_ENTRIES))
  {
    GiveLists(p.sg, blocks, own, t, f, n, m);
    var sg := Append(p.sg, f, MAX_ENTRIES);
    if sg.Some? {
      assert f.len / 512 == n;
      GiveCounts(p, own, t, n, m, pos, at, sg.value);
    }
  }

  lemma SkipFollows(p: Part, blocks: seq<seq<nat>>, own: seq<set<nat>>, t: set<nat>, n: nat,
                    m: nat, pos: nat, at: Place)
    requires Follows(p, blocks, own, m, pos, at, MAX_ENTRIES)
    requires |own| + n <= |blocks| && m !in t
    ensures Follows(p, blocks, own + Rep(t, n), m, pos, at, MAX_ENTRIES)
  {
    var longer := own + Rep(t, n);
    assert Extends(own, longer, m, false);
    SkippedPiece(blocks, own, longer, m);
    CountPiece(own, longer, m, false);
    if p.has { FirstOfPiece(own, longer, m, false); }
  }

  /** A list that overflows part of the way overflows on the whole. */
  lemma OverflowStays(blocks: seq<seq<nat>>, part: seq<set<nat>>, whole: seq<set<nat>>, m: nat)
    requires part <= whole && |whole| <= |blocks|
    ensures Runs(Join(Picked(blocks, part, m))) <= Runs(Join(Picked(blocks, whole, m)))
  {
    assert whole[..|part|] == part;
    PickedPrefix(blocks, whole, |part|, m);
    RunsOfPrefix(Picked(blocks, part, m), Picked(blocks, whole, m));
  }

  lemma RunsOfPrefix(a: seq<seq<nat>>, b: seq<seq<nat>>)
    requires a <= b
    ensures Runs(Join(a)) <= Runs(Join(b))
  {
    var rest := b[|a|..];
    assert a + rest == b;
    JoinAppend(a, rest);
    RunsMonotone(Join(a), Join(rest));
  }

  // ---------- the walk ----------

  function Touched(parts: seq<Part>): set<nat> {
    set m: nat | m < |parts| && parts[m].has
  }

  lemma TouchOne(parts: seq<Part>, m: nat, p: Part)
    requires m < |parts| && p.has
    ensures Touched(parts[m := p]) == Touched(parts) + {m}
  {
  }

  /** What member m has been dealt while a piece is being given. */
  function Dealt(given: set<nat>, m: nat, own: seq<set<nat>>, longer: seq<set<nat>>): seq<set<nat>> {
    if m in given then longer else own
  }

  /** The members in given have the piece already; the others do not. */
  ghost predicate HalfGiven(parts: seq<Part>, given: set<nat>, blocks: seq<seq<nat>>, own: seq<set<nat>>,
                            longer: seq<set<nat>>, pos: nat, at: Place)
  {
    forall m :: 0 <= m < |parts| ==>
      Follows(parts[m], blocks, Dealt(given, m, own, longer), m, pos, at, MAX_ENTRIES)
  }

  lemma GiveDone(parts: seq<Part>, t: set<nat>, blocks: seq<seq<nat>>, own: seq<set<nat>>, n: nat,
                 pos: nat, at: Place)
    requires |own| + n <= |blocks|
    requires HalfGiven(parts, t, blocks, own, own + Rep(t, n), pos, at)
    ensures AllFollow(parts, blocks, own + Rep(t, n), pos, at)
  {
    forall m | 0 <= m < |parts|
      ensures Follows(parts[m], blocks, own + Rep(t, n), m, pos, at, MAX_ENTRIES)
    {
      if m !in t { SkipFollows(parts[m], blocks, own, t, n, m, pos, at); }
    }
  }

  lemma Replaced(parts: seq<Part>, given: set<nat>, blocks: seq<seq<nat>>, own: seq<set<nat>>,
                 longer: seq<set<nat>>, m: nat, pos: nat, at: Place, p: Part)
    requires m < |parts|
    requires HalfGiven(parts, given, blocks, own, longer, pos, at)
    requires Follows(p, blocks, longer, m, pos, at, MAX_ENTRIES)
    ensures HalfGiven(parts[m := p], given + {m}, blocks, own, longer, pos, at)
  {
    var now := parts[m := p];
    forall j | 0 <= j < |now|
      ensures Follows(now[j], blocks, Dealt(given + {m}, j, own, longer), j, pos, at, MAX_ENTRIES)
    {
      if j != m {
        assert now[j] == parts[j] && Dealt(given + {m}, j, own, longer) == Dealt(given, j, own, longer);
      }
    }
  }

  lemma GiveHalf(parts: seq<Part>, given: set<nat>, t: set<nat>, blocks: seq<seq<nat>>, own: seq<set<nat>>,
                 f: Frag, n: nat, m: nat, pos: nat, at: Place, p: Part)
    requires m < |parts| && m in t && m !in given
    requires PieceAt(blocks, own, f, n) && Give(parts[m], f, at(pos + |own|)) == Some(p)
    requires HalfGiven(parts, given, blocks, own, own + Rep(t, n), pos, at)
    ensures Follows(p, blocks, own + Rep(t, n), m, pos, at, MAX_ENTRIES)
  {
    assert Dealt(given, m, own, own + Rep(t, n)) == own;
    GiveFollows(parts[m], blocks, own, t, f, n, m, pos, at);
  }

  lemma GiveNext(parts: seq<Part>, given: set<nat>, t: set<nat>, blocks: seq<seq<nat>>, own: seq<set<nat>>,
                 f: Frag, n: nat, m: nat, pos: nat, at: Place, p: Part)
    requires m < |parts| && m in t && m !in given
    requires PieceAt(blocks, own, f, n) && Give(parts[m], f, at(pos + |own|)) == Some(p)
    requires HalfGiven(parts, given, blocks, own, own + Rep(t, n), pos, at)
    ensures HalfGiven(parts[m := p], given + {m}, blocks, own, own + Rep(t, n), pos, at)
  {
    GiveHalf(parts, given, t, blocks, own, f, n, m, pos, at, p);
    Replaced(parts, given, blocks, own, own + Rep(t, n), m, pos, at, p);
  }

  lemma GiveFails(parts: seq<Part>, given: set<nat>, t: set<nat>, blocks: seq<seq<nat>>, own: seq<set<nat>>,
                  f: Frag, n: nat, m: nat, pos: nat, at: Place)
    requires m < |parts| && m in t && m !in given
    requires PieceAt(blocks, own, f, n) && Give(parts[m], f, at(pos + |own|)).None?
    requires HalfGiven(parts, given, blocks, own, own + Rep(t, n), pos, at)
    ensures |own + Rep(t, n)| <= |blocks| && !Fits(blocks, own + Rep(t, n), |parts|)
  {
    GiveFollows(parts[m], blocks, own, t, f, n, m, pos, at);
  }

  lemma MembersNext(ts: seq<nat>, t: nat, nm: nat)
    requires t < |ts| && Distinct(ts, nm)
    ensures ts[t] in Members(ts) && ts[t] !in Members(ts[..t])
    ensures Members(ts[..t + 1]) == Members(ts[..t]) + {ts[t]}
  {
    assert ts[..t + 1][..t] == ts[..t];
  }

  lemma TouchCount(parts: seq<Part>, m: nat, p: Part)
    requires m < |parts| && p.has
    ensures |Touched(parts[m := p])| == |Touched(parts)| + (if parts[m].has then 0 else 1)
  {
    TouchOne(parts, m, p);
    if parts[m].has { assert Touched(parts) + {m} == Touched(parts); }
  }

  /** One target of a piece. */
  method GiveOne(parts: seq<Part>, withData: nat, m: nat, f: Frag, cur: nat, at: Place,
                 ghost given: set<nat>, ghost t: set<nat>, ghost blocks: seq<seq<nat>>,
                 ghost own: seq<set<nat>>, ghost n: nat, ghost pos: nat)
    returns (ok: bool, parts': seq<Part>, withData': nat)
    requires m < |parts| && withData == |Touched(parts)|
    requires m in t && m !in given && cur == pos + |own|
    requires PieceAt(blocks, own, f, n)
    requires HalfGiven(parts, given, blocks, own, own + Rep(t, n), pos, at)
    ensures |parts'| == |parts| && withData' == |Touched(parts')|
    ensures ok ==> HalfGiven(parts', given + {m}, blocks, own, own + Rep(t, n), pos, at)
    ensures !ok ==> !Fits(blocks, own + Rep(t, n), |parts|)
  {
    var p := Give(parts[m], f, at(cur));
    if p.None? {
      GiveFails(parts, given, t, blocks, own, f, n, m, pos, at);
      return false, parts, withData;
    }
    GiveNext(parts, given, t, blocks, own, f, n, m, pos, at, p.value);
    TouchCount(parts, m, p.value);
    ok, parts' := true, parts[m := p.value];
    withData' := if parts[m].has then withData else withData + 1;
  }

  /** The loop over the targets of one piece. */
  method GivePiece(parts: seq<Part>, withData: nat, ts: seq<nat>, f: Frag, cur: nat, at: Place,
                   ghost blocks: seq<seq<nat>>, ghost own: seq<set<nat>>, ghost n: nat, ghost pos: nat)
    returns (ok: bool, parts': seq<Part>, withData': nat)
    requires Distinct(ts, |parts|) && cur == pos + |own|
    requires PieceAt(blocks, own, f, n) && AllFollow(parts, blocks, own, pos, at)
    requires withData == |Touched(parts)|
    ensures |parts'| == |parts| && withData' == |Touched(parts')|
    ensures ok ==> AllFollow(parts', blocks, own + Rep(Members(ts), n), pos, at)
    ensures !ok ==> !Fits(blocks, own + Rep(Members(ts), n), |parts|)
  {
    parts', withData' := parts, withData;
    ghost var longer := own + Rep(Members(ts), n);
    ghost var given: set<nat> := {};
    for t := 0 to |ts|
      invariant |parts'| == |parts| && withData' == |Touched(parts')|
      invariant given == Members(ts[..t])
      invariant HalfGiven(parts', given, blocks, own, longer, pos, at)
    {
      var m := ts[t];
      MembersNext(ts, t, |parts|);
      var room;
      room, parts', withData' := GiveOne(parts', withData', m, f, cur, at,
                                         given, Members(ts), blocks, own, n, pos);
      if !room { return false, parts', withData'; }
      given := given + {m};
    }
    assert ts[..|ts|] == ts;
    GiveDone(parts', Members(ts), blocks, own, n, pos, at);
    ok := true;
  }

  // ---------- the walk over all fragments ----------

  /** Where the walk stands: fragment i, off bytes into it, done sectors dealt. */
  ghost predicate At(bvecs: seq<Frag>, i: nat, off: nat, done: seq<set<nat>>, whole: seq<set<nat>>) {
    && i < |bvecs| && off <= bvecs[i].len && done <= whole && |whole| <= |Memory(bvecs)|
    && |Flatten(bvecs[..i])| + off == |done| * 512
  }

  /** The next n sectors lie in fragment i. */
  lemma NextPiece(bvecs: seq<Frag>, i: nat, off: nat, done: seq<set<nat>>, whole: seq<set<nat>>, n: nat)
    requires At(bvecs, i, off, done, whole) && n > 0 && off + n * 512 <= bvecs[i].len
    requires |done| + n <= |whole|
    ensures PieceAt(Memory(bvecs), done, Frag(bvecs[i].addr + off, n * 512), n)
  {
    var a := Flatten(bvecs);
    FlattenAt(bvecs, i, off, n * 512);
    JoinIsSlice(a, |done|, |done| + n);
  }

  lemma FlattenAt(bvecs: seq<Frag>, i: nat, off: nat, len: nat)
    requires i < |bvecs| && off + len <= bvecs[i].len
    ensures var base := |Flatten(bvecs[..i])|;
      base + off + len <= |Flatten(bvecs)|
      && Flatten(bvecs)[base + off..base + off + len] == Range(bvecs[i].addr + off, len)
  {
    var head := bvecs[..i + 1];
    assert head[..i] == bvecs[..i];
    FlattenPrefix(bvecs, i + 1);
    PrefixSlice(Flatten(bvecs[..i]), Range(bvecs[i].addr, bvecs[i].len), Flatten(bvecs), off, off + len);
    RangeSlice(bvecs[i].addr, bvecs[i].len, off, len);
  }

  lemma PrefixSlice(a: seq<nat>, b: seq<nat>, whole: seq<nat>, i: nat, j: nat)
    requires a + b <= whole && i <= j <= |b|
    ensures |a| + j <= |whole| && whole[|a| + i..|a| + j] == b[i..j]
  {
    forall k | i <= k < j ensures whole[|a| + k] == b[k] {
      assert (a + b)[|a| + k] == b[k];
    }
  }

  lemma RangeSlice(addr: nat, n: nat, off: nat, len: nat)
    requires off + len <= n
    ensures Range(addr, n)[off..off + len] == Range(addr + off, len)
  {
  }

  lemma DealNext(rest: seq<nat>, cur: nat, k: nat, stripe: nat, plan: Plan)
    requires stripe > 0
    ensures Deal([0] + rest, cur, k, stripe, plan) == Deal(rest, cur, k, stripe, plan)
  {
    var lens := [0] + rest;
    assert lens != [] && lens[0] == 0 && lens[1..] == rest;
  }

  /** What the walk promises. */
  ghost predicate Dispatched(r: Outcome, bvecs: seq<Frag>, pos: nat, stripe: nat, at: Place, nm: nat, plan: Plan)
    requires stripe > 0
  {
    var own := Whole(bvecs, pos, stripe, plan);
    && (r.Commands? <==> Dispatchable(bvecs, own, nm))
    && (r.Commands? ==> |r.parts| == nm && AllFollow(r.parts, Memory(bvecs), own, pos, at))
  }

  lemma DispatchedSized(r: Outcome, bvecs: seq<Frag>, pos: nat, stripe: nat, at: Place, nm: nat, plan: Plan)
    requires stripe > 0 && Dispatched(r, bvecs, pos, stripe, at, nm, plan) && r.Commands?
    ensures AllSized(r.parts)
  {
    var own := Whole(bvecs, pos, stripe, plan);
    forall m | 0 <= m < |r.parts| ensures Sized(r.parts[m], MAX_ENTRIES) {
      FollowsSized(r.parts[m], Memory(bvecs), own, m, pos, at, MAX_ENTRIES);
    }
  }

  /** Whole sectors everywhere, a target for every sector, and room in every list. */
  ghost predicate Dispatchable(bvecs: seq<Frag>, own: seq<set<nat>>, nm: nat) {
    && Splittable(bvecs) && {} !in own
    && |own| <= |Memory(bvecs)| && Fits(Memory(bvecs), own, nm)
  }

  /** Loop state: done is dealt, the fragments' remaining sectors are lens. */
  ghost predicate Standing(bvecs: seq<Frag>, parts: seq<Part>, withData: nat, cur: nat, k: nat, pos: nat,
                           stripe: nat, at: Place, plan: Plan, done: seq<set<nat>>, lens: seq<nat>)
    requires stripe > 0
  {
    && withData == |Touched(parts)| && cur == pos + |done| && {} !in done
    && AllFollow(parts, Memory(bvecs), done, pos, at)
    && Whole(bvecs, pos, stripe, plan) == done + Deal(lens, cur, k, stripe, plan)
  }

  lemma EmptyStanding(bvecs: seq<Frag>, parts: seq<Part>, pos: nat, stripe: nat, at: Place, plan: Plan)
    requires stripe > 0 && forall m :: 0 <= m < |parts| ==> parts[m] == EMPTY
    ensures Standing(bvecs, parts, 0, pos, 0, pos, stripe, at, plan, [], Lengths(bvecs))
  {
    assert Touched(parts) == {};
    forall m | 0 <= m < |parts| ensures Follows(parts[m], Memory(bvecs), [], m, pos, at, MAX_ENTRIES) {
      assert Picked(Memory(bvecs), [], m) == [];
    }
    assert [] + Deal(Lengths(bvecs), pos, 0, stripe, plan) == Whole(bvecs, pos, stripe, plan);
  }

  /** The deal moves on by one piece. */
  lemma PieceDealt(whole: seq<set<nat>>, done: seq<set<nat>>, lens: seq<nat>, cur: nat, k: nat,
                   stripe: nat, plan: Plan, n: nat)
    requires stripe > 0 && lens != [] && lens[0] > 0 && n == Least(lens[0], stripe - cur % stripe)
    requires whole == done + Deal(lens, cur, k, stripe, plan)
    ensures var now := done + Rep(Members(plan(cur, k)), n);
      now <= whole && whole == now + Deal([lens[0] - n] + lens[1..], cur + n, k + 1, stripe, plan)
  {
  }

  lemma RepOf(done: seq<set<nat>>, ts: seq<nat>, n: nat)
    requires {} !in done && ts != []
    ensures {} !in done + Rep(Members(ts), n)
  {
    assert ts[0] in Members(ts);
  }

  lemma NotDispatchable(bvecs: seq<Frag>, done: seq<set<nat>>, whole: seq<set<nat>>, nm: nat)
    requires done <= whole && |whole| <= |Memory(bvecs)|
    requires {} in done || !Fits(Memory(bvecs), done, nm)
    ensures !Dispatchable(bvecs, whole, nm)
  {
    if {} in done {
      var i :| 0 <= i < |done| && done[i] == {};
      assert whole[i] == {};
    } else {
      var m :| 0 <= m < nm && Runs(Join(Picked(Memory(bvecs), done, m))) > MAX_ENTRIES;
      OverflowStays(Memory(bvecs), done, whole, m);
    }
  }

  /** One piece of fragment i: n sectors at offset off. */
  method WalkPiece(bvecs: seq<Frag>, i: nat, off: nat, parts: seq<Part>, withData: nat, cur: nat, k: nat, n: nat,
                   stripe: nat, at: Place, plan: Plan,
                   ghost pos: nat, ghost done: seq<set<nat>>, ghost lens: seq<nat>)
    returns (ok: bool, parts': seq<Part>, withData': nat, ghost done': seq<set<nat>>, ghost lens': seq<nat>)
    requires stripe > 0 && Proper(plan, |parts|)
    requires lens != [] && lens[0] > 0 && n == Least(lens[0], stripe - cur % stripe)
    requires Standing(bvecs, parts, withData, cur, k, pos, stripe, at, plan, done, lens)
    requires At(bvecs, i, off, done, Whole(bvecs, pos, stripe, plan)) && off + n * 512 <= bvecs[i].len
    ensures |parts'| == |parts|
    ensures ok ==> Standing(bvecs, parts', withData', cur + n, k + 1, pos, stripe, at, plan, done', lens')
    ensures |done'| == |done| + n && lens' == [lens[0] - n] + lens[1..]
    ensures !ok ==> !Dispatchable(bvecs, Whole(bvecs, pos, stripe, plan), |parts|)
  {
    var ts := plan(cur, k);
    ghost var whole := Whole(bvecs, pos, stripe, plan);
    done', lens' := done + Rep(Members(ts), n), [lens[0] - n] + lens[1..];
    PieceDealt(whole, done, lens, cur, k, stripe, plan, n);
    if ts == [] {
      assert done'[|done|] == {};
      NotDispatchable(bvecs, done', whole, |parts|);
      return false, parts, withData, done', lens';
    }
    NextPiece(bvecs, i, off, done, whole, n);
    RepOf(done, ts, n);
    assert Distinct(ts, |parts|);
    ok, parts', withData' := GivePiece(parts, withData, ts, Frag(bvecs[i].addr + off, n * 512), cur, at,
                                       Memory(bvecs), done, n, pos);
    if !ok { NotDispatchable(bvecs, done', whole, |parts|); }
  }

  /** One turn of the inner loop: cut a piece, check it, hand it out. */
  method WalkTurn(bvecs: seq<Frag>, i: nat, off: nat, left: nat, parts: seq<Part>, withData: nat, cur: nat, k: nat,
                  stripe: nat, at: Place, plan: Plan,
                  ghost pos: nat, ghost done: seq<set<nat>>, ghost lens: seq<nat>)
    returns (ok: bool, n: nat, parts': seq<Part>, withData': nat, cur': nat, k': nat,
             ghost done': seq<set<nat>>, ghost lens': seq<nat>)
    requires stripe > 0 && Proper(plan, |parts|) && i < |bvecs|
    requires off < bvecs[i].len && off + left * 512 == bvecs[i].len / 512 * 512
    requires lens != [] && lens[0] == left && |Flatten(bvecs[..i])| + off == |done| * 512
    requires Standing(bvecs, parts, withData, cur, k, pos, stripe, at, plan, done, lens)
    ensures |parts'| == |parts|
    ensures ok ==> Standing(bvecs, parts', withData', cur', k', pos, stripe, at, plan, done', lens')
    ensures ok ==> 0 < n <= left && |done'| == |done| + n && lens' == [left - n] + lens[1..]
    ensures !ok ==> !Dispatchable(bvecs, Whole(bvecs, pos, stripe, plan), |parts|)
  {
    n := Least(left, stripe - cur % stripe);
    cur', k' := cur + n, k + 1;
    if n * 512 == 0 || n * 512 > bvecs[i].len - off {
      assert !Splittable(bvecs);
      return false, n, parts, withData, cur, k, done, lens;
    }
    WholeFits(bvecs, pos, stripe, plan);
    assert At(bvecs, i, off, done, Whole(bvecs, pos, stripe, plan));
    ok, parts', withData', done', lens' :=
      WalkPiece(bvecs, i, off, parts, withData, cur, k, n, stripe, at, plan, pos, done, lens);
  }

  /** The walk over fragment i. */
  method WalkFragment(bvecs: seq<Frag>, i: nat, parts: seq<Part>, withData: nat, cur: nat, k: nat,
                      stripe: nat, at: Place, plan: Plan, ghost pos: nat, ghost done: seq<set<nat>>)
    returns (ok: bool, parts': seq<Part>, withData': nat, cur': nat, k': nat, ghost done': seq<set<nat>>)
    requires stripe > 0 && Proper(plan, |parts|) && i < |bvecs|
    requires Standing(bvecs, parts, withData, cur, k, pos, stripe, at, plan, done, Lengths(bvecs)[i..])
    requires |Flatten(bvecs[..i])| == |done| * 512
    ensures |parts'| == |parts|
    ensures ok ==> Standing(bvecs, parts', withData', cur', k', pos, stripe, at, plan, done', Lengths(bvecs)[i + 1..])
    ensures ok ==> WholeSectors(bvecs[i]) && |Flatten(bvecs[..i + 1])| == |done'| * 512
    ensures !ok ==> !Dispatchable(bvecs, Whole(bvecs, pos, stripe, plan), |parts|)
  {
    var left: nat, off: nat, remaining: nat := bvecs[i].len / 512, 0, bvecs[i].len;
    parts', withData', cur', k', done' := parts, withData, cur, k, done;
    ghost var rest: seq<nat>, lens: seq<nat> := Lengths(bvecs)[i + 1..], Lengths(bvecs)[i..];
    assert lens == [left] + rest;
    while remaining > 0
      invariant |parts'| == |parts| && lens == [left] + rest
      invariant Standing(bvecs, parts', withData', cur', k', pos, stripe, at, plan, done', lens)
      invariant remaining == bvecs[i].len - off && off + left * 512 == bvecs[i].len / 512 * 512
      invariant |Flatten(bvecs[..i])| + off == |done'| * 512
    {
      var n;
      ok, n, parts', withData', cur', k', done', lens :=
        WalkTurn(bvecs, i, off, left, parts', withData', cur', k', stripe, at, plan, pos, done', lens);
      if !ok { return false, parts', withData', cur', k', done'; }
      off, remaining, left := off + n * 512, remaining - n * 512, left - n;
    }
    DealNext(rest, cur', k', stripe, plan);
    FlattenNext(bvecs, i);
    ok := true;
  }

  lemma FlattenNext(bvecs: seq<Frag>, i: nat)
    requires i < |bvecs|
    ensures |Flatten(bvecs[..i + 1])| == |Flatten(bvecs[..i])| + bvecs[i].len
  {
    assert bvecs[..i + 1][..i] == bvecs[..i];
  }

  lemma SplitNext(bvecs: seq<Frag>, i: nat)
    requires i < |bvecs| && SplitUpTo(bvecs, i) && WholeSectors(bvecs[i])
    ensures SplitUpTo(bvecs, i + 1)
  {
  }

  /** The two nested loops over the request's memory. */
  method Walk(bvecs: seq<Frag>, pos: nat, stripe: nat, at: Place, nm: nat, plan: Plan)
    returns (r: Outcome, withData: nat)
    requires stripe > 0 && Proper(plan, nm)
    ensures Dispatched(r, bvecs, pos, stripe, at, nm, plan)
    ensures r.Commands? ==> withData == |Touched(r.parts)|
  {
    var parts := seq(nm, _ => EMPTY);
    var cur, k := pos, 0;
    withData := 0;
    ghost var done: seq<set<nat>> := [];
    EmptyStanding(bvecs, parts, pos, stripe, at, plan);
    assert Lengths(bvecs)[0..] == Lengths(bvecs);
    for i := 0 to |bvecs|
      invariant |parts| == nm && |Flatten(bvecs[..i])| == |done| * 512
      invariant Standing(bvecs, parts, withData, cur, k, pos, stripe, at, plan, done, Lengths(bvecs)[i..])
      invariant SplitUpTo(bvecs, i)
    {
      var ok;
      ok, parts, withData, cur, k, done :=
        WalkFragment(bvecs, i, parts, withData, cur, k, stripe, at, plan, pos, done);
      if !ok { return IoErr, withData; }
      SplitNext(bvecs, i);
    }
    WalkEnds(bvecs, parts, withData, cur, k, pos, stripe, at, plan, done);
    r := Commands(parts);
  }

  lemma WalkEnds(bvecs: seq<Frag>, parts: seq<Part>, withData: nat, cur: nat, k: nat, pos: nat,
                 stripe: nat, at: Place, plan: Plan, done: seq<set<nat>>)
    requires stripe > 0 && Splittable(bvecs)
    requires Standing(bvecs, parts, withData, cur, k, pos, stripe, at, plan, done, Lengths(bvecs)[|bvecs|..])
    ensures Dispatched(Commands(parts), bvecs, pos, stripe, at, |parts|, plan)
  {
    assert Lengths(bvecs)[|bvecs|..] == [];
    assert done == Whole(bvecs, pos, stripe, plan);
    WholeFits(bvecs, pos, stripe, plan);
    forall m | 0 <= m < |parts| ensures Runs(Join(Picked(Memory(bvecs), done, m))) <= MAX_ENTRIES {
      assert Follows(parts[m], Memory(bvecs), done, m, pos, at, MAX_ENTRIES);
    }
  }
}
