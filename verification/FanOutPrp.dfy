/** The lists the multi-stripe fan-outs build, and the PRP builder that has to express
  * them.  A member that gets two stripes of a request skips the memory in between; PRPs
  * can follow only if both ends of the skip are page boundaries. */
module FanOutPrp {
  import opened Striping
  import opened FanOut
  import opened FanOutWalk
  import opened FanOutDispatch
  import opened FanOutRead
  import opened Prp

  /** The walk jumps before its byte k. */
  predicate Jump(a: seq<nat>, k: nat) {
    0 < k < |a| && a[k] != a[k - 1] + 1
  }

  /** From the last byte of a page to the first byte of another. */
  predicate OnPages(x: nat, y: nat) {
    (x + 1) % 4096 == 0 && y % 4096 == 0
  }

  /** y follows x in memory, or both are at a page boundary. */
  predicate Joins(x: nat, y: nat) {
    y == x + 1 || OnPages(x, y)
  }

  predicate JumpsOnPages(a: seq<nat>) {
    forall k :: 0 < k < |a| ==> Joins(a[k - 1], a[k])
  }

  lemma JumpsAppend(a: seq<nat>, b: seq<nat>)
    requires a != [] && b != []
    ensures JumpsOnPages(a + b) <==> JumpsOnPages(a) && JumpsOnPages(b) && Joins(a[|a| - 1], b[0])
  {
    var s := a + b;
    if JumpsOnPages(s) {
      assert Joins(s[|a| - 1], s[|a|]);
      forall k | 0 < k < |a| ensures Joins(a[k - 1], a[k]) { assert Joins(s[k - 1], s[k]); }
      forall k | 0 < k < |b| ensures Joins(b[k - 1], b[k]) { assert Joins(s[|a| + k - 1], s[|a| + k]); }
    }
    if JumpsOnPages(a) && JumpsOnPages(b) && Joins(a[|a| - 1], b[0]) {
      forall k | 0 < k < |s| ensures Joins(s[k - 1], s[k]) {
        if k < |a| { assert Joins(a[k - 1], a[k]); }
        else if k > |a| { assert Joins(b[k - |a| - 1], b[k - |a|]); }
      }
    }
  }

  /** A merged list can be expressed as PRPs exactly when every jump of its bytes leads
    * from the end of a page to the start of one. */
  lemma {:induction false} ExpressibleIff(sg: seq<Frag>)
    requires Merged(sg)
    ensures Expressible(sg) <==> JumpsOnPages(Flatten(sg))
    decreases |sg|
  {
    if |sg| == 1 {
      OneEntry(sg[0]);
      assert sg == [] + [sg[0]];
    } else if |sg| > 1 {
      ExpressibleIff(sg[..|sg| - 1]);
      ExpressibleMore(sg, sg[..|sg| - 1], sg[|sg| - 1]);
    }
  }

  lemma OneEntry(f: Frag)
    requires f.len > 0
    ensures Expressible([] + [f]) && JumpsOnPages(Flatten([] + [f]))
  {
    FlattenSnoc([], f);
    assert Flatten([]) + Range(f.addr, f.len) == Range(f.addr, f.len);
  }

  lemma ExpressibleMore(sg: seq<Frag>, init: seq<Frag>, f: Frag)
    requires Merged(sg) && init != [] && sg == init + [f]
    requires Expressible(init) <==> JumpsOnPages(Flatten(init))
    ensures Expressible(sg) <==> JumpsOnPages(Flatten(sg))
  {
    var e := init[|init| - 1];
    assert sg[..|init|] == init && sg[|init|] == f && sg[|init| - 1] == e;
    LastAddress(init);
    JumpsToLast(Flatten(init), e, f);
    FlattenSnoc(init, f);
    ExpressibleSnoc(sg);
  }

  /** An entry f that does not continue the entry e, with which the bytes a end. */
  lemma JumpsToLast(a: seq<nat>, e: Frag, f: Frag)
    requires f.len > 0 && f.addr != e.addr + e.len && a != [] && a[|a| - 1] + 1 == e.addr + e.len
    ensures JumpsOnPages(a + Range(f.addr, f.len)) <==>
      JumpsOnPages(a) && (e.addr + e.len) % 4096 == 0 && f.addr % 4096 == 0
  {
    var r := Range(f.addr, f.len);
    assert JumpsOnPages(r);
    JumpsAppend(a, r);
    EndOfEntry(e.addr + e.len, f.addr, a[|a| - 1]);
  }

  lemma EndOfEntry(end: nat, addr: nat, x: nat)
    requires x + 1 == end && addr != end
    ensures Joins(x, addr) <==> end % 4096 == 0 && addr % 4096 == 0
  {
  }

  lemma ExpressibleSnoc(sg: seq<Frag>)
    requires |sg| >= 2 && sg[|sg| - 1].len > 0
    ensures
      var n := |sg| - 1;
      Expressible(sg) <==>
      Expressible(sg[..n]) && (sg[n - 1].addr + sg[n - 1].len) % 4096 == 0 && sg[n].addr % 4096 == 0
  {
    var n := |sg| - 1;
    var init := sg[..n];
    if Expressible(sg) {
      assert forall i :: 0 <= i < n ==> init[i] == sg[i];
    }
    if Expressible(init) && (sg[n - 1].addr + sg[n - 1].len) % 4096 == 0 && sg[n].addr % 4096 == 0 {
      forall i | 0 < i < |sg| ensures sg[i].addr % 4096 == 0 { if i < n { assert init[i] == sg[i]; } }
      forall i | 0 <= i < |sg| - 1 ensures (sg[i].addr + sg[i].len) % 4096 == 0 {
        if i < n - 1 { assert init[i] == sg[i]; }
      }
      forall i | 0 <= i < |sg| ensures sg[i].len > 0 { if i < n { assert init[i] == sg[i]; } }
    }
  }

  // ---------- one member's sectors ----------

  /** Sectors i and j go to m, those between them do not. */
  predicate Consecutive(own: seq<set<nat>>, m: nat, i: nat, j: nat) {
    i < j < |own| && m in own[i] && m in own[j] && forall k :: i < k < j ==> m !in own[k]
  }

  /** Memory that PRPs can follow from sector i to sector j. */
  predicate Meeting(blocks: seq<seq<nat>>, i: nat, j: nat)
    requires Uniform(blocks)
  {
    i < |blocks| && j < |blocks| && Joins(blocks[i][511], blocks[j][0])
  }

  predicate NextMeets(blocks: seq<seq<nat>>, i: nat)
    requires Uniform(blocks)
  {
    Meeting(blocks, i, i + 1)
  }

  ghost predicate AllMeet(blocks: seq<seq<nat>>, own: seq<set<nat>>, m: nat)
    requires Uniform(blocks)
  {
    forall i: nat, j: nat :: Consecutive(own, m, i, j) ==> Meeting(blocks, i, j)
  }

  lemma PassedOver(blocks: seq<seq<nat>>, own: seq<set<nat>>, m: nat)
    requires |own| <= |blocks| && own != [] && m !in own[|own| - 1]
    ensures Picked(blocks, own, m) == Picked(blocks, own[..|own| - 1], m)
  {
  }

  lemma {:induction false} LastPicked(blocks: seq<seq<nat>>, own: seq<set<nat>>, m: nat) returns (l: nat)
    requires |own| <= |blocks| && Uniform(blocks) && Count(own, m) > 0
    ensures l < |own| && m in own[l] && forall k :: l < k < |own| ==> m !in own[k]
    ensures
      var a := Join(Picked(blocks, own, m));
      a != [] && a[|a| - 1] == blocks[l][511]
    decreases |own|
  {
    var n := |own| - 1;
    if m in own[n] {
      l := n;
      var before := Picked(blocks, own[..n], m);
      assert (before + [blocks[n]])[..|before|] == before;
    } else {
      l := LastPicked(blocks, own[..n], m);
      PassedOver(blocks, own, m);
    }
  }

  lemma {:induction false} PickedJumps(blocks: seq<seq<nat>>, own: seq<set<nat>>, m: nat)
    requires |own| <= |blocks| && Uniform(blocks) && forall i :: 0 <= i < |blocks| ==> JumpsOnPages(blocks[i])
    ensures JumpsOnPages(Join(Picked(blocks, own, m))) <==> AllMeet(blocks, own, m)
    decreases |own|
  {
    if own != [] {
      var n := |own| - 1;
      var init := own[..n];
      PickedJumps(blocks, init, m);
      if m !in own[n] {
        PassedOver(blocks, own, m);
        SameConsecutive(blocks, own, m);
      } else {
        var before, b := Picked(blocks, init, m), blocks[n];
        assert Picked(blocks, own, m) == before + [b];
        assert (before + [b])[..|before|] == before;
        if Count(init, m) == 0 {
          assert before == [] && Join(before + [b]) == [] + b == b;
          NoneConsecutive(own, m);
        } else {
          var l := LastPicked(blocks, init, m);
          JumpsAppend(Join(before), b);
          OneMoreConsecutive(blocks, own, m, l);
        }
      }
    }
  }

  lemma SameConsecutive(blocks: seq<seq<nat>>, own: seq<set<nat>>, m: nat)
    requires own != [] && |own| <= |blocks| && Uniform(blocks) && m !in own[|own| - 1]
    ensures AllMeet(blocks, own, m) <==> AllMeet(blocks, own[..|own| - 1], m)
  {
    var init := own[..|own| - 1];
    forall i: nat, j: nat ensures Consecutive(own, m, i, j) <==> Consecutive(init, m, i, j) {}
  }

  lemma {:induction false} CountedOne(own: seq<set<nat>>, m: nat, i: nat)
    requires i < |own| && m in own[i]
    ensures Count(own, m) > 0
    decreases |own|
  {
    if i < |own| - 1 { CountedOne(own[..|own| - 1], m, i); }
  }

  lemma NoneConsecutive(own: seq<set<nat>>, m: nat)
    requires own != [] && Count(own[..|own| - 1], m) == 0
    ensures forall i: nat, j: nat :: !Consecutive(own, m, i, j)
  {
    forall i: nat, j: nat ensures !Consecutive(own, m, i, j) {
      if Consecutive(own, m, i, j) { CountedOne(own[..|own| - 1], m, i); }
    }
  }

  lemma OneMoreConsecutive(blocks: seq<seq<nat>>, own: seq<set<nat>>, m: nat, l: nat)
    requires own != [] && |own| <= |blocks| && Uniform(blocks) && m in own[|own| - 1]
    requires l < |own| - 1 && m in own[l] && forall k :: l < k < |own| - 1 ==> m !in own[k]
    ensures
      var n := |own| - 1;
      AllMeet(blocks, own, m) <==> AllMeet(blocks, own[..n], m) && Joins(blocks[l][511], blocks[n][0])
  {
    var n := |own| - 1;
    var init := own[..n];
    assert Consecutive(own, m, l, n);
    forall i: nat, j: nat ensures Consecutive(own, m, i, j) <==> Consecutive(init, m, i, j) || (i == l && j == n) {}
    if AllMeet(blocks, own, m) { assert Meeting(blocks, l, n); }
  }

  // ---------- a request ----------

  /** Every sector of a request, and every step from one to the next, lies as the whole does. */
  lemma SectorsMeet(a: seq<nat>)
    requires JumpsOnPages(a)
    ensures forall i :: 0 <= i < |a| / 512 ==> JumpsOnPages(BlocksOf(a)[i])
    ensures forall i :: 0 <= i < |a| / 512 - 1 ==> NextMeets(BlocksOf(a), i)
  {
    var blocks := BlocksOf(a);
    forall i | 0 <= i < |blocks| ensures JumpsOnPages(blocks[i]) {
      forall k | 0 < k < 512 ensures Joins(blocks[i][k - 1], blocks[i][k]) {
        assert Joins(a[i * 512 + k - 1], a[i * 512 + k]);
      }
    }
    forall i | 0 <= i < |blocks| - 1 ensures NextMeets(blocks, i) {
      assert Joins(a[i * 512 + 511], a[(i + 1) * 512]);
    }
  }

  /** Every skip of member m over memory of the request: from the last sector before it
    * to the first after it. */
  ghost predicate SkipsMeet(blocks: seq<seq<nat>>, own: seq<set<nat>>, m: nat)
    requires Uniform(blocks)
  {
    forall i: nat, j: nat :: Consecutive(own, m, i, j) && i + 1 < j ==> Meeting(blocks, i, j)
  }

  /** The block layer keeps its promise about the request's own memory. */
  lemma {:induction false} RequestJoins(bvecs: seq<Frag>)
    requires VirtBoundary(bvecs) && NonEmpty(bvecs)
    ensures JumpsOnPages(Flatten(bvecs))
    ensures bvecs != [] ==>
      var a := Flatten(bvecs); a != [] && a[|a| - 1] + 1 == End(bvecs)
    decreases |bvecs|
  {
    if bvecs != [] {
      var n := |bvecs| - 1;
      var init, f := bvecs[..n], bvecs[n];
      var r := Range(f.addr, f.len);
      assert JumpsOnPages(r) && r[f.len - 1] + 1 == f.addr + f.len;
      forall i | 0 <= i < |init| - 1 ensures Meets(init[i], init[i + 1]) { assert Meets(bvecs[i], bvecs[i + 1]); }
      RequestJoins(init);
      if init == [] {
        assert Flatten(bvecs) == [] + r == r;
      } else {
        assert Meets(bvecs[n - 1], bvecs[n]);
        JumpsAppend(Flatten(init), r);
      }
    }
  }

  /** Under the block layer's promise, the list that a fan-out builds for member m can be
    * expressed as PRPs if and only if every skip of m leads from the end of a page to the
    * start of one (or back to the very next byte). */
  lemma MemberListIff(p: Part, bvecs: seq<Frag>, own: seq<set<nat>>, m: nat, pos: nat, at: Place)
    requires VirtBoundary(bvecs) && NonEmpty(bvecs) && Follows(p, Memory(bvecs), own, m, pos, at, MAX_ENTRIES)
    ensures Expressible(p.sg) <==> SkipsMeet(Memory(bvecs), own, m)
  {
    var a, blocks := Flatten(bvecs), Memory(bvecs);
    RequestJoins(bvecs);
    SectorsMeet(a);
    PickedJumps(blocks, own, m);
    ExpressibleIff(p.sg);
    StepsMeet(blocks, own, m);
  }

  lemma StepsMeet(blocks: seq<seq<nat>>, own: seq<set<nat>>, m: nat)
    requires Uniform(blocks) && |own| <= |blocks| && forall i :: 0 <= i < |blocks| - 1 ==> NextMeets(blocks, i)
    ensures AllMeet(blocks, own, m) <==> SkipsMeet(blocks, own, m)
  {
    if SkipsMeet(blocks, own, m) {
      forall i: nat, j: nat | Consecutive(own, m, i, j) ensures Meeting(blocks, i, j) {
        if i + 1 == j { assert NextMeets(blocks, i); }
      }
    }
  }

  /** In the request's memory sector i stands where it stands in its 4 KiB of the volume. */
  predicate PageCongruent(blocks: seq<seq<nat>>, pos: nat)
    requires Uniform(blocks)
  {
    forall i :: 0 <= i < |blocks| ==> InPage(blocks[i][0], blocks[i][511], pos + i)
  }

  predicate InPage(first: nat, last: nat, x: nat) {
    first % 4096 == x % 8 * 512 && last == first + 511
  }

  /** So stripes of whole pages, under memory that is aligned as the request is, always
    * give lists that PRPs can express. */
  lemma CongruentRequestMeets(blocks: seq<seq<nat>>, own: seq<set<nat>>, m: nat, pos: nat, stripe: nat, cols: nat,
                              g: nat -> set<nat>)
    requires Uniform(blocks) && |own| <= |blocks| && PageCongruent(blocks, pos)
    requires stripe > 0 && stripe % 8 == 0 && cols > 0 && ByColumn(own, pos, stripe, cols, g)
    ensures SkipsMeet(blocks, own, m)
  {
    forall i: nat, j: nat | Consecutive(own, m, i, j) && i + 1 < j ensures Meeting(blocks, i, j) {
      assert own[i] == g(Column(pos + i, stripe, cols)) && own[i + 1] == g(Column(pos + i + 1, stripe, cols));
      assert own[j - 1] == g(Column(pos + (j - 1), stripe, cols)) && own[j] == g(Column(pos + j, stripe, cols));
      NewColumn(pos + i, stripe, cols);
      NewColumn(pos + (j - 1), stripe, cols);
      WholePages(pos + i + 1, stripe);
      WholePages(pos + j, stripe);
      assert InPage(blocks[i][0], blocks[i][511], pos + i) && InPage(blocks[j][0], blocks[j][511], pos + j);
      PageEnds(blocks[i][0], blocks[i][511], pos + i);
    }
  }

  /** The column changes only where a stripe ends. */
  lemma NewColumn(x: nat, stripe: nat, cols: nat)
    requires stripe > 0 && cols > 0
    ensures Column(x + 1, stripe, cols) != Column(x, stripe, cols) ==> (x + 1) % stripe == 0
  {
    if x % stripe + 1 < stripe {
      RunWithinStripe(x, 1, stripe, cols);
    } else {
      DivUnique(x + 1, x / stripe + 1, 0, stripe);
    }
  }

  lemma WholePages(x: nat, stripe: nat)
    requires stripe > 0 && stripe % 8 == 0
    ensures x % stripe == 0 ==> x % 8 == 0
  {
    if x % stripe == 0 {
      var q, e := x / stripe, stripe / 8;
      assert x == q * stripe && stripe == e * 8;
      assert x == q * e * 8;
      DivUnique(x, q * e, 0, 8);
    }
  }

  lemma PageEnds(first: nat, last: nat, x: nat)
    requires InPage(first, last, x) && (x + 1) % 8 == 0
    ensures (last + 1) % 4096 == 0
  {
    assert x % 8 == 7;
  }

  // ---------- the RAID0 fan-out ----------

  /** The commands of an accepted RAID0 request can all be expressed as PRPs if and only
    * if every member's skips do; stripes of whole pages and memory aligned as the request
    * is are enough. */
  lemma MultiStripeIff(r: Outcome, bvecs: seq<Frag>, pos: nat, stripe: nat, nm: nat)
    requires stripe > 0 && nm > 0 && VirtBoundary(bvecs) && NonEmpty(bvecs) && r.Commands?
    requires Dispatched(r, bvecs, pos, stripe, Striped(stripe, nm), nm, Raid0Plan(stripe, nm))
    ensures
      var own := Whole(bvecs, pos, stripe, Raid0Plan(stripe, nm));
      && (forall m :: 0 <= m < nm ==> (Expressible(r.parts[m].sg) <==> SkipsMeet(Memory(bvecs), own, m)))
      && (stripe % 8 == 0 && PageCongruent(Memory(bvecs), pos) ==> forall m :: 0 <= m < nm ==> Expressible(r.parts[m].sg))
  {
    var own := Whole(bvecs, pos, stripe, Raid0Plan(stripe, nm));
    Raid0Deal(bvecs, pos, stripe, nm);
    WholeFits(bvecs, pos, stripe, Raid0Plan(stripe, nm));
    forall m | 0 <= m < nm
      ensures Expressible(r.parts[m].sg) <==> SkipsMeet(Memory(bvecs), own, m)
      ensures stripe % 8 == 0 && PageCongruent(Memory(bvecs), pos) ==> Expressible(r.parts[m].sg)
    {
      assert Follows(r.parts[m], Memory(bvecs), own, m, pos, Striped(stripe, nm), MAX_ENTRIES);
      MemberListIff(r.parts[m], bvecs, own, m, pos, Striped(stripe, nm));
      if stripe % 8 == 0 && PageCongruent(Memory(bvecs), pos) {
        CongruentRequestMeets(Memory(bvecs), own, m, pos, stripe, nm, c => {c});
      }
    }
  }

  /** Sixteen pages and five sectors, in one piece. */
  const LONG: seq<Frag> := [Frag(0, 68096)]

  lemma LongMemory()
    ensures Flatten(LONG) == Range(0, 68096)
    ensures |Memory(LONG)| == 133
    ensures forall i :: 0 <= i < 133 ==> Memory(LONG)[i] == Range(i * 512, 512)
  {
    FlattenSnoc([], Frag(0, 68096));
    assert [] + [Frag(0, 68096)] == LONG && [] + Range(0, 68096) == Range(0, 68096);
    forall i | 0 <= i < 133 ensures Memory(LONG)[i] == Range(i * 512, 512) {
      assert Memory(LONG)[i] == Block(Range(0, 68096), i);
    }
  }

  lemma LongOwners(i: nat)
    requires i < 133
    ensures |Whole(LONG, 124, 128, Raid0Plan(128, 2))| == 133
    ensures Whole(LONG, 124, 128, Raid0Plan(128, 2))[i] == {if i < 4 || i >= 132 then 0 else 1}
  {
    LongMemory();
    WholeFits(LONG, 124, 128, Raid0Plan(128, 2));
    Raid0Deal(LONG, 124, 128, 2);
    assert Column(124 + i, 128, 2) == (124 + i) / 128 % 2;
  }

  /** Member 0 is dealt five sectors, member 1 a whole stripe: as many entries as a list
    * has room for, at the least. */
  lemma LongRuns(blocks: seq<seq<nat>>, own: seq<set<nat>>, m: nat)
    requires |own| == |blocks| == 133 && m < 2 && forall i :: 0 <= i < 133 ==> Runs(blocks[i]) <= 1
    requires forall i :: 0 <= i < 133 ==> own[i] == {if i < 4 || i >= 132 then 0 else 1}
    ensures Runs(Join(Picked(blocks, own, m))) <= MAX_ENTRIES
  {
    CountPiece([], own[..4], m, m == 0);
    CountPiece(own[..4], own[..132], m, m == 1);
    assert own[..133] == own;
    CountPiece(own[..132], own, m, m == 0);
    PickedSingles(blocks, own, m);
    RunsOfJoin(Picked(blocks, own, m));
  }

  lemma LongFits(own: seq<set<nat>>)
    requires own == Whole(LONG, 124, 128, Raid0Plan(128, 2))
    ensures Dispatchable(LONG, own, 2)
  {
    LongMemory();
    var blocks := Memory(LONG);
    LongOwners(0);
    forall i | 0 <= i < 133 ensures own[i] == {if i < 4 || i >= 132 then 0 else 1} { LongOwners(i); }
    LongBlocks(blocks);
    forall m: nat | m < 2 ensures Runs(Join(Picked(blocks, own, m))) <= MAX_ENTRIES { LongRuns(blocks, own, m); }
    IsDispatchable(LONG, own, 2);
  }

  lemma IsDispatchable(bvecs: seq<Frag>, own: seq<set<nat>>, nm: nat)
    requires Splittable(bvecs) && |own| <= |Memory(bvecs)| && forall i :: 0 <= i < |own| ==> own[i] != {}
    requires forall m: nat :: m < nm ==> Runs(Join(Picked(Memory(bvecs), own, m))) <= MAX_ENTRIES
    ensures Dispatchable(bvecs, own, nm)
  {
  }

  lemma LongBlocks(blocks: seq<seq<nat>>)
    requires forall i :: 0 <= i < |blocks| ==> blocks[i] == Range(i * 512, 512)
    ensures forall i :: 0 <= i < |blocks| ==> Runs(blocks[i]) <= 1
  {
    forall i | 0 <= i < |blocks| ensures Runs(blocks[i]) <= 1 {
      RunsOfRange([], i * 512, 512);
      assert [] + Range(i * 512, 512) == Range(i * 512, 512);
    }
  }

  /** A list whose entries start at pages never jumps into one. */
  lemma {:induction false} StartsAtPages(sg: seq<Frag>, k: nat)
    requires Merged(sg) && StartsAligned(sg) && Jump(Flatten(sg), k)
    ensures Flatten(sg)[k] % 4096 == 0
    decreases |sg|
  {
    var init, f := sg[..|sg| - 1], sg[|sg| - 1];
    var before, r := Flatten(init), Range(f.addr, f.len);
    if k < |before| {
      StartsAtPages(init, k);
    } else if k == |before| {
      assert Flatten(sg)[k] == f.addr && |sg| > 1;
    }
  }

  /** Member 0 is dealt the blocks 0 to 3 and 132. */
  lemma TwoPieces(blocks: seq<seq<nat>>, own: seq<set<nat>>)
    requires |own| == |blocks| == 133 && Uniform(blocks)
    requires forall i :: 0 <= i < 133 ==> own[i] == {if i < 4 || i >= 132 then 0 else 1}
    ensures
      var a := Join(Picked(blocks, own, 0));
      |a| > 2048 && a[2047] == blocks[3][511] && a[2048] == blocks[132][0]
  {
    CountPiece([], own[..3], 0, true);
    CountPiece([], own[..4], 0, true);
    CountPiece(own[..4], own[..132], 0, false);
    PickedAt(blocks, own, 0, 3);
    PickedAt(blocks, own, 0, 132);
    PickedUniform(blocks, own, 0);
    var p := Picked(blocks, own, 0);
    JoinAt(p, 3);
    JoinAt(p, 4);
    assert Block(Join(p), 3)[511] == Join(p)[2047] && Block(Join(p), 4)[0] == Join(p)[2048];
  }

  /** Sectors 124 to 256 of a volume with stripes of 64 KiB, in page-aligned memory: the
    * request is accepted, but member 0's list has an entry that starts inside a page, and
    * the builder refuses it. */
  lemma UnalignedStartIsRefused(r: Outcome)
    requires Dispatched(r, LONG, 124, 128, Striped(128, 2), 2, Raid0Plan(128, 2))
    ensures VirtBoundary(LONG) && NonEmpty(LONG) && Spans(|Memory(LONG)|, 124, 128, 2)
    ensures r.Commands? && |r.parts| == 2 && !StartsAligned(r.parts[0].sg)
  {
    LongMemory();
    var own := Whole(LONG, 124, 128, Raid0Plan(128, 2));
    LongFits(own);
    LongSpans();
    LongOwners(0);
    assert Follows(r.parts[0], Memory(LONG), own, 0, 124, Striped(128, 2), MAX_ENTRIES);
    LongIsSkewed(r.parts[0].sg, own);
  }

  lemma LongSpans()
    ensures Spans(|Memory(LONG)|, 124, 128, 2)
  {
    LongMemory();
    assert Elsewhere(124, 4, 128, 2);
  }

  lemma LongIsSkewed(sg: seq<Frag>, own: seq<set<nat>>)
    requires own == Whole(LONG, 124, 128, Raid0Plan(128, 2)) && |own| == |Memory(LONG)| && Merged(sg)
    requires Flatten(sg) == Join(Picked(Memory(LONG), own, 0))
    ensures !StartsAligned(sg)
  {
    LongMemory();
    LongOwners(0);
    forall i | 0 <= i < 133 ensures own[i] == {if i < 4 || i >= 132 then 0 else 1} { LongOwners(i); }
    TwoPieces(Memory(LONG), own);
    IntoPage(sg, 2048);
  }

  lemma IntoPage(sg: seq<Frag>, k: nat)
    requires Merged(sg) && Jump(Flatten(sg), k) && Flatten(sg)[k] % 4096 != 0
    ensures !StartsAligned(sg)
  {
    if StartsAligned(sg) { StartsAtPages(sg, k); }
  }
}
