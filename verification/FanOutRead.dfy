/** The RAID10 multi-stripe READ: the copy is drawn anew for every piece, although
  * each member keeps one start LBA.  ReadRightIff says when that is right, and
  * AlternatingReadIsWrong gives a request for which it is not. */
module FanOutRead {
  import opened Common
  import opened Striping
  import opened FanOut
  import opened FanOutWalk
  import opened FanOutDispatch
  import MapLba

  /** The copy of column c a piece is read from; draw is the round-robin counter. */
  function ReadCopy(live: set<nat>, draw: nat, c: nat): seq<nat> {
    if 2 * c in live && 2 * c + 1 in live then [if draw % 2 == 1 then 2 * c + 1 else 2 * c]
    else if 2 * c in live then [2 * c]
    else if 2 * c + 1 in live then [2 * c + 1]
    else []
  }

  /** rr(k): what the counter, which all requests share, gives the k-th piece. */
  function ReadPlan(live: set<nat>, rr: nat -> nat, stripe: nat, cols: nat): Plan
    requires stripe > 0 && cols > 0
  {
    (cur: nat, k: nat) => ReadCopy(live, rr(k), Column(cur, stripe, cols))
  }

  /** A piece goes where a single-stripe read with the same draw would: to one live copy
    * of the pair, or nowhere if there is none. */
  lemma DrawIsChosen(live: set<nat>, draw: nat, c: nat)
    ensures ReadCopy(live, draw, c) == if MapLba.PairLives(live, c) then [MapLba.Chosen(live, c, draw)] else []
  {
  }

  /** One live member of column c owns the sector. */
  ghost predicate ReadLive(live: set<nat>, c: nat, owners: set<nat>) {
    exists m :: owners == {m} && m in live && Pair(m) == c
  }

  lemma SortedIsLive(live: set<nat>, c: nat, owners: set<nat>)
    requires Sorted(live, c, owners) && owners != {}
    ensures ReadLive(live, c, owners)
  {
    var m :| m in owners;
    assert owners == {m};
  }

  /** A sector of column c is read from one live copy, if there is one. */
  predicate OneLiveCopy(live: set<nat>, c: nat, owners: set<nat>) {
    if 2 * c in live || 2 * c + 1 in live
    then owners == {2 * c} * live || owners == {2 * c + 1} * live
    else owners == {}
  }

  predicate Sorted(live: set<nat>, c: nat, owners: set<nat>) {
    OneLiveCopy(live, c, owners) && (owners == {} ==> 2 * c !in live && 2 * c + 1 !in live)
  }

  lemma DrawIsLive(live: set<nat>, draw: nat, c: nat)
    ensures Sorted(live, c, Members(ReadCopy(live, draw, c)))
  {
    var ts := ReadCopy(live, draw, c);
    if ts != [] {
      assert Members(ts) == {ts[0]};
      assert {ts[0]} * live == {ts[0]};
    }
  }

  /** Every sector has one live owner in its own column, or its column has none. */
  lemma ReadDeal(bvecs: seq<Frag>, pos: nat, stripe: nat, cols: nat, live: set<nat>, rr: nat -> nat)
    requires stripe > 0 && cols > 0
    ensures var own := Whole(bvecs, pos, stripe, ReadPlan(live, rr, stripe, cols));
      && (forall i :: 0 <= i < |own| ==> Sorted(live, Column(pos + i, stripe, cols), own[i]))
      && InColumn(own, pos, stripe, cols, Pair)
  {
    var plan := ReadPlan(live, rr, stripe, cols);
    var own := Whole(bvecs, pos, stripe, plan);
    var okay := (c: nat, s: set<nat>) => Sorted(live, c, s);
    forall x: nat, j: nat ensures okay(Column(x, stripe, cols), Members(plan(x, j))) {
      DrawIsLive(live, rr(j), Column(x, stripe, cols));
    }
    forall i | 0 <= i < |own| ensures Sorted(live, Column(pos + i, stripe, cols), own[i]) {
      DealOwners(Lengths(bvecs), pos, 0, stripe, cols, plan, okay, i);
    }
    forall i, m | 0 <= i < |own| && m in own[i] ensures Pair(m) == Column(pos + i, stripe, cols) {
      assert Sorted(live, Column(pos + i, stripe, cols), own[i]);
    }
  }

  lemma ReadProper(live: set<nat>, rr: nat -> nat, stripe: nat, cols: nat)
    requires stripe > 0 && cols > 0
    ensures Proper(ReadPlan(live, rr, stripe, cols), 2 * cols)
  {
    forall cur: nat, k: nat ensures Distinct(ReadPlan(live, rr, stripe, cols)(cur, k), 2 * cols) {
      CopyDistinct(live, rr(k), Column(cur, stripe, cols), cols);
    }
  }

  lemma CopyDistinct(live: set<nat>, draw: nat, c: nat, cols: nat)
    requires c < cols
    ensures Distinct(ReadCopy(live, draw, c), 2 * cols)
  {
  }

  /** Each member's command reads the sectors dealt to it, and nothing else. */
  ghost predicate ReadsRight(parts: seq<Part>, blocks: seq<seq<nat>>, own: seq<set<nat>>, pos: nat,
                             stripe: nat, cols: nat)
    requires stripe > 0 && cols > 0 && |own| <= |blocks|
  {
    forall m :: 0 <= m < |parts| ==> Exact(parts[m], blocks, own, m, Pair(m), pos, stripe, cols)
  }

  /** Within every column the draws leave a copy at most once, for good. */
  ghost predicate OneSwitch(own: seq<set<nat>>, pos: nat, stripe: nat, cols: nat)
    requires stripe > 0 && cols > 0
  {
    forall m :: 0 <= m < 2 * cols ==> NoGap(own, m, Pair(m), pos, stripe, cols)
  }

  /** rc_volume_dispatch_raid10, READ. */
  method Raid10Read(bvecs: seq<Frag>, pos: nat, stripe: nat, cols: nat, nm: nat, live: set<nat>, rr: nat -> nat)
    returns (r: Outcome)
    ensures r.Commands? <==>
      && 0 < nm <= MAX_MEMBERS && stripe > 0 && cols > 0 && nm == 2 * cols && Memory(bvecs) != []
      && Dispatchable(bvecs, Whole(bvecs, pos, stripe, ReadPlan(live, rr, stripe, cols)), nm)
    ensures r.Commands? ==>
      var own := Whole(bvecs, pos, stripe, ReadPlan(live, rr, stripe, cols));
      && |r.parts| == nm && AllSized(r.parts)
      && (forall i :: 0 <= i < |own| ==> ReadLive(live, Column(pos + i, stripe, cols), own[i]))
      && (ReadsRight(r.parts, Memory(bvecs), own, pos, stripe, cols) <==> OneSwitch(own, pos, stripe, cols))
  {
    if nm == 0 || nm > MAX_MEMBERS || stripe == 0 || cols == 0 || nm != 2 * cols { return IoErr; }
    var withData;
    ReadProper(live, rr, stripe, cols);
    r, withData := Walk(bvecs, pos, stripe, Striped(stripe, cols), nm, ReadPlan(live, rr, stripe, cols));
    if r.Commands? {
      ReadDeal(bvecs, pos, stripe, cols, live, rr);
      SomeTouched(r.parts, bvecs, pos, stripe, cols, ReadPlan(live, rr, stripe, cols), Striped(stripe, cols));
      if withData == 0 { return IoErr; }
      ReadRightIff(r, bvecs, pos, stripe, cols, live, rr);
      DispatchedSized(r, bvecs, pos, stripe, Striped(stripe, cols), nm, ReadPlan(live, rr, stripe, cols));
      AllLive(Whole(bvecs, pos, stripe, ReadPlan(live, rr, stripe, cols)), pos, stripe, cols, live);
    }
  }

  lemma AllLive(own: seq<set<nat>>, pos: nat, stripe: nat, cols: nat, live: set<nat>)
    requires stripe > 0 && cols > 0 && {} !in own
    requires forall i :: 0 <= i < |own| ==> Sorted(live, Column(pos + i, stripe, cols), own[i])
    ensures forall i :: 0 <= i < |own| ==> ReadLive(live, Column(pos + i, stripe, cols), own[i])
  {
    forall i | 0 <= i < |own| ensures ReadLive(live, Column(pos + i, stripe, cols), own[i]) {
      assert own[i] in own;
      SortedIsLive(live, Column(pos + i, stripe, cols), own[i]);
    }
  }

  /** The commands of an accepted READ fill every sector's memory from the sector the
    * map names if and only if no column's draws come back to a copy they left. */
  lemma ReadRightIff(r: Outcome, bvecs: seq<Frag>, pos: nat, stripe: nat, cols: nat, live: set<nat>, rr: nat -> nat)
    requires stripe > 0 && cols > 0 && r.Commands?
    requires Dispatched(r, bvecs, pos, stripe, Striped(stripe, cols), 2 * cols, ReadPlan(live, rr, stripe, cols))
    ensures var own := Whole(bvecs, pos, stripe, ReadPlan(live, rr, stripe, cols));
      ReadsRight(r.parts, Memory(bvecs), own, pos, stripe, cols) <==> OneSwitch(own, pos, stripe, cols)
  {
    var own := Whole(bvecs, pos, stripe, ReadPlan(live, rr, stripe, cols));
    ReadDeal(bvecs, pos, stripe, cols, live, rr);
    forall m | 0 <= m < 2 * cols
      ensures Exact(r.parts[m], Memory(bvecs), own, m, Pair(m), pos, stripe, cols)
         <==> NoGap(own, m, Pair(m), pos, stripe, cols)
    {
      assert Follows(r.parts[m], Memory(bvecs), own, m, pos, Striped(stripe, cols), MAX_ENTRIES);
      ExactIffNoGap(r.parts[m], Memory(bvecs), own, m, pos, stripe, cols, MAX_ENTRIES, Pair);
    }
  }

  /** A volume with at most one live copy per column always reads right. */
  lemma DegradedReadsRight(bvecs: seq<Frag>, pos: nat, stripe: nat, cols: nat, live: set<nat>, rr: nat -> nat)
    requires stripe > 0 && cols > 0
    requires forall c: nat :: c < cols ==> 2 * c !in live || 2 * c + 1 !in live
    ensures OneSwitch(Whole(bvecs, pos, stripe, ReadPlan(live, rr, stripe, cols)), pos, stripe, cols)
  {
    var own := Whole(bvecs, pos, stripe, ReadPlan(live, rr, stripe, cols));
    ReadDeal(bvecs, pos, stripe, cols, live, rr);
    var g := (c: nat) => Members(ReadCopy(live, 0, c));
    forall i | 0 <= i < |own| ensures own[i] == g(Column(pos + i, stripe, cols)) {
      var c := Column(pos + i, stripe, cols);
      assert Sorted(live, c, own[i]);
      DrawIsLive(live, 0, c);
    }
    forall m | 0 <= m < 2 * cols ensures NoGap(own, m, Pair(m), pos, stripe, cols) {
      ByColumnNoGap(own, pos, stripe, cols, g, Pair, m);
    }
  }

  // ---------- a healthy volume that reads wrong ----------

  /** Four pages at logical sector 104 of a healthy two-column volume with stripes of
    * 128 sectors: three pieces in column 0, one in column 1. */
  const FOUR_PAGES := [Frag(0, 4096), Frag(4096, 4096), Frag(8192, 4096), Frag(12288, 4096)]

  /** No other request draws in between. */
  function Alone(k: nat): nat { k + 1 }

  lemma WholePiece(l: nat, rest: seq<nat>, cur: nat, k: nat, stripe: nat, plan: Plan)
    requires stripe > 0 && l > 0 && cur % stripe + l <= stripe
    ensures Deal([l] + rest, cur, k, stripe, plan)
         == Rep(Members(plan(cur, k)), l) + Deal(rest, cur + l, k + 1, stripe, plan)
  {
    var lens := [l] + rest;
    assert lens[0] == l && lens[1..] == rest;
    DealNext(rest, cur + l, k + 1, stripe, plan);
  }

  function Healthy(): Plan {
    ReadPlan({0, 1, 2, 3}, Alone, 128, 2)
  }

  /** Both copies are live, so the parity of the draw picks. */
  lemma HealthyDraw(cur: nat, k: nat)
    ensures Healthy()(cur, k) == [2 * Column(cur, 128, 2) + (k + 1) % 2]
  {
    var c := Column(cur, 128, 2);
    assert Healthy()(cur, k) == ReadCopy({0, 1, 2, 3}, Alone(k), c);
    assert c == 0 || c == 1;
    if c == 0 { assert 2 * c == 0 && 2 * c + 1 == 1; } else { assert 2 * c == 2 && 2 * c + 1 == 3; }
  }

  /** A page within one stripe goes to the copy its draw picks. */
  lemma HealthyPage(rest: seq<nat>, cur: nat, k: nat)
    requires cur % 128 + 8 <= 128
    ensures Deal([8] + rest, cur, k, 128, Healthy())
         == Rep({2 * Column(cur, 128, 2) + (k + 1) % 2}, 8) + Deal(rest, cur + 8, k + 1, 128, Healthy())
  {
    WholePiece(8, rest, cur, k, 128, Healthy());
    HealthyDraw(cur, k);
    var m := 2 * Column(cur, 128, 2) + (k + 1) % 2;
    assert Members([m]) == {m};
  }

  lemma LastTwo()
    ensures Deal([8, 8], 120, 2, 128, Healthy()) == Rep({1}, 8) + Rep({2}, 8)
  {
    HealthyPage([8], 120, 2);
    HealthyPage([], 128, 3);
    assert [8] + [8] == [8, 8] && [8] + [] == [8];
  }

  lemma FourPagesDeal()
    ensures Whole(FOUR_PAGES, 104, 128, Healthy()) == Rep({1}, 8) + (Rep({0}, 8) + (Rep({1}, 8) + Rep({2}, 8)))
  {
    assert Lengths(FOUR_PAGES) == [8] + [8, 8, 8] && [8] + [8, 8] == [8, 8, 8];
    HealthyPage([8, 8, 8], 104, 0);
    HealthyPage([8, 8], 112, 1);
    LastTwo();
  }

  /** Runs of a joined list are at most the runs of its parts. */
  lemma {:induction false} RunsOfJoin(bs: seq<seq<nat>>)
    requires forall i :: 0 <= i < |bs| ==> Runs(bs[i]) <= 1
    ensures Runs(Join(bs)) <= |bs|
    decreases |bs|
  {
    if bs != [] {
      var n := |bs| - 1;
      RunsOfJoin(bs[..n]);
      RunsAdd(Join(bs[..n]), bs[n]);
    }
  }

  lemma {:induction false} RunsAdd(a: seq<nat>, b: seq<nat>)
    ensures Runs(a + b) <= Runs(a) + Runs(b)
    decreases |b|
  {
    if b == [] {
      assert a + b == a;
    } else {
      var s := a + b;
      assert s[..|s| - 1] == a + b[..|b| - 1];
      RunsAdd(a, b[..|b| - 1]);
    }
  }

  lemma FourPagesMemory()
    ensures |Memory(FOUR_PAGES)| == 32
    ensures forall i :: 0 <= i < 32 ==> Runs(Memory(FOUR_PAGES)[i]) <= 1
  {
    FourPagesStart(4);
    assert FOUR_PAGES[..4] == FOUR_PAGES;
    forall i | 0 <= i < 32 ensures Runs(Memory(FOUR_PAGES)[i]) <= 1 {
      var j, off := i / 8, i % 8 * 512;
      FlattenAt(FOUR_PAGES, j, off, 512);
      FourPagesStart(j);
      RunsOfRange([], FOUR_PAGES[j].addr + off, 512);
      assert [] + Range(FOUR_PAGES[j].addr + off, 512) == Range(FOUR_PAGES[j].addr + off, 512);
    }
  }

  lemma FourPagesStart(j: nat)
    requires j <= 4
    ensures |Flatten(FOUR_PAGES[..j])| == j * 4096
    decreases j
  {
    if j > 0 {
      FourPagesStart(j - 1);
      FlattenNext(FOUR_PAGES, j - 1);
    }
  }

  lemma {:induction false} PickedSingles(blocks: seq<seq<nat>>, own: seq<set<nat>>, m: nat)
    requires |own| <= |blocks| && forall i :: 0 <= i < |blocks| ==> Runs(blocks[i]) <= 1
    ensures forall i :: 0 <= i < |Picked(blocks, own, m)| ==> Runs(Picked(blocks, own, m)[i]) <= 1
    decreases |own|
  {
    if own != [] { PickedSingles(blocks, own[..|own| - 1], m); }
  }

  /** On a healthy volume, with nothing else drawing, this READ is accepted and
    * member 1 is told to read sectors that are not the ones the request names. */
  lemma AlternatingReadIsWrong(r: Outcome)
    requires Dispatched(r, FOUR_PAGES, 104, 128, Striped(128, 2), 4, Healthy())
    ensures r.Commands?
    ensures var own := Whole(FOUR_PAGES, 104, 128, Healthy());
      !ReadsRight(r.parts, Memory(FOUR_PAGES), own, 104, 128, 2)
  {
    var own := Whole(FOUR_PAGES, 104, 128, Healthy());
    FourPagesDeal();
    FourPagesMemory();
    forall m | 0 <= m < 4 ensures Runs(Join(Picked(Memory(FOUR_PAGES), own, m))) <= MAX_ENTRIES {
      PickedSingles(Memory(FOUR_PAGES), own, m);
      RunsOfJoin(Picked(Memory(FOUR_PAGES), own, m));
    }
    assert Gap(own, 1, 0, 104, 128, 2, 0, 8, 16);
    assert !NoGap(own, 1, Pair(1), 104, 128, 2);
    ReadRightIff(r, FOUR_PAGES, 104, 128, 2, {0, 1, 2, 3}, Alone);
  }
}
