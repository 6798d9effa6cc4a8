/** The multi-stripe dispatches of RAID0 and RAID10, against the per-sector map. */
module FanOutDispatch {
  import opened Common
  import opened Striping
  import opened FanOut
  import opened FanOutWalk

  // ---------- what a deal looks like, sector by sector ----------

  /** okay(column, owners) holds of every sector of a deal if it holds of every piece. */
  lemma {:induction false} DealOwners(lens: seq<nat>, cur: nat, k: nat, stripe: nat, cols: nat, plan: Plan,
                                      okay: (nat, set<nat>) -> bool, i: nat)
    requires stripe > 0 && cols > 0 && i < |Deal(lens, cur, k, stripe, plan)|
    requires forall x: nat, j: nat :: okay(Column(x, stripe, cols), Members(plan(x, j)))
    ensures okay(Column(cur + i, stripe, cols), Deal(lens, cur, k, stripe, plan)[i])
    decreases |lens|, if lens == [] then 0 else lens[0]
  {
    if lens[0] == 0 {
      DealOwners(lens[1..], cur, k, stripe, cols, plan, okay, i);
    } else {
      var n := Least(lens[0], stripe - cur % stripe);
      if i < n {
        RunWithinStripe(cur, i, stripe, cols);
      } else {
        DealOwners([lens[0] - n] + lens[1..], cur + n, k + 1, stripe, cols, plan, okay, i - n);
      }
    }
  }

  /** Every sector of column c goes to g(c). */
  ghost predicate ByColumn(own: seq<set<nat>>, pos: nat, stripe: nat, cols: nat, g: nat -> set<nat>)
    requires stripe > 0 && cols > 0
  {
    forall i :: 0 <= i < |own| ==> own[i] == g(Column(pos + i, stripe, cols))
  }

  /** A plan that looks at the column alone leaves no gap. */
  lemma ByColumnNoGap(own: seq<set<nat>>, pos: nat, stripe: nat, cols: nat, g: nat -> set<nat>,
                      colOf: nat -> nat, m: nat)
    requires stripe > 0 && cols > 0 && ByColumn(own, pos, stripe, cols, g)
    requires InColumn(own, pos, stripe, cols, colOf)
    ensures NoGap(own, m, colOf(m), pos, stripe, cols)
  {
    forall a, b, d | 0 <= a && 0 <= b && 0 <= d
      ensures !Gap(own, m, colOf(m), pos, stripe, cols, a, b, d)
    {
      if a < |own| && b < |own| && m in own[a] {
        assert own[a] == g(Column(pos + a, stripe, cols)) && own[b] == g(Column(pos + b, stripe, cols));
      }
    }
  }

  /** The sectors of a request that member m of column c stores, by the map alone. */
  function MapWants(blocks: seq<seq<nat>>, c: nat, q: nat, pos: nat, stripe: nat, cols: nat): Option<seq<nat>>
    requires stripe > 0 && cols > 0
  {
    var x := Logical(c, q, stripe, cols);
    if pos <= x < pos + |blocks| then Some(blocks[x - pos]) else None
  }

  /** The command of a member joins to each of its sectors exactly what the map says. */
  ghost predicate Refines(p: Part, blocks: seq<seq<nat>>, c: nat, pos: nat, stripe: nat, cols: nat)
    requires stripe > 0 && cols > 0
  {
    forall q: nat :: Lands(p, q) == MapWants(blocks, c, q, pos, stripe, cols)
  }

  lemma ColumnIsRefined(p: Part, blocks: seq<seq<nat>>, own: seq<set<nat>>, m: nat, pos: nat, stripe: nat,
                        cols: nat, g: nat -> set<nat>, colOf: nat -> nat)
    requires stripe > 0 && colOf(m) < cols && ByColumn(own, pos, stripe, cols, g) && m in g(colOf(m))
    requires InColumn(own, pos, stripe, cols, colOf) && |own| == |blocks|
    requires Follows(p, blocks, own, m, pos, Striped(stripe, cols), MAX_ENTRIES)
    ensures Refines(p, blocks, colOf(m), pos, stripe, cols)
  {
    var c := colOf(m);
    ByColumnNoGap(own, pos, stripe, cols, g, colOf, m);
    NoGapIsExact(p, blocks, own, m, pos, stripe, cols, MAX_ENTRIES, colOf);
    forall q: nat ensures Lands(p, q) == MapWants(blocks, c, q, pos, stripe, cols) {
      var x := Logical(c, q, stripe, cols);
      MapOfLogical(c, q, stripe, cols);
      if pos <= x < pos + |own| { assert own[x - pos] == g(Column(pos + (x - pos), stripe, cols)); }
      assert Lands(p, q) == Wanted(blocks, own, m, c, q, pos, stripe, cols);
    }
  }

  // ---------- RAID0 ----------

  function Raid0Plan(stripe: nat, nm: nat): Plan
    requires stripe > 0 && nm > 0
  {
    (cur: nat, k: nat) => [Column(cur, stripe, nm)]
  }

  lemma Raid0Deal(bvecs: seq<Frag>, pos: nat, stripe: nat, nm: nat)
    requires stripe > 0 && nm > 0
    ensures ByColumn(Whole(bvecs, pos, stripe, Raid0Plan(stripe, nm)), pos, stripe, nm, c => {c})
    ensures InColumn(Whole(bvecs, pos, stripe, Raid0Plan(stripe, nm)), pos, stripe, nm, m => m)
  {
    var plan := Raid0Plan(stripe, nm);
    var own := Whole(bvecs, pos, stripe, plan);
    forall x: nat, j: nat ensures ((c: nat, s: set<nat>) => s == {c})(Column(x, stripe, nm), Members(plan(x, j))) {
      assert plan(x, j) == [Column(x, stripe, nm)];
    }
    forall i | 0 <= i < |own| ensures own[i] == {Column(pos + i, stripe, nm)} {
      DealOwners(Lengths(bvecs), pos, 0, stripe, nm, plan, (c: nat, s: set<nat>) => s == {c}, i);
    }
  }

  /** The request reaches a second member. */
  predicate Spans(n: nat, pos: nat, stripe: nat, nm: nat)
    requires stripe > 0 && nm > 0
  {
    exists i :: 0 <= i < n && Elsewhere(pos, i, stripe, nm)
  }

  predicate Elsewhere(pos: nat, i: nat, stripe: nat, nm: nat)
    requires stripe > 0 && nm > 0
  {
    Column(pos + i, stripe, nm) != Column(pos, stripe, nm)
  }

  /** rc_volume_dispatch_multi_stripe, for READ and WRITE alike: accepted exactly
    * when every fragment is whole sectors, every list has room and two members
    * have data; then each member's one command refines the per-sector map. */
  method MultiStripe(bvecs: seq<Frag>, pos: nat, stripe: nat, nm: nat) returns (r: Outcome)
    ensures r.Commands? <==>
      && 0 < nm <= MAX_MEMBERS && stripe > 0
      && Dispatchable(bvecs, Whole(bvecs, pos, stripe, Raid0Plan(stripe, nm)), nm)
      && Spans(|Memory(bvecs)|, pos, stripe, nm)
    ensures r.Commands? ==> |r.parts| == nm && AllSized(r.parts)
    ensures r.Commands? ==> forall m :: 0 <= m < nm ==> Refines(r.parts[m], Memory(bvecs), m, pos, stripe, nm)
  {
    if nm == 0 || nm > MAX_MEMBERS || stripe == 0 { return IoErr; }
    var withData;
    Raid0Proper(stripe, nm);
    r, withData := Walk(bvecs, pos, stripe, Striped(stripe, nm), nm, Raid0Plan(stripe, nm));
    if r.Commands? {
      Raid0Refined(r, bvecs, pos, stripe, nm);
      Raid0Touched(r.parts, bvecs, pos, stripe, nm);
      DispatchedSized(r, bvecs, pos, stripe, Striped(stripe, nm), nm, Raid0Plan(stripe, nm));
      if withData < 2 { r := IoErr; }
    }
  }

  lemma Raid0Proper(stripe: nat, nm: nat)
    requires stripe > 0 && nm > 0
    ensures Proper(Raid0Plan(stripe, nm), nm)
  {
  }

  lemma Raid0Refined(r: Outcome, bvecs: seq<Frag>, pos: nat, stripe: nat, nm: nat)
    requires stripe > 0 && nm > 0 && r.Commands?
    requires Dispatched(r, bvecs, pos, stripe, Striped(stripe, nm), nm, Raid0Plan(stripe, nm))
    ensures forall m :: 0 <= m < nm ==> Refines(r.parts[m], Memory(bvecs), m, pos, stripe, nm)
  {
    var own := Whole(bvecs, pos, stripe, Raid0Plan(stripe, nm));
    Raid0Deal(bvecs, pos, stripe, nm);
    WholeFits(bvecs, pos, stripe, Raid0Plan(stripe, nm));
    forall m | 0 <= m < nm ensures Refines(r.parts[m], Memory(bvecs), m, pos, stripe, nm) {
      ColumnIsRefined(r.parts[m], Memory(bvecs), own, m, pos, stripe, nm, c => {c}, m => m);
    }
  }

  /** members_with_data counts the columns the request reaches. */
  lemma Raid0Touched(parts: seq<Part>, bvecs: seq<Frag>, pos: nat, stripe: nat, nm: nat)
    requires stripe > 0 && nm > 0 && |parts| == nm && Splittable(bvecs)
    requires AllFollow(parts, Memory(bvecs), Whole(bvecs, pos, stripe, Raid0Plan(stripe, nm)), pos, Striped(stripe, nm))
    ensures |Touched(parts)| >= 2 <==> Spans(|Memory(bvecs)|, pos, stripe, nm)
  {
    var n, own := |Memory(bvecs)|, Whole(bvecs, pos, stripe, Raid0Plan(stripe, nm));
    Raid0Deal(bvecs, pos, stripe, nm);
    WholeFits(bvecs, pos, stripe, Raid0Plan(stripe, nm));
    var at := Striped(stripe, nm);
    if Spans(n, pos, stripe, nm) {
      var i :| 0 <= i < n && Elsewhere(pos, i, stripe, nm);
      TouchedBySector(parts, Memory(bvecs), own, Column(pos, stripe, nm), pos, at, 0);
      TouchedBySector(parts, Memory(bvecs), own, Column(pos + i, stripe, nm), pos, at, i);
      TwoMembers(Touched(parts), Column(pos, stripe, nm), Column(pos + i, stripe, nm));
    } else {
      forall m | m in Touched(parts) ensures m == Column(pos, stripe, nm) {
        var i := SectorOfTouched(parts, Memory(bvecs), own, m, pos, at);
        assert own[i] == {Column(pos + i, stripe, nm)} && !Elsewhere(pos, i, stripe, nm);
      }
      OneMember(Touched(parts), Column(pos, stripe, nm));
    }
  }

  lemma TouchedBySector(parts: seq<Part>, blocks: seq<seq<nat>>, own: seq<set<nat>>, m: nat, pos: nat, at: Place,
                        i: nat)
    requires AllFollow(parts, blocks, own, pos, at) && m < |parts| && i < |own| && m in own[i]
    ensures m in Touched(parts)
  {
    assert Follows(parts[m], blocks, own, m, pos, at, MAX_ENTRIES);
    FirstIsFirst(own, m, i);
  }

  lemma SectorOfTouched(parts: seq<Part>, blocks: seq<seq<nat>>, own: seq<set<nat>>, m: nat, pos: nat, at: Place)
    returns (i: nat)
    requires AllFollow(parts, blocks, own, pos, at) && m in Touched(parts)
    ensures i < |own| && m in own[i]
  {
    assert Follows(parts[m], blocks, own, m, pos, at, MAX_ENTRIES);
    i := PlaceHasSector(own, m, 0);
  }

  lemma TwoMembers(s: set<nat>, a: nat, b: nat)
    requires a in s && b in s && a != b
    ensures |s| >= 2
  {
    assert s == {a, b} + (s - {a, b});
  }

  lemma OneMember(s: set<nat>, a: nat)
    requires forall m :: m in s ==> m == a
    ensures |s| <= 1
  {
    if s != {} { assert s == {a}; }
  }

  // ---------- RAID10 WRITE ----------

  /** The write-eligible copies of column c. */
  function Copies(eligible: set<nat>, c: nat): seq<nat> {
    (if 2 * c in eligible then [2 * c] else []) + (if 2 * c + 1 in eligible then [2 * c + 1] else [])
  }

  /** The column of a RAID10 member. */
  function Pair(m: nat): nat { m / 2 }

  function WritePlan(wr: set<nat>, stripe: nat, cols: nat): Plan
    requires stripe > 0 && cols > 0
  {
    (cur: nat, k: nat) => Copies(wr, Column(cur, stripe, cols))
  }

  lemma CopiesAre(eligible: set<nat>, c: nat, m: nat)
    ensures m in Members(Copies(eligible, c)) <==> m / 2 == c && m in eligible
  {
  }

  lemma WriteDeal(bvecs: seq<Frag>, pos: nat, stripe: nat, cols: nat, wr: set<nat>)
    requires stripe > 0 && cols > 0
    ensures var own := Whole(bvecs, pos, stripe, WritePlan(wr, stripe, cols));
      ByColumn(own, pos, stripe, cols, c => Members(Copies(wr, c)))
      && InColumn(own, pos, stripe, cols, Pair)
  {
    var plan := WritePlan(wr, stripe, cols);
    var own := Whole(bvecs, pos, stripe, plan);
    var okay := (c: nat, s: set<nat>) => s == Members(Copies(wr, c));
    forall i | 0 <= i < |own| ensures own[i] == Members(Copies(wr, Column(pos + i, stripe, cols))) {
      DealOwners(Lengths(bvecs), pos, 0, stripe, cols, plan, okay, i);
    }
    forall i, m | 0 <= i < |own| && m in own[i] ensures Pair(m) == Column(pos + i, stripe, cols) {
      CopiesAre(wr, Column(pos + i, stripe, cols), m);
    }
  }

  lemma WriteProper(wr: set<nat>, stripe: nat, cols: nat)
    requires stripe > 0 && cols > 0
    ensures Proper(WritePlan(wr, stripe, cols), 2 * cols)
  {
    forall cur: nat, k: nat ensures Distinct(WritePlan(wr, stripe, cols)(cur, k), 2 * cols) {
      assert Column(cur, stripe, cols) < cols;
    }
  }

  /** Every write-eligible copy is told what the map says, every other member nothing. */
  ghost predicate WriteRefines(parts: seq<Part>, blocks: seq<seq<nat>>, pos: nat, stripe: nat, cols: nat, wr: set<nat>)
    requires stripe > 0 && cols > 0
  {
    forall m :: 0 <= m < |parts| ==>
      if m in wr then Refines(parts[m], blocks, m / 2, pos, stripe, cols) else !parts[m].has
  }

  /** rc_volume_dispatch_raid10, WRITE: every write-eligible copy gets one command
    * that refines the map of its column, every other member gets none. */
  method Raid10Write(bvecs: seq<Frag>, pos: nat, stripe: nat, cols: nat, nm: nat, wr: set<nat>) returns (r: Outcome)
    ensures r.Commands? <==>
      && 0 < nm <= MAX_MEMBERS && stripe > 0 && cols > 0 && nm == 2 * cols && Memory(bvecs) != []
      && Dispatchable(bvecs, Whole(bvecs, pos, stripe, WritePlan(wr, stripe, cols)), nm)
    ensures r.Commands? ==> |r.parts| == nm && AllSized(r.parts)
    ensures r.Commands? ==> WriteRefines(r.parts, Memory(bvecs), pos, stripe, cols, wr)
  {
    if nm == 0 || nm > MAX_MEMBERS || stripe == 0 || cols == 0 || nm != 2 * cols { return IoErr; }
    var withData;
    WriteProper(wr, stripe, cols);
    r, withData := Walk(bvecs, pos, stripe, Striped(stripe, cols), nm, WritePlan(wr, stripe, cols));
    if r.Commands? {
      WriteRefined(r, bvecs, pos, stripe, cols, wr);
      WriteDeal(bvecs, pos, stripe, cols, wr);
      DispatchedSized(r, bvecs, pos, stripe, Striped(stripe, cols), nm, WritePlan(wr, stripe, cols));
      SomeTouched(r.parts, bvecs, pos, stripe, cols, WritePlan(wr, stripe, cols), Striped(stripe, cols));
      if withData == 0 { r := IoErr; }
    }
  }

  lemma WriteRefined(r: Outcome, bvecs: seq<Frag>, pos: nat, stripe: nat, cols: nat, wr: set<nat>)
    requires stripe > 0 && cols > 0 && r.Commands?
    requires Dispatched(r, bvecs, pos, stripe, Striped(stripe, cols), 2 * cols, WritePlan(wr, stripe, cols))
    ensures WriteRefines(r.parts, Memory(bvecs), pos, stripe, cols, wr)
  {
    var own := Whole(bvecs, pos, stripe, WritePlan(wr, stripe, cols));
    var g := (c: nat) => Members(Copies(wr, c));
    WriteDeal(bvecs, pos, stripe, cols, wr);
    WholeFits(bvecs, pos, stripe, WritePlan(wr, stripe, cols));
    forall m | 0 <= m < 2 * cols
      ensures if m in wr then Refines(r.parts[m], Memory(bvecs), m / 2, pos, stripe, cols) else !r.parts[m].has
    {
      assert Follows(r.parts[m], Memory(bvecs), own, m, pos, Striped(stripe, cols), MAX_ENTRIES);
      CopiesAre(wr, m / 2, m);
      if m in wr {
        ColumnIsRefined(r.parts[m], Memory(bvecs), own, m, pos, stripe, cols, g, Pair);
      } else if r.parts[m].has {
        var i := PlaceHasSector(own, m, 0);
        CopiesAre(wr, Column(pos + i, stripe, cols), m);
        assert false;
      }
    }
  }

  lemma SomeTouched(parts: seq<Part>, bvecs: seq<Frag>, pos: nat, stripe: nat, cols: nat, plan: Plan, at: Place)
    requires stripe > 0 && cols > 0 && |parts| == 2 * cols
    requires var own := Whole(bvecs, pos, stripe, plan);
      Dispatchable(bvecs, own, |parts|) && AllFollow(parts, Memory(bvecs), own, pos, at)
      && InColumn(own, pos, stripe, cols, Pair)
    ensures Touched(parts) != {} <==> Memory(bvecs) != []
  {
    var own := Whole(bvecs, pos, stripe, plan);
    WholeFits(bvecs, pos, stripe, plan);
    if own != [] {
      assert own[0] in own;
      assert own[0] != {};
      var m :| m in own[0];
      assert Pair(m) == Column(pos + 0, stripe, cols);
      TouchedBySector(parts, Memory(bvecs), own, m, pos, at, 0);
    } else {
      forall m: nat | m < |parts| ensures !parts[m].has {
        assert Follows(parts[m], Memory(bvecs), own, m, pos, at, MAX_ENTRIES);
      }
    }
  }
}
