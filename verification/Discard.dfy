/** The closed-form DISCARD extents: each member's one range, computed without a
  * walk, is precisely the set of its sectors that the request covers. */
module Discard {
  import opened Common
  import opened Striping
  import opened FanOut

  /** A value stored into a u32. */
  function U32(x: int): nat { x % 0x1_0000_0000 }

  /** One DSM range of a member: first sector and length. */
  datatype Extent = Extent(start: int, sectors: int)

  datatype Ranges = Ranges(ext: seq<Option<Extent>>) | IoErr

  /** The range is the member's share of [pos, pos + nr): all of it, nothing else. */
  ghost predicate ExactRange(e: Option<Extent>, c: nat, pos: nat, nr: nat, stripe: nat, cols: nat)
    requires stripe > 0 && cols > 0
  {
    && (e.Some? ==> e.value.start >= 0 && e.value.sectors > 0)
    && forall p: nat :: InExtent(e, p) <==> pos <= Logical(c, p, stripe, cols) < pos + nr
  }

  predicate InExtent(e: Option<Extent>, p: nat) {
    e.Some? && e.value.start <= p < e.value.start + e.value.sectors
  }

  // ---------- ranks ----------

  lemma {:induction false} RankMonotone(x: nat, y: nat, c: nat, stripe: nat, cols: nat)
    requires stripe > 0 && c < cols && x <= y
    ensures Rank(x, c, stripe, cols) <= Rank(y, c, stripe, cols) <= Rank(x, c, stripe, cols) + (y - x)
    decreases y - x
  {
    if x < y {
      RankMonotone(x, y - 1, c, stripe, cols);
      RankStep(y - 1, c, stripe, cols);
    }
  }

  /** Rank is the inverse of Logical in the order: sector p of column c lies below
    * logical sector x exactly when p is below x's rank. */
  lemma BelowRank(p: nat, x: nat, c: nat, stripe: nat, cols: nat)
    requires stripe > 0 && c < cols
    ensures Logical(c, p, stripe, cols) < x <==> p < Rank(x, c, stripe, cols)
  {
    var l := Logical(c, p, stripe, cols);
    MapOfLogical(c, p, stripe, cols);
    assert Rank(l, c, stripe, cols) == p;
    if l < x {
      RankStep(l, c, stripe, cols);
      RankMonotone(l + 1, x, c, stripe, cols);
    } else {
      RankMonotone(x, l, c, stripe, cols);
    }
  }

  lemma RankNonNegative(x: nat, c: nat, stripe: nat, cols: nat)
    requires stripe > 0 && c < cols
    ensures Rank(x, c, stripe, cols) >= 0
  {
    var row := x / stripe / cols;
    assert row * stripe >= 0 && (row + 1) * stripe >= 0;
  }

  /** Any range from the rank of pos to the rank of pos + nr is exact. */
  lemma RankRangeIsExact(e: Option<Extent>, c: nat, pos: nat, nr: nat, stripe: nat, cols: nat)
    requires stripe > 0 && c < cols
    requires if e.Some?
      then e.value.start == Rank(pos, c, stripe, cols) && e.value.sectors > 0
        && e.value.start + e.value.sectors == Rank(pos + nr, c, stripe, cols)
      else Rank(pos, c, stripe, cols) == Rank(pos + nr, c, stripe, cols)
    ensures ExactRange(e, c, pos, nr, stripe, cols)
  {
    RankNonNegative(pos, c, stripe, cols);
    forall p: nat ensures InExtent(e, p) <==> pos <= Logical(c, p, stripe, cols) < pos + nr {
      BelowRank(p, pos, c, stripe, cols);
      BelowRank(p, pos + nr, c, stripe, cols);
    }
  }

  // ---------- the stripes a column owns ----------

  /** The first stripe from s on that column c owns, as the code finds it. */
  function FirstOwned(s: nat, c: nat, cols: nat): nat
    requires c < cols
  {
    s + (c + cols - s % cols) % cols
  }

  lemma FirstOwnedIs(s: nat, c: nat, cols: nat)
    requires c < cols
    ensures var f := FirstOwned(s, c, cols); var col := s % cols;
      f - s == (if c < col then c + cols - col else c - col)
      && f % cols == c && f / cols == (if c < col then s / cols + 1 else s / cols)
      && s <= f < s + cols && (f == s <==> c == col)
  {
    var row, col := s / cols, s % cols;
    if c < col {
      DivUnique(c + cols - col, 0, c + cols - col, cols);
      DivUnique(s + (c + cols - col), row + 1, c, cols);
    } else {
      DivUnique(c + cols - col, 1, c - col, cols);
      DivUnique(s + (c - col), row, c, cols);
    }
  }

  /** Of the stripes owned by f's column, the last one up to e. */
  function LastOwned(f: nat, e: nat, cols: nat): nat
    requires cols > 0 && f <= e
  {
    e - (e - f) % cols
  }

  lemma LastOwnedIs(f: nat, e: nat, cols: nat)
    requires cols > 0 && f <= e
    ensures LastOwned(f, e, cols) == f + (e - f) / cols * cols
    ensures var l := LastOwned(f, e, cols); var c, col := f % cols, e % cols;
      l / cols == (if c > col then e / cols - 1 else e / cols)
      && l / cols == f / cols + (e - f) / cols && (l == e <==> c == col)
  {
    var q, r, row, c := (e - f) / cols, (e - f) % cols, f / cols, f % cols;
    DivMod(f, cols);
    DivMod(e - f, cols);
    LastOwnedParts(row, c, q, r, cols, LastOwned(f, e, cols), e);
  }

  lemma DivMod(x: nat, d: nat)
    requires d > 0
    ensures x == x / d * d + x % d && x % d < d
  {
  }

  lemma LastOwnedParts(row: nat, c: nat, q: nat, r: nat, cols: nat, l: nat, e: nat)
    requires c < cols && r < cols && l == row * cols + c + q * cols && e == l + r
    ensures
      l / cols == row + q
      && (if c + r < cols then e / cols == row + q && e % cols == c + r
          else e / cols == row + q + 1 && e % cols == c + r - cols)
  {
    Distribute(row, q, cols);
    DivUnique(l, row + q, c, cols);
    AddWithin(row + q, c, r, cols);
  }

  /** Less than one row further on. */
  lemma AddWithin(row: nat, c: nat, r: nat, cols: nat)
    requires c < cols && r < cols
    ensures var e := row * cols + c + r;
      if c + r < cols then e / cols == row && e % cols == c + r
      else e / cols == row + 1 && e % cols == c + r - cols
  {
    if c + r < cols {
      DivUnique(row * cols + c + r, row, c + r, cols);
    } else {
      Distribute(row, 1, cols);
      DivUnique(row * cols + c + r, row + 1, c + r - cols, cols);
    }
  }

  // ---------- one member ----------

  /** The offset of x in its stripe, as a u32. */
  function Offset(x: int, stripe: nat): int
    requires stripe > 0
  {
    U32(x - x / stripe * stripe)
  }

  /** The first owned stripe, with the owner of s as a u32. */
  function FirstStripe(s: int, c: nat, cols: nat): int
    requires c < cols
  {
    s + (c + cols - U32(s % cols)) % cols
  }

  /** The last owned stripe, by way of the u32 count of owned stripes. */
  function LastStripe(first: int, e: int, cols: nat): int
    requires cols > 0
  {
    var count := U32(U32((e - first) / cols) + 1);
    first + (count - 1) * cols
  }

  /** The body of the extent loop, with every u32 the code stores into. */
  function MemberExtent(c: nat, pos: nat, nr: nat, stripe: nat, cols: nat): Option<Extent>
    requires stripe > 0 && c < cols
  {
    var s := pos / stripe;
    var endLba := pos + nr - 1;
    var e := endLba / stripe;
    var first := FirstStripe(s, c, cols);
    if first > e then None
    else
      var last := LastStripe(first, e, cols);
      var mStart := if first == s then Offset(pos, stripe) else 0;
      var mEnd := if last == e then Offset(endLba, stripe) else stripe - 1;
      Some(Extent(first / cols * stripe + mStart, U32(Span(first / cols, last / cols, mStart, mEnd, stripe))))
  }

  /** Sectors from offset mStart of one physical stripe to offset mEnd of another. */
  function Span(firstPhys: int, lastPhys: int, mStart: int, mEnd: int, stripe: int): int {
    (lastPhys - firstPhys) * stripe + mEnd - mStart + 1
  }

  lemma SpanIs(firstPhys: int, lastPhys: int, mStart: int, mEnd: int, stripe: int)
    ensures Span(firstPhys, lastPhys, mStart, mEnd, stripe)
         == lastPhys * stripe + mEnd + 1 - (firstPhys * stripe + mStart)
  {
  }

  lemma U32Fits(x: nat)
    requires x < 0x1_0000_0000
    ensures U32(x) == x
  {
  }

  /** The start is the rank of pos. */
  lemma StartIsRank(c: nat, pos: nat, stripe: nat, cols: nat)
    requires stripe > 0 && c < cols
    ensures var s := pos / stripe; var f := FirstOwned(s, c, cols);
      f / cols * stripe + (if f == s then pos % stripe else 0) == Rank(pos, c, stripe, cols)
  {
    FirstOwnedIs(pos / stripe, c, cols);
  }

  /** The end is the rank of the sector after the last. */
  lemma EndIsRank(c: nat, f: nat, end: nat, stripe: nat, cols: nat)
    requires stripe > 0 && c < cols && f % cols == c && f <= end / stripe
    ensures var e := end / stripe; var l := LastOwned(f, e, cols);
      l / cols * stripe + (if l == e then end % stripe else stripe - 1) + 1 == Rank(end + 1, c, stripe, cols)
  {
    LastOwnedIs(f, end / stripe, cols);
    RankStep(end, c, stripe, cols);
    Distribute(end / stripe / cols, 1, stripe);
    Distribute(end / stripe / cols, -1, stripe);
  }

  /** A column whose first stripe lies beyond the end owns nothing in the range. */
  lemma NothingOwned(c: nat, pos: nat, end: nat, stripe: nat, cols: nat)
    requires stripe > 0 && c < cols && pos <= end
    requires FirstOwned(pos / stripe, c, cols) > end / stripe
    ensures Rank(pos, c, stripe, cols) == Rank(end + 1, c, stripe, cols)
  {
    var s, e := pos / stripe, end / stripe;
    FirstOwnedIs(s, c, cols);
    DivMonotone(pos, end, stripe);
    SameRow(s, e, c, cols);
    RankStep(end, c, stripe, cols);
  }

  /** From s up to before c's next stripe, c is never the owner, and stays on the
    * same side. */
  lemma SameRow(s: nat, e: nat, c: nat, cols: nat)
    requires c < cols && s <= e < FirstOwned(s, c, cols)
    ensures e % cols != c
    ensures (if c < e % cols then e / cols + 1 else e / cols) == (if c < s % cols then s / cols + 1 else s / cols)
  {
    FirstOwnedIs(s, c, cols);
    var d := e - s;
    assert d < cols;
    assert e == s / cols * cols + s % cols + d;
    AddWithin(s / cols, s % cols, d, cols);
  }

  // ---------- the whole member ----------

  lemma OffsetIs(x: nat, stripe: nat)
    requires 0 < stripe < 0x1_0000_0000
    ensures Offset(x, stripe) == x % stripe
  {
    U32Fits(x % stripe);
  }

  lemma FirstStripeIs(s: nat, c: nat, cols: nat)
    requires c < cols < 0x1_0000_0000
    ensures FirstStripe(s, c, cols) == FirstOwned(s, c, cols)
  {
    U32Fits(s % cols);
  }

  lemma LastStripeIs(pos: nat, end: nat, f: nat, stripe: nat, cols: nat)
    requires stripe > 0 && cols > 0 && pos <= end && end - pos < 0x1_0000_0000 - 1
    requires pos / stripe <= f <= end / stripe
    ensures LastStripe(f, end / stripe, cols) == LastOwned(f, end / stripe, cols)
  {
    CountFits(pos, end, f, stripe, cols);
    LastOwnedIs(f, end / stripe, cols);
  }

  /** Without its u32s the closed form reads like this. */
  lemma MemberExtentParts(c: nat, pos: nat, nr: nat, stripe: nat, cols: nat)
    requires stripe > 0 && c < cols && 0 < nr < 0x1_0000_0000 && stripe < 0x1_0000_0000 && cols < 0x1_0000_0000
    ensures var end := pos + nr - 1; var f := FirstOwned(pos / stripe, c, cols);
      MemberExtent(c, pos, nr, stripe, cols) ==
      if f > end / stripe then None
      else
        var l := LastOwned(f, end / stripe, cols);
        var mStart := if f == pos / stripe then pos % stripe else 0;
        var mEnd := if l == end / stripe then end % stripe else stripe - 1;
        Some(Extent(f / cols * stripe + mStart, U32(Span(f / cols, l / cols, mStart, mEnd, stripe))))
  {
    var end := pos + nr - 1;
    OffsetIs(pos, stripe);
    OffsetIs(end, stripe);
    FirstStripeIs(pos / stripe, c, cols);
    var f := FirstOwned(pos / stripe, c, cols);
    if f <= end / stripe { LastStripeIs(pos, end, f, stripe, cols); }
  }

  /** The number of owned stripes fits its u32, before and after the + 1. */
  lemma CountFits(pos: nat, end: nat, f: nat, stripe: nat, cols: nat)
    requires stripe > 0 && cols > 0 && pos <= end && end - pos < 0x1_0000_0000 - 1
    requires pos / stripe <= f <= end / stripe
    ensures var q := (end / stripe - f) / cols; U32(U32(q) + 1) == q + 1
  {
    StripesSpanned(pos, end, stripe);
    QuotientSmaller(end / stripe - f, cols);
    U32Fits((end / stripe - f) / cols);
    U32Fits((end / stripe - f) / cols + 1);
  }

  /** A range spans at most as many further stripes as it has further sectors. */
  lemma StripesSpanned(pos: nat, end: nat, stripe: nat)
    requires stripe > 0 && pos <= end
    ensures end / stripe - pos / stripe <= end - pos
  {
    var k := end / stripe - pos / stripe;
    Distribute(end / stripe, - (pos / stripe), stripe);
    if k >= 1 {
      MulLe(1, stripe, k - 1);
      Distribute(k, -1, stripe);
    }
  }

  lemma QuotientSmaller(x: nat, d: nat)
    requires d > 0
    ensures x / d <= x
  {
    MulLe(1, d, x / d);
  }

  /** Stripe f has a sector in the range. */
  lemma SomethingOwned(c: nat, pos: nat, end: nat, f: nat, stripe: nat, cols: nat)
    requires stripe > 0 && c < cols && pos <= end && f % cols == c && pos / stripe <= f <= end / stripe
    ensures Rank(pos, c, stripe, cols) < Rank(end + 1, c, stripe, cols)
  {
    var x := SectorOf(f, pos, end, stripe);
    RankStep(x, c, stripe, cols);
    RankMonotone(pos, x, c, stripe, cols);
    RankMonotone(x + 1, end + 1, c, stripe, cols);
  }

  lemma SectorOf(f: nat, pos: nat, end: nat, stripe: nat) returns (x: nat)
    requires stripe > 0 && pos <= end && pos / stripe <= f <= end / stripe
    ensures pos <= x <= end && x / stripe == f
  {
    if f == pos / stripe {
      x := pos;
    } else {
      x := f * stripe;
      DivUnique(x, f, 0, stripe);
      MulLe(f, end / stripe, stripe);
      MulLe(pos / stripe + 1, f, stripe);
    }
  }

  /** The closed form of one member is exact, and no u32 overflows on the way. */
  lemma MemberExtentExact(c: nat, pos: nat, nr: nat, stripe: nat, cols: nat)
    requires stripe > 0 && c < cols && 0 < nr < 0x1_0000_0000 && stripe < 0x1_0000_0000 && cols < 0x1_0000_0000
    ensures ExactRange(MemberExtent(c, pos, nr, stripe, cols), c, pos, nr, stripe, cols)
  {
    var end := pos + nr - 1;
    var f := FirstOwned(pos / stripe, c, cols);
    MemberExtentParts(c, pos, nr, stripe, cols);
    if f > end / stripe {
      NothingOwned(c, pos, end, stripe, cols);
    } else {
      FirstOwnedIs(pos / stripe, c, cols);
      SomeExtentIsRank(c, pos, nr, f, stripe, cols);
    }
    RankRangeIsExact(MemberExtent(c, pos, nr, stripe, cols), c, pos, nr, stripe, cols);
  }

  lemma SomeExtentIsRank(c: nat, pos: nat, nr: nat, f: nat, stripe: nat, cols: nat)
    requires stripe > 0 && c < cols && 0 < nr < 0x1_0000_0000 && stripe < 0x1_0000_0000 && cols < 0x1_0000_0000
    requires f == FirstOwned(pos / stripe, c, cols) && f % cols == c && pos / stripe <= f <= (pos + nr - 1) / stripe
    ensures var e := MemberExtent(c, pos, nr, stripe, cols);
      e.Some? && e.value.start == Rank(pos, c, stripe, cols) && e.value.sectors > 0
      && e.value.start + e.value.sectors == Rank(pos + nr, c, stripe, cols)
  {
    var end := pos + nr - 1;
    var l := LastOwned(f, end / stripe, cols);
    MemberExtentParts(c, pos, nr, stripe, cols);
    StartIsRank(c, pos, stripe, cols);
    EndIsRank(c, f, end, stripe, cols);
    SomethingOwned(c, pos, end, f, stripe, cols);
    SpanIs(f / cols, l / cols, if f == pos / stripe then pos % stripe else 0,
           if l == end / stripe then end % stripe else stripe - 1, stripe);
    RankMonotone(pos, pos + nr, c, stripe, cols);
    U32Fits(Rank(pos + nr, c, stripe, cols) - Rank(pos, c, stripe, cols));
  }

  // ---------- the two dispatches ----------

  /** No member has data. */
  predicate Bare(ext: seq<Option<Extent>>) {
    forall i :: 0 <= i < |ext| ==> ext[i].None?
  }

  lemma BareAppend(ext: seq<Option<Extent>>, e: Option<Extent>)
    ensures Bare(ext + [e]) <==> Bare(ext) && e.None?
  {
    if Bare(ext + [e]) {
      assert (ext + [e])[|ext|] == e;
      forall i | 0 <= i < |ext| ensures ext[i].None? { assert (ext + [e])[i] == ext[i]; }
    }
  }

  /** rc_volume_dispatch_multi_stripe_discard: one exact range per member. */
  method MultiStripeDiscard(pos: nat, nr: nat, stripe: nat, nm: nat) returns (r: Ranges)
    requires 0 < nr < 0x1_0000_0000 && stripe < 0x1_0000_0000
    ensures r.Ranges? <==> 0 < nm <= MAX_MEMBERS && stripe > 0
    ensures r.Ranges? ==> |r.ext| == nm && AllExact(r.ext, pos, nr, stripe, nm)
  {
    if nm == 0 || nm > MAX_MEMBERS || stripe == 0 { return IoErr; }
    var ext: seq<Option<Extent>>, withData := [], 0;
    for m := 0 to nm
      invariant |ext| == m && AllExact(ext, pos, nr, stripe, nm)
      invariant withData == 0 <==> Bare(ext)
    {
      var e := MemberExtent(m, pos, nr, stripe, nm);
      MemberExtentExact(m, pos, nr, stripe, nm);
      BareAppend(ext, e);
      ext := ext + [e];
      if e.Some? { withData := withData + 1; }
    }
    OwnerHasRange(ext, pos, nr, stripe, nm);
    if withData == 0 { return IoErr; }
    r := Ranges(ext);
  }

  ghost predicate AllExact(ext: seq<Option<Extent>>, pos: nat, nr: nat, stripe: nat, cols: nat)
    requires stripe > 0 && cols > 0
  {
    forall m :: 0 <= m < |ext| ==> ExactRange(ext[m], m, pos, nr, stripe, cols)
  }

  /** The owner of the first sector has a range. */
  lemma OwnerHasRange(ext: seq<Option<Extent>>, pos: nat, nr: nat, stripe: nat, cols: nat)
    requires stripe > 0 && 0 < cols == |ext| && nr > 0 && AllExact(ext, pos, nr, stripe, cols)
    ensures exists m :: 0 <= m < |ext| && ext[m].Some?
  {
    var c := Column(pos, stripe, cols);
    LogicalOfMap(pos, stripe, cols);
    assert ExactRange(ext[c], c, pos, nr, stripe, cols);
    assert InExtent(ext[c], Phys(pos, stripe, cols));
  }

  /** Both copies of a column own the same sectors; an ineligible copy gets none. */
  ghost predicate CopiesExact(ext: seq<Option<Extent>>, pos: nat, nr: nat, stripe: nat, cols: nat, wr: set<nat>)
    requires stripe > 0 && cols > 0
  {
    forall m :: 0 <= m < |ext| ==>
      if m in wr then ExactRange(ext[m], m / 2, pos, nr, stripe, cols) else ext[m].None?
  }

  /** rc_volume_dispatch_raid10_discard: an exact range for each write-eligible copy,
    * refused only when no eligible copy owns a sector of the request. */
  method Raid10Discard(pos: nat, nr: nat, stripe: nat, cols: nat, nm: nat, wr: set<nat>) returns (r: Ranges)
    requires 0 < nr < 0x1_0000_0000 && stripe < 0x1_0000_0000
    ensures r.Ranges? <==>
      0 < nm <= MAX_MEMBERS && stripe > 0 && cols > 0 && nm == 2 * cols
      && exists m, x :: 0 <= m < nm && m in wr && Owns(m, x, pos, nr, stripe, cols)
    ensures r.Ranges? ==> |r.ext| == nm && CopiesExact(r.ext, pos, nr, stripe, cols, wr)
  {
    if nm == 0 || nm > MAX_MEMBERS || stripe == 0 || cols == 0 || nm != 2 * cols { return IoErr; }
    var ext: seq<Option<Extent>>, withData := [], 0;
    for m := 0 to nm
      invariant |ext| == m && CopiesExact(ext, pos, nr, stripe, cols, wr)
      invariant withData == 0 <==> Bare(ext)
    {
      if m !in wr {
        BareAppend(ext, None);
        ext := ext + [None];
      } else {
        var e := MemberExtent(m / 2, pos, nr, stripe, cols);
        MemberExtentExact(m / 2, pos, nr, stripe, cols);
        BareAppend(ext, e);
        ext := ext + [e];
        if e.Some? { withData := withData + 1; }
      }
    }
    OwnedIffRange(ext, pos, nr, stripe, cols, wr);
    if withData == 0 { return IoErr; }
    r := Ranges(ext);
  }

  /** Logical sector x of the request lies in the column of member m. */
  predicate Owns(m: nat, x: nat, pos: nat, nr: nat, stripe: nat, cols: nat)
    requires stripe > 0 && cols > 0
  {
    pos <= x < pos + nr && Column(x, stripe, cols) == m / 2
  }

  lemma OwnedIffRange(ext: seq<Option<Extent>>, pos: nat, nr: nat, stripe: nat, cols: nat, wr: set<nat>)
    requires stripe > 0 && cols > 0 && |ext| == 2 * cols && CopiesExact(ext, pos, nr, stripe, cols, wr)
    ensures (exists m :: 0 <= m < |ext| && ext[m].Some?)
       <==> exists m, x :: 0 <= m < |ext| && m in wr && Owns(m, x, pos, nr, stripe, cols)
  {
    if m :| 0 <= m < |ext| && ext[m].Some? {
      assert m in wr;
      var p := ext[m].value.start;
      RangeHasSector(ext[m], m / 2, pos, nr, stripe, cols);
      var x := Logical(m / 2, p, stripe, cols);
      MapOfLogical(m / 2, p, stripe, cols);
      assert Owns(m, x, pos, nr, stripe, cols);
    }
    if m, x :| 0 <= m < |ext| && m in wr && Owns(m, x, pos, nr, stripe, cols) {
      LogicalOfMap(x, stripe, cols);
      assert InExtent(ext[m], Phys(x, stripe, cols));
    }
  }

  lemma RangeHasSector(e: Option<Extent>, c: nat, pos: nat, nr: nat, stripe: nat, cols: nat)
    requires stripe > 0 && cols > 0 && e.Some? && ExactRange(e, c, pos, nr, stripe, cols)
    ensures e.value.start >= 0 && pos <= Logical(c, e.value.start, stripe, cols) < pos + nr
  {
  }
}
