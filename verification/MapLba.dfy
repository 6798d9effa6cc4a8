/** Which member a single-member read of src/rc_nvme.c goes to, and where on it. */
module MapLba {
  import opened Common
  import opened Striping

  datatype Level = Raid0 | Raid1 | Raid10

  /** The assembled volume: stripe in sectors, one user-data offset a member. */
  datatype Shape = Shape(level: Level, members: nat, cols: nat, stripe: nat, offsets: seq<nat>)

  predicate ShapeOk(v: Shape) {
    && 0 < v.members <= MAX_MEMBERS && |v.offsets| == MAX_MEMBERS
    && (v.level.Raid0? ==> v.stripe > 0)
    && (v.level.Raid10? ==> 2 * v.cols <= v.members)
  }

  /** The live members of a well-formed mask. */
  predicate LiveOk(v: Shape, live: set<nat>) {
    forall m :: m in live ==> m < v.members
  }

  /** Every logical sector has a live copy. */
  predicate CanServe(v: Shape, live: set<nat>) {
    match v.level
    case Raid1 => live != {}
    case Raid10 => v.cols > 0 && forall c :: 0 <= c < v.cols ==> PairLives(live, c)
    case Raid0 => forall m :: 0 <= m < v.members ==> m in live
  }

  predicate PairLives(live: set<nat>, c: nat) {
    2 * c in live || 2 * c + 1 in live
  }

  /** Member m stores logical sector x. */
  predicate Stores(v: Shape, m: nat, x: nat) {
    match v.level
    case Raid1 => m < v.members
    case Raid10 => v.cols > 0 && v.stripe > 0 && m / 2 == Column(x, v.stripe, v.cols)
    case Raid0 => v.stripe > 0 && v.members > 0 && m == Column(x, v.stripe, v.members)
  }

  /** The sector of member m, from the start of its user data, that stores x. */
  function SectorOn(v: Shape, x: nat): nat
    requires ShapeOk(v) && (v.level.Raid10? ==> v.cols > 0 && v.stripe > 0)
  {
    match v.level
    case Raid1 => x
    case Raid10 => Phys(x, v.stripe, v.cols)
    case Raid0 => Phys(x, v.stripe, v.members)
  }

  // ---------- the round-robin pick ----------

  /** Set bits from b up. */
  function From(live: set<nat>, b: nat): set<nat> {
    set m | m in live && m >= b
  }

  lemma FromNext(live: set<nat>, b: nat)
    ensures From(live, b) == if b in live then From(live, b + 1) + {b} else From(live, b + 1)
    ensures |From(live, b)| == |From(live, b + 1)| + (if b in live then 1 else 0)
  {
    assert From(live, b) == if b in live then From(live, b + 1) + {b} else From(live, b + 1);
  }

  /** m is the n-th set bit, counting from zero. */
  predicate IsNth(live: set<nat>, n: nat, m: nat) {
    m in live && |From(live, m)| == |live| - n
  }

  lemma FromAll(live: set<nat>)
    ensures From(live, 0) == live
  {
  }

  lemma {:induction false} FromShrinks(live: set<nat>, a: nat, b: nat)
    requires a <= b
    ensures |From(live, b)| <= |From(live, a)|
    decreases b - a
  {
    if a < b {
      FromNext(live, a);
      FromShrinks(live, a + 1, b);
    }
  }

  lemma NthIsUnique(live: set<nat>, n: nat, m: nat, k: nat)
    requires IsNth(live, n, m) && IsNth(live, n, k)
    ensures m == k
  {
    var a, b := if m <= k then m else k, if m <= k then k else m;
    if a < b {
      FromNext(live, a);
      FromShrinks(live, a + 1, b);
    }
  }

  /** m is the n-th set bit, and no other number is. */
  ghost predicate OnlyNth(live: set<nat>, n: nat, m: nat) {
    IsNth(live, n, m) && forall k: nat :: IsNth(live, n, k) ==> k == m
  }

  ghost predicate NamesOne(live: set<nat>, n: nat) {
    exists m :: OnlyNth(live, n, m)
  }

  /** Some turn of the round is m's. */
  ghost predicate Visits(live: set<nat>, start: nat, m: nat) {
    exists k :: 0 <= k < |live| && OnlyNth(live, Turn(start, k, |live|), m)
  }

  /** Every number below the number of live members names exactly one of them. */
  lemma NthExists(live: set<nat>, n: nat)
    requires n < |live|
    ensures NamesOne(live, n)
  {
    FromAll(live);
    var m := NthFrom(live, n, 0);
    forall k: nat | IsNth(live, n, k) ensures k == m { NthIsUnique(live, n, m, k); }
    assert OnlyNth(live, n, m);
  }

  /** Searched from bit b on, with the live members below it counted off. */
  lemma {:induction false} NthFrom(live: set<nat>, n: nat, b: nat) returns (m: nat)
    requires n < |live| && |From(live, b)| >= |live| - n
    ensures IsNth(live, n, m)
    decreases Top(live) - b
  {
    FromNext(live, b);
    if b in live && |From(live, b)| == |live| - n {
      m := b;
    } else {
      if b >= Top(live) { NoneFrom(live, b); }
      m := NthFrom(live, n, b + 1);
    }
  }

  /** Past every member. */
  ghost function Top(live: set<nat>): (t: nat)
    ensures forall m :: m in live ==> m < t
  {
    if live == {} then 0
    else
      var m :| m in live;
      assert live == live - {m} + {m};
      Larger(m + 1, Top(live - {m}))
  }

  lemma NoneFrom(live: set<nat>, b: nat)
    requires b >= Top(live)
    ensures From(live, b) == {}
  {
  }

  /** Counting round the live members: each turn names exactly one live member, and as
    * many turns as there are live members visit every one of them, whatever the counter
    * starts from. */
  lemma RoundIsFair(live: set<nat>, start: nat)
    ensures forall k :: 0 <= k < |live| ==> NamesOne(live, Turn(start, k, |live|))
    ensures forall m :: m in live ==> Visits(live, start, m)
  {
    forall k | 0 <= k < |live| ensures NamesOne(live, Turn(start, k, |live|)) {
      NthExists(live, Turn(start, k, |live|));
    }
    forall m | m in live ensures Visits(live, start, m) { IsVisited(live, start, m); }
  }

  lemma IsVisited(live: set<nat>, start: nat, m: nat)
    requires m in live
    ensures Visits(live, start, m)
  {
    var n := |live| - |From(live, m)|;
    FromAll(live);
    FromShrinks(live, 0, m);
    FromNext(live, m);
    assert IsNth(live, n, m);
    forall j: nat | IsNth(live, n, j) ensures j == m { NthIsUnique(live, n, m, j); }
    var k := Meets(start, n, |live|);
    assert OnlyNth(live, Turn(start, k, |live|), m);
  }

  /** The counter after k more turns, modulo the number of live members. */
  function Turn(start: nat, k: nat, n: nat): nat
    requires n > 0
  {
    (start + k) % n
  }

  lemma Meets(start: nat, r: nat, n: nat) returns (k: nat)
    requires r < n
    ensures k < n && Turn(start, k, n) == r
  {
    var s, q := start % n, start / n;
    k := if s <= r then r - s else r + n - s;
    if s <= r {
      DivUnique(start + k, q, r, n);
    } else {
      assert (q + 1) * n == q * n + n;
      DivUnique(start + k, q + 1, r, n);
    }
  }

  lemma FromEnd(v: Shape, live: set<nat>)
    requires ShapeOk(v) && LiveOk(v, live)
    ensures From(live, MAX_MEMBERS) == {}
  {
  }

  lemma PairMeets(live: set<nat>, c: nat)
    ensures live * {2 * c, 2 * c + 1} == {} <==> !PairLives(live, c)
  {
    var both := live * {2 * c, 2 * c + 1};
    assert 2 * c in live <==> 2 * c in both;
    assert 2 * c + 1 in live <==> 2 * c + 1 in both;
  }

  lemma OffsetInStripe(x: nat, stripe: nat)
    requires stripe > 0
    ensures x - x / stripe * stripe == x % stripe
  {
  }

  /** The copy of column c a read takes: in a whole pair the one the counter says. */
  function Chosen(live: set<nat>, c: nat, rr: nat): nat {
    if 2 * c in live && 2 * c + 1 in live then 2 * c + rr % 2 else if 2 * c + 1 in live then 2 * c + 1 else 2 * c
  }

  lemma ChosenServes(v: Shape, live: set<nat>, x: nat, rr: nat)
    requires v.level.Raid10? && v.stripe > 0 && CanServe(v, live)
    ensures
      var m := Chosen(live, Column(x, v.stripe, v.cols), rr);
      m in live && Stores(v, m, x)
  {
    var c := Column(x, v.stripe, v.cols);
    assert PairLives(live, c);
    CopyStores(v, x, Chosen(live, c, rr));
  }

  /** A pair member stores exactly the sectors of its column. */
  lemma CopyStores(v: Shape, x: nat, m: nat)
    requires v.level.Raid10? && v.cols > 0 && v.stripe > 0
    requires var c := Column(x, v.stripe, v.cols); m == 2 * c || m == 2 * c + 1
    ensures Stores(v, m, x)
  {
  }

  /** Two reads in a row of a whole pair go to both copies. */
  lemma PairAlternates(live: set<nat>, c: nat, rr: nat)
    requires 2 * c in live && 2 * c + 1 in live
    ensures {Chosen(live, c, rr), Chosen(live, c, rr + 1)} == {2 * c, 2 * c + 1}
  {
  }

  /** Some live member stores x. */
  ghost predicate Readable(v: Shape, live: set<nat>, x: nat) {
    exists m :: m in live && Stores(v, m, x)
  }

  lemma FirstOfColumn(c: nat, stripe: nat, cols: nat)
    requires stripe > 0 && c < cols
    ensures Column(c * stripe, stripe, cols) == c
  {
    DivUnique(c * stripe, c, 0, stripe);
  }

  /** The volume can serve exactly if every logical sector has a live copy. */
  lemma CanServeIff(v: Shape, live: set<nat>)
    requires ShapeOk(v) && LiveOk(v, live) && (v.level.Raid10? ==> v.stripe > 0 && v.cols > 0)
    ensures CanServe(v, live) <==> forall x: nat :: Readable(v, live, x)
  {
    if CanServe(v, live) {
      forall x: nat ensures Readable(v, live, x) { IsReadable(v, live, x); }
    }
    if forall x: nat :: Readable(v, live, x) { EveryColumn(v, live); }
  }

  lemma IsReadable(v: Shape, live: set<nat>, x: nat)
    requires ShapeOk(v) && LiveOk(v, live) && (v.level.Raid10? ==> v.stripe > 0 && v.cols > 0) && CanServe(v, live)
    ensures Readable(v, live, x)
  {
    match v.level
    case Raid1 =>
      var m :| m in live;
      assert Stores(v, m, x);
    case Raid10 => ChosenServes(v, live, x, 0);
    case Raid0 => assert Stores(v, Column(x, v.stripe, v.members), x);
  }

  lemma EveryColumn(v: Shape, live: set<nat>)
    requires ShapeOk(v) && LiveOk(v, live) && (v.level.Raid10? ==> v.stripe > 0 && v.cols > 0)
    requires forall x: nat :: Readable(v, live, x)
    ensures CanServe(v, live)
  {
    match v.level
    case Raid1 => assert Readable(v, live, 0);
    case Raid10 =>
      forall c | 0 <= c < v.cols ensures PairLives(live, c) {
        FirstOfColumn(c, v.stripe, v.cols);
        assert Readable(v, live, c * v.stripe);
        var m :| m in live && Stores(v, m, c * v.stripe);
        assert m / 2 == c;
      }
    case Raid0 =>
      forall m | 0 <= m < v.members ensures m in live {
        FirstOfColumn(m, v.stripe, v.members);
        assert Readable(v, live, m * v.stripe);
      }
  }

  /** Sector SectorOn(v, x) of a member that stores x stores no other sector: by the
    * inverse map it is x. */
  lemma SectorIsOwn(v: Shape, m: nat, x: nat)
    requires ShapeOk(v) && m < v.members && Stores(v, m, x)
    ensures
      match v.level
      case Raid1 => SectorOn(v, x) == x
      case Raid10 => Logical(m / 2, SectorOn(v, x), v.stripe, v.cols) == x
      case Raid0 => Logical(m, SectorOn(v, x), v.stripe, v.members) == x
  {
    match v.level
    case Raid1 =>
    case Raid10 => LogicalOfMap(x, v.stripe, v.cols);
    case Raid0 => LogicalOfMap(x, v.stripe, v.members);
  }

  // ---------- the operations ----------

  /** The stripe arithmetic common to RAID0 and RAID10. */
  method Packed(x: nat, stripe: nat, cols: nat) returns (col: nat, p: nat)
    requires stripe > 0 && cols > 0
    ensures col == Column(x, stripe, cols) && col < cols && p == Phys(x, stripe, cols)
  {
    var stripeNum := x / stripe;
    OffsetInStripe(x, stripe);
    var off := x - stripeNum * stripe;
    var physStripe := stripeNum / cols;
    col := stripeNum % cols;
    p := physStripe * stripe + off;
  }

  class VolumeMap {
    const shape: Shape
    var live: set<nat>
    var rrNext: nat

    ghost predicate Valid()
      reads this
    {
      ShapeOk(shape) && LiveOk(shape, live)
    }

    constructor (shape: Shape)
      requires ShapeOk(shape)
      ensures this.shape == shape && Valid() && live == {} && rrNext == 0
    {
      this.shape := shape;
      live, rrNext := {}, 0;
    }

    /** rc_volume_can_serve. */
    method Serves() returns (ok: bool)
      requires Valid()
      ensures ok <==> CanServe(shape, live)
    {
      match shape.level
      case Raid1 => return live != {};
      case Raid10 =>
        if shape.cols == 0 { return false; }
        var c := 0;
        while c < shape.cols
          invariant c <= shape.cols
          invariant forall k :: 0 <= k < c ==> PairLives(live, k)
        {
          var pair := {2 * c, 2 * c + 1};
          PairMeets(live, c);
          if live * pair == {} { return false; }
          c := c + 1;
        }
        return true;
      case Raid0 =>
        // live == BIT(members) - 1, on a mask with no bit past the members
        return live == Upto(shape.members);
    }

    /** for_each_set_bit with a countdown: the n-th set bit. */
    method NthSetBit(n0: nat) returns (member: nat)
      requires Valid() && n0 < |live|
      ensures IsNth(live, n0, member)
    {
      member := 0;
      var n, b := n0, 0;
      FromAll(live);
      while b < MAX_MEMBERS
        invariant b <= MAX_MEMBERS && 0 <= n <= n0
        invariant |From(live, b)| == |live| - (n0 - n) && n < |From(live, b)|
      {
        FromNext(live, b);
        if b in live {
          if n == 0 { return b; }
          n := n - 1;
        }
        b := b + 1;
      }
      FromEnd(shape, live);
      assert false;
    }

    /** rc_volume_map_lba: whenever the volume can serve, the member is live and stores
      * the sector, and the address is that sector behind the member's user-data
      * offset; RAID1 takes the live members in turn, RAID10 alternates in a whole pair. */
    method Map(x: nat) returns (member: nat, phys: nat)
      requires Valid()
      modifies this`rrNext
      ensures CanServe(shape, live) && (shape.level.Raid10? ==> shape.stripe > 0) ==>
                && member in live && member < |shape.offsets| && Stores(shape, member, x)
                && phys == SectorOn(shape, x) + shape.offsets[member]
      ensures shape.level.Raid1? && live != {} ==>
                rrNext == old(rrNext) + 1 && IsNth(live, rrNext % 0x1_0000_0000 % |live|, member)
      ensures shape.level.Raid10? && shape.cols > 0 && shape.stripe > 0 ==>
                var c := Column(x, shape.stripe, shape.cols);
                && member == Chosen(live, c, rrNext)
                && rrNext == old(rrNext) + (if 2 * c in live && 2 * c + 1 in live then 1 else 0)
      ensures shape.level.Raid0? ==> rrNext == old(rrNext)
    {
      match shape.level
      case Raid1 => member, phys := MapMirror(x);
      case Raid10 =>
        if shape.cols == 0 || shape.stripe == 0 { return 0, x; }
        member, phys := MapPair(x);
        if CanServe(shape, live) { ChosenServes(shape, live, x, rrNext); }
      case Raid0 => member, phys := MapStripe(x);
    }

    method MapMirror(x: nat) returns (member: nat, phys: nat)
      requires Valid()
      modifies this`rrNext
      ensures live != {} ==> rrNext == old(rrNext) + 1 && IsNth(live, rrNext % 0x1_0000_0000 % |live|, member)
      ensures live == {} ==> rrNext == old(rrNext) && member == 0
      ensures member < |shape.offsets| && phys == x + shape.offsets[member]
    {
      if |live| == 0 {
        member := 0;
      } else {
        rrNext := rrNext + 1;
        var n := rrNext % 0x1_0000_0000;
        member := NthSetBit(n % |live|);
      }
      phys := x + shape.offsets[member];
    }

    method MapPair(x: nat) returns (member: nat, phys: nat)
      requires Valid() && shape.level.Raid10? && shape.cols > 0 && shape.stripe > 0
      modifies this`rrNext
      ensures
        var c := Column(x, shape.stripe, shape.cols);
        && member == Chosen(live, c, rrNext) && member < shape.members
        && rrNext == old(rrNext) + (if 2 * c in live && 2 * c + 1 in live then 1 else 0)
      ensures phys == SectorOn(shape, x) + shape.offsets[member]
    {
      var col := x / shape.stripe % shape.cols;
      var c0 := 2 * col;
      var c1 := c0 + 1;
      var l0, l1 := c0 in live, c1 in live;
      if l0 && l1 {
        rrNext := rrNext + 1;
        member := if rrNext % 2 == 1 then c1 else c0;
      } else if l0 {
        member := c0;
      } else if l1 {
        member := c1;
      } else {
        member := c0;
      }
      phys := PhysForMember(member, x);
    }

    method MapStripe(x: nat) returns (member: nat, phys: nat)
      requires Valid() && shape.level.Raid0?
      ensures member < shape.members && Stores(shape, member, x)
      ensures phys == SectorOn(shape, x) + shape.offsets[member]
    {
      member, phys := Packed(x, shape.stripe, shape.members);
      phys := phys + shape.offsets[member];
    }

    /** rc_volume_phys_for_member. */
    method PhysForMember(m: nat, x: nat) returns (phys: nat)
      requires Valid() && shape.level.Raid10? && shape.cols > 0 && shape.stripe > 0 && m < shape.members
      ensures phys == SectorOn(shape, x) + shape.offsets[m]
    {
      var _, p := Packed(x, shape.stripe, shape.cols);
      phys := p + shape.offsets[m];
    }
  }
}
