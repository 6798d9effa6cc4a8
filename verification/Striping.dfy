/** The striping arithmetic of src/rc_nvme.c.
  *
  * A volume deals stripes of `stripe` sectors round-robin over `cols` columns.
  * RAID0 has one member per column, RAID10 a mirror pair {2c, 2c+1} per column.
  * RAID1 is the case of one column: every map below is then the identity.
  */
module Striping {

  /** The column that holds logical sector x. */
  function Column(x: nat, stripe: nat, cols: nat): nat
    requires stripe > 0 && cols > 0
  {
    (x / stripe) % cols
  }

  /** The sector of its column at which logical sector x is stored. */
  function Phys(x: nat, stripe: nat, cols: nat): nat
    requires stripe > 0 && cols > 0
  {
    (x / stripe) / cols * stripe + x % stripe
  }

  /** The rebuild's cursor-to-logical formula: sector p of column c. */
  function Logical(c: nat, p: nat, stripe: nat, cols: nat): nat
    requires stripe > 0 && cols > 0
  {
    p / stripe * (stripe * cols) + c * stripe + p % stripe
  }

  /** rc_amd_map_nested_raid10: first copy of the pair, and the sector on it. */
  function NestedRaid10(x: nat, chunk: nat, drives: int): (r: (int, nat))
  {
    if drives < 4 || drives % 2 != 0 || chunk == 0 then (0, x)
    else
      var cols := drives / 2;
      var stripeNum := x / chunk;
      var off := x - stripeNum * chunk;
      (2 * (stripeNum % cols), stripeNum / cols * chunk + off)
  }

  // ---------- division facts ----------

  lemma MulStep(k: int, d: int)
    requires d >= 0
    ensures k >= 1 ==> k * d >= d
    ensures k <= -1 ==> k * d <= -d
  {
  }

  lemma MulLe(a: int, b: int, c: nat)
    requires a <= b
    ensures a * c <= b * c
  {
  }

  lemma DivUnique(x: nat, q: nat, r: nat, d: nat)
    requires r < d && x == q * d + r
    ensures x / d == q && x % d == r
  {
    var k := x / d - q;
    assert k * d == x / d * d - q * d;
    MulStep(k, d);
  }

  lemma DivMonotone(x: nat, y: nat, d: nat)
    requires d > 0 && x <= y
    ensures x / d <= y / d
  {
    var k := x / d - y / d;
    assert k * d == x / d * d - y / d * d;
    MulStep(k, d);
  }

  /** A sector below a whole number of blocks lies in one of them. */
  lemma DivBelow(x: nat, n: nat, d: nat)
    requires d > 0 && x < n * d
    ensures x / d < n
  {
    var k := x / d - n;
    assert k * d == x / d * d - n * d;
    MulStep(k, d);
  }

  // ---------- the map and its inverse ----------

  /** Logical inverts (Column, Phys). */
  lemma LogicalOfMap(x: nat, stripe: nat, cols: nat)
    requires stripe > 0 && cols > 0
    ensures Logical(Column(x, stripe, cols), Phys(x, stripe, cols), stripe, cols) == x
  {
    var s, o := x / stripe, x % stripe;
    var row, c := s / cols, s % cols;
    assert s == row * cols + c;
    DivUnique(row * stripe + o, row, o, stripe);
    RowSplit(row, c, stripe, cols);
  }

  /** (Column, Phys) inverts Logical. */
  lemma MapOfLogical(c: nat, p: nat, stripe: nat, cols: nat)
    requires stripe > 0 && c < cols
    ensures Column(Logical(c, p, stripe, cols), stripe, cols) == c
    ensures Phys(Logical(c, p, stripe, cols), stripe, cols) == p
  {
    var row, o := p / stripe, p % stripe;
    var s := row * cols + c;
    var x := Logical(c, p, stripe, cols);
    RowSplit(row, c, stripe, cols);
    DivUnique(x, s, o, stripe);
    DivUnique(s, row, c, cols);
  }

  /** The layout in rows and columns: sector o of the stripe in row row and column c is
    * stored row stripes down its column, and stripes count along the rows. */
  lemma RowColumn(row: nat, c: nat, o: nat, stripe: nat, cols: nat)
    requires o < stripe && c < cols
    ensures
      var x := (row * cols + c) * stripe + o;
      && Column(x, stripe, cols) == c && Phys(x, stripe, cols) == row * stripe + o
      && Logical(c, row * stripe + o, stripe, cols) == x
  {
    var s := row * cols + c;
    DivUnique(s * stripe + o, s, o, stripe);
    DivUnique(s, row, c, cols);
    LogicalOfMap(s * stripe + o, stripe, cols);
  }

  /** With a user size that is a whole number of stripes, the map is a bijection
    * from the volume onto columns times user sectors. */
  lemma MapIsBijection(stripe: nat, cols: nat, total: nat)
    requires stripe > 0 && cols > 0 && total % stripe == 0
    ensures forall x: nat :: x < total * cols ==>
      Column(x, stripe, cols) < cols && Phys(x, stripe, cols) < total
      && Logical(Column(x, stripe, cols), Phys(x, stripe, cols), stripe, cols) == x
    ensures forall c: nat, p: nat :: c < cols && p < total ==>
      Logical(c, p, stripe, cols) < total * cols
      && Column(Logical(c, p, stripe, cols), stripe, cols) == c
      && Phys(Logical(c, p, stripe, cols), stripe, cols) == p
  {
    forall x: nat | x < total * cols
      ensures Phys(x, stripe, cols) < total
      ensures Logical(Column(x, stripe, cols), Phys(x, stripe, cols), stripe, cols) == x
    {
      PhysInRange(x, stripe, cols, total);
      LogicalOfMap(x, stripe, cols);
    }
    forall c: nat, p: nat | c < cols && p < total
      ensures Logical(c, p, stripe, cols) < total * cols
      ensures Column(Logical(c, p, stripe, cols), stripe, cols) == c
      ensures Phys(Logical(c, p, stripe, cols), stripe, cols) == p
    {
      LogicalInRange(c, p, stripe, cols, total);
      MapOfLogical(c, p, stripe, cols);
    }
  }

  lemma PhysInRange(x: nat, stripe: nat, cols: nat, total: nat)
    requires stripe > 0 && cols > 0 && total % stripe == 0 && x < total * cols
    ensures Phys(x, stripe, cols) < total
  {
    var rows := total / stripe;
    assert total * cols == rows * cols * stripe;
    DivBelow(x, rows * cols, stripe);
    DivBelow(x / stripe, rows, cols);
    MulLe(x / stripe / cols + 1, rows, stripe);
  }

  lemma LogicalInRange(c: nat, p: nat, stripe: nat, cols: nat, total: nat)
    requires stripe > 0 && c < cols && total % stripe == 0 && p < total
    ensures Logical(c, p, stripe, cols) < total * cols
  {
    var rows := total / stripe;
    var row, o := p / stripe, p % stripe;
    DivBelow(p, rows, stripe);
    RowSplit(row, c, stripe, cols);
    RowBelow(row, c, rows, cols);
    BlockBelow(row * cols + c, o, rows * cols, stripe);
    SwapFactors(rows, cols, stripe);
  }

  lemma RowBelow(row: nat, c: nat, rows: nat, cols: nat)
    requires row < rows && c < cols
    ensures row * cols + c < rows * cols
  {
    MulLe(row + 1, rows, cols);
  }

  lemma BlockBelow(s: nat, o: nat, n: nat, stripe: nat)
    requires s < n && o < stripe
    ensures s * stripe + o < n * stripe
  {
    MulLe(s + 1, n, stripe);
  }

  lemma SwapFactors(a: int, b: int, c: int)
    ensures a * b * c == a * c * b
  {
    assert a * b * c == a * (b * c);
    assert a * c * b == a * (c * b);
  }

  lemma RowSplit(row: nat, c: nat, stripe: nat, cols: nat)
    ensures row * (stripe * cols) + c * stripe == (row * cols + c) * stripe
  {
    Distribute(row * cols, c, stripe);
    assert row * (stripe * cols) == row * stripe * cols;
    SwapFactors(row, cols, stripe);
  }

  /** RAID10 rebuilds capacity / cols sectors of a member
    * (rc_volume_per_member_sectors).  That covers every sector of the volume
    * exactly when there is one column or the capacity is a whole number of rows. */
  lemma RebuildCoversVolumeIff(stripe: nat, cols: nat, capacity: nat)
    requires stripe > 0 && cols > 0
    ensures (forall x: nat :: x < capacity ==> Phys(x, stripe, cols) < capacity / cols)
       <==> cols == 1 || capacity % (stripe * cols) == 0
  {
    if cols == 1 {
      forall x: nat | x < capacity ensures Phys(x, stripe, cols) < capacity / cols {
        assert Phys(x, stripe, cols) == x;
      }
    } else if capacity % (stripe * cols) == 0 {
      var rows := capacity / (stripe * cols);
      WholeRows(stripe, cols, rows, capacity);
      forall x: nat | x < capacity ensures Phys(x, stripe, cols) < capacity / cols {
        PhysInRange(x, stripe, cols, capacity / cols);
      }
    } else {
      var x := UncoveredSector(stripe, cols, capacity);
    }
  }

  lemma WholeRows(stripe: nat, cols: nat, rows: nat, capacity: nat)
    requires stripe > 0 && cols > 0 && capacity == rows * (stripe * cols)
    ensures capacity / cols == rows * stripe && rows * stripe % stripe == 0
    ensures capacity == capacity / cols * cols
  {
    assert capacity == rows * stripe * cols;
    DivUnique(capacity, rows * stripe, 0, cols);
    DivUnique(rows * stripe, rows, 0, stripe);
  }

  /** The sector a RAID10 rebuild never copies when the last row is partial:
    * column 0 of that row, as far into its stripe as the row reaches. */
  lemma UncoveredSector(stripe: nat, cols: nat, capacity: nat) returns (x: nat)
    requires stripe > 0 && cols > 1 && capacity % (stripe * cols) != 0
    ensures x < capacity && Phys(x, stripe, cols) >= capacity / cols
  {
    var rowSize := stripe * cols;
    x := UncoveredInRow(stripe, cols, capacity, capacity / rowSize, capacity % rowSize);
  }

  lemma UncoveredInRow(stripe: nat, cols: nat, capacity: nat, rows: nat, rem: nat) returns (x: nat)
    requires stripe > 0 && cols > 1 && capacity == rows * (stripe * cols) + rem
    requires 0 < rem < stripe * cols
    ensures x < capacity && Phys(x, stripe, cols) >= capacity / cols
  {
    var o := if rem <= stripe then rem - 1 else stripe - 1;
    x := Logical(0, rows * stripe + o, stripe, cols);
    DivUnique(rows * stripe + o, rows, o, stripe);
    MapOfLogical(0, rows * stripe + o, stripe, cols);
    PartialRow(stripe, cols, capacity, rows, rem);
    DivBelow(rem, stripe, cols);
    HalfOrLess(rem, cols);
  }

  lemma HalfOrLess(x: nat, d: nat)
    requires d >= 2
    ensures x > 0 ==> x / d < x
  {
    MulLe(2, d, x / d);
  }

  lemma PartialRow(stripe: nat, cols: nat, capacity: nat, rows: nat, rem: nat)
    requires stripe > 0 && cols > 0 && capacity == rows * (stripe * cols) + rem
    ensures capacity / cols == rows * stripe + rem / cols
  {
    var a, q, r := rows * stripe, rem / cols, rem % cols;
    assert rows * (stripe * cols) == a * cols;
    Distribute(a, q, cols);
    assert rem == q * cols + r;
    DivUnique(capacity, a + q, r, cols);
  }

  lemma Distribute(a: int, b: int, c: int)
    ensures (a + b) * c == a * c + b * c
  {
  }

  /** rc_amd_map_nested_raid10 agrees with the map the dispatch uses. */
  lemma NestedAgrees(x: nat, chunk: nat, cols: nat)
    requires chunk > 0 && cols >= 2
    ensures NestedRaid10(x, chunk, 2 * cols)
         == (2 * Column(x, chunk, cols), Phys(x, chunk, cols))
  {
    assert 2 * cols / 2 == cols;
    assert x - x / chunk * chunk == x % chunk;
  }

  // ---------- runs of sectors ----------

  /** A run that stays inside one stripe is contiguous on its column. */
  lemma RunWithinStripe(x: nat, n: nat, stripe: nat, cols: nat)
    requires stripe > 0 && cols > 0 && x % stripe + n < stripe
    ensures (x + n) / stripe == x / stripe && (x + n) % stripe == x % stripe + n
    ensures Column(x + n, stripe, cols) == Column(x, stripe, cols)
    ensures Phys(x + n, stripe, cols) == Phys(x, stripe, cols) + n
  {
    DivUnique(x + n, x / stripe, x % stripe + n, stripe);
  }

  /** A chunk of a column capped at its stripe boundary is one contiguous
    * logical range, which is what one exclusion window can describe. */
  lemma ChunkIsContiguous(c: nat, p: nat, n: nat, stripe: nat, cols: nat)
    requires stripe > 0 && cols > 0 && p % stripe + n < stripe
    ensures Logical(c, p + n, stripe, cols) == Logical(c, p, stripe, cols) + n
  {
    DivUnique(p + n, p / stripe, p % stripe + n, stripe);
  }
}
