/** P and Q of whole blocks, and what they determine.  Drive d contributes its byte
  * to P and alpha^d times its byte to Q. */
module ParityBlocks {
  import opened ParityField

  type Bytes = seq<bv8>

  // ---------- one byte position ----------

  /** P of one byte of every data drive. */
  function SumP(col: Bytes): bv8 {
    if col == [] then 0 else Xor(SumP(col[..|col| - 1]), col[|col| - 1])
  }

  /** Q of one byte of every data drive. */
  function SumQ(col: Bytes): bv8 {
    if col == [] then 0 else Xor(SumQ(col[..|col| - 1]), Times(|col| - 1, col[|col| - 1]))
  }

  function Plus(a: Bytes, b: Bytes): (r: Bytes)
    requires |a| == |b|
    ensures |r| == |a| && forall i :: 0 <= i < |r| ==> r[i] == Xor(a[i], b[i])
  {
    seq(|a|, i requires 0 <= i < |a| => Xor(a[i], b[i]))
  }

  lemma XorRegroup(a: bv8, b: bv8, c: bv8, d: bv8)
    ensures Xor(Xor(a, b), Xor(c, d)) == Xor(Xor(a, c), Xor(b, d))
  {
    Regroup(Xor(a, b), c, d);
    Regroup(a, b, c);
    Regroup(Xor(a, c), b, d);
  }

  lemma {:induction false} SumsLinear(a: Bytes, b: Bytes)
    requires |a| == |b|
    ensures SumP(Plus(a, b)) == Xor(SumP(a), SumP(b))
    ensures SumQ(Plus(a, b)) == Xor(SumQ(a), SumQ(b))
    decreases |a|
  {
    if a == [] {
      XorSelf(0);
    } else {
      var n := |a| - 1;
      SumsLinear(a[..n], b[..n]);
      assert Plus(a, b)[..n] == Plus(a[..n], b[..n]);
      TimesLinear(n, a[n], b[n]);
      XorRegroup(SumP(a[..n]), SumP(b[..n]), a[n], b[n]);
      XorRegroup(SumQ(a[..n]), SumQ(b[..n]), Times(n, a[n]), Times(n, b[n]));
    }
  }

  /** Nothing but drives x and y is nonzero. */
  predicate OnlyAt(col: Bytes, x: nat, y: nat) {
    forall d :: 0 <= d < |col| && d != x && d != y ==> col[d] == 0
  }

  lemma XorUnit(a: bv8)
    ensures Xor(a, 0) == a && Xor(0, a) == a
  {
  }

  lemma {:induction false} SumsOfNone(col: Bytes)
    requires forall d :: 0 <= d < |col| ==> col[d] == 0
    ensures SumP(col) == 0 && SumQ(col) == 0
    decreases |col|
  {
    if col != [] {
      SumsOfNone(col[..|col| - 1]);
      TimesZero(|col| - 1);
      XorUnit(0);
    }
  }

  lemma {:induction false} SumsOfOne(col: Bytes, x: nat)
    requires x < |col| && OnlyAt(col, x, x)
    ensures SumP(col) == col[x] && SumQ(col) == Times(x, col[x])
    decreases |col|
  {
    var n := |col| - 1;
    if n == x {
      SumsOfNone(col[..n]);
    } else {
      SumsOfOne(col[..n], x);
      TimesZero(n);
    }
    XorUnit(col[x]);
    XorUnit(Times(x, col[x]));
  }

  lemma {:induction false} SumsOfTwo(col: Bytes, x: nat, y: nat)
    requires x < y < |col| && OnlyAt(col, x, y)
    ensures SumP(col) == Xor(col[x], col[y])
    ensures SumQ(col) == Xor(Times(x, col[x]), Times(y, col[y]))
    decreases |col|
  {
    var n := |col| - 1;
    if n == y {
      SumsOfOne(col[..n], x);
    } else {
      SumsOfTwo(col[..n], x, y);
      TimesZero(n);
      XorUnit(SumP(col[..n]));
      XorUnit(SumQ(col[..n]));
    }
  }

  // ---------- what a byte of P and Q determines ----------

  /** Equal except perhaps on drives x and y. */
  predicate Agree(a: Bytes, b: Bytes, x: nat, y: nat) {
    |a| == |b| && forall d :: 0 <= d < |a| && d != x && d != y ==> a[d] == b[d]
  }

  lemma DifferenceOnly(a: Bytes, b: Bytes, x: nat, y: nat)
    requires Agree(a, b, x, y)
    ensures OnlyAt(Plus(a, b), x, y)
  {
    forall d | 0 <= d < |a| && d != x && d != y ensures Plus(a, b)[d] == 0 {
      XorSelf(a[d]);
    }
  }

  /** Both parities fix two bytes, unless alpha gives both drives the same coefficient. */
  lemma TwoBytes(a: Bytes, b: Bytes, x: nat, y: nat)
    requires x < y < |a| && Agree(a, b, x, y) && (y - x) % 255 != 0
    requires SumP(a) == SumP(b) && SumQ(a) == SumQ(b)
    ensures a == b
  {
    var e := Plus(a, b);
    SumsLinear(a, b);
    XorSelf(SumP(a));
    XorSelf(SumQ(a));
    DifferenceOnly(a, b, x, y);
    SumsOfTwo(e, x, y);
    XorZero(e[x], e[y]);
    XorZero(Times(x, e[x]), Times(y, e[y]));
    NoCommonByte(x, y, e[x]);
    XorZero(a[x], b[x]);
    XorZero(a[y], b[y]);
  }

  lemma NoCommonByte(x: nat, y: nat, v: bv8)
    requires x < y && (y - x) % 255 != 0 && Times(x, v) == Times(y, v)
    ensures v == 0
  {
    TimesAdd(x, y - x, v);
    TimesInjective(x, Times(y - x, v), v);
    if v != 0 { FixedIff(y - x, v); }
  }

  /** One byte at drives x and y. */
  function Pair(n: nat, x: nat, y: nat): (r: Bytes)
    ensures |r| == n && forall i :: 0 <= i < n ==> r[i] == if i == x || i == y then 1 else 0
  {
    seq(n, (i: nat) => if i == x || i == y then 1 else 0)
  }

  lemma PairIsHidden(n: nat, x: nat, y: nat)
    requires x < y < n && (y - x) % 255 == 0
    ensures SumP(Pair(n, x, y)) == 0 && SumQ(Pair(n, x, y)) == 0
  {
    SumsOfTwo(Pair(n, x, y), x, y);
    XorSelf(1);
    FixedIff(y - x, 1);
    TimesAdd(x, y - x, 1);
    XorSelf(Times(x, 1));
  }

  // ---------- whole blocks ----------

  /** Byte j of every data drive. */
  function Col(blocks: seq<Bytes>, j: nat): (r: Bytes)
    requires forall d :: 0 <= d < |blocks| ==> j < |blocks[d]|
    ensures |r| == |blocks| && forall d :: 0 <= d < |r| ==> r[d] == blocks[d][j]
  {
    seq(|blocks|, d requires 0 <= d < |blocks| => blocks[d][j])
  }

  /** k drives of len bytes. */
  predicate Shaped(blocks: seq<Bytes>, k: nat, len: nat) {
    |blocks| == k && forall d :: 0 <= d < k ==> |blocks[d]| == len
  }

  predicate SameP(a: seq<Bytes>, b: seq<Bytes>, k: nat, len: nat)
    requires Shaped(a, k, len) && Shaped(b, k, len)
  {
    forall j :: 0 <= j < len ==> SumP(Col(a, j)) == SumP(Col(b, j))
  }

  predicate SameQ(a: seq<Bytes>, b: seq<Bytes>, k: nat, len: nat)
    requires Shaped(a, k, len) && Shaped(b, k, len)
  {
    forall j :: 0 <= j < len ==> SumQ(Col(a, j)) == SumQ(Col(b, j))
  }

  /** Two stripes that may differ on drives x and y alone. */
  predicate Rivals(a: seq<Bytes>, b: seq<Bytes>, k: nat, len: nat, x: nat, y: nat) {
    && Shaped(a, k, len) && Shaped(b, k, len)
    && forall d :: 0 <= d < k && d != x && d != y ==> a[d] == b[d]
  }

  lemma BlocksEqual(a: seq<Bytes>, b: seq<Bytes>, k: nat, len: nat)
    requires Shaped(a, k, len) && Shaped(b, k, len)
    requires forall j :: 0 <= j < len ==> Col(a, j) == Col(b, j)
    ensures a == b
  {
    forall d | 0 <= d < k ensures a[d] == b[d] {
      forall j | 0 <= j < len ensures a[d][j] == b[d][j] {
        assert Col(a, j)[d] == Col(b, j)[d];
      }
    }
  }

  lemma TwoLostBlocks(a: seq<Bytes>, b: seq<Bytes>, k: nat, len: nat, x: nat, y: nat)
    requires x < y < k && (y - x) % 255 != 0
    requires Rivals(a, b, k, len, x, y) && SameP(a, b, k, len) && SameQ(a, b, k, len)
    ensures a == b
  {
    forall j | 0 <= j < len ensures Col(a, j) == Col(b, j) {
      TwoBytes(Col(a, j), Col(b, j), x, y);
    }
    BlocksEqual(a, b, k, len);
  }

  /** Blocks that hold v at the first byte and zero elsewhere. */
  function Spread(v: Bytes, len: nat): (r: seq<Bytes>)
    requires len > 0
    ensures Shaped(r, |v|, len) && Col(r, 0) == v
    ensures forall j, d :: 0 < j < len && 0 <= d < |v| ==> r[d][j] == 0
  {
    var r := seq(|v|, d requires 0 <= d < |v| => seq(len, (j: nat) => if j == 0 then v[d] else 0));
    assert Col(r, 0) == v;
    r
  }

  function Zeros(k: nat): (r: Bytes)
    ensures |r| == k && forall i :: 0 <= i < k ==> r[i] == 0
  {
    seq(k, _ => 0)
  }

  lemma HiddenDifference(k: nat, len: nat, x: nat, y: nat)
    requires x < y < k && (y - x) % 255 == 0 && len > 0
    ensures var a, b := Spread(Zeros(k), len), Spread(Pair(k, x, y), len);
      Rivals(a, b, k, len, x, y) && SameP(a, b, k, len) && SameQ(a, b, k, len) && a != b
  {
    var a, b := Spread(Zeros(k), len), Spread(Pair(k, x, y), len);
    SumsOfNone(Zeros(k));
    PairIsHidden(k, x, y);
    forall j | 0 <= j < len
      ensures SumP(Col(a, j)) == SumP(Col(b, j)) && SumQ(Col(a, j)) == SumQ(Col(b, j))
    {
      if j > 0 {
        SumsOfNone(Col(a, j));
        SumsOfNone(Col(b, j));
      }
    }
    forall d | 0 <= d < k && d != x && d != y ensures a[d] == b[d] {
      assert Col(a, 0)[d] == Col(b, 0)[d];
    }
    assert Col(a, 0)[x] != Col(b, 0)[x];
  }

  /** x and y can always be rebuilt from the other drives, P and Q. */
  ghost predicate Determined(k: nat, len: nat, x: nat, y: nat) {
    forall a, b :: Rivals(a, b, k, len, x, y) && SameP(a, b, k, len) && SameQ(a, b, k, len) ==> a == b
  }

  /** For any number of drives and any block length: P and Q determine lost data
    * blocks x and y if and only if x and y differ modulo 255. */
  lemma TwoLostIff(k: nat, len: nat, x: nat, y: nat)
    requires x < y < k && len > 0
    ensures Determined(k, len, x, y) <==> (y - x) % 255 != 0
  {
    if (y - x) % 255 != 0 {
      forall a, b | Rivals(a, b, k, len, x, y) && SameP(a, b, k, len) && SameQ(a, b, k, len) ensures a == b {
        TwoLostBlocks(a, b, k, len, x, y);
      }
    } else {
      HiddenDifference(k, len, x, y);
    }
  }

  /** Up to 255 data drives lose no pair. */
  lemma TwoLostUpTo255(k: nat, len: nat, x: nat, y: nat)
    requires x < y < k <= 255 && len > 0
    ensures Determined(k, len, x, y)
  {
    TwoLostIff(k, len, x, y);
  }

  /** With P gone too, Q alone determines one lost data block; so does P alone. */
  lemma OneLostBlock(a: seq<Bytes>, b: seq<Bytes>, k: nat, len: nat, x: nat)
    requires x < k && Rivals(a, b, k, len, x, x) && (SameP(a, b, k, len) || SameQ(a, b, k, len))
    ensures a == b
  {
    forall j | 0 <= j < len ensures Col(a, j) == Col(b, j) {
      OneByte(Col(a, j), Col(b, j), x);
    }
    BlocksEqual(a, b, k, len);
  }

  lemma OneByte(a: Bytes, b: Bytes, x: nat)
    requires x < |a| && Agree(a, b, x, x) && (SumP(a) == SumP(b) || SumQ(a) == SumQ(b))
    ensures a == b
  {
    var e := Plus(a, b);
    SumsLinear(a, b);
    XorSelf(SumP(a));
    XorSelf(SumQ(a));
    DifferenceOnly(a, b, x, x);
    SumsOfOne(e, x);
    TimesZero(x);
    if Times(x, e[x]) == 0 { TimesInjective(x, e[x], 0); }
    XorZero(a[x], b[x]);
  }

  // ---------- generation, in place ----------

  /** What the data buffers hold. */
  ghost function Contents(data: seq<array<bv8>>, k: nat, len: nat): (r: seq<Bytes>)
    requires k <= |data| && forall d :: 0 <= d < k ==> len <= data[d].Length
    reads data
    ensures Shaped(r, k, len)
    ensures forall d, j :: 0 <= d < k && 0 <= j < len ==> r[d][j] == data[d][j]
  {
    if k == 0 then [] else Contents(data, k - 1, len) + [data[k - 1][..len]]
  }

  /** rc_amd_generate_raid5_parity: block by block into the parity buffer. */
  method Raid5Parity(data: seq<array<bv8>>, parity: array<bv8>, len: nat, drives: nat)
    requires drives - 1 <= |data| && len <= parity.Length && parity !in data
    requires forall d :: 0 <= d < drives - 1 ==> len <= data[d].Length
    modifies parity
    ensures drives < 2 || len == 0 ==> parity[..] == old(parity[..])
    ensures drives >= 2 ==>
      forall j :: 0 <= j < len ==> parity[j] == SumP(Col(Contents(data, drives - 1, len), j))
    ensures forall j :: len <= j < parity.Length ==> parity[j] == old(parity[j])
  {
    if drives < 2 || len == 0 { return; }
    var k := drives - 1;
    ghost var blocks := Contents(data, k, len);
    for i := 0 to len
      invariant forall j :: 0 <= j < i ==> parity[j] == 0
      invariant forall j :: len <= j < parity.Length ==> parity[j] == old(parity[j])
    {
      parity[i] := 0;
    }
    for d := 0 to k
      invariant forall j :: 0 <= j < len ==> parity[j] == SumP(Col(blocks, j)[..d])
      invariant forall j :: len <= j < parity.Length ==> parity[j] == old(parity[j])
    {
      XorBlock(data[d], parity, len, blocks, d);
    }
    forall j | 0 <= j < len ensures Col(blocks, j)[..k] == Col(blocks, j) {}
  }

  /** The inner loop: one drive's block into the parity buffer. */
  method XorBlock(src: array<bv8>, parity: array<bv8>, len: nat, ghost blocks: seq<Bytes>, ghost d: nat)
    requires src != parity && len <= src.Length && len <= parity.Length
    requires Shaped(blocks, |blocks|, len) && d < |blocks|
    requires forall j :: 0 <= j < len ==> blocks[d][j] == src[j]
    requires forall j :: 0 <= j < len ==> parity[j] == SumP(Col(blocks, j)[..d])
    modifies parity
    ensures forall j :: 0 <= j < len ==> parity[j] == SumP(Col(blocks, j)[..d + 1])
    ensures forall j :: len <= j < parity.Length ==> parity[j] == old(parity[j])
  {
    for i := 0 to len
      invariant forall j :: 0 <= j < i ==> parity[j] == SumP(Col(blocks, j)[..d + 1])
      invariant forall j :: i <= j < len ==> parity[j] == SumP(Col(blocks, j)[..d])
      invariant forall j :: len <= j < parity.Length ==> parity[j] == old(parity[j])
    {
      SumNext(Col(blocks, i), d);
      parity[i] := Xor(parity[i], src[i]);
    }
  }

  lemma SumNext(col: Bytes, d: nat)
    requires d < |col|
    ensures SumP(col[..d + 1]) == Xor(SumP(col[..d]), col[d])
    ensures SumQ(col[..d + 1]) == Xor(SumQ(col[..d]), Times(d, col[d]))
  {
    assert col[..d + 1][..d] == col[..d];
  }

  /** rc_amd_generate_raid6_parity: byte by byte, both sums at once. */
  method Raid6Parity(data: seq<array<bv8>>, p: array<bv8>, q: array<bv8>, len: nat, drives: nat,
                     exp: array<bv8>, log: array<bv8>, mul: array<bv8>)
    requires drives - 2 <= |data| && len <= p.Length && len <= q.Length
    requires p !in data && q !in data && p != q && {p, q} !! {exp, log, mul}
    requires forall d :: 0 <= d < drives - 2 ==> len <= data[d].Length
    requires Tables(exp[..], log[..], mul[..])
    modifies p, q
    ensures drives < 3 || len == 0 ==> p[..] == old(p[..]) && q[..] == old(q[..])
    ensures drives >= 3 ==> forall j :: 0 <= j < len ==>
      p[j] == SumP(Col(Contents(data, drives - 2, len), j)) && q[j] == SumQ(Col(Contents(data, drives - 2, len), j))
    ensures forall j :: len <= j < p.Length ==> p[j] == old(p[j])
    ensures forall j :: len <= j < q.Length ==> q[j] == old(q[j])
  {
    if drives < 3 || len == 0 { return; }
    var k := drives - 2;
    ghost var blocks := Contents(data, k, len);
    for i := 0 to len
      invariant forall j :: 0 <= j < i ==> p[j] == SumP(Col(blocks, j)) && q[j] == SumQ(Col(blocks, j))
      invariant p[len..] == old(p[len..]) && q[len..] == old(q[len..])
    {
      var pi, qi := SumByte(data, i, k, exp, log, mul, blocks, len);
      p[i] := pi;
      q[i] := qi;
    }
  }

  /** Both parities of byte i. */
  method SumByte(data: seq<array<bv8>>, i: nat, k: nat, exp: array<bv8>, log: array<bv8>, mul: array<bv8>,
                 ghost blocks: seq<Bytes>, ghost len: nat)
    returns (p: bv8, q: bv8)
    requires Tables(exp[..], log[..], mul[..]) && k <= |data| && Shaped(blocks, k, len) && i < len
    requires forall d :: 0 <= d < k ==> len <= data[d].Length && data[d][i] == blocks[d][i]
    ensures p == SumP(Col(blocks, i)) && q == SumQ(Col(blocks, i))
  {
    p, q := 0, 0;
    ghost var col := Col(blocks, i);
    for d := 0 to k
      invariant p == SumP(col[..d]) && q == SumQ(col[..d])
    {
      var byte := data[d][i];
      SumNext(col, d);
      p := Xor(p, byte);
      if byte != 0 {
        var coeff := exp[d % 255];
        ProductIsTimes(exp[..], log[..], mul[..], byte, d % 255);
        TimesMod(d, byte);
        q := Xor(q, Product(exp[..], log[..], byte, coeff));
      } else {
        TimesZero(d);
        XorUnit(q);
      }
    }
    assert col[..k] == col;
  }
}
