/** The field GF(2^8) of src/patch_parity_math.c, with polynomial 0x11D and
  * generator alpha = 2.  The simple form is repeated multiplication by alpha
  * (Times); the fast form is the product by log and exp tables. */
module ParityField {

  function Xor(a: bv8, b: bv8): bv8 { a ^ b }

  // ---------- multiplication by alpha ----------

  /** b * alpha: shift, and reduce by the polynomial when bit 8 comes out. */
  function Alpha(b: bv8): bv8 {
    if b & 0x80 == 0 then b << 1 else Xor(b << 1, 0x1D)
  }

  /** b * alpha^n. */
  function Times(n: nat, b: bv8): bv8 {
    if n == 0 then b else Alpha(Times(n - 1, b))
  }

  /** alpha^n. */
  function Power(n: nat): bv8 { Times(n, 1) }

  /** alpha is a root of the polynomial 0x11D: x^8 + x^4 + x^3 + x^2 + 1. */
  lemma AlphaRoot(b: bv8)
    ensures Times(8, b) == Xor(Times(4, b), Xor(Times(3, b), Xor(Times(2, b), b)))
  {
    PowersUpTo4(b);
    TimesAdd(4, 4, b);
    PowersUpTo4(Times(4, b));
    RootOfByte(b);
  }

  lemma PowersUpTo4(b: bv8)
    ensures Times(2, b) == Alpha(Alpha(b)) && Times(3, b) == Alpha(Times(2, b)) && Times(4, b) == Alpha(Times(3, b))
  {
    assert Times(1, b) == Alpha(b);
  }

  lemma RootOfByte(b: bv8)
    ensures
      var b2 := Alpha(Alpha(b));
      var b4 := Alpha(Alpha(b2));
      Alpha(Alpha(Alpha(Alpha(b4)))) == Xor(b4, Xor(Alpha(b2), Xor(b2, b)))
  {
  }

  lemma AlphaLinear(a: bv8, b: bv8)
    ensures Alpha(Xor(a, b)) == Xor(Alpha(a), Alpha(b))
  {
    ShiftLinear(a, b);
    TopBit(a, b);
    if a & 0x80 == 0 || b & 0x80 == 0 {
      Regroup(a << 1, b << 1, 0x1D);
    } else {
      CancelTwice(a << 1, b << 1, 0x1D);
    }
  }

  lemma ShiftLinear(a: bv8, b: bv8)
    ensures Xor(a, b) << 1 == Xor(a << 1, b << 1)
  {
  }

  lemma TopBit(a: bv8, b: bv8)
    ensures Xor(a, b) & 0x80 == 0 <==> (a & 0x80 == 0 <==> b & 0x80 == 0)
  {
  }

  lemma Regroup(a: bv8, b: bv8, c: bv8)
    ensures Xor(Xor(a, b), c) == Xor(Xor(a, c), b) && Xor(Xor(a, b), c) == Xor(a, Xor(b, c))
  {
  }

  lemma CancelTwice(a: bv8, b: bv8, c: bv8)
    ensures Xor(Xor(a, c), Xor(b, c)) == Xor(a, b)
  {
  }

  lemma AlphaInjective(a: bv8, b: bv8)
    requires Alpha(a) == Alpha(b)
    ensures a == b
  {
  }

  lemma {:induction false} TimesLinear(n: nat, a: bv8, b: bv8)
    ensures Times(n, Xor(a, b)) == Xor(Times(n, a), Times(n, b))
  {
    if n > 0 {
      TimesLinear(n - 1, a, b);
      AlphaLinear(Times(n - 1, a), Times(n - 1, b));
    }
  }

  lemma {:induction false} TimesInjective(n: nat, a: bv8, b: bv8)
    requires Times(n, a) == Times(n, b)
    ensures a == b
  {
    if n > 0 {
      AlphaInjective(Times(n - 1, a), Times(n - 1, b));
      TimesInjective(n - 1, a, b);
    }
  }

  lemma {:induction false} TimesAdd(m: nat, n: nat, b: bv8)
    ensures Times(m + n, b) == Times(m, Times(n, b))
  {
    if m > 0 { TimesAdd(m - 1, n, b); }
  }

  lemma {:induction false} TimesZero(n: nat)
    ensures Times(n, 0) == 0
  {
    if n > 0 { TimesZero(n - 1); }
  }

  // ---------- alpha has order 255 ----------

  /** Seventeen further powers, by way of the eighth. */
  lemma Step17(n: nat, b: bv8, mid: bv8, next: bv8)
    requires Power(n) == b && Times(8, b) == mid && Times(9, mid) == next
    ensures Power(n + 17) == next
  {
    TimesAdd(9, 8, b);
    TimesAdd(17, n, 1);
  }

  lemma Power85()
    ensures Power(51) == 0x0A && Power(85) == 0xD6
  {
    Step17(0, 0x01, 0x1D, 0x98);
    Step17(17, 0x98, 0x03, 0x4E);
    Step17(34, 0x4E, 0xB5, 0x0A);
    Step17(51, 0x0A, 0xD2, 0x99);
    Step17(68, 0x99, 0x1E, 0xD6);
  }

  lemma Power170()
    ensures Power(170) == 0xD7
  {
    Power85();
    Step17(85, 0xD6, 0xB6, 0x44);
    Step17(102, 0x44, 0x67, 0x93);
    Step17(119, 0x93, 0xCC, 0x4F);
    Step17(136, 0x4F, 0xA8, 0x92);
    Step17(153, 0x92, 0xD1, 0xD7);
  }

  lemma Power255()
    ensures Power(255) == 1
  {
    Power170();
    Step17(170, 0xD7, 0xAB, 0xDC);
    Step17(187, 0xDC, 0x64, 0xDD);
    Step17(204, 0xDD, 0x79, 0x45);
    Step17(221, 0x45, 0x7A, 0x0B);
    Step17(238, 0x0B, 0xCF, 0x01);
  }

  lemma Power15()
    ensures Power(15) == 0x26
  {
    assert Power(8) == 0x1D;
  }

  lemma PeriodDifference(d: nat, e: nat)
    requires Power(d) == 1 && Power(e) == 1 && d <= e
    ensures Power(e - d) == 1
  {
    TimesAdd(d, e - d, 1);
    TimesInjective(d, Power(e - d), 1);
  }

  lemma {:induction false} PeriodMultiple(g: nat, k: nat)
    requires Power(g) == 1
    ensures Power(k * g) == 1
  {
    if k > 0 {
      PeriodMultiple(g, k - 1);
      assert k * g == g + (k - 1) * g;
      TimesAdd(g, (k - 1) * g, 1);
    }
  }

  /** Two periods have a common divisor that is a period. */
  lemma {:induction false} CommonPeriod(d: nat, e: nat) returns (g: nat, a: nat, b: nat)
    requires d > 0 && e > 0 && Power(d) == 1 && Power(e) == 1
    ensures 0 < g <= d && Power(g) == 1 && d == a * g && e == b * g
    decreases d + e
  {
    if d == e {
      g, a, b := d, 1, 1;
    } else if d < e {
      PeriodDifference(d, e);
      g, a, b := CommonPeriod(d, e - d);
      b := Rejoin(d, e - d, g, a, b);
    } else {
      PeriodDifference(e, d);
      g, a, b := CommonPeriod(d - e, e);
      a := Rejoin(e, d - e, g, b, a);
    }
  }

  lemma Rejoin(x: nat, y: nat, g: nat, i: nat, j: nat) returns (k: nat)
    requires x == i * g && y == j * g
    ensures x + y == k * g
  {
    k := i + j;
  }

  // ---------- the divisors of 255 ----------

  lemma SplitProduct(q: nat, r: nat, g: nat, p: nat)
    ensures (q * p + r) * g == p * (q * g) + r * g
  {
    assert (q * p + r) * g == q * p * g + r * g;
    assert q * p * g == p * (q * g);
  }

  lemma Cancel3(z: int, r: nat, g: nat)
    requires 0 < r < 3 && 3 * z + r * g == 255
    ensures g % 3 == 0
  {
    if r == 1 { assert 3 * z + 1 * g == 255; }
    else if r == 2 { assert 3 * z + 2 * g == 255; }
  }

  lemma Factor3(b: nat, g: nat)
    requires b * g == 255 && b % 3 != 0
    ensures g % 3 == 0
  {
    SplitProduct(b / 3, b % 3, g, 3);
    Cancel3(b / 3 * g, b % 3, g);
  }

  lemma Cancel5(z: int, r: nat, g: nat)
    requires 0 < r < 5 && 5 * z + r * g == 255
    ensures g % 5 == 0
  {
    if r == 1 { assert 5 * z + 1 * g == 255; }
    else if r == 2 { assert 5 * z + 2 * g == 255; }
    else if r == 3 { assert 5 * z + 3 * g == 255; }
    else if r == 4 { assert 5 * z + 4 * g == 255; }
  }

  lemma Factor5(b: nat, g: nat)
    requires b * g == 255 && b % 5 != 0
    ensures g % 5 == 0
  {
    SplitProduct(b / 5, b % 5, g, 5);
    Cancel5(b / 5 * g, b % 5, g);
  }

  lemma Cancel17(z: int, r: nat, g: nat)
    requires 0 < r < 17 && 17 * z + r * g == 255
    ensures g % 17 == 0
  {
    assert r * g == 17 * (15 - z);
    Cancel17Whole(15 - z, r, g);
  }

  lemma Cancel17Whole(z: int, r: nat, g: nat)
    requires 0 < r < 17 && r * g == 17 * z
    ensures g % 17 == 0
    decreases r > 8
  {
    if r > 8 {
      assert (17 - r) * g == 17 * (g - z);
      Cancel17Whole(g - z, 17 - r, g);
    } else {
      Cancel17Small(z, r, g);
    }
  }

  lemma Cancel17Small(z: int, r: nat, g: nat)
    requires 0 < r <= 8 && r * g == 17 * z
    ensures g % 17 == 0
  {
    if r == 1 { assert g == 17 * z; }
    else if r == 2 { assert 2 * g == 17 * z; }
    else if r == 3 { assert 3 * g == 17 * z; }
    else if r == 4 { assert 4 * g == 17 * z; }
    else { Cancel17Middle(z, r, g); }
  }

  lemma Cancel17Middle(z: int, r: nat, g: nat)
    requires 4 < r <= 8 && r * g == 17 * z
    ensures g % 17 == 0
  {
    if r == 5 { assert 5 * g == 17 * z; }
    else if r == 6 { assert 6 * g == 17 * z; }
    else if r == 7 { assert 7 * g == 17 * z; }
    else { assert 8 * g == 17 * z; }
  }

  lemma Factor17(b: nat, g: nat)
    requires b * g == 255 && b % 17 != 0
    ensures g % 17 == 0
  {
    SplitProduct(b / 17, b % 17, g, 17);
    Cancel17(b / 17 * g, b % 17, g);
  }

  /** A proper divisor of 255 divides 15, 51 or 85. */
  lemma ProperDivisor(b: nat, g: nat)
    requires b * g == 255 && g < 255
    ensures b % 3 == 0 || b % 5 == 0 || b % 17 == 0
  {
    if b % 3 != 0 && b % 5 != 0 && b % 17 != 0 {
      Factor3(b, g);
      Factor5(b, g);
      Factor17(b, g);
    }
  }

  /** No smaller power of alpha is 1. */
  lemma OrderIs255(d: nat)
    requires 0 < d < 255
    ensures Power(d) != 1
  {
    if Power(d) == 1 {
      Power255();
      var g, a, b := CommonPeriod(d, 255);
      ProperDivisor(b, g);
      NoShortPeriod(b, g);
    }
  }

  lemma NoShortPeriod(b: nat, g: nat)
    requires b * g == 255 && (b % 3 == 0 || b % 5 == 0 || b % 17 == 0)
    ensures Power(g) != 1
  {
    if Power(g) == 1 {
      Power15();
      Power85();
      if b % 3 == 0 {
        Third(b / 3, g, 3, 85);
        PeriodMultiple(g, b / 3);
      } else if b % 5 == 0 {
        Third(b / 5, g, 5, 51);
        PeriodMultiple(g, b / 5);
      } else {
        Third(b / 17, g, 17, 15);
        PeriodMultiple(g, b / 17);
      }
    }
  }

  lemma Third(k: nat, g: nat, p: nat, n: nat)
    requires p > 0 && p * k * g == p * n
    ensures k * g == n
  {
    assert p * (k * g) == p * k * g;
    assert p * (k * g - n) == 0;
  }

  // ---------- every nonzero byte is one power of alpha ----------

  lemma {:induction false} PowerNotZero(n: nat)
    ensures Power(n) != 0
  {
    TimesZero(n);
    if Power(n) == 0 { TimesInjective(n, 1, 0); }
  }

  lemma PowersDistinct(i: nat, j: nat)
    requires i < j < i + 255
    ensures Power(i) != Power(j)
  {
    if Power(i) == Power(j) {
      TimesAdd(i, j - i, 1);
      TimesInjective(i, Power(j - i), 1);
      OrderIs255(j - i);
    }
  }

  /** A byte as an array index, and back. */
  function Index(b: bv8): (r: nat)
    ensures r < 256
  {
    b as int
  }

  function Byte(i: int): (r: bv8)
    requires 0 <= i < 256
    ensures r as int == i
  {
    i as bv8
  }

  lemma IndexInjective(a: bv8, b: bv8)
    ensures Index(a) == Index(b) <==> a == b
  {
  }

  /** The numbers from 1 to n. */
  function Interval(n: nat): set<nat> {
    if n == 0 then {} else Interval(n - 1) + {n}
  }

  lemma {:induction false} IntervalSize(n: nat)
    ensures |Interval(n)| == n && forall i: nat :: i in Interval(n) <==> 1 <= i <= n
  {
    if n > 0 { IntervalSize(n - 1); }
  }

  /** The first n powers, as numbers. */
  function Powers(n: nat): set<nat> {
    if n == 0 then {} else Powers(n - 1) + {Index(Power(n - 1))}
  }

  lemma {:induction false} PowersAre(n: nat, v: nat)
    requires v in Powers(n)
    ensures exists i: nat :: i < n && Index(Power(i)) == v
  {
    if v != Index(Power(n - 1)) {
      PowersAre(n - 1, v);
    }
  }

  lemma {:induction false} PowersSize(n: nat, m: nat)
    requires n <= 255 == m
    ensures |Powers(n)| == n && Powers(n) <= Interval(m)
  {
    if n > 0 {
      PowersSize(n - 1, m);
      NewPower(n - 1);
      PowerNotZero(n - 1);
      InInterval(Power(n - 1), m);
      Insert(Powers(n - 1), Index(Power(n - 1)), Interval(m));
    }
  }

  lemma Insert(s: set<nat>, v: nat, t: set<nat>)
    requires v !in s && v in t && s <= t
    ensures |s + {v}| == |s| + 1 && s + {v} <= t
  {
  }

  lemma NewPower(n: nat)
    requires n < 255
    ensures Index(Power(n)) !in Powers(n)
  {
    if Index(Power(n)) in Powers(n) {
      PowersAre(n, Index(Power(n)));
      var i: nat :| i < n && Index(Power(i)) == Index(Power(n));
      IndexInjective(Power(i), Power(n));
      PowersDistinct(i, n);
    }
  }

  lemma InInterval(b: bv8, m: nat)
    requires b != 0 && m == 255
    ensures Index(b) in Interval(m)
  {
    IntervalSize(m);
    IndexInjective(b, 0);
  }

  lemma {:induction false} SubsetSize(a: set<nat>, b: set<nat>)
    requires a <= b
    ensures |a| <= |b|
  {
    if x :| x in a { SubsetSize(a - {x}, b - {x}); }
  }

  lemma SubsetOfSameSize(a: set<nat>, b: set<nat>)
    requires a <= b && |a| == |b|
    ensures a == b
  {
    if x :| x in b && x !in a {
      assert a <= b - {x};
      SubsetSize(a, b - {x});
    }
  }

  /** exp maps [0, 255) onto the nonzero bytes; with PowersDistinct, one to one. */
  lemma HasLog(b: bv8) returns (i: nat)
    requires b != 0
    ensures i < 255 && Power(i) == b
  {
    PowersAreAll(255, Index(b), b);
    i :| i < 255 && Index(Power(i)) == Index(b);
    IndexInjective(Power(i), b);
  }

  lemma PowersAreAll(m: nat, v: nat, b: bv8)
    requires m == 255 && b != 0 && v == Index(b)
    ensures exists i: nat :: i < m && Index(Power(i)) == v
  {
    PowersSize(m, m);
    IntervalSize(m);
    SubsetOfSameSize(Powers(m), Interval(m));
    InInterval(b, m);
    PowersAre(m, v);
  }

  /** alpha^255 = 1 acts as 1 on every byte. */
  lemma Times255(b: bv8)
    ensures Times(255, b) == b
  {
    if b == 0 {
      TimesZero(255);
    } else {
      var k := HasLog(b);
      Power255();
      TimesAdd(255, k, 1);
      TimesAdd(k, 255, 1);
    }
  }

  lemma {:induction false} TimesMod(n: nat, b: bv8)
    ensures Times(n, b) == Times(n % 255, b)
    decreases n
  {
    if n >= 255 {
      TimesMod(n - 255, b);
      TimesAdd(n - 255, 255, b);
      Times255(b);
    }
  }

  /** A nonzero byte is fixed by alpha^n exactly when 255 divides n. */
  lemma FixedIff(n: nat, b: bv8)
    requires b != 0
    ensures Times(n, b) == b <==> n % 255 == 0
  {
    TimesMod(n, b);
    if n % 255 != 0 && Times(n, b) == b {
      var k := HasLog(b);
      TimesAdd(n % 255, k, 1);
      PowersDistinct(k, n % 255 + k);
    }
  }

  // ---------- the tables ----------

  /** What gf28_init_tables leaves behind. */
  ghost predicate Tables(exp: seq<bv8>, log: seq<bv8>, mul: seq<bv8>) {
    && |exp| == |log| == |mul| == 256
    && (forall i :: 0 <= i < 255 ==> exp[i] == Power(i) && log[Index(Power(i))] == Byte(i))
    && exp[255] == 1 && log[0] == 255
    && (forall b: bv8 :: mul[Index(b)] == Alpha(b))
  }

  /** gf28_init_tables. */
  method InitTables(exp: array<bv8>, log: array<bv8>, mul: array<bv8>)
    requires exp.Length == log.Length == mul.Length == 256 && exp != log && log != mul && mul != exp
    modifies exp, log, mul
    ensures Tables(exp[..], log[..], mul[..])
  {
    FillLogs(exp, log);
    exp[255] := exp[0];
    log[0] := 255;
    forall i | 0 <= i < 255 ensures log[Index(Power(i))] == Byte(i) {
      PowerNotZero(i);
      IndexInjective(Power(i), 0);
    }
    FillMul(mul);
  }

  method FillLogs(exp: array<bv8>, log: array<bv8>)
    requires exp.Length == log.Length == 256 && exp != log
    modifies exp, log
    ensures forall i :: 0 <= i < 255 ==> exp[i] == Power(i) && log[Index(Power(i))] == Byte(i)
  {
    var v: bv16 := 1;
    for i := 0 to 255
      invariant v < 0x100 && v as bv8 == Power(i)
      invariant forall j :: 0 <= j < i ==> exp[j] == Power(j) && log[Index(Power(j))] == Byte(j)
    {
      OthersKept(i);
      exp[i] := v as bv8;
      log[Index(v as bv8)] := Byte(i);
      v := Doubled(v);
    }
  }

  /** v <<= 1, reduced: on the low byte, multiplication by alpha. */
  function Doubled(v: bv16): (r: bv16)
    requires v < 0x100
    ensures r < 0x100 && r as bv8 == Alpha(v as bv8)
  {
    var w := v << 1;
    if w & 0x100 != 0 then w ^ 0x11D else w
  }

  /** Writing the log of power i overwrites no earlier one. */
  lemma OthersKept(i: nat)
    requires i < 255
    ensures forall j :: 0 <= j < i ==> Index(Power(j)) != Index(Power(i))
  {
    forall j | 0 <= j < i ensures Index(Power(j)) != Index(Power(i)) {
      PowersDistinct(j, i);
      IndexInjective(Power(j), Power(i));
    }
  }

  /** The entry for b, computed wide and cut to a byte. */
  method MulEntry(b: bv8) returns (r: bv8)
    ensures r == Alpha(b)
  {
    var w := (b as bv16) << 1;
    if b == 0 {
      r := 0;
    } else if b & 0x80 != 0 {
      r := ((w ^ 0x11D) & 0xFF) as bv8;
    } else {
      r := (w & 0xFF) as bv8;
    }
  }

  lemma OnlyByte(i: nat)
    requires i < 256
    ensures forall b: bv8 :: Index(b) == i ==> b == Byte(i)
  {
    forall b: bv8 | Index(b) == i ensures b == Byte(i) {
      IndexInjective(b, Byte(i));
    }
  }

  method FillMul(mul: array<bv8>)
    requires mul.Length == 256
    modifies mul
    ensures forall b: bv8 :: mul[Index(b)] == Alpha(b)
  {
    for i := 0 to 256
      invariant forall b: bv8 :: Index(b) < i ==> mul[Index(b)] == Alpha(b)
    {
      OnlyByte(i);
      var e := MulEntry(Byte(i));
      mul[i] := e;
    }
  }

  /** gf28_mul_general. */
  function Product(exp: seq<bv8>, log: seq<bv8>, a: bv8, b: bv8): bv8
    requires |exp| == |log| == 256
  {
    if a == 0 || b == 0 then 0
    else exp[(Index(log[Index(a)]) + Index(log[Index(b)])) % 255]
  }

  lemma ProductOfPowers(exp: seq<bv8>, log: seq<bv8>, mul: seq<bv8>, i: nat, j: nat)
    requires Tables(exp, log, mul) && i < 255 && j < 255
    ensures Product(exp, log, Power(i), Power(j)) == Power((i + j) % 255)
  {
    PowerNotZero(i);
    PowerNotZero(j);
  }

  /** The table product by alpha^d is d multiplications by alpha. */
  lemma ProductIsTimes(exp: seq<bv8>, log: seq<bv8>, mul: seq<bv8>, a: bv8, d: nat)
    requires Tables(exp, log, mul)
    ensures Product(exp, log, a, Power(d)) == Times(d, a)
  {
    if a == 0 {
      TimesZero(d);
    } else {
      var i := HasLog(a);
      TimesMod(d, 1);
      ProductOfPowers(exp, log, mul, i, d % 255);
      SumOfLogs(i, d);
    }
  }

  lemma SumOfLogs(i: nat, d: nat)
    ensures Power((i + d % 255) % 255) == Times(d, Power(i))
  {
    TimesMod(i + d % 255, 1);
    TimesAdd(d % 255, i, 1);
    TimesMod(d, Power(i));
  }

  /** The table product is linear over XOR in either argument. */
  lemma ProductLinear(exp: seq<bv8>, log: seq<bv8>, mul: seq<bv8>, a: bv8, b: bv8, c: bv8)
    requires Tables(exp, log, mul)
    ensures Product(exp, log, Xor(a, b), c) == Xor(Product(exp, log, a, c), Product(exp, log, b, c))
    ensures Product(exp, log, a, c) == Product(exp, log, c, a)
  {
    if c == 0 {
      XorSelf(0);
    } else {
      var d := HasLog(c);
      ProductIsTimes(exp, log, mul, a, d);
      ProductIsTimes(exp, log, mul, b, d);
      ProductIsTimes(exp, log, mul, Xor(a, b), d);
      TimesLinear(d, a, b);
    }
  }

  lemma XorSelf(a: bv8)
    ensures Xor(a, a) == 0
  {
  }

  lemma XorZero(a: bv8, b: bv8)
    ensures Xor(a, b) == 0 <==> a == b
  {
  }
}
