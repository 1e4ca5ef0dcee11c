/** Arithmetic modulo a prime: Euclid's lemma, Fermat's little theorem, and square roots when p is 3 modulo 4. */
module NumberTheory {

  function Pow(b: int, e: nat): (r: int) {
    if e == 0 then 1 else b * Pow(b, e - 1)
  }

  ghost predicate Prime(p: int) {
    2 <= p && forall d :: 2 <= d < p ==> p % d != 0
  }

  lemma AtLeastTwo(p: int)
    requires Prime(p)
    ensures 2 <= p
  {
  }

  // ----- remainders

  lemma MulAtLeast(p: int, k: int)
    requires p > 0 && k >= 1
    ensures p * k >= p
  {
  }

  lemma ModUnique(a: int, p: int, q: int, r: int)
    requires p > 0 && a == p * q + r && 0 <= r < p
    ensures a % p == r
  {
    var d := a / p - q;
    assert p * d == r - a % p;
    if d >= 1 { MulAtLeast(p, d); }
    if d <= -1 { MulAtLeast(p, -d); }
  }

  lemma ModMod(a: int, p: int)
    requires p > 0
    ensures (a % p) % p == a % p
  {
    ModUnique(a % p, p, 0, a % p);
  }

  lemma SmallMod(a: int, p: int)
    requires 0 <= a < p
    ensures a % p == a
  {
    ModUnique(a, p, 0, a);
  }

  /** Numbers that differ by a multiple of `p` have the same remainder. */
  lemma ModShift(a: int, b: int, k: int, p: int)
    requires p > 0 && a == b + p * k
    ensures a % p == b % p
  {
    assert a == p * (b / p + k) + b % p;
    ModUnique(a, p, b / p + k, b % p);
  }

  lemma ModMul(a: int, b: int, c: int, p: int)
    requires p > 0 && a % p == b % p
    ensures (a * c) % p == (b * c) % p && (c * a) % p == (c * b) % p
  {
    var k := a / p - b / p;
    assert a == b + p * k;
    assert a * c == b * c + p * (k * c);
    ModShift(a * c, b * c, k * c, p);
  }

  lemma ModMul2(a: int, b: int, c: int, d: int, p: int)
    requires p > 0 && a % p == b % p && c % p == d % p
    ensures (a * c) % p == (b * d) % p
  {
    ModMul(a, b, c, p);
    ModMul(c, d, b, p);
  }

  lemma ModSub(a: int, b: int, c: int, d: int, p: int)
    requires p > 0 && a % p == b % p && c % p == d % p
    ensures (a - c) % p == (b - d) % p && (a + c) % p == (b + d) % p
  {
    var k, l := a / p - b / p, c / p - d / p;
    assert a - c == b - d + p * (k - l);
    ModShift(a - c, b - d, k - l, p);
    assert a + c == b + d + p * (k + l);
    ModShift(a + c, b + d, k + l, p);
  }

  // ----- powers

  lemma {:induction false} PowAdd(b: int, m: nat, n: nat)
    ensures Pow(b, m + n) == Pow(b, m) * Pow(b, n)
  {
    if m > 0 { PowAdd(b, m - 1, n); }
  }

  lemma Regroup(a: int, b: int, x: int, y: int)
    ensures (a * b) * (x * y) == (a * x) * (b * y)
  {
    assert (a * b) * (x * y) == a * (b * x) * y;
    assert (a * x) * (b * y) == a * (x * b) * y;
  }

  lemma {:induction false} PowProduct(a: int, b: int, n: nat)
    ensures Pow(a * b, n) == Pow(a, n) * Pow(b, n)
  {
    if n > 0 {
      PowProduct(a, b, n - 1);
      Regroup(a, b, Pow(a, n - 1), Pow(b, n - 1));
    }
  }

  lemma {:induction false} PowMod(a: int, b: int, n: nat, p: int)
    requires p > 0 && a % p == b % p
    ensures Pow(a, n) % p == Pow(b, n) % p
  {
    if n > 0 {
      PowMod(a, b, n - 1, p);
      ModMul2(a, b, Pow(a, n - 1), Pow(b, n - 1), p);
    }
  }

  /** An odd power of a negated base is the negated power. */
  lemma {:induction false} PowNegOdd(a: int, n: nat)
    ensures n % 2 == 1 ==> Pow(-a, n) == -Pow(a, n)
    ensures n % 2 == 0 ==> Pow(-a, n) == Pow(a, n)
  {
    if n > 0 {
      PowNegOdd(a, n - 1);
      assert -a * -Pow(a, n - 1) == a * Pow(a, n - 1);
      assert -a * Pow(a, n - 1) == -(a * Pow(a, n - 1));
    }
  }

  // ----- primes

  lemma {:induction false} EuclidStep(p: int, a: int, b: int)
    requires Prime(p) && 1 <= a < p && (a * b) % p == 0
    ensures b % p == 0
    decreases a
  {
    if a == 1 {
      assert a * b == b;
    } else {
      var q, r := p / a, p % a;
      assert p == a * q + r;
      assert r * b == p * b - q * (a * b);
      var k := (a * b) / p;
      assert a * b == p * k;
      assert r * b == 0 + p * (b - q * k);
      ModShift(r * b, 0, b - q * k, p);
      EuclidStep(p, r, b);
    }
  }

  /** Euclid's lemma. */
  lemma EuclidLemma(p: int, a: int, b: int)
    requires Prime(p) && a % p != 0 && (a * b) % p == 0
    ensures b % p == 0
  {
    ModMod(a, p);
    ModMul(a, a % p, b, p);
    EuclidStep(p, a % p, b);
  }

  lemma Cancel(p: int, a: int, x: int, y: int)
    requires Prime(p) && a % p != 0 && (a * x) % p == (a * y) % p
    ensures x % p == y % p
  {
    ModSub(a * x, a * y, a * y, a * y, p);
    assert a * x - a * y == a * (x - y);
    SmallMod(0, p);
    EuclidLemma(p, a, x - y);
    ModShift(x, y, (x - y) / p, p);
  }

  /** A product is not divisible when its factors are not. */
  lemma NonZeroProduct(p: int, a: int, b: int)
    requires Prime(p) && a % p != 0 && b % p != 0
    ensures (a * b) % p != 0
  {
    if (a * b) % p == 0 { EuclidLemma(p, a, b); }
  }

  lemma {:induction false} NonZeroPow(p: int, a: int, n: nat)
    requires Prime(p) && a % p != 0
    ensures Pow(a, n) % p != 0
  {
    if n > 0 {
      NonZeroPow(p, a, n - 1);
      NonZeroProduct(p, a, Pow(a, n - 1));
    }
  }

  // ----- Fermat's little theorem

  ghost function Product(s: set<nat>): (r: int) {
    if s == {} then 1 else var x :| x in s; x * Product(s - {x})
  }

  lemma {:induction false} ProductPick(s: set<nat>, x: nat)
    requires x in s
    ensures Product(s) == x * Product(s - {x})
    decreases |s|
  {
    var y :| y in s && Product(s) == y * Product(s - {y});
    if y != x {
      ProductPick(s - {y}, x);
      ProductPick(s - {x}, y);
      assert s - {y} - {x} == s - {x} - {y};
      var rest := Product(s - {x} - {y});
      assert y * (x * rest) == x * (y * rest);
    }
  }

  ghost function UpTo(n: nat): (s: set<nat>)
    ensures forall i :: i in s <==> 1 <= i <= n
  {
    if n == 0 then {} else UpTo(n - 1) + {n}
  }

  /** The multiples of `a` by 1..n, reduced modulo `p`. */
  ghost function Multiples(a: int, n: nat, p: int): (s: set<nat>)
    requires p > 0
  {
    set i | 1 <= i <= n :: (a * i) % p
  }

  lemma {:induction false} UpToSize(n: nat)
    ensures |UpTo(n)| == n
  {
    if n > 0 {
      UpToSize(n - 1);
    }
  }

  lemma MultiplesStep(a: int, n: nat, p: int)
    requires Prime(p) && a % p != 0 && 1 <= n < p
    ensures (a * n) % p !in Multiples(a, n - 1, p)
    ensures Multiples(a, n, p) == Multiples(a, n - 1, p) + {(a * n) % p}
    ensures 1 <= (a * n) % p < p
  {
    forall i | 1 <= i < n ensures (a * i) % p != (a * n) % p {
      if (a * i) % p == (a * n) % p {
        Cancel(p, a, i, n);
        SmallMod(i, p);
        SmallMod(n, p);
      }
    }
    SmallMod(n, p);
    NonZeroProduct(p, a, n);
  }

  lemma {:induction false} MultiplesShape(a: int, n: nat, p: int)
    requires Prime(p) && a % p != 0 && n < p
    ensures |Multiples(a, n, p)| == n && Multiples(a, n, p) <= UpTo(p - 1)
  {
    if n == 0 {
      assert Multiples(a, 0, p) == {};
    } else {
      MultiplesShape(a, n - 1, p);
      MultiplesStep(a, n, p);
    }
  }

  /** Modulo `p` the product of the multiples is a power of `a` times the product of 1..n. */
  lemma {:induction false} MultiplesProduct(a: int, n: nat, p: int)
    requires Prime(p) && a % p != 0 && n < p
    ensures Product(Multiples(a, n, p)) % p == (Pow(a, n) * Product(UpTo(n))) % p
  {
    if n == 0 {
      assert Multiples(a, 0, p) == {} && UpTo(0) == {};
    } else {
      var before, x := Multiples(a, n - 1, p), (a * n) % p;
      MultiplesProduct(a, n - 1, p);
      MultiplesStep(a, n, p);
      ProductPick(Multiples(a, n, p), x);
      assert Multiples(a, n, p) - {x} == before;
      ProductPick(UpTo(n), n);
      assert UpTo(n) - {n} == UpTo(n - 1);
      var power, fact := Pow(a, n - 1), Product(UpTo(n - 1));
      ModMod(a * n, p);
      ModMul2(x, a * n, Product(before), power * fact, p);
      Regroup(a, n, power, fact);
    }
  }

  lemma {:induction false} ProductNonZero(n: nat, p: int)
    requires Prime(p) && n < p
    ensures Product(UpTo(n)) % p != 0
  {
    if n == 0 {
      assert UpTo(0) == {};
      SmallMod(1, p);
    } else {
      ProductNonZero(n - 1, p);
      ProductPick(UpTo(n), n);
      assert UpTo(n) - {n} == UpTo(n - 1);
      SmallMod(n, p);
      NonZeroProduct(p, n, Product(UpTo(n - 1)));
    }
  }

  lemma SubsetOfSameSize(s: set<nat>, t: set<nat>)
    requires s <= t && |s| == |t|
    ensures s == t
  {
    assert t == s + (t - s);
  }

  /** Fermat's little theorem. */
  lemma Fermat(a: int, p: int)
    requires Prime(p) && a % p != 0
    ensures Pow(a, p - 1) % p == 1
  {
    hide Prime, UpTo, Product, Pow, Multiples;
    AtLeastTwo(p);
    var fact := Product(UpTo(p - 1));
    MultiplesShape(a, p - 1, p);
    UpToSize(p - 1);
    SubsetOfSameSize(Multiples(a, p - 1, p), UpTo(p - 1));
    MultiplesProduct(a, p - 1, p);
    ProductNonZero(p - 1, p);
    assert fact * Pow(a, p - 1) == Pow(a, p - 1) * fact;
    assert fact * 1 == fact;
    Cancel(p, fact, Pow(a, p - 1), 1);
    SmallMod(1, p);
  }

  // ----- squares modulo a prime

  /** `a` is a quadratic residue: the Legendre symbol of `a` is 1. */
  predicate IsSquare(a: int, p: int)
    requires p > 0
  {
    a % p != 0 && exists y :: 0 < y < p && (y * y) % p == a % p
  }

  lemma PowSquare(y: int, n: nat)
    ensures Pow(y * y, n) == Pow(y, n) * Pow(y, n) == Pow(y, 2 * n)
  {
    PowProduct(y, y, n);
    PowAdd(y, n, n);
  }

  /** A residue to the half of p - 1 is 1. */
  lemma SquareHalf(a: int, p: int)
    requires Prime(p) && p % 2 == 1 && IsSquare(a, p)
    ensures Pow(a, (p - 1) / 2) % p == 1
  {
    var y :| 0 < y < p && (y * y) % p == a % p;
    SmallMod(y, p);
    Fermat(y, p);
    PowMod(a, y * y, (p - 1) / 2, p);
    PowSquare(y, (p - 1) / 2);
  }

  /** The power (p + 1) / 4 squares to the power (p + 1) / 2. */
  lemma RootSquared(a: int, p: int)
    requires p > 0 && p % 4 == 3
    ensures Pow(a, (p + 1) / 4) * Pow(a, (p + 1) / 4) == a * Pow(a, (p - 1) / 2)
  {
    PowAdd(a, (p + 1) / 4, (p + 1) / 4);
    assert (p + 1) / 4 + (p + 1) / 4 == (p - 1) / 2 + 1;
  }

  /** When the half power is 1, the power (p + 1) / 4 is a square root. */
  lemma RootIsRoot(a: int, p: int)
    requires Prime(p) && p % 4 == 3 && a % p != 0 && Pow(a, (p - 1) / 2) % p == 1
    ensures var x := Pow(a, (p + 1) / 4) % p; 0 < x < p && (x * x) % p == a % p
    ensures IsSquare(a, p)
  {
    var r := Pow(a, (p + 1) / 4);
    RootSquared(a, p);
    SmallMod(1, p);
    ModMul(Pow(a, (p - 1) / 2), 1, a, p);
    ModMod(r, p);
    ModMul2(r, r % p, r, r % p, p);
    NonZeroPow(p, a, (p + 1) / 4);
  }

  lemma SquareMinusOne(z: int, p: int)
    requires p >= 2 && (z * z) % p == 1
    ensures ((z - 1) * (z + 1)) % p == 0
  {
    DifferenceOfSquares(z, 1);
    SmallMod(1, p);
    ModSub(z * z, 1, 1, 1, p);
  }

  lemma AfterMultiple(z: int, p: int)
    requires p >= 2 && (z - 1) % p == 0
    ensures z % p == 1
  {
    ModShift(z, 1, (z - 1) / p, p);
    SmallMod(1, p);
  }

  lemma BeforeMultiple(z: int, p: int)
    requires p >= 2 && (z + 1) % p == 0
    ensures z % p == p - 1
  {
    var q := (z + 1) / p;
    assert z + 1 == p * q;
    ModUnique(z, p, q - 1, p - 1);
  }

  lemma SquareRootsOfOne(z: int, p: int)
    requires Prime(p) && (z * z) % p == 1
    ensures z % p == 1 || z % p == p - 1
  {
    hide Prime;
    AtLeastTwo(p);
    SquareMinusOne(z, p);
    var a, b := z - 1, z + 1;
    if a % p == 0 {
      AfterMultiple(z, p);
    } else {
      EuclidLemma(p, a, b);
      BeforeMultiple(z, p);
    }
  }

  /** Of a non-zero number and its negation exactly one is a residue when p is 3 modulo 4. */
  lemma ExactlyOneIsSquare(a: int, p: int)
    requires Prime(p) && p % 4 == 3 && a % p != 0
    ensures IsSquare(a, p) <==> !IsSquare(-a, p)
    ensures IsSquare(a, p) <==> Pow(a, (p - 1) / 2) % p == 1
  {
    var h := (p - 1) / 2;
    Fermat(a, p);
    PowAdd(a, h, h);
    SquareRootsOfOne(Pow(a, h), p);
    PowNegOdd(a, h);
    assert h % 2 == 1;
    NegNonZero(a, p);
    NegMod(Pow(a, h), p);
    if IsSquare(a, p) { SquareHalf(a, p); }
    if IsSquare(-a, p) { SquareHalf(-a, p); }
    if Pow(a, h) % p == 1 { RootIsRoot(a, p); } else { RootIsRoot(-a, p); }
  }

  lemma NegMod(a: int, p: int)
    requires p > 0
    ensures (-a) % p == if a % p == 0 then 0 else p - a % p
  {
    var r := if a % p == 0 then 0 else p - a % p;
    var q := if a % p == 0 then -(a / p) else -(a / p) - 1;
    assert -a == p * q + r;
    ModUnique(-a, p, q, r);
  }

  lemma NegNonZero(a: int, p: int)
    requires p > 0 && a % p != 0
    ensures (-a) % p != 0
  {
    NegMod(a, p);
  }

  /** Below 2p the only positive multiple of p is p. */
  lemma OnlyMultiple(a: int, p: int)
    requires 0 < a < 2 * p && a % p == 0
    ensures a == p
  {
    if a < p { SmallMod(a, p); } else { ModShift(a, a - p, 1, p); SmallMod(a - p, p); }
  }

  lemma DifferenceOfSquares(x: int, y: int)
    ensures (x - y) * (x + y) == x * x - y * y
  {
  }

  /** Two square roots modulo `p` agree up to sign. */
  lemma RootsAgree(x: int, y: int, p: int)
    requires Prime(p) && 0 < x < p && 0 < y < p && (x * x) % p == (y * y) % p
    ensures x == y || x == p - y
  {
    hide Prime;
    DifferenceOfSquares(x, y);
    ModSub(x * x, y * y, y * y, y * y, p);
    SmallMod(0, p);
    if x != y {
      if x > y { SmallMod(x - y, p); } else { SmallMod(y - x, p); NegMod(y - x, p); }
      EuclidLemma(p, x - y, x + y);
      OnlyMultiple(x + y, p);
    }
  }
}
