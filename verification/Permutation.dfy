/** The square-root permutation of Sloth on the residues of a prime that is 3 modulo 4. */
module Permutation {
  import opened Basics
  import opened NumberTheory

  function Negate(p: nat, x: nat): (r: nat)
    requires x <= p
  {
    p - x
  }

  /** The modular square root that codes residues by even and non-residues by odd results; None for data not
      below the prime. */
  function SqrtPermutation(p: nat, x: nat): (r: Option<nat>)
    requires p > 0
  {
    if x >= p then None
    else if IsSquare(x, p) then
      var y := Pow(x, (p + 1) / 4) % p;
      Some(if y % 2 == 1 then Negate(p, y) else y)
    else
      var y := Pow(Negate(p, x), (p + 1) / 4) % p;
      Some(if y % 2 == 0 then Negate(p, y) else y)
  }

  /** Undoes the permutation with a single squaring. */
  function InverseSqrt(p: nat, y: nat): (r: nat)
    requires p > 0
    ensures r <= p
  {
    var square := (y * y) % p;
    if y % 2 == 1 then Negate(p, square) else square
  }

  ghost predicate SlothPrime(p: nat) {
    Prime(p) && p % 4 == 3
  }

  lemma FlipSquare(y: nat, z: nat, p: nat)
    requires 0 < y < p && z == p - y
    ensures (z * z) % p == (y * y) % p
  {
    assert z * z == y * y + p * (p - 2 * y);
    ModShift(z * z, y * y, p - 2 * y, p);
  }

  /** The even (or odd) one of a square root and its negation. */
  function Pick(p: nat, y: nat, parity: nat): (r: nat)
    requires y <= p
  {
    if y % 2 == parity then y else p - y
  }

  lemma PickRoot(root: nat, a: nat, p: nat, parity: nat)
    requires 0 < root < p && p % 2 == 1 && parity < 2 && (root * root) % p == a % p
    ensures var y := Pick(p, root, parity); 0 < y < p && y % 2 == parity && (y * y) % p == a % p
  {
    if root % 2 != parity {
      FlipSquare(root, Pick(p, root, parity), p);
    }
  }

  /** For a residue `a` the power (p + 1) / 4, taken with a given parity, is the root of that parity. */
  lemma RootOfParity(a: nat, p: nat, parity: nat)
    requires SlothPrime(p) && IsSquare(a, p) && parity < 2
    ensures var y := Pick(p, Pow(a, (p + 1) / 4) % p, parity);
            0 < y < p && y % 2 == parity && (y * y) % p == a % p
  {
    hide Prime, IsSquare, Pow, Pick;
    AtLeastTwo(p);
    IsSquareNonZero(a, p);
    ExactlyOneIsSquare(a, p);
    RootIsRoot(a, p);
    PickRoot(Pow(a, (p + 1) / 4) % p, a, p, parity);
  }

  lemma IsSquareNonZero(a: int, p: int)
    requires p > 0 && IsSquare(a, p)
    ensures a % p != 0
  {
  }

  lemma IsSquareMod(a: int, b: int, p: int)
    requires p > 0 && a % p == b % p
    ensures IsSquare(a, p) == IsSquare(b, p)
  {
  }

  lemma NegatedSquare(x: nat, p: nat)
    requires SlothPrime(p) && 0 < x < p
    ensures IsSquare(p - x, p) == !IsSquare(x, p)
    ensures x % p == x && (p - x) % p == p - x
  {
    hide Prime, IsSquare;
    SmallMod(x, p);
    SmallMod(p - x, p);
    NegMod(x, p);
    ExactlyOneIsSquare(x, p);
    IsSquareMod(-(x as int), p - x, p);
  }

  /** Decoding an encoded value gives it back; the parity of the code tells whether it was a residue. */
  lemma InverseUndoesSqrt(p: nat, x: nat)
    requires SlothPrime(p) && 0 < x < p
    ensures SqrtPermutation(p, x).Some?
    ensures var y := SqrtPermutation(p, x).value;
            0 < y < p && InverseSqrt(p, y) == x && (y % 2 == 0 <==> IsSquare(x, p))
  {
    hide Prime, IsSquare, Pow;
    NegatedSquare(x, p);
    if IsSquare(x, p) { RootOfParity(x, p, 0); } else { RootOfParity(p - x, p, 1); }
  }

  lemma SqrtByParity(p: nat, x: nat)
    requires SlothPrime(p) && 0 < x < p
    ensures SqrtPermutation(p, x) ==
            if IsSquare(x, p) then Some(Pick(p, Pow(x, (p + 1) / 4) % p, 0))
            else Some(Pick(p, Pow(p - x, (p + 1) / 4) % p, 1))
  {
    hide Prime, IsSquare, Pow;
  }

  lemma SameParityRoots(x: nat, y: nat, p: nat)
    requires SlothPrime(p) && 0 < x < p && 0 < y < p && x % 2 == y % 2 && (x * x) % p == (y * y) % p
    ensures x == y
  {
    hide Prime;
    RootsAgree(x, y, p);
  }

  /** Taking the root of a square with the parity of the number that was squared. */
  lemma RootOfSquare(p: nat, y: nat)
    requires SlothPrime(p) && 0 < y < p
    ensures var q := (y * y) % p; 0 < q < p && IsSquare(q, p) && Pick(p, Pow(q, (p + 1) / 4) % p, y % 2) == y
  {
    hide Prime, IsSquare, Pow, Pick;
    var q := (y * y) % p;
    SquareIsSquare(y, p);
    RootOfParity(q, p, y % 2);
    SameParityRoots(Pick(p, Pow(q, (p + 1) / 4) % p, y % 2), y, p);
  }

  lemma InverseByParity(p: nat, y: nat)
    requires p > 0
    ensures var q := (y * y) % p; InverseSqrt(p, y) == if y % 2 == 1 then p - q else q
  {
  }

  /** Encoding a decoded value gives it back. */
  lemma SqrtUndoesInverse(p: nat, y: nat)
    requires SlothPrime(p) && 0 < y < p
    ensures 0 < InverseSqrt(p, y) < p && SqrtPermutation(p, InverseSqrt(p, y)) == Some(y)
  {
    hide Prime, IsSquare, Pow, SqrtPermutation, Pick, InverseSqrt;
    var q := (y * y) % p;
    RootOfSquare(p, y);
    InverseByParity(p, y);
    NegatedSquare(q, p);
    SqrtByParity(p, InverseSqrt(p, y));
    assert p - (p - q) == q;
  }

  lemma SquareIsSquare(y: nat, p: nat)
    requires SlothPrime(p) && 0 < y < p
    ensures var q := (y * y) % p; 0 < q < p && q % p == q && IsSquare(q, p)
  {
    hide Prime;
    SmallMod(y, p);
    NonZeroProduct(p, y, y);
    SmallMod((y * y) % p, p);
  }

  /** The one value below the prime that does not survive: 0 becomes p and stays p. */
  lemma ZeroIsNotInverted(p: nat)
    requires SlothPrime(p)
    ensures SqrtPermutation(p, 0) == Some(p) && InverseSqrt(p, p) == p
  {
    hide Prime;
    AtLeastTwo(p);
    SmallMod(0, p);
    ModShift(p, 0, 1, p);
    PowMod(p, 0, (p + 1) / 4, p);
    assert Pow(0, (p + 1) / 4) == 0 * Pow(0, (p + 1) / 4 - 1);
    ModShift(p * p, 0, p, p);
  }

  /** Below the prime, exactly the non-zero values round-trip. */
  lemma RoundTripIffNonZero(p: nat, x: nat)
    requires SlothPrime(p) && x < p
    ensures SqrtPermutation(p, x).Some?
    ensures InverseSqrt(p, SqrtPermutation(p, x).value) == x <==> x != 0
  {
    hide Prime, IsSquare, Pow, InverseSqrt, SqrtPermutation;
    if x == 0 { AtLeastTwo(p); ZeroIsNotInverted(p); } else { InverseUndoesSqrt(p, x); }
  }
}
