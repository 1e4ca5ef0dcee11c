/** Unbounded bitwise xor, and numbers as little-endian bytes. */
module Bytes {

  type byte = x: int | 0 <= x < 256

  // ----- xor

  function Xor(a: nat, b: nat): (r: nat)
    decreases a + b
  {
    if a == 0 && b == 0 then 0 else (if a % 2 != b % 2 then 1 else 0) + 2 * Xor(a / 2, b / 2)
  }

  lemma {:induction false} XorCancels(a: nat, b: nat)
    ensures Xor(Xor(a, b), b) == a
    decreases a + b
  {
    if a + b > 0 {
      XorCancels(a / 2, b / 2);
      var x := Xor(a, b);
      assert x / 2 == Xor(a / 2, b / 2) && x % 2 == (if a % 2 != b % 2 then 1 else 0);
    }
  }

  lemma {:induction false} XorCommutes(a: nat, b: nat)
    ensures Xor(a, b) == Xor(b, a)
    decreases a + b
  {
    if a + b > 0 { XorCommutes(a / 2, b / 2); }
  }

  /** Xor with a fixed value is a bijection. */
  lemma XorSolve(u: nat, f: nat, b: nat)
    ensures Xor(u, f) == b <==> u == Xor(b, f)
  {
    XorCancels(u, f);
    XorCancels(b, f);
  }

  function TwoTo(n: nat): (r: nat)
    ensures r > 0
  {
    if n == 0 then 1 else 2 * TwoTo(n - 1)
  }

  lemma {:induction false} XorBound(a: nat, b: nat, n: nat)
    requires a < TwoTo(n) && b < TwoTo(n)
    ensures Xor(a, b) < TwoTo(n)
  {
    if n > 0 { XorBound(a / 2, b / 2, n - 1); }
  }

  // ----- little-endian bytes

  /** The numbers that fit `size` bytes are those below this bound. */
  function Limit(size: nat): (r: nat)
    ensures r > 0
  {
    TwoTo(8 * size)
  }

  lemma LimitStep(size: nat)
    ensures Limit(size + 1) == 256 * Limit(size)
  {
    var n := 8 * size;
    assert TwoTo(n + 8) == 2 * TwoTo(n + 7) && TwoTo(n + 7) == 2 * TwoTo(n + 6) && TwoTo(n + 6) == 2 * TwoTo(n + 5);
    assert TwoTo(n + 5) == 2 * TwoTo(n + 4) && TwoTo(n + 4) == 2 * TwoTo(n + 3) && TwoTo(n + 3) == 2 * TwoTo(n + 2);
    assert TwoTo(n + 2) == 2 * TwoTo(n + 1) && TwoTo(n + 1) == 2 * TwoTo(n);
  }

  function FromDigits(s: seq<byte>): (n: nat) {
    if s == [] then 0 else s[0] + 256 * FromDigits(s[1..])
  }

  /** The shortest list of bytes, least significant first; none for 0. */
  function ToDigits(n: nat): (s: seq<byte>) {
    if n == 0 then [] else [n % 256] + ToDigits(n / 256)
  }

  function Zeros(k: nat): (s: seq<byte>)
    ensures |s| == k
  {
    if k == 0 then [] else [0] + Zeros(k - 1)
  }

  /** The digits filled up with zeros. */
  function Padded(n: nat, size: nat): (s: seq<byte>) {
    ToDigits(n) + Zeros(if |ToDigits(n)| <= size then size - |ToDigits(n)| else 0)
  }

  lemma {:induction false} FromDigitsBound(s: seq<byte>)
    ensures FromDigits(s) < Limit(|s|)
  {
    if s != [] {
      FromDigitsBound(s[1..]);
      LimitStep(|s| - 1);
    }
  }

  lemma DigitsStep(n: nat)
    ensures ToDigits(n) == if n == 0 then [] else [n % 256] + ToDigits(n / 256)
  {
  }

  lemma ZerosStep(k: nat)
    requires k > 0
    ensures Zeros(k) == [0] + Zeros(k - 1)
  {
  }

  lemma PaddedStep(n: nat, size: nat)
    requires size > 0 && |ToDigits(n / 256)| <= size - 1
    ensures |ToDigits(n)| <= size && Padded(n, size) == [n % 256] + Padded(n / 256, size - 1)
  {
    hide ToDigits, Zeros;
    var d := ToDigits(n / 256);
    DigitsStep(n);
    if n == 0 {
      ZerosStep(size);
      assert [] + Zeros(size) == [0] + ([] + Zeros(size - 1));
    } else {
      assert ([n % 256] + d) + Zeros(size - 1 - |d|) == [n % 256] + (d + Zeros(size - 1 - |d|));
    }
  }

  /** Writing a number that fits and reading it back. */
  lemma {:induction false} ReadPadded(n: nat, size: nat)
    requires n < Limit(size)
    ensures |Padded(n, size)| == size && FromDigits(Padded(n, size)) == n && |ToDigits(n)| <= size
  {
    if size == 0 {
      assert Limit(0) == 1;
    } else {
      LimitStep(size - 1);
      ReadPadded(n / 256, size - 1);
      PaddedStep(n, size);
      assert Padded(n, size)[1..] == Padded(n / 256, size - 1);
    }
  }

  lemma FirstDigit(s: seq<byte>)
    requires s != []
    ensures FromDigits(s) % 256 == s[0] && FromDigits(s) / 256 == FromDigits(s[1..])
  {
  }

  /** Reading bytes and writing them back. */
  lemma {:induction false} PadRead(s: seq<byte>)
    ensures Padded(FromDigits(s), |s|) == s
  {
    hide FromDigits, ToDigits, Limit;
    if s == [] {
      NoDigits();
    } else {
      PadRead(s[1..]);
      FirstDigit(s);
      FromDigitsBound(s[1..]);
      ReadPadded(FromDigits(s[1..]), |s| - 1);
      PaddedStep(FromDigits(s), |s|);
    }
  }

  lemma NoDigits()
    ensures FromDigits([]) == 0 && ToDigits(0) == []
  {
  }
}
