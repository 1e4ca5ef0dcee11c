/** How blocks lost in several layers of an encoding relate: when the round trip is exact, and when losses cancel. */
module SlothLayers {
  import opened Basics
  import opened NumberTheory
  import opened Permutation
  import opened Bytes
  import opened Sloth

  // ----- later layers without a loss

  function LastOf(e: seq<nat>): (f: nat)
    requires e != []
  {
    e[|e| - 1]
  }

  /** Layers that lose nothing are undone, and decoding is left with the layer before them. */
  lemma LaterUndone(p: nat, blocks: seq<nat>, feedback: nat, layers: nat)
    requires SlothPrime(p) && |blocks| >= 2 && layers >= 1
    requires EncodeLayer(p, blocks, feedback).Some? && EncodeBlocks(p, blocks, feedback, layers).Some?
    requires var e := EncodeLayer(p, blocks, feedback).value; NonZero(p, e, LastOf(e), layers - 1)
    ensures DecodeLayers(p, EncodeBlocks(p, blocks, feedback, layers).value, layers) ==
            DecodeLayer(p, EncodeLayer(p, blocks, feedback).value)
  {
    hide Xor, DecodeLayer, EncodeLayer, NonZero, SlothPrime;
    SlothPrimePositive(p);
    var e := EncodeLayer(p, blocks, feedback).value;
    var code := EncodeBlocks(p, blocks, feedback, layers).value;
    assert EncodeBlocks(p, e, LastOf(e), layers - 1) == Some(code);
    if layers > 1 {
      DecodeLayersUndo(p, e, LastOf(e), layers - 1);
      DecodeLayersLast(p, code, layers - 1);
      XorCancels(e[0], LastOf(e));
      assert Unfeed(e[0 := Xor(e[0], LastOf(e))]) == e;
    }
  }

  /** If the layers after the first lose nothing, the round trip succeeds exactly when the first loses nothing. */
  lemma FirstLayerDecides(p: nat, blocks: seq<nat>, iv: nat, layers: nat)
    requires SlothPrime(p) && |blocks| >= 2 && layers >= 1
    requires EncodeLayer(p, blocks, iv).Some? && EncodeBlocks(p, blocks, iv, layers).Some?
    requires var e := EncodeLayer(p, blocks, iv).value; NonZero(p, e, LastOf(e), layers - 1)
    ensures DecodeBlocks(p, EncodeBlocks(p, blocks, iv, layers).value, iv, layers) == blocks <==>
            LayerNonZero(p, blocks, iv)
  {
    hide Xor, DecodeLayer, EncodeLayer, NonZero, LayerNonZero, SlothPrime;
    SlothPrimePositive(p);
    var e := EncodeLayer(p, blocks, iv).value;
    LaterUndone(p, blocks, iv, layers);
    assert EncodeBlocks(p, e, LastOf(e), 0) == Some(e);
    assert EncodeBlocks(p, blocks, iv, 1) == Some(e);
    assert DecodeLayers(p, e, 1) == DecodeLayer(p, e);
    OneLayerRoundTrip(p, blocks, iv);
  }

  // ----- a loss in the second layer

  /** The parity of any value tells whether its inverse is a residue. */
  lemma InverseTellsParity(p: nat, z: nat)
    requires SlothPrime(p) && 0 < InverseSqrt(p, z) < p
    ensures z % 2 == 0 <==> IsSquare(InverseSqrt(p, z), p)
  {
    hide Prime, IsSquare;
    var x, q := InverseSqrt(p, z), (z * z) % p;
    assert q == if z % 2 == 1 then p - x else x;
    SquareOfAny(p, z);
    NegatedSquare(x, p);
  }

  lemma SquareOfAny(p: nat, z: nat)
    requires SlothPrime(p) && (z * z) % p != 0
    ensures IsSquare((z * z) % p, p)
  {
    hide Prime, IsSquare;
    AtLeastTwo(p);
    var y: nat := z % p;
    ModMod(z, p);
    ModMul2(z, y, z, y, p);
    SmallMod(0, p);
    SquareIsSquare(y, p);
  }

  /** Values of different parity never have the same inverse, unless it is 0 or p. */
  lemma OtherParityDiffers(p: nat, y: nat, z: nat)
    requires SlothPrime(p) && 0 < InverseSqrt(p, y) < p && y % 2 != z % 2
    ensures InverseSqrt(p, z) != InverseSqrt(p, y)
  {
    hide Prime, IsSquare, InverseSqrt;
    InverseTellsParity(p, y);
    if InverseSqrt(p, z) == InverseSqrt(p, y) {
      InverseTellsParity(p, z);
    }
  }

  lemma XorParity(a: nat, b: nat)
    requires b % 2 == 1
    ensures Xor(a, b) % 2 != a % 2
  {
  }

  lemma {:induction false} XorAssoc(a: nat, b: nat, c: nat)
    ensures Xor(Xor(a, b), c) == Xor(a, Xor(b, c))
    decreases a + b + c
  {
    if a + b + c > 0 {
      XorAssoc(a / 2, b / 2, c / 2);
      XorHalf(a, b);
      XorHalf(b, c);
      XorHalf(Xor(a, b), c);
      XorHalf(a, Xor(b, c));
    }
  }

  lemma XorHalf(a: nat, b: nat)
    ensures Xor(a, b) / 2 == Xor(a / 2, b / 2) && Xor(a, b) % 2 == if a % 2 != b % 2 then 1 else 0
  {
  }

  /** A value as it was, or xored with the prime. */
  predicate Flipped(a: nat, b: nat, p: nat) {
    b == a || b == Xor(a, p)
  }

  /** A value xored with its feedback is inverted, and 0 comes back as the prime. */
  lemma InverseOrPrime(p: nat, blocks: seq<nat>, feedback: nat, i: nat)
    requires SlothPrime(p) && EncodeLayer(p, blocks, feedback).Some? && i < |blocks|
    ensures var e := EncodeLayer(p, blocks, feedback).value;
            var x := Xor(blocks[i], FeedbackOf(e, feedback, i));
            InverseSqrt(p, e[i]) == (if x == 0 then p else x) && x < p
  {
    hide Xor, SqrtPermutation, InverseSqrt, SlothPrime, EncodeLayer;
    SlothPrimePositive(p);
    var e := EncodeLayer(p, blocks, feedback).value;
    EncodeLayerAt(p, blocks, feedback, i);
    SqrtSmall(p, Xor(blocks[i], FeedbackOf(e, feedback, i)));
    InverseAt(p, blocks, feedback, i);
    ZeroIsNotInverted(p);
  }

  lemma XorPlays(a: nat, f: nat, p: nat)
    ensures Xor(Xor(a, f), f) == a && Xor(Xor(a, f), Xor(f, p)) == Xor(a, p)
    ensures Xor(a, f) == 0 ==> a == f
    ensures Xor(p, a) == Xor(a, p) && Xor(p, Xor(a, p)) == a
  {
    XorCancels(a, f);
    XorAssoc(Xor(a, f), f, p);
    XorSolve(a, f, 0);
    XorZero(f);
    XorCommutes(p, a);
    XorCommutes(p, Xor(a, p));
    XorCancels(a, p);
  }

  lemma {:induction false} XorZero(a: nat)
    ensures Xor(0, a) == a && Xor(a, 0) == a
  {
    if a > 0 {
      XorZero(a / 2);
    }
  }

  /** Decoding the layer above leaves each block as it was or flipped, flipped exactly where that layer lost it. */
  lemma DecodedAt(p: nat, e: seq<nat>, feedback: nat, i: nat)
    requires SlothPrime(p) && EncodeLayer(p, e, feedback).Some? && 0 < i < |e|
    ensures var up := EncodeLayer(p, e, feedback).value;
            DecodeLayer(p, up)[i] == if Xor(e[i], up[i - 1]) == 0 then Xor(e[i], p) else e[i]
  {
    hide Xor, SqrtPermutation, InverseSqrt, SlothPrime, EncodeLayer;
    SlothPrimePositive(p);
    var up := EncodeLayer(p, e, feedback).value;
    InverseOrPrime(p, e, feedback, i);
    XorPlays(e[i], up[i - 1], p);
  }

  /** The first block also depends on the decoded last one, which fed it. */
  lemma DecodedFirst(p: nat, e: seq<nat>, up: seq<nat>, d: seq<nat>)
    requires SlothPrime(p) && |e| >= 2 && EncodeLayer(p, e, LastOf(e)) == Some(up)
    requires d == Unfeed(DecodeLayer(p, up))
    ensures d[0] == if (Xor(e[0], LastOf(e)) == 0) == (LastOf(d) == LastOf(e)) then Xor(e[0], p) else e[0]
  {
    hide Xor, SqrtPermutation, InverseSqrt, SlothPrime, EncodeLayer;
    SlothPrimePositive(p);
    var n := |e| - 1;
    DecodedAt(p, e, LastOf(e), n);
    assert LastOf(d) == DecodeLayer(p, up)[n];
    InverseOrPrime(p, e, LastOf(e), 0);
    XorPlays(e[0], LastOf(e), p);
    XorPlays(LastOf(e), p, p);
    FlipDiffers(LastOf(e), p);
  }

  lemma FlipDiffers(a: nat, p: nat)
    requires SlothPrime(p)
    ensures Xor(a, p) % 2 != a % 2 && Xor(a, p) != a
  {
    XorParity(a, p);
  }

  /** The second layer decoded: every block is as it was or flipped, and all are as they were when none was lost. */
  lemma SecondDecoded(p: nat, e: seq<nat>, up: seq<nat>, d: seq<nat>)
    requires SlothPrime(p) && |e| >= 2 && EncodeLayer(p, e, LastOf(e)) == Some(up)
    requires d == Unfeed(DecodeLayer(p, up))
    ensures forall i :: 0 <= i < |e| ==> Flipped(e[i], d[i], p)
    ensures d == e <==> LayerNonZero(p, e, LastOf(e))
  {
    hide Xor, SqrtPermutation, InverseSqrt, SlothPrime, EncodeLayer, LayerNonZero, DecodeLayer;
    SlothPrimePositive(p);
    forall i | 0 < i < |e| ensures d[i] == if Xor(e[i], up[i - 1]) == 0 then Xor(e[i], p) else e[i] {
      DecodedAt(p, e, LastOf(e), i);
    }
    DecodedFirst(p, e, up, d);
    forall i | 0 <= i < |e| ensures Xor(e[i], p) != e[i] {
      FlipDiffers(e[i], p);
    }
    if LayerNonZero(p, e, LastOf(e)) {
      forall i | 0 <= i < |e| ensures Xor(e[i], FeedbackOf(up, LastOf(e), i)) != 0 {
        EncodeLayerAt(p, e, LastOf(e), i);
      }
      assert forall i :: 0 < i < |e| ==> d[i] == e[i];
    } else if d == e {
      assert forall i :: 0 <= i < |e| ==> Xor(e[i], FeedbackOf(up, LastOf(e), i)) != 0;
      NonZeroFromAll(p, e, LastOf(e));
    }
  }

  /** A block that arrives flipped at a layer that did not lose it is not decoded to what it was. */
  lemma FlippedIsLost(p: nat, blocks: seq<nat>, iv: nat, d: seq<nat>, i: nat)
    requires SlothPrime(p) && blocks != [] && EncodeLayer(p, blocks, iv).Some? && LayerNonZero(p, blocks, iv)
    requires |d| == |blocks| && i < |blocks|
    requires var e := EncodeLayer(p, blocks, iv).value;
             d[i] == Xor(e[i], p) && FeedbackOf(d, iv, i) == FeedbackOf(e, iv, i)
    ensures DecodeBlocks(p, d, iv, 1)[i] != blocks[i]
  {
    hide Xor, SqrtPermutation, InverseSqrt, SlothPrime, EncodeLayer, LayerNonZero, DecodeBlocks, FeedbackOf;
    SlothPrimePositive(p);
    var e := EncodeLayer(p, blocks, iv).value;
    var f := FeedbackOf(e, iv, i);
    EncodeLayerAt(p, blocks, iv, i);
    InverseOrPrime(p, blocks, iv, i);
    FlipDiffers(e[i], p);
    OtherParityDiffers(p, e[i], d[i]);
    DecodeOneAt(p, d, iv, i);
    XorSolve(InverseSqrt(p, d[i]), f, blocks[i]);
  }

  /**
   * If the first layer and those after the second lose nothing, the round trip
   * succeeds exactly when the second loses nothing either.
   */
  lemma SecondLayerDecides(p: nat, blocks: seq<nat>, iv: nat, layers: nat)
    requires SlothPrime(p) && |blocks| >= 2 && layers >= 2 && EncodeBlocks(p, blocks, iv, layers).Some?
    requires EncodeLayer(p, blocks, iv).Some? && LayerNonZero(p, blocks, iv)
    requires var e := EncodeLayer(p, blocks, iv).value;
             && EncodeLayer(p, e, LastOf(e)).Some?
             && var up := EncodeLayer(p, e, LastOf(e)).value; NonZero(p, up, LastOf(up), layers - 2)
    ensures DecodeBlocks(p, EncodeBlocks(p, blocks, iv, layers).value, iv, layers) == blocks <==>
            var e := EncodeLayer(p, blocks, iv).value; LayerNonZero(p, e, LastOf(e))
  {
    hide Xor, DecodeLayer, EncodeLayer, NonZero, LayerNonZero, SlothPrime, Unfeed, Flipped;
    SlothPrimePositive(p);
    var e := EncodeLayer(p, blocks, iv).value;
    var up := EncodeLayer(p, e, LastOf(e)).value;
    var code := EncodeBlocks(p, blocks, iv, layers).value;
    assert EncodeBlocks(p, e, LastOf(e), layers - 1) == Some(code);
    LaterUndone(p, e, LastOf(e), layers - 1);
    DecodeLayersLast(p, code, layers - 1);
    var d := Unfeed(DecodeLayer(p, up));
    assert DecodeLayers(p, code, layers) == DecodeLayers(p, d, 1) == DecodeLayer(p, d);
    SecondDecoded(p, e, up, d);
    FirstOfTwo(p, blocks, iv, e, d);
  }

  /** A first layer that lost nothing gives back the plain blocks exactly when it is handed its own code. */
  lemma FirstOfTwo(p: nat, blocks: seq<nat>, iv: nat, e: seq<nat>, d: seq<nat>)
    requires SlothPrime(p) && |blocks| >= 2 && EncodeLayer(p, blocks, iv) == Some(e) && LayerNonZero(p, blocks, iv)
    requires |d| == |e| && forall i :: 0 <= i < |e| ==> Flipped(e[i], d[i], p)
    ensures DecodeBlocks(p, d, iv, 1) == blocks <==> d == e
  {
    hide Xor, DecodeLayer, EncodeLayer, LayerNonZero, SlothPrime, DecodeBlocks;
    SlothPrimePositive(p);
    if d == e {
      assert EncodeBlocks(p, e, LastOf(e), 0) == Some(e);
      assert EncodeBlocks(p, blocks, iv, 1) == Some(e);
      OneLayerRoundTrip(p, blocks, iv);
    } else {
      var i := FirstDifference(e, d);
      assert Flipped(e[i], d[i], p);
      FlippedIsLost(p, blocks, iv, d, i);
    }
  }

  lemma {:induction false} FirstDifference(a: seq<nat>, b: seq<nat>) returns (i: nat)
    requires |a| == |b| && a != b
    ensures i < |a| && a[i] != b[i] && forall j :: 0 <= j < i ==> a[j] == b[j]
  {
    if a[0] != b[0] {
      i := 0;
    } else {
      assert a == [a[0]] + a[1..] && b == [b[0]] + b[1..];
      var k := FirstDifference(a[1..], b[1..]);
      i := k + 1;
      forall j | 0 <= j < i ensures a[j] == b[j] {
        if j > 0 {
          assert a[1..][j - 1] == b[1..][j - 1];
        }
      }
    }
  }

  // ----- losses in both layers

  lemma OddXorOne(p: nat)
    requires p % 2 == 1
    ensures Xor(p, 1) == p - 1 && Xor(1, p) == p - 1
  {
    XorHalf(p, 1);
    XorZero(p / 2);
    XorCommutes(p, 1);
  }

  lemma SmallRoots(p: nat)
    requires SlothPrime(p)
    ensures p >= 3 && InverseSqrt(p, 1) == p - 1 && SqrtPermutation(p, p - 1) == Some(1)
    ensures InverseSqrt(p, p - 1) == 1 && InverseSqrt(p, 0) == 0
  {
    hide Prime, SqrtPermutation;
    SlothPrimePositive(p);
    SmallMod(1, p);
    SmallMod(0, p);
    SqrtUndoesInverse(p, 1);
    FlipSquare(1, p - 1, p);
    assert 1 * 1 == 1;
  }

  lemma XorSelf(a: nat)
    ensures Xor(a, a) == 0
  {
    XorZero(a);
    XorSolve(a, a, 0);
  }

  lemma EncodeTwo(p: nat, a: nat, b: nat, feedback: nat, y: nat, z: nat)
    requires p > 0 && SqrtPermutation(p, Xor(a, feedback)) == Some(y) && SqrtPermutation(p, Xor(b, y)) == Some(z)
    ensures EncodeLayer(p, [a, b], feedback) == Some([y, z])
  {
    hide SqrtPermutation, Xor;
    var one, two: seq<nat> := [b], [a, b];
    assert two[1..] == one && one[1..] == [] && one[0] == b && two[0] == a;
    assert EncodeLayer(p, one[1..], z) == Some([]);
    assert [z] + [] == [z] && [y] + [z] == [y, z];
    assert EncodeLayer(p, one, y) == Some([z]);
  }

  lemma FirstEncoded(p: nat)
    requires SlothPrime(p)
    ensures p > 0 && EncodeLayer(p, [0, 1], 0) == Some([p, 1]) && !LayerNonZero(p, [0, 1], 0)
  {
    hide SqrtPermutation, Xor, SlothPrime;
    SlothPrimePositive(p);
    SmallRoots(p);
    ZeroIsNotInverted(p);
    OddPrime(p);
    OddXorOne(p);
    XorZero(0);
    EncodeTwo(p, 0, 1, 0, p, 1);
  }

  lemma SecondEncoded(p: nat)
    requires SlothPrime(p)
    ensures p > 0 && EncodeLayer(p, [p, 1], 1) == Some([1, p]) && !LayerNonZero(p, [p, 1], 1)
  {
    hide SqrtPermutation, Xor, SlothPrime;
    SlothPrimePositive(p);
    SmallRoots(p);
    ZeroIsNotInverted(p);
    OddPrime(p);
    OddXorOne(p);
    XorSelf(1);
    EncodeTwo(p, p, 1, 1, 1, p);
    assert [p, 1][1..] == [1] && !LayerNonZero(p, [1], 1);
  }

  lemma OddPrime(p: nat)
    requires SlothPrime(p)
    ensures p % 2 == 1
  {
  }

  /**
   * Two losses may cancel: for every Sloth prime these blocks lose one block in each
   * of two layers and are decoded all the same, so over several layers a loss does
   * not always show.
   */
  lemma LossesCanCancel(p: nat)
    requires SlothPrime(p)
    ensures p > 0 && EncodeBlocks(p, [0, 1], 0, 2) == Some([1, p])
    ensures !LayerNonZero(p, [0, 1], 0) && !LayerNonZero(p, [p, 1], 1) && !NonZero(p, [0, 1], 0, 2)
    ensures DecodeBlocks(p, [1, p], 0, 2) == [0, 1]
  {
    hide SqrtPermutation, InverseSqrt, Xor, SlothPrime;
    SmallRoots(p);
    ZeroIsNotInverted(p);
    OddPrime(p);
    OddXorOne(p);
    XorZero(0);
    XorZero(1);
    XorSelf(1);
    XorSelf(p - 1);
    FirstEncoded(p);
    SecondEncoded(p);
    var d := Unfeed(DecodeLayer(p, [1, p]));
    assert DecodeLayer(p, [1, p]) == [p - 1, p - 1];
    assert d == [0, p - 1];
    assert DecodeLayer(p, d) == [0, 1] by { XorZero(1); }
    assert DecodeLayers(p, [1, p], 2) == DecodeLayers(p, d, 1) == [0, 1];
  }
}
