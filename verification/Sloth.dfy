/** Sloth encoding of a piece: the block chain over many layers, and its decoding in sequence and in parallel. */
module Sloth {
  import opened Basics
  import opened NumberTheory
  import opened Permutation
  import opened Bytes

  // ----- one layer and many, on the integers of a piece

  /** Xors each block with the previous result and takes its square root; None when a block is too big. */
  function EncodeLayer(p: nat, blocks: seq<nat>, feedback: nat): (r: Option<seq<nat>>)
    requires p > 0
    ensures r.Some? ==> |r.value| == |blocks|
  {
    if blocks == [] then Some([])
    else
      match SqrtPermutation(p, Xor(blocks[0], feedback))
      case None => None
      case Some(y) =>
        match EncodeLayer(p, blocks[1..], y)
        case None => None
        case Some(rest) => Some([y] + rest)
  }

  /** The last result of a layer feeds the first block of the next. */
  function EncodeBlocks(p: nat, blocks: seq<nat>, feedback: nat, layers: nat): (r: Option<seq<nat>>)
    requires p > 0
    ensures r.Some? ==> |r.value| == |blocks|
    decreases layers
  {
    if layers == 0 then Some(blocks)
    else
      match EncodeLayer(p, blocks, feedback)
      case None => None
      case Some(e) => EncodeBlocks(p, e, if e == [] then feedback else e[|e| - 1], layers - 1)
  }

  /** One decoded layer: every block but the first is freed of its feedback. */
  function DecodeLayer(p: nat, blocks: seq<nat>): (r: seq<nat>)
    requires p > 0
    ensures |r| == |blocks|
  {
    seq(|blocks|, i requires 0 <= i < |blocks| =>
      if i == 0 then InverseSqrt(p, blocks[0]) else Xor(InverseSqrt(p, blocks[i]), blocks[i - 1]))
  }

  /** Frees the first block of the feedback it got from the last block of the layer before. */
  function Unfeed(blocks: seq<nat>): (r: seq<nat>)
    requires |blocks| > 0
    ensures |r| == |blocks|
  {
    blocks[0 := Xor(blocks[0], blocks[|blocks| - 1])]
  }

  function DecodeLayers(p: nat, blocks: seq<nat>, layers: nat): (r: seq<nat>)
    requires p > 0 && |blocks| > 0
    ensures |r| == |blocks|
    decreases layers
  {
    if layers == 0 then blocks
    else if layers == 1 then DecodeLayer(p, blocks)
    else DecodeLayers(p, Unfeed(DecodeLayer(p, blocks)), layers - 1)
  }

  function DecodeBlocks(p: nat, blocks: seq<nat>, iv: nat, layers: nat): (r: seq<nat>)
    requires p > 0 && |blocks| > 0
    ensures |r| == |blocks|
  {
    var d := DecodeLayers(p, blocks, layers);
    d[0 := Xor(d[0], iv)]
  }

  // ----- decoding undoes encoding

  /** No xored block of a layer is 0. */
  ghost predicate LayerNonZero(p: nat, blocks: seq<nat>, feedback: nat)
    requires p > 0
  {
    blocks != [] ==>
      && Xor(blocks[0], feedback) != 0
      && (SqrtPermutation(p, Xor(blocks[0], feedback)).Some? ==>
            LayerNonZero(p, blocks[1..], SqrtPermutation(p, Xor(blocks[0], feedback)).value))
  }

  ghost predicate NonZero(p: nat, blocks: seq<nat>, feedback: nat, layers: nat)
    requires p > 0
    decreases layers
  {
    layers > 0 ==>
      && LayerNonZero(p, blocks, feedback)
      && (EncodeLayer(p, blocks, feedback).Some? ==>
            var e := EncodeLayer(p, blocks, feedback).value;
            NonZero(p, e, if e == [] then feedback else e[|e| - 1], layers - 1))
  }

  /** The feedback each block of a layer meets. */
  function FeedbackOf(e: seq<nat>, feedback: nat, i: nat): (f: nat)
    requires i < |e|
  {
    if i == 0 then feedback else e[i - 1]
  }

  /** Every block of an encoded layer is the root of its plain block xored with its feedback. */
  lemma {:induction false} EncodeLayerAt(p: nat, blocks: seq<nat>, feedback: nat, i: nat)
    requires p > 0 && EncodeLayer(p, blocks, feedback).Some? && i < |blocks|
    ensures var e := EncodeLayer(p, blocks, feedback).value;
            SqrtPermutation(p, Xor(blocks[i], FeedbackOf(e, feedback, i))) == Some(e[i])
    ensures LayerNonZero(p, blocks, feedback) ==>
              Xor(blocks[i], FeedbackOf(EncodeLayer(p, blocks, feedback).value, feedback, i)) != 0
  {
    hide SqrtPermutation, Xor;
    if i > 0 {
      var y := SqrtPermutation(p, Xor(blocks[0], feedback)).value;
      EncodeLayerAt(p, blocks[1..], y, i - 1);
    }
  }

  lemma {:induction false} NonZeroFromAll(p: nat, blocks: seq<nat>, feedback: nat)
    requires p > 0 && EncodeLayer(p, blocks, feedback).Some?
    requires var e := EncodeLayer(p, blocks, feedback).value;
             forall i :: 0 <= i < |blocks| ==> Xor(blocks[i], FeedbackOf(e, feedback, i)) != 0
    ensures LayerNonZero(p, blocks, feedback)
  {
    hide SqrtPermutation, Xor;
    if blocks != [] {
      var e := EncodeLayer(p, blocks, feedback).value;
      var y := SqrtPermutation(p, Xor(blocks[0], feedback)).value;
      var tail := EncodeLayer(p, blocks[1..], y).value;
      assert e == [y] + tail;
      assert Xor(blocks[0], FeedbackOf(e, feedback, 0)) != 0;
      forall i | 0 <= i < |blocks[1..]| ensures Xor(blocks[1..][i], FeedbackOf(tail, y, i)) != 0 {
        assert Xor(blocks[i + 1], FeedbackOf(e, feedback, i + 1)) != 0;
      }
      NonZeroFromAll(p, blocks[1..], y);
    }
  }

  /** Where the xored block is not 0, and only there, its root is inverted. */
  lemma InverseAt(p: nat, blocks: seq<nat>, feedback: nat, i: nat)
    requires SlothPrime(p) && EncodeLayer(p, blocks, feedback).Some? && i < |blocks|
    ensures var e := EncodeLayer(p, blocks, feedback).value;
            var x := Xor(blocks[i], FeedbackOf(e, feedback, i));
            (InverseSqrt(p, e[i]) == x <==> x != 0)
  {
    hide Xor, SqrtPermutation, InverseSqrt, SlothPrime;
    SlothPrimePositive(p);
    var e := EncodeLayer(p, blocks, feedback).value;
    EncodeLayerAt(p, blocks, feedback, i);
    SqrtSmall(p, Xor(blocks[i], FeedbackOf(e, feedback, i)));
    RoundTripIffNonZero(p, Xor(blocks[i], FeedbackOf(e, feedback, i)));
  }

  lemma SlothPrimePositive(p: nat)
    requires SlothPrime(p)
    ensures p >= 3
  {
  }

  lemma SqrtSmall(p: nat, x: nat)
    requires p > 0 && SqrtPermutation(p, x).Some?
    ensures x < p
  {
    hide IsSquare, Pow;
  }

  /** A decoded layer is the plain layer, its first block still carrying the feedback. */
  lemma DecodeLayerUndoes(p: nat, blocks: seq<nat>, feedback: nat)
    requires SlothPrime(p) && blocks != [] && EncodeLayer(p, blocks, feedback).Some?
    requires LayerNonZero(p, blocks, feedback)
    ensures DecodeLayer(p, EncodeLayer(p, blocks, feedback).value) == blocks[0 := Xor(blocks[0], feedback)]
  {
    hide Xor, InverseSqrt, SqrtPermutation, SlothPrime, EncodeLayer, LayerNonZero;
    SlothPrimePositive(p);
    var e := EncodeLayer(p, blocks, feedback).value;
    forall i | 0 <= i < |blocks| ensures DecodeLayer(p, e)[i] == blocks[0 := Xor(blocks[0], feedback)][i] {
      InverseAt(p, blocks, feedback, i);
      EncodeLayerAt(p, blocks, feedback, i);
      if i > 0 { XorCancels(blocks[i], e[i - 1]); }
    }
  }

  /** The last decoded layer can be split off. */
  lemma {:induction false} DecodeLayersLast(p: nat, blocks: seq<nat>, layers: nat)
    requires p > 0 && |blocks| > 0 && layers > 0
    ensures DecodeLayers(p, blocks, layers + 1) == DecodeLayer(p, Unfeed(DecodeLayers(p, blocks, layers)))
    decreases layers
  {
    hide DecodeLayer, Unfeed;
    if layers > 1 { DecodeLayersLast(p, Unfeed(DecodeLayer(p, blocks)), layers - 1); }
  }

  lemma {:induction false} DecodeLayersUndo(p: nat, blocks: seq<nat>, feedback: nat, layers: nat)
    requires SlothPrime(p) && |blocks| >= 2 && layers >= 1
    requires EncodeBlocks(p, blocks, feedback, layers).Some? && NonZero(p, blocks, feedback, layers)
    ensures DecodeLayers(p, EncodeBlocks(p, blocks, feedback, layers).value, layers)
         == blocks[0 := Xor(blocks[0], feedback)]
    decreases layers
  {
    hide Xor, DecodeLayer, EncodeLayer, LayerNonZero, SlothPrime;
    SlothPrimePositive(p);
    var e := EncodeLayer(p, blocks, feedback).value;
    DecodeLayerUndoes(p, blocks, feedback);
    if layers > 1 {
      var last := e[|e| - 1];
      var code := EncodeBlocks(p, blocks, feedback, layers).value;
      DecodeLayersUndo(p, e, last, layers - 1);
      DecodeLayersLast(p, code, layers - 1);
      XorCancels(e[0], last);
      assert Unfeed(e[0 := Xor(e[0], last)]) == e;
    } else {
      assert EncodeBlocks(p, e, e[|e| - 1], 0) == Some(e);
    }
  }

  /** Round trip over any number of layers. */
  lemma DecodeUndoesEncode(p: nat, blocks: seq<nat>, iv: nat, layers: nat)
    requires SlothPrime(p) && |blocks| >= 2 && layers >= 1
    requires EncodeBlocks(p, blocks, iv, layers).Some? && NonZero(p, blocks, iv, layers)
    ensures DecodeBlocks(p, EncodeBlocks(p, blocks, iv, layers).value, iv, layers) == blocks
  {
    hide Xor, EncodeBlocks, NonZero, DecodeLayers, SlothPrime;
    SlothPrimePositive(p);
    DecodeLayersUndo(p, blocks, iv, layers);
    XorCancels(blocks[0], iv);
  }

  lemma DecodeOneAt(p: nat, e: seq<nat>, iv: nat, i: nat)
    requires p > 0 && i < |e|
    ensures DecodeBlocks(p, e, iv, 1)[i] == Xor(InverseSqrt(p, e[i]), FeedbackOf(e, iv, i))
  {
    hide Xor, InverseSqrt;
    assert DecodeLayers(p, e, 1) == DecodeLayer(p, e);
  }

  lemma OneLayerAt(p: nat, blocks: seq<nat>, iv: nat, i: nat)
    requires SlothPrime(p) && EncodeLayer(p, blocks, iv).Some? && i < |blocks|
    ensures var e := EncodeLayer(p, blocks, iv).value;
            DecodeBlocks(p, e, iv, 1)[i] == blocks[i] <==> Xor(blocks[i], FeedbackOf(e, iv, i)) != 0
  {
    hide Xor, InverseSqrt, SlothPrime, EncodeLayer, DecodeBlocks, FeedbackOf;
    SlothPrimePositive(p);
    var e := EncodeLayer(p, blocks, iv).value;
    DecodeOneAt(p, e, iv, i);
    InverseAt(p, blocks, iv, i);
    XorSolve(InverseSqrt(p, e[i]), FeedbackOf(e, iv, i), blocks[i]);
  }

  /** With the single layer the node uses, the round trip succeeds exactly when no xored block is 0. */
  lemma OneLayerRoundTrip(p: nat, blocks: seq<nat>, iv: nat)
    requires SlothPrime(p) && |blocks| >= 2 && EncodeBlocks(p, blocks, iv, 1).Some?
    ensures DecodeBlocks(p, EncodeBlocks(p, blocks, iv, 1).value, iv, 1) == blocks <==> LayerNonZero(p, blocks, iv)
  {
    hide Xor, SlothPrime, EncodeLayer, LayerNonZero, DecodeBlocks, FeedbackOf;
    SlothPrimePositive(p);
    var e := EncodeLayer(p, blocks, iv).value;
    assert EncodeBlocks(p, e, e[|e| - 1], 0) == Some(e);
    var d := DecodeBlocks(p, e, iv, 1);
    forall i | 0 <= i < |blocks| ensures d[i] == blocks[i] <==> Xor(blocks[i], FeedbackOf(e, iv, i)) != 0 {
      OneLayerAt(p, blocks, iv, i);
    }
    if LayerNonZero(p, blocks, iv) {
      forall i | 0 <= i < |blocks| ensures d[i] == blocks[i] { EncodeLayerAt(p, blocks, iv, i); }
      assert d == blocks;
    } else if d == blocks {
      NonZeroFromAll(p, blocks, iv);
    }
  }
}
