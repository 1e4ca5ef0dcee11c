/** Exactly which pieces Sloth encodes. */
module SlothDomain {
  import opened Basics
  import opened NumberTheory
  import opened Permutation
  import opened Bytes
  import opened Sloth
  import opened SlothCodec

  /** The code of a value, for any value: that of its residue. */
  function Root(p: nat, x: nat): (y: nat)
    requires p > 0
  {
    SqrtPermutation(p, x % p).value
  }

  /** The chain of codes of a layer, each fed to the next block, whether or not the blocks are below the prime. */
  function CodeChain(p: nat, blocks: seq<nat>, feedback: nat): (e: seq<nat>)
    requires p > 0
    ensures |e| == |blocks|
  {
    if blocks == [] then []
    else
      var y := Root(p, Xor(blocks[0], feedback));
      [y] + CodeChain(p, blocks[1..], y)
  }

  /** Every block of a layer, xored with its feedback, is below the prime. */
  ghost predicate LayerBelow(p: nat, blocks: seq<nat>, feedback: nat)
    requires p > 0
  {
    forall i :: 0 <= i < |blocks| ==> Xor(blocks[i], FeedbackOf(CodeChain(p, blocks, feedback), feedback, i)) < p
  }

  ghost predicate Below(p: nat, blocks: seq<nat>, feedback: nat, layers: nat)
    requires p > 0
    decreases layers
  {
    layers > 0 ==>
      && LayerBelow(p, blocks, feedback)
      && var e := CodeChain(p, blocks, feedback);
         Below(p, e, if e == [] then feedback else e[|e| - 1], layers - 1)
  }

  lemma RootOfSmall(p: nat, x: nat)
    requires p > 0
    ensures SqrtPermutation(p, x) == if x < p then Some(Root(p, x)) else None
  {
    hide IsSquare, Pow;
    if x < p {
      SmallMod(x, p);
    }
  }

  lemma LayerBelowStep(p: nat, blocks: seq<nat>, feedback: nat)
    requires p > 0 && blocks != []
    ensures
      var x := Xor(blocks[0], feedback);
      LayerBelow(p, blocks, feedback) <==> x < p && LayerBelow(p, blocks[1..], Root(p, x))
  {
    hide Root, Xor;
    var x := Xor(blocks[0], feedback);
    var y := Root(p, x);
    var e, rest := CodeChain(p, blocks, feedback), CodeChain(p, blocks[1..], y);
    assert e == [y] + rest && FeedbackOf(e, feedback, 0) == feedback;
    forall i | 0 <= i < |blocks| - 1 ensures FeedbackOf(rest, y, i) == FeedbackOf(e, feedback, i + 1) {}
    if LayerBelow(p, blocks, feedback) {
      forall i | 0 <= i < |blocks| - 1 ensures Xor(blocks[1..][i], FeedbackOf(rest, y, i)) < p {
        assert Xor(blocks[i + 1], FeedbackOf(e, feedback, i + 1)) < p;
      }
    } else if x < p && LayerBelow(p, blocks[1..], y) {
      forall i | 0 <= i < |blocks| ensures Xor(blocks[i], FeedbackOf(e, feedback, i)) < p {
        if i > 0 {
          assert Xor(blocks[1..][i - 1], FeedbackOf(rest, y, i - 1)) < p;
        }
      }
    }
  }

  /** A layer is encoded exactly when every xored block is below the prime, and then to the chain of codes. */
  lemma {:induction false} LayerEncodesIff(p: nat, blocks: seq<nat>, feedback: nat)
    requires p > 0
    ensures EncodeLayer(p, blocks, feedback) ==
            if LayerBelow(p, blocks, feedback) then Some(CodeChain(p, blocks, feedback)) else None
  {
    hide SqrtPermutation, Xor, Root, LayerBelow;
    if blocks == [] {
      assert LayerBelow(p, blocks, feedback) by { EmptyBelow(p, feedback); }
    } else {
      var x := Xor(blocks[0], feedback);
      RootOfSmall(p, x);
      LayerEncodesIff(p, blocks[1..], Root(p, x));
      LayerBelowStep(p, blocks, feedback);
    }
  }

  lemma EmptyBelow(p: nat, feedback: nat)
    requires p > 0
    ensures LayerBelow(p, [], feedback)
  {
  }

  /** Blocks are encoded exactly when in every layer every xored block is below the prime. */
  lemma {:induction false} BlocksEncodeIff(p: nat, blocks: seq<nat>, feedback: nat, layers: nat)
    requires p > 0
    ensures EncodeBlocks(p, blocks, feedback, layers).Some? <==> Below(p, blocks, feedback, layers)
    decreases layers
  {
    hide EncodeLayer, LayerBelow, CodeChain;
    if layers > 0 {
      LayerEncodesIff(p, blocks, feedback);
      var e := CodeChain(p, blocks, feedback);
      BlocksEncodeIff(p, e, if e == [] then feedback else e[|e| - 1], layers - 1);
    }
  }

  /** For every piece, IV and number of layers: encoding succeeds exactly when every xored block is below the prime. */
  lemma PieceEncodesIff(p: nat, size: nat, piece: seq<byte>, iv: nat, layers: nat)
    requires p > 0 && size > 0
    ensures EncodePiece(p, size, piece, iv, layers).Some? <==> Below(p, BlocksOf(piece, size), iv, layers)
  {
    hide EncodeBlocks, Below, BlocksOf;
    BlocksEncodeIff(p, BlocksOf(piece, size), iv, layers);
  }
}
