/** Sloth on the bytes of a piece: reading blocks, encoding and decoding in place. */
module SlothCodec {
  import opened Basics
  import opened NumberTheory
  import opened Permutation
  import opened Bytes
  import opened Sloth

  // ----- a piece as a list of integers

  /** The little-endian integers of the whole blocks of a piece. */
  function BlocksOf(piece: seq<byte>, size: nat): (r: seq<nat>)
    requires size > 0
  {
    if |piece| < size then [] else [FromDigits(piece[..size])] + BlocksOf(piece[size..], size)
  }

  function BytesOf(blocks: seq<nat>, size: nat): (r: seq<byte>) {
    if blocks == [] then [] else Padded(blocks[0], size) + BytesOf(blocks[1..], size)
  }

  /** The piece with its leading bytes replaced by the bytes of the blocks. */
  function WriteBack(blocks: seq<nat>, piece: seq<byte>, size: nat): (r: seq<byte>)
    ensures |r| == |piece|
  {
    var bytes := BytesOf(blocks, size);
    if |bytes| <= |piece| then bytes + piece[|bytes|..] else bytes[..|piece|]
  }

  ghost predicate Fit(blocks: seq<nat>, size: nat) {
    forall i :: 0 <= i < |blocks| ==> blocks[i] < Limit(size)
  }

  lemma {:induction false} BlocksFit(piece: seq<byte>, size: nat)
    requires size > 0
    ensures Fit(BlocksOf(piece, size), size)
  {
    if |piece| >= size {
      FromDigitsBound(piece[..size]);
      BlocksFit(piece[size..], size);
    }
  }

  /** Writing the blocks just read restores the piece. */
  lemma {:induction false} WriteBackRead(piece: seq<byte>, size: nat)
    requires size > 0
    ensures WriteBack(BlocksOf(piece, size), piece, size) == piece
    ensures |BytesOf(BlocksOf(piece, size), size)| <= |piece|
  {
    if |piece| >= size {
      var rest := piece[size..];
      WriteBackRead(rest, size);
      PadRead(piece[..size]);
      assert BlocksOf(piece, size)[1..] == BlocksOf(rest, size);
      assert piece == piece[..size] + rest;
    }
  }

  /** Reading back blocks that fit, written over a piece with as many blocks. */
  lemma {:induction false} ReadWriteBack(blocks: seq<nat>, piece: seq<byte>, size: nat)
    requires size > 0 && Fit(blocks, size) && |blocks| == |BlocksOf(piece, size)|
    ensures |BytesOf(blocks, size)| <= |piece| && BlocksOf(WriteBack(blocks, piece, size), size) == blocks
  {
    if |piece| < size {
      assert BytesOf(blocks, size) == [];
    } else {
      var rest := piece[size..];
      assert blocks == [blocks[0]] + blocks[1..];
      ReadWriteBack(blocks[1..], rest, size);
      ReadPadded(blocks[0], size);
      var w := WriteBack(blocks, piece, size);
      assert w == Padded(blocks[0], size) + WriteBack(blocks[1..], rest, size);
      assert w[..size] == Padded(blocks[0], size) && w[size..] == WriteBack(blocks[1..], rest, size);
    }
  }

  // ----- a piece encoded and decoded

  function EncodePiece(p: nat, size: nat, piece: seq<byte>, iv: nat, layers: nat): (r: Option<seq<byte>>)
    requires p > 0 && size > 0
  {
    match EncodeBlocks(p, BlocksOf(piece, size), iv, layers)
    case None => None
    case Some(e) => Some(WriteBack(e, piece, size))
  }

  function DecodePiece(p: nat, size: nat, piece: seq<byte>, iv: nat, layers: nat): (r: seq<byte>)
    requires p > 0 && size > 0 && |BlocksOf(piece, size)| > 0
  {
    WriteBack(DecodeBlocks(p, BlocksOf(piece, size), iv, layers), piece, size)
  }

  lemma {:induction false} EncodeLayerBound(p: nat, blocks: seq<nat>, feedback: nat)
    requires SlothPrime(p) && EncodeLayer(p, blocks, feedback).Some?
    ensures forall i :: 0 <= i < |blocks| ==> EncodeLayer(p, blocks, feedback).value[i] <= p
  {
    hide Xor, SlothPrime, SqrtPermutation;
    SlothPrimePositive(p);
    if blocks != [] {
      var x := Xor(blocks[0], feedback);
      SqrtBound(p, x);
      EncodeLayerBound(p, blocks[1..], SqrtPermutation(p, x).value);
    }
  }

  lemma SqrtBound(p: nat, x: nat)
    requires SlothPrime(p) && SqrtPermutation(p, x).Some?
    ensures SqrtPermutation(p, x).value <= p
  {
    hide Prime, IsSquare, Pow;
    SlothPrimePositive(p);
  }

  lemma {:induction false} EncodeBound(p: nat, blocks: seq<nat>, feedback: nat, layers: nat)
    requires SlothPrime(p) && layers >= 1 && EncodeBlocks(p, blocks, feedback, layers).Some?
    ensures forall i :: 0 <= i < |blocks| ==> EncodeBlocks(p, blocks, feedback, layers).value[i] <= p
    decreases layers
  {
    hide EncodeLayer, SlothPrime;
    SlothPrimePositive(p);
    EncodeLayerBound(p, blocks, feedback);
    var e := EncodeLayer(p, blocks, feedback).value;
    if layers > 1 {
      EncodeBound(p, e, if e == [] then feedback else e[|e| - 1], layers - 1);
    }
  }

  /** A prime below the capacity of a block, and at least two blocks in a piece. */
  ghost predicate Fitting(p: nat, size: nat, piece: seq<byte>) {
    SlothPrime(p) && size > 0 && p < Limit(size) && |BlocksOf(piece, size)| >= 2
  }

  lemma EncodedFit(p: nat, size: nat, piece: seq<byte>, iv: nat, layers: nat)
    requires Fitting(p, size, piece) && layers >= 1 && EncodePiece(p, size, piece, iv, layers).Some?
    ensures var e := EncodeBlocks(p, BlocksOf(piece, size), iv, layers);
            e.Some? && Fit(e.value, size) && BlocksOf(EncodePiece(p, size, piece, iv, layers).value, size) == e.value
  {
    hide EncodeBlocks, BlocksOf, SlothPrime, Limit, WriteBack, BytesOf;
    SlothPrimePositive(p);
    EncodeBound(p, BlocksOf(piece, size), iv, layers);
    ReadWriteBack(EncodeBlocks(p, BlocksOf(piece, size), iv, layers).value, piece, size);
  }

  lemma WriteBackTwice(a: seq<nat>, b: seq<nat>, piece: seq<byte>, size: nat)
    requires |BytesOf(a, size)| == |BytesOf(b, size)|
    ensures WriteBack(b, WriteBack(a, piece, size), size) == WriteBack(b, piece, size)
  {
    hide BytesOf;
  }

  lemma {:induction false} BytesLength(a: seq<nat>, b: seq<nat>, size: nat)
    requires Fit(a, size) && Fit(b, size) && |a| == |b|
    ensures |BytesOf(a, size)| == |BytesOf(b, size)|
  {
    hide Padded, Limit;
    if a != [] {
      ReadPadded(a[0], size);
      ReadPadded(b[0], size);
      BytesLength(a[1..], b[1..], size);
    }
  }

  /** Decoding an encoded piece gives back its bytes, over any number of layers, unless some xored block was 0. */
  lemma PieceRoundTrip(p: nat, size: nat, piece: seq<byte>, iv: nat, layers: nat)
    requires Fitting(p, size, piece) && layers >= 1 && EncodePiece(p, size, piece, iv, layers).Some?
    requires NonZero(p, BlocksOf(piece, size), iv, layers)
    ensures |BlocksOf(EncodePiece(p, size, piece, iv, layers).value, size)| > 0
    ensures DecodePiece(p, size, EncodePiece(p, size, piece, iv, layers).value, iv, layers) == piece
  {
    hide EncodeBlocks, DecodeBlocks, BlocksOf, SlothPrime, Limit, WriteBack, BytesOf, NonZero, Fit;
    SlothPrimePositive(p);
    var blocks := BlocksOf(piece, size);
    EncodedFit(p, size, piece, iv, layers);
    DecodeUndoesEncode(p, blocks, iv, layers);
    BlocksFit(piece, size);
    BytesLength(EncodeBlocks(p, blocks, iv, layers).value, blocks, size);
    WriteBackTwice(EncodeBlocks(p, blocks, iv, layers).value, blocks, piece, size);
    WriteBackRead(piece, size);
  }

  /** Decoded integers fit their block again. */
  lemma DecodeOneFits(p: nat, size: nat, blocks: seq<nat>, iv: nat)
    requires p > 0 && p < Limit(size) && |blocks| > 0 && Fit(blocks, size) && iv < Limit(size)
    ensures Fit(DecodeBlocks(p, blocks, iv, 1), size)
  {
    hide Xor, Limit, InverseSqrt, DecodeBlocks;
    forall i | 0 <= i < |blocks| ensures DecodeBlocks(p, blocks, iv, 1)[i] < Limit(size) {
      DecodeOneAt(p, blocks, iv, i);
      FitXor(InverseSqrt(p, blocks[i]), FeedbackOf(blocks, iv, i), size);
    }
  }

  lemma FitXor(a: nat, b: nat, size: nat)
    requires a < Limit(size) && b < Limit(size)
    ensures Xor(a, b) < Limit(size)
  {
    XorBound(a, b, 8 * size);
  }

  /** An encoding that succeeds met an IV that fits a block. */
  lemma IvFits(p: nat, size: nat, blocks: seq<nat>, iv: nat)
    requires p > 0 && p < Limit(size) && |blocks| > 0 && Fit(blocks, size) && EncodeLayer(p, blocks, iv).Some?
    ensures iv < Limit(size)
  {
    hide Xor, Limit, SqrtPermutation;
    var x := Xor(blocks[0], iv);
    SqrtSmall(p, x);
    FitXor(x, blocks[0], size);
    XorCommutes(blocks[0], iv);
    XorCancels(iv, blocks[0]);
  }

  /** With one layer the bytes of a piece survive exactly when no xored block is 0. */
  lemma OneLayerPieceRoundTrip(p: nat, size: nat, piece: seq<byte>, iv: nat)
    requires Fitting(p, size, piece) && EncodePiece(p, size, piece, iv, 1).Some?
    ensures |BlocksOf(EncodePiece(p, size, piece, iv, 1).value, size)| > 0
    ensures DecodePiece(p, size, EncodePiece(p, size, piece, iv, 1).value, iv, 1) == piece
        <==> LayerNonZero(p, BlocksOf(piece, size), iv)
  {
    hide EncodeLayer, DecodeBlocks, BlocksOf, SlothPrime, Limit, WriteBack, BytesOf, LayerNonZero, Fit;
    SlothPrimePositive(p);
    var blocks, e := BlocksOf(piece, size), EncodeBlocks(p, BlocksOf(piece, size), iv, 1);
    EncodedFit(p, size, piece, iv, 1);
    BlocksFit(piece, size);
    IvFits(p, size, blocks, iv);
    DecodeOneFits(p, size, e.value, iv);
    OneLayerRoundTrip(p, blocks, iv);
    var d := DecodeBlocks(p, e.value, iv, 1);
    BytesLength(e.value, d, size);
    WriteBackTwice(e.value, d, piece, size);
    ReadWriteBack(d, piece, size);
    WriteBackRead(piece, size);
  }

  // ----- the methods of the source

  /** The per-block tasks of a layer, in the order they happen to run. */
  ghost predicate IsTaskOrder(order: seq<nat>, n: nat) {
    NoDup(order) && forall i :: i in order <==> 1 <= i < n
  }

  ghost function Prefixed(before: seq<nat>, rest: Option<seq<nat>>): (r: Option<seq<nat>>) {
    if rest.None? then None else Some(before + rest.value)
  }

  lemma PrefixedNone(rest: Option<seq<nat>>)
    ensures Prefixed([], rest) == rest
  {
    assert rest.Some? ==> [] + rest.value == rest.value;
  }

  lemma PrefixedStep(before: seq<nat>, y: nat, rest: Option<seq<nat>>)
    ensures Prefixed(before, Prefixed([y], rest)) == Prefixed(before + [y], rest)
  {
    assert rest.Some? ==> before + ([y] + rest.value) == before + [y] + rest.value;
  }

  lemma EmptyLayer(p: nat, feedback: nat)
    requires p > 0
    ensures EncodeLayer(p, [], feedback) == Some([])
  {
  }

  lemma LayerStep(p: nat, blocks: seq<nat>, feedback: nat)
    requires p > 0 && blocks != []
    ensures EncodeLayer(p, blocks, feedback) ==
            match SqrtPermutation(p, Xor(blocks[0], feedback))
            case None => None
            case Some(y) => Prefixed([y], EncodeLayer(p, blocks[1..], y))
  {
    hide Xor, SqrtPermutation;
  }

  class Cipher {
    const prime: nat
    const blockSizeBytes: nat

    ghost predicate Valid() {
      SlothPrime(prime) && blockSizeBytes > 0 && prime < Limit(blockSizeBytes)
    }

    constructor (prime: nat, blockSizeBytes: nat)
      requires SlothPrime(prime) && blockSizeBytes > 0 && prime < Limit(blockSizeBytes)
      ensures Valid() && this.prime == prime && this.blockSizeBytes == blockSizeBytes
    {
      this.prime, this.blockSizeBytes := prime, blockSizeBytes;
    }

    method ReadIntegers(piece: array<byte>) returns (integers: seq<nat>)
      requires blockSizeBytes > 0
      ensures integers == BlocksOf(piece[..], blockSizeBytes)
    {
      integers := [];
      var offset := 0;
      assert piece[0..] == piece[..];
      while piece.Length - offset >= blockSizeBytes
        invariant 0 <= offset <= piece.Length
        invariant integers + BlocksOf(piece[offset..], blockSizeBytes) == BlocksOf(piece[..], blockSizeBytes)
      {
        ghost var rest := piece[offset..];
        assert rest[..blockSizeBytes] == piece[offset..offset + blockSizeBytes];
        assert rest[blockSizeBytes..] == piece[offset + blockSizeBytes..];
        integers := integers + [FromDigits(piece[offset..offset + blockSizeBytes])];
        offset := offset + blockSizeBytes;
      }
    }

    /** The digits of each number, filled up with zeros to the block size. */
    method PadIntegers(integers: seq<nat>) returns (bytes: seq<byte>)
      requires Fit(integers, blockSizeBytes)
      ensures bytes == BytesOf(integers, blockSizeBytes)
    {
      hide ToDigits, Limit;
      bytes := [];
      for i := 0 to |integers|
        invariant bytes + BytesOf(integers[i..], blockSizeBytes) == BytesOf(integers, blockSizeBytes)
      {
        assert integers[i..][0] == integers[i] && integers[i..][1..] == integers[i + 1..];
        var digits := ToDigits(integers[i]);
        ReadPadded(integers[i], blockSizeBytes);
        bytes := bytes + (digits + Zeros(blockSizeBytes - |digits|));
      }
      assert integers[|integers|..] == [];
    }

    method WriteIntegers(integers: seq<nat>, piece: array<byte>)
      requires Fit(integers, blockSizeBytes)
      modifies piece
      ensures piece[..] == WriteBack(integers, old(piece[..]), blockSizeBytes)
    {
      hide BytesOf;
      var bytes := PadIntegers(integers);
      var k := 0;
      while k < |bytes| && k < piece.Length
        invariant 0 <= k <= |bytes| && k <= piece.Length
        invariant forall j :: 0 <= j < k ==> piece[j] == bytes[j]
        invariant forall j :: k <= j < piece.Length ==> piece[j] == old(piece[j])
      {
        piece[k] := bytes[k];
        k := k + 1;
      }
      assert piece[..k] == bytes[..k] && piece[k..] == old(piece[..])[k..];
      assert piece[..] == piece[..k] + piece[k..];
    }

    /** Encodes a piece in place; on failure the piece is left as it was. */
    method Encode(piece: array<byte>, expandedIv: nat, layers: nat) returns (ok: bool)
      requires Valid()
      modifies piece
      ensures prime > 0
      ensures ok == EncodePiece(prime, blockSizeBytes, old(piece[..]), expandedIv, layers).Some?
      ensures ok ==> EncodePiece(prime, blockSizeBytes, old(piece[..]), expandedIv, layers) == Some(piece[..])
      ensures !ok ==> piece[..] == old(piece[..])
    {
      SlothPrimePositive(prime);
      ghost var p, goal := prime, EncodeBlocks(prime, BlocksOf(piece[..], blockSizeBytes), expandedIv, layers);
      var integers: seq<nat> := ReadIntegers(piece);
      BlocksFit(piece[..], blockSizeBytes);
      var feedback := expandedIv;
      for layer := 0 to layers
        invariant EncodeBlocks(p, integers, feedback, layers - layer) == goal && Fit(integers, blockSizeBytes)
        invariant piece[..] == old(piece[..])
      {
        ok, integers, feedback := EncodeOneLayer(integers, feedback);
        if !ok { return; }
      }
      WriteIntegers(integers, piece);
      ok := true;
    }

    method EncodeOneLayer(blocks: seq<nat>, iv: nat) returns (ok: bool, integers: seq<nat>, feedback: nat)
      requires Valid()
      ensures prime > 0 && ok == EncodeLayer(prime, blocks, iv).Some?
      ensures ok ==> EncodeLayer(prime, blocks, iv) == Some(integers) && Fit(integers, blockSizeBytes)
      ensures ok ==> feedback == if integers == [] then iv else integers[|integers| - 1]
    {
      hide Xor, SqrtPermutation, Limit, EncodeLayer;
      SlothPrimePositive(prime);
      integers, feedback := blocks, iv;
      assert blocks[0..] == blocks;
      PrefixedNone(EncodeLayer(prime, blocks, iv));
      assert integers[..0] == [];
      for i := 0 to |blocks|
        invariant |integers| == |blocks| && integers[i..] == blocks[i..]
        invariant feedback == if i == 0 then iv else integers[i - 1]
        invariant EncodeLayer(prime, blocks, iv) == Prefixed(integers[..i], EncodeLayer(prime, blocks[i..], feedback))
      {
        LayerStep(prime, blocks[i..], feedback);
        assert blocks[i..][0] == integers[i] && blocks[i..][1..] == blocks[i + 1..];
        integers := integers[i := Xor(integers[i], feedback)];
        var root := SqrtPermutation(prime, integers[i]);
        if root.None? { return false, integers, feedback; }
        ghost var before := integers[..i];
        integers := integers[i := root.value];
        feedback := root.value;
        assert integers[..i + 1] == before + [root.value];
        PrefixedStep(before, feedback, EncodeLayer(prime, blocks[i + 1..], feedback));
        assert integers[i + 1..] == blocks[i + 1..];
      }
      assert blocks[|blocks|..] == [] && integers[..|blocks|] + [] == integers;
      EmptyLayer(prime, feedback);
      EncodeLayerBound(prime, blocks, iv);
      ok := true;
    }

    /** One layer of the sequential decoder: from the last block to the first, each against its still encoded
        neighbour. */
    method DecodeOneLayer(blocks: seq<nat>) returns (integers: seq<nat>)
      requires prime > 0
      ensures integers == DecodeLayer(prime, blocks)
    {
      hide Xor, InverseSqrt;
      integers := blocks;
      if |blocks| == 0 { return; }
      var i := |blocks| - 1;
      while i >= 1
        invariant 0 <= i < |blocks| && |integers| == |blocks| && integers[..i + 1] == blocks[..i + 1]
        invariant forall k :: i < k < |blocks| ==> integers[k] == Xor(InverseSqrt(prime, blocks[k]), blocks[k - 1])
      {
        assert integers[i] == blocks[..i + 1][i] && integers[i - 1] == blocks[..i + 1][i - 1];
        integers := integers[i := Xor(InverseSqrt(prime, integers[i]), integers[i - 1])];
        i := i - 1;
      }
      assert integers[0] == blocks[..1][0];
      integers := integers[0 := InverseSqrt(prime, integers[0])];
    }

    /** One layer of the parallel decoder: each task reads a copy, so any order gives the same layer. */
    method DecodeOneLayerParallel(blocks: seq<nat>, order: seq<nat>) returns (integers: seq<nat>)
      requires prime > 0 && IsTaskOrder(order, |blocks|)
      ensures integers == DecodeLayer(prime, blocks)
    {
      hide Xor, InverseSqrt;
      integers := blocks;
      var copy := integers;
      for t := 0 to |order|
        invariant |integers| == |blocks|
        invariant forall k :: 0 < k < |blocks| && k in order[..t] ==>
                    integers[k] == Xor(InverseSqrt(prime, blocks[k]), blocks[k - 1])
        invariant forall k :: 0 <= k < |blocks| && k !in order[..t] ==> integers[k] == blocks[k]
      {
        var i := order[t];
        assert i in order && i !in order[..t];
        assert order[..t + 1] == order[..t] + [i];
        assert forall k :: k in order[..t + 1] <==> k in order[..t] || k == i;
        integers := integers[i := Xor(InverseSqrt(prime, integers[i]), copy[i - 1])];
      }
      assert order[..|order|] == order;
      if |blocks| > 0 {
        integers := integers[0 := InverseSqrt(prime, integers[0])];
      }
    }

    /** Decodes a piece in place, block after block. */
    method Decode(piece: array<byte>, expandedIv: seq<byte>, layers: nat)
      requires Valid() && |BlocksOf(piece[..], blockSizeBytes)| >= 2 && FromDigits(expandedIv) < Limit(blockSizeBytes)
      modifies piece
      ensures prime > 0
      ensures piece[..] == DecodePiece(prime, blockSizeBytes, old(piece[..]), FromDigits(expandedIv), layers)
    {
      hide DecodeLayer, Limit, BlocksOf, FromDigits, Xor;
      SlothPrimePositive(prime);
      var integers: seq<nat> := ReadIntegers(piece);
      BlocksFit(piece[..], blockSizeBytes);
      ghost var goal := DecodeLayers(prime, integers, layers);
      for layer := 0 to layers
        invariant |integers| == |BlocksOf(old(piece[..]), blockSizeBytes)| && Fit(integers, blockSizeBytes)
        invariant DecodeLayers(prime, integers, layers - layer) == goal && piece[..] == old(piece[..])
      {
        DecodeLayerFits(prime, blockSizeBytes, integers);
        integers := DecodeOneLayer(integers);
        if layer != layers - 1 {
          FitXor(integers[0], integers[|integers| - 1], blockSizeBytes);
          integers := integers[0 := Xor(integers[0], integers[|integers| - 1])];
        }
      }
      FitXor(integers[0], FromDigits(expandedIv), blockSizeBytes);
      integers := integers[0 := Xor(integers[0], FromDigits(expandedIv))];
      WriteIntegers(integers, piece);
    }

    /** Decodes a piece in place, the blocks of each layer in any order: the same bytes as `Decode`. */
    method DecodeParallel(piece: array<byte>, expandedIv: seq<byte>, layers: nat, orders: seq<seq<nat>>)
      requires Valid() && |BlocksOf(piece[..], blockSizeBytes)| >= 2 && FromDigits(expandedIv) < Limit(blockSizeBytes)
      requires |orders| == layers
      requires forall l :: 0 <= l < layers ==> IsTaskOrder(orders[l], |BlocksOf(piece[..], blockSizeBytes)|)
      modifies piece
      ensures prime > 0
      ensures piece[..] == DecodePiece(prime, blockSizeBytes, old(piece[..]), FromDigits(expandedIv), layers)
    {
      hide DecodeLayer, Limit, BlocksOf, FromDigits, Xor, IsTaskOrder;
      SlothPrimePositive(prime);
      var integers: seq<nat> := ReadIntegers(piece);
      BlocksFit(piece[..], blockSizeBytes);
      ghost var goal := DecodeLayers(prime, integers, layers);
      for layer := 0 to layers
        invariant |integers| == |BlocksOf(old(piece[..]), blockSizeBytes)| && Fit(integers, blockSizeBytes)
        invariant DecodeLayers(prime, integers, layers - layer) == goal && piece[..] == old(piece[..])
      {
        DecodeLayerFits(prime, blockSizeBytes, integers);
        integers := DecodeOneLayerParallel(integers, orders[layer]);
        if layer != layers - 1 {
          FitXor(integers[0], integers[|integers| - 1], blockSizeBytes);
          integers := integers[0 := Xor(integers[0], integers[|integers| - 1])];
        }
      }
      FitXor(integers[0], FromDigits(expandedIv), blockSizeBytes);
      integers := integers[0 := Xor(integers[0], FromDigits(expandedIv))];
      WriteIntegers(integers, piece);
    }
  }

  lemma DecodeLayerFits(p: nat, size: nat, blocks: seq<nat>)
    requires p > 0 && p < Limit(size) && Fit(blocks, size)
    ensures Fit(DecodeLayer(p, blocks), size)
  {
    hide Xor, Limit, InverseSqrt;
    forall i | 0 < i < |blocks| ensures Xor(InverseSqrt(p, blocks[i]), blocks[i - 1]) < Limit(size) {
      FitXor(InverseSqrt(p, blocks[i]), blocks[i - 1], size);
    }
  }
}
