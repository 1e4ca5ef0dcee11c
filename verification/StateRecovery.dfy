/** Reading the records back out of the state blocks and the pending bytes. */
module StateRecovery {
  import opened Bytes
  import opened StateLog

  const MAX_RECORD: nat := STATE_BLOCK_SIZE - 2

  /** Records one after the other; a zero length is padding and ends the block. */
  function Parse(s: Data): (records: seq<Data>)
    decreases |s|
  {
    if |s| < 2 then []
    else
      var length := 256 * (s[0] as int) + (s[1] as int);
      if length == 0 || |s| - 2 < length then [] else [s[2..2 + length]] + Parse(s[2 + length..])
  }

  function Contents(bundle: StateBundle): (s: Data)
    requires |bundle.pieces| == PIECES_PER_STATE_BLOCK
  {
    bundle.pieces[0].piece + bundle.pieces[1].piece
  }

  ghost predicate WholeBundles(sent: seq<StateBundle>) {
    forall h :: 0 <= h < |sent| ==> |sent[h].pieces| == PIECES_PER_STATE_BLOCK
  }

  /** The records of the state blocks, in height order. */
  function ParseBlocks(sent: seq<StateBundle>): (records: seq<Data>)
    requires WholeBundles(sent)
  {
    if sent == [] then []
    else ParseBlocks(sent[..|sent| - 1]) + Parse(Contents(sent[|sent| - 1]))
  }

  function Recovered(log: Log): (records: seq<Data>)
    requires WholeBundles(log.sent)
  {
    ParseBlocks(log.sent) + Parse(log.pending)
  }

  function Frames(records: seq<Data>): (s: Data) {
    if records == [] then [] else Framed(records[0]) + Frames(records[1..])
  }

  ghost predicate NonEmpty(records: seq<Data>) {
    forall i :: 0 <= i < |records| ==> records[i] != []
  }

  /** The records whose length the prefix can tell. */
  ghost predicate Plain(records: seq<Data>) {
    forall i :: 0 <= i < |records| ==> 0 < |records[i]| < 65536
  }

  // ----- parsing framed records

  lemma ParseOne(r: Data, more: Data)
    requires 0 < |r| < 65536
    ensures Parse(Framed(r) + more) == [r] + Parse(more)
  {
    var s := Framed(r) + more;
    assert s[0] == |r| / 256 && s[1] == |r| % 256;
    assert s[2..2 + |r|] == r && s[2 + |r|..] == more;
  }

  lemma ParseNothing(s: Data)
    requires |s| >= 2 ==> s[0] == 0 && s[1] == 0
    ensures Parse(s) == []
  {
  }

  lemma {:induction false} ZerosAt(k: nat, i: nat)
    requires i < k
    ensures Zeros(k)[i] == 0
  {
    if i > 0 {
      ZerosAt(k - 1, i - 1);
    }
  }

  /** Padding does not get in the way. */
  lemma {:induction false} ParseFrames(records: seq<Data>, k: nat)
    requires Plain(records)
    ensures Parse(Frames(records) + Zeros(k)) == records
  {
    hide Parse, Framed, Zeros;
    if records == [] {
      if k >= 2 {
        ZerosAt(k, 0);
        ZerosAt(k, 1);
      }
      assert Frames(records) + Zeros(k) == Zeros(k);
      ParseNothing(Zeros(k));
    } else {
      ParseFrames(records[1..], k);
      ParseOne(records[0], Frames(records[1..]) + Zeros(k));
      assert Frames(records) + Zeros(k) == Framed(records[0]) + (Frames(records[1..]) + Zeros(k));
      assert [records[0]] + records[1..] == records;
    }
  }

  lemma ParsePending(records: seq<Data>)
    requires Plain(records)
    ensures Parse(Frames(records)) == records
  {
    ParseFrames(records, 0);
    assert Frames(records) + Zeros(0) == Frames(records);
  }

  lemma {:induction false} FramesAppend(records: seq<Data>, r: Data)
    ensures Frames(records + [r]) == Frames(records) + Framed(r)
  {
    hide Framed;
    if records == [] {
      assert [r][1..] == [];
      assert Frames([r]) == Framed(r) + [];
    } else {
      FramesAppend(records[1..], r);
      assert (records + [r])[1..] == records[1..] + [r];
      assert Framed(records[0]) + (Frames(records[1..]) + Framed(r)) == Frames(records) + Framed(r);
    }
  }

  // ----- one record at a time

  lemma EncodeSent(log: Log)
    ensures Encode(log).pending == []
    ensures |Encode(log).sent| == |log.sent| + 1 && Encode(log).sent[..|log.sent|] == log.sent
    ensures |Encode(log).sent[|log.sent|].pieces| == PIECES_PER_STATE_BLOCK
    ensures Contents(Encode(log).sent[|log.sent|]) == Resized(log.pending)
  {
    var c := Resized(log.pending);
    assert c[..PIECE_SIZE] + c[PIECE_SIZE..] == c;
  }

  /** A pending buffer of whole records that fits a block is recovered from the block. */
  lemma EncodeRecovers(log: Log, tail: seq<Data>)
    requires WholeBundles(log.sent) && Plain(tail) && log.pending == Frames(tail) && |log.pending| <= STATE_BLOCK_SIZE
    ensures WholeBundles(Encode(log).sent) && ParseBlocks(Encode(log).sent) == ParseBlocks(log.sent) + tail
  {
    hide Encode, Parse, Frames;
    EncodeSent(log);
    var k := STATE_BLOCK_SIZE - |log.pending|;
    assert Resized(log.pending) == Frames(tail) + Zeros(k);
    ParseFrames(tail, k);
  }

  /** The block records and the pending records split the list at `j`. */
  ghost predicate SplitAt(log: Log, records: seq<Data>, j: nat) {
    && j <= |records| && WholeBundles(log.sent)
    && ParseBlocks(log.sent) == records[..j] && log.pending == Frames(records[j..])
  }

  /**
   * A record survives its own addition: the prefix can tell its length, and if its
   * 16-bit framed length fills the block exactly, it really does.
   */
  predicate Survives(pending: Data, r: Data) {
    0 < |r| < 65536 && (|pending| + FullLength(|r|) == STATE_BLOCK_SIZE ==> |r| <= MAX_RECORD)
  }

  lemma AddRecovers(log: Log, records: seq<Data>, j: nat, r: Data) returns (k: nat)
    requires SplitAt(log, records, j) && |log.pending| <= STATE_BLOCK_SIZE && Plain(records) && Survives(log.pending, r)
    ensures SplitAt(AddData(log, r), records + [r], k)
    ensures |r| <= MAX_RECORD ==> |AddData(log, r).pending| <= STATE_BLOCK_SIZE
  {
    hide Encode, Frames, Parse, Framed, ParseBlocks;
    var all, tail := records + [r], records[j..];
    assert all[|records|] == r;
    FramesAppend(tail, r);
    assert tail + [r] == all[j..];
    var length := |log.pending| + FullLength(|r|);
    if length == STATE_BLOCK_SIZE {
      k := |all|;
      EncodeSent(log.(pending := log.pending + Framed(r)));
      EncodeRecovers(log.(pending := log.pending + Framed(r)), tail + [r]);
      assert all[..j] == records[..j] && all[..j] + all[j..] == all[..k] && all[k..] == [];
      NoFrames();
    } else if length > STATE_BLOCK_SIZE {
      k := |records|;
      EncodeSent(log);
      EncodeRecovers(log, tail);
      assert all[..k] == records[..j] + tail && all[k..] == [r];
      OneFrame(r);
      assert [] + Framed(r) == Framed(r);
    } else {
      k := j;
      assert all[..j] == records[..j];
    }
  }

  lemma NoFrames()
    ensures Frames([]) == []
  {
  }

  lemma OneFrame(r: Data)
    ensures Frames([r]) == Framed(r)
  {
    assert [r][1..] == [] && Framed(r) + [] == Framed(r);
  }

  ghost predicate FitBlocks(records: seq<Data>) {
    forall i :: 0 <= i < |records| - 1 ==> |records[i]| <= MAX_RECORD
  }

  /** The newest record survives in the log of the others. */
  ghost predicate NewestSurvives(records: seq<Data>) {
    records != [] ==> Survives(AddAll(records[..|records| - 1]).pending, records[|records| - 1])
  }

  lemma ShortSurvives(pending: Data, r: Data)
    requires 0 < |r| <= MAX_RECORD
    ensures Survives(pending, r)
  {
  }

  /** As long as no record but the newest is too long for a block, and that one survives, nothing is lost. */
  lemma {:induction false} RecoversAll(records: seq<Data>) returns (j: nat)
    requires NonEmpty(records) && FitBlocks(records) && NewestSurvives(records)
    ensures Plain(records) && SplitAt(AddAll(records), records, j)
    ensures records == [] || |records[|records| - 1]| <= MAX_RECORD ==> |AddAll(records).pending| <= STATE_BLOCK_SIZE
  {
    hide AddData, Frames, ParseBlocks, FullLength;
    if records == [] {
      j := 0;
      NoFrames();
      assert ParseBlocks([]) == [] by { NoBlocks(); }
    } else {
      var before, r := records[..|records| - 1], records[|records| - 1];
      assert before + [r] == records;
      if before != [] {
        ShortSurvives(AddAll(before[..|before| - 1]).pending, before[|before| - 1]);
      }
      var k := RecoversAll(before);
      j := AddRecovers(AddAll(before), before, k, r);
    }
  }

  lemma NoBlocks()
    ensures ParseBlocks([]) == []
  {
  }

  // ----- what is lost otherwise

  lemma {:induction false} ParsedSizes(s: Data)
    ensures NonEmpty(Parse(s)) && |Frames(Parse(s))| <= |s|
    ensures forall i :: 0 <= i < |Parse(s)| ==> |Parse(s)[i]| + 2 <= |s| && |Parse(s)[i]| < 65536
    decreases |s|
  {
    if |s| >= 2 {
      var length := 256 * (s[0] as int) + (s[1] as int);
      if length != 0 && |s| - 2 >= length {
        ParsedSizes(s[2 + length..]);
        assert Parse(s)[1..] == Parse(s[2 + length..]);
      }
    }
  }

  ghost predicate FullBlocks(sent: seq<StateBundle>) {
    WholeBundles(sent) && forall h :: 0 <= h < |sent| ==> |Contents(sent[h])| == STATE_BLOCK_SIZE
  }

  lemma ChainIsFull(log: Log)
    requires LogOk(log)
    ensures FullBlocks(log.sent)
  {
    forall h | 0 <= h < |log.sent|
      ensures |log.sent[h].pieces| == PIECES_PER_STATE_BLOCK && |Contents(log.sent[h])| == STATE_BLOCK_SIZE
    {
      assert BundleOk(log.sent, h);
    }
  }

  lemma {:induction false} BlockRecordsAreShort(sent: seq<StateBundle>)
    requires FullBlocks(sent)
    ensures NonEmpty(ParseBlocks(sent))
    ensures forall i :: 0 <= i < |ParseBlocks(sent)| ==> |ParseBlocks(sent)[i]| <= MAX_RECORD
  {
    hide Parse, Frames, Contents;
    if sent != [] {
      BlockRecordsAreShort(sent[..|sent| - 1]);
      ParsedSizes(Contents(sent[|sent| - 1]));
    }
  }

  /** Fewer records take fewer bytes. */
  lemma {:induction false} LaterIsShorter(records: seq<Data>, a: nat, b: nat)
    requires a <= b <= |records|
    ensures |Frames(records[a..])| >= |Frames(records[b..])| + if a < b then |records[a]| + 2 else 0
    decreases b - a
  {
    hide Framed;
    if a < b {
      assert records[a..][1..] == records[a + 1..];
      LaterIsShorter(records, a + 1, b);
    }
  }

  /** The pending bytes are the newest records, and none from before a record that was too long. */
  lemma {:induction false} PendingIsSuffix(records: seq<Data>) returns (j: nat)
    ensures j <= |records| && AddAll(records).pending == Frames(records[j..])
    ensures forall i :: 0 <= i < |records| - 1 && |records[i]| > MAX_RECORD ==> i < j
  {
    hide Frames, AddData;
    if records == [] {
      j := 0;
      NoFrames();
    } else {
      var n := |records| - 1;
      var before, r := records[..n], records[n];
      var k := PendingIsSuffix(before);
      j := SuffixStep(AddAll(before), before, k, r);
      assert before + [r] == records;
      if 0 < n && k < n && |records[n - 1]| > MAX_RECORD {
        LaterIsShorter(before, k, n - 1);
        LaterIsShorter(before, n - 1, n);
      }
    }
  }

  lemma SuffixStep(log: Log, before: seq<Data>, k: nat, r: Data) returns (j: nat)
    requires k <= |before| && log.pending == Frames(before[k..])
    ensures k <= j <= |before| + 1 && AddData(log, r).pending == Frames((before + [r])[j..])
    ensures |log.pending| > STATE_BLOCK_SIZE ==> j == |before|
    ensures |log.pending| + FullLength(|r|) == STATE_BLOCK_SIZE ==> j == |before| + 1
  {
    hide Frames, Framed, Encode;
    var n, all := |before|, before + [r];
    var length := |log.pending| + FullLength(|r|);
    if length == STATE_BLOCK_SIZE {
      j := n + 1;
      EncodeSent(log.(pending := log.pending + Framed(r)));
      assert all[n + 1..] == [];
      NoFrames();
    } else if length > STATE_BLOCK_SIZE {
      j := n;
      EncodeSent(log);
      OneFrame(r);
      assert all[n..] == [r] && [] + Framed(r) == Framed(r);
    } else {
      j := k;
      FramesAppend(before[k..], r);
      assert before[k..] + [r] == all[k..];
    }
  }

  lemma LongIsLost(records: seq<Data>, i: nat)
    requires 0 <= i < |records| - 1 && |records[i]| > MAX_RECORD
    ensures FullBlocks(AddAll(records).sent) && Recovered(AddAll(records)) != records
  {
    hide AddAll, Parse, Frames, ParseBlocks;
    EveryLogIsChained(records);
    var log := AddAll(records);
    ChainIsFull(log);
    BlockRecordsAreShort(log.sent);
    ParsedSizes(log.pending);
    var j := PendingIsSuffix(records);
    var b := |ParseBlocks(log.sent)|;
    if Recovered(log) == records {
      assert forall m :: 0 <= m < b ==> records[m] == ParseBlocks(log.sent)[m];
      assert Parse(log.pending) == records[b..];
      LaterIsShorter(records, b, i);
      LaterIsShorter(records, i, j);
      assert false;
    }
  }

  /** A record that the prefix can tell is cut off only when it seems to fill the block, leaving nothing pending. */
  lemma NewestDropped(records: seq<Data>)
    requires records != [] && 0 < |records[|records| - 1]| < 65536 && !NewestSurvives(records)
    ensures AddAll(records).pending == [] && |records[|records| - 1]| > MAX_RECORD
  {
    hide Frames, Encode, Framed, FullLength;
    var n := |records| - 1;
    EncodeSent(AddAll(records[..n]).(pending := AddAll(records[..n]).pending + Framed(records[n])));
  }

  /** A newest record that does not survive is not found again. */
  lemma NewestIsLost(records: seq<Data>)
    requires NonEmpty(records) && !NewestSurvives(records)
    ensures FullBlocks(AddAll(records).sent) && Recovered(AddAll(records)) != records
  {
    hide Parse, Frames, ParseBlocks, AddAll, Survives;
    EveryLogIsChained(records);
    var log, n := AddAll(records), |records| - 1;
    ChainIsFull(log);
    BlockRecordsAreShort(log.sent);
    ParsedSizes(log.pending);
    if |records[n]| < 65536 {
      NewestDropped(records);
      ParseNothing(log.pending);
    }
    var b := ParseBlocks(log.sent);
    var p := Parse(log.pending);
    assert forall m :: 0 <= m < |b + p| ==> (b + p)[m] == if m < |b| then b[m] else p[m - |b|];
  }

  /**
   * Reading the state blocks in height order and then the pending bytes gives back
   * exactly the records added if and only if none is empty, none but the newest is
   * longer than a block can hold, and the newest survives its own addition.
   */
  lemma LosslessIff(records: seq<Data>)
    ensures WholeBundles(AddAll(records).sent)
    ensures Recovered(AddAll(records)) == records <==>
            NonEmpty(records) && FitBlocks(records) && NewestSurvives(records)
  {
    hide AddAll, Parse, Frames, ParseBlocks, NewestSurvives;
    EveryLogIsChained(records);
    var log := AddAll(records);
    ChainIsFull(log);
    if !NonEmpty(records) {
      BlockRecordsAreShort(log.sent);
      ParsedSizes(log.pending);
      assert NonEmpty(Recovered(log));
    } else if !FitBlocks(records) {
      var i :| 0 <= i < |records| - 1 && |records[i]| > MAX_RECORD;
      LongIsLost(records, i);
    } else if !NewestSurvives(records) {
      NewestIsLost(records);
    } else {
      var j := RecoversAll(records);
      ParsePending(records[j..]);
      assert records[..j] + records[j..] == records;
    }
  }

  /** Records that fit a block never make the pending buffer outgrow it, so nothing is cut off and nothing is lost. */
  lemma PendingStaysWithinBlock(records: seq<Data>)
    requires NonEmpty(records) && forall i :: 0 <= i < |records| ==> |records[i]| <= MAX_RECORD
    ensures |AddAll(records).pending| <= STATE_BLOCK_SIZE
    ensures NewestSurvives(records) && FitBlocks(records)
  {
    hide AddAll, FullLength;
    if records != [] {
      ShortSurvives(AddAll(records[..|records| - 1]).pending, records[|records| - 1]);
    }
    var j := RecoversAll(records);
  }
}
