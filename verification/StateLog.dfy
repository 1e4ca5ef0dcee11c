/** The state log: length-prefixed records collected into state blocks that form a chain. */
module StateLog {
  import opened Basics
  import opened Bytes

  const PIECE_SIZE: nat := 4096
  const STATE_BLOCK_SIZE: nat := 8192
  const PIECES_PER_STATE_BLOCK: nat := STATE_BLOCK_SIZE / PIECE_SIZE

  type Data = seq<byte>

  /** Hashes are told apart by what they are the hash of: a piece id by its piece, a root by its leaves. */
  type MerkleRoot = seq<Data>

  datatype StateBlockId = NoBlock | IdOf(block: StateBlock)
  datatype StateBlock = StateBlock(previous: StateBlockId, root: MerkleRoot, height: nat)
  datatype PieceBundle = PieceBundle(piece: Data, index: nat)
  datatype StateBundle = StateBundle(block: StateBlock, pieces: seq<PieceBundle>)

  /** The log, with every bundle it has sent. */
  datatype Log = Log(
    pending: Data,
    byId: map<StateBlockId, StateBlock>,
    byHeight: map<nat, StateBlockId>,
    lastId: StateBlockId,
    lastHeight: nat,
    sent: seq<StateBundle>)

  const EMPTY_LOG := Log([], map[], map[], NoBlock, 0, [])

  /** The length is cast to 16 bits and written most significant byte first. */
  function Prefix(length: nat): (h: Data)
    ensures |h| == 2
  {
    var n := length % 65536;
    [n / 256, n % 256]
  }

  /** Record lengths are 16-bit numbers in big-endian form. */
  lemma PrefixIsBigEndian(length: nat)
    ensures FromDigits([Prefix(length)[1], Prefix(length)[0]]) == length % 65536
  {
    var s := [Prefix(length)[1], Prefix(length)[0]];
    assert s[1..][0] == s[1] && s[1..][1..] == [];
    assert FromDigits(s[1..][1..]) == 0;
  }

  function Framed(data: Data): (s: Data)
    ensures |s| == |data| + 2
  {
    Prefix(|data|) + data
  }

  /** Cut or filled with zeros to the size of a state block. */
  function Resized(s: Data): (r: Data)
    ensures |r| == STATE_BLOCK_SIZE
  {
    if |s| >= STATE_BLOCK_SIZE then s[..STATE_BLOCK_SIZE] else s + Zeros(STATE_BLOCK_SIZE - |s|)
  }

  function Pieces(contents: Data): (r: seq<Data>)
    requires |contents| == STATE_BLOCK_SIZE
  {
    [contents[..PIECE_SIZE], contents[PIECE_SIZE..]]
  }

  function Save(log: Log, block: StateBlock): (r: Log) {
    log.(byId := log.byId[IdOf(block) := block], byHeight := log.byHeight[block.height := IdOf(block)],
         lastHeight := log.lastHeight + 1, lastId := IdOf(block))
  }

  /** Turns what is pending into a state block and its pieces. */
  function Encode(log: Log): (r: Log) {
    var pieces := Pieces(Resized(log.pending));
    var first := PIECES_PER_STATE_BLOCK * log.lastHeight;
    var block := StateBlock(log.lastId, pieces, log.lastHeight);
    var bundle := StateBundle(block, [PieceBundle(pieces[0], first), PieceBundle(pieces[1], first + 1)]);
    Save(log.(pending := []), block).(sent := log.sent + [bundle])
  }

  /** The length of a framed record in the source's 16-bit arithmetic. */
  function FullLength(length: nat): (n: nat) {
    (length % 65536 + 2) % 65536
  }

  /** Fills the block exactly and encodes it, encodes first and starts the next block, or just appends. */
  function AddData(log: Log, data: Data): (r: Log) {
    var length := |log.pending| + FullLength(|data|);
    if length == STATE_BLOCK_SIZE then Encode(log.(pending := log.pending + Framed(data)))
    else if length > STATE_BLOCK_SIZE then
      var encoded := Encode(log);
      encoded.(pending := encoded.pending + Framed(data))
    else log.(pending := log.pending + Framed(data))
  }

  function AddAll(records: seq<Data>): (log: Log) {
    if records == [] then EMPTY_LOG else AddData(AddAll(records[..|records| - 1]), records[|records| - 1])
  }

  function BlockByHeight(log: Log, height: nat): (r: Option<StateBlock>) {
    if height in log.byHeight && log.byHeight[height] in log.byId then Some(log.byId[log.byHeight[height]]) else None
  }

  // ----- the chain of state blocks

  function PreviousId(sent: seq<StateBundle>, height: nat): (id: StateBlockId)
    requires height <= |sent|
  {
    if height == 0 then NoBlock else IdOf(sent[height - 1].block)
  }

  /** A bundle stands at its height, points to its predecessor and numbers its pieces on. */
  ghost predicate BundleOk(sent: seq<StateBundle>, h: nat)
    requires h < |sent|
  {
    var b := sent[h];
    && b.block.height == h && b.block.previous == PreviousId(sent, h)
    && |b.pieces| == PIECES_PER_STATE_BLOCK == |b.block.root|
    && forall k :: 0 <= k < PIECES_PER_STATE_BLOCK ==>
         && b.pieces[k].index == PIECES_PER_STATE_BLOCK * h + k
         && b.pieces[k].piece == b.block.root[k] && |b.pieces[k].piece| == PIECE_SIZE
  }

  ghost predicate LogOk(log: Log) {
    && log.lastHeight == |log.sent| && log.lastId == PreviousId(log.sent, |log.sent|)
    && (forall h :: 0 <= h < |log.sent| ==> BundleOk(log.sent, h))
    && (forall h: nat :: h in log.byHeight <==> h < |log.sent|)
    && (forall h :: 0 <= h < |log.sent| ==> Indexed(log, h))
  }

  ghost predicate Indexed(log: Log, h: nat)
    requires h < |log.sent|
  {
    h in log.byHeight && log.byHeight[h] == IdOf(log.sent[h].block) && BlockByHeight(log, h) == Some(log.sent[h].block)
  }

  lemma EncodeKeepsOk(log: Log)
    requires LogOk(log)
    ensures LogOk(Encode(log)) && log.sent <= Encode(log).sent
  {
    hide Resized;
    var next := Encode(log);
    var n := |log.sent|;
    forall h | 0 <= h < n ensures BundleOk(next.sent, h) {
      assert BundleOk(log.sent, h);
    }
    assert BundleOk(next.sent, n);
    forall h | 0 <= h < n ensures Indexed(next, h) {
      assert Indexed(log, h);
    }
    assert Indexed(next, n);
  }

  lemma AddKeepsOk(log: Log, data: Data)
    requires LogOk(log)
    ensures LogOk(AddData(log, data)) && log.sent <= AddData(log, data).sent
  {
    hide Encode, Framed;
    var full := log.(pending := log.pending + Framed(data));
    SamePending(log, full);
    EncodeKeepsOk(full);
    EncodeKeepsOk(log);
    SamePending(Encode(log), AddData(log, data));
  }

  /** The pending bytes have no part in the chain. */
  lemma SamePending(log: Log, other: Log)
    requires LogOk(log)
    ensures other == log.(pending := other.pending) ==> LogOk(other)
  {
    if other == log.(pending := other.pending) {
      forall h | 0 <= h < |log.sent| ensures Indexed(other, h) {
        assert Indexed(log, h);
      }
    }
  }

  lemma {:induction false} EveryLogIsChained(records: seq<Data>)
    ensures LogOk(AddAll(records))
  {
    hide AddData;
    if records != [] {
      EveryLogIsChained(records[..|records| - 1]);
      AddKeepsOk(AddAll(records[..|records| - 1]), records[|records| - 1]);
    }
  }

  /** All the pieces a log has sent, in order. */
  function SentPieces(sent: seq<StateBundle>): (r: seq<PieceBundle>) {
    if sent == [] then [] else SentPieces(sent[..|sent| - 1]) + sent[|sent| - 1].pieces
  }

  lemma {:induction false} PieceCount(sent: seq<StateBundle>)
    requires forall h :: 0 <= h < |sent| ==> BundleOk(sent, h)
    ensures |SentPieces(sent)| == 2 * |sent|
  {
    if sent != [] {
      var n := |sent| - 1;
      forall h | 0 <= h < n ensures BundleOk(sent[..n], h) {
        assert BundleOk(sent, h);
      }
      PieceCount(sent[..n]);
      assert BundleOk(sent, n);
    }
  }

  lemma {:induction false} PieceAt(sent: seq<StateBundle>, h: nat, k: nat)
    requires forall h :: 0 <= h < |sent| ==> BundleOk(sent, h)
    requires h < |sent| && k < PIECES_PER_STATE_BLOCK
    ensures |SentPieces(sent)| == 2 * |sent| && |sent[h].pieces| == PIECES_PER_STATE_BLOCK
    ensures SentPieces(sent)[2 * h + k] == sent[h].pieces[k]
  {
    hide BundleOk;
    var n := |sent| - 1;
    PieceCount(sent);
    forall h | 0 <= h < n ensures BundleOk(sent[..n], h) {
      BundlePrefix(sent, n, h);
    }
    PieceCount(sent[..n]);
    assert |sent[h].pieces| == PIECES_PER_STATE_BLOCK by { BundleSize(sent, h); }
    if h < n {
      PieceAt(sent[..n], h, k);
    }
  }

  lemma BundlePrefix(sent: seq<StateBundle>, n: nat, h: nat)
    requires h < n <= |sent| && BundleOk(sent, h)
    ensures BundleOk(sent[..n], h)
  {
  }

  lemma BundleSize(sent: seq<StateBundle>, h: nat)
    requires h < |sent| && BundleOk(sent, h)
    ensures |sent[h].pieces| == PIECES_PER_STATE_BLOCK
  {
  }

  /**
   * Whatever records were added, the i-th piece sent is numbered i, and the state
   * block found at height i / PIECES_PER_STATE_BLOCK commits to it.
   */
  lemma PieceFindsItsBlock(records: seq<Data>, i: nat)
    requires i < |SentPieces(AddAll(records).sent)|
    ensures
      var log := AddAll(records);
      var piece := SentPieces(log.sent)[i];
      && piece.index == i
      && BlockByHeight(log, i / PIECES_PER_STATE_BLOCK).Some?
      && var root := BlockByHeight(log, i / PIECES_PER_STATE_BLOCK).value.root;
         |root| == PIECES_PER_STATE_BLOCK && root[i % PIECES_PER_STATE_BLOCK] == piece.piece
  {
    hide AddAll;
    EveryLogIsChained(records);
    var sent := AddAll(records).sent;
    PieceCount(sent);
    PieceAt(sent, i / 2, i % 2);
    assert BundleOk(sent, i / 2) && Indexed(AddAll(records), i / 2);
  }

  // ----- the genesis records

  const GENESIS_RECORD_SIZE: nat := PIECE_SIZE - 2

  /** Records of this size fill a state block two by two. */
  lemma {:induction false} GenesisFillsBlocks(records: seq<Data>)
    requires forall i :: 0 <= i < |records| ==> |records[i]| == GENESIS_RECORD_SIZE
    ensures |AddAll(records).sent| == |records| / 2
    ensures |AddAll(records).pending| == if |records| % 2 == 0 then 0 else PIECE_SIZE
  {
    hide AddData;
    if records != [] {
      GenesisFillsBlocks(records[..|records| - 1]);
      GenesisStep(AddAll(records[..|records| - 1]), records[|records| - 1]);
    }
  }

  lemma GenesisStep(log: Log, data: Data)
    requires |data| == GENESIS_RECORD_SIZE && (|log.pending| == 0 || |log.pending| == PIECE_SIZE)
    ensures |AddData(log, data).pending| == PIECE_SIZE - |log.pending|
    ensures |AddData(log, data).sent| == |log.sent| + if |log.pending| == 0 then 0 else 1
  {
    hide Framed, Resized;
  }

  // ----- the log as the program keeps it

  /** The records of the genesis loop, in order. */
  ghost function GenesisRecords(generated: nat -> Data, count: nat): (r: seq<Data>)
    requires forall i :: |generated(i)| == GENESIS_RECORD_SIZE
    ensures |r| == count && forall i :: 0 <= i < count ==> |r[i]| == GENESIS_RECORD_SIZE && r[i] == generated(i)
  {
    if count == 0 then [] else GenesisRecords(generated, count - 1) + [generated(count - 1)]
  }

  class State {
    var pending: Data
    var byId: map<StateBlockId, StateBlock>
    var byHeight: map<nat, StateBlockId>
    var lastId: StateBlockId
    var lastHeight: nat
    var sent: seq<StateBundle>

    function View(): (log: Log)
      reads this
    {
      Log(pending, byId, byHeight, lastId, lastHeight, sent)
    }

    constructor ()
      ensures View() == EMPTY_LOG
    {
      pending, byId, byHeight, lastId, lastHeight, sent := [], map[], map[], NoBlock, 0, [];
    }

    method SaveStateBlock(block: StateBlock)
      modifies this
      ensures View() == Save(old(View()), block)
    {
      var id := IdOf(block);
      byId := byId[id := block];
      byHeight := byHeight[block.height := id];
      lastHeight := lastHeight + 1;
      lastId := id;
    }

    method EncodePending() returns (bundle: StateBundle)
      modifies this
      ensures View() == Encode(old(View())) && sent == old(sent) + [bundle]
    {
      var contents := Resized(pending);
      pending := [];
      var pieces := Pieces(contents);
      var bundles: seq<PieceBundle> := [];
      var index := PIECES_PER_STATE_BLOCK * lastHeight;
      for k := 0 to |pieces|
        invariant View() == old(View()).(pending := [])
        invariant index == PIECES_PER_STATE_BLOCK * lastHeight + k && |bundles| == k
        invariant forall j :: 0 <= j < k ==>
                    bundles[j] == PieceBundle(pieces[j], PIECES_PER_STATE_BLOCK * lastHeight + j)
      {
        bundles := bundles + [PieceBundle(pieces[k], index)];
        index := index + 1;
      }
      var block := StateBlock(lastId, pieces, lastHeight);
      bundle := StateBundle(block, bundles);
      assert bundles == [PieceBundle(pieces[0], index - 2), PieceBundle(pieces[1], index - 1)];
      SaveStateBlock(block);
      sent := sent + [bundle];
    }

    method Add(data: Data) returns (bundle: Option<StateBundle>)
      modifies this
      ensures View() == AddData(old(View()), data)
      ensures sent == old(sent) + if bundle.Some? then [bundle.value] else []
    {
      hide Encode;
      var prefix := Prefix(|data|);
      var length := |pending| + FullLength(|data|);
      bundle := None;
      if length == STATE_BLOCK_SIZE {
        pending := pending + prefix;
        pending := pending + data;
        assert pending == old(pending) + Framed(data);
      }
      if length >= STATE_BLOCK_SIZE {
        var encoded := EncodePending();
        bundle := Some(encoded);
      }
      if length != STATE_BLOCK_SIZE {
        ghost var kept := pending;
        pending := pending + prefix;
        pending := pending + data;
        assert pending == kept + Framed(data);
      }
    }

    method GetStateBlockByHeight(height: nat) returns (r: Option<StateBlock>)
      ensures r == BlockByHeight(View(), height)
    {
      if height !in byHeight {
        return None;
      }
      var id := byHeight[height];
      if id !in byId {
        return None;
      }
      r := Some(byId[id]);
    }

    /** The genesis loop: every record is added, and the pieces of every bundle are collected. */
    method AddGenerated(generated: nat -> Data, count: nat) returns (bundles: seq<PieceBundle>)
      requires View() == EMPTY_LOG && forall i :: |generated(i)| == GENESIS_RECORD_SIZE
      modifies this
      ensures View() == AddAll(GenesisRecords(generated, count)) && bundles == SentPieces(sent)
    {
      hide AddData;
      bundles := [];
      for i := 0 to count
        invariant View() == AddAll(GenesisRecords(generated, i)) && bundles == SentPieces(sent)
      {
        ghost var before := sent;
        GenesisStepRecords(generated, i);
        var added := Add(generated(i));
        if added.Some? {
          bundles := bundles + added.value.pieces;
          assert sent[..|sent| - 1] == before;
        } else {
          assert sent == before;
        }
      }
    }

    /**
     * The genesis state over generated records, refused for an odd count: an even
     * count gives exactly that many pieces, numbered from 0, and leaves nothing pending.
     */
    method CreateGenesisState(generated: nat -> Data, count: nat) returns (r: Outcome<seq<PieceBundle>>)
      requires View() == EMPTY_LOG && forall i :: |generated(i)| == GENESIS_RECORD_SIZE
      modifies this
      ensures r.Ok? <==> count % PIECES_PER_STATE_BLOCK == 0
      ensures r.Ok? ==> |r.value| == count && pending == [] && |sent| == count / PIECES_PER_STATE_BLOCK
      ensures r.Ok? ==> LogOk(View()) && forall i :: 0 <= i < count ==> r.value[i].index == i
      ensures r.Ok? ==> View() == AddAll(GenesisRecords(generated, count)) && r.value == SentPieces(sent)
    {
      hide AddAll, LogOk, SentPieces;
      if count % PIECES_PER_STATE_BLOCK != 0 {
        return Panic;
      }
      var bundles := AddGenerated(generated, count);
      ghost var records := GenesisRecords(generated, count);
      GenesisFillsBlocks(records);
      EveryLogIsChained(records);
      GenesisPieces(records);
      r := Ok(bundles);
    }
  }

  lemma GenesisStepRecords(generated: nat -> Data, i: nat)
    requires forall i :: |generated(i)| == GENESIS_RECORD_SIZE
    ensures AddAll(GenesisRecords(generated, i + 1)) == AddData(AddAll(GenesisRecords(generated, i)), generated(i))
  {
    hide AddData;
    var records := GenesisRecords(generated, i + 1);
    assert records[..|records| - 1] == GenesisRecords(generated, i);
  }

  lemma GenesisPieces(records: seq<Data>)
    ensures |SentPieces(AddAll(records).sent)| == PIECES_PER_STATE_BLOCK * |AddAll(records).sent|
    ensures forall i :: 0 <= i < |SentPieces(AddAll(records).sent)| ==> SentPieces(AddAll(records).sent)[i].index == i
  {
    hide AddAll;
    EveryLogIsChained(records);
    var sent := AddAll(records).sent;
    PieceCount(sent);
    forall i | 0 <= i < |SentPieces(sent)| ensures SentPieces(sent)[i].index == i {
      PieceFindsItsBlock(records, i);
    }
  }
}
