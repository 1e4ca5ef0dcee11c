/** Blocks with their metadata, indexed by proof id and by content id. */
module MetaBlocks {
  import opened Basics

  const GENESIS_CHALLENGE: Id := 0

  /** Pays the block reward to the farmer of a block. */
  datatype CoinbaseTx = CoinbaseTx(id: Id, to: Id)

  /** A proposer block has a parent content id, a tx block has none. */
  datatype Block = Block(proofId: Id, contentId: Id, parent: Option<Id>, timeslot: nat,
                         coinbase: CoinbaseTx, refs: seq<Id>)

  datatype MetaBlock = MetaBlock(block: Block, children: seq<Id>, height: nat)

  datatype Store = Store(blocks: map<Id, MetaBlock>, proofOf: map<Id, Id>) {

    function Lookup(content: Id): (r: Option<MetaBlock>) {
      if content in proofOf && proofOf[content] in blocks then Some(blocks[proofOf[content]]) else None
    }

    /** `blocks` and the content index are mutually inverse, and genesis is no block. */
    ghost predicate Linked() {
      && (forall p :: p in blocks ==>
            && blocks[p].block.proofId == p
            && blocks[p].block.contentId in proofOf
            && proofOf[blocks[p].block.contentId] == p)
      && (forall c :: c in proofOf ==> proofOf[c] in blocks && blocks[proofOf[c]].block.contentId == c)
      && GENESIS_CHALLENGE !in proofOf
    }
  }

  predicate HasParentBlock(b: Block) {
    b.parent.Some? && b.parent.value != GENESIS_CHALLENGE
  }

  /** Saves a block at a given height, refusing a second content for a known proof. */
  function Insert(m: Store, b: Block, height: nat): (r: Outcome<(Store, MetaBlock)>) {
    var mb := MetaBlock(b, [], height);
    if b.proofId in m.blocks && m.blocks[b.proofId].block != b then Panic
    else Ok((Store(m.blocks[b.proofId := mb], m.proofOf[b.contentId := b.proofId]), mb))
  }

  function Saved(m: Store, b: Block): (r: Outcome<(Store, MetaBlock)>) {
    if HasParentBlock(b) then
      match m.Lookup(b.parent.value)
      case None => Panic
      case Some(parent) =>
        var pp := m.proofOf[b.parent.value];
        var grown := parent.(children := parent.children + [b.proofId]);
        Insert(m.(blocks := m.blocks[pp := grown]), b, parent.height + 1)
    else
      Insert(m, b, 0)
  }

  function Removed(m: Store, proofId: Id): (r: Outcome<(Store, MetaBlock)>) {
    if proofId !in m.blocks then Panic
    else
      var mb := m.blocks[proofId];
      if mb.block.contentId !in m.proofOf then Panic
      else Ok((Store(m.blocks - {proofId}, m.proofOf - {mb.block.contentId}), mb))
  }

  /** A new block keeps the two indexes mutually inverse. */
  lemma SaveLinks(m: Store, b: Block)
    requires m.Linked() && b.proofId !in m.blocks
    requires b.contentId !in m.proofOf && b.contentId != GENESIS_CHALLENGE
    ensures Saved(m, b).Ok? <==> (HasParentBlock(b) ==> b.parent.value in m.proofOf)
    ensures Saved(m, b).Ok? ==> Saved(m, b).value.0.Linked()
  {
  }

  /** Saving fails exactly for an unknown parent and for a known proof with another block. */
  lemma SavePanicsIff(m: Store, b: Block)
    requires m.Linked()
    ensures Saved(m, b).Panic? <==>
            || (HasParentBlock(b) && b.parent.value !in m.proofOf)
            || (b.proofId in m.blocks && m.blocks[b.proofId].block != b)
  {
  }

  /** Removing a known block succeeds, undoes its two entries and keeps the rest. */
  lemma RemoveLinks(m: Store, p: Id)
    requires m.Linked()
    ensures Removed(m, p).Ok? <==> p in m.blocks
    ensures Removed(m, p).Ok? ==> Removed(m, p).value.0.Linked() && Removed(m, p).value.1 == m.blocks[p]
  {
  }

  /** Saving a tx block or a root and removing it again is the identity. */
  lemma RemoveUndoesSave(m: Store, b: Block)
    requires m.Linked() && b.proofId !in m.blocks && b.contentId !in m.proofOf && !HasParentBlock(b)
    ensures Saved(m, b).Ok? && Removed(Saved(m, b).value.0, b.proofId).Ok?
    ensures Removed(Saved(m, b).value.0, b.proofId).value.0 == m
  {
    var s := Saved(m, b).value.0;
    assert s.blocks - {b.proofId} == m.blocks;
    assert s.proofOf - {b.contentId} == m.proofOf;
  }

  /** The mutable container of the source. */
  class BlockStore {
    var blocks: map<Id, MetaBlock>
    var contentToProof: map<Id, Id>

    function View(): (r: Store)
      reads this
    {
      Store(blocks, contentToProof)
    }

    constructor ()
      ensures View() == Store(map[], map[])
    {
      blocks, contentToProof := map[], map[];
    }

    method Save(b: Block) returns (r: Outcome<MetaBlock>)
      modifies this
      ensures r.Ok? <==> Saved(old(View()), b).Ok?
      ensures r.Ok? ==> Saved(old(View()), b) == Ok((View(), r.value))
    {
      var height := 0;
      if HasParentBlock(b) {
        if b.parent.value !in contentToProof { return Panic; }
        var parentProof := contentToProof[b.parent.value];
        if parentProof !in blocks { return Panic; }
        var parent := blocks[parentProof];
        blocks := blocks[parentProof := parent.(children := parent.children + [b.proofId])];
        height := parent.height + 1;
      }
      var metablock := MetaBlock(b, [], height);
      if b.proofId in blocks && blocks[b.proofId].block != b { return Panic; }
      blocks := blocks[b.proofId := metablock];
      contentToProof := contentToProof[b.contentId := b.proofId];
      r := Ok(metablock);
    }

    method Remove(proofId: Id) returns (r: Outcome<MetaBlock>)
      modifies this
      ensures r.Ok? <==> Removed(old(View()), proofId).Ok?
      ensures r.Ok? ==> Removed(old(View()), proofId) == Ok((View(), r.value))
    {
      if proofId !in blocks { return Panic; }
      var removed := blocks[proofId];
      blocks := blocks - {proofId};
      if removed.block.contentId !in contentToProof { return Panic; }
      contentToProof := contentToProof - {removed.block.contentId};
      r := Ok(removed);
    }
  }
}
