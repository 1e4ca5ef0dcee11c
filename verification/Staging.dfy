/** Staging proposer blocks: the operations, the invariant, and attaching a block under the deep-fork guard. */
module Staging {
  import opened Basics
  import opened MetaBlocks
  import opened Forks
  import opened ForkChoice

  // ----- staging and confirming

  /** Saves a block and lists it under its timeslot; a proposer block also extends the heads. */
  function Attach(c: Chain, b: Block): (r: Outcome<(Chain, MetaBlock)>) {
    match Saved(c.store, b)
    case Panic => Panic
    case Ok((store, mb)) =>
      var heads := if b.parent.None? then c.heads else UpdateHeads(c.heads, b.parent.value, b.contentId, mb.height);
      Ok((Chain(store, AddToSlot(c.slots, b.timeslot, b.proofId), heads, c.confirmed), mb))
  }

  /** Follows parent links from a content id and returns the `depth`-th block met. */
  function KDeep(m: Store, content: Id, depth: nat): (r: Outcome<Option<MetaBlock>>)
    requires depth > 0
    decreases depth
  {
    match m.Lookup(content)
    case None => Ok(None)
    case Some(mb) =>
      if mb.block.parent.None? then Panic
      else if depth == 1 then Ok(Some(mb))
      else KDeep(m, mb.block.parent.value, depth - 1)
  }

  /** Marks a block confirmed and prunes its stored siblings. */
  function ConfirmOnChain(c: Chain, mb: MetaBlock): (r: Outcome<Chain>) {
    var d := c.(confirmed := c.confirmed + {mb.block.proofId});
    if mb.height == 0 then Ok(d)
    else if mb.block.parent.None? then Panic
    else
      match c.store.Lookup(mb.block.parent.value)
      case None => Panic
      case Some(parent) => PruneBlocks(d, Keep(parent.children, Self, {mb.block.proofId}))
  }

  /** Stages a proposer block; `available` says whether its k-deep ancestor finds its transactions. */
  function StageOnChain(c: Chain, b: Block, available: bool): (r: Outcome<Chain>) {
    if b.parent.None? then Panic else
    match Attach(c, b)
    case Panic => Panic
    case Ok((d, mb)) =>
      match KDeep(d.store, b.parent.value, CONFIRMATION_DEPTH)
      case Panic => Panic
      case Ok(None) => Ok(d)
      case Ok(Some(deep)) =>
        if deep.block.proofId in d.confirmed || !available then Ok(d) else ConfirmOnChain(d, deep)
  }

  // ----- the invariant

  ghost predicate Leaf(m: Store, p: Id) {
    forall q :: Live(m, q) && Height(m, q) > 0 ==> ParentOf(m, q) != p
  }

  ghost predicate HeadOk(m: Store, h: Head) {
    h.contentId in m.proofOf && Live(m, m.proofOf[h.contentId])
    && Leaf(m, m.proofOf[h.contentId]) && h.height == Height(m, m.proofOf[h.contentId])
  }

  /** The heads are exactly the leaves, with true heights, and the front one is highest. */
  ghost predicate HeadsOk(c: Chain) {
    && (forall h :: h in c.heads ==> HeadOk(c.store, h))
    && (forall p :: Live(c.store, p) && Leaf(c.store, p) ==> Listed(c.store, c.heads, p))
    && (forall p :: Live(c.store, p) ==> c.heads != [] && Height(c.store, p) <= c.heads[0].height)
  }

  ghost predicate SameLine(m: Store, x: Id, y: Id) {
    Under(m, y, x) || Under(m, x, y)
  }

  /** Some block of the same root is at least the confirmation depth above `x`. */
  ghost predicate Buried(m: Store, x: Id) {
    exists y :: Live(m, y) && Root(m, y) == Root(m, x) && Height(m, y) >= Height(m, x) + CONFIRMATION_DEPTH
  }

  ghost predicate ConfirmedBuried(m: Store, confirmed: set<Id>) {
    forall x :: x in confirmed ==> Live(m, x) && Buried(m, x)
  }

  /** Every block that lies deep enough below `y` is confirmed. */
  ghost predicate DeepConfirmed(m: Store, confirmed: set<Id>, y: Id) {
    forall k: nat :: k + CONFIRMATION_DEPTH <= Height(m, y) ==> AncAt(m, y, k) in confirmed
  }

  /** No live block rivals a confirmed block of its own root. */
  ghost predicate NoRivals(m: Store, confirmed: set<Id>) {
    forall x, y :: x in confirmed && Live(m, y) && Root(m, x) == Root(m, y) ==> SameLine(m, x, y)
  }

  ghost predicate Inv(c: Chain) {
    && Indexed(c) && Kids(c.store, c.confirmed) && HeadsOk(c)
    && ConfirmedBuried(c.store, c.confirmed)
    && (forall y :: Live(c.store, y) ==> DeepConfirmed(c.store, c.confirmed, y))
    && NoRivals(c.store, c.confirmed)
  }

  // ----- hypotheses on a staged block

  /** A block whose ids the node has not used. */
  ghost predicate Fresh(c: Chain, b: Block) {
    && b.proofId !in c.store.blocks && b.contentId !in c.store.proofOf && b.contentId != GENESIS_CHALLENGE
    && b.proofId !in c.confirmed
    && forall x :: x in c.store.blocks ==> b.proofId !in Children(c.store, x)
  }

  /** The parent is genesis or a known proposer block that is not too deep below the front head. */
  ghost predicate Guarded(c: Chain, b: Block) {
    && b.parent.Some?
    && (HasParentBlock(b) ==>
          && b.parent.value in c.store.proofOf
          && Live(c.store, c.store.proofOf[b.parent.value])
          && c.heads != []
          && Height(c.store, c.store.proofOf[b.parent.value]) + CONFIRMATION_DEPTH >= c.heads[0].height)
  }

  // ----- attaching a block

  function ParentProof(m: Store, b: Block): (p: Id) {
    if b.parent.Some? && b.parent.value in m.proofOf then m.proofOf[b.parent.value] else b.proofId
  }

  /** The store `n` is `m` with the new block `b` under its parent. */
  ghost predicate Grown(m: Store, n: Store, b: Block) {
    && b.proofId !in m.blocks && n.blocks.Keys == m.blocks.Keys + {b.proofId}
    && b.contentId !in m.proofOf && n.proofOf == m.proofOf[b.contentId := b.proofId]
    && n.blocks[b.proofId] == MetaBlock(b, [], if HasParentBlock(b) then Height(m, ParentProof(m, b)) + 1 else 0)
    && (forall z :: z in m.blocks ==>
          && n.blocks[z].block == m.blocks[z].block && n.blocks[z].height == m.blocks[z].height
          && n.blocks[z].children == m.blocks[z].children
                                     + if HasParentBlock(b) && z == ParentProof(m, b) then [b.proofId] else [])
  }

  lemma SaveGrows(m: Store, b: Block)
    requires m.Linked() && b.proofId !in m.blocks && b.contentId !in m.proofOf
    requires HasParentBlock(b) ==> b.parent.value in m.proofOf
    ensures Saved(m, b).Ok? && Grown(m, Saved(m, b).value.0, b)
    ensures Saved(m, b).value.1 == Saved(m, b).value.0.blocks[b.proofId]
  {
  }

  lemma GrownLinks(m: Store, n: Store, b: Block)
    requires Tree(m) && Grown(m, n, b) && b.contentId != GENESIS_CHALLENGE
    requires HasParentBlock(b) ==> Live(m, ParentProof(m, b))
    ensures n.Linked() && !Live(m, b.proofId)
    ensures ParentOf(n, b.proofId) == ParentProof(m, b)
    ensures forall z :: Live(n, z) <==> Live(m, z) || (z == b.proofId && b.parent.Some?)
    ensures forall z :: z in m.blocks ==> n.blocks[z].block == m.blocks[z].block && Height(n, z) == Height(m, z)
    ensures Height(n, b.proofId) == if HasParentBlock(b) then Height(m, ParentProof(m, b)) + 1 else 0
  {
  }

  lemma GrownTree(m: Store, n: Store, b: Block)
    requires Tree(m) && Grown(m, n, b) && b.contentId != GENESIS_CHALLENGE
    requires HasParentBlock(b) ==> Live(m, ParentProof(m, b))
    ensures Tree(n) && KeepsAncestry(m, n, {})
    ensures ParentOf(n, b.proofId) == ParentProof(m, b)
    ensures Height(n, b.proofId) == if HasParentBlock(b) then Height(m, ParentProof(m, b)) + 1 else 0
    ensures !Live(m, b.proofId)
    ensures forall z :: Live(n, z) <==> Live(m, z) || (z == b.proofId && b.parent.Some?)
    ensures forall z :: Live(m, z) && Height(m, z) > 0 ==> Live(m, ParentOf(m, z))
    ensures forall z :: z in m.blocks ==> n.blocks[z].block == m.blocks[z].block
  {
    hide Store.Linked, Placed;
    GrownLinks(m, n, b);
    forall z | z in m.blocks
      ensures Placed(n, z) && (Live(m, z) ==> ParentOf(n, z) == ParentOf(m, z))
      ensures Live(m, z) && Height(m, z) > 0 ==> Live(m, ParentOf(m, z))
    {
      GrownPlaced(m, n, b, z);
    }
    assert Placed(n, b.proofId) by { GrownPlacedNew(m, n, b); }
  }

  lemma GrownPlaced(m: Store, n: Store, b: Block, z: Id)
    requires Grown(m, n, b) && z in m.blocks && Placed(m, z) && b.contentId != GENESIS_CHALLENGE
    ensures Placed(n, z) && (Live(m, z) ==> ParentOf(n, z) == ParentOf(m, z))
    ensures Live(m, z) && Height(m, z) > 0 ==> Live(m, ParentOf(m, z))
  {
  }

  lemma GrownPlacedNew(m: Store, n: Store, b: Block)
    requires Grown(m, n, b) && b.contentId != GENESIS_CHALLENGE
    requires HasParentBlock(b) ==> Live(m, ParentProof(m, b)) && b.parent.value in m.proofOf
    ensures Placed(n, b.proofId)
  {
  }

  lemma GrownKidsOf(m: Store, n: Store, b: Block, confirmed: set<Id>, x: Id)
    requires Grown(m, n, b) && KeepsAncestry(m, n, {}) && Live(m, x) && Placed(m, x)
    requires b.parent.Some? && ParentOf(n, b.proofId) == ParentProof(m, b)
    requires b.proofId !in confirmed && b.proofId !in Children(m, x)
    requires KidsOf(m, confirmed, x)
    ensures KidsOf(n, confirmed, x)
  {
    assert Children(m, x) <= Children(n, x);
    forall k | k in Children(m, x) ensures ChildOk(n, confirmed, x, k) {
      assert ChildOk(m, confirmed, x, k);
    }
    if Height(m, x) > 0 {
      assert Children(m, ParentOf(m, x)) <= Children(n, ParentOf(m, x));
    }
  }

  lemma GrownKids(m: Store, n: Store, b: Block, confirmed: set<Id>)
    requires Tree(m) && Kids(m, confirmed) && Grown(m, n, b) && b.contentId != GENESIS_CHALLENGE
    requires b.parent.Some? && (HasParentBlock(b) ==> Live(m, ParentProof(m, b)))
    requires b.proofId !in confirmed
    requires forall x :: x in m.blocks ==> b.proofId !in Children(m, x)
    ensures Kids(n, confirmed)
  {
    GrownTree(m, n, b);
    forall x | Live(n, x) ensures KidsOf(n, confirmed, x) {
      if x != b.proofId {
        GrownKidsOf(m, n, b, confirmed, x);
      }
    }
  }

  lemma GrownSlot(m: Store, n: Store, b: Block, t: nat, s: seq<Id>)
    requires Grown(m, n, b) && SlotOk(m, t, s)
    ensures SlotOk(n, t, s) && (t == b.timeslot ==> SlotOk(n, t, s + [b.proofId]))
  {
  }

  lemma FiledStays(slots: map<nat, seq<Id>>, b: Block, x: Block)
    requires x == b || Filed(slots, x)
    ensures Filed(AddToSlot(slots, b.timeslot, b.proofId), x)
  {
  }

  lemma GrownSlots(c: Chain, n: Store, b: Block, d: Chain)
    requires SlotsOk(c) && Grown(c.store, n, b)
    requires d.store == n && d.slots == AddToSlot(c.slots, b.timeslot, b.proofId)
    ensures SlotsOk(d)
  {
    assert SlotOk(c.store, b.timeslot, []);
    GrownSlot(c.store, n, b, b.timeslot, []);
    assert [] + [b.proofId] == [b.proofId];
    forall t | t in c.slots ensures SlotOk(n, t, d.slots[t]) {
      GrownSlot(c.store, n, b, t, c.slots[t]);
    }
    forall p | p in n.blocks ensures Filed(d.slots, n.blocks[p].block) {
      FiledStays(c.slots, b, n.blocks[p].block);
    }
    hide SlotOk, Filed;
  }

  /** The heads after an update, whatever their order, and which one is at the front. */
  lemma UpdatedHeads(heads: seq<Head>, parent: Id, tip: Head)
    requires DistinctKeys(heads, HeadKey) && forall h :: h in heads ==> h.contentId != tip.contentId
    requires HeadIndex(heads, parent) < |heads| ==> heads[HeadIndex(heads, parent)].height + 1 == tip.height
    ensures var r, i := UpdateHeads(heads, parent, tip.contentId, tip.height), HeadIndex(heads, parent);
            && DistinctKeys(r, HeadKey) && |r| > 0
            && (forall h :: h in r <==> h == tip || (h in heads && h.contentId != parent))
            && r[0] == if heads == [] || (i < |heads| && tip.height > heads[0].height) then tip else heads[0]
  {
    var r, i := UpdateHeads(heads, parent, tip.contentId, tip.height), HeadIndex(heads, parent);
    if i < |heads| {
      var back := if r[0] == tip then 0 else i;
      assert r[back] == tip;
      forall j | 0 <= j < |heads| && j != i ensures heads[j] in r {
        assert heads[j] == r[j] || heads[j] == r[i];
      }
    } else {
      assert r == heads + [tip];
    }
  }

  lemma GrownLeaf(m: Store, n: Store, b: Block, q: Id)
    requires Tree(m) && Grown(m, n, b) && b.contentId != GENESIS_CHALLENGE && b.parent.Some?
    requires HasParentBlock(b) ==> Live(m, ParentProof(m, b))
    requires Live(n, q)
    ensures Leaf(n, q) <==> q == b.proofId || (Leaf(m, q) && !(HasParentBlock(b) && q == ParentProof(m, b)))
  {
    GrownTree(m, n, b);
    hide Tree, Grown, Live, Height, ParentOf, ParentProof, HasParentBlock;
    assert Live(n, b.proofId);
  }

  lemma GrownHead(m: Store, n: Store, b: Block, h: Head)
    requires Tree(m) && Grown(m, n, b) && b.contentId != GENESIS_CHALLENGE && b.parent.Some?
    requires HasParentBlock(b) ==> Live(m, ParentProof(m, b))
    requires HeadOk(m, h) && h.contentId != b.parent.value
    ensures HeadOk(n, h)
  {
    var q := m.proofOf[h.contentId];
    GrownTree(m, n, b);
    GrownLeaf(m, n, b, q);
  }

  lemma GrownLeafListed(c: Chain, n: Store, b: Block, heads: seq<Head>, p: Id)
    requires Tree(c.store) && HeadsOk(c) && Grown(c.store, n, b) && b.contentId != GENESIS_CHALLENGE
    requires b.parent.Some? && (HasParentBlock(b) ==> Live(c.store, ParentProof(c.store, b)))
    requires forall h :: h in c.heads && h.contentId != b.parent.value ==> h in heads
    requires Live(n, p) && Leaf(n, p) && p != b.proofId
    ensures Listed(n, heads, p)
  {
    GrownTree(c.store, n, b);
    GrownLeaf(c.store, n, b, p);
    assert Listed(c.store, c.heads, p);
  }

  /** A block whose parent is no head has a sibling, so the front head is already as high. */
  lemma SideBranchIsLower(c: Chain, b: Block)
    requires Tree(c.store) && HeadsOk(c) && HasParentBlock(b) && Live(c.store, ParentProof(c.store, b))
    requires b.proofId !in c.store.blocks
    requires HeadIndex(c.heads, b.parent.value) == |c.heads|
    ensures c.heads != [] && Height(c.store, ParentProof(c.store, b)) + 1 <= c.heads[0].height
  {
    var m, p := c.store, ParentProof(c.store, b);
    assert !Listed(c.store, c.heads, p);
    var q :| Live(m, q) && Height(m, q) > 0 && ParentOf(m, q) == p;
    assert Placed(m, q);
  }

  /** The new head tells the true height of the new block, also when it grew out of an old head. */
  lemma GrownTip(c: Chain, n: Store, b: Block)
    requires Tree(c.store) && HeadsOk(c) && Grown(c.store, n, b) && b.contentId != GENESIS_CHALLENGE
    requires b.parent.Some? && (HasParentBlock(b) ==> Live(c.store, ParentProof(c.store, b)))
    ensures var i, h := HeadIndex(c.heads, b.parent.value), Height(n, b.proofId);
            (i < |c.heads| ==> c.heads[i].height + 1 == h) && HeadOk(n, Head(h, b.contentId))
  {
    var i := HeadIndex(c.heads, b.parent.value);
    GrownTree(c.store, n, b);
    GrownLeaf(c.store, n, b, b.proofId);
    if i < |c.heads| { assert HeadOk(c.store, c.heads[i]); }
  }

  lemma GrownFront(c: Chain, n: Store, b: Block, heads: seq<Head>, p: Id)
    requires Tree(c.store) && DistinctKeys(c.heads, HeadKey) && HeadsOk(c) && Grown(c.store, n, b)
    requires b.contentId != GENESIS_CHALLENGE && b.parent.Some?
    requires HasParentBlock(b) ==> Live(c.store, ParentProof(c.store, b))
    requires heads == UpdateHeads(c.heads, b.parent.value, b.contentId, Height(n, b.proofId))
    requires forall h :: h in c.heads ==> h.contentId != b.contentId
    requires Live(n, p)
    ensures heads != [] && Height(n, p) <= heads[0].height
  {
    GrownTree(c.store, n, b);
    GrownTip(c, n, b);
    UpdatedHeads(c.heads, b.parent.value, Head(Height(n, b.proofId), b.contentId));
    hide Tree, Leaf, Grown, HeadOk, UpdateHeads, Live, Height;
    if HasParentBlock(b) && HeadIndex(c.heads, b.parent.value) == |c.heads| {
      SideBranchIsLower(c, b);
    }
  }

  lemma GrownHeads(c: Chain, n: Store, b: Block, heads: seq<Head>)
    requires Tree(c.store) && DistinctKeys(c.heads, HeadKey) && HeadsOk(c) && Grown(c.store, n, b)
    requires b.contentId != GENESIS_CHALLENGE && b.parent.Some?
    requires HasParentBlock(b) ==> Live(c.store, ParentProof(c.store, b))
    requires heads == UpdateHeads(c.heads, b.parent.value, b.contentId, Height(n, b.proofId))
    ensures DistinctKeys(heads, HeadKey)
    ensures forall h :: h in heads ==> HeadOk(n, h)
    ensures forall p :: Live(n, p) && Leaf(n, p) ==> Listed(n, heads, p)
    ensures forall p :: Live(n, p) ==> heads != [] && Height(n, p) <= heads[0].height
  {
    assert forall h :: h in c.heads ==> HeadOk(c.store, h);
    assert forall h :: h in c.heads ==> h.contentId != b.contentId;
    GrownTip(c, n, b);
    var tip := Head(Height(n, b.proofId), b.contentId);
    UpdatedHeads(c.heads, b.parent.value, tip);
    assert Listed(n, heads, b.proofId) by { assert tip in heads; }
    hide Leaf, Tree, UpdateHeads, HeadOk, Grown, Live, Height, Listed, ParentProof, HeadIndex, DistinctKeys;
    forall h | h in heads ensures HeadOk(n, h) {
      if h != tip { GrownHead(c.store, n, b, h); }
    }
    forall p | Live(n, p) && Leaf(n, p) ensures Listed(n, heads, p) {
      if p != b.proofId { GrownLeafListed(c, n, b, heads, p); }
    }
    forall p | Live(n, p) ensures heads != [] && Height(n, p) <= heads[0].height {
      GrownFront(c, n, b, heads, p);
    }
  }

  // ----- what the guard buys

  /** No live block is more than the confirmation depth above the parent of the new block. */
  ghost predicate NearTop(m: Store, b: Block) {
    HasParentBlock(b) ==>
      Live(m, ParentProof(m, b))
      && forall z :: Live(m, z) ==> Height(m, z) <= Height(m, ParentProof(m, b)) + CONFIRMATION_DEPTH
  }

  /** A parent that passes the guard is the confirmed tip of its root or descends from it. */
  lemma GuardSoundness(m: Store, confirmed: set<Id>, b: Block, x: Id)
    requires Tree(m) && ConfirmedBuried(m, confirmed) && NoRivals(m, confirmed)
    requires HasParentBlock(b) && NearTop(m, b)
    requires x in confirmed && Root(m, x) == Root(m, ParentProof(m, b))
    ensures Under(m, ParentProof(m, b), x)
  {
    var p := ParentProof(m, b);
    assert SameLine(m, x, p);
    assert Buried(m, x);
  }

  lemma GrownAnc(m: Store, n: Store, b: Block, y: Id, h: nat)
    requires Tree(m) && Grown(m, n, b) && b.contentId != GENESIS_CHALLENGE && NearTop(m, b)
    ensures Live(m, y) ==> AncAt(n, y, h) == AncAt(m, y, h) && Height(n, y) == Height(m, y)
    ensures HasParentBlock(b) && h <= Height(m, ParentProof(m, b)) ==>
              AncAt(n, b.proofId, h) == AncAt(m, ParentProof(m, b), h)
    ensures !HasParentBlock(b) ==> AncAt(n, b.proofId, h) == b.proofId
  {
    GrownTree(m, n, b);
    if Live(m, y) { AncKept(m, n, {}, y, h); }
    if HasParentBlock(b) { AncKept(m, n, {}, ParentProof(m, b), h); }
  }

  lemma GrownBuried(m: Store, n: Store, b: Block, confirmed: set<Id>)
    requires Tree(m) && Grown(m, n, b) && b.contentId != GENESIS_CHALLENGE && NearTop(m, b)
    requires ConfirmedBuried(m, confirmed)
    ensures ConfirmedBuried(n, confirmed)
  {
    GrownTree(m, n, b);
    forall x | x in confirmed ensures Live(n, x) && Buried(n, x) {
      var y :| Live(m, y) && Root(m, y) == Root(m, x) && Height(m, y) >= Height(m, x) + CONFIRMATION_DEPTH;
      GrownAnc(m, n, b, x, 0);
      GrownAnc(m, n, b, y, 0);
    }
  }

  lemma GrownDeep(m: Store, n: Store, b: Block, confirmed: set<Id>, y: Id)
    requires Tree(m) && Grown(m, n, b) && b.contentId != GENESIS_CHALLENGE && NearTop(m, b)
    requires Live(m, y) && DeepConfirmed(m, confirmed, y)
    ensures DeepConfirmed(n, confirmed, y)
  {
    forall k: nat | k + CONFIRMATION_DEPTH <= Height(n, y) ensures AncAt(n, y, k) in confirmed {
      GrownAnc(m, n, b, y, k);
    }
  }

  lemma GrownUnder(m: Store, n: Store, b: Block, y: Id, x: Id)
    requires Tree(m) && Grown(m, n, b) && b.contentId != GENESIS_CHALLENGE && NearTop(m, b)
    requires Under(m, y, x)
    ensures Under(n, y, x)
    ensures HasParentBlock(b) && y == ParentProof(m, b) ==> Under(n, b.proofId, x)
  {
    GrownTree(m, n, b);
    GrownAnc(m, n, b, y, Height(m, x));
  }

  lemma GrownNoRivals(m: Store, n: Store, b: Block, confirmed: set<Id>)
    requires Tree(m) && Grown(m, n, b) && b.contentId != GENESIS_CHALLENGE && NearTop(m, b)
    requires b.parent.Some? && ConfirmedBuried(m, confirmed) && NoRivals(m, confirmed)
    ensures NoRivals(n, confirmed)
  {
    GrownTree(m, n, b);
    forall x, y | x in confirmed && Live(n, y) && Root(n, x) == Root(n, y) ensures SameLine(n, x, y) {
      GrownAnc(m, n, b, x, 0);
      GrownAnc(m, n, b, y, 0);
      if y == b.proofId {
        AncLive(m, x, 0);
        GuardSoundness(m, confirmed, b, x);
        GrownUnder(m, n, b, ParentProof(m, b), x);
      } else {
        assert SameLine(m, x, y);
        if Under(m, y, x) { GrownUnder(m, n, b, y, x); } else { GrownUnder(m, n, b, x, y); }
      }
    }
  }
}
