/** What every guarded run of the node makes final. */
module Finality {
  import opened Basics
  import opened MetaBlocks
  import opened Forks
  import opened ForkChoice
  import opened Staging
  import opened Confirmation

  // ----- one step

  /** Staging a fresh guarded block never panics, keeps the invariant and unsettles nothing confirmed. */
  lemma StageKeepsInv(c: Chain, b: Block)
    requires Inv(c) && Fresh(c, b) && Guarded(c, b)
    ensures StageOnChain(c, b, true).Ok?
    ensures Inv(StageOnChain(c, b, true).value) && Settles(c, StageOnChain(c, b, true).value)
  {
    hide Inv, Fresh, Staged, Grown, ConfirmOnChain, KDeep, Settles, Attach, ConfirmedBuried, After, Confirming, Tree;
    AttachStaged(c, b);
    var d, top := Attach(c, b).value.0, b.proofId;
    StagedFacts(c, b, d);
    KDeepIsTarget(d, d.store, b);
    if !Pending(d, top) {
      StagedInv(d, top);
      GrowthSettles(c, d, b, d);
    } else if Height(d.store, top) == CONFIRMATION_DEPTH {
      ConfirmRootKeepsInv(d, top);
      ConfirmSettles(d, top, Confirming(d, top));
      GrowthSettles(c, d, b, Confirming(d, top));
    } else {
      ConfirmPrunesRivals(d, top);
      ConfirmKeepsInv(d, top);
      ConfirmSettles(d, top, After(d, top));
      GrowthSettles(c, d, b, After(d, top));
    }
  }

  lemma StagedFacts(c: Chain, b: Block, d: Chain)
    requires Inv(c) && Staged(d, b.proofId) && Grown(c.store, d.store, b) && d.confirmed == c.confirmed
    ensures Tree(d.store) && b.proofId in d.store.blocks && d.store.blocks[b.proofId].block == b
    ensures ConfirmedBuried(d.store, d.confirmed) && Settles(d, d)
    ensures forall x :: x in c.confirmed ==> x in c.store.blocks
    ensures forall p :: p in d.store.blocks ==> d.store.blocks[p].block.proofId == p
  {
    hide Kids, HeadsOk, NoRivals, DeepConfirmed, SlotsOk, ParentsList, Buried;
  }

  // ----- tx blocks leave the tree alone

  /** The same proposer blocks, with the same parents, heights and children. */
  ghost predicate SameForest(m: Store, n: Store) {
    forall z :: (Live(n, z) <==> Live(m, z)) && (Live(m, z) ==>
      && n.blocks[z].block == m.blocks[z].block && Height(n, z) == Height(m, z)
      && ParentOf(n, z) == ParentOf(m, z) && Children(n, z) == Children(m, z))
  }

  lemma SameForestAnc(m: Store, n: Store, y: Id, h: nat)
    requires Tree(m) && SameForest(m, n) && Live(m, y)
    ensures AncAt(n, y, h) == AncAt(m, y, h)
  {
    AncKept(m, n, {}, y, h);
  }

  lemma SameForestConfirmed(m: Store, n: Store, confirmed: set<Id>)
    requires Tree(m) && SameForest(m, n) && ConfirmedBuried(m, confirmed) && NoRivals(m, confirmed)
    requires forall y :: Live(m, y) ==> DeepConfirmed(m, confirmed, y)
    ensures ConfirmedBuried(n, confirmed) && NoRivals(n, confirmed)
    ensures forall y :: Live(n, y) ==> DeepConfirmed(n, confirmed, y)
  {
    hide Tree, AncAt;
    forall y, h | Live(m, y) ensures AncAt(n, y, h) == AncAt(m, y, h) { SameForestAnc(m, n, y, h); }
    forall x | x in confirmed ensures Buried(n, x) {
      var y :| Live(m, y) && Root(m, y) == Root(m, x) && Height(m, y) >= Height(m, x) + CONFIRMATION_DEPTH;
      assert Live(n, y) && Root(n, y) == Root(n, x);
    }
    forall y | Live(n, y) ensures DeepConfirmed(n, confirmed, y) {
      assert DeepConfirmed(m, confirmed, y);
    }
    forall x, y | x in confirmed && Live(n, y) && Root(n, x) == Root(n, y) ensures SameLine(n, x, y) {
      assert SameLine(m, x, y);
    }
  }

  lemma SameForestKids(m: Store, n: Store, b: Block, confirmed: set<Id>)
    requires Tree(m) && SameForest(m, n) && Kids(m, confirmed) && n.blocks.Keys == m.blocks.Keys + {b.proofId}
    requires forall x :: x in m.blocks ==> b.proofId !in Children(m, x)
    ensures Kids(n, confirmed)
  {
    forall x | Live(n, x) ensures KidsOf(n, confirmed, x) {
      assert KidsOf(m, confirmed, x);
      if Height(m, x) > 0 { ChildShape(m, x); }
      forall k | k in Children(n, x) ensures ChildOk(n, confirmed, x, k) {
        assert ChildOk(m, confirmed, x, k);
      }
    }
  }

  lemma SameForestHeads(c: Chain, n: Store)
    requires SameForest(c.store, n) && HeadsOk(c)
    requires forall x :: x in c.store.proofOf ==> x in n.proofOf && n.proofOf[x] == c.store.proofOf[x]
    ensures forall d: Chain :: d.store == n && d.heads == c.heads ==> HeadsOk(d)
  {
    assert forall p :: Live(n, p) ==> (Leaf(n, p) <==> Leaf(c.store, p));
    forall h | h in c.heads ensures HeadOk(n, h) { assert HeadOk(c.store, h); }
    forall p | Live(n, p) && Leaf(n, p) ensures Listed(n, c.heads, p) { assert Listed(c.store, c.heads, p); }
  }

  /** Staging a fresh tx block keeps the invariant and every confirmed block. */
  lemma TxBlockKeepsInv(c: Chain, b: Block)
    requires Inv(c) && Fresh(c, b) && b.parent.None?
    ensures Attach(c, b).Ok? && Inv(Attach(c, b).value.0) && Settles(c, Attach(c, b).value.0)
  {
    hide HeadsOk, Kids, ConfirmedBuried, NoRivals, DeepConfirmed, SlotsOk, DistinctKeys, KeepsAncestry, Saved;
    SaveGrows(c.store, b);
    var d := Attach(c, b).value.0;
    GrownTree(c.store, d.store, b);
    TxBlockForest(c, b, d.store);
    SameForestConfirmed(c.store, d.store, c.confirmed);
    SameForestKids(c.store, d.store, b, c.confirmed);
    SameForestHeads(c, d.store);
    GrownSlots(c, d.store, b, d);
    KidsAreListed(d.store, c.confirmed);
    ConfirmedStored(c);
  }

  lemma TxBlockForest(c: Chain, b: Block, n: Store)
    requires Tree(c.store) && Grown(c.store, n, b) && b.parent.None? && b.contentId != GENESIS_CHALLENGE
    ensures SameForest(c.store, n)
  {
    hide Tree;
    GrownTree(c.store, n, b);
  }

  lemma InvLinked(c: Chain)
    requires Inv(c)
    ensures c.store.Linked()
  {
    hide SlotsOk, ParentsList, Kids, HeadsOk, ConfirmedBuried, NoRivals, DeepConfirmed, Placed;
  }

  lemma ConfirmedStored(c: Chain)
    requires Inv(c)
    ensures forall x :: x in c.confirmed ==> Live(c.store, x)
  {
    hide Indexed, Kids, HeadsOk, NoRivals, DeepConfirmed, Buried;
  }

  // ----- admission of a block

  datatype Verdict = Accepted | Rejected | Aborted

  /** The parent checks on a block received by gossip or arriving at its timeslot. */
  function CheckParent(c: Chain, b: Block): (v: Verdict) {
    if !HasParentBlock(b) then Accepted
    else
      match c.store.Lookup(b.parent.value)
      case None => Aborted
      case Some(parent) =>
        if parent.block.timeslot >= b.timeslot then Rejected
        else if c.heads == [] then Aborted
        else if parent.height + CONFIRMATION_DEPTH < c.heads[0].height then Rejected
        else Accepted
  }

  /** The parent a locally farmed proposer block takes; never a block it farmed in the same timeslot. */
  function LocalParent(c: Chain, siblings: set<Id>): (r: Outcome<Id>) {
    var head := if c.heads == [] then GENESIS_CHALLENGE else c.heads[0].contentId;
    if head !in siblings then Ok(head)
    else
      match c.store.Lookup(head)
      case None => Panic
      case Some(mb) => if mb.block.parent.None? then Panic else Ok(mb.block.parent.value)
  }

  /** A known parent is a proposer block. */
  ghost predicate ProposerParent(c: Chain, b: Block) {
    HasParentBlock(b) && b.parent.value in c.store.proofOf ==> Live(c.store, c.store.proofOf[b.parent.value])
  }

  /** The checks admit exactly the blocks within the depth guard whose parent is from an earlier timeslot. */
  lemma AcceptedIffGuarded(c: Chain, b: Block)
    requires c.store.Linked() && b.parent.Some? && ProposerParent(c, b)
    ensures CheckParent(c, b) == Accepted <==>
            Guarded(c, b) && (HasParentBlock(b) ==> c.store.blocks[ParentProof(c.store, b)].block.timeslot < b.timeslot)
  {
  }

  /**
   * A locally farmed block extends a highest live block, the one at the front, or that
   * block's parent when the farmer made it in the same timeslot; without blocks, genesis.
   */
  lemma LocalParentIsFront(c: Chain, siblings: set<Id>)
    requires Inv(c) && GENESIS_CHALLENGE !in siblings
    ensures c.heads == [] ==> LocalParent(c, siblings) == Ok(GENESIS_CHALLENGE) && forall p :: !Live(c.store, p)
    ensures c.heads != [] ==>
              && c.heads[0].contentId in c.store.proofOf
              && var p := c.store.proofOf[c.heads[0].contentId];
                 && Live(c.store, p) && (forall q :: Live(c.store, q) ==> Height(c.store, q) <= Height(c.store, p))
                 && var b := c.store.blocks[p].block;
                    LocalParent(c, siblings) == Ok(if b.contentId in siblings then b.parent.value else b.contentId)
  {
    hide SlotsOk, ParentsList, Kids, ConfirmedBuried, NoRivals, DeepConfirmed, Leaf, Placed;
    if c.heads != [] {
      assert HeadOk(c.store, c.heads[0]);
    }
  }

  /** Farming on the own head needs no check: the parent exists and is never too deep. */
  lemma LocalParentIsGuarded(c: Chain, siblings: set<Id>, b: Block)
    requires Inv(c) && GENESIS_CHALLENGE !in siblings
    ensures LocalParent(c, siblings).Ok?
    ensures b.parent == Some(LocalParent(c, siblings).value) ==> Guarded(c, b)
  {
    hide SlotsOk, ParentsList, Kids, ConfirmedBuried, NoRivals, DeepConfirmed, Leaf;
    if c.heads != [] {
      assert HeadOk(c.store, c.heads[0]);
      var p := c.store.proofOf[c.heads[0].contentId];
      assert Placed(c.store, p);
    }
  }

  /** Of a root's highest block, exactly the ancestors at the confirmation depth or below are confirmed, and
      every other live block of that root descends from the highest of them. */
  lemma ConfirmedPath(c: Chain, t: Id, x: Id)
    requires Inv(c) && Live(c.store, t) && Live(c.store, x) && Root(c.store, x) == Root(c.store, t)
    requires Height(c.store, t) >= CONFIRMATION_DEPTH
    requires forall y :: Live(c.store, y) && Root(c.store, y) == Root(c.store, t) ==>
               Height(c.store, y) <= Height(c.store, t)
    ensures var tip := AncAt(c.store, t, Height(c.store, t) - CONFIRMATION_DEPTH);
            && tip in c.confirmed && Height(c.store, tip) == Height(c.store, t) - CONFIRMATION_DEPTH
            && (x in c.confirmed <==> Under(c.store, tip, x))
            && (x in c.confirmed || Under(c.store, x, tip))
  {
    hide SlotsOk, ParentsList, HeadsOk, Kids, Tree, AncAt, DeepConfirmed;
    var m, h := c.store, Height(c.store, t) - CONFIRMATION_DEPTH;
    var tip := AncAt(m, t, h);
    ConfirmedPathTip(c, t);
    assert SameLine(m, tip, x);
    if Under(m, tip, x) {
      ConfirmedBelowTip(c, t, x);
    } else if x in c.confirmed {
      assert Buried(m, x);
      ConfirmedPathSame(m, x, tip);
    }
  }

  lemma ConfirmedBelowTip(c: Chain, t: Id, x: Id)
    requires Inv(c) && Live(c.store, t) && Height(c.store, t) >= CONFIRMATION_DEPTH
    requires Under(c.store, AncAt(c.store, t, Height(c.store, t) - CONFIRMATION_DEPTH), x)
    requires Height(c.store, x) <= Height(c.store, t) - CONFIRMATION_DEPTH
    ensures x in c.confirmed
  {
    hide SlotsOk, ParentsList, HeadsOk, Kids, NoRivals, ConfirmedBuried, AncAt, Tree;
    AncCompose(c.store, t, Height(c.store, t) - CONFIRMATION_DEPTH, Height(c.store, x));
    assert DeepConfirmed(c.store, c.confirmed, t);
  }

  lemma ConfirmedPathTip(c: Chain, t: Id)
    requires Inv(c) && Live(c.store, t) && Height(c.store, t) >= CONFIRMATION_DEPTH
    ensures var tip := AncAt(c.store, t, Height(c.store, t) - CONFIRMATION_DEPTH);
            && Tree(c.store) && tip in c.confirmed && Live(c.store, tip) && Root(c.store, tip) == Root(c.store, t)
            && Height(c.store, tip) == Height(c.store, t) - CONFIRMATION_DEPTH && Under(c.store, tip, tip)
  {
    hide SlotsOk, ParentsList, HeadsOk, Kids, ConfirmedBuried, NoRivals;
    var h := Height(c.store, t) - CONFIRMATION_DEPTH;
    assert DeepConfirmed(c.store, c.confirmed, t);
    AncLive(c.store, t, h);
    AncCompose(c.store, t, h, 0);
  }

  lemma ConfirmedPathSame(m: Store, x: Id, tip: Id)
    requires Under(m, x, tip) && Height(m, x) <= Height(m, tip)
    ensures x == tip
  {
  }

  /** A parent that passes the guard is the confirmed tip of its root or descends from it. */
  lemma GuardedParentIsAboveTip(c: Chain, b: Block, t: Id)
    requires Inv(c) && Guarded(c, b) && HasParentBlock(b)
    requires Live(c.store, t) && Height(c.store, t) >= CONFIRMATION_DEPTH
    requires Root(c.store, t) == Root(c.store, ParentProof(c.store, b))
    ensures Under(c.store, ParentProof(c.store, b), AncAt(c.store, t, Height(c.store, t) - CONFIRMATION_DEPTH))
  {
    hide SlotsOk, ParentsList, Kids, DeepConfirmed, AncAt, Leaf;
    ConfirmedPathTip(c, t);
    GuardNearTop(c, b);
    GuardSoundness(c.store, c.confirmed, b, AncAt(c.store, t, Height(c.store, t) - CONFIRMATION_DEPTH));
  }

  const EMPTY_CHAIN := Chain(Store(map[], map[]), map[], [], {})

  lemma EmptyInv()
    ensures Inv(EMPTY_CHAIN)
  {
  }

  /** Settling composes along a run. */
  lemma SettlesTrans(c: Chain, d: Chain, e: Chain)
    requires Settles(c, d) && Settles(d, e)
    ensures Settles(c, e)
  {
  }

  // ----- the timeslot index

  function BlocksAt(m: Store, ids: seq<Id>): (r: Outcome<seq<Block>>) {
    if ids == [] then Ok([])
    else if ids[0] !in m.blocks then Panic
    else
      match BlocksAt(m, ids[1..])
      case Panic => Panic
      case Ok(rest) => Ok([m.blocks[ids[0]].block] + rest)
  }

  /** All blocks seen for a timeslot. */
  function BlocksByTimeslot(c: Chain, t: nat): (r: Outcome<seq<Block>>) {
    if t in c.slots then BlocksAt(c.store, c.slots[t]) else Ok([])
  }

  lemma {:induction false} BlocksAtShape(m: Store, ids: seq<Id>)
    requires forall p :: p in ids ==> p in m.blocks
    ensures BlocksAt(m, ids).Ok? && |BlocksAt(m, ids).value| == |ids|
    ensures forall k :: 0 <= k < |ids| ==> BlocksAt(m, ids).value[k] == m.blocks[ids[k]].block
  {
    if ids != [] { BlocksAtShape(m, ids[1..]); }
  }

  /** The lookup by timeslot never misses: it returns exactly the live blocks of that slot, each once. */
  lemma BlocksByTimeslotIsExact(c: Chain, t: nat)
    requires Inv(c)
    ensures BlocksByTimeslot(c, t).Ok? && NoDup(BlocksByTimeslot(c, t).value)
    ensures forall b :: b in BlocksByTimeslot(c, t).value <==>
              b.proofId in c.store.blocks && c.store.blocks[b.proofId].block == b && b.timeslot == t
  {
    hide Kids, HeadsOk, ConfirmedBuried, NoRivals, DeepConfirmed, ParentsList, Placed;
    var m, ids := c.store, if t in c.slots then c.slots[t] else [];
    assert t in c.slots ==> SlotOk(m, t, ids);
    BlocksAtShape(m, ids);
    var r := BlocksAt(m, ids).value;
    assert t !in c.slots ==> r == [];
    forall p | p in m.blocks && m.blocks[p].block.timeslot == t ensures p in ids {
      assert Filed(c.slots, m.blocks[p].block);
    }
  }
}
