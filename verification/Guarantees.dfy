/** What a user of the node may rely on in every guarded run. */
module Guarantees {
  import opened Basics
  import opened MetaBlocks
  import opened Forks
  import opened ForkChoice
  import opened Staging
  import opened Finality
  import opened StageEffects
  import opened LedgerRuns

  function HeadOf(m: Store, p: Id): (h: Head)
    requires p in m.blocks
  {
    Head(Height(m, p), m.blocks[p].block.contentId)
  }

  /** A head names a live childless block and tells its true height. */
  ghost predicate HeadIsLeaf(m: Store, h: Head) {
    && h.contentId in m.proofOf
    && var p := m.proofOf[h.contentId];
       Live(m, p) && Leaf(m, p) && h == HeadOf(m, p)
  }

  lemma InvHeads(c: Chain, p: Id)
    requires Inv(c) && Live(c.store, p)
    ensures Leaf(c.store, p) <==> HeadOf(c.store, p) in c.heads
    ensures c.heads != [] && Height(c.store, p) <= c.heads[0].height
  {
    hide SlotsOk, ParentsList, Kids, ConfirmedBuried, NoRivals, DeepConfirmed, Placed;
    var m := c.store;
    if Leaf(m, p) {
      assert Listed(m, c.heads, p);
      var h :| h in c.heads && h.contentId == m.blocks[p].block.contentId;
      assert HeadOk(m, h);
    }
  }

  /**
   * The heads are exactly the childless live proposer blocks, each once and with
   * its true height, and the front one is as high as any.
   */
  lemma HeadsAreLeaves(states: seq<State>, events: seq<Event>, i: nat)
    requires GuardedRun(states, events) && i < |states|
    ensures
      var c := states[i].chain;
      && (forall p :: Live(c.store, p) ==> (Leaf(c.store, p) <==> HeadOf(c.store, p) in c.heads))
      && (forall h :: h in c.heads ==> HeadIsLeaf(c.store, h))
      && DistinctKeys(c.heads, HeadKey)
      && (forall p :: Live(c.store, p) ==> c.heads != [] && Height(c.store, p) <= c.heads[0].height)
  {
    GuardedRunIsGood(states, events, i);
    var c := states[i].chain;
    assert Inv(c);
    hide SlotsOk, ParentsList, Kids, ConfirmedBuried, NoRivals, DeepConfirmed, Placed, Leaf, GuardedRun;
    forall p | Live(c.store, p)
      ensures Leaf(c.store, p) <==> HeadOf(c.store, p) in c.heads
      ensures c.heads != [] && Height(c.store, p) <= c.heads[0].height
    {
      InvHeads(c, p);
    }
    forall h | h in c.heads ensures HeadIsLeaf(c.store, h) {
      assert HeadOk(c.store, h);
    }
  }

  /**
   * In each root's tree with a highest block at or above the confirmation depth, the
   * confirmed blocks are exactly one path up to that depth below it, and every other
   * live block descends from the tip of the path.  Only live proposer blocks are
   * confirmed, and only below a block of their root that is that much higher.
   */
  lemma OnePathIsConfirmed(states: seq<State>, events: seq<Event>, i: nat, top: Id, x: Id)
    requires GuardedRun(states, events) && i < |states|
    requires
      var c := states[i].chain;
      && Live(c.store, top) && Height(c.store, top) >= CONFIRMATION_DEPTH
      && (forall y :: Live(c.store, y) && Root(c.store, y) == Root(c.store, top) ==>
            Height(c.store, y) <= Height(c.store, top))
      && Live(c.store, x) && Root(c.store, x) == Root(c.store, top)
    ensures
      var c := states[i].chain;
      var tip := AncAt(c.store, top, Height(c.store, top) - CONFIRMATION_DEPTH);
      && tip in c.confirmed && Height(c.store, tip) == Height(c.store, top) - CONFIRMATION_DEPTH
      && (x in c.confirmed <==> Under(c.store, tip, x)) && (x in c.confirmed || Under(c.store, x, tip))
    ensures forall z :: z in states[i].chain.confirmed ==>
              Live(states[i].chain.store, z) && Buried(states[i].chain.store, z)
  {
    hide Run, Inv, Buried;
    GuardedRunIsGood(states, events, i);
    InvBuried(states[i].chain);
    ConfirmedPath(states[i].chain, top, x);
  }

  lemma InvBuried(c: Chain)
    requires Inv(c)
    ensures forall z :: z in c.confirmed ==> Live(c.store, z) && Buried(c.store, z)
  {
    hide Indexed, Kids, HeadsOk, NoRivals, DeepConfirmed, Buried;
  }

  /** A block that passes the parent checks extends the confirmed tip of its root or a descendant of it. */
  lemma AcceptedExtendsTip(states: seq<State>, events: seq<Event>, i: nat, b: Block, top: Id)
    requires GuardedRun(states, events) && i < |states|
    requires
      var c := states[i].chain;
      && HasParentBlock(b) && ProposerParent(c, b) && CheckParent(c, b) == Accepted
      && Live(c.store, top) && Height(c.store, top) >= CONFIRMATION_DEPTH
      && Root(c.store, top) == Root(c.store, ParentProof(c.store, b))
    ensures
      var c := states[i].chain;
      Under(c.store, ParentProof(c.store, b), AncAt(c.store, top, Height(c.store, top) - CONFIRMATION_DEPTH))
  {
    hide Run, Inv, CheckParent, Store.Linked;
    GuardedRunIsGood(states, events, i);
    InvLinked(states[i].chain);
    AcceptedIffGuarded(states[i].chain, b);
    GuardedParentIsAboveTip(states[i].chain, b, top);
  }

  /**
   * No admissible event ever makes the ledger abort.  The epoch tracker, which staging
   * also calls, is not part of this step; `NodeRuns.AbortsIff` adds it.
   */
  lemma NeverPanics(states: seq<State>, events: seq<Event>, e: Event)
    requires GuardedRun(states, events) && Admissible(states[|events|], e)
    ensures Step(states[|events|], e).Ok?
  {
    hide Step, Admissible;
    GuardedRunIsGood(states, events, |events|);
    StepIsGood(states[|events|], e);
  }

  /** The node can always farm on: a fresh block on its own head extends any guarded run to a longer one. */
  lemma FarmingContinues(states: seq<State>, events: seq<Event>, siblings: set<Id>, b: Block)
    requires GuardedRun(states, events) && GENESIS_CHALLENGE !in siblings
    requires LocalParent(states[|events|].chain, siblings).Ok? ==>
               b.parent == Some(LocalParent(states[|events|].chain, siblings).value)
    requires Fresh(states[|events|].chain, b) && FindsTransactions(states[|events|], b)
    ensures Step(states[|events|], ProposerBlock(b)).Ok?
    ensures GuardedRun(states + [Step(states[|events|], ProposerBlock(b)).value], events + [ProposerBlock(b)])
  {
    hide Step, Fresh, Guarded, FindsTransactions, Inv, LocalParent;
    GuardedRunIsGood(states, events, |events|);
    LocalParentIsGuarded(states[|events|].chain, siblings, b);
    StepIsGood(states[|events|], ProposerBlock(b));
  }

  /** The two block indexes are mutually inverse, heights follow parents, and the timeslot index is exact. */
  lemma IndexesAgree(states: seq<State>, events: seq<Event>, i: nat, timeslot: nat)
    requires GuardedRun(states, events) && i < |states|
    ensures
      var c := states[i].chain;
      && (forall p :: p in c.store.blocks ==>
            && c.store.blocks[p].block.proofId == p && c.store.blocks[p].block.contentId in c.store.proofOf
            && c.store.proofOf[c.store.blocks[p].block.contentId] == p && Placed(c.store, p))
      && (forall x :: x in c.store.proofOf ==>
            c.store.proofOf[x] in c.store.blocks && c.store.blocks[c.store.proofOf[x]].block.contentId == x)
      && BlocksByTimeslot(c, timeslot).Ok? && NoDup(BlocksByTimeslot(c, timeslot).value)
      && (forall b :: b in BlocksByTimeslot(c, timeslot).value <==>
            b.proofId in c.store.blocks && c.store.blocks[b.proofId].block == b && b.timeslot == timeslot)
  {
    hide HeadsOk, ParentsList, Kids, ConfirmedBuried, NoRivals, DeepConfirmed, Run, BlocksByTimeslot;
    GuardedRunIsGood(states, events, i);
    BlocksByTimeslotIsExact(states[i].chain, timeslot);
  }

  /**
   * What each event of a guarded run does to the chain: a proposer block is attached and
   * confirms, removes and leads exactly as `ProposerEffect` says, a tx block is stored,
   * and a credit changes nothing.
   */
  lemma StepEffects(states: seq<State>, events: seq<Event>, i: nat)
    requires GuardedRun(states, events) && i < |events|
    ensures
      var c, e := states[i].chain, states[i + 1].chain;
      match events[i]
      case ProposerBlock(b) => ProposerEffect(c, e, b)
      case TxBlock(b) => TxEffect(c, e, b)
      case _ => e == c
  {
    hide Inv, StageProposer, ProposerEffect, TxEffect, Fresh, Guarded, FindsTransactions, Attach;
    GuardedRunIsGood(states, events, i);
    assert Step(states[i], events[i]) == Ok(states[i + 1]);
    assert Admissible(states[i], events[i]);
    match events[i]
    case ProposerBlock(b) =>
      StageProposerIsGood(states[i], b);
      StageDoes(states[i].chain, b);
    case TxBlock(b) => TxStageDoes(states[i].chain, b);
    case _ =>
  }

  /** The front head of a guarded run only ever gives way to a strictly higher one. */
  lemma {:induction false} FrontMovesUp(states: seq<State>, events: seq<Event>, i: nat, j: nat)
    requires GuardedRun(states, events) && i <= j < |states| && states[i].chain.heads != []
    ensures states[j].chain.heads != []
    ensures
      var front, later := states[i].chain.heads[0], states[j].chain.heads[0];
      later == front || later.height > front.height
    decreases j
  {
    hide GuardedRun, Attached, Remains;
    if i < j {
      FrontMovesUp(states, events, i, j - 1);
      assert j - 1 < |events| by { RunLength(states, events); }
      StepEffects(states, events, j - 1);
    }
  }

  lemma RunLength(states: seq<State>, events: seq<Event>)
    requires GuardedRun(states, events)
    ensures |states| == |events| + 1
  {
  }
}
