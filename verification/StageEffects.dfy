/** Exactly what staging a guarded proposer block does to the chain. */
module StageEffects {
  import opened Basics
  import opened MetaBlocks
  import opened Forks
  import opened ForkChoice
  import opened Staging
  import opened Confirmation
  import opened Finality

  /** A live block of the same root that lies on another branch than `x`. */
  ghost predicate Conflicts(m: Store, x: Id, y: Id) {
    Live(m, y) && Root(m, y) == Root(m, x) && !SameLine(m, x, y)
  }

  // ----- the front head

  /** The longest chain leads, the first seen among equals: only a strictly higher block takes the front. */
  ghost function NextFront(heads: seq<Head>, tip: Head): (h: Head) {
    if heads == [] || tip.height > heads[0].height then tip else heads[0]
  }

  lemma AttachedFront(c: Chain, b: Block)
    requires Inv(c) && Fresh(c, b) && Guarded(c, b)
    ensures Attach(c, b).Ok?
    ensures var d := Attach(c, b).value.0;
            d.heads != [] && d.heads[0] == NextFront(c.heads, Head(Height(d.store, b.proofId), b.contentId))
  {
    hide SlotsOk, ParentsList, Kids, ConfirmedBuried, NoRivals, DeepConfirmed, Saved, UpdateHeads, Leaf, AddToSlot;
    SaveGrows(c.store, b);
    var d := Attach(c, b).value.0;
    var tip := Head(Height(d.store, b.proofId), b.contentId);
    assert Saved(c.store, b).value.1 == d.store.blocks[b.proofId];
    forall h | h in c.heads ensures h.contentId != b.contentId {
      assert HeadOk(c.store, h);
    }
    GrownTip(c, d.store, b);
    UpdatedHeads(c.heads, b.parent.value, tip);
    if HasParentBlock(b) && HeadIndex(c.heads, b.parent.value) == |c.heads| {
      SideBranchIsLower(c, b);
    }
    if !HasParentBlock(b) {
      assert tip.height == 0;
    }
  }

  // ----- the store

  /** What staging confirms: the ancestor of the new block at the confirmation depth, if there is one. */
  ghost function Confirms(m: Store, top: Id): (r: set<Id>) {
    if Height(m, top) >= CONFIRMATION_DEPTH then {AncAt(m, top, Height(m, top) - CONFIRMATION_DEPTH)} else {}
  }

  /** A block goes when it conflicts with a block confirmed now. */
  ghost predicate Goes(c: Chain, m: Store, top: Id, y: Id) {
    exists x :: x in Confirms(m, top) - c.confirmed && Conflicts(m, x, y)
  }

  lemma DoomedIffConflicts(c: Chain, top: Id, y: Id)
    requires Pending(c, top) && Height(c.store, top) > CONFIRMATION_DEPTH
    ensures y in Doomed(c, top) <==> Conflicts(c.store, Target(c, top), y)
  {
    hide Staged, Below, Root, Rivals;
    TargetShape(c, top);
    if y in Doomed(c, top) {
      DoomedShape(c, top, y);
      if Under(c.store, Target(c, top), y) {
        UnderTrans(c.store, top, Target(c, top), y);
      }
    } else if Live(c.store, y) && Root(c.store, y) == Root(c.store, Target(c, top)) {
      SurvivorOnLine(c, top, y);
    }
  }

  /** Nothing conflicts with a root. */
  lemma RootConflictsNothing(m: Store, x: Id, y: Id)
    requires Tree(m) && Live(m, x) && Height(m, x) == 0
    ensures !Conflicts(m, x, y)
  {
    if Live(m, y) && Root(m, y) == Root(m, x) {
      AncLive(m, y, 0);
    }
  }

  /** The blocks that remain are all but those that go; each keeps its data, and the slots keep their order. */
  ghost predicate Remains(c: Chain, d: Chain, e: Chain, top: Id) {
    && (forall p :: p in e.store.blocks <==> p in d.store.blocks && !Goes(c, d.store, top, p))
    && (forall p :: p in e.store.blocks ==> e.store.blocks[p] == d.store.blocks[p])
    && e.slots.Keys == d.slots.Keys
    && (forall t :: t in d.slots ==> e.slots[t] == Keep(d.slots[t], Self, d.store.blocks.Keys - e.store.blocks.Keys))
  }

  lemma NothingGoes(c: Chain, d: Chain, e: Chain, top: Id)
    requires e.store == d.store && e.slots == d.slots && forall p :: !Goes(c, d.store, top, p)
    ensures Remains(c, d, e, top)
  {
    assert d.store.blocks.Keys - e.store.blocks.Keys == {};
    forall t | t in d.slots ensures Keep(d.slots[t], Self, {}) == d.slots[t] {
      KeepAll(d.slots[t], Self, {});
    }
  }

  lemma GoesIffDoomed(c: Chain, d: Chain, top: Id, p: Id)
    requires Pending(d, top) && Height(d.store, top) > CONFIRMATION_DEPTH && d.confirmed == c.confirmed
    ensures Goes(c, d.store, top, p) <==> p in Doomed(d, top)
    ensures p in Doomed(d, top) ==> p in d.store.blocks
  {
    hide Staged, AncAt, Conflicts, Doomed;
    var a := Target(d, top);
    assert Confirms(d.store, top) - c.confirmed == {a};
    DoomedIffConflicts(d, top, p);
    if p in Doomed(d, top) {
      DoomedShape(d, top, p);
      assert a in Confirms(d.store, top) - c.confirmed;
    }
  }

  lemma WithoutRemains(c: Chain, d: Chain, e: Chain, top: Id, out: set<Id>)
    requires e.store.blocks == d.store.blocks - out && e.slots == WithoutSlots(d.slots, out)
    requires out <= d.store.blocks.Keys && forall p :: Goes(c, d.store, top, p) <==> p in out
    ensures Remains(c, d, e, top)
  {
    hide Goes, Keep;
    assert d.store.blocks.Keys - e.store.blocks.Keys == out;
  }

  lemma RivalsGo(c: Chain, d: Chain, top: Id)
    requires Pending(d, top) && Height(d.store, top) > CONFIRMATION_DEPTH && d.confirmed == c.confirmed
    ensures Remains(c, d, After(d, top), top)
  {
    hide Pending, Goes, Doomed, Remains, Keep, Contents;
    forall p ensures Goes(c, d.store, top, p) <==> p in Doomed(d, top)
      ensures p in Doomed(d, top) ==> p in d.store.blocks
    {
      GoesIffDoomed(c, d, top, p);
    }
    WithoutRemains(c, d, After(d, top), top, Doomed(d, top));
  }

  ghost function SlotAt(slots: map<nat, seq<Id>>, t: nat): (s: seq<Id>) {
    if t in slots then slots[t] else []
  }

  /** The timeslot index with one more block, last in its slot. */
  ghost predicate Appended(before: map<nat, seq<Id>>, after: map<nat, seq<Id>>, b: Block) {
    forall t :: SlotAt(after, t) == SlotAt(before, t) + if t == b.timeslot then [b.proofId] else []
  }

  lemma AddAppends(c: Chain, b: Block)
    ensures Appended(c.slots, AddToSlot(c.slots, b.timeslot, b.proofId), b)
  {
  }

  /**
   * The effect of staging a proposer block: it is attached to its parent and comes last
   * in its slot; exactly its ancestor at the confirmation depth is confirmed; exactly the
   * blocks of that root that conflict with it go, if it was not confirmed before; and the
   * front head moves only to a strictly higher block.
   */
  ghost predicate ProposerEffect(c: Chain, e: Chain, b: Block) {
    exists d: Chain :: Attached(c, d, b) && Resolved(c, d, e, b)
  }

  ghost predicate Attached(c: Chain, d: Chain, b: Block) {
    Grown(c.store, d.store, b) && Appended(c.slots, d.slots, b)
  }

  ghost predicate Resolved(c: Chain, d: Chain, e: Chain, b: Block) {
    && Remains(c, d, e, b.proofId) && b.proofId in e.store.blocks
    && e.confirmed == c.confirmed + Confirms(d.store, b.proofId)
    && e.heads != [] && e.heads[0] == NextFront(c.heads, Head(Height(d.store, b.proofId), b.contentId))
  }

  lemma StageDoes(c: Chain, b: Block)
    requires Inv(c) && Fresh(c, b) && Guarded(c, b)
    ensures StageOnChain(c, b, true).Ok? && ProposerEffect(c, StageOnChain(c, b, true).value, b)
  {
    hide Inv, Fresh, Staged, Grown, ConfirmOnChain, KDeep, After, Tree, Remains, AncAt, AddToSlot, UpdateHeads, Saved,
         Appended;
    AttachStaged(c, b);
    AttachedFront(c, b);
    AddAppends(c, b);
    var d, top := Attach(c, b).value.0, b.proofId;
    StagedFacts(c, b, d);
    KDeepIsTarget(d, d.store, b);
    if !Pending(d, top) {
      NothingConfirmed(c, d, top);
    } else if Height(d.store, top) == CONFIRMATION_DEPTH {
      RootConfirmed(c, d, top);
    } else {
      ConfirmPrunesRivals(d, top);
      RivalsGo(c, d, top);
      AfterFront(d, top);
      AfterConfirms(c, d, top);
    }
    assert Attached(c, d, b) && Resolved(c, d, StageOnChain(c, b, true).value, b);
  }

  /** The effect of staging a tx block: it is stored and comes last in its slot, and nothing else changes. */
  ghost predicate TxEffect(c: Chain, e: Chain, b: Block) {
    Attached(c, e, b) && e.heads == c.heads && e.confirmed == c.confirmed
  }

  lemma TxStageDoes(c: Chain, b: Block)
    requires Inv(c) && Fresh(c, b) && b.parent.None?
    ensures Attach(c, b).Ok? && TxEffect(c, Attach(c, b).value.0, b)
  {
    hide SlotsOk, ParentsList, Kids, HeadsOk, ConfirmedBuried, NoRivals, DeepConfirmed, Saved, AddToSlot, Placed;
    SaveGrows(c.store, b);
    AddAppends(c, b);
  }

  lemma NothingConfirmed(c: Chain, d: Chain, top: Id)
    requires Staged(d, top) && !Pending(d, top) && d.confirmed == c.confirmed
    ensures Remains(c, d, d, top) && d.confirmed == c.confirmed + Confirms(d.store, top)
  {
    hide Staged, Conflicts;
    assert Confirms(d.store, top) - c.confirmed == {};
    NothingGoes(c, d, d, top);
  }

  lemma RootConfirmed(c: Chain, d: Chain, top: Id)
    requires Pending(d, top) && Height(d.store, top) == CONFIRMATION_DEPTH && d.confirmed == c.confirmed
    requires top in d.store.blocks
    ensures Target(d, top) in d.store.blocks
    ensures ConfirmOnChain(d, d.store.blocks[Target(d, top)]) == Ok(Confirming(d, top))
    ensures Remains(c, d, Confirming(d, top), top)
    ensures Confirming(d, top).confirmed == c.confirmed + Confirms(d.store, top)
  {
    hide Staged, AncAt, Conflicts, Remains;
    TargetShape(d, top);
    assert d.store.blocks[Target(d, top)].block.proofId == Target(d, top);
    forall p ensures !Goes(c, d.store, top, p) {
      RootConflictsNothing(d.store, Target(d, top), p);
    }
    NothingGoes(c, d, Confirming(d, top), top);
  }

  lemma AfterConfirms(c: Chain, d: Chain, top: Id)
    requires Pending(d, top) && Height(d.store, top) > CONFIRMATION_DEPTH && d.confirmed == c.confirmed
    requires top in d.store.blocks
    ensures top in After(d, top).store.blocks
    ensures After(d, top).confirmed == c.confirmed + Confirms(d.store, top)
  {
    hide Staged, AncAt, Doomed;
    if top in Doomed(d, top) {
      DoomedShape(d, top, top);
    }
  }
}
