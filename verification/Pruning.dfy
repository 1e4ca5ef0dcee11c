/** Exactly when recursive pruning goes through, and when it hits the head of the longest chain. */
module Pruning {
  import opened Basics
  import opened MetaBlocks
  import opened Forks
  import opened ForkChoice

  ghost predicate IsFront(c: Chain, p: Id) {
    c.heads != [] && p in c.store.blocks && c.store.blocks[p].block.contentId == c.heads[0].contentId
  }

  ghost predicate StandingBranch(c: Chain, top: set<Id>) {
    forall y :: y in Below(c.store, top) ==> Standing(c, y)
  }

  ghost predicate HoldsFront(c: Chain, top: set<Id>) {
    exists y :: y in Below(c.store, top) && IsFront(c, y)
  }

  lemma StandingIsPrunable(c: Chain, top: set<Id>)
    requires c.heads != [] && StandingBranch(c, top) && !HoldsFront(c, top)
    ensures Branch(c, top)
  {
    forall y | y in Below(c.store, top) ensures Prunable(c, y) {
      assert Standing(c, y) && !IsFront(c, y);
    }
  }

  lemma StandingKids(c: Chain, p: Id)
    requires Indexed(c) && Live(c.store, p) && StandingBranch(c, {p})
    ensures var kids := Children(c.store, p);
            && Standing(c, p) && StandingBranch(c, Elems(kids)) && NoDup(kids)
            && (forall k :: k in kids ==> Live(c.store, k) && Height(c.store, k) == Height(c.store, p) + 1)
            && Below(c.store, {p}) == {p} + Below(c.store, Elems(kids))
            && p !in Below(c.store, Elems(kids))
            && (kids == [] ==> Below(c.store, Elems(kids)) == {})
  {
    assert Under(c.store, p, p);
    assert Standing(c, p);
    BelowOne(c.store, p);
  }

  /** The leaf at the front cannot be pruned, whatever has been taken out before. */
  lemma FrontLeafPanics(c: Chain, out: set<Id>, p: Id)
    requires Indexed(c) && Live(c.store, p) && p !in out && IsFront(c, p) && Standing(c, p) && FrontStays(c, out)
    ensures PruneBlock(Without(c, out), p).Panic?
  {
    hide SlotsOk, Placed, ParentsList, DropFromSlot, PruneBranch;
    assert Listed(c.store, c.heads, p) by { assert c.heads[0] in c.heads; }
    RemovedIsWithout(c, out, p);
    FrontIsNotPruned(c, out, p);
  }

  lemma FrontIsNotPruned(c: Chain, out: set<Id>, p: Id)
    requires DistinctKeys(c.heads, HeadKey) && IsFront(c, p) && FrontStays(c, out)
    ensures PruneBranch(Without(c, out).heads, c.store.blocks[p].block.contentId).Panic?
  {
    var before := Contents(c.store, out);
    KeepDistinct(c.heads, HeadKey, before);
    KeepFirst(c.heads, HeadKey, before);
  }

  /** Pruning a branch that carries the front head fails. */
  lemma {:induction false} PruneBlockPanics(c: Chain, out: set<Id>, p: Id)
    requires Indexed(c) && Live(c.store, p) && Untouched(c, out, {p}) && StandingBranch(c, {p})
    requires FrontStays(c, out) && HoldsFront(c, {p})
    ensures PruneBlock(Without(c, out), p).Panic?
    decreases Below(c.store, {p}), 0
  {
    hide PruneBlock, PruneBlocks, Without, Prunable, Standing, Indexed, Below, FrontStays, Live;
    var kids := Children(c.store, p);
    StandingKids(c, p);
    if IsFront(c, p) {
      FrontLeafPanics(c, out, p);
    } else {
      var y :| y in Below(c.store, {p}) && IsFront(c, y);
      assert y in Below(c.store, Elems(kids));
      InnerUnfold(c, out, p);
      BranchLeavesFrontOne(c, out, p);
      PruneBlocksPanic(c, out + {p}, kids, Height(c.store, p) + 1);
    }
  }

  lemma InnerUnfold(c: Chain, out: set<Id>, p: Id)
    requires Indexed(c) && Live(c.store, p) && p !in out && Standing(c, p) && !IsFront(c, p) && FrontStays(c, out)
    requires Children(c.store, p) != []
    ensures PruneBlock(Without(c, out), p) == PruneBlocks(Without(c, out + {p}), Children(c.store, p))
  {
    hide PruneBlock, PruneBlocks, Without, Indexed;
    assert Prunable(c, p);
    PruneBlockUnfold(c, out, p);
  }

  lemma BranchLeavesFrontOne(c: Chain, out: set<Id>, p: Id)
    requires FrontStays(c, out) && !IsFront(c, p)
    ensures FrontStays(c, out + {p})
  {
  }

  lemma {:induction false} PruneBlocksPanic(c: Chain, out: set<Id>, ids: seq<Id>, h: nat)
    requires Indexed(c) && NoDup(ids) && Untouched(c, out, Elems(ids)) && StandingBranch(c, Elems(ids))
    requires forall x :: x in ids ==> Live(c.store, x) && Height(c.store, x) == h
    requires c.heads != [] && FrontStays(c, out) && HoldsFront(c, Elems(ids))
    ensures PruneBlocks(Without(c, out), ids).Panic?
    decreases Below(c.store, Elems(ids)), |ids|
  {
    hide PruneBlock, Without, Prunable, Standing, FrontStays, SlotsOk, Placed, ParentsList, Store.Linked,
         IsFront, Under;
    var m := c.store;
    var y :| y in Below(m, Elems(ids)) && IsFront(c, y);
    var x :| x in Elems(ids) && Under(m, y, x);
    assert x in ids;
    BelowSplit(m, ids, h);
    var first, rest := Below(m, {ids[0]}), Below(m, Elems(ids[1..]));
    SelfBelow(m, ids[0]);
    assert ids[0] in first && rest < Below(m, Elems(ids));
    if HoldsFront(c, {ids[0]}) {
      PruneBlockPanics(c, out, ids[0]);
    } else {
      StandingIsPrunable(c, {ids[0]});
      BranchLeavesFront(c, out, first);
      PruneBlockIsWithout(c, out, ids[0], out + first);
      PruneBlocksPanic(c, out + first, ids[1..], h);
    }
  }

  /**
   * Pruning siblings with standing branches goes through exactly when the head of
   * the longest chain is not on any of them, and then takes out exactly those branches.
   */
  lemma PruneSucceedsIff(c: Chain, ids: seq<Id>, h: nat)
    requires Indexed(c) && NoDup(ids) && c.heads != [] && StandingBranch(c, Elems(ids))
    requires forall x :: x in ids ==> Live(c.store, x) && Height(c.store, x) == h
    ensures PruneBlocks(c, ids).Ok? <==> !HoldsFront(c, Elems(ids))
    ensures PruneBlocks(c, ids).Ok? ==> PruneBlocks(c, ids).value == Without(c, Below(c.store, Elems(ids)))
  {
    hide PruneBlocks, Without, Indexed, Below, StandingBranch;
    WithoutNone(c);
    NothingOut(c);
    var all := Below(c.store, Elems(ids));
    if HoldsFront(c, Elems(ids)) {
      PruneBlocksPanic(c, {}, ids, h);
    } else {
      StandingIsPrunable(c, Elems(ids));
      assert all == {} + all;
      PruneBlocksIsWithout(c, {}, ids, h, all);
    }
  }

  lemma SelfBelow(m: Store, x: Id)
    requires Live(m, x)
    ensures x in Below(m, {x})
  {
    assert Under(m, x, x);
  }

  lemma NothingOut(c: Chain)
    requires c.heads != []
    ensures FrontStays(c, {})
  {
  }
}
