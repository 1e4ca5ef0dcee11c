/** Confirming the k-deep ancestor of a staged block and pruning its rivals. */
module Confirmation {
  import opened Basics
  import opened MetaBlocks
  import opened Forks
  import opened ForkChoice
  import opened Staging

  /** The chain just after `top` was attached, before its k-deep ancestor is confirmed. */
  ghost predicate Staged(c: Chain, top: Id) {
    && Indexed(c) && Kids(c.store, c.confirmed) && HeadsOk(c)
    && ConfirmedBuried(c.store, c.confirmed) && NoRivals(c.store, c.confirmed) && Live(c.store, top)
    && (forall y :: Live(c.store, y) && y != top ==> DeepConfirmed(c.store, c.confirmed, y))
    && (forall k: nat :: k + CONFIRMATION_DEPTH < Height(c.store, top) ==> AncAt(c.store, top, k) in c.confirmed)
    && (forall x :: x in c.confirmed && Root(c.store, x) == Root(c.store, top) ==> Under(c.store, top, x))
  }

  /** The ancestor of `top` at the confirmation depth. */
  ghost function Target(c: Chain, top: Id): (a: Id)
    requires Height(c.store, top) >= CONFIRMATION_DEPTH
  {
    AncAt(c.store, top, Height(c.store, top) - CONFIRMATION_DEPTH)
  }

  ghost predicate Pending(c: Chain, top: Id) {
    Staged(c, top) && Height(c.store, top) >= CONFIRMATION_DEPTH && Target(c, top) !in c.confirmed
  }

  /** While its target is unconfirmed, the new block is the only highest one of its root. */
  lemma TopIsHighest(c: Chain, top: Id, y: Id)
    requires Pending(c, top) && Live(c.store, y) && y != top && Root(c.store, y) == Root(c.store, top)
    ensures Height(c.store, y) < Height(c.store, top)
  {
    hide Tree, SlotsOk, ParentsList, Kids, HeadsOk, NoRivals, ConfirmedBuried;
    var m, h := c.store, Height(c.store, top);
    if Height(m, y) >= h {
      var w := AncAt(m, y, h - CONFIRMATION_DEPTH);
      assert DeepConfirmed(m, c.confirmed, y);
      AncLive(m, y, h - CONFIRMATION_DEPTH);
      AncCompose(m, y, h - CONFIRMATION_DEPTH, 0);
    }
  }

  /** The block below the target and its stored children other than the target. */
  ghost function Rivals(c: Chain, top: Id): (r: seq<Id>)
    requires Height(c.store, top) >= CONFIRMATION_DEPTH
  {
    Keep(Children(c.store, ParentOf(c.store, Target(c, top))), Self, {Target(c, top)})
  }

  ghost function Doomed(c: Chain, top: Id): (d: set<Id>)
    requires Height(c.store, top) >= CONFIRMATION_DEPTH
  {
    Below(c.store, Elems(Rivals(c, top)))
  }

  lemma StagedTree(c: Chain, top: Id)
    requires Staged(c, top)
    ensures Tree(c.store) && Live(c.store, top)
  {
    hide Tree, Kids, HeadsOk, ConfirmedBuried, NoRivals, SlotsOk, DeepConfirmed;
  }

  /** The target and its parent, as seen from the new block. */
  lemma TargetShape(c: Chain, top: Id)
    requires Pending(c, top)
    ensures Tree(c.store) && Live(c.store, Target(c, top)) && Under(c.store, top, Target(c, top))
    ensures Height(c.store, Target(c, top)) == Height(c.store, top) - CONFIRMATION_DEPTH
    ensures Root(c.store, Target(c, top)) == Root(c.store, top)
  {
    hide Staged, Tree;
    var m, h := c.store, Height(c.store, top) - CONFIRMATION_DEPTH;
    StagedTree(c, top);
    AncLive(m, top, h);
    AncCompose(m, top, h, 0);
  }

  lemma TargetParent(c: Chain, top: Id)
    requires Pending(c, top) && Height(c.store, top) > CONFIRMATION_DEPTH
    ensures var pa := ParentOf(c.store, Target(c, top));
            && Live(c.store, pa) && Height(c.store, pa) + 1 == Height(c.store, Target(c, top))
            && pa in c.confirmed && Under(c.store, top, pa) && Root(c.store, pa) == Root(c.store, top)
            && Target(c, top) in Children(c.store, pa)
  {
    hide Tree, HeadsOk, NoRivals, ConfirmedBuried, SlotsOk, ChildOk, DeepConfirmed;
    var m, h := c.store, Height(c.store, top) - CONFIRMATION_DEPTH - 1;
    TargetShape(c, top);
    assert KidsOf(m, c.confirmed, Target(c, top));
    AncLive(m, top, h);
    AncStep(m, top, h);
    AncCompose(m, top, h, 0);
  }

  /** Neither the target nor any stored sibling of it is confirmed yet. */
  lemma RivalUnconfirmed(c: Chain, top: Id, k: Id)
    requires Pending(c, top) && Height(c.store, top) > CONFIRMATION_DEPTH
    requires k in Children(c.store, ParentOf(c.store, Target(c, top)))
    ensures k !in c.confirmed
  {
    hide Tree, SlotsOk, ParentsList, HeadsOk, NoRivals, DeepConfirmed, AncAt;
    var m, pa := c.store, ParentOf(c.store, Target(c, top));
    TargetShape(c, top);
    TargetParent(c, top);
    assert KidsOf(m, c.confirmed, pa) && ChildOk(m, c.confirmed, pa, k);
    if k in c.confirmed { ChildShape(m, k); }
  }

  /** A rival of the target is a live sibling of it. */
  lemma RivalShape(c: Chain, top: Id, z: Id)
    requires Pending(c, top) && Height(c.store, top) > CONFIRMATION_DEPTH && z in Rivals(c, top)
    ensures var m, a := c.store, Target(c, top);
            && z != a && Live(m, z) && Height(m, z) == Height(m, a) && ParentOf(m, z) == ParentOf(m, a)
            && Root(m, z) == Root(m, top)
  {
    var m, pa := c.store, ParentOf(c.store, Target(c, top));
    TargetParent(c, top);
    assert KidsOf(m, c.confirmed, pa) && ChildOk(m, c.confirmed, pa, z);
    assert !Settled(m, c.confirmed, pa) by {
      forall k | k in Children(m, pa) ensures k !in c.confirmed { RivalUnconfirmed(c, top, k); }
    }
    ChildShape(m, z);
  }

  /** Nothing confirmed and not the new block itself is doomed; all doomed blocks share its root. */
  lemma DoomedShape(c: Chain, top: Id, y: Id)
    requires Pending(c, top) && Height(c.store, top) > CONFIRMATION_DEPTH && y in Doomed(c, top)
    ensures Live(c.store, y) && y !in c.confirmed && y != top && Root(c.store, y) == Root(c.store, top)
    ensures Height(c.store, y) < Height(c.store, top)
    ensures !Under(c.store, y, Target(c, top)) && !Under(c.store, top, y)
  {
    var m, a := c.store, Target(c, top);
    var z :| z in Elems(Rivals(c, top)) && Under(m, y, z);
    TargetShape(c, top);
    RivalShape(c, top, z);
    AncCompose(m, y, Height(m, z), 0);
    if Under(m, top, y) {
      AncCompose(m, top, Height(m, y), Height(m, z));
    }
    assert Under(m, top, top);
    TopIsHighest(c, top, y);
  }

  // ----- pruning the rivals

  lemma ChildDoomed(c: Chain, top: Id, y: Id, k: Id)
    requires Tree(c.store) && Height(c.store, top) >= CONFIRMATION_DEPTH && y in Doomed(c, top)
    requires Live(c.store, k) && Height(c.store, k) > 0 && ParentOf(c.store, k) == y
    ensures k in Doomed(c, top)
  {
    BelowIsWhole(c.store, Elems(Rivals(c, top)));
  }

  /** The stored children of a doomed block are all live. */
  lemma DoomedChild(c: Chain, top: Id, y: Id, k: Id)
    requires Pending(c, top) && Height(c.store, top) > CONFIRMATION_DEPTH && y in Doomed(c, top)
    requires k in Children(c.store, y)
    ensures Live(c.store, k) && Height(c.store, k) > 0 && ParentOf(c.store, k) == y
  {
    DoomedShape(c, top, y);
    assert KidsOf(c.store, c.confirmed, y) && ChildOk(c.store, c.confirmed, y, k);
    if k !in c.store.blocks {
      var d :| d in Children(c.store, y) && d in c.confirmed;
      assert ChildOk(c.store, c.confirmed, y, d);
      ChildDoomed(c, top, y, d);
      DoomedShape(c, top, d);
    }
  }

  lemma LeafIffChildless(m: Store, y: Id)
    requires forall k :: k in Children(m, y) ==> Live(m, k) && Height(m, k) > 0 && ParentOf(m, k) == y
    requires forall q :: Live(m, q) && Height(m, q) > 0 ==> q in Children(m, ParentOf(m, q))
    ensures Leaf(m, y) <==> Children(m, y) == []
  {
    if Children(m, y) != [] {
      var k := Children(m, y)[0];
      assert Live(m, k) && Height(m, k) > 0;
    }
  }

  lemma ListedIffLeaf(c: Chain, y: Id)
    requires c.store.Linked() && HeadsOk(c) && Live(c.store, y)
    ensures Listed(c.store, c.heads, y) <==> Leaf(c.store, y)
  {
    if Listed(c.store, c.heads, y) {
      var h :| h in c.heads && h.contentId == c.store.blocks[y].block.contentId;
      assert HeadOk(c.store, h);
    }
  }

  lemma DoomedPrunable(c: Chain, top: Id, y: Id)
    requires Pending(c, top) && Height(c.store, top) > CONFIRMATION_DEPTH && y in Doomed(c, top)
    ensures Prunable(c, y)
  {
    DoomedShape(c, top, y);
    forall k | k in Children(c.store, y)
      ensures Live(c.store, k) && Height(c.store, k) > 0 && ParentOf(c.store, k) == y
    {
      DoomedChild(c, top, y, k);
    }
    LeafIffChildless(c.store, y);
    ListedIffLeaf(c, y);
    assert KidsOf(c.store, c.confirmed, y);
    assert HeadOk(c.store, c.heads[0]);
  }

  ghost function Confirming(c: Chain, top: Id): (d: Chain)
    requires Height(c.store, top) >= CONFIRMATION_DEPTH
  {
    c.(confirmed := c.confirmed + {Target(c, top)})
  }

  /** The chain with the target confirmed and its rivals gone. */
  ghost function After(c: Chain, top: Id): (d: Chain)
    requires Height(c.store, top) >= CONFIRMATION_DEPTH
  {
    Without(Confirming(c, top), Doomed(c, top))
  }

  lemma RivalsReady(c: Chain, top: Id)
    requires Pending(c, top) && Height(c.store, top) > CONFIRMATION_DEPTH
    ensures var d, rivals := Confirming(c, top), Elems(Rivals(c, top));
            Indexed(d) && Branch(d, rivals) && FrontStays(d, {}) && Untouched(d, {}, rivals)
  {
    forall y | y in Doomed(c, top) ensures Prunable(Confirming(c, top), y) { DoomedPrunable(c, top, y); }
  }

  lemma RivalsDistinct(c: Chain, top: Id)
    requires Pending(c, top) && Height(c.store, top) > CONFIRMATION_DEPTH
    ensures NoDup(Rivals(c, top))
    ensures forall z :: z in Rivals(c, top) ==>
              Live(c.store, z) && Height(c.store, z) == Height(c.store, Target(c, top))
  {
    var pa := ParentOf(c.store, Target(c, top));
    TargetParent(c, top);
    assert KidsOf(c.store, c.confirmed, pa);
    KeepDistinct(Children(c.store, pa), Self, {Target(c, top)});
    hide Pending, Keep;
    forall z | z in Rivals(c, top) ensures Live(c.store, z) && Height(c.store, z) == Height(c.store, Target(c, top)) {
      RivalShape(c, top, z);
    }
  }

  lemma ConfirmUnfold(c: Chain, a: Id)
    requires Tree(c.store) && Live(c.store, a) && Height(c.store, a) > 0
    ensures ConfirmOnChain(c, c.store.blocks[a])
         == PruneBlocks(c.(confirmed := c.confirmed + {a}), Keep(Children(c.store, ParentOf(c.store, a)), Self, {a}))
  {
    assert Placed(c.store, a);
    hide PruneBlocks, Keep;
  }

  /** Confirming the target never panics and takes out exactly its rivals with their descendants. */
  lemma ConfirmPrunesRivals(c: Chain, top: Id)
    requires Pending(c, top) && Height(c.store, top) > CONFIRMATION_DEPTH
    ensures Target(c, top) in c.store.blocks
    ensures ConfirmOnChain(c, c.store.blocks[Target(c, top)]) == Ok(After(c, top))
  {
    hide Pending, Branch, FrontStays, Untouched, Below, Without, PruneBlocks, NoDup, Keep, ConfirmOnChain,
         Tree, SlotsOk;
    var a, d := Target(c, top), Confirming(c, top);
    TargetShape(c, top);
    ConfirmUnfold(c, a);
    RivalsReady(c, top);
    RivalsDistinct(c, top);
    assert Doomed(c, top) == {} + Below(d.store, Elems(Rivals(c, top)));
    PruneBlocksIsWithout(d, {}, Rivals(c, top), Height(c.store, a), Doomed(c, top));
    WithoutNone(d);
  }

  // ----- the chain after confirmation

  /** The surviving blocks keep their data, their place in the tree and their index entries. */
  lemma AfterShape(c: Chain, top: Id)
    requires Staged(c, top) && Height(c.store, top) >= CONFIRMATION_DEPTH
    ensures Tree(c.store) && Tree(After(c, top).store) && SlotsOk(After(c, top))
    ensures KeepsAncestry(c.store, After(c, top).store, Doomed(c, top))
    ensures DistinctKeys(After(c, top).heads, HeadKey)
    ensures forall p :: Live(After(c, top).store, p) <==> Live(c.store, p) && p !in Doomed(c, top)
    ensures After(c, top).store.blocks == c.store.blocks - Doomed(c, top)
  {
    hide Tree, SlotsOk, Kids, HeadsOk, ConfirmedBuried, NoRivals, DeepConfirmed, Below, KeepsAncestry, Keep,
         WholeBranches, Contents, Live, AncAt;
    BelowIsWhole(c.store, Elems(Rivals(c, top)));
    WithoutTree(Confirming(c, top), Doomed(c, top));
    SlotsOkAgain(c, Confirming(c, top));
    WithoutSlotsOk(Confirming(c, top), Doomed(c, top));
    KeepDistinct(c.heads, HeadKey, Contents(c.store, Doomed(c, top)));
  }

  /** A doomed block whose parent survives is one of the rivals. */
  lemma ExposedIsRival(c: Chain, top: Id, k: Id)
    requires Pending(c, top) && Height(c.store, top) > CONFIRMATION_DEPTH
    requires k in Doomed(c, top) && Height(c.store, k) > 0 && ParentOf(c.store, k) !in Doomed(c, top)
    ensures ParentOf(c.store, k) == ParentOf(c.store, Target(c, top))
  {
    hide Staged;
    var z :| z in Elems(Rivals(c, top)) && Under(c.store, k, z);
    RivalShape(c, top, z);
    StagedTree(c, top);
    ChildShape(c.store, k);
    if k != z {
      ParentUnder(c.store, k, z);
    }
  }

  lemma AfterKidsOf(c: Chain, top: Id, x: Id)
    requires Pending(c, top) && Height(c.store, top) > CONFIRMATION_DEPTH
    requires Live(After(c, top).store, x)
    ensures KidsOf(After(c, top).store, After(c, top).confirmed, x)
  {
    hide Tree, HeadsOk, ConfirmedBuried, NoRivals, DeepConfirmed, Below, Doomed, SlotsOk;
    var m, n := c.store, After(c, top).store;
    AfterShape(c, top);
    assert KidsOf(m, c.confirmed, x);
    assert Children(n, x) == Children(m, x);
    forall k | k in Children(n, x) ensures ChildOk(n, After(c, top).confirmed, x, k) {
      assert ChildOk(m, c.confirmed, x, k);
      if k in Doomed(c, top) {
        DoomedShape(c, top, k);
        ExposedIsRival(c, top, k);
        TargetParent(c, top);
        assert Target(c, top) in Children(n, x);
      } else if k !in m.blocks {
        var d :| d in Children(m, x) && d in c.confirmed;
        assert d in Children(n, x);
      }
    }
  }

  /** A block left without children had none before: the parent of the rivals keeps the target. */
  lemma AfterLeaf(c: Chain, top: Id, p: Id)
    requires Pending(c, top) && Height(c.store, top) > CONFIRMATION_DEPTH && Live(After(c, top).store, p)
    ensures Leaf(After(c, top).store, p) <==> Leaf(c.store, p)
  {
    hide Staged, Tree, Doomed, Below, SlotsOk, After;
    var m, n, a := c.store, After(c, top).store, Target(c, top);
    AfterShape(c, top);
    TargetShape(c, top);
    TargetParent(c, top);
    assert a !in Doomed(c, top) by { if a in Doomed(c, top) { DoomedShape(c, top, a); assert false; } }
    forall q | Live(m, q) && Height(m, q) > 0 && ParentOf(m, q) == p && q in Doomed(c, top)
      ensures p == ParentOf(m, a)
    {
      ExposedIsRival(c, top, q);
    }
  }

  lemma AfterHead(c: Chain, top: Id, h: Head)
    requires Pending(c, top) && Height(c.store, top) > CONFIRMATION_DEPTH && h in After(c, top).heads
    ensures HeadOk(After(c, top).store, h)
  {
    hide Tree, Kids, ConfirmedBuried, NoRivals, DeepConfirmed, Below, SlotsOk, Doomed, Leaf;
    var m, p := c.store, c.store.proofOf[h.contentId];
    assert HeadOk(m, h);
    AfterShape(c, top);
    ContentOf(m, h.contentId);
    AfterContents(c, top, p);
    AfterLeaf(c, top, p);
  }

  /** Contents leave the index exactly with their blocks. */
  lemma AfterContents(c: Chain, top: Id, p: Id)
    requires Staged(c, top) && Height(c.store, top) >= CONFIRMATION_DEPTH && p in c.store.blocks
    ensures c.store.blocks[p].block.contentId in Contents(c.store, Doomed(c, top)) <==> p in Doomed(c, top)
    ensures c.store.proofOf[c.store.blocks[p].block.contentId] == p
  {
    hide Kids, HeadsOk, ConfirmedBuried, NoRivals, DeepConfirmed, Below, SlotsOk;
    WithoutContents(c.store, Doomed(c, top), p);
  }

  lemma AfterListed(c: Chain, top: Id, p: Id)
    requires Pending(c, top) && Height(c.store, top) > CONFIRMATION_DEPTH
    requires Live(After(c, top).store, p) && Leaf(After(c, top).store, p)
    ensures Listed(After(c, top).store, After(c, top).heads, p)
  {
    hide Tree, Kids, ConfirmedBuried, NoRivals, DeepConfirmed, Below, SlotsOk, Doomed, Leaf, HeadOk;
    AfterShape(c, top);
    AfterLeaf(c, top, p);
    AfterContents(c, top, p);
    var h :| h in c.heads && h.contentId == c.store.blocks[p].block.contentId;
    assert h in After(c, top).heads;
  }

  lemma AfterFront(c: Chain, top: Id)
    requires Pending(c, top) && Height(c.store, top) > CONFIRMATION_DEPTH
    ensures c.heads != [] && After(c, top).heads != [] && After(c, top).heads[0] == c.heads[0]
  {
    hide Staged, Below, Prunable, Contents, Indexed, Untouched, Keep;
    RivalsReady(c, top);
    BranchLeavesFront(Confirming(c, top), {}, Doomed(c, top));
    assert {} + Doomed(c, top) == Doomed(c, top);
    KeepFirst(c.heads, HeadKey, Contents(c.store, Doomed(c, top)));
  }

  lemma AfterHeads(c: Chain, top: Id)
    requires Pending(c, top) && Height(c.store, top) > CONFIRMATION_DEPTH
    ensures HeadsOk(After(c, top))
  {
    hide Tree, Kids, ConfirmedBuried, NoRivals, DeepConfirmed, Below, SlotsOk, Doomed, Leaf, HeadOk, Listed, After;
    AfterShape(c, top);
    AfterFront(c, top);
    forall h | h in After(c, top).heads ensures HeadOk(After(c, top).store, h) { AfterHead(c, top, h); }
    forall p | Live(After(c, top).store, p) && Leaf(After(c, top).store, p)
      ensures Listed(After(c, top).store, After(c, top).heads, p)
    {
      AfterListed(c, top, p);
    }
  }

  /** Every block of the root that is not doomed lies on one line with the target. */
  lemma SurvivorOnLine(c: Chain, top: Id, y: Id)
    requires Pending(c, top) && Height(c.store, top) > CONFIRMATION_DEPTH
    requires Live(c.store, y) && Root(c.store, y) == Root(c.store, top) && y !in Doomed(c, top)
    ensures SameLine(c.store, Target(c, top), y)
  {
    hide Tree, HeadsOk, ConfirmedBuried, DeepConfirmed, SlotsOk, Root, ChildOk;
    var m, a := c.store, Target(c, top);
    var pa, rivals := ParentOf(m, a), Elems(Rivals(c, top));
    TargetShape(c, top);
    TargetParent(c, top);
    ChildShape(m, a);
    assert SameLine(m, pa, y);
    if Under(m, pa, y) {
      UnderTrans(m, a, pa, y);
    } else if y != pa {
      var k := UnderChild(m, y, pa);
      assert KidsOf(m, c.confirmed, k);
      assert k == a || k in rivals;
    }
  }

  /** `n` is the store without `out`, and what is left of the root lies on one line with the target. */
  ghost predicate Cut(c: Chain, top: Id, n: Store, out: set<Id>)
    requires Height(c.store, top) >= CONFIRMATION_DEPTH
  {
    && KeepsAncestry(c.store, n, out)
    && (forall p :: Live(n, p) <==> Live(c.store, p) && p !in out)
    && (forall p :: p in out ==> p !in c.confirmed && Root(c.store, p) == Root(c.store, top) && !Under(c.store, top, p))
    && (forall y :: Live(c.store, y) && Root(c.store, y) == Root(c.store, top) && y !in out ==>
          SameLine(c.store, Target(c, top), y))
  }

  lemma CutUnder(c: Chain, n: Store, out: set<Id>, y: Id, x: Id)
    requires Tree(c.store) && KeepsAncestry(c.store, n, out)
    requires Live(c.store, x) && Live(c.store, y) && x !in out && y !in out
    ensures Under(n, y, x) <==> Under(c.store, y, x)
    ensures Root(n, x) == Root(c.store, x) && Root(n, y) == Root(c.store, y)
  {
    AncKept(c.store, n, out, y, Height(c.store, x));
    AncKept(c.store, n, out, x, 0);
    AncKept(c.store, n, out, y, 0);
  }

  lemma CutBuried(c: Chain, top: Id, n: Store, out: set<Id>, x: Id)
    requires Pending(c, top) && Cut(c, top, n, out) && (x in c.confirmed || x == Target(c, top))
    ensures Live(n, x) && Buried(n, x)
  {
    hide Tree, HeadsOk, DeepConfirmed, SlotsOk, Kids, NoRivals, Root;
    var m := c.store;
    TargetShape(c, top);
    assert Under(m, top, top);
    var y := top;
    if x in c.confirmed {
      y :| Live(m, y) && Root(m, y) == Root(m, x) && Height(m, y) >= Height(m, x) + CONFIRMATION_DEPTH;
      if Root(m, x) == Root(m, top) && y != top {
        TopIsHighest(c, top, y);
        y := top;
      }
    }
    CutUnder(c, n, out, y, x);
  }

  lemma CutDeep(c: Chain, top: Id, n: Store, out: set<Id>, y: Id)
    requires Pending(c, top) && Cut(c, top, n, out) && Live(n, y)
    ensures DeepConfirmed(n, c.confirmed + {Target(c, top)}, y)
  {
    hide Tree, HeadsOk, SlotsOk, Kids, NoRivals, ConfirmedBuried, Root;
    StagedTree(c, top);
    forall k: nat | k + CONFIRMATION_DEPTH <= Height(n, y) ensures AncAt(n, y, k) in c.confirmed + {Target(c, top)} {
      AncKept(c.store, n, out, y, k);
      if y != top { assert DeepConfirmed(c.store, c.confirmed, y); }
    }
  }

  lemma CutNoRivals(c: Chain, top: Id, n: Store, out: set<Id>)
    requires Pending(c, top) && Cut(c, top, n, out)
    ensures NoRivals(n, c.confirmed + {Target(c, top)})
  {
    hide Tree, HeadsOk, DeepConfirmed, SlotsOk, Kids, Root, AncAt, Under;
    var m, a := c.store, Target(c, top);
    TargetShape(c, top);
    forall x, y | x in c.confirmed + {a} && Live(n, y) && Root(n, x) == Root(n, y) ensures SameLine(n, x, y) {
      assert Live(m, x) && x !in out;
      CutUnder(c, n, out, y, x);
      CutUnder(c, n, out, x, y);
      assert SameLine(m, x, y);
    }
  }

  // ----- one staging step

  lemma DoomedCut(c: Chain, top: Id)
    requires Pending(c, top) && Height(c.store, top) > CONFIRMATION_DEPTH
    ensures Cut(c, top, After(c, top).store, Doomed(c, top))
  {
    hide Staged, Tree, After, Doomed, Under, Root, AncAt, SlotsOk;
    AfterShape(c, top);
    forall p | p in Doomed(c, top)
      ensures p !in c.confirmed && Root(c.store, p) == Root(c.store, top) && !Under(c.store, top, p)
    {
      DoomedShape(c, top, p);
    }
    forall y | Live(c.store, y) && Root(c.store, y) == Root(c.store, top) && y !in Doomed(c, top)
      ensures SameLine(c.store, Target(c, top), y)
    {
      SurvivorOnLine(c, top, y);
    }
  }

  lemma ConfirmedAfter(c: Chain, top: Id, d: Chain, out: set<Id>)
    requires Pending(c, top) && Cut(c, top, d.store, out)
    requires d.confirmed == c.confirmed + {Target(c, top)}
    ensures ConfirmedBuried(d.store, d.confirmed) && NoRivals(d.store, d.confirmed)
    ensures forall y :: Live(d.store, y) ==> DeepConfirmed(d.store, d.confirmed, y)
  {
    hide Pending, Cut, NoRivals, DeepConfirmed, Live, Buried;
    CutNoRivals(c, top, d.store, out);
    forall x | x in d.confirmed ensures Live(d.store, x) && Buried(d.store, x) { CutBuried(c, top, d.store, out, x); }
    forall y | Live(d.store, y) ensures DeepConfirmed(d.store, d.confirmed, y) { CutDeep(c, top, d.store, out, y); }
  }

  /** Confirming a target above a root: no panic, the invariant holds again, and only doomed blocks go. */
  lemma ConfirmKeepsInv(c: Chain, top: Id)
    requires Pending(c, top) && Height(c.store, top) > CONFIRMATION_DEPTH
    ensures Inv(After(c, top))
  {
    hide Staged, Tree, KidsOf, HeadsOk, ConfirmedBuried, NoRivals, DeepConfirmed, SlotsOk, Cut, Doomed,
         DistinctKeys, Live, Children, KeepsAncestry, ParentsList;
    AfterShape(c, top);
    AfterHeads(c, top);
    DoomedCut(c, top);
    ConfirmedAfter(c, top, After(c, top), Doomed(c, top));
    forall x | Live(After(c, top).store, x) ensures KidsOf(After(c, top).store, After(c, top).confirmed, x) {
      AfterKidsOf(c, top, x);
    }
    KidsAreListed(After(c, top).store, After(c, top).confirmed);
  }

  /** Confirming a root prunes nothing. */
  lemma ConfirmRootKeepsInv(c: Chain, top: Id)
    requires Pending(c, top) && Height(c.store, top) == CONFIRMATION_DEPTH
    ensures Target(c, top) in c.store.blocks
    ensures ConfirmOnChain(c, c.store.blocks[Target(c, top)]) == Ok(Confirming(c, top)) && Inv(Confirming(c, top))
  {
    hide SlotsOk, ParentsList, HeadsOk, NoRivals, ConfirmedBuried, DeepConfirmed;
    var m, d := c.store, Confirming(c, top);
    TargetShape(c, top);
    forall y | Live(m, y) && Root(m, y) == Root(m, top) ensures SameLine(m, Target(c, top), y) {
      assert Under(m, y, Target(c, top));
    }
    assert Cut(c, top, d.store, {});
    ConfirmedAfter(c, top, d, {});
    SameStore(c, d);
    KidsGrow(m, c.confirmed, d.confirmed);
  }

  lemma SameStore(c: Chain, d: Chain)
    requires d.store == c.store && d.slots == c.slots && d.heads == c.heads
    ensures Indexed(c) ==> Indexed(d)
    ensures HeadsOk(c) ==> HeadsOk(d)
  {
  }

  lemma KidsGrow(m: Store, before: set<Id>, after: set<Id>)
    requires Kids(m, before) && before <= after
    ensures Kids(m, after)
  {
    forall x | Live(m, x) ensures KidsOf(m, after, x) {
      assert KidsOf(m, before, x);
      forall k | k in Children(m, x) ensures ChildOk(m, after, x, k) {
        assert ChildOk(m, before, x, k);
      }
    }
  }

  /** Walking parent links from a live block reaches its ancestor at the asked depth, or stops below a root. */
  lemma {:induction false} KDeepIsAncestor(m: Store, p: Id, depth: nat)
    requires Tree(m) && Live(m, p) && depth > 0
    ensures Height(m, p) + 1 >= depth ==> AncAt(m, p, Height(m, p) + 1 - depth) in m.blocks
    ensures KDeep(m, m.blocks[p].block.contentId, depth)
         == Ok(if Height(m, p) + 1 < depth then None else Some(m.blocks[AncAt(m, p, Height(m, p) + 1 - depth)]))
    decreases depth
  {
    assert Placed(m, p);
    assert m.Lookup(m.blocks[p].block.contentId) == Some(m.blocks[p]);
    if depth > 1 {
      if Height(m, p) > 0 {
        ContentOf(m, m.blocks[p].block.parent.value);
        KDeepIsAncestor(m, ParentOf(m, p), depth - 1);
      } else {
        assert m.Lookup(m.blocks[p].block.parent.value) == None;
      }
    }
  }

  lemma GuardNearTop(c: Chain, b: Block)
    requires HeadsOk(c) && Guarded(c, b)
    ensures NearTop(c.store, b)
  {
  }

  /** What the new block sees below itself: everything deep enough and everything confirmed. */
  lemma NewBlockView(c: Chain, n: Store, b: Block)
    requires Inv(c) && Grown(c.store, n, b) && b.contentId != GENESIS_CHALLENGE
    requires b.parent.Some? && NearTop(c.store, b)
    ensures forall k: nat :: k + CONFIRMATION_DEPTH < Height(n, b.proofId) ==> AncAt(n, b.proofId, k) in c.confirmed
    ensures forall x :: x in c.confirmed && Root(n, x) == Root(n, b.proofId) ==> Under(n, b.proofId, x)
  {
    hide SlotsOk, ParentsList, HeadsOk, Kids, AncAt;
    var m, p := c.store, ParentProof(c.store, b);
    GrownTree(m, n, b);
    forall k: nat | k + CONFIRMATION_DEPTH < Height(n, b.proofId) ensures AncAt(n, b.proofId, k) in c.confirmed {
      GrownAnc(m, n, b, p, k);
      assert DeepConfirmed(m, c.confirmed, p);
    }
    forall x | x in c.confirmed && Root(n, x) == Root(n, b.proofId) ensures Under(n, b.proofId, x) {
      GrownAnc(m, n, b, x, 0);
      AncLive(m, x, 0);
      if HasParentBlock(b) {
        GuardSoundness(m, c.confirmed, b, x);
        GrownUnder(m, n, b, p, x);
      }
    }
  }

  /** Attaching a fresh guarded block never panics and leaves only its own target to be confirmed. */
  lemma AttachStaged(c: Chain, b: Block)
    requires Inv(c) && Fresh(c, b) && Guarded(c, b)
    ensures Attach(c, b).Ok?
    ensures var d := Attach(c, b).value.0;
            Staged(d, b.proofId) && Grown(c.store, d.store, b) && d.confirmed == c.confirmed
  {
    hide ParentsList, HeadsOk, Kids, NearTop, Grown, ConfirmedBuried, NoRivals, DeepConfirmed, UpdateHeads, SlotsOk,
         KeepsAncestry, Saved, AncAt, Root, DistinctKeys;
    SaveGrows(c.store, b);
    GuardNearTop(c, b);
    var d := Attach(c, b).value.0;
    var m, n := c.store, d.store;
    AttachParts(c, b, d);
    NewBlockView(c, n, b);
    GrownBuried(m, n, b, c.confirmed);
    GrownNoRivals(m, n, b, c.confirmed);
    forall y | Live(n, y) && y != b.proofId ensures DeepConfirmed(n, c.confirmed, y) {
      GrownDeep(m, n, b, c.confirmed, y);
    }
  }

  lemma AttachParts(c: Chain, b: Block, d: Chain)
    requires Inv(c) && Fresh(c, b) && NearTop(c.store, b) && b.parent.Some? && Grown(c.store, d.store, b)
    requires d.slots == AddToSlot(c.slots, b.timeslot, b.proofId)
    requires d.heads == UpdateHeads(c.heads, b.parent.value, b.contentId, Height(d.store, b.proofId))
    ensures Indexed(d) && Kids(d.store, c.confirmed) && HeadsOk(d) && Live(d.store, b.proofId)
    ensures forall y :: Live(d.store, y) ==> Live(c.store, y) || y == b.proofId
  {
    hide Grown, SlotsOk, Kids, HeadOk, ConfirmedBuried, NoRivals, DeepConfirmed, UpdateHeads, AddToSlot,
         ParentsList, KeepsAncestry;
    GrownTree(c.store, d.store, b);
    GrownKids(c.store, d.store, b, c.confirmed);
    KidsAreListed(d.store, c.confirmed);
    GrownSlots(c, d.store, b, d);
    GrownHeads(c, d.store, b, d.heads);
  }

  /** Every block confirmed in `c` is still confirmed and still stored, unchanged, in `d`. */
  ghost predicate Settles(c: Chain, d: Chain) {
    forall x :: x in c.confirmed ==>
      && x in d.confirmed && x in c.store.blocks && x in d.store.blocks
      && d.store.blocks[x].block == c.store.blocks[x].block && d.store.blocks[x].height == c.store.blocks[x].height
  }

  lemma StagedInv(c: Chain, top: Id)
    requires Staged(c, top) && !Pending(c, top)
    ensures Inv(c)
  {
    hide Indexed, Kids, HeadsOk, ConfirmedBuried, NoRivals, Root, Under;
    forall k: nat | k + CONFIRMATION_DEPTH <= Height(c.store, top) ensures AncAt(c.store, top, k) in c.confirmed {
    }
  }

  lemma KDeepIsTarget(c: Chain, n: Store, b: Block)
    requires Tree(n) && b.proofId in n.blocks && n.blocks[b.proofId].block == b && b.parent.Some?
    ensures Height(n, b.proofId) >= CONFIRMATION_DEPTH ==>
              AncAt(n, b.proofId, Height(n, b.proofId) - CONFIRMATION_DEPTH) in n.blocks
    ensures KDeep(n, b.parent.value, CONFIRMATION_DEPTH)
         == Ok(if Height(n, b.proofId) < CONFIRMATION_DEPTH then None
               else Some(n.blocks[AncAt(n, b.proofId, Height(n, b.proofId) - CONFIRMATION_DEPTH)]))
  {
    assert Placed(n, b.proofId);
    if HasParentBlock(b) {
      ContentOf(n, b.parent.value);
      KDeepIsAncestor(n, ParentOf(n, b.proofId), CONFIRMATION_DEPTH);
    }
  }

  lemma ConfirmSettles(c: Chain, top: Id, d: Chain)
    requires Pending(c, top) && ConfirmedBuried(c.store, c.confirmed)
    requires d == Confirming(c, top) || (Height(c.store, top) > CONFIRMATION_DEPTH && d == After(c, top))
    ensures Settles(c, d)
  {
    hide Staged, Below, Keep, Contents;
    forall x | x in c.confirmed ensures x in d.store.blocks && d.store.blocks[x] == c.store.blocks[x] {
      assert Live(c.store, x);
      if d == After(c, top) && Height(c.store, top) > CONFIRMATION_DEPTH && x in Doomed(c, top) {
        DoomedShape(c, top, x);
      }
    }
  }

  lemma GrowthSettles(c: Chain, d: Chain, b: Block, e: Chain)
    requires Grown(c.store, d.store, b) && d.confirmed == c.confirmed && Settles(d, e)
    requires forall x :: x in c.confirmed ==> x in c.store.blocks
    ensures Settles(c, e)
  {
  }
}
