/** The tree of proposer blocks: ancestors, descendants and stored children. */
module Forks {
  import opened Basics
  import opened MetaBlocks

  /** A proposer block the store still holds. */
  predicate Live(m: Store, p: Id) {
    p in m.blocks && m.blocks[p].block.parent.Some?
  }

  function Height(m: Store, p: Id): (h: nat) {
    if p in m.blocks then m.blocks[p].height else 0
  }

  function Children(m: Store, p: Id): (c: seq<Id>) {
    if p in m.blocks then m.blocks[p].children else []
  }

  function ParentOf(m: Store, p: Id): (q: Id) {
    if Live(m, p) && m.blocks[p].block.parent.value in m.proofOf
    then m.proofOf[m.blocks[p].block.parent.value]
    else p
  }

  /** The ancestor of `p` at height `h`, or `p` itself when it is not above `h`. */
  function AncAt(m: Store, p: Id, h: nat): (a: Id)
    decreases Height(m, p)
  {
    var q := ParentOf(m, p);
    if Height(m, p) <= h || Height(m, q) >= Height(m, p) then p else AncAt(m, q, h)
  }

  function Root(m: Store, p: Id): (r: Id) {
    AncAt(m, p, 0)
  }

  /** `y` is `x` or descends from it. */
  predicate Under(m: Store, y: Id, x: Id) {
    Live(m, x) && Live(m, y) && Height(m, x) <= Height(m, y) && AncAt(m, y, Height(m, x)) == x
  }

  ghost predicate Placed(m: Store, p: Id)
    requires p in m.blocks
  {
    if HasParentBlock(m.blocks[p].block) then
      && m.blocks[p].block.parent.value in m.proofOf
      && Live(m, ParentOf(m, p))
      && Height(m, p) == Height(m, ParentOf(m, p)) + 1
    else
      Height(m, p) == 0
  }

  /** Both indexes agree, and every non-root proposer block sits one above a live parent. */
  ghost predicate Tree(m: Store) {
    m.Linked() && forall p :: p in m.blocks ==> Placed(m, p)
  }

  ghost predicate Settled(m: Store, confirmed: set<Id>, x: Id) {
    exists d :: d in Children(m, x) && d in confirmed
  }

  /** A stored child is a live child, or it was pruned because a sibling was confirmed. */
  ghost predicate ChildOk(m: Store, confirmed: set<Id>, x: Id, c: Id) {
    if c in m.blocks then Live(m, c) && Height(m, c) > 0 && ParentOf(m, c) == x
    else Settled(m, confirmed, x)
  }

  /** The stored children of `x` are distinct and well placed, and `x` is listed by its parent. */
  ghost predicate KidsOf(m: Store, confirmed: set<Id>, x: Id) {
    && NoDup(Children(m, x))
    && (Height(m, x) > 0 ==> x in Children(m, ParentOf(m, x)))
    && (forall k :: k in Children(m, x) ==> ChildOk(m, confirmed, x, k))
  }

  ghost predicate Kids(m: Store, confirmed: set<Id>) {
    forall x :: Live(m, x) ==> KidsOf(m, confirmed, x)
  }

  ghost predicate ParentsList(m: Store) {
    forall y :: Live(m, y) && Height(m, y) > 0 ==> y in Children(m, ParentOf(m, y))
  }

  lemma KidsAreListed(m: Store, confirmed: set<Id>)
    requires Kids(m, confirmed)
    ensures ParentsList(m)
  {
    hide ChildOk, NoDup;
    assert forall x :: Live(m, x) ==> KidsOf(m, confirmed, x);
  }

  lemma {:induction false} AncLive(m: Store, y: Id, h: nat)
    requires Tree(m) && Live(m, y) && h <= Height(m, y)
    ensures Live(m, AncAt(m, y, h)) && Height(m, AncAt(m, y, h)) == h
    decreases Height(m, y)
  {
    assert Placed(m, y);
    if h < Height(m, y) { AncLive(m, ParentOf(m, y), h); }
  }

  lemma {:induction false} AncCompose(m: Store, y: Id, h: nat, k: nat)
    requires Tree(m) && Live(m, y) && k <= h <= Height(m, y)
    ensures AncAt(m, AncAt(m, y, h), k) == AncAt(m, y, k)
    decreases Height(m, y)
  {
    assert Placed(m, y);
    if h < Height(m, y) { AncCompose(m, ParentOf(m, y), h, k); }
  }

  /** The ancestor one below another is its parent. */
  lemma AncStep(m: Store, y: Id, h: nat)
    requires Tree(m) && Live(m, y) && h < Height(m, y)
    ensures ParentOf(m, AncAt(m, y, h + 1)) == AncAt(m, y, h)
  {
    var a := AncAt(m, y, h + 1);
    AncLive(m, y, h + 1);
    AncCompose(m, y, h + 1, h);
    assert Placed(m, a);
    assert AncAt(m, a, h) == AncAt(m, ParentOf(m, a), h);
  }

  lemma ContentOf(m: Store, content: Id)
    requires Tree(m) && content in m.proofOf
    ensures m.proofOf[content] in m.blocks && m.blocks[m.proofOf[content]].block.contentId == content
  {
  }

  lemma ChildShape(m: Store, k: Id)
    requires Tree(m) && Live(m, k) && Height(m, k) > 0
    ensures Live(m, ParentOf(m, k)) && Height(m, k) == Height(m, ParentOf(m, k)) + 1
    ensures Root(m, k) == Root(m, ParentOf(m, k)) && Under(m, k, ParentOf(m, k))
  {
    assert Placed(m, k);
  }

  lemma UnderTrans(m: Store, z: Id, y: Id, x: Id)
    requires Tree(m) && Under(m, z, y) && Under(m, y, x)
    ensures Under(m, z, x)
  {
    AncCompose(m, z, Height(m, y), Height(m, x));
  }

  /** `n` still holds every live block of `m` outside `out`, with the same parents above it. */
  ghost predicate KeepsAncestry(m: Store, n: Store, out: set<Id>) {
    forall z :: Live(m, z) && z !in out ==>
      && Live(n, z) && Height(n, z) == Height(m, z) && ParentOf(n, z) == ParentOf(m, z)
      && (Height(m, z) > 0 ==> ParentOf(m, z) !in out)
  }

  lemma {:induction false} AncKept(m: Store, n: Store, out: set<Id>, y: Id, h: nat)
    requires Tree(m) && KeepsAncestry(m, n, out) && Live(m, y) && y !in out
    ensures AncAt(n, y, h) == AncAt(m, y, h)
    ensures h <= Height(m, y) ==> AncAt(m, y, h) !in out
    decreases Height(m, y)
  {
    assert Placed(m, y);
    if h < Height(m, y) {
      AncKept(m, n, out, ParentOf(m, y), h);
      assert Live(n, ParentOf(m, y)) && Height(n, ParentOf(n, y)) < Height(n, y);
    }
  }

  /** All live blocks that are in `ids` or descend from one of them. */
  ghost function Below(m: Store, ids: set<Id>): (d: set<Id>) {
    set y | y in m.blocks && exists x :: x in ids && Under(m, y, x)
  }

  ghost function Elems(s: seq<Id>): (r: set<Id>) {
    set x | x in s
  }

  /** A proper descendant of `x` is under one of its children. */
  lemma UnderChild(m: Store, y: Id, x: Id) returns (c: Id)
    requires Tree(m) && Under(m, y, x) && y != x
    ensures Under(m, y, c) && Height(m, c) == Height(m, x) + 1 && ParentOf(m, c) == x
  {
    var h := Height(m, x);
    assert h < Height(m, y);
    c := AncAt(m, y, h + 1);
    AncLive(m, y, h + 1);
    AncStep(m, y, h);
    hide Tree, AncAt;
  }

  /** The parent of a proper descendant of `z` is still under `z`. */
  lemma ParentUnder(m: Store, y: Id, z: Id)
    requires Tree(m) && Under(m, y, z) && y != z
    ensures Height(m, y) > 0 && Under(m, ParentOf(m, y), z)
  {
    ChildShape(m, y);
  }

  lemma UnderParent(m: Store, y: Id, c: Id)
    requires Tree(m) && Under(m, y, c) && Height(m, c) > 0
    ensures Under(m, y, ParentOf(m, c)) && y != ParentOf(m, c)
  {
    assert Placed(m, c);
    AncStep(m, y, Height(m, c) - 1);
  }

  /** Descendants of one block: itself and the descendants of its live children. */
  lemma BelowOne(m: Store, x: Id)
    requires Tree(m) && Live(m, x)
    requires forall c :: c in Children(m, x) ==> Live(m, c) && Height(m, c) > 0 && ParentOf(m, c) == x
    requires forall y :: Live(m, y) && Height(m, y) > 0 ==> y in Children(m, ParentOf(m, y))
    ensures Below(m, {x}) == {x} + Below(m, Elems(Children(m, x)))
    ensures x !in Below(m, Elems(Children(m, x)))
    ensures forall c :: c in Children(m, x) ==> Height(m, c) == Height(m, x) + 1
  {
    var kids := Elems(Children(m, x));
    assert forall c :: c in kids ==> Placed(m, c);
    assert Under(m, x, x);
    forall y | y in Below(m, {x}) && y != x ensures y in Below(m, kids) {
      var c := UnderChild(m, y, x);
    }
    forall y | y in Below(m, kids) ensures y in Below(m, {x}) && y != x {
      var c :| c in kids && Under(m, y, c);
      UnderParent(m, y, c);
    }
  }

  /** Distinct blocks of one height have disjoint sets of descendants. */
  lemma BelowSplit(m: Store, ids: seq<Id>, h: nat)
    requires Tree(m) && ids != [] && NoDup(ids)
    requires forall x :: x in ids ==> Live(m, x) && Height(m, x) == h
    ensures Below(m, Elems(ids)) == Below(m, {ids[0]}) + Below(m, Elems(ids[1..]))
    ensures Below(m, {ids[0]}) !! Below(m, Elems(ids[1..]))
  {
    assert forall x :: x in ids <==> x == ids[0] || x in ids[1..];
    assert Elems(ids) == {ids[0]} + Elems(ids[1..]);
  }
}
