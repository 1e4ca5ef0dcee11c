/** Heads of the competing branches, the timeslot index and the pruning of losing branches. */
module ForkChoice {
  import opened Basics
  import opened MetaBlocks
  import opened Forks

  const CONFIRMATION_DEPTH: nat := 6

  datatype Head = Head(height: nat, contentId: Id)

  datatype Chain = Chain(store: Store, slots: map<nat, seq<Id>>, heads: seq<Head>, confirmed: set<Id>)

  function HeadKey(h: Head): Id { h.contentId }

  // ----- the operations of the ledger on this state

  /** Index of the first head with a content id, or the number of heads. */
  function HeadIndex(heads: seq<Head>, content: Id): (i: nat)
    ensures i <= |heads|
    ensures i < |heads| ==> heads[i].contentId == content
    ensures forall j :: 0 <= j < i ==> heads[j].contentId != content
  {
    if heads == [] then 0
    else if heads[0].contentId == content then 0
    else 1 + HeadIndex(heads[1..], content)
  }

  /** Extends the branch that ends in the parent, or opens a new one; a longer branch takes the front. */
  function UpdateHeads(heads: seq<Head>, parent: Id, content: Id, height: nat): (r: seq<Head>) {
    var i := HeadIndex(heads, parent);
    if i == |heads| then heads + [Head(height, content)]
    else
      var grown := Head(heads[i].height + 1, content);
      if i != 0 && grown.height > heads[0].height then heads[0 := grown][i := heads[0]] else heads[i := grown]
  }

  /** Index of the last head with a content id, or 0. */
  function LastHeadIndex(heads: seq<Head>, content: Id): (i: nat)
    ensures i == 0 || (i < |heads| && heads[i].contentId == content)
    ensures forall j :: i < j < |heads| ==> heads[j].contentId != content
  {
    if heads == [] then 0
    else if heads[|heads| - 1].contentId == content then |heads| - 1
    else LastHeadIndex(heads[..|heads| - 1], content)
  }

  /** Forgets a losing branch; the head at the front may not be pruned. */
  function PruneBranch(heads: seq<Head>, content: Id): (r: Outcome<seq<Head>>) {
    var i := LastHeadIndex(heads, content);
    if i == 0 then Panic else Ok(RemoveAt(heads, i))
  }

  function AddToSlot(slots: map<nat, seq<Id>>, t: nat, p: Id): (r: map<nat, seq<Id>>) {
    if t in slots then slots[t := slots[t] + [p]] else slots[t := [p]]
  }

  function Position(s: seq<Id>, x: Id): (i: nat)
    ensures i <= |s|
    ensures i < |s| ==> s[i] == x
    ensures i == |s| <==> x !in s
    ensures forall j :: 0 <= j < i ==> s[j] != x
  {
    if s == [] then 0 else if s[0] == x then 0 else 1 + Position(s[1..], x)
  }

  function DropFromSlot(slots: map<nat, seq<Id>>, t: nat, p: Id): (r: Outcome<map<nat, seq<Id>>>) {
    if t !in slots then Ok(slots)
    else
      var i := Position(slots[t], p);
      if i == |slots[t]| then Panic else Ok(slots[t := RemoveAt(slots[t], i)])
  }

  /** Removes the listed blocks and, recursively, their stored children. */
  function PruneBlocks(c: Chain, ids: seq<Id>): (r: Outcome<Chain>)
    ensures r.Ok? ==> |r.value.store.blocks| <= |c.store.blocks|
    decreases |c.store.blocks|, |ids|
  {
    if ids == [] then Ok(c)
    else
      match PruneBlock(c, ids[0])
      case Panic => Panic
      case Ok(d) => PruneBlocks(d, ids[1..])
  }

  function PruneBlock(c: Chain, p: Id): (r: Outcome<Chain>)
    ensures r.Ok? ==> |r.value.store.blocks| < |c.store.blocks|
    decreases |c.store.blocks|, 0
  {
    match Removed(c.store, p)
    case Panic => Panic
    case Ok((store, mb)) =>
      assert store.blocks.Keys == c.store.blocks.Keys - {p};
      assert |store.blocks| == |store.blocks.Keys| && |c.store.blocks| == |c.store.blocks.Keys|;
      match DropFromSlot(c.slots, mb.block.timeslot, p)
      case Panic => Panic
      case Ok(slots) =>
        var d := c.(store := store, slots := slots);
        if |mb.children| > 0 then PruneBlocks(d, mb.children)
        else
          match PruneBranch(c.heads, mb.block.contentId)
          case Panic => Panic
          case Ok(heads) => Ok(d.(heads := heads))
  }

  // ----- what pruning amounts to

  ghost function Contents(m: Store, ids: set<Id>): (r: set<Id>) {
    set p | p in ids && p in m.blocks :: m.blocks[p].block.contentId
  }

  ghost function WithoutSlots(slots: map<nat, seq<Id>>, out: set<Id>): (r: map<nat, seq<Id>>) {
    map t | t in slots :: Keep(slots[t], Self, out)
  }

  /** The chain with a set of blocks taken out of every index at once. */
  ghost function Without(c: Chain, out: set<Id>): (r: Chain) {
    Chain(Store(c.store.blocks - out, c.store.proofOf - Contents(c.store, out)),
          WithoutSlots(c.slots, out),
          Keep(c.heads, HeadKey, Contents(c.store, out)),
          c.confirmed)
  }

  /** A slot lists blocks of its timeslot, none twice. */
  ghost predicate SlotOk(m: Store, t: nat, s: seq<Id>) {
    DistinctKeys(s, Self) && forall p :: p in s ==> p in m.blocks && m.blocks[p].block.timeslot == t
  }

  ghost predicate Filed(slots: map<nat, seq<Id>>, b: Block) {
    b.timeslot in slots && b.proofId in slots[b.timeslot]
  }

  /** Each block is listed exactly once, under its own timeslot. */
  ghost predicate SlotsOk(c: Chain) {
    && (forall t :: t in c.slots ==> SlotOk(c.store, t, c.slots[t]))
    && (forall p :: p in c.store.blocks ==> Filed(c.slots, c.store.blocks[p].block))
  }

  lemma SlotsOkAgain(c: Chain, d: Chain)
    requires SlotsOk(c) && d.store == c.store && d.slots == c.slots
    ensures SlotsOk(d)
  {
  }

  ghost predicate Listed(m: Store, heads: seq<Head>, p: Id) {
    p in m.blocks && exists h :: h in heads && h.contentId == m.blocks[p].block.contentId
  }

  /** A block of a standing branch: its stored children are live and distinct, and it is a head when it has none. */
  ghost predicate Standing(c: Chain, p: Id) {
    && (forall k :: k in Children(c.store, p) ==>
          Live(c.store, k) && Height(c.store, k) > 0 && ParentOf(c.store, k) == p)
    && NoDup(Children(c.store, p))
    && (Listed(c.store, c.heads, p) <==> Children(c.store, p) == [])
    && p in c.store.blocks
  }

  /** A standing block other than the head at the front. */
  ghost predicate Prunable(c: Chain, p: Id) {
    Standing(c, p) && c.heads != [] && c.store.blocks[p].block.contentId != c.heads[0].contentId
  }

  ghost predicate Indexed(c: Chain) {
    Tree(c.store) && SlotsOk(c) && DistinctKeys(c.heads, HeadKey) && ParentsList(c.store)
  }

  /** One slot when `p` goes as well: its position is cut out, or nothing changes. */
  lemma SlotWithout(s: seq<Id>, out: set<Id>, p: Id)
    requires DistinctKeys(s, Self)
    ensures var was, now := Keep(s, Self, out), Keep(s, Self, out + {p});
            now == if p in was then RemoveAt(was, Position(was, p)) else was
  {
    var was := Keep(s, Self, out);
    KeepTwice(s, Self, out, {p});
    if p in was {
      KeepDistinct(s, Self, out);
      KeepIsRemoveAt(was, Self, Position(was, p));
    } else {
      KeepAll(was, Self, {p});
    }
  }

  lemma DropFromSlotIsWithout(slots: map<nat, seq<Id>>, out: set<Id>, t: nat, p: Id)
    requires forall u :: u in slots ==> DistinctKeys(slots[u], Self)
    requires forall u :: u in slots && p in slots[u] ==> u == t
    requires t in slots && p in slots[t] && p !in out
    ensures DropFromSlot(WithoutSlots(slots, out), t, p) == Ok(WithoutSlots(slots, out + {p}))
  {
    var was, now := WithoutSlots(slots, out), WithoutSlots(slots, out + {p});
    var cut := was[t := RemoveAt(was[t], Position(was[t], p))];
    assert cut.Keys == now.Keys;
    forall u | u in slots ensures cut[u] == now[u] {
      SlotWithout(slots[u], out, p);
    }
    assert cut == now;
  }

  lemma RemovedIsWithout(c: Chain, out: set<Id>, p: Id)
    requires c.store.Linked() && p in c.store.blocks && p !in out
    ensures Removed(Without(c, out).store, p) == Ok((Without(c, out + {p}).store, c.store.blocks[p]))
  {
    var content := c.store.blocks[p].block.contentId;
    assert content !in Contents(c.store, out);
    assert Contents(c.store, out + {p}) == Contents(c.store, out) + {content};
    assert Without(c, out).store.blocks - {p} == c.store.blocks - (out + {p});
    assert Without(c, out).store.proofOf - {content} == Without(c, out + {p}).store.proofOf;
  }

  lemma PruneBranchIsWithout(c: Chain, out: set<Id>, p: Id)
    requires c.store.Linked() && DistinctKeys(c.heads, HeadKey) && p !in out
    requires Listed(c.store, c.heads, p) && c.heads[0].contentId != c.store.blocks[p].block.contentId
    requires FrontStays(c, out)
    ensures PruneBranch(Without(c, out).heads, c.store.blocks[p].block.contentId)
         == Ok(Without(c, out + {p}).heads)
  {
    var content := c.store.blocks[p].block.contentId;
    var before := Contents(c.store, out);
    var was := Keep(c.heads, HeadKey, before);
    assert Contents(c.store, out + {p}) == before + {content};
    assert content !in before;
    KeepDistinct(c.heads, HeadKey, before);
    KeepFirst(c.heads, HeadKey, before);
    var h :| h in c.heads && h.contentId == content;
    assert h in was;
    var j :| 0 <= j < |was| && was[j] == h;
    assert LastHeadIndex(was, content) == j;
    KeepIsRemoveAt(was, HeadKey, j);
    KeepTwice(c.heads, HeadKey, before, {content});
  }

  /** An inner block leaves the heads alone. */
  lemma InnerBlockIsNoHead(c: Chain, out: set<Id>, p: Id)
    requires c.store.Linked() && p in c.store.blocks && !Listed(c.store, c.heads, p)
    ensures Without(c, out + {p}).heads == Without(c, out).heads
  {
    var content := c.store.blocks[p].block.contentId;
    var was := Without(c, out).heads;
    assert Contents(c.store, out + {p}) == Contents(c.store, out) + {content};
    KeepTwice(c.heads, HeadKey, Contents(c.store, out), {content});
    assert forall h :: h in was ==> h in c.heads;
    KeepAll(was, HeadKey, {content});
  }

  /** Every block under `top` can be pruned. */
  ghost predicate Branch(c: Chain, top: set<Id>) {
    forall y :: y in Below(c.store, top) ==> Prunable(c, y)
  }

  lemma BranchKids(c: Chain, p: Id)
    requires Indexed(c) && Live(c.store, p) && Branch(c, {p})
    ensures var kids := Children(c.store, p);
            && Prunable(c, p) && Branch(c, Elems(kids)) && NoDup(kids)
            && (forall k :: k in kids ==> Live(c.store, k) && Height(c.store, k) == Height(c.store, p) + 1)
            && Below(c.store, {p}) == {p} + Below(c.store, Elems(kids))
            && p !in Below(c.store, Elems(kids))
            && (kids == [] ==> Below(c.store, Elems(kids)) == {})
  {
    assert Under(c.store, p, p);
    assert Prunable(c, p);
    BelowOne(c.store, p);
  }

  /** Nothing under `top` has been taken out yet. */
  ghost predicate Untouched(c: Chain, out: set<Id>, top: set<Id>) {
    forall y :: y in Below(c.store, top) ==> y !in out
  }

  /** The head at the front is not among the blocks taken out. */
  ghost predicate FrontStays(c: Chain, out: set<Id>) {
    c.heads != [] && c.heads[0].contentId !in Contents(c.store, out)
  }

  lemma BranchLeavesFront(c: Chain, out: set<Id>, gone: set<Id>)
    requires FrontStays(c, out) && forall y :: y in gone ==> Prunable(c, y)
    ensures FrontStays(c, out + gone)
  {
  }

  lemma OwnSlot(c: Chain, p: Id)
    requires SlotsOk(c) && c.store.Linked() && p in c.store.blocks
    ensures var t := c.store.blocks[p].block.timeslot;
            && t in c.slots && p in c.slots[t]
            && (forall u :: u in c.slots ==> DistinctKeys(c.slots[u], Self) && (p in c.slots[u] ==> u == t))
  {
    assert Filed(c.slots, c.store.blocks[p].block);
    assert forall u :: u in c.slots ==> SlotOk(c.store, u, c.slots[u]);
  }

  /** What is left to do once a block is out of the store and of its timeslot. */
  lemma PruneBlockUnfold(c: Chain, out: set<Id>, p: Id)
    requires Indexed(c) && Live(c.store, p) && p !in out && Prunable(c, p)
    requires FrontStays(c, out)
    ensures PruneBlock(Without(c, out), p) ==
            if Children(c.store, p) == [] then Ok(Without(c, out + {p}))
            else PruneBlocks(Without(c, out + {p}), Children(c.store, p))
  {
    RemovedIsWithout(c, out, p);
    OwnSlot(c, p);
    hide SlotsOk;
    DropFromSlotIsWithout(c.slots, out, c.store.blocks[p].block.timeslot, p);
    if Children(c.store, p) == [] {
      PruneBranchIsWithout(c, out, p);
    } else {
      InnerBlockIsNoHead(c, out, p);
    }
  }

  /** Pruning a block that still stands takes out exactly its descendants, without panicking. */
  lemma {:induction false} PruneBlockIsWithout(c: Chain, out: set<Id>, p: Id, all: set<Id>)
    requires Indexed(c) && Live(c.store, p) && Untouched(c, out, {p}) && Branch(c, {p})
    requires FrontStays(c, out) && all == out + Below(c.store, {p})
    ensures PruneBlock(Without(c, out), p) == Ok(Without(c, all))
    decreases Below(c.store, {p}), 0
  {
    hide PruneBlock, PruneBlocks, Without, Branch, Prunable, Indexed, Below, FrontStays, Live;
    var kids := Children(c.store, p);
    BranchKids(c, p);
    PruneBlockUnfold(c, out, p);
    if kids == [] {
      assert all == out + {p};
    } else {
      assert all == out + {p} + Below(c.store, Elems(kids));
      BranchLeavesFront(c, out, {p});
      PruneBlocksIsWithout(c, out + {p}, kids, Height(c.store, p) + 1, all);
    }
  }

  lemma {:induction false} PruneBlocksIsWithout(c: Chain, out: set<Id>, ids: seq<Id>, h: nat, all: set<Id>)
    requires Indexed(c) && NoDup(ids) && Untouched(c, out, Elems(ids)) && Branch(c, Elems(ids))
    requires forall x :: x in ids ==> Live(c.store, x) && Height(c.store, x) == h
    requires FrontStays(c, out) && all == out + Below(c.store, Elems(ids))
    ensures PruneBlocks(Without(c, out), ids) == Ok(Without(c, all))
    decreases Below(c.store, Elems(ids)), |ids|
  {
    hide PruneBlock, Without, Prunable, FrontStays, SlotsOk, Placed;
    var m := c.store;
    if ids == [] {
      assert Below(m, Elems(ids)) == {};
      assert all == out;
    } else {
      BelowSplit(m, ids, h);
      var first, rest := Below(m, {ids[0]}), Below(m, Elems(ids[1..]));
      assert Under(m, ids[0], ids[0]);
      assert ids[0] in first && rest < Below(m, Elems(ids));
      BranchLeavesFront(c, out, first);
      PruneBlockIsWithout(c, out, ids[0], out + first);
      assert all == out + first + rest;
      PruneBlocksIsWithout(c, out + first, ids[1..], h, all);
    }
  }

  // ----- what stays when a set of whole branches goes

  /** `out` holds proposer blocks only, each with all its descendants. */
  ghost predicate WholeBranches(m: Store, out: set<Id>) {
    && (forall p :: p in out ==> Live(m, p))
    && (forall z :: Live(m, z) && Height(m, z) > 0 && ParentOf(m, z) in out ==> z in out)
  }

  lemma BelowIsWhole(m: Store, ids: set<Id>)
    requires Tree(m)
    ensures WholeBranches(m, Below(m, ids))
  {
    forall z | Live(m, z) && Height(m, z) > 0 && ParentOf(m, z) in Below(m, ids) ensures z in Below(m, ids) {
      var q := ParentOf(m, z);
      assert Placed(m, z);
      var x :| x in ids && Under(m, q, x);
      assert Under(m, z, q);
      UnderTrans(m, z, q, x);
    }
  }

  lemma WithoutNone(c: Chain)
    ensures Without(c, {}) == c
  {
    assert Contents(c.store, {}) == {};
    assert c.store.blocks - {} == c.store.blocks && c.store.proofOf - {} == c.store.proofOf;
    forall t | t in c.slots ensures Keep(c.slots[t], Self, {}) == c.slots[t] { KeepAll(c.slots[t], Self, {}); }
    assert WithoutSlots(c.slots, {}) == c.slots;
    KeepAll(c.heads, HeadKey, {});
  }

  lemma WithoutContents(m: Store, out: set<Id>, p: Id)
    requires m.Linked() && p in m.blocks
    ensures m.blocks[p].block.contentId in Contents(m, out) <==> p in out
  {
  }

  lemma WithoutLinks(c: Chain, out: set<Id>)
    requires c.store.Linked()
    ensures Without(c, out).store.Linked()
    ensures forall p :: p in c.store.blocks && p !in out ==>
              c.store.blocks[p].block.contentId in Without(c, out).store.proofOf
  {
    forall p | p in c.store.blocks
      ensures c.store.blocks[p].block.contentId in Contents(c.store, out) <==> p in out
    {
      WithoutContents(c.store, out, p);
    }
  }

  lemma WithoutPlaced(c: Chain, out: set<Id>, z: Id)
    requires c.store.Linked() && WholeBranches(c.store, out) && z in c.store.blocks && z !in out && Placed(c.store, z)
    ensures Placed(Without(c, out).store, z)
    ensures Live(c.store, z) ==> ParentOf(Without(c, out).store, z) == ParentOf(c.store, z)
    ensures Live(c.store, z) && Height(c.store, z) > 0 ==> ParentOf(c.store, z) !in out
  {
    if HasParentBlock(c.store.blocks[z].block) {
      WithoutContents(c.store, out, ParentOf(c.store, z));
    }
  }

  lemma WithoutTree(c: Chain, out: set<Id>)
    requires Tree(c.store) && WholeBranches(c.store, out)
    ensures Tree(Without(c, out).store) && KeepsAncestry(c.store, Without(c, out).store, out)
    ensures forall p :: Live(Without(c, out).store, p) <==> Live(c.store, p) && p !in out
  {
    WithoutLinks(c, out);
    forall z | z in c.store.blocks && z !in out
      ensures Placed(Without(c, out).store, z)
      ensures Live(c.store, z) ==> ParentOf(Without(c, out).store, z) == ParentOf(c.store, z)
      ensures Live(c.store, z) && Height(c.store, z) > 0 ==> ParentOf(c.store, z) !in out
    {
      WithoutPlaced(c, out, z);
    }
    hide Placed, ParentOf, Store.Linked, WholeBranches;
  }

  lemma WithoutSlotsOk(c: Chain, out: set<Id>)
    requires SlotsOk(c) && Tree(c.store)
    ensures SlotsOk(Without(c, out))
  {
    var d := Without(c, out);
    forall t | t in d.slots ensures SlotOk(d.store, t, d.slots[t]) {
      assert SlotOk(c.store, t, c.slots[t]);
      KeepDistinct(c.slots[t], Self, out);
    }
    forall p | p in d.store.blocks ensures Filed(d.slots, d.store.blocks[p].block) {
      assert Filed(c.slots, c.store.blocks[p].block);
    }
  }
}
