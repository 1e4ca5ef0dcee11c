/** The order of an epoch's branches, which decides between shortest branches. */
module BranchOrder {
  import opened Basics
  import opened Epochs

  /** The proofs that opened a branch, in order: those whose parent was not a leaf when they came. */
  ghost function Openers(adds: seq<Add>): (r: seq<Id>) {
    if adds == [] then []
    else
      var before, a := adds[..|adds| - 1], adds[|adds| - 1];
      Openers(before) + if IsLeaf(ForestOf(before), a.parent) then [] else [a.id]
  }

  /** A proof lies on the branch, and no later one of the branch opened a branch. */
  ghost predicate BornWith(branch: Branch, openers: seq<Id>, x: Id) {
    exists k :: 0 <= k < |branch| && branch[k] == x && NoneAfter(branch, openers, k)
  }

  ghost predicate NoneAfter(branch: Branch, openers: seq<Id>, k: nat) {
    forall m :: k < m < |branch| ==> branch[m] !in openers
  }

  ghost predicate InOrder(branches: seq<Branch>, openers: seq<Id>) {
    |branches| == |openers| && forall i :: 0 <= i < |branches| ==> BornWith(branches[i], openers, openers[i])
  }

  lemma LeafIffLast(f: Forest, path: Branch, k: nat)
    requires RootToLeaf(f, path) && k < |path|
    ensures IsLeaf(f, path[k]) <==> k == |path| - 1
  {
    hide IsPath, IsLeaf;
    if k + 1 < |path| {
      HasChild(f, path, k);
    }
  }

  /** A proof extends a branch exactly when its parent is a leaf. */
  lemma ExtendsIffLeaf(f: Forest, branches: seq<Branch>, parent: Id)
    requires BranchesOk(f, branches)
    ensures
      var i := FirstWith(branches, parent);
      IsLeaf(f, parent) <==> i < |branches| && LastIndex(branches[i], parent) == |branches[i]| - 1
  {
    hide LastIndex, FirstWith, TailsDiffer, RootToLeaf;
    var i := FirstWith(branches, parent);
    if i < |branches| {
      LeafIffLast(f, branches[i], LastIndex(branches[i], parent));
    } else {
      assert !Held(branches, parent);
    }
  }

  lemma ExtendInOrder(branches: seq<Branch>, openers: seq<Id>, i: nat, id: Id)
    requires InOrder(branches, openers) && i < |branches| && id !in openers
    ensures InOrder(branches[i := branches[i] + [id]], openers)
  {
    var r := branches[i := branches[i] + [id]];
    assert BornWith(branches[i], openers, openers[i]);
    var k :| 0 <= k < |branches[i]| && branches[i][k] == openers[i] && NoneAfter(branches[i], openers, k);
    assert r[i][k] == openers[i] && NoneAfter(r[i], openers, k);
    forall j | 0 <= j < |r| && j != i ensures BornWith(r[j], openers, openers[j]) {
      assert r[j] == branches[j];
    }
  }

  lemma OpenInOrder(branches: seq<Branch>, openers: seq<Id>, branch: Branch, id: Id)
    requires InOrder(branches, openers) && branch != [] && branch[|branch| - 1] == id
    requires forall i :: 0 <= i < |branches| ==> id !in branches[i]
    ensures InOrder(branches + [branch], openers + [id])
  {
    var r, s := branches + [branch], openers + [id];
    forall j | 0 <= j < |r| ensures BornWith(r[j], s, s[j]) {
      if j == |branches| {
        assert branch[|branch| - 1] == s[j] && NoneAfter(branch, s, |branch| - 1);
      } else {
        assert BornWith(branches[j], openers, openers[j]);
        var k :| 0 <= k < |branches[j]| && branches[j][k] == openers[j] && NoneAfter(branches[j], openers, k);
        assert r[j][k] == s[j] && NoneAfter(r[j], s, k);
      }
    }
  }

  lemma {:induction false} OpenersAreIds(adds: seq<Add>, x: Id)
    requires x in Openers(adds)
    ensures x in ForestOf(adds)
  {
    if adds != [] && x in Openers(adds[..|adds| - 1]) {
      OpenersAreIds(adds[..|adds| - 1], x);
    }
  }

  lemma NewIsNowhere(adds: seq<Add>, id: Id)
    requires FreshIds(adds) && id !in ForestOf(adds)
    ensures id !in Openers(adds) && forall i :: 0 <= i < |BranchesOf(adds)| ==> id !in BranchesOf(adds)[i]
  {
    hide Openers, ForestOf, BranchesOf;
    BranchesStayOk(adds);
    if id in Openers(adds) {
      OpenersAreIds(adds, id);
    }
    forall i | 0 <= i < |BranchesOf(adds)| ensures id !in BranchesOf(adds)[i] {
      assert RootToLeaf(ForestOf(adds), BranchesOf(adds)[i]);
    }
  }

  /**
   * The branches stand in the order in which they were opened: as many as there are
   * proofs that opened one, and the i-th is the one on which the i-th such proof lies
   * with none of them after it.
   */
  lemma {:induction false} BranchesInOpeningOrder(adds: seq<Add>)
    requires FreshIds(adds)
    ensures InOrder(BranchesOf(adds), Openers(adds))
  {
    hide FirstWith, LastIndex, InOrder, IsLeaf;
    if adds == [] {
      NothingInOrder();
    } else {
      var before, a := adds[..|adds| - 1], adds[|adds| - 1];
      BranchesInOpeningOrder(before);
      BranchesStayOk(before);
      ForestKeys(before);
      NewIsNowhere(before, a.id);
      var branches, openers := BranchesOf(before), Openers(before);
      ExtendsIffLeaf(ForestOf(before), branches, a.parent);
      var i := FirstWith(branches, a.parent);
      if IsLeaf(ForestOf(before), a.parent) {
        ExtendInOrder(branches, openers, i, a.id);
        assert Openers(adds) == openers;
      } else {
        var r := BranchesOf(adds);
        OpenInOrder(branches, openers, r[|r| - 1], a.id);
      }
    }
  }

  lemma NothingInOrder()
    ensures InOrder(BranchesOf([]), Openers([]))
  {
  }
}
