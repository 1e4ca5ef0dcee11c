/** The randomness of an epoch: branches of proofs and the proof that closes it. */
module Epochs {
  import opened Basics

  /** Hashes are told apart by what they are the hash of. */
  datatype Randomness = GenesisSeed | EpochDigest(epoch: nat) | ProofId(id: Id)

  type Branch = seq<Id>

  datatype EpochData = EpochData(isClosed: bool, randomness: Randomness, branches: seq<Branch>)

  function NewEpoch(index: nat): (e: EpochData) {
    EpochData(false, EpochDigest(index), [])
  }

  // ----- adding a proof

  /** Position of the last occurrence in a branch, or its length. */
  function LastIndex(branch: Branch, id: Id): (i: nat)
    ensures i <= |branch| && (i < |branch| ==> branch[i] == id)
    ensures i == |branch| <==> id !in branch
    ensures forall j :: i < j < |branch| ==> branch[j] != id
  {
    if branch == [] then 0
    else if branch[|branch| - 1] == id then |branch| - 1
    else
      var i := LastIndex(branch[..|branch| - 1], id);
      if i == |branch| - 1 then |branch| else i
  }

  /** Index of the first branch that holds a proof, or the number of branches. */
  function FirstWith(branches: seq<Branch>, id: Id): (i: nat)
    ensures i <= |branches| && (i < |branches| ==> id in branches[i])
    ensures i == |branches| <==> forall j :: 0 <= j < |branches| ==> id !in branches[j]
    ensures forall j :: 0 <= j < i ==> id !in branches[j]
  {
    if branches == [] then 0 else if id in branches[0] then 0 else 1 + FirstWith(branches[1..], id)
  }

  /** Extends the branch that ends in the parent, forks the one that passes through it, or opens a new one. */
  function AddToBranches(branches: seq<Branch>, parent: Id, id: Id): (r: seq<Branch>) {
    var i := FirstWith(branches, parent);
    if i == |branches| then branches + [[id]]
    else
      var k := LastIndex(branches[i], parent);
      if k == |branches[i]| - 1 then branches[i := branches[i] + [id]]
      else branches + [branches[i][..k + 1] + [id]]
  }

  function WithProof(e: EpochData, parent: Id, id: Id): (r: EpochData) {
    e.(branches := AddToBranches(e.branches, parent, id))
  }

  // ----- closing

  /** Lowest index of a shortest branch. */
  function Shortest(branches: seq<Branch>): (i: nat)
    requires branches != []
    ensures i < |branches|
    ensures forall j :: 0 <= j < |branches| ==> |branches[i]| <= |branches[j]|
    ensures forall j :: 0 <= j < i ==> |branches[i]| < |branches[j]|
  {
    if |branches| == 1 then 0
    else
      var i := Shortest(branches[..|branches| - 1]);
      if |branches[|branches| - 1]| < |branches[i]| then |branches| - 1 else i
  }

  function Closed(e: EpochData, currentEpoch: nat): (r: EpochData)
    requires forall i :: 0 <= i < |e.branches| ==> e.branches[i] != []
  {
    var randomness := if e.branches == [] then EpochDigest(currentEpoch)
                      else ProofId(e.branches[Shortest(e.branches)][0]);
    EpochData(true, randomness, [])
  }

  // ----- the forest of recorded parent links

  datatype Add = Add(parent: Id, id: Id)

  /** Each added proof with its parent, when the parent was in the epoch already. */
  type Forest = map<Id, Option<Id>>

  function ForestOf(adds: seq<Add>): (f: Forest) {
    if adds == [] then map[]
    else
      var f, a := ForestOf(adds[..|adds| - 1]), adds[|adds| - 1];
      f[a.id := if a.parent in f then Some(a.parent) else None]
  }

  function BranchesOf(adds: seq<Add>): (r: seq<Branch>) {
    if adds == [] then []
    else AddToBranches(BranchesOf(adds[..|adds| - 1]), adds[|adds| - 1].parent, adds[|adds| - 1].id)
  }

  ghost predicate FreshIds(adds: seq<Add>) {
    forall i, j :: 0 <= i < j < |adds| ==> adds[i].id != adds[j].id
  }

  /** A path of parent links that starts at a root. */
  ghost predicate IsPath(f: Forest, path: Branch) {
    && path != [] && (forall i :: 0 <= i < |path| ==> path[i] in f) && f[path[0]] == None
    && forall i :: 0 < i < |path| ==> f[path[i]] == Some(path[i - 1])
  }

  ghost predicate IsLeaf(f: Forest, x: Id) {
    x in f && forall y :: y in f ==> f[y] != Some(x)
  }

  ghost predicate RootToLeaf(f: Forest, path: Branch) {
    IsPath(f, path) && IsLeaf(f, path[|path| - 1])
  }

  ghost predicate Held(branches: seq<Branch>, x: Id) {
    exists i :: 0 <= i < |branches| && x in branches[i]
  }

  function Tail(b: Branch): (x: Id)
  {
    if b == [] then 0 else b[|b| - 1]
  }

  /** The branches are root-to-leaf paths with different tails, and every proof lies on one. */
  ghost predicate BranchesOk(f: Forest, branches: seq<Branch>) {
    AllRootToLeaf(f, branches) && TailsDiffer(branches) && AllHeld(f, branches)
  }

  ghost predicate AllRootToLeaf(f: Forest, branches: seq<Branch>) {
    forall i :: 0 <= i < |branches| ==> RootToLeaf(f, branches[i])
  }

  ghost predicate TailsDiffer(branches: seq<Branch>) {
    forall i, j :: 0 <= i < j < |branches| ==> Tail(branches[i]) != Tail(branches[j])
  }

  ghost predicate AllHeld(f: Forest, branches: seq<Branch>) {
    forall x :: x in f ==> Held(branches, x)
  }

  lemma LinkAt(f: Forest, path: Branch, k: nat)
    requires IsPath(f, path) && 0 < k < |path|
    ensures f[path[k]] == Some(path[k - 1])
  {
  }

  lemma LastLink(f: Forest, path: Branch)
    requires IsPath(f, path)
    ensures f[path[|path| - 1]] == if |path| == 1 then None else Some(path[|path| - 2])
  {
  }

  /** A path is determined by where it ends. */
  lemma {:induction false} PathUnique(f: Forest, p: Branch, q: Branch)
    requires IsPath(f, p) && IsPath(f, q) && p[|p| - 1] == q[|q| - 1]
    ensures p == q
    decreases |p|
  {
    var m, n := |p| - 1, |q| - 1;
    LastLink(f, p);
    LastLink(f, q);
    if m == 0 {
      assert n == 0;
    } else {
      assert n > 0 && q[n - 1] == p[m - 1];
      PathUnique(f, p[..m], q[..n]);
    }
    assert p == p[..m] + [p[m]] && q == q[..n] + [q[n]];
  }

  lemma HasChild(f: Forest, path: Branch, i: nat)
    requires IsPath(f, path) && i + 1 < |path|
    ensures !IsLeaf(f, path[i])
  {
    assert f[path[i + 1]] == Some(path[i]);
  }

  /** On a path a leaf can only come last. */
  lemma LeafIsTail(f: Forest, path: Branch, x: Id)
    requires IsPath(f, path) && IsLeaf(f, x) && x in path
    ensures path[|path| - 1] == x
  {
    var i :| 0 <= i < |path| && path[i] == x;
    if i + 1 < |path| {
      HasChild(f, path, i);
    }
  }

  lemma PathPrefix(f: Forest, path: Branch, k: nat)
    requires IsPath(f, path) && 0 < k <= |path|
    ensures IsPath(f, path[..k])
  {
  }

  lemma PathGrows(f: Forest, path: Branch, id: Id, n: Forest)
    requires IsPath(f, path) && id !in f && n == f[id := Some(path[|path| - 1])]
    ensures IsPath(n, path) && IsPath(n, path + [id])
  {
  }

  /** A root-to-leaf path stays one when a proof is added that does not hang below its tail. */
  lemma RootToLeafStays(f: Forest, path: Branch, id: Id, parent: Option<Id>)
    requires RootToLeaf(f, path) && id !in f && parent != Some(path[|path| - 1])
    ensures RootToLeaf(f[id := parent], path)
  {
  }

  lemma NewTipIsLeaf(f: Forest, id: Id, parent: Option<Id>)
    requires id !in f && (forall y :: y in f ==> f[y] != Some(id)) && parent != Some(id)
    ensures IsLeaf(f[id := parent], id)
  {
  }

  /** Where a proof is held. */
  lemma Locate(f: Forest, branches: seq<Branch>, x: Id) returns (i: nat, k: nat)
    requires BranchesOk(f, branches) && x in f
    ensures i < |branches| && k < |branches[i]| && branches[i][k] == x
  {
    hide AllRootToLeaf, TailsDiffer, RootToLeaf;
    assert Held(branches, x);
    i :| 0 <= i < |branches| && x in branches[i];
    k :| 0 <= k < |branches[i]| && branches[i][k] == x;
  }

  /** Parents are proofs of the forest, so a proof outside it has no children. */
  lemma NoChildren(f: Forest, branches: seq<Branch>, id: Id, y: Id)
    requires BranchesOk(f, branches) && id !in f && y in f
    ensures f[y] != Some(id)
  {
    hide AllHeld, TailsDiffer;
    var i, k := Locate(f, branches, y);
    assert RootToLeaf(f, branches[i]);
    assert k > 0 ==> branches[i][k - 1] in f;
  }

  /** What was held stays held when every branch is kept or extended. */
  lemma HeldStays(branches: seq<Branch>, r: seq<Branch>, x: Id)
    requires Held(branches, x) && |branches| <= |r|
    requires forall i :: 0 <= i < |branches| ==> branches[i] <= r[i]
    ensures Held(r, x)
  {
    var i :| 0 <= i < |branches| && x in branches[i];
    var k :| 0 <= k < |branches[i]| && branches[i][k] == x;
    assert r[i][k] == x;
  }

  /** The result has the old branches, except that the one at `at` is extended or new. */
  ghost predicate Extends(branches: seq<Branch>, r: seq<Branch>, at: nat) {
    && |branches| <= |r| && at < |r|
    && (forall i :: 0 <= i < |r| && i != at ==> i < |branches| && r[i] == branches[i])
    && (at < |branches| ==> branches[at] <= r[at])
  }

  ghost predicate OthersEndElsewhere(branches: seq<Branch>, at: nat, parent: Option<Id>) {
    forall i :: 0 <= i < |branches| && i != at ==> parent != Some(Tail(branches[i]))
  }

  lemma StepKeepsPaths(f: Forest, branches: seq<Branch>, r: seq<Branch>, at: nat, id: Id, parent: Option<Id>)
    requires AllRootToLeaf(f, branches) && id !in f && parent != Some(id)
    requires forall y :: y in f ==> f[y] != Some(id)
    requires Extends(branches, r, at) && OthersEndElsewhere(branches, at, parent)
    requires IsPath(f[id := parent], r[at]) && Tail(r[at]) == id
    ensures AllRootToLeaf(f[id := parent], r)
  {
    NewTipIsLeaf(f, id, parent);
    forall i | 0 <= i < |r| ensures RootToLeaf(f[id := parent], r[i]) {
      if i != at {
        var other := r[i];
        assert i < |branches| && other == branches[i];
        RootToLeafStays(f, branches[i], id, parent);
      }
    }
  }

  lemma StepKeepsTails(f: Forest, branches: seq<Branch>, r: seq<Branch>, at: nat, id: Id)
    requires AllRootToLeaf(f, branches) && TailsDiffer(branches) && id !in f
    requires Extends(branches, r, at) && Tail(r[at]) == id
    ensures TailsDiffer(r)
  {
    forall i | 0 <= i < |branches| ensures Tail(branches[i]) in f {
      assert RootToLeaf(f, branches[i]);
    }
  }

  lemma StepKeepsHeld(f: Forest, branches: seq<Branch>, r: seq<Branch>, at: nat, id: Id, parent: Option<Id>)
    requires AllHeld(f, branches) && Extends(branches, r, at) && r[at] != [] && Tail(r[at]) == id
    ensures AllHeld(f[id := parent], r)
  {
    forall x | x in f[id := parent] ensures Held(r, x) {
      if x == id {
        assert x in r[at];
      } else {
        HeldStays(branches, r, x);
      }
    }
  }

  /**
   * The general step: the branch at `at` becomes a path to the new proof, and
   * no other branch ends in its parent.
   */
  lemma StepKeepsOk(f: Forest, branches: seq<Branch>, r: seq<Branch>, at: nat, id: Id, parent: Option<Id>)
    requires BranchesOk(f, branches) && id !in f && parent != Some(id)
    requires Extends(branches, r, at) && OthersEndElsewhere(branches, at, parent)
    requires IsPath(f[id := parent], r[at]) && Tail(r[at]) == id
    ensures BranchesOk(f[id := parent], r)
  {
    hide Extends, AllRootToLeaf, AllHeld, TailsDiffer, OthersEndElsewhere, RootToLeaf, Held;
    forall y | y in f ensures f[y] != Some(id) { NoChildren(f, branches, id, y); }
    StepKeepsPaths(f, branches, r, at, id, parent);
    StepKeepsTails(f, branches, r, at, id);
    StepKeepsHeld(f, branches, r, at, id, parent);
  }

  /** A parent that the first scan meets at position `k` of branch `i`. */
  lemma AddBelow(f: Forest, branches: seq<Branch>, i: nat, k: nat, id: Id)
    requires BranchesOk(f, branches) && id !in f && i < |branches| && k < |branches[i]|
    ensures branches[i][k] in f && IsPath(f[id := Some(branches[i][k])], branches[i][..k + 1] + [id])
    ensures k < |branches[i]| - 1 ==> OthersEndElsewhere(branches, |branches|, Some(branches[i][k]))
    ensures k == |branches[i]| - 1 ==> OthersEndElsewhere(branches, i, Some(branches[i][k]))
  {
    hide AllHeld, Held;
    var parent := branches[i][k];
    assert RootToLeaf(f, branches[i]);
    PathPrefix(f, branches[i], k + 1);
    PathGrows(f, branches[i][..k + 1], id, f[id := Some(parent)]);
    if k < |branches[i]| - 1 {
      HasChild(f, branches[i], k);
      forall j | 0 <= j < |branches| ensures parent != Tail(branches[j]) {
        assert RootToLeaf(f, branches[j]);
      }
    }
  }

  /** Adding a proof that the epoch does not hold yet. */
  lemma AddKeepsOk(f: Forest, branches: seq<Branch>, parent: Id, id: Id)
    requires BranchesOk(f, branches) && id !in f
    ensures BranchesOk(f[id := if parent in f then Some(parent) else None], AddToBranches(branches, parent, id))
  {
    hide AllRootToLeaf, TailsDiffer, RootToLeaf, IsPath, FirstWith, LastIndex;
    var i := FirstWith(branches, parent);
    var r := AddToBranches(branches, parent, id);
    if i == |branches| {
      assert parent !in f by { assert parent in f ==> Held(branches, parent); }
      SingletonPath(f, id);
      StepKeepsOk(f, branches, r, i, id, None);
    } else {
      var k := LastIndex(branches[i], parent);
      AddBelow(f, branches, i, k, id);
      if k == |branches[i]| - 1 {
        assert branches[i][..k + 1] == branches[i];
        StepKeepsOk(f, branches, r, i, id, Some(parent));
      } else {
        StepKeepsOk(f, branches, r, |branches|, id, Some(parent));
      }
    }
  }

  lemma SingletonPath(f: Forest, id: Id)
    ensures IsPath(f[id := None], [id]) && Tail([id]) == id
  {
  }

  lemma {:induction false} ForestKeys(adds: seq<Add>)
    ensures ForestOf(adds).Keys == set i | 0 <= i < |adds| :: adds[i].id
  {
    if adds != [] {
      ForestKeys(adds[..|adds| - 1]);
    }
  }

  lemma {:induction false} BranchesStayOk(adds: seq<Add>)
    requires FreshIds(adds)
    ensures BranchesOk(ForestOf(adds), BranchesOf(adds))
  {
    if adds != [] {
      var before, a := adds[..|adds| - 1], adds[|adds| - 1];
      BranchesStayOk(before);
      ForestKeys(before);
      AddKeepsOk(ForestOf(before), BranchesOf(before), a.parent, a.id);
    }
  }

  lemma RootToLeafIsBranch(f: Forest, branches: seq<Branch>, path: Branch)
    requires BranchesOk(f, branches) && RootToLeaf(f, path)
    ensures path in branches
  {
    hide AllHeld, TailsDiffer;
    var x := path[|path| - 1];
    var i, k := Locate(f, branches, x);
    assert RootToLeaf(f, branches[i]);
    LeafIsTail(f, branches[i], x);
    PathUnique(f, path, branches[i]);
  }

  /**
   * Whatever proofs are added in whatever order, the branches are exactly the
   * root-to-leaf paths of the recorded parent links, each once.
   */
  lemma BranchesAreRootToLeafPaths(adds: seq<Add>)
    requires FreshIds(adds)
    ensures forall path :: path in BranchesOf(adds) <==> RootToLeaf(ForestOf(adds), path)
    ensures NoDup(BranchesOf(adds))
  {
    hide RootToLeaf, Held, AllHeld, ForestOf, BranchesOf;
    BranchesStayOk(adds);
    var f, branches := ForestOf(adds), BranchesOf(adds);
    forall path | RootToLeaf(f, path) ensures path in branches {
      RootToLeafIsBranch(f, branches, path);
    }
  }

  // ----- what the closing proof is

  /** Every proof after the first has its parent among the proofs added before it. */
  ghost predicate ParentsPresent(adds: seq<Add>) {
    forall i :: 0 < i < |adds| ==> adds[i].parent in Ids(adds[..i])
  }

  function Ids(adds: seq<Add>): (r: set<Id>)
    ensures forall i :: 0 <= i < |adds| ==> adds[i].id in r
    ensures forall x :: x in r ==> exists i :: 0 <= i < |adds| && adds[i].id == x
  {
    set i | 0 <= i < |adds| :: adds[i].id
  }

  ghost predicate RootedAt(branches: seq<Branch>, root: Id) {
    forall i :: 0 <= i < |branches| ==> branches[i] != [] && branches[i][0] == root
  }

  /** Which proofs of the forest have no parent in it. */
  lemma {:induction false} RootsOf(adds: seq<Add>, i: nat)
    requires FreshIds(adds) && i < |adds|
    ensures adds[i].id in ForestOf(adds)
    ensures ForestOf(adds)[adds[i].id] == None <==> adds[i].parent !in Ids(adds[..i])
  {
    var n := |adds| - 1;
    ForestKeys(adds);
    if i == n {
      ForestKeys(adds[..n]);
    } else {
      RootsOf(adds[..n], i);
      assert adds[..n][..i] == adds[..i];
    }
  }

  /** A root starts the branch it lies on. */
  lemma RootStartsBranch(f: Forest, branches: seq<Branch>, x: Id) returns (i: nat)
    requires BranchesOk(f, branches) && x in f && f[x] == None
    ensures i < |branches| && branches[i] != [] && branches[i][0] == x
  {
    hide AllHeld, TailsDiffer;
    var k;
    i, k := Locate(f, branches, x);
    assert RootToLeaf(f, branches[i]);
    if k > 0 {
      LinkAt(f, branches[i], k);
    }
  }

  /**
   * All branches share one first proof, and the closing proof is therefore
   * confirmed by every other, exactly when no later proof came without its parent.
   */
  lemma OneRootIffParentsPresent(adds: seq<Add>)
    requires FreshIds(adds) && adds != []
    ensures RootedAt(BranchesOf(adds), adds[0].id) <==> ParentsPresent(adds)
  {
    hide BranchesOk, AllHeld, TailsDiffer, AllRootToLeaf, ForestOf, BranchesOf;
    BranchesStayOk(adds);
    var f, branches := ForestOf(adds), BranchesOf(adds);
    if ParentsPresent(adds) {
      forall i | 0 <= i < |branches| ensures branches[i] != [] && branches[i][0] == adds[0].id {
        BranchRoot(adds, i);
      }
    } else {
      var i :| 0 < i < |adds| && adds[i].parent !in Ids(adds[..i]);
      RootsOf(adds, i);
      var b := RootStartsBranch(f, branches, adds[i].id);
      assert branches[b][0] != adds[0].id;
    }
  }

  lemma BranchRoot(adds: seq<Add>, i: nat)
    requires FreshIds(adds) && adds != [] && ParentsPresent(adds) && i < |BranchesOf(adds)|
    ensures BranchesOf(adds)[i] != [] && BranchesOf(adds)[i][0] == adds[0].id
  {
    hide AllHeld, TailsDiffer;
    BranchesStayOk(adds);
    var f, b := ForestOf(adds), BranchesOf(adds)[i];
    assert RootToLeaf(f, b);
    ForestKeys(adds);
    var k :| 0 <= k < |adds| && adds[k].id == b[0];
    RootsOf(adds, k);
  }

  /**
   * The epoch closes on a proof that every other proof of the epoch confirms
   * exactly when no later proof came without its parent; that proof is then the
   * first one added.  This is a common root, which is more than most confirmations.
   */
  lemma ClosesOnCommonRootIff(adds: seq<Add>, e: EpochData, currentEpoch: nat)
    requires FreshIds(adds) && adds != [] && e.branches == BranchesOf(adds)
    ensures forall i :: 0 <= i < |e.branches| ==> e.branches[i] != []
    ensures Closed(e, currentEpoch).randomness.ProofId?
    ensures RootedAt(e.branches, Closed(e, currentEpoch).randomness.id) <==> ParentsPresent(adds)
    ensures ParentsPresent(adds) ==> Closed(e, currentEpoch).randomness == ProofId(adds[0].id)
  {
    hide AllHeld, TailsDiffer, ForestOf;
    OneRootIffParentsPresent(adds);
    BranchesStayOk(adds);
    RootsOf(adds, 0);
    forall i | 0 <= i < |e.branches| ensures e.branches[i] != [] {
      assert RootToLeaf(ForestOf(adds), e.branches[i]);
    }
    var i := RootStartsBranch(ForestOf(adds), e.branches, adds[0].id);
  }

  /**
   * The code's own comment wants the proof with most confirmations, but the
   * shortest branch decides: here 2 confirms 1, nothing confirms 3, and 3 wins.
   */
  lemma ShortestBranchWins()
    ensures
      var adds := [Add(9, 1), Add(1, 2), Add(8, 3)];
      && FreshIds(adds) && !ParentsPresent(adds) && BranchesOf(adds) == [[1, 2], [3]]
      && Closed(EpochData(false, EpochDigest(0), [[1, 2], [3]]), 1).randomness == ProofId(3)
  {
    hide Shortest, BranchesOf, LastIndex, FirstWith;
    var adds := [Add(9, 1), Add(1, 2), Add(8, 3)];
    FirstTwo();
    BranchesStep([Add(9, 1), Add(1, 2)], Add(8, 3));
    assert [Add(9, 1), Add(1, 2)] + [Add(8, 3)] == adds && [Add(9, 1), Add(1, 2)] == adds[..2];
    var two: Branch := [1, 2];
    assert 8 !in two && FirstWith([two], 8) == 1;
    assert AddToBranches([two], 8, 3) == [two, [3]];
    assert adds[2].parent !in Ids(adds[..2]);
    var both := [two, [3]];
    assert both[1] == [3] && |both[0]| == 2 && Shortest(both) == 1;
  }

  /** A proof starts a branch that no other branch exceeds. */
  ghost predicate MostConfirmed(branches: seq<Branch>, root: Id) {
    exists i :: 0 <= i < |branches| && branches[i] != [] && branches[i][0] == root
      && forall j :: 0 <= j < |branches| ==> |branches[j]| <= |branches[i]|
  }

  /** A common root is more than most confirmations: it gives them, and a tie of two roots gives them without it. */
  lemma CommonRootIsMostConfirmed(branches: seq<Branch>, root: Id)
    requires branches != [] && RootedAt(branches, root)
    ensures MostConfirmed(branches, root)
    ensures MostConfirmed([[1], [2]], 1) && !RootedAt([[1], [2]], 1) && Shortest([[1], [2]]) == 0
  {
    var i := Longest(branches);
    assert branches[i] != [] && branches[i][0] == root;
    var tie: seq<Branch> := [[1], [2]];
    assert tie[0] == [1] && tie[1] == [2] && |tie[0]| == |tie[1]|;
    assert forall j :: 0 <= j < |tie| ==> |tie[j]| <= |tie[0]|;
    assert tie[1][0] != 1;
  }

  ghost function Longest(branches: seq<Branch>): (i: nat)
    requires branches != []
    ensures i < |branches| && forall j :: 0 <= j < |branches| ==> |branches[j]| <= |branches[i]|
  {
    if |branches| == 1 then 0
    else
      var i := Longest(branches[..|branches| - 1]);
      if |branches[|branches| - 1]| > |branches[i]| then |branches| - 1 else i
  }

  lemma FirstTwo()
    ensures BranchesOf([Add(9, 1), Add(1, 2)]) == [[1, 2]]
  {
    hide LastIndex, FirstWith, AddToBranches;
    assert AddToBranches([], 9, 1) == [[1]] by { AddFirst(9, 1); }
    BranchesStep([], Add(9, 1));
    BranchesStep([Add(9, 1)], Add(1, 2));
    assert [] + [Add(9, 1)] == [Add(9, 1)] && [Add(9, 1)] + [Add(1, 2)] == [Add(9, 1), Add(1, 2)];
    var one: Branch := [1];
    assert one + [2] == [1, 2] && [one][0 := [1, 2]] == [[1, 2]];
    ParentFound([one], 1, 0, 0, 2);
  }

  lemma AddFirst(parent: Id, id: Id)
    ensures AddToBranches([], parent, id) == [[id]]
  {
  }

  lemma BranchesEmptyIff(adds: seq<Add>)
    ensures BranchesOf(adds) == [] <==> adds == []
  {
    hide FirstWith, LastIndex;
  }

  lemma BranchesStep(adds: seq<Add>, a: Add)
    ensures BranchesOf(adds + [a]) == AddToBranches(BranchesOf(adds), a.parent, a.id)
  {
    assert (adds + [a])[..|adds|] == adds;
  }

  // ----- the epoch as the program keeps it

  /** Indices below n of the branches with a given length, in order. */
  function IndicesWith(branches: seq<Branch>, n: nat, length: nat): (r: seq<nat>)
    requires n <= |branches|
    ensures forall i :: i in r <==> 0 <= i < n && |branches[i]| == length
    ensures forall k :: 0 <= k < |r| ==> r[0] <= r[k] < n
  {
    if n == 0 then []
    else
      var before := IndicesWith(branches, n - 1, length);
      if |branches[n - 1]| == length then before + [n - 1] else before
  }

  /** What the scan for the parent has found when it stops. */
  lemma ParentFound(branches: seq<Branch>, parent: Id, i: nat, k: nat, id: Id)
    requires i < |branches| && k < |branches[i]| && branches[i][k] == parent
    requires forall j :: 0 <= j < i ==> parent !in branches[j]
    requires forall j :: k < j < |branches[i]| ==> branches[i][j] != parent
    ensures AddToBranches(branches, parent, id) ==
            if k == |branches[i]| - 1 then branches[i := branches[i] + [id]]
            else branches + [branches[i][..k + 1] + [id]]
  {
    assert FirstWith(branches, parent) == i && LastIndex(branches[i], parent) == k;
  }

  class Epoch {
    var isClosed: bool
    var randomness: Randomness
    var branches: seq<Branch>

    function View(): (e: EpochData)
      reads this
    {
      EpochData(isClosed, randomness, branches)
    }

    constructor (index: nat)
      ensures View() == NewEpoch(index)
    {
      isClosed := false;
      randomness := EpochDigest(index);
      branches := [];
    }

    method AddProof(parent: Id, id: Id)
      modifies this
      ensures View() == WithProof(old(View()), parent, id)
    {
      hide LastIndex, FirstWith;
      if |branches| == 0 {
        branches := branches + [[id]];
        return;
      }
      for i := 0 to |branches|
        invariant View() == old(View())
        invariant forall j :: 0 <= j < i ==> parent !in branches[j]
      {
        var branch := branches[i];
        for back := 0 to |branch|
          invariant View() == old(View())
          invariant forall j :: |branch| - back <= j < |branch| ==> branch[j] != parent
        {
          if branch[|branch| - 1 - back] == parent {
            ParentFound(branches, parent, i, |branch| - 1 - back, id);
            if back == 0 {
              branches := branches[i := branch + [id]];
              return;
            }
            branches := branches + [branch[..|branch| - back] + [id]];
            return;
          }
        }
      }
      assert FirstWith(branches, parent) == |branches|;
      branches := branches + [[id]];
    }

    method IndicesByLength() returns (byLength: map<nat, seq<nat>>)
      ensures forall length :: length in byLength <==> IndicesWith(branches, |branches|, length) != []
      ensures forall length :: length in byLength ==> byLength[length] == IndicesWith(branches, |branches|, length)
    {
      byLength := map[];
      for index := 0 to |branches|
        invariant forall length :: length in byLength <==> IndicesWith(branches, index, length) != []
        invariant forall length :: length in byLength ==> byLength[length] == IndicesWith(branches, index, length)
      {
        var length := |branches[index]|;
        byLength := byLength[length := (if length in byLength then byLength[length] else []) + [index]];
      }
    }

    method Close(currentEpoch: nat)
      requires forall i :: 0 <= i < |branches| ==> branches[i] != []
      modifies this
      ensures View() == Closed(old(View()), currentEpoch)
    {
      var byLength := IndicesByLength();
      if byLength == map[] {
        assert |branches| > 0 ==> 0 in IndicesWith(branches, |branches|, |branches[0]|);
        randomness := EpochDigest(currentEpoch);
      } else {
        LeastLength(branches, byLength);
        var least :| least in byLength && forall length :: length in byLength ==> least <= length;
        randomness := ProofId(branches[byLength[least][0]][0]);
      }
      branches := [];
      isClosed := true;
    }
  }

  /** The least recorded length is that of a shortest branch, and the first index recorded for it is the lowest. */
  lemma LeastLength(branches: seq<Branch>, byLength: map<nat, seq<nat>>)
    requires forall length :: length in byLength <==> IndicesWith(branches, |branches|, length) != []
    requires forall length :: length in byLength ==> byLength[length] == IndicesWith(branches, |branches|, length)
    requires byLength != map[]
    ensures branches != []
    ensures |branches[Shortest(branches)]| in byLength
    ensures byLength[|branches[Shortest(branches)]|][0] == Shortest(branches)
    ensures forall length :: length in byLength ==> |branches[Shortest(branches)]| <= length
  {
    hide Shortest, IndicesWith;
    var some :| some in byLength;
    assert IndicesWith(branches, |branches|, some)[0] in IndicesWith(branches, |branches|, some);
    var s := Shortest(branches);
    assert s in IndicesWith(branches, |branches|, |branches[s]|);
    forall length | length in byLength ensures |branches[s]| <= length {
      assert IndicesWith(branches, |branches|, length)[0] in IndicesWith(branches, |branches|, length);
    }
    assert byLength[|branches[s]|][0] in byLength[|branches[s]|];
  }
}
