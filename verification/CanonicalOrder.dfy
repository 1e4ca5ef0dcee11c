/** The order in which a confirmed block applies its tx blocks, and when confirming it succeeds. */
module CanonicalOrder {
  import opened Basics
  import opened MetaBlocks
  import opened Transactions

  // ----- sorted by timeslot, then by proof id

  predicate Before(m: Store, p: Id, q: Id)
    requires p in m.blocks && q in m.blocks
  {
    var t, u := m.blocks[p].block.timeslot, m.blocks[q].block.timeslot;
    t < u || (t == u && p <= q)
  }

  ghost predicate Ascending(s: seq<Id>) {
    forall i, j :: 0 <= i < j < |s| ==> s[i] <= s[j]
  }

  /** One entry: sorted proof ids of blocks of that timeslot. */
  ghost predicate GroupOk(m: Store, e: (nat, seq<Id>)) {
    Ascending(e.1) && forall p :: p in e.1 ==> p in m.blocks && m.blocks[p].block.timeslot == e.0
  }

  ghost predicate GroupsOk(m: Store, g: Groups) {
    && (forall i :: 0 <= i < |g| ==> GroupOk(m, g[i]))
    && (forall i, j :: 0 <= i < j < |g| ==> g[i].0 < g[j].0)
  }

  lemma {:induction false} InsertSortedElems(s: seq<Id>, p: Id)
    ensures multiset(InsertSorted(s, p)) == multiset(s) + multiset{p}
  {
    if s != [] && s[0] < p {
      InsertSortedElems(s[1..], p);
      assert s == [s[0]] + s[1..];
    }
  }

  lemma {:induction false} InsertSortedKeeps(s: seq<Id>, p: Id)
    requires Ascending(s)
    ensures Ascending(InsertSorted(s, p))
    ensures forall x :: x in InsertSorted(s, p) ==> x == p || x in s
  {
    var r := InsertSorted(s, p);
    if s != [] && s[0] < p {
      InsertSortedKeeps(s[1..], p);
      assert r[1..] == InsertSorted(s[1..], p);
      assert forall x :: x in r[1..] ==> s[0] <= x;
      assert forall i :: 0 < i < |r| ==> r[i] in r[1..];
    }
  }

  ghost predicate KeysAbove(g: Groups, t: int) {
    forall i :: 0 <= i < |g| ==> t < g[i].0
  }

  lemma {:induction false} FileKeeps(m: Store, g: Groups, t: nat, p: Id, low: int)
    requires GroupsOk(m, g) && p in m.blocks && m.blocks[p].block.timeslot == t
    requires KeysAbove(g, low) && low < t
    ensures GroupsOk(m, File(g, t, p)) && KeysAbove(File(g, t, p), low)
  {
    var r := File(g, t, p);
    if g == [] || t < g[0].0 {
      assert GroupOk(m, (t, [p]));
    } else if t == g[0].0 {
      InsertSortedKeeps(g[0].1, p);
      assert GroupOk(m, r[0]);
    } else {
      FileKeeps(m, g[1..], t, p, g[0].0);
      assert GroupOk(m, r[0]);
    }
  }

  lemma {:induction false} FileElems(g: Groups, t: nat, p: Id)
    ensures multiset(Flatten(File(g, t, p))) == multiset(Flatten(g)) + multiset{p}
  {
    if g == [] || t < g[0].0 {
      assert File(g, t, p)[1..] == g;
    } else if t == g[0].0 {
      InsertSortedElems(g[0].1, p);
      assert File(g, t, p)[1..] == g[1..];
    } else {
      FileElems(g[1..], t, p);
      assert File(g, t, p)[1..] == File(g[1..], t, p);
    }
  }

  lemma {:induction false} FlattenSorted(m: Store, g: Groups)
    requires GroupsOk(m, g)
    ensures forall p :: p in Flatten(g) ==> p in m.blocks && exists i :: 0 <= i < |g| && p in g[i].1
    ensures forall i, j :: 0 <= i < j < |Flatten(g)| ==> Before(m, Flatten(g)[i], Flatten(g)[j])
  {
    if g != [] {
      var rest := Flatten(g[1..]);
      FlattenSorted(m, g[1..]);
      assert GroupOk(m, g[0]);
      forall p | p in rest ensures m.blocks[p].block.timeslot > g[0].0 && exists i :: 0 <= i < |g| && p in g[i].1 {
        var i :| 0 <= i < |g[1..]| && p in g[1..][i].1;
        assert GroupOk(m, g[i + 1]);
      }
    }
  }

  // ----- the order does not depend on the order of the references

  lemma {:induction false} InsertSortedCommutes(s: seq<Id>, p: Id, q: Id)
    ensures InsertSorted(InsertSorted(s, p), q) == InsertSorted(InsertSorted(s, q), p)
  {
    if s != [] { InsertSortedCommutes(s[1..], p, q); }
  }

  lemma FileTail(g: Groups, t: nat, p: Id)
    ensures File(g, t, p) != []
    ensures g == [] || t < g[0].0 ==> File(g, t, p)[0] == (t, [p]) && File(g, t, p)[1..] == g
    ensures g != [] && t == g[0].0 ==> File(g, t, p)[0] == (t, InsertSorted(g[0].1, p)) && File(g, t, p)[1..] == g[1..]
    ensures g != [] && t > g[0].0 ==> File(g, t, p)[0] == g[0] && File(g, t, p)[1..] == File(g[1..], t, p)
  {
  }

  lemma {:induction false} FileCommutes(g: Groups, t: nat, p: Id, u: nat, q: Id)
    ensures File(File(g, t, p), u, q) == File(File(g, u, q), t, p)
  {
    hide InsertSorted;
    FileTail(g, t, p);
    FileTail(g, u, q);
    FileTail(File(g, t, p), u, q);
    FileTail(File(g, u, q), t, p);
    InsertTwo(p, q);
    if g != [] {
      FileCommutes(g[1..], t, p, u, q);
      InsertSortedCommutes(g[0].1, p, q);
    }
    SameHeadTail(File(File(g, t, p), u, q), File(File(g, u, q), t, p));
  }

  lemma InsertTwo(p: Id, q: Id)
    ensures InsertSorted([p], q) == InsertSorted([q], p)
  {
  }

  lemma SameHeadTail(a: Groups, b: Groups)
    requires a != [] && b != [] && a[0] == b[0] && a[1..] == b[1..]
    ensures a == b
  {
    assert a == [a[0]] + a[1..] && b == [b[0]] + b[1..];
  }

  /** The proof ids of the tx blocks behind the references that are not applied yet. */
  function Unapplied(applied: set<Id>, m: Store, refs: seq<Id>): (r: seq<Id>) {
    if refs == [] then []
    else if refs[0] in applied || m.Lookup(refs[0]).None? then Unapplied(applied, m, refs[1..])
    else [m.Lookup(refs[0]).value.block.proofId] + Unapplied(applied, m, refs[1..])
  }

  /** Moving one reference to the front changes nothing. */
  lemma {:induction false} GroupRefsFront(g: Groups, applied: set<Id>, m: Store, refs: seq<Id>, i: nat)
    requires i < |refs|
    ensures GroupRefs(g, applied, m, refs) == GroupRefs(g, applied, m, [refs[i]] + RemoveAt(refs, i))
    decreases |refs|
  {
    if i == 0 {
      assert [refs[0]] + RemoveAt(refs, 0) == refs;
    } else {
      var x, y, rest := refs[0], refs[i], RemoveAt(refs[1..], i - 1);
      assert RemoveAt(refs, i) == [x] + rest;
      assert ([y] + RemoveAt(refs, i))[1..] == [x] + rest && ([x] + rest)[1..] == rest && ([y] + rest)[1..] == rest;
      var g1 := if x !in applied && m.Lookup(x).Some?
                then File(g, m.Lookup(x).value.block.timeslot, m.Lookup(x).value.block.proofId) else g;
      GroupRefsFront(g1, applied, m, refs[1..], i - 1);
      if x !in applied && y !in applied && m.Lookup(x).Some? && m.Lookup(y).Some? {
        var b, d := m.Lookup(x).value.block, m.Lookup(y).value.block;
        FileCommutes(g, b.timeslot, b.proofId, d.timeslot, d.proofId);
      }
    }
  }

  lemma RemoveAtElems(s: seq<Id>, i: nat)
    requires i < |s|
    ensures multiset(RemoveAt(s, i)) == multiset(s) - multiset{s[i]}
  {
    assert s == s[..i] + [s[i]] + s[i + 1..];
  }

  /** The grouping depends on which tx blocks are referenced, not on the order of the references. */
  lemma {:induction false} GroupRefsPermute(g: Groups, applied: set<Id>, m: Store, a: seq<Id>, b: seq<Id>)
    requires multiset(a) == multiset(b)
    ensures GroupRefs(g, applied, m, a) == GroupRefs(g, applied, m, b)
    decreases |a|
  {
    if a == [] {
      assert |b| == |multiset(b)| == |multiset(a)|;
    } else {
      assert a[0] in multiset(a);
      assert a[0] in multiset(b);
      var i :| 0 <= i < |b| && b[i] == a[0];
      GroupRefsFront(g, applied, m, b, i);
      RemoveAtElems(b, i);
      RemoveAtElems(a, 0);
      assert a[1..] == RemoveAt(a, 0);
      assert ([b[i]] + RemoveAt(b, i))[1..] == RemoveAt(b, i);
      var x := a[0];
      if x in applied {
        GroupRefsPermute(g, applied, m, a[1..], RemoveAt(b, i));
      } else if m.Lookup(x).Some? {
        GroupRefsPermute(File(g, m.Lookup(x).value.block.timeslot, m.Lookup(x).value.block.proofId),
                         applied, m, a[1..], RemoveAt(b, i));
      }
    }
  }

  lemma {:induction false} GroupRefsKeeps(g: Groups, applied: set<Id>, m: Store, refs: seq<Id>)
    requires m.Linked() && GroupsOk(m, g)
    requires forall i :: 0 <= i < |refs| ==> refs[i] in applied || m.Lookup(refs[i]).Some?
    ensures GroupRefs(g, applied, m, refs).Ok?
    ensures var r := GroupRefs(g, applied, m, refs).value;
            GroupsOk(m, r) && multiset(Flatten(r)) == multiset(Flatten(g)) + multiset(Unapplied(applied, m, refs))
    decreases |refs|
  {
    if refs != [] {
      if refs[0] in applied {
        GroupRefsKeeps(g, applied, m, refs[1..]);
      } else {
        var b := m.Lookup(refs[0]).value.block;
        FileKeeps(m, g, b.timeslot, b.proofId, -1);
        FileElems(g, b.timeslot, b.proofId);
        GroupRefsKeeps(File(g, b.timeslot, b.proofId), applied, m, refs[1..]);
      }
    }
  }

  function TxRefs(b: Block): (r: seq<Id>) {
    if b.refs == [] then [] else b.refs[1..]
  }

  /** The order of application of an available block's tx blocks. */
  ghost function Order(k: Bank, m: Store, b: Block): (r: seq<Id>) {
    match GroupRefs([], k.appliedBlocks, m, TxRefs(b)) case Ok(g) => Flatten(g) case Panic => []
  }

  /** Tx blocks are applied by timeslot, then by proof id, each as often as it is referenced. */
  lemma OrderIsCanonical(k: Bank, m: Store, b: Block)
    requires m.Linked() && Available(k, m, b.refs)
    ensures GroupRefs([], k.appliedBlocks, m, TxRefs(b)).Ok?
    ensures forall p :: p in Order(k, m, b) ==> p in m.blocks
    ensures forall i, j :: 0 <= i < j < |Order(k, m, b)| ==> Before(m, Order(k, m, b)[i], Order(k, m, b)[j])
    ensures multiset(Order(k, m, b)) == multiset(Unapplied(k.appliedBlocks, m, TxRefs(b)))
  {
    forall i | 0 <= i < |TxRefs(b)| ensures TxRefs(b)[i] in k.appliedBlocks || m.Lookup(TxRefs(b)[i]).Some? {
      assert TxBlockReady(k, m, b.refs[i + 1]);
    }
    GroupRefsKeeps([], k.appliedBlocks, m, TxRefs(b));
    FlattenSorted(m, GroupRefs([], k.appliedBlocks, m, TxRefs(b)).value);
  }

  /** Permuting the tx block references of a proposer block changes nothing that is applied or logged. */
  lemma ConfirmIgnoresRefOrder(k: Bank, m: Store, b: Block, refs: seq<Id>)
    requires b.refs != [] && refs != [] && refs[0] == b.refs[0] && multiset(refs[1..]) == multiset(b.refs[1..])
    ensures ApplyConfirmed(k, m, b.(refs := refs)) == ApplyConfirmed(k, m, b)
  {
    hide GroupRefs, ApplyTxBlocks, Flatten;
    GroupRefsPermute([], k.appliedBlocks, m, refs[1..], b.refs[1..]);
  }

  // ----- when confirming succeeds

  /** The sender of every known credit has an account. */
  ghost predicate SendersKnown(k: Bank) {
    forall i :: i in k.txs && k.txs[i].Credit? ==> k.txs[i].credit.from in k.accounts
  }

  /** A credit that is new at its turn but whose sender has no account then. */
  ghost predicate NoAccount(k: Bank, ref: Id) {
    ref in k.txs && k.txs[ref].Credit? && k.txs[ref].credit.id !in k.appliedTxs && k.txs[ref].credit.from !in k.accounts
  }

  /** Applying a list of transactions gets as far as the i-th, which has no account to be paid from. */
  ghost predicate StallsAt(k: Bank, refs: seq<Id>, i: nat) {
    i < |refs| && ApplyRefs(k, refs[..i]).Ok? && NoAccount(ApplyRefs(k, refs[..i]).value, refs[i])
  }

  lemma {:induction false} ApplyRefsKeeps(k: Bank, refs: seq<Id>)
    requires ApplyRefs(k, refs).Ok?
    ensures ApplyRefs(k, refs).value.txs == k.txs && ApplyRefs(k, refs).value.appliedBlocks == k.appliedBlocks
    ensures SendersKnown(k) ==> SendersKnown(ApplyRefs(k, refs).value)
    decreases |refs|
  {
    if refs != [] {
      ApplyRefsKeeps(ApplyTx(k, refs[0]).value, refs[1..]);
    }
  }

  lemma StallsLater(k: Bank, refs: seq<Id>, i: nat)
    requires refs != [] && ApplyTx(k, refs[0]).Ok?
    ensures StallsAt(k, refs, i + 1) <==> StallsAt(ApplyTx(k, refs[0]).value, refs[1..], i)
  {
    hide NoAccount, ApplyTx;
    if i + 1 < |refs| {
      assert refs[..i + 1][0] == refs[0] && refs[..i + 1][1..] == refs[1..][..i];
    }
  }

  /** Known transactions fail to apply exactly when one of them stalls. */
  lemma {:induction false} ApplyRefsPanicsIff(k: Bank, refs: seq<Id>)
    requires forall i :: 0 <= i < |refs| ==> refs[i] in k.txs
    ensures ApplyRefs(k, refs).Panic? <==> exists i: nat :: StallsAt(k, refs, i)
    decreases |refs|
  {
    if refs != [] {
      assert refs[..0] == [] && (StallsAt(k, refs, 0) <==> NoAccount(k, refs[0]));
      if ApplyTx(k, refs[0]).Ok? {
        var n := ApplyTx(k, refs[0]).value;
        ApplyRefsPanicsIff(n, refs[1..]);
        forall i: nat ensures StallsAt(k, refs, i + 1) <==> StallsAt(n, refs[1..], i) {
          StallsLater(k, refs, i);
        }
        StallsShift(k, n, refs);
      }
    }
  }

  lemma StallsShift(k: Bank, n: Bank, refs: seq<Id>)
    requires refs != [] && !StallsAt(k, refs, 0)
    requires forall i: nat :: StallsAt(k, refs, i + 1) <==> StallsAt(n, refs[1..], i)
    ensures (exists i: nat :: StallsAt(k, refs, i)) <==> exists i: nat :: StallsAt(n, refs[1..], i)
  {
    hide StallsAt;
    if i: nat :| StallsAt(k, refs, i) {
      var j: nat := i - 1;
      assert StallsAt(k, refs, j + 1);
      assert StallsAt(n, refs[1..], j);
    }
    if i: nat :| StallsAt(n, refs[1..], i) {
      assert StallsAt(k, refs, i + 1);
    }
  }

  ghost function ContentsOf(m: Store, ids: seq<Id>): (r: set<Id>) {
    set p | p in ids && p in m.blocks :: m.blocks[p].block.contentId
  }

  ghost predicate BlockKnown(k: Bank, m: Store, p: Id) {
    p in m.blocks && RefsKnown(k, m.blocks[p].block.refs)
  }

  /** Applying tx blocks gets as far as the j-th transaction of the i-th block. */
  ghost predicate BlockStallsAt(k: Bank, m: Store, ids: seq<Id>, i: nat, j: nat) {
    && i < |ids| && ids[i] in m.blocks && ApplyTxBlocks(k, m, ids[..i]).Ok?
    && StallsAt(ApplyTxBlocks(k, m, ids[..i]).value, m.blocks[ids[i]].block.refs, j)
  }

  ghost predicate Stalls(k: Bank, m: Store, ids: seq<Id>) {
    exists i: nat, j: nat :: BlockStallsAt(k, m, ids, i, j)
  }

  lemma BlockStallsLater(k: Bank, m: Store, ids: seq<Id>, i: nat, j: nat)
    requires ids != [] && ids[0] in m.blocks && ApplyTxBlock(k, m.blocks[ids[0]].block).Ok?
    ensures BlockStallsAt(k, m, ids, i + 1, j) <==>
            BlockStallsAt(ApplyTxBlock(k, m.blocks[ids[0]].block).value, m, ids[1..], i, j)
  {
    hide StallsAt, ApplyTxBlock;
    if i + 1 < |ids| {
      assert ids[..i + 1][0] == ids[0] && ids[..i + 1][1..] == ids[1..][..i];
    }
  }

  lemma StallsFirstOrLater(k: Bank, m: Store, ids: seq<Id>)
    requires ids != [] && ids[0] in m.blocks && ApplyTxBlock(k, m.blocks[ids[0]].block).Ok?
    requires forall j: nat :: !StallsAt(k, m.blocks[ids[0]].block.refs, j)
    ensures Stalls(k, m, ids) <==> Stalls(ApplyTxBlock(k, m.blocks[ids[0]].block).value, m, ids[1..])
  {
    hide StallsAt, ApplyTxBlock;
    var n := ApplyTxBlock(k, m.blocks[ids[0]].block).value;
    if i: nat, j: nat :| BlockStallsAt(k, m, ids, i, j) {
      assert ids[..0] == [];
      assert i > 0;
      BlockStallsLater(k, m, ids, i - 1, j);
    }
    if i: nat, j: nat :| BlockStallsAt(n, m, ids[1..], i, j) {
      BlockStallsLater(k, m, ids, i, j);
      assert BlockStallsAt(k, m, ids, i + 1, j);
    }
  }

  lemma {:induction false} ApplyTxBlocksPanicsIff(k: Bank, m: Store, ids: seq<Id>)
    requires forall p :: p in ids ==> BlockKnown(k, m, p)
    ensures ApplyTxBlocks(k, m, ids).Panic? <==> Stalls(k, m, ids)
    decreases |ids|
  {
    hide StallsAt, ApplyRefs;
    if ids != [] {
      assert BlockKnown(k, m, ids[0]);
      var b := m.blocks[ids[0]].block;
      ApplyRefsPanicsIff(k, b.refs);
      assert ids[..0] == [];
      if ApplyRefs(k, b.refs).Panic? {
        var j: nat :| StallsAt(k, b.refs, j);
        assert BlockStallsAt(k, m, ids, 0, j);
      } else {
        var n := ApplyTxBlock(k, b).value;
        ApplyRefsKeeps(k, b.refs);
        forall p | p in ids[1..] ensures BlockKnown(n, m, p) {
          assert p in ids;
          assert BlockKnown(k, m, p);
        }
        ApplyTxBlocksPanicsIff(n, m, ids[1..]);
        StallsFirstOrLater(k, m, ids);
      }
    }
  }

  lemma {:induction false} ApplyTxBlocksKeeps(k: Bank, m: Store, ids: seq<Id>)
    requires ApplyTxBlocks(k, m, ids).Ok?
    ensures ApplyTxBlocks(k, m, ids).value.txs == k.txs
    ensures ApplyTxBlocks(k, m, ids).value.appliedBlocks == k.appliedBlocks + ContentsOf(m, ids)
    ensures SendersKnown(k) ==> SendersKnown(ApplyTxBlocks(k, m, ids).value)
    decreases |ids|
  {
    hide SendersKnown;
    if ids == [] {
      assert ContentsOf(m, ids) == {};
    } else {
      var b := m.blocks[ids[0]].block;
      ApplyRefsKeeps(k, b.refs);
      var n := ApplyTxBlock(k, b).value;
      SendersKnownAlike(ApplyRefs(k, b.refs).value, n);
      ApplyTxBlocksKeeps(n, m, ids[1..]);
      assert ContentsOf(m, ids) == {b.contentId} + ContentsOf(m, ids[1..]);
    }
  }

  lemma SendersKnownAlike(k: Bank, n: Bank)
    requires n.txs == k.txs && n.accounts == k.accounts
    ensures SendersKnown(k) <==> SendersKnown(n)
  {
  }

  /** With an account for every known sender nothing stalls. */
  lemma NothingStalls(k: Bank, m: Store, ids: seq<Id>)
    requires SendersKnown(k)
    ensures !Stalls(k, m, ids)
  {
    if i: nat, j: nat :| BlockStallsAt(k, m, ids, i, j) {
      var h := ApplyTxBlocks(k, m, ids[..i]).value;
      var refs := m.blocks[ids[i]].block.refs;
      ApplyTxBlocksKeeps(k, m, ids[..i]);
      ApplyRefsKeeps(h, refs[..j]);
    }
  }

  lemma {:induction false} UnappliedShape(applied: set<Id>, m: Store, refs: seq<Id>)
    requires m.Linked()
    ensures forall p :: p in Unapplied(applied, m, refs) <==>
              p in m.blocks && m.blocks[p].block.contentId in refs && m.blocks[p].block.contentId !in applied
  {
    if refs != [] { UnappliedShape(applied, m, refs[1..]); }
  }

  /**
   * A block that passes the check phase is applied without a panic exactly when no
   * credit that is new at its turn lacks an account to be paid from.  It then leaves
   * exactly its tx blocks newly applied and itself last in the log.
   */
  lemma ConfirmSucceedsIff(k: Bank, m: Store, b: Block)
    requires m.Linked() && b.refs != [] && Available(k, m, b.refs)
    ensures ApplyConfirmed(k, m, b).Ok? <==> !Stalls(k, m, Order(k, m, b))
    ensures SendersKnown(k) ==> ApplyConfirmed(k, m, b).Ok?
    ensures ApplyConfirmed(k, m, b).Ok? ==>
              var n := ApplyConfirmed(k, m, b).value;
              && (SendersKnown(k) ==> SendersKnown(n)) && n.txs == k.txs
              && n.appliedBlocks == k.appliedBlocks + (set c | c in b.refs[1..])
              && k.txs[b.refs[0]].TxId() in n.appliedTxs
              && |n.log| >= 3 && n.log[|n.log| - 3..] ==
                   [TxRecord(k.txs[b.refs[0]]), ProofRecord(b.proofId), ContentRecord(b.contentId)]
  {
    hide GroupRefs, Flatten, ApplyTxBlocks, ApplyProposer, BlockKnown, ContentsOf,
         SendersKnown, Before, Unapplied, TxBlockReady, Stalls;
    var order := Order(k, m, b);
    OrderIsCanonical(k, m, b);
    OrderMembers(k, m, b);
    ApplyTxBlocksPanicsIff(k, m, order);
    if SendersKnown(k) {
      NothingStalls(k, m, order);
    }
    if ApplyTxBlocks(k, m, order).Ok? {
      ApplyTxBlocksKeeps(k, m, order);
      AppliedContents(k, m, b, order);
      ProposerOk(ApplyTxBlocks(k, m, order).value, b);
    }
  }

  lemma ProposerOk(k: Bank, b: Block)
    requires b.refs != [] && b.refs[0] in k.txs && k.txs[b.refs[0]].Coinbase?
    ensures ApplyProposer(k, b).Ok?
    ensures var n := ApplyProposer(k, b).value;
            && (SendersKnown(k) ==> SendersKnown(n)) && n.txs == k.txs && n.appliedBlocks == k.appliedBlocks
            && k.txs[b.refs[0]].TxId() in n.appliedTxs
            && |n.log| >= 3 && n.log[|n.log| - 3..] ==
                 [TxRecord(k.txs[b.refs[0]]), ProofRecord(b.proofId), ContentRecord(b.contentId)]
  {
  }

  /** The blocks to apply are those referenced and not applied yet, and all their transactions are known. */
  lemma OrderMembers(k: Bank, m: Store, b: Block)
    requires m.Linked() && b.refs != [] && Available(k, m, b.refs)
    ensures forall p :: p in Order(k, m, b) <==>
              && p in m.blocks && m.blocks[p].block.contentId in b.refs[1..]
              && m.blocks[p].block.contentId !in k.appliedBlocks
    ensures forall p :: p in Order(k, m, b) ==> BlockKnown(k, m, p)
  {
    hide GroupRefs, Unapplied, Before, Flatten, Order;
    var order, refs := Order(k, m, b), Unapplied(k.appliedBlocks, m, TxRefs(b));
    OrderIsCanonical(k, m, b);
    UnappliedShape(k.appliedBlocks, m, TxRefs(b));
    assert forall p :: p in order <==> p in multiset(order);
    assert forall p :: p in refs <==> p in multiset(refs);
    forall p | p in order ensures BlockKnown(k, m, p) {
      OrderKnown(k, m, b, p);
    }
  }

  lemma OrderKnown(k: Bank, m: Store, b: Block, p: Id)
    requires m.Linked() && b.refs != [] && Available(k, m, b.refs)
    requires p in m.blocks && m.blocks[p].block.contentId in b.refs[1..]
    requires m.blocks[p].block.contentId !in k.appliedBlocks
    ensures BlockKnown(k, m, p)
  {
    var i :| 1 <= i < |b.refs| && b.refs[i] == m.blocks[p].block.contentId;
    assert TxBlockReady(k, m, b.refs[i]);
  }

  lemma AppliedContents(k: Bank, m: Store, b: Block, order: seq<Id>)
    requires m.Linked() && b.refs != [] && Available(k, m, b.refs)
    requires forall p :: p in order <==>
               p in m.blocks && m.blocks[p].block.contentId in b.refs[1..]
               && m.blocks[p].block.contentId !in k.appliedBlocks
    ensures k.appliedBlocks + ContentsOf(m, order) == k.appliedBlocks + (set c | c in b.refs[1..])
  {
    forall c | c in b.refs[1..] && c !in k.appliedBlocks ensures c in ContentsOf(m, order) {
      var i :| 1 <= i < |b.refs| && b.refs[i] == c;
      assert TxBlockReady(k, m, b.refs[i]);
      assert m.proofOf[c] in order;
    }
  }
}
