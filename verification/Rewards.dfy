/** When every block reward is paid once over a whole run. */
module Rewards {
  import opened Basics
  import opened MetaBlocks
  import opened ForkChoice
  import opened Staging
  import opened Transactions
  import opened Supply
  import opened CanonicalOrder
  import opened Effects
  import opened LedgerRuns

  /** How often the coinbase with an id was logged, which is how often its reward was paid. */
  function Paid(log: seq<Record>, x: Id): (n: nat) {
    if log == [] then 0
    else Paid(log[..|log| - 1], x) + if IsReward(log[|log| - 1], x) then 1 else 0
  }

  predicate IsReward(r: Record, x: Id) {
    r.TxRecord? && r.tx.Coinbase? && r.tx.reward.id == x
  }

  lemma PaidOne(log: seq<Record>, r: Record, x: Id)
    ensures Paid(log + [r], x) == Paid(log, x) + if IsReward(r, x) then 1 else 0
  {
    assert (log + [r])[..|log|] == log;
  }

  lemma PaidBlock(log: seq<Record>, b: Block, x: Id)
    ensures Paid(log + [ProofRecord(b.proofId), ContentRecord(b.contentId)], x) == Paid(log, x)
  {
    PaidOne(log, ProofRecord(b.proofId), x);
    PaidOne(log + [ProofRecord(b.proofId)], ContentRecord(b.contentId), x);
    assert log + [ProofRecord(b.proofId)] + [ContentRecord(b.contentId)]
        == log + [ProofRecord(b.proofId), ContentRecord(b.contentId)];
  }

  // ----- one confirmation

  lemma ApplyTxPays(k: Bank, ref: Id, x: Id)
    requires Keyed(k) && ApplyTx(k, ref).Ok?
    ensures Keyed(ApplyTx(k, ref).value)
    ensures Paid(ApplyTx(k, ref).value.log, x) ==
            Paid(k.log, x) + if k.txs[ref].Coinbase? && ref == x then 1 else 0
  {
    hide Paid;
    assert k.txs[ref].TxId() == ref;
    PaidOne(k.log, TxRecord(k.txs[ref]), x);
  }

  lemma {:induction false} CreditsPayNothing(k: Bank, refs: seq<Id>, x: Id)
    requires Keyed(k) && ApplyRefs(k, refs).Ok?
    requires forall i :: 0 <= i < |refs| ==> refs[i] in k.txs && k.txs[refs[i]].Credit?
    ensures Paid(ApplyRefs(k, refs).value.log, x) == Paid(k.log, x)
    decreases |refs|
  {
    hide Paid;
    if refs != [] {
      ApplyTxPays(k, refs[0], x);
      CreditsPayNothing(ApplyTx(k, refs[0]).value, refs[1..], x);
    }
  }

  predicate Pays(b: Block, x: Id) {
    b.refs != [] && b.refs[0] == x
  }

  lemma ApplyTxBlockPays(k: Bank, b: Block, x: Id)
    requires Keyed(k) && RefsKnown(k, b.refs) && ApplyTxBlock(k, b).Ok?
    ensures Paid(ApplyTxBlock(k, b).value.log, x) == Paid(k.log, x) + if Pays(b, x) then 1 else 0
  {
    hide Paid, ApplyTx;
    var h := ApplyRefs(k, b.refs).value;
    if b.refs != [] {
      ApplyTxPays(k, b.refs[0], x);
      ApplyTxKeepsTxs(k, b.refs[0]);
      CreditsPayNothing(ApplyTx(k, b.refs[0]).value, b.refs[1..], x);
    }
    PaidBlock(h.log, b, x);
  }

  lemma ApplyTxKeepsTxs(k: Bank, ref: Id)
    requires ApplyTx(k, ref).Ok?
    ensures ApplyTx(k, ref).value.txs == k.txs
  {
  }

  /** How many of the listed blocks pay the coinbase with an id. */
  function PayCount(m: Store, ids: seq<Id>, x: Id): (n: nat) {
    if ids == [] then 0
    else (if ids[0] in m.blocks && Pays(m.blocks[ids[0]].block, x) then 1 else 0) + PayCount(m, ids[1..], x)
  }

  lemma {:induction false} ApplyTxBlocksPay(k: Bank, m: Store, ids: seq<Id>, x: Id)
    requires Keyed(k) && ApplyTxBlocks(k, m, ids).Ok? && forall p :: p in ids ==> BlockKnown(k, m, p)
    ensures Paid(ApplyTxBlocks(k, m, ids).value.log, x) == Paid(k.log, x) + PayCount(m, ids, x)
    decreases |ids|
  {
    hide Paid, Pays, ApplyRefs;
    if ids != [] {
      assert BlockKnown(k, m, ids[0]);
      var b := m.blocks[ids[0]].block;
      ApplyTxBlockPays(k, b, x);
      ApplyRefsKeeps(k, b.refs);
      var n := ApplyTxBlock(k, b).value;
      forall p | p in ids[1..] ensures BlockKnown(n, m, p) {
        assert p in ids;
        assert BlockKnown(k, m, p);
      }
      ApplyTxBlocksPay(n, m, ids[1..], x);
    }
  }

  lemma ProposerPays(k: Bank, b: Block, x: Id)
    requires Keyed(k) && ApplyProposer(k, b).Ok? && k.txs[b.refs[0]].Coinbase?
    ensures Paid(ApplyProposer(k, b).value.log, x) == Paid(k.log, x) + if Pays(b, x) then 1 else 0
  {
    hide Paid;
    assert k.txs[b.refs[0]].TxId() == b.refs[0];
    PaidOne(k.log, TxRecord(k.txs[b.refs[0]]), x);
    PaidBlock(k.log + [TxRecord(k.txs[b.refs[0]])], b, x);
  }

  /** A confirmation pays the coinbase of each tx block it applies, as often as it applies it, and its own. */
  lemma ConfirmPays(k: Bank, m: Store, b: Block, x: Id)
    requires Keyed(k) && m.Linked() && b.refs != [] && Available(k, m, b.refs) && ApplyConfirmed(k, m, b).Ok?
    ensures Paid(ApplyConfirmed(k, m, b).value.log, x) ==
            Paid(k.log, x) + PayCount(m, Order(k, m, b), x) + if Pays(b, x) then 1 else 0
  {
    hide GroupRefs, Flatten, ApplyTxBlocks, ApplyProposer, Paid, PayCount, BlockKnown, Before, Unapplied;
    var order := Order(k, m, b);
    OrderIsCanonical(k, m, b);
    OrderMembers(k, m, b);
    ApplyTxBlocksPay(k, m, order, x);
    ApplyTxBlocksKeeps(k, m, order);
    ProposerPays(ApplyTxBlocks(k, m, order).value, b, x);
  }

  // ----- whole runs

  /** Blocks as validation and hashing make them: the coinbase first, and no proof, content or coinbase shared. */
  ghost predicate WellFormed(blocks: set<Block>) {
    && (forall b :: b in blocks ==> b.refs != [] && b.refs[0] == b.coinbase.id && b.contentId != GENESIS_CHALLENGE)
    && (forall b, c :: b in blocks && c in blocks && Alike(b, c) ==> b == c)
  }

  predicate Alike(b: Block, c: Block) {
    b.proofId == c.proofId || b.contentId == c.contentId || b.coinbase.id == c.coinbase.id
  }

  ghost predicate Held(m: Store, blocks: set<Block>) {
    m.Linked() && forall p :: p in m.blocks ==> m.blocks[p].block in blocks
  }

  /** A block whose reward has been paid: confirmed, or applied as a tx block. */
  ghost predicate Rewarded(l: State, b: Block) {
    b.proofId in l.chain.confirmed || b.contentId in l.bank.appliedBlocks
  }

  ghost predicate RewardedCoinbase(l: State, blocks: set<Block>, x: Id) {
    exists b :: b in blocks && b.coinbase.id == x && Rewarded(l, b)
  }

  /** The stored blocks are among the staged ones, and the rewards paid are those of the rewarded blocks. */
  ghost predicate Accounted(l: State, blocks: set<Block>) {
    && Held(l.chain.store, blocks)
    && (forall x :: Paid(l.bank.log, x) > 0 <==> RewardedCoinbase(l, blocks, x))
  }

  ghost predicate Once(log: seq<Record>) {
    forall x :: Paid(log, x) <= 1
  }

  /**
   * A block to be confirmed has not been applied as a tx block, and none of its
   * references that is still to be applied repeats, names a confirmed block or itself.
   */
  ghost predicate Clean(l: State, b: Block) {
    && b.contentId !in l.bank.appliedBlocks && NoRepeats(l.bank.appliedBlocks, TxRefs(b))
    && forall c :: c in TxRefs(b) && c !in l.bank.appliedBlocks ==> CleanRef(l, b, c)
  }

  ghost predicate CleanRef(l: State, b: Block, c: Id) {
    && c != b.contentId
    && (l.chain.store.Lookup(c).Some? ==> l.chain.store.Lookup(c).value.block.proofId !in l.chain.confirmed)
  }

  // ----- counting over the tx blocks of one confirmation

  lemma {:induction false} PayCountAtLeast(m: Store, ids: seq<Id>, p: Id, x: Id)
    requires p in m.blocks && Pays(m.blocks[p].block, x)
    ensures PayCount(m, ids, x) >= multiset(ids)[p]
  {
    if ids != [] {
      assert ids == [ids[0]] + ids[1..];
      PayCountAtLeast(m, ids[1..], p, x);
    }
  }

  lemma {:induction false} PayCountExact(m: Store, ids: seq<Id>, p: Id, x: Id)
    requires p in m.blocks && Pays(m.blocks[p].block, x)
    requires forall q :: q in ids && q in m.blocks && Pays(m.blocks[q].block, x) ==> q == p
    ensures PayCount(m, ids, x) == multiset(ids)[p]
  {
    if ids != [] {
      assert ids == [ids[0]] + ids[1..];
      PayCountExact(m, ids[1..], p, x);
    }
  }

  lemma {:induction false} PayCountNone(m: Store, ids: seq<Id>, x: Id)
    requires forall q :: q in ids && q in m.blocks ==> !Pays(m.blocks[q].block, x)
    ensures PayCount(m, ids, x) == 0
  {
    if ids != [] {
      PayCountNone(m, ids[1..], x);
    }
  }

  /** The blocks to apply, as references: which they are and how often they come. */
  lemma OrderCounts(k: Bank, m: Store, b: Block, c: Id)
    requires m.Linked() && b.refs != [] && Available(k, m, b.refs) && c in TxRefs(b) && c !in k.appliedBlocks
    ensures c in m.proofOf && m.proofOf[c] in Order(k, m, b) && m.blocks[m.proofOf[c]].block.contentId == c
    ensures m.Lookup(c) == Some(m.blocks[m.proofOf[c]])
    ensures multiset(Order(k, m, b))[m.proofOf[c]] == multiset(TxRefs(b))[c] > 0
  {
    hide GroupRefs, Flatten, Unapplied, Before, RefsKnown;
    var i :| 1 <= i < |b.refs| && b.refs[i] == c;
    assert TxBlockReady(k, m, b.refs[i]);
    OrderIsCanonical(k, m, b);
    UnappliedTimes(k.appliedBlocks, m, TxRefs(b), c);
    assert c in multiset(TxRefs(b));
    assert m.proofOf[c] in multiset(Order(k, m, b));
  }

  /** What a paying block of the order is: a staged block with this coinbase, referenced and still to be applied. */
  lemma OrderPays(l: State, blocks: set<Block>, b: Block, q: Id, x: Id)
    requires WellFormed(blocks) && Held(l.chain.store, blocks) && b.refs != []
    requires Available(l.bank, l.chain.store, b.refs) && q in Order(l.bank, l.chain.store, b)
    ensures q in l.chain.store.blocks
    ensures
      var d := l.chain.store.blocks[q].block;
      && d in blocks && d.proofId == q && d.contentId in TxRefs(b) && d.contentId !in l.bank.appliedBlocks
      && (Pays(d, x) <==> d.coinbase.id == x)
  {
    hide GroupRefs, Flatten, Unapplied, Available, BlockKnown;
    OrderMembers(l.bank, l.chain.store, b);
  }

  // ----- one confirmation over the history

  /** All that is used of a state in which `b` is about to be confirmed. */
  ghost predicate Ready(l: State, blocks: set<Block>, b: Block) {
    && WellFormed(blocks) && Accounted(l, blocks) && Keyed(l.bank) && b in blocks
    && b.refs != [] && b.proofId !in l.chain.confirmed
    && Available(l.bank, l.chain.store, b.refs) && ApplyConfirmed(l.bank, l.chain.store, b).Ok?
  }

  lemma OwnReward(l: State, blocks: set<Block>, b: Block)
    requires Ready(l, blocks, b)
    ensures Paid(l.bank.log, b.coinbase.id) > 0 <==> b.contentId in l.bank.appliedBlocks
    ensures PayCount(l.chain.store, Order(l.bank, l.chain.store, b), b.coinbase.id) > 0 ==>
              b.contentId in TxRefs(b) && b.contentId !in l.bank.appliedBlocks
  {
    hide Paid, PayCount, Order, Available, ApplyConfirmed, Keyed, Store.Linked;
    var x, m, order := b.coinbase.id, l.chain.store, Order(l.bank, l.chain.store, b);
    if d :| d in blocks && d.coinbase.id == x && Rewarded(l, d) {
      assert Alike(d, b);
    }
    assert RewardedCoinbase(l, blocks, x) <==> Rewarded(l, b);
    if !(b.contentId in TxRefs(b) && b.contentId !in l.bank.appliedBlocks) {
      forall q | q in order && q in m.blocks ensures !Pays(m.blocks[q].block, x) {
        OrderPays(l, blocks, b, q, x);
        assert m.blocks[q].block.coinbase.id == x ==> Alike(m.blocks[q].block, b);
      }
      PayCountNone(m, order, x);
    }
  }

  /** The reward of a referenced tx block still to be applied. */
  lemma TxReward(l: State, blocks: set<Block>, b: Block, c: Id)
    requires Ready(l, blocks, b) && c in TxRefs(b) && c !in l.bank.appliedBlocks
    ensures l.chain.store.Lookup(c).Some?
    ensures
      var d := l.chain.store.Lookup(c).value.block;
      && d in blocks && d.contentId == c
      && (Paid(l.bank.log, d.coinbase.id) > 0 <==> d.proofId in l.chain.confirmed)
      && PayCount(l.chain.store, Order(l.bank, l.chain.store, b), d.coinbase.id) == multiset(TxRefs(b))[c] > 0
  {
    hide Paid, PayCount, Order, Available, ApplyConfirmed, Keyed;
    var m, order := l.chain.store, Order(l.bank, l.chain.store, b);
    OrderCounts(l.bank, m, b, c);
    var p := m.proofOf[c];
    var d := m.blocks[p].block;
    var x := d.coinbase.id;
    if e :| e in blocks && e.coinbase.id == x && Rewarded(l, e) {
      assert Alike(e, d);
    }
    assert RewardedCoinbase(l, blocks, x) <==> Rewarded(l, d);
    forall q | q in order && q in m.blocks && Pays(m.blocks[q].block, x) ensures q == p {
      OrderPays(l, blocks, b, q, x);
      assert Alike(m.blocks[q].block, d);
    }
    PayCountExact(m, order, p, x);
  }

  lemma PaidOf(l: State, blocks: set<Block>, b: Block, x: Id)
    requires Ready(l, blocks, b)
    ensures Paid(ApplyConfirmed(l.bank, l.chain.store, b).value.log, x) ==
            Paid(l.bank.log, x) + PayCount(l.chain.store, Order(l.bank, l.chain.store, b), x)
            + if b.coinbase.id == x then 1 else 0
  {
    hide Paid, PayCount, Order, Available, ApplyConfirmed, Keyed;
    ConfirmPays(l.bank, l.chain.store, b, x);
  }

  /** A paying block of the order, when there is one. */
  lemma FindPayer(m: Store, ids: seq<Id>, x: Id) returns (q: Id)
    requires PayCount(m, ids, x) > 0
    ensures q in ids && q in m.blocks && Pays(m.blocks[q].block, x)
  {
    if !exists q :: q in ids && q in m.blocks && Pays(m.blocks[q].block, x) {
      PayCountNone(m, ids, x);
    }
    q :| q in ids && q in m.blocks && Pays(m.blocks[q].block, x);
  }

  lemma NoRepeatsOnce(applied: set<Id>, refs: seq<Id>, c: Id)
    requires NoRepeats(applied, refs) && c in refs && c !in applied
    ensures multiset(refs)[c] == 1
  {
    OccursOnceIff(refs, c);
  }

  lemma CleanPaysOnce(l: State, blocks: set<Block>, b: Block, x: Id)
    requires Ready(l, blocks, b) && Once(l.bank.log) && Clean(l, b)
    ensures Paid(ApplyConfirmed(l.bank, l.chain.store, b).value.log, x) <= 1
  {
    hide Paid, PayCount, Order, Available, ApplyConfirmed, Keyed, Accounted, NoRepeats;
    var m, order := l.chain.store, Order(l.bank, l.chain.store, b);
    PaidOf(l, blocks, b, x);
    if x == b.coinbase.id {
      OwnReward(l, blocks, b);
      assert CleanRef(l, b, b.contentId) || b.contentId !in TxRefs(b);
    } else if PayCount(m, order, x) > 0 {
      var q := FindPayer(m, order, x);
      assert Held(m, blocks) by { AccountedHeld(l, blocks); }
      OrderPays(l, blocks, b, q, x);
      var c := m.blocks[q].block.contentId;
      TxReward(l, blocks, b, c);
      assert m.Lookup(c).value == m.blocks[q];
      assert CleanRef(l, b, c);
      NoRepeatsOnce(l.bank.appliedBlocks, TxRefs(b), c);
    }
  }

  lemma AccountedHeld(l: State, blocks: set<Block>)
    requires Accounted(l, blocks)
    ensures Held(l.chain.store, blocks)
  {
  }

  /** An unclean block pays some reward a second time. */
  lemma UncleanPaysTwice(l: State, blocks: set<Block>, b: Block) returns (x: Id)
    requires Ready(l, blocks, b) && !Clean(l, b)
    ensures Paid(ApplyConfirmed(l.bank, l.chain.store, b).value.log, x) > 1
  {
    hide Paid, PayCount, Order, Available, ApplyConfirmed, Keyed, Accounted;
    if b.contentId in l.bank.appliedBlocks {
      x := b.coinbase.id;
      OwnReward(l, blocks, b);
    } else if !NoRepeats(l.bank.appliedBlocks, TxRefs(b)) {
      var i, j :| 0 <= i < j < |TxRefs(b)| && TxRefs(b)[i] == TxRefs(b)[j] && TxRefs(b)[i] !in l.bank.appliedBlocks;
      var c := TxRefs(b)[i];
      TxReward(l, blocks, b, c);
      OccursOnceIff(TxRefs(b), c);
      x := l.chain.store.Lookup(c).value.block.coinbase.id;
    } else {
      var c :| c in TxRefs(b) && c !in l.bank.appliedBlocks && !CleanRef(l, b, c);
      TxReward(l, blocks, b, c);
      var d := l.chain.store.Lookup(c).value.block;
      x := d.coinbase.id;
      if c == b.contentId {
        assert Alike(d, b);
      }
    }
    PaidOf(l, blocks, b, x);
  }

  /** A confirmation keeps every reward paid at most once exactly when the block is clean. */
  lemma ConfirmPaysOnceIff(l: State, blocks: set<Block>, b: Block)
    requires Ready(l, blocks, b)
    ensures Once(ApplyConfirmed(l.bank, l.chain.store, b).value.log) <==> Once(l.bank.log) && Clean(l, b)
  {
    hide Paid, PayCount, Clean, ApplyConfirmed, Order, Available, Keyed, Accounted, WellFormed;
    var n := ApplyConfirmed(l.bank, l.chain.store, b).value;
    forall x ensures Paid(n.log, x) >= Paid(l.bank.log, x) {
      PaidOf(l, blocks, b, x);
    }
    if !Clean(l, b) {
      var x := UncleanPaysTwice(l, blocks, b);
    } else if Once(l.bank.log) {
      forall x ensures Paid(n.log, x) <= 1 {
        CleanPaysOnce(l, blocks, b, x);
      }
    } else {
      var x :| Paid(l.bank.log, x) > 1;
      assert Paid(n.log, x) > 1;
    }
  }

  /** After a confirmation the rewards paid are again those of the rewarded blocks. */
  lemma ConfirmAccounts(l: State, blocks: set<Block>, b: Block, n: State)
    requires Ready(l, blocks, b) && n.bank == ApplyConfirmed(l.bank, l.chain.store, b).value
    requires Held(n.chain.store, blocks) && n.chain.confirmed == l.chain.confirmed + {b.proofId}
    ensures Accounted(n, blocks)
  {
    hide Paid, PayCount, Order, Available, ApplyConfirmed, Keyed, Store.Linked, Held;
    assert n.bank.appliedBlocks == l.bank.appliedBlocks + (set c | c in TxRefs(b)) by { AppliedAfter(l, blocks, b); }
    forall x ensures Paid(n.bank.log, x) > 0 <==> RewardedCoinbase(n, blocks, x) {
      PaidIffRewarded(l, blocks, b, n, x);
    }
  }

  lemma AppliedAfter(l: State, blocks: set<Block>, b: Block)
    requires Ready(l, blocks, b)
    ensures ApplyConfirmed(l.bank, l.chain.store, b).value.appliedBlocks ==
            l.bank.appliedBlocks + (set c | c in TxRefs(b))
  {
    hide Paid, Order, Available, ApplyConfirmed, Keyed;
    ConfirmSucceedsIff(l.bank, l.chain.store, b);
  }

  lemma PaidIffRewarded(l: State, blocks: set<Block>, b: Block, n: State, x: Id)
    requires Ready(l, blocks, b) && n.bank == ApplyConfirmed(l.bank, l.chain.store, b).value
    requires n.chain.confirmed == l.chain.confirmed + {b.proofId}
    requires n.bank.appliedBlocks == l.bank.appliedBlocks + (set c | c in TxRefs(b))
    ensures Paid(n.bank.log, x) > 0 <==> RewardedCoinbase(n, blocks, x)
  {
    hide Paid, PayCount, Order, Available, ApplyConfirmed, Keyed, Store.Linked;
    var m, order := l.chain.store, Order(l.bank, l.chain.store, b);
    PaidOf(l, blocks, b, x);
    if RewardedCoinbase(n, blocks, x) {
      var d :| d in blocks && d.coinbase.id == x && Rewarded(n, d);
      if d.proofId == b.proofId {
        assert Alike(d, b);
      } else if !Rewarded(l, d) {
        TxReward(l, blocks, b, d.contentId);
        assert Alike(m.Lookup(d.contentId).value.block, d);
      } else {
        assert RewardedCoinbase(l, blocks, x);
      }
    }
    if Paid(n.bank.log, x) > 0 {
      RewardedAgain(l, blocks, b, n, x);
    }
  }

  lemma RewardedAgain(l: State, blocks: set<Block>, b: Block, n: State, x: Id)
    requires Ready(l, blocks, b) && n.bank == ApplyConfirmed(l.bank, l.chain.store, b).value
    requires n.chain.confirmed == l.chain.confirmed + {b.proofId} && Paid(n.bank.log, x) > 0
    requires n.bank.appliedBlocks == l.bank.appliedBlocks + (set c | c in TxRefs(b))
    ensures RewardedCoinbase(n, blocks, x)
  {
    hide Paid, PayCount, Order, Available, ApplyConfirmed, Keyed, Store.Linked;
    var m, order := l.chain.store, Order(l.bank, l.chain.store, b);
    PaidOf(l, blocks, b, x);
    if Paid(l.bank.log, x) > 0 {
      assert RewardedCoinbase(l, blocks, x);
      var d :| d in blocks && d.coinbase.id == x && Rewarded(l, d);
      assert Rewarded(n, d);
    } else if x == b.coinbase.id {
      assert Rewarded(n, b);
    } else {
      var q := FindPayer(m, order, x);
      OrderPays(l, blocks, b, q, x);
      assert Rewarded(n, m.blocks[q].block);
    }
  }

  // ----- stores of a run

  lemma GrowHeld(m: Store, blocks: set<Block>, p: Id, mb: MetaBlock)
    requires Held(m, blocks) && p in m.blocks && mb.block == m.blocks[p].block
    ensures Held(m.(blocks := m.blocks[p := mb]), blocks)
  {
  }

  lemma InsertHeld(m: Store, blocks: set<Block>, b: Block, height: nat)
    requires WellFormed(blocks) && b in blocks && Held(m, blocks) && Insert(m, b, height).Ok?
    ensures Held(Insert(m, b, height).value.0, blocks)
  {
    assert b.proofId in m.blocks ==> Alike(m.blocks[b.proofId].block, b);
    assert b.contentId in m.proofOf ==> Alike(m.blocks[m.proofOf[b.contentId]].block, b);
  }

  lemma SaveHeld(m: Store, blocks: set<Block>, b: Block)
    requires WellFormed(blocks) && b in blocks && Held(m, blocks) && Saved(m, b).Ok?
    ensures Held(Saved(m, b).value.0, blocks)
  {
    hide Held, WellFormed, Insert;
    if HasParentBlock(b) {
      var parent, p := m.Lookup(b.parent.value).value, m.proofOf[b.parent.value];
      var grown := parent.(children := parent.children + [b.proofId]);
      GrowHeld(m, blocks, p, grown);
      InsertHeld(m.(blocks := m.blocks[p := grown]), blocks, b, parent.height + 1);
    } else {
      InsertHeld(m, blocks, b, 0);
    }
  }

  lemma RemoveHeld(m: Store, blocks: set<Block>, p: Id)
    requires Held(m, blocks) && Removed(m, p).Ok?
    ensures Held(Removed(m, p).value.0, blocks)
  {
    RemoveLinks(m, p);
  }

  lemma {:induction false} PruneHeld(c: Chain, blocks: set<Block>, ids: seq<Id>)
    requires Held(c.store, blocks) && PruneBlocks(c, ids).Ok?
    ensures Held(PruneBlocks(c, ids).value.store, blocks)
    decreases |c.store.blocks|, |ids|
  {
    hide Held;
    if ids != [] {
      var d := PruneBlock(c, ids[0]).value;
      var (store, mb) := Removed(c.store, ids[0]).value;
      RemoveHeld(c.store, blocks, ids[0]);
      assert store.blocks.Keys == c.store.blocks.Keys - {ids[0]};
      assert |store.blocks| == |store.blocks.Keys| && |c.store.blocks| == |c.store.blocks.Keys|;
      var slots := DropFromSlot(c.slots, mb.block.timeslot, ids[0]).value;
      if |mb.children| > 0 {
        PruneHeld(c.(store := store, slots := slots), blocks, mb.children);
      }
      PruneHeld(d, blocks, ids[1..]);
    }
  }

  lemma ConfirmHeld(c: Chain, blocks: set<Block>, mb: MetaBlock)
    requires Held(c.store, blocks) && ConfirmOnChain(c, mb).Ok?
    ensures Held(ConfirmOnChain(c, mb).value.store, blocks)
  {
    hide Held, PruneBlocks, Keep;
    if mb.height != 0 {
      var d := c.(confirmed := c.confirmed + {mb.block.proofId});
      PruneHeld(d, blocks, Keep(c.store.Lookup(mb.block.parent.value).value.children, Self, {mb.block.proofId}));
    }
  }

  lemma {:induction false} KDeepHeld(m: Store, blocks: set<Block>, content: Id, depth: nat)
    requires Held(m, blocks) && depth > 0 && KDeep(m, content, depth).Ok? && KDeep(m, content, depth).value.Some?
    ensures KDeep(m, content, depth).value.value.block in blocks
    decreases depth
  {
    if depth > 1 {
      KDeepHeld(m, blocks, m.Lookup(content).value.block.parent.value, depth - 1);
    }
  }

  // ----- every run

  predicate IsBlock(e: Event) {
    e.ProposerBlock? || e.TxBlock?
  }

  /** The blocks staged by a run. */
  ghost function Blocks(events: seq<Event>): (r: set<Block>) {
    set i | 0 <= i < |events| && IsBlock(events[i]) :: events[i].block
  }

  /** The block that a step confirms, and the state in which it does. */
  ghost function ToConfirm(l: State, e: Event): (r: Option<(State, MetaBlock)>) {
    if !e.ProposerBlock? || e.block.parent.None? || Attach(l.chain, e.block).Panic? then None
    else
      var d := State(Attach(l.chain, e.block).value.0, AddCoinbase(l.bank, e.block));
      match KDeep(d.chain.store, e.block.parent.value, CONFIRMATION_DEPTH)
      case Ok(Some(deep)) =>
        if deep.block.proofId in d.chain.confirmed || !Available(d.bank, d.chain.store, deep.block.refs) then None
        else Some((d, deep))
      case _ => None
  }

  ghost predicate CleanStep(l: State, e: Event) {
    ToConfirm(l, e).Some? ==> Clean(ToConfirm(l, e).value.0, ToConfirm(l, e).value.1.block)
  }

  /** What a step does when it confirms a block, and that otherwise it leaves log and marks alone. */
  lemma StepCases(l: State, blocks: set<Block>, e: Event)
    requires WellFormed(blocks) && Held(l.chain.store, blocks) && Step(l, e).Ok? && (IsBlock(e) ==> e.block in blocks)
    ensures ToConfirm(l, e).None? ==>
              var n := Step(l, e).value;
              && Held(n.chain.store, blocks) && n.chain.confirmed == l.chain.confirmed
              && n.bank.log == l.bank.log && n.bank.appliedBlocks == l.bank.appliedBlocks
    ensures ToConfirm(l, e).Some? ==>
              var (d, deep) := ToConfirm(l, e).value;
              && IsBlock(e) && Held(d.chain.store, blocks) && deep.block in blocks
              && d.chain.confirmed == l.chain.confirmed
              && d.bank == AddCoinbase(l.bank, e.block)
              && Confirm(d, deep) == Ok((true, Step(l, e).value))
  {
    hide Held, WellFormed, Saved, UpdateHeads, AddToSlot, KDeep, Available, ApplyConfirmed, ConfirmOnChain;
    if IsBlock(e) {
      SaveHeld(l.chain.store, blocks, e.block);
      if e.ProposerBlock? {
        var store := Attach(l.chain, e.block).value.0.store;
        match KDeep(store, e.block.parent.value, CONFIRMATION_DEPTH)
        case Ok(Some(deep)) => KDeepHeld(store, blocks, e.block.parent.value, CONFIRMATION_DEPTH);
        case _ =>
      }
    }
  }

  lemma SameAccounted(l: State, n: State, blocks: set<Block>)
    requires Accounted(l, blocks) && Held(n.chain.store, blocks) && n.chain.confirmed == l.chain.confirmed
    requires n.bank.log == l.bank.log && n.bank.appliedBlocks == l.bank.appliedBlocks
    ensures Accounted(n, blocks)
  {
    hide Held, Paid;
    forall x ensures RewardedCoinbase(n, blocks, x) <==> RewardedCoinbase(l, blocks, x) {
      forall b | b in blocks ensures Rewarded(n, b) <==> Rewarded(l, b) {}
    }
  }

  lemma StepPaysOnceIff(l: State, blocks: set<Block>, e: Event)
    requires WellFormed(blocks) && Accounted(l, blocks) && Sound(l.bank) && Step(l, e).Ok?
    requires IsBlock(e) ==> e.block in blocks
    ensures Accounted(Step(l, e).value, blocks)
    ensures Once(Step(l, e).value.bank.log) <==> Once(l.bank.log) && CleanStep(l, e)
  {
    hide Step, ToConfirm, Accounted, WellFormed, Sound, Clean, Once, Held;
    AccountedHeld(l, blocks);
    StepCases(l, blocks, e);
    var n := Step(l, e).value;
    if ToConfirm(l, e).None? {
      SameAccounted(l, n, blocks);
    } else {
      var (d, deep) := ToConfirm(l, e).value;
      SameAccounted(l, d, blocks);
      ReadyNow(l, blocks, e, d, deep, n);
      ConfirmPaysOnceIff(d, blocks, deep.block);
      ConfirmAccounts(d, blocks, deep.block, n);
    }
  }

  lemma ReadyNow(l: State, blocks: set<Block>, e: Event, d: State, deep: MetaBlock, n: State)
    requires WellFormed(blocks) && Accounted(d, blocks) && Sound(l.bank) && deep.block in blocks && IsBlock(e)
    requires d.bank == AddCoinbase(l.bank, e.block) && Confirm(d, deep) == Ok((true, n))
    ensures Ready(d, blocks, deep.block) && n.bank == ApplyConfirmed(d.bank, d.chain.store, deep.block).value
    ensures Held(n.chain.store, blocks) && n.chain.confirmed == d.chain.confirmed + {deep.block.proofId}
  {
    hide Accounted, ApplyConfirmed, ConfirmOnChain, Available, Held, Replay, Covered, CreditsOnce;
    AccountedHeld(d, blocks);
    ConfirmHeld(d.chain, blocks, deep);
    ConfirmedGrows(d.chain, deep);
  }

  /**
   * In every run of blocks as validation and hashing make them, each block reward has
   * been paid at most once if and only if every confirmation so far was clean.
   */
  lemma {:induction false} RunPaysOnceIff(states: seq<State>, events: seq<Event>, i: nat)
    requires Run(states, events) && i < |states| && WellFormed(Blocks(events))
    ensures Accounted(states[i], Blocks(events))
    ensures Once(states[i].bank.log) <==> forall j :: 0 <= j < i ==> CleanStep(states[j], events[j])
  {
    hide Step, Accounted, WellFormed, CleanStep, Once;
    if i == 0 {
      NothingPaid(Blocks(events));
    } else {
      RunPaysOnceIff(states, events, i - 1);
      RunIsSound(states, events, i - 1);
      assert Step(states[i - 1], events[i - 1]) == Ok(states[i]);
      StepPaysOnceIff(states[i - 1], Blocks(events), events[i - 1]);
    }
  }

  lemma NothingPaid(blocks: set<Block>)
    ensures Accounted(GENESIS, blocks) && Once(GENESIS.bank.log)
  {
  }

  /**
   * A block is not asked to be a tx block when it is referenced: a proposer block that
   * is confirmed and then named by a later one pays its farmer twice, although no
   * reference repeats.
   */
  lemma NamedProposerPaysTwice()
    ensures
      var p := Block(11, 21, Some(GENESIS_CHALLENGE), 1, CoinbaseTx(31, 7), [31]);
      var q := Block(12, 22, Some(21), 2, CoinbaseTx(32, 8), [32, 21]);
      var m := Store(map[11 := MetaBlock(p, [12], 0), 12 := MetaBlock(q, [], 1)], map[21 := 11, 22 := 12]);
      var k := Bank(map[31 := Coinbase(p.coinbase), 32 := Coinbase(q.coinbase)], map[], {}, {}, []);
      && m.Linked() && Available(k, m, p.refs) && ApplyConfirmed(k, m, p).Ok?
      && var n := ApplyConfirmed(k, m, p).value;
         && Available(n, m, q.refs) && NoRepeats(n.appliedBlocks, TxRefs(q)) && ApplyConfirmed(n, m, q).Ok?
         && 7 in ApplyConfirmed(n, m, q).value.accounts
         && ApplyConfirmed(n, m, q).value.accounts[7].balance == 2 * BLOCK_REWARD
  {
    var p := Block(11, 21, Some(GENESIS_CHALLENGE), 1, CoinbaseTx(31, 7), [31]);
    var q := Block(12, 22, Some(21), 2, CoinbaseTx(32, 8), [32, 21]);
    var m := Store(map[11 := MetaBlock(p, [12], 0), 12 := MetaBlock(q, [], 1)], map[21 := 11, 22 := 12]);
    var k := Bank(map[31 := Coinbase(p.coinbase), 32 := Coinbase(q.coinbase)], map[], {}, {}, []);
    ConfirmAlone(k, m, p);
    var n := ApplyConfirmed(k, m, p).value;
    assert n.accounts == map[7 := Account(BLOCK_REWARD, 0)] && n.appliedBlocks == {} && n.txs == k.txs;
    assert m.Lookup(21) == Some(MetaBlock(p, [12], 0)) && TxBlockReady(n, m, 21);
    ConfirmNamed(n, m, p, q);
  }

  lemma ConfirmAlone(k: Bank, m: Store, p: Block)
    requires |p.refs| == 1 && p.refs[0] in k.txs
    ensures ApplyConfirmed(k, m, p) == ApplyProposer(k, p)
  {
    assert p.refs[1..] == [];
    assert Flatten([]) == [] && ApplyTxBlocks(k, m, []) == Ok(k);
  }

  lemma ConfirmNamed(n: Bank, m: Store, p: Block, q: Block)
    requires q.refs == [32, 21] && p.refs == [31] && n.appliedBlocks == {} && p.proofId == 11
    requires 11 in m.blocks && m.Lookup(21) == Some(m.blocks[11]) && m.blocks[11].block == p
    requires 31 in n.txs && n.txs[31] == Coinbase(CoinbaseTx(31, 7))
    requires 32 in n.txs && n.txs[32] == Coinbase(CoinbaseTx(32, 8))
    requires n.accounts == map[7 := Account(BLOCK_REWARD, 0)]
    ensures ApplyConfirmed(n, m, q).Ok? && 7 in ApplyConfirmed(n, m, q).value.accounts
    ensures ApplyConfirmed(n, m, q).value.accounts[7].balance == 2 * BLOCK_REWARD
  {
    var g := [(p.timeslot, [11])];
    assert q.refs[1..] == [21] && [21][1..] == [];
    assert File([], p.timeslot, 11) == g;
    assert GroupRefs([], {}, m, [21]) == Ok(g);
    assert g[1..] == [] && Flatten(g[1..]) == [] && Flatten(g) == [11];
    assert [31][1..] == [] && [11][1..] == [];
    assert ApplyRefs(ApplyTx(n, 31).value, []) == ApplyTx(n, 31);
    var h := ApplyTxBlock(n, p).value;
    assert h.accounts == map[7 := Account(2 * BLOCK_REWARD, 0)] && h.txs == n.txs;
    assert ApplyTxBlocks(n, m, [11]) == Ok(h) by { assert ApplyTxBlocks(h, m, []) == Ok(h); }
  }
}
