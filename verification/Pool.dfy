/** The pool of transactions over a run: what is in it, and when a block finds all it needs there. */
module Pool {
  import opened Basics
  import opened MetaBlocks
  import opened ForkChoice
  import opened Staging
  import opened Transactions
  import opened CanonicalOrder
  import opened Effects
  import opened LedgerRuns
  import opened Rewards

  // ----- coinbases

  /** The first reference of a block is its own coinbase, and the pool holds that coinbase, payee included. */
  ghost predicate Pooled(k: Bank, b: Block) {
    b.refs != [] && b.refs[0] in k.txs && k.txs[b.refs[0]] == Coinbase(b.coinbase)
  }

  /** What a step does to the pool: a block adds its coinbase, an admitted credit is added, nothing else changes. */
  lemma StepPool(l: State, e: Event)
    requires Step(l, e).Ok?
    ensures
      var txs, n := l.bank.txs, Step(l, e).value.bank.txs;
      match e
      case ProposerBlock(b) => n == txs[b.coinbase.id := Coinbase(b.coinbase)]
      case TxBlock(b) => n == txs[b.coinbase.id := Coinbase(b.coinbase)]
      case CreditProposal(tx, signed) =>
        n == if tx.id in txs || tx.from !in l.bank.accounts || !CanPay(l.bank.accounts, tx) || !signed then txs
             else txs[tx.id := Credit(tx)]
      case SyncedCredit(tx) => n == if tx.id in txs then txs else txs[tx.id := Credit(tx)]
  {
    hide Attach, ApplyConfirmed, ConfirmOnChain, KDeep, Available;
    if e.ProposerBlock? {
      var d := State(Attach(l.chain, e.block).value.0, AddCoinbase(l.bank, e.block));
      match KDeep(d.chain.store, e.block.parent.value, CONFIRMATION_DEPTH) {
        case Ok(Some(deep)) =>
          if ApplyConfirmed(d.bank, d.chain.store, deep.block).Ok? {
            ConfirmKeepsPool(d.bank, d.chain.store, deep.block);
          }
        case _ =>
      }
    }
  }

  lemma ConfirmKeepsPool(k: Bank, m: Store, b: Block)
    requires ApplyConfirmed(k, m, b).Ok?
    ensures ApplyConfirmed(k, m, b).value.txs == k.txs
  {
    hide ApplyTxBlocks, GroupRefs, Flatten, Follows;
    var ids := Flatten(GroupRefs([], k.appliedBlocks, m, if b.refs == [] then [] else b.refs[1..]).value);
    ApplyTxBlocksFollows(k, m, ids);
    assert ApplyTxBlocks(k, m, ids).value.txs == k.txs by { FollowsPool(k, ApplyTxBlocks(k, m, ids).value); }
  }

  lemma FollowsPool(k: Bank, n: Bank)
    requires Follows(k, n)
    ensures n.txs == k.txs
  {
  }

  lemma PrefixRun(states: seq<State>, events: seq<Event>, i: nat)
    requires Run(states, events) && i < |states| && WellFormed(Blocks(events))
    ensures Run(states[..i + 1], events[..i])
    ensures WellFormed(Blocks(events[..i])) && Blocks(events[..i]) <= Blocks(events)
  {
    hide Step;
    forall j | 0 <= j < i ensures Step(states[..i + 1][j], events[..i][j]) == Ok(states[..i + 1][j + 1]) {
      assert Step(states[j], events[j]) == Ok(states[j + 1]);
    }
    forall b | b in Blocks(events[..i]) ensures b in Blocks(events) {
      var j :| 0 <= j < i && IsBlock(events[..i][j]) && events[..i][j].block == b;
      assert IsBlock(events[j]) && events[j].block == b;
    }
  }

  /** Every staged block stays pooled: no credit and no other block takes the place of its coinbase. */
  lemma {:induction false} StagedIsPooled(states: seq<State>, events: seq<Event>, i: nat, b: Block)
    requires Run(states, events) && i < |states| && WellFormed(Blocks(events)) && b in Blocks(events[..i])
    ensures Pooled(states[i].bank, b)
  {
    hide Step;
    PrefixRun(states, events, i);
    var e := events[i - 1];
    assert Step(states[i - 1], e) == Ok(states[i]);
    StepPool(states[i - 1], e);
    var j :| 0 <= j < i && IsBlock(events[..i][j]) && events[..i][j].block == b;
    if IsBlock(e) && e.block.coinbase.id == b.coinbase.id {
      assert e.block in Blocks(events);
      assert Alike(e.block, b);
    } else {
      assert j < i - 1 && events[..i - 1][j] == events[j];
      StagedIsPooled(states, events, i - 1, b);
    }
  }

  // ----- credits

  /** The event brings a new credit to the pool: synced, or gossiped with a good signature by a sender who can pay. */
  ghost predicate Admits(l: State, e: Event, tx: CreditTx) {
    && tx.id !in l.bank.txs
    && (|| e == SyncedCredit(tx)
        || (e == CreditProposal(tx, true) && tx.from in l.bank.accounts && CanPay(l.bank.accounts, tx)))
  }

  ghost predicate AdmittedBy(states: seq<State>, events: seq<Event>, i: nat, tx: CreditTx)
    requires |events| < |states| && i <= |events|
  {
    exists j: nat :: j < i && Admits(states[j], events[j], tx)
  }

  /** No block staged so far has a coinbase with this id. */
  ghost predicate NotACoinbase(events: seq<Event>, i: nat, id: Id)
    requires i <= |events|
  {
    forall j :: 0 <= j < i && IsBlock(events[j]) ==> events[j].block.coinbase.id != id
  }

  ghost predicate Holds(k: Bank, tx: CreditTx) {
    tx.id in k.txs && k.txs[tx.id] == Credit(tx)
  }

  /** In every run the pool holds a credit exactly when some event admitted it and no block's coinbase has its id. */
  lemma {:induction false} HoldsCreditIff(states: seq<State>, events: seq<Event>, i: nat, tx: CreditTx)
    requires Run(states, events) && i < |states|
    ensures Holds(states[i].bank, tx) <==> AdmittedBy(states, events, i, tx) && NotACoinbase(events, i, tx.id)
  {
    hide Step, CanPay;
    if i > 0 {
      var l, e, n := states[i - 1], events[i - 1], states[i];
      HoldsCreditIff(states, events, i - 1, tx);
      assert Step(l, e) == Ok(n);
      StepPool(l, e);
      assert AdmittedBy(states, events, i, tx) <==> AdmittedBy(states, events, i - 1, tx) || Admits(l, e, tx);
      if IsBlock(e) && e.block.coinbase.id == tx.id {
        assert !NotACoinbase(events, i, tx.id);
      } else {
        assert NotACoinbase(events, i, tx.id) <==> NotACoinbase(events, i - 1, tx.id);
        if Admits(l, e, tx) {
          NewIsNoCoinbase(states, events, i - 1, tx.id);
        }
      }
    }
  }

  lemma {:induction false} NewIsNoCoinbase(states: seq<State>, events: seq<Event>, i: nat, id: Id)
    requires Run(states, events) && i < |states| && id !in states[i].bank.txs
    ensures NotACoinbase(events, i, id)
  {
    hide Step, CanPay;
    if i > 0 {
      assert Step(states[i - 1], events[i - 1]) == Ok(states[i]);
      StepPool(states[i - 1], events[i - 1]);
      NewIsNoCoinbase(states, events, i - 1, id);
    }
  }

  // ----- when a block finds all its transactions

  ghost predicate CreditsKnown(k: Bank, refs: seq<Id>) {
    forall x :: x in refs ==> x in k.txs && k.txs[x].Credit?
  }

  /** A tx block is stored, and the credits it lists after its coinbase are in the pool. */
  ghost predicate InPlace(k: Bank, m: Store, content: Id) {
    m.Lookup(content).Some? && CreditsKnown(k, TxRefs(m.Lookup(content).value.block))
  }

  lemma PooledRefsKnown(k: Bank, b: Block)
    requires Pooled(k, b)
    ensures RefsKnown(k, b.refs) <==> CreditsKnown(k, TxRefs(b))
  {
    if CreditsKnown(k, TxRefs(b)) {
      forall i | 0 <= i < |b.refs| ensures b.refs[i] in k.txs && (k.txs[b.refs[i]].Coinbase? <==> i == 0) {
        if i > 0 {
          assert TxRefs(b)[i - 1] == b.refs[i];
        }
      }
    }
    if RefsKnown(k, b.refs) {
      forall x | x in TxRefs(b) ensures x in k.txs && k.txs[x].Credit? {
        var i :| 0 <= i < |TxRefs(b)| && TxRefs(b)[i] == x;
        assert b.refs[i + 1] == x;
      }
    }
  }

  /** In every run a staged block passes the check for its transactions exactly when each tx block it names is applied
      already, or stored with all its credits in the pool. */
  lemma AvailableIffInPlace(states: seq<State>, events: seq<Event>, i: nat, b: Block)
    requires Run(states, events) && i < |states| && WellFormed(Blocks(events)) && b in Blocks(events[..i])
    ensures
      var k, m := states[i].bank, states[i].chain.store;
      Available(k, m, b.refs) <==> forall c :: c in TxRefs(b) ==> c in k.appliedBlocks || InPlace(k, m, c)
  {
    hide Step, Run, RefsKnown, WellFormed, Blocks, CreditsKnown;
    var k, m := states[i].bank, states[i].chain.store;
    StagedIsPooled(states, events, i, b);
    forall c ensures TxBlockReady(k, m, c) <==> c in k.appliedBlocks || InPlace(k, m, c) {
      if m.Lookup(c).Some? {
        StoredIsPooled(states, events, i, c);
        PooledRefsKnown(k, m.Lookup(c).value.block);
      }
    }
    assert forall j :: 1 <= j < |b.refs| ==> TxRefs(b)[j - 1] == b.refs[j];
    assert forall j :: 0 <= j < |TxRefs(b)| ==> b.refs[j + 1] == TxRefs(b)[j];
    if Available(k, m, b.refs) {
      forall c | c in TxRefs(b) ensures c in k.appliedBlocks || InPlace(k, m, c) {
        var j :| 0 <= j < |TxRefs(b)| && TxRefs(b)[j] == c;
        assert TxBlockReady(k, m, b.refs[j + 1]);
      }
    }
  }

  lemma StoredIsPooled(states: seq<State>, events: seq<Event>, i: nat, c: Id)
    requires Run(states, events) && i < |states| && WellFormed(Blocks(events))
    requires states[i].chain.store.Lookup(c).Some?
    ensures Pooled(states[i].bank, states[i].chain.store.Lookup(c).value.block)
  {
    hide Step, Pooled;
    PrefixRun(states, events, i);
    RunPaysOnceIff(states[..i + 1], events[..i], i);
    StagedIsPooled(states, events, i, states[i].chain.store.Lookup(c).value.block);
  }
}
