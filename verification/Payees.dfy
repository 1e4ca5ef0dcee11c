/** Who is paid: every reward goes to the farmer of its block, and every balance is accounted for. */
module Payees {
  import opened Basics
  import opened MetaBlocks
  import opened Staging
  import opened Transactions
  import opened Supply
  import opened CanonicalOrder
  import opened LedgerRuns
  import opened Rewards
  import opened Pool

  // ----- the rewards in a log

  /** The coinbases logged, in order. */
  function RewardsIn(log: seq<Record>): (r: seq<CoinbaseTx>) {
    if log == [] then []
    else
      var last := log[|log| - 1];
      RewardsIn(log[..|log| - 1]) + if last.TxRecord? && last.tx.Coinbase? then [last.tx.reward] else []
  }

  lemma RewardsOne(log: seq<Record>, r: Record)
    ensures RewardsIn(log + [r]) == RewardsIn(log) + if r.TxRecord? && r.tx.Coinbase? then [r.tx.reward] else []
  {
    assert (log + [r])[..|log|] == log;
  }

  lemma RewardsBlock(log: seq<Record>, b: Block)
    ensures RewardsIn(log + [ProofRecord(b.proofId), ContentRecord(b.contentId)]) == RewardsIn(log)
  {
    RewardsOne(log, ProofRecord(b.proofId));
    RewardsOne(log + [ProofRecord(b.proofId)], ContentRecord(b.contentId));
    assert log + [ProofRecord(b.proofId)] + [ContentRecord(b.contentId)]
        == log + [ProofRecord(b.proofId), ContentRecord(b.contentId)];
  }

  // ----- one confirmation

  lemma {:induction false} CreditsRewardNothing(k: Bank, refs: seq<Id>)
    requires ApplyRefs(k, refs).Ok?
    requires forall i :: 0 <= i < |refs| ==> refs[i] in k.txs && k.txs[refs[i]].Credit?
    ensures RewardsIn(ApplyRefs(k, refs).value.log) == RewardsIn(k.log)
    decreases |refs|
  {
    hide RewardsIn;
    if refs != [] {
      RewardsOne(k.log, TxRecord(k.txs[refs[0]]));
      CreditsRewardNothing(ApplyTx(k, refs[0]).value, refs[1..]);
    }
  }

  lemma TxBlockRewards(k: Bank, b: Block)
    requires Pooled(k, b) && RefsKnown(k, b.refs) && ApplyTxBlock(k, b).Ok?
    ensures RewardsIn(ApplyTxBlock(k, b).value.log) == RewardsIn(k.log) + [b.coinbase]
  {
    hide RewardsIn;
    var h := ApplyRefs(k, b.refs).value;
    RewardsOne(k.log, TxRecord(k.txs[b.refs[0]]));
    CreditsRewardNothing(ApplyTx(k, b.refs[0]).value, b.refs[1..]);
    RewardsBlock(h.log, b);
  }

  /** The coinbases of the listed blocks. */
  function CoinbasesOf(m: Store, ids: seq<Id>): (r: seq<CoinbaseTx>)
    requires forall p :: p in ids ==> p in m.blocks
  {
    if ids == [] then [] else [m.blocks[ids[0]].block.coinbase] + CoinbasesOf(m, ids[1..])
  }

  ghost predicate AllPooled(k: Bank, m: Store, ids: seq<Id>) {
    forall p :: p in ids ==> BlockKnown(k, m, p) && Pooled(k, m.blocks[p].block)
  }

  lemma {:induction false} TxBlocksRewards(k: Bank, m: Store, ids: seq<Id>)
    requires ApplyTxBlocks(k, m, ids).Ok? && AllPooled(k, m, ids)
    ensures RewardsIn(ApplyTxBlocks(k, m, ids).value.log) == RewardsIn(k.log) + CoinbasesOf(m, ids)
    decreases |ids|
  {
    hide RewardsIn, ApplyRefs, RefsKnown;
    if ids != [] {
      assert ids[0] in ids;
      var b := m.blocks[ids[0]].block;
      TxBlockRewards(k, b);
      ApplyRefsKeeps(k, b.refs);
      var n := ApplyTxBlock(k, b).value;
      StillPooled(k, n, m, ids);
      TxBlocksRewards(n, m, ids[1..]);
    }
  }

  lemma StillPooled(k: Bank, n: Bank, m: Store, ids: seq<Id>)
    requires AllPooled(k, m, ids) && ids != [] && n.txs == k.txs
    ensures AllPooled(n, m, ids[1..])
  {
    forall p | p in ids[1..] ensures BlockKnown(n, m, p) && Pooled(n, m.blocks[p].block) {
      assert p in ids;
    }
  }

  /** A confirmation pays the coinbases of the tx blocks it applies, in the order it applies them, and then its own. */
  lemma ConfirmRewards(k: Bank, m: Store, b: Block)
    requires m.Linked() && Available(k, m, b.refs) && ApplyConfirmed(k, m, b).Ok? && Pooled(k, b)
    requires forall p :: p in Order(k, m, b) && p in m.blocks ==> Pooled(k, m.blocks[p].block)
    ensures forall p :: p in Order(k, m, b) ==> p in m.blocks
    ensures RewardsIn(ApplyConfirmed(k, m, b).value.log) ==
            RewardsIn(k.log) + CoinbasesOf(m, Order(k, m, b)) + [b.coinbase]
  {
    hide GroupRefs, Flatten, ApplyTxBlocks, RewardsIn, CoinbasesOf, Before, Unapplied;
    var order := Order(k, m, b);
    OrderIsCanonical(k, m, b);
    OrderMembers(k, m, b);
    TxBlocksRewards(k, m, order);
    ApplyTxBlocksKeeps(k, m, order);
    var n := ApplyTxBlocks(k, m, order).value;
    RewardsOne(n.log, TxRecord(n.txs[b.refs[0]]));
    RewardsBlock(n.log + [TxRecord(n.txs[b.refs[0]])], b);
  }

  // ----- the rewards over a run

  /** Before confirming, everything staged is pooled and everything stored is staged. */
  lemma ReadyToPay(states: seq<State>, events: seq<Event>, i: nat)
    requires Run(states, events) && i < |events| && WellFormed(Blocks(events))
    requires ToConfirm(states[i], events[i]).Some?
    ensures
      var (d, deep) := ToConfirm(states[i], events[i]).value;
      && Held(d.chain.store, Blocks(events[..i + 1])) && deep.block in Blocks(events[..i + 1])
      && (forall b :: b in Blocks(events[..i + 1]) ==> Pooled(d.bank, b))
      && Confirm(d, deep) == Ok((true, states[i + 1])) && d.bank.log == states[i].bank.log
  {
    hide Step, ToConfirm, WellFormed, Pooled, Held, Confirm;
    PrefixRun(states, events, i + 1);
    var past, blocks := events[..i + 1], Blocks(events[..i + 1]);
    RunPaysOnceIff(states[..i + 2], past, i);
    AccountedHeld(states[i], blocks);
    assert Step(states[i], events[i]) == Ok(states[i + 1]);
    assert IsBlock(events[i]) ==> past[i].block in blocks;
    StepCases(states[i], blocks, events[i]);
    var (d, deep) := ToConfirm(states[i], events[i]).value;
    forall b | b in blocks ensures Pooled(d.bank, b) {
      StagedIsPooled(states, events, i + 1, b);
      ConfirmingKeepsPooled(states[i], events[i], b);
    }
  }

  lemma ConfirmingKeepsPooled(l: State, e: Event, b: Block)
    requires Step(l, e).Ok? && ToConfirm(l, e).Some? && Pooled(Step(l, e).value.bank, b)
    ensures Pooled(ToConfirm(l, e).value.0.bank, b)
  {
    hide Step, KDeep, Attach, Available;
    StepPool(l, e);
  }

  /**
   * Every step of a run pays exactly this: when it confirms a block, the coinbases of
   * the tx blocks it applies, in canonical order and as staged with their blocks, then
   * that of the block; and otherwise nothing.
   */
  lemma StepRewards(states: seq<State>, events: seq<Event>, i: nat)
    requires Run(states, events) && i < |events| && WellFormed(Blocks(events))
    ensures ToConfirm(states[i], events[i]).None? ==> states[i + 1].bank.log == states[i].bank.log
    ensures ToConfirm(states[i], events[i]).Some? ==>
              var (d, deep) := ToConfirm(states[i], events[i]).value;
              var order := Order(d.bank, d.chain.store, deep.block);
              && deep.block in Blocks(events[..i + 1])
              && (forall p :: p in order ==>
                    p in d.chain.store.blocks && d.chain.store.blocks[p].block in Blocks(events[..i + 1]))
              && RewardsIn(states[i + 1].bank.log) ==
                   RewardsIn(states[i].bank.log) + CoinbasesOf(d.chain.store, order) + [deep.block.coinbase]
  {
    hide Step, ToConfirm, WellFormed, Pooled, RewardsIn, CoinbasesOf, ConfirmOnChain, Order, ApplyConfirmed, Available;
    if ToConfirm(states[i], events[i]).None? {
      NoRewards(states, events, i);
    } else {
      ReadyToPay(states, events, i);
      var (d, deep) := ToConfirm(states[i], events[i]).value;
      ConfirmRewards(d.bank, d.chain.store, deep.block);
    }
  }

  lemma NoRewards(states: seq<State>, events: seq<Event>, i: nat)
    requires Run(states, events) && i < |events| && WellFormed(Blocks(events))
    requires ToConfirm(states[i], events[i]).None?
    ensures states[i + 1].bank.log == states[i].bank.log
  {
    hide Step, ToConfirm, WellFormed, Held;
    RunPaysOnceIff(states, events, i);
    AccountedHeld(states[i], Blocks(events));
    assert Step(states[i], events[i]) == Ok(states[i + 1]);
    assert IsBlock(events[i]) ==> events[i].block in Blocks(events);
    StepCases(states[i], Blocks(events), events[i]);
  }

  ghost predicate CoinbaseOfSome(blocks: set<Block>, c: CoinbaseTx) {
    exists b :: b in blocks && b.coinbase == c
  }

  lemma {:induction false} CoinbasesAreOfSome(m: Store, ids: seq<Id>, blocks: set<Block>)
    requires forall p :: p in ids ==> p in m.blocks && m.blocks[p].block in blocks
    ensures forall c :: c in CoinbasesOf(m, ids) ==> CoinbaseOfSome(blocks, c)
  {
    if ids != [] {
      assert ids[0] in ids;
      CoinbasesAreOfSome(m, ids[1..], blocks);
    }
  }

  /** The reward logged for an id is to the payee of the staged block whose coinbase has that id. */
  lemma {:induction false} RewardsAreStaged(states: seq<State>, events: seq<Event>, i: nat, c: CoinbaseTx)
    requires Run(states, events) && i < |states| && WellFormed(Blocks(events)) && c in RewardsIn(states[i].bank.log)
    ensures CoinbaseOfSome(Blocks(events[..i]), c)
    ensures forall b :: b in Blocks(events) && b.coinbase.id == c.id ==> b.coinbase.to == c.to
  {
    hide Step, ToConfirm, CoinbasesOf, Order;
    PrefixRun(states, events, i);
    if c in RewardsIn(states[i - 1].bank.log) {
      RewardsAreStaged(states, events, i - 1, c);
      var b :| b in Blocks(events[..i - 1]) && b.coinbase == c;
      StagedStays(events, i, b);
    } else {
      StepRewards(states, events, i - 1);
      var (d, deep) := ToConfirm(states[i - 1], events[i - 1]).value;
      CoinbasesAreOfSome(d.chain.store, Order(d.bank, d.chain.store, deep.block), Blocks(events[..i]));
    }
    var b :| b in Blocks(events[..i]) && b.coinbase == c;
    assert forall o :: o in Blocks(events) && o.coinbase.id == c.id ==> Alike(o, b);
  }

  lemma StagedStays(events: seq<Event>, i: nat, b: Block)
    requires 0 < i <= |events| && b in Blocks(events[..i - 1])
    ensures b in Blocks(events[..i])
  {
    var j :| 0 <= j < i - 1 && IsBlock(events[..i - 1][j]) && events[..i - 1][j].block == b;
    assert events[..i][j] == events[j];
  }

  // ----- every balance accounted for

  /** How many of the rewards are to an account. */
  function Times(rewards: seq<CoinbaseTx>, a: Id): (n: nat) {
    if rewards == [] then 0
    else Times(rewards[..|rewards| - 1], a) + if rewards[|rewards| - 1].to == a then 1 else 0
  }

  lemma {:induction false} TimesAppend(s: seq<CoinbaseTx>, t: seq<CoinbaseTx>, a: Id)
    ensures Times(s + t, a) == Times(s, a) + Times(t, a)
  {
    if t == [] {
      assert s + t == s;
    } else {
      assert (s + t)[..|s + t| - 1] == s + t[..|t| - 1];
      TimesAppend(s, t[..|t| - 1], a);
    }
  }

  function Received(log: seq<Record>, a: Id): (n: nat) {
    if log == [] then 0
    else
      var r := log[|log| - 1];
      Received(log[..|log| - 1], a) + if IsCredit(r) && r.tx.credit.to == a then r.tx.credit.amount else 0
  }

  function Sent(log: seq<Record>, a: Id): (n: nat) {
    if log == [] then 0
    else
      var r := log[|log| - 1];
      Sent(log[..|log| - 1], a) + if IsCredit(r) && r.tx.credit.from == a then r.tx.credit.amount else 0
  }

  function Holding(e: Exact, a: Id): (n: int) {
    if a in e then e[a] else 0
  }

  /** What an account should hold by the log: the rewards to it and the credits received, less those sent. */
  function Entitled(log: seq<Record>, a: Id): (n: int) {
    BLOCK_REWARD * Times(RewardsIn(log), a) + Received(log, a) - Sent(log, a)
  }

  lemma {:induction false} ExactIsEntitled(log: seq<Record>, a: Id)
    ensures Holding(ExactReplay(log), a) == Entitled(log, a)
  {
    if log != [] {
      var prefix, r := log[..|log| - 1], log[|log| - 1];
      ExactIsEntitled(prefix, a);
      if r.TxRecord? && r.tx.Coinbase? {
        TimesAppend(RewardsIn(prefix), [r.tx.reward], a);
        assert [r.tx.reward][..0] == [];
      } else {
        assert RewardsIn(log) == RewardsIn(prefix);
      }
    }
  }

  function BalanceOf(accounts: Accounts, a: Id): (n: nat) {
    if a in accounts then accounts[a].balance else 0
  }

  /** In every run the balance of every account is one reward for each coinbase paid to it, plus the credits it
      received, less those it sent. */
  lemma RunBalances(states: seq<State>, events: seq<Event>, i: nat, a: Id)
    requires Run(states, events) && i < |states| && Minted(states[i].bank.log) < TWO_64
    ensures BalanceOf(states[i].bank.accounts, a) == Entitled(states[i].bank.log, a)
  {
    hide Run, Entitled, ExactReplay, Total;
    RunConservesSupply(states, events, i);
    ExactIsEntitled(states[i].bank.log, a);
  }

  lemma {:induction false} MintedGrows(log: seq<Record>, more: seq<Record>)
    requires log <= more
    ensures Minted(log) <= Minted(more)
  {
    if log != more {
      assert log <= more[..|more| - 1];
      MintedGrows(log, more[..|more| - 1]);
    }
  }

  /** How many rewards a step pays to an account: one for each tx block it applies with this payee, and one for the
      block it confirms. */
  ghost function PaidTo(l: State, e: Event, a: Id): (n: nat)
    requires ToConfirm(l, e).Some? ==>
               var (d, deep) := ToConfirm(l, e).value;
               forall p :: p in Order(d.bank, d.chain.store, deep.block) ==> p in d.chain.store.blocks
  {
    match ToConfirm(l, e)
    case None => 0
    case Some((d, deep)) =>
      Times(CoinbasesOf(d.chain.store, Order(d.bank, d.chain.store, deep.block)), a)
      + if deep.block.coinbase.to == a then 1 else 0
  }

  /** A step changes a balance by the rewards it pays to the account and by the credits it logs, and by nothing else. */
  lemma StepRaises(states: seq<State>, events: seq<Event>, i: nat, a: Id)
    requires Run(states, events) && i < |events| && WellFormed(Blocks(events))
    requires Minted(states[i + 1].bank.log) < TWO_64
    ensures ToConfirm(states[i], events[i]).Some? ==>
              var (d, deep) := ToConfirm(states[i], events[i]).value;
              forall p :: p in Order(d.bank, d.chain.store, deep.block) ==> p in d.chain.store.blocks
    ensures
      var k, n := states[i].bank, states[i + 1].bank;
      BalanceOf(n.accounts, a) - BalanceOf(k.accounts, a) ==
        BLOCK_REWARD * PaidTo(states[i], events[i], a)
        + (Received(n.log, a) - Received(k.log, a)) - (Sent(n.log, a) - Sent(k.log, a))
  {
    hide Step, ToConfirm, Order, CoinbasesOf, RewardsIn, Received, Sent, WellFormed;
    var k, n := states[i].bank, states[i + 1].bank;
    RunIsSound(states, events, i);
    assert Step(states[i], events[i]) == Ok(states[i + 1]);
    StepKeepsSound(states[i], events[i]);
    MintedGrows(k.log, n.log);
    RunBalances(states, events, i, a);
    RunBalances(states, events, i + 1, a);
    StepRewards(states, events, i);
    if ToConfirm(states[i], events[i]).Some? {
      var (d, deep) := ToConfirm(states[i], events[i]).value;
      var order := CoinbasesOf(d.chain.store, Order(d.bank, d.chain.store, deep.block));
      TimesAppend(RewardsIn(k.log), order, a);
      TimesAppend(RewardsIn(k.log) + order, [deep.block.coinbase], a);
      assert [deep.block.coinbase][..0] == [];
    }
  }
}
