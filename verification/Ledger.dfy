/** The mutable ledger of the source: its methods, each proved against the state machine. */
module Ledger {
  import opened Basics
  import opened MetaBlocks
  import ForkChoice
  import opened Staging
  import opened Transactions
  import Runs = LedgerRuns

  class Ledger {
    const metablocks: BlockStore
    var proofIdsByTimeslot: map<nat, seq<Id>>
    var heads: seq<ForkChoice.Head>
    var confirmedBlocks: set<Id>
    var txs: map<Id, Transaction>
    var balances: Accounts
    var appliedTxIds: set<Id>
    var appliedTxBlockIds: set<Id>
    var state: seq<Record>

    function Chain(): (r: ForkChoice.Chain)
      reads this, metablocks
    {
      ForkChoice.Chain(metablocks.View(), proofIdsByTimeslot, heads, confirmedBlocks)
    }

    function Bank(): (r: Transactions.Bank)
      reads this
    {
      Transactions.Bank(txs, balances, appliedTxIds, appliedTxBlockIds, state)
    }

    function View(): (r: Runs.State)
      reads this, metablocks
    {
      Runs.State(Chain(), Bank())
    }

    constructor ()
      ensures View() == Runs.GENESIS && fresh(metablocks)
    {
      metablocks := new BlockStore();
      proofIdsByTimeslot, heads, confirmedBlocks := map[], [], {};
      txs, balances, appliedTxIds, appliedTxBlockIds, state := map[], map[], {}, {}, [];
    }

    method AddBlockToTimeslot(timeslot: nat, proofId: Id)
      modifies this`proofIdsByTimeslot
      ensures proofIdsByTimeslot == ForkChoice.AddToSlot(old(proofIdsByTimeslot), timeslot, proofId)
    {
      if timeslot in proofIdsByTimeslot {
        proofIdsByTimeslot := proofIdsByTimeslot[timeslot := proofIdsByTimeslot[timeslot] + [proofId]];
      } else {
        proofIdsByTimeslot := proofIdsByTimeslot[timeslot := [proofId]];
      }
    }

    method UpdateHeads(parentContentId: Id, contentId: Id, blockHeight: nat)
      modifies this`heads
      ensures heads == ForkChoice.UpdateHeads(old(heads), parentContentId, contentId, blockHeight)
    {
      var index := 0;
      while index < |heads|
        invariant 0 <= index <= |heads| && heads == old(heads)
        invariant forall j :: 0 <= j < index ==> heads[j].contentId != parentContentId
      {
        if heads[index].contentId == parentContentId {
          assert index == ForkChoice.HeadIndex(heads, parentContentId);
          heads := heads[index := ForkChoice.Head(heads[index].height + 1, contentId)];
          if index != 0 && heads[index].height > heads[0].height {
            heads := heads[0 := heads[index]][index := heads[0]];
          }
          return;
        }
        index := index + 1;
      }
      heads := heads + [ForkChoice.Head(blockHeight, contentId)];
    }

    /** Returns false where the source panics. */
    method PruneBranch(contentId: Id) returns (ok: bool)
      modifies this`heads
      ensures ok == ForkChoice.PruneBranch(old(heads), contentId).Ok?
      ensures ok ==> ForkChoice.PruneBranch(old(heads), contentId) == Ok(heads)
    {
      var removeIndex, index := 0, 0;
      while index < |heads|
        invariant 0 <= index <= |heads|
        invariant removeIndex == 0 || (removeIndex < index && heads[removeIndex].contentId == contentId)
        invariant forall j :: removeIndex < j < index ==> heads[j].contentId != contentId
      {
        if heads[index].contentId == contentId { removeIndex := index; }
        index := index + 1;
      }
      assert removeIndex == ForkChoice.LastHeadIndex(heads, contentId);
      if removeIndex == 0 { return false; }
      heads := RemoveAt(heads, removeIndex);
      ok := true;
    }

    method RemoveFromTimeslot(timeslot: nat, proofId: Id) returns (ok: bool)
      modifies this`proofIdsByTimeslot
      ensures ok == ForkChoice.DropFromSlot(old(proofIdsByTimeslot), timeslot, proofId).Ok?
      ensures ok ==> ForkChoice.DropFromSlot(old(proofIdsByTimeslot), timeslot, proofId) == Ok(proofIdsByTimeslot)
    {
      if timeslot !in proofIdsByTimeslot { return true; }
      var ids := proofIdsByTimeslot[timeslot];
      var index := 0;
      while index < |ids| && ids[index] != proofId
        invariant 0 <= index <= |ids|
        invariant forall j :: 0 <= j < index ==> ids[j] != proofId
      {
        index := index + 1;
      }
      assert index == ForkChoice.Position(ids, proofId);
      if index == |ids| { return false; }
      proofIdsByTimeslot := proofIdsByTimeslot[timeslot := RemoveAt(ids, index)];
      ok := true;
    }

    /** Returns false where the source panics. */
    method PruneBlocksRecursive(proofIds: seq<Id>) returns (ok: bool)
      modifies this`proofIdsByTimeslot, this`heads, metablocks
      ensures ok == ForkChoice.PruneBlocks(old(Chain()), proofIds).Ok?
      ensures ok ==> ForkChoice.PruneBlocks(old(Chain()), proofIds) == Ok(Chain())
      decreases |metablocks.blocks|, |proofIds|
    {
      for i := 0 to |proofIds|
        invariant |metablocks.blocks| <= old(|metablocks.blocks|)
        invariant ForkChoice.PruneBlocks(old(Chain()), proofIds) == ForkChoice.PruneBlocks(Chain(), proofIds[i..])
      {
        assert proofIds[i..][0] == proofIds[i] && proofIds[i..][1..] == proofIds[i + 1..];
        ghost var before := Chain();
        label step:
        var removed := metablocks.Remove(proofIds[i]);
        if removed.Panic? { return false; }
        var metablock := removed.value;
        assert metablocks.blocks.Keys == before.store.blocks.Keys - {proofIds[i]};
        assert |metablocks.blocks.Keys| == |metablocks.blocks| && |before.store.blocks.Keys| == |before.store.blocks|;
        var slotOk := RemoveFromTimeslot(metablock.block.timeslot, proofIds[i]);
        if !slotOk { return false; }
        var done;
        if |metablock.children| > 0 {
          done := PruneBlocksRecursive(metablock.children);
        } else {
          done := PruneBranch(metablock.block.contentId);
        }
        if !done { return false; }
        assert ForkChoice.PruneBlock(before, proofIds[i]) == Ok(Chain());
      }
      assert proofIds[|proofIds|..] == [];
      ok := true;
    }

    /** The check phase: are all tx blocks and transactions of a proposer block at hand? */
    method HasAllTransactions(refs: seq<Id>) returns (ok: bool)
      ensures ok == Available(Bank(), metablocks.View(), refs)
    {
      for index := 0 to |refs|
        invariant index > 0 ==> refs[0] in txs && txs[refs[0]].Coinbase?
        invariant forall i :: 1 <= i < index ==> TxBlockReady(Bank(), metablocks.View(), refs[i])
      {
        if index == 0 {
          if refs[0] !in txs || !txs[refs[0]].Coinbase? { return false; }
        } else if refs[index] !in appliedTxBlockIds {
          var found := metablocks.View().Lookup(refs[index]);
          if found.None? { assert !TxBlockReady(Bank(), metablocks.View(), refs[index]); return false; }
          var known := HasAllRefs(found.value.block.refs);
          if !known { assert !TxBlockReady(Bank(), metablocks.View(), refs[index]); return false; }
        }
      }
      ok := true;
    }

    method HasAllRefs(refs: seq<Id>) returns (ok: bool)
      ensures ok == RefsKnown(Bank(), refs)
    {
      for index := 0 to |refs|
        invariant forall i :: 0 <= i < index ==> refs[i] in txs && (txs[refs[i]].Coinbase? <==> i == 0)
      {
        if refs[index] !in txs { return false; }
        match txs[refs[index]]
        case Coinbase(_) => if index != 0 { return false; }
        case Credit(_) => if index == 0 { return false; }
      }
      ok := true;
    }

    /** Un-applied tx blocks by timeslot, then by proof id. */
    method OrderTxBlocks(refs: seq<Id>) returns (r: Outcome<seq<Id>>)
      ensures r == match GroupRefs([], appliedTxBlockIds, metablocks.View(), refs)
                   case Ok(g) => Ok(Flatten(g))
                   case Panic => Panic
    {
      var groups: Groups := [];
      for i := 0 to |refs|
        invariant GroupRefs(groups, appliedTxBlockIds, metablocks.View(), refs[i..])
               == GroupRefs([], appliedTxBlockIds, metablocks.View(), refs)
      {
        assert refs[i..][0] == refs[i] && refs[i..][1..] == refs[i + 1..];
        if refs[i] !in appliedTxBlockIds {
          var found := metablocks.View().Lookup(refs[i]);
          if found.None? { return Panic; }
          groups := File(groups, found.value.block.timeslot, found.value.block.proofId);
        }
      }
      assert refs[|refs|..] == [];
      r := Ok(Flatten(groups));
    }

    /** Adds to a balance with 64-bit wrap-around, or opens the account. */
    method CreditAccount(to: Id, amount: u64)
      modifies this`balances
      ensures balances == Deposit(old(balances), to, amount)
    {
      if to in balances {
        balances := balances[to := balances[to].(balance := (balances[to].balance + amount) % TWO_64)];
      } else {
        balances := balances[to := Account(amount, 0)];
      }
    }

    /** Validates and applies one transaction; false where the source panics. */
    method ApplyTransaction(txId: Id) returns (ok: bool)
      modifies this`balances, this`state, this`appliedTxIds
      ensures ok == ApplyTx(old(Bank()), txId).Ok?
      ensures ok ==> ApplyTx(old(Bank()), txId) == Ok(Bank())
    {
      if txId !in txs { return false; }
      match txs[txId] {
        case Coinbase(tx) =>
          CreditAccount(tx.to, BLOCK_REWARD);
          state := state + [TxRecord(txs[txId])];
        case Credit(tx) =>
          if tx.id in appliedTxIds { return true; }
          if tx.from !in balances { return false; }
          var sender := balances[tx.from];
          if sender.balance < tx.amount { return true; }
          if sender.nonce >= tx.nonce { return true; }
          balances := balances[tx.from := sender.(balance := sender.balance - tx.amount)];
          CreditAccount(tx.to, tx.amount);
          state := state + [TxRecord(txs[txId])];
      }
      appliedTxIds := appliedTxIds + {txId};
      ok := true;
    }

    method ApplyTransactions(refs: seq<Id>) returns (ok: bool)
      modifies this`balances, this`state, this`appliedTxIds
      ensures ok == ApplyRefs(old(Bank()), refs).Ok?
      ensures ok ==> ApplyRefs(old(Bank()), refs) == Ok(Bank())
    {
      for i := 0 to |refs|
        invariant ApplyRefs(old(Bank()), refs) == ApplyRefs(Bank(), refs[i..])
      {
        assert refs[i..][0] == refs[i] && refs[i..][1..] == refs[i + 1..];
        var done := ApplyTransaction(refs[i]);
        if !done { return false; }
      }
      assert refs[|refs|..] == [];
      ok := true;
    }

    method ApplyBlocks(proofIds: seq<Id>) returns (ok: bool)
      modifies this`balances, this`state, this`appliedTxIds, this`appliedTxBlockIds
      ensures ok == ApplyTxBlocks(old(Bank()), metablocks.View(), proofIds).Ok?
      ensures ok ==> ApplyTxBlocks(old(Bank()), metablocks.View(), proofIds) == Ok(Bank())
    {
      for i := 0 to |proofIds|
        invariant ApplyTxBlocks(old(Bank()), metablocks.View(), proofIds)
               == ApplyTxBlocks(Bank(), metablocks.View(), proofIds[i..])
      {
        assert proofIds[i..][0] == proofIds[i] && proofIds[i..][1..] == proofIds[i + 1..];
        if proofIds[i] !in metablocks.blocks { return false; }
        var txBlock := metablocks.blocks[proofIds[i]].block;
        var done := ApplyTransactions(txBlock.refs);
        if !done { return false; }
        state := state + [ProofRecord(txBlock.proofId), ContentRecord(txBlock.contentId)];
        appliedTxBlockIds := appliedTxBlockIds + {txBlock.contentId};
      }
      assert proofIds[|proofIds|..] == [];
      ok := true;
    }

    /** Pays the proposer and logs its block. */
    method ApplyProposerBlock(b: Block) returns (ok: bool)
      modifies this`balances, this`state, this`appliedTxIds
      ensures ok == ApplyProposer(old(Bank()), b).Ok?
      ensures ok ==> ApplyProposer(old(Bank()), b) == Ok(Bank())
    {
      if b.refs == [] || b.refs[0] !in txs { return false; }
      match txs[b.refs[0]] {
        case Coinbase(tx) =>
          CreditAccount(tx.to, BLOCK_REWARD);
          appliedTxIds := appliedTxIds + {tx.id};
          state := state + [TxRecord(txs[b.refs[0]])];
        case Credit(_) =>
      }
      state := state + [ProofRecord(b.proofId), ContentRecord(b.contentId)];
      ok := true;
    }

    /** Marks a block confirmed and prunes its siblings; false where the source panics. */
    method ConfirmAndPrune(mb: MetaBlock) returns (ok: bool)
      modifies this`proofIdsByTimeslot, this`heads, this`confirmedBlocks, metablocks
      ensures ok == ConfirmOnChain(old(Chain()), mb).Ok?
      ensures ok ==> ConfirmOnChain(old(Chain()), mb) == Ok(Chain())
    {
      confirmedBlocks := confirmedBlocks + {mb.block.proofId};
      if mb.height == 0 { return true; }
      if mb.block.parent.None? { return false; }
      var parent := metablocks.View().Lookup(mb.block.parent.value);
      if parent.None? { return false; }
      ok := PruneBlocksRecursive(Keep(parent.value.children, Self, {mb.block.proofId}));
    }

    /** Applies the transactions of a k-deep block and prunes its siblings; says whether it was confirmed. */
    method ConfirmBlock(mb: MetaBlock) returns (r: Outcome<bool>)
      modifies this, metablocks
      ensures r.Ok? <==> Runs.Confirm(old(View()), mb).Ok?
      ensures r.Ok? ==> Runs.Confirm(old(View()), mb) == Ok((r.value, View()))
    {
      if mb.block.proofId in confirmedBlocks { return Ok(false); }
      var available := HasAllTransactions(mb.block.refs);
      if !available { return Ok(false); }
      var order := OrderTxBlocks(if mb.block.refs == [] then [] else mb.block.refs[1..]);
      if order.Panic? { return Panic; }
      var applied := ApplyBlocks(order.value);
      if !applied { return Panic; }
      var paid := ApplyProposerBlock(mb.block);
      if !paid { return Panic; }
      assert ApplyConfirmed(old(Bank()), metablocks.View(), mb.block) == Ok(Bank());
      var pruned := ConfirmAndPrune(mb);
      r := if pruned then Ok(true) else Panic;
    }

    /** Stages a valid proposer block and confirms its k-deep ancestor; false where the source panics. */
    method StageProposerBlock(b: Block) returns (ok: bool)
      modifies this, metablocks
      ensures ok == Runs.StageProposer(old(View()), b).Ok?
      ensures ok ==> Runs.StageProposer(old(View()), b) == Ok(View())
    {
      if b.parent.None? { return false; }
      var parentContentId := b.parent.value;
      var saved := metablocks.Save(b);
      if saved.Panic? { return false; }
      AddBlockToTimeslot(b.timeslot, b.proofId);
      txs := txs[b.coinbase.id := Coinbase(b.coinbase)];
      UpdateHeads(parentContentId, b.contentId, saved.value.height);
      ghost var staged := View();
      assert staged == Runs.State(Attach(old(Chain()), b).value.0, Runs.AddCoinbase(old(Bank()), b));
      var confirmationDepth := 0;
      while true
        invariant confirmationDepth < ForkChoice.CONFIRMATION_DEPTH && View() == staged
        invariant KDeep(staged.chain.store, b.parent.value, ForkChoice.CONFIRMATION_DEPTH)
               == KDeep(staged.chain.store, parentContentId, ForkChoice.CONFIRMATION_DEPTH - confirmationDepth)
        decreases ForkChoice.CONFIRMATION_DEPTH - confirmationDepth
      {
        var found := metablocks.View().Lookup(parentContentId);
        if found.None? { return true; }
        confirmationDepth := confirmationDepth + 1;
        if found.value.block.parent.None? { return false; }
        parentContentId := found.value.block.parent.value;
        if confirmationDepth == ForkChoice.CONFIRMATION_DEPTH {
          var confirmed := ConfirmBlock(found.value);
          return confirmed.Ok?;
        }
      }
    }

    /** Stages a valid tx block; false where the source panics. */
    method StageTxBlock(b: Block) returns (ok: bool)
      requires b.parent.None?
      modifies this, metablocks
      ensures ok == Runs.StageTx(old(View()), b).Ok?
      ensures ok ==> Runs.StageTx(old(View()), b) == Ok(View())
    {
      var saved := metablocks.Save(b);
      if saved.Panic? { return false; }
      AddBlockToTimeslot(b.timeslot, b.proofId);
      txs := txs[b.coinbase.id := Coinbase(b.coinbase)];
      ok := true;
    }
  }
}
