/** Applying the transactions of a confirmed proposer block to the account balances and the state log. */
module Transactions {
  import opened Basics
  import opened MetaBlocks

  const BLOCK_REWARD: u64 := 1

  datatype CreditTx = CreditTx(id: Id, amount: u64, from: Id, to: Id, nonce: nat)

  datatype Transaction = Coinbase(reward: CoinbaseTx) | Credit(credit: CreditTx) {
    function TxId(): (r: Id) {
      match this case Coinbase(t) => t.id case Credit(t) => t.id
    }
  }

  datatype Account = Account(balance: u64, nonce: nat)

  type Accounts = map<Id, Account>

  /** What the ledger appends to the state. */
  datatype Record = TxRecord(tx: Transaction) | ProofRecord(proofId: Id) | ContentRecord(contentId: Id)

  datatype Bank = Bank(txs: map<Id, Transaction>, accounts: Accounts, appliedTxs: set<Id>,
                       appliedBlocks: set<Id>, log: seq<Record>)

  // ----- single transactions

  /** Adds to a balance, wrapping as 64-bit addition does, or opens the account. */
  function Deposit(accounts: Accounts, to: Id, amount: u64): (r: Accounts) {
    if to in accounts
    then accounts[to := accounts[to].(balance := (accounts[to].balance + amount) % TWO_64)]
    else accounts[to := Account(amount, 0)]
  }

  function Withdraw(accounts: Accounts, from: Id, amount: u64): (r: Accounts)
    requires from in accounts && amount <= accounts[from].balance
  {
    accounts[from := accounts[from].(balance := accounts[from].balance - amount)]
  }

  predicate CanPay(accounts: Accounts, tx: CreditTx)
    requires tx.from in accounts
  {
    tx.amount <= accounts[tx.from].balance && accounts[tx.from].nonce < tx.nonce
  }

  /** Applies the transaction behind a reference; an applied or unpayable credit is skipped. */
  function ApplyTx(k: Bank, ref: Id): (r: Outcome<Bank>) {
    if ref !in k.txs then Panic
    else
      match k.txs[ref]
      case Coinbase(tx) =>
        Ok(k.(accounts := Deposit(k.accounts, tx.to, BLOCK_REWARD), log := k.log + [TxRecord(k.txs[ref])],
              appliedTxs := k.appliedTxs + {ref}))
      case Credit(tx) =>
        if tx.id in k.appliedTxs then Ok(k)
        else if tx.from !in k.accounts then Panic
        else if !CanPay(k.accounts, tx) then Ok(k)
        else
          Ok(k.(accounts := Deposit(Withdraw(k.accounts, tx.from, tx.amount), tx.to, tx.amount),
                log := k.log + [TxRecord(k.txs[ref])], appliedTxs := k.appliedTxs + {ref}))
  }

  function ApplyRefs(k: Bank, refs: seq<Id>): (r: Outcome<Bank>)
    decreases |refs|
  {
    if refs == [] then Ok(k)
    else match ApplyTx(k, refs[0]) case Panic => Panic case Ok(n) => ApplyRefs(n, refs[1..])
  }

  /** Applies a tx block: its transactions, then its proof and content go to the state log. */
  function ApplyTxBlock(k: Bank, b: Block): (r: Outcome<Bank>) {
    match ApplyRefs(k, b.refs)
    case Panic => Panic
    case Ok(n) => Ok(n.(log := n.log + [ProofRecord(b.proofId), ContentRecord(b.contentId)],
                        appliedBlocks := n.appliedBlocks + {b.contentId}))
  }

  function ApplyTxBlocks(k: Bank, m: Store, ids: seq<Id>): (r: Outcome<Bank>)
    decreases |ids|
  {
    if ids == [] then Ok(k)
    else if ids[0] !in m.blocks then Panic
    else
      match ApplyTxBlock(k, m.blocks[ids[0]].block)
      case Panic => Panic
      case Ok(n) => ApplyTxBlocks(n, m, ids[1..])
  }

  // ----- the check phase

  /** The first reference is a known coinbase, the others are known credits. */
  predicate RefsKnown(k: Bank, refs: seq<Id>) {
    forall i :: 0 <= i < |refs| ==> refs[i] in k.txs && (k.txs[refs[i]].Coinbase? <==> i == 0)
  }

  predicate TxBlockReady(k: Bank, m: Store, content: Id) {
    content in k.appliedBlocks || (m.Lookup(content).Some? && RefsKnown(k, m.Lookup(content).value.block.refs))
  }

  /** All transactions of a proposer block are at hand. */
  predicate Available(k: Bank, m: Store, refs: seq<Id>) {
    && (|refs| > 0 ==> refs[0] in k.txs && k.txs[refs[0]].Coinbase?)
    && forall i :: 1 <= i < |refs| ==> TxBlockReady(k, m, refs[i])
  }

  // ----- the canonical order: timeslot, then proof id

  /** A map ordered by timeslot, each entry a sorted list of proof ids. */
  type Groups = seq<(nat, seq<Id>)>

  function InsertSorted(s: seq<Id>, p: Id): (r: seq<Id>) {
    if s == [] || p <= s[0] then [p] + s else [s[0]] + InsertSorted(s[1..], p)
  }

  function File(g: Groups, t: nat, p: Id): (r: Groups) {
    if g == [] || t < g[0].0 then [(t, [p])] + g
    else if t == g[0].0 then [(t, InsertSorted(g[0].1, p))] + g[1..]
    else [g[0]] + File(g[1..], t, p)
  }

  /** Groups the tx blocks that are not applied yet. */
  function GroupRefs(g: Groups, applied: set<Id>, m: Store, refs: seq<Id>): (r: Outcome<Groups>)
    decreases |refs|
  {
    if refs == [] then Ok(g)
    else if refs[0] in applied then GroupRefs(g, applied, m, refs[1..])
    else
      match m.Lookup(refs[0])
      case None => Panic
      case Some(mb) => GroupRefs(File(g, mb.block.timeslot, mb.block.proofId), applied, m, refs[1..])
  }

  function Flatten(g: Groups): (r: seq<Id>) {
    if g == [] then [] else g[0].1 + Flatten(g[1..])
  }

  // ----- confirming a proposer block

  function ApplyProposer(k: Bank, b: Block): (r: Outcome<Bank>) {
    if b.refs == [] || b.refs[0] !in k.txs then Panic
    else
      var n := match k.txs[b.refs[0]]
               case Coinbase(tx) =>
                 k.(accounts := Deposit(k.accounts, tx.to, BLOCK_REWARD),
                    appliedTxs := k.appliedTxs + {tx.id}, log := k.log + [TxRecord(k.txs[b.refs[0]])])
               case Credit(_) => k;
      Ok(n.(log := n.log + [ProofRecord(b.proofId), ContentRecord(b.contentId)]))
  }

  /** Applies the referenced tx blocks in canonical order, then the proposer block itself. */
  function ApplyConfirmed(k: Bank, m: Store, b: Block): (r: Outcome<Bank>) {
    match GroupRefs([], k.appliedBlocks, m, if b.refs == [] then [] else b.refs[1..])
    case Panic => Panic
    case Ok(g) =>
      match ApplyTxBlocks(k, m, Flatten(g))
      case Panic => Panic
      case Ok(n) => ApplyProposer(n, b)
  }
}
