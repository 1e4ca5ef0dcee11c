/** Conservation of credits: the balances are the replay of the state log, and the log conserves the supply. */
module Supply {
  import opened Basics
  import opened MetaBlocks
  import opened Transactions

  // ----- the balances are what the state log says

  function ReplayRecord(accounts: Accounts, r: Record): (n: Accounts) {
    match r
    case TxRecord(Coinbase(tx)) => Deposit(accounts, tx.to, BLOCK_REWARD)
    case TxRecord(Credit(tx)) =>
      if tx.from in accounts && tx.amount <= accounts[tx.from].balance
      then Deposit(Withdraw(accounts, tx.from, tx.amount), tx.to, tx.amount) else accounts
    case _ => accounts
  }

  /** The balances recomputed from the log alone. */
  function Replay(log: seq<Record>): (r: Accounts) {
    if log == [] then map[] else ReplayRecord(Replay(log[..|log| - 1]), log[|log| - 1])
  }

  predicate Payable(accounts: Accounts, r: Record) {
    match r
    case TxRecord(Credit(tx)) => tx.from in accounts && tx.amount <= accounts[tx.from].balance
    case _ => true
  }

  /** Every logged credit was covered by its sender when it was logged. */
  ghost predicate Covered(log: seq<Record>) {
    forall i :: 0 <= i < |log| ==> Payable(Replay(log[..i]), log[i])
  }

  predicate IsCredit(r: Record) {
    r.TxRecord? && r.tx.Credit?
  }

  /** No credit is logged twice, and every logged credit is marked applied. */
  ghost predicate CreditsOnce(k: Bank) {
    && (forall i :: 0 <= i < |k.log| && IsCredit(k.log[i]) ==> k.log[i].tx.TxId() in k.appliedTxs)
    && (forall i, j :: 0 <= i < j < |k.log| && IsCredit(k.log[i]) && IsCredit(k.log[j]) ==>
          k.log[i].tx.TxId() != k.log[j].tx.TxId())
  }

  /** Transactions are stored under their own ids. */
  ghost predicate Keyed(k: Bank) {
    forall i :: i in k.txs ==> k.txs[i].TxId() == i
  }

  ghost predicate Sound(k: Bank) {
    Keyed(k) && k.accounts == Replay(k.log) && Covered(k.log) && CreditsOnce(k)
  }

  /** `n` comes from `k` by logging more: nothing is unapplied and the transactions stay. */
  ghost predicate Extends(k: Bank, n: Bank) {
    && n.txs == k.txs && k.log <= n.log && k.appliedTxs <= n.appliedTxs && k.appliedBlocks <= n.appliedBlocks
    && k.accounts.Keys <= n.accounts.Keys
  }

  lemma CoveredOne(log: seq<Record>, r: Record)
    requires Covered(log) && Payable(Replay(log), r)
    ensures Covered(log + [r]) && Replay(log + [r]) == ReplayRecord(Replay(log), r)
  {
    hide Replay, ReplayRecord, Payable;
    var more := log + [r];
    assert more[..|log|] == log;
    forall i | 0 <= i < |more| ensures Payable(Replay(more[..i]), more[i]) {
      if i < |log| {
        assert more[..i] == log[..i] && more[i] == log[i];
      }
    }
    ReplayOne(log, r);
  }

  lemma ReplayOne(log: seq<Record>, r: Record)
    ensures Replay(log + [r]) == ReplayRecord(Replay(log), r)
  {
    hide ReplayRecord;
    assert (log + [r])[..|log|] == log;
  }

  /** One more record, with balances that follow it, keeps a bank sound. */
  lemma LogOne(k: Bank, r: Record, n: Bank)
    requires Sound(k) && n.txs == k.txs && n.log == k.log + [r] && k.appliedTxs <= n.appliedTxs
    requires n.accounts == ReplayRecord(k.accounts, r) && Payable(k.accounts, r)
    requires IsCredit(r) ==> r.tx.TxId() !in k.appliedTxs && r.tx.TxId() in n.appliedTxs
    ensures Sound(n)
  {
    hide Replay, ReplayRecord, Payable, Covered;
    CoveredOne(k.log, r);
    assert forall i :: 0 <= i < |k.log| ==> n.log[i] == k.log[i];
  }

  lemma ApplyTxSound(k: Bank, ref: Id)
    requires Sound(k) && ApplyTx(k, ref).Ok?
    ensures Sound(ApplyTx(k, ref).value) && Extends(k, ApplyTx(k, ref).value)
  {
    hide Sound, Replay;
    var n := ApplyTx(k, ref).value;
    SoundIsKeyed(k);
    if n != k {
      LogOne(k, TxRecord(k.txs[ref]), n);
    }
  }

  lemma SoundIsKeyed(k: Bank)
    requires Sound(k)
    ensures Keyed(k)
  {
  }

  lemma {:induction false} ApplyRefsSound(k: Bank, refs: seq<Id>)
    requires Sound(k) && ApplyRefs(k, refs).Ok?
    ensures Sound(ApplyRefs(k, refs).value) && Extends(k, ApplyRefs(k, refs).value)
    decreases |refs|
  {
    hide Sound, ApplyTx;
    if refs != [] {
      ApplyTxSound(k, refs[0]);
      ApplyRefsSound(ApplyTx(k, refs[0]).value, refs[1..]);
    }
  }

  /** Records of a block's proof and content touch no balance. */
  lemma LogBlock(k: Bank, b: Block, n: Bank)
    requires Sound(k)
    requires n == k.(log := k.log + [ProofRecord(b.proofId), ContentRecord(b.contentId)],
                     appliedBlocks := n.appliedBlocks)
    ensures Sound(n)
  {
    hide Sound;
    var h := k.(log := k.log + [ProofRecord(b.proofId)]);
    LogOne(k, ProofRecord(b.proofId), h);
    assert n.log == h.log + [ContentRecord(b.contentId)];
    LogOne(h, ContentRecord(b.contentId), n);
  }

  lemma {:induction false} ApplyTxBlocksSound(k: Bank, m: Store, ids: seq<Id>)
    requires Sound(k) && ApplyTxBlocks(k, m, ids).Ok?
    ensures Sound(ApplyTxBlocks(k, m, ids).value) && Extends(k, ApplyTxBlocks(k, m, ids).value)
    decreases |ids|
  {
    hide Sound, ApplyRefs;
    if ids != [] {
      var b := m.blocks[ids[0]].block;
      ApplyRefsSound(k, b.refs);
      LogBlock(ApplyRefs(k, b.refs).value, b, ApplyTxBlock(k, b).value);
      ApplyTxBlocksSound(ApplyTxBlock(k, b).value, m, ids[1..]);
    }
  }

  /** Confirming a proposer block keeps the balances equal to the replay of the log, every logged credit
      covered, and no credit logged twice. */
  lemma ApplyConfirmedSound(k: Bank, m: Store, b: Block)
    requires Sound(k) && ApplyConfirmed(k, m, b).Ok?
    ensures Sound(ApplyConfirmed(k, m, b).value) && Extends(k, ApplyConfirmed(k, m, b).value)
  {
    hide Sound, GroupRefs, ApplyTxBlocks;
    var g := GroupRefs([], k.appliedBlocks, m, if b.refs == [] then [] else b.refs[1..]).value;
    ApplyTxBlocksSound(k, m, Flatten(g));
    var n := ApplyTxBlocks(k, m, Flatten(g)).value;
    var r := ApplyProposer(n, b).value;
    match n.txs[b.refs[0]]
    case Coinbase(tx) =>
      var h := n.(accounts := Deposit(n.accounts, tx.to, BLOCK_REWARD), appliedTxs := n.appliedTxs + {tx.id},
                  log := n.log + [TxRecord(n.txs[b.refs[0]])]);
      LogOne(n, TxRecord(n.txs[b.refs[0]]), h);
      LogBlock(h, b, r);
    case Credit(_) => LogBlock(n, b, r);
  }

  // ----- unbounded balances

  type Exact = map<Id, int>

  function Add(e: Exact, id: Id, d: int): (r: Exact) {
    e[id := (if id in e then e[id] else 0) + d]
  }

  /** The meaning of a record in unbounded arithmetic: a coinbase mints, a credit moves. */
  function ExactRecord(e: Exact, r: Record): (n: Exact) {
    match r
    case TxRecord(Coinbase(tx)) => Add(e, tx.to, BLOCK_REWARD)
    case TxRecord(Credit(tx)) => Add(Add(e, tx.from, -(tx.amount as int)), tx.to, tx.amount)
    case _ => e
  }

  function ExactReplay(log: seq<Record>): (e: Exact) {
    if log == [] then map[] else ExactRecord(ExactReplay(log[..|log| - 1]), log[|log| - 1])
  }

  /** Coinbase rewards paid out in a log. */
  function Minted(log: seq<Record>): (r: nat) {
    if log == [] then 0
    else
      var last := log[|log| - 1];
      Minted(log[..|log| - 1]) + if last.TxRecord? && last.tx.Coinbase? then BLOCK_REWARD else 0
  }

  ghost function Total(e: Exact): (r: int)
    decreases |e|
  {
    if e == map[] then 0
    else
      var id :| id in e;
      assert (e - {id}).Keys == e.Keys - {id};
      e[id] + Total(e - {id})
  }

  lemma {:induction false} TotalPick(e: Exact, id: Id)
    requires id in e
    ensures Total(e) == e[id] + Total(e - {id})
    decreases |e|
  {
    var first :| first in e && Total(e) == e[first] + Total(e - {first});
    if first != id {
      assert (e - {first}).Keys == e.Keys - {first} && (e - {id}).Keys == e.Keys - {id};
      TotalPick(e - {first}, id);
      TotalPick(e - {id}, first);
      assert e - {first} - {id} == e - {id} - {first};
    }
  }

  lemma TotalAdd(e: Exact, id: Id, d: int)
    ensures Total(Add(e, id, d)) == Total(e) + d
  {
    var n := Add(e, id, d);
    TotalPick(n, id);
    if id in e {
      TotalPick(e, id);
      assert n - {id} == e - {id};
    } else {
      assert n - {id} == e;
    }
  }

  lemma {:induction false} TotalBounds(e: Exact, id: Id)
    requires id in e && forall i :: i in e ==> e[i] >= 0
    ensures e[id] <= Total(e)
  {
    TotalPick(e, id);
    TotalNonNegative(e - {id});
  }

  lemma {:induction false} TotalNonNegative(e: Exact)
    requires forall i :: i in e ==> e[i] >= 0
    ensures Total(e) >= 0
    decreases |e|
  {
    if e != map[] {
      var id :| id in e;
      assert (e - {id}).Keys == e.Keys - {id};
      TotalPick(e, id);
      TotalNonNegative(e - {id});
    }
  }

  /** In unbounded arithmetic every log holds exactly what was minted; self-transfers included. */
  lemma {:induction false} ExactConserves(log: seq<Record>)
    ensures Total(ExactReplay(log)) == Minted(log)
  {
    if log != [] {
      var e := ExactReplay(log[..|log| - 1]);
      ExactConserves(log[..|log| - 1]);
      match log[|log| - 1]
      case TxRecord(Coinbase(tx)) => TotalAdd(e, tx.to, BLOCK_REWARD);
      case TxRecord(Credit(tx)) =>
        TotalAdd(e, tx.from, -(tx.amount as int));
        TotalAdd(Add(e, tx.from, -(tx.amount as int)), tx.to, tx.amount);
      case _ =>
    }
  }

  /** The 64-bit balances equal the unbounded ones. */
  ghost predicate Matches(accounts: Accounts, e: Exact) {
    accounts.Keys == e.Keys && forall i :: i in e ==> accounts[i].balance == e[i]
  }

  lemma MatchesRecord(accounts: Accounts, e: Exact, r: Record)
    requires Matches(accounts, e) && Payable(accounts, r)
    requires Total(ExactRecord(e, r)) < TWO_64
    ensures Matches(ReplayRecord(accounts, r), ExactRecord(e, r))
  {
    hide Total;
    var n := ExactRecord(e, r);
    forall i | i in n ensures n[i] >= 0 && n[i] < TWO_64 {
      assert n[i] >= 0;
      TotalBounds(n, i);
    }
    match r
    case TxRecord(Coinbase(tx)) => MatchesDeposit(accounts, e, tx.to, BLOCK_REWARD);
    case TxRecord(Credit(tx)) =>
      MatchesWithdraw(accounts, e, tx.from, tx.amount);
      MatchesDeposit(Withdraw(accounts, tx.from, tx.amount), Add(e, tx.from, -(tx.amount as int)), tx.to, tx.amount);
    case _ =>
  }

  lemma MatchesDeposit(accounts: Accounts, e: Exact, to: Id, amount: u64)
    requires Matches(accounts, e) && Add(e, to, amount)[to] < TWO_64
    ensures Matches(Deposit(accounts, to, amount), Add(e, to, amount))
  {
  }

  lemma MatchesWithdraw(accounts: Accounts, e: Exact, from: Id, amount: u64)
    requires Matches(accounts, e) && from in accounts && amount <= accounts[from].balance
    ensures Matches(Withdraw(accounts, from, amount), Add(e, from, -(amount as int)))
  {
  }

  /** While the minted supply fits 64 bits no balance ever wraps. */
  lemma {:induction false} ReplayIsExact(log: seq<Record>)
    requires Covered(log) && Minted(log) < TWO_64
    ensures Matches(Replay(log), ExactReplay(log))
  {
    if log != [] {
      var prefix := log[..|log| - 1];
      assert forall i :: 0 <= i <= |prefix| ==> prefix[..i] == log[..i];
      assert Payable(Replay(prefix), log[|log| - 1]) by { assert log[..|log| - 1] == prefix; }
      ReplayIsExact(prefix);
      ExactConserves(log);
      MatchesRecord(Replay(prefix), ExactReplay(prefix), log[|log| - 1]);
    }
  }

  function Balances(accounts: Accounts): (e: Exact) {
    map i | i in accounts :: accounts[i].balance as int
  }

  /** Supply conservation: the balances sum to the rewards paid, whatever was transferred. */
  lemma SupplyIsMinted(k: Bank)
    requires Sound(k) && Minted(k.log) < TWO_64
    ensures Total(Balances(k.accounts)) == Minted(k.log)
    ensures forall i :: i in k.accounts ==> k.accounts[i].balance <= Minted(k.log)
  {
    var e := ExactReplay(k.log);
    ReplayIsExact(k.log);
    ExactConserves(k.log);
    assert e == Balances(k.accounts);
    forall i | i in k.accounts ensures k.accounts[i].balance <= Minted(k.log) { TotalBounds(e, i); }
  }

  /** The nonce of an account never leaves 0, so replay protection rests on the applied ids alone. */
  lemma {:induction false} NonceNeverAdvances(log: seq<Record>)
    ensures forall i :: i in Replay(log) ==> Replay(log)[i].nonce == 0
  {
    if log != [] { NonceNeverAdvances(log[..|log| - 1]); }
  }

  /**
   * A known credit moves funds exactly when it is new, covered and above the
   * sender's nonce: the amount leaves the sender and reaches the receiver, no other
   * account changes, and the credit is logged and marked.  Otherwise nothing happens.
   */
  lemma CreditMovesFundsIff(k: Bank, ref: Id)
    requires Keyed(k) && ref in k.txs && k.txs[ref].Credit? && k.txs[ref].credit.from in k.accounts
    ensures ApplyTx(k, ref).Ok?
    ensures
      var n, tx := ApplyTx(k, ref).value, k.txs[ref].credit;
      var from, to := tx.from, tx.to;
      if ref !in k.appliedTxs && tx.amount <= k.accounts[from].balance && k.accounts[from].nonce < tx.nonce then
        && n.accounts.Keys == k.accounts.Keys + {to}
        && (from != to ==> n.accounts[from].balance == k.accounts[from].balance - tx.amount)
        && (from == to ==> n.accounts[to] == k.accounts[to])
        && (from != to && to in k.accounts && k.accounts[to].balance + tx.amount < TWO_64 ==>
              n.accounts[to].balance == k.accounts[to].balance + tx.amount)
        && (to !in k.accounts ==> n.accounts[to].balance == tx.amount)
        && (forall i :: i in k.accounts && i != from && i != to ==> n.accounts[i] == k.accounts[i])
        && n.log == k.log + [TxRecord(k.txs[ref])] && n.appliedTxs == k.appliedTxs + {ref}
      else n == k
  {
    assert k.txs[ref].TxId() == ref;
  }
}
