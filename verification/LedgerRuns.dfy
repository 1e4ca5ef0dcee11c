/** The ledger as a state machine: every step it takes, and what holds in every run. */
module LedgerRuns {
  import opened Basics
  import opened MetaBlocks
  import opened ForkChoice
  import opened Staging
  import opened Confirmation
  import opened Finality
  import opened Transactions
  import opened Supply
  import opened CanonicalOrder
  import opened Effects

  datatype State = State(chain: Chain, bank: Bank)

  const GENESIS := State(EMPTY_CHAIN, Bank(map[], map[], {}, {}, []))

  // ----- the steps

  /** Confirms a k-deep block unless it is confirmed already or misses transactions. */
  function Confirm(l: State, mb: MetaBlock): (r: Outcome<(bool, State)>) {
    if mb.block.proofId in l.chain.confirmed || !Available(l.bank, l.chain.store, mb.block.refs) then Ok((false, l))
    else
      match ApplyConfirmed(l.bank, l.chain.store, mb.block)
      case Panic => Panic
      case Ok(bank) =>
        match ConfirmOnChain(l.chain, mb)
        case Panic => Panic
        case Ok(chain) => Ok((true, State(chain, bank)))
  }

  function AddCoinbase(k: Bank, b: Block): (n: Bank) {
    k.(txs := k.txs[b.coinbase.id := Coinbase(b.coinbase)])
  }

  function StageProposer(l: State, b: Block): (r: Outcome<State>) {
    if b.parent.None? then Panic else
    match Attach(l.chain, b)
    case Panic => Panic
    case Ok((chain, _)) =>
      var d := State(chain, AddCoinbase(l.bank, b));
      match KDeep(chain.store, b.parent.value, CONFIRMATION_DEPTH)
      case Panic => Panic
      case Ok(None) => Ok(d)
      case Ok(Some(deep)) => match Confirm(d, deep) case Panic => Panic case Ok((_, e)) => Ok(e)
  }

  function StageTx(l: State, b: Block): (r: Outcome<State>) {
    match Attach(l.chain, b)
    case Panic => Panic
    case Ok((chain, _)) => Ok(State(chain, AddCoinbase(l.bank, b)))
  }

  /** A gossiped credit enters the pool when it is new, signed and its sender can pay it. */
  function ReceiveCredit(l: State, tx: CreditTx, signed: bool): (r: State) {
    if tx.id !in l.bank.txs && tx.from in l.bank.accounts && CanPay(l.bank.accounts, tx) && signed
    then l.(bank := l.bank.(txs := l.bank.txs[tx.id := Credit(tx)]))
    else l
  }

  /** While the node syncs, a new credit enters the pool unchecked. */
  function ReceiveUnchecked(l: State, tx: CreditTx): (r: State) {
    if tx.id in l.bank.txs then l else l.(bank := l.bank.(txs := l.bank.txs[tx.id := Credit(tx)]))
  }

  datatype Event =
    | ProposerBlock(block: Block)
    | TxBlock(block: Block)
    | CreditProposal(tx: CreditTx, signed: bool)
    | SyncedCredit(tx: CreditTx)

  function Step(l: State, e: Event): (r: Outcome<State>) {
    match e
    case ProposerBlock(b) => StageProposer(l, b)
    case TxBlock(b) => if b.parent.Some? then Panic else StageTx(l, b)
    case CreditProposal(tx, signed) => Ok(ReceiveCredit(l, tx, signed))
    case SyncedCredit(tx) => Ok(ReceiveUnchecked(l, tx))
  }

  /** The states of a run: any events at all, as long as no step panics. */
  ghost predicate Run(states: seq<State>, events: seq<Event>) {
    && |states| == |events| + 1 && states[0] == GENESIS
    && forall i :: 0 <= i < |events| ==> Step(states[i], events[i]) == Ok(states[i + 1])
  }

  // ----- accounting holds in every run

  lemma AddTxSound(k: Bank, id: Id, tx: Transaction)
    requires Sound(k) && tx.TxId() == id
    ensures Sound(k.(txs := k.txs[id := tx]))
  {
  }

  ghost predicate BankGrows(k: Bank, n: Bank) {
    && k.log <= n.log && k.appliedTxs <= n.appliedTxs && k.appliedBlocks <= n.appliedBlocks
    && k.accounts.Keys <= n.accounts.Keys
  }

  lemma StepKeepsSound(l: State, e: Event)
    requires Sound(l.bank) && Step(l, e).Ok?
    ensures Sound(Step(l, e).value.bank) && BankGrows(l.bank, Step(l, e).value.bank)
  {
    hide Sound, Attach, ApplyConfirmed, ConfirmOnChain, KDeep, Available;
    match e
    case ProposerBlock(b) =>
      AddTxSound(l.bank, b.coinbase.id, Coinbase(b.coinbase));
      var d := State(Attach(l.chain, b).value.0, AddCoinbase(l.bank, b));
      match KDeep(d.chain.store, b.parent.value, CONFIRMATION_DEPTH) {
        case Ok(Some(deep)) =>
          if ApplyConfirmed(d.bank, d.chain.store, deep.block).Ok? {
            ApplyConfirmedSound(d.bank, d.chain.store, deep.block);
          }
        case _ =>
      }
    case TxBlock(b) => AddTxSound(l.bank, b.coinbase.id, Coinbase(b.coinbase));
    case CreditProposal(tx, signed) => AddTxSound(l.bank, tx.id, Credit(tx));
    case SyncedCredit(tx) => AddTxSound(l.bank, tx.id, Credit(tx));
  }

  lemma {:induction false} RunIsSound(states: seq<State>, events: seq<Event>, i: nat)
    requires Run(states, events) && i < |states|
    ensures Sound(states[i].bank)
  {
    hide Step;
    if i > 0 {
      RunIsSound(states, events, i - 1);
      StepKeepsSound(states[i - 1], events[i - 1]);
    }
  }

  /** In every run the balances sum to the rewards paid and no balance wraps, while the supply fits 64 bits;
      and no credit has moved funds twice. */
  lemma RunConservesSupply(states: seq<State>, events: seq<Event>, i: nat)
    requires Run(states, events) && i < |states| && Minted(states[i].bank.log) < TWO_64
    ensures Total(Balances(states[i].bank.accounts)) == Minted(states[i].bank.log)
    ensures Matches(states[i].bank.accounts, ExactReplay(states[i].bank.log))
    ensures CreditsOnce(states[i].bank)
  {
    RunIsSound(states, events, i);
    hide Run;
    SupplyIsMinted(states[i].bank);
    ReplayIsExact(states[i].bank.log);
  }

  /** In every run all nonces are 0, so a known credit moves funds exactly when it is new, covered and above nonce 0. */
  lemma RunCreditMovesIff(states: seq<State>, events: seq<Event>, i: nat, ref: Id)
    requires Run(states, events) && i < |states|
    ensures forall a :: a in states[i].bank.accounts ==> states[i].bank.accounts[a].nonce == 0
    ensures
      var k := states[i].bank;
      ref in k.txs && k.txs[ref].Credit? && k.txs[ref].credit.from in k.accounts ==>
        var tx := k.txs[ref].credit;
        && ApplyTx(k, ref).Ok?
        && (ApplyTx(k, ref).value != k <==>
              ref !in k.appliedTxs && tx.amount <= k.accounts[tx.from].balance && tx.nonce > 0)
  {
    RunIsSound(states, events, i);
    hide Run;
    var k := states[i].bank;
    NonceNeverAdvances(k.log);
    if ref in k.txs && k.txs[ref].Credit? && k.txs[ref].credit.from in k.accounts {
      CreditMovesFundsIff(k, ref);
    }
  }

  /**
   * Confirming is all or nothing.  Refused, because confirmed already or missing
   * transactions, it changes nothing.  Done, it adds exactly this block to the
   * confirmed set and the referenced tx blocks to the applied ones, the accounts are the
   * old ones with the added records applied, and the added records are all those of the
   * tx blocks still to be applied and of the block itself, except for the credits that
   * were applied before or that their sender could not pay at their turn.
   */
  lemma ConfirmIsAtomic(l: State, mb: MetaBlock)
    requires l.chain.store.Linked() && mb.block.refs != [] && Confirm(l, mb).Ok?
    ensures var (done, n) := Confirm(l, mb).value;
            done <==> mb.block.proofId !in l.chain.confirmed && Available(l.bank, l.chain.store, mb.block.refs)
    ensures var (done, n) := Confirm(l, mb).value; !done ==> n == l
    ensures var (done, n) := Confirm(l, mb).value;
            done ==>
              && n.chain.confirmed == l.chain.confirmed + {mb.block.proofId}
              && n.bank.appliedBlocks == l.bank.appliedBlocks + (set c | c in mb.block.refs[1..])
              && Follows(l.bank, n.bank) && LogsConfirmed(l.bank, n.bank, l.chain.store, mb.block)
  {
    hide ApplyConfirmed, PruneBlocks, Keep, Follows, LogsConfirmed;
    if Confirm(l, mb).value.0 {
      ConfirmSucceedsIff(l.bank, l.chain.store, mb.block);
      ConfirmAppliesAll(l.bank, l.chain.store, mb.block);
      ConfirmedGrows(l.chain, mb);
    }
  }

  lemma {:induction false} PruneKeepsConfirmed(c: Chain, ids: seq<Id>)
    ensures PruneBlocks(c, ids).Ok? ==> PruneBlocks(c, ids).value.confirmed == c.confirmed
    decreases |c.store.blocks|, |ids|
  {
    if ids != [] && PruneBlock(c, ids[0]).Ok? {
      var d := PruneBlock(c, ids[0]).value;
      var (store, mb) := Removed(c.store, ids[0]).value;
      assert store.blocks.Keys == c.store.blocks.Keys - {ids[0]};
      assert |store.blocks| == |store.blocks.Keys| && |c.store.blocks| == |c.store.blocks.Keys|;
      var slots := DropFromSlot(c.slots, mb.block.timeslot, ids[0]).value;
      PruneKeepsConfirmed(c.(store := store, slots := slots), mb.children);
      PruneKeepsConfirmed(d, ids[1..]);
    }
  }

  lemma ConfirmedGrows(c: Chain, mb: MetaBlock)
    requires ConfirmOnChain(c, mb).Ok?
    ensures ConfirmOnChain(c, mb).value.confirmed == c.confirmed + {mb.block.proofId}
  {
    hide PruneBlocks, Keep;
    var d := c.(confirmed := c.confirmed + {mb.block.proofId});
    if mb.height != 0 {
      PruneKeepsConfirmed(d, Keep(c.store.Lookup(mb.block.parent.value).value.children, Self, {mb.block.proofId}));
    }
  }

  // ----- guarded runs

  /** The k-deep ancestor that staging `b` reaches is confirmed already or finds its transactions. */
  ghost predicate FindsTransactions(l: State, b: Block) {
    b.parent.Some? && Attach(l.chain, b).Ok? ==>
      var chain := Attach(l.chain, b).value.0;
      match KDeep(chain.store, b.parent.value, CONFIRMATION_DEPTH)
      case Ok(Some(deep)) =>
        || deep.block.proofId in chain.confirmed
        || (deep.block.refs != [] && Available(AddCoinbase(l.bank, b), chain.store, deep.block.refs))
      case _ => true
  }

  /** Fresh ids, a parent the guard admits, no confirmation that misses transactions, and senders with accounts. */
  ghost predicate Admissible(l: State, e: Event) {
    match e
    case ProposerBlock(b) => Fresh(l.chain, b) && Guarded(l.chain, b) && FindsTransactions(l, b)
    case TxBlock(b) => Fresh(l.chain, b) && b.parent.None?
    case CreditProposal(_, _) => true
    case SyncedCredit(tx) => tx.id in l.bank.txs || tx.from in l.bank.accounts
  }

  ghost predicate Good(l: State) {
    Inv(l.chain) && Sound(l.bank) && SendersKnown(l.bank)
  }

  lemma StageProposerIsGood(l: State, b: Block)
    requires Good(l) && Fresh(l.chain, b) && Guarded(l.chain, b) && FindsTransactions(l, b)
    ensures StageProposer(l, b).Ok? && SendersKnown(StageProposer(l, b).value.bank)
    ensures StageOnChain(l.chain, b, true) == Ok(StageProposer(l, b).value.chain)
  {
    hide Inv, Sound, Fresh, Guarded, Attach, ApplyConfirmed, ConfirmOnChain, KDeep, Available, Staged, Settles;
    StageKeepsInv(l.chain, b);
    AttachStaged(l.chain, b);
    var chain := Attach(l.chain, b).value.0;
    StagedTree(chain, b.proofId);
    match KDeep(chain.store, b.parent.value, CONFIRMATION_DEPTH)
    case Ok(Some(deep)) =>
      if deep.block.proofId !in chain.confirmed {
        ConfirmSucceedsIff(AddCoinbase(l.bank, b), chain.store, deep.block);
      }
    case _ =>
  }

  /** An admissible step never panics, keeps every invariant and unsettles nothing confirmed. */
  lemma StepIsGood(l: State, e: Event)
    requires Good(l) && Admissible(l, e)
    ensures Step(l, e).Ok? && Good(Step(l, e).value) && Settles(l.chain, Step(l, e).value.chain)
  {
    hide Inv, Sound, Fresh, Guarded, Attach, StageOnChain, StageProposer, FindsTransactions;
    match e
    case ProposerBlock(b) =>
      StageProposerIsGood(l, b);
      StageKeepsInv(l.chain, b);
      StepKeepsSound(l, e);
    case TxBlock(b) =>
      TxBlockKeepsInv(l.chain, b);
      StepKeepsSound(l, e);
    case CreditProposal(tx, signed) =>
      StepKeepsSound(l, e);
      ConfirmedStored(l.chain);
    case SyncedCredit(tx) =>
      StepKeepsSound(l, e);
      ConfirmedStored(l.chain);
  }

  ghost predicate GuardedRun(states: seq<State>, events: seq<Event>) {
    Run(states, events) && forall i :: 0 <= i < |events| ==> Admissible(states[i], events[i])
  }

  lemma {:induction false} GuardedRunIsGood(states: seq<State>, events: seq<Event>, i: nat)
    requires GuardedRun(states, events) && i < |states|
    ensures Good(states[i])
  {
    hide Good, Step, Admissible;
    if i == 0 { GenesisIsGood(); } else {
      GuardedRunIsGood(states, events, i - 1);
      StepIsGood(states[i - 1], events[i - 1]);
    }
  }

  lemma GenesisIsGood()
    ensures Good(GENESIS)
  {
    EmptyInv();
  }

  /** Finality: a block confirmed at any time of a guarded run stays confirmed, stored and unchanged. */
  lemma {:induction false} GuardedRunIsFinal(states: seq<State>, events: seq<Event>, i: nat, j: nat)
    requires GuardedRun(states, events) && i <= j < |states|
    ensures Settles(states[i].chain, states[j].chain)
    decreases j
  {
    hide Inv, Step, Admissible, Sound, Settles;
    if i < j {
      GuardedRunIsFinal(states, events, i, j - 1);
      GuardedRunIsGood(states, events, j - 1);
      StepIsGood(states[j - 1], events[j - 1]);
      SettlesTrans(states[i].chain, states[j - 1].chain, states[j].chain);
    } else {
      GuardedRunIsGood(states, events, i);
      SettlesSelf(states[i].chain);
    }
  }

  lemma SettlesSelf(c: Chain)
    requires Inv(c)
    ensures Settles(c, c)
  {
    hide Inv;
    ConfirmedStored(c);
  }
}
