/** The whole node: ledger, state log, epoch tracker and clocks, fed by gossip, farming and sync. */
module WholeNode {
  import opened Basics
  import opened MetaBlocks
  import opened Forks
  import opened ForkChoice
  import opened Staging
  import opened Finality
  import opened Transactions
  import opened Epochs
  import opened Tracker
  import opened StateLog
  import L = LedgerRuns
  import T = Timer

  const MAX_EARLY_TIMESLOTS: nat := 10

  /**
   * A block with what its proof claims.  `signed` stands for the presence of the
   * auxiliary data, the match of proof and content, both signatures and a valid coinbase;
   * `inRange` for the solution range; `proven` for the Merkle proof and the encoding.
   */
  datatype Proposal = Proposal(block: Block, epoch: nat, pieceIndex: nat, randomness: Randomness,
                               signed: bool, inRange: bool, proven: bool)

  datatype Node = Node(ledger: L.State, clock: T.Node, log: Log, recent: set<Id>, early: map<nat, seq<Proposal>>)

  datatype Event =
    | Gossip(proposal: Proposal)
    | Local(proposal: Proposal, siblings: set<Id>)
    | Synced(proposal: Proposal)
    | Credit(tx: CreditTx, signed: bool)
    | SyncedCredit(tx: CreditTx)
    | NextSyncSlot
    | StartTimer
    | Tick

  /** How records are turned into bytes. */
  type Encoding = Record -> Data

  // ----- the state log of the ledger

  function AddRecords(bytes: Encoding, log: Log, records: seq<Record>): (r: Log) {
    if records == [] then log
    else AddData(AddRecords(bytes, log, records[..|records| - 1]), bytes(records[|records| - 1]))
  }

  /** What a ledger step logged. */
  function NewRecords(before: L.State, after: L.State): (r: seq<Record>) {
    if |before.bank.log| <= |after.bank.log| then after.bank.log[|before.bank.log|..] else []
  }

  lemma {:induction false} AddRecordsOk(bytes: Encoding, log: Log, records: seq<Record>)
    requires LogOk(log)
    ensures LogOk(AddRecords(bytes, log, records)) && log.sent <= AddRecords(bytes, log, records).sent
  {
    hide LogOk, AddData;
    if records != [] {
      AddRecordsOk(bytes, log, records[..|records| - 1]);
      StateLog.AddKeepsOk(AddRecords(bytes, log, records[..|records| - 1]), bytes(records[|records| - 1]));
    }
  }

  lemma {:induction false} AddRecordsAppend(bytes: Encoding, log: Log, a: seq<Record>, b: seq<Record>)
    ensures AddRecords(bytes, log, a + b) == AddRecords(bytes, AddRecords(bytes, log, a), b)
  {
    hide AddData;
    if b == [] {
      assert a + b == a;
    } else {
      assert (a + b)[..|a + b| - 1] == a + b[..|b| - 1];
      AddRecordsAppend(bytes, log, a, b[..|b| - 1]);
    }
  }

  // ----- validation and staging

  /**
   * Validation looks up the challenge of the block's epoch, compares what the block
   * claims with it, and looks up the state block its piece belongs to.  A missing
   * epoch, a block without references and a missing state block are fatal.
   */
  function Validate(n: Node, p: Proposal): (r: Outcome<bool>) {
    match SlotChallenge(n.clock.tracker, p.epoch, p.block.timeslot)
    case Panic => Panic
    case Ok(challenge) =>
      if !p.signed then Ok(false)
      else if p.block.refs == [] then Panic
      else if p.block.coinbase.id != p.block.refs[0] then Ok(false)
      else if challenge.randomness != p.randomness then Ok(false)
      else if !p.inRange then Ok(false)
      else if BlockByHeight(n.log, p.pieceIndex / PIECES_PER_STATE_BLOCK).None? then Panic
      else Ok(p.proven)
  }

  /** The proof of the parent, under which the tracker files a proposer block. */
  function ParentProofId(m: Store, b: Block): (p: Id) {
    if HasParentBlock(b) && b.parent.value in m.proofOf then m.proofOf[b.parent.value] else GENESIS_CHALLENGE
  }

  function OnClock(n: Node, e: T.Event): (r: Outcome<Node>) {
    match T.Step(n.clock, e)
    case Panic => Panic
    case Ok(clock) => Ok(n.(clock := clock))
  }

  function LedgerEvent(b: Block): (e: L.Event) {
    if b.parent.Some? then L.ProposerBlock(b) else L.TxBlock(b)
  }

  /** Stages a block: the ledger takes it, the state log what is confirmed, and the tracker proposer blocks. */
  function Stage(bytes: Encoding, n: Node, p: Proposal): (r: Outcome<Node>) {
    match L.Step(n.ledger, LedgerEvent(p.block))
    case Panic => Panic
    case Ok(ledger) =>
      var m := n.(ledger := ledger, log := AddRecords(bytes, n.log, NewRecords(n.ledger, ledger)));
      if p.block.parent.None? then Ok(m)
      else OnClock(m, T.StageProof(p.epoch, ParentProofId(n.ledger.chain.store, p.block), p.block.proofId))
  }

  /** A gossiped block whose timeslot has come: first its parent is checked, then the block. */
  function Receive(bytes: Encoding, n: Node, p: Proposal): (r: Outcome<Node>) {
    match CheckParent(n.ledger.chain, p.block)
    case Aborted => Panic
    case Rejected => Ok(n)
    case Accepted =>
      match Validate(n, p)
      case Panic => Panic
      case Ok(valid) => if valid then Stage(bytes, n, p) else Ok(n)
  }

  /** A block that came early, when its timeslot comes: first the block is checked, then its parent. */
  function Arrive(bytes: Encoding, n: Node, p: Proposal): (r: Outcome<Node>) {
    match Validate(n, p)
    case Panic => Panic
    case Ok(valid) =>
      if !valid then Ok(n)
      else
        match CheckParent(n.ledger.chain, p.block)
        case Aborted => Panic
        case Rejected => Ok(n)
        case Accepted => Stage(bytes, n, p)
  }

  function ArriveAll(bytes: Encoding, n: Node, ps: seq<Proposal>): (r: Outcome<Node>)
    decreases |ps|
  {
    if ps == [] then Ok(n)
    else match Arrive(bytes, n, ps[0]) case Panic => Panic case Ok(m) => ArriveAll(bytes, m, ps[1..])
  }

  // ----- the steps

  /** The ledger's own timeslot, one behind the timer's next; started at slot 0 it has wrapped around. */
  function CurrentSlot(next: nat): (slot: nat) {
    if next == 0 then TWO_64 - 1 else next - 1
  }

  /** A block of a later timeslot is kept for it, unless the wrapped lower end of the window lies above it. */
  function Postpone(n: Node, p: Proposal, slot: nat): (r: Node) {
    var t := p.block.timeslot;
    if (slot - MAX_EARLY_TIMESLOTS) % TWO_64 > t then n
    else n.(early := n.early[t := (if t in n.early then n.early[t] else []) + [p]])
  }

  /** Known proofs are ignored; before the timer runs nothing is staged from gossip. */
  function OnGossip(bytes: Encoding, n: Node, p: Proposal): (r: Outcome<Node>) {
    if p.block.proofId in n.recent then Ok(n)
    else
      var m := n.(recent := n.recent + {p.block.proofId});
      if m.clock.clock.Syncing? then Ok(m)
      else
        var slot := CurrentSlot(m.clock.clock.next);
        if slot < p.block.timeslot then Ok(Postpone(m, p, slot)) else Receive(bytes, m, p)
  }

  /** The checks of sync that come before the block itself is validated. */
  predicate ValidatedInSync(n: Node, p: Proposal) {
    && n.clock.clock.Syncing? && p.block.timeslot == n.clock.clock.timeslot && p.block.proofId !in n.recent
    && CheckParent(n.ledger.chain, p.block) == Accepted
  }

  /** During sync a block is validated, which may be fatal, and staged whatever the outcome. */
  function OnSynced(bytes: Encoding, n: Node, p: Proposal): (r: Outcome<Node>) {
    if n.clock.clock.Ticking? then Ok(n)
    else if ValidatedInSync(n, p) && Validate(n, p).Panic? then Panic
    else
      var seen := if p.block.timeslot == n.clock.clock.timeslot then {p.block.proofId} else {};
      Stage(bytes, n.(recent := n.recent + seen), p)
  }

  /** A timer round: the early blocks of the slot, then the epoch boundary and the challenge. */
  function OnTick(bytes: Encoding, n: Node): (r: Outcome<Node>) {
    if n.clock.clock.Syncing? then Ok(n)
    else
      var slot := n.clock.clock.next;
      match ArriveAll(bytes, n, if slot in n.early then n.early[slot] else [])
      case Panic => Panic
      case Ok(m) => OnClock(m.(early := m.early - {slot}), T.Tick)
  }

  function OnLedger(n: Node, e: L.Event): (r: Outcome<Node>) {
    match L.Step(n.ledger, e)
    case Panic => Panic
    case Ok(ledger) => Ok(n.(ledger := ledger))
  }

  function Step(bytes: Encoding, n: Node, e: Event): (r: Outcome<Node>) {
    match e
    case Gossip(p) => OnGossip(bytes, n, p)
    case Local(p, _) => if Validate(n, p) == Ok(true) then Stage(bytes, n, p) else Panic
    case Synced(p) => OnSynced(bytes, n, p)
    case Credit(tx, signed) => OnLedger(n, L.CreditProposal(tx, signed))
    case SyncedCredit(tx) => OnLedger(n, L.SyncedCredit(tx))
    case NextSyncSlot => OnClock(n, T.NextSyncSlot)
    case StartTimer => OnClock(n, T.StartTimer)
    case Tick => OnTick(bytes, n)
  }

  function Start(gateway: bool, log: Log): (n: Node) {
    Node(L.GENESIS, T.Start(gateway), log, {}, map[])
  }

  // ----- hypotheses

  ghost predicate Good(n: Node) {
    L.Good(n.ledger) && T.NodeOk(n.clock) && LogOk(n.log)
  }

  /** A block with ids the node has not used, whose staging confirms no block that misses transactions. */
  ghost predicate Sane(n: Node, p: Proposal) {
    Fresh(n.ledger.chain, p.block) && L.FindsTransactions(n.ledger, p.block)
  }

  ghost predicate Passes(n: Node, p: Proposal) {
    CheckParent(n.ledger.chain, p.block) == Accepted && Validate(n, p) == Ok(true)
  }

  /** Only a block that passes all checks, and so will be staged, need be sane. */
  ghost predicate SaneIfStaged(n: Node, p: Proposal) {
    Passes(n, p) ==> Sane(n, p)
  }

  /** A gossiped block is checked when its proof is new, the timer runs and its timeslot has come. */
  ghost predicate ChecksGossip(n: Node, p: Proposal) {
    && p.block.proofId !in n.recent && n.clock.clock.Ticking?
    && p.block.timeslot <= CurrentSlot(n.clock.clock.next)
  }

  ghost predicate SaneArrivals(bytes: Encoding, n: Node, ps: seq<Proposal>)
    decreases |ps|
  {
    ps != [] ==>
      && SaneIfStaged(n, ps[0])
      && (Arrive(bytes, n, ps[0]).Ok? ==> SaneArrivals(bytes, Arrive(bytes, n, ps[0]).value, ps[1..]))
  }

  function Due(n: Node): (ps: seq<Proposal>) {
    if n.clock.clock.Ticking? && n.clock.clock.next in n.early then n.early[n.clock.clock.next] else []
  }

  /** The guard is asked only of blocks staged during sync; gossip is checked by the node itself. */
  ghost predicate Admissible(bytes: Encoding, n: Node, e: Event) {
    match e
    case Gossip(p) => ChecksGossip(n, p) ==> SaneIfStaged(n, p)
    case Local(p, siblings) =>
      && Sane(n, p) && GENESIS_CHALLENGE !in siblings
      && (p.block.parent.Some? ==> LocalParent(n.ledger.chain, siblings) == Ok(p.block.parent.value))
    case Synced(p) => Sane(n, p) && (p.block.parent.Some? ==> Guarded(n.ledger.chain, p.block))
    case Credit(_, _) => true
    case SyncedCredit(tx) => L.Admissible(n.ledger, L.SyncedCredit(tx))
    case Tick => SaneArrivals(bytes, n, Due(n))
    case _ => true
  }

  // ----- when a step aborts

  ghost predicate NotReached(n: Node, p: Proposal) {
    p.epoch > n.clock.tracker.currentEpoch
  }

  ghost predicate ClaimsRandomness(n: Node, p: Proposal) {
    var challenge := SlotChallenge(n.clock.tracker, p.epoch, p.block.timeslot);
    challenge.Ok? && challenge.value.randomness == p.randomness
  }

  /**
   * The block is of an epoch not reached; or it is signed and has no references; or it
   * passes all checks up to the state block of its piece, which is not known.
   */
  ghost predicate ValidationAborts(n: Node, p: Proposal) {
    || NotReached(n, p)
    || (p.signed && p.block.refs == [])
    || (&& p.signed && p.block.refs != [] && p.block.coinbase.id == p.block.refs[0] && ClaimsRandomness(n, p)
        && p.inRange && p.pieceIndex / PIECES_PER_STATE_BLOCK >= |n.log.sent|)
  }

  ghost predicate UnknownParent(c: Chain, b: Block) {
    HasParentBlock(b) && b.parent.value !in c.store.proofOf
  }

  /** The named parent is a tx block. */
  ghost predicate TxParent(c: Chain, b: Block) {
    HasParentBlock(b) && b.parent.value in c.store.proofOf && !Live(c.store, c.store.proofOf[b.parent.value])
  }

  /** The parent is unknown, or there is no head to compare an earlier tx block with. */
  ghost predicate ParentAborts(c: Chain, b: Block) {
    || UnknownParent(c, b)
    || (&& TxParent(c, b) && c.heads == [] && ParentProof(c.store, b) in c.store.blocks
        && c.store.blocks[ParentProof(c.store, b)].block.timeslot < b.timeslot)
  }

  ghost predicate ReceiveAborts(n: Node, p: Proposal) {
    || ParentAborts(n.ledger.chain, p.block)
    || (CheckParent(n.ledger.chain, p.block) == Accepted && ValidationAborts(n, p))
    || (Passes(n, p) && TxParent(n.ledger.chain, p.block))
  }

  ghost predicate ArriveAborts(n: Node, p: Proposal) {
    || ValidationAborts(n, p)
    || (Validate(n, p) == Ok(true) && ParentAborts(n.ledger.chain, p.block))
    || (Passes(n, p) && TxParent(n.ledger.chain, p.block))
  }

  /** The early blocks are processed up to the i-th, which aborts the node. */
  ghost predicate AbortsAt(bytes: Encoding, n: Node, ps: seq<Proposal>, i: nat) {
    i < |ps| && ArriveAll(bytes, n, ps[..i]).Ok? && ArriveAborts(ArriveAll(bytes, n, ps[..i]).value, ps[i])
  }

  /** Some early block aborts the node at its turn. */
  ghost predicate ArrivalsAbort(bytes: Encoding, n: Node, ps: seq<Proposal>) {
    exists i: nat :: AbortsAt(bytes, n, ps, i)
  }

  ghost predicate Aborts(bytes: Encoding, n: Node, e: Event) {
    match e
    case Gossip(p) =>
      ChecksGossip(n, p) && ReceiveAborts(n, p)
    case Local(p, _) => Validate(n, p) != Ok(true)
    case Synced(p) =>
      && n.clock.clock.Syncing?
      && ((ValidatedInSync(n, p) && ValidationAborts(n, p)) || (p.block.parent.Some? && NotReached(n, p)))
    case Tick => ArrivalsAbort(bytes, n, Due(n))
    case _ => false
  }
}
