/** The state log of a running node holds the ledger's records, and the accounts can be recomputed from it. */
module StateOfLedger {
  import opened Basics
  import opened Transactions
  import opened Supply
  import opened StateLog
  import opened StateRecovery
  import opened WholeNode
  import N = NodeRuns
  import L = LedgerRuns
  import T = Timer

  // ----- the log follows the ledger

  /** The state log is the one the node started with, and the ledger's records after it. */
  ghost predicate LogFollows(bytes: Encoding, start: Log, n: Node) {
    Sound(n.ledger.bank) && n.log == AddRecords(bytes, start, n.ledger.bank.log)
  }

  lemma LedgerGrows(bytes: Encoding, start: Log, n: Node, m: Node, e: L.Event)
    requires LogFollows(bytes, start, n) && L.Step(n.ledger, e) == Ok(m.ledger)
    requires m.log == AddRecords(bytes, n.log, NewRecords(n.ledger, m.ledger))
    ensures LogFollows(bytes, start, m)
  {
    hide Sound, AddRecords, L.Step;
    L.StepKeepsSound(n.ledger, e);
    var a, b := n.ledger.bank.log, m.ledger.bank.log;
    assert b == a + b[|a|..];
    AddRecordsAppend(bytes, start, a, b[|a|..]);
  }

  lemma StageFollows(bytes: Encoding, start: Log, n: Node, p: Proposal)
    requires LogFollows(bytes, start, n) && Stage(bytes, n, p).Ok?
    ensures LogFollows(bytes, start, Stage(bytes, n, p).value)
  {
    hide Sound, AddRecords, L.Step, T.Step, NewRecords;
    var ledger := L.Step(n.ledger, LedgerEvent(p.block)).value;
    var m := n.(ledger := ledger, log := AddRecords(bytes, n.log, NewRecords(n.ledger, ledger)));
    LedgerGrows(bytes, start, n, m, LedgerEvent(p.block));
  }

  lemma {:induction false} ArriveAllFollows(bytes: Encoding, start: Log, n: Node, ps: seq<Proposal>)
    requires LogFollows(bytes, start, n) && ArriveAll(bytes, n, ps).Ok?
    ensures LogFollows(bytes, start, ArriveAll(bytes, n, ps).value)
    decreases |ps|
  {
    hide LogFollows, Stage, Validate;
    if ps != [] {
      if Stage(bytes, n, ps[0]).Ok? {
        StageFollows(bytes, start, n, ps[0]);
      }
      ArriveAllFollows(bytes, start, Arrive(bytes, n, ps[0]).value, ps[1..]);
    }
  }

  lemma CreditFollows(bytes: Encoding, start: Log, n: Node, e: L.Event)
    requires LogFollows(bytes, start, n) && (e.CreditProposal? || e.SyncedCredit?)
    ensures OnLedger(n, e).Ok? && LogFollows(bytes, start, OnLedger(n, e).value)
  {
    hide Sound, AddRecords;
    L.StepKeepsSound(n.ledger, e);
  }

  lemma StepFollows(bytes: Encoding, start: Log, n: Node, e: Event)
    requires LogFollows(bytes, start, n) && Step(bytes, n, e).Ok?
    ensures LogFollows(bytes, start, Step(bytes, n, e).value)
  {
    hide Sound, AddRecords, Stage, Validate, ArriveAll, T.Step, OnLedger, ValidatedInSync;
    match e
    case Gossip(p) =>
      var m := n.(recent := n.recent + {p.block.proofId});
      if Stage(bytes, m, p).Ok? {
        StageFollows(bytes, start, m, p);
      }
    case Local(p, _) => StageFollows(bytes, start, n, p);
    case Synced(p) =>
      if n.clock.clock.Syncing? {
        var seen := if p.block.timeslot == n.clock.clock.timeslot then {p.block.proofId} else {};
        StageFollows(bytes, start, n.(recent := n.recent + seen), p);
      }
    case Credit(tx, signed) => CreditFollows(bytes, start, n, L.CreditProposal(tx, signed));
    case SyncedCredit(tx) => CreditFollows(bytes, start, n, L.SyncedCredit(tx));
    case Tick =>
      if n.clock.clock.Ticking? {
        ArriveAllFollows(bytes, start, n, Due(n));
      }
    case _ =>
  }

  lemma {:induction false} RunFollows(bytes: Encoding, gateway: bool, log: Log, states: seq<Node>, events: seq<Event>,
                                      i: nat)
    requires N.Run(bytes, gateway, log, states, events) && i < |states|
    ensures LogFollows(bytes, log, states[i])
  {
    hide Step, Admissible, LogFollows;
    if i == 0 {
      StartFollows(bytes, gateway, log);
    } else {
      RunFollows(bytes, gateway, log, states, events, i - 1);
      assert Step(bytes, states[i - 1], events[i - 1]) == Ok(states[i]);
      StepFollows(bytes, log, states[i - 1], events[i - 1]);
    }
  }

  lemma StartFollows(bytes: Encoding, gateway: bool, log: Log)
    ensures LogFollows(bytes, log, Start(gateway, log))
  {
  }

  // ----- reading the accounts back

  function Encoded(bytes: Encoding, records: seq<Record>): (r: seq<Data>) {
    seq(|records|, i requires 0 <= i < |records| => bytes(records[i]))
  }

  function Decoded(parse: Data -> Record, data: seq<Data>): (r: seq<Record>) {
    seq(|data|, i requires 0 <= i < |data| => parse(data[i]))
  }

  lemma {:induction false} AddRecordsIsAddAll(bytes: Encoding, genesis: seq<Data>, records: seq<Record>)
    ensures AddRecords(bytes, AddAll(genesis), records) == AddAll(genesis + Encoded(bytes, records))
  {
    hide AddData;
    var all := genesis + Encoded(bytes, records);
    if records == [] {
      assert all == genesis;
    } else {
      var before := records[..|records| - 1];
      AddRecordsIsAddAll(bytes, genesis, before);
      assert all[..|all| - 1] == genesis + Encoded(bytes, before);
    }
  }

  /** Records that a block can hold and that their bytes determine. */
  ghost predicate Readable(bytes: Encoding, parse: Data -> Record, records: seq<Record>) {
    forall i :: 0 <= i < |records| ==>
      0 < |bytes(records[i])| <= MAX_RECORD && parse(bytes(records[i])) == records[i]
  }

  ghost predicate Storable(genesis: seq<Data>) {
    forall i :: 0 <= i < |genesis| ==> 0 < |genesis[i]| <= MAX_RECORD
  }

  lemma LogIsRecovered(bytes: Encoding, parse: Data -> Record, genesis: seq<Data>, records: seq<Record>)
    requires Readable(bytes, parse, records) && Storable(genesis)
    ensures
      var log := AddRecords(bytes, AddAll(genesis), records);
      && WholeBundles(log.sent) && |genesis| <= |Recovered(log)|
      && Decoded(parse, Recovered(log)[|genesis|..]) == records
  {
    hide AddAll, AddRecords, Recovered, WholeBundles, FitBlocks, NewestSurvives;
    var all := genesis + Encoded(bytes, records);
    AddRecordsIsAddAll(bytes, genesis, records);
    assert forall i :: 0 <= i < |all| ==> 0 < |all[i]| <= MAX_RECORD;
    PendingStaysWithinBlock(all);
    LosslessIff(all);
    assert all[|genesis|..] == Encoded(bytes, records);
  }

  /**
   * In every run of the whole node, a reader of its state blocks and pending bytes who
   * skips the genesis records and replays the others gets exactly the node's accounts.
   */
  lemma AccountsFromState(bytes: Encoding, parse: Data -> Record, gateway: bool, genesis: seq<Data>,
                          states: seq<Node>, events: seq<Event>, i: nat)
    requires N.Run(bytes, gateway, AddAll(genesis), states, events) && i < |states|
    requires Readable(bytes, parse, states[i].ledger.bank.log) && Storable(genesis)
    ensures
      var log := states[i].log;
      && WholeBundles(log.sent) && |genesis| <= |Recovered(log)|
      && Replay(Decoded(parse, Recovered(log)[|genesis|..])) == states[i].ledger.bank.accounts
  {
    hide N.Run, AddAll, AddRecords, Recovered, WholeBundles, Readable, Storable, Replay, Covered, CreditsOnce;
    RunFollows(bytes, gateway, AddAll(genesis), states, events, i);
    LogIsRecovered(bytes, parse, genesis, states[i].ledger.bank.log);
  }
}
