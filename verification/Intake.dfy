/** Which blocks a node takes in, and which not. */
module Intake {
  import opened Basics
  import opened MetaBlocks
  import opened Forks
  import opened ForkChoice
  import opened Staging
  import opened Finality
  import opened StageEffects
  import opened StateLog
  import opened WholeNode
  import opened NodeRuns
  import L = LedgerRuns
  import T = Timer

  // ----- what staging gains

  /** The block is new in the store, and nothing else is; blocks may have gone. */
  ghost predicate Gains(before: Store, after: Store, b: Block) {
    && b.proofId !in before.blocks && b.proofId in after.blocks && after.blocks[b.proofId].block == b
    && (forall x :: x in after.blocks && x != b.proofId ==>
          x in before.blocks && after.blocks[x].block == before.blocks[x].block)
  }

  lemma ProposerGains(c: Chain, e: Chain, b: Block)
    requires ProposerEffect(c, e, b)
    ensures Gains(c.store, e.store, b)
  {
    hide Goes, NextFront, Confirms;
    var d: Chain :| Attached(c, d, b) && Resolved(c, d, e, b);
  }

  lemma LedgerGains(l: L.State, b: Block)
    requires L.Good(l) && Fresh(l.chain, b) && L.FindsTransactions(l, b)
    requires b.parent.Some? ==> Guarded(l.chain, b)
    ensures L.Step(l, LedgerEvent(b)).Ok?
    ensures Gains(l.chain.store, L.Step(l, LedgerEvent(b)).value.chain.store, b)
  {
    hide Inv, Fresh, Guarded, Attach, L.StageProposer, L.FindsTransactions, ProposerEffect, StageOnChain, TxEffect,
         Gains;
    if b.parent.Some? {
      L.StageProposerIsGood(l, b);
      StageDoes(l.chain, b);
      ProposerGains(l.chain, L.StageProposer(l, b).value.chain, b);
    } else {
      TxStageDoes(l.chain, b);
      TxGains(l.chain, Attach(l.chain, b).value.0, b);
    }
  }

  lemma TxGains(c: Chain, e: Chain, b: Block)
    requires TxEffect(c, e, b)
    ensures Gains(c.store, e.store, b)
  {
  }

  // ----- which blocks are acceptable

  /** The parent is from an earlier timeslot. */
  ghost predicate EarlierParent(c: Chain, b: Block) {
    HasParentBlock(b) ==>
      ParentProof(c.store, b) in c.store.blocks && c.store.blocks[ParentProof(c.store, b)].block.timeslot < b.timeslot
  }

  /** A valid tx block, or a valid proposer block on a known, earlier proposer block that is not too deep. */
  ghost predicate Acceptable(n: Node, p: Proposal) {
    && Valid(n, p)
    && (p.block.parent.Some? ==> Guarded(n.ledger.chain, p.block) && EarlierParent(n.ledger.chain, p.block))
  }

  lemma AcceptableIff(n: Node, p: Proposal)
    requires Good(n)
    ensures Acceptable(n, p) <==> Passes(n, p) && !TxParent(n.ledger.chain, p.block)
  {
    hide L.Good, T.NodeOk, LogOk, Validate, Valid, CheckParent;
    GoodInv(n);
    ValidIff(n, p);
    ParentIff(n.ledger.chain, p.block);
  }

  lemma ParentIff(c: Chain, b: Block)
    requires Inv(c)
    ensures (b.parent.Some? ==> Guarded(c, b) && EarlierParent(c, b)) <==>
            CheckParent(c, b) == Accepted && !TxParent(c, b)
  {
    hide SlotsOk, ParentsList, Kids, HeadsOk, ConfirmedBuried, NoRivals, DeepConfirmed, Placed;
  }

  /** An acceptable block is staged, and the store gains it and no other. */
  lemma AcceptableIsStaged(bytes: Encoding, n: Node, p: Proposal)
    requires Good(n) && Sane(n, p) && Acceptable(n, p)
    ensures Stage(bytes, n, p).Ok? && Gains(n.ledger.chain.store, Stage(bytes, n, p).value.ledger.chain.store, p.block)
  {
    hide Inv, Valid, T.NodeOk, LogOk, L.Step, AddRecords, Fresh, Guarded, L.FindsTransactions, Gains, TxParent, OnClock;
    AcceptableIff(n, p);
    PassesShape(n, p);
    StageAbortsIff(bytes, n, p);
    LedgerGains(n.ledger, p.block);
    StagedLedger(bytes, n, p);
  }

  lemma StagedLedger(bytes: Encoding, n: Node, p: Proposal)
    requires Stage(bytes, n, p).Ok?
    ensures L.Step(n.ledger, LedgerEvent(p.block)) == Ok(Stage(bytes, n, p).value.ledger)
  {
    hide L.Step, AddRecords, T.Step;
  }

  // ----- gossip

  /** A gossiped block is taken in exactly when it is new, in time and acceptable; otherwise ledger, clocks and state
      log stay as they are. */
  lemma GossipTakesIff(bytes: Encoding, n: Node, p: Proposal)
    requires Good(n) && Admissible(bytes, n, Gossip(p)) && OnGossip(bytes, n, p).Ok?
    ensures
      var m := OnGossip(bytes, n, p).value;
      if ChecksGossip(n, p) && Acceptable(n, p) then Gains(n.ledger.chain.store, m.ledger.chain.store, p.block)
      else m.ledger == n.ledger && m.clock == n.clock && m.log == n.log
  {
    hide Good, Sane, Stage, Acceptable, CheckParent, Validate, Gains, TxParent, Postpone;
    AcceptableIff(n, p);
    if ChecksGossip(n, p) {
      var m := n.(recent := n.recent + {p.block.proofId});
      AlikeChecks(n, m, p);
      assert Passes(m, p) <==> Passes(n, p) by { AlikePasses(n, m, p); }
      if Passes(n, p) {
        AcceptableIff(m, p);
        PassesShape(m, p);
        StageAbortsIff(bytes, m, p);
        AcceptableIsStaged(bytes, m, p);
      }
    } else if p.block.proofId !in n.recent && n.clock.clock.Ticking? {
      PostponeAlike(n.(recent := n.recent + {p.block.proofId}), p, CurrentSlot(n.clock.clock.next));
    }
  }

  lemma AlikePasses(n: Node, m: Node, p: Proposal)
    requires Alike(n, m)
    ensures Passes(m, p) <==> Passes(n, p)
  {
    hide CheckParent;
  }

  lemma PostponeAlike(n: Node, p: Proposal, slot: nat)
    ensures Alike(n, Postpone(n, p, slot))
  {
  }

  // ----- farming and sync

  lemma LocalIsGuarded(bytes: Encoding, n: Node, p: Proposal, siblings: set<Id>)
    requires Good(n) && Admissible(bytes, n, Local(p, siblings))
    ensures p.block.parent.Some? ==> Guarded(n.ledger.chain, p.block)
  {
    hide T.NodeOk, LogOk, Sane, LocalParent, Inv;
    GoodInv(n);
    if p.block.parent.Some? {
      LocalParentIsGuarded(n.ledger.chain, siblings, p.block);
    }
  }

  /** A block staged on farming is valid, and the store gains it and no other. */
  lemma LocalTakes(bytes: Encoding, n: Node, p: Proposal, siblings: set<Id>)
    requires Good(n) && Admissible(bytes, n, Local(p, siblings)) && Step(bytes, n, Local(p, siblings)).Ok?
    ensures Valid(n, p)
    ensures Gains(n.ledger.chain.store, Step(bytes, n, Local(p, siblings)).value.ledger.chain.store, p.block)
  {
    hide T.NodeOk, LogOk, Sane, Valid, Validate, Gains, L.Good, Stage, LocalParent;
    ValidIff(n, p);
    LocalIsGuarded(bytes, n, p, siblings);
    SaneIsGained(bytes, n, p);
  }

  lemma SaneIsGained(bytes: Encoding, n: Node, p: Proposal)
    requires Good(n) && Sane(n, p) && (p.block.parent.Some? ==> Guarded(n.ledger.chain, p.block))
    requires Stage(bytes, n, p).Ok?
    ensures Gains(n.ledger.chain.store, Stage(bytes, n, p).value.ledger.chain.store, p.block)
  {
    hide T.NodeOk, LogOk, Gains, L.Good, Stage, Fresh, Guarded, L.FindsTransactions, L.Step;
    LedgerGains(n.ledger, p.block);
    StagedLedger(bytes, n, p);
  }

  /** During sync every block is staged whatever validation says, and the store gains it and no other. */
  lemma SyncedTakes(bytes: Encoding, n: Node, p: Proposal)
    requires Good(n) && Admissible(bytes, n, Synced(p)) && n.clock.clock.Syncing? && OnSynced(bytes, n, p).Ok?
    ensures Gains(n.ledger.chain.store, OnSynced(bytes, n, p).value.ledger.chain.store, p.block)
  {
    hide Good, Sane, Validate, Gains, Stage, ValidatedInSync, Guarded;
    var seen := if p.block.timeslot == n.clock.clock.timeslot then {p.block.proofId} else {};
    var m := n.(recent := n.recent + seen);
    AlikeChecks(n, m, p);
    SaneIsGained(bytes, m, p);
  }

  // ----- early blocks at their turn

  lemma ArriveTakesIff(bytes: Encoding, n: Node, p: Proposal)
    requires Good(n) && SaneIfStaged(n, p) && Arrive(bytes, n, p).Ok?
    ensures
      var m := Arrive(bytes, n, p).value;
      if Acceptable(n, p) then Gains(n.ledger.chain.store, m.ledger.chain.store, p.block) else m == n
  {
    hide Good, Sane, Stage, Acceptable, CheckParent, Validate, Gains, TxParent;
    AcceptableIff(n, p);
    if Passes(n, p) {
      PassesShape(n, p);
      StageAbortsIff(bytes, n, p);
      AcceptableIsStaged(bytes, n, p);
    }
  }

  /** The node after the first `j` of the early blocks. */
  ghost function After(bytes: Encoding, n: Node, ps: seq<Proposal>, j: nat): (m: Node)
    requires j <= |ps|
  {
    match ArriveAll(bytes, n, ps[..j]) case Ok(m) => m case Panic => n
  }

  lemma {:induction false} TurnReady(bytes: Encoding, n: Node, ps: seq<Proposal>, j: nat)
    requires Good(n) && SaneArrivals(bytes, n, ps) && ArriveAll(bytes, n, ps).Ok? && j < |ps|
    ensures Good(After(bytes, n, ps, j)) && SaneIfStaged(After(bytes, n, ps, j), ps[j])
    ensures Arrive(bytes, After(bytes, n, ps, j), ps[j]) == Ok(After(bytes, n, ps, j + 1))
    decreases |ps|
  {
    hide Good, Arrive, SaneIfStaged, Keeps, SameClock;
    ArriveAbortsIff(bytes, n, ps[0]);
    var m := Arrive(bytes, n, ps[0]).value;
    if j == 0 {
      assert ps[..0] == [] && ps[..1] == [ps[0]] && ps[..1][1..] == [];
      assert ArriveAll(bytes, m, []) == Ok(m);
    } else {
      TurnReady(bytes, m, ps[1..], j - 1);
      assert ps[..j][1..] == ps[1..][..j - 1] && ps[..j + 1][1..] == ps[1..][..j];
      ArriveAllPrefix(bytes, m, ps[1..], j - 1);
      ArriveAllPrefix(bytes, m, ps[1..], j);
    }
  }

  lemma {:induction false} ArriveAllPrefix(bytes: Encoding, n: Node, ps: seq<Proposal>, j: nat)
    requires ArriveAll(bytes, n, ps).Ok? && j <= |ps|
    ensures ArriveAll(bytes, n, ps[..j]).Ok?
    decreases |ps|
  {
    hide Arrive;
    if j > 0 {
      assert ps[..j][1..] == ps[1..][..j - 1];
      ArriveAllPrefix(bytes, Arrive(bytes, n, ps[0]).value, ps[1..], j - 1);
    }
  }

  /** Each early block is taken in exactly when it is acceptable at its turn. */
  ghost predicate TakenInTurn(bytes: Encoding, n: Node, ps: seq<Proposal>, j: nat)
    requires j < |ps|
  {
    var a, b := After(bytes, n, ps, j), After(bytes, n, ps, j + 1);
    if Acceptable(a, ps[j]) then Gains(a.ledger.chain.store, b.ledger.chain.store, ps[j].block) else b == a
  }

  /** A round takes its early blocks one after the other, and nothing else. */
  lemma TickTakes(bytes: Encoding, n: Node)
    requires Good(n) && SaneArrivals(bytes, n, Due(n)) && OnTick(bytes, n).Ok?
    ensures forall j: nat :: j < |Due(n)| ==> TakenInTurn(bytes, n, Due(n), j)
    ensures OnTick(bytes, n).value.ledger == After(bytes, n, Due(n), |Due(n)|).ledger
  {
    hide Good, Arrive, SaneIfStaged, T.Step, Acceptable, Gains, SaneArrivals;
    var ps := Due(n);
    assert ps[..|ps|] == ps;
    assert ArriveAll(bytes, n, ps).Ok?;
    forall j: nat | j < |ps| ensures TakenInTurn(bytes, n, ps, j) {
      TurnReady(bytes, n, ps, j);
      ArriveTakesIff(bytes, After(bytes, n, ps, j), ps[j]);
    }
  }

  /** A block the node has after `j` early blocks and had not before was one of them, and acceptable at its turn. */
  lemma {:induction false} TakenAtSomeTurn(bytes: Encoding, n: Node, ps: seq<Proposal>, j: nat, x: Id) returns (k: nat)
    requires j <= |ps| && forall i: nat :: i < j ==> TakenInTurn(bytes, n, ps, i)
    requires x !in n.ledger.chain.store.blocks && x in After(bytes, n, ps, j).ledger.chain.store.blocks
    ensures k < j && ps[k].block.proofId == x && Acceptable(After(bytes, n, ps, k), ps[k])
  {
    hide Acceptable, Arrive;
    if j == 0 {
      assert false;
    }
    if x in After(bytes, n, ps, j - 1).ledger.chain.store.blocks {
      k := TakenAtSomeTurn(bytes, n, ps, j - 1, x);
    } else {
      assert TakenInTurn(bytes, n, ps, j - 1);
      k := j - 1;
    }
  }

  // ----- every run

  /** The node takes in `p` on gossip. */
  ghost predicate TakenOnGossip(n: Node, e: Event, p: Proposal) {
    e == Gossip(p) && ChecksGossip(n, p) && Acceptable(n, p)
  }

  /** The node takes in `p`, which came early, in the round of its slot. */
  ghost predicate TakenOnTick(bytes: Encoding, n: Node, e: Event, p: Proposal) {
    e == Tick && exists k: nat :: k < |Due(n)| && Due(n)[k] == p && Acceptable(After(bytes, n, Due(n), k), p)
  }

  /** In every run, a block gained on gossip or in a round of the timer was acceptable when it was taken in. */
  lemma GainedWasAcceptable(bytes: Encoding, gateway: bool, log: Log, states: seq<Node>, events: seq<Event>, i: nat,
                            x: Id)
      returns (p: Proposal)
    requires Run(bytes, gateway, log, states, events) && i < |events| && (events[i].Gossip? || events[i].Tick?)
    requires x !in states[i].ledger.chain.store.blocks && x in states[i + 1].ledger.chain.store.blocks
    ensures p.block.proofId == x
    ensures TakenOnGossip(states[i], events[i], p) || TakenOnTick(bytes, states[i], events[i], p)
  {
    hide Good, OnGossip, OnTick, Acceptable, After, ChecksGossip, SaneArrivals, SaneIfStaged, TakenInTurn;
    RunIsGood(bytes, gateway, log, states, events, i);
    var n, m := states[i], states[i + 1];
    assert Admissible(bytes, n, events[i]) && Step(bytes, n, events[i]) == Ok(m);
    if events[i].Gossip? {
      p := events[i].proposal;
      GossipTakesIff(bytes, n, p);
      assert TakenOnGossip(n, events[i], p);
    } else {
      TickTakes(bytes, n);
      var k := TakenAtSomeTurn(bytes, n, Due(n), |Due(n)|, x);
      p := Due(n)[k];
    }
  }
}
