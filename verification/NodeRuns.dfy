/** When the whole node aborts, and what it keeps over every run. */
module NodeRuns {
  import opened Basics
  import opened MetaBlocks
  import opened Forks
  import opened ForkChoice
  import opened Staging
  import opened Confirmation
  import opened Finality
  import opened Epochs
  import opened Tracker
  import opened StateLog
  import opened WholeNode
  import L = LedgerRuns
  import T = Timer

  // ----- validation

  lemma StateBlockKnownIff(log: Log, h: nat)
    requires LogOk(log)
    ensures BlockByHeight(log, h).None? <==> h >= |log.sent|
  {
    if h < |log.sent| {
      assert StateLog.Indexed(log, h);
    }
  }

  lemma LookupOk(clock: T.Node, epoch: nat, timeslot: nat)
    requires T.NodeOk(clock)
    ensures SlotChallenge(clock.tracker, epoch, timeslot).Ok? <==> epoch <= clock.tracker.currentEpoch
  {
    hide SlotChallenge, TrackerOk;
    LookupIffReached(clock.tracker, epoch, timeslot);
  }

  /** Validation is fatal exactly for an unreached epoch, a signed block without references or an unknown state. */
  lemma ValidatePanicsIff(n: Node, p: Proposal)
    requires Good(n)
    ensures Validate(n, p).Panic? <==> ValidationAborts(n, p)
  {
    hide L.Good, T.NodeOk, LogOk, SlotChallenge, BlockByHeight;
    LookupOk(n.clock, p.epoch, p.block.timeslot);
    StateBlockKnownIff(n.log, p.pieceIndex / PIECES_PER_STATE_BLOCK);
  }

  /**
   * The epoch is reached, the block is signed and starts with its own coinbase, it claims
   * the randomness of the epoch before its own (in the first epoch the genesis seed), it is
   * in range, the state block of its piece is known, and its proof holds.
   */
  ghost predicate Valid(n: Node, p: Proposal) {
    && p.epoch <= n.clock.tracker.currentEpoch && p.signed
    && p.block.refs != [] && p.block.refs[0] == p.block.coinbase.id
    && (if p.epoch == 0 then p.randomness == GenesisSeed
        else
          && p.epoch - 1 in n.clock.tracker.epochs
          && p.randomness == n.clock.tracker.epochs[p.epoch - 1].randomness)
    && p.inRange && p.pieceIndex / 2 < |n.log.sent| && p.proven
  }

  /** Validation accepts exactly the valid blocks. */
  lemma ValidIff(n: Node, p: Proposal)
    requires Good(n)
    ensures Validate(n, p) == Ok(true) <==> Valid(n, p)
  {
    hide L.Good, LogOk, SlotChallenge, BlockByHeight, TrackerOk;
    LookupIffReached(n.clock.tracker, p.epoch, p.block.timeslot);
    if p.epoch <= n.clock.tracker.currentEpoch {
      LookupIs(n.clock.tracker, p.epoch, p.block.timeslot);
    }
    StateBlockKnownIff(n.log, p.pieceIndex / PIECES_PER_STATE_BLOCK);
  }

  // ----- parents

  lemma CheckParentAbortsIff(c: Chain, b: Block)
    requires Inv(c)
    ensures CheckParent(c, b) == Aborted <==> ParentAborts(c, b)
  {
    hide SlotsOk, ParentsList, Kids, ConfirmedBuried, NoRivals, DeepConfirmed, HeadOk, Leaf, Placed;
  }

  /** An accepted block names a tx block or meets the guard. */
  lemma AcceptedParent(c: Chain, b: Block)
    requires Inv(c) && CheckParent(c, b) == Accepted && b.parent.Some? && !TxParent(c, b)
    ensures Guarded(c, b)
  {
    hide Inv, CheckParent, Store.Linked, Guarded;
    InvLinked(c);
    AcceptedIffGuarded(c, b);
  }

  /** Following the parent links from a block under a tx block is fatal. */
  lemma TxParentAborts(l: L.State, b: Block)
    requires l.chain.store.Linked() && Fresh(l.chain, b) && TxParent(l.chain, b)
    ensures L.StageProposer(l, b).Panic?
  {
    hide UpdateHeads, AddToSlot, Saved;
    SaveGrows(l.chain.store, b);
    var store := Saved(l.chain.store, b).value.0;
    assert store.Lookup(b.parent.value).Some? && store.Lookup(b.parent.value).value.block.parent.None? by {
      TxParentStays(l.chain.store, b, store);
    }
  }

  lemma TxParentStays(m: Store, b: Block, n: Store)
    requires m.Linked() && Grown(m, n, b) && HasParentBlock(b) && b.parent.value in m.proofOf
    requires !Live(m, m.proofOf[b.parent.value])
    ensures n.Lookup(b.parent.value).Some? && n.Lookup(b.parent.value).value.block.parent.None?
  {
  }

  // ----- staging

  /** What staging and arriving leave alone. */
  ghost predicate SameClock(n: Node, m: Node) {
    && m.clock.clock == n.clock.clock && m.clock.tracker.currentEpoch == n.clock.tracker.currentEpoch
    && m.early == n.early && m.recent == n.recent
  }

  ghost predicate Keeps(n: Node, m: Node) {
    Settles(n.ledger.chain, m.ledger.chain) && KeepsClosed(n.clock.tracker, m.clock.tracker)
  }

  lemma ClockStep(n: Node, e: T.Event)
    requires Good(n)
    ensures OnClock(n, e).Panic? <==> e.StageProof? && e.epoch > n.clock.tracker.currentEpoch
    ensures OnClock(n, e).Ok? ==>
              var m := OnClock(n, e).value;
              && Good(m) && m == n.(clock := m.clock) && KeepsClosed(n.clock.tracker, m.clock.tracker)
              && (e.StageProof? ==> m.clock.clock == n.clock.clock
                                    && m.clock.tracker.currentEpoch == n.clock.tracker.currentEpoch)
  {
    hide L.Good, T.NodeOk, KeepsClosed, LogOk;
    T.StepKeepsOk(n.clock, e);
  }

  lemma SettlesGood(l: L.State)
    requires L.Good(l)
    ensures Settles(l.chain, l.chain)
  {
    L.SettlesSelf(l.chain);
  }

  lemma KeepsSelf(n: Node)
    requires Good(n)
    ensures Keeps(n, n) && SameClock(n, n)
  {
    hide L.Good, T.NodeOk, LogOk, Settles, KeepsClosed;
    SettlesGood(n.ledger);
    T.KeepsClosedSelf(n.clock.tracker);
  }

  lemma KeepsTrans(a: Node, b: Node, c: Node)
    requires Keeps(a, b) && Keeps(b, c)
    ensures Keeps(a, c)
  {
  }

  /** The ledger's part of staging. */
  lemma LedgerStage(n: Node, p: Proposal)
    requires Good(n) && Sane(n, p)
    requires p.block.parent.Some? ==> TxParent(n.ledger.chain, p.block) || Guarded(n.ledger.chain, p.block)
    ensures L.Step(n.ledger, LedgerEvent(p.block)).Panic? <==> TxParent(n.ledger.chain, p.block)
    ensures L.Step(n.ledger, LedgerEvent(p.block)).Ok? ==>
              var ledger := L.Step(n.ledger, LedgerEvent(p.block)).value;
              L.Good(ledger) && Settles(n.ledger.chain, ledger.chain)
  {
    hide Inv, T.NodeOk, LogOk, Settles, L.StageProposer, L.StageTx, L.FindsTransactions, Fresh, Guarded, TxParent;
    InvLinked(n.ledger.chain);
    if p.block.parent.Some? && TxParent(n.ledger.chain, p.block) {
      TxParentAborts(n.ledger, p.block);
    } else {
      NoTxParent(n.ledger.chain, p.block);
      L.StepIsGood(n.ledger, LedgerEvent(p.block));
    }
  }

  lemma NoTxParent(c: Chain, b: Block)
    requires b.parent.None? || !TxParent(c, b)
    ensures !TxParent(c, b)
  {
  }

  lemma StageAbortsIff(bytes: Encoding, n: Node, p: Proposal)
    requires Good(n) && Sane(n, p)
    requires p.block.parent.Some? ==> TxParent(n.ledger.chain, p.block) || Guarded(n.ledger.chain, p.block)
    ensures Stage(bytes, n, p).Panic? <==>
            TxParent(n.ledger.chain, p.block) || (p.block.parent.Some? && NotReached(n, p))
    ensures Stage(bytes, n, p).Ok? ==>
              && Good(Stage(bytes, n, p).value) && SameClock(n, Stage(bytes, n, p).value)
              && Keeps(n, Stage(bytes, n, p).value)
  {
    hide L.Good, T.NodeOk, LogOk, L.Step, Settles, KeepsClosed, AddRecords, TxParent, Guarded, Sane, OnClock;
    LedgerStage(n, p);
    if L.Step(n.ledger, LedgerEvent(p.block)).Ok? {
      var ledger := L.Step(n.ledger, LedgerEvent(p.block)).value;
      AddRecordsOk(bytes, n.log, NewRecords(n.ledger, ledger));
      var m := n.(ledger := ledger, log := AddRecords(bytes, n.log, NewRecords(n.ledger, ledger)));
      T.KeepsClosedSelf(n.clock.tracker);
      if p.block.parent.Some? {
        ClockStep(m, T.StageProof(p.epoch, ParentProofId(n.ledger.chain.store, p.block), p.block.proofId));
      }
    }
  }

  // ----- incoming blocks

  lemma GoodInv(n: Node)
    requires Good(n)
    ensures Inv(n.ledger.chain)
  {
    hide Inv, T.NodeOk, LogOk;
  }

  /** A block that passes all checks names a tx block or meets the guard, and its epoch is reached. */
  lemma PassesShape(n: Node, p: Proposal)
    requires Good(n) && Passes(n, p)
    ensures p.block.parent.Some? ==> TxParent(n.ledger.chain, p.block) || Guarded(n.ledger.chain, p.block)
    ensures !NotReached(n, p)
  {
    hide Inv, L.Good, T.NodeOk, LogOk, TxParent, Guarded, CheckParent, Validate;
    GoodInv(n);
    ValidatePanicsIff(n, p);
    if p.block.parent.Some? && !TxParent(n.ledger.chain, p.block) {
      AcceptedParent(n.ledger.chain, p.block);
    }
  }

  /** A gossiped block whose timeslot has come aborts the node exactly as `ReceiveAborts` says. */
  lemma ReceiveAbortsIff(bytes: Encoding, n: Node, p: Proposal)
    requires Good(n) && SaneIfStaged(n, p)
    ensures Receive(bytes, n, p).Panic? <==> ReceiveAborts(n, p)
    ensures Receive(bytes, n, p).Ok? ==>
              && Good(Receive(bytes, n, p).value) && SameClock(n, Receive(bytes, n, p).value)
              && Keeps(n, Receive(bytes, n, p).value)
  {
    hide Good, Sane, Stage, Validate, CheckParent, ValidationAborts, ParentAborts, TxParent, SameClock, Keeps,
         NotReached;
    GoodInv(n);
    CheckParentAbortsIff(n.ledger.chain, p.block);
    ValidatePanicsIff(n, p);
    KeepsSelf(n);
    if Passes(n, p) {
      PassesShape(n, p);
      StageAbortsIff(bytes, n, p);
    }
  }

  /** And an early block, when its timeslot comes, exactly as `ArriveAborts` says. */
  lemma ArriveAbortsIff(bytes: Encoding, n: Node, p: Proposal)
    requires Good(n) && SaneIfStaged(n, p)
    ensures Arrive(bytes, n, p).Panic? <==> ArriveAborts(n, p)
    ensures Arrive(bytes, n, p).Ok? ==>
              && Good(Arrive(bytes, n, p).value) && SameClock(n, Arrive(bytes, n, p).value)
              && Keeps(n, Arrive(bytes, n, p).value)
  {
    hide Good, Sane, Stage, Validate, CheckParent, ValidationAborts, ParentAborts, TxParent, SameClock, Keeps,
         NotReached;
    GoodInv(n);
    CheckParentAbortsIff(n.ledger.chain, p.block);
    ValidatePanicsIff(n, p);
    KeepsSelf(n);
    if Passes(n, p) {
      PassesShape(n, p);
      StageAbortsIff(bytes, n, p);
    }
  }

  lemma AbortsLater(bytes: Encoding, n: Node, ps: seq<Proposal>, i: nat)
    requires ps != [] && Arrive(bytes, n, ps[0]).Ok?
    ensures AbortsAt(bytes, n, ps, i + 1) <==> AbortsAt(bytes, Arrive(bytes, n, ps[0]).value, ps[1..], i)
  {
    hide Arrive, ArriveAborts;
    if i + 1 < |ps| {
      assert ps[..i + 1][0] == ps[0] && ps[..i + 1][1..] == ps[1..][..i];
    }
  }

  lemma AbortsFirstOrLater(bytes: Encoding, n: Node, ps: seq<Proposal>)
    requires ps != []
    ensures ArriveAborts(n, ps[0]) ==> ArrivalsAbort(bytes, n, ps)
    ensures !ArriveAborts(n, ps[0]) && Arrive(bytes, n, ps[0]).Ok? ==>
              (ArrivalsAbort(bytes, n, ps) <==> ArrivalsAbort(bytes, Arrive(bytes, n, ps[0]).value, ps[1..]))
  {
    hide Arrive, ArriveAborts;
    assert ps[..0] == [] && (AbortsAt(bytes, n, ps, 0) <==> ArriveAborts(n, ps[0]));
    if !ArriveAborts(n, ps[0]) && Arrive(bytes, n, ps[0]).Ok? {
      var m := Arrive(bytes, n, ps[0]).value;
      if i: nat :| AbortsAt(bytes, n, ps, i) {
        AbortsLater(bytes, n, ps, i - 1);
        assert AbortsAt(bytes, m, ps[1..], i - 1);
      }
      if i: nat :| AbortsAt(bytes, m, ps[1..], i) {
        AbortsLater(bytes, n, ps, i);
        assert AbortsAt(bytes, n, ps, i + 1);
      }
    }
  }

  lemma {:induction false} ArriveAllAbortsIff(bytes: Encoding, n: Node, ps: seq<Proposal>)
    requires Good(n) && SaneArrivals(bytes, n, ps)
    ensures ArriveAll(bytes, n, ps).Panic? <==> ArrivalsAbort(bytes, n, ps)
    ensures ArriveAll(bytes, n, ps).Ok? ==>
              && Good(ArriveAll(bytes, n, ps).value) && SameClock(n, ArriveAll(bytes, n, ps).value)
              && Keeps(n, ArriveAll(bytes, n, ps).value)
    decreases |ps|
  {
    hide Good, Arrive, ArriveAborts, ArrivalsAbort, SaneIfStaged, Keeps;
    KeepsSelf(n);
    if ps == [] {
      NoArrivals(bytes, n);
    } else {
      ArriveAbortsIff(bytes, n, ps[0]);
      AbortsFirstOrLater(bytes, n, ps);
      if Arrive(bytes, n, ps[0]).Ok? {
        var m := Arrive(bytes, n, ps[0]).value;
        ArriveAllAbortsIff(bytes, m, ps[1..]);
        if ArriveAll(bytes, n, ps).Ok? {
          KeepsTrans(n, m, ArriveAll(bytes, n, ps).value);
        }
      }
    }
  }

  lemma NoArrivals(bytes: Encoding, n: Node)
    ensures !ArrivalsAbort(bytes, n, [])
  {
  }

  // ----- every step

  /** The checks see the ledger, the clocks and the state log only. */
  ghost predicate Alike(n: Node, m: Node) {
    m.ledger == n.ledger && m.clock == n.clock && m.log == n.log
  }

  lemma AlikeChecks(n: Node, m: Node, p: Proposal)
    requires Alike(n, m)
    ensures Good(m) <==> Good(n)
    ensures SaneIfStaged(m, p) <==> SaneIfStaged(n, p)
    ensures Sane(m, p) <==> Sane(n, p)
    ensures ReceiveAborts(m, p) <==> ReceiveAborts(n, p)
    ensures NotReached(m, p) <==> NotReached(n, p)
  {
    hide Fresh, L.FindsTransactions, CheckParent, SlotChallenge, BlockByHeight, L.Good, T.NodeOk, LogOk;
    assert Validate(m, p) == Validate(n, p);
  }

  lemma AlikeKeeps(n: Node, m: Node, r: Node)
    requires Alike(n, m) && Keeps(m, r)
    ensures Keeps(n, r)
  {
  }

  lemma GossipAbortsIff(bytes: Encoding, n: Node, p: Proposal)
    requires Good(n) && Admissible(bytes, n, Gossip(p))
    ensures OnGossip(bytes, n, p).Panic? <==> Aborts(bytes, n, Gossip(p))
    ensures OnGossip(bytes, n, p).Ok? ==>
              Good(OnGossip(bytes, n, p).value) && Keeps(n, OnGossip(bytes, n, p).value)
  {
    hide Good, SaneIfStaged, Receive, ReceiveAborts, Keeps;
    KeepsSelf(n);
    if p.block.proofId !in n.recent {
      var m := n.(recent := n.recent + {p.block.proofId});
      AlikeChecks(n, m, p);
      KeepsSelf(m);
      AlikeKeeps(n, m, m);
      if n.clock.clock.Ticking? {
        var slot := CurrentSlot(n.clock.clock.next);
        if slot < p.block.timeslot {
          AlikeChecks(m, Postpone(m, p, slot), p);
          KeepsSelf(Postpone(m, p, slot));
          AlikeKeeps(n, Postpone(m, p, slot), Postpone(m, p, slot));
        } else {
          ReceiveAbortsIff(bytes, m, p);
          if Receive(bytes, m, p).Ok? {
            AlikeKeeps(n, m, Receive(bytes, m, p).value);
          }
        }
      }
    }
  }

  lemma LocalAbortsIff(bytes: Encoding, n: Node, p: Proposal, siblings: set<Id>)
    requires Good(n) && Admissible(bytes, n, Local(p, siblings)) && Validate(n, p) == Ok(true)
    ensures Stage(bytes, n, p).Ok? && Good(Stage(bytes, n, p).value) && Keeps(n, Stage(bytes, n, p).value)
  {
    hide Inv, T.NodeOk, LogOk, Stage, Validate, Sane, LocalParent, Keeps, SameClock;
    GoodInv(n);
    ValidatePanicsIff(n, p);
    if p.block.parent.Some? {
      LocalParentIsGuarded(n.ledger.chain, siblings, p.block);
    }
    StageAbortsIff(bytes, n, p);
  }

  lemma SyncedAbortsIff(bytes: Encoding, n: Node, p: Proposal)
    requires Good(n) && Admissible(bytes, n, Synced(p))
    ensures OnSynced(bytes, n, p).Panic? <==> Aborts(bytes, n, Synced(p))
    ensures OnSynced(bytes, n, p).Ok? ==>
              Good(OnSynced(bytes, n, p).value) && Keeps(n, OnSynced(bytes, n, p).value)
  {
    hide Good, Stage, Validate, Sane, Keeps, SameClock, ValidatedInSync, ValidationAborts, NotReached;
    KeepsSelf(n);
    ValidatePanicsIff(n, p);
    if n.clock.clock.Syncing? {
      var seen := if p.block.timeslot == n.clock.clock.timeslot then {p.block.proofId} else {};
      var m := n.(recent := n.recent + seen);
      AlikeChecks(n, m, p);
      StageAbortsIff(bytes, m, p);
      if Stage(bytes, m, p).Ok? {
        AlikeKeeps(n, m, Stage(bytes, m, p).value);
      }
    }
  }

  lemma TickAbortsIff(bytes: Encoding, n: Node)
    requires Good(n) && SaneArrivals(bytes, n, Due(n))
    ensures OnTick(bytes, n).Panic? <==> ArrivalsAbort(bytes, n, Due(n))
    ensures OnTick(bytes, n).Ok? ==> Good(OnTick(bytes, n).value) && Keeps(n, OnTick(bytes, n).value)
  {
    hide L.Good, T.NodeOk, LogOk, ArriveAll, ArrivalsAbort, SaneArrivals, Settles, KeepsClosed, OnClock;
    KeepsSelf(n);
    NoArrivals(bytes, n);
    ArriveAllAbortsIff(bytes, n, Due(n));
    if n.clock.clock.Ticking? && ArriveAll(bytes, n, Due(n)).Ok? {
      var m := ArriveAll(bytes, n, Due(n)).value;
      var r := m.(early := m.early - {n.clock.clock.next});
      ClockStep(r, T.Tick);
      assert Keeps(r, OnClock(r, T.Tick).value) by { SettlesGood(r.ledger); }
      AlikeKeeps(m, r, OnClock(r, T.Tick).value);
      KeepsTrans(n, m, OnClock(r, T.Tick).value);
    }
  }

  /**
   * An admissible event aborts the whole node exactly when `Aborts` says so; otherwise
   * ledger, state log, tracker and clocks keep all their invariants, what is confirmed
   * stays confirmed and what is closed stays closed.
   */
  lemma StepAbortsIff(bytes: Encoding, n: Node, e: Event)
    requires Good(n) && Admissible(bytes, n, e)
    ensures Step(bytes, n, e).Panic? <==> Aborts(bytes, n, e)
    ensures Step(bytes, n, e).Ok? ==> Good(Step(bytes, n, e).value) && Keeps(n, Step(bytes, n, e).value)
  {
    hide Good, OnGossip, OnSynced, OnTick, OnClock, OnLedger, Stage, Validate, ArrivalsAbort, SaneArrivals, Keeps, Sane;
    match e
    case Gossip(p) => GossipAbortsIff(bytes, n, p);
    case Local(p, siblings) =>
      if Validate(n, p) == Ok(true) {
        LocalAbortsIff(bytes, n, p, siblings);
      }
    case Synced(p) => SyncedAbortsIff(bytes, n, p);
    case Credit(tx, signed) => CreditStep(n, L.CreditProposal(tx, signed));
    case SyncedCredit(tx) => CreditStep(n, L.SyncedCredit(tx));
    case NextSyncSlot => ClockKeeps(n, T.NextSyncSlot);
    case StartTimer => ClockKeeps(n, T.StartTimer);
    case Tick => TickAbortsIff(bytes, n);
  }

  lemma CreditStep(n: Node, e: L.Event)
    requires Good(n) && L.Admissible(n.ledger, e) && (e.CreditProposal? || e.SyncedCredit?)
    ensures OnLedger(n, e).Ok? && Good(OnLedger(n, e).value) && Keeps(n, OnLedger(n, e).value)
  {
    hide L.Good, T.NodeOk, LogOk, L.Step, Settles, KeepsClosed;
    L.StepIsGood(n.ledger, e);
    T.KeepsClosedSelf(n.clock.tracker);
  }

  lemma ClockKeeps(n: Node, e: T.Event)
    requires Good(n) && !e.StageProof?
    ensures OnClock(n, e).Ok? && Good(OnClock(n, e).value) && Keeps(n, OnClock(n, e).value)
  {
    hide L.Good, T.NodeOk, LogOk, OnClock, Settles, KeepsClosed;
    ClockStep(n, e);
    SettlesGood(n.ledger);
  }

  // ----- the epoch boundary

  lemma {:induction false} ArrivalAborts(bytes: Encoding, n: Node, ps: seq<Proposal>, i: nat)
    requires Good(n) && SaneArrivals(bytes, n, ps) && i < |ps| && NotReached(n, ps[i])
    ensures ArriveAll(bytes, n, ps).Panic?
    decreases |ps|
  {
    hide Good, Arrive, ArriveAborts, SaneIfStaged, Keeps;
    ArriveAbortsIff(bytes, n, ps[0]);
    if i == 0 {
      assert ArriveAborts(n, ps[0]) by { EarlyEpochAborts(n, ps[0]); }
    } else if Arrive(bytes, n, ps[0]).Ok? {
      ArrivalAborts(bytes, Arrive(bytes, n, ps[0]).value, ps[1..], i - 1);
    }
  }

  lemma EarlyEpochAborts(n: Node, p: Proposal)
    requires NotReached(n, p)
    ensures ArriveAborts(n, p)
  {
  }

  /**
   * The early blocks of a slot are validated before the round opens the epoch of that
   * slot.  So when the first slot of an epoch comes and the tracker is still on the
   * epoch before, any block kept for it that rightly claims the new epoch aborts the node.
   */
  lemma BoundaryBlockAborts(bytes: Encoding, n: Node, p: Proposal)
    requires Good(n) && n.clock.clock.Ticking? && SaneArrivals(bytes, n, Due(n)) && p in Due(n)
    requires p.epoch == n.clock.clock.next / T.TIMESLOTS_PER_EPOCH
    requires n.clock.tracker.currentEpoch < n.clock.clock.next / T.TIMESLOTS_PER_EPOCH
    ensures n.clock.clock.next % T.TIMESLOTS_PER_EPOCH == 0 && n.clock.tracker.currentEpoch + 1 == p.epoch
    ensures Step(bytes, n, Tick).Panic?
  {
    hide L.Good, LogOk, ArriveAll, SaneArrivals;
    var i :| 0 <= i < |Due(n)| && Due(n)[i] == p;
    ArrivalAborts(bytes, n, Due(n), i);
  }

  // ----- every run

  /** A run of the whole node from its start, by admissible events. */
  ghost predicate Run(bytes: Encoding, gateway: bool, log: Log, states: seq<Node>, events: seq<Event>) {
    && |states| == |events| + 1 && states[0] == Start(gateway, log) && LogOk(log)
    && forall i :: 0 <= i < |events| ==>
         Admissible(bytes, states[i], events[i]) && Step(bytes, states[i], events[i]) == Ok(states[i + 1])
  }

  lemma {:induction false} RunIsGood(bytes: Encoding, gateway: bool, log: Log, states: seq<Node>, events: seq<Event>,
                                     i: nat)
    requires Run(bytes, gateway, log, states, events) && i < |states|
    ensures Good(states[i])
  {
    hide Good, Step, Admissible, Aborts;
    if i == 0 {
      StartIsGood(gateway, log);
    } else {
      RunIsGood(bytes, gateway, log, states, events, i - 1);
      StepAbortsIff(bytes, states[i - 1], events[i - 1]);
    }
  }

  lemma StartIsGood(gateway: bool, log: Log)
    requires LogOk(log)
    ensures Good(Start(gateway, log))
  {
    hide L.Good, T.NodeOk, LogOk;
    L.GenesisIsGood();
    T.StartIsOkNode(gateway);
  }

  /** From every state of a run of the whole node, an admissible event aborts it exactly when `Aborts` says so. */
  lemma AbortsIff(bytes: Encoding, gateway: bool, log: Log, states: seq<Node>, events: seq<Event>, e: Event)
    requires Run(bytes, gateway, log, states, events) && Admissible(bytes, states[|events|], e)
    ensures Step(bytes, states[|events|], e).Panic? <==> Aborts(bytes, states[|events|], e)
  {
    hide Good, Step, Admissible, Aborts;
    RunIsGood(bytes, gateway, log, states, events, |events|);
    StepAbortsIff(bytes, states[|events|], e);
  }

  /** Finality and stable challenges of the whole node over any stretch of a run, whatever blocks it is sent. */
  lemma {:induction false} RunIsFinal(bytes: Encoding, gateway: bool, log: Log, states: seq<Node>, events: seq<Event>,
                                      i: nat, j: nat)
    requires Run(bytes, gateway, log, states, events) && i <= j < |states|
    ensures Keeps(states[i], states[j])
    decreases j
  {
    hide Good, Step, Admissible, Aborts, Keeps;
    RunIsGood(bytes, gateway, log, states, events, i);
    if i < j {
      RunIsFinal(bytes, gateway, log, states, events, i, j - 1);
      RunIsGood(bytes, gateway, log, states, events, j - 1);
      StepAbortsIff(bytes, states[j - 1], events[j - 1]);
      KeepsTrans(states[i], states[j - 1], states[j]);
    } else {
      KeepsSelf(states[i]);
    }
  }
}
