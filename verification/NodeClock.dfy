/** The clocks of the whole node: which blocks reach the epoch tracker, and which challenges they lead to. */
module NodeClock {
  import opened Basics
  import opened MetaBlocks
  import opened Staging
  import opened Finality
  import opened StateLog
  import opened WholeNode
  import opened NodeRuns
  import opened Intake
  import L = LedgerRuns
  import T = Timer
  import C = Challenges

  // ----- what each event does to the clocks

  /** The proof of the parent block, or the genesis challenge for a block on genesis. */
  ghost predicate IsParentProof(m: Store, b: Block, x: Id) {
    b.parent.Some? &&
    if b.parent.value == GENESIS_CHALLENGE then x == GENESIS_CHALLENGE
    else x in m.blocks && m.blocks[x].block.contentId == b.parent.value
  }

  /** A staged proposer block is filed in the epoch it claims, under its own proof and below that of its parent. */
  ghost predicate Files(m: Store, p: Proposal, e: T.Event) {
    e.StageProof? && e.epoch == p.epoch && e.id == p.block.proofId && IsParentProof(m, p.block, e.parent)
  }

  ghost predicate FilesOne(m: Store, p: Proposal, es: seq<T.Event>) {
    if p.block.parent.None? then es == [] else |es| == 1 && Files(m, p, es[0])
  }

  /** The clock events of a step: what it files of the blocks it stages, and its own tick. */
  ghost predicate Drives(bytes: Encoding, n: Node, e: Event, es: seq<T.Event>) {
    match e
    case Gossip(p) =>
      if ChecksGossip(n, p) && Acceptable(n, p) then FilesOne(n.ledger.chain.store, p, es) else es == []
    case Local(p, _) => FilesOne(n.ledger.chain.store, p, es)
    case Synced(p) => if n.clock.clock.Syncing? then FilesOne(n.ledger.chain.store, p, es) else es == []
    case NextSyncSlot => es == [T.NextSyncSlot]
    case StartTimer => es == [T.StartTimer]
    case Tick =>
      es != [] && es[|es| - 1] == T.Tick && FilesArrivals(bytes, n, Due(n), es[..|es| - 1])
    case _ => es == []
  }

  ghost predicate FilesArrivals(bytes: Encoding, n: Node, ps: seq<Proposal>, es: seq<T.Event>)
    decreases |ps|
  {
    if ps == [] then es == []
    else
      && Arrive(bytes, n, ps[0]).Ok?
      && exists k: nat :: k <= |es| && FilesFirst(n, ps[0], es[..k])
                          && FilesArrivals(bytes, Arrive(bytes, n, ps[0]).value, ps[1..], es[k..])
  }

  ghost predicate FilesFirst(n: Node, p: Proposal, es: seq<T.Event>) {
    if Acceptable(n, p) then FilesOne(n.ledger.chain.store, p, es) else es == []
  }

  // ----- staging

  lemma {:induction false} RunAppend(n: T.Node, a: seq<T.Event>, b: seq<T.Event>)
    requires T.Run(n, a).Ok?
    ensures T.Run(n, a + b) == T.Run(T.Run(n, a).value, b)
  {
    hide T.Step;
    if b == [] {
      assert a + b == a;
    } else {
      assert (a + b)[..|a + b| - 1] == a + b[..|b| - 1];
      RunAppend(n, a, b[..|b| - 1]);
    }
  }

  lemma RunOne(n: T.Node, e: T.Event)
    ensures T.Run(n, [e]) == T.Step(n, e)
  {
    hide T.Step;
    assert [e][..0] == [] && T.Run(n, []) == Ok(n);
  }

  lemma StageFiles(bytes: Encoding, n: Node, p: Proposal) returns (es: seq<T.Event>)
    requires Good(n) && Stage(bytes, n, p).Ok? && (p.block.parent.Some? ==> Guarded(n.ledger.chain, p.block))
    ensures FilesOne(n.ledger.chain.store, p, es) && T.Run(n.clock, es) == Ok(Stage(bytes, n, p).value.clock)
  {
    hide T.NodeOk, LogOk, L.Step, AddRecords, T.Step;
    if p.block.parent.None? {
      es := [];
    } else {
      var e := T.StageProof(p.epoch, ParentProofId(n.ledger.chain.store, p.block), p.block.proofId);
      es := [e];
      RunOne(n.clock, e);
      ParentIsFiled(n, p.block);
    }
  }

  lemma ParentIsFiled(n: Node, b: Block)
    requires Good(n) && Guarded(n.ledger.chain, b)
    ensures IsParentProof(n.ledger.chain.store, b, ParentProofId(n.ledger.chain.store, b))
  {
    hide T.NodeOk, LogOk, Inv;
    GoodInv(n);
    InvLinked(n.ledger.chain);
  }

  // ----- every step

  lemma ArriveFiles(bytes: Encoding, n: Node, p: Proposal) returns (es: seq<T.Event>)
    requires Good(n) && SaneIfStaged(n, p) && Arrive(bytes, n, p).Ok?
    ensures FilesFirst(n, p, es) && T.Run(n.clock, es) == Ok(Arrive(bytes, n, p).value.clock)
  {
    hide Good, Sane, Stage, Valid, Validate, CheckParent, TxParent, FilesOne, T.Step;
    AcceptableIff(n, p);
    es := [];
    if Passes(n, p) {
      PassesShape(n, p);
      StageAbortsIff(bytes, n, p);
      es := StageFiles(bytes, n, p);
    }
  }

  lemma {:induction false} ArrivalsFile(bytes: Encoding, n: Node, ps: seq<Proposal>) returns (es: seq<T.Event>)
    requires Good(n) && SaneArrivals(bytes, n, ps) && ArriveAll(bytes, n, ps).Ok?
    ensures FilesArrivals(bytes, n, ps, es) && T.Run(n.clock, es) == Ok(ArriveAll(bytes, n, ps).value.clock)
    decreases |ps|
  {
    hide Good, Arrive, SaneIfStaged, T.Step, FilesFirst, Keeps, SameClock;
    es := [];
    if ps != [] {
      ArriveAbortsIff(bytes, n, ps[0]);
      var first := ArriveFiles(bytes, n, ps[0]);
      var m := Arrive(bytes, n, ps[0]).value;
      var rest := ArrivalsFile(bytes, m, ps[1..]);
      es := first + rest;
      RunAppend(n.clock, first, rest);
      assert es[..|first|] == first && es[|first|..] == rest;
    }
  }

  lemma GossipDrives(bytes: Encoding, n: Node, p: Proposal) returns (es: seq<T.Event>)
    requires Good(n) && Admissible(bytes, n, Gossip(p)) && OnGossip(bytes, n, p).Ok?
    ensures Drives(bytes, n, Gossip(p), es) && T.Run(n.clock, es) == Ok(OnGossip(bytes, n, p).value.clock)
  {
    hide Good, Sane, Stage, Acceptable, Validate, CheckParent, TxParent, FilesOne, Gains, Postpone, T.Step;
    es := [];
    if ChecksGossip(n, p) && Acceptable(n, p) {
      AcceptableIff(n, p);
      var m := n.(recent := n.recent + {p.block.proofId});
      AlikeChecks(n, m, p);
      AlikePasses(n, m, p);
      PassesShape(m, p);
      StageAbortsIff(bytes, m, p);
      es := StageFiles(bytes, m, p);
    } else {
      GossipTakesIff(bytes, n, p);
    }
  }

  lemma TickDrives(bytes: Encoding, n: Node) returns (es: seq<T.Event>)
    requires Good(n) && SaneArrivals(bytes, n, Due(n)) && OnTick(bytes, n).Ok?
    ensures Drives(bytes, n, Tick, es) && T.Run(n.clock, es) == Ok(OnTick(bytes, n).value.clock)
  {
    hide Good, SaneArrivals, FilesArrivals, ArriveAll;
    if n.clock.clock.Syncing? {
      es := [T.Tick];
      RunOne(n.clock, T.Tick);
      NothingFiled(bytes, n);
      assert es[..0] == [];
    } else {
      var filed := ArrivalsFile(bytes, n, Due(n));
      es := filed + [T.Tick];
      RunAppend(n.clock, filed, [T.Tick]);
      RunOne(ArriveAll(bytes, n, Due(n)).value.clock, T.Tick);
      assert es[..|filed|] == filed;
    }
  }

  lemma NothingFiled(bytes: Encoding, n: Node)
    ensures FilesArrivals(bytes, n, [], [])
  {
  }

  lemma StepDrives(bytes: Encoding, n: Node, e: Event) returns (es: seq<T.Event>)
    requires Good(n) && Admissible(bytes, n, e) && Step(bytes, n, e).Ok?
    ensures Drives(bytes, n, e, es) && T.Run(n.clock, es) == Ok(Step(bytes, n, e).value.clock)
  {
    hide Good, OnGossip, OnTick, Stage, T.Step, FilesOne, Validate, L.Step, FilesArrivals, Guarded, Sane,
         ValidatedInSync, Acceptable, ChecksGossip, SaneArrivals;
    es := [];
    match e
    case Gossip(p) => es := GossipDrives(bytes, n, p);
    case Local(p, siblings) =>
      LocalIsGuarded(bytes, n, p, siblings);
      es := StageFiles(bytes, n, p);
    case Synced(p) =>
      if n.clock.clock.Syncing? {
        var seen := if p.block.timeslot == n.clock.clock.timeslot then {p.block.proofId} else {};
        var m := n.(recent := n.recent + seen);
        AlikeChecks(n, m, p);
        es := StageFiles(bytes, m, p);
      }
    case NextSyncSlot =>
      es := [T.NextSyncSlot];
      RunOne(n.clock, T.NextSyncSlot);
    case StartTimer =>
      es := [T.StartTimer];
      RunOne(n.clock, T.StartTimer);
    case Tick => es := TickDrives(bytes, n);
    case _ =>
  }

  // ----- every run

  /** The clock events of the first `i` steps of a run. */
  ghost predicate IsTrace(bytes: Encoding, states: seq<Node>, events: seq<Event>, i: nat, trace: seq<T.Event>)
    requires i <= |events| < |states|
  {
    if i == 0 then trace == []
    else
      exists k: nat :: k <= |trace| && IsTrace(bytes, states, events, i - 1, trace[..k])
                       && Drives(bytes, states[i - 1], events[i - 1], trace[k..])
  }

  /**
   * In every run of the whole node the tracker and the clocks are those of a run of the
   * timer in which exactly the proposer blocks staged so far were filed, each when it
   * was staged, in the epoch it claims, under its proof and below the proof of its parent.
   */
  lemma {:induction false} ClocksFollowBlocks(bytes: Encoding, gateway: bool, log: Log, states: seq<Node>,
                                              events: seq<Event>, i: nat)
      returns (trace: seq<T.Event>)
    requires Run(bytes, gateway, log, states, events) && i < |states|
    ensures IsTrace(bytes, states, events, i, trace)
    ensures T.Run(T.Start(gateway), trace) == Ok(states[i].clock)
  {
    hide Good, Step, Admissible, Drives, T.Step;
    trace := [];
    if i > 0 {
      RunIsGood(bytes, gateway, log, states, events, i - 1);
      var before := ClocksFollowBlocks(bytes, gateway, log, states, events, i - 1);
      assert Admissible(bytes, states[i - 1], events[i - 1]);
      assert Step(bytes, states[i - 1], events[i - 1]) == Ok(states[i]);
      var es := StepDrives(bytes, states[i - 1], events[i - 1]);
      trace := before + es;
      RunAppend(T.Start(gateway), before, es);
      assert trace[..|before|] == before && trace[|before|..] == es;
    }
  }

  /**
   * Every challenge the whole node announces is the genesis seed in epoch 0 and later
   * decided by the proposer blocks the node staged for the epoch before; and the slot of
   * the ledger is the one announced last.
   */
  lemma NodeAnnounces(bytes: Encoding, gateway: bool, log: Log, states: seq<Node>, events: seq<Event>, i: nat)
      returns (trace: seq<T.Event>)
    requires Run(bytes, gateway, log, states, events) && i < |states|
    ensures IsTrace(bytes, states, events, i, trace) && C.ClockIs(states[i].clock, gateway, trace)
    ensures forall m :: m in states[i].clock.sent ==>
              m.challenge.timeslot == m.timeslot && C.ChallengeIs(gateway, trace, m.epoch, m.challenge.randomness)
    ensures states[i].clock.sent != [] ==>
              && states[i].clock.clock.Ticking?
              && CurrentSlot(states[i].clock.clock.next) ==
                   states[i].clock.sent[|states[i].clock.sent| - 1].timeslot
  {
    hide Run, IsTrace, C.ClockIs, C.ChallengeIs;
    trace := ClocksFollowBlocks(bytes, gateway, log, states, events, i);
    C.SlotsAnnounced(gateway, trace);
    var n := states[i].clock;
    forall m | m in n.sent
      ensures m.challenge.timeslot == m.timeslot && C.ChallengeIs(gateway, trace, m.epoch, m.challenge.randomness)
    {
      var k :| 0 <= k < |n.sent| && n.sent[k] == m;
      C.AnnouncedChallenge(gateway, trace, k);
    }
    T.EveryRunIsInStep(gateway, trace);
  }
}
