/** What a node remembers of gossip: the proofs it has seen, and the blocks it keeps for their timeslot. */
module EarlyBlocks {
  import opened Basics
  import opened StateLog
  import opened WholeNode
  import opened NodeRuns
  import opened Intake
  import L = LedgerRuns
  import T = Timer

  // ----- what staging leaves alone

  ghost predicate SameMemory(n: Node, m: Node) {
    m.recent == n.recent && m.early == n.early && m.clock.clock == n.clock.clock
  }

  lemma StageFrame(bytes: Encoding, n: Node, p: Proposal)
    requires Stage(bytes, n, p).Ok?
    ensures SameMemory(n, Stage(bytes, n, p).value)
  {
    hide L.Step, AddRecords;
  }

  lemma {:induction false} ArriveAllFrame(bytes: Encoding, n: Node, ps: seq<Proposal>)
    requires ArriveAll(bytes, n, ps).Ok?
    ensures SameMemory(n, ArriveAll(bytes, n, ps).value)
    decreases |ps|
  {
    hide Stage;
    if ps != [] {
      if Stage(bytes, n, ps[0]).Ok? {
        StageFrame(bytes, n, ps[0]);
      }
      ArriveAllFrame(bytes, Arrive(bytes, n, ps[0]).value, ps[1..]);
    }
  }

  // ----- one step

  /** The proof an event marks as seen: that of a gossiped block, or of a synced one of the slot being synced. */
  ghost function Marked(n: Node, e: Event): (r: set<Id>) {
    match e
    case Gossip(p) => {p.block.proofId}
    case Synced(p) =>
      if n.clock.clock.Syncing? && p.block.timeslot == n.clock.clock.timeslot then {p.block.proofId} else {}
    case _ => {}
  }

  /**
   * A gossiped block waits when its proof is new, the timer runs and its timeslot is
   * ahead, except that within the first slots of the program the lower end of the
   * window wraps around and the block is dropped.
   */
  ghost predicate Waits(n: Node, e: Event) {
    && e.Gossip? && e.proposal.block.proofId !in n.recent && n.clock.clock.Ticking?
    && var slot, t := CurrentSlot(n.clock.clock.next), e.proposal.block.timeslot;
       slot < t && (slot >= MAX_EARLY_TIMESLOTS || t >= slot + TWO_64 - MAX_EARLY_TIMESLOTS)
  }

  ghost function KeptFor(n: Node, t: nat): (ps: seq<Proposal>) {
    if t in n.early then n.early[t] else []
  }

  /** The clock runs on by a round of the timer only, and never back to sync. */
  ghost predicate ClockRuns(n: Node, e: Event, m: Node) {
    && (n.clock.clock.Ticking? ==>
          m.clock.clock.Ticking? && m.clock.clock.next == n.clock.clock.next + if e.Tick? then 1 else 0)
    && (n.clock.clock.Syncing? && m.clock.clock.Ticking? ==> e.StartTimer?)
  }

  ghost function Waiting(n: Node, e: Event, t: nat): (ps: seq<Proposal>) {
    if Waits(n, e) && e.proposal.block.timeslot == t then [e.proposal] else []
  }

  /** A waiting block comes last among those kept for its slot; a round empties its own slot. */
  ghost predicate Remembers(n: Node, e: Event, m: Node) {
    && m.recent == n.recent + Marked(n, e)
    && (forall t :: KeptFor(m, t) ==
          if e.Tick? && n.clock.clock.Ticking? && t == n.clock.clock.next then []
          else KeptFor(n, t) + Waiting(n, e, t))
  }

  lemma PostponeKeeps(n: Node, p: Proposal, slot: nat, t: nat)
    requires slot < p.block.timeslot
    ensures
      var u := p.block.timeslot;
      KeptFor(Postpone(n, p, slot), t) ==
        KeptFor(n, t) +
        if t == u && (slot >= MAX_EARLY_TIMESLOTS || u >= slot + TWO_64 - MAX_EARLY_TIMESLOTS) then [p] else []
  {
    if slot >= MAX_EARLY_TIMESLOTS {
      assert (slot - MAX_EARLY_TIMESLOTS) % TWO_64 <= slot - MAX_EARLY_TIMESLOTS;
    } else {
      assert (slot - MAX_EARLY_TIMESLOTS) % TWO_64 == slot + TWO_64 - MAX_EARLY_TIMESLOTS;
    }
  }

  lemma GossipRemembers(bytes: Encoding, n: Node, p: Proposal)
    requires OnGossip(bytes, n, p).Ok?
    ensures Remembers(n, Gossip(p), OnGossip(bytes, n, p).value) && ClockRuns(n, Gossip(p), OnGossip(bytes, n, p).value)
  {
    hide Stage, Validate, Finality.CheckParent, Postpone;
    if p.block.proofId !in n.recent {
      var m := n.(recent := n.recent + {p.block.proofId});
      if Stage(bytes, m, p).Ok? {
        StageFrame(bytes, m, p);
      }
      if n.clock.clock.Ticking? && CurrentSlot(n.clock.clock.next) < p.block.timeslot {
        forall t: nat { PostponeKeeps(m, p, CurrentSlot(n.clock.clock.next), t); }
        PostponeSame(m, p, CurrentSlot(n.clock.clock.next));
      }
    }
  }

  lemma PostponeSame(n: Node, p: Proposal, slot: nat)
    ensures var m := Postpone(n, p, slot); m.recent == n.recent && m.clock == n.clock
  {
  }

  lemma TickRemembers(bytes: Encoding, n: Node)
    requires OnTick(bytes, n).Ok?
    ensures Remembers(n, Tick, OnTick(bytes, n).value) && ClockRuns(n, Tick, OnTick(bytes, n).value)
  {
    hide ArriveAll, T.TimerRound;
    if n.clock.clock.Ticking? {
      ArriveAllFrame(bytes, n, Due(n));
    }
  }

  lemma StepRemembers(bytes: Encoding, n: Node, e: Event)
    requires Step(bytes, n, e).Ok?
    ensures Remembers(n, e, Step(bytes, n, e).value) && ClockRuns(n, e, Step(bytes, n, e).value)
  {
    hide OnGossip, OnTick, Stage, Validate, L.Step, ValidatedInSync, T.SyncSlot;
    match e
    case Gossip(p) => GossipRemembers(bytes, n, p);
    case Local(p, _) => StageFrame(bytes, n, p);
    case Synced(p) =>
      if n.clock.clock.Syncing? {
        StageFrame(bytes, n.(recent := n.recent + Marked(n, e)), p);
      }
    case Tick => TickRemembers(bytes, n);
    case _ =>
  }

  // ----- every run

  ghost predicate Seen(states: seq<Node>, events: seq<Event>, i: nat, x: Id)
    requires i <= |events| < |states|
  {
    exists j: nat :: j < i && x in Marked(states[j], events[j])
  }

  /** In every run the node has seen exactly the proofs of the blocks gossiped or synced in time so far. */
  lemma {:induction false} RecentIs(bytes: Encoding, gateway: bool, log: Log, states: seq<Node>, events: seq<Event>,
                                    i: nat, x: Id)
    requires Run(bytes, gateway, log, states, events) && i < |states|
    ensures x in states[i].recent <==> Seen(states, events, i, x)
  {
    hide Step, Admissible, Marked;
    if i > 0 {
      RecentIs(bytes, gateway, log, states, events, i - 1, x);
      assert Step(bytes, states[i - 1], events[i - 1]) == Ok(states[i]);
      StepRemembers(bytes, states[i - 1], events[i - 1]);
      if Seen(states, events, i - 1, x) {
        var j: nat :| j < i - 1 && x in Marked(states[j], events[j]);
        assert Seen(states, events, i, x);
      }
    }
  }

  /** A block gossiped again changes nothing. */
  lemma GossipOnce(bytes: Encoding, gateway: bool, log: Log, states: seq<Node>, events: seq<Event>, i: nat, j: nat)
    requires Run(bytes, gateway, log, states, events) && i < j < |events| && events[i].Gossip? && events[j].Gossip?
    requires events[i].proposal.block.proofId == events[j].proposal.block.proofId
    ensures states[j + 1] == states[j]
  {
    hide Admissible, Receive, Postpone, Marked;
    RecentIs(bytes, gateway, log, states, events, j, events[j].proposal.block.proofId);
    assert events[j].proposal.block.proofId in Marked(states[i], events[i]) by { GossipMarks(states[i], events[i]); }
    assert Step(bytes, states[j], events[j]) == Ok(states[j + 1]);
  }

  lemma GossipMarks(n: Node, e: Event)
    requires e.Gossip?
    ensures e.proposal.block.proofId in Marked(n, e)
  {
  }

  /** The blocks gossiped ahead of a slot so far, in the order they came. */
  ghost function Postponed(states: seq<Node>, events: seq<Event>, i: nat, t: nat): (ps: seq<Proposal>)
    requires i <= |events| < |states|
  {
    if i == 0 then [] else Postponed(states, events, i - 1, t) + Waiting(states[i - 1], events[i - 1], t)
  }

  /** The timer has not come to a slot yet. */
  ghost predicate Ahead(n: Node, t: nat) {
    n.clock.clock.Ticking? && n.clock.clock.next <= t
  }

  ghost predicate KeepsFor(states: seq<Node>, events: seq<Event>, i: nat, t: nat)
    requires i <= |events| < |states|
  {
    && KeptFor(states[i], t) == (if Ahead(states[i], t) then Postponed(states, events, i, t) else [])
    && (states[i].clock.clock.Syncing? ==> Postponed(states, events, i, t) == [])
  }

  lemma WaitsAhead(n: Node, e: Event)
    requires Waits(n, e)
    ensures n.clock.clock.Ticking? && n.clock.clock.next <= e.proposal.block.timeslot
  {
  }

  /**
   * In every run, what the node keeps for a slot is exactly the blocks that were
   * gossiped ahead of it, in the order they came, until the round of that slot; then,
   * and before the timer runs, nothing.
   */
  lemma {:induction false} EarlyBlocksWait(bytes: Encoding, gateway: bool, log: Log, states: seq<Node>,
                                           events: seq<Event>, i: nat, t: nat)
    requires Run(bytes, gateway, log, states, events) && i < |states|
    ensures KeepsFor(states, events, i, t)
  {
    hide Step, Admissible, Marked, Waits;
    if i > 0 {
      var n, e, m := states[i - 1], events[i - 1], states[i];
      EarlyBlocksWait(bytes, gateway, log, states, events, i - 1, t);
      assert Step(bytes, n, e) == Ok(m);
      StepRemembers(bytes, n, e);
      if Waits(n, e) {
        WaitsAhead(n, e);
      }
    }
  }

  /** In every run the round of a slot processes exactly the blocks that were gossiped ahead of it. */
  lemma DueWereGossiped(bytes: Encoding, gateway: bool, log: Log, states: seq<Node>, events: seq<Event>, i: nat)
    requires Run(bytes, gateway, log, states, events) && i < |events| && states[i].clock.clock.Ticking?
    ensures Due(states[i]) == Postponed(states, events, i, states[i].clock.clock.next)
    ensures forall p :: p in Due(states[i]) ==>
              && p.block.timeslot == states[i].clock.clock.next
              && exists j: nat :: j < i && events[j] == Gossip(p) && Waits(states[j], events[j])
  {
    hide Step, Admissible, Waits, Postponed;
    var t := states[i].clock.clock.next;
    EarlyBlocksWait(bytes, gateway, log, states, events, i, t);
    forall p | p in Due(states[i])
      ensures p.block.timeslot == t && exists j: nat :: j < i && events[j] == Gossip(p) && Waits(states[j], events[j])
    {
      var j := WhenPostponed(states, events, i, t, p);
    }
  }

  lemma {:induction false} WhenPostponed(states: seq<Node>, events: seq<Event>, i: nat, t: nat, p: Proposal)
      returns (j: nat)
    requires i <= |events| < |states| && p in Postponed(states, events, i, t)
    ensures j < i && events[j] == Gossip(p) && Waits(states[j], events[j]) && p.block.timeslot == t
  {
    if p in Waiting(states[i - 1], events[i - 1], t) {
      j := i - 1;
    } else {
      j := WhenPostponed(states, events, i - 1, t, p);
    }
  }

  /** In every run, a block gained on gossip or in a round of the timer was gossiped, and acceptable when taken in. */
  lemma GainedWasGossiped(bytes: Encoding, gateway: bool, log: Log, states: seq<Node>, events: seq<Event>, i: nat,
                          x: Id)
      returns (p: Proposal, j: nat)
    requires Run(bytes, gateway, log, states, events) && i < |events| && (events[i].Gossip? || events[i].Tick?)
    requires x !in states[i].ledger.chain.store.blocks && x in states[i + 1].ledger.chain.store.blocks
    ensures p.block.proofId == x && j <= i && events[j] == Gossip(p)
    ensures TakenOnGossip(states[i], events[i], p) || TakenOnTick(bytes, states[i], events[i], p)
  {
    hide Run, Acceptable, Waits, ChecksGossip;
    p := GainedWasAcceptable(bytes, gateway, log, states, events, i, x);
    j := i;
    if events[i].Tick? {
      DueWereGossiped(bytes, gateway, log, states, events, i);
      j :| j < i && events[j] == Gossip(p);
    }
  }
}
