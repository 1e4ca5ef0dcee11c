/** The two clocks of a node: the sync loop that catches up, and the timer that ticks. */
module Timer {
  import opened Basics
  import opened Epochs
  import opened Tracker

  const TIMESLOTS_PER_EPOCH: nat := 32

  /** Syncing at a timeslot, or ticking with the next timeslot and the timer's own epoch index. */
  datatype Clock = Syncing(timeslot: nat) | Ticking(next: nat, epochIndex: nat)

  /** What the farmer is told about a slot. */
  datatype SlotMessage = SlotMessage(epoch: nat, timeslot: nat, challenge: Challenge)

  datatype Node = Node(tracker: Tracker, clock: Clock, sent: seq<SlotMessage>)

  datatype Event =
    | NextSyncSlot
    | StartTimer
    | Tick
    | StageProof(epoch: nat, parent: Id, id: Id)

  /** The sync loop leaves a timeslot, opening a new epoch on the boundary. */
  function SyncSlot(t: Tracker, timeslot: nat): (r: Outcome<Tracker>) {
    if (timeslot + 1) % TIMESLOTS_PER_EPOCH == 0 then Advance(t) else Ok(t)
  }

  /** One round of the timer: advance on the boundary if the tracker is behind, then look up the challenge. */
  function TimerRound(t: Tracker, next: nat, epochIndex: nat): (r: Outcome<(Tracker, SlotMessage)>) {
    var advanced := if next % TIMESLOTS_PER_EPOCH == 0 && epochIndex < next / TIMESLOTS_PER_EPOCH
                    then Advance(t) else Ok(t);
    if advanced.Panic? then Panic
    else
      var index := if next % TIMESLOTS_PER_EPOCH == 0 && epochIndex < next / TIMESLOTS_PER_EPOCH
                   then advanced.value.currentEpoch else epochIndex;
      var challenge := SlotChallenge(advanced.value, index, next);
      if challenge.Panic? then Panic else Ok((advanced.value, SlotMessage(index, next, challenge.value)))
  }

  /** Events that do not fit the clock's mode leave the node alone. */
  function Step(n: Node, event: Event): (r: Outcome<Node>) {
    match event
    case NextSyncSlot =>
      if n.clock.Ticking? then Ok(n)
      else
        var t := SyncSlot(n.tracker, n.clock.timeslot);
        if t.Panic? then Panic else Ok(n.(tracker := t.value, clock := Syncing(n.clock.timeslot + 1)))
    case StartTimer =>
      if n.clock.Ticking? then Ok(n) else Ok(n.(clock := Ticking(n.clock.timeslot, n.tracker.currentEpoch)))
    case Tick =>
      if n.clock.Syncing? then Ok(n)
      else
        var r := TimerRound(n.tracker, n.clock.next, n.clock.epochIndex);
        if r.Panic? then Panic
        else Ok(Node(r.value.0, Ticking(n.clock.next + 1, r.value.1.epoch), n.sent + [r.value.1]))
    case StageProof(epoch, parent, id) =>
      var t := AddToEpoch(n.tracker, epoch, parent, id);
      if t.Panic? then Panic else Ok(n.(tracker := t.value))
  }

  function Run(n: Node, events: seq<Event>): (r: Outcome<Node>) {
    if events == [] then Ok(n)
    else
      var m := Run(n, events[..|events| - 1]);
      if m.Panic? then Panic else Step(m.value, events[|events| - 1])
  }

  const FRESH := Advance(EMPTY).value

  /** A node that joins starts syncing at timeslot 0; the gateway starts its timer at timeslot 1. */
  function Start(gateway: bool): (n: Node) {
    Node(FRESH, if gateway then Ticking(1, FRESH.currentEpoch) else Syncing(0), [])
  }

  // ----- what every step keeps

  /** The tracker is on the epoch of the slot the clock has reached. */
  ghost predicate InStep(t: Tracker, clock: Clock) {
    match clock
    case Syncing(timeslot) => t.currentEpoch == timeslot / TIMESLOTS_PER_EPOCH
    case Ticking(next, epochIndex) =>
      && t.currentEpoch == epochIndex
      && (epochIndex == next / TIMESLOTS_PER_EPOCH || (next > 0 && epochIndex == (next - 1) / TIMESLOTS_PER_EPOCH))
  }

  /** A slot sent to the farmer is numbered with its own epoch and still has the challenge it was sent with. */
  ghost predicate SentOk(t: Tracker, m: SlotMessage) {
    && m.epoch == m.timeslot / TIMESLOTS_PER_EPOCH
    && SlotChallenge(t, m.epoch, m.timeslot) == Ok(m.challenge)
  }

  ghost predicate NodeOk(n: Node) {
    && TrackerOk(n.tracker) && InStep(n.tracker, n.clock)
    && (forall i :: 0 <= i < |n.sent| ==> SentOk(n.tracker, n.sent[i]))
    && (forall i :: 0 <= i < |n.sent| - 1 ==> n.sent[i + 1].timeslot == n.sent[i].timeslot + 1)
    && (n.sent != [] ==> n.clock.Ticking? && n.clock.next == n.sent[|n.sent| - 1].timeslot + 1)
  }

  lemma SyncKeepsStep(t: Tracker, timeslot: nat)
    requires TrackerOk(t) && InStep(t, Syncing(timeslot))
    ensures SyncSlot(t, timeslot).Ok?
    ensures TrackerOk(SyncSlot(t, timeslot).value) && KeepsClosed(t, SyncSlot(t, timeslot).value)
    ensures InStep(SyncSlot(t, timeslot).value, Syncing(timeslot + 1))
  {
    hide Advance, TrackerOk, KeepsClosed;
    if (timeslot + 1) % TIMESLOTS_PER_EPOCH == 0 {
      AdvanceKeepsOk(t);
    } else {
      assert KeepsClosed(t, t) by { KeepsClosedSelf(t); }
    }
  }

  lemma KeepsClosedSelf(t: Tracker)
    ensures KeepsClosed(t, t)
  {
  }

  /** A timer round never meets a missing or open epoch, and numbers the slot with its epoch. */
  lemma RoundKeepsStep(t: Tracker, next: nat, epochIndex: nat)
    requires TrackerOk(t) && InStep(t, Ticking(next, epochIndex))
    ensures TimerRound(t, next, epochIndex).Ok?
    ensures
      var (u, m) := TimerRound(t, next, epochIndex).value;
      && TrackerOk(u) && KeepsClosed(t, u) && InStep(u, Ticking(next + 1, m.epoch))
      && SentOk(u, m) && m.timeslot == next
  {
    hide Advance, TrackerOk, KeepsClosed, SlotChallenge;
    KeepsClosedSelf(t);
    var index := next / TIMESLOTS_PER_EPOCH;
    if next % TIMESLOTS_PER_EPOCH == 0 && epochIndex < index {
      AdvanceKeepsOk(t);
      LookupIffReached(Advance(t).value, index, next);
    } else {
      LookupIffReached(t, index, next);
    }
  }

  /** What was sent stays valid as long as closed epochs are kept. */
  lemma SentStays(t: Tracker, u: Tracker, sent: seq<SlotMessage>)
    requires KeepsClosed(t, u) && forall i :: 0 <= i < |sent| ==> SentOk(t, sent[i])
    ensures forall i :: 0 <= i < |sent| ==> SentOk(u, sent[i])
  {
    hide KeepsClosed, SlotChallenge;
    forall i | 0 <= i < |sent| ensures SentOk(u, sent[i]) {
      assert SentOk(t, sent[i]);
      ChallengeIsStable(t, u, sent[i].epoch, sent[i].timeslot);
    }
  }

  /** The only fatal event is a proof for an epoch that has not been reached. */
  lemma StepKeepsOk(n: Node, event: Event)
    requires NodeOk(n)
    ensures Step(n, event).Panic? <==> event.StageProof? && event.epoch > n.tracker.currentEpoch
    ensures Step(n, event).Ok? ==> NodeOk(Step(n, event).value) && KeepsClosed(n.tracker, Step(n, event).value.tracker)
  {
    hide TrackerOk, KeepsClosed, Advance, SlotChallenge, SyncSlot, TimerRound, AddToEpoch, SentOk;
    KeepsClosedSelf(n.tracker);
    match event
    case NextSyncSlot =>
      if n.clock.Syncing? {
        SyncKeepsStep(n.tracker, n.clock.timeslot);
        SentStays(n.tracker, SyncSlot(n.tracker, n.clock.timeslot).value, n.sent);
      }
    case StartTimer =>
    case Tick =>
      if n.clock.Ticking? {
        RoundKeepsStep(n.tracker, n.clock.next, n.clock.epochIndex);
        SentStays(n.tracker, TimerRound(n.tracker, n.clock.next, n.clock.epochIndex).value.0, n.sent);
      }
    case StageProof(epoch, parent, id) =>
      UnknownEpoch(n.tracker, epoch, parent, id);
      if epoch <= n.tracker.currentEpoch {
        ProofKeepsOk(n.tracker, epoch, parent, id);
        SentStays(n.tracker, AddToEpoch(n.tracker, epoch, parent, id).value, n.sent);
      }
  }

  lemma UnknownEpoch(t: Tracker, epoch: nat, parent: Id, id: Id)
    requires TrackerOk(t)
    ensures AddToEpoch(t, epoch, parent, id).Panic? <==> epoch > t.currentEpoch
  {
    assert epoch in t.epochs <==> epoch <= t.currentEpoch;
  }

  ghost predicate ProofsReached(n: Node, events: seq<Event>) {
    forall i :: 0 <= i < |events| && events[i].StageProof? && Run(n, events[..i]).Ok? ==>
      events[i].epoch <= Run(n, events[..i]).value.tracker.currentEpoch
  }

  /**
   * In every run of either kind of node, with proofs staged at any moment, the
   * node is in step and every slot it announced carries its own epoch and a
   * challenge that never changes afterwards.  The run fails only if a proof is
   * staged for an epoch that has not been reached.
   */
  lemma {:induction false} EveryRunIsInStep(gateway: bool, events: seq<Event>)
    ensures Run(Start(gateway), events).Ok? ==> NodeOk(Run(Start(gateway), events).value)
    ensures Run(Start(gateway), events).Ok? <==> ProofsReached(Start(gateway), events)
  {
    hide TrackerOk, InStep, Step;
    var n := Start(gateway);
    if events == [] {
      StartIsOkNode(gateway);
    } else {
      var before := events[..|events| - 1];
      EveryRunIsInStep(gateway, before);
      forall i | 0 <= i < |before| ensures events[..i] == before[..i] {}
      if Run(n, before).Ok? {
        StepKeepsOk(Run(n, before).value, events[|events| - 1]);
        assert events[..|events| - 1] == before;
      }
    }
  }

  lemma StartIsOkNode(gateway: bool)
    ensures NodeOk(Start(gateway))
  {
    StartIsOk();
  }

  // ----- which proofs decide an epoch's randomness

  /** The proofs staged for an epoch, in order. */
  function StagedFor(events: seq<Event>, epoch: nat): (adds: seq<Add>) {
    if events == [] then []
    else
      var before, last := StagedFor(events[..|events| - 1], epoch), events[|events| - 1];
      if last.StageProof? && last.epoch == epoch then before + [Add(last.parent, last.id)] else before
  }

  /** The open epoch holds exactly the proofs staged for it, and no proof was staged for a later one. */
  ghost predicate HoldsStaged(t: Tracker, events: seq<Event>) {
    && t.currentEpoch in t.epochs
    && t.epochs[t.currentEpoch].branches == BranchesOf(StagedFor(events, t.currentEpoch))
    && (forall epoch :: epoch > t.currentEpoch ==> StagedFor(events, epoch) == [])
  }

  lemma AdvanceHolds(t: Tracker, events: seq<Event>)
    requires TrackerOk(t) && HoldsStaged(t, events)
    ensures Advance(t).Ok? && HoldsStaged(Advance(t).value, events)
  {
    hide StagedFor;
    AdvanceKeepsOk(t);
    assert StagedFor(events, t.currentEpoch + 1) == [];
  }

  lemma AddHolds(t: Tracker, events: seq<Event>, epoch: nat, parent: Id, id: Id)
    requires TrackerOk(t) && HoldsStaged(t, events) && epoch <= t.currentEpoch
    ensures AddToEpoch(t, epoch, parent, id).Ok?
    ensures HoldsStaged(AddToEpoch(t, epoch, parent, id).value, events + [StageProof(epoch, parent, id)])
  {
    hide StagedFor, AddToBranches;
    ProofKeepsOk(t, epoch, parent, id);
    var longer := events + [StageProof(epoch, parent, id)];
    forall e: nat
      ensures StagedFor(longer, e) ==
              if e == epoch then StagedFor(events, e) + [Add(parent, id)] else StagedFor(events, e)
    {
      StagedStep(events, StageProof(epoch, parent, id), e);
    }
    BranchesStep(StagedFor(events, epoch), Add(parent, id));
  }

  lemma StagedStep(events: seq<Event>, event: Event, e: nat)
    ensures StagedFor(events + [event], e) ==
            if event.StageProof? && event.epoch == e then StagedFor(events, e) + [Add(event.parent, event.id)]
            else StagedFor(events, e)
  {
    assert (events + [event])[..|events|] == events;
  }

  lemma StepHolds(n: Node, events: seq<Event>, event: Event)
    requires NodeOk(n) && HoldsStaged(n.tracker, events) && Step(n, event).Ok?
    ensures HoldsStaged(Step(n, event).value.tracker, events + [event])
  {
    hide TrackerOk, Advance, SlotChallenge, AddToEpoch, SentOk, StagedFor, HoldsStaged;
    StepKeepsOk(n, event);
    AdvanceHolds(n.tracker, events);
    match event
    case StageProof(epoch, parent, id) => AddHolds(n.tracker, events, epoch, parent, id);
    case NextSyncSlot => HoldsOn(Step(n, event).value.tracker, events, event);
    case StartTimer => HoldsOn(n.tracker, events, event);
    case Tick => HoldsOn(Step(n, event).value.tracker, events, event);
  }

  lemma HoldsOn(t: Tracker, events: seq<Event>, event: Event)
    requires HoldsStaged(t, events) && !event.StageProof?
    ensures HoldsStaged(t, events + [event])
  {
    hide StagedFor, BranchesOf;
    forall e: nat ensures StagedFor(events + [event], e) == StagedFor(events, e) {
      StagedStep(events, event, e);
    }
  }

  lemma {:induction false} RunHolds(gateway: bool, events: seq<Event>)
    requires Run(Start(gateway), events).Ok?
    ensures HoldsStaged(Run(Start(gateway), events).value.tracker, events)
  {
    hide Step, HoldsStaged, NodeOk;
    if events == [] {
      StartHolds(gateway);
    } else {
      var before, last := events[..|events| - 1], events[|events| - 1];
      RunHolds(gateway, before);
      EveryRunIsInStep(gateway, before);
      StepHolds(Run(Start(gateway), before).value, before, last);
      assert before + [last] == events;
    }
  }

  lemma StartHolds(gateway: bool)
    ensures HoldsStaged(Start(gateway).tracker, [])
  {
  }

  lemma {:induction false} RunKeepsClosed(gateway: bool, events: seq<Event>, more: seq<Event>)
    requires Run(Start(gateway), events + more).Ok?
    ensures Run(Start(gateway), events).Ok?
    ensures KeepsClosed(Run(Start(gateway), events).value.tracker, Run(Start(gateway), events + more).value.tracker)
  {
    hide Step, KeepsClosed, NodeOk;
    if more == [] {
      assert events + more == events;
      KeepsClosedSelf(Run(Start(gateway), events).value.tracker);
    } else {
      var less := more[..|more| - 1];
      assert (events + more)[..|events + more| - 1] == events + less;
      RunKeepsClosed(gateway, events, less);
      EveryRunIsInStep(gateway, events + less);
      var mid := Run(Start(gateway), events + less).value;
      StepKeepsOk(mid, more[|more| - 1]);
      KeepsClosedTrans(Run(Start(gateway), events).value.tracker, mid.tracker,
                       Run(Start(gateway), events + more).value.tracker);
    }
  }

  lemma ClosingStep(n: Node, event: Event)
    requires NodeOk(n) && Step(n, event).Ok? && Step(n, event).value.tracker.currentEpoch == n.tracker.currentEpoch + 1
    ensures Advance(n.tracker) == Ok(Step(n, event).value.tracker)
  {
    hide TrackerOk, SlotChallenge, SentOk;
  }

  /**
   * The randomness of an epoch is decided by the proofs staged for it before the
   * step that opens the next epoch, and by nothing that happens afterwards: it is the
   * first proof of the first shortest branch, or the digest of the next epoch when no
   * proof was staged.
   */
  lemma EpochRandomness(gateway: bool, events: seq<Event>, event: Event, more: seq<Event>)
    requires Run(Start(gateway), events + [event] + more).Ok?
    requires Run(Start(gateway), events).Ok? && Run(Start(gateway), events + [event]).Ok?
    requires
      var epoch := Run(Start(gateway), events).value.tracker.currentEpoch;
      Run(Start(gateway), events + [event]).value.tracker.currentEpoch == epoch + 1
    ensures
      var epoch := Run(Start(gateway), events).value.tracker.currentEpoch;
      var adds := StagedFor(events, epoch);
      var later := Run(Start(gateway), events + [event] + more).value.tracker;
      var branches := BranchesOf(adds);
      && epoch in later.epochs && later.epochs[epoch].isClosed
      && (branches == [] <==> adds == [])
      && (branches != [] ==> branches[Shortest(branches)] != [])
      && later.epochs[epoch].randomness ==
           if branches == [] then EpochDigest(epoch + 1) else ProofId(branches[Shortest(branches)][0])
  {
    hide Step, InStep, SentOk, StagedFor, BranchesOf, Shortest;
    var n := Run(Start(gateway), events).value;
    EveryRunIsInStep(gateway, events);
    RunHolds(gateway, events);
    assert (events + [event])[..|events|] == events;
    ClosingStep(n, event);
    AdvanceKeepsOk(n.tracker);
    assert Run(Start(gateway), events + [event]).value == Step(n, event).value;
    RunKeepsClosed(gateway, events + [event], more);
    var epoch := n.tracker.currentEpoch;
    assert NoEmptyBranch(n.tracker.epochs[epoch]);
    BranchesEmptyIff(StagedFor(events, epoch));
  }

  /**
   * When none of those proofs but the first came without its parent, the randomness
   * is the first proof staged for the epoch.
   */
  lemma EpochClosesOnFirstProof(gateway: bool, events: seq<Event>, event: Event, more: seq<Event>)
    requires Run(Start(gateway), events + [event] + more).Ok?
    requires Run(Start(gateway), events).Ok? && Run(Start(gateway), events + [event]).Ok?
    requires
      var epoch := Run(Start(gateway), events).value.tracker.currentEpoch;
      && Run(Start(gateway), events + [event]).value.tracker.currentEpoch == epoch + 1
      && StagedFor(events, epoch) != [] && FreshIds(StagedFor(events, epoch))
      && ParentsPresent(StagedFor(events, epoch))
    ensures
      var epoch := Run(Start(gateway), events).value.tracker.currentEpoch;
      var later := Run(Start(gateway), events + [event] + more).value.tracker;
      epoch in later.epochs && later.epochs[epoch].randomness == ProofId(StagedFor(events, epoch)[0].id)
  {
    hide Run, StagedFor, BranchesOf, FreshIds, ParentsPresent;
    var epoch := Run(Start(gateway), events).value.tracker.currentEpoch;
    var adds := StagedFor(events, epoch);
    EpochRandomness(gateway, events, event, more);
    ClosesOnCommonRootIff(adds, EpochData(false, GenesisSeed, BranchesOf(adds)), epoch + 1);
  }

  // ----- the loops as the program runs them

  /** The sync loop over its first `slots` timeslots. */
  method Sync(tracker: EpochTracker, slots: nat) returns (timeslot: nat)
    requires TrackerOk(tracker.View()) && tracker.currentEpoch == 0
    modifies tracker
    ensures timeslot == slots && TrackerOk(tracker.View()) && InStep(tracker.View(), Syncing(timeslot))
    ensures KeepsClosed(old(tracker.View()), tracker.View())
  {
    hide Advance, TrackerOk, KeepsClosed;
    timeslot := 0;
    KeepsClosedSelf(tracker.View());
    while timeslot < slots
      invariant timeslot <= slots
      invariant TrackerOk(tracker.View()) && InStep(tracker.View(), Syncing(timeslot))
      invariant KeepsClosed(old(tracker.View()), tracker.View())
    {
      SyncKeepsStep(tracker.View(), timeslot);
      KeepsClosedTrans(old(tracker.View()), tracker.View(), SyncSlot(tracker.View(), timeslot).value);
      if (timeslot + 1) % TIMESLOTS_PER_EPOCH == 0 {
        var current := tracker.AdvanceEpoch();
      }
      timeslot := timeslot + 1;
    }
  }

  lemma KeepsClosedTrans(t: Tracker, u: Tracker, v: Tracker)
    requires KeepsClosed(t, u) && KeepsClosed(u, v)
    ensures KeepsClosed(t, v)
  {
  }

  /** The timer loop over its first `rounds` rounds: every slot is announced with its epoch and a usable challenge. */
  method Ticks(tracker: EpochTracker, start: nat, rounds: nat) returns (sent: seq<SlotMessage>)
    requires TrackerOk(tracker.View()) && InStep(tracker.View(), Ticking(start, tracker.currentEpoch))
    modifies tracker
    ensures |sent| == rounds
    ensures forall i :: 0 <= i < |sent| ==> sent[i].timeslot == start + i && SentOk(tracker.View(), sent[i])
    ensures TrackerOk(tracker.View())
  {
    hide Advance, TrackerOk, KeepsClosed, SlotChallenge, SentOk;
    var epochIndex: nat := tracker.currentEpoch;
    var next: nat := start;
    sent := [];
    while next < start + rounds
      invariant start <= next <= start + rounds && |sent| == next - start
      invariant TrackerOk(tracker.View()) && InStep(tracker.View(), Ticking(next, epochIndex))
      invariant forall i :: 0 <= i < |sent| ==> sent[i].timeslot == start + i && SentOk(tracker.View(), sent[i])
    {
      RoundKeepsStep(tracker.View(), next, epochIndex);
      SentStays(tracker.View(), TimerRound(tracker.View(), next, epochIndex).value.0, sent);
      if next % TIMESLOTS_PER_EPOCH == 0 && epochIndex < next / TIMESLOTS_PER_EPOCH {
        epochIndex := tracker.AdvanceEpoch();
      }
      var challenge := tracker.GetSlotChallenge(epochIndex, next);
      sent := sent + [SlotMessage(epochIndex, next, challenge.value)];
      next := next + 1;
    }
  }
}
