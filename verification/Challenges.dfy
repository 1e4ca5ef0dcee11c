/** What the farmer is told over a whole run: which slots, and with which challenges. */
module Challenges {
  import opened Epochs
  import opened Tracker
  import opened Timer

  // ----- which slots are announced

  /** Timeslots passed in sync, which ends when the timer is started. */
  function SyncSlots(events: seq<Event>): (n: nat) {
    if events == [] then 0
    else
      var before, last := events[..|events| - 1], events[|events| - 1];
      SyncSlots(before) + if last.NextSyncSlot? && StartTimer !in before then 1 else 0
  }

  /** Rounds of the timer. */
  function Rounds(gateway: bool, events: seq<Event>): (n: nat) {
    if events == [] then 0
    else
      var before, last := events[..|events| - 1], events[|events| - 1];
      Rounds(gateway, before) + if last.Tick? && (gateway || StartTimer in before) then 1 else 0
  }

  /** The first slot of the timer: 1 on the gateway, and elsewhere where sync ended. */
  function FirstSlot(gateway: bool, events: seq<Event>): (slot: nat) {
    if gateway then 1 else SyncSlots(events)
  }

  /** Sync counts the timeslots, then every round announces the next one: none is left out and none comes twice. */
  ghost predicate ClockIs(n: Node, gateway: bool, events: seq<Event>) {
    if gateway || StartTimer in events then
      var first, rounds := FirstSlot(gateway, events), Rounds(gateway, events);
      && n.clock.Ticking? && n.clock.next == first + rounds && |n.sent| == rounds
      && (forall i :: 0 <= i < rounds ==> n.sent[i].timeslot == first + i)
    else n.clock == Syncing(SyncSlots(events)) && n.sent == [] && Rounds(gateway, events) == 0
  }

  lemma TickSends(n: Node)
    requires NodeOk(n) && n.clock.Ticking?
    ensures Step(n, Tick).Ok?
    ensures
      var m := Step(n, Tick).value;
      && |m.sent| == |n.sent| + 1 && m.sent[..|n.sent|] == n.sent && m.sent[|n.sent|].timeslot == n.clock.next
      && m.clock.Ticking? && m.clock.next == n.clock.next + 1
  {
    hide TrackerOk, Advance, SlotChallenge, SentOk;
    Timer.StepKeepsOk(n, Tick);
  }

  lemma CountsStep(gateway: bool, before: seq<Event>, last: Event)
    ensures SyncSlots(before + [last]) ==
            SyncSlots(before) + if last.NextSyncSlot? && StartTimer !in before then 1 else 0
    ensures Rounds(gateway, before + [last]) ==
            Rounds(gateway, before) + if last.Tick? && (gateway || StartTimer in before) then 1 else 0
    ensures StartTimer in before + [last] <==> StartTimer in before || last.StartTimer?
  {
    assert (before + [last])[..|before|] == before;
  }

  lemma ClockStep(n: Node, gateway: bool, before: seq<Event>, last: Event)
    requires NodeOk(n) && ClockIs(n, gateway, before) && Step(n, last).Ok?
    ensures ClockIs(Step(n, last).value, gateway, before + [last])
  {
    hide NodeOk, Advance, AddToEpoch, SyncSlot, TimerRound, SyncSlots, Rounds;
    CountsStep(gateway, before, last);
    if last.Tick? && n.clock.Ticking? {
      TickSends(n);
      var m := Step(n, Tick).value;
      assert forall i :: 0 <= i < |n.sent| ==> m.sent[i] == m.sent[..|n.sent|][i];
    }
  }

  lemma {:induction false} SlotsAnnounced(gateway: bool, events: seq<Event>)
    requires Run(Start(gateway), events).Ok?
    ensures ClockIs(Run(Start(gateway), events).value, gateway, events)
  {
    hide NodeOk, Step;
    if events != [] {
      var before, last := events[..|events| - 1], events[|events| - 1];
      hide ClockIs;
      SlotsAnnounced(gateway, before);
      EveryRunIsInStep(gateway, before);
      ClockStep(Run(Start(gateway), before).value, gateway, before, last);
      assert before + [last] == events;
    }
  }

  // ----- which challenge is announced

  /** The first proof of the first shortest branch of these proofs, or the digest of the next epoch without any. */
  ghost predicate DecidedBy(adds: seq<Add>, epoch: nat, r: Randomness) {
    var branches := BranchesOf(adds);
    if branches == [] then r == EpochDigest(epoch + 1)
    else branches[Shortest(branches)] != [] && r == ProofId(branches[Shortest(branches)][0])
  }

  /** The k-th event opens the epoch. */
  ghost predicate OpensAt(gateway: bool, events: seq<Event>, k: nat, epoch: nat) {
    && k < |events| && epoch > 0
    && Run(Start(gateway), events[..k]).Ok? && Run(Start(gateway), events[..k + 1]).Ok?
    && Run(Start(gateway), events[..k]).value.tracker.currentEpoch == epoch - 1
    && Run(Start(gateway), events[..k + 1]).value.tracker.currentEpoch == epoch
  }

  lemma StepOpensOne(n: Node, event: Event)
    requires NodeOk(n) && Step(n, event).Ok?
    ensures n.tracker.currentEpoch <= Step(n, event).value.tracker.currentEpoch <= n.tracker.currentEpoch + 1
  {
    hide TrackerOk, Advance, SlotChallenge, SentOk;
    AdvanceKeepsOk(n.tracker);
    if event.StageProof? {
      UnknownEpoch(n.tracker, event.epoch, event.parent, event.id);
      if event.epoch <= n.tracker.currentEpoch {
        ProofKeepsOk(n.tracker, event.epoch, event.parent, event.id);
      }
    }
  }

  lemma {:induction false} OpeningStep(gateway: bool, events: seq<Event>, epoch: nat) returns (k: nat)
    requires Run(Start(gateway), events).Ok?
    requires 0 < epoch <= Run(Start(gateway), events).value.tracker.currentEpoch
    ensures OpensAt(gateway, events, k, epoch)
  {
    hide Step, NodeOk;
    if events == [] {
      assert false;
    }
    var before, last := events[..|events| - 1], events[|events| - 1];
    var n := Run(Start(gateway), before).value;
    EveryRunIsInStep(gateway, before);
    StepOpensOne(n, last);
    if n.tracker.currentEpoch >= epoch {
      k := OpeningStep(gateway, before, epoch);
      assert before[..k] == events[..k] && before[..k + 1] == events[..k + 1];
    } else {
      k := |events| - 1;
      assert events[..k + 1] == events;
    }
  }

  ghost predicate ChallengeIs(gateway: bool, events: seq<Event>, epoch: nat, r: Randomness) {
    if epoch == 0 then r == GenesisSeed
    else exists k: nat ::
           && k < |events| && OpensAt(gateway, events, k, epoch)
           && DecidedBy(StagedFor(events[..k], epoch - 1), epoch - 1, r)
  }

  lemma DecidedWhenOpened(gateway: bool, events: seq<Event>, k: nat, epoch: nat)
    requires Run(Start(gateway), events).Ok? && OpensAt(gateway, events, k, epoch)
    ensures
      var t := Run(Start(gateway), events).value.tracker;
      && epoch - 1 in t.epochs
      && DecidedBy(StagedFor(events[..k], epoch - 1), epoch - 1, t.epochs[epoch - 1].randomness)
  {
    hide Run, StagedFor, BranchesOf, Shortest;
    assert events[..k] + [events[k]] == events[..k + 1] && events[..k + 1] + events[k + 1..] == events;
    EpochRandomness(gateway, events[..k], events[k], events[k + 1..]);
  }

  /** Any epoch reached is looked up with its own timeslot and the randomness its predecessor was decided with. */
  lemma LookedUp(gateway: bool, events: seq<Event>, epoch: nat, timeslot: nat)
    requires Run(Start(gateway), events).Ok?
    requires epoch <= Run(Start(gateway), events).value.tracker.currentEpoch
    ensures
      var c := SlotChallenge(Run(Start(gateway), events).value.tracker, epoch, timeslot);
      c.Ok? && c.value.timeslot == timeslot && ChallengeIs(gateway, events, epoch, c.value.randomness)
  {
    hide Run, StagedFor, TrackerOk, DecidedBy, OpensAt, SlotChallenge;
    EveryRunIsInStep(gateway, events);
    LookupIs(Run(Start(gateway), events).value.tracker, epoch, timeslot);
    if epoch > 0 {
      var k := OpeningStep(gateway, events, epoch);
      DecidedWhenOpened(gateway, events, k, epoch);
      assert k < |events| by { OpensWithin(gateway, events, k, epoch); }
    }
  }

  lemma OpensWithin(gateway: bool, events: seq<Event>, k: nat, epoch: nat)
    requires OpensAt(gateway, events, k, epoch)
    ensures k < |events|
  {
    hide Run;
  }

  /**
   * In every run, every slot announced carries its own timeslot and the epoch of it,
   * and with them: in epoch 0 the genesis seed, and later what the proofs staged for the
   * epoch before decided until the moment the slot's epoch opened.
   */
  lemma AnnouncedChallenge(gateway: bool, events: seq<Event>, i: nat)
    requires Run(Start(gateway), events).Ok? && i < |Run(Start(gateway), events).value.sent|
    ensures
      var m := Run(Start(gateway), events).value.sent[i];
      && m.challenge.timeslot == m.timeslot && m.epoch == m.timeslot / TIMESLOTS_PER_EPOCH
      && ChallengeIs(gateway, events, m.epoch, m.challenge.randomness)
  {
    hide Run, SlotChallenge, TrackerOk, ChallengeIs;
    EveryRunIsInStep(gateway, events);
    var n := Run(Start(gateway), events).value;
    var m := n.sent[i];
    assert SentOk(n.tracker, m);
    LookupIffReached(n.tracker, m.epoch, m.timeslot);
    LookedUp(gateway, events, m.epoch, m.timeslot);
  }
}
