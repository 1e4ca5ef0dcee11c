/** The epochs of a node: opened and closed as time passes, looked up for slot challenges. */
module Tracker {
  import opened Basics
  import opened Epochs

  const CHALLENGE_LOOKBACK_EPOCHS: nat := 1
  const EPOCH_CLOSE_WAIT_TIME: nat := 1

  datatype Tracker = Tracker(currentEpoch: nat, epochs: map<nat, EpochData>)

  /** A slot challenge is the hash of the epoch's randomness and the timeslot. */
  datatype Challenge = Challenge(randomness: Randomness, timeslot: nat)

  /** Opens the next epoch and closes the one that has waited long enough. */
  function Advance(t: Tracker): (r: Outcome<Tracker>) {
    var current := if t.epochs == map[] then 0 else t.currentEpoch + 1;
    var epochs := t.epochs[current := NewEpoch(current)];
    if current < EPOCH_CLOSE_WAIT_TIME then Ok(Tracker(current, epochs))
    else
      var closing := current - EPOCH_CLOSE_WAIT_TIME;
      if closing !in epochs || exists i :: 0 <= i < |epochs[closing].branches| && epochs[closing].branches[i] == []
      then Panic
      else Ok(Tracker(current, epochs[closing := Closed(epochs[closing], current)]))
  }

  function AddToEpoch(t: Tracker, epoch: nat, parent: Id, id: Id): (r: Outcome<Tracker>) {
    if epoch !in t.epochs then Panic
    else Ok(t.(epochs := t.epochs[epoch := WithProof(t.epochs[epoch], parent, id)]))
  }

  /** The challenge of a slot; a missing or open lookback epoch is fatal. */
  function SlotChallenge(t: Tracker, epoch: nat, timeslot: nat): (r: Outcome<Challenge>) {
    if epoch == 0 then Ok(Challenge(GenesisSeed, timeslot))
    else if epoch < CHALLENGE_LOOKBACK_EPOCHS then Panic
    else
      var lookback := epoch - CHALLENGE_LOOKBACK_EPOCHS;
      if lookback !in t.epochs || !t.epochs[lookback].isClosed then Panic
      else Ok(Challenge(t.epochs[lookback].randomness, timeslot))
  }

  const EMPTY := Tracker(0, map[])

  // ----- what every step keeps

  ghost predicate NoEmptyBranch(e: EpochData) {
    forall i :: 0 <= i < |e.branches| ==> e.branches[i] != []
  }

  /** Exactly the epochs up to the current one exist, and exactly those that have waited are closed. */
  ghost predicate TrackerOk(t: Tracker) {
    && (forall i: nat :: i in t.epochs <==> i <= t.currentEpoch)
    && (forall i: nat :: i in t.epochs ==> (t.epochs[i].isClosed <==> i + EPOCH_CLOSE_WAIT_TIME <= t.currentEpoch))
    && (forall i: nat :: i in t.epochs ==> NoEmptyBranch(t.epochs[i]))
  }

  /** Closed epochs stay, closed, with the randomness they had. */
  ghost predicate KeepsClosed(t: Tracker, u: Tracker) {
    forall i: nat :: i in t.epochs && t.epochs[i].isClosed ==>
      i in u.epochs && u.epochs[i].isClosed && u.epochs[i].randomness == t.epochs[i].randomness
  }

  lemma StartIsOk()
    ensures Advance(EMPTY).Ok? && TrackerOk(Advance(EMPTY).value) && Advance(EMPTY).value.currentEpoch == 0
  {
  }

  /** Advancing never fails, opens one epoch and closes exactly the one that was current, which was open. */
  lemma AdvanceKeepsOk(t: Tracker)
    requires TrackerOk(t)
    ensures Advance(t).Ok?
    ensures TrackerOk(Advance(t).value) && KeepsClosed(t, Advance(t).value)
    ensures Advance(t).value.currentEpoch == t.currentEpoch + 1
    ensures !t.epochs[t.currentEpoch].isClosed && Advance(t).value.epochs[t.currentEpoch].isClosed
  {
    assert t.currentEpoch in t.epochs;
    assert NoEmptyBranch(t.epochs[t.currentEpoch]);
  }

  lemma ProofKeepsOk(t: Tracker, epoch: nat, parent: Id, id: Id)
    requires TrackerOk(t) && epoch <= t.currentEpoch
    ensures AddToEpoch(t, epoch, parent, id).Ok?
    ensures TrackerOk(AddToEpoch(t, epoch, parent, id).value) && KeepsClosed(t, AddToEpoch(t, epoch, parent, id).value)
    ensures AddToEpoch(t, epoch, parent, id).value.currentEpoch == t.currentEpoch
  {
    hide LastIndex, FirstWith;
    assert NoEmptyBranch(WithProof(t.epochs[epoch], parent, id)) by {
      assert NoEmptyBranch(t.epochs[epoch]);
    }
  }

  /** A lookup succeeds exactly for the epochs up to the current one. */
  lemma LookupIffReached(t: Tracker, epoch: nat, timeslot: nat)
    requires TrackerOk(t)
    ensures SlotChallenge(t, epoch, timeslot).Ok? <==> epoch <= t.currentEpoch
  {
    if epoch > 0 {
      assert (epoch - 1) in t.epochs <==> epoch - 1 <= t.currentEpoch;
    }
  }

  /** The challenge of a reached slot is its own timeslot with the randomness of the epoch before, or in the first
      epoch with the genesis seed. */
  lemma LookupIs(t: Tracker, epoch: nat, timeslot: nat)
    requires TrackerOk(t) && epoch <= t.currentEpoch
    ensures epoch == 0 ==> SlotChallenge(t, epoch, timeslot) == Ok(Challenge(GenesisSeed, timeslot))
    ensures epoch > 0 ==>
              && epoch - 1 in t.epochs && t.epochs[epoch - 1].isClosed
              && SlotChallenge(t, epoch, timeslot) == Ok(Challenge(t.epochs[epoch - 1].randomness, timeslot))
  {
    if epoch > 0 {
      assert (epoch - 1) in t.epochs <==> epoch - 1 <= t.currentEpoch;
    }
  }

  /** A challenge, once given, is given unchanged ever after. */
  lemma ChallengeIsStable(t: Tracker, u: Tracker, epoch: nat, timeslot: nat)
    requires KeepsClosed(t, u) && SlotChallenge(t, epoch, timeslot).Ok?
    ensures SlotChallenge(u, epoch, timeslot) == SlotChallenge(t, epoch, timeslot)
  {
  }

  class EpochTracker {
    var currentEpoch: nat
    var epochs: map<nat, EpochData>

    function View(): (t: Tracker)
      reads this
    {
      Tracker(currentEpoch, epochs)
    }

    constructor ()
      ensures TrackerOk(View()) && View() == Advance(EMPTY).value
    {
      currentEpoch := 0;
      epochs := map[];
      new;
      var current := AdvanceEpoch();
    }

    method AdvanceEpoch() returns (current: nat)
      requires View() == EMPTY || TrackerOk(View())
      modifies this
      ensures Advance(old(View())) == Ok(View()) && TrackerOk(View())
      ensures current == currentEpoch
    {
      if View() != EMPTY {
        AdvanceKeepsOk(View());
        assert currentEpoch in epochs;
      }
      if epochs == map[] {
        currentEpoch := 0;
      } else {
        currentEpoch := currentEpoch + 1;
      }
      current := currentEpoch;
      epochs := epochs[current := NewEpoch(current)];
      if current >= EPOCH_CLOSE_WAIT_TIME {
        var closing := current - EPOCH_CLOSE_WAIT_TIME;
        assert NoEmptyBranch(epochs[closing]);
        epochs := epochs[closing := Closed(epochs[closing], current)];
      }
    }

    method AddProofToEpoch(epoch: nat, parent: Id, id: Id) returns (known: bool)
      modifies this
      ensures known <==> AddToEpoch(old(View()), epoch, parent, id).Ok?
      ensures known ==> AddToEpoch(old(View()), epoch, parent, id) == Ok(View())
      ensures !known ==> View() == old(View())
    {
      known := epoch in epochs;
      if known {
        epochs := epochs[epoch := WithProof(epochs[epoch], parent, id)];
      }
    }

    method GetSlotChallenge(epoch: nat, timeslot: nat) returns (r: Outcome<Challenge>)
      requires TrackerOk(View())
      ensures r == SlotChallenge(View(), epoch, timeslot)
      ensures r.Ok? <==> epoch <= currentEpoch
      ensures epoch == 0 ==> r == Ok(Challenge(GenesisSeed, timeslot))
      ensures 0 < epoch <= currentEpoch ==>
                epoch - 1 in epochs && r == Ok(Challenge(epochs[epoch - 1].randomness, timeslot))
    {
      LookupIffReached(View(), epoch, timeslot);
      if epoch <= currentEpoch {
        LookupIs(View(), epoch, timeslot);
      }
      if epoch == 0 {
        return Ok(Challenge(GenesisSeed, timeslot));
      }
      var lookback := epoch - CHALLENGE_LOOKBACK_EPOCHS;
      if lookback !in epochs || !epochs[lookback].isClosed {
        return Panic;
      }
      r := Ok(Challenge(epochs[lookback].randomness, timeslot));
    }
  }
}
