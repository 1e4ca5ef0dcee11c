/** The ledger of the whole node: every run of the node is a guarded run of the ledger, fed by what it takes in. */
module NodeLedger {
  import opened Basics
  import opened Staging
  import opened Finality
  import opened Supply
  import opened Payees
  import opened StateLog
  import opened WholeNode
  import opened NodeRuns
  import opened Intake
  import L = LedgerRuns
  import T = Timer

  // ----- what each event feeds to the ledger

  /** The ledger events of a step: the blocks it takes in, and its credit. */
  ghost predicate Feeds(bytes: Encoding, n: Node, e: Event, es: seq<L.Event>) {
    match e
    case Gossip(p) => es == if ChecksGossip(n, p) && Acceptable(n, p) then [LedgerEvent(p.block)] else []
    case Local(p, _) => es == [LedgerEvent(p.block)] && Valid(n, p)
    case Synced(p) => es == if n.clock.clock.Syncing? then [LedgerEvent(p.block)] else []
    case Credit(tx, signed) => es == [L.CreditProposal(tx, signed)]
    case SyncedCredit(tx) => es == [L.SyncedCredit(tx)]
    case Tick => FeedsArrivals(bytes, n, Due(n), es)
    case _ => es == []
  }

  /** Early blocks are fed when they are acceptable at their turn. */
  ghost predicate FeedsArrivals(bytes: Encoding, n: Node, ps: seq<Proposal>, es: seq<L.Event>)
    decreases |ps|
  {
    if ps == [] then es == []
    else
      && Arrive(bytes, n, ps[0]).Ok?
      && var m := Arrive(bytes, n, ps[0]).value;
         if Acceptable(n, ps[0])
         then es != [] && es[0] == LedgerEvent(ps[0].block) && FeedsArrivals(bytes, m, ps[1..], es[1..])
         else FeedsArrivals(bytes, m, ps[1..], es)
  }

  // ----- admissible runs from any state

  ghost predicate Reaches(l: L.State, es: seq<L.Event>, n: L.State)
    decreases |es|
  {
    if es == [] then n == l
    else L.Admissible(l, es[0]) && L.Step(l, es[0]).Ok? && Reaches(L.Step(l, es[0]).value, es[1..], n)
  }

  lemma ReachesOne(l: L.State, e: L.Event)
    requires L.Admissible(l, e) && L.Step(l, e).Ok?
    ensures Reaches(l, [e], L.Step(l, e).value)
  {
    hide L.Admissible, L.Step;
    assert [e][1..] == [];
  }

  lemma {:induction false} ExtendRun(ls: seq<L.State>, before: seq<L.Event>, es: seq<L.Event>, n: L.State)
      returns (more: seq<L.State>)
    requires L.GuardedRun(ls, before) && Reaches(ls[|before|], es, n)
    ensures L.GuardedRun(more, before + es) && more[|before + es|] == n
    decreases |es|
  {
    hide L.Admissible, L.Step;
    if es == [] {
      assert before + es == before;
      more := ls;
    } else {
      var next := L.Step(ls[|before|], es[0]).value;
      OneMore(ls, before, es[0]);
      more := ExtendRun(ls + [next], before + [es[0]], es[1..], n);
      assert before + [es[0]] + es[1..] == before + es;
    }
  }

  lemma OneMore(ls: seq<L.State>, before: seq<L.Event>, e: L.Event)
    requires L.GuardedRun(ls, before) && L.Admissible(ls[|before|], e) && L.Step(ls[|before|], e).Ok?
    ensures L.GuardedRun(ls + [L.Step(ls[|before|], e).value], before + [e])
  {
    hide L.Admissible, L.Step;
    var more, es := ls + [L.Step(ls[|before|], e).value], before + [e];
    forall i | 0 <= i < |es| ensures L.Step(more[i], es[i]) == Ok(more[i + 1]) && L.Admissible(more[i], es[i]) {
      if i < |before| {
        assert L.Step(ls[i], before[i]) == Ok(ls[i + 1]) && L.Admissible(ls[i], before[i]);
      }
    }
  }

  // ----- every step

  /** A sane block within the guard is admissible to the ledger, and staging it is the ledger's step. */
  lemma StageFeeds(bytes: Encoding, n: Node, p: Proposal)
    requires Sane(n, p) && Stage(bytes, n, p).Ok? && (p.block.parent.Some? ==> Guarded(n.ledger.chain, p.block))
    ensures Reaches(n.ledger, [LedgerEvent(p.block)], Stage(bytes, n, p).value.ledger)
  {
    hide Fresh, Guarded, L.FindsTransactions, L.Step;
    StagedLedger(bytes, n, p);
    ReachesOne(n.ledger, LedgerEvent(p.block));
  }

  lemma ArriveFeeds(bytes: Encoding, n: Node, p: Proposal)
    requires Good(n) && SaneIfStaged(n, p) && Arrive(bytes, n, p).Ok?
    ensures
      var m := Arrive(bytes, n, p).value;
      if Acceptable(n, p) then Reaches(n.ledger, [LedgerEvent(p.block)], m.ledger) else m.ledger == n.ledger
  {
    hide Good, Sane, Stage, Valid, Validate, CheckParent, TxParent, Reaches, Guarded;
    AcceptableIff(n, p);
    if Passes(n, p) {
      PassesShape(n, p);
      StageAbortsIff(bytes, n, p);
      StageFeeds(bytes, n, p);
    }
  }

  lemma {:induction false} ArrivalsFeed(bytes: Encoding, n: Node, ps: seq<Proposal>) returns (es: seq<L.Event>)
    requires Good(n) && SaneArrivals(bytes, n, ps) && ArriveAll(bytes, n, ps).Ok?
    ensures FeedsArrivals(bytes, n, ps, es) && Reaches(n.ledger, es, ArriveAll(bytes, n, ps).value.ledger)
    decreases |ps|
  {
    hide Good, Arrive, SaneIfStaged, Acceptable, L.Step, L.Admissible, Keeps, SameClock;
    es := [];
    if ps != [] {
      ArriveAbortsIff(bytes, n, ps[0]);
      ArriveFeeds(bytes, n, ps[0]);
      var m := Arrive(bytes, n, ps[0]).value;
      es := ArrivalsFeed(bytes, m, ps[1..]);
      if Acceptable(n, ps[0]) {
        var e := LedgerEvent(ps[0].block);
        assert [e][1..] == [] && ([e] + es)[1..] == es;
        es := [e] + es;
      }
    }
  }

  lemma GossipFeeds(bytes: Encoding, n: Node, p: Proposal) returns (es: seq<L.Event>)
    requires Good(n) && Admissible(bytes, n, Gossip(p)) && OnGossip(bytes, n, p).Ok?
    ensures Feeds(bytes, n, Gossip(p), es) && Reaches(n.ledger, es, OnGossip(bytes, n, p).value.ledger)
  {
    hide Good, Sane, Stage, Valid, Validate, CheckParent, TxParent, Gains, Postpone, Reaches, Guarded, EarlierParent;
    es := [];
    if ChecksGossip(n, p) && Acceptable(n, p) {
      AcceptableIff(n, p);
      var m := n.(recent := n.recent + {p.block.proofId});
      AlikeChecks(n, m, p);
      AlikePasses(n, m, p);
      PassesShape(m, p);
      StageAbortsIff(bytes, m, p);
      es := [LedgerEvent(p.block)];
      StageFeeds(bytes, m, p);
    } else {
      GossipTakesIff(bytes, n, p);
      ReachesSelf(n.ledger);
    }
  }

  lemma ReachesSelf(l: L.State)
    ensures Reaches(l, [], l)
  {
  }

  lemma TickFeeds(bytes: Encoding, n: Node) returns (es: seq<L.Event>)
    requires Good(n) && SaneArrivals(bytes, n, Due(n)) && OnTick(bytes, n).Ok?
    ensures Feeds(bytes, n, Tick, es) && Reaches(n.ledger, es, OnTick(bytes, n).value.ledger)
  {
    hide Good, SaneArrivals, ArriveAll, Reaches, T.Step;
    if n.clock.clock.Syncing? {
      es := [];
      ReachesSelf(n.ledger);
    } else {
      es := ArrivalsFeed(bytes, n, Due(n));
    }
  }

  lemma CreditFeeds(n: Node, e: L.Event)
    requires OnLedger(n, e).Ok? && L.Admissible(n.ledger, e)
    ensures Reaches(n.ledger, [e], OnLedger(n, e).value.ledger)
  {
    hide L.Step, L.Admissible;
    ReachesOne(n.ledger, e);
  }

  lemma StepFeeds(bytes: Encoding, n: Node, e: Event) returns (es: seq<L.Event>)
    requires Good(n) && Admissible(bytes, n, e) && Step(bytes, n, e).Ok?
    ensures Feeds(bytes, n, e, es) && Reaches(n.ledger, es, Step(bytes, n, e).value.ledger)
  {
    hide Good, OnGossip, OnTick, Stage, T.Step, Validate, Valid, FeedsArrivals, Guarded, Sane, ValidatedInSync,
         Acceptable, ChecksGossip, SaneArrivals, Reaches, OnLedger;
    es := [];
    ReachesSelf(n.ledger);
    match e
    case Gossip(p) => es := GossipFeeds(bytes, n, p);
    case Local(p, siblings) =>
      ValidIff(n, p);
      LocalIsGuarded(bytes, n, p, siblings);
      es := [LedgerEvent(p.block)];
      StageFeeds(bytes, n, p);
    case Synced(p) =>
      if n.clock.clock.Syncing? {
        var seen := if p.block.timeslot == n.clock.clock.timeslot then {p.block.proofId} else {};
        var m := n.(recent := n.recent + seen);
        AlikeChecks(n, m, p);
        es := [LedgerEvent(p.block)];
        StageFeeds(bytes, m, p);
      }
    case Credit(tx, signed) =>
      es := [L.CreditProposal(tx, signed)];
      CreditFeeds(n, es[0]);
    case SyncedCredit(tx) =>
      es := [L.SyncedCredit(tx)];
      CreditFeeds(n, es[0]);
    case Tick => es := TickFeeds(bytes, n);
    case _ =>
  }

  // ----- every run

  /** The ledger events of the first `i` steps of a run. */
  ghost predicate IsFeed(bytes: Encoding, states: seq<Node>, events: seq<Event>, i: nat, feed: seq<L.Event>)
    requires i <= |events| < |states|
  {
    if i == 0 then feed == []
    else
      exists k: nat :: k <= |feed| && IsFeed(bytes, states, events, i - 1, feed[..k])
                       && Feeds(bytes, states[i - 1], events[i - 1], feed[k..])
  }

  /**
   * In every run of the whole node the ledger is that of a guarded run fed exactly with
   * the blocks taken in, in that order, and the credits received; so every theorem about
   * guarded runs of the ledger holds of the node.
   */
  lemma {:induction false} LedgerIsGuarded(bytes: Encoding, gateway: bool, log: Log, states: seq<Node>,
                                           events: seq<Event>, i: nat)
      returns (ls: seq<L.State>, feed: seq<L.Event>)
    requires Run(bytes, gateway, log, states, events) && i < |states|
    ensures IsFeed(bytes, states, events, i, feed)
    ensures L.GuardedRun(ls, feed) && ls[|feed|] == states[i].ledger
  {
    hide Good, Step, Admissible, Feeds, L.Step, L.Admissible, Reaches;
    ls, feed := [L.GENESIS], [];
    if i > 0 {
      RunIsGood(bytes, gateway, log, states, events, i - 1);
      var before: seq<L.Event>;
      ls, before := LedgerIsGuarded(bytes, gateway, log, states, events, i - 1);
      assert Admissible(bytes, states[i - 1], events[i - 1]);
      assert Step(bytes, states[i - 1], events[i - 1]) == Ok(states[i]);
      var es := StepFeeds(bytes, states[i - 1], events[i - 1]);
      ls := ExtendRun(ls, before, es, states[i].ledger);
      feed := before + es;
      assert feed[..|before|] == before && feed[|before|..] == es;
    }
  }

  /** In every run of the whole node every balance is the rewards to the account and the credits it received, less
      those it sent. */
  lemma NodeBalances(bytes: Encoding, gateway: bool, log: Log, states: seq<Node>, events: seq<Event>, i: nat, a: Id)
    requires Run(bytes, gateway, log, states, events) && i < |states| && Minted(states[i].ledger.bank.log) < TWO_64
    ensures BalanceOf(states[i].ledger.bank.accounts, a) == Entitled(states[i].ledger.bank.log, a)
  {
    hide Run, L.Step, L.Admissible, Entitled, Minted;
    var ls, feed := LedgerIsGuarded(bytes, gateway, log, states, events, i);
    RunBalances(ls, feed, |feed|, a);
  }
}
