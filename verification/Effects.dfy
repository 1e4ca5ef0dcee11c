/** All that confirming a block does to accounts, applied sets and log. */
module Effects {
  import opened Basics
  import opened MetaBlocks
  import opened Transactions
  import opened Supply
  import opened CanonicalOrder

  // ----- accounts follow the log

  /** Records applied to given accounts, in order. */
  function ReplayFrom(accounts: Accounts, records: seq<Record>): (r: Accounts) {
    if records == [] then accounts
    else ReplayRecord(ReplayFrom(accounts, records[..|records| - 1]), records[|records| - 1])
  }

  lemma {:induction false} ReplayFromAppend(accounts: Accounts, a: seq<Record>, b: seq<Record>)
    ensures ReplayFrom(accounts, a + b) == ReplayFrom(ReplayFrom(accounts, a), b)
  {
    hide ReplayRecord;
    if b == [] {
      assert a + b == a;
    } else {
      assert (a + b)[..|a + b| - 1] == a + b[..|b| - 1];
      ReplayFromAppend(accounts, a, b[..|b| - 1]);
    }
  }

  /** What was logged after `k`. */
  function Added(k: Bank, n: Bank): (r: seq<Record>)
    requires k.log <= n.log
  {
    n.log[|k.log|..]
  }

  /** `n` comes from `k` by logging more, and its accounts are those of `k` with the new records applied. */
  ghost predicate Follows(k: Bank, n: Bank) {
    && n.txs == k.txs && k.log <= n.log && k.appliedTxs <= n.appliedTxs && k.appliedBlocks <= n.appliedBlocks
    && n.accounts == ReplayFrom(k.accounts, Added(k, n))
  }

  lemma FollowsSelf(k: Bank)
    ensures Follows(k, k)
  {
    assert Added(k, k) == [];
  }

  lemma FollowsTrans(k: Bank, n: Bank, q: Bank)
    requires Follows(k, n) && Follows(n, q)
    ensures Follows(k, q)
  {
    assert Added(k, q) == Added(k, n) + Added(n, q);
    ReplayFromAppend(k.accounts, Added(k, n), Added(n, q));
  }

  lemma FollowsRecord(k: Bank, n: Bank, r: Record)
    requires n.txs == k.txs && n.log == k.log + [r]
    requires k.appliedTxs <= n.appliedTxs && k.appliedBlocks <= n.appliedBlocks
    requires n.accounts == ReplayRecord(k.accounts, r)
    ensures Follows(k, n)
  {
    hide ReplayRecord;
    assert Added(k, n) == [r] && [r][..0] == [];
    assert ReplayFrom(k.accounts, []) == k.accounts;
  }

  // ----- what becomes of each transaction

  ghost predicate Unpayable(accounts: Accounts, tx: CreditTx) {
    tx.from !in accounts || !CanPay(accounts, tx)
  }

  /** The accounts as they were when the log had `j` records. */
  ghost function AccountsAt(k: Bank, n: Bank, j: nat): (r: Accounts)
    requires k.log <= n.log && |k.log| <= j <= |n.log|
  {
    ReplayFrom(k.accounts, n.log[|k.log|..j])
  }

  lemma AccountsNow(k: Bank, h: Bank, n: Bank)
    requires Follows(k, h) && h.log <= n.log
    ensures AccountsAt(k, n, |h.log|) == h.accounts
  {
    assert n.log[|k.log|..|h.log|] == Added(k, h);
  }

  /** A credit is passed over when it is applied already or unpayable at its turn, which comes after `j` records. */
  ghost predicate Skipped(k: Bank, n: Bank, tx: Transaction, j: nat, applied: set<Id>)
    requires k.log <= n.log && |k.log| <= j <= |n.log|
  {
    tx.Credit? && (tx.credit.id in applied || Unpayable(AccountsAt(k, n, j), tx.credit))
  }

  /**
   * From record `j` to record `end` the log of `n` holds the listed transactions, in
   * order and nothing else, except those skipped at their turn; the marked ids grow
   * from `applied` to `marked` by those logged.
   */
  ghost predicate LogsRefs(k: Bank, n: Bank, refs: seq<Id>, j: nat, applied: set<Id>, end: nat, marked: set<Id>)
    requires k.log <= n.log
    decreases |refs|
  {
    && |k.log| <= j <= end <= |n.log|
    && if refs == [] then j == end && applied == marked
       else
         && refs[0] in k.txs
         && if Skipped(k, n, k.txs[refs[0]], j, applied) then LogsRefs(k, n, refs[1..], j, applied, end, marked)
            else
              && j < end && n.log[j] == TxRecord(k.txs[refs[0]])
              && LogsRefs(k, n, refs[1..], j + 1, applied + {refs[0]}, end, marked)
  }

  lemma ApplyTxFollows(k: Bank, ref: Id)
    requires ApplyTx(k, ref).Ok?
    ensures Follows(k, ApplyTx(k, ref).value)
  {
    var n := ApplyTx(k, ref).value;
    if n == k {
      FollowsSelf(k);
    } else {
      FollowsRecord(k, n, TxRecord(k.txs[ref]));
    }
  }

  lemma {:induction false} ApplyRefsFollows(k: Bank, refs: seq<Id>)
    requires ApplyRefs(k, refs).Ok?
    ensures Follows(k, ApplyRefs(k, refs).value)
    decreases |refs|
  {
    hide ApplyTx, Follows;
    if refs == [] {
      FollowsSelf(k);
    } else {
      var h := ApplyTx(k, refs[0]).value;
      ApplyTxFollows(k, refs[0]);
      ApplyRefsFollows(h, refs[1..]);
      FollowsTrans(k, h, ApplyRefs(k, refs).value);
    }
  }

  /** Seen from an earlier bank `k`, with a log that may have grown to that of `n`. */
  lemma {:induction false} ApplyRefsLogs(k: Bank, h: Bank, refs: seq<Id>, n: Bank)
    requires Follows(k, h) && ApplyRefs(h, refs).Ok? && k.log <= n.log
    requires h.log <= ApplyRefs(h, refs).value.log <= n.log
    ensures
      var r := ApplyRefs(h, refs).value;
      LogsRefs(k, n, refs, |h.log|, h.appliedTxs, |r.log|, r.appliedTxs)
    decreases |refs|
  {
    hide ReplayFrom, ReplayRecord, Deposit;
    if refs != [] {
      var next, r := ApplyTx(h, refs[0]).value, ApplyRefs(h, refs).value;
      ApplyTxFollows(h, refs[0]);
      FollowsTrans(k, h, next);
      ApplyRefsFollows(next, refs[1..]);
      AccountsNow(k, h, n);
      ApplyRefsLogs(k, next, refs[1..], n);
      if next != h {
        assert n.log[|h.log|] == r.log[|h.log|] == next.log[|h.log|];
      }
    }
  }

  // ----- what becomes of each tx block

  /** The log of a tx block: its transactions, then its proof and its content. */
  ghost predicate LogsBlock(k: Bank, n: Bank, b: Block, j: nat, applied: set<Id>, end: nat, marked: set<Id>)
    requires k.log <= n.log
  {
    && j + 2 <= end <= |n.log| && LogsRefs(k, n, b.refs, j, applied, end - 2, marked)
    && n.log[end - 2] == ProofRecord(b.proofId) && n.log[end - 1] == ContentRecord(b.contentId)
  }

  /** The log of several tx blocks, one after the other. */
  ghost predicate LogsBlocks(k: Bank, n: Bank, m: Store, ids: seq<Id>, j: nat, applied: set<Id>,
                             end: nat, marked: set<Id>)
    requires k.log <= n.log
    decreases |ids|
  {
    if ids == [] then j == end && applied == marked
    else
      && ids[0] in m.blocks
      && exists mid, after ::
           && LogsBlock(k, n, m.blocks[ids[0]].block, j, applied, mid, after)
           && LogsBlocks(k, n, m, ids[1..], mid, after, end, marked)
  }

  lemma LogBlockFollows(k: Bank, n: Bank, b: Block)
    requires n == k.(log := k.log + [ProofRecord(b.proofId), ContentRecord(b.contentId)],
                     appliedBlocks := n.appliedBlocks)
    requires k.appliedBlocks <= n.appliedBlocks
    ensures Follows(k, n)
  {
    var h := k.(log := k.log + [ProofRecord(b.proofId)]);
    FollowsRecord(k, h, ProofRecord(b.proofId));
    assert n.log == h.log + [ContentRecord(b.contentId)];
    FollowsRecord(h, n, ContentRecord(b.contentId));
    FollowsTrans(k, h, n);
  }

  lemma ApplyTxBlockFollows(k: Bank, b: Block)
    requires ApplyTxBlock(k, b).Ok?
    ensures Follows(k, ApplyTxBlock(k, b).value)
  {
    hide ApplyRefs, Follows;
    var h, n := ApplyRefs(k, b.refs).value, ApplyTxBlock(k, b).value;
    ApplyRefsFollows(k, b.refs);
    LogBlockFollows(h, n, b);
    FollowsTrans(k, h, n);
  }

  lemma ApplyTxBlockLogs(k: Bank, h: Bank, b: Block, n: Bank)
    requires Follows(k, h) && ApplyTxBlock(h, b).Ok? && k.log <= n.log && ApplyTxBlock(h, b).value.log <= n.log
    ensures
      var r := ApplyTxBlock(h, b).value;
      LogsBlock(k, n, b, |h.log|, h.appliedTxs, |r.log|, r.appliedTxs)
  {
    hide ApplyRefs, ReplayFrom, LogsRefs;
    var mid, r := ApplyRefs(h, b.refs).value, ApplyTxBlock(h, b).value;
    ApplyRefsFollows(h, b.refs);
    ApplyRefsLogs(k, h, b.refs, n);
    assert n.log[|mid.log|] == r.log[|mid.log|] && n.log[|mid.log| + 1] == r.log[|mid.log| + 1];
  }

  lemma {:induction false} ApplyTxBlocksFollows(k: Bank, m: Store, ids: seq<Id>)
    requires ApplyTxBlocks(k, m, ids).Ok?
    ensures Follows(k, ApplyTxBlocks(k, m, ids).value)
    decreases |ids|
  {
    hide ApplyTxBlock, Follows;
    if ids == [] {
      FollowsSelf(k);
    } else {
      var h := ApplyTxBlock(k, m.blocks[ids[0]].block).value;
      ApplyTxBlockFollows(k, m.blocks[ids[0]].block);
      ApplyTxBlocksFollows(h, m, ids[1..]);
      FollowsTrans(k, h, ApplyTxBlocks(k, m, ids).value);
    }
  }

  lemma {:induction false} ApplyTxBlocksLogs(k: Bank, h: Bank, m: Store, ids: seq<Id>, n: Bank)
    requires Follows(k, h) && ApplyTxBlocks(h, m, ids).Ok?
    requires k.log <= n.log && ApplyTxBlocks(h, m, ids).value.log <= n.log
    ensures
      var r := ApplyTxBlocks(h, m, ids).value;
      LogsBlocks(k, n, m, ids, |h.log|, h.appliedTxs, |r.log|, r.appliedTxs)
    decreases |ids|
  {
    hide ApplyTxBlock, ReplayFrom, LogsBlock;
    if ids != [] {
      var b := m.blocks[ids[0]].block;
      var next := ApplyTxBlock(h, b).value;
      ApplyTxBlockFollows(h, b);
      FollowsTrans(k, h, next);
      ApplyTxBlocksFollows(next, m, ids[1..]);
      ApplyTxBlockLogs(k, h, b, n);
      ApplyTxBlocksLogs(k, next, m, ids[1..], n);
    }
  }

  lemma ProposerFollows(k: Bank, b: Block)
    requires ApplyProposer(k, b).Ok?
    ensures Follows(k, ApplyProposer(k, b).value)
  {
    hide Follows;
    var n := ApplyProposer(k, b).value;
    match k.txs[b.refs[0]]
    case Coinbase(tx) =>
      var h := k.(accounts := Deposit(k.accounts, tx.to, BLOCK_REWARD), appliedTxs := k.appliedTxs + {tx.id},
                  log := k.log + [TxRecord(k.txs[b.refs[0]])]);
      FollowsRecord(k, h, TxRecord(k.txs[b.refs[0]]));
      LogBlockFollows(h, n, b);
      FollowsTrans(k, h, n);
    case Credit(_) => LogBlockFollows(k, n, b);
  }

  /** All that the log of `n` gained since `k`: the tx blocks in order, then the coinbase, proof and content of `b`. */
  ghost predicate LogsConfirmed(k: Bank, n: Bank, m: Store, b: Block)
    requires b.refs != [] && b.refs[0] in k.txs
  {
    && k.log <= n.log && |k.log| + 3 <= |n.log|
    && n.log[|n.log| - 3..] ==
         [TxRecord(k.txs[b.refs[0]]), ProofRecord(b.proofId), ContentRecord(b.contentId)]
    && exists marked ::
         && LogsBlocks(k, n, m, Order(k, m, b), |k.log|, k.appliedTxs, |n.log| - 3, marked)
         && n.appliedTxs == marked + {k.txs[b.refs[0]].TxId()}
  }

  /**
   * Confirming applies everything: the accounts are the old ones with the added
   * records applied, and the added records are exactly those of the tx blocks still to
   * be applied, in canonical order and skipping only credits that were applied before
   * or that their sender could not pay at their turn, and then those of the block itself.
   */
  lemma ConfirmAppliesAll(k: Bank, m: Store, b: Block)
    requires ApplyConfirmed(k, m, b).Ok? && b.refs != [] && Available(k, m, b.refs)
    ensures Follows(k, ApplyConfirmed(k, m, b).value) && LogsConfirmed(k, ApplyConfirmed(k, m, b).value, m, b)
  {
    hide GroupRefs, Flatten, ApplyTxBlocks, ReplayFrom, LogsBlocks;
    var order := Order(k, m, b);
    var h, n := ApplyTxBlocks(k, m, order).value, ApplyConfirmed(k, m, b).value;
    FollowsSelf(k);
    ApplyTxBlocksFollows(k, m, order);
    ProposerFollows(h, b);
    FollowsTrans(k, h, n);
    ApplyTxBlocksLogs(k, k, m, order, n);
    var own := [TxRecord(k.txs[b.refs[0]]), ProofRecord(b.proofId), ContentRecord(b.contentId)];
    assert n.log == h.log + own && n.log[|n.log| - 3..] == own;
    assert n.appliedTxs == h.appliedTxs + {k.txs[b.refs[0]].TxId()};
  }

  // ----- how often each tx block is applied

  /** How often a content was logged. */
  function Logged(log: seq<Record>, content: Id): (n: nat) {
    if log == [] then 0
    else Logged(log[..|log| - 1], content) + if log[|log| - 1] == ContentRecord(content) then 1 else 0
  }

  lemma {:induction false} LoggedAppend(a: seq<Record>, b: seq<Record>, content: Id)
    ensures Logged(a + b, content) == Logged(a, content) + Logged(b, content)
  {
    if b == [] {
      assert a + b == a;
    } else {
      assert (a + b)[..|a + b| - 1] == a + b[..|b| - 1];
      LoggedAppend(a, b[..|b| - 1], content);
    }
  }

  lemma {:induction false} RefsLogNoContent(k: Bank, refs: seq<Id>, content: Id)
    requires ApplyRefs(k, refs).Ok?
    ensures Logged(ApplyRefs(k, refs).value.log, content) == Logged(k.log, content)
    decreases |refs|
  {
    if refs != [] {
      var n := ApplyTx(k, refs[0]).value;
      if n.log != k.log {
        assert n.log[..|n.log| - 1] == k.log;
      }
      RefsLogNoContent(n, refs[1..], content);
    }
  }

  lemma BlockLogsContent(k: Bank, b: Block, content: Id)
    requires ApplyTxBlock(k, b).Ok?
    ensures Logged(ApplyTxBlock(k, b).value.log, content) ==
            Logged(k.log, content) + if b.contentId == content then 1 else 0
  {
    hide ApplyRefs, Logged;
    RefsLogNoContent(k, b.refs, content);
    var h := ApplyRefs(k, b.refs).value;
    LoggedAppend(h.log, [ProofRecord(b.proofId), ContentRecord(b.contentId)], content);
    LogsOne(b, content);
  }

  lemma LogsOne(b: Block, content: Id)
    ensures Logged([ProofRecord(b.proofId), ContentRecord(b.contentId)], content) ==
            if b.contentId == content then 1 else 0
  {
    var s := [ProofRecord(b.proofId), ContentRecord(b.contentId)];
    assert s[..1] == [ProofRecord(b.proofId)] && s[..1][..0] == [];
    assert Logged(s[..1], content) == 0;
  }

  lemma {:induction false} BlocksLogContents(k: Bank, m: Store, ids: seq<Id>, content: Id)
    requires ApplyTxBlocks(k, m, ids).Ok? && m.Linked() && content in m.proofOf
    ensures Logged(ApplyTxBlocks(k, m, ids).value.log, content) ==
            Logged(k.log, content) + multiset(ids)[m.proofOf[content]]
    decreases |ids|
  {
    hide ApplyTxBlock, Logged;
    if ids != [] {
      var b := m.blocks[ids[0]].block;
      BlockLogsContent(k, b, content);
      BlocksLogContents(ApplyTxBlock(k, b).value, m, ids[1..], content);
      assert ids == [ids[0]] + ids[1..];
    }
  }

  lemma {:induction false} UnappliedTimes(applied: set<Id>, m: Store, refs: seq<Id>, content: Id)
    requires m.Linked() && content in m.proofOf
    ensures multiset(Unapplied(applied, m, refs))[m.proofOf[content]] ==
            if content in applied then 0 else multiset(refs)[content]
  {
    if refs != [] {
      assert refs == [refs[0]] + refs[1..];
      UnappliedTimes(applied, m, refs[1..], content);
      var rest := Unapplied(applied, m, refs[1..]);
      if refs[0] !in applied && m.Lookup(refs[0]).Some? {
        assert Unapplied(applied, m, refs) == [m.proofOf[refs[0]]] + rest;
      }
    }
  }

  /** The log of a confirmed block up to the last record, which is its own content. */
  function BeforeOwn(n: Bank): (log: seq<Record>) {
    if n.log == [] then [] else n.log[..|n.log| - 1]
  }

  /** A tx block that was not applied before is applied exactly as often as it is referenced. */
  lemma AppliedAsOftenAsReferenced(k: Bank, m: Store, b: Block, content: Id)
    requires m.Linked() && b.refs != [] && Available(k, m, b.refs) && content in m.proofOf
    requires ApplyConfirmed(k, m, b).Ok?
    ensures Logged(BeforeOwn(ApplyConfirmed(k, m, b).value), content) ==
            Logged(k.log, content) + if content in k.appliedBlocks then 0 else multiset(b.refs[1..])[content]
  {
    hide GroupRefs, Flatten, ApplyTxBlocks, ApplyProposer, Unapplied, Available, Logged, Before, BeforeOwn;
    var order := Order(k, m, b);
    OrderIsCanonical(k, m, b);
    BlocksLogContents(k, m, order, content);
    UnappliedTimes(k.appliedBlocks, m, b.refs[1..], content);
    ProposerLogsOwn(ApplyTxBlocks(k, m, order).value, b, content);
  }

  lemma ProposerLogsOwn(k: Bank, b: Block, content: Id)
    requires ApplyProposer(k, b).Ok?
    ensures Logged(BeforeOwn(ApplyProposer(k, b).value), content) == Logged(k.log, content)
  {
    var n := ApplyProposer(k, b).value;
    var paid := if k.txs[b.refs[0]].Coinbase? then [TxRecord(k.txs[b.refs[0]])] else [];
    var end := paid + [ProofRecord(b.proofId)];
    assert BeforeOwn(n) == k.log + end;
    assert end[..|paid|] == paid && (paid != [] ==> paid[..0] == []);
    assert Logged(paid, content) == 0;
    LoggedAppend(k.log, end, content);
  }

  /** A tx block that is still to be applied is referenced at most once. */
  ghost predicate NoRepeats(applied: set<Id>, refs: seq<Id>) {
    forall i, j :: 0 <= i < j < |refs| && refs[i] == refs[j] ==> refs[i] in applied
  }

  lemma {:induction false} OccursOnceIff(s: seq<Id>, x: Id)
    requires x in s
    ensures multiset(s)[x] == 1 <==> forall i, j :: 0 <= i < j < |s| && s[i] == x ==> s[j] != x
  {
    var i :| 0 <= i < |s| && s[i] == x;
    assert s == s[..i] + [x] + s[i + 1..];
    if multiset(s)[x] == 1 {
      assert x !in s[..i] && x !in s[i + 1..];
      assert forall j :: 0 <= j < |s| && j < i ==> s[j] == s[..i][j];
      assert forall j :: i < j < |s| ==> s[j] == s[i + 1..][j - i - 1];
    } else {
      assert x in s[..i] || x in s[i + 1..];
      if x in s[..i] {
        var j :| 0 <= j < i && s[..i][j] == x;
        assert s[j] == x;
      } else {
        var j :| 0 <= j < |s| - i - 1 && s[i + 1..][j] == x;
        assert s[i + 1 + j] == x;
      }
    }
  }

  /**
   * The blocks to apply are filtered before any of them is applied, so a repeated
   * reference is applied again: every tx block is applied exactly once if and only
   * if no reference to a block still to be applied repeats.
   */
  lemma AppliedOnceIffNoRepeats(k: Bank, m: Store, b: Block)
    requires m.Linked() && b.refs != [] && Available(k, m, b.refs) && ApplyConfirmed(k, m, b).Ok?
    ensures
      (forall c :: c in b.refs[1..] && c !in k.appliedBlocks ==>
         Logged(BeforeOwn(ApplyConfirmed(k, m, b).value), c) == Logged(k.log, c) + 1)
      <==> NoRepeats(k.appliedBlocks, b.refs[1..])
  {
    hide ApplyConfirmed, Logged, BeforeOwn;
    var refs := b.refs[1..];
    forall c | c in refs && c !in k.appliedBlocks
      ensures Logged(BeforeOwn(ApplyConfirmed(k, m, b).value), c) == Logged(k.log, c) + multiset(refs)[c]
      ensures multiset(refs)[c] == 1 <==> forall i, j :: 0 <= i < j < |refs| && refs[i] == c ==> refs[j] != c
    {
      var i :| 1 <= i < |b.refs| && b.refs[i] == c;
      assert TxBlockReady(k, m, b.refs[i]);
      AppliedAsOftenAsReferenced(k, m, b, c);
      OccursOnceIff(refs, c);
    }
  }

  /** A proposer block that names one tx block twice passes the check phase and pays its farmer twice. */
  lemma RepeatedReferencePaysTwice()
    ensures
      var tx := Block(11, 21, None, 1, CoinbaseTx(31, 7), [31]);
      var b := Block(12, 22, Some(GENESIS_CHALLENGE), 2, CoinbaseTx(32, 8), [32, 21, 21]);
      var m := Store(map[11 := MetaBlock(tx, [], 0)], map[21 := 11]);
      var k := Bank(map[31 := Coinbase(tx.coinbase), 32 := Coinbase(b.coinbase)], map[], {}, {}, []);
      && m.Linked() && Available(k, m, b.refs) && !NoRepeats(k.appliedBlocks, b.refs[1..])
      && ApplyConfirmed(k, m, b).Ok? && 7 in ApplyConfirmed(k, m, b).value.accounts
      && ApplyConfirmed(k, m, b).value.accounts[7].balance == 2 * BLOCK_REWARD
  {
    var tx := Block(11, 21, None, 1, CoinbaseTx(31, 7), [31]);
    var b := Block(12, 22, Some(GENESIS_CHALLENGE), 2, CoinbaseTx(32, 8), [32, 21, 21]);
    var m := Store(map[11 := MetaBlock(tx, [], 0)], map[21 := 11]);
    var k := Bank(map[31 := Coinbase(tx.coinbase), 32 := Coinbase(b.coinbase)], map[], {}, {}, []);
    var refs := b.refs[1..];
    assert refs == [21, 21] && refs[1..] == [21] && refs[1..][1..] == [];
    assert m.Lookup(21) == Some(MetaBlock(tx, [], 0)) && TxBlockReady(k, m, 21);
    assert refs[0] == refs[1] == 21;
    TwiceGrouped(m, tx);
    TwiceApplied(k, m, tx);
  }

  lemma TwiceGrouped(m: Store, tx: Block)
    requires m.Lookup(21) == Some(MetaBlock(tx, [], 0)) && tx.proofId == 11
    ensures GroupRefs([], {}, m, [21, 21]) == Ok([(tx.timeslot, [11, 11])])
    ensures Flatten([(tx.timeslot, [11, 11])]) == [11, 11]
  {
    assert [21, 21][1..] == [21] && [21][1..] == [];
    assert File([], tx.timeslot, 11) == [(tx.timeslot, [11])];
    assert InsertSorted([11], 11) == [11, 11];
    assert File([(tx.timeslot, [11])], tx.timeslot, 11) == [(tx.timeslot, [11, 11])];
    assert GroupRefs([(tx.timeslot, [11])], {}, m, [21]) == Ok([(tx.timeslot, [11, 11])]);
    var g := [(tx.timeslot, [11, 11])];
    assert g[1..] == [] && Flatten(g[1..]) == [];
  }

  lemma TwiceApplied(k: Bank, m: Store, tx: Block)
    requires 11 in m.blocks && m.blocks[11].block == tx && tx.refs == [31] && k.accounts == map[]
    requires 31 in k.txs && k.txs[31] == Coinbase(CoinbaseTx(31, 7))
    ensures ApplyTxBlocks(k, m, [11, 11]).Ok?
    ensures ApplyTxBlocks(k, m, [11, 11]).value.txs == k.txs
    ensures ApplyTxBlocks(k, m, [11, 11]).value.accounts == map[7 := Account(2 * BLOCK_REWARD, 0)]
  {
    assert [11, 11][1..] == [11] && [11][1..] == [] && [31][1..] == [];
    var one := ApplyTxBlock(k, tx).value;
    assert ApplyRefs(ApplyTx(k, 31).value, []) == ApplyTx(k, 31);
    assert one.accounts == map[7 := Account(BLOCK_REWARD, 0)] && one.txs == k.txs;
    var two := ApplyTxBlock(one, tx).value;
    assert ApplyRefs(ApplyTx(one, 31).value, []) == ApplyTx(one, 31);
    assert two.accounts == map[7 := Account(2 * BLOCK_REWARD, 0)];
    assert ApplyTxBlocks(two, m, []) == Ok(two);
    assert ApplyTxBlocks(one, m, [11]) == Ok(two);
  }
}
