/** End to end: what the counter of the transaction-inclusion expectation, fed by the block feed, says about the planned
    transactions. */
module TxInclusion {
  import opened Wrappers
  import opened Ledger
  import opened Wallet
  import opened Genesis
  import opened BlockFeed
  import opened BlockFeedRuns
  import opened TxPlan

  // ----- what the capture task hears -----

  /** A capture task that subscribes when `from` records have been sent receives only those sent afterwards. */
  ghost predicate Subscribes(tree: Tree, polls: seq<Answers>, from: nat) {
    tree.Valid() && (forall a <- polls :: tree.Truthful(a)) && from <= |Run(EMPTY_INDEX, polls).sent|
  }

  ghost function Heard(polls: seq<Answers>, from: nat): seq<BlockRecord>
    requires from <= |Run(EMPTY_INDEX, polls).sent|
  {
    Run(EMPTY_INDEX, polls).sent[from..]
  }

  ghost function Observed(polls: seq<Answers>, from: nat, tracked: set<ZkPublicKey>): nat
    requires from <= |Run(EMPTY_INDEX, polls).sent|
  {
    CountPaying(WatchedTxs(Heard(polls, from)), tracked)
  }

  /** The blocks the capture task looks at: on a polled chain, not delivered before the subscription, and not a child of
      the zero header. */
  ghost function WatchedBlocks(tree: Tree, polls: seq<Answers>, from: nat): set<HeaderId>
    requires Subscribes(tree, polls, from)
  {
    set h | && h in Run(EMPTY_INDEX, polls).seen && h != tree.genesis && h in tree.blocks
            && h !in Headers(Run(EMPTY_INDEX, polls).sent[..from])
            && tree.blocks[h].parent != GENESIS_PARENT
  }

  ghost function Holders(tree: Tree, polls: seq<Answers>, from: nat, tx: LedgerTx): set<HeaderId>
    requires Subscribes(tree, polls, from)
  {
    set h | h in WatchedBlocks(tree, polls, from) && tx in tree.blocks[h].transactions
  }

  ghost predicate Included(tree: Tree, polls: seq<Answers>, from: nat, tx: LedgerTx)
    requires Subscribes(tree, polls, from)
  {
    exists h :: h in Holders(tree, polls, from, tx)
  }

  /** No two of the blocks hold `tx`, and none holds it twice. */
  ghost predicate HeldByOne(blocks: map<HeaderId, Block>, holders: set<HeaderId>, tx: LedgerTx)
    requires holders <= blocks.Keys
  {
    && (forall g, h :: g in holders && h in holders ==> g == h)
    && (forall h <- holders :: multiset(blocks[h].transactions)[tx] == 1)
  }

  ghost predicate AtMostOnce(tree: Tree, polls: seq<Answers>, from: nat, tx: LedgerTx)
    requires Subscribes(tree, polls, from)
  {
    HeldByOne(tree.blocks, Holders(tree, polls, from, tx), tx)
  }

  ghost predicate PayingAtMostOnce(tree: Tree, polls: seq<Answers>, from: nat, tracked: set<ZkPublicKey>)
    requires Subscribes(tree, polls, from)
  {
    forall tx :: Pays(tx, tracked) ==> AtMostOnce(tree, polls, from, tx)
  }

  /** Subscribing after the k-th poll: the watched blocks are those that the later polls add. */
  lemma SubscribedAfterPoll(tree: Tree, polls: seq<Answers>, k: nat)
    requires tree.Valid() && (forall a <- polls :: tree.Truthful(a)) && k <= |polls|
    ensures Subscribes(tree, polls, |Run(EMPTY_INDEX, polls[..k]).sent|)
    ensures forall h :: h in WatchedBlocks(tree, polls, |Run(EMPTY_INDEX, polls[..k]).sent|) <==>
              && h in Run(EMPTY_INDEX, polls).seen && h !in Run(EMPTY_INDEX, polls[..k]).seen
              && h != tree.genesis && h in tree.blocks && tree.blocks[h].parent != GENESIS_PARENT
  {
    FeedOnlyGrows(EMPTY_INDEX, polls, k);
    RunIndexesEveryPolledChain(tree, polls);
    RunIndexesEveryPolledChain(tree, polls[..k]);
    ChainsClosed(tree, SuccessfulTips(EMPTY_INDEX, polls));
    var before, all := Run(EMPTY_INDEX, polls[..k]), Run(EMPTY_INDEX, polls);
    assert all.sent[..|before.sent|] == before.sent;
  }

  lemma LaterHeaders(sent: seq<BlockRecord>, from: nat)
    requires from <= |sent| && Distinct(HeaderList(sent))
    ensures Headers(sent[from..]) == Headers(sent) - Headers(sent[..from])
    ensures Distinct(HeaderList(sent[from..]))
  {
    var early, late := sent[..from], sent[from..];
    assert sent == early + late;
    HeadersConcat(early, late);
    forall i, j | 0 <= i < |early| && 0 <= j < |late|
      ensures early[i].header != late[j].header
    {
      assert HeaderList(sent)[i] == early[i].header && HeaderList(sent)[from + j] == late[j].header;
    }
    forall i, j | 0 <= i < j < |late|
      ensures HeaderList(late)[i] != HeaderList(late)[j]
    {
      assert HeaderList(sent)[from + i] == late[i].header && HeaderList(sent)[from + j] == late[j].header;
    }
  }

  /** What is heard: each watched block once, as it is in the tree, besides children of the zero header. */
  lemma HeardBlocks(tree: Tree, polls: seq<Answers>, from: nat)
    requires Subscribes(tree, polls, from)
    ensures Distinct(HeaderList(Heard(polls, from)))
    ensures forall r <- Heard(polls, from) :: r.header in tree.blocks && r.block == tree.blocks[r.header]
    ensures forall h :: h in WatchedBlocks(tree, polls, from) <==>
              h in Headers(Heard(polls, from)) && tree.blocks[h].parent != GENESIS_PARENT
  {
    RunIndexesEveryPolledChain(tree, polls);
    var sent, heard := Run(EMPTY_INDEX, polls).sent, Heard(polls, from);
    LaterHeaders(sent, from);
    forall r | r in heard
      ensures r.header in tree.blocks && r.block == tree.blocks[r.header]
    {
      var i :| 0 <= i < |heard| && heard[i] == r;
      assert sent[from + i] == r;
    }
  }

  // ----- transactions in a list of records -----

  predicate Holds(record: BlockRecord, tx: LedgerTx) {
    record.block.parent != GENESIS_PARENT && tx in record.block.transactions
  }

  ghost predicate SomeHolds(records: seq<BlockRecord>, tx: LedgerTx) {
    exists i :: 0 <= i < |records| && Holds(records[i], tx)
  }

  ghost predicate HeldOnce(records: seq<BlockRecord>, tx: LedgerTx) {
    && (forall i :: 0 <= i < |records| && Holds(records[i], tx) ==>
          multiset(records[i].block.transactions)[tx] == 1)
    && (forall i, j :: 0 <= i < j < |records| ==> !(Holds(records[i], tx) && Holds(records[j], tx)))
  }

  ghost function HeldBy(records: seq<BlockRecord>, tx: LedgerTx): set<HeaderId> {
    set record | record in records && Holds(record, tx) :: record.header
  }

  lemma HeldByBlocks(records: seq<BlockRecord>, tx: LedgerTx, blocks: map<HeaderId, Block>)
    requires Distinct(HeaderList(records)) && HeldBy(records, tx) <= blocks.Keys
    requires forall r <- records :: r.header in blocks && r.block == blocks[r.header]
    ensures SomeHolds(records, tx) <==> exists h :: h in HeldBy(records, tx)
    ensures HeldOnce(records, tx) <==> HeldByOne(blocks, HeldBy(records, tx), tx)
  {
    var holders := HeldBy(records, tx);
    forall i | 0 <= i < |records| && Holds(records[i], tx)
      ensures records[i].header in holders && records[i].block == blocks[records[i].header]
    {
      assert records[i] in records;
    }
    forall h | h in holders
      ensures exists i :: 0 <= i < |records| && Holds(records[i], tx) && records[i].header == h
    {
      var r :| r in records && Holds(r, tx) && r.header == h;
      var i :| 0 <= i < |records| && records[i] == r;
      assert Holds(records[i], tx);
    }
    forall i, j | 0 <= i < j < |records|
      ensures records[i].header != records[j].header
    {
      assert HeaderList(records)[i] != HeaderList(records)[j];
    }
  }

  lemma {:induction false} WatchedTxsHas(records: seq<BlockRecord>, tx: LedgerTx)
    ensures tx in WatchedTxs(records) <==> SomeHolds(records, tx)
    ensures multiset(WatchedTxs(records))[tx] <= 1 <==> HeldOnce(records, tx)
  {
    if records != [] {
      var init, last := records[..|records| - 1], records[|records| - 1];
      WatchedTxsHas(init, tx);
      assert records == init + [last];
      HoldsSnoc(init, last, tx);
      if Holds(last, tx) {
        assert tx in multiset(last.block.transactions);
      } else if last.block.parent != GENESIS_PARENT {
        assert tx !in multiset(last.block.transactions);
      }
      assert tx in WatchedTxs(init) <==> tx in multiset(WatchedTxs(init));
    }
  }

  lemma HoldsSnoc(init: seq<BlockRecord>, last: BlockRecord, tx: LedgerTx)
    ensures SomeHolds(init + [last], tx) <==> SomeHolds(init, tx) || Holds(last, tx)
    ensures HeldOnce(init + [last], tx) <==>
            && HeldOnce(init, tx)
            && (Holds(last, tx) ==> multiset(last.block.transactions)[tx] == 1 && !SomeHolds(init, tx))
  {
    var records := init + [last];
    assert records[|init|] == last;
    assert forall i :: 0 <= i < |init| ==> records[i] == init[i];
  }

  // ----- what the counter is worth -----

  /** The transactions looked at are exactly the included ones, and one occurs once exactly when it is in one watched
      block only. */
  lemma IncludedIff(tree: Tree, polls: seq<Answers>, from: nat, tx: LedgerTx)
    requires Subscribes(tree, polls, from)
    ensures tx in WatchedTxs(Heard(polls, from)) <==> Included(tree, polls, from, tx)
    ensures multiset(WatchedTxs(Heard(polls, from)))[tx] <= 1 <==> AtMostOnce(tree, polls, from, tx)
  {
    var heard := Heard(polls, from);
    WatchedTxsHas(heard, tx);
    HeardBlocks(tree, polls, from);
    HeldByHolders(tree, polls, from, tx);
    HeldByBlocks(heard, tx, tree.blocks);
  }

  lemma HeldByHolders(tree: Tree, polls: seq<Answers>, from: nat, tx: LedgerTx)
    requires Subscribes(tree, polls, from)
    ensures HeldBy(Heard(polls, from), tx) == Holders(tree, polls, from, tx)
  {
    HeardBlocks(tree, polls, from);
    forall h
      ensures h in HeldBy(Heard(polls, from), tx) <==> h in Holders(tree, polls, from, tx)
    {
    }
  }

  /** Over any run: the counter is at least the number of different paying transactions included since the
      subscription, and equals it exactly when no paying transaction is in two watched blocks or twice in one. */
  lemma ObservedExactIff(tree: Tree, polls: seq<Answers>, from: nat, tracked: set<ZkPublicKey>)
    requires Subscribes(tree, polls, from)
    ensures var paying := PayingSet(WatchedTxs(Heard(polls, from)), tracked);
            && (forall tx :: tx in paying <==> Included(tree, polls, from, tx) && Pays(tx, tracked))
            && Observed(polls, from, tracked) >= |paying|
            && (Observed(polls, from, tracked) == |paying| <==> PayingAtMostOnce(tree, polls, from, tracked))
  {
    var watched := WatchedTxs(Heard(polls, from));
    forall tx
      ensures tx in watched <==> Included(tree, polls, from, tx)
      ensures multiset(watched)[tx] <= 1 <==> AtMostOnce(tree, polls, from, tx)
    {
      IncludedIff(tree, polls, from, tx);
    }
    assert forall tx :: tx in watched <==> multiset(watched)[tx] >= 1;
    CountExactIff(watched, tracked);
  }

  /** Half of the planned transactions, rounded up. */
  function Required(expected: nat): (r: nat)
    ensures 2 * r >= expected && 2 * (r - 1) < expected
  {
    (expected + 1) / 2
  }

  ghost function PlannedSet(accounts: seq<WalletInput>, count: nat): set<LedgerTx>
    requires count <= |accounts|
  {
    set k | 0 <= k < count :: WalletTransaction(accounts[k])
  }

  /** The planned transactions among those the capture task looks at (see `IncludedIff`). */
  ghost function PlannedIncluded(polls: seq<Answers>, from: nat, accounts: seq<WalletInput>, count: nat)
    : set<LedgerTx>
    requires from <= |Run(EMPTY_INDEX, polls).sent| && count <= |accounts|
  {
    set tx | tx in PlannedSet(accounts, count) && tx in WatchedTxs(Heard(polls, from))
  }

  /** Nobody else pays the tracked accounts. */
  ghost predicate OnlyPlannedPay(
      tree: Tree, polls: seq<Answers>, from: nat, planned: set<LedgerTx>, tracked: set<ZkPublicKey>)
    requires Subscribes(tree, polls, from)
  {
    forall tx :: Included(tree, polls, from, tx) && Pays(tx, tracked) ==> tx in planned
  }

  ghost predicate CountsPlan(t: Timing, wallet: seq<WalletAccount>, userLimit: Option<nat>) {
    t.runSecs >= 0.0 && (userLimit.Some? ==> userLimit.value > 0) && BuildCapturePlan(t, userLimit, wallet).Ok?
  }

  lemma SameTransactionIff(ids: seq<NodeId>, wallet: seq<WalletAccount>, userLimit: Option<nat>, i: nat, j: nat)
    requires i < LimitedUserCount(userLimit, |wallet|) && j < LimitedUserCount(userLimit, |wallet|)
    ensures var accounts := InitialAccounts(wallet, GenesisLedger(ids, wallet), userLimit);
            && i < |accounts| && j < |accounts|
            && (WalletTransaction(accounts[i]) == WalletTransaction(accounts[j])
                <==> wallet[i].PublicKey() == wallet[j].PublicKey())
  {
    GenesisMatchesAllAccounts(ids, wallet, userLimit);
    SharedInputIff(ids, wallet, userLimit, i, j);
    var accounts := InitialAccounts(wallet, GenesisLedger(ids, wallet), userLimit);
    assert WalletTransaction(accounts[i]).inputs[0] == NoteId(accounts[i].utxo);
    assert WalletTransaction(accounts[j]).inputs[0] == NoteId(accounts[j].utxo);
  }

  /** The plan has as many different transactions as it counts exactly when its accounts have different keys. */
  lemma PlannedCountIff(
      ids: seq<NodeId>, wallet: seq<WalletAccount>, userLimit: Option<nat>, count: nat)
    requires count <= LimitedUserCount(userLimit, |wallet|)
    ensures var accounts := InitialAccounts(wallet, GenesisLedger(ids, wallet), userLimit);
            && count <= |accounts| && |PlannedSet(accounts, count)| <= count
            && (|PlannedSet(accounts, count)| == count <==> DistinctKeysIn(wallet[..count]))
  {
    GenesisMatchesAllAccounts(ids, wallet, userLimit);
    var accounts := InitialAccounts(wallet, GenesisLedger(ids, wallet), userLimit);
    forall i, j | 0 <= i < j < count
      ensures WalletTransaction(accounts[i]) == WalletTransaction(accounts[j]) <==>
              wallet[i].PublicKey() == wallet[j].PublicKey()
    {
      SameTransactionIff(ids, wallet, userLimit, i, j);
    }
    PlannedSize(accounts, wallet, count);
  }

  lemma PlannedSize(accounts: seq<WalletInput>, wallet: seq<WalletAccount>, count: nat)
    requires count <= |accounts| <= |wallet|
    requires forall i, j :: 0 <= i < j < count ==>
                              (WalletTransaction(accounts[i]) == WalletTransaction(accounts[j]) <==>
                               wallet[i].PublicKey() == wallet[j].PublicKey())
    ensures |PlannedSet(accounts, count)| <= count
    ensures |PlannedSet(accounts, count)| == count <==> DistinctKeysIn(wallet[..count])
  {
    var planned := seq(count, k requires 0 <= k < count => WalletTransaction(accounts[k]));
    forall k | 0 <= k < count
      ensures WalletTransaction(accounts[k]) in planned
    {
      assert planned[k] == WalletTransaction(accounts[k]);
    }
    assert PlannedSet(accounts, count) == set tx | tx in planned;
    DistinctIffSize(planned);
    SameDistinctness(planned, wallet[..count]);
  }

  lemma {:induction false} DistinctIffSize<T>(s: seq<T>)
    ensures var members := set x | x in s;
            |members| <= |s| && (|members| == |s| <==> Distinct(s))
  {
    if s == [] {
      assert (set x | x in s) == {};
    } else {
      var init, last := s[..|s| - 1], s[|s| - 1];
      DistinctIffSize(init);
      assert (set x | x in s) == (set x | x in init) + {last};
      assert Distinct(s) <==> Distinct(init) && last !in init;
    }
  }

  lemma SameDistinctness(txs: seq<LedgerTx>, wallet: seq<WalletAccount>)
    requires |txs| == |wallet|
    requires forall i, j :: 0 <= i < j < |txs| ==>
                              (txs[i] == txs[j] <==> wallet[i].PublicKey() == wallet[j].PublicKey())
    ensures Distinct(txs) <==> DistinctKeysIn(wallet)
  {
  }

  /** The counter against the plan, for any ids, any wallet and any run of truthful polls with forks and failures: it is
      at least the number of planned transactions included since the subscription, and equals it exactly when no paying
      transaction is in two watched blocks or twice in one, and nobody else pays the accounts. */
  lemma ObservedAgainstPlan(
      t: Timing, ids: seq<NodeId>, wallet: seq<WalletAccount>, userLimit: Option<nat>,
      tree: Tree, polls: seq<Answers>, from: nat)
    requires CountsPlan(t, wallet, userLimit) && Subscribes(tree, polls, from)
    ensures var capture := BuildCapturePlan(t, userLimit, wallet).value;
            var accounts := InitialAccounts(wallet, GenesisLedger(ids, wallet), userLimit);
            var count, observed := capture.plan.count, Observed(polls, from, capture.tracked);
            && count <= |accounts|
            && observed >= |PlannedIncluded(polls, from, accounts, count)|
            && (observed == |PlannedIncluded(polls, from, accounts, count)| <==>
                && PayingAtMostOnce(tree, polls, from, capture.tracked)
                && OnlyPlannedPay(tree, polls, from, PlannedSet(accounts, count), capture.tracked))
  {
    PlansAgree(t, ids, wallet, userLimit);
    var capture := BuildCapturePlan(t, userLimit, wallet).value;
    var accounts := InitialAccounts(wallet, GenesisLedger(ids, wallet), userLimit);
    PlannedAmongPaying(tree, polls, from, accounts, capture.plan.count, capture.tracked);
  }

  lemma PlannedAmongPaying(
      tree: Tree, polls: seq<Answers>, from: nat, accounts: seq<WalletInput>, count: nat, tracked: set<ZkPublicKey>)
    requires Subscribes(tree, polls, from) && count <= |accounts|
    requires forall k :: 0 <= k < count ==> Pays(WalletTransaction(accounts[k]), tracked)
    ensures var observed, included := Observed(polls, from, tracked), PlannedIncluded(polls, from, accounts, count);
            && observed >= |included|
            && (observed == |included| <==>
                && PayingAtMostOnce(tree, polls, from, tracked)
                && OnlyPlannedPay(tree, polls, from, PlannedSet(accounts, count), tracked))
  {
    ObservedExactIff(tree, polls, from, tracked);
    var paying := PayingSet(WatchedTxs(Heard(polls, from)), tracked);
    var included := PlannedIncluded(polls, from, accounts, count);
    assert included <= paying;
    SubsetSize(included, paying);
    assert included == paying <==> forall tx <- paying :: tx in PlannedSet(accounts, count);
  }

  lemma SubsetSize<T>(a: set<T>, b: set<T>)
    requires a <= b
    ensures |a| <= |b| && (|a| == |b| <==> a == b)
  {
    assert b == a + (b - a);
  }

  /** `tx` is in a block that the polls after the k-th added, on whatever fork. */
  ghost predicate AddedAfter(tree: Tree, polls: seq<Answers>, k: nat, tx: LedgerTx)
    requires k <= |polls|
  {
    exists h <- Run(EMPTY_INDEX, polls).seen - Run(EMPTY_INDEX, polls[..k]).seen ::
      h != tree.genesis && h in tree.blocks && tree.blocks[h].parent != GENESIS_PARENT
      && tx in tree.blocks[h].transactions
  }

  /** The verdict of a capture task that subscribes after the k-th poll. If half of the plan is in blocks that later
      polls add, the expectation passes. It passes only then, if no paying transaction is in two of them or twice in
      one and nobody else pays the accounts. */
  lemma PassesIffHalfIncluded(
      t: Timing, ids: seq<NodeId>, wallet: seq<WalletAccount>, userLimit: Option<nat>,
      tree: Tree, polls: seq<Answers>, k: nat)
    requires CountsPlan(t, wallet, userLimit) && k <= |polls|
    requires tree.Valid() && forall a <- polls :: tree.Truthful(a)
    ensures |InitialAccounts(wallet, GenesisLedger(ids, wallet), userLimit)|
         >= BuildCapturePlan(t, userLimit, wallet).value.plan.count
    ensures Subscribes(tree, polls, |Run(EMPTY_INDEX, polls[..k]).sent|)
    ensures var capture := BuildCapturePlan(t, userLimit, wallet).value;
            var from, count := |Run(EMPTY_INDEX, polls[..k]).sent|, capture.plan.count;
            var planned := PlannedSet(InitialAccounts(wallet, GenesisLedger(ids, wallet), userLimit), count);
            var included := set tx | tx in planned && AddedAfter(tree, polls, k, tx);
            var passes := Observed(polls, from, capture.tracked) >= Required(count);
            && (|included| >= Required(count) ==> passes)
            && (PayingAtMostOnce(tree, polls, from, capture.tracked)
                && OnlyPlannedPay(tree, polls, from, planned, capture.tracked) ==>
                  passes ==> |included| >= Required(count))
  {
    SubscribedAfterPoll(tree, polls, k);
    var from := |Run(EMPTY_INDEX, polls[..k]).sent|;
    ObservedAgainstPlan(t, ids, wallet, userLimit, tree, polls, from);
    var count := BuildCapturePlan(t, userLimit, wallet).value.plan.count;
    var accounts := InitialAccounts(wallet, GenesisLedger(ids, wallet), userLimit);
    forall tx
      ensures tx in WatchedTxs(Heard(polls, from)) <==> AddedAfter(tree, polls, k, tx)
    {
      AddedIsIncluded(tree, polls, k, tx);
    }
    var planned := PlannedSet(accounts, count);
    assert PlannedIncluded(polls, from, accounts, count)
        == set tx | tx in planned && AddedAfter(tree, polls, k, tx);
  }

  lemma AddedIsIncluded(tree: Tree, polls: seq<Answers>, k: nat, tx: LedgerTx)
    requires tree.Valid() && (forall a <- polls :: tree.Truthful(a)) && k <= |polls|
    ensures Subscribes(tree, polls, |Run(EMPTY_INDEX, polls[..k]).sent|)
    ensures tx in WatchedTxs(Heard(polls, |Run(EMPTY_INDEX, polls[..k]).sent|)) <==> AddedAfter(tree, polls, k, tx)
  {
    SubscribedAfterPoll(tree, polls, k);
    var from := |Run(EMPTY_INDEX, polls[..k]).sent|;
    IncludedIff(tree, polls, from, tx);
    RunIndexesEveryPolledChain(tree, polls);
    ChainsClosed(tree, SuccessfulTips(EMPTY_INDEX, polls));
    if AddedAfter(tree, polls, k, tx) {
      var h :| h in Run(EMPTY_INDEX, polls).seen - Run(EMPTY_INDEX, polls[..k]).seen && h != tree.genesis
               && h in tree.blocks && tree.blocks[h].parent != GENESIS_PARENT && tx in tree.blocks[h].transactions;
      assert h in Holders(tree, polls, from, tx);
    }
  }

  // ----- forks -----

  function Sibling(tx: LedgerTx): Block {
    Block(1, [tx])
  }

  /** Genesis 1 with children 2 to n+1 that all hold the one transaction `tx`. */
  function ForkTree(n: nat, tx: LedgerTx): Tree {
    if n == 0 then Tree(1, map[], map[1 := 0])
    else
      var smaller := ForkTree(n - 1, tx);
      Tree(1, smaller.blocks[n + 1 := Sibling(tx)], smaller.depth[n + 1 := 1])
  }

  const GENESIS_POLL := Answers(Some(ConsensusInfo(1, 0)), map[])

  function SiblingPoll(n: nat, tx: LedgerTx): Answers {
    Answers(Some(ConsensusInfo(n + 1, 1)), map[n + 1 := Sibling(tx)])
  }

  /** The node first reports genesis, then each child in turn. */
  function ForkPolls(n: nat, tx: LedgerTx): seq<Answers> {
    if n == 0 then [GENESIS_POLL] else ForkPolls(n - 1, tx) + [SiblingPoll(n, tx)]
  }

  function ForkRecords(n: nat, tx: LedgerTx): seq<BlockRecord> {
    if n == 0 then [] else ForkRecords(n - 1, tx) + [BlockRecord(n + 1, Sibling(tx))]
  }

  ghost predicate Served(tree: Tree, polls: seq<Answers>) {
    forall a <- polls :: tree.Truthful(a)
  }

  /** Headers 1 to n+1, all but the first with a block. */
  ghost predicate IsFork(tree: Tree, n: nat) {
    && tree.Valid() && tree.genesis == 1
    && (forall h :: h in tree.depth <==> 1 <= h <= n + 1)
    && (forall h :: h in tree.blocks <==> 2 <= h <= n + 1)
  }

  lemma {:induction false} ForkIsTruthful(n: nat, tx: LedgerTx)
    ensures IsFork(ForkTree(n, tx), n) && Served(ForkTree(n, tx), ForkPolls(n, tx))
  {
    if n > 0 {
      ForkIsTruthful(n - 1, tx);
      AddSibling(ForkTree(n - 1, tx), n, tx, ForkPolls(n - 1, tx));
    }
  }

  lemma AddSibling(smaller: Tree, n: nat, tx: LedgerTx, polls: seq<Answers>)
    requires n > 0 && IsFork(smaller, n - 1) && Served(smaller, polls)
    ensures var tree := Tree(1, smaller.blocks[n + 1 := Sibling(tx)], smaller.depth[n + 1 := 1]);
            && IsFork(tree, n)
            && Served(tree, polls + [SiblingPoll(n, tx)])
  {
    var tree := Tree(1, smaller.blocks[n + 1 := Sibling(tx)], smaller.depth[n + 1 := 1]);
    forall a | a in polls
      ensures tree.Truthful(a)
    {
      assert smaller.Truthful(a);
    }
  }

  lemma RunSnoc(index: Index, polls: seq<Answers>, last: Answers)
    ensures Run(index, polls + [last]) == Poll(Run(index, polls), last)
  {
    assert (polls + [last])[..|polls|] == polls;
  }

  ghost predicate KnowsUpTo(seen: set<HeaderId>, n: nat) {
    forall h :: h in seen <==> 1 <= h <= n
  }

  lemma {:induction false} ForkRun(n: nat, tx: LedgerTx)
    ensures KnowsUpTo(Run(EMPTY_INDEX, ForkPolls(n, tx)).seen, n + 1)
    ensures Run(EMPTY_INDEX, ForkPolls(n, tx)).sent == ForkRecords(n, tx)
  {
    if n == 0 {
      RunSnoc(EMPTY_INDEX, [], GENESIS_POLL);
      assert [] + [GENESIS_POLL] == ForkPolls(0, tx);
      FirstSeesGenesis();
    } else {
      ForkRun(n - 1, tx);
      RunSnoc(EMPTY_INDEX, ForkPolls(n - 1, tx), SiblingPoll(n, tx));
      NextSibling(Run(EMPTY_INDEX, ForkPolls(n - 1, tx)), n, tx);
    }
  }

  lemma FirstSeesGenesis()
    ensures Poll(EMPTY_INDEX, GENESIS_POLL).sent == [] && KnowsUpTo(Poll(EMPTY_INDEX, GENESIS_POLL).seen, 1)
  {
    assert WalkOf(EMPTY_INDEX, GENESIS_POLL) == Walked([], Some(1));
  }

  lemma NextSibling(before: Index, n: nat, tx: LedgerTx)
    requires n > 0 && KnowsUpTo(before.seen, n)
    ensures Poll(before, SiblingPoll(n, tx)).sent == before.sent + [BlockRecord(n + 1, Sibling(tx))]
    ensures KnowsUpTo(Poll(before, SiblingPoll(n, tx)).seen, n + 1)
  {
    assert WalkOf(before, SiblingPoll(n, tx)) == Walked([BlockRecord(n + 1, Sibling(tx))], None);
    assert Headers([BlockRecord(n + 1, Sibling(tx))]) == {n + 1};
  }

  lemma {:induction false} CopiesWatched(n: nat, tx: LedgerTx)
    ensures WatchedTxs(ForkRecords(n, tx)) == Copies(n, tx)
  {
    if n > 0 {
      CopiesWatched(n - 1, tx);
      assert ForkRecords(n, tx)[..|ForkRecords(n, tx)| - 1] == ForkRecords(n - 1, tx);
    }
  }

  function Copies(n: nat, tx: LedgerTx): (r: seq<LedgerTx>)
    ensures |r| == n && forall x <- r :: x == tx
  {
    if n == 0 then [] else Copies(n - 1, tx) + [tx]
  }

  lemma CountSnoc(txs: seq<LedgerTx>, last: LedgerTx, tracked: set<ZkPublicKey>)
    ensures CountPaying(txs + [last], tracked) == CountPaying(txs, tracked) + if Pays(last, tracked) then 1 else 0
  {
    assert (txs + [last])[..|txs|] == txs;
  }

  lemma {:induction false} CopiesCounted(n: nat, tx: LedgerTx, tracked: set<ZkPublicKey>)
    requires Pays(tx, tracked)
    ensures CountPaying(Copies(n, tx), tracked) == n
  {
    if n > 0 {
      CopiesCounted(n - 1, tx, tracked);
      CountSnoc(Copies(n - 1, tx), tx, tracked);
    }
  }

  lemma {:induction false} FirstPoll(n: nat, tx: LedgerTx)
    ensures |ForkPolls(n, tx)| == n + 1 && ForkPolls(n, tx)[..1] == ForkPolls(0, tx)
  {
    if n > 0 {
      FirstPoll(n - 1, tx);
      assert ForkPolls(n, tx)[..1] == ForkPolls(n - 1, tx)[..1];
    }
  }

  /** One transaction on every side of an n-way fork is counted n times by a capture task that subscribes after the
      first poll. */
  lemma ForksCountEachSide(n: nat, tx: LedgerTx, tracked: set<ZkPublicKey>)
    requires Pays(tx, tracked) && n > 0
    ensures Run(EMPTY_INDEX, ForkPolls(n, tx)[..1]).sent == []
    ensures Subscribes(ForkTree(n, tx), ForkPolls(n, tx), 0)
    ensures Observed(ForkPolls(n, tx), 0, tracked) == n
    ensures forall x :: Included(ForkTree(n, tx), ForkPolls(n, tx), 0, x) <==> x == tx
  {
    var tree, polls := ForkTree(n, tx), ForkPolls(n, tx);
    FirstPoll(n, tx);
    ForkRun(0, tx);
    ForkRun(n, tx);
    ForkIsTruthful(n, tx);
    CopiesWatched(n, tx);
    CopiesCounted(n, tx, tracked);
    assert Heard(polls, 0) == ForkRecords(n, tx);
    forall x
      ensures Included(tree, polls, 0, x) <==> x == tx
    {
      IncludedIff(tree, polls, 0, x);
      assert Copies(n, tx)[0] in Copies(n, tx);
    }
  }

  /** So for every plan there is a run in which the expectation passes though a single planned transaction is
      included. */
  lemma OneTransactionCanPass(
      t: Timing, ids: seq<NodeId>, wallet: seq<WalletAccount>, userLimit: Option<nat>)
      returns (tree: Tree, polls: seq<Answers>)
    requires CountsPlan(t, wallet, userLimit)
    ensures polls != [] && Run(EMPTY_INDEX, polls[..1]).sent == [] && Subscribes(tree, polls, 0)
    ensures var capture := BuildCapturePlan(t, userLimit, wallet).value;
            var accounts := InitialAccounts(wallet, GenesisLedger(ids, wallet), userLimit);
            && Observed(polls, 0, capture.tracked) >= Required(capture.plan.count)
            && capture.plan.count <= |accounts|
            && |PlannedIncluded(polls, 0, accounts, capture.plan.count)| == 1
  {
    PlansAgree(t, ids, wallet, userLimit);
    var capture := BuildCapturePlan(t, userLimit, wallet).value;
    var accounts := InitialAccounts(wallet, GenesisLedger(ids, wallet), userLimit);
    tree, polls := OneForked(accounts, capture.plan.count, capture.tracked, Required(capture.plan.count));
  }

  lemma OneForked(accounts: seq<WalletInput>, count: nat, tracked: set<ZkPublicKey>, n: nat)
      returns (tree: Tree, polls: seq<Answers>)
    requires 0 < count <= |accounts| && n > 0 && Pays(WalletTransaction(accounts[0]), tracked)
    ensures polls != [] && Run(EMPTY_INDEX, polls[..1]).sent == [] && Subscribes(tree, polls, 0)
    ensures Observed(polls, 0, tracked) == n
    ensures |PlannedIncluded(polls, 0, accounts, count)| == 1
  {
    var tx := WalletTransaction(accounts[0]);
    tree, polls := ForkTree(n, tx), ForkPolls(n, tx);
    ForksCountEachSide(n, tx, tracked);
    FirstPoll(n, tx);
    forall x
      ensures x in WatchedTxs(Heard(polls, 0)) <==> x == tx
    {
      IncludedIff(tree, polls, 0, x);
    }
    assert PlannedIncluded(polls, 0, accounts, count) == {tx};
  }
}
