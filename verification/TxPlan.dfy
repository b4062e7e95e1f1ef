/** The transaction workload and the expectation that watches it: both plan on their own, and must agree. */
module TxPlan {
  import opened Wrappers
  import opened Ledger
  import opened Wallet
  import opened Genesis
  import opened BlockFeed

  datatype WalletInput = WalletInput(account: WalletAccount, utxo: Utxo)

  datatype PlanError = NoWalletAccounts | NoMatchingAccounts | NoAccountsAvailable | ZeroTransactions | SubmitFailed

  /** How many transactions, and how many seconds between two of them. */
  datatype SubmissionPlan = SubmissionPlan(count: nat, interval: real)

  /** The wanted number of transactions: the rate times the estimated blocks of the run. Without a block interval the
      run counts as one block. Dividing by a zero block time gives infinity, which saturates, or for a run of no length
      an undefined number, which converts to zero. */
  function TargetCount(txsPerBlock: nat, runSecs: real, blockSecsHint: Option<real>): (r: nat)
    requires runSecs >= 0.0 && (blockSecsHint.Some? ==> blockSecsHint.value >= 0.0)
    ensures r < U64_MODULUS
    ensures blockSecsHint.None? && runSecs > 0.0 && txsPerBlock < U64_MODULUS ==> r == txsPerBlock
  {
    var blockSecs := if blockSecsHint.Some? then blockSecsHint.value else runSecs;
    if blockSecs == 0.0 then (if runSecs > 0.0 then U64_MODULUS - 1 else 0)
    else
      assert blockSecsHint.None? ==> runSecs / blockSecs == 1.0;
      assert runSecs / blockSecs * (txsPerBlock as real) >= 0.0;
      var wanted := (runSecs / blockSecs * (txsPerBlock as real)).Floor;
      if wanted < U64_MODULUS then wanted else U64_MODULUS - 1
  }

  /** A run of so many seconds in which so many transactions are wanted (see `TargetCount`). */
  datatype Timing = Timing(target: nat, runSecs: real)

  /** What the run's metrics and the configured rate amount to. */
  function TimingOf(txsPerBlock: nat, runSecs: real, blockSecsHint: Option<real>): Timing
    requires txsPerBlock > 0 && runSecs >= 0.0 && (blockSecsHint.Some? ==> blockSecsHint.value >= 0.0)
  {
    Timing(TargetCount(txsPerBlock, runSecs, blockSecsHint), runSecs)
  }

  function LimitedUserCount(userLimit: Option<nat>, available: nat): (r: nat)
    ensures r <= available && (userLimit.Some? ==> r <= userLimit.value)
    ensures r == available || userLimit == Some(r)
  {
    match userLimit case None => available case Some(limit) => if limit <= available then limit else available
  }

  function ApplyUserLimit<T>(items: seq<T>, userLimit: Option<nat>): seq<T> {
    items[..LimitedUserCount(userLimit, |items|)]
  }

  function PlanFor(t: Timing, available: nat): (r: Result<SubmissionPlan, PlanError>)
    requires t.runSecs >= 0.0
    ensures r.Ok? <==> available > 0 && t.target > 0
    ensures r.Err? ==> r.error == if available == 0 then NoAccountsAvailable else ZeroTransactions
    ensures r.Ok? ==> 1 <= r.value.count <= available && 0.0 <= r.value.interval <= 1.0
    ensures r.Ok? ==> r.value.count <= t.target && (r.value.count == available || r.value.count == t.target)
    ensures r.Ok? ==> r.value.interval * (r.value.count as real) <= t.runSecs
  {
    if available == 0 then Err(NoAccountsAvailable)
    else
      var count := if t.target < available then t.target else available;
      if count == 0 then Err(ZeroTransactions)
      else
        Ok(SubmissionPlan(count, Interval(t.runSecs, count)))
  }

  /** The run spread evenly over the transactions, but at most one second. */
  function Interval(runSecs: real, count: nat): (r: real)
    requires runSecs >= 0.0 && count > 0
    ensures 0.0 <= r <= 1.0 && r * (count as real) <= runSecs
  {
    var spread := runSecs / (count as real);
    assert spread * (count as real) == runSecs;
    if spread > 1.0 then ScaleUp(1.0, spread, count as real); 1.0 else spread
  }

  /** The pause of a plan is the longest that is at most a second and lets all pauses fit the run. */
  lemma PauseIsLongest(t: Timing, available: nat, pause: real)
    requires t.runSecs >= 0.0 && PlanFor(t, available).Ok?
    ensures var plan := PlanFor(t, available).value;
            pause <= plan.interval <==> pause <= 1.0 && pause * (plan.count as real) <= t.runSecs
  {
    var plan := PlanFor(t, available).value;
    var k := plan.count as real;
    if pause <= plan.interval {
      ScaleUp(pause, plan.interval, k);
    } else if plan.interval < 1.0 {
      assert plan.interval * k == t.runSecs;
      assert (pause - plan.interval) * k > 0.0;
      assert pause * k == plan.interval * k + (pause - plan.interval) * k;
    }
  }

  lemma ScaleUp(a: real, b: real, k: real)
    requires a <= b && 0.0 <= k
    ensures a * k <= b * k
  {
  }

  // ----- the workload -----

  /** Every genesis output by its owner's key; of several outputs with one owner the last remains. */
  function WalletUtxoMap(tx: LedgerTx, k: nat): map<ZkPublicKey, Utxo>
    requires k <= |tx.outputs|
  {
    if k == 0 then map[]
    else WalletUtxoMap(tx, k - 1)[tx.outputs[k - 1].pk := Utxo(LedgerHash(tx), k - 1, tx.outputs[k - 1])]
  }

  function MatchAccounts(accounts: seq<WalletAccount>, utxos: map<ZkPublicKey, Utxo>): seq<WalletInput> {
    if accounts == [] then []
    else
      (if accounts[0].PublicKey() in utxos then [WalletInput(accounts[0], utxos[accounts[0].PublicKey()])] else [])
      + MatchAccounts(accounts[1..], utxos)
  }

  function InitialAccounts(wallet: seq<WalletAccount>, genesis: LedgerTx, userLimit: Option<nat>): seq<WalletInput> {
    ApplyUserLimit(MatchAccounts(wallet, WalletUtxoMap(genesis, |genesis.outputs|)), userLimit)
  }

  function WalletTransaction(input: WalletInput): LedgerTx {
    LedgerTx([NoteId(input.utxo)], [Note(input.utxo.note.value, input.account.PublicKey())])
  }

  function OutputValue(tx: LedgerTx, n: nat): nat
    requires n <= |tx.outputs|
  {
    if n == 0 then 0 else OutputValue(tx, n - 1) + tx.outputs[n - 1].value
  }

  /** `tx` spends the note of `input` and nothing else, and pays exactly its value back to the account. */
  ghost predicate Returns(tx: LedgerTx, input: WalletInput) {
    && tx.inputs == [NoteId(input.utxo)]
    && OutputValue(tx, |tx.outputs|) == input.utxo.note.value
    && forall note <- tx.outputs :: note.pk == input.account.PublicKey()
  }

  lemma WalletTransactionReturns(input: WalletInput)
    ensures Returns(WalletTransaction(input), input)
  {
    var tx := WalletTransaction(input);
    assert OutputValue(tx, 1) == OutputValue(tx, 0) + tx.outputs[0].value;
  }

  class Workload {
    const userLimit: Option<nat>
    var accounts: seq<WalletInput>

    constructor (userLimit: Option<nat>)
      requires userLimit.Some? ==> userLimit.value > 0
      ensures this.userLimit == userLimit && accounts == []
    {
      this.userLimit := userLimit;
      accounts := [];
    }

    method Init(wallet: seq<WalletAccount>, genesis: LedgerTx) returns (r: Outcome<PlanError>)
      modifies this`accounts
      ensures r.Pass? <==> wallet != [] && InitialAccounts(wallet, genesis, userLimit) != []
      ensures accounts == if r.Pass? then InitialAccounts(wallet, genesis, userLimit) else old(accounts)
    {
      if wallet == [] {
        return Fail(NoWalletAccounts);
      }
      var matched := MatchAccounts(wallet, WalletUtxoMap(genesis, |genesis.outputs|));
      matched := ApplyUserLimit(matched, userLimit);
      if matched == [] {
        return Fail(NoMatchingAccounts);
      }
      accounts := matched;
      return Pass;
    }

    /** Submits the planned accounts front to back, each once, pausing after each, until a submission fails.
        `accepted[k]`: the cluster takes the k-th transaction. */
    method Execute(t: Timing, accepted: seq<bool>)
      returns (r: Outcome<PlanError>, submitted: seq<LedgerTx>, slept: real)
      requires t.runSecs >= 0.0 && |accepted| >= |accounts|
      ensures var plan := PlanFor(t, |accounts|);
              if plan.Err? then r == Fail(plan.error) && submitted == []
              else
                && (r.Pass? <==> forall k :: 0 <= k < plan.value.count ==> accepted[k])
                && |submitted| <= plan.value.count && (r.Pass? ==> |submitted| == plan.value.count)
                && (forall k :: 0 <= k < |submitted| ==> accepted[k] && submitted[k] == WalletTransaction(accounts[k]))
                && (forall k :: 0 <= k < |submitted| ==> Returns(submitted[k], accounts[k]))
                && slept == Slept(plan.value.interval, |submitted|) <= t.runSecs
    {
      submitted, slept := [], 0.0;
      var plan := PlanFor(t, |accounts|);
      if plan.Err? {
        return Fail(plan.error), submitted, slept;
      }
      var queue := accounts[..plan.value.count];
      while queue != []
        invariant |submitted| + |queue| == plan.value.count
        invariant queue == accounts[|submitted|..plan.value.count]
        invariant forall k :: 0 <= k < |submitted| ==> submitted[k] == WalletTransaction(accounts[k])
        invariant forall k :: 0 <= k < |submitted| ==> Returns(submitted[k], accounts[k])
        invariant forall k :: 0 <= k < |submitted| ==> accepted[k]
        invariant slept == Slept(plan.value.interval, |submitted|)
        decreases |queue|
      {
        var input := queue[0];
        queue := queue[1..];
        if !accepted[|submitted|] {
          SleepsFit(t, |accounts|, |submitted|);
          return Fail(SubmitFailed), submitted, slept;
        }
        WalletTransactionReturns(input);
        submitted := submitted + [WalletTransaction(input)];
        slept := slept + plan.value.interval;
      }
      SleepsFit(t, |accounts|, |submitted|);
      return Pass, submitted, slept;
    }
  }

  /** Time spent in `n` pauses. */
  function Slept(interval: real, n: nat): real {
    if n == 0 then 0.0 else Slept(interval, n - 1) + interval
  }

  lemma {:induction false} SleptIsProduct(interval: real, n: nat)
    ensures Slept(interval, n) == interval * (n as real)
  {
    if n > 0 {
      SleptIsProduct(interval, n - 1);
      assert interval * (n as real) == interval * ((n - 1) as real + 1.0);
    }
  }

  /** The pauses of a plan never outlast the run. */
  lemma SleepsFit(t: Timing, available: nat, n: nat)
    requires t.runSecs >= 0.0 && PlanFor(t, available).Ok? && n <= PlanFor(t, available).value.count
    ensures Slept(PlanFor(t, available).value.interval, n) <= t.runSecs
  {
    PausesFit(PlanFor(t, available).value.interval, PlanFor(t, available).value.count, n, t.runSecs);
  }

  lemma PausesFit(interval: real, count: nat, n: nat, runSecs: real)
    requires interval >= 0.0 && n <= count && interval * (count as real) <= runSecs
    ensures Slept(interval, n) <= runSecs
  {
    SleptMonotone(interval, n, count);
    SleptIsProduct(interval, count);
  }

  lemma {:induction false} SleptMonotone(interval: real, n: nat, m: nat)
    requires interval >= 0.0 && n <= m
    ensures Slept(interval, n) <= Slept(interval, m)
    decreases m
  {
    if n < m {
      SleptMonotone(interval, n, m - 1);
    }
  }

  // ----- the expectation -----

  datatype CapturePlan = CapturePlan(plan: SubmissionPlan, tracked: set<ZkPublicKey>)

  function PublicKeys(accounts: seq<WalletAccount>): set<ZkPublicKey> {
    set a | a in accounts :: a.PublicKey()
  }

  function BuildCapturePlan(t: Timing, userLimit: Option<nat>, wallet: seq<WalletAccount>)
    : Result<CapturePlan, PlanError>
    requires t.runSecs >= 0.0
  {
    if wallet == [] then Err(NoWalletAccounts)
    else
      match PlanFor(t, LimitedUserCount(userLimit, |wallet|))
      case Err(e) => Err(e)
      case Ok(plan) => Ok(CapturePlan(plan, PublicKeys(wallet[..plan.count])))
  }

  predicate Pays(tx: LedgerTx, tracked: set<ZkPublicKey>) {
    exists note <- tx.outputs :: note.pk in tracked
  }

  function CountPaying(txs: seq<LedgerTx>, tracked: set<ZkPublicKey>): nat {
    if txs == [] then 0
    else CountPaying(txs[..|txs| - 1], tracked) + if Pays(txs[|txs| - 1], tracked) then 1 else 0
  }

  /** Parent of the genesis block. */
  const GENESIS_PARENT: HeaderId := 0

  /** Transactions the capture task looks at: those of every delivered block except the children of the zero header. */
  function WatchedTxs(sent: seq<BlockRecord>): seq<LedgerTx> {
    if sent == [] then []
    else
      var last := sent[|sent| - 1].block;
      WatchedTxs(sent[..|sent| - 1]) + if last.parent == GENESIS_PARENT then [] else last.transactions
  }

  /** Positions of the transactions with an output to a tracked key. */
  ghost function PayingPositions(txs: seq<LedgerTx>, tracked: set<ZkPublicKey>): set<nat> {
    set k: nat | k < |txs| && exists n :: 0 <= n < |txs[k].outputs| && txs[k].outputs[n].pk in tracked
  }

  lemma PositionsSnoc(init: seq<LedgerTx>, last: LedgerTx, tracked: set<ZkPublicKey>)
    ensures PayingPositions(init + [last], tracked)
         == PayingPositions(init, tracked) + if Pays(last, tracked) then {|init|} else {}
  {
    var txs := init + [last];
    assert Pays(last, tracked) <==> exists n :: 0 <= n < |last.outputs| && last.outputs[n].pk in tracked;
    forall k: nat
      ensures k in PayingPositions(txs, tracked) <==>
              k in PayingPositions(init, tracked) || (k == |init| && Pays(last, tracked))
    {
      assert k < |init| ==> txs[k] == init[k];
    }
  }

  lemma {:induction false} CountIsPositions(txs: seq<LedgerTx>, tracked: set<ZkPublicKey>)
    ensures CountPaying(txs, tracked) == |PayingPositions(txs, tracked)|
  {
    if txs != [] {
      var init, last := txs[..|txs| - 1], txs[|txs| - 1];
      CountIsPositions(init, tracked);
      assert txs == init + [last];
      PositionsSnoc(init, last, tracked);
    }
  }

  /** Counts a transaction once, however many of its outputs are tracked. */
  method CaptureTxOutputs(block: Block, tracked: set<ZkPublicKey>, observed: nat) returns (observed': nat)
    ensures observed' == observed + CountPaying(block.transactions, tracked)
    ensures observed' == observed + |PayingPositions(block.transactions, tracked)|
  {
    observed' := observed;
    for i := 0 to |block.transactions|
      invariant observed' == observed + CountPaying(block.transactions[..i], tracked)
    {
      var tx := block.transactions[i];
      assert block.transactions[..i + 1][..i] == block.transactions[..i];
      var k := 0;
      while k < |tx.outputs| && tx.outputs[k].pk !in tracked
        invariant k <= |tx.outputs| && forall n :: 0 <= n < k ==> tx.outputs[n].pk !in tracked
      {
        k := k + 1;
      }
      if k < |tx.outputs| {
        assert tx.outputs[k] in tx.outputs;
        observed' := observed' + 1;
      }
    }
    assert block.transactions[..|block.transactions|] == block.transactions;
    CountIsPositions(block.transactions, tracked);
  }

  /** The capture task over a whole feed: the counter is the number of watched transactions that pay a tracked key. */
  method CaptureFeed(sent: seq<BlockRecord>, tracked: set<ZkPublicKey>) returns (observed: nat)
    ensures observed == CountPaying(WatchedTxs(sent), tracked)
  {
    observed := 0;
    for i := 0 to |sent|
      invariant observed == CountPaying(WatchedTxs(sent[..i]), tracked)
    {
      assert sent[..i + 1][..i] == sent[..i];
      if sent[i].block.parent == GENESIS_PARENT {
        assert WatchedTxs(sent[..i + 1]) == WatchedTxs(sent[..i]) + [] == WatchedTxs(sent[..i]);
        continue;
      }
      CountConcat(WatchedTxs(sent[..i]), sent[i].block.transactions, tracked);
      observed := CaptureTxOutputs(sent[i].block, tracked, observed);
    }
    assert sent[..|sent|] == sent;
  }

  lemma {:induction false} CountConcat(a: seq<LedgerTx>, b: seq<LedgerTx>, tracked: set<ZkPublicKey>)
    ensures CountPaying(a + b, tracked) == CountPaying(a, tracked) + CountPaying(b, tracked)
  {
    if b == [] {
      assert a + b == a;
    } else {
      var init := b[..|b| - 1];
      CountConcat(a, init, tracked);
      assert (a + b)[..|a + b| - 1] == a + init;
    }
  }

  // ----- the two plans agree -----

  /** `utxo` is the last of the first `k` outputs that belongs to `pk`. */
  ghost predicate LastOutputOf(tx: LedgerTx, k: nat, pk: ZkPublicKey, utxo: Utxo)
    requires k <= |tx.outputs|
  {
    && utxo.outputIndex < k && utxo == Utxo(LedgerHash(tx), utxo.outputIndex, tx.outputs[utxo.outputIndex])
    && utxo.note.pk == pk
    && forall i :: utxo.outputIndex < i < k ==> tx.outputs[i].pk != pk
  }

  lemma {:induction false} UtxoMapLooksUp(tx: LedgerTx, k: nat)
    requires k <= |tx.outputs|
    ensures forall i :: 0 <= i < k ==> tx.outputs[i].pk in WalletUtxoMap(tx, k)
    ensures forall pk <- WalletUtxoMap(tx, k) :: LastOutputOf(tx, k, pk, WalletUtxoMap(tx, k)[pk])
  {
    if k > 0 {
      UtxoMapLooksUp(tx, k - 1);
      forall pk | pk in WalletUtxoMap(tx, k)
        ensures LastOutputOf(tx, k, pk, WalletUtxoMap(tx, k)[pk])
      {
        assert pk != tx.outputs[k - 1].pk ==> LastOutputOf(tx, k - 1, pk, WalletUtxoMap(tx, k - 1)[pk]);
      }
    }
  }

  lemma {:induction false} AllMatch(accounts: seq<WalletAccount>, utxos: map<ZkPublicKey, Utxo>)
    requires forall a <- accounts :: a.PublicKey() in utxos
    ensures |MatchAccounts(accounts, utxos)| == |accounts|
    ensures forall k :: 0 <= k < |accounts| ==>
              MatchAccounts(accounts, utxos)[k] == WalletInput(accounts[k], utxos[accounts[k].PublicKey()])
  {
    if accounts != [] {
      assert accounts[0] in accounts;
      AllMatch(accounts[1..], utxos);
    }
  }

  /** Every wallet account is matched against the genesis of its own batch, for any ids and any wallet, so the
      workload's accounts are the limited prefix of the wallet. */
  lemma GenesisMatchesAllAccounts(ids: seq<NodeId>, wallet: seq<WalletAccount>, userLimit: Option<nat>)
    ensures var genesis := GenesisLedger(ids, wallet);
            var accounts := InitialAccounts(wallet, genesis, userLimit);
            && |accounts| == LimitedUserCount(userLimit, |wallet|)
            && forall k :: 0 <= k < |accounts| ==>
                 && accounts[k].account == wallet[k]
                 && accounts[k].utxo.note.pk == wallet[k].PublicKey()
                 && accounts[k].utxo.outputIndex < |genesis.outputs|
                 && accounts[k].utxo == Utxo(LedgerHash(genesis), accounts[k].utxo.outputIndex,
                                             genesis.outputs[accounts[k].utxo.outputIndex])
  {
    var genesis := GenesisLedger(ids, wallet);
    var utxos := WalletUtxoMap(genesis, |genesis.outputs|);
    EveryAccountFunded(ids, wallet);
    UtxoMapLooksUp(genesis, |genesis.outputs|);
    AllMatch(wallet, utxos);
  }

  ghost predicate DistinctKeysIn(wallet: seq<WalletAccount>) {
    forall i, j :: 0 <= i < j < |wallet| ==> wallet[i].PublicKey() != wallet[j].PublicKey()
  }

  /** With distinct wallet keys, account `j` spends its own note, ledger output 3n+j, of its own value; so no two
      planned transactions spend the same note. */
  lemma AccountsSpendTheirOwnNote(ids: seq<NodeId>, wallet: seq<WalletAccount>, userLimit: Option<nat>, j: nat)
    requires DistinctKeysIn(wallet) && j < LimitedUserCount(userLimit, |wallet|)
    ensures j < |InitialAccounts(wallet, GenesisLedger(ids, wallet), userLimit)|
    ensures var utxo := InitialAccounts(wallet, GenesisLedger(ids, wallet), userLimit)[j].utxo;
            utxo.outputIndex == 3 * |ids| + j && utxo.note.value == wallet[j].value
  {
    var genesis := GenesisLedger(ids, wallet);
    EveryAccountFunded(ids, wallet);
    LookupIsLast(wallet, genesis, userLimit, j);
    OwnNoteIsLast(ids, wallet, j);
  }

  lemma OwnNoteIsLast(ids: seq<NodeId>, wallet: seq<WalletAccount>, j: nat)
    requires DistinctKeysIn(wallet) && j < |wallet|
    ensures var genesis := GenesisLedger(ids, wallet);
            var utxos := WalletUtxoMap(genesis, |genesis.outputs|);
            && wallet[j].PublicKey() in utxos
            && utxos[wallet[j].PublicKey()].outputIndex == 3 * |ids| + j
            && utxos[wallet[j].PublicKey()].note.value == wallet[j].value
  {
    var genesis := GenesisLedger(ids, wallet);
    var outputs, pk := genesis.outputs, wallet[j].PublicKey();
    UtxoMapLooksUp(genesis, |outputs|);
    assert outputs[3 * |ids| + j] == Note(wallet[j].value, pk);
    var index := WalletUtxoMap(genesis, |outputs|)[pk].outputIndex;
    assert outputs[index].pk == pk && index >= 3 * |ids| + j;
    assert outputs[index].pk == wallet[index - 3 * |ids|].PublicKey();
  }

  lemma LookupIsLast(wallet: seq<WalletAccount>, genesis: LedgerTx, userLimit: Option<nat>, j: nat)
    requires var utxos := WalletUtxoMap(genesis, |genesis.outputs|); forall a <- wallet :: a.PublicKey() in utxos
    requires j < LimitedUserCount(userLimit, |wallet|)
    ensures |InitialAccounts(wallet, genesis, userLimit)| == LimitedUserCount(userLimit, |wallet|)
    ensures InitialAccounts(wallet, genesis, userLimit)[j].utxo
         == WalletUtxoMap(genesis, |genesis.outputs|)[wallet[j].PublicKey()]
  {
    AllMatch(wallet, WalletUtxoMap(genesis, |genesis.outputs|));
  }

  /** Value paid out by the first `n` planned transactions. */
  function PlannedValue(accounts: seq<WalletInput>, n: nat): nat
    requires n <= |accounts|
  {
    if n == 0 then 0
    else
      var tx := WalletTransaction(accounts[n - 1]); PlannedValue(accounts, n - 1) + OutputValue(tx, |tx.outputs|)
  }

  /** Each planned transaction returns an account its own funds. */
  lemma PlannedReturnsOwnFunds(ids: seq<NodeId>, wallet: seq<WalletAccount>, userLimit: Option<nat>, j: nat)
    requires DistinctKeysIn(wallet) && j < LimitedUserCount(userLimit, |wallet|)
    ensures var accounts := InitialAccounts(wallet, GenesisLedger(ids, wallet), userLimit);
            && j < |accounts| && accounts[j].account == wallet[j]
            && accounts[j].utxo.note.value == wallet[j].value
            && Returns(WalletTransaction(accounts[j]), accounts[j])
  {
    GenesisMatchesAllAccounts(ids, wallet, userLimit);
    AccountsSpendTheirOwnNote(ids, wallet, userLimit, j);
    WalletTransactionReturns(InitialAccounts(wallet, GenesisLedger(ids, wallet), userLimit)[j]);
  }

  lemma TotalPrefix(wallet: seq<WalletAccount>, n: nat)
    requires 0 < n <= |wallet|
    ensures Total(wallet[..n]) == Total(wallet[..n - 1]) + wallet[n - 1].value
  {
    assert wallet[..n] == wallet[..n - 1] + [wallet[n - 1]];
    TotalSnoc(wallet[..n - 1], wallet[n - 1]);
  }

  ghost predicate ReturnsValues(accounts: seq<WalletInput>, wallet: seq<WalletAccount>, n: nat)
    requires n <= |accounts| && n <= |wallet|
  {
    forall k :: 0 <= k < n ==>
      var tx := WalletTransaction(accounts[k]); OutputValue(tx, |tx.outputs|) == wallet[k].value
  }

  lemma {:induction false} ValueIsTotal(accounts: seq<WalletInput>, wallet: seq<WalletAccount>, n: nat)
    requires n <= |accounts| && n <= |wallet| && ReturnsValues(accounts, wallet, n)
    ensures PlannedValue(accounts, n) == Total(wallet[..n])
  {
    if n > 0 {
      ValueIsTotal(accounts, wallet, n - 1);
      TotalPrefix(wallet, n);
    }
  }

  /** Conservation: with distinct wallet keys, a plan moves exactly the funds of the accounts it uses, no unit more or
      less. */
  lemma PlanConservesFunds(ids: seq<NodeId>, wallet: seq<WalletAccount>, userLimit: Option<nat>, n: nat)
    requires DistinctKeysIn(wallet) && n <= LimitedUserCount(userLimit, |wallet|)
    ensures var accounts := InitialAccounts(wallet, GenesisLedger(ids, wallet), userLimit);
            n <= |accounts| && PlannedValue(accounts, n) == Total(wallet[..n])
  {
    var accounts := InitialAccounts(wallet, GenesisLedger(ids, wallet), userLimit);
    if n > 0 {
      PlannedReturnsOwnFunds(ids, wallet, userLimit, n - 1);
    }
    forall k | 0 <= k < n
      ensures var tx := WalletTransaction(accounts[k]); OutputValue(tx, |tx.outputs|) == wallet[k].value
    {
      PlannedReturnsOwnFunds(ids, wallet, userLimit, k);
    }
    ValueIsTotal(accounts, wallet, n);
  }

  /** Two planned transactions spend the same note exactly when their accounts share a key. */
  lemma SharedInputIff(ids: seq<NodeId>, wallet: seq<WalletAccount>, userLimit: Option<nat>, i: nat, j: nat)
    requires i < LimitedUserCount(userLimit, |wallet|) && j < LimitedUserCount(userLimit, |wallet|)
    ensures var accounts := InitialAccounts(wallet, GenesisLedger(ids, wallet), userLimit);
            && i < |accounts| && j < |accounts|
            && (WalletTransaction(accounts[i]).inputs == WalletTransaction(accounts[j]).inputs
                <==> wallet[i].PublicKey() == wallet[j].PublicKey())
  {
    var genesis := GenesisLedger(ids, wallet);
    var accounts := InitialAccounts(wallet, genesis, userLimit);
    GenesisMatchesAllAccounts(ids, wallet, userLimit);
    EveryAccountFunded(ids, wallet);
    LookupIsLast(wallet, genesis, userLimit, i);
    LookupIsLast(wallet, genesis, userLimit, j);
    assert WalletTransaction(accounts[i]).inputs[0] == NoteId(accounts[i].utxo);
    assert WalletTransaction(accounts[j]).inputs[0] == NoteId(accounts[j].utxo);
  }

  lemma EveryAccountFunded(ids: seq<NodeId>, wallet: seq<WalletAccount>)
    ensures var genesis := GenesisLedger(ids, wallet);
            forall a <- wallet :: a.PublicKey() in WalletUtxoMap(genesis, |genesis.outputs|)
  {
    var genesis := GenesisLedger(ids, wallet);
    UtxoMapLooksUp(genesis, |genesis.outputs|);
    forall a | a in wallet
      ensures a.PublicKey() in WalletUtxoMap(genesis, |genesis.outputs|)
    {
      var j :| 0 <= j < |wallet| && wallet[j] == a;
      assert genesis.outputs[3 * |ids| + j].pk == a.PublicKey();
    }
  }

  /** Tracked are the keys of the first `count` accounts and no others. */
  ghost predicate TracksFirst(tracked: set<ZkPublicKey>, wallet: seq<WalletAccount>, count: nat)
    requires count <= |wallet|
  {
    forall pk :: pk in tracked <==> exists k :: 0 <= k < count && wallet[k].PublicKey() == pk
  }

  lemma PublicKeysAreFirst(wallet: seq<WalletAccount>, count: nat)
    requires count <= |wallet|
    ensures TracksFirst(PublicKeys(wallet[..count]), wallet, count)
  {
    var tracked := PublicKeys(wallet[..count]);
    forall k | 0 <= k < count
      ensures wallet[k].PublicKey() in tracked
    {
      assert wallet[k] in wallet[..count];
    }
  }

  lemma PlannedPayTracked(ids: seq<NodeId>, wallet: seq<WalletAccount>, userLimit: Option<nat>, count: nat)
    requires count <= LimitedUserCount(userLimit, |wallet|)
    ensures var accounts := InitialAccounts(wallet, GenesisLedger(ids, wallet), userLimit);
            && count <= |accounts|
            && forall k :: 0 <= k < count ==> Pays(WalletTransaction(accounts[k]), PublicKeys(wallet[..count]))
  {
    var accounts := InitialAccounts(wallet, GenesisLedger(ids, wallet), userLimit);
    GenesisMatchesAllAccounts(ids, wallet, userLimit);
    forall k | 0 <= k < count
      ensures Pays(WalletTransaction(accounts[k]), PublicKeys(wallet[..count]))
    {
      assert wallet[k] in wallet[..count];
      assert WalletTransaction(accounts[k]).outputs[0].pk == wallet[k].PublicKey();
    }
  }

  /** The workload and its expectation, planning independently, succeed or fail together with the same count and
      interval; the count respects the user limit; and every planned transaction pays a tracked key. That the pauses
      fit the run is in the contract of `PlanFor`. */
  lemma PlansAgree(t: Timing, ids: seq<NodeId>, wallet: seq<WalletAccount>, userLimit: Option<nat>)
    requires t.runSecs >= 0.0 && wallet != [] && (userLimit.Some? ==> userLimit.value > 0)
    ensures |InitialAccounts(wallet, GenesisLedger(ids, wallet), userLimit)|
         == LimitedUserCount(userLimit, |wallet|) > 0
    ensures var accounts := InitialAccounts(wallet, GenesisLedger(ids, wallet), userLimit);
            match BuildCapturePlan(t, userLimit, wallet)
            case Err(_) => PlanFor(t, |accounts|).Err? && t.target == 0
            case Ok(capture) =>
              && PlanFor(t, |accounts|) == Ok(capture.plan)
              && 1 <= capture.plan.count <= |accounts|
              && TracksFirst(capture.tracked, wallet, capture.plan.count)
              && forall k :: 0 <= k < capture.plan.count ==> Pays(WalletTransaction(accounts[k]), capture.tracked)
  {
    GenesisMatchesAllAccounts(ids, wallet, userLimit);
    var plan := PlanFor(t, LimitedUserCount(userLimit, |wallet|));
    if plan.Ok? {
      PlannedPayTracked(ids, wallet, userLimit, plan.value.count);
      PublicKeysAreFirst(wallet, plan.value.count);
    }
  }

  /** So many transactions are wanted as fit the run at the rate: `n` of them do when the run has a length and, at the
      given rate per block, takes at least the blocks for `n`. */
  lemma TargetIsLargest(txsPerBlock: nat, runSecs: real, blockSecsHint: Option<real>, n: nat)
    requires runSecs >= 0.0 && (blockSecsHint.Some? ==> blockSecsHint.value >= 0.0)
    requires 0 < n < U64_MODULUS
    ensures n <= TargetCount(txsPerBlock, runSecs, blockSecsHint) <==>
            var blockSecs := if blockSecsHint.Some? then blockSecsHint.value else runSecs;
            runSecs > 0.0 && (n as real) * blockSecs <= runSecs * (txsPerBlock as real)
  {
    var blockSecs := if blockSecsHint.Some? then blockSecsHint.value else runSecs;
    if blockSecs > 0.0 {
      QuotientAtLeastIff(runSecs, blockSecs, txsPerBlock as real, n as real);
      if runSecs == 0.0 {
        ScaleUp(1.0, n as real, blockSecs);
      }
    }
  }

  lemma QuotientAtLeastIff(a: real, b: real, k: real, n: real)
    requires b > 0.0
    ensures a / b * k >= n <==> n * b <= a * k
  {
    var q := a / b;
    assert a == q * b;
    assert a * k == (q * k) * b;
    if q * k >= n {
      ScaleUp(n, q * k, b);
    } else {
      assert (n - q * k) * b > 0.0;
    }
  }

  /** At the configured rate, both sides plan exactly when some transaction is wanted; without a known block interval
      they plan one transaction per unit of the rate, as far as there are accounts. */
  lemma PlansAgreeAtRate(
      txsPerBlock: nat, runSecs: real, blockSecsHint: Option<real>,
      ids: seq<NodeId>, wallet: seq<WalletAccount>, userLimit: Option<nat>)
    requires txsPerBlock > 0 && runSecs >= 0.0 && (blockSecsHint.Some? ==> blockSecsHint.value >= 0.0)
    requires wallet != [] && (userLimit.Some? ==> userLimit.value > 0)
    ensures var t := TimingOf(txsPerBlock, runSecs, blockSecsHint);
            var accounts := InitialAccounts(wallet, GenesisLedger(ids, wallet), userLimit);
            var planned := BuildCapturePlan(t, userLimit, wallet);
            && (planned.Ok? <==> PlanFor(t, |accounts|).Ok?)
            && (planned.Ok? <==>
                runSecs > 0.0 && (blockSecsHint.Some? ==> blockSecsHint.value <= runSecs * (txsPerBlock as real)))
            && (planned.Ok? && blockSecsHint.None? && txsPerBlock < U64_MODULUS ==>
                  planned.value.plan.count == if txsPerBlock < |accounts| then txsPerBlock else |accounts|)
  {
    TargetIsLargest(txsPerBlock, runSecs, blockSecsHint, 1);
    if runSecs > 0.0 {
      ScaleUp(1.0, txsPerBlock as real, runSecs);
      assert runSecs <= runSecs * (txsPerBlock as real);
    }
    PlansAgree(TimingOf(txsPerBlock, runSecs, blockSecsHint), ids, wallet, userLimit);
  }

  // ----- what the counter is worth -----

  /** The different transactions among `txs` that pay a tracked key. */
  ghost function PayingSet(txs: seq<LedgerTx>, tracked: set<ZkPublicKey>): set<LedgerTx> {
    set tx | tx in txs && Pays(tx, tracked)
  }

  /** The counter never misses a different paying transaction, and counts each once exactly when none occurs twice. */
  lemma {:induction false} CountExactIff(txs: seq<LedgerTx>, tracked: set<ZkPublicKey>)
    ensures CountPaying(txs, tracked) >= |PayingSet(txs, tracked)|
    ensures CountPaying(txs, tracked) == |PayingSet(txs, tracked)| <==>
            forall tx <- PayingSet(txs, tracked) :: multiset(txs)[tx] == 1
  {
    if txs != [] {
      var init, last := txs[..|txs| - 1], txs[|txs| - 1];
      assert txs == init + [last];
      CountExactIff(init, tracked);
      if !Pays(last, tracked) {
        assert PayingSet(txs, tracked) == PayingSet(init, tracked);
      } else if last in init {
        assert PayingSet(txs, tracked) == PayingSet(init, tracked);
        assert last in PayingSet(txs, tracked) && multiset(txs)[last] >= 2;
      } else {
        assert PayingSet(txs, tracked) == PayingSet(init, tracked) + {last};
        assert last !in multiset(init);
      }
    }
  }
}
