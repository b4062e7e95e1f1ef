# Verification of the blockchain testing framework

A Dafny model of the stateful and combinatorial parts of a multi-node blockchain test harness, with proofs of what
those parts are relied on for. `dafny verify dfyconfig.toml` checks the whole project.

| file | what it models |
|---|---|
| `BlockFeed.dfy`, `BlockFeedRuns.dfy` | the scanner that turns polls of a forking chain into a feed of blocks |
| `ConfigRepo.dfy`, `ConfigRepoRuns.dfy` | the config-sync barrier: registrations, timeout, one-shot replies |
| `Hosts.dfy`, `Text.dfy`, `PeerRewrite.dfy`, `NodeConfigs.dfy` | ordering hosts, rewriting peer addresses, assembling configs |
| `Addresses.dfy`, `Layout.dfy`, `PeerCounts.dfy` | multiaddresses, peer layouts, the readiness oracle |
| `LocalNodes.dfy`, `LocalNodesRuns.dfy` | nodes started one at a time in a local cluster |
| `Ledger.dfy`, `Wallet.dfy`, `Genesis.dfy` | notes, wallets, the genesis ledger and its two construction pipelines |
| `Chaos.dfy` | the random-restart workload on a clock |
| `Runner.dfy` | the scenario lifecycle, workload tasks and the cleanup guard |
| `TxPlan.dfy`, `TxInclusion.dfy` | the transaction workload, its independent expectation, and both against the feed |
| `Liveness.dfy` | the consensus-liveness verdict |

Objects the source mutates are classes. Each method of such a class is proved against a function of the old state, and
lemmas about those functions carry the results over whole runs (`*Runs.dfy`).

How the surroundings are represented:

- A poll is an `Answers` value: anything absent from it fails to be fetched. The block tree is arbitrary but fixed during
  a run; the tip may jump between forks from poll to poll.
- Public keys, hashes and signatures are free constructors, so they are injective. Addresses are protocol lists; the
  loopback address built from a port is taken to be ip4, udp, quic-v1.
- Concurrency around the config-sync server is a state machine over its atomic steps. Waiting workload tasks, timers and
  dropped futures are nondeterministic choices at each await point.
- Time is a clock that never runs backwards and on which a sleep takes at least as long as asked.
- 64-bit wrap-around of the transaction counter, the 64-bit limits of parsed numbers and saturating float conversion are
  modelled; other arithmetic is unbounded. Float arithmetic is over the reals.

Where code and documentation disagree, the code is followed. The chaos workload documents a cooldown per target; the
code waits until every cooldown has passed, so in effect the cooldown applies to the whole cluster
(`Chaos.CooldownIsGlobal`).

Properties that hold only under a condition are stated with that condition in both directions: blocks skipped for good
(`HoleIffHeightWrong`), host order (`OrderIndependentIff`), exact peer rewriting (`RewriteExactIff`), equality of
the two genesis transactions (`PipelinesAgree`), shared notes (`NotesCollideIff`, `SharedInputIff`), the panic of the
liveness check when the allowance exceeds five (`Report`), and exactness of the transaction-inclusion counter
(`ObservedExactIff`, `ObservedAgainstPlan`).

The transaction-inclusion expectation requires half of the planned transactions but counts occurrences in blocks, on
every side of every fork. It never fails a run whose chains include half of the plan after the capture subscribed; but
for every plan there is a run in which one included transaction is enough to pass (`OneTransactionCanPass`). The
counter equals the number of included planned transactions exactly when no paying transaction is in two watched blocks
or twice in one and nobody else pays the tracked accounts; passing then means that half of the plan is included
(`PassesIffHalfIncluded`).

## Model

| member | source | states |
|---|---|---|
| BlockFeed.BlockStats.RecordBlock | testing-framework/core/src/scenario/runtime/block_feed.rs:187-191 | the counter grows by the block's transactions, wrapping at 64 bits |
| BlockFeed.Feed.Ingest | testing-framework/core/src/scenario/runtime/block_feed.rs:56-64 | a block is counted and appended to what subscribers see |
| BlockFeed.BlockScanner.Walk | testing-framework/core/src/scenario/runtime/block_feed.rs:118-161 | the backward loop stacks what the walk specification finds, marks at most one header, and a failing fetch changes no state |
| BlockFeed.BlockScanner.Replay | testing-framework/core/src/scenario/runtime/block_feed.rs:163-168 | the stack is delivered oldest first and becomes known |
| BlockFeed.BlockScanner.CatchUp | testing-framework/core/src/scenario/runtime/block_feed.rs:118-172 | one poll moves the observable state by `Poll`, unchanged on failure, which says what was unavailable, with exactly one fetch per delivered block, newest first |
| BlockFeedRuns.WalkFindsMissing | testing-framework/core/src/scenario/runtime/block_feed.rs:119-161 | with the tip's true depth, the walk finds exactly the missing part of the chain, and fails exactly when one of those blocks cannot be fetched, naming such a block |
| BlockFeedRuns.PollSucceedsIff | testing-framework/core/src/scenario/runtime/block_feed.rs:118-150 | a poll succeeds exactly when the node answers and every missing block of the tip's chain is available |
| BlockFeedRuns.MissingIsChain | testing-framework/core/src/scenario/runtime/block_feed.rs:121-161 | what is missing is the chain minus the known blocks, each once, each on top of the previous |
| BlockFeedRuns.PollIndexes | testing-framework/core/src/scenario/runtime/block_feed.rs:118-172 | a successful poll of an exact index stays exact and adds the polled chain |
| BlockFeedRuns.RunIndexesEveryPolledChain | testing-framework/core/src/scenario/runtime/block_feed.rs:109-172 | over any run with forks and failures: known = union of polled chains; everything but genesis delivered once, parents first; counter = transactions delivered |
| BlockFeedRuns.FailedPollsStutter | testing-framework/core/src/scenario/runtime/block_feed.rs:109-116 | erasing the failed polls of a run changes nothing |
| BlockFeedRuns.FeedOnlyGrows | testing-framework/core/src/scenario/runtime/block_feed.rs:163-168 | delivered blocks are never withdrawn or reordered, whatever forks follow |
| BlockFeedRuns.HoleIffHeightWrong | testing-framework/core/src/scenario/runtime/block_feed.rs:118-161 | for any reported height, a poll leaves a known header undelivered exactly when the height is below the number of missing blocks, or so far above the tip that a first walk runs past genesis |
| BlockFeedRuns.HoleIsPermanent | testing-framework/core/src/scenario/runtime/block_feed.rs:126-133 | such a block is never delivered by any later run of polls |
| BlockFeedRuns.WalkSkipsKnown | testing-framework/core/src/scenario/runtime/block_feed.rs:121-161 | a walk returns only unknown blocks, and at most as many as the reported height |
| Addresses.Position | testing-framework/core/src/topology/generation.rs:198-200 | the first index holding a port, or none |
| Layout.InitialPeersByNetworkLayout | testing-framework/configs/src/topology/configs/network.rs:141-185 | in a batch, each node's initial peers are, in order, addresses that reach the ports and the identities of exactly the nodes its layout dials |
| Layout.IncrementalMatchesBatch | testing-framework/configs/src/topology/configs/runtime.rs:88-103 | a join after nodes 0..i-1 computes the same dialled ports as the batch gives node i |
| Layout.JoinReaches | testing-framework/configs/src/topology/configs/runtime.rs:88-103 | the addresses a joining node computes reach exactly the ports of the nodes its layout dials |
| Layout.ConnectedToFirst | testing-framework/configs/src/topology/configs/network.rs:151-181 | every node has a dial path to node 0 |
| PeerCounts.FindExpectedPeerCounts | testing-framework/core/src/topology/generation.rs:190-212 | the counts are the degrees in the symmetric, loop-free closure of the dial relation, for any set iteration order |
| PeerCounts.Handshake | testing-framework/core/src/topology/generation.rs:206-211 | the counts sum to twice the number of undirected edges |
| PeerCounts.LayoutDegrees | testing-framework/core/src/topology/generation.rs:190-212 | with distinct ports: n-1 and ones for a star, 1,2,..,2,1 for a chain, n-1 everywhere for a full mesh |
| LocalNodes.ResolvePeerNames | testing-framework/deployers/local/src/node_control/config.rs:71-86 | all named addresses in order, or the first unknown name |
| LocalNodes.LocalDynamicState.RegisterNode | testing-framework/deployers/local/src/node_control/state.rs:14-31 | all five fields grow by the new node |
| LocalNodes.LocalDynamicNodes.StopAll | testing-framework/deployers/local/src/node_control/mod.rs:137-151 | the cluster is back at its seed and the shared client list is empty |
| LocalNodes.LocalDynamicNodes.StartNode | testing-framework/deployers/local/src/node_control/mod.rs:205-279 | result and new state of a start and the shared client list, unchanged on each kind of failure |
| LocalNodes.LocalDynamicNodes.BuildConfig | testing-framework/deployers/local/src/node_control/config.rs:22-65 | port and peers from the prebuilt topology while it lasts, then the network port handed out by the machine |
| LocalNodes.LocalDynamicNodes.ResolveInitialPeers | testing-framework/deployers/local/src/node_control/config.rs:88-107 | the three peer selections |
| LocalNodes.LocalDynamicNodes.ReadinessNodes | testing-framework/deployers/local/src/node_control/mod.rs:161-203 | the expected peers of each running node are its degree among the running nodes |
| LocalNodesRuns.SeedAligned | testing-framework/deployers/local/src/node_control/mod.rs:62-83 | both standard seeds are consistent: one distinct name and one port per node |
| LocalNodesRuns.JoinsMatchBatchLayout | testing-framework/deployers/local/src/node_control/config.rs:22-107 | after any starts, failures and stops the bookkeeping is aligned, default joins reproduce the batch layout over all ports in start order, within and beyond the prebuilt topology, and named peers are the addresses of those names |
| LocalNodesRuns.NodesListenWhereTheyShould | testing-framework/deployers/local/src/node_control/config.rs:22-65 | after any starts, failures and stops every running node listens on its prebuilt port or, beyond the topology, on the network port the machine handed out for its start |
| LocalNodesRuns.ReadinessMatchesLayout | testing-framework/deployers/local/src/node_control/mod.rs:161-203 | for a cluster grown by default joins with distinct ports, the readiness check expects the layout's degrees |
| LocalNodesRuns.NamingTheNextNumberBlocks | testing-framework/deployers/local/src/node_control/mod.rs:216-227 | in any state, a start that takes the number of the position after it as its name leaves the next unnamed label taken |
| LocalNodesRuns.FirstNodeNamedOneBlocks | testing-framework/deployers/local/src/node_control/mod.rs:216-227 | the blocked state is reachable: an explicit first start named "1" on an empty cluster |
| LocalNodesRuns.TakenNumberBlocksUnnamedStarts | testing-framework/deployers/local/src/node_control/mod.rs:216-227 | in a run where the next number is already used as a name, all further unnamed starts are refused |
| LocalNodesRuns.UnnamedStartsNeverClash | testing-framework/deployers/local/src/node_control/mod.rs:216-227 | if all starts are unnamed, none is ever refused for its name |
| Text.NodeLabelIndex | testing-framework/tools/cfgsync_tf/src/host.rs:53-58 | parsing the last dash-separated segment of a node label gives back its number |
| Text.ParsesIff | testing-framework/tools/cfgsync_tf/src/host.rs:53-58 | a suffix parses to a number exactly when it is its decimal form after leading zeros and possibly a plus sign, and the number fits 64 bits |
| Hosts.SortKeyOf | testing-framework/tools/cfgsync_tf/src/host.rs:51-65 | the sort key is the number spelt after the last dash, and 0 when none is |
| Hosts.SortHostsIsStableSort | testing-framework/tools/cfgsync_tf/src/host.rs:51-65 | hosts are permuted into key order, equal keys keeping their order |
| Hosts.OnlyStableSort | testing-framework/tools/cfgsync_tf/src/host.rs:51-65 | any sorted list that keeps, for every key, the hosts of that key in input order is this one |
| Hosts.OrderIndependentIff | testing-framework/tools/cfgsync_tf/src/host.rs:51-65 | the sorted list is the same for every input order exactly when no two hosts share a numeric suffix |
| Hosts.NumberedHostsKeepTheirNumber | testing-framework/tools/cfgsync_tf/src/host.rs:51-65 | hosts node-0..node-(n-1), in any order, get their own number as index |
| PeerRewrite.RewriteInitialPeers | testing-framework/tools/cfgsync_tf/src/network/peers.rs:20-69 | succeeds exactly when lengths match and every denoted node has a host; then the n-th address reaches the n-th denoted host's announced ip and network port, and that host's peer id only |
| PeerRewrite.RewriteNode | testing-framework/tools/cfgsync_tf/src/network/peers.rs:35-65 | the inner loop keeps exactly the denoted other hosts, reached at their network ports, or reports one without a host |
| PeerRewrite.TargetsAre | testing-framework/tools/cfgsync_tf/src/network/peers.rs:35-65 | a node is denoted exactly when an address carries its original port, it is the first with that port, and it is not the template's owner |
| PeerRewrite.LayoutTargets | testing-framework/tools/cfgsync_tf/src/network/peers.rs:34-65 | for layout templates nothing is dropped, out of range or self-dialled, whatever ports were allocated |
| PeerRewrite.RewriteExactIff | testing-framework/tools/cfgsync_tf/src/network/peers.rs:34-65 | the rewritten graph is the layout's graph always for a star, otherwise exactly when all ports but the last are distinct |
| NodeConfigs.TryCreateNodeConfigs | testing-framework/tools/cfgsync_tf/src/config/builder.rs:76-198 | the whole pipeline computes the closed-form answer, or the first validation or port error |
| NodeConfigs.ConfigureHosts | testing-framework/tools/cfgsync_tf/src/config/builder.rs:138-197 | the assembly loop, with its length check; a repeated host keeps its last config |
| NodeConfigs.ConfigsBuiltIff | testing-framework/tools/cfgsync_tf/src/config/validation.rs:17-35 | configs are built exactly for non-empty batches of the participant count with matching vectors, while free ports last |
| NodeConfigs.ConfigsRefusedBy | testing-framework/tools/cfgsync_tf/src/config/validation.rs:17-35 | which of the checks refuses a batch, and with which error |
| NodeConfigs.ConfigsCoverBatch | testing-framework/tools/cfgsync_tf/src/config/builder.rs:182-197 | built configs cover exactly the hosts of the batch |
| NodeConfigs.ConfigsShareGenesis | testing-framework/tools/cfgsync_tf/src/config/builder.rs:124-134 | all hosts share one genesis, and it is well formed |
| NodeConfigs.HostsHoldDeclaredKeys | testing-framework/tools/cfgsync_tf/src/config/builder.rs:124-136 | every host holds the keys of the provider that the genesis declares at its address |
| NodeConfigs.HostsGetTheirOwnPorts | testing-framework/tools/cfgsync_tf/src/config/builder.rs:151-197 | every host is configured to be reached at its announced address, network port and blend port, and to serve its announced API ports |
| NodeConfigs.InitialPeersReachHosts | testing-framework/tools/cfgsync_tf/src/config/builder.rs:105-122 | every initial peer is another host of the batch: its external address, its configured port and the identity of its node key |
| NodeConfigs.ConfigsOrderIndependent | testing-framework/tools/cfgsync_tf/src/config/builder.rs:84-89 | with distinct suffixes the answer does not depend on the order hosts were collected in |
| NodeConfigs.NumberedHostsGetTheirIdentity | testing-framework/tools/cfgsync_tf/src/config/builder.rs:138-197 | host node-i receives identity i, its leader key, and host node-0 as peer |
| ConfigRepo.Repository.Register | testing-framework/tools/cfgsync_tf/src/repo.rs:84-87 | a repeated registration replaces the earlier channel |
| ConfigRepo.Repository.WaitForHosts | testing-framework/tools/cfgsync_tf/src/repo.rs:115-130 | ends at the first poll that sees enough hosts, or when the timer fires before one does |
| ConfigRepo.Repository.TakeWaitingHosts | testing-framework/tools/cfgsync_tf/src/repo.rs:132-135 | the batch is moved out and the waiting map left empty |
| ConfigRepo.Repository.SendErrorToAll | testing-framework/tools/cfgsync_tf/src/repo.rs:155-159 | every channel of the batch is told the build error, once, and no other channel anything |
| ConfigRepo.Repository.SendTimeoutToAll | testing-framework/tools/cfgsync_tf/src/repo.rs:161-165 | every channel of the batch is told of the timeout, once, and no other channel anything |
| ConfigRepo.Repository.SendConfigsToAllHosts | testing-framework/tools/cfgsync_tf/src/repo.rs:167-182 | every channel of the batch is told its own host's config, or that it is missing, once, and no other channel anything |
| ConfigRepo.Repository.AnswerBatch | testing-framework/tools/cfgsync_tf/src/repo.rs:89-113 | the taken batch is answered completely: each host its own config, or the build error, or the timeout |
| ConfigRepoRuns.StepKeepsInv | testing-framework/tools/cfgsync_tf/src/repo.rs:84-182 | each step of every interleaving keeps channels apart, replies explained and configs complete |
| ConfigRepoRuns.AtMostOneReply | testing-framework/tools/cfgsync_tf/src/repo.rs:155-182 | under every interleaving no channel is answered twice |
| ConfigRepoRuns.OneKindOfReply | testing-framework/tools/cfgsync_tf/src/repo.rs:89-113 | all replies of a run are of one kind, "missing config" never occurs, and configs go out only for batches of the participant count |
| ConfigRepoRuns.AnswerOrderIndependent | testing-framework/tools/cfgsync_tf/src/repo.rs:92-98 | with distinct suffixes the answer does not depend on the hash map's iteration order |
| ConfigRepoRuns.AnsweredIff | testing-framework/tools/cfgsync_tf/src/repo.rs:84-135 | in a finished run a channel was answered exactly when it was the latest of its host at the moment of the take |
| ConfigRepoRuns.BatchFullyAnswered | testing-framework/tools/cfgsync_tf/src/repo.rs:155-182 | in a finished run every host of the batch was told, on its own channel, the timeout if the timer fired, else its own config or why building failed, and nobody else was told anything |
| ConfigRepoRuns.ConfiguredIff | testing-framework/tools/cfgsync_tf/src/repo.rs:89-113 | a finished run configured somebody exactly when it did not time out and the batch has the participant count, matching vectors and enough local ports |
| ConfigRepoRuns.EnoughHostsCanBeAnswered | testing-framework/tools/cfgsync_tf/src/repo.rs:89-135 | from every reachable state with enough hosts waiting, the task can by itself answer all of them with the build outcome |
| ConfigRepoRuns.AwaitingTooManyNeverConfigures | testing-framework/tools/cfgsync_tf/src/repo.rs:115-123 | errors and configs need a batch of at least the awaited size, so awaiting more hosts than participants never configures anybody |
| ConfigRepoRuns.NeverStuck | testing-framework/tools/cfgsync_tf/src/repo.rs:89-113 | until finished, the waiting task always has a next step |
| Wallet.Uniform | testing-framework/configs/src/topology/configs/wallet.rs:19-43 | funds are conserved, shares differ by at most one unit, exactly the first remainder accounts get the extra unit |
| Wallet.DeterministicKeysDistinct | testing-framework/configs/src/topology/configs/wallet.rs:66-73 | accounts of different indexes never share a key |
| Wallet.UniformKeysDistinct | testing-framework/configs/src/topology/configs/wallet.rs:30-40 | an evenly split wallet has pairwise different keys |
| Genesis.PushLeaderUtxo | testing-framework/configs/src/topology/configs/consensus.rs:268-284 | one leader key and one output of 1000, index advanced by one |
| Genesis.PushServiceNote | testing-framework/configs/src/topology/configs/consensus.rs:286-309 | one note recording the index it was pushed at, and its output |
| Genesis.CreateUtxosForLeaderAndServices | testing-framework/configs/src/topology/configs/consensus.rs:236-255 | the threaded index is exact: leader, blend and sdp notes of node i are outputs 3i, 3i+1 and 3i+2 |
| Genesis.AppendWalletUtxos | testing-framework/configs/src/topology/configs/consensus.rs:311-321 | account j follows as output 3n+j, the earlier outputs untouched |
| Genesis.CreateConsensusConfigs | testing-framework/configs/src/topology/configs/consensus.rs:202-234 | every node's keys and the one ledger they share, in closed form |
| Genesis.BuildGenesisOps | testing-framework/configs/src/topology/configs/consensus.rs:356-381 | the inscription, then one declaration per provider, in order |
| Genesis.BuildGenesisOpsProofs | testing-framework/configs/src/topology/configs/consensus.rs:383-407 | one proof per operation, signed with the provider's own keys over the whole transaction |
| Genesis.CreateGenesisTxWithDeclarations | testing-framework/configs/src/topology/configs/consensus.rs:324-341 | operations and proofs align and every proof checks |
| Genesis.CollectProviderInfos | testing-framework/core/src/topology/config.rs:238-261 | one provider per blend config, or an error exactly when notes run out |
| Genesis.ApplyConsensusGenesisTx | testing-framework/core/src/topology/config.rs:271-278 | every config gets the genesis and keeps everything else |
| Genesis.TopologyConsensus | testing-framework/core/src/topology/config.rs:156-210 | the topology builder gives every node the batch genesis with local locators, and the keys that open its own notes in that ledger, outputs 3i and 3i+2 |
| Genesis.HostConsensus | testing-framework/tools/cfgsync_tf/src/config/builder.rs:91-134 | the config-sync server gives every node the batch genesis with the hosts' locators, and the keys that open its own notes in that ledger |
| Genesis.BuildConsensusConfigForNode | testing-framework/configs/src/topology/configs/runtime.rs:69-86 | a late joiner has its own keys and the ledger of the batch |
| Genesis.BatchGenesisWellFormed | testing-framework/configs/src/topology/configs/consensus.rs:356-407 | every declaration locks an existing note, no two the same, and every proof checks, for any ids and wallet |
| Genesis.DeclarationLocksNote | testing-framework/configs/src/topology/configs/consensus.rs:364-377 | node i's declaration follows the inscription as operation i+1, names node i as provider and locks ledger output 3i+1 |
| Genesis.PipelinesAgree | testing-framework/tools/cfgsync_tf/src/config/providers.rs:70-89 | both pipelines build the same ledger and declarations up to locators; the whole transactions are equal exactly when all locators are |
| Genesis.NotesCollideIff | testing-framework/configs/src/topology/configs/consensus.rs:257-266 | two nodes get the same note exactly when their first 14 id bytes agree |
| Genesis.RolesNeverShareKeys | testing-framework/configs/src/topology/configs/consensus.rs:257-309 | leader, blend and sdp keys never coincide, whatever the ids, nor with a wallet key |
| Genesis.JoinerHasLeaderNoteIff | testing-framework/configs/src/topology/configs/runtime.rs:69-86 | exactly when a late joiner's leader note exists in the genesis it adopts |
| Chaos.RandomRestartWorkload.Targets | testing-framework/workflows/src/workloads/chaos.rs:41-54 | all nodes when enabled and there are at least two, else none |
| Chaos.RandomRestartWorkload.RandomDelay | testing-framework/workflows/src/workloads/chaos.rs:56-72 | the delay lies between the bounds, or is the minimum when they are inverted |
| Chaos.RandomRestartWorkload.InitializeCooldowns | testing-framework/workflows/src/workloads/chaos.rs:74-82 | every target is known and none is cooling down |
| Chaos.RandomRestartWorkload.PickTarget | testing-framework/workflows/src/workloads/chaos.rs:84-128 | terminates with every target eligible, so the fallback choice is never needed |
| Chaos.RandomRestartWorkload.RestartOnce | testing-framework/workflows/src/workloads/chaos.rs:156-171 | one round waits at least the minimum delay and all cooldowns, and records the new cooldown after completion |
| Chaos.RandomRestartWorkload.Start | testing-framework/workflows/src/workloads/chaos.rs:137-172 | restarts are spaced, the first failing restart ends the workload, and the two refusals |
| Chaos.RestartRate | testing-framework/workflows/src/workloads/chaos.rs:154-171 | from one restart to the k-th after it, k full gaps of the larger of delay and cooldown pass |
| Chaos.CooldownIsGlobal | testing-framework/workflows/src/workloads/chaos.rs:93-110 | no node is restarted while it cools down, and never do two restarts cool down at once |
| Runner.JoinSet.DriveUntilTimer | testing-framework/core/src/scenario/runtime/runner.rs:248-265 | no join is lost wherever the timer cuts in, and the first failure is reported |
| Runner.JoinSet.DrainWorkloads | testing-framework/core/src/scenario/runtime/runner.rs:269-279 | completes only when no task is left |
| Runner.JoinSet.DriveAndDrain | testing-framework/core/src/scenario/runtime/runner.rs:125-142 | run phase, cooldown and drain together lose no join and complete only with nothing left |
| Runner.RunWorkloads | testing-framework/core/src/scenario/runtime/runner.rs:103-143 | completes only if every spawned task was joined exactly once, as success or cancellation, and the run and the cooldown were waited for |
| Runner.WorkloadsErrIff | testing-framework/core/src/scenario/runtime/runner.rs:283-293 | the workload phase errs exactly when some joined task failed or crashed |
| Runner.ScenarioRunner.Cleanup | testing-framework/core/src/scenario/runtime/runner.rs:44-48 | the guard fires if it is still there, and is then gone |
| Runner.ScenarioRunner.Drop | testing-framework/core/src/scenario/runtime/runner.rs:309-313 | dropping a runner fires a guard that is still there |
| Runner.ScenarioRunner.IntoRunHandle | testing-framework/core/src/scenario/runtime/runner.rs:50-52 | the guard moves into the handle without firing |
| Runner.RunHandle.Drop | testing-framework/core/src/scenario/runtime/context.rs:117-123 | dropping the handle fires the guard once |
| Runner.ScenarioRunner.PrepareExpectations | testing-framework/core/src/scenario/runtime/runner.rs:89-99 | captures run in order up to the first that does not succeed |
| Runner.ScenarioRunner.RunExpectations | testing-framework/core/src/scenario/runtime/runner.rs:163-185 | every expectation is evaluated and all failures are reported together |
| Runner.ScenarioRunner.RunPhases | testing-framework/core/src/scenario/runtime/runner.rs:64-84 | the events of the three phases, ended by the first that does not complete, with all waits in order before expectations are evaluated |
| Runner.ScenarioRunner.Run | testing-framework/core/src/scenario/runtime/runner.rs:57-87 | on success the unfired guard is in the handle, on every other path it has fired |
| Runner.Life | testing-framework/core/src/scenario/runtime/context.rs:117-145 | the complete event sequence of a runner's life, run or not |
| Runner.CleanupExactlyOnce | testing-framework/core/src/scenario/runtime/runner.rs:44-87 | on every path a guarded runner cleans up exactly once, last |
| Runner.EvaluatedOnlyAfterWorkloads | testing-framework/core/src/scenario/runtime/runner.rs:64-84 | expectations are evaluated only after all captures succeeded and the workloads completed |
| Runner.SuccessIff | testing-framework/core/src/scenario/runtime/runner.rs:57-87 | a run succeeds exactly when captures, workloads and evaluations all do, with all expectations evaluated and no cleanup yet |
| Runner.ErrorIsFirst | testing-framework/core/src/scenario/runtime/runner.rs:57-87 | the error names the first capture when that fails, else the failing workload, the last one joined |
| Runner.EventsAre | testing-framework/core/src/scenario/runtime/runner.rs:57-87 | exactly which captures, joins and evaluations happen in a run |
| Runner.EventsInOrder | testing-framework/core/src/scenario/runtime/runner.rs:57-87 | captures, joins, evaluations and the cleanup come in this order, captures and evaluations in the order of the expectations |
| Runner.ReportIsComplete | testing-framework/core/src/scenario/runtime/runner.rs:167-184 | the report names exactly the failing expectations |
| TxPlan.TargetCount | testing-framework/workflows/src/workloads/transaction/workload.rs:289-302 | the wanted count fits 64 bits, and is the per-block rate when no block interval is known |
| TxPlan.TargetIsLargest | testing-framework/workflows/src/workloads/transaction/workload.rs:289-299 | exactly how many transactions are wanted: as many as fit the blocks of the run at the rate |
| TxPlan.PlanFor | testing-framework/workflows/src/workloads/transaction/workload.rs:280-317 | exactly when a plan exists; the count is the smaller of target and accounts, and the pauses fit the run |
| TxPlan.PauseIsLongest | testing-framework/workflows/src/workloads/transaction/workload.rs:308-316 | the pause is the longest within one second and the run |
| TxPlan.Workload.Init | testing-framework/workflows/src/workloads/transaction/workload.rs:60-113 | accounts are set to the limited matched prefix, or left alone on error |
| TxPlan.Workload.Execute | testing-framework/workflows/src/workloads/transaction/workload.rs:170-219 | planned accounts are submitted front to back, once each, until a submission fails, within the run's time; each transaction spends the account's note only and pays exactly its value back to the account |
| TxPlan.CaptureTxOutputs | testing-framework/workflows/src/workloads/transaction/expectation.rs:203-217 | each transaction with an output to a tracked key is counted once |
| TxPlan.CaptureFeed | testing-framework/workflows/src/workloads/transaction/expectation.rs:171-201 | the counter is the number of paying transactions in watched blocks |
| TxPlan.GenesisMatchesAllAccounts | testing-framework/workflows/src/workloads/transaction/workload.rs:80-97 | every wallet account matches a real genesis output of its own key, for any ids and wallet |
| TxPlan.AccountsSpendTheirOwnNote | testing-framework/workflows/src/workloads/transaction/workload.rs:254-266 | with distinct keys account j spends output 3n+j with its own value |
| TxPlan.PlannedReturnsOwnFunds | testing-framework/workflows/src/workloads/transaction/workload.rs:231-234 | with distinct keys each planned transaction pays an account exactly its own funds back |
| TxPlan.PlanConservesFunds | testing-framework/workflows/src/workloads/transaction/workload.rs:231-266 | with distinct keys a plan of n transactions moves exactly the funds of the first n accounts |
| TxPlan.SharedInputIff | testing-framework/workflows/src/workloads/transaction/workload.rs:231-266 | two planned transactions spend the same note exactly when their accounts share a key |
| TxPlan.PlansAgree | testing-framework/workflows/src/workloads/transaction/expectation.rs:150-169 | workload and expectation succeed together, with the same count and interval, every planned transaction pays a tracked key, and only the keys of planned accounts are tracked |
| TxPlan.PlansAgreeAtRate | testing-framework/workflows/src/workloads/transaction/workload.rs:280-317 | at a configured rate both sides plan exactly when the run has a length and any known block interval is at most the run times the rate; without one they plan the rate, capped by the accounts |
| TxPlan.CountExactIff | testing-framework/workflows/src/workloads/transaction/expectation.rs:203-217 | the counter is at least the number of different paying transactions, and equal to it exactly when none occurs twice |
| TxInclusion.SubscribedAfterPoll | testing-framework/core/src/scenario/runtime/block_feed.rs:77-92 | a capture that subscribes after the k-th poll watches exactly the blocks that later polls add |
| TxInclusion.HeardBlocks | testing-framework/workflows/src/workloads/transaction/expectation.rs:171-188 | it hears every watched block exactly once, as it is in the block tree |
| TxInclusion.IncludedIff | testing-framework/workflows/src/workloads/transaction/expectation.rs:171-188 | the transactions looked at are exactly those in watched blocks, and one occurs at most once exactly when no two watched blocks hold it and none twice |
| TxInclusion.ObservedExactIff | testing-framework/workflows/src/workloads/transaction/expectation.rs:171-217 | over any run the counter is at least the number of different paying transactions included, and equal to it exactly when no paying transaction is in two watched blocks or twice in one |
| TxInclusion.PlannedCountIff | testing-framework/workflows/src/workloads/transaction/workload.rs:231-266 | a plan has as many different transactions as it counts exactly when its accounts have different keys |
| TxInclusion.ObservedAgainstPlan | testing-framework/workflows/src/workloads/transaction/expectation.rs:150-217 | the counter is at least the number of planned transactions included, and equal to it exactly when no paying transaction repeats and nobody else pays the accounts |
| TxInclusion.PassesIffHalfIncluded | testing-framework/workflows/src/workloads/transaction/expectation.rs:76-147 | half of the plan in blocks added after the subscription makes the expectation pass; if the counter is exact, it passes only then |
| TxInclusion.ForksCountEachSide | testing-framework/workflows/src/workloads/transaction/expectation.rs:180-188 | a run of truthful polls over an n-way fork counts one transaction n times |
| TxInclusion.OneTransactionCanPass | testing-framework/workflows/src/workloads/transaction/expectation.rs:104-147 | for every plan there is a run in which a single included transaction makes the expectation pass |
| Liveness.CollectResults | testing-framework/workflows/src/expectations/consensus_liveness.rs:100-142 | each node yields one sample, its first answer, or one issue within the retry limit |
| Liveness.HeightsAreFirstAnswers | testing-framework/workflows/src/expectations/consensus_liveness.rs:100-142 | the samples are exactly the first answers within the retry limit |
| Liveness.UnansweredAreSilent | testing-framework/workflows/src/expectations/consensus_liveness.rs:100-142 | a node is reported exactly when none of its allowed attempts was answered |
| Liveness.Report | testing-framework/workflows/src/expectations/consensus_liveness.rs:166-237 | passes exactly when some node answered, no request failed and the network is live; panics exactly when the allowance exceeds five |
| Liveness.LaggingIsComplete | testing-framework/workflows/src/expectations/consensus_liveness.rs:195-205 | exactly the lagging samples are reported |
| Liveness.ReportedIff | testing-framework/workflows/src/expectations/consensus_liveness.rs:184-205 | exactly which issues are reported: failed requests, too low a highest sample with its height, and each laggard |
| Liveness.LiveIff | testing-framework/workflows/src/expectations/consensus_liveness.rs:179-205 | the verdict without its target: progress, and every node within the allowance of the highest height or of a positive hint |
| Liveness.FloorMonotone | testing-framework/workflows/src/expectations/consensus_liveness.rs:162-164 | the target minus its allowance never falls as the target rises |
| Liveness.LivenessAntitone | testing-framework/workflows/src/expectations/consensus_liveness.rs:179-205 | liveness for a hint implies liveness for every smaller positive hint, and liveness without a hint implies it for any |
| Liveness.LiveMeansClose | testing-framework/workflows/src/expectations/consensus_liveness.rs:166-237 | a live network has all nodes within five blocks of the target |

## Left out

- BlockFeed.BlockScanner.CatchUp: does not model diagnostics printed for undecodable responses, nor the sleep between polls.
- The broadcast channel's bounded buffer: a subscriber that lags loses records; here it hears everything sent after it subscribed.
- Hosts.SortHostsIsStableSort: the source sorts in place with a library call; modelled on values as an insertion sort, whose result is the only stable sort (`OnlyStableSort`).
- Layout.InitialPeersByNetworkLayout: port allocation itself is left out; ports are inputs, possibly repeated.
- NodeConfigs.TryCreateNodeConfigs: tracing, bootstrap and time settings, and error branches of parsers that cannot fail on generated text, are left out.
- ConfigRepo.Repository.AnswerBatch: in the class the batch is answered without interleaving; interleavings are covered by the state machine in `ConfigRepoRuns.dfy`.
- LocalNodes.LocalDynamicNodes.StartNode: two starts running at the same time are not modelled; the source checks and registers under separate locks.
- Genesis.CreateGenesisTxWithDeclarations: rejection of a transaction by the ledger library, and failing signatures, are left out; reduction of key material modulo the field order is not modelled.
- Genesis.TopologyConsensus: drawing missing ids and ports and the per-node descriptors around the consensus part are left out.
- Chaos.RandomRestartWorkload.RandomDelay: offsets are whole nanoseconds, without float rounding.
- Runner.RunWorkloads: deriving the cooldown and the settling wait from the block interval is left out; their durations are inputs.
- TxPlan.PlanFor: rounding of float durations is left out.
- TxPlan.Workload.Execute: fan-out and retries over cluster clients are one accept-or-reject answer per transaction; signatures are left out.
- TxInclusion.PassesIffHalfIncluded: the expectation's own waiting loop is left out; it can only let the counter grow.
- Liveness.Report: heights so large that adding the allowance overflows 64 bits, and the text of messages, are left out.
- Cross-crate code left out as wiring or I/O: HTTP clients, Docker, Helm and Kubernetes commands, deployers, environment readers, observability, YAML defaults.
