# Maestro: verified models of its protocols and algorithms

Maestro is a council of language-model agents with a LAN of weight-hosting shards underneath. This
Dafny project models the parts of it that carry invariants and proves what those parts promise.
Where the code changes state step by step, the model is a class or a loop proved equal to a
function, and the theorems are about the function. `dafny verify dfyconfig.toml` checks the whole
project.

| part of Maestro | files |
|---|---|
| LAN discovery and its three-way handshake, over runs with loss, replay and reordering | `LanDiscovery`, `LanNetwork`, `LanPresence`, `LanEngine` |
| greedy inference pipeline, layer coverage, mirror status, shard manifests | `Pipeline`, `RouteChoice`, `ShardRegistry`, `Intervals`, `LayerCoverage` |
| storage challenges and node reputation | `Reputation`, `StorageProof`, `StorageHistory`, `ProofEngine` |
| semantic quorum, internal dissent, session grade | `Clustering`, `Scanning`, `Closeness`, `Dissent`, `DissentReport`, `OutlierBound`, `PairSums`, `Agreement` |
| guarded injection of proposals, undo ledger, rate limit | `InjectionGuard`, `Rollback`, `Injector`, `BatchStory`, `RestoredStore`, `CycleLimit`, `CodeInjector` |
| multi-signer attestation and the content-addressed store | `Manifests`, `Addressing`, `Scribe`, `Verification`, `Attestation`, `StorePaths`, `StoreFiles`, `CommitSteps`, `LibrarianStore`, `StoreHeads`, `StoreNames`, `Librarian` |
| plugin lifecycle and pipeline hooks | `Plugins`, `PluginPhases`, `PluginManager` |
| cluster membership and task ownership | `Instances` |
| shared: options, lists, sums, rounding | `Wrappers`, `Sequences`, `Statistics`, `Rounding` |

## Where the code and what is said of it differ

The model follows the code. Each of these is a lemma below, with the exact condition where the
promise does hold.

* The pipeline's docstring promises an empty list when coverage is incomplete; the code returns the
  prefix up to the gap (`Pipeline.EmptyOnIncompleteIff`, `Pipeline.GapReturnsThePrefix`). A shard with
  the layer range (-1, -1) wastes a hop (`Pipeline.UnlayeredShardWastesAHop`).
* A layer below zero makes "no gaps" and "is a mirror" differ (`LayerCoverage.NegativeLayerBreaksTheAgreement`).
* The clustering docstring says all members are within the threshold of each other; only their mean is
  bounded (`Clustering.MembersNeedNotBeClose`). It holds for every order of the agents exactly when no
  close group has an agent outside it who would join without being near every member
  (`Closeness.AlwaysCloseIff`), in particular when nearness is transitive (`Closeness.TransitiveMeansClose`).
* "More than 1.5 times the group mean" bounds the outliers by two thirds, but the code compares after
  rounding to four digits. For every council size, group mean and number of outliers, so many can occur
  exactly when the even share of the means rounds above the threshold (`OutlierBound.OutlierCountIff`, for
  councils of up to 6666 agents);
  three agents of four at 0.0001 from each other do (`OutlierBound.RoundingMakesOutliers`).
* The pipeline's docstring lists locality before reach; the code takes the furthest reach first and lets warmth,
  a shared domain, reputation and latency decide, in that order, only between hosts that reach as far
  (`RouteChoice.RouteIsTaken`).
* The aggregator and the session grade read the same ratio with different quorum thresholds
  (`Agreement.QuorumsDisagreeIff`).
* A rollback undoes a cycle oldest first, so what comes back is what the last injection at a target found:
  the store is restored exactly when, for each target, undoing the last injection alone gives the value
  from before (`RestoredStore.RollbackRestoresIff`), which fails for a variable changed twice
  (`RestoredStore.InjectedTwiceStaysChanged`). In terms of the strings proposed, only the last two at each
  target decide (`RestoredStore.RestoresIffStrings`). A string that reads as a number, a value that is neither
  number nor string, and an empty configuration string do not come back at all
  (`Rollback.UndoExactIff`). The proposals stay promoted (`CodeInjector.TryAutoInject`).
* Every automatic cycle makes a guard of its own, so the hourly limit holds for each guard, not across
  cycles (`CycleLimit.TwoCyclesInjectTwice`). What is left is the allowance for each cycle
  (`CycleLimit.AllowanceForEachCycle`, reached by `CycleLimit.AllowanceIsReached`), and the next cycle
  keeps the joint limit exactly when no earlier injection lies within the last 3600 seconds as it starts
  (`CycleLimit.NextCycleKeepsLimitIff`).
* Cartridge ids and versions are joined into paths unchecked. `load` and `load_body` stay right for every
  hash exactly when no directory a commit makes and no version's link takes the place of a hash's file
  (`LibrarianStore.StaysRightIff`, over runs `LibrarianStore.AlwaysRightIff`), and an id's head stays right
  exactly when no commit links it for another id (`StoreHeads.HeadStaysRightIff`,
  `StoreHeads.HeadAlwaysRightIff`). Names that never climb, "a/b" among them, keep the first
  (`StoreNames.InsideIsClear`), plain names keep both (`StoreNames.PlainNamesRefine`). A version that climbs
  out of its directory replaces another manifest (`StoreNames.VersionCanReplaceAManifest`), and the version
  "head" the head of a nested id (`StoreNames.VersionCanReplaceAHead`).
* A commit is documented as atomic, but one that raises half-way is not undone. Readers see no change
  exactly when it had not got to its two files, or they were stored already
  (`StoreHeads.RaisedIsSilentIff`). A version such as "2024/01" needs a directory that nobody makes: the
  commit raises after the manifest, the body and the head are in place
  (`StoreNames.SlashedVersionRaises`).
* The signature threshold counts signatures, not signers: the two agree exactly when no key is valid twice
  (`Verification.SignersCountedIff`), which holds for what `anchor` makes and fails for a manifest with one
  signature listed twice (`Attestation.OneKeyListedTwice`).
* Manifest metadata is documented as unsigned, yet it is part of what is signed
  (`Addressing.MetadataIsBound`).
* Disabling a plugin leaves plugins that need it enabled (`Plugins.DisableKeepsClosedIff`,
  `Plugins.DisableBreaksTheClosure`), so a saved snapshot may restore to more than was saved
  (`Plugins.SaveRestoreIff`, `Plugins.RestoreEnablesMore`). A hook unregistered by hand
  leaves its ownership entry, which can later cost another plugin its hook
  (`PluginManager.StaleOwnerTakesAnothersHook`): removing one plugin's hooks leaves the others theirs exactly
  when each callback they own is there often enough for all its owners
  (`PluginManager.OthersKeepTheirsIff`).
* A formed node keeps its member list while the quorum holds, so a silent peer stays a member when another
  takes its place in the count (`LanDiscovery.MembersAdjacentIff`, `LanDiscovery.SilentMemberStays`).
* The shard count an instance is started with is the number of live shards, except for an orchestrator started
  beside shards: it is told twice as many (`Instances.ToldCountIff`,
  `Instances.RestartedOrchestratorIsToldTwice`).
* After a shard stops, tasks can be left without an owner until an index is reused
  (`Instances.OwnedOnceIff`, `Instances.StopLeavesATaskUnowned`).

## Model

| member | source | states |
|---|---|---|
| LanDiscovery.ReceiveKeepsValid | maestro/lan_discovery.py:338-474 | whatever datagram arrives, in whatever state: the peer table stays well formed, the shard never tracks itself, no peer rests in DISCOVERED, and only the sender can be added |
| LanDiscovery.StrangersIgnored | maestro/lan_discovery.py:429-474 | a shard ignores its own datagrams and handshake answers from shards it does not know |
| LanDiscovery.AdjacentPeersExact | maestro/lan_discovery.py:532-535 | the adjacent list is exactly the confirmed live peers, each once, in the order of the peer table |
| LanDiscovery.EvaluateNodeStatusExact | maestro/lan_discovery.py:478-505 | right after an evaluation a node is formed exactly when the shard and its adjacent peers make a quorum; the member list is well formed and a newly formed one holds adjacent peers only |
| LanDiscovery.MembersAdjacentIff | maestro/lan_discovery.py:478-505 | all members of a formed node are adjacent exactly when it formed just now or they all were; one that is not has an adjacent peer outside the node in its place |
| LanDiscovery.SilentMemberStays | maestro/lan_discovery.py:478-505 | two shards form a node, the peer falls silent for the timeout and a third is confirmed: the silent peer stays a member |
| LanNetwork.ConfirmedOnlyAfterHandshake | maestro/lan_discovery.py:385-474 | over any run with loss, replay and reordering, a confirmed peer (or a member of a formed node) tracks the shard back and the history holds a full handshake between the two |
| LanNetwork.QuiescenceSettlesEveryHandshake | maestro/lan_discovery.py:322-474 | with exactly-once delivery in any order and nothing in flight, tracking is mutual and every tracked peer is CONFIRMED or STALE; all are CONFIRMED if pruning never fired |
| LanNetwork.DeliveryLowersWeight | maestro/lan_discovery.py:402-474 | every delivery in flight is possible and lowers 3·INIT + 2·ACK + 1·CONFIRM by exactly one |
| LanNetwork.DrainTakesExactlyTheWeight | maestro/lan_discovery.py:350-474 | while no handshake is started, whatever is pruned or beaconed and in any order, each delivery takes one off the weight, and nothing is in flight exactly after as many deliveries as the weight |
| LanPresence.ShardIsItsHistory | maestro/lan_discovery.py:322-505 | in any run, the whole state of a shard, table, order, node and all, is the reading of what arrived at it and when it pruned |
| LanPresence.TracksWhomItHeard | maestro/lan_discovery.py:350-474 | a shard tracks exactly the peers it heard from, and `last_seen` is its clock as the last thing from the peer arrived |
| LanPresence.PruneMarksTheSilent | maestro/lan_discovery.py:322-336 | a prune round marks a peer STALE exactly when nothing from it arrived in the last 15 seconds, and touches nobody else |
| LanPresence.NodeFollowsPresence | maestro/lan_discovery.py:478-505 | after a prune round or a finished handshake the node is formed exactly when the shard and those confirmed and heard from make the quorum; nothing else changes it |
| LanEngine.ShardDiscoveryEngine.HandleMessage | maestro/lan_discovery.py:338-348 | the mutable engine makes of any datagram exactly what the specification says, and sends what it says |
| LanEngine.ShardDiscoveryEngine.OnBeacon | maestro/lan_discovery.py:350-383 | beacon handling in place equals its specification: refresh, re-initiate for a stale peer, add and initiate for a new one |
| LanEngine.ShardDiscoveryEngine.InitiateHandshake | maestro/lan_discovery.py:385-400 | sends INIT and leaves the peer in HANDSHAKE_SENT |
| LanEngine.ShardDiscoveryEngine.OnHandshakeInit | maestro/lan_discovery.py:402-430 | the INIT handler in place equals its specification |
| LanEngine.ShardDiscoveryEngine.OnHandshakeAck | maestro/lan_discovery.py:432-460 | the ACK handler in place equals its specification, unknown senders ignored |
| LanEngine.ShardDiscoveryEngine.OnHandshakeConfirm | maestro/lan_discovery.py:462-474 | the CONFIRM handler in place equals its specification, unknown senders ignored |
| LanEngine.ShardDiscoveryEngine.PruneRound | maestro/lan_discovery.py:326-334 | one round marks exactly the silent peers stale and re-evaluates the node |
| LanEngine.ShardDiscoveryEngine.Adjacent | maestro/lan_discovery.py:532-535 | the loop over the peer records collects the adjacent list of the specification |
| LanEngine.ShardDiscoveryEngine.EvaluateStatus | maestro/lan_discovery.py:478-505 | the status update in place equals its specification |
| Pipeline.AllCandidatesCover | maestro/shard_registry.py:250-265 | the collected candidates cover exactly the layers held by hosts neither offline nor evicted |
| Pipeline.SortSorts | maestro/shard_registry.py:270-275 | the stable sort orders by start, then locality, then reputation |
| Pipeline.GreedyStep | maestro/shard_registry.py:281-305 | one step takes a candidate that starts in time and reaches furthest, and leaves exactly those that reach further |
| Pipeline.GreedyStops | maestro/shard_registry.py:277-307 | the route is contiguous from its first layer and stops at the least layer no candidate covers |
| Pipeline.GreedyStaysAhead | maestro/shard_registry.py:277-307 | whatever list covers the same layers has at least as many elements as the greedy route has hops |
| Pipeline.GreedyIsRightIffWellStarted | maestro/shard_registry.py:277-307 | stopping at the first gap with the fewest hops holds exactly when layer 0 is covered or nothing starts at or below it; well-formed ranges always meet this |
| Pipeline.BadStartWastesAHop | maestro/shard_registry.py:283-301 | when the condition fails a hop is wasted and the route never passes the first layer |
| Pipeline.UnlayeredShardWastesAHop | maestro/shard_registry.py:283-301 | a lone (-1, -1) shard is returned as a pipeline of one hop |
| Pipeline.EmptyOnIncompleteIff | maestro/shard_registry.py:247-307 | that the returned hops cover every layer or nothing is returned holds exactly when the shards cover every layer or none starts at or below layer 0 |
| Pipeline.GapReturnsThePrefix | maestro/shard_registry.py:287-288 | layers 0-1 and 5-6 give the first hop, not an empty list |
| ShardRegistry.SortedRoute | maestro/shard_registry.py:270-307 | sorting keeps what the greedy route means on the unsorted candidates, and every hop is a routable registered host |
| ShardRegistry.RescoredMeans | maestro/shard_registry.py:361-372 | a host takes the score and the status it asks for; a busy or offline host with a good score stays as it is |
| RouteChoice.RouteIsTaken | maestro/shard_registry.py:258-307 | the route of the model is the one the preference takes: reach, then warm, a shared domain, reputation, latency, earlier start, earlier registration |
| RouteChoice.HopTaken | maestro/shard_registry.py:280-299 | one hop: who is taken for a layer |
| RouteChoice.ScoreIs | maestro/shard_registry.py:74-104 | the four values of the locality score |
| ShardRegistry.WeightHostRegistry.Register | maestro/shard_registry.py:142-151 | registering keeps the ordered table: a new id goes last, a known one is replaced in place |
| ShardRegistry.WeightHostRegistry.BuildInferencePipeline | maestro/shard_registry.py:234-307 | the hosts returned are taken hop by hop: no registered host that starts in time reaches further, none that reaches as far is preferable, and of equals the first counts; they are those of the specified route |
| ShardRegistry.WeightHostRegistry.Gather | maestro/shard_registry.py:250-265 | the collecting loops find exactly the specified candidates |
| ShardRegistry.WeightHostRegistry.Assemble | maestro/shard_registry.py:277-307 | the loop over the mutated worklist terminates with the specified route |
| ShardRegistry.WeightHostRegistry.UpdateReputation | maestro/shard_registry.py:361-372 | writes score and status of the named host and nothing else |
| Intervals.CanonicalIsShortest | maestro/api_storage.py:260-281 | sorted, separated intervals that expand to a set are the fewest that do |
| Intervals.CanonicalIsUnique | maestro/api_storage.py:260-281 | a set has only one such list of intervals |
| LayerCoverage.CollectLayers | maestro/api_storage.py:230-241 | the nested loops collect exactly the layers some routable host holds for the model |
| LayerCoverage.RangesCanonical | maestro/api_storage.py:260-271 | the coverage ranges are the canonical form of the sorted layers |
| LayerCoverage.BuildRanges | maestro/api_storage.py:261-271 | the `start`/`prev` loop produces the canonical ranges of the layer set |
| LayerCoverage.GapsCanonical | maestro/api_storage.py:273-281 | the gaps are the canonical form of exactly the missing layers below the total |
| LayerCoverage.FindGaps | maestro/api_storage.py:273-281 | the loop that extends the last gap produces those gaps |
| LayerCoverage.NetworkTopology | maestro/api_storage.py:230-295 | the endpoint's coverage computation is the specified topology of the layers actually held |
| LayerCoverage.MirrorIsInitialSegment | maestro/api_storage.py:250-258 | `is_mirror` holds exactly for a non-empty set of layers 0 to some last one |
| LayerCoverage.MirrorRangesGapsAgree | maestro/api_storage.py:250-281 | for any set of layers: mirror exactly when the one range is the whole, and exactly when there is no gap and no negative layer |
| LayerCoverage.PipelineReachesTotalIffNoGaps | maestro/api_storage.py:228-281 | the greedy pipeline over the same hosts reaches the total exactly when the topology shows no gap, with no assumption on ranges |
| LayerCoverage.FourComputationsAgree | maestro/api_storage.py:228-281 | set, interval, gap and greedy computations agree, with the exact condition on negative layers |
| LayerCoverage.NegativeLayerBreaksTheAgreement | maestro/api_storage.py:250-281 | layers -1 to 1 show no gap and are no mirror |
| LayerCoverage.IndexShards | maestro/shard_manager.py:285-316 | the manifest's coverage is canonical and `complete` holds exactly when the indexed layers are 0 to some last one |
| LayerCoverage.IndexedIff | maestro/shard_manager.py:285-316 | which layers are indexed: those of the files whose range starts at zero or above |
| LayerCoverage.SingleRangeFromZero | maestro/shard_manager.py:313-316 | one range starting at 0 means exactly an initial segment |
| Rounding.RoundNear | maestro/storage_proof.py:281-283 | rounding to four digits moves a value by at most 0.00005 |
| Rounding.NearestEvenIff | maestro/storage_proof.py:281-283 | rounding gives the nearest ten-thousandth, of two as near the even one, and nothing else |
| Reputation.RescoreAgreesIff | maestro/storage_proof.py:272-292 | a rescore leaves status and score in step exactly when it is not an evicted node scored as trusted |
| Reputation.StatusMoves | maestro/storage_proof.py:285-292 | how the status moves with the score; a good score alone never lifts an eviction |
| Reputation.NoLeapFromEvicted | maestro/storage_proof.py:281-292 | the formula rises too little in one event to take an evicted node to trusted, rounding included |
| Reputation.SuccessSound | maestro/storage_proof.py:242-256 | a success keeps status and score in step |
| Reputation.FailureSound | maestro/storage_proof.py:258-265 | a failure keeps status and score in step |
| Reputation.ContributedSound | maestro/storage_proof.py:353-361 | an R2 contribution in [0, 1] keeps status and score in step |
| Reputation.LargeContributionSticks | maestro/storage_proof.py:285-292 | a contribution of 3.0 leaves a node evicted at score 0.9 |
| StorageProof.StatusIsAFunctionOfTheScore | maestro/storage_proof.py:147-292 | in every reachable state the status of every node is decided by its score alone |
| StorageProof.EvictionChangesNothing | maestro/storage_proof.py:344-351 | in a sound engine the explicit eviction check finds the status already set |
| StorageProof.EvictMeans | maestro/storage_proof.py:344-351 | whatever the state, a node below the threshold ends evicted and nothing else changes |
| StorageProof.IssuedArePendingPassedOrFailed | maestro/storage_proof.py:147-265 | in every reachable state challenges issued over all nodes are those pending plus those passed plus those failed |
| StorageProof.SettledAtMostOnce | maestro/storage_proof.py:194-240 | a challenge is settled at most once; a later response to it changes nothing |
| StorageProof.PerNodeIdentityIff | maestro/storage_proof.py:194-240 | a settlement keeps the count of each single node exactly when the response names the challenged node |
| StorageHistory.EngineIsItsHistory | maestro/storage_proof.py:147-300 | after any run, what is pending and every node's counters, contributions and score are the reading of the events |
| StorageHistory.SettledOnItsMerits | maestro/storage_proof.py:147-255 | the first response to a challenge raises the responder's passed count exactly when it came within 60 seconds and carries the digest, the output digest or a latency of at most 5000 ms, as the kind asks; otherwise its failed count, and nobody else's moves |
| StorageHistory.RefusalSaysWhy | maestro/storage_proof.py:194-237 | the reason given for a challenge not passed |
| StorageHistory.ScoreOfTheTally | maestro/storage_proof.py:270-305 | score and status follow from the passes, failures and contributions of the node |
| ProofEngine.NodeReputation.UpdateReputationScore | maestro/storage_proof.py:272-292 | score and status in place equal the specified rescore |
| ProofEngine.StorageProofEngine.IssueChallenge | maestro/storage_proof.py:147-192 | issuing in place equals its specification |
| ProofEngine.StorageProofEngine.ValidateResponse | maestro/storage_proof.py:194-240 | validating in place equals its specification on every branch: unknown, expired, and each challenge type |
| ProofEngine.StorageProofEngine.RecordSuccess | maestro/storage_proof.py:242-256 | only the named node's record changes, as specified |
| ProofEngine.StorageProofEngine.RecordFailure | maestro/storage_proof.py:258-265 | only the named node's record changes, as specified |
| ProofEngine.StorageProofEngine.AddR2Contribution | maestro/storage_proof.py:353-361 | the window keeps the last hundred and the node is rescored, as specified |
| ProofEngine.StorageProofEngine.EvictIfNecessary | maestro/storage_proof.py:344-351 | the eviction check in place equals its specification |
| ProofEngine.RegistryFollowsTheEngine | maestro/shard_registry.py:361-372 | a pushed score gives the host the engine's status, and an evicted node has no candidate in any pipeline |
| Clustering.DistanceMapSymmetric | maestro/aggregator.py:20-24 | the two-way lookup is symmetric whatever the pairwise list |
| Clustering.SaturateMeans | maestro/aggregator.py:29-42 | a saturated cluster has mean pairwise distance below the threshold, keeps everybody, and nobody left could join it |
| Clustering.ClustersMean | maestro/aggregator.py:26-42 | the clusters partition the agents, each of two or more has mean pairwise distance strictly below the threshold, and nobody left when a cluster closed could join it |
| Scanning.ClustersAreScanned | maestro/aggregator.py:26-42 | the first agent left starts a cluster, and going round the list the next who is near joins, until nobody left is |
| Clustering.SortedHead | maestro/aggregator.py:44-45 | the stable sort puts the first of the longest clusters in front |
| Clustering.MajorityMeans | maestro/aggregator.py:44-47 | majority and minority together are the agents, and the majority is the first of the largest clusters |
| Clustering.MembersNeedNotBeClose | maestro/aggregator.py:7-13 | three agents, two of them 0.9 apart, form one cluster |
| Closeness.ClustersClose | maestro/aggregator.py:26-42 | without stragglers every cluster has all its members within the threshold of each other |
| Closeness.StragglerJoins | maestro/aggregator.py:26-42 | a straggler ends, in the order that puts its group first, in a cluster with a member it is not near |
| Closeness.AlwaysCloseIff | maestro/aggregator.py:7-42 | the docstring's closeness holds for every order of the agents exactly when there is no straggler, a condition on the distances alone |
| Closeness.TransitiveMeansClose | maestro/aggregator.py:7-42 | when nearness is transitive every cluster is pairwise close |
| Clustering.BuildDistanceMap | maestro/aggregator.py:20-24 | the loop builds the specified lookup |
| Clustering.OnePass | maestro/aggregator.py:33-41 | the loop over a snapshot that pops and grows in place makes the specified pass and reports whether anybody joined |
| Clustering.Grow | maestro/aggregator.py:31-41 | the `while changed` loop terminates in the specified saturated cluster |
| Clustering.BuildClusters | maestro/aggregator.py:26-42 | the worklist loop terminates in the specified clusters |
| Clustering.ClusterBySimilarity | maestro/aggregator.py:7-47 | the whole function returns the specified majority and minority, nothing for no agents |
| Dissent.OneDistanceToEachOther | maestro/dissent.py:119-124 | every agent has exactly one distance to each of the others |
| Dissent.EveryPairCountedTwice | maestro/dissent.py:119-132 | summed over the agents, the listed distances are twice the pairwise sum |
| Dissent.GroupMeanIsMeanPairwise | maestro/dissent.py:126-156 | the mean of the agents' means is the mean pairwise distance |
| Dissent.ExactOutliersBound | maestro/dissent.py:138-150 | with a positive group mean, compared exactly, fewer than two thirds of the agents exceed 1.5 times it |
| OutlierBound.OutliersNeedRounding | maestro/dissent.py:133-150 | with k outliers or more, the even share of the group's means among k rounds above the threshold |
| OutlierBound.EqualGroup | maestro/dissent.py:133-150 | agents equally far from each other, the rest at distance 0, have a given group mean and are the outliers once their share rounds above the threshold |
| OutlierBound.OutlierCountIff | maestro/dissent.py:133-150 | for each group mean and k: some distances give k outliers or more exactly when the even share rounds above the threshold; for k above two thirds in every council of up to 6666 agents, otherwise while the matching distances fit in [0, 1] |
| OutlierBound.RoundedSharesFit | maestro/dissent.py:133-150 | a share that rounds above the threshold is so small that the distances of the matching council fit in [0, 1] |
| OutlierBound.TwoThirdsUnlessRounded | maestro/dissent.py:133-150 | at most two thirds of the agents are outliers unless that happens for the next number |
| OutlierBound.OutliersBound | maestro/dissent.py:133-150 | the same as an explicit bound on the group mean for each council size |
| OutlierBound.RoundingMakesOutliers | maestro/dissent.py:133-150 | just below it, three agents of four are outliers, under a symmetric distance in [0, 1] |
| Dissent.NoDissentNoOutliers | maestro/dissent.py:144-150 | with group mean zero nobody is an outlier |
| Dissent.AgreementInUnit | maestro/dissent.py:152-156 | mean distance and internal agreement lie in [0, 1] |
| Dissent.ComputePairs | maestro/dissent.py:113-117 | the loop over pairs lists every unordered pair once with its distance |
| Dissent.CollectDistances | maestro/dissent.py:119-124 | the loop that appends both ways collects each agent's distances |
| Dissent.BuildProfiles | maestro/dissent.py:126-136 | one unmarked profile for each agent with its rounded mean, and the exact means |
| Dissent.MarkOutliers | maestro/dissent.py:138-150 | the loop marks exactly the agents whose rounded mean exceeds the threshold, nobody below three agents |
| Dissent.Analyze | maestro/dissent.py:96-176 | the whole analysis equals its specification |
| DissentReport.AnalysisTells | maestro/dissent.py:113-176 | pairs, rounded means, outliers, agreement and level of a report, told of the distances between the agents |
| PairSums.PairSumPermuted | maestro/aggregator.py:34-38 | the sum over the pairs of a cluster does not depend on the order its members joined |
| PairSums.CouncilSum | maestro/dissent.py:113-117 | over any order of the council that sum is the sum of the analysed distances |
| Agreement.AnalyzeAgreement | maestro/aggregator.py:63-92 | the agents split into the first of the longest clusters and the others in order; ratio and confidence are of the first, the majority view is its first member's answer, the minority views are the answers of exactly the others |
| Agreement.VerdictReports | maestro/aggregator.py:63-92 | the same of the specified verdict |
| Agreement.ScoreSession | maestro/r2.py:102-188 | every flag, the grade, the confidence and the quorum, told of the measured signals |
| Agreement.StrongIffUnflagged | maestro/r2.py:132-164 | a session is strong exactly when nothing is flagged |
| Agreement.ContributionInUnit | maestro/r2.py:426-448 | what a session earns lies in [0, 1], is 0.05 after a silent collapse and 1.0 exactly for a strong session |
| Agreement.ContributionIs | maestro/r2.py:426-448 | what each grade earns, halved after a silent collapse |
| Agreement.UnanimousMeansClose | maestro/aggregator.py:29-67 | if all of two or more agents are one cluster, the mean pairwise distance is below the threshold |
| Agreement.UnanimousNeverWeak | maestro/r2.py:130-164 | such a council is never highly dissenting, has high confidence and no minority, and is never graded weak |
| Agreement.QuorumsDisagreeIff | maestro/aggregator.py:85-149 | the aggregator's and the grade's quorum differ exactly for a ratio from one half up to the threshold |
| InjectionGuard.PruneIsSuffix | maestro/injection_guard.py:129-131 | pruning an ordered list of times keeps a suffix of it |
| InjectionGuard.RunSound | maestro/injection_guard.py:125-136 | over any run with a clock that never goes back, any max + 1 injections in a row span 3600 seconds |
| InjectionGuard.AtMostMaxPerWindow | maestro/injection_guard.py:125-136 | no window of 3600 seconds over the whole run holds more than the allowed injections, none if the allowance is not positive |
| InjectionGuard.ForgettingLosesNothing | maestro/injection_guard.py:125-132 | a check sees all the injections of the last 3600 seconds although old times are discarded |
| InjectionGuard.SoundBoundsWindow | maestro/injection_guard.py:125-136 | the same bound for a limiter in any state the operations keep |
| InjectionGuard.Guard.CheckRateLimit | maestro/injection_guard.py:125-132 | prunes the remembered times in place and allows below the maximum |
| InjectionGuard.Guard.RecordInjection | maestro/injection_guard.py:134-136 | appends the second clock reading |
| InjectionGuard.Guard.IsInjectable | maestro/injection_guard.py:79-97 | category, status and bounds decide, as specified |
| InjectionGuard.InjectableIff | maestro/injection_guard.py:79-152 | who may be injected: category, status and every bound on the target |
| InjectionGuard.Guard.CheckBounds | maestro/injection_guard.py:99-121 | exactly the numeric parameter updates outside some strategy's bounds are refused |
| Rollback.UndoExactIff | maestro/applicator.py:225-247 | undoing an injection gives back the store exactly when it was recoverable, a condition on the value found and the value proposed |
| Rollback.RestoredIff | maestro/applicator.py:297-336 | the recorded strings restore the value found exactly for a recoverable injection, variables and configuration keys |
| Rollback.UndoAllWritesLast | maestro/applicator.py:193-203 | a series of undos leaves each target as the last of its entries says |
| Rollback.RollbackOneMeans | maestro/applicator.py:169-191 | one rollback undoes and marks an active entry; an unknown or rolled back one changes nothing |
| Rollback.RollbackCycleMeans | maestro/applicator.py:169-203 | rolling back a cycle leaves its targets as their last snapshots say, everything else alone; it marks exactly the cycle's entries and a second time changes nothing |
| Injector.LedgerGrows | maestro/rollback.py:80-166 | a batch appends exactly the entries of the injections that took place, in order |
| Injector.LastWriteHolds | maestro/applicator.py:160-167 | after a batch a target holds what the last injection there put, or what it held |
| Injector.BatchThenRollback | maestro/applicator.py:160-203 | after a batch and its rollback a target holds what its last injection found, exactly when that was recoverable; an untouched one what it held |
| Injector.RollbackUndoesTheLastOnly | maestro/applicator.py:193-203 | undoing oldest first, what stays is what the injection before the last put there, or the value from before the batch |
| Injector.OneEachRestoresIff | maestro/applicator.py:160-203 | with one injection for each target the store is back exactly when every injection was recoverable |
| RestoredStore.GateFollows | maestro/applicator.py:93-150 | which requests take effect is told from the requests, the guard and the names in the store before |
| RestoredStore.RolledBackValue | maestro/applicator.py:160-203 | for any batch, what a target holds after the rollback, told from the strings proposed for it and the value before |
| RestoredStore.ComesBackIff | maestro/applicator.py:226-259 | one target: when undoing the last of several strings gives the value from before the first |
| RestoredStore.RollbackRestoresIff | maestro/applicator.py:160-203 | the store is back exactly when, for each target, undoing the last injection alone gives the value from before; repeated and unrecoverable targets included |
| RestoredStore.RestoresIffStrings | maestro/applicator.py:226-259 | the same in terms of the strings proposed: the value of each target comes back exactly when the last string and the one before it say so |
| RestoredStore.RecoverableRestoresIff | maestro/applicator.py:160-203 | for recoverable injections: exactly when, wherever a target was injected again, the injection before the last had put back the value from before |
| RestoredStore.InjectedTwiceStaysChanged | maestro/applicator.py:193-203 | a variable at 1.0 injected with 2 and then 3 holds 2.0 after the rollback |
| CycleLimit.CycleIsRun | maestro/self_improve.py:218-227 | a cycle's batch is one run of a new limiter |
| CycleLimit.AllowanceForEachCycle | maestro/self_improve.py:218-227 | over any cycles a window holds at most the allowance for each cycle that injects in it |
| CycleLimit.AllowanceIsReached | maestro/self_improve.py:218-227 | and it can hold that many, for any allowance and any number of cycles |
| CycleLimit.NextCycleKeepsLimitIff | maestro/self_improve.py:218-227 | every next cycle keeps the joint limit exactly when no earlier injection lies within 3600 seconds before its first clock reading |
| CycleLimit.TwoCyclesInjectTwice | maestro/self_improve.py:218-227 | with one injection allowed in an hour, two cycles a second apart inject one each |
| Injector.BatchKeepsLimit | maestro/applicator.py:104-150 | any batch, dry or not, keeps the hourly bound of its guard |
| BatchStory.BatchOutcomes | maestro/applicator.py:81-167 | the outcome of every request of a batch and who is promoted, told of the requests, the settings, and the injections of the last hour |
| CodeInjector.RollbackLog.MarkRolledBack | maestro/rollback.py:170-178 | marks the first active entry with the id and says whether there was one |
| CodeInjector.RollbackLog.Lookup | maestro/rollback.py:182-186 | finds the first entry with the id |
| CodeInjector.RollbackLog.GetActiveByCycle | maestro/rollback.py:196-201 | exactly the positions of the cycle's active entries, each once, oldest first |
| CodeInjector.CodeInjector.InjectRuntime | maestro/applicator.py:225-242 | changes the variable and the ledger as specified, or nothing when it does not exist |
| CodeInjector.CodeInjector.InjectConfig | maestro/applicator.py:297-323 | changes the overlay and the ledger as specified |
| CodeInjector.CodeInjector.Apply | maestro/applicator.py:81-158 | one application in place equals its specification on every branch |
| CodeInjector.CodeInjector.ApplyBatch | maestro/applicator.py:160-167 | the batch in place equals its specification |
| CodeInjector.CodeInjector.RollbackEntry | maestro/applicator.py:169-191 | undoes and marks an active entry, refuses any other |
| Rollback.ActiveMeans | maestro/rollback.py:196-201 | the selection is the ledger at exactly the positions of the cycle's active entries, in order |
| Rollback.CycleUndosSucceed | maestro/applicator.py:198-203 | every undo of a cycle is reported a success, in ledger order |
| CodeInjector.CodeInjector.RollbackOfCycle | maestro/applicator.py:193-203 | the rollback loop equals the specified rollback and returns each id with whether its undo succeeded |
| CodeInjector.TryAutoInject | maestro/self_improve.py:207-261 | nothing when disabled; otherwise the batch, and its rollback exactly when something was applied and the smoke test failed; the promoted proposals and the rollback's results as specified |
| CodeInjector.FailedSmokeTest | maestro/self_improve.py:240-261 | after a failed smoke test the store is what it was exactly when, for each target, undoing the last injection alone gives the value from before; nothing of the cycle is active, other cycles' entries are as they were, and every undo is reported a success |
| Manifests.RoundTrip | maestro/librarian/store.py:59-122 | every manifest survives being written and read back |
| Manifests.MissingFieldsDefault | maestro/librarian/store.py:95-122 | a record reads exactly if its six required fields are there; whatever else is missing has its default |
| Manifests.SignatureDefault | maestro/librarian/store.py:111-119 | a signature without a role is a Scribe's; without any other field the manifest does not read |
| Manifests.EnumsReadIff | maestro/librarian/store.py:99-106 | no other text is a kind or a form |
| Addressing.PayloadIff | maestro/librarian/addressing.py:102-127 | two manifests are signed as one exactly when they differ at most in hash and signatures |
| Addressing.MetadataIsBound | maestro/librarian/addressing.py:88-120 | changing the metadata changes what is signed |
| Scribe.SignAllMeans | maestro/librarian/scribe.py:337-349 | signing succeeds exactly with keys at hand that are new and different, and appends one genuine signature for each, in order |
| Scribe.SignedAs | maestro/librarian/scribe.py:337-349 | what the signature for each ask records, in order |
| Scribe.RefusedBecause | maestro/librarian/scribe.py:291-349 | why an anchor call is refused, in the order of the checks |
| Scribe.SigningRefusals | maestro/librarian/scribe.py:337-349 | signing is refused for a key that signed before or is not there |
| Scribe.ScribeAgent.SignEach | maestro/librarian/scribe.py:337-349 | the loop with its `seen` set equals the specified signing |
| Scribe.ScribeAgent.AnchorManifest | maestro/librarian/scribe.py:252-349 | one call equals its specification, every error included |
| Scribe.ScribeAgent.AnchorRevocation | maestro/librarian/scribe.py:351-396 | a revocation is the anchoring of a fresh manifest with an empty body; nothing to revoke is refused |
| Verification.MetIff | maestro/librarian/verification.py:108-173 | a manifest is accepted exactly when both hashes hold and enough signatures are valid; a wrong hash counts none, whatever the threshold |
| Verification.AcceptedIff | maestro/librarian/verification.py:85-173 | a manifest is accepted exactly when both hashes hold and as many positions as its kind needs hold an ed25519 signature that decodes and verifies under a trusted key |
| Verification.ReportMeans | maestro/librarian/verification.py:85-173 | one line for each signature, and why it does not count |
| Verification.SignersCountedIff | maestro/librarian/verification.py:124-173 | for any manifest, the count is the number of different trusted signers exactly when no key has two valid signatures |
| Attestation.FirstAnchor | maestro/librarian/scribe.py:303-349 | when the first call succeeds, and that it seals and signs |
| Attestation.LaterAnchor | maestro/librarian/scribe.py:315-349 | when a later call succeeds, and that it keeps both hashes |
| Attestation.ChainMeans | maestro/librarian/scribe.py:252-349 | a chain of calls succeeds exactly when its keys and bodies are signable; its signers are then different and all sign the final hash |
| Attestation.HashesFixed | maestro/librarian/scribe.py:300-349 | both hashes stay fixed after the first call |
| Attestation.ValidCountIsTrustedSigners | maestro/librarian/verification.py:124-173 | for a chain of anchor calls, the number of valid signatures is the number of different trusted signers, and the threshold is met exactly on it |
| Attestation.OrderDoesNotMatter | maestro/librarian/verification.py:124-173 | neither the order of the Scribes nor how keys are split among them matters |
| Attestation.OneKeyListedTwice | maestro/librarian/verification.py:160-173 | a manifest anchored by one key does not meet a threshold of two; with its signature listed twice it does |
| StorePaths.RelPathResolves | maestro/librarian/store.py:347-350 | a relative link leads back to its target |
| StorePaths.SharedIsLongest | maestro/librarian/store.py:347-348 | a relative link goes up no further than it must |
| StorePaths.StripsPrefix | maestro/librarian/store.py:128-137 | stripping a hash removes exactly its algorithm prefix |
| StorePaths.IdPaths | maestro/librarian/store.py:332-342 | a plain id has a directory of its own, and a plain version a link in it |
| StorePaths.ClimbingVersion | maestro/librarian/store.py:342-342 | a version that climbs out of its directory names another manifest's file |
| StorePaths.NestedId | maestro/librarian/store.py:332-342 | the version "head" of one id names the head of a nested id |
| StorePaths.HashFileIff | maestro/librarian/store.py:128-137 | which paths are the files of hashes, told from their text |
| StorePaths.HeadsAreNoHashFiles | maestro/librarian/store.py:332-341 | no id at all puts its head in the place of a hash's file |
| StoreFiles.MakeDirsMeans | maestro/librarian/store.py:335-337 | making directories changes nothing that is there; it fails exactly when something on the way is no directory |
| CommitSteps.OutcomeMeans | maestro/librarian/store.py:332-350 | where a commit stops is seen beforehand, in the directories it needs and the names they have |
| CommitSteps.TryMeans | maestro/librarian/store.py:335-350 | what is at any path after a commit, wherever it stopped |
| CommitSteps.LoadedIsEndorsed | maestro/librarian/store.py:229-250 | whatever the files hold, `load` returns only what the trusted keys endorse |
| LibrarianStore.SameContentSameVerdict | maestro/librarian/store.py:222-250 | another body under the same content hash verifies as well |
| LibrarianStore.StaysRightIff | maestro/librarian/store.py:192-266 | after one more verified commit `load` and `load_body` are right for every hash exactly when nothing it made or linked took the place of a hash's file (but for a body that is the manifest, byte for byte) |
| LibrarianStore.StoreMeans | maestro/librarian/store.py:303-352 | over any clear run the files of each hash are the last manifest and body stored under it |
| LibrarianStore.LoadRefines | maestro/librarian/store.py:192-266 | over any clear run a hash ever stored loads and gives the last manifest, or body, stored under it; any other is not found |
| LibrarianStore.AlwaysRightIff | maestro/librarian/store.py:192-352 | over a whole run, readers are right after every commit exactly when every commit was clear |
| StoreHeads.HeadStaysRightIff | maestro/librarian/store.py:268-350 | after one more clear commit an id's head is right exactly when the commit took no other id's head, or linked it to the hash it had |
| StoreHeads.HeadRefines | maestro/librarian/store.py:268-284 | an id ever linked, and not taken, resolves to the manifest now stored under the hash last linked for it; an unknown id to none |
| StoreHeads.HeadAlwaysRightIff | maestro/librarian/store.py:268-350 | over a whole clear run, an id's head is right after every commit exactly when no commit took it for another hash |
| StoreHeads.RaisedIsSilentIff | maestro/librarian/store.py:304-350 | readers' answers are as before a commit exactly when it had not got to its two files, or these were stored already |
| StoreHeads.HeadIsLoaded | maestro/librarian/store.py:340-350 | a commit that got to its head loads and is the head, though it may raise afterwards |
| StoreNames.InsideIsClear | maestro/librarian/store.py:332-342 | names that never climb take no hash's file, whatever is in the store |
| StoreNames.PlainCommits | maestro/librarian/store.py:332-350 | with names of one component a commit always runs through |
| StoreNames.PlainNamesRefine | maestro/librarian/store.py:192-284 | with names of one component the store is the simple maps of the commits themselves |
| StoreNames.AnyHashReads | maestro/librarian/store.py:128-137 | with or without its prefix, any string that strips to a digest reads as the full hash |
| StoreNames.SlashedVersionRaises | maestro/librarian/store.py:155-165 | a version with a slash raises for want of a directory; its manifest loads and is the head all the same |
| StoreNames.VersionCanReplaceAManifest | maestro/librarian/store.py:330-350 | after a commit whose version climbs to another manifest's file, loading that hash gives the new manifest |
| StoreNames.VersionCanReplaceAHead | maestro/librarian/store.py:330-350 | after a commit of version "head", the nested id's head is the new manifest |
| Librarian.Librarian.MkDir | maestro/librarian/store.py:335-337 | the directories in place |
| Librarian.Librarian.Replace | maestro/librarian/store.py:143-165 | a replacement in place; a directory refuses |
| Librarian.Librarian.Write | maestro/librarian/store.py:332-350 | the steps of a commit in place, up to the one that raises |
| Librarian.Librarian.Commit | maestro/librarian/store.py:303-352 | a commit that does not verify writes nothing; one that does goes as far as the file system lets it, with the error of the step that raised |
| Librarian.Librarian.Load | maestro/librarian/store.py:192-250 | the branches of load; over clear runs the last manifest stored under the hash |
| Librarian.Librarian.LoadBody | maestro/librarian/store.py:252-266 | over clear runs the last body stored under the hash |
| Librarian.Librarian.Head | maestro/librarian/store.py:268-284 | over clear runs that do not take the id's head, the manifest now stored under the hash last linked for it |
| Plugins.EnableProgress | maestro/plugins/manager.py:315-382 | enabling only adds to the enabled set, only from the closure of the plugin, each with its dependencies, whatever fails |
| Plugins.EnableKeepsClosed | maestro/plugins/manager.py:315-382 | from a dependency-closed state enabling ends in a closed one |
| Plugins.DisableKeepsClosedIff | maestro/plugins/manager.py:384-405 | disabling keeps it closed exactly when no other enabled plugin depends on the plugin |
| Plugins.DisableBreaksTheClosure | maestro/plugins/manager.py:384-405 | two plugins, one needing the other: disabling the needed one breaks the closure |
| Plugins.RestoreEnablesMore | maestro/plugins/manager.py:482-557 | a snapshot saved then restores to both |
| Plugins.RestoreIsClosed | maestro/plugins/manager.py:540-557 | restoring always ends closed and within every closed set that holds the listed plugins |
| Plugins.RestoreIsClosure | maestro/plugins/manager.py:540-557 | when every plugin works it enables exactly the least such set |
| Plugins.EnableSucceeds | maestro/plugins/manager.py:315-382 | when every plugin works, enabling a known plugin succeeds |
| Plugins.SaveRestoreIff | maestro/plugins/manager.py:482-557 | saving and restoring gives back the enabled set exactly when it was closed |
| PluginPhases.LoadMeans | maestro/plugins/manager.py:265-313 | loading leaves an enabled plugin alone and imports any other once |
| PluginPhases.EnableAlone | maestro/plugins/manager.py:315-382 | once its dependencies are enabled a loaded or disabled plugin is only activated, any other imported first; it ends enabled or failed |
| PluginPhases.EnableSettles | maestro/plugins/manager.py:315-382 | enabling leaves every record as it was, enabled or failed, and answers yes exactly when the plugin is enabled |
| PluginPhases.DisableMeans | maestro/plugins/manager.py:384-440 | an enabled plugin ends disabled, any known one unloaded, and nobody else changes |
| PluginPhases.RestartMeans | maestro/plugins/manager.py:505-530 | a restore disables what was enabled and lets new manifests join |
| PluginPhases.RestoreStep | maestro/plugins/manager.py:530-557 | then loads and enables the listed plugins one after another |
| PluginManager.ModManager.LoadPlugin | maestro/plugins/manager.py:268-313 | loading in place equals its specification |
| PluginManager.ModManager.EnablePlugin | maestro/plugins/manager.py:315-382 | the recursive enabling in place terminates and equals its specification |
| PluginManager.ModManager.DisablePlugin | maestro/plugins/manager.py:384-405 | disabling in place equals its specification |
| PluginManager.ModManager.UnloadPlugin | maestro/plugins/manager.py:407-425 | unloading in place equals its specification |
| PluginManager.ModManager.SaveSnapshot | maestro/plugins/manager.py:488-490 | lists exactly the enabled plugins |
| PluginManager.ModManager.RestoreSnapshot | maestro/plugins/manager.py:540-557 | disabling all, discovering and the enabling loop equal the specified restore |
| PluginManager.RemoveHooksOfMeans | maestro/plugins/manager.py:703-718 | removing a plugin's hooks takes the callbacks it owns, as often as it owns them and as far as they are there; the others' ownership stays, and covered owners stay covered |
| PluginManager.RegisteringMeans | maestro/plugins/manager.py:348-350 | registering puts the callback last; only a plugin's own way of registering records an owner |
| PluginManager.UnregisteringMeans | maestro/plugins/manager.py:677-683 | unregistering takes out the first registration of the callback, and the others keep their order |
| PluginManager.OthersKeepTheirsIff | maestro/plugins/manager.py:703-718 | from any table: the others keep all their hooks exactly when each callback they own is there as often as all its owners own it |
| PluginManager.UnregisterCoversIff | maestro/plugins/manager.py:677-683 | unregistering by hand keeps the owners covered exactly when the callback was absent or there more often than owned |
| PluginManager.AlwaysCoveredIff | maestro/plugins/manager.py:665-718 | over any run of operations at a hook point, owners have their hooks all along exactly when no owned callback is unregistered by hand |
| PluginManager.StaleOwnerTakesAnothersHook | maestro/plugins/manager.py:677-718 | a plugin that unregistered a callback, once disabled, takes the same callback of another with it |
| PluginManager.HookTable.RemovePluginHooks | maestro/plugins/manager.py:703-718 | the removal loop equals its specification |
| Instances.FreeIsLeast | maestro/instances.py:566-568 | the index found is the least unused one |
| Instances.NewIndexBelowTold | maestro/instances.py:559-576 | whatever the registry holds, a new shard's index is unused and below the count it is told |
| Instances.NextIsNew | maestro/instances.py:324-329 | an automatic number is nobody's, and only the first instance of an empty cluster is the orchestrator |
| Instances.ToldCountIff | maestro/instances.py:572-576 | the count told is that of the live shards exactly unless an orchestrator starts beside shards |
| Instances.RestartedOrchestratorIsToldTwice | maestro/instances.py:572-576 | beside two shards it is told four |
| Instances.RunKeepsSound | maestro/instances.py:532-771 | over any run of automatic spawns and stops: one orchestrator at most, different indices, all below the largest number of shards ever alive at once |
| Instances.OwnedOnceIff | maestro/cluster.py:76-88 | every task has exactly one owner exactly when the live indices are 0, 1 and so on up to their count |
| Instances.FullClusterOwnsEverything | maestro/cluster.py:76-88 | whenever as many shards live as ever did, their indices are exactly those and every task has one owner |
| Instances.StopLeavesATaskUnowned | maestro/instances.py:733-764 | in a cluster of two shards or more grown by automatic spawns, stopping the first leaves the tasks of residue 0 without an owner |
| Instances.ExplicitNumberIff | maestro/instances.py:543-557 | with numbers given by hand the orchestrator stays unique exactly when instance 1 is not started beside another |
| Instances.InstanceRegistry.NextInstanceNumber | maestro/instances.py:324-329 | one more than the largest known number, or one |
| Instances.InstanceRegistry.SmallestFreeIndex | maestro/instances.py:561-568 | the `while` loop terminates at the specified index |
| Instances.InstanceRegistry.Spawn | maestro/instances.py:532-682 | role, index, told count and the new registry as specified; a failed start registers nothing |
| Instances.InstanceRegistry.StopInstance | maestro/instances.py:733-764 | unregisters the instance and nothing else |

## Left out

- Sockets, HTTP routes, Redis, Docker, timers, file modes, agents and all user interfaces: only the state effects of the handlers are modelled. What the outside answers (clock readings, what is running, whether a plugin loads, the smoke test's verdict, the text distance) is a parameter.
- Floating point: reals, with four-digit rounding half to even written out. SHA-256, Ed25519, base64 and JSON text are functions; a signature made with a key verifies under its public key, base64 decodes what it encoded, and `float(str(x))` gives `x` back.
- Fresh ids (challenges, ledger entries) are never reused, proposals and agents have different names, and instance numbers found running count from one.
- Host, port, version, latency and first-seen time of a LAN peer; each handler reads the clock once.
- Weight hosts are values inside the registry's table. Left out: `find_nodes_for_shard`, `find_embedding_nodes`, the redundancy map, heartbeats and the pruning of hosts by age, coverage percentages, and the mean latency of a host.
- OutlierBound.OutlierCountIff: for k up to two thirds of the council, and beyond 6666 agents, stated while the matching council's distances fit in [0, 1], that is, the even share times n - 1 is at most k - 1.
- The Jaccard and embedding distances: any symmetric distance in [0, 1] is allowed. The exact-string branch of `analyze_agreement` and trends across sessions are left out.
- CodeInjector.CodeInjector.Apply: source patches (an AST rewrite and a module reload) are not part of this model; a reload runs module code again, which no undo of a single value describes. Integers and floats of equal value are one number.
- CodeInjector.CodeInjector.ApplyBatch: a request is never a source patch, in the batches and in the lemmas about them.
- CodeInjector.TryAutoInject: source patches are left out here as well, and `passed` is the smoke test's verdict.
- CodeInjector.CodeInjector.RollbackEntry: the configuration overlay is its content; a file deleted or damaged by something else between injection and rollback is not modelled.
- A module is always importable; reading a missing attribute is the failure that is modelled.
- Persistence of the ledger, the reputations, the registry and the manifests to JSON files, except for the Librarian's own store.
- LibrarianStore.AlwaysRightIff: no version names the body file of its own manifest's bytes, which only a fixed point of the digest does; digests are hexadecimal.
- StorePaths.HeadPath: a path that climbs above the store or is absolute is not followed outside of it, an unknown id that climbs through a missing directory is looked up as if it were there, and the temporary names of atomic writes are not modelled.
- Attestation.ValidCountIsTrustedSigners: a key id names one key for every Scribe and for the trust list, as the fingerprint of its public key does.
- Librarian methods that raise NotImplementedError, the two body forms that do, federation and the loaders.
- Plugin records are values inside the manager's table. Plugins whose activation calls back into the manager, hooks left by a failed activation and cyclic dependencies are assumed away; manifest validation, reloading, configuration files and the event bus are left out.
- `session.py` (the session history), `keyring.py` (API keys), `updater.py` (self-update), `state_bus.py` (state shared through Redis), `magi.py` (patterns across sessions), `deliberation.py` (the council's rounds) and `router/conformity.py` (a decayed measure of how often an agent sides with the majority) are left out altogether.
