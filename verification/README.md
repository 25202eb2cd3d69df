# Decision logic of the cluster autoscaler, modelled and proved in Dafny

The project models seven parts of the cluster autoscaler that decide something, and proves what they guarantee over all inputs, runs and interleavings.

1. **Bin-packing estimator and limiter** (`Snapshots`, `Limiter`, `Estimation`, `Packing`, `AnyFit`, `Refinement`, `Completeness`, `Estimator`, `Spreading`). Pod groups are packed onto simulated nodes of a forked snapshot. The scheduler is an arbitrary `World`: any predicates and any choice of nodes that is sound. The classes of `Estimator` and `Limiter` are proved to compute the functions of `Estimation`, and the theorems are about those functions: an any-fit bound of 2*OPT-1, a fast path that refines the slow one, whole groups of pods that fit a fresh node, counts within permissions with the exact condition for hostname spreading, prefixes of the input.
2. **Cluster state registry and repair** (`Stretches`, `Readiness`, `ScaleRequests`, `ClusterState`, `Repair`). A registry driven by timed observations keeps the history of all observations as a ghost field; its "since when" records, its ledger of requests and the two repair steps of the main loop are stated in terms of that history.
3. **Namespace quota allocator for capacity buffers** (`BufferQuotas`, `BufferAllocation`). The greedy allocation is the lexicographically greatest feasible one.
4. **Resource quota tracker** (`QuotaTracking`, `QuotaTracker`). All-or-nothing consumption over whole runs, and a per-group cache that agrees with the direct sums.
5. **VMSS capacity update with ETags** (`CapacityUpdate`, `ScaleSets`). Optimistic concurrency with `If-Match` (section 13.1.1 of RFC 9110) and status 412 (section 15.5.13 of RFC 9110) between a client cache, a server and other writers.
6. **Node-removal simulation** (`Removal`, `TpuRemoval`). Transactional what-if runs whose successes accumulate.
7. **Debugging snapshotter** (`Snapshotter`). Handlers and the main loop around a mutex and a one-slot channel, in every interleaving.

Code that updates things in place is modelled by classes and methods with loops; each is tied to a function or predicate on values, and the lemmas are about those. Errors of collaborators are values (`None`, `StepError`, `Broken`, ...), never preconditions. Times are integers in one unit.

Where the code does not meet a property that its documentation suggests, the model follows the code, a lemma gives an input that shows it, and another states when the property holds: `TwoPodsOvercount` and `CountExactlyWhen`, `UnconditionalPutsMayLower` and `SafeExactlyWhen`, `WideQuotientsAreCut` and `AnswerExactlyWhen`, `WideProductsAreMissed` and `AllowedExactlyWhen`, `OldInstanceTakesYoungOne` and `TakesOnlyOldExactlyWhen`, `RemovalOverloadsTpu` and `TpuAlwaysWithinExactlyWhen`, `SilentBlockLosesPods` and `DropsExactlyWhen`, `TimeoutAndFixLowerTwice` and `LoweredTwiceExactlyWhen`, `StaleTokenAnswersEmpty`, `StaleTokenAnswersStartOnly` and `TruthfulExactlyWhen`, `FlushMayBlockForever` and `StuckExactlyWhen`. Every rule under `pkg/simulator/drainability` that blocks a drain gives an error, so only rules added from outside can block silently.

Check the project with `dafny verify dfyconfig.toml`.

## Model

| member | source | states |
|---|---|---|
| Snapshots.ClusterSnapshot.Fork | pkg/simulator/clustersnapshot/store/basic.go:237-240 | the new fork starts as a copy of the current one, which is kept below it |
| Snapshots.ClusterSnapshot.Revert | pkg/simulator/clustersnapshot/store/basic.go:243-248 | the stack loses its top fork, except that the base is never dropped |
| Snapshots.ClusterSnapshot.Commit | pkg/simulator/clustersnapshot/store/basic.go:251-258 | the top fork replaces the one below it; nothing happens on the base |
| Snapshots.ClusterSnapshot.SchedulePod | pkg/simulator/clustersnapshot/predicate/predicate_snapshot.go:265-289 | the pod is on the node afterwards exactly when the predicates pass; an unknown node is an internal error |
| Snapshots.ClusterSnapshot.SchedulePodOnAnyNodeMatching | pkg/simulator/clustersnapshot/predicate/predicate_snapshot.go:293-317 | a chosen node is acceptable, present and passes; without a choice the snapshot is unchanged |
| Snapshots.ClusterSnapshot.UnschedulePod | pkg/simulator/clustersnapshot/predicate/predicate_snapshot.go:320-346 | only the pod with the given identity leaves the node; all lower forks stay |
| Snapshots.WithoutPodMeans | pkg/simulator/clustersnapshot/predicate/predicate_snapshot.go:320-346 | the first pod of the identity leaves, if there is one, and the others keep their order |
| Limiter.ComputeNodeLimit | pkg/estimator/sng_capacity_threshold.go:32-58 | the loop over the similar groups yields the sum of free capacities, cut to -1 when it is not positive; the static and cluster thresholds likewise |
| Limiter.FoldMeaning | pkg/estimator/threshold_based_limiter.go:57-65 | the folded limit is -1 if any threshold is negative, else the least positive one, else 0 |
| Limiter.FoldIgnoresOrder | pkg/estimator/threshold_based_limiter.go:37-55 | two orders of the same thresholds fold to the same limit |
| Limiter.DefaultLimits | pkg/builder/autoscaler_factory.go:98-102 | permissions granted under the default thresholds respect the static limit, the free capacity of the similar groups and the cluster maximum |
| Limiter.DefaultLimitsExactly | pkg/estimator/cluster_capacity_threshold.go:31-39 | a number of nodes is within the folded limit if and only if it is within the static limit, the free capacity of the similar groups and the cluster maximum |
| Limiter.DefaultDuration | pkg/builder/autoscaler_factory.go:98-102 | the only duration limit of the default thresholds is the static one |
| Limiter.FirstAsksAreGranted | pkg/estimator/threshold_based_limiter.go:69-81 | without a duration limit exactly the first requests, up to the node limit, are granted |
| Limiter.ThresholdBasedLimiter.StartEstimation | pkg/estimator/threshold_based_limiter.go:37-55 | afterwards nothing is granted yet and both limits are the folds over all thresholds |
| Limiter.ThresholdBasedLimiter.PermissionToAddNode | pkg/estimator/threshold_based_limiter.go:69-81 | a permission is granted if and only if there is no node limit or it is not reached, and there is no duration limit or it is not exceeded; only a grant is counted |
| Estimation.OnExistingPrefix | pkg/estimator/binpacking_estimator.go:163-186 | the pods placed on simulated nodes are a prefix of the group and the rest is returned |
| Estimation.OnNewPrefix | pkg/estimator/binpacking_estimator.go:190-269 | whatever exit is taken, the pods placed on new nodes are a prefix of the remaining ones |
| Estimation.FastPathPrefix | pkg/estimator/binpacking_estimator.go:274-324 | whatever exit is taken, the fast path places a prefix of the remaining pods |
| Estimation.PackSchedulesPrefixes | pkg/estimator/binpacking_estimator.go:102-161 | a finished estimation returns one prefix per group, in group order, so no input pod twice |
| Estimation.PackCounts | pkg/estimator/binpacking_estimator.go:102-161 | counted nodes outside the allowed others never outnumber the permissions granted, over all groups and both paths, unless a pod spreads late |
| Completeness.EstimateIsComplete | pkg/estimator/binpacking_estimator.go:102-324 | an estimation without an error to which the limiter refused nothing returns all pods of every group whose pods fit a fresh node in every cluster, whatever the other groups do; the limiter refuses at most once |
| Completeness.CompleteHasAll | pkg/estimator/binpacking_estimator.go:102-161 | no pod of such a group is missing from what is returned |
| Completeness.OneNodeInVain | pkg/estimator/binpacking_estimator.go:231-236 | node by node, at most one of the added nodes stays without a pod |
| Completeness.ErrorsAreReported | pkg/estimator/binpacking_estimator.go:163-269 | without a refusal, a group whose first pod breaks the predicates wherever it is tried makes the estimation end with an error |
| Completeness.EstimateSucceeds | pkg/estimator/binpacking_estimator.go:102-324 | with a scheduler that never breaks down and free node names no estimation ends with an error |
| Packing.PackCapped | pkg/estimator/binpacking_estimator.go:102-342 | no counted node outside the cluster, simulated or pretended, carries more than the template has room for |
| AnyFit.OnNewTight | pkg/estimator/binpacking_estimator.go:190-269 | placing pods node by node keeps every two counted nodes above one node's room together |
| AnyFit.FastPathApart | pkg/estimator/binpacking_estimator.go:274-324 | the arithmetic of the fast path keeps every two counted nodes above one node's room together and leaves out no pod unless refused |
| AnyFit.PackTight | pkg/estimator/binpacking_estimator.go:102-161 | over all groups: no error, pairs apart, and all pods scheduled unless the limiter refused |
| AnyFit.ApartBound | pkg/estimator/binpacking_estimator.go:102-161 | counted nodes kept apart are at most twice any feasible packing of the same pods, less one |
| AnyFit.EstimateIsAnyFit | pkg/estimator/binpacking_estimator.go:102-161 | with one additive resource, identical pods per group, pods that fit a fresh node and no refusal: all pods are returned and the count is at most 2*OPT-1 for every feasible packing |
| Refinement.SlowMatches | pkg/estimator/binpacking_estimator.go:190-269 | the node-by-node loop places identical pods in portions of the node capacity, one permission each |
| Refinement.FastMatches | pkg/estimator/binpacking_estimator.go:274-324 | the fast path draws the same permissions for the same portions |
| Refinement.FastRefinesSlow | pkg/estimator/binpacking_estimator.go:190-324 | same scheduled pods and as many counted nodes on both paths, also when refused part way; same limiter state when a fresh node takes a pod |
| Refinement.EstimateUnchangedByFastPath | pkg/estimator/binpacking_estimator.go:102-161 | switching the fast path on for the last group changes neither the pods returned nor the count |
| Estimator.MovedLastPermutes | pkg/estimator/binpacking_estimator.go:112-128 | the reordering is a permutation that moves one group last and keeps the order of the others |
| Estimator.MoveLast | pkg/estimator/binpacking_estimator.go:112-128 | the in-place reordering of the slice performs exactly that permutation |
| Estimator.EstimationState.TrackScheduledPod | pkg/estimator/binpacking_estimator.go:58-61 | the pod is appended to the schedule and its node becomes a counted one |
| Estimator.BinpackingNodeEstimator.TryToScheduleOnExistingNodes | pkg/estimator/binpacking_estimator.go:163-186 | the loop ends in the specified state with the pods that found no place |
| Estimator.BinpackingNodeEstimator.TryToScheduleOnNewNodes | pkg/estimator/binpacking_estimator.go:190-269 | the loop ends in the specified state on each of its exits |
| Estimator.BinpackingNodeEstimator.TryFastPath | pkg/estimator/binpacking_estimator.go:274-324 | the fast path ends in the specified state on each of its exits |
| Estimator.BinpackingNodeEstimator.AddNewNodeToSnapshot | pkg/estimator/binpacking_estimator.go:326-342 | a node named after the next index is added and becomes the last one, or the state is unchanged on error |
| Estimator.BinpackingNodeEstimator.Estimate | pkg/estimator/binpacking_estimator.go:102-161 | the snapshot stack is as before on every exit; groups are reordered; the count is the number of distinct nodes carrying a pod, or nothing on error; if the limiter refused nothing, every group whose pods fit a fresh node is returned as a whole |
| Estimator.CountWithinPermissions | pkg/estimator/binpacking_estimator.go:102-161 | counted new nodes never exceed the permissions; neither does the whole count when the cluster is empty, the limiter never grants, no pod spreads late, or the scheduler rejects none for its topology |
| Estimator.CountWithinDefaultLimits | pkg/estimator/binpacking_estimator.go:102-161 | under the same exact condition a positive count is within a positive static limit, the summed free capacity and a positive cluster maximum |
| Estimator.EstimateStaysWithinTemplate | pkg/estimator/binpacking_estimator.go:102-161 | one prefix per group is returned and no counted node outside the cluster exceeds the template |
| Spreading.SpreadingOvercounts | pkg/estimator/binpacking_estimator.go:212-227 | for every input with a late hostname-spreading pod, a node in the cluster and a limiter that grants, some sound scheduler makes the estimate count two nodes for one permission |
| Spreading.TwoPodsOvercount | pkg/estimator/binpacking_estimator.go:212-227 | two spreading pods and one empty node of the cluster are such an input |
| Spreading.CountExactlyWhen | pkg/estimator/binpacking_estimator.go:102-269 | the count stays within the permissions under every sound scheduler if and only if the cluster is empty, the limiter never grants, or no pod outside the fast group spreads over hostnames after the first one |
| CapacityUpdate.UpdateIsSafe | pkg/cloudprovider/azure/azure_scale_set.go:554-635 | with ETags, under any other writers and lost messages, no PUT of the call lowers the capacity, and a call that succeeds saw its target reached |
| CapacityUpdate.SuccessReaches | pkg/cloudprovider/azure/azure_scale_set.go:554-635 | with or without ETags, a call that succeeds saw its target reached |
| CapacityUpdate.SucceedsExactlyWhen | pkg/cloudprovider/azure/azure_scale_set.go:554-635 | a call succeeds if and only if its PUT is delivered and, when it names an outdated version, the refreshed object is read and is large enough or the second PUT is delivered in time |
| CapacityUpdate.SuccessEndsAt | pkg/cloudprovider/azure/azure_scale_set.go:554-635 | an accepted PUT leaves the capacity at the target, and a call that needed none leaves it as found, at the target or above |
| CapacityUpdate.SafeExactlyWhen | pkg/cloudprovider/azure/azure_scale_set.go:554-635 | a call is safe in every interleaving whose refreshed objects carry an ETag if and only if ETags are on, one is cached, and it is outdated or stands for no more than the new size |
| CapacityUpdate.NoCallIsSafeBlind | pkg/cloudprovider/azure/azure_scale_set.go:596-635 | if refreshed objects may come without an ETag, no call is safe in every interleaving |
| CapacityUpdate.OverlappingCallsMayLower | pkg/cloudprovider/azure/azure_scale_set.go:347-354 | two overlapping calls of one process can lower the capacity: the size is read before the other call, the ETag after it |
| CapacityUpdate.UnconditionalPutsMayLower | pkg/cloudprovider/azure/azure_scale_set.go:554-588 | without ETags, without a cached ETag, or when the refreshed object carries none, a PUT can lower the capacity |
| ScaleSets.ScaleSet.GetCurSize | pkg/cloudprovider/azure/azure_scale_set.go:208-273 | succeeds exactly when an object is cached and, for spot instances past the refresh period, the server answers; gives the size in memory within the period, then that of the server or of the cache; refreshing keeps the two in step |
| ScaleSets.ScaleSet.GetScaleSetSize | pkg/cloudprovider/azure/azure_scale_set.go:276-289 | succeeds exactly when the size read is known and not negative; the size is then the one in memory |
| ScaleSets.ScaleSet.CanIncreaseSize | pkg/cloudprovider/azure/azure_scale_set.go:324-344 | succeeds if and only if the delta is positive, the size read is known and the sum is at most the maximum |
| ScaleSets.ScaleSet.InitCreateOrUpdate | pkg/cloudprovider/azure/azure_scale_set.go:554-635 | the server ends as one run of the protocol leaves it; success means that the target was reached; the object passed in keeps capacity and ETag; the object to track is the cached one |
| ScaleSets.ScaleSet.CreateOrUpdateInstances | pkg/cloudprovider/azure/azure_scale_set.go:646-698 | on success the size in memory is the capacity of the tracked object; on error the object passed in has its old capacity and the size is unchanged; if the ETag held at the PUT is outdated or stands for no more than the new size, no PUT lowers the capacity |
| ScaleSets.ScaleSet.IncreaseSize | pkg/cloudprovider/azure/azure_scale_set.go:347-354 | succeeds if and only if the size may grow and the update that starts from the size read succeeds, and then reaches the target; an error leaves the size as the size read left it; in step and with ETags no PUT of the call lowers the capacity |
| ScaleSets.ScaleSet.AtomicIncreaseSize | pkg/cloudprovider/azure/azure_scale_set.go:368-432 | the same for the atomic increase, which fails also when the wait for a started update fails |
| ScaleSets.ScaleSet.WaitForCreateOrUpdateInstances | pkg/cloudprovider/azure/azure_scale_set.go:701-738 | the tracked object takes the ETag of a finished operation and nothing else |
| ScaleSets.ScaleSet.DeleteInstances | pkg/cloudprovider/azure/azure_scale_set.go:741-834 | the size in memory drops by the number deleted exactly when the deletion was accepted, is to be counted and does not exceed the size |
| ScaleSets.RunOps | pkg/cloudprovider/azure/azure_scale_set.go:646-834 | over any sequence of increases, deletions and refreshes the size in memory is never below -1 |
| ScaleSets.OverlappedIncrease | pkg/cloudprovider/azure/azure_scale_set.go:347-354 | with any operations of other calls between the size read and the PUT: says exactly when it succeeds; success still means that the target was reached within the maximum, and no PUT lowers the capacity if the ETag held at the PUT is outdated or stands for no more than the target |
| ScaleSets.OverlappedAtomicIncrease | pkg/cloudprovider/azure/azure_scale_set.go:368-432 | the same for the atomic increase, also with operations of other calls between its PUT and its publication |
| BufferQuotas.PodMatchesQuotaScope | pkg/capacitybuffer/controller/resourcequotas.go:149-160 | an error exactly for a malformed priority-class selector, and a match exactly for pods whose requests, priority class and affinity meet every selector |
| BufferQuotas.SelectorMeans | pkg/capacitybuffer/controller/resourcequotas.go:237-309 | one selector in terms of the requests, the priority class and the affinity of the pod |
| BufferQuotas.UniformScopes | pkg/capacitybuffer/controller/resourcequotas.go:237-269 | selectors of one kind match exactly: NotBestEffort the pods that request cpu or memory, BestEffort the others, NotTerminating all, Terminating none, affinity the pods with it |
| BufferQuotas.LeastFitIsGreatest | pkg/capacitybuffer/controller/resourcequotas.go:162-196 | a number is the greatest the quota admits if and only if it is the least quotient over the hard resources, capped at 32 bits |
| BufferQuotas.AnswerExactlyWhen | pkg/capacitybuffer/controller/resourcequotas.go:162-196 | the answer is the greatest number of replicas admitted if and only if a requested resource is in deficit, no 64-bit quotient is cut below the least exact one, or the narrowing to 32 bits undoes the cut |
| BufferQuotas.NarrowQuotientsAreReliable | pkg/capacitybuffer/controller/resourcequotas.go:162-196 | with 64-bit quotients that condition holds, whatever is reserved |
| BufferQuotas.GetMaxReplicasForQuota | pkg/capacitybuffer/controller/resourcequotas.go:162-196 | in any order of the resources the method answers with the least cut quotient narrowed to 32 bits, or 0 in deficit, and that is the greatest number admitted exactly under the condition above |
| BufferQuotas.WideQuotientsAreCut | pkg/capacitybuffer/controller/resourcequotas.go:162-196 | a quotient of 2^64 makes the code answer 0 although the quota admits 2^31-1 replicas |
| BufferQuotas.NegativeQuotientsAreNarrowed | pkg/capacitybuffer/controller/resourcequotas.go:192-195 | a quotient of 2^63+5 makes the code answer 5 |
| BufferAllocation.GreedyIsLexGreatest | pkg/capacitybuffer/controller/resourcequotas.go:60-131 | giving each buffer in turn the most that is left is lexicographically greatest among all feasible allocations |
| BufferAllocation.AppliesExactlyWhen | pkg/capacitybuffer/controller/resourcequotas.go:149-160 | a quota applies exactly to the pods that meet all of its selectors |
| BufferAllocation.UpdateUsages | pkg/capacitybuffer/controller/resourcequotas.go:198-214 | each matching quota's usage of each hard resource grows by replicas times request, all others stay |
| BufferAllocation.AllowedReplicas | pkg/capacitybuffer/controller/resourcequotas.go:91-116 | the running minimum over the matching quotas is the most replicas that none refuses; the names listed as blocking are those of the quotas that do not admit the whole request |
| BufferAllocation.Serve | pkg/capacitybuffer/controller/resourcequotas.go:69-128 | one buffer: its status reports what it got, and the usages grow by exactly its share |
| BufferAllocation.OnTrackIsBest | pkg/capacitybuffer/controller/resourcequotas.go:60-131 | a greedy, correctly booked allocation is feasible and no feasible one is lexicographically greater |
| BufferAllocation.Allocate | pkg/capacitybuffer/controller/resourcequotas.go:60-131 | the replicas granted are the lexicographically greatest feasible vector in buffer order, if every answer along it can be relied on, as with 64-bit quotients; buffers of another namespace, without replicas, template or requests do not change, the others report what they got; errors are reported exactly when a scope cannot be decided |
| QuotaTracking.WideProductsAreMissed | pkg/resourcequotas/tracker.go:150-183 | four nodes of 2^62 each: the product of 2^64 is cut to zero and passes the check |
| QuotaTracking.AllowedExactlyWhen | pkg/resourcequotas/tracker.go:150-183 | the allowed delta is the greatest number of nodes that fits every matching quota if and only if each exceeded entry whose product is cut below its headroom is outdone by a flagged one; something is exceeded exactly when the allowed delta is below the request |
| QuotaTracking.NarrowProductsAreSeen | pkg/resourcequotas/tracker.go:150-183 | with 64-bit products that condition holds |
| QuotaTracking.AllowedIsAllowed | pkg/resourcequotas/tracker.go:72-133 | consuming the number just allowed by a check succeeds |
| QuotaTracking.LeftExactlyWhen | pkg/resourcequotas/tracker.go:91-97 | taking a product from a headroom that passed the test is exact if and only if the product is a 64-bit number |
| QuotaTracking.GrantedExactly | pkg/resourcequotas/tracker.go:72-100 | a granted request takes exactly its amounts; the clamp at zero never acts |
| QuotaTracking.RunConserves | pkg/resourcequotas/tracker.go:72-100 | over any run of 64-bit requests every headroom stays non-negative and equals its start minus exactly what was granted |
| QuotaTracking.RunExactlyWhen | pkg/resourcequotas/tracker.go:72-183 | over any run in 64-bit arithmetic a headroom equals its start minus what was granted, and no more than the start was granted, if and only if no granted amount exceeds 64 bits; it is never negative and never too small |
| QuotaTracking.ActAllIsRunAll | pkg/resourcequotas/tracker.go:72-183 | for 64-bit requests the run of the code is the run of all-or-nothing consumptions |
| QuotaTracking.LimitsAreNeverCrossed | pkg/resourcequotas/tracker.go:72-100 | consumption never crosses a maximum upward nor a minimum downward |
| QuotaTracking.ConsumeInTwoSteps | pkg/resourcequotas/tracker.go:72-100 | consuming a then b both succeed exactly when consuming a+b does, with the same headrooms |
| QuotaTracker.NodeResourcesCache.TotalNodeResources | pkg/resourcequotas/cache.go:46-62 | an entry of the group is returned if there is one, otherwise computed and stored for the group |
| QuotaTracker.NodeResourcesNonNegative | pkg/resourcequotas/cache.go:65-86 | a node's resources are non-negative and always include the node itself |
| QuotaTracker.NodeResourcesMean | pkg/resourcequotas/cache.go:65-86 | cpu, memory and the node count under their names unless a custom resource of the same name takes their place; of several the last counts |
| QuotaTracker.CacheHoldsFirst | pkg/resourcequotas/cache.go:46-62 | after the usages are calculated the cache holds the resources of the first tracked node of every group |
| QuotaTracker.CalculateUsages | pkg/resourcequotas/usage.go:67-95 | when nodes of a group have equal resources the cached sums equal the direct per-node sums under every identifier, also when quotas share one, and the calculation fails exactly when a tracked node cannot be looked up |
| QuotaTracker.UsageUnderIsDirect | pkg/resourcequotas/usage.go:67-95 | with distinct identifiers the sum under an identifier is the sum of its quota over the nodes it applies to |
| QuotaTracker.CalculateHeadroom | pkg/resourcequotas/factory.go:88-106 | for every limited resource the headroom leads exactly to the limit, up to a maximum or down to a minimum, and is zero beyond it |
| QuotaTracker.ConsumedToTheLimit | pkg/resourcequotas/tracker.go:72-100 | what a run takes of a starting headroom meets the limit exactly when nothing of it is left, and never passes it |
| QuotaTracker.Tracker.MatchingQuotaStatuses | pkg/resourcequotas/tracker.go:185-193 | exactly the quotas that apply to the node, in order |
| QuotaTracker.Tracker.CheckQuota | pkg/resourcequotas/tracker.go:150-183 | the nested loops allow the least quotient among the flagged entries and list the flagged ones quota by quota |
| QuotaTracker.Tracker.ConsumeQuota | pkg/resourcequotas/tracker.go:72-100 | all or nothing: the headrooms are reduced when nothing is exceeded and untouched otherwise or on error |
| QuotaTracker.ConsumedIsConsume | pkg/resourcequotas/tracker.go:72-100 | within 64 bits one call is one step of the runs above, and exceeded means allowed less than asked |
| QuotaTracker.ConsumeAll | pkg/resourcequotas/tracker.go:72-100 | a tracker driven through any calls ends with the headrooms of the run of their requests, which for 64-bit requests is the run of all-or-nothing consumptions |
| QuotaTracker.NewQuotasTracker | pkg/resourcequotas/factory.go:77-108 | every starting headroom leads from the direct sum over the nodes under its identifier to the limit; 64-bit limits and usages give 64-bit headrooms; building fails exactly when a tracked node cannot be looked up |
| Stretches.RecordMeansStretch | pkg/clusterstate/clusterstate.go:826-834 | after any run a "since" record exists exactly for keys seen last, with their value and the time its unbroken stretch began |
| Readiness.TallyListsClasses | pkg/clusterstate/clusterstate.go:735-755 | each list holds exactly the nodes of its class, in node order |
| Readiness.ClassesPartition | pkg/clusterstate/clusterstate.go:735-755 | every registered node is in exactly one of Deleted, Suspended, Ready, NotStarted, Unready |
| Readiness.TotalsAddUp | pkg/clusterstate/clusterstate.go:719-770 | class by class the cluster lists the same names as the groups and the ungrouped nodes together, although the startup time is carried over |
| Readiness.StatsMean | pkg/clusterstate/clusterstate.go:735-755 | a name is in a list of a group or of the cluster exactly when a node of that name belongs there by its condition and its age |
| Readiness.StartupMeans | pkg/clusterstate/clusterstate.go:722-731 | the startup time in effect is that of the last node so far whose group has one, and fifteen minutes before |
| Readiness.UpdateReadinessStats | pkg/clusterstate/clusterstate.go:719-802 | per group and in total: nodes by class, and unregistered instances split by whether they exceeded the provision time |
| ScaleRequests.RegisterKeepsPositive | pkg/clusterstate/clusterstate.go:287-324 | registering or reducing keeps every open request positive and touches one group only |
| ScaleRequests.RegisterAdds | pkg/clusterstate/clusterstate.go:287-324 | registering adds to the open increase, down to zero, and only new nodes move the deadline |
| ScaleRequests.RegisterTwice | pkg/clusterstate/clusterstate.go:316-323 | registering a and then b is registering a + b with the deadline of the later call |
| ScaleRequests.RegisterUndone | pkg/clusterstate/clusterstate.go:310-314 | taking back what was registered leaves no request behind |
| ScaleRequests.UpdateScaleUpRequests | pkg/clusterstate/clusterstate.go:345-384 | exactly the surviving requests are kept, and exactly the timed-out ones have their target lowered by their increase |
| ScaleRequests.PendingExpireLater | pkg/clusterstate/clusterstate.go:387-393 | the scale-down requests kept are exactly those that expire after now |
| ScaleRequests.UpdateScaleDownRequests | pkg/clusterstate/clusterstate.go:387-393 | the loop keeps those requests in order |
| ScaleRequests.UpdateAcceptableRanges | pkg/clusterstate/clusterstate.go:659-681 | ranges exist for running groups and groups with requests, from target - long unregistered - increase to target + pending deletions |
| ScaleRequests.UnseenIsNew | pkg/clusterstate/clusterstate.go:1275-1281 | the unseen instances under one error code are the new errors with that code |
| ScaleRequests.HandleInstanceCreationErrors | pkg/clusterstate/clusterstate.go:1254-1302 | in any order of error codes the open request of a scaling-up group is reduced by the number of new creation errors, saturating |
| ScaleRequests.NewErrorsCountIds | pkg/clusterstate/clusterstate.go:1329-1356 | that number is the number of identities in error now and not in the previous listing |
| ScaleRequests.InErrorMeans | pkg/clusterstate/clusterstate.go:1329-1356 | an identity is in error exactly when an instance of that name is being created and carries an error |
| ScaleRequests.ChargedAtMostOnce | pkg/clusterstate/clusterstate.go:1254-1302 | an instance that stays in error over consecutive updates is charged once, or not at all if it was in error before |
| ClusterState.RunningGroups | pkg/clusterstate/clusterstate.go:1157-1166 | the running groups are exactly those not still being created |
| ClusterState.GetNotRegisteredNodes | pkg/clusterstate/clusterstate.go:1182-1203 | exactly the listed instances that are expected to register and have not |
| ClusterState.MissingMeans | pkg/clusterstate/clusterstate.go:1182-1207 | an instance is missing exactly when it is listed, no node carries its identity, and it is neither being deleted nor in error |
| ClusterState.UnregisteredSinceMeans | pkg/clusterstate/clusterstate.go:842-852 | over any run UnregisteredSince is the start of the unbroken stretch in which the instance was listed, expected and missing |
| ClusterState.FirstObservedMeans | pkg/clusterstate/clusterstate.go:805-840 | over any run FirstObserved is the time from which every update saw the same registered count and target |
| ClusterState.SizesAsObserved | pkg/clusterstate/clusterstate.go:805-840 | the sizes compared are the observed numbers of registered and missing instances of the group |
| ClusterState.TooSmallHasUpcoming | pkg/clusterstate/clusterstate.go:577-607 | a group that is too small even with all its missing instances still counts as having upcoming nodes |
| ClusterState.UpcomingIsOutstanding | pkg/clusterstate/clusterstate.go:1150-1154 | the upcoming nodes of a running group are its observed target less the nodes that are suspended, ready or past their startup time and the instances missing for too long |
| ClusterState.RequestsEndAsObserved | pkg/clusterstate/clusterstate.go:341-384 | in terms of the observations an open request of a running group is reverted exactly when nodes are outstanding and its deadline passed, and goes without a revert exactly when none is outstanding or new creation errors use it up |
| ClusterState.CompleteGroupIsNotReverted | pkg/clusterstate/clusterstate.go:349-376 | the request of a group whose target nodes are all registered and ready ends without a revert |
| ClusterState.RangeOfRunningGroup | pkg/clusterstate/clusterstate.go:659-681 | the range of a running group in terms of its observed target, long missing instances, open increase and pending deletions |
| ClusterState.PrunedThenCharged | pkg/clusterstate/clusterstate.go:456-460 | pruning followed by error handling leaves each group the request the specification gives, with upcoming nodes and time left |
| ClusterState.ClusterStateRegistry.RegisterScaleUp | pkg/clusterstate/clusterstate.go:262-266 | the request of the group becomes the specified one; all open requests stay positive |
| ClusterState.ClusterStateRegistry.RegisterScaleDown | pkg/clusterstate/clusterstate.go:327-338 | one more scale-down request, nothing else |
| ClusterState.ClusterStateRegistry.Recalculate | pkg/clusterstate/clusterstate.go:467-476 | the ranges follow the targets and the open requests again |
| ClusterState.ClusterStateRegistry.UpdateUnregisteredNodes | pkg/clusterstate/clusterstate.go:842-852 | instances already on record keep their time, new ones get the time of the update, others are dropped |
| ClusterState.ClusterStateRegistry.UpdateIncorrectNodeGroupSizes | pkg/clusterstate/clusterstate.go:805-840 | mismatches with the same sizes keep their time, others get the time of the update |
| ClusterState.ClusterStateRegistry.UpdateScaleRequests | pkg/clusterstate/clusterstate.go:341-394 | requests without upcoming nodes and requests past their deadline are gone, and timed-out ones are reverted; what upcoming means is stated by `UpcomingIsOutstanding` |
| ClusterState.ClusterStateRegistry.HandleCreationErrors | pkg/clusterstate/clusterstate.go:1242-1252 | each running group is charged for its new creation errors |
| ClusterState.ClusterStateRegistry.UpdateNodes | pkg/clusterstate/clusterstate.go:420-464 | each update keeps the records in step with the whole history; every open request ends or stays as the observations call for; scale-down requests expire later, ranges and charges as specified; a failed read changes nothing |
| Repair.DueExactlyWhen | pkg/core/static_autoscaler.go:973-999 | over any run a decrease is called for if and only if the same mismatch was observed without a break for longer than the provision time, by observed registered minus observed target |
| Repair.DecreaseClosesGap | pkg/core/static_autoscaler.go:984-992 | the decrease brings the observed target exactly to the observed registered count |
| Repair.FixSizes | pkg/core/static_autoscaler.go:973-999 | the decreases asked for are those due up to the first failure; `fixed` is reset by an unknown provision time only |
| Repair.FixNodeGroupSize | pkg/core/static_autoscaler.go:973-999 | every decrease asked for, and no other, is justified by the history of observations |
| Repair.LoweredTwiceExactlyWhen | pkg/core/static_autoscaler.go:973-999 | a group that is fixed had its target lowered by the update of the same loop too if and only if its open request was past its deadline, and the target then ends below the registered count by the increase of the request |
| Repair.UpdateThenFix | pkg/core/static_autoscaler.go:415-492 | the update and the size fixing of one loop, driven on the registry, have that effect on every group that is fixed |
| Repair.TimeoutAndFixLowerTwice | pkg/clusterstate/clusterstate.go:357-384 | a run in which a target of three is lowered by two twice with one node registered |
| Repair.OldUnregisteredNodes | pkg/core/static_autoscaler.go:1073-1098 | old instances by group, in listing order; an unknown provision time is an error |
| Repair.OldExactlyWhen | pkg/core/static_autoscaler.go:1085-1094 | over any run an instance is old if and only if its unbroken missing stretch exceeds the provision time of its group |
| Repair.RemovalIsBounded | pkg/core/static_autoscaler.go:1017-1038 | removals stay within target minus minimum and take old instances only, as many as allowed; zero-or-max groups lose all instances or none, and exactly when |
| Repair.RemovesOnlyGivenExactlyWhen | pkg/core/static_autoscaler.go:1151-1175 | only given instances are removed if and only if the group is not a zero-or-max one, keeps all its instances, or has no others |
| Repair.TakesOnlyOldExactlyWhen | pkg/core/static_autoscaler.go:1003-1098 | over any run only long missing instances are asked of a group if and only if it spares its young ones, in terms of the observations and the answers of the provider |
| Repair.OldInstanceTakesYoungOne | pkg/core/static_autoscaler.go:1151-1175 | a run of two observations in which one old instance of a zero-or-max group takes one missing for a second with it |
| Repair.RemoveByGroup | pkg/core/static_autoscaler.go:1013-1069 | groups are handled in any order until a deletion fails; each is asked once |
| Repair.RemoveOldUnregisteredNodes | pkg/core/static_autoscaler.go:1003-1070 | every removal asked for is justified by the history and the limits of its group; if none failed, every group that must lose instances is asked, with force no long missing instance is left out, and all instances asked are long missing if and only if every group concerned spares its young ones; a failure is the last removal asked for, and one the provider does not carry out |
| Removal.KindsPartition | pkg/simulator/drain.go:66-85 | every pod before the first blocking one is in exactly one list or left alone |
| Removal.GetPodsToMove | pkg/simulator/drain.go:49-86 | the list to move holds exactly the pods before the first blocking one that drain and belong to no DaemonSet, the other lists those of DaemonSets and those to wait for; a blocking pod is an error only if its rule gave one |
| Removal.DaemonsNeedNoPlace | pkg/simulator/cluster.go:178-275 | a node that holds only pods of DaemonSets needs no place for any |
| Removal.MoveListCompleteExactlyWhen | pkg/simulator/drain.go:77-82 | the list of pods to move is complete if and only if no pod that should move comes after one that blocks |
| Removal.FirmRulesMoveAll | pkg/simulator/drain.go:77-82 | with rules whose blocking pods always come with an error, a simulation that goes on has listed every pod to be moved |
| Removal.SilentBlockLosesPods | pkg/simulator/drain.go:77-82 | a pod that blocks without an error lets the simulation go on without the pods after it |
| Removal.HintingSimulator.TryScheduleUsingHints | pkg/simulator/scheduling/hinting_simulator.go:171-197 | a pod is placed exactly when it has a hint to an acceptable node of the cluster that passes, and there; otherwise the snapshot is unchanged |
| Removal.HintingSimulator.TrySchedulePods | pkg/simulator/scheduling/hinting_simulator.go:73-150 | every pod reported as placed has exactly one place on an acceptable node, within its capacity, and nothing else changed; if not all are placed, some pod was hindered: an internal error, a mark as similar, or no acceptable node that passes in a state reached |
| Removal.RemovalSimulator.ReplaceWithTaintedGhostNode | pkg/simulator/cluster.go:286-308 | the node is swapped for a tainted copy without pods |
| Removal.RemovalSimulator.FindPlaceFor | pkg/simulator/cluster.go:237-275 | success means that all pods moved to other destinations and the node is gone; failure means that one of them was hindered in that sense |
| Removal.RemovalSimulator.WithForkedSnapshot | pkg/simulator/cluster.go:221-235 | without success or without persistence the stack of forks is exactly as before; a failure has the reason above |
| Removal.RemovalSimulator.SimulateNodeRemoval | pkg/simulator/cluster.go:178-219 | each outcome is explained: a block by the first blocking pod, no place by a pod that was hindered with the node emptied; only pods that drain and belong to no DaemonSet move, and a node with DaemonSet pods alone can be removed; failed calls leave the snapshot as they found it; persisted successes relocate the pods |
| Removal.RelocatedWithin | pkg/simulator/cluster.go:237-275 | a relocation keeps all surviving nodes within their capacity |
| Removal.TrueTpuAfter | pkg/utils/tpu/tpu.go:57-79 | with the cleared TPU requests restored, a node carries what it had plus what its new pods ask for, and stays within its TPUs when all moved pods fit its free ones |
| Removal.TrueTpuExactlyWhen | pkg/utils/tpu/tpu.go:57-79 | with one destination its true TPU load is within the node if and only if all moved pods fit |
| Removal.TpuAlwaysWithinExactlyWhen | pkg/utils/tpu/tpu.go:57-79 | with any number of destinations that each have room for all moved pods, the true TPU loads are within them in every outcome of the removal if and only if each could take the TPU requests of all moved pods |
| TpuRemoval.RemovalOverloadsTpu | pkg/simulator/cluster.go:178-275 | the simulator moves a pod that asks for a TPU to a node without any |
| Removal.RunKeepsPods | pkg/simulator/cluster.go:178-275 | after any run every pod has at most one place, and keeps one exactly when no persisted simulation removed its node without moving it |
| Removal.DropsExactlyWhen | pkg/simulator/drain.go:66-85 | under any rules a persisted removal drops a pod exactly when its drain outcome is not to move or an earlier pod of the node blocks |
| Removal.FirmLeaveOnlyOthers | pkg/simulator/drain.go:77-82 | with rules whose blocking pods always come with an error, only the drain outcome of the pod itself matters |
| Removal.RunMovesPods | pkg/simulator/cluster.go:178-275 | after any run under any rules a pod sits on exactly one surviving node if and only if, whenever a persisted simulation removed its node, its drain outcome was to move and no earlier pod of the node blocked |
| Removal.RunKeepsCapacity | pkg/simulator/cluster.go:178-275 | after any run no surviving node exceeds its capacity, and the surviving nodes are those never removed |
| Removal.SimulateRemovals | pkg/simulator/cluster.go:178-219 | the simulator driven through any calls performs such a run |
| Snapshotter.StepKeepsInv | pkg/debuggingsnapshot/debugging_snapshotter.go:113-252 | every step of a handler or of the loop keeps the protocol invariant |
| Snapshotter.ReachableIsSafe | pkg/debuggingsnapshot/debugging_snapshotter.go:113-252 | in every interleaving exactly one accepted request is pending in the active states and none otherwise, no data is held before collection, every request is pending or answered exactly once, and answers hold only data of loops begun after acceptance |
| Snapshotter.StatusesMean | pkg/debuggingsnapshot/debugging_snapshotter.go:113-164 | in every interleaving success means no error, an internal error means one, and the other answers carry nothing |
| Snapshotter.AnswerHoldsLastData | pkg/debuggingsnapshot/debugging_snapshotter.go:188-252 | an answer given after collection began holds for every field exactly the value last set since, and data counts as collected exactly when something other than template nodes was set |
| Snapshotter.TokensConserved | pkg/debuggingsnapshot/debugging_snapshotter.go:133-216 | over any run every token sent is received, drained, in the slot or waiting for it |
| Snapshotter.InformedExactlyWhen | pkg/debuggingsnapshot/debugging_snapshotter.go:113-216 | a request is, in every interleaving, answered only after data was collected or an error noted for it if and only if no token is left in the slot when it is accepted |
| Snapshotter.TruthfulExactlyWhen | pkg/debuggingsnapshot/debugging_snapshotter.go:113-229 | in every interleaving whose setters pass data, its successful answers hold data if and only if no token is left in the slot when it is accepted |
| Snapshotter.EmptySettersAnswerNothing | pkg/debuggingsnapshot/debugging_snapshotter.go:220-241 | a setter call without data counts as collected, so with such calls every request can be answered successfully without data |
| Snapshotter.StaleTokenAnswersEmpty | pkg/debuggingsnapshot/debugging_snapshotter.go:133-150 | a token left over from one request can end the next one with an empty successful answer before any loop began |
| Snapshotter.StaleTokenAnswersStartOnly | pkg/debuggingsnapshot/debugging_snapshotter.go:133-216 | the same token can end it, once a loop began to collect, with a successful answer that holds a start time and no data |
| Snapshotter.StuckExactlyWhen | pkg/debuggingsnapshot/debugging_snapshotter.go:200-216 | nothing can happen any more exactly when a Flush waits for the slot and the pending handler no longer waits for a token |
| Snapshotter.FlushMayBlockForever | pkg/debuggingsnapshot/debugging_snapshotter.go:200-216 | such a state is reachable |
| Snapshotter.DebuggingSnapshotter.AcceptRequest | pkg/debuggingsnapshot/debugging_snapshotter.go:113-131 | a request is accepted exactly in LISTENING and answered at once as too many otherwise; the section is one step of the protocol |
| Snapshotter.DebuggingSnapshotter.ReceiveToken | pkg/debuggingsnapshot/debugging_snapshotter.go:133-134 | a waiting handler takes the token, and a Flush that waits for the slot completes; one step of the protocol |
| Snapshotter.DebuggingSnapshotter.SeeContextDone | pkg/debuggingsnapshot/debugging_snapshotter.go:151-152 | a waiting handler notices that its context is done; one step of the protocol |
| Snapshotter.DebuggingSnapshotter.RespondTo | pkg/debuggingsnapshot/debugging_snapshotter.go:134-150 | the answer carries the collected data, with an error status exactly if one was noted, and the snapshotter listens again; one step of the protocol |
| Snapshotter.DebuggingSnapshotter.AbortRequest | pkg/debuggingsnapshot/debugging_snapshotter.go:151-164 | a cancelled request is answered as unavailable, drops the data and drains the slot; one step of the protocol |
| Snapshotter.DebuggingSnapshotter.StartCollection | pkg/debuggingsnapshot/debugging_snapshotter.go:188-196 | collection opens only after a trigger; one step of the protocol |
| Snapshotter.DebuggingSnapshotter.FlushData | pkg/debuggingsnapshot/debugging_snapshotter.go:200-216 | a Flush blocks exactly when data is being collected and the slot is full; one step of the protocol |
| Snapshotter.DebuggingSnapshotter.SetClusterNodes | pkg/debuggingsnapshot/debugging_snapshotter.go:220-229 | data is taken only while collecting, and a call without data still counts as collected; one step of the protocol |
| Snapshotter.DebuggingSnapshotter.SetUnscheduledPodsCanBeScheduled | pkg/debuggingsnapshot/debugging_snapshotter.go:232-241 | the same for unscheduled pods |
| Snapshotter.DebuggingSnapshotter.SetTemplateNodes | pkg/debuggingsnapshot/debugging_snapshotter.go:244-252 | template nodes are taken while collecting but do not count as collected data |

## Left out

- The scheduler predicates, dynamic resources and volumes: the estimator and the removal simulator work against any sound scheduler; only the theorems about capacity, optimality and refinement assume something of it (`RoomSound`, `Additive`, `NodeLocal`, `Careful`).
- Scores of the pod orderer and the choice of the group for the fast path: floating point; any order and any index, or none, is covered.
- Wall-clock reads: every reading is an input; the refinement of the slow path assumes a limiter without a duration limit.
- AnyFit.EstimateIsAnyFit: assumes a scheduler with one additive resource, which never rejects a pod for its topology; hostname spreading is not covered, because of the behaviour shown by `TwoPodsOvercount`.
- Estimator.EstimateStaysWithinTemplate: for the group sent through the fast path it assumes identical pods, as the groups of the orderer are; nodes already in the cluster are not bounded by the template.
- Quantities: exact integers in a common small unit, so a sign test is exact; the canonical forms of `resource.Quantity` are not modelled, nor is the sharing of a decimal-backed quantity between loop iterations of `updateUsages`.
- `calculatePodRequests`: the model starts from the list of requests a pod makes, including the prefixed names.
- BufferAllocation.Allocate: buffers with at most 2^31-1 replicas, the range of the field; where an answer cannot be relied on nothing is said about the rest of the allocation, `AnswerExactlyWhen` says for one quota what happens.
- QuotaTracking.RunConserves: for 64-bit products; `RunExactlyWhen` covers the others. Sums of usages are not cut to 64 bits.
- QuotaTracker.CalculateUsages: the equality with direct sums needs equal resources within a group, which the cache takes for granted.
- ScaleSets.ScaleSet.IncreaseSize: no other call of the same process comes between its size read and its PUT; nothing in the code prevents that, `OverlappedIncrease` covers it and `OverlappingCallsMayLower` shows what can happen.
- ScaleSets.ScaleSet.AtomicIncreaseSize: the same; `OverlappedAtomicIncrease` covers it.
- ScaleSets.ScaleSet.DeleteInstances: instances are counted, not named; resource identifiers, the list of instances in the cache and the removal of proactively deleted instances are not modelled.
- Backoff, events, metrics, status conditions and the percentage thresholds of `IsClusterHealthy` and `IsNodeGroupHealthy`: bookkeeping or floating point settled by one reading.
- The cache of cloud provider instances: an update observes one listing per group; when listings are refreshed is an input.
- ClusterState.ClusterStateRegistry.UpdateNodes: group identifiers are taken to be unique; the effect of lowered targets on the provider shows up in later observations only, as the code keeps the targets it read at the start of the update.
- Repair.RemoveOldUnregisteredNodes: the group of an instance is taken to be one of the provider's groups; the code has no branch for the other case.
- `HintingSimulator`: pods are tried in rounds given by an arbitrary partition instead of priorities, and which pods are similar to unschedulable ones is arbitrary; ageing of hints is not modelled.
- Removal.RelocatedWithin: TPU requests of moved pods are cleared before they are placed, so capacity holds for the pods as placed; `TrueTpuAfter` gives the true TPU loads. With several destinations of which some have no room for all moved pods, the condition of `TpuAlwaysWithinExactlyWhen` is sufficient only.
- Removal.TrueTpuExactlyWhen: one destination; `TpuAlwaysWithinExactlyWhen` is about several.
- Removal.RemovalSimulator.SimulateNodeRemoval: drainability rules and the disruption-budget tracker are any function per call; errors of the snapshot other than a missing node are not modelled.
- `Snapshotter`: time stamps are loop numbers and the contents of the snapshot are opaque values; failures to encode the answer are not modelled; a cancelled context may be noticed at any time.
- The run loop, listers, processors, the scale-up orchestrator, the scale-down planner, credentials, configuration and command line: wiring around the decisions.
