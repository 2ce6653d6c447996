# Verified models of the multi-cluster scheduler, the fair queue and the syncer

This project models three stateful parts of the nested virtual-cluster system and proves what they keep
over every run.

**The multi-super-cluster scheduler.** A tenant namespace's quota is cut into equal slices. The engine
places the slices first-fit on a snapshot of the super clusters' usage and commits the placement to a
cache that checks capacity again. The cache keeps redundant state (sums against items, items against
schedules, pod lists against the pod index) and undoes failed operations with three nested rollback
loops. The main results: the accounting invariant over every run of cache operations; exact conservation
of slices as long as no cluster is deleted; failing updates and failing tenant removals change nothing
exactly when what they take out was all there and still fits; a complete plan made on the snapshot is
accepted by the cache exactly when the chosen clusters know the slice's resources, and leaves them
within capacity; scheduling is bound to succeed under a condition that can be looked up beforehand, and
no order of the placement maps crashes it exactly under another; a plan respects what is booked and what
is provisioned on the cached clusters; over whole runs the pods the engine places stay inside their
namespace's slices.

**The per-tenant fair queue.** Dirty and processing sets, one FIFO per tenant, a weighted round-robin
balancer, collection of idle groups, a heap of delayed additions with back-indices, and the worker's
retry policy. The main results: the queue invariant over every careful run, with the exact condition
under which `Done` keeps it and the run that loses an item when the condition fails, after which its
tenant is never served again in any run; an item at position p leaves within (p+1)·G Gets; the search of
`Get` stops exactly when a stated condition holds, also on a broken queue; the balancer serves in
proportion to the weights in every window; the heap releases exactly what is due, at the least time
requested; a failing request is given up exactly after 17 attempts unless the queue is shut down,
whatever happens to other items and between a verdict and its `Done`.

**The two-way syncer.** Checks that compare a tenant object with its copy in the super cluster and
return nothing or a repaired object. The main results: label and annotation repairs are confluent and
settle after one repair in each direction; creation never triggers a metadata update unless the source
names a cluster; pod conditions settle after a downward and a later upward repair, whatever order the
appends take, with the exact conditions, for arbitrary lists, of one round in either order, and always
after two; container images settle exactly when no compared container is missing; mounts keep their
volumes through secret renaming exactly when no name collides.

## Layout

Operations that update state in place are classes and loops (`SchedulerCache`, `Cluster`,
`SchedulerEngine`, `NamespaceSchedSnapshot`, `WeightedRR`, `FairQueue`, `WaitingQueue`). Each method is
proved against a function on values, and the laws are lemmas about those functions.

| files | part |
|---|---|
| Sums, Resources, SliceMath, Clusters | sums, quantities, slices, one cluster's ledger |
| CacheModel, SchedulerCache | the cache on values, and the object that refines it |
| CacheAccounting, CacheRuns, CacheConservation, CacheTransactions, TenantRemoval, ClusterLaws | laws of the cache |
| Snapshot, NamespaceSnapshot, Algorithm, SliceRequests, PlanAcceptance, Engine, CrashConditions, EmptySnapshots | planning and commit |
| PodScheduling, PodRuns, PodBounds | pods |
| WeightedRoundRobin, Balancer, QueueModel, FairQueue, QueueRuns, Fairness, QueueSearch | balancer and queue |
| DelayHeap, Retry | delayed additions, retries |
| Directions, MetaSync, ObjectMeta, PodSpec, PodConditions, PodConditionSync, PodConditionLimits, PodSecrets | the syncer |
| Counterexamples, PlanCounterexamples | runs on which cache and engine depart from their evident intent |

## Modelling choices

- Quantities are natural numbers in whole units; a resource list is a map from names to quantities.
- Map iteration is an arbitrary choice of the next key, so results hold for every iteration order.
- Each public cache or queue call is one atomic step, because it holds the lock from start to end.
- Clock comparisons are parameters: `expired` for the two collectors, an integer time for the heap.
- Errors are `None`, `false` or a named outcome; a nil dereference is the outcome `Panicked`, `Crashed` or `Crash`.
- Keys built by joining names with `/` are tuples.
- Some methods take a ghost parameter that names the state at the call; it carries no information.

## Where the code departs from its intent

Each of these is modelled as the code has it, and shown by a lemma.

- The hint test of `ScheduleOneSlice` is inverted: a hint inside the snapshot is ignored, one outside
  crashes (`Algorithm.ScheduleOneSlice`). When no order of the maps leads there is decided in
  `CrashConditions.NeverCrashesIff`, when every order does, for a quota with room for all placements, in
  `Engine.CrashesIff`; a run is in `PlanCounterexamples.StrandedCrashes`.
- On an empty snapshot free slices are "placed" on the cluster with the empty name, which the commit creates
  (`EmptySnapshots.EmptySnapshotPlan`, `EmptySnapshots.EmptySnapshotScheduled`), and a
  pod that fits nowhere gets the empty name and loses its listing (`PodScheduling.FirstFit`, `PodScheduling.NoFitUnlists`),
  or is listed outside its slices if a cluster has that name (exactly when in `PodBounds.AddPodBoundIff`).
- `fitSlice` looks at the resources of the capacity only, while the cache refuses a cluster that does not
  know a resource of the slice: a complete plan is refused exactly then (`PlanAcceptance.CommitAccepted`, an input in
  `PlanCounterexamples.UnknownResourceRefused`).
- A placement of zero slices on an unknown cluster can be added but never removed
  (`Counterexamples.ZeroPlacementBlocksRemoval`; exactly when in `CacheConservation.AddedIsLiveIff`). In front of a missing
  cluster a zero placement makes the failed removal lose another one's slices (`CacheTransactions.ZeroFirstLoses`).
- A failing update forgets the namespace when its cluster shrank below what it holds
  (`Counterexamples.ShrinkLosesNamespace`), and books slices that were not there when the cluster was removed and
  added again (`Counterexamples.AbsentIsBooked`); exact condition in `CacheTransactions.UpdateIsTransactional`, for
  removals of whole tenants in `TenantRemoval.TenantRemovalIff`.
- A failed pod move and a removal naming the wrong cluster leave index and lists apart
  (`PodRuns.FailedMoveUnlists`, `PodRuns.MismatchedRemovalDangles`; exactly when in `PodRuns.AddPodListedIff` and
  `PodRuns.RemovePodIndexedIff`).
- `Done` on an item whose group was collected loses the item for good and revives the group without
  telling the balancer (`QueueRuns.LosingRun`, `QueueRuns.LostForever`); from then on `Get` can spin
  or crash (`QueueSearch.LostGroupBlocks`, with runs in `QueueSearch.SpinningRun` and `QueueSearch.CrashingRun`), and
  the tenant is starved for good (`QueueSearch.LostThenStarved`, `QueueSearch.StarvedForever`).
- The filtered path of the worker calls `Done` twice, which duplicates or shares items (`Retry.DoubleDoneDuplicates`,
  `QueueRuns.SecondDoneShares`; harmless exactly when `Retry.DoubleDoneIff` and `QueueRuns.StrayDoneIff` say).
- The balancer accepts a weight of zero, and a later removal can then divide by it (`Balancer.WeightedRR.Add`; exactly when in
  `WeightedRoundRobin.DivisorCrashesIff`).
- An image check with a missing container asks for an update in every round
  (`PodSpecs.MissingContainerNeverSettles`).
- An upward condition repair before the downward one, or two conditions of one gate, need another
  round (`PodConditionSync.UpThenDownNeedsMore`, `PodConditionSync.DuplicateGatesNeedMore`; exactly when in
  `PodConditionLimits.UpThenDownQuietIff` and `PodConditionLimits.DownThenUpQuietIff`).

## Model

| member | source | states |
|---|---|---|
| `SliceMath.GetLeastFitSliceNum` | virtualcluster/experiment/pkg/scheduler/cache/namespace.go:175-203 | returns the least n with n·slice ≥ quota in every resource; fails exactly when the slice does not name the quota's resources, is zero somewhere or exceeds the quota somewhere |
| `SliceMath.CoversFrom` | virtualcluster/experiment/pkg/scheduler/cache/namespace.go:175-203 | the returned number is a threshold: n slices cover the quota if and only if n is at least that number |
| `Clusters.Cluster.constructor` | virtualcluster/experiment/pkg/scheduler/cache/cluster.go:45-64 | a new cluster holds nothing and has a zero sum for every resource of its capacity |
| `Clusters.Cluster.AddItemTo` | virtualcluster/experiment/pkg/scheduler/cache/cluster.go:110-139 | the loop over copied sums succeeds exactly when the item is new, every slice belongs to the cluster and all slices together fit the capacity; the result holds the item and the grown sums, and nothing is changed on failure |
| `Clusters.Cluster.RemoveItemFrom` | virtualcluster/experiment/pkg/scheduler/cache/cluster.go:150-169 | succeeds exactly when no sum would fall below zero; an unknown item changes nothing |
| `Clusters.AddItemBalanced` | virtualcluster/experiment/pkg/scheduler/cache/cluster.go:110-139 | after an addition each cached sum is still the per-resource total over all items |
| `Clusters.RemoveItemBalanced` | virtualcluster/experiment/pkg/scheduler/cache/cluster.go:150-169 | with balanced sums a removal never underflows and leaves balanced sums |
| `Clusters.RestoreItem` | virtualcluster/experiment/pkg/scheduler/cache/cluster.go:110-169 | taking an item out and putting it back is the identity if and only if the cluster is within capacity in the item's resources |
| `Clusters.Cluster.AddNamespace` | virtualcluster/experiment/pkg/scheduler/cache/cluster.go:141-148 | booking refines the addition on the cluster's value; on refusal the cluster is unchanged |
| `Clusters.Cluster.RemoveNamespace` | virtualcluster/experiment/pkg/scheduler/cache/cluster.go:171-177 | unbooking refines the removal on the cluster's value |
| `Clusters.Cluster.AddProvision` | virtualcluster/experiment/pkg/scheduler/cache/cluster.go:179-185 | the same for provisions, against the same capacity |
| `Clusters.Cluster.RemoveProvision` | virtualcluster/experiment/pkg/scheduler/cache/cluster.go:187-193 | the same for provisions |
| `Clusters.Cluster.AddPod` | virtualcluster/experiment/pkg/scheduler/cache/cluster.go:195-205 | a pod for another cluster is refused; otherwise its name joins the set of its namespace |
| `Clusters.Cluster.RemovePod` | virtualcluster/experiment/pkg/scheduler/cache/cluster.go:207-213 | only that pod leaves, and a namespace without pods leaves the listing |
| `Clusters.ListingMeans` | virtualcluster/experiment/pkg/scheduler/cache/cluster.go:195-213 | the named pod joins or leaves the set of its namespace, a namespace without pods has no entry, other namespaces stay |
| `Clusters.UnlistUndoesList` | virtualcluster/experiment/pkg/scheduler/cache/cluster.go:195-213 | removing a pod undoes adding it |
| `CacheAccounting.AddNsKeeps` | virtualcluster/experiment/pkg/scheduler/cache/cache.go:228-267 | an addition, also a failed one that rolls back, keeps the invariant: sums balanced, each booking accounted for by a placement of a cached namespace, no two non-zero placements on one cluster, no orphans; on failure the namespaces are as before and at most empty shadow clusters are new |
| `CacheAccounting.RemoveNsKeeps` | virtualcluster/experiment/pkg/scheduler/cache/cache.go:283-308 | removal of a cached namespace succeeds exactly when every cluster of its schedule is cached, zero-count placements included, and leaves nothing of it anywhere |
| `CacheAccounting.UpdateNsKeeps` | virtualcluster/experiment/pkg/scheduler/cache/cache.go:310-328 | an update through its three rollbacks keeps the invariant |
| `CacheRuns.StepKeeps` | virtualcluster/experiment/pkg/scheduler/cache/cache.go:58-423 | every public operation keeps the invariant |
| `CacheRuns.RunAccounts` | virtualcluster/experiment/pkg/scheduler/cache/cache.go:190-326 | whole-run accounting: the invariant holds after every run of operations whose callers pass cached namespaces and empty new clusters |
| `CacheRuns.NoUnderflow` | virtualcluster/experiment/pkg/scheduler/cache/cluster.go:150-169 | from the empty cache, the underflow error of the removal is unreachable for bookings and provisions |
| `CacheRuns.RemoveTenantOutcome` | virtualcluster/experiment/pkg/scheduler/cache/cache.go:79-108 | a tenant goes exactly when all clusters of its namespaces are cached; then none of its namespaces or slices remains |
| `CacheRuns.AddOutcome` | virtualcluster/experiment/pkg/scheduler/cache/cache.go:228-267 | a cached key or placements that do not add up to the quota's slices are refused without any change; otherwise the namespace is filed exactly on success, and tenants and pods stay |
| `CacheRuns.RemoveOutcome` | virtualcluster/experiment/pkg/scheduler/cache/cache.go:283-308 | an unknown key is refused without any change; otherwise the namespace is taken off file exactly on success |
| `CacheRuns.UpdateOutcome` | virtualcluster/experiment/pkg/scheduler/cache/cache.go:310-328 | an unknown key or a change of key is refused without any change; otherwise the new namespace is on file exactly on success, and no other one is touched |
| `CacheRuns.UnknownTenantIgnored` | virtualcluster/experiment/pkg/scheduler/cache/cache.go:213-226 | a namespace of an unknown tenant is accepted without any change; of a known tenant it is added, or updated if it is cached |
| `CacheConservation.RunConserves` | virtualcluster/experiment/pkg/scheduler/cache/cache.go:228-308 | in runs without cluster deletion, whatever the counts, as long as a zero placement is on a cluster that is cached anyway: every cached placement is fully present and its clusters stay cached, even when capacities shrink |
| `CacheConservation.AddedIsLiveIff` | virtualcluster/experiment/pkg/scheduler/cache/cache.go:190-267 | after an addition all clusters of the schedule are cached if and only if each was cached before or has a non-zero placement |
| `CacheConservation.HeldIsLeastFit` | virtualcluster/experiment/pkg/scheduler/cache/cache.go:228-267 | the slices a namespace holds over all clusters are at least what its quota asks for, and exactly that if and only if no count is negative |
| `CacheConservation.ConservationTheorem` | virtualcluster/experiment/pkg/scheduler/cache/cache.go:190-308 | all this for runs from the empty cache, and removing a cached namespace never fails there |
| `CacheTransactions.FailedRemovalRestores` | virtualcluster/experiment/pkg/scheduler/cache/cache.go:283-308 | a failed removal of a cached namespace restores the cache if and only if what it took out still fits, each with its placement met as well, and no placement that was absent from its cluster is admitted by the rollback |
| `CacheTransactions.ZeroFirstLoses` | virtualcluster/experiment/pkg/scheduler/cache/cache.go:283-308 | a zero placement in front of a missing cluster makes the failed removal lose what a later placement holds on its cluster |
| `CacheTransactions.PlaceFromRestores` | virtualcluster/experiment/pkg/scheduler/cache/cache.go:228-267 | placing a removed namespace again gives back the same clusters exactly when all placements fit |
| `CacheTransactions.UpdateIsTransactional` | virtualcluster/experiment/pkg/scheduler/cache/cache.go:310-328 | in every consistent cache: a failing update leaves namespaces, sums and bookings as before (empty shadow clusters aside) if and only if the old namespace can be taken out and put back, that is, with all its clusters cached, every placement was present and still fits, and otherwise the condition of the failed removal; if it was present but no longer fits, the namespace is gone |
| `CacheTransactions.ReAddRestoresIff` | virtualcluster/experiment/pkg/scheduler/cache/cache.go:310-328 | the same condition decides whether adding the old namespace again, after a refused addition of the new one, restores the cache |
| `TenantRemoval.RemoveThenAdd` | virtualcluster/experiment/pkg/scheduler/cache/cache.go:228-308 | removing a sound namespace and adding it again is the identity on the whole cache |
| `TenantRemoval.RemoveThenAddIff` | virtualcluster/experiment/pkg/scheduler/cache/cache.go:228-308 | adding is the inverse of a successful removal if and only if every placement was present and still fits |
| `TenantRemoval.RollbackUndoes` | virtualcluster/experiment/pkg/scheduler/cache/cache.go:79-108 | the outer rollback, running backwards over namespaces removed forwards, restores the state in which the loop started |
| `TenantRemoval.TenantRemovalIsAtomic` | virtualcluster/experiment/pkg/scheduler/cache/cache.go:79-108 | all or nothing when the live placements of the tenant are present and fit: success removes everything of the tenant, failure leaves the very same state |
| `TenantRemoval.TenantRemovalIff` | virtualcluster/experiment/pkg/scheduler/cache/cache.go:79-108 | in every consistent cache and for every order: a failing tenant removal leaves the very same state if and only if each namespace, up to the one that stops the loop, can be taken out and put back in the state its removal finds |
| `SchedulerCaches.SchedulerCache.AddNamespaceToCluster` | virtualcluster/experiment/pkg/scheduler/cache/cache.go:190-211 | refines one placement: a shadow cluster is created on demand and kept only on success |
| `SchedulerCaches.SchedulerCache.RemoveNamespaceFromCluster` | virtualcluster/experiment/pkg/scheduler/cache/cache.go:269-275 | refines taking one placement out |
| `SchedulerCaches.SchedulerCache.AddNamespaceWithoutLock` | virtualcluster/experiment/pkg/scheduler/cache/cache.go:228-267 | the loops and their rollback compute the model's outcome and state |
| `SchedulerCaches.SchedulerCache.RemoveNamespaceWithoutLock` | virtualcluster/experiment/pkg/scheduler/cache/cache.go:283-308 | the same for removal |
| `SchedulerCaches.SchedulerCache.UpdateNamespaceWithoutLock` | virtualcluster/experiment/pkg/scheduler/cache/cache.go:310-328 | the same for update |
| `SchedulerCaches.SchedulerCache.AddNamespace` | virtualcluster/experiment/pkg/scheduler/cache/cache.go:213-226 | an unknown tenant is silently accepted, a known namespace is updated, a new one added |
| `SchedulerCaches.SchedulerCache.UpdateNamespace` | virtualcluster/experiment/pkg/scheduler/cache/cache.go:330-337 | the public update is the step of the run model |
| `SchedulerCaches.SchedulerCache.RemoveNamespace` | virtualcluster/experiment/pkg/scheduler/cache/cache.go:277-281 | the public removal is the step of the run model |
| `SchedulerCaches.SchedulerCache.RemoveTenant` | virtualcluster/experiment/pkg/scheduler/cache/cache.go:79-108 | for some order of the tenant's namespaces, the removal loop and the outer rollback compute the model's outcome |
| `SchedulerCaches.SchedulerCache.AddPod` | virtualcluster/experiment/pkg/scheduler/cache/cache.go:110-146 | new pod, unchanged cluster or move, with the first half of a failed move kept |
| `SchedulerCaches.SchedulerCache.RemovePod` | virtualcluster/experiment/pkg/scheduler/cache/cache.go:148-176 | detaches from the caller's cluster and drops the index entry |
| `SchedulerCaches.SchedulerCache.AddCluster` | virtualcluster/experiment/pkg/scheduler/cache/cache.go:339-372 | a known cluster keeps bookings and pods and takes capacity and provisions; an unknown one is installed as a copy |
| `SchedulerCaches.SchedulerCache.RemoveCluster` | virtualcluster/experiment/pkg/scheduler/cache/cache.go:374-383 | only that cluster goes, whatever it holds |
| `SchedulerCaches.SchedulerCache.GarbageCollection` | virtualcluster/experiment/pkg/scheduler/cache/cache.go:58-71 | exactly the expired shadow clusters go |
| `SchedulerCaches.SchedulerCache.AddProvision` | virtualcluster/experiment/pkg/scheduler/cache/cache.go:385-399 | old provision out, new one in; a refused new one leaves the old one out |
| `SchedulerCaches.SchedulerCache.RemoveProvision` | virtualcluster/experiment/pkg/scheduler/cache/cache.go:401-410 | refines the model |
| `SchedulerCaches.SchedulerCache.UpdateClusterCapacity` | virtualcluster/experiment/pkg/scheduler/cache/cache.go:412-423 | only the capacity changes |
| `ClusterLaws.KnownClusterRefreshed` | virtualcluster/experiment/pkg/scheduler/cache/cache.go:339-372 | adding a known cluster, shadow or not: the next snapshot has it with the reported capacity and provisions and the bookings it had, its pods and everything else stay, and the collector keeps it whatever has expired |
| `ClusterLaws.NewClusterTakesPart` | virtualcluster/experiment/pkg/scheduler/cache/cache.go:339-372 | a new cluster is in the next snapshot with what it brings along, and the collector keeps it |
| `ClusterLaws.ShadowBecomesReal` | virtualcluster/experiment/pkg/scheduler/cache/cache.go:190-372 | slices booked on a cluster that a placement made up, which no snapshot shows, are still booked there when the real cluster is reported, whatever is collected then |
| `ClusterLaws.CollectorIsInvisible` | virtualcluster/experiment/pkg/scheduler/cache/cache.go:58-71 | exactly the expired shadow clusters go, and the next snapshot is the same |
| `ClusterLaws.ClusterRemoved` | virtualcluster/experiment/pkg/scheduler/cache/cache.go:374-383 | fails exactly for an unknown cluster; the next snapshot lacks that cluster and nothing else |
| `ClusterLaws.CapacityUpdated` | virtualcluster/experiment/pkg/scheduler/cache/cache.go:412-423 | fails exactly for an unknown cluster; otherwise the next snapshot has the new capacity and nothing else changes |
| `ClusterLaws.ProvisionReplaced` | virtualcluster/experiment/pkg/scheduler/cache/cache.go:385-399 | the new provision is accepted exactly when it is the cluster's own and fits under the capacity beside what other namespaces have provisioned; the old one is gone in either case, and the next snapshot has the totals of what is left |
| `ClusterLaws.ProvisionRemoved` | virtualcluster/experiment/pkg/scheduler/cache/cache.go:401-410 | fails exactly for an unknown cluster; otherwise the next snapshot has the totals of the other provisions |
| `Snapshot.GetMaxAlloc` | virtualcluster/experiment/pkg/scheduler/cache/snapshot.go:25-48 | the larger of allocation and provision for each allocated resource |
| `Snapshot.NamespaceSchedSnapshot.AddSlices` | virtualcluster/experiment/pkg/scheduler/cache/snapshot.go:58-71 | adds the slices before the first one with an unknown cluster, and succeeds exactly when there is none; then each cluster's usage has grown by what the slices ask of it, and capacities and provisions are the same |
| `Snapshot.NamespaceSchedSnapshot.RemoveSlices` | virtualcluster/experiment/pkg/scheduler/cache/snapshot.go:73-89 | succeeds exactly when no cluster of the snapshot has less than the slices ask of it, slices of other clusters being passed over; then each usage is lower by just that |
| `NamespaceSnapshot.GetPlacementMap` | virtualcluster/experiment/pkg/scheduler/cache/namespace.go:146-152 | the last placement of each cluster |
| `NamespaceSnapshot.SnapshotForNamespaceSched` | virtualcluster/experiment/pkg/scheduler/cache/snapshot.go:97-137 | for a consistent cache the snapshot has exactly the clusters that are not shadows, each with its capacity, the totals of what is provisioned on it and the totals of what is booked on it for other namespaces; refused exactly when a cached placement is absent from such a cluster |
| `NamespaceSnapshot.SnapshotShows` | virtualcluster/experiment/pkg/scheduler/cache/snapshot.go:97-137 | the same of the value the snapshot is equal to, resource by resource |
| `Algorithm.FitSlice` | virtualcluster/experiment/pkg/scheduler/algorithm/namespacesched.go:75-86 | true exactly when every resource of the capacity has room over the larger of allocation and provision |
| `Algorithm.ScheduleOneSlice` | virtualcluster/experiment/pkg/scheduler/algorithm/namespacesched.go:42-73 | the choice is one the rules allow: mandatory cluster or refusal; a hint inside the snapshot is ignored, one outside crashes; otherwise any cluster that fits, and the empty name on an empty snapshot |
| `Algorithm.ScheduleNamespaceSlices` | virtualcluster/experiment/pkg/scheduler/algorithm/namespacesched.go:28-39 | each slice is chosen against the snapshot as the earlier ones left it, and the final snapshot contains them all; it panics exactly for a free slice whose hint is outside the snapshot |
| `Algorithm.PlanConserves` | virtualcluster/experiment/pkg/scheduler/algorithm/namespacesched.go:28-39 | final usage is initial usage plus exactly what was assigned, per cluster and resource; capacity and provision do not move |
| `Algorithm.RoomWhenPlaced` | virtualcluster/experiment/pkg/scheduler/algorithm/namespacesched.go:42-86 | at the moment of each assignment the cluster had room over what was assigned before, and over its provision |
| `Algorithm.PlanWithinCapacity` | virtualcluster/experiment/pkg/scheduler/algorithm/namespacesched.go:28-86 | every cluster that received a slice ends within capacity |
| `Algorithm.PlacedWhere` | virtualcluster/experiment/pkg/scheduler/algorithm/namespacesched.go:42-73 | mandatory slices go to their cluster or fail; others go to a cluster of the snapshot, unless it is empty |
| `Algorithm.RoomyNeverFails` | virtualcluster/experiment/pkg/scheduler/algorithm/namespacesched.go:28-86 | if some cluster and every cluster named by a mandatory slice has room for all slices, no slice fails, wherever the others go |
| `SliceRequests.Repeat` | virtualcluster/experiment/pkg/scheduler/algorithm/types.go:38-47 | appends n equal slices, none for n ≤ 0 |
| `SliceRequests.GetSlicesToSchedule` | virtualcluster/experiment/pkg/scheduler/engine/schedulerengine.go:53-88 | with non-negative placements: exactly the needed number of slices; each requested placement becomes as many mandatory slices if the quota has room for all, and otherwise all slices are mandatory; what they leave of the old placements becomes hints under the same rule |
| `Engine.GetNewPlacement` | virtualcluster/experiment/pkg/scheduler/engine/schedulerengine.go:90-99 | fails exactly when some slice failed; otherwise counts the slices per cluster |
| `Engine.SetNewPlacements` | virtualcluster/experiment/pkg/scheduler/cache/namespace.go:168-173 | the schedule lists each map entry once, in some order |
| `PlanAcceptance.TallyTotal` | virtualcluster/experiment/pkg/scheduler/engine/schedulerengine.go:90-99 | the placements made from a plan add up to the number of its slices |
| `PlanAcceptance.CommitAccepted` | virtualcluster/experiment/pkg/scheduler/engine/schedulerengine.go:101-144 | a complete plan made on the snapshot is accepted by the cache if and only if the chosen clusters know the slice's resources |
| `PlanAcceptance.CommitWithinCapacity` | virtualcluster/experiment/pkg/scheduler/engine/schedulerengine.go:101-144 | after the commit every chosen cluster is within capacity |
| `Engine.SchedulerEngine.PlanNamespace` | virtualcluster/experiment/pkg/scheduler/engine/schedulerengine.go:101-133 | the planning half leaves the cache alone; in a consistent cache its one answer follows from the slices asked for: incomparable exactly for a changed slice, bad snapshot exactly for an untraceable placement, a crash exactly for a hint outside the snapshot, no placement exactly when some slice failed, otherwise a schedule that tallies the placed slices |
| `Engine.SchedulerEngine.ScheduleNamespace` | virtualcluster/experiment/pkg/scheduler/engine/schedulerengine.go:101-144 | plan refinement end to end: the answer as above, no change unless it is a schedule, otherwise the state of the commit |
| `Engine.CommittedRefines` | virtualcluster/experiment/pkg/scheduler/engine/schedulerengine.go:101-144 | a ready plan has that room on the cached clusters; for a registered tenant whose old clusters are cached it is committed exactly when the chosen clusters know the slice's resources, and leaves them within capacity; with room for all slices on the clusters that matter, known resources and no old placement outside the snapshot, scheduling always succeeds |
| `Engine.ReadyHasRoom` | virtualcluster/experiment/pkg/scheduler/engine/schedulerengine.go:101-144 | every cluster of a schedule that comes out of planning is cached and no shadow, has room for all the slices placed on it beside what its items book for other namespaces, and for one slice beside what its items provision |
| `Engine.CrashesIff` | virtualcluster/experiment/pkg/scheduler/engine/schedulerengine.go:53-133 | with a quota that has room for the requested placements and what they leave of the old ones, every order of the maps crashes the engine if the request leaves something of an old placement on a cluster outside the snapshot, and none does otherwise |
| `CrashConditions.NeverCrashesIff` | virtualcluster/experiment/pkg/scheduler/engine/schedulerengine.go:53-133 | for any quota: no order of the maps crashes the engine if and only if the requested placements use up the quota or leave nothing of an old placement on a cluster outside the snapshot |
| `EmptySnapshots.EmptyPlan` | virtualcluster/experiment/pkg/scheduler/algorithm/namespacesched.go:28-73 | without any cluster in the snapshot the answer is a crash for any hint, a failure for any named cluster, and otherwise a schedule with all slices on the empty name |
| `EmptySnapshots.EmptySnapshotPlan` | virtualcluster/experiment/pkg/scheduler/engine/schedulerengine.go:53-133 | the same read off the request and the cache, for a quota with room for all placements |
| `EmptySnapshots.EmptySnapshotScheduled` | virtualcluster/experiment/pkg/scheduler/engine/schedulerengine.go:101-144 | a new namespace scheduled then is accepted if and only if the nameless cluster, cached or created as a shadow, has room for all its slices; it then holds them and nothing else changes, and the snapshot stays empty |
| `EmptySnapshots.ShadowTakesIff` | virtualcluster/experiment/pkg/scheduler/cache/cache.go:190-211 | a nameless shadow made for it takes cpu and memory only, up to 2147483647 and 2147483647 times 2 to the 30th |
| `Engine.SchedulerEngine.DeScheduleNamespace` | virtualcluster/experiment/pkg/scheduler/engine/schedulerengine.go:146-154 | removes the namespace everywhere exactly when all its clusters are cached |
| `Engine.SchedulerEngine.EnsureNamespacePlacements` | virtualcluster/experiment/pkg/scheduler/engine/schedulerengine.go:156-167 | placements imposed from outside: a changed slice is refused without any change, otherwise the state of the commit; a refused change of a cached namespace restores the cache, up to empty shadow clusters, if and only if the old placements can be taken out and put back |
| `PodScheduling.SnapshotForPodSched` | virtualcluster/experiment/pkg/scheduler/cache/snapshot.go:166-227 | refused exactly for an uncached namespace or a listed pod that the index or the schedule does not know; otherwise one entry for each cluster in the schedule, whose capacity is the number of the last placement there times the slice, and whose usage is what the other listed pods request, charged to the cluster their index entry names |
| `PodScheduling.FirstFit` | virtualcluster/experiment/pkg/scheduler/algorithm/namespacesched.go:89-99 | a cluster that fits, or the empty name when none does |
| `PodScheduling.WithinSlices` | virtualcluster/experiment/pkg/scheduler/engine/schedulerengine.go:169-195 | after AddPod the summed requests of the namespace's pods in the chosen cluster, the new one included, are within the number of its last placement there times the slice |
| `PodScheduling.SchedulePod` | virtualcluster/experiment/pkg/scheduler/engine/schedulerengine.go:169-195 | refused without any change exactly when the snapshot is; otherwise a placement that fits is chosen, or the empty name when none does, and the state is that of AddPod; the bound above holds afterwards; success is certain if some placement fits, all placements are on clusters that take pods and the old cluster is cached |
| `PodBounds.AddPodBoundIff` | virtualcluster/experiment/pkg/scheduler/cache/cache.go:110-146 | AddPod keeps every cluster's pods within the slices placed there if and only if a pod of a cached namespace is not listed where it does not fit beside the namespace's other pods |
| `PodBounds.SchedulableIff` | virtualcluster/experiment/pkg/scheduler/cache/snapshot.go:166-227 | under that bound the engine accepts a pod exactly when its namespace is cached |
| `PodBounds.RunWithinSlices` | virtualcluster/experiment/pkg/scheduler/engine/schedulerengine.go:169-195 | over every run in which pods enter through the engine, no cluster has the empty name and no namespace gives up slices its pods sit in, the bound is kept by every operation of the cache |
| `PodBounds.PodsWithinSlices` | virtualcluster/experiment/pkg/scheduler/engine/schedulerengine.go:169-195 | from the empty cache: wherever pods of a cached namespace are listed, the namespace has a last placement on that cluster, and their summed requests are within its number times the slice |
| `PodScheduling.AddPodOkIff` | virtualcluster/experiment/pkg/scheduler/cache/cache.go:110-146 | AddPod succeeds exactly when the cluster is unchanged, or the new one takes the pod and the old one, if any, is cached |
| `PodScheduling.RemovePodOutcome` | virtualcluster/experiment/pkg/scheduler/cache/cache.go:148-176 | an unknown pod is removed without any change; otherwise the removal succeeds exactly when the cluster the caller names is cached, which then does not list the pod |
| `PodScheduling.NoFitUnlists` | virtualcluster/experiment/pkg/scheduler/engine/schedulerengine.go:169-195 | when nothing fits, a pod already placed is unlisted in its cluster while the index keeps it |
| `PodRuns.RunIndexed` | virtualcluster/experiment/pkg/scheduler/cache/cache.go:110-176 | in every run whose removals name the indexed cluster, each listed pod is indexed with the cluster listing it |
| `PodRuns.AddPodListedIff` | virtualcluster/experiment/pkg/scheduler/cache/cache.go:118-146 | AddPod keeps every indexed pod listed if and only if it is not a move from a cached cluster to one that does not take the pod |
| `PodRuns.RemovePodIndexedIff` | virtualcluster/experiment/pkg/scheduler/cache/cache.go:157-176 | RemovePod keeps every listed pod indexed if and only if it does not detach the pod from another cached cluster than the one that lists it |
| `PodRuns.OtherHalvesKept` | virtualcluster/experiment/pkg/scheduler/cache/cache.go:110-176 | AddPod always keeps listed pods indexed, RemovePod always keeps indexed pods listed |
| `PodRuns.FailedMoveUnlists` | virtualcluster/experiment/pkg/scheduler/cache/cache.go:118-146 | what such a move leaves behind: the pod is indexed with a cluster that no longer lists it |
| `PodRuns.MismatchedRemovalDangles` | virtualcluster/experiment/pkg/scheduler/cache/cache.go:157-176 | what such a removal leaves behind: the pod is listed without an index entry |
| `WeightedRoundRobin.Gcd` | virtualcluster/pkg/util/fairqueue/balancer/weightedroundrobin/scheduler.go:119-130 | the greatest common divisor: divides both, and every common divisor divides it; called with -1 after the pool was emptied it answers the other argument |
| `WeightedRoundRobin.DivisorCrashesIff` | virtualcluster/pkg/util/fairqueue/balancer/weightedroundrobin/scheduler.go:97-130 | among weights that are not negative, the loop that a removal runs for the divisor divides by zero if and only if a weight behind the first is zero |
| `WeightedRoundRobin.CycleRun` | virtualcluster/pkg/util/fairqueue/balancer/weightedroundrobin/scheduler.go:47-71 | from any position about to start a round the scan produces the levels of the weights, highest first |
| `WeightedRoundRobin.CycleIsProportional` | virtualcluster/pkg/util/fairqueue/balancer/weightedroundrobin/scheduler.go:47-71 | in one cycle a node of weight u·gcd is picked exactly u times, and the next cycle starts alike |
| `WeightedRoundRobin.WindowIsProportional` | virtualcluster/pkg/util/fairqueue/balancer/weightedroundrobin/scheduler.go:47-71 | the same for every window of one cycle, wherever it begins |
| `Balancer.WeightedRR.Next` | virtualcluster/pkg/util/fairqueue/balancer/weightedroundrobin/scheduler.go:47-71 | with no or one node nothing moves; otherwise the pick of the scan; with equal weights the next place of the ring |
| `Balancer.WeightedRR.Add` | virtualcluster/pkg/util/fairqueue/balancer/weightedroundrobin/scheduler.go:73-95 | a new key goes to the end with whatever weight; with a positive one the divisor stays the greatest common one and the maximum right, otherwise neither moves; a known key changes nothing |
| `Balancer.WeightedRR.Remove` | virtualcluster/pkg/util/fairqueue/balancer/weightedroundrobin/scheduler.go:132-151 | the key leaves, a position at or behind it moves back by one, and greatest divisor and maximum are right for the rest |
| `Balancer.RemovalKeepsTurns` | virtualcluster/pkg/util/fairqueue/balancer/weightedroundrobin/scheduler.go:132-152 | a group that is removed takes nobody's turn with it: the next one asked is the one that was next, or the one behind the removed |
| `Balancer.AdditionWaits` | virtualcluster/pkg/util/fairqueue/balancer/weightedroundrobin/scheduler.go:73-95 | a group that is added is asked after all others of the round, and changes nobody's turn |
| `FairQueues.FifoQueue.Add` | virtualcluster/pkg/util/fairqueue/fifo.go:56-60 | appends |
| `FairQueues.FifoQueue.Get` | virtualcluster/pkg/util/fairqueue/fifo.go:62-72 | takes the head, or reports an empty queue and changes nothing |
| `FairQueues.FairQueue.Add` | virtualcluster/pkg/util/fairqueue/fair.go:89-123 | refines the model: ignored when shutting down or dirty, only marked when processing, otherwise queued in its group, which is created on demand |
| `FairQueues.FairQueue.Get` | virtualcluster/pkg/util/fairqueue/fair.go:137-162 | whenever the search stops, also on a queue whose invariant is broken: shutdown for an empty queue, a crash when a balancer without groups names a group that does not exist, otherwise the head of the group the balancer comes to |
| `FairQueues.FairQueue.Done` | virtualcluster/pkg/util/fairqueue/fair.go:164-189 | refines the model, with the branch that creates an empty FIFO and drops the item |
| `FairQueues.FairQueue.CheckAndCleanIdleQueue` | virtualcluster/pkg/util/fairqueue/fair.go:220-233 | exactly the expired groups with an empty FIFO go, one after the other, and with them their balancer entries |
| `QueueModel.AddKeeps` | virtualcluster/pkg/util/fairqueue/fair.go:89-123 | keeps the queue invariant: queued is dirty and not processing, each item once and in its own FIFO, length is the count, balancer groups are the FIFO groups |
| `QueueModel.AddMeans` | virtualcluster/pkg/util/fairqueue/fair.go:89-123 | an added item is dirty, and queued unless someone is at it; in a queue that is shut down, or for a dirty item, nothing changes; nothing else becomes dirty and the others keep their places |
| `QueueModel.GetKeeps` | virtualcluster/pkg/util/fairqueue/fair.go:137-162 | keeps it and hands out a dirty item nobody is processing |
| `QueueModel.AnswerIsGet` | virtualcluster/pkg/util/fairqueue/fair.go:137-162 | under the invariant the answer is that head |
| `QueueModel.AnswersIff` | virtualcluster/pkg/util/fairqueue/fair.go:137-162 | in a sound queue Get returns exactly when something waits or the queue is shut down; what waits is handed out before the shutdown is reported |
| `QueueModel.DoneKeepsIff` | virtualcluster/pkg/util/fairqueue/fair.go:164-189 | keeps it if and only if a dirty item is processing and its FIFO still exists |
| `QueueModel.CollectKeeps` | virtualcluster/pkg/util/fairqueue/fair.go:220-233 | keeps it |
| `QueueRuns.CarefulRunKeeps` | virtualcluster/pkg/util/fairqueue/fair.go:89-233 | the invariant, with the workers' holdings, over every careful run |
| `QueueRuns.NothingLostNothingShared` | virtualcluster/pkg/util/fairqueue/fair.go:89-233 | no item is held by two workers; a dirty item is queued or held by a worker who will put it back |
| `QueueRuns.FinishedKeepsIff` | virtualcluster/pkg/util/fairqueue/fair.go:164-189 | the worker's Done keeps the invariant exactly when the item is clean or its group survives |
| `QueueRuns.ConsiderateIsCareful` | virtualcluster/pkg/util/fairqueue/fair.go:209-233 | a collector that spares groups with a processing item makes every run careful |
| `QueueRuns.LosingRun` | virtualcluster/pkg/util/fairqueue/fair.go:164-189 | five steps after which an item is dirty, not queued and not held |
| `QueueRuns.LostForever` | virtualcluster/pkg/util/fairqueue/fair.go:89-189 | no continuation, re-adding included, ever hands that item out |
| `QueueRuns.SecondDoneShares` | virtualcluster/pkg/util/mccontroller/mccontroller.go:390-431 | a run in which the second Done of a dropped request makes one item be handed to two workers |
| `QueueRuns.StrayDoneIff` | virtualcluster/pkg/util/fairqueue/fair.go:164-189 | a Done by someone who does not hold the item keeps queue invariant and holders if and only if the item is neither being processed nor dirty |
| `QueueSearch.RunKeepsRingKnown` | virtualcluster/pkg/util/fairqueue/fair.go:89-233 | in every run, careful or not, the balancer names only groups that exist |
| `QueueSearch.SearchEndsIff` | virtualcluster/pkg/util/fairqueue/fair.go:137-162 | some answer of the balancer ends the search loop if and only if a registered group has items, or there is none and the empty name is not that of an idle group |
| `QueueSearch.LostGroupBlocks` | virtualcluster/pkg/util/fairqueue/fair.go:137-189 | after an item was lost, the next addition to its group makes Get run forever if another group is registered, and crash otherwise, unless the group has the empty name |
| `QueueSearch.StarvedForever` | virtualcluster/pkg/util/fairqueue/fair.go:89-233 | over every run of calls, in any order and by anyone, a group that has items but is unknown to the balancer is never served: what waits in it stays in front of what is added |
| `QueueSearch.StarvedSpins` | virtualcluster/pkg/util/fairqueue/fair.go:137-162 | the queue then never counts as empty, and Get searches forever whenever the other groups have nothing |
| `QueueSearch.LostThenStarved` | virtualcluster/pkg/util/fairqueue/fair.go:89-233 | from any sound queue, one lost item and a later addition of its tenant lead there |
| `QueueSearch.SpinningRun` | virtualcluster/pkg/util/fairqueue/fair.go:89-233 | a run from the empty queue, with two tenants, after which Get never returns |
| `QueueSearch.CrashingRun` | virtualcluster/pkg/util/fairqueue/fair.go:89-233 | a run from the empty queue, with one tenant, after which Get crashes |
| `Fairness.ServeWithinGroups` | virtualcluster/pkg/util/fairqueue/fair.go:137-162 | the search loop asks the balancer at most once per group |
| `Fairness.FairService` | virtualcluster/pkg/util/fairqueue/fair.go:137-162 | with a stable set of G groups an item at position p is handed out within (p+1)·G Gets |
| `Fairness.OneTurnEach` | virtualcluster/pkg/util/fairqueue/fair.go:137-162 | while a group waits with items, every other group is served at most once |
| `HeapOrder.RootIsLeast` | virtualcluster/pkg/util/fairqueue/delaying.go:63-75 | the root of a heap is no later than any slot |
| `DelayHeap.WaitingQueue.Swap` | virtualcluster/pkg/util/fairqueue/delaying.go:71-75 | entries and times change places, back-indices follow |
| `DelayHeap.WaitingQueue.Fix` | virtualcluster/pkg/util/fairqueue/delaying.go:180-194 | after one time changed, heap order and back-indices are restored with the same entries |
| `DelayHeap.WaitingQueue.Push` | virtualcluster/pkg/util/fairqueue/delaying.go:79-85 | the entry joins, heap order and back-indices hold |
| `DelayHeap.WaitingQueue.PopMin` | virtualcluster/pkg/util/fairqueue/delaying.go:88-95 | the root leaves with index -1, the rest is a heap |
| `DelayHeap.WaitingQueue.Insert` | virtualcluster/pkg/util/fairqueue/delaying.go:180-194 | the due time of the item becomes the smaller of the old and the new one; known entries and heap slots stay in bijection |
| `DelayHeap.WaitingQueue.Receive` | virtualcluster/pkg/util/fairqueue/delaying.go:152-168 | a request already due goes to the queue and leaves the heap alone; any other is inserted |
| `DelayHeap.WaitingQueue.Drain` | virtualcluster/pkg/util/fairqueue/delaying.go:118-136 | releases exactly the items due at now, each once and in order of their times, and keeps the rest |
| `DelayHeap.PendingIsMinimum` | virtualcluster/pkg/util/fairqueue/delaying.go:118-194 | over any history, a waiting item's due time is the least of the later times requested since it was last released; requests due on arrival play no part |
| `DelayHeap.RequestIsKept` | virtualcluster/pkg/util/fairqueue/delaying.go:108-194 | a request for a later time makes the item wait until then or until the earlier time it had, and affects no other item |
| `DelayHeap.ReleasedByDrain` | virtualcluster/pkg/util/fairqueue/delaying.go:108-194 | an item that was to wait and no longer does was released by a drain at or after its due time |
| `Retry.DoubleDoneDuplicates` | virtualcluster/pkg/util/mccontroller/mccontroller.go:408-433 | the second Done breaks the invariant of a queue that the first one left sound: the item, added meanwhile, is queued twice |
| `Retry.DoubleDoneIff` | virtualcluster/pkg/util/mccontroller/mccontroller.go:408-433 | two Dones in a row keep the invariant if and only if the item was not added while it was processed |
| `Retry.RetryBudget` | virtualcluster/pkg/util/mccontroller/mccontroller.go:390-478 | attempts made plus attempts left never grow, and stay exactly the same as long as the queue is not shut down, over every run in which the request fails whenever it is tried and is added by nobody else; delays may end, groups be collected and other items taken or marked done at any time, also between a verdict and the Done that follows it |
| `Retry.BoundedRetry` | virtualcluster/pkg/util/mccontroller/mccontroller.go:390-478 | at most 17 attempts, after which the request neither waits nor is being tried |
| `Retry.GivenUpAfterSeventeen` | virtualcluster/pkg/util/mccontroller/mccontroller.go:390-478 | without a shutdown a new request is out of the system if and only if 17 attempts were made |
| `Retry.SeventeenAttempts` | virtualcluster/pkg/util/mccontroller/mccontroller.go:390-478 | a run in which a new request is tried 17 times and is then gone |
| `Retry.VerdictMeans` | virtualcluster/pkg/util/mccontroller/mccontroller.go:390-478 | below 16 requeues a failed attempt is counted and the request is delayed, or dirty if there is no delay; at 16 it is forgotten; a requeue asked for is granted with the count cleared; every other verdict forgets the request |
| `Retry.DonesOwed` | virtualcluster/pkg/util/mccontroller/mccontroller.go:408-433 | a dropped request is marked done twice before its worker is free, any other one once |
| `Retry.NothingAfterShutdown` | virtualcluster/pkg/util/fairqueue/delaying.go:26-45 | after a shutdown no verdict brings a request back |
| `Retry.SoundIsAlone` | virtualcluster/pkg/util/mccontroller/mccontroller.go:390-478 | in a queue with its invariant, a request without verdict that does not wait in two ways meets the theorem's hypothesis |
| `Retry.GetIsTake` | virtualcluster/pkg/util/fairqueue/fair.go:137-162 | a worker's Get is one of the steps of these runs |
| `MetaSync.CheckDWKVEquality` | virtualcluster/pkg/syncer/conversion/equality.go:235-294 | equal exactly when tenant and super agree on all keys that are not the super cluster's; otherwise the tenant's value or absence on those, and the super's on the others. The super cluster's are keys under the two built-in prefixes or a configured prefix of either kind, and keys whose part before the first slash ends in a configured domain |
| `MetaSync.CheckUWKVEquality` | virtualcluster/pkg/syncer/conversion/equality.go:201-229 | equal exactly when the tenant has the super's value of every shown key the super has; otherwise those values are added. Shown are keys under the built-in or a configured transparent prefix |
| `MetaSync.OpaqueKeyIff` | virtualcluster/pkg/syncer/conversion/equality.go:296-310 | a key is opaque if and only if it is a text without slash that ends in a configured domain, followed by nothing or by a slash and anything |
| `MetaSync.DomainKeys` | virtualcluster/pkg/syncer/conversion/equality.go:296-310 | for a text without slash: it, and it with a slash and any path behind it, are opaque if and only if it ends in a configured domain |
| `MetaSync.ExemptIff` | virtualcluster/pkg/syncer/conversion/equality.go:235-310 | the downward check passes over a key if and only if it starts with a built-in or configured prefix or is opaque |
| `MetaSync.TransparentIff` | virtualcluster/pkg/syncer/conversion/equality.go:201-229 | the upward check looks at a key if and only if it starts with the built-in or a configured transparent prefix |
| `MetaSync.RepairsMean` | virtualcluster/pkg/syncer/conversion/equality.go:201-310 | what each repair does to one key, by what the key is |
| `MetaSync.ChecksMean` | virtualcluster/pkg/syncer/conversion/equality.go:201-310 | what each check compares, by what the keys are |
| `MetaSync.DomainKeysKept` | virtualcluster/pkg/syncer/conversion/equality.go:235-310 | the downward repair keeps the super value of every key whose host ends in a configured domain |
| `MetaSync.DWAgreement` | virtualcluster/pkg/syncer/conversion/equality.go:235-294 | the repair agrees with the tenant off the exempt keys and with the old super map on them; equality is agreement off the exempt keys |
| `MetaSync.DWEqualIsRepaired` | virtualcluster/pkg/syncer/conversion/equality.go:235-294 | equal if and only if the repair changes nothing |
| `MetaSync.UWEqualIsRepaired` | virtualcluster/pkg/syncer/conversion/equality.go:201-229 | equal if and only if the repair changes nothing |
| `MetaSync.UpKeepsDown` | virtualcluster/pkg/syncer/conversion/equality.go:201-294 | the upward repair does not change what the downward repair would do |
| `MetaSync.DownKeepsUp` | virtualcluster/pkg/syncer/conversion/equality.go:201-294 | the downward repair does not change what the upward repair would do |
| `MetaSync.SyncConverges` | virtualcluster/pkg/syncer/conversion/equality.go:201-310 | any run of repairs in any order ends in the same pair, which depends only on which directions ran |
| `MetaSync.SyncIsQuiet` | virtualcluster/pkg/syncer/conversion/equality.go:201-310 | after any run that used both directions both checks report equal, for all prefix and domain lists |
| `ObjectMetas.CheckDWObjectMetaEquality` | virtualcluster/pkg/syncer/conversion/equality.go:131-164 | nothing exactly when names, cluster name, labels and annotations agree; otherwise the full repair |
| `ObjectMetas.CheckUWObjectMetaEquality` | virtualcluster/pkg/syncer/conversion/equality.go:177-195 | nothing exactly when labels and annotations are back populated; otherwise the tenant object with both repaired |
| `ObjectMetas.MetadataIsQuiet` | virtualcluster/pkg/syncer/conversion/equality.go:131-195 | the convergence of whole metadata: after both directions ran, both checks are quiet, the super object has the tenant's generated name and cluster name, and no field that is not compared has changed on either side |
| `ObjectMetas.CleanOpaqueKeys` | virtualcluster/pkg/syncer/conversion/helper.go:196-210 | exactly the keys under the built-in prefixes, a configured opaque prefix or a configured domain go |
| `ObjectMetas.BuildSuperClusterObject` | virtualcluster/pkg/syncer/conversion/helper.go:140-194 | fails exactly without a virtual cluster, without owner information or when the owner references cannot be encoded; otherwise cluster, uid, owner references, namespace and owner are under their annotation keys, the owner and, with the feature gate, the control mark under their label keys, all other tenant keys are cleaned copies, bookkeeping fields are empty and the namespace is the super one; cluster and namespace can be read back from the result |
| `ObjectMetas.BuildSuperClusterNamespace` | virtualcluster/pkg/syncer/conversion/helper.go:221-253 | fails exactly without a virtual cluster or owner information; otherwise the same for namespaces, with the owner's uid, under the super name |
| `ObjectMetas.CreatedIsQuiet` | virtualcluster/pkg/syncer/conversion/helper.go:140-286 | the built object passes the downward check against its source if and only if the source has no cluster name |
| `ObjectMetas.CreateThenCheck` | virtualcluster/pkg/syncer/conversion/helper.go:140-286 | creation followed by the check, for objects and namespaces: created exactly when all lookups succeed, and then no repair exactly when the cluster name is empty |
| `ObjectMetas.CreatedGoesUpIff` | virtualcluster/pkg/syncer/conversion/helper.go:140-210 | the upward check of a created map is quiet exactly when no added key is transparent with a value the tenant lacks |
| `PodConditions.CheckDWPodConditionEquality` | virtualcluster/pkg/syncer/conversion/equality.go:84-117 | returns a status other than the old one, or nothing, such that the result is the super list with tenant gates overwritten and the missing ones appended in some order |
| `PodConditions.CheckUWPodStatusEquality` | virtualcluster/pkg/syncer/conversion/equality.go:315-362 | the same upwards, with in-place deletion of gates only the super pod declares |
| `PodConditionSync.ConditionsConverge` | virtualcluster/pkg/syncer/conversion/equality.go:84-362 | in every run, once a downward repair was followed by an upward one, the pair no longer changes and both checks are quiet, whatever the append orders |
| `PodConditionSync.UpKeepsTenantGates` | virtualcluster/pkg/syncer/conversion/equality.go:315-362 | the tenant keeps its value of every gate, and no gate of the super pod alone reaches it |
| `PodConditionSync.RunKeepsTenantGates` | virtualcluster/pkg/syncer/conversion/equality.go:84-362 | over whole runs no gate condition of the tenant is overwritten |
| `PodConditionSync.DuplicateGatesNeedMore` | virtualcluster/pkg/syncer/conversion/equality.go:84-362 | an input with two conditions of one gate in the super pod that needs a third repair |
| `PodConditionSync.UpThenDownNeedsMore` | virtualcluster/pkg/syncer/conversion/equality.go:84-362 | an input on which upward first, downward second is not enough |
| `PodConditionLimits.DownThenUpQuietIff` | virtualcluster/pkg/syncer/conversion/equality.go:84-362 | for any lists, a downward and an upward repair leave both checks quiet if and only if each gate repeated in the super pod ends with the tenant's value, or with its first condition if the tenant reports none |
| `PodConditionLimits.UpThenDownQuietIff` | virtualcluster/pkg/syncer/conversion/equality.go:84-362 | for any lists, an upward and a downward repair leave both checks quiet, for every order of appending, if and only if each repeated gate ends as above and the super pod lacks at most one of the gates the tenant reports |
| `PodConditionLimits.TwoRoundsQuiet` | virtualcluster/pkg/syncer/conversion/equality.go:84-362 | for any lists, two downward repairs, each followed by an upward one, leave both checks quiet |
| `PodConditionLimits.SettledQuietIff` | virtualcluster/pkg/syncer/conversion/equality.go:84-362 | once the tenant shows what it may see, both checks are quiet if and only if every gate's first condition is also its last |
| `PodSpecs.CheckContainersImageEquality` | virtualcluster/pkg/syncer/conversion/equality.go:400-430 | the returned list is empty when images agree, and otherwise the super containers with repaired images |
| `PodSpecs.RepairTouchesImages` | virtualcluster/pkg/syncer/conversion/equality.go:400-430 | order, names and all other fields stay; compared tenant containers get the tenant's image, foreign containers keep theirs |
| `PodSpecs.ImagesEqualIff` | virtualcluster/pkg/syncer/conversion/equality.go:400-430 | equal if and only if the last tenant container of every name that is not the super cluster's has its image in the last super container of that name |
| `PodSpecs.RepairMeans` | virtualcluster/pkg/syncer/conversion/equality.go:400-430 | each super container keeps all but its image; it gets the image of the last tenant container of its name unless the name is the super cluster's |
| `PodSpecs.ImagesSettleIff` | virtualcluster/pkg/syncer/conversion/equality.go:370-430 | one update settles the images if and only if the super list is empty or has every compared tenant container |
| `PodSpecs.MissingContainerNeverSettles` | virtualcluster/pkg/syncer/conversion/equality.go:370-430 | otherwise an update is requested in every later round |
| `PodSpecs.CheckPodSpecEquality` | virtualcluster/pkg/syncer/conversion/equality.go:370-398 | nothing exactly when deadline and both container lists need no update; otherwise the tenant's deadline, both lists repaired and the rest unchanged |
| `PodSpecs.SpecSettlesIff` | virtualcluster/pkg/syncer/conversion/equality.go:370-430 | one update of the specification suffices exactly when neither list misses a compared container |
| `PodSecrets.MutateContainerSecret` | virtualcluster/pkg/syncer/conversion/mutate.go:203-220 | each mount is renamed exactly when the tenant volume it names is named after its secret and the secret is mapped |
| `PodSecrets.RenameSecretVolumes` | virtualcluster/pkg/syncer/conversion/mutate.go:139-150 | each volume points to the super secret of its secret, if there is one, carries the secret's name exactly if it did before, and keeps the rest |
| `PodSecrets.VolumeMeans` | virtualcluster/pkg/syncer/conversion/mutate.go:139-150 | the same of one volume |
| `PodSecrets.MountsResolveIff` | virtualcluster/pkg/syncer/conversion/mutate.go:129-150 | given unique names, every mount still finds the volume at its index if and only if no renamed volume collides |
| `PodSecrets.MountsFollowSecrets` | virtualcluster/pkg/syncer/conversion/mutate.go:129-220 | without collisions what is mounted at a path is the tenant's volume with the super secret in it |
| `PodSecrets.DanglingMounts` | virtualcluster/pkg/syncer/conversion/mutate.go:203-220 | a mount without volume is left alone and stays so exactly when no secret takes its name |
| `PodSecrets.MutatePodSecrets` | virtualcluster/pkg/syncer/conversion/mutate.go:129-150 | the loops together: with no collision all mounts of all containers resolve as before |
| `Counterexamples.ZeroPlacementBlocksRemoval` | virtualcluster/experiment/pkg/scheduler/cache/cache.go:190-308 | a zero placement on an unknown cluster is accepted and makes the namespace impossible to remove |
| `Counterexamples.ShrinkLosesNamespace` | virtualcluster/experiment/pkg/scheduler/cache/cache.go:310-328 | after a capacity shrink a failing update forgets the namespace |
| `Counterexamples.AbsentIsBooked` | virtualcluster/experiment/pkg/scheduler/cache/cache.go:310-383 | after its cluster was removed and added again, a failing update books slices the cluster did not hold |
| `PlanCounterexamples.UnknownResourceRefused` | virtualcluster/experiment/pkg/scheduler/engine/schedulerengine.go:101-144 | a cluster that accounts for cpu alone and a slice of cpu and memory: a complete plan that the cache refuses |
| `PlanCounterexamples.StrandedIsReached` | virtualcluster/experiment/pkg/scheduler/cache/cache.go:213-383 | the steps to a cached namespace whose only cluster has left the snapshot |
| `PlanCounterexamples.StrandedCrashes` | virtualcluster/experiment/pkg/scheduler/engine/schedulerengine.go:101-144 | there the engine crashes, whatever the map orders |

## Left out

- Kubernetes clients, informers, listers, leader election, metrics and logging: they surround the modelled code and would add no state of their own.
- The scheduler's drivers (`scheduler.go`, `reconciler.go`, health checks, state synchronisation): represented by arbitrary sequences of cache operations.
- Goroutines, channels, condition variables and timers: the steps they trigger are modelled, their interleaving only as orders of whole steps; `Get` is modelled from the point where its wait ends.
- Labels of clusters and namespaces, error texts, JSON dumps and the last-update times of clusters and FIFOs.
- Sharing of slices and maps between copies: `DeepCopy` is a copy of the value.
- SliceMath.GetLeastFitSliceNum: the division goes through floating point and a 64-bit integer in the program; the model divides exactly, on whole units and without bounds, so rounding of very large or fractional quantities is not captured.
- CacheRuns.RunAccounts: runs in which a caller removes or updates a namespace with another schedule than the cached one, or adds a new cluster that already holds bookings, are outside the theorem.
- CacheConservation.RunConserves: cluster deletion is outside, because it drops what the cluster holds; so are additions with a zero placement on a cluster that is cached neither before nor by the addition itself, which `CacheConservation.AddedIsLiveIff` shows to be exactly those after which a removal fails.
- TenantRemoval.TenantRemovalIsAtomic: live placements present and fitting; `TenantRemoval.TenantRemovalIff` has no such hypothesis.
- CrashConditions.NeverCrashesIff: placements that are not negative, which every plan of the engine meets; an annotation read from outside could break it.
- EmptySnapshots.EmptySnapshotScheduled: the commit of a namespace that is not cached yet; for a cached one only the plan is stated, in `EmptySnapshots.EmptySnapshotPlan`.
- PodBounds.RunWithinSlices: pods that reach the cache without the engine and namespaces that shrink under their pods are outside; `PodBounds.AddPodBoundIff` decides every single addition.
- Balancer.WeightedRR.Next: pools with positive weights, as the queue makes them, which always adds with weight one; the same holds for `Balancer.WeightedRR.Remove`. `Clear` is not modelled, nothing calls it.
- FairQueues.FairQueue.Get: where the search never stops there is no result to state; `QueueSearch.SearchEndsIff` says when that is.
- Retry.BoundedRetry: one rate limiter per queue with counts that `When` increments and `Forget` clears; the request is not added by anyone else; counting a requeue and queueing it are one step.
- DelayHeap.WaitingQueue.Drain: returns the released items in order; the caller's `Add` for each is the queue's own operation, and `container/heap` is written out against the repository's Less, Swap, Push and Pop.
- ObjectMetas.BuildSuperClusterObject: the encodings of owner references and of namespace names are arbitrary functions, the former one that may fail.
- PodConditionSync.ConditionsConverge: each tenant gate has at most one condition in the super pod at the start, as Kubernetes demands of condition types; the theorems of `PodConditionLimits` have no such hypothesis.
- Whole-object checks for storage classes, priority classes, custom resources, ingresses and endpoints: they defer to deep equality and would only add easy members.
- Environment variables, DNS configuration, host aliases and affinity terms of the pod mutator.
- The registry of clusters in the multi-cluster controller, and the pooling filter, which is a verdict in `Retry`.
- Control-plane controllers, certificates, webhooks, provisioners and the vn-agent.
