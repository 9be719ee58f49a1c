# Verified model of the TensorFusion operator

This project models the resource accounting and the reconcile protocols of the TensorFusion operator and proves what
they guarantee, over every run and every placement of failed calls. `dafny verify dfyconfig.toml` checks all of it.

A *reply* says what happened to a call: a write may be applied, be applied although the caller sees an error, be refused,
or meet a conflict; a read may be delivered or not. A *run* is any sequence of steps of the controllers, the users, the
pods and the informers, in any order. Nothing bounds the length of runs, the number of objects or the number of failures.

## GPU allocation and the life of a connection

`Scheduler.dfy` holds the scheduler as it is: a map of shared GPU objects whose quantities are debited and credited in
place. `Schedule` hands out the registered object itself; `Release` makes its caller's copy point at the registered
quantities. `ConnectionProtocol.dfy` gives one reconcile pass as a function of the stored objects, the scheduler's table
and the replies. `ConnectionReconciler.dfy` runs the same pass on heap objects, in the order of the original's writes,
and is proved to compute that function. `ConnectionRuns.dfy`, `ConnectionLedger.dfy`, `ConnectionLifecycle.dfy` and
`ConnectionLeaks.dfy` then reason about runs of passes. `ConnectionOutcomes.dfy` says, from the stored objects and the
replies alone, exactly what a pass stores and reports: when a connection becomes Pending, Starting or Running, and when it goes
away.

The ledger of a GPU is what the scheduler has left on it plus the requests of the stored connections recorded on it.
It changes for three reasons only: a debit is *stranded* when the connection status does not land, a *release* is out of
step with the removal of its connection, or an informer event *drifts* the cached value. When releases match removals the
GPU is never over-committed, however many writes fail. When no pass reports an error the ledger balances exactly, and the
stored Available equals the cached one between passes.

The hypotheses are needed, and the project shows how the code behaves without them:

* a connection whose pool does not exist takes its request from the cache again at every retry, and nothing is recorded;
* a refused finalizer removal releases the same request again at every retry, because the recorded GPU is not cleared,
  and one refusal is enough for the same capacity to be handed out twice;
* a GPU write that does not land, followed by an informer event with the stored object, forgets a debit; so does an
  informer event that arrives late with the object stored before the pass, although no call fails.

## Provisioning of nodes

`NodeProvisioning.dfy` interleaves the workers that provision nodes with deletions of GPUNodes, with the finalizer that
terminates instances, and with restarts of the operator. The source says that creating an instance and recording it must
be atomic (internal/controller/gpupool_node_provision.go:158). It is not, and the model says exactly when: an instance
becomes an orphan at a creation that fails after it took effect, at a failed second read of the GPUNode, when the operator
stops or panics, and when a GPUNode without its finalizer is deleted; at no other step, and an orphan is never found again.
A GPUNode with its finalizer can never leave the store exactly when it has no instance and its worker has given up
recording one, because the hook refuses a node without an instance id; from every other state it can still be removed. `NodeHistory.dfy` says what must have
happened before an instance is bought, recorded or gone, and that a worker that gives up before buying never buys.

## Capacity: planner, scale-up, aggregation, compaction

`CapacityPlanner.dfy` has the eligible instance types, the choice of the cheapest and the number to buy. `ScaleUp.dfy`
has the decision to grow, what a round of deciding, planning, creating and aggregating does to the nodes, and the bound on
the number of rounds: at most a hundredth of the initial distance to the minimum, rounded up, where the distance counts
instances of one TFlop and one GiB.

`PoolCapacity.dfy` aggregates nodes into pools. The recomputed status is written as a merge patch
(internal/controller/gpupool_controller.go:162), and three of its counters are left out of the patch when they are zero
(api/v1/gpupool_types.go:364-366). Quantities, not-ready nodes and phase are always brought up to date; the counts of nodes,
GPUs and ready nodes are right if and only if none of them fell to zero. A pool whose only node stops running is stored with
one ready and one not-ready node of one, and a pool that loses its last node keeps its counters, so that the cluster's node
and GPU totals can exceed what the nodes add up to, though they never fall short of it.

`PoolCompaction.dfy` gives up idle nodes. The pool's available capacity is not lowered inside the compaction loop, so a pass
can fall short of the warm-up reserve; the bound on the shortfall is proved, and proved to be reached. The
protection of new nodes compares the creation time with a moment in the future
(internal/controller/gpupool_compaction_controller.go:78), so it protects no node that exists; the model keeps it so.

## Cluster reconcile

`ClusterReconcile.dfy` diffs the spec against the owned pools, `ClusterConvergence.dfy` proves convergence under partial
failure, `ClusterStatus.dfy` has the phase and condition changes and the summary, and `ClusterPass.dfy` the whole pass and
its runs. For any spec, a pass changes nothing exactly when the owned pools are those the spec names, with the specs it
gives, and there is a store that later passes leave alone exactly when definitions of one name have one spec. How passes get
there is proved for distinct pool names, an owner label that is not overridden, and no foreign pool under an intended name:
two specs for one name are written for ever, one definition given twice makes the pass that creates its pool fail, and a
pool that is foreign, or becomes so by its label, makes every pass fail. The write to the ready list is in range for every
order in which the pools may be listed if and only if there is a slot for each labelled pool or no labelled pool runs; that
holds when nothing changed and owner label and owner reference agree, and fails for settled pools with one running stray.

## Connection watcher

`ConnectionWatcher.dfy` has subscribers as a table of sets of one-slot channels, and every interleaving of subscribing,
cancelling, delivering and receiving. After any run each subscription's channel is what the history of steps says: open or
closed, with what it was offered, what it received, and what is in its slot. What a subscriber received and can still get is
an in-order subsequence of the watch events for its key between its subscription and its cancellation. A step panics exactly
if it cancels a subscription again while its key has another subscriber; with one cancellation each, nothing panics. The comment on subscribing says that a channel is closed when its connection is
deleted (internal/server/router/connection.go:88); the code closes a channel only when its subscription is cancelled, and
so does the model.

## Assumptions

* A reconcile pass is one step: other events happen between passes, and a pass reads what earlier passes wrote. Within
  the pass the order of the writes and every point of failure are kept.
* Quantities are integers without bound; the planner's products of two int32 values wrap as in the source; counters and
  int64 values are assumed not to overflow. Hourly costs are reals.
* Node names are unique per worker, and instance ids are unique and returned by the provider.
* When a cluster pass refreshes the status without having compared the pools with the spec, there is a slot for every
  labelled pool or no labelled pool runs (`ClusterPass.ListIsSafe`); that is the exact condition for the write to the ready
  list to be in range for every listing.

## Model

| member | source | states |
|---|---|---|
| Scheduler.NaiveScheduler.constructor | internal/scheduler/naive.go:17-21 | a new scheduler has no GPU registered |
| Scheduler.NaiveScheduler.Schedule | internal/scheduler/naive.go:24-39 | for any iteration order: no GPU is answered exactly when none fits; otherwise a registered one that fits, which alone is debited, and it is the registered object itself |
| SchedulerSpec.PickExactly | internal/scheduler/naive.go:28-38 | no GPU is an allowed answer if and only if each one lacks TFlops or VRAM; a GPU is one if and only if it is registered and lacks neither |
| Scheduler.NaiveScheduler.Release | internal/scheduler/naive.go:63-78 | fails exactly for an unregistered name, changing nothing; otherwise credits that GPU alone and leaves the caller's copy sharing the registered quantities |
| Scheduler.NaiveScheduler.OnAdd | internal/scheduler/naive.go:42-46 | the object is registered under its name with its own quantities and no other entry changes |
| Scheduler.NaiveScheduler.OnUpdate | internal/scheduler/naive.go:49-53 | the registered object is replaced wholesale: its cached quantities become those of the new object |
| Scheduler.NaiveScheduler.OnDelete | internal/scheduler/naive.go:56-60 | the GPU and only that GPU is forgotten |
| SchedulerSpec.ReplayTakes | internal/scheduler/naive.go:24-78 | over any sequence of successful calls each GPU has what it started with, less what was scheduled on it, plus what was released |
| SchedulerSpec.MatchedCallsRestore | internal/scheduler/naive.go:24-78 | when every Schedule is matched by one Release, in any order, every GPU is back to its starting Available |
| ConnectionProtocol.Persist | internal/controller/tensorfusionconnection_controller.go:197-234 | the status is stored exactly when some attempt lands it; success means the status landed, and the GPU quantities if a GPU is given; success with a stored GPU is exactly that one attempt lands both writes |
| ConnectionProtocol.StartWorker | internal/controller/tensorfusionconnection_controller.go:109-130 | starting the worker never touches connections, GPUs or the recorded GPU; a new status is Running with the URL of a pod that runs |
| ConnectionReconciler.Reconciler.MustUpdateStatus | internal/controller/tensorfusionconnection_controller.go:197-234 | the retry loop of writes computes Persist |
| ConnectionReconciler.Reconciler.TryStartWorker | internal/controller/tensorfusionconnection_controller.go:144-171 | the pod found or created, where a failed read other than absence yields an empty pod without an error |
| ConnectionReconciler.Reconciler.GiveBack | internal/controller/tensorfusionconnection_controller.go:180-192 | the copy that was read and released carries the scheduler's credited quantities, so those are what is written back |
| ConnectionReconciler.Reconciler.HandleDeletion | internal/controller/tensorfusionconnection_controller.go:174-195 | the hook's effect on store and cache in every case of missing or unreadable GPUs and failed writes |
| ConnectionReconciler.Reconciler.Clean | internal/utils/reconcile.go:29-43 | the finalizer goes only after the hook reported no error |
| ConnectionReconciler.Reconciler.AskScheduler | internal/controller/tensorfusionconnection_controller.go:80-97 | the scheduler is asked exactly when the phase is unset or Pending; Starting exactly when it answered with a GPU |
| ConnectionReconciler.Reconciler.ReadRecordedGpu | internal/controller/tensorfusionconnection_controller.go:99-106 | the GPU just scheduled stays in hand; otherwise the recorded one if it can be read, else none |
| ConnectionReconciler.Reconciler.Finish | internal/controller/tensorfusionconnection_controller.go:109-134 | worker, then both writes; every early return leaves the status unwritten |
| ConnectionReconciler.Reconciler.ServeConnection | internal/controller/tensorfusionconnection_controller.go:80-141 | the pass on heap objects, with the scheduler's own object in hand, has the effect of the protocol's Serve |
| ConnectionReconciler.Reconciler.Reconcile | internal/controller/tensorfusionconnection_controller.go:52-142 | the running reconciler refines the protocol: each call is an enabled event of a run and has exactly the effect of Pass |
| ConnectionRuns.RecordedChange | internal/controller/tensorfusionconnection_controller.go:208-214 | when two stores differ in one connection only, the requests recorded on a GPU differ by that connection's share only |
| ConnectionRuns.FinishEffect | internal/controller/tensorfusionconnection_controller.go:108-134 | the last part of a pass stores nothing, the status it was given, or Running with the URL of a running pod; the recorded GPU is never changed there |
| ConnectionRuns.ProceedEffect | internal/controller/tensorfusionconnection_controller.go:99-134 | what follows scheduling changes one connection only, keeps its spec, moves its phase forward, and makes it Running only with a URL backed by a running pod |
| ConnectionRuns.CleanupEffect | internal/controller/tensorfusionconnection_controller.go:174-195 | a deletion pass changes no connection except by removing the one it serves, and credits at most its recorded GPU by its own request |
| ConnectionRuns.PassEffect | internal/controller/tensorfusionconnection_controller.go:52-142 | for any replies a pass touches one connection and at most one cached GPU, debits only an unrecorded connection, credits only the recorded GPU, never both |
| ConnectionLedger.WellFormedRun | internal/controller/tensorfusionconnection_controller.go:82-134 | in every reachable state a connection has a GPU exactly when it is Starting or Running, and then it has its finalizer |
| ConnectionLedger.StepBalance | internal/controller/tensorfusionconnection_controller.go:82-134 | each event moves the ledger of a registered GPU by its three entries and nothing else |
| ConnectionLedger.LedgerHolds | internal/controller/tensorfusionconnection_controller.go:82-134 | over every run, for each GPU that stays registered: Available plus recorded requests equal their start, less stranded debits, plus releases net of removals, plus informer drift |
| ConnectionLedger.SolventRun | internal/scheduler/naive.go:30-35 | over every run cached quantities stay non-negative, because only a GPU that fits is debited |
| ConnectionLedger.MatchedEntries | internal/controller/tensorfusionconnection_controller.go:85-134 | when releases match removals, failures can only lower the ledger |
| ConnectionLedger.NeverOverCommits | internal/controller/tensorfusionconnection_controller.go:85-134 | when releases match removals, the requests recorded on a GPU and what is left of it never exceed what it started with, however many schedule-side writes fail |
| ConnectionLedger.CleanPass | internal/controller/tensorfusionconnection_controller.go:99-106 | a pass that reports no error strands nothing, releases in step, and leaves stored and cached quantities equal |
| ConnectionLedger.CleanRunsBalance | internal/controller/tensorfusionconnection_controller.go:197-233 | with no reported error: stored Available equals cached Available between passes, the ledger balances, and what is left stays between zero and the start |
| ConnectionLifecycle.PhasesMoveForward | internal/controller/tensorfusionconnection_controller.go:82-134 | over every run phases never go back, a GPU name never changes once set, and it is set exactly while Starting or Running |
| ConnectionLifecycle.RunningWasBacked | internal/controller/tensorfusionconnection_controller.go:122-128 | a Running connection carries the URL of a worker pod that was running at an earlier point of the run |
| ConnectionLifecycle.ScheduledPassKeepsQuantities | internal/controller/tensorfusionconnection_controller.go:99-106 | when reading the GPU yields what is stored, reconciling a connection that has its GPU changes no cached and no stored quantity, whatever fails |
| ConnectionLifecycle.SharedObjectWritesCache | internal/controller/tensorfusionconnection_controller.go:99-132 | when the read yields the object that the scheduler debits in place, the stored quantities stay or become the cached ones, which is no change when the two agreed |
| ConnectionOutcomes.LandsExactly | internal/controller/tensorfusionconnection_controller.go:198-233 | an update stores the status, stores the GPU, or acknowledges both, if and only if some attempt does so after attempts that all met conflicts |
| ConnectionOutcomes.ServedOutcome | internal/controller/tensorfusionconnection_controller.go:99-134 | a connection with a GPU becomes Running with its pod's URL if and only if every read is delivered, GPU and pool are stored, the pod runs with a port and an attempt writes the status; else it stays; and exactly when the pass reports success |
| ConnectionOutcomes.ScheduledOutcome | internal/controller/tensorfusionconnection_controller.go:80-134 | a connection that is scheduled is stored as Starting, or Running if its pod runs, and the GPU as debited, each if and only if the worker starts and an attempt lands it; and exactly when the pass reports success |
| ConnectionOutcomes.PendingOutcome | internal/controller/tensorfusionconnection_controller.go:82-96 | a connection for which no GPU fits is stored as Pending if and only if an attempt writes its status; no quantity changes |
| ConnectionOutcomes.FinalizerOutcome | internal/utils/reconcile.go:44-52 | without an acknowledged finalizer nothing else happens to a connection, and an error is reported |
| ConnectionOutcomes.NothingToDo | internal/controller/tensorfusionconnection_controller.go:61-78 | a pass changes nothing for a connection that is gone, unreadable, or being deleted without the finalizer; only an unreadable one is an error |
| ConnectionOutcomes.DeletionOutcome | internal/controller/tensorfusionconnection_controller.go:174-195 | a connection being deleted goes away if and only if the removal lands and no GPU is recorded, or the GPU is gone from the store, or is registered with both writes acknowledged; success, the credit and the stored quantities are given exactly |
| ConnectionOutcomes.PodOutcome | internal/controller/tensorfusionconnection_controller.go:151-171 | a pod with its port is stored if and only if the pass has a GPU in hand and the pool, finds no pod, and its creation lands |
| ConnectionLeaks.StrandsExactly | internal/controller/tensorfusionconnection_controller.go:109-134 | a debit is stranded if and only if the worker does not start or no attempt lands the connection status |
| ConnectionLeaks.ReleaseMatchesExactly | internal/utils/reconcile.go:29-43 | a release keeps the ledger if and only if both writes after it are acknowledged and the finalizer removal lands |
| ConnectionLeaks.MissingPoolDrains | internal/controller/tensorfusionconnection_controller.go:110-113 | n retries for a missing pool take n requests from the cache and record none, as long as the GPU fits |
| ConnectionLeaks.RepeatedReleaseInflates | internal/controller/tensorfusionconnection_controller.go:189-194 | n retries with a refused finalizer removal credit n requests for one recorded connection |
| ConnectionLeaks.RecordsRequest | internal/controller/tensorfusionconnection_controller.go:85-134 | a landed schedule moves exactly the request from the cached quantities to the recorded ones |
| ConnectionLeaks.DoubleReleaseOverCommits | internal/controller/tensorfusionconnection_controller.go:189-194 | one refused removal lets a second connection take the capacity the first still records |
| ConnectionLeaks.LostGpuWrite | internal/controller/tensorfusionconnection_controller.go:216-231 | when no GPU write lands, the stored quantities stay as they were although the status may be stored |
| ConnectionLeaks.PartsExactly | internal/controller/tensorfusionconnection_controller.go:108-134 | a pass that schedules a nonzero request keeps stored and cached quantities equal if and only if the worker starts and some attempt lands the write of the GPU |
| ConnectionLeaks.StaleRefreshOverCommits | internal/scheduler/naive.go:49-53 | a lost GPU write followed by an update event with the stored object undoes the debit of a recorded connection |
| ConnectionLeaks.EarlierEventOverCommits | internal/scheduler/naive.go:49-53 | an update event with the object stored before a landed schedule undoes its debit, whatever the pass wrote |
| ConnectionLeaks.LateEventOverCommits | internal/scheduler/naive.go:49-53 | so it does when no call fails: the store has the debited quantities, the cache the earlier ones, and the request is recorded |
| NodeProvisioning.OnlyItsCreator | internal/controller/gpupool_node_provision.go:113-193 | an instance is held or recorded only under the name it was created for |
| NodeProvisioning.InvRun | internal/controller/gpupool_node_provision.go:113-193 | in every reachable state workers hold live instances of their own node, and a GPUNode whose hook is done records an instance that is gone |
| NodeProvisioning.LooseStep | internal/controller/gpupool_node_provision.go:159-190 | an instance loses both its worker and its record at the abandoning steps and no others, and stays lost |
| NodeProvisioning.OrphansStep | internal/controller/gpupool_node_provision.go:159-190 | a step adds exactly the instances it abandons to the orphans and removes none |
| NodeProvisioning.OrphansExactly | internal/controller/gpupool_node_provision.go:113-193 | over all interleavings of workers and deletions, the live instances without worker or record are exactly those abandoned by an unacknowledged creation, a failed re-read, a stop or panic, or a deletion before the finalizer |
| NodeProvisioning.RemovedOnlyAfterTermination | internal/controller/gpunode_controller.go:74-107 | a GPUNode with its finalizer leaves the store only when its recorded instance is no longer live |
| NodeProvisioning.StuckForever | internal/controller/gpunode_controller.go:74-107 | a GPUNode with its finalizer and no instance, whose worker has given up, stays so over every continuation of the run |
| NodeProvisioning.RemovedOnceRecorded | internal/controller/gpunode_controller.go:74-107 | a GPUNode with its finalizer and an instance has a continuation of the run that removes it |
| NodeProvisioning.StuckExactly | internal/controller/gpunode_controller.go:94-96 | a GPUNode with its finalizer stays in every continuation if and only if it has no instance and its worker has given up recording one |
| NodeProvisioning.RecordedOnce | internal/controller/gpupool_node_provision.go:174-189 | an instance is recorded by one GPUNode at most, and shared with a worker only while that worker must terminate it |
| NodeHistory.BoughtInOrder | internal/controller/gpupool_node_provision.go:144-163 | an instance was created for a GPUNode only after its creation and then its status were acknowledged |
| NodeHistory.RecordedInOrder | internal/controller/gpupool_node_provision.go:159-189 | a GPUNode records an instance only after its creation was acknowledged and the GPUNode read again |
| NodeHistory.GivingUpIsFinal | internal/controller/gpupool_node_provision.go:121-156 | a worker that lacks a price, or whose write of the GPUNode or its status is not acknowledged, has ended, and nothing is ever bought for its GPUNode |
| NodeHistory.GoneExactly | internal/controller/gpupool_node_provision.go:176-189 | a live instance ceases to be so if and only if the worker that must undo it, or the hook of the GPUNode that records it, terminates it |
| NodeHistory.RefusedRecordIsUndone | internal/controller/gpupool_node_provision.go:176-189 | after a record that is not acknowledged the worker can only terminate the instance, and is done when that is acknowledged |
| NodeHistory.HookBeforeDrop | internal/utils/reconcile.go:32-43 | the finalizer is up for removal only after an acknowledged hook of a GPUNode with an instance |
| NodeHistory.MarksExactly | internal/utils/reconcile.go:44-52 | a GPUNode has its finalizer if and only if that write landed, and its deletion mark if and only if it was deleted |
| NodeHistory.LeavesExactly | internal/utils/reconcile.go:29-43 | a GPUNode leaves the store if and only if it is deleted without its finalizer or the removal of the finalizer lands |
| NodeHistory.StoppingForgets | internal/controller/gpupool_node_provision.go:180-187 | after a stop or a panic no worker goes on and no hook counts as done |
| CapacityPlanner.Contains | internal/cloudprovider/common/utils.go:197-204 | true exactly for members |
| CapacityPlanner.GetEligibleInstances | internal/cloudprovider/common/utils.go:149-195 | the order-preserving sublist of the types that meet every requirement |
| CapacityPlanner.EligibleExactly | internal/cloudprovider/common/utils.go:149-195 | a type is eligible if and only if it is offered and meets every In-requirement on type and architectures |
| CapacityPlanner.EligibleSplits | internal/cloudprovider/common/utils.go:149-195 | the eligible list keeps the order of the catalogue |
| CapacityPlanner.EligibleIgnoresOrder | internal/cloudprovider/common/utils.go:149-195 | permuting or repeating requirements changes nothing |
| CapacityPlanner.EligibleOnlyShrinks | internal/cloudprovider/common/utils.go:149-195 | further requirements only filter the list, in its order |
| CapacityPlanner.NeededIsLeast | internal/cloudprovider/common/utils.go:104-106 | n instances cover both gaps if and only if n is at least the computed number, which is at least 1 for an open gap |
| CapacityPlanner.OffersExactly | internal/cloudprovider/common/utils.go:97-98 | an instance offers the product of its numbers as long as that is within int32 |
| CapacityPlanner.FindRegion | internal/cloudprovider/common/utils.go:45-51 | the catalogue is that of the first region requirement, whatever its operator |
| CapacityPlanner.CatalogueRegionIsFirst | internal/cloudprovider/common/utils.go:45-51 | that region is the first value of the first region requirement, or the default if there is none |
| CapacityPlanner.ReadTerms | internal/cloudprovider/common/utils.go:62-88 | the terms that the requirements lead to, read in order: later ones win, and a capacity requirement that allows Spot leaves the capacity type as it was |
| CapacityPlanner.RegionIsLast | internal/cloudprovider/common/utils.go:77-79 | the region to buy in is the first value of the last In-requirement on regions |
| CapacityPlanner.ZonesAreLast | internal/cloudprovider/common/utils.go:80-84 | the zones are the values of the last In-requirement on zones |
| CapacityPlanner.CapacityTypeIsLast | internal/cloudprovider/common/utils.go:66-76 | the capacity type is the first value of the last In-requirement that does not allow Spot, else Spot |
| CapacityPlanner.TwoRegions | internal/cloudprovider/common/utils.go:45-79 | types are taken from one region and bought in another if and only if the last In-requirement on regions disagrees with the first region requirement |
| CapacityPlanner.FindCheapest | internal/cloudprovider/common/utils.go:90-120 | the choice among the priced, usable types; what it means is stated by PlanCostsLeast and NoPlanExactly |
| CapacityPlanner.BuyNodes | internal/cloudprovider/common/utils.go:127-144 | as many nodes as asked, each of the chosen type, in one of the required zones, offering what one instance offers |
| CapacityPlanner.CalculateLeastCostGPUNodes | internal/cloudprovider/common/utils.go:36-147 | for each gap the plan is empty, one of the three errors exactly when it applies, or a cheapest type bought as often as needed, capped at 100 |
| CapacityPlanner.PlanCostsLeast | internal/cloudprovider/common/utils.go:90-147 | the hourly price of the least number of instances that cover the gap is least for the chosen type among all for sale, strictly among those listed earlier, and below the initial minimum; that many are bought, up to 100 |
| CapacityPlanner.NoPlanExactly | internal/cloudprovider/common/utils.go:53-120 | each of the three errors is answered if and only if there is no eligible type, no zone, or no type for sale below the initial minimum |
| ScaleUp.DecideScaleUp | internal/controller/gpupool_node_provision.go:23-84 | the pool grows exactly when it is below its minimum, or runs below its warm-up reserve, and neither dimension is at its maximum; the gap is the one to close |
| ScaleUp.GapExactly | internal/controller/gpupool_node_provision.go:41-84 | from the quantities: the pool grows if and only if no maximum is reached and a minimum is missed, or it runs and the reserve is missed; the gap is to the minimum in the first case, to the reserve in the second |
| ScaleUp.RoundFillsReserve | internal/controller/gpupool_node_provision.go:56-67 | a round for the reserve brings what is available up to the reserve in both dimensions, unless the limit of 100 nodes applies |
| ScaleUp.NeededWithinDistance | internal/cloudprovider/common/utils.go:104-106 | any usable type closes the gap with at most the distance in smallest instances |
| ScaleUp.GrowsCloser | internal/controller/gpupool_controller.go:89-101 | a round strictly raises both totals and either reaches the minimum or comes at least 100 units closer |
| ScaleUp.AggregationKnowsTotals | internal/controller/gpupool_controller.go:132-162 | whatever was stored, the patched totals are those of the nodes, and stay so while nodes become ready |
| ScaleUp.RoundGrows | internal/controller/gpupool_node_provision.go:41-151 | the nodes planned and created in a round raise the totals by as many instances of one eligible type as the planner buys for the gap |
| ScaleUp.RoundsAreBounded | internal/controller/gpupool_controller.go:89-101 | error-free rounds of deciding, planning, creating and aggregating number at most a hundredth of the initial distance, rounded up, whichever types are chosen |
| ScaleUp.RoundsEndServed | internal/controller/gpupool_node_provision.go:41-84 | such rounds leave off if and only if the nodes have the minimum in both dimensions or the maximum in one |
| ScaleUp.StopsOnlyWhenServed | internal/controller/gpupool_node_provision.go:41-84 | no further round is due if and only if both totals are at the minimum or one dimension is at its maximum |
| ScaleUp.CreatedNodesAddUp | internal/controller/gpupool_controller.go:132-146 | the nodes created in a round raise the aggregated totals by exactly what the plan promised |
| PoolCapacity.GPUPool.ReconcileCurrentCapacityAndReadiness | internal/controller/gpupool_controller.go:111-166 | for every outcome of the calls the stored status is as before or merged with the recomputed one; when the patch lands, quantities, not-ready nodes and phase are those of the nodes |
| PoolCapacity.AggregatesExactly | internal/controller/gpupool_controller.go:143-162 | after the patch the whole status agrees with the nodes if and only if the counts of nodes, GPUs and ready nodes are each nonzero or were stored as zero; the rest always agrees |
| PoolCapacity.RecomputedGrows | internal/controller/gpupool_controller.go:125-160 | node by node: each node counts once, for its own pool, with its GPUs and its total and virtual quantities, as ready or not |
| PoolCapacity.OnlyNodeStops | internal/controller/gpupool_controller.go:143-162 | a pool whose only node stops running is stored with one node ready and one not ready, of one |
| PoolCapacity.LastNodeLeaves | internal/controller/gpupool_controller.go:143-162 | a pool without nodes keeps the node and GPU counts it had, and counts as Running |
| PoolCapacity.PoolsSumFlat | internal/controller/gpupool_controller.go:132-152 | pools that claim no less than their nodes add up to no less than all their nodes, and to exactly that if and only if each claims exactly what it has |
| PoolCompaction.CheckNodeCompaction | internal/controller/gpupool_compaction_controller.go:46-128 | the nodes given up are the selectable ones, in order, up to the first node for which a call fails; an error is reported exactly when there is such a node |
| PoolCompaction.SelectedOnlySelectable | internal/controller/gpupool_compaction_controller.go:56-93 | a node is given up if and only if it is in the list, has no connections, runs, has no do-not-disrupt label, was not created over five minutes ahead, and alone leaves the warm-up reserve in both dimensions |
| PoolCompaction.SelectedSplits | internal/controller/gpupool_compaction_controller.go:56-93 | the nodes are given up in the order of the list |
| PoolCompaction.FailsExactly | internal/controller/gpupool_compaction_controller.go:62-123 | a pass fails at a node if and only if its connections cannot be listed, or it is to be given up and cannot be removed |
| PoolCompaction.ShortfallIsBounded | internal/controller/gpupool_compaction_controller.go:82-92 | after k nodes the pool is short of the warm-up by at most k - 1 times the largest of them |
| PoolCompaction.ShortfallIsReached | internal/controller/gpupool_compaction_controller.go:82-92 | that bound is attained by any number of equal idle nodes, so the warm-up is not kept over a pass |
| ClusterReconcile.ReconcileGPUPool | internal/controller/tensorfusioncluster_controller.go:236-339 | the loops of creations, updates and deletions, in any order of the deletions, compute the diff of spec and owned pools |
| ClusterReconcile.FindDefinition | internal/controller/tensorfusioncluster_controller.go:312-322 | found exactly when the spec names the pool |
| ClusterConvergence.UpsertsAt | internal/controller/tensorfusioncluster_controller.go:256-305 | with distinct names, what happens under one pool name is decided by its own definition alone |
| ClusterConvergence.PassConverges | internal/controller/tensorfusioncluster_controller.go:246-338 | a pass settles exactly the divergent pools whose write lands and touches no other; it reports a change exactly when something diverged and an error exactly when a needed write was not acknowledged |
| ClusterConvergence.PassCounts | internal/controller/tensorfusioncluster_controller.go:246-338 | each landed write leaves one divergent pool fewer; without an error the store is the spec |
| ClusterConvergence.PassWrites | internal/controller/tensorfusioncluster_controller.go:266-310 | under an intended name a landed write leaves a new pool with the spec, owner label and reference, or the stored pool with only its spec replaced; else nothing changes |
| ClusterConvergence.PassDeletes | internal/controller/tensorfusioncluster_controller.go:312-330 | a pool of another name goes away if and only if it has the cluster's label and reference and its deletion lands |
| ClusterConvergence.SettledPassIsIdle | internal/controller/tensorfusioncluster_controller.go:246-338 | once the store is the spec, a pass writes nothing and reports neither change nor error |
| ClusterConvergence.RunsConverge | internal/controller/tensorfusioncluster_controller.go:246-338 | over any sequence of passes, whatever fails, those pools stay divergent whose write landed in none, and no other pool is touched |
| ClusterConvergence.RunsSettleExactly | internal/controller/tensorfusioncluster_controller.go:246-338 | the store ends as the spec if and only if every divergent pool had its write land in some pass |
| ClusterConvergence.IntruderBlocks | internal/controller/tensorfusioncluster_controller.go:262-283 | a foreign pool under an intended name makes every pass fail |
| ClusterConvergence.OverriddenLabelBlocks | internal/controller/tensorfusioncluster_controller.go:264-283 | a cluster label that overrides the owner label turns the operator's own pool into such an intruder |
| ClusterStatus.SetConditionReports | api/v1/tensorfusioncluster_funcs.go:26-34 | setting a condition keeps one entry per type, reports its own status and leaves all other types as they were |
| ClusterStatus.PhaseChangesCohere | api/v1/tensorfusioncluster_funcs.go:26-103 | each phase change keeps one condition per type and leaves Ready true exactly when the phase is Running |
| ClusterStatus.PhaseChangesWrite | api/v1/tensorfusioncluster_funcs.go:26-103 | each phase change writes its phase, its entry for readiness, the given conditions with a default reason, and nothing else |
| ClusterStatus.TensorFusionCluster.SetStatusCondition | api/v1/tensorfusioncluster_funcs.go:26-34 | replaces the entry of the same type in place, or appends |
| ClusterStatus.TensorFusionCluster.SetAsPending | api/v1/tensorfusioncluster_funcs.go:26-34 | Pending, with Ready false for a new creation |
| ClusterStatus.TensorFusionCluster.SetAsUnknown | api/v1/tensorfusioncluster_funcs.go:36-51 | Unknown, with Ready false and the error as message |
| ClusterStatus.TensorFusionCluster.SetAsUpdating | api/v1/tensorfusioncluster_funcs.go:53-76 | Updating, with Ready false and the given conditions under a default reason |
| ClusterStatus.TensorFusionCluster.SetAsReady | api/v1/tensorfusioncluster_funcs.go:78-103 | Running, with Ready true and the given conditions under a default reason |
| ClusterStatus.TensorFusionCluster.RefreshStatus | api/v1/tensorfusioncluster_funcs.go:105-130 | totals are the sums over the owned pools; a pool that runs stands in its own slot of the ready list, any other in the not-ready list, in order |
| ClusterStatus.ListedOnce | api/v1/tensorfusioncluster_funcs.go:105-122 | each owned pool is in exactly one of the two lists, according to whether it runs |
| ClusterStatus.ClusterTotalsAreFlat | api/v1/tensorfusioncluster_funcs.go:117-129 | after aggregation the TFlops and VRAM are the flat sums over all nodes of the owned pools; the nodes and GPUs are never less than those sums, and equal if and only if no pool's counter fell to zero |
| ClusterConvergence.UnchangedMeansNamed | internal/controller/tensorfusioncluster_controller.go:236-338 | a pool pass that reports no change wrote nothing, and every owned pool has a definition of its name |
| ClusterConvergence.UnchangedExactly | internal/controller/tensorfusioncluster_controller.go:246-338 | for any spec and store a pass reports no change if and only if the owned pools are exactly those the spec names and each definition's spec is the stored one; it then does nothing |
| ClusterConvergence.DuplicateNamesNeverSettle | internal/controller/tensorfusioncluster_controller.go:256-305 | two definitions of one name with different specs are reported as a change by every pass |
| ClusterConvergence.SettlesExactly | internal/controller/tensorfusioncluster_controller.go:266-330 | some store is left alone by every later pass if and only if definitions of one name have one spec; the pools described by the spec are then such a store |
| ClusterConvergence.RepeatedDefinitionSettles | internal/controller/tensorfusioncluster_controller.go:266-298 | a definition given twice: from an empty store the first pass fails after creating the pool, and all later passes are idle |
| ClusterPass.ReadyListFitsExactly | api/v1/tensorfusioncluster_funcs.go:105-122 | the ready-list write is in range for every listing if and only if there are no more labelled pools than definitions or no labelled pool runs |
| ClusterPass.ReadyListFits | api/v1/tensorfusioncluster_funcs.go:105-122 | when nothing changed and label and owner reference agree, there are at most as many labelled pools as definitions, so every listing fits |
| ClusterPass.StrayLabelBreaksTheList | api/v1/tensorfusioncluster_funcs.go:105-122 | settled pools of distinct names and one running pool more, labelled but without the owner reference: nothing changes, and some listing puts the write out of range |
| ClusterPass.LoneStrayBreaksTheList | api/v1/tensorfusioncluster_funcs.go:105-122 | so for a cluster without pools and a single running stray: the pass reports no error and the write is out of range |
| ClusterPass.PassCoheres | internal/controller/tensorfusioncluster_controller.go:64-181 | a pass with any outcomes keeps one condition per type, and Ready true exactly while Running |
| ClusterPass.RunsCohere | internal/controller/tensorfusioncluster_controller.go:64-181 | so does every run of passes |
| ClusterPass.LeavesUpdatingExactly | internal/controller/tensorfusioncluster_controller.go:136-168 | Updating becomes Running exactly in a pass in which nothing changed, all pools of the spec are there and run, and the calls succeed; the retry count is then zero |
| ClusterPass.FromNewExactly | internal/controller/tensorfusioncluster_controller.go:95-102 | a new or unknown cluster becomes Pending if and only if it can be read and the write lands; else it stays |
| ClusterPass.FromSettledExactly | internal/controller/tensorfusioncluster_controller.go:104-180 | a pending or running cluster becomes Updating if and only if an update is reported and written, Running with the new summary if and only if there is nothing to do and its pools are listed and that is written; else it stays |
| ClusterPass.FromUpdatingExactly | internal/controller/tensorfusioncluster_controller.go:104-168 | an updating cluster stays so while updates are reported; with nothing to do it becomes Running without retries when all pools run, and counts one more retry when not |
| ClusterPass.UpdateMoves | internal/controller/tensorfusioncluster_controller.go:199-234 | a reported update moves to Updating; a vendor that was found is stored with its hash and condition, a lost one with its message |
| ClusterPass.VendorTestedOnce | internal/controller/tensorfusioncluster_controller.go:205-231 | a vendor that was found is not tested again until its configuration changes |
| ClusterPass.Store.UpdateStatus | internal/controller/tensorfusioncluster_controller.go:383-395 | skipping the write of an unchanged status leaves the same status stored as writing it |
| ClusterPass.ReconcileCloudVendorConnection | internal/controller/tensorfusioncluster_controller.go:199-234 | the vendor is tested exactly when its configuration changed; an unreachable vendor is stored as a condition at once, and its hash is not, so it is tested again |
| ClusterPass.CheckTFClusterComponentsReady | internal/controller/tensorfusioncluster_controller.go:341-381 | passes exactly when there are as many pools as definitions and all of them run |
| ClusterPass.CheckAndRefresh | internal/controller/tensorfusioncluster_controller.go:135-180 | the summary that is stored is that of the listed pools; otherwise the stored summary stays |
| ClusterPass.Reconcile | internal/controller/tensorfusioncluster_controller.go:64-181 | the running pass computes the status and the pools of the specification for every outcome of its calls, and never writes the ready list out of range |
| ConnectionWatcher.Channel.Offer | internal/server/router/connection.go:138-145 | an update goes into a free slot and is dropped otherwise; what was delivered stays the in-order sublist of the updates offered |
| ConnectionWatcher.Channel.Receive | internal/server/router/connection.go:48-53 | taking an update loses none and reorders none, also after the channel was closed |
| ConnectionWatcher.Channel.DeliversInOrder | internal/server/router/connection.go:135-146 | what a channel delivered is an in-order subsequence of what it was offered, all for its own key |
| ConnectionWatcher.Watcher.Subscribe | internal/server/router/connection.go:89-97 | a new open channel, registered under its key only |
| ConnectionWatcher.Watcher.Cancel | internal/server/router/connection.go:99-112 | the channel is closed and forgotten, no key is left with an empty set, and a second cancel panics exactly when the key still has subscribers |
| ConnectionWatcher.Watcher.Deliver | internal/server/router/connection.go:134-147 | each subscriber of the key is offered the update exactly once, full or not, and no other channel changes |
| WatcherRuns.CancelledExactly | internal/server/router/connection.go:99-112 | the history counts a subscription as cancelled if and only if some step cancelled it after it was made |
| WatcherRuns.OfferedExactly | internal/server/router/connection.go:134-147 | a subscription was offered all the watch events for its key between its subscription and its cancellation, each once and in order |
| WatcherRuns.DeliveredInOrder | internal/server/router/connection.go:135-146 | what a subscriber received plus what is in its slot is an in-order subsequence of those watch events |
| WatcherRuns.OneCancelNeverPanics | internal/server/router/connection.go:99-112 | when no subscription is cancelled twice no step panics, so each channel is closed at most once |
| WatcherRuns.Subscribe | internal/server/router/connection.go:89-97 | the history with the subscription is that of the channels with the new one |
| WatcherRuns.Cancel | internal/server/router/connection.go:99-112 | the channel is closed and forgotten; it panics if and only if it was cancelled before and its key has another subscriber |
| WatcherRuns.Deliver | internal/server/router/connection.go:134-147 | each open subscription for the key is offered the event, which goes into its slot if that is free, and nothing else changes |
| WatcherRuns.Take | internal/server/router/connection.go:48-53 | the subscriber gets what the history says is in its slot, and the slot is empty |
| WatcherRuns.Run | internal/server/router/connection.go:89-147 | after any steps there is one channel for each subscription, open and registered under its one key or cancelled, closed and forgotten, with exactly the offers, receptions and slot of its history; each step returns and panics as the history says |

## Left out

- NodeProvisioning.RemovedOnlyAfterTermination: covers GPUNodes that the operator provisions; for those selected automatically the hook does nothing. Reading the cluster and finding the provider are part of the hook's one reply.
- Other steps between the calls of one pass are not modelled: a pass is atomic towards the environment, and reads of a stale informer cache inside a pass are left out. The scheduler's lock makes each of its calls atomic as well.
- ConnectionLifecycle.ScheduledPassKeepsQuantities: holds of reads that yield what is stored; the informer may hand out the object that the scheduler debits in place, for which SharedObjectWritesCache says what is written.
- PoolCapacity.GPUPool.ReconcileCurrentCapacityAndReadiness: the status that is read and the status that the patch meets are the same; conditions and other fields of the pool are left out. The merge patches of the cluster's status and of a GPUNode's instance leave out nothing that the model writes, since each such field is always sent or not empty.
- NaiveScheduler.OnUpdate: a new object that shares its quantities with another registered GPU is excluded, because each object from the informer is decoded on its own.
- A GPU without an Available value makes the source panic, as do a compaction without warm-up resources, a pool without a node provisioner and a requirement without values; these are excluded by type or by `requires`.
- Retry attempts after a conflict are a sequence of any length; the source gives up after a fixed number of them. The backoff between retries, requeue delays and logging are left out.
- Node discovery, which resets a GPU's stored Available to its capacity on every run, is left out of clean runs; in general runs it shows as informer drift.
- NodeProvisioning.OrphansExactly: the protocol is a state machine on values, since its goroutines interleave; the shared list of errors, to which the source appends without a lock, is not part of the state, and neither is the Kubernetes node that an instance joins as.
- A provider that returns no instance id (the AWS provider returns an empty one) is outside the model.
- CapacityPlanner.FindCheapest: costs and ratios are exact; rounding in floating point is left out, and so are random node names. `maxCost` stands for the largest floating-point number.
- ScaleUp.RoundsAreBounded: rounds start from totals equal to the node sums. The planner reads the pool object fetched before aggregation, so after a failed creation round it can plan from stale totals; such rounds are not modelled. The available quantities of a pool are an input, since no code in the operator computes them.
- PoolCompaction.CheckNodeCompaction: holds of the list of nodes it is given. The source lists the nodes whose pool label is "true" (internal/controller/gpupool_compaction_controller.go:52), while the provisioner puts the pool's name in that label (internal/controller/gpupool_node_provision.go:135), so the list never has the nodes that the operator provisions. A removal that takes effect although its call fails counts as not given up, and the two ways of removing a node (deleting it, or marking it for Kubernetes) are one reply. The connections of a node are looked up by a label that no code in the repository puts on a connection; the model takes the number found as an input.
- ClusterReconcile.ReconcileGPUPool: a deleted pool is gone before the next pass; the pool's own finalizer is not modelled. Specs are opaque values with an equality. Two writes under one name in one pass get the same reply.
- ClusterPass.Reconcile: retry delays and events are left out; the time-series database step always reports no change, as in the source. The cluster's own deletion is part of `readable` in that nothing further happens.
- ConnectionWatcher.Watcher.Deliver: the map, its sets and the slots change under a lock, so each operation is one step. The HTTP handler, which may wait for an update that was dropped or came before it subscribed, and the restart of a closed watch are not modelled.
- Pod webhook, worker pod templates, port choice, hashing of configurations, node hypervisor and discovery jobs, virtual capacity and provider SDK code would only add easy members.
