# KubeNAS: a verified model of the operator and the node agent

KubeNAS turns the disks of a node into storage: an operator reconciles Disk, Array, Pool and Share
resources, posts operations for a privileged node agent, chooses disks for new data, keeps failure records,
and prints SnapRAID configurations. This project models that decision logic and proves what it promises. The
Kubernetes API is a map of objects with specs and statuses; the host is a mount table and the text of
/etc/fstab; outside calls are parameters. `controllers/` is modelled; `operator/controllers/` is a copy of it.

Code that changes things step by step (reconcilers, agent, mounts, loops, printers) is written as methods and classes.
Each is proved equal to a step function or a stated property, and the theorems are about runs of those functions.

| module | part of the system |
|---|---|
| `PlacementRuns`, `Sorting` | runs of select, write, select; descending sorts that may order equal keys any way |
| `Scheduler`, `Placement`, `PlacementTheorems` | the two placement schedulers, whole runs of each, their agreement |
| `Text`, `Wrappers`, `Api`, `Conditions` | decimal and line text, result types, resources, the Ready condition |
| `Cascade`, `Controllers`, `Outcomes`, `Settled`, `Publishing` | the Disk, Array, Pool and Share reconcilers: steps, methods, what each leaves when calls fail, convergence, settled states, published objects |
| `Host`, `AgentOperations`, `AgentLiveness`, `NodeAgent` | mounts and fstab, the operation protocol and what it guarantees to happen, the agent |
| `Rebalance`, `Failures`, `Smart` | rebalance jobs, failure records, SMART health |
| `Snapraid`, `SnapraidReader`, `SnapraidRender`, `StatusIndex` | printers, reader, disk status index |

## What the code does not do

Where a promise fails, the model keeps the code as it is and proves exactly when the promise holds.

- Waits in a store that checks resource versions. Both updates of an execution start from the same listed copy
  (main.go:301 and 341). With versions checked and the first update delivered, no record is ever decided and every
  wait times out (`CheckedStoreNeverDecides`); what a report leaves otherwise is in `WhatAReportLeaves`.
- Parity operations. The operator posts `parity-…` operations (kubernetes_agent_client.go:103) and
  docs/architecture.md:66 gives the agent their execution; the agent knows only mounts and fails all others, so such a wait never
  completes (`UnknownNeverCompletes`).
- Repeated work. A restart forgets what was processed: every record is handed out again and a finished one goes back from
  Success to Running (`RestartRunsAgain`). Two posts to one node in the same millisecond: the second is rejected, and that is the
  only reason for a rejection (`RejectedIffPostedBefore`).
- Replay after a restart. Operations replay harmlessly, as lists of any length from any table without a point mounted over
  itself, exactly when none of them is a stacking mount (`ReplayableIff`): a pool mount that goes through although its
  umount failed, or a mount that goes through although the mount table could not be read. Without stacking mounts,
  all lists can be replayed exactly when no point is mounted over itself at the start (`ReplayHarmlessIff`). Such a
  replay adds an fstab line exactly when a mount that failed finds its point taken by a later one and its device is not
  named in the fstab the first run left (`ReplayAddsNoLineIff`).
- Default weights. docs/architecture.md:102-106 and the controllers give load 0.2 and health 0.1; the standalone engine has
  these two the other way round. With the free ratio as the engine's load score, what one disk has over another in free ratio and
  health, df and dh, counts as 4 df + dh in the engine and 9 df + dh in the controllers. The two defaults admit the
  same choices on every sublist of a list exactly when for no two eligible disks one of these is negative and the other not (`DefaultChoicesAgreeIff`,
  for two disks `PairChoicesAgreeIff`; an example is `DefaultsCanDisagree`).
  The engine's load score is a third measure, so its winner can be beaten in both free space and health (`EngineUndominatedIff`).
- Eligibility. The two filters differ exactly on Ready disks with a negative capacity (`KeepAgreesIff`).
- Pools. The mounted flag tells whether a pool was ever Ready, not whether it is (`MountedIffWasReady`), so a share is
  Ready on a pool that is not exactly when that pool was Ready before (`ReadyShareOnUnreadyPoolIff`, `ReadyShareOnPendingPool`).
- Conditions. The phase setters turn the last condition False, not the Ready one; that is right exactly when no Ready entry stands in
  front of another entry (`PatchIsTruthfulIff`), which holds in every run without another condition writer (`RunsKeepConditions`).
- Failure records. Resolved is never left, so a later degradation is not shown as open (`ResolvedIsFinal`); the advice
  is never updated (`AdviceFitsIff`).
- Failure reasons. The reason is fixed when the severity changes, so a Failed disk whose health falls below 0.1 later keeps
  SMART_PREFAIL (`ReasonTellsHistory`).
- Unreported devices. A device the agent never reported passes for healthy, and its disk becomes Ready if a mount works (`UndiscoveredDisk`).
- SMART. Attribute 198 listed before a smaller 187 is overwritten (`UncorrectableIsLargerIff`). The comments speak of exponential and
  logarithmic penalties (smart.go:155-171); the code is linear with caps, which is what is modelled.
- SnapRAID text. A newline inside a path or pattern breaks the round trip, nothing else does (`ReadsBackIff`).
- Status keys. A path containing '_' can share its key with another device (`CollideIff`, `OwnStatusIff`).
- Published shares. When a pod must be replaced and its replacement is refused, a failed publication removes the
  pod (`TakesAwayIff`).

## Model

| member | source | states |
|---|---|---|
| Sorting.FirstIsMaximum | storage/scheduler/scheduler.go:89-90 | The first entry of any descending order is a maximum, however equal keys are ordered |
| Sorting.MaximumCanBeFirst | controllers/placement_failure_controllers.go:102-106 | Conversely, every maximum comes first in some descending order the sort may produce |
| Sorting.ScalingKeepsFirst | storage/scheduler/scheduler.go:89 | Scaling all values by a positive factor does not change which of them can come first |
| PlacementRuns.FirstBestOfKept | storage/scheduler/scheduler.go:71-111 | Scanning the filtered list finds the first maximum of the original list among eligible disks |
| PlacementRuns.OneBlock | storage/scheduler/scheduler.go:103-111 | In a fill-first run every disk is chosen in one contiguous block |
| PlacementRuns.LeavesOnlyWhenDropped | storage/scheduler/scheduler.go:71-111 | Fill-first moves on exactly when the disk it was filling became ineligible |
| PlacementRuns.NeverReturns | storage/scheduler/scheduler.go:71-80 | A disk dropped by the filter is never chosen again in the run |
| PlacementRuns.BlockOrder | storage/scheduler/scheduler.go:103-111 | Blocks follow the initial used bytes, largest first, ties by list position |
| PlacementRuns.FewSwitches | docs/architecture.md:97 | A fill-first run switches fewer times than there are disks |
| PlacementRuns.SpreadBounded | storage/scheduler/scheduler.go:93-101 | Least-used never lets the spread of available bytes exceed the larger of its initial value and the largest write |
| PlacementRuns.Levels | storage/scheduler/scheduler.go:93-101 | After as many writes as the disks' initial excess over a common lower bound, the spread is at most the largest write |
| Scheduler.FilterEligible | storage/scheduler/scheduler.go:71-80 | Keeps exactly the eligible disks with positive capacity and free space, in order |
| Scheduler.SelectBalanced | storage/scheduler/scheduler.go:82-91 | A listed disk of maximal score for whichever descending permutation the sort produces |
| Scheduler.SelectLeastUsed | storage/scheduler/scheduler.go:93-101 | The first disk with the most available bytes |
| Scheduler.SelectFillFirst | storage/scheduler/scheduler.go:103-111 | The first disk with the most used bytes |
| Scheduler.SelectTiered | storage/scheduler/scheduler.go:113-120 | The first solid-state disk, else the first with the most available bytes |
| Scheduler.Select | storage/scheduler/scheduler.go:53-69 | Fails exactly when no listed disk is eligible; otherwise returns a disk of the original list that its strategy promises |
| Scheduler.WinnersAreMaxima | storage/scheduler/scheduler.go:82-91 | Over all orders the unstable sort may produce, exactly the disks of maximal score can win |
| Scheduler.ScalingKeepsWinners | storage/scheduler/scheduler.go:82-91 | Scaling all weights by a positive factor leaves the set of possible winners as it is |
| Placement.FilterEligible | controllers/placement_failure_controllers.go:56-73 | Keeps exactly the Ready disks with non-zero capacity and at least 5% free, in order |
| Placement.SelectBalanced | controllers/placement_failure_controllers.go:77-107 | A listed disk of maximal weighted score, with the policy's weights or the defaults |
| Placement.SelectLeastUsed | controllers/placement_failure_controllers.go:109-117 | None exactly for an empty list, else the first disk with the most available bytes |
| Placement.SelectFillFirst | controllers/placement_failure_controllers.go:119-133 | None exactly for an empty list, else the first disk with the most used bytes |
| Placement.SelectTiered | controllers/placement_failure_controllers.go:135-143 | The first non-rotational disk, else the least-used one |
| Placement.SelectDisk | controllers/placement_failure_controllers.go:35-53 | Fails exactly when no candidate is eligible; otherwise returns a candidate its strategy promises |
| Placement.BalancedIsUndominated | controllers/placement_failure_controllers.go:77-107 | With non-negative weights, not all zero, no eligible disk beats the winner in both free ratio and health |
| Placement.WinnersAreMaxima | controllers/placement_failure_controllers.go:102-106 | Over all orders the unstable sort may produce, exactly the disks of maximal score can win |
| Placement.ScalingKeepsWinners | controllers/placement_failure_controllers.go:77-107 | Scaling all weights by a positive factor leaves the set of possible winners as it is |
| PlacementTheorems.EngineFillFirstDrains | storage/scheduler/scheduler.go:71-111 | Every fill-first run of the engine drains one disk before rotating: contiguous blocks, left only when ineligible and for good, ordered by initial use, fewer switches than disks |
| PlacementTheorems.DiskFillFirstDrains | controllers/placement_failure_controllers.go:119-133 | The same for every run of the controllers' scheduler, whose disks drop out at 5% free |
| PlacementTheorems.EngineLeastUsedLevels | storage/scheduler/scheduler.go:93-101 | Every least-used run of the engine: bounded spread, levelled after the initial excess, a write that fits any eligible disk fits the chosen one |
| PlacementTheorems.DiskLeastUsedLevels | controllers/placement_failure_controllers.go:109-117 | The same for the controllers' scheduler |
| PlacementTheorems.EngineChoices | storage/scheduler/scheduler.go:71-111 | Least-used and fill-first in the disks' own fields: the first eligible disk with the most available, or most used, bytes |
| PlacementTheorems.EngineTieredChoice | storage/scheduler/scheduler.go:113-120 | The first eligible solid-state disk, or the least-used choice when there is none |
| PlacementTheorems.EngineBalancedChoice | storage/scheduler/scheduler.go:82-91 | No eligible disk exceeds the winner in free ratio, health and load score, each times its weight |
| PlacementTheorems.DiskChoices | controllers/placement_failure_controllers.go:56-133 | The same for the controllers, whose disks must be Ready with 5% free |
| PlacementTheorems.DiskTieredChoice | controllers/placement_failure_controllers.go:135-143 | The same for the tiered strategy of the controllers |
| PlacementTheorems.DiskBalancedChoice | controllers/placement_failure_controllers.go:77-107 | A policy's own weights decide: free ratio counts with free-space and load weight, health with its own; without them 0.9 and 0.1 |
| PlacementTheorems.EngineUndominatedIff | storage/scheduler/scheduler.go:82-91 | The engine's winner is never beaten in both free ratio and health exactly when the load weight is zero |
| PlacementTheorems.KeepAgreesIff | storage/scheduler/scheduler.go:71-80 | With eligible meaning Ready and 5% free, the two filters agree on a disk except exactly for Ready disks of negative capacity with no more than 5% of it free |
| PlacementTheorems.FiltersAgree | controllers/placement_failure_controllers.go:56-73 | With non-negative capacities both filters keep the same disks in the same order |
| PlacementTheorems.ScoresAgree | controllers/placement_failure_controllers.go:89-99 | With matched weights and the free ratio as load score, the balanced scores coincide |
| PlacementTheorems.EnginesAgree | controllers/placement_failure_controllers.go:35-143 | For every strategy and list, the positions one engine may choose are exactly those the other may choose |
| PlacementTheorems.DefaultsAgreeIff | storage/scheduler/scheduler.go:48-50 | The two built-in default weightings give a disk the same score exactly when its health equals its free ratio |
| PlacementTheorems.PairChoicesAgreeIff | controllers/placement_failure_controllers.go:78-80 | On two eligible disks both defaults admit the same choices exactly when 4 df + dh and 9 df + dh are both negative or both not, either way round |
| PlacementTheorems.DefaultChoicesAgreeIff | storage/scheduler/scheduler.go:48-50 | Both defaults admit the same choices on every sublist of a list exactly when no two of its eligible disks are ordered differently |
| PlacementTheorems.DefaultsCanDisagree | docs/architecture.md:102-106 | Two disks, ordered differently, on which the defaults choose differently |
| Conditions.ConditionList.Set | controllers/agent_client.go:86-94 | Replaces the first condition of the kind in place, or appends |
| Conditions.ConditionList.SetReady | controllers/array_controller.go:140-151 | Sets Ready to True, then turns the last element False unless the phase is Ready |
| Conditions.SetIsRead | controllers/agent_client.go:86-94 | Afterwards a reader sees the new status for that kind and the old one for every other kind |
| Conditions.PatchTwice | controllers/pool_controller.go:134-145 | Writing the same phase again leaves any condition list as it is |
| Conditions.PatchIsTruthfulIff | controllers/share_controller.go:162-168 | The last-element patch reports the phase truthfully exactly when the phase is Ready or no Ready entry precedes another entry |
| Cascade.RemoveStringRemoves | controllers/agent_client.go:105-113 | The string is gone, and a list without it is unchanged |
| Cascade.RemoveStringKeepsOrder | controllers/agent_client.go:105-113 | Every other entry stays, in order and as often as before |
| Cascade.OthersDoNotDisturb | controllers/share_controller.go:30-57 | An object already at its fixed point stays there when any object of the same or a higher layer is reconciled |
| Cascade.GoalReached | controllers/pool_controller.go:33-111 | Reconciling an object whose lower layers are at their fixed points brings it to its own |
| Cascade.RoundAdvances | controllers/array_controller.go:32-86 | A round that covers every object, in any order, settles one more layer |
| Cascade.FiveRoundsSettle | controllers/disk_controller.go:34-100 | From any cluster, with outside answers fixed, five rounds in any order reach a state no later reconcile sequence changes |
| Outcomes.DeletedDisk | controllers/disk_controller.go:102-117 | A disk being deleted disappears exactly when it has no other finalizer; nothing else of it changes |
| Outcomes.NewDisk | controllers/disk_controller.go:51-57 | A new disk gets the finalizer and nothing else |
| Outcomes.UnreportedDisk | controllers/disk_controller.go:65-69 | Without an answer from the agent a disk is Degraded and keeps everything else known of it |
| Outcomes.ReportedDisk | controllers/disk_controller.go:71-131 | With a report, for every outcome of the mount: exactly when the disk is Failed, Ready or Degraded, each reported field, the mounted flag and the condition's reason |
| Outcomes.UndiscoveredDisk | controllers/kubernetes_agent_client.go:38-50 | A device that was never reported counts as healthy and empty; its mount decides between Ready and Degraded |
| Outcomes.UnhealthyInOrder | controllers/array_controller.go:56-62 | The degraded list takes each disk's name in order, exactly if its phase is Degraded or Failed |
| Outcomes.ReconciledArray | controllers/array_controller.go:32-86 | Exactly when an array is Pending, Ready or Degraded, for every answer to the configuration push, with its degraded list and reason |
| Outcomes.BranchesInOrder | controllers/pool_controller.go:57-72 | Members are the mounted Ready data disks, in order |
| Outcomes.TotalsAdd | controllers/pool_controller.go:70-71 | Every member counts once in the byte totals |
| Outcomes.ReconciledPool | controllers/pool_controller.go:33-111 | Exactly when a pool is Ready, Degraded or Pending, for every outcome of the mergerfs mount; unless Ready it keeps members, totals and flag |
| Outcomes.SettledPoolReadyIff | controllers/pool_controller.go:98-110 | In any settled cluster, whatever fails, a pool is Ready exactly when its array is Ready, a data disk is usable and its mount works |
| Outcomes.ReconciledShare | controllers/share_controller.go:30-57 | Exactly when a share is Pending, Degraded or Ready, for every outcome of the publication, with the names it shows |
| Outcomes.FlagRises | controllers/pool_controller.go:98-108 | A mounted flag rises exactly in a reconcile of that pool whose mergerfs mount works |
| Outcomes.MountedIffMergerfsWorked | controllers/pool_controller.go:98-108 | In every run a pool not mounted at i is mounted at j exactly if in between its mergerfs mount worked |
| Settled.FourRoundsDoNotSuffice | controllers/disk_controller.go:48-57 | For a whole family of clusters four covering rounds leave work, so five is the exact bound |
| Settled.SettledDisk | controllers/disk_controller.go:63-100 | A settled disk shows its whole report and the phase computed from it, is mounted exactly if the agent says so or it is Ready, and its Ready condition tells the phase |
| Settled.SettledArray | controllers/array_controller.go:44-85 | A settled array is Ready exactly when every data and parity reference resolves to a disk whose computed phase is Ready |
| Settled.SettledDegradedList | controllers/array_controller.go:56-66 | When all references resolve, the degraded list names the disks whose computed phase is not Ready, in reference order, and the array is Ready exactly when it is empty |
| Settled.SettledPool | controllers/pool_controller.go:50-110 | A settled pool on an existing array is Ready exactly when the array lists data disks and all its references are sound; it then has all data disks in order, the sums of the reported bytes, and is mounted |
| Settled.SettledShare | controllers/share_controller.go:30-57 | A settled share is Ready, and published, exactly when its pool exists and carries the mounted flag; an SMB or NFS share then names its pod and service |
| Settled.MountedSticks | controllers/pool_controller.go:134-150 | In no run does a reconcile clear a pool's mounted flag, nor does one empty its member list |
| Settled.MountedIffWasReady | controllers/pool_controller.go:105-110 | In every run from a pool neither mounted nor Ready, it is mounted exactly if its phase was Ready at some moment so far |
| Settled.ReadyShareOnPendingPool | controllers/share_controller.go:39-41 | A settled cluster with a Ready share on a Pending pool |
| Settled.ReadyShareOnUnreadyPoolIff | controllers/share_controller.go:39-56 | When settled, that happens exactly when the pool is not Ready but carries the flag; at the end of a run that began with the pool neither mounted nor Ready, exactly when the pool was Ready before and is not now |
| Settled.StepKeepsConditions | controllers/disk_controller.go:134-142 | Every reconcile keeps each condition list empty or a single Ready entry matching the phase |
| Settled.RunsKeepConditions | controllers/array_controller.go:140-151 | At every point of every run from empty conditions, with changing outside answers, each object has no condition before its first status write and exactly one ever after: Ready, True exactly when the phase is Ready |
| Controllers.Store.ReconcileDisk | controllers/disk_controller.go:34-61 | Makes exactly the cascade's disk step, including finalizer and deletion, or nothing when the write is refused; asks for an unmount exactly for a deleted, mounted disk |
| Controllers.Store.ReconcileNormal | controllers/disk_controller.go:63-100 | Stores the status step of the disk and touches no other object |
| Controllers.Store.SetPhase | controllers/disk_controller.go:134-148 | Stores the given status with the phase and a Ready condition that is True exactly for Ready |
| Controllers.Store.ReconcileDelete | controllers/disk_controller.go:102-117 | Asks for an unmount exactly if the disk is mounted; the disk disappears exactly when the finalizer was all it had, otherwise it loses it |
| Controllers.Store.ReconcileArray | controllers/array_controller.go:32-86 | Makes exactly the cascade's array step or, with a refused write, none |
| Controllers.Store.ResolveDiskRefs | controllers/array_controller.go:89-103 | The named disks in order, or nothing if any is missing |
| Controllers.Store.SetArrayPhase | controllers/array_controller.go:140-156 | Stores the given status with the phase and the patched conditions |
| Controllers.Store.ReconcilePool | controllers/pool_controller.go:33-111 | Makes exactly the cascade's pool step or, with a refused write, none |
| Controllers.Store.CollectBranches | controllers/pool_controller.go:57-75 | Names and mount points of exactly the mounted Ready data disks in order, with their byte sums |
| Controllers.Store.SetPoolPhase | controllers/pool_controller.go:134-150 | Stores the given status with the phase and the patched conditions |
| Controllers.Store.ReconcileShare | controllers/share_controller.go:30-57 | Makes exactly the cascade's share step or, with a refused write, none |
| Controllers.Store.SetSharePhase | controllers/share_controller.go:162-173 | Stores phase and conditions, and withdraws published unless Ready |
| Controllers.ContainsString | controllers/agent_client.go:96-103 | True exactly when the string is listed |
| Controllers.RemoveFrom | controllers/agent_client.go:105-113 | The list without every occurrence of the string |
| Controllers.RemovesAllIff | controllers/disk_controller.go:112-116 | Nothing is left exactly when the finalizer was all the list held |
| Publishing.ObjectStore.UpsertObject | controllers/share_controller.go:139-150 | Succeeds exactly as the server answers allow; then only this object changed, to the wanted content; else nothing changed |
| Publishing.ObjectStore.UpsertPodObject | controllers/share_controller.go:108-130 | The same with replacement of an immutable pod, whose refusal loses the pod |
| Publishing.ObjectStore.PublishShare | controllers/share_controller.go:59-106 | ConfigMap, Pod, Service in order; the first error ends it |
| Publishing.SharesDoNotCollide | controllers/share_controller.go:61-76 | Different shares, or one share under two protocols, never write the same object |
| Publishing.PublicationLeaves | controllers/share_controller.go:59-106 | For all server answers, exactly which of the three objects are written, which stay and whether the pod is lost; success exactly if all three were written |
| Publishing.LastPublicationShows | controllers/share_controller.go:59-106 | After any history, a share whose last publication succeeded still has exactly the objects it wanted |
| Publishing.TakesAwayIff | controllers/share_controller.go:118-126 | A publication removes an object exactly when the pod had to be replaced and its replacement was refused |
| Host.Machine.IsMounted | node-agent/pkg/disk/disk.go:159-179 | True exactly when the mount table can be read and some line of it has the point |
| Host.Machine.MountDevice | node-agent/pkg/disk/disk.go:119-141 | Mounts only at a point not seen in use; succeeds exactly when the directory exists and the point is seen in use or the command works |
| Host.Machine.UnmountDevice | node-agent/pkg/disk/disk.go:144-156 | Takes the top mount away; succeeds exactly when nothing is seen mounted or umount works |
| Host.Machine.MountMergerFS | node-agent/pkg/disk/disk.go:206-230 | Unmounts once, ignoring the result, then mounts on top of whatever is left |
| Host.Machine.EnsureFstabEntry | node-agent/pkg/disk/disk.go:234-256 | Appends a line exactly when the file can be read and written and does not contain the device |
| Host.Machine.Perform | node-agent/cmd/kubenas-node-agent/main.go:303-332 | The operation's change of mounts and fstab, and its error, for every outcome of the commands |
| Host.JobsEffect | node-agent/pkg/disk/disk.go:119-230 | What a whole list of operations does to one point: keep it, fill it if free, or set it |
| Host.SuccessAchieves | node-agent/cmd/kubenas-node-agent/main.go:303-332 | A successful operation leaves its purpose on the host: the disk's point mounted and its device in the fstab, the pool on top, the top mount gone; an unknown operation never succeeds |
| Host.SucceedsIffNeedsMet | node-agent/cmd/kubenas-node-agent/main.go:303-338 | A known operation succeeds exactly when everything it needed on this host went well; the umount before a pool mount is not needed |
| Host.AllWellSucceeds | node-agent/cmd/kubenas-node-agent/main.go:303-338 | With every command and file access going well, every known operation succeeds on every host |
| Host.FailureLeaves | node-agent/pkg/disk/disk.go:119-256 | What a failed operation leaves: never an fstab line; a disk stays mounted unlisted if only its fstab entry failed; a failed pool mount may have taken the old one away |
| Host.OtherPointsStay | node-agent/pkg/disk/disk.go:119-230 | No operation touches what is mounted at another point |
| Host.FstabLineReadsBack | node-agent/pkg/disk/disk.go:235 | An appended line reads back as device, point, filesystem, default options, no dump, no check |
| Host.ReplayKeepsMounts | node-agent/cmd/kubenas-node-agent/main.go:294-340 | Running a list without stacking mounts again from its end state ends with the same mounts, in the same order, at every point |
| Host.ReplayHarmlessIff | node-agent/pkg/disk/disk.go:144-156 | All lists without stacking mounts can be replayed exactly when no point is mounted over itself at the start |
| Host.ReplayableIff | node-agent/pkg/disk/disk.go:206-230 | All lists over a set of operations with outcomes replay harmlessly from every table without a point mounted over itself exactly when the set has no stacking mount |
| Host.StackingReplayHarms | node-agent/pkg/disk/disk.go:124-137 | Every stacking mount, replayed from an empty table, leaves two mounts where there was one |
| Host.FailedUmountStacks | node-agent/pkg/disk/disk.go:211-214 | A pool mount whose umount fails is one: its replay stacks a second mount |
| Host.ReplayKeepsFstabIff | node-agent/pkg/disk/disk.go:234-256 | For any table and outcomes, a replay adds no fstab line exactly when no job is a late success |
| Host.ReplayAddsNoLineIff | node-agent/cmd/kubenas-node-agent/main.go:305-314 | Without stacking mounts: exactly when no failing mount has a point that is free at the start, untouched before it and taken by the end, and a device the fstab left by the first run does not name |
| Host.ReplayCanAddLine | node-agent/pkg/disk/disk.go:124-126 | A list of two mounts whose replay adds a line |
| AgentOperations.RunKeepsInv | node-agent/cmd/kubenas-node-agent/main.go:274-342 | The protocol's invariant holds at every point of every interleaving of posts, agent steps, restarts and outside changes of the host |
| AgentOperations.SuccessMeansRan | node-agent/cmd/kubenas-node-agent/main.go:334-340 | Whenever a record says Success, that operation's action ran earlier without error |
| AgentOperations.OncePerLife | node-agent/cmd/kubenas-node-agent/main.go:294-296 | In one agent lifetime an operation runs at most once |
| AgentOperations.PostsNeverShare | controllers/kubernetes_agent_client.go:161-169 | Two accepted posts never share a record |
| AgentOperations.WaitForOperationState | controllers/kubernetes_agent_client.go:131-159 | The verdict of the first decisive reading among 24 polls, cancelled if the context ends in a pause before it, a timeout when there is neither |
| AgentOperations.ReadingsDecide | controllers/kubernetes_agent_client.go:134-151 | Which readings end a wait and with what: other read errors, Success and Failed, never an absent or unfinished record |
| AgentOperations.ResultOfPollsMade | controllers/kubernetes_agent_client.go:131-159 | A wait that is not cancelled has exactly the result of the polls it made |
| AgentOperations.CompletedMeansRanSincePost | controllers/kubernetes_agent_client.go:58-65 | When post and wait report completion, the action ran without error after the post |
| AgentOperations.CompletedMeansAchieved | controllers/disk_controller.go:86-97 | It ran on the posted operation, and right after it the host was as the operation demands: a mounted disk's point really was mounted and its device in the fstab at some moment since the post |
| AgentOperations.WhatAReportLeaves | node-agent/cmd/kubenas-node-agent/main.go:299-341 | State and message after claim, action and report, for every combination of delivered updates and checked versions: Success exactly when everything the operation needed went well |
| AgentOperations.CheckedStoreNeverDecides | node-agent/cmd/kubenas-node-agent/main.go:301-341 | With versions checked and claims delivered, every wait times out |
| AgentOperations.ProcessedStaysPut | node-agent/cmd/kubenas-node-agent/main.go:294-296 | A processed operation's record does not change until the agent restarts |
| AgentOperations.LostReportTimesOut | node-agent/cmd/kubenas-node-agent/main.go:340-341 | A wait on a processed operation whose report was lost times out unless the agent restarts |
| AgentOperations.ReportInTimeIsReturned | controllers/kubernetes_agent_client.go:131-159 | Without a restart since the post, a wait with any poll after an accepted report returns what was reported |
| AgentOperations.UnknownNeverCompletes | controllers/kubernetes_agent_client.go:102-109 | In no run does a wait for an operation type the agent does not know complete |
| AgentLiveness.OpNameIsInjective | controllers/kubernetes_agent_client.go:166 | Different nodes or different milliseconds give different record names |
| AgentLiveness.RejectedIffPostedBefore | controllers/kubernetes_agent_client.go:166-168 | A post is rejected exactly when something was posted to the same node in the same millisecond before |
| AgentLiveness.PostIsListed | node-agent/cmd/kubenas-node-agent/main.go:275-277 | After an accepted post the list of the addressed node holds the record, Pending with the posted operation, and no other node's list does |
| AgentLiveness.DrainedIsAnswered | node-agent/cmd/kubenas-node-agent/main.go:274-342 | In a store that takes every update, once the node's agent has listed after the post and emptied its list, the record shows the outcome of acting on the operation |
| AgentLiveness.WaitIsAnswered | controllers/kubernetes_agent_client.go:131-159 | A wait with a poll after that returns it: completion exactly when everything the operation needed went well, else the error |
| AgentLiveness.AgentDrains | node-agent/cmd/kubenas-node-agent/main.go:283-285 | While there is work an agent step is possible and leaves less, so the list does get emptied |
| AgentLiveness.RestartRunsAgain | node-agent/cmd/kubenas-node-agent/main.go:294-301 | A restart forgets what was processed and nothing else: records are handed out again and a finished one returns to Running |
| NodeAgent.ConfigMaps.PostAgentOp | controllers/kubernetes_agent_client.go:161-169 | Creates the record of the protocol's post step, and fails exactly when the name is taken |
| NodeAgent.Agent.ExecuteOperation | node-agent/cmd/kubenas-node-agent/main.go:289-342 | Records, host and processed set change by exactly the protocol's claim, act and report steps, and not at all for a processed operation |
| NodeAgent.Agent.ProcessOperationRequests | node-agent/cmd/kubenas-node-agent/main.go:274-286 | The listed records end as the protocol's steps leave them; the host runs the operations not processed before, in order, each once; a failed listing changes nothing |
| NodeAgent.PassJobs | node-agent/cmd/kubenas-node-agent/main.go:283-296 | The protocol's pass over a list performs exactly one job per operation not processed before |
| NodeAgent.SecondPassIsEmpty | node-agent/cmd/kubenas-node-agent/main.go:294-296 | A second pass over the same list in the same lifetime performs nothing |
| NodeAgent.RestartIsHarmless | docs/architecture.md:73 | Without stacking mounts, a pass after a restart performs the list again and leaves the mount table as it was |
| NodeAgent.Agent.PassAndRestart | node-agent/cmd/kubenas-node-agent/main.go:274-342 | The agent itself: a pass, a restart, and a pass over the same operations in whatever state their records are by then end with the mount table of the first pass |
| Rebalance.IsImbalanced | controllers/rebalance_controller.go:101-129 | True exactly when the threshold is positive and some two disks of positive capacity differ in utilisation by more |
| Rebalance.OrderDoesNotMatter | controllers/rebalance_controller.go:101-129 | The answer depends only on which disks are listed |
| Rebalance.LargerThresholdTolerates | controllers/rebalance_controller.go:101-129 | As a positive threshold grows, the answer can only go from true to false |
| Rebalance.Job.Reconcile | controllers/rebalance_controller.go:34-98 | The job's step for every combination of missing objects, imbalance, phase, dry run and refused writes |
| Rebalance.NextPhase | controllers/rebalance_controller.go:52-97 | An accepted reconcile of a job that is not over makes it Failed exactly when pool or policy is missing, and exactly when Completed, Planning or Running |
| Rebalance.FailedIffMissing | controllers/rebalance_controller.go:52-61 | In every run a job is Failed exactly when the reconcile that ended it found pool or policy missing |
| Rebalance.EndTellsWhy | controllers/rebalance_controller.go:131-141 | How it ended, and that its completion time is the time of that reconcile |
| Rebalance.StartTellsWhen | controllers/rebalance_controller.go:133-136 | The start time is the time of the first reconcile that made it Running |
| Rebalance.ImbalancedInBytes | controllers/rebalance_controller.go:106-128 | The same question multiplied out in bytes, without division: the threshold is in percentage points |
| Rebalance.Job.SetJobPhase | controllers/rebalance_controller.go:131-148 | Phase, first start time and completion time, or nothing when the write is refused |
| Rebalance.TimesTellPhases | controllers/rebalance_controller.go:131-141 | At every point of a run: completion time set exactly in terminal phases, start time exactly if Running was ever entered, a dry run never Running |
| Rebalance.OnlyForward | controllers/rebalance_controller.go:44-97 | Phases only move forward, terminal statuses absorb, a start time never changes |
| Rebalance.DryRunEnds | controllers/rebalance_controller.go:71-93 | A dry run is terminal after two reconciles whose writes go through, a job without work after one, from any status |
| Failures.FailureStore.Reconcile | controllers/placement_failure_controllers.go:160-224 | Opens, escalates, lowers or resolves the disk's record as the step says, leaving all other records |
| Failures.FailureStore.ResolveOpenFailures | controllers/placement_failure_controllers.go:226-245 | Resolves the disk's record unless it already is |
| Failures.RecordTellsHistory | controllers/placement_failure_controllers.go:160-245 | After any history: a record exists exactly if an unhealthy reconcile went through; severity of the last such one, matching reason, advice of the first, Resolved exactly if it recovered since |
| Failures.ReasonTellsHistory | controllers/placement_failure_controllers.go:177-220 | The reason is that of the reconcile at which the record got its present severity: for a Failed disk SMART_FAILURE exactly if health was below 0.1 then |
| Failures.ReconcileByPhase | controllers/placement_failure_controllers.go:171-245 | By the disk's phase alone: Degraded and Failed open or update the disk's record, every other phase resolves it |
| Failures.OneRecordPerDisk | controllers/placement_failure_controllers.go:192-210 | A disk never has two records |
| Failures.ResolvedIsFinal | controllers/placement_failure_controllers.go:232-240 | No later events leave Resolved |
| Failures.AdviceFitsIff | controllers/placement_failure_controllers.go:211-220 | The advice fits the severity exactly when first and last unhealthy phase agree |
| Smart.ParseAttributes | node-agent/pkg/smart/smart.go:119-140 | The counters of the attribute fold |
| Smart.QueryDisk | node-agent/pkg/smart/smart.go:88-149 | An error exactly when there is no usable output, else the health record of the output and its score |
| Smart.ComputeHealthScore | node-agent/pkg/smart/smart.go:160-197 | One minus the capped penalties, clamped to [0, 1] |
| Smart.SmartFailureAlone | node-agent/pkg/smart/smart.go:164-166 | A failed SMART status alone gives 0.4; no sign at all gives 1 |
| Smart.CountersAlone | node-agent/pkg/smart/smart.go:169-184 | Reallocated, pending and uncorrectable counts alone cost a hundredth, a twentieth and a tenth each, up to 0.3, 0.4 and 0.5 |
| Smart.HeatAndWearAlone | node-agent/pkg/smart/smart.go:187-194 | Heat above 55 degrees alone costs a rotational disk 0.02 per degree, wear alone another disk 0.005 per percent |
| Smart.LossesAdd | node-agent/pkg/smart/smart.go:160-197 | Together the signs cost what they cost alone, added up, until nothing is left |
| Smart.SignsOfOutput | node-agent/pkg/smart/smart.go:99-140 | Which raw attributes and fields the signs are |
| Smart.PhaseFromLosses | controllers/disk_controller.go:120-131 | A disk is Failed exactly when SMART failed, Degraded exactly when it passed and the losses exceed 0.7 |
| Smart.FailureReasonFromLosses | controllers/placement_failure_controllers.go:179-183 | A Failed disk's reason is SMART_FAILURE exactly when its losses exceed 0.9 |
| Smart.PlainCounters | node-agent/pkg/smart/smart.go:119-140 | Each plain counter is the raw value its attribute was last listed with |
| Smart.UncorrectableIsLargerIff | node-agent/pkg/smart/smart.go:123-133 | Uncorrectable errors are the larger of 187 and 198 exactly when 187 is not listed after a larger 198 |
| Smart.AscendingUncorrectable | node-agent/pkg/smart/smart.go:123-133 | With ascending IDs it is always the larger |
| Smart.ScoreFalls | node-agent/pkg/smart/smart.go:160-197 | No higher counter, temperature, wear or SMART failure raises the score |
| Smart.WorseNeverHelps | controllers/disk_controller.go:120-131 | From attribute table to failure severity: worse data never raises the score, improves the phase or lowers the severity |
| Snapraid.BuildSnapraidConfig | controllers/array_controller.go:106-138 | Parities numbered from 1 without gaps, data disks labelled d1..dm, contents as given or one per data disk, excludes as given |
| Snapraid.LabelsDiffer | controllers/array_controller.go:117-123 | Labels of different positions differ |
| Snapraid.RenderSnapraidConf | controllers/kubernetes_agent_client.go:171-193 | The text is the newline-terminated lines of the configuration |
| SnapraidReader.ReadsBackIff | controllers/kubernetes_agent_client.go:171-193 | A line reader recovers every printed field exactly when no printed field holds a newline |
| SnapraidReader.PrintingIsInjective | controllers/kubernetes_agent_client.go:171-193 | Configurations that differ in a printed field never print alike |
| SnapraidReader.NewlinesPrintAlike | controllers/kubernetes_agent_client.go:181-183 | A line holding a newline prints like two lines |
| SnapraidReader.PublishSnapraidConf | controllers/array_controller.go:71-78 | Built and printed, a configuration reads back as parities 1..n, labels d1..dm with their mount points, contents and excludes |
| SnapraidRender.Render | storage/snapraid/config.go:15-34 | The joined lines for the visited iteration order of the data map |
| SnapraidRender.OrderDoesNotMatter | storage/snapraid/config.go:24-26 | The multiset of printed lines is the same for every iteration order |
| SnapraidRender.PrintersAgree | storage/snapraid/config.go:15-34 | Blank and comment lines aside, both printers print the same lines equally often for every built configuration and order, even with newlines in fields |
| SnapraidRender.ParityNumbersMatter | storage/snapraid/config.go:17-23 | A parity line is the same in both printers exactly when its number is its position |
| StatusIndex.SanitizeKey | node-agent/cmd/kubenas-node-agent/main.go:375-385 | Computes the operator's key for every string |
| StatusIndex.CollideIff | controllers/kubernetes_agent_client.go:195 | Two paths share a key exactly when they differ only in '/' against '_' |
| StatusIndex.KeysAreInjective | node-agent/cmd/kubenas-node-agent/main.go:375-385 | Paths without '_' never share a key |
| StatusIndex.StatusMap.RunDiscovery | node-agent/cmd/kubenas-node-agent/main.go:153-213 | Stores the index of the discovered devices' statuses, or nothing when listing or writing fails |
| StatusIndex.StatusMap.UpsertConfigMap | node-agent/cmd/kubenas-node-agent/main.go:345-372 | Replaces the stored index |
| StatusIndex.StatusMap.GetDiskStatus | controllers/kubernetes_agent_client.go:38-56 | The stored report under the path's key, the healthy default when there is none, an error exactly on a failed read or an entry that cannot be decoded |
| StatusIndex.StatusMap.DiscoverAndAsk | controllers/kubernetes_agent_client.go:38-56 | After a discovery of distinct devices without '_', asking for any of them returns what the agent found out about it |
| StatusIndex.OwnStatusIff | node-agent/cmd/kubenas-node-agent/main.go:205-207 | A discovered device is read back as itself exactly when no later device has its key |
| StatusIndex.DiscoveredIsFound | controllers/kubernetes_agent_client.go:47-55 | For distinct devices without '_' the operator reads each device's own report |
| StatusIndex.DiscoveryIsRead | node-agent/cmd/kubenas-node-agent/main.go:165-211 | The same about the index itself: each device's entry is its own status |
| StatusIndex.DefaultIffUndiscovered | controllers/kubernetes_agent_client.go:47-50 | The key is missing, giving the healthy default, exactly when the device was not discovered |

## Left out

- SelectBalanced: the library sort is an `order` parameter, any descending permutation; its swaps are not modelled. Scores, here and in `Smart` and `Rebalance`, are exact reals: no claim about floating-point rounding.
- FiveRoundsSettle: outside calls keep answering the same and API writes succeed; statuses only, without timestamps and messages. Refused writes are in `Controllers`, changing answers in `RunsKeepConditions`.
- ReconcileShare: creating the share's objects is one answer here; `Publishing` has the upserts behind it, with manifests as opaque text and no other writer.
- ReconcilePool: node selection, mergerfs option strings, and the request's path through the agent are one answer; a mount request without error always reports mounted (kubernetes_agent_client.go:90-100).
- IsMounted: points are absolute and clean, and the mount table has no escaped characters.
- ReplayKeepsMounts: the same outcomes the second time; tables are compared point by point, since remounting moves lines of different points past each other.
- ExecuteOperation: payloads are operation values; one that cannot be decoded counts as an unsupported operation, which fails the same way. Records of other nodes appear only as posts.
- RunDiscovery: the answers of lsblk, smartctl and df are given, JSON is a record copy, and the v1 Disk objects written beside the index are not modelled.
- QueryDisk: identity strings, power-on hours and NVMe error counters, which do not enter the score.
- Reads of API objects that fail otherwise than by absence: the reconciler gives up without a change or takes the same branch as absence.
- Namespaces of failure records and operation records: there is one.
- Which of several arrays on one primary node wins the shared SnapRAID ConfigMap: they overwrite one another.
- CSI driver, CachePool, parity schedules, the v1 controllers, energy control, DiskFailure phases set by others, log texts and requeue delays: stubs, plumbing or other components.
