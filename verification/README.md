# Orin device system: a verified model

The system shares boards of Orin SoCs among the pods of a Kubernetes cluster. A device plugin
publishes what a node's boards hold, a scheduler extender keeps track of which orins are requested
and binds pods to boards, and a small protobuf codec talks to the kubelet about which container was
given which device. This project models those parts in Dafny and proves what they keep.

`dafny verify dfyconfig.toml` checks everything.

## How it is organised

- **Node bookkeeping.** `Topo` and `NodeInfos` are the code's own mutable maps: `BoardDetails` and
  `OrinDetails` are objects, `Allocatable` starts as the very object `Total` is and later shares
  inner maps with it. Every method is proved to do exactly what a pure function in `Node` does,
  for every input, errors and sharing included (`shared` in `Node.NodeState` lists the boards whose
  allocatable and total orins are one map). `Boards` is the set algebra, `Node`, `NodeRuns` and
  `NodeRebuild` hold the theorems: conservation over runs, incremental equals rebuild.
- **Cache and controller.** `ScheduleCaches` is the cache over `NodeInfo` objects no two of which
  share a map; it refines `Cache`. `CacheRuns` has the laws of releasing and forgetting,
  `CacheCalls` what each call does to the orins on offer, `FailsClosed` what never leaves a
  node's capacity, over nodes and over runs of the cache, `Controllers` the sync of a pod and the
  restart path.
- **Bind.** `Managers.Bind` is the uninterrupted call with any answers of the API server.
  `BindProtocol` is the state machine in which any number of binds and informer events interleave;
  `BindRefinement` shows that each call is a run of it.
- **Predicate and Priority.** `ParallelPredicate` is the worker pool with its atomic slot counter;
  `Allocators` the best fit; `Managers` normalising and ranking.
- **Topology codec.** `DecimalMaps`, `Providers`: from the provider file through the published
  decimal bitmap to the scheduler's total. `Strconv` and `Pods` are what they read and write.
- **Wire codec.** `Wire` and `Messages` give the format as pure functions and its laws;
  `Codec` (sizes and writing into a buffer) and `Decoders` (the `Unmarshal` loops) are the generated
  code and are proved equal to them.
- **Devices.** `Devices` is device equality and the search for the owning container.

## What the proofs say about the code

- `addPod` writes a request down before it checks it and never takes it back, and it does not look
  for overlaps. Conservation therefore holds over a run exactly when each added pod fits where it is
  added (`NodeRuns.RunKeepsConserved`, `Node.AddKeepsConserved`).
- Two binds that both look before either assumes can be given the same orins
  (`BindProtocol.TwoBindsClash`); without a write in between they cannot (`BindProtocol.AssumeSucceeds`),
  and in general an assumption is safe exactly when its orins are still free
  (`BindProtocol.AssumeSafeExactly`). A whole run is safe exactly when all its steps are harmless
  (`BindProtocol.RunSafeExactly`).
  A rebuild that misses an assumed pod is unsafe (`BindProtocol.NodeAddedSafeExactly`).
- When the update of the annotated pod fails, `Bind` forgets the pod it fetched, which has no
  annotation, so nothing is released: the pod stays assumed and every retry fails. Fetched with a stale
  annotation, it is let go under that board instead, if that board has the orins requested
  (`CacheRuns.ForgetUndoesExactly`, `Managers.BindEnds`). A pod forgotten with its annotation is
  released from its node but stays known to the cache for good (`CacheRuns.ForgottenIsStuck`).
- `deletePod` trusts the annotation it is passed. After a failed addition, deleting another pod under
  a changed annotation can write through a shared map into the node's capacity
  (`FailsClosed.InsideIsNeeded`); `FailsClosed.RunFailsClosedExactly` says exactly when a run stays
  inside the capacities.
- A board numbered -1 is taken for the allocator's "no board": a node with a free board can then be
  reported as full (`Managers.PredicateMeansFreeBoard`, `Managers.BoardLikeSentinel`). Orin ids below
  the start bit vanish from the published bitmap (`DecimalMaps.ParseOfBuild`). `Predicate` returns a
  slice as long as its input, filled up with empty names (`ParallelPredicate.AnyScheduleMatchesScan`).
- A node that fits can be ranked below one that does not: its score falls below 0 with more than 100
  orins free (`Managers.FitBeatsFullExactly`). A pod whose annotation is no number becomes known to the
  cache and can then not be deleted from it (`CacheCalls.MalformedIsStuck`).
- The skipper ends a group at any end tag, whatever its field number (`Wire.Record`), and accepts
  exactly that grammar (`Wire.SkippedIsWellFormed`).
- An empty device request is located in the first container without devices of the resource
  (`Devices.EmptyRequestMatches`).

## Model

| member | source | states |
|---|---|---|
| Node.AddKeepsConserved | pkg/scheduler/manager/cache.go:32-73 | adding a new pod keeps Total = Requested + Allocatable on every board, with Requested the disjoint union of the pods' requests, if and only if the request is free on the named board; then it succeeds |
| Node.AddAnswers | pkg/scheduler/manager/cache.go:32-73 | a new pod is refused if and only if its board is unknown or too small: overlaps are not looked for; the request is recorded either way, and only an accepted one leaves the offer |
| Node.DeleteKeepsConserved | pkg/scheduler/manager/cache.go:74-116 | a successful deletion keeps conservation if and only if the pod passed in occupies what the stored one does; a failed one changes nothing; the stored placement always succeeds |
| Node.ReleasedAt | pkg/scheduler/manager/cache.go:92-107 | on a conserved node a deletion moves exactly the pod's orins from requested to allocatable on its board and never changes the total, although the map written to may be the total's own |
| Node.SoundAlways | pkg/scheduler/manager/cache.go:32-116 | from any sound state, errors included: held pods are bound and recorded, and a map shared between Total and Allocatable belongs to a board without pods |
| Node.SharedAfter | pkg/scheduler/manager/cache.go:62-107 | a deletion parts no map that Total and Allocatable share; after a successful addition just the boards without requests share one |
| NodeRuns.ReAddKeepsConserved | pkg/scheduler/manager/cache.go:42-73 | adding a held pod again keeps conservation if and only if it occupies the same orins, and then changes nothing a caller can see |
| NodeRuns.RunKeepsConserved | pkg/scheduler/manager/cache.go:32-116 | over every run of additions and deletions: all states are conserved if and only if each operation was allowed in the state it met; then the run has left the capacity alone |
| NodeRuns.AddThenDelete | pkg/scheduler/manager/cache.go:32-116 | adding a fitting pod and deleting it restores totals, allocatable boards, pods and the contents of the requests |
| NodeRuns.Determined | pkg/scheduler/manager/cache.go:18-29 | conserved nodes with the same totals and the same occupied orins have the same allocatable boards and requests |
| NodeRebuild.RebuildConserved | pkg/scheduler/manager/cache.go:361-366 | a node built from a list of pods is conserved if and only if no two of them overlap and each lies inside the capacity; then it holds all of them |
| NodeRebuild.RebuildListed | pkg/scheduler/manager/cache.go:51-66 | requests accumulate whether or not the additions succeed, independently of the capacity; only a covered list leaves the pods and the difference behind |
| NodeRebuild.IncrementalIsRebuild | pkg/scheduler/manager/cache.go:326-370 | after any disciplined run the node equals the one rebuilt from its original capacity and its live pods, listed in any order |
| NodeRebuild.IncrementalFromFresh | pkg/scheduler/manager/cache.go:326-370 | in particular after any disciplined run from an empty node of any capacity |
| NodeRebuild.UpdateIsRebuild | pkg/scheduler/manager/cache.go:248-270 | the node UpdateNode stores is the rebuild on the new capacity if that covers the requests, else the rebuild with nothing allocatable |
| FailsClosed.StepFailsClosedExactly | pkg/scheduler/manager/cache.go:32-116 | an operation on a node, failed additions included, keeps Allocatable within Total, each pod's request within Total, and Total itself if and only if what it releases lies inside the board the passed pod names |
| FailsClosed.StableIsInside | pkg/scheduler/manager/cache.go:76-98 | the condition always holds when annotation and limits of a held pod do not change |
| FailsClosed.CallFailsClosedExactly | pkg/scheduler/manager/cache.go:171-318 | a cache call keeps every entry so, and the capacity of the node it is about, if and only if that release lies inside; rebuilds and updates always do |
| FailsClosed.RunFailsClosedExactly | pkg/scheduler/manager/cache.go:171-318 | over every run of cache calls, shrinking updates and failed additions included: every state fails closed if and only if each release met lay inside |
| FailsClosed.RebuildFailsClosed | pkg/scheduler/manager/cache.go:326-370 | a rebuilt node is within its capacity for any list of distinct pods, compatible or not |
| FailsClosed.UpdateFailsClosed | pkg/scheduler/manager/cache.go:257-268 | so is an updated one; after a shrink that no longer covers the requests the allocator's only answer, for every request, is -1 |
| FailsClosed.InsideIsNeeded | pkg/scheduler/manager/cache.go:74-107 | concrete run in which a pod, changed only in its annotation, is deleted and writes an orin a board lacks into the total |
| Boards.DiffCompose | pkg/scheduler/manager/topo/mazuinfo.go:49-77 | (A-B)-C is defined if and only if A covers both and they are disjoint, and equals A-(B+C) |
| Boards.DiffRestore | pkg/scheduler/manager/topo/mazuinfo.go:49-88 | on contents, the union of a difference with what was taken is the original |
| Topo.TakeAndRestore | pkg/scheduler/manager/topo/mazuinfo.go:49-88 | on the map objects: taking a covered subset away and adding each of its boards back shows the original contents, with the original and the subset not written to although maps are shared |
| Topo.BoardDetails.DifferenceFromSuperset | pkg/scheduler/manager/topo/mazuinfo.go:49-77 | succeeds if and only if the source covers the subset; the result shows the boardwise difference, keeps the inner map objects of unlisted boards and has fresh ones for the others; nothing is mutated; any map order |
| Topo.BoardDetails.Equal | pkg/scheduler/manager/topo/mazuinfo.go:33-48 | true if and only if both contain the same boards with the same orins |
| Topo.BoardDetails.Add | pkg/scheduler/manager/topo/mazuinfo.go:78-88 | stores the given map object itself under a new board, merges into the existing object otherwise |
| Topo.BoardDetails.BoardSet | pkg/scheduler/manager/topo/mazuinfo.go:25-31 | the keys, in any iteration order |
| Topo.OrinDetails.OrinSet | pkg/scheduler/manager/topo/mazuinfo.go:89-95 | the keys, in any iteration order |
| Topo.OrinDetails.Add | pkg/scheduler/manager/topo/mazuinfo.go:97-100 | writes one orin in place |
| NodeInfos.NodeInfo.AddPod | pkg/scheduler/manager/cache.go:32-73 | on the mutable maps: result and new contents, sharing included, are those of Node.AddPod; Requested never shares a map with Total or Allocatable |
| NodeInfos.NodeInfo.DeletePod | pkg/scheduler/manager/cache.go:74-116 | likewise Node.DeletePod: the in-place write reaches the total exactly where the two share the board's map |
| NodeInfos.NodeInfo.TakeRequested | pkg/scheduler/manager/cache.go:257-267 | the new node takes over the old rebuild's request object and what it shows is NodeRebuild.TakeRequested |
| NodeInfos.TotalBoards | pkg/scheduler/manager/cache.go:332-357 | the parsed capacity: every well-formed board entry in any order, entries of one board merged, malformed ones skipped |
| NodeInfos.CapacityExactly | pkg/scheduler/manager/cache.go:332-357 | a node has exactly the boards and orins for which some capacity entry consists of the board prefix, the board's number and a value with that orin among its digits |
| NodeInfos.ExampleCapacity | pkg/scheduler/manager/cache.go:332-357 | a capacity with a good, a bad and unrelated entries, read literally |
| NodeInfos.NewNodeInfo | pkg/scheduler/manager/cache.go:326-370 | a node with maps of its own that shows the rebuild of its pods on the parsed capacity |
| ScheduleCaches.ScheduleCache.AddPod | pkg/scheduler/manager/cache.go:171-200 | on the node objects: the new state is Cache.AddPod's, no two nodes come to share a map, and other nodes are untouched |
| ScheduleCaches.ScheduleCache.DeletePod | pkg/scheduler/manager/cache.go:202-229 | likewise Cache.DeletePod |
| ScheduleCaches.ScheduleCache.AddNode | pkg/scheduler/manager/cache.go:230-240 | the entry is replaced by the rebuild from the pods passed in |
| ScheduleCaches.ScheduleCache.UpdateNode | pkg/scheduler/manager/cache.go:248-270 | the entry is replaced only if the capacities differ, by the node with the old rebuild's requests |
| ScheduleCaches.ScheduleCache.DeleteNode | pkg/scheduler/manager/cache.go:271-283 | removes the entry, or is an error that changes nothing |
| ScheduleCaches.ScheduleCache.AssumePod | pkg/scheduler/manager/cache.go:284-300 | likewise Cache.AssumePod: an unknown node or a known pod is an error without effect; a failed addition leaves its request behind |
| ScheduleCaches.ScheduleCache.ForgetPod | pkg/scheduler/manager/cache.go:302-318 | likewise Cache.ForgetPod: the node lets the pod go, podMaps and assumePods keep it |
| ScheduleCaches.ScheduleCache.KnownPod | pkg/scheduler/manager/cache.go:319-324 | true if and only if the UID is known |
| CacheCalls.PodTakenIn | pkg/scheduler/manager/cache.go:171-300 | AddPod and AssumePod of an unknown pod whose orins are free on a conserved entry: exactly those leave the offer, nothing else changes but that the pod is known, and assumed only by AssumePod |
| CacheCalls.PodLetGo | pkg/scheduler/manager/cache.go:202-318 | DeletePod and ForgetPod of a held pod: exactly its orins are on offer again; only DeletePod makes it unknown and records the release |
| CacheCalls.UpdateStores | pkg/scheduler/manager/cache.go:248-270 | what the cache holds after UpdateNode: nothing new if the capacities are equal; else the new capacity, the requests of all listed pods, and the rest of it on offer, or nothing at all if it does not cover them |
| CacheCalls.NodeRemoved | pkg/scheduler/manager/cache.go:271-283 | the name is gone and all else is as it was; an error exactly for an unknown node |
| CacheCalls.OthersUntouched | pkg/scheduler/manager/cache.go:171-318 | a call about one node or pod leaves all other entries alone, and calls about nodes what is known of pods |
| CacheCalls.MalformedIsStuck | pkg/scheduler/manager/cache.go:171-229 | a pod whose annotation is no number becomes known though no entry takes it in, and deleting it is then an error |
| CacheRuns.GiveMovesOrins | pkg/scheduler/manager/cache.go:74-116 | a DeletePod or ForgetPod that gives back returns exactly the pod's request on its board from a node that held the pod and no longer does; a node holds exactly what it took and has not given back or lost to a rebuild, a node deletion or a failed re-addition |
| CacheRuns.DropIsRelease | pkg/scheduler/manager/cache.go:202-229 | only a successful DeletePod of a held pod drops a UID, and it records the release; only AddPod and AssumePod on a cached node bring one in |
| CacheRuns.KnownStep | pkg/scheduler/manager/cache.go:171-318 | a UID is known after a call if and only if the call accepted it, or it was known and not released; it is recorded as released, or as assumed, if and only if that ever happened; the pod remembered is the one accepted |
| CacheRuns.SingleRelease | pkg/scheduler/manager/cache.go:171-318 | over any run of cache calls a node gives a pod's orins back at most once for every time it took the pod in, by what the calls answered |
| CacheRuns.ReleasesBalance | pkg/scheduler/manager/cache.go:171-318 | over any run DeletePod released a UID as often as AddPod and AssumePod accepted it, up to whether it is known before and after; it counts as released if and only if that ever happened |
| CacheRuns.DeleteTwice | pkg/scheduler/manager/cache.go:202-229 | a repeated DeletePod is an error with the whole cache unchanged |
| CacheRuns.ForgetUndoesExactly | pkg/scheduler/manager/cache.go:284-318 | after assuming a fitting pod, ForgetPod restores the node if and only if the pod passed in still carries the same board and request; without the annotation it does nothing |
| CacheRuns.ForgottenIsStuck | pkg/scheduler/manager/cache.go:302-318 | a forgotten pod can neither be assumed, added, deleted nor forgotten again |
| Controllers.GetActivePodInNode | pkg/scheduler/manager/controller.go:451-464 | the node's pods that are not completed and name a board, in lister order |
| Controllers.ActiveMember | pkg/scheduler/manager/controller.go:451-464 | a pod is active on a node if and only if the lister has it, not completed, scheduled there and annotated with a board |
| Controllers.ActiveConcat | pkg/scheduler/manager/controller.go:451-464 | lists are filtered piece by piece, in order, no pod being listed twice that was listed once |
| Controllers.AssignPod | pkg/scheduler/manager/controller.go:421-449 | an unannotated pod is ignored; an uncached node is rebuilt first from its active pods; then the pod is added |
| Controllers.SyncPod | pkg/scheduler/manager/controller.go:167-198 | a vanished or unscheduled pod changes nothing, a completed one is released with errors ignored, any other is assigned |
| Controllers.SyncReleases | pkg/scheduler/manager/controller.go:178-185 | a completed pod its cached node holds is released: its orins are on offer again and it is no longer known |
| Controllers.SyncAssigns | pkg/scheduler/manager/controller.go:186-194 | a running annotated pod with room on its cached node is taken in and known |
| Controllers.SyncIgnores | pkg/scheduler/manager/controller.go:167-198 | the pods a sync does not touch: vanished, unscheduled, unannotated, known already, or on a node that is not to be had |
| Controllers.SyncIsRun | pkg/scheduler/manager/controller.go:167-198 | for any cache, a sync leaves what a run of its calls leaves (a deletion, an addition, or a rebuild from the running pods and then the addition), so the laws of runs apply; only a refused addition is an error |
| Controllers.SyncIsIdempotent | pkg/scheduler/manager/controller.go:167-198 | repeating a sync that returned no error changes nothing and returns no error |
| Controllers.ReplayChangesNothing | pkg/scheduler/manager/controller.go:421-449 | adding again pods the node already holds, in any order and number, leaves a conserved node as it is |
| Controllers.RestartRebuilds | pkg/scheduler/manager/controller.go:421-464 | on an uncached node the sync of one pod leaves exactly the rebuild from all active pods, conserved, with the pod known |
| Controllers.ReplayThroughCache | pkg/scheduler/manager/controller.go:421-449 | adding through the cache pods a node already holds makes exactly those known and leaves every entry as it is |
| Controllers.RestartReplays | pkg/scheduler/manager/controller.go:421-464 | after a rebuild and the addition of all its pods the entry is the rebuild, and exactly those pods have become known |
| BindProtocol.StepSafeExactly | pkg/scheduler/manager/manager.go:143-204 | every step of any bind, retries included, or informer event keeps all entries conserved and no orin held twice if and only if it is harmless: what is assumed still fits, what is let go is what the entry holds, reports are reportable, rebuild lists complete |
| BindProtocol.AssumeSucceeds | pkg/scheduler/manager/manager.go:162-170 | with no write to the entry since the allocator's look an assumption is harmless; AssumePod then fails only for an unknown node or a known UID, as in every retry, and changes nothing |
| BindProtocol.AssumeSafeExactly | pkg/scheduler/manager/manager.go:162-170 | whatever was written in between, an assumption is safe if and only if it is harmless; for a pod new to the cache and the entry, if and only if its orins are still free |
| BindProtocol.ReleaseSafeExactly | pkg/scheduler/manager/cache.go:202-229 | letting a pod go, by a forget or a deletion, keeps the system safe if and only if the entry, should it let the pod go, lets go exactly what it holds for it |
| BindProtocol.ReportSafeExactly | pkg/scheduler/manager/cache.go:171-200 | a report of a running pod keeps the system safe if and only if it is reportable: held as it is, overlapping no other pod on a node not cached, or new and fitting |
| BindProtocol.RebuiltPodsReportable | pkg/scheduler/manager/controller.go:421-464 | every pod a complete rebuild brought in may be reported next, and is live from then on |
| BindProtocol.NodeAddedSafeExactly | pkg/scheduler/manager/cache.go:230-240 | a rebuilt entry keeps the system safe if and only if the list drops no live pod of the node and is compatible with the capacity |
| BindProtocol.NodeUpdatedSafeExactly | pkg/scheduler/manager/cache.go:248-270 | likewise an update, unless it leaves the capacity as it was |
| BindProtocol.RunSafeExactly | pkg/scheduler/manager/manager.go:143-204 | over every run of enabled steps, however binds and informers interleave: every state is safe if and only if every step was harmless where it happened |
| BindProtocol.RunIsSafe | pkg/scheduler/manager/manager.go:143-204 | in particular from the empty cache; at the end of a harmless run no orin is held by two live pods, and each live pod of a cached node has all its orins on one board of the node |
| BindProtocol.TwoBindsClash | pkg/scheduler/manager/manager.go:162-170 | a run from the empty cache after which two binds' assumptions both succeed and one orin is held twice |
| Managers.Bind | pkg/scheduler/manager/manager.go:143-204 | for any cache and any answers of the API server: the attempts made stop at the first success or after three, each with a board the allocator may answer, and cache and error are those of assuming, forgetting and binding in that order |
| Managers.BindEnds | pkg/scheduler/manager/manager.go:143-204 | the first attempt that fetches a pending pod and is answered a board decides: bound on that best-fitting board; given back, restoring the node, after a refused binding; after a failed update left assumed, or let go under the annotation it was fetched with (restoring the node if and only if that is what was assumed). No such attempt, or a known pod, changes nothing; no error is returned exactly when bound |
| Managers.BindFollowsAnswers | pkg/scheduler/manager/manager.go:143-204 | from the API answers and the entry alone: with a board free, the first pod fetched gets a best fit, the bind succeeds if and only if its update and the binding do, and the cache is as the ending says, orin by orin |
| BindRefinement.BindIsRun | pkg/scheduler/manager/manager.go:143-204 | every call of Bind, on any cache and with any retries, is the run of one thread of the protocol that looks, assumes, updates and binds in that order, with the same cache, ending bound if and only if no error is returned |
| Allocators.Allocate | pkg/scheduler/manager/allocator.go:33-61 | for any map order a fitting board with the fewest free orins and the score 100 minus all free orins, or -1 and 0 when none fits; a best fit numbered -1 scores 0 |
| Allocators.SentinelMeansNoFit | pkg/scheduler/manager/allocator.go:33-61 | the answer -1 always means that no board covers the request if and only if no best-fitting board is numbered -1 |
| Allocators.TightestFirst | pkg/scheduler/manager/allocator.go:38-50 | a board with nothing to spare is preferred to any other, and no board is chosen that contains a smaller fitting one |
| Allocators.FreeOrinsAddUp | pkg/scheduler/manager/allocator.go:53-57 | the orins the score counts add up board by board |
| Managers.CheckNode | pkg/scheduler/manager/manager.go:82-106 | a worker passes a node only if it is cached and the allocator may name a board, and fails it only if it is not cached or the allocator may answer -1 |
| Managers.PredicateMeansFreeBoard | pkg/scheduler/manager/manager.go:68-111 | a node without a free board fails under every schedule; one with a free board passes under every schedule if and only if -1 is not one of its best fits |
| Managers.ReasonsGiven | pkg/scheduler/manager/manager.go:82-106 | each failed node is one of the input and has the message for an uncached node, or the one for too few resources |
| Managers.BoardLikeSentinel | pkg/scheduler/manager/manager.go:94-107 | a provider file with a board -1 whose node has that board free and yet is reported as full under some schedule |
| ParallelPredicate.StepKeepsInv | pkg/scheduler/manager/util.go:22-44 | every worker step keeps: each taken index is with exactly one worker, has one slot or has failed; no slot has two writers |
| ParallelPredicate.AnyScheduleMatchesScan | pkg/scheduler/manager/manager.go:68-111 | when all workers are done, under any schedule, each index has passed or failed once, as the allocator may have it; the first slots are a permutation of the sequential scan's nodes, the others empty, the failed nodes exactly the rest with their reasons |
| ParallelPredicate.SomeScheduleFails | pkg/scheduler/manager/util.go:22-44 | where the allocator may answer -1 for a node, some complete schedule fails it |
| ParallelPredicate.Progress | pkg/scheduler/manager/util.go:22-44 | a step is always possible until all workers are done, and each step lowers a bound |
| ParallelPredicate.ScheduleBounded | pkg/scheduler/manager/util.go:22-44 | no schedule exceeds four steps a node and one a worker |
| Managers.Normalize | pkg/scheduler/manager/util.go:46-63 | rewrites the slice in place to the normalised scores, truncating division included |
| Managers.NormalizeKeepsOrder | pkg/scheduler/manager/util.go:46-63 | normalising keeps the order, sends a positive maximum exactly to the maximal priority and nothing above it |
| Managers.NormalizeScales | pkg/scheduler/manager/util.go:46-63 | without a positive score nothing changes; else each score is its share of the largest, scaled and cut off toward zero |
| Managers.Priority | pkg/scheduler/manager/manager.go:113-141 | the normalised scores of the nodes, each 0 or 100 minus its free orins, as the allocator may answer for it |
| Managers.FullerNodeRanksHigher | pkg/scheduler/manager/manager.go:113-141 | of two nodes with a free board, neither with a best fit numbered -1, the one with fewer free orins is never ranked lower; the best one gets 10 if it has fewer than 100 free |
| Managers.FitBeatsFullExactly | pkg/scheduler/manager/manager.go:113-141 | before normalising, a node that fits scores at least as much as one that does not if and only if it has at most 100 orins free |
| Pods.BuildRequestOrinSet | pkg/scheduler/manager/cache.go:372-387 | the orins named by the limits of all containers, in any map order |
| Pods.RequestMember | pkg/scheduler/manager/cache.go:372-387 | an orin is requested if and only if some container has a limit that is the orin prefix followed by a text for that 64-bit number |
| Pods.NamedIsRequested | pkg/scheduler/manager/util.go:14-17 | a limit named by the prefix and an orin's number is a request for that orin |
| Pods.UnprefixedIsNotRequested | pkg/scheduler/manager/cache.go:376-378 | limits without the prefix request nothing |
| Pods.ExampleClaim | pkg/scheduler/manager/cache.go:372-387 | a manifest with an annotation and mixed limits, read literally |
| Pods.AnnotationRoundTrip | pkg/scheduler/manager/util.go:66-92 | the annotation written for a board is read back as that board with the request untouched; removing it restores the pod |
| Pods.AnnotationWritten | pkg/scheduler/manager/util.go:66-92 | annotation and label get the same text, which reads as the board, and nothing else of the pod changes; nothing is removed from a pod without labels or without annotations |
| Strconv.ParseFormat | pkg/scheduler/manager/util.go:14-20 | formatting and parsing an id is the identity for exactly the 64-bit integers |
| Strconv.ParseExactly | pkg/scheduler/manager/util.go:14-20 | a text is read if and only if it is digits after at most one sign and the number has 64 bits |
| Strconv.DigitsConcat | pkg/scheduler/manager/util.go:14-20 | digits have their positional value, other characters none |
| Strconv.FormatIsCanonical | pkg/scheduler/manager/util.go:75 | numbers are written without plus sign and leading zeros |
| DecimalMaps.DecimalMap.Parse | pkg/scheduler/manager/decimalmap.go:25-41 | a value parses if and only if it is not negative and all digits are 0 or 1, and gives the positions of its ones |
| DecimalMaps.ParsedDigits | pkg/scheduler/manager/decimalmap.go:25-41 | a value parses if and only if it is not negative and no decimal digit exceeds 1; an orin is listed if and only if the digit for it, counted from the start bit, is 1 |
| DecimalMaps.BuildDecimalMap | pkg/scheduler/manager/decimalmap.go:43-49 | in any order, the number whose digits are the set's bits if no id is more than 18 above the start bit; always an int64, whatever larger powers convert to |
| DecimalMaps.ParseOfBuild | pkg/scheduler/manager/decimalmap.go:25-49 | parsing what was built returns the set without the ids below the start bit |
| DecimalMaps.BuildOfParse | pkg/scheduler/manager/decimalmap.go:25-49 | building from what was parsed returns the value, and every parsed id can be built |
| Providers.BoardOrinsListed | pkg/device/provider/file.go:111-121 | an orin is returned for a board if and only if the file lists it there, under repeated boards too |
| Providers.GetBoardOrins | pkg/device/provider/file.go:111-121 | the listed socs of all entries of the board, in file order |
| Providers.GetBoards | pkg/device/provider/file.go:104-110 | one id per entry, in file order |
| Providers.GetOrinClasses | pkg/device/provider/file.go:62-74 | the exact inverse relation of the boards' orins, with no empty classes |
| Providers.ExtraResource | pkg/device/plugin/orin.go:198-210 | for every file, one capacity entry per board, holding its decimal map where the ids are in range, and the constant 1024; boards never collide |
| Providers.TotalIsFile | pkg/scheduler/manager/cache.go:332-357 | end to end: on any node carrying the published capacity, the scheduler's total for a board with ids in range is exactly the file, except ids below 1, and what other entries of the node add to that board |
| Providers.TotalIsFileAlone | pkg/scheduler/manager/cache.go:332-357 | without other entries for the board it is the file alone |
| Devices.EqualsMeansSameIds | pkg/device/types/device.go:17-47 | for any hash, devices are equal if and only if they name the same resource and list the same ids equally often |
| Devices.Equals | pkg/device/types/device.go:27-47 | the loop's verdict is equality of hash, list and resource |
| Devices.SortStringsSorts | pkg/device/types/device.go:17-24 | the stored list is the sorted permutation of the given one |
| Devices.AtMostExactly | pkg/device/types/device.go:17-24 | the order is lexicographic: a prefix, or smaller at the first difference |
| Devices.Locate | pkg/device/kubeapis/locator.go:62-93 | the first container holding exactly the wanted ids, in one entry or over all its entries; none if there is none or the device is of another resource |
| Devices.OwnerIsUnique | pkg/device/kubeapis/locator.go:62-93 | if each wanted id belongs to at most one container, at most one container holds a non-empty request |
| Devices.HolderOwnsAll | pkg/device/kubeapis/locator.go:62-93 | a located container was given every wanted id |
| Devices.HoldsExactly | pkg/device/kubeapis/locator.go:66-90 | a container matches if and only if one entry of the resource lists the wanted ids, or some order of them can be cut into its entries of the resource, others lying between |
| Devices.OneIdEach | pkg/device/kubeapis/locator.go:76-90 | in particular ids reported one to an entry match in any order |
| Devices.LocateOwner | pkg/device/kubeapis/locator.go:62-93 | under that hypothesis the owner is returned however its ids are split into entries |
| Devices.EmptyRequestMatches | pkg/device/kubeapis/locator.go:82-90 | an empty request matches any container without ids of the resource |
| Wire.VarintRoundTrip | pkg/device/podresources/v1alpha1/api.pb.go:417-425 | every 64-bit number is read back from its encoding, whatever follows |
| Wire.VarintSizeExact | pkg/device/podresources/v1alpha1/api.pb.go:496-505 | the computed size is the number of bytes written |
| Wire.VarintBytes | pkg/device/podresources/v1alpha1/api.pb.go:417-425 | byte i carries the i-th base 128 digit, flagged unless last, with no more bytes than needed |
| Wire.VarintCut | pkg/device/podresources/v1alpha1/api.pb.go:576-589 | a number cut short is an unexpected end |
| Wire.VarintWraps | pkg/device/podresources/v1alpha1/api.pb.go:576-589 | a number of ten bytes beyond 64 bits is read modulo 2^64 |
| Wire.VarintErrors | pkg/device/podresources/v1alpha1/api.pb.go:576-589 | a number is refused if and only if none of its first ten bytes is a last one: as an overflow if there are ten, else as an unexpected end |
| Wire.SkipsWellFormed | pkg/device/podresources/v1alpha1/api.pb.go:1058-1156 | every well-formed record, nested groups included, is skipped exactly, whatever follows |
| Wire.SkippedIsWellFormed | pkg/device/podresources/v1alpha1/api.pb.go:1058-1156 | conversely everything skipped within the input is a well-formed record |
| Wire.RecordCut | pkg/device/podresources/v1alpha1/api.pb.go:1058-1156 | a well-formed record cut short anywhere, nested groups included, is an unexpected end or has a size beyond the input |
| Wire.EndTagSkipped | pkg/device/podresources/v1alpha1/api.pb.go:1146-1147 | an end tag ends a group, and by itself is skipped as a record |
| Wire.SkipAppend | pkg/device/podresources/v1alpha1/api.pb.go:1058-1156 | what is skipped does not depend on what follows |
| Messages.DecodeConcat | pkg/device/podresources/v1alpha1/api.pb.go:620-1057 | for every message type, once a decodes, decoding a ++ b is decoding b into the result of a |
| Messages.UnknownInserted | pkg/device/podresources/v1alpha1/api.pb.go:680-692 | a well-formed record of an unknown field inserted between records changes neither message nor error |
| Messages.UnknownCut | pkg/device/podresources/v1alpha1/api.pb.go:680-692 | an unknown record cut short anywhere is an unexpected end |
| Messages.RefusedTags | pkg/device/podresources/v1alpha1/api.pb.go:970-982 | end-group tags, field numbers that are not positive, wrong wire types of known fields and illegal ones of unknown fields are refused, each with its error |
| Messages.RefusedLength | pkg/device/podresources/v1alpha1/api.pb.go:998-1001 | so is a length of 64 bits, in known and unknown fields |
| Messages.FieldCut | pkg/device/podresources/v1alpha1/api.pb.go:984-1005 | a field cut short anywhere is an unexpected end and changes nothing |
| Messages.NestedErrors | pkg/device/podresources/v1alpha1/api.pb.go:840-949 | a nested message with an error is kept as far as it was decoded, and its error is the outer one's |
| Messages.FieldNumberWraps | pkg/device/podresources/v1alpha1/api.pb.go:970-971 | the field number is the tag without its low bits as a signed 32-bit number |
| Messages.DevicesInto | pkg/device/podresources/v1alpha1/api.pb.go:388-415 | encoded devices decode into any message: a non-empty name replaces, ids append, empty ids kept |
| Messages.ContainerInto | pkg/device/podresources/v1alpha1/api.pb.go:352-376 | likewise containers, with nested devices exact |
| Messages.PodInto | pkg/device/podresources/v1alpha1/api.pb.go:310-340 | likewise pods |
| Messages.ResponseRoundTrip | pkg/device/podresources/v1alpha1/api.pb.go:270-298 | every response is decoded from its encoding exactly |
| Messages.MergedEncodings | pkg/device/podresources/v1alpha1/api.pb.go:620-839 | encodings in a row decode to the merge: responses concatenate, the last non-empty strings of a pod win |
| Messages.DevicesLayout | pkg/device/podresources/v1alpha1/api.pb.go:388-415 | bytes of an encoding with an empty list element and of an empty message |
| Messages.ContainerLayout | pkg/device/podresources/v1alpha1/api.pb.go:352-376 | bytes of a container around the bytes of its devices |
| Messages.PodLayout | pkg/device/podresources/v1alpha1/api.pb.go:310-340 | bytes of a pod around the bytes of its container |
| Messages.ResponseLayout | pkg/device/podresources/v1alpha1/api.pb.go:280-298 | bytes of a response around the bytes of its pod |
| Codec.Sov | pkg/device/podresources/v1alpha1/api.pb.go:496-505 | the loop counts the bytes of the encoding |
| Codec.EncodeVarintApi | pkg/device/podresources/v1alpha1/api.pb.go:417-425 | writes exactly the encoding at the offset, nothing else, and returns its end |
| Codec.SizeDevices | pkg/device/podresources/v1alpha1/api.pb.go:480-495 | the length of the encoding |
| Codec.SizeContainer | pkg/device/podresources/v1alpha1/api.pb.go:464-479 | the length of the encoding |
| Codec.SizePod | pkg/device/podresources/v1alpha1/api.pb.go:444-463 | the length of the encoding |
| Codec.SizeResponse | pkg/device/podresources/v1alpha1/api.pb.go:432-443 | the length of the encoding |
| Codec.MarshalDevicesTo | pkg/device/podresources/v1alpha1/api.pb.go:388-415 | writes exactly the encoding, reports its length and leaves the rest of the buffer alone |
| Codec.MarshalContainerTo | pkg/device/podresources/v1alpha1/api.pb.go:352-376 | likewise, nested devices with their own sizes |
| Codec.MarshalPodTo | pkg/device/podresources/v1alpha1/api.pb.go:310-340 | likewise |
| Codec.MarshalResponseTo | pkg/device/podresources/v1alpha1/api.pb.go:280-298 | likewise |
| Codec.MarshalResponse | pkg/device/podresources/v1alpha1/api.pb.go:270-278 | a buffer of exactly Size() bytes is filled completely with the encoding, never written outside |
| Decoders.ReadVarintAt | pkg/device/podresources/v1alpha1/api.pb.go:576-589 | the shifting loop reads the varint modulo 2^64, or fails with the same error, for any input |
| Decoders.SkipApi | pkg/device/podresources/v1alpha1/api.pb.go:1058-1156 | the iterative skipper computes Wire.Skip and terminates on every input |
| Decoders.SkipGroupApi | pkg/device/podresources/v1alpha1/api.pb.go:1117-1145 | the group loop, recursing only on shorter slices, computes Wire.SkipGroup |
| Decoders.ContainerDevicesMessage.Unmarshal | pkg/device/podresources/v1alpha1/api.pb.go:950-1057 | the loop leaves the message and the error of Messages.Decode, partial results on errors included, and terminates |
| Decoders.ContainerResourcesMessage.Unmarshal | pkg/device/podresources/v1alpha1/api.pb.go:840-949 | likewise, a child being appended before its own error is returned |
| Decoders.PodResourcesMessage.Unmarshal | pkg/device/podresources/v1alpha1/api.pb.go:701-839 | likewise |
| Decoders.ListPodResourcesResponseMessage.Unmarshal | pkg/device/podresources/v1alpha1/api.pb.go:620-700 | likewise |
| Decoders.MarshalAndUnmarshal | pkg/device/podresources/v1alpha1/api.pb.go:270-298 | marshalling a response into a buffer and unmarshalling that buffer leaves the response and no error |
| Decoders.UnmarshalRequest | pkg/device/podresources/v1alpha1/api.pb.go:570-619 | every record is skipped |

## Left out

- Managers.PredicateMeansFreeBoard: the cache does not change during the scan.
- Managers.Priority: fills the scores in a loop; the workers of the original write disjoint slots, so their order does not matter.
- Providers.ExtraResource: sending the map to the API server is not part of this model; for ids more than 18 above the start bit the value is only known to be an int64, because Go leaves that conversion open.
- Providers.TotalIsFile: for boards with ids in that range; how the API server merges an applied status is not part of this model.
- Messages.ResponseRoundTrip: for encodings shorter than 2^63 bytes, as any byte slice is; no nil elements.
- Decoders.MarshalAndUnmarshal: the same bound.
- Decoders.SkipApi: called with a non-empty input as its callers do; on an empty one the original panics.
- Decoders.PodResourcesMessage.Unmarshal: nested messages are kept by value once decoded; lengths are mathematical integers, so an index plus a length never overflows.
- Codec.MarshalResponseTo: takes the offset into the whole buffer instead of a sub-slice and requires room for the encoding, without which the original panics.
- Managers.Bind: no other cache call comes in between (`BindProtocol` has the interleavings); retry delays, and the update that removes the annotation after a refused binding, have no effect on the cache.
- BindRefinement.BindIsRun: for board numbers of 64 bits, as Go's are.
- CacheCalls.UpdateStores: the list names no pod twice, as a lister's does.
- BindProtocol.RunSafeExactly: lists passed to a rebuild name no pod twice. A retry is a new choice of the same thread.
- Controllers.AssignPod: the lister does not fail; queue, retries and the informers' own filtering are not part of this model.
- Locks are modelled as atomic calls; the allocator's look outside the lock is a step of its own in `BindProtocol`.
- Map iteration order, goroutine schedules and API answers are arbitrary; the hash of a device list is any function of the list.
- Kubernetes client, informers, HTTP routes, flags, gRPC serving and dialling, file watching and YAML parsing: foreign I/O.
- `SpreadAllocator` (it panics), the policy lookup, `GetBoardAttrs`, `GetOrinAttrs`, `String()`, getters and descriptors of the generated code, the pod-info files: no state the properties need.
