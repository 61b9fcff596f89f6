# lpv-res-predicate admission engine, in Dafny

A model of the admission decision of `lpv-res-predicate`, a Kubernetes scheduler extender.
Given a pod and a list of candidate nodes, the extender keeps the nodes that can still host the pod.
It counts cpu and memory that local persistent volumes (PVs) reserve, through annotations, for the pods that will use them.

The model follows the Go code file by file:

- `api.dfy` holds the Kubernetes objects, reduced to the fields the engine reads.
  It also holds the extender request and response records and the option record.
  The `Env` record stands for library behaviour whose source is not part of this model.
  Those are quantity parsing, node-selector matching, the volume node-affinity check, label selectors, and the BlockVolume and StorageObjectInUseProtection feature gates.
- `accessor.dfy` models the data-access collaborator as an immutable snapshot of cluster state.
  Its set `failing` names the reads whose backend fails.
  A get by name of a missing object reports `NotFound`.
  The subset type `Cluster` admits only snapshots where every Bound PV has a claim reference.
- `predicate.dfy` (module `PredicateHelpers`) holds the bookkeeping helpers:
  - normalising the request;
  - the pods that mount a claim;
  - whether a PV carries a reservation, and reading one annotation;
  - subtracting container requests, for one pod or many, with the "enough" flag.
- `unbound.dfy` holds the unbound-volume matcher `findMatchingVolume` and its checks.
  The policy for one volume is a pure verdict, `Judge`.
  The loop is proved against the scan function `Scan`.
- `handler_volumes.dfy` holds the volume-side steps of the handler:
  - the split of reservation-bearing PVs on a node into bound and unbound;
  - the pods on a PV;
  - the remaining reservation of a PV;
  - the node's available resources;
  - the PVs a pod claims.
- `handler.dfy` holds the two branches of `predicateOneNode` and the batch loop `predicate`.
- `options.dfy` holds the option defaults and `Validate`.
- `registry.dfy` holds the handler registry.
- `server.dfy` holds `buildPath`.

The Go code's loops are `method`s with loop invariants, proved against specification functions.
The properties the code promises are lemmas about those functions.

Go's map iteration order is random.
The model writes each loop over a Go map as a loop that picks an arbitrary remaining key (`:|`).
Its contract states only facts that hold in every order.
The sum of reservations held back on a node is the ghost function `Handler.Held`.
`Handler.HeldPick` proves that its value does not depend on the order.

Quirks of the code that the model keeps:

- A malformed value on either reservation annotation makes `getReservedResource` return an error.
  `remainReservedResources` then skips the whole PV, neither dimension counting (pkg/handlers/predicate/handler.go:307-331).
- The held-back reservation is subtracted without clamping, so the result can go negative.
- `availableResource` ignores the "enough" flag, so later containers of an overdrawing pod are not subtracted.
  `HandlerVolumes.AvailFoldUndercounts` exhibits this.
  `HandlerVolumes.AvailFoldOverdrawn` shows the node still ends below zero when requests are non-negative.
- After a pre-bound hit the matcher appends the volume and keeps scanning, so it may return several volumes (pkg/handlers/predicate/unbound.go:110-111).
- The matcher applies no capacity check to unbound volumes; `Unbound.JudgeIgnoresRequestWhenUnbound` states it.
- A claim that cannot be read makes `localPersistentVolumeOnPodOnNode` fail, which aborts the whole batch (pkg/handlers/predicate/handler.go:261-264).
- `substractPodsResource` reports "enough" when no container is subtracted at all, even from a negative start.
  `PredicateHelpers.PodsSubtractionNonNegative` states it exactly: enough holds iff there is no container, or the start covers the total.
- A name made only of slashes gives a path with an empty segment (`"//b"`).

## Model

| member | source | states |
|---|---|---|
| Accessor.PodsWith | pkg/handlers/predicate/resource_accessor.go:62-73 | the pods selected by one field are exactly those whose field has the value: by namespace, the snapshot's pods in that namespace; by node (the scan in handler.go:241-246), the pods scheduled on that node |
| Accessor.FindPersistentVolume | pkg/handlers/predicate/resource_accessor.go:75-86 | a found PV is in the snapshot and has the name asked for; none is found only when no PV has that name |
| Accessor.FindClaim | pkg/handlers/predicate/resource_accessor.go:101-112 | a found claim is in the snapshot with the namespace and name asked for; none only when no claim matches both |
| Accessor.FindNode | pkg/handlers/predicate/resource_accessor.go:114-125 | a found node is in the snapshot with the name asked for; none only when no node has that name |
| Accessor.GetPersistentVolume | pkg/handlers/predicate/resource_accessor.go:75-86 | the read succeeds exactly when the PV backend is up and the snapshot holds a PV of that name, and then returns it; a backend failure yields that backend error; otherwise the error is not-found for that PV name |
| Accessor.GetPersistentVolumeClaim | pkg/handlers/predicate/resource_accessor.go:101-112 | the read succeeds exactly when the claim backend is up and the snapshot holds a claim with that namespace and name, and then returns it; a backend failure yields that backend error; otherwise the error is not-found for namespace/name |
| Accessor.GetNode | pkg/handlers/predicate/resource_accessor.go:114-125 | the read succeeds exactly when the node backend is up and the snapshot holds a node of that name, and then returns it; a backend failure yields that backend error; otherwise the error is not-found for that node name |
| PredicateHelpers.GetNodeNames | pkg/handlers/predicate/predicate.go:16-33 | three cases: no body, no pod or neither list gives no names and hasNode false; an explicit name list wins, with hasNode false; otherwise the names of the node items, in order and of equal length, with hasNode true |
| PredicateHelpers.PvcVolumesSelects | pkg/handlers/predicate/predicate.go:54-68 | the claim volumes are an order-preserving subsequence of the volumes, and a volume is among them iff it has a claim source |
| PredicateHelpers.GetPvcVolumeSources | pkg/handlers/predicate/predicate.go:54-68 | the loop returns exactly the claim-volume filter of its input |
| PredicateHelpers.ClaimMountsPositive | pkg/handlers/predicate/predicate.go:44-48 | a pod's volumes mount a claim at least once iff one of them names that claim |
| PredicateHelpers.ClaimMountsOfPvcVolumes | pkg/handlers/predicate/predicate.go:39-48 | counting mounts over the claim volumes only gives the same count as over all volumes |
| PredicateHelpers.MountPodsMembers | pkg/handlers/predicate/predicate.go:35-52 | a pod is among the mounting pods iff it is an input pod with a volume naming the claim |
| PredicateHelpers.GetMountPods | pkg/handlers/predicate/predicate.go:35-52 | the nested loop returns the mounting pods in input order, once per matching volume, with no error case |
| PredicateHelpers.ConsiderReserveResource | pkg/handlers/predicate/predicate.go:78-96 | consider iff the PV is local and carries the cpu key or the mem key, whatever their values; bound iff its phase is Bound, independently of consider |
| PredicateHelpers.GetResevedResource | pkg/handlers/predicate/predicate.go:98-106 | an absent key gives zero, not present, no error; a present key gives present, an error iff its value does not parse, else the parsed value |
| PredicateHelpers.ReqTotalNonNegative | pkg/handlers/predicate/predicate.go:144-153 | non-negative container requests sum to a non-negative total |
| PredicateHelpers.PodSubtractionEnough | pkg/handlers/predicate/predicate.go:144-153 | on enough the result is from minus the pod's total request, non-negative when there is a container; with no container it is (from, true) even for negative from |
| PredicateHelpers.PodSubtractionStops | pkg/handlers/predicate/predicate.go:144-153 | on not enough the result is negative and equals from minus the requests of the first j containers, where every shorter prefix left a non-negative value, so later containers are not subtracted |
| PredicateHelpers.PodSubtractionIff | pkg/handlers/predicate/predicate.go:144-153 | enough iff every running remainder after each container is non-negative |
| PredicateHelpers.PodSubtractionNonNegative | pkg/handlers/predicate/predicate.go:144-153 | with non-negative requests, enough iff there is no container or from is at least the total |
| PredicateHelpers.PodSubtractionNotAbove | pkg/handlers/predicate/predicate.go:144-153 | with non-negative requests the result never exceeds from |
| PredicateHelpers.PodSubtractionMonotone | pkg/handlers/predicate/predicate.go:144-153 | if a smaller start with larger requests is enough, then the larger start with smaller requests is enough |
| PredicateHelpers.PodSubtractionSameRequests | pkg/handlers/predicate/predicate.go:144-153 | the outcome depends only on the requests of the chosen resource |
| PredicateHelpers.SubstractPodResource | pkg/handlers/predicate/predicate.go:144-153 | the container loop computes exactly the pod subtraction, result and flag |
| PredicateHelpers.SubPodCpuRequest | pkg/handlers/predicate/predicate.go:120-124 | the pod subtraction on cpu requests |
| PredicateHelpers.SubPodMemRequest | pkg/handlers/predicate/predicate.go:126-130 | the pod subtraction on memory requests |
| PredicateHelpers.PodsSubtractionResult | pkg/handlers/predicate/predicate.go:132-142 | folding over pods: on enough the result is from minus the total over all pods; on not enough it is negative |
| PredicateHelpers.PodsSubtractionNonNegative | pkg/handlers/predicate/predicate.go:132-142 | with non-negative requests, enough iff no pod has a container or from is at least the total over all pods |
| PredicateHelpers.SubstractPodsResource | pkg/handlers/predicate/predicate.go:132-142 | the pod loop, stopping at the first insufficient pod, computes exactly the fold |
| PredicateHelpers.SubCpuRequest | pkg/handlers/predicate/predicate.go:108-112 | the fold on cpu requests |
| PredicateHelpers.SubMemRequest | pkg/handlers/predicate/predicate.go:114-118 | the fold on memory requests |
| Unbound.IsVolumeBoundToClaim | pkg/handlers/predicate/unbound.go:201-212 | true iff the claim ref is set, its name and namespace are the claim's, and its uid is empty or the claim's |
| Unbound.BoundToOneClaim | pkg/handlers/predicate/unbound.go:201-212 | a volume bound to two claims names the same claim (and the same uid when it records one) |
| Unbound.CheckVolumeModeMisMatches | pkg/handlers/predicate/unbound.go:165-180 | gate off: never a mismatch and no error; gate on: an error (with mismatch) iff a mode is missing on either side, else mismatch iff the modes differ |
| Unbound.CheckAccessModes | pkg/handlers/predicate/unbound.go:183-196 | true iff every claim access mode is among the volume's (so empty claim modes give true) |
| Unbound.Judge | pkg/handlers/predicate/unbound.go:59-151 | the verdict on one volume: an excluded volume is skipped; the verdict is an error exactly when the volume is not excluded and the volume-mode check errs; a pre-bound candidate (common checks pass, volume bound to this claim, capacity at least the request) is taken when its node affinity is valid and aborts the scan otherwise, and abort happens in no other case; a volume is taken exactly when it is a pre-bound candidate with valid affinity or a free candidate (common checks pass, not bound to this claim, not (no node and delayed binding), no claim ref, selector matching, equal class, valid affinity, access modes covered) |
| Unbound.JudgeIgnoresRequestWhenUnbound | pkg/handlers/predicate/unbound.go:94-151 | for a volume not bound to the claim, the verdict does not depend on the claim's requested storage: capacity is compared only on the pre-bound path |
| Unbound.ScanClear | pkg/handlers/predicate/unbound.go:59-154 | when no volume aborts or errs, the scan returns the accumulated list followed by every taken volume in order |
| Unbound.ScanError | pkg/handlers/predicate/unbound.go:68-71 | a scan error is the error of the first halting volume's failed mode check |
| Unbound.ScanAbort | pkg/handlers/predicate/unbound.go:102-107 | when the first halting volume is a pre-bound one with invalid affinity, the scan returns no volumes and no error, discarding earlier matches |
| Unbound.ScanFailsWithoutNode | pkg/handlers/predicate/unbound.go:84-107 | without a node no volume aborts, so a volume whose mode check errs makes the scan err |
| Unbound.TakesMembers | pkg/handlers/predicate/unbound.go:59-152 | a volume is in the taken list iff it is an input volume whose verdict is Take |
| Unbound.ScanSound | pkg/handlers/predicate/unbound.go:59-154 | a successful scan keeps the accumulated prefix and appends an order-preserving subsequence of the input, every element taken |
| Unbound.FindMatchingWithoutNode | pkg/handlers/predicate/unbound.go:84-92 | with no node, the gate off and a valid selector, the match is exactly the taken volumes |
| Unbound.FindMatchingSound | pkg/handlers/predicate/unbound.go:59-63 | the match is an order-preserving subsequence of the input in which every volume is taken, so none is excluded or bound to another claim |
| Unbound.FindMatchingMalformedSelector | pkg/handlers/predicate/unbound.go:44-51 | a selector that does not convert gives the malformed-selector error for that claim |
| Unbound.FindMatchingVolume | pkg/handlers/predicate/unbound.go:31-155 | the loop with its continues and early returns computes exactly the matching function |
| HandlerVolumes.SplitOnNodeSpec | pkg/handlers/predicate/handler.go:194-222 | both maps are keyed by PV name and hold only input PVs that carry a reservation, have affinity terms and match the node; the first holds the Bound ones, the second the others; every such PV is in one of them |
| HandlerVolumes.SplitOnNodeBound | pkg/handlers/predicate/handler.go:200-219 | every entry of the first map is an input PV stored under its own name that carries a reservation, matches the node and is Bound |
| HandlerVolumes.SplitOnNodeUnbound | pkg/handlers/predicate/handler.go:200-219 | every entry of the second map is an input PV stored under its own name that carries a reservation, matches the node and is not Bound |
| HandlerVolumes.SplitOnNodeComplete | pkg/handlers/predicate/handler.go:200-219 | every input PV that carries a reservation and matches the node has its name in the map for its phase |
| HandlerVolumes.SplitOnNodeDisjoint | pkg/handlers/predicate/handler.go:200-219 | with unique PV names the two maps share no key, and each qualifying PV is stored under its own name |
| HandlerVolumes.GetReservedResourceLocalPVOnNode | pkg/handlers/predicate/handler.go:194-222 | the loop fills the two maps as the split function does; a listing error propagates |
| HandlerVolumes.PodsOnVolumeSpec | pkg/handlers/predicate/handler.go:224-248 | a PV read error or a PV not Bound gives no pods and no error; an error only from the namespace listing; otherwise exactly the pods of the claim ref's namespace on the node that mount the claim ref's name |
| HandlerVolumes.GetPodsOnPVOnNode | pkg/handlers/predicate/handler.go:224-248 | the method computes exactly the pods-on-volume function |
| HandlerVolumes.GetReservedResource | pkg/handlers/predicate/handler.go:307-323 | an error iff either present annotation is malformed, and then neither dimension counts as configured; otherwise each dimension is configured iff its key is present, with the parsed value |
| HandlerVolumes.RemainingCases | pkg/handlers/predicate/handler.go:326-358 | a parse error skips the PV with neither flag; a pod-listing error is returned without skipping; otherwise the PV is skipped iff a configured reservation runs out, and else each configured one is reduced by the mounting pods' total |
| HandlerVolumes.RemainReservedResources | pkg/handlers/predicate/handler.go:326-358 | the method computes exactly the remaining-reservation function |
| HandlerVolumes.AvailFoldNoOverdraw | pkg/handlers/predicate/handler.go:288-305 | when the node's pods do not overdraw it, available is allocatable minus the total request of the pods scheduled on the node |
| HandlerVolumes.AvailFoldOverdrawn | pkg/handlers/predicate/handler.go:296-303 | with non-negative requests, a node its pods overdraw ends with a negative available value |
| HandlerVolumes.AvailFoldNotAbove | pkg/handlers/predicate/handler.go:296-303 | with non-negative requests, available never exceeds allocatable |
| HandlerVolumes.AvailFoldUndercounts | pkg/handlers/predicate/handler.go:301-302 | allocatable 1 and one pod requesting 2 then 3 gives -1: the second container is not subtracted |
| HandlerVolumes.AvailableResource | pkg/handlers/predicate/handler.go:288-305 | the pod loop computes exactly the available function; a listing error is wrapped with the node name |
| HandlerVolumes.PodPVsSound | pkg/handlers/predicate/handler.go:250-285 | every PV in the resolved map arrives through one of the pod's volumes: that volume's claim reads successfully and either names a bound-on-node PV under the same key, or (only with unbound PVs considered) has no volume name and the matcher takes an unbound-on-node PV of that name; the stored PV is the one so supplied |
| HandlerVolumes.PodPVsComplete | pkg/handlers/predicate/handler.go:250-285 | conversely, every PV some pod volume supplies in that way is in the resolved map |
| HandlerVolumes.ClaimStepSound | pkg/handlers/predicate/handler.go:261-282 | one claim volume keeps the map sourced from the volumes seen so far: each key in the new map is supplied by some volume of the extended list |
| HandlerVolumes.ClaimStepKeeps | pkg/handlers/predicate/handler.go:261-282 | a key of the new map that the new volume does not supply was already present and keeps its earlier PV |
| HandlerVolumes.ClaimStepComplete | pkg/handlers/predicate/handler.go:261-282 | every key supplied by the extended list of volumes is in the new map |
| HandlerVolumes.PodPVsStep | pkg/handlers/predicate/handler.go:260-284 | the volumes resolved so far, extended by one more claim volume, are that volume's claim step applied to them |
| HandlerVolumes.PodPVsClaimError | pkg/handlers/predicate/handler.go:261-264 | a claim that cannot be read, at any position among the pod's volumes, makes the whole resolution fail |
| HandlerVolumes.PodPVsErrorSticks | pkg/handlers/predicate/handler.go:260-264 | once a claim read has failed, later volumes do not change the outcome |
| HandlerVolumes.MatchErrorIffFails | pkg/handlers/predicate/handler.go:274-278 | the matcher over the listed unbound PVs errs iff its failure predicate holds, whatever the listing order |
| HandlerVolumes.MatchedIsUnboundMatches | pkg/handlers/predicate/handler.go:274-281 | the PVs the matcher returns, keyed by name, are the order-independent set of matching unbound PVs |
| HandlerVolumes.TakesKeys | pkg/handlers/predicate/handler.go:274-281 | the names the matched PVs are stored under are exactly the names of the unbound PVs the matcher takes |
| HandlerVolumes.TakesValues | pkg/handlers/predicate/handler.go:279-281 | under each such name sits the very unbound PV the matcher takes |
| HandlerVolumes.InsertAll | pkg/handlers/predicate/handler.go:279-281 | the loop adds every found PV under its name, later ones winning |
| HandlerVolumes.ListValues | pkg/handlers/predicate/handler.go:255-258 | the list holds exactly the map's values |
| HandlerVolumes.ResolveClaimVolume | pkg/handlers/predicate/handler.go:261-282 | one claim volume: a bound claim adds its PV if it is on the node; an unbound claim adds the matcher's PVs when considered; a matcher error is ignored; a claim read error propagates |
| HandlerVolumes.ResolveClaimVolumes | pkg/handlers/predicate/handler.go:260-284 | the loop over the claim volumes computes exactly the claim-resolution function, stopping at the first claim read error |
| HandlerVolumes.LocalPersistentVolumeOnPodOnNode | pkg/handlers/predicate/handler.go:250-285 | the loop over the claim volumes computes exactly the claim-resolution function |
| Handler.CheckClaimedVolumes | pkg/handlers/predicate/handler.go:130-152 | branch A without error: fit iff every claimed PV is skipped or covers the pod on each configured dimension; otherwise some PV's cpu or memory reason is given; an error only when some PV errs, and always when the only non-passing PVs err |
| Handler.HeldPick | pkg/handlers/predicate/handler.go:166-182 | the held-back total does not depend on which PV is taken first |
| Handler.HeldStep | pkg/handlers/predicate/handler.go:166-182 | taking one more PV into the held-back total adds exactly that PV's contribution |
| Handler.ReserveOne | pkg/handlers/predicate/handler.go:167-181 | one PV: an error iff it is not skipped and its remainder errs; otherwise each dimension is reduced by what the PV holds back |
| Handler.MergeUnbound | pkg/handlers/predicate/handler.go:160-164 | the merged map is the bound map overwritten by the unbound map |
| Handler.SubtractReservations | pkg/handlers/predicate/handler.go:166-182 | an error iff some PV errs; otherwise each dimension is reduced by the total held back by all PVs, in any order |
| Handler.CheckPodRequests | pkg/handlers/predicate/handler.go:184-189 | fit iff both the cpu and the memory request are covered; a cpu shortfall is reported before a memory one, each with its own reason |
| Handler.CheckRemainder | pkg/handlers/predicate/handler.go:166-189 | after holding back the reservations, fit iff the pod's cpu and then memory requests are covered, cpu being reported first, each with its own reason |
| Handler.CheckNodeRemainder | pkg/handlers/predicate/handler.go:153-190 | branch B: an error iff listing pods fails or some PV errs; otherwise fit iff the pod fits in allocatable minus scheduled requests minus held-back reservations, unbound PVs counting only when considered |
| Handler.PredicateOneNode | pkg/handlers/predicate/handler.go:117-192 | without error, fit iff the node fits (branch A when the pod claims a reserved PV, branch B otherwise); an unfit node gets a valid reason; an error only when a read can fail, and none when none can |
| Handler.FitsMonotone | pkg/handlers/predicate/handler.go:117-192 | raising the pod's container requests (cpu, memory or both; same namespace and volumes) never turns an unfit node into a fit one, in either branch of the node decision |
| Handler.FitNamesSelects | pkg/handlers/predicate/handler.go:94-109 | the fit names are an order-preserving subsequence of the input, exactly the names whose node can be read and fits |
| Handler.TallyMeans | pkg/handlers/predicate/handler.go:94-109 | a finished scan lists the fit names in order, read every node, and maps exactly the unfit names to valid reasons |
| Handler.Predicate | pkg/handlers/predicate/handler.go:80-115 | no names gives the empty result; on success the fit names in order, the failed map exactly the unfit names with valid reasons, every node readable; any node-read or per-node error aborts with that error; success whenever no read can fail |
| Options.NewOptions | cmd/predicate-server/app/options/options.go:20-29 | the defaults: port 8089, keys reserved-cpu and reserved-mem, unbound PVs considered, no kubeconfig and no master |
| Options.ValidationErrors | cmd/predicate-server/app/options/options.go:40-51 | the API-server error iff both kubeconfig and master are empty; the port error iff port ≤ 0; at most two errors, in that order; none iff valid |
| Options.Validate | cmd/predicate-server/app/options/options.go:40-51 | the conditional appends compute exactly the validation errors; the options are a value and are not changed |
| Options.DefaultsNeedApiServer | cmd/predicate-server/app/options/options.go:20-49 | validating the defaults gives exactly the API-server error |
| Registry.Registered | pkg/handler.go:22-28 | a present name panics; a fresh name is added with its init and every other entry is kept |
| Registry.SecondRegistrationPanics | pkg/handler.go:23-25 | registering a name a second time panics |
| Registry.RegistrationsCommute | pkg/handler.go:22-28 | registrations of two different fresh names give the same registry in either order |
| Registry.HandlerRegistry.constructor | pkg/handler.go:30 | the registry starts empty |
| Registry.HandlerRegistry.Register | pkg/handler.go:22-28 | panics iff the name is present, and then leaves the registry unchanged; otherwise the new registry is the old one with the name added |
| Server.TrimLeft | pkg/server.go:49-53 | the result is a suffix left after removing a run of '/' and does not start with '/' |
| Server.TrimRight | pkg/server.go:49-53 | the result is a prefix left after removing a run of '/' and does not end with '/' |
| Server.Trim | pkg/server.go:49-53 | the result neither starts nor ends with '/' |
| Server.BuildPath | pkg/server.go:48-54 | the path starts with '/' and, unless both parts trim to nothing, does not end with '/' |
| Server.TrimPrependSlash | pkg/server.go:49-53 | an extra leading '/' does not change the trimmed string |
| Server.TrimAppendSlash | pkg/server.go:49-53 | an extra trailing '/' does not change the trimmed string |
| Server.TrimIdempotent | pkg/server.go:49-53 | trimming twice is trimming once |
| Server.BuildPathIgnoresBoundarySlashes | pkg/server.go:48-54 | adding a leading or trailing '/' to either argument does not change the path |
| Server.BuildPathEmptyName | pkg/server.go:53 | a name of only slashes with a non-empty sub-path gives "//" followed by the sub-path |
| Server.TrimSlashed | pkg/server.go:49-50 | a single character other than '/' between two slashes trims to that character |
| Server.BuildPathSingle | pkg/server_test.go:6-16 | a one-character name, bare or between slashes, with an empty sub-path gives "/" and that character (the cases ("a","") and ("/a/","")) |
| Server.BuildPathPair | pkg/server_test.go:6-16 | one-character name and sub-path, each between slashes, give "/x/y" (the case ("/a/","/b/") giving "/a/b") |

## Left out

- HTTP and JSON plumbing is not modelled, because it is I/O only. This covers `handle`, `responseErr`, the tools and health handlers, `PredicateServer.Run`, routing and `main`.
- Flag binding (`AddFlags`), client and informer construction are not modelled, because they are foreign libraries.
- The accessor's lister internals are replaced by the snapshot.
  The lister-backed accessor reports a nil listing as a `NoExist` error; the snapshot returns an empty list instead.
  So the model succeeds where the code fails when a listing is empty and the lister hands back nil. With no PVs in the cluster, `GetAllPersistentVolume` errs (pkg/handlers/predicate/resource_accessor.go:94-96), `getReservedResourceLocalPVOnNode` fails for every node (pkg/handlers/predicate/handler.go:195-198) and the whole batch errors. With no pods in a claim's namespace, `getPodsOnPVOnNode` errs the same way (pkg/handlers/predicate/handler.go:236-239). The model returns success in both cases.
  `UpdatePersistentVolume` is never used by the engine.
- Kubernetes library behaviour is given by `Env`, because its source is not part of this model.
  This covers the quantity grammar, selector conversion and matching, `MatchNodeSelectorTerms` behind `nodeMatchesNodeSelectorTerms`, `CheckNodeAffinity`, the class getters and the feature gates.
- Quantities are unbounded integers in milli-units. Decimal scale and `Quantity` formatting are not modelled.
- Logging and timing are not modelled, because they have no behaviour.
- Outcomes that depend on Go's map iteration order are not stated. These are which PV's reason string is reported, and whether an error or an unfit verdict comes first when both are possible.
  - Handler.CheckClaimedVolumes: states only that some PV's reason is given, and that an error is possible only when some PV errs.
  - Handler.PredicateOneNode: states that an error needs a read that can fail, not that every such read yields one.
  - Handler.Predicate: states only which errors can abort the batch, not which node's error is reported first when several can fail.
- The `nodeMap` echo of `getNodeNames` is not modelled, because it aliases every entry to one loop variable. Only the name list is modelled.
- Nil dereferences are not modelled as panics.
  - A missing claim or node is read from the snapshot as a `NotFound` error.
  - A Bound PV without a claim reference is excluded by the `Cluster` type.
- Nil slices and empty slices are the same value in the model. For example, `getPvcVolumeSources` returning nil for nil input is an empty sequence.
- HandlerVolumes.ClaimStep: its case for a volume without a claim source is unreachable, because only claim volumes are passed in. It returns the map unchanged.
- Options.Validate: the error texts are not modelled. Each error is a constructor carrying the offending port.
- Registry.HandlerRegistry.Register: the panic is modelled as a `true` result with the registry left unchanged.
