# Verified model of the SkyCluster operator

This project models the parts of the SkyCluster operator that carry invariants, and proves the
invariants. `dafny verify dfyconfig.toml` checks all of it.

| Part of the operator | Modules |
|---|---|
| Failover labels and the Istio objects built from them | `Failover`, `Ranking`, `FailoverKeys`, `Mesh` |
| The ILPTask protocol of three controllers over the API server | `Protocol`, `MergePatch`, `TwoWriters`, `PodClaim`, `PodEnds`, `Approval`, `Recovery`, `Controllers`, `Guarantees` |
| The runner machine shared by Image and InstanceType | `Runner`, `RunnerProgress`, `RunnerReconciler` |
| Choosing offerings, the flavor of a virtual machine, first-fit placement | `Selection`, `Candidates`, `VmFlavor`, `K8sSelection`, `Placement` |
| The optimizer's tables, latencies, address rows, status manifests | `ProviderMatrix`, `LatencyCoverage`, `IndexMap`, `ManifestOrder` |
| Names, label keys, nested paths | `K8sName`, `LabelKey`, `NestedMap` |
| Shared | `Wrappers`, `Text`, `Ordering` |

Protocols are state machines: the API server's calls are atomic, and between any two calls of a
controller others may act, a call may fail, meet a Conflict, take effect without its answer arriving, or
the controller may crash. Reconciles of one key are serialised and reads are consistent. `Update` carries
a resource version and a merge patch does not. `Controllers` holds the reconciles of the protocol as they
are written, with early returns, and proves that each of them, while the others act between its calls as
they please, is a run of the machine. `RunnerReconciler` holds the runner's reconcile with its status
fields set one by one, and proves that what it stores is the machine's decision. Where the code loops
over data the model loops as well, and each such method is proved against a function whose properties the
lemmas state. `Result` has a value for a Go panic. Go's map iteration is an arbitrary choice,
`sort.SliceStable` a stable sort, and `sort.Slice` any sorted permutation.

Parameters of the model: the hash of a label key, the parsed form of JSON, quantities and prices, the
clock, the contents of pod logs, the names the server generates, and the latency of a pair. Prices and
resources are `real`.

## What the code does not do

Some properties the code's comments suggest do not hold. Each has a lemma or contract that covers every
input of the kind, and a run from nothing or a concrete input where it is not plain that such inputs
arise. Where the property does hold of other inputs, an exact condition says of which.

- A policy controller takes a Conflict of its patch for a success, so a reconcile can report success and
  leave the old version referenced (`TwoWriters.SwallowedConflictLeavesStale`, exact in
  `TwoWriters.SuccessExact` and `TwoWriters.WritersConverge`).
- A failed List of optimization pods counts as an empty one and leads to a second pod
  (`PodClaim.FailedListDoublesPods`, exact in `PodClaim.OnePodPerTask` and `PodClaim.MissedPodDoubles`).
- Any error of the first read of an ILPTask, not only "not found", deletes its pods, and so does a claim
  that takes effect but loses its answer: the task goes on naming a terminated pod
  (`PodEnds.FailedReadTerminatesClaimedPod` and `PodEnds.LostAnswerTerminatesClaimedPod`, exact in
  `PodEnds.NamedPodEndsExact`).
- A pod that fails is polled for ever: the branch for a failed optimization is never taken
  (`Recovery.FailedPodIsPolled`, for every state in `Recovery.PolledForEver`; `Recovery.OnlySuccessIsStored`).
- The comment on the claim says that the merge patch detects conflicts. It does not
  (`PodClaim.UnserialisedClaimsBothSucceed`); one pod per task holds because reconciles are serialised.
- An approval sent as a merge patch may approve a plan its sender has not read
  (`Approval.PatchApprovesUnreadPlan`, exact in `Approval.PatchedApprovalExact`).
- The flavor of a virtual machine may be one that only another provider offers: profiles are looked up by
  platform, region and alias, not by name (`VmFlavor.NeighboursFlavor`, exact in
  `VmFlavor.OwnOfferingsExact`).
- A source with edges to two placements that back each other up is not ranked: the second edge
  overwrites the label that made the first target the primary (`Ranking.MutualBackupsBreakRanking` and
  `Ranking.TwoReplicasExample`, exact in `Ranking.RankingExact`).
- A DestinationRule may have several subsets of one name, so that routes cannot tell them apart
  (`Mesh.TwoPlacementsShareSubset`, exact in `Mesh.SubsetNamesExact`), and joined object names may mix two
  services (`Mesh.ObjectNamesCanCollide`, excluded in `Mesh.ObjectsAreOfOneService`).
- A deployment component that no edge names and no edge falls back to makes `generateDeployManifests`
  panic (`Mesh.LoneDeploymentPanics`, exact in `Mesh.GenerateDeployManifests`), and an XInstance without a
  flavor makes `generateVMManifests` panic (exact in `VmFlavor.MachinesExact`).
- An edit of an Image or InstanceType while its Job is recorded as running leaves it recorded as
  running for ever (`Runner.EditDuringRunWedges`, which `Runner.RunsDoStart` shows to arise; exact in
  `RunnerProgress.ProgressExact`).
- `EnsureK8sName` does not return if the labels before the last leave no byte for it
  (`K8sName.DotsLoopForEver`, exact in `K8sName.EndsIffFits`).
- A provider outside the three public clouds that lists no egress costs makes the table of provider
  attributes panic (`ProviderMatrix.DefaultsPanic`, exact in `ProviderMatrix.TableExists`).
- Sanitized and joined names of sites may coincide, and then one Latency object stands for several pairs of
  sites (`ProviderMatrix.SanitizedSitesCollide`, `ProviderMatrix.JoinedSitesCollide`, exact in
  `ProviderMatrix.CollisionExact`; excluded in `ProviderMatrix.PairLabelExact`).
- The patch that annotates a ProviderProfile with its Image is computed from a copy taken after the
  change and always sends nothing (`MergePatch.LateCopySendsNothing`).

## Model

| member | source | states |
|---|---|---|
| `Failover.DerivePriorities` | internal/controller/core/atlasmesh/atlasmesh_controller.go:767-957 | the loop over the edges computes `Derive`, the edge-by-edge effect on the shared maps, for any way of shortening keys |
| `Failover.BackupIsNearest` | internal/controller/core/atlasmesh/atlasmesh_controller.go:892-926 | the backup of an edge is another placement of the same component; none shares more of region alias, region and zone with the source, and none that shares as many has a lesser provider name; there is no backup only if there is no other placement |
| `Failover.BackupInPlace` | internal/controller/core/atlasmesh/atlasmesh_controller.go:896-926 | a placement that agrees with the source in region alias, region and zone is never passed over for one that does not |
| `Ranking.RankingExact` | internal/controller/core/atlasmesh/atlasmesh_controller.go:767-957 | after all edges every edge is ranked (primary matches the whole ordered list, backup exactly its first label, everyone else nothing) if and only if repeated edges agree on their backup and no two targets of one source back each other up |
| `FailoverKeys.ShortenedRankingExact` | internal/controller/core/atlasmesh/atlasmesh_controller.go:868-888 | the same with the operator's own joined and shortened keys, unless joined names coincide or two shortened ones cannot be told apart |
| `FailoverKeys.TwoKeys` | internal/controller/utils/utils.go:657-732 | two failover keys that can be told apart after shortening come from one joined name |
| `Ranking.OneEdgePerTargetComponent` | internal/controller/core/atlasmesh/atlasmesh_controller.go:785-798 | one edge per source and target component, unambiguous names and injective keys are enough for every ranking to hold |
| `Ranking.SourceLabels` | internal/controller/core/atlasmesh/atlasmesh_controller.go:849-955 | the ordered list of a destination rule is the labels of its own edges, in order, whatever other edges do |
| `Ranking.RuleOfAnEdge` | internal/controller/core/atlasmesh/atlasmesh_controller.go:849-951 | the rule of an edge that is alone between its ends, written out: the label "failover/" source "-" target with its value and, if the component has another placement, the label of the placement that shares the most with the source, its value ending in "-backup" |
| `Ranking.PodLabels` | internal/controller/core/atlasmesh/atlasmesh_controller.go:849-955 | every label on a pod was written by some edge and every label some edge writes is on the pod |
| `Ranking.LabelSurvives` | internal/controller/core/atlasmesh/atlasmesh_controller.go:849-955 | no edge destroys a label that another edge needs |
| `Ranking.PrimaryMatchesAll` | internal/controller/core/atlasmesh/atlasmesh_controller.go:785-798 | the primary of an edge carries every label of its rule |
| `Ranking.BackupMatchesFirst` | internal/controller/core/atlasmesh/atlasmesh_controller.go:785-798 | the backup of an edge matches the first label and not the second |
| `Ranking.OthersMatchNothing` | internal/controller/core/atlasmesh/atlasmesh_controller.go:785-798 | every other endpoint matches no prefix of the rule |
| `Ranking.MutualBackupsOverwrite` | internal/controller/core/atlasmesh/atlasmesh_controller.go:849-955 | of two targets of one source that back each other up one has lost its primary label, whatever the other edges are |
| `Ranking.MutualBackupsBreakRanking` | internal/controller/core/atlasmesh/atlasmesh_controller.go:767-957 | in every plan, for every shortening that keeps keys apart: of two edges of one source whose targets back each other up one is not ranked |
| `Ranking.TwoReplicasBreakRanking` | internal/controller/core/atlasmesh/atlasmesh_controller.go:767-957 | in every plan, for every shortening that keeps keys apart: a source with edges to both placements of a component that has exactly two has an edge that is not ranked |
| `Ranking.TwoReplicasExample` | internal/controller/core/atlasmesh/atlasmesh_controller.go:767-957 | the smallest such plan, three components and two edges, with unshortened keys |
| `Ranking.EntriesExact` | internal/controller/core/atlasmesh/atlasmesh_controller.go:849-955 | every entry of every rule is a label of the target's pods if and only if no two targets of one source back each other up |
| `Ranking.SharedKeyBreaksRanking` | internal/controller/core/atlasmesh/atlasmesh_controller.go:868-888 | in a plan of two edges whose labels coincide, one of them is not ranked although neither of the two conditions is violated |
| `Ranking.SharedLabelBreaksRanking` | internal/controller/core/atlasmesh/atlasmesh_controller.go:868-888 | in every plan: an edge whose first label another edge gives to an endpoint outside its failover is not ranked, if nobody writes another value over that label |
| `Ranking.NamesCanCollide` | internal/controller/core/atlasmesh/atlasmesh_controller.go:868-872 | joining names with "-" does make one string out of two pairs |
| `Mesh.GenerateIstioConfig` | internal/controller/core/atlasmesh/atlasmesh_controller.go:959-1122 | the VirtualServices and DestinationRules hold, under every name, the host and provider of the first contributing edge, one route and one subset for each contributing edge in order, and nothing else; an error exactly if the target of some edge is a deployment without a Deployment object |
| `Mesh.EdgesAreRouted` | internal/controller/core/atlasmesh/atlasmesh_controller.go:993-1115 | every edge to a Deployment behind a service has, in the objects of that service in the cluster of its source, a route from the pods labelled with its source placement to the subset named after its source component, and that subset with one "key=value" entry for each label of its rule, in order |
| `Mesh.RoutesAreOfEdges` | internal/controller/core/atlasmesh/atlasmesh_controller.go:993-1115 | and every route and subset there is belongs to such an edge |
| `Mesh.AddRoute` | internal/controller/core/atlasmesh/atlasmesh_controller.go:1025-1115 | one edge adds its route and its subset under one name and leaves every other name alone |
| `Mesh.FindService` | internal/controller/core/atlasmesh/atlasmesh_helper.go:8-15 | the first service whose selector the template satisfies |
| `Mesh.FirstMatchExact` | internal/controller/core/atlasmesh/atlasmesh_helper.go:8-15 | a service is found exactly if the template covers its selector and that of no earlier one, an empty selector value being as good as none |
| `Mesh.GenerateDeployManifests` | internal/controller/core/atlasmesh/atlasmesh_controller.go:624-745 | one pod template per deployment component; an error exactly if the first component that fails has no Deployment object, a panic exactly if it has one but no edge goes from it, to it, or falls back to it |
| `Mesh.PanicsExact` | internal/controller/core/atlasmesh/atlasmesh_controller.go:644-650 | if every deployment component has its Deployment object, it panics exactly for a plan with a deployment component that no edge names and no edge falls back to |
| `Mesh.LoneDeploymentPanics` | internal/controller/core/atlasmesh/atlasmesh_controller.go:644-650 | it panics for a plan of one deployment without edges |
| `Failover.DerivedNames` | internal/controller/core/atlasmesh/atlasmesh_controller.go:767-957 | the priorities have an entry for exactly the sources, targets and backups of the edges |
| `Mesh.PodsOfMembers` | internal/controller/core/atlasmesh/atlasmesh_controller.go:630-690 | each deployment component has its pods, they carry its failover labels over the template's own, and there are no others |
| `Mesh.PodTemplateExact` | internal/controller/core/atlasmesh/atlasmesh_controller.go:668-676 | the labels of a pod: the failover labels, over managed-by and component, over all labels of the Deployment's own template, and nothing else |
| `Mesh.RoutesApply` | internal/controller/core/atlasmesh/atlasmesh_controller.go:1062-1071 | the source label of a route is the component label of the pods of the edge's source, unless a failover label took that key |
| `Mesh.EntriesAreOnPods` | internal/controller/core/atlasmesh/atlasmesh_controller.go:1084-1115 | every failoverPriority entry of an edge is a label, key and value, of the pods of the edge's target, if no targets back each other up |
| `Mesh.ReferencesResolve` | internal/controller/core/atlasmesh/atlasmesh_controller.go:993-1122 | the i-th route of a VirtualService names the i-th subset of the DestinationRule of the same name, and both come from one edge; its host is the service of that edge |
| `Mesh.SubsetNamesExact` | internal/controller/core/atlasmesh/atlasmesh_controller.go:1055-1115 | the subset names of a DestinationRule are distinct, so that a reference by name has one meaning, if and only if no component is the source of two edges that contribute to it |
| `Mesh.TwoPlacementsShareSubset` | internal/controller/core/atlasmesh/atlasmesh_controller.go:1055-1115 | a source with edges to two placements of a deployment gives its DestinationRule two subsets of one name |
| `Mesh.ObjectsAreOfOneService` | internal/controller/core/atlasmesh/atlasmesh_controller.go:1018-1053 | if joined object names can be taken apart, all routes of a VirtualService go to its own host and all its sources are on its own provider |
| `Mesh.ObjectNamesCanCollide` | internal/controller/core/atlasmesh/atlasmesh_controller.go:1022-1022 | joining names with "-" does make one object name out of two services |
| `TwoWriters.WritersConverge` | internal/controller/policy/dataflowpolicy_controller.go:46-120 | in every run, with failures, lost answers, conflicts and crashes: if the last successful reconcile of a side read its policy's present version, one call ended it, and the stored reference is that version if the patch of that call was not a swallowed Conflict or the reference was current before; and only then, unless the same controller has called since |
| `TwoWriters.SuccessExact` | internal/controller/policy/dataflowpolicy_controller.go:107-120 | the call that ends a reconcile of the present version with success leaves the reference current if and only if its patch took effect or the reference was current already |
| `TwoWriters.CurrentStays` | internal/controller/policy/deploymentpolicy_controller.go:46-128 | a current reference stays current under every step until its policy is edited |
| `TwoWriters.ConvergeWithoutConflicts` | internal/controller/policy/deploymentpolicy_controller.go:46-105 | in every run without swallowed conflicts of a side its reference is the policy's present version once it has synced that version |
| `TwoWriters.SwallowedConflictLeavesStale` | internal/controller/policy/deploymentpolicy_controller.go:115-128 | a run from nothing in which both patches of a reconcile meet a Conflict, the reconcile reports success, and the old version stays referenced |
| `TwoWriters.WriterKeepsOther` | internal/controller/policy/dataflowpolicy_controller.go:107-120 | no call of one policy controller changes the other side's reference or the status, the creation race included |
| `TwoWriters.UndisturbedReconcileSyncs` | internal/controller/policy/deploymentpolicy_controller.go:46-105 | an undisturbed reconcile ends after five calls with the reference current, from any state a run can leave behind |
| `TwoWriters.RunKeepsWriters` | internal/controller/policy/deploymentpolicy_controller.go:46-128 | every run keeps: a stored reference is absent or names a version the policy has had; a reconcile in progress works on a version between the last synced and the present one, none older than the stored one; and a patch is computed from the reference that is stored, whatever was swallowed before |
| `MergePatch.ApplyDiff` | internal/controller/policy/dataflowpolicy_controller.go:107-115 | the merge patch from o to m, applied to o by the procedure of RFC 7396 section 2, gives m |
| `MergePatch.SpecPatch` | internal/controller/policy/dataflowpolicy_controller.go:107-115 | a policy controller's merge patch, applied to the stored spec whatever copy it was computed from, does what the protocol's machine says and leaves the other half of the spec alone |
| `MergePatch.OwnFieldIsWritten` | internal/controller/policy/dataflowpolicy_controller.go:107-115 | with the copy it was made from still stored, a side's patch sets the reference to its policy and nothing else |
| `MergePatch.EncodedSpec` | api/core/v1alpha1/ilptask_types.go:39-42 | the dataflow policy's name and version are stored under "dataflowPolicyRef", the deployment policy's under "deploymentPlanRef" |
| `MergePatch.PatchesCommute` | internal/controller/policy/deploymentpolicy_controller.go:115-128 | the two controllers' patches commute, whatever copies they were computed from |
| `MergePatch.ApartCommute` | internal/controller/policy/dataflowpolicy_controller.go:107-115 | patches that never speak of the same field commute on every object |
| `MergePatch.LateCopySendsNothing` | internal/controller/core/image/image_controller.go:140-150 | a copy taken after the change gives an empty patch: the annotation on the ProviderProfile is never stored |
| `Controllers.ApiServer.ReconcilePolicy` | internal/controller/policy/dataflowpolicy_controller.go:46-120 | a reconcile of a policy controller as written, call by call, with anything the others do between its calls and any outcome of each call, is a run of the protocol's machine; it syncs the version it read exactly if it reports success, a Conflict counting as success |
| `Controllers.ApiServer.ClaimPod` | internal/controller/core/ilptask/ilptask_pod.go:516-570 | finding or creating the pod and claiming it, with the others acting between the calls, is a run of the machine from the List to idle |
| `Controllers.ApiServer.EnsureObject` | internal/controller/core/ilptask/ilptask_controller.go:275-379 | ensuring the Atlas or the AtlasMesh, with the others acting between the calls, is a run of the machine; on success the next stage follows, on error the reconcile ends |
| `Controllers.ApiServer.FollowPod` | internal/controller/core/ilptask/ilptask_controller.go:137-252 | the branch for a task that names a pod, with the others acting between the calls, is a run of the machine |
| `Controllers.ApiServer.ClearPodRef` | internal/controller/core/ilptask/ilptask_controller.go:237-252 | forgetting a vanished pod is a run of the machine: up to four attempts, repeated only on a conflict |
| `Controllers.ApiServer.RemovePods` | internal/controller/core/ilptask/ilptask_pod.go:626-644 | deleting the task's pods, with the others acting between the calls, is a run of the machine that stops at the first failed delete |
| `Controllers.ApiServer.Reconcile` | internal/controller/core/ilptask/ilptask_controller.go:60-253 | a whole reconcile of the task as written, with anything the others do between its calls and any outcome of each call, is a run of the machine from idle to idle |
| `Guarantees.CodeIsSafe` | internal/controller/core/ilptask/ilptask_controller.go:60-253 | between any two calls of these reconciles: approvals are for the plan, a clean return has one plan in the Atlas, the mesh and the stored status, a side synced without a swallowed Conflict has its present version referenced, at most one pod is live if no List has missed one |
| `PodClaim.OnePodPerTask` | internal/controller/core/ilptask/ilptask_pod.go:516-570 | over every run in which no List fails while a pod is live: at most one live pod; if the task names a pod no other is live; no pod before both references are set; the already-claimed branch is never reached |
| `PodClaim.MissedPodDoubles` | internal/controller/core/ilptask/ilptask_pod.go:516-539 | the converse, in every run: a List that fails while a pod is live, followed by a creation that takes effect, leaves two live pods, whatever else happens in between but a deletion of the first |
| `PodClaim.RunKeepsPods` | internal/controller/core/ilptask/ilptask_controller.go:123-134 | the invariant behind it, kept by every step of every controller, user and cluster |
| `PodClaim.FailedListDoublesPods` | internal/controller/core/ilptask/ilptask_pod.go:516-539 | a run from nothing, with one lost answer and one failing List, that ends with two live pods |
| `PodEnds.FailedReadTerminates` | internal/controller/core/ilptask/ilptask_controller.go:64-69 | between two reconciles, any failure of the first read of the task lets two more calls terminate its pod, which the task goes on naming |
| `PodEnds.FailedReadTerminatesClaimedPod` | internal/controller/core/ilptask/ilptask_controller.go:64-69 | a run from nothing in which a failed first read terminates the pod that the task has claimed |
| `PodEnds.NamedPodEndsExact` | internal/controller/core/ilptask/ilptask_pod.go:541-567 | in every run, a call of the task controller ends the live pod that the task names if and only if it is a delete of that pod that takes effect, in a reconcile whose first read failed or found no task, or right after a claim of that pod that took effect and lost its answer |
| `PodEnds.ReadFailedPurges` | internal/controller/core/ilptask/ilptask_controller.go:64-69 | a reconcile whose first read failed or found no task does nothing but purge |
| `PodEnds.LostAnswerTerminatesClaimedPod` | internal/controller/core/ilptask/ilptask_pod.go:563-567 | a run from nothing in which every read succeeds, the answer to the claim is lost, and the claimed pod is terminated |
| `PodClaim.UnserialisedClaimsBothSucceed` | internal/controller/core/ilptask/ilptask_pod.go:541-570 | two reconciles of one task that are not serialised both read an empty pod reference, both patches succeed, and both pods stay, from every state without a live pod |
| `PodClaim.RefsStaySet` | internal/controller/core/ilptask/ilptask_controller.go:78-83 | once both references are set they stay set |
| `Approval.ApprovalIsForThePlan` | internal/controller/core/ilptask/ilptask_controller.go:275-379 | in every run, however approvals are sent, there is at most one Atlas and one AtlasMesh, and an approved one carries the plan it had when it was approved |
| `Approval.ApprovedPlanIsReviewedPlan` | internal/controller/core/ilptask/ilptask_controller.go:275-379 | in every run whose approvals all carry the version that was read, an approved Atlas or AtlasMesh carries exactly the plan its approver had read |
| `Approval.PatchedApprovalExact` | internal/controller/core/ilptask/ilptask_controller.go:285-298 | in every run, an approval sent as a patch approves the plan that the last update since the review installed; so it is for the plan that was read if and only if there was no update or the last one brought that plan back |
| `Approval.PatchApprovesUnreadPlan` | internal/controller/core/ilptask/ilptask_controller.go:285-298 | a run from nothing in which such a patch approves a plan its sender has not read |
| `Approval.CleanReturnAgrees` | internal/controller/core/ilptask/ilptask_controller.go:110-121 | in every run, after a reconcile that returned cleanly from both ensure calls, Atlas, AtlasMesh and the stored status carry one plan |
| `Recovery.UndisturbedReconcileRepairs` | internal/controller/core/ilptask/ilptask_controller.go:110-232 | in every run, wherever earlier attempts stopped, between the writes of the Atlas, the mesh and the status or elsewhere: if a result for the present policies is stored or the named pod has finished with a plan that places something, an undisturbed reconcile returns cleanly within twelve calls with that plan in all three places, and the status then carries a result, the dataflow policy's present version as the one and the deployment policy's as the other |
| `Recovery.StoresResult` | internal/controller/core/ilptask/ilptask_controller.go:211-232 | the status update at the end of such a reconcile stores the plan, Success and each policy's version as read, keeps the pod reference and both policy references, and touches nothing else |
| `Recovery.SolvedIsLeftAlone` | internal/controller/core/ilptask/ilptask_controller.go:110-121 | a task whose status carries a result and both present versions, with its plan in both objects, is left as it is by an undisturbed reconcile, which never asks for a pod or its log |
| `Recovery.ResultIsRecognised` | internal/controller/core/ilptask/ilptask_controller.go:110-232 | in every run, the reconcile after the one that stored the result recognises it: it asks for no pod and changes nothing |
| `Recovery.EmptyPlanIsOnlyRecorded` | internal/controller/core/ilptask/ilptask_controller.go:199-232 | a finished pod whose plan places nothing has the plan and the versions recorded, the result left as it was, and nothing pushed |
| `Recovery.VanishedPodIsForgotten` | internal/controller/core/ilptask/ilptask_controller.go:237-252 | if the named pod is gone, six undisturbed calls clear the reference and change nothing else of the status |
| `Recovery.DifferentAppsStop` | internal/controller/core/ilptask/ilptask_controller.go:101-105 | policies of different applications end the reconcile before anything is written |
| `Recovery.SecondPodIsDropped` | internal/controller/core/ilptask/ilptask_pod.go:541-556 | a pod brought to a task that names one already is terminated, and the task keeps the one it names |
| `Recovery.TwoObjectsStop` | internal/controller/core/ilptask/ilptask_controller.go:275-290 | two objects of one kind stop the push before either is touched |
| `Recovery.PushTakes` | internal/controller/core/ilptask/ilptask_controller.go:275-326 | pushing a plan to one object takes at most three calls, whatever an earlier attempt left, and touches nothing else |
| `Recovery.CrashBetweenWrites` | internal/controller/core/ilptask/ilptask_controller.go:199-232 | a run from nothing that stops between the writes of the Atlas and the mesh, and the undisturbed reconcile that repairs it |
| `Recovery.PolledForEver` | internal/controller/core/ilptask/ilptask_controller.go:132-236 | while the named pod is there in any phase but Succeeded, any number of undisturbed reconciles leaves everything as it was |
| `Recovery.FailedPodIsPolled` | internal/controller/core/ilptask/ilptask_controller.go:141-206 | a run from nothing to a failed pod, which no number of reconciles takes note of |
| `Recovery.OnlySuccessIsStored` | internal/controller/core/ilptask/ilptask_controller.go:199-216 | no run ever stores a result but Success: the Failed and Infeasible branch is never taken |
| `Runner.ReachableStates` | internal/controller/core/image/image_controller.go:177-222 | in every run: observed at most generation; JobRunning and ResyncRequired together only with an unobserved change; never a second Job; a Job is created only with JobRunning false and none there, even after a crash between creation and status write |
| `Runner.FinishedRunIsStored` | internal/controller/core/image/image_controller.go:246-331 | an undisturbed reconcile that finds one finished pod stores every field as listed: the payload is the pod's output exactly if the logs can be read, the pod succeeded and completed and the output decodes, whether or not the ConfigMap could be written; the others follow from what went well |
| `Runner.OtherReconciles` | internal/controller/core/image/image_controller.go:162-249 | the other undisturbed reconciles, field by field: an edit during a run, a requested run, a missing pod, an unfinished or second pod, and the twelve hours in which nothing is done |
| `Runner.PayloadsAreOutputs` | internal/controller/core/image/image_controller.go:298-298 | in every run an object shows the payload it was created with or one that a pod gave that succeeded and completed, and a ready object one that a pod gave |
| `Runner.ReadyStoresOutput` | internal/controller/core/instancetype/instancetype_controller.go:296-329 | a status that turns Ready to True, or renews the time of the last update with Ready at True, has the output of the pod that was found, for the generation read |
| `Runner.EditDuringRunWedges` | internal/controller/core/image/image_controller.go:177-186 | an edit while a run is recorded as running is never recovered from, whatever follows |
| `Runner.RunsDoStart` | internal/controller/core/image/image_controller.go:189-222 | that situation arises: a new object's first seven calls record a running Job |
| `Runner.NoResyncAtFinish` | internal/controller/core/image/image_controller.go:251-262 | in every run, a pending resync is only ever replaced by the status of a started run: the branch for a run requested meanwhile is never taken |
| `RunnerProgress.ProgressExact` | internal/controller/core/image/image_controller.go:162-331 | after at least five undisturbed rounds of a run that succeeds the object is ready at its generation if and only if it was not wedged and, if already settled, was ready |
| `RunnerProgress.RoundProgress` | internal/controller/core/instancetype/instancetype_controller.go:166-329 | outside the wedge and the settled states each round reaches the goal or lowers a measure over resync, running and pod phase |
| `RunnerProgress.WedgeStays` | internal/controller/core/instancetype/instancetype_controller.go:181-190 | the wedge is closed under every round |
| `RunnerProgress.ReconciledIsMachine` | internal/controller/core/image/image_controller.go:162-331 | a round's reconcile is at most four calls of the step machine |
| `RunnerReconciler.Reconciler.Reconcile` | internal/controller/core/image/image_controller.go:162-331 | the status-mutating reconcile stores exactly what the machine decides, or nothing when a call fails; the payload changes only to the output of the one pod, and a finished run is recorded at its generation with Ready for a pod that gave its output |
| `RunnerReconciler.Reconciler.FinishRun` | internal/controller/core/instancetype/instancetype_controller.go:252-329 | the finished-pod branch, field by field, equals the machine's `Finish`; the payload stored is the pod's output exactly if the update succeeds, no resync was pending, the logs can be read, the pod succeeded and completed and its output decodes |
| `RunnerReconciler.Reconciler.StartRun` | internal/controller/core/image/image_controller.go:189-222 | the resync branch creates a Job unless one is there, then stores the started status |
| `RunnerReconciler.Reconciler.EnsureJobRunner` | internal/controller/core/image/image_controller.go:598-621 | a Job is created only if none carries the labels |
| `Selection.StreamStep` | internal/controller/core/ilptask/ilptask_helper.go:325-335 | if the list so far was the ten cheapest of everything seen, deduping, sorting and cutting it with the next matches gives the ten cheapest of everything, for any order of ties |
| `Selection.HeadIsCheapest` | internal/controller/core/ilptask/ilptask_helper.go:325-335 | the head of a non-empty selection is as cheap as anything that matched |
| `Selection.DuplicatesDoNotMatter` | internal/controller/core/ilptask/ilptask_helper.go:325-328 | only the set of matches counts, not how often or in what order they are listed |
| `Selection.DroppedDuplicateMayBeCheaper` | internal/controller/core/ilptask/ilptask_helper.go:325-328 | without price being a function of name the cheaper of two offerings of one name is lost |
| `Selection.Shorten` | internal/controller/core/ilptask/ilptask_helper.go:325-335 | dedupe by name, sort by price, cut to ten |
| `Selection.MatchesUnlessRefused` | internal/controller/core/ilptask/ilptask_helper.go:949-1028 | an offering matches unless one of nine reasons refuses it: fewer CPUs than asked for or over a twentieth more, less memory or over a quarter more, a GPU not asked for, none when one was, another model in any case, or a count or memory of its GPUs known to be too small |
| `Selection.SelectsOfferings` | internal/controller/core/ilptask/ilptask_helper.go:606-635 | a batch selection of entries is a selection of offerings: ten, or one of each name, under different names, by price, and, if names decide prices, none that is left out is cheaper |
| `Candidates.GetCandidateProviders` | internal/controller/core/ilptask/ilptask_helper.go:729-764 | the candidates are one copy of each provider per location that admits it, or all for an empty filter |
| `Candidates.ChosenMembers` | internal/controller/core/ilptask/ilptask_helper.go:729-764 | exactly the permitted providers are candidates |
| `Candidates.GetAllComputeProfiles` | internal/controller/core/ilptask/ilptask_helper.go:701-726 | the profiles of all candidates in order, the first error winning |
| `Candidates.OverlappingLocations` | internal/controller/core/ilptask/ilptask_helper.go:701-764 | filters that admit the same providers give the same set of offerings, and both fail or neither does |
| `VmFlavor.SearchConstraint` | internal/controller/core/ilptask/ilptask_helper.go:572-637 | the search of one constraint ends in an error exactly if the constraint cannot be read, and otherwise in ten of the offerings that some alternative asks for, or one of each name if there are fewer: distinct names, the offerings' own prices in order, count 1, and, if names decide prices, nothing cheaper left out |
| `VmFlavor.MatchesAreEntries` | internal/controller/core/ilptask/ilptask_helper.go:600-625 | every match is an entry, with the offering's name and price and count 1, for an offering that some alternative asks for, and every such offering has one |
| `VmFlavor.FindVMVirtualServicesForProvider` | internal/controller/core/ilptask/ilptask_helper.go:558-764 | one list for each constraint that anything on offer matches, in order, each the ten cheapest offerings it asks for, among the profiles of all providers that the platform, region and alias of the given one admit |
| `VmFlavor.LocationsCountOnce` | internal/controller/core/ilptask/ilptask_helper.go:558-764 | permitted locations count as a set: repeating them changes no admissible selection |
| `VmFlavor.FindServicesForDeployPlan` | internal/controller/core/ilptask/ilptask_helper.go:643-697 | services are found for every component exactly if each has a provider, a policy item, readable constraints and readable profiles where its provider is; with distinct names each entry belongs to its component |
| `VmFlavor.FindItemIsFirst` | internal/controller/core/ilptask/ilptask_helper.go:660-675 | the policy item of a component is the first with its name, kind and API version, and none only if there is none |
| `VmFlavor.AttachServices` | internal/controller/core/ilptask/ilptask_controller.go:166-194 | for every order of the map, the first component of each name gets the services of its name cut to five, and every other keeps its manifest |
| `VmFlavor.GenerateVMManifests` | internal/controller/core/atlas/atlas_controller.go:401-425 | the machines of the XInstances in order, or the first failure: an object that cannot be fetched, a manifest that does not decode, or the panic of a flavor that is not there |
| `VmFlavor.MachinesExact` | internal/controller/core/atlas/atlas_controller.go:401-425 | without a failing XInstance there is one machine for each, with the first flavor of its first list, and none beside; otherwise the first that fails decides between error and panic |
| `VmFlavor.DeployVirtualMachines` | internal/controller/core/ilptask/ilptask_controller.go:153-194 | end to end: every machine gets an offering that some alternative of the first constraint with a match asks for and, if names decide prices, no offering that one asks for is cheaper, among those of all providers its provider's location admits; the machines exist unless some XInstance cannot be fetched or has neither a match nor a manifest |
| `VmFlavor.FlavorIsOffered` | internal/controller/core/ilptask/ilptask_helper.go:588-764 | the chosen flavor is a matching offering of a provider in the place of the chosen one, and of the chosen one itself if that place admits no other name |
| `VmFlavor.OfferedMembers` | internal/controller/core/ilptask/ilptask_helper.go:701-764 | looked through are exactly the offerings of providers whose platform, region and alias agree with those of the chosen one where it names them |
| `VmFlavor.OwnOfferingsExact` | internal/controller/core/ilptask/ilptask_helper.go:729-764 | whatever is on offer, only offerings of the chosen provider are looked through if and only if its platform, region and alias admit no provider of another name |
| `VmFlavor.NeighboursFlavor` | internal/controller/core/ilptask/ilptask_helper.go:701-764 | two providers in one place: the only flavor a machine on the first can get is one that only the second offers |
| `K8sSelection.SearchConstraint` | internal/controller/core/ilptask/ilptask_helper.go:236-339 | the Kubernetes form: ten of the offerings that an alternative asks for, that are not free and, for a Deployment, have a name under which its pods fit, or one of each name, with the asking alternative's count, by price; an error exactly if the constraint cannot be read or its first alternative with a match has no usable one |
| `K8sSelection.UsableExact` | internal/controller/core/ilptask/ilptask_helper.go:293-308 | the error condition over offerings: the first alternative that asks for anything on offer asks for nothing that may be used |
| `K8sSelection.FoundExact` | internal/controller/core/ilptask/ilptask_helper.go:236-308 | when the search of a constraint succeeds: every alternative is a ComputeProfile that can be read, with profiles and, for a Deployment, a smallest node known if it has a spec, and the first that asks for anything asks for something usable |
| `K8sSelection.SearchAlternative` | internal/controller/core/ilptask/ilptask_helper.go:262-335 | one alternative: the filtered longer list, or an error if the filter leaves nothing of something |
| `K8sSelection.FindServices` | internal/controller/core/ilptask/ilptask_helper.go:228-372 | one list per constraint, in order, each its ten cheapest usable offerings; without constraints one flavor, a cheapest whose CPUs and memory suffice; errors exactly as listed |
| `K8sSelection.FindDeployable` | internal/controller/core/ilptask/ilptask_helper.go:414-441 | the names of exactly the offerings on which the deployment fits |
| `K8sSelection.FirstMatchOfLonger` | internal/controller/core/ilptask/ilptask_helper.go:293-308 | the error condition read alternative by alternative |
| `Placement.AttemptPlaceDeployment` | internal/controller/core/ilptask/ilptask_helper.go:1100-1109 | the first node with room is loaded, in place, and refused only if none has room |
| `Placement.FitsExact` | internal/controller/core/ilptask/ilptask_helper.go:1100-1109 | a demand fits on a node exactly if adding it to what the node carries overloads neither its CPUs nor its memory |
| `Placement.CapacityKept` | internal/controller/core/ilptask/ilptask_helper.go:1100-1109 | no run of placements overloads a node |
| `Placement.NodeAccounts` | internal/controller/core/ilptask/ilptask_helper.go:1100-1109 | after any run each node carries what it carried before and the demands placed on it |
| `Placement.TotalAccounts` | internal/controller/core/ilptask/ilptask_helper.go:1100-1109 | the total in use grows by exactly the demands that were placed |
| `Placement.PackedToTheFront` | internal/controller/core/ilptask/ilptask_helper.go:1100-1109 | a demand placed on a node fits on no earlier node in any later state, and a refused one on none |
| `Placement.LaterNodeDoesNotFit` | internal/controller/core/ilptask/ilptask_helper.go:1100-1109 | what sits on a later node does not fit on an earlier one |
| `Placement.NegativeDemandMakesRoom` | internal/controller/core/ilptask/ilptask_helper.go:1100-1109 | with a negative demand that fails |
| `ProviderMatrix.GenerateProvidersAttr` | internal/controller/core/ilptask/ilptask_pod.go:171-320 | the four nested loops give the entries of all pairs in order, or the first failure |
| `ProviderMatrix.GenerateProviders` | internal/controller/core/ilptask/ilptask_pod.go:130-169 | one row per enabled zone, in order |
| `ProviderMatrix.ProviderRows` | internal/controller/core/ilptask/ilptask_pod.go:149-163 | the providers table has a row for exactly the enabled zones, with the upstream name, joined name, platform, region, alias, zone and type |
| `ProviderMatrix.CompleteMatrix` | internal/controller/core/ilptask/ilptask_pod.go:202-313 | the table is made exactly if every ordered pair of enabled zones has an entry, and then has N * N entries, one for each pair |
| `ProviderMatrix.LatencySymmetric` | internal/controller/core/ilptask/ilptask_pod.go:264-297 | the entries of both directions of a pair have one latency, and 0 within a site |
| `ProviderMatrix.EgressIsTheSources` | internal/controller/core/ilptask/ilptask_pod.go:223-262 | the egress cost of an entry is the first tier of the source for the kind of link, and 0 within one zone |
| `ProviderMatrix.EntryExists` | internal/controller/core/ilptask/ilptask_pod.go:222-297 | an entry exists exactly if the source prices the link and, between sites, the latency can be read; it panics exactly if the tier is missing |
| `ProviderMatrix.OppositeRow` | internal/controller/core/ilptask/ilptask_pod.go:202-313 | in every finished table each row has a row for the opposite direction |
| `ProviderMatrix.TableSymmetric` | internal/controller/core/ilptask/ilptask_pod.go:264-297 | in every finished table all rows of opposite directions have one latency, and 0 within a site |
| `ProviderMatrix.TableEgress` | internal/controller/core/ilptask/ilptask_pod.go:223-262 | in every finished table each row carries the names of its zones and the first tier of its source for the kind of link, or 0 within one zone |
| `ProviderMatrix.TableRow` | internal/controller/core/ilptask/ilptask_pod.go:205-311 | every row of every finished table, field by field: the joined names, the places, without zones between sites, the latency 0 within a site, and as price the first tier of the source's first cost for traffic between zones, between regions of a platform, or over the internet |
| `ProviderMatrix.TableLatency` | internal/controller/core/ilptask/ilptask_pod.go:264-297 | the latency of a row between two sites is what an object says that was made for these two sites, P95 before P99 before the last measurement, if the sites can be told apart |
| `ProviderMatrix.TableExists` | internal/controller/core/ilptask/ilptask_pod.go:202-313 | the table is made exactly if every enabled zone prices its link to every enabled zone and latencies between sites can be read |
| `ProviderMatrix.SameNames` | internal/controller/core/ilptask/ilptask_pod.go:130-320 | the endpoint names of the table are exactly the names of the providers table |
| `ProviderMatrix.CanonicalPairSymmetric` | internal/controller/utils/utils.go:622-626 | the pair key does not depend on who asks |
| `ProviderMatrix.PairLabelExact` | internal/controller/core/providerprofile/providerprofile_controller.go:441-464 | the key of a pair tells sites apart: for sites of which no sanitized name begins with another and a dash, two pairs of profiles have one key exactly if they are of the same two platforms and regions, in either order |
| `ProviderMatrix.CollisionExact` | internal/controller/core/providerprofile/providerprofile_controller.go:441-464 | without that condition: two pairs named in string order have one key exactly if their sanitized names agree, or a dash of the key can be read as the one between the names in two ways |
| `ProviderMatrix.SanitizedSitesCollide` | internal/controller/utils/utils.go:628-639 | regions us_east and us-east of aws have one key with every site of gcp |
| `ProviderMatrix.JoinedSitesCollide` | internal/controller/core/providerprofile/providerprofile_controller.go:441-442 | platform a with region b-c and platform a-b with region c have one key with every third site |
| `ProviderMatrix.SanitizeExact` | internal/controller/utils/utils.go:628-639 | sanitizing lowers capitals, keeps small letters, digits and dashes, and turns every other character into a dash |
| `ProviderMatrix.EnsureEgressCosts` | internal/controller/core/providerprofile/providerprofile_controller.go:355-429 | the costs of the spec, or the defaults of the platform |
| `ProviderMatrix.DefaultPrices` | internal/controller/core/providerprofile/providerprofile_controller.go:367-427 | the default prices by platform, in any case: 0.09, 0.087 and 0.12 over the internet for aws, azure and gcp, 0.01 between zones and 0.02 between regions for these three, and a free internet alone for all others |
| `ProviderMatrix.DefaultsCover` | internal/controller/core/providerprofile/providerprofile_controller.go:367-427 | the defaults price every kind of link exactly for aws, azure and gcp, and only the internet for everyone else |
| `ProviderMatrix.DefaultsSuffice` | internal/controller/core/providerprofile/providerprofile_controller.go:367-418 | with the defaults of the public clouds the table is made exactly if latencies between sites can be read |
| `ProviderMatrix.DefaultsPanic` | internal/controller/core/providerprofile/providerprofile_controller.go:419-426 | with one enabled zone of any other provider that lists no costs the table is never made: its own entry panics |
| `LatencyCoverage.SettledPairsAreCovered` | internal/controller/core/providerprofile/providerprofile_controller.go:124-187 | over every run without deletions: two profiles that have both observed their present spec, with default zones of supported types, have a Latency object under the key the optimizer looks up |
| `LatencyCoverage.RunKeeps` | internal/controller/core/providerprofile/providerprofile_controller.go:431-497 | the invariant behind it: of two profiles that have listed for their present spec, one has seen the other |
| `LatencyCoverage.ObjectsAreOfPairs` | internal/controller/core/providerprofile/providerprofile_controller.go:449-472 | every object of every run was made for two different profiles of that run, under the one unordered key of specs they have had, with usable default zones |
| `LatencyCoverage.ObjectIsOfOnePair` | internal/controller/core/providerprofile/providerprofile_controller.go:449-472 | in every run an object is of one pair of sites, if they can be told apart, whoever made it |
| `LatencyCoverage.PairsHaveTheirObjects` | internal/controller/core/providerprofile/providerprofile_controller.go:431-497 | in every run two pairs of settled profiles have their objects, and it is one object exactly if they are of the same two sites |
| `LatencyCoverage.UndisturbedReconcileSettles` | internal/controller/core/providerprofile/providerprofile_controller.go:124-187 | an undisturbed reconcile settles its profile, without any object if it has no usable default zone |
| `LatencyCoverage.UsableExact` | internal/controller/core/providerprofile/providerprofile_controller.go:449-458 | an object can be made for a profile exactly if its first default zone is of type cloud, edge or nte |
| `LatencyCoverage.Namespace.EnsureLatencies` | internal/controller/core/providerprofile/providerprofile_controller.go:431-497 | the loop, with any call failing: what has been gone through of the list is covered, the whole list on success |
| `LatencyCoverage.CoverAllMembers` | internal/controller/core/providerprofile/providerprofile_controller.go:436-472 | covering a list makes exactly the objects of its pairs with usable default zones |
| `LatencyCoverage.SitesGetTheirObjects` | internal/controller/core/providerprofile/providerprofile_controller.go:436-472 | covering a list makes an object for each of two of its profiles, and it is one object exactly if these are of one site |
| `LatencyCoverage.RestCovers` | internal/controller/core/providerprofile/providerprofile_controller.go:431-497 | undisturbed, the machine's reconcile does what the loop does |
| `LatencyCoverage.SettledProfilesMakeATable` | internal/controller/core/ilptask/ilptask_pod.go:264-297 | once all profiles have settled, each with a default zone of a supported type and with costs that are complete or left to the defaults of the public clouds, and the latencies are measured, the optimizer's table is made; the costs are those that settling has stored |
| `LatencyCoverage.RunKeepsCosts` | internal/controller/core/providerprofile/providerprofile_controller.go:158-174 | in every run a settled profile has in its status the costs of its present spec, or the defaults of its platform |
| `IndexMap.BuildIndexMap` | internal/controller/core/atlas/atlas_helper.go:30-51 | for every order in which the maps are walked, each platform's names are mapped to their ranks |
| `IndexMap.UniqueProviders` | internal/controller/core/atlas/atlas_controller.go:228-236 | the map has exactly the provider names of the components, each with the platform of its first reference |
| `IndexMap.PlatformsUnique` | internal/controller/core/atlas/atlas_controller.go:228-236 | there is one such map |
| `IndexMap.PlanOrderDoesNotShow` | internal/controller/core/atlas/atlas_controller.go:228-240 | if references of one name agree on the platform, neither the order of the components nor how often they name a provider shows in any row |
| `IndexMap.IndexProviders` | internal/controller/core/atlas/atlas_controller.go:228-240 | the index map is made of the first references |
| `IndexMap.OrderDoesNotShow` | internal/controller/core/atlas/atlas_helper.go:30-51 | there is one such map |
| `IndexMap.RanksAreABijection` | internal/controller/core/atlas/atlas_helper.go:41-48 | on each platform the ranks run through 0 to n - 1 in the order of the names |
| `IndexMap.ProviderRowsDiffer` | internal/controller/core/atlas/atlas_controller.go:281-282 | two providers never share a row |
| `IndexMap.SameRowIffPlatformsAgree` | internal/controller/core/atlas/atlas_controller.go:519-520 | a provider and its cluster use one row if and only if reference and profile name one platform |
| `IndexMap.SharedKubeRow` | internal/controller/core/atlas/atlas_controller.go:519-520 | clusters of two providers share a row exactly if their profiles name one platform on which both read index 0 |
| `ManifestOrder.OrderIndependence` | internal/controller/core/atlas/atlas_controller.go:129-135 | the sorted manifests are one sequence for every order of a map if and only if kind and name determine the manifest |
| `ManifestOrder.OneStatus` | internal/controller/core/atlas/atlas_controller.go:129-135 | the sorted manifests of both maps are one sequence for all orders of both if and only if within each map kind and name determine the manifest |
| `ManifestOrder.StatusInOrder` | internal/controller/core/atlas/atlas_controller.go:129-135 | the status holds the manifests of both maps, by kind and, within a kind, by name |
| `ManifestOrder.ProvidersFirst` | internal/controller/core/atlas/atlas_controller.go:129-135 | of manifests with one kind and name the providers' come first, and each part keeps its order |
| `ManifestOrder.Atlas.SyncStatus` | internal/controller/core/atlas/atlas_controller.go:129-158 | the status becomes a stable sort of both maps' values in some order, and is written exactly if it changed |
| `ManifestOrder.Atlas.SyncTwice` | internal/controller/core/atlas/atlas_controller.go:137-158 | a second reconcile of the same Kubernetes deployment writes nothing |
| `ManifestOrder.Atlas.SyncListTwice` | internal/controller/core/atlas/atlas_controller.go:129-158 | the same for virtual machines, whose manifests are a list in the order of the plan and may share kind and name |
| `Ordering.UniqueStableSort` | internal/controller/core/atlas/atlas_controller.go:129-135 | a stable sort leaves no freedom |
| `Ordering.LessExact` | internal/controller/utils/utils.go:622-626 | one string comes before another exactly if, where they first part, it ends or has the smaller character |
| `K8sName.EnsureK8sName` | internal/helper/common.go:19-85 | cleaning in place and truncating computes `Name`, for the names on which the loop ends |
| `K8sName.Truncate` | internal/helper/common.go:64-82 | the truncation loop, in place, is one pass |
| `K8sName.CleanLabel` | internal/helper/common.go:24-48 | the cleaning of one label |
| `K8sName.KeepOne` | internal/helper/common.go:28-36 | what cleaning makes of each character: capitals become small letters, small letters, digits and dashes stay, the Kelvin sign and the dotted capital I become k and i, and all else goes |
| `K8sName.KeepAppend` | internal/helper/common.go:28-36 | and each character is treated by itself |
| `K8sName.CleanKeepsCore` | internal/helper/common.go:37-48 | a label is what is left between the dashes at both ends, cut after 63 bytes and trimmed again if that is too long, or "a" if nothing is left |
| `K8sName.EndsIffFits` | internal/helper/common.go:64-82 | some number of passes makes the name short enough if and only if the cleaned labels before the last and all dots total at most 252 bytes, and then one pass does |
| `K8sName.LoopsForEver` | internal/helper/common.go:64-82 | otherwise every pass leaves the same labels and too long a name |
| `K8sName.DotsLoopForEver` | internal/helper/common.go:64-82 | such a name is 127 dots or more |
| `K8sName.ResultIsValid` | internal/helper/common.go:15-18 | the result is a dot-separated list of labels of RFC 1123 section 2.1, at most 253 bytes, one for each piece of the input |
| `K8sName.LongNameIsCut` | internal/helper/common.go:64-82 | a name that is too long is its cleaned labels, cut after 253 bytes, without the dashes that leaves at the end |
| `K8sName.ValidUnchanged` | internal/helper/common.go:15-18 | valid names stay as they are |
| `K8sName.CapitalsAreLowered` | internal/helper/common.go:15-18 | capitals do not matter, and a string that is a valid name but for capitals becomes that name |
| `K8sName.Idempotent` | internal/helper/common.go:15-18 | a second call changes nothing |
| `LabelKey.ShortenLabelKey` | internal/controller/utils/utils.go:657-732 | the trimming loops compute `Shorten`, for every hash |
| `LabelKey.FormsExact` | internal/controller/utils/utils.go:657-732 | a well-formed name of at most 45 bytes stays; a longer one of letters and digits keeps its first thirty and gets a dash and the hash of the key |
| `LabelKey.ShortNameIsShort` | internal/controller/utils/utils.go:653-656 | the name part is 1 to 45 bytes, starts and ends alphanumeric, and leaves room for "-backup" |
| `LabelKey.ShortNameMatches` | internal/controller/utils/utils.go:653-656 | names over letters, digits, '-', '_' and '.' become well-formed names |
| `LabelKey.Idempotent` | internal/controller/utils/utils.go:657-732 | shortening twice is shortening once |
| `LabelKey.CollisionsNeedEqualHashes` | internal/controller/utils/utils.go:679-726 | two hashed keys become one key only if the first thirteen hash digits agree, and all fourteen unless the last was pushed out |
| `LabelKey.PushedDigitIsLost` | internal/controller/utils/utils.go:712-726 | when the leading "a" pushes the last digit out, exactly that digit is lost |
| `LabelKey.UnchangedAreDistinct` | internal/controller/utils/utils.go:671-677 | keys that stay as they are never collide |
| `NestedMap.SetNestedField` | internal/controller/utils/utils.go:355-373 | in any graph of maps: it fails exactly if a field on the way holds no map, and then nothing has changed; otherwise one old map changes at one field and the rest of the path is new maps |
| `NestedMap.GetNestedValue` | internal/controller/utils/utils.go:308-318 | the value at the path, and an error for a path of one field |
| `NestedMap.GetNestedField` | internal/controller/utils/utils.go:292-305 | the map at the path |
| `NestedMap.GetAfterSet` | internal/controller/utils/utils.go:355-373 | on tree-shaped maps the value is read back at the path it was set at |
| `NestedMap.DivergingPathsKept` | internal/controller/utils/utils.go:355-373 | on tree-shaped maps every diverging path keeps its value or its absence |
| `NestedMap.SharedCellShows` | internal/controller/utils/utils.go:355-373 | on a map that contains itself a diverging path does change |

## Left out

- Deletion of ILPTasks, policies and provider profiles, finalizers and the clean-up of dependent objects.
- Stale reads from caches: every read in the protocol sees the latest write.
- The values of the app-id labels: whether those of the two policies agree is an arbitrary outcome of the second read. Two tasks of one name in different namespaces, whose pods share labels.
- Agreement of a stored result with the policy versions recorded beside it: the controllers record the versions seen when the pod has finished, so it does not hold.
- The ConfigMap that the Image, InstanceType and ProviderProfile controllers write in turn.
- ProviderMatrix.TableLatency: is stated for sites that can be told apart; `ProviderMatrix.CollisionExact` says when two pairs share a key, and then a row may carry the other pair's latency.
- Mesh.EntriesAreOnPods: is stated for plans without targets that back each other up; `Ranking.EntriesExact` shows that it fails for all others.
- VmFlavor.DeployVirtualMachines: is stated for plans that name each component once; of two components of one name only the first gets a manifest (`VmFlavor.AttachServices`).
- The branch of the runner for providers that are no public cloud, and the time to live of Jobs.
- RunnerProgress.ProgressExact: is about runs that succeed; a failing pod is in the safety results only.
- A crash in the middle of a reconcile is a step of the machine; the methods of `Controllers` run to their end.
- `findVMVirtualServices` and `findK8SVirtualServiceForProvider`: the same loop bodies as the two searches modelled; the first dereferences an absent spec, the second appends the list after every alternative.
- `findSuitableComputeResource`, `sortComputeResources`, `OfferingMatches2` and `computeResourcesForFlavors`: decisions of a few lines that would add easy members.
- JSON, YAML, regular expressions, float parsing and `ipnets.SubnetInto`: a parsed value or a parse failure is the input.
- The manifest that travels inside the deploy plan is read back as it was written: its JSON form is taken to be faithful.
- `GenerateSyntheticLatency`: which endpoint types it supports is modelled, its random value is not.
- Non-ASCII input of `ShortenLabelKey`, `SanitizeName` and the case-insensitive comparisons; `EnsureK8sName` covers all of Unicode.
- Floating-point rounding of prices, costs and resources.
- The kind check of a flavor read back from a manifest: every list the searches make holds ComputeProfiles only.
- A failing status update of the Atlas: it leaves the stored manifests as they were and is retried.
- Spec building for XProvider, XKube, Jobs, pods, Services and Deployments, credentials, conditions and events.
- Nil maps inside nested objects: a write through one panics in Go.
