# Verification of the karpenter-operator controllers

This project models the controllers of the OpenShift karpenter-operator that run protocols against two Kubernetes API
servers (the management cluster and the hosted cluster) and the derived data that they keep there, and proves properties
of whole runs. `dafny verify dfyconfig.toml` checks everything.

## How it is modelled

**API servers.** `Objects` is one object under one key: the live version and every version it ever had. A
resourceVersion is an index into that history, so a cached read can hand out any past version, and a write with an
optimistic lock succeeds only on the version it was computed from. The finalizer patches are JSON merge patches, which
replace arrays whole (section 2 of RFC 7396).

**Interleavings.** Each API call is one atomic step. The controllers of `HcpDeletion` and `NodeClassController` are
classes whose methods are the source's functions; before every call, `Call` plays an arbitrary script (`turns`) of what
the other clients do, and the call may fail. Whatever is proved for a script is proved for every interleaving. The
clause about an `Undisturbed` script gives the exact effect of one reconcile. The other protocols are state machines
(`Step` and `Run`) over arbitrary sequences of events.

**Values.** Loops over Go maps run in an arbitrary order (`Collections.Enumerate`), integers of fixed width are wrapped
explicitly, JSON is an ordered list of members, and errors are results.

| file | what it models |
|---|---|
| `Objects.dfy`, `Collections.dfy`, `Wrappers.dfy` | API objects with history, enumeration, selection and sums, results |
| `HcpDrain.dfy`, `HcpDeletionController.dfy` | the HostedControlPlane deletion controller: finalizer, drain, release |
| `NodeClassLifecycle.dfy`, `NodeClassController.dfy` | the parent and child protocol of the EC2 and Azure NodeClass controllers |
| `UpgradeHold.dfy` | the hold on user data and image while the control plane upgrades |
| `HcpEvents.dfy` | the HostedControlPlane event filters against what their controllers derive |
| `StatusConditions.dfy`, `ClusterOperatorStatus.dfy` | two independent ways of keeping condition transition times |
| `ResourceTags.dfy`, `SubnetIndex.dfy`, `AutoNodeStatus.dfy`, `NodeIdentity.dfy` | derived data against its definition |
| `KubeletConfig.dfy` | JSON of the kubelet configuration with its overflow members |
| `CsrApproval.dfy`, `UserDataSecret.dfy` | approval of certificate signing requests; user data Secrets of NodeClasses |

## Assumptions about the environment

- No NodePool is created once the HostedControlPlane has a DeletionTimestamp, and a NodeClaim is created only while some
  NodePool exists: the guards of `CreatePool` and `CreateClaim` in `HcpDrain.Apply`. The termination results also assume
  calm others (`HcpDrain.Calm`): no creations, and no termination annotation is cleared.
- Only the operator creates the child of a NodeClass, changes its spec, or removes the operator's finalizer from the
  parent: the guards of `NodeClassLifecycle.Apply`, as the admission policy enforces for the child. Both controllers'
  reads of the parent are fresh, and so is the read of the child on which EC2 decides that it is gone:
  `NodeClassLifecycle.StaleReadOrphans` and `StaleChildReadOrphans` show that this is needed. Every other read of the
  child may be stale, and the Azure controller deletes the child without reading it. There is one worker per key.
- The API server lets nobody take an Approved or Denied condition off a CSR: `CsrApproval.Apply` only appends.
- Provider conditions have distinct types other than VersionResolved and SupportedVersionSkew: `StatusConditions.Legal`.
- Reconciles of the subnet ConfigMap are atomic. The AutoNode controller's reads are fresh, and its queue hands a request
  out to one worker at a time.

## Where the code does not meet an obvious expectation

Each of these has a counterexample and an exact condition.

- The termination annotation of a NodeClaim is patched without a lock, so it can overwrite one that somebody else sets
  in between: `HcpDrain.UnlockedPatchOverwrites`, and exactly when in `HcpDeletion.Controller.AnnotateClaim` and
  `HcpDrain.OverwritesIffAnnotated`.
- A NodeClass reconcile that read the HostedControlPlane before an upgrade began can still install the new release
  during the upgrade: `UpgradeHold.HoldBreaksInReachableRun`, and exactly when in `UpgradeHold.HoldIffFlightHarmless`.
  Likewise one that read it before the upgrade ended can hold the old pair once more:
  `UpgradeHold.OldPairHeldAfterUpgrade`, and exactly when in `UpgradeHold.InstallsIffCaughtUp`.
- If platform tags repeat a key, the tag conflict condition can miscount: the merge uses the last value and any
  permission of a key, the counter only the first tag: `ResourceTags.RepeatedKeyMiscounts`, and exactly when in
  `ResourceTags.CountsAgreeIffConsistent`.
- `encoding/json` matches field names ignoring case, the set of known keys does not: a member `MAXPODS` overwrites
  `maxPods` and is kept as well: `KubeletConfig.FoldedKeyOverwrites`. Exactly which configurations and objects round
  trip is `KubeletConfig.UnmarshalMarshal` and `KubeletConfig.MarshalUnmarshal`, and which sets of keys are safe
  `KubeletConfig.SafeOverflowKeys` and `KubeletConfig.SafeKeys`. The members of a text may stand in any order, since
  JSON objects are unordered (section 4 of RFC 8259).
- The event filter of the CSR controller is applied to the event's object and not to the one that is then read by name,
  so a CSR that the filter rejects can be approved after a name is used again:
  `CsrApproval.ReusedNamePassesUnfiltered`, and exactly when in `CsrApproval.FilterHoldsIffSameUID`.
- Deletions of user data Secrets wake no NodeClass: `UserDataSecret.DeletionIsMissed`, and exactly which changes are
  missed in `UserDataSecret.ChangeIsNoticed`.
- The event filter of the EC2 controller looks neither at InfraID nor at the E2E override:
  `HcpEvents.InfraIDChangeIsRejected`, and exactly when it matters in `HcpEvents.RejectedIsHarmlessIffFixed`.

## Model

| member | source | states |
|---|---|---|
| `Objects.OwnFinalizerOnly` | pkg/controllers/hcp/deletion/controller.go:113-149 | adding or removing one's own finalizer neither drops, adds nor reorders anybody else's |
| `Objects.PatchHitsWhatWasRead` | pkg/controllers/hcp/deletion/controller.go:114-116 | a patch with an optimistic lock succeeds if and only if the live object is the one that was read |
| `Objects.DeletingIsForever` | pkg/controllers/hcp/deletion/controller.go:143-145 | no later object with the UID of a deleting one is without a DeletionTimestamp |
| `Objects.FinalizersOfOthersSurvive` | pkg/controllers/hcp/deletion/controller.go:113-151 | in every run of any of the controllers, no whole-list finalizer patch drops or reorders a finalizer that another owner has, even one added concurrently |
| `Objects.LastOwnerLeaves` | pkg/controllers/hcp/deletion/controller.go:147-151 | an object that vanishes with a patch carried nobody else's finalizer |
| `Objects.NeverAddedBack` | pkg/controllers/hcp/deletion/controller.go:106-153 | once off, the finalizer never goes on the same object again, although the CAPI half of the deletion test can turn false |
| `HcpDrain.PlayKeepsDrained` | pkg/controllers/hcp/deletion/controller.go:139-145 | as long as the deleting HostedControlPlane that was read is current, an emptied cluster stays empty whatever the others do |
| `HcpDrain.ReleasedOnlyWhenDrained` | pkg/controllers/hcp/deletion/controller.go:124-154 | at every removal in a sound log the HostedControlPlane is being deleted and no NodePool or NodeClaim exists |
| `HcpDrain.HcpLogIsSound` | pkg/controllers/hcp/deletion/controller.go:113-153 | the log of the HostedControlPlane's writes is one that the results of `Objects` are about |
| `HcpDrain.PassLowersMeasure` | pkg/controllers/hcp/deletion/controller.go:164-256 | among calm others an error-free pass never raises the drain measure, and lowers it strictly unless it only waits for deleting NodePools or settled NodeClaims |
| `HcpDrain.AtMostThreePassesWork` | pkg/controllers/hcp/deletion/controller.go:131-137 | whatever the number of objects, of any four error-free passes of a run among calm others one only waits |
| `HcpDrain.DrainConverges` | pkg/controllers/hcp/deletion/controller.go:131-137 | so no more than three passes of such a run have work to do |
| `HcpDrain.TwoPassesSettle` | pkg/controllers/hcp/deletion/controller.go:193-229 | with the NodePools gone, two passes leave every NodeClaim deleting and annotated |
| `HcpDrain.OverwritesIffAnnotated` | pkg/controllers/hcp/deletion/controller.go:232-256 | after any number of actions of the others a patch would overwrite an annotation, if and only if one of them annotated the claim and no later one undid it |
| `HcpDrain.ReplacedIsSound` | pkg/controllers/hcp/deletion/controller.go:246-253 | what the patch of a listed claim replaces is decided by the others' actions since the list, whatever the controller did to other claims in between |
| `HcpDrain.UnlockedPatchOverwrites` | pkg/controllers/hcp/deletion/controller.go:246-253 | a concrete interleaving in which the patch overwrites another client's annotation |
| `HcpDrain.PoolsAfterNext` | pkg/controllers/hcp/deletion/controller.go:179-188 | one loop iteration takes the closed form of a NodePool pass from the treated set to the next |
| `HcpDrain.ClaimsAfterNext` | pkg/controllers/hcp/deletion/controller.go:208-224 | one loop iteration takes the closed form of a NodeClaim pass to the next: delete, annotate or leave alone |
| `HcpDeletion.Controller.GetHostedControlPlane` | pkg/hypershift/hostedcontrolplane.go:18-31 | the lookup returns the live HostedControlPlane or any version it had, and errors exactly if the call fails |
| `HcpDeletion.Controller.IsClusterDeleting` | pkg/hypershift/capicluster.go:42-64 | a cluster is torn down if and only if its HostedControlPlane has a DeletionTimestamp or the CAPI Cluster of its non-empty InfraID is being deleted; which calls that takes |
| `HcpDeletion.Controller.PatchFinalizer` | pkg/controllers/hcp/deletion/controller.go:114-151 | a finalizer patch succeeds exactly if the call goes through and the live object is the one that was read; removing the finalizer requires an emptied cluster and is logged with the state before and after |
| `HcpDeletion.Controller.DeleteNodePools` | pkg/controllers/hcp/deletion/controller.go:173-190 | true exactly if the list comes back empty, and then no NodePool exists; an error-free pass among calm others leaves no live one; undisturbed, exactly the live ones are deleted |
| `HcpDeletion.Controller.DeleteNodeClaims` | pkg/controllers/hcp/deletion/controller.go:193-229 | true keeps the cluster drained; an error-free pass leaves no live claim and settles those that were deleting; every annotation patch is logged, and overwrites nothing if the others leave annotations alone |
| `HcpDeletion.Controller.AnnotateClaim` | pkg/controllers/hcp/deletion/controller.go:246-253 | on success one patch is logged, and it replaced a non-empty annotation if and only if the others annotated the claim since the list and did not undo it |
| `HcpDeletion.Controller.HandleForcefulNodeClaimDeletion` | pkg/controllers/hcp/deletion/controller.go:232-256 | an annotated claim is left alone; any other is annotated with its own DeletionTimestamp |
| `HcpDeletion.Controller.CleanupKarpenterResources` | pkg/controllers/hcp/deletion/controller.go:164-170 | cleaned up exactly if first no NodePool and then no NodeClaim is listed; an error-free call is a pass in the sense of the measure, and exactly those are logged |
| `HcpDeletion.Controller.ReconcileDeletion` | pkg/controllers/hcp/deletion/controller.go:124-154 | in every interleaving: Failed exactly if a call failed; otherwise with the finalizer on, Requeue exactly if the pass found a NodePool or NodeClaim, and Finished after a pass that found none, with the removal logged exactly if the HostedControlPlane that was read has a DeletionTimestamp; without the finalizer Finished and no call. Undisturbed, outcome and new state in terms of the world |
| `HcpDeletion.Controller.Reconcile` | pkg/controllers/hcp/deletion/controller.go:94-122 | the same from the reads on, stale ones included: a HostedControlPlane with the finalizer whose cluster is torn down is requeued exactly as long as something is left to clean up, and any other never; keeps the logs sound and the passes a run of the drain among calm others; undisturbed, the outcome and the whole new state |
| `HcpDeletion.Controller.Run` | pkg/controllers/hcp/deletion/controller.go:94-154 | any number of reconciles under any script: release only when drained, sound finalizer writes, annotations overwritten exactly as stated; under a calm script no more than three error-free passes have work to do |
| `NodeClassLifecycle.PlayKeeps` | pkg/controllers/nodeclass/azure/controller.go:203-205 | the other clients cannot break the invariant that an existing child has a parent carrying the finalizer |
| `NodeClassLifecycle.ParentLogIsSound` | pkg/controllers/nodeclass/ec2/controller.go:157-173 | the log of the parent's writes is one that the results of `Objects` are about |
| `NodeClassLifecycle.ReleasedWithoutChild` | pkg/controllers/nodeclass/ec2/controller.go:141-191 | in a sound log the finalizer only goes off a deleting parent without a child, and a child is only created under a parent with the finalizer |
| `NodeClassLifecycle.StaleReadOrphans` | pkg/controllers/nodeclass/ec2/controller.go:125-191 | a stale read of the parent would let the child be created without a parent: why both controllers need fresh reads of it |
| `NodeClassLifecycle.StaleChildReadOrphans` | pkg/controllers/nodeclass/ec2/controller.go:217-224 | a stale read of the child would let EC2 release the parent of an existing child: why that one read must be fresh |
| `NodeClassController.Controller.CreateOrUpdateChild` | pkg/controllers/nodeclass/ec2/controller.go:186-194 | whatever the cache says about the child, the invariant is kept and a child is only created under a parent with the finalizer |
| `NodeClassController.Controller.ReconcileEC2` | pkg/controllers/nodeclass/ec2/controller.go:110-214 | every interleaving keeps the parent and child invariant and a sound log of writes, and has a determined outcome: Failed exactly if a call failed, otherwise Requeue exactly for a deleting parent whose child stays or a live one without user data Secret; undisturbed, the exact outcome and new state for each branch |
| `NodeClassController.Controller.ReconcileDeleteEC2` | pkg/controllers/nodeclass/ec2/controller.go:141-165 | requeued exactly as long as the child stays; the finalizer goes, if it was on, exactly once the child is gone |
| `NodeClassController.Controller.DeleteIfNeeded` | pkg/controllers/nodeclass/ec2/controller.go:217-234 | reporting gone means that no child exists; undisturbed, an existing child is marked or removed |
| `NodeClassController.Controller.ReconcileAzure` | pkg/controllers/nodeclass/azure/controller.go:100-143 | the same invariant and log for the Azure controller, which adds the finalizer before it looks for the HostedControlPlane and never requeues; Failed exactly if a call failed |
| `NodeClassController.Controller.ReconcileDeleteAzure` | pkg/controllers/nodeclass/azure/controller.go:206-225 | the finalizer goes, if it was on, exactly if deleting the child reports that there is none; otherwise nothing more is written |
| `NodeClassController.Controller.SyncChild` | pkg/controllers/nodeclass/ec2/controller.go:167-203 | finalizer before child; without its inputs the child is left alone |
| `NodeClassController.Controller.PatchFinalizer` | pkg/controllers/nodeclass/ec2/controller.go:157-173 | success means that the live parent was the one that was read, and the write is logged |
| `NodeClassController.Controller.Run` | pkg/controllers/nodeclass/azure/controller.go:100-225 | any number of reconciles of either controller under any script keep the invariant and write as stated |
| `UpgradeHold.NewestCompletedIsFirst` | pkg/hypershift/controlplaneversion.go:23-36 | the scan returns the image of the first Completed entry, and nothing exactly if there is none |
| `UpgradeHold.UpgradingMeans` | pkg/hypershift/controlplaneversion.go:18-36 | by positions in the history: an upgrade runs if and only if a release is desired and the first Completed entry exists and has another image |
| `UpgradeHold.InstallNeverWaits` | pkg/hypershift/controlplaneversion.go:10-36 | neither during the initial install (nothing completed, or no release desired) nor with a version does a NodeClass wait |
| `UpgradeHold.AmiSelectorTerms` | pkg/controllers/nodeclass/ec2/userdata.go:20-40 | the AMIs of the labels for amd64 and arm64 in this order, as far as they are there; an error exactly if there is none |
| `UpgradeHold.MarketplaceLabels` | pkg/controllers/nodeclass/azure/controller.go:177-186 | publisher, offer, SKU and version of the image are each read from the label of that name |
| `UpgradeHold.ProviderNodeClass.ReconcileEC2` | pkg/controllers/nodeclass/ec2/controller.go:236-267 | while an upgrade runs an unpinned object that has a pair keeps it; in every other case, the initial install included, it gets user data and AMIs of the Secret, and is untouched by an AMI error |
| `UpgradeHold.ProviderNodeClass.ReconcileAzure` | pkg/controllers/nodeclass/azure/controller.go:147-186 | overwriting first and restoring afterwards keeps the pair while an upgrade runs and installs user data and image of the Secret in every other case, the initial install included |
| `UpgradeHold.HoldIffFlightHarmless` | pkg/controllers/nodeclass/ec2/controller.go:241-253 | while the upgrade lasts the pair is constant over every run of reconciles and Secret rotations, if and only if the reconcile already in flight is harmless |
| `UpgradeHold.PairIsHeld` | pkg/controllers/nodeclass/azure/controller.go:156-162 | the hold over a whole run, by induction over its events |
| `UpgradeHold.HarmfulFlightBreaksTheHold` | pkg/hypershift/controlplaneversion.go:10-16 | from any other state there is a run that installs a new pair during the upgrade |
| `UpgradeHold.HoldBreaksInReachableRun` | pkg/hypershift/controlplaneversion.go:10-16 | a concrete run from a new NodeClass in which the pair changes while the upgrade runs |
| `UpgradeHold.WriteInstallsSecret` | pkg/hypershift/controlplaneversion.go:10-16 | after the upgrade, and for a pinned NodeClass always, every write installs the pair of the Secret it read, unless an older reconcile in flight holds it back |
| `UpgradeHold.InstallsIffCaughtUp` | pkg/hypershift/controlplaneversion.go:10-36 | the exact condition on the reconcile in flight, over every run that follows |
| `UpgradeHold.OldPairHeldAfterUpgrade` | pkg/hypershift/controlplaneversion.go:10-16 | a concrete run from a new NodeClass after which, the upgrade being over, a reconcile still holds the old pair back |
| `UpgradeHold.HalvesNeverMix` | pkg/controllers/nodeclass/ec2/controller.go:241-258 | in every reachable state user data and image come from one and the same Secret version |
| `HcpEvents.OperandController.Reconcile` | pkg/controllers/karpenter/hcp_controller.go:74-159 | which objects are applied with which configuration, field by field and the override image first, up to the call that fails; nothing in the other branches |
| `HcpEvents.OperandOfLastAccepted` | pkg/controllers/karpenter/hcp_controller.go:193-212 | along any run of versions of one HostedControlPlane the operand of the last version is that of the last accepted one |
| `HcpEvents.RejectedIsHarmlessIffFixed` | pkg/controllers/nodeclass/ec2/controller.go:545-571 | a rejected update leaves every desired NodeClass spec and conflict condition as it is, if and only if the E2E override and, unless it is set, InfraID stay |
| `HcpEvents.PlainOutputDiffers` | pkg/controllers/nodeclass/ec2/controller.go:326-339 | otherwise a NodeClass without selectors of its own exposes the rejected change |
| `HcpEvents.OutputDerives` | pkg/controllers/nodeclass/ec2/controller.go:236-339 | field by field, from the annotations, tags, InfraID and the NodeClass: subnet and security group selectors, instance profile and tags; nothing is written exactly if the E2E override is set |
| `HcpEvents.InfraIDChangeIsRejected` | pkg/controllers/nodeclass/ec2/controller.go:288-320 | a concrete rejected update after which the selectors change |
| `HcpEvents.ReconcileTwice` | pkg/controllers/nodeclass/azure/controller.go:147-165 | a second reconcile on unchanged inputs writes nothing new, hold included |
| `HcpEvents.FilterLosesNothing` | pkg/controllers/nodeclass/azure/controller.go:71-84 | over every run of HostedControlPlane, NodeClass and Secret changes, reconciling on accepted events ends where reconciling on every event ends |
| `HcpEvents.Derived.ReconcileEC2` | pkg/controllers/nodeclass/ec2/controller.go:236-324 | the mutate function and the conflict condition together compute the output that the filter results are about, and every field of it is the one that is asked for |
| `HcpEvents.Derived.ReconcileAzure` | pkg/controllers/nodeclass/azure/controller.go:147-186 | the same for the AKSNodeClass; user data and image are those of the Secret unless an upgrade holds them |
| `StatusConditions.SyncConditions` | pkg/controllers/nodeclass/status/conditions.go:19-52 | the loop in place refines the merge of the provider's conditions followed by the effective Ready |
| `StatusConditions.SyncSpec` | pkg/controllers/nodeclass/status/conditions.go:19-52 | type by type and down to the transition times: provider conditions are copied, others are unchanged, Ready is the provider's when the version is resolved and False otherwise; times move only with the status, to the owner's time or the clock reading of the write |
| `StatusConditions.ReadyMeans` | pkg/controllers/nodeclass/status/conditions.go:31-51 | Ready is the provider's once VersionResolved is True; until then it is False for this generation, with the reason and message of VersionResolved, or ResolutionFailed when there is none |
| `StatusConditions.SyncKeepsUnique` | pkg/controllers/nodeclass/status/conditions.go:20-29 | types stay unique |
| `StatusConditions.SyncIdempotent` | pkg/controllers/nodeclass/status/conditions.go:18-52 | applying it again at any clock readings changes nothing, transition times included |
| `StatusConditions.SetFind` | pkg/controllers/nodeclass/status/conditions.go:28-34 | setting a condition changes its own type only, and its time only with its status |
| `StatusConditions.PatchIsSafe` | pkg/controllers/nodeclass/ec2/controller.go:388-397 | a locked status patch of either controller ends with Ready=True only if VersionResolved=True, loses no condition of the ignition controller, and writes status, reason and message of the tag conflict condition as asked |
| `StatusConditions.ReadinessOverRuns` | pkg/controllers/nodeclass/status/conditions.go:31-51 | the same at every step of every interleaving; Ready's time moves only with Ready's status |
| `ClusterOperatorStatus.OperandConditions` | pkg/controllers/clusteroperator/controller.go:72-96 | the four types in order, with the statuses that the inputs call for |
| `ClusterOperatorStatus.DesiredConditions` | pkg/controllers/clusteroperator/controller.go:57-70 | the same including unsupported platforms |
| `ClusterOperatorStatus.ReasonsTell` | pkg/controllers/clusteroperator/controller.go:57-96 | each reason is reported if and only if its situation is there, OperandNotReady before OperandRollingOut; everything else is AsExpected |
| `ClusterOperatorStatus.ApplyStatus` | pkg/controllers/clusteroperator/controller.go:98-121 | the loop in place gives each condition the previous time if its status is unchanged and now otherwise |
| `ClusterOperatorStatus.StreakStartMeans` | pkg/controllers/clusteroperator/controller.go:105-121 | what an unbroken streak of a status is, independently of how its start is found |
| `ClusterOperatorStatus.TransitionTimes` | pkg/controllers/clusteroperator/controller.go:98-131 | after every run of successful reconciles each type occurs once and carries the time of the first reconcile of its current streak |
| `ResourceTags.MergeTags` | pkg/controllers/nodeclass/ec2/controller.go:614-635 | the merge is its closed form in whatever order the maps are enumerated |
| `ResourceTags.FilterRestrictedTags` | pkg/controllers/nodeclass/ec2/controller.go:711-734 | exactly the restricted keys are removed and reported |
| `ResourceTags.MergeEC2NodeClassTags` | pkg/controllers/nodeclass/ec2/controller.go:614-651 | key by key and independently of enumeration order: exactly the unrestricted keys of the platform and the NodeClass, with the NodeClass value where nothing stands against it or some platform tag of the key allows it and the last platform value otherwise; nil exactly if the NodeClass has no tags and every platform key is restricted |
| `ResourceTags.EC2TagsMeans` | pkg/controllers/nodeclass/ec2/controller.go:614-651 | the closed form has these keys and values |
| `ResourceTags.PlatformNext` | pkg/controllers/nodeclass/ec2/controller.go:619-628 | one more platform tag wins over earlier ones of its key, and a permission is never taken back |
| `ResourceTags.CountConflicts` | pkg/controllers/nodeclass/ec2/controller.go:659-678 | the two counters are the sizes of the sets of differing tags, independently of enumeration order |
| `ResourceTags.SetTagConflictCondition` | pkg/controllers/nodeclass/ec2/controller.go:653-706 | removed, False or True, with both counts |
| `ResourceTags.CountsAgreeIffConsistent` | pkg/controllers/nodeclass/ec2/controller.go:618-678 | the reported condition and counts are those that the merge calls for, for every NodeClass, if and only if platform tags sharing a key are consistent |
| `ResourceTags.InconsistencyShows` | pkg/controllers/nodeclass/ec2/controller.go:663-669 | a NodeClass with an inconsistent tag and no other gets a wrong condition |
| `ResourceTags.RepeatedKeyMiscounts` | pkg/controllers/nodeclass/ec2/controller.go:618-678 | a concrete list of two platform tags whose condition reports as lost what the merge lets win |
| `ResourceTags.ConditionReportsTheMerge` | pkg/controllers/nodeclass/ec2/controller.go:614-706 | with distinct keys the condition is True exactly when the merge discards a NodeClass value, and both counts are right |
| `SubnetIndex.ReconcileConfigMap` | pkg/controllers/nodeclass/ec2/controller.go:402-476 | the ConfigMap exists exactly if some living NodeClass has a subnet ID, and then lists the sorted duplicate-free union; a call is made exactly if it was not so before, and which one |
| `SubnetIndex.SortedList` | pkg/controllers/nodeclass/ec2/controller.go:425-425 | strictly sorted, and exactly the members of the set |
| `SubnetIndex.ListsIsUnique` | pkg/controllers/nodeclass/ec2/controller.go:411-425 | there is one such list, so the index does not depend on the order of the NodeClasses |
| `SubnetIndex.AlwaysTracked` | pkg/controllers/nodeclass/ec2/controller.go:402-476 | in every reachable state each indexed ID is reported by a NodeClass that still exists, and each ID of a living one is indexed |
| `SubnetIndex.ReleasedIDsStayGone` | pkg/controllers/nodeclass/ec2/controller.go:151-165 | over every run, from the step that removes a finalizer on, an ID that no living NodeClass reported stays out of the index until a reconcile finds it in a living one |
| `SubnetIndex.LivingIDsAreIndexed` | pkg/controllers/nodeclass/ec2/controller.go:205-207 | over every run no ID of a living NodeClass is ever missing |
| `SubnetIndex.ReleasedIDsAreGone` | pkg/controllers/nodeclass/ec2/controller.go:151-165 | right after a release in any run an ID is indexed if and only if a living NodeClass reports it |
| `AutoNodeStatus.SumNodeClaimVCPUs` | pkg/controllers/hcp/autonodestatus/controller.go:202-214 | the int64 accumulator narrowed to int32 is the exact sum modulo 2^32 |
| `AutoNodeStatus.VCPUsExactIffTheyFit` | pkg/controllers/hcp/autonodestatus/controller.go:202-214 | the reported value is the exact sum if and only if that fits in an int32 |
| `AutoNodeStatus.CountNodes` | pkg/controllers/hcp/autonodestatus/controller.go:155-162 | the names of all nodes and the wrapped count of the labelled ones |
| `AutoNodeStatus.ReconcileAutoNodeStatus` | pkg/controllers/hcp/autonodestatus/controller.go:149-197 | the three counts: labelled Nodes, NodeClaims, and the cores of the NodeClaims whose Node exists and whose capacity is known; written only when the status differs |
| `AutoNodeStatus.ComputedMeans` | pkg/controllers/hcp/autonodestatus/controller.go:149-214 | the recomputed status, count by count, as a selection of the lists |
| `AutoNodeStatus.ComputedIsOrderIndependent` | pkg/controllers/hcp/autonodestatus/controller.go:149-214 | the status does not depend on list order |
| `AutoNodeStatus.RejectedClaimUpdate` | pkg/controllers/hcp/autonodestatus/controller.go:94-108 | a rejected NodeClaim update leaves the computed status unchanged, absent CPU and explicit zero included |
| `AutoNodeStatus.RejectedNodeUpdate` | pkg/controllers/hcp/autonodestatus/controller.go:112-126 | a rejected Node update leaves the computed status unchanged |
| `AutoNodeStatus.TrackedStatusIsFresh` | pkg/controllers/hcp/autonodestatus/controller.go:94-197 | over every run of events, also between the lists and the write of a reconcile, the written status equals recomputation from scratch whenever no accepted event is pending and no reconcile is in flight |
| `AutoNodeStatus.RetryUpdates` | pkg/controllers/hcp/autonodestatus/controller.go:129-197 | whatever is pending or in flight, and even if that fails, the next undisturbed reconcile brings the status up to date |
| `NodeIdentity.InstanceIDIff` | pkg/cloudprovider/aws/node_identity_verifier.go:63-69 | the instance ID is what follows the last slash, and absent exactly if that is nothing |
| `NodeIdentity.Verify` | pkg/cloudprovider/aws/node_identity_verifier.go:23-43 | the loop with early exit makes exactly the calls, and has exactly the result, of asking batch after batch; each call names between 1 and 1000 IDs, and an answer of false comes after asking for every ID in as few calls as possible |
| `NodeIdentity.MatchesPrivateDNSName` | pkg/cloudprovider/aws/node_identity_verifier.go:45-61 | an error exactly if the call failed, otherwise true exactly if some instance of any reservation has the name, a missing one counting as empty |
| `NodeIdentity.NamedMeans` | pkg/cloudprovider/aws/node_identity_verifier.go:53-59 | the same by positions, for the answers that the results below are about |
| `NodeIdentity.AskMeans` | pkg/cloudprovider/aws/node_identity_verifier.go:33-42 | every call before the last was answered without the name; error exactly if the last failed, true exactly if it was answered with the name |
| `NodeIdentity.ChunksPartition` | pkg/cloudprovider/aws/node_identity_verifier.go:33-33 | the batches concatenate to the ID list and hold between 1 and 1000 IDs each |
| `NodeIdentity.ChunkCount` | pkg/cloudprovider/aws/node_identity_verifier.go:14-16 | there are no more batches than the limit makes necessary |
| `NodeIdentity.BatchedIsSingle` | pkg/cloudprovider/aws/node_identity_verifier.go:23-61 | when the calls that are made do not fail and answer IDs independently, the result is true exactly if some claim's instance has the node name |
| `NodeIdentity.BatchesAreAdmitted` | pkg/cloudprovider/aws/node_identity_verifier.go:14-16 | it is enough that EC2 answers calls of 1 to 1000 IDs in this way |
| `NodeIdentity.StrictEC2AnswersBatches` | pkg/cloudprovider/aws/node_identity_verifier.go:33-51 | an EC2 that refuses larger calls and unknown IDs, answers a call without IDs with everything, and spreads the instances over any reservations does so for claims whose instances it knows |
| `KubeletConfig.MatchesOne` | api/karpenter/v1/kubelet_config.go:51-129 | no key belongs to two fields, in any case |
| `KubeletConfig.TypedPerField` | api/karpenter/v1/kubelet_config.go:140-145 | decoding treats the fields independently and fails exactly if one of them does |
| `KubeletConfig.ScalarsBecome` | api/karpenter/v1/kubelet_config.go:51-129 | in every text that decodes, maxPods, podsPerCore and cpuCFSQuota hold what the members spelled like these keys decode to |
| `KubeletConfig.PointersBecome` | api/karpenter/v1/kubelet_config.go:51-129 | likewise the grace period and the two image garbage collection thresholds |
| `KubeletConfig.MapsBecome` | api/karpenter/v1/kubelet_config.go:51-129 | likewise the two reservations and the three eviction maps |
| `KubeletConfig.UnmarshalMarshal` | api/karpenter/v1/kubelet_config.go:134-194 | for every configuration: all texts of its encoding are decoded to it, if and only if its overflow is absent, or non-empty without a field's name, and overflow members that spell a field's name in another case repeat the field |
| `KubeletConfig.NormalIsRecoverable` | api/karpenter/v1/kubelet_config.go:134-194 | configurations with nil or non-empty maps and overflow without a known key qualify, and nothing else does when no overflow key differs from a field's name in case alone |
| `KubeletConfig.SafeOverflowKeys` | api/karpenter/v1/kubelet_config.go:153-163 | in terms of keys: every configuration with these overflow keys and nil or non-empty maps round trips, if and only if the keys are absent, or non-empty without a known one |
| `KubeletConfig.MarshalUnmarshal` | api/karpenter/v1/kubelet_config.go:134-194 | for every object: it comes back from all of its texts with every key and value, if and only if each own member is non-default and each member in another case repeats it or leaves the field omitted |
| `KubeletConfig.ComesBackPerField` | api/karpenter/v1/kubelet_config.go:134-194 | for any one text, repeated keys included, what comes back is decided field by field |
| `KubeletConfig.SafeKeys` | api/karpenter/v1/kubelet_config.go:153-163 | in terms of keys: every object with these keys that decodes to non-default fields comes back, if and only if no key spells a field's name in another case |
| `KubeletConfig.DecodableMeans` | api/karpenter/v1/kubelet_config.go:140-145 | an object decodes from all of its texts or from none, by the types of its members |
| `KubeletConfig.TextsAgree` | api/karpenter/v1/kubelet_config.go:134-165 | with exactly spelt keys the order of members does not matter |
| `KubeletConfig.UnknownMembersSurvive` | api/karpenter/v1/kubelet_config.go:147-163 | every member that is not exactly a field's name is passed through, whatever the object |
| `KubeletConfig.FoldedKeyOverwrites` | api/karpenter/v1/kubelet_config.go:153-163 | a concrete object with a folded key that does not come back |
| `KubeletConfig.HasTypedFieldsIsComplete` | api/karpenter/v1/kubelet_config.go:196-212 | the hand-written list of comparisons misses no field |
| `KubeletConfig.IsZeroIffEmpty` | api/karpenter/v1/kubelet_config.go:214-219 | on normal forms IsZero holds exactly if the encoding is the empty object |
| `KubeletConfig.KubeletConfiguration.UnmarshalJSON` | api/karpenter/v1/kubelet_config.go:134-165 | the receiver becomes what the members say, whatever it held before; after an error it holds the typed fields as far as they decoded |
| `KubeletConfig.KubeletConfiguration.MarshalJSON` | api/karpenter/v1/kubelet_config.go:169-194 | the merge loop gives overflow with the structured fields winning |
| `KubeletConfig.KubeletConfiguration.DeleteKnown` | api/karpenter/v1/kubelet_config.go:153-156 | the loop removes exactly the known keys, in any order |
| `CsrApproval.IsCertificateRequestPending` | pkg/controllers/machineapprover/controller.go:216-223 | pending exactly if there is no Approved and no Denied condition |
| `CsrApproval.CsrFilter` | pkg/controllers/machineapprover/controller.go:92-106 | which CSRs are queued, both directions |
| `CsrApproval.DeleteBound` | pkg/controllers/machineapprover/controller.go:175-178 | filtering in place keeps the unbound claims in order and clears the rest |
| `CsrApproval.FindTargetNodeClaim` | pkg/controllers/machineapprover/controller.go:243-256 | the first claim bound to the node name, if any |
| `CsrApproval.NodeNameMeans` | pkg/controllers/machineapprover/controller.go:165-190 | the node name is the subject of a client request or the user of a server request, without the prefix if it has it, and never empty |
| `CsrApproval.AuthorizeClientCSR` | pkg/controllers/machineapprover/controller.go:159-184 | errors without a node name; otherwise the unbound claims decide |
| `CsrApproval.AuthorizeServingCSR` | pkg/controllers/machineapprover/controller.go:186-198 | errors without a node name; otherwise one claim bound to it decides |
| `CsrApproval.AuthorizedIffInstanceNamed` | pkg/controllers/machineapprover/controller.go:148-198 | when EC2 answers, a CSR is authorized exactly if a candidate's instance has the name it asks for |
| `CsrApproval.VerifiedOver` | pkg/controllers/machineapprover/controller.go:159-198 | a successful verification was over every unbound claim and no other, or over one claim bound to the node |
| `CsrApproval.Controller.Reconcile` | pkg/controllers/machineapprover/controller.go:108-145 | with stale reads and interference, an approval is logged exactly if the CSR is still the version that was authorized, and it adds one Approved and no Denied condition |
| `CsrApproval.Controller.ApproveCSR` | pkg/controllers/machineapprover/controller.go:200-214 | succeeds exactly on the version that was read, and then the CSR has the conditions that were read and one Approved condition, and no Denied one |
| `CsrApproval.Controller.Run` | pkg/controllers/machineapprover/controller.go:92-223 | any number of events and reconciles under any cache lag and interference: every approval is justified and raises the number of Approved conditions by exactly one and leaves Denied ones alone, no CSR is approved twice, none becomes undecided again, and an approved CSR that is the one of its event passes the filter |
| `CsrApproval.JustifiedApproves` | pkg/controllers/machineapprover/controller.go:200-214 | every justified write appends one Approved condition, and changes neither the request nor the earlier conditions |
| `CsrApproval.FilterHoldsIffSameUID` | pkg/controllers/machineapprover/controller.go:92-137 | whatever may be approved after an event passes the event filter, if and only if the CSR that is read is the one of the event, by UID |
| `CsrApproval.ReusedNamePassesUnfiltered` | pkg/controllers/machineapprover/controller.go:108-137 | a run in which a name is used again between event and reconcile, and a CSR that the filter rejects is approved |
| `CsrApproval.ApproveKeeps` | pkg/controllers/machineapprover/controller.go:124-143 | an approval goes through only for a CSR that no earlier one touched |
| `CsrApproval.ApprovedOnce` | pkg/controllers/machineapprover/controller.go:124-143 | over every run the controller approves a CSR at most once, and an approved CSR is never undecided again |
| `UserDataSecret.GetUserDataSecret` | pkg/hypershift/userdatasecret.go:38-61 | not found, found or an error, by the number of accepted Secrets |
| `UserDataSecret.AcceptsMeans` | pkg/hypershift/userdatasecret.go:44-51 | a Secret is accepted if and only if its annotation names the NodePool of the NodeClass and it is not marked as a token |
| `UserDataSecret.FoundIsTheOnlyOne` | pkg/hypershift/userdatasecret.go:53-60 | a Secret is found exactly if it alone is accepted |
| `UserDataSecret.MappedBack` | pkg/hypershift/userdatasecret.go:89-99 | an accepted Secret is mapped back to exactly its NodeClass if and only if the namespace has no slash, also for names that contain the suffix |
| `UserDataSecret.MappedIffAccepted` | pkg/hypershift/userdatasecret.go:89-99 | a Secret is mapped to a NodeClass exactly if its lookup in some slash-free namespace accepts it |
| `UserDataSecret.AcceptedForOne` | pkg/hypershift/userdatasecret.go:44-51 | no Secret serves two NodeClasses of a namespace |
| `UserDataSecret.ChangeIsNoticed` | pkg/hypershift/userdatasecret.go:69-85 | an event after which a lookup sees other Secrets enqueues the NodeClass if and only if it is neither a deletion nor a loss of the label |
| `UserDataSecret.DeletionIsMissed` | pkg/hypershift/userdatasecret.go:74-79 | a deletion after which the lookup would succeed, and which enqueues nothing |

## Left out

- Start-up, flags, manager and kubeconfig wiring, metrics and requeue delays: plumbing around the controllers.
- Rendering of Deployments, PodMonitors, RBAC and CRDs, the admission policies and the default NodeClass: applying constants. `HcpEvents` keeps the operand configuration that depends on the HostedControlPlane.
- The AWS client, PEM and x509 parsing and the restricted tag patterns: parameters (`describe`, `commonName`, `restricted`).
- JSON text, runtime.RawExtension values that are not objects, and the order of members in the output: JSON is modelled as members. Fractions and arrays are opaque values that no typed field accepts.
- Several HostedControlPlanes in one namespace: the source answers with an error, which the models cover as a failing call.
- Stale lists of NodePools, NodeClaims and Nodes: modelled as fresh reads at the API server. Reads of the HostedControlPlane by the deletion controller, of CSRs and NodeClaims by the approver, and of the child by CreateOrUpdate may be stale.
- The ten concurrent workers of the EC2 controller on the subnet ConfigMap: reconciles are taken as atomic. Its labels and owner reference are not modelled.
- Condition messages of the tag conflict condition beyond their two counts, related objects and versions of the ClusterOperator.
- Conversions between enumerations of the two NodeClass APIs, and fields that a provider spec merely copies from the NodeClass (`details` in `HcpEvents`).
- Truncation of times to seconds, and clock skew between replicas: times are numbers.
- NodeClassController.Controller.SyncChild: the status, ConfigMap and admission policy writes that follow are one call that may fail, because they do not touch the parent's finalizers or the child.
