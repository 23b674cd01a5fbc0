# Verified model of the Stackable operator framework

This project models the parts of operator-rs that decide what happens to a user's cluster and
proves what they promise, for all inputs and all runs:

- **Reconciling** (`Kubernetes`, `ObjectOverrides`, `ClusterResources`, `Reconciler`). A run adds
  resources and then deletes orphans by concurrent tasks, one per kind. It is a labelled transition
  system over the API server's store; the steps are chosen by the caller, the scheduler and the
  server. A request may fail without effect or take effect although its answer is lost, and a
  failed task does not stop the others, so every moment at which the real join cancels them is
  covered. The mutating operations are methods whose contracts say which steps they take; deleting
  orphans interleaves the tasks at every request in any order. A path of steps from a new run is a
  run, so the theorems about runs hold of the methods.
- **Layered configuration** (`ConfigMerge`, `ConfigFragment`, `ContainerLogConfig`,
  `Lexicographic`). Fragments are trees of atomic options, structs, maps, optional sections and
  enums; they are merged layer by layer and then validated.
- **Delayed overrides** (`Layering`, `JsonOverrides`, `JvmOverrides`). Overrides are collected as data and
  applied later; their meaning is a function on documents or argument lists.
- **Memory quantities** (`Memory`), in exact arithmetic.
- **Byte-bounded names and messages** (`Text`, `Regex`, `Utf8`, `DnsNames`, `ResourceNames`,
  `EventMessage`). Regular expressions have a declarative matching relation, and the formats are
  proved to be their languages.
- **Kubernetes versions and labels** (`Decimal`, `ApiGroup`, `K8sVersion`, `KeyValuePairs`).

`dafny verify dfyconfig.toml` checks everything.

## Assumptions about code that is not modelled

- API server: objects are addressed by kind, namespace and name; server-side apply creates or
  updates, keeps the uid of an existing object, gives a new object a fresh uid and stores every
  field the patch sets; delete is by name; listing returns each selected object once. Nobody else
  writes to the store during a run. Stored objects may lack a uid, which is an error path of the code.
- Deep merging of typed objects: a set field of the override wins, maps and owner references are
  merged by key. An override's content parses or does not.
- JSON merge patch follows section 2 of RFC 7396. An operation of a JSON patch is an arbitrary
  partial function on documents.
- The regex engine for JVM arguments maps a pattern to a matcher or rejects it. SHA-256 digests are
  64 lower-case hexadecimal digits. The class `\d` accepts the ASCII digits and possibly digits of
  other scripts, but no other ASCII character.
- Uids are opaque tokens, written as natural numbers.

## Where code and documentation differ

- The documentation of `Merge` presents layering as overriding by the tighter scope. With enums the
  grouping of layers matters (`EnumMergeIsNotAssociative`); `AssociativityCondition` gives the exact
  condition.
- The default JSON override is described as an empty patch. It changes documents that are not
  objects (`DefaultIsNeutralOnObjects`).
- `delete_orphaned_resources` is documented as comparing labels only; the code also requires direct
  ownership and the cluster's namespace. `LabelledUnownedSurvives` gives an object with the labels
  that outlives every deletion, and `LabelledIsDeletedIffOwned` the exact condition.
- API groups are documented as DNS subdomains. Neither inclusion holds (`GroupsAreNotSubdomains`): the
  regular expression allows a final dot, and since it makes dots optional it asks that every label
  can be cut into pieces of 2 to 63 characters. An accepted group is a subdomain exactly if it does
  not end with a dot (`AcceptedGroupIsSubdomain`); a subdomain is accepted exactly if its labels can
  be cut, which up to 63 characters means that none is a single character (`SubdomainIsAccepted`).

## Model

| member | source | states |
|---|---|---|
| ObjectOverrides.ObjectCell.ApplyDeepMerge | crates/stackable-operator/src/deep_merger/mod.rs:29-65 | In place: merges exactly if apiVersion, kind, name and namespace match; errs exactly if it matches but cannot be parsed, leaving the object as it was. |
| ObjectOverrides.ObjectCell.ApplyAll | crates/stackable-operator/src/deep_merger/crd.rs:30-38 | The loop leaves the object, and succeeds or fails, as the specification function says, partial merges before an error included. |
| ObjectOverrides.MatchingMergeKeepsIdentity | crates/stackable-operator/src/deep_merger/mod.rs:43-62 | A matching merge changes neither the key of the object nor which overrides match it. |
| ObjectOverrides.OverrideMatchesOneKey | crates/stackable-operator/src/deep_merger/mod.rs:33-51 | An override matches objects of one kind, namespace and name only. |
| ObjectOverrides.ApplyToFoldsTheMatchingOverrides | crates/stackable-operator/src/deep_merger/crd.rs:30-38 | Applying a list is folding, in order, exactly the overrides that match the original object; it fails exactly if one of these cannot be parsed. |
| ObjectOverrides.MergeEachFields | crates/stackable-operator/src/deep_merger/mod.rs:53-62 | After a fold, replicas, each node selector entry and each other setting are those of the last override that sets them. |
| Kubernetes.MergedMetadata | crates/stackable-operator/src/deep_merger/mod.rs:53-62 | Merged metadata takes name, namespace, uid and each label from the override if it sets them, else keeps them; owners are united. |
| ClusterResources.CheckLabels | crates/stackable-operator/src/cluster_resources.rs:609-643 | Succeeds exactly if every expected label is present with the expected content. |
| ClusterResources.LabelChecks | crates/stackable-operator/src/cluster_resources.rs:609-643 | The labels instance, managed-by and name are checked in this order; the first that is missing or has another content is the error. |
| ClusterResources.MaybeMutate | crates/stackable-operator/src/cluster_resources.rs:232-315 | Stopping touches only workloads, never their kind, metadata or other settings; only daemon sets get another node selector and only the others other replicas. |
| ClusterResources.StoppedWorkloads | crates/stackable-operator/src/cluster_resources.rs:233-307 | A stopped StatefulSet or Deployment gets 0 replicas, a stopped DaemonSet the unreachable node selector, and nothing else changes. |
| ClusterResources.PrepareExactly | crates/stackable-operator/src/cluster_resources.rs:538-576 | Under every strategy a resource is accepted exactly if it has the three labels of the cluster and every override that matches it parses; it is then sent mutated, with the matching overrides merged in order; otherwise the first failed check is the error. |
| ClusterResources.Retain | crates/stackable-operator/src/cluster_resources.rs:809-819 | Keeps exactly the objects directly owned by the cluster, without duplicates. |
| ClusterResources.CollectOrphans | crates/stackable-operator/src/cluster_resources.rs:711-722 | Exactly the unrecorded objects, or an error if any object has no uid. |
| ClusterResources.StepKeepsInv | crates/stackable-operator/src/cluster_resources.rs:538-752 | Every step keeps: uids are unique, recorded objects are stored under their uid, and each task's kind is covered by recorded and queued objects. |
| ClusterResources.RunKeepsInv | crates/stackable-operator/src/cluster_resources.rs:538-752 | The invariant holds in every state of every run. |
| ClusterResources.DeletionIsSafe | crates/stackable-operator/src/cluster_resources.rs:659-822 | In every run, schedule and failure: what disappears does so under the default or the stopped strategy, is in the cluster's namespace, carries its three labels, is owned by its uid, and is not added at any time of the run; nothing else changes in that step. |
| ClusterResources.ReadOnlyStrategies | crates/stackable-operator/src/cluster_resources.rs:159-211 | No paused or dry run changes the store. |
| ClusterResources.DoneTaskLeavesOnlyAdded | crates/stackable-operator/src/cluster_resources.rs:699-752 | Once a kind's task is done, every object of the kind that belongs to the cluster was added in this run; no added object was deleted. |
| ClusterResources.SuccessfulRunLeavesOnlyAdded | crates/stackable-operator/src/cluster_resources.rs:659-682 | After a successful run with the default or the stopped strategy, every stored object in the cluster's namespace with its three labels and its owner reference, of a kind that may be listed, was added in the run; every added object is stored under its recorded uid. |
| ClusterResources.DeletionRemovesOnlyOrphans | crates/stackable-operator/src/cluster_resources.rs:699-752 | In every state since the deletion began, finished or failed: the server differs only by missing orphans. |
| ClusterResources.SuccessfulDeletionRemovesExactlyOrphans | crates/stackable-operator/src/cluster_resources.rs:659-682 | For every schedule, a deletion that succeeds leaves exactly the store it found minus, under the default and the stopped strategy, the unadded objects of listable kinds with the cluster's namespace, labels and owner. |
| ClusterResources.ScheduleDoesNotMatter | crates/stackable-operator/src/cluster_resources.rs:667-679 | Any two schedules from the same state that succeed end with the same server. |
| ClusterResources.LabelledIsDeletedIffOwned | crates/stackable-operator/src/cluster_resources.rs:812-819 | Of the labelled objects that were not added, a successful deletion removes exactly those owned by the cluster. |
| ClusterResources.LabelledUnownedSurvives | crates/stackable-operator/src/cluster_resources.rs:644-653 | A labelled object that outlives every deletion of unadded resources. |
| ClusterResources.SecondRunHasNoOrphans | crates/stackable-operator/src/cluster_resources.rs:538-590 | When a later run has added the same objects again, their recorded uids are the same and no stored object is an orphan. |
| ClusterResources.SecondRunDeletesNothing | crates/stackable-operator/src/cluster_resources.rs:659-752 | Reconciling converges: a later run that applies no other objects than the first successful one recorded, and records them all again, deletes nothing at any step, whatever the schedule, strategy and overrides; unless it is paused or dry, its uids are the same. |
| ClusterResources.SecondRunKeepsObjects | crates/stackable-operator/src/cluster_resources.rs:538-752 | In every state of such a run the server holds the same objects under the same uids. |
| ClusterResources.PrepareStopped | crates/stackable-operator/src/cluster_resources.rs:233-307 | What a stopped run sends has the replicas or selector of the last matching override that sets them, else 0 replicas or the unreachable selector. |
| ClusterResources.StoppedRunStopsEverything | crates/stackable-operator/src/cluster_resources.rs:571-587 | In every state of a stopped run, every applied object that is stored asks for no pods unless an override addressed to it sets that field. |
| Reconciler.Resources.Add | crates/stackable-operator/src/cluster_resources.rs:538-590 | `add` is one step of the run and succeeds only for resources with the three labels whose matching overrides parse; it then stores the mutated resource with these overrides by server-side apply, or returns the stored or the unapplied one; the uid is recorded exactly on success; rejected resources reach neither server nor record; if every request is answered, a valid resource fails only for a missing namespace, object or uid. |
| Reconciler.Resources.DeleteOrphanedResourcesOfKind | crates/stackable-operator/src/cluster_resources.rs:699-752 | A task that runs alone is a path of the run; success means done, or skipped exactly if listing is forbidden or the strategy does not delete; if every request is answered, it fails only if an object of the cluster has no uid. |
| Reconciler.Resources.DeleteOrphanedResources | crates/stackable-operator/src/cluster_resources.rs:659-682 | The eleven tasks, interleaved in any way and stopped by the first error, are a path of the run that removes nothing but orphans; on success exactly the leftover objects of the cluster are gone, and under the default and the stopped strategy every stored object of the cluster of a listable kind was added; paused and dry runs change nothing; if every request is answered, it fails only if an object of the cluster has no uid. |
| Reconciler.PathIsRun | crates/stackable-operator/src/cluster_resources.rs:417-682 | What the methods do from a new run on is a run, so all theorems about runs hold of it. |
| Reconciler.Reconcile | crates/stackable-operator/src/cluster_resources.rs:367-414 | Creating, adding and deleting is a run; on success all given resources are stored and the cluster's objects are among them. |
| Reconciler.ReconcileAgain | crates/stackable-operator/src/cluster_resources.rs:367-414 | Reconciling the same resources again, with any strategy and overrides, keeps the same objects and uids. |
| Reconciler.DeletionCanSucceed | crates/stackable-operator/src/cluster_resources.rs:659-752 | However the tasks are interleaved, as long as none has failed and no object of the cluster lacks a uid, the deletion can still succeed. |
| Reconciler.Client.ApplyPatch | crates/stackable-operator/src/client/mod.rs:314-331 | A request has no effect, or the effect of server-side apply whether or not the answer arrives. |
| Reconciler.Client.Delete | crates/stackable-operator/src/client/mod.rs:484-495 | A request has no effect or removes exactly the named object. |
| Reconciler.ReachesKeepsInv | crates/stackable-operator/src/cluster_resources.rs:699-752 | Whatever the methods reach satisfies the invariant. |
| ConfigMerge.MapCell.MergeInPlace | crates/stackable-operator/src/config/merge.rs:64-77 | The in-place loop over the defaults is the structural merge of maps. |
| ConfigMerge.MergeKeepsShape | crates/stackable-operator-derive/src/merge.rs:140-150 | Merging stays within the type. |
| ConfigMerge.EmptyIsIdentity | crates/stackable-operator/src/config/merge.rs:151-157 | The empty fragment is the identity on both sides, enums included. |
| ConfigMerge.MergeIsIdempotent | crates/stackable-operator/src/config/merge.rs:54-91 | Merging a fragment with itself changes nothing, enums included. |
| ConfigMerge.AddsNothingMeaning | crates/stackable-operator/src/config/merge.rs:54-57 | Defaults change nothing exactly if everything they set is already set. |
| ConfigMerge.AssociativityCondition | crates/stackable-operator-derive/src/merge.rs:110-150 | Merge associates exactly if no enum variant of the middle layer separates outer layers of one variant of which the lower adds something. |
| ConfigMerge.EnumMergeIsNotAssociative | crates/stackable-operator/src/config/merge.rs:389-409 | Three layers whose grouping matters. |
| ConfigMerge.MergeIsAssociativeWithoutEnums | crates/stackable-operator/src/config/merge.rs:64-91 | Merge is associative on all types without enums. |
| ConfigMerge.MergedEnumLayers | crates/stackable-operator-derive/src/merge.rs:129-138 | Merged enum layers have the variant of the first set layer, and its payload merges exactly the set layers before the first set layer of another variant. |
| ConfigMerge.MergedLayersAtPath | crates/stackable-operator-derive/src/merge.rs:97-116 | At any path of any type, what stands in merged layers is the merge of exactly the contributing fragments. |
| ConfigMerge.LeafIsFirstSet | crates/stackable-operator/src/config/merge.rs:151-157 | Every leaf of merged layers is the first set value among its contributing layers. |
| ConfigMerge.ReduceLayers | crates/stackable-operator/src/config/merge.rs:99-124 | Reducing optional layers, the least specific first, by merging each over the result so far is merging those present from right to left. |
| ContainerLogConfig.AutomaticLogConfig.MergeInPlace | crates/stackable-operator/src/product_logging/spec.rs:235-256 | The hand-written in-place merge is the structural merge of its three fields. |
| ContainerLogConfig.MergeSection | crates/stackable-operator/src/product_logging/spec.rs:241-254 | An optional appender is merged if both sides have it, else whichever side has it is taken. |
| ContainerLogConfig.CustomRoleHidesAutomaticDefaults | crates/stackable-operator/src/product_logging/spec.rs:131-142 | A custom role layer hides the operator's automatic defaults from an automatic role group. |
| ContainerLogConfig.RequiredOfContainer | crates/stackable-operator/src/product_logging/spec.rs:111-115 | The required settings of a container are exactly the config map of a custom choice and the level of each logger of an automatic one; appenders require nothing. |
| ContainerLogConfig.RequiredOfLogging | crates/stackable-operator/src/product_logging/spec.rs:68-79 | The required settings of a logging configuration are exactly the agent switch, the config map of each custom container and the level of each logger of an automatic one. |
| ContainerLogConfig.MergedVariant | crates/stackable-operator/src/product_logging/spec.rs:134-142 | The merged choice of a container has the variant of the first layer that sets it. |
| ContainerLogConfig.GapIsUnset | crates/stackable-operator/src/product_logging/spec.rs:144-161 | A required logging setting is missing after merging exactly if no layer that counts for it, up to a change of variant, sets it. |
| ContainerLogConfig.ValidateLogging | crates/stackable-operator/src/product_logging/spec.rs:68-161 | Validating merged role group, role and default logging succeeds exactly if some layer sets the agent switch, a leading custom layer the config map of each container that merges to custom, and a leading automatic layer the level of each named logger; otherwise the text is the dotted path of the first gap: agent, then containers in their order, then loggers by name. |
| ConfigFragment.ErrorRequired | crates/stackable-operator/src/config/fragment.rs:39-58 | The loop collects the identifiers from the field to the root. |
| ConfigFragment.PrintPath | crates/stackable-operator/src/config/fragment.rs:64-74 | Prints the reversed identifiers separated by dots. |
| ConfigFragment.FirstMissing | crates/stackable-operator/src/config/fragment.rs:127-194 | Validation succeeds exactly if no required leaf is missing, and otherwise names the first missing one in field order and the order of each map's key type, at any depth. |
| ConfigFragment.ValidateAndPrint | crates/stackable-operator/src/config/fragment.rs:210-218 | The printed path runs from the root to the first missing required leaf. |
| ConfigFragment.ValidationLosesNothing | crates/stackable-operator-derive/src/fragment.rs:152-170 | A validated value, as a fragment again, is the fragment that was validated. |
| ConfigFragment.ValidateConfigReportsFirstUnset | crates/stackable-operator/src/role_utils.rs:416-433 | Validating merged role group, role and defaults succeeds exactly if a contributing layer sets every required leaf of the merged shape; otherwise the first unset one is reported. |
| ConfigFragment.ValidatedConfigAtPath | crates/stackable-operator/src/role_utils.rs:416-433 | On success, what stands at any path of the value is the merge of the contributing layers, and each leaf the first value set by one of them. |
| Layering.GroupingIsIrrelevant | crates/stackable-operator/src/v2/config_overrides.rs:178-194 | Whenever a merge composes, every grouping of a list of layers acts like the layers applied one after the other; JSON and JVM overrides are instances. |
| JsonOverrides.ApplySequence | crates/stackable-operator/src/v2/config_overrides.rs:155-163 | The reverse loop applies a sequence from its last to its first element. |
| JsonOverrides.MergePatchAtKey | crates/stackable-operator/src/v2/config_overrides.rs:142-146 | A merge patch member by member: null removes, an object is merged recursively, anything else replaces, unnamed members stay; a patch that is no object replaces the document. |
| JsonOverrides.SingleOverrides | crates/stackable-operator/src/v2/config_overrides.rs:140-165 | Each kind of override applied alone; a sequence applies its first element last. |
| JsonOverrides.PatchCompletesOrFails | crates/stackable-operator/src/v2/config_overrides.rs:147-153 | On every document the operations of a patch run through or stop at the first that fails. |
| JsonOverrides.CompletePatchApplies | crates/stackable-operator/src/v2/config_overrides.rs:147-153 | If every operation succeeds on the result of the one before, the patch gives the last document. |
| JsonOverrides.FailedPatchIsRolledBack | crates/stackable-operator/src/v2/config_overrides.rs:147-153 | If an operation on the way fails, the patch leaves the document as it was. |
| JsonOverrides.MergeComposes | crates/stackable-operator/src/v2/config_overrides.rs:178-194 | Applying merged overrides is applying the defaults and then the overrides, for arbitrarily nested sequences. |
| JsonOverrides.OverridesCell.MergeInPlace | crates/stackable-operator/src/v2/config_overrides.rs:178-194 | The in-place merge composes for every document. |
| JsonOverrides.AnyGroupingDenotesTheSame | crates/stackable-operator/src/v2/config_overrides.rs:140-194 | Every grouping of a list of layers denotes the same document transformation. |
| JsonOverrides.UserProvidedHidesBelow | crates/stackable-operator/src/v2/config_overrides.rs:154 | A user-provided layer hides the document and all layers below it, in every grouping. |
| JsonOverrides.DefaultIsNeutralOnObjects | crates/stackable-operator/src/v2/config_overrides.rs:168-176 | The default changes nothing exactly if the document is an object. |
| JsonOverrides.MergePatchIsIdempotent | crates/stackable-operator/src/v2/config_overrides.rs:142-146 | Applying a merge patch twice is applying it once. |
| JsonOverrides.KeyValuesOverwrite | crates/stackable-operator/src/v2/config_overrides.rs:196-200 | Key-value overrides set exactly their keys and turn any document into an object. |
| JsonOverrides.FlatMergeAgreesWithDelayedMerge | crates/stackable-operator/src/v2/config_overrides.rs:268-277 | On every document, the flat merge of key-value overrides has the effect of the delayed merge. |
| JvmOverrides.MergeComposes | crates/stackable-operator/src/v2/jvm_argument_overrides.rs:34-60 | Applying merged overrides is applying the defaults and then the overrides, for all nested preceding lists. |
| JvmOverrides.ApplyToResult | crates/stackable-operator/src/v2/jvm_argument_overrides.rs:41-60 | Of what the preceding overrides leave, the last added first, exactly the arguments neither listed nor matched survive, in their order and number, followed by the additions. |
| JvmOverrides.ApplyToMembers | crates/stackable-operator/src/v2/jvm_argument_overrides.rs:41-60 | An argument is there in the end exactly if it was added, or was left by the preceding overrides and is neither listed nor matched. |
| JvmOverrides.DelayedCell.MergeInPlace | crates/stackable-operator/src/v2/jvm_argument_overrides.rs:34-38 | Pushing the defaults composes for every argument list. |
| JvmOverrides.AnyGroupingTransformsTheSame | crates/stackable-operator/src/v2/jvm_argument_overrides.rs:41-60 | Every grouping of layers transforms arguments in the same way. |
| JvmOverrides.CompileAll | crates/stackable-operator/src/role_utils.rs:257-268 | Succeeds exactly if every anchored pattern is valid, with one matcher per pattern, in order. |
| JvmOverrides.AnchoredPattern | crates/stackable-operator/src/role_utils.rs:261-262 | A pattern loses exactly its leading carets and trailing dollars and gets one of each. |
| JvmOverrides.TryMergeResult | crates/stackable-operator/src/role_utils.rs:270-281 | Of the default arguments exactly those neither listed nor matched by a pattern survive, in their order and number, followed by the additions; no removals are left. |
| JvmOverrides.EagerCell.TryMergeInPlace | crates/stackable-operator/src/role_utils.rs:256-284 | Replaces all fields, or none if a pattern is invalid. |
| JvmOverrides.EagerAgreesWithDelayed | crates/stackable-operator/src/role_utils.rs:256-284 | For any number of layers the eager merge fails exactly if parsing fails, else leaves no removals and the arguments of the delayed merge. |
| JvmOverrides.BothVersionsAgree | crates/stackable-operator/src/role_utils.rs:357-382 | Operator, role and role group: both versions give the same arguments in the same order. |
| Memory.ScalingKeepsAmount | crates/stackable-operator/src/memory.rs:318-328 | Changing the unit keeps the amount. |
| Memory.OrderIsByAmount | crates/stackable-operator/src/memory.rs:467-481 | Order and equality are those of the amounts, whatever the units. |
| Memory.ScaleDownUnit | crates/stackable-operator/src/memory.rs:217-226 | Fails exactly for KiB, else scales to the unit just below. |
| Memory.NoZeroFromOneKib | crates/stackable-operator/src/memory.rs:247-253 | The unit descent succeeds exactly from 1 KiB on, keeps the amount and reaches a value of at least 1. |
| Memory.NoZeroInLargestUnit | crates/stackable-operator/src/memory.rs:247-253 | The unit descent stops at the largest unit in which the value is at least 1. |
| Memory.IntegerInLargestUnit | crates/stackable-operator/src/memory.rs:259-270 | Rounds down in the largest unit whose fraction is tolerated; fails exactly if there is none. |
| Memory.IntegerLosesLessThanTolerated | crates/stackable-operator/src/memory.rs:255-270 | For non-negative quantities and at least 1 KiB of tolerance: never fails and loses less than tolerated. |
| Memory.JavaHeapIsCloseFromBelow | crates/stackable-operator/src/memory.rs:272-283 | Fails exactly below 1 KiB; else a natural number of at least 1 in k, m or g, at most the input and more than the input minus 20 MiB. |
| Memory.JavaHeapUnitIsLargest | crates/stackable-operator/src/memory.rs:272-283 | The printed unit is the largest of k, m and g, from that of the input down, in which the number is at least 1 and less than 20 MiB are lost; the number is the whole part. |
| Memory.AddAndSubAmounts | crates/stackable-operator/src/memory.rs:419-446 | Addition and subtraction act on amounts and undo each other. |
| Memory.QuantityCell.AddAssign | crates/stackable-operator/src/memory.rs:460-465 | Adds the amount in place and keeps the unit. |
| Memory.QuantityCell.SubAssign | crates/stackable-operator/src/memory.rs:430-435 | Subtracts the amount in place and keeps the unit. |
| Memory.SumDenotesTotal | crates/stackable-operator/src/memory.rs:448-458 | A sum denotes the total of its parts, in any order and mix of units. |
| Memory.LogVolumeLimitIsLeast | crates/stackable-operator/src/product_logging/framework.rs:108-121 | The limit is the least whole number of MiB that is at least three times the total. |
| EventMessage.FindStartOfChar | crates/stackable-operator/src/logging/k8s_events.rs:78-85 | The backward search stops at the end of the longest fitting prefix, after at most three steps. |
| EventMessage.Message.TruncateWithEllipsis | crates/stackable-operator/src/logging/k8s_events.rs:65-76 | In place: valid UTF-8 of at most the limit; the message itself, or a whole-character prefix with an ellipsis if that fits. |
| EventMessage.TruncatedEndsWithEllipsis | crates/stackable-operator/src/logging/k8s_events.rs:65-76 | A message within the limit is kept; a longer one is a prefix and U+2026, or empty if that does not fit. |
| EventMessage.TruncatedKeepsAsMuchAsFits | crates/stackable-operator/src/logging/k8s_events.rs:65-76 | No longer prefix would fit beside the ellipsis. |
| Utf8.BoundariesAreBetweenCharacters | crates/stackable-operator/src/logging/k8s_events.rs:78-85 | Char boundaries of encoded strings are exactly the positions between characters, at most three bytes apart from any position. |
| Utf8.EncodedCodePoint | crates/stackable-operator/src/logging/k8s_events.rs:65-76 | The encoding of a character can be read back, with the number of bytes and the first byte of its range in section 3 of RFC 3629. |
| Utf8.LongestPrefixIsLongest | crates/stackable-operator/src/utils/length_enforcement.rs:61-64 | The truncation point is the last one that fits. |
| ResourceNames.EnsureMaxStringLength | crates/stackable-operator/src/utils/length_enforcement.rs:15-55 | Step by step truncation equals its specification and never exceeds the limit. |
| ResourceNames.ShortenedFits | crates/stackable-operator/src/utils/length_enforcement.rs:15-55 | The result has at most the allowed bytes, for every UTF-8 input. |
| ResourceNames.ShortenedWithoutHash | crates/stackable-operator/src/utils/length_enforcement.rs:27-33 | A name that fits is not changed; without a hash the longest prefix that fits is left. |
| ResourceNames.ShortenedShape | crates/stackable-operator/src/utils/length_enforcement.rs:37-54 | A shortened name is the hash alone or a prefix of the original, a dash that is reused exactly if it was followed by no other dash, and the hash. |
| ResourceNames.ShortenedKeepsFormat | crates/stackable-operator/src/v2/role_group_utils.rs:76-90 | Shortening to 52 bytes keeps the dashed format and the first 45 characters. |
| ResourceNames.QualifiedNameIsValid | crates/stackable-operator/src/v2/role_group_utils.rs:54-91 | For all valid names: an RFC 1035 label of at most 52 bytes that starts with the whole cluster name and a part of the role name. |
| ResourceNames.QualifiedNameText | crates/stackable-operator/src/v2/role_group_utils.rs:76-90 | The qualified name is cluster, role and role group joined by dashes if that has at most 52 characters, else its first 45 characters, the separator rule and six digits of the hash. |
| ResourceNames.RoleGroupsHaveOwnNames | crates/stackable-operator/src/v2/role_group_utils.rs:76-79 | Two role groups of one role have different qualified names if these fit. |
| ResourceNames.DerivedNamesAreValid | crates/stackable-operator/src/v2/role_group_utils.rs:93-186 | Every derived resource name, with or without suffix, satisfies the format of its kind. |
| DnsNames.LabelFormats | crates/stackable-operator/src/validation.rs:18-50 | The label regular expressions accept exactly dashed lower-case names with the required first character. |
| DnsNames.LabelValueFormat | crates/stackable-operator/src/kvp/label/value.rs:12-15 | The label value regular expression in terms of characters: alphanumeric ends, and dashes, underscores and dots in between. |
| DnsNames.SubdomainLabels | crates/stackable-operator/src/validation.rs:28-33 | The subdomain regular expression accepts exactly the texts whose labels between dots are all dashed. |
| DnsNames.LabelsAreSubdomainsAndLabelValues | crates/stackable-operator/src/validation.rs:18-50 | 1035 labels are 1123 labels, which are subdomains and label values. |
| K8sVersion.CapturesMatchRegex | crates/k8s-version/src/version/mod.rs:14-17 | Greedy matching with backtracking finds captures exactly for the words of the version regex; only other texts are of invalid format. |
| K8sVersion.BacktrackFindsLongest | crates/k8s-version/src/version/mod.rs:14-17 | Backtracking yields the longest digit prefix whose rest is a level or empty. |
| K8sVersion.LevelCapturesMatchRegex | crates/k8s-version/src/level/mod.rs:19-21 | The level parser rejects the format exactly for texts outside the level regex. |
| K8sVersion.LevelErrors | crates/k8s-version/src/level/mod.rs:50-74 | Letters and digits that are no level: a number out of range is reported before an unknown identifier. |
| K8sVersion.ParseAcceptsExactlyTheGrammar | crates/k8s-version/src/version/mod.rs:57-80 | Accepted texts and values are exactly those of `v` digits with an optional alpha or beta level, within u64 and 62 characters of level. |
| K8sVersion.VersionErrors | crates/k8s-version/src/version/mod.rs:57-80 | A major number out of range is reported before an invalid level, and an invalid level with its own error. |
| K8sVersion.VersionRoundTrip | crates/k8s-version/src/version/mod.rs:105-112 | Parsing a printed version gives it back. |
| K8sVersion.ParseApiVersionExactly | crates/k8s-version/src/api_version/mod.rs:46-59 | Accepted are exactly versions without a slash, and an accepted group, a slash and a version, with these values. |
| K8sVersion.ApiVersionRoundTrip | crates/k8s-version/src/api_version/mod.rs:46-79 | Parsing a printed API version with a valid group, or none, gives it back. |
| ApiGroup.GroupFormat | crates/k8s-version/src/group.rs:8-11 | The group regex in terms of labels: every label can be cut into pieces of 2 to 63 characters, and one dot may follow. |
| ApiGroup.AcceptedGroupIsSubdomain | crates/k8s-version/src/group.rs:26-51 | An accepted group is a DNS subdomain exactly if it does not end with a dot. |
| ApiGroup.SubdomainIsAccepted | crates/k8s-version/src/group.rs:26-51 | A DNS subdomain is accepted exactly if all its labels can be cut; with labels of at most 63 characters, exactly if none is a single character. |
| ApiGroup.FinalDotIsAccepted | crates/k8s-version/src/group.rs:8-11 | A dot after any accepted group without one is accepted and gives no subdomain, within the length limit. |
| ApiGroup.SingleCharacterIsRejected | crates/k8s-version/src/group.rs:8-11 | Every single lower-case character or digit is a subdomain and no group. |
| ApiGroup.GroupsAreNotSubdomains | crates/k8s-version/src/group.rs:26-37 | `ab.` is an accepted group and no subdomain; `x` is a subdomain and no accepted group. |
| ApiGroup.GroupHasNoSlash | crates/k8s-version/src/group.rs:8-11 | Groups never contain the separator of API versions. |
| Decimal.U64RoundTrip | crates/k8s-version/src/level/mod.rs:148-155 | A printed u64 has at most 20 digits and parses to itself. |
| KeyValuePairs.GreatestValueWins | crates/stackable-operator/src/kvp/mod.rs:222-229 | Inserting a sorted set of pairs leaves each key with the greatest of its values. |
| Lexicographic.LessAtFirstDifference | crates/stackable-operator/src/kvp/mod.rs:222-229 | Texts are ordered by their first difference, a prefix before its extensions. |
| KeyValuePairs.ConstructionKeepsGreatest | crates/stackable-operator/src/kvp/mod.rs:231-247 | Construction succeeds exactly if every key and every value parses, else reports the first invalid pair, its key before its value; each parsed key maps to the greatest value given for it. |
| KeyValuePairs.ConstructionIgnoresOrder | crates/stackable-operator/src/kvp/mod.rs:231-247 | Inputs with the same pairs in any order and number give the same map or both fail. |

## Left out

- Network calls, watches, webhooks, TLS, telemetry, command line parsing, certificates and secrets handling: input/output and foreign code.
- The conversions generated by the versioned macro: the code generator decides them, not a library function.
- `ClusterResources::new` and `get_required_labels`: they only copy fields; the warnings about pod resources in `add` have no effect on the run.
- The build without the `crds` feature, in which Listeners are no cluster resources: the model has all eleven kinds.
- Concurrent writers to the API server other than the run itself.
- Pod template overrides as fragments: validation passes them through unchanged.
- Unordered maps in validation: for hash maps the reported leaf is some missing one; the model covers ordered maps, with any order of keys.
- Keys of maps are identified with their printed text: two keys of one map that print alike are not distinguished.
- Requests that are under way when the join stops at an error: in the methods a request and its answer are one step; the transition system covers lost answers and effects after the error.
- Rounding, overflow and printing of 32-bit floats: quantities are reals, and the Java heap size is a number and a unit instead of text. Parsing of quantities and the deprecated heap helpers.
- The comparison operators of versions and the arithmetic on levels, of which the assigning forms discard their result.
- `insert`, `try_insert` and `extend` of key-value pairs, and the parsers of keys and values, which are arbitrary functions here.
- The error kinds inside validation of names, domains and Kerberos realms; only acceptance is modelled.
- Product-specific configuration files, shell snippets, builders, RBAC objects and CRD schemas: text formatting and field copying.
