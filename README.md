# HubCluster reconciler

A Dafny model of the HubCluster controller of the on-premise hub operator
(`pkg/controller/hubcluster/hubcluster_controller.go`). The controller holds a manifest of
resource templates. For each reconcile request it fetches the HubCluster instance. If the
instance is gone, it deletes the manifest's resources. Otherwise it runs its one stage, `install`:
transform every template through a four-step pipeline, apply the result, and record the
controller's version in the instance's status.

The model is in eight modules:

- `Errors` (errors.dfy): the Go `error` value, and API errors with their NotFound reason.
- `Unstructured` (unstructured.dfy): the schema-less resource object as the transformers see it.
  It has kind, name, labels, the `subjects` field as a JSON value, and every other field. It also
  models `strings.ToLower`.
- `OnpremTypes` (onprem_types.dfy): the HubCluster instance (namespace, name, `status.version`)
  and the request key.
- `Transformers` (transformers.dfy): the controller's own transformers, `resourceNamespaceUpdate`
  and `overWriteNamespace`. Each is a total function from a resource to a `Step`. A `Step` is
  the resource, an error, or a Go panic.
- `Manifest` (manifest.dfy): the pipeline as the controller builds it. The library transformers
  `InjectOwner` and `InjectNamespace` are uninterpreted: they are function values in a `Library`.
  `Transform` runs every resource through the pipeline.
- `HubClusterController` (controller.dfy): the reconciler class. `Install` and `Reconcile` are
  methods that replace the held manifest and record every call they make, in order, in a ghost
  trace. Each is proved equal to a specification function (`InstallSpec`, `ReconcileSpec`).
  The cluster's answers for one cycle are a `Replies` value: the fetch result and the errors of
  DeleteAll, ApplyAll and the status update. A proof about all `Replies` therefore covers every
  way the cluster can behave.
- `ReconcileProperties` (properties.dfy) and `Scenarios` (scenarios.dfy): lemmas about those
  functions, and whole cycles on concrete manifests.

Behaviour kept as the code has it, including where it departs from what one might expect of a
best-effort reconciler:

- The error `Transform` returns is discarded (line 163). A failing transform therefore does not
  abort the cycle: `ApplyAll` runs on the manifest as it was held before.
- `resourceNamespaceUpdate` indexes `subjects[0]` and asserts it is a map without checking
  (line 120). An empty subject list, or a first subject that is not an object, panics in Go; the
  model's outcome is `Panic`, and the whole cycle's outcome is `Panicked`. These cases are not
  no-ops.
- The subject kind comparison with `"ServiceAccount"` is exact. The resource kind comparisons are
  made on the lower-cased kind.
- There is no reparse step. After a successful transform the held manifest is the transformed
  one, and the next cycle transforms it again. `HeldManifestIsRewritten` shows that the
  controller's own two rewrites leave such a manifest as it is.
- The error `DeleteAll` returns is discarded (line 92).

The scenario lemmas in `Scenarios` (`JoinedNamespaceEmitted`, `AdminBindingEmitted`,
`JoinedClusterTransform`, `JoinedClusterInstall`, `EmptySubjectsCrashCycle`) hold for any library
whose `InjectOwner` and `InjectNamespace` succeed and keep the kind, name, labels and subjects of
the resource (`LibraryKeepsRewriteInputs`). The idempotence lemmas (`PipelineIdempotent`,
`TransformIdempotent`, `NextCycleAppliesSameManifest`) hold for any library whose two injectors
succeed and change only the rest of the object (`InjectsIntoOther`), where the change may depend on
the target namespace, the owner's namespace and name, the kind and the rest of the object, but
never on the name, labels or subjects; and where injecting twice is injecting once and the two
injections commute (`InjectionsSettle`).

## Model

| member | source | states |
|---|---|---|
| `Unstructured.LowerEqualsIff` | pkg/controller/hubcluster/hubcluster_controller.go:117-118 | a lower-cased kind equals a lower-case word exactly when the kind spells that word in any mixture of cases |
| `Transformers.ResourceNamespaceUpdate` | pkg/controller/hubcluster/hubcluster_controller.go:114-140 | never returns an error; panics exactly for a binding kind whose subject list is empty or whose first subject is not an object; changes nothing but `subjects`; for a (Cluster)RoleBinding whose first subject's kind is exactly "ServiceAccount", sets that subject's namespace to `ns` and leaves every other subject and every other entry of that subject as it was; leaves the resource unchanged in all other cases |
| `Transformers.OverWriteNamespace` | pkg/controller/hubcluster/hubcluster_controller.go:142-154 | never returns an error; changes nothing but the name; a Namespace (any case) labelled resource=joinedcluster is named onprem-hub-system, whatever its name was; any other resource is unchanged |
| `Transformers.ResourceNamespaceUpdateIdempotent` | pkg/controller/hubcluster/hubcluster_controller.go:119-126 | applying resourceNamespaceUpdate to its own output gives that output back |
| `Transformers.OverWriteNamespaceIdempotent` | pkg/controller/hubcluster/hubcluster_controller.go:145-151 | applying overWriteNamespace to its own output gives that output back |
| `Transformers.RewritesCommute` | pkg/controller/hubcluster/hubcluster_controller.go:114-154 | the two rewrites give the same result, panic included, in either order |
| `Manifest.RunPipelineAppend` | pkg/controller/hubcluster/hubcluster_controller.go:159-163 | a pipeline is the composition of its parts, left to right; an error or panic stops it |
| `Manifest.TransformAll` | pkg/controller/hubcluster/hubcluster_controller.go:163 | the manifest is transformed exactly when every resource passes the pipeline, and then resource i becomes the pipeline's output for resource i; otherwise the first resource that fails gives the error or the panic |
| `HubClusterController.ReconcileHubCluster.constructor` | pkg/controller/hubcluster/hubcluster_controller.go:45-47 | the reconciler holds the given manifest and has made no call yet |
| `HubClusterController.ReconcileHubCluster.Install` | pkg/controller/hubcluster/hubcluster_controller.go:157-178 | the calls made, the manifest held afterwards, the returned error and the instance afterwards are those of `InstallSpec`: Transform with the pipeline, ApplyAll on the transformed manifest (the untransformed one if Transform failed), then, only if ApplyAll succeeded, the version set and one status update |
| `HubClusterController.ReconcileHubCluster.Reconcile` | pkg/controller/hubcluster/hubcluster_controller.go:83-111 | the calls made, the manifest held afterwards and the outcome are those of `ReconcileSpec`: fetch; not found ⇒ DeleteAll and success; other error ⇒ that error; found ⇒ the stages in order, stopping at the first error |
| `ReconcileProperties.NotFoundTearsDown` | pkg/controller/hubcluster/hubcluster_controller.go:89-94 | an instance that is not found leads to exactly one DeleteAll of the held manifest, no Transform, no ApplyAll, no status update, an empty result with no error, and an unchanged manifest |
| `ReconcileProperties.FetchErrorReturned` | pkg/controller/hubcluster/hubcluster_controller.go:95-96 | any other fetch error is returned as it is, after the fetch and no other call |
| `ReconcileProperties.DeleteAllErrorIgnored` | pkg/controller/hubcluster/hubcluster_controller.go:92 | nothing about a cycle depends on the error DeleteAll reports |
| `ReconcileProperties.ReturnsEmptyResult` | pkg/controller/hubcluster/hubcluster_controller.go:93-110 | every return carries the empty reconcile.Result |
| `ReconcileProperties.FoundRunsInstall` | pkg/controller/hubcluster/hubcluster_controller.go:98-106 | with an instance, the cycle is the fetch followed by install, and install's error or panic is what the cycle ends with |
| `ReconcileProperties.InstallTransformsFirst` | pkg/controller/hubcluster/hubcluster_controller.go:159-163 | install's first call is Transform with InjectOwner, InjectNamespace(instance namespace), resourceNamespaceUpdate and overWriteNamespace, in that order |
| `ReconcileProperties.ApplyFailureSkipsStatus` | pkg/controller/hubcluster/hubcluster_controller.go:166-168 | a failed ApplyAll is returned, the version is not set and no status update is made |
| `ReconcileProperties.AppliedInstallRecordsVersion` | pkg/controller/hubcluster/hubcluster_controller.go:170-176 | after a successful ApplyAll the status version is the controller's version, exactly one status update persists it, after the one ApplyAll, and its error is returned |
| `ReconcileProperties.StatusOnlyAfterApply` | pkg/controller/hubcluster/hubcluster_controller.go:166-174 | a cycle updates the status only when it found the instance and ApplyAll succeeded, and then once, with the controller's version |
| `ReconcileProperties.TransformErrorDoesNotAbort` | pkg/controller/hubcluster/hubcluster_controller.go:163-166 | when Transform fails, install still applies the held manifest, untransformed, and keeps holding it |
| `ReconcileProperties.TransformedManifestIsApplied` | pkg/controller/hubcluster/hubcluster_controller.go:163-166 | when Transform succeeds, install applies the transformed manifest, holds it afterwards, and returns the status update's answer once ApplyAll succeeds |
| `ReconcileProperties.InstallPipelineUnfolds` | pkg/controller/hubcluster/hubcluster_controller.go:159-163 | the pipeline on one resource is InjectOwner, then InjectNamespace, then resourceNamespaceUpdate, then overWriteNamespace, each on the previous one's output |
| `ReconcileProperties.PipelineEmitsRewrittenResources` | pkg/controller/hubcluster/hubcluster_controller.go:159-163 | whatever the library transformers do, every resource the pipeline emits is left as it is by both rewrites: a labelled Namespace is named onprem-hub-system and a binding's ServiceAccount first subject is in the instance's namespace |
| `ReconcileProperties.HeldManifestIsRewritten` | pkg/controller/hubcluster/hubcluster_controller.go:163 | after a successful transform, both rewrites leave every resource of the held manifest unchanged |
| `ReconcileProperties.PipelineIdempotent` | pkg/controller/hubcluster/hubcluster_controller.go:159-163 | when InjectOwner and InjectNamespace succeed and change only the rest of the object, as a function of the namespace, the owner's name, the kind and the rest of the object alone (never the name, labels or subjects), idempotently and commuting with each other, running the whole install pipeline again on its output (for an instance of the same namespace and name) gives that output back |
| `ReconcileProperties.TransformIdempotent` | pkg/controller/hubcluster/hubcluster_controller.go:159-163 | under the same condition, transforming a successfully transformed manifest again gives the same manifest |
| `ReconcileProperties.NextCycleAppliesSameManifest` | pkg/controller/hubcluster/hubcluster_controller.go:98-106 | under the same condition, with no reparse, the cycle after a successful transform applies and holds exactly the manifest the earlier cycle applied |
| `Scenarios.KeyedInjectionsSettle` | pkg/controller/hubcluster/hubcluster_controller.go:159-160 | a library that sets the owner reference under its own key, and the namespace under its own key on namespaced kinds only, meets that condition |
| `Scenarios.KeyedLibraryConverges` | pkg/controller/hubcluster/hubcluster_controller.go:98-106 | over that library, the next cycle for team-a/hub1 applies the same manifest as the one before it |
| `Scenarios.PipelineOverKeepingLibrary` | pkg/controller/hubcluster/hubcluster_controller.go:159-162 | when the library transformers keep kind, name, labels and subjects, the pipeline panics exactly when resourceNamespaceUpdate would, and keeps kind and labels and the cases the rewrites apply to |
| `Scenarios.JoinedNamespaceEmitted` | pkg/controller/hubcluster/hubcluster_controller.go:145-151 | for a library whose injectors succeed and keep kind, name, labels and subjects, the joined-cluster Namespace template leaves the pipeline named onprem-hub-system |
| `Scenarios.AdminBindingEmitted` | pkg/controller/hubcluster/hubcluster_controller.go:117-126 | for such a library, the ClusterRoleBinding template leaves the pipeline with its ServiceAccount subject in team-a |
| `Scenarios.JoinedClusterTransform` | pkg/controller/hubcluster/hubcluster_controller.go:159-163 | for such a library, transforming both templates for team-a/hub1 succeeds and gives the renamed Namespace and the namespaced subject |
| `Scenarios.JoinedClusterInstall` | pkg/controller/hubcluster/hubcluster_controller.go:83-111 | for such a library, a cycle for team-a/hub1 where every call succeeds applies both transformed templates and records the controller's version with one status update |
| `Scenarios.EmptySubjectsCrashCycle` | pkg/controller/hubcluster/hubcluster_controller.go:119-120 | for such a library, a RoleBinding with an empty subject list makes the cycle panic before anything is applied or updated |
| `Scenarios.KindCaseRules` | pkg/controller/hubcluster/hubcluster_controller.go:117-120 | "ROLEBINDING" and "ClusterRoleBinding" are binding kinds and "RoleBindings" is not; a subject of kind "serviceaccount" is not rewritten |

## Left out

- Command-line flags and the package logger (lines 24-32): global configuration and logging. Every log call is dropped.
- Controller construction and the watch on HubCluster with the generation-changed predicate (lines 36-64): event dispatch and concurrency, not decision logic. No watch on owned Pods exists in this file.
- The manifest library (`NewManifest`, `Transform`, `InjectOwner`, `InjectNamespace`, `ApplyAll`, `DeleteAll`) is not part of this model. `InjectOwner` and `InjectNamespace` are arbitrary functions. `ApplyAll`, `DeleteAll` and the status update are calls with arbitrary error answers. `Transform` is modelled as its documented behaviour: each resource goes through the pipeline in order, and the manifest is replaced only if all succeed.
- The Kubernetes client (`Get`, `Status().Update`) is not part of this model beyond its answers. Which object `Get` returns for a key is taken as given.
- Convergence (re-applying an unchanged manifest changes nothing in the cluster) and the owner-reference invariant depend on `ApplyAll` and `InjectOwner`, whose code is not part of this model.
- `ReconcileProperties.PipelineIdempotent`: idempotence of the whole transform pipeline is proved only for libraries whose `InjectOwner` and `InjectNamespace` meet `InjectsIntoOther` and `InjectionsSettle`. For an arbitrary library, only the share of the two rewrites is proved (`PipelineEmitsRewrittenResources`, `HeldManifestIsRewritten`), because the real injectors' code is not part of this model.
- `ReconcileProperties.TransformIdempotent`: holds only under the same `InjectsIntoOther` and `InjectionsSettle` hypothesis on the library, for the same reason.
- `ReconcileProperties.NextCycleAppliesSameManifest`: holds only under the same `InjectsIntoOther` and `InjectionsSettle` hypothesis on the library, for the same reason.
- `Scenarios.JoinedNamespaceEmitted`, `Scenarios.AdminBindingEmitted`, `Scenarios.JoinedClusterTransform`, `Scenarios.JoinedClusterInstall` and `Scenarios.EmptySubjectsCrashCycle` hold only for libraries that meet `LibraryKeepsRewriteInputs`; a library that renames, relabels or fails a resource is outside them.
- A reparse of the manifest after apply: not present in this code.
- `Unstructured.Lower` folds the ASCII capitals and the two non-ASCII runes that lower-case to ASCII letters (U+0130, U+212A). Other runes are kept. Their real lower case is never an ASCII letter, so no comparison in the controller can tell the difference.
- Resource fields are abstracted to what the accessors return. A `kind` that is not a string reads as "", labels that are not all strings read as none, and the `metadata` object is assumed to be an object. The JSON values are assumed to be of the types the YAML decoder produces, so library deep copies cannot panic.
- The HubCluster spec has no fields and is not modelled.
