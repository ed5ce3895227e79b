/**
 * Whole cycles on concrete manifests: the install of a joined-cluster Namespace and a
 * ServiceAccount ClusterRoleBinding, a binding whose subject list is empty, and the case rules
 * of the two kind comparisons.
 */
module Scenarios {
  import opened Errors
  import opened Unstructured
  import opened OnpremTypes
  import opened Manifest
  import opened HubClusterController
  import opened ReconcileProperties
  import T = Transformers

  /** The step succeeded and kept the kind, name, labels and subjects of `u`. */
  predicate KeepsRewriteInputs(u: Resource, step: T.Step)
  {
    step.Ok? && step.res.kind == u.kind && step.res.name == u.name &&
    step.res.labels == u.labels && step.res.subjects == u.subjects
  }

  /** Both of the library's transformers keep what the controller's rewrites read. */
  ghost predicate LibraryKeepsRewriteInputs(lib: Library)
  {
    (forall owner, u :: KeepsRewriteInputs(u, lib.injectOwner(owner, u))) &&
    (forall ns, u :: KeepsRewriteInputs(u, lib.injectNamespace(ns, u)))
  }

  /** Through such a library, the pipeline runs the two rewrites on what it was given. */
  lemma PipelineOverKeepingLibrary(lib: Library, instance: HubCluster, u: Resource)
    requires LibraryKeepsRewriteInputs(lib)
    ensures var step := RunPipeline(lib, InstallPipeline(instance), u);
            var ns, name := instance.namespace, instance.name;
            (step.Panic? <==> T.PanicsOnSubjects(u)) &&
            (step.Ok? ==> step.res.kind == u.kind && step.res.labels == u.labels &&
                          (T.IsJoinedClusterNamespace(u) ==> T.IsJoinedClusterNamespace(step.res)) &&
                          (T.RewritesSubject(u) ==> T.RewritesSubject(step.res)))
  {
    var ns, name := instance.namespace, instance.name;
    InstallPipelineUnfolds(lib, instance, u);
    var b := lib.injectNamespace(ns, lib.injectOwner(instance, u).res).res;
    assert T.PanicsOnSubjects(b) == T.PanicsOnSubjects(u);
    match T.ResourceNamespaceUpdate(ns, name, b)
    case Ok(x) =>
      if T.RewritesSubject(u) {
        var before := T.SubjectList(b).value;
        assert "kind" in before[0].fields - {"namespace"};
        assert T.RewritesSubject(x);
      }
    case Panic =>
    case Err(_) =>
  }

  /** The instance team-a/hub1, before its first install. */
  const TeamHub := HubCluster("team-a", "hub1", HubClusterStatus(""))

  /** A Namespace template labelled resource=joinedcluster. */
  const JoinedNamespace := Resource("Namespace", "joined-cluster", map["resource" := "joinedcluster"], None, map[])

  /** A ClusterRoleBinding template granting a role to service account sa1, with no namespace. */
  const AdminBinding := Resource("ClusterRoleBinding", "hub-admin", map[],
                                 Some(List([Obj(map["kind" := Str("ServiceAccount"), "name" := Str("sa1")])])), map[])

  /** The first subject of a resource's subject list sits in namespace `ns`. */
  predicate FirstSubjectIn(u: Resource, ns: string)
  {
    T.SubjectList(u).Some? && |T.SubjectList(u).value| > 0 && T.SubjectList(u).value[0].Obj? &&
    "namespace" in T.SubjectList(u).value[0].fields &&
    T.SubjectList(u).value[0].fields["namespace"] == Str(ns)
  }

  /** The Namespace template comes out of the team-a/hub1 pipeline named onprem-hub-system. */
  lemma JoinedNamespaceEmitted(lib: Library)
    requires LibraryKeepsRewriteInputs(lib)
    ensures var step := RunPipeline(lib, InstallPipeline(TeamHub), JoinedNamespace);
            step.Ok? && step.res.name == "onprem-hub-system"
  {
    assert T.IsJoinedClusterNamespace(JoinedNamespace);
    assert !T.PanicsOnSubjects(JoinedNamespace);
    PipelineOverKeepingLibrary(lib, TeamHub, JoinedNamespace);
    PipelineEmitsRewrittenResources(lib, TeamHub, JoinedNamespace);
  }

  /** The binding template comes out of the team-a/hub1 pipeline with its subject in team-a. */
  lemma AdminBindingEmitted(lib: Library)
    requires LibraryKeepsRewriteInputs(lib)
    ensures var step := RunPipeline(lib, InstallPipeline(TeamHub), AdminBinding);
            step.Ok? && FirstSubjectIn(step.res, "team-a")
  {
    assert T.RewritesSubject(AdminBinding);
    PipelineOverKeepingLibrary(lib, TeamHub, AdminBinding);
    PipelineEmitsRewrittenResources(lib, TeamHub, AdminBinding);
  }

  /** Transforming the two templates for team-a/hub1 renames the Namespace and places the subject in team-a. */
  lemma JoinedClusterTransform(lib: Library)
    requires LibraryKeepsRewriteInputs(lib)
    ensures var t := TransformAll(lib, InstallPipeline(TeamHub), [JoinedNamespace, AdminBinding]);
            t.Transformed? && |t.resources| == 2 &&
            t.resources[0].name == "onprem-hub-system" && FirstSubjectIn(t.resources[1], "team-a")
  {
    JoinedNamespaceEmitted(lib);
    AdminBindingEmitted(lib);
    var resources := [JoinedNamespace, AdminBinding];
    assert forall i :: 0 <= i < 2 ==> resources[i] == JoinedNamespace || resources[i] == AdminBinding;
  }

  /**
   * One cycle for team-a/hub1 over the two templates, everything succeeding: the applied
   * Namespace is onprem-hub-system, the binding's subject is in team-a, and the one status
   * update records the controller's version.
   */
  lemma JoinedClusterInstall(lib: Library, version: string)
    requires LibraryKeepsRewriteInputs(lib)
    ensures var run := ReconcileSpec(lib, version, [JoinedNamespace, AdminBinding], NamespacedName("team-a", "hub1"),
                                     Replies(Found(TeamHub), None, None, None));
            run.exit == Returned(EmptyResult, None) &&
            Applies(run.trace) == [run.resources] && |run.resources| == 2 &&
            run.resources[0].name == "onprem-hub-system" && FirstSubjectIn(run.resources[1], "team-a") &&
            StatusUpdates(run.trace) == [HubCluster("team-a", "hub1", HubClusterStatus(version))]
  {
    var resources := [JoinedNamespace, AdminBinding];
    var request := NamespacedName("team-a", "hub1");
    var replies := Replies(Found(TeamHub), None, None, None);
    JoinedClusterTransform(lib);
    FoundRunsInstall(lib, version, resources, request, replies);
    AppliedInstallRecordsVersion(lib, version, resources, TeamHub, replies);
    var install := InstallSpec(lib, version, resources, TeamHub, replies);
    FiltersCons(GetCall(request), install.trace);
  }

  /**
   * A RoleBinding whose subject list is empty makes resourceNamespaceUpdate index past the end:
   * the cycle crashes inside Transform, before anything is applied or updated.
   */
  lemma EmptySubjectsCrashCycle(lib: Library, version: string, instance: HubCluster)
    requires LibraryKeepsRewriteInputs(lib)
    ensures var binding := Resource("RoleBinding", "reader", map[], Some(List([])), map[]);
            var run := ReconcileSpec(lib, version, [binding], NamespacedName(instance.namespace, instance.name),
                                     Replies(Found(instance), None, None, None));
            run.exit == Panicked && Applies(run.trace) == [] && StatusUpdates(run.trace) == [] &&
            run.resources == [binding]
  {
    var binding := Resource("RoleBinding", "reader", map[], Some(List([])), map[]);
    assert T.PanicsOnSubjects(binding);
    PipelineOverKeepingLibrary(lib, instance, binding);
    var request := NamespacedName(instance.namespace, instance.name);
    var replies := Replies(Found(instance), None, None, None);
    var install := InstallSpec(lib, version, [binding], instance, replies);
    assert install.trace == [TransformCall(InstallPipeline(instance))];
    FiltersCons(TransformCall(InstallPipeline(instance)), []);
    FiltersCons(GetCall(request), install.trace);
  }

  /** The binding kind is matched in any case, and the subject kind only as "ServiceAccount" exactly. */
  lemma KindCaseRules(ns: string, name: string)
    ensures T.IsBindingKind("ROLEBINDING") && T.IsBindingKind("ClusterRoleBinding") &&
            !T.IsBindingKind("RoleBindings")
    ensures var lower := Resource("RoleBinding", "reader", map[],
                                  Some(List([Obj(map["kind" := Str("serviceaccount")])])), map[]);
            T.ResourceNamespaceUpdate(ns, name, lower) == T.Ok(lower)
  {
  }

  /** An owner reference kept under its own key of `other`, naming the owner's namespace and name. */
  function SetOwnerRef(ns: string, name: string, kind: string, other: map<string, Value>): map<string, Value>
  {
    other["ownerReferences" := Str(ns + "/" + name)]
  }

  /** Lower-cased kinds that have no namespace. */
  const ClusterScopedKinds: set<string> := {"namespace", "clusterrole", "clusterrolebinding"}

  /** The target namespace kept under its own key of `other`, for namespaced kinds only. */
  function SetNamespace(ns: string, kind: string, other: map<string, Value>): map<string, Value>
  {
    if Lower(kind) in ClusterScopedKinds then other else other["namespace" := Str(ns)]
  }

  /** A library that sets the owner reference and, on namespaced kinds, the namespace, and nothing else. */
  const KeyedLibrary := Library(
    (owner: HubCluster, u: Resource) => T.Ok(u.(other := SetOwnerRef(owner.namespace, owner.name, u.kind, u.other))),
    (ns: string, u: Resource) => T.Ok(u.(other := SetNamespace(ns, u.kind, u.other))))

  /** Keyed, kind-aware injection meets the hypotheses of the idempotence lemmas, so they are not vacuous. */
  lemma KeyedInjectionsSettle()
    ensures InjectsIntoOther(KeyedLibrary, SetOwnerRef, SetNamespace)
    ensures InjectionsSettle(SetOwnerRef, SetNamespace)
  {
    forall ons, name, ns, k, m
      ensures SetOwnerRef(ons, name, k, SetNamespace(ns, k, m)) == SetNamespace(ns, k, SetOwnerRef(ons, name, k, m))
    {
      assert "ownerReferences" != "namespace";
    }
  }

  /**
   * Over that library, a cycle for team-a/hub1 whose transform succeeds is followed by one that
   * applies the very same manifest.
   */
  lemma KeyedLibraryConverges(version: string, resources: seq<Resource>, replies: Replies, next: Replies)
    requires replies.get == Found(TeamHub) && next.get.Found?
    requires next.get.instance.namespace == "team-a" && next.get.instance.name == "hub1"
    requires TransformAll(KeyedLibrary, InstallPipeline(TeamHub), resources).Transformed?
    ensures var request := NamespacedName("team-a", "hub1");
            var run := ReconcileSpec(KeyedLibrary, version, resources, request, replies);
            var again := ReconcileSpec(KeyedLibrary, version, run.resources, request, next);
            Applies(again.trace) == [run.resources] && again.resources == run.resources
  {
    KeyedInjectionsSettle();
    NextCycleAppliesSameManifest(KeyedLibrary, SetOwnerRef, SetNamespace, version, resources,
                                 NamespacedName("team-a", "hub1"), replies, next);
  }
}
