/**
 * What the reconciler promises, stated over the functions that specify Install and Reconcile:
 * which calls each branch makes and in which order, what is returned, what is left unchanged,
 * and what every resource the pipeline emits looks like.
 */
module ReconcileProperties {
  import opened Errors
  import opened Unstructured
  import opened OnpremTypes
  import opened Manifest
  import opened HubClusterController
  import T = Transformers

  /** The instances a trace persists through status updates, in order. */
  function StatusUpdates(trace: seq<Call>): seq<HubCluster>
  {
    if trace == [] then []
    else (if trace[0].UpdateStatusCall? then [trace[0].instance] else []) + StatusUpdates(trace[1..])
  }

  /** The manifests a trace applies, in order. */
  function Applies(trace: seq<Call>): seq<seq<Resource>>
  {
    if trace == [] then []
    else (if trace[0].ApplyAllCall? then [trace[0].resources] else []) + Applies(trace[1..])
  }

  /** The manifests a trace deletes, in order. */
  function Deletes(trace: seq<Call>): seq<seq<Resource>>
  {
    if trace == [] then []
    else (if trace[0].DeleteAllCall? then [trace[0].resources] else []) + Deletes(trace[1..])
  }

  /** The filters of a trace that starts with the call `c`. */
  lemma FiltersCons(c: Call, rest: seq<Call>)
    ensures StatusUpdates([c] + rest) == (if c.UpdateStatusCall? then [c.instance] else []) + StatusUpdates(rest)
    ensures Applies([c] + rest) == (if c.ApplyAllCall? then [c.resources] else []) + Applies(rest)
    ensures Deletes([c] + rest) == (if c.DeleteAllCall? then [c.resources] else []) + Deletes(rest)
  {
    assert ([c] + rest)[0] == c;
    assert ([c] + rest)[1..] == rest;
  }

  /** Instance gone: DeleteAll on the held manifest exactly once, nothing transformed, applied or updated, success. */
  lemma NotFoundTearsDown(lib: Library, version: string, resources: seq<Resource>,
                          request: NamespacedName, replies: Replies)
    requires replies.get.GetFailed? && IsNotFound(replies.get.err)
    ensures var run := ReconcileSpec(lib, version, resources, request, replies);
            run.exit == Returned(EmptyResult, None) &&
            Deletes(run.trace) == [resources] && Applies(run.trace) == [] && StatusUpdates(run.trace) == [] &&
            (forall c :: c in run.trace ==> !c.TransformCall?) &&
            run.resources == resources
  {
    FiltersCons(DeleteAllCall(resources), []);
    FiltersCons(GetCall(request), [DeleteAllCall(resources)]);
  }

  /** Any other fetch error is returned as it is, after the fetch and nothing else. */
  lemma FetchErrorReturned(lib: Library, version: string, resources: seq<Resource>,
                           request: NamespacedName, replies: Replies)
    requires replies.get.GetFailed? && !IsNotFound(replies.get.err)
    ensures var run := ReconcileSpec(lib, version, resources, request, replies);
            run.exit == Returned(EmptyResult, Some(replies.get.err)) &&
            run.trace == [GetCall(request)] && run.resources == resources
  {
  }

  /** The error DeleteAll reports is discarded: nothing about the cycle depends on it. */
  lemma DeleteAllErrorIgnored(lib: Library, version: string, resources: seq<Resource>,
                              request: NamespacedName, replies: Replies, deleteErr: Option<Error>)
    ensures ReconcileSpec(lib, version, resources, request, replies.(deleteAll := deleteErr)) ==
            ReconcileSpec(lib, version, resources, request, replies)
  {
  }

  /** Every way Reconcile returns carries the empty reconcile.Result. */
  lemma ReturnsEmptyResult(lib: Library, version: string, resources: seq<Resource>,
                           request: NamespacedName, replies: Replies)
    ensures var run := ReconcileSpec(lib, version, resources, request, replies);
            run.exit.Returned? ==> run.exit.result == EmptyResult
  {
  }

  /** With an instance, the cycle is the fetch followed by install, and install's error is returned unchanged. */
  lemma FoundRunsInstall(lib: Library, version: string, resources: seq<Resource>,
                         request: NamespacedName, replies: Replies)
    requires replies.get.Found?
    ensures var run := ReconcileSpec(lib, version, resources, request, replies);
            var install := InstallSpec(lib, version, resources, replies.get.instance, replies);
            run.trace == [GetCall(request)] + install.trace && run.resources == install.resources &&
            (run.exit.Panicked? <==> install.exit.Panic?) &&
            (install.exit.Normal? ==> run.exit == Returned(EmptyResult, install.exit.err))
  {
  }

  /** install transforms with InjectOwner, InjectNamespace, resourceNamespaceUpdate and overWriteNamespace, in that order, before anything else. */
  lemma InstallTransformsFirst(lib: Library, version: string, resources: seq<Resource>,
                               instance: HubCluster, replies: Replies)
    ensures var run := InstallSpec(lib, version, resources, instance, replies);
            |run.trace| >= 1 &&
            run.trace[0] == TransformCall([InjectOwner(instance), InjectNamespace(instance.namespace),
                                           ResourceNamespaceUpdate(instance.namespace, instance.name),
                                           OverWriteNamespace(instance.namespace, instance.name)])
  {
  }

  /** A failed ApplyAll is returned, and the status is neither set nor persisted. */
  lemma ApplyFailureSkipsStatus(lib: Library, version: string, resources: seq<Resource>,
                                instance: HubCluster, replies: Replies)
    requires !TransformAll(lib, InstallPipeline(instance), resources).TransformPanicked?
    requires replies.applyAll.Some?
    ensures var run := InstallSpec(lib, version, resources, instance, replies);
            run.exit == Normal(replies.applyAll) && run.instance == instance &&
            StatusUpdates(run.trace) == [] && |Applies(run.trace)| == 1
  {
    var run := InstallSpec(lib, version, resources, instance, replies);
    FiltersCons(run.trace[1], []);
    FiltersCons(run.trace[0], [run.trace[1]]);
    assert run.trace == [run.trace[0]] + [run.trace[1]];
  }

  /**
   * When ApplyAll succeeds, the status version becomes the controller's version and is
   * persisted by exactly one status update, after the one ApplyAll; the update's error is returned.
   */
  lemma AppliedInstallRecordsVersion(lib: Library, version: string, resources: seq<Resource>,
                                     instance: HubCluster, replies: Replies)
    requires !TransformAll(lib, InstallPipeline(instance), resources).TransformPanicked?
    requires replies.applyAll.None?
    ensures var run := InstallSpec(lib, version, resources, instance, replies);
            run.instance == instance.(status := HubClusterStatus(version)) &&
            StatusUpdates(run.trace) == [run.instance] && |Applies(run.trace)| == 1 &&
            run.trace[|run.trace| - 1].UpdateStatusCall? && run.trace[|run.trace| - 2].ApplyAllCall? &&
            run.exit == Normal(replies.statusUpdate)
  {
    var run := InstallSpec(lib, version, resources, instance, replies);
    FiltersCons(run.trace[2], []);
    FiltersCons(run.trace[1], [run.trace[2]]);
    FiltersCons(run.trace[0], [run.trace[1], run.trace[2]]);
    assert run.trace == [run.trace[0]] + [run.trace[1], run.trace[2]];
    assert [run.trace[1], run.trace[2]] == [run.trace[1]] + [run.trace[2]];
  }

  /** The status is persisted only in a cycle that found the instance and applied the manifest. */
  lemma StatusOnlyAfterApply(lib: Library, version: string, resources: seq<Resource>,
                             request: NamespacedName, replies: Replies)
    ensures var run := ReconcileSpec(lib, version, resources, request, replies);
            StatusUpdates(run.trace) != [] ==>
              replies.get.Found? && replies.applyAll.None? &&
              StatusUpdates(run.trace) == [replies.get.instance.(status := HubClusterStatus(version))]
  {
    var run := ReconcileSpec(lib, version, resources, request, replies);
    match replies.get
    case GetFailed(e) =>
      if IsNotFound(e) {
        NotFoundTearsDown(lib, version, resources, request, replies);
      } else {
        FiltersCons(GetCall(request), []);
        assert run.trace == [GetCall(request)] + [];
      }
    case Found(instance) =>
      var install := InstallSpec(lib, version, resources, instance, replies);
      FiltersCons(GetCall(request), install.trace);
      if TransformAll(lib, InstallPipeline(instance), resources).TransformPanicked? {
        FiltersCons(install.trace[0], []);
        assert install.trace == [install.trace[0]] + [];
      } else if replies.applyAll.Some? {
        ApplyFailureSkipsStatus(lib, version, resources, instance, replies);
      } else {
        AppliedInstallRecordsVersion(lib, version, resources, instance, replies);
      }
  }

  /**
   * The error Transform returns is discarded: install goes on to apply the manifest it held,
   * untransformed, and keeps holding it.
   */
  lemma TransformErrorDoesNotAbort(lib: Library, version: string, resources: seq<Resource>,
                                   instance: HubCluster, replies: Replies)
    requires TransformAll(lib, InstallPipeline(instance), resources).TransformFailed?
    ensures var run := InstallSpec(lib, version, resources, instance, replies);
            Applies(run.trace) == [resources] && run.resources == resources &&
            (replies.applyAll.None? ==> run.exit == Normal(replies.statusUpdate))
  {
    if replies.applyAll.Some? {
      ApplyFailureSkipsStatus(lib, version, resources, instance, replies);
    } else {
      AppliedInstallRecordsVersion(lib, version, resources, instance, replies);
    }
  }

  /**
   * A successful Transform replaces the manifest: install applies the transformed resources and
   * holds them afterwards, whatever ApplyAll and the status update answer.
   */
  lemma TransformedManifestIsApplied(lib: Library, version: string, resources: seq<Resource>,
                                     instance: HubCluster, replies: Replies)
    requires TransformAll(lib, InstallPipeline(instance), resources).Transformed?
    ensures var t := TransformAll(lib, InstallPipeline(instance), resources);
            var run := InstallSpec(lib, version, resources, instance, replies);
            Applies(run.trace) == [t.resources] && run.resources == t.resources &&
            (replies.applyAll.None? ==> run.exit == Normal(replies.statusUpdate))
  {
    if replies.applyAll.Some? {
      ApplyFailureSkipsStatus(lib, version, resources, instance, replies);
    } else {
      AppliedInstallRecordsVersion(lib, version, resources, instance, replies);
    }
  }

  /** The install pipeline on one resource, stage by stage. */
  lemma InstallPipelineUnfolds(lib: Library, instance: HubCluster, u: Resource)
    ensures var ns, name := instance.namespace, instance.name;
            RunPipeline(lib, InstallPipeline(instance), u) ==
            match lib.injectOwner(instance, u)
            case Ok(a) =>
              (match lib.injectNamespace(ns, a)
               case Ok(b) =>
                 (match T.ResourceNamespaceUpdate(ns, name, b)
                  case Ok(x) => T.OverWriteNamespace(ns, name, x)
                  case stopped => stopped)
               case stopped => stopped)
            case stopped => stopped
  {
    var ns, name := instance.namespace, instance.name;
    var fns := InstallPipeline(instance);
    assert fns[1..][1..][1..][1..] == [];
    if lib.injectOwner(instance, u).Ok? {
      var a := lib.injectOwner(instance, u).res;
      assert RunPipeline(lib, fns, u) == RunPipeline(lib, fns[1..], a);
      if lib.injectNamespace(ns, a).Ok? {
        var b := lib.injectNamespace(ns, a).res;
        assert RunPipeline(lib, fns[1..], a) == RunPipeline(lib, fns[1..][1..], b);
        if T.ResourceNamespaceUpdate(ns, name, b).Ok? {
          var x := T.ResourceNamespaceUpdate(ns, name, b).res;
          assert RunPipeline(lib, fns[1..][1..], b) == RunPipeline(lib, fns[1..][1..][1..], x);
          assert RunPipeline(lib, fns[1..][1..][1..], x) == T.OverWriteNamespace(ns, name, x);
        }
      }
    }
  }

  /**
   * Whatever the library's transformers do, every resource the install pipeline emits is
   * already rewritten: resourceNamespaceUpdate and overWriteNamespace leave it as it is, so a
   * labelled Namespace is named onprem-hub-system and a ServiceAccount first subject of a
   * binding sits in the instance's namespace.
   */
  lemma {:induction false} PipelineEmitsRewrittenResources(lib: Library, instance: HubCluster, u: Resource)
    ensures var step := RunPipeline(lib, InstallPipeline(instance), u);
            var ns, name := instance.namespace, instance.name;
            step.Ok? ==>
              T.ResourceNamespaceUpdate(ns, name, step.res) == step &&
              T.OverWriteNamespace(ns, name, step.res) == step &&
              (T.IsJoinedClusterNamespace(step.res) ==> step.res.name == T.HubSystemNamespace) &&
              (T.RewritesSubject(step.res) ==>
                 T.SubjectList(step.res).value[0].fields["namespace"] == Str(ns))
  {
    var ns, name := instance.namespace, instance.name;
    InstallPipelineUnfolds(lib, instance, u);
    var a := lib.injectOwner(instance, u);
    if a.Ok? && lib.injectNamespace(ns, a.res).Ok? {
      var w := lib.injectNamespace(ns, a.res).res;
      match T.ResourceNamespaceUpdate(ns, name, w)
      case Ok(x) =>
        var v := T.OverWriteNamespace(ns, name, x).res;
        T.ResourceNamespaceUpdateIdempotent(ns, name, w);
        T.RewritesCommute(ns, name, x);
        T.OverWriteNamespaceIdempotent(ns, name, x);
        if T.RewritesSubject(v) {
          assert T.FirstSubjectNamespaced(v, v, ns);
        }
      case Err(_) =>
      case Panic =>
    }
  }

  /**
   * Without a reparse, the manifest a successful transform leaves behind is what the next cycle
   * transforms again; the controller's own two rewrites leave every held resource as it is.
   */
  lemma HeldManifestIsRewritten(lib: Library, version: string, resources: seq<Resource>,
                                request: NamespacedName, replies: Replies)
    requires replies.get.Found?
    requires TransformAll(lib, InstallPipeline(replies.get.instance), resources).Transformed?
    ensures var run := ReconcileSpec(lib, version, resources, request, replies);
            var ns, name := replies.get.instance.namespace, replies.get.instance.name;
            |run.resources| == |resources| &&
            forall i :: 0 <= i < |run.resources| ==>
              T.ResourceNamespaceUpdate(ns, name, run.resources[i]) == T.Ok(run.resources[i]) &&
              T.OverWriteNamespace(ns, name, run.resources[i]) == T.Ok(run.resources[i])
  {
    var instance := replies.get.instance;
    var run := ReconcileSpec(lib, version, resources, request, replies);
    forall i | 0 <= i < |run.resources|
      ensures T.ResourceNamespaceUpdate(instance.namespace, instance.name, run.resources[i]) == T.Ok(run.resources[i])
      ensures T.OverWriteNamespace(instance.namespace, instance.name, run.resources[i]) == T.Ok(run.resources[i])
    {
      PipelineEmitsRewrittenResources(lib, instance, resources[i]);
    }
  }

  /** What InjectOwner sets: from the owner's namespace and name, the kind and the old `other`. */
  type OwnerInjection = (string, string, string, map<string, Value>) -> map<string, Value>

  /** What InjectNamespace sets: from the target namespace, the kind and the old `other`. */
  type NamespaceInjection = (string, string, map<string, Value>) -> map<string, Value>

  /**
   * A library whose InjectOwner and InjectNamespace succeed and change only `other`, the first
   * through `owned`, the second through `placed`. Both may depend on the kind (an injector may
   * skip cluster-scoped kinds) but not on the name, labels or subjects the controller's
   * rewrites work on.
   */
  ghost predicate InjectsIntoOther(lib: Library, owned: OwnerInjection, placed: NamespaceInjection)
  {
    (forall owner, u :: lib.injectOwner(owner, u) ==
                        T.Ok(u.(other := owned(owner.namespace, owner.name, u.kind, u.other)))) &&
    (forall ns, u :: lib.injectNamespace(ns, u) == T.Ok(u.(other := placed(ns, u.kind, u.other))))
  }

  /** Injecting twice is injecting once, and the two injections do not disturb each other. */
  ghost predicate InjectionsSettle(owned: OwnerInjection, placed: NamespaceInjection)
  {
    (forall ns, name, k, m :: owned(ns, name, k, owned(ns, name, k, m)) == owned(ns, name, k, m)) &&
    (forall ns, k, m :: placed(ns, k, placed(ns, k, m)) == placed(ns, k, m)) &&
    (forall ons, name, ns, k, m :: owned(ons, name, k, placed(ns, k, m)) == placed(ns, k, owned(ons, name, k, m)))
  }

  /**
   * Over such a library the install pipeline is idempotent: running it again, for the same
   * instance or one with the same namespace and name, on what it emitted gives that output back.
   */
  lemma PipelineIdempotent(lib: Library, owned: OwnerInjection, placed: NamespaceInjection,
                           instance: HubCluster, later: HubCluster, u: Resource)
    requires InjectsIntoOther(lib, owned, placed) && InjectionsSettle(owned, placed)
    requires later.namespace == instance.namespace && later.name == instance.name
    ensures var step := RunPipeline(lib, InstallPipeline(instance), u);
            step.Ok? ==> RunPipeline(lib, InstallPipeline(later), step.res) == step
  {
    var ns, name := instance.namespace, instance.name;
    var step := RunPipeline(lib, InstallPipeline(instance), u);
    InstallPipelineUnfolds(lib, instance, u);
    if step.Ok? {
      var d := step.res;
      var a := lib.injectOwner(instance, u).res;
      var b := lib.injectNamespace(ns, a).res;
      var x := T.ResourceNamespaceUpdate(ns, name, b).res;
      var k := u.kind;
      assert d.kind == x.kind == b.kind == a.kind == k;
      assert d.other == b.other == placed(ns, k, owned(ns, name, k, u.other));
      assert owned(ns, name, k, d.other) == placed(ns, k, owned(ns, name, k, owned(ns, name, k, u.other))) == d.other;
      assert lib.injectOwner(later, d) == T.Ok(d);
      assert lib.injectNamespace(ns, d) == T.Ok(d);
      PipelineEmitsRewrittenResources(lib, instance, u);
      InstallPipelineUnfolds(lib, later, d);
    }
  }

  /**
   * Over such a library Transform is idempotent: transforming the manifest a successful
   * Transform produced gives the same manifest again.
   */
  lemma TransformIdempotent(lib: Library, owned: OwnerInjection, placed: NamespaceInjection,
                            instance: HubCluster, later: HubCluster, resources: seq<Resource>)
    requires InjectsIntoOther(lib, owned, placed) && InjectionsSettle(owned, placed)
    requires later.namespace == instance.namespace && later.name == instance.name
    ensures var t := TransformAll(lib, InstallPipeline(instance), resources);
            t.Transformed? ==> TransformAll(lib, InstallPipeline(later), t.resources) == t
  {
    var t := TransformAll(lib, InstallPipeline(instance), resources);
    if t.Transformed? {
      forall i | 0 <= i < |t.resources|
        ensures RunPipeline(lib, InstallPipeline(later), t.resources[i]) == T.Ok(t.resources[i])
      {
        PipelineIdempotent(lib, owned, placed, instance, later, resources[i]);
      }
      var again := TransformAll(lib, InstallPipeline(later), t.resources);
      assert again.resources == t.resources;
    }
  }

  /**
   * With no reparse, the next cycle transforms the manifest this cycle left behind. Over such a
   * library that changes nothing: the next cycle for the same instance applies, and keeps
   * holding, exactly the manifest this cycle applied.
   */
  lemma NextCycleAppliesSameManifest(lib: Library, owned: OwnerInjection, placed: NamespaceInjection,
                                     version: string, resources: seq<Resource>, request: NamespacedName,
                                     replies: Replies, next: Replies)
    requires InjectsIntoOther(lib, owned, placed) && InjectionsSettle(owned, placed)
    requires replies.get.Found? && next.get.Found?
    requires next.get.instance.namespace == replies.get.instance.namespace
    requires next.get.instance.name == replies.get.instance.name
    requires TransformAll(lib, InstallPipeline(replies.get.instance), resources).Transformed?
    ensures var run := ReconcileSpec(lib, version, resources, request, replies);
            var again := ReconcileSpec(lib, version, run.resources, request, next);
            Applies(again.trace) == Applies(run.trace) == [run.resources] && again.resources == run.resources
  {
    var instance, later := replies.get.instance, next.get.instance;
    var t := TransformAll(lib, InstallPipeline(instance), resources);
    TransformedManifestIsApplied(lib, version, resources, instance, replies);
    TransformIdempotent(lib, owned, placed, instance, later, resources);
    TransformedManifestIsApplied(lib, version, t.resources, later, next);
    var run := ReconcileSpec(lib, version, resources, request, replies);
    var again := ReconcileSpec(lib, version, run.resources, request, next);
    var install := InstallSpec(lib, version, resources, instance, replies);
    FiltersCons(GetCall(request), install.trace);
    FiltersCons(GetCall(request), InstallSpec(lib, version, t.resources, later, next).trace);
  }
}
