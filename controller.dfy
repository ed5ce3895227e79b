/**
 * The HubCluster reconciler: Reconcile fetches the instance named by a request and either tears
 * the manifest down (the instance is gone) or runs its stages, of which there is one, install:
 * transform the manifest, apply it, record the installed version in the instance's status.
 *
 * The cluster client and the manifest library's ApplyAll and DeleteAll are an oracle: the
 * answers they give in one cycle are a Replies value, and every call the reconciler makes is
 * recorded, in order, in the reconciler's trace.
 */
module HubClusterController {
  import opened Errors
  import opened Unstructured
  import opened OnpremTypes
  import opened Manifest
  import T = Transformers

  /** A call the reconciler makes into the cluster client or the manifest library. */
  datatype Call =
    | GetCall(key: NamespacedName)
    | DeleteAllCall(resources: seq<Resource>)
    | TransformCall(fns: seq<Transformer>)
    | ApplyAllCall(resources: seq<Resource>)
    | UpdateStatusCall(instance: HubCluster)

  /** What client.Get answers: the instance, or an error (NotFound among them). */
  datatype GetReply = Found(instance: HubCluster) | GetFailed(err: Error)

  /** The answers of the cluster and of the manifest library during one cycle. */
  datatype Replies = Replies(
    get: GetReply,
    deleteAll: Option<Error>,
    applyAll: Option<Error>,
    statusUpdate: Option<Error>)

  /** reconcile.Result: whether and when to requeue. */
  datatype RequeueResult = RequeueResult(requeue: bool, requeueAfter: nat)

  /** reconcile.Result{}: no requeue requested. */
  const EmptyResult := RequeueResult(false, 0)

  /** How a stage ends: it returns an error value (nil is None), or the process panics. */
  datatype StageExit = Normal(err: Option<Error>) | Panic

  /** How Reconcile ends. */
  datatype ReconcileExit = Returned(result: RequeueResult, err: Option<Error>) | Panicked

  /** A stage of Reconcile. */
  datatype Stage = InstallStage

  /** What one install does: the calls it makes, the manifest it leaves, how it ends, the instance it leaves. */
  datatype InstallRun = InstallRun(trace: seq<Call>, resources: seq<Resource>, exit: StageExit, instance: HubCluster)

  /** What one Reconcile does: the calls it makes, the manifest it leaves, how it ends. */
  datatype ReconcileRun = ReconcileRun(trace: seq<Call>, resources: seq<Resource>, exit: ReconcileExit)

  /** The transformers install builds for an instance, in the order it appends them. */
  function InstallPipeline(instance: HubCluster): seq<Transformer>
  {
    [InjectOwner(instance), InjectNamespace(instance.namespace),
     ResourceNamespaceUpdate(instance.namespace, instance.name),
     OverWriteNamespace(instance.namespace, instance.name)]
  }

  /**
   * install on a manifest: Transform (whose error is ignored, leaving the manifest as it was),
   * ApplyAll, and, only if that succeeded, the status update with the controller's version.
   */
  function InstallSpec(lib: Library, version: string, resources: seq<Resource>,
                       instance: HubCluster, replies: Replies): InstallRun
  {
    var fns := InstallPipeline(instance);
    var t := TransformAll(lib, fns, resources);
    if t.TransformPanicked? then InstallRun([TransformCall(fns)], resources, Panic, instance)
    else
      var manifest := if t.Transformed? then t.resources else resources;
      if replies.applyAll.Some? then
        InstallRun([TransformCall(fns), ApplyAllCall(manifest)], manifest, Normal(replies.applyAll), instance)
      else
        var updated := instance.(status := HubClusterStatus(version));
        InstallRun([TransformCall(fns), ApplyAllCall(manifest), UpdateStatusCall(updated)],
                   manifest, Normal(replies.statusUpdate), updated)
  }

  /** Reconcile for one request: fetch, then tear down, fail, or run install. */
  function ReconcileSpec(lib: Library, version: string, resources: seq<Resource>,
                         request: NamespacedName, replies: Replies): ReconcileRun
  {
    match replies.get
    case GetFailed(e) =>
      if IsNotFound(e) then
        ReconcileRun([GetCall(request), DeleteAllCall(resources)], resources, Returned(EmptyResult, None))
      else
        ReconcileRun([GetCall(request)], resources, Returned(EmptyResult, Some(e)))
    case Found(instance) =>
      var run := InstallSpec(lib, version, resources, instance, replies);
      ReconcileRun([GetCall(request)] + run.trace, run.resources,
                   if run.exit.Panic? then Panicked else Returned(EmptyResult, run.exit.err))
  }

  /** ReconcileHubCluster: the client, the manifest it holds (config) and the library it uses. */
  class ReconcileHubCluster {
    /** The resources of the manifest held in `config`; Transform replaces them. */
    var resources: seq<Resource>
    /** Every call made so far into the cluster client and the manifest library, in order. */
    ghost var trace: seq<Call>
    /** mf.InjectOwner and mf.InjectNamespace. */
    const lib: Library
    /** version.Version, the controller's build version. */
    const version: string

    constructor (resources: seq<Resource>, lib: Library, version: string)
      ensures this.resources == resources && this.lib == lib && this.version == version
      ensures trace == []
    {
      this.resources := resources;
      this.lib := lib;
      this.version := version;
      trace := [];
    }

    /** install: transform the manifest, apply it, then record and persist the version. */
    method Install(instance: HubCluster, replies: Replies) returns (exit: StageExit, updated: HubCluster)
      modifies this
      ensures var run := InstallSpec(lib, version, old(resources), instance, replies);
              trace == old(trace) + run.trace && resources == run.resources &&
              exit == run.exit && updated == run.instance
    {
      var fns := [InjectOwner(instance)];
      fns := fns + [InjectNamespace(instance.namespace)];
      fns := fns + [ResourceNamespaceUpdate(instance.namespace, instance.name)];
      fns := fns + [OverWriteNamespace(instance.namespace, instance.name)];
      assert fns == InstallPipeline(instance);
      ghost var before := trace;
      trace := trace + [TransformCall(fns)];
      var t := TransformAll(lib, fns, resources);
      updated := instance;
      if t.TransformPanicked? {
        exit := Panic;
        return;
      }
      if t.Transformed? {
        resources := t.resources;
      }  // a Transform error is not looked at: the untransformed manifest is applied
      trace := trace + [ApplyAllCall(resources)];
      assert trace == before + [TransformCall(fns), ApplyAllCall(resources)];
      if replies.applyAll.Some? {
        exit := Normal(replies.applyAll);
        return;
      }
      updated := updated.(status := HubClusterStatus(version));
      trace := trace + [UpdateStatusCall(updated)];
      assert trace == before + [TransformCall(fns), ApplyAllCall(resources), UpdateStatusCall(updated)];
      exit := Normal(replies.statusUpdate);
    }

    /**
     * Reconcile one request: fetch the instance; if it is gone, delete the manifest's resources
     * and succeed; if the fetch failed otherwise, return its error; else run the stages in order
     * and return the first error one of them returns.
     */
    method Reconcile(request: NamespacedName, replies: Replies) returns (out: ReconcileExit)
      modifies this
      ensures var run := ReconcileSpec(lib, version, old(resources), request, replies);
              trace == old(trace) + run.trace && resources == run.resources && out == run.exit
    {
      trace := trace + [GetCall(request)];
      match replies.get
      case GetFailed(e) =>
        if IsNotFound(e) {
          trace := trace + [DeleteAllCall(resources)];  // its error is not looked at
          out := Returned(EmptyResult, None);
        } else {
          out := Returned(EmptyResult, Some(e));
        }
      case Found(fetched) =>
        ghost var run := InstallSpec(lib, version, resources, fetched, replies);
        ghost var before := trace;
        var stages := [InstallStage];
        var instance := fetched;
        var i := 0;
        while i < |stages|
          invariant 0 <= i <= |stages|
          invariant i == 0 ==> trace == before && resources == old(resources) && instance == fetched
          invariant i == 1 ==> run.exit == Normal(None) && trace == before + run.trace &&
                               resources == run.resources
        {
          var exit;
          match stages[i] {
            case InstallStage =>
              exit, instance := Install(instance, replies);
          }
          if exit.Panic? {
            out := Panicked;
            return;
          }
          if exit.err.Some? {
            out := Returned(EmptyResult, exit.err);
            return;
          }
          i := i + 1;
        }
        out := Returned(EmptyResult, None);
    }
  }
}
