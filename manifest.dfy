/**
 * The manifest library's transformer pipeline as the controller uses it: a transformer is one of
 * the four the controller builds; the library's own two (InjectOwner, InjectNamespace) are
 * uninterpreted, supplied as functions in a Library value. Transform runs every resource through
 * the pipeline in order.
 */
module Manifest {
  import opened Unstructured
  import opened OnpremTypes
  import T = Transformers

  /** A transformer as the controller constructs it, with the arguments it is built from. */
  datatype Transformer =
    | InjectOwner(owner: HubCluster)
    | InjectNamespace(namespace: string)
    | ResourceNamespaceUpdate(ns: string, name: string)
    | OverWriteNamespace(ns: string, name: string)

  /** mf.InjectOwner and mf.InjectNamespace, whose behaviour is not part of this model. */
  datatype Library = Library(
    injectOwner: (HubCluster, Resource) -> T.Step,
    injectNamespace: (string, Resource) -> T.Step)

  /** One transformer applied to one resource. */
  function Apply(lib: Library, t: Transformer, u: Resource): T.Step
  {
    match t
    case InjectOwner(owner) => lib.injectOwner(owner, u)
    case InjectNamespace(ns) => lib.injectNamespace(ns, u)
    case ResourceNamespaceUpdate(ns, name) => T.ResourceNamespaceUpdate(ns, name, u)
    case OverWriteNamespace(ns, name) => T.OverWriteNamespace(ns, name, u)
  }

  /** The transformers applied to one resource left to right, stopping at the first error or panic. */
  function RunPipeline(lib: Library, fns: seq<Transformer>, u: Resource): T.Step
    decreases |fns|
  {
    if fns == [] then T.Ok(u)
    else match Apply(lib, fns[0], u)
      case Ok(v) => RunPipeline(lib, fns[1..], v)
      case stopped => stopped
  }

  /** Running `fns` and then `gs` on the resource `fns` produced. */
  function RunThen(lib: Library, first: T.Step, gs: seq<Transformer>): T.Step
  {
    match first
    case Ok(v) => RunPipeline(lib, gs, v)
    case stopped => stopped
  }

  /** A pipeline is the composition of its parts: each stage's output feeds the next. */
  lemma {:induction false} RunPipelineAppend(lib: Library, fns: seq<Transformer>, gs: seq<Transformer>, u: Resource)
    ensures RunPipeline(lib, fns + gs, u) == RunThen(lib, RunPipeline(lib, fns, u), gs)
    decreases |fns|
  {
    if fns == [] {
      assert fns + gs == gs;
    } else {
      assert (fns + gs)[0] == fns[0];
      assert (fns + gs)[1..] == fns[1..] + gs;
      match Apply(lib, fns[0], u)
      case Ok(v) => RunPipelineAppend(lib, fns[1..], gs, v);
      case Err(_) =>
      case Panic =>
    }
  }

  /** What Transform does to a manifest: every resource transformed, or the first error, or a panic. */
  datatype TransformOutcome =
    | Transformed(resources: seq<Resource>)
    | TransformFailed(err: Errors.Error)
    | TransformPanicked

  /**
   * Transform(fns...) over the manifest's resources in order. The whole manifest is replaced only
   * when every resource went through; the first resource that fails decides the outcome.
   */
  function TransformAll(lib: Library, fns: seq<Transformer>, resources: seq<Resource>): (t: TransformOutcome)
    ensures t.Transformed? <==> forall i :: 0 <= i < |resources| ==> RunPipeline(lib, fns, resources[i]).Ok?
    ensures t.Transformed? ==>
              |t.resources| == |resources| &&
              forall i :: 0 <= i < |resources| ==> RunPipeline(lib, fns, resources[i]) == T.Ok(t.resources[i])
    ensures t.TransformFailed? ==>
              exists i :: 0 <= i < |resources| && RunPipeline(lib, fns, resources[i]) == T.Err(t.err) &&
                          forall j :: 0 <= j < i ==> RunPipeline(lib, fns, resources[j]).Ok?
    ensures t.TransformPanicked? ==>
              exists i :: 0 <= i < |resources| && RunPipeline(lib, fns, resources[i]).Panic? &&
                          forall j :: 0 <= j < i ==> RunPipeline(lib, fns, resources[j]).Ok?
    decreases |resources|
  {
    if resources == [] then Transformed([])
    else match RunPipeline(lib, fns, resources[0])
      case Ok(v) =>
        (match TransformAll(lib, fns, resources[1..])
         case Transformed(rest) => Transformed([v] + rest)
         case stopped => stopped)
      case Err(e) => TransformFailed(e)
      case Panic => TransformPanicked
  }
}
