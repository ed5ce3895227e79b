/**
 * The two transformers the HubCluster controller defines itself: resourceNamespaceUpdate, which
 * points the first ServiceAccount subject of a (Cluster)RoleBinding at the instance's namespace,
 * and overWriteNamespace, which renames the labelled Namespace template to onprem-hub-system.
 * Each is the closure applied to one resource; the Go `error` it returns and a Go panic are
 * both outcomes of a Step.
 */
module Transformers {
  import opened Errors
  import opened Unstructured

  /** What running a transformer on one resource gives: the resource, an error, or a panic. */
  datatype Step = Ok(res: Resource) | Err(err: Error) | Panic

  /** The namespace name the labelled Namespace template is renamed to. */
  const HubSystemNamespace: string := "onprem-hub-system"

  /** The kind, lower-cased, is clusterrolebinding or rolebinding. */
  predicate IsBindingKind(kind: string)
  {
    Lower(kind) == "clusterrolebinding" || Lower(kind) == "rolebinding"
  }

  /** The "subjects" field as unstructured.NestedSlice reads it: found only when it is a list. */
  function SubjectList(u: Resource): Option<seq<Value>>
  {
    if u.subjects.Some? && u.subjects.value.List? then Some(u.subjects.value.items) else None
  }

  /** The subject's "kind" is the string "ServiceAccount", compared exactly (case matters). */
  predicate IsServiceAccount(subject: map<string, Value>)
  {
    "kind" in subject && subject["kind"] == Str("ServiceAccount")
  }

  /** A binding whose subject list is empty, or whose first subject is not an object: indexing or asserting it panics. */
  predicate PanicsOnSubjects(u: Resource)
  {
    IsBindingKind(u.kind) && SubjectList(u).Some? &&
    (|SubjectList(u).value| == 0 || !SubjectList(u).value[0].Obj?)
  }

  /** A binding whose first subject is a ServiceAccount object: the case the rewrite applies to. */
  predicate RewritesSubject(u: Resource)
  {
    IsBindingKind(u.kind) && SubjectList(u).Some? && |SubjectList(u).value| > 0 &&
    SubjectList(u).value[0].Obj? && IsServiceAccount(SubjectList(u).value[0].fields)
  }

  /**
   * `v`'s subject list is `u`'s with only the first subject changed, and in that one only the
   * "namespace" entry, which now holds `ns`.
   */
  predicate FirstSubjectNamespaced(u: Resource, v: Resource, ns: string)
  {
    SubjectList(u).Some? && SubjectList(v).Some? &&
    var before, after := SubjectList(u).value, SubjectList(v).value;
    |before| > 0 && |after| == |before| && after[1..] == before[1..] &&
    before[0].Obj? && after[0].Obj? &&
    "namespace" in after[0].fields && after[0].fields["namespace"] == Str(ns) &&
    after[0].fields - {"namespace"} == before[0].fields - {"namespace"}
  }

  /** The resourceNamespaceUpdate(ns, name) transformer applied to `u` (`name` only labels its log lines). */
  function ResourceNamespaceUpdate(ns: string, name: string, u: Resource): (r: Step)
    ensures !r.Err?
    ensures r.Panic? <==> PanicsOnSubjects(u)
    ensures r.Ok? ==> r.res.(subjects := u.subjects) == u
    ensures RewritesSubject(u) ==> r.Ok? && FirstSubjectNamespaced(u, r.res, ns)
    ensures r.Ok? && !RewritesSubject(u) ==> r.res == u
  {
    if !IsBindingKind(u.kind) then Ok(u)
    else match u.subjects
      case Some(List(items)) =>
        if |items| == 0 then Panic
        else (match items[0]
          case Obj(subject) =>
            if "kind" in subject && subject["kind"] == Str("ServiceAccount") then
              Ok(u.(subjects := Some(List(items[0 := Obj(subject["namespace" := Str(ns)])]))))
            else Ok(u)
          case _ => Panic)
      case _ => Ok(u)
  }

  /** A Namespace (kind compared lower-cased) labelled resource=joinedcluster. */
  predicate IsJoinedClusterNamespace(u: Resource)
  {
    Lower(u.kind) == "namespace" && LabelValue(u.labels, "resource") == "joinedcluster"
  }

  /** The overWriteNamespace(ns, name) transformer applied to `u` (`ns` and `name` only label its log lines). */
  function OverWriteNamespace(ns: string, name: string, u: Resource): (r: Step)
    ensures r.Ok?
    ensures r.res.(name := u.name) == u
    ensures IsJoinedClusterNamespace(u) ==> r.res.name == HubSystemNamespace
    ensures !IsJoinedClusterNamespace(u) ==> r.res == u
  {
    if IsJoinedClusterNamespace(u) then Ok(u.(name := HubSystemNamespace)) else Ok(u)
  }

  /** Applying resourceNamespaceUpdate to its own output changes nothing. */
  lemma ResourceNamespaceUpdateIdempotent(ns: string, name: string, u: Resource)
    ensures ResourceNamespaceUpdate(ns, name, u).Ok? ==>
              var v := ResourceNamespaceUpdate(ns, name, u).res;
              ResourceNamespaceUpdate(ns, name, v) == Ok(v)
  {
    var r := ResourceNamespaceUpdate(ns, name, u);
    if r.Ok? && RewritesSubject(u) {
      var v := r.res;
      var before, after := SubjectList(u).value, SubjectList(v).value;
      assert after[0].fields["kind"] == before[0].fields["kind"] by {
        assert "kind" !in {"namespace"};
        assert "kind" in before[0].fields - {"namespace"};
      }
      assert RewritesSubject(v);
      var w := ResourceNamespaceUpdate(ns, name, v).res;
      var again := SubjectList(w).value;
      assert again[0].fields == after[0].fields;
      assert again == after;
    }
  }

  /** Applying overWriteNamespace to its own output changes nothing. */
  lemma OverWriteNamespaceIdempotent(ns: string, name: string, u: Resource)
    ensures var v := OverWriteNamespace(ns, name, u).res;
            OverWriteNamespace(ns, name, v) == Ok(v)
  {
  }

  /**
   * The two rewrites commute: renaming the Namespace template first and rewriting the subject
   * second gives what the opposite order gives, panic included.
   */
  lemma RewritesCommute(ns: string, name: string, u: Resource)
    ensures ResourceNamespaceUpdate(ns, name, OverWriteNamespace(ns, name, u).res) ==
            match ResourceNamespaceUpdate(ns, name, u)
            case Ok(v) => OverWriteNamespace(ns, name, v)
            case other => other
  {
    var o := OverWriteNamespace(ns, name, u).res;
    if IsJoinedClusterNamespace(u) {
      assert !IsBindingKind(u.kind);
    } else {
      assert o == u;
      match ResourceNamespaceUpdate(ns, name, u)
      case Ok(v) =>
        assert !IsJoinedClusterNamespace(v);
      case Panic =>
      case Err(_) =>
    }
  }
}
