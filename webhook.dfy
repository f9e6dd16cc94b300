/**
 * The mutating admission webhook of the CRC cluster tuning: `mutate` reads
 * an AdmissionReview for a pod and, in the OpenShift namespaces it accepts,
 * answers with a JSON Patch (RFC 6902) that lowers every non-zero resource
 * request to a fixed minimum ("replace", section 4.3) and drops every
 * non-zero limit ("remove", section 4.2). The response always admits the
 * pod. A resource quantity is reduced to whether it prints as "0".
 */
module Webhook {
  import opened Optional
  import opened Text

  /** A `resource.Quantity` as the webhook sees it: whether `String()` is "0". */
  datatype Quantity = Zero | NonZero

  /** The memory and CPU entries of a container's requests or limits (an absent entry is `Zero`). */
  datatype ResourceList = ResourceList(memory: Quantity, cpu: Quantity)

  datatype Container = Container(requests: ResourceList, limits: ResourceList)

  datatype Pod = Pod(containers: seq<Container>)

  /**
   * The request's raw pod object as `json.Unmarshal` into a `*Pod` leaves
   * it: an unmarshalling error, the JSON literal `null` (no error, but the
   * pointer stays nil), or a pod.
   */
  datatype PodObject = Malformed | Null | Decoded(pod: Pod)

  /** The admission request: its UID, the pod's namespace, and the pod object. */
  datatype AdmissionRequest = AdmissionRequest(uid: string, namespace: string, podObject: PodObject)

  /** The request body: not an AdmissionReview at all, or one whose `Request` may be nil. */
  datatype Body = Unreadable | Review(request: Option<AdmissionRequest>)

  datatype Resource = Memory | Cpu

  /**
   * One patch operation. Requests are only ever replaced and limits only
   * ever removed, so the operation determines the section it targets.
   */
  datatype PatchOp =
    | Replace(container: nat, resource: Resource, value: string)
    | Remove(container: nat, resource: Resource)

  datatype PatchType = JsonPatch

  /** The fields of the `AdmissionResponse` that `mutate` sets. */
  datatype Response = Response(
    allowed: bool,
    uid: string,
    status: string,
    patchType: Option<PatchType>,
    auditAnnotations: map<string, string>,
    patch: Option<seq<PatchOp>>)

  /**
   * Why `mutate` produced no review: the body or the pod object failed to
   * unmarshal, the review carried no request (reading its UID dereferences
   * nil), or the pod object was `null` in an allowed namespace (ranging over
   * its containers dereferences nil).
   */
  datatype MutateError = ReviewUnmarshalFailed | PodUnmarshalFailed | NilRequest | NilPod

  datatype MutateResult = Reviewed(response: Response) | Failed(error: MutateError)

  const OpenshiftPrefix := "openshift-"

  /** The namespace prefixes of the control plane, which are never mutated. */
  const ApiServerPrefix := OpenshiftPrefix + "kube-apiserver"
  const ControllerManagerPrefix := OpenshiftPrefix + "kube-controller-manager"
  const SchedulerPrefix := OpenshiftPrefix + "kube-scheduler"
  const EtcdPrefix := OpenshiftPrefix + "etcd"

  const ExcludedPrefixes: seq<string> := [ApiServerPrefix, ControllerManagerPrefix, SchedulerPrefix, EtcdPrefix]

  /**
   * `allowedNameSpace`: a non-empty namespace under "openshift-" that does
   * not belong to the API server, controller manager, scheduler or etcd.
   */
  predicate AllowedNameSpace(namespace: string) {
    && |namespace| > 0
    && StartsWith(namespace, OpenshiftPrefix)
    && !StartsWith(namespace, ApiServerPrefix)
    && !StartsWith(namespace, ControllerManagerPrefix)
    && !StartsWith(namespace, SchedulerPrefix)
    && !StartsWith(namespace, EtcdPrefix)
  }

  /** `getMinimalCPUValue`: the namespace is ignored. */
  function MinimalCpuValue(namespace: string): string {
    "10m"
  }

  /** `getMinimalMemoryValue`: the namespace is ignored. */
  function MinimalMemoryValue(namespace: string): string {
    "10Mi"
  }

  const AuditAnnotations: map<string, string> :=
    map["crc-mutate-webhook" := "initial resource requests been adjusted by crc-mutate-webhook"]

  function ResourceName(r: Resource): string {
    match r
    case Memory => "memory"
    case Cpu => "cpu"
  }

  /** The part of an operation's path after the container index. */
  function PathTail(op: PatchOp): string {
    if op.Replace? then "/resources/requests/" + ResourceName(op.resource)
    else "/resources/limits/" + ResourceName(op.resource)
  }

  const ContainersPrefix := "/spec/containers/"

  /** The JSON pointer an operation targets, e.g. "/spec/containers/0/resources/requests/memory". */
  function Path(op: PatchOp): string {
    ContainersPrefix + Decimal(op.container) + PathTail(op)
  }

  /** The operation as the `map[string]string` the webhook appends to its patch list. */
  function PatchObject(op: PatchOp): (m: map<string, string>)
    ensures "op" in m && "path" in m && m["path"] == Path(op)
    ensures m["op"] == "replace" <==> op.Replace?
    ensures m["op"] == "remove" <==> op.Remove?
    ensures "value" in m <==> op.Replace?
    ensures op.Replace? ==> m["value"] == op.value
  {
    match op
    case Replace(_, _, v) => map["op" := "replace", "path" := Path(op), "value" := v]
    case Remove(_, _) => map["op" := "remove", "path" := Path(op)]
  }

  /** The position an operation can take among all operations: four per container, in emission order. */
  function Slot(op: PatchOp): nat {
    4 * op.container + match op
      case Replace(_, Memory, _) => 0
      case Replace(_, Cpu, _) => 1
      case Remove(_, Memory) => 2
      case Remove(_, Cpu) => 3
  }

  /** The quantity an operation is guarded by. */
  function Guard(c: Container, op: PatchOp): Quantity {
    var list := if op.Replace? then c.requests else c.limits;
    if op.resource.Memory? then list.memory else list.cpu
  }

  /**
   * The operations one loop iteration appends for container `i`: replace
   * the memory request, replace the CPU request, remove the memory limit,
   * remove the CPU limit, each only when its quantity is not zero.
   */
  function ContainerPatches(namespace: string, i: nat, c: Container): seq<PatchOp> {
    (if c.requests.memory.NonZero? then [Replace(i, Memory, MinimalMemoryValue(namespace))] else [])
    + (if c.requests.cpu.NonZero? then [Replace(i, Cpu, MinimalCpuValue(namespace))] else [])
    + (if c.limits.memory.NonZero? then [Remove(i, Memory)] else [])
    + (if c.limits.cpu.NonZero? then [Remove(i, Cpu)] else [])
  }

  /** The patch list after the loop has visited every container of `cs`, in index order. */
  function PodPatches(namespace: string, cs: seq<Container>): seq<PatchOp> {
    if cs == [] then []
    else PodPatches(namespace, cs[..|cs| - 1]) + ContainerPatches(namespace, |cs| - 1, cs[|cs| - 1])
  }

  /** How many of a container's four quantities are not zero. */
  function NonZeroFields(c: Container): nat {
    (if c.requests.memory.NonZero? then 1 else 0) + (if c.requests.cpu.NonZero? then 1 else 0)
    + (if c.limits.memory.NonZero? then 1 else 0) + (if c.limits.cpu.NonZero? then 1 else 0)
  }

  /** The number of non-zero quantities across the pod. */
  function NonZeroCount(cs: seq<Container>): nat {
    if cs == [] then 0 else NonZeroFields(cs[0]) + NonZeroCount(cs[1..])
  }

  /**
   * The operation the webhook wants for a slot: it targets an existing
   * container whose guarding quantity is not zero, and a replacement
   * carries the fixed minimum for its resource.
   */
  predicate Wanted(namespace: string, cs: seq<Container>, op: PatchOp) {
    && op.container < |cs|
    && Guard(cs[op.container], op).NonZero?
    && (op.Replace? ==> op.value == if op.resource.Memory? then MinimalMemoryValue(namespace) else MinimalCpuValue(namespace))
  }

  /**
   * One iteration of `mutate`'s loop over the containers: append the
   * operations container `i` needs, and report whether any was appended.
   */
  method AppendContainerPatches(p: seq<PatchOp>, namespace: string, i: nat, c: Container)
    returns (q: seq<PatchOp>, emitted: bool)
    ensures q == p + ContainerPatches(namespace, i, c)
    ensures emitted <==> ContainerPatches(namespace, i, c) != []
    ensures !emitted ==> q == p
  {
    var cpu := MinimalCpuValue(namespace);
    var memory := MinimalMemoryValue(namespace);
    q, emitted := p, false;
    if c.requests.memory.NonZero? {
      q := q + [Replace(i, Memory, memory)];
      emitted := true;
    }
    if c.requests.cpu.NonZero? {
      q := q + [Replace(i, Cpu, cpu)];
      emitted := true;
    }
    if c.limits.memory.NonZero? {
      q := q + [Remove(i, Memory)];
      emitted := true;
    }
    if c.limits.cpu.NonZero? {
      q := q + [Remove(i, Cpu)];
      emitted := true;
    }
  }

  /**
   * `mutate`. Every failure yields no response. Otherwise the response
   * admits the pod, echoes the request's UID, reports "Success", declares a
   * JSON Patch with the audit annotation, and carries the patch list when
   * the namespace is allowed and the list is not empty. A `null` pod object
   * passes unmarshalling; it is only dereferenced, and so only fails, in an
   * allowed namespace.
   */
  method Mutate(body: Body) returns (r: MutateResult)
    ensures body.Unreadable? ==> r == Failed(ReviewUnmarshalFailed)
    ensures body.Review? && body.request.None? ==> r == Failed(NilRequest)
    ensures body.Review? && body.request.Some? && body.request.value.podObject.Malformed? ==> r == Failed(PodUnmarshalFailed)
    ensures r == Failed(NilPod) <==>
      body.Review? && body.request.Some? && body.request.value.podObject.Null? && AllowedNameSpace(body.request.value.namespace)
    ensures r.Reviewed? <==>
      && body.Review? && body.request.Some?
      && (body.request.value.podObject.Decoded? || (body.request.value.podObject.Null? && !AllowedNameSpace(body.request.value.namespace)))
    ensures r.Reviewed? ==>
      var request := body.request.value;
      var patches := if request.podObject.Decoded? then PodPatches(request.namespace, request.podObject.pod.containers) else [];
      && r.response.allowed
      && r.response.uid == request.uid
      && r.response.status == "Success"
      && r.response.patchType == Some(JsonPatch)
      && r.response.auditAnnotations == AuditAnnotations
      && (r.response.patch.Some? <==> AllowedNameSpace(request.namespace) && patches != [])
      && (r.response.patch.Some? ==> r.response.patch.value == patches)
  {
    if body.Unreadable? {
      return Failed(ReviewUnmarshalFailed);
    }
    if body.request.None? {
      return Failed(NilRequest);
    }
    var request := body.request.value;
    if request.podObject.Malformed? {
      return Failed(PodUnmarshalFailed);
    }
    var patch: Option<seq<PatchOp>> := None;
    if AllowedNameSpace(request.namespace) {
      if request.podObject.Null? {
        return Failed(NilPod);
      }
      var cs := request.podObject.pod.containers;
      var p: seq<PatchOp> := [];
      var i := 0;
      while i < |cs|
        invariant 0 <= i <= |cs|
        invariant p == PodPatches(request.namespace, cs[..i])
        invariant patch == if p == [] then None else Some(p)
      {
        var emitted;
        p, emitted := AppendContainerPatches(p, request.namespace, i, cs[i]);
        if emitted {
          patch := Some(p);
        }
        assert cs[..i + 1][..i] == cs[..i];
        i := i + 1;
      }
      assert cs[..i] == cs;
    }
    return Reviewed(Response(true, request.uid, "Success", Some(JsonPatch), AuditAnnotations, patch));
  }

  /** One iteration appends one operation per non-zero quantity, all for container `i`, in slot order. */
  lemma ContainerPatchesShape(namespace: string, i: nat, c: Container)
    ensures var q := ContainerPatches(namespace, i, c);
      && |q| == NonZeroFields(c)
      && (forall a | 0 <= a < |q| :: 4 * i <= Slot(q[a]) < 4 * i + 4)
      && (forall a, b | 0 <= a < b < |q| :: Slot(q[a]) < Slot(q[b]))
  {
  }

  /** An operation belongs to an iteration's output exactly when that iteration wants it. */
  lemma ContainerPatchesMembership(namespace: string, i: nat, c: Container, op: PatchOp)
    ensures op in ContainerPatches(namespace, i, c) <==>
      && op.container == i
      && Guard(c, op).NonZero?
      && (op.Replace? ==> op.value == if op.resource.Memory? then MinimalMemoryValue(namespace) else MinimalCpuValue(namespace))
  {
  }

  /** Counting from the front and from the back agree. */
  lemma {:induction false} NonZeroCountSnoc(cs: seq<Container>)
    requires cs != []
    ensures NonZeroCount(cs) == NonZeroCount(cs[..|cs| - 1]) + NonZeroFields(cs[|cs| - 1])
    decreases |cs|
  {
    if |cs| > 1 {
      assert cs[1..][..|cs[1..]| - 1] == cs[..|cs| - 1][1..];
      NonZeroCountSnoc(cs[1..]);
    }
  }

  /**
   * The patch list holds one operation per non-zero request or limit in the
   * pod, so at most four per container.
   */
  lemma {:induction false} PodPatchesCount(namespace: string, cs: seq<Container>)
    ensures |PodPatches(namespace, cs)| == NonZeroCount(cs) <= 4 * |cs|
    decreases |cs|
  {
    if cs != [] {
      PodPatchesCount(namespace, cs[..|cs| - 1]);
      ContainerPatchesShape(namespace, |cs| - 1, cs[|cs| - 1]);
      NonZeroCountSnoc(cs);
    }
  }

  /**
   * The patch list is in emission order: containers by index, and within a
   * container memory request, CPU request, memory limit, CPU limit; so no
   * slot is targeted twice.
   */
  lemma {:induction false} PodPatchesOrdered(namespace: string, cs: seq<Container>)
    ensures forall a | 0 <= a < |PodPatches(namespace, cs)| :: Slot(PodPatches(namespace, cs)[a]) < 4 * |cs|
    ensures forall a, b | 0 <= a < b < |PodPatches(namespace, cs)| ::
      Slot(PodPatches(namespace, cs)[a]) < Slot(PodPatches(namespace, cs)[b])
    decreases |cs|
  {
    if cs != [] {
      var n := |cs| - 1;
      var q := PodPatches(namespace, cs[..n]);
      var r := ContainerPatches(namespace, n, cs[n]);
      PodPatchesOrdered(namespace, cs[..n]);
      ContainerPatchesShape(namespace, n, cs[n]);
      var p := q + r;
      assert PodPatches(namespace, cs) == p;
      assert forall a | 0 <= a < |q| :: Slot(q[a]) < 4 * n;
      assert forall a | 0 <= a < |r| :: 4 * n <= Slot(r[a]) < 4 * n + 4;
      forall a, b | 0 <= a < b < |p| ensures Slot(p[a]) < Slot(p[b]) {
        if b < |q| {
          assert p[a] == q[a] && p[b] == q[b];
        } else if a < |q| {
          assert p[a] == q[a] && p[b] == r[b - |q|];
        } else {
          assert p[a] == r[a - |q|] && p[b] == r[b - |q|];
        }
      }
      forall a | 0 <= a < |p| ensures Slot(p[a]) < 4 * |cs| {
        if a < |q| {
          assert p[a] == q[a];
        } else {
          assert p[a] == r[a - |q|];
        }
      }
    }
  }

  /**
   * An operation is in the patch list exactly when the webhook wants it: it
   * names a container of the pod whose guarding quantity is non-zero, and a
   * replacement carries the minimum for its resource.
   */
  lemma {:induction false} PodPatchesMembership(namespace: string, cs: seq<Container>, op: PatchOp)
    ensures op in PodPatches(namespace, cs) <==> Wanted(namespace, cs, op)
    decreases |cs|
  {
    if cs != [] {
      var n := |cs| - 1;
      PodPatchesMembership(namespace, cs[..n], op);
      ContainerPatchesMembership(namespace, n, cs[n], op);
      if op.container < n {
        assert cs[..n][op.container] == cs[op.container];
      }
    }
  }

  /** The minimum values do not depend on the namespace: every allowed namespace gets the same patch. */
  lemma {:induction false} PodPatchesIgnoreNamespace(ns1: string, ns2: string, cs: seq<Container>)
    ensures PodPatches(ns1, cs) == PodPatches(ns2, cs)
    decreases |cs|
  {
    if cs != [] {
      PodPatchesIgnoreNamespace(ns1, ns2, cs[..|cs| - 1]);
    }
  }

  /** Every replacement in the patch sets the request to "10Mi" of memory or "10m" of CPU. */
  lemma ReplacementValues(namespace: string, cs: seq<Container>, op: PatchOp)
    requires op in PodPatches(namespace, cs) && op.Replace?
    ensures op.value == if op.resource.Memory? then "10Mi" else "10m"
  {
    PodPatchesMembership(namespace, cs, op);
  }

  /** The tail names the section and the resource: "requests" or "limits", "memory" or "cpu". */
  lemma PathTailInjective(a: PatchOp, b: PatchOp)
    requires PathTail(a) == PathTail(b)
    ensures a.Replace? == b.Replace? && a.resource == b.resource
  {
    assert PathTail(a)[11] == PathTail(b)[11];
    assert PathTail(a)[|PathTail(a)| - 1] == PathTail(b)[|PathTail(b)| - 1];
  }

  /** The container index is read back from its decimal form, which the tail's "/" ends. */
  lemma PathSplits(a: PatchOp, b: PatchOp)
    requires Path(a) == Path(b)
    ensures a.container == b.container && PathTail(a) == PathTail(b)
  {
    assert PathTail(a)[0] == '/' && PathTail(b)[0] == '/';
    DecimalFieldInjective(ContainersPrefix, a.container, PathTail(a), b.container, PathTail(b));
  }

  /** A slot determines the container, the operation and the resource. */
  lemma SlotInjective(a: PatchOp, b: PatchOp)
    requires Slot(a) == Slot(b)
    ensures a.container == b.container && a.Replace? == b.Replace? && a.resource == b.resource
  {
    assert a.container == Slot(a) / 4 && b.container == Slot(b) / 4;
  }

  /** Two operations share a JSON pointer exactly when they take the same slot. */
  lemma PathInjective(a: PatchOp, b: PatchOp)
    ensures Path(a) == Path(b) <==> Slot(a) == Slot(b)
  {
    if Path(a) == Path(b) {
      PathSplits(a, b);
      PathTailInjective(a, b);
    }
    if Slot(a) == Slot(b) {
      SlotInjective(a, b);
    }
  }

  /** No two operations of the patch list target the same JSON pointer. */
  lemma PodPatchPathsDistinct(namespace: string, cs: seq<Container>)
    ensures var p := PodPatches(namespace, cs);
      forall a, b | 0 <= a < b < |p| :: Path(p[a]) != Path(p[b])
  {
    var p := PodPatches(namespace, cs);
    PodPatchesOrdered(namespace, cs);
    forall a, b | 0 <= a < b < |p| ensures Path(p[a]) != Path(p[b]) {
      PathInjective(p[a], p[b]);
    }
  }

  /** `t` prefixes `s` exactly when `w + t` prefixes `w + s`. */
  lemma StartsWithCommonPrefix(w: string, s: string, t: string)
    ensures StartsWith(w + s, w + t) <==> StartsWith(s, t)

  {
    if StartsWith(w + s, w + t) {
      assert s[..|t|] == (w + s)[|w|..|w| + |t|];
    }
    if StartsWith(s, t) {
      assert (w + s)[..|w + t|] == w + s[..|t|];
    }
  }

  /**
   * Within "openshift-", a namespace is mutated exactly when the rest of
   * its name starts with none of "kube-apiserver",
   * "kube-controller-manager", "kube-scheduler" or "etcd"; the length test
   * adds nothing, and a name such as "openshift-etcd-operator" is excluded
   * along with "openshift-etcd".
   */
  lemma AllowedUnderOpenshift(rest: string)
    ensures AllowedNameSpace(OpenshiftPrefix + rest) <==>
      && !StartsWith(rest, "kube-apiserver")
      && !StartsWith(rest, "kube-controller-manager")
      && !StartsWith(rest, "kube-scheduler")
      && !StartsWith(rest, "etcd")
  {
    var w := OpenshiftPrefix;
    assert StartsWith(w + rest, w) by { assert (w + rest)[..|w|] == w; }
    StartsWithCommonPrefix(w, rest, "kube-apiserver");
    StartsWithCommonPrefix(w, rest, "kube-controller-manager");
    StartsWithCommonPrefix(w, rest, "kube-scheduler");
    StartsWithCommonPrefix(w, rest, "etcd");
  }

  /** A namespace outside "openshift-", or under one of the control-plane prefixes, is never mutated. */
  lemma NotAllowedOutsideOpenshift(namespace: string, k: nat)
    requires !StartsWith(namespace, OpenshiftPrefix) || (k < |ExcludedPrefixes| && StartsWith(namespace, ExcludedPrefixes[k]))
    ensures !AllowedNameSpace(namespace)
  {
    if StartsWith(namespace, OpenshiftPrefix) {
      assert ExcludedPrefixes[k] in ExcludedPrefixes;
    }
  }
}
