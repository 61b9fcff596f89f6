/**
 * The data-access collaborator, as an immutable snapshot of cluster state. Every read
 * either succeeds or reports an error; `failing` names the operations whose backend fails.
 * A get by name of an entity that is not in the snapshot reports NotFound, as the
 * lister-backed accessor does.
 */
module Accessor {
  import opened Wrappers
  import opened Api

  datatype Snapshot = Snapshot(
    pods: seq<Pod>,
    pvs: seq<PersistentVolume>,
    claims: seq<PersistentVolumeClaim>,
    nodes: seq<Node>,
    failing: set<Op>)

  /** The API server keeps a claim reference on every Bound volume. */
  predicate BoundVolumesHaveClaimRef(s: Snapshot)
  {
    forall pv | pv in s.pvs :: pv.phase == VolumeBound ==> pv.claimRef.Some?
  }

  /** Snapshots the engine can be given: a Bound volume without a claim reference would be dereferenced as nil. */
  type Cluster = s: Snapshot | BoundVolumesHaveClaimRef(s) witness Snapshot([], [], [], [], {})

  /** The pod fields pods are selected by: the lister's namespace, or the node a pod is scheduled on. */
  datatype PodField = InNamespace | OnNode

  function FieldOf(p: Pod, f: PodField): string
  {
    match f
    case InNamespace => p.namespace
    case OnNode => p.nodeName
  }

  /** The pods whose field `f` equals `value`, in listing order. */
  function PodsWith(pods: seq<Pod>, f: PodField, value: string): (r: seq<Pod>)
    ensures forall p :: p in r <==> p in pods && FieldOf(p, f) == value
  {
    if |pods| == 0 then []
    else PodsWith(pods[..|pods| - 1], f, value)
         + (if FieldOf(pods[|pods| - 1], f) == value then [pods[|pods| - 1]] else [])
  }

  lemma {:induction false} PodsWithConcat(a: seq<Pod>, b: seq<Pod>, f: PodField, value: string)
    ensures PodsWith(a + b, f, value) == PodsWith(a, f, value) + PodsWith(b, f, value)
    decreases |b|
  {
    if |b| == 0 {
      assert a + b == a;
    } else {
      var b', last := b[..|b| - 1], b[|b| - 1];
      var tail := if FieldOf(last, f) == value then [last] else [];
      assert (a + b)[..|a + b| - 1] == a + b';
      assert (a + b)[|a + b| - 1] == last;
      PodsWithConcat(a, b', f, value);
      assert PodsWith(a + b, f, value) == PodsWith(a + b', f, value) + tail;
      assert PodsWith(b, f, value) == PodsWith(b', f, value) + tail;
    }
  }

  lemma PodsWithCons(p: Pod, rest: seq<Pod>, f: PodField, value: string)
    ensures PodsWith([p] + rest, f, value)
            == (if FieldOf(p, f) == value then [p] else []) + PodsWith(rest, f, value)
  {
    PodsWithConcat([p], rest, f, value);
    assert [p][..0] == [];
  }

  function FindPersistentVolume(pvs: seq<PersistentVolume>, name: string): (r: Option<PersistentVolume>)
    ensures r.Some? ==> r.value in pvs && r.value.name == name
    ensures r.None? ==> forall pv | pv in pvs :: pv.name != name
  {
    if |pvs| == 0 then None
    else if pvs[0].name == name then Some(pvs[0])
    else FindPersistentVolume(pvs[1..], name)
  }

  function FindClaim(claims: seq<PersistentVolumeClaim>, namespace: string, name: string): (r: Option<PersistentVolumeClaim>)
    ensures r.Some? ==> r.value in claims && r.value.namespace == namespace && r.value.name == name
    ensures r.None? ==> forall c | c in claims :: c.namespace != namespace || c.name != name
  {
    if |claims| == 0 then None
    else if claims[0].namespace == namespace && claims[0].name == name then Some(claims[0])
    else FindClaim(claims[1..], namespace, name)
  }

  function FindNode(nodes: seq<Node>, name: string): (r: Option<Node>)
    ensures r.Some? ==> r.value in nodes && r.value.name == name
    ensures r.None? ==> forall n | n in nodes :: n.name != name
  {
    if |nodes| == 0 then None
    else if nodes[0].name == name then Some(nodes[0])
    else FindNode(nodes[1..], name)
  }

  function GetAllPods(s: Snapshot): Result<seq<Pod>, Error>
  {
    if ListPods in s.failing then Err(Backend(ListPods)) else Ok(s.pods)
  }

  function GetPodsInNamespace(s: Snapshot, namespace: string): Result<seq<Pod>, Error>
  {
    if ListNamespacePods in s.failing then Err(Backend(ListNamespacePods)) else Ok(PodsWith(s.pods, InNamespace, namespace))
  }

  function GetPersistentVolume(s: Snapshot, name: string): (r: Result<PersistentVolume, Error>)
    ensures r.Ok? ==> r.value in s.pvs && r.value.name == name
    ensures r.Ok? <==> FetchVolume !in s.failing && exists pv | pv in s.pvs :: pv.name == name
    ensures FetchVolume in s.failing ==> r == Err(Backend(FetchVolume))
    ensures r.Err? && FetchVolume !in s.failing ==> r.error == NotFound("persistentvolume", name)
  {
    if FetchVolume in s.failing then Err(Backend(FetchVolume))
    else match FindPersistentVolume(s.pvs, name)
      case None => Err(NotFound("persistentvolume", name))
      case Some(pv) => Ok(pv)
  }

  function GetAllPersistentVolume(s: Snapshot): Result<seq<PersistentVolume>, Error>
  {
    if ListVolumes in s.failing then Err(Backend(ListVolumes)) else Ok(s.pvs)
  }

  function GetPersistentVolumeClaim(s: Snapshot, namespace: string, name: string): (r: Result<PersistentVolumeClaim, Error>)
    ensures r.Ok? ==> r.value in s.claims && r.value.namespace == namespace && r.value.name == name
    ensures r.Ok? <==> FetchClaim !in s.failing && exists c | c in s.claims :: c.namespace == namespace && c.name == name
    ensures FetchClaim in s.failing ==> r == Err(Backend(FetchClaim))
    ensures r.Err? && FetchClaim !in s.failing ==> r.error == NotFound("persistentvolumeclaim", namespace + "/" + name)
  {
    if FetchClaim in s.failing then Err(Backend(FetchClaim))
    else match FindClaim(s.claims, namespace, name)
      case None => Err(NotFound("persistentvolumeclaim", namespace + "/" + name))
      case Some(c) => Ok(c)
  }

  function GetNode(s: Snapshot, name: string): (r: Result<Node, Error>)
    ensures r.Ok? ==> r.value in s.nodes && r.value.name == name
    ensures r.Ok? <==> FetchNode !in s.failing && exists n | n in s.nodes :: n.name == name
    ensures FetchNode in s.failing ==> r == Err(Backend(FetchNode))
    ensures r.Err? && FetchNode !in s.failing ==> r.error == NotFound("node", name)
  {
    if FetchNode in s.failing then Err(Backend(FetchNode))
    else match FindNode(s.nodes, name)
      case None => Err(NotFound("node", name))
      case Some(n) => Ok(n)
  }
}
