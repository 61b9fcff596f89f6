/**
 * The Kubernetes objects the admission engine reads, reduced to the fields it uses,
 * the extender request and response records, the option record, and the library
 * behaviour that the model treats as given (quantity parsing, selector matching,
 * node-affinity checks and feature gates).
 */
module Api {
  import opened Wrappers

  /** A resource quantity, in milli-units (milli-cores for cpu, milli-bytes for memory and storage). */
  type Quantity = int

  datatype Resource = Cpu | Memory

  /** A container, reduced to its cpu and memory requests (an absent request is zero). */
  datatype Container = Container(cpuRequest: Quantity, memRequest: Quantity)

  function Request(c: Container, k: Resource): Quantity
  {
    match k
    case Cpu => c.cpuRequest
    case Memory => c.memRequest
  }

  /** A pod volume; `claimName` is present exactly when its source is a persistent volume claim. */
  datatype Volume = Volume(name: string, claimName: Option<string>)

  /** A pod; `nodeName` is empty while the pod is not scheduled. */
  datatype Pod = Pod(
    namespace: string,
    name: string,
    nodeName: string,
    containers: seq<Container>,
    volumes: seq<Volume>)

  datatype Node = Node(name: string, labels: map<string, string>, allocatableCpu: Quantity, allocatableMem: Quantity)

  datatype NodeList = NodeList(items: seq<Node>)

  /** Node selector terms and label selectors are opaque to the model; `Env` interprets them. */
  datatype NodeSelectorTerm = NodeSelectorTerm(expression: string)

  datatype LabelSelector = LabelSelector(expression: string)

  datatype AccessMode = ReadWriteOnce | ReadOnlyMany | ReadWriteMany

  datatype VolumeMode = Block | Filesystem

  datatype VolumePhase = VolumePending | VolumeAvailable | VolumeBound | VolumeReleased | VolumeFailed

  datatype ObjectReference = ObjectReference(namespace: string, name: string, uid: string)

  /**
   * A persistent volume. `local` stands for a non-nil `Spec.Local`; `nodeSelectorTerms` is
   * present exactly when `Spec.NodeAffinity.Required.NodeSelectorTerms` is reachable and non-nil;
   * `storageClass` is the class the class getter reports.
   */
  datatype PersistentVolume = PersistentVolume(
    name: string,
    labels: map<string, string>,
    annotations: map<string, string>,
    deletionTimestampSet: bool,
    local: bool,
    nodeSelectorTerms: Option<seq<NodeSelectorTerm>>,
    capacity: Quantity,
    accessModes: seq<AccessMode>,
    storageClass: string,
    volumeMode: Option<VolumeMode>,
    claimRef: Option<ObjectReference>,
    phase: VolumePhase)

  /** A claim; `volumeName` is empty while the claim is unbound. */
  datatype PersistentVolumeClaim = PersistentVolumeClaim(
    namespace: string,
    name: string,
    uid: string,
    requestedStorage: Quantity,
    accessModes: seq<AccessMode>,
    selector: Option<LabelSelector>,
    storageClass: string,
    volumeMode: Option<VolumeMode>,
    volumeName: string)

  /** The extender request: `None` stands for a nil pointer or a nil slice. */
  datatype ExtenderArgs = ExtenderArgs(pod: Option<Pod>, nodes: Option<NodeList>, nodeNames: Option<seq<string>>)

  datatype ExtenderFilterResult = ExtenderFilterResult(
    nodes: Option<NodeList>,
    nodeNames: seq<string>,
    failedNodes: map<string, string>,
    error: string)

  /** The options the predicate handler reads. */
  datatype OptionConfig = OptionConfig(
    listenPort: int,
    reservedCpuAnnoKey: string,
    reservedMemAnnoKey: string,
    considerUnboundLocalPV: bool)

  /**
   * Library behaviour whose source is not part of this model:
   * - `parseQuantity`: resource.ParseQuantity, `None` on a malformed value;
   * - `nodeMatchesTerms`: matching a node against node selector terms;
   * - `volumeNodeAffinityMatches`: CheckNodeAffinity of a volume against node labels succeeding;
   * - `labelSelectorValid`, `labelSelectorMatches`: converting and applying a claim's label selector;
   * - the BlockVolume and StorageObjectInUseProtection feature gates.
   */
  datatype Env = Env(
    parseQuantity: string -> Option<Quantity>,
    nodeMatchesTerms: (Node, seq<NodeSelectorTerm>) -> bool,
    volumeNodeAffinityMatches: (PersistentVolume, map<string, string>) -> bool,
    labelSelectorValid: LabelSelector -> bool,
    labelSelectorMatches: (LabelSelector, map<string, string>) -> bool,
    blockVolumeGate: bool,
    storageObjectInUseProtectionGate: bool)

  /** The read operations of the data-access collaborator. */
  datatype Op = ListPods | ListNamespacePods | FetchVolume | ListVolumes | FetchClaim | FetchNode

  datatype Error =
    | NotFound(kind: string, name: string)
    | Backend(op: Op)
    | MalformedQuantity(key: string, value: string)
    | MalformedSelector(namespace: string, name: string)
    | VolumeModeDefaultingFailed
    | ListPodsFailed(node: string, cause: Error)
    | NodeFetchFailed(node: string, cause: Error)
    | PredicateFailed(pod: string, node: string, cause: Error)
}
