/**
 * The admission decision of the predicate handler: one node for one pod (the claimed-volume
 * branch and the node-remainder branch), and the batch over all candidate nodes.
 */
module Handler {
  import opened Wrappers
  import opened Api
  import opened Accessor
  import opened PredicateHelpers
  import opened HandlerVolumes
  import opened Seqs

  /** The answer to a request without candidate nodes. */
  const EmptyFilterResult: ExtenderFilterResult := ExtenderFilterResult(None, [], map[], "")

  // ---------------------------------------------------------------------------
  // Per-volume outcomes

  /** A volume whose remaining reservation cannot be computed (pod listing failed), and is not skipped. */
  predicate VolumeErrs(h: PredicateHandler, node: Node, pv: PersistentVolume)
  {
    var r := Remaining(h, pv, node.name);
    !r.canSkip && r.err.Some?
  }

  /** Some volume of the map errs. */
  predicate SomeVolumeErrs(h: PredicateHandler, node: Node, m: map<string, PersistentVolume>)
  {
    exists k | k in m :: VolumeErrs(h, node, m[k])
  }

  /** A claimed volume lets the pod through: it is skipped, or each configured remainder covers the pod. */
  predicate ClaimedPasses(h: PredicateHandler, pod: Pod, node: Node, pv: PersistentVolume)
  {
    var r := Remaining(h, pv, node.name);
    r.canSkip
    || (r.err.None?
        && (r.cpuConfigured ==> PodSubtraction(r.cpu, pod.containers, Cpu).1)
        && (r.memConfigured ==> PodSubtraction(r.mem, pod.containers, Memory).1))
  }

  function CpuShortReason(pv: PersistentVolume): string
  {
    "reserved cpu of local persistent volume " + pv.name + " is not enough"
  }

  function MemShortReason(pv: PersistentVolume): string
  {
    "reserved memory of local persistent volume " + pv.name + " is not enough"
  }

  /** A claimed volume turns the pod away with `reason`: cpu is checked first, then memory. */
  predicate ClaimedFails(h: PredicateHandler, pod: Pod, node: Node, pv: PersistentVolume, reason: string)
  {
    var r := Remaining(h, pv, node.name);
    var cpuShort := r.cpuConfigured && !PodSubtraction(r.cpu, pod.containers, Cpu).1;
    var memShort := r.memConfigured && !PodSubtraction(r.mem, pod.containers, Memory).1;
    !r.canSkip && r.err.None?
    && ((cpuShort && reason == CpuShortReason(pv)) || (!cpuShort && memShort && reason == MemShortReason(pv)))
  }

  // ---------------------------------------------------------------------------
  // Branch A: the pod claims reservation-bearing volumes on the node

  method CheckClaimedVolumes(h: PredicateHandler, pod: Pod, node: Node, podPVs: map<string, PersistentVolume>)
    returns (fit: bool, reason: string, err: Option<Error>)
    ensures fit ==> err.None? && reason == ""
    ensures err.None? ==> (fit <==> forall k | k in podPVs :: ClaimedPasses(h, pod, node, podPVs[k]))
    ensures !fit && err.None? ==> exists k | k in podPVs :: ClaimedFails(h, pod, node, podPVs[k], reason)
    ensures err.Some? ==> SomeVolumeErrs(h, node, podPVs)
    ensures SomeVolumeErrs(h, node, podPVs)
            && (forall k | k in podPVs :: ClaimedPasses(h, pod, node, podPVs[k]) || VolumeErrs(h, node, podPVs[k]))
            ==> err.Some?
  {
    var rest := podPVs.Keys;
    while rest != {}
      invariant rest <= podPVs.Keys
      invariant forall k | k in podPVs.Keys - rest :: ClaimedPasses(h, pod, node, podPVs[k])
      decreases |rest|
    {
      var name :| name in rest;
      rest := rest - {name};
      var pv := podPVs[name];
      var r := RemainReservedResources(h, pv, node.name);
      if r.canSkip {
        continue;
      }
      if r.err.Some? {
        return false, "", r.err;
      }
      if r.cpuConfigured {
        var remainedCpu, enough := SubPodCpuRequest(r.cpu, pod);
        if !enough {
          return false, CpuShortReason(pv), None;
        }
      }
      if r.memConfigured {
        var remainedMem, enough := SubPodMemRequest(r.mem, pod);
        if !enough {
          return false, MemShortReason(pv), None;
        }
      }
    }
    return true, "", None;
  }

  // ---------------------------------------------------------------------------
  // Branch B: the pod claims none of them; count every reservation on the node

  /** The volumes whose reservations are held back: the bound ones, and the unbound ones when they are considered. */
  function Merged(h: PredicateHandler, bound: map<string, PersistentVolume>, unbound: map<string, PersistentVolume>)
    : map<string, PersistentVolume>
  {
    if h.cfg.considerUnboundLocalPV then bound + unbound else bound
  }

  /** What one volume holds back of a resource: its configured remainder, unless it is skipped or errs. */
  function Contribution(h: PredicateHandler, node: Node, pv: PersistentVolume, k: Resource): Quantity
  {
    var r := Remaining(h, pv, node.name);
    if r.canSkip || r.err.Some? then 0
    else match k
      case Cpu => if r.cpuConfigured then r.cpu else 0
      case Memory => if r.memConfigured then r.mem else 0
  }

  /** The total held back by the volumes under `keys`, in no particular order. */
  ghost function Held(h: PredicateHandler, node: Node, pvs: map<string, PersistentVolume>, keys: set<string>, k: Resource): Quantity
    requires keys <= pvs.Keys
    decreases keys
  {
    if keys == {} then 0
    else
      var x :| x in keys;
      Contribution(h, node, pvs[x], k) + Held(h, node, pvs, keys - {x}, k)
  }

  /** The total does not depend on which volume is taken first. */
  lemma {:induction false} HeldPick(h: PredicateHandler, node: Node, pvs: map<string, PersistentVolume>, keys: set<string>,
                                    y: string, k: Resource)
    requires keys <= pvs.Keys && y in keys
    ensures Held(h, node, pvs, keys, k) == Contribution(h, node, pvs[y], k) + Held(h, node, pvs, keys - {y}, k)
    decreases keys
  {
    var x :| x in keys && Held(h, node, pvs, keys, k) == Contribution(h, node, pvs[x], k) + Held(h, node, pvs, keys - {x}, k);
    if x != y {
      HeldPick(h, node, pvs, keys - {x}, y, k);
      HeldPick(h, node, pvs, keys - {y}, x, k);
      assert keys - {x} - {y} == keys - {y} - {x};
    }
  }

  /** Both of the pod's requests can be met from `cpu` and `mem`. */
  predicate PodFitsIn(cpu: Quantity, mem: Quantity, pod: Pod)
  {
    PodSubtraction(cpu, pod.containers, Cpu).1 && PodSubtraction(mem, pod.containers, Memory).1
  }

  /** The reasons the remainder check gives. */
  const CpuShortfall := "cpu not enough after reserving for local persistent volume"
  const MemShortfall := "memory not enough after reserving for local persistent volume"

  /** The reason given when the pod does not fit: the cpu shortfall is reported before the memory one. */
  function ShortfallReason(cpu: Quantity, pod: Pod): string
  {
    if !PodSubtraction(cpu, pod.containers, Cpu).1
    then CpuShortfall
    else MemShortfall
  }

  /** The pod's requests, checked against what is left of the node after the held-back reservations. */
  ghost predicate RemainderFits(h: PredicateHandler, pod: Pod, node: Node, all: map<string, PersistentVolume>, a: (Quantity, Quantity))
  {
    PodFitsIn(a.0 - Held(h, node, all, all.Keys, Cpu), a.1 - Held(h, node, all, all.Keys, Memory), pod)
  }

  ghost function RemainderReason(h: PredicateHandler, pod: Pod, node: Node, all: map<string, PersistentVolume>, a: (Quantity, Quantity)): string
  {
    ShortfallReason(a.0 - Held(h, node, all, all.Keys, Cpu), pod)
  }

  /**
   * The remainder check, stated on the quantities left after the reservations.
   * This lemma and the next only unfold definitions. They are separate lemmas so that `CheckRemainder`
   * does not unfold `Held` and the shortfall reasons in its own, larger context.
   */
  lemma RemainderFitsIs(h: PredicateHandler, pod: Pod, node: Node, all: map<string, PersistentVolume>, a: (Quantity, Quantity),
                        cpu: Quantity, mem: Quantity)
    requires cpu == a.0 - Held(h, node, all, all.Keys, Cpu) && mem == a.1 - Held(h, node, all, all.Keys, Memory)
    ensures RemainderFits(h, pod, node, all, a) == PodFitsIn(cpu, mem, pod)
  {
  }

  /** The reason for a failed remainder check, stated on the cpu left after the reservations. */
  lemma RemainderReasonIs(h: PredicateHandler, pod: Pod, node: Node, all: map<string, PersistentVolume>, a: (Quantity, Quantity),
                          cpu: Quantity)
    requires cpu == a.0 - Held(h, node, all, all.Keys, Cpu)
    ensures RemainderReason(h, pod, node, all, a) == ShortfallReason(cpu, pod)
  {
    var left := a.0 - Held(h, node, all, all.Keys, Cpu);
    assert RemainderReason(h, pod, node, all, a) == ShortfallReason(left, pod);
  }

  /** Checks the pod's cpu request, then its memory request, against what is left. */
  method CheckPodRequests(cpu: Quantity, mem: Quantity, pod: Pod) returns (fit: bool, reason: string)
    ensures fit <==> PodFitsIn(cpu, mem, pod)
    ensures fit ==> reason == ""
    ensures !fit ==> reason == ShortfallReason(cpu, pod)
  {
    var remainedCpu, cpuEnough := SubPodCpuRequest(cpu, pod);
    if !cpuEnough {
      return false, CpuShortfall;
    }
    var remainedMem, memEnough := SubPodMemRequest(mem, pod);
    if !memEnough {
      return false, MemShortfall;
    }
    return true, "";
  }

  method MergeUnbound<V>(pvs: map<string, V>, unbound: map<string, V>) returns (all: map<string, V>)
    ensures all == pvs + unbound
  {
    all := pvs;
    var rest := unbound.Keys;
    while rest != {}
      invariant rest <= unbound.Keys
      invariant all.Keys == pvs.Keys + (unbound.Keys - rest)
      invariant forall k | k in all :: all[k] == if k in unbound.Keys - rest then unbound[k] else pvs[k]
      decreases |rest|
    {
      var name :| name in rest;
      all := all[name := unbound[name]];
      rest := rest - {name};
    }
  }

  /** Subtracts what one volume holds back, or reports its error. */
  method ReserveOne(h: PredicateHandler, node: Node, pv: PersistentVolume, cpu: Quantity, mem: Quantity)
    returns (cpuLeft: Quantity, memLeft: Quantity, err: Option<Error>)
    ensures err.Some? <==> VolumeErrs(h, node, pv)
    ensures err.None? ==> cpuLeft == cpu - Contribution(h, node, pv, Cpu) && memLeft == mem - Contribution(h, node, pv, Memory)
  {
    cpuLeft, memLeft := cpu, mem;
    var r := RemainReservedResources(h, pv, node.name);
    if r.canSkip {
      return cpuLeft, memLeft, None;
    }
    if r.err.Some? {
      return cpuLeft, memLeft, r.err;
    }
    if r.cpuConfigured {
      cpuLeft := cpuLeft - r.cpu;
    }
    if r.memConfigured {
      memLeft := memLeft - r.mem;
    }
    err := None;
  }

  /** Taking one more volume into the total: the total grows by that volume's contribution. */
  lemma HeldStep(h: PredicateHandler, node: Node, all: map<string, PersistentVolume>, rest: set<string>, name: string, k: Resource)
    requires rest <= all.Keys && name in rest
    ensures Held(h, node, all, all.Keys - (rest - {name}), k)
            == Contribution(h, node, all[name], k) + Held(h, node, all, all.Keys - rest, k)
  {
    var done := all.Keys - (rest - {name});
    assert done - {name} == all.Keys - rest;
    HeldPick(h, node, all, done, name, k);
  }

  /** The loop over the volumes on the node: take each configured remainder off what is available. */
  method SubtractReservations(h: PredicateHandler, node: Node, all: map<string, PersistentVolume>, cpu: Quantity, mem: Quantity)
    returns (availableNodeCpu: Quantity, availableNodeMem: Quantity, err: Option<Error>)
    ensures err.Some? <==> SomeVolumeErrs(h, node, all)
    ensures err.None? ==> availableNodeCpu == cpu - Held(h, node, all, all.Keys, Cpu)
                          && availableNodeMem == mem - Held(h, node, all, all.Keys, Memory)
  {
    availableNodeCpu, availableNodeMem := cpu, mem;
    var rest := all.Keys;
    while rest != {}
      invariant rest <= all.Keys
      invariant forall k | k in all.Keys - rest :: !VolumeErrs(h, node, all[k])
      invariant availableNodeCpu == cpu - Held(h, node, all, all.Keys - rest, Cpu)
      invariant availableNodeMem == mem - Held(h, node, all, all.Keys - rest, Memory)
      decreases |rest|
    {
      var name :| name in rest;
      HeldStep(h, node, all, rest, name, Cpu);
      HeldStep(h, node, all, rest, name, Memory);
      rest := rest - {name};
      var stepErr;
      availableNodeCpu, availableNodeMem, stepErr := ReserveOne(h, node, all[name], availableNodeCpu, availableNodeMem);
      if stepErr.Some? {
        return availableNodeCpu, availableNodeMem, stepErr;
      }
    }
    assert all.Keys - rest == all.Keys;
    err := None;
  }

  /** What is left of the node after the reservations, checked against the pod's requests. */
  method CheckRemainder(h: PredicateHandler, pod: Pod, node: Node, all: map<string, PersistentVolume>, a: (Quantity, Quantity))
    returns (fit: bool, reason: string, err: Option<Error>)
    ensures fit ==> err.None? && reason == ""
    ensures err.Some? <==> SomeVolumeErrs(h, node, all)
    ensures err.None? ==> (fit <==> RemainderFits(h, pod, node, all, a))
                          && (!fit ==> reason == RemainderReason(h, pod, node, all, a))
  {
    var availableNodeCpu, availableNodeMem, subtractErr := SubtractReservations(h, node, all, a.0, a.1);
    if subtractErr.Some? {
      return false, "", subtractErr;
    }
    RemainderFitsIs(h, pod, node, all, a, availableNodeCpu, availableNodeMem);
    RemainderReasonIs(h, pod, node, all, a, availableNodeCpu);
    fit, reason := CheckPodRequests(availableNodeCpu, availableNodeMem, pod);
    err := None;
  }

  method CheckNodeRemainder(h: PredicateHandler, pod: Pod, node: Node, pvs: map<string, PersistentVolume>,
                            unboundPvs: map<string, PersistentVolume>)
    returns (fit: bool, reason: string, err: Option<Error>)
    ensures fit ==> err.None? && reason == ""
    ensures err.Some? <==> Available(h, node).Err? || SomeVolumeErrs(h, node, Merged(h, pvs, unboundPvs))
    ensures err.None? ==> Available(h, node).Ok?
                          && (fit <==> RemainderFits(h, pod, node, Merged(h, pvs, unboundPvs), Available(h, node).value))
                          && (!fit ==> reason == RemainderReason(h, pod, node, Merged(h, pvs, unboundPvs), Available(h, node).value))
  {
    var available := AvailableResource(h, node);
    if available.Err? {
      return false, "", Some(available.error);
    }
    var all := pvs;
    if h.cfg.considerUnboundLocalPV {
      all := MergeUnbound(pvs, unboundPvs);
    }
    assert all == Merged(h, pvs, unboundPvs);
    fit, reason, err := CheckRemainder(h, pod, node, all, available.value);
  }

  // ---------------------------------------------------------------------------
  // predicateOneNode

  /** The admission decision for one node, in the absence of errors. */
  ghost predicate Fits(h: PredicateHandler, pod: Pod, node: Node)
  {
    match LocalVolumesOnNode(h, node)
    case Err(_) => false
    case Ok(split) =>
      match PodPVs(h, pod.namespace, PvcVolumes(pod.volumes), split.0, split.1)
      case Err(_) => false
      case Ok(podPVs) =>
        if |podPVs| > 0 then
          forall k | k in podPVs :: ClaimedPasses(h, pod, node, podPVs[k])
        else
          var all := Merged(h, split.0, split.1);
          match Available(h, node)
          case Err(_) => false
          case Ok(a) => !SomeVolumeErrs(h, node, all) && RemainderFits(h, pod, node, all, a)
  }

  /**
   * Asking for more never turns an unfit node into a fit one: a pod whose every container requests
   * at least as much cpu and memory fits only where the original pod fits.
   */
  lemma FitsMonotone(h: PredicateHandler, node: Node, pod: Pod, pod': Pod)
    requires pod'.namespace == pod.namespace && pod'.volumes == pod.volumes
    requires |pod'.containers| == |pod.containers|
    requires forall i :: 0 <= i < |pod.containers| ==>
               pod'.containers[i].cpuRequest >= pod.containers[i].cpuRequest
               && pod'.containers[i].memRequest >= pod.containers[i].memRequest
    ensures Fits(h, pod', node) ==> Fits(h, pod, node)
  {
    forall from: Quantity, k: Resource ensures PodSubtraction(from, pod'.containers, k).1 ==> PodSubtraction(from, pod.containers, k).1 {
      PodSubtractionMonotone(from, from, pod.containers, pod'.containers, k);
    }
  }

  /** Some read on the way to the decision for this node can fail. */
  ghost predicate MayErr(h: PredicateHandler, pod: Pod, node: Node)
  {
    match LocalVolumesOnNode(h, node)
    case Err(_) => true
    case Ok(split) =>
      match PodPVs(h, pod.namespace, PvcVolumes(pod.volumes), split.0, split.1)
      case Err(_) => true
      case Ok(podPVs) =>
        if |podPVs| > 0 then
          SomeVolumeErrs(h, node, podPVs)
        else
          var all := Merged(h, split.0, split.1);
          Available(h, node).Err? || SomeVolumeErrs(h, node, all)
  }

  /** The reasons an unfit node can be given. */
  ghost predicate ValidReason(h: PredicateHandler, pod: Pod, node: Node, reason: string)
  {
    match LocalVolumesOnNode(h, node)
    case Err(_) => false
    case Ok(split) =>
      match PodPVs(h, pod.namespace, PvcVolumes(pod.volumes), split.0, split.1)
      case Err(_) => false
      case Ok(podPVs) =>
        if |podPVs| > 0 then
          exists k | k in podPVs :: ClaimedFails(h, pod, node, podPVs[k], reason)
        else
          Available(h, node).Ok?
          && reason == RemainderReason(h, pod, node, Merged(h, split.0, split.1), Available(h, node).value)
  }

  method PredicateOneNode(h: PredicateHandler, node: Node, pod: Pod) returns (fit: bool, reason: string, err: Option<Error>)
    ensures fit ==> err.None? && reason == ""
    ensures err.None? ==> (fit <==> Fits(h, pod, node))
    ensures err.Some? ==> MayErr(h, pod, node)
    ensures !MayErr(h, pod, node) ==> err.None?
    ensures !fit && err.None? ==> ValidReason(h, pod, node, reason)
  {
    var split := GetReservedResourceLocalPVOnNode(h, node);
    if split.Err? {
      return false, "", Some(split.error);
    }
    var pvs, unboundPvs := split.value.0, split.value.1;
    SplitOnNodeSpec(h, node, h.accessor.pvs);
    var podPVsResult := LocalPersistentVolumeOnPodOnNode(h, pod, pvs, unboundPvs);
    if podPVsResult.Err? {
      return false, "", Some(podPVsResult.error);
    }
    var podPVs := podPVsResult.value;
    if |podPVs| > 0 {
      fit, reason, err := CheckClaimedVolumes(h, pod, node, podPVs);
    } else {
      fit, reason, err := CheckNodeRemainder(h, pod, node, pvs, unboundPvs);
    }
  }

  // ---------------------------------------------------------------------------
  // predicate

  /** A candidate name whose node can be fetched and fits. */
  ghost function FitsAt(h: PredicateHandler, pod: Pod): string -> bool
  {
    n => GetNode(h.accessor, n).Ok? && Fits(h, pod, GetNode(h.accessor, n).value)
  }

  /** A candidate name whose node can be fetched. */
  ghost function Fetched(h: PredicateHandler): string -> bool
  {
    n => GetNode(h.accessor, n).Ok?
  }

  /** A reason that is valid for the named node. */
  ghost function ReasonAt(h: PredicateHandler, pod: Pod): (string, string) -> bool
  {
    (n, reason) => GetNode(h.accessor, n).Ok? && ValidReason(h, pod, GetNode(h.accessor, n).value, reason)
  }

  /** The candidate names whose node can be fetched and fits, in order. */
  ghost function FitNames(h: PredicateHandler, pod: Pod, names: seq<string>): seq<string>
  {
    Filter(FitsAt(h, pod), names)
  }

  /** The fitting names are kept in their order, and they are exactly the fetchable names whose node fits. */
  lemma FitNamesSelects(h: PredicateHandler, pod: Pod, names: seq<string>)
    ensures Subsequence(FitNames(h, pod, names), names)
    ensures forall n :: n in FitNames(h, pod, names) <==>
                        n in names && GetNode(h.accessor, n).Ok? && Fits(h, pod, GetNode(h.accessor, n).value)
  {
    FilterSelects(FitsAt(h, pod), names);
  }

  /** What a finished scan of the candidates records, stated in the handler's terms. */
  lemma TallyMeans(h: PredicateHandler, pod: Pod, names: seq<string>, fit: seq<string>, failed: map<string, string>)
    requires Tally(FitsAt(h, pod), Fetched(h), ReasonAt(h, pod), names, fit, failed)
    ensures fit == FitNames(h, pod, names)
    ensures forall n | n in names :: GetNode(h.accessor, n).Ok?
    ensures forall n :: n in failed <==>
              n in names && GetNode(h.accessor, n).Ok? && !Fits(h, pod, GetNode(h.accessor, n).value)
    ensures forall n | n in failed ::
              GetNode(h.accessor, n).Ok? && ValidReason(h, pod, GetNode(h.accessor, n).value, failed[n])
  {
    forall n | n in names ensures Fetched(h)(n) {}
    forall n | n in failed ensures ReasonAt(h, pod)(n, failed[n]) {}
  }

  method Predicate(h: PredicateHandler, nodeNames: seq<string>, pod: Pod) returns (r: Result<ExtenderFilterResult, Error>)
    ensures |nodeNames| == 0 ==> r == Ok(EmptyFilterResult)
    ensures r.Ok? ==> r.value.nodes.None? && r.value.error == "" && r.value.nodeNames == FitNames(h, pod, nodeNames)
    ensures r.Ok? ==> forall n | n in nodeNames :: GetNode(h.accessor, n).Ok?
    ensures r.Ok? ==> forall n :: n in r.value.failedNodes <==>
                        n in nodeNames && GetNode(h.accessor, n).Ok? && !Fits(h, pod, GetNode(h.accessor, n).value)
    ensures r.Ok? ==> forall n | n in r.value.failedNodes ::
                        GetNode(h.accessor, n).Ok? && ValidReason(h, pod, GetNode(h.accessor, n).value, r.value.failedNodes[n])
    ensures r.Err? ==>
      (r.error.NodeFetchFailed? && r.error.node in nodeNames && GetNode(h.accessor, r.error.node).Err?)
      || (r.error.PredicateFailed? && r.error.pod == pod.name && r.error.node in nodeNames
          && GetNode(h.accessor, r.error.node).Ok? && MayErr(h, pod, GetNode(h.accessor, r.error.node).value))
    ensures (forall n | n in nodeNames :: GetNode(h.accessor, n).Ok? && !MayErr(h, pod, GetNode(h.accessor, n).value)) ==> r.Ok?
  {
    if |nodeNames| == 0 {
      return Ok(EmptyFilterResult);
    }
    var fitNodeNames: seq<string> := [];
    var failedNodesMap: map<string, string> := map[];
    for i := 0 to |nodeNames|
      invariant Tally(FitsAt(h, pod), Fetched(h), ReasonAt(h, pod), nodeNames[..i], fitNodeNames, failedNodesMap)
    {
      var nodeName := nodeNames[i];
      PrefixStep(nodeNames, i);
      var got := GetNode(h.accessor, nodeName);
      if got.Err? {
        return Err(NodeFetchFailed(nodeName, got.error));
      }
      var fit, reason, err := PredicateOneNode(h, got.value, pod);
      if err.Some? {
        return Err(PredicateFailed(pod.name, nodeName, err.value));
      }
      assert fit == FitsAt(h, pod)(nodeName);
      TallyStep(FitsAt(h, pod), Fetched(h), ReasonAt(h, pod), nodeNames[..i], fitNodeNames, failedNodesMap, nodeName, reason);
      if fit {
        fitNodeNames := fitNodeNames + [nodeName];
      } else {
        failedNodesMap := failedNodesMap[nodeName := reason];
      }
    }
    assert nodeNames[..|nodeNames|] == nodeNames;
    TallyMeans(h, pod, nodeNames, fitNodeNames, failedNodesMap);
    return Ok(ExtenderFilterResult(None, fitNodeNames, failedNodesMap, ""));
  }
}
