/**
 * The volume-side queries of the predicate handler: which reservation-bearing volumes lie on a
 * node, which pods use a volume there, which of the volumes a pod claims, what is left of a
 * volume's reservation, and what is left of a node's allocatable resources.
 */
module HandlerVolumes {
  import opened Wrappers
  import opened Api
  import opened Accessor
  import opened PredicateHelpers
  import opened Unbound
  import opened Seqs

  /** The handler: its options, its data-access collaborator and the library behaviour it relies on. */
  datatype PredicateHandler = PredicateHandler(cfg: OptionConfig, accessor: Cluster, env: Env)

  /** A volume map keyed by volume name, as all the handler's volume maps are. */
  predicate KeyedByName(m: map<string, PersistentVolume>)
  {
    forall k | k in m :: m[k].name == k
  }

  predicate UniqueNames(pvs: seq<PersistentVolume>)
  {
    forall i, j | 0 <= i < j < |pvs| :: pvs[i].name != pvs[j].name
  }

  // ---------------------------------------------------------------------------
  // getReservedResourceLocalPVOnNode

  /** A volume that carries a reservation, has node-affinity terms, and whose terms the node matches. */
  predicate ReservedOnNode(h: PredicateHandler, node: Node, pv: PersistentVolume)
  {
    ConsiderReserveResource(pv, h.cfg.reservedCpuAnnoKey, h.cfg.reservedMemAnnoKey).0
    && pv.nodeSelectorTerms.Some?
    && h.env.nodeMatchesTerms(node, pv.nodeSelectorTerms.value)
  }

  /** The reservation-bearing volumes on a node, split into (bound, not bound), each keyed by name. */
  function SplitOnNode(h: PredicateHandler, node: Node, pvs: seq<PersistentVolume>)
    : (map<string, PersistentVolume>, map<string, PersistentVolume>)
    decreases |pvs|
  {
    if |pvs| == 0 then (map[], map[])
    else
      var (bound, unbound) := SplitOnNode(h, node, pvs[..|pvs| - 1]);
      var pv := pvs[|pvs| - 1];
      var (consider, isBound) := ConsiderReserveResource(pv, h.cfg.reservedCpuAnnoKey, h.cfg.reservedMemAnnoKey);
      if !consider || pv.nodeSelectorTerms.None? || !h.env.nodeMatchesTerms(node, pv.nodeSelectorTerms.value) then
        (bound, unbound)
      else if isBound then (bound[pv.name := pv], unbound)
      else (bound, unbound[pv.name := pv])
  }

  function LocalVolumesOnNode(h: PredicateHandler, node: Node)
    : Result<(map<string, PersistentVolume>, map<string, PersistentVolume>), Error>
  {
    match GetAllPersistentVolume(h.accessor)
    case Err(e) => Err(e)
    case Ok(pvs) => Ok(SplitOnNode(h, node, pvs))
  }

  /** The first map is keyed by name and holds only Bound reservation-bearing volumes on the node. */
  lemma {:induction false} SplitOnNodeBound(h: PredicateHandler, node: Node, pvs: seq<PersistentVolume>)
    ensures forall k | k in SplitOnNode(h, node, pvs).0 ::
              SplitOnNode(h, node, pvs).0[k].name == k && SplitOnNode(h, node, pvs).0[k] in pvs
              && ReservedOnNode(h, node, SplitOnNode(h, node, pvs).0[k]) && SplitOnNode(h, node, pvs).0[k].phase == VolumeBound
    decreases |pvs|
  {
    if |pvs| > 0 {
      var init := pvs[..|pvs| - 1];
      assert pvs == init + [pvs[|pvs| - 1]];
      SplitOnNodeBound(h, node, init);
    }
  }

  /** The second map is keyed by name and holds only the other reservation-bearing volumes on the node. */
  lemma {:induction false} SplitOnNodeUnbound(h: PredicateHandler, node: Node, pvs: seq<PersistentVolume>)
    ensures forall k | k in SplitOnNode(h, node, pvs).1 ::
              SplitOnNode(h, node, pvs).1[k].name == k && SplitOnNode(h, node, pvs).1[k] in pvs
              && ReservedOnNode(h, node, SplitOnNode(h, node, pvs).1[k]) && SplitOnNode(h, node, pvs).1[k].phase != VolumeBound
    decreases |pvs|
  {
    if |pvs| > 0 {
      var init := pvs[..|pvs| - 1];
      assert pvs == init + [pvs[|pvs| - 1]];
      SplitOnNodeUnbound(h, node, init);
    }
  }

  /** Every reservation-bearing volume on the node has its name in the map of its phase. */
  lemma {:induction false} SplitOnNodeComplete(h: PredicateHandler, node: Node, pvs: seq<PersistentVolume>)
    ensures forall pv | pv in pvs && ReservedOnNode(h, node, pv) ::
              if pv.phase == VolumeBound then pv.name in SplitOnNode(h, node, pvs).0 else pv.name in SplitOnNode(h, node, pvs).1
    decreases |pvs|
  {
    if |pvs| > 0 {
      var init := pvs[..|pvs| - 1];
      assert pvs == init + [pvs[|pvs| - 1]];
      SplitOnNodeComplete(h, node, init);
    }
  }

  /**
   * Both maps are keyed by name and hold only reservation-bearing volumes on the node, the first
   * only Bound ones and the second only the others; every such volume has its name in its map.
   */
  lemma SplitOnNodeSpec(h: PredicateHandler, node: Node, pvs: seq<PersistentVolume>)
    ensures KeyedByName(SplitOnNode(h, node, pvs).0) && KeyedByName(SplitOnNode(h, node, pvs).1)
    ensures forall k | k in SplitOnNode(h, node, pvs).0 ::
              SplitOnNode(h, node, pvs).0[k] in pvs && ReservedOnNode(h, node, SplitOnNode(h, node, pvs).0[k])
              && SplitOnNode(h, node, pvs).0[k].phase == VolumeBound
    ensures forall k | k in SplitOnNode(h, node, pvs).1 ::
              SplitOnNode(h, node, pvs).1[k] in pvs && ReservedOnNode(h, node, SplitOnNode(h, node, pvs).1[k])
              && SplitOnNode(h, node, pvs).1[k].phase != VolumeBound
    ensures forall pv | pv in pvs && ReservedOnNode(h, node, pv) ::
              if pv.phase == VolumeBound then pv.name in SplitOnNode(h, node, pvs).0 else pv.name in SplitOnNode(h, node, pvs).1
  {
    SplitOnNodeBound(h, node, pvs);
    SplitOnNodeUnbound(h, node, pvs);
    SplitOnNodeComplete(h, node, pvs);
  }

  /** With unique volume names the two maps are disjoint, and each volume is the entry under its name. */
  lemma SplitOnNodeDisjoint(h: PredicateHandler, node: Node, pvs: seq<PersistentVolume>)
    requires UniqueNames(pvs)
    ensures SplitOnNode(h, node, pvs).0.Keys !! SplitOnNode(h, node, pvs).1.Keys
    ensures forall pv | pv in pvs && ReservedOnNode(h, node, pv) ::
              if pv.phase == VolumeBound then pv.name in SplitOnNode(h, node, pvs).0 && SplitOnNode(h, node, pvs).0[pv.name] == pv
              else pv.name in SplitOnNode(h, node, pvs).1 && SplitOnNode(h, node, pvs).1[pv.name] == pv
  {
    var (b, u) := SplitOnNode(h, node, pvs);
    SplitOnNodeSpec(h, node, pvs);
    forall k | k in b && k in u ensures false {
    }
    forall pv | pv in pvs && ReservedOnNode(h, node, pv)
      ensures if pv.phase == VolumeBound then b[pv.name] == pv else u[pv.name] == pv
    {
      var i :| 0 <= i < |pvs| && pvs[i] == pv;
      var w := if pv.phase == VolumeBound then b[pv.name] else u[pv.name];
      var j :| 0 <= j < |pvs| && pvs[j] == w;
      assert i == j;
    }
  }

  method GetReservedResourceLocalPVOnNode(h: PredicateHandler, node: Node)
    returns (r: Result<(map<string, PersistentVolume>, map<string, PersistentVolume>), Error>)
    ensures r == LocalVolumesOnNode(h, node)
  {
    var listed := GetAllPersistentVolume(h.accessor);
    if listed.Err? {
      return Err(listed.error);
    }
    var pvs := listed.value;
    var pvsOnNode: map<string, PersistentVolume> := map[];
    var unboundPvsOnNode: map<string, PersistentVolume> := map[];
    for i := 0 to |pvs|
      invariant (pvsOnNode, unboundPvsOnNode) == SplitOnNode(h, node, pvs[..i])
    {
      PrefixStep(pvs, i);
      var pv := pvs[i];
      var (consider, bound) := ConsiderReserveResource(pv, h.cfg.reservedCpuAnnoKey, h.cfg.reservedMemAnnoKey);
      if !consider {
        continue;
      }
      if pv.nodeSelectorTerms.None? {
        continue;
      }
      if h.env.nodeMatchesTerms(node, pv.nodeSelectorTerms.value) {
        if bound {
          pvsOnNode := pvsOnNode[pv.name := pv];
        } else {
          unboundPvsOnNode := unboundPvsOnNode[pv.name := pv];
        }
      }
    }
    assert pvs[..|pvs|] == pvs;
    return Ok((pvsOnNode, unboundPvsOnNode));
  }

  // ---------------------------------------------------------------------------
  // getPodsOnPVOnNode

  /**
   * The pods that use a volume on a node: none when the volume cannot be fetched or is not Bound;
   * otherwise the pods of the claim's namespace scheduled on the node that mount the claim.
   */
  function PodsOnVolume(h: PredicateHandler, pvName: string, nodeName: string): Result<seq<Pod>, Error>
  {
    match GetPersistentVolume(h.accessor, pvName)
    case Err(_) => Ok([])
    case Ok(pv) =>
      if pv.phase != VolumeBound then Ok([])
      else
        var claimRef := pv.claimRef.value;
        match GetPodsInNamespace(h.accessor, claimRef.namespace)
        case Err(e) => Err(e)
        case Ok(nsPods) => Ok(MountPods(PodsWith(nsPods, OnNode, nodeName), claimRef.name))
  }

  lemma PodsOnVolumeSpec(h: PredicateHandler, pvName: string, nodeName: string)
    ensures GetPersistentVolume(h.accessor, pvName).Err? ==> PodsOnVolume(h, pvName, nodeName) == Ok([])
    ensures GetPersistentVolume(h.accessor, pvName).Ok? && GetPersistentVolume(h.accessor, pvName).value.phase != VolumeBound
            ==> PodsOnVolume(h, pvName, nodeName) == Ok([])
    ensures PodsOnVolume(h, pvName, nodeName).Err? ==> ListNamespacePods in h.accessor.failing
    ensures GetPersistentVolume(h.accessor, pvName).Ok? && GetPersistentVolume(h.accessor, pvName).value.phase == VolumeBound
            && ListNamespacePods !in h.accessor.failing ==>
            var ref := GetPersistentVolume(h.accessor, pvName).value.claimRef.value;
            PodsOnVolume(h, pvName, nodeName).Ok?
            && forall p :: p in PodsOnVolume(h, pvName, nodeName).value
                           <==> p in h.accessor.pods && p.namespace == ref.namespace && p.nodeName == nodeName
                                && ClaimMounts(p.volumes, ref.name) > 0
  {
    var got := GetPersistentVolume(h.accessor, pvName);
    if got.Ok? && got.value.phase == VolumeBound && ListNamespacePods !in h.accessor.failing {
      var ref := got.value.claimRef.value;
      MountPodsMembers(PodsWith(PodsWith(h.accessor.pods, InNamespace, ref.namespace), OnNode, nodeName), ref.name);
    }
  }

  method GetPodsOnPVOnNode(h: PredicateHandler, pvName: string, node: string) returns (r: Result<seq<Pod>, Error>)
    ensures r == PodsOnVolume(h, pvName, node)
  {
    var got := GetPersistentVolume(h.accessor, pvName);
    if got.Err? {
      return Ok([]);
    }
    var pv := got.value;
    if pv.phase != VolumeBound {
      return Ok([]);
    }
    var claimRef := pv.claimRef.value;
    var listed := GetPodsInNamespace(h.accessor, claimRef.namespace);
    if listed.Err? {
      return Err(listed.error);
    }
    var nsPods := listed.value;
    var podsOnNode: seq<Pod> := [];
    for i := 0 to |nsPods|
      invariant podsOnNode == PodsWith(nsPods[..i], OnNode, node)
    {
      PrefixStep(nsPods, i);
      if nsPods[i].nodeName == node {
        podsOnNode := podsOnNode + [nsPods[i]];
      }
    }
    assert nsPods[..|nsPods|] == nsPods;
    var mounting := GetMountPods(podsOnNode, claimRef.name);
    return Ok(mounting);
  }

  // ---------------------------------------------------------------------------
  // getReservedResource, remainReservedResources

  /** A volume's reservation: cpu and memory quantities, whether each is configured, and a parse error. */
  datatype Reserved = Reserved(cpu: Quantity, cpuConfigured: bool, mem: Quantity, memConfigured: bool, err: Option<Error>)

  /**
   * Reads both reservation annotations, cpu first. A malformed value on either one is an error,
   * and then neither dimension counts as configured.
   */
  function GetReservedResource(h: PredicateHandler, pv: PersistentVolume): (r: Reserved)
    ensures var cpuKey, memKey := h.cfg.reservedCpuAnnoKey, h.cfg.reservedMemAnnoKey;
            var malformedCpu := cpuKey in pv.annotations && h.env.parseQuantity(pv.annotations[cpuKey]).None?;
            var malformedMem := memKey in pv.annotations && h.env.parseQuantity(pv.annotations[memKey]).None?;
            (r.err.Some? <==> malformedCpu || malformedMem)
            && (r.err.Some? ==> !r.cpuConfigured && !r.memConfigured)
            && (r.err.None? ==>
                  (r.cpuConfigured <==> cpuKey in pv.annotations) && (r.memConfigured <==> memKey in pv.annotations)
                  && (r.cpuConfigured ==> h.env.parseQuantity(pv.annotations[cpuKey]) == Some(r.cpu))
                  && (r.memConfigured ==> h.env.parseQuantity(pv.annotations[memKey]) == Some(r.mem)))
  {
    var c := GetResevedResource(pv, h.cfg.reservedCpuAnnoKey, h.env);
    if c.err.Some? then Reserved(c.quantity, false, 0, false, c.err)
    else
      var m := GetResevedResource(pv, h.cfg.reservedMemAnnoKey, h.env);
      if m.err.Some? then Reserved(c.quantity, false, m.quantity, false, m.err)
      else Reserved(c.quantity, c.present, m.quantity, m.present, None)
  }

  /** What is left of a volume's reservation, and whether the volume is to be skipped. */
  datatype Remain = Remain(cpu: Quantity, cpuConfigured: bool, mem: Quantity, memConfigured: bool, canSkip: bool, err: Option<Error>)

  function Remaining(h: PredicateHandler, pv: PersistentVolume, nodeName: string): Remain
  {
    var g := GetReservedResource(h, pv);
    if g.err.Some? then Remain(g.cpu, g.cpuConfigured, g.mem, g.memConfigured, true, g.err)
    else
      match PodsOnVolume(h, pv.name, nodeName)
      case Err(e) => Remain(g.cpu, g.cpuConfigured, g.mem, g.memConfigured, false, Some(e))
      case Ok(pods) =>
        var (cpu, cpuEnough) := if g.cpuConfigured then PodsSubtraction(g.cpu, pods, Cpu) else (g.cpu, true);
        var (mem, memEnough) := if g.memConfigured then PodsSubtraction(g.mem, pods, Memory) else (g.mem, true);
        Remain(cpu, g.cpuConfigured, mem, g.memConfigured, !cpuEnough || !memEnough, None)
  }

  /**
   * The three ways out: a malformed annotation skips the volume with nothing configured; a failed
   * pod listing reports its error without skipping; otherwise the volume is skipped exactly when a
   * configured reservation runs out, and a kept volume's configured reservations are reduced by the
   * total request of the pods using it.
   */
  lemma RemainingCases(h: PredicateHandler, pv: PersistentVolume, nodeName: string)
    ensures var r, g := Remaining(h, pv, nodeName), GetReservedResource(h, pv);
            (g.err.Some? ==> r.canSkip && r.err == g.err && !r.cpuConfigured && !r.memConfigured)
            && (g.err.None? && PodsOnVolume(h, pv.name, nodeName).Err? ==>
                  !r.canSkip && r.err == Some(PodsOnVolume(h, pv.name, nodeName).error))
            && (g.err.None? && PodsOnVolume(h, pv.name, nodeName).Ok? ==>
                  var pods := PodsOnVolume(h, pv.name, nodeName).value;
                  r.err.None? && r.cpuConfigured == g.cpuConfigured && r.memConfigured == g.memConfigured
                  && (r.canSkip <==> (g.cpuConfigured && !PodsSubtraction(g.cpu, pods, Cpu).1)
                                     || (g.memConfigured && !PodsSubtraction(g.mem, pods, Memory).1))
                  && (!r.canSkip && g.cpuConfigured ==> r.cpu == g.cpu - PodsRequest(pods, Cpu))
                  && (!r.canSkip && g.memConfigured ==> r.mem == g.mem - PodsRequest(pods, Memory)))
  {
    var g := GetReservedResource(h, pv);
    if g.err.None? && PodsOnVolume(h, pv.name, nodeName).Ok? {
      var pods := PodsOnVolume(h, pv.name, nodeName).value;
      PodsSubtractionResult(g.cpu, pods, Cpu);
      PodsSubtractionResult(g.mem, pods, Memory);
    }
  }

  method RemainReservedResources(h: PredicateHandler, pv: PersistentVolume, nodeName: string) returns (r: Remain)
    ensures r == Remaining(h, pv, nodeName)
  {
    var g := GetReservedResource(h, pv);
    if g.err.Some? {
      return Remain(g.cpu, g.cpuConfigured, g.mem, g.memConfigured, true, g.err);
    }
    var podsResult := GetPodsOnPVOnNode(h, pv.name, nodeName);
    if podsResult.Err? {
      return Remain(g.cpu, g.cpuConfigured, g.mem, g.memConfigured, false, Some(podsResult.error));
    }
    var pods := podsResult.value;
    var reservedCpu, reservedMem := g.cpu, g.mem;
    var cpuEnough, memEnough := true, true;
    if g.cpuConfigured {
      reservedCpu, cpuEnough := SubCpuRequest(reservedCpu, pods);
    }
    if g.memConfigured {
      reservedMem, memEnough := SubMemRequest(reservedMem, pods);
    }
    if !cpuEnough || !memEnough {
      return Remain(reservedCpu, g.cpuConfigured, reservedMem, g.memConfigured, true, None);
    }
    return Remain(reservedCpu, g.cpuConfigured, reservedMem, g.memConfigured, false, None);
  }

  // ---------------------------------------------------------------------------
  // availableResource

  /**
   * Allocatable minus the requests of the pods on the node, pod by pod; a pod's "not enough" is
   * ignored, so a pod that overdraws has its remaining containers left out.
   */
  function AvailFold(from: Quantity, pods: seq<Pod>, nodeName: string, k: Resource): Quantity
    decreases |pods|
  {
    if |pods| == 0 then from
    else
      var next := if pods[0].nodeName != nodeName then from else PodSubtraction(from, pods[0].containers, k).0;
      AvailFold(next, pods[1..], nodeName, k)
  }

  function Available(h: PredicateHandler, node: Node): Result<(Quantity, Quantity), Error>
  {
    match GetAllPods(h.accessor)
    case Err(e) => Err(ListPodsFailed(node.name, e))
    case Ok(pods) => Ok((AvailFold(node.allocatableCpu, pods, node.name, Cpu), AvailFold(node.allocatableMem, pods, node.name, Memory)))
  }

  /** When no pod on the node overdraws, what is available is allocatable minus the pods' total request. */
  lemma {:induction false} AvailFoldNoOverdraw(from: Quantity, pods: seq<Pod>, nodeName: string, k: Resource)
    requires PodsSubtraction(from, PodsWith(pods, OnNode, nodeName), k).1
    ensures AvailFold(from, pods, nodeName, k) == from - PodsRequest(PodsWith(pods, OnNode, nodeName), k)
    decreases |pods|
  {
    if |pods| > 0 {
      var p, rest := pods[0], pods[1..];
      assert pods == [p] + rest;
      PodsWithCons(p, rest, OnNode, nodeName);
      var tail := PodsWith(rest, OnNode, nodeName);
      if p.nodeName == nodeName {
        var r := PodSubtraction(from, p.containers, k);
        assert PodsWith(pods, OnNode, nodeName) == [p] + tail;
        assert ([p] + tail)[0] == p && ([p] + tail)[1..] == tail;
        assert PodsSubtraction(from, [p] + tail, k) == (if !r.1 then r else PodsSubtraction(r.0, tail, k));
        assert PodsRequest([p] + tail, k) == ReqTotal(p.containers, k) + PodsRequest(tail, k);
        PodSubtractionEnough(from, p.containers, k);
        AvailFoldNoOverdraw(r.0, rest, nodeName, k);
      } else {
        assert PodsWith(pods, OnNode, nodeName) == tail;
        AvailFoldNoOverdraw(from, rest, nodeName, k);
      }
    }
  }

  /** With non-negative requests a node that some pod overdraws has a negative availability. */
  lemma {:induction false} AvailFoldOverdrawn(from: Quantity, pods: seq<Pod>, nodeName: string, k: Resource)
    requires forall p | p in pods :: NonNegative(p.containers, k)
    requires !PodsSubtraction(from, PodsWith(pods, OnNode, nodeName), k).1
    ensures AvailFold(from, pods, nodeName, k) < 0
    decreases |pods|
  {
    var p, rest := pods[0], pods[1..];
    assert pods == [p] + rest;
    PodsWithCons(p, rest, OnNode, nodeName);
    assert forall q | q in rest :: q in pods;
    var tail := PodsWith(rest, OnNode, nodeName);
    if p.nodeName == nodeName {
      var r := PodSubtraction(from, p.containers, k);
      assert PodsWith(pods, OnNode, nodeName) == [p] + tail;
      assert ([p] + tail)[0] == p && ([p] + tail)[1..] == tail;
      assert PodsSubtraction(from, [p] + tail, k) == (if !r.1 then r else PodsSubtraction(r.0, tail, k));
      if r.1 {
        AvailFoldOverdrawn(r.0, rest, nodeName, k);
      } else {
        PodSubtractionStops(from, p.containers, k);
        AvailFoldNotAbove(r.0, rest, nodeName, k);
      }
    } else {
      assert PodsWith(pods, OnNode, nodeName) == tail;
      AvailFoldOverdrawn(from, rest, nodeName, k);
    }
  }

  lemma {:induction false} AvailFoldNotAbove(from: Quantity, pods: seq<Pod>, nodeName: string, k: Resource)
    requires forall p | p in pods :: NonNegative(p.containers, k)
    ensures AvailFold(from, pods, nodeName, k) <= from
    decreases |pods|
  {
    if |pods| > 0 {
      assert pods[0] in pods;
      assert forall q | q in pods[1..] :: q in pods;
      PodSubtractionNotAbove(from, pods[0].containers, k);
      var next := if pods[0].nodeName != nodeName then from else PodSubtraction(from, pods[0].containers, k).0;
      AvailFoldNotAbove(next, pods[1..], nodeName, k);
    }
  }

  /** The overdraw quirk on one pod: only the first of its two containers is subtracted. */
  lemma AvailFoldUndercounts()
    ensures AvailFold(1, [Pod("ns", "p", "n", [Container(2, 0), Container(3, 0)], [])], "n", Cpu) == -1
  {
    var cs := [Container(2, 0), Container(3, 0)];
    assert PodSubtraction(1, cs, Cpu) == (-1, false);
  }

  method AvailableResource(h: PredicateHandler, node: Node) returns (r: Result<(Quantity, Quantity), Error>)
    ensures r == Available(h, node)
  {
    var listed := GetAllPods(h.accessor);
    if listed.Err? {
      return Err(ListPodsFailed(node.name, listed.error));
    }
    var pods := listed.value;
    var cpuResource, memResource := node.allocatableCpu, node.allocatableMem;
    for i := 0 to |pods|
      invariant AvailFold(cpuResource, pods[i..], node.name, Cpu) == AvailFold(node.allocatableCpu, pods, node.name, Cpu)
      invariant AvailFold(memResource, pods[i..], node.name, Memory) == AvailFold(node.allocatableMem, pods, node.name, Memory)
    {
      assert pods[i..][0] == pods[i] && pods[i..][1..] == pods[i + 1..];
      var pod := pods[i];
      if pod.nodeName != node.name {
        continue;
      }
      var cpuEnough, memEnough;
      cpuResource, cpuEnough := SubPodCpuRequest(cpuResource, pod);
      memResource, memEnough := SubPodMemRequest(memResource, pod);
    }
    return Ok((cpuResource, memResource));
  }

  // ---------------------------------------------------------------------------
  // localPersistentVolumeOnPodOnNode

  /** A volume map built by inserting the volumes of `s` under their names, in order. */
  function MapByName(s: seq<PersistentVolume>): map<string, PersistentVolume>
  {
    if |s| == 0 then map[] else MapByName(s[..|s| - 1])[s[|s| - 1].name := s[|s| - 1]]
  }

  lemma {:induction false} MapByNameSpec(s: seq<PersistentVolume>)
    ensures forall k :: k in MapByName(s) <==> exists v :: v in s && v.name == k
    ensures forall k | k in MapByName(s) :: MapByName(s)[k] in s && MapByName(s)[k].name == k
    decreases |s|
  {
    if |s| > 0 {
      var init := s[..|s| - 1];
      assert s == init + [s[|s| - 1]];
      MapByNameSpec(init);
    }
  }

  /** The unbound-volume match for a claim can fail: a malformed selector, or a volume-mode error on some candidate. */
  predicate MatchFails(h: PredicateHandler, claim: PersistentVolumeClaim, unbound: map<string, PersistentVolume>)
  {
    (claim.selector.Some? && !h.env.labelSelectorValid(claim.selector.value))
    || exists k | k in unbound :: Judge(claim, unbound[k], None, {}, false, h.env).Fail?
  }

  /** The unbound volumes a claim picks up: every candidate the matcher takes, or none when the match fails. */
  function UnboundMatches(h: PredicateHandler, claim: PersistentVolumeClaim, unbound: map<string, PersistentVolume>)
    : map<string, PersistentVolume>
  {
    if MatchFails(h, claim, unbound) then map[]
    else map k | k in unbound && Judge(claim, unbound[k], None, {}, false, h.env) == Take :: unbound[k]
  }

  /** One claim-backed volume of the pod, added to the volumes found so far. */
  function ClaimStep(h: PredicateHandler, namespace: string, v: Volume, bound: map<string, PersistentVolume>,
                     unbound: map<string, PersistentVolume>, pvs: map<string, PersistentVolume>)
    : Result<map<string, PersistentVolume>, Error>
  {
    match v.claimName
    case None => Ok(pvs)
    case Some(claimName) =>
      match GetPersistentVolumeClaim(h.accessor, namespace, claimName)
      case Err(e) => Err(e)
      case Ok(pvc) =>
        if |pvc.volumeName| > 0 then
          if pvc.volumeName in bound then Ok(pvs[bound[pvc.volumeName].name := bound[pvc.volumeName]]) else Ok(pvs)
        else if h.cfg.considerUnboundLocalPV then Ok(pvs + UnboundMatches(h, pvc, unbound))
        else Ok(pvs)
  }

  /** The reservation-bearing volumes on the node that the pod's claims use, keyed by name. */
  function PodPVs(h: PredicateHandler, namespace: string, volumes: seq<Volume>, bound: map<string, PersistentVolume>,
                  unbound: map<string, PersistentVolume>): Result<map<string, PersistentVolume>, Error>
    decreases |volumes|
  {
    if |volumes| == 0 then Ok(map[])
    else
      match PodPVs(h, namespace, volumes[..|volumes| - 1], bound, unbound)
      case Err(e) => Err(e)
      case Ok(pvs) => ClaimStep(h, namespace, volumes[|volumes| - 1], bound, unbound, pvs)
  }

  /** The claim behind a volume of the pod, when the volume has one and it can be read. */
  ghost function ClaimOf(h: PredicateHandler, namespace: string, v: Volume): Option<PersistentVolumeClaim>
  {
    if v.claimName.Some? && GetPersistentVolumeClaim(h.accessor, namespace, v.claimName.value).Ok?
    then Some(GetPersistentVolumeClaim(h.accessor, namespace, v.claimName.value).value)
    else None
  }

  /**
   * The volume `v` of the pod names the volume key `k`: its claim can be read and is bound to
   * the bound-on-node volume `k`, or, when unbound volumes are considered, it is unbound and the
   * matcher takes the unbound-on-node volume `k` for it.
   */
  ghost predicate ClaimNames(h: PredicateHandler, namespace: string, v: Volume, bound: map<string, PersistentVolume>,
                             unbound: map<string, PersistentVolume>, k: string)
  {
    ClaimOf(h, namespace, v).Some? &&
    var pvc := ClaimOf(h, namespace, v).value;
    (|pvc.volumeName| > 0 && pvc.volumeName in bound && k == pvc.volumeName)
    || (|pvc.volumeName| == 0 && h.cfg.considerUnboundLocalPV && k in UnboundMatches(h, pvc, unbound))
  }

  /** The volume that claim supplies under that key. */
  ghost function Supplied(h: PredicateHandler, namespace: string, v: Volume, bound: map<string, PersistentVolume>,
                          unbound: map<string, PersistentVolume>, k: string): PersistentVolume
    requires ClaimNames(h, namespace, v, bound, unbound, k)
  {
    if |ClaimOf(h, namespace, v).value.volumeName| > 0 then bound[k] else unbound[k]
  }

  /** Every entry of `m` is supplied, under its key, by one of the volumes `volumes`. */
  ghost predicate FoundSoundly(h: PredicateHandler, namespace: string, volumes: seq<Volume>, bound: map<string, PersistentVolume>,
                               unbound: map<string, PersistentVolume>, m: map<string, PersistentVolume>)
  {
    forall k | k in m :: exists v | v in volumes && ClaimNames(h, namespace, v, bound, unbound, k) ::
                           m[k] == Supplied(h, namespace, v, bound, unbound, k)
  }

  /** Every key one of the volumes `volumes` names is in `m`. */
  ghost predicate FoundCompletely(h: PredicateHandler, namespace: string, volumes: seq<Volume>, bound: map<string, PersistentVolume>,
                                  unbound: map<string, PersistentVolume>, m: map<string, PersistentVolume>)
  {
    forall v, k | v in volumes && ClaimNames(h, namespace, v, bound, unbound, k) :: k in m
  }

  /** One claim step adds only what the volume's claim supplies, and keeps what was found before. */
  lemma ClaimStepSound(h: PredicateHandler, namespace: string, init: seq<Volume>, v: Volume,
                       bound: map<string, PersistentVolume>, unbound: map<string, PersistentVolume>,
                       pvs: map<string, PersistentVolume>)
    requires KeyedByName(bound) && FoundSoundly(h, namespace, init, bound, unbound, pvs)
    requires ClaimStep(h, namespace, v, bound, unbound, pvs).Ok?
    ensures FoundSoundly(h, namespace, init + [v], bound, unbound, ClaimStep(h, namespace, v, bound, unbound, pvs).value)
  {
    var m := ClaimStep(h, namespace, v, bound, unbound, pvs).value;
    forall k | k in m ensures exists w | w in init + [v] && ClaimNames(h, namespace, w, bound, unbound, k) ::
                                m[k] == Supplied(h, namespace, w, bound, unbound, k) {
      if ClaimNames(h, namespace, v, bound, unbound, k) && m[k] == Supplied(h, namespace, v, bound, unbound, k) {
        assert v in init + [v];
      } else {
        assert k in pvs && m[k] == pvs[k] by { ClaimStepKeeps(h, namespace, v, bound, unbound, pvs, k); }
        var w :| w in init && ClaimNames(h, namespace, w, bound, unbound, k) && pvs[k] == Supplied(h, namespace, w, bound, unbound, k);
        assert w in init + [v];
      }
    }
  }

  /** A key a claim step writes is one the volume's claim names, and gets what that claim supplies; any other key keeps its entry. */
  lemma ClaimStepKeeps(h: PredicateHandler, namespace: string, v: Volume, bound: map<string, PersistentVolume>,
                       unbound: map<string, PersistentVolume>, pvs: map<string, PersistentVolume>, k: string)
    requires KeyedByName(bound) && ClaimStep(h, namespace, v, bound, unbound, pvs).Ok?
    requires k in ClaimStep(h, namespace, v, bound, unbound, pvs).value
    requires !(ClaimNames(h, namespace, v, bound, unbound, k)
               && ClaimStep(h, namespace, v, bound, unbound, pvs).value[k] == Supplied(h, namespace, v, bound, unbound, k))
    ensures k in pvs && ClaimStep(h, namespace, v, bound, unbound, pvs).value[k] == pvs[k]
  {
  }

  /** After one claim step, every key that volume's claim names is present, and nothing found before is lost. */
  lemma ClaimStepComplete(h: PredicateHandler, namespace: string, init: seq<Volume>, v: Volume,
                          bound: map<string, PersistentVolume>, unbound: map<string, PersistentVolume>,
                          pvs: map<string, PersistentVolume>)
    requires KeyedByName(bound) && FoundCompletely(h, namespace, init, bound, unbound, pvs)
    requires ClaimStep(h, namespace, v, bound, unbound, pvs).Ok?
    ensures FoundCompletely(h, namespace, init + [v], bound, unbound, ClaimStep(h, namespace, v, bound, unbound, pvs).value)
  {
    var m := ClaimStep(h, namespace, v, bound, unbound, pvs).value;
    assert pvs.Keys <= m.Keys;
    forall w, k | w in init + [v] && ClaimNames(h, namespace, w, bound, unbound, k) ensures k in m {
      if w != v {
        assert w in init;
      }
    }
  }

  /** Every volume the pod is found to use is supplied, under its key, by one of the pod's claims. */
  lemma {:induction false} PodPVsSound(h: PredicateHandler, namespace: string, volumes: seq<Volume>,
                                       bound: map<string, PersistentVolume>, unbound: map<string, PersistentVolume>)
    requires KeyedByName(bound)
    requires PodPVs(h, namespace, volumes, bound, unbound).Ok?
    ensures FoundSoundly(h, namespace, volumes, bound, unbound, PodPVs(h, namespace, volumes, bound, unbound).value)
    decreases |volumes|
  {
    if |volumes| > 0 {
      var init := volumes[..|volumes| - 1];
      assert volumes == init + [volumes[|volumes| - 1]];
      PodPVsSound(h, namespace, init, bound, unbound);
      ClaimStepSound(h, namespace, init, volumes[|volumes| - 1], bound, unbound, PodPVs(h, namespace, init, bound, unbound).value);
    }
  }

  /** Every volume one of the pod's claims names is found. */
  lemma {:induction false} PodPVsComplete(h: PredicateHandler, namespace: string, volumes: seq<Volume>,
                                          bound: map<string, PersistentVolume>, unbound: map<string, PersistentVolume>)
    requires KeyedByName(bound)
    requires PodPVs(h, namespace, volumes, bound, unbound).Ok?
    ensures FoundCompletely(h, namespace, volumes, bound, unbound, PodPVs(h, namespace, volumes, bound, unbound).value)
    decreases |volumes|
  {
    if |volumes| > 0 {
      var init := volumes[..|volumes| - 1];
      assert volumes == init + [volumes[|volumes| - 1]];
      PodPVsComplete(h, namespace, init, bound, unbound);
      ClaimStepComplete(h, namespace, init, volumes[|volumes| - 1], bound, unbound, PodPVs(h, namespace, init, bound, unbound).value);
    }
  }

  /** A claim that cannot be fetched, at any position, makes the whole resolution an error. */
  lemma PodPVsClaimError(h: PredicateHandler, namespace: string, volumes: seq<Volume>,
                         bound: map<string, PersistentVolume>, unbound: map<string, PersistentVolume>, i: nat)
    requires i < |volumes| && volumes[i].claimName.Some?
    requires GetPersistentVolumeClaim(h.accessor, namespace, volumes[i].claimName.value).Err?
    ensures PodPVs(h, namespace, volumes, bound, unbound).Err?
  {
    if PodPVs(h, namespace, volumes[..i], bound, unbound).Err? {
      if i == 0 {
        assert false;
      }
      PodPVsErrorSticks(h, namespace, volumes, bound, unbound, i);
    } else {
      PodPVsStep(h, namespace, volumes, bound, unbound, i, PodPVs(h, namespace, volumes[..i], bound, unbound).value);
      PodPVsErrorSticks(h, namespace, volumes, bound, unbound, i + 1);
    }
  }

  lemma {:induction false} PodPVsErrorSticks(h: PredicateHandler, namespace: string, volumes: seq<Volume>,
                                             bound: map<string, PersistentVolume>, unbound: map<string, PersistentVolume>, n: nat)
    requires 0 < n <= |volumes| && PodPVs(h, namespace, volumes[..n], bound, unbound).Err?
    ensures PodPVs(h, namespace, volumes, bound, unbound) == PodPVs(h, namespace, volumes[..n], bound, unbound)
    decreases |volumes| - n
  {
    if n < |volumes| {
      PrefixStep(volumes, n);
      PodPVsErrorSticks(h, namespace, volumes, bound, unbound, n + 1);
    } else {
      assert volumes[..n] == volumes;
    }
  }

  /** One more volume of the loop: the resolution so far, extended by that volume's claim step. */
  lemma PodPVsStep(h: PredicateHandler, namespace: string, volumes: seq<Volume>, bound: map<string, PersistentVolume>,
                   unbound: map<string, PersistentVolume>, i: nat, pvs: map<string, PersistentVolume>)
    requires i < |volumes| && PodPVs(h, namespace, volumes[..i], bound, unbound) == Ok(pvs)
    ensures PodPVs(h, namespace, volumes[..i + 1], bound, unbound) == ClaimStep(h, namespace, volumes[i], bound, unbound, pvs)
  {
    PrefixStep(volumes, i);
  }

  /** A listing of a name-keyed volume map's values: every entry once or more, and nothing else. */
  predicate Lists(list: seq<PersistentVolume>, m: map<string, PersistentVolume>)
  {
    (forall v | v in list :: v.name in m && m[v.name] == v) && (forall k | k in m :: m[k] in list)
  }

  /** The matcher run over any listing of the unbound map's values fails exactly when the match fails. */
  lemma MatchErrorIffFails(h: PredicateHandler, claim: PersistentVolumeClaim, unbound: map<string, PersistentVolume>,
                           list: seq<PersistentVolume>)
    requires KeyedByName(unbound) && Lists(list, unbound)
    ensures FindMatching(claim, list, None, {}, false, h.env).Err? <==> MatchFails(h, claim, unbound)
  {
    if claim.selector.Some? && !h.env.labelSelectorValid(claim.selector.value) {
    } else if exists k | k in unbound :: Judge(claim, unbound[k], None, {}, false, h.env).Fail? {
      var k :| k in unbound && Judge(claim, unbound[k], None, {}, false, h.env).Fail?;
      var i :| 0 <= i < |list| && list[i] == unbound[k];
      ScanFailsWithoutNode(claim, list, {}, false, h.env, [], i);
    } else {
      MatchClear(h, claim, unbound, list);
      ScanClear(claim, list, None, {}, false, h.env, []);
    }
  }

  lemma MatchClear(h: PredicateHandler, claim: PersistentVolumeClaim, unbound: map<string, PersistentVolume>,
                   list: seq<PersistentVolume>)
    requires KeyedByName(unbound) && Lists(list, unbound) && !MatchFails(h, claim, unbound)
    ensures Clear(claim, list, None, {}, false, h.env, |list|)
  {
    forall j | 0 <= j < |list| ensures !Halts(Judge(claim, list[j], None, {}, false, h.env)) {
      assert list[j] in list;
      assert list[j].name in unbound;
    }
  }

  /** When the match does not fail, the matcher's result, inserted by name, is exactly `UnboundMatches`. */
  lemma MatchedIsUnboundMatches(h: PredicateHandler, claim: PersistentVolumeClaim, unbound: map<string, PersistentVolume>,
                                list: seq<PersistentVolume>)
    requires KeyedByName(unbound) && Lists(list, unbound)
    requires FindMatching(claim, list, None, {}, false, h.env).Ok?
    ensures MapByName(FindMatching(claim, list, None, {}, false, h.env).value) == UnboundMatches(h, claim, unbound)
  {
    MatchErrorIffFails(h, claim, unbound, list);
    MatchClear(h, claim, unbound, list);
    ScanClear(claim, list, None, {}, false, h.env, []);
    var t := Takes(claim, list, None, {}, false, h.env);
    assert [] + t == t;
    TakesOfListing(h, claim, unbound, list);
  }

  lemma TakesOfListing(h: PredicateHandler, claim: PersistentVolumeClaim, unbound: map<string, PersistentVolume>,
                       list: seq<PersistentVolume>)
    requires KeyedByName(unbound) && Lists(list, unbound) && !MatchFails(h, claim, unbound)
    ensures MapByName(Takes(claim, list, None, {}, false, h.env)) == UnboundMatches(h, claim, unbound)
  {
    TakesKeys(h, claim, unbound, list);
    TakesValues(h, claim, unbound, list);
  }

  /** The names the taken volumes are inserted under are the names the matcher takes. */
  lemma TakesKeys(h: PredicateHandler, claim: PersistentVolumeClaim, unbound: map<string, PersistentVolume>,
                  list: seq<PersistentVolume>)
    requires KeyedByName(unbound) && Lists(list, unbound) && !MatchFails(h, claim, unbound)
    ensures MapByName(Takes(claim, list, None, {}, false, h.env)).Keys == UnboundMatches(h, claim, unbound).Keys
  {
    var t := Takes(claim, list, None, {}, false, h.env);
    TakesMembers(claim, list, None, {}, false, h.env);
    MapByNameSpec(t);
    var want := UnboundMatches(h, claim, unbound);
    forall k ensures k in MapByName(t) <==> k in want {
      if k in want {
        assert unbound[k] in t;
      }
    }
  }

  /** Under each such name sits the very volume the matcher takes. */
  lemma TakesValues(h: PredicateHandler, claim: PersistentVolumeClaim, unbound: map<string, PersistentVolume>,
                    list: seq<PersistentVolume>)
    requires KeyedByName(unbound) && Lists(list, unbound) && !MatchFails(h, claim, unbound)
    ensures forall k | k in UnboundMatches(h, claim, unbound) && k in MapByName(Takes(claim, list, None, {}, false, h.env)) ::
              MapByName(Takes(claim, list, None, {}, false, h.env))[k] == UnboundMatches(h, claim, unbound)[k]
  {
    var t := Takes(claim, list, None, {}, false, h.env);
    TakesMembers(claim, list, None, {}, false, h.env);
    MapByNameSpec(t);
    var want := UnboundMatches(h, claim, unbound);
    forall k | k in want && k in MapByName(t) ensures MapByName(t)[k] == want[k] {
      assert MapByName(t)[k] in list;
    }
  }

  /** One more volume inserted extends the merged map by that volume. */
  lemma InsertStep(pvs: map<string, PersistentVolume>, found: seq<PersistentVolume>, j: nat)
    requires j < |found|
    ensures pvs + MapByName(found[..j + 1]) == (pvs + MapByName(found[..j]))[found[j].name := found[j]]
  {
    PrefixStep(found, j);
  }

  /** Inserting volumes under their names, one after the other. */
  method InsertAll(pvs: map<string, PersistentVolume>, found: seq<PersistentVolume>) returns (r: map<string, PersistentVolume>)
    ensures r == pvs + MapByName(found)
  {
    r := pvs;
    for j := 0 to |found|
      invariant r == pvs + MapByName(found[..j])
    {
      InsertStep(pvs, found, j);
      r := r[found[j].name := found[j]];
    }
    assert found[..|found|] == found;
  }

  /** The values of a volume map, in some order. */
  method ListValues(m: map<string, PersistentVolume>) returns (list: seq<PersistentVolume>)
    ensures forall v | v in list :: v in m.Values
    ensures forall k | k in m :: m[k] in list
  {
    list := [];
    var rest := m.Keys;
    while rest != {}
      invariant rest <= m.Keys
      invariant forall v | v in list :: v in m.Values
      invariant forall k | k in m.Keys - rest :: m[k] in list
      decreases |rest|
    {
      var k :| k in rest;
      list := list + [m[k]];
      rest := rest - {k};
    }
  }

  /** One pass of the claim loop: resolve one claim-backed volume of the pod and add what it uses. */
  method ResolveClaimVolume(h: PredicateHandler, namespace: string, v: Volume, localPVOnNode: map<string, PersistentVolume>,
                            unboundLocalPVOnNode: map<string, PersistentVolume>, unboundPVs: seq<PersistentVolume>,
                            pvs: map<string, PersistentVolume>)
    returns (r: Result<map<string, PersistentVolume>, Error>)
    requires v.claimName.Some?
    requires KeyedByName(unboundLocalPVOnNode) && Lists(unboundPVs, unboundLocalPVOnNode)
    ensures r == ClaimStep(h, namespace, v, localPVOnNode, unboundLocalPVOnNode, pvs)
  {
    var claimResult := GetPersistentVolumeClaim(h.accessor, namespace, v.claimName.value);
    if claimResult.Err? {
      return Err(claimResult.error);
    }
    var pvc := claimResult.value;
    if |pvc.volumeName| > 0 {
      if pvc.volumeName in localPVOnNode {
        var pv := localPVOnNode[pvc.volumeName];
        return Ok(pvs[pv.name := pv]);
      }
    } else if h.cfg.considerUnboundLocalPV {
      var matched := FindMatchingVolume(pvc, unboundPVs, None, {}, false, h.env);
      MatchErrorIffFails(h, pvc, unboundLocalPVOnNode, unboundPVs);
      if matched.Err? {
        assert pvs + map[] == pvs;
        return Ok(pvs);
      }
      MatchedIsUnboundMatches(h, pvc, unboundLocalPVOnNode, unboundPVs);
      var added := InsertAll(pvs, matched.value);
      return Ok(added);
    }
    return Ok(pvs);
  }

  /** The claim loop over the pod's claim-backed volumes. */
  method ResolveClaimVolumes(h: PredicateHandler, namespace: string, volumes: seq<Volume>,
                             localPVOnNode: map<string, PersistentVolume>, unboundLocalPVOnNode: map<string, PersistentVolume>,
                             unboundPVs: seq<PersistentVolume>)
    returns (r: Result<map<string, PersistentVolume>, Error>)
    requires forall j | 0 <= j < |volumes| :: volumes[j].claimName.Some?
    requires KeyedByName(unboundLocalPVOnNode) && Lists(unboundPVs, unboundLocalPVOnNode)
    ensures r == PodPVs(h, namespace, volumes, localPVOnNode, unboundLocalPVOnNode)
  {
    var pvs: map<string, PersistentVolume> := map[];
    for i := 0 to |volumes|
      invariant PodPVs(h, namespace, volumes[..i], localPVOnNode, unboundLocalPVOnNode) == Ok(pvs)
    {
      var step := ResolveClaimVolume(h, namespace, volumes[i], localPVOnNode, unboundLocalPVOnNode, unboundPVs, pvs);
      PodPVsStep(h, namespace, volumes, localPVOnNode, unboundLocalPVOnNode, i, pvs);
      if step.Err? {
        PodPVsErrorSticks(h, namespace, volumes, localPVOnNode, unboundLocalPVOnNode, i + 1);
        return step;
      }
      pvs := step.value;
    }
    assert volumes[..|volumes|] == volumes;
    return Ok(pvs);
  }

  method LocalPersistentVolumeOnPodOnNode(h: PredicateHandler, pod: Pod, localPVOnNode: map<string, PersistentVolume>,
                                          unboundLocalPVOnNode: map<string, PersistentVolume>)
    returns (r: Result<map<string, PersistentVolume>, Error>)
    requires KeyedByName(unboundLocalPVOnNode)
    ensures r == PodPVs(h, pod.namespace, PvcVolumes(pod.volumes), localPVOnNode, unboundLocalPVOnNode)
  {
    var volumes := GetPvcVolumeSources(pod.volumes);
    PvcVolumesSelects(pod.volumes);
    assert forall j | 0 <= j < |volumes| :: volumes[j].claimName.Some? by {
      forall j | 0 <= j < |volumes| ensures volumes[j].claimName.Some? {
        assert volumes[j] in volumes;
      }
    }
    var unboundPVs := ListValues(unboundLocalPVOnNode);
    r := ResolveClaimVolumes(h, pod.namespace, volumes, localPVOnNode, unboundLocalPVOnNode, unboundPVs);
  }
}
