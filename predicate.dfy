/**
 * The bookkeeping helpers of the predicate handler: normalising the extender request,
 * finding the pods that mount a claim, deciding whether a volume carries a reservation,
 * reading a reservation annotation, and subtracting container requests from a quantity.
 */
module PredicateHelpers {
  import opened Wrappers
  import opened Api
  import opened Seqs

  // ---------------------------------------------------------------------------
  // getNodeNames

  /**
   * The candidate node names of a request, and whether they came from full node objects.
   * An explicit name list wins over the node list; a missing body or pod, or a request that
   * carries neither list, gives no names.
   */
  method GetNodeNames(body: Option<ExtenderArgs>) returns (nodeNames: seq<string>, hasNode: bool)
    ensures body.None? || body.value.pod.None? || (body.value.nodeNames.None? && body.value.nodes.None?)
            ==> nodeNames == [] && !hasNode
    ensures body.Some? && body.value.pod.Some? && body.value.nodeNames.Some?
            ==> nodeNames == body.value.nodeNames.value && !hasNode
    ensures body.Some? && body.value.pod.Some? && body.value.nodeNames.None? && body.value.nodes.Some?
            ==> hasNode && |nodeNames| == |body.value.nodes.value.items|
                && forall i :: 0 <= i < |nodeNames| ==> nodeNames[i] == body.value.nodes.value.items[i].name
  {
    if body.None? || body.value.pod.None? || (body.value.nodeNames.None? && body.value.nodes.None?) {
      return [], false;
    }
    if body.value.nodeNames.Some? {
      return body.value.nodeNames.value, false;
    }
    var items := body.value.nodes.value.items;
    var names := new string[|items|];
    for i := 0 to |items|
      invariant forall j :: 0 <= j < i ==> names[j] == items[j].name
    {
      names[i] := items[i].name;
    }
    return names[..], true;
  }

  // ---------------------------------------------------------------------------
  // getPvcVolumeSources

  /** The volumes whose source is a persistent volume claim, in their order. */
  function PvcVolumes(volumes: seq<Volume>): seq<Volume>
  {
    if |volumes| == 0 then []
    else PvcVolumes(volumes[..|volumes| - 1])
         + (if volumes[|volumes| - 1].claimName.Some? then [volumes[|volumes| - 1]] else [])
  }

  lemma {:induction false} PvcVolumesSelects(volumes: seq<Volume>)
    ensures Subsequence(PvcVolumes(volumes), volumes)
    ensures forall v :: v in PvcVolumes(volumes) <==> v in volumes && v.claimName.Some?
    decreases |volumes|
  {
    if |volumes| > 0 {
      var init, last := volumes[..|volumes| - 1], volumes[|volumes| - 1];
      assert volumes == init + [last];
      assert volumes[..|volumes| - 1] == init;
      PvcVolumesSelects(init);
      var p := PvcVolumes(init);
      if last.claimName.Some? {
        assert PvcVolumes(volumes) == p + [last];
        assert (p + [last])[..|p|] == p;
      } else {
        assert PvcVolumes(volumes) == p;
        assert |p| == 0 || Subsequence(p, volumes[..|volumes| - 1]);
      }
    }
  }

  method GetPvcVolumeSources(volumes: seq<Volume>) returns (pvcs: seq<Volume>)
    ensures pvcs == PvcVolumes(volumes)
  {
    pvcs := [];
    for i := 0 to |volumes|
      invariant pvcs == PvcVolumes(volumes[..i])
    {
      PrefixStep(volumes, i);
      if volumes[i].claimName.Some? {
        pvcs := pvcs + [volumes[i]];
      }
    }
    assert volumes[..|volumes|] == volumes;
  }

  // ---------------------------------------------------------------------------
  // getMountPods

  /** How many of `volumes` name the claim `claimName`. */
  function ClaimMounts(volumes: seq<Volume>, claimName: string): nat
  {
    if |volumes| == 0 then 0
    else ClaimMounts(volumes[..|volumes| - 1], claimName)
         + (if volumes[|volumes| - 1].claimName == Some(claimName) then 1 else 0)
  }

  lemma {:induction false} ClaimMountsPositive(volumes: seq<Volume>, claimName: string)
    ensures ClaimMounts(volumes, claimName) > 0 <==> exists v :: v in volumes && v.claimName == Some(claimName)
    decreases |volumes|
  {
    if |volumes| > 0 {
      var init := volumes[..|volumes| - 1];
      assert volumes == init + [volumes[|volumes| - 1]];
      ClaimMountsPositive(init, claimName);
    }
  }

  lemma {:induction false} ClaimMountsOfPvcVolumes(volumes: seq<Volume>, claimName: string)
    ensures ClaimMounts(PvcVolumes(volumes), claimName) == ClaimMounts(volumes, claimName)
    decreases |volumes|
  {
    if |volumes| > 0 {
      var init, last := volumes[..|volumes| - 1], volumes[|volumes| - 1];
      ClaimMountsOfPvcVolumes(init, claimName);
      var p := PvcVolumes(init);
      if last.claimName.Some? {
        assert PvcVolumes(volumes) == p + [last];
        assert (p + [last])[..|p|] == p;
      } else {
        assert PvcVolumes(volumes) == p;
      }
    }
  }

  /** The pods of `pods` that mount `claimName`, in order, each once per volume naming that claim. */
  function MountPods(pods: seq<Pod>, claimName: string): seq<Pod>
  {
    if |pods| == 0 then []
    else
      var p := pods[|pods| - 1];
      MountPods(pods[..|pods| - 1], claimName) + seq(ClaimMounts(p.volumes, claimName), _ => p)
  }

  lemma {:induction false} MountPodsMembers(pods: seq<Pod>, claimName: string)
    ensures forall p :: p in MountPods(pods, claimName) <==> p in pods && ClaimMounts(p.volumes, claimName) > 0
    decreases |pods|
  {
    if |pods| > 0 {
      var init, last := pods[..|pods| - 1], pods[|pods| - 1];
      assert pods == init + [last];
      MountPodsMembers(init, claimName);
      var tail := seq(ClaimMounts(last.volumes, claimName), _ => last);
      assert forall p :: p in tail <==> p == last && ClaimMounts(last.volumes, claimName) > 0 by {
        if ClaimMounts(last.volumes, claimName) > 0 { assert tail[0] == last; }
      }
    }
  }

  method GetMountPods(nsPods: seq<Pod>, pvcName: string) returns (pods: seq<Pod>)
    ensures pods == MountPods(nsPods, pvcName)
  {
    pods := [];
    for i := 0 to |nsPods|
      invariant pods == MountPods(nsPods[..i], pvcName)
    {
      var pod := nsPods[i];
      var pvcs := GetPvcVolumeSources(pod.volumes);
      ClaimMountsOfPvcVolumes(pod.volumes, pvcName);
      ghost var before := pods;
      for j := 0 to |pvcs|
        invariant pods == before + seq(ClaimMounts(pvcs[..j], pvcName), _ => pod)
      {
        PrefixStep(pvcs, j);
        if pvcs[j].claimName == Some(pvcName) {
          ghost var n := ClaimMounts(pvcs[..j], pvcName);
          assert seq(n + 1, _ => pod) == seq(n, _ => pod) + [pod];
          pods := pods + [pod];
        }
      }
      assert pvcs[..|pvcs|] == pvcs;
      PrefixStep(nsPods, i);
    }
    assert nsPods[..|nsPods|] == nsPods;
  }

  // ---------------------------------------------------------------------------
  // considerReserveResource, getResevedResource

  /**
   * (consider, bound): a volume takes part in reservation accounting when it is local and
   * carries the cpu or the memory annotation key, whatever the value; bound reports the phase alone.
   */
  function ConsiderReserveResource(pv: PersistentVolume, reservedCpuAnnoKey: string, reservedMemAnnoKey: string): (r: (bool, bool))
    ensures r.0 <==> pv.local && (reservedCpuAnnoKey in pv.annotations || reservedMemAnnoKey in pv.annotations)
    ensures r.1 <==> pv.phase == VolumeBound
  {
    var bound := pv.phase == VolumeBound;
    if !pv.local then (false, bound)
    else if |pv.annotations| == 0 then (false, bound)
    else if reservedCpuAnnoKey !in pv.annotations && reservedMemAnnoKey !in pv.annotations then (false, bound)
    else (true, bound)
  }

  /** A reservation annotation read back: its quantity, whether the key is present, and the parse error. */
  datatype Reservation = Reservation(quantity: Quantity, present: bool, err: Option<Error>)

  function GetResevedResource(pv: PersistentVolume, key: string, env: Env): (r: Reservation)
    ensures key !in pv.annotations ==> r == Reservation(0, false, None)
    ensures key in pv.annotations ==> r.present && (r.err.Some? <==> env.parseQuantity(pv.annotations[key]).None?)
    ensures key in pv.annotations && r.err.None? ==> env.parseQuantity(pv.annotations[key]) == Some(r.quantity)
  {
    if key !in pv.annotations then Reservation(0, false, None)
    else
      var value := pv.annotations[key];
      match env.parseQuantity(value)
      case None => Reservation(0, true, Some(MalformedQuantity(key, value)))
      case Some(q) => Reservation(q, true, None)
  }

  // ---------------------------------------------------------------------------
  // Request totals

  function ReqTotal(cs: seq<Container>, k: Resource): Quantity
  {
    if |cs| == 0 then 0 else Request(cs[0], k) + ReqTotal(cs[1..], k)
  }

  function PodsRequest(pods: seq<Pod>, k: Resource): Quantity
  {
    if |pods| == 0 then 0 else ReqTotal(pods[0].containers, k) + PodsRequest(pods[1..], k)
  }

  function ContainerCount(pods: seq<Pod>): nat
  {
    if |pods| == 0 then 0 else |pods[0].containers| + ContainerCount(pods[1..])
  }

  predicate NonNegative(cs: seq<Container>, k: Resource)
  {
    forall c | c in cs :: Request(c, k) >= 0
  }

  lemma {:induction false} ReqTotalNonNegative(cs: seq<Container>, k: Resource)
    requires NonNegative(cs, k)
    ensures ReqTotal(cs, k) >= 0
    decreases |cs|
  {
    if |cs| > 0 {
      assert cs[0] in cs;
      assert NonNegative(cs[1..], k) by { forall c | c in cs[1..] ensures c in cs { } }
      ReqTotalNonNegative(cs[1..], k);
    }
  }

  lemma {:induction false} PodsRequestNonNegative(pods: seq<Pod>, k: Resource)
    requires forall p | p in pods :: NonNegative(p.containers, k)
    ensures PodsRequest(pods, k) >= 0
    ensures ContainerCount(pods) == 0 ==> PodsRequest(pods, k) == 0
    decreases |pods|
  {
    if |pods| > 0 {
      assert pods[0] in pods;
      ReqTotalNonNegative(pods[0].containers, k);
      assert forall p | p in pods[1..] :: p in pods;
      PodsRequestNonNegative(pods[1..], k);
    }
  }

  lemma ReqTotalPrefix(cs: seq<Container>, k: Resource, j: nat)
    requires 1 <= j <= |cs|
    ensures ReqTotal(cs[..j], k) == Request(cs[0], k) + ReqTotal(cs[1..][..j - 1], k)
  {
    assert cs[..j][1..] == cs[1..][..j - 1];
  }

  // ---------------------------------------------------------------------------
  // substractPodResource

  /**
   * Subtracting a pod's container requests from `from`, one container at a time, and giving up
   * with "not enough" at the first container that takes the running value below zero.
   */
  function PodSubtraction(from: Quantity, cs: seq<Container>, k: Resource): (Quantity, bool)
    decreases |cs|
  {
    if |cs| == 0 then (from, true)
    else
      var rest := from - Request(cs[0], k);
      if rest < 0 then (rest, false) else PodSubtraction(rest, cs[1..], k)
  }

  /** On "enough", every container was subtracted; the result is non-negative unless there was none. */
  lemma {:induction false} PodSubtractionEnough(from: Quantity, cs: seq<Container>, k: Resource)
    ensures PodSubtraction(from, cs, k).1 ==> PodSubtraction(from, cs, k).0 == from - ReqTotal(cs, k)
    ensures PodSubtraction(from, cs, k).1 && |cs| > 0 ==> PodSubtraction(from, cs, k).0 >= 0
    ensures |cs| == 0 ==> PodSubtraction(from, cs, k) == (from, true)
    decreases |cs|
  {
    if |cs| > 0 {
      var rest := from - Request(cs[0], k);
      if rest >= 0 {
        PodSubtractionEnough(rest, cs[1..], k);
      }
    }
  }

  /**
   * On "not enough", the result is negative and is `from` minus the requests of a prefix of the
   * containers that ends at the first overdraw: no later container is subtracted.
   */
  lemma {:induction false} PodSubtractionStops(from: Quantity, cs: seq<Container>, k: Resource)
    ensures !PodSubtraction(from, cs, k).1 ==>
      PodSubtraction(from, cs, k).0 < 0 &&
      exists j :: 1 <= j <= |cs| && PodSubtraction(from, cs, k).0 == from - ReqTotal(cs[..j], k)
                  && forall i :: 1 <= i < j ==> from - ReqTotal(cs[..i], k) >= 0
    decreases |cs|
  {
    if |cs| > 0 && !PodSubtraction(from, cs, k).1 {
      var rest := from - Request(cs[0], k);
      ReqTotalPrefix(cs, k, 1);
      if rest < 0 {
        assert PodSubtraction(from, cs, k).0 == from - ReqTotal(cs[..1], k);
      } else {
        PodSubtractionStops(rest, cs[1..], k);
        var j' :| 1 <= j' <= |cs[1..]| && PodSubtraction(rest, cs[1..], k).0 == rest - ReqTotal(cs[1..][..j'], k)
                  && forall i :: 1 <= i < j' ==> rest - ReqTotal(cs[1..][..i], k) >= 0;
        ReqTotalPrefix(cs, k, j' + 1);
        forall i | 1 <= i < j' + 1 ensures from - ReqTotal(cs[..i], k) >= 0 {
          ReqTotalPrefix(cs, k, i);
        }
        assert PodSubtraction(from, cs, k).0 == from - ReqTotal(cs[..j' + 1], k);
      }
    }
  }

  /** "Enough" holds exactly when no prefix of the containers overdraws `from`. */
  lemma {:induction false} PodSubtractionIff(from: Quantity, cs: seq<Container>, k: Resource)
    ensures PodSubtraction(from, cs, k).1 <==> forall j :: 1 <= j <= |cs| ==> from - ReqTotal(cs[..j], k) >= 0
    decreases |cs|
  {
    if |cs| > 0 {
      var rest := from - Request(cs[0], k);
      ReqTotalPrefix(cs, k, 1);
      PodSubtractionIff(rest, cs[1..], k);
      forall j | 1 <= j <= |cs| ensures from - ReqTotal(cs[..j], k) == rest - ReqTotal(cs[1..][..j - 1], k) {
        ReqTotalPrefix(cs, k, j);
      }
      if rest >= 0 && PodSubtraction(rest, cs[1..], k).1 {
        forall j | 1 <= j <= |cs| ensures from - ReqTotal(cs[..j], k) >= 0 {
          if j > 1 { assert 1 <= j - 1 <= |cs[1..]|; }
        }
      }
      if forall j :: 1 <= j <= |cs| ==> from - ReqTotal(cs[..j], k) >= 0 {
        assert rest >= 0;
        forall j | 1 <= j <= |cs[1..]| ensures rest - ReqTotal(cs[1..][..j], k) >= 0 {
          assert from - ReqTotal(cs[..j + 1], k) >= 0;
        }
      }
    }
  }

  /** With non-negative requests: "enough" exactly when there is no container or `from` covers their total. */
  lemma {:induction false} PodSubtractionNonNegative(from: Quantity, cs: seq<Container>, k: Resource)
    requires NonNegative(cs, k)
    ensures PodSubtraction(from, cs, k).1 <==> |cs| == 0 || from >= ReqTotal(cs, k)
    decreases |cs|
  {
    if |cs| > 0 {
      assert cs[0] in cs;
      assert NonNegative(cs[1..], k) by { forall c | c in cs[1..] ensures c in cs { } }
      ReqTotalNonNegative(cs[1..], k);
      PodSubtractionNonNegative(from - Request(cs[0], k), cs[1..], k);
    }
  }

  /** With non-negative requests the subtraction never raises the value. */
  lemma {:induction false} PodSubtractionNotAbove(from: Quantity, cs: seq<Container>, k: Resource)
    requires NonNegative(cs, k)
    ensures PodSubtraction(from, cs, k).0 <= from
    decreases |cs|
  {
    if |cs| > 0 {
      assert cs[0] in cs;
      assert NonNegative(cs[1..], k) by { forall c | c in cs[1..] ensures c in cs { } }
      PodSubtractionNotAbove(from - Request(cs[0], k), cs[1..], k);
    }
  }

  /** Larger requests, or a smaller starting value, never turn "not enough" into "enough". */
  lemma {:induction false} PodSubtractionMonotone(from: Quantity, from': Quantity, cs: seq<Container>, cs': seq<Container>, k: Resource)
    requires from' <= from
    requires |cs'| == |cs| && forall i :: 0 <= i < |cs| ==> Request(cs'[i], k) >= Request(cs[i], k)
    ensures PodSubtraction(from', cs', k).1 ==> PodSubtraction(from, cs, k).1
    decreases |cs|
  {
    if |cs| > 0 {
      var rest, rest' := from - Request(cs[0], k), from' - Request(cs'[0], k);
      if rest' >= 0 {
        assert forall i :: 0 <= i < |cs[1..]| ==> Request(cs'[1..][i], k) >= Request(cs[1..][i], k) by {
          forall i | 0 <= i < |cs[1..]| ensures Request(cs'[1..][i], k) >= Request(cs[1..][i], k) {
            assert cs'[1..][i] == cs'[i + 1] && cs[1..][i] == cs[i + 1];
          }
        }
        PodSubtractionMonotone(rest, rest', cs[1..], cs'[1..], k);
      }
    }
  }

  /** Only the requests of the chosen resource matter. */
  lemma {:induction false} PodSubtractionSameRequests(from: Quantity, cs: seq<Container>, cs': seq<Container>, k: Resource)
    requires |cs'| == |cs| && forall i :: 0 <= i < |cs| ==> Request(cs'[i], k) == Request(cs[i], k)
    ensures PodSubtraction(from, cs', k) == PodSubtraction(from, cs, k)
    decreases |cs|
  {
    if |cs| > 0 {
      assert forall i :: 0 <= i < |cs[1..]| ==> Request(cs'[1..][i], k) == Request(cs[1..][i], k) by {
        forall i | 0 <= i < |cs[1..]| ensures Request(cs'[1..][i], k) == Request(cs[1..][i], k) {
          assert cs'[1..][i] == cs'[i + 1] && cs[1..][i] == cs[i + 1];
        }
      }
      PodSubtractionSameRequests(from - Request(cs[0], k), cs[1..], cs'[1..], k);
    }
  }

  method SubstractPodResource(from: Quantity, pod: Pod, k: Resource) returns (rest: Quantity, enough: bool)
    ensures (rest, enough) == PodSubtraction(from, pod.containers, k)
  {
    var cs := pod.containers;
    rest := from;
    for i := 0 to |cs|
      invariant PodSubtraction(rest, cs[i..], k) == PodSubtraction(from, cs, k)
    {
      assert cs[i..][1..] == cs[i + 1..];
      rest := rest - Request(cs[i], k);
      if rest < 0 {
        return rest, false;
      }
    }
    return rest, true;
  }

  method SubPodCpuRequest(from: Quantity, pod: Pod) returns (rest: Quantity, enough: bool)
    ensures (rest, enough) == PodSubtraction(from, pod.containers, Cpu)
  {
    rest, enough := SubstractPodResource(from, pod, Cpu);
  }

  method SubPodMemRequest(from: Quantity, pod: Pod) returns (rest: Quantity, enough: bool)
    ensures (rest, enough) == PodSubtraction(from, pod.containers, Memory)
  {
    rest, enough := SubstractPodResource(from, pod, Memory);
  }

  // ---------------------------------------------------------------------------
  // substractPodsResource

  /** Subtracting pod after pod, stopping at the first pod that is not covered. */
  function PodsSubtraction(from: Quantity, pods: seq<Pod>, k: Resource): (Quantity, bool)
    decreases |pods|
  {
    if |pods| == 0 then (from, true)
    else
      var r := PodSubtraction(from, pods[0].containers, k);
      if !r.1 then r else PodsSubtraction(r.0, pods[1..], k)
  }

  /** On "enough" every pod's requests were subtracted; otherwise the result is negative. */
  lemma {:induction false} PodsSubtractionResult(from: Quantity, pods: seq<Pod>, k: Resource)
    ensures PodsSubtraction(from, pods, k).1 ==> PodsSubtraction(from, pods, k).0 == from - PodsRequest(pods, k)
    ensures !PodsSubtraction(from, pods, k).1 ==> PodsSubtraction(from, pods, k).0 < 0
    decreases |pods|
  {
    if |pods| > 0 {
      var cs := pods[0].containers;
      PodSubtractionEnough(from, cs, k);
      PodSubtractionStops(from, cs, k);
      PodsSubtractionResult(PodSubtraction(from, cs, k).0, pods[1..], k);
    }
  }

  /**
   * With non-negative requests: "enough" exactly when no container is subtracted at all or
   * `from` covers the total request of all the pods.
   */
  lemma {:induction false} PodsSubtractionNonNegative(from: Quantity, pods: seq<Pod>, k: Resource)
    requires forall p | p in pods :: NonNegative(p.containers, k)
    ensures PodsSubtraction(from, pods, k).1 <==> ContainerCount(pods) == 0 || from >= PodsRequest(pods, k)
    decreases |pods|
  {
    if |pods| > 0 {
      var cs := pods[0].containers;
      assert pods[0] in pods;
      assert forall p | p in pods[1..] :: p in pods;
      PodSubtractionNonNegative(from, cs, k);
      PodSubtractionEnough(from, cs, k);
      PodsRequestNonNegative(pods[1..], k);
      PodsSubtractionNonNegative(PodSubtraction(from, cs, k).0, pods[1..], k);
    }
  }

  method SubstractPodsResource(from: Quantity, pods: seq<Pod>, k: Resource) returns (rest: Quantity, enough: bool)
    ensures (rest, enough) == PodsSubtraction(from, pods, k)
  {
    rest := from;
    for i := 0 to |pods|
      invariant PodsSubtraction(rest, pods[i..], k) == PodsSubtraction(from, pods, k)
    {
      assert pods[i..][1..] == pods[i + 1..];
      rest, enough := SubstractPodResource(rest, pods[i], k);
      if !enough {
        return rest, enough;
      }
    }
    return rest, true;
  }

  method SubCpuRequest(from: Quantity, pods: seq<Pod>) returns (rest: Quantity, enough: bool)
    ensures (rest, enough) == PodsSubtraction(from, pods, Cpu)
  {
    rest, enough := SubstractPodsResource(from, pods, Cpu);
  }

  method SubMemRequest(from: Quantity, pods: seq<Pod>) returns (rest: Quantity, enough: bool)
    ensures (rest, enough) == PodsSubtraction(from, pods, Memory)
  {
    rest, enough := SubstractPodsResource(from, pods, Memory);
  }
}
