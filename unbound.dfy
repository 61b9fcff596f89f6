/**
 * Matching a claim against candidate volumes (the scheduler-side matcher of the predicate
 * handler): volume-mode and access-mode checks, the pre-binding test, the per-volume verdict
 * and the scan over the candidates.
 */
module Unbound {
  import opened Wrappers
  import opened Api
  import opened Seqs

  /**
   * A volume is pre-bound or bound to a claim when its claim reference names the claim's
   * namespace and name, and, if the reference records a uid, the claim's uid as well.
   */
  function IsVolumeBoundToClaim(volume: PersistentVolume, claim: PersistentVolumeClaim): (r: bool)
    ensures r <==> volume.claimRef.Some?
                   && volume.claimRef.value.namespace == claim.namespace
                   && volume.claimRef.value.name == claim.name
                   && (volume.claimRef.value.uid == "" || volume.claimRef.value.uid == claim.uid)
  {
    if volume.claimRef.None? then false
    else if claim.name != volume.claimRef.value.name || claim.namespace != volume.claimRef.value.namespace then false
    else if volume.claimRef.value.uid != "" && claim.uid != volume.claimRef.value.uid then false
    else true
  }

  /** A volume is bound to at most one claim key, and to at most one claim uid once its reference records one. */
  lemma BoundToOneClaim(volume: PersistentVolume, c1: PersistentVolumeClaim, c2: PersistentVolumeClaim)
    requires IsVolumeBoundToClaim(volume, c1) && IsVolumeBoundToClaim(volume, c2)
    ensures c1.namespace == c2.namespace && c1.name == c2.name
    ensures volume.claimRef.value.uid != "" ==> c1.uid == c2.uid
  {
  }

  /**
   * (mismatch, err) for the volume modes of a claim and a volume. With the BlockVolume gate off
   * nothing mismatches; with it on, both modes must be set (otherwise defaulting failed, which is
   * an error and counts as a mismatch) and a mismatch is a difference.
   */
  function CheckVolumeModeMisMatches(claim: PersistentVolumeClaim, volume: PersistentVolume, env: Env): (r: (bool, Option<Error>))
    ensures r.1.Some? <==> env.blockVolumeGate && (claim.volumeMode.None? || volume.volumeMode.None?)
    ensures r.1.Some? ==> r.0 && r.1.value == VolumeModeDefaultingFailed
    ensures r.1.None? ==> (r.0 <==> env.blockVolumeGate && claim.volumeMode != volume.volumeMode)
  {
    if env.blockVolumeGate then
      if volume.volumeMode.Some? && claim.volumeMode.Some? then
        (claim.volumeMode.value != volume.volumeMode.value, None)
      else
        (true, Some(VolumeModeDefaultingFailed))
    else
      (false, None)
  }

  /** Every access mode the claim asks for is offered by the volume. */
  predicate AccessModesCovered(claim: PersistentVolumeClaim, volume: PersistentVolume)
  {
    forall m | m in claim.accessModes :: m in volume.accessModes
  }

  method CheckAccessModes(claim: PersistentVolumeClaim, volume: PersistentVolume) returns (ok: bool)
    ensures ok <==> AccessModesCovered(claim, volume)
  {
    var pvModes: map<AccessMode, bool> := map[];
    for i := 0 to |volume.accessModes|
      invariant forall m :: m in pvModes <==> m in volume.accessModes[..i]
    {
      PrefixStep(volume.accessModes, i);
      pvModes := pvModes[volume.accessModes[i] := true];
    }
    assert volume.accessModes[..|volume.accessModes|] == volume.accessModes;
    for i := 0 to |claim.accessModes|
      invariant forall j :: 0 <= j < i ==> claim.accessModes[j] in pvModes
    {
      if claim.accessModes[i] !in pvModes {
        return false;
      }
    }
    return true;
  }

  /** What the matcher does with one candidate: skip it, take it, stop with no match, or stop with an error. */
  datatype Verdict = Skip | Take | Abort | Fail(err: Error)

  predicate Halts(v: Verdict)
  {
    v.Abort? || v.Fail?
  }

  /** A node-affinity check: without a node every volume passes. */
  function AffinityValid(volume: PersistentVolume, node: Option<Node>, env: Env): bool
  {
    node.None? || env.volumeNodeAffinityMatches(volume, node.value.labels)
  }

  /** The checks every candidate goes through first: not excluded, matching volume modes, not being deleted under the gate. */
  predicate PassesCommonChecks(claim: PersistentVolumeClaim, volume: PersistentVolume, excluded: set<string>, env: Env)
  {
    && volume.name !in excluded
    && CheckVolumeModeMisMatches(claim, volume, env).1.None?
    && !CheckVolumeModeMisMatches(claim, volume, env).0
    && !(env.storageObjectInUseProtectionGate && volume.deletionTimestampSet)
  }

  /** A volume pre-bound to the claim that passes the common checks and is large enough. */
  predicate PreBoundCandidate(claim: PersistentVolumeClaim, volume: PersistentVolume, excluded: set<string>, env: Env)
  {
    && PassesCommonChecks(claim, volume, excluded, env)
    && IsVolumeBoundToClaim(volume, claim)
    && volume.capacity >= claim.requestedStorage
  }

  /**
   * A volume not bound to anything that matches the claim: the binding is not delayed to the
   * scheduler, the selector, storage class, node affinity and access modes all fit. No capacity
   * is compared.
   */
  predicate FreeCandidate(claim: PersistentVolumeClaim, volume: PersistentVolume, node: Option<Node>, excluded: set<string>,
                          delayBinding: bool, env: Env)
  {
    && PassesCommonChecks(claim, volume, excluded, env)
    && !IsVolumeBoundToClaim(volume, claim)
    && !(node.None? && delayBinding)
    && volume.claimRef.None?
    && (claim.selector.Some? ==> env.labelSelectorMatches(claim.selector.value, volume.labels))
    && volume.storageClass == claim.storageClass
    && AffinityValid(volume, node, env)
    && AccessModesCovered(claim, volume)
  }

  /** The verdict on one candidate volume, checks taken in the matcher's order. */
  function Judge(claim: PersistentVolumeClaim, volume: PersistentVolume, node: Option<Node>, excluded: set<string>,
                 delayBinding: bool, env: Env): (r: Verdict)
    ensures volume.name in excluded ==> r == Skip
    ensures r.Fail? <==> volume.name !in excluded && CheckVolumeModeMisMatches(claim, volume, env).1.Some?
    ensures PreBoundCandidate(claim, volume, excluded, env) ==> r == (if AffinityValid(volume, node, env) then Take else Abort)
    ensures r.Abort? <==> PreBoundCandidate(claim, volume, excluded, env) && !AffinityValid(volume, node, env)
    ensures r == Take <==>
      (PreBoundCandidate(claim, volume, excluded, env) && AffinityValid(volume, node, env))
      || FreeCandidate(claim, volume, node, excluded, delayBinding, env)
  {
    if volume.name in excluded then Skip
    else
      var (isMisMatch, err) := CheckVolumeModeMisMatches(claim, volume, env);
      if err.Some? then Fail(err.value)
      else if isMisMatch then Skip
      else if env.storageObjectInUseProtectionGate && volume.deletionTimestampSet then Skip
      else
        var nodeAffinityValid := AffinityValid(volume, node, env);
        if IsVolumeBoundToClaim(volume, claim) then
          if volume.capacity < claim.requestedStorage then Skip
          else if !nodeAffinityValid then Abort
          else Take
        else if node.None? && delayBinding then Skip
        else if volume.claimRef.Some? then Skip
        else if claim.selector.Some? && !env.labelSelectorMatches(claim.selector.value, volume.labels) then Skip
        else if volume.storageClass != claim.storageClass then Skip
        else if !nodeAffinityValid then Skip
        else if !AccessModesCovered(claim, volume) then Skip
        else Take
  }

  /** The matcher compares capacity only for a pre-bound volume: for any other the requested size does not matter. */
  lemma JudgeIgnoresRequestWhenUnbound(claim: PersistentVolumeClaim, volume: PersistentVolume, node: Option<Node>,
                                       excluded: set<string>, delayBinding: bool, env: Env, request: int)
    requires !IsVolumeBoundToClaim(volume, claim)
    ensures Judge(claim, volume, node, excluded, delayBinding, env)
            == Judge(claim.(requestedStorage := request), volume, node, excluded, delayBinding, env)
  {
  }

  /** The scan over the candidates, `acc` holding the volumes taken so far. */
  function Scan(claim: PersistentVolumeClaim, volumes: seq<PersistentVolume>, node: Option<Node>, excluded: set<string>,
                delayBinding: bool, env: Env, acc: seq<PersistentVolume>): Result<seq<PersistentVolume>, Error>
    decreases |volumes|
  {
    if |volumes| == 0 then Ok(acc)
    else
      match Judge(claim, volumes[0], node, excluded, delayBinding, env)
      case Skip => Scan(claim, volumes[1..], node, excluded, delayBinding, env, acc)
      case Take => Scan(claim, volumes[1..], node, excluded, delayBinding, env, acc + [volumes[0]])
      case Abort => Ok([])
      case Fail(e) => Err(e)
  }

  /** The matcher: a claim selector that cannot be converted is an error; otherwise the scan from nothing taken. */
  function FindMatching(claim: PersistentVolumeClaim, volumes: seq<PersistentVolume>, node: Option<Node>,
                        excluded: set<string>, delayBinding: bool, env: Env): Result<seq<PersistentVolume>, Error>
  {
    if claim.selector.Some? && !env.labelSelectorValid(claim.selector.value) then
      Err(MalformedSelector(claim.namespace, claim.name))
    else
      Scan(claim, volumes, node, excluded, delayBinding, env, [])
  }

  /** The volumes taken one by one, as a reference for the scan when nothing halts it. */
  function Takes(claim: PersistentVolumeClaim, volumes: seq<PersistentVolume>, node: Option<Node>, excluded: set<string>,
                 delayBinding: bool, env: Env): seq<PersistentVolume>
    decreases |volumes|
  {
    if |volumes| == 0 then []
    else
      (if Judge(claim, volumes[0], node, excluded, delayBinding, env) == Take then [volumes[0]] else [])
      + Takes(claim, volumes[1..], node, excluded, delayBinding, env)
  }

  /** None of the first `n` candidates halts the scan. */
  predicate Clear(claim: PersistentVolumeClaim, volumes: seq<PersistentVolume>, node: Option<Node>, excluded: set<string>,
                  delayBinding: bool, env: Env, n: nat)
    requires n <= |volumes|
  {
    forall j :: 0 <= j < n ==> !Halts(Judge(claim, volumes[j], node, excluded, delayBinding, env))
  }

  lemma ClearShift(claim: PersistentVolumeClaim, volumes: seq<PersistentVolume>, node: Option<Node>, excluded: set<string>,
                   delayBinding: bool, env: Env, n: nat)
    requires 0 < n <= |volumes|
    ensures Clear(claim, volumes, node, excluded, delayBinding, env, n)
            <==> !Halts(Judge(claim, volumes[0], node, excluded, delayBinding, env))
                 && Clear(claim, volumes[1..], node, excluded, delayBinding, env, n - 1)
  {
    if !Halts(Judge(claim, volumes[0], node, excluded, delayBinding, env))
       && Clear(claim, volumes[1..], node, excluded, delayBinding, env, n - 1) {
      forall j | 1 <= j < n ensures !Halts(Judge(claim, volumes[j], node, excluded, delayBinding, env)) {
        assert volumes[j] == volumes[1..][j - 1];
      }
    }
    if Clear(claim, volumes, node, excluded, delayBinding, env, n) {
      forall j | 0 <= j < n - 1 ensures !Halts(Judge(claim, volumes[1..][j], node, excluded, delayBinding, env)) {
        assert volumes[1..][j] == volumes[j + 1];
      }
    }
  }

  /** When no candidate halts the scan, it returns the taken volumes, in order, after those already taken. */
  lemma {:induction false} ScanClear(claim: PersistentVolumeClaim, volumes: seq<PersistentVolume>, node: Option<Node>,
                                     excluded: set<string>, delayBinding: bool, env: Env, acc: seq<PersistentVolume>)
    requires Clear(claim, volumes, node, excluded, delayBinding, env, |volumes|)
    ensures Scan(claim, volumes, node, excluded, delayBinding, env, acc) == Ok(acc + Takes(claim, volumes, node, excluded, delayBinding, env))
    decreases |volumes|
  {
    if |volumes| == 0 {
      assert acc + [] == acc;
    } else {
      var v := Judge(claim, volumes[0], node, excluded, delayBinding, env);
      ClearShift(claim, volumes, node, excluded, delayBinding, env, |volumes|);
      var tail := Takes(claim, volumes[1..], node, excluded, delayBinding, env);
      if v == Take {
        ScanClear(claim, volumes[1..], node, excluded, delayBinding, env, acc + [volumes[0]]);
        assert (acc + [volumes[0]]) + tail == acc + ([volumes[0]] + tail);
      } else {
        ScanClear(claim, volumes[1..], node, excluded, delayBinding, env, acc);
        assert Takes(claim, volumes, node, excluded, delayBinding, env) == [] + tail;
        assert [] + tail == tail;
      }
    }
  }

  /** An error from the scan is the error of the first candidate that halts it. */
  lemma {:induction false} ScanError(claim: PersistentVolumeClaim, volumes: seq<PersistentVolume>, node: Option<Node>,
                                     excluded: set<string>, delayBinding: bool, env: Env, acc: seq<PersistentVolume>)
    requires Scan(claim, volumes, node, excluded, delayBinding, env, acc).Err?
    ensures exists i :: 0 <= i < |volumes|
              && Judge(claim, volumes[i], node, excluded, delayBinding, env)
                 == Fail(Scan(claim, volumes, node, excluded, delayBinding, env, acc).error)
              && Clear(claim, volumes, node, excluded, delayBinding, env, i)
    decreases |volumes|
  {
    var v := Judge(claim, volumes[0], node, excluded, delayBinding, env);
    var e := Scan(claim, volumes, node, excluded, delayBinding, env, acc).error;
    if v.Fail? {
      assert Judge(claim, volumes[0], node, excluded, delayBinding, env) == Fail(e);
      assert Clear(claim, volumes, node, excluded, delayBinding, env, 0);
    } else {
      var acc' := if v == Take then acc + [volumes[0]] else acc;
      ScanError(claim, volumes[1..], node, excluded, delayBinding, env, acc');
      var i :| 0 <= i < |volumes[1..]|
               && Judge(claim, volumes[1..][i], node, excluded, delayBinding, env) == Fail(e)
               && Clear(claim, volumes[1..], node, excluded, delayBinding, env, i);
      ClearShift(claim, volumes, node, excluded, delayBinding, env, i + 1);
      assert volumes[1..][i] == volumes[i + 1];
    }
  }

  /** A pre-bound candidate on which the scan stops with no match makes the whole match empty. */
  lemma {:induction false} ScanAbort(claim: PersistentVolumeClaim, volumes: seq<PersistentVolume>, node: Option<Node>,
                                     excluded: set<string>, delayBinding: bool, env: Env, acc: seq<PersistentVolume>, i: nat)
    requires i < |volumes| && Judge(claim, volumes[i], node, excluded, delayBinding, env) == Abort
    requires Clear(claim, volumes, node, excluded, delayBinding, env, i)
    ensures Scan(claim, volumes, node, excluded, delayBinding, env, acc) == Ok([])
    decreases i
  {
    if i > 0 {
      var v := Judge(claim, volumes[0], node, excluded, delayBinding, env);
      ClearShift(claim, volumes, node, excluded, delayBinding, env, i);
      assert volumes[1..][i - 1] == volumes[i];
      var acc' := if v == Take then acc + [volumes[0]] else acc;
      ScanAbort(claim, volumes[1..], node, excluded, delayBinding, env, acc', i - 1);
    }
  }

  /** Without a node nothing aborts the scan, so a candidate that fails the mode check makes it an error. */
  lemma {:induction false} ScanFailsWithoutNode(claim: PersistentVolumeClaim, volumes: seq<PersistentVolume>, excluded: set<string>,
                                                delayBinding: bool, env: Env, acc: seq<PersistentVolume>, i: nat)
    requires i < |volumes| && Judge(claim, volumes[i], None, excluded, delayBinding, env).Fail?
    ensures Scan(claim, volumes, None, excluded, delayBinding, env, acc).Err?
    decreases i
  {
    if i > 0 && !Judge(claim, volumes[0], None, excluded, delayBinding, env).Fail? {
      var v := Judge(claim, volumes[0], None, excluded, delayBinding, env);
      assert volumes[1..][i - 1] == volumes[i];
      var acc' := if v == Take then acc + [volumes[0]] else acc;
      ScanFailsWithoutNode(claim, volumes[1..], excluded, delayBinding, env, acc', i - 1);
    }
  }

  /** The taken volumes are exactly the candidates whose verdict is Take. */
  lemma {:induction false} TakesMembers(claim: PersistentVolumeClaim, volumes: seq<PersistentVolume>, node: Option<Node>,
                                        excluded: set<string>, delayBinding: bool, env: Env)
    ensures forall v :: v in Takes(claim, volumes, node, excluded, delayBinding, env)
                        <==> v in volumes && Judge(claim, v, node, excluded, delayBinding, env) == Take
    decreases |volumes|
  {
    if |volumes| > 0 {
      TakesMembers(claim, volumes[1..], node, excluded, delayBinding, env);
      assert volumes == [volumes[0]] + volumes[1..];
    }
  }

  /**
   * What a successful scan returns is taken from the candidates in order (it adds to the volumes
   * already taken), and every volume it adds passed every check.
   */
  lemma {:induction false} ScanSound(claim: PersistentVolumeClaim, volumes: seq<PersistentVolume>, node: Option<Node>,
                                     excluded: set<string>, delayBinding: bool, env: Env, acc: seq<PersistentVolume>)
    requires Scan(claim, volumes, node, excluded, delayBinding, env, acc).Ok?
    ensures var r := Scan(claim, volumes, node, excluded, delayBinding, env, acc).value;
            r == [] || (|acc| <= |r| && r[..|acc|] == acc && Subsequence(r[|acc|..], volumes)
                        && forall i :: |acc| <= i < |r| ==> Judge(claim, r[i], node, excluded, delayBinding, env) == Take)
    decreases |volumes|
  {
    if |volumes| > 0 {
      var v := Judge(claim, volumes[0], node, excluded, delayBinding, env);
      if v == Skip || v == Take {
        var acc' := if v == Take then acc + [volumes[0]] else acc;
        ScanSound(claim, volumes[1..], node, excluded, delayBinding, env, acc');
        var r := Scan(claim, volumes, node, excluded, delayBinding, env, acc).value;
        if r != [] {
          ExtendTaken(acc, v == Take, r, volumes);
        }
      }
    } else {
      assert Scan(claim, volumes, node, excluded, delayBinding, env, acc).value[|acc|..] == [];
    }
  }

  /**
   * A result that continues `acc`, extended by the first candidate when it was taken, with the
   * rest drawn in order from the later candidates, continues `acc` with the rest drawn in order
   * from all candidates.
   */
  lemma ExtendTaken<T>(acc: seq<T>, taken: bool, r: seq<T>, volumes: seq<T>)
    requires |volumes| > 0
    requires var acc' := if taken then acc + [volumes[0]] else acc;
             |acc'| <= |r| && r[..|acc'|] == acc' && Subsequence(r[|acc'|..], volumes[1..])
    ensures |acc| <= |r| && r[..|acc|] == acc && Subsequence(r[|acc|..], volumes)
    ensures taken ==> r[|acc|] == volumes[0]
  {
    var acc' := if taken then acc + [volumes[0]] else acc;
    assert r[..|acc|] == acc by { assert r[..|acc|] == r[..|acc'|][..|acc|]; }
    SubsequenceFront(r[|acc'|..], volumes[1..], volumes);
    if taken {
      assert r[|acc|..] == [volumes[0]] + r[|acc'|..];
      SubsequenceCons(volumes[0], r[|acc'|..], volumes[1..]);
      assert [volumes[0]] + volumes[1..] == volumes;
    }
  }

  /** Dropping the first element of the larger sequence keeps a subsequence a subsequence. */
  lemma {:induction false} SubsequenceFront<T>(a: seq<T>, b: seq<T>, c: seq<T>)
    requires |c| > 0 && b == c[1..] && Subsequence(a, b)
    ensures Subsequence(a, c)
    decreases |b|
  {
    if |a| > 0 && |b| > 0 {
      var b', c' := b[..|b| - 1], c[..|c| - 1];
      assert b' == c'[1..];
      assert b[|b| - 1] == c[|c| - 1];
      if a[|a| - 1] == b[|b| - 1] && Subsequence(a[..|a| - 1], b') {
        SubsequenceFront(a[..|a| - 1], b', c');
      } else {
        SubsequenceFront(a, b', c');
      }
    }
  }

  /** Putting the same element in front of both sequences keeps a subsequence a subsequence. */
  lemma {:induction false} SubsequenceCons<T>(x: T, a: seq<T>, b: seq<T>)
    requires Subsequence(a, b)
    ensures Subsequence([x] + a, [x] + b)
    decreases |b|
  {
    var A, B := [x] + a, [x] + b;
    if |b| == 0 {
      assert |a| == 0;
      assert A == [x] && B == [x];
      assert A[..0] == [];
    } else {
      var b' := b[..|b| - 1];
      assert B[..|B| - 1] == [x] + b';
      if |a| == 0 {
        assert [x] + a == [x] + [];
        SubsequenceCons(x, a, b');
        assert Subsequence(A, B[..|B| - 1]);
      } else {
        var a' := a[..|a| - 1];
        assert A[..|A| - 1] == [x] + a';
        assert A[|A| - 1] == a[|a| - 1] && B[|B| - 1] == b[|b| - 1];
        if a[|a| - 1] == b[|b| - 1] && Subsequence(a', b') {
          SubsequenceCons(x, a', b');
        } else {
          SubsequenceCons(x, a, b');
        }
      }
    }
  }

  lemma EmptySubsequence<T>(b: seq<T>)
    ensures Subsequence([], b)
  {
  }

  /**
   * With no node and no delayed binding, volumes are never aborted on; with the BlockVolume gate
   * off nothing fails; so a valid selector then always gives the taken volumes.
   */
  lemma FindMatchingWithoutNode(claim: PersistentVolumeClaim, volumes: seq<PersistentVolume>, excluded: set<string>,
                                delayBinding: bool, env: Env)
    requires !env.blockVolumeGate
    requires claim.selector.None? || env.labelSelectorValid(claim.selector.value)
    ensures FindMatching(claim, volumes, None, excluded, delayBinding, env)
            == Ok(Takes(claim, volumes, None, excluded, delayBinding, env))
  {
    assert Clear(claim, volumes, None, excluded, delayBinding, env, |volumes|);
    ScanClear(claim, volumes, None, excluded, delayBinding, env, []);
    assert [] + Takes(claim, volumes, None, excluded, delayBinding, env) == Takes(claim, volumes, None, excluded, delayBinding, env);
  }

  /** Every volume a successful match returns is one of the candidates and passed every check. */
  lemma FindMatchingSound(claim: PersistentVolumeClaim, volumes: seq<PersistentVolume>, node: Option<Node>,
                          excluded: set<string>, delayBinding: bool, env: Env)
    requires FindMatching(claim, volumes, node, excluded, delayBinding, env).Ok?
    ensures Subsequence(FindMatching(claim, volumes, node, excluded, delayBinding, env).value, volumes)
    ensures forall v | v in FindMatching(claim, volumes, node, excluded, delayBinding, env).value ::
              Judge(claim, v, node, excluded, delayBinding, env) == Take
  {
    ScanSound(claim, volumes, node, excluded, delayBinding, env, []);
    var r := FindMatching(claim, volumes, node, excluded, delayBinding, env).value;
    if r == [] {
      EmptySubsequence(volumes);
    } else {
      assert r[0..] == r;
    }
  }

  /** A claim whose selector cannot be converted is an error whatever the candidates. */
  lemma FindMatchingMalformedSelector(claim: PersistentVolumeClaim, volumes: seq<PersistentVolume>, node: Option<Node>,
                                      excluded: set<string>, delayBinding: bool, env: Env)
    requires claim.selector.Some? && !env.labelSelectorValid(claim.selector.value)
    ensures FindMatching(claim, volumes, node, excluded, delayBinding, env) == Err(MalformedSelector(claim.namespace, claim.name))
  {
  }

  method FindMatchingVolume(claim: PersistentVolumeClaim, volumes: seq<PersistentVolume>, node: Option<Node>,
                            excludedVolumes: set<string>, delayBinding: bool, env: Env)
    returns (r: Result<seq<PersistentVolume>, Error>)
    ensures r == FindMatching(claim, volumes, node, excludedVolumes, delayBinding, env)
  {
    if claim.selector.Some? && !env.labelSelectorValid(claim.selector.value) {
      return Err(MalformedSelector(claim.namespace, claim.name));
    }
    var result: seq<PersistentVolume> := [];
    for i := 0 to |volumes|
      invariant Scan(claim, volumes, node, excludedVolumes, delayBinding, env, [])
                == Scan(claim, volumes[i..], node, excludedVolumes, delayBinding, env, result)
    {
      var volume := volumes[i];
      assert volumes[i..][0] == volume && volumes[i..][1..] == volumes[i + 1..];
      if volume.name in excludedVolumes {
        continue;
      }
      var (isMisMatch, err) := CheckVolumeModeMisMatches(claim, volume, env);
      if err.Some? {
        return Err(err.value);
      }
      if isMisMatch {
        continue;
      }
      if env.storageObjectInUseProtectionGate && volume.deletionTimestampSet {
        continue;
      }
      var nodeAffinityValid := true;
      if node.Some? && !env.volumeNodeAffinityMatches(volume, node.value.labels) {
        nodeAffinityValid := false;
      }
      if IsVolumeBoundToClaim(volume, claim) {
        if volume.capacity < claim.requestedStorage {
          continue;
        }
        if !nodeAffinityValid {
          return Ok([]);
        }
        result := result + [volume];
        continue;
      }
      if node.None? && delayBinding {
        continue;
      }
      if volume.claimRef.Some? {
        continue;
      } else if claim.selector.Some? && !env.labelSelectorMatches(claim.selector.value, volume.labels) {
        continue;
      }
      if volume.storageClass != claim.storageClass {
        continue;
      }
      if !nodeAffinityValid {
        continue;
      }
      var modesOk := CheckAccessModes(claim, volume);
      if !modesOk {
        continue;
      }
      result := result + [volume];
    }
    return Ok(result);
  }
}
