/**
 * internal/controller/natscluster_controller.go, steps 7 to 9 of Reconcile with reloadNatsPods and
 * waitForCurrentConfig: one reload pass as the operator executes it. What the pods and the API
 * server answer is an input.
 */
module ReloadPass {
  import opened Text
  import opened Api

  /** A pod as the pod list shows it. */
  datatype PodView = PodView(name: string, running: bool)

  /** What one check of a pod's mounted file says. */
  datatype Probe = Current | Stale | ProbeFailed

  /** A pass so far: is every pod confirmed, and which pods got a SIGHUP (in order). */
  datatype PassAcc = PassAcc(inSync: bool, signalled: seq<string>)

  datatype PassResult = Going(acc: PassAcc) | Aborted(acc: PassAcc)

  const EMPTY_PASS := PassAcc(true, [])

  /** One turn of the pod loop; delivered says whether ReloadPod reported success. */
  function PassStep(acc: PassAcc, pod: PodView, probe: Probe, delivered: bool): PassResult
  {
    if !pod.running then Going(acc.(inSync := false)) else
      match probe
      case ProbeFailed => Aborted(acc)
      case Stale => Going(acc.(inSync := false))
      case Current =>
        if delivered then Going(acc.(signalled := acc.signalled + [pod.name])) else Aborted(acc)
  }

  // ---- waiting for one pod ----

  const SYNC_TIMEOUT := 5000
  const SYNC_POLL := 500
  const MAX_CHECKS := 12

  /** clock(0) is read before the loop, clock(k) after check k; every sleep lasts the poll interval or longer. */
  ghost predicate ClockAdvances(clock: nat -> int)
  {
    clock(0) <= clock(1) && forall k: nat :: 1 <= k ==> clock(k) + SYNC_POLL <= clock(k + 1)
  }

  lemma {:induction false} ClockLowerBound(clock: nat -> int, k: nat)
    requires ClockAdvances(clock) && 1 <= k
    ensures clock(0) + SYNC_POLL * (k - 1) <= clock(k)
  {
    if k > 1 {
      ClockLowerBound(clock, k - 1);
      assert clock(k - 1) + SYNC_POLL <= clock(k - 1 + 1);
    }
  }

  /**
   * Polls one pod. answer(k) is the result of check k, cancelled(k) says that the context ended
   * during the sleep after check k. The answer is that of the last check made, every earlier
   * check was stale, and at most twelve checks are made.
   */
  method WaitForCurrentConfig(answer: nat -> Probe, clock: nat -> int, cancelled: nat -> bool)
    returns (result: Probe, checks: nat)
    requires ClockAdvances(clock)
    ensures 1 <= checks <= 12
    ensures forall k: nat :: 1 <= k < checks ==>
              answer(k) == Stale && !cancelled(k) && clock(k) <= clock(0) + 5000
    ensures result == Current <==> answer(checks) == Current
    ensures result == Stale <==> answer(checks) == Stale && clock(checks) > clock(0) + 5000
    ensures result == ProbeFailed <==>
            answer(checks) == ProbeFailed
            || (answer(checks) == Stale && clock(checks) <= clock(0) + 5000 && cancelled(checks))
  {
    var deadline := clock(0) + SYNC_TIMEOUT;
    checks := 0;
    while true
      invariant 0 <= checks < MAX_CHECKS
      invariant forall k: nat :: 1 <= k <= checks ==>
                  answer(k) == Stale && !cancelled(k) && clock(k) <= deadline
      decreases MAX_CHECKS - checks
    {
      checks := checks + 1;
      ClockLowerBound(clock, checks);
      match answer(checks) {
        case ProbeFailed => return ProbeFailed, checks;
        case Current => return Current, checks;
        case Stale =>
      }
      if clock(checks) > deadline {
        return Stale, checks;
      }
      if cancelled(checks) {
        return ProbeFailed, checks;
      }
    }
  }

  // ---- the pass over all listed pods ----

  /** A pod that makes reloadNatsPods return an error. */
  predicate Aborts(pod: PodView, probe: Probe, delivered: bool)
  {
    pod.running && (probe == ProbeFailed || (probe == Current && !delivered))
  }

  predicate Confirmed(pod: PodView, probe: Probe)
  {
    pod.running && probe == Current
  }

  /** Names of the confirmed pods, in list order. */
  function SignalledNames(pods: seq<PodView>, probes: seq<Probe>): seq<string>
    requires |probes| == |pods|
  {
    if pods == [] then [] else
      SignalledNames(pods[..|pods| - 1], probes[..|pods| - 1])
      + if Confirmed(pods[|pods| - 1], probes[|pods| - 1]) then [pods[|pods| - 1].name] else []
  }

  /** The whole loop as repeated turns; after an abort nothing more happens. */
  function PassFold(pods: seq<PodView>, probes: seq<Probe>, delivered: seq<bool>): PassResult
    requires |probes| == |delivered| == |pods|
  {
    if pods == [] then Going(EMPTY_PASS) else
      var n := |pods| - 1;
      match PassFold(pods[..n], probes[..n], delivered[..n])
      case Aborted(acc) => Aborted(acc)
      case Going(acc) => PassStep(acc, pods[n], probes[n], delivered[n])
  }

  datatype Workload = Workload(kind: string, name: string)

  /** The errors that come before the pod loop. */
  predicate LookupFails(ref: Workload, found: string -> bool, selectorOk: bool, listing: Option<seq<PodView>>)
  {
    ref.kind !in {"Deployment", "StatefulSet"} || !found(ref.kind) || !selectorOk || listing.None?
  }

  predicate PassFails(ref: Workload, found: string -> bool, selectorOk: bool, listing: Option<seq<PodView>>,
                      probes: seq<Probe>, delivered: seq<bool>)
    requires listing.Some? ==> |probes| == |delivered| == |listing.value|
  {
    LookupFails(ref, found, selectorOk, listing)
    || exists i :: 0 <= i < |listing.value| && Aborts(listing.value[i], probes[i], delivered[i])
  }

  /** The pass stops at its first abort: later pods get no signal. */
  lemma {:induction false} AbortIsFinal(pods: seq<PodView>, probes: seq<Probe>, delivered: seq<bool>, i: nat)
    requires |probes| == |delivered| == |pods| && i < |pods|
    requires PassFold(pods[..i], probes[..i], delivered[..i]).Going?
    requires Aborts(pods[i], probes[i], delivered[i])
    ensures PassFold(pods, probes, delivered) == Aborted(PassFold(pods[..i], probes[..i], delivered[..i]).acc)
    decreases |pods|
  {
    var n := |pods| - 1;
    if i < n {
      assert pods[..n][..i] == pods[..i] && probes[..n][..i] == probes[..i] && delivered[..n][..i] == delivered[..i];
      AbortIsFinal(pods[..n], probes[..n], delivered[..n], i);
    }
  }

  /** signalled are the names of exactly the running pods with a current file, in list order. */
  ghost predicate SignalsCurrent(pods: seq<PodView>, probes: seq<Probe>, signalled: seq<string>, at: seq<nat>)
    requires |probes| == |pods|
  {
    && |at| == |signalled| && (forall k, l :: 0 <= k < l < |at| ==> at[k] < at[l])
    && (forall k :: 0 <= k < |at| ==> at[k] < |pods| && signalled[k] == pods[at[k]].name)
    && forall i: nat :: i < |pods| ==> (i in at <==> pods[i].running && probes[i] == Current)
  }

  lemma OneMoreSignal(pods: seq<PodView>, probes: seq<Probe>, signalled: seq<string>, at: seq<nat>)
    requires |probes| == |pods| && pods != []
    requires SignalsCurrent(pods[..|pods| - 1], probes[..|pods| - 1], signalled, at)
    ensures var n := |pods| - 1;
            if Confirmed(pods[n], probes[n]) then SignalsCurrent(pods, probes, signalled + [pods[n].name], at + [n])
            else SignalsCurrent(pods, probes, signalled, at)
  {
    var n := |pods| - 1;
    assert forall i :: 0 <= i < n ==> pods[..n][i] == pods[i] && probes[..n][i] == probes[i];
    assert forall k :: 0 <= k < |at| ==> at[k] < n;
    assert n !in at;
  }

  lemma {:induction false} SignalledExactly(pods: seq<PodView>, probes: seq<Probe>) returns (at: seq<nat>)
    requires |probes| == |pods|
    ensures SignalsCurrent(pods, probes, SignalledNames(pods, probes), at)
  {
    at := [];
    if pods != [] {
      var n := |pods| - 1;
      at := SignalledExactly(pods[..n], probes[..n]);
      OneMoreSignal(pods, probes, SignalledNames(pods[..n], probes[..n]), at);
      hide SignalsCurrent;
      at := at + if Confirmed(pods[n], probes[n]) then [n] else [];
    }
  }

  /** Pod i is the first that makes the pass fail: its check failed, or its file is current and the signal is lost. */
  ghost predicate FailsAt(pods: seq<PodView>, probes: seq<Probe>, delivered: seq<bool>, i: nat)
    requires |probes| == |delivered| == |pods|
  {
    && i < |pods| && pods[i].running && (probes[i] == ProbeFailed || (probes[i] == Current && !delivered[i]))
    && forall j :: 0 <= j < i && pods[j].running ==> probes[j] == Stale || (probes[j] == Current && delivered[j])
  }

  /** If some pod makes the pass fail, one is the first. */
  lemma FirstFailure(pods: seq<PodView>, probes: seq<Probe>, delivered: seq<bool>)
    requires |probes| == |delivered| == |pods|
    ensures (exists i :: 0 <= i < |pods| && Aborts(pods[i], probes[i], delivered[i]))
            <==> exists i: nat :: FailsAt(pods, probes, delivered, i)
  {
    if i :| 0 <= i < |pods| && Aborts(pods[i], probes[i], delivered[i]) {
      var k := 0;
      while !Aborts(pods[k], probes[k], delivered[k])
        invariant 0 <= k <= i && forall j :: 0 <= j < k ==> !Aborts(pods[j], probes[j], delivered[j])
        decreases i - k
      {
        k := k + 1;
      }
      assert FailsAt(pods, probes, delivered, k);
    }
  }

  /** The loop over the listed pods. */
  method SignalPods(pods: seq<PodView>, probes: seq<Probe>, delivered: seq<bool>)
    returns (inSync: bool, failed: bool, signalled: seq<string>)
    requires |probes| == |delivered| == |pods|
    ensures failed <==> exists i :: 0 <= i < |pods| && Aborts(pods[i], probes[i], delivered[i])
    ensures failed ==> !inSync && exists i: nat :: FailsAt(pods, probes, delivered, i)
                                              && signalled == SignalledNames(pods[..i], probes[..i])
    ensures !failed ==> (inSync <==> forall i :: 0 <= i < |pods| ==> Confirmed(pods[i], probes[i]))
    ensures !failed ==> signalled == SignalledNames(pods, probes)
    ensures PassFold(pods, probes, delivered)
            == if failed then Aborted(PassFold(pods, probes, delivered).acc) else Going(PassAcc(inSync, signalled))
    ensures signalled == PassFold(pods, probes, delivered).acc.signalled
  {
    inSync, failed, signalled := true, false, [];
    for i := 0 to |pods|
      invariant !failed
      invariant forall j :: 0 <= j < i ==> !Aborts(pods[j], probes[j], delivered[j])
      invariant inSync <==> forall j :: 0 <= j < i ==> Confirmed(pods[j], probes[j])
      invariant signalled == SignalledNames(pods[..i], probes[..i])
      invariant PassFold(pods[..i], probes[..i], delivered[..i]) == Going(PassAcc(inSync, signalled))
    {
      assert pods[..i + 1][..i] == pods[..i] && probes[..i + 1][..i] == probes[..i];
      assert delivered[..i + 1][..i] == delivered[..i];
      if Aborts(pods[i], probes[i], delivered[i]) {
        AbortIsFinal(pods, probes, delivered, i);
        assert FailsAt(pods, probes, delivered, i);
      }
      if !pods[i].running {
        inSync := false;
        continue;
      }
      match probes[i] {
        case ProbeFailed => return false, true, signalled;
        case Stale =>
          inSync := false;
          continue;
        case Current =>
      }
      if !delivered[i] {
        return false, true, signalled;
      }
      signalled := signalled + [pods[i].name];
    }
    assert pods[..|pods|] == pods && probes[..|pods|] == probes && delivered[..|pods|] == delivered;
  }

  /**
   * reloadNatsPods. found(kind): the workload of this kind exists; selectorOk: its selector parses; listing:
   * the pod list, None when the List call fails. probes[i] and delivered[i] are the answers for pod i.
   */
  method ReloadNatsPods(ref: Workload, found: string -> bool, selectorOk: bool, listing: Option<seq<PodView>>,
                        probes: seq<Probe>, delivered: seq<bool>)
    returns (inSync: bool, failed: bool, signalled: seq<string>)
    requires listing.Some? ==> |probes| == |delivered| == |listing.value|
    ensures failed <==> PassFails(ref, found, selectorOk, listing, probes, delivered)
    ensures failed ==> !inSync
    ensures (ref.kind != "Deployment" && ref.kind != "StatefulSet") || !found(ref.kind) || !selectorOk || listing.None?
            ==> failed && signalled == []
    ensures (ref.kind == "Deployment" || ref.kind == "StatefulSet") && found(ref.kind) && selectorOk && listing.Some?
            ==> var pods := listing.value;
                && (failed <==> exists i: nat :: FailsAt(pods, probes, delivered, i))
                && (failed ==> exists i: nat :: FailsAt(pods, probes, delivered, i)
                                                && signalled == SignalledNames(pods[..i], probes[..i]))
                && (!failed ==> signalled == SignalledNames(pods, probes))
                && (!failed ==> (inSync <==> forall i :: 0 <= i < |pods| ==> pods[i].running && probes[i] == Current))
    ensures !failed ==> (inSync <==> forall i :: 0 <= i < |probes| ==> Confirmed(listing.value[i], probes[i]))
    ensures !LookupFails(ref, found, selectorOk, listing) ==>
              PassFold(listing.value, probes, delivered)
              == if failed then Aborted(PassFold(listing.value, probes, delivered).acc)
                 else Going(PassAcc(inSync, signalled))
    ensures !LookupFails(ref, found, selectorOk, listing) ==>
              signalled == PassFold(listing.value, probes, delivered).acc.signalled
  {
    hide FailsAt, SignalledNames, PassFold, Aborts;
    match ref.kind {
      case "Deployment" =>
        if !found("Deployment") {
          return false, true, [];
        }
      case "StatefulSet" =>
        if !found("StatefulSet") {
          return false, true, [];
        }
      case _ => return false, true, [];
    }
    if !selectorOk {
      return false, true, [];
    }
    if listing.None? {
      return false, true, [];
    }
    FirstFailure(listing.value, probes, delivered);
    inSync, failed, signalled := SignalPods(listing.value, probes, delivered);
  }

  // ---- deciding on a pass and recording its outcome ----

  /** Step 7: a pass runs when the config changed or this process has not signalled the cluster yet. */
  predicate NeedsPass(hasServerRef: bool, hash: string, seenHash: string, reloadedOnce: bool)
  {
    hasServerRef && (hash != seenHash || !reloadedOnce)
  }

  /** Step 8: the hash only advances when every pod was confirmed. */
  function RecordedHash(inSync: bool, hash: string, seenHash: string): string
  {
    if inSync then hash else seenHash
  }

  datatype StatusWrite = Written | Conflict | WriteFailed

  datatype ReconcileResult = Done | RequeueSoon | RequeueNow | ReconcileError

  /** The persisted NatsCluster object, as far as a reconcile's tail writes it. */
  class ClusterObject {
    var lastConfigHash: string
    var accountCount: nat
    var userCount: nat

    constructor ()
      ensures lastConfigHash == "" && accountCount == 0 && userCount == 0
    {
      lastConfigHash, accountCount, userCount := "", 0, 0;
    }
  }

  class NatsClusterReconciler {
    var reloadedOnce: set<Key>

    constructor ()
      ensures reloadedOnce == {}
    {
      reloadedOnce := {};
    }

    /**
     * Reconcile from step 7 on, after the ConfigMap has been written. seenHash is the status this
     * reconcile read; an accepted write needs it to be the stored one (resourceVersion check).
     * statusUpdateFailed: an account or user status write failed earlier.
     */
    method FinishReconcile(key: Key, stored: ClusterObject, seenHash: string, hash: string,
                           accounts: nat, users: nat, statusUpdateFailed: bool, serverRef: Option<Workload>,
                           found: string -> bool, selectorOk: bool, listing: Option<seq<PodView>>,
                           probes: seq<Probe>, delivered: seq<bool>, write: StatusWrite)
      returns (result: ReconcileResult, ghost passFailed: bool, ghost inSync: bool, signalled: seq<string>)
      requires listing.Some? ==> |probes| == |delivered| == |listing.value|
      requires write == Written ==> seenHash == stored.lastConfigHash
      modifies this, stored
      ensures !NeedsPass(serverRef.Some?, hash, seenHash, key in old(reloadedOnce)) ==>
                signalled == [] && inSync && !passFailed && reloadedOnce == old(reloadedOnce)
      ensures NeedsPass(serverRef.Some?, hash, seenHash, key in old(reloadedOnce)) ==>
                && passFailed == PassFails(serverRef.value, found, selectorOk, listing, probes, delivered)
                && reloadedOnce == old(reloadedOnce) + (if passFailed then {} else {key})
                && (!passFailed ==>
                      && (inSync <==> forall i :: 0 <= i < |probes| ==> Confirmed(listing.value[i], probes[i]))
                      && signalled == SignalledNames(listing.value, probes))
                && (passFailed ==> !inSync)
      ensures stored.lastConfigHash ==
              if !passFailed && write == Written then RecordedHash(inSync, hash, seenHash)
              else old(stored.lastConfigHash)
      ensures stored.lastConfigHash != old(stored.lastConfigHash) ==>
                stored.lastConfigHash == hash && inSync && !passFailed
      ensures stored.accountCount == (if !passFailed && write == Written then accounts else old(stored.accountCount))
      ensures stored.userCount == (if !passFailed && write == Written then users else old(stored.userCount))
      ensures result == ReconcileError <==> passFailed || write == WriteFailed
      ensures result == RequeueNow <==> !passFailed && write == Conflict
      ensures result == Done <==> !passFailed && write == Written && !statusUpdateFailed && inSync
    {
      var configChanged := hash != seenHash;
      var allPodsInSync := true;
      inSync, passFailed, signalled := true, false, [];
      if serverRef.Some? && (configChanged || key !in reloadedOnce) {
        var synced, failed;
        synced, failed, signalled :=
          ReloadNatsPods(serverRef.value, found, selectorOk, listing, probes, delivered);
        inSync, passFailed := synced, failed;
        if failed {
          return ReconcileError, passFailed, inSync, signalled;
        }
        allPodsInSync := synced;
        reloadedOnce := reloadedOnce + {key};
      }
      match write {
        case Conflict => return RequeueNow, passFailed, inSync, signalled;
        case WriteFailed => return ReconcileError, passFailed, inSync, signalled;
        case Written =>
      }
      stored.lastConfigHash := if allPodsInSync then hash else seenHash;
      stored.accountCount, stored.userCount := accounts, users;
      if statusUpdateFailed || !allPodsInSync {
        result := RequeueSoon;
      } else {
        result := Done;
      }
    }
  }
}
