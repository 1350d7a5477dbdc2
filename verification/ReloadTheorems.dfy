/** What the reload protocol guarantees over whole runs, and the run on which it guarantees less. */
module ReloadTheorems {
  import opened Text
  import opened HashHeader
  import opened ReloadPass
  import opened ReloadProtocol

  // ---- safety of signals and of the recorded hash ----

  /** Every SIGHUP of every run makes its pod load exactly the file this reconcile published. */
  lemma SighupLoadsPublishedFile(c: Context, s0: State, run: seq<Event>, e: Event)
    requires Legal(c) && Init(c, s0) && Valid(c, s0, run)
    requires Enabled(c, After(c, s0, run), e) && (e == Signal || e == SignalLost(true))
    ensures var s := After(c, s0, run);
            var p := s.worker.listed[s.worker.done].name;
            && p in Next(c, s, e).pods && s.published != []
            && s.worker.body == Latest(s.published)
            && Next(c, s, e).pods[p].loaded == FileText(c, s.worker.body)
  {
    InitInv(c, s0);
    RunKeepsInv(c, s0, run);
    SignalLoadsPublished(c, After(c, s0, run));
  }

  /**
   * LastConfigHash changes in no other way than this: a pass over all pods found every one of them
   * running and showing the published hash, and signalled every one of them.
   */
  lemma HashAdvancesOnlyAfterFullPass(c: Context, s0: State, run: seq<Event>, e: Event)
    requires Legal(c) && Init(c, s0) && Valid(c, s0, run)
    requires Enabled(c, After(c, s0, run), e)
    ensures var s := After(c, s0, run);
            var t := Next(c, s, e);
            && s.statuses != [] && t.statuses != []
            && (Latest(t.statuses) != Latest(s.statuses) ==>
                  && e == WriteStatus && s.worker.passed
                  && AllRunning(s.worker.listed) && s.worker.acc.signalled == Names(s.worker.listed)
                  && AllUpToDate(c, s) && Latest(t.statuses) == c.sha(Latest(s.published)))
  {
    InitInv(c, s0);
    RunKeepsInv(c, s0, run);
  }

  // ---- "no pass needed" ----

  /** A change of the ConfigMap that does not go back to the last confirmed hash. */
  ghost predicate NoRevertStep(c: Context, s: State, e: Event)
    requires Enabled(c, s, e) && s.statuses != []
  {
    e.Publish? && (s.published == [] || Latest(s.published) != s.worker.body) ==>
      c.sha(s.worker.body) != Latest(s.statuses)
  }

  ghost predicate NoRevert(c: Context, s: State, run: seq<Event>)
    requires Valid(c, s, run)
    decreases |run|
  {
    run == [] ||
    (s.statuses != [] && NoRevertStep(c, s, run[0]) && NoRevert(c, Next(c, s, run[0]), run[1..]))
  }

  lemma PodEventKeepsAllUpToDate(c: Context, s: State, e: Event)
    requires Legal(c) && Inv(c, s) && AllUpToDate(c, s) && Enabled(c, s, e) && PodEvent(e)
    ensures AllUpToDate(c, Next(c, s, e))
  {
    var t := Next(c, s, e);
    forall p | p in t.pods ensures UpToDate(c, t, t.pods[p]) {
      PodEventKeepsUpToDate(c, s, e, p);
    }
  }

  lemma SignalKeepsAllUpToDate(c: Context, s: State, e: Event)
    requires Legal(c) && Inv(c, s) && AllUpToDate(c, s) && Enabled(c, s, e)
    requires e == Signal || e == SignalLost(true)
    ensures AllUpToDate(c, Next(c, s, e))
  {
    SignalLoadsPublished(c, s);
  }

  lemma ControlKeepsConfirmed(c: Context, s: State, e: Event)
    requires Legal(c) && Inv(c, s) && ConfirmedInv(c, s) && Enabled(c, s, e) && NoRevertStep(c, s, e)
    requires !PodEvent(e) && e != Signal && e != SignalLost(true)
    ensures ConfirmedInv(c, Next(c, s, e))
  {
    var t := Next(c, s, e);
    assert t.pods == s.pods;
    if e.Publish? {
    } else if e.WriteStatus? {
      assert t.published == s.published;
    } else {
      assert t.published == s.published && t.statuses == s.statuses;
    }
  }

  lemma StepKeepsConfirmed(c: Context, s: State, e: Event)
    requires Legal(c) && Inv(c, s) && ConfirmedInv(c, s) && Enabled(c, s, e) && NoRevertStep(c, s, e)
    ensures Inv(c, Next(c, s, e)) && ConfirmedInv(c, Next(c, s, e))
  {
    StepKeepsInv(c, s, e);
    if PodEvent(e) {
      if AllUpToDate(c, s) {
        PodEventKeepsAllUpToDate(c, s, e);
      }
    } else if e == Signal || e == SignalLost(true) {
      if AllUpToDate(c, s) {
        SignalKeepsAllUpToDate(c, s, e);
      }
    } else {
      ControlKeepsConfirmed(c, s, e);
    }
  }

  lemma {:induction false} RunKeepsConfirmed(c: Context, s: State, run: seq<Event>)
    requires Legal(c) && Inv(c, s) && ConfirmedInv(c, s) && Valid(c, s, run) && NoRevert(c, s, run)
    ensures Inv(c, After(c, s, run)) && ConfirmedInv(c, After(c, s, run))
    decreases |run|
  {
    if run != [] {
      StepKeepsConfirmed(c, s, run[0]);
      RunKeepsConfirmed(c, Next(c, s, run[0]), run[1..]);
    }
  }

  /**
   * As long as no reconcile publishes the last confirmed config again while another one is in
   * place, deciding against a pass on the current status is right: every pod has the published
   * file on disk and every running server has loaded it. A decision taken on an old status is
   * covered too, provided the status write that ends the reconcile is accepted.
   */
  lemma NoPassMeansUpToDate(c: Context, s0: State, run: seq<Event>)
    requires Legal(c) && Init(c, s0) && Valid(c, s0, run) && NoRevert(c, s0, run)
    ensures var s := After(c, s0, run);
            && (Enabled(c, s, SkipPass) && s.worker.seen == |s.statuses| - 1 ==> AllUpToDate(c, s))
            && (Enabled(c, s, WriteStatus) && !s.worker.passed ==> AllUpToDate(c, s))
  {
    hide Valid, After, NoRevert, Next;
    InitInv(c, s0);
    RunKeepsConfirmed(c, s0, run);
  }

  /** Going back to the confirmed hash is exactly what can break the claim: no other publish does. */
  lemma RevertBreaksConfirmed(c: Context, s: State, p: string)
    requires Legal(c) && Inv(c, s) && ConfirmedInv(c, s) && Enabled(c, s, Publish)
    requires s.published != [] && Latest(s.published) != s.worker.body
    requires p in s.pods && s.pods[p].mounted == FileText(c, Latest(s.published))
    ensures ConfirmedInv(c, Next(c, s, Publish)) <==> c.sha(s.worker.body) != Latest(s.statuses)
  {
    var t := Next(c, s, Publish);
    StepKeepsInv(c, s, Publish);
    PublishedHash(c.sha(s.worker.body), s.worker.body);
    PublishedHash(c.sha(Latest(s.published)), Latest(s.published));
    assert !UpToDate(c, t, t.pods[p]);
  }

  // ---- quiescence ----

  /** The config is published and recorded, and the process has already signalled: nothing to do. */
  ghost predicate Quiet(c: Context, s: State)
  {
    && s.published != [] && s.statuses != [] && s.reloadedOnce
    && s.desired == Latest(s.published) && c.sha(s.desired) == Latest(s.statuses)
    && match s.worker {
         case Idle => true
         case Passing(_, _, _, _, _, _) => false
         case Rendered(body, seen) =>
           body == s.desired && seen < |s.statuses| && s.statuses[seen] == c.sha(s.desired)
         case Decided(body, seen) =>
           body == s.desired && seen < |s.statuses| && s.statuses[seen] == c.sha(s.desired)
         case Recording(body, seen, passed, _, acc) =>
           && body == s.desired && seen < |s.statuses| && s.statuses[seen] == c.sha(s.desired)
           && !passed && acc.inSync
       }
  }

  /** No edit, no operator restart, no stale status read; anything may happen to pods. */
  ghost predicate CalmEvent(s: State, e: Event)
  {
    !e.EditSpec? && !e.OperatorRestart? && (e.Read? ==> e.seen == |s.statuses| - 1)
  }

  ghost predicate Calm(c: Context, s: State, run: seq<Event>)
    requires Valid(c, s, run)
    decreases |run|
  {
    run == [] || (CalmEvent(s, run[0]) && Calm(c, Next(c, s, run[0]), run[1..]))
  }

  /** The event replaces the pod's server process. */
  predicate Restarts(e: Event, p: string)
  {
    e == PodCreate(p) || e == PodStart(p) || e == PodDelete(p)
  }

  lemma QuietStep(c: Context, s: State, e: Event, p: string)
    requires Quiet(c, s) && Enabled(c, s, e) && CalmEvent(s, e) && p in s.pods && !Restarts(e, p)
    ensures !e.Signal? && !e.SignalLost? && !e.BeginPass?
    ensures var t := Next(c, s, e);
            && Quiet(c, t) && Latest(t.published) == Latest(s.published) && Latest(t.statuses) == Latest(s.statuses)
            && p in t.pods && t.pods[p].loaded == s.pods[p].loaded
  {}

  /** A quiet cluster stays quiet: no more signals, and no server loads anything new by itself. */
  lemma {:induction false} QuietForever(c: Context, s: State, run: seq<Event>, p: string)
    requires Quiet(c, s) && Valid(c, s, run) && Calm(c, s, run)
    requires p in s.pods && forall e <- run :: !Restarts(e, p)
    ensures Quiet(c, After(c, s, run))
    ensures forall e <- run :: !e.Signal? && !e.SignalLost? && !e.BeginPass?
    ensures Latest(After(c, s, run).published) == Latest(s.published)
    ensures Latest(After(c, s, run).statuses) == Latest(s.statuses)
    ensures p in After(c, s, run).pods && After(c, s, run).pods[p].loaded == s.pods[p].loaded
    decreases |run|
  {
    hide Next, Enabled, CalmEvent, Restarts;
    if run != [] {
      assert run[0] in run;
      QuietStep(c, s, run[0], p);
      forall e | e in run[1..] ensures !Restarts(e, p) {
        assert e in run;
      }
      QuietForever(c, Next(c, s, run[0]), run[1..], p);
      forall e | e in run ensures !e.Signal? && !e.SignalLost? && !e.BeginPass? {
        assert e == run[0] || e in run[1..];
      }
    }
  }

  // ---- the run that needs the hypothesis ----

  lemma {:induction false} Extend(c: Context, s0: State, run: seq<Event>, e: Event)
    requires Valid(c, s0, run) && Enabled(c, After(c, s0, run), e)
    ensures Valid(c, s0, run + [e])
    ensures After(c, s0, run + [e]) == Next(c, After(c, s0, run), e)
    decreases |run|
  {
    if run == [] {
      assert run + [e] == [e];
      assert [e][1..] == [];
      assert Valid(c, Next(c, s0, e), []);
    } else {
      assert (run + [e])[1..] == run[1..] + [e];
      Extend(c, Next(c, s0, run[0]), run[1..], e);
    }
  }

  lemma Start(c: Context, s0: State)
    ensures Valid(c, s0, []) && After(c, s0, []) == s0
  {}

  lemma {:induction false} Append(c: Context, s0: State, run: seq<Event>, more: seq<Event>)
    requires Valid(c, s0, run) && Valid(c, After(c, s0, run), more)
    ensures Valid(c, s0, run + more)
    ensures After(c, s0, run + more) == After(c, After(c, s0, run), more)
    decreases |more|
  {
    if more == [] {
      assert run + more == run;
    } else {
      Extend(c, s0, run, more[0]);
      Append(c, s0, run + [more[0]], more[1..]);
      assert run + [more[0]] + more[1..] == run + more;
    }
  }

  const POD_P := "p"
  const POD_Q := "q"

  ghost function Pair(p: Pod, q: Pod): map<string, Pod>
  {
    map[POD_P := p, POD_Q := q]
  }

  /** Both pods run config a, and a is confirmed. */
  ghost function ConfirmedA(c: Context, a: string): State
  {
    var pod := Pod(true, FileText(c, a), FileText(c, a));
    State(a, [a], ["", c.sha(a)], true, Pair(pod, pod), Idle)
  }

  ghost function ConfirmedNoPods(c: Context, a: string): State
  {
    ConfirmedA(c, a).(pods := map[])
  }

  lemma ConfirmWithoutPods(c: Context, a: string, s0: State) returns (run: seq<Event>)
    requires Legal(c) && a in c.bodies
    requires s0 == State(a, [], [""], false, map[], Idle)
    ensures Valid(c, s0, run) && After(c, s0, run) == ConfirmedNoPods(c, a)
  {
    hide Valid, After, HeaderHash, FormatHashHeader;
    assert [a] == [] + [a] && [""] + [c.sha(a)] == ["", c.sha(a)];
    run := [];
    Start(c, s0);
    assert c.sha(a) != "";
    Extend(c, s0, run, Read(0));                run := run + [Read(0)];
    Extend(c, s0, run, Publish);                run := run + [Publish];
    Extend(c, s0, run, BeginPass([]));          run := run + [BeginPass([])];
    Extend(c, s0, run, EndPass);                run := run + [EndPass];
    Extend(c, s0, run, WriteStatus);            run := run + [WriteStatus];
  }

  lemma StartTwoPods(c: Context, a: string) returns (run: seq<Event>)
    ensures Valid(c, ConfirmedNoPods(c, a), run)
    ensures After(c, ConfirmedNoPods(c, a), run) == ConfirmedA(c, a)
  {
    hide Valid, After, HeaderHash, FormatHashHeader;
    var s0 := ConfirmedNoPods(c, a);
    run := [];
    Start(c, s0);
    Extend(c, s0, run, PodCreate(POD_P));       run := run + [PodCreate(POD_P)];
    Extend(c, s0, run, PodStart(POD_P));        run := run + [PodStart(POD_P)];
    Extend(c, s0, run, PodCreate(POD_Q));       run := run + [PodCreate(POD_Q)];
    Extend(c, s0, run, PodStart(POD_Q));        run := run + [PodStart(POD_Q)];
    assert After(c, s0, run).pods == ConfirmedA(c, a).pods;
  }

  lemma ReachConfirmedA(c: Context, a: string, s0: State) returns (run: seq<Event>)
    requires Legal(c) && a in c.bodies
    requires s0 == State(a, [], [""], false, map[], Idle)
    ensures Valid(c, s0, run) && After(c, s0, run) == ConfirmedA(c, a)
  {
    run := ConfirmWithoutPods(c, a, s0);
    var start := StartTwoPods(c, a);
    Append(c, s0, run, start);
    run := run + start;
  }

  /** Pod p runs config b, pod q was never synced: the roll-out of b is incomplete and a is still confirmed. */
  ghost function PartialB(c: Context, a: string, b: string): State
  {
    State(b, [a, b], ["", c.sha(a), c.sha(a)], true,
          Pair(Pod(true, FileText(c, b), FileText(c, b)), Pod(true, FileText(c, a), FileText(c, a))), Idle)
  }

  /** b is published, and only p has been synced. */
  ghost function SyncedP(c: Context, a: string, b: string): State
  {
    State(b, [a, b], ["", c.sha(a)], true,
          Pair(Pod(true, FileText(c, b), FileText(c, a)), Pod(true, FileText(c, a), FileText(c, a))), Decided(b, 1))
  }

  lemma ReachSyncedP(c: Context, a: string, b: string) returns (run: seq<Event>)
    requires Legal(c) && a in c.bodies && b in c.bodies && a != b
    ensures Valid(c, ConfirmedA(c, a), run) && After(c, ConfirmedA(c, a), run) == SyncedP(c, a, b)
  {
    var s0 := ConfirmedA(c, a);
    hide Valid, After, HeaderHash, FormatHashHeader;
    run := [];
    Start(c, s0);
    Extend(c, s0, run, EditSpec(b));            run := run + [EditSpec(b)];
    Extend(c, s0, run, Read(1));                run := run + [Read(1)];
    Extend(c, s0, run, Publish);                run := run + [Publish];
    Extend(c, s0, run, KubeletSync(POD_P));     run := run + [KubeletSync(POD_P)];
    assert After(c, s0, run).pods == SyncedP(c, a, b).pods;
  }

  /** The pass has signalled p and comes to q. */
  ghost function HalfPassB(c: Context, a: string, b: string): State
  {
    PartialB(c, a, b).(
      statuses := ["", c.sha(a)],
      worker := Passing(b, 1, [PodView(POD_P, true), PodView(POD_Q, true)], 1, false, PassAcc(true, [POD_P])))
  }

  /** The pass of b at pod p, checked or not yet checked. */
  ghost function AtPodP(c: Context, a: string, b: string, checked: bool): State
  {
    SyncedP(c, a, b).(
      worker := Passing(b, 1, [PodView(POD_P, true), PodView(POD_Q, true)], 0, checked, EMPTY_PASS))
  }

  lemma BeginPassB(c: Context, a: string, b: string)
    requires Legal(c) && a in c.bodies && b in c.bodies && a != b
    ensures var views := [PodView(POD_P, true), PodView(POD_Q, true)];
            Enabled(c, SyncedP(c, a, b), BeginPass(views))
            && Next(c, SyncedP(c, a, b), BeginPass(views)) == AtPodP(c, a, b, false)
  {
    var views := [PodView(POD_P, true), PodView(POD_Q, true)];
    assert views[0].name == POD_P && views[1].name == POD_Q;
    assert ListsAll(SyncedP(c, a, b).pods, views);
  }

  lemma ProbePodP(c: Context, a: string, b: string)
    requires Legal(c) && a in c.bodies && b in c.bodies && a != b
    ensures Enabled(c, AtPodP(c, a, b, false), ProbeCurrent)
    ensures Next(c, AtPodP(c, a, b, false), ProbeCurrent) == AtPodP(c, a, b, true)
  {
    PublishedHash(c.sha(b), b);
  }

  lemma SignalAtPodP(c: Context, a: string, b: string)
    ensures Enabled(c, AtPodP(c, a, b, true), Signal)
    ensures Next(c, AtPodP(c, a, b, true), Signal) == HalfPassB(c, a, b)
  {
    assert [] + [POD_P] == [POD_P];
    assert Next(c, AtPodP(c, a, b, true), Signal).pods == HalfPassB(c, a, b).pods;
  }

  lemma SignalPodP(c: Context, a: string, b: string) returns (run: seq<Event>)
    requires Legal(c) && a in c.bodies && b in c.bodies && a != b
    ensures Valid(c, SyncedP(c, a, b), run) && After(c, SyncedP(c, a, b), run) == HalfPassB(c, a, b)
  {
    var s0 := SyncedP(c, a, b);
    var views := [PodView(POD_P, true), PodView(POD_Q, true)];
    BeginPassB(c, a, b);
    ProbePodP(c, a, b);
    SignalAtPodP(c, a, b);
    hide Valid, After, Enabled, Next;
    run := [];
    Start(c, s0);
    Extend(c, s0, run, BeginPass(views));       run := run + [BeginPass(views)];
    Extend(c, s0, run, ProbeCurrent);           run := run + [ProbeCurrent];
    Extend(c, s0, run, Signal);                 run := run + [Signal];
  }

  lemma PassPartialB(c: Context, a: string, b: string) returns (run: seq<Event>)
    requires Legal(c) && a in c.bodies && b in c.bodies && a != b
    ensures Valid(c, HalfPassB(c, a, b), run) && After(c, HalfPassB(c, a, b), run) == PartialB(c, a, b)
  {
    var s0 := HalfPassB(c, a, b);
    hide Valid, After, HeaderHash, FormatHashHeader;
    assert ["", c.sha(a)] + [c.sha(a)] == ["", c.sha(a), c.sha(a)];
    run := [];
    Start(c, s0);
    Extend(c, s0, run, ProbeStale);             run := run + [ProbeStale];
    Extend(c, s0, run, EndPass);                run := run + [EndPass];
    Extend(c, s0, run, WriteStatus);            run := run + [WriteStatus];
  }

  lemma ReachPartialB(c: Context, a: string, b: string) returns (run: seq<Event>)
    requires Legal(c) && a in c.bodies && b in c.bodies && a != b
    ensures Valid(c, ConfirmedA(c, a), run) && After(c, ConfirmedA(c, a), run) == PartialB(c, a, b)
  {
    run := ReachSyncedP(c, a, b);
    var signal := SignalPodP(c, a, b);
    Append(c, ConfirmedA(c, a), run, signal);
    run := run + signal;
    var finish := PassPartialB(c, a, b);
    Append(c, ConfirmedA(c, a), run, finish);
    run := run + finish;
  }

  /** Back on a: published, recorded, and no pass, while pod p still runs b. */
  ghost function StrandedB(c: Context, a: string, b: string, pMounts: string): State
  {
    State(a, [a, b, a], ["", c.sha(a), c.sha(a), c.sha(a)], true,
          Pair(Pod(true, FileText(c, pMounts), FileText(c, b)), Pod(true, FileText(c, a), FileText(c, a))), Idle)
  }

  lemma ReachStrandedB(c: Context, a: string, b: string) returns (run: seq<Event>)
    requires Legal(c) && a in c.bodies && b in c.bodies && a != b
    ensures Valid(c, PartialB(c, a, b), run) && After(c, PartialB(c, a, b), run) == StrandedB(c, a, b, b)
  {
    hide Valid, After, HeaderHash, FormatHashHeader;
    var s0 := PartialB(c, a, b);
    assert [a, b] + [a] == [a, b, a];
    assert ["", c.sha(a), c.sha(a)] + [c.sha(a)] == ["", c.sha(a), c.sha(a), c.sha(a)];
    run := [];
    Start(c, s0);
    Extend(c, s0, run, EditSpec(a));            run := run + [EditSpec(a)];
    Extend(c, s0, run, Read(2));                run := run + [Read(2)];
    Extend(c, s0, run, Publish);                run := run + [Publish];
    Extend(c, s0, run, SkipPass);               run := run + [SkipPass];
    Extend(c, s0, run, WriteStatus);            run := run + [WriteStatus];
  }

  lemma SyncStrandedB(c: Context, a: string, b: string)
    ensures Valid(c, StrandedB(c, a, b, b), [KubeletSync(POD_P)])
    ensures After(c, StrandedB(c, a, b, b), [KubeletSync(POD_P)]) == StrandedB(c, a, b, a)
  {
    var s, e := StrandedB(c, a, b, b), KubeletSync(POD_P);
    assert Next(c, s, e).pods == StrandedB(c, a, b, a).pods;
    Start(c, s);
    Extend(c, s, [], e);
    assert [] + [e] == [e];
  }

  /**
   * The no-revert hypothesis cannot be dropped. For any two configs a and b, the run "a everywhere,
   * b on some pods, a again" ends with everything published, recorded and quiet while a running
   * server has b loaded; by QuietForever nothing but a restart of that server changes this.
   */
  lemma RevertStrandsPod(c: Context, a: string, b: string) returns (s0: State, run: seq<Event>)
    requires Legal(c) && a in c.bodies && b in c.bodies && a != b
    ensures Init(c, s0) && Valid(c, s0, run) && Quiet(c, After(c, s0, run))
    ensures Latest(After(c, s0, run).published) == a
    ensures POD_P in After(c, s0, run).pods && After(c, s0, run).pods[POD_P].running
    ensures After(c, s0, run).pods[POD_P].loaded == FileText(c, b)
    ensures FileText(c, b) != FileText(c, a)
  {
    s0 := State(a, [], [""], false, map[], Idle);
    run := ReachConfirmedA(c, a, s0);
    var toB := ReachPartialB(c, a, b);
    Append(c, s0, run, toB);
    run := run + toB;
    var toA := ReachStrandedB(c, a, b);
    Append(c, s0, run, toA);
    run := run + toA;
    SyncStrandedB(c, a, b);
    Append(c, s0, run, [KubeletSync(POD_P)]);
    run := run + [KubeletSync(POD_P)];
    PublishedHash(c.sha(a), a);
    PublishedHash(c.sha(b), b);
  }

  // ---- retrying and settling ----

  ghost predicate NoEdits(run: seq<Event>)
  {
    forall e <- run :: !e.EditSpec?
  }

  /** A pass is skipped on the strength of the current status, or a reconcile that made no pass records its status. */
  ghost predicate GivesUp(c: Context, s: State, e: Event)
    requires Enabled(c, s, e)
  {
    (e.SkipPass? && s.worker.seen == |s.statuses| - 1) || (e.WriteStatus? && !s.worker.passed)
  }

  ghost predicate NeverGivesUp(c: Context, s: State, run: seq<Event>)
    requires Valid(c, s, run)
    decreases |run|
  {
    run == [] || (!GivesUp(c, s, run[0]) && NeverGivesUp(c, Next(c, s, run[0]), run[1..]))
  }

  /** At some point of the run the recorded hash is h. */
  ghost predicate EventuallyConfirmed(c: Context, s: State, run: seq<Event>, h: string)
    requires Valid(c, s, run)
    decreases |run|
  {
    (s.statuses != [] && Latest(s.statuses) == h)
    || (run != [] && EventuallyConfirmed(c, Next(c, s, run[0]), run[1..], h))
  }

  /** The config is not confirmed, and whatever the worker holds is a rendering of it. */
  ghost predicate Unconfirmed(c: Context, s: State)
  {
    && s.statuses != [] && c.sha(s.desired) != Latest(s.statuses)
    && (!s.worker.Idle? ==> s.worker.body == s.desired && s.worker.seen < |s.statuses|)
    && (s.worker.Recording? && s.worker.seen == |s.statuses| - 1 ==> s.worker.passed)
  }

  lemma UnconfirmedStep(c: Context, s: State, e: Event)
    requires Inv(c, s) && Unconfirmed(c, s) && Enabled(c, s, e) && !e.EditSpec?
    ensures !GivesUp(c, s, e)
    ensures var t := Next(c, s, e);
            t.statuses != [] && t.desired == s.desired
            && (Latest(t.statuses) != c.sha(s.desired) ==> Unconfirmed(c, t))
  {}

  /**
   * An unconfirmed config is never given up: while it stands unedited, every reconcile that reads the current
   * status runs another pass, and one that skips on an old status cannot record anything, so it comes back;
   * until one pass confirms every pod.
   */
  lemma {:induction false} RetriedUntilConfirmed(c: Context, s: State, run: seq<Event>)
    requires Legal(c) && Inv(c, s) && Unconfirmed(c, s) && Valid(c, s, run) && NoEdits(run)
    ensures NeverGivesUp(c, s, run) || EventuallyConfirmed(c, s, run, c.sha(s.desired))
    decreases |run|
  {
    hide Next, Enabled, Inv, GivesUp, Unconfirmed;
    if run != [] {
      var t := Next(c, s, run[0]);
      assert run[0] in run;
      StepKeepsInv(c, s, run[0]);
      UnconfirmedStep(c, s, run[0]);
      forall e | e in run[1..] ensures !e.EditSpec? { assert e in run; }
      if Latest(t.statuses) != c.sha(s.desired) {
        RetriedUntilConfirmed(c, t, run[1..]);
      }
    }
  }

  /** Pods whose file on disk is not the current ConfigMap. */
  ghost function Unsynced(c: Context, s: State): set<string>
  {
    set p | p in s.pods && (s.published == [] || s.pods[p].mounted != FileText(c, Latest(s.published)))
  }

  /** Syncing is progress that no pod event undoes: the unsynced pods only become fewer. */
  lemma SyncingIsProgress(c: Context, s: State, e: Event)
    requires Enabled(c, s, e) && PodEvent(e)
    ensures Unsynced(c, Next(c, s, e)) <= Unsynced(c, s)
    ensures e.KubeletSync? ==> Unsynced(c, Next(c, s, e)) == Unsynced(c, s) - {e.pod}
    ensures |Unsynced(c, Next(c, s, e))| <= |Unsynced(c, s)|
    ensures e.KubeletSync? && e.pod in Unsynced(c, s) ==> |Unsynced(c, Next(c, s, e))| < |Unsynced(c, s)|
  {
    var before, after := Unsynced(c, s), Unsynced(c, Next(c, s, e));
    assert before == after + (before - after);
  }

  /** Specs are still, every pod runs and is synced, and the worker is doing what that calls for. */
  ghost predicate Settling(c: Context, s: State)
  {
    && s.statuses != [] && s.published != [] && s.desired == Latest(s.published) && s.desired in c.bodies
    && (forall p <- s.pods :: s.pods[p].running && s.pods[p].mounted == FileText(c, s.desired))
    && (!s.worker.Idle? ==>
          s.worker.body == s.desired && s.worker.seen == |s.statuses| - 1)
    && (s.worker.Passing? ==>
          && s.worker.done <= |s.worker.listed| && s.worker.acc.inSync
          && (s.worker.checked ==> s.worker.done < |s.worker.listed|)
          && forall i :: 0 <= i < |s.worker.listed| ==>
               s.worker.listed[i].running && s.worker.listed[i].name in s.pods)
    && (s.worker.Recording? ==> s.worker.acc.inSync && s.reloadedOnce)
  }

  /** A step of a reconcile in which no call fails and no check gives up early. */
  ghost predicate Faultless(s: State, e: Event)
  {
    match e
    case Read(seen) => seen == |s.statuses| - 1
    case Publish => true
    case SkipPass => true
    case BeginPass(_) => true
    case ProbeCurrent => true
    case Signal => true
    case EndPass => true
    case WriteStatus => true
    case _ => false
  }

  /** Reconcile steps left, counting two per pod; the pod list of a pass is chosen when it begins. */
  ghost function Remaining(w: Worker): (nat, nat)
  {
    match w
    case Idle => (0, 0)
    case Rendered(_, _) => (3, 0)
    case Decided(_, _) => (2, 0)
    case Passing(_, _, listed, done, checked, _) =>
      (1, if done <= |listed| then 2 * (|listed| - done) + (if checked then 0 else 1) else 0)
    case Recording(_, _, _, _, _) => (0, 1)
  }

  ghost predicate Before(a: (nat, nat), b: (nat, nat))
  {
    a.0 < b.0 || (a.0 == b.0 && a.1 < b.1)
  }

  /**
   * Once specs are still and every pod is running and synced, a faultless reconcile cannot miss a
   * pod: each of its steps leads on to the next, and the status write that ends it leaves the
   * cluster quiet, that is (QuietForever) unchanged by all reconciles to come.
   */
  lemma SettlingStep(c: Context, s: State, e: Event)
    requires Legal(c) && Settling(c, s) && Enabled(c, s, e) && Faultless(s, e)
    ensures Settling(c, Next(c, s, e))
    ensures !e.Read? ==> Before(Remaining(Next(c, s, e).worker), Remaining(s.worker))
    ensures Next(c, s, e).worker.Idle? ==> e == WriteStatus && Quiet(c, Next(c, s, e))
  {}

  /** Some listing of the named pods. */
  ghost function ListOf(pods: map<string, Pod>, names: set<string>): (r: seq<PodView>)
    requires names <= pods.Keys
    ensures forall i :: 0 <= i < |r| ==> r[i].name in names && r[i].running == pods[r[i].name].running
    ensures forall p <- names :: exists i :: 0 <= i < |r| && r[i].name == p
  {
    if names == {} then [] else
      var p :| p in names;
      var rest := ListOf(pods, names - {p});
      var r := [PodView(p, pods[p].running)] + rest;
      assert forall q <- names :: exists i :: 0 <= i < |r| && r[i].name == q by {
        forall q | q in names ensures exists i :: 0 <= i < |r| && r[i].name == q {
          if q == p {
            assert r[0].name == p;
          } else {
            assert q in names - {p};
            var j :| 0 <= j < |rest| && rest[j].name == q;
            assert r[j + 1].name == q;
          }
        }
      }
      r
  }

  /** The reconcile is never stuck. */
  lemma SettlingCanContinue(c: Context, s: State) returns (e: Event)
    requires Legal(c) && Settling(c, s)
    ensures Enabled(c, s, e) && Faultless(s, e)
  {
    match s.worker {
      case Idle => e := Read(|s.statuses| - 1);
      case Rendered(_, _) => e := Publish;
      case Decided(body, seen) =>
        if NeedsPass(true, c.sha(body), s.statuses[seen], s.reloadedOnce) {
          e := BeginPass(ListOf(s.pods, s.pods.Keys));
        } else {
          e := SkipPass;
        }
      case Passing(body, seen, listed, done, checked, acc) =>
        if done == |listed| {
          e := EndPass;
        } else if checked {
          e := Signal;
        } else {
          PublishedHash(c.sha(body), body);
          e := ProbeCurrent;
        }
      case Recording(_, _, _, _, _) => e := WriteStatus;
    }
  }

  ghost predicate AllFaultless(c: Context, s: State, run: seq<Event>)
    requires Valid(c, s, run)
    decreases |run|
  {
    run == [] || (Faultless(s, run[0]) && AllFaultless(c, Next(c, s, run[0]), run[1..]))
  }

  /** From every such state the reconcile can be carried through: some faultless run ends it, and ends it quiet. */
  lemma {:induction false} FaultlessRunExists(c: Context, s: State) returns (run: seq<Event>)
    requires Legal(c) && Settling(c, s)
    ensures run != [] && Valid(c, s, run) && AllFaultless(c, s, run)
    ensures After(c, s, run).worker.Idle? && Quiet(c, After(c, s, run))
    decreases if s.worker.Idle? then 4 else Remaining(s.worker).0, Remaining(s.worker).1
  {
    var e := SettlingCanContinue(c, s);
    SettlingStep(c, s, e);
    var t := Next(c, s, e);
    assert s.worker.Idle? ==> t.worker.Rendered?;
    hide Settling, Next, Enabled, Quiet, Faultless;
    if t.worker.Idle? {
      run := [e];
      assert run[1..] == [];
      assert Valid(c, t, run[1..]);
    } else {
      var rest := FaultlessRunExists(c, t);
      run := [e] + rest;
      assert run[1..] == rest;
    }
  }

  lemma {:induction false} SettlingRun(c: Context, s: State, run: seq<Event>)
    requires Legal(c) && Settling(c, s) && Inv(c, s) && ConfirmedInv(c, s)
    requires Valid(c, s, run) && AllFaultless(c, s, run)
    requires run != [] || (s.worker.Idle? && Quiet(c, s))
    ensures After(c, s, run).worker.Idle? ==> Quiet(c, After(c, s, run)) && AllUpToDate(c, After(c, s, run))
    decreases |run|
  {
    if run != [] {
      var t := Next(c, s, run[0]);
      SettlingStep(c, s, run[0]);
      StepKeepsConfirmed(c, s, run[0]);
      if run[1..] != [] || t.worker.Idle? {
        SettlingRun(c, t, run[1..]);
      }
    }
  }

  /**
   * One reconcile is enough: specs still, pods running and synced, no revert so far. Every
   * faultless reconcile from there ends quiet with every server running the published file.
   */
  lemma OneReconcileSettles(c: Context, s0: State, before: seq<Event>, run: seq<Event>)
    requires Legal(c) && Init(c, s0) && Valid(c, s0, before) && NoRevert(c, s0, before)
    requires var s := After(c, s0, before); s.worker.Idle? && Settling(c, s)
    requires Valid(c, After(c, s0, before), run) && AllFaultless(c, After(c, s0, before), run) && run != []
    ensures var t := After(c, After(c, s0, before), run);
            t.worker.Idle? ==> Quiet(c, t) && AllUpToDate(c, t)
  {
    InitInv(c, s0);
    RunKeepsConfirmed(c, s0, before);
    SettlingRun(c, After(c, s0, before), run);
  }

  /** Such a reconcile exists: whatever was reached without a revert can be brought to rest. */
  lemma OneReconcileSuffices(c: Context, s0: State, before: seq<Event>) returns (run: seq<Event>)
    requires Legal(c) && Init(c, s0) && Valid(c, s0, before) && NoRevert(c, s0, before)
    requires Settling(c, After(c, s0, before))
    ensures Valid(c, After(c, s0, before), run) && AllFaultless(c, After(c, s0, before), run)
    ensures var t := After(c, After(c, s0, before), run);
            t.worker.Idle? && Quiet(c, t) && AllUpToDate(c, t)
  {
    InitInv(c, s0);
    RunKeepsConfirmed(c, s0, before);
    run := FaultlessRunExists(c, After(c, s0, before));
    SettlingRun(c, After(c, s0, before), run);
  }
}
