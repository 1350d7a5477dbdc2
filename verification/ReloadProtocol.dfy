/**
 * The reload protocol of one cluster with a fixed serverRef, as a state machine: spec edits, the
 * operator's reconcile broken into its API calls, the kubelet, and the pods, interleaved freely.
 * Every call may fail, the operator may restart between any two of its steps, the status read at
 * the start of a reconcile may be an old one, and a SIGHUP reported as failed may have arrived.
 */
module ReloadProtocol {
  import opened Text
  import opened HashHeader
  import opened ReloadPass

  /** The digest function and the config bodies that occur in a run. */
  datatype Context = Context(sha: string -> string, bodies: set<string>)

  /** Digests print as hashes, and the bodies of this run do not collide. */
  ghost predicate Legal(c: Context)
  {
    && (forall b <- c.bodies :: DigestText(c.sha(b)))
    && (forall a, b | a in c.bodies && b in c.bodies && c.sha(a) == c.sha(b) :: a == b)
  }

  /** What the operator writes into the ConfigMap for a body. */
  function FileText(c: Context, body: string): string
  {
    FormatHashHeader(c.sha(body)) + body
  }

  /** mounted: the file on the pod's disk; loaded: what its server process runs with. */
  datatype Pod = Pod(running: bool, mounted: string, loaded: string)

  /** Where the single reconcile worker is; seen indexes the status version it read. */
  datatype Worker =
    | Idle
    | Rendered(body: string, seen: nat)
    | Decided(body: string, seen: nat)
    | Passing(body: string, seen: nat, listed: seq<PodView>, done: nat, checked: bool, acc: PassAcc)
    | Recording(body: string, seen: nat, passed: bool, listed: seq<PodView>, acc: PassAcc)

  /**
   * desired: the rendering of the current specs. published: ConfigMap contents so far, the last
   * is current. statuses: persisted LastConfigHash values, the last is current.
   */
  datatype State = State(desired: string, published: seq<string>, statuses: seq<string>,
                         reloadedOnce: bool, pods: map<string, Pod>, worker: Worker)

  datatype Event =
    | EditSpec(body: string)
    | PodCreate(pod: string)
    | PodStart(pod: string)
    | PodFail(pod: string)
    | PodDelete(pod: string)
    | KubeletSync(pod: string)
    | OperatorRestart
    | Read(seen: nat)
    | Publish
    | SkipPass
    | BeginPass(listing: seq<PodView>)
    | PodSkipped
    | ProbeCurrent
    | ProbeStale
    | Signal
    | SignalLost(arrived: bool)
    | EndPass
    | Abort
    | WriteStatus

  function Latest(xs: seq<string>): string
    requires xs != []
  {
    xs[|xs| - 1]
  }

  ghost predicate ListsAll(pods: map<string, Pod>, listing: seq<PodView>)
  {
    && (forall i :: 0 <= i < |listing| ==>
          listing[i].name in pods && listing[i].running == pods[listing[i].name].running)
    && (forall p <- pods :: exists i :: 0 <= i < |listing| && listing[i].name == p)
  }

  /** The running pod whose turn it is in the current pass. */
  predicate AtRunningPod(w: Worker)
  {
    w.Passing? && w.done < |w.listed| && w.listed[w.done].running
  }

  predicate Signallable(s: State)
  {
    && AtRunningPod(s.worker) && s.worker.checked
    && s.worker.listed[s.worker.done].name in s.pods
    && s.pods[s.worker.listed[s.worker.done].name].running
  }

  ghost predicate Enabled(c: Context, s: State, e: Event)
  {
    match e
    case EditSpec(body) => body in c.bodies
    case PodCreate(p) => p !in s.pods && s.published != []
    case PodStart(p) => p in s.pods
    case PodFail(p) => p in s.pods
    case PodDelete(p) => p in s.pods
    case KubeletSync(p) => p in s.pods && s.published != []
    case OperatorRestart => true
    case Read(seen) => s.worker.Idle? && seen < |s.statuses|
    case Publish => s.worker.Rendered?
    case SkipPass =>
      s.worker.Decided? && s.worker.seen < |s.statuses|
      && !NeedsPass(true, c.sha(s.worker.body), s.statuses[s.worker.seen], s.reloadedOnce)
    case BeginPass(listing) =>
      s.worker.Decided? && s.worker.seen < |s.statuses| && ListsAll(s.pods, listing)
      && NeedsPass(true, c.sha(s.worker.body), s.statuses[s.worker.seen], s.reloadedOnce)
    case PodSkipped => s.worker.Passing? && s.worker.done < |s.worker.listed| && !AtRunningPod(s.worker)
    case ProbeCurrent =>
      AtRunningPod(s.worker) && !s.worker.checked
      && s.worker.listed[s.worker.done].name in s.pods
      && HeaderHash(s.pods[s.worker.listed[s.worker.done].name].mounted) == c.sha(s.worker.body)
    case ProbeStale => AtRunningPod(s.worker) && !s.worker.checked
    case Signal => Signallable(s)
    case SignalLost(arrived) => AtRunningPod(s.worker) && s.worker.checked && (arrived ==> Signallable(s))
    case EndPass => s.worker.Passing? && s.worker.done == |s.worker.listed|
    case Abort => !s.worker.Idle?
    case WriteStatus =>
      s.worker.Recording? && |s.statuses| > 0 && s.worker.seen == |s.statuses| - 1
  }

  function SetPod(s: State, p: string, pod: Pod): State
  {
    s.(pods := s.pods[p := pod])
  }

  /** The SIGHUP's effect: the server re-reads the file that is mounted now. */
  function Reload(s: State): State
    requires Signallable(s)
  {
    var p := s.worker.listed[s.worker.done].name;
    SetPod(s, p, s.pods[p].(loaded := s.pods[p].mounted))
  }

  /** One turn of the pod loop is over. */
  function Advance(s: State, probe: Probe): State
    requires s.worker.Passing? && s.worker.done < |s.worker.listed|
  {
    var w := s.worker;
    s.(worker := w.(done := w.done + 1, checked := false,
                    acc := PassStep(w.acc, w.listed[w.done], probe, true).acc))
  }

  ghost function Next(c: Context, s: State, e: Event): State
    requires Enabled(c, s, e)
  {
    match e
    case EditSpec(body) => s.(desired := body)
    case PodCreate(p) => SetPod(s, p, Pod(false, FileText(c, Latest(s.published)), ""))
    case PodStart(p) => SetPod(s, p, s.pods[p].(running := true, loaded := s.pods[p].mounted))
    case PodFail(p) => SetPod(s, p, s.pods[p].(running := false))
    case PodDelete(p) => s.(pods := s.pods - {p})
    case KubeletSync(p) => SetPod(s, p, s.pods[p].(mounted := FileText(c, Latest(s.published))))
    case OperatorRestart => s.(worker := Idle, reloadedOnce := false)
    case Read(seen) => s.(worker := Rendered(s.desired, seen))
    case Publish =>
      var w := s.worker;
      s.(worker := Decided(w.body, w.seen),
         published := if s.published != [] && Latest(s.published) == w.body then s.published
                      else s.published + [w.body])
    case SkipPass => s.(worker := Recording(s.worker.body, s.worker.seen, false, [], EMPTY_PASS))
    case BeginPass(listing) =>
      s.(worker := Passing(s.worker.body, s.worker.seen, listing, 0, false, EMPTY_PASS))
    case PodSkipped => Advance(s, Stale)
    case ProbeCurrent => s.(worker := s.worker.(checked := true))
    case ProbeStale => Advance(s, Stale)
    case Signal => Advance(Reload(s), Current)
    case SignalLost(arrived) => (if arrived then Reload(s) else s).(worker := Idle)
    case EndPass =>
      var w := s.worker;
      s.(worker := Recording(w.body, w.seen, true, w.listed, w.acc), reloadedOnce := true)
    case Abort => s.(worker := Idle)
    case WriteStatus =>
      s.(worker := Idle,
         statuses := s.statuses
                     + [RecordedHash(s.worker.acc.inSync, c.sha(s.worker.body), s.statuses[s.worker.seen])])
  }

  ghost predicate Init(c: Context, s: State)
  {
    s.desired in c.bodies && s.published == [] && s.statuses == [""] && !s.reloadedOnce
    && s.pods == map[] && s.worker == Idle
  }

  ghost predicate Valid(c: Context, s: State, run: seq<Event>)
    decreases |run|
  {
    run == [] || (Enabled(c, s, run[0]) && Valid(c, Next(c, s, run[0]), run[1..]))
  }

  ghost function After(c: Context, s: State, run: seq<Event>): State
    requires Valid(c, s, run)
    decreases |run|
  {
    if run == [] then s else After(c, Next(c, s, run[0]), run[1..])
  }

  // ---- what every step keeps ----

  /** On disk and in the server: the current ConfigMap text. */
  ghost predicate UpToDate(c: Context, s: State, pod: Pod)
    requires s.published != []
  {
    && pod.mounted == FileText(c, Latest(s.published))
    && (pod.running ==> pod.loaded == FileText(c, Latest(s.published)))
  }

  ghost predicate AllUpToDate(c: Context, s: State)
  {
    s.published != [] && forall p <- s.pods :: UpToDate(c, s, s.pods[p])
  }

  /** Some listed pod from position done on has this name. */
  ghost predicate StillListed(listed: seq<PodView>, done: nat, p: string)
  {
    exists i :: done <= i < |listed| && listed[i].name == p
  }

  ghost predicate FilesInv(c: Context, s: State)
  {
    && s.desired in c.bodies && s.statuses != []
    && (forall b <- s.published :: b in c.bodies)
    && (forall p <- s.pods :: exists b <- s.published :: s.pods[p].mounted == FileText(c, b))
  }

  function Names(listed: seq<PodView>): seq<string>
  {
    if listed == [] then [] else Names(listed[..|listed| - 1]) + [listed[|listed| - 1].name]
  }

  ghost predicate AllRunning(listed: seq<PodView>)
  {
    forall i :: 0 <= i < |listed| ==> listed[i].running
  }

  /** A pass with nothing missed so far: every pod handled was running, confirmed and signalled. */
  ghost predicate PassInv(c: Context, s: State)
    requires s.worker.Passing? && s.published != []
  {
    var w := s.worker;
    && w.done <= |w.listed|
    && (w.checked ==> AtRunningPod(w))
    && (w.checked && w.listed[w.done].name in s.pods ==>
          s.pods[w.listed[w.done].name].mounted == FileText(c, Latest(s.published)))
    && (w.acc.inSync ==>
          && AllRunning(w.listed[..w.done]) && w.acc.signalled == Names(w.listed[..w.done])
          && forall p <- s.pods :: UpToDate(c, s, s.pods[p]) || StillListed(w.listed, w.done, p))
  }

  ghost predicate WorkerInv(c: Context, s: State)
  {
    var w := s.worker;
    && (!w.Idle? ==> w.body in c.bodies && w.seen < |s.statuses|)
    && (w.Decided? || w.Passing? || w.Recording? ==> s.published != [] && Latest(s.published) == w.body)
    && (w.Passing? ==> PassInv(c, s))
    && (w.Recording? && w.passed && w.acc.inSync ==>
          AllUpToDate(c, s) && AllRunning(w.listed) && w.acc.signalled == Names(w.listed))
    && (w.Recording? && !w.passed ==>
          w.acc.inSync && s.reloadedOnce && c.sha(w.body) == s.statuses[w.seen])
  }

  ghost predicate Inv(c: Context, s: State)
  {
    FilesInv(c, s) && WorkerInv(c, s)
  }

  /** The confirmed hash is the hash of the current ConfigMap only while nothing is outdated. */
  ghost predicate ConfirmedInv(c: Context, s: State)
    requires s.statuses != []
  {
    s.published != [] && c.sha(Latest(s.published)) == Latest(s.statuses) ==> AllUpToDate(c, s)
  }

  lemma InitInv(c: Context, s: State)
    requires Init(c, s)
    ensures Inv(c, s)
  {}

  /** A mounted file that shows the published hash is the published file. */
  lemma HashIdentifiesFile(c: Context, s: State, p: string, body: string)
    requires Legal(c) && FilesInv(c, s) && p in s.pods && body in c.bodies
    requires HeaderHash(s.pods[p].mounted) == c.sha(body)
    ensures s.pods[p].mounted == FileText(c, body)
  {
    var b :| b in s.published && s.pods[p].mounted == FileText(c, b);
    PublishedHash(c.sha(b), b);
  }

  lemma FilesKept(c: Context, s: State, e: Event)
    requires Legal(c) && Inv(c, s) && Enabled(c, s, e)
    ensures FilesInv(c, Next(c, s, e))
  {
    var t := Next(c, s, e);
    forall b | b in s.published ensures b in t.published {}
    forall p | p in t.pods ensures exists b <- t.published :: t.pods[p].mounted == FileText(c, b) {
      if p in s.pods && t.pods[p].mounted == s.pods[p].mounted {
        var b :| b in s.published && s.pods[p].mounted == FileText(c, b);
        assert b in t.published;
      } else {
        assert Latest(s.published) in t.published;
      }
    }
  }

  lemma NamesExtend(listed: seq<PodView>, done: nat)
    requires done < |listed|
    ensures Names(listed[..done + 1]) == Names(listed[..done]) + [listed[done].name]
  {
    assert listed[..done + 1][..done] == listed[..done];
  }

  /** Pods come, go, start, fail and get synced: whatever they do, they move towards the current file. */
  predicate PodEvent(e: Event)
  {
    e.PodCreate? || e.PodStart? || e.PodFail? || e.PodDelete? || e.KubeletSync?
  }

  lemma PodEventKeepsUpToDate(c: Context, s: State, e: Event, p: string)
    requires Legal(c) && FilesInv(c, s) && Enabled(c, s, e) && PodEvent(e) && s.published != []
    requires p in Next(c, s, e).pods
    requires p in s.pods ==> UpToDate(c, s, s.pods[p])
    ensures UpToDate(c, Next(c, s, e), Next(c, s, e).pods[p])
  {}

  lemma PodEventKeepsWorker(c: Context, s: State, e: Event)
    requires Legal(c) && Inv(c, s) && Enabled(c, s, e) && PodEvent(e)
    ensures WorkerInv(c, Next(c, s, e))
  {
    var t := Next(c, s, e);
    if s.published != [] {
      forall p | p in t.pods && (p in s.pods ==> UpToDate(c, s, s.pods[p])) ensures UpToDate(c, t, t.pods[p]) {
        PodEventKeepsUpToDate(c, s, e, p);
      }
    }
  }

  lemma ProbeKeepsWorker(c: Context, s: State, e: Event)
    requires Legal(c) && Inv(c, s) && Enabled(c, s, e)
    requires e.ProbeCurrent? || e.ProbeStale? || e.PodSkipped?
    ensures WorkerInv(c, Next(c, s, e))
  {
    if e.ProbeCurrent? {
      HashIdentifiesFile(c, s, s.worker.listed[s.worker.done].name, s.worker.body);
    }
  }

  /** The theorem behind the protocol's hash check: a SIGHUP loads the file this pass is about. */
  lemma SignalLoadsPublished(c: Context, s: State)
    requires Legal(c) && Inv(c, s) && Signallable(s)
    ensures Reload(s).pods[s.worker.listed[s.worker.done].name].loaded == FileText(c, s.worker.body)
    ensures UpToDate(c, Reload(s), Reload(s).pods[s.worker.listed[s.worker.done].name])
  {}

  lemma SignalKeepsWorker(c: Context, s: State)
    requires Legal(c) && Inv(c, s) && Enabled(c, s, Signal)
    ensures WorkerInv(c, Next(c, s, Signal))
  {
    var t, w := Next(c, s, Signal), s.worker;
    SignalLoadsPublished(c, s);
    NamesExtend(w.listed, w.done);
    if w.acc.inSync {
      var handled := w.listed[..w.done + 1];
      forall i | 0 <= i < |handled| ensures handled[i].running {
        assert i < w.done ==> w.listed[..w.done][i].running;
      }
      forall p | p in t.pods ensures UpToDate(c, t, t.pods[p]) || StillListed(w.listed, w.done + 1, p) {
        if p != w.listed[w.done].name && !UpToDate(c, s, s.pods[p]) {
          var i :| w.done <= i < |w.listed| && w.listed[i].name == p;
          assert i != w.done;
        }
      }
    }
  }

  lemma ControlKeepsWorker(c: Context, s: State, e: Event)
    requires Legal(c) && Inv(c, s) && Enabled(c, s, e)
    requires !PodEvent(e) && !e.ProbeCurrent? && !e.ProbeStale? && !e.PodSkipped? && !e.Signal?
    ensures WorkerInv(c, Next(c, s, e))
  {
    var t := Next(c, s, e);
    if e.BeginPass? {
      assert e.listing[..0] == [];
      forall p | p in t.pods ensures StillListed(e.listing, 0, p) {}
    } else if e.EndPass? {
      assert s.worker.listed[..s.worker.done] == s.worker.listed;
      forall p | p in s.pods ensures !StillListed(s.worker.listed, s.worker.done, p) {}
    }
  }

  lemma StepKeepsInv(c: Context, s: State, e: Event)
    requires Legal(c) && Inv(c, s) && Enabled(c, s, e)
    ensures Inv(c, Next(c, s, e))
  {
    FilesKept(c, s, e);
    if PodEvent(e) {
      PodEventKeepsWorker(c, s, e);
    } else if e.ProbeCurrent? || e.ProbeStale? || e.PodSkipped? {
      ProbeKeepsWorker(c, s, e);
    } else if e.Signal? {
      SignalKeepsWorker(c, s);
    } else {
      ControlKeepsWorker(c, s, e);
    }
  }

  lemma {:induction false} RunKeepsInv(c: Context, s: State, run: seq<Event>)
    requires Legal(c) && Inv(c, s) && Valid(c, s, run)
    ensures Inv(c, After(c, s, run))
    decreases |run|
  {
    if run != [] {
      StepKeepsInv(c, s, run[0]);
      RunKeepsInv(c, Next(c, s, run[0]), run[1..]);
    }
  }
}
