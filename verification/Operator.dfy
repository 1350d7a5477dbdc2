/**
 * internal/controller/natscluster_controller.go: the work queue and the reload protocol of one cluster as a
 * single machine. The pass that publishes for the cluster drives the reload protocol; the end of the pass is
 * the end of the reload.
 */
module Operator {
  import opened Text
  import opened HashHeader
  import opened Api
  import opened NatsConfig
  import opened ConfigText
  import opened Convert
  import opened Resolve
  import opened ListingOrder
  import opened ReloadPass
  import Queue = Freshness
  import QueueProof = FreshnessProof
  import QueueWorker = FreshnessWorker
  import QueueTheorems = FreshnessTheorems
  import Reload = ReloadProtocol
  import ReloadRuns = ReloadTheorems

  /** Both machines hash with the same digest. */
  datatype Context = Context(queue: Queue.Context, reload: Reload.Context, key: Key)

  datatype State = State(queue: Queue.State, reload: Reload.State)

  datatype Event =
    | QueueStep(step: Queue.Event)
    | PodStep(event: Reload.Event)
    | PublishConfig(seen: nat)
    | PassStep(event: Reload.Event)
    | RecordStatus(summary: Queue.ClusterStatus)
    | GiveUp(event: Reload.Event)
    | RestartOperator

  ghost function Body(b: Queue.Basis): string
  {
    ConfigBody(ConfigOf(b.out))
  }

  /** The worker is at the given stage of a pass over this cluster. */
  predicate Publishing(c: Context, w: Queue.Worker)
  {
    w.Prepared? && w.key == c.key
  }

  predicate Reloading(c: Context, w: Queue.Worker)
  {
    w.Finishing? && w.key == c.key
  }

  /** The cluster exists throughout, and nobody else edits its status or its ConfigMap. */
  predicate Foreign(c: Context, e: Queue.Event)
  {
    || e == Queue.DropCluster(c.key) || (e.TouchConfigMap? && e.key == c.key)
    || (e.TouchStatus? && e.target == Queue.ThisCluster(c.key))
  }

  /** A step of the reload pass between the decision for or against it and the status write. */
  predicate InPass(e: Reload.Event)
  {
    || e.SkipPass? || e.BeginPass? || e.PodSkipped? || e.ProbeCurrent? || e.ProbeStale? || e.Signal? || e.EndPass?
  }

  /** The end of the pass in the queue: in sync as the reload pass found it. */
  function Finishes(s: State, summary: Queue.ClusterStatus): Queue.Event
    requires s.reload.worker.Recording?
  {
    Queue.Finish(summary, s.reload.worker.acc.inSync)
  }

  /** The work queue can do its part. */
  ghost predicate QueueCan(c: Context, s: State, e: Event)
  {
    match e
    case QueueStep(q) => Queue.Enabled(c.queue, s.queue, q)
    case PublishConfig(_) => Queue.Enabled(c.queue, s.queue, Queue.Publish)
    case RecordStatus(summary) =>
      s.reload.worker.Recording? && Queue.Enabled(c.queue, s.queue, Finishes(s, summary))
    case GiveUp(_) => Queue.Enabled(c.queue, s.queue, Queue.Fail)
    case _ => true
  }

  /** The reload protocol can do its part. */
  ghost predicate ReloadCan(c: Context, s: State, e: Event)
  {
    match e
    case PublishConfig(seen) =>
      && s.queue.worker.Prepared? && Body(s.queue.worker.basis) in c.reload.bodies
      && s.reload.worker.Idle? && seen < |s.reload.statuses|
    case RecordStatus(_) => Reload.Enabled(c.reload, s.reload, Reload.WriteStatus)
    case PodStep(r) => Reload.Enabled(c.reload, s.reload, r)
    case PassStep(r) => Reload.Enabled(c.reload, s.reload, r)
    case GiveUp(r) => Reload.Enabled(c.reload, s.reload, r)
    case _ => true
  }

  /** No notification gets lost, and the step neither publishes for the cluster nor ends the pass that did. */
  predicate Elsewhere(c: Context, s: State, e: Queue.Event)
  {
    && Queue.NothingLost(e) && !Foreign(c, e) && !e.Restart?
    && !(e.Publish? && Publishing(c, s.queue.worker)) && !((e.Finish? || e.Fail?) && Reloading(c, s.queue.worker))
  }

  /** Both parts belong to one event. */
  predicate Linked(c: Context, s: State, e: Event)
  {
    match e
    case QueueStep(q) => Elsewhere(c, s, q)
    case PodStep(r) => Reload.PodEvent(r)
    case PublishConfig(_) => Publishing(c, s.queue.worker)
    case PassStep(r) => InPass(r)
    case RecordStatus(summary) =>
      && Reloading(c, s.queue.worker) && s.reload.worker.Recording? && s.reload.worker.seen < |s.reload.statuses|
      && summary.lastConfigHash == RecordedHash(s.reload.worker.acc.inSync, c.reload.sha(s.reload.worker.body),
                                                s.reload.statuses[s.reload.worker.seen])
    case GiveUp(r) => Reloading(c, s.queue.worker) && (r.Abort? || r.SignalLost?)
    case RestartOperator => true
  }

  ghost predicate Enabled(c: Context, s: State, e: Event)
  {
    QueueCan(c, s, e) && ReloadCan(c, s, e) && Linked(c, s, e)
  }

  /** What the event is to the work queue, if anything. */
  ghost function QueuePart(s: State, e: Event): seq<Queue.Event>
    requires e.RecordStatus? ==> s.reload.worker.Recording?
  {
    match e
    case QueueStep(q) => [q]
    case PodStep(_) => []
    case PublishConfig(_) => [Queue.Publish]
    case PassStep(_) => []
    case RecordStatus(summary) => [Finishes(s, summary)]
    case GiveUp(_) => [Queue.Fail]
    case RestartOperator => [Queue.Restart]
  }

  /** What it is to the reload protocol. What gets published is what the protocol is to roll out. */
  ghost function ReloadPart(s: State, e: Event): seq<Reload.Event>
    requires e.PublishConfig? ==> s.queue.worker.Prepared?
  {
    match e
    case QueueStep(_) => []
    case PodStep(r) => [r]
    case PublishConfig(seen) => [Reload.EditSpec(Body(s.queue.worker.basis)), Reload.Read(seen), Reload.Publish]
    case PassStep(r) => [r]
    case RecordStatus(_) => [Reload.WriteStatus]
    case GiveUp(r) => [r]
    case RestartOperator => [Reload.OperatorRestart]
  }

  /** The reload protocol learns what is wanted, and the reconcile that reads it publishes it. */
  ghost function AfterPublishing(c: Reload.Context, r: Reload.State, body: string, seen: nat): Reload.State
    requires body in c.bodies && r.worker.Idle? && seen < |r.statuses|
  {
    var wanted := Reload.Next(c, r, Reload.EditSpec(body));
    Reload.Next(c, Reload.Next(c, wanted, Reload.Read(seen)), Reload.Publish)
  }

  ghost function QueueAfter(c: Context, s: State, e: Event): Queue.State
    requires QueueCan(c, s, e)
  {
    match e
    case QueueStep(q) => Queue.Next(c.queue, s.queue, q)
    case PublishConfig(_) => Queue.Next(c.queue, s.queue, Queue.Publish)
    case RecordStatus(summary) => Queue.Next(c.queue, s.queue, Finishes(s, summary))
    case GiveUp(_) => Queue.Next(c.queue, s.queue, Queue.Fail)
    case RestartOperator => Queue.Next(c.queue, s.queue, Queue.Restart)
    case PodStep(_) => s.queue
    case PassStep(_) => s.queue
  }

  ghost function ReloadAfter(c: Context, s: State, e: Event): Reload.State
    requires ReloadCan(c, s, e)
  {
    match e
    case QueueStep(_) => s.reload
    case PublishConfig(seen) => AfterPublishing(c.reload, s.reload, Body(s.queue.worker.basis), seen)
    case RecordStatus(_) => Reload.Next(c.reload, s.reload, Reload.WriteStatus)
    case GiveUp(r) => Reload.Next(c.reload, s.reload, r)
    case RestartOperator => Reload.Next(c.reload, s.reload, Reload.OperatorRestart)
    case PodStep(r) => Reload.Next(c.reload, s.reload, r)
    case PassStep(r) => Reload.Next(c.reload, s.reload, r)
  }

  ghost function Next(c: Context, s: State, e: Event): State
    requires Enabled(c, s, e)
  {
    State(QueueAfter(c, s, e), ReloadAfter(c, s, e))
  }

  ghost predicate Valid(c: Context, s: State, run: seq<Event>)
    decreases |run|, 0
  {
    run == []
    || (Valid(c, s, run[..|run| - 1]) && Enabled(c, After(c, s, run[..|run| - 1]), run[|run| - 1]))
  }

  ghost function After(c: Context, s: State, run: seq<Event>): State
    requires Valid(c, s, run)
    decreases |run|, 1
  {
    if run == [] then s else Next(c, After(c, s, run[..|run| - 1]), run[|run| - 1])
  }

  /** A fresh operator meets a cluster for which nothing was published yet. */
  ghost predicate Starting(c: Context, s: State)
  {
    && QueueTheorems.Starting(s.queue) && c.key in s.queue.clusters && s.queue.basis == map[]
    && c.key !in s.queue.configMaps && Queue.ThisCluster(c.key) !in s.queue.statuses && Reload.Init(c.reload, s.reload)
  }

  ghost predicate Legal(c: Context)
  {
    Reload.Legal(c.reload) && c.reload.sha == c.queue.digest
  }

  // ---- what both machines keep ----

  /** No notification of the cluster is under way and no pass over it. */
  ghost predicate AtRest(s: Queue.State, k: Key)
  {
    !QueueProof.Due(s, k) && (s.worker.Idle? || s.worker.key != k)
  }

  /** The reload protocol is at work exactly while the pass that published is, and on the same config. */
  ghost predicate InStep(c: Context, s: State)
  {
    && (s.reload.worker.Idle? <==> !Reloading(c, s.queue.worker))
    && (Reloading(c, s.queue.worker) ==> s.reload.worker.body == Body(s.queue.worker.basis))
    && (s.reload.worker.Recording? ==> s.reload.reloadedOnce)
  }

  /** Both machines know the same ConfigMap. */
  ghost predicate SameConfigMap(c: Context, s: State)
  {
    && (c.key in s.queue.basis <==> s.reload.published != [])
    && (c.key in s.queue.basis ==>
          && Reload.Latest(s.reload.published) == Body(s.queue.basis[c.key]) == s.reload.desired
          && Queue.HoldsText(s.queue, c.key, Queue.Published(c.queue, s.queue.basis[c.key].out)))
    && (Reloading(c, s.queue.worker) ==>
          c.key in s.queue.basis && s.queue.basis[c.key] == s.queue.worker.basis)
  }

  ghost predicate Inv(c: Context, s: State)
  {
    && c.key in s.queue.clusters && QueueProof.Inv(c.queue, s.queue) && Reload.Inv(c.reload, s.reload)
    && InStep(c, s) && SameConfigMap(c, s)
    && (AtRest(s.queue, c.key) ==> ReloadRuns.Quiet(c.reload, s.reload))
  }

  // ---- a cluster at rest was at rest ----

  lemma WorkerStepKeepsDue(c: Queue.Context, s: Queue.State, e: Queue.Event, k: Key)
    requires Queue.Enabled(c, s, e) && QueueProof.Due(s, k) && !(e.Start? && e.key == k)
    requires e.Start? || e.ListAccounts? || e.ListUsers? || e.ReconcileUsers? || e.ReconcileFails? || e.Publish?
             || e.Finish? || e.Fail?
    ensures QueueProof.Due(Queue.Next(c, s, e), k)
  {
    var t := Queue.Next(c, s, e);
    assert t.accounts == s.accounts && s.pending <= t.pending && (k in s.queue ==> k in t.queue) by {
      hide Queue.Attempts, Queue.Recorded, Queue.AfterWrites, Queue.Changed, Queue.NotesOf, Queue.Published,
        Queue.PassAllowed;
    }
    hide Queue.Next, Queue.Enabled, QueueProof.Due;
    QueueWorker.SameDue(s, t, k);
  }

  lemma ReportKeepsDue(c: Queue.Context, s: Queue.State, e: Queue.Event, k: Key)
    requires Queue.Enabled(c, s, e) && QueueProof.Due(s, k)
    requires e.SetCluster? || e.DropCluster? || e.TouchConfigMap? || e.TouchStatus? || e.Enqueue?
    ensures QueueProof.Due(Queue.Next(c, s, e), k)
  {
    var t := Queue.Next(c, s, e);
    assert t.accounts == s.accounts && s.pending <= t.pending && s.queue <= t.queue;
    hide Queue.Next, Queue.Enabled, QueueProof.Due;
    QueueWorker.SameDue(s, t, k);
  }

  /** Only the start of a pass over the cluster makes it less than due. */
  lemma StepKeepsDue(c: Queue.Context, s: Queue.State, e: Queue.Event, k: Key)
    requires Queue.Enabled(c, s, e) && Queue.NothingLost(e) && QueueProof.WellKeyed(s) && k in s.clusters
    requires QueueProof.Due(s, k) && !e.Restart? && !(e.Start? && e.key == k)
    ensures QueueProof.Due(Queue.Next(c, s, e), k)
  {
    hide Queue.Enabled, Queue.Next, Queue.NothingLost, QueueProof.Due, QueueProof.WellKeyed, QueueProof.AccountEdit,
      QueueProof.UserEdit;
    match e
    case SetAccount(_) | DropAccount(_) =>
      QueueProof.AccountEventIsEdit(c, s, e);
      QueueProof.AccountEditKeepsDue(s, Queue.Next(c, s, e), k);
    case SetUser(_) | DropUser(_) =>
      QueueProof.UserEventIsEdit(c, s, e);
      QueueProof.UserEditKeepsDue(s, Queue.Next(c, s, e), k);
    case Deliver(_, _, _) => QueueProof.DeliverKeepsDue(c, s, e, k);
    case SetCluster(_) | DropCluster(_) | TouchConfigMap(_, _) | TouchStatus(_, _) | Enqueue(_) =>
      ReportKeepsDue(c, s, e, k);
    case _ => WorkerStepKeepsDue(c, s, e, k);
  }

  /** A pass over the cluster goes on, or ends with the cluster in the queue again. */
  lemma PassGoesOn(c: Queue.Context, s: Queue.State, e: Queue.Event, k: Key)
    requires Queue.Enabled(c, s, e) && !s.worker.Idle? && s.worker.key == k && !e.Finish? && !e.Restart?
    ensures !AtRest(Queue.Next(c, s, e), k)
  {
    hide Queue.Attempts, Queue.Recorded, Queue.AfterWrites, Queue.Changed, Queue.NotesOf, Queue.Published,
      Queue.PassAllowed;
  }

  lemma StartedIsAtWork(c: Queue.Context, s: Queue.State, e: Queue.Event, k: Key)
    requires Queue.Enabled(c, s, e) && e.Start? && e.key == k && k in s.clusters
    ensures !AtRest(Queue.Next(c, s, e), k)
  {
    hide QueueProof.Due;
  }

  lemma RestWasRest(c: Queue.Context, s: Queue.State, e: Queue.Event, k: Key)
    requires Queue.Enabled(c, s, e) && Queue.NothingLost(e) && QueueProof.WellKeyed(s) && k in s.clusters
    requires !e.Restart? && !(e.Finish? && s.worker.key == k)
    requires AtRest(Queue.Next(c, s, e), k)
    ensures AtRest(s, k)
  {
    hide Queue.Next, QueueProof.Due, QueueProof.WellKeyed, Queue.NothingLost;
    if e.Start? && e.key == k {
      StartedIsAtWork(c, s, e, k);
    } else if !s.worker.Idle? && s.worker.key == k {
      PassGoesOn(c, s, e, k);
    } else if QueueProof.Due(s, k) {
      StepKeepsDue(c, s, e, k);
    }
  }

  // ---- the queue's steps ----

  lemma ElsewhereKeepsPass(c: Context, s: State, e: Queue.Event)
    requires Elsewhere(c, s, e) && Queue.Enabled(c.queue, s.queue, e)
    ensures var w, t := s.queue.worker, Queue.Next(c.queue, s.queue, e).worker;
            (Reloading(c, w) <==> Reloading(c, t)) && (Reloading(c, w) ==> t == w)
  {
    hide Queue.Attempts, Queue.Recorded, Queue.AfterWrites, Queue.Changed, Queue.NotesOf, Queue.Published,
      Queue.PassAllowed, ConfigBody, ConfigOf, UserTotal, Resolved, Queue.ListsAccounts, Queue.ListsUsers,
      Queue.AcceptAllowed, Queue.Requests, Queue.HoldsText;
  }

  lemma ElsewhereKeepsBasis(c: Context, s: State, e: Queue.Event)
    requires Elsewhere(c, s, e) && Queue.Enabled(c.queue, s.queue, e) && c.key in s.queue.clusters
    ensures var q, t := s.queue, Queue.Next(c.queue, s.queue, e);
            && c.key in t.clusters && (c.key in t.basis <==> c.key in q.basis)
            && (c.key in q.basis ==> t.basis[c.key] == q.basis[c.key])
  {
    hide Queue.Attempts, Queue.Recorded, Queue.AfterWrites, Queue.Changed, Queue.NotesOf, Queue.Published,
      Queue.PassAllowed, ConfigBody, ConfigOf, UserTotal, Resolved, Queue.ListsAccounts, Queue.ListsUsers,
      Queue.AcceptAllowed, Queue.Requests, Queue.HoldsText, Queue.NothingLost;
  }

  lemma ElsewhereKeepsConfigMap(c: Context, s: State, e: Queue.Event)
    requires Elsewhere(c, s, e) && Queue.Enabled(c.queue, s.queue, e)
    ensures var q, t := s.queue, Queue.Next(c.queue, s.queue, e);
            && (c.key in t.configMaps <==> c.key in q.configMaps)
            && (c.key in q.configMaps ==> t.configMaps[c.key] == q.configMaps[c.key])
  {
    hide Queue.Attempts, Queue.Recorded, Queue.AfterWrites, Queue.Changed, Queue.NotesOf, Queue.Published,
      Queue.PassAllowed, ConfigBody, ConfigOf, UserTotal, Resolved, Queue.ListsAccounts, Queue.ListsUsers,
      Queue.AcceptAllowed, Queue.Requests, Queue.HoldsText, Queue.NothingLost;
  }

  lemma KeysAreSound(c: Queue.Context, q: Queue.State)
    requires QueueProof.Inv(c, q)
    ensures QueueProof.WellKeyed(q)
  {}

  lemma FinishedElsewhere(c: Context, s: State, q: Queue.Event)
    requires Queue.Enabled(c.queue, s.queue, q) && Elsewhere(c, s, q)
    ensures q.Finish? ==> s.queue.worker.key != c.key
  {}

  lemma QueueStepKeepsInv(c: Context, s: State, q: Queue.Event)
    requires Queue.Enabled(c.queue, s.queue, q) && Elsewhere(c, s, q) && Inv(c, s)
    ensures Inv(c, s.(queue := Queue.Next(c.queue, s.queue, q)))
  {
    hide Queue.Next, Queue.Enabled, QueueProof.Inv, Reload.Inv, AtRest, ReloadRuns.Quiet, Body, Queue.NothingLost,
      QueueProof.WellKeyed;
    ElsewhereKeepsPass(c, s, q);
    ElsewhereKeepsBasis(c, s, q);
    ElsewhereKeepsConfigMap(c, s, q);
    QueueWorker.StepKeepsInv(c.queue, s.queue, q);
    KeysAreSound(c.queue, s.queue);
    FinishedElsewhere(c, s, q);
    if AtRest(Queue.Next(c.queue, s.queue, q), c.key) {
      RestWasRest(c.queue, s.queue, q, c.key);
    }
  }

  // ---- the reload protocol's steps ----

  lemma PodFacts(c: Reload.Context, r: Reload.State, e: Reload.Event)
    requires Reload.Enabled(c, r, e) && Reload.PodEvent(e) && Reload.Legal(c) && Reload.Inv(c, r)
    ensures Reload.Inv(c, Reload.Next(c, r, e)) && Reload.Next(c, r, e) == r.(pods := Reload.Next(c, r, e).pods)
  {
    Reload.StepKeepsInv(c, r, e);
    hide Reload.Inv;
  }

  lemma PodStepKeepsInv(c: Context, s: State, e: Reload.Event)
    requires Reload.Enabled(c.reload, s.reload, e) && Reload.PodEvent(e) && Inv(c, s) && Legal(c)
    ensures Inv(c, s.(reload := Reload.Next(c.reload, s.reload, e)))
  {
    hide AtRest, QueueProof.Inv, Queue.HoldsText, Body, Reload.Inv, Reload.Enabled, Reload.Next;
    PodFacts(c.reload, s.reload, e);
  }

  lemma PassStepFacts(c: Reload.Context, r: Reload.State, e: Reload.Event)
    requires Reload.Enabled(c, r, e) && InPass(e) && Reload.Inv(c, r)
    ensures var t := Reload.Next(c, r, e);
            && !r.worker.Idle? && !t.worker.Idle? && t.worker.body == r.worker.body
            && t.published == r.published && t.statuses == r.statuses && t.desired == r.desired
            && ((r.worker.Recording? ==> r.reloadedOnce) ==> (t.worker.Recording? ==> t.reloadedOnce))
  {
    hide Reload.PassInv, Reload.FilesInv, Reload.AllUpToDate;
  }

  lemma BusyIsNotAtRest(c: Context, s: State)
    requires Reloading(c, s.queue.worker)
    ensures !AtRest(s.queue, c.key)
  {
    hide QueueProof.Due;
  }

  lemma PassStepKeepsInv(c: Context, s: State, e: Reload.Event)
    requires Reload.Enabled(c.reload, s.reload, e) && InPass(e) && Inv(c, s) && Legal(c)
    ensures Inv(c, s.(reload := Reload.Next(c.reload, s.reload, e)))
  {
    hide AtRest, QueueProof.Inv, Queue.HoldsText, Body, Reload.Inv, Reload.Enabled, Reload.Next, ReloadRuns.Quiet;
    PassStepFacts(c.reload, s.reload, e);
    Reload.StepKeepsInv(c.reload, s.reload, e);
    BusyIsNotAtRest(c, s);
  }

  // ---- steps of both ----

  lemma PublishingFacts(c: Reload.Context, r: Reload.State, body: string, seen: nat)
    requires Reload.Legal(c) && Reload.Inv(c, r) && body in c.bodies && r.worker.Idle? && seen < |r.statuses|
    ensures var t := AfterPublishing(c, r, body, seen);
            && Reload.Inv(c, t) && t.worker == Reload.Decided(body, seen) && t.published != []
            && Reload.Latest(t.published) == body == t.desired
  {
    var wanted := Reload.Next(c, r, Reload.EditSpec(body));
    var rendered := Reload.Next(c, wanted, Reload.Read(seen));
    assert rendered == r.(desired := body, worker := Reload.Rendered(body, seen));
    assert Reload.Enabled(c, r, Reload.EditSpec(body)) && Reload.Enabled(c, wanted, Reload.Read(seen));
    assert Reload.Enabled(c, rendered, Reload.Publish);
    assert AfterPublishing(c, r, body, seen) == Reload.Next(c, rendered, Reload.Publish);
    hide Reload.Inv;
    Reload.StepKeepsInv(c, r, Reload.EditSpec(body));
    Reload.StepKeepsInv(c, wanted, Reload.Read(seen));
    Reload.StepKeepsInv(c, rendered, Reload.Publish);
  }

  lemma PublishedFacts(c: Context, s: State)
    requires Publishing(c, s.queue.worker)
    ensures var q, t := s.queue, Queue.Next(c.queue, s.queue, Queue.Publish);
            && t.clusters == q.clusters && Reloading(c, t.worker) && t.worker.basis == q.worker.basis
            && c.key in t.basis && t.basis[c.key] == q.worker.basis
            && Queue.HoldsText(t, c.key, Queue.Published(c.queue, q.worker.basis.out))
  {
    hide Queue.Published;
  }

  lemma PublishConfigKeepsInv(c: Context, s: State, e: Event)
    requires e.PublishConfig? && Enabled(c, s, e) && Inv(c, s) && Legal(c)
    ensures Inv(c, Next(c, s, e))
  {
    hide AtRest, QueueProof.Inv, Reload.Inv, Body, Queue.Next, Queue.Enabled, AfterPublishing, ReloadRuns.Quiet,
      Queue.HoldsText;
    QueueWorker.StepKeepsInv(c.queue, s.queue, Queue.Publish);
    PublishedFacts(c, s);
    PublishingFacts(c.reload, s.reload, Body(s.queue.worker.basis), e.seen);
    BusyIsNotAtRest(c, Next(c, s, e));
  }

  lemma FinishedFacts(c: Queue.Context, q: Queue.State, summary: Queue.ClusterStatus, inSync: bool)
    requires q.worker.Finishing? && Queue.Enabled(c, q, Queue.Finish(summary, inSync))
    ensures var t := Queue.Next(c, q, Queue.Finish(summary, inSync));
            && t.clusters == q.clusters && t.worker.Idle? && t.basis == q.basis && t.configMaps == q.configMaps
            && (!inSync ==> !AtRest(t, q.worker.key))
  {
    hide Queue.AfterWrites, Queue.Changed, Queue.NotesOf, ConfigBody, ConfigOf, UserTotal;
  }

  lemma RecordedFacts(c: Reload.Context, r: Reload.State)
    requires Reload.Legal(c) && Reload.Inv(c, r) && Reload.Enabled(c, r, Reload.WriteStatus) && r.reloadedOnce
    requires r.published != [] && r.desired == Reload.Latest(r.published) == r.worker.body
    ensures var t := Reload.Next(c, r, Reload.WriteStatus);
            && Reload.Inv(c, t) && t.worker.Idle? && t.published == r.published && t.desired == r.desired
            && (r.worker.acc.inSync ==> ReloadRuns.Quiet(c, t))
  {
    Reload.StepKeepsInv(c, r, Reload.WriteStatus);
    hide Reload.Inv;
  }

  /** A pass has ended: both workers are idle and the ConfigMap is as it was. */
  lemma EndedKeepsInv(c: Context, s: State, q: Queue.State, r: Reload.State)
    requires Inv(c, s) && QueueProof.Inv(c.queue, q) && Reload.Inv(c.reload, r) && q.worker.Idle? && r.worker.Idle?
    requires q.clusters == s.queue.clusters && q.basis == s.queue.basis && q.configMaps == s.queue.configMaps
    requires r.published == s.reload.published && r.desired == s.reload.desired
    requires AtRest(q, c.key) ==> ReloadRuns.Quiet(c.reload, r)
    ensures Inv(c, State(q, r))
  {
    hide AtRest, QueueProof.Inv, Reload.Inv, Body, ReloadRuns.Quiet, Queue.Published;
  }

  lemma RecordsInStep(c: Context, s: State)
    requires Reloading(c, s.queue.worker) && s.reload.worker.Recording? && Inv(c, s)
    ensures s.reload.reloadedOnce && s.reload.published != []
            && s.reload.desired == Reload.Latest(s.reload.published) == s.reload.worker.body
  {
    hide AtRest, QueueProof.Inv, Reload.Inv, Body, ReloadRuns.Quiet, Queue.HoldsText, Queue.Published;
  }

  lemma RecordStatusKeepsInv(c: Context, s: State, summary: Queue.ClusterStatus)
    requires Reloading(c, s.queue.worker) && s.reload.worker.Recording? && Inv(c, s) && Legal(c)
    requires Queue.Enabled(c.queue, s.queue, Finishes(s, summary))
    requires Reload.Enabled(c.reload, s.reload, Reload.WriteStatus)
    ensures Inv(c, State(Queue.Next(c.queue, s.queue, Finishes(s, summary)),
                         Reload.Next(c.reload, s.reload, Reload.WriteStatus)))
  {
    assert QueueProof.Inv(c.queue, s.queue) && Reload.Inv(c.reload, s.reload) by {
      hide QueueProof.Inv, Reload.Inv, InStep, SameConfigMap, AtRest, ReloadRuns.Quiet;
    }
    hide Inv, AtRest, QueueProof.Inv, Reload.Inv, Queue.Next, Queue.Enabled, Reload.Next, Reload.Enabled,
      ReloadRuns.Quiet, Reload.Legal;
    QueueWorker.StepKeepsInv(c.queue, s.queue, Finishes(s, summary));
    FinishedFacts(c.queue, s.queue, summary, s.reload.worker.acc.inSync);
    RecordsInStep(c, s);
    RecordedFacts(c.reload, s.reload);
    EndedKeepsInv(c, s, Queue.Next(c.queue, s.queue, Finishes(s, summary)),
                  Reload.Next(c.reload, s.reload, Reload.WriteStatus));
  }

  lemma FailedFacts(c: Queue.Context, q: Queue.State, e: Queue.Event, k: Key)
    requires Queue.Enabled(c, q, e) && k in q.clusters && QueueProof.Inv(c, q)
    requires (e.Fail? && q.worker.Finishing? && q.worker.key == k) || e.Restart?
    ensures var t := Queue.Next(c, q, e);
            && QueueProof.Inv(c, t) && t.clusters == q.clusters && t.worker.Idle? && t.basis == q.basis
            && t.configMaps == q.configMaps && !AtRest(t, k)
  {
    QueueWorker.StepKeepsInv(c, q, e);
    hide QueueProof.Inv;
  }

  lemma AbortFacts(c: Reload.Context, r: Reload.State, e: Reload.Event)
    requires Reload.Legal(c) && Reload.Inv(c, r) && Reload.Enabled(c, r, e)
    requires e.Abort? || e.SignalLost? || e.OperatorRestart?
    ensures var t := Reload.Next(c, r, e);
            Reload.Inv(c, t) && t.worker.Idle? && t.published == r.published && t.desired == r.desired
  {
    Reload.StepKeepsInv(c, r, e);
    hide Reload.Inv;
  }

  /** The pass fails, or all of the operator does. */
  lemma BreakKeepsInv(c: Context, s: State, qe: Queue.Event, re: Reload.Event)
    requires (qe.Fail? && Reloading(c, s.queue.worker)) || qe.Restart?
    requires re.Abort? || re.SignalLost? || re.OperatorRestart?
    requires Queue.Enabled(c.queue, s.queue, qe) && Reload.Enabled(c.reload, s.reload, re) && Inv(c, s) && Legal(c)
    ensures Inv(c, State(Queue.Next(c.queue, s.queue, qe), Reload.Next(c.reload, s.reload, re)))
  {
    assert QueueProof.Inv(c.queue, s.queue) && Reload.Inv(c.reload, s.reload) && c.key in s.queue.clusters by {
      hide QueueProof.Inv, Reload.Inv, InStep, SameConfigMap, AtRest, ReloadRuns.Quiet;
    }
    hide Inv, AtRest, QueueProof.Inv, Reload.Inv, Queue.Next, Queue.Enabled, Reload.Next, Reload.Enabled,
      ReloadRuns.Quiet, Reload.Legal;
    FailedFacts(c.queue, s.queue, qe, c.key);
    AbortFacts(c.reload, s.reload, re);
    EndedKeepsInv(c, s, Queue.Next(c.queue, s.queue, qe), Reload.Next(c.reload, s.reload, re));
  }

  lemma GiveUpKeepsInv(c: Context, s: State, r: Reload.Event)
    requires Reloading(c, s.queue.worker) && (r.Abort? || r.SignalLost?) && Inv(c, s) && Legal(c)
    requires Queue.Enabled(c.queue, s.queue, Queue.Fail) && Reload.Enabled(c.reload, s.reload, r)
    ensures Inv(c, State(Queue.Next(c.queue, s.queue, Queue.Fail), Reload.Next(c.reload, s.reload, r)))
  {
    hide Inv, Queue.Next, Reload.Next;
    BreakKeepsInv(c, s, Queue.Fail, r);
  }

  lemma RestartKeepsInv(c: Context, s: State, e: Event)
    requires e.RestartOperator? && Enabled(c, s, e) && Inv(c, s) && Legal(c)
    ensures Inv(c, Next(c, s, e))
  {
    assert Queue.Enabled(c.queue, s.queue, Queue.Restart) && Reload.Enabled(c.reload, s.reload, Reload.OperatorRestart);
    assert Next(c, s, e) == State(Queue.Next(c.queue, s.queue, Queue.Restart),
                                  Reload.Next(c.reload, s.reload, Reload.OperatorRestart));
    hide Inv, Queue.Next, Reload.Next, Queue.Enabled, Reload.Enabled, Legal;
    BreakKeepsInv(c, s, Queue.Restart, Reload.OperatorRestart);
  }

  lemma StepKeepsInv(c: Context, s: State, e: Event)
    requires Legal(c) && Inv(c, s) && Enabled(c, s, e)
    ensures Inv(c, Next(c, s, e))
  {
    hide Inv, Legal, Queue.Enabled, Queue.Next, Reload.Enabled, Reload.Next, AfterPublishing, Body, Elsewhere;
    match e
    case QueueStep(q) => QueueStepKeepsInv(c, s, q);
    case PodStep(r) => PodStepKeepsInv(c, s, r);
    case PublishConfig(_) => PublishConfigKeepsInv(c, s, e);
    case PassStep(r) => PassStepKeepsInv(c, s, r);
    case RecordStatus(summary) => RecordStatusKeepsInv(c, s, summary);
    case GiveUp(r) => GiveUpKeepsInv(c, s, r);
    case RestartOperator => RestartKeepsInv(c, s, e);
  }

  // ---- the recorded hash ----

  /** The hash in the cluster's status, empty as long as none was written. */
  function RecordedFor(q: Queue.State, k: Key): string
  {
    var o := Queue.ThisCluster(k);
    if o in q.statuses && q.statuses[o].ClusterStatusOf? then q.statuses[o].cluster.lastConfigHash else ""
  }

  /** Both machines know the same recorded hash. */
  ghost predicate SameHash(c: Context, s: State)
  {
    s.reload.statuses != [] && Reload.Latest(s.reload.statuses) == RecordedFor(s.queue, c.key)
  }

  lemma {:induction false} WritesElsewhere(statuses: map<Queue.Object, Queue.Status>, writes: seq<Queue.Attempt>,
                                           o: Queue.Object)
    requires forall w <- writes :: w.target != o
    ensures var after := Queue.AfterWrites(statuses, writes);
            (o in after <==> o in statuses) && (o in statuses ==> after[o] == statuses[o])
  {
    if writes != [] {
      assert writes[|writes| - 1] in writes;
      WritesElsewhere(statuses, writes[..|writes| - 1], o);
    }
  }

  /** A pass records statuses of accounts and users before it publishes, and no cluster's. */
  lemma ReconcileKeepsRecorded(c: Queue.Context, q: Queue.State, e: Queue.Event, k: Key)
    requires Queue.Enabled(c, q, e) && e.ReconcileUsers?
    ensures RecordedFor(Queue.Next(c, q, e), k) == RecordedFor(q, k)
  {
    var attempts := Queue.Attempts(q.worker, e.env, e.links, e.out, e.secrets);
    var writes := Queue.Recorded(attempts, e.accepted);
    assert Queue.Next(c, q, e).statuses == Queue.AfterWrites(q.statuses, writes) by {
      hide Queue.AfterWrites, Queue.Attempts, Queue.Recorded, Queue.Changed, Queue.NotesOf, Resolved, Queue.PassAllowed;
    }
    hide Queue.Next, Queue.Enabled, Queue.Attempts, Queue.Recorded, Queue.AfterWrites;
    forall x | x in writes ensures x.target != Queue.ThisCluster(k) {
      QueueWorker.WrittenAreAccepted(attempts, e.accepted, x);
      QueueWorker.AttemptTargets(q.worker, e.env, e.links, e.out, e.secrets, x);
    }
    WritesElsewhere(q.statuses, writes, Queue.ThisCluster(k));
  }

  lemma OneWriteElsewhere(q: Queue.State, write: Queue.Attempt, k: Key)
    requires write.target != Queue.ThisCluster(k)
    ensures RecordedFor(Queue.AfterRecording(q, [write]), k) == RecordedFor(q, k)
  {
    WritesElsewhere(q.statuses, [write], Queue.ThisCluster(k));
    hide Queue.AfterWrites, Queue.Changed, Queue.NotesOf;
  }

  lemma OtherStepKeepsRecorded(c: Context, s: State, e: Queue.Event)
    requires Elsewhere(c, s, e) && Queue.Enabled(c.queue, s.queue, e)
    requires !e.ReconcileUsers? && !e.Finish? && !e.TouchStatus?
    ensures RecordedFor(Queue.Next(c.queue, s.queue, e), c.key) == RecordedFor(s.queue, c.key)
  {
    hide Queue.Attempts, Queue.Recorded, Queue.AfterWrites, Queue.Changed, Queue.NotesOf, Queue.Published,
      Queue.PassAllowed, ConfigBody, ConfigOf, UserTotal, Resolved, Queue.ListsAccounts, Queue.ListsUsers,
      Queue.AcceptAllowed, Queue.Requests, Queue.HoldsText;
  }

  lemma ElsewhereKeepsRecorded(c: Context, s: State, e: Queue.Event)
    requires Elsewhere(c, s, e) && Queue.Enabled(c.queue, s.queue, e)
    ensures RecordedFor(Queue.Next(c.queue, s.queue, e), c.key) == RecordedFor(s.queue, c.key)
  {
    if e.ReconcileUsers? {
      hide Queue.Next, Queue.Enabled, RecordedFor;
      ReconcileKeepsRecorded(c.queue, s.queue, e, c.key);
    } else if e.Finish? {
      hide Queue.AfterRecording, ConfigBody, ConfigOf, UserTotal;
      var write := Queue.Attempt(Queue.ThisCluster(s.queue.worker.key), Queue.ClusterStatusOf(e.summary));
      OneWriteElsewhere(s.queue, write, c.key);
    } else if e.TouchStatus? {
      hide Queue.AfterRecording;
      OneWriteElsewhere(s.queue, Queue.Attempt(e.target, e.status), c.key);
    } else {
      hide Queue.Next, Queue.Enabled, RecordedFor, Elsewhere;
      OtherStepKeepsRecorded(c, s, e);
    }
  }

  lemma FinishRecords(c: Queue.Context, q: Queue.State, summary: Queue.ClusterStatus, inSync: bool)
    requires q.worker.Finishing? && Queue.Enabled(c, q, Queue.Finish(summary, inSync))
    ensures RecordedFor(Queue.Next(c, q, Queue.Finish(summary, inSync)), q.worker.key) == summary.lastConfigHash
  {
    var write := Queue.Attempt(Queue.ThisCluster(q.worker.key), Queue.ClusterStatusOf(summary));
    assert [write][..0] == [];
    assert Queue.AfterWrites(q.statuses, [write]) == q.statuses[write.target := write.status];
    hide Queue.AfterWrites, Queue.Changed, Queue.NotesOf, ConfigBody, ConfigOf, UserTotal;
  }

  lemma WriteRecords(c: Reload.Context, r: Reload.State)
    requires Reload.Enabled(c, r, Reload.WriteStatus)
    ensures var t := Reload.Next(c, r, Reload.WriteStatus).statuses;
            t != []
            && Reload.Latest(t) == RecordedHash(r.worker.acc.inSync, c.sha(r.worker.body), Reload.Latest(r.statuses))
  {}

  lemma SameStatuses(c: Context, s: State, e: Event)
    requires ReloadCan(c, s, e) && Linked(c, s, e) && !e.RecordStatus?
    ensures ReloadAfter(c, s, e).statuses == s.reload.statuses
  {
    hide Body, Reload.ListsAll, NeedsPass, HeaderHash, FormatHashHeader, Elsewhere;
  }

  lemma SameRecorded(c: Context, s: State, e: Event)
    requires QueueCan(c, s, e) && Linked(c, s, e) && !e.RecordStatus?
    ensures RecordedFor(QueueAfter(c, s, e), c.key) == RecordedFor(s.queue, c.key)
  {
    hide Elsewhere, Queue.Published;
    if e.QueueStep? {
      hide Queue.Enabled, Queue.Next, RecordedFor;
      ElsewhereKeepsRecorded(c, s, e.step);
    }
  }

  /** The hash a pass records is the one in the status of the cluster. */
  lemma StepKeepsHash(c: Context, s: State, e: Event)
    requires SameHash(c, s) && Enabled(c, s, e)
    ensures SameHash(c, Next(c, s, e))
  {
    if e.RecordStatus? {
      hide RecordedFor, Queue.Enabled, Queue.Next;
      FinishRecords(c.queue, s.queue, e.summary, s.reload.worker.acc.inSync);
      WriteRecords(c.reload, s.reload);
    } else {
      hide QueueCan, ReloadCan, Linked, QueueAfter, ReloadAfter, RecordedFor;
      SameStatuses(c, s, e);
      SameRecorded(c, s, e);
    }
  }
}
