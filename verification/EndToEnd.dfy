/**
 * What the operator guarantees over whole runs of the queue and the reload protocol: while a cluster is at
 * rest, every running server enforces exactly what is declared.
 */
module EndToEnd {
  import opened Text
  import opened HashHeader
  import opened Api
  import opened NatsConfig
  import opened ConfigText
  import opened Convert
  import opened Resolve
  import opened ListingOrder
  import opened Operator
  import Enforcement
  import Queue = Freshness
  import QueueProof = FreshnessProof
  import QueueWorker = FreshnessWorker
  import QueueTheorems = FreshnessTheorems
  import Reload = ReloadProtocol
  import ReloadRuns = ReloadTheorems

  // ---- a joint run is a run of either machine ----

  lemma PublishingRun(c: Reload.Context, r: Reload.State, body: string, seen: nat)
    requires body in c.bodies && r.worker.Idle? && seen < |r.statuses|
    ensures var run := [Reload.EditSpec(body), Reload.Read(seen), Reload.Publish];
            Reload.Valid(c, r, run) && Reload.After(c, r, run) == AfterPublishing(c, r, body, seen)
  {
    var wanted := Reload.Next(c, r, Reload.EditSpec(body));
    var rendered := Reload.Next(c, wanted, Reload.Read(seen));
    assert Reload.Enabled(c, wanted, Reload.Read(seen)) && Reload.Enabled(c, rendered, Reload.Publish);
    assert AfterPublishing(c, r, body, seen) == Reload.Next(c, rendered, Reload.Publish);
    hide Reload.Valid, Reload.After, Reload.Next, AfterPublishing;
    ReloadRuns.Start(c, r);
    ReloadRuns.Extend(c, r, [], Reload.EditSpec(body));
    ReloadRuns.Extend(c, r, [] + [Reload.EditSpec(body)], Reload.Read(seen));
    ReloadRuns.Extend(c, r, [] + [Reload.EditSpec(body)] + [Reload.Read(seen)], Reload.Publish);
    assert [] + [Reload.EditSpec(body)] + [Reload.Read(seen)] + [Reload.Publish]
        == [Reload.EditSpec(body), Reload.Read(seen), Reload.Publish];
  }

  lemma ReloadStep(c: Context, s: State, e: Event)
    requires ReloadCan(c, s, e) && (e.PublishConfig? ==> s.queue.worker.Prepared?)
    ensures Reload.Valid(c.reload, s.reload, ReloadPart(s, e))
    ensures Reload.After(c.reload, s.reload, ReloadPart(s, e)) == ReloadAfter(c, s, e)
  {
    var r := s.reload;
    assert Reload.Enabled(c.reload, r, Reload.OperatorRestart);
    hide Reload.Valid, Reload.After, Reload.Next, Reload.Enabled, AfterPublishing, Body;
    ReloadRuns.Start(c.reload, r);
    match e {
      case QueueStep(_) =>
      case PublishConfig(seen) => PublishingRun(c.reload, r, Body(s.queue.worker.basis), seen);
      case _ =>
        var step := ReloadPart(s, e)[0];
        ReloadRuns.Extend(c.reload, r, [], step);
        assert [] + [step] == ReloadPart(s, e);
    }
  }

  lemma QueuePartFacts(c: Context, s: State, e: Event)
    requires QueueCan(c, s, e) && Linked(c, s, e)
    ensures QueuePart(s, e) == [] ==> QueueAfter(c, s, e) == s.queue
    ensures QueuePart(s, e) != [] ==> var q := QueuePart(s, e)[0];
                                      && QueuePart(s, e) == [q] && Queue.NothingLost(q)
                                      && Queue.Enabled(c.queue, s.queue, q)
                                      && QueueAfter(c, s, e) == Queue.Next(c.queue, s.queue, q)
  {
    assert Queue.Enabled(c.queue, s.queue, Queue.Restart);
    hide Queue.Next, Queue.Enabled;
  }

  lemma QueueStepOf(c: Context, s: State, run: seq<Queue.Event>, t: State, e: Event)
    requires Queue.Valid(c.queue, s.queue, run) && Queue.After(c.queue, s.queue, run) == t.queue
    requires QueueCan(c, t, e) && Linked(c, t, e)
    ensures Queue.Valid(c.queue, s.queue, run + QueuePart(t, e))
    ensures Queue.After(c.queue, s.queue, run + QueuePart(t, e)) == QueueAfter(c, t, e)
    ensures forall q <- QueuePart(t, e) :: Queue.NothingLost(q)
  {
    hide Queue.Valid, Queue.After, Queue.Next, Queue.Enabled, QueueCan, QueuePart, QueueAfter, Queue.NothingLost;
    QueuePartFacts(c, t, e);
    if QueuePart(t, e) == [] {
      assert run + [] == run;
    } else {
      QueueTheorems.Extend(c.queue, s.queue, run, QueuePart(t, e)[0]);
    }
  }

  /** What happens to the queue in a joint run is a run of the queue in which no notification gets lost. */
  lemma {:induction false} QueueView(c: Context, s: State, run: seq<Event>) returns (view: seq<Queue.Event>)
    requires Valid(c, s, run)
    ensures Queue.Valid(c.queue, s.queue, view) && Queue.After(c.queue, s.queue, view) == After(c, s, run).queue
    ensures forall e <- view :: Queue.NothingLost(e)
  {
    if run == [] {
      view := [];
    } else {
      var front := run[..|run| - 1];
      var t := After(c, s, front);
      var before := QueueView(c, s, front);
      view := before + QueuePart(t, run[|run| - 1]);
      hide QueueCan, ReloadCan, Linked, QueuePart, QueueAfter, Queue.NothingLost, Queue.Valid, Queue.After;
      QueueStepOf(c, s, before, t, run[|run| - 1]);
    }
  }

  /** And what happens to the reload protocol is a run of the protocol that rolls out what the queue publishes. */
  lemma {:induction false} ReloadView(c: Context, s: State, run: seq<Event>) returns (view: seq<Reload.Event>)
    requires Valid(c, s, run)
    ensures Reload.Valid(c.reload, s.reload, view)
    ensures Reload.After(c.reload, s.reload, view) == After(c, s, run).reload
  {
    if run == [] {
      view := [];
    } else {
      var front, last := run[..|run| - 1], run[|run| - 1];
      var t := After(c, s, front);
      var before := ReloadView(c, s, front);
      assert ReloadCan(c, t, last) && (last.PublishConfig? ==> t.queue.worker.Prepared?) by {
        hide ReloadCan, QueueCan;
      }
      view := before + ReloadPart(t, last);
      hide Enabled, ReloadPart, ReloadAfter, ReloadCan, Reload.Valid, Reload.After;
      ReloadStep(c, t, last);
      ReloadRuns.Append(c.reload, s.reload, before, ReloadPart(t, last));
    }
  }

  // ---- what holds after every run ----

  lemma StartKeepsInv(c: Context, s: State)
    requires Starting(c, s)
    ensures Inv(c, s)
  {
    hide Reload.Inv, QueueProof.Inv;
    QueueTheorems.RunKeepsInv(c.queue, s.queue, []);
    Reload.InitInv(c.reload, s.reload);
  }

  lemma {:induction false} RunKeepsInv(c: Context, s: State, run: seq<Event>)
    requires Legal(c) && Starting(c, s) && Valid(c, s, run)
    ensures Inv(c, After(c, s, run))
  {
    hide Inv, Enabled, Next, Legal, Starting;
    if run == [] {
      StartKeepsInv(c, s);
    } else {
      RunKeepsInv(c, s, run[..|run| - 1]);
      StepKeepsInv(c, After(c, s, run[..|run| - 1]), run[|run| - 1]);
    }
  }

  /** The step puts the config of the recorded hash in place of another one. */
  ghost predicate Revives(c: Context, s: State, e: Event)
    requires Enabled(c, s, e)
  {
    && e.PublishConfig?
    && var body := Body(s.queue.worker.basis);
       && (s.reload.published == [] || Reload.Latest(s.reload.published) != body)
       && s.reload.statuses != [] && c.reload.sha(body) == Reload.Latest(s.reload.statuses)
  }

  ghost predicate NeverRevives(c: Context, s: State, run: seq<Event>)
    requires Valid(c, s, run)
  {
    run == []
    || (NeverRevives(c, s, run[..|run| - 1]) && !Revives(c, After(c, s, run[..|run| - 1]), run[|run| - 1]))
  }

  lemma PublishingKeepsConfirmed(c: Reload.Context, r: Reload.State, body: string, seen: nat)
    requires Reload.Legal(c) && Reload.Inv(c, r) && Reload.ConfirmedInv(c, r)
    requires body in c.bodies && r.worker.Idle? && seen < |r.statuses|
    requires (r.published != [] && Reload.Latest(r.published) == body) || c.sha(body) != Reload.Latest(r.statuses)
    ensures Reload.ConfirmedInv(c, AfterPublishing(c, r, body, seen))
  {
    var wanted := Reload.Next(c, r, Reload.EditSpec(body));
    var rendered := Reload.Next(c, wanted, Reload.Read(seen));
    assert rendered == r.(desired := body, worker := Reload.Rendered(body, seen));
    assert Reload.Enabled(c, r, Reload.EditSpec(body)) && Reload.Enabled(c, wanted, Reload.Read(seen));
    assert Reload.Enabled(c, rendered, Reload.Publish);
    assert AfterPublishing(c, r, body, seen) == Reload.Next(c, rendered, Reload.Publish);
    hide Reload.Inv, Reload.ConfirmedInv, Reload.Next, Reload.Enabled;
    ReloadRuns.StepKeepsConfirmed(c, r, Reload.EditSpec(body));
    ReloadRuns.StepKeepsConfirmed(c, wanted, Reload.Read(seen));
    ReloadRuns.StepKeepsConfirmed(c, rendered, Reload.Publish);
  }

  /** The recorded hash is that of the ConfigMap only while no pod is outdated. */
  ghost predicate Confirmed(c: Context, s: State)
  {
    s.reload.statuses != [] && Reload.ConfirmedInv(c.reload, s.reload)
  }

  lemma InvParts(c: Context, s: State)
    requires Inv(c, s)
    ensures QueueProof.Inv(c.queue, s.queue) && Reload.Inv(c.reload, s.reload) && s.reload.statuses != []
  {
    hide QueueProof.Inv, Reload.WorkerInv, InStep, SameConfigMap, AtRest, ReloadRuns.Quiet;
  }

  lemma PublishStepKeepsConfirmed(c: Context, s: State, e: Event)
    requires Legal(c) && Reload.Inv(c.reload, s.reload) && Confirmed(c, s)
    requires e.PublishConfig? && Enabled(c, s, e) && !Revives(c, s, e)
    ensures ReloadAfter(c, s, e).statuses != [] ==> Reload.ConfirmedInv(c.reload, ReloadAfter(c, s, e))
  {
    hide Reload.Inv, Reload.ConfirmedInv, Reload.Legal, Body, QueueCan, Linked, AfterPublishing;
    PublishingKeepsConfirmed(c.reload, s.reload, Body(s.queue.worker.basis), e.seen);
  }

  /** No other step of the reload protocol can revive a config. */
  lemma OtherStepKeepsConfirmed(c: Context, s: State, e: Event)
    requires Legal(c) && Reload.Inv(c.reload, s.reload) && Confirmed(c, s) && ReloadCan(c, s, e) && Linked(c, s, e)
    requires !e.PublishConfig? && !e.QueueStep?
    ensures ReloadAfter(c, s, e).statuses != [] ==> Reload.ConfirmedInv(c.reload, ReloadAfter(c, s, e))
  {
    assert Reload.Enabled(c.reload, s.reload, Reload.OperatorRestart);
    hide Reload.Inv, Reload.ConfirmedInv, Reload.Next, Reload.Enabled, Reload.Legal;
    match e
    case RecordStatus(_) => ReloadRuns.StepKeepsConfirmed(c.reload, s.reload, Reload.WriteStatus);
    case RestartOperator => ReloadRuns.StepKeepsConfirmed(c.reload, s.reload, Reload.OperatorRestart);
    case PodStep(r) => ReloadRuns.StepKeepsConfirmed(c.reload, s.reload, r);
    case PassStep(r) => ReloadRuns.StepKeepsConfirmed(c.reload, s.reload, r);
    case GiveUp(r) => ReloadRuns.StepKeepsConfirmed(c.reload, s.reload, r);
  }

  lemma StepKeepsConfirmed(c: Context, s: State, e: Event)
    requires Legal(c) && Inv(c, s) && Confirmed(c, s) && Enabled(c, s, e) && !Revives(c, s, e)
    requires Inv(c, Next(c, s, e))
    ensures Confirmed(c, Next(c, s, e))
  {
    InvParts(c, s);
    InvParts(c, Next(c, s, e));
    hide Inv, Reload.Inv, Reload.ConfirmedInv, Reload.Legal, QueueCan, ReloadCan, Linked, QueueAfter, Revives,
      QueueProof.Inv;
    if e.PublishConfig? {
      PublishStepKeepsConfirmed(c, s, e);
    } else if !e.QueueStep? {
      OtherStepKeepsConfirmed(c, s, e);
    }
  }

  lemma {:induction false} RunKeepsConfirmed(c: Context, s: State, run: seq<Event>)
    requires Legal(c) && Starting(c, s) && Valid(c, s, run) && NeverRevives(c, s, run)
    ensures Inv(c, After(c, s, run)) && Confirmed(c, After(c, s, run))
  {
    RunKeepsInv(c, s, run);
    if run == [] {
      hide Inv;
    } else {
      hide Inv, Enabled, Legal, Starting, Revives, Confirmed, Next;
      RunKeepsInv(c, s, run[..|run| - 1]);
      RunKeepsConfirmed(c, s, run[..|run| - 1]);
      StepKeepsConfirmed(c, After(c, s, run[..|run| - 1]), run[|run| - 1]);
    }
  }

  lemma StartKeepsHash(c: Context, s: State)
    requires Starting(c, s)
    ensures SameHash(c, s)
  {}

  lemma {:induction false} RunKeepsHash(c: Context, s: State, run: seq<Event>)
    requires Starting(c, s) && Valid(c, s, run)
    ensures SameHash(c, After(c, s, run))
  {
    hide SameHash, Enabled, Starting, Next;
    if run == [] {
      StartKeepsHash(c, s);
    } else {
      RunKeepsHash(c, s, run[..|run| - 1]);
      StepKeepsHash(c, After(c, s, run[..|run| - 1]), run[|run| - 1]);
    }
  }

  // ---- a cluster at rest ----

  /** The pod has this file on disk, and its server, if it runs, has loaded it. */
  predicate Runs(pod: Reload.Pod, file: string)
  {
    pod.mounted == file && (pod.running ==> pod.loaded == file)
  }

  lemma RestFacts(c: Context, s: State)
    requires Inv(c, s) && Confirmed(c, s) && SameHash(c, s) && AtRest(s.queue, c.key) && Legal(c)
    ensures c.key in s.queue.basis && c.key in s.queue.configMaps
    ensures s.queue.configMaps[c.key] == Queue.Published(c.queue, s.queue.basis[c.key].out)
    ensures RecordedFor(s.queue, c.key) == c.queue.digest(Body(s.queue.basis[c.key]))
    ensures forall p <- s.reload.pods :: Runs(s.reload.pods[p], s.queue.configMaps[c.key])
  {
    assert s.reload.worker.Idle?;
    assert Reload.AllUpToDate(c.reload, s.reload);
    assert Reload.FileText(c.reload, Body(s.queue.basis[c.key])) == s.queue.configMaps[c.key];
    hide AtRest, QueueProof.Inv, Reload.Inv, ConfigBody, ConfigOf, FormatHashHeader, RecordedFor, Reload.Legal;
  }

  /**
   * At rest the recorded hash is that of the ConfigMap, every pod has the ConfigMap's text on disk, and every
   * running server has loaded it, as long as no config was published again while its hash was still recorded.
   */
  lemma RestIsRolledOut(c: Context, s: State, run: seq<Event>)
    requires Legal(c) && Starting(c, s) && Valid(c, s, run) && NeverRevives(c, s, run)
    requires AtRest(After(c, s, run).queue, c.key)
    ensures var t := After(c, s, run);
            && c.key in t.queue.basis && c.key in t.queue.configMaps
            && t.queue.configMaps[c.key] == Queue.Published(c.queue, t.queue.basis[c.key].out)
            && RecordedFor(t.queue, c.key) == c.queue.digest(Body(t.queue.basis[c.key]))
            && forall p <- t.reload.pods :: Runs(t.reload.pods[p], t.queue.configMaps[c.key])
  {
    hide Inv, Confirmed, SameHash, Legal, Starting, AtRest, Body, Queue.Published, RecordedFor, Runs;
    RunKeepsConfirmed(c, s, run);
    RunKeepsHash(c, s, run);
    RestFacts(c, After(c, s, run));
  }

  lemma RestIsFresh(c: Queue.Context, q: Queue.State, k: Key)
    requires QueueProof.Inv(c, q) && k in q.clusters && AtRest(q, k)
    ensures QueueProof.Fresh(c, q, k)
  {
    assert QueueProof.Covered(c, q, k);
    hide QueueProof.Due, QueueProof.UnderWay, QueueProof.Fresh, QueueProof.Inv;
    if QueueProof.UnderWay(c, q, k) {
      QueueWorker.WorkerIsElsewhere(c, q, k);
    }
  }

  lemma RestIsFreshInRun(c: Context, s: State, run: seq<Event>)
    requires Legal(c) && Starting(c, s) && Valid(c, s, run) && AtRest(After(c, s, run).queue, c.key)
    ensures QueueProof.Fresh(c.queue, After(c, s, run).queue, c.key)
    ensures DigestText(c.queue.digest(ConfigBody(ConfigOf(After(c, s, run).queue.basis[c.key].out))))
  {
    RunKeepsInv(c, s, run);
    var t := After(c, s, run);
    assert c.key in t.queue.basis && DigestText(c.queue.digest(Body(t.queue.basis[c.key])));
    hide AtRest, QueueProof.Fresh, DigestText, ConfigBody, ConfigOf;
    RestIsFresh(c.queue, t.queue, c.key);
  }

  /**
   * In every run of queue, worker, reload protocol and pods: while the cluster is at rest, its last pass dropped
   * nobody or was not silent, and no config was published again while its hash was still recorded, the file of
   * every pod is the ConfigMap, and what a running server makes of it is exactly what is declared now.
   */
  lemma ServersEnforceDeclarations(c: Context, s: State, run: seq<Event>, accounts: seq<Account>, users: seq<User>)
    requires Legal(c) && Starting(c, s) && Valid(c, s, run) && NeverRevives(c, s, run)
    requires AtRest(After(c, s, run).queue, c.key)
    requires c.key in After(c, s, run).queue.basis ==>
               c.key !in After(c, s, run).queue.silent || QueueProof.Whole(c.queue, After(c, s, run).queue.basis[c.key])
    requires Queue.ListsAccounts(After(c, s, run).queue, c.key, accounts)
    requires Queue.ListsUsers(After(c, s, run).queue, users)
    requires Enforcement.Printable(c.queue, accounts, users, After(c, s, run).queue.secrets)
    ensures var t := After(c, s, run);
            && c.key in t.queue.configMaps
            && (forall p <- t.reload.pods :: Runs(t.reload.pods[p], t.queue.configMaps[c.key]))
            && ReadConfig(t.queue.configMaps[c.key]).Some?
            && Enforcement.Exact(c.queue, accounts, users, t.queue.secrets, ReadConfig(t.queue.configMaps[c.key]).value)
  {
    hide Legal, Starting, AtRest, Body, RecordedFor, Runs, Valid, After, NeverRevives, Enforcement.Exact,
      Enforcement.Printable, ReadConfig, Queue.ListsAccounts, Queue.ListsUsers, QueueProof.Whole, Queue.Published,
      DigestText, ConfigBody, ConfigOf, Resolved;
    RestIsRolledOut(c, s, run);
    RestIsFreshInRun(c, s, run);
    var t := After(c, s, run);
    QueueTheorems.FreshExactly(c.queue, t.queue, c.key, accounts, users);
    QueueTheorems.ClusterNamesDistinct(t.queue, c.key, accounts);
    Enforcement.FileIsExact(c.queue, accounts, users, t.queue.secrets, t.queue.basis[c.key].out);
  }
}
