/**
 * The statuses a pass records are watched too: a changed one brings the cluster back to the queue, a failed
 * write does so after a while. When a pass is followed by nothing, and what that means for dropped users
 * and for conflicting system accounts.
 */
module Feedback {
  import opened Text
  import opened Sorting
  import opened Api
  import opened Rules
  import opened Secrets
  import opened ConfigText
  import opened Convert
  import opened Resolve
  import opened ResolveTheorems
  import opened ListingOrder
  import opened SystemAccount
  import opened Freshness
  import opened Statuses
  import opened Drops
  import opened FreshnessProof
  import opened FreshnessWorker
  import opened FreshnessTheorems

  // ---- the end of a pass ----

  /** The three steps from the lists read to the end of the pass. */
  ghost predicate CanPass(c: Context, s: State, e: Event, f: Event)
  {
    && s.worker.ReadUsers? && e.ReconcileUsers? && f.Finish?
    && Enabled(c, s, e) && Enabled(c, Next(c, s, e), Publish)
    && Enabled(c, Next(c, Next(c, s, e), Publish), f)
  }

  ghost function AfterPass(c: Context, s: State, e: Event, f: Event): State
    requires CanPass(c, s, e, f)
  {
    Next(c, Next(c, Next(c, s, e), Publish), f)
  }

  function Summary(k: Key, f: Event): Attempt
    requires f.Finish?
  {
    Attempt(ThisCluster(k), ClusterStatusOf(f.summary))
  }

  /**
   * Every status the pass comes up with is recorded already and can be written, the ConfigMap has the text
   * already, and all pods are in sync.
   */
  ghost predicate NothingToWrite(s: State, attempts: seq<Attempt>, accepted: seq<bool>, rewritten: bool,
                                 summary: Attempt, inSync: bool)
  {
    && AllRecorded(s.statuses, attempts) && false !in accepted && !rewritten && Records(s.statuses, summary)
    && inSync
  }

  /** The ConfigMap does not hold what the pass publishes. */
  ghost predicate Rewrites(c: Context, s: State, e: Event)
    requires s.worker.ReadUsers? && e.ReconcileUsers?
  {
    !HoldsText(s, s.worker.key, Published(c, e.out))
  }

  ghost predicate PassWritesNothing(c: Context, s: State, e: Event, f: Event)
    requires CanPass(c, s, e, f)
  {
    NothingToWrite(s, Attempts(s.worker, e.env, e.links, e.out, e.secrets), e.accepted, Rewrites(c, s, e),
                   Summary(s.worker.key, f), f.inSync)
  }

  /** What a pass over cluster k leaves, in terms of what it tried to record and whether it wrote the ConfigMap. */
  ghost predicate PassLeaves(s: State, t: State, k: Key, attempts: seq<Attempt>, accepted: seq<bool>, rewritten: bool,
                             summary: Attempt, inSync: bool)
  {
    && |accepted| == |attempts|
    && var writes := Recorded(attempts, accepted);
       && t.accounts == s.accounts && t.worker == Idle
       && t.pending == s.pending + NotesOf(s, Changed(s.statuses, writes))
                       + (if rewritten then {ConfigMapChanged(k)} else {})
                       + NotesOf(s, Changed(AfterWrites(s.statuses, writes), [summary]))
       && t.queue == (if false in accepted || !inSync then s.queue + {k} else s.queue)
  }

  lemma SameNotes(s: State, t: State, objects: set<Object>)
    requires s.users == t.users && s.accounts == t.accounts && s.clusters == t.clusters
    ensures NotesOf(s, objects) == NotesOf(t, objects)
  {
    assert forall o <- objects :: Exists(s, o) == Exists(t, o) && (Exists(s, o) ==> NoteOf(s, o) == NoteOf(t, o));
  }

  /** The first of the three steps. */
  ghost predicate Recording(s: State, t: State, attempts: seq<Attempt>, accepted: seq<bool>,
                            out: seq<AccountWithUsers>)
  {
    && s.worker.ReadUsers? && |accepted| == |attempts|
    && var writes, w := Recorded(attempts, accepted), s.worker;
       t == s.(secrets := t.secrets, statuses := AfterWrites(s.statuses, writes),
               pending := s.pending + NotesOf(s, Changed(s.statuses, writes)), worker := t.worker)
       && t.worker.Prepared? && t.worker.key == w.key && t.worker.basis.out == out
       && t.worker.failed == (false in accepted)
  }

  lemma RecordingFacts(c: Context, s: State, e: Event)
    requires s.worker.ReadUsers? && e.ReconcileUsers? && Enabled(c, s, e)
    ensures Recording(s, Next(c, s, e), Attempts(s.worker, e.env, e.links, e.out, e.secrets), e.accepted, e.out)
    ensures Next(c, s, e).secrets == e.secrets
  {
    hide Attempts, Recorded, Changed, AfterWrites, PassAllowed, Resolved, NotesOf;
  }

  /** The other two. */
  lemma EndingFacts(c: Context, s: State, f: Event)
    requires s.worker.Prepared? && f.Finish? && Enabled(c, Next(c, s, Publish), f)
    ensures var t, w := Next(c, Next(c, s, Publish), f), s.worker;
            var text, summary := Published(c, w.basis.out), Summary(w.key, f);
            && t.accounts == s.accounts && t.worker == Idle && t.secrets == s.secrets
            && t.configMaps == s.configMaps[w.key := text]
            && t.pending == s.pending + (if HoldsText(s, w.key, text) then {} else {ConfigMapChanged(w.key)})
                            + NotesOf(s, Changed(s.statuses, [summary]))
            && t.queue == (if w.failed || !f.inSync then s.queue + {w.key} else s.queue)
  {
    hide Published, Changed, AfterWrites, NotesOf;
    SameNotes(s, Next(c, s, Publish), Changed(s.statuses, [Summary(s.worker.key, f)]));
  }

  lemma PassFacts(c: Context, s: State, e: Event, f: Event)
    requires CanPass(c, s, e, f)
    ensures PassLeaves(s, AfterPass(c, s, e, f), s.worker.key, Attempts(s.worker, e.env, e.links, e.out, e.secrets),
                       e.accepted, Rewrites(c, s, e), Summary(s.worker.key, f), f.inSync)
    ensures AfterPass(c, s, e, f).secrets == e.secrets
    ensures AfterPass(c, s, e, f).configMaps == s.configMaps[s.worker.key := Published(c, e.out)]
  {
    hide Attempts, Recorded, Changed, AfterWrites, Published, Enabled, Next, NotesOf;
    RecordingFacts(c, s, e);
    EndingFacts(c, Next(c, s, e), f);
    SameNotes(s, Next(c, s, e), Changed(Next(c, s, e).statuses, [Summary(s.worker.key, f)]));
  }

  lemma SubjectIsNoCluster(o: Object, accounts: seq<Account>, users: seq<User>)
    requires IsSubject(o, accounts, users)
    ensures !o.ThisCluster?
  {}

  lemma SameNotDue(s: State, t: State, k: Key)
    requires t.accounts == s.accounts && t.pending == s.pending && t.queue == s.queue
    ensures Due(t, k) == Due(s, k)
  {
    assert forall note <- s.pending :: Targets(s, note, k) == Targets(t, note, k);
  }

  lemma QuietIfNotWritten(s: State, t: State, k: Key, attempts: seq<Attempt>, accepted: seq<bool>,
                          rewritten: bool, summary: Attempt, inSync: bool)
    requires PassLeaves(s, t, k, attempts, accepted, rewritten, summary, inSync)
    requires NothingToWrite(s, attempts, accepted, rewritten, summary, inSync)
    ensures t.pending == s.pending && t.queue == s.queue && Due(t, k) == Due(s, k)
  {
    hide Due, Changed, Recorded, AfterWrites, AllRecorded;
    AllAccepted(attempts, accepted);
    UnchangedExactly(s.statuses, attempts);
    ChangedSummary(s.statuses, summary);
    assert NotesOf(s, {}) == {};
    SameNotDue(s, t, k);
  }

  lemma DueIfWritten(s: State, t: State, k: Key, attempts: seq<Attempt>, accepted: seq<bool>, rewritten: bool,
                     summary: Attempt, inSync: bool, accounts: seq<Account>, users: seq<User>)
    requires PassLeaves(s, t, k, attempts, accepted, rewritten, summary, inSync)
    requires !NothingToWrite(s, attempts, accepted, rewritten, summary, inSync)
    requires WellKeyed(s) && k in s.clusters && summary.target == ThisCluster(k)
    requires AccountsAgree(s, k, accounts) && UsersAgree(s, accounts, users)
    requires forall x <- attempts :: IsSubject(x.target, accounts, users)
    ensures Due(t, k)
  {
    var writes := Recorded(attempts, accepted);
    hide AccountsAgree, UsersAgree, WellKeyed, IsSubject, Recorded, Changed, AfterWrites, AllRecorded, Records;
    forall x | x in writes ensures IsSubject(x.target, accounts, users) && x.target != ThisCluster(k) {
      WrittenAreAccepted(attempts, accepted, x);
      SubjectIsNoCluster(x.target, accounts, users);
    }
    if false in accepted || !inSync {
      assert k in t.queue;
    } else if !AllRecorded(s.statuses, attempts) {
      AllAccepted(attempts, accepted);
      UnchangedExactly(s.statuses, attempts);
      ChangedIsReported(s, k, writes, accounts, users, t);
    } else if rewritten {
      RewriteIsReported(t, k);
    } else {
      OtherStatusStays(s.statuses, writes, summary);
      ChangedSummary(AfterWrites(s.statuses, writes), summary);
      assert NoteOf(s, ThisCluster(k)) in NotesOf(s, {ThisCluster(k)});
      assert ClusterChanged(k) in t.pending && Targets(t, ClusterChanged(k), k);
    }
  }

  lemma PassDueIfWritten(c: Context, s: State, e: Event, f: Event)
    requires CanPass(c, s, e, f) && WellKeyed(s) && s.worker.key in s.clusters
    requires AccountsAgree(s, s.worker.key, s.worker.accounts) && UsersAgree(s, s.worker.accounts, s.worker.users)
    requires !PassWritesNothing(c, s, e, f)
    ensures Due(AfterPass(c, s, e, f), s.worker.key)
  {
    PassFacts(c, s, e, f);
    hide AfterPass, Enabled, Next, Due, AccountsAgree, UsersAgree, WellKeyed, Attempts, NothingToWrite, PassLeaves,
      IsSubject;
    var attempts := Attempts(s.worker, e.env, e.links, e.out, e.secrets);
    forall x | x in attempts ensures IsSubject(x.target, s.worker.accounts, s.worker.users) {
      AttemptTargets(s.worker, e.env, e.links, e.out, e.secrets, x);
    }
    DueIfWritten(s, AfterPass(c, s, e, f), s.worker.key, attempts, e.accepted, Rewrites(c, s, e),
                 Summary(s.worker.key, f), f.inSync, s.worker.accounts, s.worker.users);
  }

  /**
   * A pass that has read what is there leaves its cluster not due exactly when every status it comes up with
   * was recorded before, the ConfigMap had its text before, no write failed and all pods were in sync.
   */
  lemma PassEndsQuietExactly(c: Context, s: State, e: Event, f: Event)
    requires CanPass(c, s, e, f) && WellKeyed(s) && s.worker.key in s.clusters && !Due(s, s.worker.key)
    requires AccountsAgree(s, s.worker.key, s.worker.accounts) && UsersAgree(s, s.worker.accounts, s.worker.users)
    ensures !Due(AfterPass(c, s, e, f), s.worker.key) <==> PassWritesNothing(c, s, e, f)
  {
    PassFacts(c, s, e, f);
    hide AfterPass, Enabled, Next, Due, AccountsAgree, UsersAgree, WellKeyed, Attempts, NothingToWrite, PassLeaves;
    if PassWritesNothing(c, s, e, f) {
      QuietIfNotWritten(s, AfterPass(c, s, e, f), s.worker.key, Attempts(s.worker, e.env, e.links, e.out, e.secrets),
                        e.accepted, Rewrites(c, s, e), Summary(s.worker.key, f), f.inSync);
    } else {
      PassDueIfWritten(c, s, e, f);
    }
  }

  // ---- dropped users ----

  /**
   * A pass that drops a user publishes what is not declared. Nothing follows it exactly when it found every
   * status recorded and the ConfigMap written already, as the second of two passes that drop the same users does.
   */
  lemma DropIsFinalExactly(c: Context, s: State, e: Event, f: Event)
    requires CanPass(c, s, e, f) && WellKeyed(s) && s.worker.key in s.clusters && !Due(s, s.worker.key)
    requires AccountsAgree(s, s.worker.key, s.worker.accounts) && UsersAgree(s, s.worker.accounts, s.worker.users)
    requires !MissesNobody(e.env, Truth(c), s.worker.accounts, s.worker.users)
    ensures var t := AfterPass(c, s, e, f);
            && t.configMaps == s.configMaps[s.worker.key := Published(c, e.out)]
            && !Resolved(Truth(c), s.worker.accounts, s.worker.users, t.secrets, e.out)
            && (!Due(t, s.worker.key) <==> PassWritesNothing(c, s, e, f))
  {
    assert Restricts(e.env, Truth(c)) && Resolved(e.env, s.worker.accounts, s.worker.users, e.secrets, e.out);
    PassEndsQuietExactly(c, s, e, f);
    PassFacts(c, s, e, f);
    hide CanPass, AfterPass, PassWritesNothing, Due, AccountsAgree, UsersAgree, WellKeyed, Resolved, MissesNobody,
      Restricts, Truth, Published;
    RightExactlyIfNobodyMissed(e.env, Truth(c), s.worker.accounts, s.worker.users, e.secrets, e.out);
  }

  /** A user dropped for the first time, or for a new reason, brings its cluster back. */
  lemma FirstDropIsRetried(c: Context, s: State, e: Event, f: Event, u: User, a: Account, text: string)
    requires CanPass(c, s, e, f) && WellKeyed(s) && s.worker.key in s.clusters
    requires AccountsAgree(s, s.worker.key, s.worker.accounts) && UsersAgree(s, s.worker.accounts, s.worker.users)
    requires u in s.worker.users && Home(e.env, s.worker.accounts, u) == Some(a) && Judge(e.env, a, u) == Failed(text)
    requires LiveUserOf(s.statuses, u).status.ready != Some(NamespaceFetchError(u.generation, u.namespace, text))
    ensures Due(AfterPass(c, s, e, f), s.worker.key)
  {
    var w, site := s.worker, SiteOf(s.worker.accounts, e.links);
    HomeIsListed(e.env, w.accounts, u);
    UserIsAttempted(e.env, w.accounts, site, w.users, w.seenUsers, e.secrets, u);
    var x := Attempt(ThisUser(UserKey(u)),
                     UserStatusOf(Settled(e.env, a, site, e.secrets, LiveUserOf(w.seenUsers, u)).status));
    assert x in Attempts(w, e.env, e.links, e.out, e.secrets);
    assert !Records(s.statuses, x);
    hide AfterPass, Enabled, Next, Attempts, Due, AccountsAgree, UsersAgree, WellKeyed, Records;
    assert !PassWritesNothing(c, s, e, f);
    PassDueIfWritten(c, s, e, f);
  }

  // ---- conflicting system accounts ----

  /** An account in a conflict has two conditions recorded in every pass, first ready and then not. */
  lemma ConflictHasTwoStatuses(w: Worker, env: World, links: Links, out: seq<AccountWithUsers>,
                               secrets: map<Key, Stored>, statuses: map<Object, Status>)
    requires w.ReadUsers? && Resolved(env, w.accounts, w.users, secrets, out) && |FlaggedNames(out)| >= 2
    ensures !AllRecorded(statuses, Attempts(w, env, links, out, secrets))
  {
    var conflicts := ConflictNames(out);
    SortBySorts(FlaggedNames(out), Self);
    var n := FlaggedNames(out)[0];
    assert n in multiset(FlaggedNames(out)) && n in conflicts;
    assert |out| == |Kept(env, w.accounts)| && forall i :: 0 <= i < |out| ==>
           out[i].account == Kept(env, w.accounts)[i];
    FlaggedOfOutput(Kept(env, w.accounts), out);
    FlaggedExactly(Kept(env, w.accounts), n);
    var a :| a in Kept(env, w.accounts) && a.systemAccount && a.name == n;
    KeptAreListed(env, w.accounts, a);
    var x := FinalAttempt(env, links, w.users, w.seenAccounts, conflicts, a);
    ConflictAttemptsAre(env, links, w.accounts, w.users, w.seenAccounts, conflicts, x);
    SpecStays(env, links, w.users, w.seenAccounts, a);
    var i :| 0 <= i < |w.accounts| && w.accounts[i] == a;
    var y := AccountAttempts(env, links, w.accounts, w.users, w.seenAccounts)[i];
    assert y in AccountAttempts(env, links, w.accounts, w.users, w.seenAccounts);
    var attempts := Attempts(w, env, links, out, secrets);
    assert x in attempts && y in attempts;
    assert y.target == x.target && y.status.account.ready == Some(Reconciled(a.generation));
    hide Attempts, Resolved, Kept, RegexesValid;
  }

  /** As long as two flagged accounts reach the converter, every pass of the cluster is followed by another. */
  lemma ConflictNeverSettles(c: Context, s: State, e: Event, f: Event)
    requires CanPass(c, s, e, f) && WellKeyed(s) && s.worker.key in s.clusters
    requires AccountsAgree(s, s.worker.key, s.worker.accounts) && UsersAgree(s, s.worker.accounts, s.worker.users)
    requires |FlaggedNames(e.out)| >= 2
    ensures Due(AfterPass(c, s, e, f), s.worker.key)
  {
    assert Resolved(e.env, s.worker.accounts, s.worker.users, e.secrets, e.out);
    hide AfterPass, Enabled, Next, Attempts, Due, AccountsAgree, UsersAgree, WellKeyed, Resolved, FlaggedNames,
      AllRecorded;
    ConflictHasTwoStatuses(s.worker, e.env, e.links, e.out, e.secrets, s.statuses);
    PassDueIfWritten(c, s, e, f);
  }
}
