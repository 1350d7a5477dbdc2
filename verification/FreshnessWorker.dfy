/** The worker's steps keep the invariant of the queue. */
module FreshnessWorker {
  import opened Text
  import opened Sorting
  import opened Api
  import opened Rules
  import opened Secrets
  import opened ConfigText
  import opened Convert
  import opened Resolve
  import opened ResolveTheorems
  import opened ListingOrder
  import opened Freshness
  import opened FreshnessProof

  lemma SameDue(s: State, t: State, k: Key)
    requires s.accounts == t.accounts && s.pending <= t.pending
    requires k in s.queue ==> k in t.queue
    requires Due(s, k)
    ensures Due(t, k)
  {
    if k !in s.queue {
      var note :| note in s.pending && Targets(s, note, k);
      assert note in t.pending && Targets(t, note, k);
    }
  }

  lemma WorkerIsElsewhere(c: Context, s: State, k: Key)
    requires UnderWay(c, s, k)
    ensures !s.worker.Idle? && s.worker.key == k
  {
    hide Current, PublishedFrom, AccountsAgree, UsersAgree;
  }

  /** Nothing recorded about the cluster's ConfigMap gets worse. */
  ghost predicate SameHistory(s: State, t: State, k: Key)
  {
    && ContentOf(s.configMaps, k) == ContentOf(t.configMaps, k)
    && (k in s.basis ==> k in t.basis && t.basis[k] == s.basis[k])
    && (k in s.silent ==> k in t.silent)
  }

  lemma FreshStays(c: Context, s: State, t: State, k: Key)
    requires s.accounts == t.accounts && s.users == t.users && s.secrets == t.secrets && SameHistory(s, t, k)
    requires Fresh(c, s, k)
    ensures Fresh(c, t, k)
  {
    SameCurrent(s, t, k, s.basis[k]);
    hide Current, Published, Whole, Restricts;
  }

  /** A step of the worker on one cluster leaves the others covered. */
  lemma OtherStaysCovered(c: Context, s: State, t: State, k: Key)
    requires s.accounts == t.accounts && s.users == t.users && s.secrets == t.secrets && s.pending <= t.pending
    requires (k in s.queue ==> k in t.queue) && SameHistory(s, t, k)
    requires s.worker.Idle? || s.worker.key != k
    requires Covered(c, s, k)
    ensures Covered(c, t, k)
  {
    hide Due, UnderWay, Fresh, SameHistory;
    if Due(s, k) {
      SameDue(s, t, k);
    } else if UnderWay(c, s, k) {
      WorkerIsElsewhere(c, s, k);
    } else {
      FreshStays(c, s, t, k);
    }
  }

  lemma StartKeepsInv(c: Context, s: State, e: Event)
    requires e.Start? && Enabled(c, s, e) && Inv(c, s)
    ensures Inv(c, Next(c, s, e))
  {
    var t := Next(c, s, e);
    assert t == s.(queue := t.queue, worker := t.worker) && s.worker == Idle;
    assert e.key in s.clusters ==> t.worker == Found(e.key);
    assert t.worker.Idle? || t.worker.Found?;
    assert forall k :: k != e.key && k in s.queue ==> k in t.queue;
    hide Next, Enabled, Due, Fresh;
    forall k | k in t.clusters && k != e.key ensures Covered(c, t, k) {
      OtherStaysCovered(c, s, t, k);
    }
  }

  lemma SameApart(s: State, t: State, w: Key, accounts: seq<Account>)
    requires t == s.(worker := t.worker) && AccountsApart(s, w, accounts)
    ensures AccountsApart(t, w, accounts)
  {
    forall k | Due(s, k) ensures Due(t, k) {
      SameDue(s, t, k);
    }
    SameObjects(s, t);
    hide Due, Belongs;
  }

  lemma ReadAccountsAreSound(s: State, w: Key, listed: seq<Account>)
    requires ListsAccounts(s, w, listed)
    ensures AccountsAgree(s, w, listed) && AccountsApart(s, w, listed)
  {
    forall a, k | a in listed && k != w ensures !Belongs(s, a, k) {}
  }

  lemma ListAccountsKeepsInv(c: Context, s: State, e: Event)
    requires e.ListAccounts? && Enabled(c, s, e) && Inv(c, s)
    ensures Inv(c, Next(c, s, e))
  {
    var t, w := Next(c, s, e), s.worker.key;
    assert t == s.(worker := ReadAccounts(w, e.listed, s.statuses)) && s.worker == Found(w);
    assert ListsAccounts(s, w, e.listed);
    hide Next, Enabled, Due, Fresh;
    ReadAccountsAreSound(s, w, e.listed);
    SameReading(s, t, w, e.listed, []);
    hide AccountsAgree, ListsAccounts, AccountsApart;
    assert UnderWay(c, t, w);
    SameApart(s, t, w, e.listed);
    forall k | k in t.clusters && k != w ensures Covered(c, t, k) {
      OtherStaysCovered(c, s, t, k);
    }
  }

  /** All users were read, so those naming the accounts read are the current ones. */
  lemma AllUsersAgree(s: State, accounts: seq<Account>, listed: seq<User>)
    requires ListsUsers(s, listed)
    ensures UsersAgree(s, accounts, listed)
  {}

  lemma ReadUserIsApart(s: State, w: Key, accounts: seq<Account>, listed: seq<User>, u: User, k: Key)
    requires ListsUsers(s, listed) && AccountsApart(s, w, accounts)
    requires u in listed && RefersTo(u, accounts) && UserBelongs(s, u, k) && k in s.clusters && k != w
    ensures Due(s, k)
  {
    var a :| a in accounts && References(u, a);
    assert Belongs(s, a, k);
    hide Due;
  }

  lemma ReadUsersAreApart(s: State, t: State, w: Key, accounts: seq<Account>, listed: seq<User>)
    requires ListsUsers(s, listed) && AccountsApart(s, w, accounts) && t == s.(worker := t.worker)
    ensures UsersApart(t, w, accounts, listed)
  {
    hide Due, RefersTo, ListsUsers, AccountsApart;
    forall u, k | u in listed && k in t.clusters && k != w && RefersTo(u, accounts) && UserBelongs(t, u, k)
      ensures Due(t, k)
    {
      ReadUserIsApart(s, w, accounts, listed, u, k);
      SameDue(s, t, k);
    }
  }

  lemma SameKeys(s: State, t: State)
    requires s.accounts == t.accounts && s.users == t.users
    ensures WellKeyed(s) == WellKeyed(t)
  {}

  lemma ListUsersKeepsInv(c: Context, s: State, e: Event)
    requires e.ListUsers? && Enabled(c, s, e) && Inv(c, s)
    ensures Inv(c, Next(c, s, e))
  {
    var t, w, accounts := Next(c, s, e), s.worker.key, s.worker.accounts;
    hide Due, Fresh, ListsUsers, AccountsApart, UsersApart, AccountsAgree, UsersAgree, WellKeyed, Current,
      PublishedFrom;
    assert t == s.(worker := ReadUsers(w, accounts, s.worker.seenAccounts, e.users, s.statuses))
           && s.worker.ReadAccounts?;
    assert ListsUsers(s, e.users) && AccountsApart(s, w, accounts);
    hide Next, Enabled;
    SameKeys(s, t);
    AllUsersAgree(s, accounts, e.users);
    SameReading(s, t, w, accounts, e.users);
    ReadUsersAreApart(s, t, w, accounts, e.users);
    if Due(s, w) {
      SameDue(s, t, w);
    }
    forall k | k in t.clusters && k != w ensures Covered(c, t, k) {
      OtherStaysCovered(c, s, t, k);
    }
  }

  // ---- secrets ----

  lemma ResolvedIsLocal(env: World, accounts: seq<Account>, users: seq<User>, before: map<Key, Stored>,
                        after: map<Key, Stored>, out: seq<AccountWithUsers>)
    requires Resolved(env, accounts, users, before, out)
    requires forall u :: u in users && RefersTo(u, accounts) ==> SameSecret(before, after, u)
    ensures Resolved(env, accounts, users, after, out)
  {
    hide SameSecret, WithKeys, AdmittedUsers, Kept, References, Judge;
    forall k | 0 <= k < |out| ensures IsListing(env, out[k].account, users, after, out[k].users) {
      var a := out[k].account;
      KeptAreListed(env, accounts, a);
      forall t | 0 <= t < |users| && Admits(env, a, users[t]) ensures SameSecret(before, after, users[t]) {
        assert RefersTo(users[t], accounts);
      }
      WithKeysAreLocal(env, a, users, before, after);
    }
  }

  /** A pass over one cluster leaves the Secrets of another cluster's users alone. */
  lemma OthersUntouched(env: World, s: State, w: Key, accounts: seq<Account>, users: seq<User>,
                        secrets: map<Key, Stored>, k: Key, b: Basis, v: User)
    requires WellKeyed(s) && UsersApart(s, w, accounts, users)
    requires OnlyWelcomedTouched(env, accounts, users, s.secrets, secrets)
    requires k in s.clusters && k != w && !Due(s, k)
    requires AccountsAgree(s, k, b.accounts) && UsersAgree(s, b.accounts, b.users)
    requires v in b.users && RefersTo(v, b.accounts)
    ensures SameSecret(s.secrets, secrets, v)
  {
    RefersIffClusterOf(s, k, b.accounts, v);
    assert UserBelongs(s, v, k);
    forall u | u in users && Welcomed(env, accounts, u) ensures SecretKey(u) != SecretKey(v) {
      SecretKeysDiffer(u, v);
      HomeIsListed(env, accounts, u);
      assert RefersTo(u, accounts);
      assert !UserBelongs(s, u, k);
    }
    hide Home, Judge, RegexesValid, SecretName, References, Due, Lookup;
  }

  lemma SecretsKeepFresh(c: Context, env: World, s: State, t: State, k: Key)
    requires s.worker.ReadUsers? && WellKeyed(s) && UsersApart(s, s.worker.key, s.worker.accounts, s.worker.users)
    requires OnlyWelcomedTouched(env, s.worker.accounts, s.worker.users, s.secrets, t.secrets)
    requires s.accounts == t.accounts && s.users == t.users && SameHistory(s, t, k)
    requires k in s.clusters && k != s.worker.key && !Due(s, k) && Fresh(c, s, k)
    ensures Fresh(c, t, k)
  {
    var b := s.basis[k];
    SameReading(s, t, k, b.accounts, b.users);
    hide AccountsAgree, UsersAgree, Resolved, Published, SameSecret, Due, UsersApart, OnlyWelcomedTouched, RefersTo,
      Restricts, Whole;
    forall v | v in b.users && RefersTo(v, b.accounts) ensures SameSecret(s.secrets, t.secrets, v) {
      OthersUntouched(env, s, s.worker.key, s.worker.accounts, s.worker.users, t.secrets, k, b, v);
    }
    ResolvedIsLocal(b.env, b.accounts, b.users, s.secrets, t.secrets, b.out);
  }

  /** What a pass with new Secrets does to the clusters the worker is not busy with. */
  lemma OtherStaysCoveredInPass(c: Context, env: World, s: State, t: State, k: Key)
    requires s.worker.ReadUsers? && WellKeyed(s) && UsersApart(s, s.worker.key, s.worker.accounts, s.worker.users)
    requires OnlyWelcomedTouched(env, s.worker.accounts, s.worker.users, s.secrets, t.secrets)
    requires s.accounts == t.accounts && s.users == t.users && SameHistory(s, t, k)
    requires s.pending <= t.pending && (k in s.queue ==> k in t.queue)
    requires k in s.clusters && k != s.worker.key && Covered(c, s, k)
    ensures Covered(c, t, k)
  {
    hide Due, UnderWay, Fresh, SameHistory, WellKeyed, UsersApart, OnlyWelcomedTouched;
    if Due(s, k) {
      SameDue(s, t, k);
    } else if UnderWay(c, s, k) {
      WorkerIsElsewhere(c, s, k);
    } else {
      SecretsKeepFresh(c, env, s, t, k);
    }
  }

  // ---- recorded statuses ----

  lemma {:induction false} ChangedAreWritten(statuses: map<Object, Status>, writes: seq<Attempt>, o: Object)
    requires o in Changed(statuses, writes)
    ensures exists w <- writes :: w.target == o
  {
    var front, last := writes[..|writes| - 1], writes[|writes| - 1];
    assert last in writes;
    if o in Changed(statuses, front) {
      ChangedAreWritten(statuses, front, o);
    }
    hide AfterWrites;
  }

  lemma {:induction false} WrittenAreAccepted(attempts: seq<Attempt>, accepted: seq<bool>, w: Attempt)
    requires |accepted| == |attempts| && w in Recorded(attempts, accepted)
    ensures exists i :: 0 <= i < |attempts| && accepted[i] && attempts[i] == w
  {
    var n := |attempts| - 1;
    if w in Recorded(attempts[..n], accepted[..n]) {
      WrittenAreAccepted(attempts[..n], accepted[..n], w);
      var i :| 0 <= i < n && accepted[..n][i] && attempts[..n][i] == w;
      assert accepted[i] && attempts[i] == w;
    }
  }

  /** The object is a user of a processed account the pass has read, or an account it has read. */
  ghost predicate IsSubject(o: Object, accounts: seq<Account>, users: seq<User>)
  {
    || (exists u <- users :: RefersTo(u, accounts) && o == ThisUser(UserKey(u)))
    || (exists a <- accounts :: o == ThisAccount(AccountKey(a)))
  }

  lemma {:induction false} UserAttemptsTargets(env: World, accounts: seq<Account>, site: Site, users: seq<User>,
                                               seen: map<Object, Status>, secrets: map<Key, Stored>, x: Attempt)
    requires x in UserAttempts(env, accounts, site, users, seen, secrets)
    ensures IsSubject(x.target, accounts, users)
  {
    var front, u := users[..|users| - 1], users[|users| - 1];
    assert u in users;
    hide Settled, LiveUserOf;
    if Home(env, accounts, u).Some? {
      HomeIsListed(env, accounts, u);
      assert RefersTo(u, accounts);
    }
    if x in UserAttempts(env, accounts, site, front, seen, secrets) {
      UserAttemptsTargets(env, accounts, site, front, seen, secrets, x);
    }
    hide Home, RegexesValid, References;
  }

  lemma {:induction false} ConflictAttemptsTargets(env: World, links: Links, accounts: seq<Account>, users: seq<User>,
                                                   seen: map<Object, Status>, conflicts: seq<string>, x: Attempt)
    requires x in ConflictAttempts(env, links, accounts, users, seen, conflicts)
    ensures exists a <- accounts :: x.target == ThisAccount(AccountKey(a))
  {
    var front, a := accounts[..|accounts| - 1], accounts[|accounts| - 1];
    assert a in accounts;
    hide AccountStatusAfter;
    if x in ConflictAttempts(env, links, front, users, seen, conflicts) {
      ConflictAttemptsTargets(env, links, front, users, seen, conflicts, x);
      var b :| b in front && x.target == ThisAccount(AccountKey(b));
      assert b in accounts;
    }
  }

  lemma AttemptTargets(w: Worker, env: World, links: Links, out: seq<AccountWithUsers>, secrets: map<Key, Stored>,
                       x: Attempt)
    requires w.ReadUsers? && x in Attempts(w, env, links, out, secrets)
    ensures IsSubject(x.target, w.accounts, w.users)
  {
    var site, conflicts := SiteOf(w.accounts, links), ConflictNames(out);
    if x in UserAttempts(env, w.accounts, site, w.users, w.seenUsers, secrets) {
      UserAttemptsTargets(env, w.accounts, site, w.users, w.seenUsers, secrets, x);
    } else if x in ConflictAttempts(env, links, w.accounts, w.users, w.seenAccounts, conflicts) {
      ConflictAttemptsTargets(env, links, w.accounts, w.users, w.seenAccounts, conflicts, x);
    } else {
      var i :| 0 <= i < |w.accounts|
               && AccountAttempts(env, links, w.accounts, w.users, w.seenAccounts)[i] == x;
      assert w.accounts[i] in w.accounts;
    }
    hide UserAttempts, ConflictAttempts, AccountStatusAfter, RefersTo;
  }

  /** While what was read still holds, a changed subject's notification leads back to the cluster. */
  lemma SubjectIsReported(s: State, k: Key, accounts: seq<Account>, users: seq<User>, o: Object)
    requires WellKeyed(s) && AccountsAgree(s, k, accounts) && UsersAgree(s, accounts, users)
             && IsSubject(o, accounts, users)
    ensures Exists(s, o) && Targets(s, NoteOf(s, o), k)
  {
    if u :| u in users && RefersTo(u, accounts) && o == ThisUser(UserKey(u)) {
      RefersIffClusterOf(s, k, accounts, u);
    } else {
      var a :| a in accounts && o == ThisAccount(AccountKey(a));
    }
    hide RefersTo;
  }

  lemma ChangedIsReported(s: State, k: Key, writes: seq<Attempt>, accounts: seq<Account>, users: seq<User>, t: State)
    requires WellKeyed(s) && AccountsAgree(s, k, accounts) && UsersAgree(s, accounts, users)
    requires forall w <- writes :: IsSubject(w.target, accounts, users)
    requires Changed(s.statuses, writes) != {} && t.accounts == s.accounts
    requires NotesOf(s, Changed(s.statuses, writes)) <= t.pending
    ensures Due(t, k)
  {
    var o :| o in Changed(s.statuses, writes);
    ChangedAreWritten(s.statuses, writes, o);
    SubjectIsReported(s, k, accounts, users, o);
    assert NoteOf(s, o) in NotesOf(s, Changed(s.statuses, writes));
    assert Targets(t, NoteOf(s, o), k);
    hide Changed, AccountsAgree, UsersAgree, IsSubject;
  }

  // ---- the pass ----

  /** t is s after its worker has resolved accounts and users and recorded what it could. */
  ghost predicate Reconciles(s: State, t: State, env: World, writes: seq<Attempt>, failed: bool,
                             out: seq<AccountWithUsers>)
  {
    && s.worker.ReadUsers?
    && t == AfterRecording(s, writes).(
              secrets := t.secrets,
              worker := Prepared(s.worker.key, Basis(env, s.worker.accounts, s.worker.users, out), failed,
                                 Changed(s.statuses, writes) != {}))
  }

  lemma ReconcilingIsSound(c: Context, s: State, t: State, env: World, writes: seq<Attempt>, failed: bool,
                           out: seq<AccountWithUsers>)
    requires Reconciles(s, t, env, writes, failed, out) && WorkerSound(c, s) && WellKeyed(s)
    requires Resolved(env, s.worker.accounts, s.worker.users, t.secrets, out)
    requires forall w <- writes :: IsSubject(w.target, s.worker.accounts, s.worker.users)
    ensures WorkerSound(c, t)
  {
    var w, b := s.worker.key, t.worker.basis;
    assert t.accounts == s.accounts && t.users == s.users && s.pending <= t.pending && t.queue == s.queue;
    hide Due, AccountsAgree, UsersAgree, Resolved, IsSubject, Changed, AfterWrites, WellKeyed;
    SameReading(s, t, w, b.accounts, b.users);
    if Due(s, w) {
      SameDue(s, t, w);
    } else if w in s.clusters && t.worker.changed {
      ChangedIsReported(s, w, writes, b.accounts, b.users, t);
    }
  }

  lemma ReconcilingKeepsInv(c: Context, s: State, t: State, env: World, writes: seq<Attempt>, failed: bool,
                            out: seq<AccountWithUsers>)
    requires Reconciles(s, t, env, writes, failed, out) && Inv(c, s) && Restricts(env, Truth(c))
    requires OnlyWelcomedTouched(env, s.worker.accounts, s.worker.users, s.secrets, t.secrets)
    requires Resolved(env, s.worker.accounts, s.worker.users, t.secrets, out)
    requires forall w <- writes :: IsSubject(w.target, s.worker.accounts, s.worker.users)
    ensures Inv(c, t)
  {
    assert Apart(c, t) && WellKeyed(t);
    ReconcilingIsSound(c, s, t, env, writes, failed, out);
    assert s.worker.ReadUsers? && s.worker.key == t.worker.key;
    assert t.accounts == s.accounts && t.users == s.users && t.clusters == s.clusters && s.pending <= t.pending;
    assert t.queue == s.queue && t.basis == s.basis && t.configMaps == s.configMaps && t.silent == s.silent;
    hide Due, Fresh, UsersApart, OnlyWelcomedTouched, Resolved, Reconciles, WellKeyed, Restricts, IsSubject;
    forall k | k in t.clusters && k != s.worker.key ensures Covered(c, t, k) {
      OtherStaysCoveredInPass(c, env, s, t, k);
    }
  }

  lemma ReconcileKeepsInv(c: Context, s: State, e: Event)
    requires e.ReconcileUsers? && Enabled(c, s, e) && Inv(c, s)
    ensures Inv(c, Next(c, s, e))
  {
    var attempts := Attempts(s.worker, e.env, e.links, e.out, e.secrets);
    hide Inv, Attempts, Resolved, OnlyWelcomedTouched, Restricts, Changed, AfterWrites, Recorded, IsSubject;
    var writes := Recorded(attempts, e.accepted);
    forall x | x in writes ensures IsSubject(x.target, s.worker.accounts, s.worker.users) {
      WrittenAreAccepted(attempts, e.accepted, x);
      AttemptTargets(s.worker, e.env, e.links, e.out, e.secrets, x);
    }
    ReconcilingKeepsInv(c, s, Next(c, s, e), e.env, writes, false in e.accepted, e.out);
  }

  lemma ReconcileFailsKeepsInv(c: Context, s: State, e: Event)
    requires e.ReconcileFails? && Enabled(c, s, e) && Inv(c, s)
    ensures Inv(c, Next(c, s, e))
  {
    hide Fresh, UnderWay, UsersApart, OnlyWelcomedTouched, WellKeyed, Restricts, PublishedFrom;
    var t, w := Next(c, s, e), s.worker.key;
    assert t == s.(secrets := e.secrets, queue := s.queue + {w}, worker := Idle) && s.worker.ReadUsers?;
    assert OnlyWelcomedTouched(e.env, s.worker.accounts, s.worker.users, s.secrets, t.secrets);
    assert Due(t, w);
    hide Next, Enabled, Due;
    SameKeys(s, t);
    forall k | k in t.clusters && k != w ensures Covered(c, t, k) {
      OtherStaysCoveredInPass(c, e.env, s, t, k);
    }
  }

  // ---- publishing and finishing ----

  lemma PublishingFacts(c: Context, s: State)
    requires s.worker.Prepared?
    ensures var t, w := AfterPublish(c, s), s.worker;
            && t == s.(configMaps := t.configMaps, basis := t.basis, pending := t.pending, worker := t.worker)
            && s.pending <= t.pending && t.worker == Finishing(w.key, w.basis, w.failed, t.worker.changed)
            && (t.worker.changed ==> w.changed || ConfigMapChanged(w.key) in t.pending)
            && (forall k :: k != w.key ==> SameHistory(s, t, k))
            && w.key in t.basis && t.basis[w.key] == w.basis
            && w.key in t.configMaps && t.configMaps[w.key] == Published(c, w.basis.out)
  {
    hide Published;
  }

  lemma RewriteIsReported(s: State, k: Key)
    ensures ConfigMapChanged(k) in s.pending ==> Due(s, k)
  {
    assert Targets(s, ConfigMapChanged(k), k);
  }

  lemma PublishingIsSound(c: Context, s: State)
    requires s.worker.Prepared? && WorkerSound(c, s)
    ensures WorkerSound(c, AfterPublish(c, s))
  {
    hide Due, Current, Published, AfterPublish;
    PublishingFacts(c, s);
    var t, w := AfterPublish(c, s), s.worker.key;
    SameCurrent(s, t, w, s.worker.basis);
    if Due(s, w) {
      SameDue(s, t, w);
    }
    RewriteIsReported(t, w);
  }

  lemma SoundIsCovered(c: Context, s: State)
    requires WorkerSound(c, s)
             && (s.worker.ReadAccounts? || s.worker.ReadUsers? || s.worker.Prepared? || s.worker.Finishing?)
    ensures s.worker.key in s.clusters ==> Covered(c, s, s.worker.key)
  {
    hide Due, UnderWay, Fresh;
  }

  lemma PublishingKeepsInv(c: Context, s: State)
    requires s.worker.Prepared? && Inv(c, s)
    ensures Inv(c, AfterPublish(c, s))
  {
    hide AfterPublish, Due, Fresh, UnderWay, Restricts, WellKeyed, SameHistory, WorkerSound, Covered, Published;
    PublishingFacts(c, s);
    PublishingIsSound(c, s);
    var t, w := AfterPublish(c, s), s.worker.key;
    SameKeys(s, t);
    assert Covered(c, t, w) || w !in t.clusters by {
      SoundIsCovered(c, t);
    }
    forall k | k in t.clusters && k != w ensures Covered(c, t, k) {
      OtherStaysCovered(c, s, t, k);
    }
  }

  /** The summary written last is reported when it changes, and then leads back to the cluster. */
  lemma SummaryIsReported(s: State, t: State, k: Key, summary: ClusterStatus)
    requires s.worker.Finishing? && s.worker.key == k && k in s.clusters && t.accounts == s.accounts
    requires !Records(s.statuses, Attempt(ThisCluster(k), ClusterStatusOf(summary)))
    requires NotesOf(s, Changed(s.statuses, [Attempt(ThisCluster(k), ClusterStatusOf(summary))])) <= t.pending
    ensures Due(t, k)
  {
    var write := Attempt(ThisCluster(k), ClusterStatusOf(summary));
    assert [write][..0] == [];
    assert ThisCluster(k) in Changed(s.statuses, [write]);
    assert NoteOf(s, ThisCluster(k)) in NotesOf(s, Changed(s.statuses, [write]));
    assert Targets(t, ClusterChanged(k), k);
  }

  lemma SilentIsFresh(c: Context, s: State, t: State)
    requires s.worker.Finishing? && UnderWay(c, s, s.worker.key) && Restricts(s.worker.basis.env, Truth(c))
    requires t == s.(statuses := t.statuses, pending := t.pending, queue := t.queue, silent := t.silent, worker := Idle)
    requires s.worker.key in t.silent
    ensures Fresh(c, t, s.worker.key)
  {
    SameCurrent(s, t, s.worker.key, s.worker.basis);
    hide Current, Published, Whole, Restricts;
  }

  lemma FinishingKeepsInv(c: Context, s: State, summary: ClusterStatus, inSync: bool)
    requires s.worker.Finishing? && s.worker.key in s.clusters && Inv(c, s)
    ensures Inv(c, AfterFinish(s, summary, inSync))
  {
    var t, w, b := AfterFinish(s, summary, inSync), s.worker.key, s.worker.basis;
    assert t == s.(statuses := t.statuses, pending := t.pending, queue := t.queue, silent := t.silent, worker := Idle);
    assert s.pending <= t.pending && s.queue <= t.queue;
    SameObjects(s, t);
    if Due(s, w) {
      SameDue(s, t, w);
    } else if s.worker.failed || !inSync {
      assert Due(t, w);
    } else if !Records(s.statuses, Attempt(ThisCluster(w), ClusterStatusOf(summary))) {
      SummaryIsReported(s, t, w, summary);
    } else {
      SilentIsFresh(c, s, t);
    }
    hide Due, Fresh, UnderWay, Restricts, Records, AfterRecording, WellKeyed;
    forall k | k in t.clusters && k != w ensures Covered(c, t, k) {
      OtherStaysCovered(c, s, t, k);
    }
  }

  lemma EndKeepsInv(c: Context, s: State, e: Event)
    requires e.Fail? || e.Restart?
    requires Enabled(c, s, e) && Inv(c, s)
    ensures Inv(c, Next(c, s, e))
  {
    hide Fresh, UnderWay, WellKeyed, PublishedFrom, Restricts, AccountsApart, UsersApart;
    var t := Next(c, s, e);
    assert e.Fail? ==> t == s.(queue := s.queue + {s.worker.key}, worker := Idle);
    assert e.Restart? ==> t == s.(pending := {}, queue := s.clusters, worker := Idle);
    forall k | k in t.queue ensures Due(t, k) {}
    hide Next, Enabled, Due;
    SameKeys(s, t);
    forall k | k in t.clusters ensures Covered(c, t, k) {
      if e.Fail? && k != s.worker.key {
        OtherStaysCovered(c, s, t, k);
      }
    }
  }

  // ---- all steps ----

  lemma AccountEditsKeepInv(c: Context, s: State, e: Event)
    requires e.SetAccount? || e.DropAccount?
    requires Enabled(c, s, e) && Inv(c, s)
    ensures Inv(c, Next(c, s, e))
  {
    assert WellKeyed(s);
    hide Inv, Enabled, Next, WellKeyed, AccountEdit;
    AccountEventIsEdit(c, s, e);
    AccountEditKeepsInv(c, s, Next(c, s, e));
  }

  lemma UserEditsKeepInv(c: Context, s: State, e: Event)
    requires e.SetUser? || e.DropUser?
    requires Enabled(c, s, e) && Inv(c, s)
    ensures Inv(c, Next(c, s, e))
  {
    assert WellKeyed(s);
    hide Inv, Enabled, Next, WellKeyed, UserEdit;
    UserEventIsEdit(c, s, e);
    UserEditKeepsInv(c, s, Next(c, s, e));
  }

  lemma PublishKeepsInv(c: Context, s: State, e: Event)
    requires e.Publish? && Enabled(c, s, e) && Inv(c, s)
    ensures Inv(c, Next(c, s, e))
  {
    hide Inv, AfterPublish;
    PublishingKeepsInv(c, s);
  }

  lemma FinishKeepsInv(c: Context, s: State, e: Event)
    requires e.Finish? && Enabled(c, s, e) && Inv(c, s)
    ensures Inv(c, Next(c, s, e))
  {
    hide Inv, AfterFinish;
    FinishingKeepsInv(c, s, e.summary, e.inSync);
  }

  lemma StepKeepsInv(c: Context, s: State, e: Event)
    requires Enabled(c, s, e) && NothingLost(e) && Inv(c, s)
    ensures Inv(c, Next(c, s, e))
  {
    hide Inv, Enabled, Next, NothingLost;
    match e
    case SetAccount(_) | DropAccount(_) => AccountEditsKeepInv(c, s, e);
    case SetUser(_) | DropUser(_) => UserEditsKeepInv(c, s, e);
    case Deliver(_, _, _) => DeliverKeepsInv(c, s, e);
    case Start(_) => StartKeepsInv(c, s, e);
    case ListAccounts(_) => ListAccountsKeepsInv(c, s, e);
    case ListUsers(_) => ListUsersKeepsInv(c, s, e);
    case ReconcileUsers(_, _, _, _, _) => ReconcileKeepsInv(c, s, e);
    case ReconcileFails(_, _) => ReconcileFailsKeepsInv(c, s, e);
    case Publish => PublishKeepsInv(c, s, e);
    case Finish(_, _) => FinishKeepsInv(c, s, e);
    case Fail | Restart => EndKeepsInv(c, s, e);
    case _ => ReportKeepsInv(c, s, e);
  }
}
