/**
 * A pass that comes to the same end as the one before it finds every status recorded. Two passes that drop
 * the same user therefore end quiet, with a ConfigMap that leaves out somebody who belongs in it.
 */
module StuckRun {
  import opened Text
  import opened Sorting
  import opened Api
  import opened Rules
  import opened Secrets
  import opened ConfigText
  import opened Convert
  import opened Resolve
  import opened ListingOrder
  import opened Freshness
  import opened Statuses
  import opened Drops
  import opened FreshnessProof
  import opened FreshnessWorker
  import opened FreshnessTheorems
  import opened Feedback

  // ---- the same pass again ----

  /** Settling a user who was settled the same way changes nothing. */
  lemma SettledTwice(env: World, a: Account, site: Site, seen: map<Object, Status>, again: map<Object, Status>,
                     secrets: map<Key, Stored>, u: User)
    requires Records(again, UserAttempt(env, a, site, seen, secrets, u))
    ensures UserAttempt(env, a, site, again, secrets, u) == UserAttempt(env, a, site, seen, secrets, u)
  {
    hide Judge, WithKey, SecretName;
  }

  lemma AccountTwice(env: World, links: Links, users: seq<User>, seen: map<Object, Status>, again: map<Object, Status>,
                     a: Account)
    requires Records(again, AccountAttempt(env, links, users, seen, a))
    ensures AccountAttempt(env, links, users, again, a) == AccountAttempt(env, links, users, seen, a)
  {
    hide AdmittedUsers;
  }

  lemma {:induction false} UsersTwice(env: World, accounts: seq<Account>, site: Site, users: seq<User>,
                                      seen: map<Object, Status>, again: map<Object, Status>, secrets: map<Key, Stored>)
    requires AllRecorded(again, UserAttempts(env, accounts, site, users, seen, secrets))
    ensures UserAttempts(env, accounts, site, users, again, secrets)
            == UserAttempts(env, accounts, site, users, seen, secrets)
  {
    hide Settled, LiveUserOf, Home, Records;
    if users != [] {
      var front, u := users[..|users| - 1], users[|users| - 1];
      var all, fewer := UserAttempts(env, accounts, site, users, seen, secrets),
                        UserAttempts(env, accounts, site, front, seen, secrets);
      assert forall x <- fewer :: x in all;
      UsersTwice(env, accounts, site, front, seen, again, secrets);
      if Home(env, accounts, u).Some? {
        assert all[|all| - 1] == UserAttempt(env, Home(env, accounts, u).value, site, seen, secrets, u);
        SettledTwice(env, Home(env, accounts, u).value, site, seen, again, secrets, u);
      }
    }
  }

  lemma AccountsTwice(env: World, links: Links, accounts: seq<Account>, users: seq<User>, seen: map<Object, Status>,
                      again: map<Object, Status>)
    requires AllRecorded(again, AccountAttempts(env, links, accounts, users, seen))
    ensures AccountAttempts(env, links, accounts, users, again) == AccountAttempts(env, links, accounts, users, seen)
  {
    hide AccountStatusAfter, Records;
    forall i | 0 <= i < |accounts|
      ensures AccountAttempts(env, links, accounts, users, again)[i]
              == AccountAttempts(env, links, accounts, users, seen)[i]
    {
      assert AccountAttempts(env, links, accounts, users, seen)[i] in AccountAttempts(env, links, accounts, users,
             seen);
      AccountTwice(env, links, users, seen, again, accounts[i]);
    }
  }

  lemma DistinctTargets(w: Worker, env: World, links: Links, out: seq<AccountWithUsers>, secrets: map<Key, Stored>)
    requires w.ReadUsers? && DistinctAccounts(w.accounts) && DistinctUsers(w.users) && ConflictNames(out) == []
    ensures OneEach(Attempts(w, env, links, out, secrets))
    ensures Attempts(w, env, links, out, secrets)
            == UserAttempts(env, w.accounts, SiteOf(w.accounts, links), w.users, w.seenUsers, secrets)
               + AccountAttempts(env, links, w.accounts, w.users, w.seenAccounts)
  {
    hide UserAttempts, AccountAttempts, ConflictAttempts, ConflictNames, SiteOf, DistinctAccounts, DistinctUsers;
    NoConflicts(env, links, w.accounts, w.users, w.seenAccounts);
    UsersOnce(env, w.accounts, SiteOf(w.accounts, links), w.users, w.seenUsers, secrets);
    AccountsOnce(env, links, w.accounts, w.users, w.seenAccounts);
  }

  /** A second pass over the same objects that comes to the same end tries to record what is there. */
  lemma SameAttempts(w: Worker, again: Worker, env: World, links: Links, out: seq<AccountWithUsers>,
                     secrets: map<Key, Stored>, statuses: map<Object, Status>)
    requires w.ReadUsers? && DistinctAccounts(w.accounts) && DistinctUsers(w.users) && ConflictNames(out) == []
    requires again.ReadUsers? && again.accounts == w.accounts && again.users == w.users
    requires again.seenAccounts == statuses && again.seenUsers == statuses
    requires AllRecorded(statuses, Attempts(w, env, links, out, secrets))
    ensures Attempts(again, env, links, out, secrets) == Attempts(w, env, links, out, secrets)
  {
    hide UserAttempts, AccountAttempts, Attempts, ConflictNames, Records, SiteOf;
    DistinctTargets(w, env, links, out, secrets);
    DistinctTargets(again, env, links, out, secrets);
    var site := SiteOf(w.accounts, links);
    UsersTwice(env, w.accounts, site, w.users, w.seenUsers, statuses, secrets);
    AccountsTwice(env, links, w.accounts, w.users, w.seenAccounts, statuses);
  }

  lemma RecordedTogether(s: State, e: Event, f: Event, attempts: seq<Attempt>, summary: Attempt)
    requires s.worker.ReadUsers? && DistinctAccounts(s.worker.accounts) && DistinctUsers(s.worker.users)
    requires e.ReconcileUsers? && f.Finish? && ConflictNames(e.out) == []
    requires attempts == Attempts(s.worker, e.env, e.links, e.out, e.secrets) && summary == Summary(s.worker.key, f)
    ensures var after := AfterWrites(AfterWrites(s.statuses, attempts), [summary]);
            AllRecorded(after, attempts) && Records(after, summary)
  {
    hide Settled, AccountStatusAfter, UserAttempts, ConflictNames, Home, SiteOf, LiveUserOf;
    DistinctTargets(s.worker, e.env, e.links, e.out, e.secrets);
    RecordedInTheEnd(s.statuses, attempts);
    forall x | x in attempts ensures Records(AfterWrites(AfterWrites(s.statuses, attempts), [summary]), x) {
      AttemptTargets(s.worker, e.env, e.links, e.out, e.secrets, x);
      SubjectIsNoCluster(x.target, s.worker.accounts, s.worker.users);
      OtherStatusStays(AfterWrites(s.statuses, attempts), [summary], x);
    }
    assert [summary][..0] == [];
  }

  lemma StatusesAfterPass(c: Context, s: State, e: Event, f: Event)
    requires CanPass(c, s, e, f)
    ensures AfterPass(c, s, e, f).statuses
            == AfterWrites(AfterWrites(s.statuses,
                                       Recorded(Attempts(s.worker, e.env, e.links, e.out, e.secrets), e.accepted)),
                           [Summary(s.worker.key, f)])
  {
    hide Attempts, Recorded, AfterWrites, Published, PassAllowed, Resolved, Changed, NotesOf;
  }

  /** The same pass as the one that left these statuses: same objects, same end, no failed write. */
  ghost predicate Repeats(c: Context, s: State, e: Event, f: Event, t: State, again: Event, end: Event)
    requires CanPass(c, s, e, f) && CanPass(c, t, again, end)
  {
    && t.statuses == AfterPass(c, s, e, f).statuses
    && t.worker == ReadUsers(s.worker.key, s.worker.accounts, t.statuses, s.worker.users, t.statuses)
    && again.env == e.env && again.links == e.links && again.out == e.out && again.secrets == e.secrets
    && false !in again.accepted && end.summary == f.summary && end.inSync
  }

  /**
   * A pass without conflict whose writes all went through comes to the same end once more, whomever it dropped.
   * This time it writes nothing exactly when the ConfigMap still holds what the first one published.
   */
  lemma RepeatIsSilentExactly(c: Context, s: State, e: Event, f: Event, t: State, again: Event, end: Event)
    requires CanPass(c, s, e, f) && false !in e.accepted && |FlaggedNames(e.out)| < 2
    requires DistinctAccounts(s.worker.accounts) && DistinctUsers(s.worker.users)
    requires CanPass(c, t, again, end) && Repeats(c, s, e, f, t, again, end)
    ensures PassWritesNothing(c, t, again, end) <==> HoldsText(t, s.worker.key, Published(c, e.out))
  {
    StatusesAfterPass(c, s, e, f);
    var attempts, summary := Attempts(s.worker, e.env, e.links, e.out, e.secrets), Summary(s.worker.key, f);
    assert |e.accepted| == |attempts|;
    assert Repeats(c, s, e, f, t, again, end);
    assert ConflictNames(e.out) == [];
    hide AfterPass, CanPass, Attempts, Recorded, AfterWrites, Enabled, Next, ConflictNames, FlaggedNames,
      DistinctAccounts, DistinctUsers, Published, HoldsText;
    AllAccepted(attempts, e.accepted);
    RecordedTogether(s, e, f, attempts, summary);
    SameAttempts(s.worker, t.worker, e.env, e.links, e.out, e.secrets, t.statuses);
  }

  // ---- two passes that drop the same user ----

  const TIMEOUT := "timeout"

  /** A pass in which no namespace can be fetched. */
  function Unreachable(c: Context): World
  {
    World(c.compiles, c.matches, (a: Key, u: Key, left: nat) => FetchError(TIMEOUT))
  }

  const NO_LINKS := Links([], None, None)

  /** One account that admits one user, who is dropped when namespaces are unreachable. */
  ghost predicate Droppable(c: Context, a: Account, u: User)
  {
    && RegexesValid(c.compiles, a.userRules) && Admits(Truth(c), a, u)
    && Judge(Unreachable(c), a, u) == Failed(TIMEOUT)
  }

  /** What a pass without the user makes of the account. */
  function Nobody(a: Account): seq<AccountWithUsers>
  {
    [AccountWithUsers(a, [])]
  }

  function DropReport(u: User): Attempt
  {
    Attempt(ThisUser(UserKey(u)),
            UserStatusOf(NEW_USER.(ready := Some(NamespaceFetchError(u.generation, u.namespace, TIMEOUT)))))
  }

  function ReadyReport(a: Account): Attempt
  {
    Attempt(ThisAccount(AccountKey(a)), AccountStatusOf(AccountStatus(0, "", Some(Reconciled(a.generation)))))
  }

  ghost function LastEvent(c: Context, a: Account): Event
  {
    Finish(ClusterStatus(1, 0, c.digest(ConfigBody(ConfigOf(Nobody(a)))), 0), true)
  }

  function DropEvent(c: Context, a: Account): Event
  {
    ReconcileUsers(Unreachable(c), NO_LINKS, Nobody(a), map[], [true, true])
  }

  ghost function Reports(a: Account, u: User): seq<Attempt>
  {
    [DropReport(u), ReadyReport(a)]
  }

  /** Nothing is recorded yet, or what the first pass recorded is. */
  ghost predicate BlankOrReported(c: Context, statuses: map<Object, Status>, a: Account, u: User)
  {
    || statuses == map[]
    || (AllRecorded(statuses, Reports(a, u)) && Records(statuses, Summary(ClusterKey(a), LastEvent(c, a))))
  }

  /** Idle, with the account's cluster queued and nothing else going on. */
  ghost predicate OneUser(c: Context, s: State, a: Account, u: User)
  {
    && s.clusters == {ClusterKey(a)} && s.accounts == map[AccountKey(a) := a] && s.users == map[UserKey(u) := u]
    && s.secrets == map[] && s.pending == {} && s.queue == {ClusterKey(a)} && s.worker == Idle
    && BlankOrReported(c, s.statuses, a, u)
    && s.configMaps == if s.statuses == map[] then map[] else map[ClusterKey(a) := Published(c, Nobody(a))]
  }

  ghost function DropPass(c: Context, a: Account, u: User): seq<Event>
  {
    [Start(ClusterKey(a)), ListAccounts([a]), ListUsers([u]),
     DropEvent(c, a), Publish, LastEvent(c, a)]
  }

  /** The state in which the pass has read its lists. */
  ghost function ListsRead(s: State, a: Account, u: User): State
  {
    s.(queue := {}, worker := ReadUsers(ClusterKey(a), [a], s.statuses, [u], s.statuses))
  }

  lemma ReadingSteps(c: Context, start: State, run: seq<Event>, s: State, a: Account, u: User)
    requires Valid(c, start, run) && After(c, start, run) == s && OneUser(c, s, a, u)
    ensures var reading := run + [Start(ClusterKey(a)), ListAccounts([a]), ListUsers([u])];
            Valid(c, start, reading) && After(c, start, reading) == ListsRead(s, a, u)
  {
    hide Valid, After, BlankOrReported, DropEvent, LastEvent;
    var k := ClusterKey(a);
    Extend(c, start, run, Start(k));
    assert {k} - {k} == {};
    var s1 := s.(queue := {}, worker := Found(k));
    assert SortedBy([a], AccountName);
    Extend(c, start, run + [Start(k)], ListAccounts([a]));
    Extend(c, start, run + [Start(k)] + [ListAccounts([a])], ListUsers([u]));
    assert run + [Start(k)] + [ListAccounts([a])] + [ListUsers([u])]
           == run + [Start(k), ListAccounts([a]), ListUsers([u])];
  }

  lemma OneIsNoConflict(a: Account)
    ensures |FlaggedNames(Nobody(a))| < 2 && ConflictNames(Nobody(a)) == []
  {
    assert FlaggedNames([]) == [];
    assert Nobody(a)[..0] == [];
  }

  lemma UserReport(c: Context, statuses: map<Object, Status>, site: Site, a: Account, u: User)
    requires Droppable(c, a, u) && BlankOrReported(c, statuses, a, u)
    ensures UserAttempts(Unreachable(c), [a], site, [u], statuses, map[]) == [DropReport(u)]
  {
    var env := Unreachable(c);
    assert env.compiles == c.compiles;
    assert statuses == map[] || Records(statuses, DropReport(u)) by {
      assert DropReport(u) in Reports(a, u);
    }
    hide Judge, Unreachable, RegexesValid, Truth, SecretName, BlankOrReported, AllRecorded;
    assert [u][..0] == [] && [u][|[u]| - 1] == u;
    assert [a][|[a]| - 1] == a && Home(env, [a], u) == Some(a);
    assert UserAttempts(env, [a], site, [], statuses, map[]) == [];
  }

  lemma AccountReport(c: Context, statuses: map<Object, Status>, a: Account, u: User)
    requires Droppable(c, a, u) && BlankOrReported(c, statuses, a, u)
    ensures AccountAttempts(Unreachable(c), NO_LINKS, [a], [u], statuses) == [ReadyReport(a)]
  {
    var env := Unreachable(c);
    assert env.compiles == c.compiles;
    assert statuses == map[] || Records(statuses, ReadyReport(a)) by {
      assert ReadyReport(a) in Reports(a, u);
    }
    hide Judge, Unreachable, RegexesValid, Truth, BlankOrReported, AllRecorded;
    assert [u][..0] == [] && [u][|[u]| - 1] == u;
    assert AdmittedUsers(env, a, []) == [];
    assert AdmittedUsers(env, a, [u]) == [];
  }

  lemma ReportsAre(c: Context, s: State, a: Account, u: User)
    requires Droppable(c, a, u) && OneUser(c, s, a, u)
    ensures Attempts(ListsRead(s, a, u).worker, Unreachable(c), NO_LINKS, Nobody(a), map[]) == Reports(a, u)
  {
    hide UserAttempts, AccountAttempts, ConflictAttempts, Unreachable, Droppable, BlankOrReported, DropReport,
      ReadyReport, SiteOf, ConflictNames;
    UserReport(c, s.statuses, SiteOf([a], NO_LINKS), a, u);
    AccountReport(c, s.statuses, a, u);
    OneIsNoConflict(a);
    NoConflicts(Unreachable(c), NO_LINKS, [a], [u], s.statuses);
  }

  lemma TargetsExist(s: State, a: Account, u: User)
    requires UserKey(u) in s.users && AccountKey(a) in s.accounts
    ensures Exists(s, DropReport(u).target) && Exists(s, ReadyReport(a).target)
  {}

  lemma NobodyIsResolved(c: Context, a: Account, u: User)
    requires Droppable(c, a, u)
    ensures Resolved(Unreachable(c), [a], [u], map[], Nobody(a)) && !Resolved(Truth(c), [a], [u], map[], Nobody(a))
    ensures Restricts(Unreachable(c), Truth(c))
  {
    var part, whole := Unreachable(c), Truth(c);
    assert part.compiles == whole.compiles == c.compiles && part.matches == whole.matches;
    assert Restricts(part, whole);
    hide Judge, RegexesValid, Unreachable, Truth;
    assert [a][..0] == [] && [u][..0] == [] && [a][|[a]| - 1] == a && [u][|[u]| - 1] == u;
    assert Kept(part, []) == [] && Kept(whole, []) == [];
    assert Kept(part, [a]) == [a] && Kept(whole, [a]) == [a];
    assert AdmittedUsers(part, a, []) == [] && AdmittedUsers(whole, a, []) == [];
    assert AdmittedUsers(part, a, [u]) == [] && AdmittedUsers(whole, a, [u]) == [u];
    assert WithKeys(map[], AdmittedUsers(whole, a, [u]))[0] in multiset(WithKeys(map[], AdmittedUsers(whole, a, [u])));
    assert Nobody(a)[0].users == [];
  }

  /** Once the users are reconciled, publishing and finishing are possible. */
  lemma PassGoesThrough(c: Context, s: State, e: Event, f: Event)
    requires s.worker.ReadUsers? && s.worker.key in s.clusters && e.ReconcileUsers? && f.Finish? && Enabled(c, s, e)
    requires f.summary.accountCount == |s.worker.accounts| && f.summary.userCount == UserTotal(e.out)
    requires f.summary.lastConfigHash == c.digest(ConfigBody(ConfigOf(e.out)))
    ensures CanPass(c, s, e, f)
  {
    hide Attempts, Published, ConfigOf, ConfigBody, UserTotal, Recorded, AfterWrites, Changed, PassAllowed, Resolved;
  }

  lemma NobodyCounted(a: Account)
    ensures UserTotal(Nobody(a)) == 0
  {
    assert UserTotal([]) == 0;
    assert Nobody(a)[..0] == [];
  }

  lemma DropIsEnabled(c: Context, s: State, a: Account, u: User)
    requires Droppable(c, a, u) && OneUser(c, s, a, u)
    ensures Enabled(c, ListsRead(s, a, u), DropEvent(c, a))
  {
    ReportsAre(c, s, a, u);
    NobodyIsResolved(c, a, u);
    hide Droppable, Attempts, Resolved, Unreachable, Truth, Restricts, BlankOrReported, DropReport, ReadyReport, Lookup;
    TargetsExist(ListsRead(s, a, u), a, u);
  }

  /** The three steps that resolve, publish and finish are possible once the lists are read. */
  lemma WritingSteps(c: Context, s: State, a: Account, u: User)
    requires Droppable(c, a, u) && OneUser(c, s, a, u)
    ensures CanPass(c, ListsRead(s, a, u), DropEvent(c, a), LastEvent(c, a))
  {
    NobodyCounted(a);
    DropIsEnabled(c, s, a, u);
    hide Droppable, Unreachable, BlankOrReported, ConfigOf, ConfigBody, UserTotal, CanPass, Enabled;
    PassGoesThrough(c, ListsRead(s, a, u), DropEvent(c, a), LastEvent(c, a));
  }

  lemma ExtendByPass(c: Context, start: State, run: seq<Event>, s: State, e: Event, f: Event)
    requires Valid(c, start, run) && After(c, start, run) == s && CanPass(c, s, e, f)
    ensures Valid(c, start, run + [e] + [Publish] + [f])
    ensures After(c, start, run + [e] + [Publish] + [f]) == AfterPass(c, s, e, f)
  {
    hide Valid, After, Enabled, Next;
    Extend(c, start, run, e);
    Extend(c, start, run + [e], Publish);
    Extend(c, start, run + [e] + [Publish], f);
  }

  lemma SixSteps<T>(run: seq<T>, a: T, b: T, c: T, d: T, e: T, f: T)
    ensures run + [a, b, c, d, e, f] == run + [a, b, c] + [d] + [e] + [f]
  {}

  lemma WholePass(c: Context, start: State, run: seq<Event>, s: State, a: Account, u: User)
    requires Valid(c, start, run) && After(c, start, run) == s && OneUser(c, s, a, u) && Droppable(c, a, u)
    ensures CanPass(c, ListsRead(s, a, u), DropEvent(c, a), LastEvent(c, a))
    ensures Valid(c, start, run + DropPass(c, a, u))
    ensures After(c, start, run + DropPass(c, a, u))
            == AfterPass(c, ListsRead(s, a, u), DropEvent(c, a), LastEvent(c, a))
  {
    hide Valid, After, Enabled, Next, OneUser, Droppable, ListsRead, DropEvent, LastEvent, CanPass, AfterPass;
    var reading := [Start(ClusterKey(a)), ListAccounts([a]), ListUsers([u])];
    SixSteps(run, Start(ClusterKey(a)), ListAccounts([a]), ListUsers([u]), DropEvent(c, a), Publish, LastEvent(c, a));
    ReadingSteps(c, start, run, s, a, u);
    WritingSteps(c, s, a, u);
    ExtendByPass(c, start, run + reading, ListsRead(s, a, u), DropEvent(c, a), LastEvent(c, a));
  }

  lemma ObjectsStay(c: Context, s: State, e: Event, f: Event)
    requires CanPass(c, s, e, f)
    ensures AfterPass(c, s, e, f).clusters == s.clusters && AfterPass(c, s, e, f).users == s.users
  {
    hide Attempts, Recorded, AfterWrites, Published, PassAllowed, Resolved, Changed, NotesOf;
  }

  /** What is left pending when the account, its user, the cluster and the ConfigMap have changed. */
  function AllNotes(a: Account, u: User): set<Note>
  {
    {UserChanged(u), AccountChanged(a), ClusterChanged(ClusterKey(a)), ConfigMapChanged(ClusterKey(a))}
  }

  lemma FirstWrites(statuses: map<Object, Status>, x: Attempt, y: Attempt, z: Attempt)
    requires statuses == map[] && x.target != y.target && x.target != z.target && y.target != z.target
    ensures Changed(statuses, [x, y]) == {x.target, y.target}
    ensures Changed(AfterWrites(statuses, [x, y]), [z]) == {z.target}
  {
    assert [x, y][..1] == [x] && [x][..0] == [];
    assert AfterWrites(statuses, [x]) == map[x.target := x.status];
    assert AfterWrites(statuses, [x, y]) == map[x.target := x.status, y.target := y.status];
    assert Changed(statuses, [x]) == {x.target};
    ChangedSummary(AfterWrites(statuses, [x, y]), z);
  }

  lemma NotesOfTwo(s: State, o: Object, p: Object)
    requires Exists(s, o) && Exists(s, p)
    ensures NotesOf(s, {o, p}) == {NoteOf(s, o), NoteOf(s, p)} && NotesOf(s, {o}) == {NoteOf(s, o)}
  {}

  lemma FirstReports(c: Context, s: State, a: Account, u: User)
    requires s.clusters == {ClusterKey(a)} && s.accounts == map[AccountKey(a) := a] && s.users == map[UserKey(u) := u]
    requires s.statuses == map[]
    ensures NotesOf(s, Changed(s.statuses, Reports(a, u))) == {UserChanged(u), AccountChanged(a)}
    ensures var after := AfterWrites(s.statuses, Reports(a, u));
            NotesOf(s, Changed(after, [Summary(ClusterKey(a), LastEvent(c, a))])) == {ClusterChanged(ClusterKey(a))}
  {
    hide AfterWrites, Changed, NotesOf;
    var x, y, z := DropReport(u), ReadyReport(a), Summary(ClusterKey(a), LastEvent(c, a));
    FirstWrites(s.statuses, x, y, z);
    NotesOfTwo(s, x.target, y.target);
    NotesOfTwo(s, z.target, z.target);
  }

  lemma {:induction false} LastWritesStand(statuses: map<Object, Status>, x: Attempt, y: Attempt, z: Attempt)
    requires x.target != y.target && x.target != z.target && y.target != z.target
    ensures var after := AfterWrites(AfterWrites(statuses, [x, y]), [z]);
            AllRecorded(after, [x, y]) && Records(after, z)
  {
    assert [x, y][..1] == [x] && [x][..0] == [] && [z][..0] == [];
    assert AfterWrites(statuses, [x]) == statuses[x.target := x.status];
  }

  /** The pass from s tried to record the reports and leaves t. */
  ghost predicate Leaves(c: Context, s: State, t: State, a: Account, u: User)
  {
    var summary := Summary(ClusterKey(a), LastEvent(c, a));
    && PassLeaves(ListsRead(s, a, u), t, ClusterKey(a), Reports(a, u), [true, true], s.statuses == map[],
                  summary, true)
    && t.statuses == AfterWrites(AfterWrites(s.statuses, Reports(a, u)), [summary])
  }

  lemma FirstRewrites(c: Context, s: State, a: Account, u: User)
    requires OneUser(c, s, a, u)
    ensures Rewrites(c, ListsRead(s, a, u), DropEvent(c, a)) <==> s.statuses == map[]
  {
    hide Published, BlankOrReported;
  }

  lemma PassReports(c: Context, s: State, a: Account, u: User)
    requires OneUser(c, s, a, u) && Droppable(c, a, u)
    requires CanPass(c, ListsRead(s, a, u), DropEvent(c, a), LastEvent(c, a))
    ensures Leaves(c, s, AfterPass(c, ListsRead(s, a, u), DropEvent(c, a), LastEvent(c, a)), a, u)
  {
    var r, e, f := ListsRead(s, a, u), DropEvent(c, a), LastEvent(c, a);
    assert r.worker.key == ClusterKey(a) && r.statuses == s.statuses;
    ReportsAre(c, s, a, u);
    assert Attempts(r.worker, e.env, e.links, e.out, e.secrets) == Reports(a, u) && e.accepted == [true, true];
    FirstRewrites(c, s, a, u);
    hide Attempts, AfterPass, CanPass, Reports, Published, Droppable, OneUser, PassLeaves, Unreachable, AfterWrites,
      Recorded, Enabled, Next, ListsRead, DropEvent;
    PassFacts(c, r, e, f);
    StatusesAfterPass(c, r, e, f);
    AllAccepted(Reports(a, u), [true, true]);
  }

  lemma PassStores(c: Context, s: State, a: Account, u: User)
    requires CanPass(c, ListsRead(s, a, u), DropEvent(c, a), LastEvent(c, a))
    ensures var t := AfterPass(c, ListsRead(s, a, u), DropEvent(c, a), LastEvent(c, a));
            && t.configMaps == s.configMaps[ClusterKey(a) := Published(c, Nobody(a))]
            && t.clusters == s.clusters && t.users == s.users && t.secrets == map[]
  {
    hide AfterPass, CanPass, Published, PassLeaves, Attempts, Enabled, Next;
    PassFacts(c, ListsRead(s, a, u), DropEvent(c, a), LastEvent(c, a));
    ObjectsStay(c, ListsRead(s, a, u), DropEvent(c, a), LastEvent(c, a));
  }

  lemma EndReports(c: Context, s: State, t: State, a: Account, u: User)
    requires Leaves(c, s, t, a, u)
    ensures AllRecorded(t.statuses, Reports(a, u)) && Records(t.statuses, Summary(ClusterKey(a), LastEvent(c, a)))
  {
    LastWritesStand(s.statuses, DropReport(u), ReadyReport(a), Summary(ClusterKey(a), LastEvent(c, a)));
    hide PassLeaves, AfterWrites;
  }

  lemma FirstEnds(c: Context, s: State, t: State, a: Account, u: User)
    requires OneUser(c, s, a, u) && Leaves(c, s, t, a, u) && s.statuses == map[]
    ensures t.pending == AllNotes(a, u) && t.queue == {} && t.worker == Idle && t.accounts == s.accounts
  {
    hide Changed, AfterWrites, Recorded, DropReport, ReadyReport, NotesOf;
    AllAccepted(Reports(a, u), [true, true]);
    FirstReports(c, ListsRead(s, a, u), a, u);
  }

  lemma NoNotes(s: State)
    ensures NotesOf(s, {}) == {}
  {}

  lemma SecondEnds(c: Context, s: State, t: State, a: Account, u: User)
    requires OneUser(c, s, a, u) && Leaves(c, s, t, a, u) && s.statuses != map[]
    ensures t.pending == {} && t.queue == {} && t.worker == Idle && t.accounts == s.accounts
  {
    hide Changed, AfterWrites, Recorded, DropReport, ReadyReport, NotesOf, Records, AllRecorded;
    AllAccepted(Reports(a, u), [true, true]);
    UnchangedExactly(s.statuses, Reports(a, u));
    ChangedSummary(s.statuses, Summary(ClusterKey(a), LastEvent(c, a)));
    NoNotes(ListsRead(s, a, u));
  }

  /** A pass that drops the user ends like this. */
  ghost predicate Ended(c: Context, s: State, t: State, a: Account, u: User)
  {
    && t.clusters == s.clusters && t.accounts == s.accounts && t.users == s.users && t.secrets == map[]
    && t.queue == {} && t.worker == Idle && t.pending == (if s.statuses == map[] then AllNotes(a, u) else {})
    && AllRecorded(t.statuses, Reports(a, u)) && Records(t.statuses, Summary(ClusterKey(a), LastEvent(c, a)))
    && t.configMaps == s.configMaps[ClusterKey(a) := Published(c, Nobody(a))]
  }

  /** What either pass leaves: the cluster's ConfigMap without the user, and everything recorded. */
  lemma PassEnds(c: Context, s: State, a: Account, u: User)
    requires OneUser(c, s, a, u) && Droppable(c, a, u)
    requires CanPass(c, ListsRead(s, a, u), DropEvent(c, a), LastEvent(c, a))
    ensures Ended(c, s, AfterPass(c, ListsRead(s, a, u), DropEvent(c, a), LastEvent(c, a)), a, u)
  {
    hide Attempts, AfterPass, CanPass, Published, Droppable, DropEvent, Reports, BlankOrReported;
    PassReports(c, s, a, u);
    PassStores(c, s, a, u);
    var t := AfterPass(c, ListsRead(s, a, u), DropEvent(c, a), LastEvent(c, a));
    EndReports(c, s, t, a, u);
    if s.statuses == map[] {
      FirstEnds(c, s, t, a, u);
    } else {
      SecondEnds(c, s, t, a, u);
    }
  }

  function Delivery(a: Account, u: User): seq<Event>
  {
    [Deliver(UserChanged(u), false, false), Deliver(AccountChanged(a), false, false),
     Deliver(ClusterChanged(ClusterKey(a)), false, false), Deliver(ConfigMapChanged(ClusterKey(a)), false, false)]
  }

  lemma Deliveries(c: Context, start: State, run: seq<Event>, t: State, a: Account, u: User)
    requires Valid(c, start, run) && After(c, start, run) == t && t.pending == AllNotes(a, u) && t.queue == {}
    requires t.accounts == map[AccountKey(a) := a] && References(u, a)
    ensures var all := run + Delivery(a, u);
            Valid(c, start, all) && After(c, start, all) == t.(pending := {}, queue := {ClusterKey(a)})
  {
    hide Valid, After, ClusterKey;
    var x, y := Deliver(UserChanged(u), false, false), Deliver(AccountChanged(a), false, false);
    var z, v := Deliver(ClusterChanged(ClusterKey(a)), false, false),
                Deliver(ConfigMapChanged(ClusterKey(a)), false, false);
    Extend(c, start, run, x);
    Extend(c, start, run + [x], y);
    Extend(c, start, run + [x] + [y], z);
    Extend(c, start, run + [x] + [y] + [z], v);
    assert run + [x] + [y] + [z] + [v] == run + Delivery(a, u);
    assert AllNotes(a, u) - {x.note} - {y.note} - {z.note} - {v.note} == {};
  }

  function Scene(a: Account, u: User): State
  {
    State({ClusterKey(a)}, map[AccountKey(a) := a], map[UserKey(u) := u], map[], map[], map[], {}, {ClusterKey(a)},
          Idle, map[], {})
  }

  lemma OnePass(c: Context, start: State, run: seq<Event>, s: State, a: Account, u: User)
    requires Valid(c, start, run) && After(c, start, run) == s && OneUser(c, s, a, u) && Droppable(c, a, u)
    ensures Valid(c, start, run + DropPass(c, a, u)) && Ended(c, s, After(c, start, run + DropPass(c, a, u)), a, u)
  {
    hide Valid, After, OneUser, Droppable, AfterPass, CanPass, DropPass, DropEvent, LastEvent, ListsRead;
    WholePass(c, start, run, s, a, u);
    PassEnds(c, s, a, u);
  }

  lemma SomethingRecorded(statuses: map<Object, Status>, a: Account, u: User)
    requires AllRecorded(statuses, Reports(a, u))
    ensures statuses != map[]
  {
    assert Reports(a, u)[0] in Reports(a, u);
  }

  /** Once its notifications are delivered, the first pass leaves the scene for the second. */
  lemma FirstPassLeaves(c: Context, s: State, t: State, a: Account, u: User)
    requires s == Scene(a, u) && Ended(c, s, t, a, u)
    ensures t.pending == AllNotes(a, u) && t.queue == {} && t.accounts == map[AccountKey(a) := a]
    ensures t.statuses != map[] && t.configMaps == map[ClusterKey(a) := Published(c, Nobody(a))]
    ensures OneUser(c, t.(pending := {}, queue := {ClusterKey(a)}), a, u)
  {
    hide Published, LastEvent, Records, DropReport, ReadyReport, AllNotes;
    SomethingRecorded(t.statuses, a, u);
  }

  lemma FirstRound(c: Context, a: Account, u: User)
    requires Droppable(c, a, u)
    ensures var s, run := Scene(a, u), DropPass(c, a, u) + Delivery(a, u);
            && Valid(c, s, run) && OneUser(c, After(c, s, run), a, u) && After(c, s, run).statuses != map[]
            && After(c, s, run).configMaps == map[ClusterKey(a) := Published(c, Nobody(a))]
  {
    var s := Scene(a, u);
    assert Valid(c, s, []) && s == After(c, s, []);
    assert [] + DropPass(c, a, u) == DropPass(c, a, u);
    assert References(u, a);
    assert OneUser(c, s, a, u);
    hide Valid, After, Droppable, DropPass, Delivery, Ended, OneUser, AllNotes, Published;
    OnePass(c, s, [], s, a, u);
    var t := After(c, s, DropPass(c, a, u));
    FirstPassLeaves(c, s, t, a, u);
    Deliveries(c, s, DropPass(c, a, u), t, a, u);
  }

  lemma EventsLoseNothing(c: Context, a: Account, u: User)
    ensures forall e <- DropPass(c, a, u) :: NothingLost(e)
    ensures forall e <- Delivery(a, u) :: NothingLost(e)
  {
    assert DropEvent(c, a).ReconcileUsers? && LastEvent(c, a).Finish?;
    hide DropEvent, LastEvent;
  }

  lemma DropsLoseNothing(c: Context, a: Account, u: User)
    ensures forall e <- DropPass(c, a, u) + Delivery(a, u) + DropPass(c, a, u) :: NothingLost(e)
  {
    hide DropPass, Delivery, NothingLost;
    EventsLoseNothing(c, a, u);
  }

  lemma SceneStarts(a: Account, u: User)
    ensures Starting(Scene(a, u))
  {}

  /** Quiet, with the user declared but not in the only ConfigMap. */
  ghost predicate Stuck(c: Context, t: State, a: Account, u: User)
  {
    && Quiescent(t) && UserOf(t, ClusterKey(a), u)
    && t.configMaps == map[ClusterKey(a) := Published(c, Nobody(a))]
    && !Resolved(Truth(c), [a], [u], t.secrets, Nobody(a))
  }

  lemma UserBelongs(c: Context, s: State, a: Account, u: User)
    requires Droppable(c, a, u) && s.accounts == map[AccountKey(a) := a] && s.users == map[UserKey(u) := u]
    ensures UserOf(s, ClusterKey(a), u)
  {
    hide Judge, Truth, RegexesValid;
  }

  lemma SecondRound(c: Context, s: State, t: State, a: Account, u: User)
    requires Droppable(c, a, u) && OneUser(c, s, a, u) && Ended(c, s, t, a, u) && s.statuses != map[]
    requires s.configMaps == map[ClusterKey(a) := Published(c, Nobody(a))]
    ensures Stuck(c, t, a, u)
  {
    hide Published, LastEvent, Resolved, Truth, Records, AllRecorded, BlankOrReported, Droppable, UserOf, Reports;
    NobodyIsResolved(c, a, u);
    UserBelongs(c, t, a, u);
  }

  /**
   * The account admits the user, but in two passes its namespace cannot be fetched. The statuses the first
   * pass records and the ConfigMap it creates bring the cluster back once; then all is quiet, and the user is not
   * in the ConfigMap.
   */
  lemma TwoDropsStick(c: Context, a: Account, u: User)
    requires Droppable(c, a, u)
    ensures var s, run := Scene(a, u), DropPass(c, a, u) + Delivery(a, u) + DropPass(c, a, u);
            && Starting(s) && Valid(c, s, run) && (forall e <- run :: NothingLost(e))
            && Stuck(c, After(c, s, run), a, u)
  {
    hide Valid, After, Droppable, OneUser, Ended, Published, DropPass, Delivery, Stuck, NothingLost, Scene, Starting;
    var s, front := Scene(a, u), DropPass(c, a, u) + Delivery(a, u);
    SceneStarts(a, u);
    DropsLoseNothing(c, a, u);
    FirstRound(c, a, u);
    OnePass(c, s, front, After(c, s, front), a, u);
    SecondRound(c, After(c, s, front), After(c, s, front + DropPass(c, a, u)), a, u);
  }
}
