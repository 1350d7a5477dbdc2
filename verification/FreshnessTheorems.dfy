/**
 * What the queue guarantees over whole runs: once nothing is pending, every ConfigMap is the rendering of
 * what is declared, unless its last pass dropped a user in silence; and a notification that gets lost.
 */
module FreshnessTheorems {
  import opened Text
  import opened Sorting
  import opened Api
  import opened Rules
  import opened Secrets
  import opened NatsConfig
  import opened ConfigText
  import opened Convert
  import opened Resolve
  import opened ResolveTheorems
  import opened ListingOrder
  import opened Freshness
  import opened Drops
  import opened FreshnessProof
  import opened FreshnessWorker

  /** A freshly started operator: every cluster is queued. */
  predicate Starting(s: State)
  {
    s.worker.Idle? && s.pending == {} && s.queue == s.clusters && WellKeyed(s)
  }

  /**
   * In every reachable state each live cluster is due, under way with what it has read still true, or
   * published from current objects, with a user dropped only if that pass was silent.
   */
  lemma {:induction false} RunKeepsInv(c: Context, s: State, run: seq<Event>)
    requires Starting(s) && Valid(c, s, run) && forall e <- run :: NothingLost(e)
    ensures Inv(c, After(c, s, run))
  {
    if run != [] {
      var front, last := run[..|run| - 1], run[|run| - 1];
      assert forall e <- front :: e in run;
      assert last in run;
      RunKeepsInv(c, s, front);
      hide Inv, Enabled, Next;
      StepKeepsInv(c, After(c, s, front), last);
    }
  }

  // ---- the list a pass starts from ----

  /** The API lists every account once. */
  ghost predicate ListsAll(s: State, all: seq<Account>)
  {
    && DistinctAccounts(all)
    && forall a: Account :: a in all <==> AccountKey(a) in s.accounts && s.accounts[AccountKey(a)] == a
  }

  lemma AccountOnce(accounts: seq<Account>, a: Account)
    requires DistinctAccounts(accounts)
    ensures multiset(accounts)[a] == if a in accounts then 1 else 0
  {
    if a in accounts {
      var i :| 0 <= i < |accounts| && accounts[i] == a;
      assert accounts == accounts[..i] + [a] + accounts[i + 1..];
      forall k | 0 <= k < |accounts| && k != i ensures accounts[k] != a {
        assert AccountKey(accounts[k]) != AccountKey(accounts[i]);
      }
    }
  }

  lemma SortedAreDistinct(accounts: seq<Account>, all: seq<Account>, k: Key)
    requires DistinctAccounts(all) && multiset(accounts) == multiset(Matching(all, k))
    ensures DistinctAccounts(accounts)
  {
    MatchingNamesDistinct(all, k);
    DistinctCarriesOver(Matching(all, k), accounts, AccountName);
    forall i, j | 0 <= i < j < |accounts| ensures AccountKey(accounts[i]) != AccountKey(accounts[j]) {
      assert AccountName(accounts[i]) != AccountName(accounts[j]);
    }
    hide Matching;
  }

  /** What a pass may start from in this machine is exactly what ListMatchingAccounts makes of such a list. */
  lemma ListedExactly(s: State, k: Key, all: seq<Account>, listed: seq<Account>)
    requires ListsAll(s, all)
    ensures ListsAccounts(s, k, listed)
            <==> SortedBy(listed, AccountName) && multiset(listed) == multiset(Matching(all, k))
  {
    hide Matching, DistinctAccounts, SortedBy;
    if multiset(listed) == multiset(Matching(all, k)) {
      SortedAreDistinct(listed, all, k);
    }
    forall a: Account
      ensures DistinctAccounts(listed) ==> multiset(listed)[a] == if a in listed then 1 else 0
      ensures multiset(Matching(all, k))[a] == if a in all && ClusterKey(a) == k then 1 else 0
      ensures a in listed <==> a in multiset(listed)
    {
      MatchingMultiplicity(all, k, a);
      AccountOnce(all, a);
      if DistinctAccounts(listed) {
        AccountOnce(listed, a);
      }
    }
    if ListsAccounts(s, k, listed) {
      SameMultiset(listed, Matching(all, k));
    }
  }

  // ---- every relevant edit is noticed ----

  ghost predicate AccountOf(s: State, k: Key, a: Account)
  {
    AccountKey(a) in s.accounts && s.accounts[AccountKey(a)] == a && ClusterKey(a) == k
  }

  ghost predicate UserOf(s: State, k: Key, u: User)
  {
    UserKey(u) in s.users && s.users[UserKey(u)] == u && ClusterOf(s.accounts, u) == Some(k)
  }

  /** The cluster has the same accounts, and the same users naming them. */
  ghost predicate SameInputs(s: State, t: State, k: Key)
  {
    && (forall a: Account :: AccountOf(s, k, a) <==> AccountOf(t, k, a))
    && (forall u: User :: UserOf(s, k, u) <==> UserOf(t, k, u))
  }

  lemma AccountEditIsNoticed(s: State, t: State, k: Key)
    requires AccountEdit(s, t) && WellKeyed(s) && WellKeyed(t) && !SameInputs(s, t, k)
    ensures Due(t, k)
  {
    if a: Account :| AccountOf(s, k, a) != AccountOf(t, k, a) {
      assert AccountChanged(a) in t.pending && Targets(t, AccountChanged(a), k);
    } else {
      var u: User :| UserOf(s, k, u) != UserOf(t, k, u);
      var r := ReferencedAccount(u);
      if UserOf(s, k, u) {
        assert AccountOf(s, k, s.accounts[r]);
      } else {
        assert AccountOf(t, k, t.accounts[r]);
      }
      assert false;
    }
  }

  lemma UserEditIsNoticed(s: State, t: State, k: Key)
    requires UserEdit(s, t) && !SameInputs(s, t, k)
    ensures Due(t, k)
  {
    forall a: Account ensures AccountOf(s, k, a) <==> AccountOf(t, k, a) {}
    var u: User :| UserOf(s, k, u) != UserOf(t, k, u);
    assert UserChanged(u) in t.pending && Targets(t, UserChanged(u), k);
  }

  /** Whatever an edit changes for a cluster, the notifications it leaves lead to that cluster. */
  lemma EditsAreNoticed(c: Context, s: State, e: Event, k: Key)
    requires e.SetAccount? || e.DropAccount? || e.SetUser? || e.DropUser?
    requires Enabled(c, s, e) && WellKeyed(s) && !SameInputs(s, Next(c, s, e), k)
    ensures Due(Next(c, s, e), k)
  {
    hide SameInputs, WellKeyed, Due, Enabled, Next, AccountEdit, UserEdit;
    if e.SetAccount? || e.DropAccount? {
      AccountEventIsEdit(c, s, e);
      AccountEditIsNoticed(s, Next(c, s, e), k);
    } else {
      UserEventIsEdit(c, s, e);
      UserEditIsNoticed(s, Next(c, s, e), k);
    }
  }

  // ---- what fresh means ----

  lemma ListedOnce<T>(a: seq<T>, b: seq<T>, x: T)
    requires multiset(a)[x] <= 1 && multiset(b)[x] <= 1 && (x in a <==> x in b)
    ensures multiset(a)[x] == multiset(b)[x]
  {
    assert x in a <==> x in multiset(a);
    assert x in b <==> x in multiset(b);
  }

  lemma ClusterNamesDistinct(s: State, k: Key, listed: seq<Account>)
    requires ListsAccounts(s, k, listed)
    ensures DistinctAccountNames(listed)
  {
    forall i, j | 0 <= i < j < |listed| ensures AccountName(listed[i]) != AccountName(listed[j]) {
      assert listed[i] in listed && listed[j] in listed;
      assert AccountKey(listed[i]) != AccountKey(listed[j]);
    }
  }

  /** There is only one way to list a cluster's accounts. */
  lemma AccountListIsUnique(s: State, k: Key, a: seq<Account>, b: seq<Account>)
    requires ListsAccounts(s, k, a) && ListsAccounts(s, k, b)
    ensures a == b
  {
    ClusterNamesDistinct(s, k, a);
    ClusterNamesDistinct(s, k, b);
    forall x: Account ensures multiset(a)[x] == multiset(b)[x] {
      if x in a {
        var i :| 0 <= i < |a| && a[i] == x;
        var j :| 0 <= j < |b| && b[j] == x;
        DistinctMultiplicity(a, AccountName, i);
        DistinctMultiplicity(b, AccountName, j);
      }
    }
    SameMultiset(a, b);
    SortedIsUnique(a, b, AccountName);
  }

  lemma UsersReadSuffice(env: World, a: Account, accounts: seq<Account>, s: State, read: seq<User>, listed: seq<User>)
    requires a in accounts && UsersAgree(s, accounts, read) && ListsUsers(s, listed)
    ensures multiset(AdmittedUsers(env, a, read)) == multiset(AdmittedUsers(env, a, listed))
  {
    forall u: User ensures multiset(AdmittedUsers(env, a, read))[u] == multiset(AdmittedUsers(env, a, listed))[u] {
      AdmittedMultiplicity(env, a, read, u);
      AdmittedMultiplicity(env, a, listed, u);
      if Admits(env, a, u) {
        assert RefersTo(u, accounts);
        DistinctUserOnce(read, u);
        DistinctUserOnce(listed, u);
        ListedOnce(read, listed, u);
      }
    }
    SameMultiset(AdmittedUsers(env, a, read), AdmittedUsers(env, a, listed));
    hide AdmittedUsers, Judge, DistinctUsers;
  }

  lemma WithKeysOfSame(secrets: map<Key, Stored>, a: seq<User>, b: seq<User>)
    requires multiset(a) == multiset(b)
    ensures multiset(WithKeys(secrets, a)) == multiset(WithKeys(secrets, b))
  {
    forall e: UserWithKey ensures multiset(WithKeys(secrets, a))[e] == multiset(WithKeys(secrets, b))[e] {
      WithKeysMultiplicity(secrets, a, e);
      WithKeysMultiplicity(secrets, b, e);
    }
    SameMultiset(WithKeys(secrets, a), WithKeys(secrets, b));
    hide WithKeys, WithKey;
  }

  /** A fresh ConfigMap was published from a result that the present objects and Secrets call for. */
  lemma FreshIsResolved(c: Context, s: State, k: Key, accounts: seq<Account>, users: seq<User>)
    requires Fresh(c, s, k) && ListsAccounts(s, k, accounts) && ListsUsers(s, users)
    ensures s.basis[k].accounts == accounts
    ensures Resolved(s.basis[k].env, accounts, users, s.secrets, s.basis[k].out)
  {
    hide Restricts, Whole;
    var b := s.basis[k];
    AccountListIsUnique(s, k, accounts, b.accounts);
    forall i | 0 <= i < |b.out| ensures IsListing(b.env, b.out[i].account, users, s.secrets, b.out[i].users) {
      var a := b.out[i].account;
      KeptAreListed(b.env, accounts, a);
      UsersReadSuffice(b.env, a, accounts, s, b.users, users);
      WithKeysOfSame(s.secrets, AdmittedUsers(b.env, a, b.users), AdmittedUsers(b.env, a, users));
    }
    hide Kept, AdmittedUsers, WithKeys, ListsAccounts, UsersAgree, Published;
  }

  predicate Quiescent(s: State)
  {
    s.worker.Idle? && s.queue == {} && s.pending == {}
  }

  lemma SameMissed(c: Context, s: State, b: Basis, users: seq<User>)
    requires UsersAgree(s, b.accounts, b.users) && ListsUsers(s, users)
    ensures MissesNobody(b.env, Truth(c), b.accounts, users) <==> Whole(c, b)
  {
    forall a, u | a in b.accounts && References(u, a) ensures u in b.users <==> u in users {
      assert RefersTo(u, b.accounts);
    }
    hide References, RegexesValid, Judge, Truth, FetchBlocks;
  }

  lemma FreshExactly(c: Context, s: State, k: Key, accounts: seq<Account>, users: seq<User>)
    requires Fresh(c, s, k) && ListsAccounts(s, k, accounts) && ListsUsers(s, users)
    ensures Resolved(Truth(c), accounts, users, s.secrets, s.basis[k].out) <==> Whole(c, s.basis[k])
  {
    FreshIsResolved(c, s, k, accounts, users);
    SameMissed(c, s, s.basis[k], users);
    hide ListsAccounts, ListsUsers, Resolved, Published, MissesNobody, Restricts, Truth;
    RightExactlyIfNobodyMissed(s.basis[k].env, Truth(c), accounts, users, s.secrets, s.basis[k].out);
  }

  lemma QuiescentIsFresh(c: Context, s: State, run: seq<Event>, k: Key)
    requires Starting(s) && Valid(c, s, run) && (forall e <- run :: NothingLost(e)) && Quiescent(After(c, s, run))
    requires k in After(c, s, run).clusters
    ensures Fresh(c, After(c, s, run), k)
  {
    RunKeepsInv(c, s, run);
    hide After, Fresh;
  }

  /**
   * Whenever nothing is pending, queued or under way, a live cluster's ConfigMap holds the result of its last
   * pass. That is what the present accounts, users and Secrets call for exactly when the pass dropped nobody;
   * and if it dropped somebody, it was silent.
   */
  lemma QuiescentExactly(c: Context, s: State, run: seq<Event>, k: Key, accounts: seq<Account>, users: seq<User>)
    requires Starting(s) && Valid(c, s, run) && (forall e <- run :: NothingLost(e)) && Quiescent(After(c, s, run))
    requires k in After(c, s, run).clusters
    requires ListsAccounts(After(c, s, run), k, accounts) && ListsUsers(After(c, s, run), users)
    ensures var t := After(c, s, run);
            && k in t.basis && k in t.configMaps && t.configMaps[k] == Published(c, t.basis[k].out)
            && (Resolved(Truth(c), accounts, users, t.secrets, t.basis[k].out) <==> Whole(c, t.basis[k]))
            && (Whole(c, t.basis[k]) || k in t.silent)
  {
    QuiescentIsFresh(c, s, run, k);
    hide After, Published, Resolved, ListsAccounts, ListsUsers, Current, Truth, MissesNobody, Valid;
    FreshExactly(c, After(c, s, run), k, accounts, users);
  }

  /** The text, for a cluster whose last pass dropped nobody or changed something. */
  lemma QuiescentIsRendered(c: Context, s: State, run: seq<Event>, k: Key, accounts: seq<Account>, users: seq<User>,
                            out: seq<AccountWithUsers>)
    requires Starting(s) && Valid(c, s, run) && (forall e <- run :: NothingLost(e)) && Quiescent(After(c, s, run))
    requires k in After(c, s, run).clusters
    requires k in After(c, s, run).basis ==> k !in After(c, s, run).silent || Whole(c, After(c, s, run).basis[k])
    requires ListsAccounts(After(c, s, run), k, accounts) && ListsUsers(After(c, s, run), users)
    requires Resolved(Truth(c), accounts, users, After(c, s, run).secrets, out) && NamesDistinct(out)
    ensures k in After(c, s, run).configMaps && After(c, s, run).configMaps[k] == Published(c, out)
  {
    hide After, Published, Resolved, ListsAccounts, ListsUsers, NamesDistinct, Truth, MissesNobody, Valid, Whole;
    QuiescentExactly(c, s, run, k, accounts, users);
    var t := After(c, s, run);
    UserOrderIsIrrelevant(Truth(c), accounts, users, users, t.secrets, out, t.basis[k].out);
  }

  // ---- runs of a few steps ----

  lemma Extend(c: Context, s: State, run: seq<Event>, e: Event)
    requires Valid(c, s, run) && Enabled(c, After(c, s, run), e)
    ensures Valid(c, s, run + [e]) && After(c, s, run + [e]) == Next(c, After(c, s, run), e)
  {
    assert (run + [e])[..|run + [e]| - 1] == run;
    hide Enabled, Next;
  }

  lemma TwoSteps(c: Context, s: State, e: Event, f: Event)
    requires Enabled(c, s, e) && Enabled(c, Next(c, s, e), f)
    ensures Valid(c, s, [e, f]) && After(c, s, [e, f]) == Next(c, Next(c, s, e), f)
  {
    hide Enabled, Next;
    Extend(c, s, [], e);
    Extend(c, s, [] + [e], f);
    assert [] + [e] + [f] == [e, f];
  }

  // ---- a lost notification ----

  ghost predicate Mentioned(out: seq<AccountWithUsers>, u: User)
  {
    exists i, j :: 0 <= i < |out| && 0 <= j < |out[i].users| && out[i].users[j].user == u
  }

  /** A user that does not exist is not in a fresh result. */
  lemma StrangerIsNotMentioned(c: Context, s: State, k: Key, u: User)
    requires Fresh(c, s, k) && UserKey(u) !in s.users
    ensures !Mentioned(s.basis[k].out, u)
  {
    var b := s.basis[k];
    hide Resolved, Published, AccountsAgree, RegexesValid, Judge, References, Restricts, Whole;
    forall i, j | 0 <= i < |b.out| && 0 <= j < |b.out[i].users| ensures b.out[i].users[j].user != u {
      var v, a := b.out[i].users[j].user, b.out[i].account;
      assert Appears(b.out, v, a, i, j);
      MembershipExactly(b.env, b.accounts, b.users, s.secrets, b.out, v, a);
      assert RefersTo(v, b.accounts);
      assert UserKey(v) in s.users;
    }
  }

  lemma LostSteps(c: Context, s: State, u: User)
    requires s.pending == {} && UserKey(u) !in s.users
    ensures Enabled(c, s, SetUser(u)) && Enabled(c, Next(c, s, SetUser(u)), Deliver(UserChanged(u), true, true))
    ensures Next(c, Next(c, s, SetUser(u)), Deliver(UserChanged(u), true, true))
            == s.(users := s.users[UserKey(u) := u])
  {
    assert s.queue + {} == s.queue;
    assert {} + {} + {UserChanged(u)} - {UserChanged(u)} == {};
  }

  lemma StrangerIsMissing(c: Context, s: State, u: User, k: Key, a: Account)
    requires Fresh(c, s, k) && AccountOf(s, k, a) && References(u, a) && UserKey(u) !in s.users
    ensures var t := s.(users := s.users[UserKey(u) := u]);
            && UserOf(t, k, u) && k in t.configMaps && k in s.basis
            && t.configMaps[k] == Published(c, s.basis[k].out) && !Mentioned(s.basis[k].out, u)
  {
    StrangerIsNotMentioned(c, s, k, u);
    hide Current, Published, Restricts, Whole, Mentioned;
  }

  /**
   * When both the lookup and the fallback List fail, a new user's notification is gone: all is quiet, the
   * ConfigMap is unchanged, and the user it should list is not in it. Nothing left in the state brings the
   * cluster back; a resync of the watch, a further change or a restart would.
   */
  lemma LostNotificationIsNotRepaired(c: Context, s: State, u: User, k: Key, a: Account)
    requires Quiescent(s) && Fresh(c, s, k)
    requires AccountOf(s, k, a) && RegexesValid(c.compiles, a.userRules) && Admits(Truth(c), a, u)
             && UserKey(u) !in s.users
    ensures Valid(c, s, [SetUser(u), Deliver(UserChanged(u), true, true)])
    ensures var t := After(c, s, [SetUser(u), Deliver(UserChanged(u), true, true)]);
            && Quiescent(t) && UserOf(t, k, u) && t.configMaps == s.configMaps
            && t.configMaps[k] == Published(c, s.basis[k].out) && !Mentioned(s.basis[k].out, u)
  {
    hide Fresh, Published, RegexesValid, Judge, Enabled, Next, Mentioned, UserOf, AccountOf, References;
    StrangerIsMissing(c, s, u, k, a);
    LostSteps(c, s, u);
    TwoSteps(c, s, SetUser(u), Deliver(UserChanged(u), true, true));
  }
}
