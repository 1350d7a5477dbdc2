/**
 * What a successful pass over accounts and users guarantees: exact membership, stored credentials,
 * conserved counts, independence from listing order, and when the system account stamps are right.
 */
module ResolveTheorems {
  import opened Text
  import opened Sorting
  import opened Api
  import opened Rules
  import opened Secrets
  import opened NatsConfig
  import opened ConfigText
  import opened Convert
  import opened Resolve

  function UserName(u: User): string
  {
    u.name
  }

  // ---- elements of a listing ----

  lemma {:induction false} WithKeysMultiplicity(secrets: map<Key, Stored>, us: seq<User>, e: UserWithKey)
    ensures multiset(WithKeys(secrets, us))[e] == if e == WithKey(secrets, e.user) then multiset(us)[e.user] else 0
  {
    if us != [] {
      var front, last := us[..|us| - 1], us[|us| - 1];
      WithKeysMultiplicity(secrets, front, e);
      assert us == front + [last];
      assert WithKeys(secrets, us) == WithKeys(secrets, front) + [WithKey(secrets, last)];
      assert WithKey(secrets, last).user == last;
    }
    hide WithKey;
  }

  lemma {:induction false} AdmittedMultiplicity(env: World, a: Account, us: seq<User>, u: User)
    ensures multiset(AdmittedUsers(env, a, us))[u] == if Admits(env, a, u) then multiset(us)[u] else 0
  {
    if us != [] {
      var front, last := us[..|us| - 1], us[|us| - 1];
      AdmittedMultiplicity(env, a, front, u);
      assert us == front + [last];
    }
    hide Admits;
  }

  lemma ListingMultiplicity(env: World, a: Account, users: seq<User>, secrets: map<Key, Stored>,
                            listed: seq<UserWithKey>, e: UserWithKey)
    requires IsListing(env, a, users, secrets, listed)
    ensures multiset(listed)[e]
            == if e == WithKey(secrets, e.user) && Admits(env, a, e.user) then multiset(users)[e.user] else 0
  {
    WithKeysMultiplicity(secrets, AdmittedUsers(env, a, users), e);
    AdmittedMultiplicity(env, a, users, e.user);
    hide Admits, WithKey, WithKeys, AdmittedUsers;
  }

  /** A listing shows an entry exactly when its user is admitted, and then with the stored credential. */
  lemma ListingHolds(env: World, a: Account, users: seq<User>, secrets: map<Key, Stored>, listed: seq<UserWithKey>,
                     e: UserWithKey)
    requires IsListing(env, a, users, secrets, listed)
    ensures e in listed <==> e == WithKey(secrets, e.user) && Admits(env, a, e.user) && e.user in users
  {
    ListingMultiplicity(env, a, users, secrets, listed, e);
    assert e in listed <==> e in multiset(listed);
    assert e.user in users <==> e.user in multiset(users);
    hide Admits, WithKey, IsListing;
  }

  // ---- membership ----

  ghost predicate Appears(out: seq<AccountWithUsers>, u: User, a: Account, i: nat, j: nat)
  {
    i < |out| && out[i].account == a && j < |out[i].users| && out[i].users[j].user == u
  }

  /**
   * A user is in the output, under an account, exactly when it references that account, all the
   * account's regexes compile and the account's rules grant.
   */
  lemma MembershipExactly(env: World, accounts: seq<Account>, users: seq<User>, secrets: map<Key, Stored>,
                          out: seq<AccountWithUsers>, u: User, a: Account)
    requires Resolved(env, accounts, users, secrets, out)
    ensures (exists i, j :: Appears(out, u, a, i, j))
            <==> && u in users && a in accounts && References(u, a) && RegexesValid(env.compiles, a.userRules)
                 && Judge(env, a, u) == Granted
  {
    KeptAreListed(env, accounts, a);
    var e := WithKey(secrets, u);
    if i: nat, j: nat :| Appears(out, u, a, i, j) {
      assert out[i].account in Kept(env, accounts);
      ListingHolds(env, a, users, secrets, out[i].users, out[i].users[j]);
    }
    if a in Kept(env, accounts) && Admits(env, a, u) && u in users {
      var i :| 0 <= i < |out| && Kept(env, accounts)[i] == a;
      ListingHolds(env, a, users, secrets, out[i].users, e);
      var j :| 0 <= j < |out[i].users| && out[i].users[j] == e;
      assert Appears(out, u, a, i, j);
    }
    hide RegexesValid, Judge, IsListing, Kept, References;
  }

  /** Rule k of the account applies to the user and grants, and no rule before it applies or breaks. */
  ghost predicate LetsInBy(env: World, a: Account, u: User, k: nat)
  {
    var met, rules := env.At(Key(a.namespace, a.name), Key(u.namespace, u.name)), a.userRules;
    && k < |rules| && rules[k].action == "grant" && Applies(met, rules[k], u.namespace, a.namespace, |rules| - k)
    && forall l :: 0 <= l < k ==> !Applies(met, rules[l], u.namespace, a.namespace, |rules| - l)
                                  && !Breaks(met, rules[l], |rules| - l)
  }

  lemma GrantedByRules(env: World, a: Account, u: User)
    ensures Judge(env, a, u) == Granted <==> exists k: nat :: LetsInBy(env, a, u, k)
  {
    var met, rules := env.At(Key(a.namespace, a.name), Key(u.namespace, u.name)), a.userRules;
    GrantedExactly(met, rules, u.namespace, a.namespace);
    hide Evaluate, Applies, Breaks;
    if Judge(env, a, u) == Granted {
      var k: nat :| && k < |rules| && rules[k].action == "grant"
                    && Applies(met, rules[k], u.namespace, a.namespace, |rules| - k)
                    && forall l :: 0 <= l < k ==> !Applies(met, rules[l], u.namespace, a.namespace, |rules| - l)
                                                  && !Breaks(met, rules[l], |rules| - l);
      assert LetsInBy(env, a, u, k);
    }
  }

  /**
   * The same in terms of the declared objects alone: the user names the account, every regex of the account
   * compiles, and the first of its rules that applies grants.
   */
  lemma MembershipByRules(env: World, accounts: seq<Account>, users: seq<User>, secrets: map<Key, Stored>,
                          out: seq<AccountWithUsers>, u: User, a: Account)
    requires Resolved(env, accounts, users, secrets, out)
    ensures (exists i, j :: Appears(out, u, a, i, j))
            <==> && u in users && a in accounts && a.name == u.accountName
                 && a.namespace == (if u.accountNamespace == "" then u.namespace else u.accountNamespace)
                 && (forall k: nat :: !BrokenAt(env.compiles, a.userRules, k))
                 && exists k: nat :: LetsInBy(env, a, u, k)
  {
    hide Resolved, Judge, LetsInBy, Appears;
    MembershipExactly(env, accounts, users, secrets, out, u, a);
    GrantedByRules(env, a, u);
    FirstBrokenReported(env.compiles, a.userRules);
  }

  lemma {:induction false} KeptAreDistinct(env: World, accounts: seq<Account>)
    requires DistinctAccounts(accounts)
    ensures DistinctAccounts(Kept(env, accounts))
  {
    if accounts != [] {
      var front, last := accounts[..|accounts| - 1], accounts[|accounts| - 1];
      KeptAreDistinct(env, front);
      forall i | 0 <= i < |Kept(env, front)| ensures AccountKey(Kept(env, front)[i]) != AccountKey(last) {
        KeptAreListed(env, front, Kept(env, front)[i]);
      }
    }
    hide RegexesValid;
  }

  lemma DistinctUserOnce(users: seq<User>, u: User)
    requires DistinctUsers(users)
    ensures multiset(users)[u] <= 1
  {
    if u in users {
      var i :| 0 <= i < |users| && users[i] == u;
      assert users == users[..i] + [u] + users[i + 1..];
      forall k | 0 <= k < |users| && k != i ensures users[k] != u {
        assert UserKey(users[k]) != UserKey(users[i]);
      }
    }
  }

  /** A user appears at one position only. */
  lemma AppearsOnce(env: World, accounts: seq<Account>, users: seq<User>, secrets: map<Key, Stored>,
                    out: seq<AccountWithUsers>, u: User, a: Account, b: Account, i: nat, j: nat, k: nat, l: nat)
    requires Resolved(env, accounts, users, secrets, out) && DistinctAccounts(accounts) && DistinctUsers(users)
    requires Appears(out, u, a, i, j) && Appears(out, u, b, k, l)
    ensures a == b && i == k && j == l
  {
    KeptAreDistinct(env, accounts);
    var e, f := out[i].users[j], out[k].users[l];
    ListingHolds(env, a, users, secrets, out[i].users, e);
    ListingHolds(env, b, users, secrets, out[k].users, f);
    assert i == k by {
      assert AccountKey(Kept(env, accounts)[i]) == AccountKey(Kept(env, accounts)[k]);
    }
    assert e == f;
    if j != l {
      MultiplicityTwo(out[i].users, if j < l then j else l, if j < l then l else j);
      ListingMultiplicity(env, a, users, secrets, out[i].users, e);
      DistinctUserOnce(users, u);
      assert false;
    }
    hide Kept, IsListing, WithKey, Judge;
  }

  /** Every listed entry carries what its Secret holds, and no prefix exactly when isolation is off. */
  lemma ListedCredentials(env: World, specs: seq<Account>, site: Site, luck: PassLuck, was: seq<LiveUser>,
                          now: seq<LiveUser>, before: map<Key, Stored>, after: map<Key, Stored>,
                          accountsWas: seq<LiveAccount>, accountsNow: seq<LiveAccount>, out: Resolution, failed: bool,
                          i: nat, j: nat)
    requires PassDone(env, specs, |specs|, site, luck, was, now, before, after, accountsWas, accountsNow, out, failed)
    requires DistinctAccounts(specs) && i < |out.accounts| && j < |out.accounts[i].users|
    ensures var e := out.accounts[i].users[j];
            && Holds(after, e.user, Credential(e.publicKey, e.inboxPrefix))
            && (e.inboxPrefix == "" <==> e.user.insecureSharedInboxPrefix)
  {
    assert specs[..|specs|] == specs;
    var a, e := out.accounts[i].account, out.accounts[i].users[j];
    ListingHolds(env, a, UserSpecs(was), after, out.accounts[i].users, e);
    assert a in Kept(env, specs);
    KeptAreListed(env, specs, a);
    var k :| 0 <= k < |specs| && specs[k] == a;
    HomeIs(env, specs, k, e.user);
    var t :| 0 <= t < |was| && UserSpecs(was)[t] == e.user;
    assert Welcomed(env, specs, was[t].spec);
    assert Issued(after, was[t].spec);
    hide RegexesValid, Judge, Home, Kept, IsListing, EnsureSucceeds, UserConditionFailed, AccountAfterPass,
      UserAfterPass, SameSecret;
  }

  lemma {:induction false} MatchingNamesDistinct(all: seq<Account>, cluster: Key)
    requires DistinctAccounts(all)
    ensures DistinctBy(Matching(all, cluster), AccountName)
    ensures forall a <- Matching(all, cluster) :: a in all && a.namespace == cluster.namespace
                   && a.clusterRef == cluster.name
  {
    if all != [] {
      var front, last := all[..|all| - 1], all[|all| - 1];
      MatchingNamesDistinct(front, cluster);
      if last.namespace == cluster.namespace {
        forall i | 0 <= i < |Matching(front, cluster)|
          ensures AccountName(Matching(front, cluster)[i]) != AccountName(last)
        {
          var k :| 0 <= k < |front| && front[k] == Matching(front, cluster)[i];
          assert AccountKey(all[k]) != AccountKey(all[|all| - 1]);
        }
      }
    }
  }

  /**
   * No user is in the output of two clusters either, whatever the two passes met and stored: the account
   * it names belongs to one cluster.
   */
  lemma AppearsInOneCluster(envA: World, envB: World, all: seq<Account>, k: Key, l: Key, a: seq<Account>,
                            b: seq<Account>, usersA: seq<User>, usersB: seq<User>, secretsA: map<Key, Stored>,
                            secretsB: map<Key, Stored>, outA: seq<AccountWithUsers>, outB: seq<AccountWithUsers>,
                            u: User, x: Account, y: Account, i: nat, j: nat, m: nat, n: nat)
    requires DistinctAccounts(all)
    requires multiset(a) == multiset(Matching(all, k)) && Resolved(envA, a, usersA, secretsA, outA)
    requires multiset(b) == multiset(Matching(all, l)) && Resolved(envB, b, usersB, secretsB, outB)
    requires Appears(outA, u, x, i, j) && Appears(outB, u, y, m, n)
    ensures x == y && k == l
  {
    hide Resolved, Judge, RegexesValid, Matching;
    MembershipExactly(envA, a, usersA, secretsA, outA, u, x);
    MembershipExactly(envB, b, usersB, secretsB, outB, u, y);
    MatchingNamesDistinct(all, k);
    MatchingNamesDistinct(all, l);
    assert x in multiset(a) && y in multiset(b);
    var p :| 0 <= p < |all| && all[p] == x;
    var q :| 0 <= q < |all| && all[q] == y;
    assert AccountKey(all[p]) == AccountKey(all[q]);
  }

  // ---- counts ----

  ghost function WelcomedCount(env: World, accounts: seq<Account>, users: seq<User>): nat
  {
    if users == [] then 0 else
      WelcomedCount(env, accounts, users[..|users| - 1]) + if Welcomed(env, accounts, users[|users| - 1]) then 1 else 0
  }

  lemma {:induction false} WelcomedCountGrows(env: World, accounts: seq<Account>, n: nat, users: seq<User>)
    requires DistinctAccounts(accounts) && n < |accounts|
    ensures WelcomedCount(env, accounts[..n + 1], users)
            == WelcomedCount(env, accounts[..n], users)
               + if RegexesValid(env.compiles, accounts[n].userRules) then |AdmittedUsers(env, accounts[n], users)|
               else 0
  {
    if users != [] {
      WelcomedCountGrows(env, accounts, n, users[..|users| - 1]);
      HomeGrows(env, accounts, n, users[|users| - 1]);
    }
    hide Home, RegexesValid, Judge;
  }

  lemma {:induction false} NobodyWelcomed(env: World, users: seq<User>)
    ensures WelcomedCount(env, [], users) == 0
  {
    if users != [] {
      NobodyWelcomed(env, users[..|users| - 1]);
    }
  }

  lemma ResolvedPrefix(env: World, accounts: seq<Account>, n: nat, users: seq<User>, secrets: map<Key, Stored>,
                       out: seq<AccountWithUsers>)
    requires n < |accounts| && Resolved(env, accounts[..n + 1], users, secrets, out)
    ensures if RegexesValid(env.compiles, accounts[n].userRules)
            then out != [] && Resolved(env, accounts[..n], users, secrets, out[..|out| - 1])
                 && IsListing(env, accounts[n], users, secrets, out[|out| - 1].users)
            else Resolved(env, accounts[..n], users, secrets, out)
  {
    var kept := Kept(env, accounts[..n]);
    assert accounts[..n + 1][..n] == accounts[..n];
    assert Kept(env, accounts[..n + 1])
           == kept + if RegexesValid(env.compiles, accounts[n].userRules) then [accounts[n]] else [];
    hide RegexesValid, IsListing, Kept;
  }

  lemma NothingResolved(env: World, users: seq<User>, secrets: map<Key, Stored>, out: seq<AccountWithUsers>)
    requires Resolved(env, [], users, secrets, out)
    ensures out == []
  {}

  lemma {:induction false} TotalOfPrefix(env: World, accounts: seq<Account>, n: nat, users: seq<User>,
                                         secrets: map<Key, Stored>, out: seq<AccountWithUsers>)
    requires DistinctAccounts(accounts) && n <= |accounts| && Resolved(env, accounts[..n], users, secrets, out)
    ensures UserTotal(out) == WelcomedCount(env, accounts[..n], users)
  {
    hide RegexesValid, WelcomedCount, IsListing, Resolved, AdmittedUsers, DistinctAccounts;
    if n == 0 {
      assert accounts[..n] == [];
      NobodyWelcomed(env, users);
      NothingResolved(env, users, secrets, out);
    } else {
      ResolvedPrefix(env, accounts, n - 1, users, secrets, out);
      WelcomedCountGrows(env, accounts, n - 1, users);
      if RegexesValid(env.compiles, accounts[n - 1].userRules) {
        ListingSize(env, accounts[n - 1], users, secrets, out[|out| - 1].users);
        TotalOfPrefix(env, accounts, n - 1, users, secrets, out[..|out| - 1]);
      } else {
        TotalOfPrefix(env, accounts, n - 1, users, secrets, out);
      }
    }
  }

  ghost predicate DistinctAccountNames(accounts: seq<Account>)
  {
    DistinctBy(accounts, AccountName)
  }

  lemma {:induction false} KeptNamesDistinct(env: World, accounts: seq<Account>)
    requires DistinctAccountNames(accounts)
    ensures DistinctAccountNames(Kept(env, accounts))
  {
    if accounts != [] {
      var front, last := accounts[..|accounts| - 1], accounts[|accounts| - 1];
      assert DistinctBy(front, AccountName) by {
        forall i, j | 0 <= i < j < |front| ensures AccountName(front[i]) != AccountName(front[j]) {
          assert AccountName(accounts[i]) != AccountName(accounts[j]);
        }
      }
      KeptNamesDistinct(env, front);
      forall i | 0 <= i < |Kept(env, front)| ensures AccountName(Kept(env, front)[i]) != AccountName(last) {
        KeptAreListed(env, front, Kept(env, front)[i]);
        var k :| 0 <= k < |front| && front[k] == Kept(env, front)[i];
        assert AccountName(accounts[k]) != AccountName(accounts[|accounts| - 1]);
      }
    }
    hide RegexesValid;
  }

  lemma OutputNamesDistinct(env: World, accounts: seq<Account>, users: seq<User>, secrets: map<Key, Stored>,
                            out: seq<AccountWithUsers>)
    requires Resolved(env, accounts, users, secrets, out) && DistinctAccountNames(accounts)
    ensures DistinctNames(out)
  {
    KeptNamesDistinct(env, accounts);
    forall i, j | 0 <= i < j < |out| ensures out[i].account.name != out[j].account.name {
      assert AccountName(Kept(env, accounts)[i]) != AccountName(Kept(env, accounts)[j]);
    }
    hide Kept, IsListing;
  }

  /** The reported total counts every welcomed user once, and is the number of users in the config. */
  lemma TotalIsConserved(env: World, accounts: seq<Account>, users: seq<User>, secrets: map<Key, Stored>,
                         out: seq<AccountWithUsers>)
    requires DistinctAccounts(accounts) && DistinctAccountNames(accounts)
             && Resolved(env, accounts, users, secrets, out)
    ensures UserTotal(out) == WelcomedCount(env, accounts, users)
            == CountUsers(ConvertedAccounts(out).Keys, ConvertedAccounts(out))
  {
    assert accounts[..|accounts|] == accounts;
    TotalOfPrefix(env, accounts, |accounts|, users, secrets, out);
    OutputNamesDistinct(env, accounts, users, secrets, out);
    UserCountConserved(out);
    hide Resolved, ConvertedAccounts, UserTotal, WelcomedCount;
  }

  // ---- listing order ----

  lemma SameMultiset<T>(a: seq<T>, b: seq<T>)
    requires forall x :: multiset(a)[x] == multiset(b)[x]
    ensures multiset(a) == multiset(b)
  {}

  lemma ListingElements(env: World, a: Account, usersA: seq<User>, usersB: seq<User>, secrets: map<Key, Stored>,
                        listedA: seq<UserWithKey>, listedB: seq<UserWithKey>)
    requires IsListing(env, a, usersA, secrets, listedA) && IsListing(env, a, usersB, secrets, listedB)
    requires multiset(usersA) == multiset(usersB)
    ensures multiset(listedA) == multiset(listedB)
  {
    forall e: UserWithKey ensures multiset(listedA)[e] == multiset(listedB)[e] {
      ListingMultiplicity(env, a, usersA, secrets, listedA, e);
      ListingMultiplicity(env, a, usersB, secrets, listedB, e);
    }
    SameMultiset(listedA, listedB);
    hide IsListing;
  }

  /** User names are distinct within each account of the output. */
  ghost predicate NamesDistinct(out: seq<AccountWithUsers>)
  {
    forall i :: 0 <= i < |out| ==> DistinctBy(out[i].users, ListedName)
  }

  /**
   * The order in which the API lists users does not matter: as long as user names are distinct within
   * each account, the result, and so the text and its hash, is the same.
   */
  lemma UserOrderIsIrrelevant(env: World, accounts: seq<Account>, usersA: seq<User>, usersB: seq<User>,
                              secrets: map<Key, Stored>, outA: seq<AccountWithUsers>, outB: seq<AccountWithUsers>)
    requires Resolved(env, accounts, usersA, secrets, outA) && Resolved(env, accounts, usersB, secrets, outB)
    requires multiset(usersA) == multiset(usersB) && NamesDistinct(outA)
    ensures outA == outB
  {
    forall i | 0 <= i < |outA| ensures outA[i] == outB[i] {
      ListingElements(env, outA[i].account, usersA, usersB, secrets, outA[i].users, outB[i].users);
      SortedIsUnique(outA[i].users, outB[i].users, ListedName);
    }
    hide Kept, WithKeys, AdmittedUsers;
  }

  lemma {:induction false} MatchingMultiplicity(all: seq<Account>, cluster: Key, a: Account)
    ensures multiset(Matching(all, cluster))[a]
            == if a.namespace == cluster.namespace && a.clusterRef == cluster.name then multiset(all)[a] else 0
  {
    if all != [] {
      MatchingMultiplicity(all[..|all| - 1], cluster, a);
      assert all == all[..|all| - 1] + [all[|all| - 1]];
    }
  }

  /** Nor does the order in which it lists accounts, whose names are unique in the namespace. */
  lemma AccountOrderIsIrrelevant(allA: seq<Account>, allB: seq<Account>, cluster: Key, a: seq<Account>, b: seq<Account>)
    requires multiset(allA) == multiset(allB) && DistinctAccounts(allA)
    requires SortedBy(a, AccountName) && multiset(a) == multiset(Matching(allA, cluster))
    requires SortedBy(b, AccountName) && multiset(b) == multiset(Matching(allB, cluster))
    ensures a == b && DistinctAccountNames(a)
  {
    forall x: Account ensures multiset(a)[x] == multiset(b)[x] {
      MatchingMultiplicity(allA, cluster, x);
      MatchingMultiplicity(allB, cluster, x);
    }
    SameMultiset(a, b);
    MatchingNamesDistinct(allA, cluster);
    DistinctCarriesOver(Matching(allA, cluster), a, AccountName);
    SortedIsUnique(a, b, AccountName);
    hide Matching;
  }
}
