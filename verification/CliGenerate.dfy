/** cmd/cli/cmd/generate.go: the offline generator's own matching of accounts and users. */
module CliGenerate {
  import opened Text
  import opened Sorting
  import opened Api
  import opened Rules
  import opened Secrets
  import opened NatsConfig
  import opened Convert
  import opened Resolve
  import opened ResolveTheorems

  /** Files may leave namespaces out; an absent one matches any. */
  predicate AgreeOrAbsent(a: string, b: string)
  {
    a == "" || b == "" || a == b
  }

  predicate CliTakes(cluster: Key, a: Account)
  {
    a.clusterRef == cluster.name && AgreeOrAbsent(a.namespace, cluster.namespace)
  }

  predicate CliLists(a: Account, u: User)
  {
    u.accountName == a.name && AgreeOrAbsent(ReferencedAccount(u).namespace, a.namespace)
  }

  function Placeholder(u: User): UserWithKey
  {
    UserWithKey(u, "<nkey-for:" + u.name + ">", "")
  }

  function CliAccounts(cluster: Key, accounts: seq<Account>): seq<Account>
  {
    if accounts == [] then [] else
      CliAccounts(cluster, accounts[..|accounts| - 1])
      + if CliTakes(cluster, accounts[|accounts| - 1]) then [accounts[|accounts| - 1]] else []
  }

  function CliUsers(a: Account, users: seq<User>): seq<UserWithKey>
  {
    if users == [] then [] else
      CliUsers(a, users[..|users| - 1])
      + if CliLists(a, users[|users| - 1]) then [Placeholder(users[|users| - 1])] else []
  }

  /** The cluster's accounts in file order, each with its users in name order. */
  ghost predicate CliGroups(cluster: Key, accounts: seq<Account>, users: seq<User>, groups: seq<AccountWithUsers>)
  {
    && |groups| == |CliAccounts(cluster, accounts)|
    && forall i :: 0 <= i < |groups| ==>
         && groups[i].account == CliAccounts(cluster, accounts)[i]
         && SortedBy(groups[i].users, ListedName)
         && multiset(groups[i].users) == multiset(CliUsers(groups[i].account, users))
  }

  method GroupUsers(acct: Account, users: seq<User>) returns (listed: seq<UserWithKey>)
    ensures SortedBy(listed, ListedName) && multiset(listed) == multiset(CliUsers(acct, users))
  {
    listed := [];
    for j := 0 to |users|
      invariant listed == CliUsers(acct, users[..j])
    {
      assert users[..j + 1][..j] == users[..j];
      var user := users[j];
      var accountNs := user.accountNamespace;
      if accountNs == "" {
        accountNs := user.namespace;
      }
      if user.accountName != acct.name {
        continue;
      }
      if accountNs != "" && acct.namespace != "" && accountNs != acct.namespace {
        continue;
      }
      listed := listed + [Placeholder(user)];
    }
    assert users[..|users|] == users;
    listed := SortSlice(listed, ListedName);
  }

  method BuildConfigForCluster(cluster: Key, accounts: seq<Account>, users: seq<User>)
    returns (groups: seq<AccountWithUsers>, cfg: Config)
    ensures CliGroups(cluster, accounts, users, groups)
    ensures cfg.accounts == ConvertedAccounts(groups) && cfg.systemAccount == Designated(FlaggedNames(groups))
  {
    groups := [];
    for i := 0 to |accounts|
      invariant CliGroups(cluster, accounts[..i], users, groups)
    {
      assert accounts[..i + 1][..i] == accounts[..i];
      var acct := accounts[i];
      if acct.clusterRef != cluster.name {
        continue;
      }
      if acct.namespace != "" && cluster.namespace != "" && acct.namespace != cluster.namespace {
        continue;
      }
      var listed := GroupUsers(acct, users);
      groups := groups + [AccountWithUsers(acct, listed)];
    }
    assert accounts[..|accounts|] == accounts;
    cfg := ConvertToNatsConfig(groups);
  }

  // ---- against the operator ----

  ghost predicate NamespacesFilled(cluster: Key, accounts: seq<Account>, users: seq<User>)
  {
    cluster.namespace != "" && (forall a <- accounts :: a.namespace != "") && (forall u <- users :: u.namespace != "")
  }

  lemma {:induction false} SameAccounts(cluster: Key, accounts: seq<Account>)
    requires cluster.namespace != "" && forall a <- accounts :: a.namespace != ""
    ensures CliAccounts(cluster, accounts) == Matching(accounts, cluster)
  {
    if accounts != [] {
      var front, last := accounts[..|accounts| - 1], accounts[|accounts| - 1];
      assert last in accounts;
      assert forall a <- front :: a in accounts;
      SameAccounts(cluster, front);
    }
  }

  lemma {:induction false} CliMultiplicity(a: Account, users: seq<User>, e: UserWithKey)
    ensures multiset(CliUsers(a, users))[e]
            == if e == Placeholder(e.user) && CliLists(a, e.user) then multiset(users)[e.user] else 0
  {
    if users != [] {
      var front, last := users[..|users| - 1], users[|users| - 1];
      CliMultiplicity(a, front, e);
      assert users == front + [last];
      assert Placeholder(last).user == last;
    }
    hide CliLists, Placeholder;
  }

  lemma CliHolds(a: Account, users: seq<User>, listed: seq<UserWithKey>, e: UserWithKey)
    requires multiset(listed) == multiset(CliUsers(a, users))
    ensures e in listed <==> e == Placeholder(e.user) && CliLists(a, e.user) && e.user in users
  {
    CliMultiplicity(a, users, e);
    assert e in listed <==> e in multiset(listed);
    assert e.user in users <==> e.user in multiset(users);
    hide CliLists, CliUsers, Placeholder;
  }

  lemma {:induction false} CliAccountsAre(cluster: Key, accounts: seq<Account>, a: Account)
    ensures a in CliAccounts(cluster, accounts) <==> a in accounts && CliTakes(cluster, a)
  {
    if accounts != [] {
      CliAccountsAre(cluster, accounts[..|accounts| - 1], a);
      assert accounts == accounts[..|accounts| - 1] + [accounts[|accounts| - 1]];
    }
    hide CliTakes;
  }

  lemma {:induction false} MatchingAreListed(all: seq<Account>, cluster: Key, a: Account)
    requires a in Matching(all, cluster)
    ensures a in all
  {
    if a in Matching(all[..|all| - 1], cluster) {
      MatchingAreListed(all[..|all| - 1], cluster, a);
    }
    assert all == all[..|all| - 1] + [all[|all| - 1]];
  }

  lemma ReferencesIsCli(cluster: Key, accounts: seq<Account>, users: seq<User>, a: Account, u: User)
    requires NamespacesFilled(cluster, accounts, users) && a in accounts && u in users
    ensures CliLists(a, u) <==> References(u, a)
  {}

  /** A namespace left out on either side agrees with any. */
  ghost predicate NamespacesAgree(a: string, b: string)
  {
    a != "" && b != "" ==> a == b
  }

  lemma TakenExactly(cluster: Key, a: Account, u: User)
    ensures CliTakes(cluster, a) <==> a.clusterRef == cluster.name && NamespacesAgree(a.namespace, cluster.namespace)
    ensures CliLists(a, u)
            <==> && u.accountName == a.name
                 && NamespacesAgree(if u.accountNamespace == "" then u.namespace else u.accountNamespace, a.namespace)
  {}

  lemma GroupedEntry(cluster: Key, accounts: seq<Account>, users: seq<User>, groups: seq<AccountWithUsers>, u: User,
                     a: Account, i: nat, j: nat)
    requires CliGroups(cluster, accounts, users, groups) && Appears(groups, u, a, i, j)
    ensures u in users && CliLists(a, u) && a in accounts && CliTakes(cluster, a)
    ensures i < |groups| && j < |groups[i].users| && groups[i].users[j] == Placeholder(u)
  {
    assert groups[i].account in CliAccounts(cluster, accounts);
    CliAccountsAre(cluster, accounts, a);
    CliHolds(a, users, groups[i].users, groups[i].users[j]);
    hide CliUsers, CliAccounts, CliLists, CliTakes;
  }

  lemma GroupedIfTaken(cluster: Key, accounts: seq<Account>, users: seq<User>, groups: seq<AccountWithUsers>, u: User,
                       a: Account)
    requires CliGroups(cluster, accounts, users, groups)
    requires u in users && CliLists(a, u) && a in accounts && CliTakes(cluster, a)
    ensures exists i: nat, j: nat :: Appears(groups, u, a, i, j)
  {
    CliAccountsAre(cluster, accounts, a);
    var i: nat :| i < |groups| && CliAccounts(cluster, accounts)[i] == a;
    hide CliUsers, CliAccounts, CliLists, CliTakes;
    CliHolds(a, users, groups[i].users, Placeholder(u));
    var j: nat :| j < |groups[i].users| && groups[i].users[j] == Placeholder(u);
    assert Appears(groups, u, a, i, j);
  }

  /** Whatever namespaces are given, a user is listed exactly if the names match and no two namespaces differ. */
  lemma GroupedExactly(cluster: Key, accounts: seq<Account>, users: seq<User>, groups: seq<AccountWithUsers>, u: User,
                       a: Account)
    requires CliGroups(cluster, accounts, users, groups)
    ensures (exists i: nat, j: nat :: Appears(groups, u, a, i, j))
            <==> && u in users && a in accounts && a.clusterRef == cluster.name && u.accountName == a.name
                 && NamespacesAgree(a.namespace, cluster.namespace)
                 && NamespacesAgree(if u.accountNamespace == "" then u.namespace else u.accountNamespace, a.namespace)
    ensures forall i: nat, j: nat :: Appears(groups, u, a, i, j) ==>
                                       groups[i].users[j] == UserWithKey(u, "<nkey-for:" + u.name + ">", "")
  {
    TakenExactly(cluster, a, u);
    hide CliGroups, CliLists, CliTakes, Appears, NamespacesAgree;
    forall i: nat, j: nat | Appears(groups, u, a, i, j)
      ensures u in users && CliLists(a, u) && a in accounts && CliTakes(cluster, a)
      ensures i < |groups| && j < |groups[i].users| && groups[i].users[j] == Placeholder(u)
    {
      GroupedEntry(cluster, accounts, users, groups, u, a, i, j);
    }
    if u in users && CliLists(a, u) && a in accounts && CliTakes(cluster, a) {
      GroupedIfTaken(cluster, accounts, users, groups, u, a);
    }
  }

  /** With namespaces given, the generator lists a user under an account exactly when it references it. */
  lemma GeneratedExactly(cluster: Key, accounts: seq<Account>, users: seq<User>, groups: seq<AccountWithUsers>, u: User,
                         a: Account)
    requires CliGroups(cluster, accounts, users, groups) && NamespacesFilled(cluster, accounts, users)
    ensures (exists i, j :: Appears(groups, u, a, i, j))
            <==> u in users && a in Matching(accounts, cluster) && References(u, a)
  {
    SameAccounts(cluster, accounts);
    if i: nat, j: nat :| Appears(groups, u, a, i, j) {
      assert groups[i].account in CliAccounts(cluster, accounts);
      CliHolds(a, users, groups[i].users, groups[i].users[j]);
      MatchingAreListed(accounts, cluster, a);
      ReferencesIsCli(cluster, accounts, users, a, u);
    }
    if u in users && a in Matching(accounts, cluster) && References(u, a) {
      var i :| 0 <= i < |groups| && CliAccounts(cluster, accounts)[i] == a;
      MatchingAreListed(accounts, cluster, a);
      ReferencesIsCli(cluster, accounts, users, a, u);
      CliHolds(a, users, groups[i].users, Placeholder(u));
      var j :| 0 <= j < |groups[i].users| && groups[i].users[j] == Placeholder(u);
      assert Appears(groups, u, a, i, j);
    }
    hide References, CliLists, CliUsers, Matching, CliAccounts;
  }

  /** The operator emits exactly those generated pairs whose account is processed and whose rules grant. */
  lemma OperatorEmitsGenerated(env: World, cluster: Key, all: seq<Account>, accounts: seq<Account>, users: seq<User>,
                               secrets: map<Key, Stored>, out: seq<AccountWithUsers>, groups: seq<AccountWithUsers>,
                               u: User, a: Account)
    requires multiset(accounts) == multiset(Matching(all, cluster)) && Resolved(env, accounts, users, secrets, out)
    requires CliGroups(cluster, all, users, groups) && NamespacesFilled(cluster, all, users)
    ensures (exists i, j :: Appears(out, u, a, i, j))
            <==> && (exists i, j :: Appears(groups, u, a, i, j))
                 && RegexesValid(env.compiles, a.userRules) && Judge(env, a, u) == Granted
  {
    hide Resolved, CliGroups, NamespacesFilled, References, Judge, RegexesValid, Matching;
    MembershipExactly(env, accounts, users, secrets, out, u, a);
    GeneratedExactly(cluster, all, users, groups, u, a);
    assert a in accounts <==> a in multiset(accounts);
    assert a in Matching(all, cluster) <==> a in multiset(Matching(all, cluster));
  }

  // ---- when nothing is refused ----

  function UsersOf(listed: seq<UserWithKey>): seq<User>
  {
    seq(|listed|, i requires 0 <= i < |listed| => listed[i].user)
  }

  ghost predicate NothingRefused(env: World, accounts: seq<Account>, users: seq<User>)
  {
    forall a <- accounts ::
      && RegexesValid(env.compiles, a.userRules)
      && forall u <- users :: References(u, a) ==> Judge(env, a, u) == Granted
  }

  lemma {:induction false} AllAdmitted(env: World, cluster: Key, all: seq<Account>, a: Account, users: seq<User>)
    requires NamespacesFilled(cluster, all, users) && a in all
    requires forall u <- users :: References(u, a) ==> Admits(env, a, u)
    ensures UsersOf(CliUsers(a, users)) == AdmittedUsers(env, a, users)
  {
    if users != [] {
      var front, last := users[..|users| - 1], users[|users| - 1];
      assert last in users;
      assert forall u <- front :: u in users;
      AllAdmitted(env, cluster, all, a, front);
      ReferencesIsCli(cluster, all, users, a, last);
      assert UsersOf(CliUsers(a, front) + [Placeholder(last)]) == UsersOf(CliUsers(a, front)) + [last];
    }
    hide Judge, CliLists;
  }

  function Without<T>(s: seq<T>, i: nat): seq<T>
    requires i < |s|
  {
    s[..i] + s[i + 1..]
  }

  lemma WithoutOne(s: seq<UserWithKey>, i: nat)
    requires i < |s|
    ensures multiset(Without(s, i)) == multiset(s) - multiset{s[i]}
    ensures multiset(UsersOf(s)) == multiset(UsersOf(Without(s, i))) + multiset{s[i].user}
  {
    assert s == s[..i] + [s[i]] + s[i + 1..];
    assert UsersOf(s) == UsersOf(s[..i]) + [s[i].user] + UsersOf(s[i + 1..]);
    assert UsersOf(Without(s, i)) == UsersOf(s[..i]) + UsersOf(s[i + 1..]);
  }

  lemma {:induction false} UsersOfMultiset(s: seq<UserWithKey>, t: seq<UserWithKey>)
    requires multiset(s) == multiset(t)
    ensures multiset(UsersOf(s)) == multiset(UsersOf(t))
    decreases |s|
  {
    assert |multiset(s)| == |s| && |multiset(t)| == |t|;
    if s != [] {
      assert s[0] in multiset(t);
      var i :| 0 <= i < |t| && t[i] == s[0];
      WithoutOne(s, 0);
      WithoutOne(t, i);
      hide UsersOf;
      UsersOfMultiset(Without(s, 0), Without(t, i));
    }
  }

  lemma UsersOfWithKeys(secrets: map<Key, Stored>, us: seq<User>)
    ensures UsersOf(WithKeys(secrets, us)) == us
  {}

  lemma SortedUsers(listed: seq<UserWithKey>)
    requires SortedBy(listed, ListedName)
    ensures SortedBy(UsersOf(listed), UserName)
  {
    forall i, j | 0 <= i < j < |listed| ensures Le(UserName(UsersOf(listed)[i]), UserName(UsersOf(listed)[j])) {
      assert Le(ListedName(listed[i]), ListedName(listed[j]));
    }
  }

  /**
   * When every account's rules are valid and admit everyone, operator and generator put the same users
   * under each account; in the same order if their names are distinct.
   */
  lemma GroupingsCoincide(env: World, cluster: Key, all: seq<Account>, accounts: seq<Account>, users: seq<User>,
                          secrets: map<Key, Stored>, out: seq<AccountWithUsers>, groups: seq<AccountWithUsers>, i: nat,
                          k: nat)
    requires multiset(accounts) == multiset(Matching(all, cluster)) && Resolved(env, accounts, users, secrets, out)
    requires CliGroups(cluster, all, users, groups) && NamespacesFilled(cluster, all, users)
    requires NothingRefused(env, all, users)
    requires i < |out| && k < |groups| && out[i].account == groups[k].account
    ensures multiset(UsersOf(out[i].users)) == multiset(UsersOf(groups[k].users))
    ensures DistinctBy(UsersOf(out[i].users), UserName) ==> UsersOf(out[i].users) == UsersOf(groups[k].users)
  {
    var a := out[i].account;
    SameAccounts(cluster, all);
    assert a in Matching(all, cluster);
    MatchingAreListed(all, cluster, a);
    AllAdmitted(env, cluster, all, a, users);
    UsersOfMultiset(out[i].users, WithKeys(secrets, AdmittedUsers(env, a, users)));
    UsersOfMultiset(groups[k].users, CliUsers(a, users));
    UsersOfWithKeys(secrets, AdmittedUsers(env, a, users));
    SortedUsers(out[i].users);
    SortedUsers(groups[k].users);
    if DistinctBy(UsersOf(out[i].users), UserName) {
      SortedIsUnique(UsersOf(out[i].users), UsersOf(groups[k].users), UserName);
    }
    hide UsersOf, WithKeys, AdmittedUsers, CliUsers, Matching, CliAccounts, Kept, Judge, RegexesValid;
  }

  /** And no account of the cluster is missing on either side. */
  lemma AccountsCoincide(env: World, cluster: Key, all: seq<Account>, accounts: seq<Account>, users: seq<User>,
                         secrets: map<Key, Stored>, out: seq<AccountWithUsers>, groups: seq<AccountWithUsers>,
                         a: Account)
    requires multiset(accounts) == multiset(Matching(all, cluster)) && Resolved(env, accounts, users, secrets, out)
    requires CliGroups(cluster, all, users, groups) && NamespacesFilled(cluster, all, users)
    requires NothingRefused(env, all, users)
    ensures (exists i :: 0 <= i < |out| && out[i].account == a)
            <==> exists k :: 0 <= k < |groups| && groups[k].account == a
  {
    SameAccounts(cluster, all);
    KeptAreListed(env, accounts, a);
    assert a in accounts <==> a in multiset(accounts);
    assert a in Matching(all, cluster) <==> a in multiset(Matching(all, cluster));
    if a in Matching(all, cluster) {
      MatchingAreListed(all, cluster, a);
    }
    assert a in Kept(env, accounts) <==> exists i :: 0 <= i < |out| && out[i].account == a;
    assert a in CliAccounts(cluster, all) <==> exists k :: 0 <= k < |groups| && groups[k].account == a;
    hide Kept, CliAccounts, Matching, RegexesValid, Judge, IsListing, CliUsers;
  }
}
