/**
 * internal/controller/natscluster_controller.go: which accounts belong to a cluster, which users belong
 * to each account, and the credentials they get (listMatchingAccounts, reconcileAccountsAndUsers).
 */
module Resolve {
  import opened Text
  import opened Sorting
  import opened Api
  import opened Rules
  import opened Secrets
  import opened Convert

  /** What the cluster object contributes to the statuses: external URLs, and debug commands if it has a serverRef. */
  datatype Links = Links(connectionURLs: seq<string>, userCommand: Option<string -> string>,
                         accountCommand: Option<string -> string>)

  /** What a pass stamps on users: the designated system account, and the links. */
  datatype Site = Site(systemAccount: string, links: Links)

  /** The luck of each user's credential call, and of the condition writes. */
  datatype PassLuck = PassLuck(ensure: nat -> Luck, userConditionFails: nat -> bool, accountConditionFails: nat -> bool)

  datatype Visit = Passed | Listed(entry: UserWithKey) | Aborted

  datatype Resolution = Resolution(accounts: seq<AccountWithUsers>, totalUsers: nat)

  function AccountName(a: Account): string
  {
    a.name
  }

  function ListedName(u: UserWithKey): string
  {
    u.user.name
  }

  // ---- listMatchingAccounts ----

  function Matching(all: seq<Account>, cluster: Key): seq<Account>
  {
    if all == [] then [] else
      var a := all[|all| - 1];
      Matching(all[..|all| - 1], cluster)
      + if a.namespace == cluster.namespace && a.clusterRef == cluster.name then [a] else []
  }

  method ListMatchingAccounts(all: seq<Account>, cluster: Key) returns (matching: seq<Account>)
    ensures SortedBy(matching, AccountName) && multiset(matching) == multiset(Matching(all, cluster))
  {
    matching := [];
    for i := 0 to |all|
      invariant matching == Matching(all[..i], cluster)
    {
      assert all[..i + 1][..i] == all[..i];
      if all[i].namespace == cluster.namespace && all[i].clusterRef == cluster.name {
        matching := matching + [all[i]];
      }
    }
    assert all[..|all|] == all;
    matching := SortSlice(matching, AccountName);
  }

  // ---- who belongs where ----

  predicate Admits(env: World, a: Account, u: User)
  {
    References(u, a) && Judge(env, a, u) == Granted
  }

  /** The accounts that are not skipped. */
  function Kept(env: World, accounts: seq<Account>): seq<Account>
  {
    if accounts == [] then [] else
      Kept(env, accounts[..|accounts| - 1])
      + if RegexesValid(env.compiles, accounts[|accounts| - 1].userRules) then [accounts[|accounts| - 1]] else []
  }

  function AdmittedUsers(env: World, a: Account, users: seq<User>): seq<User>
  {
    if users == [] then [] else
      AdmittedUsers(env, a, users[..|users| - 1])
      + if Admits(env, a, users[|users| - 1]) then [users[|users| - 1]] else []
  }

  function WithKey(secrets: map<Key, Stored>, u: User): UserWithKey
  {
    var data := match Lookup(secrets, SecretKey(u)) {
                  case None => map[]
                  case Some(s) => s.data
                };
    UserWithKey(u, Value(data, PUBLIC), Value(data, PREFIX))
  }

  function WithKeys(secrets: map<Key, Stored>, us: seq<User>): seq<UserWithKey>
  {
    seq(|us|, i requires 0 <= i < |us| => WithKey(secrets, us[i]))
  }

  /** The non-skipped account a user names. */
  function Home(env: World, accounts: seq<Account>, u: User): Option<Account>
  {
    if accounts == [] then None
    else if RegexesValid(env.compiles, accounts[|accounts| - 1].userRules)
            && References(u, accounts[|accounts| - 1]) then
      Some(accounts[|accounts| - 1])
    else Home(env, accounts[..|accounts| - 1], u)
  }

  function AccountSpecs(accounts: seq<LiveAccount>): seq<Account>
  {
    seq(|accounts|, i requires 0 <= i < |accounts| => accounts[i].spec)
  }

  function UserSpecs(users: seq<LiveUser>): seq<User>
  {
    seq(|users|, i requires 0 <= i < |users| => users[i].spec)
  }

  /** The names of all flagged accounts, skipped ones included. */
  function AllFlagged(accounts: seq<Account>): seq<string>
  {
    if accounts == [] then [] else
      AllFlagged(accounts[..|accounts| - 1])
      + if accounts[|accounts| - 1].systemAccount then [accounts[|accounts| - 1].name] else []
  }

  /** The debug command is left as it was for a cluster without serverRef. */
  function Command(command: Option<string -> string>, subject: string, before: string): string
  {
    match command
    case None => before
    case Some(f) => f(subject)
  }

  /** The status of an admitted user. */
  function GrantedStatus(a: Account, site: Site, secrets: map<Key, Stored>, u: LiveUser): UserStatus
  {
    var publicKey := WithKey(secrets, u.spec).publicKey;
    UserStatus(publicKey, Some(SecretName(u.spec)), Command(site.links.userCommand, publicKey, u.status.debugCommand),
               site.links.connectionURLs, site.systemAccount != "" && a.name == site.systemAccount,
               Some(Reconciled(u.spec.generation)))
  }

  /** A user after its account was processed. */
  function Settled(env: World, a: Account, site: Site, secrets: map<Key, Stored>, u: LiveUser): LiveUser
  {
    if !References(u.spec, a) then u else
      match Judge(env, a, u.spec)
      case Granted => u.(status := GrantedStatus(a, site, secrets, u))
      case Denied =>
        u.(status := u.status.(ready := Some(NamespaceNotAllowed(u.spec.generation, u.spec.namespace, a.name))))
      case Failed(text) =>
        u.(status := u.status.(ready := Some(NamespaceFetchError(u.spec.generation, u.spec.namespace, text))))
  }

  predicate EnsureSucceeds(secrets: map<Key, Stored>, u: LiveUser, luck: Luck)
  {
    !luck.getFails && Reply(secrets, Lookup(secrets, SecretKey(u.spec)), u, luck).Some?
  }

  /** Only the user's own Secret matters to its call. */
  lemma EnsureIsLocal(before: map<Key, Stored>, after: map<Key, Stored>, u: LiveUser, luck: Luck)
    requires Lookup(before, SecretKey(u.spec)) == Lookup(after, SecretKey(u.spec))
    ensures EnsureSucceeds(before, u, luck) == EnsureSucceeds(after, u, luck)
    ensures WithKey(before, u.spec) == WithKey(after, u.spec)
  {
    hide Desired, SecretName;
  }

  /** No Secret disappears and no key pair changes. */
  ghost predicate KeyPairsKept(before: map<Key, Stored>, after: map<Key, Stored>)
  {
    forall k <- before :: k in after && SameKeyPair(before[k].data, after[k].data)
  }

  ghost predicate DistinctUsers(us: seq<User>)
  {
    forall i, j :: 0 <= i < j < |us| ==> UserKey(us[i]) != UserKey(us[j])
  }

  ghost predicate DistinctAccounts(accounts: seq<Account>)
  {
    forall i, j :: 0 <= i < j < |accounts| ==> AccountKey(accounts[i]) != AccountKey(accounts[j])
  }

  /** The list holds the admitted users with their stored credentials, in name order. */
  ghost predicate IsListing(env: World, a: Account, users: seq<User>, secrets: map<Key, Stored>,
                            listed: seq<UserWithKey>)
  {
    && SortedBy(listed, ListedName)
    && multiset(listed) == multiset(WithKeys(secrets, AdmittedUsers(env, a, users)))
  }

  /** The user has a Secret, whose prefix is empty exactly when isolation is off. */
  predicate Issued(secrets: map<Key, Stored>, u: User)
  {
    SecretKey(u) in secrets && (WithKey(secrets, u).inboxPrefix == "" <==> u.insecureSharedInboxPrefix)
  }

  /** The two stores agree on the user's Secret. */
  predicate SameSecret(before: map<Key, Stored>, after: map<Key, Stored>, u: User)
  {
    Lookup(before, SecretKey(u)) == Lookup(after, SecretKey(u))
  }

  // ---- reconcileAccountsAndUsers ----

  /** The body of the user loop. */
  method VisitUser(env: World, acct: Account, site: Site, users: array<LiveUser>, j: nat,
                   manager: NKeySecretManager, luck: PassLuck)
    returns (r: Visit, statusUpdateFailed: bool)
    requires j < users.Length
    modifies manager, users
    ensures r.Aborted? <==> Admits(env, acct, old(users[j]).spec)
                            && !EnsureSucceeds(old(manager.secrets), old(users[j]), luck.ensure(j))
    ensures r.Listed? <==> Admits(env, acct, old(users[j]).spec)
                           && EnsureSucceeds(old(manager.secrets), old(users[j]), luck.ensure(j))
    ensures r.Listed? ==> r.entry == WithKey(manager.secrets, old(users[j]).spec)
                          && Issued(manager.secrets, old(users[j]).spec)
    ensures !r.Aborted? ==> users[..] == old(users[..])[j := Settled(env, acct, site, manager.secrets, old(users[j]))]
    ensures UserSpecs(users[..]) == UserSpecs(old(users[..]))
    ensures forall k :: (k != SecretKey(old(users[j]).spec) || !Admits(env, acct, old(users[j]).spec)) ==>
                          Lookup(manager.secrets, k) == Lookup(old(manager.secrets), k)
    ensures KeyPairsKept(old(manager.secrets), manager.secrets)
    ensures statusUpdateFailed <==> !r.Aborted? && References(old(users[j]).spec, acct) && luck.userConditionFails(j)
  {
    hide Desired, Writes, WriteConfirmed, Judge, SecretName, Accepted, Provides;
    ghost var before := manager.secrets;
    var spec := users[j].spec;
    if !References(spec, acct) {
      return Passed, false;
    }
    var verdict := Judge(env, acct, spec);
    if verdict.Failed? {
      var condition := NamespaceFetchError(spec.generation, spec.namespace, verdict.text);
      users[j] := users[j].(status := users[j].status.(ready := Some(condition)));
      return Passed, luck.userConditionFails(j);
    }
    if verdict != Granted {
      var condition := NamespaceNotAllowed(spec.generation, spec.namespace, acct.name);
      users[j] := users[j].(status := users[j].status.(ready := Some(condition)));
      return Passed, luck.userConditionFails(j);
    }
    ReplyIsStored(manager.secrets, manager.version, users[j], luck.ensure(j));
    forall k {
      CommitIsLocal(before, manager.version, Lookup(before, SecretKey(spec)), spec, luck.ensure(j), k);
    }
    hide Commit, Reply, UserAfter;
    var credential := manager.EnsureNKeySecret(users, j, luck.ensure(j));
    if credential.None? {
      return Aborted, false;
    }
    var c := credential.value;
    var status := users[j].status.(connectionURLs := site.links.connectionURLs);
    if site.links.userCommand.Some? {
      status := status.(debugCommand := site.links.userCommand.value(c.publicKey));
    }
    status := status.(isSystemAccount := site.systemAccount != "" && acct.name == site.systemAccount);
    users[j] := users[j].(status := status.(ready := Some(Reconciled(spec.generation))));
    return Listed(UserWithKey(spec, c.publicKey, c.inboxPrefix)), luck.userConditionFails(j);
  }

  /** Only the Secrets of users this account admits were written. */
  ghost predicate OnlyAdmittedTouched(env: World, a: Account, users: seq<User>, before: map<Key, Stored>,
                                      after: map<Key, Stored>)
  {
    forall k :: Lookup(after, k) != Lookup(before, k) ==> exists u <- users :: Admits(env, a, u) && SecretKey(u) == k
  }

  lemma TouchOne(env: World, a: Account, users: seq<User>, u: User, before: map<Key, Stored>, mid: map<Key, Stored>,
                 after: map<Key, Stored>)
    requires OnlyAdmittedTouched(env, a, users, before, mid) && u in users
    requires forall k :: (k != SecretKey(u) || !Admits(env, a, u)) ==> Lookup(after, k) == Lookup(mid, k)
    ensures OnlyAdmittedTouched(env, a, users, before, after)
  {
    hide Admits, SecretName, Lookup;
  }

  lemma OneVisitIsLocal(before: map<Key, Stored>, after: map<Key, Stored>, u: User, other: User)
    requires UserKey(u) != UserKey(other)
    requires forall k :: k != SecretKey(u) ==> Lookup(after, k) == Lookup(before, k)
    ensures SameSecret(before, after, other)
  {
    SecretKeysDiffer(u, other);
  }

  lemma SettledIsLocal(env: World, a: Account, site: Site, before: map<Key, Stored>, after: map<Key, Stored>,
                       u: LiveUser)
    requires SameSecret(before, after, u.spec)
    ensures Settled(env, a, site, before, u) == Settled(env, a, site, after, u)
    ensures Issued(before, u.spec) == Issued(after, u.spec)
  {
    hide Judge, SecretName;
  }

  lemma {:induction false} AdmittedAreUsers(env: World, a: Account, users: seq<User>, u: User)
    ensures u in AdmittedUsers(env, a, users) <==> u in users && Admits(env, a, u)
  {
    if users != [] {
      var front, last := users[..|users| - 1], users[|users| - 1];
      assert users == front + [last];
      AdmittedAreUsers(env, a, front, u);
    }
    hide Admits;
  }

  lemma WithKeysAreLocal(env: World, a: Account, users: seq<User>, before: map<Key, Stored>, after: map<Key, Stored>)
    requires forall t :: 0 <= t < |users| && Admits(env, a, users[t]) ==> SameSecret(before, after, users[t])
    ensures WithKeys(before, AdmittedUsers(env, a, users)) == WithKeys(after, AdmittedUsers(env, a, users))
  {
    var admitted := AdmittedUsers(env, a, users);
    forall i | 0 <= i < |admitted| ensures WithKey(before, admitted[i]) == WithKey(after, admitted[i]) {
      AdmittedAreUsers(env, a, users, admitted[i]);
      var t :| 0 <= t < |users| && users[t] == admitted[i];
      assert SameSecret(before, after, users[t]);
    }
    hide Admits, SecretName;
  }

  /** What the user loop has done after n users. */
  ghost predicate UsersDone(env: World, a: Account, site: Site, luck: PassLuck, was: seq<LiveUser>, now: seq<LiveUser>,
                            before: map<Key, Stored>, after: map<Key, Stored>, n: nat)
  {
    && |was| == |now| && n <= |was|
    && (forall t :: 0 <= t < n ==> now[t] == Settled(env, a, site, after, was[t]))
    && (forall t :: n <= t < |was| ==> now[t] == was[t])
    && (forall t :: 0 <= t < |was| && (t >= n || !Admits(env, a, was[t].spec)) ==>
        SameSecret(before, after, was[t].spec))
    && (forall t :: 0 <= t < n && Admits(env, a, was[t].spec) ==>
          EnsureSucceeds(before, was[t], luck.ensure(t)) && Issued(after, was[t].spec))
  }

  lemma UserVisited(env: World, a: Account, site: Site, luck: PassLuck, was: seq<LiveUser>, now: seq<LiveUser>,
                    next: seq<LiveUser>, before: map<Key, Stored>, mid: map<Key, Stored>, after: map<Key, Stored>,
                    n: nat)
    requires UsersDone(env, a, site, luck, was, now, before, mid, n) && n < |was| && DistinctUsers(UserSpecs(was))
    requires Admits(env, a, was[n].spec) ==> EnsureSucceeds(mid, was[n], luck.ensure(n)) && Issued(after, was[n].spec)
    requires next == now[n := Settled(env, a, site, after, was[n])]
    requires forall k :: (k != SecretKey(was[n].spec) || !Admits(env, a, was[n].spec)) ==>
                    Lookup(after, k) == Lookup(mid, k)
    ensures UsersDone(env, a, site, luck, was, next, before, after, n + 1)
    ensures forall t :: 0 <= t < |was| && t != n ==> SameSecret(mid, after, was[t].spec)
  {
    hide Admits, EnsureSucceeds, Settled, Issued, SecretName;
    forall t | 0 <= t < |was| && t != n ensures SameSecret(mid, after, was[t].spec) {
      assert UserKey(UserSpecs(was)[t]) != UserKey(UserSpecs(was)[n]);
      OneVisitIsLocal(mid, after, was[n].spec, was[t].spec);
    }
    EnsureIsLocal(before, mid, was[n], luck.ensure(n));
    forall t | 0 <= t < n {
      SettledIsLocal(env, a, site, mid, after, was[t]);
    }
  }

  lemma UserPending(env: World, a: Account, site: Site, luck: PassLuck, was: seq<LiveUser>, now: seq<LiveUser>,
                    before: map<Key, Stored>, mid: map<Key, Stored>, n: nat)
    requires UsersDone(env, a, site, luck, was, now, before, mid, n)
    ensures forall t :: 0 <= t < n && Admits(env, a, was[t].spec) ==> EnsureSucceeds(before, was[t], luck.ensure(t))
    ensures n < |was| ==>
              && now[n] == was[n]
              && EnsureSucceeds(before, was[n], luck.ensure(n)) == EnsureSucceeds(mid, was[n], luck.ensure(n))
  {
    if n < |was| {
      EnsureIsLocal(before, mid, was[n], luck.ensure(n));
    }
    hide Admits, EnsureSucceeds, Settled, Issued, SecretName;
  }

  lemma NoUserVisited(env: World, a: Account, site: Site, luck: PassLuck, was: seq<LiveUser>, secrets: map<Key, Stored>)
    ensures UsersDone(env, a, site, luck, was, was, secrets, secrets, 0)
    ensures WithKeys(secrets, AdmittedUsers(env, a, [])) == []
    ensures OnlyAdmittedTouched(env, a, UserSpecs(was), secrets, secrets)
  {}

  lemma OneMoreAdmitted(env: World, a: Account, us: seq<User>, j: nat, secrets: map<Key, Stored>)
    requires j < |us|
    ensures WithKeys(secrets, AdmittedUsers(env, a, us[..j + 1]))
            == WithKeys(secrets, AdmittedUsers(env, a, us[..j]))
               + if Admits(env, a, us[j]) then [WithKey(secrets, us[j])] else []
  {
    assert us[..j + 1][..j] == us[..j];
    hide Admits, WithKey;
  }

  /** The user loop for one account, and the sort after it; None when a credential call failed. */
  method MatchUsers(env: World, acct: Account, site: Site, users: array<LiveUser>, manager: NKeySecretManager,
                    luck: PassLuck)
    returns (listed: Option<seq<UserWithKey>>, statusUpdateFailed: bool)
    requires DistinctUsers(UserSpecs(users[..]))
    modifies manager, users
    ensures UserSpecs(users[..]) == UserSpecs(old(users[..])) && KeyPairsKept(old(manager.secrets), manager.secrets)
    ensures OnlyAdmittedTouched(env, acct, UserSpecs(users[..]), old(manager.secrets), manager.secrets)
    ensures listed.Some? <==> forall j :: 0 <= j < users.Length && Admits(env, acct, old(users[j]).spec) ==>
                                            EnsureSucceeds(old(manager.secrets), old(users[j]), luck.ensure(j))
    ensures listed.Some? ==>
              && IsListing(env, acct, UserSpecs(users[..]), manager.secrets, listed.value)
              && UsersDone(env, acct, site, luck, old(users[..]), users[..], old(manager.secrets), manager.secrets,
                           users.Length)
              && (statusUpdateFailed <==>
                    exists j :: 0 <= j < users.Length && References(old(users[j]).spec, acct)
                           && luck.userConditionFails(j))
  {
    hide Admits, EnsureSucceeds, Settled, Issued, SecretName, References, WithKey, UsersDone, AdmittedUsers,
      OnlyAdmittedTouched;
    ghost var was, before := users[..], manager.secrets;
    var usersWithKeys: seq<UserWithKey> := [];
    statusUpdateFailed := false;
    NoUserVisited(env, acct, site, luck, was, before);
    assert UserSpecs(was)[..0] == [];
    for j := 0 to users.Length
      invariant UserSpecs(users[..]) == UserSpecs(was) && KeyPairsKept(before, manager.secrets)
      invariant OnlyAdmittedTouched(env, acct, UserSpecs(was), before, manager.secrets)
      invariant UsersDone(env, acct, site, luck, was, users[..], before, manager.secrets, j)
      invariant usersWithKeys == WithKeys(manager.secrets, AdmittedUsers(env, acct, UserSpecs(was)[..j]))
      invariant statusUpdateFailed
                <==> exists t :: 0 <= t < j && References(was[t].spec, acct) && luck.userConditionFails(t)
    {
      ghost var now, mid := users[..], manager.secrets;
      UserPending(env, acct, site, luck, was, now, before, mid, j);
      var r, failed := VisitUser(env, acct, site, users, j, manager, luck);
      assert UserSpecs(was)[j] == was[j].spec;
      TouchOne(env, acct, UserSpecs(was), was[j].spec, before, mid, manager.secrets);
      if r.Aborted? {
        return None, statusUpdateFailed;
      }
      UserVisited(env, acct, site, luck, was, now, users[..], before, mid, manager.secrets, j);
      statusUpdateFailed := statusUpdateFailed || failed;
      WithKeysAreLocal(env, acct, UserSpecs(was)[..j], mid, manager.secrets);
      OneMoreAdmitted(env, acct, UserSpecs(was), j, manager.secrets);
      if r.Listed? {
        usersWithKeys := usersWithKeys + [r.entry];
      }
    }
    UserPending(env, acct, site, luck, was, users[..], before, manager.secrets, users.Length);
    assert UserSpecs(was)[..users.Length] == UserSpecs(was);
    usersWithKeys := SortSlice(usersWithKeys, ListedName);
    return Some(usersWithKeys), statusUpdateFailed;
  }

  // ---- all accounts ----

  /** What a pass over these accounts stamps. */
  function SiteOf(accounts: seq<Account>, links: Links): Site
  {
    Site(Designated(AllFlagged(accounts)), links)
  }

  /** A user whose account is processed and whose rules grant. */
  ghost predicate Welcomed(env: World, accounts: seq<Account>, u: User)
  {
    Home(env, accounts, u).Some? && Admits(env, Home(env, accounts, u).value, u)
  }

  ghost function UserAfterPass(env: World, accounts: seq<Account>, site: Site, secrets: map<Key, Stored>,
                               u: LiveUser): LiveUser
  {
    match Home(env, accounts, u.spec)
    case None => u
    case Some(a) => Settled(env, a, site, secrets, u)
  }

  function SkippedAccount(a: LiveAccount, pattern: string): LiveAccount
  {
    a.(status := a.status.(ready := Some(InvalidRegex(a.spec.generation, pattern))))
  }

  function KeptAccount(links: Links, a: LiveAccount, users: nat): LiveAccount
  {
    a.(status := AccountStatus(users, Command(links.accountCommand, a.spec.name, a.status.debugCommand),
                               Some(Reconciled(a.spec.generation))))
  }

  function AccountAfterPass(env: World, links: Links, users: seq<User>, a: LiveAccount): LiveAccount
  {
    match ValidateRegexRules(env.compiles, a.spec.userRules)
    case Some(pattern) => SkippedAccount(a, pattern)
    case None => KeptAccount(links, a, |AdmittedUsers(env, a.spec, users)|)
  }

  /** What a successful pass hands to the converter. */
  ghost predicate Resolved(env: World, accounts: seq<Account>, users: seq<User>, secrets: map<Key, Stored>,
                           out: seq<AccountWithUsers>)
  {
    && |out| == |Kept(env, accounts)|
    && forall i :: 0 <= i < |out| ==>
         out[i].account == Kept(env, accounts)[i] && IsListing(env, out[i].account, users, secrets, out[i].users)
  }

  ghost predicate AccountsDone(env: World, accounts: seq<Account>, site: Site, luck: PassLuck, was: seq<LiveUser>,
                               now: seq<LiveUser>, before: map<Key, Stored>, after: map<Key, Stored>)
  {
    && |was| == |now|
    && (forall t :: 0 <= t < |was| ==> now[t] == UserAfterPass(env, accounts, site, after, was[t]))
    && (forall t :: 0 <= t < |was| && !Welcomed(env, accounts, was[t].spec) ==> SameSecret(before, after, was[t].spec))
    && (forall t :: 0 <= t < |was| && Welcomed(env, accounts, was[t].spec) ==>
          EnsureSucceeds(before, was[t], luck.ensure(t)) && Issued(after, was[t].spec))
  }

  lemma {:induction false} HomeIsListed(env: World, accounts: seq<Account>, u: User)
    requires Home(env, accounts, u).Some?
    ensures var a := Home(env, accounts, u).value;
            a in accounts && References(u, a) && RegexesValid(env.compiles, a.userRules)
  {
    var front, last := accounts[..|accounts| - 1], accounts[|accounts| - 1];
    if !(RegexesValid(env.compiles, last.userRules) && References(u, last)) {
      HomeIsListed(env, front, u);
    }
    hide RegexesValid, References;
  }

  /** A user names one account only, so it has no home among the others. */
  lemma NoHomeElsewhere(env: World, accounts: seq<Account>, i: nat, u: User)
    requires DistinctAccounts(accounts) && i < |accounts| && References(u, accounts[i])
    ensures Home(env, accounts[..i], u) == None
  {
    forall k | 0 <= k < i ensures !References(u, accounts[k]) {
      assert AccountKey(accounts[k]) != AccountKey(accounts[i]);
    }
    if Home(env, accounts[..i], u).Some? {
      HomeIsListed(env, accounts[..i], u);
    }
    hide RegexesValid;
  }

  lemma HomeGrows(env: World, accounts: seq<Account>, i: nat, u: User)
    requires DistinctAccounts(accounts) && i < |accounts|
    ensures Home(env, accounts[..i + 1], u)
            == if RegexesValid(env.compiles, accounts[i].userRules) && References(u, accounts[i]) then Some(accounts[i])
               else Home(env, accounts[..i], u)
    ensures References(u, accounts[i]) ==> Home(env, accounts[..i], u) == None
  {
    assert accounts[..i + 1][..i] == accounts[..i];
    if References(u, accounts[i]) {
      NoHomeElsewhere(env, accounts, i, u);
    }
    hide RegexesValid, References;
  }

  lemma UserAfterNextAccount(env: World, accounts: seq<Account>, i: nat, site: Site, luck: Luck, was: LiveUser,
                             now: LiveUser, next: LiveUser, before: map<Key, Stored>, mid: map<Key, Stored>,
                             after: map<Key, Stored>)
    requires DistinctAccounts(accounts) && i < |accounts| && RegexesValid(env.compiles, accounts[i].userRules)
    requires now == UserAfterPass(env, accounts[..i], site, mid, was)
             && next == Settled(env, accounts[i], site, after, now)
    requires !Welcomed(env, accounts[..i], was.spec) ==> SameSecret(before, mid, was.spec)
    requires Welcomed(env, accounts[..i], was.spec) ==> EnsureSucceeds(before, was, luck) && Issued(mid, was.spec)
    requires !Admits(env, accounts[i], was.spec) ==> SameSecret(mid, after, was.spec)
    requires Admits(env, accounts[i], was.spec) ==> EnsureSucceeds(mid, now, luck) && Issued(after, was.spec)
    ensures next == UserAfterPass(env, accounts[..i + 1], site, after, was)
    ensures !Welcomed(env, accounts[..i + 1], was.spec) ==> SameSecret(before, after, was.spec)
    ensures Welcomed(env, accounts[..i + 1], was.spec) ==> EnsureSucceeds(before, was, luck) && Issued(after, was.spec)
  {
    HomeGrows(env, accounts, i, was.spec);
    hide Home, Judge, EnsureSucceeds, Issued, RegexesValid, SecretName, WithKey;
    if References(was.spec, accounts[i]) {
      assert now == was;
      if Admits(env, accounts[i], was.spec) {
        EnsureIsLocal(before, mid, was, luck);
      }
    } else if Home(env, accounts[..i], was.spec).Some? {
      SettledIsLocal(env, Home(env, accounts[..i], was.spec).value, site, mid, after, was);
    }
  }

  lemma AccountVisited(env: World, accounts: seq<Account>, i: nat, site: Site, luck: PassLuck, was: seq<LiveUser>,
                       now: seq<LiveUser>, next: seq<LiveUser>, before: map<Key, Stored>, mid: map<Key, Stored>,
                       after: map<Key, Stored>)
    requires DistinctAccounts(accounts) && i < |accounts| && RegexesValid(env.compiles, accounts[i].userRules)
    requires AccountsDone(env, accounts[..i], site, luck, was, now, before, mid)
    requires UserSpecs(now) == UserSpecs(was)
    requires UsersDone(env, accounts[i], site, luck, now, next, mid, after, |now|)
    ensures AccountsDone(env, accounts[..i + 1], site, luck, was, next, before, after)
  {
    hide Home, Admits, EnsureSucceeds, Issued, RegexesValid, Settled, UserAfterPass, Welcomed, SameSecret;
    forall t | 0 <= t < |was|
      ensures next[t] == UserAfterPass(env, accounts[..i + 1], site, after, was[t])
      ensures !Welcomed(env, accounts[..i + 1], was[t].spec) ==> SameSecret(before, after, was[t].spec)
      ensures Welcomed(env, accounts[..i + 1], was[t].spec) ==>
                EnsureSucceeds(before, was[t], luck.ensure(t)) && Issued(after, was[t].spec)
    {
      assert UserSpecs(now)[t] == UserSpecs(was)[t];
      UserAfterNextAccount(env, accounts, i, site, luck.ensure(t), was[t], now[t], next[t], before, mid, after);
    }
  }

  lemma {:induction false} KeptAreListed(env: World, accounts: seq<Account>, a: Account)
    ensures a in Kept(env, accounts) <==> a in accounts && RegexesValid(env.compiles, a.userRules)
  {
    if accounts != [] {
      assert accounts == accounts[..|accounts| - 1] + [accounts[|accounts| - 1]];
      KeptAreListed(env, accounts[..|accounts| - 1], a);
    }
    hide RegexesValid;
  }

  /** Earlier lists keep describing the stored credentials while a later account is processed. */
  lemma ListingsStay(env: World, accounts: seq<Account>, i: nat, users: seq<User>, mid: map<Key, Stored>,
                     after: map<Key, Stored>, out: seq<AccountWithUsers>)
    requires DistinctAccounts(accounts) && i < |accounts| && Resolved(env, accounts[..i], users, mid, out)
    requires forall t :: 0 <= t < |users| && !Admits(env, accounts[i], users[t]) ==> SameSecret(mid, after, users[t])
    ensures Resolved(env, accounts[..i], users, after, out)
  {
    hide SameSecret, WithKeys, AdmittedUsers, Kept;
    forall k | 0 <= k < |out| ensures IsListing(env, out[k].account, users, after, out[k].users) {
      var a := out[k].account;
      KeptAreListed(env, accounts[..i], a);
      assert AccountKey(a) != AccountKey(accounts[i]) by {
        var m :| 0 <= m < i && accounts[m] == a;
      }
      forall t | 0 <= t < |users| && Admits(env, a, users[t]) ensures SameSecret(mid, after, users[t]) {
        assert !References(users[t], accounts[i]);
      }
      WithKeysAreLocal(env, a, users, mid, after);
    }
  }

  lemma ListingSize(env: World, a: Account, users: seq<User>, secrets: map<Key, Stored>, listed: seq<UserWithKey>)
    requires IsListing(env, a, users, secrets, listed)
    ensures |listed| == |AdmittedUsers(env, a, users)|
  {
    assert |multiset(listed)| == |listed|;
  }

  /** Some user of a processed account whose condition could not be written. */
  ghost predicate UserConditionFailed(env: World, accounts: seq<Account>, luck: PassLuck, users: seq<User>)
  {
    exists j :: 0 <= j < |users| && Home(env, accounts, users[j]).Some? && luck.userConditionFails(j)
  }

  lemma NoAccountVisited(env: World, site: Site, luck: PassLuck, was: seq<LiveUser>, secrets: map<Key, Stored>)
    ensures AccountsDone(env, [], site, luck, was, was, secrets, secrets)
    ensures Resolved(env, [], UserSpecs(was), secrets, [])
    ensures !UserConditionFailed(env, [], luck, UserSpecs(was))
  {
    hide Admits, EnsureSucceeds, Issued, SecretName;
  }

  lemma ConditionsOfNextAccount(env: World, accounts: seq<Account>, i: nat, luck: PassLuck, users: seq<User>)
    requires DistinctAccounts(accounts) && i < |accounts|
    ensures UserConditionFailed(env, accounts[..i + 1], luck, users)
            <==> || UserConditionFailed(env, accounts[..i], luck, users)
                 || (RegexesValid(env.compiles, accounts[i].userRules)
                     && exists j :: 0 <= j < |users| && References(users[j], accounts[i]) && luck.userConditionFails(j))
  {
    forall j | 0 <= j < |users| {
      HomeGrows(env, accounts, i, users[j]);
    }
    hide Home, RegexesValid, References;
  }

  lemma AccountSkipped(env: World, accounts: seq<Account>, i: nat, site: Site, luck: PassLuck, was: seq<LiveUser>,
                       now: seq<LiveUser>, before: map<Key, Stored>, mid: map<Key, Stored>, out: seq<AccountWithUsers>)
    requires DistinctAccounts(accounts) && i < |accounts| && !RegexesValid(env.compiles, accounts[i].userRules)
    requires AccountsDone(env, accounts[..i], site, luck, was, now, before, mid)
    requires Resolved(env, accounts[..i], UserSpecs(was), mid, out)
    ensures AccountsDone(env, accounts[..i + 1], site, luck, was, now, before, mid)
    ensures Resolved(env, accounts[..i + 1], UserSpecs(was), mid, out)
  {
    assert accounts[..i + 1][..i] == accounts[..i];
    forall u: User {
      HomeGrows(env, accounts, i, u);
    }
    hide Home, RegexesValid, References, Settled, EnsureSucceeds, Issued, SameSecret, IsListing, Admits;
  }

  lemma HomeIs(env: World, accounts: seq<Account>, i: nat, u: User)
    requires DistinctAccounts(accounts) && i < |accounts|
    requires RegexesValid(env.compiles, accounts[i].userRules) && References(u, accounts[i])
    ensures Home(env, accounts, u) == Some(accounts[i])
    decreases |accounts|
  {
    if i < |accounts| - 1 {
      assert AccountKey(accounts[i]) != AccountKey(accounts[|accounts| - 1]);
      HomeIs(env, accounts[..|accounts| - 1], i, u);
    }
    hide RegexesValid;
  }

  /** A failed credential call is one of a welcomed user, who had not been touched before. */
  lemma FailureIsWelcomed(env: World, accounts: seq<Account>, i: nat, site: Site, luck: PassLuck, was: seq<LiveUser>,
                          now: seq<LiveUser>, before: map<Key, Stored>, mid: map<Key, Stored>)
    requires DistinctAccounts(accounts) && i < |accounts| && RegexesValid(env.compiles, accounts[i].userRules)
    requires AccountsDone(env, accounts[..i], site, luck, was, now, before, mid) && UserSpecs(was) == UserSpecs(now)
    requires exists j :: 0 <= j < |now| && Admits(env, accounts[i], now[j].spec)
                    && !EnsureSucceeds(mid, now[j], luck.ensure(j))
    ensures exists j :: 0 <= j < |was| && Welcomed(env, accounts, was[j].spec)
                   && !EnsureSucceeds(before, was[j], luck.ensure(j))
  {
    var j :| 0 <= j < |now| && Admits(env, accounts[i], now[j].spec) && !EnsureSucceeds(mid, now[j], luck.ensure(j));
    assert UserSpecs(was)[j] == UserSpecs(now)[j];
    HomeIs(env, accounts, i, was[j].spec);
    HomeGrows(env, accounts, i, was[j].spec);
    assert now[j] == was[j] && SameSecret(before, mid, was[j].spec);
    EnsureIsLocal(before, mid, was[j], luck.ensure(j));
    hide Home, RegexesValid, Judge, EnsureSucceeds, Issued, SameSecret, Settled;
  }

  lemma AllSucceeded(env: World, accounts: seq<Account>, site: Site, luck: PassLuck, was: seq<LiveUser>,
                     now: seq<LiveUser>, before: map<Key, Stored>, after: map<Key, Stored>)
    requires AccountsDone(env, accounts, site, luck, was, now, before, after)
    ensures forall j :: 0 <= j < |was| && Welcomed(env, accounts, was[j].spec) ==>
                   EnsureSucceeds(before, was[j], luck.ensure(j))
  {
    hide Welcomed, EnsureSucceeds, UserAfterPass, Issued, SameSecret;
  }

  lemma ListingGrows(env: World, accounts: seq<Account>, i: nat, site: Site, luck: PassLuck, now: seq<LiveUser>,
                     next: seq<LiveUser>, mid: map<Key, Stored>, after: map<Key, Stored>, out: seq<AccountWithUsers>,
                     listed: seq<UserWithKey>)
    requires DistinctAccounts(accounts) && i < |accounts| && RegexesValid(env.compiles, accounts[i].userRules)
    requires Resolved(env, accounts[..i], UserSpecs(now), mid, out)
    requires UsersDone(env, accounts[i], site, luck, now, next, mid, after, |now|)
    requires IsListing(env, accounts[i], UserSpecs(now), after, listed)
    ensures Resolved(env, accounts[..i + 1], UserSpecs(now), after, out + [AccountWithUsers(accounts[i], listed)])
    ensures |listed| == |AdmittedUsers(env, accounts[i], UserSpecs(now))|
  {
    hide Admits, EnsureSucceeds, Settled, Issued, SameSecret, AdmittedUsers, WithKeys, RegexesValid;
    ListingSize(env, accounts[i], UserSpecs(now), after, listed);
    forall t | 0 <= t < |now| && !Admits(env, accounts[i], UserSpecs(now)[t])
      ensures SameSecret(mid, after, UserSpecs(now)[t])
    {
      assert UserSpecs(now)[t] == now[t].spec;
    }
    ListingsStay(env, accounts, i, UserSpecs(now), mid, after, out);
    hide IsListing;
    assert accounts[..i + 1][..i] == accounts[..i];
  }

  lemma OneMoreListed(out: seq<AccountWithUsers>, a: AccountWithUsers)
    ensures UserTotal(out + [a]) == UserTotal(out) + |a.users|
  {
    assert (out + [a])[..|out + [a]| - 1] == out;
  }

  method SystemAccountName(accounts: array<LiveAccount>) returns (name: string)
    ensures name == Designated(AllFlagged(AccountSpecs(accounts[..])))
  {
    ghost var specs := AccountSpecs(accounts[..]);
    var flagged: seq<string> := [];
    for i := 0 to accounts.Length
      invariant flagged == AllFlagged(specs[..i])
    {
      assert specs[..i + 1][..i] == specs[..i];
      if accounts[i].spec.systemAccount {
        flagged := flagged + [accounts[i].spec.name];
      }
    }
    assert specs[..accounts.Length] == specs;
    name := "";
    if |flagged| == 1 {
      name := flagged[0];
    }
  }

  /**
   * Everything the account loop has brought about after n accounts: users and accounts updated in
   * place, Secrets, the list for the converter, the total, and whether some condition write failed.
   */
  ghost predicate PassDone(env: World, specs: seq<Account>, n: nat, site: Site, luck: PassLuck, was: seq<LiveUser>,
                           now: seq<LiveUser>, before: map<Key, Stored>, after: map<Key, Stored>,
                           accountsWas: seq<LiveAccount>, accountsNow: seq<LiveAccount>, out: Resolution,
                           conditionFailed: bool)
  {
    && n <= |specs| == |accountsWas| == |accountsNow|
    && AccountsDone(env, specs[..n], site, luck, was, now, before, after)
    && Resolved(env, specs[..n], UserSpecs(was), after, out.accounts)
    && out.totalUsers == UserTotal(out.accounts)
    && (forall t :: 0 <= t < n ==> accountsNow[t] == AccountAfterPass(env, site.links, UserSpecs(was), accountsWas[t]))
    && (forall t :: n <= t < |specs| ==> accountsNow[t] == accountsWas[t])
    && (conditionFailed
        <==> || (exists t :: 0 <= t < n && luck.accountConditionFails(t))
             || UserConditionFailed(env, specs[..n], luck, UserSpecs(was)))
  }

  lemma PassStarts(env: World, specs: seq<Account>, site: Site, luck: PassLuck, was: seq<LiveUser>,
                   secrets: map<Key, Stored>, accountsWas: seq<LiveAccount>)
    requires |specs| == |accountsWas|
    ensures PassDone(env, specs, 0, site, luck, was, was, secrets, secrets, accountsWas, accountsWas, Resolution([], 0),
                     false)
  {
    NoAccountVisited(env, site, luck, was, secrets);
    assert specs[..0] == [];
    hide AccountsDone, Resolved, UserConditionFailed;
  }

  lemma PassSkips(env: World, specs: seq<Account>, i: nat, site: Site, luck: PassLuck, was: seq<LiveUser>,
                  now: seq<LiveUser>, before: map<Key, Stored>, mid: map<Key, Stored>, accountsWas: seq<LiveAccount>,
                  accountsNow: seq<LiveAccount>, out: Resolution, conditionFailed: bool)
    requires PassDone(env, specs, i, site, luck, was, now, before, mid, accountsWas, accountsNow, out, conditionFailed)
    requires DistinctAccounts(specs) && specs == AccountSpecs(accountsWas) && i < |specs|
             && !RegexesValid(env.compiles, specs[i].userRules)
    ensures PassDone(env, specs, i + 1, site, luck, was, now, before, mid, accountsWas,
                     accountsNow[i := SkippedAccount(accountsNow[i],
                                                     ValidateRegexRules(env.compiles, specs[i].userRules).value)],
                     out,
                     conditionFailed || luck.accountConditionFails(i))
  {
    AccountSkipped(env, specs, i, site, luck, was, now, before, mid, out.accounts);
    ConditionsOfNextAccount(env, specs, i, luck, UserSpecs(was));
    hide AccountsDone, SkippedAccount, KeptAccount, Resolved, UserConditionFailed, RegexesValid, AdmittedUsers,
      References;
  }

  lemma PassVisits(env: World, specs: seq<Account>, i: nat, site: Site, luck: PassLuck, was: seq<LiveUser>,
                   now: seq<LiveUser>, next: seq<LiveUser>, before: map<Key, Stored>, mid: map<Key, Stored>,
                   after: map<Key, Stored>, accountsWas: seq<LiveAccount>, accountsNow: seq<LiveAccount>,
                   out: Resolution, conditionFailed: bool, listed: seq<UserWithKey>, failed: bool)
    requires PassDone(env, specs, i, site, luck, was, now, before, mid, accountsWas, accountsNow, out, conditionFailed)
    requires DistinctAccounts(specs) && specs == AccountSpecs(accountsWas) && UserSpecs(now) == UserSpecs(was)
    requires i < |specs| && RegexesValid(env.compiles, specs[i].userRules)
    requires UsersDone(env, specs[i], site, luck, now, next, mid, after, |now|)
    requires IsListing(env, specs[i], UserSpecs(now), after, listed)
    requires failed <==> exists j :: 0 <= j < |now| && References(now[j].spec, specs[i]) && luck.userConditionFails(j)
    ensures PassDone(env, specs, i + 1, site, luck, was, next, before, after, accountsWas,
                     accountsNow[i := KeptAccount(site.links, accountsNow[i], |listed|)],
                     Resolution(out.accounts + [AccountWithUsers(specs[i], listed)], out.totalUsers + |listed|),
                     conditionFailed || luck.accountConditionFails(i) || failed)
  {
    hide AccountsDone, Resolved, UserConditionFailed, RegexesValid, AdmittedUsers, References, UsersDone, IsListing,
      UserTotal, SkippedAccount, KeptAccount;
    AccountVisited(env, specs, i, site, luck, was, now, next, before, mid, after);
    ListingGrows(env, specs, i, site, luck, now, next, mid, after, out.accounts, listed);
    OneMoreListed(out.accounts, AccountWithUsers(specs[i], listed));
    ConditionsOfNextAccount(env, specs, i, luck, UserSpecs(was));
    forall j | 0 <= j < |now| ensures now[j].spec == UserSpecs(was)[j] {
      assert UserSpecs(now)[j] == now[j].spec;
    }
  }

  lemma FailedStep(env: World, specs: seq<Account>, i: nat, site: Site, luck: PassLuck, was: seq<LiveUser>,
                   now: seq<LiveUser>, before: map<Key, Stored>, mid: map<Key, Stored>, accountsWas: seq<LiveAccount>,
                   accountsNow: seq<LiveAccount>, out: Resolution, conditionFailed: bool)
    requires PassDone(env, specs, i, site, luck, was, now, before, mid, accountsWas, accountsNow, out, conditionFailed)
    requires DistinctAccounts(specs) && UserSpecs(now) == UserSpecs(was) && i < |specs|
             && RegexesValid(env.compiles, specs[i].userRules)
    requires exists j :: 0 <= j < |now| && Admits(env, specs[i], now[j].spec)
                    && !EnsureSucceeds(mid, now[j], luck.ensure(j))
    ensures exists j :: 0 <= j < |was| && Welcomed(env, specs, was[j].spec)
                   && !EnsureSucceeds(before, was[j], luck.ensure(j))
  {
    hide AccountsDone, Resolved, UserConditionFailed, RegexesValid, Admits, EnsureSucceeds, Welcomed;
    FailureIsWelcomed(env, specs, i, site, luck, was, now, before, mid);
  }

  lemma PassComplete(env: World, specs: seq<Account>, site: Site, luck: PassLuck, was: seq<LiveUser>,
                     now: seq<LiveUser>, before: map<Key, Stored>, after: map<Key, Stored>,
                     accountsWas: seq<LiveAccount>, accountsNow: seq<LiveAccount>, out: Resolution,
                     conditionFailed: bool)
    requires PassDone(env, specs, |specs|, site, luck, was, now, before, after, accountsWas, accountsNow, out,
                      conditionFailed)
    ensures forall j :: 0 <= j < |was| && Welcomed(env, specs, was[j].spec) ==>
                   EnsureSucceeds(before, was[j], luck.ensure(j))
  {
    assert specs[..|specs|] == specs;
    AllSucceeded(env, specs, site, luck, was, now, before, after);
    hide AccountsDone, Resolved, UserConditionFailed, Welcomed, EnsureSucceeds;
  }

  /** Only the Secrets of welcomed users were written. */
  ghost predicate OnlyWelcomedTouched(env: World, accounts: seq<Account>, users: seq<User>, before: map<Key, Stored>,
                                      after: map<Key, Stored>)
  {
    forall k :: Lookup(after, k) != Lookup(before, k) ==>
           exists u <- users :: Welcomed(env, accounts, u) && SecretKey(u) == k
  }

  lemma TouchedByAccount(env: World, specs: seq<Account>, i: nat, users: seq<User>, before: map<Key, Stored>,
                         mid: map<Key, Stored>, after: map<Key, Stored>)
    requires DistinctAccounts(specs) && i < |specs| && RegexesValid(env.compiles, specs[i].userRules)
    requires OnlyWelcomedTouched(env, specs, users, before, mid)
             && OnlyAdmittedTouched(env, specs[i], users, mid, after)
    ensures OnlyWelcomedTouched(env, specs, users, before, after)
  {
    forall k | Lookup(after, k) != Lookup(before, k)
      ensures exists u <- users :: Welcomed(env, specs, u) && SecretKey(u) == k
    {
      if Lookup(after, k) != Lookup(mid, k) {
        var u :| u in users && Admits(env, specs[i], u) && SecretKey(u) == k;
        HomeIs(env, specs, i, u);
        assert Welcomed(env, specs, u);
      }
    }
    hide Home, Judge, RegexesValid, SecretName, Lookup;
  }

  /** None when a credential call failed; what was done up to then stays done. */
  method ReconcileAccountsAndUsers(env: World, accounts: array<LiveAccount>, users: array<LiveUser>,
                                   manager: NKeySecretManager, links: Links, luck: PassLuck)
    returns (r: Option<Resolution>, statusUpdateFailed: bool)
    requires DistinctUsers(UserSpecs(users[..])) && DistinctAccounts(AccountSpecs(accounts[..]))
    modifies manager, users, accounts
    ensures UserSpecs(users[..]) == UserSpecs(old(users[..])) && KeyPairsKept(old(manager.secrets), manager.secrets)
    ensures OnlyWelcomedTouched(env, AccountSpecs(old(accounts[..])), UserSpecs(users[..]), old(manager.secrets),
                                manager.secrets)
    ensures r.Some?
            <==> forall j :: 0 <= j < users.Length ==>
                   Welcomed(env, AccountSpecs(old(accounts[..])), old(users[j]).spec) ==>
                     EnsureSucceeds(old(manager.secrets), old(users[j]), luck.ensure(j))
    ensures r.Some? ==>
              var specs := AccountSpecs(old(accounts[..]));
              PassDone(env, specs, |specs|, SiteOf(specs, links), luck, old(users[..]), users[..],
                       old(manager.secrets), manager.secrets, old(accounts[..]), accounts[..], r.value,
                       statusUpdateFailed)
  {
    hide Home, Admits, EnsureSucceeds, RegexesValid, Welcomed, PassDone, UsersDone, IsListing, References, Value,
      AllFlagged, Designated, OnlyAdmittedTouched;
    ghost var was, listed, before := users[..], accounts[..], manager.secrets;
    ghost var specs := AccountSpecs(accounts[..]);
    var systemAccountName := SystemAccountName(accounts);
    var site := Site(systemAccountName, links);
    var accountsWithUsers: seq<AccountWithUsers> := [];
    var totalUsers: nat := 0;
    statusUpdateFailed := false;
    PassStarts(env, specs, site, luck, was, before, listed);
    assert OnlyWelcomedTouched(env, specs, UserSpecs(was), before, before);
    for i := 0 to accounts.Length
      invariant UserSpecs(users[..]) == UserSpecs(was) && AccountSpecs(accounts[..]) == specs
      invariant KeyPairsKept(before, manager.secrets)
      invariant OnlyWelcomedTouched(env, specs, UserSpecs(was), before, manager.secrets)
      invariant PassDone(env, specs, i, site, luck, was, users[..], before, manager.secrets, listed, accounts[..],
                         Resolution(accountsWithUsers, totalUsers), statusUpdateFailed)
    {
      ghost var now, mid, accountsNow := users[..], manager.secrets, accounts[..];
      ghost var soFar, failedSoFar := Resolution(accountsWithUsers, totalUsers), statusUpdateFailed;
      var acct := accounts[i].spec;
      assert acct == specs[i];
      var broken := ValidateRegexRules(env.compiles, acct.userRules);
      if broken.Some? {
        PassSkips(env, specs, i, site, luck, was, now, before, mid, listed, accountsNow, soFar, failedSoFar);
        var condition := InvalidRegex(acct.generation, broken.value);
        accounts[i] := accounts[i].(status := accounts[i].status.(ready := Some(condition)));
        statusUpdateFailed := statusUpdateFailed || luck.accountConditionFails(i);
        continue;
      }
      var usersWithKeys, failed := MatchUsers(env, acct, site, users, manager, luck);
      TouchedByAccount(env, specs, i, UserSpecs(was), before, mid, manager.secrets);
      if usersWithKeys.None? {
        FailedStep(env, specs, i, site, luck, was, now, before, mid, listed, accountsNow, soFar, failedSoFar);
        return None, statusUpdateFailed;
      }
      PassVisits(env, specs, i, site, luck, was, now, users[..], before, mid, manager.secrets, listed, accountsNow,
                 soFar, failedSoFar, usersWithKeys.value, failed);
      statusUpdateFailed := statusUpdateFailed || luck.accountConditionFails(i) || failed;
      var status := accounts[i].status.(userCount := |usersWithKeys.value|);
      if links.accountCommand.Some? {
        status := status.(debugCommand := links.accountCommand.value(acct.name));
      }
      accounts[i] := accounts[i].(status := status.(ready := Some(Reconciled(acct.generation))));
      totalUsers := totalUsers + |usersWithKeys.value|;
      accountsWithUsers := accountsWithUsers + [AccountWithUsers(acct, usersWithKeys.value)];
    }
    PassComplete(env, specs, site, luck, was, users[..], before, manager.secrets, listed, accounts[..],
                 Resolution(accountsWithUsers, totalUsers), statusUpdateFailed);
    return Some(Resolution(accountsWithUsers, totalUsers)), statusUpdateFailed;
  }
}
