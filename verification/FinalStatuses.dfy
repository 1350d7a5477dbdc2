/**
 * internal/controller/natscluster_controller.go: what the statuses of users and accounts say after a
 * successful pass, in terms of what the pass put into the config.
 */
module FinalStatuses {
  import opened Text
  import opened Sorting
  import opened Api
  import opened Rules
  import opened Secrets
  import opened Convert
  import opened Resolve
  import opened ResolveTheorems
  import opened SystemAccount
  import opened Freshness
  import opened Reconciler

  // ---- users ----

  /** The account is processed, and is the one the user names, by name and namespace. */
  ghost predicate Considers(env: World, accounts: seq<Account>, a: Account, u: User)
  {
    && a in accounts && RegexesValid(env.compiles, a.userRules)
    && a.name == u.accountName && a.namespace == if u.accountNamespace == "" then u.namespace else u.accountNamespace
  }

  /** What the cluster makes of a command template. */
  ghost predicate CommandIs(command: Option<string -> string>, subject: string, before: string, after: string)
  {
    if command.Some? then after == command.value(subject) else after == before
  }

  /** Everything the status of a listed user says. */
  ghost predicate SaysListed(accounts: seq<Account>, links: Links, a: Account, e: UserWithKey, was: UserStatus,
                             now: UserStatus)
  {
    && now.ready == Some(Reconciled(e.user.generation))
    && now.nkeyPublicKey == e.publicKey && now.secretRef == Some(e.user.name + "-nats-nkey")
    && now.connectionURLs == links.connectionURLs
    && CommandIs(links.userCommand, e.publicKey, was.debugCommand, now.debugCommand)
    && (now.isSystemAccount
        <==> a.name != "" && exists k: nat :: OnlyFlagged(accounts, k) && accounts[k].name == a.name)
  }

  /** What the status of user u says after the pass. */
  ghost predicate SaysOfUser(env: World, accounts: seq<Account>, links: Links, out: seq<AccountWithUsers>, u: User,
                             was: UserStatus, now: UserStatus)
  {
    && ((forall a <- accounts :: !Considers(env, accounts, a, u)) ==> now == was)
    && forall a <- accounts :: Considers(env, accounts, a, u) ==>
         && (now.ready == Some(Reconciled(u.generation)) <==> exists i, j :: Appears(out, u, a, i, j))
         && (forall i: nat, j: nat :: Appears(out, u, a, i, j) ==>
               SaysListed(accounts, links, a, out[i].users[j], was, now))
         && match Judge(env, a, u) {
              case Granted => true
              case Denied =>
                now == was.(ready := Some(NamespaceNotAllowed(u.generation, u.namespace, a.name)))
              case Failed(text) =>
                now == was.(ready := Some(NamespaceFetchError(u.generation, u.namespace, text)))
            }
  }

  lemma ConsideredIsHome(env: World, accounts: seq<Account>, a: Account, u: User)
    requires DistinctAccounts(accounts) && Considers(env, accounts, a, u)
    ensures Home(env, accounts, u) == Some(a) && References(u, a)
  {
    var k :| 0 <= k < |accounts| && accounts[k] == a;
    HomeIs(env, accounts, k, u);
    hide Home, RegexesValid;
  }

  lemma HomeIsConsidered(env: World, accounts: seq<Account>, u: User)
    requires Home(env, accounts, u).Some?
    ensures Considers(env, accounts, Home(env, accounts, u).value, u)
  {
    HomeIsListed(env, accounts, u);
    hide Home, RegexesValid;
  }

  lemma ListedEntryIs(env: World, accounts: seq<Account>, users: seq<User>, secrets: map<Key, Stored>,
                      out: seq<AccountWithUsers>, u: User, a: Account, i: nat, j: nat)
    requires Resolved(env, accounts, users, secrets, out) && Appears(out, u, a, i, j)
    ensures out[i].users[j] == WithKey(secrets, u)
  {
    hide IsListing, WithKey, Kept;
    ListingHolds(env, a, users, secrets, out[i].users, out[i].users[j]);
  }

  lemma ListedStatus(accounts: seq<Account>, links: Links, a: Account, secrets: map<Key, Stored>, u: LiveUser)
    ensures SaysListed(accounts, links, a, WithKey(secrets, u.spec), u.status,
                       GrantedStatus(a, SiteOf(accounts, links), secrets, u))
  {
    StampedExactly(accounts, a);
    hide AllFlagged, Designated, Value, Lookup;
  }

  /** After a successful pass every user's status tells whether, and as what, the user is in the config. */
  lemma UserStatusExactly(env: World, accounts: seq<Account>, links: Links, luck: PassLuck, was: seq<LiveUser>,
                          now: seq<LiveUser>, before: map<Key, Stored>, after: map<Key, Stored>,
                          out: seq<AccountWithUsers>, t: nat)
    requires DistinctAccounts(accounts) && t < |was|
    requires AccountsDone(env, accounts, SiteOf(accounts, links), luck, was, now, before, after)
    requires Resolved(env, accounts, UserSpecs(was), after, out)
    ensures now[t].spec == was[t].spec
    ensures SaysOfUser(env, accounts, links, out, was[t].spec, was[t].status, now[t].status)
  {
    var u := was[t].spec;
    hide Home, Judge, RegexesValid, WithKey, SaysListed, Resolved, SiteOf, GrantedStatus, References, EnsureSucceeds,
      Issued, SameSecret, Considers, Appears;
    assert UserSpecs(was)[t] == u;
    if Home(env, accounts, u).Some? {
      HomeIsConsidered(env, accounts, u);
    }
    forall a | a in accounts && Considers(env, accounts, a, u)
      ensures Home(env, accounts, u) == Some(a) && References(u, a)
      ensures (exists i, j :: Appears(out, u, a, i, j)) <==> Judge(env, a, u) == Granted
      ensures forall i: nat, j: nat :: Appears(out, u, a, i, j) ==> out[i].users[j] == WithKey(after, u)
      ensures SaysListed(accounts, links, a, WithKey(after, u), was[t].status,
                         GrantedStatus(a, SiteOf(accounts, links), after, was[t]))
    {
      ConsideredIsHome(env, accounts, a, u);
      HomeIsListed(env, accounts, u);
      MembershipExactly(env, accounts, UserSpecs(was), after, out, u, a);
      ListedStatus(accounts, links, a, after, was[t]);
      forall i: nat, j: nat | Appears(out, u, a, i, j) {
        ListedEntryIs(env, accounts, UserSpecs(was), after, out, u, a, i, j);
      }
    }
  }

  // ---- accounts ----

  /** The account is flagged and in the config, and so is another one. */
  ghost predicate InConflict(out: seq<AccountWithUsers>, a: Account)
  {
    exists k, l ::
      && 0 <= k < |out| && 0 <= l < |out| && k != l && out[k].account == a
      && out[k].account.systemAccount && out[l].account.systemAccount
  }

  /** The condition lists the flagged accounts of the config in name order. */
  ghost predicate ListsConflict(out: seq<AccountWithUsers>, names: seq<string>)
  {
    && SortedBy(names, Self)
    && forall n :: n in names
              <==> exists k :: 0 <= k < |out| && out[k].account.systemAccount && out[k].account.name == n
  }

  /** What the status of account a says after the pass. */
  ghost predicate SaysOfAccount(env: World, links: Links, out: seq<AccountWithUsers>, a: Account, was: AccountStatus,
                                now: AccountStatus)
  {
    && (forall k :: 0 <= k < |out| && out[k].account == a ==>
          && now.userCount == |out[k].users|
             && CommandIs(links.accountCommand, a.name, was.debugCommand, now.debugCommand)
          && (now.ready == Some(Reconciled(a.generation)) <==> !InConflict(out, a)))
    && (InConflict(out, a) ==>
          exists names :: ListsConflict(out, names) && now.ready == Some(SystemAccountConflict(a.generation, names)))
    && ((forall k :: 0 <= k < |out| ==> out[k].account != a) ==>
          exists k: nat :: BrokenAt(env.compiles, a.userRules, k)
                           && now
                              == was.(ready := Some(InvalidRegex(a.generation, a.userRules[k].namespaceRegex.value))))
  }

  ghost predicate FlaggedAt(out: seq<AccountWithUsers>, k: nat)
  {
    k < |out| && out[k].account.systemAccount
  }

  /** The names the converter collects. */
  lemma FlaggedNamesAre(out: seq<AccountWithUsers>)
    ensures forall n :: n in FlaggedNames(out) <==> exists k: nat :: FlaggedAt(out, k) && out[k].account.name == n
    ensures |FlaggedNames(out)| >= 2 <==> exists k: nat, l: nat :: k != l && FlaggedAt(out, k) && FlaggedAt(out, l)
  {
    var accounts := seq(|out|, i requires 0 <= i < |out| => out[i].account);
    FlaggedOfOutput(accounts, out);
    FlaggedCount(accounts);
    forall n ensures n in FlaggedNames(out) <==> exists k: nat :: FlaggedAt(out, k) && out[k].account.name == n {
      FlaggedExactly(accounts, n);
      if k: nat :| FlaggedAt(out, k) && out[k].account.name == n {
        assert accounts[k] in accounts;
      }
      if a :| a in accounts && a.systemAccount && a.name == n {
        var k: nat :| k < |accounts| && accounts[k] == a;
        assert FlaggedAt(out, k);
      }
    }
    hide AllFlagged, FlaggedNames;
    forall k: nat ensures FlaggedAt(out, k) <==> k < |accounts| && accounts[k].systemAccount {}
    if k: nat, l: nat :| k != l && FlaggedAt(out, k) && FlaggedAt(out, l) {
      forall m: nat ensures !OnlyFlagged(accounts, m) {}
    } else if k: nat :| FlaggedAt(out, k) {
      assert OnlyFlagged(accounts, k);
    }
  }

  lemma ConflictNamesAre(out: seq<AccountWithUsers>)
    ensures |FlaggedNames(out)| < 2 ==> ConflictNames(out) == []
    ensures |FlaggedNames(out)| >= 2 ==> ListsConflict(out, ConflictNames(out))
  {
    FlaggedNamesAre(out);
    SortBySorts(FlaggedNames(out), Self);
    forall n ensures |FlaggedNames(out)| >= 2 ==> (n in ConflictNames(out) <==> n in FlaggedNames(out)) {
      assert n in multiset(ConflictNames(out)) <==> n in ConflictNames(out);
      assert n in multiset(FlaggedNames(out)) <==> n in FlaggedNames(out);
    }
    hide FlaggedNames, SortBy, SortedBy;
    forall k: nat ensures FlaggedAt(out, k) <==> 0 <= k < |out| && out[k].account.systemAccount {}
  }

  lemma SameNameInConfig(env: World, accounts: seq<Account>, users: seq<User>, secrets: map<Key, Stored>,
                         out: seq<AccountWithUsers>, a: Account, k: nat)
    requires DistinctAccountNames(accounts) && a in accounts && Resolved(env, accounts, users, secrets, out)
    requires k < |out| && out[k].account.name == a.name
    ensures out[k].account == a
  {
    hide IsListing, DistinctAccountNames;
    assert out[k].account in Kept(env, accounts);
    KeptAreListed(env, accounts, out[k].account);
    SameNameSameAccount(accounts, out[k].account, a);
  }

  lemma ConflictExactly(env: World, accounts: seq<Account>, users: seq<User>, secrets: map<Key, Stored>,
                        out: seq<AccountWithUsers>, a: Account)
    requires DistinctAccountNames(accounts) && a in accounts && Resolved(env, accounts, users, secrets, out)
    ensures a.name in ConflictNames(out) <==> InConflict(out, a)
    ensures InConflict(out, a) ==> ListsConflict(out, ConflictNames(out))
  {
    hide Resolved, ConflictNames, FlaggedNames, SortedBy, DistinctAccountNames;
    FlaggedNamesAre(out);
    ConflictNamesAre(out);
    forall k: nat | k < |out| && out[k].account.name == a.name ensures out[k].account == a {
      SameNameInConfig(env, accounts, users, secrets, out, a, k);
    }
    if InConflict(out, a) {
      var k: nat, l: nat :| k < |out| && l < |out| && k != l && out[k].account == a
                            && out[k].account.systemAccount && out[l].account.systemAccount;
      assert FlaggedAt(out, k) && FlaggedAt(out, l);
    }
    if a.name in ConflictNames(out) {
      var k: nat :| FlaggedAt(out, k) && out[k].account.name == a.name;
      var m: nat, n: nat :| m != n && FlaggedAt(out, m) && FlaggedAt(out, n);
      assert out[k].account == a;
      assert k != m || k != n;
    }
  }

  lemma InConfigExactly(env: World, accounts: seq<Account>, users: seq<User>, secrets: map<Key, Stored>,
                        out: seq<AccountWithUsers>, a: Account)
    requires Resolved(env, accounts, users, secrets, out) && a in accounts
    ensures (exists k :: 0 <= k < |out| && out[k].account == a) <==> RegexesValid(env.compiles, a.userRules)
    ensures forall k :: 0 <= k < |out| && out[k].account == a ==> |out[k].users| == |AdmittedUsers(env, a, users)|
  {
    KeptAreListed(env, accounts, a);
    forall k | 0 <= k < |out| && out[k].account == a ensures |out[k].users| == |AdmittedUsers(env, a, users)| {
      ListingSize(env, a, users, secrets, out[k].users);
    }
    if a in Kept(env, accounts) {
      var k :| 0 <= k < |out| && Kept(env, accounts)[k] == a;
      assert out[k].account == a;
    }
    forall k | 0 <= k < |out| && out[k].account == a ensures a in Kept(env, accounts) {}
    hide Kept, RegexesValid, AdmittedUsers, IsListing;
  }

  /** After a successful pass every account's status tells whether, and with how many users, it is in the config. */
  lemma AccountStatusExactly(env: World, links: Links, accounts: seq<Account>, users: seq<User>,
                             secrets: map<Key, Stored>, recorded: map<Object, Status>, out: seq<AccountWithUsers>,
                             settled: seq<LiveAccount>, i: nat)
    requires DistinctAccountNames(accounts) && Resolved(env, accounts, users, secrets, out)
    requires AccountsSettled(env, links, accounts, users, recorded, out, settled) && i < |accounts|
    ensures settled[i].spec == accounts[i]
    ensures SaysOfAccount(env, links, out, accounts[i], LiveAccountOf(recorded, accounts[i]).status, settled[i].status)
  {
    var a := accounts[i];
    ConflictExactly(env, accounts, users, secrets, out, a);
    InConfigExactly(env, accounts, users, secrets, out, a);
    FirstBrokenReported(env.compiles, a.userRules);
    assert settled[i] == FinalAccount(env, links, users, recorded, ConflictNames(out), a);
    if !RegexesValid(env.compiles, a.userRules) {
      assert !InConflict(out, a);
    }
    hide Resolved, ConflictNames, FlaggedNames, RegexesValid, AdmittedUsers, LiveAccountOf, InConflict, ListsConflict,
      DistinctAccountNames, AccountsSettled, ValidateRegexRules, BrokenAt;
  }
}
