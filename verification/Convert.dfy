/** internal/natsconfig/convert.go: ConvertToNatsConfig, and what a server makes of the printed result. */
module Convert {
  import opened Text
  import opened Numbers
  import opened Sorting
  import opened NatsConfig
  import opened ConfigText
  import opened Subjects
  import opened PermissionCompiler
  import opened Api

  datatype UserWithKey = UserWithKey(user: User, publicKey: string, inboxPrefix: string)

  datatype AccountWithUsers = AccountWithUsers(account: Account, users: seq<UserWithKey>)

  function SizeOf(q: Option<int>): string
  {
    match q
    case None => ""
    case Some(bytes) => QuantityToNATSSize(bytes)
  }

  function ConvertJetStream(js: AccountJetStream): JetStreamConfig
  {
    JetStreamConfig(SizeOf(js.maxMemory), SizeOf(js.maxFile), js.maxStreams, js.maxConsumers, js.maxBytesRequired,
                    SizeOf(js.memoryMaxStreamBytes), SizeOf(js.diskMaxStreamBytes), js.maxAckPending)
  }

  function ConvertLimits(l: AccountLimits): LimitsConfig
  {
    LimitsConfig(l.maxConnections, l.maxSubscriptions, SizeOf(l.maxPayload), l.maxLeafnodes)
  }

  function ConvertUser(u: UserWithKey): UserConfig
  {
    UserConfig(u.publicKey, Some(ConvertPermissions(u.user.permissions, u.inboxPrefix)))
  }

  function ConvertUsers(us: seq<UserWithKey>): seq<UserConfig>
  {
    seq(|us|, i requires 0 <= i < |us| => ConvertUser(us[i]))
  }

  function ConvertAccount(a: AccountWithUsers): AccountConfig
  {
    AccountConfig(
      match a.account.jetStream {
        case None => None
        case Some(js) => Some(ConvertJetStream(js))
      },
      match a.account.limits {
        case None => None
        case Some(l) => Some(ConvertLimits(l))
      },
      ConvertUsers(a.users))
  }

  /** Names of the flagged accounts, in list order. */
  function FlaggedNames(accounts: seq<AccountWithUsers>): seq<string>
  {
    if accounts == [] then [] else
      FlaggedNames(accounts[..|accounts| - 1])
      + if accounts[|accounts| - 1].account.systemAccount then [accounts[|accounts| - 1].account.name] else []
  }

  /** The map the loop fills: a later account replaces an earlier one of the same name. */
  function ConvertedAccounts(accounts: seq<AccountWithUsers>): map<string, AccountConfig>
  {
    if accounts == [] then map[] else
      var last := accounts[|accounts| - 1];
      ConvertedAccounts(accounts[..|accounts| - 1])[last.account.name := ConvertAccount(last)]
  }

  /** The account named by the system_account directive, if any. */
  function Designated(flagged: seq<string>): string
  {
    if |flagged| == 1 then flagged[0] else ""
  }

  /** The names reported when two or more accounts are flagged, in name order. */
  function ConflictNames(accounts: seq<AccountWithUsers>): seq<string>
  {
    if |FlaggedNames(accounts)| < 2 then [] else SortBy(FlaggedNames(accounts), Self)
  }

  lemma ConflictsAre(accounts: seq<AccountWithUsers>, sorted: seq<string>)
    requires |FlaggedNames(accounts)| >= 2
    requires SortedBy(sorted, Self) && multiset(sorted) == multiset(FlaggedNames(accounts))
    ensures sorted == ConflictNames(accounts)
  {
    SortBySorts(FlaggedNames(accounts), Self);
    SortedStringsAreUnique(sorted, ConflictNames(accounts));
  }

  lemma ConvertUsersGrow(us: seq<UserWithKey>, j: nat)
    requires j <= |us|
    ensures j == 0 ==> ConvertUsers(us[..j]) == []
    ensures j < |us| ==> ConvertUsers(us[..j + 1]) == ConvertUsers(us[..j]) + [ConvertUser(us[j])]
  {
    hide ConvertUser;
  }

  method ConvertToNatsConfig(accounts: seq<AccountWithUsers>) returns (cfg: Config)
    ensures cfg.accounts == ConvertedAccounts(accounts)
    ensures cfg.systemAccount == Designated(FlaggedNames(accounts))
    ensures cfg.systemAccountConflicts == ConflictNames(accounts)
    ensures |FlaggedNames(accounts)| >= 2 ==>
              SortedBy(cfg.systemAccountConflicts, Self)
              && multiset(cfg.systemAccountConflicts) == multiset(FlaggedNames(accounts))
  {
    hide ConvertJetStream, ConvertLimits, ConvertPermissions, SortBy, SortedBy, ConvertUsers;
    var candidates: seq<string> := [];
    for i := 0 to |accounts|
      invariant candidates == FlaggedNames(accounts[..i])
    {
      assert accounts[..i + 1][..i] == accounts[..i];
      if accounts[i].account.systemAccount {
        candidates := candidates + [accounts[i].account.name];
      }
    }
    assert accounts[..|accounts|] == accounts;
    var systemAccount, conflicts: seq<string> := "", [];
    if |candidates| == 1 {
      systemAccount := candidates[0];
    } else if |candidates| > 1 {
      conflicts := SortSlice(candidates, Self);
      ConflictsAre(accounts, conflicts);
    }
    var byName: map<string, AccountConfig> := map[];
    for i := 0 to |accounts|
      invariant byName == ConvertedAccounts(accounts[..i])
    {
      assert accounts[..i + 1][..i] == accounts[..i];
      var converted := AccountConfig(None, None, []);
      if accounts[i].account.jetStream.Some? {
        converted := converted.(jetStream := Some(ConvertJetStream(accounts[i].account.jetStream.value)));
      }
      if accounts[i].account.limits.Some? {
        converted := converted.(limits := Some(ConvertLimits(accounts[i].account.limits.value)));
      }
      ConvertUsersGrow(accounts[i].users, 0);
      for j := 0 to |accounts[i].users|
        invariant converted == ConvertAccount(accounts[i]).(users := ConvertUsers(accounts[i].users[..j]))
      {
        var entry := accounts[i].users[j];
        var permissions := ConvertPermissionsObject(entry.user.permissions, entry.inboxPrefix);
        converted := converted.(users := converted.users + [UserConfig(entry.publicKey, Some(permissions.Value()))]);
        ConvertUsersGrow(accounts[i].users, j);
      }
      assert accounts[i].users[..|accounts[i].users|] == accounts[i].users;
      byName := byName[accounts[i].account.name := converted];
    }
    assert accounts[..|accounts|] == accounts;
    cfg := Config(systemAccount, conflicts, byName);
  }

  // ---- properties of the conversion ----

  ghost predicate DistinctNames(accounts: seq<AccountWithUsers>)
  {
    forall i, j :: 0 <= i < j < |accounts| ==> accounts[i].account.name != accounts[j].account.name
  }

  function UserTotal(accounts: seq<AccountWithUsers>): nat
  {
    if accounts == [] then 0 else UserTotal(accounts[..|accounts| - 1]) + |accounts[|accounts| - 1].users|
  }

  lemma {:induction false} ConvertedNames(accounts: seq<AccountWithUsers>, n: string)
    ensures n in ConvertedAccounts(accounts) <==> exists i :: 0 <= i < |accounts| && accounts[i].account.name == n
  {
    if accounts != [] {
      var front := accounts[..|accounts| - 1];
      ConvertedNames(front, n);
      if exists i :: 0 <= i < |accounts| && accounts[i].account.name == n {
        var i :| 0 <= i < |accounts| && accounts[i].account.name == n;
        if i < |front| {
          assert front[i].account.name == n;
        }
      }
    }
  }

  /** With distinct names every listed account ends up under its own name. */
  lemma {:induction false} ConvertedAt(accounts: seq<AccountWithUsers>, i: nat)
    requires DistinctNames(accounts) && i < |accounts|
    ensures accounts[i].account.name in ConvertedAccounts(accounts)
    ensures ConvertedAccounts(accounts)[accounts[i].account.name] == ConvertAccount(accounts[i])
    decreases |accounts|
  {
    if i < |accounts| - 1 {
      ConvertedAt(accounts[..|accounts| - 1], i);
    }
  }

  lemma {:induction false} CountAgrees(names: set<string>, a: map<string, AccountConfig>, b: map<string, AccountConfig>)
    requires names <= a.Keys && names <= b.Keys && forall n <- names :: a[n] == b[n]
    ensures CountUsers(names, a) == CountUsers(names, b)
    decreases |names|
  {
    if names != {} {
      var n :| n in names;
      CountUsersRemove(names, a, n);
      CountUsersRemove(names, b, n);
      CountAgrees(names - {n}, a, b);
    }
  }

  /** The users in the config are the users in the list: none is lost between the two. */
  lemma {:induction false} UserCountConserved(accounts: seq<AccountWithUsers>)
    requires DistinctNames(accounts)
    ensures CountUsers(ConvertedAccounts(accounts).Keys, ConvertedAccounts(accounts)) == UserTotal(accounts)
  {
    if accounts != [] {
      var front, last := accounts[..|accounts| - 1], accounts[|accounts| - 1];
      var before, after := ConvertedAccounts(front), ConvertedAccounts(accounts);
      UserCountConserved(front);
      ConvertedNames(front, last.account.name);
      assert last.account.name !in before.Keys;
      assert after.Keys - {last.account.name} == before.Keys;
      CountUsersRemove(after.Keys, after, last.account.name);
      CountAgrees(before.Keys, before, after);
    }
  }

  // ---- from declarations to what the server enforces ----

  ghost predicate LegalInput(accounts: seq<AccountWithUsers>)
  {
    forall i :: 0 <= i < |accounts| ==>
      && Word(accounts[i].account.name)
      && forall j :: 0 <= j < |accounts[i].users| ==> Word(accounts[i].users[j].publicKey)
  }

  lemma IntTextIsWord(n: int)
    ensures Word(IntText(n))
  {
    IntTextShape(n);
    forall i | 0 <= i < |IntText(n)| ensures WordChar(IntText(n)[i]) {
      assert IntText(n)[i] in IntText(n);
    }
  }

  lemma SuffixedIsWord(n: int, suffix: string)
    requires UnitOf(suffix) != 0
    ensures Word(IntText(n) + suffix)
  {
    IntTextIsWord(n);
  }

  lemma SizeIsLegal(q: Option<int>)
    ensures LegalSize(SizeOf(q))
  {
    if q.Some? {
      var bytes := q.value;
      IntTextIsWord(bytes);
      SuffixedIsWord(bytes / TI, "TI");
      SuffixedIsWord(bytes / GI, "GI");
      SuffixedIsWord(bytes / MI, "MI");
      SuffixedIsWord(bytes / KI, "KI");
      hide Word, IntText;
    }
  }

  lemma ConvertedAccountIsLegal(a: AccountWithUsers)
    requires forall j :: 0 <= j < |a.users| ==> Word(a.users[j].publicKey)
    ensures LegalAccount(ConvertAccount(a))
  {
    if a.account.jetStream.Some? {
      SizeIsLegal(a.account.jetStream.value.maxMemory);
      SizeIsLegal(a.account.jetStream.value.maxFile);
      SizeIsLegal(a.account.jetStream.value.memoryMaxStreamBytes);
      SizeIsLegal(a.account.jetStream.value.diskMaxStreamBytes);
    }
    if a.account.limits.Some? {
      SizeIsLegal(a.account.limits.value.maxPayload);
    }
    hide LegalSize, Word, SizeOf, ConvertPermissions;
  }

  lemma {:induction false} ConvertedIsLegal(accounts: seq<AccountWithUsers>, n: string)
    requires LegalInput(accounts) && n in ConvertedAccounts(accounts)
    ensures Word(n) && LegalAccount(ConvertedAccounts(accounts)[n])
    decreases |accounts|
  {
    var front, last := accounts[..|accounts| - 1], accounts[|accounts| - 1];
    ConvertedAccountIsLegal(last);
    if n != last.account.name {
      ConvertedIsLegal(front, n);
    }
  }

  lemma ConvertedConfigIsLegal(accounts: seq<AccountWithUsers>, cfg: Config)
    requires LegalInput(accounts) && cfg.accounts == ConvertedAccounts(accounts)
    ensures LegalConfig(cfg)
  {
    forall n | n in cfg.accounts ensures Word(n) && LegalAccount(cfg.accounts[n]) {
      ConvertedIsLegal(accounts, n);
    }
  }

  /** Publishing as declared; subscribing as declared and below the own prefix; never the shared inbox with a prefix. */
  ghost predicate AcceptsAsDeclared(served: Permissions, u: UserWithKey, subject: string)
  {
    && served.publish.Some? && served.subscribe.Some?
    && (Accepts(served.publish.value, subject) <==> Grants(DeclaredPublish(u.user.permissions), subject))
    && (Accepts(served.subscribe.value, subject)
        <==>
        && (Grants(DeclaredSubscribe(u.user.permissions), subject)
            || (u.inboxPrefix != "" && Under(u.inboxPrefix, subject)
                && !Denies(DeclaredSubscribe(u.user.permissions), subject)))
        && (u.inboxPrefix != "" ==> !Under("_INBOX", subject)))
  }

  /** Responding is allowed exactly when it is declared and not switched off, and within the declared bounds. */
  predicate RespondsAsDeclared(served: Option<ResponsePermission>, p: Option<PermissionsSpec>)
  {
    var declared := if p.Some? then p.value.allowResponses else None;
    if declared.Some? && declared.value.boolValue != Some(false) then
      served == Some(ResponsePermission(true, declared.value.maxMsgs, declared.value.ttl))
    else served == None
  }

  /** A served user has the entry's key, and may do what its declaration and prefix call for, on every subject. */
  ghost predicate Permits(served: UserConfig, u: UserWithKey)
  {
    && served.nkey == u.publicKey && served.permissions.Some?
    && RespondsAsDeclared(served.permissions.value.allowResponses, u.user.permissions)
    && forall subject :: AcceptsAsDeclared(served.permissions.value, u, subject)
  }

  /** A size that was declared reads as that number of bytes; one that was not is not printed. */
  predicate SizeAsDeclared(served: string, q: Option<int>)
  {
    match q
    case None => served == ""
    case Some(bytes) => served != "" && ReadSize(served) == Some(bytes)
  }

  predicate JetStreamAsDeclared(served: JetStreamConfig, js: AccountJetStream)
  {
    && SizeAsDeclared(served.maxMemory, js.maxMemory) && SizeAsDeclared(served.maxFile, js.maxFile)
    && served.maxStreams == js.maxStreams && served.maxConsumers == js.maxConsumers
    && served.maxBytesRequired == js.maxBytesRequired && served.maxAckPending == js.maxAckPending
    && SizeAsDeclared(served.memoryMaxStreamBytes, js.memoryMaxStreamBytes)
    && SizeAsDeclared(served.diskMaxStreamBytes, js.diskMaxStreamBytes)
  }

  predicate LimitsAsDeclared(served: LimitsConfig, l: AccountLimits)
  {
    && served.maxConnections == l.maxConnections && served.maxSubscriptions == l.maxSubscriptions
    && SizeAsDeclared(served.maxPayload, l.maxPayload) && served.maxLeafnodes == l.maxLeafnodes
  }

  /** The served account has the declared quotas, in bytes where they are sizes. */
  predicate QuotasAsDeclared(served: AccountConfig, a: Account)
  {
    && served.jetStream.Some? == a.jetStream.Some? && served.limits.Some? == a.limits.Some?
    && (a.jetStream.Some? ==> JetStreamAsDeclared(served.jetStream.value, a.jetStream.value))
    && (a.limits.Some? ==> LimitsAsDeclared(served.limits.value, a.limits.value))
  }

  /** What the printed config makes the server enforce for user j of account i. */
  ghost predicate Enforced(accounts: seq<AccountWithUsers>, view: ServerView, i: nat, j: nat)
    requires i < |accounts| && j < |accounts[i].users|
  {
    var name := accounts[i].account.name;
    && name in view.config.accounts
    && |view.config.accounts[name].users| == |accounts[i].users|
    && Permits(view.config.accounts[name].users[j], accounts[i].users[j])
  }

  lemma ServedUser(accounts: seq<AccountWithUsers>, cfg: Config, i: nat, j: nat)
    requires i < |accounts| && j < |accounts[i].users|
    requires accounts[i].account.name in cfg.accounts
    requires cfg.accounts[accounts[i].account.name] == ConvertAccount(accounts[i])
    ensures var name, u := accounts[i].account.name, accounts[i].users[j];
            && name in Normal(cfg).accounts
            && |Normal(cfg).accounts[name].users| == |accounts[i].users|
            && Normal(cfg).accounts[name].users[j] == NormalUser(ConvertUser(u))
  {
    hide NormalUser, ConvertUser;
  }

  lemma ConvertedUserPermits(u: UserWithKey)
    ensures Permits(NormalUser(ConvertUser(u)), u)
  {
    var p := u.user.permissions;
    var served := NormalUser(ConvertUser(u)).permissions.value;
    var converted := ConvertPermissions(p, u.inboxPrefix);
    assert served.publish == converted.publish && served.subscribe == converted.subscribe;
    forall subject ensures AcceptsAsDeclared(served, u, subject) {
      PublishMeaning(p, u.inboxPrefix, subject);
      SubscribeMeaning(p, u.inboxPrefix, subject);
      hide Accepts, Grants, Denies, Under, Injected, Backfilled;
    }
  }

  /**
   * End to end: convert, print, read back. The server finds every listed user under its account with its key,
   * lets it publish and subscribe exactly what its declaration and prefix call for, and respond as declared.
   */
  lemma DeclarationsAreEnforced(accounts: seq<AccountWithUsers>, cfg: Config, i: nat, j: nat)
    requires LegalInput(accounts) && DistinctNames(accounts)
    requires cfg.accounts == ConvertedAccounts(accounts)
    requires i < |accounts| && j < |accounts[i].users|
    ensures ReadConfig(ConfigBody(cfg)).Some?
    ensures Enforced(accounts, ReadConfig(ConfigBody(cfg)).value, i, j)
    ensures ReadConfig(ConfigBody(cfg)).value.config.accounts.Keys == ConvertedAccounts(accounts).Keys
  {
    hide ReadConfig, ConfigBody, Permits, LegalAccount, ConvertAccount, NormalUser, ConvertUser;
    ConvertedConfigIsLegal(accounts, cfg);
    PrintedConfigReadBack(cfg);
    ConvertedAt(accounts, i);
    ServedUser(accounts, cfg, i, j);
    ConvertedUserPermits(accounts[i].users[j]);
  }

  lemma EmptyIsNoSize()
    ensures ReadSize("") == None
  {}

  lemma SizeOfIsDeclared(q: Option<int>)
    ensures SizeAsDeclared(SizeOf(q), q)
  {
    if q.Some? {
      SizeReadBack(q.value);
      EmptyIsNoSize();
    }
    hide ReadSize, QuantityToNATSSize, ReadSizeParts;
  }

  lemma ConvertedQuotas(a: AccountWithUsers)
    ensures QuotasAsDeclared(ConvertAccount(a), a.account)
  {
    hide SizeAsDeclared, SizeOf, ConvertUsers;
    if a.account.jetStream.Some? {
      var js := a.account.jetStream.value;
      SizeOfIsDeclared(js.maxMemory);
      SizeOfIsDeclared(js.maxFile);
      SizeOfIsDeclared(js.memoryMaxStreamBytes);
      SizeOfIsDeclared(js.diskMaxStreamBytes);
    }
    if a.account.limits.Some? {
      SizeOfIsDeclared(a.account.limits.value.maxPayload);
    }
  }

  /** The server finds every account with its declared quotas, to the byte. */
  lemma {:induction false} QuotasAreEnforced(accounts: seq<AccountWithUsers>, cfg: Config, i: nat)
    requires LegalInput(accounts) && DistinctNames(accounts)
    requires cfg.accounts == ConvertedAccounts(accounts) && i < |accounts|
    ensures ReadConfig(ConfigBody(cfg)).Some?
    ensures var view, name := ReadConfig(ConfigBody(cfg)).value, accounts[i].account.name;
            name in view.config.accounts && QuotasAsDeclared(view.config.accounts[name], accounts[i].account)
  {
    hide ReadConfig, ConfigBody, JetStreamAsDeclared, LimitsAsDeclared, LegalConfig, LegalInput, ConvertAccount,
      NormalUsers;
    ConvertedConfigIsLegal(accounts, cfg);
    PrintedConfigReadBack(cfg);
    ConvertedAt(accounts, i);
    ConvertedQuotas(accounts[i]);
  }

  lemma {:induction false} TotalZero(accounts: seq<AccountWithUsers>)
    ensures UserTotal(accounts) == 0 <==> forall i :: 0 <= i < |accounts| ==> accounts[i].users == []
  {
    if accounts != [] {
      var front := accounts[..|accounts| - 1];
      TotalZero(front);
      if forall i :: 0 <= i < |front| ==> front[i].users == [] {
        assert forall i :: 0 <= i < |front| ==> accounts[i].users == front[i].users;
      }
      if forall i :: 0 <= i < |accounts| ==> accounts[i].users == [] {
        assert forall i :: 0 <= i < |front| ==> front[i].users == accounts[i].users;
      }
    }
  }

  /** May neither publish nor subscribe, whatever the subject. */
  ghost predicate DeniedEverything(u: UserConfig)
  {
    && u.permissions.Some? && u.permissions.value.publish.Some? && u.permissions.value.subscribe.Some?
    && forall subject :: !Accepts(u.permissions.value.publish.value, subject)
                         && !Accepts(u.permissions.value.subscribe.value, subject)
  }

  lemma SentinelIsDenied()
    ensures DeniedEverything(SENTINEL_USER) && SENTINEL_USER.permissions.value.allowResponses == None
  {
    forall subject ensures AnyCovers([">"], subject) {
      FullWildcardCoversAll(subject);
      assert ">" in [">"];
    }
    hide Covers;
  }

  /**
   * A config without users has one user in its authorization block, who has the sentinel's key and may do
   * nothing; a config with users has no such block.
   */
  lemma {:induction false} SentinelExactlyWithoutUsers(accounts: seq<AccountWithUsers>, cfg: Config)
    requires LegalInput(accounts) && DistinctNames(accounts) && cfg.accounts == ConvertedAccounts(accounts)
    ensures ReadConfig(ConfigBody(cfg)).Some?
    ensures var authorization := ReadConfig(ConfigBody(cfg)).value.authorization;
            && (authorization.Some? <==> forall i :: 0 <= i < |accounts| ==> accounts[i].users == [])
            && (authorization.Some? ==>
                  && |authorization.value| == 1 && authorization.value[0].nkey == SENTINEL_NKEY
                  && DeniedEverything(authorization.value[0])
                  && authorization.value[0].permissions.value.allowResponses == None)
  {
    SentinelIsDenied();
    ConvertedConfigIsLegal(accounts, cfg);
    PrintedConfigReadBack(cfg);
    UserCountConserved(accounts);
    TotalZero(accounts);
    hide ReadConfig, ConfigBody, LegalConfig, LegalInput, DistinctNames, ConvertedAccounts, UserTotal, CountUsers,
      DeniedEverything;
  }
}
