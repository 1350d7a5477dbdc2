/**
 * internal/controller/natscluster_controller.go: Reconcile as a whole, from the listed objects to the
 * published ConfigMap, the reload pass and the status write.
 */
module Reconciler {
  import opened Text
  import opened Sorting
  import opened HashHeader
  import opened Api
  import opened Rules
  import opened Secrets
  import opened NatsConfig
  import opened ConfigText
  import G = Generate
  import opened Convert
  import opened Resolve
  import opened ResolveTheorems
  import opened ListingOrder
  import opened ReloadPass
  import opened Freshness
  import opened Statuses

  class ConfigMapStore {
    var texts: map<Key, string>

    /** ensureConfigMap: nothing is written when the content is already there. */
    method EnsureConfigMap(key: Key, configStr: string, write: Write) returns (ok: bool)
      modifies this
      ensures var same := key in old(texts) && old(texts)[key] == configStr;
              && (ok <==> same || write == Applied)
              && texts == if same || write == Refused then old(texts) else old(texts)[key := configStr]
    {
      if key in texts && texts[key] == configStr {
        return true;
      }
      if write != Refused {
        texts := texts[key := configStr];
      }
      return write == Applied;
    }
  }

  /** Overrides the condition of every account in a system account conflict. */
  method MarkConflicts(accounts: array<LiveAccount>, conflicts: seq<string>, conditionFails: nat -> bool)
    returns (failed: bool)
    modifies accounts
    ensures forall i :: 0 <= i < accounts.Length ==> accounts[i] == Conflicted(old(accounts[i]), conflicts)
    ensures failed
            <==> exists i :: 0 <= i < accounts.Length && old(accounts[i]).spec.name in conflicts && conditionFails(i)
  {
    failed := false;
    for i := 0 to accounts.Length
      invariant forall t :: i <= t < accounts.Length ==> accounts[t] == old(accounts[t])
      invariant forall t :: 0 <= t < i ==> accounts[t] == Conflicted(old(accounts[t]), conflicts)
      invariant failed <==> exists t :: 0 <= t < i && old(accounts[t]).spec.name in conflicts && conditionFails(t)
    {
      if accounts[i].spec.name !in conflicts {
        continue;
      }
      failed := failed || conditionFails(i);
      var condition := SystemAccountConflict(accounts[i].spec.generation, conflicts);
      accounts[i] := accounts[i].(status := accounts[i].status.(ready := Some(condition)));
    }
  }

  lemma NamesMakeKeysDistinct(all: seq<Account>, cluster: Key, matching: seq<Account>)
    requires DistinctAccounts(all) && multiset(matching) == multiset(Matching(all, cluster))
    ensures DistinctAccountNames(matching) && DistinctAccounts(matching)
  {
    MatchingNamesDistinct(all, cluster);
    DistinctCarriesOver(Matching(all, cluster), matching, AccountName);
    forall i, j | 0 <= i < j < |matching| ensures AccountKey(matching[i]) != AccountKey(matching[j]) {
      assert AccountName(matching[i]) != AccountName(matching[j]);
    }
  }

  /** The list of conflicting accounts is not part of the text. */
  lemma ConflictsNotPrinted(cfg: Config, out: seq<AccountWithUsers>)
    requires cfg.accounts == ConvertedAccounts(out) && cfg.systemAccount == Designated(FlaggedNames(out))
    ensures ConfigBody(cfg) == ConfigBody(ConfigOf(out))
  {
    NormalPrintsSame(cfg);
    NormalPrintsSame(ConfigOf(out));
    assert Normal(cfg) == Normal(ConfigOf(out));
    hide ConfigBody, Normal;
  }

  lemma SameStore(secrets: map<Key, Stored>)
    ensures KeyPairsKept(secrets, secrets)
  {}

  /** Writing the condition of some account, or of some user of a processed account, failed. */
  ghost predicate ConditionFailed(env: World, matching: seq<Account>, luck: PassLuck, users: seq<User>)
  {
    || (exists i :: 0 <= i < |matching| && luck.accountConditionFails(i))
    || UserConditionFailed(env, matching, luck, users)
  }

  /** Some condition of an account, or of a user naming an account whose regexes compile, could not be written. */
  lemma ConditionFailedExactly(env: World, matching: seq<Account>, luck: PassLuck, users: seq<User>)
    requires DistinctAccounts(matching)
    ensures ConditionFailed(env, matching, luck, users)
            <==> || (exists i :: 0 <= i < |matching| && luck.accountConditionFails(i))
                 || (exists i, j ::
                       && 0 <= i < |matching| && 0 <= j < |users| && luck.userConditionFails(j)
                       && References(users[j], matching[i]) && RegexesValid(env.compiles, matching[i].userRules))
  {
    forall i, j | && 0 <= i < |matching| && 0 <= j < |users|
                  && References(users[j], matching[i]) && RegexesValid(env.compiles, matching[i].userRules)
      ensures Home(env, matching, users[j]) == Some(matching[i])
    {
      HomeIs(env, matching, i, users[j]);
    }
    forall j | 0 <= j < |users| && Home(env, matching, users[j]).Some?
      ensures exists i :: && 0 <= i < |matching| && References(users[j], matching[i])
                          && RegexesValid(env.compiles, matching[i].userRules)
    {
      HomeIsListed(env, matching, users[j]);
    }
    hide Home, References, RegexesValid;
  }

  /** Two or more flagged accounts reached the converter, and one of their conflict conditions was not written. */
  ghost predicate ConflictConditionFailed(matching: seq<Account>, flagged: seq<string>, conditionFails: nat -> bool)
  {
    |flagged| >= 2 && exists i :: 0 <= i < |matching| && matching[i].name in flagged && conditionFails(i)
  }

  lemma PassResolved(env: World, links: Links, specs: seq<Account>, out: Resolution, luck: PassLuck, was: seq<LiveUser>,
                     now: seq<LiveUser>, before: map<Key, Stored>, after: map<Key, Stored>,
                     accountsWas: seq<LiveAccount>, accountsNow: seq<LiveAccount>, failed: bool)
    requires PassDone(env, specs, |specs|, SiteOf(specs, links), luck, was, now, before, after, accountsWas,
                      accountsNow, out,
                      failed)
    ensures Resolved(env, specs, UserSpecs(was), after, out.accounts) && out.totalUsers == UserTotal(out.accounts)
    ensures AccountsDone(env, specs, SiteOf(specs, links), luck, was, now, before, after)
    ensures |accountsNow| == |specs|
    ensures forall t :: 0 <= t < |specs| ==>
                   accountsNow[t] == AccountAfterPass(env, links, UserSpecs(was), accountsWas[t])
    ensures failed <==> ConditionFailed(env, specs, luck, UserSpecs(was))
  {
    assert specs[..|specs|] == specs;
    hide Resolved, AccountsDone, UserConditionFailed, AllFlagged, AccountAfterPass;
  }

  /** The loop over conflicting accounts, entered only when there are any. */
  method SurfaceConflicts(accounts: array<LiveAccount>, ghost matching: seq<Account>, conflicts: seq<string>,
                          ghost out: seq<AccountWithUsers>, conditionFails: nat -> bool)
    returns (failed: bool)
    requires AccountSpecs(accounts[..]) == matching && conflicts == ConflictNames(out)
    modifies accounts
    ensures forall i :: 0 <= i < accounts.Length ==> accounts[i] == Conflicted(old(accounts[i]), conflicts)
    ensures failed <==> ConflictConditionFailed(matching, FlaggedNames(out), conditionFails)
  {
    failed := false;
    SortBySorts(FlaggedNames(out), Self);
    forall n ensures |FlaggedNames(out)| >= 2 ==> (n in conflicts <==> n in FlaggedNames(out)) {
      assert n in multiset(conflicts) <==> n in conflicts;
      assert n in multiset(FlaggedNames(out)) <==> n in FlaggedNames(out);
    }
    assert |multiset(conflicts)| == |conflicts| && |multiset(FlaggedNames(out))| == |FlaggedNames(out)|;
    forall i | 0 <= i < |matching| ensures accounts[i].spec == matching[i] {
      assert AccountSpecs(accounts[..])[i] == accounts[i].spec;
    }
    hide FlaggedNames, SortBy;
    if |conflicts| > 0 {
      failed := MarkConflicts(accounts, conflicts, conditionFails);
    }
  }

  lemma SpecsStay(env: World, links: Links, matching: seq<Account>, users: seq<User>, recorded: map<Object, Status>,
                  now: seq<LiveAccount>)
    requires |now| == |matching|
    requires forall t :: 0 <= t < |now| ==>
                    now[t] == AccountAfterPass(env, links, users, LiveAccountOf(recorded, matching[t]))
    ensures AccountSpecs(now) == matching
  {}

  lemma SpecsAre(users: seq<LiveUser>)
    ensures |UserSpecs(users)| == |users| && forall j :: 0 <= j < |users| ==> UserSpecs(users)[j] == users[j].spec
  {}

  /** Every account of the cluster has got its final status. */
  ghost predicate AccountsSettled(env: World, links: Links, matching: seq<Account>, users: seq<User>,
                                  recorded: map<Object, Status>, out: seq<AccountWithUsers>, settled: seq<LiveAccount>)
  {
    && |settled| == |matching|
    && forall i :: 0 <= i < |matching| ==>
              settled[i] == FinalAccount(env, links, users, recorded, ConflictNames(out), matching[i])
  }

  /** Steps 2 to 5: list, resolve, convert and print. None when a List or a credential call fails. */
  method Render(c: Context, env: World, links: Links, key: Key, all: Option<seq<Account>>,
                recorded: map<Object, Status>, usersListed: bool, users: array<LiveUser>, manager: NKeySecretManager,
                luck: PassLuck, conflictConditionFails: nat -> bool)
    returns (matching: seq<Account>, ghost settled: seq<LiveAccount>, rendered: Option<Resolution>, body: string,
             statusUpdateFailed: bool)
    requires all.Some? ==> DistinctAccounts(all.value)
    requires DistinctUsers(UserSpecs(users[..]))
    modifies manager, users
    ensures UserSpecs(users[..]) == UserSpecs(old(users[..])) && KeyPairsKept(old(manager.secrets), manager.secrets)
    ensures all.None? || !usersListed ==> rendered == None && manager.secrets == old(manager.secrets)
    ensures all.Some? && usersListed ==>
              && SortedBy(matching, AccountName) && multiset(matching) == multiset(Matching(all.value, key))
              && OnlyWelcomedTouched(env, matching, UserSpecs(users[..]), old(manager.secrets), manager.secrets)
              && (rendered.Some?
                  <==> forall j :: 0 <= j < users.Length && Welcomed(env, matching, old(users[j]).spec) ==>
                                                    EnsureSucceeds(old(manager.secrets), old(users[j]), luck.ensure(j)))
    ensures rendered.Some? ==>
              && Resolved(env, matching, UserSpecs(users[..]), manager.secrets, rendered.value.accounts)
              && rendered.value.totalUsers == UserTotal(rendered.value.accounts)
              && body == ConfigBody(ConfigOf(rendered.value.accounts))
              && AccountsDone(env, matching, SiteOf(matching, links), luck, old(users[..]), users[..],
                              old(manager.secrets), manager.secrets)
              && AccountsSettled(env, links, matching, UserSpecs(users[..]), recorded, rendered.value.accounts, settled)
              && (statusUpdateFailed
                  <==> || ConditionFailed(env, matching, luck, UserSpecs(users[..]))
                       || ConflictConditionFailed(matching, FlaggedNames(rendered.value.accounts),
                                                  conflictConditionFails))
  {
    hide Welcomed, EnsureSucceeds, Resolved, ConfigBody, ConfigOf, Kept, SiteOf, UserTotal, Matching, DistinctUsers,
      Designated, FlaggedNames, ConvertedAccounts, SameKeyPair, AccountsDone, ConditionFailed, Conflicted,
      AccountAfterPass;
    matching, settled, rendered, body, statusUpdateFailed := [], [], None, "", false;
    SameStore(manager.secrets);
    if all.None? || !usersListed {
      return;
    }
    matching := ListMatchingAccounts(all.value, key);
    NamesMakeKeysDistinct(all.value, key, matching);
    var accounts := new LiveAccount[|matching|](i requires 0 <= i < |matching| => LiveAccountOf(recorded, matching[i]));
    assert AccountSpecs(accounts[..]) == matching;
    ghost var accountsWas := accounts[..];
    rendered, statusUpdateFailed := ReconcileAccountsAndUsers(env, accounts, users, manager, links, luck);
    if rendered.None? {
      return;
    }
    ghost var out := rendered.value.accounts;
    ghost var accountsNow := accounts[..];
    PassResolved(env, links, matching, rendered.value, luck, old(users[..]), users[..], old(manager.secrets),
                 manager.secrets,
                 accountsWas, accountsNow, statusUpdateFailed);
    SpecsStay(env, links, matching, UserSpecs(old(users[..])), recorded, accountsNow);
    var cfg := ConvertToNatsConfig(rendered.value.accounts);
    var conflictFailed := SurfaceConflicts(accounts, matching, cfg.systemAccountConflicts, out, conflictConditionFails);
    settled := accounts[..];
    statusUpdateFailed := statusUpdateFailed || conflictFailed;
    body := G.Generate(cfg);
    ConflictsNotPrinted(cfg, out);
  }

  /** Steps 6 to 9: publish, reload, record. */
  method PublishAndReload(c: Context, key: Key, ghost out: seq<AccountWithUsers>, body: string, accounts: nat,
                          users: nat, statusUpdateFailed: bool, configMaps: ConfigMapStore, configMapWrite: Write,
                          reconciler: NatsClusterReconciler, stored: ClusterObject, seenHash: string,
                          serverRef: Option<Workload>, found: string -> bool, selectorOk: bool,
                          listing: Option<seq<PodView>>, probes: seq<Probe>, delivered: seq<bool>, write: StatusWrite)
    returns (result: ReconcileResult, signalled: seq<string>, ghost passed: bool, ghost inSync: bool)
    requires body == ConfigBody(ConfigOf(out))
    requires listing.Some? ==> |probes| == |delivered| == |listing.value|
    requires write == Written ==> seenHash == stored.lastConfigHash
    modifies configMaps, reconciler, stored
    ensures configMaps.texts == (if configMapWrite == Refused then old(configMaps.texts)
                                 else old(configMaps.texts)[key := Published(c, out)])
    ensures result != ReconcileError || signalled != [] || stored.lastConfigHash != old(stored.lastConfigHash) ==>
              key in configMaps.texts && configMaps.texts[key] == Published(c, out)
    ensures stored.lastConfigHash == if passed && write == Written then RecordedHash(inSync, c.digest(body), seenHash)
                                     else old(stored.lastConfigHash)
    ensures stored.lastConfigHash != old(stored.lastConfigHash) ==>
              inSync && stored.accountCount == accounts && stored.userCount == users
    ensures result == Done <==> passed && inSync && write == Written && !statusUpdateFailed
    ensures result == RequeueNow <==> passed && write == Conflict
    ensures result == ReconcileError <==> !passed || write == WriteFailed
    ensures var same := key in old(configMaps.texts) && old(configMaps.texts)[key] == Published(c, out);
            passed <==> && (configMapWrite == Applied || same)
                        && !(NeedsPass(serverRef.Some?, c.digest(body), seenHash, key in old(reconciler.reloadedOnce))
                             && PassFails(serverRef.value, found, selectorOk, listing, probes, delivered))
  {
    hide ConfigBody, ConfigOf, FormatHashHeader, PassFails, SignalledNames;
    signalled, passed, inSync := [], false, false;
    var hash := c.digest(body);
    var text := FormatHashHeader(hash) + body;
    var ok := configMaps.EnsureConfigMap(key, text, configMapWrite);
    if !ok {
      return ReconcileError, signalled, passed, inSync;
    }
    ghost var passFailed;
    result, passFailed, inSync, signalled :=
      reconciler.FinishReconcile(key, stored, seenHash, hash, accounts, users, statusUpdateFailed, serverRef, found,
                                 selectorOk, listing, probes, delivered, write);
    passed := !passFailed;
  }

  /**
   * Reconcile. The result of every API call is an input. Whatever gets published is the text of a
   * resolution of the listed objects, and the recorded hash is the digest of its body.
   */
  method Reconcile(c: Context, env: World, links: Links, key: Key, getFails: bool, live: bool,
                   all: Option<seq<Account>>, recorded: map<Object, Status>, usersListed: bool, users: array<LiveUser>,
                   manager: NKeySecretManager, luck: PassLuck, conflictConditionFails: nat -> bool,
                   configMaps: ConfigMapStore, configMapWrite: Write, reconciler: NatsClusterReconciler,
                   stored: ClusterObject, seenHash: string, serverRef: Option<Workload>, found: string -> bool,
                   selectorOk: bool, listing: Option<seq<PodView>>, probes: seq<Probe>, delivered: seq<bool>,
                   write: StatusWrite)
    returns (result: ReconcileResult, matching: seq<Account>, rendered: Option<Resolution>, signalled: seq<string>)
    requires all.Some? ==> DistinctAccounts(all.value)
    requires DistinctUsers(UserSpecs(users[..]))
    requires listing.Some? ==> |probes| == |delivered| == |listing.value|
    requires write == Written ==> seenHash == stored.lastConfigHash
    modifies manager, users, configMaps, reconciler, stored
    ensures KeyPairsKept(old(manager.secrets), manager.secrets)
    ensures getFails || !live ==> rendered == None && result == if getFails then ReconcileError else Done
    ensures rendered.None? ==>
              && configMaps.texts == old(configMaps.texts) && stored.lastConfigHash == old(stored.lastConfigHash)
              && signalled == [] && (live ==> result == ReconcileError)
    ensures rendered.Some? ==>
              && all.Some? && SortedBy(matching, AccountName)
                 && multiset(matching) == multiset(Matching(all.value, key))
              && Resolved(env, matching, UserSpecs(users[..]), manager.secrets, rendered.value.accounts)
              && configMaps.texts == (if configMapWrite == Refused then old(configMaps.texts)
                                      else old(configMaps.texts)[key := Published(c, rendered.value.accounts)])
              && (result != ReconcileError || signalled != [] || stored.lastConfigHash != old(stored.lastConfigHash) ==>
                    key in configMaps.texts && configMaps.texts[key] == Published(c, rendered.value.accounts))
              && (result == Done ==>
                    stored.lastConfigHash == c.digest(ConfigBody(ConfigOf(rendered.value.accounts)))
                    && (forall i :: 0 <= i < |matching| ==> !luck.accountConditionFails(i))
                    && (forall i, j :: 0 <= i < |matching| && 0 <= j < users.Length && luck.userConditionFails(j)
                                       && References(users[j].spec, matching[i]) ==>
                                       !RegexesValid(env.compiles, matching[i].userRules)))
              && (stored.lastConfigHash != old(stored.lastConfigHash) ==>
                    && stored.lastConfigHash == c.digest(ConfigBody(ConfigOf(rendered.value.accounts)))
                    && stored.accountCount == |matching| && stored.userCount == UserTotal(rendered.value.accounts))
  {
    hide Resolved, ConfigBody, ConfigOf, Published, KeyPairsKept, SortedBy, Matching, DistinctAccounts, DistinctUsers,
      UserTotal, Welcomed, EnsureSucceeds, OnlyWelcomedTouched, UserSpecs, AccountsDone, ConditionFailed,
      ConflictConditionFailed, PassFails, NeedsPass;
    matching, rendered, signalled := [], None, [];
    if getFails {
      SameStore(manager.secrets);
      return ReconcileError, matching, rendered, signalled;
    }
    if !live {
      SameStore(manager.secrets);
      return Done, matching, rendered, signalled;
    }
    ghost var settled;
    var body, statusUpdateFailed;
    matching, settled, rendered, body, statusUpdateFailed :=
      Render(c, env, links, key, all, recorded, usersListed, users, manager, luck, conflictConditionFails);
    if rendered.None? {
      return ReconcileError, matching, rendered, signalled;
    }
    NamesMakeKeysDistinct(all.value, key, matching);
    ConditionFailedExactly(env, matching, luck, UserSpecs(users[..]));
    SpecsAre(users[..]);
    ghost var passed, inSync;
    result, signalled, passed, inSync :=
      PublishAndReload(c, key, rendered.value.accounts, body, |matching|, rendered.value.totalUsers, statusUpdateFailed,
                       configMaps, configMapWrite, reconciler, stored, seenHash, serverRef, found, selectorOk, listing,
                       probes, delivered, write);
  }
}
