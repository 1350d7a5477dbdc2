/** What a server makes of a published file, in terms of the accounts and users declared. */
module Enforcement {
  import opened Text
  import opened HashHeader
  import opened Api
  import opened Rules
  import opened Secrets
  import opened NatsConfig
  import opened ConfigText
  import opened Convert
  import opened Resolve
  import opened ResolveTheorems
  import opened ListingOrder
  import opened SystemAccount
  import Queue = Freshness

  /** A processed account's rules let the user in. */
  ghost predicate Belongs(c: Queue.Context, a: Account, u: User)
  {
    RegexesValid(c.compiles, a.userRules) && Admits(Queue.Truth(c), a, u)
  }

  /** Account names and the keys of users who belong are printable words. */
  ghost predicate Printable(c: Queue.Context, accounts: seq<Account>, users: seq<User>, secrets: map<Key, Stored>)
  {
    && (forall a <- accounts :: Word(a.name))
    && forall a, u | a in accounts && u in users && Belongs(c, a, u) :: Word(WithKey(secrets, u).publicKey)
  }

  /** The server has the user under the account, with its stored key, and enforces its declaration and prefix. */
  ghost predicate Serves(view: ServerView, a: Account, entry: UserWithKey)
  {
    && a.name in view.config.accounts
    && exists j :: 0 <= j < |view.config.accounts[a.name].users|
              && Permits(view.config.accounts[a.name].users[j], entry)
  }

  /** The served user is one who belongs in the named account. */
  ghost predicate Accounted(c: Queue.Context, accounts: seq<Account>, users: seq<User>, secrets: map<Key, Stored>,
                            served: UserConfig, name: string)
  {
    exists a, u :: && a in accounts && a.name == name && u in users && Belongs(c, a, u)
                   && Permits(served, WithKey(secrets, u))
  }

  /** The named account is a processed one, with its declared quotas. */
  ghost predicate Processed(c: Queue.Context, accounts: seq<Account>, served: AccountConfig, name: string)
  {
    exists a <- accounts :: a.name == name && RegexesValid(c.compiles, a.userRules) && QuotasAsDeclared(served, a)
  }

  /** The account is flagged and processed, and no other account is both. */
  ghost predicate IsSystemAccount(c: Queue.Context, accounts: seq<Account>, a: Account)
  {
    && a.systemAccount && RegexesValid(c.compiles, a.userRules)
    && forall b <- accounts :: b.systemAccount && RegexesValid(c.compiles, b.userRules) ==> b == a
  }

  /** Users outside of accounts may do nothing, and there are such users only while no account has any. */
  ghost predicate NobodyElse(view: ServerView)
  {
    && (view.authorization.Some? <==> forall name <- view.config.accounts :: view.config.accounts[name].users == [])
    && (view.authorization.Some? ==> forall served <- view.authorization.value :: DeniedEverything(served))
  }

  /** Exactly those who belong are served, each with exactly what is declared, in exactly the processed accounts. */
  ghost predicate Exact(c: Queue.Context, accounts: seq<Account>, users: seq<User>, secrets: map<Key, Stored>,
                        view: ServerView)
  {
    && (forall a, u | a in accounts && u in users && Belongs(c, a, u) :: Serves(view, a, WithKey(secrets, u)))
    && (forall name, j | name in view.config.accounts && 0 <= j < |view.config.accounts[name].users| ::
          Accounted(c, accounts, users, secrets, view.config.accounts[name].users[j], name))
    && (forall a <- accounts :: RegexesValid(c.compiles, a.userRules) ==> a.name in view.config.accounts)
    && (forall name <- view.config.accounts :: Processed(c, accounts, view.config.accounts[name], name))
    && (forall a <- accounts :: view.config.systemAccount == a.name <==> IsSystemAccount(c, accounts, a))
    && NobodyElse(view)
  }

  lemma ListedEntry(env: World, accounts: seq<Account>, users: seq<User>, secrets: map<Key, Stored>,
                    out: seq<AccountWithUsers>, i: nat, j: nat)
    requires Resolved(env, accounts, users, secrets, out) && i < |out| && j < |out[i].users|
    ensures var a, e := out[i].account, out[i].users[j];
            && a in accounts && e.user in users && RegexesValid(env.compiles, a.userRules) && Admits(env, a, e.user)
            && e == WithKey(secrets, e.user)
  {
    hide Admits, WithKey, RegexesValid, IsListing, Kept;
    assert out[i].account in Kept(env, accounts);
    KeptAreListed(env, accounts, out[i].account);
    ListingHolds(env, out[i].account, users, secrets, out[i].users, out[i].users[j]);
  }

  lemma OutputAccount(env: World, accounts: seq<Account>, users: seq<User>, secrets: map<Key, Stored>,
                      out: seq<AccountWithUsers>, i: nat)
    requires Resolved(env, accounts, users, secrets, out) && i < |out|
    ensures out[i].account in accounts && RegexesValid(env.compiles, out[i].account.userRules)
  {
    assert out[i].account in Kept(env, accounts);
    KeptAreListed(env, accounts, out[i].account);
    hide Kept, IsListing, RegexesValid;
  }

  lemma OutputIsLegal(c: Queue.Context, accounts: seq<Account>, users: seq<User>, secrets: map<Key, Stored>,
                      out: seq<AccountWithUsers>)
    requires Resolved(Queue.Truth(c), accounts, users, secrets, out) && Printable(c, accounts, users, secrets)
    ensures LegalInput(out)
  {
    hide Resolved, RegexesValid, Admits, WithKey, Word;
    forall i | 0 <= i < |out|
      ensures Word(out[i].account.name) && forall j :: 0 <= j < |out[i].users| ==> Word(out[i].users[j].publicKey)
    {
      OutputAccount(Queue.Truth(c), accounts, users, secrets, out, i);
      forall j | 0 <= j < |out[i].users| ensures Word(out[i].users[j].publicKey) {
        ListedEntry(Queue.Truth(c), accounts, users, secrets, out, i, j);
        assert Belongs(c, out[i].account, out[i].users[j].user);
      }
    }
  }

  lemma BelongingIsServed(c: Queue.Context, accounts: seq<Account>, users: seq<User>, secrets: map<Key, Stored>,
                          out: seq<AccountWithUsers>, a: Account, u: User)
    requires Resolved(Queue.Truth(c), accounts, users, secrets, out) && LegalInput(out) && DistinctNames(out)
    requires a in accounts && u in users && Belongs(c, a, u)
    requires ReadConfig(ConfigBody(ConfigOf(out))).Some?
    ensures Serves(ReadConfig(ConfigBody(ConfigOf(out))).value, a, WithKey(secrets, u))
  {
    hide Resolved, ConfigBody, ReadConfig, LegalInput, Permits, ConvertedAccounts, DistinctNames, RegexesValid, Judge,
      WithKey;
    MembershipExactly(Queue.Truth(c), accounts, users, secrets, out, u, a);
    var i: nat, j: nat :| Appears(out, u, a, i, j);
    ListedEntry(Queue.Truth(c), accounts, users, secrets, out, i, j);
    DeclarationsAreEnforced(out, ConfigOf(out), i, j);
  }

  lemma ReadBack(out: seq<AccountWithUsers>)
    requires LegalInput(out) && DistinctNames(out)
    ensures ReadConfig(ConfigBody(ConfigOf(out))).Some?
    ensures ReadConfig(ConfigBody(ConfigOf(out))).value.config == Normal(ConfigOf(out))
  {
    ConvertedConfigIsLegal(out, ConfigOf(out));
    PrintedConfigReadBack(ConfigOf(out));
    hide ConfigBody, ReadConfig, LegalConfig, LegalInput, Normal, ConvertedAccounts;
  }

  lemma ServedCount(out: seq<AccountWithUsers>, i: nat)
    requires DistinctNames(out) && i < |out|
    ensures out[i].account.name in Normal(ConfigOf(out)).accounts
    ensures |Normal(ConfigOf(out)).accounts[out[i].account.name].users| == |out[i].users|
  {
    ConvertedAt(out, i);
    hide ConvertedAccounts;
  }

  lemma ServedBelongs(c: Queue.Context, accounts: seq<Account>, users: seq<User>, secrets: map<Key, Stored>,
                      out: seq<AccountWithUsers>, name: string, j: nat)
    requires Resolved(Queue.Truth(c), accounts, users, secrets, out) && LegalInput(out) && DistinctNames(out)
    requires ReadConfig(ConfigBody(ConfigOf(out))).Some?
    requires var view := ReadConfig(ConfigBody(ConfigOf(out))).value;
             name in view.config.accounts && j < |view.config.accounts[name].users|
    ensures Accounted(c, accounts, users, secrets,
                      ReadConfig(ConfigBody(ConfigOf(out))).value.config.accounts[name].users[j],
                      name)
  {
    hide Resolved, ConfigBody, ReadConfig, LegalInput, Permits, ConvertedAccounts, DistinctNames, RegexesValid, Admits,
      WithKey;
    ReadBack(out);
    ConvertedNames(out, name);
    var i :| 0 <= i < |out| && out[i].account.name == name;
    ServedCount(out, i);
    DeclarationsAreEnforced(out, ConfigOf(out), i, j);
    ListedEntry(Queue.Truth(c), accounts, users, secrets, out, i, j);
    assert Belongs(c, out[i].account, out[i].users[j].user);
  }

  lemma ProcessedIsServed(c: Queue.Context, accounts: seq<Account>, users: seq<User>, secrets: map<Key, Stored>,
                          out: seq<AccountWithUsers>, a: Account)
    requires Resolved(Queue.Truth(c), accounts, users, secrets, out)
    requires a in accounts && RegexesValid(c.compiles, a.userRules)
    ensures a.name in ConvertedAccounts(out)
  {
    var kept := Kept(Queue.Truth(c), accounts);
    KeptAreListed(Queue.Truth(c), accounts, a);
    var i :| 0 <= i < |kept| && kept[i] == a;
    assert out[i].account == a;
    ConvertedNames(out, a.name);
    hide Kept, IsListing, RegexesValid, ConvertedAccounts;
  }

  lemma ServedIsProcessed(c: Queue.Context, accounts: seq<Account>, users: seq<User>, secrets: map<Key, Stored>,
                          out: seq<AccountWithUsers>, name: string)
    requires Resolved(Queue.Truth(c), accounts, users, secrets, out) && LegalInput(out) && DistinctNames(out)
    requires name in ConvertedAccounts(out)
    ensures ReadConfig(ConfigBody(ConfigOf(out))).Some?
    ensures var view := ReadConfig(ConfigBody(ConfigOf(out))).value;
            name in view.config.accounts && Processed(c, accounts, view.config.accounts[name], name)
  {
    hide Resolved, ConfigBody, ReadConfig, LegalInput, ConvertedAccounts, DistinctNames, RegexesValid, QuotasAsDeclared;
    ConvertedNames(out, name);
    var i :| 0 <= i < |out| && out[i].account.name == name;
    QuotasAreEnforced(out, ConfigOf(out), i);
    OutputAccount(Queue.Truth(c), accounts, users, secrets, out, i);
  }

  lemma ViewNames(out: seq<AccountWithUsers>)
    requires LegalInput(out) && DistinctNames(out)
    ensures ReadConfig(ConfigBody(ConfigOf(out))).Some?
    ensures ReadConfig(ConfigBody(ConfigOf(out))).value.config.accounts.Keys == ConvertedAccounts(out).Keys
  {
    ReadBack(out);
    hide ReadConfig, ConfigBody, ConvertedAccounts, LegalInput;
  }

  lemma DirectiveIsExact(c: Queue.Context, accounts: seq<Account>, users: seq<User>, secrets: map<Key, Stored>,
                         out: seq<AccountWithUsers>, a: Account)
    requires Resolved(Queue.Truth(c), accounts, users, secrets, out) && DistinctAccountNames(accounts)
    requires a in accounts && Printable(c, accounts, users, secrets)
    ensures Designated(FlaggedNames(out)) == a.name <==> IsSystemAccount(c, accounts, a)
  {
    var kept := Kept(Queue.Truth(c), accounts);
    assert a.name != "";
    FlaggedOfOutput(kept, out);
    StampedExactly(kept, a);
    forall b ensures b in kept <==> b in accounts && RegexesValid(c.compiles, b.userRules) {
      KeptAreListed(Queue.Truth(c), accounts, b);
    }
    KeptNamesDistinct(Queue.Truth(c), accounts);
    hide Kept, RegexesValid, Designated, FlaggedNames, AllFlagged, IsListing;
    if k: nat :| OnlyFlagged(kept, k) && kept[k].name == a.name {
      SameNameSameAccount(accounts, kept[k], a);
    }
    if IsSystemAccount(c, accounts, a) {
      var k: nat :| k < |kept| && kept[k] == a;
      forall l | 0 <= l < |kept| && kept[l].systemAccount ensures l == k {
        assert kept[l] in kept;
        assert AccountName(kept[l]) == AccountName(kept[k]);
      }
      assert OnlyFlagged(kept, k);
    }
  }

  lemma NobodyElseIsServed(out: seq<AccountWithUsers>)
    requires LegalInput(out) && DistinctNames(out)
    ensures ReadConfig(ConfigBody(ConfigOf(out))).Some?
    ensures NobodyElse(ReadConfig(ConfigBody(ConfigOf(out))).value)
  {
    hide ReadConfig, ConfigBody, LegalInput, ConvertedAccounts, DistinctNames, DeniedEverything, Normal;
    ReadBack(out);
    ViewNames(out);
    SentinelExactlyWithoutUsers(out, ConfigOf(out));
    var accounts := Normal(ConfigOf(out)).accounts;
    forall i | 0 <= i < |out|
      ensures out[i].account.name in accounts && |accounts[out[i].account.name].users| == |out[i].users|
    {
      ServedCount(out, i);
    }
    forall name | name in accounts ensures exists i :: 0 <= i < |out| && out[i].account.name == name {
      ConvertedNames(out, name);
    }
  }

  /** The printed result of a complete resolution makes a server enforce exactly what is declared. */
  lemma PublishedIsExact(c: Queue.Context, accounts: seq<Account>, users: seq<User>, secrets: map<Key, Stored>,
                         out: seq<AccountWithUsers>)
    requires Resolved(Queue.Truth(c), accounts, users, secrets, out) && DistinctAccountNames(accounts)
    requires Printable(c, accounts, users, secrets)
    ensures ReadConfig(ConfigBody(ConfigOf(out))).Some?
    ensures Exact(c, accounts, users, secrets, ReadConfig(ConfigBody(ConfigOf(out))).value)
  {
    hide Resolved, ConfigBody, ReadConfig, Printable, LegalInput, Permits, Belongs, ConvertedAccounts, DistinctNames,
      RegexesValid, Processed, Serves, Accounted, NobodyElse, IsSystemAccount, Designated, FlaggedNames;
    var env, cfg := Queue.Truth(c), ConfigOf(out);
    OutputIsLegal(c, accounts, users, secrets, out);
    OutputNamesDistinct(env, accounts, users, secrets, out);
    ViewNames(out);
    NobodyElseIsServed(out);
    var view := ReadConfig(ConfigBody(cfg)).value;
    forall a, u | a in accounts && u in users && Belongs(c, a, u) ensures Serves(view, a, WithKey(secrets, u)) {
      BelongingIsServed(c, accounts, users, secrets, out, a, u);
    }
    forall name, j | name in view.config.accounts && 0 <= j < |view.config.accounts[name].users|
      ensures Accounted(c, accounts, users, secrets, view.config.accounts[name].users[j], name)
    {
      ServedBelongs(c, accounts, users, secrets, out, name, j);
    }
    forall a | a in accounts && RegexesValid(c.compiles, a.userRules) ensures a.name in view.config.accounts {
      ProcessedIsServed(c, accounts, users, secrets, out, a);
    }
    ReadBack(out);
    forall a | a in accounts ensures view.config.systemAccount == a.name <==> IsSystemAccount(c, accounts, a) {
      DirectiveIsExact(c, accounts, users, secrets, out, a);
    }
    forall name | name in view.config.accounts ensures Processed(c, accounts, view.config.accounts[name], name) {
      ServedIsProcessed(c, accounts, users, secrets, out, name);
    }
  }

  lemma ConvertedOutputIsLegal(out: seq<AccountWithUsers>)
    requires LegalInput(out)
    ensures LegalConfig(ConfigOf(out))
  {
    ConvertedConfigIsLegal(out, ConfigOf(out));
    hide LegalInput, LegalConfig, ConvertedAccounts;
  }

  lemma FileIsExact(c: Queue.Context, accounts: seq<Account>, users: seq<User>, secrets: map<Key, Stored>,
                    out: seq<AccountWithUsers>)
    requires Resolved(Queue.Truth(c), accounts, users, secrets, out) && DistinctAccountNames(accounts)
    requires Printable(c, accounts, users, secrets) && DigestText(c.digest(ConfigBody(ConfigOf(out))))
    ensures ReadConfig(Queue.Published(c, out)).Some?
    ensures Exact(c, accounts, users, secrets, ReadConfig(Queue.Published(c, out)).value)
  {
    hide Resolved, ConfigBody, ConfigOf, ReadConfig, Printable, Exact, DigestText, FormatHashHeader, LegalInput;
    PublishedIsExact(c, accounts, users, secrets, out);
    OutputIsLegal(c, accounts, users, secrets, out);
    ConvertedOutputIsLegal(out);
    HeaderIsTransparent(ConfigOf(out), c.digest(ConfigBody(ConfigOf(out))));
  }
}
