/**
 * The permission display of cmd/nats-debug: on a published text it shows a user's own block exactly when no
 * value printed earlier holds the user's key mark.
 */
module ShowPermissions {
  import opened Text
  import opened Numbers
  import opened Quote
  import opened Sorting
  import opened HashHeader
  import opened ConfigTree
  import opened NatsConfig
  import opened ConfigText
  import opened BlockScan
  import opened CalmTree
  import opened Mentions
  import opened KeyMentions

  predicate CalmRule(r: Option<PermissionRule>)
  {
    r.Some? ==> Braceless(QuotedList(r.value.allow)) && Braceless(QuotedList(r.value.deny))
  }

  /** Subjects and TTL print without braces. */
  predicate CalmPermissions(p: Permissions)
  {
    && CalmRule(p.publish) && CalmRule(p.subscribe)
    && (p.allowResponses.Some? && p.allowResponses.value.ttl.Some? ==>
        Braceless(Quoted(p.allowResponses.value.ttl.value)))
  }

  predicate CalmUser(u: UserConfig)
  {
    u.permissions.Some? ==> CalmPermissions(u.permissions.value)
  }

  /** Users are printed by account name, then in list order. */
  predicate Precedes(m: string, j: nat, n: string, k: nat)
  {
    if m == n then j < k else Le(m, n)
  }

  ghost predicate MentionedByUser(cfg: Config, nkey: string, m: string, j: nat)
  {
    && m in cfg.accounts && j < |cfg.accounts[m].users|
    && var u := cfg.accounts[m].users[j]; u.nkey == nkey || UserMentions(u, KEY_MARK + nkey)
  }

  /** The system account's name, or a user printed before user k of account n, mentions the key. */
  ghost predicate MentionedBefore(cfg: Config, nkey: string, n: string, k: nat)
  {
    || (cfg.systemAccount != "" && Contains(Quoted(cfg.systemAccount), KEY_MARK + nkey))
    || exists m, j: nat :: MentionedByUser(cfg, nkey, m, j) && Precedes(m, j, n, k)
  }

  ghost predicate IsUser(cfg: Config, n: string, k: nat)
  {
    n in cfg.accounts && k < |cfg.accounts[n].users|
  }

  ghost predicate KeysOfLength(cfg: Config, length: nat)
  {
    forall m, j: nat :: IsUser(cfg, m, j) ==> |cfg.accounts[m].users[j].nkey| == length
  }

  /** All keys have one length, and no other user of the config has this user's key. */
  ghost predicate KeyIsUnique(cfg: Config, n: string, k: nat)
  {
    && IsUser(cfg, n, k) && KeysOfLength(cfg, |cfg.accounts[n].users[k].nkey|)
    && forall m, j: nat :: IsUser(cfg, m, j) && (m, j) != (n, k) ==>
                        cfg.accounts[m].users[j].nkey != cfg.accounts[n].users[k].nkey
  }

  // ---- a user's own lines ----

  lemma FieldCalm(name: string, v: string)
    requires Braceless(name) && Braceless(v) && v != "" && v[|v| - 1] != ' '
    ensures Calm(KeyValue(name, v)) && AllCalm([KeyValue(name, v)])
  {
    var t := name + ": " + v;
    assert t[|t| - 1] == v[|v| - 1];
    OneCalm(KeyValue(name, v));
  }

  predicate CalmField(name: string, value: Option<string>)
  {
    && Braceless(name)
    && (value.Some? ==> Braceless(value.value) && value.value != "" && value.value[|value.value| - 1] != ' ')
  }

  lemma {:induction false} FieldsCalm(pairs: seq<(string, Option<string>)>)
    requires forall i :: 0 <= i < |pairs| ==> CalmField(pairs[i].0, pairs[i].1)
    ensures AllCalm(Fields(pairs))
  {
    hide Calm, Braceless;
    if pairs != [] {
      var front, last := pairs[..|pairs| - 1], pairs[|pairs| - 1];
      FieldsCalm(front);
      if last.1.Some? {
        FieldCalm(last.0, last.1.value);
        AllCalmConcat(Fields(front), [KeyValue(last.0, last.1.value)]);
      }
    }
  }

  lemma NamedCalm(name: string, kids: seq<Node>)
    requires Braceless(name) && AllCalm(kids)
    ensures Calm(Named(name, kids)) && AllCalm([Named(name, kids)])
  {
    OneCalm(Named(name, kids));
  }

  lemma ListFieldCalm(name: string, ss: seq<string>)
    requires Braceless(name) && Braceless(QuotedList(ss))
    ensures CalmField(name, ListField(ss))
  {
    hide QuotedList;
  }

  lemma RuleNodesCalm(name: string, rule: Option<PermissionRule>)
    requires Braceless(name) && CalmRule(rule)
    ensures AllCalm(RuleNodes(name, rule))
  {
    if rule.Some? {
      ListFieldCalm("allow", rule.value.allow);
      ListFieldCalm("deny", rule.value.deny);
      hide QuotedList, AllCalm, Fields, CalmField;
      FieldsCalm(RuleFields(rule.value));
      NamedCalm(name, Fields(RuleFields(rule.value)));
    }
  }

  lemma ResponseNodesCalm(resp: Option<ResponsePermission>)
    requires resp.Some? && resp.value.ttl.Some? ==> Braceless(Quoted(resp.value.ttl.value))
    ensures AllCalm(ResponseNodes(resp))
  {
    if resp.Some? {
      var r := resp.value;
      FieldCalm("allow_responses", "true");
      IntWord(r.maxMsgs);
      if r.maxMsgs.Some? {
        WordFacts(IntText(r.maxMsgs.value));
      }
      assert CalmField("max", IntField(r.maxMsgs)) && CalmField("ttl", QuotedField(r.ttl));
      hide AllCalm, Fields, Quoted, CalmField;
      FieldsCalm(ResponseFields(r));
      NamedCalm("allow_responses", Fields(ResponseFields(r)));
    }
  }

  lemma PermissionsCalm(p: Permissions)
    requires CalmPermissions(p)
    ensures AllCalm([Named("permissions", PermissionNodes(p))])
  {
    RuleNodesCalm("publish", p.publish);
    RuleNodesCalm("subscribe", p.subscribe);
    ResponseNodesCalm(p.allowResponses);
    AllCalmConcat(RuleNodes("publish", p.publish), RuleNodes("subscribe", p.subscribe));
    AllCalmConcat(RuleNodes("publish", p.publish) + RuleNodes("subscribe", p.subscribe),
                  ResponseNodes(p.allowResponses));
    NamedCalm("permissions", PermissionNodes(p));
  }

  lemma UserCalm(u: UserConfig)
    requires CalmUser(u) && Word(u.nkey)
    ensures Calm(UserNode(u))
  {
    WordFacts(u.nkey);
    FieldCalm("nkey", u.nkey);
    if u.permissions.Some? {
      PermissionsCalm(u.permissions.value);
    }
    AllCalmConcat([KeyValue("nkey", u.nkey)], PermissionBlock(u));
    assert UserNodes(u) == [KeyValue("nkey", u.nkey)] + PermissionBlock(u);
  }

  /** The lines of a user: brace, key line, permissions, brace. */
  lemma UserLines(u: UserConfig, indent: nat)
    ensures RenderNode(UserNode(u), indent)
            == [Pad(indent) + "{"]
               + ([Pad(indent + 1) + KEY_MARK + u.nkey] + RenderNodes(PermissionBlock(u), indent + 1))
               + [Pad(indent) + "}"]
  {
    var key := KeyValue("nkey", u.nkey);
    assert UserNodes(u) == [key] + PermissionBlock(u);
    hide PermissionBlock, Pad;
    assert UserNodes(u)[0] == key && UserNodes(u)[1..] == PermissionBlock(u);
    assert Pad(indent + 1) + ("nkey" + ": " + u.nkey) == Pad(indent + 1) + KEY_MARK + u.nkey;
    assert RenderNode(key, indent + 1) == [Pad(indent + 1) + KEY_MARK + u.nkey];
    assert RenderNodes(UserNodes(u), indent + 1)
           == RenderNode(key, indent + 1) + RenderNodes(PermissionBlock(u), indent + 1);
    assert Pad(indent) + "" + "{" == Pad(indent) + "{";
  }

  /** The first two lines of a user: a brace, and the key. */
  lemma FirstLines(u: UserConfig, indent: nat)
    requires Word(u.nkey)
    ensures var block := RenderNode(UserNode(u), indent);
            && |block| >= 2 && '{' in block[0] && !Contains(block[0], KEY_MARK + u.nkey)
            && '{' !in block[1] && Contains(block[1], KEY_MARK + u.nkey)
            && block[1] == Pad(indent + 1) + (KEY_MARK + u.nkey)
  {
    var m := KEY_MARK + u.nkey;
    UserLines(u, indent);
    WordFacts(u.nkey);
    PadHasNoBraces(indent + 1);
    PaddedContains(indent, "{", m);
    PaddedContains(indent + 1, m, m);
    assert OccursAt(m, m, 0);
    assert (Pad(indent) + "{")[|Pad(indent)|] == '{';
    assert Pad(indent + 1) + KEY_MARK + u.nkey == Pad(indent + 1) + m;
    hide Pad, Contains, RenderNode, RenderNodes;
  }

  // ---- what is printed before a user ----

  ghost predicate AccountNamesKey(cfg: Config, m: string, nkey: string)
  {
    m in cfg.accounts && exists u <- cfg.accounts[m].users :: UserNames(u, nkey)
  }

  lemma {:induction false} AccountsSpeak(names: seq<string>, cfg: Config, nkey: string)
    requires LegalConfig(cfg) && Word(nkey) && KeysOfLength(cfg, |nkey|) && forall m <- names :: m in cfg.accounts
    ensures AnySpeaks(AccountBlocks(names, cfg.accounts), KEY_MARK + nkey)
            <==> exists m <- names :: AccountNamesKey(cfg, m, nkey)
    ensures (forall m <- names :: forall u <- cfg.accounts[m].users :: u.nkey != nkey) ==>
              AllForeign(AccountBlocks(names, cfg.accounts), KEY_MARK + nkey)
  {
    hide Speaks, Foreign, UserNames, AccountNodes, Word, LegalAccount;
    if names != [] {
      var m := names[0];
      assert names == [m] + names[1..] && m in names;
      forall u | u in cfg.accounts[m].users ensures |u.nkey| == |nkey| {
        var j :| 0 <= j < |cfg.accounts[m].users| && cfg.accounts[m].users[j] == u;
        assert IsUser(cfg, m, j);
      }
      AccountSpeaks(m, cfg.accounts[m], nkey);
      AccountsSpeak(names[1..], cfg, nkey);
      assert AccountBlocks(names, cfg.accounts)
             == [Named(m, AccountNodes(cfg.accounts[m]))] + AccountBlocks(names[1..], cfg.accounts);
    }
  }

  // ---- where a user is printed ----

  lemma {:induction false} UserBlockAt(users: seq<UserConfig>, k: nat)
    requires k < |users|
    ensures |UserBlocks(users)| == |users| && UserBlocks(users)[k] == UserNode(users[k])
    ensures UserBlocks(users)[..k] == UserBlocks(users[..k])
  {
    hide UserNode;
    if k > 0 {
      UserBlockAt(users[1..], k - 1);
      assert users[..k][1..] == users[1..][..k - 1];
    } else if |users| > 1 {
      UserBlockAt(users[1..], 0);
    } else {
      assert users[1..] == [];
    }
  }

  lemma {:induction false} AccountBlockAt(names: seq<string>, accounts: map<string, AccountConfig>, i: nat)
    requires (forall m <- names :: m in accounts) && i < |names|
    ensures i < |AccountBlocks(names, accounts)|
    ensures AccountBlocks(names, accounts)[i] == Named(names[i], AccountNodes(accounts[names[i]]))
    ensures AccountBlocks(names, accounts)[..i] == AccountBlocks(names[..i], accounts)
  {
    hide AccountNodes;
    if i > 0 {
      AccountBlockAt(names[1..], accounts, i - 1);
      assert names[..i][1..] == names[1..][..i - 1];
    }
  }

  lemma {:induction false} SomebodyCounted(names: set<string>, cfg: Config, n: string)
    requires names <= cfg.accounts.Keys && n in names && cfg.accounts[n].users != []
    ensures CountUsers(names, cfg.accounts) > 0
  {
    CountUsersRemove(names, cfg.accounts, n);
  }

  ghost function TopNodes(cfg: Config): seq<Node>
  {
    [Comment(BANNER)] + SystemNodes(cfg)
  }

  lemma NoWarning(cfg: Config, n: string)
    requires n in cfg.accounts && cfg.accounts[n].users != []
    ensures ConfigNodes(cfg) == TopNodes(cfg) + [AccountsNode(cfg)]
  {
    SomebodyCounted(cfg.accounts.Keys, cfg, n);
    ConfigParts(cfg);
    hide ConfigNodes, AccountsNode, SystemNodes, SentinelNodes, CountUsers;
    assert WarningNodes(cfg) == [];
  }

  ghost predicate At(cfg: Config, i: nat, n: string)
  {
    i < |InOrder(cfg.accounts.Keys)| && InOrder(cfg.accounts.Keys)[i] == n
  }

  /** Down to the users of the account, then on. */
  ghost function PathInto(cfg: Config, i: nat, n: string, path: seq<nat>): seq<nat>
    requires n in cfg.accounts
  {
    [|TopNodes(cfg)|] + ([i] + ([|QuotaNodes(cfg.accounts[n])|] + path))
  }

  lemma AccountSplits(a: AccountConfig)
    ensures AccountNodes(a) == QuotaNodes(a) + if a.users == [] then [] else [UsersNode(a.users)]
  {
    hide UsersNode, Fields, JetStreamFields, LimitsFields;
  }

  lemma DownInAccount(n: string, a: AccountConfig, path: seq<nat>, nkey: string)
    requires LegalAccount(a) && Word(n) && Word(nkey) && ValidPath(UserBlocks(a.users), path)
    ensures var kids, down := AccountNodes(a), [|QuotaNodes(a)|] + path;
            && ValidPath(kids, down) && NodeAt(kids, down) == NodeAt(UserBlocks(a.users), path)
            && (SpeaksBefore(kids, down, KEY_MARK + nkey) <==> SpeaksBefore(UserBlocks(a.users), path, KEY_MARK + nkey))
            && (ForeignBefore(kids, down, KEY_MARK + nkey)
                <==> ForeignBefore(UserBlocks(a.users), path, KEY_MARK + nkey))
  {
    AccountSplits(a);
    assert a.users != [];
    hide QuotaNodes, AccountNodes, UserBlocks, Speaks, Foreign, LegalAccount, Word, ValidPath, NodeAt, SpeaksBefore,
      ForeignBefore, Contains;
    QuotasSilent(a, nkey);
    HeadSilent("users = ", Square, nkey);
    assert AccountNodes(a)[..|QuotaNodes(a)|] == QuotaNodes(a);
    StepDown(AccountNodes(a), |QuotaNodes(a)|, path, KEY_MARK + nkey);
  }

  lemma DownInAccounts(cfg: Config, i: nat, n: string, path: seq<nat>, nkey: string)
    requires LegalConfig(cfg) && Word(nkey) && n in cfg.accounts && At(cfg, i, n)
    requires ValidPath(UserBlocks(cfg.accounts[n].users), path)
    ensures var kids, users := AccountsNode(cfg).kids, UserBlocks(cfg.accounts[n].users);
            var down := [i] + ([|QuotaNodes(cfg.accounts[n])|] + path);
            var before := AccountBlocks(InOrder(cfg.accounts.Keys)[..i], cfg.accounts);
            && ValidPath(kids, down) && NodeAt(kids, down) == NodeAt(users, path)
            && (SpeaksBefore(kids, down, KEY_MARK + nkey)
                <==> AnySpeaks(before, KEY_MARK + nkey) || SpeaksBefore(users, path, KEY_MARK + nkey))
            && (ForeignBefore(kids, down, KEY_MARK + nkey)
                <==> AllForeign(before, KEY_MARK + nkey) && ForeignBefore(users, path, KEY_MARK + nkey))
  {
    var a, kids := cfg.accounts[n], AccountsNode(cfg).kids;
    assert Word(n) && LegalAccount(a);
    AccountBlockAt(InOrder(cfg.accounts.Keys), cfg.accounts, i);
    assert kids == AccountBlocks(InOrder(cfg.accounts.Keys), cfg.accounts);
    hide QuotaNodes, AccountNodes, UserBlocks, AnySpeaks, AllForeign, LegalConfig, LegalAccount, Word, ValidPath,
      NodeAt, SpeaksBefore, ForeignBefore, Contains, InOrder, AccountBlocks, AccountsNode;
    DownInAccount(n, a, path, nkey);
    AccountHeadSilent(n, nkey);
    StepDown(kids, i, [|QuotaNodes(a)|] + path, KEY_MARK + nkey);
  }

  lemma SomeUser(users: seq<UserConfig>, path: seq<nat>)
    requires ValidPath(UserBlocks(users), path)
    ensures users != []
  {}

  /** The last node after others, when its head does not mention the key. */
  lemma StepToLast(top: seq<Node>, last: Node, path: seq<nat>, m: string)
    requires last.Block? && ValidPath(last.kids, path)
    requires !Contains(last.head + OpenText(last.bracket), m) && !(m <= last.head + OpenText(last.bracket))
    ensures ValidPath(top + [last], [|top|] + path)
    ensures NodeAt(top + [last], [|top|] + path) == NodeAt(last.kids, path)
    ensures SpeaksBefore(top + [last], [|top|] + path, m) <==> AnySpeaks(top, m) || SpeaksBefore(last.kids, path, m)
    ensures ForeignBefore(top + [last], [|top|] + path, m) <==> AllForeign(top, m) && ForeignBefore(last.kids, path, m)
  {
    hide AnySpeaks, AllForeign, ValidPath, NodeAt, SpeaksBefore, ForeignBefore, Contains, OpenText;
    assert (top + [last])[..|top|] == top && (top + [last])[|top|] == last;
    StepDown(top + [last], |top|, path, m);
  }

  lemma AccountsHead(cfg: Config, nkey: string)
    ensures var n := AccountsNode(cfg);
            && n.Block? && !Contains(n.head + OpenText(n.bracket), KEY_MARK + nkey)
            && !(KEY_MARK + nkey <= n.head + OpenText(n.bracket))
  {
    var head := "accounts" + " ";
    assert ':' !in "accounts" && AccountsNode(cfg).head == head && AccountsNode(cfg).bracket == Brace;
    HeadSilent(head, Brace, nkey);
    hide Contains, AccountBlocks;
  }

  lemma DownInConfig(cfg: Config, i: nat, n: string, path: seq<nat>, nkey: string)
    requires LegalConfig(cfg) && Word(nkey) && n in cfg.accounts && At(cfg, i, n)
    requires ValidPath(UserBlocks(cfg.accounts[n].users), path)
    ensures var ns, down, users := ConfigNodes(cfg), PathInto(cfg, i, n, path), UserBlocks(cfg.accounts[n].users);
            var before := AccountBlocks(InOrder(cfg.accounts.Keys)[..i], cfg.accounts);
            && ValidPath(ns, down) && NodeAt(ns, down) == NodeAt(users, path)
            && (SpeaksBefore(ns, down, KEY_MARK + nkey)
                <==> || AnySpeaks(TopNodes(cfg), KEY_MARK + nkey) || AnySpeaks(before, KEY_MARK + nkey)
                     || SpeaksBefore(users, path, KEY_MARK + nkey))
            && (ForeignBefore(ns, down, KEY_MARK + nkey)
                <==> && AllForeign(TopNodes(cfg), KEY_MARK + nkey) && AllForeign(before, KEY_MARK + nkey)
                     && ForeignBefore(users, path, KEY_MARK + nkey))
  {
    hide QuotaNodes, UserBlocks, AnySpeaks, AllForeign, LegalConfig, Word, ValidPath, NodeAt, SpeaksBefore,
      ForeignBefore, InOrder, AccountBlocks, ConfigNodes, TopNodes, AccountsNode, At;
    SomeUser(cfg.accounts[n].users, path);
    DownInAccounts(cfg, i, n, path, nkey);
    NoWarning(cfg, n);
    AccountsHead(cfg, nkey);
    StepToLast(TopNodes(cfg), AccountsNode(cfg), [i] + ([|QuotaNodes(cfg.accounts[n])|] + path), KEY_MARK + nkey);
  }

  lemma BannerSilent(nkey: string)
    ensures !Speaks(Comment(BANNER), KEY_MARK + nkey) && Foreign(Comment(BANNER), KEY_MARK + nkey)
  {
    assert ':' !in BANNER_A;
    assert ':' !in BANNER_B;
    assert (KEY_MARK + nkey)[4] == ':';
    LacksCharacter(BANNER, KEY_MARK + nkey, ':');
    PrefixOccurs(BANNER, KEY_MARK + nkey);
    hide Contains;
  }

  lemma TopSpeaks(cfg: Config, nkey: string)
    ensures AnySpeaks(TopNodes(cfg), KEY_MARK + nkey)
            <==> cfg.systemAccount != "" && Contains(Quoted(cfg.systemAccount), KEY_MARK + nkey)
    ensures AllForeign(TopNodes(cfg), KEY_MARK + nkey)
  {
    assert PlainName("system_account");
    FieldSpeaks("system_account", Quoted(cfg.systemAccount), nkey);
    BannerSilent(nkey);
    hide Speaks, Foreign, Contains, Quoted;
  }

  lemma UsersBefore(cfg: Config, n: string, k: nat, nkey: string)
    requires IsUser(cfg, n, k) && Word(nkey) && KeysOfLength(cfg, |nkey|)
    ensures var blocks := UserBlocks(cfg.accounts[n].users);
            && k < |blocks| && blocks[k] == UserNode(cfg.accounts[n].users[k])
            && (AnySpeaks(blocks[..k], KEY_MARK + nkey) <==> exists j: nat :: j < k && MentionedByUser(cfg, nkey, n, j))
            && ((forall j: nat :: j < k ==> cfg.accounts[n].users[j].nkey != nkey) ==>
                  AllForeign(blocks[..k], KEY_MARK + nkey))
  {
    hide Speaks, Foreign, UserMentions, UserBlocks, UserNode;
    var users := cfg.accounts[n].users;
    UserBlockAt(users, k);
    forall u | u in users[..k] ensures |u.nkey| == |nkey| {
      var j :| 0 <= j < k && users[j] == u;
      assert IsUser(cfg, n, j);
    }
    UsersSpeak(users[..k], nkey);
    assert (forall j: nat :: j < k ==> users[j].nkey != nkey) ==> forall u <- users[..k] :: u.nkey != nkey;
    if j: nat :| j < k && MentionedByUser(cfg, nkey, n, j) {
      assert users[..k][j] in users[..k] && UserNames(users[j], nkey);
    }
    if u :| u in users[..k] && UserNames(u, nkey) {
      var j :| 0 <= j < k && users[..k][j] == u;
      assert MentionedByUser(cfg, nkey, n, j);
    }
  }

  lemma NamesBefore(cfg: Config, i: nat, n: string, m: string)
    requires At(cfg, i, n)
    ensures m in InOrder(cfg.accounts.Keys)[..i] <==> m in cfg.accounts && m != n && Le(m, n)
  {
    var names := InOrder(cfg.accounts.Keys);
    if m in cfg.accounts && m != n && Le(m, n) {
      var j :| 0 <= j < |names| && names[j] == m;
      if j > i {
        LeAntisymmetric(m, n);
      }
    }
    hide Le;
  }

  lemma AccountsBefore(cfg: Config, i: nat, n: string, nkey: string)
    requires LegalConfig(cfg) && Word(nkey) && KeysOfLength(cfg, |nkey|) && At(cfg, i, n)
    ensures var before := AccountBlocks(InOrder(cfg.accounts.Keys)[..i], cfg.accounts);
            && (AnySpeaks(before, KEY_MARK + nkey)
                <==> exists m, j: nat :: MentionedByUser(cfg, nkey, m, j) && m != n && Le(m, n))
            && ((forall m, j: nat :: IsUser(cfg, m, j) && m != n ==> cfg.accounts[m].users[j].nkey != nkey) ==>
                  AllForeign(before, KEY_MARK + nkey))
  {
    hide Speaks, Foreign, UserMentions, InOrder, Le, AccountBlocks, LegalConfig, Word;
    var names := InOrder(cfg.accounts.Keys)[..i];
    forall m ensures m in names <==> m in cfg.accounts && m != n && Le(m, n) {
      NamesBefore(cfg, i, n, m);
    }
    AccountsSpeak(names, cfg, nkey);
    if m :| m in names && AccountNamesKey(cfg, m, nkey) {
      var u :| u in cfg.accounts[m].users && UserNames(u, nkey);
      var j :| 0 <= j < |cfg.accounts[m].users| && cfg.accounts[m].users[j] == u;
      assert MentionedByUser(cfg, nkey, m, j);
    }
    if m, j: nat :| MentionedByUser(cfg, nkey, m, j) && m != n && Le(m, n) {
      assert cfg.accounts[m].users[j] in cfg.accounts[m].users;
      assert AccountNamesKey(cfg, m, nkey);
    }
  }

  lemma MentionedBeforeParts(cfg: Config, nkey: string, n: string, k: nat)
    ensures MentionedBefore(cfg, nkey, n, k)
            <==> || (cfg.systemAccount != "" && Contains(Quoted(cfg.systemAccount), KEY_MARK + nkey))
                 || (exists m, j: nat :: MentionedByUser(cfg, nkey, m, j) && m != n && Le(m, n))
                 || (exists j: nat :: j < k && MentionedByUser(cfg, nkey, n, j))
  {
    hide MentionedByUser, Le, Contains;
  }

  lemma InAccounts(cfg: Config, n: string, k: nat)
    requires IsUser(cfg, n, k)
    ensures n in cfg.accounts
  {}

  /**
   * What is printed before a part of user k is what mentions the key earlier in the config, and what the user's
   * own block adds.
   */
  lemma BeforePart(cfg: Config, i: nat, n: string, k: nat, path: seq<nat>, nkey: string)
    requires LegalConfig(cfg) && Word(nkey) && KeysOfLength(cfg, |nkey|) && IsUser(cfg, n, k) && At(cfg, i, n)
    requires ValidPath(UserBlocks(cfg.accounts[n].users), path)
    requires var blocks := UserBlocks(cfg.accounts[n].users);
             SpeaksBefore(blocks, path, KEY_MARK + nkey) <==> k < |blocks| && AnySpeaks(blocks[..k], KEY_MARK + nkey)
    ensures ValidPath(ConfigNodes(cfg), PathInto(cfg, i, n, path))
    ensures NodeAt(ConfigNodes(cfg), PathInto(cfg, i, n, path)) == NodeAt(UserBlocks(cfg.accounts[n].users), path)
    ensures SpeaksBefore(ConfigNodes(cfg), PathInto(cfg, i, n, path), KEY_MARK + nkey)
            <==> MentionedBefore(cfg, nkey, n, k)
  {
    hide LegalConfig, Word, KeysOfLength, IsUser, At, ValidPath, NodeAt, SpeaksBefore, ForeignBefore, AnySpeaks,
      AllForeign, MentionedBefore, MentionedByUser, Contains, Le, UserBlocks, ConfigNodes, PathInto, AccountBlocks,
      InOrder, TopNodes, Quoted;
    InAccounts(cfg, n, k);
    DownInConfig(cfg, i, n, path, nkey);
    TopSpeaks(cfg, nkey);
    AccountsBefore(cfg, i, n, nkey);
    UsersBefore(cfg, n, k, nkey);
    MentionedBeforeParts(cfg, nkey, n, k);
  }

  lemma BeforeUser(cfg: Config, i: nat, n: string, k: nat, nkey: string)
    requires LegalConfig(cfg) && Word(nkey) && KeysOfLength(cfg, |nkey|) && IsUser(cfg, n, k) && At(cfg, i, n)
    ensures var ns, path := ConfigNodes(cfg), PathInto(cfg, i, n, [k]);
            && ValidPath(ns, path) && NodeAt(ns, path) == UserNode(cfg.accounts[n].users[k])
            && (SpeaksBefore(ns, path, KEY_MARK + nkey) <==> MentionedBefore(cfg, nkey, n, k))
  {
    hide LegalConfig, Word, KeysOfLength, At, ValidPath, NodeAt, SpeaksBefore, ForeignBefore, AnySpeaks, AllForeign,
      MentionedBefore, MentionedByUser, UserBlocks, ConfigNodes, PathInto, UserNode;
    UsersBefore(cfg, n, k, nkey);
    AtTop(UserBlocks(cfg.accounts[n].users), k, KEY_MARK + nkey);
    BeforePart(cfg, i, n, k, [k], nkey);
  }

  lemma OnlyKeyLine(cfg: Config, i: nat, n: string, k: nat)
    requires LegalConfig(cfg) && KeyIsUnique(cfg, n, k) && At(cfg, i, n) && Word(cfg.accounts[n].users[k].nkey)
    ensures var ns, path := ConfigNodes(cfg), PathInto(cfg, i, n, [k]);
            ValidPath(ns, path) && ForeignBefore(ns, path, KEY_MARK + cfg.accounts[n].users[k].nkey)
  {
    var nkey := cfg.accounts[n].users[k].nkey;
    forall m, j: nat | IsUser(cfg, m, j) && m != n ensures cfg.accounts[m].users[j].nkey != nkey {
      assert (m, j) != (n, k);
    }
    forall j: nat | j < k ensures cfg.accounts[n].users[j].nkey != nkey {
      assert IsUser(cfg, n, j) && (n, j) != (n, k);
    }
    hide LegalConfig, Word, KeysOfLength, At, ValidPath, NodeAt, SpeaksBefore, ForeignBefore, AnySpeaks, AllForeign,
      UserBlocks, ConfigNodes, PathInto, UserNode, MentionedByUser, AccountBlocks, InOrder, TopNodes, Le;
    UsersBefore(cfg, n, k, nkey);
    AtTop(UserBlocks(cfg.accounts[n].users), k, KEY_MARK + nkey);
    TopSpeaks(cfg, nkey);
    AccountsBefore(cfg, i, n, nkey);
    DownInConfig(cfg, i, n, [k], nkey);
  }

  // ---- the whole text ----

  lemma HeaderSilent(hash: string, nkey: string)
    requires DigestText(hash)
    ensures !Contains(HASH_PREFIX + hash, KEY_MARK + nkey)
  {
    assert PlainName("# hash");
    assert (KEY_MARK + nkey)[5] == ' ';
    LacksCharacter(hash, KEY_MARK + nkey, ' ');
    FieldSpeaks("# hash", hash, nkey);
    assert "# hash" + ": " + hash == HASH_PREFIX + hash;
    hide Contains;
  }

  lemma BodyLines(cfg: Config)
    requires LegalConfig(cfg)
    ensures AllOneLine(RenderNodes(ConfigNodes(cfg), 0)) && ConfigBody(cfg) == Unlines(RenderNodes(ConfigNodes(cfg), 0))
  {
    ConfigWellFormed(cfg);
    hide RenderNodes, ConfigNodes, AllWellFormed, LegalConfig;
    RenderAllOneLine(ConfigNodes(cfg), 0);
  }

  lemma HeaderText(hash: string, lines: seq<string>)
    requires DigestText(hash)
    ensures FormatHashHeader(hash) + Unlines(lines) == Unlines([HASH_PREFIX + hash] + lines)
    ensures OneLine(HASH_PREFIX + hash)
  {
    forall i | 0 <= i < |hash| ensures hash[i] != '\n' { assert !IsSpace(hash[i]); }
    UnlinesCons(HASH_PREFIX + hash, lines);
    assert FormatHashHeader(hash) == HASH_PREFIX + hash + "\n";
  }

  /** The lines of a published text. */
  lemma PublishedLines(cfg: Config, hash: string)
    requires LegalConfig(cfg) && DigestText(hash)
    ensures SplitAll(FormatHashHeader(hash) + ConfigBody(cfg))
            == [HASH_PREFIX + hash] + RenderNodes(ConfigNodes(cfg), 0) + [""]
  {
    hide RenderNodes, ConfigNodes, LegalConfig, FormatHashHeader, ConfigBody, SplitAll, DigestText, Unlines, OneLine;
    BodyLines(cfg);
    var lines := RenderNodes(ConfigNodes(cfg), 0);
    HeaderText(hash, lines);
    SplitUnlines([HASH_PREFIX + hash] + lines);
  }

  /** The lines of a published text, around a node of its tree. */
  lemma TextAround(cfg: Config, hash: string, path: seq<nat>)
    requires LegalConfig(cfg) && DigestText(hash) && ValidPath(ConfigNodes(cfg), path)
    ensures var ns := ConfigNodes(cfg);
            SplitAll(FormatHashHeader(hash) + ConfigBody(cfg))
            == ([HASH_PREFIX + hash] + LinesBefore(ns, path, 0)) + RenderNode(NodeAt(ns, path), |path| - 1)
               + (LinesAfter(ns, path, 0) + [""])
  {
    hide LegalConfig, DigestText, ConfigNodes, SplitAll, FormatHashHeader, ConfigBody, RenderNodes, RenderNode,
      LinesBefore, LinesAfter, NodeAt, ValidPath;
    PublishedLines(cfg, hash);
    LinesAround(ConfigNodes(cfg), path, 0);
  }

  lemma BelowHeader(hash: string, before: seq<string>, nkey: string)
    requires DigestText(hash)
    ensures NoneContains([HASH_PREFIX + hash] + before, KEY_MARK + nkey) <==> NoneContains(before, KEY_MARK + nkey)
  {
    HeaderSilent(hash, nkey);
    OneLineSpeaks(HASH_PREFIX + hash, KEY_MARK + nkey);
    NoneContainsConcat([HASH_PREFIX + hash], before, KEY_MARK + nkey);
  }

  lemma PrefixKeeps(front: string, line: string, m: string)
    requires Contains(front, m)
    ensures front <= line ==> Contains(line, m)
  {
    if front <= line {
      var p :| 0 <= p <= |front| && OccursAt(front, m, p);
      assert line[p..p + |m|] == front[p..p + |m|];
      assert OccursAt(line, m, p);
    }
  }

  /** No line above is the key line once more. */
  lemma KeyLineIsNew(hash: string, before: seq<string>, nkey: string, d: nat)
    requires DigestText(hash) && NoneBegins(before, KEY_MARK + nkey)
    ensures forall l <- [HASH_PREFIX + hash] + before :: TrimBlanks(l) != Pad(d) + (KEY_MARK + nkey)
  {
    HeaderSilent(hash, nkey);
    PaddedContains(d, KEY_MARK + nkey, KEY_MARK + nkey);
    assert OccursAt(KEY_MARK + nkey, KEY_MARK + nkey, 0);
    forall l | l in [HASH_PREFIX + hash] + before ensures TrimBlanks(l) != Pad(d) + (KEY_MARK + nkey) {
      TrimKeeps(l);
      if l !in before {
        PrefixKeeps(Pad(d) + (KEY_MARK + nkey), l, KEY_MARK + nkey);
      }
    }
    hide Contains, Pad, TrimBlanks;
  }

  ghost function Position(cfg: Config, n: string): (i: nat)
    requires n in cfg.accounts
    ensures At(cfg, i, n)
  {
    var i: nat :| i < |InOrder(cfg.accounts.Keys)| && InOrder(cfg.accounts.Keys)[i] == n;
    i
  }

  lemma ShownAt(cfg: Config, hash: string, path: seq<nat>, u: UserConfig)
    requires LegalConfig(cfg) && DigestText(hash) && ValidPath(ConfigNodes(cfg), path) && |path| == 4
    requires NodeAt(ConfigNodes(cfg), path) == UserNode(u) && Word(u.nkey) && Calm(UserNode(u))
    requires ForeignBefore(ConfigNodes(cfg), path, KEY_MARK + u.nkey)
    ensures Shown(SplitAll(FormatHashHeader(hash) + ConfigBody(cfg)), u.nkey) == RenderNode(UserNode(u), 3)
            <==> !SpeaksBefore(ConfigNodes(cfg), path, KEY_MARK + u.nkey)
  {
    hide LegalConfig, DigestText, Word, Calm, Shown, SplitAll, ConfigNodes, RenderNode, FormatHashHeader, ConfigBody,
      ValidPath, NodeAt, SpeaksBefore, ForeignBefore, LinesBefore, LinesAfter, Contains, NoneContains, NoneBegins,
      Balanced, Tidy, Pad, AllWellFormed;
    var ns, m := ConfigNodes(cfg), KEY_MARK + u.nkey;
    var before, block := LinesBefore(ns, path, 0), RenderNode(UserNode(u), 3);
    TextAround(cfg, hash, path);
    ConfigWellFormed(cfg);
    BeforeBegins(ns, path, 0, m);
    BeforeSpeaks(ns, path, 0, m);
    BelowHeader(hash, before, u.nkey);
    KeyLineIsNew(hash, before, u.nkey, 4);
    FirstLines(u, 3);
    CalmNodeLines(UserNode(u), 3);
    BlockIsShownExactly([HASH_PREFIX + hash] + before, block, LinesAfter(ns, path, 0) + [""], u.nkey);
  }

  lemma UniqueParts(cfg: Config, n: string, k: nat)
    requires KeyIsUnique(cfg, n, k)
    ensures IsUser(cfg, n, k) && KeysOfLength(cfg, |cfg.accounts[n].users[k].nkey|)
  {}

  /**
   * Asked for a user's key, the display shows exactly the lines printed for that user if and only if nothing
   * printed earlier mentions the key: neither the system account nor a list or TTL of an earlier user.
   */
  lemma OwnBlockIsShownExactly(cfg: Config, hash: string, n: string, k: nat)
    requires LegalConfig(cfg) && DigestText(hash) && KeyIsUnique(cfg, n, k) && CalmUser(cfg.accounts[n].users[k])
    ensures var u := cfg.accounts[n].users[k];
            Shown(SplitAll(FormatHashHeader(hash) + ConfigBody(cfg)), u.nkey) == RenderNode(UserNode(u), 3)
            <==> !MentionedBefore(cfg, u.nkey, n, k)
  {
    var u, i := cfg.accounts[n].users[k], Position(cfg, n);
    assert Word(u.nkey);
    UserCalm(u);
    assert UserNode(u).Block? && UserNode(u).bracket == Brace;
    hide LegalConfig, DigestText, KeyIsUnique, CalmUser, Word, Calm, Shown, SplitAll, ConfigNodes, UserNode, RenderNode,
      FormatHashHeader, ConfigBody, ValidPath, NodeAt, SpeaksBefore, ForeignBefore, LinesBefore, LinesAfter,
      MentionedBefore, Contains, NoneContains, NoneBegins, Balanced, Tidy, Pad, At, PathInto;
    UniqueParts(cfg, n, k);
    BeforeUser(cfg, i, n, k, u.nkey);
    OnlyKeyLine(cfg, i, n, k);
    ShownAt(cfg, hash, PathInto(cfg, i, n, [k]), u);
  }

  // ---- which subjects print calmly ----

  /** What a NATS subject or a duration is made of: no blanks, no braces. */
  predicate Unspaced(s: string)
  {
    ' ' !in s && Braceless(s)
  }

  lemma EscapeUnspaced(c: char)
    requires c != ' ' && c != '{' && c != '}'
    ensures Unspaced(Escape(c))
  {}

  lemma {:induction false} EscapedUnspaced(s: string)
    requires Unspaced(s)
    ensures Unspaced(EscapeAll(s))
  {
    if s != "" {
      EscapedUnspaced(s[1..]);
      assert s[0] in s && s[0] != ' ' && s[0] != '{' && s[0] != '}';
      EscapeUnspaced(s[0]);
      assert Unspaced(s[1..]);
    }
  }

  /** Blanks only follow commas. */
  predicate BlanksAfterCommas(t: string)
  {
    forall i :: 0 <= i < |t| && t[i] == ' ' ==> i > 0 && t[i - 1] == ','
  }

  lemma JoinBlanks(q: string, rest: string)
    requires ' ' !in q && Braceless(q) && BlanksAfterCommas(rest) && Braceless(rest)
    ensures BlanksAfterCommas(q + ", " + rest) && Braceless(q + ", " + rest)
  {
    var t := q + ", " + rest;
    assert t[|q|] == ',';
    forall i | 0 <= i < |t| && t[i] == ' ' ensures i > 0 && t[i - 1] == ',' {
      if i >= |q| + 2 {
        assert rest[i - |q| - 2] == ' ';
      }
    }
  }

  lemma {:induction false} ListBlanks(ss: seq<string>)
    requires forall s <- ss :: Unspaced(s)
    ensures BlanksAfterCommas(QuotedList(ss)) && Braceless(QuotedList(ss))
  {
    if ss != [] {
      assert ss[0] in ss;
      EscapedUnspaced(ss[0]);
      assert Unspaced(Quoted(ss[0]));
      hide Quoted;
      if |ss| > 1 {
        assert forall s <- ss[1..] :: s in ss;
        ListBlanks(ss[1..]);
        JoinBlanks(Quoted(ss[0]), QuotedList(ss[1..]));
      }
    }
  }

  /** Lists of such subjects print without braces and mention no key. */
  lemma UnspacedSubjectsAreCalm(ss: seq<string>, nkey: string)
    requires forall s <- ss :: Unspaced(s)
    ensures Braceless(QuotedList(ss)) && !Contains(QuotedList(ss), KEY_MARK + nkey)
  {
    ListBlanks(ss);
    var t, m := QuotedList(ss), KEY_MARK + nkey;
    assert m[4] == ':' && m[5] == ' ';
    forall p | 0 <= p <= |t| ensures !OccursAt(t, m, p) {
      if p + |m| <= |t| {
        DiffersAt(t, m, p, if t[p + 5] != ' ' then 5 else 4);
      }
    }
    hide QuotedList;
  }

  ghost predicate UnspacedRule(r: Option<PermissionRule>)
  {
    r.Some? ==> (forall s <- r.value.allow :: Unspaced(s)) && forall s <- r.value.deny :: Unspaced(s)
  }

  ghost predicate UnspacedUser(u: UserConfig)
  {
    u.permissions.Some? ==>
      && UnspacedRule(u.permissions.value.publish) && UnspacedRule(u.permissions.value.subscribe)
      && var r := u.permissions.value.allowResponses;
         r.Some? && r.value.ttl.Some? ==> Unspaced(r.value.ttl.value)
  }

  lemma RuleIsCalm(r: Option<PermissionRule>, nkey: string)
    requires UnspacedRule(r)
    ensures CalmRule(r) && !RuleMentions(r, KEY_MARK + nkey)
  {
    if r.Some? {
      UnspacedSubjectsAreCalm(r.value.allow, nkey);
      UnspacedSubjectsAreCalm(r.value.deny, nkey);
    }
    hide QuotedList, Contains;
  }

  lemma UserIsCalm(u: UserConfig, nkey: string)
    requires UnspacedUser(u)
    ensures CalmUser(u) && !UserMentions(u, KEY_MARK + nkey)
  {
    if u.permissions.Some? {
      RuleIsCalm(u.permissions.value.publish, nkey);
      RuleIsCalm(u.permissions.value.subscribe, nkey);
      var r := u.permissions.value.allowResponses;
      if r.Some? && r.value.ttl.Some? {
        UnspacedSubjectsAreCalm([r.value.ttl.value], nkey);
      }
    }
    hide UnspacedRule, CalmRule, RuleMentions, Contains;
  }

  /**
   * With keys distinct and of one length, and no blank or brace in any subject or TTL, every user's display is
   * right.
   */
  lemma UnspacedConfigIsShown(cfg: Config, hash: string, n: string, k: nat)
    requires LegalConfig(cfg) && DigestText(hash) && KeyIsUnique(cfg, n, k)
    requires Unspaced(cfg.systemAccount) && forall m, j: nat :: IsUser(cfg, m, j) ==>
             UnspacedUser(cfg.accounts[m].users[j])
    ensures var u := cfg.accounts[n].users[k];
            Shown(SplitAll(FormatHashHeader(hash) + ConfigBody(cfg)), u.nkey) == RenderNode(UserNode(u), 3)
  {
    var nkey := cfg.accounts[n].users[k].nkey;
    hide LegalConfig, DigestText, UnspacedUser, CalmUser, UserMentions, Contains, Shown, SplitAll, FormatHashHeader,
      ConfigBody, RenderNode, UserNode, Le, Unspaced;
    assert [cfg.systemAccount][0] == cfg.systemAccount;
    UnspacedSubjectsAreCalm([cfg.systemAccount], nkey);
    forall m, j: nat | IsUser(cfg, m, j)
      ensures CalmUser(cfg.accounts[m].users[j]) && !UserMentions(cfg.accounts[m].users[j], KEY_MARK + nkey)
    {
      UserIsCalm(cfg.accounts[m].users[j], nkey);
    }
    forall m, j: nat | MentionedByUser(cfg, nkey, m, j) ensures (m, j) == (n, k) {
      assert IsUser(cfg, m, j);
    }
    assert !MentionedBefore(cfg, nkey, n, k);
    OwnBlockIsShownExactly(cfg, hash, n, k);
  }

  // ---- a subject that takes another user's display ----

  predicate Plain(s: string)
  {
    forall c <- s :: ' ' <= c <= '~' && c != '"' && c != '\\'
  }

  lemma {:induction false} PlainEscapes(s: string)
    requires Plain(s)
    ensures EscapeAll(s) == s
  {
    if s != "" {
      assert s[0] in s && Escape(s[0]) == [s[0]];
      assert forall c <- s[1..] :: c in s;
      PlainEscapes(s[1..]);
      assert s == [s[0]] + s[1..];
    }
  }

  /** A newline, and the rest of a key line. */
  function Forgery(nkey: string): string
  {
    "\nkey: " + nkey
  }

  lemma ForgeryLacksMark(nkey: string)
    requires Word(nkey)
    ensures !Contains(Forgery(nkey), KEY_MARK)
  {
    var s := Forgery(nkey);
    WordFacts(nkey);
    forall p | 0 <= p <= |s| ensures !OccursAt(s, KEY_MARK, p) {
      if p + 6 <= |s| {
        if p == 0 {
          DiffersAt(s, KEY_MARK, p, 0);
        } else {
          assert s[p + 5] == nkey[p - 1] && nkey[p - 1] in nkey;
          DiffersAt(s, KEY_MARK, p, 5);
        }
      }
    }
  }

  lemma WordIsPlain(s: string)
    requires Word(s) && '\\' !in s
    ensures Plain(s)
  {
    forall c | c in s ensures ' ' <= c <= '~' && c != '"' && c != '\\' {
      var i :| 0 <= i < |s| && s[i] == c;
      assert WordChar(s[i]);
    }
  }

  lemma ForgeryEscaped(nkey: string)
    requires Plain(nkey)
    ensures EscapeAll(Forgery(nkey)) == "\\" + (KEY_MARK + nkey)
  {
    var s, tail := Forgery(nkey), "key: " + nkey;
    assert Plain("key: ");
    PlainEscapes(tail);
    assert s[1..] == tail && s[0] == '\n' && Escape('\n') == "\\n";
    assert EscapeAll(s) == "\\n" + tail;
    assert "\\n" + tail == "\\" + (KEY_MARK + nkey);
  }

  /** Being free of the mark before quoting is not enough: the escaped newline supplies the missing letter. */
  lemma QuotingForgesMark(nkey: string)
    requires Word(nkey) && '\\' !in nkey
    ensures !Contains(Forgery(nkey), KEY_MARK) && Contains(Quoted(Forgery(nkey)), KEY_MARK + nkey)
    ensures Quoted(Forgery(nkey)) == "\"\\" + (KEY_MARK + nkey) + "\""
  {
    ForgeryLacksMark(nkey);
    WordIsPlain(nkey);
    ForgeryEscaped(nkey);
    hide EscapeAll, Forgery, Plain, Word;
    var q, m := Quoted(Forgery(nkey)), KEY_MARK + nkey;
    assert q == "\"\\" + m + "\"";
    assert q[2..2 + |m|] == m;
    assert OccursAt(q, m, 2);
  }

  /** What user k would publish, if its list of allowed subjects mentions a foreign key. */
  ghost predicate Forges(cfg: Config, n: string, k: nat, nkey: string, rule: PermissionRule)
  {
    && IsUser(cfg, n, k) && cfg.accounts[n].users[k].nkey != nkey
    && cfg.accounts[n].users[k].permissions.Some? && cfg.accounts[n].users[k].permissions.value.publish == Some(rule)
    && CalmRule(Some(rule)) && Contains(QuotedList(rule.allow), KEY_MARK + nkey)
  }

  function PublishNode(rule: PermissionRule): Node
  {
    Named("publish", Fields(RuleFields(rule)))
  }

  lemma PublishIsAt(u: UserConfig, rule: PermissionRule, nkey: string)
    requires Word(nkey) && |u.nkey| == |nkey| && u.nkey != nkey
    requires u.permissions.Some? && u.permissions.value.publish == Some(rule)
    ensures var kids, path := UserNodes(u), [1] + [0];
            && ValidPath(kids, path) && NodeAt(kids, path) == PublishNode(rule)
            && !SpeaksBefore(kids, path, KEY_MARK + nkey)
  {
    var p, m := u.permissions.value, KEY_MARK + nkey;
    assert UserNodes(u) == [KeyValue("nkey", u.nkey)] + [Named("permissions", PermissionNodes(p))];
    assert PermissionNodes(p)[0] == PublishNode(rule);
    assert ':' !in "permissions";
    hide PermissionNodes, UserNodes, Speaks, Contains, PublishNode;
    KeySpeaks(u.nkey, nkey);
    HeadSilent("permissions" + " ", Brace, nkey);
    AtTop(PermissionNodes(p), 0, m);
    StepDown(UserNodes(u), 1, [0], m);
  }

  function AllowText(list: string): string
  {
    "allow" + ": " + ("[" + list + "]")
  }

  lemma AllowFirst(rule: PermissionRule)
    requires rule.allow != []
    ensures var kids := Fields(RuleFields(rule)); kids != [] && kids[0] == Field(AllowText(QuotedList(rule.allow)))
  {
    var pairs := RuleFields(rule);
    hide QuotedList;
    assert pairs[..1][..0] == [] && pairs[..2] == pairs;
    assert Fields([]) == [];
    assert Fields(pairs[..1]) == [KeyValue("allow", "[" + QuotedList(rule.allow) + "]")];
  }

  /** A block with a plain head and a first field that mentions the key. */
  lemma FirstTwo(name: string, kids: seq<Node>, indent: nat, text: string, nkey: string)
    requires kids != [] && kids[0] == Field(text) && ':' !in name
    requires '{' !in Pad(indent + 1) + text && Contains(Pad(indent + 1) + text, KEY_MARK + nkey)
    ensures var block := RenderNode(Named(name, kids), indent);
            && |block| >= 2 && '{' in block[0] && !Contains(block[0], KEY_MARK + nkey)
            && '{' !in block[1] && Contains(block[1], KEY_MARK + nkey)
  {
    var head := name + " ";
    HeadSilent(head, Brace, nkey);
    PaddedContains(indent, head + "{", KEY_MARK + nkey);
    hide Contains, Pad;
    var open := Pad(indent) + (head + "{");
    assert Pad(indent) + head + "{" == open && open[|open| - 1] == '{';
    assert RenderNode(kids[0], indent + 1) == [Pad(indent + 1) + text];
    assert RenderNodes(kids, indent + 1)[0] == Pad(indent + 1) + text;
  }

  lemma AllowLine(list: string, indent: nat, nkey: string)
    requires Word(nkey) && Braceless(list) && Contains(list, KEY_MARK + nkey)
    ensures var line := Pad(indent) + AllowText(list);
            '{' !in line && Contains(line, KEY_MARK + nkey)
  {
    assert PlainName("allow");
    BracketsSpeak(list, nkey);
    FieldSpeaks("allow", "[" + list + "]", nkey);
    PaddedContains(indent, AllowText(list), KEY_MARK + nkey);
    PadHasNoBraces(indent);
    hide Contains, Pad;
  }

  lemma SomethingAllowed(rule: PermissionRule, nkey: string)
    requires Contains(QuotedList(rule.allow), KEY_MARK + nkey)
    ensures rule.allow != []
  {
    assert QuotedList([]) == "";
  }

  lemma NamedRuleCalm(name: string, rule: PermissionRule)
    requires Braceless(name) && CalmRule(Some(rule))
    ensures Calm(Named(name, Fields(RuleFields(rule))))
  {
    RuleNodesCalm(name, Some(rule));
    assert RuleNodes(name, Some(rule))[0] == Named(name, Fields(RuleFields(rule)));
  }

  lemma PublishInUsers(cfg: Config, n: string, k: nat, nkey: string, rule: PermissionRule)
    requires Word(nkey) && KeysOfLength(cfg, |nkey|) && Forges(cfg, n, k, nkey, rule)
    ensures var users, path := UserBlocks(cfg.accounts[n].users), [k] + ([1] + [0]);
            && ValidPath(users, path) && NodeAt(users, path) == PublishNode(rule)
            && k < |users| && (SpeaksBefore(users, path, KEY_MARK + nkey) <==> AnySpeaks(users[..k], KEY_MARK + nkey))
  {
    var u := cfg.accounts[n].users[k];
    assert IsUser(cfg, n, k) && |u.nkey| == |nkey|;
    assert UserNode(u).kids == UserNodes(u) && UserNode(u).head == "" && UserNode(u).bracket == Brace;
    hide UserBlocks, UserNode, UserNodes, ValidPath, NodeAt, SpeaksBefore, AnySpeaks, PublishNode, Contains, Word,
      CalmRule;
    UserBlockAt(cfg.accounts[n].users, k);
    PublishIsAt(u, rule, nkey);
    HeadSilent("", Brace, nkey);
    StepDown(UserBlocks(cfg.accounts[n].users), k, [1] + [0], KEY_MARK + nkey);
  }

  lemma PathLength(cfg: Config, i: nat, n: string, k: nat)
    requires n in cfg.accounts
    ensures |PathInto(cfg, i, n, [k] + ([1] + [0]))| == 6
  {
    hide TopNodes, QuotaNodes;
  }

  lemma RuleLines(name: string, rule: PermissionRule, indent: nat, nkey: string)
    requires Braceless(name) && ':' !in name
    requires Word(nkey) && CalmRule(Some(rule)) && Contains(QuotedList(rule.allow), KEY_MARK + nkey)
    ensures var block := RenderNode(Named(name, Fields(RuleFields(rule))), indent);
            && Balanced(block) && Tidy(block) && |block| >= 2
            && '{' in block[0] && !Contains(block[0], KEY_MARK + nkey)
            && '{' !in block[1] && Contains(block[1], KEY_MARK + nkey)
  {
    assert Braceless(QuotedList(rule.allow));
    hide Contains, Pad, QuotedList, Balanced, Tidy, RuleFields, RenderNodes, RenderNode, Fields, CalmRule, Calm, Word,
      AllowText;
    SomethingAllowed(rule, nkey);
    NamedRuleCalm(name, rule);
    CalmNodeLines(Named(name, Fields(RuleFields(rule))), indent);
    AllowFirst(rule);
    AllowLine(QuotedList(rule.allow), indent + 1, nkey);
    FirstTwo(name, Fields(RuleFields(rule)), indent, AllowText(QuotedList(rule.allow)), nkey);
  }

  lemma PublishLines(rule: PermissionRule, indent: nat, nkey: string)
    requires Word(nkey) && CalmRule(Some(rule)) && Contains(QuotedList(rule.allow), KEY_MARK + nkey)
    ensures var block := RenderNode(PublishNode(rule), indent);
            && Balanced(block) && Tidy(block) && |block| >= 2
            && '{' in block[0] && !Contains(block[0], KEY_MARK + nkey)
            && '{' !in block[1] && Contains(block[1], KEY_MARK + nkey)
  {
    RuleLines("publish", rule, indent, nkey);
    hide RenderNode, Balanced, Tidy, Contains, Fields, RuleFields, QuotedList, Word, CalmRule;
  }

  /** The first publish list that mentions a key takes the display of that key. */
  lemma WrongBlockIsShown(cfg: Config, hash: string, n: string, k: nat, nkey: string, rule: PermissionRule)
    requires LegalConfig(cfg) && DigestText(hash) && Word(nkey) && KeysOfLength(cfg, |nkey|)
    requires Forges(cfg, n, k, nkey, rule) && !MentionedBefore(cfg, nkey, n, k)
    ensures Shown(SplitAll(FormatHashHeader(hash) + ConfigBody(cfg)), nkey) == RenderNode(PublishNode(rule), 5)
  {
    var i, users, path := Position(cfg, n), UserBlocks(cfg.accounts[n].users), [k] + ([1] + [0]);
    hide LegalConfig, DigestText, Word, Contains, Shown, SplitAll, FormatHashHeader, ConfigBody, RenderNode, UserBlocks,
      At, ValidPath, NodeAt, SpeaksBefore, PathInto, MentionedBefore, Balanced, Tidy, NoneContains, ConfigNodes,
      LinesBefore, LinesAfter, AnySpeaks, PublishNode, QuotedList, CalmRule, KeysOfLength;
    PublishInUsers(cfg, n, k, nkey, rule);
    BeforePart(cfg, i, n, k, path, nkey);
    PathLength(cfg, i, n, k);
    PublishLines(rule, 5, nkey);
    var ns, down := ConfigNodes(cfg), PathInto(cfg, i, n, path);
    TextAround(cfg, hash, down);
    BeforeSpeaks(ns, down, 0, KEY_MARK + nkey);
    BelowHeader(hash, LinesBefore(ns, down, 0), nkey);
    BlockIsShown([HASH_PREFIX + hash] + LinesBefore(ns, down, 0), RenderNode(PublishNode(rule), 5),
                 LinesAfter(ns, down, 0) + [""], nkey);
  }

  /** What the operator compiles from a single declared publish allow entry and nothing else. */
  function ForgingPermissions(nkey: string): Permissions
  {
    Permissions(Some(PermissionRule([Forgery(nkey)], [])), Some(PermissionRule([], [">"])), None)
  }

  /** Two users of one account; the first may publish one subject, which carries the second one's key. */
  function TwoUsers(n: string, first: string, second: string): Config
  {
    var users := [UserConfig(first, Some(ForgingPermissions(second))), UserConfig(second, None)];
    Config("", [], map[n := AccountConfig(None, None, users)])
  }

  lemma TwoUsersFacts(n: string, first: string, second: string)
    requires Word(n) && Word(first) && Word(second) && |first| == |second| && first != second
    ensures LegalConfig(TwoUsers(n, first, second)) && KeyIsUnique(TwoUsers(n, first, second), n, 1)
    ensures CalmUser(TwoUsers(n, first, second).accounts[n].users[1])
    ensures KeysOfLength(TwoUsers(n, first, second), |second|)
    ensures !MentionedBefore(TwoUsers(n, first, second), second, n, 0)
  {
    hide Word, UserMentions, Forgery;
    forall m, j: nat | IsUser(TwoUsers(n, first, second), m, j)
      ensures m == n && j < 2
              && TwoUsers(n, first, second).accounts[m].users[j].nkey == if j == 0 then first else second
    {}
    forall m, j: nat | MentionedByUser(TwoUsers(n, first, second), second, m, j) ensures m == n {
      assert IsUser(TwoUsers(n, first, second), m, j);
    }
  }

  lemma ForgeryForges(n: string, first: string, second: string)
    requires Word(second) && '\\' !in second && first != second
    ensures Forges(TwoUsers(n, first, second), n, 0, second, PermissionRule([Forgery(second)], []))
    ensures QuotedList([Forgery(second)]) == "\"\\" + (KEY_MARK + second) + "\""
  {
    QuotingForgesMark(second);
    WordFacts(second);
    assert QuotedList([Forgery(second)]) == Quoted(Forgery(second));
    assert Braceless("\"\\" + (KEY_MARK + second) + "\"") && Braceless(QuotedList([]));
    hide Contains, Forgery, Word, Quoted;
  }

  lemma ForgerComesFirst(n: string, first: string, second: string)
    requires Word(second) && '\\' !in second && first != second
    ensures MentionedBefore(TwoUsers(n, first, second), second, n, 1)
  {
    ForgeryForges(n, first, second);
    assert MentionedByUser(TwoUsers(n, first, second), second, n, 0);
    assert Precedes(n, 0, n, 1);
    hide Contains, Forgery, Word;
  }

  /**
   * One user's declared subject puts that user's publish block in the place of the other one's permissions:
   * whoever looks up the second key is shown what the first may publish.
   */
  lemma WrongDisplayHappens(n: string, first: string, second: string, hash: string)
    requires Word(n) && Word(first) && Word(second) && '\\' !in second && |first| == |second| && first != second
    requires DigestText(hash)
    ensures var cfg := TwoUsers(n, first, second);
            var shown := Shown(SplitAll(FormatHashHeader(hash) + ConfigBody(cfg)), second);
            && LegalConfig(cfg) && KeyIsUnique(cfg, n, 1)
            && shown == RenderNode(PublishNode(PermissionRule([Forgery(second)], [])), 5)
            && shown != RenderNode(UserNode(cfg.accounts[n].users[1]), 3)
  {
    hide Word, DigestText, LegalConfig, KeyIsUnique, KeysOfLength, CalmUser, MentionedBefore, Forges, Shown, SplitAll,
      FormatHashHeader, ConfigBody, RenderNode, UserNode, PublishNode, Contains, Forgery;
    var cfg := TwoUsers(n, first, second);
    TwoUsersFacts(n, first, second);
    ForgeryForges(n, first, second);
    WrongBlockIsShown(cfg, hash, n, 0, second, PermissionRule([Forgery(second)], []));
    ForgerComesFirst(n, first, second);
    OwnBlockIsShownExactly(cfg, hash, n, 1);
  }
}
