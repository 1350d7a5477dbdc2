/** The text printed for a config, which configs print legally, and what their text determines. */
module ConfigText {
  import opened Text
  import opened Numbers
  import opened Quote
  import opened Sorting
  import opened ConfigTree
  import opened NatsConfig
  import opened ConfigRoundTrip
  import opened HashHeader

  /** Printable ASCII without blanks, quotes, brackets and '#': names, keys and sizes are of this kind. */
  predicate WordChar(c: char)
  {
    '!' <= c <= '~' && c != '"' && c != '#' && c != '{' && c != '}' && c != '[' && c != ']'
  }

  ghost predicate Word(s: string)
  {
    s != "" && forall i :: 0 <= i < |s| ==> WordChar(s[i])
  }

  ghost predicate LegalSize(s: string)
  {
    s == "" || Word(s)
  }

  ghost predicate LegalAccount(a: AccountConfig)
  {
    && (a.jetStream.Some? ==>
          && LegalSize(a.jetStream.value.maxMemory) && LegalSize(a.jetStream.value.maxFile)
          && LegalSize(a.jetStream.value.memoryMaxStreamBytes) && LegalSize(a.jetStream.value.diskMaxStreamBytes))
    && (a.limits.Some? ==> LegalSize(a.limits.value.maxPayload))
    && (forall u <- a.users :: Word(u.nkey))
  }

  /** Names and keys are words, sizes are words or unset; subjects and TTLs are arbitrary. */
  ghost predicate LegalConfig(cfg: Config)
  {
    forall n <- cfg.accounts :: Word(n) && LegalAccount(cfg.accounts[n])
  }

  ghost function ConfigBody(cfg: Config): string
  {
    TreeText(ConfigNodes(cfg))
  }

  // ---- the printed tree is well-formed ----

  ghost predicate GoodValue(v: string)
  {
    v != "" && OneLine(v) && v[|v| - 1] != '{' && v[|v| - 1] != '['
  }

  lemma WordIsGood(s: string)
    requires Word(s)
    ensures GoodValue(s) && PlainStart(s)
  {
    assert WordChar(s[|s| - 1]) && WordChar(s[0]);
    forall i | 0 <= i < |s| ensures s[i] != '\n' { assert WordChar(s[i]); }
  }

  lemma IntIsGood(n: int)
    ensures GoodValue(IntText(n))
  {
    IntTextShape(n);
    assert IntText(n)[|IntText(n)| - 1] in IntText(n);
  }

  lemma QuotedIsGood(s: string)
    ensures GoodValue(Quoted(s))
  {
    EscapeAllOneLine(s);
  }

  lemma ListIsGood(ss: seq<string>)
    requires ss != []
    ensures GoodValue("[" + QuotedList(ss) + "]")
  {
    QuotedListOneLine(ss);
  }

  lemma KeyValueWellFormed(k: string, v: string)
    requires PlainStart(k) && OneLine(k) && GoodValue(v)
    ensures WellFormed(KeyValue(k, v))
  {
    var text := k + ": " + v;
    assert text[|text| - 1] == v[|v| - 1] && text[0] == k[0] && |text| >= 3;
  }

  lemma OneWellFormed(n: Node)
    requires WellFormed(n)
    ensures AllWellFormed([n])
  {
    assert [n][1..] == [];
  }

  ghost predicate GoodFields(pairs: seq<(string, Option<string>)>)
  {
    forall i :: 0 <= i < |pairs| ==>
      PlainStart(pairs[i].0) && OneLine(pairs[i].0) && (pairs[i].1.Some? ==> GoodValue(pairs[i].1.value))
  }

  lemma {:induction false} FieldsWellFormed(pairs: seq<(string, Option<string>)>)
    requires GoodFields(pairs)
    ensures AllWellFormed(Fields(pairs))
  {
    if pairs != [] {
      var front, last := pairs[..|pairs| - 1], pairs[|pairs| - 1];
      FieldsWellFormed(front);
      if last.1.Some? {
        KeyValueWellFormed(last.0, last.1.value);
        OneWellFormed(KeyValue(last.0, last.1.value));
        AllWellFormedConcat(Fields(front), [KeyValue(last.0, last.1.value)]);
      }
    }
  }

  lemma IntFieldGood(o: Option<int>)
    ensures IntField(o).Some? ==> GoodValue(IntField(o).value)
  {
    if o.Some? {
      IntIsGood(o.value);
    }
  }

  lemma SizeFieldGood(s: string)
    requires LegalSize(s)
    ensures NonEmpty(s).Some? ==> GoodValue(NonEmpty(s).value)
  {
    if s != "" {
      WordIsGood(s);
    }
  }

  lemma JetStreamKeysPlain(js: JetStreamConfig)
    ensures forall i :: 0 <= i < |JetStreamFields(js)| ==>
              PlainStart(JetStreamFields(js)[i].0) && OneLine(JetStreamFields(js)[i].0)
    ensures BoolField(js.maxBytesRequired).Some? ==> GoodValue(BoolField(js.maxBytesRequired).value)
  {}

  lemma JetStreamWellFormed(js: JetStreamConfig)
    requires LegalSize(js.maxMemory) && LegalSize(js.maxFile)
    requires LegalSize(js.memoryMaxStreamBytes) && LegalSize(js.diskMaxStreamBytes)
    ensures AllWellFormed(Fields(JetStreamFields(js)))
  {
    SizeFieldGood(js.maxMemory);
    SizeFieldGood(js.maxFile);
    SizeFieldGood(js.memoryMaxStreamBytes);
    SizeFieldGood(js.diskMaxStreamBytes);
    IntFieldGood(js.maxStreams);
    IntFieldGood(js.maxConsumers);
    IntFieldGood(js.maxAckPending);
    JetStreamKeysPlain(js);
    hide IntText, Word, LegalSize, NonEmpty, IntField, PlainStart, OneLine;
    FieldsWellFormed(JetStreamFields(js));
  }

  lemma LimitsWellFormed(l: LimitsConfig)
    requires LegalSize(l.maxPayload)
    ensures AllWellFormed(Fields(LimitsFields(l)))
  {
    SizeFieldGood(l.maxPayload);
    IntFieldGood(l.maxConnections);
    IntFieldGood(l.maxSubscriptions);
    IntFieldGood(l.maxLeafnodes);
    hide IntText, Word, LegalSize, NonEmpty, IntField;
    FieldsWellFormed(LimitsFields(l));
  }

  lemma RuleWellFormed(r: PermissionRule)
    ensures AllWellFormed(Fields(RuleFields(r)))
  {
    if r.allow != [] {
      ListIsGood(r.allow);
    }
    if r.deny != [] {
      ListIsGood(r.deny);
    }
    hide QuotedList;
    FieldsWellFormed(RuleFields(r));
  }

  lemma NamedWellFormed(name: string, kids: seq<Node>)
    requires PlainStart(name) && OneLine(name) && AllWellFormed(kids)
    ensures WellFormed(Named(name, kids)) && AllWellFormed([Named(name, kids)])
  {
    OneWellFormed(Named(name, kids));
  }

  lemma RuleNodesWellFormed(name: string, rule: Option<PermissionRule>)
    requires PlainStart(name) && OneLine(name)
    ensures AllWellFormed(RuleNodes(name, rule))
  {
    if rule.Some? {
      RuleWellFormed(rule.value);
      NamedWellFormed(name, Fields(RuleFields(rule.value)));
    }
  }

  lemma ResponseNodesWellFormed(resp: Option<ResponsePermission>)
    ensures AllWellFormed(ResponseNodes(resp))
  {
    if resp.Some? {
      var r := resp.value;
      KeyValueWellFormed("allow_responses", "true");
      OneWellFormed(KeyValue("allow_responses", "true"));
      IntFieldGood(r.maxMsgs);
      if r.ttl.Some? {
        QuotedIsGood(r.ttl.value);
      }
      FieldsWellFormed(ResponseFields(r));
      NamedWellFormed("allow_responses", Fields(ResponseFields(r)));
    }
  }

  lemma UserWellFormed(u: UserConfig)
    requires Word(u.nkey)
    ensures WellFormed(UserNode(u))
  {
    WordIsGood(u.nkey);
    KeyValueWellFormed("nkey", u.nkey);
    OneWellFormed(KeyValue("nkey", u.nkey));
    if u.permissions.Some? {
      var p := u.permissions.value;
      RuleNodesWellFormed("publish", p.publish);
      RuleNodesWellFormed("subscribe", p.subscribe);
      ResponseNodesWellFormed(p.allowResponses);
      AllWellFormedConcat(RuleNodes("publish", p.publish), RuleNodes("subscribe", p.subscribe));
      AllWellFormedConcat(RuleNodes("publish", p.publish) + RuleNodes("subscribe", p.subscribe),
                          ResponseNodes(p.allowResponses));
      NamedWellFormed("permissions", PermissionNodes(p));
      AllWellFormedConcat([KeyValue("nkey", u.nkey)], [Named("permissions", PermissionNodes(p))]);
    }
  }

  lemma {:induction false} UsersWellFormed(users: seq<UserConfig>)
    requires forall u <- users :: Word(u.nkey)
    ensures AllWellFormed(UserBlocks(users))
  {
    if users != [] {
      UserWellFormed(users[0]);
      UsersWellFormed(users[1..]);
    }
  }

  lemma UsersNodeWellFormed(users: seq<UserConfig>)
    requires forall u <- users :: Word(u.nkey)
    ensures WellFormed(UsersNode(users)) && AllWellFormed([UsersNode(users)])
  {
    UsersWellFormed(users);
    OneWellFormed(UsersNode(users));
  }

  lemma AccountWellFormed(a: AccountConfig)
    requires LegalAccount(a)
    ensures AllWellFormed(AccountNodes(a))
  {
    var js: seq<Node> := if a.jetStream.None? then [] else
      [Named("jetstream", Fields(JetStreamFields(a.jetStream.value)))];
    var lim: seq<Node> := if a.limits.None? then [] else [Named("limits", Fields(LimitsFields(a.limits.value)))];
    var us: seq<Node> := if a.users == [] then [] else [UsersNode(a.users)];
    if a.jetStream.Some? {
      JetStreamWellFormed(a.jetStream.value);
      NamedWellFormed("jetstream", Fields(JetStreamFields(a.jetStream.value)));
    }
    if a.limits.Some? {
      LimitsWellFormed(a.limits.value);
      NamedWellFormed("limits", Fields(LimitsFields(a.limits.value)));
    }
    UsersNodeWellFormed(a.users);
    AllWellFormedConcat(js, lim);
    AllWellFormedConcat(js + lim, us);
    assert AccountNodes(a) == js + lim + us;
  }

  lemma {:induction false} AccountBlocksWellFormed(names: seq<string>, accounts: map<string, AccountConfig>)
    requires forall n <- names :: n in accounts && Word(n) && LegalAccount(accounts[n])
    ensures AllWellFormed(AccountBlocks(names, accounts))
  {
    if names != [] {
      WordIsGood(names[0]);
      AccountWellFormed(accounts[names[0]]);
      NamedWellFormed(names[0], AccountNodes(accounts[names[0]]));
      AccountBlocksWellFormed(names[1..], accounts);
    }
  }

  lemma SentinelKeyIsWord()
    ensures Word(SENTINEL_NKEY)
  {
  }

  lemma Warning1WellFormed()
    ensures WellFormed(Comment(WARNING_1))
  {
    assert OneLine(WARNING_1_A);
    assert OneLine(WARNING_1_B);

  }

  lemma Warning2WellFormed()
    ensures WellFormed(Comment(WARNING_2))
  {
    assert OneLine(WARNING_2_A);
    assert OneLine(WARNING_2_B);

  }

  lemma Warning3WellFormed()
    ensures WellFormed(Comment(WARNING_3))
  {
    assert OneLine(WARNING_3_A);
    assert OneLine(WARNING_3_B);

  }

  lemma BannerWellFormed()
    ensures WellFormed(Comment(BANNER))
  {
    assert OneLine(BANNER_A);
    assert OneLine(BANNER_B);
  }

  lemma ThreeWellFormed(a: Node, b: Node, c: Node, tail: seq<Node>)
    requires WellFormed(a) && WellFormed(b) && WellFormed(c) && AllWellFormed(tail)
    ensures AllWellFormed([a, b, c] + tail)
  {
    assert ([a, b, c] + tail)[1..] == [b, c] + tail;
    assert ([b, c] + tail)[1..] == [c] + tail;
    assert ([c] + tail)[1..] == tail;
  }

  lemma SentinelWellFormed()
    ensures AllWellFormed(SentinelNodes())
  {
    SentinelKeyIsWord();
    Warning1WellFormed();
    Warning2WellFormed();
    Warning3WellFormed();
    hide Word, WellFormed, UsersNode;
    UsersNodeWellFormed([SENTINEL_USER]);
    NamedWellFormed("authorization", [UsersNode([SENTINEL_USER])]);
    ThreeWellFormed(Comment(WARNING_1), Comment(WARNING_2), Comment(WARNING_3),
                    [Named("authorization", [UsersNode([SENTINEL_USER])])]);
  }

  ghost function SystemNodes(cfg: Config): seq<Node>
  {
    if cfg.systemAccount == "" then [] else [KeyValue("system_account", Quoted(cfg.systemAccount))]
  }

  ghost function WarningNodes(cfg: Config): seq<Node>
  {
    if CountUsers(cfg.accounts.Keys, cfg.accounts) == 0 then SentinelNodes() else []
  }

  ghost function AccountsNode(cfg: Config): Node
  {
    Named("accounts", AccountBlocks(InOrder(cfg.accounts.Keys), cfg.accounts))
  }

  lemma ConfigParts(cfg: Config)
    ensures ConfigNodes(cfg) == [Comment(BANNER)] + SystemNodes(cfg) + WarningNodes(cfg) + [AccountsNode(cfg)]
  {}

  lemma ConfigWellFormed(cfg: Config)
    requires LegalConfig(cfg)
    ensures AllWellFormed(ConfigNodes(cfg))
  {
    BannerWellFormed();
    OneWellFormed(Comment(BANNER));
    QuotedIsGood(cfg.systemAccount);
    KeyValueWellFormed("system_account", Quoted(cfg.systemAccount));
    OneWellFormed(KeyValue("system_account", Quoted(cfg.systemAccount)));
    SentinelWellFormed();
    AccountBlocksWellFormed(InOrder(cfg.accounts.Keys), cfg.accounts);
    NamedWellFormed("accounts", AccountBlocks(InOrder(cfg.accounts.Keys), cfg.accounts));
    hide AllWellFormed, WellFormed, SentinelNodes, AccountBlocks;
    AllWellFormedConcat([Comment(BANNER)], SystemNodes(cfg));
    AllWellFormedConcat([Comment(BANNER)] + SystemNodes(cfg), WarningNodes(cfg));
    AllWellFormedConcat([Comment(BANNER)] + SystemNodes(cfg) + WarningNodes(cfg), [AccountsNode(cfg)]);
    ConfigParts(cfg);
  }

  // ---- reading the text back ----

  lemma CommentHoldsNothing(a: string, tail: seq<Node>, head: string, key: string)
    ensures BlockKids([Comment(a)] + tail, head) == BlockKids(tail, head)
    ensures FieldValue([Comment(a)] + tail, key) == FieldValue(tail, key)
  {
    assert ([Comment(a)] + tail)[1..] == tail;
  }

  lemma SentinelLookup(head: string, key: string)
    ensures BlockKids(SentinelNodes(), head)
            == if head == "authorization " then Some([UsersNode([SENTINEL_USER])]) else None
    ensures FieldValue(SentinelNodes(), key) == None
  {
    var auth := Named("authorization", [UsersNode([SENTINEL_USER])]);
    BlockKidsOne(auth, head);
    FieldValueOther(auth, key);
    assert "authorization" + " " == "authorization ";
    CommentHoldsNothing(WARNING_3, [auth], head, key);
    CommentHoldsNothing(WARNING_2, [Comment(WARNING_3)] + [auth], head, key);
    CommentHoldsNothing(WARNING_1, [Comment(WARNING_2)] + ([Comment(WARNING_3)] + [auth]), head, key);
    hide BlockKids, FieldValue, UsersNode;
    assert SentinelNodes() == [Comment(WARNING_1)] + ([Comment(WARNING_2)] + ([Comment(WARNING_3)] + [auth]));
  }

  lemma SystemLookup(cfg: Config, head: string)
    ensures BlockKids(SystemNodes(cfg), head) == None
    ensures FieldValue(SystemNodes(cfg), "system_account")
            == if cfg.systemAccount == "" then None else Some(Quoted(cfg.systemAccount))
  {
    BlockKidsOne(KeyValue("system_account", Quoted(cfg.systemAccount)), head);
    FieldValueOne("system_account", Quoted(cfg.systemAccount), "system_account");
  }

  lemma TopLookup(cfg: Config, head: string)
    requires head == "accounts " || head == "authorization "
    ensures BlockKids(ConfigNodes(cfg), head)
            == if head == "accounts " then Some(AccountsNode(cfg).kids)
               else BlockKids(WarningNodes(cfg), head)
  {
    ConfigParts(cfg);
    var top, sys, warn, acc := [Comment(BANNER)], SystemNodes(cfg), WarningNodes(cfg), [AccountsNode(cfg)];
    BlockKidsOne(Comment(BANNER), head);
    SystemLookup(cfg, head);
    SentinelLookup(head, "");
    BlockKidsOne(AccountsNode(cfg), head);
    assert "accounts" + " " == "accounts ";
    assert warn == [] ==> BlockKids(warn, head) == None;
    hide BlockKids, SystemNodes, AccountBlocks, SentinelNodes;
    BlockKidsConcat(top + sys + warn, acc, head);
    BlockKidsConcat(top + sys, warn, head);
    BlockKidsConcat(top, sys, head);
  }

  lemma TopSystemAccount(cfg: Config)
    ensures QuotedAt(ConfigNodes(cfg), "system_account")
            == if cfg.systemAccount == "" then None else Some(cfg.systemAccount)
  {
    ConfigParts(cfg);
    var top, sys, warn, acc := [Comment(BANNER)], SystemNodes(cfg), WarningNodes(cfg), [AccountsNode(cfg)];
    FieldValueOther(Comment(BANNER), "system_account");
    SystemLookup(cfg, "");
    SentinelLookup("", "system_account");
    FieldValueOther(AccountsNode(cfg), "system_account");
    UnquoteQuoted(cfg.systemAccount);
    assert warn == [] ==> FieldValue(warn, "system_account") == None;
    hide FieldValue, SystemNodes, AccountBlocks, SentinelNodes, Unquote, Quoted;
    FieldValueConcat(top + sys + warn, acc, "system_account");
    FieldValueConcat(top + sys, warn, "system_account");
    FieldValueConcat(top, sys, "system_account");
  }

  lemma AccountsDecoded(cfg: Config)
    ensures DecodeAccounts(AccountsNode(cfg).kids) == Normal(cfg).accounts
  {
    AccountsBack(InOrder(cfg.accounts.Keys), cfg.accounts);
    hide AccountBlocks, DecodeAccounts, NormalAccount;
  }

  /** The authorization block of a config without users. */
  ghost function Sentinel(cfg: Config): Option<seq<UserConfig>>
  {
    if CountUsers(cfg.accounts.Keys, cfg.accounts) == 0 then Some([SENTINEL_USER]) else None
  }

  lemma SentinelUserBack()
    ensures DecodeUserList([UsersNode([SENTINEL_USER])]) == [SENTINEL_USER]
  {
    BlockKidsOne(UsersNode([SENTINEL_USER]), "users = ");
    UsersBack([SENTINEL_USER]);
    assert NormalUsers([SENTINEL_USER]) == [SENTINEL_USER];
    hide BlockKids, DecodeUsers, UserBlocks;
  }

  lemma SentinelDecoded(cfg: Config)
    ensures DecodeAuthorization(ConfigNodes(cfg)) == Sentinel(cfg)
  {
    TopLookup(cfg, "authorization ");
    SentinelLookup("authorization ", "");
    SentinelUserBack();
    hide SentinelNodes, ConfigNodes, DecodeUserList, UsersNode;
  }

  lemma ConfigBack(cfg: Config)
    ensures DecodeConfig(ConfigNodes(cfg)) == Some(ServerView(Normal(cfg), Sentinel(cfg)))
  {
    TopLookup(cfg, "accounts ");
    TopSystemAccount(cfg);
    AccountsDecoded(cfg);
    SentinelDecoded(cfg);
    hide ConfigNodes, BlockKids, QuotedAt, DecodeAccounts, DecodeAuthorization, WarningNodes, AccountsNode, Sentinel;
  }

  /**
   * Reading a printed config gives it back in normal form, and finds the sentinel as the only user of an
   * authorization block exactly when no account has a user.
   */
  lemma PrintedConfigReadBack(cfg: Config)
    requires LegalConfig(cfg)
    ensures ReadConfig(ConfigBody(cfg)) == Some(ServerView(Normal(cfg), Sentinel(cfg)))
  {
    ConfigWellFormed(cfg);
    ParseTreeText(ConfigNodes(cfg));
    ConfigBack(cfg);
    hide ParseText, DecodeConfig, ConfigNodes, TreeText;
  }

  // ---- the text depends on nothing but the normal form ----

  lemma NormalUserPrintsSame(u: UserConfig)
    ensures UserNode(u) == UserNode(NormalUser(u))
  {}

  lemma {:induction false} NormalUsersPrintSame(users: seq<UserConfig>)
    ensures UserBlocks(users) == UserBlocks(NormalUsers(users))
  {
    if users != [] {
      assert NormalUsers(users) == [NormalUser(users[0])] + NormalUsers(users[1..]);
      assert NormalUsers(users)[1..] == NormalUsers(users[1..]);
      NormalUsersPrintSame(users[1..]);
      NormalUserPrintsSame(users[0]);
    }
  }

  lemma NormalAccountPrintsSame(a: AccountConfig)
    ensures AccountNodes(a) == AccountNodes(NormalAccount(a))
  {
    NormalUsersPrintSame(a.users);
  }

  lemma {:induction false} NormalBlocksPrintSame(names: seq<string>, cfg: Config)
    requires forall n <- names :: n in cfg.accounts
    ensures AccountBlocks(names, cfg.accounts) == AccountBlocks(names, Normal(cfg).accounts)
  {
    if names != [] {
      NormalAccountPrintsSame(cfg.accounts[names[0]]);
      hide AccountNodes, NormalAccount;
      NormalBlocksPrintSame(names[1..], cfg);
    }
  }

  lemma {:induction false} NormalCountsSame(names: set<string>, cfg: Config)
    requires names <= cfg.accounts.Keys
    ensures CountUsers(names, cfg.accounts) == CountUsers(names, Normal(cfg).accounts)
  {
    if names != {} {
      var n :| n in names && CountUsers(names, cfg.accounts)
                             == |cfg.accounts[n].users| + CountUsers(names - {n}, cfg.accounts)
               && CountUsers(names, Normal(cfg).accounts)
                  == |Normal(cfg).accounts[n].users| + CountUsers(names - {n}, Normal(cfg).accounts);
      NormalCountsSame(names - {n}, cfg);
    }
  }

  lemma NormalPrintsSame(cfg: Config)
    ensures ConfigBody(cfg) == ConfigBody(Normal(cfg))
  {
    assert Normal(cfg).accounts.Keys == cfg.accounts.Keys;
    NormalBlocksPrintSame(InOrder(cfg.accounts.Keys), cfg);
    NormalCountsSame(cfg.accounts.Keys, cfg);
  }

  /** Two configs print the same text, and so hash the same, exactly when their normal forms agree. */
  lemma SameTextIffSameNormalForm(a: Config, b: Config)
    requires LegalConfig(a) && LegalConfig(b)
    ensures ConfigBody(a) == ConfigBody(b) <==> Normal(a) == Normal(b)
  {
    PrintedConfigReadBack(a);
    PrintedConfigReadBack(b);
    NormalPrintsSame(a);
    NormalPrintsSame(b);
    hide ConfigBody, ReadConfig, Normal;
  }

  lemma HeaderLine(hash: string, nodes: seq<Node>)
    ensures TreeText([Comment(HASH_PREFIX + hash)] + nodes) == FormatHashHeader(hash) + TreeText(nodes)
  {
    var header := Comment(HASH_PREFIX + hash);
    assert ([header] + nodes)[1..] == nodes;
    assert Pad(0) + header.text == HASH_PREFIX + hash;
    UnlinesCons(HASH_PREFIX + hash, RenderNodes(nodes, 0));
    assert RenderNodes([header] + nodes, 0) == [HASH_PREFIX + hash] + RenderNodes(nodes, 0);
  }

  lemma ParseHeadedText(hash: string, nodes: seq<Node>)
    requires AllWellFormed(nodes) && DigestText(hash)
    ensures ParseText(FormatHashHeader(hash) + TreeText(nodes)) == Some([Comment(HASH_PREFIX + hash)] + nodes)
  {
    var header := Comment(HASH_PREFIX + hash);
    forall i | 0 <= i < |hash| ensures hash[i] != '\n' { assert !IsSpace(hash[i]); }
    assert ([header] + nodes)[1..] == nodes;
    HeaderLine(hash, nodes);
    hide FormatHashHeader, ParseText, TreeText;
    ParseTreeText([header] + nodes);
  }

  lemma CommentedDecode(comment: string, nodes: seq<Node>)
    ensures DecodeConfig([Comment(comment)] + nodes) == DecodeConfig(nodes)
  {
    CommentHoldsNothing(comment, nodes, "accounts ", "system_account");
    CommentHoldsNothing(comment, nodes, "authorization ", "system_account");
    hide BlockKids, FieldValue;
  }

  /** The hash header the operator puts in front is a comment: the server reads the same config. */
  lemma HeaderIsTransparent(cfg: Config, hash: string)
    requires LegalConfig(cfg) && DigestText(hash)
    ensures ReadConfig(FormatHashHeader(hash) + ConfigBody(cfg)) == ReadConfig(ConfigBody(cfg))
    ensures HeaderHash(FormatHashHeader(hash) + ConfigBody(cfg)) == hash
  {
    PublishedHash(hash, ConfigBody(cfg));
    ConfigWellFormed(cfg);
    hide ConfigNodes, ParseText, DecodeConfig, TreeText, FormatHashHeader, HeaderHash, AllWellFormed, LegalConfig;
    ParseHeadedText(hash, ConfigNodes(cfg));
    ParseTreeText(ConfigNodes(cfg));
    CommentedDecode(HASH_PREFIX + hash, ConfigNodes(cfg));
  }
}
