/** internal/natsconfig/generate.go: the writers, appending to one shared builder. */
module Generate {
  import opened Text
  import opened Numbers
  import opened Quote
  import opened Sorting
  import opened ConfigTree
  import opened NatsConfig
  import opened ConfigText

  /** strings.Builder */
  class Builder {
    var text: string

    constructor ()
      ensures text == ""
    {
      text := "";
    }

    method WriteString(s: string)
      modifies this
      ensures text == old(text) + s
    {
      text := text + s;
    }
  }

  // ---- how appended pieces add up to a rendered tree ----

  function NodesText(ns: seq<Node>, indent: nat): string
  {
    Unlines(RenderNodes(ns, indent))
  }

  function FieldText(p: (string, Option<string>), indent: nat): string
  {
    match p.1
    case None => ""
    case Some(v) => Pad(indent) + p.0 + ": " + v + "\n"
  }

  lemma OneLineText(line: string)
    ensures Unlines([line]) == line + "\n"
  {
    assert [line][1..] == [];
    assert line + "\n" + "" == line + "\n";
  }

  lemma NodesTextConcat(a: seq<Node>, b: seq<Node>, indent: nat)
    ensures NodesText(a + b, indent) == NodesText(a, indent) + NodesText(b, indent)
  {
    RenderNodesConcat(a, b, indent);
    UnlinesConcat(RenderNodes(a, indent), RenderNodes(b, indent));
  }

  lemma NodeText(n: Node, indent: nat)
    ensures NodesText([n], indent) == Unlines(RenderNode(n, indent))
  {
    assert [n][1..] == [];
    assert RenderNodes([n], indent) == RenderNode(n, indent);
  }

  lemma KeyValueText(k: string, v: string, indent: nat)
    ensures NodesText([KeyValue(k, v)], indent) == FieldText((k, Some(v)), indent)
  {
    NodeText(KeyValue(k, v), indent);
    OneLineText(Pad(indent) + (k + ": " + v));
    assert Pad(indent) + (k + ": " + v) == Pad(indent) + k + ": " + v;
  }

  /** Appending one optional field. */
  lemma FieldWritten(start: string, done: seq<(string, Option<string>)>, p: (string, Option<string>), indent: nat)
    ensures start + NodesText(Fields(done), indent) + FieldText(p, indent)
            == start + NodesText(Fields(done + [p]), indent)
  {
    assert (done + [p])[..|done|] == done;
    if p.1.Some? {
      NodesTextConcat(Fields(done), [KeyValue(p.0, p.1.value)], indent);
      KeyValueText(p.0, p.1.value, indent);
    } else {
      assert NodesText(Fields(done), indent) + "" == NodesText(Fields(done), indent);
    }
    hide Fields, NodesText, FieldText;
    Associate(start, NodesText(Fields(done), indent), FieldText(p, indent));
  }

  /** Appending further nodes. */
  lemma NodesWritten(start: string, done: seq<Node>, more: seq<Node>, indent: nat)
    ensures start + NodesText(done, indent) + NodesText(more, indent) == start + NodesText(done + more, indent)
  {
    NodesTextConcat(done, more, indent);
    hide NodesText;
    Associate(start, NodesText(done, indent), NodesText(more, indent));
  }

  lemma BlockText(head: string, bracket: Bracket, kids: seq<Node>, indent: nat)
    ensures NodesText([Block(head, bracket, kids)], indent)
            == (Pad(indent) + head + OpenText(bracket) + "\n") + NodesText(kids, indent + 1)
               + (Pad(indent) + CloseText(bracket) + "\n")
  {
    var open, close := Pad(indent) + head + OpenText(bracket), Pad(indent) + CloseText(bracket);
    var inner := RenderNodes(kids, indent + 1);
    NodeText(Block(head, bracket, kids), indent);
    OneLineText(open);
    OneLineText(close);
    hide Unlines, RenderNodes, Pad, NodesText;
    UnlinesConcat([open] + inner, [close]);
    UnlinesConcat([open], inner);
  }

  /** An opening line, the kids, a closing line. */
  lemma BlockWritten(start: string, head: string, bracket: Bracket, kids: seq<Node>, indent: nat)
    ensures start + (Pad(indent) + head + OpenText(bracket) + "\n") + NodesText(kids, indent + 1)
            + (Pad(indent) + CloseText(bracket) + "\n")
            == start + NodesText([Block(head, bracket, kids)], indent)
  {
    BlockText(head, bracket, kids, indent);
    hide NodesText, Pad, OpenText, CloseText;
    Associate(start, Pad(indent) + head + OpenText(bracket) + "\n", NodesText(kids, indent + 1));
    Associate(start, (Pad(indent) + head + OpenText(bracket) + "\n") + NodesText(kids, indent + 1),
              Pad(indent) + CloseText(bracket) + "\n");
  }

  lemma NothingWritten(start: string, indent: nat)
    ensures start + NodesText([], indent) == start
    ensures start + NodesText(Fields([]), indent) == start
  {}

  // ---- writers ----

  type Pairs = seq<(string, Option<string>)>

  /** One guarded Fprintf: a field that is set goes on a line of its own, after the fields done so far. */
  method WriteField(b: Builder, key: string, value: Option<string>, indent: nat, ghost start: string, ghost done: Pairs)
    returns (ghost now: Pairs)
    requires b.text == start + NodesText(Fields(done), indent)
    modifies b
    ensures b.text == start + NodesText(Fields(now), indent) && now == done + [(key, value)]
    ensures b.text == old(b.text) + FieldText((key, value), indent)
  {
    if value.Some? {
      b.WriteString(Pad(indent) + key + ": " + value.value + "\n");
    }
    FieldWritten(start, done, (key, value), indent);
    now := done + [(key, value)];
  }

  method WriteJetStream(b: Builder, js: JetStreamConfig, indent: nat)
    modifies b
    ensures b.text == old(b.text) + NodesText([Named("jetstream", Fields(JetStreamFields(js)))], indent)
  {
    hide NodesText, Fields, FieldText, NonEmpty, IntField, BoolField, Pad;
    ghost var before := b.text;
    b.WriteString(Pad(indent) + "jetstream " + "{" + "\n");
    ghost var start, done: Pairs := b.text, [];
    NothingWritten(start, indent + 1);
    done := WriteField(b, "max_mem", NonEmpty(js.maxMemory), indent + 1, start, done);
    done := WriteField(b, "max_file", NonEmpty(js.maxFile), indent + 1, start, done);
    done := WriteField(b, "max_streams", IntField(js.maxStreams), indent + 1, start, done);
    done := WriteField(b, "max_consumers", IntField(js.maxConsumers), indent + 1, start, done);
    done := WriteField(b, "max_bytes_required", BoolField(js.maxBytesRequired), indent + 1, start, done);
    done := WriteField(b, "memory_max_stream_bytes", NonEmpty(js.memoryMaxStreamBytes), indent + 1, start, done);
    done := WriteField(b, "disk_max_stream_bytes", NonEmpty(js.diskMaxStreamBytes), indent + 1, start, done);
    done := WriteField(b, "max_ack_pending", IntField(js.maxAckPending), indent + 1, start, done);
    assert done == JetStreamFields(js);
    b.WriteString(Pad(indent) + "}" + "\n");
    BlockWritten(before, "jetstream" + " ", Brace, Fields(done), indent);
  }

  method WriteLimits(b: Builder, l: LimitsConfig, indent: nat)
    modifies b
    ensures b.text == old(b.text) + NodesText([Named("limits", Fields(LimitsFields(l)))], indent)
  {
    hide NodesText, Fields, FieldText, NonEmpty, IntField, Pad;
    ghost var before := b.text;
    b.WriteString(Pad(indent) + "limits " + "{" + "\n");
    ghost var start, done: Pairs := b.text, [];
    NothingWritten(start, indent + 1);
    done := WriteField(b, "max_connections", IntField(l.maxConnections), indent + 1, start, done);
    done := WriteField(b, "max_subscriptions", IntField(l.maxSubscriptions), indent + 1, start, done);
    done := WriteField(b, "max_payload", NonEmpty(l.maxPayload), indent + 1, start, done);
    done := WriteField(b, "max_leafnodes", IntField(l.maxLeafnodes), indent + 1, start, done);
    assert done == LimitsFields(l);
    b.WriteString(Pad(indent) + "}" + "\n");
    BlockWritten(before, "limits" + " ", Brace, Fields(done), indent);
  }

  method WritePermissionRule(b: Builder, name: string, rule: PermissionRule, indent: nat)
    modifies b
    ensures b.text == old(b.text) + NodesText(RuleNodes(name, Some(rule)), indent)
  {
    hide NodesText, Fields, FieldText, Pad, QuotedList;
    ghost var before := b.text;
    b.WriteString(Pad(indent) + (name + " ") + "{" + "\n");
    ghost var start, done: Pairs := b.text, [];
    NothingWritten(start, indent + 1);
    var allow, deny: Option<string> := None, None;
    if |rule.allow| > 0 {
      var quoted := QuoteStrings(rule.allow);
      allow := Some("[" + quoted + "]");
    }
    done := WriteField(b, "allow", allow, indent + 1, start, done);
    if |rule.deny| > 0 {
      var quoted := QuoteStrings(rule.deny);
      deny := Some("[" + quoted + "]");
    }
    done := WriteField(b, "deny", deny, indent + 1, start, done);
    assert done == RuleFields(rule);
    b.WriteString(Pad(indent) + "}" + "\n");
    BlockWritten(before, name + " ", Brace, Fields(done), indent);
  }

  method WriteAllowResponses(b: Builder, resp: ResponsePermission, indent: nat)
    requires resp.enabled
    modifies b
    ensures b.text == old(b.text) + NodesText(ResponseNodes(Some(resp)), indent)
  {
    hide NodesText, Fields, FieldText, Pad, IntText, Quoted;
    ghost var before := b.text;
    if resp.maxMsgs.None? && resp.ttl.None? {
      NothingWritten(before, indent);
      ghost var one := WriteField(b, "allow_responses", Some("true"), indent, before, []);
      KeyValueText("allow_responses", "true", indent);
      return;
    }
    b.WriteString(Pad(indent) + "allow_responses " + "{" + "\n");
    ghost var start, done: Pairs := b.text, [];
    NothingWritten(start, indent + 1);
    done := WriteField(b, "max", IntField(resp.maxMsgs), indent + 1, start, done);
    done := WriteField(b, "ttl", QuotedField(resp.ttl), indent + 1, start, done);
    assert done == ResponseFields(resp);
    b.WriteString(Pad(indent) + "}" + "\n");
    BlockWritten(before, "allow_responses" + " ", Brace, Fields(done), indent);
  }

  method WriteRuleIfSet(b: Builder, name: string, rule: Option<PermissionRule>, indent: nat)
    modifies b
    ensures b.text == old(b.text) + NodesText(RuleNodes(name, rule), indent)
  {
    if rule.Some? {
      WritePermissionRule(b, name, rule.value, indent);
    } else {
      NothingWritten(b.text, indent);
    }
  }

  method WriteResponsesIfEnabled(b: Builder, resp: Option<ResponsePermission>, indent: nat)
    modifies b
    ensures b.text == old(b.text) + NodesText(ResponseNodes(resp), indent)
  {
    if resp.Some? && resp.value.enabled {
      WriteAllowResponses(b, resp.value, indent);
    } else {
      NothingWritten(b.text, indent);
    }
  }

  method WritePermissions(b: Builder, p: Permissions, indent: nat)
    modifies b
    ensures b.text == old(b.text) + NodesText([Named("permissions", PermissionNodes(p))], indent)
  {
    hide NodesText, Pad, RuleNodes, ResponseNodes;
    ghost var before := b.text;
    b.WriteString(Pad(indent) + "permissions " + "{" + "\n");
    ghost var start := b.text;
    WriteRuleIfSet(b, "publish", p.publish, indent + 1);
    WriteRuleIfSet(b, "subscribe", p.subscribe, indent + 1);
    NodesWritten(start, RuleNodes("publish", p.publish), RuleNodes("subscribe", p.subscribe), indent + 1);
    WriteResponsesIfEnabled(b, p.allowResponses, indent + 1);
    NodesWritten(start, RuleNodes("publish", p.publish) + RuleNodes("subscribe", p.subscribe),
                 ResponseNodes(p.allowResponses), indent + 1);
    b.WriteString(Pad(indent) + "}" + "\n");
    BlockWritten(before, "permissions" + " ", Brace, PermissionNodes(p), indent);
  }

  method WriteUser(b: Builder, u: UserConfig, indent: nat)
    modifies b
    ensures b.text == old(b.text) + NodesText(UserNodes(u), indent)
  {
    hide NodesText, Pad, PermissionNodes;
    ghost var start := b.text;
    NothingWritten(start, indent);
    ghost var key := WriteField(b, "nkey", Some(u.nkey), indent, start, []);
    KeyValueText("nkey", u.nkey, indent);
    assert b.text == start + NodesText([KeyValue("nkey", u.nkey)], indent);
    assert u.permissions.None? ==> UserNodes(u) == [KeyValue("nkey", u.nkey)];
    if u.permissions.Some? {
      WritePermissions(b, u.permissions.value, indent);
      NodesWritten(start, [KeyValue("nkey", u.nkey)], [Named("permissions", PermissionNodes(u.permissions.value))],
                   indent);
    }
  }

  lemma {:induction false} UserBlocksAppend(users: seq<UserConfig>, u: UserConfig)
    ensures UserBlocks(users + [u]) == UserBlocks(users) + [UserNode(u)]
  {
    if users == [] {
      assert users + [u] == [u];
      assert [u][1..] == [];
    } else {
      assert (users + [u])[1..] == users[1..] + [u];
      UserBlocksAppend(users[1..], u);
    }
  }

  lemma NoUsers()
    ensures UserBlocks([]) == []
  {}

  method WriteUsers(b: Builder, users: seq<UserConfig>, indent: nat)
    modifies b
    ensures b.text == old(b.text) + NodesText([UsersNode(users)], indent)
  {
    hide NodesText, Pad, UserNodes, UserBlocks;
    ghost var before := b.text;
    b.WriteString(Pad(indent) + "users = " + "[" + "\n");
    ghost var start := b.text;
    NothingWritten(start, indent + 1);
    NoUsers();
    for i := 0 to |users|
      invariant b.text == start + NodesText(UserBlocks(users[..i]), indent + 1)
    {
      ghost var here := b.text;
      b.WriteString(Pad(indent + 1) + "" + "{" + "\n");
      WriteUser(b, users[i], indent + 2);
      b.WriteString(Pad(indent + 1) + "}" + "\n");
      BlockWritten(here, "", Brace, UserNodes(users[i]), indent + 1);
      NodesWritten(start, UserBlocks(users[..i]), [UserNode(users[i])], indent + 1);
      UserBlocksAppend(users[..i], users[i]);
      assert users[..i + 1] == users[..i] + [users[i]];
    }
    assert users[..|users|] == users;
    b.WriteString(Pad(indent) + "]" + "\n");
    BlockWritten(before, "users = ", Square, UserBlocks(users), indent);
  }

  method WriteAccount(b: Builder, name: string, acct: AccountConfig, indent: nat)
    modifies b
    ensures b.text == old(b.text) + NodesText([Named(name, AccountNodes(acct))], indent)
  {
    hide NodesText, Pad, Fields, UserBlocks;
    ghost var before := b.text;
    b.WriteString(Pad(indent) + (name + " ") + "{" + "\n");
    ghost var start, done: seq<Node> := b.text, [];
    NothingWritten(start, indent + 1);
    if acct.jetStream.Some? {
      WriteJetStream(b, acct.jetStream.value, indent + 1);
      ghost var more := [Named("jetstream", Fields(JetStreamFields(acct.jetStream.value)))];
      NodesWritten(start, done, more, indent + 1);
      done := done + more;
    }
    if acct.limits.Some? {
      WriteLimits(b, acct.limits.value, indent + 1);
      ghost var more := [Named("limits", Fields(LimitsFields(acct.limits.value)))];
      NodesWritten(start, done, more, indent + 1);
      done := done + more;
    }
    if |acct.users| > 0 {
      WriteUsers(b, acct.users, indent + 1);
      NodesWritten(start, done, [UsersNode(acct.users)], indent + 1);
      done := done + [UsersNode(acct.users)];
    }
    assert done == AccountNodes(acct);
    b.WriteString(Pad(indent) + "}" + "\n");
    BlockWritten(before, name + " ", Brace, AccountNodes(acct), indent);
  }

  method WriteSentinelAuthorization(b: Builder)
    modifies b
    ensures b.text == old(b.text) + NodesText([Named("authorization", [UsersNode([SENTINEL_USER])])], 0)
  {
    hide NodesText, Pad, UserBlocks;
    ghost var before := b.text;
    var user := UserConfig(SENTINEL_NKEY,
                           Some(Permissions(Some(PermissionRule([], [">"])), Some(PermissionRule([], [">"])), None)));
    b.WriteString(Pad(0) + "authorization " + "{" + "\n");
    WriteUsers(b, [user], 1);
    b.WriteString(Pad(0) + "}" + "\n");
    BlockWritten(before, "authorization" + " ", Brace, [UsersNode([SENTINEL_USER])], 0);
  }

  // ---- the whole text ----

  method TotalUsers(accounts: map<string, AccountConfig>) returns (n: nat)
    ensures n == CountUsers(accounts.Keys, accounts)
  {
    n := 0;
    var remaining := accounts.Keys;
    while remaining != {}
      invariant remaining <= accounts.Keys
      invariant n + CountUsers(remaining, accounts) == CountUsers(accounts.Keys, accounts)
      decreases |remaining|
    {
      var name :| name in remaining;
      CountUsersRemove(remaining, accounts, name);
      n := n + |accounts[name].users|;
      remaining := remaining - {name};
    }
  }

  /** The keys of a map, in whatever order the iteration yields them. */
  method CollectNames(accounts: map<string, AccountConfig>) returns (names: seq<string>)
    ensures DistinctBy(names, Self) && forall n :: n in accounts.Keys <==> n in names
  {
    names := [];
    var remaining := accounts.Keys;
    while remaining != {}
      invariant remaining <= accounts.Keys
      invariant DistinctBy(names, Self) && forall n :: n in accounts.Keys <==> n in names || n in remaining
      invariant forall n :: n in names ==> n !in remaining
      decreases |remaining|
    {
      var name :| name in remaining;
      names := names + [name];
      remaining := remaining - {name};
    }
  }

  method SortedNames(accounts: map<string, AccountConfig>) returns (names: seq<string>)
    ensures names == InOrder(accounts.Keys)
  {
    var collected := CollectNames(accounts);
    names := SortSlice(collected, Self);
    SortedNamesAreInOrder(accounts.Keys, collected, names);
  }

  lemma {:induction false} AccountBlocksAppend(names: seq<string>, name: string, accounts: map<string, AccountConfig>)
    requires name in accounts && forall n <- names :: n in accounts
    ensures forall n <- names + [name] :: n in accounts
    ensures AccountBlocks(names + [name], accounts)
            == AccountBlocks(names, accounts) + [Named(name, AccountNodes(accounts[name]))]
  {
    if names == [] {
      assert names + [name] == [name];
      assert [name][1..] == [];
    } else {
      assert (names + [name])[1..] == names[1..] + [name];
      AccountBlocksAppend(names[1..], name, accounts);
    }
  }

  lemma AccountWritten(start: string, names: seq<string>, i: nat, accounts: map<string, AccountConfig>)
    requires i < |names| && forall n <- names :: n in accounts
    ensures start + NodesText(AccountBlocks(names[..i], accounts), 1)
            + NodesText([Named(names[i], AccountNodes(accounts[names[i]]))], 1)
            == start + NodesText(AccountBlocks(names[..i + 1], accounts), 1)
  {
    assert names[..i + 1] == names[..i] + [names[i]];
    AccountBlocksAppend(names[..i], names[i], accounts);
    hide NodesText, AccountBlocks, AccountNodes;
    NodesWritten(start, AccountBlocks(names[..i], accounts),
                 [Named(names[i], AccountNodes(accounts[names[i]]))], 1);
  }

  method WriteAccountList(b: Builder, names: seq<string>, accounts: map<string, AccountConfig>)
    requires forall n <- names :: n in accounts
    modifies b
    ensures b.text == old(b.text) + NodesText(AccountBlocks(names, accounts), 1)
  {
    ghost var start := b.text;
    NothingWritten(start, 1);
    assert AccountBlocks([], accounts) == [];
    hide NodesText, AccountBlocks, AccountNodes;
    for i := 0 to |names|
      invariant b.text == start + NodesText(AccountBlocks(names[..i], accounts), 1)
    {
      WriteAccount(b, names[i], accounts[names[i]], 1);
      AccountWritten(start, names, i, accounts);
    }
    assert names[..|names|] == names;
  }

  lemma AccountsWritten(start: string, cfg: Config)
    ensures start + (Pad(0) + "accounts " + "{" + "\n")
            + NodesText(AccountBlocks(InOrder(cfg.accounts.Keys), cfg.accounts), 1) + (Pad(0) + "}" + "\n")
            == start + NodesText([AccountsNode(cfg)], 0)
  {
    hide NodesText, AccountBlocks, Pad;
    var kids := AccountBlocks(InOrder(cfg.accounts.Keys), cfg.accounts);
    assert "accounts" + " " == "accounts ";
    BlockWritten(start, "accounts ", Brace, kids, 0);
    assert AccountsNode(cfg) == Block("accounts ", Brace, kids);
  }

  method WriteAccounts(b: Builder, cfg: Config)
    modifies b
    ensures b.text == old(b.text) + NodesText([AccountsNode(cfg)], 0)
  {
    hide NodesText, AccountNodes, AccountBlocks, AccountsNode, Pad;
    ghost var before := b.text;
    b.WriteString(Pad(0) + "accounts " + "{" + "\n");
    var names := SortedNames(cfg.accounts);
    WriteAccountList(b, names, cfg.accounts);
    b.WriteString(Pad(0) + "}" + "\n");
    AccountsWritten(before, cfg);
  }

  lemma CommentText(c: string)
    ensures NodesText([Comment(c)], 0) == c + "\n"
  {
    NodeText(Comment(c), 0);
    OneLineText(Pad(0) + c);
    assert Pad(0) + c == c;
  }

  lemma BodyIsNodesText(cfg: Config)
    ensures ConfigBody(cfg) == NodesText(ConfigNodes(cfg), 0)
  {}

  lemma SystemAccountText(name: string)
    ensures NodesText([KeyValue("system_account", Quoted(name))], 0) == "system_account" + ": " + Quoted(name) + "\n"
  {
    KeyValueText("system_account", Quoted(name), 0);
    hide Quoted;
    assert Pad(0) + "system_account" == "system_account";
  }

  lemma SentinelWritten(start: string, done: seq<Node>)
    requires start == NodesText(done, 0)
    ensures start + (WARNING_1 + "\n") + (WARNING_2 + "\n") + (WARNING_3 + "\n")
            + NodesText([Named("authorization", [UsersNode([SENTINEL_USER])])], 0)
            == NodesText(done + SentinelNodes(), 0)
  {
    var auth := Named("authorization", [UsersNode([SENTINEL_USER])]);
    CommentText(WARNING_1);
    CommentText(WARNING_2);
    CommentText(WARNING_3);
    hide NodesText, UsersNode;
    NodesTextConcat(done, [Comment(WARNING_1)], 0);
    NodesTextConcat(done + [Comment(WARNING_1)], [Comment(WARNING_2)], 0);
    NodesTextConcat(done + [Comment(WARNING_1)] + [Comment(WARNING_2)], [Comment(WARNING_3)], 0);
    NodesTextConcat(done + [Comment(WARNING_1)] + [Comment(WARNING_2)] + [Comment(WARNING_3)], [auth], 0);
    assert done + [Comment(WARNING_1)] + [Comment(WARNING_2)] + [Comment(WARNING_3)] + [auth] == done + SentinelNodes();
  }

  /** Generate: the text of a config, whatever order the account map is iterated in. */
  method Generate(cfg: Config) returns (text: string)
    ensures text == ConfigBody(cfg)
  {
    hide NodesText, ConfigNodes, AccountNodes, AccountsNode, SentinelNodes, CountUsers, Quoted;
    var b := new Builder();
    b.WriteString(BANNER + "\n");
    CommentText(BANNER);
    ghost var done := [Comment(BANNER)];
    assert b.text == NodesText(done, 0);
    if cfg.systemAccount != "" {
      b.WriteString("system_account" + ": " + Quoted(cfg.systemAccount) + "\n");
      SystemAccountText(cfg.systemAccount);
      NodesTextConcat(done, [KeyValue("system_account", Quoted(cfg.systemAccount))], 0);
    } else {
      assert done + SystemNodes(cfg) == done;
    }
    done := done + SystemNodes(cfg);
    assert b.text == NodesText(done, 0);
    var users := TotalUsers(cfg.accounts);
    if users == 0 {
      b.WriteString(WARNING_1 + "\n");
      b.WriteString(WARNING_2 + "\n");
      b.WriteString(WARNING_3 + "\n");
      WriteSentinelAuthorization(b);
      SentinelWritten(NodesText(done, 0), done);
    } else {
      assert done + WarningNodes(cfg) == done;
    }
    done := done + WarningNodes(cfg);
    assert b.text == NodesText(done, 0);
    WriteAccounts(b, cfg);
    NodesTextConcat(done, [AccountsNode(cfg)], 0);
    ConfigParts(cfg);
    BodyIsNodesText(cfg);
    text := b.text;
  }
}
