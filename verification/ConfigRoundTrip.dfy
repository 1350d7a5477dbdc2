/** Decoding the printed tree gives the config back, up to its normal form. */
module ConfigRoundTrip {
  import opened Text
  import opened Numbers
  import opened Quote
  import opened Sorting
  import opened ConfigTree
  import opened NatsConfig

  // ---- looking up fields and blocks ----

  lemma PrefixIsKey(key: string, k: string, v: string)
    requires ':' !in key && ':' !in k
    ensures key + ": " <= k + ": " + v <==> key == k
  {
    var text := k + ": " + v;
    if key + ": " <= text {
      var rest := text[|key| + 1..];
      assert text == key + [':'] + rest && text == k + [':'] + (" " + v);
      IndexOfFirst(key, ':', rest);
      IndexOfFirst(k, ':', " " + v);
      assert key == text[..|key|] && k == text[..|k|];
    }
  }

  lemma {:induction false} FieldValueConcat(a: seq<Node>, b: seq<Node>, key: string)
    ensures FieldValue(a + b, key) == match FieldValue(a, key) {
                                        case Some(v) => Some(v)
                                        case None => FieldValue(b, key)
                                      }
  {
    if a == [] {
      assert a + b == b;
    } else {
      assert (a + b)[1..] == a[1..] + b;
      FieldValueConcat(a[1..], b, key);
    }
  }

  lemma FieldValueOne(k: string, v: string, key: string)
    requires ':' !in key && ':' !in k
    ensures FieldValue([KeyValue(k, v)], key) == if key == k then Some(v) else None
  {
    PrefixIsKey(key, k, v);
    assert [KeyValue(k, v)][1..] == [];
    assert (k + ": " + v)[|k| + 2..] == v;
  }

  ghost predicate LegalKeys(pairs: seq<(string, Option<string>)>)
  {
    && (forall i :: 0 <= i < |pairs| ==> ':' !in pairs[i].0)
    && (forall i, j :: 0 <= i < j < |pairs| ==> pairs[i].0 != pairs[j].0)
  }

  lemma {:induction false} FieldAbsent(pairs: seq<(string, Option<string>)>, key: string)
    requires ':' !in key && forall i :: 0 <= i < |pairs| ==> ':' !in pairs[i].0 && pairs[i].0 != key
    ensures FieldValue(Fields(pairs), key) == None
  {
    if pairs != [] {
      var front, last := pairs[..|pairs| - 1], pairs[|pairs| - 1];
      FieldAbsent(front, key);
      if last.1.Some? {
        FieldValueConcat(Fields(front), [KeyValue(last.0, last.1.value)], key);
        FieldValueOne(last.0, last.1.value, key);
      }
    }
  }

  /** Every printed field is found under its own key. */
  lemma {:induction false} FieldFound(pairs: seq<(string, Option<string>)>, i: nat)
    requires LegalKeys(pairs) && i < |pairs|
    ensures FieldValue(Fields(pairs), pairs[i].0) == pairs[i].1
    decreases |pairs|
  {
    var front, last := pairs[..|pairs| - 1], pairs[|pairs| - 1];
    if i < |front| {
      FieldFound(front, i);
    } else {
      FieldAbsent(front, last.0);
    }
    if last.1.Some? {
      FieldValueConcat(Fields(front), [KeyValue(last.0, last.1.value)], pairs[i].0);
      FieldValueOne(last.0, last.1.value, pairs[i].0);
    }
  }

  lemma {:induction false} BlockKidsConcat(a: seq<Node>, b: seq<Node>, head: string)
    ensures BlockKids(a + b, head) == match BlockKids(a, head) {
                                        case Some(kids) => Some(kids)
                                        case None => BlockKids(b, head)
                                      }
  {
    if a == [] {
      assert a + b == b;
    } else {
      assert (a + b)[1..] == a[1..] + b;
      BlockKidsConcat(a[1..], b, head);
    }
  }

  lemma BlockKidsOne(n: Node, head: string)
    ensures BlockKids([n], head) == if n.Block? && n.head == head then Some(n.kids) else None
  {
    assert [n][1..] == [];
  }

  lemma FieldValueOther(n: Node, key: string)
    requires !n.Field?
    ensures FieldValue([n], key) == None
  {
    assert [n][1..] == [];
  }

  // ---- values ----

  lemma IntBack(ns: seq<Node>, key: string, o: Option<int>)
    requires FieldValue(ns, key) == IntField(o)
    ensures IntAt(ns, key) == o
  {
    if o.Some? {
      ReadIntText(o.value);
    }
  }

  lemma QuotedBack(ns: seq<Node>, key: string, o: Option<string>)
    requires FieldValue(ns, key) == QuotedField(o)
    ensures QuotedAt(ns, key) == o
  {
    if o.Some? {
      UnquoteQuoted(o.value);
    }
  }

  lemma ListBack(ns: seq<Node>, key: string, ss: seq<string>)
    requires FieldValue(ns, key) == ListField(ss)
    ensures ListAt(ns, key) == ss
  {
    if ss != [] {
      ReadListBack(ss, "]");
      var text := "[" + QuotedList(ss) + "]";
      assert text[1..] == QuotedList(ss) + "]";
    }
  }

  // ---- blocks ----

  lemma JetStreamKeysLegal(js: JetStreamConfig)
    ensures LegalKeys(JetStreamFields(js))
  {}

  lemma JetStreamSizesBack(js: JetStreamConfig)
    ensures var ns := Fields(JetStreamFields(js));
            && StringAt(ns, "max_mem") == js.maxMemory && StringAt(ns, "max_file") == js.maxFile
            && StringAt(ns, "memory_max_stream_bytes") == js.memoryMaxStreamBytes
            && StringAt(ns, "disk_max_stream_bytes") == js.diskMaxStreamBytes
  {
    var pairs := JetStreamFields(js);
    JetStreamKeysLegal(js);
    hide Fields, FieldValue, IntText, LegalKeys;
    FieldFound(pairs, 0);
    FieldFound(pairs, 1);
    FieldFound(pairs, 5);
    FieldFound(pairs, 6);
  }

  lemma JetStreamNumbersBack(js: JetStreamConfig)
    ensures var ns := Fields(JetStreamFields(js));
            && IntAt(ns, "max_streams") == js.maxStreams && IntAt(ns, "max_consumers") == js.maxConsumers
            && BoolAt(ns, "max_bytes_required") == js.maxBytesRequired
            && IntAt(ns, "max_ack_pending") == js.maxAckPending
  {
    var pairs := JetStreamFields(js);
    JetStreamKeysLegal(js);
    hide Fields, FieldValue, ReadInt, IntText, LegalKeys;
    FieldFound(pairs, 2);
    FieldFound(pairs, 3);
    FieldFound(pairs, 4);
    FieldFound(pairs, 7);
    IntBack(Fields(pairs), "max_streams", js.maxStreams);
    IntBack(Fields(pairs), "max_consumers", js.maxConsumers);
    IntBack(Fields(pairs), "max_ack_pending", js.maxAckPending);
  }

  lemma JetStreamBack(js: JetStreamConfig)
    ensures DecodeJetStream(Fields(JetStreamFields(js))) == js
  {
    JetStreamSizesBack(js);
    JetStreamNumbersBack(js);
    hide JetStreamFields, Fields, StringAt, IntAt, BoolAt;
  }

  lemma LimitsBack(l: LimitsConfig)
    ensures DecodeLimits(Fields(LimitsFields(l))) == l
  {
    var pairs := LimitsFields(l);
    var ns := Fields(pairs);
    assert LegalKeys(pairs);
    hide Fields, FieldValue, ReadInt, IntText;
    FieldFound(pairs, 0);
    FieldFound(pairs, 1);
    FieldFound(pairs, 2);
    FieldFound(pairs, 3);
    IntBack(ns, "max_connections", l.maxConnections);
    IntBack(ns, "max_subscriptions", l.maxSubscriptions);
    IntBack(ns, "max_leafnodes", l.maxLeafnodes);
  }

  lemma RuleBack(r: PermissionRule)
    ensures DecodeRule(Some(Fields(RuleFields(r)))) == Some(r)
  {
    var pairs := RuleFields(r);
    assert LegalKeys(pairs);
    FieldFound(pairs, 0);
    FieldFound(pairs, 1);
    ListBack(Fields(pairs), "allow", r.allow);
    ListBack(Fields(pairs), "deny", r.deny);
  }

  lemma ResponseFieldsBack(r: ResponsePermission)
    ensures IntAt(Fields(ResponseFields(r)), "max") == r.maxMsgs
    ensures QuotedAt(Fields(ResponseFields(r)), "ttl") == r.ttl
  {
    var pairs := ResponseFields(r);
    assert "max"[0] != "ttl"[0];
    assert LegalKeys(pairs);
    FieldFound(pairs, 0);
    FieldFound(pairs, 1);
    IntBack(Fields(pairs), "max", r.maxMsgs);
    QuotedBack(Fields(pairs), "ttl", r.ttl);
  }

  lemma ResponsesBack(resp: Option<ResponsePermission>)
    ensures DecodeResponses(ResponseNodes(resp)) == NormalResponses(resp)
  {
    if resp.Some? && resp.value.enabled {
      var r := resp.value;
      if r.maxMsgs.None? && r.ttl.None? {
        BlockKidsOne(KeyValue("allow_responses", "true"), "allow_responses ");
        FieldValueOne("allow_responses", "true", "allow_responses");
      } else {
        ResponseFieldsBack(r);
        BlockKidsOne(Named("allow_responses", Fields(ResponseFields(r))), "allow_responses ");
      }
    }
  }

  lemma RuleNodesLookup(name: string, rule: Option<PermissionRule>, head: string, key: string)
    ensures BlockKids(RuleNodes(name, rule), head)
            == if rule.Some? && name + " " == head then Some(Fields(RuleFields(rule.value))) else None
    ensures FieldValue(RuleNodes(name, rule), key) == None
  {
    if rule.Some? {
      var n := Named(name, Fields(RuleFields(rule.value)));
      BlockKidsOne(n, head);
      FieldValueOther(n, key);
    }
  }

  lemma ResponseNodesLookup(resp: Option<ResponsePermission>, head: string)
    requires |head| < 16
    ensures BlockKids(ResponseNodes(resp), head) == None
  {
    if ResponseNodes(resp) != [] {
      BlockKidsOne(ResponseNodes(resp)[0], head);
      assert ResponseNodes(resp) == [ResponseNodes(resp)[0]];
    }
  }

  lemma PermissionsBlocks(p: Permissions, head: string)
    ensures BlockKids(PermissionNodes(p), head)
            == if p.publish.Some? && head == "publish " then Some(Fields(RuleFields(p.publish.value)))
               else if p.subscribe.Some? && head == "subscribe " then Some(Fields(RuleFields(p.subscribe.value)))
               else BlockKids(ResponseNodes(p.allowResponses), head)
  {
    var pub, sub, resp :=
      RuleNodes("publish", p.publish), RuleNodes("subscribe", p.subscribe), ResponseNodes(p.allowResponses);
    RuleNodesLookup("publish", p.publish, head, "");
    RuleNodesLookup("subscribe", p.subscribe, head, "");
    hide BlockKids, RuleNodes, ResponseNodes;
    BlockKidsConcat(pub + sub, resp, head);
    BlockKidsConcat(pub, sub, head);
    assert "publish" + " " == "publish " && "subscribe" + " " == "subscribe ";
  }

  lemma PermissionsResponses(p: Permissions)
    ensures DecodeResponses(PermissionNodes(p)) == DecodeResponses(ResponseNodes(p.allowResponses))
  {
    var pub, sub, resp :=
      RuleNodes("publish", p.publish), RuleNodes("subscribe", p.subscribe), ResponseNodes(p.allowResponses);
    PermissionsBlocks(p, "allow_responses ");
    RuleNodesLookup("publish", p.publish, "", "allow_responses");
    RuleNodesLookup("subscribe", p.subscribe, "", "allow_responses");
    hide BlockKids, FieldValue, RuleNodes, ResponseNodes;
    FieldValueConcat(pub + sub, resp, "allow_responses");
    FieldValueConcat(pub, sub, "allow_responses");
  }

  lemma PermissionsBack(p: Permissions)
    ensures DecodePermissions(Some(PermissionNodes(p)))
            == Some(p.(allowResponses := NormalResponses(p.allowResponses)))
  {
    PermissionsBlocks(p, "publish ");
    PermissionsBlocks(p, "subscribe ");
    ResponseNodesLookup(p.allowResponses, "publish ");
    ResponseNodesLookup(p.allowResponses, "subscribe ");
    PermissionsResponses(p);
    ResponsesBack(p.allowResponses);
    if p.publish.Some? {
      RuleBack(p.publish.value);
    }
    if p.subscribe.Some? {
      RuleBack(p.subscribe.value);
    }
    hide PermissionNodes, ResponseNodes, Fields, BlockKids, DecodeResponses, ListAt;
  }

  lemma UserBack(u: UserConfig)
    ensures DecodeUser(UserNodes(u)) == NormalUser(u)
  {
    var key := KeyValue("nkey", u.nkey);
    var tail := UserNodes(u)[1..];
    assert UserNodes(u) == [key] + tail;
    FieldValueConcat([key], tail, "nkey");
    FieldValueOne("nkey", u.nkey, "nkey");
    BlockKidsConcat([key], tail, "permissions ");
    BlockKidsOne(key, "permissions ");
    if u.permissions.Some? {
      var block := Named("permissions", PermissionNodes(u.permissions.value));
      assert tail == [block];
      BlockKidsOne(block, "permissions ");
      PermissionsBack(u.permissions.value);
    }
  }

  lemma {:induction false} UsersBack(users: seq<UserConfig>)
    ensures DecodeUsers(UserBlocks(users)) == NormalUsers(users)
  {
    if users != [] {
      UserBack(users[0]);
      UsersBack(users[1..]);
      assert UserBlocks(users)[1..] == UserBlocks(users[1..]);
      assert NormalUsers(users) == [NormalUser(users[0])] + NormalUsers(users[1..]);
    }
  }

  lemma AccountBlocksLookup(a: AccountConfig, head: string)
    ensures BlockKids(AccountNodes(a), head)
            == if a.jetStream.Some? && head == "jetstream " then Some(Fields(JetStreamFields(a.jetStream.value)))
               else if a.limits.Some? && head == "limits " then Some(Fields(LimitsFields(a.limits.value)))
               else if a.users != [] && head == "users = " then Some(UserBlocks(a.users))
               else None
  {
    var js: seq<Node> := if a.jetStream.None? then [] else
      [Named("jetstream", Fields(JetStreamFields(a.jetStream.value)))];
    var lim: seq<Node> := if a.limits.None? then [] else [Named("limits", Fields(LimitsFields(a.limits.value)))];
    var us: seq<Node> := if a.users == [] then [] else [UsersNode(a.users)];
    assert AccountNodes(a) == js + lim + us;
    if js != [] { BlockKidsOne(js[0], head); assert js == [js[0]]; }
    if lim != [] { BlockKidsOne(lim[0], head); assert lim == [lim[0]]; }
    if us != [] { BlockKidsOne(us[0], head); assert us == [us[0]]; }
    assert "jetstream" + " " == "jetstream " && "limits" + " " == "limits ";
    hide AccountNodes, Fields, UserBlocks;
    BlockKidsConcat(js + lim, us, head);
    BlockKidsConcat(js, lim, head);
  }

  lemma AccountBack(a: AccountConfig)
    ensures DecodeAccount(AccountNodes(a)) == NormalAccount(a)
  {
    AccountBlocksLookup(a, "jetstream ");
    AccountBlocksLookup(a, "limits ");
    AccountBlocksLookup(a, "users = ");
    if a.jetStream.Some? {
      JetStreamBack(a.jetStream.value);
    }
    if a.limits.Some? {
      LimitsBack(a.limits.value);
    }
    UsersBack(a.users);
    hide AccountNodes, Fields, UserBlocks, DecodeUsers, DecodeJetStream, DecodeLimits, BlockKids;
  }

  lemma {:induction false} AccountsBack(names: seq<string>, accounts: map<string, AccountConfig>)
    requires forall n <- names :: n in accounts
    ensures DecodeAccounts(AccountBlocks(names, accounts))
            == map n | n in names :: NormalAccount(accounts[n])
  {
    if names != [] {
      var name := names[0];
      AccountBack(accounts[name]);
      AccountsBack(names[1..], accounts);
      var ns := AccountBlocks(names, accounts);
      hide DecodeAccount, AccountNodes, NormalAccount;
      assert ns[1..] == AccountBlocks(names[1..], accounts);
      assert (name + " ")[..|name + " "| - 1] == name;
      assert forall n :: n in names <==> n == name || n in names[1..];
    }
  }
}
