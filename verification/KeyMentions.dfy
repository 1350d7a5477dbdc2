/**
 * Which printed values of a config hold the key mark of the permission display in cmd/nats-debug: nothing but
 * the system account's name, lists of subjects and TTLs can.
 */
module KeyMentions {
  import opened Text
  import opened Numbers
  import opened Quote
  import opened ConfigTree
  import opened NatsConfig
  import opened ConfigText
  import opened BlockScan
  import opened CalmTree
  import opened Mentions

  predicate RuleMentions(r: Option<PermissionRule>, m: string)
  {
    r.Some? && (Contains(QuotedList(r.value.allow), m) || Contains(QuotedList(r.value.deny), m))
  }

  predicate ResponseMentions(r: Option<ResponsePermission>, m: string)
  {
    r.Some? && r.value.enabled && r.value.ttl.Some? && Contains(Quoted(r.value.ttl.value), m)
  }

  /** A printed list of subjects or TTL of the user holds m. */
  predicate UserMentions(u: UserConfig, m: string)
  {
    u.permissions.Some?
    && (|| RuleMentions(u.permissions.value.publish, m) || RuleMentions(u.permissions.value.subscribe, m)
        || ResponseMentions(u.permissions.value.allowResponses, m))
  }

  lemma WordFacts(s: string)
    requires Word(s)
    ensures Braceless(s) && ' ' !in s && '[' !in s && ']' !in s
  {
    forall i | 0 <= i < |s| ensures s[i] != ' ' && s[i] != '{' && s[i] != '}' && s[i] != '[' && s[i] != ']' {
      assert WordChar(s[i]);
    }
  }

  // ---- fields ----

  /** A field name that cannot be the front of a key mark. */
  predicate PlainName(name: string)
  {
    && |name| >= 2 && ':' !in name && Braceless(name)
    && !(name[|name| - 2] == 'e' && name[|name| - 1] == 'y')
  }

  lemma DiffersAt(s: string, sub: string, p: nat, i: nat)
    requires i < |sub| && p + |sub| <= |s| && s[p + i] != sub[i]
    ensures !OccursAt(s, sub, p)
  {
    assert s[p..p + |sub|][i] == s[p + i];
  }

  /** In a field the mark can only stand in the value. */
  lemma MarkStandsInValue(name: string, v: string, p: nat)
    requires PlainName(name) && p < |name| + 2
    ensures !OccursAt(name + ": " + v, KEY_MARK, p)
  {
    var t, c := name + ": " + v, |name|;
    assert t[c] == ':' && t[c + 1] == ' ' && KEY_MARK == "nkey: ";
    if p + 6 <= |t| {
      if p >= c {
        DiffersAt(t, KEY_MARK, p, 0);
      } else if p + 4 > c {
        DiffersAt(t, KEY_MARK, p, c - p);
      } else if p + 4 < c {
        assert t[p + 4] == name[p + 4];
        DiffersAt(t, KEY_MARK, p, 4);
      } else {
        assert t[p + 2] == name[c - 2] && t[p + 3] == name[c - 1];
        DiffersAt(t, KEY_MARK, p, if name[c - 2] != 'e' then 2 else 3);
      }
    }
  }

  lemma PrefixOccurs(line: string, m: string)
    ensures m <= line ==> Contains(line, m)
  {
    if m <= line {
      assert OccursAt(line, m, 0);
    }
  }

  lemma OccursLess(s: string, sub: string, more: string, p: nat)
    requires OccursAt(s, sub + more, p)
    ensures OccursAt(s, sub, p)
  {
    assert s[p..p + |sub|] == (sub + more)[..|sub|];
  }

  /** A field mentions a key exactly when its value does. */
  lemma FieldSpeaks(name: string, v: string, nkey: string)
    requires PlainName(name)
    ensures Speaks(KeyValue(name, v), KEY_MARK + nkey) <==> Contains(v, KEY_MARK + nkey)
    ensures Foreign(KeyValue(name, v), KEY_MARK + nkey)
  {
    var t, m, front := name + ": " + v, KEY_MARK + nkey, name + ": ";
    assert m <= t ==> OccursAt(t, m, 0);
    forall p | 0 <= p <= |t| && OccursAt(t, m, p) ensures p >= |front| && OccursAt(v, m, p - |front|) {
      OccursLess(t, KEY_MARK, nkey, p);
      if p < |front| {
        MarkStandsInValue(name, v, p);
      }
      OccursShifted(front, v, m, p - |front|);
    }
    if p :| 0 <= p <= |v| && OccursAt(v, m, p) {
      OccursShifted(front, v, m, p);
      assert OccursAt(t, m, |front| + p);
    }
  }

  lemma {:induction false} FieldsSpeak(pairs: seq<(string, Option<string>)>, nkey: string)
    requires forall i :: 0 <= i < |pairs| ==> PlainName(pairs[i].0)
    ensures AnySpeaks(Fields(pairs), KEY_MARK + nkey)
            <==> exists i :: 0 <= i < |pairs| && pairs[i].1.Some? && Contains(pairs[i].1.value, KEY_MARK + nkey)
    ensures AllForeign(Fields(pairs), KEY_MARK + nkey)
  {
    hide PlainName, Contains, Speaks, Foreign;
    if pairs != [] {
      var front, last := pairs[..|pairs| - 1], pairs[|pairs| - 1];
      FieldsSpeak(front, nkey);
      if last.1.Some? {
        FieldSpeaks(last.0, last.1.value, nkey);
      }
      assert forall i :: 0 <= i < |front| ==> front[i] == pairs[i];
    }
  }

  lemma HeadSilent(head: string, b: Bracket, nkey: string)
    requires ':' !in head
    ensures !Contains(head + OpenText(b), KEY_MARK + nkey) && !(KEY_MARK + nkey <= head + OpenText(b))
  {
    var m, line := KEY_MARK + nkey, head + OpenText(b);
    assert m[4] == ':';
    LacksCharacter(line, m, ':');
    PrefixOccurs(line, m);
  }

  lemma BlockSpeaksInside(head: string, b: Bracket, kids: seq<Node>, m: string)
    requires !Contains(head + OpenText(b), m) && !(m <= head + OpenText(b))
    ensures Speaks(Block(head, b, kids), m) <==> AnySpeaks(kids, m)
    ensures AllForeign(kids, m) ==> Foreign(Block(head, b, kids), m)
  {
    hide Contains;
  }

  /** A block whose head has no colon mentions a key exactly when something inside does. */
  lemma NamedSpeaks(name: string, kids: seq<Node>, nkey: string)
    requires ':' !in name
    ensures Speaks(Named(name, kids), KEY_MARK + nkey) <==> AnySpeaks(kids, KEY_MARK + nkey)
    ensures AllForeign(kids, KEY_MARK + nkey) ==> Foreign(Named(name, kids), KEY_MARK + nkey)
  {
    HeadSilent(name + " ", Brace, nkey);
    BlockSpeaksInside(name + " ", Brace, kids, KEY_MARK + nkey);
  }

  lemma BracketsSpeak(v: string, nkey: string)
    requires Word(nkey)
    ensures Contains("[" + v + "]", KEY_MARK + nkey) <==> Contains(v, KEY_MARK + nkey)
  {
    var s, m := "[" + v + "]", KEY_MARK + nkey;
    WordFacts(nkey);
    assert s == "[" + (v + "]");
    forall p | 0 <= p <= |s| && OccursAt(s, m, p) ensures p > 0 && OccursAt(v, m, p - 1) {
      assert s[p..p + |m|][0] == s[p] && s[p..p + |m|][|m| - 1] == s[p + |m| - 1];
      assert m[|m| - 1] == nkey[|nkey| - 1];
      assert v[p - 1..p - 1 + |m|] == s[p..p + |m|];
    }
    if p :| 0 <= p <= |v| && OccursAt(v, m, p) {
      assert s[1 + p..1 + p + |m|] == v[p..p + |m|];
      assert OccursAt(s, m, 1 + p);
    }
  }

  lemma ListSpeaks(ss: seq<string>, nkey: string)
    requires Word(nkey)
    ensures ListField(ss).Some? && Contains(ListField(ss).value, KEY_MARK + nkey)
            <==> Contains(QuotedList(ss), KEY_MARK + nkey)
  {
    BracketsSpeak(QuotedList(ss), nkey);
    if ss == [] {
      assert QuotedList(ss) == "";
    }
    hide QuotedList;
  }

  lemma RuleSpeaks(name: string, rule: Option<PermissionRule>, nkey: string)
    requires ':' !in name && Word(nkey)
    ensures AnySpeaks(RuleNodes(name, rule), KEY_MARK + nkey) <==> RuleMentions(rule, KEY_MARK + nkey)
    ensures AllForeign(RuleNodes(name, rule), KEY_MARK + nkey)
  {
    if rule.Some? {
      var pairs := RuleFields(rule.value);
      assert PlainName("allow") && PlainName("deny");
      ListSpeaks(rule.value.allow, nkey);
      ListSpeaks(rule.value.deny, nkey);
      hide ListField, QuotedList, PlainName, Fields, Contains, Speaks, Foreign;
      FieldsSpeak(pairs, nkey);
      NamedSpeaks(name, Fields(pairs), nkey);
      assert pairs[0].1 == ListField(rule.value.allow) && pairs[1].1 == ListField(rule.value.deny);
    }
  }

  lemma WordSilent(v: string, nkey: string)
    requires Word(v)
    ensures !Contains(v, KEY_MARK + nkey)
  {
    WordFacts(v);
    assert (KEY_MARK + nkey)[5] == ' ';
    LacksCharacter(v, KEY_MARK + nkey, ' ');
  }

  ghost predicate WordField(o: Option<string>)
  {
    o.Some? ==> Word(o.value)
  }

  lemma IntWord(o: Option<int>)
    ensures WordField(IntField(o))
  {
    if o.Some? {
      IntTextShape(o.value);
      forall i | 0 <= i < |IntText(o.value)| ensures WordChar(IntText(o.value)[i]) {
        assert IntText(o.value)[i] in IntText(o.value);
      }
    }
  }

  lemma BoolWord(o: Option<bool>)
    ensures WordField(BoolField(o))
  {}

  lemma ResponseSpeaks(resp: Option<ResponsePermission>, nkey: string)
    ensures AnySpeaks(ResponseNodes(resp), KEY_MARK + nkey) <==> ResponseMentions(resp, KEY_MARK + nkey)
    ensures AllForeign(ResponseNodes(resp), KEY_MARK + nkey)
  {
    if resp.Some? {
      var r := resp.value;
      var pairs := ResponseFields(r);
      assert PlainName("max") && PlainName("ttl") && PlainName("allow_responses");
      BoolWord(Some(true));
      WordSilent("true", nkey);
      IntWord(r.maxMsgs);
      hide PlainName, Fields, Quoted, Contains, Speaks, Foreign, IntField;
      if IntField(r.maxMsgs).Some? {
        WordSilent(IntField(r.maxMsgs).value, nkey);
      }
      FieldSpeaks("allow_responses", "true", nkey);
      FieldsSpeak(pairs, nkey);
      NamedSpeaks("allow_responses", Fields(pairs), nkey);
      assert pairs[0].1 == IntField(r.maxMsgs) && pairs[1].1 == QuotedField(r.ttl);
    }
  }

  // ---- users ----

  function PermissionBlock(u: UserConfig): seq<Node>
  {
    match u.permissions
    case None => []
    case Some(p) => [Named("permissions", PermissionNodes(p))]
  }

  lemma PermissionsSpeak(u: UserConfig, nkey: string)
    requires Word(nkey)
    ensures AnySpeaks(PermissionBlock(u), KEY_MARK + nkey) <==> UserMentions(u, KEY_MARK + nkey)
    ensures AllForeign(PermissionBlock(u), KEY_MARK + nkey)
  {
    hide RuleNodes, ResponseNodes, RuleMentions, ResponseMentions, Speaks, Foreign;
    if u.permissions.Some? {
      var p := u.permissions.value;
      RuleSpeaks("publish", p.publish, nkey);
      RuleSpeaks("subscribe", p.subscribe, nkey);
      ResponseSpeaks(p.allowResponses, nkey);
      NamedSpeaks("permissions", PermissionNodes(p), nkey);
    }
  }

  /** Keys of one length: a key field mentions its own key only. */
  lemma KeySpeaks(key: string, nkey: string)
    requires |key| == |nkey|
    ensures Speaks(KeyValue("nkey", key), KEY_MARK + nkey) <==> key == nkey
    ensures key != nkey ==> Foreign(KeyValue("nkey", key), KEY_MARK + nkey)
  {
    var t, m := "nkey" + ": " + key, KEY_MARK + nkey;
    assert t == KEY_MARK + key;
    if key == nkey {
      assert OccursAt(t, m, 0);
    }
    if OccursAt(t, m, 0) {
      assert t[6..] == key && m[6..] == nkey;
    }
    forall p | 0 < p <= |t| ensures !OccursAt(t, m, p) {}
    if m <= t {
      assert OccursAt(t, m, 0);
    }
  }

  lemma UserSpeaks(u: UserConfig, nkey: string)
    requires Word(nkey) && |u.nkey| == |nkey|
    ensures Speaks(UserNode(u), KEY_MARK + nkey) <==> u.nkey == nkey || UserMentions(u, KEY_MARK + nkey)
    ensures u.nkey != nkey ==> Foreign(UserNode(u), KEY_MARK + nkey)
  {
    assert UserNodes(u) == [KeyValue("nkey", u.nkey)] + PermissionBlock(u);
    hide Speaks, Foreign, PermissionBlock, UserMentions, UserNodes;
    KeySpeaks(u.nkey, nkey);
    PermissionsSpeak(u, nkey);
    HeadSilent("", Brace, nkey);
    BlockSpeaksInside("", Brace, UserNodes(u), KEY_MARK + nkey);
  }

  // ---- accounts ----

  function QuotaNodes(a: AccountConfig): seq<Node>
  {
    (match a.jetStream {
       case None => []
       case Some(js) => [Named("jetstream", Fields(JetStreamFields(js)))]
     })
    + match a.limits {
        case None => []
        case Some(l) => [Named("limits", Fields(LimitsFields(l)))]
      }
  }

  lemma SizeWord(s: string)
    requires LegalSize(s)
    ensures WordField(NonEmpty(s))
  {}

  lemma MaxNames()
    ensures PlainName("max_mem") && PlainName("max_file") && PlainName("max_streams")
  {}

  lemma MoreMaxNames()
    ensures PlainName("max_consumers") && PlainName("max_ack_pending")
  {}

  lemma BytesNames()
    ensures PlainName("max_bytes_required")
  {}

  lemma MemoryName()
    ensures PlainName("memory_max_stream_bytes")
  {}

  lemma DiskName()
    ensures PlainName("disk_max_stream_bytes")
  {}

  lemma JetStreamNames(js: JetStreamConfig)
    ensures forall i :: 0 <= i < |JetStreamFields(js)| ==> PlainName(JetStreamFields(js)[i].0)
  {
    hide PlainName, NonEmpty, IntField, BoolField;
    MaxNames();
    MoreMaxNames();
    BytesNames();
    MemoryName();
    DiskName();
  }

  lemma WordsAreSilent(pairs: seq<(string, Option<string>)>, nkey: string)
    requires forall i :: 0 <= i < |pairs| ==> PlainName(pairs[i].0) && WordField(pairs[i].1)
    ensures !AnySpeaks(Fields(pairs), KEY_MARK + nkey) && AllForeign(Fields(pairs), KEY_MARK + nkey)
  {
    hide PlainName, Contains, AnySpeaks, AllForeign, Word;
    FieldsSpeak(pairs, nkey);
    forall i | 0 <= i < |pairs| && pairs[i].1.Some? ensures !Contains(pairs[i].1.value, KEY_MARK + nkey) {
      WordSilent(pairs[i].1.value, nkey);
    }
  }

  lemma JetStreamSilent(js: JetStreamConfig, nkey: string)
    requires LegalSize(js.maxMemory) && LegalSize(js.maxFile)
    requires LegalSize(js.memoryMaxStreamBytes) && LegalSize(js.diskMaxStreamBytes)
    ensures var kids := Fields(JetStreamFields(js));
            !AnySpeaks(kids, KEY_MARK + nkey) && AllForeign(kids, KEY_MARK + nkey)
  {
    hide IntField, NonEmpty, BoolField, PlainName, WordField, LegalSize, AnySpeaks, AllForeign, Fields;
    SizeWord(js.maxMemory);
    SizeWord(js.maxFile);
    SizeWord(js.memoryMaxStreamBytes);
    SizeWord(js.diskMaxStreamBytes);
    IntWord(js.maxStreams);
    IntWord(js.maxConsumers);
    IntWord(js.maxAckPending);
    BoolWord(js.maxBytesRequired);
    JetStreamNames(js);
    WordsAreSilent(JetStreamFields(js), nkey);
  }

  lemma LimitsSilent(l: LimitsConfig, nkey: string)
    requires LegalSize(l.maxPayload)
    ensures var kids := Fields(LimitsFields(l));
            !AnySpeaks(kids, KEY_MARK + nkey) && AllForeign(kids, KEY_MARK + nkey)
  {
    assert PlainName("max_connections") && PlainName("max_subscriptions");
    assert PlainName("max_payload") && PlainName("max_leafnodes");
    hide IntField, NonEmpty, PlainName, WordField, LegalSize, AnySpeaks, AllForeign, Fields;
    IntWord(l.maxConnections);
    IntWord(l.maxSubscriptions);
    SizeWord(l.maxPayload);
    IntWord(l.maxLeafnodes);
    WordsAreSilent(LimitsFields(l), nkey);
  }

  lemma QuotasSilent(a: AccountConfig, nkey: string)
    requires LegalAccount(a)
    ensures !AnySpeaks(QuotaNodes(a), KEY_MARK + nkey) && AllForeign(QuotaNodes(a), KEY_MARK + nkey)
    ensures AccountNodes(a) == QuotaNodes(a) + if a.users == [] then [] else [UsersNode(a.users)]
  {
    hide Speaks, Foreign, LegalSize, Word, Fields, JetStreamFields, LimitsFields;
    if a.jetStream.Some? {
      JetStreamSilent(a.jetStream.value, nkey);
      NamedSpeaks("jetstream", Fields(JetStreamFields(a.jetStream.value)), nkey);
    }
    if a.limits.Some? {
      LimitsSilent(a.limits.value, nkey);
      NamedSpeaks("limits", Fields(LimitsFields(a.limits.value)), nkey);
    }
  }

  ghost predicate UserNames(u: UserConfig, nkey: string)
  {
    u.nkey == nkey || UserMentions(u, KEY_MARK + nkey)
  }

  lemma {:induction false} UsersSpeak(users: seq<UserConfig>, nkey: string)
    requires Word(nkey) && forall u <- users :: |u.nkey| == |nkey|
    ensures AnySpeaks(UserBlocks(users), KEY_MARK + nkey) <==> exists u <- users :: UserNames(u, nkey)
    ensures (forall u <- users :: u.nkey != nkey) ==> AllForeign(UserBlocks(users), KEY_MARK + nkey)
  {
    hide Speaks, Foreign, UserNode, UserMentions;
    if users != [] {
      assert users == [users[0]] + users[1..] && users[0] in users;
      UserSpeaks(users[0], nkey);
      UsersSpeak(users[1..], nkey);
    }
  }

  /** A name is a word; the only blank in the line that opens its block is in front of the brace. */
  lemma AccountHeadSilent(n: string, nkey: string)
    requires Word(n) && Word(nkey)
    ensures !Contains(n + " " + "{", KEY_MARK + nkey) && !(KEY_MARK + nkey <= n + " " + "{")
  {
    var line, m := n + " " + "{", KEY_MARK + nkey;
    WordFacts(n);
    WordFacts(nkey);
    PrefixOccurs(line, m);
    assert m[5] == ' ' && m[6] == nkey[0] && nkey[0] in nkey;
    forall p | 0 <= p <= |line| ensures !OccursAt(line, m, p) {
      if p + |m| <= |line| {
        if p + 5 < |n| {
          assert line[p + 5] == n[p + 5] && n[p + 5] in n;
          DiffersAt(line, m, p, 5);
        } else if p + 5 == |n| {
          DiffersAt(line, m, p, 6);
        }
      }
    }
  }

  lemma AccountSpeaks(n: string, a: AccountConfig, nkey: string)
    requires Word(n) && Word(nkey) && LegalAccount(a) && forall u <- a.users :: |u.nkey| == |nkey|
    ensures Speaks(Named(n, AccountNodes(a)), KEY_MARK + nkey) <==> exists u <- a.users :: UserNames(u, nkey)
    ensures (forall u <- a.users :: u.nkey != nkey) ==> Foreign(Named(n, AccountNodes(a)), KEY_MARK + nkey)
  {
    hide Speaks, Foreign, UserNames, QuotaNodes, AccountNodes, UserBlocks, Word, LegalAccount;
    QuotasSilent(a, nkey);
    UsersSpeak(a.users, nkey);
    HeadSilent("users = ", Square, nkey);
    BlockSpeaksInside("users = ", Square, UserBlocks(a.users), KEY_MARK + nkey);
    AccountHeadSilent(n, nkey);
    BlockSpeaksInside(n + " ", Brace, AccountNodes(a), KEY_MARK + nkey);
  }
}
