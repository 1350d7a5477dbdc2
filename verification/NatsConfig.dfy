/**
 * internal/natsconfig/types.go, the config tree that Generate prints for a config, and a decoder
 * for that tree. The decoder looks fields and blocks up by name; it does not know the print order.
 */
module NatsConfig {
  import opened Text
  import opened Numbers
  import opened Quote
  import opened Sorting
  import opened ConfigTree

  datatype JetStreamConfig = JetStreamConfig(
    maxMemory: string, maxFile: string, maxStreams: Option<int>, maxConsumers: Option<int>,
    maxBytesRequired: Option<bool>, memoryMaxStreamBytes: string, diskMaxStreamBytes: string,
    maxAckPending: Option<int>)

  datatype LimitsConfig = LimitsConfig(
    maxConnections: Option<int>, maxSubscriptions: Option<int>, maxPayload: string, maxLeafnodes: Option<int>)

  datatype PermissionRule = PermissionRule(allow: seq<string>, deny: seq<string>)

  datatype ResponsePermission = ResponsePermission(enabled: bool, maxMsgs: Option<int>, ttl: Option<string>)

  datatype Permissions = Permissions(
    publish: Option<PermissionRule>, subscribe: Option<PermissionRule>, allowResponses: Option<ResponsePermission>)

  datatype UserConfig = UserConfig(nkey: string, permissions: Option<Permissions>)

  datatype AccountConfig = AccountConfig(
    jetStream: Option<JetStreamConfig>, limits: Option<LimitsConfig>, users: seq<UserConfig>)

  datatype Config = Config(
    systemAccount: string, systemAccountConflicts: seq<string>, accounts: map<string, AccountConfig>)

  // ---- encoding ----

  function KeyValue(key: string, value: string): Node
  {
    Field(key + ": " + value)
  }

  function Named(name: string, kids: seq<Node>): Node
  {
    Block(name + " ", Brace, kids)
  }

  /** One field per key that has a value, in list order. */
  function Fields(pairs: seq<(string, Option<string>)>): seq<Node>
  {
    if pairs == [] then [] else
      match pairs[|pairs| - 1].1
      case None => Fields(pairs[..|pairs| - 1])
      case Some(v) => Fields(pairs[..|pairs| - 1]) + [KeyValue(pairs[|pairs| - 1].0, v)]
  }

  function NonEmpty(s: string): Option<string>
  {
    if s == "" then None else Some(s)
  }

  function IntField(o: Option<int>): Option<string>
  {
    match o
    case None => None
    case Some(n) => Some(IntText(n))
  }

  function BoolField(o: Option<bool>): Option<string>
  {
    match o
    case None => None
    case Some(b) => Some(if b then "true" else "false")
  }

  function QuotedField(o: Option<string>): Option<string>
  {
    match o
    case None => None
    case Some(s) => Some(Quoted(s))
  }

  function ListField(ss: seq<string>): Option<string>
  {
    if ss == [] then None else Some("[" + QuotedList(ss) + "]")
  }

  function JetStreamFields(js: JetStreamConfig): seq<(string, Option<string>)>
  {
    [("max_mem", NonEmpty(js.maxMemory)),
     ("max_file", NonEmpty(js.maxFile)),
     ("max_streams", IntField(js.maxStreams)),
     ("max_consumers", IntField(js.maxConsumers)),
     ("max_bytes_required", BoolField(js.maxBytesRequired)),
     ("memory_max_stream_bytes", NonEmpty(js.memoryMaxStreamBytes)),
     ("disk_max_stream_bytes", NonEmpty(js.diskMaxStreamBytes)),
     ("max_ack_pending", IntField(js.maxAckPending))]
  }

  function LimitsFields(l: LimitsConfig): seq<(string, Option<string>)>
  {
    [("max_connections", IntField(l.maxConnections)),
     ("max_subscriptions", IntField(l.maxSubscriptions)),
     ("max_payload", NonEmpty(l.maxPayload)),
     ("max_leafnodes", IntField(l.maxLeafnodes))]
  }

  function RuleFields(r: PermissionRule): seq<(string, Option<string>)>
  {
    [("allow", ListField(r.allow)), ("deny", ListField(r.deny))]
  }

  function ResponseFields(r: ResponsePermission): seq<(string, Option<string>)>
  {
    [("max", IntField(r.maxMsgs)), ("ttl", QuotedField(r.ttl))]
  }

  function RuleNodes(name: string, rule: Option<PermissionRule>): seq<Node>
  {
    match rule
    case None => []
    case Some(r) => [Named(name, Fields(RuleFields(r)))]
  }

  function ResponseNodes(resp: Option<ResponsePermission>): seq<Node>
  {
    match resp
    case None => []
    case Some(r) =>
      if !r.enabled then []
      else if r.maxMsgs.None? && r.ttl.None? then [KeyValue("allow_responses", "true")]
      else [Named("allow_responses", Fields(ResponseFields(r)))]
  }

  function PermissionNodes(p: Permissions): seq<Node>
  {
    RuleNodes("publish", p.publish) + RuleNodes("subscribe", p.subscribe) + ResponseNodes(p.allowResponses)
  }

  function UserNodes(u: UserConfig): seq<Node>
  {
    [KeyValue("nkey", u.nkey)]
    + match u.permissions {
        case None => []
        case Some(p) => [Named("permissions", PermissionNodes(p))]
      }
  }

  function UserNode(u: UserConfig): Node
  {
    Block("", Brace, UserNodes(u))
  }

  function UserBlocks(users: seq<UserConfig>): seq<Node>
  {
    if users == [] then [] else [UserNode(users[0])] + UserBlocks(users[1..])
  }

  function UsersNode(users: seq<UserConfig>): Node
  {
    Block("users = ", Square, UserBlocks(users))
  }

  function AccountNodes(a: AccountConfig): seq<Node>
  {
    (match a.jetStream {
       case None => []
       case Some(js) => [Named("jetstream", Fields(JetStreamFields(js)))]
     })
    + (match a.limits {
         case None => []
         case Some(l) => [Named("limits", Fields(LimitsFields(l)))]
       })
    + (if a.users == [] then [] else [UsersNode(a.users)])
  }

  ghost function AccountBlocks(names: seq<string>, accounts: map<string, AccountConfig>): seq<Node>
    requires forall n <- names :: n in accounts
  {
    if names == [] then [] else
      [Named(names[0], AccountNodes(accounts[names[0]]))] + AccountBlocks(names[1..], accounts)
  }

  const SENTINEL_NKEY :=
    "UCIDQZZK" + "ASESVE5O" + "OIFA3HJA" + "QNSHYMUO" + "SFPKY4FT" + "DKMWNVIO" + "4JW4Q5Q6"

  const SENTINEL_USER :=
    UserConfig(SENTINEL_NKEY,
               Some(Permissions(Some(PermissionRule([], [">"])), Some(PermissionRule([], [">"])), None)))

  const BANNER := BANNER_A + BANNER_B
  const BANNER_A := "# Auto-generated by "
  const BANNER_B := "nats-operator - DO NOT EDIT"
  const WARNING_1 := WARNING_1_A + WARNING_1_B
  const WARNING_1_A := "# WARNING: no NatsUser resources "
  const WARNING_1_B := "defined. Emitting deny-all sentinel"
  const WARNING_2 := WARNING_2_A + WARNING_2_B
  const WARNING_2_A := "# user (implicitly in $G) to force "
  const WARNING_2_B := "NATS to require authentication."
  const WARNING_3 := WARNING_3_A + WARNING_3_B
  const WARNING_3_A := "# Provision NatsUser resources "
  const WARNING_3_B := "to enable real client access."

  /** Users over the named accounts. */
  ghost function CountUsers(names: set<string>, accounts: map<string, AccountConfig>): nat
    requires names <= accounts.Keys
  {
    if names == {} then 0 else
      var n :| n in names;
      |accounts[n].users| + CountUsers(names - {n}, accounts)
  }

  /** Counting in any order gives the same number. */
  lemma {:induction false} CountUsersRemove(names: set<string>, accounts: map<string, AccountConfig>, n: string)
    requires names <= accounts.Keys && n in names
    ensures CountUsers(names, accounts) == |accounts[n].users| + CountUsers(names - {n}, accounts)
    decreases |names|
  {
    var m :| m in names && CountUsers(names, accounts) == |accounts[m].users| + CountUsers(names - {m}, accounts);
    if m != n {
      CountUsersRemove(names - {m}, accounts, n);
      CountUsersRemove(names - {n}, accounts, m);
      assert names - {m} - {n} == names - {n} - {m};
    }
  }

  ghost function SentinelNodes(): seq<Node>
  {
    [Comment(WARNING_1), Comment(WARNING_2), Comment(WARNING_3),
     Named("authorization", [UsersNode([SENTINEL_USER])])]
  }

  ghost function ConfigNodes(cfg: Config): seq<Node>
  {
    [Comment(BANNER)]
    + (if cfg.systemAccount == "" then [] else [KeyValue("system_account", Quoted(cfg.systemAccount))])
    + (if CountUsers(cfg.accounts.Keys, cfg.accounts) == 0 then SentinelNodes() else [])
    + [Named("accounts", AccountBlocks(InOrder(cfg.accounts.Keys), cfg.accounts))]
  }

  // ---- decoding ----

  /** The value of the first field with this key. */
  function FieldValue(ns: seq<Node>, key: string): Option<string>
  {
    if ns == [] then None
    else if ns[0].Field? && key + ": " <= ns[0].text then Some(ns[0].text[|key| + 2..])
    else FieldValue(ns[1..], key)
  }

  /** The contents of the first block with this head. */
  function BlockKids(ns: seq<Node>, head: string): Option<seq<Node>>
  {
    if ns == [] then None
    else if ns[0].Block? && ns[0].head == head then Some(ns[0].kids)
    else BlockKids(ns[1..], head)
  }

  function StringAt(ns: seq<Node>, key: string): string
  {
    match FieldValue(ns, key)
    case None => ""
    case Some(s) => s
  }

  function IntAt(ns: seq<Node>, key: string): Option<int>
  {
    match FieldValue(ns, key)
    case None => None
    case Some(s) => ReadInt(s)
  }

  function BoolAt(ns: seq<Node>, key: string): Option<bool>
  {
    match FieldValue(ns, key)
    case None => None
    case Some(s) => if s == "true" then Some(true) else if s == "false" then Some(false) else None
  }

  function QuotedAt(ns: seq<Node>, key: string): Option<string>
  {
    match FieldValue(ns, key)
    case None => None
    case Some(s) => Unquote(s)
  }

  function ListAt(ns: seq<Node>, key: string): seq<string>
  {
    match FieldValue(ns, key)
    case None => []
    case Some(s) =>
      if s == "" || s[0] != '[' then [] else
        match ReadList(s[1..])
        case None => []
        case Some((items, rest)) => if rest == "]" then items else []
  }

  function DecodeJetStream(ns: seq<Node>): JetStreamConfig
  {
    JetStreamConfig(StringAt(ns, "max_mem"), StringAt(ns, "max_file"), IntAt(ns, "max_streams"),
                    IntAt(ns, "max_consumers"), BoolAt(ns, "max_bytes_required"),
                    StringAt(ns, "memory_max_stream_bytes"), StringAt(ns, "disk_max_stream_bytes"),
                    IntAt(ns, "max_ack_pending"))
  }

  function DecodeLimits(ns: seq<Node>): LimitsConfig
  {
    LimitsConfig(IntAt(ns, "max_connections"), IntAt(ns, "max_subscriptions"),
                 StringAt(ns, "max_payload"), IntAt(ns, "max_leafnodes"))
  }

  function DecodeRule(kids: Option<seq<Node>>): Option<PermissionRule>
  {
    match kids
    case None => None
    case Some(ns) => Some(PermissionRule(ListAt(ns, "allow"), ListAt(ns, "deny")))
  }

  function DecodeResponses(ns: seq<Node>): Option<ResponsePermission>
  {
    match BlockKids(ns, "allow_responses ")
    case Some(kids) => Some(ResponsePermission(true, IntAt(kids, "max"), QuotedAt(kids, "ttl")))
    case None =>
      if FieldValue(ns, "allow_responses") == Some("true") then Some(ResponsePermission(true, None, None)) else None
  }

  function DecodePermissions(kids: Option<seq<Node>>): Option<Permissions>
  {
    match kids
    case None => None
    case Some(ns) =>
      Some(Permissions(DecodeRule(BlockKids(ns, "publish ")), DecodeRule(BlockKids(ns, "subscribe ")),
                       DecodeResponses(ns)))
  }

  function DecodeUser(ns: seq<Node>): UserConfig
  {
    UserConfig(StringAt(ns, "nkey"), DecodePermissions(BlockKids(ns, "permissions ")))
  }

  function DecodeUsers(ns: seq<Node>): seq<UserConfig>
  {
    if ns == [] then []
    else if ns[0].Block? then [DecodeUser(ns[0].kids)] + DecodeUsers(ns[1..])
    else DecodeUsers(ns[1..])
  }

  function DecodeAccount(ns: seq<Node>): AccountConfig
  {
    AccountConfig(
      match BlockKids(ns, "jetstream ") {
        case None => None
        case Some(kids) => Some(DecodeJetStream(kids))
      },
      match BlockKids(ns, "limits ") {
        case None => None
        case Some(kids) => Some(DecodeLimits(kids))
      },
      match BlockKids(ns, "users = ") {
        case None => []
        case Some(kids) => DecodeUsers(kids)
      })
  }

  /** A block per account; its head is the account name and a blank. */
  function DecodeAccounts(ns: seq<Node>): map<string, AccountConfig>
  {
    if ns == [] then map[]
    else if ns[0].Block? && ns[0].head != "" then
      DecodeAccounts(ns[1..])[ns[0].head[..|ns[0].head| - 1] := DecodeAccount(ns[0].kids)]
    else DecodeAccounts(ns[1..])
  }

  /** What a server reads: the config, and the users of the top-level authorization block, if there is one. */
  datatype ServerView = ServerView(config: Config, authorization: Option<seq<UserConfig>>)

  function DecodeUserList(ns: seq<Node>): seq<UserConfig>
  {
    match BlockKids(ns, "users = ")
    case None => []
    case Some(kids) => DecodeUsers(kids)
  }

  function DecodeAuthorization(ns: seq<Node>): Option<seq<UserConfig>>
  {
    match BlockKids(ns, "authorization ")
    case None => None
    case Some(kids) => Some(DecodeUserList(kids))
  }

  function DecodeConfig(ns: seq<Node>): Option<ServerView>
  {
    match BlockKids(ns, "accounts ")
    case None => None
    case Some(kids) =>
      var systemAccount := match QuotedAt(ns, "system_account") {
                             case None => ""
                             case Some(s) => s
                           };
      Some(ServerView(Config(systemAccount, [], DecodeAccounts(kids)), DecodeAuthorization(ns)))
  }

  function ReadConfig(text: string): Option<ServerView>
  {
    match ParseText(text)
    case None => None
    case Some(ns) => DecodeConfig(ns)
  }

  // ---- normal form: what printing keeps ----

  function NormalResponses(r: Option<ResponsePermission>): Option<ResponsePermission>
  {
    if r.Some? && r.value.enabled then r else None
  }

  function NormalUser(u: UserConfig): UserConfig
  {
    match u.permissions
    case None => u
    case Some(p) => u.(permissions := Some(p.(allowResponses := NormalResponses(p.allowResponses))))
  }

  function NormalUsers(users: seq<UserConfig>): seq<UserConfig>
  {
    seq(|users|, i requires 0 <= i < |users| => NormalUser(users[i]))
  }

  function NormalAccount(a: AccountConfig): AccountConfig
  {
    a.(users := NormalUsers(a.users))
  }

  /** Conflicts dropped, disabled allow_responses absent. */
  function Normal(cfg: Config): Config
  {
    Config(cfg.systemAccount, [], map n | n in cfg.accounts :: NormalAccount(cfg.accounts[n]))
  }
}
