/** The declared objects (api/v1alpha1) as far as the operator reads them. */
module Api {
  import opened Text
  import opened PermissionCompiler

  datatype Key = Key(namespace: string, name: string)

  /** Exactly one of the three matchers is set in admitted objects; the code does not rely on it. */
  datatype UserRule = UserRule(
    action: string, namespaceRegex: Option<string>, namespaceLabels: Option<map<string, string>>,
    sameNamespace: Option<bool>)

  /** Quantities are byte counts. */
  datatype AccountJetStream = AccountJetStream(
    maxMemory: Option<int>, maxFile: Option<int>, maxStreams: Option<int>, maxConsumers: Option<int>,
    maxBytesRequired: Option<bool>, memoryMaxStreamBytes: Option<int>, diskMaxStreamBytes: Option<int>,
    maxAckPending: Option<int>)

  datatype AccountLimits = AccountLimits(
    maxConnections: Option<int>, maxSubscriptions: Option<int>, maxPayload: Option<int>, maxLeafnodes: Option<int>)

  /** The API server sets a new generation with every change of the spec. */
  datatype Account = Account(
    namespace: string, name: string, generation: nat, clusterRef: string, userRules: seq<UserRule>,
    jetStream: Option<AccountJetStream>, limits: Option<AccountLimits>, systemAccount: bool)

  datatype User = User(
    namespace: string, name: string, generation: nat, accountName: string, accountNamespace: string,
    inboxPrefix: Option<string>, insecureSharedInboxPrefix: bool, permissions: Option<PermissionsSpec>)

  /** The Ready condition: its status, reason, message and observed generation, by what determines them. */
  datatype Condition =
    | Reconciled(generation: nat)
    | InvalidRegex(generation: nat, pattern: string)
    | NamespaceNotAllowed(generation: nat, namespace: string, account: string)
    | NamespaceFetchError(generation: nat, namespace: string, text: string)
    | SystemAccountConflict(generation: nat, accounts: seq<string>)

  datatype UserStatus = UserStatus(
    nkeyPublicKey: string, secretRef: Option<string>, debugCommand: string, connectionURLs: seq<string>,
    isSystemAccount: bool, ready: Option<Condition>)

  datatype AccountStatus = AccountStatus(userCount: nat, debugCommand: string, ready: Option<Condition>)

  datatype LiveUser = LiveUser(spec: User, status: UserStatus)

  datatype LiveAccount = LiveAccount(spec: Account, status: AccountStatus)

  function AccountKey(a: Account): Key
  {
    Key(a.namespace, a.name)
  }

  function UserKey(u: User): Key
  {
    Key(u.namespace, u.name)
  }

  /** The account a user names; an empty namespace means the user's own. */
  function ReferencedAccount(u: User): Key
  {
    Key(if u.accountNamespace == "" then u.namespace else u.accountNamespace, u.accountName)
  }

  /** userReferencesAccount */
  predicate References(u: User, a: Account)
  {
    ReferencedAccount(u) == AccountKey(a)
  }
}
