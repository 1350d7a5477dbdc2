/**
 * internal/controller/natscluster_controller.go: how edits reach the work queue, and a single worker that
 * reads, resolves and publishes. The steps of the state machine; the invariant is in FreshnessProof.
 *
 * Edits change the declared objects and leave a notification, which the mapping functions turn into
 * queue entries at some later time, against the objects as they are then. Secrets are written by the
 * worker alone and namespace labels do not change.
 */
module Freshness {
  import opened Text
  import opened Sorting
  import opened HashHeader
  import opened Api
  import opened Rules
  import opened Secrets
  import opened ConfigText
  import opened Convert
  import opened Resolve
  import opened ListingOrder

  /** The regex engine, the namespaces with their labels, and the digest. */
  datatype Context = Context(compiles: string -> bool, matches: (string, string) -> bool,
                             namespaces: map<string, Labels>, digest: string -> string)

  const NOT_FOUND := "not found"

  /** A pass in which every existing namespace can be fetched. */
  function Truth(c: Context): World
  {
    World(c.compiles, c.matches,
          (a: Key, u: Key, left: nat) =>
            if u.namespace in c.namespaces then Fetched(c.namespaces[u.namespace]) else FetchError(NOT_FOUND))
  }

  /** What a watch reports; an update reports the old and the new object. */
  datatype Note =
    | AccountChanged(account: Account)
    | UserChanged(user: User)
    | ClusterChanged(cluster: Key)
    | ConfigMapChanged(owner: Key)

  datatype Object = ThisUser(key: Key) | ThisAccount(key: Key) | ThisCluster(key: Key)

  datatype ClusterStatus = ClusterStatus(accountCount: nat, userCount: nat, lastConfigHash: string, generation: nat)

  datatype Status =
    | UserStatusOf(user: UserStatus)
    | AccountStatusOf(account: AccountStatus)
    | ClusterStatusOf(cluster: ClusterStatus)

  /** A status the operator tries to record. */
  datatype Attempt = Attempt(target: Object, status: Status)

  /** What a pass met, read and made. */
  datatype Basis = Basis(env: World, accounts: seq<Account>, users: seq<User>, out: seq<AccountWithUsers>)

  /**
   * Listed objects come with the statuses recorded when they were listed. failed: some status could not
   * be recorded; changed: some recorded status, or the ConfigMap, was another one before.
   */
  datatype Worker =
    | Idle
    | Found(key: Key)
    | ReadAccounts(key: Key, accounts: seq<Account>, seenAccounts: map<Object, Status>)
    | ReadUsers(key: Key, accounts: seq<Account>, seenAccounts: map<Object, Status>, users: seq<User>,
                seenUsers: map<Object, Status>)
    | Prepared(key: Key, basis: Basis, failed: bool, changed: bool)
    | Finishing(key: Key, basis: Basis, failed: bool, changed: bool)

  /**
   * basis and silent are history: what each ConfigMap was last published from, and the clusters whose last
   * pass changed neither a status nor the ConfigMap, recorded every status and found all pods in sync, so
   * that nothing follows it.
   */
  datatype State = State(
    clusters: set<Key>, accounts: map<Key, Account>, users: map<Key, User>, statuses: map<Object, Status>,
    secrets: map<Key, Stored>, configMaps: map<Key, string>, pending: set<Note>, queue: set<Key>, worker: Worker,
    basis: map<Key, Basis>, silent: set<Key>)

  datatype Event =
    | SetAccount(account: Account) | DropAccount(key: Key)
    | SetUser(user: User) | DropUser(key: Key)
    | SetCluster(key: Key) | DropCluster(key: Key)
    | TouchConfigMap(key: Key, content: Option<string>)
    | TouchStatus(target: Object, status: Status)
    | Deliver(note: Note, getFails: bool, listFails: bool)
    | Enqueue(key: Key)
    | Start(key: Key)
    | ListAccounts(listed: seq<Account>)
    | ListUsers(users: seq<User>)
    | ReconcileUsers(env: World, links: Links, out: seq<AccountWithUsers>, secrets: map<Key, Stored>,
                     accepted: seq<bool>)
    | ReconcileFails(env: World, secrets: map<Key, Stored>)
    | Publish
    | Finish(summary: ClusterStatus, inSync: bool)
    | Fail
    | Restart

  function ClusterKey(a: Account): Key
  {
    Key(a.namespace, a.clusterRef)
  }

  /** The cluster of the account the user names, as things stand. */
  function ClusterOf(accounts: map<Key, Account>, u: User): Option<Key>
  {
    if ReferencedAccount(u) in accounts then Some(ClusterKey(accounts[ReferencedAccount(u)])) else None
  }

  // ---- the mapping functions ----

  function ClustersIn(clusters: set<Key>, namespace: string): set<Key>
  {
    set k | k in clusters && k.namespace == namespace
  }

  method AllClustersInNamespace(clusterList: seq<Key>, namespace: string, listFails: bool) returns (requests: seq<Key>)
    ensures forall k :: k in requests <==> !listFails && k in clusterList && k.namespace == namespace
  {
    requests := [];
    if listFails {
      return;
    }
    for i := 0 to |clusterList|
      invariant forall k :: k in requests <==> k in clusterList[..i] && k.namespace == namespace
    {
      if clusterList[i].namespace == namespace {
        requests := requests + [clusterList[i]];
      }
    }
    assert clusterList[..|clusterList|] == clusterList;
  }

  function MapAccountToCluster(a: Account): set<Key>
  {
    {ClusterKey(a)}
  }

  /** A missing account maps to nothing; a failed lookup to every cluster in the account's namespace. */
  function MapUserToCluster(s: State, u: User, getFails: bool, listFails: bool): set<Key>
  {
    if getFails then
      if listFails then {} else ClustersIn(s.clusters, ReferencedAccount(u).namespace)
    else match ClusterOf(s.accounts, u)
         case None => {}
         case Some(k) => {k}
  }

  function Requests(s: State, note: Note, getFails: bool, listFails: bool): set<Key>
  {
    match note
    case AccountChanged(a) => MapAccountToCluster(a)
    case UserChanged(u) => MapUserToCluster(s, u, getFails, listFails)
    case ClusterChanged(k) => {k}
    case ConfigMapChanged(k) => {k}
  }

  // ---- what a pass may read and produce ----

  /** The accounts listed for the cluster: all of them, in name order. */
  ghost predicate ListsAccounts(s: State, k: Key, listed: seq<Account>)
  {
    && DistinctAccounts(listed) && SortedBy(listed, AccountName)
    && forall a: Account :: a in listed
              <==> AccountKey(a) in s.accounts && s.accounts[AccountKey(a)] == a && ClusterKey(a) == k
  }

  /** All users, in any order. */
  ghost predicate ListsUsers(s: State, listed: seq<User>)
  {
    && DistinctUsers(listed)
    && forall u: User :: u in listed <==> UserKey(u) in s.users && s.users[UserKey(u)] == u
  }

  /** The regex engine as it is, and labels as they are wherever a fetch succeeds. */
  ghost predicate Restricts(part: World, whole: World)
  {
    && part.compiles == whole.compiles && part.matches == whole.matches
    && forall a, u, left :: part.fetch(a, u, left).Fetched? ==> part.fetch(a, u, left) == whole.fetch(a, u, left)
  }

  /** The user names the account, and evaluating its rules comes to a label rule whose namespace fetch fails. */
  ghost predicate Dropped(part: World, a: Account, u: User)
  {
    && References(u, a)
    && exists i: nat :: FetchBlocks(part.At(AccountKey(a), UserKey(u)), a.userRules, u.namespace, a.namespace, i)
  }

  /** Nobody a processed account admits is dropped. */
  ghost predicate MissesNobody(part: World, whole: World, accounts: seq<Account>, users: seq<User>)
  {
    forall a, u | a in accounts && u in users ::
      RegexesValid(part.compiles, a.userRules) && Dropped(part, a, u) ==> !Admits(whole, a, u)
  }

  // ---- the statuses a pass records ----

  const NEW_USER := UserStatus("", None, "", [], false, None)
  const NEW_ACCOUNT := AccountStatus(0, "", None)

  function LiveUserOf(seen: map<Object, Status>, u: User): LiveUser
  {
    var o := ThisUser(UserKey(u));
    LiveUser(u, if o in seen && seen[o].UserStatusOf? then seen[o].user else NEW_USER)
  }

  function LiveAccountOf(seen: map<Object, Status>, a: Account): LiveAccount
  {
    var o := ThisAccount(AccountKey(a));
    LiveAccount(a, if o in seen && seen[o].AccountStatusOf? then seen[o].account else NEW_ACCOUNT)
  }

  function UserAttempt(env: World, a: Account, site: Site, seen: map<Object, Status>, secrets: map<Key, Stored>,
                       u: User): Attempt
  {
    Attempt(ThisUser(UserKey(u)), UserStatusOf(Settled(env, a, site, secrets, LiveUserOf(seen, u)).status))
  }

  /** One attempt for every user of a processed account. */
  function UserAttempts(env: World, accounts: seq<Account>, site: Site, users: seq<User>, seen: map<Object, Status>,
                        secrets: map<Key, Stored>): seq<Attempt>
  {
    if users == [] then [] else
      var u := users[|users| - 1];
      UserAttempts(env, accounts, site, users[..|users| - 1], seen, secrets)
      + match Home(env, accounts, u) {
          case None => []
          case Some(a) => [UserAttempt(env, a, site, seen, secrets, u)]
        }
  }

  function AccountStatusAfter(env: World, links: Links, users: seq<User>, seen: map<Object, Status>,
                              a: Account): AccountStatus
  {
    AccountAfterPass(env, links, users, LiveAccountOf(seen, a)).status
  }

  function AccountAttempt(env: World, links: Links, users: seq<User>, seen: map<Object, Status>, a: Account): Attempt
  {
    Attempt(ThisAccount(AccountKey(a)), AccountStatusOf(AccountStatusAfter(env, links, users, seen, a)))
  }

  function AccountAttempts(env: World, links: Links, accounts: seq<Account>, users: seq<User>,
                           seen: map<Object, Status>): seq<Attempt>
  {
    seq(|accounts|, i requires 0 <= i < |accounts| => AccountAttempt(env, links, users, seen, accounts[i]))
  }

  function Conflicted(a: LiveAccount, conflicts: seq<string>): LiveAccount
  {
    if a.spec.name !in conflicts then a else
      a.(status := a.status.(ready := Some(SystemAccountConflict(a.spec.generation, conflicts))))
  }

  /** An account once the pass has been through it and the conflicts. */
  function FinalAccount(env: World, links: Links, users: seq<User>, recorded: map<Object, Status>,
                        conflicts: seq<string>, a: Account): LiveAccount
  {
    Conflicted(AccountAfterPass(env, links, users, LiveAccountOf(recorded, a)), conflicts)
  }

  function FinalAttempt(env: World, links: Links, users: seq<User>, recorded: map<Object, Status>,
                        conflicts: seq<string>, a: Account): Attempt
  {
    Attempt(ThisAccount(AccountKey(a)), AccountStatusOf(FinalAccount(env, links, users, recorded, conflicts, a).status))
  }

  /** The condition of an account in a conflict is recorded once more. */
  function ConflictAttempts(env: World, links: Links, accounts: seq<Account>, users: seq<User>,
                            seen: map<Object, Status>, conflicts: seq<string>): seq<Attempt>
  {
    if accounts == [] then [] else
      var front, a := accounts[..|accounts| - 1], accounts[|accounts| - 1];
      ConflictAttempts(env, links, front, users, seen, conflicts)
      + if a.name in conflicts then [FinalAttempt(env, links, users, seen, conflicts, a)] else []
  }

  /** Everything a pass tries to record about users and accounts. */
  function Attempts(w: Worker, env: World, links: Links, out: seq<AccountWithUsers>,
                    secrets: map<Key, Stored>): seq<Attempt>
    requires w.ReadUsers?
  {
    UserAttempts(env, w.accounts, SiteOf(w.accounts, links), w.users, w.seenUsers, secrets)
    + AccountAttempts(env, links, w.accounts, w.users, w.seenAccounts)
    + ConflictAttempts(env, links, w.accounts, w.users, w.seenAccounts, ConflictNames(out))
  }

  /** The attempts the API server accepts. */
  function Recorded(attempts: seq<Attempt>, accepted: seq<bool>): seq<Attempt>
    requires |accepted| == |attempts|
  {
    if attempts == [] then [] else
      var n := |attempts| - 1;
      Recorded(attempts[..n], accepted[..n]) + if accepted[n] then [attempts[n]] else []
  }

  predicate Records(statuses: map<Object, Status>, w: Attempt)
  {
    w.target in statuses && statuses[w.target] == w.status
  }

  function AfterWrites(statuses: map<Object, Status>, writes: seq<Attempt>): map<Object, Status>
  {
    if writes == [] then statuses else
      var w := writes[|writes| - 1];
      AfterWrites(statuses, writes[..|writes| - 1])[w.target := w.status]
  }

  /** The objects whose recorded status some write changes. A write of what is there changes nothing. */
  function Changed(statuses: map<Object, Status>, writes: seq<Attempt>): set<Object>
  {
    if writes == [] then {} else
      var front, w := writes[..|writes| - 1], writes[|writes| - 1];
      Changed(statuses, front) + if Records(AfterWrites(statuses, front), w) then {} else {w.target}
  }

  predicate Exists(s: State, o: Object)
  {
    match o
    case ThisUser(k) => k in s.users
    case ThisAccount(k) => k in s.accounts
    case ThisCluster(k) => k in s.clusters
  }

  function NoteOf(s: State, o: Object): Note
    requires Exists(s, o)
  {
    match o
    case ThisUser(k) => UserChanged(s.users[k])
    case ThisAccount(k) => AccountChanged(s.accounts[k])
    case ThisCluster(k) => ClusterChanged(k)
  }

  /** A changed status is reported like any other change of the object. */
  function NotesOf(s: State, objects: set<Object>): set<Note>
  {
    set o | o in objects && Exists(s, o) :: NoteOf(s, o)
  }

  ghost function Published(c: Context, out: seq<AccountWithUsers>): string
  {
    var body := ConfigBody(ConfigOf(out));
    FormatHashHeader(c.digest(body)) + body
  }

  // ---- steps ----

  /** The status of an object that is gone cannot be recorded. */
  ghost predicate AcceptAllowed(s: State, attempts: seq<Attempt>, accepted: seq<bool>)
  {
    && |accepted| == |attempts|
    && forall i :: 0 <= i < |attempts| && accepted[i] ==> Exists(s, attempts[i].target)
  }

  ghost predicate PassAllowed(c: Context, s: State, env: World, secrets: map<Key, Stored>)
    requires s.worker.ReadUsers?
  {
    Restricts(env, Truth(c)) && OnlyWelcomedTouched(env, s.worker.accounts, s.worker.users, s.secrets, secrets)
  }

  ghost predicate Enabled(c: Context, s: State, e: Event)
  {
    match e
    case Deliver(note, _, _) => note in s.pending
    case Start(k) => s.worker.Idle? && k in s.queue
    case ListAccounts(listed) => s.worker.Found? && ListsAccounts(s, s.worker.key, listed)
    case ListUsers(listed) => s.worker.ReadAccounts? && ListsUsers(s, listed)
    case ReconcileUsers(env, links, out, secrets, accepted) =>
      && s.worker.ReadUsers? && PassAllowed(c, s, env, secrets)
      && Resolved(env, s.worker.accounts, s.worker.users, secrets, out)
      && AcceptAllowed(s, Attempts(s.worker, env, links, out, secrets), accepted)
    case ReconcileFails(env, secrets) => s.worker.ReadUsers? && PassAllowed(c, s, env, secrets)
    case Publish => s.worker.Prepared?
    case Finish(status, inSync) =>
      && s.worker.Finishing? && s.worker.key in s.clusters
      && status.accountCount == |s.worker.basis.accounts| && status.userCount == UserTotal(s.worker.basis.out)
      && (inSync ==> status.lastConfigHash == c.digest(ConfigBody(ConfigOf(s.worker.basis.out))))
    case Fail => !s.worker.Idle?
    case _ => true
  }

  function OldAccount(s: State, k: Key): set<Note>
  {
    if k in s.accounts then {AccountChanged(s.accounts[k])} else {}
  }

  function OldUser(s: State, k: Key): set<Note>
  {
    if k in s.users then {UserChanged(s.users[k])} else {}
  }

  /** Writes go through one after another; each that changes a status is reported. */
  function AfterRecording(s: State, writes: seq<Attempt>): State
  {
    s.(statuses := AfterWrites(s.statuses, writes), pending := s.pending + NotesOf(s, Changed(s.statuses, writes)))
  }

  function AfterReconcile(s: State, env: World, attempts: seq<Attempt>, accepted: seq<bool>, out: seq<AccountWithUsers>,
                          secrets: map<Key, Stored>): State
    requires s.worker.ReadUsers? && |accepted| == |attempts|
  {
    var writes, w := Recorded(attempts, accepted), s.worker;
    AfterRecording(s, writes).(
      secrets := secrets,
      worker := Prepared(w.key, Basis(env, w.accounts, w.users, out), false in accepted,
                         Changed(s.statuses, writes) != {}))
  }

  predicate HoldsText(s: State, k: Key, text: string)
  {
    k in s.configMaps && s.configMaps[k] == text
  }

  /** The ConfigMap is owned, and so watched: a write that creates or changes it is reported to its cluster. */
  ghost function AfterPublish(c: Context, s: State): State
    requires s.worker.Prepared?
  {
    var w := s.worker;
    var text := Published(c, w.basis.out);
    var rewritten := !HoldsText(s, w.key, text);
    s.(configMaps := s.configMaps[w.key := text], basis := s.basis[w.key := w.basis],
       pending := if rewritten then s.pending + {ConfigMapChanged(w.key)} else s.pending,
       worker := Finishing(w.key, w.basis, w.failed, w.changed || rewritten))
  }

  /** A failed write or a pod out of sync requeues after a while; otherwise only notifications follow. */
  function AfterFinish(s: State, status: ClusterStatus, inSync: bool): State
    requires s.worker.Finishing?
  {
    var w, write := s.worker, Attempt(ThisCluster(s.worker.key), ClusterStatusOf(status));
    AfterRecording(s, [write]).(
      queue := if w.failed || !inSync then s.queue + {w.key} else s.queue,
      silent := if w.failed || !inSync || w.changed || !Records(s.statuses, write) then s.silent - {w.key}
                else s.silent + {w.key},
      worker := Idle)
  }

  ghost function Next(c: Context, s: State, e: Event): State
    requires Enabled(c, s, e)
  {
    match e
    case SetAccount(a) =>
      s.(accounts := s.accounts[AccountKey(a) := a],
         pending := s.pending + OldAccount(s, AccountKey(a)) + {AccountChanged(a)})
    case DropAccount(k) =>
      s.(accounts := s.accounts - {k}, statuses := s.statuses - {ThisAccount(k)},
         pending := s.pending + OldAccount(s, k))
    case SetUser(u) =>
      s.(users := s.users[UserKey(u) := u], pending := s.pending + OldUser(s, UserKey(u)) + {UserChanged(u)})
    case DropUser(k) =>
      s.(users := s.users - {k}, statuses := s.statuses - {ThisUser(k)}, pending := s.pending + OldUser(s, k))
    case SetCluster(k) => s.(clusters := s.clusters + {k}, pending := s.pending + {ClusterChanged(k)})
    case DropCluster(k) =>
      s.(clusters := s.clusters - {k}, statuses := s.statuses - {ThisCluster(k)},
         pending := s.pending + {ClusterChanged(k)})
    case TouchConfigMap(k, content) =>
      s.(configMaps := if content.Some? then s.configMaps[k := content.value] else s.configMaps - {k},
         pending := s.pending + {ConfigMapChanged(k)})
    case TouchStatus(o, status) => AfterRecording(s, [Attempt(o, status)])
    case Deliver(note, getFails, listFails) =>
      s.(pending := s.pending - {note}, queue := s.queue + Requests(s, note, getFails, listFails))
    case Enqueue(k) => s.(queue := s.queue + {k})
    case Start(k) => s.(queue := s.queue - {k}, worker := if k in s.clusters then Found(k) else Idle)
    case ListAccounts(listed) => s.(worker := ReadAccounts(s.worker.key, listed, s.statuses))
    case ListUsers(listed) =>
      s.(worker := ReadUsers(s.worker.key, s.worker.accounts, s.worker.seenAccounts, listed, s.statuses))
    case ReconcileUsers(env, links, out, secrets, accepted) =>
      AfterReconcile(s, env, Attempts(s.worker, env, links, out, secrets), accepted, out, secrets)
    case ReconcileFails(env, secrets) => s.(secrets := secrets, queue := s.queue + {s.worker.key}, worker := Idle)
    case Publish => AfterPublish(c, s)
    case Finish(status, inSync) => AfterFinish(s, status, inSync)
    case Fail => s.(queue := s.queue + {s.worker.key}, worker := Idle)
    case Restart => s.(pending := {}, queue := s.clusters, worker := Idle)
  }

  ghost predicate Valid(c: Context, s: State, run: seq<Event>)
    decreases |run|, 0
  {
    run == []
    || (Valid(c, s, run[..|run| - 1]) && Enabled(c, After(c, s, run[..|run| - 1]), run[|run| - 1]))
  }

  ghost function After(c: Context, s: State, run: seq<Event>): State
    requires Valid(c, s, run)
    decreases |run|, 1
  {
    if run == [] then s else Next(c, After(c, s, run[..|run| - 1]), run[|run| - 1])
  }

  /** No notification is lost to a failed fallback List. */
  predicate NothingLost(e: Event)
  {
    e.Deliver? && e.note.UserChanged? ==> !(e.getFails && e.listFails)
  }
}
