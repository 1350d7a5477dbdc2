/** The invariant of the queue: every live cluster is due, under way, or published from current objects. */
module FreshnessProof {
  import opened Text
  import opened Sorting
  import opened Api
  import opened Rules
  import opened Secrets
  import opened ConfigText
  import opened Convert
  import opened Resolve
  import opened ResolveTheorems
  import opened ListingOrder
  import opened Freshness

  // ---- what covers a cluster ----

  ghost predicate Targets(s: State, note: Note, k: Key)
  {
    match note
    case AccountChanged(a) => ClusterKey(a) == k
    case UserChanged(u) => ClusterOf(s.accounts, u) == Some(k)
    case ClusterChanged(c) => c == k
    case ConfigMapChanged(c) => c == k
  }

  /** In the queue, or some undelivered notification will put it there. */
  ghost predicate Due(s: State, k: Key)
  {
    k in s.queue || exists note <- s.pending :: Targets(s, note, k)
  }

  /** The accounts read are those the cluster has now. */
  ghost predicate AccountsAgree(s: State, k: Key, listed: seq<Account>)
  {
    ListsAccounts(s, k, listed)
  }

  predicate RefersTo(u: User, accounts: seq<Account>)
  {
    exists a <- accounts :: References(u, a)
  }

  /** Of the users that name one of the accounts, those read are those there are now. */
  ghost predicate UsersAgree(s: State, accounts: seq<Account>, listed: seq<User>)
  {
    && DistinctUsers(listed)
    && forall u: User :: RefersTo(u, accounts) ==> (u in listed <==> UserKey(u) in s.users && s.users[UserKey(u)] == u)
  }

  ghost predicate Current(s: State, k: Key, b: Basis)
  {
    && AccountsAgree(s, k, b.accounts) && UsersAgree(s, b.accounts, b.users)
    && Resolved(b.env, b.accounts, b.users, s.secrets, b.out)
  }

  /** The ConfigMap holds the text of this basis, and what the basis was read from still holds. */
  ghost predicate PublishedFrom(c: Context, s: State, k: Key, b: Basis)
  {
    && k in s.basis && s.basis[k] == b
    && k in s.configMaps && s.configMaps[k] == Published(c, b.out)
    && Current(s, k, b)
  }

  /** The worker is busy with the cluster and all it has read still holds. */
  ghost predicate UnderWay(c: Context, s: State, k: Key)
  {
    match s.worker
    case Found(w) => w == k
    case ReadAccounts(w, accounts, _) => w == k && AccountsAgree(s, k, accounts)
    case ReadUsers(w, accounts, _, users, _) => w == k && AccountsAgree(s, k, accounts)
                                                && UsersAgree(s, accounts, users)
    case Prepared(w, b, _, _) => w == k && Current(s, k, b)
    case Finishing(w, b, _, _) => w == k && PublishedFrom(c, s, k, b)
    case _ => false
  }

  /** No user was dropped from this basis. */
  ghost predicate Whole(c: Context, b: Basis)
  {
    MissesNobody(b.env, Truth(c), b.accounts, b.users)
  }

  /**
   * The ConfigMap was published from what is now declared and stored; a user may have been dropped only if
   * that pass was silent.
   */
  ghost predicate Fresh(c: Context, s: State, k: Key)
  {
    && k in s.basis && PublishedFrom(c, s, k, s.basis[k]) && Restricts(s.basis[k].env, Truth(c))
    && (Whole(c, s.basis[k]) || k in s.silent)
  }

  ghost predicate Covered(c: Context, s: State, k: Key)
  {
    Due(s, k) || UnderWay(c, s, k) || Fresh(c, s, k)
  }

  predicate WellKeyed(s: State)
  {
    && (forall k <- s.accounts :: AccountKey(s.accounts[k]) == k)
    && (forall k <- s.users :: UserKey(s.users[k]) == k)
  }

  /** The account, as it is now, references the cluster. */
  predicate Belongs(s: State, a: Account, k: Key)
  {
    AccountKey(a) in s.accounts && ClusterKey(s.accounts[AccountKey(a)]) == k
  }

  /** The user, as it is now, resolves to the cluster. */
  predicate UserBelongs(s: State, u: User, k: Key)
  {
    UserKey(u) in s.users && ClusterOf(s.accounts, s.users[UserKey(u)]) == Some(k)
  }

  /** Accounts the worker has read do not belong to another cluster, unless that one is due. */
  ghost predicate AccountsApart(s: State, w: Key, accounts: seq<Account>)
  {
    forall a, k | a in accounts && k in s.clusters && k != w :: Belongs(s, a, k) ==> Due(s, k)
  }

  ghost predicate UsersApart(s: State, w: Key, accounts: seq<Account>, users: seq<User>)
  {
    forall u, k | u in users && k in s.clusters && k != w :: RefersTo(u, accounts) && UserBelongs(s, u, k) ==> Due(s, k)
  }

  /**
   * The cluster the worker has read for is due again, or nothing read has changed. It is due in any case once
   * the pass has changed a status.
   */
  ghost predicate WorkerSound(c: Context, s: State)
  {
    var w := s.worker;
    (w.ReadAccounts? || w.ReadUsers? || w.Prepared? || w.Finishing?) && w.key in s.clusters ==>
      && (Due(s, w.key) || UnderWay(c, s, w.key))
      && ((w.Prepared? || w.Finishing?) && w.changed ==> Due(s, w.key))
  }

  ghost predicate Apart(c: Context, s: State)
  {
    match s.worker
    case ReadAccounts(w, accounts, _) => AccountsApart(s, w, accounts)
    case ReadUsers(w, accounts, _, users, _) => UsersApart(s, w, accounts, users)
    case Prepared(w, b, _, _) => Restricts(b.env, Truth(c))
    case Finishing(w, b, _, _) => Restricts(b.env, Truth(c))
    case _ => true
  }

  ghost predicate Inv(c: Context, s: State)
  {
    && WellKeyed(s) && Apart(c, s) && WorkerSound(c, s)
    && forall k <- s.clusters :: Covered(c, s, k)
  }

  // ---- edits ----

  /** An account edit: old and new object are reported. */
  ghost predicate AccountEdit(s: State, t: State)
  {
    && t == s.(accounts := t.accounts, statuses := t.statuses, pending := t.pending) && s.pending <= t.pending
    && forall k :: (k in s.accounts && (k !in t.accounts || t.accounts[k] != s.accounts[k]) ==>
                    AccountChanged(s.accounts[k]) in t.pending)
                && (k in t.accounts && (k !in s.accounts || t.accounts[k] != s.accounts[k]) ==>
                    AccountChanged(t.accounts[k]) in t.pending)
  }

  ghost predicate UserEdit(s: State, t: State)
  {
    && t == s.(users := t.users, statuses := t.statuses, pending := t.pending) && s.pending <= t.pending
    && forall k :: (k in s.users && (k !in t.users || t.users[k] != s.users[k]) ==>
                    UserChanged(s.users[k]) in t.pending)
                && (k in t.users && (k !in s.users || t.users[k] != s.users[k]) ==>
                    UserChanged(t.users[k]) in t.pending)
  }

  /** A cluster that was due still is: if a user's account moves away, the account's old object is reported. */
  lemma AccountEditKeepsDue(s: State, t: State, k: Key)
    requires AccountEdit(s, t) && Due(s, k)
    ensures Due(t, k)
  {
    if k !in s.queue {
      var note :| note in s.pending && Targets(s, note, k);
      if !Targets(t, note, k) {
        var r := ReferencedAccount(note.user);
        assert AccountChanged(s.accounts[r]) in t.pending && Targets(t, AccountChanged(s.accounts[r]), k);
      } else {
        assert note in t.pending;
      }
    }
  }

  lemma UserEditKeepsDue(s: State, t: State, k: Key)
    requires UserEdit(s, t) && Due(s, k)
    ensures Due(t, k)
  {
    if k !in s.queue {
      var note :| note in s.pending && Targets(s, note, k);
      assert note in t.pending && Targets(t, note, k);
    }
  }

  lemma AccountEditKeepsListing(s: State, t: State, k: Key, listed: seq<Account>)
    requires AccountEdit(s, t) && !Due(t, k) && AccountsAgree(s, k, listed) && WellKeyed(s) && WellKeyed(t)
    ensures AccountsAgree(t, k, listed)
  {
    forall a: Account
      ensures a in listed <==> AccountKey(a) in t.accounts && t.accounts[AccountKey(a)] == a && ClusterKey(a) == k
    {
      var key := AccountKey(a);
      assert key in s.accounts && AccountChanged(s.accounts[key]) in t.pending ==>
             !Targets(t, AccountChanged(s.accounts[key]), k);
      assert key in t.accounts && AccountChanged(t.accounts[key]) in t.pending ==>
             !Targets(t, AccountChanged(t.accounts[key]), k);
    }
  }

  /** In a cluster's accounts, a user names one exactly when it resolves to the cluster. */
  lemma RefersIffClusterOf(s: State, k: Key, listed: seq<Account>, u: User)
    requires AccountsAgree(s, k, listed) && WellKeyed(s)
    ensures RefersTo(u, listed) <==> ClusterOf(s.accounts, u) == Some(k)
  {
    if RefersTo(u, listed) {
      var a :| a in listed && References(u, a);
    }
    if ClusterOf(s.accounts, u) == Some(k) {
      var a := s.accounts[ReferencedAccount(u)];
      assert a in listed && References(u, a);
    }
  }

  lemma UserEditKeepsListing(s: State, t: State, k: Key, accounts: seq<Account>, listed: seq<User>)
    requires UserEdit(s, t) && !Due(t, k) && AccountsAgree(s, k, accounts) && WellKeyed(s)
    requires UsersAgree(s, accounts, listed)
    ensures AccountsAgree(t, k, accounts) && UsersAgree(t, accounts, listed)
  {
    forall u: User | RefersTo(u, accounts) ensures u in listed <==> UserKey(u) in t.users && t.users[UserKey(u)] == u {
      RefersIffClusterOf(s, k, accounts, u);
      assert UserChanged(u) in t.pending ==> !Targets(t, UserChanged(u), k);
    }
    hide RefersTo, DistinctUsers;
  }

  lemma AccountEditKeepsUnderWay(c: Context, s: State, t: State, k: Key)
    requires AccountEdit(s, t) && !Due(t, k) && WellKeyed(s) && WellKeyed(t)
    ensures UnderWay(c, s, k) ==> UnderWay(c, t, k)
    ensures forall b :: Current(s, k, b) ==> Current(t, k, b)
  {
    assert t == s.(accounts := t.accounts, statuses := t.statuses, pending := t.pending);
    forall listed | AccountsAgree(s, k, listed) ensures AccountsAgree(t, k, listed) {
      AccountEditKeepsListing(s, t, k, listed);
    }
    hide AccountsAgree, AccountEdit, Due, Resolved, WellKeyed, RefersTo;
  }

  /** What an edit must do, whichever objects it concerns. */
  lemma EditKeepsInv(c: Context, s: State, t: State)
    requires t == s.(accounts := t.accounts, users := t.users, statuses := t.statuses, pending := t.pending)
    requires Inv(c, s) && WellKeyed(t)
    requires forall k :: Due(s, k) ==> Due(t, k)
    requires forall k :: !Due(t, k) && UnderWay(c, s, k) ==> UnderWay(c, t, k)
    requires forall k, b :: !Due(t, k) && Current(s, k, b) ==> Current(t, k, b)
    requires forall a, k :: Belongs(t, a, k) && !Belongs(s, a, k) ==> Due(t, k)
    requires forall u, k :: UserBelongs(t, u, k) && !UserBelongs(s, u, k) ==> Due(t, k)
    ensures Inv(c, t)
  {
    hide Due, UnderWay, Current, Published, WellKeyed, RefersTo, Belongs, UserBelongs, Restricts, Whole;
  }

  lemma AccountEditKeepsInv(c: Context, s: State, t: State)
    requires AccountEdit(s, t) && Inv(c, s) && WellKeyed(s) && WellKeyed(t)
    ensures Inv(c, t)
  {
    forall a, k | Belongs(t, a, k) && !Belongs(s, a, k) ensures Due(t, k) {
      assert Targets(t, AccountChanged(t.accounts[AccountKey(a)]), k);
    }
    forall u, k | UserBelongs(t, u, k) && !UserBelongs(s, u, k) ensures Due(t, k) {
      assert Targets(t, AccountChanged(t.accounts[ReferencedAccount(t.users[UserKey(u)])]), k);
    }
    hide Inv, AccountEdit, Due, UnderWay, Current, WellKeyed, Belongs, UserBelongs;
    forall k | Due(s, k) ensures Due(t, k) {
      AccountEditKeepsDue(s, t, k);
    }
    forall k | !Due(t, k) {
      AccountEditKeepsUnderWay(c, s, t, k);
    }
    EditKeepsInv(c, s, t);
  }

  lemma UserEditKeepsUnderWay(c: Context, s: State, t: State, k: Key)
    requires UserEdit(s, t) && !Due(t, k) && WellKeyed(s)
    ensures UnderWay(c, s, k) ==> UnderWay(c, t, k)
    ensures forall b :: Current(s, k, b) ==> Current(t, k, b)
  {
    assert t == s.(users := t.users, statuses := t.statuses, pending := t.pending);
    forall accounts, listed | AccountsAgree(s, k, accounts) && UsersAgree(s, accounts, listed)
      ensures UsersAgree(t, accounts, listed)
    {
      UserEditKeepsListing(s, t, k, accounts, listed);
    }
    hide UserEdit, Due, Resolved, WellKeyed, RefersTo, UsersAgree;
  }

  lemma UserEditKeepsInv(c: Context, s: State, t: State)
    requires UserEdit(s, t) && Inv(c, s) && WellKeyed(s) && WellKeyed(t)
    ensures Inv(c, t)
  {
    forall u, k | UserBelongs(t, u, k) && !UserBelongs(s, u, k) ensures Due(t, k) {
      assert Targets(t, UserChanged(t.users[UserKey(u)]), k);
    }
    hide Inv, UserEdit, Due, UnderWay, Current, WellKeyed, UserBelongs;
    forall k | Due(s, k) ensures Due(t, k) {
      UserEditKeepsDue(s, t, k);
    }
    forall k | !Due(t, k) {
      UserEditKeepsUnderWay(c, s, t, k);
    }
    EditKeepsInv(c, s, t);
  }

  lemma AccountEventIsEdit(c: Context, s: State, e: Event)
    requires (e.SetAccount? || e.DropAccount?) && Enabled(c, s, e) && WellKeyed(s)
    ensures AccountEdit(s, Next(c, s, e)) && WellKeyed(Next(c, s, e))
  {}

  lemma UserEventIsEdit(c: Context, s: State, e: Event)
    requires (e.SetUser? || e.DropUser?) && Enabled(c, s, e) && WellKeyed(s)
    ensures UserEdit(s, Next(c, s, e)) && WellKeyed(Next(c, s, e))
  {}

  // ---- notices ----

  /** What has been read is judged by the declared objects alone. */
  lemma SameObjects(s: State, t: State)
    requires s.accounts == t.accounts && s.users == t.users
    ensures forall k, accounts :: AccountsAgree(s, k, accounts) == AccountsAgree(t, k, accounts)
    ensures forall accounts, users :: UsersAgree(s, accounts, users) == UsersAgree(t, accounts, users)
    ensures forall a, k :: Belongs(s, a, k) == Belongs(t, a, k)
    ensures forall u, k :: UserBelongs(s, u, k) == UserBelongs(t, u, k)
    ensures WellKeyed(s) == WellKeyed(t)
  {
    hide RefersTo;
  }

  function ContentOf(m: map<Key, string>, k: Key): Option<string>
  {
    if k in m then Some(m[k]) else None
  }

  /** Objects read by a pass are as they were; live clusters that were due, or are new or touched, are due. */
  ghost predicate Notice(s: State, t: State)
  {
    && t == s.(clusters := t.clusters, configMaps := t.configMaps, statuses := t.statuses, pending := t.pending,
               queue := t.queue)
    && (forall k <- t.clusters :: Due(s, k) || k !in s.clusters ==> Due(t, k))
    && (forall k <- t.clusters :: ContentOf(s.configMaps, k) != ContentOf(t.configMaps, k) ==> Due(t, k))
  }

  lemma SameReading(s: State, t: State, k: Key, accounts: seq<Account>, users: seq<User>)
    requires s.accounts == t.accounts && s.users == t.users
    ensures AccountsAgree(s, k, accounts) == AccountsAgree(t, k, accounts)
    ensures UsersAgree(s, accounts, users) == UsersAgree(t, accounts, users)
  {
    hide RefersTo;
  }

  lemma SameCurrent(s: State, t: State, k: Key, b: Basis)
    requires s.accounts == t.accounts && s.users == t.users && s.secrets == t.secrets
    ensures Current(s, k, b) == Current(t, k, b)
  {
    SameReading(s, t, k, b.accounts, b.users);
    hide AccountsAgree, UsersAgree, Resolved;
  }

  /** The worker's accounts and users, as far as it has read any. */
  function ReadSoFar(w: Worker): (seq<Account>, seq<User>)
  {
    match w
    case ReadAccounts(_, accounts, _) => (accounts, [])
    case ReadUsers(_, accounts, _, users, _) => (accounts, users)
    case Prepared(_, b, _, _) => (b.accounts, b.users)
    case Finishing(_, b, _, _) => (b.accounts, b.users)
    case _ => ([], [])
  }

  lemma SameUnderWay(c: Context, s: State, t: State, k: Key)
    requires s.accounts == t.accounts && s.users == t.users && s.secrets == t.secrets && s.worker == t.worker
    requires s.basis == t.basis && ContentOf(s.configMaps, k) == ContentOf(t.configMaps, k)
    ensures UnderWay(c, s, k) == UnderWay(c, t, k)
  {
    SameReading(s, t, k, ReadSoFar(s.worker).0, ReadSoFar(s.worker).1);
    if s.worker.Prepared? || s.worker.Finishing? {
      SameCurrent(s, t, k, s.worker.basis);
    }
    hide AccountsAgree, UsersAgree, Current, Published;
  }

  lemma SameFresh(c: Context, s: State, t: State, k: Key)
    requires s.accounts == t.accounts && s.users == t.users && s.secrets == t.secrets
    requires s.basis == t.basis && s.silent == t.silent && ContentOf(s.configMaps, k) == ContentOf(t.configMaps, k)
    ensures Fresh(c, s, k) == Fresh(c, t, k)
  {
    if k in s.basis {
      SameCurrent(s, t, k, s.basis[k]);
    }
    hide Current, Published, Whole, Restricts;
  }

  lemma NoticeKeepsApart(c: Context, s: State, t: State)
    requires Notice(s, t) && Apart(c, s) && WellKeyed(s)
    ensures Apart(c, t) && WellKeyed(t)
  {
    SameObjects(s, t);
    hide Due, AccountsAgree, UsersAgree, RefersTo, Belongs, UserBelongs, WellKeyed, Restricts;
  }

  lemma NoticeKeepsInv(c: Context, s: State, t: State)
    requires Notice(s, t) && Inv(c, s)
    ensures Inv(c, t)
  {
    NoticeKeepsApart(c, s, t);
    hide Due, UnderWay, Fresh, WellKeyed, Apart;
    forall k | k in t.clusters && !Due(t, k) ensures Covered(c, t, k) && UnderWay(c, s, k) == UnderWay(c, t, k) {
      SameUnderWay(c, s, t, k);
      SameFresh(c, s, t, k);
    }
  }

  lemma DeliverKeepsDue(c: Context, s: State, e: Event, k: Key)
    requires e.Deliver? && Enabled(c, s, e) && NothingLost(e) && WellKeyed(s)
    requires k in s.clusters && Due(s, k)
    ensures Due(Next(c, s, e), k)
  {
    var t := Next(c, s, e);
    if k !in t.queue {
      var note :| note in s.pending && Targets(s, note, k);
      assert note in t.pending && Targets(t, note, k);
    }
  }

  lemma ReportKeepsInv(c: Context, s: State, e: Event)
    requires Enabled(c, s, e) && Inv(c, s)
    requires e.SetCluster? || e.DropCluster? || e.TouchConfigMap? || e.TouchStatus? || e.Enqueue?
    ensures Inv(c, Next(c, s, e))
  {
    var t := Next(c, s, e);
    forall k | Due(s, k) ensures Due(t, k) {
      if k !in s.queue {
        var note :| note in s.pending && Targets(s, note, k);
        assert note in t.pending && Targets(t, note, k);
      }
    }
    if e.SetCluster? || e.DropCluster? {
      assert Targets(t, ClusterChanged(e.key), e.key);
    } else if e.TouchConfigMap? {
      assert Targets(t, ConfigMapChanged(e.key), e.key);
    }
    hide Inv, Due, Targets;
    assert Notice(s, t);
    NoticeKeepsInv(c, s, t);
  }

  lemma DeliverKeepsInv(c: Context, s: State, e: Event)
    requires e.Deliver? && Enabled(c, s, e) && NothingLost(e) && Inv(c, s)
    ensures Inv(c, Next(c, s, e))
  {
    assert WellKeyed(s);
    var t := Next(c, s, e);
    hide Inv, Requests, Due, Targets, WellKeyed;
    forall k | k in t.clusters && Due(s, k) ensures Due(t, k) {
      DeliverKeepsDue(c, s, e, k);
    }
    assert Notice(s, t);
    NoticeKeepsInv(c, s, t);
  }
}
