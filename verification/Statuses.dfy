/**
 * internal/controller/natscluster_controller.go: what is recorded about users and accounts once a pass has
 * tried to write their statuses.
 */
module Statuses {
  import opened Text
  import opened Sorting
  import opened Api
  import opened Rules
  import opened Secrets
  import opened Convert
  import opened Resolve
  import opened Freshness

  // ---- writes that change nothing ----

  ghost predicate AllRecorded(statuses: map<Object, Status>, writes: seq<Attempt>)
  {
    forall w <- writes :: Records(statuses, w)
  }

  /** Writes change nothing exactly when each says what is recorded already. */
  lemma {:induction false} UnchangedExactly(statuses: map<Object, Status>, writes: seq<Attempt>)
    ensures Changed(statuses, writes) == {} <==> AllRecorded(statuses, writes)
    ensures Changed(statuses, writes) == {} ==> AfterWrites(statuses, writes) == statuses
  {
    if writes != [] {
      var front, last := writes[..|writes| - 1], writes[|writes| - 1];
      assert writes == front + [last];
      UnchangedExactly(statuses, front);
      if AllRecorded(statuses, writes) {
        assert last in writes;
        assert forall w <- front :: w in writes;
      }
    }
  }

  lemma {:induction false} AllAccepted(attempts: seq<Attempt>, accepted: seq<bool>)
    requires |accepted| == |attempts| && false !in accepted
    ensures Recorded(attempts, accepted) == attempts
  {
    if attempts != [] {
      var n := |attempts| - 1;
      assert accepted[n] in accepted;
      AllAccepted(attempts[..n], accepted[..n]);
      assert attempts == attempts[..n] + [attempts[n]];
    }
  }

  lemma {:induction false} OtherStatusStays(statuses: map<Object, Status>, writes: seq<Attempt>, x: Attempt)
    requires forall w <- writes :: w.target != x.target
    ensures Records(AfterWrites(statuses, writes), x) == Records(statuses, x)
  {
    if writes != [] {
      var front, last := writes[..|writes| - 1], writes[|writes| - 1];
      assert last in writes;
      assert forall w <- front :: w in writes;
      OtherStatusStays(statuses, front, x);
    }
  }

  lemma ChangedSummary(statuses: map<Object, Status>, x: Attempt)
    ensures Changed(statuses, [x]) == if Records(statuses, x) then {} else {x.target}
  {
    assert [x][..0] == [];
  }

  // ---- what is attempted ----

  lemma {:induction false} UserIsAttempted(env: World, accounts: seq<Account>, site: Site, users: seq<User>,
                                           seen: map<Object, Status>, secrets: map<Key, Stored>, u: User)
    requires u in users && Home(env, accounts, u).Some?
    ensures UserAttempt(env, Home(env, accounts, u).value, site, seen, secrets, u)
            in UserAttempts(env, accounts, site, users, seen, secrets)
  {
    hide Settled, LiveUserOf, Home;
    if u != users[|users| - 1] {
      UserIsAttempted(env, accounts, site, users[..|users| - 1], seen, secrets, u);
    }
  }

  ghost predicate OneEach(attempts: seq<Attempt>)
  {
    forall x, y | x in attempts && y in attempts && x.target == y.target :: x == y
  }

  /** Writes about different objects are all recorded in the end. */
  lemma {:induction false} RecordedInTheEnd(statuses: map<Object, Status>, writes: seq<Attempt>)
    requires OneEach(writes)
    ensures AllRecorded(AfterWrites(statuses, writes), writes)
  {
    if writes != [] {
      var front, last := writes[..|writes| - 1], writes[|writes| - 1];
      assert writes == front + [last];
      assert forall x <- front :: x in writes;
      RecordedInTheEnd(statuses, front);
    }
  }

  lemma {:induction false} UserAttemptsAre(env: World, accounts: seq<Account>, site: Site, users: seq<User>,
                                           seen: map<Object, Status>, secrets: map<Key, Stored>, x: Attempt)
    requires x in UserAttempts(env, accounts, site, users, seen, secrets)
    ensures exists u <- users ::
              Home(env, accounts, u).Some?
              && x == UserAttempt(env, Home(env, accounts, u).value, site, seen, secrets, u)
  {
    hide Settled, LiveUserOf, Home;
    var front, u := users[..|users| - 1], users[|users| - 1];
    if x in UserAttempts(env, accounts, site, front, seen, secrets) {
      UserAttemptsAre(env, accounts, site, front, seen, secrets, x);
    } else {
      assert u in users && x == UserAttempt(env, Home(env, accounts, u).value, site, seen, secrets, u);
    }
  }

  lemma {:induction false} NoConflicts(env: World, links: Links, accounts: seq<Account>, users: seq<User>,
                                       seen: map<Object, Status>)
    ensures ConflictAttempts(env, links, accounts, users, seen, []) == []
  {
    if accounts != [] {
      NoConflicts(env, links, accounts[..|accounts| - 1], users, seen);
    }
  }

  lemma UsersOnce(env: World, accounts: seq<Account>, site: Site, users: seq<User>, seen: map<Object, Status>,
                  secrets: map<Key, Stored>)
    requires DistinctUsers(users)
    ensures OneEach(UserAttempts(env, accounts, site, users, seen, secrets))
    ensures forall x <- UserAttempts(env, accounts, site, users, seen, secrets) :: x.target.ThisUser?
  {
    hide Settled, Home, LiveUserOf;
    var attempts := UserAttempts(env, accounts, site, users, seen, secrets);
    forall x | x in attempts
      ensures exists u <- users ::
                Home(env, accounts, u).Some?
                && x == UserAttempt(env, Home(env, accounts, u).value, site, seen, secrets, u)
    {
      UserAttemptsAre(env, accounts, site, users, seen, secrets, x);
    }
    hide UserAttempts;
  }

  lemma AccountsOnce(env: World, links: Links, accounts: seq<Account>, users: seq<User>, seen: map<Object, Status>)
    requires DistinctAccounts(accounts)
    ensures OneEach(AccountAttempts(env, links, accounts, users, seen))
    ensures forall x <- AccountAttempts(env, links, accounts, users, seen) :: x.target.ThisAccount?
  {
    hide AccountStatusAfter;
  }

  lemma SpecStays(env: World, links: Links, users: seq<User>, recorded: map<Object, Status>, a: Account)
    ensures AccountAfterPass(env, links, users, LiveAccountOf(recorded, a)).spec == a
  {}

  /** Exactly the accounts in the conflict are written once more. */
  lemma {:induction false} ConflictAttemptsAre(env: World, links: Links, accounts: seq<Account>, users: seq<User>,
                                               seen: map<Object, Status>, conflicts: seq<string>, x: Attempt)
    ensures x in ConflictAttempts(env, links, accounts, users, seen, conflicts)
            <==> exists a <- accounts :: a.name in conflicts && x == FinalAttempt(env, links, users, seen, conflicts, a)
  {
    if accounts != [] {
      var front, last := accounts[..|accounts| - 1], accounts[|accounts| - 1];
      assert accounts == front + [last];
      ConflictAttemptsAre(env, links, front, users, seen, conflicts, x);
      SpecStays(env, links, users, seen, last);
      hide AccountAfterPass, LiveAccountOf;
    }
  }

  // ---- what is recorded in the end ----

  lemma {:induction false} WritesInTurn(statuses: map<Object, Status>, first: seq<Attempt>, second: seq<Attempt>)
    ensures AfterWrites(statuses, first + second) == AfterWrites(AfterWrites(statuses, first), second)
  {
    if second == [] {
      assert first + second == first;
    } else {
      var front := second[..|second| - 1];
      assert (first + second)[..|first + second| - 1] == first + front;
      WritesInTurn(statuses, first, front);
    }
  }

  lemma AccountRecorded(env: World, links: Links, accounts: seq<Account>, users: seq<User>, seen: map<Object, Status>,
                        conflicts: seq<string>, statuses: map<Object, Status>, a: Account)
    requires DistinctAccounts(accounts) && a in accounts
    ensures Records(AfterWrites(AfterWrites(statuses, AccountAttempts(env, links, accounts, users, seen)),
                                ConflictAttempts(env, links, accounts, users, seen, conflicts)),
                    FinalAttempt(env, links, users, seen, conflicts, a))
  {
    hide AccountAfterPass, LiveAccountOf, ConflictAttempts, AfterWrites, Records;
    var settled, marked := AccountAttempts(env, links, accounts, users, seen),
                           ConflictAttempts(env, links, accounts, users, seen, conflicts);
    var x := FinalAttempt(env, links, users, seen, conflicts, a);
    forall y ensures y in marked <==>
                     exists b <- accounts :: b.name in conflicts
                            && y == FinalAttempt(env, links, users, seen, conflicts, b)
    {
      ConflictAttemptsAre(env, links, accounts, users, seen, conflicts, y);
    }
    SpecStays(env, links, users, seen, a);
    if a.name in conflicts {
      assert OneEach(marked);
      RecordedInTheEnd(AfterWrites(statuses, settled), marked);
      assert x in marked;
    } else {
      AccountsOnce(env, links, accounts, users, seen);
      RecordedInTheEnd(statuses, settled);
      var i :| 0 <= i < |accounts| && accounts[i] == a;
      assert settled[i] == x;
      OtherStatusStays(AfterWrites(statuses, settled), marked, x);
    }
  }

  lemma AccountWritesOnly(env: World, links: Links, accounts: seq<Account>, users: seq<User>, seen: map<Object, Status>,
                          conflicts: seq<string>)
    ensures forall x <- AccountAttempts(env, links, accounts, users, seen) :: x.target.ThisAccount?
    ensures forall x <- ConflictAttempts(env, links, accounts, users, seen, conflicts) :: x.target.ThisAccount?
  {
    forall x | x in ConflictAttempts(env, links, accounts, users, seen, conflicts) ensures x.target.ThisAccount? {
      ConflictAttemptsAre(env, links, accounts, users, seen, conflicts, x);
    }
    hide AccountStatusAfter, ConflictAttempts;
  }

  /** When every write goes through, what is recorded is the final status of every account and of every settled user. */
  lemma FinalStatusesRecorded(w: Worker, env: World, links: Links, out: seq<AccountWithUsers>,
                              secrets: map<Key, Stored>, statuses: map<Object, Status>)
    requires w.ReadUsers? && DistinctAccounts(w.accounts) && DistinctUsers(w.users)
    ensures forall a <- w.accounts ::
              Records(AfterWrites(statuses, Attempts(w, env, links, out, secrets)),
                      FinalAttempt(env, links, w.users, w.seenAccounts, ConflictNames(out), a))
    ensures forall u <- w.users :: Home(env, w.accounts, u).Some? ==>
              Records(AfterWrites(statuses, Attempts(w, env, links, out, secrets)),
                      UserAttempt(env, Home(env, w.accounts, u).value, SiteOf(w.accounts, links), w.seenUsers, secrets,
                                  u))
  {
    hide UserAttempts, AccountAttempts, ConflictAttempts, ConflictNames, SiteOf, DistinctAccounts, DistinctUsers,
      AfterWrites, Records, FinalAttempt, UserAttempt, Home;
    var site, conflicts := SiteOf(w.accounts, links), ConflictNames(out);
    var us := UserAttempts(env, w.accounts, site, w.users, w.seenUsers, secrets);
    var settled := AccountAttempts(env, links, w.accounts, w.users, w.seenAccounts);
    var marked := ConflictAttempts(env, links, w.accounts, w.users, w.seenAccounts, conflicts);
    WritesInTurn(statuses, us + settled, marked);
    WritesInTurn(statuses, us, settled);
    UsersOnce(env, w.accounts, site, w.users, w.seenUsers, secrets);
    RecordedInTheEnd(statuses, us);
    forall a | a in w.accounts
      ensures Records(AfterWrites(statuses, us + settled + marked),
                      FinalAttempt(env, links, w.users, w.seenAccounts, conflicts, a))
    {
      AccountRecorded(env, links, w.accounts, w.users, w.seenAccounts, conflicts, AfterWrites(statuses, us), a);
    }
    forall u | u in w.users && Home(env, w.accounts, u).Some?
      ensures Records(AfterWrites(statuses, us + settled + marked),
                      UserAttempt(env, Home(env, w.accounts, u).value, site, w.seenUsers, secrets, u))
    {
      var x := UserAttempt(env, Home(env, w.accounts, u).value, site, w.seenUsers, secrets, u);
      UserIsAttempted(env, w.accounts, site, w.users, w.seenUsers, secrets, u);
      AccountWritesOnly(env, links, w.accounts, w.users, w.seenAccounts, conflicts);
      OtherStatusStays(AfterWrites(statuses, us), settled, x);
      OtherStatusStays(AfterWrites(AfterWrites(statuses, us), settled), marked, x);
    }
  }
}
