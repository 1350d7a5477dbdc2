/**
 * What a pass does when a namespace cannot be fetched: the user is left out of the config. When that makes
 * the result differ from what is declared.
 */
module Drops {
  import opened Text
  import opened Sorting
  import opened Api
  import opened Rules
  import opened Secrets
  import opened Convert
  import opened Resolve
  import opened ResolveTheorems
  import opened Freshness

  /** The same for one evaluation. */
  ghost predicate RestrictsEnv(part: Env, whole: Env)
  {
    && part.compiles == whole.compiles && part.matches == whole.matches
    && forall left: nat :: part.fetch(left).Fetched? ==> part.fetch(left) == whole.fetch(left)
  }

  /** A verdict reached with some fetches failing is the true one unless it is a failure. */
  lemma {:induction false} RestrictedVerdict(part: Env, whole: Env, rules: seq<UserRule>, userNs: string,
                                             accountNs: string)
    requires RestrictsEnv(part, whole) && !Evaluate(part, rules, userNs, accountNs).Failed?
    ensures Evaluate(whole, rules, userNs, accountNs) == Evaluate(part, rules, userNs, accountNs)
  {
    if rules != [] && RuleMatchesUser(part, rules[0], userNs, accountNs, |rules|) == Miss {
      RestrictedVerdict(part, whole, rules[1..], userNs, accountNs);
    }
  }

  /** A dropped user is refused for now; anybody else gets the true verdict. */
  lemma JudgedWithout(part: World, whole: World, a: Account, u: User)
    requires Restricts(part, whole) && RegexesValid(part.compiles, a.userRules) && References(u, a)
    ensures Dropped(part, a, u) <==> Judge(part, a, u).Failed?
    ensures !Dropped(part, a, u) ==> Judge(part, a, u) == Judge(whole, a, u)
  {
    var p, w := part.At(AccountKey(a), UserKey(u)), whole.At(AccountKey(a), UserKey(u));
    FailureIsNamespaceFetch(p, a.userRules, u.namespace, a.namespace);
    assert RestrictsEnv(p, w);
    if !Judge(part, a, u).Failed? {
      RestrictedVerdict(p, w, a.userRules, u.namespace, a.namespace);
    }
    hide RegexesValid, FetchBlocks, Evaluate;
  }

  lemma {:induction false} RestrictedKept(part: World, whole: World, accounts: seq<Account>)
    requires part.compiles == whole.compiles
    ensures Kept(part, accounts) == Kept(whole, accounts)
  {
    if accounts != [] {
      RestrictedKept(part, whole, accounts[..|accounts| - 1]);
    }
    hide RegexesValid;
  }

  lemma {:induction false} SameAdmitted(part: World, whole: World, a: Account, users: seq<User>)
    requires forall u <- users :: Admits(part, a, u) == Admits(whole, a, u)
    ensures AdmittedUsers(part, a, users) == AdmittedUsers(whole, a, users)
  {
    if users != [] {
      var front, last := users[..|users| - 1], users[|users| - 1];
      assert last in users;
      assert forall u <- front :: u in users;
      SameAdmitted(part, whole, a, front);
    }
    hide Admits;
  }

  lemma CompleteResolved(part: World, whole: World, accounts: seq<Account>, users: seq<User>, secrets: map<Key, Stored>,
                         out: seq<AccountWithUsers>)
    requires Restricts(part, whole) && MissesNobody(part, whole, accounts, users)
    requires Resolved(part, accounts, users, secrets, out)
    ensures Resolved(whole, accounts, users, secrets, out)
  {
    RestrictedKept(part, whole, accounts);
    forall i | 0 <= i < |out| ensures IsListing(whole, out[i].account, users, secrets, out[i].users) {
      var a := out[i].account;
      KeptAreListed(part, accounts, a);
      forall u | u in users ensures Admits(part, a, u) == Admits(whole, a, u) {
        if References(u, a) {
          JudgedWithout(part, whole, a, u);
        }
      }
      SameAdmitted(part, whole, a, users);
    }
    hide Kept, Judge, References, WithKeys, AdmittedUsers, Restricts, RegexesValid, Dropped;
  }

  /**
   * A pass renders what is declared exactly when no evaluation for a user whom a processed account admits
   * stops at a label rule because fetching the namespace fails.
   */
  lemma RightExactlyIfNobodyMissed(part: World, whole: World, accounts: seq<Account>, users: seq<User>,
                                   secrets: map<Key, Stored>, out: seq<AccountWithUsers>)
    requires Restricts(part, whole) && Resolved(part, accounts, users, secrets, out)
    ensures Resolved(whole, accounts, users, secrets, out) <==> MissesNobody(part, whole, accounts, users)
  {
    if MissesNobody(part, whole, accounts, users) {
      CompleteResolved(part, whole, accounts, users, secrets, out);
    } else {
      var a, u :| a in accounts && u in users && RegexesValid(part.compiles, a.userRules) && Dropped(part, a, u)
                  && Admits(whole, a, u);
      JudgedWithout(part, whole, a, u);
      MembershipExactly(part, accounts, users, secrets, out, u, a);
      if Resolved(whole, accounts, users, secrets, out) {
        MembershipExactly(whole, accounts, users, secrets, out, u, a);
      }
    }
    hide Resolved, RegexesValid, Judge, References, Dropped;
  }
}
