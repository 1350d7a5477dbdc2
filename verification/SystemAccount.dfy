/**
 * The system account is designated twice: the operator counts all flagged accounts of the cluster when
 * it stamps users, the converter only those not skipped when it writes the directive.
 */
module SystemAccount {
  import opened Text
  import opened Api
  import opened Sorting
  import opened Rules
  import opened Secrets
  import opened Convert
  import opened Resolve
  import opened ResolveTheorems

  /** The account in the system_account directive; "" for none. */
  function Directive(env: World, accounts: seq<Account>): string
  {
    Designated(AllFlagged(Kept(env, accounts)))
  }

  lemma {:induction false} FlaggedOfOutput(accounts: seq<Account>, out: seq<AccountWithUsers>)
    requires |out| == |accounts| && forall i :: 0 <= i < |out| ==> out[i].account == accounts[i]
    ensures FlaggedNames(out) == AllFlagged(accounts)
  {
    if out != [] {
      FlaggedOfOutput(accounts[..|accounts| - 1], out[..|out| - 1]);
    }
  }

  /** The directive the converter writes is determined by the accounts that were not skipped. */
  lemma DirectiveOfOutput(env: World, accounts: seq<Account>, users: seq<User>, secrets: map<Key, Stored>,
                          out: seq<AccountWithUsers>)
    requires Resolved(env, accounts, users, secrets, out)
    ensures Designated(FlaggedNames(out)) == Directive(env, accounts)
  {
    FlaggedOfOutput(Kept(env, accounts), out);
    hide IsListing, Kept;
  }

  lemma {:induction false} FlaggedExactly(accounts: seq<Account>, n: string)
    ensures n in AllFlagged(accounts) <==> exists a <- accounts :: a.systemAccount && a.name == n
  {
    if accounts != [] {
      var front, last := accounts[..|accounts| - 1], accounts[|accounts| - 1];
      FlaggedExactly(front, n);
      assert accounts == front + [last];
      if last.systemAccount && last.name == n {
        assert last in accounts;
      }
      forall a | a in front ensures a in accounts {}
    }
  }

  lemma {:induction false} FewerFlagged(env: World, accounts: seq<Account>)
    ensures |AllFlagged(Kept(env, accounts))| <= |AllFlagged(accounts)|
  {
    if accounts != [] {
      var front, last := accounts[..|accounts| - 1], accounts[|accounts| - 1];
      FewerFlagged(env, front);
      if RegexesValid(env.compiles, last.userRules) {
        assert Kept(env, accounts)[..|Kept(env, accounts)| - 1] == Kept(env, front);
      } else {
        assert Kept(env, accounts) == Kept(env, front);
      }
    }
    hide RegexesValid;
  }

  ghost predicate NamedAccounts(accounts: seq<Account>)
  {
    DistinctAccountNames(accounts) && forall a <- accounts :: a.name != ""
  }

  lemma SameNameSameAccount(accounts: seq<Account>, a: Account, b: Account)
    requires DistinctAccountNames(accounts) && a in accounts && b in accounts && a.name == b.name
    ensures a == b
  {
    var i :| 0 <= i < |accounts| && accounts[i] == a;
    var j :| 0 <= j < |accounts| && accounts[j] == b;
    assert AccountName(accounts[i]) == AccountName(accounts[j]);
  }

  /** The stamp a welcomed user of account a gets. */
  predicate Stamp(accounts: seq<Account>, a: Account)
  {
    Designated(AllFlagged(accounts)) != "" && a.name == Designated(AllFlagged(accounts))
  }

  /** Account k is flagged and no other is. */
  ghost predicate OnlyFlagged(accounts: seq<Account>, k: nat)
  {
    && k < |accounts| && accounts[k].systemAccount
    && forall l :: 0 <= l < |accounts| && accounts[l].systemAccount ==> l == k
  }

  ghost predicate NoneFlagged(accounts: seq<Account>)
  {
    forall l :: 0 <= l < |accounts| ==> !accounts[l].systemAccount
  }

  lemma OnlyFlaggedGrows(accounts: seq<Account>, k: nat)
    requires accounts != []
    ensures var n := |accounts| - 1;
            && (NoneFlagged(accounts) <==> NoneFlagged(accounts[..n]) && !accounts[n].systemAccount)
            && (OnlyFlagged(accounts, k)
                <==> if accounts[n].systemAccount then k == n && NoneFlagged(accounts[..n])
                     else OnlyFlagged(accounts[..n], k))
  {
    var n := |accounts| - 1;
    assert forall l :: 0 <= l < n ==> accounts[..n][l] == accounts[l];
  }

  lemma {:induction false} FlaggedCount(accounts: seq<Account>)
    ensures AllFlagged(accounts) == [] <==> NoneFlagged(accounts)
    ensures |AllFlagged(accounts)| == 1 <==> exists k: nat :: OnlyFlagged(accounts, k)
    ensures forall k: nat | OnlyFlagged(accounts, k) :: k < |accounts| && AllFlagged(accounts) == [accounts[k].name]
  {
    if accounts != [] {
      var n := |accounts| - 1;
      FlaggedCount(accounts[..n]);
      forall k: nat {
        OnlyFlaggedGrows(accounts, k);
      }
      forall k: nat | OnlyFlagged(accounts, k)
        ensures k < |accounts| && AllFlagged(accounts) == [accounts[k].name]
      {
        assert accounts[n].systemAccount || accounts[..n][k] == accounts[k];
      }
      hide OnlyFlagged, NoneFlagged;
      if accounts[n].systemAccount && NoneFlagged(accounts[..n]) {
        assert OnlyFlagged(accounts, n);
      }
      if !accounts[n].systemAccount && (exists k: nat :: OnlyFlagged(accounts[..n], k)) {
        var k: nat :| OnlyFlagged(accounts[..n], k);
        assert OnlyFlagged(accounts, k);
      }
    }
  }

  /** An account is designated exactly when it is flagged and no other account is. */
  lemma StampedExactly(accounts: seq<Account>, a: Account)
    ensures Stamp(accounts, a)
            <==> a.name != "" && exists k: nat :: OnlyFlagged(accounts, k) && accounts[k].name == a.name
  {
    FlaggedCount(accounts);
    hide AllFlagged;
  }

  /** A user stamped as belonging to the system account is in the account the directive names. */
  lemma StampedIsDesignated(env: World, accounts: seq<Account>, a: Account)
    requires NamedAccounts(accounts) && a in Kept(env, accounts) && Stamp(accounts, a)
    ensures a.name == Directive(env, accounts)
  {
    KeptAreListed(env, accounts, a);
    FewerFlagged(env, accounts);
    FlaggedExactly(accounts, a.name);
    assert AllFlagged(accounts)[0] in AllFlagged(accounts);
    var b :| b in accounts && b.systemAccount && b.name == a.name;
    SameNameSameAccount(accounts, a, b);
    FlaggedExactly(Kept(env, accounts), a.name);
    assert AllFlagged(Kept(env, accounts))[0] == a.name;
    hide Kept, AllFlagged, RegexesValid;
  }

  /** Several accounts are flagged, but all except one of them are skipped. */
  predicate HiddenConflict(env: World, accounts: seq<Account>)
  {
    |AllFlagged(accounts)| >= 2 && |AllFlagged(Kept(env, accounts))| == 1
  }

  /**
   * The account named by the directive has its users stamped exactly when there is no conflict that
   * skipping hides from the converter.
   */
  lemma DesignatedIsStampedExactly(env: World, accounts: seq<Account>, a: Account)
    requires NamedAccounts(accounts) && a in Kept(env, accounts) && a.name == Directive(env, accounts)
    ensures Stamp(accounts, a) <==> !HiddenConflict(env, accounts)
  {
    KeptAreListed(env, accounts, a);
    FewerFlagged(env, accounts);
    FlaggedExactly(Kept(env, accounts), a.name);
    assert AllFlagged(Kept(env, accounts))[0] in AllFlagged(Kept(env, accounts));
    var b :| b in Kept(env, accounts) && b.systemAccount && b.name == a.name;
    KeptAreListed(env, accounts, b);
    FlaggedExactly(accounts, a.name);
    hide Kept, RegexesValid;
  }

  lemma {:induction false} NothingFlaggedSkipped(env: World, accounts: seq<Account>)
    requires forall a <- accounts :: a.systemAccount ==> RegexesValid(env.compiles, a.userRules)
    ensures AllFlagged(Kept(env, accounts)) == AllFlagged(accounts)
  {
    if accounts != [] {
      var front, last := accounts[..|accounts| - 1], accounts[|accounts| - 1];
      NothingFlaggedSkipped(env, front);
      assert last in accounts;
      if RegexesValid(env.compiles, last.userRules) {
        assert Kept(env, accounts)[..|Kept(env, accounts)| - 1] == Kept(env, front);
      } else {
        assert Kept(env, accounts) == Kept(env, front);
      }
    }
    hide RegexesValid;
  }

  /** If every flagged account passes regex validation, stamp and directive always agree. */
  lemma ValidFlaggedAgree(env: World, accounts: seq<Account>, a: Account)
    requires NamedAccounts(accounts) && a in Kept(env, accounts)
    requires forall b <- accounts :: b.systemAccount ==> RegexesValid(env.compiles, b.userRules)
    ensures Stamp(accounts, a) <==> a.name == Directive(env, accounts)
  {
    NothingFlaggedSkipped(env, accounts);
    KeptAreListed(env, accounts, a);
    hide AllFlagged, Kept, RegexesValid;
  }

  /** The stamps a successful pass leaves on the users it admitted. */
  lemma StampsAfterPass(env: World, accounts: seq<Account>, links: Links, luck: PassLuck, was: seq<LiveUser>,
                        now: seq<LiveUser>, before: map<Key, Stored>, after: map<Key, Stored>, t: nat)
    requires AccountsDone(env, accounts, SiteOf(accounts, links), luck, was, now, before, after)
    requires t < |was| && Welcomed(env, accounts, was[t].spec)
    ensures var a := Home(env, accounts, was[t].spec).value;
            a in Kept(env, accounts) && (now[t].status.isSystemAccount <==> Stamp(accounts, a))
  {
    HomeIsListed(env, accounts, was[t].spec);
    KeptAreListed(env, accounts, Home(env, accounts, was[t].spec).value);
    hide Home, Kept, RegexesValid, AllFlagged, EnsureSucceeds, Issued, SameSecret;
  }

  /** Two flagged accounts, one with a broken regex: the directive names the other, its users are not stamped. */
  lemma HiddenConflictHappens(env: World, good: Account, broken: Account)
    requires good.systemAccount && broken.systemAccount && good.name != "" && good.name != broken.name
    requires RegexesValid(env.compiles, good.userRules) && !RegexesValid(env.compiles, broken.userRules)
    ensures HiddenConflict(env, [broken, good])
    ensures Directive(env, [broken, good]) == good.name && !Stamp([broken, good], good)
  {
    var accounts := [broken, good];
    assert accounts[..1] == [broken] && [broken][..0] == [];
    assert Kept(env, [broken]) == [];
    assert Kept(env, accounts) == Kept(env, [broken]) + [good];
    assert AllFlagged(accounts) == AllFlagged([broken]) + [good.name];
    assert AllFlagged([broken]) == [broken.name] && AllFlagged([good]) == [good.name];
    hide RegexesValid;
  }
}
