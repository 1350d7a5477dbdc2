/**
 * When the printed text is determined by the declared objects: users are sorted by name alone, so two
 * users of one account with the same name leave their order, and the hash, open.
 */
module ListingOrder {
  import opened Text
  import opened Sorting
  import opened Api
  import opened Rules
  import opened Secrets
  import opened NatsConfig
  import opened ConfigText
  import opened Convert
  import opened Resolve
  import opened ResolveTheorems

  /** The part of the converted config that is printed. */
  function ConfigOf(out: seq<AccountWithUsers>): Config
  {
    Config(Designated(FlaggedNames(out)), [], ConvertedAccounts(out))
  }

  function Swapped<T>(s: seq<T>, j: nat): seq<T>
    requires j + 1 < |s|
  {
    s[j := s[j + 1]][j + 1 := s[j]]
  }

  function WithSwap(out: seq<AccountWithUsers>, i: nat, j: nat): seq<AccountWithUsers>
    requires i < |out| && j + 1 < |out[i].users|
  {
    out[i := out[i].(users := Swapped(out[i].users, j))]
  }

  lemma SwapKeepsElements<T>(s: seq<T>, j: nat)
    requires j + 1 < |s|
    ensures multiset(Swapped(s, j)) == multiset(s)
  {
    assert s == s[..j] + [s[j], s[j + 1]] + s[j + 2..];
    assert Swapped(s, j) == s[..j] + [s[j + 1], s[j]] + s[j + 2..];
  }

  /** Neighbours of the same name can be swapped: the result is as good a sort. */
  lemma SwapKeepsListing(env: World, a: Account, users: seq<User>, secrets: map<Key, Stored>, listed: seq<UserWithKey>,
                         j: nat)
    requires IsListing(env, a, users, secrets, listed)
    requires j + 1 < |listed| && ListedName(listed[j]) == ListedName(listed[j + 1])
    ensures IsListing(env, a, users, secrets, Swapped(listed, j))
  {
    SwapKeepsElements(listed, j);
    var s := Swapped(listed, j);
    forall k, l | 0 <= k < l < |s| ensures Le(ListedName(s[k]), ListedName(s[l])) {
      assert ListedName(s[k]) == ListedName(listed[k]) && ListedName(s[l]) == ListedName(listed[l]);
    }
    hide WithKeys, AdmittedUsers;
  }

  lemma SwapKeepsResolved(env: World, accounts: seq<Account>, users: seq<User>, secrets: map<Key, Stored>,
                          out: seq<AccountWithUsers>, i: nat, j: nat)
    requires Resolved(env, accounts, users, secrets, out)
    requires i < |out| && j + 1 < |out[i].users| && ListedName(out[i].users[j]) == ListedName(out[i].users[j + 1])
    ensures Resolved(env, accounts, users, secrets, WithSwap(out, i, j))
  {
    SwapKeepsListing(env, out[i].account, users, secrets, out[i].users, j);
    hide IsListing, Kept, Swapped;
  }

  /** Swapping two users with different keys changes the text. */
  lemma SwapChangesText(out: seq<AccountWithUsers>, i: nat, j: nat)
    requires LegalInput(out) && DistinctNames(out)
    requires i < |out| && j + 1 < |out[i].users| && out[i].users[j].publicKey != out[i].users[j + 1].publicKey
    ensures ConfigBody(ConfigOf(WithSwap(out, i, j))) != ConfigBody(ConfigOf(out))
  {
    var other := WithSwap(out, i, j);
    assert LegalInput(other) && DistinctNames(other);
    ConvertedConfigIsLegal(out, ConfigOf(out));
    ConvertedConfigIsLegal(other, ConfigOf(other));
    SameTextIffSameNormalForm(ConfigOf(out), ConfigOf(other));
    ConvertedAt(out, i);
    ConvertedAt(other, i);
    ServedUser(out, ConfigOf(out), i, j);
    ServedUser(other, ConfigOf(other), i, j);
    assert other[i].users[j].publicKey == out[i].users[j + 1].publicKey;
    hide ConfigBody, LegalConfig, LegalInput, DistinctNames, ConvertedAccounts, ConvertAccount, Normal, FlaggedNames;
  }

  ghost predicate DistinctKeys(out: seq<AccountWithUsers>)
  {
    forall i, j, k :: 0 <= i < |out| && 0 <= j < k < |out[i].users| ==>
           out[i].users[j].publicKey != out[i].users[k].publicKey
  }

  lemma SameNamesAreNeighbours(listed: seq<UserWithKey>) returns (j: nat)
    requires SortedBy(listed, ListedName) && !DistinctBy(listed, ListedName)
    ensures j + 1 < |listed| && ListedName(listed[j]) == ListedName(listed[j + 1])
  {
    var k, l :| 0 <= k < l < |listed| && ListedName(listed[k]) == ListedName(listed[l]);
    j := k;
    if k + 1 < l {
      LeAntisymmetric(ListedName(listed[k]), ListedName(listed[k + 1]));
    }
  }

  lemma ListingIsSorted(env: World, accounts: seq<Account>, users: seq<User>, secrets: map<Key, Stored>,
                        out: seq<AccountWithUsers>, i: nat)
    requires Resolved(env, accounts, users, secrets, out) && i < |out|
    ensures SortedBy(out[i].users, ListedName)
  {}

  /**
   * Given the declared objects and the stored credentials, the text is determined exactly when user
   * names are distinct within each account.
   */
  lemma TextIsDeterminedExactly(env: World, accounts: seq<Account>, users: seq<User>, secrets: map<Key, Stored>,
                                out: seq<AccountWithUsers>)
    requires Resolved(env, accounts, users, secrets, out) && DistinctAccountNames(accounts)
    requires LegalInput(out) && DistinctKeys(out)
    ensures NamesDistinct(out)
            <==> forall other: seq<AccountWithUsers> ::
                   Resolved(env, accounts, users, secrets, other) ==>
                   ConfigBody(ConfigOf(other)) == ConfigBody(ConfigOf(out))
  {
    hide Resolved, ConfigBody, ConfigOf, LegalInput;
    if NamesDistinct(out) {
      forall other | Resolved(env, accounts, users, secrets, other) ensures other == out {
        UserOrderIsIrrelevant(env, accounts, users, users, secrets, out, other);
      }
    } else {
      var i :| 0 <= i < |out| && !DistinctBy(out[i].users, ListedName);
      ListingIsSorted(env, accounts, users, secrets, out, i);
      var j := SameNamesAreNeighbours(out[i].users);
      OutputNamesDistinct(env, accounts, users, secrets, out);
      SwapKeepsResolved(env, accounts, users, secrets, out, i, j);
      SwapChangesText(out, i, j);
    }
  }
}
