/**
 * internal/controller/user_rule_evaluator.go: ordered user rules, first match decides; and the
 * offline evaluation of the same rules in cmd/cli/cmd/validate.go.
 */
module Rules {
  import opened Text
  import opened Api

  type Labels = map<string, string>

  /** The answer to one namespace fetch. */
  datatype Fetch = Fetched(labels: Labels) | FetchError(text: string)

  /**
   * What one evaluation meets: the regex engine, and the answer to the namespace fetch it makes for a
   * rule, by the number of rules from that one on. Every label rule fetches anew.
   */
  datatype Env = Env(compiles: string -> bool, matches: (string, string) -> bool, fetch: nat -> Fetch)

  datatype RuleResult = Hit | Miss | BadRegex(pattern: string) | FetchFailed(text: string)

  datatype Verdict = Granted | Denied | Failed(text: string)

  const GRANT := "grant"
  const DENY := "deny"

  /** Go's map lookup: a missing label reads as the empty string. */
  function LabelValue(labels: map<string, string>, k: string): string
  {
    if k in labels then labels[k] else ""
  }

  predicate LabelsMatch(wanted: map<string, string>, have: map<string, string>)
  {
    forall k <- wanted :: LabelValue(have, k) == wanted[k]
  }

  predicate IsLabelRule(rule: UserRule)
  {
    rule.sameNamespace != Some(true) && rule.namespaceRegex.None? && rule.namespaceLabels.Some?
  }

  /** ruleMatchesUser, for the rule from which on there are left rules. */
  function RuleMatchesUser(env: Env, rule: UserRule, userNs: string, accountNs: string, left: nat): RuleResult
  {
    if rule.sameNamespace == Some(true) then
      if userNs == accountNs then Hit else Miss
    else if rule.namespaceRegex.Some? then
      if !env.compiles(rule.namespaceRegex.value) then BadRegex(rule.namespaceRegex.value)
      else if env.matches(rule.namespaceRegex.value, userNs) then Hit
      else Miss
    else if rule.namespaceLabels.Some? then
      match env.fetch(left)
      case FetchError(text) => FetchFailed(text)
      case Fetched(labels) => if LabelsMatch(rule.namespaceLabels.value, labels) then Hit else Miss
    else Miss
  }

  predicate RegexesValid(compiles: string -> bool, rules: seq<UserRule>)
  {
    forall i :: 0 <= i < |rules| && rules[i].namespaceRegex.Some? ==> compiles(rules[i].namespaceRegex.value)
  }

  /** ValidateRegexRules: the first regex that does not compile, whether or not its rule would use it. */
  function ValidateRegexRules(compiles: string -> bool, rules: seq<UserRule>): (r: Option<string>)
    ensures r == None <==> RegexesValid(compiles, rules)
  {
    if rules == [] then None
    else if rules[0].namespaceRegex.Some? && !compiles(rules[0].namespaceRegex.value) then rules[0].namespaceRegex
    else ValidateRegexRules(compiles, rules[1..])
  }

  /** Rule k holds the first regex that does not compile. */
  ghost predicate BrokenAt(compiles: string -> bool, rules: seq<UserRule>, k: nat)
  {
    && k < |rules| && rules[k].namespaceRegex.Some? && !compiles(rules[k].namespaceRegex.value)
    && forall l :: 0 <= l < k && rules[l].namespaceRegex.Some? ==> compiles(rules[l].namespaceRegex.value)
  }

  lemma {:induction false} FirstBrokenReported(compiles: string -> bool, rules: seq<UserRule>)
    ensures ValidateRegexRules(compiles, rules).Some?
            ==> exists k: nat :: BrokenAt(compiles, rules, k)
                                 && rules[k].namespaceRegex == ValidateRegexRules(compiles, rules)
  {
    if rules != [] {
      FirstBrokenReported(compiles, rules[1..]);
      if rules[0].namespaceRegex.Some? && !compiles(rules[0].namespaceRegex.value) {
        assert BrokenAt(compiles, rules, 0);
      } else if k: nat :| && BrokenAt(compiles, rules[1..], k)
                          && rules[1..][k].namespaceRegex == ValidateRegexRules(compiles, rules[1..]) {
        assert BrokenAt(compiles, rules, k + 1);
      }
    }
  }

  /** Evaluate */
  function Evaluate(env: Env, rules: seq<UserRule>, userNs: string, accountNs: string): Verdict
  {
    if rules == [] then Denied else
      match RuleMatchesUser(env, rules[0], userNs, accountNs, |rules|)
      case Hit => if rules[0].action == GRANT then Granted else Denied
      case Miss => Evaluate(env, rules[1..], userNs, accountNs)
      case BadRegex(pattern) => Failed(pattern)
      case FetchFailed(text) => Failed(text)
  }

  /** What rule i comes to in an evaluation of all the rules. */
  function ResultAt(env: Env, rules: seq<UserRule>, userNs: string, accountNs: string, i: nat): RuleResult
    requires i < |rules|
  {
    RuleMatchesUser(env, rules[i], userNs, accountNs, |rules| - i)
  }

  /** Rule i is the first that does not simply miss. */
  ghost predicate FirstDecisive(env: Env, rules: seq<UserRule>, userNs: string, accountNs: string, i: nat)
  {
    && i < |rules| && ResultAt(env, rules, userNs, accountNs, i) != Miss
    && forall j :: 0 <= j < i ==> ResultAt(env, rules, userNs, accountNs, j) == Miss
  }

  ghost predicate AllMiss(env: Env, rules: seq<UserRule>, userNs: string, accountNs: string)
  {
    forall j :: 0 <= j < |rules| ==> ResultAt(env, rules, userNs, accountNs, j) == Miss
  }

  lemma TailResults(env: Env, rules: seq<UserRule>, userNs: string, accountNs: string)
    requires rules != []
    ensures forall j :: 0 < j < |rules| ==>
              ResultAt(env, rules, userNs, accountNs, j) == ResultAt(env, rules[1..], userNs, accountNs, j - 1)
    ensures forall j :: 0 <= j < |rules[1..]| ==>
              ResultAt(env, rules[1..], userNs, accountNs, j) == ResultAt(env, rules, userNs, accountNs, j + 1)
  {
    assert forall j :: 0 <= j < |rules[1..]| ==> rules[1..][j] == rules[j + 1];
  }

  /** The first rule that does not miss decides: its action if it matches, failure if it errs. */
  lemma {:induction false} FirstMatchDecides(env: Env, rules: seq<UserRule>, userNs: string, accountNs: string, i: nat)
    requires FirstDecisive(env, rules, userNs, accountNs, i)
    ensures Evaluate(env, rules, userNs, accountNs)
            == match ResultAt(env, rules, userNs, accountNs, i) {
                 case FetchFailed(text) => Failed(text)
                 case BadRegex(pattern) => Failed(pattern)
                 case _ => if rules[i].action == GRANT then Granted else Denied
               }
    decreases |rules|
  {
    if i > 0 {
      assert ResultAt(env, rules, userNs, accountNs, 0) == Miss;
      TailResults(env, rules, userNs, accountNs);
      FirstMatchDecides(env, rules[1..], userNs, accountNs, i - 1);
    }
  }

  /** No rule matches: access is denied. */
  lemma {:induction false} NoMatchDenies(env: Env, rules: seq<UserRule>, userNs: string, accountNs: string)
    requires AllMiss(env, rules, userNs, accountNs)
    ensures Evaluate(env, rules, userNs, accountNs) == Denied
  {
    if rules != [] {
      assert ResultAt(env, rules, userNs, accountNs, 0) == Miss;
      TailResults(env, rules, userNs, accountNs);
      NoMatchDenies(env, rules[1..], userNs, accountNs);
    }
  }

  lemma {:induction false} DecisiveOrNone(env: Env, rules: seq<UserRule>, userNs: string, accountNs: string)
    ensures AllMiss(env, rules, userNs, accountNs) || exists i: nat :: FirstDecisive(env, rules, userNs, accountNs, i)
  {
    if rules != [] {
      if ResultAt(env, rules, userNs, accountNs, 0) != Miss {
        assert FirstDecisive(env, rules, userNs, accountNs, 0);
      } else {
        TailResults(env, rules, userNs, accountNs);
        DecisiveOrNone(env, rules[1..], userNs, accountNs);
        if i: nat :| FirstDecisive(env, rules[1..], userNs, accountNs, i) {
          assert FirstDecisive(env, rules, userNs, accountNs, i + 1);
        }
      }
    }
  }

  // ---- when a rule hits ----

  /** Every wanted label is there with its value; wanting an empty value is met by a missing label as well. */
  ghost predicate HasLabels(have: Labels, wanted: map<string, string>)
  {
    forall k <- wanted :: if k in have then have[k] == wanted[k] else wanted[k] == ""
  }

  /** The rule applies to the user: the first of its three matchers that is set says so. */
  ghost predicate Applies(env: Env, rule: UserRule, userNs: string, accountNs: string, left: nat)
  {
    || (rule.sameNamespace == Some(true) && userNs == accountNs)
    || (rule.sameNamespace != Some(true) && rule.namespaceRegex.Some?
        && env.compiles(rule.namespaceRegex.value) && env.matches(rule.namespaceRegex.value, userNs))
    || (IsLabelRule(rule) && env.fetch(left).Fetched? && HasLabels(env.fetch(left).labels, rule.namespaceLabels.value))
  }

  /** The rule cannot be evaluated. */
  ghost predicate Breaks(env: Env, rule: UserRule, left: nat)
  {
    && rule.sameNamespace != Some(true)
    && match rule.namespaceRegex {
         case Some(p) => !env.compiles(p)
         case None => rule.namespaceLabels.Some? && env.fetch(left).FetchError?
       }
  }

  /** What a rule comes to, by its matchers alone. */
  lemma RuleResultExactly(env: Env, rule: UserRule, userNs: string, accountNs: string, left: nat)
    ensures var r := RuleMatchesUser(env, rule, userNs, accountNs, left);
            var same, regex, labels := rule.sameNamespace, rule.namespaceRegex, rule.namespaceLabels;
            && (r == Hit
                <==> || (same == Some(true) && userNs == accountNs)
                     || (same != Some(true) && regex.Some? && env.compiles(regex.value)
                         && env.matches(regex.value, userNs))
                     || (same != Some(true) && regex.None? && labels.Some? && env.fetch(left).Fetched?
                         && forall k <- labels.value ::
                              var have := env.fetch(left).labels;
                              if labels.value[k] == "" then k in have ==> have[k] == ""
                              else k in have && have[k] == labels.value[k]))
            && (r.BadRegex? <==> same != Some(true) && regex.Some? && !env.compiles(regex.value))
            && (r.BadRegex? ==> Some(r.pattern) == regex)
            && (r.FetchFailed?
                <==> same != Some(true) && regex.None? && labels.Some? && env.fetch(left).FetchError?)
            && (r.FetchFailed? ==> r.text == env.fetch(left).text)
            && (r == Hit <==> Applies(env, rule, userNs, accountNs, left))
            && (r.BadRegex? || r.FetchFailed? <==> Breaks(env, rule, left))
            && (r == Miss <==> !Applies(env, rule, userNs, accountNs, left) && !Breaks(env, rule, left))
  {}

  /** Access is granted exactly when the first rule that applies or breaks does apply, and grants. */
  lemma GrantedExactly(env: Env, rules: seq<UserRule>, userNs: string, accountNs: string)
    ensures Evaluate(env, rules, userNs, accountNs) == Granted
            <==> exists i: nat ::
                   && i < |rules| && rules[i].action == "grant"
                   && Applies(env, rules[i], userNs, accountNs, |rules| - i)
                   && forall j :: 0 <= j < i ==> !Applies(env, rules[j], userNs, accountNs, |rules| - j)
                                                 && !Breaks(env, rules[j], |rules| - j)
  {
    hide RuleMatchesUser, Applies, Breaks;
    forall j | 0 <= j < |rules|
      ensures ResultAt(env, rules, userNs, accountNs, j) == Hit
              <==> Applies(env, rules[j], userNs, accountNs, |rules| - j)
      ensures ResultAt(env, rules, userNs, accountNs, j) == Miss
              <==> !Applies(env, rules[j], userNs, accountNs, |rules| - j) && !Breaks(env, rules[j], |rules| - j)
    {
      RuleResultExactly(env, rules[j], userNs, accountNs, |rules| - j);
    }
    DecisiveOrNone(env, rules, userNs, accountNs);
    if i: nat :| FirstDecisive(env, rules, userNs, accountNs, i) {
      FirstMatchDecides(env, rules, userNs, accountNs, i);
      assert ResultAt(env, rules, userNs, accountNs, i) != Miss;
    } else {
      NoMatchDenies(env, rules, userNs, accountNs);
    }
  }

  /** A label rule is reached before any match, and fetching the namespace for it fails. */
  ghost predicate FetchBlocks(env: Env, rules: seq<UserRule>, userNs: string, accountNs: string, i: nat)
  {
    && i < |rules| && IsLabelRule(rules[i]) && env.fetch(|rules| - i).FetchError?
    && forall j :: 0 <= j < i ==> ResultAt(env, rules, userNs, accountNs, j) == Miss
  }

  /**
   * After successful validation, evaluation fails in one way only: a label rule is reached before
   * any match and the user's namespace cannot be fetched.
   */
  lemma FailureIsNamespaceFetch(env: Env, rules: seq<UserRule>, userNs: string, accountNs: string)
    requires RegexesValid(env.compiles, rules)
    ensures Evaluate(env, rules, userNs, accountNs).Failed?
            <==> exists i: nat :: FetchBlocks(env, rules, userNs, accountNs, i)
  {
    DecisiveOrNone(env, rules, userNs, accountNs);
    if i: nat :| FirstDecisive(env, rules, userNs, accountNs, i) {
      FirstMatchDecides(env, rules, userNs, accountNs, i);
      if ResultAt(env, rules, userNs, accountNs, i).FetchFailed? {
        assert FetchBlocks(env, rules, userNs, accountNs, i);
      }
      forall k: nat | FetchBlocks(env, rules, userNs, accountNs, k)
        ensures FirstDecisive(env, rules, userNs, accountNs, k) && k == i
      {}
    } else {
      NoMatchDenies(env, rules, userNs, accountNs);
      forall k: nat | k < |rules| ensures !FetchBlocks(env, rules, userNs, accountNs, k) {
        assert ResultAt(env, rules, userNs, accountNs, k) == Miss;
      }
    }
  }

  // ---- a whole pass ----

  /** What a pass meets. Every evaluation of an account's rules for a user fetches for itself. */
  datatype World = World(compiles: string -> bool, matches: (string, string) -> bool, fetch: (Key, Key, nat) -> Fetch) {
    function At(account: Key, user: Key): Env
    {
      Env(compiles, matches, (left: nat) => fetch(account, user, left))
    }
  }

  /** The verdict on a user of an account in this pass. */
  function Judge(world: World, a: Account, u: User): Verdict
  {
    Evaluate(world.At(AccountKey(a), UserKey(u)), a.userRules, u.namespace, a.namespace)
  }

  // ---- offline validation ----

  /** What the offline loop sees of a rule: labels and broken regexes are skipped. */
  predicate OfflineHit(env: Env, rule: UserRule, userNs: string, accountNs: string)
  {
    if rule.sameNamespace == Some(true) then userNs == accountNs
    else if rule.namespaceRegex.Some? then
      env.compiles(rule.namespaceRegex.value) && env.matches(rule.namespaceRegex.value, userNs)
    else false
  }

  /** The action of the first rule the offline loop sees matching; "deny" when there is none. */
  function OfflineOutcome(env: Env, rules: seq<UserRule>, userNs: string, accountNs: string): string
  {
    if rules == [] then DENY
    else if OfflineHit(env, rules[0], userNs, accountNs) then rules[0].action
    else OfflineOutcome(env, rules[1..], userNs, accountNs)
  }

  datatype ValidationError =
    | ClusterNotFound(account: string, clusterRef: string)
    | RegexInvalid(account: string, rule: nat, pattern: string)
    | AccountNotFound(user: string, accountRef: string)
    | NoRules(user: string, userNs: string, account: string)
    | DeniedByRules(user: string, userNs: string, account: string)

  datatype Resources = Resources(clusterNames: seq<string>, accounts: seq<Account>, users: seq<User>)

  function RegexErrors(env: Env, a: Account, n: nat): seq<ValidationError>
    requires n <= |a.userRules|
  {
    if n == 0 then [] else
      RegexErrors(env, a, n - 1)
      + match a.userRules[n - 1].namespaceRegex {
          case None => []
          case Some(p) => if env.compiles(p) then [] else [RegexInvalid(a.name, n - 1, p)]
        }
  }

  function AccountErrors(env: Env, res: Resources, n: nat): seq<ValidationError>
    requires n <= |res.accounts|
  {
    if n == 0 then [] else
      var a := res.accounts[n - 1];
      AccountErrors(env, res, n - 1)
      + (if a.clusterRef in res.clusterNames then [] else [ClusterNotFound(a.name, a.clusterRef)])
      + RegexErrors(env, a, |a.userRules|)
  }

  /** The account lookup of the CLI: by name alone, and a later account replaces an earlier one. */
  function LastNamed(accounts: seq<Account>, name: string): Option<Account>
  {
    if accounts == [] then None
    else if accounts[|accounts| - 1].name == name then Some(accounts[|accounts| - 1])
    else LastNamed(accounts[..|accounts| - 1], name)
  }

  function ErrorsForUser(env: Env, res: Resources, u: User): seq<ValidationError>
  {
    match LastNamed(res.accounts, u.accountName)
    case None => [AccountNotFound(u.name, u.accountName)]
    case Some(a) =>
      if u.namespace == "" || a.namespace == "" then []
      else if a.userRules == [] then [NoRules(u.name, u.namespace, a.name)]
      else if OfflineOutcome(env, a.userRules, u.namespace, a.namespace) == DENY then
        [DeniedByRules(u.name, u.namespace, a.name)]
      else []
  }

  function UserErrors(env: Env, res: Resources, n: nat): seq<ValidationError>
    requires n <= |res.users|
  {
    if n == 0 then [] else UserErrors(env, res, n - 1) + ErrorsForUser(env, res, res.users[n - 1])
  }

  method IndexClusters(names: seq<string>) returns (index: map<string, bool>)
    ensures forall n :: n in index <==> n in names
  {
    index := map[];
    for i := 0 to |names|
      invariant forall n :: n in index <==> n in names[..i]
    {
      index := index[names[i] := true];
    }
    assert names[..|names|] == names;
  }

  method IndexAccounts(accounts: seq<Account>) returns (index: map<string, Account>)
    ensures forall n :: n in index <==> LastNamed(accounts, n).Some?
    ensures forall n :: n in index ==> LastNamed(accounts, n) == Some(index[n])
  {
    index := map[];
    for i := 0 to |accounts|
      invariant forall n :: n in index <==> LastNamed(accounts[..i], n).Some?
      invariant forall n :: n in index ==> LastNamed(accounts[..i], n) == Some(index[n])
    {
      assert accounts[..i + 1][..i] == accounts[..i];
      index := index[accounts[i].name := accounts[i]];
    }
    assert accounts[..|accounts|] == accounts;
  }

  method ValidateAccounts(env: Env, res: Resources, clusterNames: map<string, bool>)
    returns (errs: seq<ValidationError>)
    requires forall n :: n in clusterNames <==> n in res.clusterNames
    ensures errs == AccountErrors(env, res, |res.accounts|)
  {
    errs := [];
    for i := 0 to |res.accounts|
      invariant errs == AccountErrors(env, res, i)
    {
      var acct := res.accounts[i];
      if acct.clusterRef !in clusterNames {
        errs := errs + [ClusterNotFound(acct.name, acct.clusterRef)];
      }
      ghost var before := errs;
      for k := 0 to |acct.userRules|
        invariant errs == before + RegexErrors(env, acct, k)
      {
        if acct.userRules[k].namespaceRegex.Some? && !env.compiles(acct.userRules[k].namespaceRegex.value) {
          errs := errs + [RegexInvalid(acct.name, k, acct.userRules[k].namespaceRegex.value)];
        }
      }
    }
  }

  /** The rule loop of runValidate, with its continue and break. */
  method OfflineLoop(env: Env, rules: seq<UserRule>, userNs: string, accountNs: string) returns (outcome: string)
    ensures outcome == OfflineOutcome(env, rules, userNs, accountNs)
  {
    outcome := DENY;
    var i := 0;
    while i < |rules|
      invariant 0 <= i <= |rules| && outcome == DENY
      invariant OfflineOutcome(env, rules, userNs, accountNs) == OfflineOutcome(env, rules[i..], userNs, accountNs)
    {
      var rule := rules[i];
      i := i + 1;
      var matched := false;
      if rule.sameNamespace == Some(true) {
        matched := userNs == accountNs;
      } else if rule.namespaceRegex.Some? {
        if !env.compiles(rule.namespaceRegex.value) {
          continue;
        }
        matched := env.matches(rule.namespaceRegex.value, userNs);
      } else if rule.namespaceLabels.Some? {
        continue;
      }
      if matched {
        outcome := rule.action;
        break;
      }
    }
  }

  method ValidateUsers(env: Env, res: Resources, accountsByName: map<string, Account>)
    returns (errs: seq<ValidationError>)
    requires forall n :: n in accountsByName <==> LastNamed(res.accounts, n).Some?
    requires forall n :: n in accountsByName ==> LastNamed(res.accounts, n) == Some(accountsByName[n])
    ensures errs == UserErrors(env, res, |res.users|)
  {
    errs := [];
    for i := 0 to |res.users|
      invariant errs == UserErrors(env, res, i)
    {
      var user := res.users[i];
      if user.accountName !in accountsByName {
        errs := errs + [AccountNotFound(user.name, user.accountName)];
        continue;
      }
      var acct := accountsByName[user.accountName];
      if user.namespace != "" && acct.namespace != "" {
        if |acct.userRules| == 0 {
          errs := errs + [NoRules(user.name, user.namespace, acct.name)];
        } else {
          var outcome := OfflineLoop(env, acct.userRules, user.namespace, acct.namespace);
          if outcome == DENY {
            errs := errs + [DeniedByRules(user.name, user.namespace, acct.name)];
          }
        }
      }
    }
  }

  // ---- what is reported ----

  /** The account lookup finds account k: no later one has its name. */
  ghost predicate Found(accounts: seq<Account>, name: string, k: nat)
  {
    && k < |accounts| && accounts[k].name == name
    && forall l :: k < l < |accounts| ==> accounts[l].name != name
  }

  /** No rule the CLI can see matches, or the first that does denies. */
  ghost predicate SeenDenied(env: Env, rules: seq<UserRule>, userNs: string, accountNs: string)
  {
    || (forall i :: 0 <= i < |rules| ==> !OfflineHit(env, rules[i], userNs, accountNs))
    || exists i: nat ::
         && i < |rules| && OfflineHit(env, rules[i], userNs, accountNs) && rules[i].action == "deny"
         && forall j :: 0 <= j < i ==> !OfflineHit(env, rules[j], userNs, accountNs)
  }

  /** The error is one of this account. */
  ghost predicate AccountReports(env: Env, res: Resources, a: Account, e: ValidationError)
  {
    match e
    case ClusterNotFound(account, ref) => account == a.name && ref == a.clusterRef && ref !in res.clusterNames
    case RegexInvalid(account, i, pattern) =>
      account == a.name && i < |a.userRules| && a.userRules[i].namespaceRegex == Some(pattern)
      && !env.compiles(pattern)
    case _ => false
  }

  /** The error is one of this user: its account is unknown, has no rules, or denies as far as the CLI sees. */
  ghost predicate UserReports(env: Env, res: Resources, u: User, e: ValidationError)
  {
    match e
    case AccountNotFound(user, ref) =>
      user == u.name && ref == u.accountName && forall a <- res.accounts :: a.name != ref
    case NoRules(user, userNs, account) =>
      && user == u.name && userNs == u.namespace != "" && account == u.accountName
      && exists k: nat :: Found(res.accounts, account, k) && res.accounts[k].namespace != ""
                          && res.accounts[k].userRules == []
    case DeniedByRules(user, userNs, account) =>
      && user == u.name && userNs == u.namespace != "" && account == u.accountName
      && exists k: nat :: Found(res.accounts, account, k) && res.accounts[k].namespace != ""
                          && res.accounts[k].userRules != []
                          && SeenDenied(env, res.accounts[k].userRules, userNs, res.accounts[k].namespace)
    case _ => false
  }

  lemma {:induction false} RegexErrorsExactly(env: Env, a: Account, n: nat, e: ValidationError)
    requires n <= |a.userRules|
    ensures e in RegexErrors(env, a, n)
            <==> && e.RegexInvalid? && e.account == a.name && e.rule < n
                 && a.userRules[e.rule].namespaceRegex == Some(e.pattern) && !env.compiles(e.pattern)
  {
    if n > 0 {
      RegexErrorsExactly(env, a, n - 1, e);
    }
  }

  lemma {:induction false} AccountErrorsExactly(env: Env, res: Resources, n: nat, e: ValidationError)
    requires n <= |res.accounts|
    ensures e in AccountErrors(env, res, n) <==> exists a <- res.accounts[..n] :: AccountReports(env, res, a, e)
  {
    if n > 0 {
      var a := res.accounts[n - 1];
      AccountErrorsExactly(env, res, n - 1, e);
      RegexErrorsExactly(env, a, |a.userRules|, e);
      assert e in (if a.clusterRef in res.clusterNames then [] else [ClusterNotFound(a.name, a.clusterRef)])
                  + RegexErrors(env, a, |a.userRules|)
             <==> AccountReports(env, res, a, e);
      assert res.accounts[..n] == res.accounts[..n - 1] + [a];
      hide RegexErrors, AccountReports;
    }
  }

  lemma {:induction false} LastNamedExactly(accounts: seq<Account>, name: string)
    ensures LastNamed(accounts, name) == None <==> forall a <- accounts :: a.name != name
    ensures LastNamed(accounts, name).Some?
            ==> exists k: nat :: Found(accounts, name, k) && LastNamed(accounts, name) == Some(accounts[k])
    ensures forall k: nat :: Found(accounts, name, k) ==> LastNamed(accounts, name) == Some(accounts[k])
  {
    if accounts != [] {
      var n := |accounts| - 1;
      LastNamedExactly(accounts[..n], name);
      assert accounts == accounts[..n] + [accounts[n]];
      if accounts[n].name == name {
        assert Found(accounts, name, n);
      } else {
        forall k: nat ensures Found(accounts, name, k) <==> Found(accounts[..n], name, k) {}
      }
    }
  }

  lemma {:induction false} SeenDeniedExactly(env: Env, rules: seq<UserRule>, userNs: string, accountNs: string)
    ensures OfflineOutcome(env, rules, userNs, accountNs) == "deny" <==> SeenDenied(env, rules, userNs, accountNs)
  {
    if rules != [] && !OfflineHit(env, rules[0], userNs, accountNs) {
      var rest := rules[1..];
      SeenDeniedExactly(env, rest, userNs, accountNs);
      assert forall i :: 0 <= i < |rest| ==> rest[i] == rules[i + 1];
      if i: nat :| && i < |rest| && OfflineHit(env, rest[i], userNs, accountNs) && rest[i].action == "deny"
                   && forall j :: 0 <= j < i ==> !OfflineHit(env, rest[j], userNs, accountNs) {
        assert OfflineHit(env, rules[i + 1], userNs, accountNs);
      }
      if i: nat :| && i < |rules| && OfflineHit(env, rules[i], userNs, accountNs) && rules[i].action == "deny"
                   && forall j :: 0 <= j < i ==> !OfflineHit(env, rules[j], userNs, accountNs) {
        assert rest[i - 1] == rules[i];
      }
    }
    hide OfflineHit;
  }

  lemma ErrorsForUserExactly(env: Env, res: Resources, u: User, e: ValidationError)
    ensures e in ErrorsForUser(env, res, u) <==> UserReports(env, res, u, e)
  {
    LastNamedExactly(res.accounts, u.accountName);
    if k: nat :| Found(res.accounts, u.accountName, k) {
      SeenDeniedExactly(env, res.accounts[k].userRules, u.namespace, res.accounts[k].namespace);
      forall l: nat | Found(res.accounts, u.accountName, l) ensures l == k {}
    }
    hide OfflineOutcome, SeenDenied, LastNamed;
  }

  lemma {:induction false} UserErrorsExactly(env: Env, res: Resources, n: nat, e: ValidationError)
    requires n <= |res.users|
    ensures e in UserErrors(env, res, n) <==> exists u <- res.users[..n] :: UserReports(env, res, u, e)
  {
    if n > 0 {
      UserErrorsExactly(env, res, n - 1, e);
      ErrorsForUserExactly(env, res, res.users[n - 1], e);
      assert res.users[..n] == res.users[..n - 1] + [res.users[n - 1]];
      hide ErrorsForUser, UserReports;
    }
  }

  /**
   * The errors are those of some account or user and no others. In particular a missing cluster is reported
   * for an account exactly when no cluster of the referenced name is loaded.
   */
  lemma ReportedExactly(env: Env, res: Resources, e: ValidationError)
    ensures e in AccountErrors(env, res, |res.accounts|) + UserErrors(env, res, |res.users|)
            <==> || (exists a <- res.accounts :: AccountReports(env, res, a, e))
                 || exists u <- res.users :: UserReports(env, res, u, e)
    ensures forall a <- res.accounts ::
              ClusterNotFound(a.name, a.clusterRef) in AccountErrors(env, res, |res.accounts|)
              <==> a.clusterRef !in res.clusterNames
  {
    AccountErrorsExactly(env, res, |res.accounts|, e);
    UserErrorsExactly(env, res, |res.users|, e);
    assert res.accounts[..|res.accounts|] == res.accounts && res.users[..|res.users|] == res.users;
    hide UserReports, AccountErrors, UserErrors;
    forall a | a in res.accounts
      ensures ClusterNotFound(a.name, a.clusterRef) in AccountErrors(env, res, |res.accounts|)
              <==> a.clusterRef !in res.clusterNames
    {
      AccountErrorsExactly(env, res, |res.accounts|, ClusterNotFound(a.name, a.clusterRef));
      assert a.clusterRef !in res.clusterNames ==> AccountReports(env, res, a, ClusterNotFound(a.name, a.clusterRef));
    }
  }

  method RunValidate(env: Env, res: Resources) returns (errs: seq<ValidationError>)
    ensures errs == AccountErrors(env, res, |res.accounts|) + UserErrors(env, res, |res.users|)
    ensures forall e :: e in errs
                        <==> || (exists a <- res.accounts :: AccountReports(env, res, a, e))
                             || exists u <- res.users :: UserReports(env, res, u, e)
  {
    hide AccountReports, UserReports;
    var clusterNames := IndexClusters(res.clusterNames);
    var accountsByName := IndexAccounts(res.accounts);
    var accountErrs := ValidateAccounts(env, res, clusterNames);
    var userErrs := ValidateUsers(env, res, accountsByName);
    errs := accountErrs + userErrs;
    forall e {
      ReportedExactly(env, res, e);
    }
  }

  ghost predicate LegalActions(rules: seq<UserRule>)
  {
    forall i :: 0 <= i < |rules| ==> rules[i].action == GRANT || rules[i].action == DENY
  }

  /** The rule whose action the offline loop returns. */
  function FirstVisible(env: Env, rules: seq<UserRule>, userNs: string, accountNs: string): Option<UserRule>
  {
    if rules == [] then None
    else if OfflineHit(env, rules[0], userNs, accountNs) then Some(rules[0])
    else FirstVisible(env, rules[1..], userNs, accountNs)
  }

  /** A label rule that decides in the cluster, and whether it does so by matching. */
  datatype Unseen = Unseen(rule: UserRule, fetched: bool)

  /** The first label rule, before any rule the CLI sees matching, that is decisive in the cluster. */
  function BlindSpot(env: Env, rules: seq<UserRule>, userNs: string, accountNs: string): Option<Unseen>
  {
    if rules == [] || OfflineHit(env, rules[0], userNs, accountNs) then None
    else if IsLabelRule(rules[0]) && RuleMatchesUser(env, rules[0], userNs, accountNs, |rules|) != Miss then
      Some(Unseen(rules[0], env.fetch(|rules|).Fetched?))
    else BlindSpot(env, rules[1..], userNs, accountNs)
  }

  predicate LetsIn(rule: Option<UserRule>)
  {
    rule.Some? && rule.value.action == GRANT
  }

  /**
   * The offline verdict and the operator's agree exactly when the CLI has no blind spot, or the label
   * rule it cannot see admits the user just when the first rule it does see does.
   */
  lemma {:induction false} OfflineAgreesExactly(env: Env, rules: seq<UserRule>, userNs: string, accountNs: string)
    requires RegexesValid(env.compiles, rules) && LegalActions(rules)
    ensures OfflineOutcome(env, rules, userNs, accountNs) == DENY
            <==> !LetsIn(FirstVisible(env, rules, userNs, accountNs))
    ensures (OfflineOutcome(env, rules, userNs, accountNs) == DENY
             <==> Evaluate(env, rules, userNs, accountNs) != Granted)
            <==> match BlindSpot(env, rules, userNs, accountNs) {
                   case None => true
                   case Some(unseen) =>
                     LetsIn(FirstVisible(env, rules, userNs, accountNs))
                     <==> (unseen.fetched && unseen.rule.action == GRANT)
                 }
  {
    if rules != [] {
      assert GRANT[0] != DENY[0];
      assert rules[0].action == GRANT || rules[0].action == DENY;
      assert LegalActions(rules[1..]) && RegexesValid(env.compiles, rules[1..]) by {
        assert forall i :: 0 <= i < |rules[1..]| ==> rules[1..][i] == rules[i + 1];
      }
      OfflineAgreesExactly(env, rules[1..], userNs, accountNs);
    }
  }

  /** A user's verdict is reported as a denial. */
  predicate ReportsDenial(errs: seq<ValidationError>)
  {
    exists e <- errs :: e.NoRules? || e.DeniedByRules?
  }

  /**
   * For a user whose account the CLI identifies correctly, it reports a denial exactly when the
   * operator would not admit the user, if no label rule before the first match it sees is decisive.
   */
  lemma DenialReportedExactly(env: Env, res: Resources, u: User, a: Account)
    requires LastNamed(res.accounts, u.accountName) == Some(a) && u.namespace != "" && a.namespace != ""
    requires RegexesValid(env.compiles, a.userRules) && LegalActions(a.userRules)
    requires BlindSpot(env, a.userRules, u.namespace, a.namespace) == None
    ensures ReportsDenial(ErrorsForUser(env, res, u))
            <==> Evaluate(env, a.userRules, u.namespace, a.namespace) != Granted
  {
    OfflineAgreesExactly(env, a.userRules, u.namespace, a.namespace);
    var errs := ErrorsForUser(env, res, u);
    if errs != [] {
      assert errs[0] in errs;
    }
  }
}
