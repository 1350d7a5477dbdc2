# Verified model of the NATS auth operator

The operator turns declared clusters, accounts and users into one NATS `auth.conf` per cluster, publishes
it in a ConfigMap and makes the running NATS pods reload it. This project models that path in Dafny and
proves what it guarantees: what each declared permission becomes, which user ends up where with which
credential, what the printed text determines, when a ConfigMap is current, and when the running servers
are.

`dafny verify dfyconfig.toml` checks the whole project.

## How the model is laid out

| area | files |
|---|---|
| declared objects and ordered user rules | `Api`, `Rules` |
| the permission compiler and its meaning on NATS subjects | `Subjects`, `Permissions` |
| conversion, sizes, quoting | `Convert`, `Numbers`, `Quote` |
| the printer, a parser for what it prints, round trip | `ConfigTree`, `NatsConfig`, `ConfigRoundTrip`, `ConfigText`, `Generate` |
| credentials, one call and overlapping calls | `Secrets`, `CredentialRuns` |
| accounts and users of a cluster | `Resolve`, `ResolveTheorems`, `ListingOrder`, `SystemAccount`, `FinalStatuses` |
| users dropped because a namespace could not be fetched | `Drops` |
| the reconcile function as a whole | `Reconciler` |
| edits, mapping functions, queue, single worker | `Freshness`, `FreshnessProof`, `FreshnessWorker`, `FreshnessTheorems` |
| recorded statuses, and the passes they bring about | `Statuses`, `Feedback`, `StuckRun` |
| reload pass and reload protocol | `HashHeader`, `ReloadPass`, `ReloadProtocol`, `ReloadTheorems` |
| what a server makes of a published file | `Enforcement` |
| queue and reload protocol as one machine | `Operator`, `EndToEnd` |
| the permission display of the debug tool | `BlockScan`, `CalmTree`, `Mentions`, `KeyMentions`, `ShowPermissions` |
| the offline tools | `YamlDocs`, `CliGenerate`, and the second half of `Rules` |
| strings, sorting | `Text`, `Sorting` |

Code that updates variables, slices or objects in place is a method or a class here and is proved against a
specification function; code made of expressions is a function. API failures, clocks, random draws, regex
matching, the answer to each single namespace fetch and what pods answer are inputs. The digest is an arbitrary
function; only the reload protocol needs it to be free of collisions, on the config bodies of the run at hand.

Three state machines carry the protocol results. In `ReloadProtocol` the reconcile is broken into its API
calls, and spec edits, kubelet syncs, pod starts and stops, operator restarts and stale status reads may
come between any two of them. In `Freshness` edits leave notifications that the mapping functions deliver
later, against the objects as they are then; one worker takes keys off the queue, and the statuses it records
about users, accounts and clusters are reported like any other change. In `CredentialRuns` any number of
credential calls overlap under optimistic locking. `Operator` joins the first two for one cluster: the pass that
publishes is the one that drives the reload protocol, on the text it published. `EndToEnd` proves over the runs of
the joint machine that while the cluster is at rest every running server enforces exactly what is declared.

## What the proofs show about the code

* The claim that no reload pass is needed once the hash is recorded holds as long as the config never
  returns to the recorded hash while another one is in place. The run "a everywhere, b on one pod, a again"
  leaves that pod on b for good (`RevertStrandsPod`, `QuietForever`).
* A user whose namespace cannot be fetched is dropped from the config and the pass goes on to publish. The
  failure is recorded on the user, and users are watched, so a first drop brings the cluster back
  (`FirstDropIsRetried`); a failed write of the condition does so after five seconds. A pass that comes to the
  same end as the one before changes no status. It is still reported, and followed by another pass, if it had to
  write the ConfigMap, which is watched as well. If the ConfigMap too is as that pass wants it, nothing follows: the
  user stays out of the config although nothing is pending (`DropIsFinalExactly`, `RepeatIsSilentExactly`, and the
  run in `TwoDropsStick`). All freshness results name this exception.
* While two or more flagged accounts reach the converter, every pass records each of them ready and then in
  conflict. Both writes are changes, so every pass brings on the next, without end (`ConflictNeverSettles`).
* A user notification is lost when the account lookup and the fallback List both fail
  (`LostNotificationIsNotRepaired`).
* Users are sorted by name only. Two users of one account with the same name, from different namespaces,
  leave the text and so the hash undetermined (`TextIsDeterminedExactly`).
* The operator counts all flagged accounts when it stamps users, the converter only those that were not
  skipped. With two flagged accounts, one of them skipped, the directive names an account whose users are
  not stamped (`DesignatedIsStampedExactly`, `HiddenConflictHappens`).
* The comment at internal/natsconfig/convert.go:137-140 says an empty allow list means deny. The server
  reads it as allow-all; the backfilled deny is what closes it, and the proofs follow the server.
* The field comment at api/v1alpha1/natsaccount_types.go:78-79 says the alphabetically first of several
  flagged accounts wins; the code designates none, and so does the model.
* The header parser looks at eight pieces, so it tolerates up to six leading blank lines before a body with
  content, not seven (`HeaderReadBack` gives the exact condition).
* The permission display looks for `nkey: ` and the key in printed text, and takes the first line that has it. A
  subject holding a newline followed by `key: ` and another user's key prints as a line with that mark. Then
  whoever looks up the other key is shown what the first user may publish (`WrongDisplayHappens`).
  `OwnBlockIsShownExactly` gives the exact condition; subjects without blanks and braces always meet it.

## Model

| member | source | states |
|---|---|---|
| Rules.FirstMatchDecides | internal/controller/user_rule_evaluator.go:54-70 | the first rule that does not miss decides: its action when it matches, failure when it errs |
| Rules.NoMatchDenies | internal/controller/user_rule_evaluator.go:69 | when every rule misses, access is denied |
| Rules.GrantedExactly | internal/controller/user_rule_evaluator.go:54-101 | granted exactly when the first rule that applies or cannot be evaluated does apply and its action is grant; a rule applies by equal namespaces, a matching regex, or labels that all have the wanted value |
| Rules.RuleResultExactly | internal/controller/user_rule_evaluator.go:72-101 | when a rule hits, errs or misses, by its three matchers in their order of precedence; an empty wanted label value is met by a missing label, any other only by that value |
| Rules.FirstBrokenReported | internal/controller/user_rule_evaluator.go:38-49 | the pattern reported is the first that does not compile |
| Rules.FailureIsNamespaceFetch | internal/controller/user_rule_evaluator.go:72-101 | after successful regex validation, evaluation fails exactly when a label rule is reached before any match and the namespace cannot be fetched |
| Rules.ValidateRegexRules | internal/controller/user_rule_evaluator.go:38-49 | reports a pattern exactly when some rule holds a regex that does not compile |
| Rules.OfflineLoop | cmd/cli/cmd/validate.go:106-126 | the loop with its continue and break yields the action of the first rule it can see matching, deny otherwise |
| Rules.RunValidate | cmd/cli/cmd/validate.go:43-138 | errors of all accounts then all users, in order, against lookup maps in which a later account of the same name wins; the errors are exactly those an account or a user has |
| Rules.ReportedExactly | cmd/cli/cmd/validate.go:56-135 | which errors are reported: a cluster name nobody has, a regex that does not compile with its rule, an account name nobody has, an account without rules, or rules that deny as far as they can be seen offline |
| Rules.SeenDeniedExactly | cmd/cli/cmd/validate.go:104-126 | the offline loop denies exactly when no visible rule matches or the first that does denies |
| Rules.OfflineAgreesExactly | cmd/cli/cmd/validate.go:106-135 | offline and operator verdicts agree exactly when no label rule before the first visible match is decisive, or when it matches and its action lets in just as the visible one does |
| Rules.DenialReportedExactly | cmd/cli/cmd/validate.go:92-136 | for a correctly identified account without such a label rule, the CLI reports a denial exactly when the operator would not admit the user |
| PermissionCompiler.InjectInboxPrefix | internal/natsconfig/convert.go:163-176 | the rule object gets the inbox deny and the prefix allow, each once, and keeps everything else |
| PermissionCompiler.BackfillDeny | internal/natsconfig/convert.go:141-156 | a rule without allow entries ends up denying everything, once; other rules are untouched |
| PermissionCompiler.ConvertPermissionsObject | internal/natsconfig/convert.go:111-158 | the objects built in place hold the specified publish, subscribe and response permissions |
| PermissionCompiler.PublishMeaning | internal/natsconfig/convert.go:111-158 | the server accepts a publish subject exactly when the declared rule has a matching allow and no matching deny |
| PermissionCompiler.SubscribeMeaning | internal/natsconfig/convert.go:111-176 | the server accepts a subscribe subject exactly when the declaration grants it, or it lies under the active prefix and is not denied, and it is not under _INBOX.> while a prefix is active |
| PermissionCompiler.OwnInboxUsable | internal/natsconfig/convert.go:160-176 | a subject below the user's own single-token prefix is accepted exactly when the prefix is not _INBOX and no declared deny matches |
| PermissionCompiler.InboxIsolation | internal/natsconfig/convert.go:160-176 | below another user's single-token prefix a user is accepted exactly where its own declaration grants it |
| PermissionCompiler.SharedInboxClosed | internal/natsconfig/convert.go:160-176 | with a prefix active nothing under _INBOX is accepted |
| PermissionCompiler.NothingDeclaredNothingGranted | internal/natsconfig/convert.go:137-156 | without declared permissions and prefix, nothing may be published or subscribed |
| PermissionCompiler.DeclaredEntriesKept | internal/natsconfig/convert.go:111-176 | declared entries stay in place and in order, and each list grows by at most one entry, which was not declared |
| PermissionCompiler.ContainsString | internal/natsconfig/convert.go:178-185 | found exactly when the string is in the slice |
| Subjects.UnderSingleToken | internal/natsconfig/convert.go:168 | for a single-token prefix, prefix.> matches exactly the subjects that start with that token and have more |
| Subjects.SpacesDisjoint | internal/nkeys/manager.go:31-40 | two different generated prefixes share no subject |
| Numbers.SizeReadBack | internal/natsconfig/convert.go:190-206 | a printed size reads back as the original byte count, for every integer |
| Numbers.MantissaIsReduced | internal/natsconfig/convert.go:190-206 | the unit is the largest that divides a positive count, so below TI the mantissa is never divisible by 1024 |
| Numbers.SizesAreInjective | internal/natsconfig/convert.go:190-206 | equal printed sizes mean equal byte counts |
| Quote.QuoteStrings | internal/natsconfig/generate.go:245-251 | fills a slice by index and joins it to the quoted list |
| Quote.ReadQuotedBack | internal/natsconfig/generate.go:245-251 | a quoted string followed by anything reads back as that string, leaving the rest |
| Quote.ReadListBack | internal/natsconfig/generate.go:245-251 | a printed list reads back as the list |
| Convert.ConvertToNatsConfig | internal/natsconfig/convert.go:33-77 | accounts by name, one flagged account designated, two or more reported sorted and none designated |
| Convert.ConvertedAt | internal/natsconfig/convert.go:54-74 | with distinct names every account is found under its own name |
| Convert.UserCountConserved | internal/natsconfig/convert.go:54-74 | with distinct names the config has as many users as the input lists |
| Convert.DeclarationsAreEnforced | internal/natsconfig/convert.go:33-176 | convert, print, read back: the server finds every listed user under its account with its key and enforces exactly the declared publish and subscribe permissions, responses and prefix |
| Convert.QuotasAreEnforced | internal/natsconfig/convert.go:79-109 | convert, print, read back: the server finds for every account exactly the declared limits and JetStream settings, sizes as the declared byte counts |
| Convert.SentinelExactlyWithoutUsers | internal/natsconfig/generate.go:38-89 | read back, the text has a top-level authorization block exactly when no account has a user; it then holds one user, with the sentinel key, who may neither publish nor subscribe on any subject |
| ConfigTree.ParseTreeText | internal/natsconfig/generate.go:28-243 | parsing the printed text of a well-formed block tree gives that tree |
| ConfigText.PrintedConfigReadBack | internal/natsconfig/generate.go:28-251 | for every config with legal names, keys and sizes, parsing the text recovers its normal form, and the sentinel user exactly if there is no other |
| ConfigText.SameTextIffSameNormalForm | internal/natsconfig/generate.go:28-251 | two legal configs print the same text exactly when their normal forms agree |
| ConfigText.HeaderIsTransparent | internal/controller/natscluster_controller.go:133-165 | with the hash header in front the server reads the same config and the header parser finds the hash |
| Generate.Builder.WriteString | internal/natsconfig/generate.go:29 | appends to the text built so far |
| Generate.WriteJetStream | internal/natsconfig/generate.go:110-142 | appends the JetStream block with exactly the fields that are set |
| Generate.WriteLimits | internal/natsconfig/generate.go:144-164 | appends the limits block with exactly the fields that are set |
| Generate.WritePermissionRule | internal/natsconfig/generate.go:210-224 | appends one rule block with its non-empty lists |
| Generate.WriteAllowResponses | internal/natsconfig/generate.go:226-243 | appends the boolean form when neither count nor TTL is set, the block otherwise |
| Generate.WritePermissions | internal/natsconfig/generate.go:191-208 | appends publish, subscribe and enabled responses |
| Generate.WriteUser | internal/natsconfig/generate.go:181-189 | appends key and permissions of one user |
| Generate.WriteUsers | internal/natsconfig/generate.go:166-179 | appends one block per user, in order |
| Generate.WriteAccount | internal/natsconfig/generate.go:91-108 | appends one account with its limits and its users, if any |
| Generate.WriteSentinelAuthorization | internal/natsconfig/generate.go:77-89 | appends the deny-all user |
| Generate.TotalUsers | internal/natsconfig/generate.go:65-71 | the number of users, whatever order the map is iterated in |
| Generate.SortedNames | internal/natsconfig/generate.go:47-53 | the account names in string order, whatever order the map is iterated in |
| Generate.Generate | internal/natsconfig/generate.go:28-63 | the text is the printed tree of the config, which the readers above invert |
| Sorting.SortSlice | internal/controller/natscluster_controller.go:274-276 | a permutation in name order |
| Sorting.SortedIsUnique | internal/controller/natscluster_controller.go:389-391 | with distinct names there is only one such permutation |
| Sorting.SortedNamesAreInOrder | internal/natsconfig/generate.go:47-53 | collecting the keys in any order and sorting gives the same list |
| Secrets.SecretKeysDiffer | internal/controller/nkey_secret_manager.go:34 | different users have different Secrets |
| Secrets.NKeySecretManager.EnsureNKeySecret | internal/controller/nkey_secret_manager.go:33-128 | Secrets, status in memory and answer after one call, for every outcome of Get, generation, write and status write; which fields the Secret then holds, and when the call succeeds |
| Secrets.NKeySecretManager.UseExisting | internal/controller/nkey_secret_manager.go:38-77 | the branch for an existing Secret writes only what the isolation setting asks for |
| Secrets.NKeySecretManager.CreateNew | internal/controller/nkey_secret_manager.go:83-127 | the branch without a Secret creates pair and prefix and stamps the status |
| Secrets.DesiredExactly | internal/controller/nkey_secret_manager.go:38-127 | what is written, field by field: a new Secret holds the drawn seed and public key under their names, an existing one changes in its prefix only; with isolation there is a prefix, the stored one, else the override, else the drawn one |
| Secrets.CallProvides | internal/controller/nkey_secret_manager.go:33-128 | a call succeeds exactly when the data can be had, a needed write is confirmed and a needed status write goes through; it then answers what is stored and has stamped key and Secret name |
| Secrets.ReplyIsStored | internal/controller/nkey_secret_manager.go:33-128 | a successful answer is in the Secret when it is given, and its prefix is empty exactly when isolation is off |
| Secrets.CommitIsLocal | internal/controller/nkey_secret_manager.go:33-128 | a call touches no other Secret, removes none and changes no key pair |
| CredentialRuns.KeyPairIsForever | internal/controller/nkey_secret_manager.go:33-128 | in every run of overlapping calls a created Secret stays and its seed and public key never change |
| CredentialRuns.AnswersAreStored | internal/controller/nkey_secret_manager.go:33-128 | every successful call returns the public key now stored, and the prefix stored unless another call wrote meanwhile |
| CredentialRuns.AnswersAgree | internal/controller/nkey_secret_manager.go:33-128 | all successful calls for one user return the same public key |
| CredentialRuns.PrefixIsKept | internal/controller/nkey_secret_manager.go:44-60 | a stored prefix is kept, whatever overrides later calls bring, while nobody asks to switch isolation off |
| CredentialRuns.KeptPrefixIsReturned | internal/controller/nkey_secret_manager.go:41-76 | meanwhile every successful call that read the present state returns that prefix |
| CredentialRuns.PrefixDropsExactly | internal/controller/nkey_secret_manager.go:44-50 | a step takes a stored prefix away exactly when an up-to-date call with isolation off writes |
| CredentialRuns.KeysStayDistinct | internal/controller/nkey_secret_manager.go:83-92 | if the random source never repeats a public key, two users never share one |
| Resolve.ListMatchingAccounts | internal/controller/natscluster_controller.go:261-278 | the cluster's accounts of its namespace, each once, in name order |
| Resolve.SystemAccountName | internal/controller/natscluster_controller.go:309-318 | the one flagged account among all listed, or none |
| Resolve.VisitUser | internal/controller/natscluster_controller.go:334-386 | what one turn of the user loop does to the user, the Secrets and the list, and when it aborts |
| Resolve.MatchUsers | internal/controller/natscluster_controller.go:332-391 | whatever each single namespace fetch answers, the list of one account holds its admitted users with their stored credentials in name order; it fails exactly when a credential call of an admitted user fails |
| Resolve.ReconcileAccountsAndUsers | internal/controller/natscluster_controller.go:292-410 | whatever each single namespace fetch answers, it succeeds exactly when every welcomed user's credential call does; then users and accounts with their statuses, Secrets, output, total and the failed-status flag are all as specified, and only welcomed users' Secrets were written |
| FinalStatuses.UserStatusExactly | internal/controller/natscluster_controller.go:298-386 | after a successful pass a user of a processed account is ready as reconciled exactly when it is listed; a listed one shows its listed key, Secret name, URLs, command and system account flag, a denied or failed one the reason and nothing else changed, and users of no processed account are untouched |
| FinalStatuses.AccountStatusExactly | internal/controller/natscluster_controller.go:144-161 | an account in the config shows the number of its listed users and is ready exactly when it is in no conflict; in a conflict it names the flagged accounts in order; a skipped one names its first broken regex and keeps the rest |
| ResolveTheorems.MembershipExactly | internal/controller/natscluster_controller.go:320-386 | a user is listed under an account exactly when it references it, its regexes compile and its rules grant |
| ResolveTheorems.MembershipByRules | internal/controller/natscluster_controller.go:320-418 | the same in terms of the declared objects: name and namespace match, no regex is broken, and the first rule that applies grants |
| ResolveTheorems.AppearsOnce | internal/controller/natscluster_controller.go:320-386 | a user is at one position of the output only |
| ResolveTheorems.AppearsInOneCluster | internal/controller/natscluster_controller.go:261-386 | passes over two clusters list a user twice only under the same account of the same cluster |
| ResolveTheorems.ListedCredentials | internal/controller/natscluster_controller.go:361-385 | every entry carries what its Secret holds after the pass, with an empty prefix exactly when isolation is off |
| ResolveTheorems.TotalIsConserved | internal/controller/natscluster_controller.go:402-406 | the total counts every welcomed user once and is the number of users in the config |
| ResolveTheorems.UserOrderIsIrrelevant | internal/controller/natscluster_controller.go:388-391 | with user names distinct per account, the result does not depend on the order of the user list |
| ResolveTheorems.AccountOrderIsIrrelevant | internal/controller/natscluster_controller.go:261-278 | the account list does not depend on the order the API returns |
| ListingOrder.TextIsDeterminedExactly | internal/controller/natscluster_controller.go:388-391 | given objects and credentials, the text is determined exactly when user names are distinct within each account |
| ListingOrder.SwapChangesText | internal/controller/natscluster_controller.go:388-391 | swapping two neighbours with different keys changes the text |
| SystemAccount.DirectiveOfOutput | internal/natsconfig/convert.go:38-52 | the directive depends on the accounts that were not skipped |
| SystemAccount.StampedExactly | internal/controller/natscluster_controller.go:309-318 | an account is the designated one exactly when it is flagged and no other is |
| SystemAccount.StampedIsDesignated | internal/controller/natscluster_controller.go:309-376 | a stamped user belongs to the account the directive names |
| SystemAccount.DesignatedIsStampedExactly | internal/controller/natscluster_controller.go:309-376 | users of the account the directive names are stamped exactly when skipping hides no conflict |
| SystemAccount.ValidFlaggedAgree | internal/controller/natscluster_controller.go:309-376 | if every flagged account passes regex validation, stamp and directive agree |
| SystemAccount.HiddenConflictHappens | internal/controller/natscluster_controller.go:309-330 | two flagged accounts, one skipped: the directive names the other and its users are not stamped |
| SystemAccount.StampsAfterPass | internal/controller/natscluster_controller.go:376 | the stamps a successful pass leaves on the users it admitted |
| Reconciler.ConfigMapStore.EnsureConfigMap | internal/controller/natscluster_controller.go:425-448 | the content afterwards, without a write when it is already there |
| Reconciler.MarkConflicts | internal/controller/natscluster_controller.go:152-160 | exactly the accounts in the conflict get the conflict condition, the rest of their status stays |
| Reconciler.Render | internal/controller/natscluster_controller.go:113-163 | the body is the text of a resolution of the listed objects; the final status of every user and account; when it fails, and when some condition write failed |
| Reconciler.PublishAndReload | internal/controller/natscluster_controller.go:163-257 | ConfigMap, recorded hash, counts and result for every outcome of the writes and the pass |
| Reconciler.Reconcile | internal/controller/natscluster_controller.go:101-258 | nothing is published but the text of a resolution of the listed objects; signals and a changed hash only after it is published; a result of done means its digest is the recorded hash and every condition of accounts and of users of processed accounts was written |
| Freshness.AllClustersInNamespace | internal/controller/natscluster_controller.go:664-677 | every cluster of the namespace, none when the List fails |
| FreshnessProof.RefersIffClusterOf | internal/controller/natscluster_controller.go:633-659 | a user names one of a cluster's accounts exactly when the mapping resolves it to that cluster |
| FreshnessProof.DeliverKeepsDue | internal/controller/natscluster_controller.go:609-677 | delivering a notification keeps every live cluster it concerned in the queue, also through the fallback |
| FreshnessWorker.OthersUntouched | internal/controller/natscluster_controller.go:292-410 | a pass over one cluster leaves the Secrets of another cluster's users alone |
| FreshnessWorker.StepKeepsInv | internal/controller/natscluster_controller.go:101-258 | every step of edits, deliveries, worker and restarts keeps the queue invariant |
| FreshnessTheorems.EditsAreNoticed | internal/controller/natscluster_controller.go:609-660 | whatever an edit changes for a cluster, the notifications for old and new object lead to it |
| FreshnessTheorems.ListedExactly | internal/controller/natscluster_controller.go:261-278 | the account lists a pass may start from are exactly what filtering and sorting a complete list gives |
| FreshnessTheorems.RunKeepsInv | internal/controller/natscluster_controller.go:609-690 | in every reachable state each live cluster is due, under way with what it read still true, or published from current objects, with a user dropped only if that pass changed neither a status nor the ConfigMap |
| FreshnessTheorems.FreshIsResolved | internal/controller/natscluster_controller.go:113-170 | a ConfigMap counted as current was published from a result the present objects and Secrets call for |
| FreshnessTheorems.QuiescentExactly | internal/controller/natscluster_controller.go:101-258 | when nothing is pending, queued or under way, the ConfigMap holds the result of the last pass, which is what present accounts, users and Secrets call for exactly when the pass dropped nobody; a pass that dropped somebody was silent |
| FreshnessTheorems.QuiescentIsRendered | internal/controller/natscluster_controller.go:101-258 | unless the last pass dropped a user in silence, the ConfigMap is then the text of the present accounts, users and Secrets |
| FreshnessTheorems.LostNotificationIsNotRepaired | internal/controller/natscluster_controller.go:640-668 | when lookup and fallback fail, a new user is missing from the ConfigMap and nothing is pending |
| Drops.RestrictedVerdict | internal/controller/user_rule_evaluator.go:54-101 | a verdict reached with some fetches failing is the true one unless it is a failure |
| Drops.RightExactlyIfNobodyMissed | internal/controller/natscluster_controller.go:341-350 | a pass renders what is declared exactly when no failed fetch came up at a label rule, before any match, for a user whom a processed account truly admits |
| Statuses.UnchangedExactly | internal/controller/natscluster_controller.go:570-600 | status writes change nothing exactly when each says what is recorded already |
| Statuses.FinalStatusesRecorded | internal/controller/natscluster_controller.go:152-160 | when every write goes through, what ends up recorded is the final status of every account and of every user of a processed account |
| Feedback.PassEndsQuietExactly | internal/controller/natscluster_controller.go:227-257 | a pass that has read what is there leaves its cluster not due exactly when every status was recorded already, the ConfigMap had its text already, every write went through and all pods were in sync |
| Feedback.DropIsFinalExactly | internal/controller/natscluster_controller.go:341-350 | a pass that drops a user publishes what is not declared, and nothing follows it exactly under that condition |
| Feedback.FirstDropIsRetried | internal/controller/natscluster_controller.go:345-349 | a user dropped for the first time, or for a new reason, brings its cluster back |
| Feedback.ConflictNeverSettles | internal/controller/natscluster_controller.go:144-161 | as long as two flagged accounts reach the converter, every pass of the cluster is followed by another |
| StuckRun.RepeatIsSilentExactly | internal/controller/natscluster_controller.go:682-687 | without a conflict, a pass that comes to the same end as one whose writes all went through writes nothing exactly when the ConfigMap still has the text |
| StuckRun.TwoDropsStick | internal/controller/natscluster_controller.go:341-350 | a run of two passes that drop the same user, with the first one's changes of user, account, cluster and ConfigMap delivered in between, ends quiet, with a ConfigMap that leaves out a user who belongs in it |
| HashHeader.ParseHashHeader | internal/controller/pod_reloader.go:161-178 | the loop over at most eight pieces reads the hash of the first non-blank line |
| HashHeader.HeaderIsOnTop | internal/controller/pod_reloader.go:161-185 | for every text, a hash is read exactly when the first of its eight pieces that is not blank is a hash comment with it |
| HashHeader.HeaderReadBack | internal/controller/pod_reloader.go:161-185 | after leading blank lines and with CRLF ends the hash is read back exactly when there are fewer than seven blank lines or the rest is blank |
| HashHeader.PublishedHash | internal/controller/pod_reloader.go:161-185 | the hash in front of any body reads back |
| ReloadPass.WaitForCurrentConfig | internal/controller/natscluster_controller.go:464-483 | the answer is that of the last check, all earlier ones were stale, and at most twelve checks are made |
| ReloadPass.ReloadNatsPods | internal/controller/natscluster_controller.go:493-552 | without a Deployment or StatefulSet of that name, a selector or a pod list the pass fails and signals nobody; otherwise it fails exactly at the first running pod whose check failed or whose signal is lost, after signalling the current ones before it, and is in sync exactly when every listed pod ran and was current |
| ReloadPass.SignalledExactly | internal/controller/natscluster_controller.go:517-549 | the signalled pods are exactly the running ones with a current file, in list order |
| ReloadPass.AbortIsFinal | internal/controller/natscluster_controller.go:527-548 | nothing after the first failing pod happens |
| ReloadPass.NatsClusterReconciler.FinishReconcile | internal/controller/natscluster_controller.go:192-257 | process memory, recorded hash, counts, result and signals for every outcome |
| ReloadProtocol.SignalLoadsPublished | internal/controller/natscluster_controller.go:536-549 | a signal after a positive check makes the pod load the file of this pass |
| ReloadProtocol.RunKeepsInv | internal/controller/natscluster_controller.go:163-257 | the protocol invariant holds in every run |
| ReloadTheorems.SighupLoadsPublishedFile | internal/controller/natscluster_controller.go:163-239 | in every run every signal makes its pod load exactly the file this reconcile published |
| ReloadTheorems.HashAdvancesOnlyAfterFullPass | internal/controller/natscluster_controller.go:192-239 | the recorded hash changes only after a pass in which every selected pod ran, showed that hash and was signalled |
| ReloadTheorems.NoPassMeansUpToDate | internal/controller/natscluster_controller.go:188-195 | without reverts, a reconcile that needs no pass finds every pod up to date on disk and in the server |
| ReloadTheorems.RevertBreaksConfirmed | internal/controller/natscluster_controller.go:188-195 | publishing breaks that claim exactly when it goes back to the recorded hash |
| ReloadTheorems.RevertStrandsPod | internal/controller/natscluster_controller.go:188-219 | the run a, partial b, a ends recorded and quiet with a running server on b |
| ReloadTheorems.QuietForever | internal/controller/natscluster_controller.go:188-219 | a quiet cluster stays quiet: no more signals, and no server loads anything by itself |
| ReloadTheorems.RetriedUntilConfirmed | internal/controller/natscluster_controller.go:192-257 | while a config is unconfirmed no reconcile skips the pass on the current status, and none records a status without a pass, until a pass confirms every pod |
| ReloadTheorems.SyncingIsProgress | internal/controller/natscluster_controller.go:248-255 | the number of unsynced pods never grows by what pods do, and each sync of one shrinks it |
| ReloadTheorems.SettlingStep | internal/controller/natscluster_controller.go:192-257 | each faultless step of a reconcile over synced pods brings it nearer its end |
| ReloadTheorems.SettlingCanContinue | internal/controller/natscluster_controller.go:192-257 | until then some faultless step is possible |
| ReloadTheorems.OneReconcileSettles | internal/controller/natscluster_controller.go:192-257 | with specs still and all pods synced and running, one reconcile reaches the quiet state |
| ReloadTheorems.FaultlessRunExists | internal/controller/natscluster_controller.go:192-257 | from every such state some faultless run ends the reconcile, and ends it quiet |
| ReloadTheorems.OneReconcileSuffices | internal/controller/natscluster_controller.go:192-257 | whatever was reached without a revert, once specs are still and all pods synced and running, some faultless run leaves every pod up to date and nothing to do |
| Enforcement.PublishedIsExact | internal/natsconfig/convert.go:33-176 | read back, the printed result of a complete resolution has exactly the processed accounts with their declared quotas, serves exactly the users they admit, each with exactly what is declared, names the only processed flagged account as system account, and lets nobody else do anything |
| Operator.StepKeepsInv | internal/controller/natscluster_controller.go:101-258 | every step of the joint machine keeps queue and reload protocol on the same config and ConfigMap, and the reload protocol with nothing left to do whenever the cluster is at rest |
| Operator.StepKeepsHash | internal/controller/natscluster_controller.go:227-245 | the hash in the status of the cluster is the one the reload protocol goes by |
| EndToEnd.QueueView | internal/controller/natscluster_controller.go:101-258 | what happens to the queue in a joint run is a run of the queue without lost notifications |
| EndToEnd.ReloadView | internal/controller/natscluster_controller.go:163-257 | and what happens to the reload protocol is a run of the protocol |
| EndToEnd.RestIsRolledOut | internal/controller/natscluster_controller.go:163-257 | in every joint run in which no config is published again while its hash is still recorded: while the cluster is at rest the recorded hash is the ConfigMap's, every pod has the ConfigMap on disk and every running server has loaded it |
| EndToEnd.ServersEnforceDeclarations | internal/controller/natscluster_controller.go:101-258 | in every such run, while the cluster is at rest and its last pass dropped nobody or was not silent: every running server has loaded the ConfigMap, which has exactly the processed accounts with their declared quotas and serves exactly the users they admit, each with exactly the declared permissions, responses, stored key and prefix, and lets nobody else do anything |
| BlockScan.ShowConfiguredPermissions | cmd/nats-debug/main.go:503-539 | the lines shown are those between the two scans, both of which end inside the text |
| BlockScan.WalkBack | cmd/nats-debug/main.go:517-521 | the nearest line at or above with an opening brace, or the first line |
| BlockScan.WalkForward | cmd/nats-debug/main.go:523-532 | the first line where the depth is no longer positive, or the end |
| BlockScan.ShownExactly | cmd/nats-debug/main.go:503-539 | for every text: nothing if no line has the key, else the lines from the nearest opening brace at or above the first that has it to where the braces first close, without blanks at their ends |
| BlockScan.BlockIsShown | cmd/nats-debug/main.go:503-539 | a balanced block naming the key on its second line is shown whole and alone if nothing before mentions the key |
| BlockScan.BlockIsShownExactly | cmd/nats-debug/main.go:503-539 | and only then, when its key line does not occur before |
| ShowPermissions.OwnBlockIsShownExactly | cmd/nats-debug/main.go:503-539 | on every published text with keys distinct and of one length, the display shows exactly a user's lines if and only if neither the system account nor a list or TTL of an earlier user prints with that user's key mark |
| ShowPermissions.UnspacedConfigIsShown | cmd/nats-debug/main.go:503-539 | without blanks and braces in subjects and TTLs every user's display is right |
| ShowPermissions.WrongBlockIsShown | cmd/nats-debug/main.go:503-539 | the first publish list that prints with another user's key mark takes the display of that key |
| ShowPermissions.WrongDisplayHappens | cmd/nats-debug/main.go:503-539 | a config of two users whose display for the second key is the publish block of the first |
| ShowPermissions.UnspacedSubjectsAreCalm | internal/natsconfig/generate.go:245-251 | lists of subjects without blanks and braces print without braces and mention no key |
| ShowPermissions.QuotingForgesMark | cmd/nats-debug/main.go:508 | for every key, a subject free of the mark whose quoted form holds the mark and that key |
| YamlDocs.SplitLines | cmd/cli/cmd/loader.go:120-133 | the lines of the text, a final newline starting no further one |
| YamlDocs.SplitYAMLDocuments | cmd/cli/cmd/loader.go:99-118 | one document per group of lines between separators |
| YamlDocs.InputIsInterleaved | cmd/cli/cmd/loader.go:99-118 | the input is the groups in order with nothing but separators around and between them |
| YamlDocs.InterleavedReadBack | cmd/cli/cmd/loader.go:99-118 | however separators are put around and between groups, the groups are read back |
| YamlDocs.DocumentsAreGroups | cmd/cli/cmd/loader.go:99-118 | each document reads back as its group: not empty, without separator, ending in a newline |
| Text.UnlinesOfLines | cmd/cli/cmd/loader.go:120-133 | joining the lines restores the text up to a final newline |
| CliGenerate.GroupUsers | cmd/cli/cmd/generate.go:57-82 | the users the generator lists under an account, in name order |
| CliGenerate.BuildConfigForCluster | cmd/cli/cmd/generate.go:45-88 | groups in file order and the config converted from them |
| CliGenerate.GeneratedExactly | cmd/cli/cmd/generate.go:49-77 | with namespaces given, a user is listed under an account exactly when it references it and the account is the cluster's |
| CliGenerate.GroupedExactly | cmd/cli/cmd/generate.go:49-77 | whatever namespaces are left out, a user is listed exactly when the names match and no two namespaces differ, under its placeholder key |
| CliGenerate.OperatorEmitsGenerated | cmd/cli/cmd/generate.go:49-77 | the operator emits exactly those generated pairs whose account is processed and whose rules grant |
| CliGenerate.GroupingsCoincide | cmd/cli/cmd/generate.go:45-88 | when nothing is refused both list the same users per account, in the same order if names are distinct |
| CliGenerate.AccountsCoincide | cmd/cli/cmd/generate.go:45-56 | when nothing is refused both have the same accounts |

## Left out

- SPDY exec, HTTP clients, kubeconfig loading, leader election, TLS and metrics: a pod is what it answers to the two reload operations.
- Condition messages and transition times: a condition is its reason with what determines status and message, and the observed generation. The texts of debug commands and URLs are inputs.
- The cluster's own condition written on error paths (internal/controller/natscluster_controller.go:554-568): it leaves the recorded hash alone.
- Secrets.NKeySecretManager.EnsureNKeySecret: an existing Secret without any data is not modelled apart; writing a prefix into it would panic in the original. The operator always creates Secrets with data.
- User deletion, which garbage-collects the Secret: the results on key pairs are about users that exist.
- Secrets edited by others, changing namespace labels, and namespaces that come and go: the controller watches neither, so the freshness results are about runs without them.
- ReloadProtocol.RunKeepsInv: one cluster with a fixed serverRef, and a pod list that is current when a pass begins; the status read may be stale.
- ReloadTheorems.NoPassMeansUpToDate: a new pod mounts the latest ConfigMap. A pod created from a kubelet cache that lags behind would mount an older one, and once the hash is recorded nothing signals it.
- Operator: the cluster exists throughout the run, and only its own passes write its status and its ConfigMap; no call fails and yet takes effect, except a SIGHUP; no user notification is lost (`LostNotificationIsNotRepaired` says what follows when one is).
- Labels, annotations and owner reference of the ConfigMap: a write of the ConfigMap is a write of its content.
- Freshness: ConfigMap content is what the API server holds; the informer's view and the stored objects are one, with notifications delivered at any later time. A requeue after a delay is a queue entry. When a credential call fails, the statuses written before it are not tied to the pass; any status may change at any time.
- Regex engine, digest, Kubernetes quantity parsing, and the work queue beyond a set that never hands one key out twice at once.
- Key and prefix generation: generated prefixes are taken to be single non-empty tokens, and fresh keys are a hypothesis where they matter.
- Quote.QuoteStrings: characters beyond ASCII are printed as they are, where the original escapes those it finds unprintable.
- ConfigText.PrintedConfigReadBack: account names, keys and sizes are printable words without blanks, quotes, brackets and '#'; Kubernetes names and nkeys are. A missing accounts map and an empty one print the same and are one value here.
- Rules: label values equal to the empty string match a missing label, as in the original's map lookup; nothing more is claimed of them.
- Slices that share memory after append: rule lists are values inside the rule objects.
- CliGenerate: files that leave namespaces out are grouped as in the original, but compared with the operator only when namespaces are given.
- JSON forms of allow_responses, key filters of the debug tool, YAML decoding, flags and printing.
