/**
 * internal/natsconfig/convert.go: convertPermissions and injectInboxPrefix, and the exact meaning of
 * the rules they produce under the server's matching rule.
 */
module PermissionCompiler {
  import opened Text
  import opened NatsConfig
  import opened Subjects

  /** AllowResponsesSpec: a boolean form, or limits. */
  datatype AllowResponses = AllowResponses(boolValue: Option<bool>, maxMsgs: Option<int>, ttl: Option<string>)

  /** The declared permissions of a NatsUser. */
  datatype PermissionsSpec = PermissionsSpec(
    publish: Option<PermissionRule>, subscribe: Option<PermissionRule>, allowResponses: Option<AllowResponses>)

  const INBOX_DENY := "_INBOX.>"
  const DENY_ALL := ">"

  predicate ShouldEmit(a: AllowResponses)
  {
    match a.boolValue
    case Some(b) => b
    case None => true
  }

  // ---- specification ----

  function AppendMissing(ss: seq<string>, s: string): seq<string>
  {
    if s in ss then ss else ss + [s]
  }

  function OrEmpty(rule: Option<PermissionRule>): PermissionRule
  {
    match rule
    case None => PermissionRule([], [])
    case Some(r) => r
  }

  function Injected(sub: Option<PermissionRule>, prefix: string): PermissionRule
  {
    var r := OrEmpty(sub);
    PermissionRule(AppendMissing(r.allow, prefix + ".>"), AppendMissing(r.deny, INBOX_DENY))
  }

  /** A direction without allow entries gets an explicit deny of everything. */
  function Backfilled(rule: Option<PermissionRule>): PermissionRule
  {
    var r := OrEmpty(rule);
    if r.allow == [] then r.(deny := AppendMissing(r.deny, DENY_ALL)) else r
  }

  function DeclaredPublish(p: Option<PermissionsSpec>): Option<PermissionRule>
  {
    if p.Some? then p.value.publish else None
  }

  function DeclaredSubscribe(p: Option<PermissionsSpec>): Option<PermissionRule>
  {
    if p.Some? then p.value.subscribe else None
  }

  function ConvertedResponses(p: Option<PermissionsSpec>): Option<ResponsePermission>
  {
    if p.Some? && p.value.allowResponses.Some? then
      var a := p.value.allowResponses.value;
      Some(ResponsePermission(ShouldEmit(a), a.maxMsgs, a.ttl))
    else None
  }

  function ConvertPermissions(p: Option<PermissionsSpec>, prefix: string): Permissions
  {
    var sub := if prefix == "" then DeclaredSubscribe(p) else Some(Injected(DeclaredSubscribe(p), prefix));
    Permissions(Some(Backfilled(DeclaredPublish(p))), Some(Backfilled(sub)), ConvertedResponses(p))
  }

  // ---- the code: rules are objects that are filled in place ----

  class RuleObject {
    var allow: seq<string>
    var deny: seq<string>

    constructor (allow: seq<string>, deny: seq<string>)
      ensures this.allow == allow && this.deny == deny
    {
      this.allow, this.deny := allow, deny;
    }

    function Value(): PermissionRule
      reads this
    {
      PermissionRule(allow, deny)
    }
  }

  function RuleValue(r: RuleObject?): Option<PermissionRule>
    reads r
  {
    if r == null then None else Some(r.Value())
  }

  class PermissionsObject {
    var publish: RuleObject?
    var subscribe: RuleObject?
    var allowResponses: Option<ResponsePermission>

    constructor ()
      ensures publish == null && subscribe == null && allowResponses == None
    {
      publish, subscribe, allowResponses := null, null, None;
    }

    function Value(): Permissions
      reads this, publish, subscribe
    {
      Permissions(RuleValue(publish), RuleValue(subscribe), allowResponses)
    }
  }

  method ContainsString(slice: seq<string>, s: string) returns (found: bool)
    ensures found <==> s in slice
  {
    for i := 0 to |slice|
      invariant s !in slice[..i]
    {
      if slice[i] == s {
        return true;
      }
    }
    return false;
  }

  /** Fills the given rule in place, or a new one when there is none. */
  method InjectInboxPrefix(sub: RuleObject?, prefix: string) returns (r: RuleObject)
    modifies if sub == null then {} else {sub}
    ensures sub == null ==> fresh(r)
    ensures sub != null ==> r == sub
    ensures r.Value() == Injected(old(RuleValue(sub)), prefix)
  {
    if sub == null {
      r := new RuleObject([], []);
    } else {
      r := sub;
    }
    var hasDeny := ContainsString(r.deny, INBOX_DENY);
    if !hasDeny {
      r.deny := r.deny + [INBOX_DENY];
    }
    var hasAllow := ContainsString(r.allow, prefix + ".>");
    if !hasAllow {
      r.allow := r.allow + [prefix + ".>"];
    }
  }

  method BackfillDeny(rule: RuleObject?) returns (r: RuleObject)
    modifies if rule == null then {} else {rule}
    ensures rule == null ==> fresh(r)
    ensures rule != null ==> r == rule
    ensures r.Value() == Backfilled(old(RuleValue(rule)))
  {
    if rule == null {
      r := new RuleObject([], []);
    } else {
      r := rule;
    }
    if |r.allow| == 0 {
      var denied := ContainsString(r.deny, DENY_ALL);
      if !denied {
        r.deny := r.deny + [DENY_ALL];
      }
    }
  }

  method ConvertPermissionsObject(p: Option<PermissionsSpec>, prefix: string) returns (c: PermissionsObject)
    ensures fresh(c) && c.publish != null && c.subscribe != null && fresh(c.publish) && fresh(c.subscribe)
    ensures c.publish != c.subscribe
    ensures c.Value() == ConvertPermissions(p, prefix)
  {
    hide Injected, Backfilled, ShouldEmit;
    c := new PermissionsObject();
    if p.Some? {
      if p.value.publish.Some? {
        c.publish := new RuleObject(p.value.publish.value.allow, p.value.publish.value.deny);
      }
      if p.value.subscribe.Some? {
        c.subscribe := new RuleObject(p.value.subscribe.value.allow, p.value.subscribe.value.deny);
      }
      if p.value.allowResponses.Some? {
        var a := p.value.allowResponses.value;
        c.allowResponses := Some(ResponsePermission(ShouldEmit(a), a.maxMsgs, a.ttl));
      }
    }
    if prefix != "" {
      var sub := InjectInboxPrefix(c.subscribe, prefix);
      c.subscribe := sub;
    }
    var pub := BackfillDeny(c.publish);
    c.publish := pub;
    var sub := BackfillDeny(c.subscribe);
    c.subscribe := sub;
  }

  // ---- what the converted rules mean ----

  lemma AppendMissingCovers(ss: seq<string>, p: string, subject: string)
    ensures AnyCovers(AppendMissing(ss, p), subject) <==> AnyCovers(ss, subject) || Covers(p, subject)
  {
    AnyCoversAppend(ss, p, subject);
  }

  /** The backfill turns "empty allow list allows all" into "nothing allowed is nothing granted". */
  lemma BackfilledMeaning(rule: Option<PermissionRule>, subject: string)
    ensures Accepts(Backfilled(rule), subject) <==> Grants(rule, subject)
  {
    var r := OrEmpty(rule);
    AppendMissingCovers(r.deny, DENY_ALL, subject);
    FullWildcardCoversAll(subject);
  }

  /** Publishing: the server accepts exactly what the declaration grants. */
  lemma PublishMeaning(p: Option<PermissionsSpec>, prefix: string, subject: string)
    ensures Accepts(ConvertPermissions(p, prefix).publish.value, subject)
            <==> Grants(DeclaredPublish(p), subject)
  {
    BackfilledMeaning(DeclaredPublish(p), subject);
  }

  /**
   * Subscribing: what the declaration grants, and the user's own inbox space unless the user
   * denied it; with a prefix in force, never the shared inbox space.
   */
  lemma SubscribeMeaning(p: Option<PermissionsSpec>, prefix: string, subject: string)
    ensures Accepts(ConvertPermissions(p, prefix).subscribe.value, subject)
            <==>
            && (Grants(DeclaredSubscribe(p), subject)
                || (prefix != "" && Under(prefix, subject) && !Denies(DeclaredSubscribe(p), subject)))
            && (prefix != "" ==> !Under("_INBOX", subject))
  {
    var declared := DeclaredSubscribe(p);
    if prefix == "" {
      BackfilledMeaning(declared, subject);
    } else {
      var r := OrEmpty(declared);
      BackfilledMeaning(Some(Injected(declared, prefix)), subject);
      AppendMissingCovers(r.allow, prefix + ".>", subject);
      AppendMissingCovers(r.deny, INBOX_DENY, subject);
      assert "_INBOX" + ".>" == INBOX_DENY;
    }
  }

  /** A user who declares nothing and has no prefix can neither publish nor subscribe anything. */
  lemma NothingDeclaredNothingGranted(subject: string)
    ensures !Accepts(ConvertPermissions(None, "").publish.value, subject)
    ensures !Accepts(ConvertPermissions(None, "").subscribe.value, subject)
  {
    PublishMeaning(None, "", subject);
    SubscribeMeaning(None, "", subject);
  }

  /** A user's own inbox works, whatever else is declared, unless denied; "_INBOX" itself cannot be a prefix. */
  lemma OwnInboxUsable(p: Option<PermissionsSpec>, prefix: string, subject: string)
    requires SingleToken(prefix)
    requires Under(prefix, subject)
    ensures Accepts(ConvertPermissions(p, prefix).subscribe.value, subject)
            <==> prefix != "_INBOX" && !Denies(DeclaredSubscribe(p), subject)
  {
    SubscribeMeaning(p, prefix, subject);
    InboxIsSingleToken();
    assert prefix != "";
    hide Under, Accepts, ConvertPermissions, AnyCovers, SingleToken;
    SpacesDisjoint(prefix, "_INBOX", subject);
  }

  /**
   * Isolation: in the inbox space of one prefix, a user with another prefix is accepted exactly
   * where that user's own declaration says so explicitly, and never through the injected rules.
   */
  lemma InboxIsolation(p: Option<PermissionsSpec>, own: string, other: string, subject: string)
    requires SingleToken(own) && SingleToken(other) && own != other && other != "_INBOX"
    requires Under(other, subject)
    ensures Accepts(ConvertPermissions(p, own).subscribe.value, subject) <==> Grants(DeclaredSubscribe(p), subject)
  {
    SubscribeMeaning(p, own, subject);
    InboxIsSingleToken();
    hide Under, Accepts, ConvertPermissions, AnyCovers;
    SpacesDisjoint(other, own, subject);
    SpacesDisjoint(other, "_INBOX", subject);
  }

  /** The shared inbox is closed to every user with a prefix, even one who declares allow ">". */
  lemma SharedInboxClosed(p: Option<PermissionsSpec>, prefix: string, subject: string)
    requires prefix != "" && Under("_INBOX", subject)
    ensures !Accepts(ConvertPermissions(p, prefix).subscribe.value, subject)
  {
    SubscribeMeaning(p, prefix, subject);
  }

  /** The list is the declared one, with at most one entry behind it that was not declared. */
  predicate AddsOnlyMissing(declared: seq<string>, converted: seq<string>)
  {
    || converted == declared
    || (|converted| == |declared| + 1 && declared <= converted && converted[|declared|] !in declared)
  }

  /** Declared entries stay, in place and in order; at most one entry is added per list, and never twice. */
  lemma DeclaredEntriesKept(p: Option<PermissionsSpec>, prefix: string)
    ensures var c := ConvertPermissions(p, prefix);
            var publish, subscribe := OrEmpty(DeclaredPublish(p)), OrEmpty(DeclaredSubscribe(p));
            && c.publish.value.allow == publish.allow && AddsOnlyMissing(publish.deny, c.publish.value.deny)
            && AddsOnlyMissing(subscribe.allow, c.subscribe.value.allow)
            && AddsOnlyMissing(subscribe.deny, c.subscribe.value.deny)
  {}
}
