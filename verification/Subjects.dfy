/** NATS subjects and the server's permission rule, as the meaning of a PermissionRule. */
module Subjects {
  import opened Text
  import opened NatsConfig

  /** A subject's tokens: the pieces between dots. */
  function Tokens(s: string): (r: seq<string>)
    ensures r != []
  {
    var k := IndexOf(s, '.');
    if k == |s| then [s] else [s[..k]] + Tokens(s[k + 1..])
  }

  /** "*" stands for one token, a final ">" for one or more. */
  predicate Matches(pattern: seq<string>, subject: seq<string>)
  {
    if pattern == [] then subject == []
    else if pattern == [">"] then subject != []
    else subject != [] && (pattern[0] == "*" || pattern[0] == subject[0]) && Matches(pattern[1..], subject[1..])
  }

  predicate Covers(pattern: string, subject: string)
  {
    Matches(Tokens(pattern), Tokens(subject))
  }

  ghost predicate AnyCovers(patterns: seq<string>, subject: string)
  {
    exists p <- patterns :: Covers(p, subject)
  }

  /** The server: an empty allow list allows everything, and a matching deny wins. */
  ghost predicate Accepts(rule: PermissionRule, subject: string)
  {
    (rule.allow == [] || AnyCovers(rule.allow, subject)) && !AnyCovers(rule.deny, subject)
  }

  /** What a declared rule grants: only what it allows explicitly, and nothing it denies. */
  ghost predicate Grants(rule: Option<PermissionRule>, subject: string)
  {
    rule.Some? && AnyCovers(rule.value.allow, subject) && !AnyCovers(rule.value.deny, subject)
  }

  ghost predicate Denies(rule: Option<PermissionRule>, subject: string)
  {
    rule.Some? && AnyCovers(rule.value.deny, subject)
  }

  /** The subject lies in the space <prefix>.> */
  predicate Under(prefix: string, subject: string)
  {
    Covers(prefix + ".>", subject)
  }

  lemma FullWildcardCoversAll(subject: string)
    ensures Covers(">", subject)
  {
    assert Tokens(">") == [">"];
  }

  /** One token without dots and wildcards: every generated prefix and every admitted override. */
  ghost predicate SingleToken(prefix: string)
  {
    prefix != "" && prefix != "*" && prefix != ">" && '.' !in prefix
  }

  lemma MatchesSpace(prefix: string, subject: seq<string>)
    requires prefix != "*"
    ensures Matches([prefix, ">"], subject) <==> |subject| >= 2 && subject[0] == prefix
  {
    assert [prefix, ">"][1..] == [">"];
  }

  /** For a one-token prefix, the space is the subjects that start with it and go on. */
  lemma UnderSingleToken(prefix: string, subject: string)
    requires SingleToken(prefix)
    ensures Under(prefix, subject) <==> |Tokens(subject)| >= 2 && Tokens(subject)[0] == prefix
  {
    var pattern := prefix + ".>";
    assert pattern == prefix + ['.'] + ">";
    IndexOfFirst(prefix, '.', ">");
    assert pattern[..|prefix|] == prefix && pattern[|prefix| + 1..] == ">";
    assert Tokens(">") == [">"];
    assert Tokens(pattern) == [prefix, ">"];
    hide Tokens, Matches;
    MatchesSpace(prefix, Tokens(subject));
  }

  /** The spaces of different one-token prefixes do not meet. */
  lemma SpacesDisjoint(a: string, b: string, subject: string)
    requires SingleToken(a) && SingleToken(b) && Under(a, subject)
    ensures Under(b, subject) <==> a == b
  {
    UnderSingleToken(a, subject);
    UnderSingleToken(b, subject);
    hide Under, Tokens;
  }

  lemma InboxIsSingleToken()
    ensures SingleToken("_INBOX")
  {}

  /** Appending one pattern adds exactly what it covers. */
  lemma AnyCoversAppend(patterns: seq<string>, p: string, subject: string)
    ensures AnyCovers(patterns + [p], subject) <==> AnyCovers(patterns, subject) || Covers(p, subject)
  {
    if AnyCovers(patterns, subject) {
      var q :| q in patterns && Covers(q, subject);
      assert q in patterns + [p];
    }
    assert p in patterns + [p];
  }
}
