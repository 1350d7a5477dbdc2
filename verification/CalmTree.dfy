/** Config trees whose printed braces match. */
module CalmTree {
  import opened Text
  import opened ConfigTree
  import opened BlockScan

  // ---- substrings ----

  /** Indentation adds no occurrence of a text that starts with another character. */
  lemma {:induction false} PadContains(indent: nat, t: string, sub: string)
    requires sub != "" && sub[0] != ' ' && Contains(Pad(indent) + t, sub)
    ensures Contains(t, sub)
  {
    if indent > 0 {
      var s := Pad(indent - 1) + t;
      assert Pad(indent) + t == "  " + s;
      var p :| 0 <= p <= |"  " + s| && OccursAt("  " + s, sub, p);
      assert ("  " + s)[p] == sub[0];
      assert OccursAt(s, sub, p - 2) by {
        assert s[p - 2..p - 2 + |sub|] == ("  " + s)[p..p + |sub|];
      }
      PadContains(indent - 1, t, sub);
    } else {
      assert Pad(0) + t == t;
    }
  }

  /** A text without one of the characters sought does not contain it. */
  lemma LacksCharacter(s: string, sub: string, c: char)
    requires c in sub && c !in s
    ensures !Contains(s, sub)
  {
    var i :| 0 <= i < |sub| && sub[i] == c;
    forall p | 0 <= p <= |s| ensures !OccursAt(s, sub, p) {
      if p + |sub| <= |s| {
        assert s[p..p + |sub|][i] == s[p + i];
      }
    }
  }

  // ---- braces ----

  lemma {:induction false} CountConcat(a: string, b: string, c: char)
    ensures Count(a + b, c) == Count(a, c) + Count(b, c)
  {
    if b == "" {
      assert a + b == a;
    } else {
      assert (a + b)[..|a + b| - 1] == a + b[..|b| - 1];
      CountConcat(a, b[..|b| - 1], c);
    }
  }

  lemma {:induction false} CountAbsent(s: string, c: char)
    requires c !in s
    ensures Count(s, c) == 0
  {
    if s != "" {
      CountAbsent(s[..|s| - 1], c);
    }
  }

  lemma {:induction false} PadHasNoBraces(indent: nat)
    ensures forall c <- Pad(indent) :: c == ' '
  {
    if indent > 0 {
      PadHasNoBraces(indent - 1);
    }
  }

  predicate Braceless(s: string)
  {
    '{' !in s && '}' !in s
  }

  lemma NetOf(indent: nat, s: string, tail: string)
    requires Braceless(s)
    ensures Net(Pad(indent) + s + tail) == Net(tail) && Net(Pad(indent) + s) == 0
  {
    PadHasNoBraces(indent);
    CountConcat(Pad(indent) + s, tail, '{');
    CountConcat(Pad(indent) + s, tail, '}');
    CountAbsent(Pad(indent) + s, '{');
    CountAbsent(Pad(indent) + s, '}');
  }

  lemma {:induction false} DepthConcat(a: seq<string>, b: seq<string>)
    ensures Depth(a + b) == Depth(a) + Depth(b)
  {
    if b == [] {
      assert a + b == a;
    } else {
      assert (a + b)[..|a + b| - 1] == a + b[..|b| - 1];
      DepthConcat(a, b[..|b| - 1]);
    }
  }

  /** Braces match, and never close more than was opened. */
  ghost predicate Matched(lines: seq<string>)
  {
    Depth(lines) == 0 && forall p :: 0 <= p <= |lines| ==> Depth(lines[..p]) >= 0
  }

  lemma MatchedConcat(a: seq<string>, b: seq<string>)
    requires Matched(a) && Matched(b)
    ensures Matched(a + b)
  {
    DepthConcat(a, b);
    forall p | 0 <= p <= |a + b| ensures Depth((a + b)[..p]) >= 0 {
      if p <= |a| {
        assert (a + b)[..p] == a[..p];
      } else {
        assert (a + b)[..p] == a + b[..p - |a|];
        DepthConcat(a, b[..p - |a|]);
      }
    }
    hide Depth;
  }

  lemma MatchedOne(line: string)
    requires Net(line) == 0
    ensures Matched([line])
  {
    assert [line][..0] == [];
    forall p | 0 <= p <= 1 ensures Depth([line][..p]) >= 0 {
      assert p == 1 ==> [line][..p] == [line];
    }
  }

  /** Wrapped in an opening and a closing line, matched lines are a balanced block. */
  lemma WrappedIsBalanced(open: string, body: seq<string>, close: string)
    requires Net(open) == 1 && Net(close) == -1 && Matched(body)
    ensures Balanced([open] + body + [close])
  {
    var block := [open] + body + [close];
    assert [open][..0] == [];
    DepthConcat([open], body);
    assert block[..|block| - 1] == [open] + body;
    forall p | 0 < p < |block| ensures Depth(block[..p]) > 0 {
      assert block[..p] == [open] + body[..p - 1];
      DepthConcat([open], body[..p - 1]);
    }
  }

  lemma BalancedIsMatched(block: seq<string>)
    requires Balanced(block)
    ensures Matched(block)
  {
    assert block[..|block|] == block;
    assert block[..0] == [];
  }

  // ---- calm trees ----

  predicate PlainText(t: string)
  {
    t != "" && t[|t| - 1] != ' ' && Braceless(t)
  }

  /** Printed texts hold no braces and end visibly. */
  predicate Calm(n: Node)
    decreases n, 1
  {
    match n
    case Comment(t) => PlainText(t)
    case Field(t) => PlainText(t)
    case Block(head, _, kids) => Braceless(head) && AllCalm(kids)
  }

  predicate AllCalm(ns: seq<Node>)
    decreases ns, 0
  {
    ns == [] || (Calm(ns[0]) && AllCalm(ns[1..]))
  }

  lemma {:induction false} AllCalmConcat(a: seq<Node>, b: seq<Node>)
    requires AllCalm(a) && AllCalm(b)
    ensures AllCalm(a + b)
  {
    if a == [] {
      assert a + b == b;
    } else {
      assert (a + b)[1..] == a[1..] + b;
      AllCalmConcat(a[1..], b);
    }
  }

  lemma OneCalm(n: Node)
    requires Calm(n)
    ensures AllCalm([n])
  {
    assert [n][1..] == [];
  }

  /** What is known of the printed lines of calm nodes. */
  ghost predicate CalmLines(lines: seq<string>)
  {
    Tidy(lines) && Matched(lines)
  }

  lemma TextLine(t: string, indent: nat)
    requires PlainText(t)
    ensures CalmLines([Pad(indent) + t])
  {
    var line := Pad(indent) + t;
    NetOf(indent, t, "");
    MatchedOne(line);
    assert line[|line| - 1] == t[|t| - 1];
    hide Matched;
  }

  lemma OneBrace()
    ensures Net("{") == 1 && Net("}") == -1 && Net("[") == 0 && Net("]") == 0
  {
    assert "{"[..0] == "" && "}"[..0] == "" && "["[..0] == "" && "]"[..0] == "";
  }

  lemma OpenLineFacts(head: string, b: Bracket, indent: nat)
    requires Braceless(head)
    ensures var line := Pad(indent) + head + OpenText(b);
            line[|line| - 1] != ' ' && Net(line) == if b == Brace then 1 else 0
  {
    NetOf(indent, head, OpenText(b));
    OneBrace();
  }

  lemma CloseLineFacts(b: Bracket, indent: nat)
    ensures var line := Pad(indent) + CloseText(b);
            line[|line| - 1] != ' ' && Net(line) == if b == Brace then -1 else 0
  {
    NetOf(indent, "", CloseText(b));
    assert Pad(indent) + "" + CloseText(b) == Pad(indent) + CloseText(b);
    OneBrace();
  }

  lemma WrappedLines(open: string, body: seq<string>, close: string, brace: bool)
    requires open != "" && open[|open| - 1] != ' ' && Net(open) == if brace then 1 else 0
    requires close != "" && close[|close| - 1] != ' ' && Net(close) == if brace then -1 else 0
    requires CalmLines(body)
    ensures CalmLines([open] + body + [close])
    ensures brace ==> Balanced([open] + body + [close])
  {
    hide Net, Depth;
    if brace {
      WrappedIsBalanced(open, body, close);
      BalancedIsMatched([open] + body + [close]);
    } else {
      MatchedOne(open);
      MatchedOne(close);
      MatchedConcat([open], body);
      MatchedConcat([open] + body, [close]);
    }
  }

  lemma BlockLines(head: string, b: Bracket, body: seq<string>, indent: nat)
    requires Braceless(head) && CalmLines(body)
    ensures CalmLines([Pad(indent) + head + OpenText(b)] + body + [Pad(indent) + CloseText(b)])
    ensures b == Brace ==> Balanced([Pad(indent) + head + OpenText(b)] + body + [Pad(indent) + CloseText(b)])
  {
    hide CalmLines, Net, Balanced, Pad;
    OpenLineFacts(head, b, indent);
    CloseLineFacts(b, indent);
    WrappedLines(Pad(indent) + head + OpenText(b), body, Pad(indent) + CloseText(b), b == Brace);
  }

  lemma {:induction false} CalmNodeLines(n: Node, indent: nat)
    requires Calm(n)
    ensures CalmLines(RenderNode(n, indent))
    ensures n.Block? && n.bracket == Brace ==> Balanced(RenderNode(n, indent))
    decreases n, 1
  {
    match n
    case Comment(t) => TextLine(t, indent);
    case Field(t) => TextLine(t, indent);
    case Block(head, b, kids) =>
      CalmNodesLines(kids, indent + 1);
      BlockLines(head, b, RenderNodes(kids, indent + 1), indent);
  }

  lemma {:induction false} CalmNodesLines(ns: seq<Node>, indent: nat)
    requires AllCalm(ns)
    ensures CalmLines(RenderNodes(ns, indent))
    decreases ns, 0
  {
    if ns != [] {
      CalmNodeLines(ns[0], indent);
      CalmNodesLines(ns[1..], indent);
      MatchedConcat(RenderNode(ns[0], indent), RenderNodes(ns[1..], indent));
      hide Matched;
    }
  }
}
