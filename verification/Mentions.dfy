/** Which printed lines of a config tree hold a text, and what is printed before and after one of its nodes. */
module Mentions {
  import opened Text
  import opened ConfigTree
  import opened BlockScan
  import opened CalmTree

  // ---- printed lines that hold a text ----

  /** The needle is a key mark with a key: it starts visibly and is longer than a bracket. */
  predicate Needle(m: string)
  {
    |m| >= 2 && m[0] != ' '
  }

  /** Some text printed for the node holds m. */
  ghost predicate Speaks(n: Node, m: string)
  {
    match n
    case Comment(t) => Contains(t, m)
    case Field(t) => Contains(t, m)
    case Block(head, b, kids) =>
      Contains(head + OpenText(b), m) || exists i :: 0 <= i < |kids| && Speaks(kids[i], m)
  }

  ghost predicate AnySpeaks(ns: seq<Node>, m: string)
  {
    exists n <- ns :: Speaks(n, m)
  }

  lemma OccursShifted(front: string, s: string, sub: string, p: nat)
    ensures OccursAt(front + s, sub, |front| + p) <==> OccursAt(s, sub, p)
  {
    if p + |sub| <= |s| {
      assert (front + s)[|front| + p..|front| + p + |sub|] == s[p..p + |sub|];
    }
  }

  lemma PaddedContains(indent: nat, t: string, m: string)
    requires Needle(m)
    ensures Contains(Pad(indent) + t, m) <==> Contains(t, m)
  {
    hide Pad;
    if Contains(t, m) {
      var p :| 0 <= p <= |t| && OccursAt(t, m, p);
      OccursShifted(Pad(indent), t, m, p);
      assert OccursAt(Pad(indent) + t, m, |Pad(indent)| + p);
    }
    if Contains(Pad(indent) + t, m) {
      PadContains(indent, t, m);
    }
  }

  lemma CloseLineSilent(indent: nat, b: Bracket, m: string)
    requires Needle(m)
    ensures !Contains(Pad(indent) + CloseText(b), m)
  {
    PaddedContains(indent, CloseText(b), m);
  }

  lemma NoneContainsConcat(a: seq<string>, b: seq<string>, m: string)
    ensures NoneContains(a + b, m) <==> NoneContains(a, m) && NoneContains(b, m)
  {
    if NoneContains(a + b, m) {
      assert forall i :: 0 <= i < |a| ==> (a + b)[i] == a[i];
      assert forall i :: 0 <= i < |b| ==> (a + b)[|a| + i] == b[i];
    }
    hide Contains;
  }

  lemma OneLineSpeaks(line: string, m: string)
    ensures NoneContains([line], m) <==> !Contains(line, m)
  {
    if NoneContains([line], m) {
      assert [line][0] == line;
    }
    hide Contains;
  }

  lemma BlockSpeaks(open: string, body: seq<string>, close: string, m: string)
    requires !Contains(close, m)
    ensures NoneContains([open] + body + [close], m) <==> !Contains(open, m) && NoneContains(body, m)
  {
    hide Contains;
    NoneContainsConcat([open] + body, [close], m);
    NoneContainsConcat([open], body, m);
    OneLineSpeaks(open, m);
    OneLineSpeaks(close, m);
  }

  lemma {:induction false} NodeSpeaks(n: Node, indent: nat, m: string)
    requires Needle(m)
    ensures NoneContains(RenderNode(n, indent), m) <==> !Speaks(n, m)
    decreases n, 1
  {
    hide Contains, Pad;
    match n
    case Comment(t) =>
      PaddedContains(indent, t, m);
      OneLineSpeaks(Pad(indent) + t, m);
    case Field(t) =>
      PaddedContains(indent, t, m);
      OneLineSpeaks(Pad(indent) + t, m);
    case Block(head, b, kids) =>
      NodesSpeak(kids, indent + 1, m);
      PaddedContains(indent, head + OpenText(b), m);
      assert Pad(indent) + (head + OpenText(b)) == Pad(indent) + head + OpenText(b);
      CloseLineSilent(indent, b, m);
      BlockSpeaks(Pad(indent) + head + OpenText(b), RenderNodes(kids, indent + 1), Pad(indent) + CloseText(b), m);
  }

  lemma {:induction false} NodesSpeak(ns: seq<Node>, indent: nat, m: string)
    requires Needle(m)
    ensures NoneContains(RenderNodes(ns, indent), m) <==> !AnySpeaks(ns, m)
    decreases ns, 0
  {
    hide Contains, Speaks;
    if ns != [] {
      NodeSpeaks(ns[0], indent, m);
      NodesSpeak(ns[1..], indent, m);
      NoneContainsConcat(RenderNode(ns[0], indent), RenderNodes(ns[1..], indent), m);
      assert ns == [ns[0]] + ns[1..];
    }
  }

  // ---- printed lines that begin with a text ----

  /** After its indentation the line begins with m. */
  ghost predicate Begins(line: string, m: string)
  {
    exists d: nat :: Pad(d) + m <= line
  }

  ghost predicate NoneBegins(lines: seq<string>, m: string)
  {
    forall l <- lines :: !Begins(l, m)
  }

  /** No text printed for the node begins with m. */
  ghost predicate Foreign(n: Node, m: string)
  {
    match n
    case Comment(t) => !(m <= t)
    case Field(t) => !(m <= t)
    case Block(head, b, kids) => !(m <= head + OpenText(b)) && forall i :: 0 <= i < |kids| ==> Foreign(kids[i], m)
  }

  ghost predicate AllForeign(ns: seq<Node>, m: string)
  {
    forall n <- ns :: Foreign(n, m)
  }

  lemma {:induction false} PaddedBegins(d: nat, indent: nat, t: string, m: string)
    requires Needle(m) && t != "" && t[0] != ' ' && Pad(d) + m <= Pad(indent) + t
    ensures m <= t
  {
    var l, r := Pad(d) + m, Pad(indent) + t;
    assert l[0] == r[0];
    if d > 0 && indent > 0 {
      assert Pad(d - 1) + m == l[2..] && Pad(indent - 1) + t == r[2..];
      PaddedBegins(d - 1, indent - 1, t, m);
    } else {
      assert d == 0 ==> l == m;
      assert indent == 0 ==> r == t;
    }
  }

  lemma LineBegins(indent: nat, t: string, m: string)
    requires Needle(m) && t != "" && t[0] != ' ' && !(m <= t)
    ensures NoneBegins([Pad(indent) + t], m)
  {
    if d: nat :| Pad(d) + m <= Pad(indent) + t {
      PaddedBegins(d, indent, t, m);
      assert false;
    }
  }

  lemma {:induction false} NodeBegins(n: Node, indent: nat, m: string)
    requires Needle(m) && WellFormed(n) && Foreign(n, m)
    ensures NoneBegins(RenderNode(n, indent), m)
    decreases n, 1
  {
    hide Pad, Begins;
    match n
    case Comment(t) => LineBegins(indent, t, m);
    case Field(t) => LineBegins(indent, t, m);
    case Block(head, b, kids) =>
      assert AllForeign(kids, m);
      NodesBegin(kids, indent + 1, m);
      LineBegins(indent, head + OpenText(b), m);
      assert Pad(indent) + (head + OpenText(b)) == Pad(indent) + head + OpenText(b);
      LineBegins(indent, CloseText(b), m);
  }

  lemma {:induction false} NodesBegin(ns: seq<Node>, indent: nat, m: string)
    requires Needle(m) && AllWellFormed(ns) && AllForeign(ns, m)
    ensures NoneBegins(RenderNodes(ns, indent), m)
    decreases ns, 0
  {
    hide Begins, Foreign;
    if ns != [] {
      NodeBegins(ns[0], indent, m);
      NodesBegin(ns[1..], indent, m);
    }
  }

  // ---- the lines around a node ----

  /** A node is addressed by its index at the top, then among the children of that node, and so on. */
  predicate ValidPath(ns: seq<Node>, path: seq<nat>)
    decreases |path|
  {
    && path != [] && path[0] < |ns|
    && (|path| > 1 ==> ns[path[0]].Block? && ValidPath(ns[path[0]].kids, path[1..]))
  }

  function NodeAt(ns: seq<Node>, path: seq<nat>): Node
    requires ValidPath(ns, path)
    decreases |path|
  {
    if |path| == 1 then ns[path[0]] else NodeAt(ns[path[0]].kids, path[1..])
  }

  function LinesBefore(ns: seq<Node>, path: seq<nat>, indent: nat): seq<string>
    requires ValidPath(ns, path)
    decreases |path|
  {
    RenderNodes(ns[..path[0]], indent)
    + if |path| == 1 then [] else
        [Pad(indent) + ns[path[0]].head + OpenText(ns[path[0]].bracket)]
        + LinesBefore(ns[path[0]].kids, path[1..], indent + 1)
  }

  function LinesAfter(ns: seq<Node>, path: seq<nat>, indent: nat): seq<string>
    requires ValidPath(ns, path)
    decreases |path|
  {
    (if |path| == 1 then [] else
       LinesAfter(ns[path[0]].kids, path[1..], indent + 1) + [Pad(indent) + CloseText(ns[path[0]].bracket)])
    + RenderNodes(ns[path[0] + 1..], indent)
  }

  lemma RenderAt(ns: seq<Node>, i: nat, indent: nat)
    requires i < |ns|
    ensures RenderNodes(ns, indent)
            == RenderNodes(ns[..i], indent) + RenderNode(ns[i], indent) + RenderNodes(ns[i + 1..], indent)
  {
    assert ns == ns[..i] + ns[i..] && ns[i..][0] == ns[i] && ns[i..][1..] == ns[i + 1..];
    RenderNodesConcat(ns[..i], ns[i..], indent);
    assert RenderNodes(ns[i..], indent) == RenderNode(ns[i], indent) + RenderNodes(ns[i + 1..], indent);
  }

  /** The printed lines are those before the node, its own, and those after it. */
  lemma {:induction false} LinesAround(ns: seq<Node>, path: seq<nat>, indent: nat)
    requires ValidPath(ns, path)
    ensures RenderNodes(ns, indent)
            == LinesBefore(ns, path, indent) + RenderNode(NodeAt(ns, path), indent + |path| - 1)
               + LinesAfter(ns, path, indent)
    decreases |path|
  {
    hide Pad, OpenText, CloseText, RenderNodes;
    RenderAt(ns, path[0], indent);
    if |path| > 1 {
      LinesAround(ns[path[0]].kids, path[1..], indent + 1);
    }
  }

  /** Something printed before the node holds m. */
  ghost predicate SpeaksBefore(ns: seq<Node>, path: seq<nat>, m: string)
    requires ValidPath(ns, path)
    decreases |path|
  {
    || AnySpeaks(ns[..path[0]], m)
    || (|path| > 1 && (|| Contains(ns[path[0]].head + OpenText(ns[path[0]].bracket), m)
                       || SpeaksBefore(ns[path[0]].kids, path[1..], m)))
  }

  lemma {:induction false} BeforeSpeaks(ns: seq<Node>, path: seq<nat>, indent: nat, m: string)
    requires ValidPath(ns, path) && Needle(m)
    ensures NoneContains(LinesBefore(ns, path, indent), m) <==> !SpeaksBefore(ns, path, m)
    decreases |path|
  {
    hide Contains, Pad, AnySpeaks;
    NodesSpeak(ns[..path[0]], indent, m);
    if |path| > 1 {
      var n, front := ns[path[0]], RenderNodes(ns[..path[0]], indent);
      var open, inner := Pad(indent) + n.head + OpenText(n.bracket), LinesBefore(n.kids, path[1..], indent + 1);
      BeforeSpeaks(n.kids, path[1..], indent + 1, m);
      PaddedContains(indent, n.head + OpenText(n.bracket), m);
      assert Pad(indent) + (n.head + OpenText(n.bracket)) == open;
      OneLineSpeaks(open, m);
      NoneContainsConcat([open], inner, m);
      NoneContainsConcat(front, [open] + inner, m);
    } else {
      assert RenderNodes(ns[..path[0]], indent) + [] == RenderNodes(ns[..path[0]], indent);
    }
  }

  /** Nothing printed before the node begins with m. */
  ghost predicate ForeignBefore(ns: seq<Node>, path: seq<nat>, m: string)
    requires ValidPath(ns, path)
    decreases |path|
  {
    && AllForeign(ns[..path[0]], m)
    && (|path| > 1 ==> !(m <= ns[path[0]].head + OpenText(ns[path[0]].bracket))
                       && ForeignBefore(ns[path[0]].kids, path[1..], m))
  }

  lemma {:induction false} WellFormedParts(ns: seq<Node>, i: nat)
    requires AllWellFormed(ns) && i < |ns|
    ensures AllWellFormed(ns[..i]) && WellFormed(ns[i])
  {
    if i > 0 {
      assert ns[..i][0] == ns[0] && ns[..i][1..] == ns[1..][..i - 1];
      WellFormedParts(ns[1..], i - 1);
    }
    hide WellFormed;
  }

  lemma {:induction false} BeforeBegins(ns: seq<Node>, path: seq<nat>, indent: nat, m: string)
    requires ValidPath(ns, path) && Needle(m) && AllWellFormed(ns) && ForeignBefore(ns, path, m)
    ensures NoneBegins(LinesBefore(ns, path, indent), m)
    decreases |path|
  {
    hide Begins, Pad, Foreign;
    WellFormedParts(ns, path[0]);
    NodesBegin(ns[..path[0]], indent, m);
    if |path| > 1 {
      var n := ns[path[0]];
      BeforeBegins(n.kids, path[1..], indent + 1, m);
      LineBegins(indent, n.head + OpenText(n.bracket), m);
      assert Pad(indent) + (n.head + OpenText(n.bracket)) == Pad(indent) + n.head + OpenText(n.bracket);
    }
  }

  // ---- going down one step ----

  lemma AtTop(ns: seq<Node>, i: nat, m: string)
    requires i < |ns|
    ensures ValidPath(ns, [i]) && NodeAt(ns, [i]) == ns[i]
    ensures SpeaksBefore(ns, [i], m) <==> AnySpeaks(ns[..i], m)
    ensures ForeignBefore(ns, [i], m) <==> AllForeign(ns[..i], m)
  {
    hide Speaks, Foreign;
  }

  lemma StepDown(ns: seq<Node>, i: nat, path: seq<nat>, m: string)
    requires i < |ns| && ns[i].Block? && ValidPath(ns[i].kids, path)
    ensures ValidPath(ns, [i] + path) && NodeAt(ns, [i] + path) == NodeAt(ns[i].kids, path)
    ensures SpeaksBefore(ns, [i] + path, m)
            <==> || AnySpeaks(ns[..i], m) || Contains(ns[i].head + OpenText(ns[i].bracket), m)
                 || SpeaksBefore(ns[i].kids, path, m)
    ensures ForeignBefore(ns, [i] + path, m)
            <==> && AllForeign(ns[..i], m) && !(m <= ns[i].head + OpenText(ns[i].bracket))
                 && ForeignBefore(ns[i].kids, path, m)
  {
    hide Speaks, Foreign, Contains;
    assert ([i] + path)[1..] == path;
  }
}
