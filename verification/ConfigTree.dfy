/**
 * The block structure of the server's config language, as far as the generator uses it: comment
 * lines, one-line fields, and blocks in braces or square brackets, indented by two spaces a level.
 */
module ConfigTree {
  import opened Text

  datatype Bracket = Brace | Square

  datatype Node =
    | Comment(text: string)
    | Field(text: string)
    | Block(head: string, bracket: Bracket, kids: seq<Node>)

  function OpenText(b: Bracket): string
  {
    if b == Brace then "{" else "["
  }

  function CloseText(b: Bracket): string
  {
    if b == Brace then "}" else "]"
  }

  /** The lines of a node at an indentation level. */
  function RenderNode(n: Node, indent: nat): seq<string>
    decreases n, 1
  {
    match n
    case Comment(text) => [Pad(indent) + text]
    case Field(text) => [Pad(indent) + text]
    case Block(head, bracket, kids) =>
      [Pad(indent) + head + OpenText(bracket)] + RenderNodes(kids, indent + 1) + [Pad(indent) + CloseText(bracket)]
  }

  function RenderNodes(ns: seq<Node>, indent: nat): seq<string>
    decreases ns, 0
  {
    if ns == [] then [] else RenderNode(ns[0], indent) + RenderNodes(ns[1..], indent)
  }

  // ---- parser ----

  datatype Line =
    | Blank
    | CommentLine(text: string)
    | FieldLine(text: string)
    | OpenLine(head: string, bracket: Bracket)
    | CloseLine(bracket: Bracket)

  /** What a line is, whatever its indentation. */
  function Classify(raw: string): Line
  {
    var line := TrimLeft(raw);
    if line == "" then Blank
    else if line == "}" then CloseLine(Brace)
    else if line == "]" then CloseLine(Square)
    else if line[0] == '#' then CommentLine(line)
    else if line[|line| - 1] == '{' then OpenLine(line[..|line| - 1], Brace)
    else if line[|line| - 1] == '[' then OpenLine(line[..|line| - 1], Square)
    else FieldLine(line)
  }

  function Prepend(n: Node, r: Option<(seq<Node>, seq<string>)>): Option<(seq<Node>, seq<string>)>
  {
    match r
    case None => None
    case Some((ns, rest)) => Some(([n] + ns, rest))
  }

  /** Nodes up to the line that closes the enclosing block, or up to the end. */
  function ParseNodes(lines: seq<string>): (r: Option<(seq<Node>, seq<string>)>)
    ensures r.Some? ==> |r.value.1| <= |lines|
    decreases |lines|
  {
    if lines == [] then Some(([], [])) else
      match Classify(lines[0])
      case CloseLine(_) => Some(([], lines))
      case Blank => None
      case CommentLine(text) => Prepend(Comment(text), ParseNodes(lines[1..]))
      case FieldLine(text) => Prepend(Field(text), ParseNodes(lines[1..]))
      case OpenLine(head, bracket) =>
        match ParseNodes(lines[1..])
        case None => None
        case Some((kids, rest)) =>
          if rest == [] || Classify(rest[0]) != CloseLine(bracket) then None
          else Prepend(Block(head, bracket, kids), ParseNodes(rest[1..]))
  }

  /** A whole text. */
  function ParseText(text: string): Option<seq<Node>>
  {
    match ParseNodes(Lines(text))
    case None => None
    case Some((nodes, rest)) => if rest == [] then Some(nodes) else None
  }

  // ---- which trees survive printing ----

  /** Starts a line that is neither blank, nor a comment. */
  predicate PlainStart(s: string)
  {
    s != "" && !IsSpace(s[0]) && s[0] != '#'
  }

  ghost predicate WellFormed(n: Node)
    decreases n, 1
  {
    match n
    case Comment(text) => text != "" && text[0] == '#' && OneLine(text)
    case Field(text) =>
      && PlainStart(text) && OneLine(text) && text != "}" && text != "]"
      && text[|text| - 1] != '{' && text[|text| - 1] != '['
    case Block(head, _, kids) => (head == "" || PlainStart(head)) && OneLine(head) && AllWellFormed(kids)
  }

  ghost predicate AllWellFormed(ns: seq<Node>)
    decreases ns, 0
  {
    ns == [] || (WellFormed(ns[0]) && AllWellFormed(ns[1..]))
  }

  lemma {:induction false} AllWellFormedConcat(a: seq<Node>, b: seq<Node>)
    requires AllWellFormed(a) && AllWellFormed(b)
    ensures AllWellFormed(a + b)
    decreases |a|
  {
    if a == [] {
      assert a + b == b;
    } else {
      assert (a + b)[1..] == a[1..] + b;
      AllWellFormedConcat(a[1..], b);
    }
  }

  lemma {:induction false} PadIsBlank(indent: nat)
    ensures AllSpace(Pad(indent))
  {
    if indent > 0 {
      PadIsBlank(indent - 1);
    }
  }

  lemma TrimPad(indent: nat, s: string)
    requires s != "" && !IsSpace(s[0])
    ensures TrimLeft(Pad(indent) + s) == s
  {
    PadIsBlank(indent);
    TrimLeftSkips(Pad(indent), s);
  }

  lemma {:induction false} PadIsOneLine(indent: nat)
    ensures OneLine(Pad(indent))
  {
    if indent > 0 {
      PadIsOneLine(indent - 1);
    }
  }

  lemma {:induction false} RenderOneLine(n: Node, indent: nat)
    requires WellFormed(n)
    ensures AllOneLine(RenderNode(n, indent))
    decreases n, 1
  {
    PadIsOneLine(indent);
    if n.Block? {
      RenderAllOneLine(n.kids, indent + 1);
    }
  }

  lemma {:induction false} RenderAllOneLine(ns: seq<Node>, indent: nat)
    requires AllWellFormed(ns)
    ensures AllOneLine(RenderNodes(ns, indent))
    decreases ns, 0
  {
    if ns != [] {
      RenderOneLine(ns[0], indent);
      RenderAllOneLine(ns[1..], indent);
    }
  }

  ghost predicate EndsHere(rest: seq<string>)
  {
    rest == [] || Classify(rest[0]).CloseLine?
  }

  lemma ClassifyLeaf(n: Node, indent: nat)
    requires WellFormed(n) && !n.Block?
    ensures Classify(Pad(indent) + n.text) == if n.Comment? then CommentLine(n.text) else FieldLine(n.text)
  {
    TrimPad(indent, n.text);
  }

  lemma ClassifyOpen(head: string, bracket: Bracket, indent: nat)
    requires head == "" || PlainStart(head)
    ensures Classify(Pad(indent) + head + OpenText(bracket)) == OpenLine(head, bracket)
  {
    var line := head + OpenText(bracket);
    assert line[|line| - 1] == OpenText(bracket)[0] && line[..|line| - 1] == head;
    assert Pad(indent) + head + OpenText(bracket) == Pad(indent) + line;
    TrimPad(indent, line);
  }

  lemma ClassifyClose(bracket: Bracket, indent: nat)
    ensures Classify(Pad(indent) + CloseText(bracket)) == CloseLine(bracket)
  {
    TrimPad(indent, CloseText(bracket));
  }

  lemma ParseLeafBack(n: Node, indent: nat, tail: seq<string>)
    requires WellFormed(n) && !n.Block?
    ensures ParseNodes(RenderNode(n, indent) + tail) == Prepend(n, ParseNodes(tail))
  {
    ClassifyLeaf(n, indent);
    hide Classify, WellFormed;
    assert (RenderNode(n, indent) + tail)[1..] == tail;
  }

  /** One opening line, kids that parse, one closing line. */
  lemma ParseBlockStep(open: string, n: Node, body: seq<string>, close: string, tail: seq<string>)
    requires n.Block? && Classify(open) == OpenLine(n.head, n.bracket) && Classify(close) == CloseLine(n.bracket)
    requires ParseNodes(body) == Some((n.kids, [close] + tail))
    ensures ParseNodes([open] + body) == Prepend(n, ParseNodes(tail))
  {
    hide Classify;
    assert ([open] + body)[1..] == body && ([close] + tail)[1..] == tail;
  }

  lemma ParseBlockBack(n: Node, indent: nat, tail: seq<string>)
    requires WellFormed(n) && n.Block?
    requires var rest := [Pad(indent) + CloseText(n.bracket)] + tail;
             ParseNodes(RenderNodes(n.kids, indent + 1) + rest) == Some((n.kids, rest))
    ensures ParseNodes(RenderNode(n, indent) + tail) == Prepend(n, ParseNodes(tail))
  {
    ClassifyOpen(n.head, n.bracket, indent);
    ClassifyClose(n.bracket, indent);
    hide Classify, RenderNodes, WellFormed, Pad, ParseNodes;
    var open, close := Pad(indent) + n.head + OpenText(n.bracket), Pad(indent) + CloseText(n.bracket);
    var body := RenderNodes(n.kids, indent + 1) + ([close] + tail);
    assert RenderNode(n, indent) + tail == [open] + body;
    ParseBlockStep(open, n, body, close, tail);
  }

  /** Parsing undoes rendering, at every indentation and inside every context. */
  lemma {:induction false} ParseRendered(ns: seq<Node>, indent: nat, rest: seq<string>)
    requires AllWellFormed(ns) && EndsHere(rest)
    ensures ParseNodes(RenderNodes(ns, indent) + rest) == Some((ns, rest))
    decreases ns
  {
    hide Classify, RenderNode, Pad;
    if ns == [] {
      assert RenderNodes(ns, indent) + rest == rest;
    } else {
      ParseRenderedCons(ns, indent, rest);
    }
  }

  lemma {:induction false} ParseRenderedCons(ns: seq<Node>, indent: nat, rest: seq<string>)
    requires ns != [] && AllWellFormed(ns) && EndsHere(rest)
    ensures ParseNodes(RenderNodes(ns, indent) + rest) == Some((ns, rest))
    decreases ns, 0
  {
    hide Classify, RenderNode, ParseNodes, Pad;
    var n, tail := ns[0], RenderNodes(ns[1..], indent) + rest;
    assert RenderNodes(ns, indent) + rest == RenderNode(n, indent) + tail;
    ParseRendered(ns[1..], indent, rest);
    assert [n] + ns[1..] == ns;
    if n.Block? {
      var close := [Pad(indent) + CloseText(n.bracket)];
      ClassifyClose(n.bracket, indent);
      ParseRendered(n.kids, indent + 1, close + tail);
      ParseBlockBack(n, indent, tail);
    } else {
      ParseLeafBack(n, indent, tail);
    }
  }

  /** The text of a tree. */
  function TreeText(ns: seq<Node>): string
  {
    Unlines(RenderNodes(ns, 0))
  }

  lemma ParseTreeText(ns: seq<Node>)
    requires AllWellFormed(ns)
    ensures ParseText(TreeText(ns)) == Some(ns)
  {
    RenderAllOneLine(ns, 0);
    LinesOfUnlines(RenderNodes(ns, 0));
    ParseRendered(ns, 0, []);
    assert RenderNodes(ns, 0) + [] == RenderNodes(ns, 0);
  }

  lemma {:induction false} RenderNodesConcat(a: seq<Node>, b: seq<Node>, indent: nat)
    ensures RenderNodes(a + b, indent) == RenderNodes(a, indent) + RenderNodes(b, indent)
    decreases |a|
  {
    if a == [] {
      assert a + b == b;
    } else {
      assert (a + b)[1..] == a[1..] + b;
      RenderNodesConcat(a[1..], b, indent);
    }
  }
}
