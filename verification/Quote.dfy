/** Go's %q on ASCII text, the comma-separated form of internal/natsconfig/generate.go, and their reader. */
module Quote {
  import opened Text

  function HexDigit(n: nat): char
    requires n < 16
  {
    if n < 10 then '0' + n as char else 'a' + (n - 10) as char
  }

  /** The escapes of strconv.Quote; characters beyond ASCII are taken as printable. */
  function Escape(c: char): string
  {
    if c == '"' then "\\\""
    else if c == '\\' then "\\\\"
    else if c == '\U{7}' then "\\a"
    else if c == '\U{8}' then "\\b"
    else if c == '\U{c}' then "\\f"
    else if c == '\n' then "\\n"
    else if c == '\r' then "\\r"
    else if c == '\t' then "\\t"
    else if c == '\U{b}' then "\\v"
    else if c < ' ' || c == '\U{7f}' then "\\x" + [HexDigit(c as int / 16), HexDigit(c as int % 16)]
    else [c]
  }

  function EscapeAll(s: string): string
  {
    if s == "" then "" else Escape(s[0]) + EscapeAll(s[1..])
  }

  /** fmt's %q */
  function Quoted(s: string): string
  {
    "\"" + EscapeAll(s) + "\""
  }

  /** strings.Join(quoted, ", ") */
  function QuotedList(ss: seq<string>): string
  {
    if ss == [] then ""
    else if |ss| == 1 then Quoted(ss[0])
    else Quoted(ss[0]) + ", " + QuotedList(ss[1..])
  }

  function Join(parts: seq<string>): string
  {
    if parts == [] then ""
    else if |parts| == 1 then parts[0]
    else parts[0] + ", " + Join(parts[1..])
  }

  lemma {:induction false} JoinQuoted(parts: seq<string>, ss: seq<string>)
    requires |parts| == |ss| && forall j :: 0 <= j < |ss| ==> parts[j] == Quoted(ss[j])
    ensures Join(parts) == QuotedList(ss)
  {
    if |ss| > 1 {
      JoinQuoted(parts[1..], ss[1..]);
    }
  }

  /** quoteStrings: fills a slice by index, then joins it. */
  method QuoteStrings(ss: seq<string>) returns (r: string)
    ensures r == QuotedList(ss)
  {
    var quoted := new string[|ss|](_ => "");
    for i := 0 to |ss|
      invariant forall j :: 0 <= j < i ==> quoted[j] == Quoted(ss[j])
    {
      quoted[i] := Quoted(ss[i]);
    }
    JoinQuoted(quoted[..], ss);
    r := Join(quoted[..]);
  }

  // ---- reader ----

  function HexValue(c: char): Option<nat>
  {
    if '0' <= c <= '9' then Some((c - '0') as nat)
    else if 'a' <= c <= 'f' then Some(10 + (c - 'a') as nat)
    else None
  }

  /** One character of a quoted string and how much text it takes; None at a quote or a bad escape. */
  function ReadChar(s: string): (r: Option<(char, nat)>)
    ensures r.Some? ==> 1 <= r.value.1 <= |s|
  {
    if s == "" || s[0] == '"' then None
    else if s[0] != '\\' then Some((s[0], 1))
    else if |s| < 2 then None
    else
      match s[1]
      case '"' => Some(('"', 2))
      case '\\' => Some(('\\', 2))
      case 'a' => Some(('\U{7}', 2))
      case 'b' => Some(('\U{8}', 2))
      case 'f' => Some(('\U{c}', 2))
      case 'n' => Some(('\n', 2))
      case 'r' => Some(('\r', 2))
      case 't' => Some(('\t', 2))
      case 'v' => Some(('\U{b}', 2))
      case 'x' =>
        if |s| < 4 || HexValue(s[2]).None? || HexValue(s[3]).None? then None
        else Some(((16 * HexValue(s[2]).value + HexValue(s[3]).value) as char, 4))
      case _ => None
  }

  /** Characters up to the closing quote; the text after it is returned too. */
  function ReadChars(s: string): (r: Option<(string, string)>)
    ensures r.Some? ==> |r.value.1| < |s|
    decreases |s|
  {
    if s != "" && s[0] == '"' then Some(("", s[1..]))
    else
      match ReadChar(s)
      case None => None
      case Some((c, n)) =>
        match ReadChars(s[n..])
        case None => None
        case Some((value, rest)) => Some(([c] + value, rest))
  }

  function ReadQuoted(s: string): (r: Option<(string, string)>)
    ensures r.Some? ==> |r.value.1| < |s|
  {
    if s == "" || s[0] != '"' then None else ReadChars(s[1..])
  }

  /** A whole text that is one quoted string. */
  function Unquote(s: string): Option<string>
  {
    match ReadQuoted(s)
    case Some((value, "")) => Some(value)
    case _ => None
  }

  /** Quoted strings separated by commas, and what follows the last one. */
  function ReadList(s: string): Option<(seq<string>, string)>
    decreases |s|
  {
    match ReadQuoted(s)
    case None => None
    case Some((first, rest)) =>
      if ", " <= rest then
        match ReadList(rest[2..])
        case None => None
        case Some((more, tail)) => Some(([first] + more, tail))
      else Some(([first], rest))
  }

  lemma ReadEscapedControl(c: char, rest: string)
    requires c < ' ' || c == '\U{7f}'
    requires Escape(c) == "\\x" + [HexDigit(c as int / 16), HexDigit(c as int % 16)]
    ensures ReadChar(Escape(c) + rest) == Some((c, |Escape(c)|))
  {
    var s := Escape(c) + rest;
    var hi, lo := c as int / 16, c as int % 16;
    assert s[0] == '\\' && s[1] == 'x' && s[2] == HexDigit(hi) && s[3] == HexDigit(lo);
    assert 16 * hi + lo == c as int;
  }

  lemma ReadEscaped(c: char, rest: string)
    ensures ReadChar(Escape(c) + rest) == Some((c, |Escape(c)|))
    ensures Escape(c)[0] != '"'
  {
    var s := Escape(c) + rest;
    if |Escape(c)| == 4 {
      ReadEscapedControl(c, rest);
    } else if |Escape(c)| == 2 {
      assert s[0] == '\\' && s[1] == Escape(c)[1];
    } else {
      assert s[0] == c;
    }
  }

  lemma {:induction false} ReadEscapedAll(s: string, rest: string)
    ensures ReadChars(EscapeAll(s) + "\"" + rest) == Some((s, rest))
  {
    hide Escape, ReadChar;
    if s == "" {
      assert EscapeAll(s) + "\"" + rest == "\"" + rest;
    } else {
      var tail := EscapeAll(s[1..]) + "\"" + rest;
      var whole := EscapeAll(s) + "\"" + rest;
      assert whole == Escape(s[0]) + tail;
      ReadEscaped(s[0], tail);
      assert whole[0] == Escape(s[0])[0];
      assert whole[|Escape(s[0])|..] == tail;
      ReadEscapedAll(s[1..], rest);
      assert [s[0]] + s[1..] == s;
    }
  }

  /** Reading undoes quoting, whatever follows. */
  lemma ReadQuotedBack(s: string, rest: string)
    ensures ReadQuoted(Quoted(s) + rest) == Some((s, rest))
  {
    hide EscapeAll, ReadChars;
    ReadEscapedAll(s, rest);
    var whole := Quoted(s) + rest;
    assert whole[1..] == EscapeAll(s) + "\"" + rest;
  }

  lemma UnquoteQuoted(s: string)
    ensures Unquote(Quoted(s)) == Some(s)
  {
    ReadQuotedBack(s, "");
    assert Quoted(s) + "" == Quoted(s);
  }

  lemma {:induction false} ReadListBack(ss: seq<string>, rest: string)
    requires ss != [] && !(", " <= rest)
    ensures ReadList(QuotedList(ss) + rest) == Some((ss, rest))
  {
    hide Quoted, ReadQuoted;
    if |ss| == 1 {
      ReadQuotedBack(ss[0], rest);
      assert ss == [ss[0]];
    } else {
      var tail := QuotedList(ss[1..]) + rest;
      assert QuotedList(ss) + rest == Quoted(ss[0]) + (", " + tail);
      ReadQuotedBack(ss[0], ", " + tail);
      assert (", " + tail)[2..] == tail;
      ReadListBack(ss[1..], rest);
      assert [ss[0]] + ss[1..] == ss;
    }
  }

  lemma EscapeOneLine(c: char)
    ensures OneLine(Escape(c))
  {}

  /** Quoted text stays on its line. */
  lemma {:induction false} EscapeAllOneLine(s: string)
    ensures OneLine(EscapeAll(s))
  {
    hide Escape;
    if s != "" {
      EscapeOneLine(s[0]);
      EscapeAllOneLine(s[1..]);
    }
  }

  lemma {:induction false} QuotedListOneLine(ss: seq<string>)
    ensures OneLine(QuotedList(ss))
  {
    if ss != [] {
      EscapeAllOneLine(ss[0]);
      if |ss| > 1 {
        QuotedListOneLine(ss[1..]);
      }
    }
  }
}
