/** String helpers shared by the printer, its readers and the YAML splitter. */
module Text {

  datatype Option<+T> = None | Some(value: T)

  /** strings.Repeat("  ", indent) */
  function Pad(indent: nat): string
  {
    if indent == 0 then "" else "  " + Pad(indent - 1)
  }

  /** Position of the first c in s, or |s|. */
  function IndexOf(s: string, c: char): (k: nat)
    ensures k <= |s|
    ensures forall i :: 0 <= i < k ==> s[i] != c
    ensures k < |s| ==> s[k] == c
  {
    if s == "" || s[0] == c then 0 else 1 + IndexOf(s[1..], c)
  }

  lemma IndexOfFirst(a: string, c: char, b: string)
    requires c !in a
    ensures IndexOf(a + [c] + b, c) == |a|
  {
    var s := a + [c] + b;
    assert s[|a|] == c;
    assert forall i :: 0 <= i < |a| ==> s[i] == a[i];
  }

  lemma IndexOfAbsent(s: string, c: char)
    requires c !in s
    ensures IndexOf(s, c) == |s|
  {}

  /** The lines of s: a final newline ends the last line and starts no new one. */
  function Lines(s: string): (r: seq<string>)
  {
    if s == "" then [] else
      var k := IndexOf(s, '\n');
      if k == |s| then [s] else [s[..k]] + Lines(s[k + 1..])
  }

  /** Every line followed by a newline. */
  function Unlines(lines: seq<string>): string
  {
    if lines == [] then "" else lines[0] + "\n" + Unlines(lines[1..])
  }

  ghost predicate OneLine(s: string)
  {
    '\n' !in s
  }

  ghost predicate AllOneLine(lines: seq<string>)
  {
    forall i :: 0 <= i < |lines| ==> OneLine(lines[i])
  }

  lemma {:induction false} UnlinesConcat(a: seq<string>, b: seq<string>)
    ensures Unlines(a + b) == Unlines(a) + Unlines(b)
  {
    if a == [] {
      assert a + b == b;
    } else {
      assert (a + b)[1..] == a[1..] + b;
      UnlinesConcat(a[1..], b);
    }
  }

  lemma {:induction false} LinesOfUnlines(lines: seq<string>)
    requires AllOneLine(lines)
    ensures Lines(Unlines(lines)) == lines
  {
    if lines != [] {
      var s := Unlines(lines);
      var rest := Unlines(lines[1..]);
      assert s == lines[0] + ['\n'] + rest;
      IndexOfFirst(lines[0], '\n', rest);
      assert s[|lines[0]| + 1..] == rest;
      assert s[..|lines[0]|] == lines[0];
      LinesOfUnlines(lines[1..]);
    }
  }

  lemma UnlinesCons(line: string, rest: seq<string>)
    ensures Unlines([line] + rest) == line + "\n" + Unlines(rest)
  {
    assert ([line] + rest)[1..] == rest;
  }

  /** s with a final newline added when its last line lacks one. */
  function Terminated(s: string): string
  {
    if s == "" || s[|s| - 1] == '\n' then s else s + "\n"
  }

  lemma TerminatedCons(head: string, rest: string)
    ensures Terminated(head + "\n" + rest) == head + "\n" + Terminated(rest)
  {
    var s := head + "\n" + rest;
    if rest != "" {
      assert s[|s| - 1] == rest[|rest| - 1];
    } else {
      assert s[|s| - 1] == '\n';
      assert s == head + "\n";
    }
    assert head + "\n" + (rest + "\n") == s + "\n";
  }

  /** Splitting loses nothing but a missing final newline. */
  lemma {:induction false} UnlinesOfLines(s: string)
    ensures AllOneLine(Lines(s))
    ensures Unlines(Lines(s)) == Terminated(s)
    decreases |s|
  {
    if s != "" {
      var k := IndexOf(s, '\n');
      if k < |s| {
        var head, rest := s[..k], s[k + 1..];
        assert s == head + "\n" + rest;
        UnlinesOfLines(rest);
        UnlinesCons(head, Lines(rest));
        TerminatedCons(head, rest);
      } else {
        UnlinesCons(s, []);
        assert [s] + [] == [s];
      }
    }
  }

  /** unicode.IsSpace on the characters up to U+00FF. */
  predicate IsSpace(c: char)
  {
    c == '\t' || c == '\n' || c == '\U{b}' || c == '\U{c}' || c == '\r' || c == ' '
    || c == '\U{85}' || c == '\U{a0}'
  }

  predicate AllSpace(s: string)
  {
    forall i :: 0 <= i < |s| ==> IsSpace(s[i])
  }

  function TrimLeft(s: string): (r: string)
    ensures |r| <= |s|
  {
    if s != "" && IsSpace(s[0]) then TrimLeft(s[1..]) else s
  }

  function TrimRight(s: string): (r: string)
    ensures |r| <= |s|
  {
    if s != "" && IsSpace(s[|s| - 1]) then TrimRight(s[..|s| - 1]) else s
  }

  /** strings.TrimSpace */
  function TrimSpace(s: string): (r: string)
    ensures |r| <= |s|
  {
    TrimRight(TrimLeft(s))
  }

  ghost predicate Bare(s: string)
  {
    s != "" && !IsSpace(s[0]) && !IsSpace(s[|s| - 1])
  }

  lemma {:induction false} TrimLeftSkips(a: string, b: string)
    requires AllSpace(a)
    requires b == "" || !IsSpace(b[0])
    ensures TrimLeft(a + b) == b
  {
    if a == "" {
      assert a + b == b;
    } else {
      assert (a + b)[1..] == a[1..] + b;
      TrimLeftSkips(a[1..], b);
    }
  }

  lemma {:induction false} TrimRightSkips(a: string, b: string)
    requires AllSpace(b)
    requires a == "" || !IsSpace(a[|a| - 1])
    ensures TrimRight(a + b) == a
  {
    if b == "" {
      assert a + b == a;
    } else {
      assert (a + b)[..|a + b| - 1] == a + b[..|b| - 1];
      TrimRightSkips(a, b[..|b| - 1]);
    }
  }

  lemma Associate(a: string, b: string, c: string)
    ensures a + b + c == a + (b + c)
  {}

  /** Trimming keeps exactly the part between the outer blanks. */
  lemma TrimSpaceCore(a: string, core: string, b: string)
    requires AllSpace(a) && AllSpace(b)
    requires Bare(core)
    ensures TrimSpace(a + core + b) == core
  {
    assert a + core + b == a + (core + b);
    TrimLeftSkips(a, core + b);
    TrimRightSkips(core, b);
  }

  lemma TrimSpaceBlank(a: string)
    requires AllSpace(a)
    ensures TrimSpace(a) == ""
  {
    assert a + "" == a;
    TrimLeftSkips(a, "");
  }

  /** Every string is blanks, a bare core and blanks, or blanks only. */
  lemma {:induction false} TrimRightSplit(s: string) returns (b: string)
    ensures AllSpace(b) && s == TrimRight(s) + b
    ensures TrimRight(s) == "" || !IsSpace(TrimRight(s)[|TrimRight(s)| - 1])
  {
    b := "";
    if s != "" && IsSpace(s[|s| - 1]) {
      var b' := TrimRightSplit(s[..|s| - 1]);
      b := b' + [s[|s| - 1]];
    }
  }

  lemma {:induction false} TrimLeftSplit(s: string) returns (a: string)
    ensures AllSpace(a) && s == a + TrimLeft(s) && (TrimLeft(s) == "" || !IsSpace(TrimLeft(s)[0]))
  {
    a := "";
    if s != "" && IsSpace(s[0]) {
      var a' := TrimLeftSplit(s[1..]);
      a := [s[0]] + a';
    }
  }

  /** Every string is blanks, its trimmed part and blanks. */
  lemma TrimSpaceSplit(s: string) returns (a: string, b: string)
    ensures AllSpace(a) && AllSpace(b) && s == a + TrimSpace(s) + b && (TrimSpace(s) == "" || Bare(TrimSpace(s)))
  {
    a := TrimLeftSplit(s);
    b := TrimRightSplit(TrimLeft(s));
    if TrimSpace(s) != "" {
      assert TrimLeft(s)[0] == TrimSpace(s)[0];
    }
    hide TrimLeft, TrimRight;
  }
}
