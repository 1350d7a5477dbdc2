/** cmd/cli/cmd/loader.go: splitLines and splitYAMLDocuments. */
module YamlDocs {
  import opened Text

  const SEPARATOR := "---"

  lemma LastLine(s: string)
    requires '\n' !in s
    ensures Lines(s) == if s == "" then [] else [s]
  {
    IndexOfAbsent(s, '\n');
  }

  lemma FirstLine(data: string, start: nat, i: nat)
    requires start <= i < |data| && data[i] == '\n' && '\n' !in data[start..i]
    ensures Lines(data[start..]) == [data[start..i]] + Lines(data[i + 1..])
  {
    var s := data[start..];
    assert s == data[start..i] + ['\n'] + data[i + 1..];
    IndexOfFirst(data[start..i], '\n', data[i + 1..]);
    assert s[..i - start] == data[start..i] && s[i - start + 1..] == data[i + 1..];
  }

  method SplitLines(data: string) returns (lines: seq<string>)
    ensures lines == Lines(data)
  {
    hide Lines;
    lines := [];
    var start, i := 0, 0;
    while i < |data|
      invariant 0 <= start <= i <= |data| && '\n' !in data[start..i]
      invariant Lines(data) == lines + Lines(data[start..])
    {
      if data[i] == '\n' {
        FirstLine(data, start, i);
        lines := lines + [data[start..i]];
        start := i + 1;
      }
      i := i + 1;
    }
    LastLine(data[start..]);
    if start < |data| {
      lines := lines + [data[start..]];
    }
  }

  // ---- groups of lines between separators ----

  /** Groups that are complete, and the lines of the one being read. */
  datatype Progress = Progress(complete: seq<seq<string>>, current: seq<string>)

  function Read(lines: seq<string>): Progress
  {
    if lines == [] then Progress([], []) else
      var p, line := Read(lines[..|lines| - 1]), lines[|lines| - 1];
      if line != SEPARATOR then p.(current := p.current + [line])
      else if p.current != [] then Progress(p.complete + [p.current], [])
      else p
  }

  function Groups(lines: seq<string>): seq<seq<string>>
  {
    Read(lines).complete + if Read(lines).current != [] then [Read(lines).current] else []
  }

  function Texts(groups: seq<seq<string>>): seq<string>
  {
    seq(|groups|, k requires 0 <= k < |groups| => Unlines(groups[k]))
  }

  lemma UnlinesEmptyExactly(lines: seq<string>)
    ensures Unlines(lines) == "" <==> lines == []
  {}

  lemma OneMoreLine(lines: seq<string>, line: string)
    ensures Unlines(lines + [line]) == Unlines(lines) + line + "\n"
  {
    UnlinesConcat(lines, [line]);
    UnlinesCons(line, []);
    assert line + "\n" + "" == line + "\n";
    assert Unlines(lines) + (line + "\n") == Unlines(lines) + line + "\n";
  }

  method SplitYAMLDocuments(data: string) returns (docs: seq<string>)
    ensures docs == Texts(Groups(Lines(data)))
  {
    hide Lines, Unlines;
    docs := [];
    var current := "";
    UnlinesEmptyExactly([]);
    var lines := SplitLines(data);
    for i := 0 to |lines|
      invariant docs == Texts(Read(lines[..i]).complete) && current == Unlines(Read(lines[..i]).current)
    {
      assert lines[..i + 1][..i] == lines[..i];
      ghost var p := Read(lines[..i]);
      UnlinesEmptyExactly(p.current);
      OneMoreLine(p.current, lines[i]);
      if lines[i] == SEPARATOR {
        if |current| > 0 {
          docs := docs + [current];
          current := "";
          UnlinesEmptyExactly([]);
        }
        continue;
      }
      current := current + lines[i];
      current := current + "\n";
    }
    assert lines[..|lines|] == lines;
    UnlinesEmptyExactly(Read(lines).current);
    if |current| > 0 {
      docs := docs + [current];
    }
  }

  // ---- what the groups are ----

  ghost predicate Separable(groups: seq<seq<string>>)
  {
    forall k :: 0 <= k < |groups| ==> groups[k] != [] && SEPARATOR !in groups[k]
  }

  function Separators(n: nat): seq<string>
  {
    seq(n, _ => SEPARATOR)
  }

  /** seps[k] separators before group k and the last ones at the end; at least one between two groups. */
  ghost predicate Interleaves(seps: seq<nat>, groups: seq<seq<string>>)
  {
    |seps| == |groups| + 1 && forall k :: 0 < k < |groups| ==> seps[k] > 0
  }

  function Interleaved(seps: seq<nat>, groups: seq<seq<string>>): seq<string>
    requires |seps| == |groups| + 1
  {
    if groups == [] then Separators(seps[0]) else
      var n := |groups| - 1;
      Interleaved(seps[..n + 1], groups[..n]) + groups[n] + Separators(seps[n + 1])
  }

  /** The lines are these groups amid these separators; open says that a group is being read. */
  ghost predicate Cut(lines: seq<string>, seps: seq<nat>, groups: seq<seq<string>>, open: bool)
  {
    && Interleaves(seps, groups) && Interleaved(seps, groups) == lines
    && (groups != [] ==> (seps[|groups|] == 0 <==> open))
  }

  lemma LastSeparator(lines: seq<string>, seps: seq<nat>, groups: seq<seq<string>>, open: bool)
    requires Cut(lines, seps, groups, open)
    ensures Cut(lines + [SEPARATOR], seps[|groups| := seps[|groups|] + 1], groups, false)
  {
    var n := |groups|;
    assert Separators(seps[n] + 1) == Separators(seps[n]) + [SEPARATOR];
    if n > 0 {
      assert seps[n := seps[n] + 1][..n] == seps[..n];
    }
  }

  lemma LastGroupGrows(lines: seq<string>, seps: seq<nat>, groups: seq<seq<string>>, line: string)
    requires Cut(lines, seps, groups, true) && groups != []
    ensures Cut(lines + [line], seps, groups[..|groups| - 1] + [groups[|groups| - 1] + [line]], true)
  {
    var n := |groups| - 1;
    var grown := groups[..n] + [groups[n] + [line]];
    assert grown[..n] == groups[..n];
    assert Separators(0) == [];
  }

  lemma GroupAdded(lines: seq<string>, seps: seq<nat>, groups: seq<seq<string>>, line: string)
    requires Cut(lines, seps, groups, false)
    ensures Cut(lines + [line], seps + [0], groups + [[line]], true)
  {
    var more := groups + [[line]];
    assert more[..|groups|] == groups && (seps + [0])[..|groups| + 1] == seps;
    assert Separators(0) == [];
  }

  lemma GroupsStep(lines: seq<string>)
    requires lines != []
    ensures var front, line := lines[..|lines| - 1], lines[|lines| - 1];
            var g := Groups(front);
            && (Read(front).current != [] ==> g != [])
            && (Read(lines).current != [] <==> line != SEPARATOR)
            && Groups(lines) == if line == SEPARATOR then g
                                else if Read(front).current != [] then g[..|g| - 1] + [g[|g| - 1] + [line]]
                                else g + [[line]]
  {
    var front := lines[..|lines| - 1];
    if Read(front).current == [] {
      assert Groups(front) == Read(front).complete;
      assert Read(front).current + [lines[|lines| - 1]] == [lines[|lines| - 1]];
    } else {
      assert Groups(front)[..|Groups(front)| - 1] == Read(front).complete;
    }
  }

  lemma {:induction false} GroupsAreSeparable(lines: seq<string>)
    ensures Separable(Groups(lines))
  {
    if lines != [] {
      GroupsAreSeparable(lines[..|lines| - 1]);
      GroupsStep(lines);
      hide Groups, Read;
    }
  }

  lemma {:induction false} GroupsCutInput(lines: seq<string>) returns (seps: seq<nat>)
    ensures Cut(lines, seps, Groups(lines), Read(lines).current != [])
  {
    if lines == [] {
      seps := [0];
    } else {
      var front, line := lines[..|lines| - 1], lines[|lines| - 1];
      var before := GroupsCutInput(front);
      var g := Groups(front);
      assert lines == front + [line];
      GroupsStep(lines);
      assert |before| == |g| + 1;
      hide Cut, Groups, Read;
      if line == SEPARATOR {
        LastSeparator(front, before, g, Read(front).current != []);
        seps := before[|g| := before[|g|] + 1];
      } else if Read(front).current != [] {
        LastGroupGrows(front, before, g, line);
        seps := before;
      } else {
        GroupAdded(front, before, g, line);
        seps := before + [0];
      }
    }
  }

  /** No line is lost: the input is the groups read, in order, with nothing but separators around and between them. */
  lemma InputIsInterleaved(lines: seq<string>) returns (seps: seq<nat>)
    ensures Separable(Groups(lines)) && Interleaves(seps, Groups(lines))
    ensures Interleaved(seps, Groups(lines)) == lines
  {
    seps := GroupsCutInput(lines);
    GroupsAreSeparable(lines);
  }

  lemma {:induction false} ReadSeparators(lines: seq<string>, n: nat)
    ensures Read(lines + Separators(n)) == if n == 0 then Read(lines) else Progress(Groups(lines), [])
  {
    if n == 0 {
      assert lines + Separators(0) == lines;
    } else {
      ReadSeparators(lines, n - 1);
      var all := lines + Separators(n);
      assert all[..|all| - 1] == lines + Separators(n - 1);
    }
  }

  lemma {:induction false} ReadGroup(lines: seq<string>, g: seq<string>)
    requires Read(lines).current == [] && SEPARATOR !in g
    ensures Read(lines + g) == Progress(Read(lines).complete, g)
  {
    if g == [] {
      assert lines + g == lines;
    } else {
      ReadGroup(lines, g[..|g| - 1]);
      assert (lines + g)[..|lines + g| - 1] == lines + g[..|g| - 1];
      assert g == g[..|g| - 1] + [g[|g| - 1]];
    }
  }

  /** However separators are put around and between groups, the groups are what is read back. */
  lemma {:induction false} InterleavedReadBack(seps: seq<nat>, groups: seq<seq<string>>)
    requires Separable(groups) && Interleaves(seps, groups)
    ensures Groups(Interleaved(seps, groups)) == groups
    ensures groups == [] || seps[|groups|] > 0 ==> Read(Interleaved(seps, groups)).current == []
  {
    if groups == [] {
      assert [] + Separators(seps[0]) == Separators(seps[0]);
      ReadSeparators([], seps[0]);
    } else {
      var n := |groups| - 1;
      var start := Interleaved(seps[..n + 1], groups[..n]);
      InterleavedReadBack(seps[..n + 1], groups[..n]);
      ReadGroup(start, groups[n]);
      ReadSeparators(start + groups[n], seps[n + 1]);
      assert groups == groups[..n] + [groups[n]];
      hide Interleaved;
    }
  }

  lemma {:induction false} GroupLinesAreLines(lines: seq<string>, k: nat)
    requires k < |Groups(lines)|
    ensures forall x <- Groups(lines)[k] :: x in lines
  {
    if lines != [] {
      var front := lines[..|lines| - 1];
      if k < |Groups(front)| {
        GroupLinesAreLines(front, k);
      }
      assert lines == front + [lines[|lines| - 1]];
    }
  }

  /**
   * The documents returned: the lines of the input, without its separators, cut exactly at them. Each
   * document reads back as its group of lines, so none is empty or holds a separator, and each ends in
   * a newline.
   */
  lemma DocumentsAreGroups(data: string, k: nat)
    requires k < |Texts(Groups(Lines(data)))|
    ensures var doc := Texts(Groups(Lines(data)))[k];
            && Lines(doc) == Groups(Lines(data))[k] != [] && "---" !in Lines(doc)
            && doc != "" && Terminated(doc) == doc
  {
    var lines, g := Lines(data), Groups(Lines(data))[k];
    GroupsAreSeparable(lines);
    UnlinesOfLines(data);
    GroupLinesAreLines(lines, k);
    assert AllOneLine(g) by {
      forall i | 0 <= i < |g| ensures OneLine(g[i]) {
        assert g[i] in lines;
      }
    }
    LinesOfUnlines(g);
    UnlinesOfLines(Unlines(g));
    UnlinesEmptyExactly(g);
    hide Lines, Unlines, Groups, Interleaved;
  }
}
