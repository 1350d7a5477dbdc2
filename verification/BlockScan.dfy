/**
 * cmd/nats-debug/main.go, showConfiguredPermissions: find the line with a key, walk back to an opening
 * brace, then forward until the braces balance.
 */
module BlockScan {
  import opened Text

  const KEY_MARK := "nkey: "

  predicate OccursAt(s: string, sub: string, p: nat)
  {
    p + |sub| <= |s| && s[p..p + |sub|] == sub
  }

  /** strings.Contains */
  predicate Contains(s: string, sub: string)
  {
    exists p :: 0 <= p <= |s| && OccursAt(s, sub, p)
  }

  /** strings.Split(s, "\n"): a final newline is followed by an empty line. */
  function SplitAll(s: string): seq<string>
  {
    var k := IndexOf(s, '\n');
    if k == |s| then [s] else [s[..k]] + SplitAll(s[k + 1..])
  }

  function Count(s: string, c: char): nat
  {
    if s == "" then 0 else Count(s[..|s| - 1], c) + if s[|s| - 1] == c then 1 else 0
  }

  function Net(line: string): int
  {
    Count(line, '{') - Count(line, '}')
  }

  /** strings.TrimRight(s, " ") */
  function TrimBlanks(s: string): string
  {
    if s != "" && s[|s| - 1] == ' ' then TrimBlanks(s[..|s| - 1]) else s
  }

  /** The first line with the needle, or the number of lines. */
  function FirstWith(lines: seq<string>, needle: string): (k: nat)
    ensures k <= |lines|
    ensures forall i :: 0 <= i < k ==> !Contains(lines[i], needle)
    ensures k < |lines| ==> Contains(lines[k], needle)
  {
    if lines == [] || Contains(lines[0], needle) then 0 else 1 + FirstWith(lines[1..], needle)
  }

  /** Back from line i to one with an opening brace, or to the first. */
  function OpenAt(lines: seq<string>, i: nat): (k: nat)
    requires i < |lines|
    ensures k <= i
    ensures '{' in lines[k] || k == 0
    ensures forall j :: k < j <= i ==> '{' !in lines[j]
  {
    if i == 0 || '{' in lines[i] then i else OpenAt(lines, i - 1)
  }

  /** Forward from line i to where the depth is no longer positive, or past the end. */
  function CloseAt(lines: seq<string>, i: nat, depth: int): (k: nat)
    requires i <= |lines|
    ensures i <= k <= |lines|
    decreases |lines| - i
  {
    if i == |lines| || depth + Net(lines[i]) <= 0 then i else CloseAt(lines, i + 1, depth + Net(lines[i]))
  }

  function TrimAll(lines: seq<string>): seq<string>
  {
    seq(|lines|, i requires 0 <= i < |lines| => TrimBlanks(lines[i]))
  }

  function Shown(lines: seq<string>, nkey: string): seq<string>
  {
    var i := FirstWith(lines, KEY_MARK + nkey);
    if i == |lines| then [] else
      var lo := OpenAt(lines, i);
      var hi := CloseAt(lines, lo, 0);
      TrimAll(lines[lo..if hi < |lines| then hi + 1 else hi])
  }

  method FindKeyLine(lines: seq<string>, needle: string) returns (nkeyLineIdx: int)
    ensures nkeyLineIdx == if FirstWith(lines, needle) == |lines| then -1 else FirstWith(lines, needle)
  {
    hide Contains;
    for i := 0 to |lines|
      invariant forall j :: 0 <= j < i ==> !Contains(lines[j], needle)
    {
      if Contains(lines[i], needle) {
        return i;
      }
    }
    return -1;
  }

  method WalkBack(lines: seq<string>, nkeyLineIdx: nat) returns (startIdx: nat)
    requires nkeyLineIdx < |lines|
    ensures startIdx == OpenAt(lines, nkeyLineIdx)
  {
    startIdx := nkeyLineIdx;
    while startIdx > 0 && '{' !in lines[startIdx]
      invariant startIdx <= nkeyLineIdx && OpenAt(lines, startIdx) == OpenAt(lines, nkeyLineIdx)
    {
      startIdx := startIdx - 1;
    }
  }

  method WalkForward(lines: seq<string>, startIdx: nat) returns (endIdx: nat)
    requires startIdx < |lines|
    ensures endIdx == CloseAt(lines, startIdx, 0)
  {
    hide Net;
    var depth := 0;
    endIdx := startIdx;
    while endIdx < |lines|
      invariant startIdx <= endIdx <= |lines| && CloseAt(lines, endIdx, depth) == CloseAt(lines, startIdx, 0)
    {
      depth := depth + Net(lines[endIdx]);
      if depth <= 0 {
        break;
      }
      endIdx := endIdx + 1;
    }
  }

  /** The lines printed below the heading. */
  method ShowConfiguredPermissions(authConf: string, nkey: string) returns (shown: seq<string>)
    ensures shown == Shown(SplitAll(authConf), nkey)
  {
    hide Contains, SplitAll, CloseAt, OpenAt, FirstWith, TrimBlanks;
    shown := [];
    var lines := SplitAll(authConf);
    var nkeyLineIdx := FindKeyLine(lines, KEY_MARK + nkey);
    if nkeyLineIdx < 0 {
      return;
    }
    var startIdx := WalkBack(lines, nkeyLineIdx);
    var endIdx := WalkForward(lines, startIdx);
    var i := startIdx;
    while i <= endIdx && i < |lines|
      invariant startIdx <= i <= |lines| && i <= endIdx + 1
      invariant shown == TrimAll(lines[startIdx..i])
    {
      shown := shown + [TrimBlanks(lines[i])];
      i := i + 1;
    }
  }

  // ---- scanning a balanced block ----

  function Depth(lines: seq<string>): int
  {
    if lines == [] then 0 else Depth(lines[..|lines| - 1]) + Net(lines[|lines| - 1])
  }

  lemma DepthGrows(lines: seq<string>, lo: nat, i: nat)
    requires lo <= i < |lines|
    ensures Depth(lines[lo..i + 1]) == Depth(lines[lo..i]) + Net(lines[i])
  {
    assert lines[lo..i + 1][..i - lo] == lines[lo..i];
    hide Net;
  }

  lemma {:induction false} CloseIsFirst(lines: seq<string>, lo: nat, i: nat)
    requires lo <= i <= |lines|
    ensures var hi := CloseAt(lines, i, Depth(lines[lo..i]));
            && (forall k :: i < k <= hi ==> Depth(lines[lo..k]) > 0)
            && (hi < |lines| ==> Depth(lines[lo..hi + 1]) <= 0)
    decreases |lines| - i
  {
    hide Net, Depth;
    if i < |lines| {
      DepthGrows(lines, lo, i);
      if Depth(lines[lo..i + 1]) > 0 {
        CloseIsFirst(lines, lo, i + 1);
      }
    }
  }

  /**
   * Line i is the first with the key, lo the nearest line at or above it that opens a brace, or the first line;
   * and the braces from lo on are first closed in the line before end, or never and end is the end.
   */
  ghost predicate BlockAround(lines: seq<string>, nkey: string, i: nat, lo: nat, end: nat)
  {
    && lo <= i < |lines| && lo < end <= |lines|
    && Contains(lines[i], "nkey: " + nkey) && (forall k :: 0 <= k < i ==> !Contains(lines[k], "nkey: " + nkey))
    && ('{' in lines[lo] || lo == 0) && (forall k :: lo < k <= i ==> '{' !in lines[k])
    && (forall k :: lo < k < end ==> Depth(lines[lo..k]) > 0)
    && (Depth(lines[lo..end]) <= 0 || end == |lines|)
  }

  ghost predicate NoneContains(lines: seq<string>, needle: string)
  {
    forall i :: 0 <= i < |lines| ==> !Contains(lines[i], needle)
  }

  lemma ClosedFrom(lines: seq<string>, lo: nat)
    requires lo < |lines|
    ensures var hi := CloseAt(lines, lo, 0);
            var end := if hi < |lines| then hi + 1 else hi;
            && lo < end <= |lines| && (forall k :: lo < k < end ==> Depth(lines[lo..k]) > 0)
            && (Depth(lines[lo..end]) <= 0 || end == |lines|)
  {
    assert lines[lo..lo] == [];
    CloseIsFirst(lines, lo, lo);
    hide Net, CloseAt;
  }

  lemma FoundFirst(lines: seq<string>, needle: string)
    ensures NoneContains(lines, needle) <==> FirstWith(lines, needle) == |lines|
  {
    hide Contains;
  }

  /** Nothing is shown if no line has the key; otherwise the block around the first that has it, line by line. */
  lemma ShownExactly(lines: seq<string>, nkey: string)
    ensures NoneContains(lines, "nkey: " + nkey) ==> Shown(lines, nkey) == []
    ensures !NoneContains(lines, "nkey: " + nkey) ==>
              exists i: nat, lo: nat, end: nat ::
                BlockAround(lines, nkey, i, lo, end) && Shown(lines, nkey) == TrimAll(lines[lo..end])
  {
    hide Contains, Depth, Net, CloseAt, OpenAt, FirstWith, TrimAll, NoneContains;
    FoundFirst(lines, KEY_MARK + nkey);
    var i := FirstWith(lines, KEY_MARK + nkey);
    if i < |lines| {
      var lo := OpenAt(lines, i);
      var hi := CloseAt(lines, lo, 0);
      ClosedFrom(lines, lo);
      assert BlockAround(lines, nkey, i, lo, if hi < |lines| then hi + 1 else hi);
    }
  }

  /** The braces close on the last line and not before. */
  ghost predicate Balanced(block: seq<string>)
  {
    block != [] && Depth(block) == 0 && forall p :: 0 < p < |block| ==> Depth(block[..p]) > 0
  }

  ghost predicate Tidy(lines: seq<string>)
  {
    forall i :: 0 <= i < |lines| ==> lines[i] != "" && lines[i][|lines[i]| - 1] != ' '
  }

  lemma {:induction false} CloseOfBlock(pre: seq<string>, block: seq<string>, post: seq<string>, p: nat)
    requires Balanced(block) && p < |block|
    ensures CloseAt(pre + block + post, |pre| + p, Depth(block[..p])) == |pre| + |block| - 1
    decreases |block| - p
  {
    var lines := pre + block + post;
    assert lines[|pre| + p] == block[p];
    assert block[..p + 1][..p] == block[..p];
    if p + 1 == |block| {
      assert block[..p + 1] == block;
    } else {
      CloseOfBlock(pre, block, post, p + 1);
    }
  }

  /**
   * A block that opens on its first line, names the key on its second and balances on its last is shown
   * whole and alone, if the key is not mentioned before.
   */
  lemma BlockIsShown(pre: seq<string>, block: seq<string>, post: seq<string>, nkey: string)
    requires NoneContains(pre, KEY_MARK + nkey) && Balanced(block) && Tidy(block) && |block| >= 2
    requires '{' in block[0] && !Contains(block[0], KEY_MARK + nkey)
    requires '{' !in block[1] && Contains(block[1], KEY_MARK + nkey)
    ensures Shown(pre + block + post, nkey) == block
  {
    var lines, n := pre + block + post, |pre|;
    assert forall i :: 0 <= i < n ==> lines[i] == pre[i];
    assert lines[n] == block[0] && lines[n + 1] == block[1];
    assert FirstWith(lines, KEY_MARK + nkey) == n + 1;
    assert OpenAt(lines, n + 1) == n;
    CloseOfBlock(pre, block, post, 0);
    assert lines[n..n + |block|] == block;
    hide Contains, Net, CloseAt, OpenAt, FirstWith, Balanced;
    assert TrimAll(block) == block;
  }

  /** Trimming takes the blanks at the end away, all of them and nothing else. */
  lemma {:induction false} TrimKeeps(s: string)
    ensures TrimBlanks(s) <= s && (TrimBlanks(s) != "" ==> TrimBlanks(s)[|TrimBlanks(s)| - 1] != ' ')
    ensures forall i :: |TrimBlanks(s)| <= i < |s| ==> s[i] == ' '
  {
    if s != "" && s[|s| - 1] == ' ' {
      TrimKeeps(s[..|s| - 1]);
    }
  }

  /** An earlier line that mentions the key takes the display, and what is shown begins with its block. */
  lemma EarlierLineWins(pre: seq<string>, block: seq<string>, post: seq<string>, nkey: string)
    requires !NoneContains(pre, KEY_MARK + nkey) && |block| >= 2 && block[0] != block[1]
    requires !Contains(block[0], KEY_MARK + nkey) && Contains(block[1], KEY_MARK + nkey) && Tidy(block)
    requires forall l <- pre :: TrimBlanks(l) != block[1]
    ensures Shown(pre + block + post, nkey) != block
  {
    var lines := pre + block + post;
    var i := FirstWith(lines, KEY_MARK + nkey);
    assert i < |pre| by {
      var j :| 0 <= j < |pre| && Contains(pre[j], KEY_MARK + nkey);
      assert lines[j] == pre[j];
    }
    var lo := OpenAt(lines, i);
    var shown := Shown(lines, nkey);
    if |shown| >= 2 {
      assert shown[1] == TrimBlanks(lines[lo + 1]);
      if lo + 1 < |pre| {
        assert lines[lo + 1] in pre;
      } else {
        assert lines[lo + 1] == block[0] && TrimBlanks(block[0]) == block[0];
      }
    }
  }

  /**
   * A balanced block that names the key on its second line is shown whole and alone exactly when nothing
   * before it mentions the key, provided no line before it is the key line once more.
   */
  lemma BlockIsShownExactly(pre: seq<string>, block: seq<string>, post: seq<string>, nkey: string)
    requires Balanced(block) && Tidy(block) && |block| >= 2
    requires '{' in block[0] && !Contains(block[0], KEY_MARK + nkey)
    requires '{' !in block[1] && Contains(block[1], KEY_MARK + nkey)
    requires forall l <- pre :: TrimBlanks(l) != block[1]
    ensures Shown(pre + block + post, nkey) == block <==> NoneContains(pre, KEY_MARK + nkey)
  {
    hide Shown, Contains, Balanced, Tidy;
    if NoneContains(pre, KEY_MARK + nkey) {
      BlockIsShown(pre, block, post, nkey);
    } else {
      EarlierLineWins(pre, block, post, nkey);
    }
  }

  lemma SplitFirst(line: string, rest: string)
    requires OneLine(line)
    ensures SplitAll(line + "\n" + rest) == [line] + SplitAll(rest)
  {
    var s := line + "\n" + rest;
    assert s == line + ['\n'] + rest;
    IndexOfFirst(line, '\n', rest);
    assert s[|line| + 1..] == rest && s[..|line|] == line;
  }

  lemma {:induction false} SplitUnlines(lines: seq<string>)
    requires AllOneLine(lines)
    ensures SplitAll(Unlines(lines)) == lines + [""]
  {
    if lines != [] {
      hide SplitAll;
      SplitFirst(lines[0], Unlines(lines[1..]));
      SplitUnlines(lines[1..]);
    }
  }
}
