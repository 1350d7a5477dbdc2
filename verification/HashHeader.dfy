/** internal/controller/pod_reloader.go: the "# hash:" line that ties a mounted file to a config. */
module HashHeader {
  import opened Text

  /** A digest as fmt's %x prints it: never empty, no blanks inside. */
  ghost predicate DigestText(h: string)
  {
    h != "" && forall i :: 0 <= i < |h| ==> !IsSpace(h[i])
  }

  const HASH_PREFIX := "# hash: "
  const HEADER_PIECES := 8

  function FormatHashHeader(hash: string): string
  {
    HASH_PREFIX + hash + "\n"
  }

  /** A file whose first line is the header; FormatHashHeader ends it with a plain newline. */
  function Headed(h: string, eol: string, body: string): string
  {
    HASH_PREFIX + h + eol + body
  }

  /** strings.SplitN(s, "\n", n): the last piece is the unsplit remainder. */
  function SplitN(s: string, n: nat): (r: seq<string>)
    ensures r != []
  {
    var k := IndexOf(s, '\n');
    if n <= 1 || k == |s| then [s] else [s[..k]] + SplitN(s[k + 1..], n - 1)
  }

  /** What one piece says: nothing (blank), or the final answer. */
  function ReadPiece(piece: string): Option<string>
  {
    var line := TrimSpace(piece);
    if line == "" then None
    else if line[0] != '#' then Some("")
    else
      var body := TrimSpace(line[1..]);
      if !("hash:" <= body) then Some("") else Some(TrimSpace(body[5..]))
  }

  function ReadPieces(pieces: seq<string>): string
  {
    if pieces == [] then "" else
      match ReadPiece(pieces[0])
      case Some(answer) => answer
      case None => ReadPieces(pieces[1..])
  }

  /** The hash a reader of s sees: the specification of ParseHashHeader. */
  function HeaderHash(s: string): string
  {
    ReadPieces(SplitN(s, HEADER_PIECES))
  }

  method ParseHashHeader(s: string) returns (hash: string)
    ensures hash == HeaderHash(s)
  {
    var pieces := SplitN(s, HEADER_PIECES);
    var i := 0;
    while i < |pieces|
      invariant 0 <= i <= |pieces|
      invariant HeaderHash(s) == ReadPieces(pieces[i..])
    {
      var line := TrimSpace(pieces[i]);
      i := i + 1;
      if line == "" {
        continue;
      }
      if line[0] != '#' {
        return "";
      }
      var body := TrimSpace(line[1..]);
      if !("hash:" <= body) {
        return "";
      }
      return TrimSpace(body[5..]);
    }
    return "";
  }

  // ---- what the reader accepts ----

  lemma SplitNStep(s: string, n: nat)
    ensures var k := IndexOf(s, '\n');
            if n <= 1 || k == |s| then SplitN(s, n) == [s]
            else SplitN(s, n) == [s[..k]] + SplitN(s[k + 1..], n - 1) && s == s[..k] + "\n" + s[k + 1..]
                 && OneLine(s[..k])
  {
    hide IndexOf;
  }

  /** What the cut of a text into n pieces is. */
  ghost predicate CutAtNewlines(s: string, n: nat, r: seq<string>)
  {
    && 0 < |r| <= n && Unlines(r[..|r| - 1]) + r[|r| - 1] == s
    && AllOneLine(r[..|r| - 1]) && (|r| < n ==> OneLine(r[|r| - 1]))
  }

  lemma OneMorePiece(line: string, rest: string, n: nat, pieces: seq<string>)
    requires CutAtNewlines(rest, n, pieces) && OneLine(line)
    ensures CutAtNewlines(line + "\n" + rest, n + 1, [line] + pieces)
  {
    var r := [line] + pieces;
    assert r[..|r| - 1] == [line] + pieces[..|pieces| - 1];
    UnlinesCons(line, pieces[..|pieces| - 1]);
    assert line + "\n" + Unlines(pieces[..|pieces| - 1]) + pieces[|pieces| - 1] == line + "\n" + rest;
    hide Unlines;
  }

  /** The cut is at newlines: the pieces give the text back, and only the last one may hold further lines. */
  lemma {:induction false} SplitNExactly(s: string, n: nat)
    requires n >= 1
    ensures CutAtNewlines(s, n, SplitN(s, n))
    decreases n
  {
    var k := IndexOf(s, '\n');
    SplitNStep(s, n);
    hide SplitN;
    if n > 1 && k < |s| {
      SplitNExactly(s[k + 1..], n - 1);
      OneMorePiece(s[..k], s[k + 1..], n - 1, SplitN(s[k + 1..], n - 1));
    } else {
      assert Unlines([]) + s == s;
    }
  }

  /** A comment that says "hash:" and h, with blanks around anything. */
  ghost predicate SaysHash(piece: string, h: string)
  {
    exists a, b, c, d :: AllSpace(a) && AllSpace(b) && AllSpace(c) && AllSpace(d)
                    && piece == a + ("#" + (b + ("hash:" + (c + h)))) + d
  }

  lemma CommentIsTrimmed(a: string, b: string, rest: string, d: string)
    requires AllSpace(a) && AllSpace(b) && AllSpace(d) && Bare(rest)
    ensures TrimSpace(a + ("#" + (b + rest)) + d) == "#" + (b + rest)
    ensures TrimSpace(("#" + (b + rest))[1..]) == rest
  {
    var core := "#" + (b + rest);
    assert core[|core| - 1] == rest[|rest| - 1];
    TrimSpaceCore(a, core, d);
    assert core[1..] == b + rest + "";
    TrimSpaceCore(b, rest, "");
  }

  lemma SaidHashIsRead(piece: string, h: string, a: string, b: string, c: string, d: string)
    requires Bare(h) && AllSpace(a) && AllSpace(b) && AllSpace(c) && AllSpace(d)
    requires piece == a + ("#" + (b + ("hash:" + (c + h)))) + d
    ensures ReadPiece(piece) == Some(h)
  {
    hide TrimSpace;
    var rest := "hash:" + (c + h);
    assert rest[0] == 'h' && rest[|rest| - 1] == h[|h| - 1];
    CommentIsTrimmed(a, b, rest, d);
    assert rest[5..] == c + h + "";
    TrimSpaceCore(c, h, "");
    hide AllSpace, Bare;
    assert TrimSpace(piece) == "#" + (b + rest);
    assert "hash:" <= rest;
  }

  lemma EndsInBlank(a: string, blanks: string)
    requires AllSpace(blanks)
    ensures blanks != "" ==> IsSpace((a + blanks)[|a + blanks| - 1])
    ensures a + "" == a
  {}

  lemma ReadHashIsSaid(piece: string, h: string)
    requires h != "" && ReadPiece(piece) == Some(h)
    ensures Bare(h) && SaysHash(piece, h)
  {
    hide TrimSpace;
    var line := TrimSpace(piece);
    var a, d := TrimSpaceSplit(piece);
    var body := TrimSpace(line[1..]);
    var b, e := TrimSpaceSplit(line[1..]);
    var c, f := TrimSpaceSplit(body[5..]);
    assert line == "#" + line[1..] && body == "hash:" + body[5..];
    assert line == ("#" + (b + body)) + e && body == ("hash:" + (c + h)) + f;
    EndsInBlank("#" + (b + body), e);
    EndsInBlank("hash:" + (c + h), f);
    hide AllSpace, IsSpace;
  }

  lemma BlankIsSkipped(piece: string)
    ensures ReadPiece(piece) == None <==> AllSpace(piece)
  {
    var a, b := TrimSpaceSplit(piece);
    if AllSpace(piece) {
      TrimSpaceBlank(piece);
    }
    if TrimSpace(piece) == "" {
      assert piece == a + b;
    }
    hide TrimSpace;
  }

  /** What one piece says. */
  lemma PieceExactly(piece: string, h: string)
    requires Bare(h)
    ensures ReadPiece(piece) == Some(h) <==> SaysHash(piece, h)
    ensures ReadPiece(piece) == None <==> AllSpace(piece)
  {
    BlankIsSkipped(piece);
    if ReadPiece(piece) == Some(h) {
      ReadHashIsSaid(piece, h);
    }
    hide ReadPiece, AllSpace;
    if a, b, c, d :| AllSpace(a) && AllSpace(b) && AllSpace(c) && AllSpace(d)
                     && piece == a + ("#" + (b + ("hash:" + (c + h)))) + d {
      SaidHashIsRead(piece, h, a, b, c, d);
    }
  }

  /** Piece k says h, and all before it are blank. */
  ghost predicate SaidFirst(pieces: seq<string>, h: string, k: nat)
  {
    k < |pieces| && SaysHash(pieces[k], h) && forall l :: 0 <= l < k ==> AllSpace(pieces[l])
  }

  lemma {:induction false} FirstPieceDecides(pieces: seq<string>, h: string)
    requires Bare(h)
    ensures ReadPieces(pieces) == h <==> exists k: nat :: SaidFirst(pieces, h, k)
  {
    hide SaysHash, ReadPiece, AllSpace;
    if pieces != [] {
      FirstPieceDecides(pieces[1..], h);
      PieceExactly(pieces[0], h);
      if SaysHash(pieces[0], h) {
        assert SaidFirst(pieces, h, 0);
      }
      if k: nat :| SaidFirst(pieces[1..], h, k) {
        assert AllSpace(pieces[0]) ==> SaidFirst(pieces, h, k + 1);
      }
      if k: nat :| SaidFirst(pieces, h, k) {
        assert k > 0 ==> SaidFirst(pieces[1..], h, k - 1);
      }
    }
  }

  lemma {:induction false} AnswerIsBare(pieces: seq<string>)
    ensures ReadPieces(pieces) == "" || Bare(ReadPieces(pieces))
  {
    hide ReadPiece, Bare;
    if pieces != [] {
      AnswerIsBare(pieces[1..]);
      if ReadPiece(pieces[0]).Some? && ReadPiece(pieces[0]) != Some("") {
        ReadHashIsSaid(pieces[0], ReadPiece(pieces[0]).value);
      }
    }
  }

  /**
   * The answer is the hash of the first of the eight pieces that is not blank, if that piece is a hash comment,
   * and nothing otherwise. A hash further down is never seen.
   */
  lemma HeaderIsOnTop(s: string, h: string)
    ensures HeaderHash(s) == "" || Bare(HeaderHash(s))
    ensures Bare(h) ==> (HeaderHash(s) == h <==> exists k: nat :: SaidFirst(SplitN(s, 8), h, k))
    ensures CutAtNewlines(s, 8, SplitN(s, 8))
  {
    hide Bare, SaidFirst, SplitN, ReadPieces, CutAtNewlines;
    SplitNExactly(s, 8);
    AnswerIsBare(SplitN(s, 8));
    if Bare(h) {
      FirstPieceDecides(SplitN(s, 8), h);
    }
  }

  // ---- correctness ----

  lemma ReadHeaderPiece(before: string, h: string, after: string)
    requires AllSpace(before) && AllSpace(after) && DigestText(h)
    ensures ReadPiece(before + HASH_PREFIX + h + after) == Some(h)
  {
    var core := HASH_PREFIX + h;
    assert core[|core| - 1] == h[|h| - 1];
    assert before + HASH_PREFIX + h + after == before + core + after;
    TrimSpaceCore(before, core, after);
    var inner := "hash: " + h;
    assert core[1..] == " " + inner + "";
    TrimSpaceCore(" ", inner, "");
    assert inner[5..] == " " + h + "";
    TrimSpaceCore(" ", h, "");
    assert "hash:" <= inner;
  }

  /** When more text follows on the same piece, the reader returns too much. */
  lemma ReadOverlongPiece(before: string, h: string, after: string)
    requires AllSpace(before) && DigestText(h)
    requires !AllSpace(after)
    ensures ReadPiece(before + HASH_PREFIX + h + after) != Some(h)
    ensures ReadPiece(before + HASH_PREFIX + h + after) != None
  {
    var piece := before + HASH_PREFIX + h + after;
    var blanks := TrimRightSplit(after);
    var tail := TrimRight(after);
    assert after == tail + blanks;
    assert tail == "" ==> after == blanks;
    var long := h + tail;
    var core := HASH_PREFIX + long;
    assert core[|core| - 1] == tail[|tail| - 1];
    assert piece == before + core + blanks;
    TrimSpaceCore(before, core, blanks);
    var inner := "hash: " + long;
    assert inner[|inner| - 1] == tail[|tail| - 1];
    assert core[1..] == " " + inner + "";
    TrimSpaceCore(" ", inner, "");
    assert inner[5..] == " " + long + "";
    assert long[|long| - 1] == tail[|tail| - 1];
    TrimSpaceCore(" ", long, "");
    assert "hash:" <= inner;
    assert |long| > |h|;
  }

  /** A run of blank lines, with or without carriage returns, before the header. */
  ghost predicate BlankLines(blanks: seq<string>)
  {
    AllOneLine(blanks) && forall i :: 0 <= i < |blanks| ==> AllSpace(blanks[i])
  }

  lemma {:induction false} UnlinesBlank(blanks: seq<string>)
    requires BlankLines(blanks)
    ensures AllSpace(Unlines(blanks))
  {
    if blanks != [] {
      UnlinesBlank(blanks[1..]);
    }
  }

  /** Splitting off one blank line leaves the answer to the rest of the text. */
  lemma SkipBlankLine(blank: string, s: string, n: nat)
    requires OneLine(blank) && AllSpace(blank) && n > 1
    ensures ReadPieces(SplitN(blank + "\n" + s, n)) == ReadPieces(SplitN(s, n - 1))
  {
    var whole := blank + ['\n'] + s;
    IndexOfFirst(blank, '\n', s);
    assert whole[..|blank|] == blank;
    assert whole[|blank| + 1..] == s;
    TrimSpaceBlank(blank);
    var pieces := SplitN(whole, n);
    assert pieces == [blank] + SplitN(s, n - 1);
    assert pieces[1..] == SplitN(s, n - 1);
    assert ReadPiece(pieces[0]) == None;
  }

  lemma {:induction false} SkipBlankLines(blanks: seq<string>, s: string, n: nat)
    requires BlankLines(blanks) && |blanks| < n
    ensures ReadPieces(SplitN(Unlines(blanks) + s, n)) == ReadPieces(SplitN(s, n - |blanks|))
    decreases |blanks|
  {
    hide SplitN, ReadPieces;
    if blanks == [] {
      assert Unlines(blanks) + s == s;
    } else {
      var rest := Unlines(blanks[1..]) + s;
      assert Unlines(blanks) + s == blanks[0] + "\n" + rest;
      SkipBlankLine(blanks[0], rest, n);
      SkipBlankLines(blanks[1..], s, n - 1);
    }
  }

  ghost predicate LineEnd(eol: string)
  {
    eol == "\n" || eol == "\r\n"
  }

  /** The first piece is the line before the first newline. */
  lemma FirstPiece(line: string, rest: string, n: nat)
    requires OneLine(line) && n > 1
    ensures SplitN(line + "\n" + rest, n)[0] == line
  {
    var whole := line + ['\n'] + rest;
    IndexOfFirst(line, '\n', rest);
    assert whole[..|line|] == line;
  }

  /** A header line followed by anything, within a split that still has room. */
  lemma ReadHeaderLine(h: string, eol: string, body: string, n: nat)
    requires DigestText(h) && LineEnd(eol) && n > 1
    ensures ReadPieces(SplitN(Headed(h, eol, body), n)) == h
  {
    hide SplitN;
    var cr := eol[..|eol| - 1];
    var line := HASH_PREFIX + h + cr;
    forall i | 0 <= i < |h| ensures h[i] != '\n' { assert !IsSpace(h[i]); }
    assert Headed(h, eol, body) == line + "\n" + body;
    FirstPiece(line, body, n);
    assert line == "" + HASH_PREFIX + h + cr;
    ReadHeaderPiece("", h, cr);
  }

  /** The header as part of the unsplit remainder. */
  lemma ReadHeaderRemainder(before: string, h: string, eol: string, body: string)
    requires AllSpace(before) && DigestText(h) && LineEnd(eol)
    ensures ReadPieces(SplitN(before + Headed(h, eol, body), 1)) == h <==> AllSpace(body)
  {
    var rest := before + HASH_PREFIX + h + (eol + body);
    assert rest == before + Headed(h, eol, body);
    assert SplitN(rest, 1) == [rest];
    assert [rest][1..] == [];
    if AllSpace(body) {
      ReadHeaderPiece(before, h, eol + body);
    } else {
      var i :| 0 <= i < |body| && !IsSpace(body[i]);
      assert (eol + body)[|eol| + i] == body[i];
      ReadOverlongPiece(before, h, eol + body);
    }
  }

  lemma FewBlankLines(blanks: seq<string>, h: string, eol: string, body: string)
    requires BlankLines(blanks) && DigestText(h) && LineEnd(eol)
    requires |blanks| < HEADER_PIECES - 1
    ensures HeaderHash(Unlines(blanks) + Headed(h, eol, body)) == h
  {
    SkipBlankLines(blanks, Headed(h, eol, body), HEADER_PIECES);
    ReadHeaderLine(h, eol, body, HEADER_PIECES - |blanks|);
  }

  lemma SevenBlankLines(first: seq<string>, more: seq<string>, h: string, eol: string, body: string)
    requires BlankLines(first) && BlankLines(more) && DigestText(h) && LineEnd(eol)
    requires |first| == HEADER_PIECES - 1
    ensures HeaderHash(Unlines(first + more) + Headed(h, eol, body)) == h <==> AllSpace(body)
  {
    var before, header := Unlines(more), Headed(h, eol, body);
    UnlinesBlank(more);
    SkipBlankLines(first, before + header, HEADER_PIECES);
    ReadHeaderRemainder(before, h, eol, body);
    UnlinesConcat(first, more);
    Associate(Unlines(first), before, header);
  }

  /**
   * The header is read back from any file that starts with it, also after leading blank lines and
   * with CRLF ends, exactly as long as fewer than seven blank lines come first: the eighth piece of
   * the split is the whole remainder, so from there on it works only when nothing follows.
   */
  lemma HeaderReadBack(blanks: seq<string>, h: string, eol: string, body: string)
    requires BlankLines(blanks) && DigestText(h) && LineEnd(eol)
    ensures HeaderHash(Unlines(blanks) + Headed(h, eol, body)) == h <==> |blanks| < 7 || AllSpace(body)
  {
    hide SplitN, ReadPieces, Unlines, Headed, HeaderHash;
    if |blanks| < HEADER_PIECES - 1 {
      FewBlankLines(blanks, h, eol, body);
    } else {
      var first, more := blanks[..HEADER_PIECES - 1], blanks[HEADER_PIECES - 1..];
      assert blanks == first + more;
      SevenBlankLines(first, more, h, eol, body);
    }
  }

  /** The published form: header directly before the rendered body. */
  lemma PublishedHash(h: string, body: string)
    requires DigestText(h)
    ensures HeaderHash(FormatHashHeader(h) + body) == h
    ensures FormatHashHeader(h) == "# hash: " + h + "\n"
  {
    HeaderReadBack([], h, "\n", body);
    assert Unlines([]) + Headed(h, "\n", body) == FormatHashHeader(h) + body;
  }
}
