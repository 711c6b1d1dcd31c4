/** The rewriting of whole texts, whose lines are read and joined again: when a second rewriting changes nothing. */
module MarkdownTexts {
  import opened Wrappers
  import opened Splitting
  import opened Text
  import opened Markdown
  import opened MarkdownTheorems

  // ------------------------------------------- reading a text's lines and joining them

  predicate HasCrLf(s: string) { exists i :: 0 <= i < |s| - 1 && s[i] == '\r' && s[i + 1] == '\n' }

  lemma EndingIs(line: string, c: char)
    ensures EndsWith(line, [c]) <==> line != "" && line[|line| - 1] == c
  {
    if line != "" {
      assert line[|line| - 1..] == [line[|line| - 1]];
    }
  }

  /** Some piece but the last ends with a carriage return. */
  predicate SomeReturn(parts: seq<string>)
    requires parts != []
  {
    |parts| > 1 && (EndsWith(parts[0], "\r") || SomeReturn(parts[1..]))
  }

  /** The pieces as lines: all but the last without their carriage return. */
  function Stripped(parts: seq<string>): (r: seq<string>)
    requires parts != []
    ensures |r| == |parts| && r[|r| - 1] == parts[|parts| - 1]
  {
    if |parts| == 1 then parts else [StripReturn(parts[0])] + Stripped(parts[1..])
  }

  lemma {:induction false} StrippedIs(parts: seq<string>)
    requires parts != []
    ensures Stripped(parts) == StripReturns(parts[..|parts| - 1]) + [parts[|parts| - 1]]
  {
    if |parts| == 1 {
      assert parts[..0] == [] && parts == [parts[0]];
    } else {
      StrippedIs(parts[1..]);
      assert parts[1..][..|parts| - 2] == parts[..|parts| - 1][1..];
    }
  }

  lemma CrLfInFront(first: string, later: string)
    requires '\n' !in first
    ensures HasCrLf(first + ['\n'] + later) <==> EndsWith(first, "\r") || HasCrLf(later)
  {
    var s, n := first + ['\n'] + later, |first|;
    EndingIs(first, '\r');
    assert forall i :: 0 <= i < |later| ==> s[n + 1 + i] == later[i];
    assert forall i :: 0 <= i < n ==> s[i] == first[i];
    if HasCrLf(later) {
      var i :| 0 <= i < |later| - 1 && later[i] == '\r' && later[i + 1] == '\n';
      assert s[n + 1 + i] == '\r' && s[n + 1 + i + 1] == '\n';
    }
    if EndsWith(first, "\r") {
      assert s[n - 1] == '\r' && s[n - 1 + 1] == '\n';
    }
    if HasCrLf(s) {
      var i :| 0 <= i < |s| - 1 && s[i] == '\r' && s[i + 1] == '\n';
      if i > n {
        assert later[i - n - 1] == '\r' && later[i - n - 1 + 1] == '\n';
      }
    }
  }

  lemma NoCrLf(s: string)
    requires '\n' !in s
    ensures !HasCrLf(s)
  {
  }

  /** A carriage return before a newline stands at the end of a piece; without it the text is shorter. */
  lemma {:induction false} JoinStripped(parts: seq<string>)
    requires parts != [] && AllUnbroken(parts, '\n')
    ensures HasCrLf(Join(parts, '\n')) <==> SomeReturn(parts)
    ensures |Join(Stripped(parts), '\n')| <= |Join(parts, '\n')|
    ensures Join(Stripped(parts), '\n') == Join(parts, '\n') <==> !SomeReturn(parts)
  {
    hide HasCrLf, EndsWith;
    assert Unbroken(parts[0], '\n');
    if |parts| == 1 {
      NoCrLf(parts[0]);
    } else {
      assert AllUnbroken(parts[1..], '\n') by {
        assert forall k :: 0 <= k < |parts| - 1 ==> parts[1..][k] == parts[k + 1];
      }
      JoinStripped(parts[1..]);
      var first, bare := parts[0], StripReturn(parts[0]);
      var later, kept := Join(parts[1..], '\n'), Join(Stripped(parts[1..]), '\n');
      CrLfInFront(first, later);
      EndingIs(first, '\r');
      assert Stripped(parts)[1..] == Stripped(parts[1..]);
      assert Join(Stripped(parts), '\n') == bare + ['\n'] + kept;
      if Join(Stripped(parts), '\n') == Join(parts, '\n') {
        assert |bare| + |kept| == |first| + |later|;
        assert (bare + ['\n'] + kept)[|bare| + 1..] == kept && (first + ['\n'] + later)[|first| + 1..] == later;
      }
    }
  }

  lemma PiecesAreFree(text: string)
    ensures AllUnbroken(Pieces(text, '\n'), '\n') && Join(Pieces(text, '\n'), '\n') == text
  {
    PiecesJoin(text, '\n');
    forall k | 0 <= k < |Pieces(text, '\n')| ensures Unbroken(Pieces(text, '\n')[k], '\n') {
      assert Pieces(text, '\n')[k] in Pieces(text, '\n');
    }
  }

  lemma LinesAreStripped(text: string)
    ensures var pieces := Pieces(text, '\n'); var lines := Stripped(pieces);
      Lines(text) == if pieces[|pieces| - 1] == "" then lines[..|lines| - 1] else lines
  {
    hide Pieces;
    StrippedIs(Pieces(text, '\n'));
  }

  /** Where a text ends with a newline its last piece is empty, and is not its only one. */
  lemma LastPiece(text: string)
    ensures var pieces := Pieces(text, '\n'); EndsWith(text, "\n") <==> |pieces| > 1 && pieces[|pieces| - 1] == ""
  {
    hide Pieces, Join;
    PiecesAreFree(text);
    var pieces := Pieces(text, '\n');
    var before, last := pieces[..|pieces| - 1], pieces[|pieces| - 1];
    assert pieces == before + [last] && Unbroken(last, '\n');
    EndingIs(text, '\n');
    if |pieces| > 1 {
      JoinAppend(before, last, '\n');
    } else {
      OneJoins(pieces);
    }
  }

  lemma OneJoins(parts: seq<string>)
    requires |parts| == 1
    ensures Join(parts, '\n') == parts[0]
  {
  }

  /** Joining the lines of a text gives it back exactly when no line ends with CR LF and no newline ends the text. */
  lemma LinesJoinBackExactly(text: string)
    ensures JoinLines(Lines(text)) == text <==> !HasCrLf(text) && !EndsWith(text, "\n")
  {
    hide Pieces, Join, Lines, HasCrLf, EndsWith, Stripped, SomeReturn;
    var pieces := Pieces(text, '\n');
    var lines := Stripped(pieces);
    PiecesAreFree(text);
    LastPiece(text);
    LinesAreStripped(text);
    JoinStripped(pieces);
    if pieces[|pieces| - 1] == "" {
      var before := lines[..|lines| - 1];
      assert lines == before + [""];
      if before == [] {
        OneJoins(pieces);
        OneJoins(lines);
      } else {
        JoinAppend(before, "", '\n');
      }
    }
  }

  // ----------------------------------------------------- carriage returns at line ends

  lemma {:induction false} TrimStartKeepsEnd(s: string, w: char)
    requires IsWhitespace(w)
    ensures TrimStart(s + [w]) == if TrimStart(s) == "" then "" else TrimStart(s) + [w]
  {
    var all := s + [w];
    if s == "" {
      assert all[1..] == "" && TrimStart(all[1..]) == "";
    } else {
      assert all[1..] == s[1..] + [w];
      if IsWhitespace(s[0]) {
        TrimStartKeepsEnd(s[1..], w);
      }
    }
  }

  lemma TrimDropsEnd(s: string, w: char)
    requires IsWhitespace(w)
    ensures Trim(s + [w]) == Trim(s)
  {
    TrimStartKeepsEnd(s, w);
    var t := TrimStart(s);
    assert (t + [w])[..|t|] == t;
  }

  lemma {:induction false} LevelIgnores(s: string, w: char)
    requires w != '#'
    ensures Level(s + [w]) == Level(s)
  {
    if s != "" {
      assert (s + [w])[1..] == s[1..] + [w];
      LevelIgnores(s[1..], w);
    }
  }

  lemma FenceIgnoresReturn(line: string)
    ensures IsFence(line + "\r") == IsFence(line)
  {
    TrimStartKeepsEnd(line, '\r');
    var t := TrimStart(line);
    if "```" <= t + "\r" && t != "" {
      assert (t + "\r")[2] == '`';
      assert (t + "\r")[..3] == t[..3];
    }
    if "```" <= t {
      assert (t + "\r")[..3] == t[..3];
    }
  }

  lemma HeaderIgnoresReturn(line: string)
    ensures Header(line + "\r") == Header(line)
  {
    TrimStartKeepsEnd(line, '\r');
    var t := TrimStart(line);
    if t != "" {
      LevelIgnores(t, '\r');
      var rest := t[Level(t)..];
      assert (t + "\r")[Level(t)..] == rest + "\r";
      assert (rest + "\r")[0] == if rest == "" then '\r' else rest[0];
      TrimDropsEnd(rest, '\r');
    }
  }

  /** A line and the line without its carriage return are of one kind, and have the same cells. */
  lemma SameKind(line: string)
    ensures var bare := StripReturn(line);
      && IsFence(bare) == IsFence(line) && Header(bare) == Header(line) && Trim(bare) == Trim(line)
  {
    EndingIs(line, '\r');
    if EndsWith(line, "\r") {
      var bare := line[..|line| - 1];
      assert line == bare + "\r";
      FenceIgnoresReturn(bare);
      HeaderIgnoresReturn(bare);
      TrimDropsEnd(bare, '\r');
    }
  }

  /** The second list is the first, some lines without their carriage return. */
  predicate Loses(lines: seq<string>, fewer: seq<string>) {
    |fewer| == |lines| && forall k :: 0 <= k < |lines| ==> fewer[k] == lines[k] || fewer[k] == StripReturn(lines[k])
  }

  lemma AlikeLines(line: string, other: string)
    requires other == line || other == StripReturn(line)
    ensures IsFence(other) == IsFence(line) && Header(other) == Header(line)
    ensures IsTableRow(other) == IsTableRow(line) && IsSeparatorRow(other) == IsSeparatorRow(line)
    ensures Cells(other) == Cells(line)
  {
    hide IsFence, Header;
    SameKind(line);
  }

  lemma {:induction false} AlikeRuns(lines: seq<string>, fewer: seq<string>)
    requires Loses(lines, fewer)
    ensures TableRun(fewer) == TableRun(lines)
  {
    hide IsTableRow, IsSeparatorRow, StripReturn;
    if lines != [] {
      AlikeLines(lines[0], fewer[0]);
      AlikeRuns(lines[1..], fewer[1..]);
    }
  }

  lemma {:induction false} AlikeRows(labels: seq<string>, rows: seq<string>, fewer: seq<string>)
    requires Loses(rows, fewer)
    ensures DescribeRows(labels, fewer) == DescribeRows(labels, rows)
  {
    hide IsSeparatorRow, StripReturn, Cells;
    if rows != [] {
      AlikeLines(rows[0], fewer[0]);
      AlikeRows(labels, rows[1..], fewer[1..]);
    }
  }

  /** A table that says nothing still says nothing. */
  lemma SilentTablesStay(table: seq<string>, fewer: seq<string>)
    requires table != [] && Loses(table, fewer) && RewriteTable(table) == table && InTable(table[0])
    ensures RewriteTable(fewer) == fewer
  {
    hide InTable, IsSeparatorRow, Cells, StripReturn, DescribeRows;
    if |table| >= 2 {
      AlikeLines(table[0], fewer[0]);
      AlikeLines(table[1], fewer[1]);
      var n := if IsSeparatorRow(table[1]) then 2 else 1;
      AlikeRows(Cells(table[0]), table[n..], fewer[n..]);
      RowsBecomePlain(Cells(table[0]), table[n..]);
      var described := DescribeRows(Cells(table[0]), table[n..]);
      assert described == table ==> Plain(table[0]);
    }
  }

  /** What a rewriting leaves alone it also leaves alone without the carriage returns. */
  lemma {:induction false} StableWithoutReturns(lines: seq<string>, fewer: seq<string>, inCode: bool)
    requires Loses(lines, fewer) && Rewrite(lines, inCode) == lines
    ensures Rewrite(fewer, inCode) == fewer
    decreases |lines|
  {
    hide IsFence, Header, IsTableRow, IsSeparatorRow, Cells, StripReturn, RewriteTable;
    if lines != [] {
      AlikeLines(lines[0], fewer[0]);
      if !IsFence(lines[0]) && !inCode && Header(lines[0]).Some? {
        HeadersBecomePlain(lines[0]);
      } else if !IsFence(lines[0]) && !inCode && IsTableRow(lines[0]) {
        StableTable(lines, fewer);
        var n := 1 + TableRun(lines[1..]);
        StableWithoutReturns(lines[n..], fewer[n..], false);
        AlikeRuns(lines[1..], fewer[1..]);
        assert fewer == fewer[..n] + fewer[n..];
      } else {
        var mode := if IsFence(lines[0]) then !inCode else inCode;
        assert lines[1..] == Rewrite(lines[1..], mode);
        StableWithoutReturns(lines[1..], fewer[1..], mode);
        assert fewer == [fewer[0]] + fewer[1..];
      }
    }
  }

  lemma StableTable(lines: seq<string>, fewer: seq<string>)
    requires lines != [] && Loses(lines, fewer) && Rewrite(lines, false) == lines
    requires !IsFence(lines[0]) && Header(lines[0]).None? && IsTableRow(lines[0])
    ensures var n := 1 + TableRun(lines[1..]);
      RewriteTable(fewer[..n]) == fewer[..n] && Rewrite(lines[n..], false) == lines[n..]
  {
    hide IsFence, Header, IsTableRow, IsSeparatorRow, Cells, StripReturn, RewriteTable;
    var n := 1 + TableRun(lines[1..]);
    var table, rest := lines[..n], Rewrite(lines[n..], false);
    assert RewriteTable(table) + rest == lines;
    TablesBecomePlainOrStay(table);
    TablesAreNotEmptied(table);
    assert RewriteTable(table)[0] == lines[0];
    assert AllPlain(RewriteTable(table)) ==> Plain(lines[0]);
    assert lines[n..] == rest;
    SilentTablesStay(table, fewer[..n]);
  }

  // -------------------------------------------------------------------- idempotence

  lemma {:induction false} StrippedLoses(parts: seq<string>)
    requires parts != []
    ensures Loses(parts, Stripped(parts))
  {
    hide StripReturn;
    if |parts| > 1 {
      StrippedLoses(parts[1..]);
    }
  }

  /** The lines of a rewritten text are rewritten to themselves. */
  lemma RereadLinesAreStable(lines: seq<string>)
    requires AllUnbroken(lines, '\n')
    ensures var again := Lines(JoinLines(Rewrite(lines, false))); Rewrite(again, false) == again
  {
    hide Rewrite, Stripped, Lines;
    var out := Rewrite(lines, false);
    OutputIsUnbroken(lines, false, '\n');
    RewritingIsIdempotent(lines, false);
    if out == [] {
      assert Pieces("", '\n') == [""];
      LinesAreStripped("");
      NothingToRewrite();
    } else {
      assert forall p <- out :: '\n' !in p by {
        forall p | p in out ensures '\n' !in p {
          var k :| 0 <= k < |out| && out[k] == p;
          assert Unbroken(out[k], '\n');
        }
      }
      JoinPieces(out, '\n');
      LinesAreStripped(JoinLines(out));
      StrippedLoses(out);
      if out[|out| - 1] == "" {
        var before := out[..|out| - 1];
        assert out == before + [""];
        BlankStaysLast(before, false);
        StableWithoutReturns(before, Stripped(out)[..|out| - 1], false);
      } else {
        StableWithoutReturns(out, Stripped(out), false);
      }
    }
  }

  lemma NothingToRewrite()
    ensures Rewrite([], false) == []
  {
  }

  lemma LinesAreUnbroken(text: string, c: char)
    requires c == '\n' || c !in text
    ensures AllUnbroken(Lines(text), c)
  {
    var pieces := Pieces(text, '\n');
    PiecesAreFree(text);
    LinesAreStripped(text);
    forall k | 0 <= k < |pieces| ensures Unbroken(pieces[k], c) {
      if c == '\n' { assert Unbroken(pieces[k], '\n'); } else { PieceIsInText(text, k); }
    }
    StrippedLoses(pieces);
  }

  lemma {:induction false} PieceIsInText(text: string, k: nat)
    requires k < |Pieces(text, '\n')|
    ensures forall c <- Pieces(text, '\n')[k] :: c in text
  {
    if text != "" {
      var later := Pieces(text[1..], '\n');
      if text[0] == '\n' {
        if k > 0 { PieceIsInText(text[1..], k - 1); }
      } else {
        PieceIsInText(text[1..], k);
      }
    }
  }

  /**
   For every text, rewriting twice is rewriting once if and only if the text rewritten once holds no CR LF and does
   not end with a newline: what a second rewriting changes are only the ends of lines.
   */
  lemma RewritingTextsIsIdempotentExactly(text: string)
    ensures var once := RewriteText(text);
      RewriteText(once) == once <==> !HasCrLf(once) && !EndsWith(once, "\n")
    ensures var once := RewriteText(text); RewriteText(once) == JoinLines(Lines(once))
  {
    hide Rewrite, Lines, HasCrLf, EndsWith, JoinLines;
    LinesAreUnbroken(text, '\n');
    RereadLinesAreStable(Lines(text));
    LinesJoinBackExactly(RewriteText(text));
  }

  /** The last of several lines is blank. */
  predicate BlankAtEnd(lines: seq<string>) { |lines| > 1 && lines[|lines| - 1] == "" }

  // ------------------------------------------------------ texts without carriage returns

  /** The lines of a text end with a blank one after another exactly when the text ends with two newlines. */
  lemma BlankLastLine(text: string)
    requires '\r' !in text
    ensures BlankAtEnd(Lines(text)) <==> EndsWith(text, "\n\n")
  {
    hide Pieces, Lines, Join;
    var lines, pieces := Lines(text), Pieces(text, '\n');
    PlainLines(text);
    PiecesJoin(text, '\n');
    if |lines| > 1 && lines[|lines| - 1] == "" {
      var before := lines[..|lines| - 1];
      assert lines == before + [""] && pieces == lines + [""];
      JoinAppend(before, "", '\n');
      JoinAppend(lines, "", '\n');
      assert text == Join(before, '\n') + ['\n'] + "" + ['\n'] + "";
    }
    if EndsWith(text, "\n\n") {
      var before := text[..|text| - 2];
      assert text == (before + ['\n'] + "") + ['\n'] + "";
      PiecesAppend(before + ['\n'] + "", "", '\n');
      PiecesAppend(before, "", '\n');
      OnePiece("", '\n');
      assert pieces == Pieces(before, '\n') + [""] + [""];
    }
  }

  lemma {:induction false} NothingToStrip(parts: seq<string>)
    requires parts != [] && AllUnbroken(parts, '\r')
    ensures Stripped(parts) == parts
  {
    if |parts| > 1 {
      NothingToStrip(parts[1..]);
      EndingIs(parts[0], '\r');
      assert Unbroken(parts[0], '\r');
      assert parts == [parts[0]] + parts[1..];
    }
  }

  lemma PlainLines(text: string)
    requires '\r' !in text
    ensures var pieces := Pieces(text, '\n');
      Lines(text) == if pieces[|pieces| - 1] == "" then pieces[..|pieces| - 1] else pieces
  {
    var pieces := Pieces(text, '\n');
    forall k | 0 <= k < |pieces| ensures Unbroken(pieces[k], '\r') { PieceIsInText(text, k); }
    LinesAreStripped(text);
    NothingToStrip(pieces);
  }

  lemma {:induction false} JoinKeepsUnbroken(parts: seq<string>, c: char)
    requires parts != [] && AllUnbroken(parts, c) && c != '\n'
    ensures Unbroken(Join(parts, '\n'), c)
  {
    assert Unbroken(parts[0], c);
    if |parts| > 1 {
      assert forall k :: 0 <= k < |parts| - 1 ==> parts[1..][k] == parts[k + 1];
      JoinKeepsUnbroken(parts[1..], c);
    }
  }

  /** The rewritten text ends with a newline exactly when the last of several lines is blank. */
  lemma NewlineIsKept(text: string)
    ensures EndsWith(RewriteText(text), "\n") <==> BlankAtEnd(Lines(text))
  {
    hide Lines, EndsWith, Rewrite, Pieces;
    var lines := Lines(text);
    var out := Rewrite(lines, false);
    LinesAreUnbroken(text, '\n');
    OutputIsUnbroken(lines, false, '\n');
    LastPiece(RewriteText(text));
    RewriteKeepsEmptiness(lines, false);
    if out == [] {
      OnePiece("", '\n');
    } else {
      assert forall p <- out :: '\n' !in p by {
        forall p | p in out ensures '\n' !in p {
          var k :| 0 <= k < |out| && out[k] == p;
          assert Unbroken(out[k], '\n');
        }
      }
      JoinPieces(out, '\n');
      if lines[|lines| - 1] == "" {
        var before := lines[..|lines| - 1];
        assert lines == before + [""];
        BlankStaysLast(before, false);
        RewriteKeepsEmptiness(before, false);
      } else {
        LastStaysNonBlank(lines, false);
      }
    }
  }

  /** For texts without carriage returns: exactly when the text does not end with two newlines. */
  lemma RewritingTextsIsIdempotentUnlessBlankAtEnd(text: string)
    requires '\r' !in text
    ensures RewriteText(RewriteText(text)) == RewriteText(text) <==> !EndsWith(text, "\n\n")
  {
    hide Lines, EndsWith, Rewrite;
    RewritingTextsIsIdempotentExactly(text);
    NewlineIsKept(text);
    BlankLastLine(text);
    var lines := Lines(text);
    var out := Rewrite(lines, false);
    LinesAreUnbroken(text, '\r');
    OutputIsUnbroken(lines, false, '\r');
    if out != [] {
      JoinKeepsUnbroken(out, '\r');
    }
    assert Unbroken(RewriteText(text), '\r');
  }
}
