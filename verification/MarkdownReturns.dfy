/** When rewriting a text twice is rewriting it once, read off the text itself. */
module MarkdownReturns {
  import opened Wrappers
  import opened Splitting
  import opened Text
  import opened Markdown
  import opened MarkdownTheorems
  import opened MarkdownTexts

  function Same(x: bool, n: nat): (xs: seq<bool>)
    ensures |xs| == n && forall k :: 0 <= k < n ==> xs[k] == x
  {
    seq(n, _ => x)
  }

  /** Which lines are kept as they are: all but headers and the lines of tables that say something. */
  function Kept(lines: seq<string>, inCode: bool): (kept: seq<bool>)
    ensures |kept| == |lines|
    decreases |lines|
  {
    if lines == [] then []
    else if IsFence(lines[0]) then [true] + Kept(lines[1..], !inCode)
    else if inCode then [true] + Kept(lines[1..], inCode)
    else if Header(lines[0]).Some? then [false] + Kept(lines[1..], inCode)
    else if IsTableRow(lines[0]) then
      var n := 1 + TableRun(lines[1..]);
      Same(RewriteTable(lines[..n]) == lines[..n], n) + Kept(lines[n..], inCode)
    else [true] + Kept(lines[1..], inCode)
  }

  /** A line that is kept, one of the first `n`, still ends with a carriage return. */
  predicate KeepsReturn(lines: seq<string>, kept: seq<bool>, n: int)
    requires n <= |lines| == |kept|
  {
    exists k :: 0 <= k < n && kept[k] && EndsWith(lines[k], "\r")
  }

  /** One of the first `n` lines ends with a carriage return. */
  predicate HasReturn(lines: seq<string>, n: int)
    requires n <= |lines|
  {
    exists k :: 0 <= k < n && EndsWith(lines[k], "\r")
  }

  lemma {:induction false} SomeReturnIs(parts: seq<string>)
    requires parts != []
    ensures SomeReturn(parts) <==> HasReturn(parts, |parts| - 1)
  {
    hide EndsWith;
    if |parts| > 1 {
      SomeReturnIs(parts[1..]);
      if HasReturn(parts[1..], |parts| - 2) {
        var k :| 0 <= k < |parts| - 2 && EndsWith(parts[1..][k], "\r");
        assert EndsWith(parts[k + 1], "\r");
      }
      if HasReturn(parts, |parts| - 1) && !EndsWith(parts[0], "\r") {
        var k :| 0 <= k < |parts| - 1 && EndsWith(parts[k], "\r");
        assert EndsWith(parts[1..][k - 1], "\r");
      }
    }
  }

  // -------------------------------------------------- what is written anew has no returns

  lemma {:induction false} TrimEndDropsWhitespace(s: string)
    ensures TrimEnd(s) != "" ==> !IsWhitespace(TrimEnd(s)[|TrimEnd(s)| - 1])
  {
    if s != "" && IsWhitespace(s[|s| - 1]) {
      TrimEndDropsWhitespace(s[..|s| - 1]);
    }
  }

  lemma HeadersHaveNoReturn(line: string)
    ensures Header(line).Some? ==> !EndsWith(Header(line).value, "\r")
  {
    if Header(line).Some? {
      EndingIs(Header(line).value, '\r');
    }
  }

  predicate Ended(pairs: seq<(string, string)>) {
    forall k :: 0 <= k < |pairs| ==> pairs[k].1 != "" && !EndsWith(pairs[k].1, "\r")
  }

  lemma {:induction false} TrimmedPairs(labels: seq<string>, parts: seq<string>)
    ensures Ended(Pairs(labels, TrimAll(parts)))
  {
    if labels != [] && parts != [] {
      TrimmedPairs(labels[1..], parts[1..]);
      TrimEndDropsWhitespace(TrimStart(parts[0]));
      EndingIs(Trim(parts[0]), '\r');
      assert TrimAll(parts)[1..] == TrimAll(parts[1..]);
    }
  }

  lemma LabelledEnds(pair: (string, string))
    requires Ended([pair])
    ensures !EndsWith(Labelled(pair), "\r")
  {
    assert [pair][0] == pair;
    EndingIs(pair.1, '\r');
    EndingIs(Labelled(pair), '\r');
  }

  lemma FrontHasNoReturn(front: string, line: string)
    requires line != "" && !EndsWith(line, "\r")
    ensures !EndsWith(front + line, "\r")
  {
    EndingIs(line, '\r');
    EndingIs(front + line, '\r');
  }

  lemma {:induction false} SummaryEnds(pairs: seq<(string, string)>)
    requires pairs != [] && Ended(pairs)
    ensures Summary(pairs) != "" && !EndsWith(Summary(pairs), "\r")
  {
    hide EndsWith;
    if |pairs| == 1 {
      assert pairs == [pairs[0]];
      LabelledEnds(pairs[0]);
    } else {
      SummaryEnds(pairs[1..]);
      FrontHasNoReturn(Labelled(pairs[0]) + " | ", Summary(pairs[1..]));
    }
  }

  lemma DescriptionsHaveNoReturn(pairs: seq<(string, string)>)
    requires Ended(pairs)
    ensures !HasReturn(Describe(pairs), |Describe(pairs)|)
  {
    hide EndsWith;
    forall k | 0 <= k < |pairs| ensures !EndsWith("- " + Labelled(pairs[k]), "\r") {
      assert Ended([pairs[k]]);
      LabelledEnds(pairs[k]);
      FrontHasNoReturn("- ", Labelled(pairs[k]));
    }
    if |pairs| > 2 {
      SummaryEnds(pairs);
      FrontHasNoReturn("- ", Summary(pairs));
    }
  }

  lemma {:induction false} RowsHaveNoReturn(labels: seq<string>, rows: seq<string>)
    ensures !HasReturn(DescribeRows(labels, rows), |DescribeRows(labels, rows)|)
  {
    hide EndsWith;
    if rows != [] {
      RowsHaveNoReturn(labels, rows[1..]);
      TrimmedPairs(labels, Pieces(WithoutLastBar(WithoutFirstBar(Trim(rows[0]))), '|'));
      DescriptionsHaveNoReturn(Pairs(labels, Cells(rows[0])));
      var first, later := RowLines(labels, rows[0]), DescribeRows(labels, rows[1..]);
      forall k | 0 <= k < |first + later| ensures !EndsWith((first + later)[k], "\r") {
        if k < |first| { assert !EndsWith(first[k], "\r"); } else { assert !EndsWith(later[k - |first|], "\r"); }
      }
    }
  }

  /** A table is kept line by line, or what is written for it holds no return. */
  lemma TablesAreKeptOrFree(table: seq<string>)
    ensures RewriteTable(table) == table || !HasReturn(RewriteTable(table), |RewriteTable(table)|)
  {
    hide EndsWith;
    if |table| >= 2 {
      RowsHaveNoReturn(Cells(table[0]), table[if IsSeparatorRow(table[1]) then 2 else 1..]);
    }
  }

  // ------------------------------------------------------------------- whole texts

  /** The rewriting of a first part and of the rest, put together. */
  lemma PartsReturn(out: seq<string>, later: seq<string>, head: seq<string>, tail: seq<string>,
                    keptHead: seq<bool>, keptTail: seq<bool>)
    requires |keptHead| == |head| && |keptTail| == |tail| && later != [] && tail != []
    requires HasReturn(out, |out|) <==> KeepsReturn(head, keptHead, |head|)
    requires HasReturn(later, |later| - 1) <==> KeepsReturn(tail, keptTail, |tail| - 1)
    ensures HasReturn(out + later, |out + later| - 1)
       <==> KeepsReturn(head + tail, keptHead + keptTail, |head + tail| - 1)
  {
    ReturnsInParts(out, later);
    KeptInParts(head, tail, keptHead, keptTail);
  }

  lemma ReturnsInParts(out: seq<string>, later: seq<string>)
    requires later != []
    ensures HasReturn(out + later, |out + later| - 1) <==> HasReturn(out, |out|) || HasReturn(later, |later| - 1)
  {
    hide EndsWith;
    var all := out + later;
    if k :| 0 <= k < |out| && EndsWith(out[k], "\r") {
      assert EndsWith(all[k], "\r");
    }
    if k :| 0 <= k < |later| - 1 && EndsWith(later[k], "\r") {
      assert EndsWith(all[|out| + k], "\r");
    }
    if k :| 0 <= k < |all| - 1 && EndsWith(all[k], "\r") {
      assert k < |out| ==> EndsWith(out[k], "\r");
      assert k >= |out| ==> EndsWith(later[k - |out|], "\r");
    }
  }

  lemma KeptInParts(head: seq<string>, tail: seq<string>, keptHead: seq<bool>, keptTail: seq<bool>)
    requires |keptHead| == |head| && |keptTail| == |tail| && tail != []
    ensures KeepsReturn(head + tail, keptHead + keptTail, |head + tail| - 1)
       <==> KeepsReturn(head, keptHead, |head|) || KeepsReturn(tail, keptTail, |tail| - 1)
  {
    hide EndsWith;
    var all, kept := head + tail, keptHead + keptTail;
    if k :| 0 <= k < |head| && keptHead[k] && EndsWith(head[k], "\r") {
      assert kept[k] && EndsWith(all[k], "\r");
    }
    if k :| 0 <= k < |tail| - 1 && keptTail[k] && EndsWith(tail[k], "\r") {
      assert kept[|head| + k] && EndsWith(all[|head| + k], "\r");
    }
    if k :| 0 <= k < |all| - 1 && kept[k] && EndsWith(all[k], "\r") {
      assert k < |head| ==> keptHead[k] && EndsWith(head[k], "\r");
      assert k >= |head| ==> keptTail[k - |head|] && EndsWith(tail[k - |head|], "\r");
    }
  }

  /** In the rewriting a line other than the last ends with a return exactly when it was kept and did so before. */
  predicate ReturnsAgree(lines: seq<string>, inCode: bool) {
    var out := Rewrite(lines, inCode);
    HasReturn(out, |out| - 1) <==> KeepsReturn(lines, Kept(lines, inCode), |lines| - 1)
  }

  lemma TableAgrees(lines: seq<string>)
    requires lines != [] && !IsFence(lines[0]) && Header(lines[0]).None? && IsTableRow(lines[0])
    requires var tail := lines[1 + TableRun(lines[1..])..];
      tail != [] ==> Rewrite(tail, false) != [] && ReturnsAgree(tail, false)
    ensures ReturnsAgree(lines, false)
  {
    hide IsFence, Header, IsTableRow, RewriteTable, EndsWith, KeepsReturn, HasReturn, TableRun;
    TableReturnsAreKept(lines);
    var n := 1 + TableRun(lines[1..]);
    var table, tail := lines[..n], lines[n..];
    var out, kept := RewriteTable(table), Same(RewriteTable(table) == table, n);
    var later, keptTail := Rewrite(tail, false), Kept(tail, false);
    TableStep(lines);
    assert lines == table + tail;
    hide Rewrite, Kept, Same;
    if tail != [] {
      PartsReturn(out, later, table, tail, kept, keptTail);
    } else {
      assert lines == table && out + later == out && kept + keptTail == kept;
    }
  }

  lemma TableStep(lines: seq<string>)
    requires lines != [] && !IsFence(lines[0]) && Header(lines[0]).None? && IsTableRow(lines[0])
    ensures var n := 1 + TableRun(lines[1..]);
      && Rewrite(lines, false) == RewriteTable(lines[..n]) + Rewrite(lines[n..], false)
      && Kept(lines, false) == Same(RewriteTable(lines[..n]) == lines[..n], n) + Kept(lines[n..], false)
  {
    hide IsFence, Header, IsTableRow, RewriteTable, Same;
  }

  lemma LineAgrees(lines: seq<string>, inCode: bool)
    requires lines != [] && (IsFence(lines[0]) || inCode || Header(lines[0]).Some? || !IsTableRow(lines[0]))
    requires var mode := if IsFence(lines[0]) then !inCode else inCode;
      lines[1..] != [] ==> Rewrite(lines[1..], mode) != [] && ReturnsAgree(lines[1..], mode)
    ensures ReturnsAgree(lines, inCode)
  {
    hide IsFence, Header, IsTableRow, RewriteTable, EndsWith, KeepsReturn, HasReturn;
    var mode := if IsFence(lines[0]) then !inCode else inCode;
    var isKept := IsFence(lines[0]) || inCode || Header(lines[0]).None?;
    var line := if isKept then lines[0] else Header(lines[0]).value;
    var later, keptTail := Rewrite(lines[1..], mode), Kept(lines[1..], mode);
    assert Rewrite(lines, inCode) == [line] + later && Kept(lines, inCode) == [isKept] + keptTail;
    if lines[1..] != [] {
      HeadersHaveNoReturn(lines[0]);
      SingleReturn(line, lines[0], isKept);
      PartsReturn([line], later, [lines[0]], lines[1..], [isKept], keptTail);
      assert lines == [lines[0]] + lines[1..];
    } else {
      NoneBefore([line] + later, lines, [isKept] + keptTail);
    }
  }

  lemma {:induction false} ReturnsAreKept(lines: seq<string>, inCode: bool)
    requires lines != []
    ensures Rewrite(lines, inCode) != [] && ReturnsAgree(lines, inCode)
    decreases |lines|
  {
    hide IsFence, Header, IsTableRow, Rewrite, ReturnsAgree;
    RewriteKeepsEmptiness(lines, inCode);
    if !IsFence(lines[0]) && !inCode && Header(lines[0]).None? && IsTableRow(lines[0]) {
      var tail := lines[1 + TableRun(lines[1..])..];
      if tail != [] { ReturnsAreKept(tail, false); }
      TableAgrees(lines);
    } else {
      if lines[1..] != [] { ReturnsAreKept(lines[1..], if IsFence(lines[0]) then !inCode else inCode); }
      LineAgrees(lines, inCode);
    }
  }

  lemma NoneBefore(out: seq<string>, lines: seq<string>, kept: seq<bool>)
    requires |kept| == |lines|
    ensures !HasReturn(out, 0) && !KeepsReturn(lines, kept, 0)
  {
  }

  lemma SingleReturn(line: string, before: string, isKept: bool)
    requires EndsWith(line, "\r") <==> isKept && EndsWith(before, "\r")
    ensures HasReturn([line], 1) <==> KeepsReturn([before], [isKept], 1)
  {
    assert [line][0] == line && [before][0] == before && [isKept][0] == isKept;
  }

  lemma TableReturnsAreKept(lines: seq<string>)
    requires lines != []
    ensures var n := 1 + TableRun(lines[1..]);
      var table, out := lines[..n], RewriteTable(lines[..n]);
      var kept := Same(out == table, n);
      && (HasReturn(out, |out|) <==> KeepsReturn(table, kept, n))
      && out != [] && (HasReturn(out, |out| - 1) <==> KeepsReturn(table, kept, n - 1))
  {
    hide EndsWith, RewriteTable;
    var n := 1 + TableRun(lines[1..]);
    TablesAreKeptOrFree(lines[..n]);
    TablesAreNotEmptied(lines[..n]);
  }

  /**
   For every text, rewriting twice is rewriting once if and only if the last of several lines is not blank, and no
   line but the last that is kept as it is still ends with a carriage return, once its own has been read off.
   */
  lemma RewritingTwiceIsOnceExactly(text: string)
    ensures var lines := Lines(text);
      RewriteText(RewriteText(text)) == RewriteText(text)
      <==> !BlankAtEnd(lines) && !KeepsReturn(lines, Kept(lines, false), |lines| - 1)
  {
    hide Lines, EndsWith, Rewrite, HasCrLf, SomeReturn, KeepsReturn, HasReturn, Stripped;
    var lines := Lines(text);
    var out := Rewrite(lines, false);
    RewritingTextsIsIdempotentExactly(text);
    NewlineIsKept(text);
    LinesAreUnbroken(text, '\n');
    OutputIsUnbroken(lines, false, '\n');
    RewriteKeepsEmptiness(lines, false);
    if lines == [] {
      NoCrLf("");
      NothingIsKept();
    } else {
      ReturnsAreKept(lines, false);
      SomeReturnIs(out);
      JoinStripped(out);
    }
  }

  lemma NothingIsKept()
    ensures !KeepsReturn([], Kept([], false), -1)
  {
  }
}
