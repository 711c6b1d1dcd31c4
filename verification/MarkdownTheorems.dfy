/** The rewriting of lines is stable: its output is rewritten to itself, and nothing inside a code fence changes. */
module MarkdownTheorems {
  import opened Wrappers
  import opened Splitting
  import opened Text
  import opened Markdown

  // ----------------------------------------------------------- lines that stay as they are

  predicate Plain(line: string) { !IsFence(line) && Header(line).None? && !InTable(line) }

  lemma TrimEndIsPrefix(s: string)
    ensures TrimEnd(s) <= s
  {
  }

  /** What a line begins with settles what it is. */
  lemma PlainStart(line: string)
    requires line != "" && !IsWhitespace(line[0]) && line[0] != '`' && line[0] != '#' && line[0] != '|'
    ensures Plain(line)
  {
    assert TrimStart(line) == line;
    TrimEndIsPrefix(line);
    assert Level(line) == 0;
  }

  lemma TableLinesAreNotFences(line: string)
    requires InTable(line)
    ensures !IsFence(line) && Header(line).None? && line != ""
  {
    TrimEndIsPrefix(TrimStart(line));
    assert TrimStart(line)[0] == '|';
  }

  lemma HeadersBecomePlain(line: string)
    requires Header(line).Some?
    ensures Plain(Header(line).value) && Header(line).value != ""
  {
    PlainStart(Header(line).value);
  }

  predicate AllPlain(lines: seq<string>) { forall k :: 0 <= k < |lines| ==> Plain(lines[k]) && lines[k] != "" }

  lemma DescriptionsArePlain(pairs: seq<(string, string)>)
    ensures AllPlain(Describe(pairs))
  {
    forall k | 0 <= k < |Describe(pairs)| ensures Plain(Describe(pairs)[k]) {
      PlainStart(Describe(pairs)[k]);
    }
  }

  lemma {:induction false} RowsBecomePlain(labels: seq<string>, rows: seq<string>)
    ensures AllPlain(DescribeRows(labels, rows))
  {
    if rows != [] {
      RowsBecomePlain(labels, rows[1..]);
      DescriptionsArePlain(Pairs(labels, Cells(rows[0])));
    }
  }

  lemma TablesBecomePlainOrStay(lines: seq<string>)
    ensures RewriteTable(lines) == lines || AllPlain(RewriteTable(lines))
  {
    if |lines| >= 2 {
      RowsBecomePlain(Cells(lines[0]), lines[if IsSeparatorRow(lines[1]) then 2 else 1..]);
    }
  }

  // ------------------------------------------------------------------- idempotence

  lemma {:induction false} PlainLinesPass(plain: seq<string>, rest: seq<string>)
    requires AllPlain(plain)
    ensures Rewrite(plain + rest, false) == plain + Rewrite(rest, false)
  {
    hide IsFence, Header, RewriteTable, IsTableRow, IsSeparatorRow;
    if plain == [] {
      assert plain + rest == rest;
    } else {
      assert Plain(plain[0]);
      PlainLinesPass(plain[1..], rest);
      assert (plain + rest)[1..] == plain[1..] + rest;
      Regroup([plain[0]], plain[1..], Rewrite(rest, false));
      assert [plain[0]] + plain[1..] == plain;
    }
  }

  predicate BeginsOutsideTables(lines: seq<string>) { lines == [] || !InTable(lines[0]) }

  lemma OutputBeginsAlike(lines: seq<string>)
    requires BeginsOutsideTables(lines)
    ensures BeginsOutsideTables(Rewrite(lines, false))
  {
    if lines != [] && Header(lines[0]).Some? {
      HeadersBecomePlain(lines[0]);
    }
  }

  /** A block that begins with a table row and is followed by something else is rewritten as a table. */
  lemma BlockIsTaken(table: seq<string>, rest: seq<string>)
    requires table != [] && IsTableRow(table[0]) && forall k :: 0 <= k < |table| ==> InTable(table[k])
    requires BeginsOutsideTables(rest)
    ensures Rewrite(table + rest, false) == RewriteTable(table) + Rewrite(rest, false)
  {
    hide IsFence, Header, RewriteTable, IsTableRow, InTable;
    var all := table + rest;
    TableLinesAreNotFences(table[0]);
    assert all[1..] == table[1..] + rest;
    TableRunStops(all[1..], |table| - 1);
    assert all[..|table|] == table && all[|table|..] == rest;
  }

  lemma {:induction false} RunIsInTable(lines: seq<string>)
    ensures forall k :: 0 <= k < TableRun(lines) ==> InTable(lines[k])
    ensures BeginsOutsideTables(lines[TableRun(lines)..])
  {
    hide InTable;
    if lines != [] && InTable(lines[0]) {
      RunIsInTable(lines[1..]);
      assert forall k :: 0 < k < TableRun(lines) ==> lines[k] == lines[1..][k - 1];
      assert lines[1..][TableRun(lines[1..])..] == lines[TableRun(lines)..];
    }
  }

  lemma BlockIsInTable(lines: seq<string>)
    requires lines != [] && IsTableRow(lines[0])
    ensures var n := 1 + TableRun(lines[1..]);
      && (forall k :: 0 <= k < n ==> InTable(lines[..n][k]))
      && BeginsOutsideTables(lines[n..])
  {
    hide IsTableRow, IsSeparatorRow;
    var n := 1 + TableRun(lines[1..]);
    RunIsInTable(lines[1..]);
    assert lines[1..][TableRun(lines[1..])..] == lines[n..];
    forall k | 0 <= k < n ensures InTable(lines[..n][k]) {
      if k == 0 {
        assert InTable(lines[0]);
      } else {
        assert lines[..n][k] == lines[1..][k - 1];
      }
    }
  }

  /** Rewriting twice is rewriting once, for every list of lines. */
  lemma {:induction false} RewritingIsIdempotent(lines: seq<string>, inCode: bool)
    ensures Rewrite(Rewrite(lines, inCode), inCode) == Rewrite(lines, inCode)
    decreases |lines|
  {
    hide IsFence, Header, RewriteTable, InTable, IsTableRow, TableRun;
    if lines == [] {
    } else if IsFence(lines[0]) || inCode || (Header(lines[0]).None? && !IsTableRow(lines[0])) {
      var mode := if IsFence(lines[0]) then !inCode else inCode;
      var rest := Rewrite(lines[1..], mode);
      RewritingIsIdempotent(lines[1..], mode);
      assert ([lines[0]] + rest)[1..] == rest;
    } else if Header(lines[0]).Some? {
      RewritingIsIdempotent(lines[1..], false);
      HeadersBecomePlain(lines[0]);
      PlainLinesPass([Header(lines[0]).value], Rewrite(lines[1..], false));
    } else {
      var n := 1 + TableRun(lines[1..]);
      var table, rest := lines[..n], Rewrite(lines[n..], false);
      RewritingIsIdempotent(lines[n..], false);
      BlockIsInTable(lines);
      OutputBeginsAlike(lines[n..]);
      TablesBecomePlainOrStay(table);
      if RewriteTable(table) == table {
        BlockIsTaken(table, rest);
      } else {
        PlainLinesPass(RewriteTable(table), rest);
      }
    }
  }

  // ------------------------------------------------------------------- code fences

  /** The fence lines and the lines between them. */
  function Fenced(lines: seq<string>, inCode: bool): seq<string> {
    if lines == [] then []
    else if IsFence(lines[0]) then [lines[0]] + Fenced(lines[1..], !inCode)
    else (if inCode then [lines[0]] else []) + Fenced(lines[1..], inCode)
  }

  lemma {:induction false} OutsideLinesAreNotFenced(outside: seq<string>, rest: seq<string>)
    requires forall k :: 0 <= k < |outside| ==> !IsFence(outside[k])
    ensures Fenced(outside + rest, false) == Fenced(rest, false)
  {
    if outside == [] {
      assert outside + rest == rest;
    } else {
      OutsideLinesAreNotFenced(outside[1..], rest);
      assert (outside + rest)[1..] == outside[1..] + rest;
    }
  }

  /** Everything fenced is kept verbatim and in order, and nothing else becomes fenced. */
  lemma {:induction false} FencedLinesAreKept(lines: seq<string>, inCode: bool)
    ensures Fenced(Rewrite(lines, inCode), inCode) == Fenced(lines, inCode)
    decreases |lines|
  {
    hide IsFence, Header, RewriteTable, InTable, IsTableRow, TableRun;
    if lines == [] {
    } else if IsFence(lines[0]) || inCode || (Header(lines[0]).None? && !IsTableRow(lines[0])) {
      var mode := if IsFence(lines[0]) then !inCode else inCode;
      FencedLinesAreKept(lines[1..], mode);
      assert ([lines[0]] + Rewrite(lines[1..], mode))[1..] == Rewrite(lines[1..], mode);
    } else if Header(lines[0]).Some? {
      FencedLinesAreKept(lines[1..], false);
      HeadersBecomePlain(lines[0]);
      OutsideLinesAreNotFenced([Header(lines[0]).value], Rewrite(lines[1..], false));
    } else {
      var n := 1 + TableRun(lines[1..]);
      var table := lines[..n];
      FencedLinesAreKept(lines[n..], false);
      BlockIsInTable(lines);
      forall k | 0 <= k < n ensures !IsFence(table[k]) { TableLinesAreNotFences(table[k]); }
      TablesBecomePlainOrStay(table);
      OutsideLinesAreNotFenced(table, lines[n..]);
      OutsideLinesAreNotFenced(RewriteTable(table), Rewrite(lines[n..], false));
      assert table + lines[n..] == lines;
    }
  }

  // ------------------------------------------------------------------ printed tables

  /** A row as it is usually written. */
  function Row(cells: seq<string>): string
    requires cells != []
  {
    "|" + Join(cells, '|') + "|"
  }

  /** The cells of a written row are its cells without the surrounding whitespace. */
  lemma CellsOfRow(cells: seq<string>)
    requires cells != [] && forall c <- cells :: '|' !in c
    ensures Cells(Row(cells)) == TrimAll(cells)
  {
    var row, inner := Row(cells), Join(cells, '|');
    assert row[|row| - 1] == '|';
    assert Trim(row) == row;
    assert WithoutFirstBar(row) == inner + "|";
    assert (inner + "|")[|inner|..] == "|";
    assert WithoutLastBar(inner + "|") == inner;
    JoinPieces(cells, '|');
  }

  predicate Barless(cells: seq<string>) { cells != [] && forall c <- cells :: '|' !in c }

  function PrintedRows(rows: seq<seq<string>>): seq<string>
    requires forall r <- rows :: Barless(r)
  {
    if rows == [] then []
    else
      assert Barless(rows[0]);
      [Row(rows[0])] + PrintedRows(rows[1..])
  }

  /** What a table says, row by row; a data row that looks like a separator says nothing. */
  function Facts(labels: seq<string>, rows: seq<seq<string>>): seq<string>
    requires forall r <- rows :: Barless(r)
  {
    if rows == [] then []
    else
      assert Barless(rows[0]);
      (if IsSeparatorRow(Row(rows[0])) then [] else Describe(Pairs(labels, TrimAll(rows[0]))))
      + Facts(labels, rows[1..])
  }

  lemma {:induction false} PrintedRowsAreDescribed(labels: seq<string>, rows: seq<seq<string>>)
    requires forall r <- rows :: Barless(r)
    ensures DescribeRows(labels, PrintedRows(rows)) == Facts(labels, rows)
  {
    if rows != [] {
      assert Barless(rows[0]);
      CellsOfRow(rows[0]);
      assert PrintedRows(rows)[1..] == PrintedRows(rows[1..]);
      PrintedRowsAreDescribed(labels, rows[1..]);
    }
  }

  /** A written table with a rule under its header is replaced by what it says, under the header's labels. */
  lemma PrintedTablesAreDescribed(labels: seq<string>, rule: string, rows: seq<seq<string>>)
    requires Barless(labels) && IsSeparatorRow(rule) && forall r <- rows :: Barless(r)
    ensures var table := [Row(labels), rule] + PrintedRows(rows);
      RewriteTable(table) == if Facts(TrimAll(labels), rows) == [] then table else Facts(TrimAll(labels), rows)
  {
    var table := [Row(labels), rule] + PrintedRows(rows);
    assert table[2..] == PrintedRows(rows);
    CellsOfRow(labels);
    PrintedRowsAreDescribed(TrimAll(labels), rows);
  }

  // -------------------------------------------------------------------- whole texts

  lemma {:induction false} RewriteKeepsEmptiness(lines: seq<string>, inCode: bool)
    ensures Rewrite(lines, inCode) == [] <==> lines == []
  {
    if lines != [] && !IsFence(lines[0]) && !inCode && IsTableRow(lines[0]) {
      assert lines[..1 + TableRun(lines[1..])] != [];
    }
  }

  lemma TablesAreNotEmptied(lines: seq<string>)
    requires lines != []
    ensures RewriteTable(lines) != []
  {
  }

  lemma BlanksArePlain()
    ensures Plain("") && !IsTableRow("")
  {
  }

  lemma {:induction false} TableRunBeforeBlank(lines: seq<string>)
    ensures TableRun(lines + [""]) == TableRun(lines)
  {
    hide InTable;
    if lines == [] {
      BlanksArePlain();
      assert lines + [""] == [""];
    } else if InTable(lines[0]) {
      TableRunBeforeBlank(lines[1..]);
      assert (lines + [""])[1..] == lines[1..] + [""];
    }
  }

  /** A blank line at the end stays a blank line at the end. */
  lemma {:induction false} BlankStaysLast(lines: seq<string>, inCode: bool)
    ensures Rewrite(lines + [""], inCode) == Rewrite(lines, inCode) + [""]
    decreases |lines|
  {
    hide IsFence, Header, RewriteTable, IsTableRow, InTable;
    var more := lines + [""];
    if lines == [] {
      BlanksArePlain();
      assert more == [""] && more[1..] == lines;
    } else if !IsFence(lines[0]) && !inCode && Header(lines[0]).None? && IsTableRow(lines[0]) {
      var n := 1 + TableRun(lines[1..]);
      assert more[1..] == lines[1..] + [""];
      TableRunBeforeBlank(lines[1..]);
      assert more[..n] == lines[..n] && more[n..] == lines[n..] + [""];
      BlankStaysLast(lines[n..], false);
      Regroup(RewriteTable(lines[..n]), Rewrite(lines[n..], false), [""]);
    } else {
      assert more[1..] == lines[1..] + [""];
      BlankStaysLast(lines[1..], if IsFence(lines[0]) then !inCode else inCode);
    }
  }

  /** No other line becomes blank. */
  lemma {:induction false} LastStaysNonBlank(lines: seq<string>, inCode: bool)
    requires lines != [] && lines[|lines| - 1] != ""
    ensures var out := Rewrite(lines, inCode); out != [] && out[|out| - 1] != ""
    decreases |lines|
  {
    hide IsFence, Header, RewriteTable, InTable, IsTableRow;
    if !IsFence(lines[0]) && !inCode && Header(lines[0]).None? && IsTableRow(lines[0]) {
      var n := 1 + TableRun(lines[1..]);
      BlockIsInTable(lines);
      TablesAreNotEmptied(lines[..n]);
      TablesBecomePlainOrStay(lines[..n]);
      TableLinesAreNotFences(lines[..n][n - 1]);
      if n < |lines| {
        LastStaysNonBlank(lines[n..], false);
      }
    } else {
      if Header(lines[0]).Some? { HeadersBecomePlain(lines[0]); }
      if |lines| > 1 {
        LastStaysNonBlank(lines[1..], if IsFence(lines[0]) then !inCode else inCode);
      }
    }
  }

  /** The text holds no line break of the given kind. */
  predicate Unbroken(s: string, c: char) { c !in s }

  predicate IsBreak(c: char) { c == '\n' || c == '\r' }

  lemma {:induction false} TrimKeepsUnbroken(s: string, c: char)
    requires Unbroken(s, c)
    ensures Unbroken(TrimStart(s), c) && Unbroken(TrimEnd(s), c)
    decreases |s|
  {
    if s != [] {
      TrimKeepsUnbroken(s[1..], c);
      TrimKeepsUnbroken(s[..|s| - 1], c);
    }
  }

  lemma {:induction false} PiecesKeepUnbroken(s: string, sep: char, c: char)
    requires Unbroken(s, c)
    ensures forall p <- Pieces(s, sep) :: Unbroken(p, c)
  {
    if s != [] {
      PiecesKeepUnbroken(s[1..], sep, c);
      var later := Pieces(s[1..], sep);
      assert later[0] in later;
      assert forall p <- later[1..] :: p in later;
    }
  }

  lemma {:induction false} TrimAllKeepsUnbroken(parts: seq<string>, c: char)
    requires forall p <- parts :: Unbroken(p, c)
    ensures forall p <- TrimAll(parts) :: Unbroken(p, c)
  {
    if parts != [] {
      assert parts[0] in parts;
      TrimKeepsUnbroken(parts[0], c);
      TrimKeepsUnbroken(TrimStart(parts[0]), c);
      assert forall p <- parts[1..] :: p in parts;
      TrimAllKeepsUnbroken(parts[1..], c);
    }
  }

  lemma CellsAreUnbroken(line: string, c: char)
    requires Unbroken(line, c)
    ensures forall x <- Cells(line) :: Unbroken(x, c)
  {
    TrimKeepsUnbroken(line, c);
    TrimKeepsUnbroken(TrimStart(line), c);
    var inner := WithoutLastBar(WithoutFirstBar(Trim(line)));
    PiecesKeepUnbroken(inner, '|', c);
    TrimAllKeepsUnbroken(Pieces(inner, '|'), c);
  }

  predicate AllUnbroken(lines: seq<string>, c: char) { forall k :: 0 <= k < |lines| ==> Unbroken(lines[k], c) }

  predicate PairsUnbroken(pairs: seq<(string, string)>, c: char) {
    forall k :: 0 <= k < |pairs| ==> Unbroken(pairs[k].0, c) && Unbroken(pairs[k].1, c)
  }

  lemma {:induction false} PairsAreUnbroken(labels: seq<string>, values: seq<string>, c: char)
    requires AllUnbroken(labels, c) && AllUnbroken(values, c)
    ensures PairsUnbroken(Pairs(labels, values), c)
  {
    if labels != [] && values != [] {
      PairsAreUnbroken(labels[1..], values[1..], c);
    }
  }

  lemma {:induction false} SummaryIsUnbroken(pairs: seq<(string, string)>, c: char)
    requires IsBreak(c) && pairs != [] && PairsUnbroken(pairs, c)
    ensures Unbroken(Summary(pairs), c)
  {
    if |pairs| > 1 {
      SummaryIsUnbroken(pairs[1..], c);
    }
  }

  lemma DescriptionIsUnbroken(pairs: seq<(string, string)>, c: char)
    requires IsBreak(c) && PairsUnbroken(pairs, c)
    ensures AllUnbroken(Describe(pairs), c)
  {
    if |pairs| > 2 {
      SummaryIsUnbroken(pairs, c);
    }
  }

  lemma {:induction false} RowsAreUnbroken(labels: seq<string>, rows: seq<string>, c: char)
    requires IsBreak(c) && AllUnbroken(labels, c) && AllUnbroken(rows, c)
    ensures AllUnbroken(DescribeRows(labels, rows), c)
  {
    if rows != [] {
      CellsAreUnbroken(rows[0], c);
      PairsAreUnbroken(labels, Cells(rows[0]), c);
      DescriptionIsUnbroken(Pairs(labels, Cells(rows[0])), c);
      RowsAreUnbroken(labels, rows[1..], c);
    }
  }

  lemma HeaderIsUnbroken(line: string, c: char)
    requires IsBreak(c) && Unbroken(line, c) && Header(line).Some?
    ensures Unbroken(Header(line).value, c)
  {
    var trimmed := TrimStart(line);
    TrimKeepsUnbroken(line, c);
    var rest := trimmed[Level(trimmed)..];
    TrimKeepsUnbroken(rest, c);
    TrimKeepsUnbroken(TrimStart(rest), c);
  }

  lemma {:induction false} OutputIsUnbroken(lines: seq<string>, inCode: bool, c: char)
    requires IsBreak(c) && AllUnbroken(lines, c)
    ensures AllUnbroken(Rewrite(lines, inCode), c)
    decreases |lines|
  {
    hide IsFence, Header, InTable, IsTableRow, IsSeparatorRow;
    if lines == [] {
    } else if !IsFence(lines[0]) && !inCode && Header(lines[0]).None? && IsTableRow(lines[0]) {
      var n := 1 + TableRun(lines[1..]);
      OutputIsUnbroken(lines[n..], false, c);
      CellsAreUnbroken(lines[0], c);
      if n > 1 {
        RowsAreUnbroken(Cells(lines[0]), lines[..n][if IsSeparatorRow(lines[1]) then 2 else 1..], c);
      }
    } else {
      if Header(lines[0]).Some? { HeaderIsUnbroken(lines[0], c); }
      OutputIsUnbroken(lines[1..], if IsFence(lines[0]) then !inCode else inCode, c);
    }
  }
}
