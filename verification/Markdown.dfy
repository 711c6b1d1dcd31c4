/** The rewriting of Markdown for WeChat: headers become emphasis and tables become description lists. */
module Markdown {
  import opened Wrappers
  import opened Splitting
  import opened Text
  import opened Utf8Text

  // ---------------------------------------------------------------- kinds of lines

  predicate IsFence(line: string) { "```" <= TrimStart(line) }

  function Level(s: string): (n: nat)
    ensures n <= |s|
  {
    if s == [] || s[0] != '#' then 0 else 1 + Level(s[1..])
  }

  /** `rewrite_header`. */
  function Header(line: string): Option<string> {
    var trimmed := TrimStart(line);
    var level := Level(trimmed);
    if level == 0 || !(" " <= trimmed[level..]) then None
    else
      var title := Trim(trimmed[level..]);
      if title == "" then None
      else if level == 1 then Some("【" + title + "】")
      else Some("**" + title + "**")
  }

  predicate IsTableRow(line: string) {
    var t := Trim(line);
    "|" <= t && |Encode(t)| > 2
  }

  predicate IsSeparatorRow(line: string) {
    var t := Trim(line);
    "|" <= t && forall c <- t :: c == '|' || c == '-' || c == ':' || c == ' '
  }

  predicate InTable(line: string) { IsTableRow(line) || IsSeparatorRow(line) }

  // ------------------------------------------------------------------------ tables

  function WithoutFirstBar(row: string): string { if "|" <= row then row[1..] else row }

  function WithoutLastBar(row: string): string { if EndsWith(row, "|") then row[..|row| - 1] else row }

  function TrimAll(parts: seq<string>): (r: seq<string>)
    ensures |r| == |parts|
  {
    if parts == [] then [] else [Trim(parts[0])] + TrimAll(parts[1..])
  }

  /** `split_table_row`. */
  function Cells(line: string): seq<string> {
    TrimAll(Pieces(WithoutLastBar(WithoutFirstBar(Trim(line))), '|'))
  }

  /** The labelled cells of a row that are not empty. */
  function Pairs(labels: seq<string>, values: seq<string>): seq<(string, string)> {
    if labels == [] || values == [] then []
    else (if values[0] == "" then [] else [(labels[0], values[0])]) + Pairs(labels[1..], values[1..])
  }

  function Labelled(pair: (string, string)): string { pair.0 + ": " + pair.1 }

  function Summary(pairs: seq<(string, string)>): string
    requires pairs != []
  {
    if |pairs| == 1 then Labelled(pairs[0]) else Labelled(pairs[0]) + " | " + Summary(pairs[1..])
  }

  /** One line per cell, or a single line if there are more than two. */
  function Describe(pairs: seq<(string, string)>): seq<string> {
    match |pairs|
    case 0 => []
    case 1 => ["- " + Labelled(pairs[0])]
    case 2 => ["- " + Labelled(pairs[0]), "- " + Labelled(pairs[1])]
    case _ => ["- " + Summary(pairs)]
  }

  function RowLines(labels: seq<string>, row: string): seq<string> {
    if IsSeparatorRow(row) then [] else Describe(Pairs(labels, Cells(row)))
  }

  function DescribeRows(labels: seq<string>, rows: seq<string>): seq<string> {
    if rows == [] then [] else RowLines(labels, rows[0]) + DescribeRows(labels, rows[1..])
  }

  /** `rewrite_table`: a table that has nothing to describe is left alone. */
  function RewriteTable(lines: seq<string>): seq<string> {
    if |lines| < 2 then lines
    else
      var described := DescribeRows(Cells(lines[0]), lines[if IsSeparatorRow(lines[1]) then 2 else 1..]);
      if described == [] then lines else described
  }

  // ------------------------------------------------------------------- the rewriting

  function TableRun(lines: seq<string>): (n: nat)
    ensures n <= |lines|
  {
    if lines == [] || !InTable(lines[0]) then 0 else 1 + TableRun(lines[1..])
  }

  function Rewrite(lines: seq<string>, inCode: bool): seq<string>
    decreases |lines|
  {
    if lines == [] then []
    else if IsFence(lines[0]) then [lines[0]] + Rewrite(lines[1..], !inCode)
    else if inCode then [lines[0]] + Rewrite(lines[1..], inCode)
    else if Header(lines[0]).Some? then [Header(lines[0]).value] + Rewrite(lines[1..], inCode)
    else if IsTableRow(lines[0]) then
      var n := 1 + TableRun(lines[1..]);
      RewriteTable(lines[..n]) + Rewrite(lines[n..], inCode)
    else [lines[0]] + Rewrite(lines[1..], inCode)
  }

  function JoinLines(lines: seq<string>): string { if lines == [] then "" else Join(lines, '\n') }

  function RewriteText(text: string): string { JoinLines(Rewrite(Lines(text), false)) }

  // ------------------------------------------------------------------------ the loops

  method SplitTableRow(line: string) returns (cells: seq<string>)
    ensures cells == Cells(line)
  {
    var row := Trim(line);
    if "|" <= row { row := row[1..]; }
    if EndsWith(row, "|") { row := row[..|row| - 1]; }
    cells := TrimAll(Pieces(row, '|'));
  }

  lemma Regroup<T>(a: seq<T>, b: seq<T>, c: seq<T>)
    ensures a + b + c == a + (b + c)
  {
  }

  lemma {:induction false} DescribeRowsAppend(labels: seq<string>, rows: seq<string>, row: string)
    ensures DescribeRows(labels, rows + [row]) == DescribeRows(labels, rows) + RowLines(labels, row)
  {
    if rows == [] {
      assert rows + [row] == [row] && [row][1..] == rows;
      assert [] + RowLines(labels, row) == RowLines(labels, row) == RowLines(labels, row) + [];
    } else {
      DescribeRowsAppend(labels, rows[1..], row);
      assert (rows + [row])[1..] == rows[1..] + [row];
      Regroup(RowLines(labels, rows[0]), DescribeRows(labels, rows[1..]), RowLines(labels, row));
    }
  }

  method FormatRow(headers: seq<string>, line: string, formatted: seq<string>) returns (r: seq<string>)
    ensures r == formatted + RowLines(headers, line)
  {
    if IsSeparatorRow(line) {
      return formatted + [];
    }
    var cells := SplitTableRow(line);
    var pairs := Pairs(headers, cells);
    r := formatted;
    if |pairs| == 0 {
      return;
    }
    if |pairs| <= 2 {
      for k := 0 to |pairs|
        invariant r == formatted + Describe(pairs[..k])
      {
        r := r + ["- " + Labelled(pairs[k])];
      }
      assert pairs[..|pairs|] == pairs;
    } else {
      r := r + ["- " + Summary(pairs)];
    }
  }

  method RewriteTableLines(lines: seq<string>) returns (r: string)
    requires lines != []
    ensures r == JoinLines(RewriteTable(lines))
  {
    hide Cells, IsSeparatorRow, RowLines;
    if |lines| < 2 {
      return JoinLines(lines);
    }
    var headers := SplitTableRow(lines[0]);
    var dataStart := if IsSeparatorRow(lines[1]) then 2 else 1;
    var data := lines[dataStart..];
    var formatted: seq<string> := [];
    for i := 0 to |data|
      invariant formatted == DescribeRows(headers, data[..i])
    {
      assert data[..i + 1] == data[..i] + [data[i]];
      DescribeRowsAppend(headers, data[..i], data[i]);
      formatted := FormatRow(headers, data[i], formatted);
    }
    assert data[..|data|] == data;
    r := JoinLines(if formatted == [] then lines else formatted);
  }

  /** A chunk of lines joined beforehand joins to the same text. */
  lemma {:induction false} JoinChunk(before: seq<string>, chunk: seq<string>, after: seq<string>)
    requires chunk != []
    ensures JoinLines(before + [JoinLines(chunk)] + after) == JoinLines(before + chunk + after)
  {
    if before != [] {
      JoinChunk(before[1..], chunk, after);
      assert (before + [JoinLines(chunk)] + after)[1..] == before[1..] + [JoinLines(chunk)] + after;
      assert (before + chunk + after)[1..] == before[1..] + chunk + after;
    } else if |chunk| > 1 {
      JoinChunk([], chunk[1..], after);
      assert ([] + [JoinLines(chunk)] + after)[1..] == after && ([] + [JoinLines(chunk[1..])] + after)[1..] == after;
      assert ([] + chunk + after)[1..] == [] + chunk[1..] + after;
      assert JoinLines(chunk) == chunk[0] + ['\n'] + JoinLines(chunk[1..]);
      if after != [] {
        assert (chunk[0] + ['\n'] + JoinLines(chunk[1..])) + ['\n'] + Join(after, '\n')
            == chunk[0] + ['\n'] + (JoinLines(chunk[1..]) + ['\n'] + Join(after, '\n'));
      }
    } else {
      assert [JoinLines(chunk)] == chunk;
    }
  }

  lemma TableRunStops(lines: seq<string>, n: nat)
    requires n <= |lines| && (forall k :: 0 <= k < n ==> InTable(lines[k])) && (n < |lines| ==> !InTable(lines[n]))
    ensures TableRun(lines) == n
  {
    hide InTable;
    if n > 0 {
      TableRunStops(lines[1..], n - 1);
    }
  }

  /** The lines of a table block, from its first row to the last that belongs to it. */
  method TakeTable(lines: seq<string>, first: nat) returns (tableLines: seq<string>, i: nat)
    requires first < |lines|
    ensures i == first + 1 + TableRun(lines[first + 1..]) && i <= |lines| && tableLines == lines[first..i]
  {
    tableLines, i := [lines[first]], first + 1;
    while i < |lines| && InTable(lines[i])
      invariant first < i <= |lines| && tableLines == lines[first..i]
      invariant forall k :: first < k < i ==> InTable(lines[k])
    {
      tableLines := tableLines + [lines[i]];
      i := i + 1;
    }
    ghost var rest := lines[first + 1..];
    assert forall k :: 0 <= k < i - first - 1 ==> rest[k] == lines[first + 1 + k];
    TableRunStops(rest, i - first - 1);
  }

  /** One turn of the loop: what is pushed for the line at `i`, and where and in which mode it goes on. */
  method RewriteBlock(lines: seq<string>, i: nat, inCodeBlock: bool)
    returns (chunk: string, next: nat, inCode: bool, ghost added: seq<string>)
    requires i < |lines|
    ensures i < next <= |lines| && added != [] && chunk == JoinLines(added)
    ensures Rewrite(lines[i..], inCodeBlock) == added + Rewrite(lines[next..], inCode)
  {
    var line := lines[i];
    assert lines[i..][1..] == lines[i + 1..];
    inCode, next, chunk, added := inCodeBlock, i + 1, line, [line];
    if IsFence(line) {
      inCode := !inCode;
      return;
    }
    if inCode {
      return;
    }
    if Header(line).Some? {
      chunk, added := Header(line).value, [Header(line).value];
      return;
    }
    if IsTableRow(line) {
      var tableLines;
      tableLines, next := TakeTable(lines, i);
      assert lines[i..][..next - i] == tableLines && lines[i..][next - i..] == lines[next..];
      chunk := RewriteTableLines(tableLines);
      added := RewriteTable(tableLines);
    }
  }

  /** `rewrite_for_weixin`. */
  method RewriteForWeixin(text: string) returns (r: string)
    ensures r == RewriteText(text)
  {
    var lines := Lines(text);
    var out: seq<string> := [];
    var inCodeBlock := false;
    var i := 0;
    assert [] + Rewrite(lines[0..], false) == Rewrite(lines, false);
    while i < |lines|
      invariant i <= |lines|
      invariant JoinLines(out + Rewrite(lines[i..], inCodeBlock)) == RewriteText(text)
      decreases |lines| - i
    {
      var chunk, next, inCode;
      ghost var added;
      chunk, next, inCode, added := RewriteBlock(lines, i, inCodeBlock);
      Regroup(out, added, Rewrite(lines[next..], inCode));
      JoinChunk(out, added, Rewrite(lines[next..], inCode));
      out := out + [chunk];
      i, inCodeBlock := next, inCode;
    }
    assert lines[i..] == [] && out + [] == out;
    r := JoinLines(out);
  }
}
