/** What written headers and written tables become, letter by letter. */
module MarkdownPrinted {
  import opened Wrappers
  import opened Splitting
  import opened Text
  import opened Utf8Text
  import opened Markdown
  import opened MarkdownTheorems

  predicate Blank(s: string) { forall c <- s :: IsWhitespace(c) }

  /** The string is not empty and neither begins nor ends with whitespace. */
  predicate Tight(s: string) { s != "" && !IsWhitespace(s[0]) && !IsWhitespace(s[|s| - 1]) }

  // ----------------------------------------------------------------------- trimming

  lemma {:induction false} StartIsTrimmed(front: string, s: string)
    requires Blank(front) && s != "" && !IsWhitespace(s[0])
    ensures TrimStart(front + s) == s
  {
    if front == "" {
      assert front + s == s;
    } else {
      assert (front + s)[0] == front[0] && front[0] in front && (front + s)[1..] == front[1..] + s;
      StartIsTrimmed(front[1..], s);
    }
  }

  lemma {:induction false} EndIsTrimmed(s: string, back: string)
    requires Blank(back) && s != "" && !IsWhitespace(s[|s| - 1])
    ensures TrimEnd(s + back) == s
  {
    if back == "" {
      assert s + back == s;
    } else {
      assert back[|back| - 1] in back && (s + back)[..|s + back| - 1] == s + back[..|back| - 1];
      EndIsTrimmed(s, back[..|back| - 1]);
    }
  }

  lemma BothAreTrimmed(front: string, s: string, back: string)
    requires Blank(front) && Tight(s) && Blank(back)
    ensures Trim(front + s + back) == s
  {
    assert front + s + back == front + (s + back);
    StartIsTrimmed(front, s + back);
    EndIsTrimmed(s, back);
  }

  // ------------------------------------------------------------------------ headers

  function Hashes(n: nat): (s: string)
    ensures |s| == n && forall k :: 0 <= k < n ==> s[k] == '#'
  {
    if n == 0 then "" else "#" + Hashes(n - 1)
  }

  lemma {:induction false} LevelIs(n: nat, rest: string)
    requires rest == "" || rest[0] != '#'
    ensures Level(Hashes(n) + rest) == n
  {
    if n == 0 {
      assert Hashes(0) + rest == rest;
    } else {
      assert (Hashes(n) + rest)[1..] == Hashes(n - 1) + rest;
      LevelIs(n - 1, rest);
    }
  }

  lemma HashedLine(indent: string, n: nat, rest: string)
    requires Blank(indent) && n >= 1 && (rest == "" || rest[0] != '#')
    ensures var line := indent + Hashes(n) + rest;
      TrimStart(line) == Hashes(n) + rest && Level(TrimStart(line)) == n && (Hashes(n) + rest)[n..] == rest
      && !IsFence(line)
  {
    assert indent + Hashes(n) + rest == indent + (Hashes(n) + rest);
    assert (Hashes(n) + rest)[0] == '#';
    StartIsTrimmed(indent, Hashes(n) + rest);
    LevelIs(n, rest);
  }

  /**
   A header of level one is put into corner brackets, one of any other level between double asterisks; the indentation
   and what surrounds the title is dropped.
   */
  lemma WrittenHeadersBecomeEmphasis(indent: string, n: nat, gap: string, title: string, back: string,
                                     rest: seq<string>)
    requires Blank(indent) && n >= 1 && Blank(gap) && Tight(title) && Blank(back)
    ensures Rewrite([indent + Hashes(n) + " " + gap + title + back] + rest, false)
         == [if n == 1 then "【" + title + "】" else "**" + title + "**"] + Rewrite(rest, false)
  {
    var tail := " " + gap + title + back;
    var line := indent + Hashes(n) + " " + gap + title + back;
    assert line == indent + Hashes(n) + tail;
    HashedLine(indent, n, tail);
    assert tail == (" " + gap) + title + back;
    BothAreTrimmed(" " + gap, title, back);
    assert " " <= tail;
    assert ([line] + rest)[1..] == rest;
  }

  /** Hashes that no space follows, or no title, are no header: the line stays as it is. */
  lemma OtherHashesStay(indent: string, n: nat, tail: string, rest: seq<string>)
    requires Blank(indent) && n >= 1 && (tail == "" || (tail[0] != '#' && (tail[0] != ' ' || Blank(tail))))
    ensures var line := indent + Hashes(n) + tail;
      Rewrite([line] + rest, false) == [line] + Rewrite(rest, false)
  {
    var line := indent + Hashes(n) + tail;
    HashedLine(indent, n, tail);
    BlankTrims(tail);
    HashedIsNoTable(line, Hashes(n) + tail);
    assert ([line] + rest)[1..] == rest;
  }

  lemma {:induction false} BlankTrims(s: string)
    ensures Blank(s) ==> TrimStart(s) == "" && Trim(s) == ""
  {
    if s != "" && Blank(s) {
      assert s[0] in s;
      BlankTrims(s[1..]);
    }
  }

  lemma HashedIsNoTable(line: string, s: string)
    requires TrimStart(line) == s && s != "" && s[0] == '#'
    ensures !IsTableRow(line)
  {
    TrimEndIsPrefix(s);
  }

  // ------------------------------------------------------------------------- tables

  /** The cell as it stands between its bars: no bar in it and no whitespace around it. */
  predicate IsCell(x: string) { '|' !in x && (x == "" || Tight(x)) }

  predicate AreCells(row: seq<string>) { row != [] && forall x <- row :: IsCell(x) }

  /** The letters of a rule: the row says nothing. */
  predicate IsRuleLetter(c: char) { c == '-' || c == ':' || c == ' ' }

  predicate OnlyRule(row: seq<string>) { forall x <- row :: forall c <- x :: IsRuleLetter(c) }

  lemma CellTrims(x: string)
    requires IsCell(x)
    ensures Trim(x) == x
  {
    if x != "" {
      BothAreTrimmed("", x, "");
      assert "" + x + "" == x;
    }
  }

  lemma {:induction false} CellsTrim(row: seq<string>)
    requires forall x <- row :: IsCell(x)
    ensures TrimAll(row) == row
  {
    if row != [] {
      CellTrims(row[0]);
      CellsTrim(row[1..]);
    }
  }

  lemma {:induction false} LettersOfJoin(row: seq<string>, c: char)
    requires row != [] && c != '|'
    ensures c in Join(row, '|') <==> exists k :: 0 <= k < |row| && c in row[k]
  {
    if |row| > 1 {
      LettersOfJoin(row[1..], c);
      var first, later := row[0], Join(row[1..], '|');
      assert Join(row, '|') == first + ['|'] + later;
      if k :| 0 <= k < |row| && c in row[k] {
        assert k > 0 ==> c in row[1..][k - 1];
      }
      if k :| 0 <= k < |row| - 1 && c in row[1..][k] {
        assert c in row[k + 1];
      }
    }
  }

  /** A written row is a rule exactly if its cells hold the letters of rules alone. */
  lemma RowIsRule(row: seq<string>)
    requires row != [] && forall x <- row :: '|' !in x
    ensures IsSeparatorRow(Row(row)) <==> OnlyRule(row)
  {
    RowTrims(row);
    var inner := Join(row, '|');
    if IsSeparatorRow(Row(row)) {
      forall x, c | x in row && c in x ensures IsRuleLetter(c) {
        var k :| 0 <= k < |row| && row[k] == x;
        LettersOfJoin(row, c);
        assert c in inner && c in Row(row);
      }
    }
    if OnlyRule(row) {
      forall c | c in Row(row) ensures c == '|' || IsRuleLetter(c) {
        if c != '|' {
          assert c in inner;
          LettersOfJoin(row, c);
          var k :| 0 <= k < |row| && c in row[k];
          assert row[k] in row;
        }
      }
    }
  }

  /** A line begins a table if it begins with a bar and has at least two bytes more. */
  lemma TableRowExactly(line: string)
    ensures var t := Trim(line);
      IsTableRow(line) <==> t != "" && t[0] == '|' && (|t| > 2 || (|t| == 2 && t[1] as int >= 0x80))
  {
    var t := Trim(line);
    if t != "" && t[0] == '|' {
      assert Encode(t) == EncodeScalar('|') + Encode(t[1..]) && EncodeScalar('|') == [0x7C];
      if |t| > 1 {
        assert t[1..][0] == t[1] && t[1..][1..] == t[2..];
        ScalarBits(t[1]);
        EncodingIsLonger(t[2..]);
      }
    }
  }

  /** A line is a rule if it begins with a bar and holds nothing but bars, dashes, colons and spaces. */
  lemma RuleExactly(line: string)
    ensures var t := Trim(line);
      IsSeparatorRow(line) <==>
      t != "" && t[0] == '|' && forall k :: 0 <= k < |t| ==> t[k] == '|' || IsRuleLetter(t[k])
  {
    var t := Trim(line);
    assert forall k :: 0 <= k < |t| ==> t[k] in t;
  }

  lemma RowTrims(row: seq<string>)
    requires row != []
    ensures Trim(Row(row)) == Row(row) && Row(row)[0] == '|'
  {
    var line := Row(row);
    assert line[0] == '|' && line[|line| - 1] == '|';
    BothAreTrimmed("", line, "");
    assert "" + line + "" == line;
  }

  lemma {:induction false} PairsAreAligned(labels: seq<string>, values: seq<string>)
    requires |labels| == |values| && forall x <- values :: x != ""
    ensures |Pairs(labels, values)| == |labels|
    ensures forall k :: 0 <= k < |labels| ==> Pairs(labels, values)[k] == (labels[k], values[k])
  {
    if labels != [] {
      assert values[0] in values && forall x <- values[1..] :: x in values;
      PairsAreAligned(labels[1..], values[1..]);
    }
  }

  /** The cells of a long row in one line. */
  function Listed(labels: seq<string>, values: seq<string>): string
    requires |labels| == |values| >= 1
  {
    labels[0] + ": " + values[0] + if |labels| == 1 then "" else " | " + Listed(labels[1..], values[1..])
  }

  lemma {:induction false} SummaryIsListed(labels: seq<string>, values: seq<string>, pairs: seq<(string, string)>)
    requires |labels| == |values| == |pairs| >= 1 && forall k :: 0 <= k < |pairs| ==> pairs[k] == (labels[k], values[k])
    ensures Summary(pairs) == Listed(labels, values)
  {
    if |pairs| > 1 {
      SummaryIsListed(labels[1..], values[1..], pairs[1..]);
      var later := Summary(pairs[1..]);
      assert labels[0] + ": " + values[0] + " | " + later == labels[0] + ": " + values[0] + (" | " + later);
    } else {
      assert labels[0] + ": " + values[0] + "" == labels[0] + ": " + values[0];
    }
  }

  /** What a row of cells that are all there is written as. */
  function RowText(labels: seq<string>, values: seq<string>): seq<string>
    requires |labels| == |values| >= 1
  {
    if |labels| == 1 then ["- " + labels[0] + ": " + values[0]]
    else if |labels| == 2 then ["- " + labels[0] + ": " + values[0], "- " + labels[1] + ": " + values[1]]
    else ["- " + Listed(labels, values)]
  }

  lemma FullRowsAreWritten(labels: seq<string>, values: seq<string>)
    requires |labels| == |values| >= 1 && forall x <- values :: x != ""
    ensures Describe(Pairs(labels, values)) == RowText(labels, values)
  {
    hide Pairs, Summary, Listed;
    PairsAreAligned(labels, values);
    var pairs := Pairs(labels, values);
    SummaryIsListed(labels, values, pairs);
    LabelledIs(labels[0], values[0]);
    if |labels| > 1 { LabelledIs(labels[1], values[1]); }
    hide Labelled;
  }

  lemma LabelledIs(name: string, value: string)
    ensures "- " + Labelled((name, value)) == "- " + name + ": " + value
  {
  }

  lemma {:induction false} EncodingIsLonger(s: string)
    ensures |Encode(s)| >= |s|
  {
    if s != "" { EncodingIsLonger(s[1..]); }
  }

  lemma RowsAreTableLines(row: seq<string>)
    requires row != []
    ensures !IsFence(Row(row)) && Header(Row(row)).None?
    ensures |Row(row)| > 2 ==> IsTableRow(Row(row))
    ensures |Row(row)| <= 2 ==> IsSeparatorRow(Row(row))
  {
    var line := Row(row);
    RowTrims(row);
    BothAreTrimmed("", line, "");
    assert TrimStart(line) == line by { StartIsTrimmed("", line); assert "" + line == line; }
    EncodingIsLonger(line);
    if |line| <= 2 { assert line == "||"; }
  }

  lemma LongEnough(row: seq<string>)
    requires row != [] && (|row| > 1 || row[0] != "")
    ensures |Row(row)| > 2
  {
  }

  /** Three lines of a table, and nothing else, are one block. */
  lemma TableIsOneBlock(labels: seq<string>, rule: seq<string>, values: seq<string>)
    requires labels != [] && rule != [] && values != [] && (|labels| > 1 || labels[0] != "")
    ensures var table := [Row(labels), Row(rule), Row(values)]; Rewrite(table, false) == RewriteTable(table)
  {
    hide IsFence, Header, IsTableRow, IsSeparatorRow, RewriteTable, Row;
    var table := [Row(labels), Row(rule), Row(values)];
    LongEnough(labels);
    RowsAreTableLines(labels);
    RowsAreTableLines(rule);
    RowsAreTableLines(values);
    var rest := table[1..];
    assert rest == [Row(rule), Row(values)] && rest[1..] == [Row(values)] && rest[1..][1..] == [];
    assert TableRun(rest[1..][1..]) == 0 && TableRun(rest[1..]) == 1 && TableRun(rest) == 2;
    assert table[..3] == table && table[3..] == [];
    assert RewriteTable(table) + [] == RewriteTable(table);
  }

  /**
   A written table with one data row, all of whose cells are there: a line for each of one or two cells, one line for
   all of three or more, each cell after its own label; a data row that is itself a rule leaves the table as it was.
   */
  lemma WrittenTablesBecomeDescriptions(labels: seq<string>, rule: seq<string>, values: seq<string>)
    requires AreCells(labels) && AreCells(rule) && AreCells(values) && OnlyRule(rule) && |labels| == |values|
    requires (|labels| > 1 || labels[0] != "") && forall x <- values :: x != ""
    ensures Rewrite([Row(labels), Row(rule), Row(values)], false)
         == if OnlyRule(values) then [Row(labels), Row(rule), Row(values)] else RowText(labels, values)
  {
    hide Describe, Pairs, Rewrite, IsSeparatorRow, RowText;
    var table := [Row(labels), Row(rule), Row(values)];
    TableIsOneBlock(labels, rule, values);
    RowIsRule(rule);
    RowIsRule(values);
    CellsOfRow(labels);
    CellsOfRow(values);
    CellsTrim(labels);
    CellsTrim(values);
    FullRowsAreWritten(labels, values);
    var rows := table[2..];
    assert rows == [Row(values)] && rows[1..] == [];
    assert RowLines(labels, Row(values)) + [] == RowLines(labels, Row(values));
    assert DescribeRows(labels, rows[1..]) == [];
    RowTextIsNotEmpty(labels, values);
  }

  lemma RowTextIsNotEmpty(labels: seq<string>, values: seq<string>)
    requires |labels| == |values| >= 1
    ensures RowText(labels, values) != []
  {
  }

  lemma PairsAt(labels: seq<string>, values: seq<string>)
    requires labels != [] && values != []
    ensures Pairs(labels, values)
         == (if values[0] == "" then [] else [(labels[0], values[0])]) + Pairs(labels[1..], values[1..])
  {
  }

  /** A row without one of its cells. */
  function Dropped(row: seq<string>, k: nat): seq<string>
    requires k < |row|
  {
    row[..k] + row[k + 1..]
  }

  /** An empty cell is left out together with its label. */
  lemma {:induction false} EmptyCellsAreLeftOut(labels: seq<string>, values: seq<string>, k: nat)
    requires k < |labels| && k < |values| && values[k] == ""
    ensures Pairs(labels, values) == Pairs(Dropped(labels, k), Dropped(values, k))
    decreases k
  {
    PairsAt(labels, values);
    if k == 0 {
      assert Dropped(labels, 0) == labels[1..] && Dropped(values, 0) == values[1..];
    } else {
      EmptyCellsAreLeftOut(labels[1..], values[1..], k - 1);
      assert Dropped(labels, k)[1..] == Dropped(labels[1..], k - 1);
      assert Dropped(values, k)[1..] == Dropped(values[1..], k - 1);
      PairsAt(Dropped(labels, k), Dropped(values, k));
    }
  }

  /** Cells without a label, and labels without a cell, are left out. */
  lemma {:induction false} LooseCellsAreLeftOut(labels: seq<string>, values: seq<string>)
    ensures |labels| <= |values| ==> Pairs(labels, values) == Pairs(labels, values[..|labels|])
    ensures |values| <= |labels| ==> Pairs(labels, values) == Pairs(labels[..|values|], values)
  {
    if labels != [] && values != [] {
      LooseCellsAreLeftOut(labels[1..], values[1..]);
      assert |labels| <= |values| ==> values[..|labels|][1..] == values[1..][..|labels| - 1];
      assert |values| <= |labels| ==> labels[..|values|][1..] == labels[1..][..|values| - 1];
    }
  }

  /** A table whose first data row follows its header at once is described just the same. */
  lemma TablesNeedNoRule(labels: seq<string>, values: seq<string>)
    requires AreCells(labels) && AreCells(values) && !OnlyRule(values) && |labels| == |values|
    requires forall x <- values :: x != ""
    ensures RewriteTable([Row(labels), Row(values)]) == RowText(labels, values)
  {
    hide Describe, Pairs, IsSeparatorRow, RowText;
    var table := [Row(labels), Row(values)];
    RowIsRule(values);
    CellsOfRow(labels);
    CellsOfRow(values);
    CellsTrim(labels);
    CellsTrim(values);
    FullRowsAreWritten(labels, values);
    var rows := table[1..];
    assert rows == [Row(values)] && rows[1..] == [];
    assert RowLines(labels, Row(values)) + [] == RowLines(labels, Row(values));
    assert DescribeRows(labels, rows[1..]) == [];
    RowTextIsNotEmpty(labels, values);
  }

  /** The rows of a table are described one after the other. */
  lemma {:induction false} RowsAreDescribedInTurn(labels: seq<string>, rows: seq<string>, more: seq<string>)
    ensures DescribeRows(labels, rows + more) == DescribeRows(labels, rows) + DescribeRows(labels, more)
  {
    if rows == [] {
      assert rows + more == more;
    } else {
      assert (rows + more)[1..] == rows[1..] + more;
      RowsAreDescribedInTurn(labels, rows[1..], more);
    }
  }
}
