/** What each condition, list and variable of the gateway's templates stands for. */
module TemplateTags {
  import opened Wrappers
  import opened Text
  import opened Template

  // ------------------------------------------------------------------- reading a tag

  predicate Braceless(s: string) { '{' !in s }

  lemma {:induction false} TrimKeepsBraceless(s: string)
    requires Braceless(s)
    ensures Braceless(Trim(s))
  {
    var t := TrimStart(s);
    StartKeepsBraceless(s);
    EndKeepsBraceless(t);
  }

  lemma {:induction false} StartKeepsBraceless(s: string)
    requires Braceless(s)
    ensures Braceless(TrimStart(s))
  {
    if s != "" { StartKeepsBraceless(s[1..]); }
  }

  lemma {:induction false} EndKeepsBraceless(s: string)
    requires Braceless(s)
    ensures Braceless(TrimEnd(s))
  {
    if s != "" { EndKeepsBraceless(s[..|s| - 1]); }
  }

  /** A line without braces is plain. */
  lemma BracelessIsPlain(line: string)
    requires Braceless(line)
    ensures Classify(line).Plain?
  {
    TrimKeepsBraceless(line);
    assert "{{#if "[0] == '{' && "{{#each "[0] == '{' && "{{/if}}"[0] == '{' && "{{/each}}"[0] == '{';
  }

  /** A tag begins and ends with a brace, so it has no whitespace to trim. */
  lemma BracedIsTrimmed(s: string)
    requires s != "" && s[0] == '{' && s[|s| - 1] == '}'
    ensures Trim(s) == s
  {
  }

  lemma OpeningTags(name: string)
    ensures Classify("{{#if " + name + "}}") == IfOpen(name)
    ensures Classify("{{#each " + name + "}}") == EachOpen(name)
    ensures Classify("{{/if}}") == Closer && Classify("{{/each}}") == Closer
  {
    var a, b := "{{#if " + name + "}}", "{{#each " + name + "}}";
    BracedIsTrimmed(a);
    BracedIsTrimmed(b);
    BracedIsTrimmed("{{/if}}");
    BracedIsTrimmed("{{/each}}");
    assert a[6..] == name + "}}" && (name + "}}")[|name|..] == "}}" && a[6..|a| - 2] == name;
    assert b[8..] == name + "}}" && b[8..|b| - 2] == name;
    assert b[3] == 'e' && "{{#if "[3] == 'i';
    CloserIs("{{/if}}");
    CloserIs("{{/each}}");
  }

  // ---------------------------------------------------------------------- replacing

  lemma {:induction false} NothingToReplace(s: string, name: string, value: string)
    requires Braceless(s)
    ensures Replace(s, Tag(name), value) == s
  {
    if s != "" {
      assert Tag(name)[0] == '{';
      NothingToReplace(s[1..], name, value);
    }
  }

  lemma {:induction false} ReplaceAfter(front: string, s: string, name: string, value: string)
    requires Braceless(front)
    ensures Replace(front + s, Tag(name), value) == front + Replace(s, Tag(name), value)
  {
    if front == "" {
      assert front + s == s;
    } else {
      assert Tag(name)[0] == '{' && (front + s)[0] == front[0] && (front + s)[1..] == front[1..] + s;
      ReplaceAfter(front[1..], s, name, value);
    }
  }

  lemma TagIsReplaced(name: string, post: string, value: string)
    requires Braceless(post)
    ensures Replace(Tag(name) + post, Tag(name), value) == value + post
  {
    assert (Tag(name) + post)[|Tag(name)|..] == post;
    NothingToReplace(post, name, value);
  }

  /** The name of a variable: it holds no brace. */
  predicate IsName(name: string) { '{' !in name && '}' !in name }

  lemma {:induction false} NameDecides(name: string, other: string, post: string)
    requires IsName(name) && IsName(other) && other + "}}" <= name + "}}" + post
    ensures other == name
  {
    var text, tag := name + "}}" + post, other + "}}";
    assert text[0] == tag[0] && text[0] == (if name == "" then '}' else name[0]);
    assert tag[0] == if other == "" then '}' else other[0];
    if name != "" {
      assert text[1..] == name[1..] + "}}" + post && tag[1..] == other[1..] + "}}";
      NameDecides(name[1..], other[1..], post);
      assert name == [name[0]] + name[1..] && other == [other[0]] + other[1..];
    }
  }

  lemma TagDecides(name: string, other: string, post: string)
    requires IsName(name) && IsName(other) && Tag(other) <= Tag(name) + post
    ensures other == name
  {
    assert Tag(other)[2..] == other + "}}" && (Tag(name) + post)[2..] == name + "}}" + post;
    NameDecides(name, other, post);
  }

  /** The tag of another variable stays. */
  lemma OtherTagStays(name: string, post: string, other: string, value: string)
    requires IsName(name) && IsName(other) && name != other && Braceless(post)
    ensures Replace(Tag(name) + post, Tag(other), value) == Tag(name) + post
  {
    if Tag(other) <= Tag(name) + post { TagDecides(name, other, post); }
    var rest := name + "}}" + post;
    var inner := "{" + rest;
    assert Tag(name) + post == "{" + inner && ("{" + inner)[1..] == inner && inner[1..] == rest;
    assert inner[1] == if name == "" then '}' else name[0];
    assert Tag(other)[1] == '{' && inner[1] != '{';
    assert !(Tag(other) <= inner);
    NothingToReplace(rest, other, value);
  }

  /** The value bound to a name, in a list in which it is bound once. */
  lemma {:induction false} VariableIsShown(bindings: seq<(string, string)>, i: nat, pre: string, post: string)
    requires i < |bindings| && Braceless(pre) && Braceless(post) && Braceless(bindings[i].1)
    requires forall k :: 0 <= k < |bindings| ==> IsName(bindings[k].0)
    requires forall k :: 0 <= k < i ==> bindings[k].0 != bindings[i].0
    ensures ReplaceAll(pre + Tag(bindings[i].0) + post, bindings) == pre + bindings[i].1 + post
    decreases |bindings|
  {
    var (name, value) := bindings[0];
    var tail := Tag(bindings[i].0) + post;
    assert pre + Tag(bindings[i].0) + post == pre + tail;
    ReplaceAfter(pre, tail, name, value);
    if i == 0 {
      TagIsReplaced(name, post, value);
      assert pre + (value + post) == pre + value + post;
      BracelessStays(pre + value + post, bindings[1..]);
    } else {
      OtherTagStays(bindings[i].0, post, name, value);
      assert bindings[1..][i - 1] == bindings[i];
      assert forall k :: 0 <= k < |bindings| - 1 ==> bindings[1..][k] == bindings[k + 1];
      VariableIsShown(bindings[1..], i - 1, pre, post);
    }
  }

  lemma {:induction false} BracelessStays(s: string, bindings: seq<(string, string)>)
    requires Braceless(s)
    ensures ReplaceAll(s, bindings) == s
    decreases |bindings|
  {
    if bindings != [] {
      NothingToReplace(s, bindings[0].0, bindings[0].1);
      BracelessStays(s, bindings[1..]);
    }
  }

  /** The number a string of digits stands for. */
  function NumberOf(s: string): int {
    if s == "" then 0 else 10 * NumberOf(s[..|s| - 1]) + (s[|s| - 1] as int - '0' as int)
  }

  /** A number is shown by its decimal digits, without a leading zero. */
  lemma {:induction false} DigitsStandFor(n: nat)
    ensures NumberOf(Digits(n)) == n && Digits(n) != "" && (forall c <- Digits(n) :: '0' <= c <= '9')
    ensures n > 0 ==> Digits(n)[0] != '0'
  {
    var last := ['0' + (n % 10) as char];
    if n < 10 {
      assert last[..0] == "" && NumberOf(last) == n;
    } else {
      DigitsStandFor(n / 10);
      assert (Digits(n / 10) + last)[..|Digits(n / 10)|] == Digits(n / 10);
    }
  }

  // ------------------------------------------------------------------------ variables

  /** In a line that holds one variable, and otherwise no brace, the variable is replaced by its value. */
  predicate Shows(ctx: Context, pre: string, name: string, value: string, post: string) {
    Braceless(value) ==> Substitute(pre + "{{" + name + "}}" + post, ctx) == pre + value + post
  }

  lemma BindingIsShown(ctx: Context, i: nat, pre: string, post: string)
    requires i < |Bindings(ctx)| && Braceless(pre) && Braceless(post)
    ensures Shows(ctx, pre, Bindings(ctx)[i].0, Bindings(ctx)[i].1, post)
  {
    var (name, value) := Bindings(ctx)[i];
    NamesAreDistinct(ctx);
    if Braceless(value) {
      VariableIsShown(Bindings(ctx), i, pre, post);
      assert pre + "{{" + name + "}}" + post == pre + Tag(name) + post;
    }
  }

  lemma NamesAreDistinct(ctx: Context)
    ensures forall k :: 0 <= k < |Bindings(ctx)| ==> IsName(Bindings(ctx)[k].0)
    ensures forall j, k :: 0 <= j < k < |Bindings(ctx)| ==> Bindings(ctx)[j].0 != Bindings(ctx)[k].0
  {
  }

  /** What each of the seven variables stands for. */
  lemma VariablesAreShown(ctx: Context, pre: string, post: string)
    requires Braceless(pre) && Braceless(post)
    ensures Shows(ctx, pre, "platform", ctx.platform, post)
    ensures Shows(ctx, pre, "user_display_name", ctx.userDisplayName, post)
    ensures Shows(ctx, pre, "user_id", ctx.userId, post)
    ensures Shows(ctx, pre, "cli_name", ctx.cliName, post)
    ensures ctx.model.Some? ==> Shows(ctx, pre, "model", ctx.model.value, post)
    ensures ctx.model.None? ==> Shows(ctx, pre, "model", "auto", post)
    ensures ctx.currentWorkspace.Some? ==> Shows(ctx, pre, "current_workspace", ctx.currentWorkspace.value, post)
    ensures ctx.currentWorkspace.None? ==> Shows(ctx, pre, "current_workspace", "(default)", post)
    ensures Shows(ctx, pre, "cron_jobs_count", Digits(ctx.cronJobsCount), post)
  {
    forall i | 0 <= i < |Bindings(ctx)| ensures Shows(ctx, pre, Bindings(ctx)[i].0, Bindings(ctx)[i].1, post) {
      BindingIsShown(ctx, i, pre, post);
    }
    hide Shows;
    var b := Bindings(ctx);
    assert Shows(ctx, pre, b[0].0, b[0].1, post) && Shows(ctx, pre, b[1].0, b[1].1, post);
    assert Shows(ctx, pre, b[2].0, b[2].1, post) && Shows(ctx, pre, b[3].0, b[3].1, post);
    assert Shows(ctx, pre, b[4].0, b[4].1, post) && Shows(ctx, pre, b[5].0, b[5].1, post);
    assert Shows(ctx, pre, b[6].0, b[6].1, post);
  }

  /** The tag of a variable that is not bound stays. */
  lemma {:induction false} UnboundStays(bindings: seq<(string, string)>, name: string)
    requires IsName(name) && forall k :: 0 <= k < |bindings| ==> IsName(bindings[k].0) && bindings[k].0 != name
    ensures ReplaceAll(Tag(name), bindings) == Tag(name)
    decreases |bindings|
  {
    if bindings != [] {
      assert Tag(name) + "" == Tag(name);
      OtherTagStays(name, "", bindings[0].0, bindings[0].1);
      assert forall k :: 0 <= k < |bindings| - 1 ==> bindings[1..][k] == bindings[k + 1];
      UnboundStays(bindings[1..], name);
    }
  }

  /** Up to its own turn a variable's tag stays; then its value stands in its place. */
  lemma {:induction false} ItsTurnComes(bindings: seq<(string, string)>, i: nat)
    requires i < |bindings|
    requires forall k :: 0 <= k < |bindings| ==> IsName(bindings[k].0)
    requires forall k :: 0 <= k < i ==> bindings[k].0 != bindings[i].0
    ensures ReplaceAll(Tag(bindings[i].0), bindings) == ReplaceAll(bindings[i].1, bindings[i + 1..])
    decreases i
  {
    var name := bindings[i].0;
    assert Tag(name) + "" == Tag(name);
    if i == 0 {
      TagIsReplaced(name, "", bindings[0].1);
      assert bindings[0].1 + "" == bindings[0].1;
    } else {
      OtherTagStays(name, "", bindings[0].0, bindings[0].1);
      assert forall k :: 0 <= k < |bindings| - 1 ==> bindings[1..][k] == bindings[k + 1];
      ItsTurnComes(bindings[1..], i - 1);
      assert bindings[1..][i..] == bindings[i + 1..];
    }
  }

  const VARIABLES: seq<string> :=
    ["platform", "user_display_name", "user_id", "cli_name", "model", "current_workspace", "cron_jobs_count"]

  lemma NamesAre(ctx: Context)
    ensures |Bindings(ctx)| == |VARIABLES| == 7
    ensures forall k :: 0 <= k < 7 ==> Bindings(ctx)[k].0 == VARIABLES[k]
  {
  }

  lemma TagAlone(name: string, value: string)
    ensures "" + "{{" + name + "}}" + "" == Tag(name) && "" + value + "" == value
  {
  }

  /** A value that is the tag of a variable later in the order is replaced in turn; that of an earlier one stays. */
  lemma ValuesAreReplacedInTurn(ctx: Context, i: nat, j: nat, value: string)
    requires i < 7 && j < 7 && i != j && Bindings(ctx)[i].1 == Tag(VARIABLES[j])
    requires Braceless(value) && Shows(ctx, "", VARIABLES[j], value, "")
    ensures Substitute(Tag(VARIABLES[i]), ctx) == if i < j then value else Tag(VARIABLES[j])
  {
    hide Bindings, VARIABLES, Tag;
    var b := Bindings(ctx);
    NamesAreDistinct(ctx);
    NamesAre(ctx);
    ItsTurnComes(b, i);
    var rest := b[i + 1..];
    assert forall k :: 0 <= k < |rest| ==> rest[k] == b[i + 1 + k];
    if i < j {
      ItsTurnComes(rest, j - i - 1);
      assert rest[j - i..] == b[j + 1..];
      ItsTurnComes(b, j);
      TagAlone(VARIABLES[j], value);
    } else {
      UnboundStays(rest, VARIABLES[j]);
    }
  }

  // ----------------------------------------------------------------------- conditions

  /** The text of a condition around one line. */
  function Conditional(name: string, line: string): seq<string> { ["{{#if " + name + "}}", line, "{{/if}}"] }

  lemma ConditionalShows(name: string, line: string, ctx: Context)
    requires Braceless(line)
    ensures RenderFrom(Conditional(name, line), 0, ctx) == if CheckCondition(name, ctx) then line + "\n" else ""
  {
    hide Classify, CheckCondition, Trim, Substitute;
    OpeningTags(name);
    BracelessIsPlain(line);
    BracelessIsShown(line, ctx);
    BracedIsTrimmed("{{/if}}");
    var depth := if CheckCondition(name, ctx) then 0 else 1;
    var open, inner, closing := ["{{#if " + name + "}}"], [line] + ["{{/if}}"], ["{{/if}}"];
    assert Conditional(name, line) == open + inner && (open + inner)[1..] == inner;
    assert RenderFrom(open + inner, 0, ctx) == RenderFrom(inner, depth, ctx);
    PlainShows(line, closing, depth, ctx);
    assert closing == closing + [];
    CloserRaises("{{/if}}", [], depth, ctx);
  }

  lemma BracelessIsShown(line: string, ctx: Context)
    requires Braceless(line)
    ensures Substitute(line, ctx) == line
  {
    BracelessStays(line, Bindings(ctx));
  }

  /** The condition shows the line, or hides it. */
  predicate ShownExactlyIf(name: string, line: string, ctx: Context, shown: bool) {
    RenderFrom(Conditional(name, line), 0, ctx) == if shown then line + "\n" else ""
  }

  const CONDITIONS: set<string> :=
    {"has_session", "has_cron", "has_harness", "available_projects", "current_workspace", "db_tables",
     "cron_jobs_count", "model"}

  /** What each of the eight conditions asks of the context; no other name ever shows anything. */
  lemma ConditionsAskTheContext(name: string, line: string, ctx: Context)
    requires Braceless(line)
    ensures ShownExactlyIf("has_session", line, ctx, ctx.hasSession)
    ensures ShownExactlyIf("has_cron", line, ctx, ctx.hasCron && ctx.modelActionsAllowed)
    ensures ShownExactlyIf("has_harness", line, ctx, ctx.hasHarness)
    ensures ShownExactlyIf("available_projects", line, ctx, |ctx.availableProjects| > 0)
    ensures ShownExactlyIf("current_workspace", line, ctx, ctx.currentWorkspace != None)
    ensures ShownExactlyIf("db_tables", line, ctx, |ctx.dbTables| > 0)
    ensures ShownExactlyIf("cron_jobs_count", line, ctx, ctx.cronJobsCount != 0)
    ensures ShownExactlyIf("model", line, ctx, ctx.model != None)
    ensures name !in CONDITIONS ==> ShownExactlyIf(name, line, ctx, false)
  {
    hide RenderFrom, Conditional;
    ConditionalShows("has_session", line, ctx);
    ConditionalShows("has_cron", line, ctx);
    ConditionalShows("has_harness", line, ctx);
    ConditionalShows("available_projects", line, ctx);
    ConditionalShows("current_workspace", line, ctx);
    ConditionalShows("db_tables", line, ctx);
    ConditionalShows("cron_jobs_count", line, ctx);
    ConditionalShows("model", line, ctx);
    ConditionalShows(name, line, ctx);
  }

  // ---------------------------------------------------------------------------- lists

  /** A list over one line that holds the item once. */
  function Listing(name: string, pre: string, post: string): seq<string> {
    ["{{#each " + name + "}}", pre + "{{this}}" + post, "{{/each}}"]
  }

  /** One line per item. */
  function Rows(pre: string, items: seq<string>, post: string): string {
    if items == [] then "" else pre + items[0] + post + "\n" + Rows(pre, items[1..], post)
  }

  lemma {:induction false} EachLineIsShown(pre: string, items: seq<string>, post: string)
    requires Braceless(pre) && Braceless(post)
    ensures EachText([pre + "{{this}}" + post], items) == Rows(pre, items, post)
  {
    if items != [] {
      EachLineIsShown(pre, items[1..], post);
      var line := pre + "{{this}}" + post;
      assert line == pre + (Tag("this") + post);
      ReplaceAfter(pre, Tag("this") + post, "this", items[0]);
      TagIsReplaced("this", post, items[0]);
      assert pre + (items[0] + post) == pre + items[0] + post;
      var shown := pre + items[0] + post;
      assert [line][1..] == [] && Tag("this") == "{{this}}" && shown + "\n" + "" == shown + "\n";
      assert ItemText([line], items[0]) == shown + "\n";
    }
  }

  lemma ItemLineIsPlain(pre: string, post: string)
    requires Braceless(pre) && Braceless(post)
    ensures Classify(pre + "{{this}}" + post).Plain?
  {
    var line := pre + "{{this}}" + post;
    NoTagInside(line, |pre|);
  }

  /** Where the only double brace is not followed by a tag's mark, the line is plain. */
  lemma NoTagInside(line: string, n: nat)
    requires n + 2 < |line| && line[n + 2] != '#' && line[n + 2] != '/'
    requires forall k :: 0 <= k < |line| && line[k] == '{' ==> k == n || k == n + 1
    ensures Classify(line).Plain?
  {
    var t := Trim(line);
    var from := TrimIsInside(line);
    assert t != "" && t[0] == '{' ==> from == n || from == n + 1;
    if |t| > 2 && t[0] == '{' && t[1] == '{' {
      assert t[1] == line[from + 1] && t[2] == line[from + 2];
    }
    assert "{{#if "[..3] == "{{#" && "{{#each "[..3] == "{{#" && "{{/if}}"[..3] == "{{/" && "{{/each}}"[..3] == "{{/";
  }

  lemma TrimIsInside(s: string) returns (from: nat)
    ensures from + |Trim(s)| <= |s| && Trim(s) == s[from..from + |Trim(s)|]
  {
    from := StartIsSuffix(s);
    EndIsPrefix(TrimStart(s));
  }

  lemma {:induction false} StartIsSuffix(s: string) returns (from: nat)
    ensures from <= |s| && TrimStart(s) == s[from..]
  {
    if s != "" && IsWhitespace(s[0]) {
      var later := StartIsSuffix(s[1..]);
      from := later + 1;
    } else {
      from := 0;
    }
  }

  lemma {:induction false} EndIsPrefix(s: string)
    ensures |TrimEnd(s)| <= |s| && TrimEnd(s) == s[..|TrimEnd(s)|]
  {
    if s != "" && IsWhitespace(s[|s| - 1]) {
      EndIsPrefix(s[..|s| - 1]);
    }
  }

  lemma NothingShows(ctx: Context)
    ensures RenderFrom([], 0, ctx) == ""
  {
  }

  lemma ListingShows(name: string, pre: string, post: string, ctx: Context)
    requires Braceless(pre) && Braceless(post)
    ensures RenderFrom(Listing(name, pre, post), 0, ctx) == Rows(pre, Items(name, ctx), post)
  {
    hide Classify, Items, Trim, EachText, RenderFrom;
    OpeningTags(name);
    ItemLineIsPlain(pre, post);
    BracedIsTrimmed("{{/each}}");
    var open, lines := "{{#each " + name + "}}", [pre + "{{this}}" + post];
    EachShows(open, lines, "{{/each}}", [], ctx);
    assert [open] + lines + ["{{/each}}"] + [] == Listing(name, pre, post);
    NothingShows(ctx);
    EachLineIsShown(pre, Items(name, ctx), post);
    assert Rows(pre, Items(name, ctx), post) + "" == Rows(pre, Items(name, ctx), post);
  }

  /** A cron job as an item. */
  function CronRow(job: (string, string, string)): string { "`" + job.0 + "` | `" + job.1 + "` | " + job.2 }

  lemma {:induction false} CronItemsAre(jobs: seq<(string, string, string)>)
    ensures |CronItems(jobs)| == |jobs| && forall k :: 0 <= k < |jobs| ==> CronItems(jobs)[k] == CronRow(jobs[k])
  {
    if jobs != [] { CronItemsAre(jobs[1..]); }
  }

  /** What each of the three lists ranges over; no other name shows anything. */
  lemma ListsRangeOverTheContext(name: string, pre: string, post: string, ctx: Context)
    requires Braceless(pre) && Braceless(post)
    ensures RenderFrom(Listing("db_tables", pre, post), 0, ctx) == Rows(pre, ctx.dbTables, post)
    ensures RenderFrom(Listing("available_projects", pre, post), 0, ctx) == Rows(pre, ctx.availableProjects, post)
    ensures RenderFrom(Listing("cron_jobs", pre, post), 0, ctx)
         == Rows(pre, seq(|ctx.cronJobs|, k requires 0 <= k < |ctx.cronJobs| => CronRow(ctx.cronJobs[k])), post)
    ensures name !in ["db_tables", "available_projects", "cron_jobs"] ==>
              RenderFrom(Listing(name, pre, post), 0, ctx) == ""
  {
    hide RenderFrom;
    forall n: string ensures RenderFrom(Listing(n, pre, post), 0, ctx) == Rows(pre, Items(n, ctx), post) {
      ListingShows(n, pre, post, ctx);
    }
    CronItemsAre(ctx.cronJobs);
    assert CronItems(ctx.cronJobs)
        == seq(|ctx.cronJobs|, k requires 0 <= k < |ctx.cronJobs| => CronRow(ctx.cronJobs[k]));
  }
}
