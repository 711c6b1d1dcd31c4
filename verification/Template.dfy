/**
 The line template interpreter of the gateway prompt.  It keeps a single skip counter and pushes nothing for true
 conditions; on well-nested templates it agrees with recursive evaluation.
 */
module Template {
  import opened Wrappers
  import opened Text

  datatype Context = Context(
    platform: string,
    userDisplayName: string,
    userId: string,
    cliName: string,
    model: Option<string>,
    hasSession: bool,
    hasCron: bool,
    hasHarness: bool,
    modelActionsAllowed: bool,
    cronJobsCount: nat,
    cronJobs: seq<(string, string, string)>,
    dbTables: seq<string>,
    currentWorkspace: Option<string>,
    availableProjects: seq<string>)

  function CheckCondition(name: string, ctx: Context): bool {
    if name == "has_session" then ctx.hasSession
    else if name == "has_cron" then ctx.hasCron && ctx.modelActionsAllowed
    else if name == "has_harness" then ctx.hasHarness
    else if name == "available_projects" then ctx.availableProjects != []
    else if name == "current_workspace" then ctx.currentWorkspace.Some?
    else if name == "db_tables" then ctx.dbTables != []
    else if name == "cron_jobs_count" then ctx.cronJobsCount > 0
    else if name == "model" then ctx.model.Some?
    else false
  }

  function CronItems(jobs: seq<(string, string, string)>): seq<string> {
    if jobs == [] then []
    else ["`" + jobs[0].0 + "` | `" + jobs[0].1 + "` | " + jobs[0].2] + CronItems(jobs[1..])
  }

  /** The items an `each` ranges over. */
  function Items(name: string, ctx: Context): seq<string> {
    if name == "db_tables" then ctx.dbTables
    else if name == "cron_jobs" then CronItems(ctx.cronJobs)
    else if name == "available_projects" then ctx.availableProjects
    else []
  }

  function Tag(name: string): string { "{{" + name + "}}" }

  /** The variables and their values, in the order of replacement. */
  function Bindings(ctx: Context): seq<(string, string)> {
    [("platform", ctx.platform), ("user_display_name", ctx.userDisplayName), ("user_id", ctx.userId),
     ("cli_name", ctx.cliName), ("model", ctx.model.UnwrapOr("auto")),
     ("current_workspace", ctx.currentWorkspace.UnwrapOr("(default)")),
     ("cron_jobs_count", Digits(ctx.cronJobsCount))]
  }

  function ReplaceAll(line: string, bindings: seq<(string, string)>): string
    decreases |bindings|
  {
    if bindings == [] then line
    else ReplaceAll(Replace(line, Tag(bindings[0].0), bindings[0].1), bindings[1..])
  }

  /** The variables of a line, replaced one after the other. */
  function Substitute(line: string, ctx: Context): string { ReplaceAll(line, Bindings(ctx)) }

  // ---------------------------------------------------------------------- lines

  datatype Kind = IfOpen(name: string) | EachOpen(name: string) | Closer | Plain

  function Classify(line: string): Kind {
    var t := Trim(line);
    match Between(t, "{{#if ", "}}")
    case Some(name) => IfOpen(name)
    case None =>
      match Between(t, "{{#each ", "}}")
      case Some(name) => EachOpen(name)
      case None => if t == "{{/if}}" || t == "{{/each}}" then Closer else Plain
  }

  /** How many lines precede the next `{{/each}}`. */
  function BodyLength(lines: seq<string>): (n: nat)
    ensures n <= |lines|
  {
    if lines == [] || Trim(lines[0]) == "{{/each}}" then 0 else 1 + BodyLength(lines[1..])
  }

  function ItemText(body: seq<string>, item: string): string {
    if body == [] then "" else Replace(body[0], "{{this}}", item) + "\n" + ItemText(body[1..], item)
  }

  function EachText(body: seq<string>, items: seq<string>): string {
    if items == [] then "" else ItemText(body, items[0]) + EachText(body, items[1..])
  }

  /** The lines that follow the next `{{/each}}`. */
  function AfterBody(lines: seq<string>): (rest: seq<string>)
    ensures |rest| <= |lines|
  {
    var n := BodyLength(lines);
    if n < |lines| then lines[n + 1..] else []
  }

  /** What the lines contribute to the output when `depth` blocks are being skipped. */
  function RenderFrom(lines: seq<string>, depth: nat, ctx: Context): string
    decreases |lines|
  {
    if lines == [] then ""
    else
      var rest := lines[1..];
      match Classify(lines[0])
      case IfOpen(name) =>
        RenderFrom(rest, if depth > 0 || !CheckCondition(name, ctx) then depth + 1 else depth, ctx)
      case EachOpen(name) =>
        if depth > 0 then RenderFrom(rest, depth + 1, ctx)
        else
          EachText(rest[..BodyLength(rest)], Items(name, ctx)) + RenderFrom(AfterBody(rest), 0, ctx)
      case Closer => RenderFrom(rest, if depth > 0 then depth - 1 else 0, ctx)
      case Plain =>
        if depth > 0 then RenderFrom(rest, depth, ctx)
        else Substitute(lines[0], ctx) + "\n" + RenderFrom(rest, 0, ctx)
  }

  lemma BodyLengthStep(lines: seq<string>, k: nat)
    requires k <= BodyLength(lines)
    ensures BodyLength(lines) == k + BodyLength(lines[k..])
    ensures k < BodyLength(lines) <==> k < |lines| && Trim(lines[k]) != "{{/each}}"
  {
    if k > 0 {
      BodyLengthStep(lines[1..], k - 1);
      assert lines[1..][k - 1..] == lines[k..];
    } else {
      assert lines[0..] == lines;
    }
  }

  lemma ItemTextAppend(body: seq<string>, line: string, item: string)
    ensures ItemText(body + [line], item) == ItemText(body, item) + Replace(line, "{{this}}", item) + "\n"
  {
    if body != [] {
      assert (body + [line])[1..] == body[1..] + [line];
      ItemTextAppend(body[1..], line, item);
    } else {
      assert (body + [line])[1..] == [];
    }
  }

  lemma EachTextAppend(body: seq<string>, items: seq<string>, item: string)
    ensures EachText(body, items + [item]) == EachText(body, items) + ItemText(body, item)
  {
    if items != [] {
      assert (items + [item])[1..] == items[1..] + [item];
      EachTextAppend(body, items[1..], item);
    } else {
      assert (items + [item])[1..] == [];
    }
  }

  lemma Concat(a: string, b: string, c: string)
    ensures a + (b + c) == a + b + c
  {
  }

  method RenderItem(body: seq<string>, item: string) returns (out: string)
    ensures out == ItemText(body, item)
  {
    out := "";
    for j := 0 to |body|
      invariant out == ItemText(body[..j], item)
    {
      assert body[..j + 1] == body[..j] + [body[j]];
      ItemTextAppend(body[..j], body[j], item);
      out := out + Replace(body[j], "{{this}}", item) + "\n";
    }
    assert body[..|body|] == body;
  }

  method RenderEach(body: seq<string>, items: seq<string>) returns (out: string)
    ensures out == EachText(body, items)
  {
    out := "";
    for k := 0 to |items|
      invariant out == EachText(body, items[..k])
    {
      var text := RenderItem(body, items[k]);
      assert items[..k + 1] == items[..k] + [items[k]];
      EachTextAppend(body, items[..k], items[k]);
      out := out + text;
    }
    assert items[..|items|] == items;
  }

  /** The lines up to the next `{{/each}}`, and where that is. */
  method CollectBody(lines: seq<string>, start: nat) returns (body: seq<string>, i: nat)
    requires start <= |lines|
    ensures var n := BodyLength(lines[start..]); i == start + n <= |lines| && body == lines[start..][..n]
  {
    body, i := [], start;
    while i < |lines| && Trim(lines[i]) != "{{/each}}"
      invariant start <= i <= |lines| && body == lines[start..i] && i - start <= BodyLength(lines[start..])
      decreases |lines| - i
    {
      BodyLengthStep(lines[start..], i - start);
      body := body + [lines[i]];
      i := i + 1;
    }
    BodyLengthStep(lines[start..], i - start);
  }

  function Render(template: string, ctx: Context): string { Trim(RenderFrom(Lines(template), 0, ctx)) }

  /** `render_template`. */
  method RenderTemplate(template: string, ctx: Context) returns (r: string)
    ensures r == Render(template, ctx)
  {
    hide Lines, Trim, Substitute, CheckCondition, Items, Classify;
    var lines := Lines(template);
    var out, i, skipDepth := "", 0, 0;
    assert lines[0..] == lines;
    while i < |lines|
      invariant 0 <= i <= |lines| && 0 <= skipDepth
      invariant RenderFrom(lines, 0, ctx) == out + RenderFrom(lines[i..], skipDepth, ctx)
      decreases |lines| - i
    {
      assert lines[i..][0] == lines[i] && lines[i..][1..] == lines[i + 1..];
      match Classify(lines[i]) {
        case IfOpen(name) =>
          if skipDepth > 0 || !CheckCondition(name, ctx) {
            skipDepth := skipDepth + 1;
          }
          i := i + 1;
        case EachOpen(name) =>
          if skipDepth > 0 {
            skipDepth := skipDepth + 1;
            i := i + 1;
            continue;
          }
          ghost var start := i + 1;
          var body: seq<string>;
          body, i := CollectBody(lines, i + 1);
          var text := RenderEach(body, Items(name, ctx));
          Concat(out, text, RenderFrom(AfterBody(lines[start..]), 0, ctx));
          out := out + text;
          i := if i < |lines| then i + 1 else i;
          assert lines[i..] == AfterBody(lines[start..]);
        case Closer =>
          if skipDepth > 0 {
            skipDepth := skipDepth - 1;
          }
          i := i + 1;
        case Plain =>
          if skipDepth > 0 {
            i := i + 1;
            continue;
          }
          var rendered := Substitute(lines[i], ctx) + "\n";
          Concat(out, rendered, RenderFrom(lines[i + 1..], 0, ctx));
          out := out + rendered;
          i := i + 1;
      }
    }
    assert lines[|lines|..] == [] && out + "" == out;
    return Trim(out);
  }

  // ---------------------------------------------------------------------- trees

  /** A template tree, with the tag lines it is written with. */
  datatype Node =
    | TextLine(line: string)
    | If(open: string, body: seq<Node>, close: string)
    | Each(open: string, lines: seq<string>, close: string)

  /** Tag lines are what they should be, and the lines of an `each` are plain. */
  predicate WellNestedNode(node: Node) {
    match node
    case TextLine(line) => Classify(line).Plain?
    case If(open, body, close) => Classify(open).IfOpen? && WellNested(body) && Trim(close) == "{{/if}}"
    case Each(open, lines, close) =>
      Classify(open).EachOpen? && (forall line <- lines :: Classify(line).Plain?) && Trim(close) == "{{/each}}"
  }

  predicate WellNested(nodes: seq<Node>) {
    nodes == [] || (WellNestedNode(nodes[0]) && WellNested(nodes[1..]))
  }

  function PrintNode(node: Node): seq<string> {
    match node
    case TextLine(line) => [line]
    case If(open, body, close) => [open] + Print(body) + [close]
    case Each(open, lines, close) => [open] + lines + [close]
  }

  function Print(nodes: seq<Node>): seq<string> {
    if nodes == [] then [] else PrintNode(nodes[0]) + Print(nodes[1..])
  }

  /** The recursive reading of a tree. */
  function EvaluateNode(node: Node, ctx: Context): string
    requires WellNestedNode(node)
  {
    match node
    case TextLine(line) => Substitute(line, ctx) + "\n"
    case If(open, body, _) => if CheckCondition(Classify(open).name, ctx) then Evaluate(body, ctx) else ""
    case Each(open, lines, _) => EachText(lines, Items(Classify(open).name, ctx))
  }

  function Evaluate(nodes: seq<Node>, ctx: Context): string
    requires WellNested(nodes)
  {
    if nodes == [] then "" else EvaluateNode(nodes[0], ctx) + Evaluate(nodes[1..], ctx)
  }

  lemma CloserIs(line: string)
    requires Trim(line) == "{{/if}}" || Trim(line) == "{{/each}}"
    ensures Classify(line) == Closer
  {
    assert Trim(line)[2] == '/' && "{{#if "[2] == '#' && "{{#each "[2] == '#';
  }

  // One line at the head of the rest.

  lemma OpenDeepens(open: string, rest: seq<string>, depth: nat, ctx: Context)
    requires depth > 0 && (Classify(open).IfOpen? || Classify(open).EachOpen?)
    ensures RenderFrom([open] + rest, depth, ctx) == RenderFrom(rest, depth + 1, ctx)
  {
    assert ([open] + rest)[1..] == rest;
  }

  lemma CloserRaises(close: string, rest: seq<string>, depth: nat, ctx: Context)
    requires Trim(close) == "{{/if}}" || Trim(close) == "{{/each}}"
    ensures RenderFrom([close] + rest, depth, ctx) == RenderFrom(rest, if depth > 0 then depth - 1 else 0, ctx)
  {
    CloserIs(close);
    assert ([close] + rest)[1..] == rest;
  }

  lemma PlainShows(line: string, rest: seq<string>, depth: nat, ctx: Context)
    requires Classify(line).Plain?
    ensures RenderFrom([line] + rest, depth, ctx)
         == (if depth > 0 then "" else Substitute(line, ctx) + "\n") + RenderFrom(rest, depth, ctx)
  {
    assert ([line] + rest)[1..] == rest;
  }

  /** While blocks are being skipped, plain lines count for nothing. */
  lemma {:induction false} SkipPlain(lines: seq<string>, rest: seq<string>, depth: nat, ctx: Context)
    requires depth > 0 && forall line <- lines :: Classify(line).Plain?
    ensures RenderFrom(lines + rest, depth, ctx) == RenderFrom(rest, depth, ctx)
    decreases |lines|
  {
    if lines == [] {
      assert lines + rest == rest;
    } else {
      assert (lines + rest)[1..] == lines[1..] + rest;
      SkipPlain(lines[1..], rest, depth, ctx);
    }
  }

  lemma Regroup(open: string, inner: seq<string>, close: string, after: seq<string>)
    ensures [open] + inner + [close] + after == [open] + (inner + ([close] + after))
  {
  }

  lemma Follow(first: seq<string>, others: seq<string>, rest: seq<string>)
    ensures first + others + rest == first + (others + rest)
  {
  }

  /** While blocks are being skipped, a whole tree counts for nothing and leaves the counter as it was. */
  lemma {:induction false} SkipNode(node: Node, after: seq<string>, depth: nat, ctx: Context)
    requires WellNestedNode(node) && depth > 0
    ensures RenderFrom(PrintNode(node) + after, depth, ctx) == RenderFrom(after, depth, ctx)
    decreases node
  {
    match node
    case TextLine(line) =>
      PlainShows(line, after, depth, ctx);
    case If(open, body, close) =>
      Regroup(open, Print(body), close, after);
      OpenDeepens(open, Print(body) + ([close] + after), depth, ctx);
      SkipTree(body, [close] + after, depth + 1, ctx);
      CloserRaises(close, after, depth + 1, ctx);
    case Each(open, lines, close) =>
      Regroup(open, lines, close, after);
      OpenDeepens(open, lines + ([close] + after), depth, ctx);
      SkipPlain(lines, [close] + after, depth + 1, ctx);
      CloserRaises(close, after, depth + 1, ctx);
  }

  lemma {:induction false} SkipTree(nodes: seq<Node>, rest: seq<string>, depth: nat, ctx: Context)
    requires WellNested(nodes) && depth > 0
    ensures RenderFrom(Print(nodes) + rest, depth, ctx) == RenderFrom(rest, depth, ctx)
    decreases nodes
  {
    if nodes == [] {
      assert Print(nodes) + rest == rest;
    } else {
      Follow(PrintNode(nodes[0]), Print(nodes[1..]), rest);
      SkipNode(nodes[0], Print(nodes[1..]) + rest, depth, ctx);
      SkipTree(nodes[1..], rest, depth, ctx);
    }
  }

  lemma {:induction false} BodyOf(lines: seq<string>, close: string, rest: seq<string>)
    requires (forall line <- lines :: Classify(line).Plain?) && Trim(close) == "{{/each}}"
    ensures BodyLength(lines + [close] + rest) == |lines|
    decreases |lines|
  {
    var all := lines + [close] + rest;
    if lines == [] {
      assert all[0] == close;
    } else {
      assert all[0] == lines[0] && all[1..] == lines[1..] + [close] + rest;
      assert Trim(lines[0]) != "{{/each}}" by {
        if Trim(lines[0]) == "{{/each}}" { CloserIs(lines[0]); }
      }
      BodyOf(lines[1..], close, rest);
    }
  }

  lemma EachShows(open: string, lines: seq<string>, close: string, after: seq<string>, ctx: Context)
    requires Classify(open).EachOpen? && (forall line <- lines :: Classify(line).Plain?) && Trim(close) == "{{/each}}"
    ensures RenderFrom([open] + lines + [close] + after, 0, ctx)
         == EachText(lines, Items(Classify(open).name, ctx)) + RenderFrom(after, 0, ctx)
  {
    var tail := lines + [close] + after;
    assert [open] + lines + [close] + after == [open] + tail && ([open] + tail)[1..] == tail;
    BodyOf(lines, close, after);
    assert tail[..|lines|] == lines && tail[|lines| + 1..] == after;
  }

  /** Printed and rendered, a tree gives its recursive evaluation and leaves the counter at zero. */
  lemma {:induction false} RenderNode(node: Node, after: seq<string>, ctx: Context)
    requires WellNestedNode(node)
    ensures RenderFrom(PrintNode(node) + after, 0, ctx) == EvaluateNode(node, ctx) + RenderFrom(after, 0, ctx)
    decreases node
  {
    match node
    case TextLine(line) =>
      PlainShows(line, after, 0, ctx);
    case If(open, body, close) =>
      Regroup(open, Print(body), close, after);
      var inner := Print(body) + ([close] + after);
      assert ([open] + inner)[1..] == inner;
      if CheckCondition(Classify(open).name, ctx) {
        RenderTree(body, [close] + after, ctx);
        CloserRaises(close, after, 0, ctx);
      } else {
        SkipTree(body, [close] + after, 1, ctx);
        CloserRaises(close, after, 1, ctx);
      }
    case Each(open, lines, close) =>
      EachShows(open, lines, close, after, ctx);
  }

  lemma {:induction false} RenderTree(nodes: seq<Node>, rest: seq<string>, ctx: Context)
    requires WellNested(nodes)
    ensures RenderFrom(Print(nodes) + rest, 0, ctx) == Evaluate(nodes, ctx) + RenderFrom(rest, 0, ctx)
    decreases nodes
  {
    if nodes == [] {
      assert Print(nodes) + rest == rest;
    } else {
      Follow(PrintNode(nodes[0]), Print(nodes[1..]), rest);
      RenderNode(nodes[0], Print(nodes[1..]) + rest, ctx);
      RenderTree(nodes[1..], rest, ctx);
      Concat(EvaluateNode(nodes[0], ctx), Evaluate(nodes[1..], ctx), RenderFrom(rest, 0, ctx));
    }
  }

  /** For every well-nested tree, rendering its printed lines is evaluating it, up to the final trim. */
  lemma RenderingIsEvaluation(nodes: seq<Node>, ctx: Context)
    requires WellNested(nodes)
    ensures RenderFrom(Print(nodes), 0, ctx) == Evaluate(nodes, ctx)
  {
    RenderTree(nodes, [], ctx);
    assert Print(nodes) + [] == Print(nodes) && Evaluate(nodes, ctx) + "" == Evaluate(nodes, ctx);
  }

  /** ... and so for the text of its lines: the template's text is split into those lines again. */
  lemma RenderingTextIsEvaluation(nodes: seq<Node>, ctx: Context)
    requires WellNested(nodes) && forall k :: 0 <= k < |Print(nodes)| ==> Whole(Print(nodes)[k])
    ensures Render(Written(Print(nodes)), ctx) == Trim(Evaluate(nodes, ctx))
  {
    LinesOfWritten(Print(nodes));
    RenderingIsEvaluation(nodes, ctx);
  }
}
