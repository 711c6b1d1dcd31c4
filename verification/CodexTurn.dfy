/**
 What a Codex turn reports, as a function of everything heard since the turn began.  Each field is defined from the
 whole log at once; `CodexTurnState` shows that the client's step-by-step bookkeeping computes the same.
 */
module CodexTurn {
  import opened Wrappers

  datatype Event =
    | Token(text: string)
    | Reasoning(summary: bool, text: string)
    | Thinking(started: bool)
    | ToolStarted(name: string)
    | ToolDone(name: string)
    | ApprovalWanted(id: string)
    | ErrorStatus(message: string)

  datatype Usage = Usage(
    prompt: Option<nat>, completion: Option<nat>, cachedInput: Option<nat>, reasoningOutput: Option<nat>,
    total: Option<nat>, contextWindow: Option<nat>, raw: Option<string>)

  const NO_USAGE := Usage(None, None, None, None, None, None, None)

  /** What can change a turn's fields: the notifications, the two late replies, and the failure of the process. */
  datatype Input =
    | ThreadStarted(thread: Option<string>)
    | TurnStarted(turn: Option<string>)
    | TurnAccepted(turn: Option<string>)          // the reply to turn/start
    | TextDelta(delta: Option<string>)
    | ReasoningDelta(summary: bool, delta: Option<string>)
    | ItemStarted(progress: Option<Event>)
    | MessageCompleted(text: Option<string>)
    | ToolCompleted(name: string)
    | OtherCompleted(progress: Option<Event>)
    | UsageUpdated(usage: Usage)
    | TurnCompleted(failed: bool, committed: bool, session: Option<string>, commitUnknown: bool)
    | ApprovalRequested(approval: Option<string>)
    | ApprovalAnswered                            // the reply to approval/respond
    | ErrorReported(message: string)
    | ProcessFailed(error: string)
    | Unrecognized

  const COMMIT_UNKNOWN := " [提交状态未知，请勿直接重试；先核对会话状态]"

  // ------------------------------------------------- the fields, from the whole log

  datatype Field = Thread | ActiveTurn | Approval | UsageField | CommittedSession | LastError

  predicate Closes(x: Input) { x.TurnCompleted? || x.ProcessFailed? }

  predicate Fails(x: Input) { (x.TurnCompleted? && x.failed) || x.ProcessFailed? }

  /** A failed completion naming the session it had already committed. */
  predicate Commits(x: Input) {
    x.TurnCompleted? && x.failed && x.committed && x.session.Some? && x.session.value != ""
  }

  predicate Decides(astra: bool, f: Field, x: Input) {
    match f
    case Thread => (x.ThreadStarted? && x.thread.Some?) || (astra && Commits(x))
    case ActiveTurn => ((x.TurnStarted? || x.TurnAccepted?) && x.turn.Some?) || Closes(x)
    case Approval => (x.ApprovalRequested? && x.approval.Some?) || x.ApprovalAnswered? || Closes(x)
    case UsageField => x.UsageUpdated?
    case CommittedSession => astra && Commits(x)
    case LastError => x.ErrorReported? || x.ProcessFailed?
  }

  /** Where the log's last input that decides a field is, counted from one; zero if there is none. */
  function After(astra: bool, f: Field, log: seq<Input>): (n: nat)
    ensures n <= |log|
    ensures n > 0 ==> Decides(astra, f, log[n - 1])
  {
    if log == [] then 0
    else if Decides(astra, f, log[|log| - 1]) then |log|
    else After(astra, f, log[..|log| - 1])
  }

  function ThreadOf(astra: bool, before: Option<string>, log: seq<Input>): Option<string> {
    var n := After(astra, Thread, log);
    if n == 0 then before else if log[n - 1].ThreadStarted? then log[n - 1].thread else log[n - 1].session
  }

  function ActiveTurnOf(log: seq<Input>): Option<string> {
    var n := After(false, ActiveTurn, log);
    if n == 0 || Closes(log[n - 1]) then None else log[n - 1].turn
  }

  function ApprovalOf(log: seq<Input>): Option<string> {
    var n := After(false, Approval, log);
    if n == 0 || !log[n - 1].ApprovalRequested? then None else log[n - 1].approval
  }

  function UsageOf(log: seq<Input>): Usage {
    var n := After(false, UsageField, log);
    if n == 0 then NO_USAGE else log[n - 1].usage
  }

  function CommittedSessionOf(astra: bool, log: seq<Input>): Option<string> {
    var n := After(astra, CommittedSession, log);
    if n == 0 then None else log[n - 1].session
  }

  predicate Failed(log: seq<Input>) { log != [] && (Fails(log[0]) || Failed(log[1..])) }

  /** A failed Astra completion of unknown commit state adds a warning. */
  function WarningIn(astra: bool, x: Input): string {
    if astra && x.TurnCompleted? && x.failed && x.commitUnknown then COMMIT_UNKNOWN else ""
  }

  function Warnings(astra: bool, log: seq<Input>): string {
    if log == [] then "" else WarningIn(astra, log[0]) + Warnings(astra, log[1..])
  }

  function Warned(error: Option<string>, warnings: string): Option<string> {
    if warnings == "" then error else Some(error.UnwrapOr("") + warnings)
  }

  function ErrorIn(x: Input): Option<string> {
    match x
    case ErrorReported(m) => Some(m)
    case ProcessFailed(e) => Some(e)
    case _ => None
  }

  function LastErrorIn(log: seq<Input>): Option<string> {
    var n := After(false, LastError, log);
    if n == 0 then None else ErrorIn(log[n - 1])
  }

  function SinceLastError(log: seq<Input>): seq<Input> { log[After(false, LastError, log)..] }

  /** The last error followed by the warnings after it. */
  function ErrorOf(astra: bool, log: seq<Input>): Option<string> {
    Warned(LastErrorIn(log), Warnings(astra, SinceLastError(log)))
  }

  /** The text an input brings: a delta, or a completed message. */
  function TextIn(x: Input): string {
    match x
    case TextDelta(Some(t)) => t
    case MessageCompleted(Some(t)) => t
    case _ => ""
  }

  function DeltaIn(x: Input): string { if x.TextDelta? then TextIn(x) else "" }

  function Deltas(log: seq<Input>): string {
    if log == [] then "" else DeltaIn(log[0]) + Deltas(log[1..])
  }

  /** The first input that brings text, and the deltas after it: later completed messages repeat what was streamed. */
  function TextOf(log: seq<Input>): string {
    if log == [] then ""
    else if TextIn(log[0]) == "" then TextOf(log[1..])
    else TextIn(log[0]) + Deltas(log[1..])
  }

  function ToolCalls(log: seq<Input>): seq<string> {
    if log == [] then []
    else (if log[0].ToolCompleted? then [log[0].name] else []) + ToolCalls(log[1..])
  }

  function Without(names: seq<string>, name: string): (r: seq<string>)
    ensures |r| <= |names|
  {
    if names == [] then []
    else (if names[0] == name then [] else [names[0]]) + Without(names[1..], name)
  }

  /** Every name once, in the order of first use. */
  function Distinct(names: seq<string>): seq<string>
    decreases |names|
  {
    if names == [] then [] else [names[0]] + Distinct(Without(names[1..], names[0]))
  }

  function EventIn(x: Input): seq<Event> {
    match x
    case TextDelta(Some(t)) => if t != "" then [Token(t)] else []
    case ReasoningDelta(s, Some(t)) => if t != "" then [Reasoning(s, t)] else []
    case ItemStarted(Some(e)) => [e]
    case ToolCompleted(name) => [ToolDone(name)]
    case OtherCompleted(Some(e)) => [e]
    case ApprovalRequested(Some(id)) => [ApprovalWanted(id)]
    case ErrorReported(m) => [ErrorStatus(m)]
    case _ => []
  }

  predicate Closed(log: seq<Input>) { log != [] && (Closes(log[0]) || Closed(log[1..])) }

  /** What reached the caller's channel: the events up to the first input that closes it. */
  function Delivered(log: seq<Input>): seq<Event> {
    if log == [] || Closes(log[0]) then [] else EventIn(log[0]) + Delivered(log[1..])
  }

  /** The caller's result. */
  datatype Report = Report(
    error: string, success: bool, exitCode: int, session: Option<string>, text: Option<string>,
    toolCallsCount: Option<nat>, toolsUsed: seq<string>, usage: Usage)

  // ------------------------------------------------------- one more input

  lemma AfterGrows(astra: bool, f: Field, log: seq<Input>, x: Input)
    ensures After(astra, f, log + [x]) == if Decides(astra, f, x) then |log| + 1 else After(astra, f, log)
  {
    assert (log + [x])[..|log|] == log;
  }

  lemma {:induction false} WarningsGrow(astra: bool, log: seq<Input>, x: Input)
    ensures Warnings(astra, log + [x]) == Warnings(astra, log) + WarningIn(astra, x)
  {
    hide WarningIn;
    var all := log + [x];
    if log == [] {
      assert all[1..] == [];
      assert WarningIn(astra, x) + "" == "" + WarningIn(astra, x);
    } else {
      WarningsGrow(astra, log[1..], x);
      assert all[1..] == log[1..] + [x];
      var first, later := WarningIn(astra, log[0]), Warnings(astra, log[1..]);
      assert first + (later + WarningIn(astra, x)) == (first + later) + WarningIn(astra, x);
    }
  }

  lemma WarnedTwice(error: Option<string>, first: string, second: string)
    ensures Warned(error, first + second) == Warned(Warned(error, first), second)
  {
    assert error.UnwrapOr("") + (first + second) == (error.UnwrapOr("") + first) + second;
    assert first + "" == first && "" + second == second;
  }

  lemma LastErrorGrows(log: seq<Input>, x: Input)
    ensures LastErrorIn(log + [x]) == if ErrorIn(x).Some? then ErrorIn(x) else LastErrorIn(log)
    ensures SinceLastError(log + [x]) == if ErrorIn(x).Some? then [] else SinceLastError(log) + [x]
  {
    AfterGrows(false, LastError, log, x);
  }

  lemma ErrorGrows(astra: bool, log: seq<Input>, x: Input)
    ensures ErrorOf(astra, log + [x]) ==
            if ErrorIn(x).Some? then ErrorIn(x) else Warned(ErrorOf(astra, log), WarningIn(astra, x))
  {
    LastErrorGrows(log, x);
    if ErrorIn(x).None? {
      WarningsGrow(astra, SinceLastError(log), x);
      WarnedTwice(LastErrorIn(log), Warnings(astra, SinceLastError(log)), WarningIn(astra, x));
    }
  }

  lemma {:induction false} DeltasGrow(log: seq<Input>, x: Input)
    ensures Deltas(log + [x]) == Deltas(log) + DeltaIn(x)
  {
    hide DeltaIn;
    var all := log + [x];
    if log == [] {
      assert all[1..] == [];
      assert DeltaIn(x) + "" == "" + DeltaIn(x);
    } else {
      DeltasGrow(log[1..], x);
      assert all[1..] == log[1..] + [x];
      var first, later := DeltaIn(log[0]), Deltas(log[1..]);
      assert first + (later + DeltaIn(x)) == (first + later) + DeltaIn(x);
    }
  }

  lemma {:induction false} TextGrows(log: seq<Input>, x: Input)
    ensures TextOf(log + [x]) == if x.TextDelta? || TextOf(log) == "" then TextOf(log) + TextIn(x) else TextOf(log)
  {
    if log == [] {
      assert log + [x] == [x];
    } else {
      assert (log + [x])[1..] == log[1..] + [x];
      if TextIn(log[0]) == "" {
        TextGrows(log[1..], x);
      } else {
        DeltasGrow(log[1..], x);
      }
    }
  }

  lemma {:induction false} ToolCallsGrow(log: seq<Input>, x: Input)
    ensures ToolCalls(log + [x]) == ToolCalls(log) + if x.ToolCompleted? then [x.name] else []
  {
    if log == [] {
      assert log + [x] == [x];
    } else {
      ToolCallsGrow(log[1..], x);
      assert (log + [x])[1..] == log[1..] + [x];
    }
  }

  lemma WithoutStep(names: seq<string>, name: string)
    requires names != []
    ensures Without(names, name) == (if names[0] == name then [] else [names[0]]) + Without(names[1..], name)
  {
  }

  lemma {:induction false} WithoutGrows(names: seq<string>, last: string, name: string)
    ensures Without(names + [last], name) == Without(names, name) + if last == name then [] else [last]
  {
    var all := names + [last];
    WithoutStep(all, name);
    if names == [] {
      assert all[1..] == [];
    } else {
      WithoutGrows(names[1..], last, name);
      WithoutStep(names, name);
      assert all[1..] == names[1..] + [last];
    }
  }

  lemma {:induction false} WithoutMembers(names: seq<string>, name: string, other: string)
    ensures other in Without(names, name) <==> other in names && other != name
  {
    if names != [] {
      WithoutMembers(names[1..], name, other);
      assert names == [names[0]] + names[1..];
    }
  }

  lemma {:induction false} DistinctMembers(names: seq<string>, name: string)
    ensures name in Distinct(names) <==> name in names
    decreases |names|
  {
    if names != [] {
      DistinctMembers(Without(names[1..], names[0]), name);
      WithoutMembers(names[1..], names[0], name);
      assert names == [names[0]] + names[1..];
    }
  }

  lemma {:induction false} DistinctGrows(names: seq<string>, last: string)
    ensures Distinct(names + [last]) == Distinct(names) + if last in names then [] else [last]
    decreases |names|
  {
    if names == [] {
      assert names + [last] == [last];
    } else {
      var rest := Without(names[1..], names[0]);
      assert (names + [last])[1..] == names[1..] + [last];
      assert names == [names[0]] + names[1..];
      WithoutGrows(names[1..], last, names[0]);
      WithoutMembers(names[1..], names[0], last);
      if last != names[0] {
        DistinctGrows(rest, last);
      } else {
        assert rest + [] == rest;
      }
    }
  }

  lemma {:induction false} DeliveredGrows(log: seq<Input>, x: Input)
    ensures Delivered(log + [x]) == Delivered(log) + if Closed(log) || Closes(x) then [] else EventIn(x)
  {
    if log == [] {
      assert log + [x] == [x];
    } else {
      assert (log + [x])[1..] == log[1..] + [x];
      DeliveredGrows(log[1..], x);
    }
  }

  lemma {:induction false} FlagsGrow(log: seq<Input>, x: Input)
    ensures Failed(log + [x]) <==> Failed(log) || Fails(x)
    ensures Closed(log + [x]) <==> Closed(log) || Closes(x)
  {
    if log == [] {
      assert log + [x] == [x];
    } else {
      assert (log + [x])[1..] == log[1..] + [x];
      FlagsGrow(log[1..], x);
    }
  }
}
