/** The client's step-by-step bookkeeping of a turn, and its agreement with the whole-log definitions of `CodexTurn`. */
module CodexTurnState {
  import opened Wrappers
  import opened CodexTurn

  /** The fields of the process handle that belong to a turn, and what reached the receiver of its channel. */
  datatype Names = Names(
    thread: Option<string>, activeTurn: Option<string>, approval: Option<string>, session: Option<string>)
  datatype Content = Content(text: string, toolCalls: nat, tools: seq<string>, usage: Usage)
  datatype Standing = Standing(failed: bool, error: Option<string>, slotOpen: bool, channel: seq<Event>)
  datatype Fields = Fields(names: Names, content: Content, standing: Standing)

  function Fresh(thread: Option<string>): Fields {
    Fields(Names(thread, None, None, None), Content("", 0, [], NO_USAGE), Standing(false, None, true, []))
  }

  function NextNames(astra: bool, s: Names, x: Input): Names {
    Names(
      if x.ThreadStarted? && x.thread.Some? then x.thread else if astra && Commits(x) then x.session else s.thread,
      if Closes(x) then None
      else if (x.TurnStarted? || x.TurnAccepted?) && x.turn.Some? then x.turn else s.activeTurn,
      if Closes(x) || x.ApprovalAnswered? then None
      else if x.ApprovalRequested? && x.approval.Some? then x.approval else s.approval,
      if astra && Commits(x) then x.session else s.session)
  }

  function NextContent(s: Content, x: Input): Content {
    Content(
      if x.TextDelta? || s.text == "" then s.text + TextIn(x) else s.text,
      s.toolCalls + if x.ToolCompleted? then 1 else 0,
      s.tools + if x.ToolCompleted? && x.name !in s.tools then [x.name] else [],
      if x.UsageUpdated? then x.usage else s.usage)
  }

  function NextStanding(astra: bool, s: Standing, x: Input): Standing {
    Standing(
      s.failed || Fails(x),
      if ErrorIn(x).Some? then ErrorIn(x) else Warned(s.error, WarningIn(astra, x)),
      s.slotOpen && !Closes(x),
      s.channel + if s.slotOpen && !Closes(x) then EventIn(x) else [])
  }

  /** The fields after one more input. */
  function Next(astra: bool, s: Fields, x: Input): Fields {
    Fields(NextNames(astra, s.names, x), NextContent(s.content, x), NextStanding(astra, s.standing, x))
  }

  lemma AddNothing(s: Fields, x: Input)
    ensures s.content.text + "" == s.content.text && s.content.tools + [] == s.content.tools
    ensures s.content.text == "" ==> s.content.text + TextIn(x) == TextIn(x)
    ensures s.standing.channel + [] == s.standing.channel
  {
  }

  function Follow(astra: bool, s: Fields, log: seq<Input>): Fields {
    if log == [] then s else Next(astra, Follow(astra, s, log[..|log| - 1]), log[|log| - 1])
  }

  /** Every field from the whole log at once. */
  function Recomputed(astra: bool, before: Option<string>, log: seq<Input>): Fields {
    Fields(
      Names(ThreadOf(astra, before, log), ActiveTurnOf(log), ApprovalOf(log), CommittedSessionOf(astra, log)),
      Content(TextOf(log), |ToolCalls(log)|, Distinct(ToolCalls(log)), UsageOf(log)),
      Standing(Failed(log), ErrorOf(astra, log), !Closed(log), Delivered(log)))
  }

  lemma OneMoreIdentifier(astra: bool, before: Option<string>, log: seq<Input>, x: Input)
    ensures ThreadOf(astra, before, log + [x]) ==
            if x.ThreadStarted? && x.thread.Some? then x.thread
            else if astra && Commits(x) then x.session else ThreadOf(astra, before, log)
    ensures ActiveTurnOf(log + [x]) ==
            if Closes(x) then None
            else if (x.TurnStarted? || x.TurnAccepted?) && x.turn.Some? then x.turn else ActiveTurnOf(log)
    ensures ApprovalOf(log + [x]) ==
            if Closes(x) || x.ApprovalAnswered? then None
            else if x.ApprovalRequested? && x.approval.Some? then x.approval else ApprovalOf(log)
  {
    AfterGrows(astra, Thread, log, x);
    AfterGrows(false, ActiveTurn, log, x);
    AfterGrows(false, Approval, log, x);
  }

  lemma OneMoreValue(astra: bool, log: seq<Input>, x: Input)
    ensures UsageOf(log + [x]) == if x.UsageUpdated? then x.usage else UsageOf(log)
    ensures CommittedSessionOf(astra, log + [x]) ==
            if astra && Commits(x) then x.session else CommittedSessionOf(astra, log)
  {
    AfterGrows(false, UsageField, log, x);
    AfterGrows(astra, CommittedSession, log, x);
  }

  lemma OneMoreTool(log: seq<Input>, x: Input)
    ensures |ToolCalls(log + [x])| == |ToolCalls(log)| + if x.ToolCompleted? then 1 else 0
    ensures Distinct(ToolCalls(log + [x])) ==
            Distinct(ToolCalls(log))
            + if x.ToolCompleted? && x.name !in Distinct(ToolCalls(log)) then [x.name] else []
  {
    ToolCallsGrow(log, x);
    if x.ToolCompleted? {
      DistinctGrows(ToolCalls(log), x.name);
      DistinctMembers(ToolCalls(log), x.name);
    } else {
      assert ToolCalls(log + [x]) == ToolCalls(log);
      assert Distinct(ToolCalls(log)) + [] == Distinct(ToolCalls(log));
    }
  }

  lemma RecomputedGrows(astra: bool, before: Option<string>, log: seq<Input>, x: Input)
    ensures Recomputed(astra, before, log + [x]) == Next(astra, Recomputed(astra, before, log), x)
  {
    OneMoreIdentifier(astra, before, log, x);
    OneMoreValue(astra, log, x);
    OneMoreTool(log, x);
    FlagsGrow(log, x);
    ErrorGrows(astra, log, x);
    TextGrows(log, x);
    DeliveredGrows(log, x);
  }

  lemma NothingHeard(astra: bool, before: Option<string>)
    ensures Recomputed(astra, before, []) == Fresh(before)
  {
  }

  /** For every sequence of inputs since the reset, the incremental fields equal the recomputation from the log. */
  lemma {:induction false} BookkeepingIsRecomputation(astra: bool, before: Option<string>, log: seq<Input>)
    ensures Follow(astra, Fresh(before), log) == Recomputed(astra, before, log)
  {
    hide Recomputed, Next, Fresh;
    if log == [] {
      NothingHeard(astra, before);
    } else {
      var rest, x := log[..|log| - 1], log[|log| - 1];
      BookkeepingIsRecomputation(astra, before, rest);
      RecomputedGrows(astra, before, rest, x);
      assert rest + [x] == log;
    }
  }

  // ------------------------------------------------------------- the client's object

  class TurnState {
    const isAstra: bool
    var threadId: Option<string>
    var activeTurnId: Option<string>
    var lastText: string
    var usage: Usage
    var toolCallsCount: nat
    var toolsUsed: seq<string>
    var lastError: Option<string>
    var turnFailed: bool
    var committedFailureSessionId: Option<string>
    var approvalId: Option<string>
    var slotOpen: bool
    var channel: seq<Event>

    ghost function Snapshot(): Fields
      reads this
    {
      Fields(Names(threadId, activeTurnId, approvalId, committedFailureSessionId),
             Content(lastText, toolCallsCount, toolsUsed, usage),
             Standing(turnFailed, lastError, slotOpen, channel))
    }

    constructor (isAstra: bool, threadId: Option<string>)
      ensures this.isAstra == isAstra && Snapshot() == Fresh(threadId)
    {
      this.isAstra, this.threadId := isAstra, threadId;
      activeTurnId, lastText, usage, toolCallsCount, toolsUsed := None, "", NO_USAGE, 0, [];
      lastError, turnFailed, committedFailureSessionId, approvalId := None, false, None, None;
      slotOpen, channel := true, [];
    }

    /** `begin_turn` opens a new channel and resets everything but the thread. */
    method BeginTurn()
      modifies this
      ensures Snapshot() == Fresh(old(threadId))
    {
      slotOpen, channel := true, [];
      activeTurnId, lastText, usage, toolCallsCount, toolsUsed := None, "", NO_USAGE, 0, [];
      lastError, turnFailed, committedFailureSessionId, approvalId := None, false, None, None;
    }

    method SendProgress(e: Event)
      modifies `channel
      ensures channel == if slotOpen then old(channel) + [e] else old(channel)
    {
      if slotOpen {
        channel := channel + [e];
      }
    }

    method RecordTool(name: string)
      modifies `toolCallsCount, `toolsUsed
      ensures toolCallsCount == old(toolCallsCount) + 1
      ensures toolsUsed == old(toolsUsed) + if name in old(toolsUsed) then [] else [name]
    {
      toolCallsCount := toolCallsCount + 1;
      if name !in toolsUsed {
        toolsUsed := toolsUsed + [name];
      }
    }

    method MarkProcessFailed(error: string)
      modifies `lastError, `turnFailed, `activeTurnId, `approvalId, `slotOpen
      ensures Snapshot() == Next(isAstra, old(Snapshot()), ProcessFailed(error))
    {
      AddNothing(Snapshot(), ProcessFailed(error));
      lastError, turnFailed := Some(error), true;
      activeTurnId, approvalId, slotOpen := None, None, false;
    }

    /** The reply to turn/start names the turn, however late it comes. */
    method AcceptTurn(turn: Option<string>)
      modifies this
      ensures Snapshot() == Next(isAstra, old(Snapshot()), TurnAccepted(turn))
    {
      AddNothing(Snapshot(), TurnAccepted(turn));
      if turn.Some? {
        activeTurnId := turn;
      }
    }

    method AnswerApproval()
      modifies this
      ensures Snapshot() == Next(isAstra, old(Snapshot()), ApprovalAnswered)
    {
      AddNothing(Snapshot(), ApprovalAnswered);
      approvalId := None;
    }

    /** `handle_notification`: text, items, completion, names and usage, and the rest. */
    method HandleNotification(x: Input)
      requires !x.ProcessFailed? && !x.TurnAccepted? && !x.ApprovalAnswered?
      modifies this
      ensures Snapshot() == Next(isAstra, old(Snapshot()), x)
    {
      if x.TextDelta? || x.ReasoningDelta? || x.MessageCompleted? {
        HandleText(x);
      } else if x.ItemStarted? || x.ToolCompleted? || x.OtherCompleted? {
        HandleItem(x);
      } else if x.TurnCompleted? {
        CompleteTurn(x);
      } else if x.ThreadStarted? || x.TurnStarted? || x.UsageUpdated? {
        HandleNaming(x);
      } else {
        HandleOther(x);
      }
    }

    method HandleText(x: Input)
      requires x.TextDelta? || x.ReasoningDelta? || x.MessageCompleted?
      modifies `lastText, `channel
      ensures Snapshot() == Next(isAstra, old(Snapshot()), x)
    {
      AddNothing(Snapshot(), x);
      match x
      case TextDelta(delta) =>
        if delta.Some? && delta.value != "" {
          lastText := lastText + delta.value;
          SendProgress(Token(delta.value));
        }
      case ReasoningDelta(summary, delta) =>
        if delta.Some? && delta.value != "" { SendProgress(Reasoning(summary, delta.value)); }
      case MessageCompleted(text) => if lastText == "" && text.Some? { lastText := text.value; }
    }

    method HandleItem(x: Input)
      requires x.ItemStarted? || x.ToolCompleted? || x.OtherCompleted?
      modifies `toolCallsCount, `toolsUsed, `channel
      ensures Snapshot() == Next(isAstra, old(Snapshot()), x)
    {
      AddNothing(Snapshot(), x);
      match x
      case ItemStarted(progress) => if progress.Some? { SendProgress(progress.value); }
      case ToolCompleted(name) =>
        RecordTool(name);
        SendProgress(ToolDone(name));
      case OtherCompleted(progress) => if progress.Some? { SendProgress(progress.value); }
    }

    method HandleNaming(x: Input)
      requires x.ThreadStarted? || x.TurnStarted? || x.UsageUpdated?
      modifies `threadId, `activeTurnId, `usage
      ensures Snapshot() == Next(isAstra, old(Snapshot()), x)
    {
      AddNothing(Snapshot(), x);
      match x
      case ThreadStarted(thread) => if thread.Some? { threadId := thread; }
      case TurnStarted(turn) => if turn.Some? { activeTurnId := turn; }
      case UsageUpdated(u) => usage := u;
    }

    method HandleOther(x: Input)
      requires x.ApprovalRequested? || x.ErrorReported? || x.Unrecognized?
      modifies `approvalId, `lastError, `channel
      ensures Snapshot() == Next(isAstra, old(Snapshot()), x)
    {
      AddNothing(Snapshot(), x);
      match x
      case ApprovalRequested(approval) =>
        if approval.Some? {
          approvalId := approval;
          SendProgress(ApprovalWanted(approval.value));
        }
      case ErrorReported(message) =>
        lastError := Some(message);
        SendProgress(ErrorStatus(message));
      case Unrecognized =>
    }

    method CompleteTurn(x: Input)
      requires x.TurnCompleted?
      modifies this
      ensures Snapshot() == Next(isAstra, old(Snapshot()), x)
    {
      AddNothing(Snapshot(), x);
      if x.failed {
        turnFailed := true;
        if isAstra { RecordFailure(x); }
      }
      activeTurnId, slotOpen, approvalId := None, false, None;
    }

    /** What a failed Astra turn says of its commit: the session it had committed, and that this is not known. */
    method RecordFailure(x: Input)
      requires x.TurnCompleted? && x.failed
      modifies `committedFailureSessionId, `threadId, `lastError
      ensures committedFailureSessionId == if Commits(x) then x.session else old(committedFailureSessionId)
      ensures threadId == if Commits(x) then x.session else old(threadId)
      ensures lastError == Warned(old(lastError), WarningIn(true, x))
    {
      if x.committed && x.session.Some? && x.session.value != "" {
        committedFailureSessionId := x.session;
        threadId := x.session;
      }
      if x.commitUnknown {
        lastError := Some(lastError.UnwrapOr("") + COMMIT_UNKNOWN);
      }
    }

    method Result() returns (r: Report)
      ensures r == ReportOf(isAstra, Snapshot())
    {
      var session := if turnFailed && isAstra then committedFailureSessionId else threadId;
      r := Report(
        lastError.UnwrapOr(""),
        !turnFailed,
        if turnFailed then 1 else 0,
        session,
        if turnFailed || lastText == "" then None else Some(lastText),
        if toolCallsCount == 0 then None else Some(toolCallsCount),
        toolsUsed,
        usage);
    }
  }

  /** The report made of a turn's fields. */
  function ReportOf(astra: bool, s: Fields): Report {
    var Fields(names, content, standing) := s;
    Report(
      standing.error.UnwrapOr(""),
      !standing.failed,
      if standing.failed then 1 else 0,
      if standing.failed && astra then names.session else names.thread,
      if standing.failed || content.text == "" then None else Some(content.text),
      if content.toolCalls == 0 then None else Some(content.toolCalls),
      content.tools,
      content.usage)
  }
}
