/** What a caller may conclude from the report of a Codex turn. */
module CodexTurnTheorems {
  import opened Wrappers
  import opened CodexTurn
  import opened CodexTurnState

  function Reported(astra: bool, before: Option<string>, log: seq<Input>): Report {
    ReportOf(astra, Follow(astra, Fresh(before), log))
  }

  lemma {:induction false} NothingDecidesAfter(astra: bool, f: Field, log: seq<Input>, k: nat)
    requires After(astra, f, log) <= k < |log|
    ensures !Decides(astra, f, log[k])
  {
    if k < |log| - 1 {
      NothingDecidesAfter(astra, f, log[..|log| - 1], k);
    }
  }

  lemma {:induction false} FailedMeansSomeFailure(log: seq<Input>)
    ensures Failed(log) <==> exists k :: 0 <= k < |log| && Fails(log[k])
  {
    if log != [] {
      FailedMeansSomeFailure(log[1..]);
      assert forall k :: 0 < k < |log| ==> log[k] == log[1..][k - 1];
    }
  }

  /** A turn is reported as failed exactly when something failed it, whatever came later. */
  lemma FailureSticks(astra: bool, before: Option<string>, log: seq<Input>)
    ensures var r := Reported(astra, before, log);
      && (r.success <==>
            forall k :: 0 <= k < |log| ==> !log[k].ProcessFailed? && !(log[k].TurnCompleted? && log[k].failed))
      && r.exitCode == (if r.success then 0 else 1)
      && (!r.success ==> r.text == None)
  {
    hide ErrorOf, ToolCalls, Distinct, UsageOf, ThreadOf, Delivered, Closed, ApprovalOf, CommittedSessionOf;
    hide ActiveTurnOf, Follow;
    BookkeepingIsRecomputation(astra, before, log);
    FailedMeansSomeFailure(log);
  }

  /** A failed completion that names the session it had committed. */
  predicate NamesSession(x: Input) {
    x.TurnCompleted? && x.failed && x.committed && x.session != None && x.session != Some("")
  }

  /** `k` is where the last committed failed completion is. */
  ghost predicate LastCommit(log: seq<Input>, k: int) {
    0 <= k < |log| && NamesSession(log[k]) && forall j :: k < j < |log| ==> !NamesSession(log[j])
  }

  /** A failed Astra turn reports the session of its last committed failed completion, or none if there is none. */
  lemma FailedAstraTurnNamesItsCommittedSession(before: Option<string>, log: seq<Input>)
    ensures var r := Reported(true, before, log);
      !r.success ==>
        && (forall k :: LastCommit(log, k) ==> r.session == log[k].session)
        && (r.session.Some? <==> exists k :: LastCommit(log, k))
        && (r.session == None <==> forall k :: 0 <= k < |log| ==> !NamesSession(log[k]))
  {
    hide ErrorOf, TextOf, ToolCalls, Distinct, UsageOf, ThreadOf, Failed, Delivered, Closed, ActiveTurnOf, ApprovalOf;
    hide Follow;
    BookkeepingIsRecomputation(true, before, log);
    var n := After(true, CommittedSession, log);
    forall k | n <= k < |log| ensures !Commits(log[k]) { NothingDecidesAfter(true, CommittedSession, log, k); }
    if n > 0 {
      assert LastCommit(log, n - 1);
    }
  }

  /** An input that announces a thread, or in which Astra commits a session; it names the thread from then on. */
  predicate NamesThread(astra: bool, x: Input) { (x.ThreadStarted? && x.thread.Some?) || (astra && NamesSession(x)) }

  function ThreadNamed(x: Input): Option<string>
    requires x.ThreadStarted? || x.TurnCompleted?
  {
    if x.ThreadStarted? then x.thread else x.session
  }

  ghost predicate LastNaming(astra: bool, log: seq<Input>, k: int) {
    0 <= k < |log| && NamesThread(astra, log[k]) && forall j :: k < j < |log| ==> !NamesThread(astra, log[j])
  }

  /** Every other turn, Astra or not, reports the thread named last, and the one it began with if none was named. */
  lemma OtherTurnsReportTheirThread(astra: bool, before: Option<string>, log: seq<Input>)
    ensures var r := Reported(astra, before, log);
      !astra || r.success ==>
        && (forall k :: LastNaming(astra, log, k) ==> r.session == ThreadNamed(log[k]))
        && ((forall k :: 0 <= k < |log| ==> !NamesThread(astra, log[k])) ==> r.session == before)
  {
    hide ErrorOf, TextOf, ToolCalls, Distinct, UsageOf, Failed, Delivered, Closed, ActiveTurnOf, ApprovalOf;
    hide CommittedSessionOf, Follow;
    BookkeepingIsRecomputation(astra, before, log);
    var n := After(astra, Thread, log);
    forall k | n <= k < |log| ensures !NamesThread(astra, log[k]) { NothingDecidesAfter(astra, Thread, log, k); }
  }

  // -------------------------------------------------------------------- tools

  /** Where a name is used first. */
  ghost predicate FirstUse(names: seq<string>, name: string, k: int) {
    0 <= k < |names| && names[k] == name && name !in names[..k]
  }

  /** The tools are the names used, each once, and nothing used first later stands before something used earlier. */
  ghost predicate InOrderOfFirstUse(tools: seq<string>, names: seq<string>) {
    && (forall name :: name in tools <==> name in names)
    && (forall i, j :: 0 <= i < j < |tools| ==> tools[i] != tools[j])
    && (forall i, j, a, b :: 0 <= i < j < |tools| && FirstUse(names, tools[i], a) && FirstUse(names, tools[j], b)
          ==> a < b)
  }

  lemma {:induction false} DistinctIsInOrder(names: seq<string>)
    ensures InOrderOfFirstUse(Distinct(names), names)
    decreases |names|
  {
    if names == [] {
    } else {
      var rest, last := names[..|names| - 1], names[|names| - 1];
      assert names == rest + [last];
      DistinctIsInOrder(rest);
      DistinctGrows(rest, last);
      var tools := Distinct(names);
      forall name ensures name in tools <==> name in names { DistinctMembers(names, name); }
      forall i, j, a, b | 0 <= i < j < |tools| && FirstUse(names, tools[i], a) && FirstUse(names, tools[j], b)
        ensures a < b
      {
        DistinctMembers(rest, tools[i]);
        assert tools[i] == Distinct(rest)[i];
        assert a < |rest| by {
          var k :| 0 <= k < |rest| && rest[k] == tools[i];
          assert names[k] == tools[i];
        }
        assert FirstUse(rest, tools[i], a) by { assert rest[..a] == names[..a]; }
        if b < |rest| {
          assert rest[..b] == names[..b];
          assert FirstUse(rest, tools[j], b);
          DistinctMembers(rest, tools[j]);
          assert j < |Distinct(rest)|;
        }
      }
    }
  }

  /** The tool calls that were completed, by where they stand in the log. */
  ghost function CallsIn(log: seq<Input>): set<int> { set k | 0 <= k < |log| && log[k].ToolCompleted? }

  /** Where a tool was used first. */
  ghost predicate FirstCall(log: seq<Input>, name: string, k: int) {
    0 <= k < |log| && log[k] == ToolCompleted(name) && ToolCompleted(name) !in log[..k]
  }

  lemma {:induction false} CallsAreCounted(log: seq<Input>)
    ensures |ToolCalls(log)| == |CallsIn(log)|
  {
    if log != [] {
      var before, last := log[..|log| - 1], log[|log| - 1];
      assert log == before + [last];
      CallsAreCounted(before);
      ToolCallsGrow(before, last);
      assert CallsIn(log) == CallsIn(before) + if last.ToolCompleted? then {|log| - 1} else {};
    }
  }

  lemma {:induction false} CallsAreNamed(log: seq<Input>, name: string)
    ensures name in ToolCalls(log) <==> ToolCompleted(name) in log
  {
    if log != [] {
      var before, last := log[..|log| - 1], log[|log| - 1];
      assert log == before + [last];
      CallsAreNamed(before, name);
      ToolCallsGrow(before, last);
    }
  }

  /** The names used first earlier in the log are used first earlier among the names. */
  lemma {:induction false} FirstCallsAreFirstUses(log: seq<Input>, name: string, k: int) returns (a: nat)
    requires FirstCall(log, name, k)
    ensures FirstUse(ToolCalls(log), name, a) && a == |ToolCalls(log[..k])|
  {
    var before, last := log[..|log| - 1], log[|log| - 1];
    assert log == before + [last];
    ToolCallsGrow(before, last);
    if k < |log| - 1 {
      assert before[..k] == log[..k] && FirstCall(before, name, k);
      a := FirstCallsAreFirstUses(before, name, k);
      assert ToolCalls(log)[..a] == ToolCalls(before)[..a];
    } else {
      assert log[..k] == before;
      a := |ToolCalls(before)|;
      CallsAreNamed(before, name);
      assert ToolCalls(log)[..a] == ToolCalls(before);
    }
  }

  lemma {:induction false} MoreCallsLater(log: seq<Input>, j: nat, k: nat)
    requires j <= k <= |log|
    ensures |ToolCalls(log[..j])| <= |ToolCalls(log[..k])|
    decreases k - j
  {
    if j < k {
      MoreCallsLater(log, j, k - 1);
      assert log[..k] == log[..k - 1] + [log[k - 1]];
      ToolCallsGrow(log[..k - 1], log[k - 1]);
    }
  }

  /** The tools reported are those that were called, each once, in the order of their first calls; all calls count. */
  lemma ToolsAreReportedOnce(astra: bool, before: Option<string>, log: seq<Input>)
    ensures var r := Reported(astra, before, log);
      && (forall name :: name in r.toolsUsed <==> ToolCompleted(name) in log)
      && (forall i, j :: 0 <= i < j < |r.toolsUsed| ==> r.toolsUsed[i] != r.toolsUsed[j])
      && (forall i, j, a, b :: 0 <= i < j < |r.toolsUsed| ==>
            FirstCall(log, r.toolsUsed[i], a) && FirstCall(log, r.toolsUsed[j], b) ==> a < b)
      && r.toolCallsCount == (if CallsIn(log) == {} then None else Some(|CallsIn(log)|))
  {
    BookkeepingIsRecomputation(astra, before, log);
    DistinctIsInOrder(ToolCalls(log));
    CallsAreCounted(log);
    forall name ensures name in ToolCalls(log) <==> ToolCompleted(name) in log { CallsAreNamed(log, name); }
    var tools := Distinct(ToolCalls(log));
    forall i, j, a, b | 0 <= i < j < |tools| && FirstCall(log, tools[i], a) && FirstCall(log, tools[j], b)
      ensures a < b
    {
      var x := FirstCallsAreFirstUses(log, tools[i], a);
      var y := FirstCallsAreFirstUses(log, tools[j], b);
      if b <= a { MoreCallsLater(log, b, a); }
    }
  }

  // --------------------------------------------------------------------- text

  /** Once something was streamed, completed messages add nothing: the text is the deltas. */
  lemma {:induction false} StreamedTextIsNotRepeated(log: seq<Input>, k: nat)
    requires k < |log| && log[k].TextDelta? && TextIn(log[k]) != ""
    requires forall j :: 0 <= j < k ==> TextIn(log[j]) == ""
    ensures TextOf(log) == Deltas(log)
  {
    if k > 0 {
      assert forall j :: 0 <= j < k - 1 ==> log[1..][j] == log[j + 1];
      StreamedTextIsNotRepeated(log[1..], k - 1);
      assert "" + Deltas(log[1..]) == Deltas(log[1..]);
    }
  }

  /** If nothing was streamed before it, the first completed message that has text is the text, with later deltas. */
  lemma {:induction false} SilentTurnsUseTheirMessage(log: seq<Input>, k: nat)
    requires k < |log| && log[k].MessageCompleted? && TextIn(log[k]) != ""
    requires forall j :: 0 <= j < k ==> TextIn(log[j]) == ""
    ensures TextOf(log) == TextIn(log[k]) + Deltas(log[k + 1..])
  {
    if k > 0 {
      assert forall j :: 0 <= j < k - 1 ==> log[1..][j] == log[j + 1];
      SilentTurnsUseTheirMessage(log[1..], k - 1);
      assert log[1..][k..] == log[k + 1..];
    }
  }

  /** What the deltas say, one after the other. */
  function Streamed(log: seq<Input>): string {
    if log == [] then ""
    else
      (match log[0]
       case TextDelta(Some(t)) => t
       case _ => "")
      + Streamed(log[1..])
  }

  /** A delta or a completed message that is not empty. */
  predicate BringsText(x: Input) {
    || (x.TextDelta? && x.delta.Some? && x.delta.value != "")
    || (x.MessageCompleted? && x.text.Some? && x.text.value != "")
  }

  ghost predicate FirstText(log: seq<Input>, k: int) {
    0 <= k < |log| && BringsText(log[k]) && forall j :: 0 <= j < k ==> !BringsText(log[j])
  }

  lemma {:induction false} StreamedIsDeltas(log: seq<Input>)
    ensures Streamed(log) == Deltas(log)
  {
    if log != [] { StreamedIsDeltas(log[1..]); }
  }

  lemma {:induction false} SilentTurnsHaveNoText(log: seq<Input>)
    requires forall k :: 0 <= k < |log| ==> TextIn(log[k]) == ""
    ensures TextOf(log) == ""
  {
    if log != [] {
      assert forall k :: 0 <= k < |log| - 1 ==> log[1..][k] == log[k + 1];
      SilentTurnsHaveNoText(log[1..]);
    }
  }

  lemma BringingIsText(x: Input)
    ensures BringsText(x) <==> TextIn(x) != ""
    ensures BringsText(x) ==> TextIn(x) == if x.TextDelta? then x.delta.value else x.text.value
  {
  }

  /**
   A successful turn reports what was streamed, if it streamed before any message was completed; else its first
   completed message that is not empty, and what was streamed after it; and no text exactly if nothing brought any.
   */
  lemma SuccessfulTurnsReportTheirText(astra: bool, before: Option<string>, log: seq<Input>)
    ensures var r := Reported(astra, before, log);
      r.success ==>
        && (forall k :: FirstText(log, k) ==>
              r.text == Some(if log[k].TextDelta? then Streamed(log) else log[k].text.value + Streamed(log[k + 1..])))
        && (r.text == None <==> forall k :: 0 <= k < |log| ==> !BringsText(log[k]))
  {
    hide COMMIT_UNKNOWN;
    hide ErrorOf, ToolCalls, Distinct, UsageOf, ThreadOf, Delivered, Closed, ApprovalOf, CommittedSessionOf;
    hide ActiveTurnOf, Follow, Failed, TextOf, TextIn, Deltas, Streamed;
    BookkeepingIsRecomputation(astra, before, log);
    forall k | 0 <= k < |log|
      ensures BringsText(log[k]) <==> TextIn(log[k]) != ""
    {
      BringingIsText(log[k]);
    }
    forall k | FirstText(log, k)
      ensures TextOf(log) != ""
      ensures TextOf(log) == if log[k].TextDelta? then Streamed(log) else log[k].text.value + Streamed(log[k + 1..])
    {
      BringingIsText(log[k]);
      FirstTextIs(log, k);
    }
    if forall k :: 0 <= k < |log| ==> !BringsText(log[k]) {
      SilentTurnsHaveNoText(log);
    } else {
      var k := FirstTextExists(log);
    }
  }

  lemma FirstTextIs(log: seq<Input>, k: nat)
    requires FirstText(log, k) && forall j :: 0 <= j < |log| ==> (BringsText(log[j]) <==> TextIn(log[j]) != "")
    ensures TextOf(log) != ""
    ensures TextOf(log) == if log[k].TextDelta? then Streamed(log) else log[k].text.value + Streamed(log[k + 1..])
  {
    StreamedIsDeltas(log);
    StreamedIsDeltas(log[k + 1..]);
    BringingIsText(log[k]);
    if log[k].TextDelta? {
      StreamedTextIsNotRepeated(log, k);
      DeltasAreNotEmpty(log, k);
    } else {
      SilentTurnsUseTheirMessage(log, k);
    }
  }

  lemma {:induction false} DeltasAreNotEmpty(log: seq<Input>, k: nat)
    requires k < |log| && log[k].TextDelta? && TextIn(log[k]) != ""
    ensures Deltas(log) != ""
  {
    if k > 0 {
      assert log[1..][k - 1] == log[k];
      DeltasAreNotEmpty(log[1..], k - 1);
    }
  }

  lemma {:induction false} FirstTextExists(log: seq<Input>) returns (k: nat)
    requires exists j :: 0 <= j < |log| && BringsText(log[j])
    ensures FirstText(log, k)
  {
    if BringsText(log[0]) {
      k := 0;
    } else {
      var j :| 0 <= j < |log| && BringsText(log[j]);
      assert log[1..][j - 1] == log[j];
      var later := FirstTextExists(log[1..]);
      k := later + 1;
      assert forall i :: 0 < i < |log| ==> log[i] == log[1..][i - 1];
    }
  }

  // ----------------------------------------------------------- the error and the usage

  /** How often a failed Astra completion left its commit unknown. */
  function UnknownCommits(astra: bool, log: seq<Input>): nat {
    if log == [] then 0
    else
      (if astra && log[0].TurnCompleted? && log[0].failed && log[0].commitUnknown then 1 else 0)
      + UnknownCommits(astra, log[1..])
  }

  function Times(n: nat, s: string): string { if n == 0 then "" else s + Times(n - 1, s) }

  lemma {:induction false} WarningsAreCounted(astra: bool, log: seq<Input>)
    ensures Warnings(astra, log) == Times(UnknownCommits(astra, log), COMMIT_UNKNOWN)
  {
    hide COMMIT_UNKNOWN;
    if log != [] { WarningsAreCounted(astra, log[1..]); }
  }

  predicate TellsError(x: Input) { x.ErrorReported? || x.ProcessFailed? }

  ghost predicate LastTold(log: seq<Input>, k: int) {
    0 <= k < |log| && TellsError(log[k]) && forall j :: k < j < |log| ==> !TellsError(log[j])
  }

  /** The error is the last one told, with one warning for each unknown commit after it; without one, the warnings. */
  lemma ErrorsAreReported(astra: bool, before: Option<string>, log: seq<Input>)
    ensures var r := Reported(astra, before, log);
      && (forall k :: LastTold(log, k) ==>
            r.error == (if log[k].ErrorReported? then log[k].message else log[k].error)
                       + Times(UnknownCommits(astra, log[k + 1..]), COMMIT_UNKNOWN))
      && ((forall k :: 0 <= k < |log| ==> !TellsError(log[k])) ==>
            r.error == Times(UnknownCommits(astra, log), COMMIT_UNKNOWN))
  {
    hide COMMIT_UNKNOWN;
    hide TextOf, ToolCalls, Distinct, UsageOf, ThreadOf, Failed, Delivered, Closed, ActiveTurnOf, ApprovalOf;
    hide CommittedSessionOf, Follow, Warnings, Times, UnknownCommits;
    BookkeepingIsRecomputation(astra, before, log);
    var n := After(false, LastError, log);
    forall k | n <= k < |log| ensures !TellsError(log[k]) { NothingDecidesAfter(false, LastError, log, k); }
    WarningsAreCounted(astra, log[n..]);
    var warnings := Warnings(astra, log[n..]);
    assert ErrorOf(astra, log).UnwrapOr("") == LastErrorIn(log).UnwrapOr("") + warnings by {
      if warnings == "" { assert LastErrorIn(log).UnwrapOr("") + "" == LastErrorIn(log).UnwrapOr(""); }
    }
    forall k | LastTold(log, k) ensures k == n - 1 { assert n > 0 ==> TellsError(log[n - 1]); }
    if n == 0 { assert log[0..] == log && "" + warnings == warnings; }
  }

  ghost predicate LastUsage(log: seq<Input>, k: int) {
    0 <= k < |log| && log[k].UsageUpdated? && forall j :: k < j < |log| ==> !log[j].UsageUpdated?
  }

  /** The usage reported is the last that was told, and nothing if none was. */
  lemma UsageIsTheLastTold(astra: bool, before: Option<string>, log: seq<Input>)
    ensures var r := Reported(astra, before, log);
      && (forall k :: LastUsage(log, k) ==> r.usage == log[k].usage)
      && ((forall k :: 0 <= k < |log| ==> !log[k].UsageUpdated?) ==>
            r.usage == Usage(None, None, None, None, None, None, None))
  {
    hide COMMIT_UNKNOWN;
    hide ErrorOf, TextOf, ToolCalls, Distinct, ThreadOf, Failed, Delivered, Closed, ActiveTurnOf, ApprovalOf;
    hide CommittedSessionOf, Follow;
    BookkeepingIsRecomputation(astra, before, log);
    var n := After(false, UsageField, log);
    forall k | n <= k < |log| ensures !log[k].UsageUpdated? { NothingDecidesAfter(false, UsageField, log, k); }
  }

  // ------------------------------------------------------------ progress of a turn

  /** What is sent on the channel for an input, while the turn is not over. */
  predicate Sends(x: Input, sent: seq<Event>) {
    && (x.TextDelta? && x.delta.Some? && x.delta.value != "" ==> sent == [Token(x.delta.value)])
    && (x.ReasoningDelta? && x.delta.Some? && x.delta.value != "" ==> sent == [Reasoning(x.summary, x.delta.value)])
    && ((x.ItemStarted? || x.OtherCompleted?) && x.progress.Some? ==> sent == [x.progress.value])
    && (x.ToolCompleted? ==> sent == [ToolDone(x.name)])
    && (x.ApprovalRequested? && x.approval.Some? ==> sent == [ApprovalWanted(x.approval.value)])
    && (x.ErrorReported? ==> sent == [ErrorStatus(x.message)])
  }

  /** Everything else, and an input without what it should bring, sends nothing. */
  predicate SendsNothing(x: Input) {
    || x.ThreadStarted? || x.TurnStarted? || x.TurnAccepted? || x.MessageCompleted? || x.UsageUpdated?
    || x.TurnCompleted? || x.ApprovalAnswered? || x.ProcessFailed? || x.Unrecognized?
    || ((x.TextDelta? || x.ReasoningDelta?) && (x.delta == None || x.delta == Some("")))
    || ((x.ItemStarted? || x.OtherCompleted?) && x.progress == None)
    || (x.ApprovalRequested? && x.approval == None)
  }

  /** Each input adds its own event to the channel as long as no completion or failure came, and then none does. */
  lemma ProgressIsForwarded(astra: bool, before: Option<string>, log: seq<Input>, x: Input)
    ensures var sent := Follow(astra, Fresh(before), log).standing.channel;
      var more := Follow(astra, Fresh(before), log + [x]).standing.channel;
      var over := exists k :: 0 <= k < |log| && (log[k].TurnCompleted? || log[k].ProcessFailed?);
      && sent <= more && (over || SendsNothing(x) ==> more == sent)
      && (!over && !SendsNothing(x) ==> Sends(x, more[|sent|..]))
  {
    hide COMMIT_UNKNOWN;
    hide ErrorOf, TextOf, ToolCalls, Distinct, UsageOf, ThreadOf, Failed, Delivered, ActiveTurnOf, ApprovalOf;
    hide CommittedSessionOf, Follow;
    BookkeepingIsRecomputation(astra, before, log);
    BookkeepingIsRecomputation(astra, before, log + [x]);
    DeliveredGrows(log, x);
    ClosedMeansSomeEnd(log);
    assert Delivered(log) + [] == Delivered(log);
  }

  lemma {:induction false} ClosedMeansSomeEnd(log: seq<Input>)
    ensures Closed(log) <==> exists k :: 0 <= k < |log| && (log[k].TurnCompleted? || log[k].ProcessFailed?)
  {
    if log != [] {
      ClosedMeansSomeEnd(log[1..]);
      assert forall k :: 0 < k < |log| ==> log[k] == log[1..][k - 1];
    }
  }

  /** An approval is pending exactly if it was the last requested and neither an answer nor an end came since. */
  lemma ApprovalsStayUntilAnswered(astra: bool, before: Option<string>, log: seq<Input>, id: string)
    ensures Follow(astra, Fresh(before), log).names.approval == Some(id) <==>
            exists k :: 0 <= k < |log| && log[k] == ApprovalRequested(Some(id))
                        && forall j :: k < j < |log| ==>
                             !log[j].ApprovalAnswered? && !log[j].TurnCompleted? && !log[j].ProcessFailed?
                             && !(log[j].ApprovalRequested? && log[j].approval.Some?)
  {
    hide COMMIT_UNKNOWN;
    hide ErrorOf, TextOf, ToolCalls, Distinct, UsageOf, ThreadOf, Failed, Delivered, Closed, ActiveTurnOf;
    hide CommittedSessionOf, Follow;
    BookkeepingIsRecomputation(astra, before, log);
    var n := After(false, Approval, log);
    forall k | n <= k < |log| ensures !Decides(false, Approval, log[k]) {
      NothingDecidesAfter(false, Approval, log, k);
    }
    if k :| 0 <= k < |log| && log[k] == ApprovalRequested(Some(id))
            && forall j :: k < j < |log| ==>
                 !log[j].ApprovalAnswered? && !log[j].TurnCompleted? && !log[j].ProcessFailed?
                 && !(log[j].ApprovalRequested? && log[j].approval.Some?) {
      assert k == n - 1;
    }
  }

  /** Turn names the turn at k, and neither an end nor another naming comes after. */
  ghost predicate NamedLast(log: seq<Input>, turn: string, k: int) {
    && 0 <= k < |log| && (log[k] == TurnStarted(Some(turn)) || log[k] == TurnAccepted(Some(turn)))
    && forall j :: k < j < |log| ==> !log[j].TurnCompleted? && !log[j].ProcessFailed? && !NamesATurn(log[j])
  }

  lemma NamedLastIs(log: seq<Input>, turn: string, n: nat)
    requires n == After(false, ActiveTurn, log)
    ensures (exists k :: NamedLast(log, turn, k)) <==>
            n > 0 && !Closes(log[n - 1]) && log[n - 1].turn == Some(turn)
  {
    forall k | n <= k < |log| ensures !Decides(false, ActiveTurn, log[k]) {
      NothingDecidesAfter(false, ActiveTurn, log, k);
    }
    hide After;
    if k :| NamedLast(log, turn, k) {
      assert Decides(false, ActiveTurn, log[k]);
      assert k == n - 1;
    }
    if n > 0 && !Closes(log[n - 1]) && log[n - 1].turn == Some(turn) {
      assert NamedLast(log, turn, n - 1);
    }
  }

  /** A turn is active exactly if it was named last, by a notification or a reply, and no end came since. */
  lemma TurnsStayActiveUntilTheyEnd(astra: bool, before: Option<string>, log: seq<Input>, turn: string)
    ensures Follow(astra, Fresh(before), log).names.activeTurn == Some(turn) <==> exists k :: NamedLast(log, turn, k)
  {
    hide ErrorOf, TextOf, ToolCalls, Distinct, UsageOf, ThreadOf, Failed, Delivered, Closed, ApprovalOf;
    hide CommittedSessionOf, Follow, NamedLast, After;
    BookkeepingIsRecomputation(astra, before, log);
    NamedLastIs(log, turn, After(false, ActiveTurn, log));
  }

  // ------------------------------------------------------------ the end of a turn

  function Events(log: seq<Input>): seq<Event> {
    if log == [] then [] else EventIn(log[0]) + Events(log[1..])
  }

  /** The channel gets every event before the first completion or failure, in order, and nothing after it. */
  lemma {:induction false} ChannelEndsWithTheTurn(log: seq<Input>, k: nat)
    requires k < |log| && Closes(log[k]) && forall j :: 0 <= j < k ==> !Closes(log[j])
    ensures Delivered(log) == Events(log[..k])
  {
    if k > 0 {
      assert forall j :: 0 <= j < k - 1 ==> log[1..][j] == log[j + 1];
      ChannelEndsWithTheTurn(log[1..], k - 1);
      assert log[..k][1..] == log[1..][..k - 1];
    }
  }

  predicate NamesATurn(x: Input) { (x.TurnStarted? || x.TurnAccepted?) && x.turn.Some? }

  /**
   After a turn's last completion or failure there is no active turn exactly as long as no notification or late
   turn/start reply names one.
   */
  lemma FinishedTurnsAreIdleUnlessNamedAgain(astra: bool, before: Option<string>, log: seq<Input>, k: nat)
    requires k < |log| && Closes(log[k]) && forall j :: k < j < |log| ==> !Closes(log[j])
    ensures Follow(astra, Fresh(before), log).names.activeTurn == None <==>
            forall j :: k < j < |log| ==> !NamesATurn(log[j])
  {
    hide ErrorOf, TextOf, ToolCalls, Distinct, UsageOf, ThreadOf, Failed, Delivered, Closed, ApprovalOf;
    hide CommittedSessionOf, Follow;
    BookkeepingIsRecomputation(astra, before, log);
    var n := After(false, ActiveTurn, log);
    forall j | n <= j < |log| ensures !NamesATurn(log[j]) && !Closes(log[j]) {
      NothingDecidesAfter(false, ActiveTurn, log, j);
    }
    assert k <= n - 1;
  }

  /** Such a reply exists: turn/start may be answered after the turn has already completed. */
  lemma LateAcceptanceLeavesATurnActive(turn: string)
    ensures var s := Follow(true, Fresh(None), [TurnCompleted(false, false, None, false), TurnAccepted(Some(turn))]);
      !s.standing.slotOpen && s.names.activeTurn == Some(turn)
  {
    var log := [TurnCompleted(false, false, None, false), TurnAccepted(Some(turn))];
    assert log[..1] == [log[0]] && log[..1][..0] == [];
    assert Follow(true, Fresh(None), log[..1]) == Next(true, Follow(true, Fresh(None), log[..1][..0]), log[0]);
  }
}
