# Verified model of the Astra gateway's protocols

A Dafny model of the parts of the Astra chat gateway that carry closed promises, with proofs of those promises.
`dafny verify dfyconfig.toml` checks everything.

**Claude turns and interrupts** (`ClaudePool*.dfy`). One persistent CLI process is shared by a turn owner, any number
of interrupting callers and the stdout reader. `ClaudePool` is a transition system at the granularity of single atomic
operations and lock sections, with a program counter per actor and a remote CLI that answers messages in order and
acknowledges a request at most once. `ClaudePoolSpec` says what an outside observer may expect, `ClaudePoolInvariant`
is the inductive invariant, `ClaudePoolTheorems` the results over all runs. What the promises need of the caller is
stated exactly. Results reach the right turn if and only if a turn begins only after the previous turn's result was
stored (`ClaudePoolOutside`); channels end with their results, and deliver exactly their own events, if and only if it
begins only after the reader loaded the generation for the previous turn's result line (`ClaudePoolChannels`,
`ClaudePoolDeliveries`). A caller that waits for the end of each channel keeps both. `ClaudePoolMarkers` gives the exact
condition under which the markers of a turn are moved for that turn only. `ClaudePoolExits` says exactly which channels
the reader's exits leave open, and how the removal of the handle from the pool ends them: the sender in the slot is
shared by the pool and the reader, and is dropped once both have let go of it. `ClaudePoolProgress` shows that no call
gets stuck. `ClaudePoolCalls` and `ClaudePoolProcesses` tie the steps to the methods that update the handle's fields and
the pool.

**Byte scanners** (`Sse*.dfy`, `RolloutScan.dfy`, `Splitting.dfy`). The incremental server-sent-events parser against
the split of the whole stream, with the exact class of streams on which chunk boundaries do not matter, framing round
trips, and what a stream delivers from its text to its events (`SseDelivery`); the backwards rollout scan against "the
last line that decodes".

**Usage ledger** (`UsageLedger.dfy`). Cumulative counters turned into per-turn charges, as a conservation law.

**Template interpreter** (`Template*.dfy`, `Text.dfy`). The line loop with one skip counter against a recursive
evaluator over trees; what each condition, list and variable stands for (`TemplateTags`).

**Codex client** (`Codex*.dfy`). The pending-request table as a transition system with classified outcomes
and no stuck callers (`CodexRpc*`), and the bookkeeping of a turn against whole-log definitions of every field (`CodexTurn*`).

**Transformations** (`Markdown*.dfy`, `MediaCrypto.dfy`, `Key*.dfy`, `LikeEscape.dfy`, `Utf8Text.dfy`,
`Dedup.dfy`, `ResetPolicy.dfy`). The WeChat Markdown rewriting, media encryption and key formats, LIKE escaping, UTF-8
truncation, the message deduplicator and the session reset policy.

Objects whose methods update fields are classes here, loops are loops, and each is proved against a specification
function; the properties are then proved of those functions. Where a promise turned out false in general, the model
keeps the code's behaviour and a lemma gives the exact condition under which the promise holds:

- a turn begun before the previous result is stored can be handed that result, and the runner lets
  that happen when an interrupted turn has not ended after three seconds
  (`ClaudePoolOutside.BeginsMisattributeExactlyWhenEarly`);
- a turn begun sooner than that can also lose its channel, or leave the running turn's open after its
  result (`ClaudePoolChannels.ChannelsDisagreeExactlyWhenBegunTooSoon`);
- a turn's channel does not end when the reader leaves by an error or by cancellation
  until the handle is removed from the pool (`ClaudePoolExits.LeftChannelsEndExactlyByRemoval`);
- chunk boundaries matter to the SSE parser on streams that mix the two separators in the wrong order
  (`SseChunks.CutsDoNotMatterExactlyWhenTidy`);
- a payload line that starts with a space or ends with a carriage return does not survive framing
  (`SseFraming.PayloadSurvivesExactlyWhenClean`);
- a counter that restarts is charged again from zero (`UsageLedger.ChargedOnceExactlyWhenRising`);
- the Markdown rewriting drops one trailing blank line each time
  and the carriage return of a line that had two (`MarkdownReturns.RewritingTwiceIsOnceExactly`);
- a truncated string exceeds its budget when its suffix does (`Utf8Text.TruncationFitsWhenItsSuffixDoes`);
- a late turn/start reply makes a finished Codex turn active again
  (`CodexTurnTheorems.FinishedTurnsAreIdleUnlessNamedAgain`);
- decryption is undone only for well-padded ciphertexts (`MediaCrypto.EncryptUndoesDecryptExactly`).

Inputs from outside are parameters: clocks are arguments, JSON parsing and event classification are arbitrary
functions on lines or blocks, the block cipher is any pair of functions on blocks that undo each other.

## Model

| member | source | states |
|---|---|---|
| `ClaudePoolTheorems.VerdictsAreRight` | crates/astra-gateway/src/cli_pool.rs:122-245 | In every interleaving where a turn begins only after the previous turn's result was stored, the result taken for turn t answers t's own message, and it is reported as interrupted exactly when it is no success and an interrupt issued during t was acknowledged before t's result line |
| `ClaudePoolOutside.BeginsMisattributeExactlyWhenEarly` | crates/astra-gateway/src/cli_pool.rs:122-245 | That discipline is exact: from any state of a disciplined run whose reader lives, beginning a turn can lead to a result being handed to a turn it does not answer if and only if the open channel's result has not been stored yet |
| `ClaudePoolOutside.EarlyBeginCanMisattribute` | crates/astra-gateway/src/cli_pool.rs:122-167 | Any early begin, whether it is refused, sent or fails to send, can be followed by a result being taken for the wrong turn |
| `ClaudePoolOutside.StoredResultIsDiscarded` | crates/astra-gateway/src/cli_pool.rs:124-129 | A begin between the storing of a result and the closing of its channel discards that result: it is gone at once and is never taken, in any continuation |
| `ClaudePoolOutside.BeginDiscardsEarlierResults` | crates/astra-gateway/src/cli_pool.rs:124-129 | Beginning a turn gives up the results of all earlier turns, also one that is stored and not yet taken: in no continuation of any kind is a result taken for them |
| `ClaudePoolChannels.DeliveriesAreExact` | crates/astra-gateway/src/cli_pool.rs:590-617 | In every run where a turn begins only after the generation for the previous turn's result line was loaded, what reached t's channel is a prefix, short by at most one event, of the progress lines taken up between t's registration and t's result line, in order; all of them once the channel is closed |
| `ClaudePoolDeliveries.DeliveriesFailExactlyWhenBegunTooSoon` | crates/astra-gateway/src/cli_pool.rs:128-135 | That is exact: from any state of such a run whose reader lives, beginning a turn can lead to events being lost or delivered on the wrong channel if and only if the generation for the open channel's result has not been loaded |
| `ClaudePoolChannels.ChannelsEndWithTheirResult` | crates/astra-gateway/src/cli_pool.rs:584-625 | In every such run the channel of a turn that was not aborted ends only with its result, with the output, or by removal of the handle once the reader is gone |
| `ClaudePoolTheorems.ClosedChannelHasItsResult` | crates/astra-gateway/src/cli_pool.rs:584-625 | If moreover a turn begins only after the previous result was stored, a closed channel has its result, the end of output or the removal of its handle behind it, and a result that was read is held for exactly that turn until it is taken or the next turn begins |
| `ClaudePoolChannels.HandledResultClosesItsChannel` | crates/astra-gateway/src/cli_pool.rs:584-600 | Conversely, in every such run a result line that has been dealt with leaves its turn's channel closed |
| `ClaudePoolChannels.ChannelsDisagreeExactlyWhenBegunTooSoon` | crates/astra-gateway/src/cli_pool.rs:128-135 | Exact again: beginning a turn can lead to a channel that ends without its result, or stays open after it, if and only if the generation for the open channel's result has not been loaded |
| `ClaudePoolChannels.LegalIsOrderly` | crates/astra-gateway/src/cli_pool.rs:89-91 | A caller that begins a turn only after the previous result was stored keeps this weaker discipline |
| `ClaudePoolTheorems.LateAckIsHarmless` | crates/astra-gateway/src/cli_pool.rs:203-213 | In every run, disciplined or not, an acknowledgement of a request issued in an earlier turn, also one that arrives after the caller timed out, changes neither marker for the current or any later turn |
| `ClaudePoolMarkers.MarkersMoveForTheirOwnTurn` | crates/astra-gateway/src/cli_pool.rs:521-533 | In every run under that weaker discipline the active marker leaves a turn only for that turn's own abort, result, or timely acknowledgement; the current turn becomes marked as interrupted only by a timely acknowledgement of its own request |
| `ClaudePoolMarkers.MarkersStrayExactlyWhenBegunTooSoon` | crates/astra-gateway/src/cli_pool.rs:128-133 | Exact too: from any state of such a run whose reader lives, beginning a turn can lead to a marker being moved for another turn or by a late acknowledgement if and only if the generation for the open channel's result has not been loaded and either no turn is active or the active one can still be acknowledged |
| `ClaudePoolMarkers.MarkersAreLostExactlyWhenLetInTooSoon` | crates/astra-gateway/src/cli_pool.rs:585-590 | With no turn active, beginning one can lead to its marker being cleared by another turn's result if and only if the generation for the open channel's result has not been loaded |
| `ClaudePoolMarkers.StepKeepsMarked` | crates/astra-gateway/src/cli_pool.rs:122-213 | Every step of such a run keeps the agreement of the active marker with the results and acknowledgements observed, of the waiters with the requests, and of both with the channels |
| `ClaudePoolInvariant.InitialInv` | crates/astra-gateway/src/cli_pool.rs:30-54 | The fresh handle satisfies the nine-part invariant on markers, slot, waiters, stored result and output in flight |
| `ClaudePoolInvariant.OwnerKeepsInv` | crates/astra-gateway/src/cli_pool.rs:122-167 | Every step of begin_turn and take_last_result under the discipline keeps the invariant |
| `ClaudePoolInvariant.AskerKeepsInv` | crates/astra-gateway/src/cli_pool.rs:169-214 | Every step of any number of concurrent callers of interrupt keeps it, including those that give up |
| `ClaudePoolInvariant.ReaderKeepsInv` | crates/astra-gateway/src/cli_pool.rs:555-640 | Every step of the reader loop and each of its exits keeps it |
| `ClaudePoolInvariant.RemoteKeepsInv` | crates/astra-gateway/src/cli_pool.rs:443-472 | Every output of a remote that answers messages in order and acknowledges a request at most once keeps it, and so do a closed stdin and cancellation |
| `ClaudePoolExits.SlotIsOpenExactlyWhenLogged` | crates/astra-gateway/src/cli_pool.rs:134-162 | In every run a channel has its sender in the slot if and only if its registration is the last that was observed of it (no abort, closing, end of output or other registration came after) and the pool or the reader still keeps the slot |
| `ClaudePoolExits.LeftChannelsEndExactlyByRemoval` | crates/astra-gateway/src/cli_pool.rs:216-221 | Once the reader is gone and no begin is under way, a channel has ended in a continuation if and only if it was ended in the log after its registration or the handle is removed from the pool |
| `ClaudePoolExits.GoneReadersLeaveOpenExactlyTheUnended` | crates/astra-gateway/src/cli_pool.rs:619-640 | Once the reader is gone, the channel of the turn registered last and not aborted is open if and only if neither its closing nor the end of output came after its registration and the handle was not removed |
| `ClaudePoolExits.ExitStrandsUntilRemoval` | crates/astra-gateway/src/cli_pool.rs:626-632 | After the error and cancel exits, taken between lines during a turn while the pool holds the handle, its channel ends in a continuation if and only if the handle is removed in it |
| `ClaudePoolExits.RemovalEndsEveryChannel` | crates/astra-gateway/src/cli_pool.rs:216-221 | After the removal of the handle, whatever happens, every channel has ended once the reader is gone, and the reader can always leave by steps of its own |
| `ClaudePoolExits.KilledTurnEndsUnanswered` | crates/astra-gateway/src/cli_pool.rs:216-221 | Killing the process between two lines of a turn ends its channel with neither a result nor an end of output |
| `ClaudePoolExits.EndOfOutputClosesTheRunningTurn` | crates/astra-gateway/src/cli_pool.rs:619-625 | The end of output closes it in every continuation |
| `ClaudePoolProgress.CallsCanFinish` | crates/astra-gateway/src/cli_pool.rs:122-221 | From any state the calls under way can finish, each by its own steps, and then the handle can be removed |
| `ClaudePoolProgress.EveryChannelCanEnd` | crates/astra-gateway/src/cli_pool.rs:216-221 | From any state there is a way to the end of every channel |
| `ClaudePoolProgress.TheEndComesAfterEveryResult` | crates/astra-gateway/src/cli_pool.rs:557-625 | In every run, by the time the reader sees the end of the output it has read every result written before |
| `ClaudePoolProgress.WaitersAreAccountedFor` | crates/astra-gateway/src/cli_pool.rs:178-214 | In every run a request is waited for only while its caller holds it, it may still be answered, or its answer is still to be acted on, and conversely while the reader is there; request identifiers are consecutive from 1 |
| `ClaudePoolProgress.NothingIsUndone` | crates/astra-gateway/src/cli_pool.rs:216-221 | In every run stdin is open until it is closed, the handle is in the pool until it is removed, and the tasks run until they are told to stop, by a cancellation, the removal, or the reader's exit |
| `ClaudePoolCalls.BeginRuns` | crates/astra-gateway/src/cli_pool.rs:122-167 | The uninterleaved steps of begin_turn have its net effect, in each of its three outcomes |
| `ClaudePoolCalls.TakeRuns` | crates/astra-gateway/src/cli_pool.rs:228-245 | The uninterleaved steps of take_last_result have its net effect |
| `ClaudePoolCalls.HandleRuns` | crates/astra-gateway/src/cli_pool.rs:559-618 | The uninterleaved steps of handling a line have its net effect, for each kind of line |
| `ClaudePoolCalls.ProcessHandle.BeginTurn` | crates/astra-gateway/src/cli_pool.rs:122-167 | The field updates of begin_turn give the net effect of its steps; it succeeds exactly when no turn is active and stdin is open |
| `ClaudePoolCalls.ProcessHandle.TakeLastResult` | crates/astra-gateway/src/cli_pool.rs:228-245 | Taking the result gives the net effect of its steps and reports the verdict it records |
| `ClaudePoolCalls.ProcessHandle.AcknowledgeInterrupt` | crates/astra-gateway/src/cli_pool.rs:521-533 | The acknowledgement is accepted exactly when it is positive and its turn is active; only then do both markers move |
| `ClaudePoolCalls.ProcessHandle.HandleLine` | crates/astra-gateway/src/cli_pool.rs:559-618 | The reader's field updates for a line give the net effect of its steps |
| `ClaudePoolProcesses.CliProcessPool.Kill` | crates/astra-gateway/src/cli_pool.rs:216-221 | The handle of the conversation is removed and told to stop, which is the step of the transition system; every other handle is unchanged |
| `ClaudePoolProcesses.CliProcessPool.BeginTurn` | crates/astra-gateway/src/cli_pool.rs:106-122 | A turn begins on the handle of the conversation if that is alive; one that is not is removed, and the turn begins on a fresh handle unless no process can be started; other conversations are untouched |
| `ClaudePoolOutside.OverlappingBeginsLeaveOpenExactlyUnlessLoaded` | crates/astra-gateway/src/cli_pool.rs:128-133 | A begin refused while a turn is active can leave that turn's channel open after its result line was dealt with if and only if the reader had not yet loaded the generation for that line |
| `ClaudePoolOutside.OverlappingBeginStalls` | crates/astra-gateway/src/cli_pool.rs:128-133 | From any state of any disciplined run with an active turn whose result line is not loaded, the refused begin is followed by a run that stores that turn's result and leaves its channel open |
| `ClaudePoolOutside.StalledStaysOpen` | crates/astra-gateway/src/cli_pool.rs:584-600 | From there that channel does not close, interrupts included, until another turn's channel is registered, the output ends or the handle is removed |
| `ClaudePoolOutside.StalledUntilAcknowledged` | crates/astra-gateway/src/cli_pool.rs:129-133 | While the stalled turn is active no other turn is let in either: before the output ends or the handle is removed only an acknowledgement can make room |
| `ClaudePoolOutside.EarlyBeginTakesTheOldResult` | crates/astra-gateway/src/cli_pool.rs:128-135 | An instance: a turn begun after an acknowledgement but before the interrupted result is ended by it and is handed it as a plain failure |
| `ClaudePoolOutside.PatientOwnerSeesTheInterruption` | crates/astra-gateway/src/cli_pool.rs:508-519 | The same interruption within the discipline is reported as interrupted |
| `Sse.FindFromIsFirst` | crates/astra/src/sse.rs:69-71 | The window found is an occurrence and the first one; none is reported only if there is none |
| `Sse.ParseEventBlock` | crates/astra/src/sse.rs:74-96 | The loop over the lines computes the data payloads joined by line feeds, or nothing if there is no data line |
| `Sse.SseParser.DrainCompleteEvents` | crates/astra/src/sse.rs:41-56 | The loop over the buffer returns the events of the complete blocks, or the first error, and leaves exactly what the specification leaves, also after an error |
| `Sse.SseParser.PushBytes` | crates/astra/src/sse.rs:19-22 | Pushing appends the chunk and drains |
| `Sse.SseParser.Finish` | crates/astra/src/sse.rs:25-39 | Finishing decodes the remainder as one block and empties the buffer unless it failed |
| `SseChunks.SplitLeaves` | crates/astra/src/sse.rs:41-67 | After a drain without errors the buffer is a suffix of what it was and holds no separator of either kind |
| `SseChunks.CutsDoNotMatterExactlyWhenTidy` | crates/astra/src/sse.rs:41-67 | For every byte stream: all ways of cutting it into chunks give the blocks of a single push if and only if every LF LF ends before every CR LF CR LF ends |
| `SseChunks.TidyStreamsCutAnywhere` | crates/astra/src/sse.rs:19-22 | On such streams any cutting gives the blocks of one push, from any buffer |
| `SseChunks.UntidyStreamsShowACut` | crates/astra/src/sse.rs:59-67 | On every other stream there is a cut into two chunks that gives different blocks |
| `SseChunks.OneSeparatorSplitsLeftToRight` | crates/astra/src/sse.rs:59-67 | With one kind of separator the blocks are those of the left-to-right split of the whole stream |
| `SseEvents.ParsingDecodesBlocks` | crates/astra/src/sse.rs:19-39 | Pushing any chunks and finishing decodes the fed blocks in order, up to the first error |
| `SseEvents.EventsDoNotDependOnCuts` | crates/astra/src/sse.rs:19-39 | On tidy streams, so on all streams with one kind of separator, events and first error do not depend on the cuts and are those of the split of the whole |
| `SseEvents.Parse` | crates/astra/src/sse.rs:99-107 | The parser object driven over a list of chunks computes that list of events |
| `SseFraming.FrameSplits` | crates/astra/src/sse.rs:41-67 | A framed list of payloads is split into one block each with nothing left over |
| `SseFraming.PayloadSurvivesExactlyWhenClean` | crates/astra/src/sse.rs:74-96 | A payload framed as data lines is read back as it was if and only if none of its lines starts with a space or ends with a carriage return (compare section 9.2.6 of the WHATWG HTML standard) |
| `SseFraming.FramedPayloadsComeBack` | crates/astra/src/sse.rs:41-96 | Any list of payloads, framed and cut anywhere, comes back as one block each, every clean payload unchanged |
| `SseDelivery.StreamsDeliverTheirEvents` | crates/astra/src/sse.rs:18-96 | A stream of events, each a block of data lines and other lines, the last one with or without its blank line, cut anywhere: if every block is UTF-8 and its joined data is accepted, exactly the accepted events come out, in order, and a block without a data line gives none |
| `SseDelivery.StreamsFailAtTheirFirstFault` | crates/astra/src/sse.rs:18-96 | If a block is not UTF-8, or its joined data is refused, the first such error comes out instead |
| `SseDelivery.FramedPayloadsAreDelivered` | crates/astra/src/sse.rs:18-96 | Clean payloads, framed and cut anywhere, give one event each, what the payload is accepted as; or the error of the first that is refused |
| `SseFraming.InclusiveLinesAre` | crates/astra/src/sse.rs:76 | The lines of any block, put together, are the block; each but the last ends with its only line feed |
| `RolloutScan.ReadLastUserMessage` | crates/astra-gateway/src/codex_sessions.rs:219-247 | For every content, chunk size of at least one and line decoder, the backwards scan terminates with the decoding of the last line that decodes, or none if none does |
| `RolloutScan.LastOf` | crates/astra-gateway/src/codex_sessions.rs:235-239 | Within a chunk the complete lines are tried from the last to the first |
| `RolloutScan.LastDecodingIsUnique` | crates/astra-gateway/src/codex_sessions.rs:219-247 | There is only one such result, so the chunk size does not matter |
| `UsageLedger.SumTokens` | crates/astra-gateway/src/cli_bridge.rs:1089-1098 | The sum of the parts that are there, saturating at 2^64-1; none exactly if no part is there |
| `UsageLedger.Ledger.Normalize` | crates/astra-gateway/src/cli_bridge.rs:1400-1495 | The field-by-field updates give the charge and the new baseline of the specification, for every mixture of missing fields, restarts and errors |
| `UsageLedger.ChargesAreConserved` | crates/astra-gateway/src/cli_bridge.rs:1384-1495 | For every run of frames and every counter: total charged = rise of the baseline + baselines abandoned at restarts - what an error frame seeded |
| `UsageLedger.BaselineIsLastReport` | crates/astra-gateway/src/cli_bridge.rs:1470-1494 | The baseline of a counter is its last report that counted |
| `UsageLedger.NothingAbandonedWhenRising` | crates/astra-gateway/src/cli_bridge.rs:1384-1390 | Nothing is abandoned if and only if the reports never fall, starting from the baseline |
| `UsageLedger.ChargedOnceExactlyWhenRising` | crates/astra-gateway/src/cli_bridge.rs:1400-1495 | From a fresh process a counter is charged exactly its last report less the seed if and only if its reports never fall |
| `UsageLedger.ErrorFramesAreFree` | crates/astra-gateway/src/cli_bridge.rs:1421-1437 | Once there is a baseline, inserting a zero-usage error frame anywhere charges nothing for it and changes no other charge and not the final baseline |
| `UsageLedger.FirstTurnsAreChargedTheirModels` | crates/astra-gateway/src/cli_bridge.rs:1103-1130 | Field by field: without a report per model the first turn is charged the usage of its frame; with one model what that model reports; one model more adds its reading, saturating, or changes nothing if the reading is missing |
| `UsageLedger.FirstTurnsAreChargedWhatIsReported` | crates/astra-gateway/src/cli_bridge.rs:1103-1130 | A field is charged if and only if some model reports it |
| `UsageLedger.LaterTurnsAreChargedTheRise` | crates/astra-gateway/src/cli_bridge.rs:1438-1451 | Field by field a later turn is charged what the model's reading rose by, the whole reading if it fell or was unknown, and nothing if it is missing |
| `UsageLedger.FailedTurnsAreChargedWhatTheyUsed` | crates/astra-gateway/src/cli_bridge.rs:1421-1437 | A turn whose provider failed is charged zeros if its own usage is missing or zero throughout, and otherwise as if it had not failed |
| `UsageLedger.ChargesAddUp` | crates/astra-gateway/src/cli_bridge.rs:1452-1468 | The cached tokens of a charge are those read from the cache; its total is the saturating sum of its four counters, and missing if and only if all four are |
| `Template.RenderTemplate` | crates/astra-gateway/src/gateway_context.rs:184-274 | The loop over the lines of the template with its single skip counter computes the line-by-line rendering |
| `Template.RenderingTextIsEvaluation` | crates/astra-gateway/src/gateway_context.rs:184-274 | For every well-nested tree the text of its lines renders to its recursive evaluation, trimmed |
| `Text.LinesOfWritten` | crates/astra-gateway/src/gateway_context.rs:186 | Lines written with a newline each are read back as they are |
| `Template.RenderingIsEvaluation` | crates/astra-gateway/src/gateway_context.rs:184-274 | For every well-nested tree of text, nested conditions and lists, rendering the printed lines equals recursive evaluation, up to the final trim |
| `Template.SkipTree` | crates/astra-gateway/src/gateway_context.rs:199-202 | While blocks are being skipped a whole printed tree produces nothing and leaves the counter as it was |
| `Template.RenderTree` | crates/astra-gateway/src/gateway_context.rs:195-271 | A printed tree followed by any lines renders to its evaluation followed by their rendering, at counter zero |
| `TemplateTags.ConditionsAskTheContext` | crates/astra-gateway/src/gateway_context.rs:276-288 | A line under a condition is shown if and only if the context's own field says so, for each of the eight names; under any other name never |
| `TemplateTags.ListsRangeOverTheContext` | crates/astra-gateway/src/gateway_context.rs:225-240 | A line under a list is shown once per item of the context's own field with the item in it, for each of the three names; under any other name never |
| `TemplateTags.VariablesAreShown` | crates/astra-gateway/src/gateway_context.rs:257-267 | A line that holds one variable renders with the context's own value in its place, or with its default, for each of the seven names |
| `TemplateTags.DigitsStandFor` | crates/astra-gateway/src/gateway_context.rs:267 | The number of cron jobs is shown by its decimal digits, without a leading zero |
| `Text.WhitespaceIs` | crates/astra-gateway/src/gateway_context.rs:192 | What trimming takes for whitespace, code point by code point |
| `TemplateTags.ValuesAreReplacedInTurn` | crates/astra-gateway/src/gateway_context.rs:257-267 | A value that is itself the tag of a variable later in the order is replaced in turn; the tag of an earlier one stays |
| `CodexRpcTheorems.OutcomesAreDetermined` | crates/astra-gateway/src/codex_app_pool.rs:601-634 | In every interleaving each request resolves at most once, with the outcome its observations determine: rejected as closed if never queued, unknown if expired, else its first reply, else unknown |
| `CodexRpcTheorems.OutcomesHaveReasons` | crates/astra-gateway/src/codex_app_pool.rs:601-634 | Success carries the result of a reply bearing the request's id; rejection means it was never queued or the server answered that id with an error; an unknown outcome means it was queued |
| `CodexRpcTheorems.RepliesDecide` | crates/astra-gateway/src/codex_app_pool.rs:872-883 | Conversely, for every resolution in every run: a request that was queued and did not expire succeeds with the result of the first reply bearing its id if that carries no error, and is rejected with the error if it does; its outcome is unknown if and only if it was queued and expired or got no reply; never queued means rejected as closed |
| `CodexRpcTheorems.AcceptedSteersNameTheirTurn` | crates/astra-gateway/src/codex_app_pool.rs:486-533 | A steer reported as accepted for turn t was queued expecting t, its own caller had found t active before that, and no other turn, and the reply to that very id named t |
| `CodexRpcTheorems.SteersAreReported` | crates/astra-gateway/src/codex_app_pool.rs:508-531 | For every resolution in every run, a steer is reported as accepted if its first reply carries no error and names the expected turn, as rejected with the error if it carries one, and as unknown if it names another turn or none, expired or got no reply |
| `CodexRpcTheorems.RepliesAreNotLost` | crates/astra-gateway/src/codex_app_pool.rs:872-883 | A waiting request finds the result or the error of its first reply in its channel once the reader has moved on |
| `CodexRpcProgress.EveryRequestCanBeResolved` | crates/astra-gateway/src/codex_app_pool.rs:601-635 | No caller gets stuck: from any state of any run each request is resolved by at most four steps of its own caller, without another reply, and its outcome is the one observed |
| `CodexRpcProgress.WaitingRequestsCanBeAnswered` | crates/astra-gateway/src/codex_app_pool.rs:872-883 | From any state of any run with an idle reader, the next response bearing the identifier of a waiting request resolves it with its result or its error |
| `CodexRpcProgress.DrainAnswersEveryone` | crates/astra-gateway/src/codex_app_pool.rs:1411-1418 | When the output ends every pending request is answered with an unknown outcome and no other channel changes |
| `CodexRpcProgress.ReaderGoesOn` | crates/astra-gateway/src/codex_app_pool.rs:872-883 | After routing any response the reader is idle again and goes on reading |
| `CodexRpcProgress.RunsAreOrdinary` | crates/astra-gateway/src/codex_app_pool.rs:601-621 | In every run identifiers are consecutive from 1, the queue is open until it is closed, and a caller that is done has the outcome observed |
| `CodexRpcTheorems.StepKeepsInv` | crates/astra-gateway/src/codex_app_pool.rs:601-634 | Every step of callers, reader, timeouts and drain keeps the invariant, and every resolution reports what was observed |
| `CodexRpcCalls.PendingResponses.Register` | crates/astra-gateway/src/codex_app_pool.rs:607-609 | A new request takes a fresh identifier, enters its sender and opens an empty channel, as the two steps of its caller do |
| `CodexRpcCalls.PendingResponses.Route` | crates/astra-gateway/src/codex_app_pool.rs:872-883 | Routing a response removes its sender and fills its channel with the result or the error, as the two reader steps do; no other channel changes |
| `CodexRpcCalls.PendingResponses.FailPending` | crates/astra-gateway/src/codex_app_pool.rs:1411-1418 | The drain loop, in any order, answers exactly the pending requests with an unknown outcome and leaves none pending |
| `CodexTurnState.BookkeepingIsRecomputation` | crates/astra-gateway/src/codex_app_pool.rs:992-1137 | For every sequence of inputs since the reset, the incremental fields equal the recomputation from the whole log |
| `CodexTurnState.TurnState.BeginTurn` | crates/astra-gateway/src/codex_app_pool.rs:133-148 | Everything but the thread is reset |
| `CodexTurnState.TurnState.HandleNotification` | crates/astra-gateway/src/codex_app_pool.rs:993-1137 | The updates for each kind of notification are those of the step function |
| `CodexTurnState.TurnState.CompleteTurn` | crates/astra-gateway/src/codex_app_pool.rs:1094-1115 | A completion fails the turn, records a committed Astra session and warns of an unknown commit state as the step function says, and closes the channel |
| `CodexTurnState.TurnState.MarkProcessFailed` | crates/astra-gateway/src/codex_app_pool.rs:1420-1433 | The end of the process fails the turn, sets the error and closes the channel |
| `CodexTurnState.TurnState.AcceptTurn` | crates/astra-gateway/src/codex_app_pool.rs:173-176 | The reply to turn/start names the active turn, whatever was heard before it |
| `CodexTurnState.TurnState.AnswerApproval` | crates/astra-gateway/src/codex_app_pool.rs:233-256 | The reply to an approval clears whichever approval is pending then |
| `CodexTurnState.TurnState.RecordTool` | crates/astra-gateway/src/codex_app_pool.rs:1389-1399 | The call is counted and its name is added if it is new |
| `CodexTurnState.TurnState.Result` | crates/astra-gateway/src/codex_app_pool.rs:258-304 | The report made of the fields |
| `CodexTurnTheorems.FailureSticks` | crates/astra-gateway/src/codex_app_pool.rs:258-304 | A turn is reported as failed, without text, if and only if something failed it, whatever came later |
| `CodexTurnTheorems.FailedAstraTurnNamesItsCommittedSession` | crates/astra-gateway/src/codex_app_pool.rs:265-269 | A failed Astra turn reports the session of its last committed failed completion, and none if and only if there was none |
| `CodexTurnTheorems.OtherTurnsReportTheirThread` | crates/astra-gateway/src/codex_app_pool.rs:265-269 | Every other turn reports the thread that was announced or committed last, and the one it began with if none was |
| `CodexTurnTheorems.ToolsAreReportedOnce` | crates/astra-gateway/src/codex_app_pool.rs:1389-1399 | The tools reported are exactly those completed in the log, each once, in the order of their first calls, and the count is the number of calls |
| `CodexTurnTheorems.StreamedTextIsNotRepeated` | crates/astra-gateway/src/codex_app_pool.rs:1029-1036 | Once text was streamed, the reported text is the concatenation of the deltas: completed messages add nothing |
| `CodexTurnTheorems.SilentTurnsUseTheirMessage` | crates/astra-gateway/src/codex_app_pool.rs:1070-1079 | If nothing was streamed before it, the first completed message with text is the text, followed by later deltas |
| `CodexTurnTheorems.SuccessfulTurnsReportTheirText` | crates/astra-gateway/src/codex_app_pool.rs:258-304 | A successful turn reports the concatenated deltas if text was streamed first, else its first non-empty completed message and the deltas after it; no text if and only if nothing brought any |
| `CodexTurnTheorems.ErrorsAreReported` | crates/astra-gateway/src/codex_app_pool.rs:1094-1134 | The error reported is the last one told, by a notification or the end of the process, followed by one warning for each unknown commit after it |
| `CodexTurnTheorems.UsageIsTheLastTold` | crates/astra-gateway/src/codex_app_pool.rs:1084-1093 | The usage reported is the last one told, and empty if none was |
| `CodexTurnTheorems.ProgressIsForwarded` | crates/astra-gateway/src/codex_app_pool.rs:1029-1134 | Each input adds its own event to the channel while no completion or failure has come; which inputs add which event, and which add none |
| `CodexTurnTheorems.ApprovalsStayUntilAnswered` | crates/astra-gateway/src/codex_app_pool.rs:1116-1125 | An approval is pending if and only if it was the last requested and neither an answer nor an end came since |
| `CodexTurnTheorems.TurnsStayActiveUntilTheyEnd` | crates/astra-gateway/src/codex_app_pool.rs:1024-1028 | A turn is active if and only if it was the last named and no end came since |
| `CodexTurnTheorems.ChannelEndsWithTheTurn` | crates/astra-gateway/src/codex_app_pool.rs:1112-1114 | The channel receives every event before the first completion or failure, in order, and nothing after it |
| `CodexTurnTheorems.FinishedTurnsAreIdleUnlessNamedAgain` | crates/astra-gateway/src/codex_app_pool.rs:173-176 | After the last completion or failure no turn is active if and only if no notification or late turn/start reply names one |
| `CodexTurnTheorems.LateAcceptanceLeavesATurnActive` | crates/astra-gateway/src/codex_app_pool.rs:173-176 | Such a late reply leaves a finished turn active |
| `Markdown.RewriteForWeixin` | crates/astra-gateway/src/markdown.rs:8-49 | The loop over lines, with its nested loop over a table block, computes the rewriting of the text |
| `Markdown.RewriteTableLines` | crates/astra-gateway/src/markdown.rs:94-140 | The loop over the data rows computes the description of a table, or leaves it alone if there is nothing to describe |
| `MarkdownTheorems.RewritingIsIdempotent` | crates/astra-gateway/src/markdown.rs:8-49 | For every list of lines, in or out of a code block, rewriting twice is rewriting once |
| `MarkdownReturns.RewritingTwiceIsOnceExactly` | crates/astra-gateway/src/markdown.rs:8-49 | For every text, rewriting twice is rewriting once if and only if the last of several lines of the text is not blank and no line but the last that is kept verbatim still ends with a carriage return |
| `MarkdownTexts.RewritingTextsIsIdempotentExactly` | crates/astra-gateway/src/markdown.rs:8-49 | For every text, rewriting twice is rewriting once if and only if the text rewritten once holds no CR LF and does not end with a newline; a second rewriting changes nothing but the ends of lines |
| `MarkdownTexts.RewritingTextsIsIdempotentUnlessBlankAtEnd` | crates/astra-gateway/src/markdown.rs:8-49 | For texts without carriage returns: if and only if the text does not end with two newlines |
| `MarkdownTexts.LinesJoinBackExactly` | crates/astra-gateway/src/markdown.rs:10-48 | Joining the lines of a text gives it back if and only if it holds no CR LF and does not end with a newline |
| `MarkdownTheorems.FencedLinesAreKept` | crates/astra-gateway/src/markdown.rs:14-23 | The fence lines and everything between them are kept verbatim and in order, and nothing else becomes fenced |
| `MarkdownTheorems.PrintedTablesAreDescribed` | crates/astra-gateway/src/markdown.rs:83-140 | A written table with a rule under its header is replaced by the non-empty cells of its rows, each under its own header label; a row that looks like a rule says nothing, and a table that says nothing stays |
| `MarkdownTheorems.CellsOfRow` | crates/astra-gateway/src/markdown.rs:83-92 | Splitting a written row gives back its cells, trimmed |
| `MarkdownPrinted.WrittenHeadersBecomeEmphasis` | crates/astra-gateway/src/markdown.rs:51-69 | A written header of level one becomes its title in corner brackets, one of any other level its title between double asterisks, without the whitespace around |
| `MarkdownPrinted.OtherHashesStay` | crates/astra-gateway/src/markdown.rs:51-63 | A line of hashes that no space follows, or no title, stays as it is |
| `MarkdownPrinted.WrittenTablesBecomeDescriptions` | crates/astra-gateway/src/markdown.rs:94-140 | A written table with one data row becomes, letter by letter, a line for each of one or two cells and one line for all of three or more, each cell after its own label; if the data row is a rule the table stays |
| `MarkdownPrinted.TablesNeedNoRule` | crates/astra-gateway/src/markdown.rs:100-104 | The same without a rule under the header |
| `MarkdownPrinted.EmptyCellsAreLeftOut` | crates/astra-gateway/src/markdown.rs:112-116 | An empty cell is left out together with its label |
| `MarkdownPrinted.LooseCellsAreLeftOut` | crates/astra-gateway/src/markdown.rs:112-116 | Cells without a label, and labels without a cell, are left out |
| `MarkdownPrinted.RowIsRule` | crates/astra-gateway/src/markdown.rs:76-81 | A written row is a rule if and only if its cells hold dashes, colons and spaces alone |
| `MarkdownPrinted.RuleExactly` | crates/astra-gateway/src/markdown.rs:76-81 | A line is a rule if and only if, trimmed, it begins with a bar and holds nothing but bars, dashes, colons and spaces |
| `MarkdownPrinted.TableRowExactly` | crates/astra-gateway/src/markdown.rs:71-74 | A line is a table row if and only if, trimmed, it begins with a bar and has at least two more bytes |
| `MarkdownPrinted.RowsAreDescribedInTurn` | crates/astra-gateway/src/markdown.rs:107-133 | The rows of a table are described one after the other |
| `Dedup.MessageDeduplicator.Check` | crates/astra-gateway/src/dedup.rs:26-37 | With a clock reading for each entry examined and one for the entry added: a message is new if and only if no message with its identifier is in the window of the accepted history at the deciding reading; the deque stays exactly that window |
| `Dedup.MessageDeduplicator.EvictExpired` | crates/astra-gateway/src/dedup.rs:39-47 | Judging each front entry by a reading of its own leaves exactly the window at the last reading used |
| `Dedup.RefusedExactlyWhenRecent` | crates/astra-gateway/src/dedup.rs:26-48 | With a monotone clock a check is refused if and only if its identifier is among the last max_size accepted messages with age at most ttl; exactly the messages that are not refused are accepted |
| `Dedup.WindowsAreDistinct` | crates/astra-gateway/src/dedup.rs:26-48 | The window never holds an identifier twice, is sorted by time and bounded by the capacity |
| `Dedup.RepeatsAreFarApart` | crates/astra-gateway/src/dedup.rs:26-48 | Two acceptances of one identifier are more than ttl or more than max_size acceptances apart |
| `Dedup.WindowIsTheRecent` | crates/astra-gateway/src/dedup.rs:39-47 | On a time-sorted history the window is exactly the entries recent both in number and in age |
| `Dedup.WindowShifts` | crates/astra-gateway/src/dedup.rs:32-36 | Accepting a message drops the oldest entry of a full window and nothing else; a maximum size of zero still keeps the new entry |
| `KeyFormats.EveryKeyComesBack` | crates/astra-gateway/src/weixin_media.rs:19-62 | Every 16-byte key is parsed back from its hexadecimal digits, from its Base64 and from the form encoded for the API |
| `KeyFormats.KeysAreFoundInThreeShapes` | crates/astra-gateway/src/weixin_media.rs:19-55 | For every text and key: the key is the result if and only if the trimmed text is its digits in any case, its Base64, or the Base64 of such digits |
| `KeyFormats.ShapesAreDisjoint` | crates/astra-gateway/src/weixin_media.rs:19-55 | No text is two of the shapes: their lengths are 32, 24 and 44 |
| `KeyFormats.Base64RoundTrip` | crates/astra-gateway/src/weixin_media.rs:30-33 | Decoding undoes encoding for all bytes (section 4 of RFC 4648) |
| `KeyFormats.Base64IsCanonical` | crates/astra-gateway/src/weixin_media.rs:30-33 | Strict decoding accepts nothing but what encoding produces |
| `KeyFormats.HexRoundTrip` | crates/astra-gateway/src/weixin_media.rs:58-62 | Decoding undoes hexadecimal encoding for all bytes (section 8 of RFC 4648), and the digits hold no whitespace |
| `KeyAlphabets.HexDigitsAre` | crates/astra-gateway/src/weixin_media.rs:21-22 | A hexadecimal digit is read in either case and written in lower case; no other character is one |
| `KeyAlphabets.ByteDigits` | crates/astra-gateway/src/weixin_media.rs:58-62 | Each byte is written as two digits, the higher half first |
| `KeyAlphabets.SymbolsAre` | crates/astra-gateway/src/weixin_media.rs:30-33 | The 64 symbols of Base64 in their order (section 4 of RFC 4648) |
| `KeyAlphabets.Base64IsWritten` | crates/astra-gateway/src/weixin_media.rs:58-62 | Base64 group by group, with two, one or no signs of padding (section 4 of RFC 4648) |
| `KeyAlphabets.GroupsAre` | crates/astra-gateway/src/weixin_media.rs:58-62 | Four symbols and three bytes are the same twenty-four bits |
| `MediaCrypto.MapInPlace` | crates/astra-gateway/src/weixin_media.rs:89-91 | The loop over the blocks of the buffer replaces each block where it stands by its image |
| `MediaCrypto.Encrypt` | crates/astra-gateway/src/weixin_media.rs:85-93 | The ciphertext is the padded plaintext, block by block (section 6.1 of NIST SP 800-38A) |
| `MediaCrypto.Decrypt` | crates/astra-gateway/src/weixin_media.rs:95-105 | The plaintext is the unpadded image of the blocks; what is no whole number of blocks is returned as it is |
| `MediaCrypto.DecryptUndoesEncrypt` | crates/astra-gateway/src/weixin_media.rs:85-109 | For every plaintext and every invertible block function decryption undoes encryption, and the ciphertext has the announced padded size |
| `MediaCrypto.EncryptUndoesDecryptExactly` | crates/astra-gateway/src/weixin_media.rs:85-105 | Encryption undoes decryption if and only if the ciphertext is whole blocks whose decryption is well padded |
| `MediaCrypto.PadIsWellPadded` | crates/astra-gateway/src/weixin_media.rs:64-83 | Padding gives whole blocks of the announced size, well padded, and unpadding undoes it (section 6.3 of RFC 5652) |
| `MediaCrypto.UnpadIsUndoneWhenWellPadded` | crates/astra-gateway/src/weixin_media.rs:71-83 | On whole blocks padding undoes unpadding if and only if the data is well padded |
| `MediaCrypto.UnpadExactly` | crates/astra-gateway/src/weixin_media.rs:71-83 | Unpadding takes away n trailing bytes of value n, for n from 1 to 16, and leaves everything else as it is |
| `MediaCrypto.CiphertextAt` | crates/astra-gateway/src/weixin_media.rs:85-93 | Each block of a ciphertext is the image of the block of padded plaintext in its place |
| `MediaCrypto.DecryptsWhatItCan` | crates/astra-gateway/src/weixin_media.rs:95-105 | What is no whole number of blocks comes back unchanged, and badly padded blocks come back with all their bytes |
| `LikeEscape.ReplacementsAreOnePass` | crates/astra-gateway/src/codex_sessions.rs:289-292 | The three successive replacements are one escaping pass |
| `LikeEscape.PatternMatchesPrefixes` | crates/astra-gateway/src/codex_sessions.rs:289-303 | For all strings an identifier is selected by the bound pattern if and only if the prefix begins it, up to ASCII case; a prefix holding a NUL selects only itself up to there |
| `LikeEscape.AlikeExactly` | crates/astra-gateway/src/codex_sessions.rs:289-303 | Characters match if they are equal or the two cases of one ASCII letter |
| `LikeEscape.TheOrderMattersExactlyForWildcards` | crates/astra-gateway/src/codex_sessions.rs:289-292 | Escaping the backslash last gives the same pattern if and only if the string holds neither wildcard |
| `Utf8Text.FloorCharBoundary` | crates/astra-gateway/src/text.rs:1-10 | The loop finds the greatest character boundary within the budget |
| `Utf8Text.CutsKeepAsManyCharactersAsFit` | crates/astra-gateway/src/text.rs:1-14 | On valid UTF-8 (section 3 of RFC 3629) the prefix is the encoding of the longest prefix of the characters that fits, and at most three bytes of the budget are left unused |
| `Utf8Text.BoundariesArePrefixes` | crates/astra-gateway/src/text.rs:6 | The boundaries are exactly the lengths of the encoded prefixes |
| `Utf8Text.ScalarBits` | crates/astra-gateway/src/text.rs:6 | Characters up to U+07FF are encoded in one or two bytes carrying their bits (section 3 of RFC 3629) |
| `Utf8Text.LongScalarBits` | crates/astra-gateway/src/text.rs:6 | Characters from U+0800 to U+FFFF are encoded in three |
| `Utf8Text.LongestScalarBits` | crates/astra-gateway/src/text.rs:6 | All others are encoded in four |
| `Utf8Text.TruncateWithSuffix` | crates/astra-gateway/src/text.rs:16-22 | A text within the budget is returned as it is; any other becomes a truncation |
| `Utf8Text.TruncationFitsWhenItsSuffixDoes` | crates/astra-gateway/src/text.rs:16-22 | A truncated text is within the budget if and only if the suffix itself is |
| `Utf8Text.TruncationIsText` | crates/astra-gateway/src/text.rs:16-22 | A truncation of valid text is valid text: a prefix of the characters, then the suffix |
| `ResetPolicy.CrossedExactly` | crates/astra-gateway/src/session_policy.rs:53-77 | A boundary was crossed if and only if the hour is at most 23 and some day's reset instant t satisfies a < t <= c |
| `ResetPolicy.CrossingIsAdditive` | crates/astra-gateway/src/session_policy.rs:53-77 | For a <= b <= c it was crossed on (a, c] if and only if it was on (a, b] or on (b, c] |
| `ResetPolicy.IdleTriggersASecondLate` | crates/astra-gateway/src/session_policy.rs:39-42 | The idle rule triggers if and only if the configured hours and one full second have passed |
| `ResetPolicy.DueExactly` | crates/astra-gateway/src/session_policy.rs:30-50 | Under each policy a session is due if and only if a reset instant of its hour lies after the last activity and not after now, or the idle hours and one full second have passed, or, for both, either |
| `ResetPolicy.DueStaysDue` | crates/astra-gateway/src/session_policy.rs:31-50 | A session that is due stays due until there is activity, under every policy |

## Left out

- ClaudePoolTheorems.VerdictsAreRight: stated for callers that begin a turn after the previous result was stored, which is the exact condition (ClaudePoolOutside.BeginsMisattributeExactlyWhenEarly).
- ClaudePoolTheorems.ClosedChannelHasItsResult: stated for the same callers, because an early begin hands the result to another turn.
- ClaudePoolMarkers.MarkersMoveForTheirOwnTurn: stated for callers that begin a turn after the generation for the previous turn's result was loaded; the exact condition is ClaudePoolMarkers.MarkersStrayExactlyWhenBegunTooSoon.
- CodexRpcTheorems.RepliesAreNotLost: speaks of requests still waiting; a reply that arrives after the timeout is dropped, as in the code.
- CodexTurnState.TurnState.RecordTool: the call count is unbounded, while the code's counter is 32 bits wide.
- RolloutScan.ReadLastUserMessage: the file's bytes are given; open, seek and read errors, which yield none, are not modelled.
- LikeEscape.PatternMatchesPrefixes: SQLite's limit on the length of a pattern is not modelled.
- MediaCrypto.Encrypt: AES-128 under a key is not part of this model; any pair of functions on blocks that undo each other takes its place, here and in MediaCrypto.Decrypt.
- CodexTurnState.TurnState.BeginTurn: the separately locked resets are one step; notifications that arrive among them are not modelled.
- UsageLedger.Ledger.Normalize: the cost field and its difference are not modelled, for the same reason as below.
- UsageLedger.ChargesAreConserved: token counters only; costs are floating-point numbers, for which exact conservation is false.
- The memory orderings of the atomics, which are taken to be sequentially consistent; the source loads and adds to the generation with relaxed ordering.
- Wrap-around of the 64-bit turn generations, request ids and control request numbers.
- Back-pressure of the bounded channels, and receivers dropped before their turn ends: an event that is sent counts as delivered.
- How a process is started, the clean-up of its configuration when it is killed, and the sweeps over all conversations; the removal of a handle and its replacement by a fresh one are modelled.
- System status output, stderr hints, session identifiers and the tool-call footer of a Claude result.
- The reasons given to callers of `interrupt`; a caller only leaves.
- JSON parsing: which field a notification's text, identifiers and error message come from, and the wording of tool names and parameters.
- Rejection of unsupported server requests, and the texts of most error messages.
- Reading skills and templates from files, and the fixed prompt texts.
- Downloading, uploading and URL construction for media; random keys.
- The session list, its paging and its ordering; only the matching of the prefix is modelled.
- Model cursor paging, the retry loop, the scheduler tick and the bridge's newline framing: simpler instances of what is proved here.
- Slash commands, access control, configuration, path and MIME tables, user-facing formatting.
