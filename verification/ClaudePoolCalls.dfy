/**
 The calls of the handle run without interleaving: the action sequence each call performs, its net effect,
 and the imperative handle whose methods have that effect.
 */
module ClaudePoolCalls {
  import opened Wrappers
  import opened ClaudePool

  // ------------------------------------------------------------ running scripts

  lemma RunFirst(s: State, a: Action, rest: seq<Action>)
    requires Enabled(s, a) && Possible(Step(s, a), rest)
    ensures Possible(s, [a] + rest) && Run(s, [a] + rest) == Run(Step(s, a), rest)
  {
    assert ([a] + rest)[1..] == rest;
  }

  lemma RunOne(s: State, a: Action)
    requires Enabled(s, a)
    ensures Possible(s, [a]) && Run(s, [a]) == Step(s, a)
  {
    assert [a][1..] == [];
  }

  lemma RunAppend(s: State, first: seq<Action>, later: seq<Action>)
    requires Possible(s, first) && Possible(Run(s, first), later)
    ensures Possible(s, first + later) && Run(s, first + later) == Run(Run(s, first), later)
    decreases |first|
  {
    if first == [] {
      assert first + later == later;
    } else {
      assert (first + later)[0] == first[0] && (first + later)[1..] == first[1..] + later;
      RunAppend(Step(s, first[0]), first[1..], later);
    }
  }

  lemma RunThree(s: State, a: Action, b: Action, c: Action)
    requires Enabled(s, a) && Enabled(Step(s, a), b) && Enabled(Step(Step(s, a), b), c)
    ensures Possible(s, [a, b, c]) && Run(s, [a, b, c]) == Step(Step(Step(s, a), b), c)
  {
    var t, u := Step(s, a), Step(Step(s, a), b);
    RunOne(u, c);
    RunFirst(t, b, [c]);
    assert [b, c] == [b] + [c];
    RunFirst(s, a, [b, c]);
    assert [a, b, c] == [a] + [b, c];
  }

  lemma RunTwo(s: State, a: Action, b: Action)
    requires Enabled(s, a) && Enabled(Step(s, a), b)
    ensures Possible(s, [a, b]) && Run(s, [a, b]) == Step(Step(s, a), b)
  {
    RunOne(Step(s, a), b);
    RunFirst(s, a, [b]);
    assert [a, b] == [a] + [b];
  }

  // ------------------------------------------------------------------ begin_turn

  function BeginScript(s: State): seq<Action> {
    [Own(BeginClear), Own(BeginNumber), Own(BeginActivate)]
    + if s.active != 0 then []
      else [Own(BeginSlot), Own(BeginSend)] + if s.stdinOpen then [] else [Own(BeginDeactivate), Own(BeginCloseSlot)]
  }

  /** The effect of `begin_turn` on a live process. */
  function Begun(s: State): State {
    var t := s.generation + 1;
    if s.active != 0 then s.(generation := t, lastResult := None)
    else if s.stdinOpen then
      s.(generation := t, lastResult := None, active := t, slotTurn := t, slotOpen := true,
         owed := s.owed + [t], log := s.log + [Opened(t)])
    else
      s.(generation := t, lastResult := None, slotTurn := t, slotOpen := false,
         log := s.log + [Opened(t)] + [Aborted(t)])
  }

  const NUMBERING := [Own(BeginClear), Own(BeginNumber), Own(BeginActivate)]

  /** The state once the turn has its number. */
  function Counted(s: State): State {
    s.(lastResult := None, generation := s.generation + 1, owner := Numbered(s.generation + 1))
  }

  lemma CountingRuns(s: State)
    requires s.owner.Idle? && s.pooled && !s.cancelled
    ensures Possible(s, [Own(BeginClear), Own(BeginNumber)])
    ensures Run(s, [Own(BeginClear), Own(BeginNumber)]) == Counted(s)
  {
    RunTwo(s, Own(BeginClear), Own(BeginNumber));
  }

  lemma NumberingRuns(s: State)
    requires s.owner.Idle? && s.pooled && !s.cancelled
    ensures Possible(s, NUMBERING)
    ensures Run(s, NUMBERING)
         == if s.active != 0 then Begun(s)
            else s.(generation := s.generation + 1, lastResult := None, active := s.generation + 1,
                    owner := Activated(s.generation + 1))
  {
    hide Run, Possible;
    CountingRuns(s);
    RunOne(Counted(s), Own(BeginActivate));
    RunAppend(s, [Own(BeginClear), Own(BeginNumber)], [Own(BeginActivate)]);
    assert NUMBERING == [Own(BeginClear), Own(BeginNumber)] + [Own(BeginActivate)];
  }

  /** The rest of `begin_turn` once the turn is activated. */
  lemma SendingRuns(u: State, t: Turn)
    requires u.owner == Activated(t) && u.active == t && u.stdinOpen
    ensures Possible(u, [Own(BeginSlot), Own(BeginSend)])
    ensures Run(u, [Own(BeginSlot), Own(BeginSend)])
         == u.(slotTurn := t, slotOpen := true, owed := u.owed + [t], log := u.log + [Opened(t)], owner := Idle)
  {
    RunTwo(u, Own(BeginSlot), Own(BeginSend));
  }

  lemma FailingRuns(u: State, t: Turn)
    requires u.owner == Activated(t) && u.active == t && !u.stdinOpen
    ensures var rest := [Own(BeginSlot), Own(BeginSend)] + [Own(BeginDeactivate), Own(BeginCloseSlot)];
      Possible(u, rest)
      && Run(u, rest) == u.(active := 0, slotTurn := t, slotOpen := false,
                            log := u.log + [Opened(t)] + [Aborted(t)], owner := Idle)
  {
    RunTwo(u, Own(BeginSlot), Own(BeginSend));
    var v := Run(u, [Own(BeginSlot), Own(BeginSend)]);
    RunTwo(v, Own(BeginDeactivate), Own(BeginCloseSlot));
    RunAppend(u, [Own(BeginSlot), Own(BeginSend)], [Own(BeginDeactivate), Own(BeginCloseSlot)]);
  }

  lemma BeginRuns(s: State)
    requires s.owner.Idle? && s.pooled && !s.cancelled
    ensures Possible(s, BeginScript(s)) && Run(s, BeginScript(s)) == Begun(s)
  {
    hide Run, Possible, Step, Enabled;
    NumberingRuns(s);
    var u, t := Run(s, NUMBERING), s.generation + 1;
    if s.active != 0 {
      assert BeginScript(s) == NUMBERING;
    } else if s.stdinOpen {
      SendingRuns(u, t);
      RunAppend(s, NUMBERING, [Own(BeginSlot), Own(BeginSend)]);
      assert BeginScript(s) == NUMBERING + [Own(BeginSlot), Own(BeginSend)];
    } else {
      FailingRuns(u, t);
      var rest := [Own(BeginSlot), Own(BeginSend)] + [Own(BeginDeactivate), Own(BeginCloseSlot)];
      RunAppend(s, NUMBERING, rest);
      assert BeginScript(s) == NUMBERING + rest;
    }
  }

  // ------------------------------------------------------------ take_last_result

  const TAKE_SCRIPT := [Own(TakeFrame), Own(TakeLoad), Own(TakeJudge)]

  /** The effect of `take_last_result` when a result is there. */
  function Taken(s: State): State
    requires s.lastResult.Some?
  {
    var verdict := Judge(s.lastResult.value, s.generation, s.interrupted);
    s.(lastResult := None, interrupted := Exchange(s.interrupted, s.generation, 0),
       log := s.log + [Took(s.generation, s.lastResult.value, verdict)])
  }

  lemma TakeRuns(s: State)
    requires s.owner.Idle? && s.pooled && s.lastResult.Some?
    ensures Possible(s, TAKE_SCRIPT) && Run(s, TAKE_SCRIPT) == Taken(s)
  {
    RunThree(s, Own(TakeFrame), Own(TakeLoad), Own(TakeJudge));
  }

  // ------------------------------------------------- one line of the stdout loop

  function AckScript(s: State, turn: Turn): seq<Action> {
    [Read(AckSwap)] + if s.active == turn then [Read(AckStore)] else []
  }

  function HandleScript(s: State): seq<Action>
    requires |s.stdout| > 0
  {
    [Read(ReadLine), Read(LoadGeneration)]
    + match s.stdout[0]
      case Control(id, ok) =>
        [Read(RemoveWaiter)]
        + (if id in s.book.waiters && ok
           then AckScript(s, s.book.waiters[id])
           else [])
      case ResultLine(_) => [Read(ResultSwap), Read(ResultStore), Read(ResultClose)]
      case Progress(_) => [Read(PickSender)] + if s.slotOpen then [Read(SendEvent)] else []
      case Noise => [Read(SkipLine)]
  }

  /** The effect of handling the next line of stdout. */
  function Handled(s: State): State
    requires |s.stdout| > 0
  {
    var next := s.(stdout := s.stdout[1..], log := s.log + Sighting(s.stdout[0], s.book.asked));
    match s.stdout[0]
    case Control(id, ok) =>
      if id !in s.book.waiters then next
      else
        var removed := next.(book := s.book.(waiters := s.book.waiters - {id}));
        if ok && s.active == s.book.waiters[id]
        then removed.(active := 0, interrupted := s.book.waiters[id])
        else removed
    case ResultLine(frame) =>
      var stored := next.(active := Exchange(s.active, s.generation, 0), lastResult := Some(frame));
      if s.slotTurn == s.generation
      then stored.(slotOpen := false, log := next.log + [Closed(s.slotTurn)])
      else stored
    case Progress(event) =>
      next.(log := next.log + [Forwarded(event)],
            delivered := if s.slotOpen then s.delivered + [(s.slotTurn, event)] else s.delivered)
    case Noise => next
  }

  /** What handling the next line adds to the log after the sighting of the line. */
  function HandlingSees(s: State): seq<Observation>
    requires |s.stdout| > 0
  {
    match s.stdout[0]
    case Control(_, _) => []
    case ResultLine(_) => if s.slotTurn == s.generation then [Closed(s.slotTurn)] else []
    case Progress(event) => [Forwarded(event)]
    case Noise => []
  }

  /** The effect of handling a line, field by field. */
  lemma HandledEffect(s: State)
    requires |s.stdout| > 0
    ensures var line, v := s.stdout[0], Handled(s);
      && v.stdout == s.stdout[1..] && v.log == s.log + Sighting(line, s.book.asked) + HandlingSees(s)
      && v.reader == s.reader && v.owner == s.owner && v.generation == s.generation && v.pooled == s.pooled
      && v.slotTurn == s.slotTurn
      && v.slotOpen == (s.slotOpen && !(line.ResultLine? && s.slotTurn == s.generation))
      && v.book == (if line.Control? then s.book.(waiters := s.book.waiters - {line.id}) else s.book)
      && v.active == (if line.ResultLine? then Exchange(s.active, s.generation, 0)
                      else if line.Control? && line.ok && line.id in s.book.waiters
                      then Exchange(s.active, s.book.waiters[line.id], 0)
                      else s.active)
  {
    hide Sighting;
    match s.stdout[0]
    case Control(id, _) =>
      if id !in s.book.waiters {
        assert s.book.waiters - {id} == s.book.waiters;
      }
    case ResultLine(_) =>
    case Progress(_) =>
    case Noise =>
  }

  const GETTING := [Read(ReadLine), Read(LoadGeneration)]

  function Loading(s: State): State
    requires |s.stdout| > 0
  {
    s.(stdout := s.stdout[1..], log := s.log + Sighting(s.stdout[0], s.book.asked),
       reader := Loaded(s.stdout[0], s.generation))
  }

  lemma GettingRuns(s: State)
    requires s.reader.Waiting? && |s.stdout| > 0
    ensures Possible(s, GETTING) && Run(s, GETTING) == Loading(s)
  {
    RunTwo(s, Read(ReadLine), Read(LoadGeneration));
  }

  /** Once the line is in hand, `rest` is what remains to be done for it. */
  predicate Completes(s: State, u: State, rest: seq<Action>)
    requires |s.stdout| > 0
  {
    && HandleScript(s) == GETTING + rest
    && Possible(u, rest) && Run(u, rest) == Handled(s).(reader := Waiting)
  }

  lemma HandleControlRuns(s: State, u: State)
    requires |s.stdout| > 0 && s.stdout[0].Control? && u == Loading(s)
    ensures exists rest :: Completes(s, u, rest)
  {
    hide Run, Possible, Sighting;
    var Control(id, ok) := s.stdout[0];
    if !(id in s.book.waiters && ok) {
      RunOne(u, Read(RemoveWaiter));
      assert Completes(s, u, [Read(RemoveWaiter)]);
    } else {
      HandleAckRuns(s, u);
    }
  }

  lemma AckingRuns(v: State, turn: Turn)
    requires v.reader == Acking(turn)
    ensures Possible(v, AckScript(v, turn))
    ensures Run(v, AckScript(v, turn))
         == if v.active == turn then v.(active := 0, interrupted := turn, reader := Waiting) else v.(reader := Waiting)
  {
    if v.active == turn {
      RunTwo(v, Read(AckSwap), Read(AckStore));
      assert AckScript(v, turn) == [Read(AckSwap), Read(AckStore)];
    } else {
      RunOne(v, Read(AckSwap));
      assert AckScript(v, turn) == [Read(AckSwap)];
    }
  }

  lemma HandleAckRuns(s: State, u: State)
    requires |s.stdout| > 0 && s.stdout[0].Control? && u == Loading(s)
    requires s.stdout[0].ok && s.stdout[0].id in s.book.waiters
    ensures exists rest :: Completes(s, u, rest)
  {
    hide Run, Possible, Sighting;
    var turn := s.book.waiters[s.stdout[0].id];
    var v := Step(u, Read(RemoveWaiter));
    AckingRuns(v, turn);
    RunFirst(u, Read(RemoveWaiter), AckScript(v, turn));
    assert Completes(s, u, [Read(RemoveWaiter)] + AckScript(v, turn));
  }

  lemma HandleResultRuns(s: State, u: State)
    requires |s.stdout| > 0 && s.stdout[0].ResultLine? && u == Loading(s)
    ensures exists rest :: Completes(s, u, rest)
  {
    RunThree(u, Read(ResultSwap), Read(ResultStore), Read(ResultClose));
    assert Completes(s, u, [Read(ResultSwap), Read(ResultStore), Read(ResultClose)]);
  }

  lemma HandleEventRuns(s: State, u: State)
    requires |s.stdout| > 0 && (s.stdout[0].Progress? || s.stdout[0].Noise?) && u == Loading(s)
    ensures exists rest :: Completes(s, u, rest)
  {
    if s.stdout[0].Noise? {
      RunOne(u, Read(SkipLine));
      assert Completes(s, u, [Read(SkipLine)]);
    } else if s.slotOpen {
      RunTwo(u, Read(PickSender), Read(SendEvent));
      assert Completes(s, u, [Read(PickSender), Read(SendEvent)]);
    } else {
      RunOne(u, Read(PickSender));
      assert Completes(s, u, [Read(PickSender)]);
    }
  }

  lemma HandleRuns(s: State)
    requires s.reader.Waiting? && |s.stdout| > 0
    ensures Possible(s, HandleScript(s)) && Run(s, HandleScript(s)) == Handled(s)
  {
    hide Handled, Loading, HandleScript, Sighting, Step, Enabled;
    GettingRuns(s);
    var u := Loading(s);
    if s.stdout[0].Control? {
      HandleControlRuns(s, u);
    } else if s.stdout[0].ResultLine? {
      HandleResultRuns(s, u);
    } else {
      HandleEventRuns(s, u);
    }
    var rest :| Completes(s, u, rest);
    RunAppend(s, GETTING, rest);
    HandledEffect(s);
  }

  // -------------------------------------------------------------- the handle

  /** Why `begin_turn` fails on a live process. */
  datatype Refusal = StillActive | StdinClosed

  /**
   The fields of `ProcessHandle` that the protocol uses; the remote's side, the observed history and whether the pool
   holds the handle are ghost.
   */
  class ProcessHandle {
    var generation: Turn
    var active: Turn
    var interrupted: Turn
    var slotTurn: Turn
    var slotOpen: bool
    var lastResult: Option<Frame>
    var stdinOpen: bool
    var cancelled: bool
    var book: Book
    ghost var pooled: bool
    ghost var owed: seq<Turn>
    ghost var stdout: seq<Line>
    ghost var delivered: seq<(Turn, string)>
    ghost var log: seq<Observation>

    /** The state of the machine between calls. */
    ghost function View(): State
      reads this
    {
      State(generation, active, interrupted, slotTurn, slotOpen, lastResult, stdinOpen, cancelled, pooled, Idle,
            Waiting, book, owed, stdout, delivered, log)
    }

    constructor ()
      ensures View() == INITIAL
    {
      generation, active, interrupted, slotTurn, slotOpen := 0, 0, 0, 0, false;
      lastResult, stdinOpen, cancelled := None, true, false;
      book, pooled := INITIAL.book, true;
      owed, stdout, delivered, log := [], [], [], [];
    }

    /** The pool lets go of the handle: its tasks are told to stop. */
    method Release()
      requires pooled && book.askers == map[]
      modifies this`cancelled, this`pooled, this`log
      ensures View() == OwnerStep(old(View()), Drop)
    {
      cancelled, pooled := true, false;
      log := log + [Removed];
    }

    /** The sender in the slot is dropped, if it is still this turn's. */
    method CloseSlot(turn: Turn, seen: Observation)
      modifies this`slotOpen, this`log
      ensures slotOpen == (old(slotOpen) && slotTurn != turn)
      ensures log == if slotTurn == turn then old(log) + [seen] else old(log)
    {
      if slotTurn == turn {
        slotOpen := false;
        log := log + [seen];
      }
    }

    /** The message could not be sent: give up the activation and the channel, if they are still this turn's. */
    method Abandon(turn: Turn)
      modifies this`active, this`slotOpen, this`log
      ensures active == Exchange(old(active), turn, 0)
      ensures slotOpen == (old(slotOpen) && slotTurn != turn)
      ensures log == if slotTurn == turn then old(log) + [Aborted(turn)] else old(log)
    {
      if active == turn { active := 0; }
      CloseSlot(turn, Aborted(turn));
    }

    /** The turn becomes the active one, and its channel's sender is put into the slot. */
    method Register(turn: Turn)
      modifies this`active, this`slotTurn, this`slotOpen, this`log
      ensures active == slotTurn == turn && slotOpen && log == old(log) + [Opened(turn)]
    {
      active := turn;
      slotTurn, slotOpen := turn, true;
      log := log + [Opened(turn)];
    }

    /** A turn is begun: its number, or the reason it was refused. */
    method BeginTurn() returns (r: Result<Turn, Refusal>)
      requires !cancelled
      modifies this
      ensures View() == Begun(old(View()))
      ensures r.Ok? <==> old(active) == 0 && old(stdinOpen)
      ensures r.Ok? ==> r.value == generation
      ensures r == Err(StillActive) <==> old(active) != 0
    {
      lastResult := None;
      generation := generation + 1;
      var turn := generation;
      if active != 0 {
        return Err(StillActive);
      }
      Register(turn);
      if !stdinOpen {
        Abandon(turn);
        return Err(StdinClosed);
      }
      owed := owed + [turn];
      return Ok(turn);
    }

    /** The stored result, if any, with the verdict it is reported under. */
    method TakeLastResult() returns (r: Option<(Frame, Verdict)>)
      modifies this
      ensures old(lastResult).None? ==> r == None && View() == old(View())
      ensures old(lastResult).Some? ==>
                && View() == Taken(old(View()))
                && r.Some? && log == old(log) + [Took(generation, r.value.0, r.value.1)]
    {
      if lastResult.None? {
        return None;
      }
      var frame := lastResult.value;
      lastResult := None;
      var verdict := if frame.success then Succeeded else Failed;
      var wasInterrupted := interrupted == generation;
      if wasInterrupted {
        interrupted := 0;
        if verdict != Succeeded { verdict := Interrupted; }
      }
      log := log + [Took(generation, frame, verdict)];
      return Some((frame, verdict));
    }

    /** `acknowledge_interrupt`: a successful acknowledgement moves the active marker to the interrupted one. */
    method AcknowledgeInterrupt(ok: bool, turn: Turn) returns (accepted: bool)
      modifies this`active, this`interrupted
      ensures accepted <==> ok && old(active) == turn
      ensures active == if accepted then 0 else old(active)
      ensures interrupted == if accepted then turn else old(interrupted)
    {
      if !ok || active != turn {
        return false;
      }
      active := 0;
      interrupted := turn;
      return true;
    }

    /** The next line of stdout is taken off it. */
    ghost method GetLine()
      requires |stdout| > 0
      modifies this`log, this`stdout
      ensures log == old(log) + Sighting(old(stdout)[0], book.asked) && stdout == old(stdout)[1..]
    {
      log := log + Sighting(stdout[0], book.asked);
      stdout := stdout[1..];
    }

    method HandleControl(id: RequestId, ok: bool)
      requires |stdout| > 0 && stdout[0] == Control(id, ok)
      modifies this
      ensures View() == Handled(old(View()))
    {
      GetLine();
      if id in book.waiters {
        var turn := book.waiters[id];
        book := book.(waiters := book.waiters - {id});
        var _ := AcknowledgeInterrupt(ok, turn);
      }
    }

    method HandleResult(frame: Frame)
      requires |stdout| > 0 && stdout[0] == ResultLine(frame)
      modifies this
      ensures View() == Handled(old(View()))
    {
      GetLine();
      var current := generation;
      if active == current { active := 0; }
      lastResult := Some(frame);
      CloseSlot(current, Closed(slotTurn));
    }

    /** One line of the reader's loop. */
    method HandleLine(line: Line)
      requires |stdout| > 0 && stdout[0] == line
      modifies this
      ensures View() == Handled(old(View()))
    {
      match line
      case Control(id, ok) => HandleControl(id, ok);
      case ResultLine(frame) => HandleResult(frame);
      case Progress(event) =>
        GetLine();
        log := log + [Forwarded(event)];
        if slotOpen {
          delivered := delivered + [(slotTurn, event)];
        }
      case Noise =>
        GetLine();
    }
  }
}
