/**
 The persistent Claude process of the gateway: one turn owner, any number of
 interrupting callers, the stdout reader and the remote CLI act on one handle,
 interleaved at the granularity of single atomic or locked operations.

 The remote CLI is assumed to answer user messages with one result line each,
 in order, and to acknowledge each interrupt request at most once.
 */
module ClaudePool {
  import opened Wrappers

  // ---------------------------------------------------------------- the state

  /** Turn number; zero is "no turn" (the idle value of the two markers). */
  type Turn = nat
  type RequestId = nat
  type CallerId = nat

  /** A result line.  `turn` is the message it answers: the remote knows it, the gateway does not. */
  datatype Frame = Frame(turn: Turn, success: bool)

  datatype Verdict = Succeeded | Failed | Interrupted

  datatype Line =
    | Control(id: RequestId, ok: bool)
    | ResultLine(frame: Frame)
    | Progress(event: string)
    | Noise

  /** Where the turn owner is, inside `begin_turn` or `take_last_result`. */
  datatype Owner =
    | Idle
    | Cleared
    | Numbered(turn: Turn)
    | Activated(turn: Turn)
    | Slotted(turn: Turn)
    | SendFailed(turn: Turn)
    | Deactivated(turn: Turn)
    | Taking(frame: Frame)
    | Judging(frame: Frame, turn: Turn)

  /** Where a caller of `interrupt` is. */
  datatype Asker =
    | Seen(turn: Turn)
    | Reserved(turn: Turn, id: RequestId)
    | Registered(id: RequestId)
    | Unsent(id: RequestId)
    | Awaiting

  /** Where the stdout reader is. */
  datatype Reader =
    | Waiting
    | Got(line: Line)
    | Loaded(line: Line, generation: Turn)
    | Acking(turn: Turn)
    | Acked(turn: Turn)
    | Swapped(frame: Frame, generation: Turn)
    | Stored(frame: Frame, generation: Turn)
    | Sending(turn: Turn, event: string)
    | AtEof
    | Gone

  /** What an outside observer of the run sees, in order. */
  datatype Observation =
    | Opened(turn: Turn)
    | Aborted(turn: Turn)
    | AckRead(id: RequestId, turn: Turn)
    | ResultRead(frame: Frame)
    | Forwarded(event: string)
    | Closed(turn: Turn)
    | EndOfOutput
    | Removed
    | Took(turn: Turn, frame: Frame, verdict: Verdict)

  /**
   The interrupt requests: the waiters and the request counter of the handle, the callers inside `interrupt`,
   the turn each request was issued in, and the requests the remote may still acknowledge.
   */
  datatype Book = Book(
    waiters: map<RequestId, Turn>,
    nextId: RequestId,
    askers: map<CallerId, Asker>,
    asked: map<RequestId, Turn>,
    outstanding: set<RequestId>)

  datatype State = State(
    generation: Turn,
    active: Turn,
    interrupted: Turn,
    slotTurn: Turn,
    slotOpen: bool,
    lastResult: Option<Frame>,
    stdinOpen: bool,
    cancelled: bool,
    // whether the pool still holds the handle
    pooled: bool,
    owner: Owner,
    reader: Reader,
    book: Book,
    // the remote CLI: messages it still has to answer, output it has written and nobody has read
    owed: seq<Turn>,
    stdout: seq<Line>,
    // history: what reached each channel, what was observed
    delivered: seq<(Turn, string)>,
    log: seq<Observation>)

  const INITIAL := State(0, 0, 0, 0, false, None, true, false, true, Idle, Waiting,
                         Book(map[], 1, map[], map[], {}), [], [], [], [])

  // --------------------------------------------------------------- the actions

  /**
   `begin_turn` up to its message being sent (or not), then `take_last_result`; and the removal of the handle from
   the pool, by `kill` or by a `begin_turn` that finds the process gone.
   */
  datatype OwnerAction =
    | BeginClear | BeginNumber | BeginActivate | BeginSlot | BeginSend | BeginDeactivate | BeginCloseSlot
    | TakeFrame | TakeLoad | TakeJudge
    | Drop

  /** `interrupt`; a caller leaves when it is answered or gives up after its timeout. */
  datatype AskerAction = AskLoad | AskReserve | AskRegister | AskSend | AskWithdraw | AskLeave

  /** One turn of the loop of `stdout_reader_task`, and its exits. */
  datatype ReaderAction =
    | ReadLine | LoadGeneration | RemoveWaiter | AckSwap | AckStore
    | ResultSwap | ResultStore | ResultClose | PickSender | SendEvent | SkipLine
    | ReadEof | ReadExit

  datatype RemoteAction = Emit(line: Line) | CloseStdin | Cancel

  datatype Action =
    | Own(own: OwnerAction)
    | Ask(caller: CallerId, ask: AskerAction)
    | Read(read: ReaderAction)
    | Remote(remote: RemoteAction)

  predicate OwnerEnabled(s: State, a: OwnerAction) {
    match a
    case BeginClear => s.owner.Idle? && s.pooled && !s.cancelled
    case BeginNumber => s.owner.Cleared?
    case BeginActivate => s.owner.Numbered?
    case BeginSlot => s.owner.Activated?
    case BeginSend => s.owner.Slotted?
    case BeginDeactivate => s.owner.SendFailed?
    case BeginCloseSlot => s.owner.Deactivated?
    case TakeFrame => s.owner.Idle? && s.pooled && s.lastResult.Some?
    case TakeLoad => s.owner.Taking?
    case TakeJudge => s.owner.Judging?
    // the pool is locked: no other call is under way
    case Drop => s.owner.Idle? && s.pooled && s.book.askers == map[]
  }

  predicate AskerEnabled(s: State, c: CallerId, a: AskerAction) {
    match a
    case AskLoad => c !in s.book.askers && s.pooled && s.active != 0
    case AskReserve => c in s.book.askers && s.book.askers[c].Seen?
    case AskRegister => c in s.book.askers && s.book.askers[c].Reserved?
    case AskSend => c in s.book.askers && s.book.askers[c].Registered?
    case AskWithdraw => c in s.book.askers && s.book.askers[c].Unsent?
    case AskLeave => c in s.book.askers && s.book.askers[c].Awaiting?
  }

  predicate ReaderEnabled(s: State, a: ReaderAction) {
    match a
    case ReadLine => s.reader.Waiting? && |s.stdout| > 0
    case LoadGeneration => s.reader.Got?
    case RemoveWaiter => s.reader.Loaded? && s.reader.line.Control?
    case AckSwap => s.reader.Acking?
    case AckStore => s.reader.Acked?
    case ResultSwap => s.reader.Loaded? && s.reader.line.ResultLine?
    case ResultStore => s.reader.Swapped?
    case ResultClose => s.reader.Stored?
    case PickSender => s.reader.Loaded? && s.reader.line.Progress?
    case SendEvent => s.reader.Sending?
    case SkipLine => s.reader.Loaded? && s.reader.line.Noise?
    case ReadEof => s.reader.Waiting? && s.stdout == []
    case ReadExit => s.reader.Waiting? || s.reader.AtEof?
  }

  predicate RemoteEnabled(s: State, a: RemoteAction) {
    match a
    case Emit(Control(id, _)) => id in s.book.outstanding
    case Emit(ResultLine(frame)) => |s.owed| > 0 && s.owed[0] == frame.turn
    case Emit(Progress(_)) => true
    case Emit(Noise) => true
    case CloseStdin => true
    case Cancel => true
  }

  predicate Enabled(s: State, a: Action) {
    match a
    case Own(own) => OwnerEnabled(s, own)
    case Ask(c, ask) => AskerEnabled(s, c, ask)
    case Read(read) => ReaderEnabled(s, read)
    case Remote(remote) => RemoteEnabled(s, remote)
  }

  /** An atomic compare-exchange: the cell afterwards. */
  function Exchange(cell: nat, expected: nat, replacement: nat): nat {
    if cell == expected then replacement else cell
  }

  /** `apply_acknowledged_interrupt`: what the taken result is reported as. */
  function Judge(frame: Frame, turn: Turn, interrupted: Turn): Verdict {
    if frame.success then Succeeded
    else if interrupted == turn then Interrupted
    else Failed
  }

  /** The observation made when the reader gets a line off stdout. */
  function Sighting(line: Line, asked: map<RequestId, Turn>): seq<Observation> {
    match line
    case Control(id, ok) => if ok && id in asked then [AckRead(id, asked[id])] else []
    case ResultLine(frame) => [ResultRead(frame)]
    case Progress(_) => []
    case Noise => []
  }

  function OwnerStep(s: State, a: OwnerAction): State
    requires OwnerEnabled(s, a)
  {
    match a
    case BeginClear => s.(lastResult := None, owner := Cleared)
    case BeginNumber => s.(generation := s.generation + 1, owner := Numbered(s.generation + 1))
    case BeginActivate =>
      if s.active == 0
      then s.(active := s.owner.turn, owner := Activated(s.owner.turn))
      else s.(owner := Idle)
    case BeginSlot =>
      s.(slotTurn := s.owner.turn, slotOpen := true, owner := Slotted(s.owner.turn),
         log := s.log + [Opened(s.owner.turn)])
    case BeginSend =>
      if s.stdinOpen
      then s.(owed := s.owed + [s.owner.turn], owner := Idle)
      else s.(owner := SendFailed(s.owner.turn))
    case BeginDeactivate =>
      s.(active := Exchange(s.active, s.owner.turn, 0), owner := Deactivated(s.owner.turn))
    case BeginCloseSlot =>
      if s.slotTurn == s.owner.turn
      then s.(slotOpen := false, owner := Idle, log := s.log + [Aborted(s.owner.turn)])
      else s.(owner := Idle)
    case TakeFrame => s.(lastResult := None, owner := Taking(s.lastResult.value))
    case TakeLoad => s.(owner := Judging(s.owner.frame, s.generation))
    case TakeJudge =>
      s.(interrupted := Exchange(s.interrupted, s.owner.turn, 0), owner := Idle,
         log := s.log + [Took(s.owner.turn, s.owner.frame, Judge(s.owner.frame, s.owner.turn, s.interrupted))])
    case Drop => s.(pooled := false, cancelled := true, log := s.log + [Removed])
  }

  function AskerStep(s: State, c: CallerId, a: AskerAction): State
    requires AskerEnabled(s, c, a)
  {
    var b := s.book;
    match a
    case AskLoad => s.(book := b.(askers := b.askers[c := Seen(s.active)]))
    case AskReserve =>
      s.(book := b.(nextId := b.nextId + 1, askers := b.askers[c := Reserved(b.askers[c].turn, b.nextId)]))
    case AskRegister =>
      var Reserved(turn, id) := b.askers[c];
      s.(book := b.(waiters := b.waiters[id := turn], asked := b.asked[id := turn],
                    askers := b.askers[c := Registered(id)]))
    case AskSend =>
      var id := b.askers[c].id;
      if s.stdinOpen
      then s.(book := b.(outstanding := b.outstanding + {id}, askers := b.askers[c := Awaiting]))
      else s.(book := b.(askers := b.askers[c := Unsent(id)]))
    case AskWithdraw => s.(book := b.(waiters := b.waiters - {b.askers[c].id}, askers := b.askers - {c}))
    case AskLeave => s.(book := b.(askers := b.askers - {c}))
  }

  function ReaderStep(s: State, a: ReaderAction): State
    requires ReaderEnabled(s, a)
  {
    match a
    case ReadLine =>
      s.(stdout := s.stdout[1..], reader := Got(s.stdout[0]), log := s.log + Sighting(s.stdout[0], s.book.asked))
    case LoadGeneration => s.(reader := Loaded(s.reader.line, s.generation))
    case RemoveWaiter =>
      var Control(id, ok) := s.reader.line;
      if id in s.book.waiters
      then s.(book := s.book.(waiters := s.book.waiters - {id}),
              reader := if ok then Acking(s.book.waiters[id]) else Waiting)
      else s.(reader := Waiting)
    case AckSwap =>
      if s.active == s.reader.turn
      then s.(active := 0, reader := Acked(s.reader.turn))
      else s.(reader := Waiting)
    case AckStore => s.(interrupted := s.reader.turn, reader := Waiting)
    case ResultSwap =>
      s.(active := Exchange(s.active, s.reader.generation, 0),
         reader := Swapped(s.reader.line.frame, s.reader.generation))
    case ResultStore =>
      s.(lastResult := Some(s.reader.frame), reader := Stored(s.reader.frame, s.reader.generation))
    case ResultClose =>
      if s.slotTurn == s.reader.generation
      then s.(slotOpen := false, reader := Waiting, log := s.log + [Closed(s.slotTurn)])
      else s.(reader := Waiting)
    case PickSender =>
      s.(reader := if s.slotOpen then Sending(s.slotTurn, s.reader.line.event) else Waiting,
         log := s.log + [Forwarded(s.reader.line.event)])
    case SendEvent =>
      s.(delivered := s.delivered + [(s.reader.turn, s.reader.event)], reader := Waiting)
    case SkipLine => s.(reader := Waiting)
    case ReadEof => s.(slotOpen := false, reader := AtEof, log := s.log + [EndOfOutput])
    case ReadExit => s.(cancelled := true, book := s.book.(waiters := map[]), reader := Gone)
  }

  function RemoteStep(s: State, a: RemoteAction): State
    requires RemoteEnabled(s, a)
  {
    match a
    case Emit(line) =>
      s.(stdout := s.stdout + [line],
         book := if line.Control? then s.book.(outstanding := s.book.outstanding - {line.id}) else s.book,
         owed := if line.ResultLine? then s.owed[1..] else s.owed)
    case CloseStdin => s.(stdinOpen := false)
    case Cancel => s.(cancelled := true)
  }

  function Step(s: State, a: Action): State
    requires Enabled(s, a)
  {
    match a
    case Own(own) => OwnerStep(s, own)
    case Ask(c, ask) => AskerStep(s, c, ask)
    case Read(read) => ReaderStep(s, read)
    case Remote(remote) => RemoteStep(s, remote)
  }

  /** The pool and the reader share the slot: it is gone, with the sender in it, once both have let go of it. */
  predicate SlotIsKept(s: State) { s.pooled || !s.reader.Gone? }

  /** The slot holds the sender of turn `t`'s channel. */
  predicate InSlot(s: State, t: Turn) { SlotIsKept(s) && s.slotOpen && s.slotTurn == t }

  /** No sender of turn `t`'s channel is left, neither in the slot nor in the reader's hands. */
  predicate ChannelClosed(s: State, t: Turn) {
    !InSlot(s, t) && !(s.reader.Sending? && s.reader.turn == t)
  }

  /** The channel in the slot is open, and the result that will close it has not been stored. */
  predicate Expecting(s: State) {
    s.slotOpen && !(s.reader.Stored? && s.reader.generation == s.slotTurn)
  }

  /**
   The caller discipline: a turn begins only after the previous turn's result has been stored.  A caller that waits
   for the end of the previous turn's channel keeps it.
   */
  predicate Disciplined(s: State, a: Action) {
    a == Own(BeginClear) ==> !Expecting(s)
  }

  /** The reader holds a result line, or has just stored it, and has loaded the generation it will close. */
  predicate HasLoaded(r: Reader) { (r.Loaded? && r.line.ResultLine?) || r.Swapped? || r.Stored? }

  /** The channel in the slot is open, and the reader is not about to close it. */
  predicate Unloaded(s: State) {
    s.slotOpen && !(HasLoaded(s.reader) && s.reader.generation == s.slotTurn)
  }

  /** A weaker discipline: a turn begins only after the generation for the previous turn's result was loaded. */
  predicate Cautious(s: State, a: Action) {
    a == Own(BeginClear) ==> !Unloaded(s)
  }

  /** Every action is enabled when its turn comes. */
  predicate Possible(s: State, actions: seq<Action>)
    decreases |actions|
  {
    actions == [] || (Enabled(s, actions[0]) && Possible(Step(s, actions[0]), actions[1..]))
  }

  /** ... and respects the caller discipline. */
  predicate Legal(s: State, actions: seq<Action>)
    decreases |actions|
  {
    actions == []
    || (Enabled(s, actions[0]) && Disciplined(s, actions[0]) && Legal(Step(s, actions[0]), actions[1..]))
  }

  /** ... and respects the weaker one. */
  predicate Orderly(s: State, actions: seq<Action>)
    decreases |actions|
  {
    actions == []
    || (Enabled(s, actions[0]) && Cautious(s, actions[0]) && Orderly(Step(s, actions[0]), actions[1..]))
  }

  function Run(s: State, actions: seq<Action>): State
    requires Possible(s, actions)
    decreases |actions|
  {
    if actions == [] then s else Run(Step(s, actions[0]), actions[1..])
  }
}
