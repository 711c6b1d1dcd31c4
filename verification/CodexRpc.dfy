/**
 The pending-request table of the Codex JSON-RPC client: any number of requests, the stdout reader and the server,
 interleaved.  A request's outcome is a function of what was observed of it.
 */
module CodexRpc {
  import opened Wrappers

  type RequestId = nat
  type CallerId = nat

  /** A response's result; only the turn it names matters here. */
  datatype Value = Value(turnId: Option<string>, body: string)

  /** A response line: an error if there is one, else the result. */
  datatype Reply = Reply(id: RequestId, error: Option<string>, result: Value)

  /** What a request asks for; a steer carries the turn it expects to be active.  A caller steers once. */
  datatype Payload = Steer(caller: CallerId, expectedTurn: string) | Other(name: string)

  datatype Outcome = Success(value: Value) | Rejected(error: string) | OutcomeUnknown

  const CLOSED := "codex app-server stdin closed"

  function OutcomeOf(r: Reply): Outcome {
    match r.error
    case Some(e) => Rejected(e)
    case None => Success(r.result)
  }

  /** Where a request is inside `request_classified`. */
  datatype Call =
    | Numbered(payload: Payload)
    | Inserted(payload: Payload)
    | Waiting(payload: Payload)
    | Unqueued(payload: Payload)
    | TimedOut(payload: Payload)
    | Done(payload: Payload, outcome: Outcome)

  datatype Reader = Idle | Holding(reply: Reply) | Ended

  datatype Observation =
    | LookedUp(caller: CallerId, turn: string)  // a steer found this turn active
    | Registered(id: RequestId)
    | Queued(id: RequestId, payload: Payload)
    | Expired(id: RequestId)
    | Replied(reply: Reply)
    | Resolved(id: RequestId, outcome: Outcome)

  /**
   The pending table, the one-shot channels (empty or filled), the requests under way, the steers that have found
   an active turn and not asked for an identifier yet, and all that ever did.
   */
  datatype Table = Table(
    pending: set<RequestId>,
    cells: map<RequestId, Option<Outcome>>,
    calls: map<RequestId, Call>,
    lookers: map<CallerId, string>,
    callers: set<CallerId>)

  datatype State = State(
    nextId: RequestId,
    queueOpen: bool,
    activeTurn: Option<string>,
    reader: Reader,
    table: Table,
    log: seq<Observation>)

  const INITIAL := State(1, true, None, Idle, Table({}, map[], map[], map[], {}), [])

  datatype Action =
    | LookUp(caller: CallerId)                    // a steer reads the active turn
    | StartSteer(caller: CallerId)                // ... and then asks for an identifier
    | Start(payload: Payload)
    | Insert(id: RequestId)
    | Queue(id: RequestId)
    | Withdraw(id: RequestId)
    | Receive(id: RequestId)
    | TimeOut(id: RequestId)
    | Expire(id: RequestId)
    | ReadReply(reply: Reply)
    | Deliver
    | Drain
    | CloseQueue
    | SetActive(turn: Option<string>)

  predicate Enabled(s: State, a: Action) {
    var t := s.table;
    match a
    case LookUp(c) => s.activeTurn.Some? && c !in t.callers
    case StartSteer(c) => c in t.lookers
    case Start(p) => p.Other?
    case Insert(id) => id in t.calls && t.calls[id].Numbered?
    case Queue(id) => id in t.calls && t.calls[id].Inserted?
    case Withdraw(id) => id in t.calls && t.calls[id].Unqueued?
    case Receive(id) => id in t.calls && t.calls[id].Waiting? && id in t.cells && t.cells[id].Some?
    case TimeOut(id) => id in t.calls && t.calls[id].Waiting? && id in t.cells && t.cells[id].None?
    case Expire(id) => id in t.calls && t.calls[id].TimedOut?
    case ReadReply(_) => s.reader.Idle?
    case Deliver => s.reader.Holding?
    case Drain => s.reader.Idle?
    case CloseQueue => true
    case SetActive(_) => true
  }

  /** The channels of the drained requests, all answered with an unknown outcome. */
  function FailAll(cells: map<RequestId, Option<Outcome>>, pending: set<RequestId>): map<RequestId, Option<Outcome>> {
    map id | id in cells :: if id in pending then Some(OutcomeUnknown) else cells[id]
  }

  function TableStep(s: State, a: Action): Table
    requires Enabled(s, a)
  {
    var t := s.table;
    match a
    case LookUp(c) => t.(lookers := t.lookers[c := s.activeTurn.value], callers := t.callers + {c})
    case StartSteer(c) =>
      t.(calls := t.calls[s.nextId := Numbered(Steer(c, t.lookers[c]))], lookers := t.lookers - {c})
    case Start(p) => t.(calls := t.calls[s.nextId := Numbered(p)])
    case Insert(id) =>
      t.(pending := t.pending + {id}, cells := t.cells[id := None],
         calls := t.calls[id := Inserted(t.calls[id].payload)])
    case Queue(id) =>
      var p := t.calls[id].payload;
      t.(calls := t.calls[id := if s.queueOpen then Waiting(p) else Unqueued(p)])
    case Withdraw(id) =>
      t.(pending := t.pending - {id}, calls := t.calls[id := Done(t.calls[id].payload, Rejected(CLOSED))])
    case Receive(id) => t.(calls := t.calls[id := Done(t.calls[id].payload, t.cells[id].value)])
    case TimeOut(id) => t.(calls := t.calls[id := TimedOut(t.calls[id].payload)])
    case Expire(id) =>
      t.(pending := t.pending - {id}, calls := t.calls[id := Done(t.calls[id].payload, OutcomeUnknown)])
    case ReadReply(r) => t.(pending := t.pending - {r.id})
    case Deliver =>
      var id := s.reader.reply.id;
      if id in t.cells then t.(cells := t.cells[id := Some(OutcomeOf(s.reader.reply))]) else t
    case Drain => t.(pending := {}, cells := FailAll(t.cells, t.pending))
    case CloseQueue => t
    case SetActive(_) => t
  }

  function Sees(s: State, a: Action): seq<Observation>
    requires Enabled(s, a)
  {
    match a
    case LookUp(c) => [LookedUp(c, s.activeTurn.value)]
    case Insert(id) => [Registered(id)]
    case Queue(id) => if s.queueOpen then [Queued(id, s.table.calls[id].payload)] else []
    case Withdraw(id) => [Resolved(id, Rejected(CLOSED))]
    case Receive(id) => [Resolved(id, s.table.cells[id].value)]
    case TimeOut(id) => [Expired(id)]
    case Expire(id) => [Resolved(id, OutcomeUnknown)]
    case ReadReply(r) => [Replied(r)]
    case _ => []
  }

  function ReaderStep(s: State, a: Action): Reader
    requires Enabled(s, a)
  {
    match a
    case ReadReply(r) => if r.id in s.table.pending then Holding(r) else Idle
    case Deliver => Idle
    case Drain => Ended
    case _ => s.reader
  }

  function Step(s: State, a: Action): State
    requires Enabled(s, a)
  {
    State(if a.Start? || a.StartSteer? then s.nextId + 1 else s.nextId,
          s.queueOpen && !a.CloseQueue?,
          if a.SetActive? then a.turn else s.activeTurn,
          ReaderStep(s, a),
          TableStep(s, a),
          s.log + Sees(s, a))
  }

  predicate Possible(s: State, actions: seq<Action>)
    decreases |actions|
  {
    actions == [] || (Enabled(s, actions[0]) && Possible(Step(s, actions[0]), actions[1..]))
  }

  function Run(s: State, actions: seq<Action>): State
    requires Possible(s, actions)
    decreases |actions|
  {
    if actions == [] then s else Run(Step(s, actions[0]), actions[1..])
  }

  // ---------------------------------------------- what the observations amount to

  /** What a log says of each request; `replies` holds the first reply read since the request was registered. */
  datatype Summary = Summary(
    lookedUp: map<CallerId, string>,
    registered: set<RequestId>,
    queued: map<RequestId, Payload>,
    expired: set<RequestId>,
    replies: map<RequestId, Reply>,
    resolved: set<RequestId>)

  const NOTHING := Summary(map[], {}, map[], {}, map[], {})

  function Absorb(m: Summary, o: Observation): Summary {
    match o
    case LookedUp(c, turn) => m.(lookedUp := m.lookedUp[c := turn])
    case Registered(id) => m.(registered := m.registered + {id})
    case Queued(id, p) => m.(queued := m.queued[id := p])
    case Expired(id) => m.(expired := m.expired + {id})
    case Replied(r) =>
      if r.id in m.registered && r.id !in m.replies then m.(replies := m.replies[r.id := r]) else m
    case Resolved(id, _) => m.(resolved := m.resolved + {id})
  }

  function Summarize(log: seq<Observation>): Summary {
    if log == [] then NOTHING else Absorb(Summarize(log[..|log| - 1]), log[|log| - 1])
  }

  /** The outcome the observations of a request determine. */
  function Verdict(m: Summary, id: RequestId): Outcome {
    if id !in m.queued then Rejected(CLOSED)
    else if id in m.expired then OutcomeUnknown
    else if id in m.replies then OutcomeOf(m.replies[id])
    else OutcomeUnknown
  }

  /** `CodexSteerRequest::execute`: how the outcome of a steer is reported. */
  datatype SteerOutcome = Accepted(turn: string) | SteerRejected(error: string) | SteerUnknown

  function SteerReport(expectedTurn: string, o: Outcome): SteerOutcome {
    match o
    case Rejected(e) => SteerRejected(e)
    case OutcomeUnknown => SteerUnknown
    case Success(v) => if v.turnId == Some(expectedTurn) then Accepted(expectedTurn) else SteerUnknown
  }
}
