/** The places where the client changes the pending table: a new request, response routing and `fail_pending`. */
module CodexRpcCalls {
  import opened Wrappers
  import opened CodexRpc

  /** The pending map and the one-shot channels its senders feed. */
  class PendingResponses {
    var nextId: RequestId
    var pending: set<RequestId>
    var cells: map<RequestId, Option<Outcome>>

    ghost predicate Shows(t: Table)
      reads this
    {
      t.pending == pending && t.cells == cells
    }

    /** A sender in the map has an empty channel: a channel is filled only after its sender was taken out. */
    ghost predicate Valid()
      reads this
    {
      pending <= cells.Keys && (forall id <- pending :: cells[id].None?) && forall id <- cells :: id < nextId
    }

    constructor ()
      ensures Valid() && Shows(INITIAL.table) && nextId == INITIAL.nextId
    {
      nextId, pending, cells := 1, {}, map[];
    }

    /** The start of a request: a fresh identifier, its sender in the map, and an empty channel. */
    method Register() returns (id: RequestId)
      requires Valid()
      modifies this
      ensures Valid() && id == old(nextId) && id !in old(cells)
      ensures forall s: State, a: Action :: old(Shows(s.table)) && s.nextId == old(nextId) && Starts(s, a) ==>
                Shows(Entered(s, a).table) && nextId == Entered(s, a).nextId
    {
      id := nextId;
      nextId := nextId + 1;
      cells := cells[id := None];
      pending := pending + {id};
    }

    /** A response line removes the sender and, if there was one, sends it the outcome. */
    method Route(reply: Reply)
      requires Valid()
      modifies this
      ensures Valid() && nextId == old(nextId)
      ensures forall s: State :: s.reader.Idle? && old(Shows(s.table)) ==> Shows(Routed(s, reply).table)
      ensures reply.id !in pending && pending == old(pending) - {reply.id} && cells.Keys == old(cells).Keys
      ensures forall id <- cells :: id != reply.id || id !in old(pending) ==> cells[id] == old(cells)[id]
      ensures reply.id in old(pending) && reply.error.None? ==> cells[reply.id] == Some(Success(reply.result))
      ensures reply.id in old(pending) && reply.error.Some? ==> cells[reply.id] == Some(Rejected(reply.error.value))
    {
      var known := reply.id in pending;
      pending := pending - {reply.id};
      if known {
        cells := cells[reply.id := Some(OutcomeOf(reply))];
      }
      forall s: State | s.reader.Idle? && old(Shows(s.table))
        ensures Shows(Routed(s, reply).table)
      {
        assert (reply.id in s.table.pending) == known;
      }
    }

    /** `fail_pending`: drains the map sender by sender, in whatever order the map yields them. */
    method FailPending()
      requires Valid()
      modifies this
      ensures Valid() && nextId == old(nextId)
      ensures forall s: State :: s.reader.Idle? && old(Shows(s.table)) ==> Shows(Step(s, Drain).table)
      ensures pending == {} && cells.Keys == old(cells).Keys
      ensures forall id <- cells :: cells[id] == if id in old(pending) then Some(OutcomeUnknown) else old(cells)[id]
    {
      ghost var toDo := pending;
      while pending != {}
        invariant Valid() && nextId == old(nextId)
        invariant pending <= toDo && cells.Keys == old(cells).Keys && toDo <= old(cells).Keys
        invariant forall id <- cells ::
                    cells[id] == if id in toDo - pending then Some(OutcomeUnknown) else old(cells)[id]
        decreases pending
      {
        var id :| id in pending;
        pending := pending - {id};
        cells := cells[id := Some(OutcomeUnknown)];
      }
      assert cells == FailAll(old(cells), toDo);
    }
  }

  /** A new request, of a steer or of another caller. */
  predicate Starts(s: State, a: Action) { (a.Start? || a.StartSteer?) && Enabled(s, a) }

  /** The caller's two steps for a new request. */
  function Entered(s: State, a: Action): State
    requires Starts(s, a)
  {
    Step(Step(s, a), Insert(s.nextId))
  }

  /** The reader's two steps for one response line. */
  function Routed(s: State, reply: Reply): State
    requires s.reader.Idle?
  {
    var read := Step(s, ReadReply(reply));
    if read.reader.Holding? then Step(read, Deliver) else read
  }
}
