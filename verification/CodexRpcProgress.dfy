/** What can and must happen to the requests of the Codex client: nobody gets stuck, and nothing is resolved unseen. */
module CodexRpcProgress {
  import opened Wrappers
  import opened CodexRpc
  import opened CodexRpcCalls
  import opened CodexRpcTheorems

  lemma RunFirst(s: State, a: Action, rest: seq<Action>)
    requires Enabled(s, a) && Possible(Step(s, a), rest)
    ensures Possible(s, [a] + rest) && Run(s, [a] + rest) == Run(Step(s, a), rest)
  {
    assert ([a] + rest)[1..] == rest;
  }

  // --------------------------------------------------------- what always holds

  /** Identifiers are given out one after the other from 1; the queue is open until it is closed, for good. */
  ghost predicate Ordinary(s: State) {
    && s.nextId >= 1 && (forall id :: id in s.table.calls <==> 1 <= id < s.nextId)
    && (forall id <- s.table.calls :: s.table.calls[id].Done? ==> Resolved(id, s.table.calls[id].outcome) in s.log)
    && (forall id <- s.table.calls :: !s.table.calls[id].Numbered? ==> id in s.table.cells)
  }

  lemma StepKeepsOrdinary(s: State, a: Action)
    requires Ordinary(s) && Enabled(s, a)
    ensures Ordinary(Step(s, a))
  {
    var s' := Step(s, a);
    forall id | id in s'.table.calls && s'.table.calls[id].Done?
      ensures Resolved(id, s'.table.calls[id].outcome) in s'.log
    {
      if !(id in s.table.calls && s.table.calls[id] == s'.table.calls[id]) {
        assert Sees(s, a) == [Resolved(id, s'.table.calls[id].outcome)];
      }
    }
  }

  lemma {:induction false} RunKeepsOrdinary(s: State, actions: seq<Action>)
    requires Ordinary(s) && Possible(s, actions)
    ensures Ordinary(Run(s, actions))
    ensures Run(s, actions).queueOpen <==> s.queueOpen && CloseQueue !in actions
    decreases |actions|
  {
    if actions != [] {
      StepKeepsOrdinary(s, actions[0]);
      RunKeepsOrdinary(Step(s, actions[0]), actions[1..]);
    }
  }

  /**
   In every run identifiers are consecutive, the queue is open exactly until it is closed, and a caller that is done
   has the outcome that was observed.
   */
  lemma RunsAreOrdinary(actions: seq<Action>)
    requires Possible(INITIAL, actions)
    ensures var s := Run(INITIAL, actions);
      && (forall id :: id in s.table.calls <==> 1 <= id < s.nextId)
      && (s.queueOpen <==> CloseQueue !in actions)
      && (forall id <- s.table.calls :: s.table.calls[id].Done? ==> Resolved(id, s.table.calls[id].outcome) in s.log)
  {
    RunKeepsOrdinary(INITIAL, actions);
  }

  // --------------------------------------------------------- what can always happen

  /** The caller's own step, wherever it is. */
  function NextStep(s: State, id: RequestId): Action
    requires id in s.table.calls && !s.table.calls[id].Done?
  {
    match s.table.calls[id]
    case Numbered(_) => Insert(id)
    case Inserted(_) => Queue(id)
    case Unqueued(_) => Withdraw(id)
    case TimedOut(_) => Expire(id)
    case Waiting(_) => if id in s.table.cells && s.table.cells[id].Some? then Receive(id) else TimeOut(id)
  }

  function StepsLeft(c: Call): nat {
    match c
    case Numbered(_) => 4
    case Inserted(_) => 3
    case Waiting(_) => 2
    case Unqueued(_) => 1
    case TimedOut(_) => 1
    case Done(_, _) => 0
  }

  lemma NextStepCounts(s: State, id: RequestId)
    requires Ordinary(s) && id in s.table.calls && !s.table.calls[id].Done?
    ensures var a := NextStep(s, id);
      && Enabled(s, a) && Ordinary(Step(s, a)) && id in Step(s, a).table.calls
      && StepsLeft(Step(s, a).table.calls[id]) < StepsLeft(s.table.calls[id])
  {
    StepKeepsOrdinary(s, NextStep(s, id));
  }

  lemma {:induction false} CallerFinishes(s: State, id: RequestId) returns (more: seq<Action>)
    requires Ordinary(s) && id in s.table.calls
    ensures Possible(s, more) && |more| <= 4
    ensures forall a <- more :: a in {Insert(id), Queue(id), Withdraw(id), Receive(id), TimeOut(id), Expire(id)}
    ensures |more| <= StepsLeft(s.table.calls[id])
    ensures var v := Run(s, more); id in v.table.calls && v.table.calls[id].Done?
    decreases StepsLeft(s.table.calls[id])
  {
    if s.table.calls[id].Done? {
      more := [];
    } else {
      NextStepCounts(s, id);
      var a := NextStep(s, id);
      var rest := CallerFinishes(Step(s, a), id);
      RunFirst(s, a, rest);
      more := [a] + rest;
    }
  }

  /**
   No caller gets stuck: from any state of any run each request can be resolved by at most four steps of its own caller,
   without another reply; and what it is resolved as is observed.
   */
  lemma EveryRequestCanBeResolved(actions: seq<Action>, id: RequestId) returns (more: seq<Action>)
    requires Possible(INITIAL, actions) && id in Run(INITIAL, actions).table.calls
    ensures var s := Run(INITIAL, actions);
      && Possible(s, more) && |more| <= 4
      && (forall a <- more :: a in {Insert(id), Queue(id), Withdraw(id), Receive(id), TimeOut(id), Expire(id)})
      && id in Run(s, more).table.calls && Run(s, more).table.calls[id].Done?
      && Resolved(id, Run(s, more).table.calls[id].outcome) in Run(s, more).log
  {
    RunKeepsOrdinary(INITIAL, actions);
    more := CallerFinishes(Run(INITIAL, actions), id);
    RunKeepsOrdinary(Run(INITIAL, actions), more);
  }

  /** The reader is idle again after every response it routes, so that it can go on reading. */
  lemma ReaderGoesOn(s: State, reply: Reply)
    requires s.reader.Idle?
    ensures Enabled(s, ReadReply(reply)) && Routed(s, reply).reader.Idle?
  {
  }

  /**
   A request that is waited for can be answered: from any state of any run with an idle reader the next response
   bearing its identifier resolves it, as success with its result or as rejected with its error.
   */
  lemma WaitingRequestsCanBeAnswered(actions: seq<Action>, reply: Reply)
    requires Possible(INITIAL, actions)
    requires var s := Run(INITIAL, actions);
      && s.reader.Idle? && reply.id in s.table.pending && reply.id in s.table.calls && s.table.calls[reply.id].Waiting?
    ensures var s, answering := Run(INITIAL, actions), [ReadReply(reply), Deliver, Receive(reply.id)];
      && Possible(s, answering) && reply.id in Run(s, answering).table.calls
      && Run(s, answering).table.calls[reply.id].Done?
      && (reply.error == None ==> Run(s, answering).table.calls[reply.id].outcome == Success(reply.result))
      && (reply.error.Some? ==> Run(s, answering).table.calls[reply.id].outcome == Rejected(reply.error.value))
  {
    RunKeepsOrdinary(INITIAL, actions);
    var s := Run(INITIAL, actions);
    var u := Step(s, ReadReply(reply));
    var v := Step(u, Deliver);
    var one := [Receive(reply.id)];
    assert one[1..] == [] && one[0] == Receive(reply.id);
    assert Run(v, one) == Step(v, Receive(reply.id));
    RunFirst(u, Deliver, one);
    RunFirst(s, ReadReply(reply), [Deliver] + one);
    assert [ReadReply(reply), Deliver, Receive(reply.id)] == [ReadReply(reply)] + ([Deliver] + one);
  }

  /** When the output ends every pending request is answered with an unknown outcome, and no other channel changes. */
  lemma DrainAnswersEveryone(s: State)
    requires Enabled(s, Drain)
    ensures var t := Step(s, Drain).table;
      && t.pending == {} && t.calls == s.table.calls && t.cells.Keys == s.table.cells.Keys
      && forall id <- t.cells ::
           t.cells[id] == if id in s.table.pending then Some(OutcomeUnknown) else s.table.cells[id]
  {
  }
}
