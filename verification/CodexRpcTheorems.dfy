/** The promises of the Codex JSON-RPC client over whole runs. */
module CodexRpcTheorems {
  import opened Wrappers
  import opened CodexRpc

  predicate Untouched(m: Summary, id: RequestId) {
    id !in m.registered && id !in m.queued && id !in m.expired && id !in m.resolved
  }

  /** Where a request is agrees with what was observed of it. */
  predicate CallOk(s: State, m: Summary, id: RequestId)
    requires id in s.table.calls
  {
    match s.table.calls[id]
    case Numbered(_) => Untouched(m, id)
    case Inserted(_) => id in m.registered && id !in m.queued && id !in m.expired && id !in m.resolved
    case Waiting(p) =>
      id in m.registered && id in m.queued && m.queued[id] == p && id !in m.expired && id !in m.resolved
    case Unqueued(_) => id in m.registered && id !in m.queued && id !in m.expired && id !in m.resolved
    case TimedOut(p) =>
      id in m.registered && id in m.queued && m.queued[id] == p && id in m.expired && id !in m.resolved
    case Done(_, _) => id in m.resolved && id in m.registered
  }

  /** A request's channel holds the outcome of its first reply, or of the drain. */
  predicate CellOk(s: State, m: Summary, id: RequestId)
    requires id in s.table.cells
  {
    && (s.table.cells[id].Some? ==>
          && id !in s.table.pending
          && if id in m.replies then s.table.cells[id].value == OutcomeOf(m.replies[id])
             else s.table.cells[id].value == OutcomeUnknown && s.reader.Ended?)
    && (id in s.table.pending ==> id !in m.replies)
    && (id in s.table.calls && (s.table.calls[id].Inserted? || s.table.calls[id].Waiting?)
        && s.table.cells[id].None? && id !in s.table.pending ==>
          s.reader.Holding? && s.reader.reply.id == id)
  }

  predicate Calls(s: State, m: Summary) {
    forall id <- s.table.calls :: id < s.nextId && CallOk(s, m, id)
  }

  /** The caller of a steer found the turn active that it expects. */
  predicate SteerOk(p: Payload, m: Summary) {
    p.Steer? ==> p.caller in m.lookedUp && m.lookedUp[p.caller] == p.expectedTurn
  }

  predicate Steers(s: State, m: Summary) {
    && (forall id <- s.table.calls :: SteerOk(s.table.calls[id].payload, m))
    && (forall c <- s.table.lookers :: c in m.lookedUp && m.lookedUp[c] == s.table.lookers[c])
    && m.lookedUp.Keys == s.table.callers
  }

  ghost predicate Domains(s: State, m: Summary) {
    && m.registered <= s.table.calls.Keys && m.queued.Keys <= s.table.calls.Keys
    && m.expired <= s.table.calls.Keys && m.resolved <= s.table.calls.Keys
    && m.replies.Keys <= m.registered && m.registered == s.table.cells.Keys && s.table.pending <= m.registered
  }

  predicate Cells(s: State, m: Summary) { forall id <- s.table.cells :: CellOk(s, m, id) }

  /** A reply in the reader's hands is the first for its request, whose channel is still empty. */
  predicate Holds(s: State, m: Summary) {
    && (forall id <- m.replies :: m.replies[id].id == id)
    && (s.reader.Holding? ==>
          var id := s.reader.reply.id;
          id in m.replies && m.replies[id] == s.reader.reply && id !in s.table.pending
          && id in s.table.cells && s.table.cells[id].None?)
  }

  /** A request that succeeded was queued as it is and got its first reply's result. */
  predicate Successes(s: State, m: Summary) {
    forall id <- s.table.calls :: s.table.calls[id].Done? && s.table.calls[id].outcome.Success? ==>
      && id in m.queued && m.queued[id] == s.table.calls[id].payload
      && id in m.replies && OutcomeOf(m.replies[id]) == s.table.calls[id].outcome
  }

  ghost predicate Inv(s: State, m: Summary) {
    Successes(s, m) && Calls(s, m) && Steers(s, m) && Domains(s, m) && Cells(s, m) && Holds(s, m)
  }

  function After(m: Summary, seen: seq<Observation>): Summary {
    if seen == [] then m else Absorb(m, seen[0])
  }

  /** A resolution reports what the observations determine, and is the first for its request. */
  predicate ResolutionIsRight(m: Summary, seen: seq<Observation>) {
    seen != [] && seen[0].Resolved? ==>
      seen[0].id !in m.resolved && seen[0].outcome == Verdict(m, seen[0].id)
  }

  lemma StepResolvesRight(s: State, a: Action, m: Summary)
    requires Inv(s, m) && Enabled(s, a)
    ensures ResolutionIsRight(m, Sees(s, a))
  {
    if a.Receive? {
      assert CellOk(s, m, a.id) && CallOk(s, m, a.id);
    } else if a.Withdraw? || a.Expire? {
      assert CallOk(s, m, a.id);
    }
  }

  lemma StepKeepsCalls(s: State, s': State, a: Action, m: Summary, m': Summary)
    requires Calls(s, m) && Domains(s, m) && Enabled(s, a)
    requires s' == Step(s, a) && m' == After(m, Sees(s, a))
    ensures Calls(s', m')
  {
    forall id | id in s'.table.calls
      ensures id < s'.nextId && CallOk(s', m', id)
    {
      if id in s.table.calls { assert CallOk(s, m, id); }
    }
  }

  /** What was queued and first replied stays so; a request is queued at most once. */
  lemma FactsStay(m: Summary, seen: seq<Observation>, id: RequestId)
    requires seen != [] && seen[0].Queued? ==> seen[0].id !in m.queued
    ensures id in m.queued ==> id in After(m, seen).queued && After(m, seen).queued[id] == m.queued[id]
    ensures id in m.replies ==> id in After(m, seen).replies && After(m, seen).replies[id] == m.replies[id]
  {
  }

  /** A request that is done stays as it is: identifiers are not used again. */
  lemma DoneStays(s: State, a: Action, id: RequestId)
    requires Enabled(s, a) && id in s.table.calls && s.table.calls[id].Done? && id < s.nextId
    ensures id in Step(s, a).table.calls && Step(s, a).table.calls[id] == s.table.calls[id]
  {
  }

  lemma NewlyDone(s: State, a: Action, id: RequestId)
    requires Enabled(s, a) && id in Step(s, a).table.calls
    requires var c := Step(s, a).table.calls[id]; c.Done? && c.outcome.Success?
    ensures id in s.table.calls && (s.table.calls[id].Done? || a == Receive(id))
  {
  }

  lemma StepKeepsSuccesses(s: State, s': State, a: Action, m: Summary, m': Summary)
    requires Inv(s, m) && Enabled(s, a)
    requires s' == Step(s, a) && m' == After(m, Sees(s, a))
    ensures Successes(s', m')
  {
    if a.Queue? { assert CallOk(s, m, a.id); }
    forall id | id in s'.table.calls && s'.table.calls[id].Done? && s'.table.calls[id].outcome.Success?
      ensures id in m'.queued && m'.queued[id] == s'.table.calls[id].payload
      ensures id in m'.replies && OutcomeOf(m'.replies[id]) == s'.table.calls[id].outcome
    {
      NewlyDone(s, a, id);
      FactsStay(m, Sees(s, a), id);
      assert CallOk(s, m, id);
      if s.table.calls[id].Done? {
        DoneStays(s, a, id);
      } else {
        assert CellOk(s, m, id);
      }
    }
  }

  lemma StepKeepsSteers(s: State, s': State, a: Action, m: Summary, m': Summary)
    requires Steers(s, m) && Enabled(s, a)
    requires s' == Step(s, a) && m' == After(m, Sees(s, a))
    ensures Steers(s', m')
  {
  }

  lemma StepKeepsDomains(s: State, s': State, a: Action, m: Summary, m': Summary)
    requires Domains(s, m) && Enabled(s, a)
    requires s' == Step(s, a) && m' == After(m, Sees(s, a))
    ensures Domains(s', m')
  {
  }

  lemma StepKeepsCells(s: State, s': State, a: Action, m: Summary, m': Summary)
    requires Calls(s, m) && Domains(s, m) && Cells(s, m) && Holds(s, m) && Enabled(s, a)
    requires s' == Step(s, a) && m' == After(m, Sees(s, a))
    ensures Cells(s', m')
  {
    forall id | id in s'.table.cells
      ensures CellOk(s', m', id)
    {
      if id in s.table.cells { assert CellOk(s, m, id); }
      if id in s.table.calls { assert CallOk(s, m, id); }
    }
  }

  lemma StepKeepsHolds(s: State, s': State, a: Action, m: Summary, m': Summary)
    requires Calls(s, m) && Domains(s, m) && Cells(s, m) && Holds(s, m) && Enabled(s, a)
    requires s' == Step(s, a) && m' == After(m, Sees(s, a))
    ensures Holds(s', m')
  {
    if s.reader.Holding? && s.reader.reply.id in s.table.calls { assert CallOk(s, m, s.reader.reply.id); }
    if a.ReadReply? && a.reply.id in s.table.pending { assert CellOk(s, m, a.reply.id); }
  }

  lemma StepKeepsInv(s: State, a: Action, m: Summary)
    requires Inv(s, m) && Enabled(s, a)
    ensures Inv(Step(s, a), After(m, Sees(s, a))) && ResolutionIsRight(m, Sees(s, a))
  {
    var s', m' := Step(s, a), After(m, Sees(s, a));
    StepResolvesRight(s, a, m);
    StepKeepsCalls(s, s', a, m, m');
    StepKeepsSuccesses(s, s', a, m, m');
    StepKeepsSteers(s, s', a, m, m');
    StepKeepsDomains(s, s', a, m, m');
    StepKeepsCells(s, s', a, m, m');
    StepKeepsHolds(s, s', a, m, m');
  }

  // ----------------------------------------------------------------- whole runs

  ghost predicate ResolutionsRight(log: seq<Observation>) {
    forall k :: 0 <= k < |log| && log[k].Resolved? ==>
      var m := Summarize(log[..k]);
      log[k].id !in m.resolved && log[k].outcome == Verdict(m, log[k].id)
  }

  /** A steer is queued only for the turn its caller found active. */
  ghost predicate SteersRight(log: seq<Observation>) {
    forall k :: 0 <= k < |log| && log[k].Queued? ==> SteerOk(log[k].payload, Summarize(log[..k]))
  }

  /** Every caller looks the active turn up once. */
  ghost predicate LooksOnce(log: seq<Observation>) {
    forall k :: 0 <= k < |log| && log[k].LookedUp? ==> log[k].caller !in Summarize(log[..k]).lookedUp
  }

  lemma {:induction false} SummaryLooksUp(log: seq<Observation>, c: CallerId, turn: string)
    requires LooksOnce(log)
    ensures (c in Summarize(log).lookedUp && Summarize(log).lookedUp[c] == turn) <==> LookedUp(c, turn) in log
  {
    if log != [] {
      var before, last := log[..|log| - 1], log[|log| - 1];
      assert forall k :: 0 <= k < |before| ==> before[..k] == log[..k];
      assert log[..|log| - 1] == before;
      SummaryLooksUp(before, c, turn);
      assert log == before + [last];
      if last.LookedUp? && c in Summarize(before).lookedUp {
        assert last.caller != c;
      }
      if last.LookedUp? && last.caller == c {
        assert LookedUp(c, turn) !in before;
      }
    }
  }

  /** What must hold of the next observation. */
  predicate NextIsRight(m: Summary, seen: seq<Observation>) {
    && ResolutionIsRight(m, seen)
    && (seen != [] && seen[0].Queued? ==> SteerOk(seen[0].payload, m))
    && (seen != [] && seen[0].LookedUp? ==> seen[0].caller !in m.lookedUp)
  }

  lemma LogGrows(log: seq<Observation>, seen: seq<Observation>, m: Summary)
    requires ResolutionsRight(log) && SteersRight(log) && LooksOnce(log) && m == Summarize(log) && |seen| <= 1
    requires NextIsRight(m, seen)
    ensures Summarize(log + seen) == After(m, seen)
    ensures ResolutionsRight(log + seen) && SteersRight(log + seen) && LooksOnce(log + seen)
  {
    hide Absorb, Verdict, SteerOk, ResolutionsRight, SteersRight, LooksOnce;
    if seen == [] {
      assert log + seen == log;
    } else {
      var more := log + seen;
      assert more[..|log|] == log && more[|log|] == seen[0] && |more| == |log| + 1;
      ResolutionsGrow(log, seen[0]);
      LooksGrow(log, seen[0]);
      assert log + [seen[0]] == more;
    }
  }

  lemma ResolutionsGrow(log: seq<Observation>, o: Observation)
    requires ResolutionsRight(log) && ResolutionIsRight(Summarize(log), [o])
    ensures ResolutionsRight(log + [o])
  {
    hide Summarize, Verdict;
    var more := log + [o];
    assert more[..|log|] == log && more[|log|] == o;
    assert forall k :: 0 <= k < |log| ==> more[..k] == log[..k] && more[k] == log[k];
  }

  lemma LooksGrow(log: seq<Observation>, o: Observation)
    requires SteersRight(log) && LooksOnce(log) && NextIsRight(Summarize(log), [o])
    ensures SteersRight(log + [o]) && LooksOnce(log + [o])
  {
    hide Summarize, SteerOk, ResolutionIsRight;
    var more := log + [o];
    assert more[..|log|] == log && more[|log|] == o;
    assert forall k :: 0 <= k < |log| ==> more[..k] == log[..k] && more[k] == log[k];
  }

  ghost predicate Good(s: State) {
    Inv(s, Summarize(s.log)) && ResolutionsRight(s.log) && SteersRight(s.log) && LooksOnce(s.log)
  }

  lemma StepsLookRight(s: State, a: Action, m: Summary)
    requires Steers(s, m) && Enabled(s, a)
    ensures Sees(s, a) != [] && Sees(s, a)[0].Queued? ==> SteerOk(Sees(s, a)[0].payload, m)
    ensures Sees(s, a) != [] && Sees(s, a)[0].LookedUp? ==> Sees(s, a)[0].caller !in m.lookedUp
  {
  }

  lemma StepKeepsGood(s: State, a: Action)
    requires Good(s) && Enabled(s, a)
    ensures Good(Step(s, a))
  {
    var m := Summarize(s.log);
    StepKeepsInv(s, a, m);
    StepsLookRight(s, a, m);
    LogGrows(s.log, Sees(s, a), m);
  }

  lemma {:induction false} RunKeepsGood(s: State, actions: seq<Action>)
    requires Good(s) && Possible(s, actions)
    ensures Good(Run(s, actions))
    decreases |actions|
  {
    if actions != [] {
      StepKeepsGood(s, actions[0]);
      RunKeepsGood(Step(s, actions[0]), actions[1..]);
    }
  }

  /**
   In every run each request resolves at most once, and its outcome is what was observed of it determines: rejected
   as closed if it was never queued, unknown if it expired, else what its first reply says, else unknown.
   */
  lemma OutcomesAreDetermined(actions: seq<Action>, k: nat)
    requires Possible(INITIAL, actions)
    ensures var log := Run(INITIAL, actions).log;
      k < |log| && log[k].Resolved? ==>
        && log[k].outcome == Verdict(Summarize(log[..k]), log[k].id)
        && forall j :: 0 <= j < |log| && j != k && log[j].Resolved? ==> log[j].id != log[k].id
  {
    RunKeepsGood(INITIAL, actions);
    var log := Run(INITIAL, actions).log;
    if k < |log| && log[k].Resolved? {
      forall j | 0 <= j < |log| && j != k && log[j].Resolved?
        ensures log[j].id != log[k].id
      {
        if j < k { ResolvedIsSummarized(log[..k], j); } else { ResolvedIsSummarized(log[..j], k); }
      }
    }
  }

  lemma ResolvedIsSummarized(log: seq<Observation>, j: nat)
    requires j < |log| && log[j].Resolved?
    ensures log[j].id in Summarize(log).resolved
  {
    if j < |log| - 1 {
      ResolvedIsSummarized(log[..|log| - 1], j);
    }
  }

  lemma ReplyWasRead(log: seq<Observation>, id: RequestId)
    requires id in Summarize(log).replies
    ensures Replied(Summarize(log).replies[id]) in log && Summarize(log).replies[id].id == id
  {
    var before := log[..|log| - 1];
    if id in Summarize(before).replies {
      ReplyWasRead(before, id);
    }
  }

  lemma QueuedWasQueued(log: seq<Observation>, id: RequestId, p: Payload)
    ensures id in Summarize(log).queued && Summarize(log).queued[id] == p ==> Queued(id, p) in log
    ensures Queued(id, p) in log ==> id in Summarize(log).queued
  {
    if log != [] {
      var before, last := log[..|log| - 1], log[|log| - 1];
      assert log == before + [last];
      QueuedWasQueued(before, id, p);
    }
  }

  /** Success carries a reply bearing the request's id; rejection means never queued, or an error reply with its id. */
  lemma OutcomesHaveReasons(actions: seq<Action>, k: nat)
    requires Possible(INITIAL, actions)
    ensures var log := Run(INITIAL, actions).log;
      k < |log| && log[k].Resolved? ==>
        var id := log[k].id;
        match log[k].outcome
        case Success(v) => Replied(Reply(id, None, v)) in log[..k] && exists p :: Queued(id, p) in log[..k]
        case Rejected(e) =>
          (forall p :: Queued(id, p) !in log[..k]) || exists v :: Replied(Reply(id, Some(e), v)) in log[..k]
        case OutcomeUnknown => exists p :: Queued(id, p) in log[..k]
  {
    OutcomesAreDetermined(actions, k);
    var log := Run(INITIAL, actions).log;
    if k < |log| && log[k].Resolved? {
      var id, m := log[k].id, Summarize(log[..k]);
      if id in m.replies { ReplyWasRead(log[..k], id); }
      if id in m.queued {
        QueuedWasQueued(log[..k], id, m.queued[id]);
      } else {
        forall p ensures Queued(id, p) !in log[..k] { QueuedWasQueued(log[..k], id, p); }
      }
    }
  }

  /**
   A steer reported as accepted for turn t was queued expecting t, its own caller had found t active before, and no
   other turn, and the reply bearing that very request's id named t.
   */
  lemma AcceptedSteersNameTheirTurn(actions: seq<Action>, id: RequestId, c: CallerId, t: string)
    requires Possible(INITIAL, actions)
    ensures var s := Run(INITIAL, actions);
      id in s.table.calls && s.table.calls[id].Done? && s.table.calls[id].payload == Steer(c, t)
      && SteerReport(t, s.table.calls[id].outcome).Accepted? ==>
        && s.table.calls[id].outcome.value.turnId == Some(t)
        && Replied(Reply(id, None, s.table.calls[id].outcome.value)) in s.log
        && (exists k :: 0 <= k < |s.log| && s.log[k] == Queued(id, Steer(c, t)) && LookedUp(c, t) in s.log[..k])
        && (forall u :: LookedUp(c, u) in s.log ==> u == t)
  {
    RunKeepsGood(INITIAL, actions);
    var s := Run(INITIAL, actions);
    var m := Summarize(s.log);
    if id in s.table.calls && s.table.calls[id].Done? && s.table.calls[id].outcome.Success?
       && s.table.calls[id].payload == Steer(c, t)
    {
      assert CallOk(s, m, id) && SteerOk(s.table.calls[id].payload, m);
      ReplyWasRead(s.log, id);
      QueuedWasQueued(s.log, id, s.table.calls[id].payload);
      var k :| 0 <= k < |s.log| && s.log[k] == Queued(id, Steer(c, t));
      LooksOnceBefore(s.log, k);
      SummaryLooksUp(s.log[..k], c, t);
      forall u | LookedUp(c, u) in s.log ensures u == t { SummaryLooksUp(s.log, c, u); }
    }
  }

  lemma LooksOnceBefore(log: seq<Observation>, k: nat)
    requires LooksOnce(log) && k <= |log|
    ensures LooksOnce(log[..k])
  {
    assert forall j :: 0 <= j < k ==> log[..k][..j] == log[..j];
  }

  // ------------------------------------------------------- replies and what they decide

  /** The reply was the first that bore its request's identifier after that request was registered. */
  ghost predicate RepliedFirst(log: seq<Observation>, reply: Reply) {
    exists k :: 0 <= k < |log| && log[k] == Replied(reply) && Registered(reply.id) in log[..k]
                && forall j :: 0 <= j < k && log[j].Replied? && log[j].reply.id == reply.id ==>
                     Registered(reply.id) !in log[..j]
  }

  lemma {:induction false} SummaryRegisters(log: seq<Observation>, id: RequestId)
    ensures id in Summarize(log).registered <==> Registered(id) in log
    ensures id in Summarize(log).expired <==> Expired(id) in log
  {
    if log != [] {
      var before, last := log[..|log| - 1], log[|log| - 1];
      assert log == before + [last];
      SummaryRegisters(before, id);
    }
  }

  /** Somebody replied to the registered request before. */
  ghost predicate HasReply(log: seq<Observation>, id: RequestId) {
    exists j :: 0 <= j < |log| && log[j].Replied? && log[j].reply.id == id && Registered(id) in log[..j]
  }

  lemma RepliedFirstGrows(log: seq<Observation>, last: Observation, reply: Reply)
    ensures RepliedFirst(log + [last], reply) <==>
            RepliedFirst(log, reply)
            || (last == Replied(reply) && Registered(reply.id) in log && !HasReply(log, reply.id))
  {
    var more := log + [last];
    assert more[..|log|] == log && more[|log|] == last;
    assert forall k :: 0 <= k < |log| ==> more[k] == log[k] && more[..k] == log[..k];
    if k :| 0 <= k < |log| && log[k] == Replied(reply) && Registered(reply.id) in log[..k]
            && forall j :: 0 <= j < k && log[j].Replied? && log[j].reply.id == reply.id ==>
                 Registered(reply.id) !in log[..j] {
      assert more[k] == Replied(reply) && Registered(reply.id) in more[..k];
    }
    if last == Replied(reply) && Registered(reply.id) in log && !HasReply(log, reply.id) {
      assert more[|log|] == Replied(reply) && Registered(reply.id) in more[..|log|];
    }
  }

  lemma HasReplyGrows(log: seq<Observation>, last: Observation, id: RequestId)
    ensures HasReply(log + [last], id) <==>
            HasReply(log, id) || (last.Replied? && last.reply.id == id && Registered(id) in log)
  {
    var more := log + [last];
    assert more[..|log|] == log && more[|log|] == last;
    assert forall k :: 0 <= k < |log| ==> more[k] == log[k] && more[..k] == log[..k];
    if j :| 0 <= j < |log| && log[j].Replied? && log[j].reply.id == id && Registered(id) in log[..j] {
      assert more[j].Replied? && Registered(id) in more[..j];
    }
  }

  lemma {:induction false} SummaryHasReply(log: seq<Observation>, id: RequestId)
    ensures id in Summarize(log).replies <==> HasReply(log, id)
  {
    if log != [] {
      hide HasReply;
      var before, last := log[..|log| - 1], log[|log| - 1];
      assert log == before + [last];
      SummaryHasReply(before, id);
      SummaryRegisters(before, id);
      HasReplyGrows(before, last, id);
    }
  }

  lemma {:induction false} SummaryReplies(log: seq<Observation>, reply: Reply)
    ensures (reply.id in Summarize(log).replies && Summarize(log).replies[reply.id] == reply)
       <==> RepliedFirst(log, reply)
    ensures reply.id in Summarize(log).replies <==> HasReply(log, reply.id)
  {
    hide RepliedFirst, HasReply;
    SummaryHasReply(log, reply.id);
    if log == [] {
      NobodyReplied(reply);
    } else {
      var before, last := log[..|log| - 1], log[|log| - 1];
      assert log == before + [last];
      SummaryReplies(before, reply);
      SummaryRegisters(before, reply.id);
      RepliedFirstGrows(before, last, reply);
    }
  }

  lemma NobodyReplied(reply: Reply)
    ensures !RepliedFirst([], reply)
  {
  }

  /**
   What the first reply decides: a request that was queued and did not expire succeeds with the result of that reply
   if it carries no error, and is rejected with its error otherwise; it has an unknown outcome exactly if it expired
   or no reply came; and one that was never queued is rejected as closed.
   */
  lemma RepliesDecide(actions: seq<Action>, k: nat)
    requires Possible(INITIAL, actions)
    ensures var log := Run(INITIAL, actions).log;
      k < |log| && log[k].Resolved? ==>
        var id, before := log[k].id, log[..k];
        var queued, expired := (exists p :: Queued(id, p) in before), Expired(id) in before;
        && (forall v :: queued && !expired && RepliedFirst(before, Reply(id, None, v)) ==>
              log[k].outcome == Success(v))
        && (forall e, v :: queued && !expired && RepliedFirst(before, Reply(id, Some(e), v)) ==>
              log[k].outcome == Rejected(e))
        && (log[k].outcome == OutcomeUnknown <==> queued && (expired || !HasReply(before, id)))
        && (!queued ==> log[k].outcome == Rejected(CLOSED))
  {
    OutcomesAreDetermined(actions, k);
    var log := Run(INITIAL, actions).log;
    if k < |log| && log[k].Resolved? {
      var id, before := log[k].id, log[..k];
      var m := Summarize(before);
      SummaryRegisters(before, id);
      if id in m.queued { QueuedWasQueued(before, id, m.queued[id]); }
      forall p ensures Queued(id, p) in before ==> id in m.queued { QueuedWasQueued(before, id, p); }
      forall r: Reply | r.id == id
        ensures (id in m.replies && m.replies[id] == r) <==> RepliedFirst(before, r)
        ensures id in m.replies <==> HasReply(before, id)
      {
        SummaryReplies(before, r);
      }
      assert Reply(id, None, Value(None, "")).id == id;
      if id in m.replies { ReplyWasRead(before, id); }
    }
  }

  /** How a steer for turn t is reported. */
  ghost predicate ReportedAs(t: string, o: Outcome, accepted: bool, refused: Option<string>) {
    SteerReport(t, o) ==
    if accepted then Accepted(t) else if refused.Some? then SteerRejected(refused.value) else SteerUnknown
  }

  /**
   A steer for t that was queued and did not expire is reported as accepted if its first reply carries no error and
   names t, as rejected with the error if it carries one, and as unknown if it names another turn or none; one that
   expired or got no reply is unknown too, and one that was never queued is rejected as closed.
   */
  lemma SteersAreReported(actions: seq<Action>, k: nat, t: string)
    requires Possible(INITIAL, actions)
    ensures var log := Run(INITIAL, actions).log;
      k < |log| && log[k].Resolved? ==>
        var id, before, o := log[k].id, log[..k], log[k].outcome;
        var queued, expired := (exists p :: Queued(id, p) in before), Expired(id) in before;
        && (forall v :: queued && !expired && RepliedFirst(before, Reply(id, None, v)) ==>
              ReportedAs(t, o, v.turnId == Some(t), None))
        && (forall e, v :: queued && !expired && RepliedFirst(before, Reply(id, Some(e), v)) ==>
              ReportedAs(t, o, false, Some(e)))
        && (queued && (expired || !HasReply(before, id)) ==> ReportedAs(t, o, false, None))
        && (!queued ==> ReportedAs(t, o, false, Some(CLOSED)))
  {
    RepliesDecide(actions, k);
  }

  /** No reply is lost: a waiting request whose reply has been read has it in its channel once the reader moves on. */
  lemma RepliesAreNotLost(actions: seq<Action>, reply: Reply)
    requires Possible(INITIAL, actions)
    ensures var s := Run(INITIAL, actions); var id := reply.id;
      id in s.table.calls && s.table.calls[id].Waiting? && RepliedFirst(s.log, reply) && !s.reader.Holding? ==>
        && id in s.table.cells && s.table.cells[id].Some?
        && (reply.error == None ==> s.table.cells[id].value == Success(reply.result))
        && (reply.error.Some? ==> s.table.cells[id].value == Rejected(reply.error.value))
  {
    RunKeepsGood(INITIAL, actions);
    var s := Run(INITIAL, actions);
    var m, id := Summarize(s.log), reply.id;
    SummaryReplies(s.log, reply);
    if id in s.table.calls && s.table.calls[id].Waiting? && RepliedFirst(s.log, reply) {
      assert CallOk(s, m, id) && CellOk(s, m, id);
    }
  }
}
