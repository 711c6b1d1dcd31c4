/**
 What happens when a turn is begun before the previous turn's result has been stored: exactly then a result can be
 handed to a turn it does not answer, and exactly when the reader has not yet loaded the result line a refused
 begin leaves the running turn's channel open after its result.
 */
module ClaudePoolOutside {
  import opened Wrappers
  import opened ClaudePool
  import opened ClaudePoolSpec
  import opened ClaudePoolCalls
  import opened ClaudePoolInvariant
  import opened ClaudePoolTheorems

  // ------------------------------------------------------- reading on to a result

  /** The reader has loaded the generation for a result line and has not stored it. */
  predicate LoadedResult(r: Reader) { HasLoaded(r) && !r.Stored? }

  /** Reading on, and the remote writing: no call of the gateway and no end of output. */
  predicate ReadsOn(a: Action) {
    (a.Read? && !a.read.ReadEof? && !a.read.ReadExit?) || (a.Remote? && a.remote.Emit?)
  }

  /** What the reader does next with the line it has got. */
  function NextRead(r: Reader): ReaderAction
    requires !r.Waiting? && !r.AtEof? && !r.Gone?
  {
    match r
    case Got(_) => LoadGeneration
    case Loaded(Control(_, _), _) => RemoveWaiter
    case Loaded(ResultLine(_), _) => ResultSwap
    case Loaded(Progress(_), _) => PickSender
    case Loaded(Noise, _) => SkipLine
    case Acking(_) => AckSwap
    case Acked(_) => AckStore
    case Swapped(_, _) => ResultStore
    case Stored(_, _) => ResultClose
    case Sending(_, _) => SendEvent
  }

  /** What happens next; between lines the next line is read, or written first. */
  function NextAction(s: State): Action
    requires Alive(s) && Ahead(s) != []
  {
    if !s.reader.Waiting? then Read(NextRead(s.reader))
    else if s.stdout == [] then Remote(Emit(ResultLine(Frame(Ahead(s)[0], false))))
    else Read(ReadLine)
  }

  function Stage(r: Reader): nat {
    match r
    case Got(_) => 4
    case Loaded(_, _) => 3
    case Acking(_) => 2
    case Acked(_) => 1
    case Swapped(_, _) => 2
    case Stored(_, _) => 1
    case Sending(_, _) => 1
    case _ => 0
  }

  function Distance(s: State): nat { 5 * |s.stdout| + Stage(s.reader) }

  /** The actions of `more` store the result of turn t and leave the owner and the slot alone. */
  ghost predicate StoresResult(s: State, more: seq<Action>, t: Turn) {
    && Possible(s, more) && (forall a <- more :: ReadsOn(a))
    && var v := Run(s, more);
       && v.reader.Stored? && v.reader.frame.turn == t && v.lastResult == Some(v.reader.frame)
       && v.reader.generation == (if LoadedResult(s.reader) then s.reader.generation else s.generation)
       && v.owner == s.owner && v.generation == s.generation
       && v.slotOpen == s.slotOpen && v.slotTurn == s.slotTurn && v.pooled == s.pooled
       && s.log <= v.log
       && (ResultRead(v.reader.frame) in v.log || ReaderFrame(s.reader) == Some(v.reader.frame))
  }

  lemma NextIsEnabled(s: State)
    requires Alive(s) && Ahead(s) != []
    ensures Enabled(s, NextAction(s)) && ReadsOn(NextAction(s))
  {
  }

  lemma NextComesCloser(s: State, s': State)
    requires Alive(s) && Ahead(s) != [] && !s.reader.Swapped?
    requires Enabled(s, NextAction(s)) && s' == Step(s, NextAction(s))
    ensures Alive(s') && Ahead(s') == Ahead(s)
    ensures |s'.owed| < |s.owed| || (s'.owed == s.owed && Distance(s') < Distance(s))
  {
    match NextAction(s)
    case Read(read) =>
      hide ReaderStep, Stage;
      ReaderKeepsAhead(s, read);
      ReadingIsCloser(s, s', read);
    case Remote(remote) => RemoteKeepsAhead(s, remote);
  }

  lemma ReadingIsCloser(s: State, s': State, a: ReaderAction)
    requires ReaderEnabled(s, a) && !a.ReadEof? && !a.ReadExit? && s' == ReaderStep(s, a)
    ensures s'.owed == s.owed && Distance(s') < Distance(s) && Alive(s')
  {
    StageFalls(s, s', a);
    ReaderOutput(s, a);
    hide ReaderStep, Stage;
  }

  lemma StageFalls(s: State, s': State, a: ReaderAction)
    requires ReaderEnabled(s, a) && !a.ReadEof? && !a.ReadExit? && s' == ReaderStep(s, a)
    ensures Alive(s') && (if a.ReadLine? then Stage(s'.reader) <= 4 else Stage(s'.reader) < Stage(s.reader))
  {
    hide ReaderStep;
    ReaderEffect(s, s', a);
  }

  lemma NextLeaves(s: State, s': State)
    requires Alive(s) && Ahead(s) != []
    requires s.reader.Stored? ==> s.reader.generation != s.slotTurn
    requires Enabled(s, NextAction(s)) && s' == Step(s, NextAction(s))
    ensures s'.owner == s.owner && s'.generation == s.generation && s'.pooled == s.pooled
    ensures s'.slotOpen == s.slotOpen && s'.slotTurn == s.slotTurn && s.log <= s'.log
  {
    match NextAction(s)
    case Read(read) =>
      hide ReaderStep, ReaderSees;
      ReaderLeavesOwner(s, s', read);
      ReaderLeaves(s, read);
    case Remote(remote) =>
  }

  lemma NextKeepsResult(s: State, s': State)
    requires Alive(s) && Ahead(s) != [] && !s.reader.Swapped?
    requires Enabled(s, NextAction(s)) && s' == Step(s, NextAction(s))
    ensures !s'.reader.Stored? && (LoadedResult(s.reader) ==> LoadedResult(s'.reader))
    ensures LoadedResult(s'.reader) ==>
              s'.reader.generation == if LoadedResult(s.reader) then s.reader.generation else s.generation
  {
    match NextAction(s)
    case Read(read) => ReadKeepsResult(s, s', read);
    case Remote(remote) =>
  }

  lemma ReadKeepsResult(s: State, s': State, a: ReaderAction)
    requires Alive(s) && !s.reader.Swapped? && ReaderEnabled(s, a) && s' == ReaderStep(s, a)
    ensures !s'.reader.Stored? && (LoadedResult(s.reader) ==> LoadedResult(s'.reader))
    ensures LoadedResult(s'.reader) ==>
              s'.reader.generation == if LoadedResult(s.reader) then s.reader.generation else s.generation
  {
    hide ReaderStep;
    ReaderEffect(s, s', a);
  }

  lemma NextShowsResult(s: State, s': State)
    requires Alive(s) && Ahead(s) != []
    requires Enabled(s, NextAction(s)) && s' == Step(s, NextAction(s))
    ensures ReaderFrame(s'.reader).Some? ==>
              ReaderFrame(s'.reader) == ReaderFrame(s.reader) || ResultRead(ReaderFrame(s'.reader).value) in s'.log
  {
    hide Ahead;
    match NextAction(s)
    case Read(read) =>
      if !read.ReadLine? {
        hide ReaderStep, ReaderFrame;
        ReaderKeepsFrame(s, s', read);
      }
    case Remote(remote) =>
  }

  lemma StoringRuns(s: State)
    requires s.reader.Swapped?
    ensures StoresResult(s, [Read(ResultStore)], s.reader.frame.turn)
  {
    RunOne(s, Read(ResultStore));
  }

  lemma StoresLater(s: State, s': State, a: Action, more: seq<Action>, t: Turn)
    requires Enabled(s, a) && s' == Step(s, a) && ReadsOn(a) && StoresResult(s', more, t)
    requires s'.owner == s.owner && s'.generation == s.generation && s'.pooled == s.pooled
    requires s'.slotOpen == s.slotOpen && s'.slotTurn == s.slotTurn && s.log <= s'.log
    requires LoadedResult(s'.reader) ==>
               s'.reader.generation == if LoadedResult(s.reader) then s.reader.generation else s.generation
    requires LoadedResult(s.reader) ==> LoadedResult(s'.reader)
    requires ReaderFrame(s'.reader).Some? ==>
               ReaderFrame(s'.reader) == ReaderFrame(s.reader) || ResultRead(ReaderFrame(s'.reader).value) in s'.log
    ensures StoresResult(s, [a] + more, t)
  {
    hide LoadedResult, ReaderFrame, Step, Enabled;
    RunFirst(s, a, more);
  }

  /** A result that is still to come can always be brought to be stored. */
  lemma {:induction false} ResultGetsStored(s: State) returns (more: seq<Action>)
    requires Alive(s) && Ahead(s) != [] && (s.reader.Stored? ==> s.reader.generation != s.slotTurn)
    ensures StoresResult(s, more, Ahead(s)[0])
    decreases |s.owed|, Distance(s)
  {
    if s.reader.Swapped? {
      StoringRuns(s);
      more := [Read(ResultStore)];
    } else {
      hide LoadedResult, ReaderFrame, Step, StoresResult, Ahead;
      NextIsEnabled(s);
      var a, s' := NextAction(s), Step(s, NextAction(s));
      NextComesCloser(s, s');
      NextLeaves(s, s');
      NextKeepsResult(s, s');
      NextShowsResult(s, s');
      var rest := ResultGetsStored(s');
      StoresLater(s, s', a, rest, Ahead(s)[0]);
      more := [a] + rest;
    }
  }

  /** Only beginning a turn can break the discipline. */
  lemma LegalBetweenBegins(s: State, actions: seq<Action>)
    requires Possible(s, actions) && Own(BeginClear) !in actions
    ensures Legal(s, actions)
    decreases |actions|
  {
    if actions != [] {
      LegalBetweenBegins(Step(s, actions[0]), actions[1..]);
    }
  }

  lemma {:induction false} LegalAppend(s: State, first: seq<Action>, later: seq<Action>)
    requires Legal(s, first) && Possible(s, first) && Legal(Run(s, first), later)
    ensures Legal(s, first + later)
    decreases |first|
  {
    if first == [] {
      assert first + later == later;
    } else {
      assert (first + later)[0] == first[0] && (first + later)[1..] == first[1..] + later;
      LegalAppend(Step(s, first[0]), first[1..], later);
    }
  }

  // ------------------------------------------------- results for the wrong turn

  /** Some result was handed to a turn it does not answer. */
  ghost predicate Misattributes(log: seq<Observation>) {
    exists k :: 0 <= k < |log| && log[k].Took? && log[k].frame.turn != log[k].turn
  }

  /** Some disciplined way to go on from here does so. */
  ghost predicate CanMisattribute(s: State) {
    exists more :: Legal(s, more) && Possible(s, more) && Misattributes(Run(s, more).log)
  }

  /** What begin_turn is about to find when it is called early. */
  lemma EarlyState(s: State, d: Digest)
    requires Good(s, d) && Alive(s) && OwnerEnabled(s, BeginClear) && Expecting(s)
    ensures s.slotTurn == s.generation && Ahead(s) == [s.generation]
    ensures s.reader.Stored? ==> s.reader.generation < s.generation
    ensures s.active == 0 || s.active == s.generation
  {
  }

  lemma BegunLeaves(s: State)
    requires s.owner.Idle?
    ensures var u := Begun(s);
      && u.reader == s.reader && u.stdout == s.stdout && u.owner == s.owner && u.generation == s.generation + 1
      && u.pooled == s.pooled
      && Ahead(s) <= Ahead(u) && (u.slotTurn == s.slotTurn || u.slotTurn == s.generation + 1)
      && s.log <= u.log
      && (s.active != 0 ==> u.slotTurn == s.slotTurn && u.slotOpen == s.slotOpen && u.active == s.active)
  {
  }

  lemma EarlyBeginHere(s: State, d: Digest) returns (more: seq<Action>)
    requires Good(s, d) && Alive(s) && OwnerEnabled(s, BeginClear) && Expecting(s)
    ensures Possible(s, BeginScript(s) + more) && Own(BeginClear) !in more
    ensures Misattributes(Run(s, BeginScript(s) + more).log)
  {
    hide Good, Ahead, Begun, Expecting;
    EarlyState(s, d);
    BeginRuns(s);
    BegunLeaves(s);
    var u := Begun(s);
    var path := ResultGetsStored(u);
    var v := Run(u, path);
    TakeRuns(v);
    RunAppend(u, path, TAKE_SCRIPT);
    more := path + TAKE_SCRIPT;
    RunAppend(s, BeginScript(s), more);
    var log := Taken(v).log;
    assert log[|log| - 1].Took? && log[|log| - 1].frame.turn == s.generation && log[|log| - 1].turn == s.generation + 1;
  }

  /**
   However an early begin ends, refused, sent or failed to send, the next result that is taken can be one for the
   wrong turn: from any state of any disciplined run in which the open channel's result has not been stored.
   */
  lemma EarlyBeginCanMisattribute(actions: seq<Action>) returns (more: seq<Action>)
    requires Legal(INITIAL, actions) && Possible(INITIAL, actions)
    requires var s := Run(INITIAL, actions); Alive(s) && OwnerEnabled(s, BeginClear) && Expecting(s)
    ensures var early := actions + (BeginScript(Run(INITIAL, actions)) + more);
      Possible(INITIAL, early) && Misattributes(Run(INITIAL, early).log)
  {
    var d := RunIsGood(actions);
    var s := Run(INITIAL, actions);
    hide Good, BeginScript, Expecting;
    more := EarlyBeginHere(s, d);
    RunAppend(INITIAL, actions, BeginScript(s) + more);
  }

  /**
   The exact discipline: from any state of a disciplined run whose reader lives, beginning a turn can lead to a
   result being handed to a turn it does not answer if and only if the open channel's result has not been stored.
   */
  lemma BeginsMisattributeExactlyWhenEarly(actions: seq<Action>)
    requires Legal(INITIAL, actions)
    ensures Possible(INITIAL, actions)
    ensures var s := Run(INITIAL, actions);
      Alive(s) && OwnerEnabled(s, BeginClear) ==> (CanMisattribute(Step(s, Own(BeginClear))) <==> Expecting(s))
  {
    var d := RunIsGood(actions);
    var s := Run(INITIAL, actions);
    if Alive(s) && OwnerEnabled(s, BeginClear) {
      if Expecting(s) {
        EarlyIsPossible(s, d);
      } else {
        forall more | Legal(Step(s, Own(BeginClear)), more) && Possible(Step(s, Own(BeginClear)), more)
          ensures !Misattributes(Run(Step(s, Own(BeginClear)), more).log)
        {
          OnTimeIsRight(actions, more);
        }
      }
    }
  }

  lemma EarlyIsPossible(s: State, d: Digest)
    requires Good(s, d) && Alive(s) && OwnerEnabled(s, BeginClear) && Expecting(s)
    ensures CanMisattribute(Step(s, Own(BeginClear)))
  {
    hide Good, Begun;
    var more := EarlyBeginHere(s, d);
    var script := BeginScript(s) + more;
    assert script[0] == Own(BeginClear);
    assert Own(BeginClear) !in script[1..] by {
      assert script[1..] == BeginScript(s)[1..] + more;
    }
    LegalBetweenBegins(Step(s, Own(BeginClear)), script[1..]);
  }

  lemma OnTimeIsRight(actions: seq<Action>, more: seq<Action>)
    requires Legal(INITIAL, actions) && Possible(INITIAL, actions)
    requires var s := Run(INITIAL, actions);
      OwnerEnabled(s, BeginClear) && !Expecting(s) && Legal(Step(s, Own(BeginClear)), more)
      && Possible(Step(s, Own(BeginClear)), more)
    ensures !Misattributes(Run(Step(Run(INITIAL, actions), Own(BeginClear)), more).log)
  {
    var s := Run(INITIAL, actions);
    var rest := [Own(BeginClear)] + more;
    assert rest[0] == Own(BeginClear) && rest[1..] == more;
    LegalIsPossible(s, rest);
    LegalAppend(INITIAL, actions, rest);
    RunAppend(INITIAL, actions, rest);
    var log := Run(INITIAL, actions + rest).log;
    forall k | 0 <= k < |log| && log[k].Took? ensures log[k].frame.turn == log[k].turn {
      VerdictsAreRight(actions + rest, k);
    }
  }

  // -------------------------------------------------------- results nobody takes

  /** Turn t has been left behind by the owner. */
  predicate LeftBehind(s: State, t: Turn) {
    (s.owner.Cleared? && t <= s.generation) || (t < s.generation && (s.owner.Judging? ==> t < s.owner.turn))
  }

  lemma StaysBehind(s: State, a: Action, t: Turn)
    requires LeftBehind(s, t) && Enabled(s, a)
    ensures LeftBehind(Step(s, a), t)
    ensures forall o <- Step(s, a).log :: o in s.log || !(o.Took? && o.turn == t)
  {
    hide OwnerStep, AskerStep, ReaderStep, RemoteStep;
    match a
    case Own(own) => OwnerStaysBehind(s, own, t);
    case Ask(c, ask) => AskerEffect(s, Step(s, a), c, ask);
    case Read(read) => ReaderEffect(s, Step(s, a), read);
    case Remote(remote) => RemoteEffect(s, Step(s, a), remote);
  }

  lemma OwnerStaysBehind(s: State, a: OwnerAction, t: Turn)
    requires LeftBehind(s, t) && OwnerEnabled(s, a)
    ensures LeftBehind(OwnerStep(s, a), t)
    ensures forall o <- OwnerStep(s, a).log :: o in s.log || !(o.Took? && o.turn == t)
  {
    hide OwnerStep;
    OwnerEffect(s, OwnerStep(s, a), a);
  }

  /**
   Beginning a turn gives up the results of all earlier turns, also one that has been stored and not been taken:
   whatever follows, no result is taken for them any more.
   */
  lemma {:induction false} BeginDiscardsEarlierResults(s: State, actions: seq<Action>, t: Turn)
    requires LeftBehind(s, t) && Possible(s, actions)
    ensures TookSeen(Run(s, actions).log, t) ==> TookSeen(s.log, t)
    decreases |actions|
  {
    if actions != [] {
      StaysBehind(s, actions[0], t);
      var s' := Step(s, actions[0]);
      BeginDiscardsEarlierResults(s', actions[1..], t);
      if TookSeen(s'.log, t) {
        var k :| 0 <= k < |s'.log| && s'.log[k].Took? && s'.log[k].turn == t;
        assert s'.log[k] in s'.log;
      }
    }
  }

  /**
   A turn begun between the storing of a result and the closing of its channel keeps the discipline and discards that
   result: from any state of any disciplined run, it is gone at once and is never taken.
   */
  lemma StoredResultIsDiscarded(actions: seq<Action>, more: seq<Action>)
    requires Legal(INITIAL, actions) && Possible(INITIAL, actions)
    requires var s := Run(INITIAL, actions);
      && OwnerEnabled(s, BeginClear) && s.reader.Stored? && !TookSeen(s.log, s.reader.frame.turn)
      && Possible(Step(s, Own(BeginClear)), more)
    ensures var s := Run(INITIAL, actions); var begun := Step(s, Own(BeginClear));
      begun.lastResult == None && !TookSeen(Run(begun, more).log, s.reader.frame.turn)
  {
    var d := RunIsGood(actions);
    var s := Run(INITIAL, actions);
    BeginDiscardsEarlierResults(Step(s, Own(BeginClear)), more, s.reader.frame.turn);
  }

  // ------------------------------------------------------- channels left open

  /** Turn t's channel is open, and nothing under way will close it. */
  predicate Stalled(s: State, t: Turn) {
    && s.pooled && s.slotOpen && s.slotTurn == t && t < s.generation
    && (s.owner.Idle? || s.owner.Cleared? || s.owner.Taking? || s.owner.Judging?
        || ((s.owner.Numbered? || s.owner.Activated?) && t < s.owner.turn))
    && (HasLoaded(s.reader) ==> t < s.reader.generation)
  }

  lemma StalledOwner(s: State, a: OwnerAction, t: Turn)
    requires Stalled(s, t) && OwnerEnabled(s, a) && !a.BeginSlot? && !a.Drop?
    ensures Stalled(OwnerStep(s, a), t)
  {
    hide OwnerStep;
    OwnerEffect(s, OwnerStep(s, a), a);
  }

  lemma StalledReader(s: State, a: ReaderAction, t: Turn)
    requires Stalled(s, t) && ReaderEnabled(s, a) && !a.ReadEof?
    ensures Stalled(ReaderStep(s, a), t)
  {
    hide ReaderStep;
    ReaderEffect(s, ReaderStep(s, a), a);
  }

  lemma StalledStep(s: State, a: Action, t: Turn)
    requires Stalled(s, t) && Enabled(s, a) && a != Own(BeginSlot) && a != Own(Drop) && a != Read(ReadEof)
    ensures Stalled(Step(s, a), t)
  {
    hide OwnerStep, AskerStep, ReaderStep, RemoteStep;
    match a
    case Own(own) => StalledOwner(s, own, t);
    case Ask(c, ask) => AskerEffect(s, Step(s, a), c, ask);
    case Read(read) => StalledReader(s, read, t);
    case Remote(remote) => RemoteEffect(s, Step(s, a), remote);
  }

  /**
   Until another turn's channel is registered, the output ends or the handle is removed, a stalled turn's channel does
   not close.
   */
  lemma {:induction false} StalledStaysOpen(s: State, actions: seq<Action>, t: Turn)
    requires Stalled(s, t) && Possible(s, actions)
    requires Own(BeginSlot) !in actions && Own(Drop) !in actions && Read(ReadEof) !in actions
    ensures !ChannelClosed(Run(s, actions), t)
    decreases |actions|
  {
    if actions != [] {
      StalledStep(s, actions[0], t);
      StalledStaysOpen(Step(s, actions[0]), actions[1..], t);
    }
  }

  /** While t is still active no such turn gets through: of these only an acknowledgement can make room for one. */
  lemma {:induction false} StalledUntilAcknowledged(s: State, actions: seq<Action>, t: Turn)
    requires Stalled(s, t) && s.active == t != 0 && !s.owner.Activated? && Possible(s, actions)
    requires Read(AckSwap) !in actions && Own(Drop) !in actions && Read(ReadEof) !in actions
    ensures !ChannelClosed(Run(s, actions), t) && Run(s, actions).active == t
    decreases |actions|
  {
    if actions != [] {
      assert actions[0] != Own(BeginSlot);
      StalledStep(s, actions[0], t);
      ActiveStays(s, actions[0], t);
      StalledUntilAcknowledged(Step(s, actions[0]), actions[1..], t);
    }
  }

  lemma ActiveStays(s: State, a: Action, t: Turn)
    requires Stalled(s, t) && s.active == t != 0 && !s.owner.Activated? && Enabled(s, a) && a != Read(AckSwap)
    ensures Step(s, a).active == t && !Step(s, a).owner.Activated?
  {
    hide OwnerStep, AskerStep, ReaderStep, RemoteStep;
    match a
    case Own(own) => OwnerEffect(s, Step(s, a), own);
    case Ask(c, ask) => AskerEffect(s, Step(s, a), c, ask);
    case Read(read) => ReaderEffect(s, Step(s, a), read);
    case Remote(remote) => RemoteEffect(s, Step(s, a), remote);
  }

  /** The result line of turn t has been dealt with, and t's channel is still open. */
  ghost predicate LeftOpen(s: State, t: Turn) {
    ResultSeen(s.log, t) && s.reader.Waiting? && !ChannelClosed(s, t)
  }

  lemma RefusedBeginStalls(s: State, d: Digest) returns (more: seq<Action>)
    requires Good(s, d) && Alive(s) && OwnerEnabled(s, BeginClear) && s.active != 0 && Unloaded(s)
    ensures Possible(Begun(s), more)
    ensures var v := Run(Begun(s), more);
      LeftOpen(v, s.active) && Stalled(v, s.active) && v.lastResult.Some? && v.lastResult.value.turn == s.active
  {
    ActiveIsExpecting(s, d);
    hide Good, Ahead, Begun, Expecting;
    EarlyState(s, d);
    BegunLeaves(s);
    var u := Begun(s);
    var path := ResultGetsStored(u);
    var v := Run(u, path);
    RunOne(v, Read(ResultClose));
    RunAppend(u, path, [Read(ResultClose)]);
    more := path + [Read(ResultClose)];
    ResultIsSeen(s, d, v.log, v.reader.frame);
  }

  /**
   A `begin_turn` while a turn is active is refused, but it has advanced the generation.  If the reader had not yet
   loaded the generation for the running turn's result line, that line then stores the result and leaves the
   channel open: from any state of any disciplined run.
   */
  lemma OverlappingBeginStalls(actions: seq<Action>) returns (more: seq<Action>)
    requires Legal(INITIAL, actions) && Possible(INITIAL, actions)
    requires var s := Run(INITIAL, actions);
      Alive(s) && OwnerEnabled(s, BeginClear) && s.active != 0 && Unloaded(s)
    ensures var s := Run(INITIAL, actions); var early := actions + (BeginScript(s) + more);
      && Possible(INITIAL, early)
      && var v := Run(INITIAL, early);
         LeftOpen(v, s.active) && Stalled(v, s.active) && v.lastResult.Some? && v.lastResult.value.turn == s.active
  {
    var d := RunIsGood(actions);
    var s := Run(INITIAL, actions);
    hide Good, BeginScript, Begun, Unloaded, LeftOpen, Stalled;
    more := RefusedBeginStalls(s, d);
    BeginRuns(s);
    RunAppend(s, BeginScript(s), more);
    RunAppend(INITIAL, actions, BeginScript(s) + more);
  }

  lemma ActiveIsExpecting(s: State, d: Digest)
    requires Good(s, d) && Alive(s) && OwnerEnabled(s, BeginClear) && s.active != 0
    ensures Expecting(s) && s.active == s.generation && (Unloaded(s) <==> !LoadedResult(s.reader))
  {
  }

  lemma ResultIsSeen(s: State, d: Digest, log: seq<Observation>, frame: Frame)
    requires Good(s, d) && s.log <= log
    requires ResultRead(frame) in log || ReaderFrame(s.reader) == Some(frame)
    ensures ResultSeen(log, frame.turn)
  {
    assert ReaderFrame(s.reader) == Some(frame) ==> ResultRead(frame) in s.log;
    var k :| 0 <= k < |log| && log[k] == ResultRead(frame);
  }

  /** The reader is about to close turn t's channel, or it is closed, and nobody will open it again. */
  predicate Closing(s: State, t: Turn) {
    && t < s.generation
    && (s.owner.Numbered? || s.owner.Activated? ==> t < s.owner.turn)
    && ((HasLoaded(s.reader) && s.reader.generation == t) || ChannelClosed(s, t))
  }

  lemma ClosingOwner(s: State, a: OwnerAction, t: Turn)
    requires Closing(s, t) && OwnerEnabled(s, a)
    ensures Closing(OwnerStep(s, a), t)
  {
    hide OwnerStep;
    OwnerEffect(s, OwnerStep(s, a), a);
  }

  lemma ClosingReader(s: State, a: ReaderAction, t: Turn)
    requires Closing(s, t) && ReaderEnabled(s, a)
    ensures Closing(ReaderStep(s, a), t)
  {
    hide ReaderStep;
    ReaderEffect(s, ReaderStep(s, a), a);
  }

  lemma ClosingStep(s: State, a: Action, t: Turn)
    requires Closing(s, t) && Enabled(s, a)
    ensures Closing(Step(s, a), t)
  {
    hide OwnerStep, AskerStep, ReaderStep, RemoteStep;
    match a
    case Own(own) => ClosingOwner(s, own, t);
    case Ask(c, ask) => AskerEffect(s, Step(s, a), c, ask);
    case Read(read) => ClosingReader(s, read, t);
    case Remote(remote) => RemoteEffect(s, Step(s, a), remote);
  }

  lemma {:induction false} ClosesAtLast(s: State, actions: seq<Action>, t: Turn)
    requires Closing(s, t) && Possible(s, actions)
    ensures Run(s, actions).reader.Waiting? ==> ChannelClosed(Run(s, actions), t)
    decreases |actions|
  {
    if actions != [] {
      ClosingStep(s, actions[0], t);
      ClosesAtLast(Step(s, actions[0]), actions[1..], t);
    }
  }

  /**
   A `begin_turn` refused while a turn is active can leave that turn's channel open after its result has been dealt
   with if and only if the reader had not yet loaded the generation for its result line.
   */
  lemma OverlappingBeginsLeaveOpenExactlyUnlessLoaded(actions: seq<Action>)
    requires Legal(INITIAL, actions)
    ensures Possible(INITIAL, actions)
    ensures var s := Run(INITIAL, actions);
      Alive(s) && OwnerEnabled(s, BeginClear) && s.active != 0 ==>
        && Possible(s, BeginScript(s)) && Run(s, BeginScript(s)) == Begun(s)
        && ((exists more :: Possible(Begun(s), more) && LeftOpen(Run(Begun(s), more), s.active))
            <==> Unloaded(s))
  {
    var d := RunIsGood(actions);
    var s := Run(INITIAL, actions);
    hide Good, Begun;
    if Alive(s) && OwnerEnabled(s, BeginClear) && s.active != 0 {
      BeginRuns(s);
      if !Unloaded(s) {
        LoadedIsClosing(s, d);
        forall more | Possible(Begun(s), more) ensures !LeftOpen(Run(Begun(s), more), s.active) {
          ClosesAtLast(Begun(s), more, s.active);
        }
      } else {
        var more := RefusedBeginStalls(s, d);
      }
    }
  }

  lemma LoadedIsClosing(s: State, d: Digest)
    requires Good(s, d) && Alive(s) && OwnerEnabled(s, BeginClear) && s.active != 0 && !Unloaded(s)
    ensures Closing(Begun(s), s.active)
  {
    ActiveIsExpecting(s, d);
  }

  // ------------------------------------------- one interruption, early and on time

  lemma AskingRuns(s: State, c: CallerId)
    requires c !in s.book.askers && s.pooled && s.active != 0 && s.stdinOpen
    ensures var script := [Ask(c, AskLoad), Ask(c, AskReserve)] + [Ask(c, AskRegister), Ask(c, AskSend)];
      && Possible(s, script)
      && Run(s, script) == s.(book := Run(s, script).book)
      && s.book.nextId in Run(s, script).book.outstanding
      && s.book.nextId in Run(s, script).book.waiters && Run(s, script).book.waiters[s.book.nextId] == s.active
      && s.book.nextId in Run(s, script).book.asked && Run(s, script).book.asked[s.book.nextId] == s.active
  {
    RunTwo(s, Ask(c, AskLoad), Ask(c, AskReserve));
    var u := Run(s, [Ask(c, AskLoad), Ask(c, AskReserve)]);
    assert u.book.askers[c] == Reserved(s.active, s.book.nextId);
    RunTwo(u, Ask(c, AskRegister), Ask(c, AskSend));
    RunAppend(s, [Ask(c, AskLoad), Ask(c, AskReserve)], [Ask(c, AskRegister), Ask(c, AskSend)]);
  }

  /** Turn 1 is running and a caller has asked for an interrupt. */
  lemma AskedTurn() returns (actions: seq<Action>, s: State)
    ensures Possible(INITIAL, actions) && s == Run(INITIAL, actions) && s == Begun(INITIAL).(book := s.book)
    ensures 1 in s.book.outstanding && 1 in s.book.waiters && s.book.waiters[1] == 1
    ensures 1 in s.book.asked && s.book.asked[1] == 1
    ensures |actions| > 0 && actions[0] == Own(BeginClear) && Own(BeginClear) !in actions[1..]
  {
    hide Run, Possible;
    BeginRuns(INITIAL);
    AskingRuns(Begun(INITIAL), 0);
    var asking := [Ask(0, AskLoad), Ask(0, AskReserve)] + [Ask(0, AskRegister), Ask(0, AskSend)];
    RunAppend(INITIAL, BeginScript(INITIAL), asking);
    actions, s := BeginScript(INITIAL) + asking, Run(Begun(INITIAL), asking);
  }

  /** Turn 1 is running, an interrupt issued in it has been acknowledged, and its result is still owed. */
  lemma AcknowledgedTurn() returns (actions: seq<Action>, s: State)
    ensures Possible(INITIAL, actions) && s == Run(INITIAL, actions)
    ensures s.owner.Idle? && s.reader.Waiting? && s.pooled && !s.cancelled && s.stdinOpen && s.stdout == []
    ensures s.generation == 1 && s.active == 0 && s.interrupted == 1 && s.owed == [1] && s.slotOpen && s.slotTurn == 1
    ensures s.log == [Opened(1), AckRead(1, 1)]
    ensures |actions| > 0 && actions[0] == Own(BeginClear) && Own(BeginClear) !in actions[1..]
  {
    hide Run, Possible;
    var asked: State;
    actions, asked := AskedTurn();
    var ack := Remote(Emit(Control(1, true)));
    RunOne(asked, ack);
    RunAppend(INITIAL, actions, [ack]);
    actions := actions + [ack];
    var answered := Step(asked, ack);
    assert answered.stdout == [Control(1, true)] && answered.log == [Opened(1)];
    HandleRuns(answered);
    RunAppend(INITIAL, actions, HandleScript(answered));
    actions := actions + HandleScript(answered);
    s := Handled(answered);
  }

  /**
   A turn begun after an acknowledgement but before the interrupted result is ended by that result: turn 2's
   channel is closed by turn 1's line, and turn 2 is handed turn 1's result, reported as a plain failure.
   */
  lemma EarlyBeginTakesTheOldResult() returns (actions: seq<Action>)
    ensures Possible(INITIAL, actions)
    ensures var s := Run(INITIAL, actions);
      && s.log == [Opened(1), AckRead(1, 1), Opened(2), ResultRead(Frame(1, false)), Closed(2),
                   Took(2, Frame(1, false), Failed)]
      && AckedInTime(s.log, 1) && s.owed == [2]
  {
    var s1: State;
    actions, s1 := AcknowledgedTurn();
    BeginRuns(s1);
    RunAppend(INITIAL, actions, BeginScript(s1));
    actions := actions + BeginScript(s1);
    var s2 := Begun(s1);
    var answer := Remote(Emit(ResultLine(Frame(1, false))));
    RunOne(s2, answer);
    RunAppend(INITIAL, actions, [answer]);
    actions := actions + [answer];
    var s3 := Step(s2, answer);
    assert s3.stdout == [ResultLine(Frame(1, false))] && s3.owed == [2];
    HandleRuns(s3);
    RunAppend(INITIAL, actions, HandleScript(s3));
    actions := actions + HandleScript(s3);
    var s4 := Handled(s3);
    TakeRuns(s4);
    RunAppend(INITIAL, actions, TAKE_SCRIPT);
    actions := actions + TAKE_SCRIPT;
    var log := Taken(s4).log;
    assert log[1] == AckRead(1, 1) && log[..1] == [Opened(1)] && !ResultSeen(log[..1], 1);
  }

  /** Within the discipline the same interruption is reported as one. */
  lemma PatientOwnerSeesTheInterruption() returns (actions: seq<Action>)
    ensures Legal(INITIAL, actions) && Possible(INITIAL, actions)
    ensures Run(INITIAL, actions).log
         == [Opened(1), AckRead(1, 1), ResultRead(Frame(1, false)), Closed(1), Took(1, Frame(1, false), Interrupted)]
  {
    var s1: State;
    actions, s1 := AcknowledgedTurn();
    var answer := Remote(Emit(ResultLine(Frame(1, false))));
    RunOne(s1, answer);
    RunAppend(INITIAL, actions, [answer]);
    actions := actions + [answer];
    var s2 := Step(s1, answer);
    assert s2.stdout == [ResultLine(Frame(1, false))];
    HandleRuns(s2);
    RunAppend(INITIAL, actions, HandleScript(s2));
    actions := actions + HandleScript(s2);
    var s3 := Handled(s2);
    TakeRuns(s3);
    RunAppend(INITIAL, actions, TAKE_SCRIPT);
    actions := actions + TAKE_SCRIPT;
    assert actions[0] == Own(BeginClear) && Own(BeginClear) !in actions[1..];
    LegalBetweenBegins(Step(INITIAL, actions[0]), actions[1..]);
  }
}
