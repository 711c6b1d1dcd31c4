/**
 What the reader's exits leave behind: whether a channel is open can be read off the log of any run, disciplined or
 not, and once the reader is gone an open channel ends if and only if the handle is removed from the pool.
 */
module ClaudePoolExits {
  import opened Wrappers
  import opened ClaudePool
  import opened ClaudePoolInvariant
  import opened ClaudePoolCalls
  import opened ClaudePoolOutside

  /** Ends the channel of turn t: another registration, its own abort or closing, or the end of output. */
  predicate Ends(o: Observation, t: Turn) {
    o.Opened? || o == Aborted(t) || o == Closed(t) || o.EndOfOutput?
  }

  /** Turn t's channel was registered, and nothing since has ended it. */
  ghost predicate OpenInLog(log: seq<Observation>, t: Turn) {
    exists k :: 0 <= k < |log| && log[k] == Opened(t) && forall j :: k < j < |log| ==> !Ends(log[j], t)
  }

  lemma PushOpen(log: seq<Observation>, o: Observation, t: Turn)
    ensures OpenInLog(log + [o], t) <==> o == Opened(t) || (OpenInLog(log, t) && !Ends(o, t))
  {
    var more := log + [o];
    assert more[|log|] == o;
    if OpenInLog(log, t) && !Ends(o, t) {
      var k :| 0 <= k < |log| && log[k] == Opened(t) && forall j :: k < j < |log| ==> !Ends(log[j], t);
      assert more[k] == Opened(t) && forall j :: k < j < |more| ==> !Ends(more[j], t);
    }
    if OpenInLog(more, t) && o != Opened(t) {
      var k :| 0 <= k < |more| && more[k] == Opened(t) && forall j :: k < j < |more| ==> !Ends(more[j], t);
      assert !Ends(more[|log|], t);
      assert log[k] == Opened(t) && forall j :: k < j < |log| ==> !Ends(log[j], t) by {
        assert forall j :: 0 <= j < |log| ==> log[j] == more[j];
      }
    }
  }

  /** The sender that was put into the slot and not taken out of it. */
  predicate Placed(s: State, t: Turn) { s.slotOpen && s.slotTurn == t }

  /** The slot, and whether the pool holds the handle, are what the log says. */
  ghost predicate SlotIsLogged(s: State) {
    && (forall t :: Placed(s, t) <==> OpenInLog(s.log, t))
    && (s.pooled <==> Removed !in s.log)
  }

  /** What one step does to the slot, and what it lets the observer see of it. */
  ghost predicate SlotStep(s: State, s': State, seen: seq<Observation>) {
    && |seen| <= 1 && s'.log == s.log + seen
    && (s'.pooled <==> s.pooled && Removed !in seen)
    && (forall t :: Placed(s', t) <==>
          if seen == [] then Placed(s, t) else seen[0] == Opened(t) || (Placed(s, t) && !Ends(seen[0], t)))
  }

  lemma OwnerSlot(s: State, s': State, a: OwnerAction)
    requires OwnerEnabled(s, a) && s' == OwnerStep(s, a)
    ensures SlotStep(s, s', OwnerSees(s, a))
  {
    hide OwnerStep;
    OwnerEffect(s, s', a);
  }

  lemma ReaderSlot(s: State, s': State, a: ReaderAction)
    requires ReaderEnabled(s, a) && s' == ReaderStep(s, a)
    ensures SlotStep(s, s', ReaderSees(s, a))
  {
    hide ReaderStep;
    ReaderEffect(s, s', a);
    ReaderLeaves(s, a);
    ReaderLeavesOwner(s, s', a);
  }

  lemma SlotStepIsLogged(s: State, s': State, seen: seq<Observation>)
    requires SlotIsLogged(s) && SlotStep(s, s', seen)
    ensures SlotIsLogged(s')
  {
    if seen == [] {
      assert s.log + seen == s.log;
    } else {
      assert seen == [seen[0]];
      forall t ensures Placed(s', t) <==> OpenInLog(s'.log, t) {
        PushOpen(s.log, seen[0], t);
      }
    }
  }

  lemma StepIsLogged(s: State, a: Action)
    requires SlotIsLogged(s) && Enabled(s, a)
    ensures SlotIsLogged(Step(s, a))
  {
    hide OwnerStep, ReaderStep, OwnerSees, ReaderSees, SlotStep;
    match a
    case Own(own) =>
      OwnerSlot(s, Step(s, a), own);
      SlotStepIsLogged(s, Step(s, a), OwnerSees(s, own));
    case Ask(c, ask) =>
    case Read(read) =>
      ReaderSlot(s, Step(s, a), read);
      SlotStepIsLogged(s, Step(s, a), ReaderSees(s, read));
    case Remote(remote) =>
  }

  lemma {:induction false} RunIsLogged(s: State, actions: seq<Action>)
    requires SlotIsLogged(s) && Possible(s, actions)
    ensures SlotIsLogged(Run(s, actions))
    decreases |actions|
  {
    if actions != [] {
      StepIsLogged(s, actions[0]);
      RunIsLogged(Step(s, actions[0]), actions[1..]);
    }
  }

  /**
   In every run a channel has its sender in the slot exactly when its registration is the last the log says of it and
   the pool or the reader still keeps the slot.
   */
  lemma SlotIsOpenExactlyWhenLogged(actions: seq<Action>, t: Turn)
    requires Possible(INITIAL, actions)
    ensures var s := Run(INITIAL, actions);
      InSlot(s, t) <==> OpenInLog(s.log, t) && !(Removed in s.log && s.reader.Gone?)
  {
    assert INITIAL.log == [];
    RunIsLogged(INITIAL, actions);
    assert Placed(Run(INITIAL, actions), t) <==> OpenInLog(Run(INITIAL, actions).log, t);
  }

  // --------------------------------------------------------- after the reader's exit

  /** Nobody is left who could register a channel, or close one by itself. */
  predicate Deserted(s: State) { s.reader.Gone? && s.cancelled && !Beginning(s.owner) }

  lemma DesertedStep(s: State, a: Action)
    requires Deserted(s) && Enabled(s, a)
    ensures var s' := Step(s, a);
      && Deserted(s') && s'.slotOpen == s.slotOpen && s'.slotTurn == s.slotTurn
      && s'.pooled == (s.pooled && a != Own(Drop))
  {
    hide OwnerStep, AskerStep, ReaderStep, RemoteStep;
    match a
    case Own(own) => OwnerEffect(s, Step(s, a), own);
    case Ask(c, ask) => AskerEffect(s, Step(s, a), c, ask);
    case Read(read) =>
    case Remote(remote) => RemoteEffect(s, Step(s, a), remote);
  }

  lemma {:induction false} DesertedForever(s: State, actions: seq<Action>)
    requires Deserted(s) && Possible(s, actions)
    ensures var v := Run(s, actions);
      && Deserted(v) && v.slotOpen == s.slotOpen && v.slotTurn == s.slotTurn
      && v.pooled == (s.pooled && Own(Drop) !in actions)
    decreases |actions|
  {
    if actions != [] {
      DesertedStep(s, actions[0]);
      DesertedForever(Step(s, actions[0]), actions[1..]);
    }
  }

  predicate GoneMeansCancelled(s: State) { s.reader.Gone? ==> s.cancelled }

  lemma {:induction false} GoneIsCancelled(s: State, actions: seq<Action>)
    requires GoneMeansCancelled(s) && Possible(s, actions)
    ensures GoneMeansCancelled(Run(s, actions))
    decreases |actions|
  {
    if actions != [] {
      GoneStep(s, actions[0]);
      GoneIsCancelled(Step(s, actions[0]), actions[1..]);
    }
  }

  lemma GoneStep(s: State, a: Action)
    requires GoneMeansCancelled(s) && Enabled(s, a)
    ensures GoneMeansCancelled(Step(s, a))
  {
    hide OwnerStep, AskerStep, ReaderStep, RemoteStep;
    match a
    case Own(own) => OwnerEffect(s, Step(s, a), own);
    case Ask(c, ask) => AskerEffect(s, Step(s, a), c, ask);
    case Read(read) => ReaderEffect(s, Step(s, a), read);
    case Remote(remote) => RemoteEffect(s, Step(s, a), remote);
  }

  /**
   Once the reader is gone and no `begin_turn` is under way, turn t's channel has ended in a continuation if and only
   if it had been ended in the log (its closing, its abort, the end of output or another registration came after its
   own) or the handle is removed from the pool, before or then.
   */
  lemma LeftChannelsEndExactlyByRemoval(actions: seq<Action>, more: seq<Action>, t: Turn)
    requires Possible(INITIAL, actions) && Possible(Run(INITIAL, actions), more)
    ensures var s := Run(INITIAL, actions);
      s.reader.Gone? && !Beginning(s.owner) ==>
        (ChannelClosed(Run(s, more), t) <==> !OpenInLog(s.log, t) || Removed in s.log || Own(Drop) in more)
  {
    var s := Run(INITIAL, actions);
    RunIsLogged(INITIAL, actions) by { assert INITIAL.log == []; }
    GoneIsCancelled(INITIAL, actions);
    if s.reader.Gone? && !Beginning(s.owner) {
      DesertedForever(s, more);
      assert Placed(s, t) <==> OpenInLog(s.log, t);
    }
  }

  /**
   At any moment of any run once the reader is gone, the channel of the turn registered last and not aborted is open
   if and only if neither its closing nor the end of output was observed after its registration, and the handle has
   not been removed from the pool.
   */
  lemma GoneReadersLeaveOpenExactlyTheUnended(actions: seq<Action>, t: Turn, k: nat)
    requires Possible(INITIAL, actions)
    ensures var s := Run(INITIAL, actions);
      && s.reader.Gone? && k < |s.log| && s.log[k] == Opened(t)
      && (forall j :: k < j < |s.log| ==> !s.log[j].Opened? && s.log[j] != Aborted(t)) ==>
        (!ChannelClosed(s, t) <==>
           (forall j :: k < j < |s.log| ==> s.log[j] != Closed(t) && !s.log[j].EndOfOutput?) && Removed !in s.log)
  {
    var s := Run(INITIAL, actions);
    SlotIsOpenExactlyWhenLogged(actions, t);
    if s.reader.Gone? && k < |s.log| && s.log[k] == Opened(t)
       && forall j :: k < j < |s.log| ==> !s.log[j].Opened? && s.log[j] != Aborted(t)
    {
      if OpenInLog(s.log, t) {
        var i :| 0 <= i < |s.log| && s.log[i] == Opened(t) && forall j :: i < j < |s.log| ==> !Ends(s.log[j], t);
        assert i <= k;
        assert forall j :: k < j < |s.log| ==> !Ends(s.log[j], t);
      }
      if forall j :: k < j < |s.log| ==> s.log[j] != Closed(t) && !s.log[j].EndOfOutput? {
        assert forall j :: k < j < |s.log| ==> !Ends(s.log[j], t);
      }
    }
  }

  /**
   The reader's error and cancel exits, taken between lines while the pool holds the handle and a channel is open,
   leave that channel open until the handle is removed: its receiver learns only then that the process is gone.
   */
  lemma ExitStrandsUntilRemoval(s: State, more: seq<Action>)
    requires s.reader.Waiting? && s.slotOpen && s.pooled && !Beginning(s.owner)
    requires Possible(Step(s, Read(ReadExit)), more)
    ensures Enabled(s, Read(ReadExit))
    ensures ChannelClosed(Run(Step(s, Read(ReadExit)), more), s.slotTurn) <==> Own(Drop) in more
  {
    DesertedForever(Step(s, Read(ReadExit)), more);
  }

  /** The end of output closes the channel, and the exit that follows it leaves it closed. */
  lemma EndOfOutputClosesTheRunningTurn(s: State, more: seq<Action>)
    requires s.reader.Waiting? && s.stdout == [] && !Beginning(s.owner)
    requires var ended := [Read(ReadEof), Read(ReadExit)]; Possible(s, ended) && Possible(Run(s, ended), more)
    ensures ChannelClosed(Run(Run(s, [Read(ReadEof), Read(ReadExit)]), more), s.slotTurn)
  {
    RunTwo(s, Read(ReadEof), Read(ReadExit));
    DesertedForever(Run(s, [Read(ReadEof), Read(ReadExit)]), more);
  }

  // ------------------------------------------------------------ removing the handle

  /** What the reader does to be done with its line, and then to leave. */
  function WayOut(r: Reader): ReaderAction
    requires !r.Gone?
  {
    if r.Waiting? || r.AtEof? then ReadExit else NextRead(r)
  }

  lemma WayOutIsShorter(s: State, s': State, a: ReaderAction)
    requires !s.reader.Gone? && a == WayOut(s.reader) && ReaderEnabled(s, a) && s' == ReaderStep(s, a)
    ensures s'.pooled == s.pooled && (s'.reader.Gone? || Stage(s'.reader) < Stage(s.reader))
  {
    hide ReaderStep;
    ReaderEffect(s, s', a);
  }

  /** The reader can always leave, by steps of its own and without another line. */
  lemma {:induction false} ReaderCanLeave(s: State) returns (more: seq<Action>)
    ensures Possible(s, more) && Run(s, more).reader.Gone? && Run(s, more).pooled == s.pooled
    ensures forall a <- more :: a.Read? && !a.read.ReadLine? && !a.read.ReadEof?
    decreases if s.reader.Gone? then 0 else 1, Stage(s.reader)
  {
    if s.reader.Gone? {
      more := [];
    } else {
      var a := WayOut(s.reader);
      WayOutIsShorter(s, ReaderStep(s, a), a);
      var rest := ReaderCanLeave(ReaderStep(s, a));
      RunFirst(s, Read(a), rest);
      more := [Read(a)] + rest;
    }
  }

  /** Once the handle is removed it stays so. */
  lemma {:induction false} RemovedStays(s: State, actions: seq<Action>)
    requires Possible(s, actions)
    ensures Run(s, actions).pooled ==> s.pooled
    decreases |actions|
  {
    if actions != [] {
      RemovedStays(Step(s, actions[0]), actions[1..]);
    }
  }

  /**
   Removing the handle ends every channel, in every run: nothing more is needed than that the reader leaves, which it
   can do by itself; the channel need have neither its result nor an end of output.
   */
  lemma RemovalEndsEveryChannel(s: State, more: seq<Action>) returns (leave: seq<Action>)
    requires OwnerEnabled(s, Drop) && Possible(Step(s, Own(Drop)), more)
    ensures Run(Step(s, Own(Drop)), more).reader.Gone? ==> forall t :: ChannelClosed(Run(Step(s, Own(Drop)), more), t)
    ensures var v := Run(Step(s, Own(Drop)), more);
      && Possible(v, leave) && (forall a <- leave :: a.Read? && !a.read.ReadLine? && !a.read.ReadEof?)
      && forall t :: ChannelClosed(Run(v, leave), t)
  {
    RemovedStays(Step(s, Own(Drop)), more);
    leave := ReaderCanLeave(Run(Step(s, Own(Drop)), more));
  }

  /** A turn that is killed between two lines ends so: nothing but the removal is observed. */
  lemma KilledTurnEndsUnanswered(s: State)
    requires OwnerEnabled(s, Drop) && s.reader.Waiting? && s.slotOpen
    ensures !ChannelClosed(s, s.slotTurn)
    ensures var killed := [Own(Drop), Read(ReadExit)];
      && Possible(s, killed) && ChannelClosed(Run(s, killed), s.slotTurn) && Run(s, killed).log == s.log + [Removed]
  {
    RunTwo(s, Own(Drop), Read(ReadExit));
  }
}
