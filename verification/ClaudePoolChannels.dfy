/**
 What turns may expect of their channels.  This needs less of the caller than the attribution of results does: a turn
 begins only after the reader has loaded the generation for the previous turn's result line, and this is exact.
 */
module ClaudePoolChannels {
  import opened Wrappers
  import opened ClaudePool
  import opened ClaudePoolSpec
  import opened ClaudePoolCalls
  import opened ClaudePoolInvariant
  import opened ClaudePoolTheorems
  import opened ClaudePoolOutside

  // ------------------------------------------------------------------ the invariant

  /** The result line the reader has just got. */
  function JustGot(r: Reader): seq<Turn> { if r.Got? && r.line.ResultLine? then [r.line.frame.turn] else [] }

  /** The turns whose result lines are still to be loaded, nearest first. */
  function Coming(s: State): seq<Turn> { JustGot(s.reader) + ResultTurns(s.stdout) + s.owed }

  /** Only the newest turn's result is still to be loaded, and the slot says so. */
  predicate Comes(s: State) {
    && (s.owner.Numbered? || s.owner.Activated? || s.owner.Slotted? || s.owner.SendFailed? || s.owner.Deactivated?
        ==> s.owner.turn == s.generation && s.generation >= 1)
    && s.slotTurn <= NewestOpened(s)
    && (Unloaded(s) ==> s.slotTurn == s.generation && s.generation >= 1)
    && (Preparing(s.owner) ==> !Unloaded(s))
    && (Alive(s) ==>
          if Beginning(s.owner) then Coming(s) == [] && (Preparing(s.owner) || Unloaded(s))
          else Coming(s) == if Unloaded(s) then [s.generation] else [])
    && (HasLoaded(s.reader) ==> ReaderFrame(s.reader).Some? && s.reader.generation == ReaderFrame(s.reader).value.turn
                                && s.reader.generation <= NewestOpened(s))
  }

  /** Everything observed is bounded by the turns begun so far. */
  predicate Bounded(s: State, d: Digest) {
    && (forall t <- d.registered :: t <= NewestOpened(s))
    && (forall t <- d.aborted :: t <= NewestOpened(s))
    && (forall t <- d.answered :: 1 <= t <= NewestSent(s))
  }

  /** The slot and the log agree. */
  predicate Slots(s: State, d: Digest) {
    && (s.slotOpen ==> s.slotTurn in d.registered && s.slotTurn !in d.aborted)
    && (Unloaded(s) && s.slotTurn in d.answered ==> JustGot(s.reader) == [s.slotTurn])
    && (ReaderFrame(s.reader).Some? ==> ReaderFrame(s.reader).value.turn in d.answered)
    && (forall t <- Unfinished(d) :: s.slotOpen && s.slotTurn == t)
    && (Alive(s) ==> d.ended == {})
  }

  /** What was taken up for each turn has been sent on its channel, but for the event in the reader's hands. */
  ghost predicate EventsMatch(s: State) {
    forall t :: EventsOf(s.log, t)
             == Delivered(s.delivered, t) + if s.reader.Sending? && s.reader.turn == t then [s.reader.event] else []
  }

  ghost predicate Tidy(s: State, d: Digest) {
    Comes(s) && Bounded(s, d) && Slots(s, d) && Speaks(d, s.log) && EventsMatch(s)
  }

  // --------------------------------------------------------------- the turn owner

  lemma OwnerKeepsComes(s: State, a: OwnerAction)
    requires Comes(s) && OwnerEnabled(s, a) && Cautious(s, Own(a))
    ensures Comes(OwnerStep(s, a))
  {
    hide OwnerStep;
    OwnerEffect(s, OwnerStep(s, a), a);
    hide ResultTurns, JustGot, ReaderFrame;
    var s' := OwnerStep(s, a);
    assert Coming(s') == Coming(s) + if a.BeginSend? && s.stdinOpen then [s.owner.turn] else [];
  }

  lemma OwnerKeepsBounded(s: State, a: OwnerAction, d: Digest)
    requires Comes(s) && Bounded(s, d) && OwnerEnabled(s, a)
    ensures Bounded(OwnerStep(s, a), After(d, OwnerSees(s, a)))
  {
    hide OwnerStep;
    OwnerEffect(s, OwnerStep(s, a), a);
    hide Coming;
  }

  lemma OwnerKeepsSlots(s: State, a: OwnerAction, d: Digest)
    requires Comes(s) && Bounded(s, d) && Slots(s, d) && OwnerEnabled(s, a) && Cautious(s, Own(a))
    ensures Slots(OwnerStep(s, a), After(d, OwnerSees(s, a)))
  {
    hide OwnerStep;
    OwnerEffect(s, OwnerStep(s, a), a);
    hide Coming;
    var d' := After(d, OwnerSees(s, a));
    assert Unfinished(d') <= Unfinished(d) + if a.BeginSlot? then {s.owner.turn} else {};
    if a.BeginCloseSlot? && s.slotTurn == s.owner.turn {
      assert s.slotTurn !in Unfinished(d');
    }
  }

  lemma OwnerKeepsTidy(s: State, a: OwnerAction, d: Digest)
    requires Tidy(s, d) && OwnerEnabled(s, a) && Cautious(s, Own(a))
    ensures Tidy(OwnerStep(s, a), After(d, OwnerSees(s, a)))
  {
    hide Comes, Bounded, Slots, Speaks, EventsOf, Delivered;
    OwnerKeepsComes(s, a);
    OwnerKeepsBounded(s, a, d);
    OwnerKeepsSlots(s, a, d);
    OwnerLog(s, a);
    var seen := OwnerSees(s, a);
    if seen == [] {
      assert s.log + seen == s.log;
    } else {
      AbsorbSpeaks(d, s.log, seen[0]);
      Push(s.log, seen[0]);
    }
  }

  lemma OwnerLog(s: State, a: OwnerAction)
    requires OwnerEnabled(s, a)
    ensures var s' := OwnerStep(s, a);
      s'.log == s.log + OwnerSees(s, a) && s'.delivered == s.delivered && s'.reader == s.reader
    ensures |OwnerSees(s, a)| <= 1 && forall o <- OwnerSees(s, a) :: !o.Forwarded?
  {
    hide OwnerStep;
    OwnerEffect(s, OwnerStep(s, a), a);
  }

  // ------------------------------------------------------------------- the reader

  lemma ReaderKeepsComing(s: State, s': State, a: ReaderAction)
    requires ReaderEnabled(s, a) && s' == ReaderStep(s, a)
    ensures Coming(s) == (if a.LoadGeneration? then JustGot(s.reader) else []) + Coming(s')
  {
    ReaderOutput(s, a);
    if a.ReadLine? {
      assert JustGot(s'.reader) + ResultTurns(s.stdout[1..]) == ResultTurns(s.stdout);
    }
  }

  /** What a reader action does to the expectation that the slot's result be loaded. */
  lemma ReaderLoads(s: State, s': State, a: ReaderAction)
    requires ReaderEnabled(s, a) && s' == ReaderStep(s, a)
    ensures Unloaded(s') == (Unloaded(s) && !a.ReadEof? && !(JustGot(s.reader) != [] && s.slotTurn == s.generation))
    ensures HasLoaded(s'.reader) ==>
              s'.reader.generation == if HasLoaded(s.reader) then s.reader.generation else s.generation
  {
    hide ReaderStep;
    ReaderEffect(s, s', a);
  }

  lemma ReaderFrames(s: State, s': State, a: ReaderAction)
    requires ReaderEnabled(s, a) && s' == ReaderStep(s, a)
    ensures ReaderFrame(s'.reader) ==
            if a.ReadLine? then (if s.stdout[0].ResultLine? then Some(s.stdout[0].frame) else None)
            else if a.ResultClose? then None else ReaderFrame(s.reader)
    ensures HasLoaded(s'.reader) ==> ReaderFrame(s'.reader).Some?
    ensures JustGot(s.reader) != [] ==> a.LoadGeneration? && ReaderFrame(s.reader) == Some(s.reader.line.frame)
    ensures HasLoaded(s'.reader) && !HasLoaded(s.reader) ==> JustGot(s.reader) != []
    ensures a.LoadGeneration? && s.reader.line.ResultLine? ==> JustGot(s.reader) == [s.reader.line.frame.turn]
  {
    hide ReaderStep;
    ReaderEffect(s, s', a);
  }

  /** A result line just got, or next on stdout, is the newest turn's, and that turn's channel expects it. */
  lemma CurrentLine(s: State)
    requires Comes(s)
    ensures JustGot(s.reader) != [] ==>
              JustGot(s.reader) == [s.generation] && Unloaded(s) && s.slotTurn == s.generation && !Beginning(s.owner)
              && ResultTurns(s.stdout) == [] && s.owed == []
    ensures s.reader.Waiting? && |s.stdout| > 0 && s.stdout[0].ResultLine? ==>
              s.stdout[0].frame.turn == s.generation && Unloaded(s) && s.slotTurn == s.generation && !Beginning(s.owner)
  {
    if JustGot(s.reader) != [] {
      assert Coming(s)[0] == JustGot(s.reader)[0];
      assert |Coming(s)| == |JustGot(s.reader)| + |ResultTurns(s.stdout)| + |s.owed|;
    } else if s.reader.Waiting? && |s.stdout| > 0 && s.stdout[0].ResultLine? {
      assert ResultTurns(s.stdout)[0] == s.stdout[0].frame.turn;
      assert Coming(s)[0] == s.stdout[0].frame.turn;
    }
  }

  lemma ReaderKeepsComes(s: State, s': State, a: ReaderAction)
    requires Comes(s) && ReaderEnabled(s, a) && s' == ReaderStep(s, a)
    ensures Comes(s')
  {
    hide ReaderStep, ResultTurns, Unloaded, HasLoaded, ReaderFrame;
    CurrentLine(s);
    ReaderKeepsComing(s, s', a);
    ReaderLoads(s, s', a);
    ReaderFrames(s, s', a);
    ReaderLeavesOwner(s, s', a);
    ReaderRevives(s, s', a);
    ClosingFrame(s, a);
  }

  lemma ClosingFrame(s: State, a: ReaderAction)
    requires ReaderEnabled(s, a)
    ensures a.ResultClose? ==> !HasLoaded(ReaderStep(s, a).reader)
    ensures a.ReadLine? ==> !HasLoaded(ReaderStep(s, a).reader) && s.reader.Waiting?
  {
  }

  lemma ReaderKeepsSlots(s: State, s': State, a: ReaderAction, d: Digest)
    requires Comes(s) && Slots(s, d) && ReaderEnabled(s, a) && !a.ReadLine? && !a.ReadEof? && s' == ReaderStep(s, a)
    ensures Slots(s', d)
  {
    hide ReaderStep, Coming, HasLoaded;
    CurrentLine(s);
    ReaderLoads(s, s', a);
    ReaderFrames(s, s', a);
    ReaderLeavesOwner(s, s', a);
    ReaderRevives(s, s', a);
    LoadingEmpties(s, s', a);
    if a.ResultClose? {
      assert ReaderFrame(s.reader) == Some(s.reader.frame);
      assert s.reader.frame.turn !in Unfinished(d);
      ClosesItsOwn(s);
    }
  }

  lemma LoadingEmpties(s: State, s': State, a: ReaderAction)
    requires ReaderEnabled(s, a) && !a.ReadLine? && s' == ReaderStep(s, a)
    ensures JustGot(s'.reader) == []
  {
    hide ReaderStep;
    ReaderEffect(s, s', a);
  }

  lemma ClosesItsOwn(s: State)
    requires Comes(s) && s.reader.Stored?
    ensures s.reader.generation == s.reader.frame.turn
  {
  }

  lemma EndKeepsSlots(s: State, s': State, d: Digest, d': Digest)
    requires Slots(s, d) && ReaderEnabled(s, ReadEof) && s' == ReaderStep(s, ReadEof)
    requires d' == d.(ended := d.ended + d.registered)
    ensures Slots(s', d')
  {
  }

  /** Reading a line records it and puts it in the reader's hands. */
  lemma ReadLineKeepsTidy(s: State, s': State, d: Digest, d': Digest)
    requires Comes(s) && Bounded(s, d) && Slots(s, d) && ReaderEnabled(s, ReadLine) && s' == ReaderStep(s, ReadLine)
    requires d' == After(d, Sighting(s.stdout[0], s.book.asked))
    ensures Bounded(s', d') && Slots(s', d')
  {
    hide Coming;
    CurrentLine(s);
    var line := s.stdout[0];
    assert Unfinished(d') <= Unfinished(d);
    if line.ResultLine? {
      assert d'.answered == d.answered + {s.generation};
    } else {
      assert d'.answered == d.answered && d'.registered == d.registered && d'.aborted == d.aborted;
    }
  }

  lemma ReaderKeepsBounded(s: State, s': State, a: ReaderAction, d: Digest)
    requires Bounded(s, d) && ReaderEnabled(s, a) && s' == ReaderStep(s, a)
    ensures Bounded(s', d) && forall e :: Bounded(s', d.(ended := e))
  {
    hide ReaderStep;
    ReaderLeavesOwner(s, s', a);
  }

  /** A progress line is taken up for exactly the turn in progress. */
  lemma PickKeepsMatch(s: State, d: Digest)
    requires Comes(s) && Slots(s, d) && Speaks(d, s.log) && EventsMatch(s) && ReaderEnabled(s, PickSender)
    ensures EventsMatch(ReaderStep(s, PickSender))
  {
    hide Coming;
    Push(s.log, Forwarded(s.reader.line.event));
    forall t
      ensures InProgress(s.log, t) <==> s.slotOpen && s.slotTurn == t
    {
      assert InProgress(s.log, t) <==> t in Unfinished(d);
    }
  }

  lemma OtherReads(s: State, s': State, a: ReaderAction)
    requires ReaderEnabled(s, a) && s' == ReaderStep(s, a) && !a.PickSender? && !a.SendEvent?
    ensures s'.delivered == s.delivered && !s'.reader.Sending? && !s.reader.Sending?
    ensures |ReaderSees(s, a)| <= 1 && forall o <- ReaderSees(s, a) :: !o.Forwarded?
  {
    hide ReaderStep;
    ReaderEffect(s, s', a);
    SeesOne(s, a);
    hide ReaderSees;
  }

  lemma SeesOne(s: State, a: ReaderAction)
    requires ReaderEnabled(s, a) && !a.PickSender?
    ensures |ReaderSees(s, a)| <= 1 && forall o <- ReaderSees(s, a) :: !o.Forwarded?
  {
  }

  lemma ReaderKeepsMatch(s: State, s': State, a: ReaderAction, d: Digest)
    requires Comes(s) && Slots(s, d) && Speaks(d, s.log) && EventsMatch(s)
    requires ReaderEnabled(s, a) && s' == ReaderStep(s, a)
    ensures EventsMatch(s')
  {
    hide Comes, Slots, Speaks;
    if a.PickSender? {
      PickKeepsMatch(s, d);
    } else if a.SendEvent? {
      PushDelivered(s.delivered, (s.reader.turn, s.reader.event));
    } else {
      hide ReaderStep, ReaderSees;
      OtherReads(s, s', a);
      ReaderLeaves(s, a);
      var seen := ReaderSees(s, a);
      if seen == [] {
        assert s.log + seen == s.log;
      } else {
        assert seen == [seen[0]] && seen[0] in seen;
        Push(s.log, seen[0]);
      }
    }
  }

  lemma ReaderKeepsTidy(s: State, a: ReaderAction, d: Digest)
    requires Tidy(s, d) && ReaderEnabled(s, a)
    ensures Tidy(ReaderStep(s, a), After(d, ReaderSees(s, a)))
  {
    hide Comes, Bounded, Slots, Speaks, EventsMatch, ReaderStep;
    var s', seen := ReaderStep(s, a), ReaderSees(s, a);
    var d' := After(d, seen);
    ReaderLeaves(s, a);
    ReaderKeepsComes(s, s', a);
    ReaderKeepsMatch(s, s', a, d);
    if a.ReadLine? {
      ReadLineKeepsTidy(s, s', d, d');
    } else {
      ReaderDigest(s, a, d);
      ReaderKeepsBounded(s, s', a, d);
      assert d.(ended := d.ended) == d;
      if a.ReadEof? {
        EndKeepsSlots(s, s', d, d');
      } else {
        ReaderKeepsSlots(s, s', a, d);
      }
    }
    if seen == [] {
      assert s.log + seen == s.log;
    } else {
      assert seen == [seen[0]];
      AbsorbSpeaks(d, s.log, seen[0]);
    }
  }

  // --------------------------------------------------------------------- whole runs

  lemma RemoteKeepsComing(s: State, a: RemoteAction)
    requires RemoteEnabled(s, a)
    ensures Coming(RemoteStep(s, a)) == Coming(s)
  {
    if a.Emit? {
      ResultTurnsAppend(s.stdout, a.line);
    }
  }

  lemma SameComing(s: State, s': State)
    requires s'.reader == s.reader && s'.stdout == s.stdout && s'.owed == s.owed
    ensures Coming(s') == Coming(s)
  {
  }

  lemma OthersKeepTidy(s: State, s': State, d: Digest)
    requires Tidy(s, d) && Coming(s') == Coming(s) && s'.owner == s.owner && s'.reader == s.reader
    requires s'.generation == s.generation && s'.slotTurn == s.slotTurn && s'.slotOpen == s.slotOpen
    requires s'.log == s.log && s'.delivered == s.delivered
    ensures Tidy(s', d)
  {
    hide Coming, Speaks;
  }

  lemma StepKeepsTidy(s: State, a: Action, d: Digest)
    requires Tidy(s, d) && Enabled(s, a) && Cautious(s, a)
    ensures Tidy(Step(s, a), Digested(s, a, d))
  {
    hide Tidy, Coming;
    match a
    case Own(own) =>
      hide OwnerStep, OwnerSees;
      OwnerKeepsTidy(s, own, d);
    case Ask(c, ask) =>
      hide AskerStep;
      AskerEffect(s, AskerStep(s, c, ask), c, ask);
      SameComing(s, AskerStep(s, c, ask));
      OthersKeepTidy(s, AskerStep(s, c, ask), d);
    case Read(read) =>
      hide ReaderStep, ReaderSees;
      ReaderKeepsTidy(s, read, d);
    case Remote(remote) =>
      hide RemoteStep;
      RemoteEffect(s, RemoteStep(s, remote), remote);
      RemoteKeepsComing(s, remote);
      OthersKeepTidy(s, RemoteStep(s, remote), d);
  }

  lemma {:induction false} OrderlyIsPossible(s: State, actions: seq<Action>)
    requires Orderly(s, actions)
    ensures Possible(s, actions)
    decreases |actions|
  {
    if actions != [] {
      OrderlyIsPossible(Step(s, actions[0]), actions[1..]);
    }
  }

  /** The stronger discipline keeps the weaker one. */
  lemma {:induction false} LegalIsOrderly(s: State, actions: seq<Action>)
    requires Legal(s, actions)
    ensures Orderly(s, actions)
    decreases |actions|
  {
    if actions != [] {
      LegalIsOrderly(Step(s, actions[0]), actions[1..]);
    }
  }

  lemma {:induction false} RunKeepsTidy(s: State, actions: seq<Action>, d: Digest) returns (d': Digest)
    requires Tidy(s, d) && Orderly(s, actions)
    ensures Possible(s, actions) && Tidy(Run(s, actions), d')
    decreases |actions|
  {
    OrderlyIsPossible(s, actions);
    if actions == [] {
      d' := d;
    } else {
      StepKeepsTidy(s, actions[0], d);
      d' := RunKeepsTidy(Step(s, actions[0]), actions[1..], Digested(s, actions[0], d));
    }
  }

  lemma InitialTidy()
    ensures Tidy(INITIAL, NOTHING)
  {
    assert Coming(INITIAL) == [] && INITIAL.log == [] && INITIAL.delivered == [];
    assert Speaks(NOTHING, []);
  }

  lemma RunIsTidy(actions: seq<Action>) returns (d: Digest)
    requires Orderly(INITIAL, actions)
    ensures Possible(INITIAL, actions) && Tidy(Run(INITIAL, actions), d)
  {
    InitialTidy();
    d := RunKeepsTidy(INITIAL, actions, NOTHING);
  }

  // --------------------------------------------------------------- the main results

  /**
   In every orderly run, once t's channel is closed what was sent on it is exactly the progress lines taken up
   between its registration and t's result line, in order; until then, all of them but the one in the reader's hands.
   */
  lemma DeliveriesAreExact(actions: seq<Action>, t: Turn)
    requires Orderly(INITIAL, actions)
    ensures Possible(INITIAL, actions)
    ensures var s := Run(INITIAL, actions);
      && Delivered(s.delivered, t) <= EventsOf(s.log, t)
      && |EventsOf(s.log, t)| <= |Delivered(s.delivered, t)| + 1
      && (ChannelClosed(s, t) ==> Delivered(s.delivered, t) == EventsOf(s.log, t))
  {
    var d := RunIsTidy(actions);
  }

  /**
   The channel of a turn that was not aborted is gone, but no result was read for it, the output goes on and its
   slot is kept.
   */
  ghost predicate LostEarly(s: State, t: Turn) {
    && Opened(t) in s.log && Aborted(t) !in s.log && !InSlot(s, t)
    && !ResultSeen(s.log, t) && !EndedAfter(s.log, t) && SlotIsKept(s)
  }

  /**
   In every orderly run a channel that was not aborted ends only with its result, with the output, or with the slot,
   when the handle has been removed and the reader is gone.
   */
  lemma ChannelsEndWithTheirResult(actions: seq<Action>, t: Turn)
    requires Orderly(INITIAL, actions)
    ensures Possible(INITIAL, actions) && !LostEarly(Run(INITIAL, actions), t)
  {
    var d := RunIsTidy(actions);
    var s := Run(INITIAL, actions);
    assert t in Unfinished(d) <==> InProgress(s.log, t) && !EndedAfter(s.log, t);
  }

  /** ... and a result line that has been dealt with leaves its turn's channel closed. */
  lemma HandledResultClosesItsChannel(actions: seq<Action>, t: Turn)
    requires Orderly(INITIAL, actions)
    ensures Possible(INITIAL, actions) && !LeftOpen(Run(INITIAL, actions), t)
  {
    hide Coming;
    var d := RunIsTidy(actions);
  }

  // ---------------------------------------------------------- beginning a turn too soon

  /** No acknowledgement or loaded result can move the active marker. */
  predicate MarkerIsSafe(s: State) {
    && (forall id <- s.book.waiters :: s.book.waiters[id] < s.active)
    && (s.reader.Acking? ==> s.reader.turn < s.active)
    && (HasLoaded(s.reader) ==> s.reader.generation != s.active)
  }

  /** The actions of `more` load the result line of turn t and leave the owner, the slot and a safe marker alone. */
  ghost predicate LoadsResult(s: State, more: seq<Action>, t: Turn) {
    && Possible(s, more) && (forall a <- more :: ReadsOn(a))
    && var v := Run(s, more);
       && v.reader.Loaded? && v.reader.line.ResultLine? && v.reader.line.frame.turn == t
       && v.reader.generation == s.generation
       && v.owner == s.owner && v.generation == s.generation
       && v.slotOpen == s.slotOpen && v.slotTurn == s.slotTurn && v.pooled == s.pooled
       && s.log <= v.log && (MarkerIsSafe(s) ==> v.active == s.active)
       && (ResultRead(v.reader.line.frame) in v.log || ReaderFrame(s.reader) == Some(v.reader.line.frame))
  }

  lemma ComesCloser(s: State, s': State)
    requires Alive(s) && Coming(s) != [] && Ahead(s) != [] && JustGot(s.reader) == []
    requires Enabled(s, NextAction(s)) && s' == Step(s, NextAction(s))
    ensures Alive(s') && Coming(s') == Coming(s)
    ensures |s'.owed| < |s.owed| || (s'.owed == s.owed && Distance(s') < Distance(s))
  {
    match NextAction(s)
    case Read(read) =>
      hide ReaderStep, Stage;
      ReaderKeepsComing(s, s', read);
      ReadingIsCloser(s, s', read);
    case Remote(remote) => RemoteKeepsComing(s, remote);
  }

  lemma KeepsAway(s: State, s': State)
    requires Alive(s) && Ahead(s) != [] && JustGot(s.reader) == []
    requires HasLoaded(s.reader) ==> s.reader.generation != s.slotTurn
    requires Enabled(s, NextAction(s)) && s' == Step(s, NextAction(s))
    ensures HasLoaded(s'.reader) ==> s'.reader.generation != s'.slotTurn
  {
    match NextAction(s)
    case Read(read) =>
      hide ReaderStep;
      ReaderLoads(s, s', read);
      ReaderFrames(s, s', read);
      ReaderLeavesOwner(s, s', read);
    case Remote(remote) =>
  }

  lemma MarkerStays(s: State, s': State)
    requires Alive(s) && Ahead(s) != [] && JustGot(s.reader) == [] && MarkerIsSafe(s)
    requires Enabled(s, NextAction(s)) && s' == Step(s, NextAction(s))
    ensures s'.active == s.active && MarkerIsSafe(s')
  {
    hide Ahead;
    match NextAction(s)
    case Read(read) =>
      hide MarkerIsSafe, ReaderStep;
      ReadKeepsMarker(s, s', read);
    case Remote(remote) =>
  }

  lemma ReadKeepsMarker(s: State, s': State, a: ReaderAction)
    requires ReaderEnabled(s, a) && JustGot(s.reader) == [] && MarkerIsSafe(s) && s' == ReaderStep(s, a)
    ensures s'.active == s.active && MarkerIsSafe(s')
  {
    hide ReaderStep, HasLoaded;
    ReadKeepsActive(s, s', a);
    ReadKeepsWaiters(s, s', a);
    ReadKeepsAcks(s, s', a);
    ReaderLoads(s, s', a);
    ReaderFrames(s, s', a);
  }

  lemma ReadKeepsActive(s: State, s': State, a: ReaderAction)
    requires ReaderEnabled(s, a) && MarkerIsSafe(s) && s' == ReaderStep(s, a)
    ensures s'.active == s.active
  {
    hide ReaderStep;
    ReaderEffect(s, s', a);
  }

  lemma ReadKeepsWaiters(s: State, s': State, a: ReaderAction)
    requires ReaderEnabled(s, a) && s' == ReaderStep(s, a)
    ensures forall id <- s'.book.waiters :: id in s.book.waiters && s'.book.waiters[id] == s.book.waiters[id]
  {
    hide ReaderStep;
    ReaderEffect(s, s', a);
  }

  lemma ReadKeepsAcks(s: State, s': State, a: ReaderAction)
    requires ReaderEnabled(s, a) && MarkerIsSafe(s) && s' == ReaderStep(s, a)
    ensures s'.reader.Acking? ==> s'.reader.turn < s.active
  {
    hide ReaderStep;
    ReaderEffect(s, s', a);
  }

  lemma LoadingRuns(s: State)
    requires JustGot(s.reader) != []
    ensures LoadsResult(s, [Read(LoadGeneration)], JustGot(s.reader)[0])
  {
    RunOne(s, Read(LoadGeneration));
  }

  lemma LoadsLater(s: State, s': State, a: Action, more: seq<Action>, t: Turn)
    requires Enabled(s, a) && s' == Step(s, a) && ReadsOn(a) && LoadsResult(s', more, t)
    requires s'.owner == s.owner && s'.generation == s.generation && s'.pooled == s.pooled
    requires s'.slotOpen == s.slotOpen && s'.slotTurn == s.slotTurn && s.log <= s'.log
    requires ReaderFrame(s'.reader).Some? ==>
               ReaderFrame(s'.reader) == ReaderFrame(s.reader) || ResultRead(ReaderFrame(s'.reader).value) in s'.log
    requires MarkerIsSafe(s) ==> s'.active == s.active && MarkerIsSafe(s')
    ensures LoadsResult(s, [a] + more, t)
  {
    hide ReaderFrame, Step, Enabled, MarkerIsSafe;
    RunFirst(s, a, more);
  }

  /** A result line that is still to come can always be brought to be loaded. */
  lemma {:induction false} ResultGetsLoaded(s: State) returns (more: seq<Action>)
    requires Alive(s) && Coming(s) != [] && (HasLoaded(s.reader) ==> s.reader.generation != s.slotTurn)
    ensures LoadsResult(s, more, Coming(s)[0])
    decreases |s.owed|, Distance(s)
  {
    ComingIsAhead(s);
    if JustGot(s.reader) != [] {
      hide LoadsResult, ResultTurns;
      LoadingRuns(s);
      more := [Read(LoadGeneration)];
    } else {
      hide HasLoaded, ReaderFrame, Step, LoadsResult, Ahead, Coming, MarkerIsSafe;
      NextIsEnabled(s);
      var a, s' := NextAction(s), Step(s, NextAction(s));
      ComesCloser(s, s');
      StoredHasLoaded(s);
      NextLeaves(s, s');
      NextShowsResult(s, s');
      KeepsAway(s, s');
      if MarkerIsSafe(s) { MarkerStays(s, s'); }
      var rest := ResultGetsLoaded(s');
      LoadsLater(s, s', a, rest, Coming(s)[0]);
      more := [a] + rest;
    }
  }

  lemma ComingIsAhead(s: State)
    ensures Coming(s) != [] ==> Ahead(s) != []
  {
  }

  lemma StoredHasLoaded(s: State)
    ensures s.reader.Stored? ==> HasLoaded(s.reader)
  {
  }

  const FINISHING := [Read(ResultSwap), Read(ResultStore), Read(ResultClose)]

  /** A loaded result line is dealt with: the slot is closed if it is the one whose generation was loaded. */
  lemma FinishingRuns(v: State)
    requires v.reader.Loaded? && v.reader.line.ResultLine?
    ensures Possible(v, FINISHING)
    ensures var w := Run(v, FINISHING); var closes := v.slotTurn == v.reader.generation;
      && w.reader.Waiting? && w.slotTurn == v.slotTurn && w.pooled == v.pooled && w.slotOpen == (v.slotOpen && !closes)
      && w.log == v.log + if closes then [Closed(v.slotTurn)] else []
  {
    RunThree(v, Read(ResultSwap), Read(ResultStore), Read(ResultClose));
  }

  /** A channel and its result disagree: one is gone without the other. */
  ghost predicate Disagrees(s: State) { exists t :: LostEarly(s, t) || LeftOpen(s, t) }

  ghost predicate CanDisagree(s: State) {
    exists more :: Orderly(s, more) && Possible(s, more) && Disagrees(Run(s, more))
  }

  /** The begin is refused: the running turn's channel is left open by its own result. */
  lemma RefusedTooSoon(s: State, d: Digest) returns (more: seq<Action>)
    requires Tidy(s, d) && Alive(s) && OwnerEnabled(s, BeginClear) && Unloaded(s) && s.active != 0
    ensures Possible(s, BeginScript(s) + more) && Own(BeginClear) !in more
    ensures var w := Run(s, BeginScript(s) + more); LeftOpen(w, s.generation) && Stalled(w, s.generation)
  {
    TooSoon(s, d);
    BeginRuns(s);
    BegunLeaves(s);
    var u := Begun(s);
    BegunComing(s);
    hide Tidy, Begun, Coming, BeginScript, Run, Possible, LeftOpen, Stalled, FINISHING;
    var path := ResultGetsLoaded(u);
    var v := Run(u, path);
    FrameIsSeen(s, d, v.log, v.reader.line.frame);
    FinishedIsOpen(v, s.generation);
    RunAppend(u, path, FINISHING);
    more := path + FINISHING;
    RunAppend(s, BeginScript(s), more);
  }

  lemma FinishedIsOpen(v: State, t: Turn)
    requires v.reader.Loaded? && v.reader.line.ResultLine? && v.owner.Idle? && v.pooled && v.slotOpen
    requires v.slotTurn == t < v.reader.generation == v.generation && ResultSeen(v.log, t)
    ensures Possible(v, FINISHING) && LeftOpen(Run(v, FINISHING), t) && Stalled(Run(v, FINISHING), t)
  {
    RunThree(v, Read(ResultSwap), Read(ResultStore), Read(ResultClose));
  }

  lemma SeenLonger(log: seq<Observation>, more: seq<Observation>, t: Turn)
    requires ResultSeen(log, t) && log <= more
    ensures ResultSeen(more, t)
  {
    var k :| 0 <= k < |log| && log[k].ResultRead? && log[k].frame.turn == t;
    assert more[k].ResultRead?;
  }

  lemma FrameIsSeen(s: State, d: Digest, log: seq<Observation>, frame: Frame)
    requires Tidy(s, d) && s.log <= log
    requires ResultRead(frame) in log || ReaderFrame(s.reader) == Some(frame)
    ensures ResultSeen(log, frame.turn)
  {
    hide Coming;
    if ReaderFrame(s.reader) == Some(frame) {
      SeenLonger(s.log, log, frame.turn);
    } else {
      var k :| 0 <= k < |log| && log[k] == ResultRead(frame);
    }
  }

  /** What a begin that comes too soon finds. */
  lemma TooSoon(s: State, d: Digest)
    requires Tidy(s, d) && Alive(s) && OwnerEnabled(s, BeginClear) && Unloaded(s)
    ensures s.slotTurn == s.generation && Coming(s) == [s.generation]
    ensures HasLoaded(s.reader) ==> s.reader.generation < s.generation
    ensures Opened(s.generation) in s.log && Aborted(s.generation) !in s.log && !EndedAfter(s.log, s.generation)
    ensures ResultSeen(s.log, s.generation) ==> JustGot(s.reader) == [s.generation]
    ensures !ResultSeen(s.log, s.generation + 1) && Aborted(s.generation + 1) !in s.log
    ensures forall t :: !EndedAfter(s.log, t)
  {
    hide ResultTurns;
  }

  lemma BegunComing(s: State)
    requires s.owner.Idle?
    ensures Coming(s) <= Coming(Begun(s))
  {
  }

  const ENTERING := [Own(BeginClear), Own(BeginNumber), Own(BeginActivate), Own(BeginSlot)]

  lemma EnteringRuns(s: State)
    requires OwnerEnabled(s, BeginClear) && s.active == 0
    ensures Possible(s, ENTERING)
    ensures var u := Run(s, ENTERING);
      && u.slotOpen && u.slotTurn == u.generation == s.generation + 1 && u.reader == s.reader
      && u.pooled
      && u.log == s.log + [Opened(s.generation + 1)]
      && u.active == u.generation && u.book == s.book && Coming(u) == Coming(s)
  {
    NumberingRuns(s);
    RunOne(Run(s, NUMBERING), Own(BeginSlot));
    RunAppend(s, NUMBERING, [Own(BeginSlot)]);
    assert ENTERING == NUMBERING + [Own(BeginSlot)];
  }

  /** The begin is let in before the running turn's result line was read: it replaces that turn's channel. */
  lemma ReplacedTooSoon(s: State, d: Digest)
    requires Tidy(s, d) && Alive(s) && OwnerEnabled(s, BeginClear) && Unloaded(s) && s.active == 0
    requires !ResultSeen(s.log, s.generation)
    ensures Possible(s, ENTERING) && LostEarly(Run(s, ENTERING), s.generation)
  {
    TooSoon(s, d);
    hide Tidy, Coming, Run, Possible, ResultSeen, EndedAfter;
    EnteringRuns(s);
    PushSeen(s.log, Opened(s.generation + 1), s.generation);
    PushEnd(s.log, Opened(s.generation + 1), s.generation);
  }

  const ANSWERING := [Read(LoadGeneration)] + FINISHING

  lemma AnsweringRuns(u: State)
    requires JustGot(u.reader) != [] && u.slotTurn == u.generation
    ensures Possible(u, ANSWERING)
    ensures var w := Run(u, ANSWERING); !w.slotOpen && w.pooled == u.pooled && w.log == u.log + [Closed(u.slotTurn)]
  {
    hide Run, Possible;
    LoadingRuns(u);
    var v := Run(u, [Read(LoadGeneration)]);
    RunOne(u, Read(LoadGeneration));
    FinishingRuns(v);
    RunAppend(u, [Read(LoadGeneration)], FINISHING);
  }

  /** ... or after it was read and before its generation was loaded: that result closes the new turn's channel. */
  lemma ClosedTooSoon(s: State, d: Digest)
    requires Tidy(s, d) && Alive(s) && OwnerEnabled(s, BeginClear) && Unloaded(s) && s.active == 0
    requires ResultSeen(s.log, s.generation)
    ensures Possible(s, ENTERING + ANSWERING) && LostEarly(Run(s, ENTERING + ANSWERING), s.generation + 1)
  {
    hide Tidy, Coming, Run, Possible, ResultSeen, EndedAfter, LostEarly, Unloaded, ENTERING, ANSWERING;
    TooSoon(s, d);
    EnteringRuns(s);
    var u, t := Run(s, ENTERING), s.generation + 1;
    AnsweringRuns(u);
    RunAppend(s, ENTERING, ANSWERING);
    ClosedIsLost(Run(s, ENTERING + ANSWERING), s.log, t);
  }

  lemma ClosedIsLost(w: State, log: seq<Observation>, t: Turn)
    requires !w.slotOpen && w.pooled && w.log == log + [Opened(t)] + [Closed(t)]
    requires !ResultSeen(log, t) && !EndedAfter(log, t) && Aborted(t) !in log
    ensures LostEarly(w, t)
  {
    hide ResultSeen, EndedAfter;
    PushSeen(log, Opened(t), t);
    PushSeen(log + [Opened(t)], Closed(t), t);
    PushEnd(log, Opened(t), t);
    PushEnd(log + [Opened(t)], Closed(t), t);
  }

  lemma EnteredTooSoon(s: State, d: Digest) returns (more: seq<Action>)
    requires Tidy(s, d) && Alive(s) && OwnerEnabled(s, BeginClear) && Unloaded(s) && s.active == 0
    ensures Possible(s, ENTERING + more) && Disagrees(Run(s, ENTERING + more)) && Own(BeginClear) !in more
  {
    hide Tidy, Run, Possible, LostEarly, LeftOpen;
    if ResultSeen(s.log, s.generation) {
      ClosedTooSoon(s, d);
      more := ANSWERING;
    } else {
      ReplacedTooSoon(s, d);
      more := [];
      assert ENTERING + more == ENTERING;
    }
  }

  lemma {:induction false} OrderlyBetweenBegins(s: State, actions: seq<Action>)
    requires Possible(s, actions) && Own(BeginClear) !in actions
    ensures Orderly(s, actions)
    decreases |actions|
  {
    if actions != [] {
      OrderlyBetweenBegins(Step(s, actions[0]), actions[1..]);
    }
  }

  lemma {:induction false} OrderlyAppend(s: State, first: seq<Action>, later: seq<Action>)
    requires Orderly(s, first) && Possible(s, first) && Orderly(Run(s, first), later)
    ensures Orderly(s, first + later)
    decreases |first|
  {
    if first == [] {
      assert first + later == later;
    } else {
      assert (first + later)[0] == first[0] && (first + later)[1..] == first[1..] + later;
      OrderlyAppend(Step(s, first[0]), first[1..], later);
    }
  }

  lemma LeftOpenDisagrees(s: State, t: Turn)
    requires LeftOpen(s, t)
    ensures Disagrees(s)
  {
    hide LeftOpen, LostEarly;
  }

  lemma TooSoonIsPossible(s: State, d: Digest)
    requires Tidy(s, d) && Alive(s) && OwnerEnabled(s, BeginClear) && Unloaded(s)
    ensures CanDisagree(Step(s, Own(BeginClear)))
  {
    hide Tidy, Begun, Disagrees;
    var start, more;
    if s.active != 0 {
      more := RefusedTooSoon(s, d);
      start := BeginScript(s);
      LeftOpenDisagrees(Run(s, start + more), s.generation);
    } else {
      more := EnteredTooSoon(s, d);
      start := ENTERING;
    }
    var script := start + more;
    assert script[0] == Own(BeginClear) && Own(BeginClear) !in script[1..] by {
      assert script[1..] == start[1..] + more;
    }
    OrderlyBetweenBegins(Step(s, Own(BeginClear)), script[1..]);
  }

  lemma InTimeIsRight(actions: seq<Action>, more: seq<Action>)
    requires Orderly(INITIAL, actions) && Possible(INITIAL, actions)
    requires var s := Run(INITIAL, actions);
      OwnerEnabled(s, BeginClear) && !Unloaded(s) && Orderly(Step(s, Own(BeginClear)), more)
      && Possible(Step(s, Own(BeginClear)), more)
    ensures !Disagrees(Run(Step(Run(INITIAL, actions), Own(BeginClear)), more))
  {
    var s := Run(INITIAL, actions);
    var rest := [Own(BeginClear)] + more;
    assert rest[0] == Own(BeginClear) && rest[1..] == more;
    OrderlyIsPossible(s, rest);
    OrderlyAppend(INITIAL, actions, rest);
    RunAppend(INITIAL, actions, rest);
    hide LostEarly, LeftOpen;
    forall t ensures !LostEarly(Run(INITIAL, actions + rest), t) && !LeftOpen(Run(INITIAL, actions + rest), t) {
      ChannelsEndWithTheirResult(actions + rest, t);
      HandledResultClosesItsChannel(actions + rest, t);
    }
  }

  /**
   The exact discipline for channels: from any state of an orderly run whose reader lives, beginning a turn can lead
   to a channel that ends without its result, or stays open after it, if and only if the generation for the open
   channel's result has not been loaded.
   */
  lemma ChannelsDisagreeExactlyWhenBegunTooSoon(actions: seq<Action>)
    requires Orderly(INITIAL, actions)
    ensures Possible(INITIAL, actions)
    ensures var s := Run(INITIAL, actions);
      Alive(s) && OwnerEnabled(s, BeginClear) ==> (CanDisagree(Step(s, Own(BeginClear))) <==> Unloaded(s))
  {
    var d := RunIsTidy(actions);
    var s := Run(INITIAL, actions);
    hide Tidy, Disagrees;
    if Alive(s) && OwnerEnabled(s, BeginClear) {
      if Unloaded(s) {
        TooSoonIsPossible(s, d);
      } else {
        forall more | Orderly(Step(s, Own(BeginClear)), more) && Possible(Step(s, Own(BeginClear)), more)
          ensures !Disagrees(Run(Step(s, Own(BeginClear)), more))
        {
          InTimeIsRight(actions, more);
        }
      }
    }
  }
}
