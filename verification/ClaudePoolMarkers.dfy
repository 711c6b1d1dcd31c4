/**
 What moves the markers of a turn.  Under the discipline that the channels need only its own abort, its own result and
 timely acknowledgements of its own requests do; and this, too, is exact, but for turns that no acknowledgement can
 reach any more.
 */
module ClaudePoolMarkers {
  import opened Wrappers
  import opened ClaudePool
  import opened ClaudePoolSpec
  import opened ClaudePoolCalls
  import opened ClaudePoolInvariant
  import opened ClaudePoolTheorems
  import opened ClaudePoolOutside
  import opened ClaudePoolChannels
  import opened ClaudePoolDeliveries

  // ------------------------------------------------------------------ the invariant

  /** In every run the requests, the callers and the markers are in order. */
  ghost predicate Booked(s: State) { Requests(s) && Askers(s) && Ordered(s) }

  lemma StepKeepsBooked(s: State, a: Action)
    requires Booked(s) && Enabled(s, a)
    ensures Booked(Step(s, a))
  {
    hide Requests, Askers, OwnerStep, AskerStep, ReaderStep, RemoteStep;
    StepKeepsOrdered(s, a);
    match a
    case Own(own) => OwnerKeepsRequests(s, Step(s, a), own);
    case Ask(c, ask) =>
      AskerKeepsRequests(s, c, ask);
      AskerKeepsAskers(s, c, ask);
    case Read(read) => ReaderKeepsRequests(s, Step(s, a), read);
    case Remote(remote) => RemoteKeepsRequests(s, remote);
  }

  lemma {:induction false} RunKeepsBooked(s: State, actions: seq<Action>)
    requires Booked(s) && Possible(s, actions)
    ensures Booked(Run(s, actions))
    decreases |actions|
  {
    if actions != [] {
      StepKeepsBooked(s, actions[0]);
      RunKeepsBooked(Step(s, actions[0]), actions[1..]);
    }
  }

  /** The active marker agrees with the results and the acknowledgements that were observed. */
  predicate Acks(s: State, d: Digest) {
    && (forall t <- d.acked :: t <= Newest(s))
    && (s.reader.Acking? ==> s.reader.turn <= Newest(s))
    && (AckTurn(s) != 0 && AckTurn(s) !in d.answered ==> AckTurn(s) in d.acked)
    && (s.reader.Acked? ==> s.reader.turn in d.acked)
    && (s.active != 0 && s.active in d.answered ==> HoldsResultOf(s.reader, s.active))
    && (s.active != 0 && s.active in d.acked ==> AckTurn(s) == s.active)
    && (s.owner.Activated? ==> s.active == 0 || s.active == s.owner.turn)
    && (Unloaded(s) && s.active != 0 ==> s.active == s.generation)
  }

  ghost predicate Marked(s: State, d: Digest) { Tidy(s, d) && Booked(s) && Acks(s, d) }

  lemma OwnerKeepsAcks(s: State, a: OwnerAction, d: Digest)
    requires Comes(s) && Bounded(s, d) && Ordered(s) && Acks(s, d) && OwnerEnabled(s, a)
    ensures Acks(OwnerStep(s, a), After(d, OwnerSees(s, a)))
  {
    hide OwnerStep, Coming;
    OwnerEffect(s, OwnerStep(s, a), a);
    var d' := After(d, OwnerSees(s, a));
    assert d'.acked == d.acked && d'.answered == d.answered;
    AckTurnIs(s, OwnerStep(s, a));
  }

  lemma AckTurnIs(s: State, s': State)
    requires s'.reader == s.reader && s'.book.asked == s.book.asked
    ensures AckTurn(s') == AckTurn(s)
  {
  }

  lemma OthersKeepAcks(s: State, s': State, d: Digest)
    requires Acks(s, d) && s'.reader == s.reader && s'.owner == s.owner && s'.generation == s.generation
    requires s'.active == s.active && s'.slotOpen == s.slotOpen && s'.slotTurn == s.slotTurn
    requires AckTurn(s') == AckTurn(s)
    ensures Acks(s', d)
  {
  }

  /** Reading a line that acknowledges, or answers, or does neither. */
  lemma ReadLineKeepsAcks(s: State, s': State, d: Digest)
    requires Comes(s) && Requests(s) && Acks(s, d) && ReaderEnabled(s, ReadLine) && s' == ReaderStep(s, ReadLine)
    ensures Acks(s', After(d, Sighting(s.stdout[0], s.book.asked)))
  {
    hide Coming, ReaderStep, Mentions, AnswersDistinct;
    ReaderEffect(s, s', ReadLine);
    CurrentLine(s);
    CurrentAck(s);
    var line, d' := s.stdout[0], After(d, Sighting(s.stdout[0], s.book.asked));
    if line.Control? {
      assert d'.answered == d.answered;
      assert AckTurn(s') == if line.ok then s.book.asked[line.id] else 0;
    } else if line.ResultLine? {
      assert d'.answered == d.answered + {s.generation} && d'.acked == d.acked;
    } else {
      assert d' == d;
    }
  }

  lemma AcksKeepAcks(s: State, s': State, a: ReaderAction, d: Digest)
    requires Ordered(s) && Acks(s, d) && ReaderEnabled(s, a) && (a.AckSwap? || a.AckStore?) && s' == ReaderStep(s, a)
    ensures Acks(s', d)
  {
    hide ReaderStep;
    ReaderEffect(s, s', a);
  }

  lemma RemovalKeepsAcks(s: State, s': State, d: Digest)
    requires Requests(s) && Acks(s, d) && ReaderEnabled(s, RemoveWaiter) && s' == ReaderStep(s, RemoveWaiter)
    ensures Acks(s', d)
  {
    hide ReaderStep, Mentions, AnswersDistinct;
    ReaderEffect(s, s', RemoveWaiter);
    CurrentAck(s);
  }

  lemma ResultKeepsAcks(s: State, s': State, d: Digest)
    requires Comes(s) && Acks(s, d) && ReaderEnabled(s, ResultSwap) && s' == ReaderStep(s, ResultSwap)
    ensures Acks(s', d)
  {
    hide ReaderStep, Coming;
    ReaderEffect(s, s', ResultSwap);
  }

  lemma QuietKeepsAcks(s: State, s': State, a: ReaderAction, d: Digest)
    requires Acks(s, d) && ReaderEnabled(s, a) && Quiet(a) && s' == ReaderStep(s, a)
    ensures Acks(s', d)
  {
    hide ReaderStep;
    QuietReads(s, s', a);
    ReaderEffect(s, s', a);
  }

  lemma ReaderKeepsAcks(s: State, s': State, a: ReaderAction, d: Digest)
    requires Comes(s) && Requests(s) && Ordered(s) && Acks(s, d) && ReaderEnabled(s, a) && s' == ReaderStep(s, a)
    ensures Acks(s', After(d, ReaderSees(s, a)))
  {
    hide ReaderStep, Comes, Requests, Ordered;
    if a.ReadLine? {
      ReadLineKeepsAcks(s, s', d);
    } else {
      ReaderDigest(s, a, d);
      EndedKeepsAcks(s', d, d.(ended := d.ended + d.registered));
      if a.AckSwap? || a.AckStore? {
        AcksKeepAcks(s, s', a, d);
      } else if a.RemoveWaiter? {
        RemovalKeepsAcks(s, s', d);
      } else if a.ResultSwap? {
        ResultKeepsAcks(s, s', d);
      } else {
        QuietKeepsAcks(s, s', a, d);
      }
    }
  }

  lemma EndedKeepsAcks(s: State, d: Digest, d': Digest)
    requires d' == d.(ended := d'.ended)
    ensures Acks(s, d) <==> Acks(s, d')
  {
  }

  lemma StepKeepsMarked(s: State, a: Action, d: Digest)
    requires Marked(s, d) && Enabled(s, a) && Cautious(s, a)
    ensures Marked(Step(s, a), Digested(s, a, d))
  {
    hide Tidy, Acks, Requests, Askers, Ordered, OwnerStep, AskerStep, ReaderStep, RemoteStep;
    StepKeepsTidy(s, a, d);
    StepKeepsBooked(s, a);
    TidyParts(s, d);
    match a
    case Own(own) => OwnerKeepsAcks(s, own, d);
    case Ask(c, ask) =>
      AskerEffect(s, Step(s, a), c, ask);
      AskerKeepsAckTurn(s, c, ask);
      OthersKeepAcks(s, Step(s, a), d);
    case Read(read) => ReaderKeepsAcks(s, Step(s, a), read, d);
    case Remote(remote) =>
      RemoteEffect(s, Step(s, a), remote);
      AckTurnIs(s, Step(s, a));
      OthersKeepAcks(s, Step(s, a), d);
  }

  lemma TidyParts(s: State, d: Digest)
    requires Tidy(s, d)
    ensures Comes(s) && Bounded(s, d)
  {
  }

  lemma AskerKeepsAckTurn(s: State, c: CallerId, a: AskerAction)
    requires Requests(s) && Askers(s) && AskerEnabled(s, c, a)
    ensures AckTurn(AskerStep(s, c, a)) == AckTurn(s)
  {
    if c in s.book.askers {
      assert AskerOk(s, s.book.askers[c]);
    }
    AckTurnStays(s, AskerStep(s, c, a));
  }

  lemma {:induction false} RunKeepsMarked(s: State, actions: seq<Action>, d: Digest) returns (d': Digest)
    requires Marked(s, d) && Orderly(s, actions)
    ensures Possible(s, actions) && Marked(Run(s, actions), d')
    decreases |actions|
  {
    OrderlyIsPossible(s, actions);
    if actions == [] {
      d' := d;
    } else {
      StepKeepsMarked(s, actions[0], d);
      d' := RunKeepsMarked(Step(s, actions[0]), actions[1..], Digested(s, actions[0], d));
    }
  }

  lemma InitialBooked()
    ensures Booked(INITIAL)
  {
    assert Unhandled(INITIAL) == [];
  }

  lemma RunIsMarked(actions: seq<Action>) returns (d: Digest)
    requires Orderly(INITIAL, actions)
    ensures Possible(INITIAL, actions) && Marked(Run(INITIAL, actions), d)
  {
    InitialTidy();
    InitialBooked();
    d := RunKeepsMarked(INITIAL, actions, NOTHING);
  }

  // ------------------------------------------------------------- what moves a marker

  /**
   `active` leaves turn t only for t's own result, t's own abort, or an acknowledgement, read before t's result,
   of a request issued in t; the current turn's interruption mark is set only by such an acknowledgement.
   */
  ghost predicate MovesForItsOwnTurn(s: State, a: Action, s': State)
    requires Enabled(s, a)
  {
    && (s.active != 0 && s'.active != s.active ==>
          || (a == Own(BeginDeactivate) && s.owner.turn == s.active)
          || (a == Read(ResultSwap) && s.reader.line.frame.turn == s.active)
          || (a == Read(AckSwap) && AckedInTime(s.log, s.active)))
    && (s.interrupted != s.generation && s'.interrupted == s.generation && s.generation != 0 ==>
          a == Read(AckStore) && AckedInTime(s.log, s.generation))
  }

  lemma OwnerMovesItsMarkers(s: State, a: OwnerAction)
    requires OwnerEnabled(s, a)
    ensures MovesForItsOwnTurn(s, Own(a), OwnerStep(s, a))
  {
    hide OwnerStep;
    OwnerEffect(s, OwnerStep(s, a), a);
  }

  lemma ReaderMovesItsMarkers(s: State, a: ReaderAction, d: Digest)
    requires Marked(s, d) && ReaderEnabled(s, a)
    ensures MovesForItsOwnTurn(s, Read(a), ReaderStep(s, a))
  {
    hide ReaderStep, Coming, Requests, Askers, Ordered, Bounded, Slots, EventsMatch;
    ReaderEffect(s, ReaderStep(s, a), a);
  }

  lemma MarkedMoves(s: State, a: Action, d: Digest)
    requires Marked(s, d) && Enabled(s, a)
    ensures MovesForItsOwnTurn(s, a, Step(s, a))
  {
    hide Marked, OwnerStep, AskerStep, ReaderStep, RemoteStep;
    match a
    case Own(own) => OwnerMovesItsMarkers(s, own);
    case Ask(c, ask) => AskerEffect(s, Step(s, a), c, ask);
    case Read(read) => ReaderMovesItsMarkers(s, read, d);
    case Remote(remote) => RemoteEffect(s, Step(s, a), remote);
  }

  /** In every orderly run the markers of a turn are moved only for that turn. */
  lemma MarkersMoveForTheirOwnTurn(actions: seq<Action>, a: Action)
    requires Orderly(INITIAL, actions)
    ensures Possible(INITIAL, actions)
    ensures var s := Run(INITIAL, actions); Enabled(s, a) ==> MovesForItsOwnTurn(s, a, Step(s, a))
  {
    var d := RunIsMarked(actions);
    hide Marked;
    if Enabled(Run(INITIAL, actions), a) { MarkedMoves(Run(INITIAL, actions), a, d); }
  }

  // ------------------------------------------------- markers after a begin made too soon

  /** The next step of the reader clears the marker of a turn for another turn's result. */
  predicate LosesMarker(s: State) {
    s.reader.Loaded? && s.reader.line.ResultLine? && s.active != 0
    && s.reader.generation == s.active && s.reader.line.frame.turn != s.active
  }

  ghost predicate CanLoseMarker(s: State) {
    exists more :: Orderly(s, more) && Possible(s, more) && LosesMarker(Run(s, more))
  }

  /** Some step moves a marker that is not its own turn's to move. */
  ghost predicate Strays(s: State) { exists a :: Enabled(s, a) && !MovesForItsOwnTurn(s, a, Step(s, a)) }

  ghost predicate CanStray(s: State) {
    exists more :: Orderly(s, more) && Possible(s, more) && Strays(Run(s, more))
  }

  /** What protects the marker of a turn that is let in. */
  lemma EnteredMarkerIsSafe(s: State, d: Digest, u: State)
    requires Marked(s, d) && Alive(s) && s.owner.Idle? && Coming(s) == [s.generation]
    requires u.active == s.generation + 1 && u.book == s.book
    requires u.reader == s.reader || u.reader == Acked(s.generation)
    ensures MarkerIsSafe(u)
  {
    hide Coming;
  }

  lemma LetInCanLose(s: State, d: Digest) returns (more: seq<Action>)
    requires Marked(s, d) && Alive(s) && OwnerEnabled(s, BeginClear) && Unloaded(s) && s.active == 0
    ensures Possible(s, ENTERING + more) && LosesMarker(Run(s, ENTERING + more)) && Own(BeginClear) !in more
  {
    TooSoon(s, d);
    EnteringRuns(s);
    var u := Run(s, ENTERING);
    EnteredMarkerIsSafe(s, d, u);
    hide Marked, Coming, MarkerIsSafe, ENTERING;
    more := ResultGetsLoaded(u);
    RunAppend(s, ENTERING, more);
  }

  lemma LosingIsStraying(s: State)
    requires LosesMarker(s)
    ensures Strays(s)
  {
    assert Enabled(s, Read(ResultSwap)) && !MovesForItsOwnTurn(s, Read(ResultSwap), Step(s, Read(ResultSwap)));
  }

  lemma MarkedKeepsMarkers(s: State, d: Digest)
    requires Marked(s, d)
    ensures !LosesMarker(s)
  {
    hide Coming, Requests, Askers, Bounded, Slots, EventsMatch;
  }

  /** ... and a begin in time, or one made while a turn is active, leads to a state the invariant speaks of. */
  lemma BegunInTimeIsMarked(s: State, d: Digest)
    requires Marked(s, d) && OwnerEnabled(s, BeginClear) && !Unloaded(s)
    ensures Marked(Step(s, Own(BeginClear)), d)
  {
    hide Marked;
    StepKeepsMarked(s, Own(BeginClear), d);
  }

  /**
   From any state of an orderly run whose reader lives and in which no turn is active, beginning a turn can lead to a
   turn's marker being cleared by another turn's result if and only if the generation for the open channel's result
   has not been loaded.
   */
  lemma MarkersAreLostExactlyWhenLetInTooSoon(actions: seq<Action>)
    requires Orderly(INITIAL, actions)
    ensures Possible(INITIAL, actions)
    ensures var s := Run(INITIAL, actions);
      Alive(s) && OwnerEnabled(s, BeginClear) && s.active == 0 ==>
        (CanLoseMarker(Step(s, Own(BeginClear))) <==> Unloaded(s))
  {
    var d := RunIsMarked(actions);
    var s := Run(INITIAL, actions);
    hide Marked, LosesMarker;
    if Alive(s) && OwnerEnabled(s, BeginClear) && s.active == 0 {
      var c := Step(s, Own(BeginClear));
      if Unloaded(s) {
        var more := LetInCanLose(s, d);
        EnteringIsOrderly(s, more);
      } else {
        BegunInTimeIsMarked(s, d);
        forall more | Orderly(c, more) && Possible(c, more) ensures !LosesMarker(Run(c, more)) {
          var e := RunKeepsMarked(c, more, d);
          MarkedKeepsMarkers(Run(c, more), e);
        }
      }
    }
  }

  /** A script that begins a turn once goes on in order. */
  lemma EnteringIsOrderly(s: State, more: seq<Action>)
    requires Possible(s, ENTERING + more) && Own(BeginClear) !in more
    ensures var rest := (ENTERING + more)[1..];
      && Orderly(Step(s, Own(BeginClear)), rest) && Possible(Step(s, Own(BeginClear)), rest)
      && Run(Step(s, Own(BeginClear)), rest) == Run(s, ENTERING + more)
  {
    var script := ENTERING + more;
    assert script[0] == Own(BeginClear) && Own(BeginClear) !in script[1..] by {
      assert script[1..] == ENTERING[1..] + more;
    }
    OrderlyBetweenBegins(Step(s, Own(BeginClear)), script[1..]);
  }

  // ------------------------------------------- acknowledgements that can still come

  predicate Waits(b: Book, id: RequestId, t: Turn) { id in b.waiters && b.waiters[id] == t }

  /** A line that acknowledges a request of turn t which is still waited for. */
  predicate Acknowledges(b: Book, line: Line, t: Turn) { line.Control? && line.ok && Waits(b, line.id, t) }

  /**
   The active turn t can still be acknowledged: a request can still be written, or one of t's requests is still to be
   answered, or its positive answer is still to be acted on.
   */
  ghost predicate AckCanCome(s: State, t: Turn) {
    || s.stdinOpen
    || (exists id <- s.book.outstanding :: Waits(s.book, id, t))
    || (exists line <- Unhandled(s) :: Acknowledges(s.book, line, t))
    || s.reader == Acking(t)
  }

  lemma AskersStaySilent(s: State, c: CallerId, a: AskerAction, t: Turn)
    requires Booked(s) && !AckCanCome(s, t) && AskerEnabled(s, c, a)
    ensures !AckCanCome(AskerStep(s, c, a), t)
  {
    var s' := AskerStep(s, c, a);
    assert Unhandled(s') == Unhandled(s);
    if c in s.book.askers {
      assert AskerOk(s, s.book.askers[c]);
    }
    forall line | line in Unhandled(s') && line.Control?
      ensures Mentions(Unhandled(s), line.id)
    {
    }
  }

  lemma ReaderStaysSilent(s: State, a: ReaderAction, t: Turn)
    requires !AckCanCome(s, t) && ReaderEnabled(s, a)
    ensures !AckCanCome(ReaderStep(s, a), t)
  {
    hide ReaderStep;
    var s' := ReaderStep(s, a);
    ReaderEffect(s, s', a);
    ReaderUnhandled(s, a);
    assert forall id :: Waits(s'.book, id, t) ==> Waits(s.book, id, t);
    forall line | line in Unhandled(s') && Acknowledges(s'.book, line, t)
      ensures line in Unhandled(s) && Acknowledges(s.book, line, t)
    {
    }
    if a.RemoveWaiter? {
      assert Unhandled(s)[0] == s.reader.line && !Acknowledges(s.book, s.reader.line, t);
    }
  }

  lemma RemoteStaysSilent(s: State, a: RemoteAction, t: Turn)
    requires !AckCanCome(s, t) && RemoteEnabled(s, a)
    ensures !AckCanCome(RemoteStep(s, a), t)
  {
    var s' := RemoteStep(s, a);
    assert Unhandled(s') == Unhandled(s) + if a.Emit? then [a.line] else [];
  }

  /** What cannot be acknowledged any more stays so. */
  lemma StaysSilent(s: State, a: Action, t: Turn)
    requires Booked(s) && !AckCanCome(s, t) && Enabled(s, a)
    ensures !AckCanCome(Step(s, a), t)
  {
    hide OwnerStep, AskerStep, ReaderStep, RemoteStep, Booked;
    match a
    case Own(own) =>
      OwnerEffect(s, Step(s, a), own);
      SilentFrame(s, Step(s, a), t);
    case Ask(c, ask) => AskersStaySilent(s, c, ask, t);
    case Read(read) => ReaderStaysSilent(s, read, t);
    case Remote(remote) => RemoteStaysSilent(s, remote, t);
  }

  lemma SilentFrame(s: State, s': State, t: Turn)
    requires s'.stdinOpen == s.stdinOpen && s'.book == s.book && s'.stdout == s.stdout && s'.reader == s.reader
    ensures AckCanCome(s', t) <==> AckCanCome(s, t)
  {
    assert Unhandled(s') == Unhandled(s);
  }

  // ---------------------------------- a turn that cannot be acknowledged: nothing strays

  /** Turn t stays active whatever happens: its result cannot be loaded for it, and it cannot be acknowledged. */
  ghost predicate Stuck(s: State, t: Turn) {
    && Booked(s) && s.active == t != 0 && t < s.generation && !AckCanCome(s, t)
    && (s.owner.Idle? || s.owner.Cleared? || s.owner.Numbered? || s.owner.Taking? || s.owner.Judging?)
    && (HasLoaded(s.reader) ==> s.reader.generation != t)
  }

  lemma OwnerStaysStuck(s: State, s': State, a: OwnerAction, t: Turn)
    requires Stuck(s, t) && OwnerEnabled(s, a) && s' == OwnerStep(s, a)
    ensures s'.active == t < s'.generation && s'.reader == s.reader
    ensures s'.owner.Idle? || s'.owner.Cleared? || s'.owner.Numbered? || s'.owner.Taking? || s'.owner.Judging?
  {
    hide OwnerStep, Booked;
    OwnerEffect(s, s', a);
  }

  lemma ReaderStaysStuck(s: State, s': State, a: ReaderAction, t: Turn)
    requires Stuck(s, t) && ReaderEnabled(s, a) && s' == ReaderStep(s, a)
    ensures s'.active == t && s'.generation == s.generation && s'.owner == s.owner
    ensures HasLoaded(s'.reader) ==> s'.reader.generation != t
    ensures MovesForItsOwnTurn(s, Read(a), s')
  {
    hide ReaderStep, Requests, Askers;
    ReaderEffect(s, s', a);
  }

  lemma StaysStuck(s: State, a: Action, t: Turn)
    requires Stuck(s, t) && Enabled(s, a)
    ensures Stuck(Step(s, a), t) && MovesForItsOwnTurn(s, a, Step(s, a))
  {
    hide OwnerStep, AskerStep, ReaderStep, RemoteStep, Booked, AckCanCome, MovesForItsOwnTurn;
    StepKeepsBooked(s, a);
    StaysSilent(s, a, t);
    match a
    case Own(own) =>
      OwnerStaysStuck(s, Step(s, a), own, t);
      OwnerMovesItsMarkers(s, own);
    case Ask(c, ask) =>
      AskerEffect(s, Step(s, a), c, ask);
      UnmovedMarkers(s, a);
    case Read(read) => ReaderStaysStuck(s, Step(s, a), read, t);
    case Remote(remote) =>
      RemoteEffect(s, Step(s, a), remote);
      UnmovedMarkers(s, a);
  }

  lemma UnmovedMarkers(s: State, a: Action)
    requires Enabled(s, a) && Step(s, a).active == s.active && Step(s, a).interrupted == s.interrupted
    ensures MovesForItsOwnTurn(s, a, Step(s, a))
  {
  }

  /** Where the owner stands does not matter to the others. */
  function Unowned(s: State): State { s.(owner := Idle) }

  lemma OthersIgnoreOwner(s: State, a: Action)
    requires Enabled(s, a) && !a.Own?
    ensures Enabled(Unowned(s), a) && Step(Unowned(s), a) == Unowned(Step(s, a)) && Step(s, a).owner == s.owner
  {
    hide OwnerStep, AskerStep, ReaderStep, RemoteStep, AskerEnabled, ReaderEnabled, RemoteEnabled;
    match a
    case Ask(c, ask) => AskerIgnoresOwner(s, c, ask);
    case Read(read) => ReaderIgnoresOwner(s, read);
    case Remote(remote) => RemoteIgnoresOwner(s, remote);
  }

  lemma AskerIgnoresOwner(s: State, c: CallerId, a: AskerAction)
    requires AskerEnabled(s, c, a)
    ensures AskerEnabled(Unowned(s), c, a) && AskerStep(Unowned(s), c, a) == Unowned(AskerStep(s, c, a))
    ensures AskerStep(s, c, a).owner == s.owner
  {
  }

  lemma RemoteIgnoresOwner(s: State, a: RemoteAction)
    requires RemoteEnabled(s, a)
    ensures RemoteEnabled(Unowned(s), a) && RemoteStep(Unowned(s), a) == Unowned(RemoteStep(s, a))
    ensures RemoteStep(s, a).owner == s.owner
  {
  }

  lemma ReaderIgnoresOwner(s: State, a: ReaderAction)
    requires ReaderEnabled(s, a)
    ensures ReaderEnabled(Unowned(s), a) && ReaderStep(Unowned(s), a) == Unowned(ReaderStep(s, a))
    ensures ReaderStep(s, a).owner == s.owner
  {
    hide ReaderStep;
    ReaderEffect(s, ReaderStep(s, a), a);
    ReaderEffect(Unowned(s), ReaderStep(Unowned(s), a), a);
    assert ReaderSees(Unowned(s), a) == ReaderSees(s, a) && NextReader(Unowned(s), a) == NextReader(s, a);
  }

  /** The generation has not been advanced yet: the begin might still turn out to have been made in time. */
  ghost predicate Early(s: State, t: Turn, d: Digest) {
    && s.owner.Cleared? && Marked(Unowned(s), d) && Unloaded(s)
    && s.active == t == s.generation != 0 && !AckCanCome(s, t)
  }

  /** Every state that can follow a begin from which nothing strays. */
  ghost predicate Unstrayed(s: State, t: Turn) {
    Stuck(s, t) || exists d :: Marked(s, d) || Early(s, t, d)
  }

  lemma ClearedIsMarked(s: State, d: Digest)
    requires Marked(Unowned(s), d) && s.owner.Cleared? && !Unloaded(s)
    ensures Marked(s, d)
  {
  }

  lemma EarlyIsStuck(s: State, t: Turn, d: Digest)
    requires Early(s, t, d)
    ensures Enabled(s, Own(BeginNumber)) && Stuck(Step(s, Own(BeginNumber)), t)
  {
    hide OwnerStep, AckCanCome, Tidy, Booked, Acks;
    var s' := OwnerStep(s, BeginNumber);
    EarlySlot(s, d);
    ClearedIsBooked(s);
    OwnerEffect(s, s', BeginNumber);
    StepKeepsBooked(s, Own(BeginNumber));
    SilentFrame(s, s', t);
  }

  lemma ClearedIsBooked(s: State)
    requires Booked(Unowned(s)) && s.owner.Cleared?
    ensures Booked(s)
  {
    assert Unhandled(Unowned(s)) == Unhandled(s);
    RequestsFrame(Unowned(s), s);
  }

  lemma EarlyGoesOn(s: State, a: Action, t: Turn, d: Digest)
    requires Early(s, t, d) && Enabled(s, a) && !a.Own?
    ensures MovesForItsOwnTurn(s, a, Step(s, a)) && Unstrayed(Step(s, a), t)
  {
    hide Marked, OwnerStep, AskerStep, ReaderStep, RemoteStep, AckCanCome;
    var u, s' := Unowned(s), Step(s, a);
    OthersIgnoreOwner(s, a);
    StepKeepsMarked(u, a, d);
    StaysSilentUnowned(s, a, t, d);
    EarlyStaysActive(s, a, t, d);
    if Unloaded(s') {
      assert Early(s', t, Digested(u, a, d));
    } else {
      ClearedIsMarked(s', Digested(u, a, d));
    }
  }

  lemma StaysSilentUnowned(s: State, a: Action, t: Turn, d: Digest)
    requires Marked(Unowned(s), d) && !AckCanCome(s, t) && Enabled(s, a) && !a.Own?
    ensures !AckCanCome(Step(s, a), t)
  {
    hide OwnerStep, AskerStep, ReaderStep, RemoteStep, AckCanCome, Tidy, Booked, Acks;
    OthersIgnoreOwner(s, a);
    SilentFrame(s, Unowned(s), t);
    StaysSilent(Unowned(s), a, t);
    SilentFrame(Unowned(Step(s, a)), Step(s, a), t);
  }

  /** As long as the result's generation is not loaded the turn stays active, and what is done is its own. */
  lemma EarlyStaysActive(s: State, a: Action, t: Turn, d: Digest)
    requires Early(s, t, d) && Enabled(s, a) && !a.Own?
    ensures var s' := Step(s, a);
      s'.generation == s.generation && (Unloaded(s') ==> s'.active == t) && MovesForItsOwnTurn(s, a, s')
  {
    hide Marked, OwnerStep, AskerStep, ReaderStep, RemoteStep;
    match a
    case Ask(c, ask) => AskerEffect(s, Step(s, a), c, ask);
    case Read(read) =>
      ReaderEffect(s, Step(s, a), read);
      ReaderMovesItsMarkers(Unowned(s), read, d);
      ReaderIgnoresOwner(s, read);
      EarlySlot(s, d);
    case Remote(remote) => RemoteEffect(s, Step(s, a), remote);
  }

  lemma EarlySlot(s: State, d: Digest)
    requires Marked(Unowned(s), d) && Unloaded(s)
    ensures s.slotTurn == s.generation
  {
  }

  lemma UnstrayedStep(s: State, a: Action, t: Turn)
    requires Unstrayed(s, t) && Enabled(s, a)
    ensures MovesForItsOwnTurn(s, a, Step(s, a)) && (Cautious(s, a) ==> Unstrayed(Step(s, a), t))
  {
    hide Marked, Stuck, Early, MovesForItsOwnTurn;
    if Stuck(s, t) {
      StaysStuck(s, a, t);
    } else {
      var d :| Marked(s, d) || Early(s, t, d);
      if Marked(s, d) {
        MarkedMoves(s, a, d);
        if Cautious(s, a) { StepKeepsMarked(s, a, d); }
      } else {
        EarlyStep(s, a, t, d);
      }
    }
  }

  lemma EarlyStep(s: State, a: Action, t: Turn, d: Digest)
    requires Early(s, t, d) && Enabled(s, a)
    ensures MovesForItsOwnTurn(s, a, Step(s, a)) && Unstrayed(Step(s, a), t)
  {
    hide Marked, Stuck, MovesForItsOwnTurn;
    if a.Own? {
      EarlyIsStuck(s, t, d);
      assert a == Own(BeginNumber);
      OwnerMovesItsMarkers(s, BeginNumber);
    } else {
      EarlyGoesOn(s, a, t, d);
    }
  }

  lemma {:induction false} NothingStrays(s: State, actions: seq<Action>, t: Turn)
    requires Unstrayed(s, t) && Orderly(s, actions) && Possible(s, actions)
    ensures !Strays(Run(s, actions))
    decreases |actions|
  {
    hide Unstrayed, MovesForItsOwnTurn;
    if actions == [] {
      forall a | Enabled(s, a) ensures MovesForItsOwnTurn(s, a, Step(s, a)) { UnstrayedStep(s, a, t); }
    } else {
      UnstrayedStep(s, actions[0], t);
      NothingStrays(Step(s, actions[0]), actions[1..], t);
    }
  }

  // ------------------------------------------- a turn that can be acknowledged: markers stray

  lemma NextKeepsActive(s: State, s': State, t: Turn)
    requires Alive(s) && Ahead(s) != [] && s.active == t != 0 && s.reader != Acking(t)
    requires HasLoaded(s.reader) ==> s.reader.generation != t
    requires Enabled(s, NextAction(s)) && s' == Step(s, NextAction(s))
    ensures s'.active == t && s'.stdinOpen == s.stdinOpen
  {
    hide Ahead;
    match NextAction(s)
    case Read(read) =>
      hide ReaderStep;
      ReaderEffect(s, s', read);
    case Remote(remote) =>
  }

  /** The answer to a request that is waited for is read before that request is forgotten. */
  lemma ReadKeepsAckComing(s: State, s': State, a: ReaderAction, t: Turn)
    requires Booked(s) && AckCanCome(s, t) && s.reader != Acking(t)
    requires ReaderEnabled(s, a) && !a.ReadExit? && s' == ReaderStep(s, a)
    ensures AckCanCome(s', t)
  {
    hide ReaderStep, Askers, Ordered;
    ReaderEffect(s, s', a);
    ReaderUnhandled(s, a);
    if a.RemoveWaiter? {
      DropHead(Unhandled(s'), s.reader.line);
      assert Unhandled(s)[0] == s.reader.line && Mentions(Unhandled(s), s.reader.line.id);
      if line :| line in Unhandled(s) && Acknowledges(s.book, line, t) && line != s.reader.line {
        assert line in Unhandled(s') && Mentions(Unhandled(s'), line.id);
        assert Acknowledges(s'.book, line, t);
      }
    } else if line :| line in Unhandled(s) && Acknowledges(s.book, line, t) {
      assert line in Unhandled(s') && Acknowledges(s'.book, line, t);
    }
  }

  lemma NextKeepsAckComing(s: State, s': State, t: Turn)
    requires Alive(s) && Ahead(s) != [] && Booked(s) && AckCanCome(s, t) && s.reader != Acking(t)
    requires Enabled(s, NextAction(s)) && s' == Step(s, NextAction(s))
    ensures AckCanCome(s', t)
  {
    match NextAction(s)
    case Read(read) => ReadKeepsAckComing(s, s', read, t);
    case Remote(remote) => assert Unhandled(s) == [];
  }

  /** Turn t is active, and its result is still to be loaded. */
  predicate Awaited(s: State, t: Turn) {
    && Alive(s) && Coming(s) != [] && s.active == t == s.slotTurn && t != 0
    && (HasLoaded(s.reader) ==> s.reader.generation != t)
  }

  /** `path` leads to where the reader is about to act on an acknowledgement of t, or has got t's result. */
  ghost predicate Approaches(s: State, path: seq<Action>, t: Turn) {
    && Possible(s, path) && (forall a <- path :: ReadsOn(a))
    && var v := Run(s, path);
       && Awaited(v, t) && AckCanCome(v, t) && (v.reader == Acking(t) || JustGot(v.reader) != [])
       && v.owner == s.owner && v.generation == s.generation && v.slotOpen == s.slotOpen && v.pooled == s.pooled
  }

  lemma ApproachesLater(s: State, s': State, a: Action, path: seq<Action>, t: Turn)
    requires Enabled(s, a) && s' == Step(s, a) && ReadsOn(a) && Approaches(s', path, t)
    requires s'.owner == s.owner && s'.generation == s.generation && s'.slotOpen == s.slotOpen && s'.pooled == s.pooled
    ensures Approaches(s, [a] + path, t)
  {
    hide Awaited, AckCanCome, Step, Enabled;
    RunFirst(s, a, path);
  }

  lemma ApproachesNow(s: State, t: Turn)
    requires Awaited(s, t) && AckCanCome(s, t) && (s.reader == Acking(t) || JustGot(s.reader) != [])
    ensures Approaches(s, [], t)
  {
  }

  lemma AwaitedNext(s: State, s': State, t: Turn)
    requires Awaited(s, t) && s.reader != Acking(t) && JustGot(s.reader) == [] && Ahead(s) != []
    requires Enabled(s, NextAction(s)) && s' == Step(s, NextAction(s))
    ensures Awaited(s', t)
    ensures s'.owner == s.owner && s'.generation == s.generation && s'.slotOpen == s.slotOpen && s'.pooled == s.pooled
    ensures |s'.owed| < |s.owed| || (s'.owed == s.owed && Distance(s') < Distance(s))
  {
    hide HasLoaded, Step, Ahead, Coming;
    ComesCloser(s, s');
    StoredHasLoaded(s);
    NextLeaves(s, s');
    KeepsAway(s, s');
    NextKeepsActive(s, s', t);
  }

  lemma {:induction false} Approach(s: State, t: Turn) returns (path: seq<Action>)
    requires Booked(s) && Awaited(s, t) && AckCanCome(s, t)
    ensures Approaches(s, path, t)
    decreases |s.owed|, Distance(s)
  {
    ComingIsAhead(s);
    hide Booked, AckCanCome, Step, Ahead, Coming, Approaches;
    if s.reader == Acking(t) || JustGot(s.reader) != [] {
      ApproachesNow(s, t);
      path := [];
    } else {
      NextIsEnabled(s);
      var a, s' := NextAction(s), Step(s, NextAction(s));
      AwaitedNext(s, s', t);
      NextKeepsAckComing(s, s', t);
      StepKeepsBooked(s, a);
      var rest := Approach(s', t);
      ApproachesLater(s, s', a, rest, t);
      path := [a] + rest;
    }
  }

  lemma {:induction false} RunIgnoresOwner(s: State, actions: seq<Action>)
    requires Possible(s, actions) && forall a <- actions :: ReadsOn(a)
    ensures Possible(Unowned(s), actions) && Run(Unowned(s), actions) == Unowned(Run(s, actions))
    ensures Run(s, actions).owner == s.owner
    decreases |actions|
  {
    hide Step, Enabled;
    if actions != [] {
      assert actions[0] in actions && forall a <- actions[1..] :: a in actions;
      OthersIgnoreOwner(s, actions[0]);
      RunIgnoresOwner(Step(s, actions[0]), actions[1..]);
    }
  }

  // --- the acknowledgement comes first: it lets the next turn in, and the old result then clears its marker

  const LETTING_IN := [Read(AckSwap), Own(BeginNumber), Own(BeginActivate)]

  lemma LettingInRuns(v: State, t: Turn)
    requires v.owner.Cleared? && v.reader == Acking(t) && v.active == t == v.generation
    ensures Possible(v, LETTING_IN)
    ensures var u := Run(v, LETTING_IN);
      && u.reader == Acked(t) && u.active == u.generation == t + 1 && u.book == v.book && u.slotTurn == v.slotTurn
      && Coming(u) == Coming(v)
  {
    RunThree(v, Read(AckSwap), Own(BeginNumber), Own(BeginActivate));
  }

  lemma AcknowledgedStrays(v: State, d: Digest, t: Turn) returns (more: seq<Action>)
    requires Marked(Unowned(v), d) && v.owner.Cleared? && v.reader == Acking(t) && v.active == t == v.generation
    requires Coming(v) == [t]
    ensures Possible(v, more) && Own(BeginClear) !in more && Strays(Run(v, more))
  {
    hide Marked, Coming, MarkerIsSafe, LETTING_IN, Run, Possible, HasLoaded, LosesMarker, Strays;
    LettingInRuns(v, t);
    var u := Run(v, LETTING_IN);
    SameComing(v, Unowned(v));
    EnteredMarkerIsSafe(Unowned(v), d, u);
    AckedHasNotLoaded(u);
    var rest := ResultGetsLoaded(u);
    LoadedLoses(Run(u, rest));
    LosingIsStraying(Run(u, rest));
    RunAppend(v, LETTING_IN, rest);
    ReadingDoesNotBegin(rest);
    NoBeginInLettingIn();
    more := LETTING_IN + rest;
  }

  lemma AckedHasNotLoaded(u: State)
    requires u.reader.Acked?
    ensures Alive(u) && !HasLoaded(u.reader)
  {
  }

  lemma LoadedLoses(s: State)
    requires s.reader.Loaded? && s.reader.line.ResultLine?
    requires s.active == s.reader.generation == s.reader.line.frame.turn + 1
    ensures LosesMarker(s)
  {
  }

  lemma NoBeginInLettingIn()
    ensures Own(BeginClear) !in LETTING_IN
  {
  }

  // --- the result comes first: the begin is refused, and the acknowledgement is late

  const REFUSED_READING := [Own(BeginNumber), Own(BeginActivate), Read(LoadGeneration)] + FINISHING

  /** Turn t is active after its result was dealt with. */
  ghost predicate Overdue(s: State, t: Turn) {
    && s.reader.Waiting? && s.active == t != 0 && t < s.generation && s.pooled
    && ResultSeen(s.log, t) && !AckedInTime(s.log, t)
  }

  lemma RefusedReadingRuns(v: State, t: Turn)
    requires v.owner.Cleared? && JustGot(v.reader) != [] && v.active == t == v.generation == v.slotTurn && t != 0
    ensures Possible(v, REFUSED_READING)
    ensures var w := Run(v, REFUSED_READING);
      && w.reader.Waiting? && w.active == t < w.generation && w.pooled == v.pooled && w.log == v.log
      && w.book == v.book && w.stdinOpen == v.stdinOpen && w.stdout == v.stdout
  {
    var opening := [Own(BeginNumber), Own(BeginActivate), Read(LoadGeneration)];
    RunThree(v, Own(BeginNumber), Own(BeginActivate), Read(LoadGeneration));
    var u := Run(v, opening);
    RunThree(u, Read(ResultSwap), Read(ResultStore), Read(ResultClose));
    RunAppend(v, opening, FINISHING);
  }

  lemma LateLogs(log: seq<Observation>, more: seq<Observation>, t: Turn)
    requires ResultSeen(log, t) && !AckedInTime(log, t) && log <= more
    ensures ResultSeen(more, t) && !AckedInTime(more, t)
  {
    SeenLonger(log, more, t);
    hide ResultSeen;
    forall k | 0 <= k < |more| && more[k].AckRead? && more[k].turn == t
      ensures ResultSeen(more[..k], t)
    {
      if k < |log| {
        assert more[k] == log[k] && more[..k] == log[..k];
      } else {
        assert log <= more[..k];
        SeenLonger(log, more[..k], t);
      }
    }
  }

  /** The reader gets the acknowledgement that is next, and is about to act on it. */
  lemma LateAckIsNext(s: State, t: Turn)
    requires Overdue(s, t) && |s.stdout| > 0 && Acknowledges(s.book, s.stdout[0], t)
    ensures var getting := GETTING + [Read(RemoveWaiter)];
      Possible(s, getting) && Strays(Run(s, getting))
  {
    hide Sighting;
    GettingRuns(s);
    var u := Loading(s);
    RunOne(u, Read(RemoveWaiter));
    RunAppend(s, GETTING, [Read(RemoveWaiter)]);
    LateLogs(s.log, u.log, t);
    LateAckStrays(Step(u, Read(RemoveWaiter)), t);
  }

  lemma LateAckStrays(s: State, t: Turn)
    requires s.reader == Acking(t) && s.active == t != 0 && !AckedInTime(s.log, t)
    ensures Strays(s)
  {
    assert Enabled(s, Read(AckSwap)) && !MovesForItsOwnTurn(s, Read(AckSwap), Step(s, Read(AckSwap)));
  }

  /** Handling any other line leaves the turn overdue and the acknowledgement to come. */
  lemma HandledStaysOverdue(s: State, t: Turn, k: nat)
    requires Booked(s) && Overdue(s, t) && 0 < k < |s.stdout| && Acknowledges(s.book, s.stdout[k], t)
    requires !Acknowledges(s.book, s.stdout[0], t)
    ensures Overdue(Handled(s), t) && Handled(s).stdout == s.stdout[1..]
    ensures Acknowledges(Handled(s).book, s.stdout[k], t)
  {
    hide ResultSeen, AckedInTime, Booked, Handled;
    HandledLater(s);
    LateLogs(s.log, Handled(s).log, t);
    HandledKeepsActive(s, t);
    HandledKeepsWaiter(s, t, k);
  }

  lemma HandledKeepsActive(s: State, t: Turn)
    requires s.reader.Waiting? && s.active == t != s.generation && |s.stdout| > 0
    requires !Acknowledges(s.book, s.stdout[0], t)
    ensures var v := Handled(s);
      v.active == t && v.generation == s.generation && v.pooled == s.pooled && v.reader.Waiting?
      && v.stdout == s.stdout[1..]
  {
    hide Handled, Sighting;
    HandledEffect(s);
  }

  lemma HandledKeepsWaiter(s: State, t: Turn, k: nat)
    requires Booked(s) && s.reader.Waiting? && 0 < k < |s.stdout| && Acknowledges(s.book, s.stdout[k], t)
    ensures Acknowledges(Handled(s).book, s.stdout[k], t)
  {
    hide Handled, Sighting, Askers, Ordered;
    HandledEffect(s);
    assert Unhandled(s) == s.stdout;
    assert s.stdout[0].Control? ==> s.stdout[0].id != s.stdout[k].id;
  }

  lemma HandledLater(s: State)
    requires |s.stdout| > 0
    ensures s.log <= Handled(s).log
  {
    hide Handled, Sighting;
    HandledEffect(s);
  }

  /** An acknowledgement that has been written comes late. */
  lemma {:induction false} WrittenAckStrays(s: State, t: Turn, k: nat) returns (more: seq<Action>)
    requires Booked(s) && Overdue(s, t) && k < |s.stdout| && Acknowledges(s.book, s.stdout[k], t)
    ensures Possible(s, more) && Own(BeginClear) !in more && Strays(Run(s, more))
    decreases |s.stdout|
  {
    if Acknowledges(s.book, s.stdout[0], t) {
      LateAckIsNext(s, t);
      more := GETTING + [Read(RemoveWaiter)];
    } else {
      HandledStaysOverdue(s, t, k);
      HandleRuns(s);
      NoBeginInHandling(s);
      hide Booked, Overdue, Handled, HandleScript, Strays;
      RunKeepsBooked(s, HandleScript(s));
      var rest := WrittenAckStrays(Handled(s), t, k - 1);
      RunAppend(s, HandleScript(s), rest);
      more := HandleScript(s) + rest;
    }
  }

  /** One that is to be written is written, and comes late. */
  lemma OutstandingAckStrays(s: State, t: Turn, id: RequestId) returns (more: seq<Action>)
    requires Booked(s) && Overdue(s, t) && id in s.book.outstanding && Waits(s.book, id, t)
    ensures Possible(s, more) && Own(BeginClear) !in more && Strays(Run(s, more))
  {
    var ack := Remote(Emit(Control(id, true)));
    var s' := Step(s, ack);
    StepKeepsBooked(s, ack);
    hide Booked, Strays;
    assert s'.stdout[|s.stdout|] == Control(id, true);
    var rest := WrittenAckStrays(s', t, |s.stdout|);
    RunFirst(s, ack, rest);
    more := [ack] + rest;
  }

  lemma {:induction false} FreshCaller(callers: set<CallerId>) returns (c: CallerId)
    ensures forall x <- callers :: x < c
    decreases |callers|
  {
    if callers == {} {
      c := 0;
    } else {
      var x :| x in callers;
      var most := FreshCaller(callers - {x});
      c := if x < most then most else x + 1;
      assert callers == (callers - {x}) + {x};
    }
  }

  /** One that can still be asked for is asked for, written, and comes late. */
  lemma AskedAckStrays(s: State, t: Turn) returns (more: seq<Action>)
    requires Booked(s) && Overdue(s, t) && s.stdinOpen
    ensures Possible(s, more) && Own(BeginClear) !in more && Strays(Run(s, more))
  {
    var c := FreshCaller(s.book.askers.Keys);
    AskingRuns(s, c);
    var asking := [Ask(c, AskLoad), Ask(c, AskReserve)] + [Ask(c, AskRegister), Ask(c, AskSend)];
    hide Booked, Strays;
    RunKeepsBooked(s, asking);
    var rest := OutstandingAckStrays(Run(s, asking), t, s.book.nextId);
    RunAppend(s, asking, rest);
    more := asking + rest;
  }

  lemma OverdueStrays(s: State, t: Turn) returns (more: seq<Action>)
    requires Booked(s) && Overdue(s, t) && AckCanCome(s, t)
    ensures Possible(s, more) && Own(BeginClear) !in more && Strays(Run(s, more))
  {
    hide Booked, Strays;
    assert Unhandled(s) == s.stdout;
    if s.stdinOpen {
      more := AskedAckStrays(s, t);
    } else if id :| id in s.book.outstanding && Waits(s.book, id, t) {
      more := OutstandingAckStrays(s, t, id);
    } else {
      var line :| line in s.stdout && Acknowledges(s.book, line, t);
      var k :| 0 <= k < |s.stdout| && s.stdout[k] == line;
      more := WrittenAckStrays(s, t, k);
    }
  }

  lemma RefusedStrays(v: State, d: Digest, t: Turn) returns (more: seq<Action>)
    requires Marked(Unowned(v), d) && v.owner.Cleared? && JustGot(v.reader) != [] && v.pooled
    requires v.active == t == v.generation == v.slotTurn && t != 0 && AckCanCome(v, t)
    ensures Possible(v, more) && Own(BeginClear) !in more && Strays(Run(v, more))
  {
    RefusedReadingRuns(v, t);
    var w := Run(v, REFUSED_READING);
    ResultIsUnacked(v, d, t);
    ClearedIsBooked(v);
    hide Marked, Booked, Strays, REFUSED_READING;
    RunKeepsBooked(v, REFUSED_READING);
    AckIsStillComing(v, w, t);
    var rest := OverdueStrays(w, t);
    RunAppend(v, REFUSED_READING, rest);
    more := REFUSED_READING + rest;
    NoBeginInRefusal();
  }

  lemma NoBeginInRefusal()
    ensures Own(BeginClear) !in REFUSED_READING
  {
  }

  lemma ResultIsUnacked(v: State, d: Digest, t: Turn)
    requires Marked(Unowned(v), d) && JustGot(v.reader) != [] && v.active == t == v.generation && t != 0
    ensures ResultSeen(v.log, t) && !AckedInTime(v.log, t)
  {
    hide Coming;
    CurrentLine(Unowned(v));
    assert ReaderFrame(v.reader) == Some(v.reader.line.frame);
  }

  lemma AckIsStillComing(v: State, w: State, t: Turn)
    requires JustGot(v.reader) != [] && w.reader.Waiting? && AckCanCome(v, t)
    requires w.book == v.book && w.stdinOpen == v.stdinOpen && w.stdout == v.stdout
    ensures AckCanCome(w, t)
  {
    assert Unhandled(v) == [v.reader.line] + Unhandled(w);
    if line :| line in Unhandled(v) && Acknowledges(v.book, line, t) {
      assert line in Unhandled(w) && Acknowledges(w.book, line, t);
    }
  }

  /** A begin while a turn is active whose result is still to be loaded and which can be acknowledged. */
  lemma ActiveStrays(s: State, d: Digest) returns (more: seq<Action>)
    requires Marked(s, d) && Alive(s) && OwnerEnabled(s, BeginClear) && Unloaded(s)
    requires s.active != 0 && AckCanCome(s, s.active)
    ensures var c := Step(s, Own(BeginClear));
      Possible(c, more) && Own(BeginClear) !in more && Strays(Run(c, more))
  {
    var c, t := Step(s, Own(BeginClear)), s.active;
    ClearedFinds(s, d);
    var path := Approach(c, t);
    var v := Run(c, path);
    RunIgnoresOwner(c, path);
    ReadingDoesNotBegin(path);
    OrderlyBetweenBegins(Unowned(c), path);
    var e := RunKeepsMarked(Unowned(c), path, d);
    VisitedFinds(v, e, t);
    var rest;
    if v.reader == Acking(t) {
      rest := AcknowledgedStrays(v, e, t);
    } else {
      rest := RefusedStrays(v, e, t);
    }
    RunAppend(c, path, rest);
    more := path + rest;
  }

  lemma ReadingDoesNotBegin(path: seq<Action>)
    requires forall a <- path :: ReadsOn(a)
    ensures Own(BeginClear) !in path
  {
  }

  lemma ClearedFinds(s: State, d: Digest)
    requires Marked(s, d) && Alive(s) && OwnerEnabled(s, BeginClear) && Unloaded(s) && s.active != 0
    ensures var c := Step(s, Own(BeginClear));
      && Marked(Unowned(c), d) && Booked(c) && Awaited(c, s.active) && Unloaded(c)
      && (AckCanCome(c, s.active) <==> AckCanCome(s, s.active))
      && c.owner.Cleared? && c.pooled && c.slotOpen && s.active == c.active == c.generation
  {
    hide AckCanCome, OwnerStep, Requests, Askers, Ordered, Acks, Tidy;
    var c := OwnerStep(s, BeginClear);
    OwnerEffect(s, c, BeginClear);
    StepKeepsBooked(s, Own(BeginClear));
    SilentFrame(s, c, s.active);
    ActiveIsAwaited(s, d);
    SameComing(s, c);
    SameComing(s, Unowned(c));
    OthersKeepTidy(s, Unowned(c), d);
    OthersKeepAcks(s, Unowned(c), d) by { AckTurnIs(s, Unowned(c)); }
    UnownedIsBooked(s, Unowned(c));
  }

  lemma ActiveIsAwaited(s: State, d: Digest)
    requires Marked(s, d) && Alive(s) && s.owner.Idle? && Unloaded(s) && s.active != 0
    ensures Awaited(s, s.active) && s.active == s.generation
  {
    hide ResultTurns;
  }

  lemma UnownedIsBooked(s: State, s': State)
    requires Booked(s) && s' == s.(lastResult := s'.lastResult)
    ensures Booked(s')
  {
    assert Unhandled(s') == Unhandled(s);
    RequestsFrame(s, s');
  }

  lemma VisitedFinds(v: State, d: Digest, t: Turn)
    requires Marked(Unowned(v), d) && Awaited(v, t) && v.slotOpen && v.owner.Cleared? && v.generation == t
    ensures Coming(v) == [t]
  {
  }

  /**
   From any state of an orderly run whose reader lives, beginning a turn can lead to a marker being moved for another
   turn's result or by a late acknowledgement if and only if the generation for the open channel's result has not been
   loaded, and either no turn is active or the active one can still be acknowledged.
   */
  lemma MarkersStrayExactlyWhenBegunTooSoon(actions: seq<Action>)
    requires Orderly(INITIAL, actions)
    ensures Possible(INITIAL, actions)
    ensures var s := Run(INITIAL, actions);
      Alive(s) && OwnerEnabled(s, BeginClear) ==>
        (CanStray(Step(s, Own(BeginClear))) <==> Unloaded(s) && (s.active == 0 || AckCanCome(s, s.active)))
  {
    var d := RunIsMarked(actions);
    var s := Run(INITIAL, actions);
    hide Marked, AckCanCome, Strays;
    if Alive(s) && OwnerEnabled(s, BeginClear) {
      var c := Step(s, Own(BeginClear));
      if Unloaded(s) && s.active == 0 {
        var more := LetInCanLose(s, d);
        EnteringIsOrderly(s, more);
        LosingIsStraying(Run(s, ENTERING + more));
      } else if Unloaded(s) && AckCanCome(s, s.active) {
        var more := ActiveStrays(s, d);
        OrderlyBetweenBegins(c, more);
      } else {
        BeganUnstrayed(s, d);
        forall more | Orderly(c, more) && Possible(c, more) ensures !Strays(Run(c, more)) {
          NothingStrays(c, more, s.active);
        }
      }
    }
  }

  lemma BeganUnstrayed(s: State, d: Digest)
    requires Marked(s, d) && Alive(s) && OwnerEnabled(s, BeginClear)
    requires !Unloaded(s) || (s.active != 0 && !AckCanCome(s, s.active))
    ensures Unstrayed(Step(s, Own(BeginClear)), s.active)
  {
    hide Marked, AckCanCome, OwnerStep;
    if !Unloaded(s) {
      BegunInTimeIsMarked(s, d);
    } else {
      ClearedFinds(s, d);
      assert Early(Step(s, Own(BeginClear)), s.active, d);
    }
  }
}
