/** The inductive invariant behind the promises of the Claude pool, and its preservation by every action. */
module ClaudePoolInvariant {
  import opened Wrappers
  import opened ClaudePool

  // ------------------------------------------------------------ auxiliary views

  /** What a log says about each turn; `Speaks` in ClaudePoolTheorems ties it to the log. */
  datatype Digest = Digest(
    registered: set<Turn>,
    aborted: set<Turn>,
    answered: set<Turn>,
    frames: set<Frame>,
    taken: set<Turn>,
    acked: set<Turn>,
    ended: set<Turn>)

  const NOTHING := Digest({}, {}, {}, {}, {}, {}, {})

  function Absorb(d: Digest, o: Observation): Digest {
    match o
    case Opened(t) => d.(registered := d.registered + {t})
    case Aborted(t) => d.(aborted := d.aborted + {t})
    case AckRead(_, t) => if t in d.answered then d else d.(acked := d.acked + {t})
    case ResultRead(f) => d.(answered := d.answered + {f.turn}, frames := d.frames + {f})
    case Forwarded(_) => d
    case Closed(_) => d
    case EndOfOutput => d.(ended := d.ended + d.registered)
    case Removed => d
    case Took(t, _, _) => d.(taken := d.taken + {t})
  }

  predicate Alive(s: State) { !s.reader.AtEof? && !s.reader.Gone? }

  /** `begin_turn` is under way and its message has not been sent. */
  predicate Beginning(o: Owner) {
    o.Cleared? || o.Numbered? || o.Activated? || o.Slotted? || o.SendFailed? || o.Deactivated?
  }

  predicate Preparing(o: Owner) { o.Cleared? || o.Numbered? || o.Activated? }

  /** The newest turn the markers can speak of: a merely numbered turn has not been activated. */
  function Newest(s: State): int { if s.owner.Numbered? then s.generation - 1 else s.generation }

  /** The newest turn that can have had a channel. */
  function NewestOpened(s: State): int {
    if s.owner.Numbered? || s.owner.Activated? then s.generation - 1 else s.generation
  }

  /** The newest turn that can have been answered. */
  function NewestSent(s: State): int {
    if Beginning(s.owner) && !s.owner.Cleared? then s.generation - 1 else s.generation
  }

  function ResultTurns(lines: seq<Line>): seq<Turn> {
    if lines == [] then []
    else (if lines[0].ResultLine? then [lines[0].frame.turn] else []) + ResultTurns(lines[1..])
  }

  lemma ResultTurnsAppend(lines: seq<Line>, line: Line)
    ensures ResultTurns(lines + [line])
         == ResultTurns(lines) + if line.ResultLine? then [line.frame.turn] else []
  {
    if lines != [] {
      assert (lines + [line])[1..] == lines[1..] + [line];
      ResultTurnsAppend(lines[1..], line);
    }
  }

  /** The line the reader holds and has not acted on. */
  function InHand(r: Reader): seq<Line> { if r.Got? || r.Loaded? then [r.line] else [] }

  function Unhandled(s: State): seq<Line> { InHand(s.reader) + s.stdout }

  /** The turn whose result the reader is handling and has not stored. */
  function Handling(r: Reader): seq<Turn> {
    if r.Swapped? then [r.frame.turn]
    else if (r.Got? || r.Loaded?) && r.line.ResultLine? then [r.line.frame.turn]
    else []
  }

  /** The turns whose results are still to be stored, nearest first. */
  function Ahead(s: State): seq<Turn> { Handling(s.reader) + ResultTurns(s.stdout) + s.owed }

  predicate HoldsResultOf(r: Reader, t: Turn) {
    (r.Got? || r.Loaded?) && r.line.ResultLine? && r.line.frame.turn == t
  }

  /** The result frame the reader holds. */
  function ReaderFrame(r: Reader): Option<Frame> {
    if r.Swapped? || r.Stored? then Some(r.frame)
    else if (r.Got? || r.Loaded?) && r.line.ResultLine? then Some(r.line.frame)
    else None
  }

  /** The result frame stored for, or being taken by, the turn owner. */
  function Held(s: State): Option<Frame> {
    if s.owner.Taking? || s.owner.Judging? then Some(s.owner.frame) else s.lastResult
  }

  /** The turn of the successfully acknowledged request the reader works on, before it touches a marker. */
  function AckTurn(s: State): Turn {
    if s.reader.Acking? then s.reader.turn
    else if (s.reader.Got? || s.reader.Loaded?) && s.reader.line.Control? && s.reader.line.ok
         && s.reader.line.id in s.book.asked then s.book.asked[s.reader.line.id]
    else 0
  }

  /** The turn named by `generation` has been activated and its result has not been stored. */
  predicate Live(s: State) {
    s.owner.Activated? || s.owner.Slotted? || s.owner.SendFailed? || (!Beginning(s.owner) && Expecting(s))
  }

  /** Some line of `lines` answers request `id`. */
  ghost predicate Mentions(lines: seq<Line>, id: RequestId) {
    exists i :: 0 <= i < |lines| && lines[i].Control? && lines[i].id == id
  }

  ghost predicate AnswersDistinct(lines: seq<Line>) {
    forall i, j :: 0 <= i < j < |lines| && lines[i].Control? && lines[j].Control? ==> lines[i].id != lines[j].id
  }

  // -------------------------------------------------------------- the invariant

  /** Requests: every unacknowledged request still has its waiter, under the turn it was issued in. */
  ghost predicate Requests(s: State) {
    && (forall id <- s.book.asked :: id < s.book.nextId && 1 <= s.book.asked[id] <= Newest(s))
    && (forall id <- s.book.waiters :: id in s.book.asked && s.book.waiters[id] == s.book.asked[id])
    && (forall id <- s.book.outstanding :: id in s.book.asked && (!s.reader.Gone? ==> id in s.book.waiters))
    && (forall id :: Mentions(Unhandled(s), id) ==>
          id in s.book.asked && id !in s.book.outstanding && (!s.reader.Gone? ==> id in s.book.waiters))
    && AnswersDistinct(Unhandled(s))
  }

  predicate Named(k: Asker) { k.Reserved? || k.Registered? || k.Unsent? }

  /** The identifier a caller holds is unused, or its request has not been written yet. */
  ghost predicate AskerOk(s: State, k: Asker) {
    match k
    case Seen(turn) => 1 <= turn <= Newest(s)
    case Reserved(turn, id) => 1 <= turn <= Newest(s) && id < s.book.nextId && id !in s.book.asked
    case Registered(id) =>
      && id in s.book.asked && id !in s.book.outstanding
      && !Mentions(Unhandled(s), id) && (!s.reader.Gone? ==> id in s.book.waiters)
    case Unsent(id) => id in s.book.asked && id !in s.book.outstanding && !Mentions(Unhandled(s), id)
    case Awaiting => true
  }

  /** Askers: identifiers are private to one caller until the request is written. */
  ghost predicate Askers(s: State) {
    && (forall c <- s.book.askers :: AskerOk(s, s.book.askers[c]))
    && (forall c <- s.book.askers, d <- s.book.askers :: c != d && Named(s.book.askers[c]) && Named(s.book.askers[d])
          ==> s.book.askers[c].id != s.book.askers[d].id)
  }

  /** Results: while the reader lives, at most the current turn's result is on its way, and the slot says so. */
  predicate Results(s: State) {
    && (s.owner.Numbered? || s.owner.Activated? || s.owner.Slotted? || s.owner.SendFailed? || s.owner.Deactivated?
        ==> s.owner.turn == s.generation && s.generation >= 1)
    && s.slotTurn <= NewestOpened(s)
    && (Expecting(s) ==> s.slotTurn == s.generation && s.generation >= 1)
    && (Preparing(s.owner) ==> !Expecting(s))
    && (Alive(s) ==>
          if Beginning(s.owner) then Ahead(s) == [] && (Preparing(s.owner) || Expecting(s))
          else Ahead(s) == if Expecting(s) then [s.generation] else [])
    && (s.reader.Loaded? && s.reader.line.ResultLine? ==> s.reader.generation == s.generation)
    && (s.reader.Swapped? ==> s.reader.generation == s.generation == s.reader.frame.turn)
    && (s.reader.Stored? ==> s.reader.generation == s.reader.frame.turn <= NewestOpened(s))
  }

  /** Everything observed is bounded by the turns begun so far. */
  predicate Bounds(s: State, d: Digest) {
    && (forall t <- d.acked :: 1 <= t <= Newest(s))
    && (forall t <- d.registered :: t <= NewestOpened(s))
    && (forall t <- d.aborted :: t <= NewestOpened(s))
    && (forall t <- d.answered :: 1 <= t <= NewestSent(s))
    && (forall t <- d.taken :: 1 <= t <= NewestSent(s))
  }

  /** Markers: `active` and `interrupted` speak of the right turn. */
  predicate Markers(s: State, d: Digest) {
    && s.active <= Newest(s) && s.interrupted <= Newest(s)
    && (s.reader.Acking? || s.reader.Acked? ==> 1 <= s.reader.turn <= Newest(s))
    && (Alive(s) ==>
          && (s.active == 0 || s.active == s.generation)
          && (s.owner.Cleared? || s.owner.Numbered? || s.owner.Deactivated? ==> s.active == 0)
          && (!Beginning(s.owner) && !Expecting(s) ==> s.active == 0)
          && (s.reader.Swapped? ==> s.active == 0)
          && (s.active in d.answered ==> HoldsResultOf(s.reader, s.active)))
    && (s.active != 0 ==> s.interrupted != s.active)
    && (s.reader.Acked? ==>
          && s.active != s.reader.turn && s.interrupted != s.generation
          && s.reader.turn in d.acked && s.reader.turn !in d.answered)
  }

  /** Labels: the marker agrees with the observed acknowledgements. */
  predicate Labels(s: State, d: Digest) {
    && (s.interrupted != 0 ==> s.interrupted in d.acked)
    && (AckTurn(s) != 0 && AckTurn(s) !in d.answered ==> AckTurn(s) in d.acked)
    && (Alive(s) && Live(s) && s.generation !in d.answered ==>
          s.active == s.generation || s.interrupted == s.generation || s.reader == Acked(s.generation))
    && (Alive(s) && Live(s) && s.generation in d.acked && s.generation !in d.taken ==>
          || s.interrupted == s.generation || s.reader == Acked(s.generation)
          || (AckTurn(s) == s.generation && s.generation !in d.answered))
    && (s.generation in d.answered && s.generation in d.acked && s.generation !in d.taken ==>
          s.interrupted == s.generation)
  }

  /** The turns whose channel was registered, whose result was not read and that the end of output did not end. */
  function Unfinished(d: Digest): set<Turn> { d.registered - d.aborted - d.answered - d.ended }

  /** Channels: the slot and the log agree; an answered turn's result is stored or taken. */
  predicate Channels(s: State, d: Digest) {
    && (s.slotOpen ==> s.slotTurn in d.registered && s.slotTurn !in d.aborted)
    && (Expecting(s) && s.slotTurn in d.answered ==> Handling(s.reader) == [s.slotTurn])
    && (forall t <- Unfinished(d) :: s.slotOpen && s.slotTurn == t)
    && (Alive(s) ==> d.ended == {})
    && (!Beginning(s.owner) && Handling(s.reader) == [] && s.generation in d.answered - d.taken ==>
          Held(s).Some? && Held(s).value.turn == s.generation)
  }

  /** Frames: the stored result is the current turn's, observed, and not yet taken. */
  predicate Frames(s: State, d: Digest) {
    && (Beginning(s.owner) ==> s.lastResult == None)
    && (s.lastResult.Some? ==> s.owner.Idle?)
    && (Held(s).Some? ==>
          Held(s).value.turn == s.generation && Held(s).value in d.frames && s.generation !in d.taken)
    && (s.owner.Judging? ==> s.owner.turn == s.generation)
    && (forall f <- d.frames :: f.turn in d.answered)
    && (ReaderFrame(s.reader).Some? ==> ReaderFrame(s.reader).value in d.frames)
  }

  /** Path: until a turn's result is stored the owner has none. */
  predicate Path(s: State, d: Digest) {
    Alive(s) && (Held(s).Some? || s.generation in d.taken) ==> Ahead(s) == []
  }

  ghost predicate Inv(s: State, d: Digest) {
    && Requests(s) && Askers(s) && Results(s) && Bounds(s, d)
    && Markers(s, d) && Labels(s, d) && Channels(s, d) && Frames(s, d) && Path(s, d)
  }

  lemma InitialInv()
    ensures Inv(INITIAL, NOTHING)
  {
    assert Unhandled(INITIAL) == [] && Ahead(INITIAL) == [];
  }

  // ------------------------------------------------------------------- framing

  lemma ResultsFrame(s: State, s': State)
    requires Results(s)
    requires s'.owner == s.owner && s'.generation == s.generation && s'.slotTurn == s.slotTurn
    requires s'.slotOpen == s.slotOpen && s'.reader == s.reader && Ahead(s') == Ahead(s)
    ensures Results(s')
  {
  }

  lemma RequestsFrame(s: State, s': State)
    requires Requests(s) && Askers(s)
    requires s'.book == s.book && Unhandled(s') == Unhandled(s)
    requires Newest(s) <= Newest(s') && (s.reader.Gone? <==> s'.reader.Gone?)
    ensures Requests(s') && Askers(s')
  {
    forall c | c in s'.book.askers
      ensures AskerOk(s', s'.book.askers[c])
    {
      assert AskerOk(s, s.book.askers[c]);
    }
  }

  /** Actions of the askers and the remote leave the reader, the owner and the markers alone. */
  lemma TurnFrame(s: State, s': State, d: Digest)
    requires Bounds(s, d) && Markers(s, d) && Labels(s, d) && Channels(s, d) && Frames(s, d) && Path(s, d)
    requires s'.generation == s.generation && s'.active == s.active && s'.interrupted == s.interrupted
    requires s'.slotTurn == s.slotTurn && s'.slotOpen == s.slotOpen && s'.lastResult == s.lastResult
    requires s'.owner == s.owner && s'.reader == s.reader && Ahead(s') == Ahead(s) && AckTurn(s') == AckTurn(s)
    ensures Bounds(s', d) && Markers(s', d) && Labels(s', d) && Channels(s', d) && Frames(s', d) && Path(s', d)
  {
    hide Ahead, AckTurn;
  }

  // ----------------------------------------------------------------- the askers

  lemma AskerEffect(s: State, s': State, c: CallerId, a: AskerAction)
    requires AskerEnabled(s, c, a) && s' == AskerStep(s, c, a)
    ensures s' == s.(book := s'.book)
  {
  }

  lemma AskerKeepsRequests(s: State, c: CallerId, a: AskerAction)
    requires Requests(s) && Askers(s) && AskerEnabled(s, c, a)
    ensures Requests(AskerStep(s, c, a))
  {
    assert Unhandled(AskerStep(s, c, a)) == Unhandled(s);
    if c in s.book.askers {
      assert AskerOk(s, s.book.askers[c]);
    }
  }

  lemma AskerKeepsAskers(s: State, c: CallerId, a: AskerAction)
    requires Requests(s) && Askers(s) && s.active <= Newest(s) && AskerEnabled(s, c, a)
    ensures Askers(AskerStep(s, c, a))
  {
    var s' := AskerStep(s, c, a);
    forall d | d in s'.book.askers
      ensures AskerOk(s', s'.book.askers[d])
    {
      AskerStaysOk(s, s', c, a, d);
    }
    hide Requests, Mentions;
    if c in s.book.askers { assert AskerOk(s, s.book.askers[c]); }
    assert forall d <- s.book.askers :: AskerOk(s, s.book.askers[d]);
  }

  lemma AskerStaysOk(s: State, s': State, c: CallerId, a: AskerAction, d: CallerId)
    requires Requests(s) && Askers(s) && s.active <= Newest(s) && AskerEnabled(s, c, a) && s' == AskerStep(s, c, a)
    requires d in s'.book.askers
    ensures AskerOk(s', s'.book.askers[d])
  {
    if d == c {
      AskerGoesOn(s, s', c, a);
    } else {
      OtherAskersWait(s, s', c, a, d);
    }
  }

  lemma AskerGoesOn(s: State, s': State, c: CallerId, a: AskerAction)
    requires Requests(s) && Askers(s) && s.active <= Newest(s) && AskerEnabled(s, c, a) && s' == AskerStep(s, c, a)
    requires c in s'.book.askers
    ensures AskerOk(s', s'.book.askers[c])
  {
    hide Mentions, AnswersDistinct;
    assert Unhandled(s') == Unhandled(s);
    if c in s.book.askers { assert AskerOk(s, s.book.askers[c]); }
  }

  lemma OtherAskersWait(s: State, s': State, c: CallerId, a: AskerAction, d: CallerId)
    requires Requests(s) && Askers(s) && AskerEnabled(s, c, a) && s' == AskerStep(s, c, a)
    requires d in s.book.askers && d != c
    ensures AskerOk(s', s.book.askers[d])
  {
    hide Mentions, AnswersDistinct;
    assert Unhandled(s') == Unhandled(s);
    assert AskerOk(s, s.book.askers[d]);
    if c in s.book.askers { assert AskerOk(s, s.book.askers[c]); }
  }

  /** Registering a request does not touch the one the reader is acknowledging. */
  lemma AckTurnStays(s: State, s': State)
    requires Requests(s) && s'.reader == s.reader
    requires forall id <- s.book.asked :: id in s'.book.asked && s'.book.asked[id] == s.book.asked[id]
    ensures AckTurn(s') == AckTurn(s)
  {
    if InHand(s.reader) != [] && s.reader.line.Control? {
      assert Unhandled(s)[0] == s.reader.line;
      assert Mentions(Unhandled(s), s.reader.line.id);
    }
  }

  lemma AskerKeepsInv(s: State, c: CallerId, a: AskerAction, d: Digest)
    requires Inv(s, d) && AskerEnabled(s, c, a)
    ensures Inv(AskerStep(s, c, a), d) && AskerStep(s, c, a).log == s.log
  {
    var s' := AskerStep(s, c, a);
    AskerKeepsRequests(s, c, a);
    AskerKeepsAskers(s, c, a);
    if c in s.book.askers {
      assert AskerOk(s, s.book.askers[c]);
    }
    AckTurnStays(s, s');
    TurnFrame(s, s', d);
    ResultsFrame(s, s');
  }

  // ----------------------------------------------------------------- the remote

  lemma RemoteEffect(s: State, s': State, a: RemoteAction)
    requires RemoteEnabled(s, a) && s' == RemoteStep(s, a)
    ensures s' == s.(stdinOpen := s'.stdinOpen, cancelled := s'.cancelled, book := s'.book, owed := s'.owed,
                     stdout := s'.stdout)
    ensures s.cancelled ==> s'.cancelled
    ensures s'.book == s.book.(outstanding := s'.book.outstanding) && s'.book.outstanding <= s.book.outstanding
  {
  }

  lemma RemoteKeepsRequests(s: State, a: RemoteAction)
    requires Requests(s) && Askers(s) && RemoteEnabled(s, a)
    ensures Requests(RemoteStep(s, a)) && Askers(RemoteStep(s, a))
  {
    var s' := RemoteStep(s, a);
    assert Unhandled(s') == Unhandled(s) + if a.Emit? then [a.line] else [];
    forall id | Mentions(Unhandled(s'), id)
      ensures Mentions(Unhandled(s), id) || (a.Emit? && a.line.Control? && a.line.id == id)
    {
    }
    forall d | d in s'.book.askers
      ensures AskerOk(s', s'.book.askers[d])
    {
      assert AskerOk(s, s.book.askers[d]);
    }
  }

  lemma RemoteKeepsAhead(s: State, a: RemoteAction)
    requires RemoteEnabled(s, a)
    ensures Ahead(RemoteStep(s, a)) == Ahead(s)
  {
    if a.Emit? {
      ResultTurnsAppend(s.stdout, a.line);
    }
  }

  lemma RemoteKeepsInv(s: State, a: RemoteAction, d: Digest)
    requires Inv(s, d) && RemoteEnabled(s, a)
    ensures Inv(RemoteStep(s, a), d) && RemoteStep(s, a).log == s.log
  {
    var s' := RemoteStep(s, a);
    RemoteKeepsRequests(s, a);
    RemoteKeepsAhead(s, a);
    AckTurnStays(s, s');
    TurnFrame(s, s', d);
    ResultsFrame(s, s');
  }

  // ------------------------------------------------------------- the turn owner

  /** What an owner action lets the observer see. */
  function OwnerSees(s: State, a: OwnerAction): seq<Observation>
    requires OwnerEnabled(s, a)
  {
    match a
    case BeginSlot => [Opened(s.owner.turn)]
    case BeginCloseSlot => if s.slotTurn == s.owner.turn then [Aborted(s.owner.turn)] else []
    case TakeJudge =>
      [Took(s.owner.turn, s.owner.frame, Judge(s.owner.frame, s.owner.turn, s.interrupted))]
    case Drop => [Removed]
    case _ => []
  }

  function After(d: Digest, seen: seq<Observation>): Digest {
    if seen == [] then d else Absorb(d, seen[0])
  }

  /** Where the owner is after an action. */
  function NextOwner(s: State, a: OwnerAction): Owner
    requires OwnerEnabled(s, a)
  {
    match a
    case BeginClear => Cleared
    case BeginNumber => Numbered(s.generation + 1)
    case BeginActivate => if s.active == 0 then Activated(s.owner.turn) else Idle
    case BeginSlot => Slotted(s.owner.turn)
    case BeginSend => if s.stdinOpen then Idle else SendFailed(s.owner.turn)
    case BeginDeactivate => Deactivated(s.owner.turn)
    case BeginCloseSlot => Idle
    case TakeFrame => Taking(s.lastResult.value)
    case TakeLoad => Judging(s.owner.frame, s.generation)
    case TakeJudge => Idle
    case Drop => Idle
  }

  /** The effect of an owner action, field by field. */
  lemma OwnerEffect(s: State, s': State, a: OwnerAction)
    requires OwnerEnabled(s, a) && s' == OwnerStep(s, a)
    ensures s'.owner == NextOwner(s, a) && s'.log == s.log + OwnerSees(s, a)
    ensures s'.reader == s.reader && s'.book == s.book && s'.stdout == s.stdout && s'.delivered == s.delivered
    ensures s'.stdinOpen == s.stdinOpen
    ensures s'.owed == s.owed + if a.BeginSend? && s.stdinOpen then [s.owner.turn] else []
    ensures s'.generation == if a.BeginNumber? then s.generation + 1 else s.generation
    ensures s'.active == if a.BeginActivate? && s.active == 0 then s.owner.turn
                         else if a.BeginDeactivate? then Exchange(s.active, s.owner.turn, 0)
                         else s.active
    ensures s'.interrupted == if a.TakeJudge? then Exchange(s.interrupted, s.owner.turn, 0) else s.interrupted
    ensures s'.slotTurn == if a.BeginSlot? then s.owner.turn else s.slotTurn
    ensures s'.slotOpen == (a.BeginSlot? || (s.slotOpen && !(a.BeginCloseSlot? && s.slotTurn == s.owner.turn)))
    ensures s'.lastResult == if a.BeginClear? || a.TakeFrame? then None else s.lastResult
    ensures s'.pooled == (s.pooled && !a.Drop?) && s'.cancelled == (s.cancelled || a.Drop?)
  {
    OwnerEffectInside(s, s', a);
    OwnerEffectOutside(s, s', a);
    hide OwnerStep;
  }

  /** The markers, the stored result and the slot. */
  lemma OwnerEffectInside(s: State, s': State, a: OwnerAction)
    requires OwnerEnabled(s, a) && s' == OwnerStep(s, a)
    ensures s'.generation == if a.BeginNumber? then s.generation + 1 else s.generation
    ensures s'.active == if a.BeginActivate? && s.active == 0 then s.owner.turn
                         else if a.BeginDeactivate? then Exchange(s.active, s.owner.turn, 0)
                         else s.active
    ensures s'.interrupted == if a.TakeJudge? then Exchange(s.interrupted, s.owner.turn, 0) else s.interrupted
    ensures s'.slotTurn == if a.BeginSlot? then s.owner.turn else s.slotTurn
    ensures s'.slotOpen == (a.BeginSlot? || (s.slotOpen && !(a.BeginCloseSlot? && s.slotTurn == s.owner.turn)))
    ensures s'.lastResult == if a.BeginClear? || a.TakeFrame? then None else s.lastResult
    ensures s'.pooled == (s.pooled && !a.Drop?) && s'.cancelled == (s.cancelled || a.Drop?)
  {
    match a
    case BeginClear => case BeginNumber => case BeginActivate => case BeginSlot => case BeginSend =>
    case BeginDeactivate => case BeginCloseSlot => case TakeFrame => case TakeLoad => case TakeJudge =>
    case Drop =>
  }

  /** The owner, what is sent and what is observed. */
  lemma OwnerEffectOutside(s: State, s': State, a: OwnerAction)
    requires OwnerEnabled(s, a) && s' == OwnerStep(s, a)
    ensures s'.owner == NextOwner(s, a) && s'.log == s.log + OwnerSees(s, a)
    ensures s'.reader == s.reader && s'.book == s.book && s'.stdout == s.stdout && s'.delivered == s.delivered
    ensures s'.stdinOpen == s.stdinOpen
    ensures s'.owed == s.owed + if a.BeginSend? && s.stdinOpen then [s.owner.turn] else []
  {
    match a
    case BeginClear => case BeginNumber => case BeginActivate => case BeginSlot => case BeginSend =>
    case BeginDeactivate => case BeginCloseSlot => case TakeFrame => case TakeLoad => case TakeJudge =>
    case Drop =>
  }

  lemma OwnerLeaves(s: State, a: OwnerAction)
    requires OwnerEnabled(s, a)
    ensures OwnerStep(s, a).book == s.book && OwnerStep(s, a).stdout == s.stdout
    ensures OwnerStep(s, a).reader == s.reader && Newest(s) <= Newest(OwnerStep(s, a))
    ensures OwnerStep(s, a).log == s.log + OwnerSees(s, a)
  {
    hide OwnerStep;
    OwnerEffect(s, OwnerStep(s, a), a);
  }

  lemma OwnerKeepsRequests(s: State, s': State, a: OwnerAction)
    requires Requests(s) && Askers(s) && OwnerEnabled(s, a) && s' == OwnerStep(s, a)
    ensures Requests(s') && Askers(s')
  {
    OwnerLeaves(s, a);
    RequestsFrame(s, s');
  }

  lemma OwnerKeepsResults(s: State, a: OwnerAction, d: Digest)
    requires Results(s) && Markers(s, d) && OwnerEnabled(s, a) && Disciplined(s, Own(a))
    ensures Results(OwnerStep(s, a))
  {
    hide OwnerStep;
    OwnerEffect(s, OwnerStep(s, a), a);
    hide Markers, ResultTurns;
    var s' := OwnerStep(s, a);
    assert Ahead(s') == Ahead(s) + if a.BeginSend? && s.stdinOpen then [s.owner.turn] else [];
  }

  lemma OwnerKeepsBounds(s: State, a: OwnerAction, d: Digest)
    requires Results(s) && Bounds(s, d) && Frames(s, d) && OwnerEnabled(s, a)
    ensures Bounds(OwnerStep(s, a), After(d, OwnerSees(s, a)))
  {
    hide OwnerStep;
    OwnerEffect(s, OwnerStep(s, a), a);
    hide Ahead, ResultTurns;
  }

  lemma OwnerKeepsMarkers(s: State, a: OwnerAction, d: Digest)
    requires Results(s) && Bounds(s, d) && Markers(s, d) && OwnerEnabled(s, a) && Disciplined(s, Own(a))
    ensures Markers(OwnerStep(s, a), After(d, OwnerSees(s, a)))
  {
    hide OwnerStep;
    OwnerEffect(s, OwnerStep(s, a), a);
    hide ResultTurns;
  }

  lemma OwnerKeepsLabels(s: State, a: OwnerAction, d: Digest)
    requires Results(s) && Bounds(s, d) && Markers(s, d) && Labels(s, d) && Frames(s, d)
    requires OwnerEnabled(s, a) && Disciplined(s, Own(a))
    ensures Labels(OwnerStep(s, a), After(d, OwnerSees(s, a)))
  {
    hide OwnerStep;
    OwnerEffect(s, OwnerStep(s, a), a);
    hide ResultTurns;
    OwnerLeaves(s, a);
    var s', d' := OwnerStep(s, a), After(d, OwnerSees(s, a));
    assert d'.acked == d.acked && d'.answered == d.answered;
    if a.BeginActivate? || a.BeginNumber? {
      assert s'.generation !in d.acked && s'.generation !in d.answered;
    }
  }

  lemma OwnerKeepsChannels(s: State, a: OwnerAction, d: Digest)
    requires Results(s) && Bounds(s, d) && Channels(s, d) && Frames(s, d)
    requires OwnerEnabled(s, a) && Disciplined(s, Own(a))
    ensures Channels(OwnerStep(s, a), After(d, OwnerSees(s, a)))
  {
    hide OwnerStep;
    OwnerEffect(s, OwnerStep(s, a), a);
    var d' := After(d, OwnerSees(s, a));
    assert Unfinished(d') <= Unfinished(d) + if a.BeginSlot? then {s.owner.turn} else {};
    if a.BeginCloseSlot? && s.slotTurn == s.owner.turn {
      assert s.slotTurn !in Unfinished(d');
    }
  }

  lemma OwnerKeepsFrames(s: State, a: OwnerAction, d: Digest)
    requires Results(s) && Bounds(s, d) && Frames(s, d) && OwnerEnabled(s, a) && Disciplined(s, Own(a))
    ensures Frames(OwnerStep(s, a), After(d, OwnerSees(s, a)))
  {
    hide OwnerStep;
    OwnerEffect(s, OwnerStep(s, a), a);
  }

  lemma OwnerKeepsPath(s: State, a: OwnerAction, d: Digest)
    requires Results(s) && Bounds(s, d) && Frames(s, d) && Path(s, d) && OwnerEnabled(s, a) && Disciplined(s, Own(a))
    ensures Path(OwnerStep(s, a), After(d, OwnerSees(s, a)))
  {
    hide OwnerStep;
    OwnerEffect(s, OwnerStep(s, a), a);
    CurrentResult(s);
    OwnerLeaves(s, a);
  }

  lemma OwnerKeepsInv(s: State, a: OwnerAction, d: Digest)
    requires Inv(s, d) && OwnerEnabled(s, a) && Disciplined(s, Own(a))
    ensures Inv(OwnerStep(s, a), After(d, OwnerSees(s, a))) && OwnerStep(s, a).log == s.log + OwnerSees(s, a)
  {
    OwnerLeaves(s, a);
    OwnerKeepsRequests(s, OwnerStep(s, a), a);
    OwnerKeepsResults(s, a, d);
    OwnerKeepsBounds(s, a, d);
    OwnerKeepsMarkers(s, a, d);
    OwnerKeepsLabels(s, a, d);
    OwnerKeepsChannels(s, a, d);
    OwnerKeepsFrames(s, a, d);
    OwnerKeepsPath(s, a, d);
  }

  // ----------------------------------------------------------------- the reader

  /** What a reader action lets the observer see. */
  function ReaderSees(s: State, a: ReaderAction): seq<Observation>
    requires ReaderEnabled(s, a)
  {
    match a
    case ReadLine => Sighting(s.stdout[0], s.book.asked)
    case ResultClose => if s.slotTurn == s.reader.generation then [Closed(s.slotTurn)] else []
    case PickSender => [Forwarded(s.reader.line.event)]
    case ReadEof => [EndOfOutput]
    case _ => []
  }

  /** Where the reader is after an action. */
  function NextReader(s: State, a: ReaderAction): Reader
    requires ReaderEnabled(s, a)
  {
    match a
    case ReadLine => Got(s.stdout[0])
    case LoadGeneration => Loaded(s.reader.line, s.generation)
    case RemoveWaiter =>
      if s.reader.line.ok && s.reader.line.id in s.book.waiters
      then Acking(s.book.waiters[s.reader.line.id])
      else Waiting
    case AckSwap => if s.active == s.reader.turn then Acked(s.reader.turn) else Waiting
    case AckStore => Waiting
    case ResultSwap => Swapped(s.reader.line.frame, s.reader.generation)
    case ResultStore => Stored(s.reader.frame, s.reader.generation)
    case ResultClose => Waiting
    case PickSender => if s.slotOpen then Sending(s.slotTurn, s.reader.line.event) else Waiting
    case SendEvent => Waiting
    case SkipLine => Waiting
    case ReadEof => AtEof
    case ReadExit => Gone
  }

  /** The effect of a reader action, field by field. */
  lemma ReaderEffect(s: State, s': State, a: ReaderAction)
    requires ReaderEnabled(s, a) && s' == ReaderStep(s, a)
    ensures s'.reader == NextReader(s, a) && s'.log == s.log + ReaderSees(s, a)
    ensures s'.owner == s.owner && s'.generation == s.generation && s'.slotTurn == s.slotTurn
    ensures s'.pooled == s.pooled && s'.stdinOpen == s.stdinOpen && s'.owed == s.owed
    ensures s'.stdout == if a.ReadLine? then s.stdout[1..] else s.stdout
    ensures s'.active == if a.AckSwap? then Exchange(s.active, s.reader.turn, 0)
                         else if a.ResultSwap? then Exchange(s.active, s.reader.generation, 0)
                         else s.active
    ensures s'.interrupted == if a.AckStore? then s.reader.turn else s.interrupted
    ensures s'.lastResult == if a.ResultStore? then Some(s.reader.frame) else s.lastResult
    ensures s'.slotOpen == (s.slotOpen && !a.ReadEof? && !(a.ResultClose? && s.slotTurn == s.reader.generation))
    ensures s'.cancelled == (s.cancelled || a.ReadExit?)
    ensures s'.delivered == if a.SendEvent? then s.delivered + [(s.reader.turn, s.reader.event)] else s.delivered
    ensures s'.book == s.book.(waiters := if a.ReadExit? then map[]
                                          else if a.RemoveWaiter? then s.book.waiters - {s.reader.line.id}
                                          else s.book.waiters)
  {
    ReaderEffectInside(s, s', a);
    ReaderEffectOutside(s, s', a);
    hide ReaderStep;
  }

  /** The markers, the stored result and the slot. */
  lemma ReaderEffectInside(s: State, s': State, a: ReaderAction)
    requires ReaderEnabled(s, a) && s' == ReaderStep(s, a)
    ensures s'.owner == s.owner && s'.generation == s.generation && s'.slotTurn == s.slotTurn
    ensures s'.pooled == s.pooled && s'.stdinOpen == s.stdinOpen
    ensures s'.active == if a.AckSwap? then Exchange(s.active, s.reader.turn, 0)
                         else if a.ResultSwap? then Exchange(s.active, s.reader.generation, 0)
                         else s.active
    ensures s'.interrupted == if a.AckStore? then s.reader.turn else s.interrupted
    ensures s'.lastResult == if a.ResultStore? then Some(s.reader.frame) else s.lastResult
    ensures s'.slotOpen == (s.slotOpen && !a.ReadEof? && !(a.ResultClose? && s.slotTurn == s.reader.generation))
    ensures s'.cancelled == (s.cancelled || a.ReadExit?)
  {
    match a
    case ReadLine => case LoadGeneration => case RemoveWaiter => case AckSwap => case AckStore =>
    case ResultSwap => case ResultStore => case ResultClose => case PickSender => case SendEvent => case SkipLine =>
    case ReadEof => case ReadExit =>
  }

  /** The reader, the waiters, the output and what is observed. */
  lemma ReaderEffectOutside(s: State, s': State, a: ReaderAction)
    requires ReaderEnabled(s, a) && s' == ReaderStep(s, a)
    ensures s'.reader == NextReader(s, a) && s'.log == s.log + ReaderSees(s, a)
    ensures s'.owed == s.owed && s'.stdout == if a.ReadLine? then s.stdout[1..] else s.stdout
    ensures s'.delivered == if a.SendEvent? then s.delivered + [(s.reader.turn, s.reader.event)] else s.delivered
    ensures s'.book == s.book.(waiters := if a.ReadExit? then map[]
                                          else if a.RemoveWaiter? then s.book.waiters - {s.reader.line.id}
                                          else s.book.waiters)
  {
    match a
    case ReadLine => case LoadGeneration => case RemoveWaiter => case AckSwap => case AckStore =>
    case ResultSwap => case ResultStore => case ResultClose => case PickSender => case SendEvent => case SkipLine =>
    case ReadEof => case ReadExit =>
  }

  /** The digest after an action. */
  function Digested(s: State, a: Action, d: Digest): Digest
    requires Enabled(s, a)
  {
    match a
    case Own(own) => After(d, OwnerSees(s, own))
    case Ask(_, _) => d
    case Read(read) => After(d, ReaderSees(s, read))
    case Remote(_) => d
  }

  /** Acting on the line in hand drops it; the other actions leave the unhandled lines alone. */
  lemma ReaderUnhandled(s: State, a: ReaderAction)
    requires ReaderEnabled(s, a)
    ensures if a.RemoveWaiter? || a.ResultSwap? || a.PickSender? || a.SkipLine?
            then Unhandled(s) == [s.reader.line] + Unhandled(ReaderStep(s, a))
            else Unhandled(ReaderStep(s, a)) == Unhandled(s)
  {
    hide ReaderStep;
    ReaderEffect(s, ReaderStep(s, a), a);
  }

  lemma DropHead(lines: seq<Line>, head: Line)
    requires AnswersDistinct([head] + lines)
    ensures AnswersDistinct(lines)
    ensures forall id :: Mentions(lines, id) ==> Mentions([head] + lines, id)
    ensures head.Control? ==> Mentions([head] + lines, head.id) && !Mentions(lines, head.id)
  {
    var all := [head] + lines;
    assert all[0] == head && forall i :: 0 <= i < |lines| ==> all[i + 1] == lines[i];
    forall i, j | 0 <= i < j < |lines| && lines[i].Control? && lines[j].Control?
      ensures lines[i].id != lines[j].id
    {
      assert all[i + 1].id != all[j + 1].id;
    }
    forall id | Mentions(lines, id)
      ensures Mentions(all, id) && !(head.Control? && head.id == id)
    {
      var i :| 0 <= i < |lines| && lines[i].Control? && lines[i].id == id;
      assert all[i + 1].id == id;
      if head.Control? { assert all[0].id != all[i + 1].id; }
    }
  }

  lemma ReaderLeaves(s: State, a: ReaderAction)
    requires ReaderEnabled(s, a)
    ensures Newest(ReaderStep(s, a)) == Newest(s)
    ensures !a.RemoveWaiter? && !a.ReadExit? ==>
              ReaderStep(s, a).book == s.book && !s.reader.Gone? && !ReaderStep(s, a).reader.Gone?
    ensures ReaderStep(s, a).log == s.log + ReaderSees(s, a)
  {
    hide ReaderStep;
    ReaderEffect(s, ReaderStep(s, a), a);
  }

  lemma RequestsDrop(s: State, s': State, head: Line)
    requires Requests(s) && Askers(s) && Unhandled(s) == [head] + Unhandled(s')
    requires Newest(s') == Newest(s) && !s.reader.Gone? && !s'.reader.Gone?
    requires if head.Control? then s'.book == s.book.(waiters := s.book.waiters - {head.id}) else s'.book == s.book
    ensures Requests(s') && Askers(s')
  {
    DropHead(Unhandled(s'), head);
    forall c | c in s'.book.askers
      ensures AskerOk(s', s'.book.askers[c])
    {
      assert AskerOk(s, s.book.askers[c]);
    }
  }

  lemma RequestsExit(s: State, s': State)
    requires Requests(s) && Askers(s) && Unhandled(s') == Unhandled(s) && s'.reader.Gone?
    requires Newest(s') == Newest(s) && s'.book == s.book.(waiters := map[])
    ensures Requests(s') && Askers(s')
  {
    forall c | c in s'.book.askers
      ensures AskerOk(s', s'.book.askers[c])
    {
      assert AskerOk(s, s.book.askers[c]);
    }
  }

  lemma ReaderKeepsRequests(s: State, s': State, a: ReaderAction)
    requires Requests(s) && Askers(s) && ReaderEnabled(s, a) && s' == ReaderStep(s, a)
    ensures Requests(s') && Askers(s')
  {
    ReaderUnhandled(s, a);
    ReaderLeaves(s, a);
    if a.ReadExit? {
      RequestsExit(s, s');
    } else if a.RemoveWaiter? {
      CurrentAck(s);
      RequestsDrop(s, s', s.reader.line);
    } else if a.ResultSwap? || a.PickSender? || a.SkipLine? {
      RequestsDrop(s, s', s.reader.line);
    } else {
      RequestsFrame(s, s');
    }
  }

  /** A result in the reader's hands, or next on stdout, is the current turn's, and that turn's slot is open. */
  lemma CurrentResult(s: State)
    requires Results(s)
    ensures Handling(s.reader) != [] ==>
              Handling(s.reader) == [s.generation] && Expecting(s) && s.slotTurn == s.generation && !Beginning(s.owner)
              && ResultTurns(s.stdout) == [] && s.owed == []
    ensures Alive(s) && |s.stdout| > 0 && s.stdout[0].ResultLine? ==>
              s.stdout[0].frame.turn == s.generation && Expecting(s) && !Beginning(s.owner) && Handling(s.reader) == []
  {
    if Handling(s.reader) != [] {
      assert Ahead(s)[0] == Handling(s.reader)[0];
      assert |Ahead(s)| == |Handling(s.reader)| + |ResultTurns(s.stdout)| + |s.owed|;
    } else if Alive(s) && |s.stdout| > 0 && s.stdout[0].ResultLine? {
      assert ResultTurns(s.stdout)[0] == s.stdout[0].frame.turn;
      assert Ahead(s)[0] == s.stdout[0].frame.turn;
    }
  }

  /** The acknowledgement next on stdout answers a request whose waiter is still there. */
  lemma CurrentAck(s: State)
    requires Requests(s)
    ensures (s.reader.Got? || s.reader.Loaded?) && s.reader.line.Control? ==>
              s.reader.line.id in s.book.asked && s.reader.line.id in s.book.waiters
    ensures s.reader.Waiting? && |s.stdout| > 0 && s.stdout[0].Control? ==>
              s.stdout[0].id in s.book.asked && s.stdout[0].id in s.book.waiters
  {
    if |Unhandled(s)| > 0 && Unhandled(s)[0].Control? {
      assert Mentions(Unhandled(s), Unhandled(s)[0].id);
    }
  }

  lemma ReaderOutput(s: State, a: ReaderAction)
    requires ReaderEnabled(s, a)
    ensures ReaderStep(s, a).owed == s.owed
    ensures ReaderStep(s, a).stdout == if a.ReadLine? then s.stdout[1..] else s.stdout
    ensures !a.ReadLine? ==>
              Handling(s.reader)
              == (if a.ResultStore? then [s.reader.frame.turn] else []) + Handling(ReaderStep(s, a).reader)
  {
    hide ReaderStep;
    ReaderEffect(s, ReaderStep(s, a), a);
  }

  lemma ReaderKeepsAhead(s: State, a: ReaderAction)
    requires ReaderEnabled(s, a)
    ensures Ahead(s) == (if a.ResultStore? then [s.reader.frame.turn] else []) + Ahead(ReaderStep(s, a))
  {
    ReaderOutput(s, a);
    if a.ReadLine? {
      assert Handling(ReaderStep(s, a).reader) + ResultTurns(s.stdout[1..]) == ResultTurns(s.stdout);
    }
  }

  lemma ReaderLeavesOwner(s: State, s': State, a: ReaderAction)
    requires ReaderEnabled(s, a) && s' == ReaderStep(s, a)
    ensures s'.owner == s.owner && s'.generation == s.generation && s'.slotTurn == s.slotTurn
    ensures s'.pooled == s.pooled
    ensures s'.slotOpen ==
            (s.slotOpen && !a.ReadEof? && !(a.ResultClose? && s.slotTurn == s.reader.generation))
    ensures Expecting(s') ==
            (Expecting(s) && !a.ReadEof? && !(a.ResultStore? && s.slotTurn == s.reader.generation))
    ensures a.ReadEof? || a.ReadExit? ==> !Alive(s')
  {
    hide ReaderStep;
    ReaderEffect(s, s', a);
  }

  lemma ReaderTags(s: State, s': State, a: ReaderAction)
    requires Results(s) && ReaderEnabled(s, a) && s' == ReaderStep(s, a)
    ensures s'.reader.Loaded? && s'.reader.line.ResultLine? ==> s'.reader.generation == s'.generation
    ensures s'.reader.Swapped? ==> s'.reader.generation == s'.generation == s'.reader.frame.turn
    ensures s'.reader.Stored? ==> s'.reader.generation == s'.reader.frame.turn <= NewestOpened(s')
  {
    hide ReaderStep;
    ReaderEffect(s, s', a);
    hide ResultTurns;
    CurrentResult(s);
  }

  lemma ReaderKeepsResults(s: State, s': State, a: ReaderAction)
    requires Results(s) && ReaderEnabled(s, a) && s' == ReaderStep(s, a)
    ensures Results(s')
  {
    hide ResultTurns, ReaderStep;
    ReaderKeepsAhead(s, a);
    ReaderLeavesOwner(s, s', a);
    ReaderTags(s, s', a);
    CurrentResult(s);
  }

  /** Reading a line records it and puts it in the reader's hands; nothing else changes. */
  lemma ReadLineKeeps(s: State, s': State, d: Digest, d': Digest)
    requires Inv(s, d) && ReaderEnabled(s, ReadLine) && s' == ReaderStep(s, ReadLine)
    requires d' == After(d, Sighting(s.stdout[0], s.book.asked))
    ensures Bounds(s', d') && Markers(s', d') && Labels(s', d') && Channels(s', d') && Frames(s', d') && Path(s', d')
  {
    hide Askers, Ahead, ResultTurns, Mentions, AnswersDistinct;
    CurrentResult(s);
    CurrentAck(s);
    ReaderKeepsAhead(s, ReadLine);
    var line := s.stdout[0];
    assert Unfinished(d') <= Unfinished(d);
    if line.Control? {
      assert d'.answered == d.answered && d'.registered == d.registered && d'.aborted == d.aborted;
      assert AckTurn(s') == if line.ok then s.book.asked[line.id] else 0;
    } else if line.ResultLine? {
      assert d'.answered == d.answered + {s.generation} && d'.acked == d.acked;
      assert s.generation !in d.taken;
    } else {
      assert d' == d;
    }
  }

  /** The other reader actions show the observer nothing that matters to the digest, but for the end of output. */
  lemma ReaderDigest(s: State, a: ReaderAction, d: Digest)
    requires ReaderEnabled(s, a) && !a.ReadLine?
    ensures After(d, ReaderSees(s, a)) == if a.ReadEof? then d.(ended := d.ended + d.registered) else d
  {
  }

  lemma ReaderStores(s: State, s': State, a: ReaderAction)
    requires ReaderEnabled(s, a) && !a.ReadLine? && s' == ReaderStep(s, a)
    ensures s'.lastResult == if a.ResultStore? then Some(s.reader.frame) else s.lastResult
  {
    hide ReaderStep;
    ReaderEffect(s, s', a);
  }

  lemma ReaderKeepsFrame(s: State, s': State, a: ReaderAction)
    requires ReaderEnabled(s, a) && !a.ReadLine? && s' == ReaderStep(s, a)
    ensures ReaderFrame(s'.reader) == if a.ResultClose? then None else ReaderFrame(s.reader)
  {
    hide ReaderStep;
    ReaderEffect(s, s', a);
  }

  lemma ReaderFields(s: State, s': State, a: ReaderAction)
    requires ReaderEnabled(s, a) && !a.ReadLine? && s' == ReaderStep(s, a)
    ensures s'.owner == s.owner && s'.generation == s.generation
    ensures s'.lastResult == if a.ResultStore? then Some(s.reader.frame) else s.lastResult
    ensures ReaderFrame(s'.reader) == if a.ResultClose? then None else ReaderFrame(s.reader)
  {
    hide ReaderStep, ReaderFrame;
    ReaderLeavesOwner(s, s', a);
    ReaderStores(s, s', a);
    ReaderKeepsFrame(s, s', a);
  }

  lemma ReaderKeepsBounds(s: State, s': State, a: ReaderAction, d: Digest)
    requires Bounds(s, d) && ReaderEnabled(s, a) && !a.ReadLine? && s' == ReaderStep(s, a)
    ensures Bounds(s', d)
  {
    ReaderFields(s, s', a);
  }

  predicate Quiet(a: ReaderAction) {
    !a.ReadLine? && !a.RemoveWaiter? && !a.AckSwap? && !a.AckStore? && !a.ResultSwap?
  }

  lemma QuietReads(s: State, s': State, a: ReaderAction)
    requires ReaderEnabled(s, a) && Quiet(a) && s' == ReaderStep(s, a)
    ensures s'.active == s.active && s'.interrupted == s.interrupted && AckTurn(s') == AckTurn(s)
    ensures !s.reader.Acked? && !s'.reader.Acked? && (Alive(s') ==> Alive(s))
  {
    hide ReaderStep;
    ReaderEffect(s, s', a);
  }

  lemma AcksKeepLabels(s: State, s': State, a: ReaderAction, d: Digest)
    requires Results(s) && Markers(s, d) && Labels(s, d)
    requires ReaderEnabled(s, a) && (a.AckSwap? || a.AckStore?) && s' == ReaderStep(s, a)
    ensures Labels(s', d)
  {
    hide ReaderStep;
    ReaderEffect(s, s', a);
    hide ResultTurns, Ahead;
  }

  lemma RemovalKeepsLabels(s: State, s': State, d: Digest)
    requires Requests(s) && Labels(s, d) && ReaderEnabled(s, RemoveWaiter) && s' == ReaderStep(s, RemoveWaiter)
    ensures Labels(s', d)
  {
    CurrentAck(s);
  }

  lemma ResultKeepsLabels(s: State, s': State, d: Digest)
    requires Results(s) && Labels(s, d) && Frames(s, d)
    requires ReaderEnabled(s, ResultSwap) && s' == ReaderStep(s, ResultSwap)
    ensures Labels(s', d)
  {
    hide ResultTurns, Ahead;
    CurrentResult(s);
  }

  lemma QuietKeepsMarkers(s: State, s': State, a: ReaderAction, d: Digest)
    requires Results(s) && Markers(s, d) && ReaderEnabled(s, a) && Quiet(a) && s' == ReaderStep(s, a)
    ensures Markers(s', d)
  {
    hide ReaderStep;
    ReaderEffect(s, s', a);
    hide Ahead, ResultTurns;
    CurrentResult(s);
  }

  lemma AcksKeepMarkers(s: State, s': State, a: ReaderAction, d: Digest)
    requires Bounds(s, d) && Markers(s, d) && Labels(s, d)
    requires ReaderEnabled(s, a) && (a.AckSwap? || a.AckStore?) && s' == ReaderStep(s, a)
    ensures Markers(s', d)
  {
    hide ReaderStep;
    ReaderEffect(s, s', a);
  }

  lemma RemovalKeepsMarkers(s: State, s': State, d: Digest)
    requires Requests(s) && Markers(s, d) && ReaderEnabled(s, RemoveWaiter) && s' == ReaderStep(s, RemoveWaiter)
    ensures Markers(s', d)
  {
    CurrentAck(s);
  }

  lemma ResultKeepsMarkers(s: State, s': State, d: Digest)
    requires Results(s) && Bounds(s, d) && Markers(s, d)
    requires ReaderEnabled(s, ResultSwap) && s' == ReaderStep(s, ResultSwap)
    ensures Markers(s', d)
  {
    hide Ahead, ResultTurns;
    CurrentResult(s);
  }

  lemma ReaderKeepsMarkers(s: State, s': State, a: ReaderAction, d: Digest)
    requires Requests(s) && Results(s) && Bounds(s, d) && Markers(s, d) && Labels(s, d)
    requires ReaderEnabled(s, a) && !a.ReadLine? && s' == ReaderStep(s, a)
    ensures Markers(s', d)
  {
    hide Requests, Results, Bounds, Markers, Labels, ReaderStep;
    if a.AckSwap? || a.AckStore? {
      AcksKeepMarkers(s, s', a, d);
    } else if a.RemoveWaiter? {
      RemovalKeepsMarkers(s, s', d);
    } else if a.ResultSwap? {
      ResultKeepsMarkers(s, s', d);
    } else {
      QuietKeepsMarkers(s, s', a, d);
    }
  }

  lemma ReaderKeepsLabels(s: State, s': State, a: ReaderAction, d: Digest)
    requires Requests(s) && Results(s) && Markers(s, d) && Labels(s, d) && Frames(s, d)
    requires ReaderEnabled(s, a) && !a.ReadLine? && s' == ReaderStep(s, a)
    ensures Labels(s', d)
  {
    hide ReaderStep, Requests, Results, Markers, Frames, AckTurn;
    if a.AckSwap? || a.AckStore? {
      AcksKeepLabels(s, s', a, d);
    } else if a.RemoveWaiter? {
      RemovalKeepsLabels(s, s', d);
    } else if a.ResultSwap? {
      ResultKeepsLabels(s, s', d);
    } else {
      QuietReads(s, s', a);
      ReaderLeavesOwner(s, s', a);
    }
  }

  lemma ReaderKeepsChannels(s: State, s': State, a: ReaderAction, d: Digest)
    requires Results(s) && Channels(s, d) && Frames(s, d)
    requires ReaderEnabled(s, a) && !a.ReadLine? && !a.ReadEof? && s' == ReaderStep(s, a)
    ensures Channels(s', d)
  {
    hide Ahead, ResultTurns, ReaderStep;
    CurrentResult(s);
    ReaderFields(s, s', a);
    ReaderLeavesOwner(s, s', a);
    ReaderOutput(s, a);
    ReaderRevives(s, s', a);
    if a.ResultClose? {
      assert ReaderFrame(s.reader) == Some(s.reader.frame);
      assert s.reader.frame.turn !in Unfinished(d);
    }
  }

  lemma ReaderRevives(s: State, s': State, a: ReaderAction)
    requires ReaderEnabled(s, a) && s' == ReaderStep(s, a)
    ensures Alive(s') ==> Alive(s)
  {
    hide ReaderStep;
    ReaderEffect(s, s', a);
  }

  /** At the end of output every turn that was registered is ended. */
  lemma EofKeepsChannels(s: State, s': State, d: Digest, d': Digest)
    requires Channels(s, d) && ReaderEnabled(s, ReadEof) && s' == ReaderStep(s, ReadEof)
    requires d' == d.(ended := d.ended + d.registered)
    ensures Channels(s', d')
  {
  }

  lemma EndedIsApart(s: State, d: Digest, d': Digest)
    requires Bounds(s, d) && Markers(s, d) && Labels(s, d) && Frames(s, d) && Path(s, d)
    requires d' == d.(ended := d'.ended)
    ensures Bounds(s, d') && Markers(s, d') && Labels(s, d') && Frames(s, d') && Path(s, d')
  {
  }

  lemma ReaderKeepsFrames(s: State, s': State, a: ReaderAction, d: Digest)
    requires Results(s) && Frames(s, d) && Path(s, d)
    requires ReaderEnabled(s, a) && !a.ReadLine? && s' == ReaderStep(s, a)
    ensures Frames(s', d)
  {
    CurrentResult(s);
    ReaderFields(s, s', a);
    if a.ResultStore? {
      assert Ahead(s) != [] && Held(s) == None;
    }
  }

  lemma ReaderKeepsPath(s: State, s': State, a: ReaderAction, d: Digest)
    requires Results(s) && Frames(s, d) && Path(s, d)
    requires ReaderEnabled(s, a) && !a.ReadLine? && s' == ReaderStep(s, a)
    ensures Path(s', d)
  {
    CurrentResult(s);
    ReaderFields(s, s', a);
    ReaderKeepsAhead(s, a);
    if a.ResultStore? {
      assert Ahead(s) != [] && Held(s) == None && s.owner.Idle?;
    } else {
      assert Held(s') == Held(s);
    }
  }

  lemma ReaderKeepsInv(s: State, a: ReaderAction, d: Digest)
    requires Inv(s, d) && ReaderEnabled(s, a)
    ensures Inv(ReaderStep(s, a), After(d, ReaderSees(s, a))) && ReaderStep(s, a).log == s.log + ReaderSees(s, a)
  {
    var s' := ReaderStep(s, a);
    ReaderLeaves(s, a);
    ReaderKeepsRequests(s, s', a);
    ReaderKeepsResults(s, s', a);
    if a.ReadLine? {
      ReadLineKeeps(s, s', d, After(d, ReaderSees(s, a)));
    } else {
      var d' := After(d, ReaderSees(s, a));
      ReaderDigest(s, a, d);
      ReaderKeepsBounds(s, s', a, d);
      ReaderKeepsMarkers(s, s', a, d);
      ReaderKeepsLabels(s, s', a, d);
      ReaderKeepsFrames(s, s', a, d);
      ReaderKeepsPath(s, s', a, d);
      EndedIsApart(s', d, d');
      if a.ReadEof? {
        EofKeepsChannels(s, s', d, d');
      } else {
        ReaderKeepsChannels(s, s', a, d);
      }
    }
  }
}
