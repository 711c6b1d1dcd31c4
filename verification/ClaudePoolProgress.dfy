/** Nobody inside the pool gets stuck: every call can finish by its own steps, and then the handle can be removed. */
module ClaudePoolProgress {
  import opened Wrappers
  import opened ClaudePool
  import opened ClaudePoolCalls
  import opened ClaudePoolInvariant
  import opened ClaudePoolExits
  import opened ClaudePoolMarkers

  // --------------------------------------------------------------------- the turn owner

  /** What the owner does next inside a call. */
  function NextOwn(o: Owner): OwnerAction
    requires !o.Idle?
  {
    match o
    case Cleared => BeginNumber
    case Numbered(_) => BeginActivate
    case Activated(_) => BeginSlot
    case Slotted(_) => BeginSend
    case SendFailed(_) => BeginDeactivate
    case Deactivated(_) => BeginCloseSlot
    case Taking(_) => TakeLoad
    case Judging(_, _) => TakeJudge
  }

  function OwnSteps(o: Owner): nat {
    match o
    case Idle => 0
    case Cleared => 6
    case Numbered(_) => 5
    case Activated(_) => 4
    case Slotted(_) => 3
    case SendFailed(_) => 2
    case Deactivated(_) => 1
    case Taking(_) => 2
    case Judging(_, _) => 1
  }

  lemma NextOwnCounts(s: State)
    requires !s.owner.Idle?
    ensures var a := NextOwn(s.owner);
      && OwnerEnabled(s, a) && OwnSteps(OwnerStep(s, a).owner) < OwnSteps(s.owner)
      && OwnerStep(s, a).book == s.book && OwnerStep(s, a).pooled == s.pooled && OwnerStep(s, a).reader == s.reader
  {
    hide OwnerStep;
    OwnerEffect(s, OwnerStep(s, NextOwn(s.owner)), NextOwn(s.owner));
  }

  /** Going on with a call, without beginning or taking anything new. */
  predicate GoesOn(a: Action) {
    (a.Own? && !a.own.BeginClear? && !a.own.TakeFrame? && !a.own.Drop?) || (a.Ask? && !a.ask.AskLoad?)
  }

  lemma {:induction false} OwnerFinishes(s: State) returns (more: seq<Action>)
    ensures Possible(s, more) && forall a <- more :: GoesOn(a)
    ensures var v := Run(s, more);
      v.owner.Idle? && v.book == s.book && v.pooled == s.pooled && v.reader == s.reader
    decreases OwnSteps(s.owner)
  {
    if s.owner.Idle? {
      more := [];
    } else {
      hide OwnerStep, OwnerEnabled;
      NextOwnCounts(s);
      var a := NextOwn(s.owner);
      var rest := OwnerFinishes(OwnerStep(s, a));
      RunFirst(s, Own(a), rest);
      more := [Own(a)] + rest;
    }
  }

  // ------------------------------------------------------------- callers of interrupt

  /** What a caller does next. */
  function NextAsk(k: Asker): AskerAction {
    match k
    case Seen(_) => AskReserve
    case Reserved(_, _) => AskRegister
    case Registered(_) => AskSend
    case Unsent(_) => AskWithdraw
    case Awaiting => AskLeave
  }

  function AskSteps(k: Asker): nat {
    match k
    case Seen(_) => 4
    case Reserved(_, _) => 3
    case Registered(_) => 2
    case Unsent(_) => 1
    case Awaiting => 1
  }

  lemma NextAskCounts(s: State, c: CallerId)
    requires c in s.book.askers
    ensures var a := NextAsk(s.book.askers[c]); var s' := AskerStep(s, c, a);
      && AskerEnabled(s, c, a) && s' == s.(book := s'.book)
      && (c in s'.book.askers ==> AskSteps(s'.book.askers[c]) < AskSteps(s.book.askers[c]))
      && s'.book.askers - {c} == s.book.askers - {c}
  {
    var a := NextAsk(s.book.askers[c]);
    NextAskIs(s, c);
    AskerEffect(s, AskerStep(s, c, a), c, a);
    hide AskerStep;
    var askers := AskerStep(s, c, a).book.askers;
    if askers != s.book.askers - {c} {
      var k :| askers == s.book.askers[c := k] && AskSteps(k) < AskSteps(s.book.askers[c]);
      assert askers - {c} == s.book.askers - {c};
    }
  }

  /** The caller moves on or leaves; the others stay. */
  lemma NextAskIs(s: State, c: CallerId)
    requires c in s.book.askers
    ensures var a := NextAsk(s.book.askers[c]);
      && AskerEnabled(s, c, a)
      && var askers := AskerStep(s, c, a).book.askers;
         || askers == s.book.askers - {c}
         || exists k :: askers == s.book.askers[c := k] && AskSteps(k) < AskSteps(s.book.askers[c])
  {
    var askers := AskerStep(s, c, NextAsk(s.book.askers[c])).book.askers;
    if c in askers {
      var k := askers[c];
      assert askers == s.book.askers[c := k] && AskSteps(k) < AskSteps(s.book.askers[c]);
    }
  }

  lemma {:induction false} CallerLeaves(s: State, c: CallerId) returns (more: seq<Action>)
    ensures Possible(s, more) && forall a <- more :: GoesOn(a)
    ensures var v := Run(s, more); v == s.(book := v.book) && v.book.askers == s.book.askers - {c}
    decreases if c in s.book.askers then AskSteps(s.book.askers[c]) else 0
  {
    if c !in s.book.askers {
      more := [];
    } else {
      NextAskCounts(s, c);
      hide AskerStep, AskerEnabled;
      var a := NextAsk(s.book.askers[c]);
      var s' := AskerStep(s, c, a);
      var rest := CallerLeaves(s', c);
      RunFirst(s, Ask(c, a), rest);
      more := [Ask(c, a)] + rest;
    }
  }

  lemma {:induction false} CallersLeave(s: State) returns (more: seq<Action>)
    ensures Possible(s, more) && forall a <- more :: GoesOn(a)
    ensures var v := Run(s, more); v == s.(book := v.book) && v.book.askers == map[]
    decreases |s.book.askers|
  {
    if s.book.askers == map[] {
      more := [];
    } else {
      var c :| c in s.book.askers;
      var first := CallerLeaves(s, c);
      var v := Run(s, first);
      OneCallerLess(s.book.askers, c);
      var rest := CallersLeave(v);
      RunAppend(s, first, rest);
      more := first + rest;
    }
  }

  lemma OneCallerLess(askers: map<CallerId, Asker>, c: CallerId)
    requires c in askers
    ensures |askers - {c}| < |askers|
  {
    assert (askers - {c}).Keys == askers.Keys - {c};
  }

  /**
   From any state the calls under way can finish, each by its own steps, whatever the reader and the remote do; then the
   pool, if it holds the handle, can remove it.
   */
  lemma CallsCanFinish(s: State) returns (more: seq<Action>)
    ensures Possible(s, more) && forall a <- more :: GoesOn(a)
    ensures var v := Run(s, more);
      && v.owner.Idle? && v.book.askers == map[] && v.pooled == s.pooled && v.reader == s.reader
      && (s.pooled ==> Enabled(v, Own(Drop)))
  {
    var owning := OwnerFinishes(s);
    var u := Run(s, owning);
    var leaving := CallersLeave(u);
    RunAppend(s, owning, leaving);
    more := owning + leaving;
  }

  /** So no channel stays open for good: from any state there is a way to the end of every channel. */
  lemma EveryChannelCanEnd(s: State) returns (more: seq<Action>)
    ensures Possible(s, more) && forall t :: ChannelClosed(Run(s, more), t)
  {
    var finishing := CallsCanFinish(s);
    var v := Run(s, finishing);
    var dropping := if v.pooled then [Own(Drop)] else [];
    if v.pooled { RunOne(v, Own(Drop)); }
    var w := Run(v, dropping);
    var leaving := ReaderCanLeave(w);
    RunAppend(v, dropping, leaving);
    RunAppend(s, finishing, dropping + leaving);
    more := finishing + (dropping + leaving);
  }

  // --------------------------------------------------------------- results are not lost

  /** The result line is waiting to be read, or has been. */
  predicate IsSomewhere(s: State, f: Frame) { ResultLine(f) in s.stdout || ResultRead(f) in s.log }

  lemma StaysSomewhere(s: State, a: Action, f: Frame)
    requires IsSomewhere(s, f) && Enabled(s, a)
    ensures IsSomewhere(Step(s, a), f)
  {
    hide OwnerStep, AskerStep, ReaderStep;
    match a
    case Own(own) => OwnerEffect(s, OwnerStep(s, own), own);
    case Ask(c, ask) => AskerEffect(s, AskerStep(s, c, ask), c, ask);
    case Read(read) => ReaderEffect(s, ReaderStep(s, read), read);
    case Remote(remote) =>
  }

  lemma {:induction false} WrittenIsSomewhere(s: State, actions: seq<Action>, f: Frame)
    requires Possible(s, actions) && (IsSomewhere(s, f) || Remote(Emit(ResultLine(f))) in actions)
    ensures IsSomewhere(Run(s, actions), f)
    decreases |actions|
  {
    if actions != [] {
      if IsSomewhere(s, f) { StaysSomewhere(s, actions[0], f); }
      WrittenIsSomewhere(Step(s, actions[0]), actions[1..], f);
    }
  }

  /** In every run, by the time the reader sees the end of the output it has read every result written before. */
  lemma TheEndComesAfterEveryResult(actions: seq<Action>, f: Frame)
    requires Possible(INITIAL, actions) && Remote(Emit(ResultLine(f))) in actions
    ensures Enabled(Run(INITIAL, actions), Read(ReadEof)) ==> ResultRead(f) in Run(INITIAL, actions).log
  {
    WrittenIsSomewhere(INITIAL, actions, f);
  }

  // ----------------------------------------------------------- the waiters are accounted for

  /** A caller still holds the request: it has not been written, or could not be. */
  ghost predicate IsHeld(s: State, id: RequestId) {
    exists c :: c in s.book.askers && (s.book.askers[c] == Registered(id) || s.book.askers[c] == Unsent(id))
  }

  /** The request is held, or may still be answered, or its answer is still to be acted on. */
  ghost predicate IsOpen(s: State, id: RequestId) {
    id in s.book.outstanding || IsHeld(s, id) || Mentions(Unhandled(s), id)
  }

  ghost predicate WaitersAreOpen(s: State) { forall id <- s.book.waiters :: IsOpen(s, id) }

  lemma AskerKeepsOpen(s: State, c: CallerId, a: AskerAction)
    requires WaitersAreOpen(s) && AskerEnabled(s, c, a)
    ensures WaitersAreOpen(AskerStep(s, c, a))
  {
    var s' := AskerStep(s, c, a);
    assert Unhandled(s') == Unhandled(s);
    forall id | id in s'.book.waiters
      ensures IsOpen(s', id)
    {
      if id in s.book.waiters {
        assert IsOpen(s, id);
        if d :| d in s.book.askers && (s.book.askers[d] == Registered(id) || s.book.askers[d] == Unsent(id)) {
          assert d != c ==> d in s'.book.askers && s'.book.askers[d] == s.book.askers[d];
          assert c in s'.book.askers ==> s'.book.askers[c] == s'.book.askers[c];
        }
      } else {
        assert s'.book.askers[c] == Registered(id);
      }
    }
  }

  lemma ReaderKeepsOpen(s: State, a: ReaderAction)
    requires WaitersAreOpen(s) && ReaderEnabled(s, a)
    ensures WaitersAreOpen(ReaderStep(s, a))
  {
    hide ReaderStep;
    var s' := ReaderStep(s, a);
    ReaderEffect(s, s', a);
    ReaderUnhandled(s, a);
    forall id | id in s'.book.waiters
      ensures IsOpen(s', id)
    {
      assert IsOpen(s, id);
      assert IsHeld(s, id) ==> IsHeld(s', id);
      if i :| 0 <= i < |Unhandled(s)| && Unhandled(s)[i].Control? && Unhandled(s)[i].id == id {
        if Unhandled(s) != Unhandled(s') {
          assert i > 0 ==> Unhandled(s')[i - 1] == Unhandled(s)[i];
        }
      }
    }
  }

  lemma RemoteKeepsOpen(s: State, a: RemoteAction)
    requires WaitersAreOpen(s) && RemoteEnabled(s, a)
    ensures WaitersAreOpen(RemoteStep(s, a))
  {
    var s' := RemoteStep(s, a);
    var more := if a.Emit? then [a.line] else [];
    assert Unhandled(s') == Unhandled(s) + more;
    forall id | id in s'.book.waiters
      ensures IsOpen(s', id)
    {
      assert IsOpen(s, id);
      assert IsHeld(s, id) ==> IsHeld(s', id);
      if i :| 0 <= i < |Unhandled(s)| && Unhandled(s)[i].Control? && Unhandled(s)[i].id == id {
        assert Unhandled(s')[i] == Unhandled(s)[i];
      }
      if id in s.book.outstanding && id !in s'.book.outstanding {
        assert Unhandled(s')[|Unhandled(s)|] == a.line;
      }
    }
  }

  lemma StepKeepsOpen(s: State, a: Action)
    requires WaitersAreOpen(s) && Enabled(s, a)
    ensures WaitersAreOpen(Step(s, a))
  {
    hide OwnerStep, AskerStep, ReaderStep, RemoteStep;
    match a
    case Own(own) =>
      var s' := OwnerStep(s, own);
      OwnerEffect(s, s', own);
      assert Unhandled(s') == Unhandled(s);
      forall id | id in s'.book.waiters ensures IsOpen(s', id) {
        assert IsOpen(s, id);
        assert IsHeld(s, id) ==> IsHeld(s', id);
      }
    case Ask(c, ask) => AskerKeepsOpen(s, c, ask);
    case Read(read) => ReaderKeepsOpen(s, read);
    case Remote(remote) => RemoteKeepsOpen(s, remote);
  }

  /** How many requests were numbered. */
  function Numbers(actions: seq<Action>): nat {
    if actions == [] then 0
    else (if actions[0].Ask? && actions[0].ask.AskReserve? then 1 else 0) + Numbers(actions[1..])
  }

  lemma NextIdCounts(s: State, a: Action)
    requires Enabled(s, a)
    ensures Step(s, a).book.nextId == s.book.nextId + if a.Ask? && a.ask.AskReserve? then 1 else 0
  {
    hide OwnerStep, ReaderStep, RemoteStep;
    match a
    case Own(own) => OwnerEffect(s, OwnerStep(s, own), own);
    case Ask(c, ask) =>
    case Read(read) => ReaderEffect(s, ReaderStep(s, read), read);
    case Remote(remote) => RemoteEffect(s, RemoteStep(s, remote), remote);
  }

  lemma {:induction false} RunKeepsOpen(s: State, actions: seq<Action>)
    requires WaitersAreOpen(s) && Possible(s, actions)
    ensures WaitersAreOpen(Run(s, actions))
    ensures Run(s, actions).book.nextId == s.book.nextId + Numbers(actions)
    decreases |actions|
  {
    if actions != [] {
      StepKeepsOpen(s, actions[0]);
      NextIdCounts(s, actions[0]);
      RunKeepsOpen(Step(s, actions[0]), actions[1..]);
    }
  }

  /**
   In every run a request is waited for only while its caller holds it, it may still be answered, or its answer is still
   to be acted on; conversely, while the reader is there, it is waited for as long as that is so, unless its caller is
   taking it back.  Requests are numbered from 1 without gaps.
   */
  lemma WaitersAreAccountedFor(actions: seq<Action>, id: RequestId)
    requires Possible(INITIAL, actions)
    ensures var s := Run(INITIAL, actions);
      && s.book.nextId == 1 + Numbers(actions)
      && (id in s.book.waiters ==> IsOpen(s, id))
      && (IsOpen(s, id) && !s.reader.Gone? && !(exists c :: c in s.book.askers && s.book.askers[c] == Unsent(id)) ==>
            id in s.book.waiters)
  {
    RunKeepsOpen(INITIAL, actions);
    InitialBooked();
    RunKeepsBooked(INITIAL, actions);
    var s := Run(INITIAL, actions);
    if c :| c in s.book.askers && s.book.askers[c] == Registered(id) {
      assert AskerOk(s, s.book.askers[c]);
    }
  }

  // ------------------------------------------------------------------ what is irrevocable

  /** The tasks are told to stop by a cancellation, by the removal of the handle, and by the reader's exit. */
  predicate Stops(a: Action) { a == Remote(Cancel) || a == Own(Drop) || a == Read(ReadExit) }

  lemma FlagsStep(s: State, a: Action)
    requires Enabled(s, a)
    ensures Step(s, a).stdinOpen <==> s.stdinOpen && a != Remote(CloseStdin)
    ensures Step(s, a).pooled <==> s.pooled && a != Own(Drop)
    ensures Step(s, a).cancelled <==> s.cancelled || Stops(a)
  {
    hide OwnerStep, AskerStep, ReaderStep;
    match a
    case Own(own) => OwnerEffect(s, OwnerStep(s, own), own);
    case Ask(c, ask) => AskerEffect(s, AskerStep(s, c, ask), c, ask);
    case Read(read) => ReaderEffect(s, ReaderStep(s, read), read);
    case Remote(remote) =>
  }

  /**
   In every run stdin is open until it is closed, the handle is in the pool until it is removed, and the tasks run until
   they are told to stop; none of this is undone.
   */
  lemma {:induction false} NothingIsUndone(s: State, actions: seq<Action>)
    requires Possible(s, actions)
    ensures var v := Run(s, actions);
      && (v.stdinOpen <==> s.stdinOpen && Remote(CloseStdin) !in actions)
      && (v.pooled <==> s.pooled && Own(Drop) !in actions)
      && (v.cancelled <==> s.cancelled || exists a <- actions :: Stops(a))
    decreases |actions|
  {
    if actions != [] {
      FlagsStep(s, actions[0]);
      NothingIsUndone(Step(s, actions[0]), actions[1..]);
      assert actions == [actions[0]] + actions[1..];
    }
  }
}
