/** The discipline under which deliveries are exact is the weakest: a turn begun too soon can spoil them. */
module ClaudePoolDeliveries {
  import opened Wrappers
  import opened ClaudePool
  import opened ClaudePoolSpec
  import opened ClaudePoolCalls
  import opened ClaudePoolInvariant
  import opened ClaudePoolTheorems
  import opened ClaudePoolOutside
  import opened ClaudePoolChannels

  /** What DeliveriesAreExact promises of turn t. */
  predicate Exact(s: State, t: Turn) {
    var sent, events := Delivered(s.delivered, t), EventsOf(s.log, t);
    sent <= events && |events| <= |sent| + 1 && (ChannelClosed(s, t) ==> sent == events)
  }

  ghost predicate Misdelivers(s: State) { exists t :: !Exact(s, t) }

  ghost predicate CanMisdeliver(s: State) {
    exists more :: Orderly(s, more) && Possible(s, more) && Misdelivers(Run(s, more))
  }

  // ---------------------------------------------------------- one more progress line

  const LINE := Remote(Emit(Progress("")))

  function Told(s: State): State {
    s.(log := s.log + [Forwarded("")],
       delivered := if s.slotOpen then s.delivered + [(s.slotTurn, "")] else s.delivered)
  }

  function TellingScript(s: State): seq<Action>
    requires s.stdout == []
  {
    [LINE] + HandleScript(Step(s, LINE))
  }

  lemma TellingRuns(s: State)
    requires s.reader.Waiting? && s.stdout == []
    ensures Possible(s, TellingScript(s)) && Run(s, TellingScript(s)) == Told(s)
    ensures Own(BeginClear) !in TellingScript(s)
  {
    var next := Step(s, LINE);
    assert next.stdout == [Progress("")];
    HandleRuns(next);
    RunOne(s, LINE);
    RunAppend(s, [LINE], HandleScript(next));
    assert next.stdout[1..] == [] && s.log + [] == s.log;
  }

  /** On a channel that is left open more and more is delivered that is not the turn's. */
  lemma {:induction false} FloodsOpen(s: State, t: Turn) returns (more: seq<Action>)
    requires s.reader.Waiting? && s.stdout == [] && s.slotOpen && s.slotTurn == t && ResultSeen(s.log, t)
    ensures Possible(s, more) && Own(BeginClear) !in more && !Exact(Run(s, more), t)
    decreases if |Delivered(s.delivered, t)| > |EventsOf(s.log, t)| then 0
              else |EventsOf(s.log, t)| + 1 - |Delivered(s.delivered, t)|
  {
    if |Delivered(s.delivered, t)| > |EventsOf(s.log, t)| {
      more := [];
    } else {
      TellingRuns(s);
      Push(s.log, Forwarded(""));
      PushDelivered(s.delivered, (t, ""));
      var rest := FloodsOpen(Told(s), t);
      RunAppend(s, TellingScript(s), rest);
      more := TellingScript(s) + rest;
    }
  }

  /** For a turn whose channel is lost more and more events are not delivered. */
  lemma {:induction false} FloodsClosed(s: State, t: Turn) returns (more: seq<Action>)
    requires s.reader.Waiting? && s.stdout == [] && !s.slotOpen && InProgress(s.log, t)
    ensures Possible(s, more) && Own(BeginClear) !in more && !Exact(Run(s, more), t)
    decreases if |EventsOf(s.log, t)| > |Delivered(s.delivered, t)| + 1 then 0
              else |Delivered(s.delivered, t)| + 2 - |EventsOf(s.log, t)|
  {
    if |EventsOf(s.log, t)| > |Delivered(s.delivered, t)| + 1 {
      more := [];
    } else {
      TellingRuns(s);
      Push(s.log, Forwarded(""));
      var rest := FloodsClosed(Told(s), t);
      RunAppend(s, TellingScript(s), rest);
      more := TellingScript(s) + rest;
    }
  }

  // --------------------------------------------------------------- reading to the end

  lemma NoBeginInHandling(s: State)
    requires |s.stdout| > 0
    ensures Own(BeginClear) !in HandleScript(s)
  {
  }

  lemma HandledStaysStalled(s: State, t: Turn)
    requires s.reader.Waiting? && |s.stdout| > 0 && Stalled(s, t) && ResultSeen(s.log, t)
    ensures Stalled(Handled(s), t) && ResultSeen(Handled(s).log, t)
    ensures Handled(s).reader.Waiting? && Handled(s).stdout == s.stdout[1..]
  {
    hide Handled, Sighting, ResultSeen;
    HandledEffect(s);
    SeenLonger(s.log, Handled(s).log, t);
  }

  lemma {:induction false} DrainsOpen(s: State, t: Turn) returns (more: seq<Action>)
    requires s.reader.Waiting? && Stalled(s, t) && ResultSeen(s.log, t)
    ensures Possible(s, more) && Own(BeginClear) !in more
    ensures var v := Run(s, more); v.reader.Waiting? && v.stdout == [] && Stalled(v, t) && ResultSeen(v.log, t)
    decreases |s.stdout|
  {
    if s.stdout == [] {
      more := [];
    } else {
      HandleRuns(s);
      NoBeginInHandling(s);
      HandledStaysStalled(s, t);
      hide Handled, HandleScript, Stalled;
      var rest := DrainsOpen(Handled(s), t);
      RunAppend(s, HandleScript(s), rest);
      more := HandleScript(s) + rest;
    }
  }

  lemma HandledStaysLost(s: State, t: Turn)
    requires s.reader.Waiting? && |s.stdout| > 0 && !s.slotOpen && InProgress(s.log, t) && t !in ResultTurns(s.stdout)
    ensures var v := Handled(s);
      && v.reader.Waiting? && v.stdout == s.stdout[1..] && !v.slotOpen
      && InProgress(v.log, t) && t !in ResultTurns(v.stdout)
  {
    hide Handled, InProgress, Sighting;
    HandledLeaves(s);
    var line := s.stdout[0];
    assert line.ResultLine? ==> line.frame.turn in ResultTurns(s.stdout) by {
      assert line.ResultLine? ==> ResultTurns(s.stdout)[0] == line.frame.turn;
    }
    var seen := Sighting(line, s.book.asked);
    if seen != [] {
      SightingShows(line, s.book.asked);
      assert seen == [seen[0]] && seen[0] in seen;
      Push(s.log, seen[0]);
    } else {
      assert s.log + seen == s.log;
    }
    HandledLog(s, t);
  }

  lemma HandledLeaves(s: State)
    requires |s.stdout| > 0
    ensures var v := Handled(s); v.reader == s.reader && v.stdout == s.stdout[1..] && (v.slotOpen ==> s.slotOpen)
  {
    hide Handled, Sighting;
    HandledEffect(s);
  }

  lemma SightingShows(line: Line, asked: map<RequestId, Turn>)
    ensures |Sighting(line, asked)| <= 1
    ensures forall o <- Sighting(line, asked) :: o.AckRead? || (line.ResultLine? && o == ResultRead(line.frame))
  {
  }

  /** After the sighting, handling adds at most one observation, of an event or of a closing. */
  lemma HandledLog(s: State, t: Turn)
    requires |s.stdout| > 0 && InProgress(s.log + Sighting(s.stdout[0], s.book.asked), t)
    ensures InProgress(Handled(s).log, t)
  {
    hide Handled, Sighting, InProgress;
    HandledEffect(s);
    var log := s.log + Sighting(s.stdout[0], s.book.asked);
    if HandlingSees(s) != [] {
      var o := HandlingSees(s)[0];
      assert HandlingSees(s) == [o] && (o.Closed? || o.Forwarded?);
      Push(log, o);
    } else {
      assert log + [] == log;
    }
  }

  lemma {:induction false} DrainsClosed(s: State, t: Turn) returns (more: seq<Action>)
    requires s.reader.Waiting? && !s.slotOpen && InProgress(s.log, t) && t !in ResultTurns(s.stdout)
    ensures Possible(s, more) && Own(BeginClear) !in more
    ensures var v := Run(s, more); v.reader.Waiting? && v.stdout == [] && !v.slotOpen && InProgress(v.log, t)
    decreases |s.stdout|
  {
    if s.stdout == [] {
      more := [];
    } else {
      HandleRuns(s);
      NoBeginInHandling(s);
      HandledStaysLost(s, t);
      hide Handled, HandleScript, InProgress, ResultTurns;
      var rest := DrainsClosed(Handled(s), t);
      RunAppend(s, HandleScript(s), rest);
      more := HandleScript(s) + rest;
    }
  }

  // ------------------------------------------------------------- begun too soon

  /** Turn t is in progress and its result line has not been written. */
  predicate Running(s: State, t: Turn) {
    InProgress(s.log, t) && t !in ResultTurns(s.stdout) && t !in s.owed
  }

  lemma ReadingKeepsRunning(s: State, a: Action, t: Turn)
    requires Running(s, t) && ReadsOn(a) && Enabled(s, a)
    ensures Running(Step(s, a), t)
  {
    match a
    case Read(read) =>
      ReaderLeaves(s, read);
      ReaderOutput(s, read);
      ReadingIsSeen(s, read, t);
    case Remote(remote) => ResultTurnsAppend(s.stdout, remote.line);
  }

  lemma ReadingIsSeen(s: State, a: ReaderAction, t: Turn)
    requires Running(s, t) && ReaderEnabled(s, a) && !a.ReadEof?
    ensures InProgress(s.log + ReaderSees(s, a), t)
    ensures a.ReadLine? ==> t !in ResultTurns(s.stdout[1..])
  {
    var seen := ReaderSees(s, a);
    if a.ReadLine? && s.stdout[0].ResultLine? {
      assert ResultTurns(s.stdout)[0] == s.stdout[0].frame.turn;
    }
    if seen != [] {
      assert seen == [seen[0]];
      Push(s.log, seen[0]);
    } else {
      assert s.log + seen == s.log;
    }
  }

  lemma {:induction false} ReadingOnKeepsRunning(s: State, actions: seq<Action>, t: Turn)
    requires Running(s, t) && Possible(s, actions) && forall a <- actions :: ReadsOn(a)
    ensures Running(Run(s, actions), t)
    decreases |actions|
  {
    if actions != [] {
      assert actions[0] in actions && forall a <- actions[1..] :: a in actions;
      ReadingKeepsRunning(s, actions[0], t);
      ReadingOnKeepsRunning(Step(s, actions[0]), actions[1..], t);
    }
  }

  lemma OpenedIsInProgress(log: seq<Observation>, t: Turn)
    requires !ResultSeen(log, t) && Aborted(t) !in log
    ensures InProgress(log + [Opened(t)], t)
  {
    Push(log, Opened(t));
  }

  lemma EnteredIsRunning(s: State, d: Digest)
    requires Tidy(s, d) && Alive(s) && OwnerEnabled(s, BeginClear) && Unloaded(s) && s.active == 0
    ensures Possible(s, ENTERING) && Running(Run(s, ENTERING), s.generation + 1)
    ensures var u := Run(s, ENTERING);
      && Coming(u) == [s.generation] && Alive(u) && u.slotTurn == u.generation == s.generation + 1
      && (HasLoaded(u.reader) ==> u.reader.generation != u.slotTurn)
  {
    hide Tidy, Run, Possible, ResultTurns, Coming, ENTERING, InProgress, ResultSeen, HasLoaded, EndedAfter, Unloaded;
    TooSoon(s, d);
    EnteringRuns(s);
    OpenedIsInProgress(s.log, s.generation + 1);
    ComingHolds(Run(s, ENTERING), s.generation + 1);
  }

  lemma ComingHolds(s: State, t: Turn)
    ensures t !in Coming(s) ==> t !in ResultTurns(s.stdout) && t !in s.owed
  {
  }

  lemma FinishedIsLost(v: State, t: Turn)
    requires v.reader.Loaded? && v.reader.line.ResultLine? && v.reader.generation == v.slotTurn == t && Running(v, t)
    ensures Possible(v, FINISHING)
    ensures var w := Run(v, FINISHING);
      w.reader.Waiting? && !w.slotOpen && InProgress(w.log, t) && t !in ResultTurns(w.stdout)
  {
    FinishingRuns(v);
    Push(v.log, Closed(t));
    ReadingOnKeepsRunning(v, FINISHING, t);
  }

  /** A turn that is let in too soon loses its channel to the previous result, and then its events. */
  lemma EnteredMisdelivers(s: State, d: Digest) returns (more: seq<Action>)
    requires Tidy(s, d) && Alive(s) && OwnerEnabled(s, BeginClear) && Unloaded(s) && s.active == 0
    ensures Possible(s, ENTERING + more) && Misdelivers(Run(s, ENTERING + more)) && Own(BeginClear) !in more
  {
    hide Tidy, Running, InProgress, Coming, ResultTurns, ENTERING, FINISHING, Run, Possible, HasLoaded, Unloaded, Exact,
         Misdelivers;
    EnteredIsRunning(s, d);
    var u, t := Run(s, ENTERING), s.generation + 1;
    var path := ResultGetsLoaded(u);
    ReadingOnKeepsRunning(u, path, t);
    var v := Run(u, path);
    FinishedIsLost(v, t);
    var w := Run(v, FINISHING);
    var drain := DrainsClosed(w, t);
    var flood := FloodsClosed(Run(w, drain), t);
    RunAppend(w, drain, flood);
    RunAppend(v, FINISHING, drain + flood);
    RunAppend(u, path, FINISHING + (drain + flood));
    more := path + (FINISHING + (drain + flood));
    RunAppend(s, ENTERING, more);
    NoBeginInFinishing();
    MisdeliversIs(Run(s, ENTERING + more), t);
  }

  lemma NoBeginInFinishing()
    ensures Own(BeginClear) !in FINISHING
  {
  }

  lemma MisdeliversIs(s: State, t: Turn)
    requires !Exact(s, t)
    ensures Misdelivers(s)
  {
  }

  /** A turn whose channel is left open by a refused begin goes on to receive what is not its own. */
  lemma RefusedMisdelivers(s: State, d: Digest) returns (more: seq<Action>)
    requires Tidy(s, d) && Alive(s) && OwnerEnabled(s, BeginClear) && Unloaded(s) && s.active != 0
    ensures Possible(s, BeginScript(s) + more) && Misdelivers(Run(s, BeginScript(s) + more)) && Own(BeginClear) !in more
  {
    var path := RefusedTooSoon(s, d);
    hide Tidy, BeginScript, Stalled;
    var w, t := Run(s, BeginScript(s) + path), s.generation;
    var drain := DrainsOpen(w, t);
    var v := Run(w, drain);
    StalledIsOpen(v, t);
    var flood := FloodsOpen(v, t);
    RunAppend(w, drain, flood);
    RunAppend(s, BeginScript(s) + path, drain + flood);
    more := path + (drain + flood);
    assert BeginScript(s) + path + (drain + flood) == BeginScript(s) + more;
    MisdeliversIs(Run(s, BeginScript(s) + more), t);
  }

  lemma StalledIsOpen(s: State, t: Turn)
    requires Stalled(s, t)
    ensures s.slotOpen && s.slotTurn == t
  {
  }

  lemma TooSoonMisdelivers(s: State, d: Digest)
    requires Tidy(s, d) && Alive(s) && OwnerEnabled(s, BeginClear) && Unloaded(s)
    ensures CanMisdeliver(Step(s, Own(BeginClear)))
  {
    hide Tidy, Misdelivers;
    var start, more;
    if s.active != 0 {
      more := RefusedMisdelivers(s, d);
      start := BeginScript(s);
    } else {
      more := EnteredMisdelivers(s, d);
      start := ENTERING;
    }
    var script := start + more;
    assert script[0] == Own(BeginClear) && Own(BeginClear) !in script[1..] by {
      assert script[1..] == start[1..] + more;
    }
    OrderlyBetweenBegins(Step(s, Own(BeginClear)), script[1..]);
  }

  lemma InTimeDelivers(actions: seq<Action>, more: seq<Action>)
    requires Orderly(INITIAL, actions) && Possible(INITIAL, actions)
    requires var s := Run(INITIAL, actions);
      OwnerEnabled(s, BeginClear) && !Unloaded(s) && Orderly(Step(s, Own(BeginClear)), more)
      && Possible(Step(s, Own(BeginClear)), more)
    ensures !Misdelivers(Run(Step(Run(INITIAL, actions), Own(BeginClear)), more))
  {
    var s := Run(INITIAL, actions);
    var rest := [Own(BeginClear)] + more;
    assert rest[0] == Own(BeginClear) && rest[1..] == more;
    OrderlyIsPossible(s, rest);
    OrderlyAppend(INITIAL, actions, rest);
    RunAppend(INITIAL, actions, rest);
    forall t ensures Exact(Run(INITIAL, actions + rest), t) {
      DeliveriesAreExact(actions + rest, t);
    }
  }

  /**
   From any state of an orderly run whose reader lives, beginning a turn can lead to an event being lost, or delivered
   on a channel it does not belong to, if and only if the generation for the open channel's result has not been loaded.
   */
  lemma DeliveriesFailExactlyWhenBegunTooSoon(actions: seq<Action>)
    requires Orderly(INITIAL, actions)
    ensures Possible(INITIAL, actions)
    ensures var s := Run(INITIAL, actions);
      Alive(s) && OwnerEnabled(s, BeginClear) ==> (CanMisdeliver(Step(s, Own(BeginClear))) <==> Unloaded(s))
  {
    var d := RunIsTidy(actions);
    var s := Run(INITIAL, actions);
    hide Tidy, Misdelivers;
    if Alive(s) && OwnerEnabled(s, BeginClear) {
      if Unloaded(s) {
        TooSoonMisdelivers(s, d);
      } else {
        forall more | Orderly(Step(s, Own(BeginClear)), more) && Possible(Step(s, Own(BeginClear)), more)
          ensures !Misdelivers(Run(Step(s, Own(BeginClear)), more))
        {
          InTimeDelivers(actions, more);
        }
      }
    }
  }
}
