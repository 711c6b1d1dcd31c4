/** The promises of the Claude pool over whole runs that keep the caller discipline. */
module ClaudePoolTheorems {
  import opened Wrappers
  import opened ClaudePool
  import opened ClaudePoolSpec
  import opened ClaudePoolInvariant

  // --------------------------------------------- the digest speaks for the log

  ghost predicate Speaks(d: Digest, log: seq<Observation>) {
    && (forall t :: t in d.acked <==> AckedInTime(log, t))
    && (forall t :: t in d.answered <==> ResultSeen(log, t))
    && (forall t :: t in d.taken <==> TookSeen(log, t))
    && (forall t :: t in d.registered <==> Opened(t) in log)
    && (forall t :: t in d.aborted <==> Aborted(t) in log)
    && (forall t :: t in d.ended <==> EndedAfter(log, t))
    && (forall f :: f in d.frames <==> ResultRead(f) in log)
  }

  lemma AbsorbSpeaks(d: Digest, log: seq<Observation>, o: Observation)
    requires Speaks(d, log)
    ensures Speaks(Absorb(d, o), log + [o])
  {
    Push(log, o);
    forall t ensures EndedAfter(log + [o], t) <==> EndedAfter(log, t) || (o.EndOfOutput? && Opened(t) in log) {
      PushEnd(log, o, t);
    }
  }

  ghost predicate VerdictsRight(log: seq<Observation>) {
    forall k :: 0 <= k < |log| && log[k].Took? ==> VerdictIsRight(log[..k], log[k])
  }

  /** What holds of every state of every disciplined run. */
  ghost predicate Good(s: State, d: Digest) {
    Inv(s, d) && Speaks(d, s.log) && VerdictsRight(s.log)
  }

  lemma VerdictsGrow(log: seq<Observation>, o: Observation)
    requires VerdictsRight(log) && (o.Took? ==> VerdictIsRight(log, o))
    ensures VerdictsRight(log + [o])
  {
    var more := log + [o];
    forall k | 0 <= k < |more| && more[k].Took?
      ensures VerdictIsRight(more[..k], more[k])
    {
      assert more[..k] == log[..k];
      assert log[..|log|] == log;
    }
  }

  /** The one step that labels a result labels it right. */
  lemma JudgeIsRight(s: State, d: Digest)
    requires Frames(s, d) && Labels(s, d) && Bounds(s, d) && Speaks(d, s.log) && OwnerEnabled(s, TakeJudge)
    ensures VerdictIsRight(s.log, OwnerSees(s, TakeJudge)[0])
  {
    assert Held(s) == Some(s.owner.frame);
  }

  lemma OwnerKeepsGood(s: State, a: OwnerAction, d: Digest)
    requires Good(s, d) && OwnerEnabled(s, a) && Disciplined(s, Own(a))
    ensures Good(OwnerStep(s, a), After(d, OwnerSees(s, a)))
  {
    hide Requests, Askers, Results, Bounds, Markers, Labels, Channels, Frames, Path, Speaks;
    OwnerKeepsInv(s, a, d);
    OwnerLeaves(s, a);
    var seen := OwnerSees(s, a);
    if seen == [] {
      assert s.log + seen == s.log;
    } else {
      AbsorbSpeaks(d, s.log, seen[0]);
      Push(s.log, seen[0]);
      if a.TakeJudge? {
        JudgeIsRight(s, d);
      }
      VerdictsGrow(s.log, seen[0]);
    }
  }

  lemma ReaderKeepsGood(s: State, a: ReaderAction, d: Digest)
    requires Good(s, d) && ReaderEnabled(s, a)
    ensures Good(ReaderStep(s, a), After(d, ReaderSees(s, a)))
  {
    ReaderKeepsInv(s, a, d);
    var seen := ReaderSees(s, a);
    if seen == [] {
      assert s.log + seen == s.log;
    } else {
      assert seen == [seen[0]];
      AbsorbSpeaks(d, s.log, seen[0]);
      VerdictsGrow(s.log, seen[0]);
    }
  }

  lemma StepKeepsGood(s: State, a: Action, d: Digest)
    requires Good(s, d) && Enabled(s, a) && Disciplined(s, a)
    ensures Good(Step(s, a), Digested(s, a, d))
  {
    match a
    case Own(own) => OwnerKeepsGood(s, own, d);
    case Ask(c, ask) => AskerKeepsInv(s, c, ask, d);
    case Read(read) => ReaderKeepsGood(s, read, d);
    case Remote(remote) => RemoteKeepsInv(s, remote, d);
  }

  lemma LegalIsPossible(s: State, actions: seq<Action>)
    requires Legal(s, actions)
    ensures Possible(s, actions)
    decreases |actions|
  {
    if actions != [] {
      LegalIsPossible(Step(s, actions[0]), actions[1..]);
    }
  }

  lemma RunKeepsGood(s: State, actions: seq<Action>, d: Digest) returns (d': Digest)
    requires Good(s, d) && Legal(s, actions)
    ensures Possible(s, actions) && Good(Run(s, actions), d')
    decreases |actions|
  {
    LegalIsPossible(s, actions);
    if actions == [] {
      d' := d;
    } else {
      StepKeepsGood(s, actions[0], d);
      d' := RunKeepsGood(Step(s, actions[0]), actions[1..], Digested(s, actions[0], d));
    }
  }

  lemma RunIsGood(actions: seq<Action>) returns (d: Digest)
    requires Legal(INITIAL, actions)
    ensures Possible(INITIAL, actions) && Good(Run(INITIAL, actions), d)
  {
    InitialInv();
    assert Good(INITIAL, NOTHING) by {
      assert INITIAL.log == [];
      assert Speaks(NOTHING, []);
    }
    d := RunKeepsGood(INITIAL, actions, NOTHING);
  }

  // ------------------------------------------------------------ the main results

  /**
   In every disciplined run, the result taken for turn t answers t's own message, and it is reported as interrupted
   exactly when it is not a success and an interrupt issued during t was acknowledged before t's result line.
   */
  lemma VerdictsAreRight(actions: seq<Action>, k: nat)
    requires Legal(INITIAL, actions)
    ensures Possible(INITIAL, actions)
    ensures var log := Run(INITIAL, actions).log; k < |log| && log[k].Took? ==> VerdictIsRight(log[..k], log[k])
  {
    var d := RunIsGood(actions);
  }

  /**
   The channel of a turn that was not aborted closes only after its result line was read, after the output ended, or
   by the removal of the handle once the reader is gone; and if its result was read the handle holds it until the
   owner takes it or begins again.
   */
  lemma ClosedChannelHasItsResult(actions: seq<Action>, t: Turn)
    requires Legal(INITIAL, actions)
    ensures Possible(INITIAL, actions)
    ensures var s := Run(INITIAL, actions);
      Opened(t) in s.log && Aborted(t) !in s.log && !InSlot(s, t) ==>
        && (ResultSeen(s.log, t) || EndedAfter(s.log, t) || (!s.pooled && s.reader.Gone?))
        && (ResultSeen(s.log, t) && t == s.generation && !Beginning(s.owner) && !TookSeen(s.log, t) ==>
              Held(s).Some? && Held(s).value.turn == t && ResultRead(Held(s).value) in s.log)
  {
    var d := RunIsGood(actions);
    var s := Run(INITIAL, actions);
    CurrentResult(s);
    assert t in Unfinished(d) <==> InProgress(s.log, t) && !EndedAfter(s.log, t);
  }

  /** The turn of the acknowledgement a reader step acts on, if it acts on one. */
  function AckOf(s: State, a: ReaderAction): Turn
    requires ReaderEnabled(s, a)
  {
    match a
    case AckSwap => s.reader.turn
    case AckStore => s.reader.turn
    case RemoveWaiter => AckTurn(s)
    case _ => 0
  }

  /** Every request names a turn. */
  predicate NamesTurns(b: Book) {
    && (forall id <- b.waiters :: b.waiters[id] >= 1)
    && (forall c <- b.askers :: b.askers[c].Seen? || b.askers[c].Reserved? ==> b.askers[c].turn >= 1)
  }

  /** In every run the markers only ever move on to later turns. */
  predicate Ordered(s: State) {
    && NamesTurns(s.book) && (s.reader.Acking? ==> s.reader.turn >= 1)
    && s.active <= Newest(s) && s.interrupted <= Newest(s)
    && (s.owner.Numbered? ==> s.owner.turn == s.generation >= 1)
    && (s.active != 0 ==> s.interrupted < s.active)
    && (s.reader.Acked? ==>
          s.interrupted < s.reader.turn <= Newest(s) && (s.active != 0 ==> s.reader.turn < s.active))
  }

  lemma OwnerKeepsOrdered(s: State, a: OwnerAction)
    requires Ordered(s) && OwnerEnabled(s, a)
    ensures Ordered(OwnerStep(s, a))
  {
    hide OwnerStep;
    OwnerEffect(s, OwnerStep(s, a), a);
  }

  lemma AskerKeepsOrdered(s: State, c: CallerId, a: AskerAction)
    requires Ordered(s) && AskerEnabled(s, c, a)
    ensures Ordered(AskerStep(s, c, a))
  {
  }

  lemma ReaderKeepsOrdered(s: State, a: ReaderAction)
    requires Ordered(s) && ReaderEnabled(s, a)
    ensures Ordered(ReaderStep(s, a))
  {
    hide ReaderStep;
    ReaderEffect(s, ReaderStep(s, a), a);
  }

  lemma {:induction false} RunKeepsOrdered(s: State, actions: seq<Action>)
    requires Ordered(s) && Possible(s, actions)
    ensures Ordered(Run(s, actions))
    decreases |actions|
  {
    if actions != [] {
      StepKeepsOrdered(s, actions[0]);
      RunKeepsOrdered(Step(s, actions[0]), actions[1..]);
    }
  }

  lemma StepKeepsOrdered(s: State, a: Action)
    requires Ordered(s) && Enabled(s, a)
    ensures Ordered(Step(s, a))
  {
    hide OwnerStep, AskerStep, ReaderStep, RemoteStep;
    match a
    case Own(own) => OwnerKeepsOrdered(s, own);
    case Ask(c, ask) => AskerKeepsOrdered(s, c, ask);
    case Read(read) => ReaderKeepsOrdered(s, read);
    case Remote(remote) => RemoteEffect(s, Step(s, a), remote);
  }

  lemma LateAckMoves(s: State, a: ReaderAction, t: Turn)
    requires Ordered(s) && ReaderEnabled(s, a) && 0 < AckOf(s, a) < s.generation <= t
    ensures ReaderStep(s, a).active == t <==> s.active == t
    ensures ReaderStep(s, a).interrupted == t <==> s.interrupted == t
  {
    hide ReaderStep;
    ReaderEffect(s, ReaderStep(s, a), a);
  }

  lemma LateAckHere(s: State, d: Digest, a: ReaderAction)
    requires Requests(s) && Results(s) && Markers(s, d) && ReaderEnabled(s, a) && 0 < AckOf(s, a) < s.generation
    ensures ReaderStep(s, a).active == s.active
  {
    hide Ahead, ResultTurns, Mentions, AnswersDistinct;
  }

  /**
   In every run, an acknowledgement of a request issued in an earlier turn, however late, changes neither marker
   for the current turn or for any turn still to come; in a disciplined run it leaves the active marker alone.
   */
  lemma LateAckIsHarmless(actions: seq<Action>, a: ReaderAction, t: Turn)
    requires Possible(INITIAL, actions)
    ensures var s := Run(INITIAL, actions);
      ReaderEnabled(s, a) && 0 < AckOf(s, a) < s.generation <= t ==>
        && (ReaderStep(s, a).active == t <==> s.active == t)
        && (ReaderStep(s, a).interrupted == t <==> s.interrupted == t)
        && (Legal(INITIAL, actions) ==> ReaderStep(s, a).active == s.active)
  {
    hide Requests, Results, Markers, AckOf, ReaderStep;
    var s := Run(INITIAL, actions);
    if ReaderEnabled(s, a) && 0 < AckOf(s, a) < s.generation <= t {
      RunKeepsOrdered(INITIAL, actions);
      LateAckMoves(s, a, t);
      if Legal(INITIAL, actions) {
        var d := RunIsGood(actions);
        LateAckHere(s, d, a);
      }
    }
  }
}
