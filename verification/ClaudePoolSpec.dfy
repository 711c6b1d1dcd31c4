/**
 What the pool promises, said about the observations of a run alone:
 which turns were interrupted in time, and which progress events belong to a turn.
 */
module ClaudePoolSpec {
  import opened Wrappers
  import opened ClaudePool

  predicate ResultSeen(log: seq<Observation>, t: Turn) {
    exists k :: 0 <= k < |log| && log[k].ResultRead? && log[k].frame.turn == t
  }

  predicate TookSeen(log: seq<Observation>, t: Turn) {
    exists k :: 0 <= k < |log| && log[k].Took? && log[k].turn == t
  }

  /** An acknowledgement of a request issued during `t` was read before `t`'s result line. */
  predicate AckedInTime(log: seq<Observation>, t: Turn) {
    exists k :: 0 <= k < |log| && log[k].AckRead? && log[k].turn == t && !ResultSeen(log[..k], t)
  }

  /** `t`'s channel was registered and its result line has not been read. */
  predicate InProgress(log: seq<Observation>, t: Turn) {
    Opened(t) in log && Aborted(t) !in log && !ResultSeen(log, t)
  }

  /** The output ended after `t`'s channel was registered. */
  predicate EndedAfter(log: seq<Observation>, t: Turn) {
    exists k :: 0 <= k < |log| && log[k].EndOfOutput? && Opened(t) in log[..k]
  }

  /** The progress lines the reader took up between the registration of `t`'s channel and `t`'s result line. */
  function EventsOf(log: seq<Observation>, t: Turn): seq<string> {
    if log == [] then []
    else
      var before, last := log[..|log| - 1], log[|log| - 1];
      EventsOf(before, t) + if last.Forwarded? && InProgress(before, t) then [last.event] else []
  }

  /** What was sent on `t`'s channel. */
  function Delivered(sent: seq<(Turn, string)>, t: Turn): seq<string> {
    if sent == [] then []
    else
      var before, last := sent[..|sent| - 1], sent[|sent| - 1];
      Delivered(before, t) + if last.0 == t then [last.1] else []
  }

  /** The reading of a taken result that the protocol promises. */
  predicate VerdictIsRight(before: seq<Observation>, took: Observation)
    requires took.Took?
  {
    && took.frame.turn == took.turn
    && ResultRead(took.frame) in before
    && (took.verdict == Succeeded <==> took.frame.success)
    && (took.verdict == Interrupted <==> !took.frame.success && AckedInTime(before, took.turn))
  }

  lemma PushSeen(log: seq<Observation>, o: Observation, t: Turn)
    ensures ResultSeen(log + [o], t) <==> ResultSeen(log, t) || (o.ResultRead? && o.frame.turn == t)
    ensures TookSeen(log + [o], t) <==> TookSeen(log, t) || (o.Took? && o.turn == t)
  {
    var more := log + [o];
    assert more[|log|] == o;
    if ResultSeen(log, t) {
      var k :| 0 <= k < |log| && log[k].ResultRead? && log[k].frame.turn == t;
      assert more[k].ResultRead?;
    }
    if TookSeen(log, t) {
      var k :| 0 <= k < |log| && log[k].Took? && log[k].turn == t;
      assert more[k].Took?;
    }
  }

  lemma PushAck(log: seq<Observation>, o: Observation, t: Turn)
    ensures AckedInTime(log + [o], t) <==> AckedInTime(log, t) || (o.AckRead? && o.turn == t && !ResultSeen(log, t))
  {
    hide ResultSeen;
    var more := log + [o];
    assert more[..|log|] == log && more[|log|] == o;
    assert forall k :: 0 <= k < |log| ==> more[k] == log[k] && more[..k] == log[..k];
    if AckedInTime(log, t) {
      var k :| 0 <= k < |log| && log[k].AckRead? && log[k].turn == t && !ResultSeen(log[..k], t);
      assert more[k].AckRead? && !ResultSeen(more[..k], t);
    }
    if AckedInTime(more, t) {
      var k :| 0 <= k < |more| && more[k].AckRead? && more[k].turn == t && !ResultSeen(more[..k], t);
      assert k < |log| ==> log[k].AckRead? && !ResultSeen(log[..k], t);
    }
  }

  lemma PushEnd(log: seq<Observation>, o: Observation, t: Turn)
    ensures EndedAfter(log + [o], t) <==> EndedAfter(log, t) || (o.EndOfOutput? && Opened(t) in log)
  {
    var more := log + [o];
    assert more[..|log|] == log && more[|log|] == o;
    assert forall k :: 0 <= k < |log| ==> more[k] == log[k] && more[..k] == log[..k];
    if EndedAfter(log, t) {
      var k :| 0 <= k < |log| && log[k].EndOfOutput? && Opened(t) in log[..k];
      assert more[k].EndOfOutput? && Opened(t) in more[..k];
    }
  }

  lemma PushEvents(log: seq<Observation>, o: Observation, t: Turn)
    ensures EventsOf(log + [o], t) == EventsOf(log, t) + if o.Forwarded? && InProgress(log, t) then [o.event] else []
  {
    hide InProgress;
    var more := log + [o];
    assert more[..|log|] == log && more[|log|] == o;
  }

  /** One more observation changes the observers in the expected way. */
  lemma Push(log: seq<Observation>, o: Observation)
    ensures forall t :: ResultSeen(log + [o], t) <==> ResultSeen(log, t) || (o.ResultRead? && o.frame.turn == t)
    ensures forall t :: TookSeen(log + [o], t) <==> TookSeen(log, t) || (o.Took? && o.turn == t)
    ensures forall t :: AckedInTime(log + [o], t)
                   <==> AckedInTime(log, t) || (o.AckRead? && o.turn == t && !ResultSeen(log, t))
    ensures forall t :: InProgress(log + [o], t)
                   <==> (InProgress(log, t) || (o == Opened(t) && Aborted(t) !in log && !ResultSeen(log, t)))
                        && o != Aborted(t) && !(o.ResultRead? && o.frame.turn == t)
    ensures forall t :: EventsOf(log + [o], t)
                     == EventsOf(log, t) + if o.Forwarded? && InProgress(log, t) then [o.event] else []
  {
    hide ResultSeen, TookSeen, AckedInTime, EventsOf;
    forall t
      ensures ResultSeen(log + [o], t) <==> ResultSeen(log, t) || (o.ResultRead? && o.frame.turn == t)
      ensures TookSeen(log + [o], t) <==> TookSeen(log, t) || (o.Took? && o.turn == t)
    {
      PushSeen(log, o, t);
    }
    forall t
      ensures AckedInTime(log + [o], t) <==> AckedInTime(log, t) || (o.AckRead? && o.turn == t && !ResultSeen(log, t))
    {
      PushAck(log, o, t);
    }
    forall t
      ensures EventsOf(log + [o], t)
           == EventsOf(log, t) + if o.Forwarded? && InProgress(log, t) then [o.event] else []
    {
      PushEvents(log, o, t);
    }
  }

  lemma PushDelivered(sent: seq<(Turn, string)>, d: (Turn, string))
    ensures forall t :: Delivered(sent + [d], t) == Delivered(sent, t) + if d.0 == t then [d.1] else []
  {
    assert (sent + [d])[..|sent|] == sent;
  }
}
