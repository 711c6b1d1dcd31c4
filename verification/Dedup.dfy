/** The message deduplicator: a deque of recently accepted identifiers, bounded in size and age. */
module Dedup {

  type Instant = int

  /** An accepted message: its identifier and when it was accepted. */
  datatype Entry = Entry(id: string, at: Instant)

  /** The limits; a deque of maximum size zero still holds the message just pushed. */
  datatype Limits = Limits(maxSize: nat, ttl: nat) {
    function Capacity(): nat { if maxSize == 0 then 1 else maxSize }
  }

  // ------------------------------------------------- the window, from the whole history

  predicate Live(l: Limits, e: Entry, now: Instant) { now - e.at <= l.ttl }

  /** Where the window begins: among the last entries, after those too old. */
  function Start(l: Limits, accepted: seq<Entry>, now: Instant): (k: nat)
    ensures k <= |accepted| <= k + l.Capacity()
  {
    SkipOld(l, accepted, now, if |accepted| > l.Capacity() then |accepted| - l.Capacity() else 0)
  }

  function SkipOld(l: Limits, accepted: seq<Entry>, now: Instant, k: nat): (r: nat)
    requires k <= |accepted|
    ensures k <= r <= |accepted|
    decreases |accepted| - k
  {
    if k == |accepted| || Live(l, accepted[k], now) then k else SkipOld(l, accepted, now, k + 1)
  }

  /** The last accepted messages that are still young enough. */
  function Window(l: Limits, accepted: seq<Entry>, now: Instant): seq<Entry> {
    accepted[Start(l, accepted, now)..]
  }

  predicate Knows(entries: seq<Entry>, id: string) { exists k :: 0 <= k < |entries| && entries[k].id == id }

  predicate Sorted(entries: seq<Entry>) {
    forall i, j :: 0 <= i <= j < |entries| ==> entries[i].at <= entries[j].at
  }

  /** Every entry was accepted at `now` or before. */
  predicate NotAfter(entries: seq<Entry>, now: Instant) {
    forall k :: 0 <= k < |entries| ==> entries[k].at <= now
  }

  lemma {:induction false} SkipOldSkips(l: Limits, accepted: seq<Entry>, now: Instant, k: nat)
    requires k <= |accepted|
    ensures var r := SkipOld(l, accepted, now, k);
      && (forall j :: k <= j < r ==> !Live(l, accepted[j], now))
      && (r < |accepted| ==> Live(l, accepted[r], now))
    decreases |accepted| - k
  {
    if k < |accepted| && !Live(l, accepted[k], now) {
      SkipOldSkips(l, accepted, now, k + 1);
    }
  }

  /** On a time-sorted history the window is exactly the entries that are recent in number and in age. */
  lemma WindowIsTheRecent(l: Limits, accepted: seq<Entry>, now: Instant, k: nat)
    requires Sorted(accepted) && k < |accepted|
    ensures Start(l, accepted, now) <= k <==> |accepted| - l.Capacity() <= k && Live(l, accepted[k], now)
  {
    var first := if |accepted| > l.Capacity() then |accepted| - l.Capacity() else 0;
    SkipOldSkips(l, accepted, now, first);
  }

  lemma WindowKnows(l: Limits, accepted: seq<Entry>, now: Instant, k: nat)
    requires k < |accepted|
    ensures Start(l, accepted, now) <= k ==> Knows(Window(l, accepted, now), accepted[k].id)
  {
    if Start(l, accepted, now) <= k {
      assert Window(l, accepted, now)[k - Start(l, accepted, now)] == accepted[k];
    }
  }

  lemma StartIsWhere(l: Limits, accepted: seq<Entry>, now: Instant, s: nat)
    requires Sorted(accepted) && s <= |accepted|
    requires forall k :: 0 <= k < |accepted| ==>
               (s <= k <==> |accepted| - l.Capacity() <= k && Live(l, accepted[k], now))
    ensures Start(l, accepted, now) == s
  {
    var start := Start(l, accepted, now);
    if start < |accepted| {
      WindowIsTheRecent(l, accepted, now, start);
      assert Live(l, accepted[start], now) && s <= start;
    }
    if s < |accepted| {
      WindowIsTheRecent(l, accepted, now, s);
      assert Live(l, accepted[s], now) && start <= s;
    }
  }

  /** Later the window is what is left of the earlier one after its old entries. */
  lemma WindowAges(l: Limits, accepted: seq<Entry>, now: Instant, later: Instant)
    requires Sorted(accepted) && now <= later
    ensures Start(l, accepted, now) <= Start(l, accepted, later)
    ensures Start(l, accepted, later) == SkipOld(l, accepted, later, Start(l, accepted, now))
  {
    var start := Start(l, accepted, now);
    var skipped := SkipOld(l, accepted, later, start);
    SkipOldSkips(l, accepted, later, start);
    forall k | 0 <= k < |accepted|
      ensures skipped <= k <==> |accepted| - l.Capacity() <= k && Live(l, accepted[k], later)
    {
      WindowIsTheRecent(l, accepted, now, k);
    }
    StartIsWhere(l, accepted, later, skipped);
  }

  lemma {:induction false} SkipOldIs(l: Limits, accepted: seq<Entry>, now: Instant, k: nat, r: nat)
    requires k <= r <= |accepted| && (forall j :: k <= j < r ==> !Live(l, accepted[j], now))
    requires r < |accepted| ==> Live(l, accepted[r], now)
    ensures SkipOld(l, accepted, now, k) == r
    decreases |accepted| - k
  {
    if k < r {
      SkipOldIs(l, accepted, now, k + 1, r);
    }
  }

  /** Accepting one more message drops the oldest entry of a full window. */
  lemma WindowShifts(l: Limits, accepted: seq<Entry>, id: string, now: Instant, stamp: Instant)
    requires Sorted(accepted) && NotAfter(accepted, stamp) && now <= stamp
    ensures var window := Window(l, accepted, now);
      Window(l, accepted + [Entry(id, stamp)], now) ==
      (if |window| >= l.maxSize && window != [] then window[1..] else window) + [Entry(id, stamp)]
    ensures Sorted(accepted + [Entry(id, stamp)]) && NotAfter(accepted + [Entry(id, stamp)], stamp)
  {
    var start, more := Start(l, accepted, now), accepted + [Entry(id, stamp)];
    var window := accepted[start..];
    var s := if |window| >= l.maxSize && window != [] then start + 1 else start;
    forall k | 0 <= k < |more|
      ensures s <= k <==> |more| - l.Capacity() <= k && Live(l, more[k], now)
    {
      if k < |accepted| { WindowIsTheRecent(l, accepted, now, k); }
    }
    StartIsWhere(l, more, now, s);
  }

  // ---------------------------------------------------------------------- the object

  /** Readings of a monotone clock, none before `latest`: one for each entry examined, and one for the entry added. */
  predicate Readings(readings: seq<Instant>, latest: Instant, n: nat) {
    && |readings| == n + 1 && latest <= readings[0]
    && forall i, j :: 0 <= i <= j <= n ==> readings[i] <= readings[j]
  }

  class MessageDeduplicator {
    var seen: seq<Entry>
    const limits: Limits
    ghost var accepted: seq<Entry>
    ghost var decided: Instant        // the reading the front entry was last judged by
    ghost var latest: Instant         // the last reading of the clock

    ghost predicate Valid()
      reads this
    {
      && Sorted(accepted) && NotAfter(accepted, latest) && decided <= latest
      && seen == Window(limits, accepted, decided)
    }

    constructor (limits: Limits, now: Instant)
      ensures Valid() && accepted == [] && latest == now && this.limits == limits
    {
      seen, accepted, decided, latest, this.limits := [], [], now, now, limits;
    }

    /** Every entry at the front is judged by a reading of its own; `used` counts them. */
    method EvictExpired(readings: seq<Instant>) returns (used: nat)
      requires Valid() && Readings(readings, latest, |seen|)
      modifies `seen, `decided, `latest
      ensures Valid() && used < |readings|
      ensures decided == latest == readings[if used == 0 then 0 else used - 1]
    {
      ghost var first, start: nat := Start(limits, accepted, decided), Start(limits, accepted, decided);
      used := 0;
      while seen != []
        invariant first <= start <= |accepted| && seen == accepted[start..]
        invariant used == start - first && used <= |old(seen)|
        invariant forall k :: first <= k < start ==> !Live(limits, accepted[k], readings[k - first])
        modifies `seen
        decreases |seen|
      {
        assert accepted[start..][1..] == accepted[start + 1..] && accepted[start] == seen[0];
        used := used + 1;
        if readings[used - 1] - seen[0].at <= limits.ttl {
          break;
        }
        seen := seen[1..];
        start := start + 1;
      }
      ghost var now := readings[if used == 0 then 0 else used - 1];
      assert forall k :: first <= k < start ==> !Live(limits, accepted[k], now);
      SkipOldIs(limits, accepted, now, first, start);
      WindowAges(limits, accepted, decided, now);
      decided, latest := now, now;
    }

    /** True when the message is new: no message with its identifier is in the window. */
    method Check(msgId: string, readings: seq<Instant>) returns (isNew: bool)
      requires Valid() && Readings(readings, latest, |seen|)
      modifies this
      ensures Valid() && decided in readings && latest in readings
      ensures isNew <==> !Knows(Window(limits, old(accepted), decided), msgId)
      ensures accepted == old(accepted) + if isNew then [Entry(msgId, latest)] else []
    {
      var used := EvictExpired(readings);
      for k := 0 to |seen|
        invariant forall j :: 0 <= j < k ==> seen[j].id != msgId
      {
        if seen[k].id == msgId {
          return false;
        }
      }
      var stamp := readings[used];
      WindowShifts(limits, accepted, msgId, decided, stamp);
      if |seen| >= limits.maxSize && seen != [] {
        seen := seen[1..];
      }
      seen := seen + [Entry(msgId, stamp)];
      accepted := accepted + [Entry(msgId, stamp)];
      latest := stamp;
      isNew := true;
    }
  }

  // ----------------------------------------------------------------------- whole runs

  /** A check: when its window was decided, and the reading its entry is stamped with if it is new. */
  datatype Request = Request(id: string, at: Instant, stamp: Instant)

  predicate Monotone(requests: seq<Request>) {
    && (forall i :: 0 <= i < |requests| ==> requests[i].at <= requests[i].stamp)
    && (forall i, j :: 0 <= i < j < |requests| ==> requests[i].stamp <= requests[j].at)
  }

  predicate IsDuplicate(l: Limits, accepted: seq<Entry>, r: Request) { Knows(Window(l, accepted, r.at), r.id) }

  /** What a deduplicator has accepted after a series of checks. */
  function Accepted(l: Limits, requests: seq<Request>): seq<Entry> {
    if requests == [] then []
    else
      var before, r := Accepted(l, requests[..|requests| - 1]), requests[|requests| - 1];
      if IsDuplicate(l, before, r) then before else before + [Entry(r.id, r.stamp)]
  }

  lemma {:induction false} AcceptedIsSorted(l: Limits, requests: seq<Request>, now: Instant)
    requires Monotone(requests) && (requests != [] ==> requests[|requests| - 1].stamp <= now)
    ensures Sorted(Accepted(l, requests)) && NotAfter(Accepted(l, requests), now)
  {
    if requests != [] {
      AcceptedIsSorted(l, requests[..|requests| - 1], requests[|requests| - 1].at);
    }
  }

  /** Two acceptances of one identifier are too many messages or too much time apart. */
  predicate FarApart(l: Limits, entries: seq<Entry>, i: nat, j: nat)
    requires i < j < |entries|
  {
    j - i > l.Capacity() || entries[j].at - entries[i].at > l.ttl
  }

  lemma {:induction false} RepeatsAreFarApart(l: Limits, requests: seq<Request>, i: nat, j: nat)
    requires Monotone(requests)
    requires i < j < |Accepted(l, requests)| && Accepted(l, requests)[i].id == Accepted(l, requests)[j].id
    ensures FarApart(l, Accepted(l, requests), i, j)
  {
    var rest, r := requests[..|requests| - 1], requests[|requests| - 1];
    var before := Accepted(l, rest);
    if j < |before| {
      RepeatsAreFarApart(l, rest, i, j);
    } else {
      AcceptedIsSorted(l, rest, r.at);
      WindowIsTheRecent(l, before, r.at, i);
      WindowKnows(l, before, r.at, i);
    }
  }

  /** The window never holds one identifier twice, is sorted by time, and is bounded. */
  lemma WindowsAreDistinct(l: Limits, requests: seq<Request>, now: Instant)
    requires Monotone(requests) && (requests != [] ==> requests[|requests| - 1].stamp <= now)
    ensures var w := Window(l, Accepted(l, requests), now);
      |w| <= l.Capacity() && Sorted(w) && forall i, j :: 0 <= i < j < |w| ==> w[i].id != w[j].id
  {
    var accepted := Accepted(l, requests);
    AcceptedIsSorted(l, requests, now);
    var start := Start(l, accepted, now);
    var w := Window(l, accepted, now);
    forall i, j | 0 <= i < j < |w| ensures w[i].id != w[j].id {
      if w[i].id == w[j].id {
        RepeatsAreFarApart(l, requests, start + i, start + j);
        WindowIsTheRecent(l, accepted, now, start + i);
      }
    }
  }

  /**
   A check is refused exactly when its identifier was accepted among the last messages and not too long ago; a message
   that is not refused, and no other, is added to those accepted.
   */
  lemma RefusedExactlyWhenRecent(l: Limits, requests: seq<Request>, r: Request)
    requires Monotone(requests + [r])
    ensures var accepted := Accepted(l, requests);
      IsDuplicate(l, accepted, r) <==>
      exists k :: 0 <= k < |accepted| && accepted[k].id == r.id
                  && |accepted| - k <= l.Capacity() && r.at - accepted[k].at <= l.ttl
    ensures var accepted := Accepted(l, requests);
      Accepted(l, requests + [r]) == accepted + if IsDuplicate(l, accepted, r) then [] else [Entry(r.id, r.stamp)]
  {
    var accepted := Accepted(l, requests);
    assert (requests + [r])[..|requests|] == requests && accepted + [] == accepted;
    assert forall k :: 0 <= k < |requests| ==> (requests + [r])[k] == requests[k];
    assert (requests + [r])[|requests|] == r;
    AcceptedIsSorted(l, requests, r.at);
    var start := Start(l, accepted, r.at);
    forall k | 0 <= k < |accepted|
      ensures start <= k <==> |accepted| - k <= l.Capacity() && r.at - accepted[k].at <= l.ttl
    {
      WindowIsTheRecent(l, accepted, r.at, k);
    }
    forall k | start <= k < |accepted| ensures accepted[k] == Window(l, accepted, r.at)[k - start] {
    }
  }
}
