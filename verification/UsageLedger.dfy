/**
 The usage ledger of the persistent Claude process: cumulative token counters become per-turn charges.
 Costs, which are floating point, are not part of this model.
 */
module UsageLedger {
  import opened Wrappers

  const MAX_U64: nat := 0xFFFF_FFFF_FFFF_FFFF

  type Count = x: nat | x <= MAX_U64

  /** A reading of the four token counters; any of them may be missing. */
  datatype Snapshot = Snapshot(
    prompt: Option<Count>,
    completion: Option<Count>,
    cacheCreation: Option<Count>,
    cacheRead: Option<Count>)

  datatype Field = Prompt | Completion | CacheCreation | CacheRead

  function Get(s: Snapshot, f: Field): Option<Count> {
    match f
    case Prompt => s.prompt
    case Completion => s.completion
    case CacheCreation => s.cacheCreation
    case CacheRead => s.cacheRead
  }

  /** A result frame: its per-turn usage, the cumulative usage per model, and whether the provider failed. */
  datatype Frame = Frame(usage: Snapshot, models: Option<seq<Snapshot>>, providerError: bool)

  /** What a turn is charged. */
  datatype Charge = Charge(usage: Snapshot, cached: Option<Count>, total: Option<Count>)

  // ------------------------------------------------------------------ summation

  function Sum(parts: seq<Option<Count>>): nat {
    if parts == [] then 0 else Sum(parts[..|parts| - 1]) + parts[|parts| - 1].UnwrapOr(0)
  }

  function Capped(n: nat): Count { if n <= MAX_U64 then n else MAX_U64 }

  /** `sum_tokens`: nothing if nothing is there, else the sum, saturating. */
  function SumOf(parts: seq<Option<Count>>): Option<Count> {
    if forall k :: 0 <= k < |parts| ==> parts[k] == None then None else Some(Capped(Sum(parts)))
  }

  method SumTokens(parts: seq<Option<Count>>) returns (r: Option<Count>)
    ensures r == SumOf(parts)
  {
    var total: Count := 0;
    var any := false;
    for k := 0 to |parts|
      invariant total == Capped(Sum(parts[..k]))
      invariant any <==> exists j :: 0 <= j < k && parts[j].Some?
    {
      assert parts[..k + 1][..k] == parts[..k];
      if parts[k].Some? {
        total := Capped(total + parts[k].value);
        any := true;
      }
    }
    assert parts[..|parts|] == parts;
    return if any then Some(total) else None;
  }

  function Column(models: seq<Snapshot>, f: Field): (parts: seq<Option<Count>>)
    ensures |parts| == |models| && forall k :: 0 <= k < |models| ==> parts[k] == Get(models[k], f)
  {
    seq(|models|, k requires 0 <= k < |models| => Get(models[k], f))
  }

  /** `cumulative_model_usage`: the counters summed over the models, if there are any models. */
  function CumulativeModelUsage(models: Option<seq<Snapshot>>): Option<Snapshot> {
    if models.None? || models.value == [] then None
    else
      Some(Snapshot(SumOf(Column(models.value, Prompt)), SumOf(Column(models.value, Completion)),
                    SumOf(Column(models.value, CacheCreation)), SumOf(Column(models.value, CacheRead))))
  }

  // -------------------------------------------------------------- one frame

  /** The cumulative reading a frame carries, or its per-turn usage when it carries none. */
  function Current(frame: Frame): Snapshot { CumulativeModelUsage(frame.models).UnwrapOr(frame.usage) }

  function Parts(s: Snapshot): seq<Option<Count>> { [s.prompt, s.cacheCreation, s.cacheRead, s.completion] }

  /** The provider failed and the frame reports no usage of its own. */
  predicate FailedWithoutUsage(frame: Frame) {
    frame.providerError && forall f :: Get(frame.usage, f).UnwrapOr(0) == 0
  }

  function UsageDelta(current: Option<Count>, previous: Option<Count>): Option<Count> {
    match current
    case None => None
    case Some(value) => if previous.Some? && value >= previous.value then Some(value - previous.value) else current
  }

  /** What one counter of a frame is charged against the baseline. */
  function ChargedField(previous: Option<Snapshot>, frame: Frame, f: Field): Option<Count> {
    if FailedWithoutUsage(frame) then Some(0)
    else if previous.Some? then UsageDelta(Get(Current(frame), f), Get(previous.value, f))
    else Get(Current(frame), f)
  }

  /** One counter of the baseline after a frame. */
  function BaselineField(previous: Option<Snapshot>, frame: Frame, f: Field): Option<Count> {
    if previous.None? then Get(Current(frame), f)
    else if FailedWithoutUsage(frame) || Get(Current(frame), f).None? then Get(previous.value, f)
    else Get(Current(frame), f)
  }

  function Assemble(g: Field -> Option<Count>): (s: Snapshot)
    ensures forall f :: Get(s, f) == g(f)
  {
    Snapshot(g(Prompt), g(Completion), g(CacheCreation), g(CacheRead))
  }

  function ChargeOf(previous: Option<Snapshot>, frame: Frame): Charge {
    var usage := Assemble(f => ChargedField(previous, frame, f));
    Charge(usage, usage.cacheRead, SumOf(Parts(usage)))
  }

  function BaselineAfter(previous: Option<Snapshot>, frame: Frame): Option<Snapshot> {
    Some(Assemble(f => BaselineField(previous, frame, f)))
  }

  lemma SumFour(a: Option<Count>, b: Option<Count>, c: Option<Count>, d: Option<Count>)
    ensures Sum([a, b, c, d]) == a.UnwrapOr(0) + b.UnwrapOr(0) + c.UnwrapOr(0) + d.UnwrapOr(0)
    ensures SumOf([a, b, c, d]).None? <==> a.None? && b.None? && c.None? && d.None?
  {
    var parts := [a, b, c, d];
    assert parts[..3] == [a, b, c] && [a, b, c][..2] == [a, b] && [a, b][..1] == [a];
    assert Sum([a]) == a.UnwrapOr(0);
    assert Sum([a, b]) == Sum([a]) + b.UnwrapOr(0);
    assert Sum([a, b, c]) == Sum([a, b]) + c.UnwrapOr(0);
    assert parts[0] == a && parts[1] == b && parts[2] == c && parts[3] == d;
  }

  lemma NoUsage(s: Snapshot)
    ensures SumOf([s.prompt, s.completion, s.cacheCreation, s.cacheRead]).UnwrapOr(0) == 0
       <==> forall f :: Get(s, f).UnwrapOr(0) == 0
  {
    SumFour(s.prompt, s.completion, s.cacheCreation, s.cacheRead);
    assert Get(s, Prompt) == s.prompt && Get(s, Completion) == s.completion;
    assert Get(s, CacheCreation) == s.cacheCreation && Get(s, CacheRead) == s.cacheRead;
  }

  class Ledger {
    /** The last cumulative snapshot of the process. */
    var previous: Option<Snapshot>

    constructor ()
      ensures previous == None
    {
      previous := None;
    }

    /** `normalize_claude_pool_usage`. */
    method Normalize(frame: Frame) returns (charge: Charge)
      modifies this
      ensures charge == ChargeOf(old(previous), frame)
      ensures previous == BaselineAfter(old(previous), frame)
    {
      var current := Current(frame);
      var own := frame.usage;
      var used := SumTokens([own.prompt, own.completion, own.cacheCreation, own.cacheRead]);
      var failed := frame.providerError && used.UnwrapOr(0) == 0;
      NoUsage(frame.usage);

      var usage: Snapshot;
      if failed {
        usage := Snapshot(Some(0), Some(0), Some(0), Some(0));
      } else if previous.Some? {
        var base := previous.value;
        usage := Snapshot(UsageDelta(current.prompt, base.prompt),
                          UsageDelta(current.completion, base.completion),
                          UsageDelta(current.cacheCreation, base.cacheCreation),
                          UsageDelta(current.cacheRead, base.cacheRead));
      } else {
        usage := current;
      }
      var total := SumTokens([usage.prompt, usage.cacheCreation, usage.cacheRead, usage.completion]);
      charge := Charge(usage, usage.cacheRead, total);

      if previous.Some? {
        if !failed {
          var base := previous.value;
          if current.prompt.Some? { base := base.(prompt := current.prompt); }
          if current.completion.Some? { base := base.(completion := current.completion); }
          if current.cacheCreation.Some? { base := base.(cacheCreation := current.cacheCreation); }
          if current.cacheRead.Some? { base := base.(cacheRead := current.cacheRead); }
          previous := Some(base);
        }
      } else {
        previous := Some(current);
      }
    }
  }

  // ------------------------------------------------- what a frame's fields amount to

  /** One more part: it is added, saturating, if it is there. */
  predicate AddsUp(total: Option<Count>, part: Option<Count>, more: Option<Count>) {
    && (part == None ==> more == total)
    && (part.Some? && total == None ==> more == part)
    && (part.Some? && total.Some? ==>
          more == Some(if total.value + part.value <= 0xFFFF_FFFF_FFFF_FFFF then total.value + part.value
                       else 0xFFFF_FFFF_FFFF_FFFF))
  }

  lemma SumOfMore(parts: seq<Option<Count>>, part: Option<Count>)
    ensures AddsUp(SumOf(parts), part, SumOf(parts + [part]))
  {
    var more := parts + [part];
    assert more[..|parts|] == parts && more[|parts|] == part;
    assert forall k :: 0 <= k < |parts| ==> more[k] == parts[k];
    if forall k :: 0 <= k < |parts| ==> parts[k] == None { NothingSums(parts); }
  }

  lemma NothingSums(parts: seq<Option<Count>>)
    requires forall k :: 0 <= k < |parts| ==> parts[k] == None
    ensures Sum(parts) == 0
  {
    if parts != [] { NothingSums(parts[..|parts| - 1]); }
  }

  lemma ColumnOfMore(models: seq<Snapshot>, m: Snapshot, f: Field)
    ensures Column(models + [m], f) == Column(models, f) + [Get(m, f)]
  {
  }

  /** What a process's first turn is charged when it did not fail. */
  function FirstCharge(own: Snapshot, models: Option<seq<Snapshot>>): Snapshot {
    ChargeOf(None, Frame(own, models, false)).usage
  }

  lemma FirstChargeIs(own: Snapshot, models: seq<Snapshot>)
    requires models != []
    ensures var c := FirstCharge(own, Some(models));
      && c.prompt == SumOf(Column(models, Prompt)) && c.completion == SumOf(Column(models, Completion))
      && c.cacheCreation == SumOf(Column(models, CacheCreation)) && c.cacheRead == SumOf(Column(models, CacheRead))
  {
    var c := FirstCharge(own, Some(models));
    assert Get(c, Prompt) == c.prompt && Get(c, Completion) == c.completion;
    assert Get(c, CacheCreation) == c.cacheCreation && Get(c, CacheRead) == c.cacheRead;
  }

  /**
   Without a report per model the first turn is charged the frame's own usage; with one model, what that model
   reports; and one model more adds what it reports, field by field, saturating.
   */
  lemma FirstTurnsAreChargedTheirModels(own: Snapshot, models: seq<Snapshot>, m: Snapshot)
    ensures FirstCharge(own, None) == FirstCharge(own, Some([])) == own
    ensures FirstCharge(own, Some([m])) == m
    ensures models != [] ==>
              var c, more := FirstCharge(own, Some(models)), FirstCharge(own, Some(models + [m]));
              && AddsUp(c.prompt, m.prompt, more.prompt)
              && AddsUp(c.completion, m.completion, more.completion)
              && AddsUp(c.cacheCreation, m.cacheCreation, more.cacheCreation)
              && AddsUp(c.cacheRead, m.cacheRead, more.cacheRead)
  {
    FirstChargeIs(own, [m]);
    forall f ensures SumOf(Column([m], f)) == Get(m, f) {
      ColumnOfMore([], m, f);
      SumOfMore([], Get(m, f));
      assert [] + [m] == [m] && [] + [Get(m, f)] == [Get(m, f)] && Column([], f) == [];
    }
    if models != [] {
      FirstChargeIs(own, models);
      FirstChargeIs(own, models + [m]);
      forall f ensures AddsUp(SumOf(Column(models, f)), Get(m, f), SumOf(Column(models + [m], f))) {
        ColumnOfMore(models, m, f);
        SumOfMore(Column(models, f), Get(m, f));
      }
      assert Get(m, Prompt) == m.prompt && Get(m, Completion) == m.completion;
      assert Get(m, CacheCreation) == m.cacheCreation && Get(m, CacheRead) == m.cacheRead;
    }
    var c := FirstCharge(own, None);
    assert forall f :: Get(c, f) == Get(own, f);
    assert Get(c, Prompt) == c.prompt && Get(c, Completion) == c.completion;
    assert Get(c, CacheCreation) == c.cacheCreation && Get(c, CacheRead) == c.cacheRead;
  }

  /** A field is charged to the first turn exactly if some model reports it. */
  lemma FirstTurnsAreChargedWhatIsReported(own: Snapshot, models: seq<Snapshot>)
    requires models != []
    ensures var c := FirstCharge(own, Some(models));
      && (c.prompt.Some? <==> exists k :: 0 <= k < |models| && models[k].prompt.Some?)
      && (c.completion.Some? <==> exists k :: 0 <= k < |models| && models[k].completion.Some?)
      && (c.cacheCreation.Some? <==> exists k :: 0 <= k < |models| && models[k].cacheCreation.Some?)
      && (c.cacheRead.Some? <==> exists k :: 0 <= k < |models| && models[k].cacheRead.Some?)
  {
    FirstChargeIs(own, models);
    assert forall k :: 0 <= k < |models| ==> Column(models, Prompt)[k] == models[k].prompt;
    assert forall k :: 0 <= k < |models| ==> Column(models, Completion)[k] == models[k].completion;
    assert forall k :: 0 <= k < |models| ==> Column(models, CacheCreation)[k] == models[k].cacheCreation;
    assert forall k :: 0 <= k < |models| ==> Column(models, CacheRead)[k] == models[k].cacheRead;
  }

  predicate MissingOrZero(count: Option<Count>) { count == None || count == Some(0) }

  /** Every counter of the usage is missing or zero. */
  predicate NothingUsed(s: Snapshot) {
    && MissingOrZero(s.prompt) && MissingOrZero(s.completion)
    && MissingOrZero(s.cacheCreation) && MissingOrZero(s.cacheRead)
  }

  /** A later turn's counter: what it rose by, or all of it if it fell or was not known before. */
  predicate Rises(before: Option<Count>, now: Option<Count>, charged: Option<Count>) {
    && (now == None ==> charged == None)
    && (now.Some? && (before == None || now.value < before.value) ==> charged == now)
    && (now.Some? && before.Some? && now.value >= before.value ==> charged == Some(now.value - before.value))
  }

  /** The charge of a later turn whose process reports one model. */
  lemma LaterTurnsAreChargedTheRise(base: Snapshot, own: Snapshot, m: Snapshot, failed: bool)
    ensures var c := ChargeOf(Some(base), Frame(own, Some([m]), failed)).usage;
      if failed && NothingUsed(own) then c == Snapshot(Some(0), Some(0), Some(0), Some(0))
      else
        && Rises(base.prompt, m.prompt, c.prompt) && Rises(base.completion, m.completion, c.completion)
        && Rises(base.cacheCreation, m.cacheCreation, c.cacheCreation)
        && Rises(base.cacheRead, m.cacheRead, c.cacheRead)
  {
    var frame := Frame(own, Some([m]), failed);
    var c := ChargeOf(Some(base), frame).usage;
    FailedIs(frame);
    FirstTurnsAreChargedTheirModels(own, [], m);
    assert Current(frame) == m by { FirstChargeIs(own, [m]); }
    assert Get(c, Prompt) == c.prompt && Get(c, Completion) == c.completion;
    assert Get(c, CacheCreation) == c.cacheCreation && Get(c, CacheRead) == c.cacheRead;
  }

  lemma FailedIs(frame: Frame)
    ensures FailedWithoutUsage(frame) <==> frame.providerError && NothingUsed(frame.usage)
  {
    var s := frame.usage;
    assert Get(s, Prompt) == s.prompt && Get(s, Completion) == s.completion;
    assert Get(s, CacheCreation) == s.cacheCreation && Get(s, CacheRead) == s.cacheRead;
  }

  /** A turn whose provider failed is charged zeros exactly if it used nothing; else as if it had not failed. */
  lemma FailedTurnsAreChargedWhatTheyUsed(previous: Option<Snapshot>, own: Snapshot, models: Option<seq<Snapshot>>)
    ensures var failed := ChargeOf(previous, Frame(own, models, true));
      var fine := ChargeOf(previous, Frame(own, models, false));
      if NothingUsed(own) then failed == Charge(Snapshot(Some(0), Some(0), Some(0), Some(0)), Some(0), Some(0))
      else failed == fine
  {
    var frame := Frame(own, models, true);
    FailedIs(frame);
    var c, fine := ChargeOf(previous, frame).usage, ChargeOf(previous, Frame(own, models, false)).usage;
    assert Get(c, Prompt) == c.prompt && Get(c, Completion) == c.completion;
    assert Get(c, CacheCreation) == c.cacheCreation && Get(c, CacheRead) == c.cacheRead;
    if NothingUsed(own) {
      SumFour(c.prompt, c.cacheCreation, c.cacheRead, c.completion);
    } else {
      assert forall f :: Get(c, f) == Get(fine, f);
      assert Get(fine, Prompt) == fine.prompt && Get(fine, Completion) == fine.completion;
      assert Get(fine, CacheCreation) == fine.cacheCreation && Get(fine, CacheRead) == fine.cacheRead;
    }
  }

  /** The cached tokens of a charge are those read from the cache; the total is all four counters, saturating. */
  lemma ChargesAddUp(previous: Option<Snapshot>, frame: Frame)
    ensures var c := ChargeOf(previous, frame); var u := c.usage;
      var sum := u.prompt.UnwrapOr(0) + u.completion.UnwrapOr(0)
                 + u.cacheCreation.UnwrapOr(0) + u.cacheRead.UnwrapOr(0);
      && c.cached == u.cacheRead
      && (c.total == None <==> u.prompt == u.completion == u.cacheCreation == u.cacheRead == None)
      && (c.total.Some? ==> c.total.value == if sum <= 0xFFFF_FFFF_FFFF_FFFF then sum else 0xFFFF_FFFF_FFFF_FFFF)
  {
    var u := ChargeOf(previous, frame).usage;
    SumFour(u.prompt, u.cacheCreation, u.cacheRead, u.completion);
  }

  // ------------------------------------------------------------------ whole runs

  /** The charges of a run of frames. */
  function Charges(previous: Option<Snapshot>, frames: seq<Frame>): (charges: seq<Charge>)
    ensures |charges| == |frames|
    decreases |frames|
  {
    if frames == [] then []
    else [ChargeOf(previous, frames[0])] + Charges(BaselineAfter(previous, frames[0]), frames[1..])
  }

  function Baseline(previous: Option<Snapshot>, frames: seq<Frame>): Option<Snapshot>
    decreases |frames|
  {
    if frames == [] then previous else Baseline(BaselineAfter(previous, frames[0]), frames[1..])
  }

  /** The baseline of one counter, zero while there is none. */
  function Level(previous: Option<Snapshot>, f: Field): nat {
    match previous
    case Some(s) => Get(s, f).UnwrapOr(0)
    case None => 0
  }

  function TotalCharged(charges: seq<Charge>, f: Field): nat {
    if charges == [] then 0 else Get(charges[0].usage, f).UnwrapOr(0) + TotalCharged(charges[1..], f)
  }

  /** The counter restarted: the frame counts, and reports less than the baseline. */
  predicate RollsBack(previous: Option<Snapshot>, frame: Frame, f: Field) {
    !FailedWithoutUsage(frame) && Get(Current(frame), f).Some? && Get(Current(frame), f).value < Level(previous, f)
  }

  /** The baselines abandoned where the counter restarted. */
  function Abandoned(previous: Option<Snapshot>, frames: seq<Frame>, f: Field): nat
    decreases |frames|
  {
    if frames == [] then 0
    else
      (if RollsBack(previous, frames[0], f) then Level(previous, f) else 0)
      + Abandoned(BaselineAfter(previous, frames[0]), frames[1..], f)
  }

  /** What an initial error frame puts into the baseline without charging it. */
  function Seed(previous: Option<Snapshot>, frames: seq<Frame>, f: Field): nat {
    if previous.None? && frames != [] && FailedWithoutUsage(frames[0]) then Get(Current(frames[0]), f).UnwrapOr(0)
    else 0
  }

  /** One frame: what it is charged, and what it abandons or seeds, is the rise of the baseline. */
  lemma FrameConserves(previous: Option<Snapshot>, frame: Frame, f: Field)
    ensures Get(ChargeOf(previous, frame).usage, f).UnwrapOr(0) + Level(previous, f) + Seed(previous, [frame], f)
         == Level(BaselineAfter(previous, frame), f) + if RollsBack(previous, frame, f) then Level(previous, f) else 0
  {
    assert Get(ChargeOf(previous, frame).usage, f) == ChargedField(previous, frame, f);
    assert Get(BaselineAfter(previous, frame).value, f) == BaselineField(previous, frame, f);
  }

  /**
   Conservation: over any run of frames, with any fields missing and any errors among them, what is charged for a
   counter is the rise of its baseline plus the baselines abandoned at restarts, less what an error frame seeded.
   */
  lemma {:induction false} ChargesAreConserved(previous: Option<Snapshot>, frames: seq<Frame>, f: Field)
    ensures TotalCharged(Charges(previous, frames), f) + Level(previous, f) + Seed(previous, frames, f)
         == Level(Baseline(previous, frames), f) + Abandoned(previous, frames, f)
    decreases |frames|
  {
    if frames != [] {
      var next := BaselineAfter(previous, frames[0]);
      FrameConserves(previous, frames[0], f);
      ChargesAreConserved(next, frames[1..], f);
      assert Charges(previous, frames)[1..] == Charges(next, frames[1..]);
    }
  }

  // --------------------------------------------------------- monotone counters

  /** The readings of a counter that move its baseline: the first frame's, and those of frames that count. */
  function Reported(previous: Option<Snapshot>, frames: seq<Frame>, f: Field): seq<Count>
    decreases |frames|
  {
    if frames == [] then []
    else
      (if Get(Current(frames[0]), f).Some? && (previous.None? || !FailedWithoutUsage(frames[0]))
       then [Get(Current(frames[0]), f).value] else [])
      + Reported(BaselineAfter(previous, frames[0]), frames[1..], f)
  }

  predicate Rising(xs: seq<Count>) { forall i, j :: 0 <= i < j < |xs| ==> xs[i] <= xs[j] }

  function Last(xs: seq<Count>, other: nat): nat { if xs == [] then other else xs[|xs| - 1] }

  lemma {:induction false} BaselineIsLastReport(previous: Option<Snapshot>, frames: seq<Frame>, f: Field)
    ensures Level(Baseline(previous, frames), f) == Last(Reported(previous, frames, f), Level(previous, f))
    decreases |frames|
  {
    if frames != [] {
      var next := BaselineAfter(previous, frames[0]);
      BaselineIsLastReport(next, frames[1..], f);
      var later := Reported(next, frames[1..], f);
      assert later == [] ==> Last(Reported(previous, frames, f), Level(previous, f)) == Level(next, f);
    }
  }

  /** The reports never fall, starting from `level`. */
  predicate RisingFrom(level: nat, xs: seq<Count>) { Rising(xs) && (xs != [] ==> level <= xs[0]) }

  lemma RisingFromCons(level: nat, x: Count, xs: seq<Count>)
    ensures RisingFrom(level, [x] + xs) <==> level <= x && RisingFrom(x, xs)
  {
    var all := [x] + xs;
    assert forall i :: 0 <= i < |xs| ==> all[i + 1] == xs[i];
    if Rising(all) {
      forall i, j | 0 <= i < j < |xs| ensures xs[i] <= xs[j] { assert all[i + 1] <= all[j + 1]; }
      assert xs != [] ==> all[0] <= all[1];
    }
    if RisingFrom(x, xs) {
      forall i, j | 0 <= i < j < |all| ensures all[i] <= all[j] {
        assert all[j] == xs[j - 1];
        if i > 0 { assert all[i] == xs[i - 1]; } else { assert xs[0] <= xs[j - 1]; }
      }
    }
  }

  /** What one frame reports and abandons. */
  lemma FrameReports(previous: Option<Snapshot>, frame: Frame, f: Field)
    ensures var next := Level(BaselineAfter(previous, frame), f);
      var reported := Reported(previous, [frame], f);
      && (reported == [] ==> next == Level(previous, f) && !RollsBack(previous, frame, f))
      && (reported != [] ==> reported == [next] && (RollsBack(previous, frame, f) <==> next < Level(previous, f)))
  {
    assert Get(BaselineAfter(previous, frame).value, f) == BaselineField(previous, frame, f);
  }

  lemma ReportedCons(previous: Option<Snapshot>, frames: seq<Frame>, f: Field)
    requires frames != []
    ensures Reported(previous, frames, f)
         == Reported(previous, [frames[0]], f) + Reported(BaselineAfter(previous, frames[0]), frames[1..], f)
  {
    var rest: seq<Frame> := [frames[0]][1..];
    assert rest == [];
  }

  /** Nothing is abandoned exactly when the reports never fall, starting from the baseline. */
  lemma {:induction false} NothingAbandonedWhenRising(previous: Option<Snapshot>, frames: seq<Frame>, f: Field)
    ensures Abandoned(previous, frames, f) == 0 <==> RisingFrom(Level(previous, f), Reported(previous, frames, f))
    decreases |frames|
  {
    if frames != [] {
      var next := BaselineAfter(previous, frames[0]);
      NothingAbandonedWhenRising(next, frames[1..], f);
      FrameReports(previous, frames[0], f);
      ReportedCons(previous, frames, f);
      var later := Reported(next, frames[1..], f);
      if Reported(previous, [frames[0]], f) == [] {
        assert [] + later == later;
      } else {
        RisingFromCons(Level(previous, f), Level(next, f), later);
      }
    }
  }

  /** From a fresh process, a counter is charged its last report less the seed exactly when its reports never fall. */
  lemma ChargedOnceExactlyWhenRising(frames: seq<Frame>, f: Field)
    ensures TotalCharged(Charges(None, frames), f) + Seed(None, frames, f) == Last(Reported(None, frames, f), 0)
       <==> Rising(Reported(None, frames, f))
  {
    ChargesAreConserved(None, frames, f);
    BaselineIsLastReport(None, frames, f);
    NothingAbandonedWhenRising(None, frames, f);
  }

  // ---------------------------------------------------------------- error frames

  lemma {:induction false} ChargesAppend(previous: Option<Snapshot>, a: seq<Frame>, b: seq<Frame>)
    ensures Charges(previous, a + b) == Charges(previous, a) + Charges(Baseline(previous, a), b)
    ensures Baseline(previous, a + b) == Baseline(Baseline(previous, a), b)
    decreases |a|
  {
    if a == [] {
      assert a + b == b;
    } else {
      assert (a + b)[1..] == a[1..] + b;
      var next := BaselineAfter(previous, a[0]);
      ChargesAppend(next, a[1..], b);
      var first, mid, last := [ChargeOf(previous, a[0])], Charges(next, a[1..]), Charges(Baseline(next, a[1..]), b);
      assert first + (mid + last) == first + mid + last;
    }
  }

  /**
   Once there is a baseline, a zero-usage error frame is charged nothing, and leaves every other frame's charge
   and the final baseline as they are without it.
   */
  lemma ErrorFramesAreFree(before: seq<Frame>, error: Frame, after: seq<Frame>)
    requires before != [] && FailedWithoutUsage(error)
    ensures var with, without := Charges(None, before + [error] + after), Charges(None, before + after);
      && with == without[..|before|] + [with[|before|]] + without[|before|..]
      && (forall f :: Get(with[|before|].usage, f) == Some(0)) && with[|before|].total == Some(0)
      && Baseline(None, before + [error] + after) == Baseline(None, before + after)
  {
    hide FailedWithoutUsage, BaselineAfter, ChargeOf, Get;
    var base := Baseline(None, before);
    HasBaseline(None, before);
    FreeCharge(base, error);
    var later := [error] + after;
    assert later[0] == error && later[1..] == after;
    assert before + [error] + after == before + later;
    ChargesAppend(None, before, after);
    ChargesAppend(None, before, later);
    var charged, free, rest := Charges(None, before), ChargeOf(base, error), Charges(base, after);
    assert Charges(base, later) == [free] + rest;
    assert (charged + rest)[..|before|] == charged && (charged + rest)[|before|..] == rest;
    assert charged + ([free] + rest) == charged + [free] + rest;
  }

  lemma HasBaseline(previous: Option<Snapshot>, frames: seq<Frame>)
    requires frames != [] || previous.Some?
    ensures Baseline(previous, frames).Some?
    decreases |frames|
  {
    if frames != [] { HasBaseline(BaselineAfter(previous, frames[0]), frames[1..]); }
  }

  lemma FreeCharge(previous: Option<Snapshot>, error: Frame)
    requires previous.Some? && FailedWithoutUsage(error)
    ensures BaselineAfter(previous, error) == previous
    ensures forall f :: Get(ChargeOf(previous, error).usage, f) == Some(0)
    ensures ChargeOf(previous, error).total == Some(0)
  {
    var next := BaselineAfter(previous, error).value;
    assert forall f :: Get(next, f) == Get(previous.value, f);
    assert Get(next, Prompt) == previous.value.prompt && Get(next, Completion) == previous.value.completion;
    assert Get(next, CacheCreation) == previous.value.cacheCreation && Get(next, CacheRead) == previous.value.cacheRead;
    var usage := ChargeOf(previous, error).usage;
    assert Get(usage, Prompt) == Some(0) && Get(usage, Completion) == Some(0);
    assert Get(usage, CacheCreation) == Some(0) && Get(usage, CacheRead) == Some(0);
    SumFour(usage.prompt, usage.cacheCreation, usage.cacheRead, usage.completion);
  }
}
