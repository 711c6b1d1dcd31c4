/** When a chat session is reset: at a daily hour, after idling, or at whichever comes first. */
module ResetPolicy {

  datatype Policy = Never | Daily(hour: nat) | Idle(hours: nat) | Both(dailyHour: nat, idleHours: nat)

  /** Instants are nanoseconds since the epoch, in UTC. */
  type Instant = int

  const SECOND := 1_000_000_000
  const HOUR := 3600 * SECOND
  const DAY := 24 * HOUR

  /** The day an instant falls in; division rounds down, also before the epoch. */
  function Date(t: Instant): int { t / DAY }

  /** The reset instant of a day. */
  function ResetOf(day: int, hour: nat): Instant { day * DAY + hour * HOUR }

  /** `crossed_daily_boundary`: there is no time of day at an hour past 23. */
  predicate Crossed(lastActive: Instant, now: Instant, hour: nat) {
    if lastActive >= now || hour > 23 then false
    else
      var today, yesterday := ResetOf(Date(now), hour), ResetOf(Date(now - DAY), hour);
      lastActive < if now >= today then today else yesterday
  }

  /** `num_seconds`: whole seconds, towards zero. */
  function WholeSeconds(d: int): int { if d >= 0 then d / SECOND else -(-d / SECOND) }

  /** `should_reset`. */
  predicate ShouldReset(p: Policy, lastActive: Instant, now: Instant) {
    match p
    case Never => false
    case Daily(hour) => Crossed(lastActive, now, hour)
    case Idle(hours) => WholeSeconds(now - lastActive) > hours * 3600
    case Both(dailyHour, idleHours) =>
      Crossed(lastActive, now, dailyHour) || WholeSeconds(now - lastActive) > idleHours * 3600
  }

  // ------------------------------------------------------------------------ meaning

  ghost predicate SomeResetIn(after: Instant, upTo: Instant, hour: nat) {
    exists day :: after < ResetOf(day, hour) <= upTo
  }

  lemma OneDayLater(day: int, hour: nat)
    ensures ResetOf(day + 1, hour) == ResetOf(day, hour) + DAY
  {
  }

  lemma ResetsIncrease(day: int, later: int, hour: nat)
    requires day <= later
    ensures ResetOf(day, hour) <= ResetOf(later, hour)
    decreases later - day
  {
    if day < later {
      ResetsIncrease(day, later - 1, hour);
      OneDayLater(later - 1, hour);
    }
  }

  /** The day whose reset instant is the last one not after `now`. */
  function LastResetDay(now: Instant, hour: nat): (day: int)
    requires hour <= 23
    ensures ResetOf(day, hour) <= now < ResetOf(day + 1, hour)
  {
    OneDayLater(Date(now), hour);
    OneDayLater(Date(now) - 1, hour);
    if now >= ResetOf(Date(now), hour) then Date(now) else Date(now) - 1
  }

  /** A boundary was crossed exactly when some day's reset instant lies in between; never for an hour past 23. */
  lemma CrossedExactly(lastActive: Instant, now: Instant, hour: nat)
    ensures Crossed(lastActive, now, hour) <==> hour <= 23 && SomeResetIn(lastActive, now, hour)
  {
    if hour <= 23 {
      var last := LastResetDay(now, hour);
      assert Date(now - DAY) == Date(now) - 1;
      if SomeResetIn(lastActive, now, hour) {
        var day :| lastActive < ResetOf(day, hour) <= now;
        if day > last { ResetsIncrease(last + 1, day, hour); } else { ResetsIncrease(day, last, hour); }
      }
    }
  }

  /** Checking a stretch of time at once is checking its two parts. */
  lemma CrossingIsAdditive(a: Instant, b: Instant, c: Instant, hour: nat)
    requires a <= b <= c
    ensures Crossed(a, c, hour) <==> Crossed(a, b, hour) || Crossed(b, c, hour)
  {
    CrossedExactly(a, c, hour);
    CrossedExactly(a, b, hour);
    CrossedExactly(b, c, hour);
  }

  /** Idling counts whole seconds, so it triggers a full second after the configured hours, and never backwards. */
  lemma IdleTriggersASecondLate(hours: nat, lastActive: Instant, now: Instant)
    ensures ShouldReset(Idle(hours), lastActive, now) <==> now - lastActive >= hours * HOUR + SECOND
  {
    assert hours * HOUR == (hours * 3600) * SECOND;
  }

  /**
   Exactly when a session is due: a reset instant of the configured hour has passed since the last activity, or the
   configured idle hours and one full second have; a policy for both asks for either, and an hour past 23 has no
   instants.
   */
  lemma DueExactly(p: Policy, lastActive: Instant, now: Instant)
    ensures p == Never ==> !ShouldReset(p, lastActive, now)
    ensures p.Daily? ==> (ShouldReset(p, lastActive, now) <==> p.hour <= 23 && SomeResetIn(lastActive, now, p.hour))
    ensures p.Idle? ==> (ShouldReset(p, lastActive, now) <==> now - lastActive >= p.hours * HOUR + SECOND)
    ensures p.Both? ==>
              (ShouldReset(p, lastActive, now) <==>
                 || (p.dailyHour <= 23 && SomeResetIn(lastActive, now, p.dailyHour))
                 || now - lastActive >= p.idleHours * HOUR + SECOND)
  {
    match p
    case Never =>
    case Daily(hour) => CrossedExactly(lastActive, now, hour);
    case Idle(hours) => IdleTriggersASecondLate(hours, lastActive, now);
    case Both(dailyHour, idleHours) =>
      CrossedExactly(lastActive, now, dailyHour);
      IdleTriggersASecondLate(idleHours, lastActive, now);
  }

  /** A session that is due stays due until there is activity. */
  lemma DueStaysDue(p: Policy, lastActive: Instant, now: Instant, later: Instant)
    requires now <= later && ShouldReset(p, lastActive, now)
    ensures ShouldReset(p, lastActive, later)
  {
    match p
    case Never =>
    case Daily(hour) => StillCrossed(lastActive, now, later, hour);
    case Idle(hours) => StillIdle(lastActive, now, later);
    case Both(dailyHour, idleHours) =>
      if Crossed(lastActive, now, dailyHour) { StillCrossed(lastActive, now, later, dailyHour); }
      StillIdle(lastActive, now, later);
  }

  lemma StillCrossed(lastActive: Instant, now: Instant, later: Instant, hour: nat)
    requires now <= later && Crossed(lastActive, now, hour)
    ensures Crossed(lastActive, later, hour)
  {
    CrossingIsAdditive(lastActive, now, later, hour);
  }

  lemma StillIdle(lastActive: Instant, now: Instant, later: Instant)
    requires now <= later
    ensures WholeSeconds(now - lastActive) <= WholeSeconds(later - lastActive)
  {
  }
}
