/** Daily freshness: the latest closed session against the latest stored one (src/kline/session_freshness.py). */
module Freshness {
  import opened Results
  import opened Timestamps
  import opened Calendar
  import opened Sessions

  /** How a daily timestamp names its session; `Undeclared` for anything else. */
  datatype Convention = LocalMidnight | UtcMidnight | Undeclared

  /** Sessions are days since 0001-01-01; `stale` is absent when nothing can be said. */
  datatype DailyFreshness = DailyFreshness(observed: Option<int>, expected: Option<int>, stale: Option<bool>)

  const NOTHING_KNOWN: DailyFreshness := DailyFreshness(None, None, None)

  const LOOKBACK_DAYS: int := 15

  /** When the session of a local day is over. */
  function CloseOf(cal: Spec, day: int): int
    requires cal.Known() && !cal.Continuous()
  {
    Instant(cal, day, cal.LastClose())
  }

  /** The day is a session that is over. */
  predicate ClosedSession(cal: Spec, day: int, now: int)
    requires cal.Known()
  {
    if cal.Continuous() then day < now / DAY
    else TradingDay(cal, day) && CloseOf(cal, day) <= now
  }

  /** The greatest of all closed sessions. */
  ghost predicate LatestClosed(cal: Spec, day: int, now: int)
    requires cal.Known()
  {
    ClosedSession(cal, day, now) && forall d :: ClosedSession(cal, d, now) ==> d <= day
  }

  function ObservedSession(cal: Spec, convention: Convention, latest: int): int {
    if convention == LocalMidnight then LocalDay(cal, latest) else latest / DAY
  }

  /** The clock shows this date: days are 86,400 seconds. */
  predicate OnDate(day: int, clock: int) {
    day * 86_400_000_000 <= clock < (day + 1) * 86_400_000_000
  }

  /** A session is over before the next local midnight, and only the days up to now's can be. */
  lemma CloseWithinDay(cal: Spec, day: int, now: int)
    requires cal.Known() && !cal.Continuous()
    ensures CloseOf(cal, day) <= now ==> day <= LocalDay(cal, now)
    ensures day < LocalDay(cal, now) ==> CloseOf(cal, day) <= now
  {
    var local := Local(cal, now);
    assert local == DAY * (local / DAY) + local % DAY;
    assert 0 < cal.LastClose() < DAY;
  }

  /** One of the three days before any day is a weekday. */
  lemma WeekdayBefore(today: int) returns (d: int)
    ensures today - 3 <= d < today && d % 7 < 5
  {
    d := if (today - 1) % 7 < 5 then today - 1 else if (today - 2) % 7 < 5 then today - 2 else today - 3;
  }

  lemma RecentlyClosed(cal: Spec, now: int) returns (d: int)
    requires cal.Known() && !cal.Continuous()
    ensures ClosedSession(cal, d, now) && LocalDay(cal, now) - 3 <= d <= LocalDay(cal, now)
  {
    hide CloseOf;
    d := WeekdayBefore(LocalDay(cal, now));
    CloseWithinDay(cal, d, now);
  }

  /** `assess_daily_freshness` of a market whose calendar is known. */
  method AssessDailyFreshness(cal: Spec, convention: Convention, latest: Option<int>, now: int) returns (r: DailyFreshness)
    requires cal.Known()
    ensures convention == Undeclared || latest == None ==> r == NOTHING_KNOWN
    ensures convention != Undeclared && latest.Some? ==>
              && r.observed == Some(ObservedSession(cal, convention, latest.value))
              && r.expected.Some? && LatestClosed(cal, r.expected.value, now)
              && r.stale == Some(r.observed.value < r.expected.value)
              && (r.stale == Some(true) <==> exists d :: r.observed.value < d && ClosedSession(cal, d, now))
    ensures convention == LocalMidnight && latest.Some? ==> r.observed.Some? && OnDate(r.observed.value, latest.value + cal.offset)
    ensures convention == UtcMidnight && latest.Some? ==> r.observed.Some? && OnDate(r.observed.value, latest.value)
  {
    if convention == Undeclared || latest == None {
      return NOTHING_KNOWN;
    }
    var observed := ObservedSession(cal, convention, latest.value);
    if cal.Continuous() {
      var yesterday := now / DAY - 1;
      StaleIff(cal, observed, now, yesterday);
      return DailyFreshness(Some(observed), Some(yesterday), Some(observed < yesterday));
    }
    hide CloseOf;
    var today := LocalDay(cal, now);
    forall d | ClosedSession(cal, d, now)
      ensures d <= today
    {
      CloseWithinDay(cal, d, now);
    }
    ghost var recent := RecentlyClosed(cal, now);
    var expected: Option<int> := None;
    for offset := 0 to LOOKBACK_DAYS
      invariant expected == None
      invariant forall d :: ClosedSession(cal, d, now) ==> d <= today - offset
    {
      var candidate := today - offset;
      CloseWithinDay(cal, candidate, now);
      if !TradingDay(cal, candidate) {
        continue;
      }
      if CloseOf(cal, candidate) <= now {
        expected := Some(candidate);
        break;
      }
    }
    StaleIff(cal, observed, now, expected.value);
    r := DailyFreshness(Some(observed), expected, if expected.Some? then Some(observed < expected.value) else None);
  }

  /** No open instant of a weekday is left before `now`; where trading never stops, no instant of the UTC day. */
  ghost predicate Over(cal: Spec, day: int, now: int) {
    if cal.id == Crypto || cal.id == UsFutures then (day + 1) * 86_400_000_000 <= now
    else day % 7 <= 4 && forall u :: LocalDay(cal, u) == day && OpenAt(cal.id, MinuteOfDay(cal, u)) ==> u < now
  }

  lemma OverIff(cal: Spec, day: int, now: int)
    requires cal.Known()
    ensures ClosedSession(cal, day, now) <==> Over(cal, day, now)
  {
    if !cal.Continuous() {
      LastMinute(cal);
      var close := cal.LastClose();
      var last := Instant(cal, day, close - 1);
      LastOpen(cal, day, close);
      hide TimeOfDay, LocalDay, MinuteOfDay, OpenAt, Spec.Known;
      forall u | LocalDay(cal, u) == day && OpenAt(cal.id, MinuteOfDay(cal, u))
        ensures u <= last
      {
        LocalTime(cal, u);
      }
    }
  }

  /** The expected session is over and no later one is; the answer is stale exactly when a session after the observed one is over. */
  lemma ExpectedIsLatest(cal: Spec, observed: int, expected: int, now: int)
    requires cal.Known() && LatestClosed(cal, expected, now)
    ensures Over(cal, expected, now) && forall d :: Over(cal, d, now) ==> d <= expected
    ensures observed < expected <==> exists d :: observed < d && Over(cal, d, now)
  {
    hide ClosedSession, Over;
    forall d
      ensures ClosedSession(cal, d, now) <==> Over(cal, d, now)
    {
      OverIff(cal, d, now);
    }
  }

  // ----- what the answer means -----

  /** A session that is over stays over. */
  lemma ClosedStays(cal: Spec, d: int, now: int, later: int)
    requires cal.Known() && now <= later && ClosedSession(cal, d, now)
    ensures ClosedSession(cal, d, later)
  {
    assert now / DAY <= later / DAY;
  }

  /** The expected session never moves back, so what is stale now is stale at every later moment. */
  lemma StaleStays(cal: Spec, observed: int, now: int, expected: int, later: int, expected': int)
    requires cal.Known() && now <= later && LatestClosed(cal, expected, now) && LatestClosed(cal, expected', later)
    ensures expected <= expected'
    ensures observed < expected ==> observed < expected'
  {
    ClosedStays(cal, expected, now, later);
  }

  /** An observation is stale exactly when some session after it is over. */
  lemma StaleIff(cal: Spec, observed: int, now: int, expected: int)
    requires cal.Known() && LatestClosed(cal, expected, now)
    ensures observed < expected <==> exists d :: observed < d && ClosedSession(cal, d, now)
  {
    if exists d :: observed < d && ClosedSession(cal, d, now) {
      var d :| observed < d && ClosedSession(cal, d, now);
    }
  }

  /** The look-back never needs more than four days of its fifteen. */
  lemma FourDaysSuffice(cal: Spec, now: int, expected: int)
    requires cal.Known() && !cal.Continuous() && LatestClosed(cal, expected, now)
    ensures LocalDay(cal, now) - 3 <= expected <= LocalDay(cal, now)
  {
    hide CloseOf;
    var d := RecentlyClosed(cal, now);
    CloseWithinDay(cal, expected, now);
  }
}
