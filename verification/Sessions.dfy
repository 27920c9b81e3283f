/**
 What the calendars say in minutes of the local day: when a market is open, when a bar is closed, where
 a bar goes.  Nothing here is stated through the functions that compute it.
 */
module Sessions {
  import opened Timestamps
  import opened Storage
  import opened Calendar
  import opened Quality
  import opened Aggregation

  /** A market is open in this minute of its local day. */
  predicate OpenAt(id: CalendarId, minute: int) {
    match id
    case CnA => 570 <= minute < 690 || 780 <= minute < 900
    case UsEquities => 570 <= minute < 960
    case Crypto => true
    case UsFutures => true
    case JpEquities => 540 <= minute < 690 || 750 <= minute < 930
    case KrEquities => 540 <= minute < 930
    case HkEquities => 570 <= minute < 720 || 780 <= minute < 960
  }

  /** Both minutes lie in one session, with no break between them. */
  predicate OpenThrough(id: CalendarId, first: int, last: int) {
    OpenAt(id, first) && OpenAt(id, last) && match id
      case CnA => first < 690 <==> last < 690
      case JpEquities => first < 690 <==> last < 690
      case HkEquities => first < 720 <==> last < 720
      case _ => true
  }

  function MinuteOfDay(cal: Spec, t: int): (m: int)
    ensures m * 60_000_000 <= TimeOfDay(cal, t) < (m + 1) * 60_000_000
  {
    TimeOfDay(cal, t) / 60_000_000
  }

  /** A session day is Monday to Friday; the second day of 2024 was a Tuesday. */
  lemma WeekdaysTrade(cal: Spec, w: int, k: int)
    requires 0 <= k < 7
    ensures TradingDay(cal, 7 * w + k) <==> cal.id == Crypto || cal.id == UsFutures || k <= 4
    ensures Date(2024, 1, 2).Valid() && Date(2024, 1, 2).Number() % 7 == 1
  {
  }

  /** A local day and its time of day are the instant moved by the zone's offset. */
  lemma LocalTime(cal: Spec, t: int)
    ensures t + cal.offset == LocalDay(cal, t) * 86_400_000_000 + TimeOfDay(cal, t) && 0 <= TimeOfDay(cal, t) < 86_400_000_000
  {
  }

  lemma InWindow(cal: Spec, t: int, w: Window, open: int, close: int)
    requires w.open == open * 60_000_000 && w.close == close * 60_000_000
    ensures w.open <= TimeOfDay(cal, t) < w.close <==> open <= MinuteOfDay(cal, t) < close
  {
    hide TimeOfDay;
    var m := MinuteOfDay(cal, t);
  }

  /** The session windows of a calendar are its opening hours. */
  lemma SessionHours(cal: Spec, t: int)
    requires cal.Known() && !cal.Continuous()
    ensures (exists i :: 0 <= i < |cal.sessions| && cal.sessions[i].open <= TimeOfDay(cal, t) < cal.sessions[i].close) <==>
            OpenAt(cal.id, MinuteOfDay(cal, t))
  {
    hide TimeOfDay, MinuteOfDay;
    match cal.id {
      case CnA => InWindow(cal, t, cal.sessions[0], 570, 690); InWindow(cal, t, cal.sessions[1], 780, 900);
      case UsEquities => InWindow(cal, t, cal.sessions[0], 570, 960);
      case JpEquities => InWindow(cal, t, cal.sessions[0], 540, 690); InWindow(cal, t, cal.sessions[1], 750, 930);
      case KrEquities => InWindow(cal, t, cal.sessions[0], 540, 930);
      case HkEquities => InWindow(cal, t, cal.sessions[0], 570, 720); InWindow(cal, t, cal.sessions[1], 780, 960);
      case _ =>
    }
  }

  /** A bar is well placed on a calendar that closes when its minute is an open quarter and its second is the first. */
  lemma PlacedIff(cal: Spec, tf: Timeframe, t: int)
    requires cal.Known()
    ensures WellPlaced(cal, tf, t) <==>
            cal.id == Crypto || cal.id == UsFutures || tf !in {M15, H1, H4} ||
            (OpenAt(cal.id, MinuteOfDay(cal, t)) && MinuteOfDay(cal, t) % 15 == 0 && TimeOfDay(cal, t) / 1_000_000 % 60 == 0)
  {
    hide TimeOfDay;
    if !cal.Continuous() {
      SessionHours(cal, t);
      QuarterMinute(TimeOfDay(cal, t));
    }
  }

  lemma QuarterMinute(tod: int)
    ensures OnQuarter(tod) <==> tod / 60_000_000 % 15 == 0 && tod / 1_000_000 % 60 == 0
  {
    var s := tod / 1_000_000;
    assert tod / 60_000_000 == s / 60;
    assert s == 60 * (s / 60) + s % 60;
    assert s / 60 == 15 * (s / 60 / 15) + s / 60 % 15;
  }

  // ----- when a bar is closed -----

  /** A quarter-hour bar is closed 900 seconds after its stamp; longer intraday bars when the last quarter of theirs is. */
  lemma IntradayClosed(cal: Spec, cutoff: int, t: int)
    requires cal.Known()
    ensures Closed(cal, M15, cutoff, t) <==> t + 900_000_000 <= cutoff
    ensures Closed(cal, H1, cutoff, t) <==> Closed(cal, M15, cutoff, t + 45 * 60_000_000)
    ensures Closed(cal, H4, cutoff, t) <==> Closed(cal, M15, cutoff, t + 225 * 60_000_000)
  {
  }

  lemma LastMinute(cal: Spec)
    requires cal.Known() && !cal.Continuous()
    ensures cal.LastClose() % 60_000_000 == 0 && 0 < cal.LastClose() <= 86_400_000_000
    ensures forall m :: OpenAt(cal.id, m) ==> (m + 1) * 60_000_000 <= cal.LastClose()
    ensures OpenAt(cal.id, cal.LastClose() / 60_000_000 - 1)
  {
  }

  /** No open instant of the bar's day is left; where trading never stops, 24 hours have passed. */
  ghost predicate DayOver(cal: Spec, cutoff: int, t: int) {
    if cal.id == Crypto || cal.id == UsFutures then t + 1440 * 60_000_000 <= cutoff
    else forall u :: LocalDay(cal, u) == LocalDay(cal, t) && OpenAt(cal.id, MinuteOfDay(cal, u)) ==> u < cutoff
  }

  /** A daily bar is closed when its day is over. */
  lemma DailyClosed(cal: Spec, cutoff: int, t: int)
    requires cal.Known()
    ensures Closed(cal, D1, cutoff, t) <==> DayOver(cal, cutoff, t)
  {
    if !cal.Continuous() {
      LastMinute(cal);
      var day, close := LocalDay(cal, t), cal.LastClose();
      var last := Instant(cal, day, close - 1);
      LastOpen(cal, day, close);
      hide TimeOfDay, LocalDay, MinuteOfDay, OpenAt, Spec.Known;
      forall u | LocalDay(cal, u) == day && OpenAt(cal.id, MinuteOfDay(cal, u))
        ensures u <= last
      {
        LocalTime(cal, u);
      }
    }
  }

  lemma LastOpen(cal: Spec, day: int, close: int)
    requires 0 < close <= 86_400_000_000 && close % 60_000_000 == 0
    ensures var last := Instant(cal, day, close - 1);
            LocalDay(cal, last) == day && MinuteOfDay(cal, last) == close / 60_000_000 - 1
  {
    var last := Instant(cal, day, close - 1);
    assert Local(cal, last) == day * DAY + (close - 1);
    assert TimeOfDay(cal, last) == close - 1;
  }

  /** No open instant of the week's five session days is left; where trading never stops, its last second has begun. */
  ghost predicate WeekOver(cal: Spec, cutoff: int, w: int) {
    if cal.id == Crypto || cal.id == UsFutures then forall u :: LocalDay(cal, u) / 7 == w ==> u < cutoff + 1_000_000
    else forall u :: 7 * w <= LocalDay(cal, u) <= 7 * w + 4 && OpenAt(cal.id, MinuteOfDay(cal, u)) ==> u < cutoff
  }

  lemma WeekOverIff(cal: Spec, cutoff: int, w: int)
    requires cal.Known()
    ensures WeekClose(cal, w) <= cutoff <==> WeekOver(cal, cutoff, w)
  {
    var day := if cal.Continuous() then 7 * w + 6 else 7 * w + 4;
    var close := if cal.Continuous() then DAY else cal.LastClose();
    if !cal.Continuous() {
      LastMinute(cal);
    }
    var last := Instant(cal, day, close - 1);
    LastOpen(cal, day, close);
    hide TimeOfDay, LocalDay, MinuteOfDay, OpenAt, Spec.Known;
    forall u | if cal.Continuous() then LocalDay(cal, u) / 7 == w else LocalDay(cal, u) <= day && OpenAt(cal.id, MinuteOfDay(cal, u))
      ensures u <= last
    {
      LocalTime(cal, u);
    }
  }

  /** A weekly bar is closed when its week is over. */
  lemma WeeklyClosed(cal: Spec, cutoff: int, t: int)
    requires cal.Known()
    ensures Closed(cal, W1, cutoff, t) <==> WeekOver(cal, cutoff, LocalDay(cal, t) / 7)
  {
    hide WeekOver, WeekClose;
    WeekOverIff(cal, cutoff, LocalDay(cal, t) / 7);
  }

  /** A gap is more than one and a half intervals inside one session of one local day. */
  lemma GapIff(cal: Spec, tf: Timeframe, p: int, t: int)
    requires cal.Known() && IsMvp(tf)
    ensures GapBetween(cal, tf, p, t) <==>
            && t - p > 1_000_000 * (match tf case M15 => 1_350 case H1 => 5_400 case H4 => 21_600 case D1 => 129_600 case _ => 907_200)
            && LocalDay(cal, p) == LocalDay(cal, t)
            && (cal.id == Crypto || cal.id == UsFutures || OpenThrough(cal.id, MinuteOfDay(cal, p), MinuteOfDay(cal, t)))
  {
    hide TimeOfDay, LocalDay, MinuteOfDay;
    if !cal.Continuous() {
      Together(cal, p, t);
    }
  }

  lemma Together(cal: Spec, p: int, t: int)
    requires cal.Known() && !cal.Continuous()
    ensures SameSession(cal, p, t) <==> OpenThrough(cal.id, MinuteOfDay(cal, p), MinuteOfDay(cal, t))
  {
    hide TimeOfDay, MinuteOfDay;
    match cal.id {
      case CnA =>
        InWindow(cal, p, cal.sessions[0], 570, 690); InWindow(cal, p, cal.sessions[1], 780, 900);
        InWindow(cal, t, cal.sessions[0], 570, 690); InWindow(cal, t, cal.sessions[1], 780, 900);
      case UsEquities => InWindow(cal, p, cal.sessions[0], 570, 960); InWindow(cal, t, cal.sessions[0], 570, 960);
      case JpEquities =>
        InWindow(cal, p, cal.sessions[0], 540, 690); InWindow(cal, p, cal.sessions[1], 750, 930);
        InWindow(cal, t, cal.sessions[0], 540, 690); InWindow(cal, t, cal.sessions[1], 750, 930);
      case KrEquities => InWindow(cal, p, cal.sessions[0], 540, 930); InWindow(cal, t, cal.sessions[0], 540, 930);
      case HkEquities =>
        InWindow(cal, p, cal.sessions[0], 570, 720); InWindow(cal, p, cal.sessions[1], 780, 960);
        InWindow(cal, t, cal.sessions[0], 570, 720); InWindow(cal, t, cal.sessions[1], 780, 960);
      case _ =>
    }
  }

  // ----- where a quarter-hour bar goes -----

  /** Minutes of the local day its 4h buckets count from. */
  function AnchorMinutes(id: CalendarId): int {
    match id
    case Crypto => 0
    case UsFutures => 1080
    case JpEquities => 540
    case KrEquities => 540
    case _ => 570
  }

  /**
   The start of the bucket: the opening of the day, or of the hour of the session, in Shanghai; elsewhere the
   last instant a whole number of units away from the anchor.
   */
  predicate StartsAt(cal: Spec, tf: Timeframe, t: int, b: int) {
    if cal.id == CnA && tf == H4 then LocalDay(cal, b) == LocalDay(cal, t) && TimeOfDay(cal, b) == 570 * 60_000_000
    else
      var unit := if tf == H4 then 240 * 60_000_000 else 60 * 60_000_000;
      && b <= t < b + unit
      && (if cal.id == CnA then TimeOfDay(cal, b) in {570 * 60_000_000, 630 * 60_000_000, 780 * 60_000_000, 840 * 60_000_000}
          else (b + cal.offset - AnchorMinutes(cal.id) * 60_000_000) % unit == 0)
  }

  lemma PlainStart(cal: Spec, t: int, unit: int)
    requires cal.Known() && cal.id != CnA && (unit == HOUR || unit == FOUR_HOURS)
    ensures var anchor := Instant(cal, if TimeOfDay(cal, t) < cal.anchor then LocalDay(cal, t) - 1 else LocalDay(cal, t), cal.anchor);
            var b := anchor + (t - anchor) / unit * unit;
            b <= t < b + unit && (b + cal.offset - AnchorMinutes(cal.id) * 60_000_000) % unit == 0
  {
    var day := if TimeOfDay(cal, t) < cal.anchor then LocalDay(cal, t) - 1 else LocalDay(cal, t);
    var anchor := Instant(cal, day, cal.anchor);
    var k := (t - anchor) / unit;
    var n := DAY / unit;
    assert cal.anchor == AnchorMinutes(cal.id) * 60_000_000;
    assert anchor + k * unit + cal.offset - cal.anchor == (n * day + k) * unit by {
      assert n * unit == DAY;
      assert n * unit * day == DAY * day;
    }
    Multiple(n * day + k, unit);
  }

  lemma Multiple(q: int, unit: int)
    requires unit == HOUR || unit == FOUR_HOURS
    ensures q * unit % unit == 0
  {
  }

  lemma MorningOrAfternoon(cal: Spec, t: int)
    requires cal.Known() && cal.id == CnA && OpenAt(CnA, MinuteOfDay(cal, t))
    ensures var b := OneHourBucket(cal, t);
            b <= t < b + HOUR && TimeOfDay(cal, b) in {570 * 60_000_000, 630 * 60_000_000, 780 * 60_000_000, 840 * 60_000_000}
  {
    var day, tod := LocalDay(cal, t), TimeOfDay(cal, t);
    var open := if tod >= 780 * 60_000_000 then 780 * 60_000_000 else 570 * 60_000_000;
    LocalTime(cal, t);
    assert t - Instant(cal, day, open) == tod - open;
    var j := (tod - open) / HOUR;
    assert 0 <= j < 2;
    assert OneHourBucket(cal, t) == Instant(cal, day, open + j * HOUR);
    DayTime(cal, day, open + j * HOUR);
  }

  lemma DayTime(cal: Spec, day: int, tod: int)
    requires 0 <= tod < DAY
    ensures LocalDay(cal, Instant(cal, day, tod)) == day && TimeOfDay(cal, Instant(cal, day, tod)) == tod
  {
    assert Local(cal, Instant(cal, day, tod)) == day * DAY + tod;
  }

  /** A bar's bucket starts where it should. */
  lemma BucketStarts(cal: Spec, tf: Timeframe, t: int)
    requires cal.Known() && IsOutput(tf) && (cal.id == CnA ==> OpenAt(CnA, MinuteOfDay(cal, t)))
    ensures StartsAt(cal, tf, t, Bucket(cal, tf, t))
  {
    hide Local;
    if cal.id != CnA {
      PlainStart(cal, t, if tf == H4 then FOUR_HOURS else HOUR);
    } else if tf == H4 {
      DayTime(cal, LocalDay(cal, t), cal.anchor);
    } else {
      MorningOrAfternoon(cal, t);
    }
  }

  lemma OneMultiple(x: int, y: int, t: int, unit: int)
    requires unit == HOUR || unit == FOUR_HOURS
    requires x % unit == 0 && y % unit == 0 && x <= t < x + unit && y <= t < y + unit
    ensures x == y
  {
    if unit == HOUR {
      assert x == HOUR * (x / HOUR) && y == HOUR * (y / HOUR);
    } else {
      assert x == FOUR_HOURS * (x / FOUR_HOURS) && y == FOUR_HOURS * (y / FOUR_HOURS);
    }
  }

  lemma SameClock(d: int, e: int, m: int, n: int)
    requires m == 34_200_000_000 || m == 37_800_000_000 || m == 46_800_000_000 || m == 50_400_000_000
    requires n == 34_200_000_000 || n == 37_800_000_000 || n == 46_800_000_000 || n == 50_400_000_000
    requires -HOUR < d * 86_400_000_000 + m - (e * 86_400_000_000 + n) < HOUR
    ensures d == e && m == n
  {
  }

  lemma OneShanghaiStart(cal: Spec, tf: Timeframe, t: int, b: int, c: int)
    requires cal.id == CnA && StartsAt(cal, tf, t, b) && StartsAt(cal, tf, t, c)
    ensures b == c
  {
    LocalTime(cal, b);
    LocalTime(cal, c);
    hide LocalDay, TimeOfDay;
    if tf != H4 {
      SameClock(LocalDay(cal, b), LocalDay(cal, c), TimeOfDay(cal, b), TimeOfDay(cal, c));
    }
  }

  lemma OnePlainStart(cal: Spec, tf: Timeframe, t: int, b: int, c: int)
    requires cal.id != CnA && StartsAt(cal, tf, t, b) && StartsAt(cal, tf, t, c)
    ensures b == c
  {
    hide AnchorMinutes;
    var shift := cal.offset - AnchorMinutes(cal.id) * 60_000_000;
    OneMultiple(b + shift, c + shift, t + shift, if tf == H4 then FOUR_HOURS else HOUR);
  }

  /** There is only one such start. */
  lemma OneStart(cal: Spec, tf: Timeframe, t: int, b: int, c: int)
    requires StartsAt(cal, tf, t, b) && StartsAt(cal, tf, t, c)
    ensures b == c
  {
    hide StartsAt;
    if cal.id == CnA {
      OneShanghaiStart(cal, tf, t, b, c);
    } else {
      OnePlainStart(cal, tf, t, b, c);
    }
  }

  /** Where each quarter-hour bar of an input goes, tested in this order: not closed, not in session, not on a session day, in its bucket. */
  lemma PlaceIff(cal: Spec, tf: Timeframe, cutoff: int, t: int)
    requires cal.Known() && IsOutput(tf)
    ensures var late, open := t + 900_000_000 > cutoff, WellPlaced(cal, M15, t);
            var weekday := cal.id == Crypto || cal.id == UsFutures || LocalDay(cal, t) % 7 <= 4;
            && (PlaceOf(cal, tf, cutoff, t) == Forming <==> late)
            && (PlaceOf(cal, tf, cutoff, t) == OutOfSession <==> !late && !open)
            && (PlaceOf(cal, tf, cutoff, t) == Holiday <==> !late && open && !weekday)
            && (forall b :: PlaceOf(cal, tf, cutoff, t) == InBucket(b) <==> !late && open && weekday && StartsAt(cal, tf, t, b))
  {
    hide InsideSession, Bucket, StartsAt, LocalDay;
    PlacedIff(cal, M15, t);
    if WellPlaced(cal, M15, t) {
      BucketStarts(cal, tf, t);
      forall b | StartsAt(cal, tf, t, b)
        ensures b == Bucket(cal, tf, t)
      {
        OneStart(cal, tf, t, b, Bucket(cal, tf, t));
      }
    }
  }

  /** The stamps a bucket needs: every quarter from its start to its end, without the lunch break in Shanghai. */
  lemma GridIff(cal: Spec, tf: Timeframe, b: int, t: int)
    requires cal.Known() && IsOutput(tf) && (cal.id == CnA && tf == H4 ==> TimeOfDay(cal, b) == 570 * 60_000_000)
    ensures t in Grid(cal, tf, b) <==>
            && (t - b) % 900_000_000 == 0
            && (if tf == H1 then b <= t < b + 60 * 60_000_000
                else if cal.id == CnA then b <= t < b + 120 * 60_000_000 || b + 210 * 60_000_000 <= t < b + 330 * 60_000_000
                else b <= t < b + 240 * 60_000_000)
  {
    LocalTime(cal, b);
    hide LocalDay, TimeOfDay;
    QuarterOf(b, 4, t);
    QuarterOf(b, 16, t);
    QuarterOf(b, 8, t);
    QuarterOf(b + 210 * 60_000_000, 8, t);
    FourteenQuarters(b, t);
  }

  lemma FourteenQuarters(b: int, t: int)
    ensures (t - (b + 210 * 60_000_000)) % 900_000_000 == 0 <==> (t - b) % 900_000_000 == 0
  {
  }

  lemma QuarterOf(start: int, n: nat, t: int)
    ensures t in Quarters(start, n) <==> start <= t < start + n * 900_000_000 && (t - start) % 900_000_000 == 0
  {
    var q := Quarters(start, n);
    if start <= t < start + n * 900_000_000 && (t - start) % 900_000_000 == 0 {
      assert q[(t - start) / 900_000_000] == t;
    }
  }
}
