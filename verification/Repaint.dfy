/** Which buckets can ever be published, and when raising the cutoff changes a published candle. */
module Repaint {
  import opened Results
  import opened Timestamps
  import opened Storage
  import opened Calendar
  import opened Aggregation
  import opened AggregationLemmas
  import opened AggregationTheorems

  // ----- bucket arithmetic -----

  predicate Aligned(cal: Spec, t: int) {
    Local(cal, t) % QUARTER == 0
  }

  /** A bucket other than the A-share ones starts a whole number of quarters before its aligned bars. */
  lemma PlainBucket(cal: Spec, t: int, unit: int, anchor: int)
    requires cal.Known() && (unit == HOUR || unit == FOUR_HOURS)
    requires anchor == Instant(cal, if TimeOfDay(cal, t) < cal.anchor then LocalDay(cal, t) - 1 else LocalDay(cal, t), cal.anchor)
    ensures var b := anchor + (t - anchor) / unit * unit;
            b <= t < b + unit && (Aligned(cal, t) ==> (t - b) % QUARTER == 0)
  {
    var b := anchor + (t - anchor) / unit * unit;
    if Aligned(cal, t) {
      var j := Local(cal, t) / QUARTER;
      var day := if TimeOfDay(cal, t) < cal.anchor then LocalDay(cal, t) - 1 else LocalDay(cal, t);
      var q := cal.anchor / QUARTER;
      assert cal.anchor == q * QUARTER;
      var k := (t - anchor) / unit;
      var n := if unit == HOUR then 4 * k else 16 * k;
      assert t - b == (j - 96 * day - q - n) * QUARTER;
    }
  }

  /** An aligned admitted bar stands on the grid of its bucket. */
  lemma OnGrid(cal: Spec, tf: Timeframe, cutoff: int, t: int, b: int)
    requires cal.Known() && IsOutput(tf) && Aligned(cal, t) && PlaceOf(cal, tf, cutoff, t) == InBucket(b)
    ensures t in Grid(cal, tf, b)
  {
    hide Grid;
    if cal.id == CnA {
      OnSessionGrid(cal, tf, cutoff, t, b);
    } else {
      var unit := if tf == H1 then HOUR else FOUR_HOURS;
      PlainBucket(cal, t, unit, Instant(cal, if TimeOfDay(cal, t) < cal.anchor then LocalDay(cal, t) - 1 else LocalDay(cal, t), cal.anchor));
      OnPlainGrid(cal, tf, t, b);
    }
  }

  lemma OnPlainGrid(cal: Spec, tf: Timeframe, t: int, b: int)
    requires cal.Known() && cal.id != CnA && IsOutput(tf)
    requires b <= t < b + (if tf == H1 then HOUR else FOUR_HOURS) && (t - b) % QUARTER == 0
    ensures t in Grid(cal, tf, b)
  {
    var i := (t - b) / QUARTER;
    assert t == b + i * QUARTER;
    assert Grid(cal, tf, b)[i] == t;
  }

  /** The session quarters of an A-share day are numbers 38 to 45 and 52 to 59. */
  lemma SessionQuarterNumber(cal: Spec, t: int) returns (q: int)
    requires cal.Known() && cal.id == CnA && Aligned(cal, t) && InsideSession(cal, t)
    ensures TimeOfDay(cal, t) == q * QUARTER && (38 <= q < 46 || 52 <= q < 60)
    ensures t == Instant(cal, LocalDay(cal, t), q * QUARTER)
  {
    QuarterOfDay(Local(cal, t));
    q := TimeOfDay(cal, t) / QUARTER;
  }

  lemma QuarterOfDay(l: int)
    requires l % QUARTER == 0
    ensures l % DAY == l % DAY / QUARTER * QUARTER
  {
    var k := l / QUARTER - 96 * (l / DAY);
    assert l % DAY == k * QUARTER;
  }

  lemma OnSessionGrid(cal: Spec, tf: Timeframe, cutoff: int, t: int, b: int)
    requires cal.Known() && cal.id == CnA && IsOutput(tf) && Aligned(cal, t)
    requires PlaceOf(cal, tf, cutoff, t) == InBucket(b)
    ensures t in Grid(cal, tf, b)
  {
    var q := SessionQuarterNumber(cal, t);
    if tf == H4 {
      OnFourHourSessionGrid(cal, t, q);
    } else {
      OnOneHourSessionGrid(cal, t, q);
    }
  }

  lemma OnFourHourSessionGrid(cal: Spec, t: int, q: int)
    requires cal.Known() && cal.id == CnA && (38 <= q < 46 || 52 <= q < 60)
    requires t == Instant(cal, LocalDay(cal, t), q * QUARTER)
    ensures t in Grid(cal, H4, FourHourBucket(cal, t))
  {
    hide Aggregation.OneHourBucket;
    var b := FourHourBucket(cal, t);
    assert LocalDay(cal, b) == LocalDay(cal, t);
    assert Grid(cal, H4, b)[if q < 46 then q - 38 else q - 44] == t;
  }

  lemma OnOneHourSessionGrid(cal: Spec, t: int, q: int)
    requires cal.Known() && cal.id == CnA && (38 <= q < 46 || 52 <= q < 60)
    requires t == Instant(cal, LocalDay(cal, t), q * QUARTER) && TimeOfDay(cal, t) == q * QUARTER
    ensures t in Grid(cal, H1, OneHourBucket(cal, t))
  {
    var open := if q < 46 then 38 else 52;
    var k := (q - open) / 4;
    var b := OneHourBucket(cal, t);
    assert b == Instant(cal, LocalDay(cal, t), open * QUARTER) + k * HOUR;
    assert Grid(cal, H1, b)[q - open - 4 * k] == t;
  }

  // ----- raising the cutoff -----

  /** A bar of bucket `b` that is still forming at `c1` and closed at `c2`. */
  predicate Late(cal: Spec, tf: Timeframe, c1: int, c2: int, b: int, t: int)
    requires cal.Known() && IsOutput(tf)
  {
    PlaceOf(cal, tf, c1, t) == Forming && PlaceOf(cal, tf, c2, t) == InBucket(b)
  }

  lemma LaterPlace(cal: Spec, tf: Timeframe, c1: int, c2: int, t: int)
    requires cal.Known() && IsOutput(tf) && c1 <= c2
    ensures PlaceOf(cal, tf, c1, t) == Forming || PlaceOf(cal, tf, c2, t) == PlaceOf(cal, tf, c1, t)
    ensures PlaceOf(cal, tf, c1, t) != Forming ==> t + QUARTER <= c1
  {
    hide Bucket, InsideSession;
  }

  lemma {:induction false} LaterRows(cal: Spec, tf: Timeframe, c1: int, c2: int, s: seq<Candle>, b: int)
    requires cal.Known() && IsOutput(tf) && c1 <= c2
    ensures var r1, r2 := RowsIn(cal, tf, c1, s, b), RowsIn(cal, tf, c2, s, b);
            if exists c :: c in s && Late(cal, tf, c1, c2, b, c.stamp) then |r2| > |r1| else r2 == r1
  {
    hide PlaceOf;
    if s != [] {
      var n := |s| - 1;
      LaterRows(cal, tf, c1, c2, s[..n], b);
      LaterPlace(cal, tf, c1, c2, s[n].stamp);
      assert forall c :: c in s <==> c in s[..n] || c == s[n];
    }
  }

  /**
   A published candle survives a later cutoff, unchanged, exactly when no bar of its bucket was
   still forming at the earlier one.
   */
  lemma RepaintIff(cal: Spec, tf: Timeframe, c1: int, c2: int, s: seq<Candle>, b: int)
    requires cal.Known() && IsOutput(tf) && s != [] && c1 <= c2 && Complete(cal, tf, c1, s, b)
    ensures Complete(cal, tf, c2, s, b) <==> !exists c :: c in s && Late(cal, tf, c1, c2, b, c.stamp)
    ensures Complete(cal, tf, c2, s, b) ==> BucketCandle(cal, tf, c2, s, b) == BucketCandle(cal, tf, c1, s, b)
  {
    hide RowsIn, SortRows, Grid, AggregateRows, Late;
    LaterRows(cal, tf, c1, c2, s, b);
  }

  lemma AlignedNeverLate(cal: Spec, tf: Timeframe, c1: int, c2: int, s: seq<Candle>, b: int, t: int)
    requires cal.Known() && IsOutput(tf) && c1 <= c2 && Complete(cal, tf, c1, s, b) && Aligned(cal, t)
    ensures !Late(cal, tf, c1, c2, b, t)
  {
    hide SortRows, Stamps, Aligned, PlaceOf;
    if Late(cal, tf, c1, c2, b, t) {
      OnGrid(cal, tf, c2, t, b);
      GridRowsClosed(cal, tf, c1, s, b, t);
    }
  }

  lemma GridRowsClosed(cal: Spec, tf: Timeframe, cutoff: int, s: seq<Candle>, b: int, t: int)
    requires cal.Known() && IsOutput(tf) && Complete(cal, tf, cutoff, s, b) && t in Grid(cal, tf, b)
    ensures exists c :: c in s && c.stamp == t && PlaceOf(cal, tf, cutoff, c.stamp) == InBucket(b)
  {
    hide PlaceOf, Placed, SortRows, Grid;
    var sorted := SortRows(RowsIn(cal, tf, cutoff, s, b));
    var i :| 0 <= i < |Grid(cal, tf, b)| && Grid(cal, tf, b)[i] == t;
    assert sorted[i].stamp == t;
    assert sorted[i] in multiset(sorted);
    PlacedMembers(cal, tf, cutoff, s, InBucket(b), sorted[i]);
  }

  /** No repaint: on quarter-aligned input a later cutoff keeps every published candle as it was. */
  lemma NoRepaint(cal: Spec, tf: Timeframe, c1: int, c2: int, s: seq<Candle>)
    requires cal.Known() && IsOutput(tf) && s != [] && c1 <= c2
    requires forall c :: c in s ==> Aligned(cal, c.stamp)
    ensures forall c :: c in Aggregate(cal, tf, c1, s).candles ==> c in Aggregate(cal, tf, c2, s).candles
  {
    hide Aggregate, Complete, BucketCandle, RowsIn, Grid, Late, Aligned;
    Exactness(cal, tf, c1, s);
    Exactness(cal, tf, c2, s);
    forall c | c in Aggregate(cal, tf, c1, s).candles
      ensures c in Aggregate(cal, tf, c2, s).candles
    {
      var b := c.stamp;
      forall x | x in s
        ensures !Late(cal, tf, c1, c2, b, x.stamp)
      {
        AlignedNeverLate(cal, tf, c1, c2, s, b, x.stamp);
      }
      RepaintIff(cal, tf, c1, c2, s, b);
      CompleteIff(cal, tf, c2, s, b);
      var later := Aggregate(cal, tf, c2, s).candles;
      assert b in Stamps(later);
      var i :| 0 <= i < |later| && later[i].stamp == b;
      assert later[i] == c;
    }
  }

  // ----- which buckets can be published at all -----

  /** A quarter stamp whose bar, once closed, belongs to bucket `b`. */
  predicate Admits(cal: Spec, tf: Timeframe, b: int, t: int)
    requires cal.Known() && IsOutput(tf)
  {
    PlaceOf(cal, tf, BarEnd(cal, M15, t), t) == InBucket(b)
  }

  predicate Publishable(cal: Spec, tf: Timeframe, b: int)
    requires cal.Known() && IsOutput(tf)
  {
    forall i :: 0 <= i < |Grid(cal, tf, b)| ==> Admits(cal, tf, b, Grid(cal, tf, b)[i])
  }

  /** One bar per grid stamp, otherwise like `model`. */
  function GridBars(cal: Spec, tf: Timeframe, b: int, model: Candle): (s: seq<Candle>)
    requires IsOutput(tf)
    ensures Stamps(s) == Grid(cal, tf, b)
  {
    seq(|Grid(cal, tf, b)|, i requires 0 <= i < |Grid(cal, tf, b)| => model.(stamp := Grid(cal, tf, b)[i]))
  }

  lemma {:induction false} AllPlaced(cal: Spec, tf: Timeframe, cutoff: int, s: seq<Candle>, b: int)
    requires cal.Known() && IsOutput(tf)
    requires forall i :: 0 <= i < |s| ==> PlaceOf(cal, tf, cutoff, s[i].stamp) == InBucket(b)
    ensures RowsIn(cal, tf, cutoff, s, b) == s
  {
    hide PlaceOf;
    if s != [] {
      AllPlaced(cal, tf, cutoff, s[..|s| - 1], b);
      assert s == s[..|s| - 1] + [s[|s| - 1]];
    }
  }

  /** A bucket is publishable exactly when some input and cutoff publish it. */
  lemma PublishableIff(cal: Spec, tf: Timeframe, b: int, model: Candle)
    requires cal.Known() && IsOutput(tf)
    ensures Publishable(cal, tf, b) <==> exists s, cutoff :: Complete(cal, tf, cutoff, s, b)
  {
    hide PlaceOf, Grid, RowsIn, Complete;
    if Publishable(cal, tf, b) {
      var s := GridBars(cal, tf, b, model);
      GridNonEmpty(cal, tf, b);
      GridAscending(cal, tf, b);
      var cutoff := BarEnd(cal, M15, s[|s| - 1].stamp);
      forall i | 0 <= i < |s|
        ensures PlaceOf(cal, tf, cutoff, s[i].stamp) == InBucket(b)
      {
        assert Stamps(s)[i] == s[i].stamp && Stamps(s)[i] <= Stamps(s)[|s| - 1];
        assert Admits(cal, tf, b, Grid(cal, tf, b)[i]);
        LaterPlace(cal, tf, BarEnd(cal, M15, s[i].stamp), cutoff, s[i].stamp);
      }
      AllPlaced(cal, tf, cutoff, s, b);
      CompleteIff(cal, tf, cutoff, s, b);
    }
    forall s, cutoff, i | Complete(cal, tf, cutoff, s, b) && 0 <= i < |Grid(cal, tf, b)|
      ensures Admits(cal, tf, b, Grid(cal, tf, b)[i])
    {
      GridRowsClosed(cal, tf, cutoff, s, b, Grid(cal, tf, b)[i]);
      PlaceWhenClosed(cal, tf, cutoff, Grid(cal, tf, b)[i], b);
    }
  }

  lemma PlaceWhenClosed(cal: Spec, tf: Timeframe, cutoff: int, t: int, b: int)
    requires cal.Known() && IsOutput(tf) && PlaceOf(cal, tf, cutoff, t) == InBucket(b)
    ensures Admits(cal, tf, b, t)
  {
    hide Bucket, InsideSession;
  }

  /** Where each session calendar's one publishable 4h bucket of a trading day starts, if it has one. */
  function FourHourStart(id: CalendarId): Option<int> {
    match id
    case CnA => Some(Clock(9, 30))
    case UsEquities => Some(Clock(9, 30))
    case KrEquities => Some(Clock(9, 0))
    case _ => None
  }

  lemma GridStep(cal: Spec, b: int, i: nat)
    requires cal.Known() && cal.id != CnA && i < 16 && TimeOfDay(cal, b) + i * QUARTER < DAY
    ensures Grid(cal, H4, b)[i] == b + i * QUARTER
    ensures LocalDay(cal, b + i * QUARTER) == LocalDay(cal, b)
    ensures TimeOfDay(cal, b + i * QUARTER) == TimeOfDay(cal, b) + i * QUARTER
  {
  }

  /** A single-session bucket starts at the anchor or four hours after it, and holds only its own quarters. */
  lemma SessionBucket(cal: Spec, b: int)
    requires cal.Known() && !cal.Continuous() && cal.id != CnA
    requires InsideSession(cal, b) && FourHourBucket(cal, b) == b
    ensures TimeOfDay(cal, b) == cal.anchor || TimeOfDay(cal, b) == cal.anchor + FOUR_HOURS
  {
    var day, tod := LocalDay(cal, b), TimeOfDay(cal, b);
    var anchor := Instant(cal, day, cal.anchor);
    assert b - anchor == tod - cal.anchor;
    assert cal.anchor <= tod < cal.anchor + 2 * FOUR_HOURS;
    var k := (b - anchor) / FOUR_HOURS;
    assert 0 <= k <= 1;
  }

  /** Every quarter of a session bucket starting at its anchor falls back into it. */
  lemma AnchorBucket(cal: Spec, b: int, i: nat)
    requires cal.Known() && !cal.Continuous() && cal.id != CnA && TimeOfDay(cal, b) == cal.anchor && i < 16
    ensures FourHourBucket(cal, b + i * QUARTER) == b
  {
    GridStep(cal, b, i);
    assert b == Instant(cal, LocalDay(cal, b), cal.anchor);
  }

  lemma QuarterTime(cal: Spec, b: int, i: nat)
    requires cal.Known() && !cal.Continuous() && i < 16
    ensures OnQuarter(cal.anchor + i * QUARTER)
  {
    assert cal.anchor + i * QUARTER == (cal.anchor / SECOND + 900 * i) * SECOND;
  }

  /**
   On a session calendar the publishable 4h buckets are one a day in Shanghai, New York and Seoul,
   and none at all in Tokyo and Hong Kong, whose lunch break leaves every grid with a hole.
   */
  lemma FourHourTable(cal: Spec, b: int)
    requires cal.Known() && !cal.Continuous()
    ensures Publishable(cal, H4, b) <==>
            TradingDay(cal, LocalDay(cal, b)) && FourHourStart(cal.id) == Some(TimeOfDay(cal, b))
  {
    if cal.id == CnA {
      SessionTable(cal, b);
    } else {
      if Publishable(cal, H4, b) {
        GridNonEmpty(cal, H4, b);
        assert Admits(cal, H4, b, Grid(cal, H4, b)[0]);
        SessionBucket(cal, b);
        HoleInGrid(cal, b);
      }
      if TradingDay(cal, LocalDay(cal, b)) && FourHourStart(cal.id) == Some(TimeOfDay(cal, b)) {
        NoHole(cal, b);
      }
    }
  }

  lemma HoleInGrid(cal: Spec, b: int)
    requires cal.Known() && !cal.Continuous() && cal.id != CnA && Publishable(cal, H4, b)
    requires TimeOfDay(cal, b) == cal.anchor || TimeOfDay(cal, b) == cal.anchor + FOUR_HOURS
    ensures TimeOfDay(cal, b) == cal.anchor && cal.id != JpEquities && cal.id != HkEquities
  {
    var i := if TimeOfDay(cal, b) != cal.anchor then 15 else 10;
    GridNonEmpty(cal, H4, b);
    GridStep(cal, b, i);
    assert Admits(cal, H4, b, Grid(cal, H4, b)[i]);
    assert InsideSession(cal, b + i * QUARTER);
  }

  lemma InTheSession(cal: Spec, b: int, i: nat)
    requires cal.Known() && (cal.id == UsEquities || cal.id == KrEquities) && TimeOfDay(cal, b) == cal.anchor && i < 16
    ensures cal.anchor + i * QUARTER < DAY && |cal.sessions| > 0
    ensures cal.sessions[0].open <= cal.anchor + i * QUARTER < cal.sessions[0].close
  {
  }

  lemma NoHole(cal: Spec, b: int)
    requires cal.Known() && (cal.id == UsEquities || cal.id == KrEquities)
    requires TradingDay(cal, LocalDay(cal, b)) && TimeOfDay(cal, b) == cal.anchor
    ensures Publishable(cal, H4, b)
  {
    hide LocalDay, TimeOfDay, OnQuarter, FourHourBucket, TradingDay, Grid, Spec.Known, BarEnd;
    GridNonEmpty(cal, H4, b);
    forall i | 0 <= i < 16
      ensures Admits(cal, H4, b, Grid(cal, H4, b)[i])
    {
      InTheSession(cal, b, i);
      GridStep(cal, b, i);
      AnchorBucket(cal, b, i);
      QuarterTime(cal, b, i);
    }
  }

  lemma SessionTable(cal: Spec, b: int)
    requires cal.Known() && cal.id == CnA
    ensures Publishable(cal, H4, b) <==> TradingDay(cal, LocalDay(cal, b)) && TimeOfDay(cal, b) == Clock(9, 30)
  {
    var day := LocalDay(cal, b);
    var open := Instant(cal, day, Clock(9, 30));
    assert Grid(cal, H4, b)[0] == open && LocalDay(cal, open) == day && FourHourBucket(cal, open) == open;
    if Publishable(cal, H4, b) {
      assert Admits(cal, H4, b, Grid(cal, H4, b)[0]);
    }
    if TradingDay(cal, day) && TimeOfDay(cal, b) == Clock(9, 30) {
      forall i | 0 <= i < |Grid(cal, H4, b)|
        ensures Admits(cal, H4, b, Grid(cal, H4, b)[i])
      {
        SessionQuarter(cal, b, i);
      }
    }
  }

  lemma SessionQuarter(cal: Spec, b: int, i: nat)
    requires cal.Known() && cal.id == CnA && i < 16
    requires TradingDay(cal, LocalDay(cal, b)) && TimeOfDay(cal, b) == Clock(9, 30)
    ensures |Grid(cal, H4, b)| == 16 && Admits(cal, H4, b, Grid(cal, H4, b)[i])
  {
    var day, w := LocalDay(cal, b), if i < 8 then 0 else 1;
    var tod := cal.sessions[w].open + (i - 8 * w) * QUARTER;
    var t := Instant(cal, day, tod);
    assert Grid(cal, H4, b)[i] == t;
    assert LocalDay(cal, t) == day && TimeOfDay(cal, t) == tod;
    assert tod == (cal.sessions[w].open / SECOND + 900 * (i - 8 * w)) * SECOND;
    assert cal.sessions[w].open <= tod < cal.sessions[w].close;
    assert b == Instant(cal, day, Clock(9, 30));
  }

  /** The instants of one 4h bucket of a plain calendar are the four hours after its start. */
  lemma WithinBucket(cal: Spec, b: int, x: int)
    requires cal.Known() && cal.id != CnA && FourHourBucket(cal, b) == b && 0 <= x < FOUR_HOURS
    ensures FourHourBucket(cal, b + x) == b
  {
    hide FourHourBucket, Calendar.AnchorOf, Calendar.SessionsOf;
    SameAnchorGrid(cal, b);
    SameAnchorGrid(cal, b + x);
    var k := (Local(cal, b) - cal.anchor) / FOUR_HOURS;
    assert Local(cal, b + x) - cal.anchor == k * FOUR_HOURS + x;
  }

  /** On a calendar that never closes every 4h bucket is publishable. */
  lemma ContinuousTable(cal: Spec, b: int)
    requires cal.Known() && cal.Continuous()
    ensures Publishable(cal, H4, b) <==> FourHourBucket(cal, b) == b
  {
    hide FourHourBucket;
    GridNonEmpty(cal, H4, b);
    if Publishable(cal, H4, b) {
      assert Admits(cal, H4, b, Grid(cal, H4, b)[0]);
    }
    if FourHourBucket(cal, b) == b {
      forall i | 0 <= i < 16
        ensures Admits(cal, H4, b, Grid(cal, H4, b)[i])
      {
        WithinBucket(cal, b, i * QUARTER);
      }
    }
  }

  /**
   Without alignment the promise fails: on a calendar that never closes, a stray bar ten minutes
   before the end of a published 4h bucket takes that candle away again five minutes later.
   */
  lemma StrayBarRepaints(cal: Spec, s: seq<Candle>, stray: Candle, b: int)
    requires cal.Known() && cal.Continuous() && FourHourBucket(cal, b) == b
    requires Complete(cal, H4, b + FOUR_HOURS, s, b) && stray.stamp == b + FOUR_HOURS - 10 * MINUTE
    ensures Complete(cal, H4, b + FOUR_HOURS, s + [stray], b)
    ensures !Complete(cal, H4, b + FOUR_HOURS + 5 * MINUTE, s + [stray], b)
  {
    hide Grid, SortRows;
    var c1, c2 := b + FOUR_HOURS, b + FOUR_HOURS + 5 * MINUTE;
    assert (s + [stray])[..|s|] == s;
    assert RowsIn(cal, H4, c1, s + [stray], b) == RowsIn(cal, H4, c1, s, b);
    WithinBucket(cal, b, FOUR_HOURS - 10 * MINUTE);
    assert stray in s + [stray] && Late(cal, H4, c1, c2, b, stray.stamp);
    RepaintIff(cal, H4, c1, c2, s + [stray], b);
  }

  /** Four hours divide the day, so all 4h buckets of a plain calendar lie on one grid. */
  lemma SameAnchorGrid(cal: Spec, t: int)
    requires cal.Known() && cal.id != CnA
    ensures FourHourBucket(cal, t) == (Local(cal, t) - cal.anchor) / FOUR_HOURS * FOUR_HOURS + cal.anchor - cal.offset
  {
    var day := if TimeOfDay(cal, t) < cal.anchor then LocalDay(cal, t) - 1 else LocalDay(cal, t);
    var x := Local(cal, t) - cal.anchor - day * DAY;
    assert (x + 6 * day * FOUR_HOURS) / FOUR_HOURS == x / FOUR_HOURS + 6 * day;
  }
}
