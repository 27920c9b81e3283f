/** 1d to 1w aggregation (src/kline/market_calendar.py): a week is published once it is closed. */
module Weekly {
  import opened Results
  import opened Timestamps
  import opened Storage
  import opened Calendar
  import opened Aggregation
  import opened AggregationLemmas

  /** Weeks are numbered from the Monday 0001-01-01, so week order is (ISO year, ISO week) order. */
  function DayPlace(cal: Spec, cutoff: int, t: int): Place
    requires cal.Known()
  {
    if BarEnd(cal, D1, t) > cutoff then Forming
    else if !TradingDay(cal, LocalDay(cal, t)) then Holiday
    else InBucket(LocalDay(cal, t) / 7)
  }

  /** The rows of `s` that sit at `place`, in input order. */
  function DayRows(cal: Spec, cutoff: int, s: seq<Candle>, place: Place): seq<Candle>
    requires cal.Known()
  {
    if s == [] then []
    else
      var r := DayRows(cal, cutoff, s[..|s| - 1], place);
      if DayPlace(cal, cutoff, s[|s| - 1].stamp) == place then r + [s[|s| - 1]] else r
  }

  function WeekRows(cal: Spec, cutoff: int, s: seq<Candle>, w: int): seq<Candle>
    requires cal.Known()
  {
    DayRows(cal, cutoff, s, InBucket(w))
  }

  function WeekKeys(cal: Spec, cutoff: int, s: seq<Candle>): seq<int>
    requires cal.Known()
  {
    if s == [] then []
    else
      var keys := WeekKeys(cal, cutoff, s[..|s| - 1]);
      match DayPlace(cal, cutoff, s[|s| - 1].stamp)
      case InBucket(w) => if w in keys then keys else keys + [w]
      case _ => keys
  }

  function ClosesLate(cal: Spec, cutoff: int, s: seq<Candle>): seq<int>
    requires cal.Known()
  {
    if s == [] then []
    else
      var f := ClosesLate(cal, cutoff, s[..|s| - 1]);
      if DayPlace(cal, cutoff, s[|s| - 1].stamp) == Forming then f + [s[|s| - 1].stamp] else f
  }

  function DayIssues(cal: Spec, cutoff: int, s: seq<Candle>): seq<Issue>
    requires cal.Known()
  {
    if s == [] then []
    else
      var t := s[|s| - 1].stamp;
      DayIssues(cal, cutoff, s[..|s| - 1]) +
      match DayPlace(cal, cutoff, t)
      case Forming => [Issue(FormingBar, At(t))]
      case Holiday => [Issue(HolidayBar, At(t))]
      case _ => []
  }

  /** The day a week's candle is named after: its last session day. */
  function WeekEnd(cal: Spec, w: int): int {
    7 * w + if cal.Continuous() then 6 else 4
  }

  function DeferredIssues(cal: Spec, ws: seq<int>): seq<Issue> {
    seq(|ws|, i requires 0 <= i < |ws| => Issue(PartialBucket, OnDay(WeekEnd(cal, ws[i]))))
  }

  /** The candle's timestamp is the date of the week's last session, read as midnight UTC. */
  function WeekStamp(cal: Spec, w: int): int {
    WeekEnd(cal, w) * DAY
  }

  function WeekCandle(cal: Spec, cutoff: int, s: seq<Candle>, w: int): Candle
    requires cal.Known() && s != [] && WeekRows(cal, cutoff, s, w) != []
  {
    AggregateRows(SortRows(WeekRows(cal, cutoff, s, w)), OutputKey(s[0].key, W1), WeekStamp(cal, w), true)
  }

  predicate Used(cal: Spec, cutoff: int, s: seq<Candle>, ws: seq<int>)
    requires cal.Known()
  {
    forall w :: w in ws ==> WeekRows(cal, cutoff, s, w) != []
  }

  function Published(cal: Spec, cutoff: int, s: seq<Candle>, ws: seq<int>): seq<Candle>
    requires cal.Known() && s != [] && Used(cal, cutoff, s, ws)
  {
    if ws == [] then []
    else
      var w := ws[|ws| - 1];
      Published(cal, cutoff, s, ws[..|ws| - 1]) +
      if WeekClose(cal, w) <= cutoff then [WeekCandle(cal, cutoff, s, w)] else []
  }

  function Deferred(cal: Spec, cutoff: int, ws: seq<int>): seq<int>
    requires cal.Known()
  {
    if ws == [] then []
    else
      var w := ws[|ws| - 1];
      Deferred(cal, cutoff, ws[..|ws| - 1]) + if WeekClose(cal, w) <= cutoff then [] else [w]
  }

  lemma {:induction false} WeekKeysUsed(cal: Spec, cutoff: int, s: seq<Candle>, w: int)
    requires cal.Known()
    ensures w in WeekKeys(cal, cutoff, s) <==> WeekRows(cal, cutoff, s, w) != []
    ensures Distinct(WeekKeys(cal, cutoff, s))
  {
    hide DayPlace;
    if s != [] {
      WeekKeysUsed(cal, cutoff, s[..|s| - 1], w);
    }
  }

  lemma WeeksUsed(cal: Spec, cutoff: int, s: seq<Candle>)
    requires cal.Known()
    ensures var ws := SortInts(WeekKeys(cal, cutoff, s));
            && Ascending(ws) && Used(cal, cutoff, s, ws)
            && forall w :: w in ws <==> WeekRows(cal, cutoff, s, w) != []
  {
    hide WeekKeys, WeekRows, SortInts;
    WeekKeysUsed(cal, cutoff, s, 0);
    SortedKeys(WeekKeys(cal, cutoff, s));
    forall w
      ensures w in WeekKeys(cal, cutoff, s) <==> WeekRows(cal, cutoff, s, w) != []
    {
      WeekKeysUsed(cal, cutoff, s, w);
    }
  }

  function Weeks(cal: Spec, cutoff: int, s: seq<Candle>): (ws: seq<int>)
    requires cal.Known()
    ensures Used(cal, cutoff, s, ws)
  {
    WeeksUsed(cal, cutoff, s);
    SortInts(WeekKeys(cal, cutoff, s))
  }

  function Admission(s: seq<Candle>): Option<AggregationError>
    requires s != []
  {
    if s[0].key.timeframe != D1 then Some(WrongTimeframe)
    else if !OneIdentity(s) then Some(MixedIdentity)
    else if !OneSemantics(s) then Some(MixedSemantics)
    else None
  }

  datatype Weekly = Weekly(
    candles: seq<Candle>, receipt: Option<Receipt>, deferred: seq<int>, forming: seq<int>, issues: seq<Issue>)

  lemma OneMoreDay(cal: Spec, cutoff: int, s: seq<Candle>, i: nat)
    requires cal.Known() && i < |s|
    ensures var c, p, q := s[i], s[..i], s[..i + 1];
            var place, keys := DayPlace(cal, cutoff, c.stamp), WeekKeys(cal, cutoff, p);
            && WeekKeys(cal, cutoff, q) == (if place.InBucket? && place.start !in keys then keys + [place.start] else keys)
            && ClosesLate(cal, cutoff, q) == ClosesLate(cal, cutoff, p) + (if place == Forming then [c.stamp] else [])
            && DayIssues(cal, cutoff, q) == DayIssues(cal, cutoff, p) +
               (if place == Forming then [Issue(FormingBar, At(c.stamp))]
                else if place == Holiday then [Issue(HolidayBar, At(c.stamp))] else [])
            && (forall w :: WeekRows(cal, cutoff, q, w) == WeekRows(cal, cutoff, p, w) + (if place == InBucket(w) then [c] else []))
  {
    hide DayPlace;
    assert s[..i + 1][..i] == s[..i];
  }

  lemma NoDays(cal: Spec, cutoff: int)
    requires cal.Known()
    ensures WeekKeys(cal, cutoff, []) == [] && ClosesLate(cal, cutoff, []) == [] && DayIssues(cal, cutoff, []) == []
  {
  }

  method GroupDays(s: seq<Candle>, cal: Spec, cutoff: int)
    returns (grouped: map<int, seq<Candle>>, keys: seq<int>, forming: seq<int>, issues: seq<Issue>)
    requires cal.Known()
    ensures keys == WeekKeys(cal, cutoff, s)
    ensures grouped.Keys == set w | w in keys
    ensures forall w :: w in keys ==> grouped[w] == WeekRows(cal, cutoff, s, w)
    ensures forming == ClosesLate(cal, cutoff, s)
    ensures issues == DayIssues(cal, cutoff, s)
  {
    hide DayPlace, WeekKeys, WeekRows, ClosesLate, DayIssues;
    grouped, keys, forming, issues := map[], [], [], [];
    NoDays(cal, cutoff);
    for i := 0 to |s|
      invariant keys == WeekKeys(cal, cutoff, s[..i])
      invariant grouped.Keys == set w | w in keys
      invariant forall w :: w in keys ==> grouped[w] == WeekRows(cal, cutoff, s[..i], w)
      invariant forming == ClosesLate(cal, cutoff, s[..i])
      invariant issues == DayIssues(cal, cutoff, s[..i])
    {
      OneMoreDay(cal, cutoff, s, i);
      match DayPlace(cal, cutoff, s[i].stamp)
      case Forming =>
        forming := forming + [s[i].stamp];
        issues := issues + [Issue(FormingBar, At(s[i].stamp))];
      case Holiday =>
        issues := issues + [Issue(HolidayBar, At(s[i].stamp))];
      case InBucket(w) =>
        WeekKeysUsed(cal, cutoff, s[..i], w);
        if w in grouped {
          grouped := grouped[w := grouped[w] + [s[i]]];
        } else {
          keys := keys + [w];
          grouped := grouped[w := [s[i]]];
        }
      case _ =>
    }
    assert s[..|s|] == s;
  }

  lemma OneMoreWeek(cal: Spec, cutoff: int, s: seq<Candle>, ws: seq<int>, i: nat)
    requires cal.Known() && s != [] && i < |ws| && Used(cal, cutoff, s, ws)
    ensures var w := ws[i];
            && Used(cal, cutoff, s, ws[..i]) && Used(cal, cutoff, s, ws[..i + 1]) && WeekRows(cal, cutoff, s, w) != []
            && Published(cal, cutoff, s, ws[..i + 1]) == Published(cal, cutoff, s, ws[..i]) +
               (if WeekClose(cal, w) <= cutoff then [WeekCandle(cal, cutoff, s, w)] else [])
            && Deferred(cal, cutoff, ws[..i + 1]) == Deferred(cal, cutoff, ws[..i]) +
               (if WeekClose(cal, w) <= cutoff then [] else [w])
  {
    hide WeekRows, WeekCandle;
    assert ws[..i + 1][..i] == ws[..i];
    assert ws[i] in ws;
  }

  method PublishWeeks(grouped: map<int, seq<Candle>>, ws: seq<int>, s: seq<Candle>, cal: Spec, cutoff: int)
    returns (output: seq<Candle>, deferred: seq<int>, issues: seq<Issue>)
    requires cal.Known() && s != [] && Used(cal, cutoff, s, ws)
    requires forall w :: w in ws ==> w in grouped && grouped[w] == WeekRows(cal, cutoff, s, w)
    ensures output == Published(cal, cutoff, s, ws)
    ensures deferred == Deferred(cal, cutoff, ws)
    ensures issues == DeferredIssues(cal, deferred)
  {
    hide WeekRows, SortRows, AggregateRows;
    output, deferred, issues := [], [], [];
    for i := 0 to |ws|
      invariant Used(cal, cutoff, s, ws[..i])
      invariant output == Published(cal, cutoff, s, ws[..i])
      invariant deferred == Deferred(cal, cutoff, ws[..i])
      invariant issues == DeferredIssues(cal, deferred)
    {
      hide Published, Deferred, Used;
      OneMoreWeek(cal, cutoff, s, ws, i);
      var w := ws[i];
      if WeekClose(cal, w) > cutoff {
        deferred := deferred + [w];
        issues := issues + [Issue(PartialBucket, OnDay(WeekEnd(cal, w)))];
        continue;
      }
      output := output + [AggregateRows(SortRows(grouped[w]), OutputKey(s[0].key, W1), WeekStamp(cal, w), true)];
    }
    assert ws[..|ws|] == ws;
  }

  function Outcome(cal: Spec, cutoff: int, s: seq<Candle>): Weekly
    requires cal.Known() && s != []
  {
    var ws := Weeks(cal, cutoff, s);
    var out, deferred := Published(cal, cutoff, s, ws), Deferred(cal, cutoff, ws);
    Weekly(out,
           if out == [] then None else Some(Receipt(W1, MinStamp(s), MaxStamp(s), |deferred|)),
           deferred,
           ClosesLate(cal, cutoff, s),
           SequenceIssues(s) + DayIssues(cal, cutoff, s) + DeferredIssues(cal, deferred))
  }

  /** `aggregate_daily_to_weekly` */
  method AggregateDays(s: seq<Candle>, cal: Spec, cutoff: int) returns (r: Result<Weekly, AggregationError>)
    requires cal.Known()
    ensures s == [] ==> r == Ok(Weekly([], None, [], [], []))
    ensures s != [] ==> r == match Admission(s) case Some(e) => Err(e) case None => Ok(Outcome(cal, cutoff, s))
  {
    if s == [] {
      return Ok(Weekly([], None, [], [], []));
    }
    if Admission(s).Some? {
      return Err(Admission(s).value);
    }
    var sequence := FindSequenceIssues(s);
    var grouped, keys, forming, days := GroupDays(s, cal, cutoff);
    var ws := SortInts(keys);
    WeeksUsed(cal, cutoff, s);
    forall w | w in ws
      ensures w in keys
    {
      assert w in multiset(ws);
    }
    var output, deferred, dropped := PublishWeeks(grouped, ws, s, cal, cutoff);
    var receipt := if output == [] then None else Some(Receipt(W1, MinStamp(s), MaxStamp(s), |deferred|));
    r := Ok(Weekly(output, receipt, deferred, forming, sequence + days + dropped));
  }

  // ----- what is published -----

  /** `c` is the fold of all closed session bars of week `w`, and `w` itself is closed. */
  predicate FoldsWeek(cal: Spec, cutoff: int, s: seq<Candle>, w: int, c: Candle)
    requires cal.Known() && s != []
  {
    WeekClose(cal, w) <= cutoff && WeekRows(cal, cutoff, s, w) != [] && c == WeekCandle(cal, cutoff, s, w)
  }

  lemma WeekCandleStamp(cal: Spec, cutoff: int, s: seq<Candle>, w: int)
    requires cal.Known() && s != [] && WeekRows(cal, cutoff, s, w) != []
    ensures WeekCandle(cal, cutoff, s, w).stamp == WeekStamp(cal, w)
  {
    hide WeekRows, SortRows;
  }

  lemma {:induction false} PublishedAt(cal: Spec, cutoff: int, s: seq<Candle>, ws: seq<int>)
    requires cal.Known() && s != [] && Ascending(ws) && Used(cal, cutoff, s, ws)
    ensures var out := Published(cal, cutoff, s, ws);
            && StrictlyIncreasing(out)
            && (forall c :: c in out <==>
                  exists w :: w in ws && FoldsWeek(cal, cutoff, s, w, c))
  {
    hide WeekRows, WeekClose, WeekCandle;
    if ws != [] {
      var n := |ws| - 1;
      PublishedAt(cal, cutoff, s, ws[..n]);
      var before, out, w := Published(cal, cutoff, s, ws[..n]), Published(cal, cutoff, s, ws), ws[n];
      assert forall x :: x in ws <==> x in ws[..n] || x == w;
      if WeekClose(cal, w) <= cutoff {
        var c := WeekCandle(cal, cutoff, s, w);
        WeekCandleStamp(cal, cutoff, s, w);
        assert out == before + [c] && FoldsWeek(cal, cutoff, s, w, c);
        forall i | 0 <= i < |before|
          ensures before[i].stamp < c.stamp
        {
          assert before[i] in before;
          var x :| x in ws[..n] && FoldsWeek(cal, cutoff, s, x, before[i]);
          WeekCandleStamp(cal, cutoff, s, x);
        }
      } else {
        assert out == before;
      }
    }
  }

  /** A week is published exactly when it is closed and some bar of it is; candles are in week order. */
  lemma WeeklyExactness(cal: Spec, cutoff: int, s: seq<Candle>)
    requires cal.Known() && s != []
    ensures var out := Outcome(cal, cutoff, s).candles;
            && StrictlyIncreasing(out)
            && (forall c :: c in out <==>
                  exists w :: FoldsWeek(cal, cutoff, s, w, c))
  {
    WeeksUsed(cal, cutoff, s);
    PublishedAt(cal, cutoff, s, Weeks(cal, cutoff, s));
  }

  // ----- raising the cutoff -----

  predicate LateDay(cal: Spec, c1: int, c2: int, w: int, t: int)
    requires cal.Known()
  {
    DayPlace(cal, c1, t) == Forming && DayPlace(cal, c2, t) == InBucket(w)
  }

  /** The rows of a week stay the same at a later cutoff exactly when none of its bars closed in between. */
  lemma {:induction false} LaterWeekRows(cal: Spec, c1: int, c2: int, s: seq<Candle>, w: int)
    requires cal.Known() && c1 <= c2
    ensures var r1, r2 := WeekRows(cal, c1, s, w), WeekRows(cal, c2, s, w);
            if exists c :: c in s && LateDay(cal, c1, c2, w, c.stamp) then |r2| > |r1| else r2 == r1
  {
    hide BarEnd;
    if s != [] {
      var n := |s| - 1;
      LaterWeekRows(cal, c1, c2, s[..n], w);
      assert forall c :: c in s <==> c in s[..n] || c == s[n];
    }
  }

  /** On a session calendar every bar of a week closes by the week's close. */
  lemma SessionWeek(cal: Spec, c1: int, c2: int, w: int, t: int)
    requires cal.Known() && !cal.Continuous() && WeekClose(cal, w) <= c1
    ensures !LateDay(cal, c1, c2, w, t)
  {
  }

  /** No repaint: on session calendars a later cutoff keeps every published week as it was. */
  lemma WeeklyNoRepaint(cal: Spec, c1: int, c2: int, s: seq<Candle>)
    requires cal.Known() && !cal.Continuous() && s != [] && c1 <= c2
    ensures forall c :: c in Outcome(cal, c1, s).candles ==> c in Outcome(cal, c2, s).candles
  {
    hide WeekRows, WeekClose, Outcome, LateDay, SortRows, AggregateRows;
    WeeklyExactness(cal, c1, s);
    WeeklyExactness(cal, c2, s);
    forall c | c in Outcome(cal, c1, s).candles
      ensures c in Outcome(cal, c2, s).candles
    {
      var w :| FoldsWeek(cal, c1, s, w, c);
      forall x | x in s
        ensures !LateDay(cal, c1, c2, w, x.stamp)
      {
        SessionWeek(cal, c1, c2, w, x.stamp);
      }
      LaterWeekRows(cal, c1, c2, s, w);
      assert FoldsWeek(cal, c2, s, w, c);
    }
  }

  /** The rows of the week stay what they are at every later cutoff. */
  ghost predicate Final(cal: Spec, c1: int, s: seq<Candle>, w: int)
    requires cal.Known()
  {
    forall c2 :: c1 <= c2 ==> WeekRows(cal, c2, s, w) == WeekRows(cal, c1, s, w)
  }

  /** Every bar whose local day lies in the week has run its 24 hours. */
  predicate AllRun(cal: Spec, c1: int, s: seq<Candle>, w: int) {
    forall c :: c in s ==> LocalDay(cal, c.stamp) / 7 != w || c.stamp + DAY <= c1
  }

  /**
   On a calendar that never closes a week is final exactly when every bar of the input whose local day
   lies in it has run its 24 hours by the cutoff: being past the week's close is not enough.  Bars may
   start at any time of day.
   */
  lemma ContinuousWeekFinalIff(cal: Spec, c1: int, s: seq<Candle>, w: int)
    requires cal.Known() && cal.Continuous()
    ensures Final(cal, c1, s, w) <==> AllRun(cal, c1, s, w)
  {
    hide WeekRows, LocalDay;
    if Final(cal, c1, s, w) {
      forall c | c in s
        ensures LocalDay(cal, c.stamp) / 7 != w || c.stamp + DAY <= c1
      {
        if LocalDay(cal, c.stamp) / 7 == w && c1 < c.stamp + DAY {
          assert LateDay(cal, c1, c.stamp + DAY, w, c.stamp);
          LaterWeekRows(cal, c1, c.stamp + DAY, s, w);
        }
      }
    }
    if AllRun(cal, c1, s, w) {
      forall c2 | c1 <= c2
        ensures WeekRows(cal, c2, s, w) == WeekRows(cal, c1, s, w)
      {
        assert forall c :: c in s ==> !LateDay(cal, c1, c2, w, c.stamp);
        LaterWeekRows(cal, c1, c2, s, w);
      }
    }
  }

  predicate Midnight(cal: Spec, t: int) {
    TimeOfDay(cal, t) == 0
  }

  /** For midnight bars the published week is open to change for its last second only, and only with a Sunday bar. */
  lemma MidnightWeekFinalIff(cal: Spec, c1: int, s: seq<Candle>, w: int)
    requires cal.Known() && cal.Continuous() && WeekClose(cal, w) <= c1
    requires forall c :: c in s ==> Midnight(cal, c.stamp)
    ensures Final(cal, c1, s, w) <==>
            ((exists c :: c in s && LocalDay(cal, c.stamp) == 7 * w + 6) ==> WeekClose(cal, w) + SECOND <= c1)
  {
    hide Final;
    ContinuousWeekFinalIff(cal, c1, s, w);
    forall c | c in s
      ensures c.stamp == Instant(cal, LocalDay(cal, c.stamp), 0)
    {
      MidnightStamp(cal, c.stamp);
    }
  }

  lemma MidnightStamp(cal: Spec, t: int)
    requires cal.Known() && Midnight(cal, t)
    ensures t == Instant(cal, LocalDay(cal, t), 0)
  {
  }

  /**
   A daily bar dated by midnight UTC starts in the evening of the local day before when the zone is west
   of Greenwich.  A Sunday bar of that kind joins the week long after the week was published: here
   eighteen hours and a second later, in Chicago's winter.
   */
  lemma EveningBarRepaints(tuesday: Candle, sunday: Candle, w: int)
    requires var cal := SpecOf(UsFutures, -6 * HOUR);
             tuesday.stamp == Instant(cal, 7 * w + 1, 18 * HOUR) && sunday.stamp == Instant(cal, 7 * w + 6, 18 * HOUR)
    ensures var cal, s := SpecOf(UsFutures, -6 * HOUR), [tuesday, sunday];
            && (forall c1 :: WeekClose(cal, w) <= c1 < WeekClose(cal, w) + 18 * HOUR + SECOND ==> WeekRows(cal, c1, s, w) == [tuesday])
            && WeekRows(cal, WeekClose(cal, w) + 18 * HOUR + SECOND, s, w) == [tuesday, sunday]
  {
    var cal, s := SpecOf(UsFutures, -6 * HOUR), [tuesday, sunday];
    assert s[..1] == [tuesday] && [tuesday][..0] == [];
    assert LocalDay(cal, tuesday.stamp) == 7 * w + 1 && LocalDay(cal, sunday.stamp) == 7 * w + 6;
    forall c1 | WeekClose(cal, w) <= c1
      ensures WeekRows(cal, c1, s, w) == if c1 < WeekClose(cal, w) + 18 * HOUR + SECOND then [tuesday] else [tuesday, sunday]
    {
      assert DayRows(cal, c1, [], InBucket(w)) == [];
      assert DayRows(cal, c1, [tuesday], InBucket(w)) == [tuesday];
    }
  }
}
