/**
 What a published candle is, in terms of the bars it stands for: the extremes and the sums of exactly the
 bars of its bucket or week, from the first to the last.
 */
module Summaries {
  import opened Results
  import opened Timestamps
  import opened Storage
  import opened Calendar
  import opened Quality
  import opened Sessions
  import opened Aggregation
  import opened AggregationLemmas
  import opened AggregationTheorems
  import opened ByWeek = Weekly
  import opened WeeklyLaws

  // ----- sums -----

  /** Running totals of the values, from nothing to all of them. */
  predicate Running(values: seq<real>, totals: seq<real>) {
    && |totals| == |values| + 1 && totals[0] == 0.0
    && forall i :: 0 <= i < |values| ==> totals[i + 1] == totals[i] + values[i]
  }

  ghost predicate AddsUp(values: seq<real>, total: real) {
    exists totals :: Running(values, totals) && totals[|values|] == total
  }

  lemma {:induction false} SameTotals(values: seq<real>, a: seq<real>, b: seq<real>, n: nat)
    requires Running(values, a) && Running(values, b) && n <= |values|
    ensures a[n] == b[n]
  {
    if n > 0 {
      SameTotals(values, a, b, n - 1);
      assert a[n - 1 + 1] == a[n - 1] + values[n - 1] && b[n - 1 + 1] == b[n - 1] + values[n - 1];
    }
  }

  /** Values add up to one total. */
  lemma OneTotal(values: seq<real>, x: real, y: real)
    requires AddsUp(values, x) && AddsUp(values, y)
    ensures x == y
  {
    var a :| Running(values, a) && a[|values|] == x;
    var b :| Running(values, b) && b[|values|] == y;
    SameTotals(values, a, b, |values|);
  }

  lemma OneMoreValue(values: seq<real>, total: real, x: real)
    requires AddsUp(values, total)
    ensures AddsUp(values + [x], total + x)
  {
    var a :| Running(values, a) && a[|values|] == total;
    var b := a + [total + x];
    assert Running(values + [x], b) && b[|values + [x]|] == total + x;
  }

  lemma {:induction false} NotNegative(values: seq<real>, totals: seq<real>, n: nat)
    requires Running(values, totals) && n <= |values| && forall x :: x in values ==> x >= 0.0
    ensures totals[n] >= 0.0
  {
    if n > 0 {
      NotNegative(values, totals, n - 1);
      assert totals[n - 1 + 1] == totals[n - 1] + values[n - 1] && values[n - 1] in values;
    }
  }

  function Volumes(rows: seq<Candle>): (r: seq<real>)
    ensures |r| == |rows|
    ensures forall i :: 0 <= i < |rows| ==> r[i] == match rows[i].volume case Some(v) => v case None => 0.0
  {
    seq(|rows|, i requires 0 <= i < |rows| => match rows[i].volume case Some(v) => v case None => 0.0)
  }

  function Amounts(rows: seq<Candle>): (r: seq<real>)
    ensures |r| == |rows|
    ensures forall i :: 0 <= i < |rows| ==> r[i] == match rows[i].amount case Some(v) => v case None => 0.0
  {
    seq(|rows|, i requires 0 <= i < |rows| => match rows[i].amount case Some(v) => v case None => 0.0)
  }

  lemma NothingAdds()
    ensures AddsUp([], 0.0)
  {
    assert Running([], [0.0]);
  }

  lemma {:induction false} VolumesAdd(rows: seq<Candle>)
    ensures AddsUp(Volumes(rows), VolumeSum(rows))
  {
    hide AddsUp;
    NothingAdds();
    if rows != [] {
      var p, last := rows[..|rows| - 1], rows[|rows| - 1];
      VolumesAdd(p);
      OneMoreValue(Volumes(p), VolumeSum(p), OrZero(last.volume));
      assert Volumes(rows) == Volumes(p) + [OrZero(last.volume)];
    } else {
      assert Volumes(rows) == [];
    }
  }

  lemma {:induction false} AmountsAdd(rows: seq<Candle>)
    ensures AddsUp(Amounts(rows), AmountSum(rows))
  {
    hide AddsUp;
    NothingAdds();
    if rows != [] {
      var p, last := rows[..|rows| - 1], rows[|rows| - 1];
      AmountsAdd(p);
      OneMoreValue(Amounts(p), AmountSum(p), OrZero(last.amount));
      assert Amounts(rows) == Amounts(p) + [OrZero(last.amount)];
    } else {
      assert Amounts(rows) == [];
    }
  }

  // ----- what one candle says of its bars -----

  /**
   Of bars in time order: the candle opens with the first and closes with the last, no bar leaves its range
   and some bar reaches each end of it, and what was traded is added up.
   */
  ghost predicate SumsUp(bars: seq<Candle>, c: Candle) {
    && bars != [] && c.open == bars[0].open && c.close == bars[|bars| - 1].close
    && (forall x :: x in bars ==> c.low <= x.low && x.high <= c.high)
    && (exists x :: x in bars && x.high == c.high) && (exists x :: x in bars && x.low == c.low)
    && c.semantics == bars[0].semantics && c.derived && c.transformReceiptId == None
    && (if bars[0].semantics == NotApplicable then c.volume == None else c.volume.Some? && AddsUp(Volumes(bars), c.volume.value))
    && (if bars[0].amount == None then c.amount == None else c.amount.Some? && AddsUp(Amounts(bars), c.amount.value))
  }

  lemma {:induction false} Extremes(rows: seq<Candle>)
    requires rows != []
    ensures forall x :: x in rows ==> Low(rows) <= x.low && x.high <= High(rows)
    ensures (exists x :: x in rows && x.high == High(rows)) && exists x :: x in rows && x.low == Low(rows)
  {
    if |rows| == 1 {
      assert rows[0] in rows;
    } else {
      var p, last := rows[..|rows| - 1], rows[|rows| - 1];
      Extremes(p);
      assert forall x :: x in rows <==> x in p || x == last;
    }
  }

  lemma FoldSumsUp(rows: seq<Candle>, key: SeriesKey, stamp: int)
    requires rows != []
    ensures var c := AggregateRows(rows, key, stamp, true);
            SumsUp(rows, c) && c.key == key && c.stamp == stamp
  {
    hide High, Low, VolumeSum, AmountSum, AddsUp;
    Extremes(rows);
    VolumesAdd(rows);
    AmountsAdd(rows);
  }

  /** A summary of admissible bars is admissible. */
  lemma SummaryValid(bars: seq<Candle>, c: Candle)
    requires SumsUp(bars, c) && forall x :: x in bars ==> x.Valid()
    requires Representable(c.stamp) && IsMvp(c.key.timeframe)
    ensures c.Valid()
  {
    hide Representable;
    assert bars[0] in bars && bars[|bars| - 1] in bars;
    if c.volume.Some? {
      var totals :| Running(Volumes(bars), totals) && totals[|bars|] == c.volume.value;
      forall v | v in Volumes(bars)
        ensures v >= 0.0
      {
        var i :| 0 <= i < |bars| && Volumes(bars)[i] == v;
        assert bars[i] in bars;
      }
      NotNegative(Volumes(bars), totals, |bars|);
    }
  }

  // ----- 4h and 1h candles -----

  /** The bar has run its quarter, lies in a session of a session day, and its bucket starts at `b`. */
  predicate Goes(cal: Spec, tf: Timeframe, cutoff: int, b: int, t: int) {
    && t + 900_000_000 <= cutoff
    && (cal.id == Crypto || cal.id == UsFutures ||
        (OpenAt(cal.id, MinuteOfDay(cal, t)) && MinuteOfDay(cal, t) % 15 == 0 && TimeOfDay(cal, t) / 1_000_000 % 60 == 0 && LocalDay(cal, t) % 7 <= 4))
    && StartsAt(cal, tf, t, b)
  }

  lemma GoesIff(cal: Spec, tf: Timeframe, cutoff: int, b: int, t: int)
    requires cal.Known() && IsOutput(tf)
    ensures Goes(cal, tf, cutoff, b, t) <==> PlaceOf(cal, tf, cutoff, t) == InBucket(b)
  {
    hide StartsAt, PlaceOf, WellPlaced, OpenAt, MinuteOfDay, TimeOfDay, LocalDay;
    PlaceIff(cal, tf, cutoff, t);
    PlacedIff(cal, M15, t);
  }

  /** The bars of the input that go to the bucket, as often as they occur, in time order. */
  ghost predicate BarsOf(cal: Spec, tf: Timeframe, cutoff: int, s: seq<Candle>, b: int, bars: seq<Candle>) {
    SortedByStamp(bars) && forall x :: multiset(bars)[x] == if Goes(cal, tf, cutoff, b, x.stamp) then multiset(s)[x] else 0
  }

  lemma BarsGo(cal: Spec, tf: Timeframe, cutoff: int, s: seq<Candle>, b: int, bars: seq<Candle>)
    requires BarsOf(cal, tf, cutoff, s, b, bars)
    ensures forall x :: x in bars <==> x in s && Goes(cal, tf, cutoff, b, x.stamp)
  {
    hide Goes;
    forall x
      ensures x in bars <==> x in s && Goes(cal, tf, cutoff, b, x.stamp)
    {
      assert x in bars <==> multiset(bars)[x] > 0;
      assert x in s <==> multiset(s)[x] > 0;
    }
  }

  lemma BucketPicks(cal: Spec, tf: Timeframe, cutoff: int, s: seq<Candle>, b: int)
    requires cal.Known() && IsOutput(tf)
    ensures BarsOf(cal, tf, cutoff, s, b, SortRows(RowsIn(cal, tf, cutoff, s, b)))
  {
    hide PlaceOf, Placed, SortRows, Goes, SortedByStamp;
    var rows := RowsIn(cal, tf, cutoff, s, b);
    SortRowsSorted(rows);
    forall x
      ensures multiset(SortRows(rows))[x] == if Goes(cal, tf, cutoff, b, x.stamp) then multiset(s)[x] else 0
    {
      PlacedRows(cal, tf, cutoff, s, InBucket(b), x);
      GoesIff(cal, tf, cutoff, b, x.stamp);
    }
  }

  /** The candle is of the input's series at its own timeframe, and sums up exactly the bars of its bucket, one on each stamp of the grid. */
  ghost predicate Summary(cal: Spec, tf: Timeframe, cutoff: int, s: seq<Candle>, bars: seq<Candle>, c: Candle)
    requires cal.Known() && IsOutput(tf) && s != []
  {
    && BarsOf(cal, tf, cutoff, s, c.stamp, bars) && Stamps(bars) == Grid(cal, tf, c.stamp)
    && SumsUp(bars, c) && c.key == s[0].key.(timeframe := tf)
  }

  /** Every published 4h or 1h candle sums up exactly the bars of its bucket. */
  lemma PublishedSumsUp(cal: Spec, tf: Timeframe, cutoff: int, s: seq<Candle>, c: Candle) returns (bars: seq<Candle>)
    requires cal.Known() && IsOutput(tf) && s != [] && c in Aggregate(cal, tf, cutoff, s).candles
    ensures Summary(cal, tf, cutoff, s, bars, c)
  {
    hide RowsIn, SortRows, Aggregate, Grid, AggregateRows, BarsOf, SumsUp;
    Exactness(cal, tf, cutoff, s);
    bars := SortRows(RowsIn(cal, tf, cutoff, s, c.stamp));
    BucketPicks(cal, tf, cutoff, s, c.stamp);
    GridNonEmpty(cal, tf, c.stamp);
    FoldSumsUp(bars, OutputKey(s[0].key, tf), c.stamp);
  }

  /** Published candles of admissible bars are admissible. */
  lemma PublishedValid(cal: Spec, tf: Timeframe, cutoff: int, s: seq<Candle>, c: Candle)
    requires cal.Known() && IsOutput(tf) && s != [] && c in Aggregate(cal, tf, cutoff, s).candles
    requires forall x :: x in s ==> x.Valid()
    ensures c.Valid()
  {
    hide Aggregate, Goes, Grid, SumsUp, Candle.Valid, BarsOf;
    var bars := PublishedSumsUp(cal, tf, cutoff, s, c);
    FirstIsThere(bars, c);
    BarsGo(cal, tf, cutoff, s, c.stamp, bars);
    FirstOfGrid(cal, tf, cutoff, bars, c);
    StampIsReal(bars[0]);
    SummaryValid(bars, c);
  }

  lemma FirstIsThere(bars: seq<Candle>, c: Candle)
    requires SumsUp(bars, c)
    ensures bars != [] && bars[0] in bars
  {
  }

  lemma StampIsReal(c: Candle)
    requires c.Valid()
    ensures Representable(c.stamp)
  {
  }

  lemma FirstOfGrid(cal: Spec, tf: Timeframe, cutoff: int, bars: seq<Candle>, c: Candle)
    requires cal.Known() && IsOutput(tf) && bars != [] && Stamps(bars) == Grid(cal, tf, c.stamp)
    requires Goes(cal, tf, cutoff, c.stamp, bars[0].stamp)
    ensures bars[0].stamp == c.stamp
  {
    assert Stamps(bars)[0] == bars[0].stamp;
  }

  /** The receipt of an aggregation spans the input and counts the buckets that stay partial. */
  lemma ReceiptSays(cal: Spec, tf: Timeframe, cutoff: int, s: seq<Candle>)
    requires cal.Known() && IsOutput(tf) && s != []
    ensures var out := Aggregate(cal, tf, cutoff, s);
            && (out.receipt.Some? <==> out.candles != [])
            && (out.receipt.Some? ==> out.receipt.value.output == tf && out.receipt.value.partialCount == |out.partial|
                                      && Spans(s, out.receipt.value.inputStart, out.receipt.value.inputEnd))
  {
    hide Emitted, Partials, Buckets, Placed, Aggregation.BarIssues;
    MinMax(s);
  }

  /** First and last stamp of the rows. */
  ghost predicate Spans(s: seq<Candle>, first: int, last: int) {
    && (forall x :: x in s ==> first <= x.stamp <= last)
    && (exists x :: x in s && x.stamp == first) && (exists x :: x in s && x.stamp == last)
  }

  lemma {:induction false} MinMax(s: seq<Candle>)
    requires s != []
    ensures Spans(s, MinStamp(s), MaxStamp(s))
  {
    if |s| == 1 {
      assert s[0] in s;
    } else {
      var p, last := s[..|s| - 1], s[|s| - 1];
      MinMax(p);
      assert forall x :: x in s <==> x in p || x == last;
    }
  }

  /** What an aggregator refuses, tested in this order: the wrong timeframe, a second identity, a second meaning of volume. */
  lemma RefusedInput(s: seq<Candle>, e: AggregationError)
    requires s != []
    ensures var wrong, mixed, meanings := s[0].key.timeframe != M15, (exists x :: x in s && x.key != s[0].key), (exists x :: x in s && x.semantics != s[0].semantics);
            Aggregation.Admission(s) == Some(e) <==>
              if wrong then e == WrongTimeframe else if mixed then e == MixedIdentity else meanings && e == MixedSemantics
    ensures var wrong, mixed, meanings := s[0].key.timeframe != D1, (exists x :: x in s && x.key != s[0].key), (exists x :: x in s && x.semantics != s[0].semantics);
            ByWeek.Admission(s) == Some(e) <==>
              if wrong then e == WrongTimeframe else if mixed then e == MixedIdentity else meanings && e == MixedSemantics
  {
    Mixed(s);
    hide OneIdentity, OneSemantics;
  }

  lemma Mixed(s: seq<Candle>)
    requires s != []
    ensures OneIdentity(s) <==> !exists x :: x in s && x.key != s[0].key
    ensures OneSemantics(s) <==> !exists x :: x in s && x.semantics != s[0].semantics
  {
    forall x | x in s
      ensures OneIdentity(s) ==> x.key == s[0].key
      ensures OneSemantics(s) ==> x.semantics == s[0].semantics
    {
      var i :| 0 <= i < |s| && s[i] == x;
    }
    assert forall i :: 0 <= i < |s| ==> s[i] in s;
  }

  // ----- weekly candles -----

  /** The daily bar is over at the cutoff and lies on a session day of week `w`. */
  ghost predicate GoesToWeek(cal: Spec, cutoff: int, w: int, t: int) {
    DayOver(cal, cutoff, t) && LocalDay(cal, t) / 7 == w && (cal.id == Crypto || cal.id == UsFutures || LocalDay(cal, t) % 7 <= 4)
  }

  lemma WeekIff(cal: Spec, cutoff: int, w: int, t: int)
    requires cal.Known()
    ensures GoesToWeek(cal, cutoff, w, t) <==> DayPlace(cal, cutoff, t) == InBucket(w)
  {
    hide DayOver, BarEnd, LocalDay;
    DailyClosed(cal, cutoff, t);
  }

  lemma WeekPicks(cal: Spec, cutoff: int, s: seq<Candle>, w: int)
    requires cal.Known()
    ensures var bars := SortRows(WeekRows(cal, cutoff, s, w));
            SortedByStamp(bars) && forall x :: multiset(bars)[x] == if GoesToWeek(cal, cutoff, w, x.stamp) then multiset(s)[x] else 0
  {
    hide DayPlace, DayRows, SortRows, GoesToWeek, SortedByStamp;
    var rows := WeekRows(cal, cutoff, s, w);
    SortRowsSorted(rows);
    forall x
      ensures multiset(SortRows(rows))[x] == if GoesToWeek(cal, cutoff, w, x.stamp) then multiset(s)[x] else 0
    {
      DayRowsCount(cal, cutoff, s, InBucket(w), x);
      WeekIff(cal, cutoff, w, x.stamp);
    }
  }

  /** The candle carries the date of its week's last session day, the week is over, and it sums up exactly the bars of the week. */
  ghost predicate WeekSummary(cal: Spec, cutoff: int, s: seq<Candle>, w: int, bars: seq<Candle>, c: Candle)
    requires s != []
  {
    && WeekOver(cal, cutoff, w) && c.stamp == (7 * w + if cal.id == Crypto || cal.id == UsFutures then 6 else 4) * 86_400_000_000
    && SortedByStamp(bars) && (forall x :: multiset(bars)[x] == if GoesToWeek(cal, cutoff, w, x.stamp) then multiset(s)[x] else 0)
    && SumsUp(bars, c) && c.key == s[0].key.(timeframe := W1)
  }

  /** Every published weekly candle sums up exactly the bars of its week, which is over. */
  lemma WeeklySumsUp(cal: Spec, cutoff: int, s: seq<Candle>, c: Candle) returns (w: int, bars: seq<Candle>)
    requires cal.Known() && s != [] && c in ByWeek.Outcome(cal, cutoff, s).candles
    ensures WeekSummary(cal, cutoff, s, w, bars, c)
  {
    hide WeekRows, SortRows, ByWeek.Outcome, AggregateRows, SumsUp, GoesToWeek, WeekOver, WeekClose, SortedByStamp;
    WeeklyExactness(cal, cutoff, s);
    w :| FoldsWeek(cal, cutoff, s, w, c);
    bars := SortRows(WeekRows(cal, cutoff, s, w));
    WeekPicks(cal, cutoff, s, w);
    WeekOverIff(cal, cutoff, w);
    WeekCandleStamp(cal, cutoff, s, w);
    FoldSumsUp(bars, OutputKey(s[0].key, W1), WeekStamp(cal, w));
  }

  /** A week is published exactly when it is over and some bar goes to it. */
  lemma WeekPublished(cal: Spec, cutoff: int, s: seq<Candle>, w: int)
    requires cal.Known() && s != []
    ensures (exists c :: c in ByWeek.Outcome(cal, cutoff, s).candles && FoldsWeek(cal, cutoff, s, w, c)) <==>
            WeekOver(cal, cutoff, w) && exists x :: x in s && GoesToWeek(cal, cutoff, w, x.stamp)
  {
    hide WeekRows, SortRows, ByWeek.Outcome, AggregateRows, GoesToWeek, WeekOver, WeekClose, SortedByStamp;
    WeeklyExactness(cal, cutoff, s);
    WeekOverIff(cal, cutoff, w);
    WeekPicks(cal, cutoff, s, w);
    var rows := WeekRows(cal, cutoff, s, w);
    var bars := SortRows(rows);
    assert bars != [] ==> multiset(bars)[bars[0]] > 0;
    forall x | x in s && GoesToWeek(cal, cutoff, w, x.stamp)
      ensures bars != []
    {
      assert multiset(s)[x] > 0 && multiset(bars)[x] > 0;
    }
    if bars != [] {
      assert bars[0] in s && GoesToWeek(cal, cutoff, w, bars[0].stamp);
    }
    if rows != [] && WeekClose(cal, w) <= cutoff {
      assert FoldsWeek(cal, cutoff, s, w, WeekCandle(cal, cutoff, s, w));
    }
  }

  /** Weekly candles of admissible bars are admissible, when the date of the week's last session day exists. */
  lemma WeeklyValid(cal: Spec, cutoff: int, s: seq<Candle>, c: Candle)
    requires cal.Known() && s != [] && c in ByWeek.Outcome(cal, cutoff, s).candles
    requires (forall x :: x in s ==> x.Valid()) && Representable(c.stamp)
    ensures c.Valid()
  {
    hide ByWeek.Outcome, SumsUp, Candle.Valid, GoesToWeek, Representable, WeekOver;
    var w, bars := WeeklySumsUp(cal, cutoff, s, c);
    forall x | x in bars
      ensures x in s
    {
      assert multiset(bars)[x] > 0 && multiset(s)[x] > 0;
    }
    SummaryValid(bars, c);
  }

  /** The weekly receipt spans the input and counts the weeks that are deferred. */
  lemma WeeklyReceiptSays(cal: Spec, cutoff: int, s: seq<Candle>)
    requires cal.Known() && s != []
    ensures var out := ByWeek.Outcome(cal, cutoff, s);
            && (out.receipt.Some? <==> out.candles != [])
            && (out.receipt.Some? ==> out.receipt.value.output == W1 && out.receipt.value.partialCount == |out.deferred|
                                      && Spans(s, out.receipt.value.inputStart, out.receipt.value.inputEnd))
  {
    hide Published, Deferred, Weeks, ClosesLate, DayIssues;
    MinMax(s);
  }
}
