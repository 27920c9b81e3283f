/** A 4h candle is the fold of the 1h candles published for the same bars. */
module Composition {
  import opened Results
  import opened Timestamps
  import opened Storage
  import opened Calendar
  import opened Aggregation
  import opened AggregationLemmas
  import opened AggregationTheorems
  import opened Repaint

  // ----- folds of concatenated rows -----

  function Max(a: real, b: real): real {
    if b > a then b else a
  }

  function Min(a: real, b: real): real {
    if b < a then b else a
  }

  lemma {:induction false} FoldConcat(a: seq<Candle>, b: seq<Candle>)
    requires a != [] && b != []
    ensures High(a + b) == Max(High(a), High(b)) && Low(a + b) == Min(Low(a), Low(b))
    ensures VolumeSum(a + b) == VolumeSum(a) + VolumeSum(b) && AmountSum(a + b) == AmountSum(a) + AmountSum(b)
  {
    var n := |b| - 1;
    assert (a + b)[..|a + b| - 1] == a + b[..n] && (a + b)[|a + b| - 1] == b[n];
    if n == 0 {
      assert a + b[..n] == a;
      assert b == [b[0]];
    } else {
      FoldConcat(a, b[..n]);
    }
  }

  /** What an hour without a leading amount hides from the fold of hours. */
  function AmountGap(rows: seq<Candle>): real
    requires rows != []
  {
    if rows[0].amount.Some? then 0.0 else AmountSum(rows)
  }

  lemma FoldFour(a: seq<Candle>, b: seq<Candle>, c: seq<Candle>, d: seq<Candle>)
    requires a != [] && b != [] && c != [] && d != []
    ensures var rows := a + b + c + d;
            && High(rows) == Max(Max(Max(High(a), High(b)), High(c)), High(d))
            && Low(rows) == Min(Min(Min(Low(a), Low(b)), Low(c)), Low(d))
            && VolumeSum(rows) == VolumeSum(a) + VolumeSum(b) + VolumeSum(c) + VolumeSum(d)
            && AmountSum(rows) == AmountSum(a) + AmountSum(b) + AmountSum(c) + AmountSum(d)
  {
    FoldConcat(a, b);
    FoldConcat(a + b, c);
    FoldConcat(a + b + c, d);
  }

  lemma FourItems(w: Candle, x: Candle, y: Candle, z: Candle)
    ensures var rows := [w, x, y, z];
            && High(rows) == Max(Max(Max(w.high, x.high), y.high), z.high)
            && Low(rows) == Min(Min(Min(w.low, x.low), y.low), z.low)
            && VolumeSum(rows) == OrZero(w.volume) + OrZero(x.volume) + OrZero(y.volume) + OrZero(z.volume)
            && AmountSum(rows) == OrZero(w.amount) + OrZero(x.amount) + OrZero(y.amount) + OrZero(z.amount)
  {
    FoldFour([w], [x], [y], [z]);
    assert [w] + [x] + [y] + [z] == [w, x, y, z];
    assert VolumeSum([w]) == OrZero(w.volume) && VolumeSum([x]) == OrZero(x.volume);
    assert VolumeSum([y]) == OrZero(y.volume) && VolumeSum([z]) == OrZero(z.volume);
    assert AmountSum([w]) == OrZero(w.amount) && AmountSum([x]) == OrZero(x.amount);
    assert AmountSum([y]) == OrZero(y.amount) && AmountSum([z]) == OrZero(z.amount);
  }

  predicate SameSemantics(s: seq<Candle>, v: VolumeSemantics) {
    forall i :: 0 <= i < |s| ==> s[i].semantics == v
  }

  /**
   Folding four folds is folding once, except that an amount is lost from every later part whose
   first row carries none.
   */
  lemma FoldOfFolds(a: seq<Candle>, b: seq<Candle>, c: seq<Candle>, d: seq<Candle>, v: VolumeSemantics,
                    key: SeriesKey, t: int, k: SeriesKey, ta: int, tb: int, tc: int, td: int)
    requires a != [] && b != [] && c != [] && d != []
    requires SameSemantics(a + b + c + d, v)
    ensures var whole := AggregateRows(a + b + c + d, key, t, true);
            var parts := AggregateRows([AggregateRows(a, k, ta, true), AggregateRows(b, k, tb, true),
                                        AggregateRows(c, k, tc, true), AggregateRows(d, k, td, true)], key, t, true);
            && parts.(amount := None) == whole.(amount := None)
            && (parts.amount == whole.amount <==>
                a[0].amount == None || AmountGap(b) + AmountGap(c) + AmountGap(d) == 0.0)
  {
    hide High, Low, VolumeSum, AmountSum;
    var rows := a + b + c + d;
    FoldFour(a, b, c, d);
    FourItems(AggregateRows(a, k, ta, true), AggregateRows(b, k, tb, true),
              AggregateRows(c, k, tc, true), AggregateRows(d, k, td, true));
    assert rows[0] == a[0] && rows[|a|] == b[0] && rows[|a| + |b|] == c[0] && rows[|a| + |b| + |c|] == d[0];
    assert rows[|rows| - 1] == d[|d| - 1];
  }

  // ----- the hours of a 4h bucket -----

  const LUNCH: int := 5_400_000_000

  /** The k-th hour bucket inside 4h bucket `b`; the A-share bucket spans the lunch break. */
  function HourStart(cal: Spec, b: int, k: nat): int {
    b + k * HOUR + if cal.id == CnA && k >= 2 then LUNCH else 0
  }

  /** Where 4h buckets start. */
  predicate BucketStart(cal: Spec, b: int) {
    if cal.id == CnA then TimeOfDay(cal, b) == Clock(9, 30) else FourHourBucket(cal, b) == b
  }

  lemma StartsBucket(cal: Spec, t: int)
    requires cal.Known()
    ensures BucketStart(cal, FourHourBucket(cal, t))
  {
    hide FourHourBucket;
    if cal.id == CnA {
      SessionStart(cal, t);
    } else {
      SameAnchorGrid(cal, t);
      var k := (Local(cal, t) - cal.anchor) / FOUR_HOURS;
      SameAnchorGrid(cal, FourHourBucket(cal, t));
      assert Local(cal, FourHourBucket(cal, t)) - cal.anchor == k * FOUR_HOURS;
    }
  }

  lemma SessionStart(cal: Spec, t: int)
    requires cal.Known() && cal.id == CnA
    ensures BucketStart(cal, FourHourBucket(cal, t))
  {
  }

  lemma HourGrid(cal: Spec, b: int, k: nat)
    requires cal.Known() && BucketStart(cal, b) && k < 4
    ensures |Grid(cal, H4, b)| == 16 && Grid(cal, H4, b)[4 * k..4 * k + 4] == Grid(cal, H1, HourStart(cal, b, k))
  {
    GridNonEmpty(cal, H4, b);
    if cal.id == CnA {
      assert b == Instant(cal, LocalDay(cal, b), Clock(9, 30));
      assert b + 2 * HOUR + LUNCH == Instant(cal, LocalDay(cal, b), Clock(13, 0));
    }
  }

  /** One hour divides the day too. */
  lemma SameHourGrid(cal: Spec, t: int)
    requires cal.Known() && cal.id != CnA
    ensures OneHourBucket(cal, t) == (Local(cal, t) - cal.anchor) / HOUR * HOUR + cal.anchor - cal.offset
  {
    var day := if TimeOfDay(cal, t) < cal.anchor then LocalDay(cal, t) - 1 else LocalDay(cal, t);
    var x := Local(cal, t) - cal.anchor - day * DAY;
    assert (x + 24 * day * HOUR) / HOUR == x / HOUR + 24 * day;
  }

  /** On a plain calendar, an hour bucket inside a 4h bucket holds the instants of that hour. */
  lemma PlainNesting(cal: Spec, t: int, b: int, k: nat)
    requires cal.Known() && cal.id != CnA && BucketStart(cal, b) && k < 4
    ensures var h := HourStart(cal, b, k);
            && (OneHourBucket(cal, t) == h <==> h <= t < h + HOUR)
            && (OneHourBucket(cal, t) == h ==> FourHourBucket(cal, t) == b)
  {
    hide FourHourBucket, OneHourBucket, Calendar.AnchorOf, Calendar.SessionsOf;
    SameAnchorGrid(cal, b);
    SameAnchorGrid(cal, t);
    SameHourGrid(cal, t);
    var n := (Local(cal, b) - cal.anchor) / FOUR_HOURS;
    var x := t - b;
    assert Local(cal, t) - cal.anchor == 4 * n * HOUR + x;
    assert (4 * n * HOUR + x) / HOUR == 4 * n + x / HOUR;
    assert n * FOUR_HOURS + x == 4 * n * HOUR + x;
    assert (n * FOUR_HOURS + x) / FOUR_HOURS == n + x / FOUR_HOURS;
  }

  /** An A-share session bar lies j whole hours into the morning or the afternoon, j being 0 or 1. */
  lemma SessionHour(cal: Spec, t: int) returns (open: int, j: int)
    requires cal.Known() && cal.id == CnA && InsideSession(cal, t)
    ensures open == (if TimeOfDay(cal, t) >= Clock(13, 0) then Clock(13, 0) else Clock(9, 30)) && 0 <= j < 2
    ensures OneHourBucket(cal, t) == Instant(cal, LocalDay(cal, t), open + j * HOUR)
    ensures open + j * HOUR <= TimeOfDay(cal, t) < open + (j + 1) * HOUR
  {
    var tod := TimeOfDay(cal, t);
    assert Clock(9, 30) <= tod < Clock(11, 30) || Clock(13, 0) <= tod < Clock(15, 0);
    open := if tod >= Clock(13, 0) then Clock(13, 0) else Clock(9, 30);
    j := (tod - open) / HOUR;
    assert t - Instant(cal, LocalDay(cal, t), open) == tod - open;
  }

  /** The A-share case: two hours before lunch and two after it. */
  lemma SessionNesting(cal: Spec, t: int, b: int, k: nat)
    requires cal.Known() && cal.id == CnA && BucketStart(cal, b) && k < 4 && InsideSession(cal, t)
    ensures var h := HourStart(cal, b, k);
            OneHourBucket(cal, t) == h <==> h <= t < h + HOUR
  {
    hide OneHourBucket, InsideSession, LocalDay, TimeOfDay;
    var open, j := SessionHour(cal, t);
    DayAndTime(cal, t);
    DayAndTime(cal, b);
    var start := [Clock(9, 30), Clock(10, 30), Clock(13, 0), Clock(14, 0)][k];
    assert HourStart(cal, b, k) == Instant(cal, LocalDay(cal, b), start);
    SameHour(LocalDay(cal, t), LocalDay(cal, b), open + j * HOUR, start, TimeOfDay(cal, t));
  }

  lemma DayAndTime(cal: Spec, t: int)
    ensures t == Instant(cal, LocalDay(cal, t), TimeOfDay(cal, t)) && 0 <= TimeOfDay(cal, t) < DAY
  {
  }

  /** Two hours that do not overlap: a time of the first lies in the second only when they are the same hour of the same day. */
  lemma SameHour(d: int, e: int, own: int, start: int, tod: int)
    requires 0 <= own <= tod < own + HOUR <= DAY && 0 <= start <= DAY - HOUR
    requires own == start || own + HOUR <= start || start + HOUR <= own
    ensures d * DAY + own == e * DAY + start <==> e * DAY + start <= d * DAY + tod < e * DAY + start + HOUR
  {
    if d < e {
      assert d * DAY + DAY <= e * DAY;
    } else if d > e {
      assert e * DAY + DAY <= d * DAY;
    }
  }

  lemma SessionSameDay(cal: Spec, t: int, b: int, k: nat)
    requires cal.Known() && cal.id == CnA && BucketStart(cal, b) && k < 4
    requires HourStart(cal, b, k) <= t < HourStart(cal, b, k) + HOUR
    ensures FourHourBucket(cal, t) == b
  {
    assert LocalDay(cal, t) == LocalDay(cal, b);
    assert b == Instant(cal, LocalDay(cal, b), Clock(9, 30));
  }

  lemma Nesting(cal: Spec, cutoff: int, t: int, b: int, k: nat)
    requires cal.Known() && BucketStart(cal, b) && k < 4
    ensures var h := HourStart(cal, b, k);
            PlaceOf(cal, H1, cutoff, t) == InBucket(h) <==>
            PlaceOf(cal, H4, cutoff, t) == InBucket(b) && h <= t < h + HOUR
  {
    hide FourHourBucket, OneHourBucket, BucketStart, BarEnd, HourStart;
    if cal.id != CnA {
      PlainNesting(cal, t, b, k);
    } else if InsideSession(cal, t) {
      SessionNesting(cal, t, b, k);
      if HourStart(cal, b, k) <= t < HourStart(cal, b, k) + HOUR {
        SessionSameDay(cal, t, b, k);
      }
    }
  }

  // ----- the rows of an hour are a slice of the rows of its 4h bucket -----

  lemma PresentStamp(rows: seq<Candle>, c: Candle)
    ensures multiset(rows)[c] > 0 ==> c.stamp in Stamps(rows)
  {
    if c in multiset(rows) {
      var i :| 0 <= i < |rows| && rows[i] == c;
      assert Stamps(rows)[i] == c.stamp;
    }
  }

  lemma SliceCount(rows: seq<Candle>, i: nat, j: nat, c: Candle)
    requires Ascending(Stamps(rows)) && i <= j <= |rows|
    ensures multiset(rows[i..j])[c] == if c.stamp in Stamps(rows)[i..j] then multiset(rows)[c] else 0
  {
    hide Stamps;
    assert rows == rows[..i] + rows[i..j] + rows[j..];
    assert Stamps(rows[i..j]) == Stamps(rows)[i..j];
    if c.stamp in Stamps(rows)[i..j] {
      PresentStamp(rows[..i], c);
      PresentStamp(rows[j..], c);
    } else {
      PresentStamp(rows[i..j], c);
    }
  }

  lemma UsedBucketStart(cal: Spec, cutoff: int, s: seq<Candle>, b: int)
    requires cal.Known() && Complete(cal, H4, cutoff, s, b)
    ensures BucketStart(cal, b)
  {
    hide RowsIn, Complete, BucketStart;
    CompleteIsUsed(cal, H4, cutoff, s, b);
    BucketUsed(cal, H4, cutoff, s, b);
    var c :| c in s && PlaceOf(cal, H4, cutoff, c.stamp) == InBucket(b);
    StartsBucket(cal, c.stamp);
  }

  lemma HourCount(cal: Spec, cutoff: int, s: seq<Candle>, b: int, k: nat, c: Candle)
    requires cal.Known() && Complete(cal, H4, cutoff, s, b) && BucketStart(cal, b) && k < 4
    ensures var rows := SortRows(RowsIn(cal, H4, cutoff, s, b));
            |rows| == 16 && multiset(RowsIn(cal, H1, cutoff, s, HourStart(cal, b, k)))[c] == multiset(rows[4 * k..4 * k + 4])[c]
  {
    hide PlaceOf, Placed, SortRows, BucketStart, HourStart;
    var rows, h := SortRows(RowsIn(cal, H4, cutoff, s, b)), HourStart(cal, b, k);
    assert Stamps(rows) == Grid(cal, H4, b);
    GridAscending(cal, H4, b);
    HourGrid(cal, b, k);
    SliceCount(rows, 4 * k, 4 * k + 4, c);
    PlacedRows(cal, H4, cutoff, s, InBucket(b), c);
    PlacedRows(cal, H1, cutoff, s, InBucket(h), c);
    Nesting(cal, cutoff, c.stamp, b, k);
    StampInHour(cal, b, k, c.stamp);
    if multiset(rows)[c] > 0 {
      assert c in rows;
      var i :| 0 <= i < |rows| && rows[i] == c;
      assert Stamps(rows)[i] == c.stamp;
    }
  }

  /** Of the grid stamps of a 4h bucket, those within an hour are the grid of that hour. */
  lemma StampInHour(cal: Spec, b: int, k: nat, t: int)
    requires cal.Known() && BucketStart(cal, b) && k < 4
    ensures var h := HourStart(cal, b, k);
            t in Grid(cal, H1, h) ==> h <= t < h + HOUR
    ensures var h := HourStart(cal, b, k);
            t in Grid(cal, H4, b) && h <= t < h + HOUR ==> t in Grid(cal, H1, h)
  {
    hide Grid, BucketStart, HourStart;
    GridNonEmpty(cal, H4, b);
    if t in Grid(cal, H1, HourStart(cal, b, k)) {
      HourSpan(HourStart(cal, b, k), cal, t);
    }
    if t in Grid(cal, H4, b) {
      var i :| 0 <= i < |Grid(cal, H4, b)| && Grid(cal, H4, b)[i] == t;
      HourGrid(cal, b, i / 4);
      assert Grid(cal, H4, b)[4 * (i / 4)..4 * (i / 4) + 4][i % 4] == t;
      HourSpan(HourStart(cal, b, i / 4), cal, t);
      HoursApart(cal, b, k, i / 4);
    }
  }

  lemma HourSpan(h: int, cal: Spec, t: int)
    requires t in Grid(cal, H1, h)
    ensures h <= t < h + HOUR
  {
  }

  lemma HoursApart(cal: Spec, b: int, k: nat, j: nat)
    ensures k < j ==> HourStart(cal, b, k) + HOUR <= HourStart(cal, b, j)
    ensures j < k ==> HourStart(cal, b, j) + HOUR <= HourStart(cal, b, k)
  {
  }

  /** Whenever a 4h bucket is complete so is each of its hours, and its rows are a slice of the bucket's. */
  lemma AscendingSlice(s: seq<int>, i: nat, j: nat)
    requires Ascending(s) && i <= j <= |s|
    ensures Ascending(s[i..j])
  {
  }

  lemma HourRows(cal: Spec, cutoff: int, s: seq<Candle>, b: int, k: nat)
    requires cal.Known() && Complete(cal, H4, cutoff, s, b) && k < 4
    ensures var rows, h := SortRows(RowsIn(cal, H4, cutoff, s, b)), HourStart(cal, b, k);
            |rows| == 16 && Complete(cal, H1, cutoff, s, h) && SortRows(RowsIn(cal, H1, cutoff, s, h)) == rows[4 * k..4 * k + 4]
  {
    hide RowsIn, SortRows, Grid, BucketStart, HourStart, SortedByStamp, NoTwins, Ascending, Spec.Known;
    UsedBucketStart(cal, cutoff, s, b);
    HourGrid(cal, b, k);
    GridAscending(cal, H4, b);
    var rows, h := SortRows(RowsIn(cal, H4, cutoff, s, b)), HourStart(cal, b, k);
    var hour := RowsIn(cal, H1, cutoff, s, h);
    forall c
      ensures multiset(hour)[c] == multiset(rows[4 * k..4 * k + 4])[c]
    {
      HourCount(cal, cutoff, s, b, k, c);
    }
    assert Stamps(rows[4 * k..4 * k + 4]) == Stamps(rows)[4 * k..4 * k + 4];
    AscendingSlice(Stamps(rows), 4 * k, 4 * k + 4);
    AscendingHasNoTwins(rows[4 * k..4 * k + 4]);
    SortRowsSorted(hour);
    SortedUnique(rows[4 * k..4 * k + 4], SortRows(hour));
  }

  lemma RowsOf(cal: Spec, tf: Timeframe, cutoff: int, s: seq<Candle>, b: int, v: VolumeSemantics)
    requires cal.Known() && IsOutput(tf) && SameSemantics(s, v)
    ensures SameSemantics(SortRows(RowsIn(cal, tf, cutoff, s, b)), v)
  {
    hide PlaceOf, Placed, SortRows;
    var rows := SortRows(RowsIn(cal, tf, cutoff, s, b));
    forall i | 0 <= i < |rows|
      ensures rows[i].semantics == v
    {
      assert rows[i] in multiset(rows);
      PlacedMembers(cal, tf, cutoff, s, InBucket(b), rows[i]);
      var j :| 0 <= j < |s| && s[j] == rows[i];
    }
  }

  /** The hour candles of a complete 4h bucket. */
  function HourCandles(cal: Spec, cutoff: int, s: seq<Candle>, b: int): (r: seq<Candle>)
    requires cal.Known() && s != [] && Complete(cal, H4, cutoff, s, b)
    ensures |r| == 4
  {
    HourRows(cal, cutoff, s, b, 0);
    HourRows(cal, cutoff, s, b, 1);
    HourRows(cal, cutoff, s, b, 2);
    HourRows(cal, cutoff, s, b, 3);
    [BucketCandle(cal, H1, cutoff, s, HourStart(cal, b, 0)), BucketCandle(cal, H1, cutoff, s, HourStart(cal, b, 1)),
     BucketCandle(cal, H1, cutoff, s, HourStart(cal, b, 2)), BucketCandle(cal, H1, cutoff, s, HourStart(cal, b, 3))]
  }

  lemma HourCandleRows(cal: Spec, cutoff: int, s: seq<Candle>, b: int, k: nat)
    requires cal.Known() && s != [] && Complete(cal, H4, cutoff, s, b) && k < 4
    ensures var rows := SortRows(RowsIn(cal, H4, cutoff, s, b));
            |rows| == 16 && HourCandles(cal, cutoff, s, b)[k] ==
            AggregateRows(rows[4 * k..4 * k + 4], OutputKey(s[0].key, H1), HourStart(cal, b, k), true)
  {
    hide RowsIn, SortRows, Grid, AggregateRows, HourStart;
    HourRows(cal, cutoff, s, b, k);
  }

  lemma HoursFold(cal: Spec, cutoff: int, s: seq<Candle>, b: int)
    requires cal.Known() && s != [] && OneSemantics(s) && Complete(cal, H4, cutoff, s, b)
    ensures var c := BucketCandle(cal, H4, cutoff, s, b);
            var folded := AggregateRows(HourCandles(cal, cutoff, s, b), c.key, b, true);
            var rows := SortRows(RowsIn(cal, H4, cutoff, s, b));
            && |rows| == 16
            && folded.(amount := None) == c.(amount := None)
            && (folded.amount == c.amount <==> AmountSurvives(rows))
  {
    hide RowsIn, SortRows, Grid, HourStart, AmountSurvives, High, Low, VolumeSum, AmountSum, HourCandles, Complete;
    var rows := SortRows(RowsIn(cal, H4, cutoff, s, b));
    HourCandleRows(cal, cutoff, s, b, 0);
    HourCandleRows(cal, cutoff, s, b, 1);
    HourCandleRows(cal, cutoff, s, b, 2);
    HourCandleRows(cal, cutoff, s, b, 3);
    var hours, k := HourCandles(cal, cutoff, s, b), OutputKey(s[0].key, H1);
    assert hours == [hours[0], hours[1], hours[2], hours[3]];
    RowsOf(cal, H4, cutoff, s, b, s[0].semantics);
    FoldSlices(rows, s[0].semantics, OutputKey(s[0].key, H4), b, k,
               HourStart(cal, b, 0), HourStart(cal, b, 1), HourStart(cal, b, 2), HourStart(cal, b, 3));
  }

  /** No later hour hides an amount behind an empty first row. */
  predicate AmountSurvives(rows: seq<Candle>) {
    |rows| == 16 &&
    (rows[0].amount == None || AmountGap(rows[4..8]) + AmountGap(rows[8..12]) + AmountGap(rows[12..16]) == 0.0)
  }

  lemma FoldSlices(rows: seq<Candle>, v: VolumeSemantics, key: SeriesKey, t: int, k: SeriesKey, ta: int, tb: int, tc: int, td: int)
    requires |rows| == 16 && SameSemantics(rows, v)
    ensures var whole := AggregateRows(rows, key, t, true);
            var parts := AggregateRows([AggregateRows(rows[0..4], k, ta, true), AggregateRows(rows[4..8], k, tb, true),
                                        AggregateRows(rows[8..12], k, tc, true), AggregateRows(rows[12..16], k, td, true)], key, t, true);
            && parts.(amount := None) == whole.(amount := None)
            && (parts.amount == whole.amount <==> AmountSurvives(rows))
  {
    hide AggregateRows, AmountGap;
    var a, b, c, d := rows[0..4], rows[4..8], rows[8..12], rows[12..16];
    assert rows == a + b + c + d;
    FoldOfFolds(a, b, c, d, v, key, t, k, ta, tb, tc, td);
  }

  /**
   Each published 4h candle is the fold of the four 1h candles published for the same input and
   cutoff, the A-share candle across its lunch break included.  Open, high, low, close and volume
   always agree; the amount agrees exactly when no later hour hides one behind an empty first row.
   */
  lemma FourHoursCompose(cal: Spec, cutoff: int, s: seq<Candle>, c: Candle)
    requires cal.Known() && s != [] && OneSemantics(s) && c in Aggregate(cal, H4, cutoff, s).candles
    ensures Complete(cal, H4, cutoff, s, c.stamp)
    ensures var hours := HourCandles(cal, cutoff, s, c.stamp);
            var folded := AggregateRows(hours, c.key, c.stamp, true);
            var rows := SortRows(RowsIn(cal, H4, cutoff, s, c.stamp));
            && |rows| == 16
            && (forall k :: 0 <= k < 4 ==>
                  hours[k] in Aggregate(cal, H1, cutoff, s).candles && hours[k].stamp == HourStart(cal, c.stamp, k))
            && folded.(amount := None) == c.(amount := None)
            && (folded.amount == c.amount <==> AmountSurvives(rows))
  {
    hide Aggregate, RowsIn, SortRows, Grid, HourStart, AmountSurvives, AggregateRows, HourCandles, BucketCandle, Complete;
    Exactness(cal, H4, cutoff, s);
    var b := c.stamp;
    HoursFold(cal, cutoff, s, b);
    var hours := HourCandles(cal, cutoff, s, b);
    forall i | 0 <= i < 4
      ensures hours[i] in Aggregate(cal, H1, cutoff, s).candles && hours[i].stamp == HourStart(cal, b, i)
    {
      HourPublished(cal, cutoff, s, b, i);
    }
  }

  lemma HourPublished(cal: Spec, cutoff: int, s: seq<Candle>, b: int, k: nat)
    requires cal.Known() && s != [] && Complete(cal, H4, cutoff, s, b) && k < 4
    ensures var hours := HourCandles(cal, cutoff, s, b);
            hours[k] in Aggregate(cal, H1, cutoff, s).candles && hours[k].stamp == HourStart(cal, b, k)
  {
    hide Aggregate, RowsIn, SortRows, Grid, HourStart, BucketCandle, Complete;
    var h := HourStart(cal, b, k);
    HourRows(cal, cutoff, s, b, k);
    Exactness(cal, H1, cutoff, s);
    CompleteIff(cal, H1, cutoff, s, h);
    BucketCandleStamp(cal, H1, cutoff, s, h);
    var out := Aggregate(cal, H1, cutoff, s).candles;
    assert h in Stamps(out);
    var i :| 0 <= i < |out| && out[i].stamp == h;
    assert out[i] in out;
  }
}
