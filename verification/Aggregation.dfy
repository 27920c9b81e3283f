/**
 15m to 4h and 15m to 1h aggregation (src/kline/market_calendar.py).  The two source functions
 differ only in how a bucket is anchored and which stamps it must hold, so they share one method
 here, parameterised by the output timeframe.
 */
module Aggregation {
  import opened Results
  import opened Timestamps
  import opened Storage
  import opened Calendar

  predicate IsOutput(tf: Timeframe) {
    tf == H4 || tf == H1
  }

  // ----- where a bar goes -----

  function FourHourBucket(cal: Spec, t: int): int {
    var day := LocalDay(cal, t);
    if cal.id == CnA then Instant(cal, day, cal.anchor)
    else
      var anchor := Instant(cal, if TimeOfDay(cal, t) < cal.anchor then day - 1 else day, cal.anchor);
      anchor + (t - anchor) / FOUR_HOURS * FOUR_HOURS
  }

  function OneHourBucket(cal: Spec, t: int): int {
    var day := LocalDay(cal, t);
    if cal.id == CnA then
      var anchor := Instant(cal, day, if TimeOfDay(cal, t) >= Clock(13, 0) then Clock(13, 0) else Clock(9, 30));
      anchor + (t - anchor) / HOUR * HOUR
    else
      var anchor := Instant(cal, if TimeOfDay(cal, t) < cal.anchor then day - 1 else day, cal.anchor);
      anchor + (t - anchor) / HOUR * HOUR
  }

  function Bucket(cal: Spec, tf: Timeframe, t: int): int
    requires IsOutput(tf)
  {
    if tf == H4 then FourHourBucket(cal, t) else OneHourBucket(cal, t)
  }

  function Quarters(start: int, n: nat): seq<int> {
    seq(n, i => start + i * QUARTER)
  }

  /** The stamps a complete bucket consists of. */
  function Grid(cal: Spec, tf: Timeframe, b: int): seq<int>
    requires IsOutput(tf)
  {
    if tf == H1 then Quarters(b, 4)
    else if cal.id == CnA then
      Quarters(Instant(cal, LocalDay(cal, b), Clock(9, 30)), 8) +
      Quarters(Instant(cal, LocalDay(cal, b), Clock(13, 0)), 8)
    else Quarters(b, 16)
  }

  datatype Place = Forming | OutOfSession | Holiday | InBucket(start: int)

  function PlaceOf(cal: Spec, tf: Timeframe, cutoff: int, t: int): Place
    requires cal.Known() && IsOutput(tf)
  {
    if BarEnd(cal, M15, t) > cutoff then Forming
    else if !cal.Continuous() && !InsideSession(cal, t) then OutOfSession
    else if !TradingDay(cal, LocalDay(cal, t)) then Holiday
    else InBucket(Bucket(cal, tf, t))
  }

  // ----- sorting -----

  predicate Ascending(s: seq<int>) {
    forall i, j :: 0 <= i < j < |s| ==> s[i] < s[j]
  }

  function InsertInt(x: int, s: seq<int>): (r: seq<int>)
    ensures multiset(r) == multiset(s) + multiset{x}
  {
    if s == [] || x <= s[0] then
      assert [x] + s == [x] + s;
      [x] + s
    else
      assert s == [s[0]] + s[1..];
      [s[0]] + InsertInt(x, s[1..])
  }

  /** `sorted` over the keys of a dict. */
  function SortInts(s: seq<int>): (r: seq<int>)
    ensures multiset(r) == multiset(s)
  {
    if s == [] then []
    else
      assert s == s[..|s| - 1] + [s[|s| - 1]];
      InsertInt(s[|s| - 1], SortInts(s[..|s| - 1]))
  }

  predicate SortedByStamp(s: seq<Candle>) {
    forall i, j :: 0 <= i < j < |s| ==> s[i].stamp <= s[j].stamp
  }

  /** Insert after every row that is not later: the sort is stable. */
  function InsertRow(c: Candle, s: seq<Candle>): (r: seq<Candle>)
    ensures multiset(r) == multiset(s) + multiset{c}
  {
    if s == [] || c.stamp < s[0].stamp then [c] + s
    else
      assert s == [s[0]] + s[1..];
      [s[0]] + InsertRow(c, s[1..])
  }

  /** `rows.sort(key=stamp)` */
  function SortRows(s: seq<Candle>): (r: seq<Candle>)
    ensures multiset(r) == multiset(s) && |r| == |s|
  {
    if s == [] then []
    else
      assert s == s[..|s| - 1] + [s[|s| - 1]];
      assert |multiset(s)| == |s|;
      InsertRow(s[|s| - 1], SortRows(s[..|s| - 1]))
  }

  // ----- folding a bucket -----

  function High(rows: seq<Candle>): real
    requires rows != []
  {
    if |rows| == 1 then rows[0].high
    else
      var h := High(rows[..|rows| - 1]);
      if rows[|rows| - 1].high > h then rows[|rows| - 1].high else h
  }

  function Low(rows: seq<Candle>): real
    requires rows != []
  {
    if |rows| == 1 then rows[0].low
    else
      var l := Low(rows[..|rows| - 1]);
      if rows[|rows| - 1].low < l then rows[|rows| - 1].low else l
  }

  function OrZero(v: Option<real>): real {
    match v
    case Some(x) => x
    case None => 0.0
  }

  function VolumeSum(rows: seq<Candle>): real {
    if rows == [] then 0.0 else VolumeSum(rows[..|rows| - 1]) + OrZero(rows[|rows| - 1].volume)
  }

  function AmountSum(rows: seq<Candle>): real {
    if rows == [] then 0.0 else AmountSum(rows[..|rows| - 1]) + OrZero(rows[|rows| - 1].amount)
  }

  function AggregateRows(rows: seq<Candle>, key: SeriesKey, stamp: int, derived: bool): Candle
    requires rows != []
  {
    Candle(key, stamp, rows[0].open, High(rows), Low(rows), rows[|rows| - 1].close,
           if rows[0].semantics != NotApplicable then Some(VolumeSum(rows)) else None,
           if rows[0].amount.Some? then Some(AmountSum(rows)) else None,
           rows[0].semantics, derived, None)
  }

  function Stamps(s: seq<Candle>): (r: seq<int>)
    ensures |r| == |s| && forall i :: 0 <= i < |s| ==> r[i] == s[i].stamp
  {
    seq(|s|, i requires 0 <= i < |s| => s[i].stamp)
  }

  // ----- the specification -----

  /** The rows of `s` that sit at `place`, in input order. */
  function Placed(cal: Spec, tf: Timeframe, cutoff: int, s: seq<Candle>, place: Place): (r: seq<Candle>)
    requires cal.Known() && IsOutput(tf)
  {
    if s == [] then []
    else
      var r := Placed(cal, tf, cutoff, s[..|s| - 1], place);
      var c := s[|s| - 1];
      if PlaceOf(cal, tf, cutoff, c.stamp) == place then r + [c] else r
  }

  /** The rows of `s` placed in bucket `b`. */
  function RowsIn(cal: Spec, tf: Timeframe, cutoff: int, s: seq<Candle>, b: int): seq<Candle>
    requires cal.Known() && IsOutput(tf)
  {
    Placed(cal, tf, cutoff, s, InBucket(b))
  }

  /** The buckets of `s` in order of first use. */
  function BucketKeys(cal: Spec, tf: Timeframe, cutoff: int, s: seq<Candle>): seq<int>
    requires cal.Known() && IsOutput(tf)
  {
    if s == [] then []
    else
      var keys := BucketKeys(cal, tf, cutoff, s[..|s| - 1]);
      match PlaceOf(cal, tf, cutoff, s[|s| - 1].stamp)
      case InBucket(b) => if b in keys then keys else keys + [b]
      case _ => keys
  }

  function BarIssues(cal: Spec, tf: Timeframe, cutoff: int, s: seq<Candle>): seq<Issue>
    requires cal.Known() && IsOutput(tf)
  {
    if s == [] then []
    else
      var t := s[|s| - 1].stamp;
      BarIssues(cal, tf, cutoff, s[..|s| - 1]) +
      match PlaceOf(cal, tf, cutoff, t)
      case Forming => [Issue(FormingBar, At(t))]
      case OutOfSession => [Issue(OutsideSession, At(t))]
      case Holiday => [Issue(HolidayBar, At(t))]
      case InBucket(_) => []
  }

  predicate Complete(cal: Spec, tf: Timeframe, cutoff: int, s: seq<Candle>, b: int)
    requires cal.Known() && IsOutput(tf)
  {
    Stamps(SortRows(RowsIn(cal, tf, cutoff, s, b))) == Grid(cal, tf, b)
  }

  function OutputKey(key: SeriesKey, tf: Timeframe): SeriesKey {
    key.(timeframe := tf)
  }

  /** The candle a complete bucket publishes. */
  function BucketCandle(cal: Spec, tf: Timeframe, cutoff: int, s: seq<Candle>, b: int): Candle
    requires cal.Known() && IsOutput(tf) && s != [] && Complete(cal, tf, cutoff, s, b)
  {
    GridNonEmpty(cal, tf, b);
    AggregateRows(SortRows(RowsIn(cal, tf, cutoff, s, b)), OutputKey(s[0].key, tf), b, true)
  }

  lemma GridNonEmpty(cal: Spec, tf: Timeframe, b: int)
    requires IsOutput(tf)
    ensures |Grid(cal, tf, b)| == if tf == H1 then 4 else 16
  {
  }

  function Emitted(cal: Spec, tf: Timeframe, cutoff: int, s: seq<Candle>, bs: seq<int>): seq<Candle>
    requires cal.Known() && IsOutput(tf) && s != []
  {
    if bs == [] then []
    else
      var b := bs[|bs| - 1];
      Emitted(cal, tf, cutoff, s, bs[..|bs| - 1]) +
      if Complete(cal, tf, cutoff, s, b) then [BucketCandle(cal, tf, cutoff, s, b)] else []
  }

  function Partials(cal: Spec, tf: Timeframe, cutoff: int, s: seq<Candle>, bs: seq<int>): seq<int>
    requires cal.Known() && IsOutput(tf)
  {
    if bs == [] then []
    else
      var b := bs[|bs| - 1];
      Partials(cal, tf, cutoff, s, bs[..|bs| - 1]) +
      if Complete(cal, tf, cutoff, s, b) then [] else [b]
  }

  function PartialIssues(bs: seq<int>): seq<Issue> {
    seq(|bs|, i requires 0 <= i < |bs| => Issue(PartialBucket, At(bs[i])))
  }

  /** The part of a transform receipt that is computed from the rows; digests are opaque. */
  datatype Receipt = Receipt(output: Timeframe, inputStart: int, inputEnd: int, partialCount: nat)

  datatype Outcome = Outcome(
    candles: seq<Candle>, receipt: Option<Receipt>, partial: seq<int>, forming: seq<int>, issues: seq<Issue>)

  datatype AggregationError = WrongTimeframe | MixedIdentity | MixedSemantics

  function MinStamp(s: seq<Candle>): int
    requires s != []
  {
    if |s| == 1 then s[0].stamp
    else
      var m := MinStamp(s[..|s| - 1]);
      if s[|s| - 1].stamp < m then s[|s| - 1].stamp else m
  }

  function MaxStamp(s: seq<Candle>): int
    requires s != []
  {
    if |s| == 1 then s[0].stamp
    else
      var m := MaxStamp(s[..|s| - 1]);
      if s[|s| - 1].stamp > m then s[|s| - 1].stamp else m
  }

  function Buckets(cal: Spec, tf: Timeframe, cutoff: int, s: seq<Candle>): seq<int>
    requires cal.Known() && IsOutput(tf)
  {
    SortInts(BucketKeys(cal, tf, cutoff, s))
  }

  function Aggregate(cal: Spec, tf: Timeframe, cutoff: int, s: seq<Candle>): Outcome
    requires cal.Known() && IsOutput(tf) && s != []
  {
    var bs := Buckets(cal, tf, cutoff, s);
    var out, partial := Emitted(cal, tf, cutoff, s, bs), Partials(cal, tf, cutoff, s, bs);
    Outcome(out,
            if out == [] then None else Some(Receipt(tf, MinStamp(s), MaxStamp(s), |partial|)),
            partial,
            Stamps(Placed(cal, tf, cutoff, s, Forming)),
            SequenceIssues(s) + BarIssues(cal, tf, cutoff, s) + PartialIssues(partial))
  }

  predicate OneIdentity(s: seq<Candle>) {
    forall i :: 0 <= i < |s| ==> s[i].key == s[0].key
  }

  predicate OneSemantics(s: seq<Candle>) {
    forall i :: 0 <= i < |s| ==> s[i].semantics == s[0].semantics
  }

  function Admission(s: seq<Candle>): Option<AggregationError>
    requires s != []
  {
    if s[0].key.timeframe != M15 then Some(WrongTimeframe)
    else if !OneIdentity(s) then Some(MixedIdentity)
    else if !OneSemantics(s) then Some(MixedSemantics)
    else None
  }

  /** What one more bar adds to each collection of the grouping loop. */
  lemma OneMoreBar(cal: Spec, tf: Timeframe, cutoff: int, s: seq<Candle>, i: nat)
    requires cal.Known() && IsOutput(tf) && i < |s|
    ensures var c, p, q := s[i], s[..i], s[..i + 1];
            var place, keys := PlaceOf(cal, tf, cutoff, c.stamp), BucketKeys(cal, tf, cutoff, p);
            && BucketKeys(cal, tf, cutoff, q) == (if place.InBucket? && place.start !in keys then keys + [place.start] else keys)
            && Stamps(Placed(cal, tf, cutoff, q, Forming)) == Stamps(Placed(cal, tf, cutoff, p, Forming)) + (if place == Forming then [c.stamp] else [])
            && BarIssues(cal, tf, cutoff, q) == BarIssues(cal, tf, cutoff, p) +
               (match place case Forming => [Issue(FormingBar, At(c.stamp))] case OutOfSession => [Issue(OutsideSession, At(c.stamp))]
                case Holiday => [Issue(HolidayBar, At(c.stamp))] case InBucket(_) => [])
            && (forall b :: RowsIn(cal, tf, cutoff, q, b) ==
                            RowsIn(cal, tf, cutoff, p, b) + (if place == InBucket(b) then [c] else []))
  {
    assert s[..i + 1][..i] == s[..i];
  }

  /** A bucket is in use exactly when some row is placed in it. */
  lemma {:induction false} KeysAreUsed(cal: Spec, tf: Timeframe, cutoff: int, s: seq<Candle>, b: int)
    requires cal.Known() && IsOutput(tf)
    ensures b in BucketKeys(cal, tf, cutoff, s) <==> RowsIn(cal, tf, cutoff, s, b) != []
  {
    hide PlaceOf;
    if s != [] {
      KeysAreUsed(cal, tf, cutoff, s[..|s| - 1], b);
    }
  }

  /** What one more bucket adds to the published and to the dropped buckets. */
  lemma OneMoreBucket(cal: Spec, tf: Timeframe, cutoff: int, s: seq<Candle>, bs: seq<int>, i: nat)
    requires cal.Known() && IsOutput(tf) && s != [] && i < |bs|
    ensures var b := bs[i];
            && Emitted(cal, tf, cutoff, s, bs[..i + 1]) == Emitted(cal, tf, cutoff, s, bs[..i]) +
               (if Complete(cal, tf, cutoff, s, b) then [BucketCandle(cal, tf, cutoff, s, b)] else [])
            && Partials(cal, tf, cutoff, s, bs[..i + 1]) == Partials(cal, tf, cutoff, s, bs[..i]) +
               (if Complete(cal, tf, cutoff, s, b) then [] else [b])
  {
    hide Complete, BucketCandle;
    assert bs[..i + 1][..i] == bs[..i];
  }

  /** The grouping loop: every bar is forming, outside, on a holiday, or appended to its bucket. */
  method GroupBars(s: seq<Candle>, cal: Spec, tf: Timeframe, cutoff: int)
    returns (grouped: map<int, seq<Candle>>, keys: seq<int>, forming: seq<int>, issues: seq<Issue>)
    requires cal.Known() && IsOutput(tf)
    ensures keys == BucketKeys(cal, tf, cutoff, s)
    ensures grouped.Keys == set b | b in keys
    ensures forall b :: b in keys ==> grouped[b] == RowsIn(cal, tf, cutoff, s, b)
    ensures forming == Stamps(Placed(cal, tf, cutoff, s, Forming))
    ensures issues == BarIssues(cal, tf, cutoff, s)
  {
    hide RowsIn, Placed, BucketKeys, BarIssues, PlaceOf;
    grouped, keys, forming, issues := map[], [], [], [];
    NoBars(cal, tf, cutoff);
    for i := 0 to |s|
      invariant keys == BucketKeys(cal, tf, cutoff, s[..i])
      invariant grouped.Keys == set b | b in keys
      invariant forall b :: b in keys ==> grouped[b] == RowsIn(cal, tf, cutoff, s[..i], b)
      invariant forming == Stamps(Placed(cal, tf, cutoff, s[..i], Forming))
      invariant issues == BarIssues(cal, tf, cutoff, s[..i])
    {
      OneMoreBar(cal, tf, cutoff, s, i);
      var c := s[i];
      match PlaceOf(cal, tf, cutoff, c.stamp)
      case Forming =>
        forming := forming + [c.stamp];
        issues := issues + [Issue(FormingBar, At(c.stamp))];
      case OutOfSession =>
        issues := issues + [Issue(OutsideSession, At(c.stamp))];
      case Holiday =>
        issues := issues + [Issue(HolidayBar, At(c.stamp))];
      case InBucket(b) =>
        KeysAreUsed(cal, tf, cutoff, s[..i], b);
        if b in grouped {
          grouped := grouped[b := grouped[b] + [c]];
        } else {
          keys := keys + [b];
          grouped := grouped[b := [c]];
        }
    }
    assert s[..|s|] == s;
  }

  lemma NoBars(cal: Spec, tf: Timeframe, cutoff: int)
    requires cal.Known() && IsOutput(tf)
    ensures BucketKeys(cal, tf, cutoff, []) == [] && Placed(cal, tf, cutoff, [], Forming) == []
    ensures BarIssues(cal, tf, cutoff, []) == []
  {
  }

  lemma NoBuckets(cal: Spec, tf: Timeframe, cutoff: int, s: seq<Candle>)
    requires cal.Known() && IsOutput(tf) && s != []
    ensures Emitted(cal, tf, cutoff, s, []) == [] && Partials(cal, tf, cutoff, s, []) == []
  {
  }

  /** The publishing loop: buckets in time order, complete ones folded, the rest recorded. */
  method PublishBuckets(grouped: map<int, seq<Candle>>, bs: seq<int>, ghost cutoff: int, s: seq<Candle>, cal: Spec, tf: Timeframe)
    returns (output: seq<Candle>, partial: seq<int>, issues: seq<Issue>)
    requires cal.Known() && IsOutput(tf) && s != []
    requires forall b :: b in bs ==> b in grouped && grouped[b] == RowsIn(cal, tf, cutoff, s, b)
    ensures output == Emitted(cal, tf, cutoff, s, bs)
    ensures partial == Partials(cal, tf, cutoff, s, bs)
    ensures issues == PartialIssues(partial)
  {
    hide RowsIn, SortRows, AggregateRows, Emitted, Partials, Grid, Calendar.SessionsOf, Calendar.SpecOf;
    output, partial, issues := [], [], [];
    NoBuckets(cal, tf, cutoff, s);
    for i := 0 to |bs|
      invariant output == Emitted(cal, tf, cutoff, s, bs[..i])
      invariant partial == Partials(cal, tf, cutoff, s, bs[..i])
      invariant issues == PartialIssues(partial)
    {
      var b := bs[i];
      OneMoreBucket(cal, tf, cutoff, s, bs, i);
      var rows := SortRows(grouped[b]);
      GridNonEmpty(cal, tf, b);
      if |rows| != |Grid(cal, tf, b)| || Stamps(rows) != Grid(cal, tf, b) {
        partial := partial + [b];
        issues := issues + [Issue(PartialBucket, At(b))];
        continue;
      }
      output := output + [AggregateRows(rows, OutputKey(s[0].key, tf), b, true)];
    }
    assert bs[..|bs|] == bs;
  }

  /** `aggregate_15m_to_4h` and `aggregate_15m_to_1h` */
  method AggregateQuarters(s: seq<Candle>, cal: Spec, tf: Timeframe, cutoff: int)
    returns (r: Result<Outcome, AggregationError>)
    requires cal.Known() && IsOutput(tf)
    ensures s == [] ==> r == Ok(Outcome([], None, [], [], []))
    ensures s != [] ==> r == match Admission(s) case Some(e) => Err(e) case None => Ok(Aggregate(cal, tf, cutoff, s))
  {
    if s == [] {
      return Ok(Outcome([], None, [], [], []));
    }
    if Admission(s).Some? {
      return Err(Admission(s).value);
    }
    var sequence := FindSequenceIssues(s);
    var grouped, keys, forming, bars := GroupBars(s, cal, tf, cutoff);
    var bs := SortInts(keys);
    assert forall b :: b in bs ==> b in multiset(bs);
    var output, partial, dropped := PublishBuckets(grouped, bs, cutoff, s, cal, tf);
    var receipt := if output == [] then None else Some(Receipt(tf, MinStamp(s), MaxStamp(s), |partial|));
    r := Ok(Outcome(output, receipt, partial, forming, sequence + bars + dropped));
  }
}
