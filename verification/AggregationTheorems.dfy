/**
 What the intraday aggregators promise: exact buckets, independence of input order, a partition of
 the input with conserved volume, and when raising the cutoff can change a published candle.
 Throughout, `s` is an admitted, non-empty input (see Aggregation.AggregateQuarters).
 */
module AggregationTheorems {
  import opened Storage
  import opened Calendar
  import opened Aggregation
  import opened AggregationLemmas

  // ----- exactness -----

  lemma StampsConcat(a: seq<Candle>, b: seq<Candle>)
    ensures Stamps(a + b) == Stamps(a) + Stamps(b)
  {
    hide Stamps;
  }

  lemma {:induction false} InsertRowStamps(c: Candle, s: seq<Candle>)
    ensures multiset(Stamps(InsertRow(c, s))) == multiset(Stamps(s)) + multiset{c.stamp}
  {
    hide Stamps;
    assert Stamps([c]) == [c.stamp];
    if s == [] || c.stamp < s[0].stamp {
      StampsConcat([c], s);
    } else {
      InsertRowStamps(c, s[1..]);
      StampsConcat([s[0]], s[1..]);
      StampsConcat([s[0]], InsertRow(c, s[1..]));
      assert s == [s[0]] + s[1..];
    }
  }

  lemma {:induction false} SortRowsStamps(s: seq<Candle>)
    ensures multiset(Stamps(SortRows(s))) == multiset(Stamps(s))
  {
    hide Stamps, InsertRow;
    if s != [] {
      var n := |s| - 1;
      SortRowsStamps(s[..n]);
      InsertRowStamps(s[n], SortRows(s[..n]));
      StampsConcat(s[..n], [s[n]]);
      assert Stamps([s[n]]) == [s[n].stamp];
      assert s == s[..n] + [s[n]];
    }
  }

  lemma SameFirstInt(a: seq<int>, b: seq<int>)
    requires multiset(a) == multiset(b) && a != [] && NonDecreasing(a) && NonDecreasing(b)
    ensures b != [] && a[0] == b[0]
  {
    assert a[0] in multiset(b);
    assert b[0] in multiset(a);
  }

  lemma {:induction false} NonDecreasingUnique(a: seq<int>, b: seq<int>)
    requires multiset(a) == multiset(b) && NonDecreasing(a) && NonDecreasing(b)
    ensures a == b
  {
    assert |a| == |b| by {
      assert |multiset(a)| == |a| && |multiset(b)| == |b|;
    }
    if a != [] {
      SameFirstInt(a, b);
      DropFirst(a);
      DropFirst(b);
      NonDecreasingUnique(a[1..], b[1..]);
      assert a == [a[0]] + a[1..] && b == [b[0]] + b[1..];
    }
  }

  /** A bucket is complete exactly when its bars' stamps are the grid's stamps, each once. */
  lemma CompleteIff(cal: Spec, tf: Timeframe, cutoff: int, s: seq<Candle>, b: int)
    requires cal.Known() && IsOutput(tf)
    ensures Complete(cal, tf, cutoff, s, b) <==>
            multiset(Stamps(RowsIn(cal, tf, cutoff, s, b))) == multiset(Grid(cal, tf, b))
  {
    hide RowsIn, Grid, SortRows;
    var rows := RowsIn(cal, tf, cutoff, s, b);
    SortRowsStamps(rows);
    SortRowsSorted(rows);
    GridAscending(cal, tf, b);
    if multiset(Stamps(rows)) == multiset(Grid(cal, tf, b)) {
      NonDecreasingUnique(Stamps(SortRows(rows)), Grid(cal, tf, b));
    }
  }

  lemma BucketCandleStamp(cal: Spec, tf: Timeframe, cutoff: int, s: seq<Candle>, b: int)
    requires cal.Known() && IsOutput(tf) && s != [] && Complete(cal, tf, cutoff, s, b)
    ensures BucketCandle(cal, tf, cutoff, s, b).stamp == b
  {
  }

  lemma StillAscends(out: seq<int>, bs: seq<int>)
    requires bs != [] && Ascending(bs) && Ascending(out) && forall b :: b in out ==> b in bs[..|bs| - 1]
    ensures Ascending(out + [bs[|bs| - 1]])
  {
    assert forall i :: 0 <= i < |out| ==> out[i] in out;
  }

  lemma {:induction false} EmittedAt(cal: Spec, tf: Timeframe, cutoff: int, s: seq<Candle>, bs: seq<int>)
    requires cal.Known() && IsOutput(tf) && s != [] && Ascending(bs)
    ensures var out := Emitted(cal, tf, cutoff, s, bs);
            && Ascending(Stamps(out))
            && (forall b :: b in Stamps(out) <==> b in bs && Complete(cal, tf, cutoff, s, b))
            && (forall c :: c in out ==>
                  c.stamp in bs && Complete(cal, tf, cutoff, s, c.stamp) && c == BucketCandle(cal, tf, cutoff, s, c.stamp))
  {
    hide Complete, BucketCandle, Stamps;
    if bs != [] {
      var n := |bs| - 1;
      EmittedAt(cal, tf, cutoff, s, bs[..n]);
      var before := Emitted(cal, tf, cutoff, s, bs[..n]);
      assert forall b :: b in bs <==> b in bs[..n] || b == bs[n];
      if Complete(cal, tf, cutoff, s, bs[n]) {
        hide Ascending;
        var c := BucketCandle(cal, tf, cutoff, s, bs[n]);
        BucketCandleStamp(cal, tf, cutoff, s, bs[n]);
        StampsConcat(before, [c]);
        assert Stamps(before + [c]) == Stamps(before) + [bs[n]];
        StillAscends(Stamps(before), bs);
      } else {
        assert Emitted(cal, tf, cutoff, s, bs) == before;
      }
    }
  }

  lemma {:induction false} PartialAt(cal: Spec, tf: Timeframe, cutoff: int, s: seq<Candle>, bs: seq<int>)
    requires cal.Known() && IsOutput(tf) && Ascending(bs)
    ensures var out := Partials(cal, tf, cutoff, s, bs);
            && Ascending(out)
            && (forall b :: b in out <==> b in bs && !Complete(cal, tf, cutoff, s, b))
  {
    hide Complete;
    if bs != [] {
      var n := |bs| - 1;
      PartialAt(cal, tf, cutoff, s, bs[..n]);
      var before := Partials(cal, tf, cutoff, s, bs[..n]);
      forall b
        ensures b in bs <==> b in bs[..n] || b == bs[n]
      {
      }
      forall i | 0 <= i < |before|
        ensures before[i] < bs[n]
      {
        assert before[i] in bs[..n];
      }
    }
  }

  lemma CompleteIsUsed(cal: Spec, tf: Timeframe, cutoff: int, s: seq<Candle>, b: int)
    requires cal.Known() && IsOutput(tf)
    ensures Complete(cal, tf, cutoff, s, b) ==> RowsIn(cal, tf, cutoff, s, b) != []
  {
    hide RowsIn, SortRows;
    GridNonEmpty(cal, tf, b);
  }

  /**
   The published candles are exactly the complete buckets and the recorded partial buckets exactly
   the incomplete ones that received a bar; both lists strictly increase.
   */
  lemma Exactness(cal: Spec, tf: Timeframe, cutoff: int, s: seq<Candle>)
    requires cal.Known() && IsOutput(tf) && s != []
    ensures var out := Aggregate(cal, tf, cutoff, s);
            && Ascending(Stamps(out.candles)) && Ascending(out.partial)
            && (forall b :: b in Stamps(out.candles) <==>
                            multiset(Stamps(RowsIn(cal, tf, cutoff, s, b))) == multiset(Grid(cal, tf, b)))
            && (forall b :: b in out.partial <==>
                            RowsIn(cal, tf, cutoff, s, b) != [] && b !in Stamps(out.candles))
            && (forall c :: c in out.candles ==>
                  Complete(cal, tf, cutoff, s, c.stamp) && c == BucketCandle(cal, tf, cutoff, s, c.stamp))
  {
    hide RowsIn, SortRows, Emitted, Partials, Buckets, Complete, BucketCandle;
    var bs := Buckets(cal, tf, cutoff, s);
    BucketsAscending(cal, tf, cutoff, s);
    EmittedAt(cal, tf, cutoff, s, bs);
    PartialAt(cal, tf, cutoff, s, bs);
    var out := Aggregate(cal, tf, cutoff, s);
    forall b
      ensures b in Stamps(out.candles) <==>
              multiset(Stamps(RowsIn(cal, tf, cutoff, s, b))) == multiset(Grid(cal, tf, b))
    {
      CompleteIff(cal, tf, cutoff, s, b);
      CompleteIsUsed(cal, tf, cutoff, s, b);
    }
  }

  // ----- order independence -----

  lemma SameRows(cal: Spec, tf: Timeframe, cutoff: int, s: seq<Candle>, t: seq<Candle>, b: int)
    requires cal.Known() && IsOutput(tf) && multiset(s) == multiset(t)
    ensures multiset(RowsIn(cal, tf, cutoff, s, b)) == multiset(RowsIn(cal, tf, cutoff, t, b))
    ensures RowsIn(cal, tf, cutoff, s, b) != [] <==> RowsIn(cal, tf, cutoff, t, b) != []
  {
    hide PlaceOf, Placed;
    var r, q := RowsIn(cal, tf, cutoff, s, b), RowsIn(cal, tf, cutoff, t, b);
    forall c
      ensures multiset(r)[c] == multiset(q)[c]
    {
      PlacedRows(cal, tf, cutoff, s, InBucket(b), c);
      PlacedRows(cal, tf, cutoff, t, InBucket(b), c);
    }
    assert |multiset(r)| == |r| && |multiset(q)| == |q|;
  }

  lemma SameBucket(cal: Spec, tf: Timeframe, cutoff: int, s: seq<Candle>, t: seq<Candle>, b: int)
    requires cal.Known() && IsOutput(tf) && multiset(s) == multiset(t)
    requires Complete(cal, tf, cutoff, s, b)
    ensures Complete(cal, tf, cutoff, t, b)
    ensures SortRows(RowsIn(cal, tf, cutoff, s, b)) == SortRows(RowsIn(cal, tf, cutoff, t, b))
  {
    hide RowsIn, SortRows, Grid;
    SameRows(cal, tf, cutoff, s, t, b);
    GridAscending(cal, tf, b);
    SortRowsSorted(RowsIn(cal, tf, cutoff, t, b));
    AscendingHasNoTwins(SortRows(RowsIn(cal, tf, cutoff, s, b)));
    SortedUnique(SortRows(RowsIn(cal, tf, cutoff, s, b)), SortRows(RowsIn(cal, tf, cutoff, t, b)));
  }

  lemma SameKey(s: seq<Candle>, t: seq<Candle>)
    requires s != [] && t != [] && multiset(s) == multiset(t) && OneIdentity(s)
    ensures s[0].key == t[0].key
  {
    assert t[0] in multiset(s);
    var i :| 0 <= i < |s| && s[i] == t[0];
  }

  /** Candles and partial buckets depend only on the multiset of input bars. */
  lemma PermutationInvariance(cal: Spec, tf: Timeframe, cutoff: int, s: seq<Candle>, t: seq<Candle>)
    requires cal.Known() && IsOutput(tf) && s != [] && t != []
    requires multiset(s) == multiset(t) && OneIdentity(s)
    ensures Aggregate(cal, tf, cutoff, s).candles == Aggregate(cal, tf, cutoff, t).candles
    ensures Aggregate(cal, tf, cutoff, s).partial == Aggregate(cal, tf, cutoff, t).partial
  {
    hide RowsIn, SortRows, Emitted, Partials, Buckets, Complete;
    var bs := Buckets(cal, tf, cutoff, s);
    BucketsAscending(cal, tf, cutoff, s);
    BucketsAscending(cal, tf, cutoff, t);
    forall b
      ensures b in bs <==> b in Buckets(cal, tf, cutoff, t)
    {
      SameRows(cal, tf, cutoff, s, t, b);
    }
    AscendingUnique(bs, Buckets(cal, tf, cutoff, t));
    SameKey(s, t);
    SameEmission(cal, tf, cutoff, s, t, bs);
  }

  lemma {:induction false} SameEmission(cal: Spec, tf: Timeframe, cutoff: int, s: seq<Candle>, t: seq<Candle>, bs: seq<int>)
    requires cal.Known() && IsOutput(tf) && s != [] && t != []
    requires multiset(s) == multiset(t) && s[0].key == t[0].key
    ensures Emitted(cal, tf, cutoff, s, bs) == Emitted(cal, tf, cutoff, t, bs)
    ensures Partials(cal, tf, cutoff, s, bs) == Partials(cal, tf, cutoff, t, bs)
  {
    hide Complete, AggregateRows, SortRows, RowsIn;
    if bs != [] {
      var b := bs[|bs| - 1];
      SameEmission(cal, tf, cutoff, s, t, bs[..|bs| - 1]);
      if Complete(cal, tf, cutoff, s, b) {
        SameBucket(cal, tf, cutoff, s, t, b);
      }
      if Complete(cal, tf, cutoff, t, b) {
        SameBucket(cal, tf, cutoff, t, s, b);
      }
    }
  }
}
