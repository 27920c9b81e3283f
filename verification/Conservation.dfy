/** Every input bar lands in one place, and volume is conserved by the intraday aggregators. */
module Conservation {
  import opened Results
  import opened Storage
  import opened Calendar
  import opened Aggregation
  import opened AggregationLemmas
  import opened AggregationTheorems

  /** The rows of several buckets, one bucket after the other. */
  function Flat(cal: Spec, tf: Timeframe, cutoff: int, s: seq<Candle>, bs: seq<int>): seq<Candle>
    requires cal.Known() && IsOutput(tf)
  {
    if bs == [] then []
    else Flat(cal, tf, cutoff, s, bs[..|bs| - 1]) + RowsIn(cal, tf, cutoff, s, bs[|bs| - 1])
  }

  lemma PlacedStep(cal: Spec, tf: Timeframe, cutoff: int, s: seq<Candle>, c: Candle, place: Place)
    requires cal.Known() && IsOutput(tf)
    ensures Placed(cal, tf, cutoff, s + [c], place) ==
            Placed(cal, tf, cutoff, s, place) + if PlaceOf(cal, tf, cutoff, c.stamp) == place then [c] else []
  {
    hide PlaceOf;
    assert (s + [c])[..|s|] == s;
  }

  lemma {:induction false} FlatStep(cal: Spec, tf: Timeframe, cutoff: int, s: seq<Candle>, c: Candle, bs: seq<int>)
    requires cal.Known() && IsOutput(tf) && Distinct(bs)
    ensures var place := PlaceOf(cal, tf, cutoff, c.stamp);
            multiset(Flat(cal, tf, cutoff, s + [c], bs)) ==
            multiset(Flat(cal, tf, cutoff, s, bs)) + if place.InBucket? && place.start in bs then multiset{c} else multiset{}
  {
    hide PlaceOf, Placed;
    if bs != [] {
      var n := |bs| - 1;
      FlatStep(cal, tf, cutoff, s, c, bs[..n]);
      PlacedStep(cal, tf, cutoff, s, c, InBucket(bs[n]));
      assert forall b :: b in bs <==> b in bs[..n] || b == bs[n];
    }
  }

  lemma {:induction false} FlatNothing(cal: Spec, tf: Timeframe, cutoff: int, bs: seq<int>)
    requires cal.Known() && IsOutput(tf)
    ensures Flat(cal, tf, cutoff, [], bs) == []
  {
    if bs != [] {
      FlatNothing(cal, tf, cutoff, bs[..|bs| - 1]);
    }
  }

  lemma {:induction false} Partition(cal: Spec, tf: Timeframe, cutoff: int, s: seq<Candle>, bs: seq<int>)
    requires cal.Known() && IsOutput(tf) && Distinct(bs)
    requires forall c :: c in s && PlaceOf(cal, tf, cutoff, c.stamp).InBucket? ==> PlaceOf(cal, tf, cutoff, c.stamp).start in bs
    ensures multiset(s) == multiset(Placed(cal, tf, cutoff, s, Forming)) + multiset(Placed(cal, tf, cutoff, s, OutOfSession)) +
                           multiset(Placed(cal, tf, cutoff, s, Holiday)) + multiset(Flat(cal, tf, cutoff, s, bs))
  {
    hide PlaceOf, Flat;
    if s == [] {
      FlatNothing(cal, tf, cutoff, bs);
    } else {
      var p, c := s[..|s| - 1], s[|s| - 1];
      assert s == p + [c];
      Partition(cal, tf, cutoff, p, bs);
      FlatStep(cal, tf, cutoff, p, c, bs);
      PlacedStep(cal, tf, cutoff, p, c, Forming);
      PlacedStep(cal, tf, cutoff, p, c, OutOfSession);
      PlacedStep(cal, tf, cutoff, p, c, Holiday);
    }
  }

  lemma FlatAppend(cal: Spec, tf: Timeframe, cutoff: int, s: seq<Candle>, bs: seq<int>, b: int)
    requires cal.Known() && IsOutput(tf)
    ensures Flat(cal, tf, cutoff, s, bs + [b]) == Flat(cal, tf, cutoff, s, bs) + RowsIn(cal, tf, cutoff, s, b)
  {
    assert (bs + [b])[..|bs|] == bs;
  }

  lemma EmissionStep(cal: Spec, tf: Timeframe, cutoff: int, s: seq<Candle>, bs: seq<int>)
    requires cal.Known() && IsOutput(tf) && s != [] && bs != []
    ensures var n := |bs| - 1;
            var out, partial := Emitted(cal, tf, cutoff, s, bs[..n]), Partials(cal, tf, cutoff, s, bs[..n]);
            if Complete(cal, tf, cutoff, s, bs[n]) then
              Emitted(cal, tf, cutoff, s, bs) == out + [BucketCandle(cal, tf, cutoff, s, bs[n])] &&
              Stamps(Emitted(cal, tf, cutoff, s, bs)) == Stamps(out) + [bs[n]] && Partials(cal, tf, cutoff, s, bs) == partial
            else Emitted(cal, tf, cutoff, s, bs) == out && Partials(cal, tf, cutoff, s, bs) == partial + [bs[n]]
  {
    hide Complete, BucketCandle;
    var n := |bs| - 1;
    if Complete(cal, tf, cutoff, s, bs[n]) {
      BucketCandleStamp(cal, tf, cutoff, s, bs[n]);
    }
  }

  lemma NothingEmitted(cal: Spec, tf: Timeframe, cutoff: int, s: seq<Candle>)
    requires cal.Known() && IsOutput(tf) && s != []
    ensures Emitted(cal, tf, cutoff, s, []) == [] && Partials(cal, tf, cutoff, s, []) == []
    ensures Stamps([]) == [] && Flat(cal, tf, cutoff, s, []) == []
  {
  }

  lemma {:induction false} FlatSplit(cal: Spec, tf: Timeframe, cutoff: int, s: seq<Candle>, bs: seq<int>)
    requires cal.Known() && IsOutput(tf) && s != []
    ensures multiset(Flat(cal, tf, cutoff, s, bs)) ==
            multiset(Flat(cal, tf, cutoff, s, Partials(cal, tf, cutoff, s, bs))) +
            multiset(Flat(cal, tf, cutoff, s, Stamps(Emitted(cal, tf, cutoff, s, bs))))
  {
    hide RowsIn, Placed, PlaceOf, Complete, BucketCandle, Stamps, Flat, Emitted, Partials;
    if bs == [] {
      NothingEmitted(cal, tf, cutoff, s);
    } else {
      var n := |bs| - 1;
      FlatSplit(cal, tf, cutoff, s, bs[..n]);
      EmissionStep(cal, tf, cutoff, s, bs);
      assert bs == bs[..n] + [bs[n]];
      FlatAppend(cal, tf, cutoff, s, bs[..n], bs[n]);
      if Complete(cal, tf, cutoff, s, bs[n]) {
        FlatAppend(cal, tf, cutoff, s, Stamps(Emitted(cal, tf, cutoff, s, bs[..n])), bs[n]);
      } else {
        FlatAppend(cal, tf, cutoff, s, Partials(cal, tf, cutoff, s, bs[..n]), bs[n]);
      }
    }
  }

  /**
   Every bar is forming, out of session, on a holiday, in one partial bucket or in one published
   bucket, and in only one of them.
   */
  lemma EveryBarOnce(cal: Spec, tf: Timeframe, cutoff: int, s: seq<Candle>)
    requires cal.Known() && IsOutput(tf) && s != []
    ensures var out := Aggregate(cal, tf, cutoff, s);
            multiset(s) == multiset(Placed(cal, tf, cutoff, s, Forming)) + multiset(Placed(cal, tf, cutoff, s, OutOfSession)) +
                           multiset(Placed(cal, tf, cutoff, s, Holiday)) +
                           multiset(Flat(cal, tf, cutoff, s, out.partial)) +
                           multiset(Flat(cal, tf, cutoff, s, Stamps(out.candles)))
  {
    hide PlaceOf, Placed, Flat, Buckets, Complete, Emitted, Partials, Stamps;
    var bs := Buckets(cal, tf, cutoff, s);
    BucketsAscending(cal, tf, cutoff, s);
    forall c | c in s && PlaceOf(cal, tf, cutoff, c.stamp).InBucket?
      ensures PlaceOf(cal, tf, cutoff, c.stamp).start in bs
    {
      BucketUsed(cal, tf, cutoff, s, PlaceOf(cal, tf, cutoff, c.stamp).start);
    }
    Partition(cal, tf, cutoff, s, bs);
    FlatSplit(cal, tf, cutoff, s, bs);
  }

  // ----- volume -----

  lemma {:induction false} VolumeConcat(a: seq<Candle>, b: seq<Candle>)
    ensures VolumeSum(a + b) == VolumeSum(a) + VolumeSum(b)
  {
    if b == [] {
      assert a + b == a;
    } else {
      var n := |b| - 1;
      VolumeConcat(a, b[..n]);
      assert (a + b)[..|a + b| - 1] == a + b[..n];
    }
  }

  lemma VolumeRemove(s: seq<Candle>, i: nat)
    requires i < |s|
    ensures var rest := s[..i] + s[i + 1..];
            multiset(rest) == multiset(s) - multiset{s[i]} && VolumeSum(s) == VolumeSum(rest) + OrZero(s[i].volume)
  {
    var tail := [s[i]] + s[i + 1..];
    assert s == s[..i] + tail;
    VolumeConcat(s[..i], tail);
    VolumeConcat([s[i]], s[i + 1..]);
    VolumeConcat(s[..i], s[i + 1..]);
  }

  lemma {:induction false} VolumePermuted(a: seq<Candle>, b: seq<Candle>)
    requires multiset(a) == multiset(b)
    ensures VolumeSum(a) == VolumeSum(b)
  {
    if a == [] {
      assert |multiset(b)| == |b| == 0;
    } else {
      var n := |a| - 1;
      assert a[n] in multiset(b);
      var i :| 0 <= i < |b| && b[i] == a[n];
      VolumeRemove(a, n);
      VolumeRemove(b, i);
      VolumePermuted(a[..n] + a[n + 1..], b[..i] + b[i + 1..]);
    }
  }

  /** Rows without volume carry none. */
  predicate VolumeConsistent(s: seq<Candle>) {
    forall c :: c in s ==> (c.semantics == NotApplicable ==> c.volume == None)
  }

  lemma {:induction false} NoVolume(s: seq<Candle>)
    requires forall c :: c in s ==> c.volume == None
    ensures VolumeSum(s) == 0.0
  {
    if s != [] {
      NoVolume(s[..|s| - 1]);
    }
  }

  lemma BucketVolume(cal: Spec, tf: Timeframe, cutoff: int, s: seq<Candle>, b: int)
    requires cal.Known() && IsOutput(tf) && s != [] && Complete(cal, tf, cutoff, s, b)
    requires OneSemantics(s) && VolumeConsistent(s)
    ensures OrZero(BucketCandle(cal, tf, cutoff, s, b).volume) == VolumeSum(RowsIn(cal, tf, cutoff, s, b))
  {
    hide PlaceOf, Placed, SortRows, VolumeSum, Grid;
    var rows := RowsIn(cal, tf, cutoff, s, b);
    GridNonEmpty(cal, tf, b);
    VolumePermuted(rows, SortRows(rows));
    var sorted := SortRows(rows);
    forall c | c in sorted
      ensures c in s
    {
      assert c in multiset(sorted);
      assert c in rows;
      PlacedMembers(cal, tf, cutoff, s, InBucket(b), c);
    }
    assert sorted[0] in sorted;
    if sorted[0].semantics == NotApplicable {
      NoVolume(sorted);
    }
  }

  lemma {:induction false} EmittedVolume(cal: Spec, tf: Timeframe, cutoff: int, s: seq<Candle>, bs: seq<int>)
    requires cal.Known() && IsOutput(tf) && s != [] && OneSemantics(s) && VolumeConsistent(s)
    ensures VolumeSum(Emitted(cal, tf, cutoff, s, bs)) ==
            VolumeSum(Flat(cal, tf, cutoff, s, Stamps(Emitted(cal, tf, cutoff, s, bs))))
  {
    hide RowsIn, Placed, PlaceOf, Complete, BucketCandle, Stamps, Flat, Emitted, Partials;
    if bs == [] {
      NothingEmitted(cal, tf, cutoff, s);
    } else {
      var n := |bs| - 1;
      var b, out := bs[n], Emitted(cal, tf, cutoff, s, bs[..n]);
      EmittedVolume(cal, tf, cutoff, s, bs[..n]);
      EmissionStep(cal, tf, cutoff, s, bs);
      if Complete(cal, tf, cutoff, s, b) {
        var c := BucketCandle(cal, tf, cutoff, s, b);
        FlatAppend(cal, tf, cutoff, s, Stamps(out), b);
        VolumeConcat(Flat(cal, tf, cutoff, s, Stamps(out)), RowsIn(cal, tf, cutoff, s, b));
        VolumeConcat(out, [c]);
        BucketVolume(cal, tf, cutoff, s, b);
        assert VolumeSum([c]) == OrZero(c.volume);
      }
    }
  }

  /** Published volume plus the volume of every dropped bar is the input's volume. */
  lemma VolumeConserved(cal: Spec, tf: Timeframe, cutoff: int, s: seq<Candle>)
    requires cal.Known() && IsOutput(tf) && s != [] && OneSemantics(s) && VolumeConsistent(s)
    ensures var out := Aggregate(cal, tf, cutoff, s);
            var dropped := Placed(cal, tf, cutoff, s, Forming) + Placed(cal, tf, cutoff, s, OutOfSession) +
                           Placed(cal, tf, cutoff, s, Holiday) + Flat(cal, tf, cutoff, s, out.partial);
            VolumeSum(out.candles) + VolumeSum(dropped) == VolumeSum(s)
  {
    hide PlaceOf, Placed, Flat, Buckets, Complete, Emitted, Partials, Stamps, VolumeSum;
    var out := Aggregate(cal, tf, cutoff, s);
    EveryBarOnce(cal, tf, cutoff, s);
    EmittedVolume(cal, tf, cutoff, s, Buckets(cal, tf, cutoff, s));
    var dropped := Placed(cal, tf, cutoff, s, Forming) + Placed(cal, tf, cutoff, s, OutOfSession) +
                   Placed(cal, tf, cutoff, s, Holiday) + Flat(cal, tf, cutoff, s, out.partial);
    var published := Flat(cal, tf, cutoff, s, Stamps(out.candles));
    VolumePermuted(s, dropped + published);
    VolumeConcat(dropped, published);
  }
}
