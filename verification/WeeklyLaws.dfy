/** Every daily bar lands in one place, volume is conserved, and the order of the input does not matter. */
module WeeklyLaws {
  import opened Timestamps
  import opened Storage
  import opened Calendar
  import opened Aggregation
  import opened AggregationLemmas
  import opened AggregationTheorems
  import opened Conservation
  import opened ByWeek = Weekly

  lemma {:induction false} DayRowsCount(cal: Spec, cutoff: int, s: seq<Candle>, place: Place, c: Candle)
    requires cal.Known()
    ensures multiset(DayRows(cal, cutoff, s, place))[c] ==
            if DayPlace(cal, cutoff, c.stamp) == place then multiset(s)[c] else 0
  {
    hide DayPlace;
    if s != [] {
      var n := |s| - 1;
      DayRowsCount(cal, cutoff, s[..n], place, c);
      assert s == s[..n] + [s[n]];
    }
  }

  /** The rows of several weeks, one week after the other. */
  function FlatWeeks(cal: Spec, cutoff: int, s: seq<Candle>, ws: seq<int>): seq<Candle>
    requires cal.Known()
  {
    if ws == [] then []
    else FlatWeeks(cal, cutoff, s, ws[..|ws| - 1]) + WeekRows(cal, cutoff, s, ws[|ws| - 1])
  }

  lemma {:induction false} FlatWeeksCount(cal: Spec, cutoff: int, s: seq<Candle>, ws: seq<int>, c: Candle)
    requires cal.Known() && Distinct(ws)
    ensures var place := DayPlace(cal, cutoff, c.stamp);
            multiset(FlatWeeks(cal, cutoff, s, ws))[c] == if place.InBucket? && place.start in ws then multiset(s)[c] else 0
  {
    hide DayPlace, DayRows;
    if ws != [] {
      var n := |ws| - 1;
      FlatWeeksCount(cal, cutoff, s, ws[..n], c);
      DayRowsCount(cal, cutoff, s, InBucket(ws[n]), c);
      assert forall w :: w in ws <==> w in ws[..n] || w == ws[n];
    }
  }

  /** The weeks the candles are dated in. */
  function WeeksOf(out: seq<Candle>): (r: seq<int>)
    ensures |r| == |out| && forall i :: 0 <= i < |out| ==> r[i] == out[i].stamp / DAY / 7
  {
    seq(|out|, i requires 0 <= i < |out| => out[i].stamp / DAY / 7)
  }

  lemma WeekOfStamp(cal: Spec, w: int)
    ensures WeekStamp(cal, w) / DAY / 7 == w
  {
    assert WeekStamp(cal, w) / DAY == WeekEnd(cal, w);
  }

  lemma {:induction false} DeferredAre(cal: Spec, cutoff: int, ws: seq<int>)
    requires cal.Known() && Ascending(ws)
    ensures Ascending(Deferred(cal, cutoff, ws))
    ensures forall w :: w in Deferred(cal, cutoff, ws) <==> w in ws && WeekClose(cal, w) > cutoff
  {
    hide WeekClose;
    if ws != [] {
      var n := |ws| - 1;
      DeferredAre(cal, cutoff, ws[..n]);
      assert forall w :: w in ws <==> w in ws[..n] || w == ws[n];
      var before := Deferred(cal, cutoff, ws[..n]);
      assert forall i :: 0 <= i < |before| ==> before[i] in before;
    }
  }

  /** The published candles are dated in the used weeks that are over, each once. */
  lemma PublishedWeeks(cal: Spec, cutoff: int, s: seq<Candle>, ws: seq<int>)
    requires cal.Known() && s != [] && Ascending(ws) && Used(cal, cutoff, s, ws)
    ensures var out := WeeksOf(Published(cal, cutoff, s, ws));
            Distinct(out) && forall w :: w in out <==> w in ws && WeekClose(cal, w) <= cutoff
  {
    hide WeekRows, WeekClose, WeekCandle, WeekStamp, Published, DayRows;
    PublishedAt(cal, cutoff, s, ws);
    var out := Published(cal, cutoff, s, ws);
    forall i | 0 <= i < |out|
      ensures out[i].stamp == WeekStamp(cal, WeeksOf(out)[i]) && WeeksOf(out)[i] in ws && WeekClose(cal, WeeksOf(out)[i]) <= cutoff
    {
      assert out[i] in out;
      var w :| w in ws && FoldsWeek(cal, cutoff, s, w, out[i]);
      WeekCandleStamp(cal, cutoff, s, w);
      WeekOfStamp(cal, w);
    }
    forall w | w in ws && WeekClose(cal, w) <= cutoff
      ensures w in WeeksOf(out)
    {
      var c := WeekCandle(cal, cutoff, s, w);
      assert w in ws && FoldsWeek(cal, cutoff, s, w, c);
      assert c in out;
      var i :| 0 <= i < |out| && out[i] == c;
      WeekCandleStamp(cal, cutoff, s, w);
      WeekOfStamp(cal, w);
      assert WeeksOf(out)[i] == w;
    }
  }

  lemma AscendingIsDistinct(ws: seq<int>)
    requires Ascending(ws)
    ensures Distinct(ws)
  {
  }

  lemma DayPlaceKinds(cal: Spec, cutoff: int, t: int)
    requires cal.Known()
    ensures DayPlace(cal, cutoff, t) != OutOfSession
  {
  }

  /** Every daily bar is forming, on a holiday, in one deferred week or in one published week, and in only one of them. */
  lemma EveryDayOnce(cal: Spec, cutoff: int, s: seq<Candle>)
    requires cal.Known() && s != []
    ensures var out := ByWeek.Outcome(cal, cutoff, s);
            multiset(s) == multiset(DayRows(cal, cutoff, s, Forming)) + multiset(DayRows(cal, cutoff, s, Holiday)) +
                           multiset(FlatWeeks(cal, cutoff, s, out.deferred)) +
                           multiset(FlatWeeks(cal, cutoff, s, WeeksOf(out.candles)))
  {
    hide DayPlace, DayRows, WeekRows, FlatWeeks, Published, Deferred, WeekClose, Weeks;
    var ws, out := Weeks(cal, cutoff, s), ByWeek.Outcome(cal, cutoff, s);
    SortedWeeks(cal, cutoff, s);
    DeferredAre(cal, cutoff, ws);
    AscendingIsDistinct(out.deferred);
    PublishedWeeks(cal, cutoff, s, ws);
    forall c
      ensures multiset(s)[c] == multiset(DayRows(cal, cutoff, s, Forming))[c] + multiset(DayRows(cal, cutoff, s, Holiday))[c] +
                                multiset(FlatWeeks(cal, cutoff, s, out.deferred))[c] +
                                multiset(FlatWeeks(cal, cutoff, s, WeeksOf(out.candles)))[c]
    {
      DayRowsCount(cal, cutoff, s, Forming, c);
      DayRowsCount(cal, cutoff, s, Holiday, c);
      FlatWeeksCount(cal, cutoff, s, out.deferred, c);
      FlatWeeksCount(cal, cutoff, s, WeeksOf(out.candles), c);
      DayPlaceKinds(cal, cutoff, c.stamp);
      WeekHolds(cal, cutoff, s, c);
    }
  }

  lemma SortedWeeks(cal: Spec, cutoff: int, s: seq<Candle>)
    requires cal.Known()
    ensures Ascending(Weeks(cal, cutoff, s))
    ensures forall w :: w in Weeks(cal, cutoff, s) <==> WeekRows(cal, cutoff, s, w) != []
  {
    WeeksUsed(cal, cutoff, s);
  }

  lemma WeekHolds(cal: Spec, cutoff: int, s: seq<Candle>, c: Candle)
    requires cal.Known()
    ensures var place := DayPlace(cal, cutoff, c.stamp);
            multiset(s)[c] > 0 && place.InBucket? ==> WeekRows(cal, cutoff, s, place.start) != []
  {
    hide DayPlace, DayRows;
    DayRowsCount(cal, cutoff, s, DayPlace(cal, cutoff, c.stamp), c);
  }

  // ----- volume -----

  lemma WeekVolume(cal: Spec, cutoff: int, s: seq<Candle>, w: int)
    requires cal.Known() && s != [] && WeekRows(cal, cutoff, s, w) != [] && OneSemantics(s) && VolumeConsistent(s)
    ensures OrZero(WeekCandle(cal, cutoff, s, w).volume) == VolumeSum(WeekRows(cal, cutoff, s, w))
  {
    hide DayPlace, DayRows, SortRows, VolumeSum;
    var rows := WeekRows(cal, cutoff, s, w);
    var sorted := SortRows(rows);
    VolumePermuted(rows, sorted);
    forall c | c in sorted
      ensures c in s
    {
      DayRowsCount(cal, cutoff, s, InBucket(w), c);
      assert c in multiset(sorted) && multiset(s)[c] > 0;
    }
    assert sorted[0] in sorted;
    if sorted[0].semantics == NotApplicable {
      NoVolume(sorted);
    }
  }

  /** Publishing moves the volume of the weeks that are over, and no other. */
  lemma {:induction false} PublishedVolume(cal: Spec, cutoff: int, s: seq<Candle>, ws: seq<int>)
    requires cal.Known() && s != [] && Used(cal, cutoff, s, ws) && OneSemantics(s) && VolumeConsistent(s)
    ensures VolumeSum(Published(cal, cutoff, s, ws)) + VolumeSum(FlatWeeks(cal, cutoff, s, Deferred(cal, cutoff, ws))) ==
            VolumeSum(FlatWeeks(cal, cutoff, s, ws))
  {
    hide WeekRows, DayRows, WeekCandle, WeekClose, OneSemantics, VolumeConsistent;
    if ws != [] {
      var n := |ws| - 1;
      var w, out, late := ws[n], Published(cal, cutoff, s, ws[..n]), Deferred(cal, cutoff, ws[..n]);
      assert w in ws;
      PublishedVolume(cal, cutoff, s, ws[..n]);
      VolumeConcat(FlatWeeks(cal, cutoff, s, ws[..n]), WeekRows(cal, cutoff, s, w));
      if WeekClose(cal, w) <= cutoff {
        var c := WeekCandle(cal, cutoff, s, w);
        WeekVolume(cal, cutoff, s, w);
        VolumeConcat(out, [c]);
        assert VolumeSum([c]) == OrZero(c.volume);
        assert Deferred(cal, cutoff, ws) == late;
      } else {
        assert (late + [w])[..|late|] == late;
        VolumeConcat(FlatWeeks(cal, cutoff, s, late), WeekRows(cal, cutoff, s, w));
        assert Published(cal, cutoff, s, ws) == out;
      }
    }
  }

  /** Published weekly volume plus the volume of every bar left out is the input's volume. */
  lemma WeeklyVolumeConserved(cal: Spec, cutoff: int, s: seq<Candle>)
    requires cal.Known() && s != [] && OneSemantics(s) && VolumeConsistent(s)
    ensures var out := ByWeek.Outcome(cal, cutoff, s);
            var dropped := DayRows(cal, cutoff, s, Forming) + DayRows(cal, cutoff, s, Holiday) + FlatWeeks(cal, cutoff, s, out.deferred);
            VolumeSum(out.candles) + VolumeSum(dropped) == VolumeSum(s)
  {
    hide DayPlace, DayRows, FlatWeeks, Published, Deferred, Weeks, VolumeSum, OneSemantics, VolumeConsistent;
    var ws, out := Weeks(cal, cutoff, s), ByWeek.Outcome(cal, cutoff, s);
    var forming, holiday := DayRows(cal, cutoff, s, Forming), DayRows(cal, cutoff, s, Holiday);
    var late, all := FlatWeeks(cal, cutoff, s, out.deferred), FlatWeeks(cal, cutoff, s, ws);
    PublishedVolume(cal, cutoff, s, ws);
    VolumeConcat(forming + holiday, late);
    VolumeConcat(forming + holiday, all);
    UsedDays(cal, cutoff, s);
    VolumePermuted(s, forming + holiday + all);
  }

  lemma UsedDays(cal: Spec, cutoff: int, s: seq<Candle>)
    requires cal.Known()
    ensures multiset(s) == multiset(DayRows(cal, cutoff, s, Forming) + DayRows(cal, cutoff, s, Holiday) +
                                    FlatWeeks(cal, cutoff, s, Weeks(cal, cutoff, s)))
  {
    hide DayPlace, DayRows, WeekRows, FlatWeeks, Weeks;
    var ws := Weeks(cal, cutoff, s);
    SortedWeeks(cal, cutoff, s);
    AscendingIsDistinct(ws);
    forall c
      ensures multiset(s)[c] == multiset(DayRows(cal, cutoff, s, Forming))[c] + multiset(DayRows(cal, cutoff, s, Holiday))[c] +
                                multiset(FlatWeeks(cal, cutoff, s, ws))[c]
    {
      DayRowsCount(cal, cutoff, s, Forming, c);
      DayRowsCount(cal, cutoff, s, Holiday, c);
      FlatWeeksCount(cal, cutoff, s, ws, c);
      DayPlaceKinds(cal, cutoff, c.stamp);
      WeekHolds(cal, cutoff, s, c);
    }
  }

  // ----- order independence -----

  lemma SameWeek(cal: Spec, cutoff: int, s: seq<Candle>, t: seq<Candle>, w: int)
    requires cal.Known() && multiset(s) == multiset(t)
    ensures multiset(WeekRows(cal, cutoff, s, w)) == multiset(WeekRows(cal, cutoff, t, w))
    ensures WeekRows(cal, cutoff, s, w) != [] <==> WeekRows(cal, cutoff, t, w) != []
  {
    hide DayPlace, DayRows;
    var r, q := WeekRows(cal, cutoff, s, w), WeekRows(cal, cutoff, t, w);
    forall c
      ensures multiset(r)[c] == multiset(q)[c]
    {
      DayRowsCount(cal, cutoff, s, InBucket(w), c);
      DayRowsCount(cal, cutoff, t, InBucket(w), c);
    }
    assert |multiset(r)| == |r| && |multiset(q)| == |q|;
  }

  lemma SameWeeks(cal: Spec, cutoff: int, s: seq<Candle>, t: seq<Candle>)
    requires cal.Known() && multiset(s) == multiset(t)
    ensures Weeks(cal, cutoff, s) == Weeks(cal, cutoff, t)
  {
    hide WeekRows, Weeks;
    SortedWeeks(cal, cutoff, s);
    SortedWeeks(cal, cutoff, t);
    forall w
      ensures w in Weeks(cal, cutoff, s) <==> w in Weeks(cal, cutoff, t)
    {
      SameWeek(cal, cutoff, s, t, w);
    }
    AscendingUnique(Weeks(cal, cutoff, s), Weeks(cal, cutoff, t));
  }

  lemma SameFold(cal: Spec, cutoff: int, s: seq<Candle>, t: seq<Candle>, w: int)
    requires cal.Known() && multiset(s) == multiset(t) && NoTwins(s)
    ensures SortRows(WeekRows(cal, cutoff, s, w)) == SortRows(WeekRows(cal, cutoff, t, w))
  {
    hide DayPlace, DayRows, SortRows, SortedByStamp;
    var a, b := SortRows(WeekRows(cal, cutoff, s, w)), SortRows(WeekRows(cal, cutoff, t, w));
    SameWeek(cal, cutoff, s, t, w);
    forall c | c in a
      ensures c in s
    {
      DayRowsCount(cal, cutoff, s, InBucket(w), c);
      assert c in multiset(a) && multiset(s)[c] > 0;
    }
    SortRowsSorted(WeekRows(cal, cutoff, s, w));
    SortRowsSorted(WeekRows(cal, cutoff, t, w));
    SortedUnique(a, b);
  }

  lemma {:induction false} SamePublished(cal: Spec, cutoff: int, s: seq<Candle>, t: seq<Candle>, ws: seq<int>)
    requires cal.Known() && s != [] && t != [] && Used(cal, cutoff, s, ws) && Used(cal, cutoff, t, ws)
    requires multiset(s) == multiset(t) && s[0].key == t[0].key
    ensures Stamps(Published(cal, cutoff, s, ws)) == Stamps(Published(cal, cutoff, t, ws))
    ensures NoTwins(s) ==> Published(cal, cutoff, s, ws) == Published(cal, cutoff, t, ws)
  {
    hide WeekRows, SortRows, AggregateRows, WeekClose, NoTwins;
    if ws != [] {
      var n := |ws| - 1;
      assert ws[n] in ws;
      SamePublished(cal, cutoff, s, t, ws[..n]);
      WeekCandleStamp(cal, cutoff, s, ws[n]);
      WeekCandleStamp(cal, cutoff, t, ws[n]);
      if NoTwins(s) {
        SameFold(cal, cutoff, s, t, ws[n]);
      }
    }
  }

  /**
   The deferred weeks and the dates of the published candles depend only on the multiset of daily bars;
   the candles themselves do too when no two different bars share a timestamp.
   */
  lemma WeeklyPermutation(cal: Spec, cutoff: int, s: seq<Candle>, t: seq<Candle>)
    requires cal.Known() && s != [] && t != [] && multiset(s) == multiset(t) && OneIdentity(s)
    ensures var a, b := ByWeek.Outcome(cal, cutoff, s), ByWeek.Outcome(cal, cutoff, t);
            && a.deferred == b.deferred && Stamps(a.candles) == Stamps(b.candles)
            && (NoTwins(s) ==> a.candles == b.candles)
  {
    hide Published, Deferred, Weeks, NoTwins, DayRows, WeekRows;
    SameKey(s, t);
    SameWeeks(cal, cutoff, s, t);
    SamePublished(cal, cutoff, s, t, Weeks(cal, cutoff, s));
  }

  /**
   Two different bars of one timestamp decide by their order: the week opens with the one that came
   first and closes with the one that came last.
   */
  lemma TwinsDecide(cal: Spec, cutoff: int, a: Candle, b: Candle, w: int)
    requires cal.Known() && a.stamp == b.stamp && a.open != b.open
    requires DayPlace(cal, cutoff, a.stamp) == InBucket(w) && WeekClose(cal, w) <= cutoff
    ensures ByWeek.Outcome(cal, cutoff, [a, b]).candles != ByWeek.Outcome(cal, cutoff, [b, a]).candles
  {
    hide DayPlace, WeekClose, High, Low, VolumeSum, AmountSum;
    OpensFirst(cal, cutoff, a, b, w);
    OpensFirst(cal, cutoff, b, a, w);
  }

  lemma PairRows(cal: Spec, cutoff: int, a: Candle, b: Candle, w: int)
    requires cal.Known() && DayPlace(cal, cutoff, a.stamp) == DayPlace(cal, cutoff, b.stamp) == InBucket(w) && a.stamp == b.stamp
    ensures WeekRows(cal, cutoff, [a, b], w) == [a, b] && SortRows([a, b]) == [a, b]
    ensures forall v :: WeekRows(cal, cutoff, [a, b], v) != [] <==> v == w
  {
    hide DayPlace;
    var one, two := [a], [a, b];
    assert two[..|two| - 1] == one && one[..|one| - 1] == [];
    forall v
      ensures WeekRows(cal, cutoff, two, v) == if v == w then two else []
    {
      assert DayRows(cal, cutoff, [], InBucket(v)) == [];
      assert DayRows(cal, cutoff, one, InBucket(v)) == if v == w then one else [];
    }
    assert SortRows([a]) == InsertRow(a, []) == [a];
    assert [a][1..] == [];
    assert InsertRow(b, [a]) == [a] + InsertRow(b, []);
  }

  lemma OpensFirst(cal: Spec, cutoff: int, a: Candle, b: Candle, w: int)
    requires cal.Known() && DayPlace(cal, cutoff, a.stamp) == DayPlace(cal, cutoff, b.stamp) == InBucket(w) && a.stamp == b.stamp
    requires WeekClose(cal, w) <= cutoff
    ensures var out := ByWeek.Outcome(cal, cutoff, [a, b]).candles;
            |out| == 1 && out[0].open == a.open && out[0].close == b.close
  {
    hide DayPlace, WeekClose, WeekRows, SortRows, High, Low, VolumeSum, AmountSum, Weeks;
    var s := [a, b];
    PairRows(cal, cutoff, a, b, w);
    SortedWeeks(cal, cutoff, s);
    var ws := Weeks(cal, cutoff, s);
    AscendingUnique([w], ws);
    assert ws[..0] == [];
    assert Published(cal, cutoff, s, ws[..0]) == [];
    assert Published(cal, cutoff, s, ws) == [] + [WeekCandle(cal, cutoff, s, w)];
  }
}
