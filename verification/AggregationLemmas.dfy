/** Sorting, filtering and bucket arithmetic used by the aggregation theorems. */
module AggregationLemmas {
  import opened Storage
  import opened Calendar
  import opened Aggregation

  // ----- sorting -----

  predicate NonDecreasing(s: seq<int>) {
    forall i, j :: 0 <= i < j < |s| ==> s[i] <= s[j]
  }

  lemma {:induction false} InsertIntSorted(x: int, s: seq<int>)
    requires NonDecreasing(s)
    ensures NonDecreasing(InsertInt(x, s))
  {
    if s != [] && x > s[0] {
      InsertIntSorted(x, s[1..]);
      var r := InsertInt(x, s[1..]);
      forall j | 0 <= j < |r|
        ensures s[0] <= r[j]
      {
        assert r[j] in multiset(r);
        assert r[j] == x || r[j] in s[1..];
      }
    }
  }

  lemma {:induction false} SortIntsSorted(s: seq<int>)
    ensures NonDecreasing(SortInts(s))
  {
    if s != [] {
      SortIntsSorted(s[..|s| - 1]);
      InsertIntSorted(s[|s| - 1], SortInts(s[..|s| - 1]));
    }
  }

  predicate Distinct<T(==)>(s: seq<T>) {
    forall i, j :: 0 <= i < j < |s| ==> s[i] != s[j]
  }

  lemma {:induction false} DistinctMultiset<T>(s: seq<T>, x: T)
    ensures Distinct(s) ==> multiset(s)[x] <= 1
    ensures x in s <==> multiset(s)[x] > 0
  {
    if s != [] {
      var n := |s| - 1;
      DistinctMultiset(s[..n], x);
      assert s == s[..n] + [s[n]];
    }
  }

  lemma {:induction false} MultisetDistinct<T>(s: seq<T>)
    requires forall x :: multiset(s)[x] <= 1
    ensures Distinct(s)
  {
    if s != [] {
      var n := |s| - 1;
      assert s == s[..n] + [s[n]];
      assert forall x :: multiset(s[..n])[x] <= multiset(s)[x];
      MultisetDistinct(s[..n]);
      assert s[n] !in multiset(s[..n]);
    }
  }

  lemma SameMembers(a: seq<int>, b: seq<int>, x: int)
    requires multiset(a) == multiset(b)
    ensures x in a <==> x in b
  {
    DistinctMultiset(a, x);
    DistinctMultiset(b, x);
  }

  lemma SameDistinct(a: seq<int>, b: seq<int>)
    requires multiset(a) == multiset(b) && Distinct(a)
    ensures Distinct(b)
  {
    forall x
      ensures multiset(b)[x] <= 1
    {
      DistinctMultiset(a, x);
    }
    MultisetDistinct(b);
  }

  /** Sorting distinct keys gives a strictly ascending list of the same keys. */
  lemma SortedKeys(s: seq<int>)
    requires Distinct(s)
    ensures Ascending(SortInts(s))
    ensures forall x :: x in SortInts(s) <==> x in s
  {
    SortIntsSorted(s);
    forall x
      ensures x in SortInts(s) <==> x in s
    {
      SameMembers(s, SortInts(s), x);
    }
    SameDistinct(s, SortInts(s));
  }

  lemma FirstIsMember<T>(s: seq<T>)
    ensures s == [] || s[0] in s
  {
  }

  lemma {:induction false} AscendingUnique(a: seq<int>, b: seq<int>)
    requires Ascending(a) && Ascending(b)
    requires forall x :: x in a <==> x in b
    ensures a == b
  {
    FirstIsMember(a);
    FirstIsMember(b);
    if a != [] && b != [] {
      assert a[0] in b && b[0] in a;
      assert a[0] == b[0];
      forall x
        ensures x in a[1..] <==> x in b[1..]
      {
        if x in a[1..] {
          assert x in a && x != a[0];
        }
        if x in b[1..] {
          assert x in b && x != b[0];
        }
      }
      AscendingUnique(a[1..], b[1..]);
      assert a == [a[0]] + a[1..] && b == [b[0]] + b[1..];
    }
  }

  lemma {:induction false} InsertRowSorted(c: Candle, s: seq<Candle>)
    requires SortedByStamp(s)
    ensures SortedByStamp(InsertRow(c, s))
  {
    if s != [] && c.stamp >= s[0].stamp {
      InsertRowSorted(c, s[1..]);
      var r := InsertRow(c, s[1..]);
      forall j | 0 <= j < |r|
        ensures s[0].stamp <= r[j].stamp
      {
        assert r[j] in multiset(r);
        assert r[j] == c || r[j] in s[1..];
      }
    }
  }

  lemma {:induction false} SortRowsSorted(s: seq<Candle>)
    ensures SortedByStamp(SortRows(s))
  {
    if s != [] {
      SortRowsSorted(s[..|s| - 1]);
      InsertRowSorted(s[|s| - 1], SortRows(s[..|s| - 1]));
    }
  }

  /** Rows of one timestamp are one row. */
  predicate NoTwins(s: seq<Candle>) {
    forall a, b :: a in s && b in s && a.stamp == b.stamp ==> a == b
  }

  lemma AscendingHasNoTwins(s: seq<Candle>)
    requires Ascending(Stamps(s))
    ensures NoTwins(s) && SortedByStamp(s)
  {
    assert forall i :: 0 <= i < |s| ==> Stamps(s)[i] == s[i].stamp;
  }

  lemma SameFirst(a: seq<Candle>, b: seq<Candle>)
    requires multiset(a) == multiset(b) && a != [] && b != []
    requires NoTwins(a) && SortedByStamp(a) && SortedByStamp(b)
    ensures a[0] == b[0]
  {
    assert a[0] in multiset(b) && b[0] in multiset(a);
    var i :| 0 <= i < |a| && a[i] == b[0];
    var j :| 0 <= j < |b| && b[j] == a[0];
  }

  lemma DropFirst<T>(a: seq<T>)
    requires a != []
    ensures multiset(a[1..]) == multiset(a) - multiset{a[0]}
  {
    assert a == [a[0]] + a[1..];
  }

  /** Rows without twins have one sorted arrangement. */
  lemma {:induction false} SortedUnique(a: seq<Candle>, b: seq<Candle>)
    requires multiset(a) == multiset(b)
    requires NoTwins(a) && SortedByStamp(a) && SortedByStamp(b)
    ensures a == b
  {
    assert |a| == |b| by {
      assert |multiset(a)| == |a| && |multiset(b)| == |b|;
    }
    if a != [] {
      SameFirst(a, b);
      DropFirst(a);
      DropFirst(b);
      SortedUnique(a[1..], b[1..]);
      assert a == [a[0]] + a[1..] && b == [b[0]] + b[1..];
    }
  }

  // ----- filtering -----

  lemma {:induction false} PlacedRows(cal: Spec, tf: Timeframe, cutoff: int, s: seq<Candle>, place: Place, c: Candle)
    requires cal.Known() && IsOutput(tf)
    ensures multiset(Placed(cal, tf, cutoff, s, place))[c] ==
            if PlaceOf(cal, tf, cutoff, c.stamp) == place then multiset(s)[c] else 0
  {
    hide PlaceOf;
    if s != [] {
      var n := |s| - 1;
      PlacedRows(cal, tf, cutoff, s[..n], place, c);
      assert s == s[..n] + [s[n]];
    }
  }

  /** A row is in the filtered list exactly when it is an input row at that place. */
  lemma PlacedMembers(cal: Spec, tf: Timeframe, cutoff: int, s: seq<Candle>, place: Place, c: Candle)
    requires cal.Known() && IsOutput(tf)
    ensures c in Placed(cal, tf, cutoff, s, place) <==> c in s && PlaceOf(cal, tf, cutoff, c.stamp) == place
  {
    hide PlaceOf;
    PlacedRows(cal, tf, cutoff, s, place, c);
    DistinctMultiset(s, c);
    DistinctMultiset(Placed(cal, tf, cutoff, s, place), c);
  }

  lemma {:induction false} KeysDistinct(cal: Spec, tf: Timeframe, cutoff: int, s: seq<Candle>)
    requires cal.Known() && IsOutput(tf)
    ensures Distinct(BucketKeys(cal, tf, cutoff, s))
  {
    hide PlaceOf;
    if s != [] {
      KeysDistinct(cal, tf, cutoff, s[..|s| - 1]);
    }
  }

  /** The buckets are visited in strictly ascending order, each exactly once. */
  lemma BucketsAscending(cal: Spec, tf: Timeframe, cutoff: int, s: seq<Candle>)
    requires cal.Known() && IsOutput(tf)
    ensures Ascending(Buckets(cal, tf, cutoff, s))
    ensures forall b :: b in Buckets(cal, tf, cutoff, s) <==> RowsIn(cal, tf, cutoff, s, b) != []
  {
    hide PlaceOf, SortInts, RowsIn;
    KeysDistinct(cal, tf, cutoff, s);
    SortedKeys(BucketKeys(cal, tf, cutoff, s));
    forall b
      ensures b in BucketKeys(cal, tf, cutoff, s) <==> RowsIn(cal, tf, cutoff, s, b) != []
    {
      KeysAreUsed(cal, tf, cutoff, s, b);
    }
  }

  /** A bucket is used exactly when some bar of the input is placed in it. */
  lemma BucketUsed(cal: Spec, tf: Timeframe, cutoff: int, s: seq<Candle>, b: int)
    requires cal.Known() && IsOutput(tf)
    ensures RowsIn(cal, tf, cutoff, s, b) != [] <==>
            exists c :: c in s && PlaceOf(cal, tf, cutoff, c.stamp) == InBucket(b)
  {
    hide PlaceOf;
    var rows := RowsIn(cal, tf, cutoff, s, b);
    if rows != [] {
      assert rows[0] in rows;
      PlacedMembers(cal, tf, cutoff, s, InBucket(b), rows[0]);
    }
    forall c | c in s && PlaceOf(cal, tf, cutoff, c.stamp) == InBucket(b)
      ensures c in rows
    {
      PlacedMembers(cal, tf, cutoff, s, InBucket(b), c);
    }
  }

  // ----- the grid -----

  lemma GridAscending(cal: Spec, tf: Timeframe, b: int)
    requires cal.Known() && IsOutput(tf)
    ensures Ascending(Grid(cal, tf, b))
  {
  }
}
