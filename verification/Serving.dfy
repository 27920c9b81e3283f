/** Reading a series back (src/kline/store.py `query_mvp_candles`). */
module Serving {
  import opened Results
  import opened Timestamps
  import opened Storage
  import opened Calendar
  import opened RunWrites
  import opened Store
  import opened Protocol

  /** The stored candle belongs to the series and lies within the text bounds. */
  predicate Matches(t: Tables, x: SeriesId, start: Option<string>, end: Option<string>, id: CandleId) {
    && id in t.candles && id.series == x && Representable(id.stamp)
    && (start.Some? ==> !StrLess(Canon(id.stamp), start.value))
    && (end.Some? ==> !StrLess(end.value, Canon(id.stamp)))
  }

  /** The row is the stored one of its identity, matches, and names the series as it was asked for. */
  predicate FromStore(t: Tables, key: SeriesKey, start: Option<string>, end: Option<string>, row: Candle) {
    Matches(t, IdOf(key), start, end, CandleId(IdOf(key), row.stamp)) && row == t.candles[CandleId(IdOf(key), row.stamp)].(key := key)
  }

  function TextOf(t: Option<int>): Option<string>
    requires t.Some? ==> Representable(t.value)
  {
    if t.Some? then Some(Canon(t.value)) else None
  }

  /** Asked from one instant to another, or with either end open, what matches is the stored candles of the series between them, ends included. */
  lemma MatchesBetween(t: Tables, x: SeriesId, from: Option<int>, until: Option<int>, id: CandleId)
    requires (from.Some? ==> Representable(from.value)) && (until.Some? ==> Representable(until.value))
    ensures Matches(t, x, TextOf(from), TextOf(until), id) <==>
            && id in t.candles && id.series == x && Representable(id.stamp)
            && (from.Some? ==> from.value <= id.stamp) && (until.Some? ==> id.stamp <= until.value)
  {
    hide Canon, Representable, StrLess;
    if Representable(id.stamp) {
      if from.Some? {
        CanonOrder(id.stamp, from.value);
      }
      if until.Some? {
        CanonOrder(until.value, id.stamp);
      }
    }
  }

  predicate HasRow(rows: seq<Candle>, stamp: int) {
    exists i :: 0 <= i < |rows| && rows[i].stamp == stamp
  }

  /** The latest matching candles, at most `limit` of them, oldest first, as the store holds them. */
  ghost predicate Answers(t: Tables, key: SeriesKey, start: Option<string>, end: Option<string>, limit: int, rows: seq<Candle>) {
    && |rows| <= (if limit < 0 then 0 else limit)
    && StrictlyIncreasing(rows)
    && (forall i :: 0 <= i < |rows| ==> FromStore(t, key, start, end, rows[i]))
    && (forall id :: Matches(t, IdOf(key), start, end, id) ==>
          HasRow(rows, id.stamp) || (|rows| >= limit && forall i :: 0 <= i < |rows| ==> id.stamp < rows[i].stamp))
  }

  predicate AllReal(ids: set<CandleId>) {
    forall id :: id in ids ==> Representable(id.stamp)
  }

  predicate IsNewest(ids: set<CandleId>, id: CandleId)
    requires AllReal(ids)
  {
    id in ids && forall other :: other in ids ==> !StrLess(Canon(id.stamp), Canon(other.stamp))
  }

  lemma NewestExists(ids: set<CandleId>) returns (id: CandleId)
    requires ids != {} && AllReal(ids)
    ensures id in ids && IsNewest(ids, id)
    decreases |ids|
  {
    hide Canon, Representable;
    id := Member(ids);
    StrLessIrreflexive(Canon(id.stamp));
    if ids != {id} {
      var rest := NewestExists(ids - {id});
      assert ids == (ids - {id}) + {id};
      StrLessTotal(Canon(id.stamp), Canon(rest.stamp));
      if StrLess(Canon(id.stamp), Canon(rest.stamp)) {
        CanonOrder(id.stamp, rest.stamp);
        CanonOrder(rest.stamp, id.stamp);
        id := rest;
      } else {
        KeepsNewest(ids - {id}, rest, id);
      }
    }
  }

  lemma KeepsNewest(ids: set<CandleId>, newest: CandleId, id: CandleId)
    requires AllReal(ids) && IsNewest(ids, newest) && Representable(id.stamp) && !StrLess(Canon(id.stamp), Canon(newest.stamp))
    ensures forall other :: other in ids ==> !StrLess(Canon(id.stamp), Canon(other.stamp))
  {
    hide Canon, Representable;
    forall other | other in ids
      ensures !StrLess(Canon(id.stamp), Canon(other.stamp))
    {
      CanonOrder(id.stamp, newest.stamp);
      CanonOrder(newest.stamp, other.stamp);
      CanonOrder(id.stamp, other.stamp);
    }
  }

  /** What is still to be returned is older than what has been. */
  ghost predicate Progress(t: Tables, key: SeriesKey, start: Option<string>, end: Option<string>, rows: seq<Candle>, left: set<CandleId>) {
    && StrictlyIncreasing(rows) && AllReal(left)
    && (forall i :: 0 <= i < |rows| ==> FromStore(t, key, start, end, rows[i]))
    && (forall id :: id in left ==> Matches(t, IdOf(key), start, end, id) && forall i :: 0 <= i < |rows| ==> id.stamp < rows[i].stamp)
    && (forall id :: Matches(t, IdOf(key), start, end, id) ==> id in left || HasRow(rows, id.stamp))
  }

  lemma NewestLeads(rows: seq<Candle>, left: set<CandleId>, id: CandleId, row: Candle)
    requires AllReal(left) && IsNewest(left, id) && row.stamp == id.stamp && StrictlyIncreasing(rows)
    requires forall x :: x in left ==> x.series == id.series && forall i :: 0 <= i < |rows| ==> x.stamp < rows[i].stamp
    ensures StrictlyIncreasing([row] + rows)
    ensures forall x :: x in left - {id} ==> forall i :: 0 <= i < |rows| + 1 ==> x.stamp < ([row] + rows)[i].stamp
  {
    hide Canon, Representable, StrLess;
    forall x | x in left - {id}
      ensures x.stamp < id.stamp
    {
      CanonOrder(id.stamp, x.stamp);
      assert x != id && x.series == id.series;
    }
  }

  lemma StillRow(rows: seq<Candle>, row: Candle, stamp: int)
    ensures HasRow([row] + rows, stamp) <==> row.stamp == stamp || HasRow(rows, stamp)
  {
    var more := [row] + rows;
    assert more[0] == row;
    if HasRow(rows, stamp) {
      var i :| 0 <= i < |rows| && rows[i].stamp == stamp;
      assert more[i + 1].stamp == stamp;
    }
  }

  lemma OneMore(t: Tables, key: SeriesKey, start: Option<string>, end: Option<string>, rows: seq<Candle>, left: set<CandleId>, id: CandleId)
    requires Progress(t, key, start, end, rows, left) && id in left && id in t.candles && CandleIdOf(t.candles[id]) == id && AllReal(left)
    requires IsNewest(left, id)
    ensures Progress(t, key, start, end, [t.candles[id].(key := key)] + rows, left - {id})
  {
    hide Canon, Representable, StrLess, Matches, IsNewest, StrictlyIncreasing, HasRow;
    var row := t.candles[id].(key := key);
    forall x | x in left
      ensures x.series == id.series
    {
      MatchedId(t, key, start, end, x);
      MatchedId(t, key, start, end, id);
    }
    NewestLeads(rows, left, id, row);
    MatchedId(t, key, start, end, id);
    assert FromStore(t, key, start, end, row);
    forall x | Matches(t, IdOf(key), start, end, x)
      ensures x in left - {id} || HasRow([row] + rows, x.stamp)
    {
      StillRow(rows, row, x.stamp);
    }
  }

  lemma MatchedId(t: Tables, key: SeriesKey, start: Option<string>, end: Option<string>, id: CandleId)
    requires Matches(t, IdOf(key), start, end, id)
    ensures id in t.candles && id == CandleId(IdOf(key), id.stamp) && Representable(id.stamp)
  {
  }

  /** `query_mvp_candles`: newest first up to the limit, then turned round. */
  method QueryMvpCandles(store: KlineStore, key: SeriesKey, start: Option<string>, end: Option<string>, limit: int) returns (rows: seq<Candle>)
    requires forall id :: id in store.tables.candles ==> CandleIdOf(store.tables.candles[id]) == id
    ensures Answers(store.tables, key, start, end, limit, rows)
  {
    hide Canon, Representable, StrLess, Progress, IsNewest;
    rows := [];
    if limit < 1 {
      return;
    }
    var t := store.tables;
    var left := set id | id in t.candles && Matches(t, IdOf(key), start, end, id);
    NothingYet(t, key, start, end, left);
    while left != {} && |rows| < limit
      invariant Progress(t, key, start, end, rows, left) && |rows| <= limit
      decreases |left|
    {
      LeftIsReal(t, key, start, end, rows, left);
      ghost var newest := NewestExists(left);
      var id :| id in left && IsNewest(left, id);
      OneMore(t, key, start, end, rows, left, id);
      rows := [t.candles[id].(key := key)] + rows;
      left := left - {id};
    }
    Done(t, key, start, end, rows, left, limit);
  }

  lemma NothingYet(t: Tables, key: SeriesKey, start: Option<string>, end: Option<string>, left: set<CandleId>)
    requires left == set id | id in t.candles && Matches(t, IdOf(key), start, end, id)
    ensures Progress(t, key, start, end, [], left)
  {
    hide Canon, StrLess;
  }

  lemma LeftIsReal(t: Tables, key: SeriesKey, start: Option<string>, end: Option<string>, rows: seq<Candle>, left: set<CandleId>)
    requires Progress(t, key, start, end, rows, left)
    ensures AllReal(left) && forall id :: id in left ==> id in t.candles
  {
    hide Canon, StrLess, Representable;
  }

  lemma Done(t: Tables, key: SeriesKey, start: Option<string>, end: Option<string>, rows: seq<Candle>, left: set<CandleId>, limit: int)
    requires Progress(t, key, start, end, rows, left) && |rows| <= limit && (left == {} || |rows| >= limit)
    ensures Answers(t, key, start, end, limit, rows)
  {
    hide Matches;
  }

  /** In every reachable state the newest stored candle of a series is the one its watermark names. */
  lemma NewestIsWatermark(run: seq<System>, i: nat, key: SeriesKey, rows: seq<Candle>)
    requires Behaviour(run) && i < |run| && Answers(run[i].tables, key, None, None, 1, rows)
    ensures var t := run[i].tables;
            && (rows != [] <==> IdOf(key) in t.watermarks)
            && (rows != [] ==> Representable(rows[0].stamp) && Canon(rows[0].stamp) == t.watermarks[IdOf(key)].lastClosed)
  {
    hide Canon, Representable, ParseIso, Behaviour, Sound, StrLess;
    AlwaysExact(run, i);
    var t := run[i].tables;
    assert rows != [] ==> CandleId(IdOf(key), rows[0].stamp) in t.candles;
    if IdOf(key) in t.watermarks {
      var top :| top in t.candles && top.series == IdOf(key) && Representable(top.stamp) && Canon(top.stamp) == t.watermarks[IdOf(key)].lastClosed;
      assert Matches(t, IdOf(key), None, None, top);
      var first := CandleId(IdOf(key), rows[0].stamp);
      assert first in t.candles;
      CanonOrder(top.stamp, first.stamp);
      CanonOrder(first.stamp, top.stamp);
    }
  }
}
