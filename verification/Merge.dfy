/** Merging candles of one database into another (ops/merge_mvp_databases.py). */
module Merge {
  import opened Timestamps
  import opened Storage
  import opened RunWrites
  import opened Store
  import opened StoreHistory
  import opened Protocol

  /** A stored candle with its bookkeeping columns. */
  datatype DbRow = DbRow(candle: Candle, createdAt: string, updatedAt: string)

  function RowId(r: DbRow): CandleId {
    CandleIdOf(r.candle)
  }

  /** Rows under the six identity columns. */
  predicate Keyed(rows: map<CandleId, DbRow>) {
    forall id :: id in rows ==> RowId(rows[id]) == id
  }

  /** Rows of one table: identities are unique and timestamps real. */
  predicate DistinctRows(rows: seq<DbRow>) {
    && (forall i :: 0 <= i < |rows| ==> Representable(rows[i].candle.stamp))
    && (forall i, j :: 0 <= i < j < |rows| ==> RowId(rows[i]) != RowId(rows[j]))
  }

  predicate Considered(r: DbRow, since: string)
    requires Representable(r.candle.stamp)
  {
    !StrLess(Canon(r.candle.stamp), since)
  }

  /** `WHERE timestamp >= since` */
  function Selected(rows: seq<DbRow>, since: string): seq<DbRow>
    requires DistinctRows(rows)
  {
    if rows == [] then []
    else
      var last := rows[|rows| - 1];
      Selected(rows[..|rows| - 1], since) + if Considered(last, since) then [last] else []
  }

  function AsMap(rows: seq<DbRow>): map<CandleId, DbRow> {
    if rows == [] then map[] else AsMap(rows[..|rows| - 1])[RowId(rows[|rows| - 1]) := rows[|rows| - 1]]
  }

  /** How many rows meet an identity the target lacks, or has with other data, or has with the same. */
  function Inserted(target: map<CandleId, DbRow>, rows: seq<DbRow>): nat {
    if rows == [] then 0
    else Inserted(target, rows[..|rows| - 1]) + if RowId(rows[|rows| - 1]) !in target then 1 else 0
  }

  function Replaced(target: map<CandleId, DbRow>, rows: seq<DbRow>): nat {
    if rows == [] then 0
    else
      var last := rows[|rows| - 1];
      Replaced(target, rows[..|rows| - 1]) + if RowId(last) in target && target[RowId(last)] != last then 1 else 0
  }

  datatype MergeReceipt = MergeReceipt(considered: nat, inserted: nat, replaced: nat, same: nat, before: nat, after: nat)

  lemma PrefixDistinct(rows: seq<DbRow>)
    requires DistinctRows(rows) && rows != []
    ensures DistinctRows(rows[..|rows| - 1]) && Representable(rows[|rows| - 1].candle.stamp)
    ensures forall r :: r in rows[..|rows| - 1] ==> RowId(r) != RowId(rows[|rows| - 1])
    ensures forall r :: r in rows <==> r in rows[..|rows| - 1] || r == rows[|rows| - 1]
  {
    hide Representable, RowId;
  }

  lemma OneMoreDistinct(rows: seq<DbRow>, last: DbRow)
    requires DistinctRows(rows) && Representable(last.candle.stamp) && forall r :: r in rows ==> RowId(r) != RowId(last)
    ensures DistinctRows(rows + [last])
  {
    hide Representable, RowId;
    assert forall i :: 0 <= i < |rows| ==> rows[i] in rows;
  }

  lemma {:induction false} SelectedRows(rows: seq<DbRow>, since: string)
    requires DistinctRows(rows)
    ensures DistinctRows(Selected(rows, since))
    ensures forall r :: r in Selected(rows, since) <==> r in rows && Representable(r.candle.stamp) && Considered(r, since)
  {
    hide Representable, RowId, Considered, DistinctRows;
    if rows != [] {
      var p, last := rows[..|rows| - 1], rows[|rows| - 1];
      PrefixDistinct(rows);
      SelectedRows(p, since);
      OneMoreDistinct(Selected(p, since), last);
      assert Selected(p, since) + [] == Selected(p, since);
    }
  }

  lemma {:induction false} AsMapMembers(rows: seq<DbRow>, id: CandleId)
    requires DistinctRows(rows)
    ensures id in AsMap(rows) <==> exists i :: 0 <= i < |rows| && RowId(rows[i]) == id
    ensures forall i :: 0 <= i < |rows| && RowId(rows[i]) == id ==> AsMap(rows)[id] == rows[i]
  {
    hide Representable, RowId;
    if rows != [] {
      AsMapMembers(rows[..|rows| - 1], id);
      assert forall i :: 0 <= i < |rows| - 1 ==> rows[..|rows| - 1][i] == rows[i];
    }
  }

  class CandleDatabase {
    var rows: map<CandleId, DbRow>

    constructor (rows: map<CandleId, DbRow>)
      ensures this.rows == rows
    {
      this.rows := rows;
    }

    /**
     `merge_mvp_databases`: the considered rows laid over the target, and an exact account of what
     happened to each.
     */
    method Merge(source: seq<DbRow>, since: string) returns (r: MergeReceipt)
      requires DistinctRows(source)
      modifies this
      ensures var considered := Selected(source, since);
              && rows == old(rows) + AsMap(considered)
              && r.considered == |considered| && r.inserted == Inserted(old(rows), considered) && r.replaced == Replaced(old(rows), considered)
              && r.inserted + r.replaced + r.same == r.considered
              && r.before == |old(rows)| && r.after == |rows| == r.before + r.inserted
    {
      hide Canon, Representable, RowId, Selected, DistinctRows, AsMap, Inserted, Replaced;
      var considered := Selected(source, since);
      SelectedRows(source, since);
      var staged, inserted, replaced, same := rows, 0, 0, 0;
      NoRows(rows);
      for i := 0 to |considered|
        invariant staged == rows + AsMap(considered[..i]) && rows == old(rows)
        invariant inserted == Inserted(rows, considered[..i]) && replaced == Replaced(rows, considered[..i])
        invariant inserted + replaced + same == i && |staged| == |rows| + inserted
      {
        var row := considered[i];
        NotYet(considered, i);
        OneMoreRow(rows, considered, i);
        var conflict := RowId(row) in staged;
        var differs := conflict && staged[RowId(row)] != row;
        staged := PutRow(staged, row);
        if !conflict {
          inserted := inserted + 1;
        } else if differs {
          replaced := replaced + 1;
        } else {
          same := same + 1;
        }
      }
      assert considered[..|considered|] == considered;
      r := MergeReceipt(|considered|, inserted, replaced, same, |rows|, |staged|);
      rows := staged;
    }
  }

  /** One row: inserted, updated, or left as it is. */
  method PutRow(rows: map<CandleId, DbRow>, row: DbRow) returns (after: map<CandleId, DbRow>)
    ensures after == rows[RowId(row) := row]
    ensures |after| == |rows| + if RowId(row) in rows then 0 else 1
  {
    hide RowId;
    var id := RowId(row);
    after := rows;
    if id !in rows || rows[id] != row {
      after := rows[id := row];
    } else {
      Rewritten(rows, id);
    }
  }

  lemma NoRows(target: map<CandleId, DbRow>)
    ensures AsMap([]) == map[] && target + AsMap([]) == target && Inserted(target, []) == 0 && Replaced(target, []) == 0
  {
  }

  lemma OneMoreRow(target: map<CandleId, DbRow>, rows: seq<DbRow>, i: nat)
    requires i < |rows|
    ensures target + AsMap(rows[..i + 1]) == (target + AsMap(rows[..i]))[RowId(rows[i]) := rows[i]]
    ensures var id := RowId(rows[i]);
            && Inserted(target, rows[..i + 1]) == Inserted(target, rows[..i]) + (if id !in target then 1 else 0)
            && Replaced(target, rows[..i + 1]) == Replaced(target, rows[..i]) + (if id in target && target[id] != rows[i] then 1 else 0)
  {
    hide RowId;
    assert rows[..i + 1][..i] == rows[..i];
  }

  lemma Rewritten(rows: map<CandleId, DbRow>, id: CandleId)
    requires id in rows
    ensures rows[id := rows[id]] == rows
  {
  }

  lemma NotYet(rows: seq<DbRow>, i: nat)
    requires DistinctRows(rows) && i < |rows|
    ensures RowId(rows[i]) !in AsMap(rows[..i])
  {
    hide Representable, RowId;
    AsMapMembers(rows[..i], RowId(rows[i]));
  }

  /** Merging the same rows again inserts and replaces nothing and changes nothing. */
  lemma {:induction false} MergeTwice(target: map<CandleId, DbRow>, rows: seq<DbRow>)
    requires DistinctRows(rows)
    ensures var merged := target + AsMap(rows);
            merged + AsMap(rows) == merged && Inserted(merged, rows) == 0 && Replaced(merged, rows) == 0
  {
    hide Representable, RowId;
    forall i | 0 <= i < |rows|
      ensures RowId(rows[i]) in AsMap(rows) && AsMap(rows)[RowId(rows[i])] == rows[i]
    {
      AsMapMembers(rows, RowId(rows[i]));
    }
    NoneNew(target + AsMap(rows), rows, |rows|);
    assert rows[..|rows|] == rows;
  }

  lemma {:induction false} NoneNew(merged: map<CandleId, DbRow>, rows: seq<DbRow>, n: nat)
    requires n <= |rows| && forall i :: 0 <= i < |rows| ==> RowId(rows[i]) in merged && merged[RowId(rows[i])] == rows[i]
    ensures Inserted(merged, rows[..n]) == 0 && Replaced(merged, rows[..n]) == 0
  {
    hide RowId;
    if n > 0 {
      NoneNew(merged, rows, n - 1);
      assert rows[..n][..n - 1] == rows[..n - 1];
    }
  }

  /** Of an identity that the source has, the target takes the source's row; every other row is untouched. */
  lemma MergedRow(target: map<CandleId, DbRow>, source: seq<DbRow>, since: string, id: CandleId)
    requires DistinctRows(source)
    ensures var merged := target + AsMap(Selected(source, since));
            && (forall r :: r in source && RowId(r) == id && !StrLess(Canon(r.candle.stamp), since) ==> id in merged && merged[id] == r)
            && ((forall r :: r in source && RowId(r) == id ==> StrLess(Canon(r.candle.stamp), since)) ==>
                  (id in merged <==> id in target) && (id in target ==> merged[id] == target[id]))
  {
    hide Canon, Representable, RowId, StrLess, AsMap, Selected;
    SelectedRows(source, since);
    var rows := Selected(source, since);
    AsMapMembers(rows, id);
    forall r | r in rows && RowId(r) == id
      ensures id in AsMap(rows) && AsMap(rows)[id] == r
    {
      var i :| 0 <= i < |rows| && rows[i] == r;
    }
    assert forall i :: 0 <= i < |rows| ==> rows[i] in rows;
  }

  /** Merging since an instant: rows stamped no earlier win their identity, and nothing else changes. */
  lemma MergedSince(target: map<CandleId, DbRow>, source: seq<DbRow>, from: int, id: CandleId)
    requires DistinctRows(source) && Representable(from)
    ensures var merged := target + AsMap(Selected(source, Canon(from)));
            && (forall r :: r in source && RowId(r) == id && id.stamp >= from ==> id in merged && merged[id] == r)
            && (id.stamp < from || (forall r :: r in source ==> RowId(r) != id) ==>
                  (id in merged <==> id in target) && (id in target ==> merged[id] == target[id]))
  {
    hide Canon, Representable, StrLess, AsMap, Selected;
    MergedRow(target, source, Canon(from), id);
    forall r | r in source && RowId(r) == id
      ensures StrLess(Canon(r.candle.stamp), Canon(from)) <==> id.stamp < from
    {
      CanonOrder(r.candle.stamp, from);
    }
  }

  // ----- what merging does to the watermarks -----

  /** The store whose candle table is these rows. */
  ghost predicate TableOf(t: Tables, rows: map<CandleId, DbRow>) {
    && (forall id :: id in t.candles <==> id in rows)
    && (forall id :: id in rows ==> t.candles[id] == rows[id].candle)
  }

  lemma MergedIds(t: Tables, rows: map<CandleId, DbRow>, merged: seq<DbRow>, t': Tables)
    requires TableOf(t, rows) && DistinctRows(merged) && TableOf(t', rows + AsMap(merged))
    ensures forall id :: id in t.candles ==> id in t'.candles
    ensures forall r :: r in merged ==> RowId(r) in t'.candles
    ensures forall id :: id in t'.candles && id !in t.candles ==> exists r :: r in merged && RowId(r) == id
  {
    hide Canon, Representable, AsMap, RowId;
    forall r | r in merged
      ensures RowId(r) in t'.candles
    {
      var i :| 0 <= i < |merged| && merged[i] == r;
      AsMapMembers(merged, RowId(r));
    }
    forall id | id in t'.candles && id !in t.candles
      ensures exists r :: r in merged && RowId(r) == id
    {
      AsMapMembers(merged, id);
      var i :| 0 <= i < |merged| && RowId(merged[i]) == id;
      assert merged[i] in merged;
    }
  }

  predicate UnderWatermark(t: Tables, r: DbRow)
    requires Representable(r.candle.stamp)
  {
    IdOf(r.candle.key) in t.watermarks && NotBefore(t.watermarks[IdOf(r.candle.key)].lastClosed, Canon(r.candle.stamp))
  }

  lemma StillOnACandle(t: Tables, t': Tables, x: SeriesId)
    requires WatermarksExact(t) && x in t.watermarks && forall id :: id in t.candles ==> id in t'.candles
    ensures Attained(t', x, t.watermarks[x].lastClosed)
  {
    hide Canon, Representable, NotBefore;
    var id :| id in t.candles && id.series == x && Representable(id.stamp) && Canon(id.stamp) == t.watermarks[x].lastClosed;
    assert id in t'.candles;
  }

  lemma AllReal(merged: seq<DbRow>)
    requires DistinctRows(merged)
    ensures forall r :: r in merged ==> Representable(r.candle.stamp)
  {
    hide Representable, RowId;
  }

  /**
   Merging writes no watermark, so afterwards they are exact exactly when every merged candle belongs
   to a series whose watermark is not before it.
   */
  lemma WatermarksAfterMerge(t: Tables, rows: map<CandleId, DbRow>, merged: seq<DbRow>, t': Tables)
    requires WatermarksExact(t) && TableOf(t, rows) && DistinctRows(merged)
    requires TableOf(t', rows + AsMap(merged)) && t'.watermarks == t.watermarks
    ensures forall r :: r in merged ==> Representable(r.candle.stamp)
    ensures WatermarksExact(t') <==> forall r :: r in merged ==> UnderWatermark(t, r)
  {
    hide Canon, Representable, NotBefore, AsMap, TableOf, DistinctRows, Attained;
    AllReal(merged);
    MergedIds(t, rows, merged, t');
    forall x | x in t'.watermarks
      ensures Attained(t', x, t'.watermarks[x].lastClosed)
    {
      StillOnACandle(t, t', x);
    }
    if WatermarksExact(t') {
      forall r | r in merged
        ensures UnderWatermark(t, r)
      {
        assert RowId(r) in t'.candles;
      }
    }
  }

  // ----- what merging does to the receipts of derived candles -----

  /** Every derived candle of the store points at a receipt of its own instrument, source, timeframe and version. */
  ghost predicate ReceiptsMatch(t: Tables) {
    forall id :: id in t.candles ==> DerivedFrom(t, t.candles[id])
  }

  lemma MergedRows(t: Tables, rows: map<CandleId, DbRow>, merged: seq<DbRow>, t': Tables)
    requires TableOf(t, rows) && DistinctRows(merged) && TableOf(t', rows + AsMap(merged))
    ensures forall r :: r in merged ==> RowId(r) in t'.candles && t'.candles[RowId(r)] == r.candle
    ensures forall id :: id in t'.candles ==>
              (id in t.candles && t'.candles[id] == t.candles[id]) || exists r :: r in merged && t'.candles[id] == r.candle
  {
    hide Representable, AsMap, RowId;
    forall r | r in merged
      ensures RowId(r) in t'.candles && t'.candles[RowId(r)] == r.candle
    {
      var i :| 0 <= i < |merged| && merged[i] == r;
      AsMapMembers(merged, RowId(r));
    }
    forall id | id in t'.candles && !(id in t.candles && t'.candles[id] == t.candles[id])
      ensures exists r :: r in merged && t'.candles[id] == r.candle
    {
      AsMapMembers(merged, id);
      var i :| 0 <= i < |merged| && RowId(merged[i]) == id;
      assert merged[i] in merged;
    }
  }

  /**
   Receipt ids are copied from a database that numbers its receipts by itself.  Afterwards derived
   candles match their receipts exactly when each merged one matches the receipt its id means here.
   */
  lemma ReceiptsAfterMerge(t: Tables, rows: map<CandleId, DbRow>, merged: seq<DbRow>, t': Tables)
    requires ReceiptsMatch(t) && TableOf(t, rows) && DistinctRows(merged)
    requires TableOf(t', rows + AsMap(merged)) && t'.transforms == t.transforms
    ensures ReceiptsMatch(t') <==> forall r :: r in merged ==> DerivedFrom(t, r.candle)
  {
    hide TableOf, DistinctRows, AsMap, DerivedFrom, RowId;
    MergedRows(t, rows, merged, t');
    SameReceipts(t, t');
    if ReceiptsMatch(t') {
      forall r | r in merged
        ensures DerivedFrom(t, r.candle)
      {
        assert DerivedFrom(t', t'.candles[RowId(r)]);
      }
    }
  }

  lemma SameReceipts(t: Tables, t': Tables)
    requires t'.transforms == t.transforms
    ensures forall c :: DerivedFrom(t, c) == DerivedFrom(t', c)
  {
  }
}
