/**
 The transactional store (src/kline/store.py).  A transaction stages a copy of the tables and
 publishes or discards it; the database's own guarantees beyond that are not modelled.
 */
module Store {
  import opened Results
  import opened Timestamps
  import opened Storage
  import opened RunWrites

  datatype RunRow = RunRow(
    manifestVersion: string, manifestHash: string, status: string, startedAt: string, completedAt: string,
    windowStart: Option<string>, windowEnd: Option<string>, error: Option<string>, candleCount: nat,
    observationCount: nat, qualityCount: nat, transformCount: nat, watermarkCount: nat, committedAt: string)

  datatype WatermarkRow = WatermarkRow(key: SeriesKey, lastClosed: string, cursor: Option<string>, runId: string)

  /** Row i of `transforms` has the database id i + 1. */
  datatype Tables = Tables(
    runs: map<string, RunRow>, candles: map<CandleId, Candle>, observations: seq<ObservationWrite>,
    qualities: seq<QualityWrite>, transforms: seq<TransformWrite>, watermarks: map<SeriesId, WatermarkRow>,
    entitlements: map<string, EntitlementWrite>, backups: map<string, BackupWrite>)

  const EMPTY: Tables := Tables(map[], map[], [], [], [], map[], map[], map[])

  datatype Receipt = Receipt(
    runId: string, status: string, manifestVersion: string, manifestHash: string, candleCount: nat,
    observationCount: nat, qualityCount: nat, transformCount: nat, watermarkCount: nat, committedAt: string)

  /** An exception raised by the environment inside the transaction. */
  datatype Fault = NoFault | AfterCandles | BeforeCommit

  // ----- the rows a run is stored as -----

  function LowerHash(h: Option<string>): Option<string> {
    match h
    case Some(s) => Some(Lower(s))
    case None => None
  }

  function ObservationRow(o: ObservationWrite): ObservationWrite {
    o.(responseHash := LowerHash(o.responseHash))
  }

  function QualityRow(q: QualityWrite): QualityWrite {
    q.(receiptHash := LowerHash(q.receiptHash))
  }

  function TransformRow(t: TransformWrite): TransformWrite {
    t.(inputHash := Lower(t.inputHash), outputHash := Lower(t.outputHash))
  }

  function NewRun(w: RunWrite, at: string): RunRow {
    RunRow(w.manifestVersion, Lower(w.manifestHash), w.status, w.startedAt,
           if w.completedAt.Some? then w.completedAt.value else at, w.windowStart, w.windowEnd, w.error,
           |w.candles|, |w.observations|, |w.qualities|, |w.transforms|, |w.watermarks|, at)
  }

  function ReceiptOf(id: string, row: RunRow): Receipt {
    Receipt(id, row.status, row.manifestVersion, row.manifestHash, row.candleCount, row.observationCount,
            row.qualityCount, row.transformCount, row.watermarkCount, row.committedAt)
  }

  /** Position of the last receipt with this output identity, -1 when there is none. */
  function LastTransform(ts: seq<TransformWrite>, id: TransformId): (i: int)
    ensures -1 <= i < |ts|
    ensures i >= 0 ==> TransformIdOf(ts[i]) == id
    ensures forall k :: i < k < |ts| ==> TransformIdOf(ts[k]) != id
  {
    if ts == [] then -1
    else if TransformIdOf(ts[|ts| - 1]) == id then |ts| - 1
    else LastTransform(ts[..|ts| - 1], id)
  }

  /** The stored row of a submitted candle: a derived one points at its run's transform receipt. */
  function StoredCandle(c: Candle, ts: seq<TransformWrite>, base: nat): Candle {
    if c.derived then c.(transformReceiptId := Some(base + LastTransform(ts, NeededTransform(c.key)) + 1)) else c
  }

  function NewWatermark(m: WatermarkWrite): WatermarkRow {
    WatermarkRow(m.key, m.lastClosed, m.cursor, m.runId)
  }

  // ----- what a commit decides -----

  predicate Backwards(t: Tables, m: WatermarkWrite) {
    IdOf(m.key) in t.watermarks && StrLess(m.lastClosed, t.watermarks[IdOf(m.key)].lastClosed)
  }

  predicate MovesBackwards(t: Tables, w: RunWrite) {
    exists i :: 0 <= i < |w.watermarks| && Backwards(t, w.watermarks[i])
  }

  /** New primary keys: none is taken and none is repeated. */
  predicate FreshKeys<V>(pre: map<string, V>, keys: seq<string>) {
    forall i :: 0 <= i < |keys| ==> keys[i] !in pre && keys[i] !in keys[..i]
  }

  predicate FreshEntitlements(t: Tables, w: RunWrite) {
    FreshKeys(t.entitlements, EntitlementKeys(w))
  }

  predicate FreshBackups(t: Tables, w: RunWrite) {
    FreshKeys(t.backups, BackupKeys(w))
  }

  datatype Decision = Reject(error: StoreError) | Repeat(receipt: Receipt) | Accept

  function Decide(t: Tables, w: RunWrite, fault: Fault): Decision {
    if Rejection(w).Some? then Reject(Rejection(w).value)
    else if w.runId in t.runs then
      var row := t.runs[w.runId];
      if row.manifestVersion != w.manifestVersion || row.manifestHash != w.manifestHash then Reject(OtherManifest)
      else if row.status !in {"success", "partial"} then Reject(FailedAttempt)
      else Repeat(ReceiptOf(w.runId, row))
    else if !FreshEntitlements(t, w) || fault == AfterCandles then Reject(RolledBack)
    else if MovesBackwards(t, w) then Reject(WatermarkBackwards)
    else if !FreshBackups(t, w) || fault == BeforeCommit then Reject(RolledBack)
    else Accept
  }

  function Rows<T, U>(f: T -> U, s: seq<T>): (r: seq<U>)
    ensures |r| == |s| && forall i :: 0 <= i < |s| ==> r[i] == f(s[i])
  {
    seq(|s|, i requires 0 <= i < |s| => f(s[i]))
  }

  /** `post` holds row i under key i, and is `pre` everywhere else. */
  ghost predicate Upserted<K(!new), V>(pre: map<K, V>, keys: seq<K>, rows: seq<V>, post: map<K, V>)
    requires |keys| == |rows|
  {
    && (forall k :: k in post <==> k in pre || k in keys)
    && (forall i :: 0 <= i < |keys| ==> keys[i] in post && post[keys[i]] == rows[i])
    && (forall k :: k in pre && k !in keys ==> k in post && post[k] == pre[k])
  }

  lemma UpsertStep<K(!new), V>(pre: map<K, V>, keys: seq<K>, rows: seq<V>, i: nat, staged: map<K, V>)
    requires |keys| == |rows| && i < |keys| && keys[i] !in keys[..i]
    requires Upserted(pre, keys[..i], rows[..i], staged)
    ensures Upserted(pre, keys[..i + 1], rows[..i + 1], staged[keys[i] := rows[i]])
  {
    assert forall k :: k in keys[..i + 1] <==> k in keys[..i] || k == keys[i];
    assert forall j :: 0 <= j < i ==> keys[..i + 1][j] == keys[..i][j] && rows[..i + 1][j] == rows[..i][j];
  }

  lemma UpsertedKeys<K(!new), V>(pre: map<K, V>, keys: seq<K>, rows: seq<V>, post: map<K, V>, k: K)
    requires |keys| == |rows| && Upserted(pre, keys, rows, post)
    ensures k in post <==> k in pre || k in keys
  {
  }

  function CandleKeys(w: RunWrite): seq<CandleId> {
    Rows(CandleIdOf, w.candles)
  }

  function CandleRows(w: RunWrite, base: nat): seq<Candle> {
    Rows(c => StoredCandle(c, w.transforms, base), w.candles)
  }

  function WatermarkKeys(w: RunWrite): (r: seq<SeriesId>)
    ensures |r| == |w.watermarks|
  {
    Rows((m: WatermarkWrite) => IdOf(m.key), w.watermarks)
  }

  function EntitlementKeys(w: RunWrite): seq<string> {
    Rows((e: EntitlementWrite) => e.receiptId, w.entitlements)
  }

  function EntitlementRows(w: RunWrite): seq<EntitlementWrite> {
    Rows((e: EntitlementWrite) => e.(receiptHash := Lower(e.receiptHash)), w.entitlements)
  }

  function BackupKeys(w: RunWrite): seq<string> {
    Rows((b: BackupWrite) => b.backupId, w.backups)
  }

  function BackupRows(w: RunWrite): seq<BackupWrite> {
    Rows((b: BackupWrite) => b.(checksum := Lower(b.checksum)), w.backups)
  }

  /** The tables after an accepted run, each stated outright. */
  ghost predicate Applied(pre: Tables, w: RunWrite, at: string, post: Tables) {
    && post.runs == pre.runs[w.runId := NewRun(w, at)]
    && Upserted(pre.candles, CandleKeys(w), CandleRows(w, |pre.transforms|), post.candles)
    && post.observations == pre.observations + Rows(ObservationRow, w.observations)
    && post.qualities == pre.qualities + Rows(QualityRow, w.qualities)
    && post.transforms == pre.transforms + Rows(TransformRow, w.transforms)
    && Upserted(pre.watermarks, WatermarkKeys(w), Rows(NewWatermark, w.watermarks), post.watermarks)
    && Upserted(pre.entitlements, EntitlementKeys(w), EntitlementRows(w), post.entitlements)
    && Upserted(pre.backups, BackupKeys(w), BackupRows(w), post.backups)
  }

  // ----- the staging loops -----

  /** `transform_rows`: output identity to database id, a later receipt replacing an earlier one. */
  method StageTransforms(pre: Tables, w: RunWrite) returns (rows: seq<TransformWrite>, ids: map<TransformId, int>)
    ensures rows == pre.transforms + Rows(TransformRow, w.transforms)
    ensures forall id :: id in ids <==> LastTransform(w.transforms, id) >= 0
    ensures forall id :: id in ids ==> ids[id] == |pre.transforms| + LastTransform(w.transforms, id) + 1
  {
    rows, ids := pre.transforms, map[];
    for i := 0 to |w.transforms|
      invariant rows == pre.transforms + Rows(TransformRow, w.transforms[..i])
      invariant forall id :: id in ids <==> LastTransform(w.transforms[..i], id) >= 0
      invariant forall id :: id in ids ==> ids[id] == |pre.transforms| + LastTransform(w.transforms[..i], id) + 1
    {
      hide Rows, TransformIdOf;
      assert w.transforms[..i + 1][..i] == w.transforms[..i];
      rows := rows + [TransformRow(w.transforms[i])];
      ids := ids[TransformIdOf(w.transforms[i]) := |rows|];
    }
    assert w.transforms[..|w.transforms|] == w.transforms;
  }

  /** `on_conflict_do_update` by identity, one candle at a time. */
  method StageCandles(pre: Tables, w: RunWrite, ids: map<TransformId, int>) returns (staged: map<CandleId, Candle>)
    requires ValidCandles(w) && DerivedCovered(w)
    requires forall id :: id in ids <==> LastTransform(w.transforms, id) >= 0
    requires forall id :: id in ids ==> ids[id] == |pre.transforms| + LastTransform(w.transforms, id) + 1
    ensures Upserted(pre.candles, CandleKeys(w), CandleRows(w, |pre.transforms|), staged)
  {
    hide LastTransform, Upserted, Rows;
    ghost var keys, rows := CandleKeys(w), CandleRows(w, |pre.transforms|);
    staged := pre.candles;
    NoUpsert(pre.candles, keys, rows);
    for i := 0 to |w.candles|
      invariant Upserted(pre.candles, keys[..i], rows[..i], staged)
    {
      var c := w.candles[i];
      var row := c;
      if c.derived {
        assert exists j :: 0 <= j < |w.transforms| && TransformIdOf(w.transforms[j]) == NeededTransform(c.key);
        row := c.(transformReceiptId := Some(ids[NeededTransform(c.key)]));
      }
      UpsertStep(pre.candles, keys, rows, i, staged);
      staged := staged[CandleIdOf(c) := row];
    }
    assert keys[..|w.candles|] == keys && rows[..|w.candles|] == rows;
  }

  lemma NoUpsert<K(!new), V>(pre: map<K, V>, keys: seq<K>, rows: seq<V>)
    ensures Upserted(pre, keys[..0], rows[..0], pre)
  {
  }

  lemma NothingUpserted<K(!new), V>(pre: map<K, V>, keys: seq<K>, rows: seq<V>)
    ensures Upserted(pre, keys[..0], rows[..0], pre)
  {
  }

  lemma NotYetStaged<K(!new), V>(pre: map<K, V>, keys: seq<K>, rows: seq<V>, staged: map<K, V>, id: K)
    requires |keys| == |rows| && Upserted(pre, keys, rows, staged) && id !in keys
    ensures id in staged <==> id in pre
    ensures id in pre ==> staged[id] == pre[id]
  {
  }

  /** The run's watermarks name each series once. */
  lemma NextWatermark(w: RunWrite, i: nat)
    requires ValidWatermarks(w) && i < |w.watermarks|
    ensures WatermarkKeys(w)[i] == IdOf(w.watermarks[i].key) && IdOf(w.watermarks[i].key) !in WatermarkKeys(w)[..i]
  {
  }

  /** The watermark loop: the first that would move backwards ends the transaction. */
  method StageWatermarks(pre: Tables, w: RunWrite) returns (staged: map<SeriesId, WatermarkRow>, backwards: bool)
    requires ValidWatermarks(w)
    ensures backwards == MovesBackwards(pre, w)
    ensures !backwards ==> Upserted(pre.watermarks, WatermarkKeys(w), Rows(NewWatermark, w.watermarks), staged)
  {
    hide Rows, ValidWatermarks, WatermarkKeys, Upserted, StrLess;
    ghost var keys, rows := WatermarkKeys(w), Rows(NewWatermark, w.watermarks);
    staged := pre.watermarks;
    NothingUpserted(pre.watermarks, keys, rows);
    for i := 0 to |w.watermarks|
      invariant Upserted(pre.watermarks, keys[..i], rows[..i], staged)
      invariant forall k :: 0 <= k < i ==> !Backwards(pre, w.watermarks[k])
    {
      var m := w.watermarks[i];
      var id := IdOf(m.key);
      NextWatermark(w, i);
      NotYetStaged(pre.watermarks, keys[..i], rows[..i], staged, id);
      if id in staged && StrLess(m.lastClosed, staged[id].lastClosed) {
        assert Backwards(pre, m);
        return staged, true;
      }
      UpsertStep(pre.watermarks, keys, rows, i, staged);
      staged := staged[id := NewWatermark(m)];
    }
    assert keys[..|w.watermarks|] == keys && rows[..|w.watermarks|] == rows;
    backwards := false;
  }

  /** `session.add` of rows under a primary key; a key already taken fails the transaction. */
  method InsertRows<V>(pre: map<string, V>, keys: seq<string>, rows: seq<V>) returns (staged: map<string, V>, ok: bool)
    requires |keys| == |rows|
    ensures ok == FreshKeys(pre, keys)
    ensures ok ==> Upserted(pre, keys, rows, staged)
  {
    hide Upserted;
    staged := pre;
    NoUpsert(pre, keys, rows);
    for i := 0 to |keys|
      invariant Upserted(pre, keys[..i], rows[..i], staged)
      invariant forall k :: 0 <= k < i ==> keys[k] !in pre && keys[k] !in keys[..k]
    {
      UpsertedKeys(pre, keys[..i], rows[..i], staged, keys[i]);
      if keys[i] in staged {
        return staged, false;
      }
      UpsertStep(pre, keys, rows, i, staged);
      staged := staged[keys[i] := rows[i]];
    }
    assert keys[..|keys|] == keys && rows[..|keys|] == rows;
    ok := true;
  }

  // ----- the store -----

  class KlineStore {
    var tables: Tables

    constructor ()
      ensures tables == EMPTY
    {
      tables := EMPTY;
    }

    /**
     `commit_mvp_run`: an accepted run is published whole; anything else leaves every table as it
     was, a repeated run answering with the receipt it got the first time.
     */
    method CommitMvpRun(w: RunWrite, at: string, fault: Fault) returns (r: Result<Receipt, StoreError>)
      modifies this
      ensures match Decide(old(tables), w, fault)
              case Reject(e) => r == Err(e) && tables == old(tables)
              case Repeat(receipt) => r == Ok(receipt) && tables == old(tables)
              case Accept => r == Ok(ReceiptOf(w.runId, NewRun(w, at))) && Applied(old(tables), w, at, tables)
    {
      hide Upserted, FreshKeys, MovesBackwards, Rows, ValidHeader, ValidObservations, ValidQualities,
        ValidTransforms, ValidEntitlements, ValidBackups, ValidCandles, DerivedCovered, ValidWatermarks, LastTransform;
      var rejection := ValidateRun(w);
      if rejection.Some? {
        return Err(rejection.value);
      }
      if w.runId in tables.runs {
        var row := tables.runs[w.runId];
        if row.manifestVersion != w.manifestVersion || row.manifestHash != w.manifestHash {
          return Err(OtherManifest);
        }
        if row.status !in {"success", "partial"} {
          return Err(FailedAttempt);
        }
        return Ok(ReceiptOf(w.runId, row));
      }
      var entitlements, unique := InsertRows(tables.entitlements, EntitlementKeys(w), EntitlementRows(w));
      if !unique || fault == AfterCandles {
        return Err(RolledBack);
      }
      var transforms, ids := StageTransforms(tables, w);
      var candles := StageCandles(tables, w, ids);
      var watermarks, backwards := StageWatermarks(tables, w);
      if backwards {
        return Err(WatermarkBackwards);
      }
      var backups;
      backups, unique := InsertRows(tables.backups, BackupKeys(w), BackupRows(w));
      if !unique || fault == BeforeCommit {
        return Err(RolledBack);
      }
      tables := Tables(
        tables.runs[w.runId := NewRun(w, at)], candles, tables.observations + Rows(ObservationRow, w.observations),
        tables.qualities + Rows(QualityRow, w.qualities), transforms, watermarks, entitlements, backups);
      return Ok(ReceiptOf(w.runId, NewRun(w, at)));
    }

    /** `get_mvp_watermark` */
    method GetMvpWatermark(key: SeriesKey) returns (r: Option<WatermarkRow>)
      ensures r == if IdOf(key) in tables.watermarks then Some(tables.watermarks[IdOf(key)].(key := key)) else None
    {
      if IdOf(key) !in tables.watermarks {
        return None;
      }
      return Some(tables.watermarks[IdOf(key)].(key := key));
    }
  }
}
