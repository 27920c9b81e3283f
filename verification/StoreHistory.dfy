/** What every sequence of commits keeps, whatever the runs submitted (src/kline/store.py). */
module StoreHistory {
  import opened Timestamps
  import opened Storage
  import opened RunWrites
  import opened Store

  /** One call of `commit_mvp_run`: accepted, or without effect. */
  ghost predicate Step(pre: Tables, post: Tables) {
    post == pre || exists w, at :: Accepted(pre, w, at, post)
  }

  ghost predicate Accepted(pre: Tables, w: RunWrite, at: string, post: Tables) {
    Decide(pre, w, NoFault) == Accept && Applied(pre, w, at, post)
  }

  /** The tables after each of a sequence of commits on an empty store. */
  ghost predicate History(ts: seq<Tables>) {
    ts != [] && ts[0] == EMPTY && forall i :: 0 < i < |ts| ==> Step(ts[i - 1], ts[i])
  }

  // ----- the invariant -----

  predicate Lives(t: Tables, runId: string) {
    runId in t.runs && t.runs[runId].status in {"success", "partial"}
  }

  function ObservationRuns(t: Tables): (r: seq<string>) {
    Rows((o: ObservationWrite) => o.runId, t.observations)
  }

  function QualityRuns(t: Tables): seq<string> {
    Rows((q: QualityWrite) => q.runId, t.qualities)
  }

  function TransformRuns(t: Tables): seq<string> {
    Rows((x: TransformWrite) => x.runId, t.transforms)
  }

  ghost predicate AllLive(t: Tables, runs: seq<string>) {
    forall i :: 0 <= i < |runs| ==> Lives(t, runs[i])
  }

  /** A derived candle's receipt exists and is for its instrument, source, timeframe and version. */
  predicate DerivedFrom(t: Tables, c: Candle) {
    c.derived ==>
      && c.transformReceiptId.Some? && 1 <= c.transformReceiptId.value <= |t.transforms|
      && var receipt := t.transforms[c.transformReceiptId.value - 1];
         TransformIdOf(receipt) == NeededTransform(c.key) && receipt.manifestVersion == c.key.manifestVersion
  }

  predicate WatermarksLive(t: Tables) {
    forall s :: s in t.watermarks ==> IdOf(t.watermarks[s].key) == s && Lives(t, t.watermarks[s].runId)
  }

  /** Receipts, watermarks and candles agree with the runs that made them. */
  ghost predicate Consistent(t: Tables) {
    && (forall r :: r in t.runs ==> t.runs[r].manifestHash == Lower(t.runs[r].manifestHash))
    && AllLive(t, ObservationRuns(t)) && AllLive(t, QualityRuns(t)) && AllLive(t, TransformRuns(t))
    && WatermarksLive(t)
    && (forall id :: id in t.candles ==> CandleIdOf(t.candles[id]) == id && DerivedFrom(t, t.candles[id]))
    && (forall r :: r in t.runs ==>
          && multiset(ObservationRuns(t))[r] == t.runs[r].observationCount
          && multiset(QualityRuns(t))[r] == t.runs[r].qualityCount
          && multiset(TransformRuns(t))[r] == t.runs[r].transformCount)
  }

  // ----- appending a run's rows -----

  lemma RowsAppend<T, U>(f: T -> U, a: seq<T>, b: seq<T>)
    ensures Rows(f, a + b) == Rows(f, a) + Rows(f, b)
  {
  }

  lemma {:induction false} AllSame(s: seq<string>, x: string, y: string)
    requires forall i :: 0 <= i < |s| ==> s[i] == x
    ensures multiset(s)[y] == if y == x then |s| else 0
  {
    if s != [] {
      var n := |s| - 1;
      AllSame(s[..n], x, y);
      assert s == s[..n] + [s[n]];
    }
  }

  /** Appending rows of one new run keeps the counts of the others and gives the new one its own. */
  lemma AppendRuns(pre: Tables, post: Tables, before: seq<string>, added: seq<string>, runId: string, row: RunRow)
    requires AllLive(pre, before) && runId !in pre.runs && post.runs == pre.runs[runId := row]
    requires forall i :: 0 <= i < |added| ==> added[i] == runId
    requires added == [] || row.status in {"success", "partial"}
    ensures AllLive(post, before + added)
    ensures multiset(before + added)[runId] == |added|
    ensures forall r :: r in pre.runs ==> multiset(before + added)[r] == multiset(before)[r]
  {
    forall r
      ensures multiset(added)[r] == if r == runId then |added| else 0
    {
      AllSame(added, runId, r);
    }
    forall i | 0 <= i < |before|
      ensures before[i] != runId
    {
      assert Lives(pre, before[i]);
    }
    assert runId !in before;
  }

  lemma AcceptedRun(pre: Tables, w: RunWrite)
    requires Decide(pre, w, NoFault) == Accept
    ensures w.runId !in pre.runs && Rejection(w).None?
    ensures w.status in {"success", "partial"} || PromotesNothing(w)
    ensures ValidHeader(w) && ValidCandles(w) && ValidObservations(w) && ValidQualities(w) && ValidTransforms(w)
    ensures DerivedCovered(w) && ValidWatermarks(w) && !MovesBackwards(pre, w)
  {
    hide ValidHeader, ValidCandles, ValidObservations, ValidQualities, ValidTransforms, DerivedCovered, ValidWatermarks,
      ValidEntitlements, ValidBackups, FreshEntitlements, FreshBackups;
    HeaderStatus(w);
  }

  lemma HeaderStatus(w: RunWrite)
    ensures ValidHeader(w) ==> w.status in {"success", "partial", "failed"}
  {
  }

  /** Everything an accepted run stores carries its own, new, run id; a failed run stores nothing. */
  lemma AcceptedIds(pre: Tables, w: RunWrite)
    requires Decide(pre, w, NoFault) == Accept
    ensures w.runId !in pre.runs && (w.status in {"success", "partial"} || PromotesNothing(w))
    ensures forall i :: 0 <= i < |w.observations| ==> w.observations[i].runId == w.runId
    ensures forall i :: 0 <= i < |w.qualities| ==> w.qualities[i].runId == w.runId
    ensures forall i :: 0 <= i < |w.transforms| ==> w.transforms[i].runId == w.runId
    ensures forall i :: 0 <= i < |w.watermarks| ==> w.watermarks[i].runId == w.runId
  {
    hide Rejection, ValidHeader, DerivedCovered, ValidCandles;
    AcceptedRun(pre, w);
    assert forall i :: 0 <= i < |w.observations| ==> ValidObservation(w, w.observations[i]);
    assert forall i :: 0 <= i < |w.qualities| ==> ValidQuality(w, w.qualities[i]);
    assert forall i :: 0 <= i < |w.transforms| ==> ValidTransform(w, w.transforms[i]);
    assert forall i :: 0 <= i < |w.watermarks| ==> ValidWatermark(w, w.watermarks[i]);
  }

  lemma KeepsObservations(pre: Tables, w: RunWrite, at: string, post: Tables)
    requires AllLive(pre, ObservationRuns(pre)) && Accepted(pre, w, at, post)
    requires forall r :: r in pre.runs ==> multiset(ObservationRuns(pre))[r] == pre.runs[r].observationCount
    ensures AllLive(post, ObservationRuns(post))
    ensures forall r :: r in post.runs ==> multiset(ObservationRuns(post))[r] == post.runs[r].observationCount
  {
    hide Upserted, Rows, Decide, Lives;
    AcceptedIds(pre, w);
    var f := (o: ObservationWrite) => o.runId;
    var added := Rows(f, Rows(ObservationRow, w.observations));
    RowsAppend(f, pre.observations, Rows(ObservationRow, w.observations));
    assert ObservationRuns(post) == ObservationRuns(pre) + added;
    AppendRuns(pre, post, ObservationRuns(pre), added, w.runId, NewRun(w, at));
  }

  lemma KeepsQualities(pre: Tables, w: RunWrite, at: string, post: Tables)
    requires AllLive(pre, QualityRuns(pre)) && Accepted(pre, w, at, post)
    requires forall r :: r in pre.runs ==> multiset(QualityRuns(pre))[r] == pre.runs[r].qualityCount
    ensures AllLive(post, QualityRuns(post))
    ensures forall r :: r in post.runs ==> multiset(QualityRuns(post))[r] == post.runs[r].qualityCount
  {
    hide Upserted, Rows, Decide, Lives;
    AcceptedIds(pre, w);
    var f := (q: QualityWrite) => q.runId;
    var added := Rows(f, Rows(QualityRow, w.qualities));
    RowsAppend(f, pre.qualities, Rows(QualityRow, w.qualities));
    assert QualityRuns(post) == QualityRuns(pre) + added;
    AppendRuns(pre, post, QualityRuns(pre), added, w.runId, NewRun(w, at));
  }

  lemma KeepsTransforms(pre: Tables, w: RunWrite, at: string, post: Tables)
    requires AllLive(pre, TransformRuns(pre)) && Accepted(pre, w, at, post)
    requires forall r :: r in pre.runs ==> multiset(TransformRuns(pre))[r] == pre.runs[r].transformCount
    ensures AllLive(post, TransformRuns(post))
    ensures forall r :: r in post.runs ==> multiset(TransformRuns(post))[r] == post.runs[r].transformCount
  {
    hide Upserted, Rows, Decide, Lives;
    AcceptedIds(pre, w);
    var f := (x: TransformWrite) => x.runId;
    var added := Rows(f, Rows(TransformRow, w.transforms));
    RowsAppend(f, pre.transforms, Rows(TransformRow, w.transforms));
    assert TransformRuns(post) == TransformRuns(pre) + added;
    AppendRuns(pre, post, TransformRuns(pre), added, w.runId, NewRun(w, at));
  }

  lemma RunVersion(w: RunWrite)
    requires ValidTransforms(w) && ValidCandles(w)
    ensures forall i :: 0 <= i < |w.transforms| ==> w.transforms[i].manifestVersion == w.manifestVersion
    ensures forall i :: 0 <= i < |w.candles| ==> w.candles[i].key.manifestVersion == w.manifestVersion
  {
    assert forall i :: 0 <= i < |w.transforms| ==> ValidTransform(w, w.transforms[i]);
  }

  /** A derived candle of the run is stored with the id of a receipt of the run. */
  lemma StoredDerived(pre: Tables, w: RunWrite, at: string, post: Tables, i: nat)
    requires Accepted(pre, w, at, post) && i < |w.candles|
    ensures var row := StoredCandle(w.candles[i], w.transforms, |pre.transforms|);
            CandleIdOf(row) == CandleIdOf(w.candles[i]) && DerivedFrom(post, row)
  {
    hide Upserted, Rows, Decide, LastTransform, ValidHeader, ValidObservations, ValidQualities, ValidWatermarks, ValidTransform,
      ValidCandles, ValidTransforms, MovesBackwards, PromotesNothing;
    AcceptedRun(pre, w);
    RunVersion(w);
    var c := w.candles[i];
    if c.derived {
      assert exists j :: 0 <= j < |w.transforms| && TransformIdOf(w.transforms[j]) == NeededTransform(c.key);
      var k := LastTransform(w.transforms, NeededTransform(c.key));
      assert post.transforms[|pre.transforms| + k] == TransformRow(w.transforms[k]);
    }
  }

  lemma KeepsCandles(pre: Tables, w: RunWrite, at: string, post: Tables)
    requires Consistent(pre) && Accepted(pre, w, at, post)
    ensures forall id :: id in post.candles ==> CandleIdOf(post.candles[id]) == id && DerivedFrom(post, post.candles[id])
  {
    hide Rows, Decide, StoredCandle;
    var keys, rows := CandleKeys(w), CandleRows(w, |pre.transforms|);
    forall id | id in post.candles
      ensures CandleIdOf(post.candles[id]) == id && DerivedFrom(post, post.candles[id])
    {
      if id in keys {
        var i :| 0 <= i < |keys| && keys[i] == id;
        assert post.candles[keys[i]] == rows[i];
        StoredDerived(pre, w, at, post, i);
      }
    }
  }

  /** Writing keys out: each submitted candle and watermark is stored under its own identity. */
  lemma StoredAsSubmitted(pre: Tables, w: RunWrite, at: string, post: Tables)
    requires Applied(pre, w, at, post)
    ensures forall i :: 0 <= i < |w.candles| ==> CandleIdOf(w.candles[i]) in post.candles
    ensures forall i :: 0 <= i < |w.watermarks| ==>
              IdOf(w.watermarks[i].key) in post.watermarks && post.watermarks[IdOf(w.watermarks[i].key)] == NewWatermark(w.watermarks[i])
    ensures forall id :: id in pre.candles ==> id in post.candles
    ensures forall x :: x in pre.watermarks ==> x in post.watermarks
    ensures forall id :: id in post.candles && id !in pre.candles ==> exists i :: 0 <= i < |w.candles| && CandleIdOf(w.candles[i]) == id
    ensures forall x :: x in post.watermarks ==>
              (x in pre.watermarks && post.watermarks[x] == pre.watermarks[x]) ||
              exists i :: 0 <= i < |w.watermarks| && IdOf(w.watermarks[i].key) == x
  {
    hide StoredCandle, CandleIdOf;
    var ck, wk := CandleKeys(w), WatermarkKeys(w);
    forall i | 0 <= i < |w.candles|
      ensures CandleIdOf(w.candles[i]) in post.candles
    {
      assert ck[i] in post.candles;
    }
    forall i | 0 <= i < |w.watermarks|
      ensures IdOf(w.watermarks[i].key) in post.watermarks && post.watermarks[IdOf(w.watermarks[i].key)] == NewWatermark(w.watermarks[i])
    {
      assert post.watermarks[wk[i]] == Rows(NewWatermark, w.watermarks)[i];
    }
  }

  /** Live runs stay live, and the new run is live unless it promotes nothing. */
  lemma StillLive(pre: Tables, w: RunWrite, at: string, post: Tables)
    requires Accepted(pre, w, at, post)
    ensures forall r :: Lives(pre, r) ==> Lives(post, r)
    ensures Lives(post, w.runId) || w.watermarks == []
  {
    hide Decide, Upserted, Rows;
    AcceptedIds(pre, w);
  }

  lemma KeepsWatermarks(pre: Tables, w: RunWrite, at: string, post: Tables)
    requires WatermarksLive(pre) && Accepted(pre, w, at, post)
    ensures WatermarksLive(post)
  {
    hide Decide, Applied, Lives, IdOf;
    AcceptedIds(pre, w);
    StoredAsSubmitted(pre, w, at, post);
    StillLive(pre, w, at, post);
    forall s | s in post.watermarks
      ensures IdOf(post.watermarks[s].key) == s && Lives(post, post.watermarks[s].runId)
    {
      if !(s in pre.watermarks && post.watermarks[s] == pre.watermarks[s]) {
        var i :| 0 <= i < |w.watermarks| && IdOf(w.watermarks[i].key) == s;
        assert post.watermarks[s] == NewWatermark(w.watermarks[i]);
      }
    }
  }

  lemma StepKeeps(pre: Tables, post: Tables)
    requires Consistent(pre) && Step(pre, post)
    ensures Consistent(post)
  {
    hide Applied, Decide, Lives, DerivedFrom, ObservationRuns, QualityRuns, TransformRuns;
    if post != pre {
      var w, at :| Accepted(pre, w, at, post);
      KeepsObservations(pre, w, at, post);
      KeepsQualities(pre, w, at, post);
      KeepsTransforms(pre, w, at, post);
      KeepsCandles(pre, w, at, post);
      KeepsWatermarks(pre, w, at, post);
      KeepsHashes(pre, w, at, post);
    }
  }

  lemma KeepsHashes(pre: Tables, w: RunWrite, at: string, post: Tables)
    requires Consistent(pre) && Accepted(pre, w, at, post)
    ensures forall r :: r in post.runs ==> post.runs[r].manifestHash == Lower(post.runs[r].manifestHash)
  {
    LowerTwice(w.manifestHash);
  }

  /** In every state any sequence of commits reaches, receipts, watermarks and candles agree with their runs. */
  lemma {:induction false} AlwaysConsistent(ts: seq<Tables>)
    requires History(ts)
    ensures forall i :: 0 <= i < |ts| ==> Consistent(ts[i])
  {
    hide Step, Consistent;
    if |ts| == 1 {
      EmptyConsistent();
    } else {
      var n := |ts| - 1;
      AlwaysConsistent(ts[..n]);
      assert Consistent(ts[..n][n - 1]);
      StepKeeps(ts[n - 1], ts[n]);
      forall i | 0 <= i < n
        ensures Consistent(ts[i])
      {
        assert ts[..n][i] == ts[i];
      }
    }
  }

  lemma EmptyConsistent()
    ensures Consistent(EMPTY)
  {
  }

  // ----- table sizes -----

  predicate DistinctIds(order: seq<string>) {
    forall i, j :: 0 <= i < j < |order| ==> order[i] != order[j]
  }

  /** How often the listed ids occur, all told. */
  function Occurrences(order: seq<string>, runs: seq<string>): nat {
    if order == [] then 0 else Occurrences(order[..|order| - 1], runs) + multiset(runs)[order[|order| - 1]]
  }

  lemma {:induction false} OneMoreOccurrence(order: seq<string>, runs: seq<string>, x: string)
    requires DistinctIds(order)
    ensures Occurrences(order, runs + [x]) == Occurrences(order, runs) + if x in order then 1 else 0
  {
    if order != [] {
      var n := |order| - 1;
      OneMoreOccurrence(order[..n], runs, x);
      assert x in order <==> x in order[..n] || x == order[n];
      assert forall i :: 0 <= i < n ==> order[..n][i] == order[i];
    }
  }

  lemma {:induction false} AllOccur(order: seq<string>, runs: seq<string>)
    requires DistinctIds(order) && forall i :: 0 <= i < |runs| ==> runs[i] in order
    ensures Occurrences(order, runs) == |runs|
  {
    if runs == [] {
      NoneOccur(order);
    } else {
      var n := |runs| - 1;
      AllOccur(order, runs[..n]);
      OneMoreOccurrence(order, runs[..n], runs[n]);
      assert runs == runs[..n] + [runs[n]];
    }
  }

  lemma {:induction false} NoneOccur(order: seq<string>)
    ensures Occurrences(order, []) == 0
  {
    if order != [] {
      NoneOccur(order[..|order| - 1]);
    }
  }

  /** The sum of a column of the run table, its rows in any order. */
  function SumOver(order: seq<string>, column: map<string, nat>): nat
    requires forall i :: 0 <= i < |order| ==> order[i] in column
  {
    if order == [] then 0 else SumOver(order[..|order| - 1], column) + column[order[|order| - 1]]
  }

  lemma {:induction false} SumIsOccurrences(order: seq<string>, column: map<string, nat>, runs: seq<string>)
    requires forall i :: 0 <= i < |order| ==> order[i] in column && column[order[i]] == multiset(runs)[order[i]]
    ensures SumOver(order, column) == Occurrences(order, runs)
  {
    if order != [] {
      SumIsOccurrences(order[..|order| - 1], column, runs);
    }
  }

  /** The observation, quality and transform tables are as large as the run rows' counts add up to. */
  lemma SizesAddUp(ts: seq<Tables>, i: nat, order: seq<string>)
    requires History(ts) && i < |ts| && DistinctIds(order)
    requires forall r :: r in order <==> r in ts[i].runs
    ensures var t := ts[i];
            && |t.observations| == SumOver(order, map r | r in t.runs :: t.runs[r].observationCount)
            && |t.qualities| == SumOver(order, map r | r in t.runs :: t.runs[r].qualityCount)
            && |t.transforms| == SumOver(order, map r | r in t.runs :: t.runs[r].transformCount)
  {
    hide History, ObservationRuns, QualityRuns, TransformRuns, DerivedFrom, SumOver, Occurrences;
    AlwaysConsistent(ts);
    var t := ts[i];
    RunsOfRows(t);
    assert forall k :: 0 <= k < |order| ==> order[k] in order;
    AllOccur(order, ObservationRuns(t));
    AllOccur(order, QualityRuns(t));
    AllOccur(order, TransformRuns(t));
    SumIsOccurrences(order, map r | r in t.runs :: t.runs[r].observationCount, ObservationRuns(t));
    SumIsOccurrences(order, map r | r in t.runs :: t.runs[r].qualityCount, QualityRuns(t));
    SumIsOccurrences(order, map r | r in t.runs :: t.runs[r].transformCount, TransformRuns(t));
  }

  lemma {:induction false} SumRemove(order: seq<string>, column: map<string, nat>, k: nat)
    requires k < |order| && forall i :: 0 <= i < |order| ==> order[i] in column
    ensures SumOver(order, column) == SumOver(order[..k] + order[k + 1..], column) + column[order[k]]
  {
    var n := |order| - 1;
    var rest := order[..k] + order[k + 1..];
    if k == n {
      assert rest == order[..n];
    } else {
      SumRemove(order[..n], column, k);
      assert rest[..n - 1] == order[..n][..k] + order[..n][k + 1..];
      assert rest[n - 1] == order[n];
    }
  }

  lemma {:induction false} SumAgrees(order: seq<string>, a: map<string, nat>, b: map<string, nat>)
    requires forall i :: 0 <= i < |order| ==> order[i] in a && order[i] in b && a[order[i]] == b[order[i]]
    ensures SumOver(order, a) == SumOver(order, b)
  {
    if order != [] {
      SumAgrees(order[..|order| - 1], a, b);
    }
  }

  lemma {:induction false} AtMostLength<T>(keys: seq<T>)
    ensures |set k | k in keys| <= |keys|
  {
    if keys != [] {
      var n := |keys| - 1;
      AtMostLength(keys[..n]);
      assert (set k | k in keys) == (set k | k in keys[..n]) + {keys[n]};
    }
  }

  lemma UpsertGrows<K(!new), V>(pre: map<K, V>, keys: seq<K>, rows: seq<V>, post: map<K, V>)
    requires |keys| == |rows| && Upserted(pre, keys, rows, post)
    ensures |post| <= |pre| + |keys|
  {
    AtMostLength(keys);
    assert post.Keys == pre.Keys + set k | k in keys;
    assert |post| == |post.Keys| && |pre| == |pre.Keys|;
  }

  /** A commit adds no more candles and watermarks than it was submitted with. */
  lemma TablesGrow(pre: Tables, w: RunWrite, at: string, post: Tables)
    requires Accepted(pre, w, at, post)
    ensures |post.candles| <= |pre.candles| + |w.candles| && |post.watermarks| <= |pre.watermarks| + |w.watermarks|
  {
    hide Decide, Upserted, EntitlementRows, EntitlementKeys, BackupKeys, BackupRows;
    UpsertGrows(pre.candles, CandleKeys(w), CandleRows(w, |pre.transforms|), post.candles);
    UpsertGrows(pre.watermarks, WatermarkKeys(w), Rows(NewWatermark, w.watermarks), post.watermarks);
  }

  /** The run row of an accepted commit counts what was submitted, list by list, and is what the receipt repeats. */
  lemma RowCounts(pre: Tables, w: RunWrite, at: string, post: Tables)
    requires Accepted(pre, w, at, post)
    ensures w.runId in post.runs
    ensures var row, receipt := post.runs[w.runId], ReceiptOf(w.runId, post.runs[w.runId]);
            && row.candleCount == |w.candles| == receipt.candleCount && row.observationCount == |w.observations| == receipt.observationCount
            && row.qualityCount == |w.qualities| == receipt.qualityCount && row.transformCount == |w.transforms| == receipt.transformCount
            && row.watermarkCount == |w.watermarks| == receipt.watermarkCount
            && row.status == w.status == receipt.status && row.manifestVersion == w.manifestVersion == receipt.manifestVersion
            && row.manifestHash == Lower(w.manifestHash) == receipt.manifestHash && row.committedAt == at == receipt.committedAt
            && row.startedAt == w.startedAt && row.windowStart == w.windowStart && row.windowEnd == w.windowEnd && row.error == w.error
            && row.completedAt == (match w.completedAt case Some(text) => text case None => at) && receipt.runId == w.runId
  {
    hide Decide, Upserted, Rows;
  }

  function CandleCounts(t: Tables): map<string, nat> {
    map r | r in t.runs :: t.runs[r].candleCount
  }

  function WatermarkCounts(t: Tables): map<string, nat> {
    map r | r in t.runs :: t.runs[r].watermarkCount
  }

  /** With one more run the sum of a column grows by that run's count. */
  lemma OneMoreCount(order: seq<string>, k: nat, before: map<string, nat>, after: map<string, nat>)
    requires DistinctIds(order) && k < |order| && forall r :: r in order ==> r in after && (r != order[k] ==> r in before && before[r] == after[r])
    ensures forall r :: r in order[..k] + order[k + 1..] ==> r in before
    ensures SumOver(order, after) == SumOver(order[..k] + order[k + 1..], before) + after[order[k]]
  {
    hide SumOver;
    var rest := order[..k] + order[k + 1..];
    OthersLeft(order, k);
    forall i | 0 <= i < |rest|
      ensures rest[i] in before && rest[i] in after && before[rest[i]] == after[rest[i]]
    {
      assert rest[i] in rest;
    }
    assert forall i :: 0 <= i < |order| ==> order[i] in order;
    SumRemove(order, after, k);
    SumAgrees(rest, before, after);
  }

  /** The store never holds more candles or watermarks than its run rows say were written. */
  lemma {:induction false} SizesBounded(ts: seq<Tables>, i: nat, order: seq<string>)
    requires History(ts) && i < |ts| && DistinctIds(order) && forall r :: r in order <==> r in ts[i].runs
    ensures forall k :: 0 <= k < |order| ==> order[k] in order
    ensures |ts[i].candles| <= SumOver(order, CandleCounts(ts[i])) && |ts[i].watermarks| <= SumOver(order, WatermarkCounts(ts[i]))
    decreases i
  {
    hide Accepted, SumOver, DistinctIds;
    if i > 0 {
      var pre, post := ts[i - 1], ts[i];
      if post == pre {
        SizesBounded(ts, i - 1, order);
      } else {
        var w, at :| Accepted(pre, w, at, post);
        NewRow(pre, w, at, post);
        TablesGrow(pre, w, at, post);
        var k :| 0 <= k < |order| && order[k] == w.runId;
        OthersLeft(order, k);
        SizesBounded(ts, i - 1, order[..k] + order[k + 1..]);
        OneMoreCount(order, k, CandleCounts(pre), CandleCounts(post));
        OneMoreCount(order, k, WatermarkCounts(pre), WatermarkCounts(post));
      }
    }
  }

  lemma NewRow(pre: Tables, w: RunWrite, at: string, post: Tables)
    requires Accepted(pre, w, at, post)
    ensures w.runId !in pre.runs && forall r :: r in post.runs <==> r in pre.runs || r == w.runId
    ensures forall r :: r in pre.runs ==> post.runs[r] == pre.runs[r]
    ensures post.runs[w.runId].candleCount == |w.candles| && post.runs[w.runId].watermarkCount == |w.watermarks|
  {
    hide Upserted, Rows, Rejection;
  }

  lemma OthersLeft(order: seq<string>, k: nat)
    requires DistinctIds(order) && k < |order|
    ensures var rest := order[..k] + order[k + 1..];
            DistinctIds(rest) && forall r :: r in rest <==> r in order && r != order[k]
  {
    var rest := order[..k] + order[k + 1..];
    forall r | r in order && r != order[k]
      ensures r in rest
    {
      var i :| 0 <= i < |order| && order[i] == r;
      assert rest[if i < k then i else i - 1] == r;
    }
  }

  lemma RunsOfRows(t: Tables)
    ensures |ObservationRuns(t)| == |t.observations| && |QualityRuns(t)| == |t.qualities| && |TransformRuns(t)| == |t.transforms|
  {
  }

  // ----- watermarks never move back -----

  predicate NotBefore(a: string, b: string) {
    !StrLess(a, b)
  }

  ghost predicate WatermarksKept(pre: Tables, post: Tables) {
    forall s :: s in pre.watermarks ==>
      s in post.watermarks && NotBefore(post.watermarks[s].lastClosed, pre.watermarks[s].lastClosed)
  }

  lemma CommitMonotone(pre: Tables, w: RunWrite, at: string, post: Tables)
    requires Accepted(pre, w, at, post)
    ensures WatermarksKept(pre, post)
  {
    hide Decide, Applied, StrLess;
    AcceptedRun(pre, w);
    StoredAsSubmitted(pre, w, at, post);
    forall s | s in pre.watermarks
      ensures s in post.watermarks && NotBefore(post.watermarks[s].lastClosed, pre.watermarks[s].lastClosed)
    {
      StrLessIrreflexive(pre.watermarks[s].lastClosed);
      if post.watermarks[s] != pre.watermarks[s] {
        var i :| 0 <= i < |w.watermarks| && IdOf(w.watermarks[i].key) == s;
        assert !Backwards(pre, w.watermarks[i]);
      }
    }
  }

  lemma StepMonotone(pre: Tables, post: Tables)
    requires Step(pre, post)
    ensures WatermarksKept(pre, post)
  {
    hide Accepted, StrLess;
    if post == pre {
      forall s | s in pre.watermarks
        ensures NotBefore(pre.watermarks[s].lastClosed, pre.watermarks[s].lastClosed)
      {
        StrLessIrreflexive(pre.watermarks[s].lastClosed);
      }
    } else {
      var w, at :| Accepted(pre, w, at, post);
      CommitMonotone(pre, w, at, post);
    }
  }

  lemma KeptTransitive(a: Tables, b: Tables, c: Tables)
    requires WatermarksKept(a, b) && WatermarksKept(b, c)
    ensures WatermarksKept(a, c)
  {
    forall s | s in a.watermarks
      ensures s in c.watermarks && NotBefore(c.watermarks[s].lastClosed, a.watermarks[s].lastClosed)
    {
      var x, y, z := a.watermarks[s].lastClosed, b.watermarks[s].lastClosed, c.watermarks[s].lastClosed;
      NotBeforeTransitive(x, y, z);
    }
  }

  lemma NotBeforeTransitive(x: string, y: string, z: string)
    requires NotBefore(y, x) && NotBefore(z, y)
    ensures NotBefore(z, x)
  {
    StrLessTotal(x, y);
    StrLessTotal(y, z);
    if StrLess(z, x) {
      StrLessTotal(z, y);
      if StrLess(x, y) {
        StrLessTransitive(z, x, y);
      }
    }
  }

  /** Over any stretch of a history every watermark stays and never decreases. */
  lemma {:induction false} WatermarksMonotone(ts: seq<Tables>, i: nat, j: nat)
    requires History(ts) && i <= j < |ts|
    ensures WatermarksKept(ts[i], ts[j])
    decreases j
  {
    hide Step, WatermarksKept;
    if i == j {
      SelfKept(ts[i]);
    } else {
      WatermarksMonotone(ts, i, j - 1);
      StepMonotone(ts[j - 1], ts[j]);
      KeptTransitive(ts[i], ts[j - 1], ts[j]);
    }
  }

  lemma SelfKept(t: Tables)
    ensures WatermarksKept(t, t)
  {
    forall s | s in t.watermarks
      ensures NotBefore(t.watermarks[s].lastClosed, t.watermarks[s].lastClosed)
    {
      StrLessIrreflexive(t.watermarks[s].lastClosed);
    }
  }

  // ----- repeated runs -----

  lemma StepKeepsRun(pre: Tables, post: Tables, r: string)
    requires Step(pre, post) && r in pre.runs
    ensures r in post.runs && post.runs[r] == pre.runs[r]
  {
    hide Upserted, Rows, Decide;
    if post != pre {
      var w, at :| Accepted(pre, w, at, post);
      AcceptedRun(pre, w);
    }
  }

  /** A stored run is never changed or removed. */
  lemma {:induction false} RunsPermanent(ts: seq<Tables>, i: nat, j: nat, r: string)
    requires History(ts) && i <= j < |ts| && r in ts[i].runs
    ensures r in ts[j].runs && ts[j].runs[r] == ts[i].runs[r]
    decreases j
  {
    hide Step;
    if i < j {
      RunsPermanent(ts, i, j - 1, r);
      StepKeepsRun(ts[j - 1], ts[j], r);
    }
  }

  /**
   Submitting an accepted run again, at any later time, answers with its first receipt and changes
   nothing exactly when the run did not fail and its manifest digest was already in lower case: the
   digest is stored in lower case but compared as submitted.
   */
  lemma RepeatIff(ts: seq<Tables>, i: nat, j: nat, w: RunWrite, at: string, fault: Fault)
    requires History(ts) && 0 < i <= j < |ts| && Accepted(ts[i - 1], w, at, ts[i])
    ensures Decide(ts[j], w, fault) == Repeat(ReceiptOf(w.runId, NewRun(w, at))) <==>
            w.status != "failed" && w.manifestHash == Lower(w.manifestHash)
    ensures w.manifestHash != Lower(w.manifestHash) ==> Decide(ts[j], w, fault) == Reject(OtherManifest)
  {
    hide Rejection, ValidHeader, ValidCandles, ValidObservations, ValidQualities, ValidTransforms, DerivedCovered,
      ValidWatermarks, Upserted, Rows, FreshEntitlements, FreshBackups, MovesBackwards;
    AcceptedRun(ts[i - 1], w);
    RunsPermanent(ts, i, j, w.runId);
    HeaderStatus(w);
  }

  /** A rejected or repeated commit is a step without effect, an accepted one a step of the history. */
  lemma CommitIsStep(pre: Tables, w: RunWrite, at: string, fault: Fault, post: Tables)
    requires if Decide(pre, w, fault) == Accept then Applied(pre, w, at, post) else post == pre
    ensures Step(pre, post)
  {
    hide Applied, Rejection, FreshEntitlements, FreshBackups, MovesBackwards;
    if Decide(pre, w, fault) == Accept {
      assert Accepted(pre, w, at, post);
    }
  }
}
