/** What a run submits, and when it is well formed (src/kline/storage.py, src/kline/store.py `_validate_mvp_run`). */
module RunWrites {
  import opened Results
  import opened Timestamps
  import opened Storage

  datatype ObservationWrite = ObservationWrite(
    runId: string, key: SeriesKey, success: bool, requestStart: Option<string>, requestEnd: Option<string>,
    responseHash: Option<string>, candleCount: int, latestTimestamp: Option<string>, latency: Option<real>,
    servedFrom: string, observedAt: Option<string>)

  datatype QualityWrite = QualityWrite(
    runId: string, key: SeriesKey, status: string, gaps: int, duplicates: int, invalidRows: int,
    blockedCells: int, receiptHash: Option<string>)

  datatype TransformWrite = TransformWrite(
    runId: string, manifestVersion: string, instrumentId: string, sourceId: string, output: Timeframe,
    input: Timeframe, rule: string, inputStart: string, inputEnd: string, inputHash: string,
    outputHash: string, anchor: Option<string>, partialPolicy: Option<string>, partialCount: int)

  datatype WatermarkWrite = WatermarkWrite(key: SeriesKey, lastClosed: string, cursor: Option<string>, runId: string)

  datatype EntitlementWrite = EntitlementWrite(
    receiptId: string, sourceId: string, status: string, permissions: seq<Timeframe>,
    evidence: string, receiptHash: string)

  datatype BackupWrite = BackupWrite(
    backupId: string, runId: string, destination: string, status: string, checksum: string, size: int)

  datatype RunWrite = RunWrite(
    runId: string, manifestVersion: string, manifestHash: string, startedAt: string,
    windowStart: Option<string>, windowEnd: Option<string>, completedAt: Option<string>,
    candles: seq<Candle>, observations: seq<ObservationWrite>, qualities: seq<QualityWrite>,
    transforms: seq<TransformWrite>, watermarks: seq<WatermarkWrite>,
    entitlements: seq<EntitlementWrite>, backups: seq<BackupWrite>,
    status: string, error: Option<string>)

  datatype StoreError =
    | BadHeader | FailedRunPromotes | BadCandle | BadObservation | BadQuality | BadTransform
    | UncoveredDerived | BadWatermark | BadEntitlement | BadBackup
    | OtherManifest | FailedAttempt | WatermarkBackwards | RolledBack

  // ----- field checks -----

  function Lower(s: string): (r: string)
    ensures |r| == |s|
  {
    if s == "" then ""
    else [if 'A' <= s[0] <= 'Z' then (s[0] as int + 32) as char else s[0]] + Lower(s[1..])
  }

  predicate IsHex(c: char) {
    '0' <= c <= '9' || 'a' <= c <= 'f'
  }

  /** `_mvp_hash`: 64 hexadecimal digits of either case. */
  predicate IsSha256(s: string) {
    |s| == 64 && forall i :: 0 <= i < 64 ==> IsHex(Lower(s)[i])
  }

  /** `_mvp_text` of a value that may be absent. */
  predicate TextOrNone(s: Option<string>) {
    s.Some? ==> !Blank(s.value)
  }

  predicate HashOrNone(s: Option<string>) {
    s.Some? ==> IsSha256(s.value)
  }

  // ----- well-formed runs -----

  datatype CandleId = CandleId(series: SeriesId, stamp: int)

  function CandleIdOf(c: Candle): CandleId {
    CandleId(IdOf(c.key), c.stamp)
  }

  datatype TransformId = TransformId(instrumentId: string, sourceId: string, output: Timeframe)

  function TransformIdOf(t: TransformWrite): TransformId {
    TransformId(t.instrumentId, t.sourceId, t.output)
  }

  datatype TransformKey = TransformKey(id: TransformId, input: Timeframe)

  function TransformKeyOf(t: TransformWrite): TransformKey {
    TransformKey(TransformIdOf(t), t.input)
  }

  /** The transform receipt a derived candle of this series needs. */
  function NeededTransform(k: SeriesKey): TransformId {
    TransformId(k.instrumentId, k.sourceId, k.timeframe)
  }

  predicate ValidHeader(w: RunWrite) {
    && !Blank(w.runId) && !Blank(w.manifestVersion) && IsSha256(w.manifestHash) && !Blank(w.startedAt)
    && TextOrNone(w.completedAt) && TextOrNone(w.windowStart) && TextOrNone(w.windowEnd)
    && w.status in {"success", "partial", "failed"}
    && (w.status == "failed" ==> w.error.Some? && w.error.value != "")
  }

  predicate PromotesNothing(w: RunWrite) {
    w.candles == [] && w.observations == [] && w.qualities == [] && w.transforms == [] && w.watermarks == []
  }

  predicate ValidCandles(w: RunWrite) {
    && (forall i :: 0 <= i < |w.candles| ==> w.candles[i].key.manifestVersion == w.manifestVersion)
    && (forall i, j :: 0 <= i < j < |w.candles| ==> CandleIdOf(w.candles[i]) != CandleIdOf(w.candles[j]))
  }

  predicate ValidObservation(w: RunWrite, o: ObservationWrite) {
    && o.runId == w.runId && o.key.manifestVersion == w.manifestVersion && o.candleCount >= 0
    && TextOrNone(o.requestStart) && TextOrNone(o.requestEnd) && HashOrNone(o.responseHash)
    && TextOrNone(o.latestTimestamp) && TextOrNone(o.observedAt) && !Blank(o.servedFrom)
    && (o.latency.Some? ==> o.latency.value >= 0.0)
  }

  predicate ValidObservations(w: RunWrite) {
    forall i :: 0 <= i < |w.observations| ==> ValidObservation(w, w.observations[i])
  }

  predicate ValidQuality(w: RunWrite, q: QualityWrite) {
    && q.runId == w.runId && q.key.manifestVersion == w.manifestVersion
    && q.status in {"pass", "partial", "blocked", "fail", "missing"}
    && q.gaps >= 0 && q.duplicates >= 0 && q.invalidRows >= 0 && q.blockedCells >= 0
    && HashOrNone(q.receiptHash)
  }

  predicate ValidQualities(w: RunWrite) {
    && (forall i :: 0 <= i < |w.qualities| ==> ValidQuality(w, w.qualities[i]))
    && (forall i, j :: 0 <= i < j < |w.qualities| ==> IdOf(w.qualities[i].key) != IdOf(w.qualities[j].key))
  }

  predicate ValidTransform(w: RunWrite, t: TransformWrite) {
    && t.runId == w.runId && t.manifestVersion == w.manifestVersion
    && IsMvp(t.output) && IsMvp(t.input) && t.output != t.input
    && !Blank(t.inputStart) && !Blank(t.inputEnd) && !Blank(t.rule)
    && IsSha256(t.inputHash) && IsSha256(t.outputHash)
    && TextOrNone(t.anchor) && TextOrNone(t.partialPolicy) && t.partialCount >= 0
  }

  predicate ValidTransforms(w: RunWrite) {
    && (forall i :: 0 <= i < |w.transforms| ==> ValidTransform(w, w.transforms[i]))
    && (forall i, j :: 0 <= i < j < |w.transforms| ==> TransformKeyOf(w.transforms[i]) != TransformKeyOf(w.transforms[j]))
  }

  predicate DerivedCovered(w: RunWrite) {
    forall i :: 0 <= i < |w.candles| && w.candles[i].derived ==>
      exists j :: 0 <= j < |w.transforms| && TransformIdOf(w.transforms[j]) == NeededTransform(w.candles[i].key)
  }

  predicate ValidWatermark(w: RunWrite, m: WatermarkWrite) {
    && m.runId == w.runId && m.key.manifestVersion == w.manifestVersion
    && !Blank(m.lastClosed) && TextOrNone(m.cursor)
  }

  predicate ValidWatermarks(w: RunWrite) {
    && (forall i :: 0 <= i < |w.watermarks| ==> ValidWatermark(w, w.watermarks[i]))
    && (forall i, j :: 0 <= i < j < |w.watermarks| ==> IdOf(w.watermarks[i].key) != IdOf(w.watermarks[j].key))
  }

  predicate ValidEntitlements(w: RunWrite) {
    forall i :: 0 <= i < |w.entitlements| ==>
      var e := w.entitlements[i];
      && !Blank(e.receiptId) && !Blank(e.sourceId) && !Blank(e.status) && !Blank(e.evidence)
      && IsSha256(e.receiptHash) && forall j :: 0 <= j < |e.permissions| ==> IsMvp(e.permissions[j])
  }

  predicate ValidBackups(w: RunWrite) {
    forall i :: 0 <= i < |w.backups| ==>
      var b := w.backups[i];
      && !Blank(b.backupId) && b.runId == w.runId && !Blank(b.destination) && !Blank(b.status)
      && IsSha256(b.checksum) && b.size >= 0
  }

  /** The first rule a run breaks, in the order they are checked. */
  function Rejection(w: RunWrite): Option<StoreError> {
    if !ValidHeader(w) then Some(BadHeader)
    else if w.status == "failed" && !PromotesNothing(w) then Some(FailedRunPromotes)
    else if !ValidCandles(w) then Some(BadCandle)
    else if !ValidObservations(w) then Some(BadObservation)
    else if !ValidQualities(w) then Some(BadQuality)
    else if !ValidTransforms(w) then Some(BadTransform)
    else if !DerivedCovered(w) then Some(UncoveredDerived)
    else if !ValidWatermarks(w) then Some(BadWatermark)
    else if !ValidEntitlements(w) then Some(BadEntitlement)
    else if !ValidBackups(w) then Some(BadBackup)
    else None
  }

  // ----- the checks as the store runs them, with growing sets of identities -----

  method CheckCandles(w: RunWrite) returns (ok: bool)
    ensures ok == ValidCandles(w)
  {
    var seen: set<CandleId> := {};
    for i := 0 to |w.candles|
      invariant forall k :: 0 <= k < i ==> w.candles[k].key.manifestVersion == w.manifestVersion
      invariant seen == set k | 0 <= k < i :: CandleIdOf(w.candles[k])
      invariant forall k, j :: 0 <= k < j < i ==> CandleIdOf(w.candles[k]) != CandleIdOf(w.candles[j])
    {
      if w.candles[i].key.manifestVersion != w.manifestVersion || CandleIdOf(w.candles[i]) in seen {
        return false;
      }
      seen := seen + {CandleIdOf(w.candles[i])};
    }
    return true;
  }

  method CheckQualities(w: RunWrite) returns (ok: bool)
    ensures ok == ValidQualities(w)
  {
    var seen: set<SeriesId> := {};
    for i := 0 to |w.qualities|
      invariant forall k :: 0 <= k < i ==> ValidQuality(w, w.qualities[k])
      invariant seen == set k | 0 <= k < i :: IdOf(w.qualities[k].key)
      invariant forall k, j :: 0 <= k < j < i ==> IdOf(w.qualities[k].key) != IdOf(w.qualities[j].key)
    {
      if !ValidQuality(w, w.qualities[i]) || IdOf(w.qualities[i].key) in seen {
        return false;
      }
      seen := seen + {IdOf(w.qualities[i].key)};
    }
    return true;
  }

  method CheckTransforms(w: RunWrite) returns (ok: bool, seen: set<TransformKey>)
    ensures ok == ValidTransforms(w)
    ensures ok ==> seen == set k | 0 <= k < |w.transforms| :: TransformKeyOf(w.transforms[k])
  {
    hide ValidTransform, TransformKeyOf;
    seen := {};
    for i := 0 to |w.transforms|
      invariant forall k :: 0 <= k < i ==> ValidTransform(w, w.transforms[k])
      invariant seen == set k | 0 <= k < i :: TransformKeyOf(w.transforms[k])
      invariant forall k, j :: 0 <= k < j < i ==> TransformKeyOf(w.transforms[k]) != TransformKeyOf(w.transforms[j])
    {
      if !ValidTransform(w, w.transforms[i]) || TransformKeyOf(w.transforms[i]) in seen {
        return false, seen;
      }
      seen := seen + {TransformKeyOf(w.transforms[i])};
    }
    return true, seen;
  }

  lemma CoverageIff(w: RunWrite, derived: set<TransformId>, keys: set<TransformKey>, outputs: set<TransformId>)
    requires derived == set i | 0 <= i < |w.candles| && w.candles[i].derived :: NeededTransform(w.candles[i].key)
    requires keys == set j | 0 <= j < |w.transforms| :: TransformKeyOf(w.transforms[j])
    requires outputs == set k | k in keys :: k.id
    ensures derived - outputs == {} <==> DerivedCovered(w)
  {
    if derived - outputs == {} {
      forall i | 0 <= i < |w.candles| && w.candles[i].derived
        ensures exists j :: 0 <= j < |w.transforms| && TransformIdOf(w.transforms[j]) == NeededTransform(w.candles[i].key)
      {
        var id := NeededTransform(w.candles[i].key);
        assert id in derived;
        assert id !in derived - outputs;
        var k :| k in keys && k.id == id;
      }
    }
    if DerivedCovered(w) {
      forall id | id in derived
        ensures id in outputs
      {
        var i :| 0 <= i < |w.candles| && w.candles[i].derived && NeededTransform(w.candles[i].key) == id;
        var j :| 0 <= j < |w.transforms| && TransformIdOf(w.transforms[j]) == id;
        assert TransformKeyOf(w.transforms[j]) in keys;
      }
    }
  }

  method CheckWatermarks(w: RunWrite) returns (ok: bool)
    ensures ok == ValidWatermarks(w)
  {
    var seen: set<SeriesId> := {};
    for i := 0 to |w.watermarks|
      invariant forall k :: 0 <= k < i ==> ValidWatermark(w, w.watermarks[k])
      invariant seen == set k | 0 <= k < i :: IdOf(w.watermarks[k].key)
      invariant forall k, j :: 0 <= k < j < i ==> IdOf(w.watermarks[k].key) != IdOf(w.watermarks[j].key)
    {
      if !ValidWatermark(w, w.watermarks[i]) || IdOf(w.watermarks[i].key) in seen {
        return false;
      }
      seen := seen + {IdOf(w.watermarks[i].key)};
    }
    return true;
  }

  /** `_validate_mvp_run` */
  method ValidateRun(w: RunWrite) returns (r: Option<StoreError>)
    ensures r == Rejection(w)
  {
    hide ValidHeader, ValidCandles, ValidObservations, ValidQualities, ValidTransforms, ValidWatermarks, ValidEntitlements, ValidBackups;
    if !ValidHeader(w) {
      return Some(BadHeader);
    }
    if w.status == "failed" && !PromotesNothing(w) {
      return Some(FailedRunPromotes);
    }
    var ok := CheckCandles(w);
    if !ok {
      return Some(BadCandle);
    }
    if !ValidObservations(w) {
      return Some(BadObservation);
    }
    ok := CheckQualities(w);
    if !ok {
      return Some(BadQuality);
    }
    var keys;
    ok, keys := CheckTransforms(w);
    if !ok {
      return Some(BadTransform);
    }
    var derived := set i | 0 <= i < |w.candles| && w.candles[i].derived :: NeededTransform(w.candles[i].key);
    var outputs := set k | k in keys :: k.id;
    CoverageIff(w, derived, keys, outputs);
    if derived - outputs != {} {
      return Some(UncoveredDerived);
    }
    ok := CheckWatermarks(w);
    if !ok {
      return Some(BadWatermark);
    }
    if !ValidEntitlements(w) {
      return Some(BadEntitlement);
    }
    if !ValidBackups(w) {
      return Some(BadBackup);
    }
    return None;
  }

  lemma {:induction false} LowerTwice(s: string)
    ensures Lower(Lower(s)) == Lower(s)
  {
    if s != "" {
      LowerTwice(s[1..]);
      assert Lower(s)[1..] == Lower(s[1..]);
    }
  }
}
