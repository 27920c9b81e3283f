/**
 The ingestion orchestrator (src/kline/ingestion.py).  An adapter is an oracle: it returns rows with
 optional transform metadata, or fails in one of the ways the program distinguishes.
 */
module Ingestion {
  import opened Results
  import opened Timestamps
  import opened Storage
  import opened Calendar
  import opened Quality
  import opened RunWrites
  import opened Store

  datatype Instrument = Instrument(
    instrumentId: string, displaySymbol: string, providerSymbol: string, sourceId: string, assetClass: string,
    adjustmentBasis: string, calendar: Spec, semantics: VolumeSemantics, required: seq<Timeframe>,
    notApplicable: seq<Timeframe>, blocked: seq<Timeframe>, entitled: bool)

  /** `end` is `now` cut to whole seconds, printed; `now` itself is the cutoff. */
  datatype Plan = Plan(
    runId: string, manifestVersion: string, manifestHash: string, startedAt: string, now: int, end: string,
    historyStart: Option<string>, forceHistory: bool, overlapBars: int, rateBudget: Option<int>, policy: Policy)

  datatype RawRow = RawRow(
    timestamp: Option<string>, open: real, high: real, low: real, close: real,
    volume: Option<real>, amount: Option<real>)

  /**
   What `int` makes of a count of partial buckets: a number, a ValueError, which the run reports, or
   another error (a null, an infinity), which ends it.
   */
  datatype PartialCount = Number(value: int) | NotANumber | Uncaught

  /** How an adapter derived its rows. */
  datatype Transform = Transform(
    raw: Timeframe, aggregated: bool, rule: string, anchor: Option<string>,
    partialPolicy: Option<string>, partialCount: PartialCount)

  datatype Fetch =
    | NoAdapter
    | NotEntitled(responseHash: Option<string>, latency: Option<real>)
    | ProviderFailed(responseHash: Option<string>, latency: Option<real>)
    | Fetched(rows: seq<RawRow>, transform: Option<Transform>, responseHash: Option<string>,
              issuesHash: string, rowsHash: string, stampsHash: string, latency: Option<real>)

  datatype CellStatus =
    | Ready | NotApplicableCell | BlockedForEntitlement | BlockedRateBudget | Unavailable
    | ProviderError | PartialCell | FailedCell | MalformedCell

  /** The lists and counters a run accumulates. */
  datatype Draft = Draft(
    candles: seq<Candle>, observations: seq<ObservationWrite>, qualities: seq<QualityWrite>,
    transforms: seq<TransformWrite>, watermarks: seq<WatermarkWrite>, cells: seq<CellStatus>,
    requests: nat, passed: nat, partial: nat, failed: nat, promoted: nat, regressions: nat)

  const NEW_DRAFT: Draft := Draft([], [], [], [], [], [], 0, 0, 0, 0, 0, 0)

  function KeyOf(plan: Plan, inst: Instrument, tf: Timeframe): SeriesKey {
    SeriesKey(inst.instrumentId, inst.displaySymbol, inst.providerSymbol, inst.sourceId, inst.assetClass, tf,
              inst.adjustmentBasis, plan.manifestVersion)
  }

  // ----- normalising rows -----

  /** The candle a raw row makes, when `MvpCandle` admits it. */
  function MakeCandle(key: SeriesKey, semantics: VolumeSemantics, derived: bool, raw: RawRow): (r: Option<Candle>)
    requires IsMvp(key.timeframe)
    ensures r.Some? ==> r.value.Valid() && r.value.key == key && r.value.derived == derived
  {
    if raw.timestamp == None || Blank(raw.timestamp.value) then None
    else
      match ParseIso(ReplaceZ(Strip(raw.timestamp.value)))
      case None => None
      case Some(t) =>
        var volume := if semantics == NotApplicable then None else raw.volume;
        var c := Candle(key, t, raw.open, raw.high, raw.low, raw.close, volume, raw.amount, semantics, derived, None);
        if c.Valid() then Some(c) else None
  }

  predicate HasStamp(rows: seq<Candle>, t: int) {
    exists i :: 0 <= i < |rows| && rows[i].stamp == t
  }

  function RejectedAt(raw: RawRow): Target {
    if raw.timestamp.Some? && raw.timestamp.value != "" then RawText(raw.timestamp.value) else Nowhere
  }

  datatype Converted = Converted(rows: seq<Candle>, issues: seq<Issue>)

  /** Admitted rows, the first of each timestamp, and an issue for every other row. */
  function Convert(key: SeriesKey, semantics: VolumeSemantics, derived: bool, raws: seq<RawRow>): Converted
    requires IsMvp(key.timeframe)
  {
    if raws == [] then Converted([], [])
    else
      var p := Convert(key, semantics, derived, raws[..|raws| - 1]);
      var raw := raws[|raws| - 1];
      match MakeCandle(key, semantics, derived, raw)
      case None => Converted(p.rows, p.issues + [Issue(Malformed, RejectedAt(raw))])
      case Some(c) =>
        if HasStamp(p.rows, c.stamp) then Converted(p.rows, p.issues + [Issue(Duplicate, At(c.stamp))])
        else Converted(p.rows + [c], p.issues)
  }

  /** The row's timestamp reads as an instant that has no UTC date, which no handler of the run catches. */
  predicate Undatable(raw: RawRow) {
    raw.timestamp.Some? && !Blank(raw.timestamp.value) &&
    var t := ParseIso(ReplaceZ(Strip(raw.timestamp.value)));
    t.Some? && !Representable(t.value)
  }

  predicate AllDated(raws: seq<RawRow>) {
    forall i :: 0 <= i < |raws| ==> !Undatable(raws[i])
  }

  /** The instant the row's text reads as, when it has a text that reads. */
  function InstantOf(raw: RawRow): Option<int> {
    if raw.timestamp == None || Blank(raw.timestamp.value) then None else ParseIso(ReplaceZ(Strip(raw.timestamp.value)))
  }

  /** The row can be a candle: a time that exists, a range around its prices, and a volume when its instrument has one. */
  predicate Admissible(semantics: VolumeSemantics, raw: RawRow) {
    && InstantOf(raw).Some? && Representable(InstantOf(raw).value)
    && raw.low <= raw.open <= raw.high && raw.low <= raw.close <= raw.high
    && (semantics == NotApplicable || (raw.volume.Some? && raw.volume.value >= 0.0))
  }

  /** The candle repeats the row: its instant, its prices, its amount, and its volume unless the instrument has none. */
  predicate Copies(key: SeriesKey, semantics: VolumeSemantics, derived: bool, raw: RawRow, c: Candle) {
    && InstantOf(raw) == Some(c.stamp)
    && c.open == raw.open && c.high == raw.high && c.low == raw.low && c.close == raw.close && c.amount == raw.amount
    && c.volume == (if semantics == NotApplicable then None else raw.volume)
    && c.key == key && c.semantics == semantics && c.derived == derived && c.transformReceiptId == None
  }

  /** The j-th row is the first admissible one of its instant. */
  predicate Leads(semantics: VolumeSemantics, raws: seq<RawRow>, j: nat)
    requires j < |raws|
  {
    Admissible(semantics, raws[j]) &&
    forall k :: 0 <= k < j && Admissible(semantics, raws[k]) ==> InstantOf(raws[k]) != InstantOf(raws[j])
  }

  /** What a row that becomes no candle is reported as: malformed under its own text, or a duplicate of its instant. */
  function Report(semantics: VolumeSemantics, raw: RawRow): Issue {
    if Admissible(semantics, raw) then Issue(Duplicate, At(InstantOf(raw).value))
    else Issue(Malformed, if raw.timestamp.None? || raw.timestamp.value == "" then Nowhere else RawText(raw.timestamp.value))
  }

  ghost predicate Copied(key: SeriesKey, semantics: VolumeSemantics, derived: bool, raws: seq<RawRow>, c: Candle) {
    exists j :: 0 <= j < |raws| && Leads(semantics, raws, j) && Copies(key, semantics, derived, raws[j], c)
  }

  ghost predicate Reported(semantics: VolumeSemantics, raws: seq<RawRow>, i: Issue) {
    exists j :: 0 <= j < |raws| && !Leads(semantics, raws, j) && Report(semantics, raws[j]) == i
  }

  /** Each row is copied when it leads its instant, and reported otherwise; there is nothing else. */
  ghost predicate Transcribes(key: SeriesKey, semantics: VolumeSemantics, derived: bool, raws: seq<RawRow>, rows: seq<Candle>, issues: seq<Issue>) {
    && |rows| + |issues| == |raws|
    && (forall c :: c in rows <==> Copied(key, semantics, derived, raws, c))
    && (forall i :: i in issues <==> Reported(semantics, raws, i))
  }

  lemma MadeFrom(key: SeriesKey, semantics: VolumeSemantics, derived: bool, raw: RawRow)
    requires IsMvp(key.timeframe)
    ensures var c := MakeCandle(key, semantics, derived, raw);
            && (c.Some? <==> Admissible(semantics, raw))
            && (c.Some? ==> Copies(key, semantics, derived, raw, c.value))
  {
    hide ParseIso, ReplaceZ, Strip, Blank, Representable;
  }

  lemma OneCopy(key: SeriesKey, semantics: VolumeSemantics, derived: bool, raw: RawRow, c: Candle, d: Candle)
    requires Copies(key, semantics, derived, raw, c) && Copies(key, semantics, derived, raw, d)
    ensures c == d
  {
  }

  lemma LeadsSplit(semantics: VolumeSemantics, raws: seq<RawRow>, j: nat)
    requires j < |raws| - 1
    ensures Leads(semantics, raws, j) <==> Leads(semantics, raws[..|raws| - 1], j)
  {
    hide Admissible, InstantOf;
    var p := raws[..|raws| - 1];
    assert forall k :: 0 <= k < |p| ==> p[k] == raws[k];
  }

  /** The last row leads exactly when no candle so far is of its instant. */
  lemma LeadsLast(key: SeriesKey, semantics: VolumeSemantics, derived: bool, raws: seq<RawRow>, rows: seq<Candle>, issues: seq<Issue>)
    requires raws != [] && Transcribes(key, semantics, derived, raws[..|raws| - 1], rows, issues) && IsMvp(key.timeframe)
    ensures var n := |raws| - 1;
            Leads(semantics, raws, n) <==> Admissible(semantics, raws[n]) && !HasStamp(rows, InstantOf(raws[n]).value)
  {
    hide Admissible, InstantOf, Report, Leads;
    var n := |raws| - 1;
    var p := raws[..n];
    if Admissible(semantics, raws[n]) {
      AdmissibleReads(semantics, raws[n]);
      var t := InstantOf(raws[n]).value;
      if HasStamp(rows, t) {
        var i :| 0 <= i < |rows| && rows[i].stamp == t;
        assert Copied(key, semantics, derived, p, rows[i]);
        var j :| 0 <= j < n && Leads(semantics, p, j) && Copies(key, semantics, derived, p[j], rows[i]);
        LeaderIsAdmissible(semantics, p, j);
        assert p[j] == raws[j];
        NotLeading(semantics, raws, j);
      } else {
        forall k | 0 <= k < n && Admissible(semantics, raws[k])
          ensures InstantOf(raws[k]) != InstantOf(raws[n])
        {
          assert p[k] == raws[k];
          var j := Leader(semantics, p, k);
          LeaderIsAdmissible(semantics, p, j);
          MadeFrom(key, semantics, derived, p[j]);
          var c := MakeCandle(key, semantics, derived, p[j]).value;
          assert Copied(key, semantics, derived, p, c);
          var i :| 0 <= i < |rows| && rows[i] == c;
          assert rows[i].stamp != t;
        }
        Leading(semantics, raws);
      }
    } else {
      NotAdmissible(semantics, raws);
    }
  }

  lemma AdmissibleReads(semantics: VolumeSemantics, raw: RawRow)
    requires Admissible(semantics, raw)
    ensures InstantOf(raw).Some?
  {
  }

  lemma LeaderIsAdmissible(semantics: VolumeSemantics, raws: seq<RawRow>, j: nat)
    requires j < |raws| && Leads(semantics, raws, j)
    ensures Admissible(semantics, raws[j])
  {
  }

  lemma NotLeading(semantics: VolumeSemantics, raws: seq<RawRow>, j: nat)
    requires j < |raws| - 1 && Admissible(semantics, raws[j]) && InstantOf(raws[j]) == InstantOf(raws[|raws| - 1])
    ensures !Leads(semantics, raws, |raws| - 1)
  {
  }

  lemma Leading(semantics: VolumeSemantics, raws: seq<RawRow>)
    requires raws != [] && Admissible(semantics, raws[|raws| - 1])
    requires forall k :: 0 <= k < |raws| - 1 && Admissible(semantics, raws[k]) ==> InstantOf(raws[k]) != InstantOf(raws[|raws| - 1])
    ensures Leads(semantics, raws, |raws| - 1)
  {
    hide Admissible, InstantOf;
  }

  lemma NotAdmissible(semantics: VolumeSemantics, raws: seq<RawRow>)
    requires raws != [] && !Admissible(semantics, raws[|raws| - 1])
    ensures !Leads(semantics, raws, |raws| - 1)
  {
  }

  /** The first admissible row of an admissible row's instant. */
  lemma {:induction false} Leader(semantics: VolumeSemantics, raws: seq<RawRow>, k: nat) returns (j: nat)
    requires k < |raws| && Admissible(semantics, raws[k])
    ensures j < |raws| && Leads(semantics, raws, j) && InstantOf(raws[j]) == InstantOf(raws[k])
    decreases k
  {
    hide Admissible, InstantOf;
    j := k;
    if !Leads(semantics, raws, k) {
      var i :| 0 <= i < k && Admissible(semantics, raws[i]) && InstantOf(raws[i]) == InstantOf(raws[k]);
      j := Leader(semantics, raws, i);
    }
  }

  lemma {:induction false} ConvertTranscribes(key: SeriesKey, semantics: VolumeSemantics, derived: bool, raws: seq<RawRow>)
    requires IsMvp(key.timeframe)
    ensures var r := Convert(key, semantics, derived, raws);
            Transcribes(key, semantics, derived, raws, r.rows, r.issues)
  {
    hide MakeCandle, Admissible, Copies, InstantOf, Leads, Report, Transcribes;
    if raws == [] {
      NothingTranscribed(key, semantics, derived);
    } else {
      var n := |raws| - 1;
      var p := Convert(key, semantics, derived, raws[..n]);
      ConvertTranscribes(key, semantics, derived, raws[..n]);
      MadeFrom(key, semantics, derived, raws[n]);
      LeadsLast(key, semantics, derived, raws, p.rows, p.issues);
      MadeAt(key, semantics, derived, raws[n]);
      var c := MakeCandle(key, semantics, derived, raws[n]);
      if Leads(semantics, raws, n) {
        LeaderIsAdmissible(semantics, raws, n);
        OneMoreCopy(key, semantics, derived, raws, p.rows, p.issues, c.value);
      } else {
        OneMoreReport(key, semantics, derived, raws, p.rows, p.issues);
      }
    }
  }

  /** A made candle is of the row's instant; a row that makes none is reported as malformed. */
  lemma MadeAt(key: SeriesKey, semantics: VolumeSemantics, derived: bool, raw: RawRow)
    requires IsMvp(key.timeframe)
    ensures var c := MakeCandle(key, semantics, derived, raw);
            && (c.Some? ==> InstantOf(raw) == Some(c.value.stamp) && Report(semantics, raw) == Issue(Duplicate, At(c.value.stamp)))
            && (c.None? ==> Report(semantics, raw) == Issue(Malformed, RejectedAt(raw)))
  {
    hide MakeCandle, Admissible;
    MadeFrom(key, semantics, derived, raw);
  }

  lemma NothingTranscribed(key: SeriesKey, semantics: VolumeSemantics, derived: bool)
    ensures Transcribes(key, semantics, derived, [], [], [])
  {
  }

  lemma OneMoreCopy(key: SeriesKey, semantics: VolumeSemantics, derived: bool, raws: seq<RawRow>, rows: seq<Candle>, issues: seq<Issue>, c: Candle)
    requires raws != [] && Transcribes(key, semantics, derived, raws[..|raws| - 1], rows, issues)
    requires Leads(semantics, raws, |raws| - 1) && Copies(key, semantics, derived, raws[|raws| - 1], c)
    ensures Transcribes(key, semantics, derived, raws, rows + [c], issues)
  {
    hide Copied, Reported, Leads, Report, Copies;
    forall d
      ensures d in rows + [c] <==> Copied(key, semantics, derived, raws, d)
    {
      CopiedSplit(key, semantics, derived, raws, d);
      if Copies(key, semantics, derived, raws[|raws| - 1], d) {
        OneCopy(key, semantics, derived, raws[|raws| - 1], c, d);
      }
    }
    forall i
      ensures i in issues <==> Reported(semantics, raws, i)
    {
      ReportedSplit(semantics, raws, i);
    }
  }

  lemma OneMoreReport(key: SeriesKey, semantics: VolumeSemantics, derived: bool, raws: seq<RawRow>, rows: seq<Candle>, issues: seq<Issue>)
    requires raws != [] && Transcribes(key, semantics, derived, raws[..|raws| - 1], rows, issues) && !Leads(semantics, raws, |raws| - 1)
    ensures Transcribes(key, semantics, derived, raws, rows, issues + [Report(semantics, raws[|raws| - 1])])
  {
    hide Copied, Reported, Leads, Report, Copies;
    forall d
      ensures d in rows <==> Copied(key, semantics, derived, raws, d)
    {
      CopiedSplit(key, semantics, derived, raws, d);
    }
    forall i
      ensures i in issues + [Report(semantics, raws[|raws| - 1])] <==> Reported(semantics, raws, i)
    {
      ReportedSplit(semantics, raws, i);
    }
  }

  lemma CopiedSplit(key: SeriesKey, semantics: VolumeSemantics, derived: bool, raws: seq<RawRow>, c: Candle)
    requires raws != []
    ensures var n := |raws| - 1;
            Copied(key, semantics, derived, raws, c) <==>
            Copied(key, semantics, derived, raws[..n], c) || (Leads(semantics, raws, n) && Copies(key, semantics, derived, raws[n], c))
  {
    hide Copies, Leads;
    var n, p := |raws| - 1, raws[..|raws| - 1];
    forall j | 0 <= j < n
      ensures (Leads(semantics, raws, j) <==> Leads(semantics, p, j)) && p[j] == raws[j]
    {
      LeadsSplit(semantics, raws, j);
    }
    if Copied(key, semantics, derived, p, c) {
      var j :| 0 <= j < n && Leads(semantics, p, j) && Copies(key, semantics, derived, p[j], c);
      assert Leads(semantics, raws, j);
    }
  }

  lemma ReportedSplit(semantics: VolumeSemantics, raws: seq<RawRow>, i: Issue)
    requires raws != []
    ensures var n := |raws| - 1;
            Reported(semantics, raws, i) <==>
            Reported(semantics, raws[..n], i) || (!Leads(semantics, raws, n) && Report(semantics, raws[n]) == i)
  {
    hide Leads, Report;
    var n, p := |raws| - 1, raws[..|raws| - 1];
    forall j | 0 <= j < n
      ensures (Leads(semantics, raws, j) <==> Leads(semantics, p, j)) && p[j] == raws[j]
    {
      LeadsSplit(semantics, raws, j);
    }
    if Reported(semantics, p, i) {
      var j :| 0 <= j < n && !Leads(semantics, p, j) && Report(semantics, p[j]) == i;
      assert !Leads(semantics, raws, j);
    }
  }

  /** `_to_mvp_rows`; it stops at a row out of range. */
  method ToMvpRows(key: SeriesKey, semantics: VolumeSemantics, derived: bool, raws: seq<RawRow>)
    returns (ok: bool, rows: seq<Candle>, issues: seq<Issue>)
    requires IsMvp(key.timeframe)
    ensures ok == AllDated(raws)
    ensures ok ==> Converted(rows, issues) == Convert(key, semantics, derived, raws)
    ensures ok ==> Transcribes(key, semantics, derived, raws, rows, issues)
  {
    hide MakeCandle, Undatable, Transcribes;
    ok, rows, issues := true, [], [];
    var seen: set<int> := {};
    for i := 0 to |raws|
      invariant ok && forall k :: 0 <= k < i ==> !Undatable(raws[k])
      invariant Converted(rows, issues) == Convert(key, semantics, derived, raws[..i])
      invariant forall t :: t in seen <==> HasStamp(rows, t)
    {
      if Undatable(raws[i]) {
        ok := false;
        return;
      }
      assert raws[..i + 1][..i] == raws[..i];
      match MakeCandle(key, semantics, derived, raws[i])
      case None =>
        issues := issues + [Issue(Malformed, RejectedAt(raws[i]))];
      case Some(c) =>
        if c.stamp in seen {
          issues := issues + [Issue(Duplicate, At(c.stamp))];
        } else {
          ghost var before := rows;
          seen := seen + {c.stamp};
          rows := rows + [c];
          assert forall t :: HasStamp(rows, t) <==> HasStamp(before, t) || t == c.stamp by {
            assert rows[|before|] == c;
            assert forall j :: 0 <= j < |before| ==> rows[j] == before[j];
          }
        }
    }
    assert raws[..|raws|] == raws;
    ConvertTranscribes(key, semantics, derived, raws);
  }

  // ----- one cell -----

  function TextOf(g: Grade): string {
    match g
    case Pass => "pass"
    case Partial => "partial"
    case Fail => "fail"
  }

  function QualityReceipt(plan: Plan, key: SeriesKey, rows: seq<Candle>, v: Verdict, hash: string): QualityWrite {
    QualityWrite(plan.runId, if rows != [] then rows[0].key else key, if rows == [] then "missing" else TextOf(v.grade),
                 Count(v.issues, {Gap}), Count(v.issues, {Duplicate}), Count(v.issues, {Malformed}),
                 Count(v.issues, {FormingBar}) + Count(v.issues, {MissingRows}), Some(hash))
  }

  /** The greatest stamp of non-empty rows. */
  function Latest(rows: seq<Candle>): (t: int)
    requires rows != []
    ensures (forall i :: 0 <= i < |rows| ==> rows[i].stamp <= t) && exists i :: 0 <= i < |rows| && rows[i].stamp == t
  {
    if |rows| == 1 then rows[0].stamp
    else
      var t, last := Latest(rows[..|rows| - 1]), rows[|rows| - 1];
      assert last == rows[|rows| - 1];
      assert forall i :: 0 <= i < |rows| - 1 ==> rows[..|rows| - 1][i] == rows[i];
      if last.stamp > t then last.stamp else t
  }

  function FailedObservation(plan: Plan, key: SeriesKey, start: Option<string>, hash: Option<string>, latency: Option<real>): ObservationWrite {
    ObservationWrite(plan.runId, key, false, start, Some(plan.end), hash, 0, None, latency, "upstream", None)
  }

  function BlockedQuality(plan: Plan, key: SeriesKey, status: string, invalid: int, blocked: int): QualityWrite {
    QualityWrite(plan.runId, key, status, 0, 0, invalid, blocked, None)
  }

  /** A cell that ends without rows: one failed observation, one quality receipt, one failed grade. */
  function FailCell(d: Draft, plan: Plan, key: SeriesKey, start: Option<string>, hash: Option<string>, latency: Option<real>,
                    receipt: QualityWrite, status: CellStatus): Draft
  {
    d.(observations := d.observations + [FailedObservation(plan, key, start, hash, latency)],
       qualities := d.qualities + [receipt], cells := d.cells + [status], failed := d.failed + 1)
  }

  /** Two free sources return aggregated 4h rows without saying so. */
  function EffectiveTransform(inst: Instrument, tf: Timeframe, t: Option<Transform>): Option<Transform> {
    if t == None && tf == H4 && inst.sourceId in {"tencent_stock_free", "yahoo_finance_free"} && inst.required == [D1, H4] then
      Some(Transform(M15, true,
                     if inst.sourceId == "tencent_stock_free" then "cn_a_session_4h_v1" else "us_regular_fixed_4h_v1",
                     Some("09:30"), Some("drop_and_record"), Number(0)))
    else t
  }

  predicate Aggregated(t: Option<Transform>) {
    t.Some? && t.value.aggregated
  }

  /** What the gate makes of fetched rows. */
  datatype Gated = Gated(rows: seq<Candle>, verdict: Verdict, usable: seq<Candle>)

  function Gate(plan: Plan, inst: Instrument, tf: Timeframe, fetch: Fetch): (g: Gated)
    requires inst.calendar.Known() && IsMvp(tf) && fetch.Fetched?
  {
    var converted := Convert(KeyOf(plan, inst, tf), inst.semantics, Aggregated(EffectiveTransform(inst, tf, fetch.transform)), fetch.rows);
    var verdict := Assess(converted.rows, tf, inst.calendar, plan.now, plan.policy, converted.issues);
    Gated(converted.rows, verdict, UsableRows(converted.rows, verdict.issues))
  }

  /** What every row of a cell's series is. */
  predicate OfCell(c: Candle, key: SeriesKey, derived: bool) {
    c.Valid() && c.key == key && c.derived == derived
  }

  lemma {:induction false} ConvertedRows(key: SeriesKey, semantics: VolumeSemantics, derived: bool, raws: seq<RawRow>)
    requires IsMvp(key.timeframe)
    ensures var rows := Convert(key, semantics, derived, raws).rows;
            DistinctStamps(rows) && forall c :: c in rows ==> OfCell(c, key, derived)
  {
    hide MakeCandle;
    if raws != [] {
      ConvertedRows(key, semantics, derived, raws[..|raws| - 1]);
      MadeCandle(key, semantics, derived, raws[|raws| - 1]);
    }
  }

  lemma MadeCandle(key: SeriesKey, semantics: VolumeSemantics, derived: bool, raw: RawRow)
    requires IsMvp(key.timeframe)
    ensures var c := MakeCandle(key, semantics, derived, raw);
            c.Some? ==> OfCell(c.value, key, derived)
  {
  }

  /** Every usable row of a gated cell is an admitted candle of its series with a stamp of its own. */
  lemma GatedRows(plan: Plan, inst: Instrument, tf: Timeframe, fetch: Fetch)
    requires inst.calendar.Known() && IsMvp(tf) && fetch.Fetched?
    ensures var g, key := Gate(plan, inst, tf, fetch), KeyOf(plan, inst, tf);
            var derived := Aggregated(EffectiveTransform(inst, tf, fetch.transform));
            && DistinctStamps(g.rows) && (forall c :: c in g.rows ==> OfCell(c, key, derived))
            && (forall c :: c in g.usable ==> c in g.rows && Representable(c.stamp) && OfCell(c, key, derived))
            && (g.usable != [] ==> Representable(Latest(g.usable)) && g.usable[0] in g.usable)
  {
    hide Assess, Convert, Excluded;
    var derived := Aggregated(EffectiveTransform(inst, tf, fetch.transform));
    ConvertedRows(KeyOf(plan, inst, tf), inst.semantics, derived, fetch.rows);
    var g := Gate(plan, inst, tf, fetch);
    forall c | c in g.usable
      ensures c in g.rows
    {
      UsableMembers(g.rows, g.verdict.issues, c);
    }
    if g.usable != [] {
      var i :| 0 <= i < |g.usable| && g.usable[i].stamp == Latest(g.usable);
      assert g.usable[i] in g.usable;
    }
  }

  /** Promotion raises the watermark unless the stored one is already past the newest usable row. */
  predicate Suppressed(existing: Option<string>, latest: string) {
    existing.Some? && StrLess(latest, existing.value)
  }

  predicate Promotes(g: Gated) {
    g.verdict.grade != Fail && g.usable != []
  }

  function TransformReceipt(plan: Plan, inst: Instrument, tf: Timeframe, start: Option<string>, t: Transform, fetch: Fetch, first: string): TransformWrite
    requires fetch.Fetched? && t.partialCount.Number?
  {
    TransformWrite(plan.runId, plan.manifestVersion, inst.instrumentId, inst.sourceId, tf, t.raw, t.rule,
                   if start.Some? && start.value != "" then start.value else first, plan.end,
                   if fetch.responseHash.Some? then fetch.responseHash.value else fetch.rowsHash, fetch.stampsHash,
                   t.anchor, t.partialPolicy, t.partialCount.value)
  }

  function StatusOf(g: Gated, suppressed: bool): CellStatus {
    if suppressed then PartialCell
    else match g.verdict.grade
      case Pass => Ready
      case Partial => if g.rows == [] then Unavailable else PartialCell
      case Fail => if g.rows == [] then Unavailable else FailedCell
  }

  function LatestText(g: Gated): Option<string>
    requires g.usable != [] ==> Representable(Latest(g.usable))
  {
    if g.usable == [] then None else Some(Canon(Latest(g.usable)))
  }

  predicate Suppresses(g: Gated, existing: Option<string>)
    requires g.usable != [] ==> Representable(Latest(g.usable))
  {
    Promotes(g) && Suppressed(existing, LatestText(g).value)
  }

  /** Grading and promoting: rows of a cell that is not failed go in, and raise the watermark or count as suppressed. */
  function GradedCell(d: Draft, plan: Plan, key: SeriesKey, start: Option<string>, fetch: Fetch, existing: Option<string>, g: Gated): Draft
    requires fetch.Fetched? && (g.usable != [] ==> Representable(Latest(g.usable)))
  {
    var suppressed := Suppresses(g, existing);
    d.(qualities := d.qualities + [QualityReceipt(plan, key, g.rows, g.verdict, fetch.issuesHash)],
       passed := d.passed + (if g.verdict.grade == Pass then 1 else 0),
       partial := d.partial + (if g.verdict.grade == Partial then 1 else 0),
       failed := d.failed + (if g.verdict.grade == Fail then 1 else 0),
       observations := d.observations + [ObservationWrite(plan.runId, key, g.verdict.grade != Fail || g.rows == [], start, Some(plan.end),
                                                          fetch.responseHash, |g.usable|, LatestText(g), fetch.latency, "upstream", None)],
       candles := d.candles + (if Promotes(g) then g.usable else []),
       promoted := d.promoted + (if Promotes(g) then 1 else 0),
       regressions := d.regressions + (if suppressed then 1 else 0),
       watermarks := d.watermarks + (if Promotes(g) && !suppressed then [WatermarkWrite(key, LatestText(g).value, None, plan.runId)] else []))
  }

  /** Recording how the rows were derived, and the cell's status. */
  function RecordedCell(d: Draft, plan: Plan, inst: Instrument, tf: Timeframe, start: Option<string>, fetch: Fetch, g: Gated, suppressed: bool): Draft
    requires fetch.Fetched? && (g.usable != [] ==> Representable(g.usable[0].stamp))
  {
    var t := EffectiveTransform(inst, tf, fetch.transform);
    if g.usable == [] || !Aggregated(t) then d.(cells := d.cells + [StatusOf(g, suppressed)])
    else if !t.value.partialCount.Number? then
      FailCell(d, plan, KeyOf(plan, inst, tf), start, fetch.responseHash, fetch.latency,
               BlockedQuality(plan, KeyOf(plan, inst, tf), "fail", 1, 0), MalformedCell)
    else d.(cells := d.cells + [StatusOf(g, suppressed)],
            transforms := d.transforms + [TransformReceipt(plan, inst, tf, start, t.value, fetch, Canon(g.usable[0].stamp))])
  }

  /** One fetched cell. */
  function FetchedCell(d: Draft, plan: Plan, inst: Instrument, tf: Timeframe, start: Option<string>, fetch: Fetch, existing: Option<string>): Draft
    requires inst.calendar.Known() && IsMvp(tf) && fetch.Fetched?
  {
    GatedRows(plan, inst, tf, fetch);
    var g := Gate(plan, inst, tf, fetch);
    RecordedCell(GradedCell(d, plan, KeyOf(plan, inst, tf), start, fetch, existing, g), plan, inst, tf, start, fetch, g, Suppresses(g, existing))
  }

  /** Everything `run_once` does for one instrument and timeframe. */
  function ProcessCell(d: Draft, plan: Plan, inst: Instrument, tf: Timeframe, start: Option<string>, fetch: Fetch, existing: Option<string>): Draft
    requires inst.calendar.Known() && IsMvp(tf)
  {
    if tf in inst.notApplicable then d.(cells := d.cells + [NotApplicableCell])
    else if tf in inst.blocked || !inst.entitled then d.(cells := d.cells + [BlockedForEntitlement])
    else if tf !in inst.required then d
    else if plan.rateBudget.Some? && d.requests >= plan.rateBudget.value then
      d.(cells := d.cells + [BlockedRateBudget], failed := d.failed + 1)
    else AskedCell(d.(requests := d.requests + 1), plan, inst, tf, start, fetch, existing)
  }

  /** A cell whose request has gone out. */
  function AskedCell(asked: Draft, plan: Plan, inst: Instrument, tf: Timeframe, start: Option<string>, fetch: Fetch, existing: Option<string>): Draft
    requires inst.calendar.Known() && IsMvp(tf)
  {
    var key := KeyOf(plan, inst, tf);
    match fetch
    case NoAdapter =>
      FailCell(asked, plan, key, start, None, None, BlockedQuality(plan, key, "blocked", 0, 1), Unavailable)
    case NotEntitled(hash, latency) =>
      FailCell(asked, plan, key, start, hash, latency, BlockedQuality(plan, key, "blocked", 0, 1), BlockedForEntitlement)
    case ProviderFailed(hash, latency) =>
      FailCell(asked, plan, key, start, hash, latency, BlockedQuality(plan, key, "fail", 0, 1), ProviderError)
    case Fetched(_, _, hash, _, _, _, latency) =>
      if plan.policy.Valid() then FetchedCell(asked, plan, inst, tf, start, fetch, existing)
      else FailCell(asked, plan, key, start, hash, latency, BlockedQuality(plan, key, "fail", 1, 0), MalformedCell)
  }

  // ----- the run -----

  predicate AllReady(cells: seq<CellStatus>) {
    forall i :: 0 <= i < |cells| ==> cells[i] == Ready || cells[i] == NotApplicableCell
  }

  function WriteOf(plan: Plan, d: Draft): RunWrite {
    RunWrite(plan.runId, plan.manifestVersion, plan.manifestHash, plan.startedAt, plan.historyStart, Some(plan.end), Some(plan.end),
             d.candles, d.observations, d.qualities, d.transforms, d.watermarks, [], [],
             if AllReady(d.cells) then "success" else "partial", None)
  }

  function StoredWatermark(t: Tables, key: SeriesKey): Option<string> {
    if IdOf(key) in t.watermarks then Some(t.watermarks[IdOf(key)].lastClosed) else None
  }

  datatype PlanError = BadTimeframe | BadThreshold | NoHistoryStart | UnknownInstrument | UnreadableWatermark | BadDigest | Crashed

  /** `_overlap_start`: re-read the last bars before the watermark, or start from the plan's history. */
  function RequestStart(plan: Plan, tf: Timeframe, watermark: Option<string>): Result<Option<string>, PlanError>
    requires IsMvp(tf)
  {
    if plan.forceHistory || watermark == None then Ok(plan.historyStart)
    else
      match ParseIso(ReplaceZ(watermark.value))
      case None => Err(UnreadableWatermark)
      case Some(t) =>
        var start := t - Interval(tf) * (if plan.overlapBars > 0 then plan.overlapBars else 0);
        if Representable(start) then Ok(Some(Canon(start))) else Err(UnreadableWatermark)
  }

  /**
   The run gets through the answer: its rows have UTC dates, the gate stays within the dates, and a
   count of partial buckets that is asked for raises nothing but a ValueError.
   */
  predicate Survives(plan: Plan, inst: Instrument, tf: Timeframe, fetch: Fetch)
    requires inst.calendar.Known() && IsMvp(tf)
  {
    fetch.Fetched? ==>
      && AllDated(fetch.rows)
      && (plan.policy.Valid() ==>
            var g, t := Gate(plan, inst, tf, fetch), EffectiveTransform(inst, tf, fetch.transform);
            && Fits(g.rows, tf, inst.calendar, plan.now, plan.policy)
            && (g.usable != [] && Aggregated(t) ==> !t.value.partialCount.Uncaught?))
  }

  /** What a cell comes to: the draft it leaves, or the end of the run. */
  function CellOutcome(d: Draft, plan: Plan, inst: Instrument, tf: Timeframe, start: Option<string>, fetch: Fetch, existing: Option<string>)
    : Result<Draft, PlanError>
    requires inst.calendar.Known() && IsMvp(tf)
  {
    if Requests(d, plan, inst, tf) && !Survives(plan, inst, tf, fetch) then Err(Crashed)
    else Ok(ProcessCell(d, plan, inst, tf, start, fetch, existing))
  }

  /** One cell of a run against the tables as they stand. */
  function CellStep(d: Draft, plan: Plan, inst: Instrument, tf: Timeframe, fetch: Fetch, t: Tables): Result<Draft, PlanError>
    requires inst.calendar.Known() && IsMvp(tf)
  {
    var watermark := StoredWatermark(t, KeyOf(plan, inst, tf));
    if Requests(d, plan, inst, tf) then
      match RequestStart(plan, tf, watermark)
      case Err(e) => Err(e)
      case Ok(start) => CellOutcome(d, plan, inst, tf, start, fetch, watermark)
    else Ok(ProcessCell(d, plan, inst, tf, None, fetch, watermark))
  }

  /** Whether the cell gets as far as asking its adapter. */
  predicate Requests(d: Draft, plan: Plan, inst: Instrument, tf: Timeframe) {
    && tf !in inst.notApplicable && tf !in inst.blocked && inst.entitled && tf in inst.required
    && (plan.rateBudget == None || d.requests < plan.rateBudget.value)
  }

  /** The lists and counters a graded cell moves. */
  method GradeCell(d: Draft, plan: Plan, key: SeriesKey, start: Option<string>, fetch: Fetch, existing: Option<string>, g: Gated)
    returns (r: Draft, suppressed: bool)
    requires fetch.Fetched? && (g.usable != [] ==> Representable(Latest(g.usable)))
    ensures r == GradedCell(d, plan, key, start, fetch, existing, g)
    ensures suppressed == Suppresses(g, existing)
  {
    hide Latest, Canon, QualityReceipt;
    r := d.(qualities := d.qualities + [QualityReceipt(plan, key, g.rows, g.verdict, fetch.issuesHash)]);
    match g.verdict.grade {
      case Pass => r := r.(passed := r.passed + 1);
      case Partial => r := r.(partial := r.partial + 1);
      case Fail => r := r.(failed := r.failed + 1);
    }
    var latest := LatestText(g);
    r := r.(observations := r.observations + [ObservationWrite(plan.runId, key, g.verdict.grade != Fail || g.rows == [], start, Some(plan.end),
                                                               fetch.responseHash, |g.usable|, latest, fetch.latency, "upstream", None)]);
    suppressed := false;
    if g.verdict.grade != Fail && g.usable != [] {
      r := r.(candles := r.candles + g.usable, promoted := r.promoted + 1);
      if existing.Some? && StrLess(latest.value, existing.value) {
        r := r.(regressions := r.regressions + 1);
        suppressed := true;
      } else {
        r := r.(watermarks := r.watermarks + [WatermarkWrite(key, latest.value, None, plan.runId)]);
      }
    }
  }

  /** A fetched cell: rows normalised, graded, promoted and receipted, or the run ended by an error nothing catches. */
  method RunFetchedCell(d: Draft, plan: Plan, inst: Instrument, tf: Timeframe, start: Option<string>, fetch: Fetch, existing: Option<string>)
    returns (r: Result<Draft, PlanError>)
    requires inst.calendar.Known() && IsMvp(tf) && fetch.Fetched?
    ensures !Survives(plan, inst, tf, fetch) ==> r == Err(Crashed)
    ensures Survives(plan, inst, tf, fetch) ==>
              r == Ok(if plan.policy.Valid() then FetchedCell(d, plan, inst, tf, start, fetch, existing)
                      else FailCell(d, plan, KeyOf(plan, inst, tf), start, fetch.responseHash, fetch.latency,
                                    BlockedQuality(plan, KeyOf(plan, inst, tf), "fail", 1, 0), MalformedCell))
  {
    hide Convert, Assess, UsableRows, Canon, Latest, GradedCell, Suppresses, TransformReceipt, FailCell, AllDated, Fits, Policy.Valid;
    GatedRows(plan, inst, tf, fetch);
    var t, key := EffectiveTransform(inst, tf, fetch.transform), KeyOf(plan, inst, tf);
    var ok, rows, rejected := ToMvpRows(key, inst.semantics, Aggregated(t), fetch.rows);
    if !ok {
      return Err(Crashed);
    }
    var verdict := AssessQuality(rows, tf, inst.calendar, plan.now, plan.policy, rejected);
    match verdict {
      case Err(BadPolicy) =>
        return Ok(FailCell(d, plan, key, start, fetch.responseHash, fetch.latency, BlockedQuality(plan, key, "fail", 1, 0), MalformedCell));
      case Err(DateOverflow) =>
        return Err(Crashed);
      case Ok(v) =>
        var g := Gated(rows, v, UsableRows(rows, v.issues));
        var graded, suppressed := GradeCell(d, plan, key, start, fetch, existing, g);
        if g.usable != [] && Aggregated(t) {
          match t.value.partialCount {
            case Uncaught =>
              return Err(Crashed);
            case NotANumber =>
              return Ok(FailCell(graded, plan, key, start, fetch.responseHash, fetch.latency, BlockedQuality(plan, key, "fail", 1, 0), MalformedCell));
            case Number(_) =>
              graded := graded.(transforms := graded.transforms +
                                              [TransformReceipt(plan, inst, tf, start, t.value, fetch, Canon(g.usable[0].stamp))]);
          }
        }
        return Ok(graded.(cells := graded.cells + [StatusOf(g, suppressed)]));
    }
  }

  /** One instrument and timeframe: the gates before the request, then the outcome of the request. */
  method RunCell(d: Draft, plan: Plan, inst: Instrument, tf: Timeframe, start: Option<string>, fetch: Fetch, existing: Option<string>)
    returns (r: Result<Draft, PlanError>)
    requires inst.calendar.Known() && IsMvp(tf)
    ensures r == CellOutcome(d, plan, inst, tf, start, fetch, existing)
  {
    hide AskedCell, Survives;
    if tf in inst.notApplicable {
      return Ok(d.(cells := d.cells + [NotApplicableCell]));
    }
    if tf in inst.blocked || !inst.entitled {
      return Ok(d.(cells := d.cells + [BlockedForEntitlement]));
    }
    if tf !in inst.required {
      return Ok(d);
    }
    if plan.rateBudget.Some? && d.requests >= plan.rateBudget.value {
      return Ok(d.(cells := d.cells + [BlockedRateBudget], failed := d.failed + 1));
    }
    r := RunAskedCell(d.(requests := d.requests + 1), plan, inst, tf, start, fetch, existing);
  }

  method RunAskedCell(asked: Draft, plan: Plan, inst: Instrument, tf: Timeframe, start: Option<string>, fetch: Fetch, existing: Option<string>)
    returns (r: Result<Draft, PlanError>)
    requires inst.calendar.Known() && IsMvp(tf)
    ensures r == if Survives(plan, inst, tf, fetch) then Ok(AskedCell(asked, plan, inst, tf, start, fetch, existing)) else Err(Crashed)
  {
    hide FetchedCell, FailCell, Survives, Policy.Valid, BlockedQuality;
    var key := KeyOf(plan, inst, tf);
    Unanswered(plan, inst, tf, fetch);
    match fetch {
      case NoAdapter =>
        return Ok(FailCell(asked, plan, key, start, None, None, BlockedQuality(plan, key, "blocked", 0, 1), Unavailable));
      case NotEntitled(hash, latency) =>
        return Ok(FailCell(asked, plan, key, start, hash, latency, BlockedQuality(plan, key, "blocked", 0, 1), BlockedForEntitlement));
      case ProviderFailed(hash, latency) =>
        return Ok(FailCell(asked, plan, key, start, hash, latency, BlockedQuality(plan, key, "fail", 0, 1), ProviderError));
      case Fetched(_, _, _, _, _, _, _) =>
        r := RunFetchedCell(asked, plan, inst, tf, start, fetch, existing);
    }
  }

  lemma Unanswered(plan: Plan, inst: Instrument, tf: Timeframe, fetch: Fetch)
    requires inst.calendar.Known() && IsMvp(tf)
    ensures !fetch.Fetched? ==> Survives(plan, inst, tf, fetch)
  {
  }

  datatype Cell = Cell(inst: Instrument, tf: Timeframe)

  /** What the adapter of the n-th cell answers. */
  type Venue = nat -> Fetch

  function RowOf(inst: Instrument, tfs: seq<Timeframe>): (r: seq<Cell>)
    ensures |r| == |tfs| && forall j :: 0 <= j < |tfs| ==> r[j] == Cell(inst, tfs[j])
  {
    seq(|tfs|, j requires 0 <= j < |tfs| => Cell(inst, tfs[j]))
  }

  /** The cells of a run, instrument by instrument and timeframe by timeframe. */
  function CellsOf(insts: seq<Instrument>, tfs: seq<Timeframe>): seq<Cell> {
    if insts == [] then [] else CellsOf(insts[..|insts| - 1], tfs) + RowOf(insts[|insts| - 1], tfs)
  }

  predicate GoodCells(cells: seq<Cell>) {
    forall i :: 0 <= i < |cells| ==> cells[i].inst.calendar.Known() && IsMvp(cells[i].tf)
  }

  /** A run over its cells in order, nothing else committing meanwhile. */
  function RunCells(plan: Plan, cells: seq<Cell>, venue: Venue, t: Tables): Result<Draft, PlanError>
    requires GoodCells(cells)
  {
    if cells == [] then Ok(NEW_DRAFT)
    else
      var n := |cells| - 1;
      AndThen(RunCells(plan, cells[..n], venue, t), plan, cells[n], venue(n), t)
  }

  /** The next cell of a run that has not stopped. */
  function AndThen(r: Result<Draft, PlanError>, plan: Plan, c: Cell, fetch: Fetch, t: Tables): Result<Draft, PlanError>
    requires GoodCells([c])
  {
    assert [c][0] == c;
    if r.Err? then r else CellStep(r.value, plan, c.inst, c.tf, fetch, t)
  }

  predicate KnownCalendars(insts: seq<Instrument>) {
    forall i :: 0 <= i < |insts| ==> insts[i].calendar.Known()
  }

  predicate MvpTimeframes(tfs: seq<Timeframe>) {
    forall j :: 0 <= j < |tfs| ==> IsMvp(tfs[j])
  }

  lemma {:induction false} CellsAreGood(insts: seq<Instrument>, tfs: seq<Timeframe>)
    requires KnownCalendars(insts) && MvpTimeframes(tfs)
    ensures GoodCells(CellsOf(insts, tfs))
  {
    if insts != [] {
      CellsAreGood(insts[..|insts| - 1], tfs);
    }
  }

  lemma OneMoreCell(plan: Plan, cells: seq<Cell>, c: Cell, venue: Venue, t: Tables)
    requires GoodCells(cells) && GoodCells([c])
    ensures GoodCells(cells + [c])
    ensures RunCells(plan, cells + [c], venue, t) == AndThen(RunCells(plan, cells, venue, t), plan, c, venue(|cells|), t)
  {
    hide CellStep;
    assert [c][0] == c;
    assert (cells + [c])[..|cells|] == cells;
  }

  /** A run that stops at one cell goes no further. */
  lemma {:induction false} StuckRun(plan: Plan, cells: seq<Cell>, n: nat, venue: Venue, t: Tables)
    requires GoodCells(cells) && n <= |cells| && RunCells(plan, cells[..n], venue, t).Err?
    ensures RunCells(plan, cells, venue, t) == RunCells(plan, cells[..n], venue, t)
  {
    hide CellStep;
    if n < |cells| {
      var p := cells[..|cells| - 1];
      assert p[..n] == cells[..n];
      StuckRun(plan, p, n, venue, t);
    } else {
      assert cells[..n] == cells;
    }
  }

  /** The timeframes of a plan that names none. */
  const INGESTION_TIMEFRAMES: seq<Timeframe> := [D1, W1, M15, H1, H4]

  function TimeframesOf(tfs: seq<Timeframe>): seq<Timeframe> {
    if tfs == [] then INGESTION_TIMEFRAMES else tfs
  }

  predicate Selects(selected: Option<seq<string>>, inst: Instrument) {
    selected.Some? ==> inst.instrumentId in selected.value
  }

  /** The instruments a plan asks for, in the manifest's order. */
  function Chosen(insts: seq<Instrument>, selected: Option<seq<string>>): seq<Instrument> {
    if insts == [] then []
    else
      var last := insts[|insts| - 1];
      Chosen(insts[..|insts| - 1], selected) + if Selects(selected, last) then [last] else []
  }

  predicate Declares(insts: seq<Instrument>, id: string) {
    exists i :: 0 <= i < |insts| && insts[i].instrumentId == id
  }

  /** What `run_once` checks of a plan before it fetches anything. */
  function PlanProblem(plan: Plan, insts: seq<Instrument>, selected: Option<seq<string>>, tfs: seq<Timeframe>): Option<PlanError> {
    if !(IsSha256(plan.manifestHash) && Lower(plan.manifestHash) == plan.manifestHash) then Some(BadDigest)
    else if !MvpTimeframes(TimeframesOf(tfs)) then Some(BadTimeframe)
    else if !(0.0 <= plan.policy.threshold <= 1.0) then Some(BadThreshold)
    else if plan.forceHistory && (plan.historyStart == None || plan.historyStart.value == "") then Some(NoHistoryStart)
    else if selected.Some? && exists i :: 0 <= i < |selected.value| && !Declares(insts, selected.value[i]) then Some(UnknownInstrument)
    else None
  }

  lemma ChosenStep(insts: seq<Instrument>, selected: Option<seq<string>>, i: nat)
    requires i < |insts|
    ensures Chosen(insts[..i + 1], selected) ==
            if Selects(selected, insts[i]) then Chosen(insts[..i], selected) + [insts[i]] else Chosen(insts[..i], selected)
  {
    assert insts[..i + 1][..i] == insts[..i];
  }

  lemma {:induction false} ChosenPrefix(insts: seq<Instrument>, selected: Option<seq<string>>, i: nat)
    requires i <= |insts|
    ensures Chosen(insts[..i], selected) <= Chosen(insts, selected)
    decreases |insts|
  {
    if i < |insts| {
      var p := insts[..|insts| - 1];
      assert p[..i] == insts[..i];
      ChosenPrefix(p, selected, i);
    } else {
      assert insts[..i] == insts;
    }
  }

  lemma {:induction false} ChosenCalendars(insts: seq<Instrument>, selected: Option<seq<string>>)
    requires KnownCalendars(insts)
    ensures KnownCalendars(Chosen(insts, selected))
  {
    if insts != [] {
      ChosenCalendars(insts[..|insts| - 1], selected);
    }
  }

  /** What `commit_mvp_run` promises (Store.KlineStore.CommitMvpRun). */
  ghost predicate Committed(pre: Tables, w: RunWrite, at: string, fault: Fault, r: Result<Receipt, StoreError>, post: Tables) {
    match Decide(pre, w, fault)
    case Reject(e) => r == Err(e) && post == pre
    case Repeat(receipt) => r == Ok(receipt) && post == pre
    case Accept => r == Ok(ReceiptOf(w.runId, NewRun(w, at))) && Applied(pre, w, at, post)
  }

  /** A run over the cells stopped and left the tables alone, or committed everything it drafted. */
  ghost predicate Concluded(plan: Plan, cells: seq<Cell>, venue: Venue, pre: Tables, at: string, fault: Fault,
                            draft: Draft, r: Result<Receipt, StoreError>, problem: Option<PlanError>, post: Tables)
    requires GoodCells(cells)
  {
    match RunCells(plan, cells, venue, pre)
    case Err(e) => problem == Some(e) && post == pre
    case Ok(d) => problem == None && draft == d && Committed(pre, WriteOf(plan, d), at, fault, r, post)
  }

  class IngestionOrchestrator {
    const storage: KlineStore

    constructor (storage: KlineStore)
      ensures this.storage == storage
    {
      this.storage := storage;
    }

    /** The row of cells of one instrument. */
    method RunInstrument(before: Draft, plan: Plan, ghost cells: seq<Cell>, inst: Instrument, tfs: seq<Timeframe>, venue: Venue, first: nat)
      returns (draft: Draft, problem: Option<PlanError>)
      requires inst.calendar.Known() && MvpTimeframes(tfs)
      requires GoodCells(cells) && first == |cells| && RunCells(plan, cells, venue, storage.tables) == Ok(before)
      ensures GoodCells(cells + RowOf(inst, tfs))
      ensures problem.None? ==> RunCells(plan, cells + RowOf(inst, tfs), venue, storage.tables) == Ok(draft)
      ensures problem.Some? ==> RunCells(plan, cells + RowOf(inst, tfs), venue, storage.tables) == Err(problem.value)
    {
      hide ProcessCell, Survives, RequestStart, Requests, RunCells;
      ghost var row := RowOf(inst, tfs);
      draft, problem := before, None;
      assert cells + row[..0] == cells;
      for j := 0 to |tfs|
        invariant RunCells(plan, cells + row[..j], venue, storage.tables) == Ok(draft)
      {
        OneMoreCell(plan, cells + row[..j], row[j], venue, storage.tables);
        assert cells + row[..j] + [row[j]] == cells + row[..j + 1];
        var stored := storage.GetMvpWatermark(KeyOf(plan, inst, tfs[j]));
        var watermark := if stored.Some? then Some(stored.value.lastClosed) else None;
        var start: Option<string> := None;
        if Requests(draft, plan, inst, tfs[j]) {
          var asked := RequestStart(plan, tfs[j], watermark);
          if asked.Err? {
            assert (cells + row)[..first + j + 1] == cells + row[..j + 1];
            StuckRun(plan, cells + row, first + j + 1, venue, storage.tables);
            problem := Some(asked.error);
            return;
          }
          start := asked.value;
        }
        var cell := RunCell(draft, plan, inst, tfs[j], start, venue(first + j), watermark);
        if cell.Err? {
          assert (cells + row)[..first + j + 1] == cells + row[..j + 1];
          StuckRun(plan, cells + row, first + j + 1, venue, storage.tables);
          problem := Some(cell.error);
          return;
        }
        draft := cell.value;
      }
      assert row[..|tfs|] == row;
    }

    method Submit(w: RunWrite, at: string, fault: Fault) returns (r: Result<Receipt, StoreError>)
      modifies storage
      ensures Committed(old(storage.tables), w, at, fault, r, storage.tables)
    {
      hide Decide, Applied;
      r := storage.CommitMvpRun(w, at, fault);
    }

    /** `run_once`: every cell once, in order, then one commit of everything the cells left behind. */
    method RunOnce(plan: Plan, insts: seq<Instrument>, selected: Option<seq<string>>, tfs: seq<Timeframe>, venue: Venue, at: string, fault: Fault)
      returns (draft: Draft, r: Result<Receipt, StoreError>, problem: Option<PlanError>)
      requires KnownCalendars(insts)
      modifies storage
      ensures PlanProblem(plan, insts, selected, tfs).Some? ==>
                problem == PlanProblem(plan, insts, selected, tfs) && storage.tables == old(storage.tables)
      ensures PlanProblem(plan, insts, selected, tfs).None? ==> GoodCells(CellsOf(Chosen(insts, selected), TimeframesOf(tfs)))
      ensures PlanProblem(plan, insts, selected, tfs).None? ==>
                Concluded(plan, CellsOf(Chosen(insts, selected), TimeframesOf(tfs)), venue, old(storage.tables), at, fault,
                          draft, r, problem, storage.tables)
    {
      hide RunCells, Committed, Chosen, CellsOf, PlanProblem, WriteOf;
      draft, r, problem := NEW_DRAFT, Err(RolledBack), PlanProblem(plan, insts, selected, tfs);
      if problem.Some? {
        return;
      }
      var asked := TimeframesOf(tfs);
      ghost var chosen := Chosen(insts, selected);
      AskedAreMvp(plan, insts, selected, tfs);
      ChosenCalendars(insts, selected);
      CellsAreGood(chosen, asked);
      NoChoice(plan, selected, asked, venue, storage.tables);
      var n := 0;
      for i := 0 to |insts|
        invariant n == |CellsOf(Chosen(insts[..i], selected), asked)| && GoodCells(CellsOf(Chosen(insts[..i], selected), asked))
        invariant RunCells(plan, CellsOf(Chosen(insts[..i], selected), asked), venue, storage.tables) == Ok(draft)
        invariant storage.tables == old(storage.tables) && problem == None
      {
        ChosenStep(insts, selected, i);
        if !Selects(selected, insts[i]) {
          continue;
        }
        ghost var before := Chosen(insts[..i], selected);
        ChosenPrefix(insts, selected, i + 1);
        CellsSplit(chosen, asked, |before|);
        assert chosen[..|before| + 1] == before + [insts[i]] && chosen[..|before|] == before;
        draft, problem := RunInstrument(draft, plan, CellsOf(before, asked), insts[i], asked, venue, n);
        n := n + |asked|;
        if problem.Some? {
          StuckRun(plan, CellsOf(chosen, asked), n, venue, storage.tables);
          return;
        }
      }
      assert insts[..|insts|] == insts;
      r := Submit(WriteOf(plan, draft), at, fault);
    }
  }

  lemma AskedAreMvp(plan: Plan, insts: seq<Instrument>, selected: Option<seq<string>>, tfs: seq<Timeframe>)
    requires PlanProblem(plan, insts, selected, tfs).None?
    ensures MvpTimeframes(TimeframesOf(tfs))
  {
  }

  lemma NoChoice(plan: Plan, selected: Option<seq<string>>, tfs: seq<Timeframe>, venue: Venue, t: Tables)
    ensures CellsOf(Chosen([], selected), tfs) == [] && RunCells(plan, [], venue, t) == Ok(NEW_DRAFT)
  {
    NoCells(plan, venue, t);
  }

  lemma NoCells(plan: Plan, venue: Venue, t: Tables)
    ensures RunCells(plan, [], venue, t) == Ok(NEW_DRAFT)
  {
  }

  /** The cells of the first instruments are a prefix of the run's cells. */
  lemma {:induction false} CellsSplit(insts: seq<Instrument>, tfs: seq<Timeframe>, i: nat)
    requires i < |insts|
    ensures CellsOf(insts[..i + 1], tfs) == CellsOf(insts[..i], tfs) + RowOf(insts[i], tfs)
    ensures var n := |CellsOf(insts[..i + 1], tfs)|; n <= |CellsOf(insts, tfs)| && CellsOf(insts, tfs)[..n] == CellsOf(insts[..i + 1], tfs)
    decreases |insts|
  {
    assert insts[..i + 1][..i] == insts[..i];
    if i + 1 < |insts| {
      var p := insts[..|insts| - 1];
      assert p[..i + 1] == insts[..i + 1] && p[..i] == insts[..i];
      CellsSplit(p, tfs, i);
    } else {
      assert insts[..i + 1] == insts;
    }
  }
}
