/**
 What a run records of its cells: the grade of an answer told by counting, the receipts of each cell field
 by field, and when the run as a whole counts as a success.
 */
module Receipts {
  import opened Results
  import opened Timestamps
  import opened Storage
  import opened Calendar
  import opened Quality
  import opened Sessions
  import opened RunWrites
  import opened Store
  import opened Ingestion
  import opened Assembly
  import opened Acceptance
  import opened Opening
  import opened Provenance

  // ----- the grade -----

  /** Where issues of these kinds stand. */
  function Places(issues: seq<Issue>, kinds: set<IssueKind>): set<int> {
    set i | 0 <= i < |issues| && issues[i].kind in kinds
  }

  lemma {:induction false} CountIs(issues: seq<Issue>, kinds: set<IssueKind>)
    ensures Count(issues, kinds) == |Places(issues, kinds)|
  {
    if issues != [] {
      var n := |issues| - 1;
      CountIs(issues[..n], kinds);
      assert Places(issues, kinds) == Places(issues[..n], kinds) + if issues[n].kind in kinds then {n} else {};
    }
  }

  /** An issue that fails a cell on its own: rows of two sources, no row at all, or a bar that is not closed, outside the opening buffer. */
  predicate Fatal(i: Issue, buffered: bool) {
    i.kind == MixedSource || i.kind == MissingRows || (i.kind == FormingBar && !buffered)
  }

  /** A cell fails on a fatal issue, or when more rows are bad than the tolerated share of rows and gaps; any issue keeps it from passing. */
  lemma GradeExactly(issues: seq<Issue>, rows: nat, buffered: bool, threshold: real)
    ensures var bad, seen := |Places(issues, {Malformed, Duplicate, OutOfOrder})|, rows + |Places(issues, {Gap})|;
            var failed := (exists i :: i in issues && Fatal(i, buffered)) || bad as real > threshold * (if seen == 0 then 1 else seen) as real;
            GradeOf(issues, rows, buffered, threshold) == if failed then Fail else if issues == [] then Pass else Partial
  {
    CountIs(issues, {Malformed, Duplicate, OutOfOrder});
    CountIs(issues, {Gap});
    hide Count, Places;
    FatalIff(issues, buffered);
  }

  lemma FatalIff(issues: seq<Issue>, buffered: bool)
    ensures Count(issues, Blocking(buffered)) > 0 <==> exists i :: i in issues && Fatal(i, buffered)
  {
    hide Count;
    forall i: Issue
      ensures i.kind in Blocking(buffered) <==> Fatal(i, buffered)
    {
    }
  }

  /** The opening buffer counts minutes from 9:30 of a Shanghai weekday, for 15m and 1h cells. */
  lemma BufferIff(cal: Spec, tf: Timeframe, cutoff: int, policy: Policy)
    ensures BufferActive(cal, tf, cutoff, policy) <==>
            && cal.id == CnA && (tf == M15 || tf == H1) && LocalDay(cal, cutoff) % 7 <= 4
            && 570 <= MinuteOfDay(cal, cutoff) < 570 + policy.buffer
  {
    hide TimeOfDay, LocalDay;
    WeekdaysTrade(cal, LocalDay(cal, cutoff) / 7, LocalDay(cal, cutoff) % 7);
  }

  // ----- dates -----

  /** Microseconds from the first instant of year 1 to the end of year 9999. */
  predicate Dated(t: int) {
    0 <= t < 315_537_897_600_000_000
  }

  /** The gate leaves the dates exactly when a local time or an end it computes does. */
  lemma FitsIff(s: seq<Candle>, tf: Timeframe, cal: Spec, cutoff: int, policy: Policy)
    requires cal.Known() && IsMvp(tf)
    ensures Fits(s, tf, cal, cutoff, policy) <==>
            && Dated(cutoff + cal.offset)
            && (policy.buffer > 0 && cal.id == CnA && (tf == M15 || tf == H1) && LocalDay(cal, cutoff) % 7 <= 4 && MinuteOfDay(cal, cutoff) >= 570 ==>
                  Dated(LocalDay(cal, cutoff) * 86_400_000_000 + (570 + policy.buffer) * 60_000_000))
            && (forall c :: c in s ==>
                  && Dated(c.stamp + cal.offset)
                  && (tf == W1 ==> LocalDay(cal, c.stamp) / 7 * 7 + (if cal.id == Crypto || cal.id == UsFutures then 6 else 4) <= 3_652_058)
                  && Dated(BarEnd(cal, tf, c.stamp)))
  {
    hide TimeOfDay, LocalDay, BarEnd, Spec.Known;
    WeekdaysTrade(cal, LocalDay(cal, cutoff) / 7, LocalDay(cal, cutoff) % 7);
    forall c | c in s
      ensures exists i :: 0 <= i < |s| && s[i] == c
    {
    }
    assert forall i :: 0 <= i < |s| ==> s[i] in s;
  }

  // ----- what one cell records -----

  function SeriesOf(plan: Plan, inst: Instrument, tf: Timeframe): SeriesKey {
    SeriesKey(instrumentId := inst.instrumentId, displaySymbol := inst.displaySymbol, providerSymbol := inst.providerSymbol,
              sourceId := inst.sourceId, assetClass := inst.assetClass, timeframe := tf, adjustmentBasis := inst.adjustmentBasis,
              manifestVersion := plan.manifestVersion)
  }

  lemma SameKey(plan: Plan, inst: Instrument, tf: Timeframe)
    ensures KeyOf(plan, inst, tf) == SeriesOf(plan, inst, tf)
  {
  }

  /** Nothing but receipts, statuses and the count of failures changes. */
  predicate OnlyFailure(d: Draft, d': Draft) {
    && d'.candles == d.candles && d'.transforms == d.transforms && d'.watermarks == d.watermarks && d'.requests == d.requests
    && d'.passed == d.passed && d'.partial == d.partial && d'.failed == d.failed + 1
    && d'.promoted == d.promoted && d'.regressions == d.regressions
    && |d'.cells| == |d.cells| + 1 && d'.cells[..|d.cells|] == d.cells && d'.cells[|d.cells|] != Ready && d'.cells[|d.cells|] != NotApplicableCell
  }

  /** A cell that fails leaves an observation without success and a receipt that counts one invalid answer or one blocked cell. */
  predicate Failure(plan: Plan, key: SeriesKey, start: Option<string>, hash: Option<string>, latency: Option<real>,
                    status: string, invalid: int, blocked: int, d: Draft, d': Draft)
  {
    && OnlyFailure(d, d')
    && d'.observations == d.observations + [ObservationWrite(
         runId := plan.runId, key := key, success := false, requestStart := start, requestEnd := Some(plan.end), responseHash := hash,
         candleCount := 0, latestTimestamp := None, latency := latency, servedFrom := "upstream", observedAt := None)]
    && d'.qualities == d.qualities + [QualityWrite(
         runId := plan.runId, key := key, status := status, gaps := 0, duplicates := 0, invalidRows := invalid, blockedCells := blocked, receiptHash := None)]
  }

  /** A cell without rows to grade is recorded as blocked or failed, by what its adapter answered. */
  lemma FailureSays(asked: Draft, plan: Plan, inst: Instrument, tf: Timeframe, start: Option<string>, fetch: Fetch, existing: Option<string>)
    requires inst.calendar.Known() && IsMvp(tf) && (fetch.Fetched? ==> !plan.policy.Valid())
    ensures var d', key := AskedCell(asked, plan, inst, tf, start, fetch, existing), SeriesOf(plan, inst, tf);
            match fetch
            case NoAdapter => Failure(plan, key, start, None, None, "blocked", 0, 1, asked, d')
            case NotEntitled(hash, latency) => Failure(plan, key, start, hash, latency, "blocked", 0, 1, asked, d')
            case ProviderFailed(hash, latency) => Failure(plan, key, start, hash, latency, "fail", 0, 1, asked, d')
            case Fetched(_, _, hash, _, _, _, latency) => Failure(plan, key, start, hash, latency, "fail", 1, 0, asked, d')
  {
    hide KeyOf, SeriesOf, FetchedCell, Policy.Valid, Spec.Known;
    SameKey(plan, inst, tf);
  }

  /** The canonical text of the newest of the rows. */
  ghost predicate NewestText(rows: seq<Candle>, text: Option<string>) {
    if rows == [] then text == None
    else exists x :: x in rows && Representable(x.stamp) && text == Some(Canon(x.stamp)) && forall y :: y in rows ==> y.stamp <= x.stamp
  }

  /** The quality receipt of an answer counts its issues by kind. */
  predicate QualityOf(plan: Plan, key: SeriesKey, fetch: Fetch, g: Gated, q: QualityWrite)
    requires fetch.Fetched?
  {
    var issues := g.verdict.issues;
    && q.runId == plan.runId && q.key == key && q.receiptHash == Some(fetch.issuesHash)
    && q.gaps == |Places(issues, {Gap})| && q.duplicates == |Places(issues, {Duplicate})| && q.invalidRows == |Places(issues, {Malformed})|
    && q.blockedCells == |Places(issues, {FormingBar})| + |Places(issues, {MissingRows})|
    && q.status == (if g.rows == [] then "missing" else match g.verdict.grade case Pass => "pass" case Partial => "partial" case Fail => "fail")
  }

  /** The observation of an answer: a success unless rows were there and failed. */
  ghost predicate ObservationFor(plan: Plan, key: SeriesKey, start: Option<string>, fetch: Fetch, g: Gated, o: ObservationWrite)
    requires fetch.Fetched?
  {
    && o.runId == plan.runId && o.key == key && (o.success <==> g.rows == [] || g.verdict.grade != Fail)
    && o.requestStart == start && o.requestEnd == Some(plan.end) && o.responseHash == fetch.responseHash && o.latency == fetch.latency
    && o.candleCount == |g.usable| && NewestText(g.usable, o.latestTimestamp) && o.servedFrom == "upstream" && o.observedAt == None
  }

  lemma QualitySays(plan: Plan, inst: Instrument, tf: Timeframe, fetch: Fetch)
    requires inst.calendar.Known() && IsMvp(tf) && fetch.Fetched?
    ensures var g := Gate(plan, inst, tf, fetch);
            QualityOf(plan, SeriesOf(plan, inst, tf), fetch, g, QualityReceipt(plan, KeyOf(plan, inst, tf), g.rows, g.verdict, fetch.issuesHash))
  {
    hide Gate, KeyOf, SeriesOf, Spec.Known;
    var g := Gate(plan, inst, tf, fetch);
    SameKey(plan, inst, tf);
    GatedRows(plan, inst, tf, fetch);
    assert g.rows != [] ==> g.rows[0] in g.rows;
    CountIs(g.verdict.issues, {Gap});
    CountIs(g.verdict.issues, {Duplicate});
    CountIs(g.verdict.issues, {Malformed});
    CountIs(g.verdict.issues, {FormingBar});
    CountIs(g.verdict.issues, {MissingRows});
  }

  lemma NewestSays(g: Gated)
    requires forall x :: x in g.usable ==> Representable(x.stamp)
    ensures g.usable != [] ==> Representable(Latest(g.usable))
    ensures NewestText(g.usable, LatestText(g))
  {
    hide Canon, Representable, Latest;
    if g.usable != [] {
      var t := Latest(g.usable);
      var i :| 0 <= i < |g.usable| && g.usable[i].stamp == t;
      assert g.usable[i] in g.usable;
    }
  }

  /** The stored watermark text is past the newest of these rows. */
  ghost predicate Behind(rows: seq<Candle>, existing: Option<string>) {
    existing.Some? && exists text :: NewestText(rows, Some(text)) && StrLess(text, existing.value)
  }

  lemma BehindIff(g: Gated, existing: Option<string>)
    requires g.usable != [] && forall x :: x in g.usable ==> Representable(x.stamp)
    ensures Representable(Latest(g.usable))
    ensures Suppressed(existing, LatestText(g).value) <==> Behind(g.usable, existing)
  {
    hide Canon, Representable, Latest, StrLess, LatestText;
    NewestSays(g);
    forall text | NewestText(g.usable, Some(text))
      ensures Some(text) == LatestText(g)
    {
      OneNewest(g.usable, Some(text), LatestText(g));
    }
    if Suppressed(existing, LatestText(g).value) {
      assert NewestText(g.usable, Some(LatestText(g).value));
    }
  }

  lemma OneNewest(rows: seq<Candle>, a: Option<string>, b: Option<string>)
    requires NewestText(rows, a) && NewestText(rows, b)
    ensures a == b
  {
  }

  /**
   What a graded answer adds to the draft: its receipt and observation, one grade, and, unless it failed, its
   usable rows and either a watermark at the newest of them or one more suppressed regression.
   */
  ghost predicate Graded(plan: Plan, key: SeriesKey, start: Option<string>, fetch: Fetch, existing: Option<string>, g: Gated, d: Draft, d': Draft)
    requires fetch.Fetched?
  {
    var kept := g.verdict.grade != Fail && g.usable != [];
    var behind := kept && Behind(g.usable, existing);
    && |d'.qualities| == |d.qualities| + 1 && d'.qualities[..|d.qualities|] == d.qualities && QualityOf(plan, key, fetch, g, d'.qualities[|d.qualities|])
    && |d'.observations| == |d.observations| + 1 && d'.observations[..|d.observations|] == d.observations
    && ObservationFor(plan, key, start, fetch, g, d'.observations[|d.observations|])
    && d'.passed == d.passed + (if g.verdict.grade == Pass then 1 else 0) && d'.partial == d.partial + (if g.verdict.grade == Partial then 1 else 0)
    && d'.failed == d.failed + (if g.verdict.grade == Fail then 1 else 0) && d'.requests == d.requests && d'.cells == d.cells
    && d'.transforms == d.transforms && d'.candles == d.candles + (if kept then g.usable else [])
    && d'.promoted == d.promoted + (if kept then 1 else 0) && d'.regressions == d.regressions + (if behind then 1 else 0)
    && (if kept && !behind
        then |d'.watermarks| == |d.watermarks| + 1 && d'.watermarks[..|d.watermarks|] == d.watermarks
             && var m := d'.watermarks[|d.watermarks|];
                m.key == key && m.runId == plan.runId && m.cursor == None && NewestText(g.usable, Some(m.lastClosed))
        else d'.watermarks == d.watermarks)
  }

  lemma GradedSays(d: Draft, plan: Plan, inst: Instrument, tf: Timeframe, start: Option<string>, fetch: Fetch, existing: Option<string>)
    requires inst.calendar.Known() && IsMvp(tf) && fetch.Fetched?
    ensures var g := Gate(plan, inst, tf, fetch);
            && (g.usable != [] ==> Representable(Latest(g.usable)))
            && Graded(plan, SeriesOf(plan, inst, tf), start, fetch, existing, g, d, GradedCell(d, plan, KeyOf(plan, inst, tf), start, fetch, existing, g))
  {
    hide Gate, KeyOf, SeriesOf, Spec.Known, QualityReceipt, QualityOf, NewestText, LatestText, Suppressed, Behind, Latest, Representable;
    var g := Gate(plan, inst, tf, fetch);
    SameKey(plan, inst, tf);
    GatedRows(plan, inst, tf, fetch);
    QualitySays(plan, inst, tf, fetch);
    NewestSays(g);
    if g.usable != [] {
      BehindIff(g, existing);
      SomeLatest(g);
    }
  }

  lemma SomeLatest(g: Gated)
    requires g.usable != [] && Representable(Latest(g.usable))
    ensures LatestText(g).Some?
  {
  }

  // ----- how the rows were derived, and the cell's status -----

  /** What the adapter says of its aggregation, or what is known of the two free sources whose 4h rows come aggregated. */
  predicate Derivation(inst: Instrument, fetch: Fetch, t: Transform)
    requires fetch.Fetched?
  {
    match fetch.transform
    case Some(said) => t == said
    case None =>
      && t.raw == M15 && t.aggregated && t.anchor == Some("09:30") && t.partialPolicy == Some("drop_and_record") && t.partialCount == Number(0)
      && t.rule == (if inst.sourceId == "tencent_stock_free" then "cn_a_session_4h_v1" else "us_regular_fixed_4h_v1")
  }

  lemma DerivationSays(inst: Instrument, tf: Timeframe, fetch: Fetch)
    requires fetch.Fetched?
    ensures var t := EffectiveTransform(inst, tf, fetch.transform);
            (Aggregated(t) <==> SaysAggregated(inst, tf, fetch)) && (SaysAggregated(inst, tf, fetch) ==> Derivation(inst, fetch, t.value))
  {
  }

  /** The receipt of aggregated rows: from the start asked for, or else their first row, to the end of the run. */
  ghost predicate TransformFor(plan: Plan, inst: Instrument, tf: Timeframe, start: Option<string>, fetch: Fetch, t: Transform, first: Candle, x: TransformWrite)
    requires fetch.Fetched?
  {
    && x.runId == plan.runId && x.manifestVersion == plan.manifestVersion && x.instrumentId == inst.instrumentId && x.sourceId == inst.sourceId
    && x.output == tf && x.input == t.raw && x.rule == t.rule && x.anchor == t.anchor && x.partialPolicy == t.partialPolicy
    && t.partialCount == Number(x.partialCount) && Representable(first.stamp)
    && x.inputStart == (match start case Some(text) => if text == "" then Canon(first.stamp) else text case None => Canon(first.stamp))
    && x.inputEnd == plan.end && x.outputHash == fetch.stampsHash
    && x.inputHash == (match fetch.responseHash case Some(hash) => hash case None => fetch.rowsHash)
  }

  /** One status more, ready exactly for an answer that passes and whose watermark is not held back. */
  predicate StatusAdded(d: Draft, d': Draft, g: Gated, behind: bool) {
    && |d'.cells| == |d.cells| + 1 && d'.cells[..|d.cells|] == d.cells && d'.cells[|d.cells|] != NotApplicableCell
    && (d'.cells[|d.cells|] == Ready <==> g.verdict.grade == Pass && !behind)
  }

  /** The rest of a graded answer: its status, and a transform receipt when its rows were aggregated, or a failure when their count is no number. */
  ghost predicate Recorded(plan: Plan, inst: Instrument, tf: Timeframe, start: Option<string>, fetch: Fetch, g: Gated, behind: bool, d: Draft, d': Draft)
    requires fetch.Fetched?
  {
    var t := EffectiveTransform(inst, tf, fetch.transform);
    if g.usable == [] || !SaysAggregated(inst, tf, fetch) then StatusAdded(d, d', g, behind) && d' == d.(cells := d'.cells)
    else
      t.Some? && Derivation(inst, fetch, t.value) &&
      if t.value.partialCount.Number? then
        && StatusAdded(d, d', g, behind) && d' == d.(cells := d'.cells, transforms := d'.transforms)
        && |d'.transforms| == |d.transforms| + 1 && d'.transforms[..|d.transforms|] == d.transforms
        && TransformFor(plan, inst, tf, start, fetch, t.value, g.usable[0], d'.transforms[|d.transforms|])
      else Failure(plan, SeriesOf(plan, inst, tf), start, fetch.responseHash, fetch.latency, "fail", 1, 0, d, d')
  }

  lemma StatusSays(d: Draft, d': Draft, g: Gated, behind: bool)
    requires d'.cells == d.cells + [StatusOf(g, behind)]
    ensures StatusAdded(d, d', g, behind)
  {
  }

  lemma TransformSays(plan: Plan, inst: Instrument, tf: Timeframe, start: Option<string>, fetch: Fetch, t: Transform, first: Candle)
    requires fetch.Fetched? && t.partialCount.Number? && Representable(first.stamp)
    ensures TransformFor(plan, inst, tf, start, fetch, t, first, TransformReceipt(plan, inst, tf, start, t, fetch, Canon(first.stamp)))
  {
    hide Canon, Representable;
  }

  lemma CountFailureSays(d: Draft, plan: Plan, inst: Instrument, tf: Timeframe, start: Option<string>, fetch: Fetch)
    requires fetch.Fetched?
    ensures var key := KeyOf(plan, inst, tf);
            Failure(plan, SeriesOf(plan, inst, tf), start, fetch.responseHash, fetch.latency, "fail", 1, 0, d,
                    FailCell(d, plan, key, start, fetch.responseHash, fetch.latency, BlockedQuality(plan, key, "fail", 1, 0), MalformedCell))
  {
    hide KeyOf, SeriesOf;
    SameKey(plan, inst, tf);
  }

  lemma RecordedSays(d: Draft, plan: Plan, inst: Instrument, tf: Timeframe, start: Option<string>, fetch: Fetch, g: Gated, behind: bool)
    requires fetch.Fetched? && (g.usable != [] ==> Representable(g.usable[0].stamp))
    ensures Recorded(plan, inst, tf, start, fetch, g, behind, d, RecordedCell(d, plan, inst, tf, start, fetch, g, behind))
  {
    hide KeyOf, SeriesOf, EffectiveTransform, Aggregated, SaysAggregated, Derivation, Canon, Representable, StatusAdded, Failure, TransformFor,
      FailCell, TransformReceipt, StatusOf, BlockedQuality;
    var d' := RecordedCell(d, plan, inst, tf, start, fetch, g, behind);
    DerivationSays(inst, tf, fetch);
    IsAggregated(inst, tf, fetch);
    CountFailureSays(d, plan, inst, tf, start, fetch);
    if g.usable == [] || !SaysAggregated(inst, tf, fetch) {
      StatusSays(d, d', g, behind);
    } else {
      var t := EffectiveTransform(inst, tf, fetch.transform).value;
      if t.partialCount.Number? {
        StatusSays(d, d', g, behind);
        TransformSays(plan, inst, tf, start, fetch, t, g.usable[0]);
      }
    }
  }

  lemma IsAggregated(inst: Instrument, tf: Timeframe, fetch: Fetch)
    requires fetch.Fetched?
    ensures Aggregated(EffectiveTransform(inst, tf, fetch.transform)) ==> EffectiveTransform(inst, tf, fetch.transform).Some?
  {
  }

  /** What an answered cell records, from its request to its status: first its grade, then how its rows were derived. */
  lemma AnsweredSays(asked: Draft, plan: Plan, inst: Instrument, tf: Timeframe, start: Option<string>, fetch: Fetch, existing: Option<string>)
    returns (graded: Draft, behind: bool)
    requires inst.calendar.Known() && IsMvp(tf) && fetch.Fetched? && plan.policy.Valid()
    ensures var d', g := AskedCell(asked, plan, inst, tf, start, fetch, existing), Gate(plan, inst, tf, fetch);
            && behind == (g.verdict.grade != Fail && g.usable != [] && Behind(g.usable, existing))
            && Graded(plan, SeriesOf(plan, inst, tf), start, fetch, existing, g, asked, graded)
            && Recorded(plan, inst, tf, start, fetch, g, behind, graded, d')
  {
    hide Gate, KeyOf, SeriesOf, Spec.Known, Graded, Recorded, Behind, GradedCell, RecordedCell, Latest, LatestText, Suppressed, Representable;
    GatedRows(plan, inst, tf, fetch);
    var g := Gate(plan, inst, tf, fetch);
    graded := GradedCell(asked, plan, KeyOf(plan, inst, tf), start, fetch, existing, g);
    GradedSays(asked, plan, inst, tf, start, fetch, existing);
    if g.usable != [] {
      BehindIff(g, existing);
    }
    behind := Suppresses(g, existing);
    RecordedSays(graded, plan, inst, tf, start, fetch, g, behind);
  }

  // ----- the run -----

  /** The submitted run: the plan's header, the draft's lists, and whether it calls itself a success. */
  lemma WriteSays(plan: Plan, d: Draft)
    ensures var w := WriteOf(plan, d);
            && w.runId == plan.runId && w.manifestVersion == plan.manifestVersion && w.manifestHash == plan.manifestHash && w.startedAt == plan.startedAt
            && w.windowStart == plan.historyStart && w.windowEnd == Some(plan.end) && w.completedAt == Some(plan.end) && w.error == None
            && w.candles == d.candles && w.observations == d.observations && w.qualities == d.qualities && w.transforms == d.transforms
            && w.watermarks == d.watermarks && w.entitlements == [] && w.backups == []
            && w.status == (if forall c :: c in d.cells ==> c == Ready || c == NotApplicableCell then "success" else "partial")
  {
    assert forall i :: 0 <= i < |d.cells| ==> d.cells[i] in d.cells;
  }

  /** The answer passes its gate, does not run behind the watermark, and counts its partial buckets if it has to. */
  ghost predicate Clears(plan: Plan, inst: Instrument, tf: Timeframe, fetch: Fetch, existing: Option<string>)
    requires inst.calendar.Known() && IsMvp(tf)
  {
    && fetch.Fetched? && plan.policy.Valid()
    && var g := Gate(plan, inst, tf, fetch);
       && g.verdict.grade == Pass && !(g.usable != [] && Behind(g.usable, existing))
       && CountsItsBuckets(fetch, g)
  }

  predicate AllGood(cells: seq<CellStatus>) {
    forall i :: 0 <= i < |cells| ==> cells[i] == Ready || cells[i] == NotApplicableCell
  }

  lemma OneMoreStatus(cells: seq<CellStatus>, more: seq<CellStatus>, n: nat)
    requires |more| > |cells| == n && more[..n] == cells
    ensures AllGood(more) ==> AllGood(cells) && (more[n] == Ready || more[n] == NotApplicableCell)
    ensures |more| == n + 1 && AllGood(cells) && (more[n] == Ready || more[n] == NotApplicableCell) ==> AllGood(more)
  {
    assert forall i :: 0 <= i < n ==> more[i] == cells[i];
  }

  lemma FailureIsBad(plan: Plan, key: SeriesKey, start: Option<string>, hash: Option<string>, latency: Option<real>,
                     status: string, invalid: int, blocked: int, d: Draft, d': Draft)
    requires Failure(plan, key, start, hash, latency, status, invalid, blocked, d, d')
    ensures !AllGood(d'.cells)
  {
    hide AllGood;
    OneMoreStatus(d.cells, d'.cells, |d.cells|);
  }

  lemma GradedCells(plan: Plan, key: SeriesKey, start: Option<string>, fetch: Fetch, existing: Option<string>, g: Gated, d: Draft, d': Draft)
    requires fetch.Fetched? && Graded(plan, key, start, fetch, existing, g, d, d')
    ensures d'.cells == d.cells
  {
    hide QualityOf, ObservationFor, NewestText, Behind;
  }

  lemma StatusIsGood(d: Draft, d': Draft, g: Gated, behind: bool)
    requires StatusAdded(d, d', g, behind)
    ensures AllGood(d'.cells) <==> AllGood(d.cells) && g.verdict.grade == Pass && !behind
  {
    hide AllGood;
    OneMoreStatus(d.cells, d'.cells, |d.cells|);
  }

  /** The rows do not need a count of partial buckets, or have one. */
  predicate CountsItsBuckets(fetch: Fetch, g: Gated)
    requires fetch.Fetched?
  {
    g.usable != [] && fetch.transform.Some? && fetch.transform.value.aggregated ==> fetch.transform.value.partialCount.Number?
  }

  lemma DerivedCount(inst: Instrument, tf: Timeframe, fetch: Fetch, g: Gated, t: Transform)
    requires fetch.Fetched? && g.usable != [] && SaysAggregated(inst, tf, fetch) && Derivation(inst, fetch, t)
    ensures t.partialCount.Number? <==> CountsItsBuckets(fetch, g)
  {
  }

  lemma RecordedGood(plan: Plan, inst: Instrument, tf: Timeframe, start: Option<string>, fetch: Fetch, g: Gated, behind: bool, d: Draft, d': Draft)
    requires fetch.Fetched? && Recorded(plan, inst, tf, start, fetch, g, behind, d, d')
    ensures AllGood(d'.cells) <==> AllGood(d.cells) && g.verdict.grade == Pass && !behind && CountsItsBuckets(fetch, g)
  {
    hide AllGood, StatusAdded, Failure, TransformFor, Derivation, SaysAggregated, EffectiveTransform, SeriesOf, CountsItsBuckets;
    if g.usable == [] || !SaysAggregated(inst, tf, fetch) {
      StatusIsGood(d, d', g, behind);
      NoCountNeeded(inst, tf, fetch, g);
    } else {
      var t := EffectiveTransform(inst, tf, fetch.transform).value;
      DerivedCount(inst, tf, fetch, g, t);
      if t.partialCount.Number? {
        StatusIsGood(d, d', g, behind);
      } else {
        FailureIsBad(plan, SeriesOf(plan, inst, tf), start, fetch.responseHash, fetch.latency, "fail", 1, 0, d, d');
      }
    }
  }

  lemma NoCountNeeded(inst: Instrument, tf: Timeframe, fetch: Fetch, g: Gated)
    requires fetch.Fetched? && (g.usable == [] || !SaysAggregated(inst, tf, fetch))
    ensures CountsItsBuckets(fetch, g)
  {
  }

  lemma FailedIsBad(asked: Draft, plan: Plan, inst: Instrument, tf: Timeframe, start: Option<string>, fetch: Fetch, existing: Option<string>)
    requires inst.calendar.Known() && IsMvp(tf) && (fetch.Fetched? ==> !plan.policy.Valid())
    ensures !AllGood(AskedCell(asked, plan, inst, tf, start, fetch, existing).cells)
  {
    hide AskedCell, Failure, AllGood, SeriesOf, Spec.Known;
    var d', key := AskedCell(asked, plan, inst, tf, start, fetch, existing), SeriesOf(plan, inst, tf);
    FailureSays(asked, plan, inst, tf, start, fetch, existing);
    match fetch {
      case NoAdapter => FailureIsBad(plan, key, start, None, None, "blocked", 0, 1, asked, d');
      case NotEntitled(hash, latency) => FailureIsBad(plan, key, start, hash, latency, "blocked", 0, 1, asked, d');
      case ProviderFailed(hash, latency) => FailureIsBad(plan, key, start, hash, latency, "fail", 0, 1, asked, d');
      case Fetched(_, _, hash, _, _, _, latency) => FailureIsBad(plan, key, start, hash, latency, "fail", 1, 0, asked, d');
    }
  }

  /** An asked cell leaves all statuses good exactly when they were and its answer clears. */
  lemma AskedStaysGood(asked: Draft, plan: Plan, inst: Instrument, tf: Timeframe, start: Option<string>, fetch: Fetch, existing: Option<string>)
    requires inst.calendar.Known() && IsMvp(tf)
    ensures AllGood(AskedCell(asked, plan, inst, tf, start, fetch, existing).cells) <==> AllGood(asked.cells) && Clears(plan, inst, tf, fetch, existing)
  {
    hide Gate, Behind, Spec.Known, IsMvp, AskedCell, SeriesOf, AllGood, CountsItsBuckets, Graded, Recorded, Policy.Valid;
    var d' := AskedCell(asked, plan, inst, tf, start, fetch, existing);
    if fetch.Fetched? && plan.policy.Valid() {
      var g := Gate(plan, inst, tf, fetch);
      var graded, behind := AnsweredSays(asked, plan, inst, tf, start, fetch, existing);
      GradedCells(plan, SeriesOf(plan, inst, tf), start, fetch, existing, g, asked, graded);
      RecordedGood(plan, inst, tf, start, fetch, g, behind, graded, d');
    } else {
      FailedIsBad(asked, plan, inst, tf, start, fetch, existing);
    }
  }

  /** The cell is not applicable, or open to requests and not wanted. */
  predicate Idle(c: Cell) {
    c.tf in c.inst.notApplicable || (c.tf !in c.inst.blocked && c.inst.entitled && c.tf !in c.inst.required)
  }

  lemma SilentStaysGood(d: Draft, plan: Plan, c: Cell, start: Option<string>, fetch: Fetch, existing: Option<string>)
    requires c.inst.calendar.Known() && IsMvp(c.tf) && !Requests(d, plan, c.inst, c.tf)
    ensures AllGood(ProcessCell(d, plan, c.inst, c.tf, start, fetch, existing).cells) <==> AllGood(d.cells) && Idle(c)
  {
    hide Spec.Known, IsMvp, AllGood, AskedCell;
    var d' := ProcessCell(d, plan, c.inst, c.tf, start, fetch, existing);
    if |d'.cells| > |d.cells| {
      OneMoreStatus(d.cells, d'.cells, |d.cells|);
    }
  }

  lemma StepStaysGood(d: Draft, plan: Plan, c: Cell, fetch: Fetch, t: Tables)
    requires c.inst.calendar.Known() && IsMvp(c.tf)
    ensures var r := CellStep(d, plan, c.inst, c.tf, fetch, t);
            var good := if Requests(d, plan, c.inst, c.tf) then Clears(plan, c.inst, c.tf, fetch, StoredWatermark(t, SeriesOf(plan, c.inst, c.tf))) else Idle(c);
            r.Ok? ==> (AllGood(r.value.cells) <==> AllGood(d.cells) && good)
  {
    hide Clears, AllGood, Idle, Survives, RequestStart, KeyOf, SeriesOf, StoredWatermark, Spec.Known, IsMvp, AskedCell;
    SameKey(plan, c.inst, c.tf);
    var existing := StoredWatermark(t, KeyOf(plan, c.inst, c.tf));
    if Requests(d, plan, c.inst, c.tf) {
      var start := RequestStart(plan, c.tf, existing);
      if start.Ok? {
        AskedStaysGood(d.(requests := d.requests + 1), plan, c.inst, c.tf, start.value, fetch, existing);
      }
    } else {
      SilentStaysGood(d, plan, c, None, fetch, existing);
    }
  }

  /** The i-th cell leaves nothing to report: it is idle, or it is asked and its answer clears. */
  ghost predicate CellSucceeds(plan: Plan, cells: seq<Cell>, venue: Venue, t: Tables, i: nat)
    requires GoodCells(cells) && i < |cells|
  {
    var c := cells[i];
    Idle(c) || (Asked(plan, cells, i) && Clears(plan, c.inst, c.tf, venue(i), StoredWatermark(t, SeriesOf(plan, c.inst, c.tf))))
  }

  lemma SucceedsInPrefix(plan: Plan, cells: seq<Cell>, venue: Venue, t: Tables, i: nat)
    requires GoodCells(cells) && i < |cells| - 1
    ensures CellSucceeds(plan, cells[..|cells| - 1], venue, t, i) <==> CellSucceeds(plan, cells, venue, t, i)
  {
    hide Clears, Idle;
    assert cells[..|cells| - 1][..i] == cells[..i];
  }

  /** An idle cell is never asked. */
  lemma IdleIsSilent(d: Draft, plan: Plan, c: Cell)
    requires Idle(c)
    ensures !Requests(d, plan, c.inst, c.tf)
  {
  }

  lemma {:induction false} RunStaysGood(plan: Plan, cells: seq<Cell>, venue: Venue, t: Tables)
    requires GoodCells(cells) && RunCells(plan, cells, venue, t).Ok?
    ensures AllGood(RunCells(plan, cells, venue, t).value.cells) <==> forall i :: 0 <= i < |cells| ==> CellSucceeds(plan, cells, venue, t, i)
  {
    hide CellStep, Clears, Idle, Requests, Asked, StoredWatermark, SeriesOf, CellSucceeds, RequiredCells, WithinBudget, AllGood;
    if cells == [] {
      NothingToReport();
    } else {
      var n := |cells| - 1;
      StuckCell(plan, cells, venue, t);
      RunStaysGood(plan, cells[..n], venue, t);
      RequestCount(plan, cells[..n], venue, t);
      var d := RunCells(plan, cells[..n], venue, t).value;
      AskedIff(plan, cells, n, d);
      StepStaysGood(d, plan, cells[n], venue(n), t);
      LastSucceeds(plan, cells, venue, t, d);
      forall i | 0 <= i < n
        ensures CellSucceeds(plan, cells[..n], venue, t, i) <==> CellSucceeds(plan, cells, venue, t, i)
      {
        SucceedsInPrefix(plan, cells, venue, t, i);
      }
    }
  }

  lemma NothingToReport()
    ensures AllGood(NEW_DRAFT.cells)
  {
  }

  lemma LastSucceeds(plan: Plan, cells: seq<Cell>, venue: Venue, t: Tables, d: Draft)
    requires GoodCells(cells) && cells != []
    requires var n := |cells| - 1; Requests(d, plan, cells[n].inst, cells[n].tf) <==> Asked(plan, cells, n)
    ensures var n := |cells| - 1;
            var c := cells[n];
            CellSucceeds(plan, cells, venue, t, n) <==>
            if Requests(d, plan, c.inst, c.tf) then Clears(plan, c.inst, c.tf, venue(n), StoredWatermark(t, SeriesOf(plan, c.inst, c.tf))) else Idle(c)
  {
    hide Clears, Idle, Requests, Asked, StoredWatermark, SeriesOf;
    if Idle(cells[|cells| - 1]) {
      IdleIsSilent(d, plan, cells[|cells| - 1]);
    }
  }

  /** A run calls itself a success exactly when every cell is idle, or is asked within the budget and its answer clears. */
  lemma RunSucceedsIff(plan: Plan, cells: seq<Cell>, venue: Venue, t: Tables)
    requires GoodCells(cells) && RunCells(plan, cells, venue, t).Ok?
    ensures WriteOf(plan, RunCells(plan, cells, venue, t).value).status == "success" <==>
            forall i :: 0 <= i < |cells| ==> CellSucceeds(plan, cells, venue, t, i)
  {
    hide RunCells, CellSucceeds;
    RunStaysGood(plan, cells, venue, t);
    GoodIsSuccess(plan, RunCells(plan, cells, venue, t).value);
  }

  lemma GoodIsSuccess(plan: Plan, d: Draft)
    ensures WriteOf(plan, d).status == "success" <==> AllGood(d.cells)
  {
  }

  // ----- before the first cell -----

  /** A cell is asked again from the overlap before its watermark, or from the plan's own start. */
  lemma StartSays(plan: Plan, tf: Timeframe, watermark: Option<string>, t: int)
    requires IsMvp(tf) && Representable(t)
    ensures plan.forceHistory || watermark == None ==> RequestStart(plan, tf, watermark) == Ok(plan.historyStart)
    ensures !plan.forceHistory && watermark == Some(Canon(t)) ==>
              var bars := if plan.overlapBars < 0 then 0 else plan.overlapBars;
              var unit := match tf case M15 => 900_000_000 case H1 => 3_600_000_000 case H4 => 14_400_000_000 case D1 => 86_400_000_000 case _ => 604_800_000_000;
              if Representable(t - bars * unit) then RequestStart(plan, tf, watermark) == Ok(Some(Canon(t - bars * unit)))
              else RequestStart(plan, tf, watermark) == Err(UnreadableWatermark)
  {
    hide Canon, ParseIso, Representable;
    CanonIsPlain(t);
    ParseCanon(t);
    PlainReplace(t);
  }

  /** What stops a run before it asks anything, in this order. */
  lemma ProblemSays(plan: Plan, insts: seq<Instrument>, selected: Option<seq<string>>, tfs: seq<Timeframe>)
    ensures var digest := IsSha256(plan.manifestHash) && plan.manifestHash == Lower(plan.manifestHash);
            var frames := forall tf :: tf in tfs ==> tf == M15 || tf == H1 || tf == H4 || tf == D1 || tf == W1;
            var share := plan.policy.threshold >= 0.0 && plan.policy.threshold <= 1.0;
            var history := plan.forceHistory ==> plan.historyStart.Some? && plan.historyStart.value != "";
            var named := selected.Some? ==> forall id :: id in selected.value ==> exists i :: i in insts && i.instrumentId == id;
            PlanProblem(plan, insts, selected, tfs) ==
              if !digest then Some(BadDigest) else if !frames then Some(BadTimeframe) else if !share then Some(BadThreshold)
              else if !history then Some(NoHistoryStart) else if !named then Some(UnknownInstrument) else None
  {
    hide IsSha256, Lower, Declares;
    FramesSay(tfs);
    if selected.Some? {
      forall id | id in selected.value
        ensures Declares(insts, id) <==> exists i :: i in insts && i.instrumentId == id
      {
        DeclaresIff(insts, id);
      }
      assert forall i :: 0 <= i < |selected.value| ==> selected.value[i] in selected.value;
    }
  }

  lemma FramesSay(tfs: seq<Timeframe>)
    ensures MvpTimeframes(TimeframesOf(tfs)) <==> forall tf :: tf in tfs ==> tf == M15 || tf == H1 || tf == H4 || tf == D1 || tf == W1
    ensures TimeframesOf(tfs) == if tfs == [] then [D1, W1, M15, H1, H4] else tfs
  {
    assert forall j :: 0 <= j < |tfs| ==> tfs[j] in tfs;
  }

  lemma DeclaresIff(insts: seq<Instrument>, id: string)
    ensures Declares(insts, id) <==> exists i :: i in insts && i.instrumentId == id
  {
    if Declares(insts, id) {
      var k :| 0 <= k < |insts| && insts[k].instrumentId == id;
      assert insts[k] in insts;
    }
    if i :| i in insts && i.instrumentId == id {
      var k :| 0 <= k < |insts| && insts[k] == i;
    }
  }

  /** The selection keeps the manifest's order and takes exactly the instruments it names, all of them when it names none. */
  lemma {:induction false} ChosenSays(insts: seq<Instrument>, selected: Option<seq<string>>) returns (at: seq<int>)
    ensures |at| == |Chosen(insts, selected)| && forall k :: 0 <= k < |at| ==> 0 <= at[k] < |insts| && Chosen(insts, selected)[k] == insts[at[k]]
    ensures forall k, l :: 0 <= k < l < |at| ==> at[k] < at[l]
    ensures forall i :: 0 <= i < |insts| ==> (i in at <==> selected == None || insts[i].instrumentId in selected.value)
  {
    at := [];
    if insts != [] {
      var n := |insts| - 1;
      at := ChosenSays(insts[..n], selected);
      if selected == None || insts[n].instrumentId in selected.value {
        at := at + [n];
      }
    }
  }
}
