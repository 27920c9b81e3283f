/**
 What a run assembles is what the store accepts (src/kline/ingestion.py `run_once`,
 src/kline/store.py `_validate_mvp_run`), and every candle in it passed the gate.
 */
module Assembly {
  import opened Results
  import opened Timestamps
  import opened Storage
  import opened Calendar
  import opened Quality
  import opened RunWrites
  import opened Store
  import opened Ingestion

  // ----- what a run is given -----

  /** A plan whose texts are there. */
  predicate WellFormedPlan(plan: Plan) {
    && !Blank(plan.runId) && !Blank(plan.manifestVersion) && IsSha256(plan.manifestHash) && !Blank(plan.startedAt)
    && !Blank(plan.end) && TextOrNone(plan.historyStart)
  }

  predicate NotNegative(x: Option<real>) {
    x.Some? ==> x.value >= 0.0
  }

  /** An aggregated answer names a raw timeframe of the five, other than the one asked for, and how it was derived. */
  predicate WellFormedTransform(t: Transform, tf: Timeframe) {
    && IsMvp(t.raw) && t.raw != tf && !Blank(t.rule) && TextOrNone(t.anchor) && TextOrNone(t.partialPolicy)
    && t.partialCount.Number? && t.partialCount.value >= 0
  }

  /** The digests and the latency, which the program computes itself. */
  predicate SoundFetch(f: Fetch) {
    match f
    case NoAdapter => true
    case NotEntitled(hash, latency) => HashOrNone(hash) && NotNegative(latency)
    case ProviderFailed(hash, latency) => HashOrNone(hash) && NotNegative(latency)
    case Fetched(_, _, hash, issuesHash, rowsHash, stampsHash, latency) =>
      HashOrNone(hash) && IsSha256(issuesHash) && IsSha256(rowsHash) && IsSha256(stampsHash) && NotNegative(latency)
  }

  /** An answer whose rows may be promoted as an aggregate says so in a well-formed way. */
  predicate Clean(plan: Plan, c: Cell, f: Fetch)
    requires c.inst.calendar.Known() && IsMvp(c.tf)
  {
    f.Fetched? && plan.policy.Valid() && Gate(plan, c.inst, c.tf, f).usable != [] &&
    Aggregated(EffectiveTransform(c.inst, c.tf, f.transform)) ==>
      WellFormedTransform(EffectiveTransform(c.inst, c.tf, f.transform).value, c.tf)
  }

  predicate SameCell(a: Cell, b: Cell) {
    a.inst.instrumentId == b.inst.instrumentId && a.tf == b.tf
  }

  predicate DistinctCells(cells: seq<Cell>) {
    forall i, j :: 0 <= i < j < |cells| ==> !SameCell(cells[i], cells[j])
  }

  predicate SoundVenue(cells: seq<Cell>, venue: Venue) {
    forall i :: 0 <= i < |cells| ==> SoundFetch(venue(i))
  }

  // ----- which cells are asked -----

  /** The cells that end in a grade. */
  predicate Required(c: Cell) {
    c.tf !in c.inst.notApplicable && c.tf !in c.inst.blocked && c.inst.entitled && c.tf in c.inst.required
  }

  function One(b: bool): nat {
    if b then 1 else 0
  }

  function RequiredCells(cells: seq<Cell>): nat {
    if cells == [] then 0 else RequiredCells(cells[..|cells| - 1]) + One(Required(cells[|cells| - 1]))
  }

  /** How many of `required` cells get a request. */
  function WithinBudget(budget: Option<int>, required: nat): nat {
    if budget.Some? && budget.value < required then (if budget.value < 0 then 0 else budget.value) else required
  }

  /** The cell is required, and the budget lasts until it. */
  predicate Asked(plan: Plan, cells: seq<Cell>, i: nat)
    requires i < |cells|
  {
    Required(cells[i]) && (plan.rateBudget.Some? ==> RequiredCells(cells[..i]) < plan.rateBudget.value)
  }

  /** Every answer the run gets is clean. */
  predicate CleanRun(plan: Plan, cells: seq<Cell>, venue: Venue)
    requires GoodCells(cells)
  {
    forall i :: 0 <= i < |cells| && Asked(plan, cells, i) ==> Clean(plan, cells[i], venue(i))
  }

  lemma CleanSplit(plan: Plan, cells: seq<Cell>, venue: Venue)
    requires GoodCells(cells) && cells != []
    ensures var n := |cells| - 1;
            CleanRun(plan, cells, venue) <==>
            CleanRun(plan, cells[..n], venue) && (Asked(plan, cells, n) ==> Clean(plan, cells[n], venue(n)))
  {
    hide Clean, Required, RequiredCells;
    var n := |cells| - 1;
    var p := cells[..n];
    assert forall i :: 0 <= i < n ==> p[i] == cells[i] && p[..i] == cells[..i];
    assert forall i :: 0 <= i < n ==> (Asked(plan, cells, i) <==> Asked(plan, p, i));
  }

  // ----- a cell only appends -----

  function Joined(d: Draft, a: Draft): Draft {
    Draft(d.candles + a.candles, d.observations + a.observations, d.qualities + a.qualities, d.transforms + a.transforms,
          d.watermarks + a.watermarks, d.cells + a.cells, a.requests, d.passed + a.passed, d.partial + a.partial,
          d.failed + a.failed, d.promoted + a.promoted, d.regressions + a.regressions)
  }

  function Asking(requests: nat): Draft {
    NEW_DRAFT.(requests := requests)
  }

  lemma GradedJoins(d: Draft, plan: Plan, key: SeriesKey, start: Option<string>, fetch: Fetch, existing: Option<string>, g: Gated)
    requires fetch.Fetched? && (g.usable != [] ==> Representable(Latest(g.usable)))
    ensures GradedCell(d, plan, key, start, fetch, existing, g) ==
            Joined(d, GradedCell(Asking(d.requests), plan, key, start, fetch, existing, g))
  {
    hide Latest, Canon, Suppresses, LatestText, QualityReceipt, Promotes;
  }

  lemma RecordedJoins(d: Draft, a: Draft, plan: Plan, inst: Instrument, tf: Timeframe, start: Option<string>, fetch: Fetch, g: Gated,
                      suppressed: bool)
    requires fetch.Fetched? && (g.usable != [] ==> Representable(g.usable[0].stamp))
    ensures RecordedCell(Joined(d, a), plan, inst, tf, start, fetch, g, suppressed) ==
            Joined(d, RecordedCell(a, plan, inst, tf, start, fetch, g, suppressed))
  {
    hide Canon, TransformReceipt, StatusOf, EffectiveTransform, FailedObservation, BlockedQuality;
  }

  lemma FetchedJoins(d: Draft, plan: Plan, inst: Instrument, tf: Timeframe, start: Option<string>, fetch: Fetch, existing: Option<string>)
    requires inst.calendar.Known() && IsMvp(tf) && fetch.Fetched?
    ensures FetchedCell(d, plan, inst, tf, start, fetch, existing) ==
            Joined(d, FetchedCell(Asking(d.requests), plan, inst, tf, start, fetch, existing))
  {
    hide Gate, Latest, Suppresses, KeyOf, GradedCell, RecordedCell, Joined, IsMvp, Spec.Known, Asking;
    GatedRows(plan, inst, tf, fetch);
    var g := Gate(plan, inst, tf, fetch);
    GradedJoins(d, plan, KeyOf(plan, inst, tf), start, fetch, existing, g);
    var a := GradedCell(Asking(d.requests), plan, KeyOf(plan, inst, tf), start, fetch, existing, g);
    RecordedJoins(d, a, plan, inst, tf, start, fetch, g, Suppresses(g, existing));
  }

  lemma FailJoins(d: Draft, plan: Plan, key: SeriesKey, start: Option<string>, hash: Option<string>, latency: Option<real>,
                  receipt: QualityWrite, status: CellStatus)
    ensures FailCell(d, plan, key, start, hash, latency, receipt, status) ==
            Joined(d, FailCell(Asking(d.requests), plan, key, start, hash, latency, receipt, status))
  {
    hide FailedObservation;
  }

  /** A cell that asks nothing adds at most a status and a failure. */
  lemma SilentJoins(d: Draft, plan: Plan, inst: Instrument, tf: Timeframe, start: Option<string>, fetch: Fetch, existing: Option<string>)
    requires inst.calendar.Known() && IsMvp(tf) && !Requests(d, plan, inst, tf)
    ensures ProcessCell(d, plan, inst, tf, start, fetch, existing) ==
            Joined(d, ProcessCell(Asking(d.requests), plan, inst, tf, start, fetch, existing))
  {
    hide FetchedCell, FailCell, KeyOf, BlockedQuality, IsMvp, Spec.Known;
  }

  /** Processing a cell appends to a draft what it would leave in an empty one that had asked as often. */
  lemma AskedJoins(d: Draft, plan: Plan, inst: Instrument, tf: Timeframe, start: Option<string>, fetch: Fetch, existing: Option<string>)
    requires inst.calendar.Known() && IsMvp(tf)
    ensures var asked := d.(requests := d.requests + 1);
            AskedCell(asked, plan, inst, tf, start, fetch, existing) ==
            Joined(d, AskedCell(Asking(d.requests + 1), plan, inst, tf, start, fetch, existing))
  {
    hide FetchedCell, FailCell, KeyOf, BlockedQuality, IsMvp, Spec.Known, Policy.Valid;
    var key, asked := KeyOf(plan, inst, tf), d.(requests := d.requests + 1);
    match fetch {
      case NoAdapter =>
        FailJoins(asked, plan, key, start, None, None, BlockedQuality(plan, key, "blocked", 0, 1), Unavailable);
      case NotEntitled(hash, latency) =>
        FailJoins(asked, plan, key, start, hash, latency, BlockedQuality(plan, key, "blocked", 0, 1), BlockedForEntitlement);
      case ProviderFailed(hash, latency) =>
        FailJoins(asked, plan, key, start, hash, latency, BlockedQuality(plan, key, "fail", 0, 1), ProviderError);
      case Fetched(_, _, hash, _, _, _, latency) =>
        FailJoins(asked, plan, key, start, hash, latency, BlockedQuality(plan, key, "fail", 1, 0), MalformedCell);
        FetchedJoins(asked, plan, inst, tf, start, fetch, existing);
    }
  }

  lemma CellJoins(d: Draft, plan: Plan, inst: Instrument, tf: Timeframe, start: Option<string>, fetch: Fetch, existing: Option<string>)
    requires inst.calendar.Known() && IsMvp(tf)
    ensures ProcessCell(d, plan, inst, tf, start, fetch, existing) ==
            Joined(d, ProcessCell(Asking(d.requests), plan, inst, tf, start, fetch, existing))
  {
    hide AskedCell, IsMvp, Spec.Known;
    if !Requests(d, plan, inst, tf) {
      SilentJoins(d, plan, inst, tf, start, fetch, existing);
    } else {
      AskedJoins(d, plan, inst, tf, start, fetch, existing);
    }
  }

  // ----- what each list of a draft owes the validator -----

  predicate KeyIn(cells: seq<Cell>, instrumentId: string, tf: Timeframe) {
    exists i :: 0 <= i < |cells| && cells[i].inst.instrumentId == instrumentId && cells[i].tf == tf
  }

  predicate FineCandles(plan: Plan, cells: seq<Cell>, d: Draft) {
    ValidCandles(WriteOf(plan, d)) && forall i :: 0 <= i < |d.candles| ==> KeyIn(cells, d.candles[i].key.instrumentId, d.candles[i].key.timeframe)
  }

  predicate FineQualities(plan: Plan, cells: seq<Cell>, d: Draft) {
    && ValidObservations(WriteOf(plan, d)) && ValidQualities(WriteOf(plan, d))
    && forall i :: 0 <= i < |d.qualities| ==> KeyIn(cells, d.qualities[i].key.instrumentId, d.qualities[i].key.timeframe)
  }

  predicate FineTransforms(plan: Plan, cells: seq<Cell>, d: Draft) {
    && ValidTransforms(WriteOf(plan, d)) && DerivedCovered(WriteOf(plan, d))
    && forall i :: 0 <= i < |d.transforms| ==> KeyIn(cells, d.transforms[i].instrumentId, d.transforms[i].output)
  }

  predicate FineWatermarks(plan: Plan, cells: seq<Cell>, t: Tables, d: Draft) {
    && ValidWatermarks(WriteOf(plan, d)) && !MovesBackwards(t, WriteOf(plan, d))
    && forall i :: 0 <= i < |d.watermarks| ==> KeyIn(cells, d.watermarks[i].key.instrumentId, d.watermarks[i].key.timeframe)
  }

  predicate Fine(plan: Plan, cells: seq<Cell>, t: Tables, d: Draft) {
    FineCandles(plan, cells, d) && FineQualities(plan, cells, d) && FineTransforms(plan, cells, d) && FineWatermarks(plan, cells, t, d)
  }

  /** The cell is none of these. */
  predicate NewCell(cells: seq<Cell>, c: Cell) {
    forall i :: 0 <= i < |cells| ==> !SameCell(cells[i], c)
  }

  lemma KeyGrows(cells: seq<Cell>, c: Cell)
    ensures forall id, tf :: KeyIn(cells + [c], id, tf) <==> KeyIn(cells, id, tf) || KeyIn([c], id, tf)
    ensures forall id, tf :: KeyIn([c], id, tf) <==> id == c.inst.instrumentId && tf == c.tf
    ensures NewCell(cells, c) ==> !KeyIn(cells, c.inst.instrumentId, c.tf)
  {
    var both := cells + [c];
    assert both[|cells|] == c && [c][0] == c;
    forall id, tf | KeyIn(cells, id, tf)
      ensures KeyIn(both, id, tf)
    {
      var i :| 0 <= i < |cells| && cells[i].inst.instrumentId == id && cells[i].tf == tf;
      assert both[i] == cells[i];
    }
  }

  lemma JoinCandles(plan: Plan, cells: seq<Cell>, c: Cell, d: Draft, a: Draft)
    requires FineCandles(plan, cells, d) && FineCandles(plan, [c], a) && NewCell(cells, c)
    ensures FineCandles(plan, cells + [c], Joined(d, a))
  {
    hide KeyIn;
    KeyGrows(cells, c);
  }

  lemma JoinQualities(plan: Plan, cells: seq<Cell>, c: Cell, d: Draft, a: Draft)
    requires FineQualities(plan, cells, d) && FineQualities(plan, [c], a) && NewCell(cells, c)
    ensures FineQualities(plan, cells + [c], Joined(d, a))
  {
    hide KeyIn;
    KeyGrows(cells, c);
  }

  lemma JoinTransforms(plan: Plan, cells: seq<Cell>, c: Cell, d: Draft, a: Draft)
    requires FineTransforms(plan, cells, d) && FineTransforms(plan, [c], a) && NewCell(cells, c)
    ensures FineTransforms(plan, cells + [c], Joined(d, a))
  {
    hide KeyIn, ValidTransform, TransformIdOf, TransformKeyOf;
    KeyGrows(cells, c);
    var w, v, both := WriteOf(plan, d), WriteOf(plan, a), WriteOf(plan, Joined(d, a));
    JoinCovered(w, v, both);
    forall i | 0 <= i < |both.transforms|
      ensures ValidTransform(both, both.transforms[i])
    {
      SameRunTransform(w, both, both.transforms[i]);
      SameRunTransform(v, both, both.transforms[i]);
    }
    forall i, j | 0 <= i < j < |both.transforms|
      ensures TransformKeyOf(both.transforms[i]) != TransformKeyOf(both.transforms[j])
    {
      KeyTells(both.transforms[i], both.transforms[j]);
    }
  }

  lemma SameRunTransform(w: RunWrite, v: RunWrite, t: TransformWrite)
    requires w.runId == v.runId && w.manifestVersion == v.manifestVersion
    ensures ValidTransform(w, t) == ValidTransform(v, t)
  {
  }

  lemma KeyTells(t: TransformWrite, u: TransformWrite)
    ensures TransformKeyOf(t) == TransformKeyOf(u) ==> t.instrumentId == u.instrumentId && t.output == u.output
  {
  }

  lemma JoinCovered(w: RunWrite, v: RunWrite, both: RunWrite)
    requires DerivedCovered(w) && DerivedCovered(v)
    requires both.candles == w.candles + v.candles && both.transforms == w.transforms + v.transforms
    ensures DerivedCovered(both)
  {
    hide TransformIdOf, NeededTransform;
    forall i | 0 <= i < |both.candles| && both.candles[i].derived
      ensures exists j :: 0 <= j < |both.transforms| && TransformIdOf(both.transforms[j]) == NeededTransform(both.candles[i].key)
    {
      if i < |w.candles| {
        var j :| 0 <= j < |w.transforms| && TransformIdOf(w.transforms[j]) == NeededTransform(w.candles[i].key);
        assert both.transforms[j] == w.transforms[j];
      } else {
        var j :| 0 <= j < |v.transforms| && TransformIdOf(v.transforms[j]) == NeededTransform(v.candles[i - |w.candles|].key);
        assert both.transforms[|w.transforms| + j] == v.transforms[j];
      }
    }
  }

  lemma JoinWatermarks(plan: Plan, cells: seq<Cell>, c: Cell, t: Tables, d: Draft, a: Draft)
    requires FineWatermarks(plan, cells, t, d) && FineWatermarks(plan, [c], t, a) && NewCell(cells, c)
    ensures FineWatermarks(plan, cells + [c], t, Joined(d, a))
  {
    hide KeyIn;
    KeyGrows(cells, c);
  }

  // ----- what one cell leaves -----

  lemma {:induction false} UsableDistinct(s: seq<Candle>, issues: seq<Issue>)
    requires DistinctStamps(s)
    ensures DistinctStamps(UsableRows(s, issues))
  {
    hide Excluded;
    if s != [] {
      var p := s[..|s| - 1];
      UsableDistinct(p, issues);
      forall i | 0 <= i < |UsableRows(p, issues)|
        ensures UsableRows(p, issues)[i].stamp != s[|s| - 1].stamp
      {
        UsableMembers(p, issues, UsableRows(p, issues)[i]);
      }
    }
  }

  function ObservationOf(plan: Plan, key: SeriesKey, start: Option<string>, fetch: Fetch, g: Gated): ObservationWrite
    requires fetch.Fetched? && (g.usable != [] ==> Representable(Latest(g.usable)))
  {
    ObservationWrite(plan.runId, key, g.verdict.grade != Fail || g.rows == [], start, Some(plan.end), fetch.responseHash,
                     |g.usable|, LatestText(g), fetch.latency, "upstream", None)
  }

  /** What a well-formed answer leaves in an empty draft: each list outright. */
  lemma FetchedLists(plan: Plan, c: Cell, n: nat, start: Option<string>, fetch: Fetch, existing: Option<string>)
    requires c.inst.calendar.Known() && IsMvp(c.tf) && fetch.Fetched?
    requires var t := EffectiveTransform(c.inst, c.tf, fetch.transform);
             Gate(plan, c.inst, c.tf, fetch).usable != [] && Aggregated(t) ==> t.value.partialCount.Number?
    ensures var g, key, t := Gate(plan, c.inst, c.tf, fetch), KeyOf(plan, c.inst, c.tf), EffectiveTransform(c.inst, c.tf, fetch.transform);
            var a := FetchedCell(Asking(n), plan, c.inst, c.tf, start, fetch, existing);
            && (g.usable != [] ==> Representable(Latest(g.usable)) && Representable(g.usable[0].stamp))
            && a.candles == (if Promotes(g) then g.usable else [])
            && a.observations == [ObservationOf(plan, key, start, fetch, g)]
            && a.qualities == [QualityReceipt(plan, key, g.rows, g.verdict, fetch.issuesHash)]
            && a.transforms == (if g.usable != [] && Aggregated(t) then
                                  [TransformReceipt(plan, c.inst, c.tf, start, t.value, fetch, Canon(g.usable[0].stamp))] else [])
  {
    hide Gate, Latest, Canon, KeyOf, EffectiveTransform, QualityReceipt, TransformReceipt, LatestText, StatusOf, Suppressed, IsMvp, Spec.Known;
    GatedRows(plan, c.inst, c.tf, fetch);
  }

  /** The watermark and the counters the same answer leaves. */
  lemma FetchedCounts(plan: Plan, c: Cell, n: nat, start: Option<string>, fetch: Fetch, existing: Option<string>)
    requires c.inst.calendar.Known() && IsMvp(c.tf) && fetch.Fetched?
    requires var t := EffectiveTransform(c.inst, c.tf, fetch.transform);
             Gate(plan, c.inst, c.tf, fetch).usable != [] && Aggregated(t) ==> t.value.partialCount.Number?
    ensures var g, key := Gate(plan, c.inst, c.tf, fetch), KeyOf(plan, c.inst, c.tf);
            var a := FetchedCell(Asking(n), plan, c.inst, c.tf, start, fetch, existing);
            && (g.usable != [] ==> Representable(Latest(g.usable)))
            && a.watermarks == (if Promotes(g) && !Suppresses(g, existing) then [WatermarkWrite(key, LatestText(g).value, None, plan.runId)] else [])
            && a.requests == n && a.passed + a.partial + a.failed == 1
            && |a.watermarks| + a.regressions == a.promoted
  {
    hide Gate, Latest, Canon, KeyOf, EffectiveTransform, QualityReceipt, TransformReceipt, LatestText, StatusOf, Suppressed, IsMvp, Spec.Known;
    GatedRows(plan, c.inst, c.tf, fetch);
  }

  /** The rows a cell's gate lets through: of the cell's series, each with a stamp of its own. */
  lemma CandlesOfCell(plan: Plan, c: Cell, fetch: Fetch)
    requires c.inst.calendar.Known() && IsMvp(c.tf) && fetch.Fetched?
    ensures var g := Gate(plan, c.inst, c.tf, fetch);
            && DistinctStamps(g.usable)
            && (forall x :: x in g.rows || x in g.usable ==>
                  OfCell(x, KeyOf(plan, c.inst, c.tf), Aggregated(EffectiveTransform(c.inst, c.tf, fetch.transform))))
  {
    GatedRows(plan, c.inst, c.tf, fetch);
    hide Convert, Assess, Excluded;
    var g := Gate(plan, c.inst, c.tf, fetch);
    UsableDistinct(g.rows, g.verdict.issues);
  }

  lemma FineRows(plan: Plan, c: Cell, rows: seq<Candle>, derived: bool, a: Draft)
    requires DistinctStamps(rows) && forall x :: x in rows ==> OfCell(x, KeyOf(plan, c.inst, c.tf), derived)
    requires a.candles == rows || a.candles == []
    ensures FineCandles(plan, [c], a)
  {
    hide Candle.Valid;
    assert [c][0] == c;
    assert forall i :: 0 <= i < |a.candles| ==> a.candles[i] in rows;
  }

  lemma FineReceipts(plan: Plan, c: Cell, a: Draft, o: ObservationWrite, q: QualityWrite)
    requires a.observations == [o] && a.qualities == [q]
    requires ValidObservation(WriteOf(plan, a), o) && ValidQuality(WriteOf(plan, a), q) && IdOf(q.key) == IdOf(KeyOf(plan, c.inst, c.tf))
    ensures FineQualities(plan, [c], a)
  {
    assert [c][0] == c;
  }

  lemma FineRaise(plan: Plan, c: Cell, t: Tables, a: Draft, latest: string)
    requires WellFormedPlan(plan) && !Blank(latest)
    requires a.watermarks == [] ||
             (a.watermarks == [WatermarkWrite(KeyOf(plan, c.inst, c.tf), latest, None, plan.runId)] &&
              !Suppressed(StoredWatermark(t, KeyOf(plan, c.inst, c.tf)), latest))
    ensures FineWatermarks(plan, [c], t, a)
  {
    hide StrLess, Blank, AllReady, IsSha256;
    assert [c][0] == c;
    assert forall i :: 0 <= i < |a.watermarks| ==> a.watermarks[i] == a.watermarks[0];
  }

  lemma FineDerived(plan: Plan, c: Cell, a: Draft, derived: bool, x: TransformWrite)
    requires ValidTransform(WriteOf(plan, a), x) && TransformIdOf(x) == NeededTransform(KeyOf(plan, c.inst, c.tf))
    requires forall y :: y in a.candles ==> y.derived == derived && y.key == KeyOf(plan, c.inst, c.tf)
    requires a.transforms == [] || a.transforms == [x]
    requires derived && a.candles != [] ==> a.transforms == [x]
    ensures FineTransforms(plan, [c], a)
  {
    assert [c][0] == c;
    var w := WriteOf(plan, a);
    assert a.transforms != [] ==> w.transforms[0] == x;
  }

  lemma NothingDerived(plan: Plan, c: Cell, a: Draft)
    requires forall y :: y in a.candles ==> !y.derived
    requires a.transforms == []
    ensures FineTransforms(plan, [c], a)
  {
  }

  lemma FineFetched(plan: Plan, c: Cell, t: Tables, n: nat, start: Option<string>, fetch: Fetch)
    requires c.inst.calendar.Known() && IsMvp(c.tf) && fetch.Fetched? && SoundFetch(fetch)
    requires WellFormedPlan(plan) && TextOrNone(start) && plan.policy.Valid() && Clean(plan, c, fetch)
    ensures var a := FetchedCell(Asking(n), plan, c.inst, c.tf, start, fetch, StoredWatermark(t, KeyOf(plan, c.inst, c.tf)));
            Fine(plan, [c], t, a) && Even(a, 1, 1) && a.requests == n
  {
    hide Gate, Latest, Canon, KeyOf, FetchedCell, Blank, IsSha256, Spec.Known, FineCandles, FineQualities, FineTransforms, FineWatermarks,
      WellFormedPlan, EffectiveTransform, ValidTransform, ValidQuality, ValidObservation, QualityReceipt, ObservationOf, TransformReceipt,
      Suppressed, StoredWatermark, Candle.Valid, TransformIdOf, NeededTransform, SoundFetch, Policy.Valid;
    var key := KeyOf(plan, c.inst, c.tf);
    var x := EffectiveTransform(c.inst, c.tf, fetch.transform);
    var existing := StoredWatermark(t, key);
    var g := Gate(plan, c.inst, c.tf, fetch);
    FetchedLists(plan, c, n, start, fetch, existing);
    FetchedCounts(plan, c, n, start, fetch, existing);
    var a := FetchedCell(Asking(n), plan, c.inst, c.tf, start, fetch, existing);
    CandlesOfCell(plan, c, fetch);
    FineRows(plan, c, g.usable, Aggregated(x), a);
    KeyVersion(plan, c);
    GoodObservation(plan, key, start, fetch, g, a);
    GoodQuality(plan, key, fetch, g, a);
    FineReceipts(plan, c, a, ObservationOf(plan, key, start, fetch, g), QualityReceipt(plan, key, g.rows, g.verdict, fetch.issuesHash));
    if g.usable != [] && Aggregated(x) {
      var first := Canon(g.usable[0].stamp);
      CanonIsPlain(g.usable[0].stamp);
      TransformIff(plan, c, start, fetch, x.value, first, WriteOf(plan, a));
      FineDerived(plan, c, a, true, TransformReceipt(plan, c.inst, c.tf, start, x.value, fetch, first));
    } else {
      NothingDerived(plan, c, a);
    }
    if g.usable != [] {
      CanonIsPlain(Latest(g.usable));
      FineRaise(plan, c, t, a, Canon(Latest(g.usable)));
    } else {
      NoRaise(plan, c, t, a);
    }
  }

  lemma KeyVersion(plan: Plan, c: Cell)
    ensures KeyOf(plan, c.inst, c.tf).manifestVersion == plan.manifestVersion
  {
  }

  lemma NoRaise(plan: Plan, c: Cell, t: Tables, a: Draft)
    requires a.watermarks == []
    ensures FineWatermarks(plan, [c], t, a)
  {
  }

  /** The store takes the receipt of a transform exactly when the transform is well formed. */
  lemma TransformIff(plan: Plan, c: Cell, start: Option<string>, fetch: Fetch, x: Transform, first: string, w: RunWrite)
    requires fetch.Fetched? && SoundFetch(fetch) && WellFormedPlan(plan) && TextOrNone(start) && IsMvp(c.tf)
    requires x.partialCount.Number? && !Blank(first) && w.runId == plan.runId && w.manifestVersion == plan.manifestVersion
    ensures var y := TransformReceipt(plan, c.inst, c.tf, start, x, fetch, first);
            && (ValidTransform(w, y) <==> WellFormedTransform(x, c.tf))
            && TransformIdOf(y) == NeededTransform(KeyOf(plan, c.inst, c.tf))
  {
    hide IsSha256, Blank;
  }

  /** One receipt pair a request, one grade a cell, one watermark or suppression a promotion. */
  predicate Even(a: Draft, asked: nat, graded: nat) {
    && |a.observations| == |a.qualities| == asked
    && a.passed + a.partial + a.failed == graded
    && |a.watermarks| + a.regressions == a.promoted
  }

  /** The metadata the program supplies itself is well formed. */
  lemma EffectiveIsWellFormed(c: Cell, fetch: Fetch)
    requires fetch.Fetched? && (Aggregated(fetch.transform) ==> WellFormedTransform(fetch.transform.value, c.tf))
    ensures var x := EffectiveTransform(c.inst, c.tf, fetch.transform);
            Aggregated(x) ==> WellFormedTransform(x.value, c.tf)
  {
    hide IsSha256;
  }

  lemma NamesItself()
    ensures !Blank("upstream")
  {
  }

  lemma GoodObservation(plan: Plan, key: SeriesKey, start: Option<string>, fetch: Fetch, g: Gated, a: Draft)
    requires fetch.Fetched? && SoundFetch(fetch) && WellFormedPlan(plan) && TextOrNone(start)
    requires g.usable != [] ==> Representable(Latest(g.usable))
    requires key.manifestVersion == plan.manifestVersion
    ensures ValidObservation(WriteOf(plan, a), ObservationOf(plan, key, start, fetch, g))
  {
    hide Latest, Canon, IsSha256, Representable, AllReady, Blank;
    NamesItself();
    if g.usable != [] {
      CanonIsPlain(Latest(g.usable));
    }
  }

  lemma GoodQuality(plan: Plan, key: SeriesKey, fetch: Fetch, g: Gated, a: Draft)
    requires fetch.Fetched? && SoundFetch(fetch)
    requires key.manifestVersion == plan.manifestVersion && forall x :: x in g.rows ==> x.key == key
    ensures ValidQuality(WriteOf(plan, a), QualityReceipt(plan, key, g.rows, g.verdict, fetch.issuesHash))
    ensures QualityReceipt(plan, key, g.rows, g.verdict, fetch.issuesHash).key == key
  {
    hide IsSha256, AllReady, Count, Blank;
    assert g.rows != [] ==> g.rows[0] in g.rows;
  }

  lemma FineFailure(plan: Plan, c: Cell, t: Tables, n: nat, start: Option<string>, hash: Option<string>, latency: Option<real>,
                    receipt: string, invalid: nat, blocked: nat, status: CellStatus)
    requires WellFormedPlan(plan) && TextOrNone(start) && HashOrNone(hash) && NotNegative(latency) && receipt in {"blocked", "fail"}
    ensures var key := KeyOf(plan, c.inst, c.tf);
            var a := FailCell(Asking(n), plan, key, start, hash, latency, BlockedQuality(plan, key, receipt, invalid, blocked), status);
            Fine(plan, [c], t, a) && Even(a, 1, 1) && a.requests == n
  {
    hide FineCandles, FineTransforms, FineWatermarks, FineQualities, IsSha256, Blank, AllReady;
    NamesItself();
    var key := KeyOf(plan, c.inst, c.tf);
    var q := BlockedQuality(plan, key, receipt, invalid, blocked);
    var a := FailCell(Asking(n), plan, key, start, hash, latency, q, status);
    FineRows(plan, c, [], false, a);
    FineReceipts(plan, c, a, FailedObservation(plan, key, start, hash, latency), q);
    NothingDerived(plan, c, a);
    NoRaise(plan, c, t, a);
  }

  lemma FineNothing(plan: Plan, cells: seq<Cell>, t: Tables, a: Draft)
    requires a.candles == [] && a.observations == [] && a.qualities == [] && a.transforms == [] && a.watermarks == []
    ensures Fine(plan, cells, t, a)
  {
  }

  lemma FineCell(plan: Plan, c: Cell, t: Tables, n: nat, start: Option<string>, fetch: Fetch)
    requires c.inst.calendar.Known() && IsMvp(c.tf) && SoundFetch(fetch) && WellFormedPlan(plan) && TextOrNone(start)
    requires Requests(Asking(n), plan, c.inst, c.tf) ==> Clean(plan, c, fetch)
    ensures var a := ProcessCell(Asking(n), plan, c.inst, c.tf, start, fetch, StoredWatermark(t, KeyOf(plan, c.inst, c.tf)));
            var asked := One(Requests(Asking(n), plan, c.inst, c.tf));
            Fine(plan, [c], t, a) && Even(a, asked, One(Required(c))) && a.requests == n + asked
  {
    hide FetchedCell, FailCell, Fine, WellFormedPlan, IsSha256, BlockedQuality, Spec.Known, IsMvp, StoredWatermark, Clean, Policy.Valid;
    if Requests(Asking(n), plan, c.inst, c.tf) {
      match fetch {
        case NoAdapter =>
          FineFailure(plan, c, t, n + 1, start, None, None, "blocked", 0, 1, Unavailable);
        case NotEntitled(hash, latency) =>
          FineFailure(plan, c, t, n + 1, start, hash, latency, "blocked", 0, 1, BlockedForEntitlement);
        case ProviderFailed(hash, latency) =>
          FineFailure(plan, c, t, n + 1, start, hash, latency, "fail", 0, 1, ProviderError);
        case Fetched(_, _, hash, _, _, _, latency) =>
          FineFailure(plan, c, t, n + 1, start, hash, latency, "fail", 1, 0, MalformedCell);
          if plan.policy.Valid() {
            FineFetched(plan, c, t, n + 1, start, fetch);
          }
      }
    } else {
      FineNothing(plan, [c], t, ProcessCell(Asking(n), plan, c.inst, c.tf, start, fetch, StoredWatermark(t, KeyOf(plan, c.inst, c.tf))));
    }
  }

  // ----- the whole run -----

  lemma JoinFine(plan: Plan, cells: seq<Cell>, c: Cell, t: Tables, d: Draft, a: Draft)
    requires Fine(plan, cells, t, d) && Fine(plan, [c], t, a) && NewCell(cells, c)
    ensures Fine(plan, cells + [c], t, Joined(d, a))
  {
    hide FineCandles, FineQualities, FineTransforms, FineWatermarks;
    JoinCandles(plan, cells, c, d, a);
    JoinQualities(plan, cells, c, d, a);
    JoinTransforms(plan, cells, c, d, a);
    JoinWatermarks(plan, cells, c, t, d, a);
  }

  lemma StartIsText(plan: Plan, tf: Timeframe, watermark: Option<string>)
    requires IsMvp(tf) && WellFormedPlan(plan)
    ensures var s := RequestStart(plan, tf, watermark);
            s.Ok? ==> TextOrNone(s.value)
  {
    hide Canon, Representable, ParseIso, Blank, IsSha256;
    var s := RequestStart(plan, tf, watermark);
    if s.Ok? && s.value != plan.historyStart {
      var at :| Representable(at) && s.value == Some(Canon(at));
      CanonIsPlain(at);
    }
  }

  /** The next cell keeps a run fine and its counters even. */
  lemma OneMoreFine(plan: Plan, cells: seq<Cell>, c: Cell, t: Tables, d: Draft, fetch: Fetch, after: Draft, required: nat, more: nat)
    requires c.inst.calendar.Known() && IsMvp(c.tf) && more == required + One(Required(c)) && AndThen(Ok(d), plan, c, fetch, t) == Ok(after)
    requires SoundFetch(fetch) && WellFormedPlan(plan) && NewCell(cells, c)
    requires Requests(d, plan, c.inst, c.tf) ==> Clean(plan, c, fetch)
    requires Fine(plan, cells, t, d) && Even(d, d.requests, required) && d.requests == WithinBudget(plan.rateBudget, required)
    ensures Fine(plan, cells + [c], t, after) && Even(after, after.requests, more) && after.requests == WithinBudget(plan.rateBudget, more)
  {
    hide Fine, WellFormedPlan, SoundFetch, RequestStart, ProcessCell, Survives, KeyOf, NewCell, Clean, Spec.Known, IsMvp;
    var watermark := StoredWatermark(t, KeyOf(plan, c.inst, c.tf));
    var s := RequestStart(plan, c.tf, watermark);
    StartIsText(plan, c.tf, watermark);
    var start := if Requests(d, plan, c.inst, c.tf) then s.value else None;
    CellJoins(d, plan, c.inst, c.tf, start, fetch, watermark);
    FineCell(plan, c, t, d.requests, start, fetch);
    JoinFine(plan, cells, c, t, d, ProcessCell(Asking(d.requests), plan, c.inst, c.tf, start, fetch, watermark));
  }

  /**
   What a run over distinct cells assembles: every list meets the store's rules; one observation and
   one quality receipt per request; requests are the required cells as far as the budget goes; grades
   sum to the required cells; raised and suppressed watermarks sum to the promoted cells.
   */
  lemma {:induction false} Assembled(plan: Plan, cells: seq<Cell>, venue: Venue, t: Tables)
    requires GoodCells(cells) && DistinctCells(cells) && WellFormedPlan(plan) && SoundVenue(cells, venue) && CleanRun(plan, cells, venue)
    requires RunCells(plan, cells, venue, t).Ok?
    ensures var d := RunCells(plan, cells, venue, t).value;
            && Fine(plan, cells, t, d) && Even(d, d.requests, RequiredCells(cells))
            && d.requests == WithinBudget(plan.rateBudget, RequiredCells(cells))
  {
    hide Fine, WellFormedPlan, SoundFetch, AndThen, Even, WithinBudget, Required, SameCell, Clean, CleanRun, Requests, Asked;
    if cells == [] {
      NothingAssembled(plan, t);
    } else {
      var n := |cells| - 1;
      StuckCell(plan, cells, venue, t);
      CleanSplit(plan, cells, venue);
      Assembled(plan, cells[..n], venue, t);
      AskedIff(plan, cells, n, RunCells(plan, cells[..n], venue, t).value);
      assert cells == cells[..n] + [cells[n]];
      OneMoreFine(plan, cells[..n], cells[n], t, RunCells(plan, cells[..n], venue, t).value, venue(n), RunCells(plan, cells, venue, t).value,
                  RequiredCells(cells[..n]), RequiredCells(cells));
    }
  }

  /** With the requests counted so, the next cell is asked exactly when the run asks it. */
  lemma AskedIff(plan: Plan, cells: seq<Cell>, i: nat, d: Draft)
    requires i < |cells| && d.requests == WithinBudget(plan.rateBudget, RequiredCells(cells[..i]))
    ensures Requests(d, plan, cells[i].inst, cells[i].tf) <==> Asked(plan, cells, i)
  {
    hide RequiredCells;
  }

  lemma NothingAssembled(plan: Plan, t: Tables)
    ensures Fine(plan, [], t, NEW_DRAFT) && Even(NEW_DRAFT, 0, 0) && WithinBudget(plan.rateBudget, 0) == 0
  {
    FineNothing(plan, [], t, NEW_DRAFT);
  }

  lemma StuckCell(plan: Plan, cells: seq<Cell>, venue: Venue, t: Tables)
    requires GoodCells(cells) && cells != [] && RunCells(plan, cells, venue, t).Ok?
    ensures RunCells(plan, cells[..|cells| - 1], venue, t).Ok?
  {
    hide CellStep;
  }

  lemma FineIsAccepted(plan: Plan, cells: seq<Cell>, t: Tables, d: Draft)
    requires WellFormedPlan(plan) && Fine(plan, cells, t, d) && plan.runId !in t.runs
    ensures Decide(t, WriteOf(plan, d), NoFault) == Accept
  {
    hide ValidCandles, ValidObservations, ValidQualities, ValidTransforms, DerivedCovered, ValidWatermarks, MovesBackwards, Blank, IsSha256,
      KeyIn, Rows;
  }

  predicate DistinctInstruments(insts: seq<Instrument>) {
    forall i, j :: 0 <= i < j < |insts| ==> insts[i].instrumentId != insts[j].instrumentId
  }

  predicate DistinctTimeframes(tfs: seq<Timeframe>) {
    forall i, j :: 0 <= i < j < |tfs| ==> tfs[i] != tfs[j]
  }

  lemma {:induction false} CellOrigins(insts: seq<Instrument>, tfs: seq<Timeframe>)
    ensures forall k :: 0 <= k < |CellsOf(insts, tfs)| ==> CellsOf(insts, tfs)[k].inst in insts
  {
    if insts != [] {
      CellOrigins(insts[..|insts| - 1], tfs);
    }
  }

  lemma {:induction false} CellsAreDistinct(insts: seq<Instrument>, tfs: seq<Timeframe>)
    requires DistinctInstruments(insts) && DistinctTimeframes(tfs)
    ensures DistinctCells(CellsOf(insts, tfs))
  {
    if insts != [] {
      var n := |insts| - 1;
      var first, row := CellsOf(insts[..n], tfs), RowOf(insts[n], tfs);
      CellsAreDistinct(insts[..n], tfs);
      CellOrigins(insts[..n], tfs);
      assert forall k :: 0 <= k < |first| ==> first[k].inst.instrumentId != insts[n].instrumentId;
    }
  }
}
