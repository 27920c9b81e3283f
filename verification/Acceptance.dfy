/**
 When the store takes what a run assembles, and when a run gets as far as submitting it
 (src/kline/ingestion.py `run_once`, src/kline/store.py `commit_mvp_run`).
 */
module Acceptance {
  import opened Results
  import opened Timestamps
  import opened Storage
  import opened Calendar
  import opened Quality
  import opened RunWrites
  import opened Store
  import opened StoreHistory
  import opened Ingestion
  import opened Protocol
  import opened Assembly

  // ----- how often a run asks -----

  lemma FetchedRequests(d: Draft, plan: Plan, inst: Instrument, tf: Timeframe, start: Option<string>, fetch: Fetch, existing: Option<string>)
    requires inst.calendar.Known() && IsMvp(tf) && fetch.Fetched?
    ensures FetchedCell(d, plan, inst, tf, start, fetch, existing).requests == d.requests
  {
    hide Gate, Latest, Canon, KeyOf, EffectiveTransform, QualityReceipt, TransformReceipt, LatestText, StatusOf, Suppresses, IsMvp, Spec.Known;
    GatedRows(plan, inst, tf, fetch);
  }

  lemma CellRequests(d: Draft, plan: Plan, c: Cell, start: Option<string>, fetch: Fetch, existing: Option<string>)
    requires c.inst.calendar.Known() && IsMvp(c.tf)
    ensures ProcessCell(d, plan, c.inst, c.tf, start, fetch, existing).requests == d.requests + One(Requests(d, plan, c.inst, c.tf))
  {
    hide FetchedCell, KeyOf, BlockedQuality, FailedObservation, IsMvp, Spec.Known, Policy.Valid;
    if fetch.Fetched? {
      FetchedRequests(d.(requests := d.requests + 1), plan, c.inst, c.tf, start, fetch, existing);
    }
  }

  lemma StepRequests(d: Draft, plan: Plan, c: Cell, fetch: Fetch, t: Tables)
    requires c.inst.calendar.Known() && IsMvp(c.tf)
    ensures var s := CellStep(d, plan, c.inst, c.tf, fetch, t);
            s.Ok? ==> s.value.requests == d.requests + One(Requests(d, plan, c.inst, c.tf))
  {
    hide ProcessCell, Survives, RequestStart, KeyOf, Requests;
    var watermark := StoredWatermark(t, KeyOf(plan, c.inst, c.tf));
    var start := RequestStart(plan, c.tf, watermark);
    CellRequests(d, plan, c, None, fetch, watermark);
    if start.Ok? {
      CellRequests(d, plan, c, start.value, fetch, watermark);
    }
  }

  /** Whatever it is answered, a run asks its required cells as far as the budget goes. */
  lemma {:induction false} RequestCount(plan: Plan, cells: seq<Cell>, venue: Venue, t: Tables)
    requires GoodCells(cells)
    ensures var r := RunCells(plan, cells, venue, t);
            r.Ok? ==> r.value.requests == WithinBudget(plan.rateBudget, RequiredCells(cells))
  {
    hide CellStep, Required;
    if cells != [] && RunCells(plan, cells, venue, t).Ok? {
      var n := |cells| - 1;
      RequestCount(plan, cells[..n], venue, t);
      var d := RunCells(plan, cells[..n], venue, t).value;
      StepRequests(d, plan, cells[n], venue(n), t);
      BudgetStep(plan, cells, n, d);
    }
  }

  lemma BudgetStep(plan: Plan, cells: seq<Cell>, i: nat, d: Draft)
    requires i < |cells| && d.requests == WithinBudget(plan.rateBudget, RequiredCells(cells[..i]))
    ensures d.requests + One(Requests(d, plan, cells[i].inst, cells[i].tf)) ==
            WithinBudget(plan.rateBudget, RequiredCells(cells[..i]) + One(Required(cells[i])))
  {
    hide RequiredCells;
  }

  // ----- a cell that spoils the run -----

  /** Two quality receipts of one series. */
  predicate Doubled(qualities: seq<QualityWrite>) {
    exists i, j :: 0 <= i < j < |qualities| && IdOf(qualities[i].key) == IdOf(qualities[j].key)
  }

  /** The store cannot take these receipts, whatever else the run brings. */
  predicate Spoiled(plan: Plan, d: Draft) {
    Doubled(d.qualities) || exists x :: x in d.transforms && !ValidTransform(WriteOf(plan, NEW_DRAFT), x)
  }

  lemma {:induction false} DoubledGrows(p: seq<QualityWrite>, q: seq<QualityWrite>)
    requires Doubled(p) || Doubled(q)
    ensures Doubled(p + q)
  {
    hide IdOf;
    var both := p + q;
    if Doubled(p) {
      var i, j :| 0 <= i < j < |p| && IdOf(p[i].key) == IdOf(p[j].key);
      assert both[i] == p[i] && both[j] == p[j];
    } else {
      var i, j :| 0 <= i < j < |q| && IdOf(q[i].key) == IdOf(q[j].key);
      assert both[|p| + i] == q[i] && both[|p| + j] == q[j];
    }
  }

  lemma SpoiledJoins(plan: Plan, d: Draft, a: Draft)
    requires Spoiled(plan, d) || Spoiled(plan, a)
    ensures Spoiled(plan, Joined(d, a))
  {
    hide ValidTransform, Doubled;
    if Doubled(d.qualities) || Doubled(a.qualities) {
      DoubledGrows(d.qualities, a.qualities);
    }
  }

  lemma SpoiledIsRejected(plan: Plan, d: Draft)
    requires Spoiled(plan, d)
    ensures Rejection(WriteOf(plan, d)).Some?
  {
    hide ValidHeader, ValidCandles, ValidObservations, DerivedCovered, ValidWatermarks, ValidEntitlements, ValidBackups, ValidQuality,
      ValidTransform;
    var w := WriteOf(plan, d);
    if x :| x in d.transforms && !ValidTransform(WriteOf(plan, NEW_DRAFT), x) {
      var i :| 0 <= i < |d.transforms| && d.transforms[i] == x;
      SameRunTransform(WriteOf(plan, NEW_DRAFT), w, x);
      assert !ValidTransform(w, w.transforms[i]);
    }
  }

  /** An answer that is not clean spoils its cell: two receipts of one series, or a transform receipt the store refuses. */
  lemma UncleanFetch(plan: Plan, c: Cell, n: nat, start: Option<string>, fetch: Fetch, existing: Option<string>)
    requires c.inst.calendar.Known() && IsMvp(c.tf) && fetch.Fetched? && SoundFetch(fetch) && WellFormedPlan(plan) && TextOrNone(start)
    requires plan.policy.Valid() && !Clean(plan, c, fetch)
    ensures Spoiled(plan, FetchedCell(Asking(n), plan, c.inst, c.tf, start, fetch, existing))
  {
    hide Gate, Latest, Canon, KeyOf, FetchedCell, Spec.Known, EffectiveTransform, TransformReceipt, ValidTransform, WellFormedTransform,
      WellFormedPlan, SoundFetch, QualityReceipt, LatestText, IsMvp, Policy.Valid;
    var g, x := Gate(plan, c.inst, c.tf, fetch), EffectiveTransform(c.inst, c.tf, fetch.transform).value;
    var a := FetchedCell(Asking(n), plan, c.inst, c.tf, start, fetch, existing);
    if x.partialCount.Number? {
      FetchedLists(plan, c, n, start, fetch, existing);
      var first := Canon(g.usable[0].stamp);
      CanonIsPlain(g.usable[0].stamp);
      TransformIff(plan, c, start, fetch, x, first, WriteOf(plan, NEW_DRAFT));
      assert TransformReceipt(plan, c.inst, c.tf, start, x, fetch, first) in a.transforms;
    } else {
      UncountedFetch(plan, c, n, start, fetch, existing);
    }
  }

  /** A count of partial buckets that is no number leaves the graded receipt and a malformed one. */
  lemma UncountedFetch(plan: Plan, c: Cell, n: nat, start: Option<string>, fetch: Fetch, existing: Option<string>)
    requires c.inst.calendar.Known() && IsMvp(c.tf) && fetch.Fetched? && Gate(plan, c.inst, c.tf, fetch).usable != []
    requires var x := EffectiveTransform(c.inst, c.tf, fetch.transform); Aggregated(x) && !x.value.partialCount.Number?
    ensures var q := FetchedCell(Asking(n), plan, c.inst, c.tf, start, fetch, existing).qualities;
            |q| == 2 && q[0].key == q[1].key
  {
    hide Gate, Latest, Canon, KeyOf, EffectiveTransform, StatusOf, LatestText, Suppresses, IsMvp, Spec.Known;
    GatedRows(plan, c.inst, c.tf, fetch);
    var g := Gate(plan, c.inst, c.tf, fetch);
    assert g.rows != [] ==> g.rows[0] in g.rows;
  }

  lemma UncleanCell(plan: Plan, c: Cell, d: Draft, start: Option<string>, fetch: Fetch, existing: Option<string>)
    requires c.inst.calendar.Known() && IsMvp(c.tf) && SoundFetch(fetch) && WellFormedPlan(plan) && TextOrNone(start)
    requires Requests(d, plan, c.inst, c.tf) && !Clean(plan, c, fetch)
    ensures Spoiled(plan, ProcessCell(d, plan, c.inst, c.tf, start, fetch, existing))
  {
    hide FetchedCell, FailCell, KeyOf, SoundFetch, WellFormedPlan, Spoiled, Joined, Gate, Policy.Valid, IsMvp, Spec.Known, WellFormedTransform,
      EffectiveTransform;
    var asked := d.(requests := d.requests + 1);
    UncleanFetch(plan, c, asked.requests, start, fetch, existing);
    FetchedJoins(asked, plan, c.inst, c.tf, start, fetch, existing);
    SpoiledJoins(plan, asked, FetchedCell(Asking(asked.requests), plan, c.inst, c.tf, start, fetch, existing));
  }

  lemma UncleanStep(plan: Plan, c: Cell, d: Draft, fetch: Fetch, t: Tables)
    requires c.inst.calendar.Known() && IsMvp(c.tf) && SoundFetch(fetch) && WellFormedPlan(plan)
    requires CellStep(d, plan, c.inst, c.tf, fetch, t).Ok?
    requires Spoiled(plan, d) || (Requests(d, plan, c.inst, c.tf) && !Clean(plan, c, fetch))
    ensures Spoiled(plan, CellStep(d, plan, c.inst, c.tf, fetch, t).value)
  {
    hide ProcessCell, Survives, RequestStart, KeyOf, Spoiled, Joined, Clean, SoundFetch, WellFormedPlan, Requests, Spec.Known, IsMvp;
    var watermark := StoredWatermark(t, KeyOf(plan, c.inst, c.tf));
    var s := RequestStart(plan, c.tf, watermark);
    StartIsText(plan, c.tf, watermark);
    var start := if Requests(d, plan, c.inst, c.tf) then s.value else None;
    CellJoins(d, plan, c.inst, c.tf, start, fetch, watermark);
    if Spoiled(plan, d) {
      SpoiledJoins(plan, d, ProcessCell(Asking(d.requests), plan, c.inst, c.tf, start, fetch, watermark));
    } else {
      UncleanCell(plan, c, d, start, fetch, watermark);
    }
  }

  /** One answer that is not clean spoils the whole run. */
  lemma {:induction false} UncleanRun(plan: Plan, cells: seq<Cell>, venue: Venue, t: Tables)
    requires GoodCells(cells) && WellFormedPlan(plan) && SoundVenue(cells, venue) && !CleanRun(plan, cells, venue)
    requires RunCells(plan, cells, venue, t).Ok?
    ensures Spoiled(plan, RunCells(plan, cells, venue, t).value)
  {
    hide CellStep, Spoiled, Clean, CleanRun, Requests, Asked, SoundFetch, WellFormedPlan, WithinBudget, RequiredCells;
    if cells == [] {
      NoCellIsClean(plan, venue);
    } else {
      var n := |cells| - 1;
      var d := RunCells(plan, cells[..n], venue, t).value;
      StuckCell(plan, cells, venue, t);
      CleanSplit(plan, cells, venue);
      if !CleanRun(plan, cells[..n], venue) {
        UncleanRun(plan, cells[..n], venue, t);
      }
      RequestCount(plan, cells[..n], venue, t);
      AskedIff(plan, cells, n, d);
      UncleanStep(plan, cells[n], d, venue(n), t);
    }
  }

  lemma NoCellIsClean(plan: Plan, venue: Venue)
    ensures CleanRun(plan, [], venue)
  {
  }

  // ----- when the store takes the run -----

  lemma BadPlanIsRejected(plan: Plan, d: Draft, t: Tables)
    requires !WellFormedPlan(plan) || plan.runId in t.runs
    ensures Decide(t, WriteOf(plan, d), NoFault) != Accept
  {
    hide ValidCandles, ValidObservations, ValidQualities, ValidTransforms, DerivedCovered, ValidWatermarks, MovesBackwards, Blank, IsSha256,
      Rows, AllReady;
  }

  lemma RejectedIsNotAccepted(t: Tables, w: RunWrite)
    requires Rejection(w).Some?
    ensures Decide(t, w, NoFault) != Accept
  {
    hide Rejection;
  }

  /**
   Over distinct cells, with no commit in between, the store accepts what a run submits exactly when the
   plan's texts are there, its run id is new, and every answer the run asked for is clean.
   */
  lemma CellsAcceptedIff(plan: Plan, cells: seq<Cell>, venue: Venue, t: Tables)
    requires GoodCells(cells) && DistinctCells(cells) && SoundVenue(cells, venue) && RunCells(plan, cells, venue, t).Ok?
    ensures Decide(t, WriteOf(plan, RunCells(plan, cells, venue, t).value), NoFault) == Accept <==>
            WellFormedPlan(plan) && plan.runId !in t.runs && CleanRun(plan, cells, venue)
  {
    hide RunCells, Decide, WellFormedPlan, SoundVenue, CleanRun, Fine, Spoiled, WriteOf;
    var d := RunCells(plan, cells, venue, t).value;
    if !WellFormedPlan(plan) || plan.runId in t.runs {
      BadPlanIsRejected(plan, d, t);
    } else if CleanRun(plan, cells, venue) {
      Assembled(plan, cells, venue, t);
      FineIsAccepted(plan, cells, t, d);
    } else {
      UncleanRun(plan, cells, venue, t);
      SpoiledIsRejected(plan, d);
      RejectedIsNotAccepted(t, WriteOf(plan, d));
    }
  }

  /** The adapter says nothing of aggregation, or says it in a well-formed way. */
  predicate WellFormedAnswer(c: Cell, f: Fetch) {
    f.Fetched? && Aggregated(f.transform) ==> WellFormedTransform(f.transform.value, c.tf)
  }

  /** Adapters whose metadata are well formed give clean answers, whatever their rows. */
  lemma WellFormedRunIsClean(plan: Plan, cells: seq<Cell>, venue: Venue)
    requires GoodCells(cells) && forall i :: 0 <= i < |cells| ==> WellFormedAnswer(cells[i], venue(i))
    ensures CleanRun(plan, cells, venue)
  {
    hide Gate, Asked, WellFormedTransform, EffectiveTransform;
    forall i | 0 <= i < |cells|
      ensures Clean(plan, cells[i], venue(i))
    {
      assert WellFormedAnswer(cells[i], venue(i));
      if venue(i).Fetched? {
        EffectiveIsWellFormed(cells[i], venue(i));
      }
    }
  }

  // ----- when a run gets as far as submitting -----

  /** Re-reading the last bars before a stored watermark begins at an instant with a date. */
  predicate StartReaches(plan: Plan, tf: Timeframe, watermark: Option<string>)
    requires IsMvp(tf)
  {
    plan.forceHistory || watermark == None ||
    (ParseIso(watermark.value).Some? &&
     Representable(ParseIso(watermark.value).value - Interval(tf) * (if plan.overlapBars > 0 then plan.overlapBars else 0)))
  }

  /** An exact watermark is canonical, so it has no `Z` to replace. */
  lemma WatermarkIsPlain(t: Tables, x: SeriesId)
    requires WatermarksExact(t) && x in t.watermarks
    ensures ReplaceZ(t.watermarks[x].lastClosed) == t.watermarks[x].lastClosed
  {
    hide Canon, Representable, NotBefore, ReplaceZ;
    var id :| id in t.candles && id.series == x && Representable(id.stamp) && Canon(id.stamp) == t.watermarks[x].lastClosed;
    CanonIsPlain(id.stamp);
  }

  /** In a store whose watermarks are exact, a start is found exactly when the overlap stays after year 1. */
  lemma StartIff(plan: Plan, t: Tables, key: SeriesKey, tf: Timeframe)
    requires IsMvp(tf) && WatermarksExact(t)
    ensures RequestStart(plan, tf, StoredWatermark(t, key)).Ok? <==> StartReaches(plan, tf, StoredWatermark(t, key))
  {
    hide Canon, ParseIso, Representable, Interval, WatermarksExact, ReplaceZ;
    if IdOf(key) in t.watermarks {
      WatermarkIsPlain(t, IdOf(key));
    }
  }

  /** Every cell the run asks finds its start. */
  predicate StartsReach(plan: Plan, cells: seq<Cell>, t: Tables)
    requires GoodCells(cells)
  {
    forall i :: 0 <= i < |cells| && Asked(plan, cells, i) ==>
      StartReaches(plan, cells[i].tf, StoredWatermark(t, KeyOf(plan, cells[i].inst, cells[i].tf)))
  }

  lemma StartsSplit(plan: Plan, cells: seq<Cell>, t: Tables)
    requires GoodCells(cells) && cells != []
    ensures var n := |cells| - 1;
            StartsReach(plan, cells, t) <==>
            StartsReach(plan, cells[..n], t) &&
            (Asked(plan, cells, n) ==> StartReaches(plan, cells[n].tf, StoredWatermark(t, KeyOf(plan, cells[n].inst, cells[n].tf))))
  {
    hide StartReaches, Required, RequiredCells, KeyOf;
    var n := |cells| - 1;
    var p := cells[..n];
    assert forall i :: 0 <= i < n ==> p[i] == cells[i] && p[..i] == cells[..i];
    assert forall i :: 0 <= i < n ==> (Asked(plan, cells, i) <==> Asked(plan, p, i));
  }

  /** The run gets through every answer it is given. */
  predicate AnswersSurvive(plan: Plan, cells: seq<Cell>, venue: Venue)
    requires GoodCells(cells)
  {
    forall i :: 0 <= i < |cells| && Asked(plan, cells, i) ==> Survives(plan, cells[i].inst, cells[i].tf, venue(i))
  }

  lemma SurviveSplit(plan: Plan, cells: seq<Cell>, venue: Venue)
    requires GoodCells(cells) && cells != []
    ensures var n := |cells| - 1;
            AnswersSurvive(plan, cells, venue) <==>
            AnswersSurvive(plan, cells[..n], venue) &&
            (Asked(plan, cells, n) ==> Survives(plan, cells[n].inst, cells[n].tf, venue(n)))
  {
    hide Survives, Required, RequiredCells;
    var n := |cells| - 1;
    var p := cells[..n];
    assert forall i :: 0 <= i < n ==> p[i] == cells[i] && p[..i] == cells[..i];
    assert forall i :: 0 <= i < n ==> (Asked(plan, cells, i) <==> Asked(plan, p, i));
  }

  /** With exact watermarks a run reaches its commit exactly when every cell it asks finds its start and no answer ends it. */
  lemma {:induction false} RunSubmitsIff(plan: Plan, cells: seq<Cell>, venue: Venue, t: Tables)
    requires GoodCells(cells) && WatermarksExact(t)
    ensures RunCells(plan, cells, venue, t).Ok? <==> StartsReach(plan, cells, t) && AnswersSurvive(plan, cells, venue)
  {
    hide StartReaches, StartsReach, AnswersSurvive, Survives, WatermarksExact, ProcessCell, RequestStart, Requests, Asked, KeyOf, WithinBudget,
      RequiredCells;
    if cells == [] {
      NoStarts(plan, venue, t);
    } else {
      var n := |cells| - 1;
      RunSubmitsIff(plan, cells[..n], venue, t);
      StartsSplit(plan, cells, t);
      SurviveSplit(plan, cells, venue);
      StartIff(plan, t, KeyOf(plan, cells[n].inst, cells[n].tf), cells[n].tf);
      if RunCells(plan, cells[..n], venue, t).Ok? {
        RequestCount(plan, cells[..n], venue, t);
        AskedIff(plan, cells, n, RunCells(plan, cells[..n], venue, t).value);
      }
    }
  }

  lemma NoStarts(plan: Plan, venue: Venue, t: Tables)
    ensures StartsReach(plan, [], t) && AnswersSurvive(plan, [], venue)
  {
  }

  // ----- the whole run -----

  /** What a run comes to when the store accepts it. */
  predicate Settled(plan: Plan, cells: seq<Cell>, d: Draft) {
    && |d.observations| == |d.qualities| == d.requests == WithinBudget(plan.rateBudget, RequiredCells(cells))
    && d.passed + d.partial + d.failed == RequiredCells(cells)
    && |d.watermarks| + d.regressions == d.promoted
  }

  ghost predicate IsAccepted(plan: Plan, cells: seq<Cell>, venue: Venue, t: Tables)
    requires GoodCells(cells)
  {
    var drafted := RunCells(plan, cells, venue, t);
    drafted.Ok? && Decide(t, WriteOf(plan, drafted.value), NoFault) == Accept
  }

  /**
   From any reachable state, with distinct instruments and timeframes and no commit in between,
   `run_once` gets its run accepted exactly when the plan's texts are there, the run id is new, every
   cell it asks finds its start, and every answer is clean and leaves the run going.  An accepted run has one observation and one
   quality receipt a request, a grade for every required cell, and a watermark raised or suppressed for
   every promoted one.
   */
  lemma RunIsAcceptedIff(run: seq<System>, k: nat, plan: Plan, insts: seq<Instrument>, tfs: seq<Timeframe>, venue: Venue)
    requires Behaviour(run) && k < |run|
    requires KnownCalendars(insts) && MvpTimeframes(tfs) && DistinctInstruments(insts) && DistinctTimeframes(tfs)
    requires SoundVenue(CellsOf(insts, tfs), venue)
    ensures GoodCells(CellsOf(insts, tfs))
    ensures var t, cells := run[k].tables, CellsOf(insts, tfs);
            && (IsAccepted(plan, cells, venue, t) <==>
                  && WellFormedPlan(plan) && plan.runId !in t.runs && StartsReach(plan, cells, t)
                  && AnswersSurvive(plan, cells, venue) && CleanRun(plan, cells, venue))
            && (IsAccepted(plan, cells, venue, t) ==> Settled(plan, cells, RunCells(plan, cells, venue, t).value))
  {
    hide RunCells, Decide, WellFormedPlan, SoundVenue, CellsOf, CleanRun, StartsReach, AnswersSurvive, Behaviour, Sound, WatermarksExact, WithinBudget, Fine;
    CellsAreGood(insts, tfs);
    CellsAreDistinct(insts, tfs);
    AlwaysExact(run, k);
    var t, cells := run[k].tables, CellsOf(insts, tfs);
    RunSubmitsIff(plan, cells, venue, t);
    if RunCells(plan, cells, venue, t).Ok? {
      CellsAcceptedIff(plan, cells, venue, t);
      if IsAccepted(plan, cells, venue, t) {
        Assembled(plan, cells, venue, t);
      }
    }
  }
}
