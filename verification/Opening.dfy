/**
 A worked answer: an A-share cell of 15m bars asked ten minutes after the opening, whose adapter
 returns yesterday's last bar, closed, and the opening bar, still forming.
 */
module Opening {
  import opened Results
  import opened Timestamps
  import opened Spellings
  import opened Storage
  import opened Calendar
  import opened Quality
  import opened RunWrites
  import opened Store
  import opened Ingestion
  import opened Assembly
  import opened Acceptance
  import opened Promotion

  const SHANGHAI: Spec := SpecOf(CnA, 8 * HOUR)

  const SHARE: Instrument :=
    Instrument("cn-1", "600000", "600000.SS", "eastmoney_free", "a_share", "raw", SHANGHAI, Traded, [M15], [], [], true)

  /** Asked at 09:40 of a local day, with an opening buffer of fifteen minutes and no bad row allowed. */
  function PlanAt(day: int): Plan {
    Plan("run", "v1", seq(64, _ => '0'), "start", Instant(SHANGHAI, day, Clock(9, 40)), "end", None, false, 3, None, Policy(15, 0.0))
  }

  /** A weekday the program can date, with a day before it. */
  predicate OpeningDay(day: int) {
    1 <= day < LAST_DAY && day % 7 < 5
  }

  function LastBar(day: int): int {
    Instant(SHANGHAI, day - 1, Clock(14, 45))
  }

  function FirstBar(day: int): int {
    Instant(SHANGHAI, day, Clock(9, 30))
  }

  function PlainRow(t: int): RawRow
    requires Representable(t)
  {
    RawRow(Some(Canon(t)), 1.0, 1.0, 1.0, 1.0, Some(1.0), None)
  }

  function PlainCandle(key: SeriesKey, derived: bool, t: int): Candle {
    Candle(key, t, 1.0, 1.0, 1.0, 1.0, Some(1.0), None, Traded, derived, None)
  }

  function Answer(day: int, transform: Option<Transform>, hash: string): (r: Fetch)
    requires OpeningDay(day)
    ensures r.Fetched?
  {
    Fetched([PlainRow(LastBar(day)), PlainRow(FirstBar(day))], transform, None, hash, hash, hash, None)
  }

  /** An adapter that answers every cell alike. */
  function Always(f: Fetch): Venue {
    _ => f
  }

  // ----- reading the rows -----

  lemma ReadsPlain(key: SeriesKey, derived: bool, t: int)
    requires IsMvp(key.timeframe) && Representable(t)
    ensures MakeCandle(key, Traded, derived, PlainRow(t)) == Some(PlainCandle(key, derived, t))
  {
    hide Canon, ParseIso, Representable, Strip, ReplaceZ, Blank;
    CanonIsPlain(t);
    ParseCanon(t);
    PlainReplace(t);
  }

  lemma PlainReplace(t: int)
    requires Representable(t)
    ensures ReplaceZ(Canon(t)) == Canon(t)
  {
    CanonIsPlain(t);
  }

  lemma ReadsTwo(key: SeriesKey, derived: bool, a: int, b: int)
    requires IsMvp(key.timeframe) && Representable(a) && Representable(b) && a != b
    ensures Convert(key, Traded, derived, [PlainRow(a), PlainRow(b)]) ==
            Converted([PlainCandle(key, derived, a), PlainCandle(key, derived, b)], [])
  {
    hide MakeCandle, Canon, Representable;
    ReadsPlain(key, derived, a);
    ReadsPlain(key, derived, b);
    var raws := [PlainRow(a), PlainRow(b)];
    assert raws[..1] == [PlainRow(a)] && raws[..1][..0] == [];
    assert Convert(key, Traded, derived, raws[..1]) == Converted([PlainCandle(key, derived, a)], []);
  }

  // ----- grading them -----

  /** Two rows in order, both in session, the second still forming: the one issue is that it forms. */
  lemma FormingIsTheIssue(s: seq<Candle>, tf: Timeframe, cal: Spec, cutoff: int)
    requires cal.Known() && IsMvp(tf) && |s| == 2 && s[0].stamp < s[1].stamp && s[0].key == s[1].key
    requires WellPlaced(cal, tf, s[0].stamp) && WellPlaced(cal, tf, s[1].stamp)
    requires Closed(cal, tf, cutoff, s[0].stamp) && !Closed(cal, tf, cutoff, s[1].stamp)
    ensures AllIssues(s, tf, cal, cutoff, []) == [Issue(FormingBar, At(s[1].stamp))]
  {
    hide WellPlaced, Closed, SequenceIssues;
    SequenceClean(s);
    assert s[..1] == [s[0]] && [s[0]][..0] == [];
    assert RowIssues(cal, tf, cutoff, s[..1]) == [];
    assert ClosedStamps(cal, tf, cutoff, s[..1]) == [s[0].stamp];
    assert ClosedStamps(cal, tf, cutoff, s) == [s[0].stamp];
  }

  /** The bars lie in session; yesterday's is closed at 09:40 and today's closes at 09:45; the buffer lasts until then. */
  lemma OpeningTimes(day: int)
    requires OpeningDay(day)
    ensures var now := PlanAt(day).now;
            && LastBar(day) < FirstBar(day) && Representable(LastBar(day)) && Representable(FirstBar(day))
            && WellPlaced(SHANGHAI, M15, LastBar(day)) && WellPlaced(SHANGHAI, M15, FirstBar(day))
            && Closed(SHANGHAI, M15, now, LastBar(day)) && !Closed(SHANGHAI, M15, now, FirstBar(day))
            && BufferActive(SHANGHAI, M15, now, PlanAt(day).policy)
  {
    OpeningClock(day - 1, Clock(14, 45), 1);
    OpeningClock(day, Clock(9, 30), 0);
    assert LocalDay(SHANGHAI, PlanAt(day).now) == day && TimeOfDay(SHANGHAI, PlanAt(day).now) == Clock(9, 40);
  }

  lemma OpeningClock(day: int, tod: int, w: nat)
    requires w < 2 && SHANGHAI.sessions[w].open <= tod < SHANGHAI.sessions[w].close && OnQuarter(tod)
    ensures InsideSession(SHANGHAI, Instant(SHANGHAI, day, tod))
  {
    assert TimeOfDay(SHANGHAI, Instant(SHANGHAI, day, tod)) == tod;
  }

  lemma FormingIsPartial(rows: nat)
    requires rows > 0
    ensures forall at :: GradeOf([Issue(FormingBar, at)], rows, true, 0.0) == Partial
  {
    forall at
      ensures GradeOf([Issue(FormingBar, at)], rows, true, 0.0) == Partial
    {
      var issues := [Issue(FormingBar, at)];
      assert issues[..0] == [];
      assert Count(issues, Blocking(true)) == 0 && Count(issues, BAD_ROW) == 0 && Count(issues, {Gap}) == 0;
    }
  }

  lemma UsesFirst(s: seq<Candle>)
    requires |s| == 2 && s[0].stamp != s[1].stamp
    ensures UsableRows(s, [Issue(FormingBar, At(s[1].stamp))]) == [s[0]]
  {
    var issues := [Issue(FormingBar, At(s[1].stamp))];
    assert issues[0] in issues && Excluded(issues, s[1].stamp) && !Excluded(issues, s[0].stamp);
    assert s[..1] == [s[0]] && [s[0]][..0] == [];
    assert UsableRows(s[..1], issues) == [s[0]];
  }

  /** The gate of the worked answer: one issue, graded partial, yesterday's bar usable. */
  lemma OpeningGate(day: int, transform: Option<Transform>, hash: string)
    requires OpeningDay(day)
    ensures var g, key := Gate(PlanAt(day), SHARE, M15, Answer(day, transform, hash)), KeyOf(PlanAt(day), SHARE, M15);
            && g.verdict.grade == Partial && g.verdict.issues == [Issue(FormingBar, At(FirstBar(day)))]
            && g.usable == [PlainCandle(key, Aggregated(transform), LastBar(day))]
  {
    hide Convert, AllIssues, UsableRows, WellPlaced, Closed, BufferActive, Canon, Representable, Blocking, TooManyBadRows, ClosedStamps, GradeOf,
      LastBar, FirstBar;
    var plan := PlanAt(day);
    var key, derived := KeyOf(plan, SHARE, M15), Aggregated(transform);
    var rows := [PlainCandle(key, derived, LastBar(day)), PlainCandle(key, derived, FirstBar(day))];
    OpeningTimes(day);
    ReadsTwo(key, derived, LastBar(day), FirstBar(day));
    FormingIsTheIssue(rows, M15, SHANGHAI, plan.now);
    FormingIsPartial(2);
    UsesFirst(rows);
  }

  lemma ShareIsAsked(day: int)
    ensures Requests(NEW_DRAFT, PlanAt(day), SHARE, M15) && PlanAt(day).policy.Valid() && SHARE.calendar.Known()
    ensures StoredWatermark(EMPTY, KeyOf(PlanAt(day), SHARE, M15)) == None && PlanAt(day).historyStart == None
  {
  }

  /** In the opening buffer a cell that is only partial enters the draft: it is not passes alone that are promoted. */
  lemma PartialIsPromoted(day: int, hash: string, start: Option<string>)
    requires OpeningDay(day)
    ensures var plan, answer := PlanAt(day), Answer(day, None, hash);
            && Gate(plan, SHARE, M15, answer).verdict.grade == Partial
            && ProcessCell(NEW_DRAFT, plan, SHARE, M15, start, answer, None).candles == [PlainCandle(KeyOf(plan, SHARE, M15), false, LastBar(day))]
  {
    hide Gate, ProcessCell, Tolerated, LastBar, FirstBar, PlanAt, Answer, Policy.Valid, Requests, Spec.Known;
    ShareIsAsked(day);
    OpeningGate(day, None, hash);
    GradeIff(PlanAt(day), SHARE, M15, Answer(day, None, hash));
    PromotesIff(NEW_DRAFT, PlanAt(day), SHARE, M15, start, Answer(day, None, hash), None);
  }

  /** The run gets through the worked answer. */
  lemma OpeningSurvives(day: int, transform: Option<Transform>, hash: string)
    requires OpeningDay(day) && (Aggregated(transform) ==> !transform.value.partialCount.Uncaught?)
    ensures Survives(PlanAt(day), SHARE, M15, Answer(day, transform, hash))
  {
    hide Convert, Assess, UsableRows, Canon, ParseIso, Strip, ReplaceZ, Blank;
    var plan, answer := PlanAt(day), Answer(day, transform, hash);
    var key, derived := KeyOf(plan, SHARE, M15), Aggregated(transform);
    OpeningTimes(day);
    ReadsTwo(key, derived, LastBar(day), FirstBar(day));
    RowInRange(LastBar(day));
    RowInRange(FirstBar(day));
    assert Gate(plan, SHARE, M15, answer).rows == [PlainCandle(key, derived, LastBar(day)), PlainCandle(key, derived, FirstBar(day))];
    assert LocalDay(SHANGHAI, plan.now) == day && TimeOfDay(SHANGHAI, plan.now) == Clock(9, 40);
  }

  lemma RowInRange(t: int)
    requires Representable(t)
    ensures !Undatable(PlainRow(t))
  {
    hide Canon, ParseIso, Representable, Strip, ReplaceZ, Blank;
    CanonIsPlain(t);
    ParseCanon(t);
    PlainReplace(t);
  }

  /** Metadata that names the timeframe asked for as the raw one. */
  const SELF_AGGREGATED: Transform := Transform(M15, true, "rule", None, None, Number(0))

  /** With such metadata the same answer is not clean, and a run of this one cell is turned back by an empty store. */
  lemma SelfAggregateIsRejected(day: int, hash: string)
    requires OpeningDay(day) && IsSha256(hash)
    ensures var plan, cells, answer := PlanAt(day), [Cell(SHARE, M15)], Answer(day, Some(SELF_AGGREGATED), hash);
            && GoodCells(cells) && !Clean(plan, cells[0], answer)
            && RunCells(plan, cells, Always(answer), EMPTY).Ok?
            && Decide(EMPTY, WriteOf(plan, RunCells(plan, cells, Always(answer), EMPTY).value), NoFault) != Accept
  {
    hide Gate, ProcessCell, Survives, LastBar, FirstBar, Canon, Decide, WellFormedPlan, IsSha256, WriteOf;
    var plan, cells, answer := PlanAt(day), [Cell(SHARE, M15)], Answer(day, Some(SELF_AGGREGATED), hash);
    OpeningGate(day, Some(SELF_AGGREGATED), hash);
    assert cells[..0] == [] && Asked(plan, cells, 0);
    assert !CleanRun(plan, cells, Always(answer));
    OpeningSurvives(day, Some(SELF_AGGREGATED), hash);
    NoCells(plan, Always(answer), EMPTY);
    CellsAcceptedIff(plan, cells, Always(answer), EMPTY);
  }

  // ----- a row without a UTC date -----

  function SpelledRow(a: int, offset: int, z: string): RawRow
    requires Representable(a + offset)
  {
    PlainRow(0).(timestamp := Some(Spelled(a, offset, z)))
  }

  /** A row whose local time has a date and whose UTC time has none. */
  lemma StrayRow(a: int, offset: int, z: string)
    requires ZoneText(z, offset) && Representable(a + offset) && !Representable(a)
    ensures Undatable(SpelledRow(a, offset, z))
  {
    hide ParseIso, Strip, ReplaceZ, Blank, Spelled, ParseZone, Canon;
    SpelledReads(a, offset, z);
    SpelledIsStripped(a, offset, z);
  }

  /** The worked answer with one more row. */
  function StrayAnswer(day: int, hash: string, stray: RawRow): Fetch
    requires OpeningDay(day)
  {
    Fetched([PlainRow(LastBar(day)), PlainRow(FirstBar(day)), stray], None, None, hash, hash, hash, None)
  }

  lemma StrayAnswerStops(day: int, hash: string, stray: RawRow)
    requires OpeningDay(day) && IsSha256(hash) && Undatable(stray)
    ensures !Survives(PlanAt(day), SHARE, M15, StrayAnswer(day, hash, stray))
    ensures SoundFetch(StrayAnswer(day, hash, stray)) && WellFormedAnswer(Cell(SHARE, M15), StrayAnswer(day, hash, stray))
  {
    hide Gate, Fits, Undatable, PlainRow, LastBar, FirstBar, IsSha256;
    assert StrayAnswer(day, hash, stray).rows[2] == stray;
  }

  /** A run of the one cell over an empty store. */
  function OneCellRun(day: int, answer: Fetch): Result<Draft, PlanError> {
    RunCells(PlanAt(day), [Cell(SHARE, M15)], Always(answer), EMPTY)
  }

  /** A run of this one cell over an empty store stops exactly when the answer stops it. */
  lemma OneCell(day: int, answer: Fetch)
    ensures var r := OneCellRun(day, answer);
            if Survives(PlanAt(day), SHARE, M15, answer) then r.Ok? else r == Err(Crashed)
  {
    hide ProcessCell, Survives, PlanAt, Requests, KeyOf, Spec.Known;
    var cells := [Cell(SHARE, M15)];
    assert cells[..0] == [];
    ShareIsAsked(day);
    NoCells(PlanAt(day), Always(answer), EMPTY);
  }

  /**
   One row whose UTC time has no date ends a run that would have been submitted, though its metadata are
   well formed: no handler catches the overflow.
   */
  lemma StrayRowEndsRun(day: int, hash: string, a: int, offset: int, z: string)
    requires OpeningDay(day) && IsSha256(hash) && ZoneText(z, offset) && Representable(a + offset) && !Representable(a)
    ensures var stray := StrayAnswer(day, hash, SpelledRow(a, offset, z));
            && WellFormedAnswer(Cell(SHARE, M15), stray) && SoundFetch(stray)
            && OneCellRun(day, Answer(day, None, hash)).Ok?
            && OneCellRun(day, stray) == Err(Crashed)
  {
    hide Survives, LastBar, FirstBar, PlanAt, Answer, IsSha256, StrayAnswer, OneCellRun, SpelledRow, Undatable, SoundFetch,
      WellFormedAnswer;
    StrayRow(a, offset, z);
    StrayAnswerStops(day, hash, SpelledRow(a, offset, z));
    OpeningSurvives(day, None, hash);
    OneCell(day, Answer(day, None, hash));
    OneCell(day, StrayAnswer(day, hash, SpelledRow(a, offset, z)));
  }

  /** Such a row: the first midnight of year 1, an hour east of Greenwich. */
  lemma StrayExists()
    ensures ZoneText("+01:00", HOUR) && Representable(-HOUR + HOUR) && !Representable(-HOUR)
  {
    HourZone();
  }
}
