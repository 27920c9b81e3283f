/**
 Many orchestrator runs over one store: fetches interleave in any order, commits are atomic.  In
 every reachable state a series has a watermark exactly when it has a candle, and the watermark is
 its greatest stored timestamp.
 */
module Protocol {
  import opened Results
  import opened Timestamps
  import opened Storage
  import opened Calendar
  import opened RunWrites
  import opened Store
  import opened StoreHistory
  import opened Ingestion

  /** A cell and what its adapter answered. */
  datatype Answered = Answered(inst: Instrument, tf: Timeframe, fetch: Fetch)

  datatype Session = Session(plan: Plan, draft: Draft, answered: seq<Answered>)

  datatype System = System(tables: Tables, sessions: map<nat, Session>)

  const INITIAL: System := System(EMPTY, map[])

  /** A run begins. */
  ghost predicate Begins(s: System, s': System, id: nat, plan: Plan) {
    id !in s.sessions && s' == s.(sessions := s.sessions[id := Session(plan, NEW_DRAFT, [])])
  }

  /**
   A run finishes one cell, of any instrument and timeframe, reading the stored watermark now; its
   request may have been sent at any earlier time, so its start is arbitrary.  A run that an answer ends
   takes no further step.
   */
  ghost predicate Fetches(s: System, s': System, id: nat, inst: Instrument, tf: Timeframe, start: Option<string>, fetch: Fetch)
    requires inst.calendar.Known() && IsMvp(tf)
  {
    id in s.sessions &&
    var x := s.sessions[id];
    var r := CellOutcome(x.draft, x.plan, inst, tf, start, fetch, StoredWatermark(s.tables, KeyOf(x.plan, inst, tf)));
    r.Ok? && s' == s.(sessions := s.sessions[id := Session(x.plan, r.value, x.answered + [Answered(inst, tf, fetch)])])
  }

  /** A run is submitted, for the first time or again; the store takes it or leaves everything as it is. */
  ghost predicate Commits(s: System, s': System, id: nat, at: string, fault: Fault) {
    && id in s.sessions && s'.sessions == s.sessions
    && var w := WriteOf(s.sessions[id].plan, s.sessions[id].draft);
       if Decide(s.tables, w, fault) == Accept then Applied(s.tables, w, at, s'.tables) else s'.tables == s.tables
  }

  ghost predicate FetchStep(s: System, s': System) {
    exists id, inst: Instrument, tf, start, fetch ::
      inst.calendar.Known() && IsMvp(tf) && Fetches(s, s', id, inst, tf, start, fetch)
  }

  ghost predicate Next(s: System, s': System) {
    || (exists id, plan :: Begins(s, s', id, plan))
    || FetchStep(s, s')
    || (exists id, at, fault :: Commits(s, s', id, at, fault))
  }

  ghost predicate Behaviour(run: seq<System>) {
    run != [] && run[0] == INITIAL && forall i :: 0 < i < |run| ==> Next(run[i - 1], run[i])
  }

  // ----- the invariants -----

  /** Some stored candle of the series carries the watermark's timestamp. */
  ghost predicate Attained(t: Tables, x: SeriesId, watermark: string) {
    exists id :: id in t.candles && id.series == x && Representable(id.stamp) && Canon(id.stamp) == watermark
  }

  /** A series has a watermark exactly when it has a candle, and it is the greatest stored timestamp. */
  ghost predicate WatermarksExact(t: Tables) {
    && (forall x :: x in t.watermarks ==> Attained(t, x, t.watermarks[x].lastClosed))
    && (forall id :: id in t.candles ==>
          Representable(id.stamp) && id.series in t.watermarks && NotBefore(t.watermarks[id.series].lastClosed, Canon(id.stamp)))
  }

  predicate OneReceiptEach(d: Draft) {
    forall i, j :: 0 <= i < j < |d.qualities| ==> IdOf(d.qualities[i].key) != IdOf(d.qualities[j].key)
  }

  predicate Graded(d: Draft, x: SeriesId) {
    exists i :: 0 <= i < |d.qualities| && IdOf(d.qualities[i].key) == x
  }

  /** The watermark is the newest of the draft's candles of its series. */
  predicate Tops(d: Draft, m: WatermarkWrite) {
    exists i :: 0 <= i < |d.candles| && IdOf(d.candles[i].key) == IdOf(m.key) && Representable(d.candles[i].stamp) &&
                Canon(d.candles[i].stamp) == m.lastClosed &&
                forall j :: 0 <= j < |d.candles| && IdOf(d.candles[j].key) == IdOf(m.key) ==> d.candles[j].stamp <= d.candles[i].stamp
  }

  predicate Raised(d: Draft, x: SeriesId) {
    exists i :: 0 <= i < |d.watermarks| && IdOf(d.watermarks[i].key) == x
  }

  /** The stored watermark of the candle's series is past it. */
  predicate Passed(t: Tables, c: Candle) {
    Representable(c.stamp) && IdOf(c.key) in t.watermarks && StrLess(Canon(c.stamp), t.watermarks[IdOf(c.key)].lastClosed)
  }

  ghost predicate CandlesCovered(t: Tables, d: Draft) {
    forall c :: c in d.candles ==>
      Representable(c.stamp) && Graded(d, IdOf(c.key)) && (Raised(d, IdOf(c.key)) || Passed(t, c))
  }

  /** What a draft that could still be accepted owes the store. */
  ghost predicate Sound(t: Tables, d: Draft) {
    OneReceiptEach(d) ==>
      && CandlesCovered(t, d)
      && (forall m :: m in d.watermarks ==> Graded(d, IdOf(m.key)) && Tops(d, m))
  }

  ghost predicate Invariant(s: System) {
    WatermarksExact(s.tables) && forall id :: id in s.sessions ==> Sound(s.tables, s.sessions[id].draft)
  }

  // ----- a cell keeps a draft sound -----

  /** The rows a fetched cell contributes: all of one series, under one watermark or under the stored one. */
  lemma CellRows(plan: Plan, inst: Instrument, tf: Timeframe, fetch: Fetch)
    requires inst.calendar.Known() && IsMvp(tf) && fetch.Fetched?
    ensures var g := Gate(plan, inst, tf, fetch);
            && (forall c :: c in g.usable ==> c.key == KeyOf(plan, inst, tf) && Representable(c.stamp))
            && (g.usable != [] ==>
                  && Representable(Latest(g.usable))
                  && (exists i :: 0 <= i < |g.usable| && g.usable[i].stamp == Latest(g.usable))
                  && (forall c :: c in g.usable ==> c.stamp <= Latest(g.usable)))
  {
    hide Gate, Canon;
    GatedRows(plan, inst, tf, fetch);
  }

  lemma KeptByTables(t: Tables, t': Tables, d: Draft)
    requires Sound(t, d) && WatermarksKept(t, t')
    ensures Sound(t', d)
  {
    hide Canon, Representable;
    forall c | c in d.candles && Passed(t, c)
      ensures Passed(t', c)
    {
      var was, now := t.watermarks[IdOf(c.key)].lastClosed, t'.watermarks[IdOf(c.key)].lastClosed;
      StrLessTotal(was, now);
      if StrLess(was, now) {
        StrLessTransitive(Canon(c.stamp), was, now);
      }
    }
  }

  /** A cell that adds no candle and no watermark. */
  lemma QuietCell(t: Tables, d: Draft, d': Draft)
    requires Sound(t, d) && OnlyReceipts(d, d')
    ensures Sound(t, d')
  {
    hide Canon, Representable, Passed;
    if OneReceiptEach(d') {
      assert OneReceiptEach(d);
      forall x | Graded(d, x)
        ensures Graded(d', x)
      {
        var i :| 0 <= i < |d.qualities| && IdOf(d.qualities[i].key) == x;
        assert d'.qualities[i] == d.qualities[i];
      }
      forall m | m in d.watermarks
        ensures Tops(d', m)
      {
        assert Tops(d, m);
      }
    }
  }

  /** A cell of a series not graded before that adds all its candles, under a watermark of their own or under the stored one. */
  lemma NewSeries(t: Tables, d: Draft, d': Draft, key: SeriesKey, added: seq<Candle>, top: Candle, raised: seq<WatermarkWrite>)
    requires Sound(t, d) && OneReceiptEach(d') && d.qualities <= d'.qualities
    requires !Graded(d, IdOf(key)) && Graded(d', IdOf(key))
    requires d'.candles == d.candles + added && d'.watermarks == d.watermarks + raised
    requires top in added && Representable(top.stamp)
    requires forall c :: c in added ==> c.key == key && Representable(c.stamp) && c.stamp <= top.stamp
    requires raised == [] ==> Passed(t, top)
    requires raised != [] ==> |raised| == 1 && raised[0].key == key && raised[0].lastClosed == Canon(top.stamp)
    ensures Sound(t, d')
  {
    hide Canon, Representable;
    assert OneReceiptEach(d);
    QualitiesGrow(d, d');
    forall c | c in d'.candles
      ensures Representable(c.stamp) && Graded(d', IdOf(c.key)) && (Raised(d', IdOf(c.key)) || Passed(t, c))
    {
      if c in added {
        AddedCovered(t, d, d', key, c, top, raised);
      } else {
        RaisedGrows(d, d', IdOf(c.key));
      }
    }
    forall m | m in d'.watermarks
      ensures Graded(d', IdOf(m.key)) && Tops(d', m)
    {
      if m in d.watermarks {
        TopsGrow(d, d', added, m);
      } else {
        NewTop(d, d', key, added, top, m);
      }
    }
  }

  lemma QualitiesGrow(d: Draft, d': Draft)
    requires d.qualities <= d'.qualities
    ensures forall x :: Graded(d, x) ==> Graded(d', x)
  {
    forall x | Graded(d, x)
      ensures Graded(d', x)
    {
      var i :| 0 <= i < |d.qualities| && IdOf(d.qualities[i].key) == x;
      assert d'.qualities[i] == d.qualities[i];
    }
  }

  lemma RaisedGrows(d: Draft, d': Draft, x: SeriesId)
    requires d.watermarks <= d'.watermarks
    ensures Raised(d, x) ==> Raised(d', x)
  {
    if Raised(d, x) {
      var i :| 0 <= i < |d.watermarks| && IdOf(d.watermarks[i].key) == x;
      assert d'.watermarks[i] == d.watermarks[i];
    }
  }

  lemma AddedCovered(t: Tables, d: Draft, d': Draft, key: SeriesKey, c: Candle, top: Candle, raised: seq<WatermarkWrite>)
    requires d'.watermarks == d.watermarks + raised && c.key == key && top.key == key
    requires Representable(c.stamp) && Representable(top.stamp) && c.stamp <= top.stamp
    requires raised == [] ==> Passed(t, top)
    requires raised != [] ==> |raised| == 1 && raised[0].key == key
    ensures Raised(d', IdOf(c.key)) || Passed(t, c)
  {
    hide Canon, Representable;
    if raised != [] {
      assert d'.watermarks[|d.watermarks|] == raised[0];
    } else {
      CanonOrder(c.stamp, top.stamp);
      if c.stamp < top.stamp {
        StrLessTransitive(Canon(c.stamp), Canon(top.stamp), t.watermarks[IdOf(key)].lastClosed);
      }
    }
  }

  lemma ConcatMembers(a: seq<Candle>, b: seq<Candle>)
    ensures forall j :: 0 <= j < |a + b| ==> if j < |a| then (a + b)[j] == a[j] && a[j] in a else (a + b)[j] in b
  {
  }

  lemma TopsGrow(d: Draft, d': Draft, added: seq<Candle>, m: WatermarkWrite)
    requires d'.candles == d.candles + added && Tops(d, m)
    requires forall c :: c in added ==> IdOf(c.key) != IdOf(m.key)
    ensures Tops(d', m)
  {
    hide Canon, Representable;
    var i :| 0 <= i < |d.candles| && IdOf(d.candles[i].key) == IdOf(m.key) && Representable(d.candles[i].stamp) &&
             Canon(d.candles[i].stamp) == m.lastClosed &&
             forall j :: 0 <= j < |d.candles| && IdOf(d.candles[j].key) == IdOf(m.key) ==> d.candles[j].stamp <= d.candles[i].stamp;
    assert d'.candles[i] == d.candles[i];
    ConcatMembers(d.candles, added);
  }

  lemma NewTop(d: Draft, d': Draft, key: SeriesKey, added: seq<Candle>, top: Candle, m: WatermarkWrite)
    requires d'.candles == d.candles + added && top in added && Representable(top.stamp)
    requires forall c :: c in d.candles ==> IdOf(c.key) != IdOf(key)
    requires forall c :: c in added ==> c.key == key && c.stamp <= top.stamp
    requires m.key == key && m.lastClosed == Canon(top.stamp)
    ensures Tops(d', m)
  {
    hide Canon, Representable;
    var k :| 0 <= k < |added| && added[k] == top;
    assert d'.candles[|d.candles| + k] == top;
    ConcatMembers(d.candles, added);
  }

  /** The lists of a draft are as before, but for quality receipts after them. */
  predicate OnlyReceipts(d: Draft, d': Draft) {
    d.qualities <= d'.qualities && d'.candles == d.candles && d'.watermarks == d.watermarks
  }

  /** The first quality receipt added to a draft is of this series. */
  predicate AddsReceiptOf(d: Draft, d': Draft, key: SeriesKey) {
    d.qualities < d'.qualities && IdOf(d'.qualities[|d.qualities|].key) == IdOf(key)
  }

  lemma RecordedShape(d: Draft, plan: Plan, inst: Instrument, tf: Timeframe, start: Option<string>, fetch: Fetch, g: Gated, suppressed: bool)
    requires fetch.Fetched? && (g.usable != [] ==> Representable(g.usable[0].stamp))
    ensures OnlyReceipts(d, RecordedCell(d, plan, inst, tf, start, fetch, g, suppressed))
  {
    hide Canon, TransformReceipt, StatusOf, EffectiveTransform, KeyOf;
  }

  lemma GradedShape(d: Draft, plan: Plan, key: SeriesKey, start: Option<string>, fetch: Fetch, existing: Option<string>, g: Gated)
    requires fetch.Fetched? && (g.usable != [] ==> Representable(Latest(g.usable)))
    requires forall c :: c in g.rows ==> c.key == key
    ensures AddsReceiptOf(d, GradedCell(d, plan, key, start, fetch, existing, g), key)
  {
    hide Canon, Latest, Suppresses, LatestText;
    assert g.rows != [] ==> g.rows[0] in g.rows;
  }

  lemma FetchedShape(d: Draft, plan: Plan, inst: Instrument, tf: Timeframe, start: Option<string>, fetch: Fetch, existing: Option<string>)
    requires inst.calendar.Known() && IsMvp(tf) && fetch.Fetched?
    ensures AddsReceiptOf(d, FetchedCell(d, plan, inst, tf, start, fetch, existing), KeyOf(plan, inst, tf))
  {
    hide Gate, Latest, Suppresses, KeyOf, GradedCell, RecordedCell;
    GatedRows(plan, inst, tf, fetch);
    var g := Gate(plan, inst, tf, fetch);
    GradedShape(d, plan, KeyOf(plan, inst, tf), start, fetch, existing, g);
    var graded := GradedCell(d, plan, KeyOf(plan, inst, tf), start, fetch, existing, g);
    RecordedShape(graded, plan, inst, tf, start, fetch, g, Suppresses(g, existing));
  }

  /** The quality receipts of a draft only grow, and a fetched cell adds one of its own series. */
  lemma AskedShape(asked: Draft, plan: Plan, inst: Instrument, tf: Timeframe, start: Option<string>, fetch: Fetch, existing: Option<string>)
    requires inst.calendar.Known() && IsMvp(tf)
    ensures var d' := AskedCell(asked, plan, inst, tf, start, fetch, existing);
            OnlyReceipts(asked, d') || (fetch.Fetched? && AddsReceiptOf(asked, d', KeyOf(plan, inst, tf)))
  {
    hide FetchedCell, KeyOf, BlockedQuality, FailedObservation, AddsReceiptOf;
    if fetch.Fetched? {
      FetchedShape(asked, plan, inst, tf, start, fetch, existing);
    }
  }

  lemma CellShape(d: Draft, plan: Plan, inst: Instrument, tf: Timeframe, start: Option<string>, fetch: Fetch, existing: Option<string>)
    requires inst.calendar.Known() && IsMvp(tf)
    ensures var d' := ProcessCell(d, plan, inst, tf, start, fetch, existing);
            OnlyReceipts(d, d') || (fetch.Fetched? && AddsReceiptOf(d, d', KeyOf(plan, inst, tf)))
  {
    hide AskedCell, KeyOf;
    AskedShape(d.(requests := d.requests + 1), plan, inst, tf, start, fetch, existing);
  }

  /** The watermark a cell raises. */
  function Raise(plan: Plan, key: SeriesKey, g: Gated, existing: Option<string>): seq<WatermarkWrite>
    requires g.usable != [] ==> Representable(Latest(g.usable))
  {
    if Promotes(g) && !Suppresses(g, existing) then [WatermarkWrite(key, Canon(Latest(g.usable)), None, plan.runId)] else []
  }

  lemma FetchedPromotes(d: Draft, plan: Plan, inst: Instrument, tf: Timeframe, start: Option<string>, fetch: Fetch, existing: Option<string>)
    requires inst.calendar.Known() && IsMvp(tf) && fetch.Fetched?
    ensures var g, d' := Gate(plan, inst, tf, fetch), FetchedCell(d, plan, inst, tf, start, fetch, existing);
            && (g.usable != [] ==> Representable(Latest(g.usable)))
            && d'.candles == d.candles + (if Promotes(g) then g.usable else [])
            && d'.watermarks == d.watermarks + Raise(plan, KeyOf(plan, inst, tf), g, existing)
  {
    hide Gate, Latest, Suppresses, KeyOf, RecordedCell, Canon, QualityReceipt, Promotes, IsMvp, Spec.Known;
    GatedRows(plan, inst, tf, fetch);
    var g := Gate(plan, inst, tf, fetch);
    var graded := GradedCell(d, plan, KeyOf(plan, inst, tf), start, fetch, existing, g);
    RecordedShape(graded, plan, inst, tf, start, fetch, g, Suppresses(g, existing));
  }

  /** What a fetched cell adds: its usable rows, and a watermark on the newest unless the stored one is past it. */
  lemma PromotingCell(d: Draft, plan: Plan, inst: Instrument, tf: Timeframe, start: Option<string>, fetch: Fetch, t: Tables)
    returns (raised: seq<WatermarkWrite>)
    requires inst.calendar.Known() && IsMvp(tf) && fetch.Fetched?
    ensures var key, g := KeyOf(plan, inst, tf), Gate(plan, inst, tf, fetch);
            var d' := ProcessCell(d, plan, inst, tf, start, fetch, StoredWatermark(t, key));
            && ((d'.candles == d.candles && d'.watermarks == d.watermarks) ||
                (g.usable != [] && d'.candles == d.candles + g.usable && d'.watermarks == d.watermarks + raised &&
                 Representable(Latest(g.usable)) &&
                 (raised == [] ==> IdOf(key) in t.watermarks && StrLess(Canon(Latest(g.usable)), t.watermarks[IdOf(key)].lastClosed)) &&
                 (raised != [] ==> raised == [WatermarkWrite(key, Canon(Latest(g.usable)), None, plan.runId)])))
  {
    hide Gate, Canon, Latest, StrLess, FetchedCell, KeyOf, IdOf;
    var g, key := Gate(plan, inst, tf, fetch), KeyOf(plan, inst, tf);
    FetchedPromotes(d.(requests := d.requests + 1), plan, inst, tf, start, fetch, StoredWatermark(t, key));
    raised := Raise(plan, key, g, StoredWatermark(t, key));
  }

  lemma CellKeepsSound(t: Tables, d: Draft, plan: Plan, inst: Instrument, tf: Timeframe, start: Option<string>, fetch: Fetch)
    requires inst.calendar.Known() && IsMvp(tf) && Sound(t, d)
    ensures Sound(t, ProcessCell(d, plan, inst, tf, start, fetch, StoredWatermark(t, KeyOf(plan, inst, tf))))
  {
    hide ProcessCell, Gate, Canon, Latest, Representable, Sound;
    var key := KeyOf(plan, inst, tf);
    var d' := ProcessCell(d, plan, inst, tf, start, fetch, StoredWatermark(t, key));
    CellShape(d, plan, inst, tf, start, fetch, StoredWatermark(t, key));
    if OnlyReceipts(d, d') {
      QuietCell(t, d, d');
    } else if OneReceiptEach(d') {
      var raised := PromotingCell(d, plan, inst, tf, start, fetch, t);
      CellRows(plan, inst, tf, fetch);
      var g := Gate(plan, inst, tf, fetch);
      var i :| 0 <= i < |g.usable| && g.usable[i].stamp == Latest(g.usable);
      NotGradedBefore(d, d', key);
      NewSeries(t, d, d', key, g.usable, g.usable[i], raised);
    } else {
      Unacceptable(t, d');
    }
  }

  lemma NotGradedBefore(d: Draft, d': Draft, key: SeriesKey)
    requires OneReceiptEach(d') && AddsReceiptOf(d, d', key)
    ensures !Graded(d, IdOf(key)) && Graded(d', IdOf(key))
  {
    assert forall i :: 0 <= i < |d.qualities| ==> d'.qualities[i] == d.qualities[i];
  }

  lemma Unacceptable(t: Tables, d: Draft)
    requires !OneReceiptEach(d)
    ensures Sound(t, d)
  {
  }

  // ----- a commit keeps the watermarks exact -----

  /** Each watermark after the commit is on a stored candle. */
  lemma StillAttained(pre: Tables, d: Draft, w: RunWrite, at: string, post: Tables, x: SeriesId)
    requires WatermarksExact(pre) && Applied(pre, w, at, post) && w.candles == d.candles && w.watermarks == d.watermarks
    requires forall m :: m in d.watermarks ==> Tops(d, m)
    requires x in post.watermarks
    ensures Attained(post, x, post.watermarks[x].lastClosed)
  {
    hide Applied, Canon, Representable;
    StoredAsSubmitted(pre, w, at, post);
    if x in pre.watermarks && post.watermarks[x] == pre.watermarks[x] {
      var id :| id in pre.candles && id.series == x && Representable(id.stamp) && Canon(id.stamp) == pre.watermarks[x].lastClosed;
      assert id in post.candles;
    } else {
      var i :| 0 <= i < |w.watermarks| && IdOf(w.watermarks[i].key) == x;
      assert Tops(d, w.watermarks[i]);
      var k :| 0 <= k < |d.candles| && IdOf(d.candles[k].key) == x && Representable(d.candles[k].stamp) &&
               Canon(d.candles[k].stamp) == w.watermarks[i].lastClosed;
      assert CandleIdOf(w.candles[k]) in post.candles;
    }
  }

  /** A stamp not past `top` is not past its text. */
  lemma NotPast(a: int, top: int)
    requires Representable(a) && Representable(top) && a <= top
    ensures NotBefore(Canon(top), Canon(a))
  {
    hide Canon, Representable;
    CanonOrder(top, a);
  }

  lemma PassedStays(a: string, was: string, now: string)
    requires StrLess(a, was) && NotBefore(now, was)
    ensures NotBefore(now, a)
  {
    StrLessTotal(a, was);
    if StrLess(was, a) {
      StrLessTransitive(a, was, a);
      StrLessIrreflexive(a);
    }
    NotBeforeTransitive(a, was, now);
  }

  /** Under a watermark of its own run no candle of the series is past it. */
  lemma RaisedCovers(d: Draft, c: Candle, m: WatermarkWrite)
    requires Tops(d, m) && c in d.candles && Representable(c.stamp) && IdOf(c.key) == IdOf(m.key)
    ensures NotBefore(m.lastClosed, Canon(c.stamp))
  {
    hide Canon, Representable, NotBefore, IdOf;
    var k :| 0 <= k < |d.candles| && d.candles[k] == c;
    var top :| 0 <= top < |d.candles| && Representable(d.candles[top].stamp) && Canon(d.candles[top].stamp) == m.lastClosed &&
               forall j :: 0 <= j < |d.candles| && IdOf(d.candles[j].key) == IdOf(m.key) ==> d.candles[j].stamp <= d.candles[top].stamp;
    assert d.candles[k].stamp <= d.candles[top].stamp;
    NotPast(c.stamp, d.candles[top].stamp);
  }

  /** A submitted candle is not past its series' watermark after the commit. */
  lemma NewCovered(pre: Tables, d: Draft, w: RunWrite, at: string, post: Tables, k: nat)
    requires Applied(pre, w, at, post) && WatermarksKept(pre, post) && w.candles == d.candles && w.watermarks == d.watermarks
    requires CandlesCovered(pre, d) && (forall m :: m in d.watermarks ==> Tops(d, m))
    requires k < |d.candles|
    ensures var x := IdOf(d.candles[k].key);
            && Representable(d.candles[k].stamp) && x in post.watermarks
            && NotBefore(post.watermarks[x].lastClosed, Canon(d.candles[k].stamp))
  {
    hide Applied, Canon, Representable, Graded, StrLess, NotBefore, Tops, IdOf;
    StoredAsSubmitted(pre, w, at, post);
    var c := d.candles[k];
    var x := IdOf(c.key);
    assert c in d.candles;
    if Raised(d, x) {
      var i :| 0 <= i < |d.watermarks| && IdOf(d.watermarks[i].key) == x;
      assert d.watermarks[i] in d.watermarks;
      RaisedCovers(d, c, d.watermarks[i]);
    } else {
      PassedStays(Canon(c.stamp), pre.watermarks[x].lastClosed, post.watermarks[x].lastClosed);
    }
  }

  lemma StillCovered(pre: Tables, d: Draft, w: RunWrite, at: string, post: Tables, id: CandleId)
    requires WatermarksExact(pre) && Applied(pre, w, at, post) && WatermarksKept(pre, post)
    requires w.candles == d.candles && w.watermarks == d.watermarks
    requires CandlesCovered(pre, d) && (forall m :: m in d.watermarks ==> Tops(d, m))
    requires id in post.candles
    ensures Representable(id.stamp) && id.series in post.watermarks && NotBefore(post.watermarks[id.series].lastClosed, Canon(id.stamp))
  {
    hide Applied, Canon, Representable, Graded, StrLess, NotBefore, CandlesCovered, Tops;
    StoredAsSubmitted(pre, w, at, post);
    if id in pre.candles {
      NotBeforeTransitive(Canon(id.stamp), pre.watermarks[id.series].lastClosed, post.watermarks[id.series].lastClosed);
    } else {
      var k :| 0 <= k < |w.candles| && CandleIdOf(w.candles[k]) == id;
      NewCovered(pre, d, w, at, post, k);
    }
  }

  lemma CommitKeepsExact(pre: Tables, plan: Plan, d: Draft, at: string, post: Tables)
    requires WatermarksExact(pre) && Sound(pre, d) && Accepted(pre, WriteOf(plan, d), at, post)
    ensures WatermarksExact(post)
  {
    hide Applied, Canon, Representable, Decide, CandlesCovered, Tops, Attained, WatermarksKept, NotBefore;
    var w := WriteOf(plan, d);
    AcceptedRun(pre, w);
    AcceptedReceipts(w, d);
    assert Step(pre, post);
    StepMonotone(pre, post);
    forall x | x in post.watermarks
      ensures Attained(post, x, post.watermarks[x].lastClosed)
    {
      StillAttained(pre, d, w, at, post, x);
    }
    forall id | id in post.candles
      ensures Representable(id.stamp) && id.series in post.watermarks && NotBefore(post.watermarks[id.series].lastClosed, Canon(id.stamp))
    {
      StillCovered(pre, d, w, at, post, id);
    }
  }

  lemma AcceptedReceipts(w: RunWrite, d: Draft)
    requires ValidQualities(w) && w.qualities == d.qualities
    ensures OneReceiptEach(d)
  {
  }

  // ----- every behaviour -----

  lemma CommitKeeps(s: System, s': System, id: nat, at: string, fault: Fault)
    requires Invariant(s) && Commits(s, s', id, at, fault)
    ensures Invariant(s')
  {
    hide Applied, Decide, Sound, WatermarksExact, WriteOf;
    var x := s.sessions[id];
    var w := WriteOf(x.plan, x.draft);
    CommitIsStep(s.tables, w, at, fault, s'.tables);
    StepMonotone(s.tables, s'.tables);
    if s'.tables != s.tables {
      AcceptWithoutFault(s.tables, w, fault);
      CommitKeepsExact(s.tables, x.plan, x.draft, at, s'.tables);
    }
    forall i | i in s'.sessions
      ensures Sound(s'.tables, s'.sessions[i].draft)
    {
      KeptByTables(s.tables, s'.tables, s.sessions[i].draft);
    }
  }

  lemma AcceptWithoutFault(t: Tables, w: RunWrite, fault: Fault)
    ensures Decide(t, w, fault) == Accept ==> Decide(t, w, NoFault) == Accept
  {
    hide Rejection, FreshEntitlements, FreshBackups, MovesBackwards;
  }

  lemma FetchKeeps(s: System, s': System)
    requires Invariant(s) && FetchStep(s, s')
    ensures Invariant(s')
  {
    hide ProcessCell, Survives, Sound, WatermarksExact, StoredWatermark, KeyOf;
    var id, inst: Instrument, tf, start, fetch :| inst.calendar.Known() && IsMvp(tf) && Fetches(s, s', id, inst, tf, start, fetch);
    CellKeepsSound(s.tables, s.sessions[id].draft, s.sessions[id].plan, inst, tf, start, fetch);
  }

  lemma NothingDrafted(t: Tables)
    ensures Sound(t, NEW_DRAFT)
  {
  }

  lemma NextKeeps(s: System, s': System)
    requires Invariant(s) && Next(s, s')
    ensures Invariant(s')
  {
    hide Sound, WatermarksExact, Fetches, Commits;
    if exists id, plan :: Begins(s, s', id, plan) {
      NothingDrafted(s.tables);
    } else if FetchStep(s, s') {
      FetchKeeps(s, s');
    } else {
      var id, at, fault :| Commits(s, s', id, at, fault);
      CommitKeeps(s, s', id, at, fault);
    }
  }

  lemma InitialHolds()
    ensures Invariant(INITIAL)
  {
  }

  /**
   However runs interleave, however often each is submitted and whatever fails, every series has a
   watermark exactly when it has a candle, and the watermark is its greatest stored timestamp.
   */
  lemma {:induction false} AlwaysExact(run: seq<System>, i: nat)
    requires Behaviour(run) && i < |run|
    ensures Invariant(run[i])
  {
    hide Next, Invariant;
    if i == 0 {
      InitialHolds();
    } else {
      AlwaysExact(run, i - 1);
      NextKeeps(run[i - 1], run[i]);
    }
  }

  ghost predicate HasCandle(t: Tables, x: SeriesId) {
    exists id :: id in t.candles && id.series == x
  }

  /** The same, said of instants: the watermark reads as the latest stored instant of its series. */
  lemma WatermarkIsLatest(run: seq<System>, i: nat, x: SeriesId)
    requires Behaviour(run) && i < |run|
    ensures var t := run[i].tables;
            && (x in t.watermarks <==> HasCandle(t, x))
            && (x in t.watermarks ==>
                  exists latest :: ParseIso(t.watermarks[x].lastClosed) == Some(latest) && CandleId(x, latest) in t.candles &&
                                   forall id :: id in t.candles && id.series == x ==> id.stamp <= latest)
  {
    hide Canon, Representable, ParseIso, Behaviour, Sound;
    AlwaysExact(run, i);
    var t := run[i].tables;
    if x in t.watermarks {
      var top :| top in t.candles && top.series == x && Representable(top.stamp) && Canon(top.stamp) == t.watermarks[x].lastClosed;
      ParseCanon(top.stamp);
      assert top == CandleId(x, top.stamp);
      forall id | id in t.candles && id.series == x
        ensures id.stamp <= top.stamp
      {
        CanonOrder(top.stamp, id.stamp);
      }
    }
  }
}
