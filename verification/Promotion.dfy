/** Which rows a run promotes, and that every stored candle was promoted so (src/kline/ingestion.py). */
module Promotion {
  import opened Results
  import opened Storage
  import opened Calendar
  import opened Quality
  import opened RunWrites
  import opened Store
  import opened Ingestion
  import opened Protocol

  // ----- rejected and repeated rows -----

  /** How rows of one cell are admitted. */
  datatype Reader = Reader(key: SeriesKey, semantics: VolumeSemantics, derived: bool) {
    function Read(raw: RawRow): Option<Candle>
      requires IsMvp(key.timeframe)
    {
      MakeCandle(key, semantics, derived, raw)
    }

    function All(raws: seq<RawRow>): Converted
      requires IsMvp(key.timeframe)
    {
      Convert(key, semantics, derived, raws)
    }
  }

  /** The row keeps clear of the instant: it is admitted at another, or rejected with another text than the instant's own. */
  predicate Clear(r: Reader, raw: RawRow, t: int)
    requires IsMvp(r.key.timeframe)
  {
    var c := r.Read(raw);
    if c.Some? then c.value.stamp != t
    else !PointsAt(RejectedAt(raw), t)
  }

  /** Row i is admitted as this candle, and every other row keeps clear of it. */
  predicate AloneAt(r: Reader, raws: seq<RawRow>, c: Candle, i: nat)
    requires IsMvp(r.key.timeframe)
  {
    && i < |raws| && r.Read(raws[i]) == Some(c)
    && forall j :: 0 <= j < |raws| && j != i ==> Clear(r, raws[j], c.stamp)
  }

  ghost predicate Alone(r: Reader, raws: seq<RawRow>, c: Candle)
    requires IsMvp(r.key.timeframe)
  {
    exists i: nat :: AloneAt(r, raws, c, i)
  }

  predicate AllClear(r: Reader, raws: seq<RawRow>, t: int)
    requires IsMvp(r.key.timeframe)
  {
    forall j :: 0 <= j < |raws| ==> Clear(r, raws[j], t)
  }

  lemma ClearSplit(r: Reader, raws: seq<RawRow>, t: int)
    requires IsMvp(r.key.timeframe) && raws != []
    ensures AllClear(r, raws, t) <==> AllClear(r, raws[..|raws| - 1], t) && Clear(r, raws[|raws| - 1], t)
  {
    hide Clear;
    assert forall j :: 0 <= j < |raws| - 1 ==> raws[..|raws| - 1][j] == raws[j];
  }

  lemma AloneSplit(r: Reader, raws: seq<RawRow>, c: Candle)
    requires IsMvp(r.key.timeframe) && raws != []
    ensures var p, last := raws[..|raws| - 1], raws[|raws| - 1];
            Alone(r, raws, c) <==>
            (Alone(r, p, c) && Clear(r, last, c.stamp)) || (AllClear(r, p, c.stamp) && r.Read(last) == Some(c))
  {
    hide Clear, Reader.Read;
    var n := |raws| - 1;
    var p := raws[..n];
    assert forall j :: 0 <= j < n ==> p[j] == raws[j];
    if Alone(r, raws, c) {
      var i: nat :| AloneAt(r, raws, c, i);
      assert i < n ==> AloneAt(r, p, c, i);
    }
    if Alone(r, p, c) && Clear(r, raws[n], c.stamp) {
      var i: nat :| AloneAt(r, p, c, i);
      assert AloneAt(r, raws, c, i);
    }
    if AllClear(r, p, c.stamp) && r.Read(raws[n]) == Some(c) {
      assert AloneAt(r, raws, c, n);
    }
  }

  /** After reading rows: an instant all rows keep clear of has neither row nor issue, and a row without issue is alone. */
  lemma {:induction false} ReadsExactly(r: Reader, raws: seq<RawRow>, t: int)
    requires IsMvp(r.key.timeframe)
    ensures AllClear(r, raws, t) <==> !HasStamp(r.All(raws).rows, t) && !Excluded(r.All(raws).issues, t)
    ensures forall c: Candle :: c.stamp == t ==> (Alone(r, raws, c) <==> c in r.All(raws).rows && !Excluded(r.All(raws).issues, t))
  {
    hide Clear, Excluded, MakeCandle, PointsAt, Alone;
    if raws == [] {
      NothingRead(r, t);
    } else {
      var p := raws[..|raws| - 1];
      ReadsExactly(r, p, t);
      ConvertedRows(r.key, r.semantics, r.derived, p);
      ClearSplit(r, raws, t);
      forall c: Candle | c.stamp == t
        ensures Alone(r, raws, c) <==>
                (Alone(r, p, c) && Clear(r, raws[|raws| - 1], t)) || (AllClear(r, p, t) && r.Read(raws[|raws| - 1]) == Some(c))
      {
        AloneSplit(r, raws, c);
      }
      OneMoreRead(r, raws, t);
    }
  }

  lemma NothingRead(r: Reader, t: int)
    requires IsMvp(r.key.timeframe)
    ensures AllClear(r, [], t) && !HasStamp(r.All([]).rows, t) && !Excluded(r.All([]).issues, t)
    ensures forall c: Candle :: !Alone(r, [], c) && c !in r.All([]).rows
  {
  }

  /** What the last row does to the rows and issues at one instant. */
  lemma OneMoreRead(r: Reader, raws: seq<RawRow>, t: int)
    requires IsMvp(r.key.timeframe) && raws != []
    ensures var before, after, c := r.All(raws[..|raws| - 1]), r.All(raws), r.Read(raws[|raws| - 1]);
            var hit := c.Some? && c.value.stamp == t;
            && (Excluded(after.issues, t) <==>
                  Excluded(before.issues, t) || (c.None? && !Clear(r, raws[|raws| - 1], t)) || (hit && HasStamp(before.rows, t)))
            && (forall x: Candle :: x.stamp == t ==>
                  (x in after.rows <==> x in before.rows || (hit && !HasStamp(before.rows, t) && c.value == x)))
            && (HasStamp(after.rows, t) <==> HasStamp(before.rows, t) || hit)
            && (Clear(r, raws[|raws| - 1], t) <==> if c.Some? then !hit else !PointsAt(RejectedAt(raws[|raws| - 1]), t))
  {
    hide MakeCandle, PointsAt, HasStamp;
    var before, after, c := r.All(raws[..|raws| - 1]), r.All(raws), r.Read(raws[|raws| - 1]);
    if c.None? {
      ExcludedAppend(before.issues, Issue(Malformed, RejectedAt(raws[|raws| - 1])), t);
    } else if HasStamp(before.rows, c.value.stamp) {
      ExcludedAppend(before.issues, Issue(Duplicate, At(c.value.stamp)), t);
      PointsAtInstant(c.value.stamp, t);
    } else {
      StampAppend(before.rows, c.value, t);
    }
  }

  lemma PointsAtInstant(u: int, t: int)
    ensures PointsAt(At(u), t) <==> u == t
  {
  }

  lemma ExcludedAppend(issues: seq<Issue>, i: Issue, t: int)
    requires i.kind in UNUSABLE
    ensures Excluded(issues + [i], t) <==> Excluded(issues, t) || PointsAt(i.at, t)
  {
    hide PointsAt;
    assert i in issues + [i];
    if Excluded(issues, t) {
      var k :| k in issues && k.kind in UNUSABLE && PointsAt(k.at, t);
      assert k in issues + [i];
    }
  }

  lemma StampAppend(rows: seq<Candle>, c: Candle, t: int)
    ensures HasStamp(rows + [c], t) <==> HasStamp(rows, t) || c.stamp == t
  {
    var all := rows + [c];
    assert all[|rows|] == c;
    assert forall i :: 0 <= i < |rows| ==> all[i] == rows[i];
  }

  // ----- the rows of a cell -----

  function ReaderOf(plan: Plan, inst: Instrument, tf: Timeframe, fetch: Fetch): Reader
    requires fetch.Fetched?
  {
    Reader(KeyOf(plan, inst, tf), inst.semantics, Aggregated(EffectiveTransform(inst, tf, fetch.transform)))
  }

  /**
   Of everything an adapter returned, exactly those rows may be promoted which are admitted, closed
   at the run's cutoff, in session when intraday, and alone on their instant: a repeated timestamp
   loses every row that carries it.
   */
  lemma UsableExactly(plan: Plan, inst: Instrument, tf: Timeframe, fetch: Fetch, c: Candle)
    requires inst.calendar.Known() && IsMvp(tf) && fetch.Fetched?
    ensures c in Gate(plan, inst, tf, fetch).usable <==>
            && Alone(ReaderOf(plan, inst, tf, fetch), fetch.rows, c)
            && WellPlaced(inst.calendar, tf, c.stamp) && Closed(inst.calendar, tf, plan.now, c.stamp)
  {
    hide Assess, Convert, Alone, Excluded, WellPlaced, Closed, UsableRows, Spec.Known, EffectiveTransform;
    var r := ReaderOf(plan, inst, tf, fetch);
    var converted := r.All(fetch.rows);
    ConvertedRows(r.key, r.semantics, r.derived, fetch.rows);
    ReadsExactly(r, fetch.rows, c.stamp);
    UsableIff(converted.rows, tf, inst.calendar, plan.now, plan.policy, converted.issues, c);
  }

  /** The candle of one cell's answer that the gate let through. */
  ghost predicate Trusted(plan: Plan, inst: Instrument, tf: Timeframe, fetch: Fetch, c: Candle) {
    && inst.calendar.Known() && IsMvp(tf) && fetch.Fetched?
    && c.Valid() && c.key == KeyOf(plan, inst, tf)
    && Alone(ReaderOf(plan, inst, tf, fetch), fetch.rows, c)
    && Closed(inst.calendar, tf, plan.now, c.stamp) && WellPlaced(inst.calendar, tf, c.stamp)
    && Gate(plan, inst, tf, fetch).verdict.grade != Fail
  }

  /** The candles of a cell: none, or those of its fetched rows. */
  lemma CellCandles(d: Draft, plan: Plan, inst: Instrument, tf: Timeframe, start: Option<string>, fetch: Fetch, existing: Option<string>)
    requires inst.calendar.Known() && IsMvp(tf)
    ensures var d' := ProcessCell(d, plan, inst, tf, start, fetch, existing);
            || d'.candles == d.candles
            || (fetch.Fetched? && d'.candles == FetchedCell(d.(requests := d.requests + 1), plan, inst, tf, start, fetch, existing).candles)
  {
    hide FetchedCell, Spec.Known, IsMvp, KeyOf, BlockedQuality, FailedObservation, Policy.Valid;
  }

  /** A cell adds nothing but trusted candles. */
  lemma CellAddsTrusted(d: Draft, plan: Plan, inst: Instrument, tf: Timeframe, start: Option<string>, fetch: Fetch, existing: Option<string>)
    requires inst.calendar.Known() && IsMvp(tf)
    ensures var d' := ProcessCell(d, plan, inst, tf, start, fetch, existing);
            forall c :: c in d'.candles ==> c in d.candles || Trusted(plan, inst, tf, fetch, c)
  {
    hide FetchedCell, ProcessCell, Trusted, Spec.Known, IsMvp, KeyOf, Raise, Promotes, Gate;
    CellCandles(d, plan, inst, tf, start, fetch, existing);
    if fetch.Fetched? {
      FetchedPromotes(d.(requests := d.requests + 1), plan, inst, tf, start, fetch, existing);
      GateTrusts(plan, inst, tf, fetch);
    }
  }

  lemma GateTrusts(plan: Plan, inst: Instrument, tf: Timeframe, fetch: Fetch)
    requires inst.calendar.Known() && IsMvp(tf) && fetch.Fetched?
    ensures var g := Gate(plan, inst, tf, fetch);
            Promotes(g) ==> forall c :: c in g.usable ==> Trusted(plan, inst, tf, fetch, c)
  {
    hide Gate, Alone, Closed, WellPlaced, ReaderOf, Candle.Valid;
    GatedRows(plan, inst, tf, fetch);
    var g := Gate(plan, inst, tf, fetch);
    forall c | c in g.usable && Promotes(g)
      ensures Trusted(plan, inst, tf, fetch, c)
    {
      UsableExactly(plan, inst, tf, fetch, c);
    }
  }

  // ----- which cells promote -----

  /** No issue of the cell blocks it, and its bad rows stay within the threshold. */
  predicate Tolerated(plan: Plan, inst: Instrument, tf: Timeframe, g: Gated) {
    && (forall i :: i in g.verdict.issues ==> i.kind !in Blocking(BufferActive(inst.calendar, tf, plan.now, plan.policy)))
    && !TooManyBadRows(g.verdict.issues, |g.rows|, plan.policy.threshold)
  }

  lemma GradeIff(plan: Plan, inst: Instrument, tf: Timeframe, fetch: Fetch)
    requires inst.calendar.Known() && IsMvp(tf) && fetch.Fetched?
    ensures var g := Gate(plan, inst, tf, fetch);
            && (g.verdict.grade != Fail <==> Tolerated(plan, inst, tf, g))
            && (g.verdict.grade == Pass <==> Tolerated(plan, inst, tf, g) && g.verdict.issues == [])
  {
    hide Convert, AllIssues, BufferActive, TooManyBadRows, ClosedStamps, Blocking;
  }

  /**
   A cell that is answered adds its usable rows exactly when its issues are tolerated.  So it promotes
   without a pass exactly when it has usable rows and issues, and all of them are tolerated.
   */
  lemma PromotesIff(d: Draft, plan: Plan, inst: Instrument, tf: Timeframe, start: Option<string>, fetch: Fetch, existing: Option<string>)
    requires inst.calendar.Known() && IsMvp(tf) && fetch.Fetched? && plan.policy.Valid() && Requests(d, plan, inst, tf)
    ensures var g, d' := Gate(plan, inst, tf, fetch), ProcessCell(d, plan, inst, tf, start, fetch, existing);
            && d'.candles == d.candles + (if Tolerated(plan, inst, tf, g) then g.usable else [])
            && (d'.candles != d.candles && g.verdict.grade != Pass <==>
                  g.usable != [] && g.verdict.issues != [] && Tolerated(plan, inst, tf, g))
  {
    hide Gate, FetchedCell, Tolerated, KeyOf, Policy.Valid, Spec.Known, IsMvp, Raise;
    GradeIff(plan, inst, tf, fetch);
    FetchedPromotes(d.(requests := d.requests + 1), plan, inst, tf, start, fetch, existing);
  }

  ghost predicate TrustedOf(plan: Plan, cells: seq<Cell>, venue: Venue, c: Candle) {
    exists i :: 0 <= i < |cells| && Trusted(plan, cells[i].inst, cells[i].tf, venue(i), c)
  }

  lemma {:induction false} RunAddsTrusted(plan: Plan, cells: seq<Cell>, venue: Venue, t: Tables)
    requires GoodCells(cells)
    ensures var d := RunCells(plan, cells, venue, t);
            d.Ok? ==> forall c :: c in d.value.candles ==> TrustedOf(plan, cells, venue, c)
  {
    hide Trusted, ProcessCell, Survives, RequestStart, KeyOf, Requests;
    if cells != [] && RunCells(plan, cells, venue, t).Ok? {
      var n := |cells| - 1;
      var before := RunCells(plan, cells[..n], venue, t).value;
      RunAddsTrusted(plan, cells[..n], venue, t);
      StepAddsTrusted(before, plan, cells[n], venue(n), t);
      forall c | c in RunCells(plan, cells, venue, t).value.candles
        ensures TrustedOf(plan, cells, venue, c)
      {
        if c in before.candles {
          var i :| 0 <= i < n && Trusted(plan, cells[..n][i].inst, cells[..n][i].tf, venue(i), c);
          assert cells[i] == cells[..n][i];
        }
      }
    }
  }

  lemma StepAddsTrusted(d: Draft, plan: Plan, cell: Cell, fetch: Fetch, t: Tables)
    requires cell.inst.calendar.Known() && IsMvp(cell.tf)
    ensures var s := CellStep(d, plan, cell.inst, cell.tf, fetch, t);
            s.Ok? ==> forall c :: c in s.value.candles ==> c in d.candles || Trusted(plan, cell.inst, cell.tf, fetch, c)
  {
    hide Trusted, ProcessCell, Survives, KeyOf, Requests, RequestStart;
    var watermark := StoredWatermark(t, KeyOf(plan, cell.inst, cell.tf));
    var start := RequestStart(plan, cell.tf, watermark);
    CellAddsTrusted(d, plan, cell.inst, cell.tf, None, fetch, watermark);
    if start.Ok? {
      CellAddsTrusted(d, plan, cell.inst, cell.tf, start.value, fetch, watermark);
    }
  }

  /** The stored row and the candle it came from agree in all but the receipt. */
  predicate StoredFrom(row: Candle, c: Candle) {
    row.(transformReceiptId := None) == c.(transformReceiptId := None)
  }

  /** After a commit every stored candle is one stored before, untouched, or one the run submitted. */
  lemma AppliedCandles(pre: Tables, w: RunWrite, at: string, post: Tables, id: CandleId)
    requires Applied(pre, w, at, post) && id in post.candles
    ensures (id in pre.candles && post.candles[id] == pre.candles[id]) ||
            exists c :: c in w.candles && CandleIdOf(c) == id && StoredFrom(post.candles[id], c)
  {
    hide Rows, CandleIdOf;
    var keys, rows := CandleKeys(w), CandleRows(w, |pre.transforms|);
    if id in keys {
      var i :| 0 <= i < |keys| && keys[i] == id;
      assert post.candles[keys[i]] == rows[i];
      assert w.candles[i] in w.candles;
    }
  }

  /** After a run every stored candle is one stored before, untouched, or a trusted candle of this run. */
  lemma StoredAreTrusted(plan: Plan, cells: seq<Cell>, venue: Venue, pre: Tables, at: string, post: Tables)
    requires GoodCells(cells) && RunCells(plan, cells, venue, pre).Ok?
    requires Applied(pre, WriteOf(plan, RunCells(plan, cells, venue, pre).value), at, post)
    ensures forall id :: id in post.candles ==>
              (id in pre.candles && post.candles[id] == pre.candles[id]) ||
              exists c :: TrustedOf(plan, cells, venue, c) && CandleIdOf(c) == id && StoredFrom(post.candles[id], c)
  {
    hide RunCells, TrustedOf, Applied, CandleIdOf, StoredFrom;
    RunAddsTrusted(plan, cells, venue, pre);
    forall id | id in post.candles
      ensures (id in pre.candles && post.candles[id] == pre.candles[id]) ||
              exists c :: TrustedOf(plan, cells, venue, c) && CandleIdOf(c) == id && StoredFrom(post.candles[id], c)
    {
      AppliedCandles(pre, WriteOf(plan, RunCells(plan, cells, venue, pre).value), at, post, id);
    }
  }

  // ----- every reachable state -----

  /** The candle passed the gate of one of the answers the session got. */
  ghost predicate TrustedBy(x: Session, c: Candle) {
    exists i :: 0 <= i < |x.answered| && Trusted(x.plan, x.answered[i].inst, x.answered[i].tf, x.answered[i].fetch, c)
  }

  ghost predicate DraftTrusted(x: Session) {
    forall c :: c in x.draft.candles ==> TrustedBy(x, c)
  }

  /** The stored row is a candle that passed the gate of some session. */
  ghost predicate RowTrusted(s: System, id: CandleId)
    requires id in s.tables.candles
  {
    exists sid, c :: sid in s.sessions && TrustedBy(s.sessions[sid], c) && CandleIdOf(c) == id && StoredFrom(s.tables.candles[id], c)
  }

  ghost predicate Vetted(s: System) {
    && (forall sid :: sid in s.sessions ==> DraftTrusted(s.sessions[sid]))
    && (forall id :: id in s.tables.candles ==> RowTrusted(s, id))
  }

  /** Every session goes on, with at least the answers it had. */
  ghost predicate Continues(s: System, s': System) {
    forall sid :: sid in s.sessions ==>
      sid in s'.sessions && s'.sessions[sid].plan == s.sessions[sid].plan && s.sessions[sid].answered <= s'.sessions[sid].answered
  }

  lemma StaysTrusted(x: Session, x': Session, c: Candle)
    requires x'.plan == x.plan && x.answered <= x'.answered && TrustedBy(x, c)
    ensures TrustedBy(x', c)
  {
    hide Trusted;
    var i :| 0 <= i < |x.answered| && Trusted(x.plan, x.answered[i].inst, x.answered[i].tf, x.answered[i].fetch, c);
    assert x'.answered[i] == x.answered[i];
  }

  lemma RowsStay(s: System, s': System)
    requires Vetted(s) && Continues(s, s') && s'.tables == s.tables
    ensures forall id :: id in s'.tables.candles ==> RowTrusted(s', id)
  {
    hide Trusted, TrustedBy, StoredFrom, CandleIdOf;
    forall id | id in s'.tables.candles
      ensures RowTrusted(s', id)
    {
      assert RowTrusted(s, id);
      var sid, c :| sid in s.sessions && TrustedBy(s.sessions[sid], c) && CandleIdOf(c) == id && StoredFrom(s.tables.candles[id], c);
      StaysTrusted(s.sessions[sid], s'.sessions[sid], c);
    }
  }

  lemma FetchVets(s: System, s': System)
    requires Vetted(s) && FetchStep(s, s')
    ensures Vetted(s')
  {
    hide ProcessCell, Survives, StoredWatermark, KeyOf, RowTrusted, Trusted, Spec.Known, IsMvp;
    var id, inst: Instrument, tf, start, fetch :| inst.calendar.Known() && IsMvp(tf) && Fetches(s, s', id, inst, tf, start, fetch);
    var x, x' := s.sessions[id], s'.sessions[id];
    CellAddsTrusted(x.draft, x.plan, inst, tf, start, fetch, StoredWatermark(s.tables, KeyOf(x.plan, inst, tf)));
    forall c | c in x'.draft.candles
      ensures TrustedBy(x', c)
    {
      if c in x.draft.candles {
        StaysTrusted(x, x', c);
      } else {
        assert x'.answered[|x.answered|] == Answered(inst, tf, fetch);
      }
    }
    RowsStay(s, s');
  }

  lemma CommitVets(s: System, s': System, id: nat, at: string, fault: Fault)
    requires Vetted(s) && Commits(s, s', id, at, fault)
    ensures Vetted(s')
  {
    hide Decide, Applied, TrustedBy, StoredFrom, CandleIdOf;
    var x := s.sessions[id];
    forall k | k in s'.tables.candles
      ensures RowTrusted(s', k)
    {
      if s'.tables == s.tables {
        RowsStay(s, s');
      } else {
        AppliedCandles(s.tables, WriteOf(x.plan, x.draft), at, s'.tables, k);
        if c :| c in x.draft.candles && CandleIdOf(c) == k && StoredFrom(s'.tables.candles[k], c) {
          assert TrustedBy(s'.sessions[id], c);
        } else {
          assert RowTrusted(s, k);
        }
      }
    }
  }

  lemma NextVets(s: System, s': System)
    requires Vetted(s) && Next(s, s')
    ensures Vetted(s')
  {
    hide RowTrusted, Fetches, Commits, Trusted;
    if exists id, plan :: Begins(s, s', id, plan) {
      RowsStay(s, s');
    } else if FetchStep(s, s') {
      FetchVets(s, s');
    } else {
      var id, at, fault :| Commits(s, s', id, at, fault);
      CommitVets(s, s', id, at, fault);
    }
  }

  lemma NothingToVet()
    ensures Vetted(INITIAL)
  {
  }

  /** However runs interleave, every stored candle passed the gate of an answer that some run got. */
  lemma {:induction false} AlwaysVetted(run: seq<System>, k: nat)
    requires Behaviour(run) && k < |run|
    ensures Vetted(run[k])
  {
    hide Next, Vetted;
    if k == 0 {
      NothingToVet();
    } else {
      AlwaysVetted(run, k - 1);
      NextVets(run[k - 1], run[k]);
    }
  }
}
