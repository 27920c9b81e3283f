/**
 Where stored candles come from: in every reachable state each of them repeats one row of one answer, row by
 row and field by field, whose bar had run its length.
 */
module Provenance {
  import opened Results
  import opened Timestamps
  import opened Storage
  import opened Calendar
  import opened Quality
  import opened Sessions
  import opened RunWrites
  import opened Ingestion
  import opened Protocol
  import opened Promotion

  /** The stored candle is the row, under the series of the cell, whether or not a receipt was added. */
  predicate Repeats(plan: Plan, inst: Instrument, tf: Timeframe, raw: RawRow, c: Candle) {
    && InstantOf(raw) == Some(c.stamp)
    && c.open == raw.open && c.high == raw.high && c.low == raw.low && c.close == raw.close && c.amount == raw.amount
    && c.volume == (if inst.semantics == NotApplicable then None else raw.volume) && c.semantics == inst.semantics
    && c.key.instrumentId == inst.instrumentId && c.key.sourceId == inst.sourceId && c.key.timeframe == tf
    && c.key.displaySymbol == inst.displaySymbol && c.key.providerSymbol == inst.providerSymbol
    && c.key.assetClass == inst.assetClass && c.key.adjustmentBasis == inst.adjustmentBasis
    && c.key.manifestVersion == plan.manifestVersion
  }

  /** The rows were aggregated: the adapter says so, or it is silent about 4h rows of a free source that always are. */
  predicate SaysAggregated(inst: Instrument, tf: Timeframe, fetch: Fetch)
    requires fetch.Fetched?
  {
    match fetch.transform
    case Some(t) => t.aggregated
    case None => tf == H4 && inst.required == [D1, H4] && (inst.sourceId == "tencent_stock_free" || inst.sourceId == "yahoo_finance_free")
  }

  /** The bar has run its length: its quarter, hour or four hours, its day or its week. */
  ghost predicate RunOut(cal: Spec, tf: Timeframe, cutoff: int, t: int) {
    match tf
    case M15 => t + 900_000_000 <= cutoff
    case H1 => t + 3_600_000_000 <= cutoff
    case H4 => t + 14_400_000_000 <= cutoff
    case D1 => DayOver(cal, cutoff, t)
    case _ => WeekOver(cal, cutoff, LocalDay(cal, t) / 7)
  }

  lemma ClosedIff(cal: Spec, tf: Timeframe, cutoff: int, t: int)
    requires cal.Known() && IsMvp(tf)
    ensures Closed(cal, tf, cutoff, t) <==> RunOut(cal, tf, cutoff, t)
  {
    hide Closed, DayOver, WeekOver, Spec.Known;
    IntradayClosed(cal, cutoff, t);
    IntradayClosed(cal, cutoff, t + 45 * 60_000_000);
    IntradayClosed(cal, cutoff, t + 225 * 60_000_000);
    DailyClosed(cal, cutoff, t);
    WeeklyClosed(cal, cutoff, t);
  }

  /** An intraday bar of a market that closes starts on an open quarter. */
  predicate OnOpenQuarter(cal: Spec, tf: Timeframe, t: int) {
    cal.id == Crypto || cal.id == UsFutures || tf == D1 || tf == W1 ||
    (OpenAt(cal.id, MinuteOfDay(cal, t)) && MinuteOfDay(cal, t) % 15 == 0 && TimeOfDay(cal, t) / 1_000_000 % 60 == 0)
  }

  /** The row speaks of the instant: it is admitted there, or is rejected and spells it as the store does. */
  predicate Names(semantics: VolumeSemantics, raw: RawRow, t: int) {
    if Admissible(semantics, raw) then InstantOf(raw) == Some(t) else Representable(t) && raw.timestamp == Some(Canon(t))
  }

  /** The candle repeats the j-th row of the answer; the bar had run its length and is where it may be; no other row speaks of its instant. */
  ghost predicate Sourced(plan: Plan, inst: Instrument, tf: Timeframe, fetch: Fetch, j: nat, c: Candle) {
    && fetch.Fetched? && j < |fetch.rows| && Repeats(plan, inst, tf, fetch.rows[j], c)
    && Admissible(inst.semantics, fetch.rows[j]) && c.derived == SaysAggregated(inst, tf, fetch)
    && RunOut(inst.calendar, tf, plan.now, c.stamp) && OnOpenQuarter(inst.calendar, tf, c.stamp)
    && forall k :: 0 <= k < |fetch.rows| && k != j ==> !Names(inst.semantics, fetch.rows[k], c.stamp)
  }

  lemma CopyRepeats(plan: Plan, inst: Instrument, tf: Timeframe, fetch: Fetch, raw: RawRow, c: Candle)
    requires fetch.Fetched? && IsMvp(tf)
    ensures ReaderOf(plan, inst, tf, fetch).Read(raw) == Some(c) <==>
            && Repeats(plan, inst, tf, raw, c) && Admissible(inst.semantics, raw)
            && c.derived == SaysAggregated(inst, tf, fetch) && c.transformReceiptId == None
  {
    hide Admissible, InstantOf, MakeCandle;
    var r := ReaderOf(plan, inst, tf, fetch);
    MadeFrom(r.key, r.semantics, r.derived, raw);
  }

  lemma ClearIff(r: Reader, raw: RawRow, t: int)
    requires IsMvp(r.key.timeframe)
    ensures Clear(r, raw, t) <==> !Names(r.semantics, raw, t)
  {
    hide Admissible, InstantOf, MakeCandle, Canon, Representable;
    MadeFrom(r.key, r.semantics, r.derived, raw);
    if Representable(t) {
      CanonIsText(t);
    }
  }

  lemma CanonIsText(t: int)
    requires Representable(t)
    ensures Canon(t) != ""
  {
    hide Canon;
    ParseCanon(t);
  }

  /** A row may be promoted exactly when it repeats a row of the answer so. */
  lemma PromotedIff(plan: Plan, inst: Instrument, tf: Timeframe, fetch: Fetch, c: Candle)
    requires inst.calendar.Known() && IsMvp(tf) && fetch.Fetched?
    ensures c in Gate(plan, inst, tf, fetch).usable <==> c.transformReceiptId == None && exists j: nat :: Sourced(plan, inst, tf, fetch, j, c)
  {
    hide Clear, Admissible, Closed, RunOut, Repeats, WellPlaced, Gate, SaysAggregated, Reader.Read, OnOpenQuarter, Names, Spec.Known;
    var r := ReaderOf(plan, inst, tf, fetch);
    UsableExactly(plan, inst, tf, fetch, c);
    ClosedIff(inst.calendar, tf, plan.now, c.stamp);
    PlacedOpen(inst.calendar, tf, c.stamp);
    forall k | 0 <= k < |fetch.rows|
      ensures Clear(r, fetch.rows[k], c.stamp) <==> !Names(inst.semantics, fetch.rows[k], c.stamp)
      ensures r.Read(fetch.rows[k]) == Some(c) <==>
              && Repeats(plan, inst, tf, fetch.rows[k], c) && Admissible(inst.semantics, fetch.rows[k])
              && c.derived == SaysAggregated(inst, tf, fetch) && c.transformReceiptId == None
    {
      ClearIff(r, fetch.rows[k], c.stamp);
      CopyRepeats(plan, inst, tf, fetch, fetch.rows[k], c);
    }
    if Alone(r, fetch.rows, c) {
      var j: nat :| AloneAt(r, fetch.rows, c, j);
    }
    if c in Gate(plan, inst, tf, fetch).usable {
      var j: nat :| AloneAt(r, fetch.rows, c, j);
      assert Sourced(plan, inst, tf, fetch, j, c);
    }
    if c.transformReceiptId == None && exists j: nat :: Sourced(plan, inst, tf, fetch, j, c) {
      var j: nat :| Sourced(plan, inst, tf, fetch, j, c);
      assert AloneAt(r, fetch.rows, c, j);
    }
  }

  /** A candle that passed the gate of an answer repeats one of its rows. */
  lemma TrustedIsSourced(plan: Plan, inst: Instrument, tf: Timeframe, fetch: Fetch, c: Candle) returns (j: nat)
    requires Trusted(plan, inst, tf, fetch, c)
    ensures Sourced(plan, inst, tf, fetch, j, c)
  {
    hide Alone, Closed, WellPlaced, Gate, Sourced;
    UsableExactly(plan, inst, tf, fetch, c);
    PromotedIff(plan, inst, tf, fetch, c);
    j :| Sourced(plan, inst, tf, fetch, j, c);
  }

  lemma PlacedOpen(cal: Spec, tf: Timeframe, t: int)
    requires cal.Known() && IsMvp(tf)
    ensures WellPlaced(cal, tf, t) <==> OnOpenQuarter(cal, tf, t)
  {
    hide WellPlaced, OpenAt, MinuteOfDay, TimeOfDay;
    PlacedIff(cal, tf, t);
  }

  /** The stored candle repeats a row of an answer that one of the sessions got. */
  ghost predicate FromAnswer(s: System, id: CandleId, sid: nat, i: nat, j: nat)
    requires id in s.tables.candles
  {
    && sid in s.sessions && i < |s.sessions[sid].answered|
    && var x := s.sessions[sid];
       var a := x.answered[i];
       Sourced(x.plan, a.inst, a.tf, a.fetch, j, s.tables.candles[id].(transformReceiptId := None))
  }

  lemma WithoutReceipt(plan: Plan, inst: Instrument, tf: Timeframe, fetch: Fetch, j: nat, row: Candle, c: Candle)
    requires Sourced(plan, inst, tf, fetch, j, c) && StoredFrom(row, c)
    ensures Sourced(plan, inst, tf, fetch, j, row.(transformReceiptId := None))
  {
    hide InstantOf, Admissible, RunOut, SaysAggregated, OnOpenQuarter, Names;
    var bare := row.(transformReceiptId := None);
    assert bare == c.(transformReceiptId := None);
    assert bare.stamp == c.stamp && bare.derived == c.derived && bare.key == c.key;
    assert Repeats(plan, inst, tf, fetch.rows[j], bare);
  }

  /**
   However runs interleave, every stored candle lies under its own identity and repeats, field by field, a row
   of an answer some run got: a row whose instant no other row of that answer speaks of, and whose bar
   had run its length before that run's cutoff.
   */
  lemma AlwaysSourced(run: seq<System>, k: nat, id: CandleId) returns (sid: nat, i: nat, j: nat)
    requires Behaviour(run) && k < |run| && id in run[k].tables.candles
    ensures CandleIdOf(run[k].tables.candles[id]) == id && FromAnswer(run[k], id, sid, i, j)
  {
    hide Behaviour, Trusted, Sourced, StoredFrom;
    AlwaysVetted(run, k);
    var s := run[k];
    assert RowTrusted(s, id);
    var session, c :| session in s.sessions && TrustedBy(s.sessions[session], c) && CandleIdOf(c) == id && StoredFrom(s.tables.candles[id], c);
    var x := s.sessions[session];
    var at :| 0 <= at < |x.answered| && Trusted(x.plan, x.answered[at].inst, x.answered[at].tf, x.answered[at].fetch, c);
    sid, i := session, at;
    j := TrustedIsSourced(x.plan, x.answered[at].inst, x.answered[at].tf, x.answered[at].fetch, c);
    WithoutReceipt(x.plan, x.answered[at].inst, x.answered[at].tf, x.answered[at].fetch, j, s.tables.candles[id], c);
    SameIdentity(s.tables.candles[id], c);
  }

  lemma SameIdentity(row: Candle, c: Candle)
    requires StoredFrom(row, c)
    ensures CandleIdOf(row) == CandleIdOf(c)
  {
    assert row.(transformReceiptId := None).stamp == c.(transformReceiptId := None).stamp;
    assert row.(transformReceiptId := None).key == c.(transformReceiptId := None).key;
  }
}
