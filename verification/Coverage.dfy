/** The coverage report of a backfill (src/kline/okx_history.py `_missing_runs`, `_merge`, `build_report`). */
module Coverage {
  import opened Backfill

  datatype Cause = FetchFailed | VenueNoBar

  /** A run of missing minutes, both ends included; `next` is the minute after it. */
  datatype Gap = Gap(start: int, end: int, minutes: nat, cause: Cause, next: int) {
    predicate Sound() {
      minutes >= 1 && next == start + minutes * MINUTE_MS && end == next - MINUTE_MS
    }
  }

  /** One missing minute. */
  datatype Hole = Hole(at: int, cause: Cause)

  function Expand(g: Gap): seq<Hole> {
    seq(g.minutes, i requires 0 <= i < g.minutes => Hole(g.start + i * MINUTE_MS, g.cause))
  }

  /** The minutes gaps stand for, one by one. */
  function ExpandAll(gaps: seq<Gap>): seq<Hole> {
    if gaps == [] then [] else ExpandAll(gaps[..|gaps| - 1]) + Expand(gaps[|gaps| - 1])
  }

  function Total(gaps: seq<Gap>): nat {
    if gaps == [] then 0 else Total(gaps[..|gaps| - 1]) + gaps[|gaps| - 1].minutes
  }

  /** The first n minutes from `start` that are not present, oldest first. */
  function Absent(present: set<int>, start: int, n: nat, cause: Cause): seq<Hole> {
    if n == 0 then []
    else
      var t := start + (n - 1) * MINUTE_MS;
      Absent(present, start, n - 1, cause) + if t in present then [] else [Hole(t, cause)]
  }

  function CauseOf(failures: set<int>, w: Span): Cause {
    if w.start in failures then FetchFailed else VenueNoBar
  }

  /** The missing minutes of windows, each with the cause of its window. */
  function AbsentIn(present: set<int>, ws: seq<Span>, failures: set<int>): seq<Hole>
    requires AllWhole(ws)
  {
    if ws == [] then []
    else
      var n := |ws| - 1;
      AbsentIn(present, ws[..n], failures) + Absent(present, ws[n].start, ws[n].Minutes(), CauseOf(failures, ws[n]))
  }

  /** Well formed, in order, without overlap; neighbours that touch differ in cause. */
  predicate Maximal(gaps: seq<Gap>) {
    && (forall i :: 0 <= i < |gaps| ==> gaps[i].Sound())
    && (forall i :: 0 < i < |gaps| ==>
          gaps[i - 1].next < gaps[i].start || (gaps[i - 1].next == gaps[i].start && gaps[i - 1].cause != gaps[i].cause))
  }

  /** Well formed and in order. */
  predicate InOrder(gaps: seq<Gap>) {
    && (forall i :: 0 <= i < |gaps| ==> gaps[i].Sound())
    && (forall i :: 0 < i < |gaps| ==> gaps[i - 1].next <= gaps[i].start)
  }

  lemma {:induction false} ExpandMore(g: Gap, k: nat)
    requires g.Sound()
    ensures Expand(g.(end := g.next + (k - 1) * MINUTE_MS, minutes := g.minutes + k, next := g.next + k * MINUTE_MS)) ==
            Expand(g) + Expand(Gap(g.next, g.next + (k - 1) * MINUTE_MS, k, g.cause, g.next + k * MINUTE_MS))
  {
  }

  lemma {:induction false} ExpandLast(gaps: seq<Gap>, g: Gap)
    ensures ExpandAll(gaps + [g]) == ExpandAll(gaps) + Expand(g)
    ensures Total(gaps + [g]) == Total(gaps) + g.minutes
  {
    assert (gaps + [g])[..|gaps|] == gaps;
  }

  lemma NothingExpands()
    ensures ExpandAll([]) == [] && Total([]) == 0
  {
  }

  predicate Spanning(runs: seq<Gap>, start: int, end: int, cause: Cause) {
    forall i :: 0 <= i < |runs| ==> start <= runs[i].start && runs[i].next <= end && runs[i].cause == cause
  }

  /** One more missing minute: it lengthens the last run when it follows it, or starts a run. */
  function Grown(runs: seq<Gap>, t: int, cause: Cause): seq<Gap> {
    if runs != [] && runs[|runs| - 1].next == t then
      var last := runs[|runs| - 1];
      runs[..|runs| - 1] + [last.(end := t, minutes := last.minutes + 1, next := t + MINUTE_MS)]
    else runs + [Gap(t, t, 1, cause, t + MINUTE_MS)]
  }

  lemma {:induction false} GrownExpands(runs: seq<Gap>, t: int, cause: Cause)
    requires Maximal(runs) && (runs != [] ==> runs[|runs| - 1].cause == cause)
    ensures ExpandAll(Grown(runs, t, cause)) == ExpandAll(runs) + [Hole(t, cause)]
  {
    hide Expand, ExpandAll;
    if runs != [] && runs[|runs| - 1].next == t {
      ExtendLast(runs, cause);
    } else {
      OneMinute(t, cause);
      ExpandLast(runs, Gap(t, t, 1, cause, t + MINUTE_MS));
    }
  }

  lemma {:induction false} GrownKeeps(runs: seq<Gap>, start: int, t: int, cause: Cause)
    requires Maximal(runs) && Spanning(runs, start, t, cause) && start <= t
    ensures Maximal(Grown(runs, t, cause)) && Spanning(Grown(runs, t, cause), start, t + MINUTE_MS, cause)
  {
    hide Gap.Sound;
    if runs != [] && runs[|runs| - 1].next == t {
      GrowsSound(runs[|runs| - 1]);
      LastLengthened(runs, start, t, cause);
    } else {
      MinuteSound(t, cause);
    }
  }

  lemma {:induction false} LastLengthened(runs: seq<Gap>, start: int, t: int, cause: Cause)
    requires Maximal(runs) && Spanning(runs, start, t, cause) && runs != [] && runs[|runs| - 1].next == t
    requires Grown(runs, t, cause)[|runs| - 1].Sound()
    ensures Maximal(Grown(runs, t, cause)) && Spanning(Grown(runs, t, cause), start, t + MINUTE_MS, cause)
  {
    hide Gap.Sound;
    var grown := Grown(runs, t, cause);
    assert forall i :: 0 <= i < |runs| ==> grown[i].start == runs[i].start;
    assert forall i :: 0 <= i < |runs| - 1 ==> grown[i] == runs[i];
  }

  lemma GrowsSound(g: Gap)
    requires g.Sound()
    ensures g.(end := g.next, minutes := g.minutes + 1, next := g.next + MINUTE_MS).Sound()
  {
  }

  lemma MinuteSound(t: int, cause: Cause)
    ensures Gap(t, t, 1, cause, t + MINUTE_MS).Sound()
  {
  }

  lemma {:induction false} SpanningWidens(runs: seq<Gap>, start: int, end: int, end': int, cause: Cause)
    requires Spanning(runs, start, end, cause) && end <= end'
    ensures Spanning(runs, start, end', cause)
  {
  }

  /** `_missing_runs` */
  method MissingRuns(present: set<int>, start: int, n: nat, cause: Cause) returns (runs: seq<Gap>)
    ensures ExpandAll(runs) == Absent(present, start, n, cause)
    ensures Maximal(runs) && Spanning(runs, start, start + n * MINUTE_MS, cause)
  {
    hide Expand, ExpandAll, Maximal, Spanning;
    runs := [];
    NoGaps(start, cause);
    var cursor := start;
    for i := 0 to n
      invariant cursor == start + i * MINUTE_MS
      invariant ExpandAll(runs) == Absent(present, start, i, cause)
      invariant Maximal(runs) && Spanning(runs, start, cursor, cause)
    {
      if cursor !in present {
        SpanningCause(runs, start, cursor, cause);
        GrownExpands(runs, cursor, cause);
        GrownKeeps(runs, start, cursor, cause);
        if runs != [] && runs[|runs| - 1].next == cursor {
          var last := runs[|runs| - 1];
          runs := runs[..|runs| - 1] + [last.(end := cursor, minutes := last.minutes + 1, next := cursor + MINUTE_MS)];
        } else {
          runs := runs + [Gap(cursor, cursor, 1, cause, cursor + MINUTE_MS)];
        }
      } else {
        SpanningWidens(runs, start, cursor, cursor + MINUTE_MS, cause);
      }
      cursor := cursor + MINUTE_MS;
    }
  }

  lemma {:induction false} SpanningCause(runs: seq<Gap>, start: int, end: int, cause: Cause)
    requires Spanning(runs, start, end, cause)
    ensures runs != [] ==> runs[|runs| - 1].cause == cause
  {
  }

  lemma NoGaps(start: int, cause: Cause)
    ensures ExpandAll([]) == [] && Total([]) == 0 && Maximal([]) && Spanning([], start, start, cause)
  {
  }

  lemma OneMinute(t: int, cause: Cause)
    ensures Expand(Gap(t, t, 1, cause, t + MINUTE_MS)) == [Hole(t, cause)]
  {
  }

  lemma {:induction false} ExtendLast(runs: seq<Gap>, cause: Cause)
    requires runs != [] && runs[|runs| - 1].Sound() && runs[|runs| - 1].cause == cause
    ensures var last := runs[|runs| - 1];
            ExpandAll(runs[..|runs| - 1] + [last.(end := last.next, minutes := last.minutes + 1, next := last.next + MINUTE_MS)]) ==
            ExpandAll(runs) + [Hole(last.next, cause)]
  {
    var p, last := runs[..|runs| - 1], runs[|runs| - 1];
    ExpandMore(last, 1);
    OneMinute(last.next, cause);
    ExpandLast(p, last.(end := last.next, minutes := last.minutes + 1, next := last.next + MINUTE_MS));
  }

  // ----- merging -----

  function Joins(a: Gap, b: Gap): bool {
    a.next == b.start && a.cause == b.cause
  }

  function JoinOf(a: Gap, b: Gap): Gap {
    a.(end := b.end, minutes := a.minutes + b.minutes, next := b.next)
  }

  lemma {:induction false} JoinExpands(a: Gap, b: Gap)
    requires a.Sound() && b.Sound() && Joins(a, b)
    ensures JoinOf(a, b).Sound() && Expand(JoinOf(a, b)) == Expand(a) + Expand(b)
  {
  }

  /** What merging one more gap does. */
  function Merged(gaps: seq<Gap>, g: Gap): seq<Gap> {
    if gaps != [] && Joins(gaps[|gaps| - 1], g) then gaps[..|gaps| - 1] + [JoinOf(gaps[|gaps| - 1], g)] else gaps + [g]
  }

  lemma {:induction false} MergedExpands(gaps: seq<Gap>, g: Gap)
    requires (gaps != [] ==> gaps[|gaps| - 1].Sound()) && g.Sound()
    ensures ExpandAll(Merged(gaps, g)) == ExpandAll(gaps) + Expand(g) && Total(Merged(gaps, g)) == Total(gaps) + g.minutes
  {
    hide Expand, ExpandAll, Total, Gap.Sound;
    ExpandLast(gaps, g);
    if gaps != [] && Joins(gaps[|gaps| - 1], g) {
      var p, last := gaps[..|gaps| - 1], gaps[|gaps| - 1];
      assert gaps == p + [last];
      JoinExpands(last, g);
      ExpandLast(p, last);
      ExpandLast(p, JoinOf(last, g));
    }
  }

  lemma {:induction false} MergedKeeps(gaps: seq<Gap>, g: Gap)
    requires Maximal(gaps) && g.Sound() && (gaps != [] ==> gaps[|gaps| - 1].next <= g.start)
    ensures Maximal(Merged(gaps, g)) && Merged(gaps, g) != [] && Merged(gaps, g)[|Merged(gaps, g)| - 1].next == g.next
    ensures ExpandAll(Merged(gaps, g)) == ExpandAll(gaps) + Expand(g) && Total(Merged(gaps, g)) == Total(gaps) + g.minutes
  {
    hide Expand, ExpandAll, Total;
    MergedExpands(gaps, g);
    if gaps != [] && Joins(gaps[|gaps| - 1], g) {
      JoinExpands(gaps[|gaps| - 1], g);
    }
  }

  /** `_merge` */
  method Merge(gaps: seq<Gap>) returns (merged: seq<Gap>)
    requires InOrder(gaps)
    ensures ExpandAll(merged) == ExpandAll(gaps) && Total(merged) == Total(gaps)
    ensures Maximal(merged)
  {
    hide Expand, Maximal, ExpandAll, Total;
    merged := [];
    NoGaps(0, VenueNoBar);
    for i := 0 to |gaps|
      invariant ExpandAll(merged) == ExpandAll(gaps[..i]) && Total(merged) == Total(gaps[..i])
      invariant Maximal(merged)
      invariant merged != [] ==> i > 0 && merged[|merged| - 1].next == gaps[i - 1].next
    {
      ExpandLast(gaps[..i], gaps[i]);
      assert gaps[..i + 1] == gaps[..i] + [gaps[i]];
      MergedKeeps(merged, gaps[i]);
      if merged != [] && merged[|merged| - 1].next == gaps[i].start && merged[|merged| - 1].cause == gaps[i].cause {
        var last := merged[|merged| - 1];
        merged := merged[..|merged| - 1] +
                  [last.(end := gaps[i].end, minutes := last.minutes + gaps[i].minutes, next := gaps[i].next)];
      } else {
        merged := merged + [gaps[i]];
      }
    }
    assert gaps[..|gaps|] == gaps;
  }

  // ----- the report -----

  datatype Report = Report(expected: int, bars: nat, gaps: seq<Gap>, missing: nat)

  lemma {:induction false} ExpandAppend(a: seq<Gap>, b: seq<Gap>)
    ensures ExpandAll(a + b) == ExpandAll(a) + ExpandAll(b) && Total(a + b) == Total(a) + Total(b)
    decreases |b|
  {
    hide ExpandAll, Total;
    if b == [] {
      assert a + b == a;
      NothingExpands();
    } else {
      var n := |b| - 1;
      ExpandAppend(a, b[..n]);
      assert a + b == a + b[..n] + [b[n]] && b == b[..n] + [b[n]];
      ExpandLast(a + b[..n], b[n]);
      ExpandLast(b[..n], b[n]);
    }
  }

  lemma {:induction false} TotalIsLength(gaps: seq<Gap>)
    ensures Total(gaps) == |ExpandAll(gaps)|
  {
    if gaps != [] {
      TotalIsLength(gaps[..|gaps| - 1]);
    }
  }

  lemma {:induction false} AppendInOrder(gaps: seq<Gap>, runs: seq<Gap>, middle: int, end: int, cause: Cause)
    requires InOrder(gaps) && (gaps != [] ==> gaps[|gaps| - 1].next <= middle)
    requires Maximal(runs) && Spanning(runs, middle, end, cause) && middle <= end
    ensures InOrder(gaps + runs) && (gaps + runs != [] ==> (gaps + runs)[|gaps + runs| - 1].next <= end)
  {
    hide Gap.Sound;
    var all, n := gaps + runs, |gaps|;
    assert forall i :: 0 <= i < n ==> all[i] == gaps[i];
    assert forall i :: n <= i < |all| ==> all[i] == runs[i - n];
    forall i | 0 < i < |all|
      ensures all[i - 1].next <= all[i].start
    {
      if i > n {
        assert runs[i - n - 1].next <= runs[i - n].start;
      }
    }
  }

  /** `build_report`: what is stored of the range against what should be. */
  method BuildReport(store: map<int, Bar>, start: int, end: int, failures: set<int>) returns (r: Report)
    requires start % MINUTE_MS == 0 && end % MINUTE_MS == 0
    ensures AllWhole(Windows(start, end))
    ensures ExpandAll(r.gaps) == AbsentIn(Stamps(store, Span(start, end)), Windows(start, end), failures)
    ensures forall h :: h in ExpandAll(r.gaps) <==> Explained(store, start, end, failures, h)
    ensures Maximal(r.gaps) && r.missing == |ExpandAll(r.gaps)|
    ensures r.expected == (end - start) / MINUTE_MS && r.bars == |Stamps(store, Span(start, end))|
  {
    hide Expand, Maximal, ExpandAll, Total, Span.Whole, Windows, InOrder, Spanning, Stamps, Explained;
    WindowsTile(start, end);
    var present, ws := Stamps(store, Span(start, end)), Windows(start, end);
    var gaps: seq<Gap> := [];
    NothingInOrder();
    for i := 0 to |ws|
      invariant ExpandAll(gaps) == AbsentIn(present, ws[..i], failures)
      invariant InOrder(gaps) && (gaps != [] ==> i > 0 && gaps[|gaps| - 1].next <= ws[i - 1].end)
    {
      WholeWindow(ws[i]);
      var runs := MissingRuns(present, ws[i].start, ws[i].Minutes(), CauseOf(failures, ws[i]));
      AppendInOrder(gaps, runs, ws[i].start, ws[i].end, CauseOf(failures, ws[i]));
      ExpandAppend(gaps, runs);
      assert ws[..i + 1][..i] == ws[..i];
      gaps := gaps + runs;
    }
    assert ws[..|ws|] == ws;
    TotalIsLength(gaps);
    var merged := Merge(gaps);
    r := Report((end - start) / MINUTE_MS, |present|, merged, Total(gaps));
    forall h
      ensures h in ExpandAll(r.gaps) <==> Explained(store, start, end, failures, h)
    {
      GapsExactly(store, start, end, failures, h);
    }
  }

  lemma NothingInOrder()
    ensures ExpandAll([]) == [] && InOrder([]) && Total([]) == 0
  {
  }

  lemma WholeWindow(w: Span)
    requires w.Whole()
    ensures w.Minutes() >= 0 && w.end == w.start + w.Minutes() * MINUTE_MS
  {
  }

  // ----- what the report says -----

  lemma {:induction false} AbsentExactly(present: set<int>, start: int, n: nat, cause: Cause, h: Hole)
    ensures h in Absent(present, start, n, cause) <==>
            h.cause == cause && start <= h.at < start + n * MINUTE_MS && (h.at - start) % MINUTE_MS == 0 && h.at !in present
  {
    if n > 0 {
      AbsentExactly(present, start, n - 1, cause, h);
    }
  }

  ghost predicate MissingIn(present: set<int>, ws: seq<Span>, failures: set<int>, h: Hole) {
    exists i :: 0 <= i < |ws| && Minute(ws[i], h.at) && h.at !in present && h.cause == CauseOf(failures, ws[i])
  }

  lemma WholeMinute(w: Span, t: int)
    requires w.Whole()
    ensures Minute(w, t) <==> w.Has(t) && (t - w.start) % MINUTE_MS == 0
  {
    SameMinute(w.start, t);
  }

  lemma OneWindowExactly(present: set<int>, w: Span, cause: Cause, h: Hole)
    requires w.Whole()
    ensures h in Absent(present, w.start, w.Minutes(), cause) <==> Minute(w, h.at) && h.at !in present && h.cause == cause
  {
    hide Span.Whole, Span.Minutes, Absent, Minute;
    WholeWindow(w);
    AbsentExactly(present, w.start, w.Minutes(), cause, h);
    WholeMinute(w, h.at);
  }

  /** The listed minutes are the minutes of the windows that are not present, each with the cause of its window. */
  lemma {:induction false} AbsentInExactly(present: set<int>, ws: seq<Span>, failures: set<int>, h: Hole)
    requires AllWhole(ws)
    ensures h in AbsentIn(present, ws, failures) <==> MissingIn(present, ws, failures, h)
  {
    hide Span.Whole, Span.Minutes, Absent, Minute, CauseOf;
    if ws != [] {
      var n := |ws| - 1;
      AbsentInExactly(present, ws[..n], failures, h);
      WholeWindow(ws[n]);
      OneWindowExactly(present, ws[n], CauseOf(failures, ws[n]), h);
      MissingSplit(present, ws, failures, h);
    }
  }

  lemma {:induction false} MissingSplit(present: set<int>, ws: seq<Span>, failures: set<int>, h: Hole)
    requires ws != []
    ensures var w := ws[|ws| - 1];
            MissingIn(present, ws, failures, h) <==>
            MissingIn(present, ws[..|ws| - 1], failures, h) || (Minute(w, h.at) && h.at !in present && h.cause == CauseOf(failures, w))
  {
    hide Minute;
    var n := |ws| - 1;
    if MissingIn(present, ws[..n], failures, h) {
      var i :| 0 <= i < n && Minute(ws[..n][i], h.at) && h.at !in present && h.cause == CauseOf(failures, ws[..n][i]);
      assert Minute(ws[i], h.at);
    }
    if MissingIn(present, ws, failures, h) {
      var i :| 0 <= i < |ws| && Minute(ws[i], h.at) && h.at !in present && h.cause == CauseOf(failures, ws[i]);
      assert i < n ==> Minute(ws[..n][i], h.at);
    }
  }

  /**
   The hole is a minute of the range that is not stored, and blames its window: the fetch when the window
   is listed as failed, the venue otherwise.
   */
  ghost predicate Explained(store: map<int, Bar>, start: int, end: int, failures: set<int>, h: Hole) {
    && start <= h.at < end && h.at % MINUTE_MS == 0 && h.at !in store
    && exists w :: w in Windows(start, end) && w.Has(h.at) && (h.cause == FetchFailed <==> w.start in failures)
  }

  /** Expanded, the gaps of the report are exactly the absent minutes of the range, each blamed on the window it lies in. */
  lemma GapsExactly(store: map<int, Bar>, start: int, end: int, failures: set<int>, h: Hole)
    requires start % MINUTE_MS == 0 && end % MINUTE_MS == 0 && AllWhole(Windows(start, end))
    ensures h in AbsentIn(Stamps(store, Span(start, end)), Windows(start, end), failures) <==> Explained(store, start, end, failures, h)
  {
    hide Windows, Span.Whole, AbsentIn;
    var present, ws := Stamps(store, Span(start, end)), Windows(start, end);
    AbsentInExactly(present, ws, failures, h);
    WindowsPartition(start, end);
    assert start <= h.at < end ==> (h.at in present <==> h.at in store);
    assert start <= h.at < end <==> InSome(ws, h.at);
    if MissingIn(present, ws, failures, h) {
      var i :| 0 <= i < |ws| && Minute(ws[i], h.at) && h.at !in present && h.cause == CauseOf(failures, ws[i]);
      assert ws[i] in ws && ws[i].Has(h.at);
    }
    if Explained(store, start, end, failures, h) {
      var w :| w in ws && w.Has(h.at) && (h.cause == FetchFailed <==> w.start in failures);
      var i :| 0 <= i < |ws| && ws[i] == w;
      assert Minute(ws[i], h.at);
    }
  }

  /** Gaps are listed in order and never overlap, so each absent minute is listed once. */
  lemma {:induction false} GapsInOrder(gaps: seq<Gap>, i: nat, j: nat)
    requires Maximal(gaps) && i < j < |gaps|
    ensures gaps[i].next <= gaps[j].start
    decreases j
  {
    if i + 1 < j {
      GapsInOrder(gaps, i, j - 1);
    }
  }

  // ----- a backfill and its report -----

  /** The window held fewer bars than it has minutes, and the venue refused a page of it. */
  ghost predicate Unfetched(venue: Venue, store: map<int, Bar>, w: Span) {
    |Stamps(store, w)| < w.Minutes() && RefusesAPage(venue, w)
  }

  /** The hole the report of a backfill owes: its cause is the fetch exactly when its window stayed unfetched. */
  ghost predicate Owed(venue: Venue, before: map<int, Bar>, after: map<int, Bar>, start: int, end: int, h: Hole) {
    && start <= h.at < end && h.at % MINUTE_MS == 0 && h.at !in after
    && exists w :: w in Windows(start, end) && w.Has(h.at) && (h.cause == FetchFailed <==> Unfetched(venue, before, w))
  }

  lemma FailedIff(venue: Venue, store: map<int, Bar>, ws: seq<Span>, w: Span)
    requires AllWhole(ws) && Disjoint(ws) && w in ws
    ensures w.start in FailedStarts(venue, store, ws) <==> Unfetched(venue, store, w)
  {
    hide Stamps, Scan, RefusesAPage, Span.Minutes;
    RefusedIff(venue, w);
    var k :| 0 <= k < |ws| && ws[k] == w;
    if w.start in FailedStarts(venue, store, ws) {
      var i :| 0 <= i < |ws| && Fails(venue, store, ws[i]) && ws[i].start == w.start;
      assert i == k by {
        assert ws[i].start < ws[i].end && ws[k].start < ws[k].end;
      }
    }
    if Unfetched(venue, store, w) {
      assert Fails(venue, store, ws[k]);
    }
  }

  lemma WindowsSpan(start: int, end: int)
    requires start % MINUTE_MS == 0 && end % MINUTE_MS == 0
    ensures AllWhole(Windows(start, end)) && Disjoint(Windows(start, end))
  {
    hide Windows, Span.Whole;
    WindowsTile(start, end);
    WindowsPartition(start, end);
  }

  /**
   `backfill` and the report it writes: a minute that is missing afterwards is put down to the fetch exactly
   when its window was not skipped and the venue refused one of its pages.
   */
  method BackfillAndReport(history: History, venue: Venue, start: int, end: int) returns (r: Report)
    requires start % MINUTE_MS == 0 && end % MINUTE_MS == 0
    modifies history
    ensures history.bars == Run(venue, old(history.bars), Reversed(Windows(start, end)))
    ensures forall h :: h in ExpandAll(r.gaps) <==> Owed(venue, old(history.bars), history.bars, start, end, h)
  {
    hide Run, Windows, FailedStarts, Explained, Owed, ExpandAll, Maximal, Stamps, AbsentIn, AllWhole;
    var failures := history.Backfill(venue, start, end);
    r := BuildReport(history.bars, start, end, failures);
    forall h
      ensures h in ExpandAll(r.gaps) <==> Owed(venue, old(history.bars), history.bars, start, end, h)
    {
      OwedIff(venue, old(history.bars), history.bars, start, end, h);
    }
  }

  lemma OwedIff(venue: Venue, before: map<int, Bar>, after: map<int, Bar>, start: int, end: int, h: Hole)
    requires start % MINUTE_MS == 0 && end % MINUTE_MS == 0
    ensures Explained(after, start, end, FailedStarts(venue, before, Windows(start, end)), h) <==> Owed(venue, before, after, start, end, h)
  {
    hide Windows, FailedStarts, Unfetched, AllWhole, Disjoint, Span.Has;
    var ws := Windows(start, end);
    WindowsSpan(start, end);
    forall w | w in ws
      ensures w.start in FailedStarts(venue, before, ws) <==> Unfetched(venue, before, w)
    {
      FailedIff(venue, before, ws, w);
    }
  }

  /** The minutes of a range that are stored, on the minute. */
  function Aligned(present: set<int>, start: int, n: nat): set<int> {
    set t | t in present && start <= t < start + n * MINUTE_MS && (t - start) % MINUTE_MS == 0
  }

  lemma {:induction false} AbsentCount(present: set<int>, start: int, n: nat, cause: Cause)
    ensures |Absent(present, start, n, cause)| + |Aligned(present, start, n)| == n
  {
    if n > 0 {
      AbsentCount(present, start, n - 1, cause);
      var t := start + (n - 1) * MINUTE_MS;
      AlignedSplit(present, start, n);
      assert t !in Aligned(present, start, n - 1);
    } else {
      assert forall t :: t !in Aligned(present, start, n);
      assert Aligned(present, start, n) == {};
    }
  }

  lemma AlignedSplit(present: set<int>, start: int, n: nat)
    requires n > 0
    ensures var t := start + (n - 1) * MINUTE_MS;
            Aligned(present, start, n) == Aligned(present, start, n - 1) + if t in present then {t} else {}
  {
    var last := start + (n - 1) * MINUTE_MS;
    forall t
      ensures t in Aligned(present, start, n) <==> t in Aligned(present, start, n - 1) || (t == last && t in present)
    {
      StepMinute(start, n, t);
    }
  }

  lemma StepMinute(start: int, n: nat, t: int)
    requires n > 0
    ensures (t - start) % MINUTE_MS == 0 ==>
              (t < start + n * MINUTE_MS <==> t < start + (n - 1) * MINUTE_MS || t == start + (n - 1) * MINUTE_MS)
  {
    var q := (t - start) / MINUTE_MS;
    assert t - start == MINUTE_MS * q + (t - start) % MINUTE_MS;
  }

  lemma {:induction false} AbsentSplice(present: set<int>, start: int, n: nat, m: nat, c: Cause, d: Cause)
    ensures |Absent(present, start, n + m, c)| == |Absent(present, start, n, c)| + |Absent(present, start + n * MINUTE_MS, m, d)|
    decreases m
  {
    if m > 0 {
      AbsentSplice(present, start, n, m - 1, c, d);
      assert start + (n + m - 1) * MINUTE_MS == start + n * MINUTE_MS + (m - 1) * MINUTE_MS;
    }
  }

  /** The first i windows miss as many minutes as the stretch they cover. */
  lemma {:induction false} WindowsCount(present: set<int>, start: int, end: int, ws: seq<Span>, failures: set<int>, i: nat) returns (n: nat)
    requires AllWhole(ws) && Tiles(ws, start, end) && i <= |ws|
    ensures (if i == 0 then start else ws[i - 1].end) == start + n * MINUTE_MS
    ensures |AbsentIn(present, ws[..i], failures)| == |Absent(present, start, n, VenueNoBar)|
    decreases i
  {
    hide Absent, Span.Whole, Span.Minutes, Tiles, AllWhole;
    n := 0;
    NoMinutes(present, start);
    if i > 0 {
      var w := ws[i - 1];
      var m := WindowsCount(present, start, end, ws, failures, i - 1);
      NextWindow(ws, start, end, i - 1);
      OneMoreAbsent(present, ws, failures, i - 1);
      AbsentSplice(present, start, m, w.Minutes(), VenueNoBar, CauseOf(failures, w));
      n := m + w.Minutes();
    }
  }

  lemma NextWindow(ws: seq<Span>, start: int, end: int, i: nat)
    requires AllWhole(ws) && Tiles(ws, start, end) && i < |ws|
    ensures ws[i].start == (if i == 0 then start else ws[i - 1].end)
    ensures ws[i].Minutes() >= 0 && ws[i].end == ws[i].start + ws[i].Minutes() * MINUTE_MS
  {
    hide Span.Whole, Span.Minutes;
    WholeWindow(ws[i]);
  }

  lemma OneMoreAbsent(present: set<int>, ws: seq<Span>, failures: set<int>, i: nat)
    requires AllWhole(ws) && i < |ws| && ws[i].Minutes() >= 0
    ensures AllWhole(ws[..i]) && AllWhole(ws[..i + 1])
    ensures AbsentIn(present, ws[..i + 1], failures) ==
            AbsentIn(present, ws[..i], failures) + Absent(present, ws[i].start, ws[i].Minutes(), CauseOf(failures, ws[i]))
  {
    hide Absent, Span.Whole, Span.Minutes;
    assert ws[..i + 1][..i] == ws[..i];
  }

  lemma NoMinutes(present: set<int>, start: int)
    ensures Absent(present, start, 0, VenueNoBar) == []
  {
  }

  /**
   Stored and missing minutes add up to the expected ones, but for stored bars off the minute; so the
   report's three counts agree exactly when every stored bar of the range is on a minute.
   */
  lemma CountsAddUp(store: map<int, Bar>, start: int, end: int, failures: set<int>)
    requires start % MINUTE_MS == 0 && end % MINUTE_MS == 0 && start <= end && AllWhole(Windows(start, end))
    ensures var have := Stamps(store, Span(start, end));
            var missing := |AbsentIn(have, Windows(start, end), failures)|;
            && |have| + missing == (end - start) / MINUTE_MS + |set t | t in have && t % MINUTE_MS != 0|
            && (|have| + missing == (end - start) / MINUTE_MS <==> forall t :: t in have ==> t % MINUTE_MS == 0)
  {
    hide Windows, Span.Whole, AbsentIn, Absent;
    var have, ws, n := Stamps(store, Span(start, end)), Windows(start, end), (end - start) / MINUTE_MS;
    WindowsTile(start, end);
    var covered := WindowsCount(have, start, end, ws, failures, |ws|);
    assert ws[..|ws|] == ws && covered == n;
    AbsentCount(have, start, n, VenueNoBar);
    var on, off := Aligned(have, start, n), set t | t in have && t % MINUTE_MS != 0;
    OnAndOff(store, start, end, n);
    NoneOff(have, off);
  }

  lemma OnAndOff(store: map<int, Bar>, start: int, end: int, n: nat)
    requires start % MINUTE_MS == 0 && end == start + n * MINUTE_MS
    ensures var have := Stamps(store, Span(start, end));
            |have| == |Aligned(have, start, n)| + |set t | t in have && t % MINUTE_MS != 0|
  {
    var have := Stamps(store, Span(start, end));
    var on, off := Aligned(have, start, n), set t | t in have && t % MINUTE_MS != 0;
    forall t
      ensures t in have <==> t in on || t in off
      ensures !(t in on && t in off)
    {
      SameMinute(start, t);
    }
    assert have == on + off;
    assert on * off == {};
  }

  lemma NoneOff(have: set<int>, off: set<int>)
    requires off == set t | t in have && t % MINUTE_MS != 0
    ensures |off| == 0 <==> forall t :: t in have ==> t % MINUTE_MS == 0
  {
    if |off| == 0 {
      forall t | t in have
        ensures t % MINUTE_MS == 0
      {
        assert t !in off;
      }
    }
    if forall t :: t in have ==> t % MINUTE_MS == 0 {
      assert forall t :: t !in off;
      assert off == {};
    }
  }

  // ----- when a skip is right -----

  function OffMinute(have: set<int>): set<int> {
    set t | t in have && t % MINUTE_MS != 0
  }

  /** The minutes of a window the store does not hold. */
  function Holes(store: map<int, Bar>, w: Span): seq<Hole>
    requires w.Whole()
  {
    Absent(Stamps(store, w), w.start, w.Minutes(), VenueNoBar)
  }

  ghost predicate Full(store: map<int, Bar>, w: Span) {
    forall t :: Minute(w, t) ==> t in store
  }

  /** Any window of any store is skipped exactly when it has no more holes than bars off the minute. */
  lemma SkippedByCount(store: map<int, Bar>, w: Span)
    requires w.Whole()
    ensures Skipped(store, w) <==> |Holes(store, w)| <= |OffMinute(Stamps(store, w))|
  {
    hide Span.Whole, Absent, Aligned, Stamps;
    WholeWindow(w);
    AbsentCount(Stamps(store, w), w.start, w.Minutes(), VenueNoBar);
    WindowOnAndOff(store, w);
  }

  lemma WindowOnAndOff(store: map<int, Bar>, w: Span)
    requires w.Whole()
    ensures |Stamps(store, w)| == |Aligned(Stamps(store, w), w.start, w.Minutes())| + |OffMinute(Stamps(store, w))|
  {
    hide Aligned, Stamps;
    WholeWindow(w);
    OnAndOff(store, w.start, w.end, w.Minutes());
    assert Span(w.start, w.end) == w;
  }

  lemma FullIff(store: map<int, Bar>, w: Span)
    requires w.Whole()
    ensures Full(store, w) <==> Holes(store, w) == []
  {
    hide Span.Whole, Absent;
    WholeWindow(w);
    var have, n := Stamps(store, w), w.Minutes();
    forall t
      ensures Hole(t, VenueNoBar) in Holes(store, w) <==> Minute(w, t) && t !in store
    {
      AbsentExactly(have, w.start, n, VenueNoBar, Hole(t, VenueNoBar));
      WholeMinute(w, t);
    }
    if Full(store, w) && Holes(store, w) != [] {
      var h := Holes(store, w)[0];
      assert h in Holes(store, w);
      AbsentExactly(have, w.start, n, VenueNoBar, h);
      WholeMinute(w, h.at);
    }
  }

  /** A window is skipped although a minute is missing exactly when it has holes, and no more of them than bars off the minute. */
  lemma SkipMisleadsIff(store: map<int, Bar>, w: Span)
    requires w.Whole()
    ensures Skipped(store, w) && !Full(store, w) <==> 0 < |Holes(store, w)| <= |OffMinute(Stamps(store, w))|
    ensures Full(store, w) ==> Skipped(store, w)
  {
    hide Skipped, Full, Holes, OffMinute, Stamps;
    SkippedByCount(store, w);
    FullIff(store, w);
  }

  const ANY_BAR: Bar := Bar(1.0, 1.0, 1.0, 1.0, 0.0, 0.0)

  /** One bar on the minute and one off it make two minutes look complete. */
  lemma SkippedWithAHole()
    ensures var w, store := Span(0, 2 * MINUTE_MS), map[0 := ANY_BAR, SECOND_MS := ANY_BAR];
            w.Whole() && Holes(store, w) == [Hole(MINUTE_MS, VenueNoBar)] && OffMinute(Stamps(store, w)) == {SECOND_MS} && Skipped(store, w)
  {
    var w, store := Span(0, 2 * MINUTE_MS), map[0 := ANY_BAR, SECOND_MS := ANY_BAR];
    assert w.Minutes() == 2;
    assert 0 in Stamps(store, w) && MINUTE_MS !in Stamps(store, w);
    assert Absent(Stamps(store, w), 0, 1, VenueNoBar) == [];
    assert forall t :: t in OffMinute(Stamps(store, w)) <==> t in {SECOND_MS};
    SkippedByCount(store, w);
  }
}
