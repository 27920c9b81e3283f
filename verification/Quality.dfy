/**
 The quality gate (src/kline/market_calendar.py `assess_quality`), with the arguments the
 orchestrator gives it, and the rows it lets through (src/kline/ingestion.py `_usable_rows`).
 */
module Quality {
  import opened Results
  import opened Timestamps
  import opened Storage
  import opened Calendar

  datatype Grade = Pass | Partial | Fail

  /** A policy out of range, or a date past the last one the program can write. */
  datatype GateError = BadPolicy | DateOverflow

  datatype Verdict = Verdict(grade: Grade, issues: seq<Issue>, closed: nat, forming: nat)

  /** Market-open buffer in minutes and the tolerated share of bad rows. */
  datatype Policy = Policy(buffer: int, threshold: real) {
    predicate Valid() {
      buffer >= 0 && 0.0 <= threshold <= 1.0
    }
  }

  function Interval(tf: Timeframe): int
    requires IsMvp(tf)
  {
    match tf
    case M15 => QUARTER
    case H1 => HOUR
    case H4 => FOUR_HOURS
    case D1 => DAY
    case _ => WEEK
  }

  /** The bar's local time and its end have dates; a week's end is computed by way of its Friday. */
  predicate Datable(cal: Spec, tf: Timeframe, t: int)
    requires cal.Known() && IsMvp(tf)
  {
    && Representable(Local(cal, t)) && Representable(BarEnd(cal, tf, t))
    && (tf == W1 ==> LocalDay(cal, t) / 7 * 7 + (if cal.Continuous() then 6 else 4) < LAST_DAY)
  }

  /** The opening buffer is looked at: its end is the opening plus the buffer, as a local time. */
  predicate BufferLooked(cal: Spec, tf: Timeframe, cutoff: int, policy: Policy) {
    && policy.buffer > 0 && cal.id == CnA && (tf == M15 || tf == H1)
    && TradingDay(cal, LocalDay(cal, cutoff)) && Clock(9, 30) <= TimeOfDay(cal, cutoff)
  }

  /** The cutoff's local time and the end of the opening buffer have dates. */
  predicate CutoffDatable(cal: Spec, tf: Timeframe, cutoff: int, policy: Policy) {
    && Representable(Local(cal, cutoff))
    && (BufferLooked(cal, tf, cutoff, policy) ==>
          Representable(LocalDay(cal, cutoff) * DAY + Clock(9, 30) + policy.buffer * MINUTE))
  }

  /** The gate gets through these rows without leaving the dates. */
  predicate Fits(s: seq<Candle>, tf: Timeframe, cal: Spec, cutoff: int, policy: Policy)
    requires cal.Known() && IsMvp(tf)
  {
    (forall i :: 0 <= i < |s| ==> Datable(cal, tf, s[i].stamp)) && CutoffDatable(cal, tf, cutoff, policy)
  }

  predicate Intraday(tf: Timeframe) {
    tf == M15 || tf == H1 || tf == H4
  }

  predicate Closed(cal: Spec, tf: Timeframe, cutoff: int, t: int)
    requires cal.Known() && IsMvp(tf)
  {
    BarEnd(cal, tf, t) <= cutoff
  }

  /** Session bars must lie inside a session; every other bar may lie anywhere. */
  predicate WellPlaced(cal: Spec, tf: Timeframe, t: int) {
    Intraday(tf) && !cal.Continuous() ==> InsideSession(cal, t)
  }

  function BarIssues(cal: Spec, tf: Timeframe, cutoff: int, t: int): seq<Issue>
    requires cal.Known() && IsMvp(tf)
  {
    (if WellPlaced(cal, tf, t) then [] else [Issue(Malformed, At(t))]) +
    (if Closed(cal, tf, cutoff, t) then [] else [Issue(FormingBar, At(t))])
  }

  function RowIssues(cal: Spec, tf: Timeframe, cutoff: int, s: seq<Candle>): seq<Issue>
    requires cal.Known() && IsMvp(tf)
  {
    if s == [] then []
    else RowIssues(cal, tf, cutoff, s[..|s| - 1]) + BarIssues(cal, tf, cutoff, s[|s| - 1].stamp)
  }

  function ClosedStamps(cal: Spec, tf: Timeframe, cutoff: int, s: seq<Candle>): (r: seq<int>)
    requires cal.Known() && IsMvp(tf)
    ensures |r| <= |s|
  {
    if s == [] then []
    else
      var r := ClosedStamps(cal, tf, cutoff, s[..|s| - 1]);
      if Closed(cal, tf, cutoff, s[|s| - 1].stamp) then r + [s[|s| - 1].stamp] else r
  }

  predicate SameSession(cal: Spec, p: int, t: int) {
    cal.Continuous() ||
    exists i :: 0 <= i < |cal.sessions| && cal.sessions[i].open <= TimeOfDay(cal, p) < cal.sessions[i].close
                                        && cal.sessions[i].open <= TimeOfDay(cal, t) < cal.sessions[i].close
  }

  /** More than one and a half intervals between consecutive closed bars of one session. */
  predicate GapBetween(cal: Spec, tf: Timeframe, p: int, t: int)
    requires IsMvp(tf)
  {
    2 * (t - p) > 3 * Interval(tf) && SameSession(cal, p, t) && LocalDay(cal, p) == LocalDay(cal, t)
  }

  function GapIssues(cal: Spec, tf: Timeframe, stamps: seq<int>, n: nat): seq<Issue>
    requires IsMvp(tf) && n <= |stamps|
  {
    if n <= 1 then []
    else
      GapIssues(cal, tf, stamps, n - 1) +
      if GapBetween(cal, tf, stamps[n - 2], stamps[n - 1]) then [Issue(Gap, At(stamps[n - 1]))] else []
  }

  function Count(issues: seq<Issue>, kinds: set<IssueKind>): (n: nat)
    ensures n <= |issues|
    ensures n > 0 <==> exists i :: i in issues && i.kind in kinds
  {
    if issues == [] then 0
    else
      var n := Count(issues[..|issues| - 1], kinds);
      assert forall i :: i in issues <==> i in issues[..|issues| - 1] || i == issues[|issues| - 1];
      n + if issues[|issues| - 1].kind in kinds then 1 else 0
  }

  function AllIssues(s: seq<Candle>, tf: Timeframe, cal: Spec, cutoff: int, rejected: seq<Issue>): seq<Issue>
    requires cal.Known() && IsMvp(tf)
  {
    var stamps := ClosedStamps(cal, tf, cutoff, s);
    rejected + SequenceIssues(s) + (if s == [] then [Issue(MissingRows, Nowhere)] else []) +
    RowIssues(cal, tf, cutoff, s) + GapIssues(cal, tf, stamps, |stamps|)
  }

  predicate BufferActive(cal: Spec, tf: Timeframe, cutoff: int, policy: Policy) {
    && policy.buffer > 0
    && cal.id == CnA
    && (tf == M15 || tf == H1)
    && TradingDay(cal, LocalDay(cal, cutoff))
    && Clock(9, 30) <= TimeOfDay(cal, cutoff) < Clock(9, 30) + policy.buffer * MINUTE
  }

  function Blocking(buffered: bool): set<IssueKind> {
    {MixedSource, MissingRows} + if buffered then {} else {FormingBar}
  }

  const BAD_ROW: set<IssueKind> := {Malformed, Duplicate, OutOfOrder}

  predicate TooManyBadRows(issues: seq<Issue>, rows: nat, threshold: real) {
    var observed := rows + Count(issues, {Gap});
    Count(issues, BAD_ROW) as real > threshold * (if observed < 1 then 1 else observed) as real
  }

  function GradeOf(issues: seq<Issue>, rows: nat, buffered: bool, threshold: real): Grade {
    if Count(issues, Blocking(buffered)) > 0 || TooManyBadRows(issues, rows, threshold) then Fail
    else if issues != [] then Partial
    else Pass
  }

  /** What the gate says of rows `s`, given the issues of the rows rejected before it. */
  function Assess(s: seq<Candle>, tf: Timeframe, cal: Spec, cutoff: int, policy: Policy, rejected: seq<Issue>): Verdict
    requires cal.Known() && IsMvp(tf)
  {
    var issues := AllIssues(s, tf, cal, cutoff, rejected);
    var closed := |ClosedStamps(cal, tf, cutoff, s)|;
    Verdict(GradeOf(issues, |s|, BufferActive(cal, tf, cutoff, policy), policy.threshold), issues, closed, |s| - closed)
  }

  lemma OneMoreRow(cal: Spec, tf: Timeframe, cutoff: int, s: seq<Candle>, i: nat)
    requires cal.Known() && IsMvp(tf) && i < |s|
    ensures var t := s[i].stamp;
            var placed := if WellPlaced(cal, tf, t) then RowIssues(cal, tf, cutoff, s[..i]) else RowIssues(cal, tf, cutoff, s[..i]) + [Issue(Malformed, At(t))];
            && RowIssues(cal, tf, cutoff, s[..i + 1]) == (if Closed(cal, tf, cutoff, t) then placed else placed + [Issue(FormingBar, At(t))])
            && ClosedStamps(cal, tf, cutoff, s[..i + 1]) ==
               (if Closed(cal, tf, cutoff, t) then ClosedStamps(cal, tf, cutoff, s[..i]) + [t] else ClosedStamps(cal, tf, cutoff, s[..i]))
  {
    hide Closed, WellPlaced;
    assert s[..i + 1][..i] == s[..i];
  }

  /** The bar loop; it stops at a bar whose dates cannot be written. */
  method CheckBars(s: seq<Candle>, tf: Timeframe, cal: Spec, cutoff: int)
    returns (ok: bool, issues: seq<Issue>, stamps: seq<int>, closed: nat, forming: nat)
    requires cal.Known() && IsMvp(tf)
    ensures ok <==> forall i :: 0 <= i < |s| ==> Datable(cal, tf, s[i].stamp)
    ensures ok ==> issues == RowIssues(cal, tf, cutoff, s) && stamps == ClosedStamps(cal, tf, cutoff, s)
    ensures ok ==> closed == |stamps| && forming == |s| - closed
  {
    hide BarEnd, WellPlaced, RowIssues, ClosedStamps, BarIssues, Datable;
    ok, issues, stamps, closed, forming := true, [], [], 0, 0;
    NoRows(cal, tf, cutoff);
    for i := 0 to |s|
      invariant ok && forall k :: 0 <= k < i ==> Datable(cal, tf, s[k].stamp)
      invariant issues == RowIssues(cal, tf, cutoff, s[..i])
      invariant stamps == ClosedStamps(cal, tf, cutoff, s[..i])
      invariant closed == |stamps| && forming == i - closed
    {
      OneMoreRow(cal, tf, cutoff, s, i);
      var t := s[i].stamp;
      if !Datable(cal, tf, t) {
        ok := false;
        return;
      }
      if !WellPlaced(cal, tf, t) {
        issues := issues + [Issue(Malformed, At(t))];
      }
      if BarEnd(cal, tf, t) > cutoff {
        forming := forming + 1;
        issues := issues + [Issue(FormingBar, At(t))];
      } else {
        closed := closed + 1;
        stamps := stamps + [t];
      }
    }
    assert s[..|s|] == s;
  }

  lemma NoRows(cal: Spec, tf: Timeframe, cutoff: int)
    requires cal.Known() && IsMvp(tf)
    ensures RowIssues(cal, tf, cutoff, []) == [] && ClosedStamps(cal, tf, cutoff, []) == []
  {
  }

  method FindGaps(cal: Spec, tf: Timeframe, stamps: seq<int>) returns (issues: seq<Issue>)
    requires IsMvp(tf)
    ensures issues == GapIssues(cal, tf, stamps, |stamps|)
  {
    hide GapBetween;
    issues := [];
    if |stamps| > 1 {
      for i := 1 to |stamps|
        invariant issues == GapIssues(cal, tf, stamps, i)
      {
        if GapBetween(cal, tf, stamps[i - 1], stamps[i]) {
          issues := issues + [Issue(Gap, At(stamps[i]))];
        }
      }
    }
  }

  /** `assess_quality`: a policy outside its range is an error, and so is leaving the dates. */
  method AssessQuality(s: seq<Candle>, tf: Timeframe, cal: Spec, cutoff: int, policy: Policy, rejected: seq<Issue>)
    returns (r: Result<Verdict, GateError>)
    requires cal.Known() && IsMvp(tf)
    ensures !policy.Valid() ==> r == Err(BadPolicy)
    ensures policy.Valid() && !Fits(s, tf, cal, cutoff, policy) ==> r == Err(DateOverflow)
    ensures policy.Valid() && Fits(s, tf, cal, cutoff, policy) ==> r == Ok(Assess(s, tf, cal, cutoff, policy, rejected))
  {
    hide GradeOf, BufferActive, RowIssues, ClosedStamps, GapIssues, SequenceIssues, Datable, CutoffDatable;
    if !policy.Valid() {
      return Err(BadPolicy);
    }
    var sequence := FindSequenceIssues(s);
    var ok, bars, stamps, closed, forming := CheckBars(s, tf, cal, cutoff);
    if !ok || !CutoffDatable(cal, tf, cutoff, policy) {
      return Err(DateOverflow);
    }
    var gaps := FindGaps(cal, tf, stamps);
    var missing := if s == [] then [Issue(MissingRows, Nowhere)] else [];
    var issues := rejected + sequence + missing + bars + gaps;
    r := Ok(Verdict(GradeOf(issues, |s|, BufferActive(cal, tf, cutoff, policy), policy.threshold), issues, closed, forming));
  }

  // ----- what a grade means -----

  /** Consecutive bars of one session never leave an interval out. */
  predicate NoGaps(cal: Spec, tf: Timeframe, s: seq<Candle>)
    requires IsMvp(tf)
  {
    forall i :: 0 < i < |s| ==> !GapBetween(cal, tf, s[i - 1].stamp, s[i].stamp)
  }

  lemma {:induction false} CleanRows(cal: Spec, tf: Timeframe, cutoff: int, s: seq<Candle>)
    requires cal.Known() && IsMvp(tf)
    ensures RowIssues(cal, tf, cutoff, s) == [] <==>
            forall i :: 0 <= i < |s| ==> WellPlaced(cal, tf, s[i].stamp) && Closed(cal, tf, cutoff, s[i].stamp)
    ensures (forall i :: 0 <= i < |s| ==> Closed(cal, tf, cutoff, s[i].stamp)) ==>
            |ClosedStamps(cal, tf, cutoff, s)| == |s| &&
            forall i :: 0 <= i < |s| ==> ClosedStamps(cal, tf, cutoff, s)[i] == s[i].stamp
  {
    hide WellPlaced, Closed;
    if s != [] {
      var p := s[..|s| - 1];
      CleanRows(cal, tf, cutoff, p);
      assert forall i :: 0 <= i < |p| ==> p[i] == s[i];
    }
  }

  lemma {:induction false} CleanGaps(cal: Spec, tf: Timeframe, stamps: seq<int>, n: nat)
    requires IsMvp(tf) && n <= |stamps|
    ensures GapIssues(cal, tf, stamps, n) == [] <==>
            forall i :: 0 < i < n ==> !GapBetween(cal, tf, stamps[i - 1], stamps[i])
  {
    hide GapBetween;
    if n > 1 {
      CleanGaps(cal, tf, stamps, n - 1);
    }
  }

  /** Whatever the policy, a pass means no issue at all. */
  lemma PassIsClean(issues: seq<Issue>, rows: nat, buffered: bool, threshold: real)
    requires threshold >= 0.0
    ensures GradeOf(issues, rows, buffered, threshold) == Pass <==> issues == []
  {
    hide Blocking;
    if issues == [] {
      assert Count(issues, BAD_ROW) == 0;
    }
  }

  lemma NoIssueIff(s: seq<Candle>, tf: Timeframe, cal: Spec, cutoff: int, rejected: seq<Issue>)
    requires cal.Known() && IsMvp(tf)
    ensures var stamps := ClosedStamps(cal, tf, cutoff, s);
            AllIssues(s, tf, cal, cutoff, rejected) == [] <==>
            rejected == [] && SequenceIssues(s) == [] && s != [] && RowIssues(cal, tf, cutoff, s) == [] && GapIssues(cal, tf, stamps, |stamps|) == []
  {
    hide SequenceIssues, RowIssues, ClosedStamps, GapIssues;
  }

  /**
   A pass means: no row was rejected, there are rows, they strictly increase, come from one source,
   are all closed at the cutoff, lie in session when intraday, and leave no gap; and all of that
   means a pass.
   */
  lemma PassIff(s: seq<Candle>, tf: Timeframe, cal: Spec, cutoff: int, policy: Policy, rejected: seq<Issue>)
    requires cal.Known() && IsMvp(tf) && policy.Valid()
    ensures Assess(s, tf, cal, cutoff, policy, rejected).grade == Pass <==>
            && rejected == [] && s != [] && StrictlyIncreasing(s) && OneSource(s)
            && (forall i :: 0 <= i < |s| ==> WellPlaced(cal, tf, s[i].stamp) && Closed(cal, tf, cutoff, s[i].stamp))
            && NoGaps(cal, tf, s)
  {
    hide WellPlaced, Closed, GapBetween, SequenceIssues, RowIssues, ClosedStamps, GapIssues, BufferActive, AllIssues, GradeOf;
    PassIsClean(AllIssues(s, tf, cal, cutoff, rejected), |s|, BufferActive(cal, tf, cutoff, policy), policy.threshold);
    NoIssueIff(s, tf, cal, cutoff, rejected);
    SequenceClean(s);
    CleanRows(cal, tf, cutoff, s);
    var stamps := ClosedStamps(cal, tf, cutoff, s);
    CleanGaps(cal, tf, stamps, |stamps|);
  }

  lemma {:induction false} RowIssueMembers(cal: Spec, tf: Timeframe, cutoff: int, s: seq<Candle>, i: Issue)
    requires cal.Known() && IsMvp(tf)
    ensures i in RowIssues(cal, tf, cutoff, s) <==>
            exists c :: c in s && i in BarIssues(cal, tf, cutoff, c.stamp)
  {
    hide BarIssues;
    if s != [] {
      var n := |s| - 1;
      RowIssueMembers(cal, tf, cutoff, s[..n], i);
      assert forall c :: c in s <==> c in s[..n] || c == s[n];
    }
  }

  /** Outside the opening buffer a cell that is not failed has only closed bars. */
  lemma NotFailedIsClosed(s: seq<Candle>, tf: Timeframe, cal: Spec, cutoff: int, policy: Policy, rejected: seq<Issue>)
    requires cal.Known() && IsMvp(tf) && Assess(s, tf, cal, cutoff, policy, rejected).grade != Fail
    ensures s != [] && OneSource(s)
    ensures !BufferActive(cal, tf, cutoff, policy) ==> forall c :: c in s ==> Closed(cal, tf, cutoff, c.stamp)
    ensures !TooManyBadRows(Assess(s, tf, cal, cutoff, policy, rejected).issues, |s|, policy.threshold)
  {
    hide Closed, SequenceIssues, ClosedStamps, GapIssues, BufferActive, RowIssues, TooManyBadRows;
    var issues := AllIssues(s, tf, cal, cutoff, rejected);
    MissingIsReported(s, tf, cal, cutoff, rejected);
    if !BufferActive(cal, tf, cutoff, policy) {
      forall c | c in s
        ensures Closed(cal, tf, cutoff, c.stamp)
      {
        var i := Issue(FormingBar, At(c.stamp));
        RowIssueMembers(cal, tf, cutoff, s, i);
        assert i in RowIssues(cal, tf, cutoff, s) ==> i in issues;
      }
    }
  }

  lemma MissingIsReported(s: seq<Candle>, tf: Timeframe, cal: Spec, cutoff: int, rejected: seq<Issue>)
    requires cal.Known() && IsMvp(tf)
    ensures s == [] ==> Issue(MissingRows, Nowhere) in AllIssues(s, tf, cal, cutoff, rejected)
    ensures !OneSource(s) ==> Issue(MixedSource, Nowhere) in AllIssues(s, tf, cal, cutoff, rejected)
  {
    hide RowIssues, GapIssues, ClosedStamps;
    var i := Issue(MixedSource, Nowhere);
    assert !OneSource(s) ==> i in SequenceIssues(s);
  }

  // ----- rows that may be promoted -----

  const UNUSABLE: set<IssueKind> := {Malformed, Duplicate, FormingBar, OutsideSession}

  predicate Excluded(issues: seq<Issue>, t: int) {
    exists i :: i in issues && i.kind in UNUSABLE && PointsAt(i.at, t)
  }

  /** `_usable_rows` */
  function UsableRows(s: seq<Candle>, issues: seq<Issue>): (r: seq<Candle>)
  {
    if s == [] then []
    else
      var r := UsableRows(s[..|s| - 1], issues);
      if Excluded(issues, s[|s| - 1].stamp) then r else r + [s[|s| - 1]]
  }

  lemma {:induction false} UsableMembers(s: seq<Candle>, issues: seq<Issue>, c: Candle)
    ensures c in UsableRows(s, issues) <==> c in s && !Excluded(issues, c.stamp)
  {
    hide Excluded;
    if s != [] {
      UsableMembers(s[..|s| - 1], issues, c);
      assert forall x :: x in s <==> x in s[..|s| - 1] || x == s[|s| - 1];
    }
  }

  lemma {:induction false} SequenceMembers(s: seq<Candle>, n: nat, i: Issue)
    requires n <= |s|
    ensures i in ItemIssuesBelow(s, n) <==> exists k :: 0 <= k < n && i in ItemIssues(s, k)
  {
    hide ItemIssues;
    if n > 0 {
      SequenceMembers(s, n - 1, i);
    }
  }

  lemma {:induction false} GapKinds(cal: Spec, tf: Timeframe, stamps: seq<int>, n: nat)
    requires IsMvp(tf) && n <= |stamps|
    ensures forall i :: i in GapIssues(cal, tf, stamps, n) ==> i.kind == Gap
  {
    hide GapBetween;
    if n > 1 {
      GapKinds(cal, tf, stamps, n - 1);
    }
  }

  predicate DistinctStamps(s: seq<Candle>) {
    forall i, j :: 0 <= i < j < |s| ==> s[i].stamp != s[j].stamp
  }

  /**
   Of rows with distinct stamps, exactly those may be promoted whose bar is closed, which lie in
   session when intraday, and which no rejected row shares a timestamp with.
   */
  lemma UsableIff(s: seq<Candle>, tf: Timeframe, cal: Spec, cutoff: int, policy: Policy, rejected: seq<Issue>, c: Candle)
    requires cal.Known() && IsMvp(tf) && DistinctStamps(s)
    ensures c in UsableRows(s, Assess(s, tf, cal, cutoff, policy, rejected).issues) <==>
            c in s && WellPlaced(cal, tf, c.stamp) && Closed(cal, tf, cutoff, c.stamp) && !Excluded(rejected, c.stamp)
  {
    var issues := AllIssues(s, tf, cal, cutoff, rejected);
    UsableMembers(s, issues, c);
    if c in s {
      ExcludedIff(s, tf, cal, cutoff, rejected, c);
    }
  }

  /** Where an issue of the gate comes from. */
  lemma IssueOrigins(s: seq<Candle>, tf: Timeframe, cal: Spec, cutoff: int, rejected: seq<Issue>, i: Issue)
    requires cal.Known() && IsMvp(tf)
    ensures i in rejected || i in RowIssues(cal, tf, cutoff, s) ==> i in AllIssues(s, tf, cal, cutoff, rejected)
    ensures i in AllIssues(s, tf, cal, cutoff, rejected) ==>
              i in rejected || i in SequenceIssues(s) || i in RowIssues(cal, tf, cutoff, s) || i.kind == MissingRows || i.kind == Gap
  {
    hide RowIssues, SequenceIssues, ClosedStamps, GapIssues;
    var stamps := ClosedStamps(cal, tf, cutoff, s);
    GapKinds(cal, tf, stamps, |stamps|);
  }

  /** A bar's own issues exclude it unless it is well placed and closed. */
  lemma BarExclusion(cal: Spec, tf: Timeframe, cutoff: int, t: int)
    requires cal.Known() && IsMvp(tf)
    ensures Excluded(BarIssues(cal, tf, cutoff, t), t) <==> !WellPlaced(cal, tf, t) || !Closed(cal, tf, cutoff, t)
  {
    hide WellPlaced, Closed;
    if !WellPlaced(cal, tf, t) {
      assert Issue(Malformed, At(t)) in BarIssues(cal, tf, cutoff, t);
    }
    if !Closed(cal, tf, cutoff, t) {
      assert Issue(FormingBar, At(t)) in BarIssues(cal, tf, cutoff, t);
    }
  }

  /** A bar's issues point at the bar. */
  lemma BarPoints(cal: Spec, tf: Timeframe, cutoff: int, u: int, t: int, i: Issue)
    requires cal.Known() && IsMvp(tf) && i in BarIssues(cal, tf, cutoff, u) && PointsAt(i.at, t)
    ensures u == t
  {
  }

  lemma ExcludedIff(s: seq<Candle>, tf: Timeframe, cal: Spec, cutoff: int, rejected: seq<Issue>, c: Candle)
    requires cal.Known() && IsMvp(tf) && DistinctStamps(s) && c in s
    ensures Excluded(AllIssues(s, tf, cal, cutoff, rejected), c.stamp) <==>
            !WellPlaced(cal, tf, c.stamp) || !Closed(cal, tf, cutoff, c.stamp) || Excluded(rejected, c.stamp)
  {
    hide WellPlaced, Closed, AllIssues, RowIssues, BarIssues, SequenceIssues, PointsAt;
    var issues, t := AllIssues(s, tf, cal, cutoff, rejected), c.stamp;
    BarExclusion(cal, tf, cutoff, t);
    forall i | i in issues && i.kind in UNUSABLE && PointsAt(i.at, t)
      ensures Excluded(BarIssues(cal, tf, cutoff, t), t) || Excluded(rejected, t)
    {
      IssueOrigins(s, tf, cal, cutoff, rejected, i);
      if i in SequenceIssues(s) {
        NoSequenceExclusion(s, i);
      }
      RowIssueMembers(cal, tf, cutoff, s, i);
      if i in RowIssues(cal, tf, cutoff, s) {
        var u :| u in s && i in BarIssues(cal, tf, cutoff, u.stamp);
        BarPoints(cal, tf, cutoff, u.stamp, t, i);
      }
    }
    forall i | i in rejected || i in BarIssues(cal, tf, cutoff, t)
      ensures i in issues
    {
      RowIssueMembers(cal, tf, cutoff, s, i);
      IssueOrigins(s, tf, cal, cutoff, rejected, i);
    }
  }

  /** Distinct stamps give no duplicate issue. */
  lemma NoSequenceExclusion(s: seq<Candle>, i: Issue)
    requires DistinctStamps(s) && i in SequenceIssues(s)
    ensures i.kind !in UNUSABLE
  {
    SequenceMembers(s, |s|, i);
  }
}
