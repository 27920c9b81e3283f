/**
 Market calendars, bar ends and sequence checks (src/kline/market_calendar.py).
 Every calendar keeps one fixed UTC offset.
 */
module Calendar {
  import opened Timestamps
  import opened Storage

  const QUARTER: int := 900_000_000
  const FOUR_HOURS: int := 14_400_000_000
  const WEEK: int := 604_800_000_000

  datatype CalendarId = CnA | UsEquities | Crypto | UsFutures | JpEquities | KrEquities | HkEquities

  /** A session [open, close), in microseconds of the local day. */
  datatype Window = Window(open: int, close: int)

  datatype Spec = Spec(id: CalendarId, offset: int, sessions: seq<Window>, anchor: int) {
    predicate Continuous() {
      id == Crypto || id == UsFutures
    }

    /** One of the calendars the program declares, in any zone of constant offset. */
    predicate Known() {
      this == SpecOf(id, offset)
    }

    function LastClose(): int
      requires Known() && !Continuous()
    {
      sessions[|sessions| - 1].close
    }
  }

  function Clock(h: int, m: int): int {
    h * HOUR + m * MINUTE
  }

  function SessionsOf(id: CalendarId): seq<Window> {
    match id
    case CnA => [Window(Clock(9, 30), Clock(11, 30)), Window(Clock(13, 0), Clock(15, 0))]
    case UsEquities => [Window(Clock(9, 30), Clock(16, 0))]
    case Crypto => []
    case UsFutures => []
    case JpEquities => [Window(Clock(9, 0), Clock(11, 30)), Window(Clock(12, 30), Clock(15, 30))]
    case KrEquities => [Window(Clock(9, 0), Clock(15, 30))]
    case HkEquities => [Window(Clock(9, 30), Clock(12, 0)), Window(Clock(13, 0), Clock(16, 0))]
  }

  function AnchorOf(id: CalendarId): int {
    match id
    case CnA => Clock(9, 30)
    case UsEquities => Clock(9, 30)
    case Crypto => Clock(0, 0)
    case UsFutures => Clock(18, 0)
    case JpEquities => Clock(9, 0)
    case KrEquities => Clock(9, 0)
    case HkEquities => Clock(9, 30)
  }

  function SpecOf(id: CalendarId, offset: int): Spec {
    Spec(id, offset, SessionsOf(id), AnchorOf(id))
  }

  function Local(cal: Spec, t: int): int {
    t + cal.offset
  }

  function LocalDay(cal: Spec, t: int): int {
    Local(cal, t) / DAY
  }

  function TimeOfDay(cal: Spec, t: int): int {
    Local(cal, t) % DAY
  }

  /** The instant at `tod` of a local day. */
  function Instant(cal: Spec, day: int, tod: int): int {
    day * DAY + tod - cal.offset
  }

  /** `is_trading_session` without holidays, as every caller uses it: day 0 is a Monday. */
  predicate TradingDay(cal: Spec, day: int) {
    cal.Continuous() || day % 7 < 5
  }

  /** `minute % 15 == 0 and second == 0`; microseconds are not looked at. */
  predicate OnQuarter(tod: int) {
    tod / SECOND % 900 == 0
  }

  predicate InsideSession(cal: Spec, t: int) {
    var tod := TimeOfDay(cal, t);
    OnQuarter(tod) &&
    (cal.Continuous() || exists i :: 0 <= i < |cal.sessions| && cal.sessions[i].open <= tod < cal.sessions[i].close)
  }

  function BarEnd(cal: Spec, tf: Timeframe, t: int): int
    requires cal.Known() && IsMvp(tf)
  {
    var day := LocalDay(cal, t);
    match tf
    case M15 => t + QUARTER
    case H4 => t + FOUR_HOURS
    case H1 => t + HOUR
    case D1 => if cal.Continuous() then t + DAY else Instant(cal, day, cal.LastClose())
    case _ => WeekClose(cal, day / 7)
  }

  /** When the week holding local days 7w .. 7w+6 is closed. */
  function WeekClose(cal: Spec, w: int): int
    requires cal.Known()
  {
    if cal.Continuous() then Instant(cal, 7 * w + 6, DAY - SECOND)
    else Instant(cal, 7 * w + 4, cal.LastClose())
  }

  // ----- _sequence_issues -----

  predicate SeenBefore(s: seq<Candle>, i: nat)
    requires i < |s|
  {
    exists j :: 0 <= j < i && s[j].stamp == s[i].stamp
  }

  function ItemIssues(s: seq<Candle>, i: nat): seq<Issue>
    requires i < |s|
  {
    (if SeenBefore(s, i) then [Issue(Duplicate, At(s[i].stamp))] else []) +
    (if i > 0 && s[i].stamp < s[i - 1].stamp then [Issue(OutOfOrder, At(s[i].stamp))] else [])
  }

  function ItemIssuesBelow(s: seq<Candle>, n: nat): seq<Issue>
    requires n <= |s|
  {
    if n == 0 then [] else ItemIssuesBelow(s, n - 1) + ItemIssues(s, n - 1)
  }

  predicate OneSource(s: seq<Candle>) {
    forall i, j :: 0 <= i < j < |s| ==> s[i].key.sourceId == s[j].key.sourceId
  }

  function SequenceIssues(s: seq<Candle>): seq<Issue> {
    ItemIssuesBelow(s, |s|) + if OneSource(s) then [] else [Issue(MixedSource, Nowhere)]
  }

  method FindSequenceIssues(s: seq<Candle>) returns (issues: seq<Issue>)
    ensures issues == SequenceIssues(s)
  {
    issues := [];
    var seen: set<int> := {};
    var sources: set<string> := {};
    for i := 0 to |s|
      invariant issues == ItemIssuesBelow(s, i)
      invariant seen == set j | 0 <= j < i :: s[j].stamp
      invariant sources == set j | 0 <= j < i :: s[j].key.sourceId
    {
      var c := s[i];
      sources := sources + {c.key.sourceId};
      if c.stamp in seen {
        issues := issues + [Issue(Duplicate, At(c.stamp))];
      }
      seen := seen + {c.stamp};
      if i > 0 && c.stamp < s[i - 1].stamp {
        issues := issues + [Issue(OutOfOrder, At(c.stamp))];
      }
    }
    SourceCount(s, sources);
    if |sources| > 1 {
      issues := issues + [Issue(MixedSource, Nowhere)];
    }
  }

  lemma SourceCount(s: seq<Candle>, sources: set<string>)
    requires sources == set j | 0 <= j < |s| :: s[j].key.sourceId
    ensures |sources| > 1 <==> !OneSource(s)
  {
    if s != [] {
      var x := s[0].key.sourceId;
      assert x in sources;
      if OneSource(s) {
        assert sources == {x};
      } else {
        var i, j :| 0 <= i < j < |s| && s[i].key.sourceId != s[j].key.sourceId;
        var pair := {s[i].key.sourceId, s[j].key.sourceId};
        assert pair <= sources && |pair| == 2;
        assert sources == pair + (sources - pair);
      }
    }
  }

  predicate StrictlyIncreasing(s: seq<Candle>) {
    forall i, j :: 0 <= i < j < |s| ==> s[i].stamp < s[j].stamp
  }

  lemma {:induction false} NoItemIssues(s: seq<Candle>, n: nat)
    requires n <= |s|
    ensures ItemIssuesBelow(s, n) == [] <==> StrictlyIncreasing(s[..n])
  {
    if n > 0 {
      NoItemIssues(s, n - 1);
      var p := s[..n - 1];
      assert forall i :: 0 <= i < n - 1 ==> s[..n][i] == p[i];
      if ItemIssuesBelow(s, n) == [] {
        assert ItemIssues(s, n - 1) == [];
        assert !SeenBefore(s, n - 1);
        forall i | 0 <= i < n - 1
          ensures s[i].stamp < s[n - 1].stamp
        {
          assert s[n - 2].stamp != s[n - 1].stamp;
          assert i < n - 2 ==> p[i].stamp < p[n - 2].stamp;
        }
      }
    }
  }

  /** No sequence issue at all means strictly increasing stamps from one source, and conversely. */
  lemma SequenceClean(s: seq<Candle>)
    ensures SequenceIssues(s) == [] <==> StrictlyIncreasing(s) && OneSource(s)
  {
    NoItemIssues(s, |s|);
    assert s[..|s|] == s;
  }
}
