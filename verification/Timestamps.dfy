/**
 Canonical time (src/kline/storage.py).

 An instant is a number of microseconds since 0001-01-01T00:00:00 UTC, the first instant
 Python's `datetime` represents; day 0 is a Monday.  Stored timestamps are strings, and the
 program compares them as strings, so this module proves that the canonical spelling makes
 string order and time order the same thing.
 */
module Timestamps {
  import opened Results

  const SECOND: int := 1_000_000
  const MINUTE: int := 60_000_000
  const HOUR: int := 3_600_000_000
  const DAY: int := 86_400_000_000
  /** Days from 0001-01-01 up to and including 9999-12-31. */
  const LAST_DAY: int := 3652059

  predicate Representable(t: int) {
    0 <= t < LAST_DAY * DAY
  }

  // ----- the proleptic Gregorian calendar -----

  predicate Leap(y: int) {
    y % 4 == 0 && (y % 100 != 0 || y % 400 == 0)
  }

  function DaysBeforeYear(y: int): int {
    (y - 1) * 365 + LeapsThrough(y - 1)
  }

  function DaysBeforeMonth(y: int, m: int): int
    requires 1 <= m <= 13
  {
    var feb := if Leap(y) then 29 else 28;
    if m == 1 then 0
    else if m == 2 then 31
    else 31 + feb + [0, 31, 61, 92, 122, 153, 184, 214, 245, 275, 306][m - 3]
  }

  function MonthStart(y: int, m: int): int
    requires 1 <= m <= 13
  {
    DaysBeforeYear(y) + DaysBeforeMonth(y, m)
  }

  datatype Date = Date(year: int, month: int, day: int) {
    predicate Valid() {
      1 <= year <= 9999 && 1 <= month <= 12 &&
      1 <= day <= DaysBeforeMonth(year, month + 1) - DaysBeforeMonth(year, month)
    }

    function Number(): int
      requires Valid()
    {
      MonthStart(year, month) + day - 1
    }
  }

  /** Leap years so far: one more exactly when `y` is a leap year. */
  function LeapsThrough(y: int): int {
    y / 4 - y / 100 + y / 400
  }

  lemma NextQuotient(y: int, k: int)
    requires k == 4 || k == 100 || k == 400
    ensures y / k == (y - 1) / k + if y % k == 0 then 1 else 0
  {
  }

  lemma Divisors(y: int)
    ensures y % 100 == 0 ==> y % 4 == 0
    ensures y % 400 == 0 ==> y % 100 == 0
  {
    assert y == 4 * (25 * (y / 100)) + y % 100;
    assert y == 100 * (4 * (y / 400)) + y % 400;
  }

  lemma LeapStep(y: int)
    ensures LeapsThrough(y) == LeapsThrough(y - 1) + if Leap(y) then 1 else 0
  {
    NextQuotient(y, 4);
    NextQuotient(y, 100);
    NextQuotient(y, 400);
    Divisors(y);
  }

  lemma MonthTable(y: int)
    ensures DaysBeforeMonth(y, 13) == if Leap(y) then 366 else 365
  {
  }

  lemma YearLength(y: int)
    ensures DaysBeforeYear(y + 1) == DaysBeforeYear(y) + DaysBeforeMonth(y, 13)
  {
    LeapStep(y);
    MonthTable(y);
  }

  lemma {:induction false} YearsGrow(y: int, z: int)
    requires y <= z
    ensures DaysBeforeYear(y) + 365 * (z - y) <= DaysBeforeYear(z)
    decreases z - y
  {
    if y < z {
      YearLength(y);
      YearsGrow(y + 1, z);
    }
  }

  /** Calendar order is day order, so a day number names at most one date. */
  lemma DateOrder(a: Date, b: Date)
    requires a.Valid() && b.Valid()
    ensures a.Number() < b.Number() <==>
            a.year < b.year || (a.year == b.year &&
                                (a.month < b.month || (a.month == b.month && a.day < b.day)))
    ensures a.Number() == b.Number() <==> a == b
    ensures 0 <= a.Number() < LAST_DAY
  {
    hide DaysBeforeYear, DaysBeforeMonth;
    DateBefore(a, b);
    DateBefore(b, a);
    InYear(a);
    FirstAndLast();
    YearsGrow(1, a.year);
    YearsGrow(a.year + 1, 10000);
  }

  lemma FirstAndLast()
    ensures DaysBeforeYear(1) == 0 && DaysBeforeYear(10000) == LAST_DAY
  {
  }

  lemma InYear(d: Date)
    requires d.Valid()
    ensures DaysBeforeYear(d.year) <= d.Number() < DaysBeforeYear(d.year + 1)
  {
    hide DaysBeforeYear;
    YearLength(d.year);
  }

  lemma MonthsGrow(y: int, m: int, k: int)
    requires 1 <= m < k <= 12
    ensures DaysBeforeMonth(y, m + 1) <= DaysBeforeMonth(y, k)
  {
  }

  lemma DateBefore(a: Date, b: Date)
    requires a.Valid() && b.Valid()
    ensures a.year < b.year || (a.year == b.year && a.month < b.month) ==> a.Number() < b.Number()
  {
    hide DaysBeforeYear, DaysBeforeMonth;
    if a.year < b.year {
      InYear(a);
      InYear(b);
      YearsGrow(a.year + 1, b.year);
    } else if a.year == b.year && a.month < b.month {
      MonthsGrow(a.year, a.month, b.month);
    }
  }

  function YearOf(n: int, y: int): (r: int)
    requires 1 <= y <= 9999 && DaysBeforeYear(y) <= n < LAST_DAY
    ensures y <= r <= 9999 && DaysBeforeYear(r) <= n < DaysBeforeYear(r + 1)
    decreases 9999 - y
  {
    if n < DaysBeforeYear(y + 1) then y else YearOf(n, y + 1)
  }

  function MonthOf(y: int, n: int, m: int): (r: int)
    requires 1 <= m <= 12 && DaysBeforeMonth(y, m) <= n < DaysBeforeMonth(y, 13)
    ensures m <= r <= 12 && DaysBeforeMonth(y, r) <= n < DaysBeforeMonth(y, r + 1)
    decreases 12 - m
  {
    if n < DaysBeforeMonth(y, m + 1) then m else MonthOf(y, n, m + 1)
  }

  /** Every representable day has a calendar date. */
  function DateOf(n: int): (d: Date)
    requires 0 <= n < LAST_DAY
    ensures d.Valid() && d.Number() == n
  {
    var y := YearOf(n, 1);
    YearLength(y);
    var m := MonthOf(y, n - DaysBeforeYear(y), 1);
    Date(y, m, n - MonthStart(y, m) + 1)
  }

  // ----- text -----

  /** Code-point order, as Python and SQLite's BINARY collation compare text. */
  predicate StrLess(a: string, b: string) {
    b != "" && (a == "" || a[0] < b[0] || (a[0] == b[0] && StrLess(a[1..], b[1..])))
  }

  lemma {:induction false} StrLessIrreflexive(a: string)
    ensures !StrLess(a, a)
  {
    if a != "" {
      StrLessIrreflexive(a[1..]);
    }
  }

  lemma {:induction false} StrLessTransitive(a: string, b: string, c: string)
    requires StrLess(a, b) && StrLess(b, c)
    ensures StrLess(a, c)
  {
    if a != "" && a[0] == b[0] == c[0] {
      StrLessTransitive(a[1..], b[1..], c[1..]);
    }
  }

  lemma {:induction false} StrLessTotal(a: string, b: string)
    ensures StrLess(a, b) || a == b || StrLess(b, a)
  {
    if a != "" && b != "" && a[0] == b[0] {
      StrLessTotal(a[1..], b[1..]);
      assert a == [a[0]] + a[1..] && b == [b[0]] + b[1..];
    }
  }

  lemma {:induction false} ConcatOrder(a: string, b: string, x: string, y: string)
    requires |a| == |b|
    ensures StrLess(a + x, b + y) <==> StrLess(a, b) || (a == b && StrLess(x, y))
  {
    if a == "" {
      assert a + x == x && b + y == y;
    } else {
      assert (a + x)[1..] == a[1..] + x && (b + y)[1..] == b[1..] + y;
      ConcatOrder(a[1..], b[1..], x, y);
      assert a == [a[0]] + a[1..] && b == [b[0]] + b[1..];
    }
  }

  function Pow10(w: nat): (p: nat)
    ensures p >= 1
  {
    if w == 0 then 1 else 10 * Pow10(w - 1)
  }

  function Digit(n: int): char
    requires 0 <= n < 10
  {
    (48 + n) as char
  }

  predicate IsDigit(c: char) {
    '0' <= c <= '9'
  }

  predicate AllDigits(s: string) {
    forall i :: 0 <= i < |s| ==> IsDigit(s[i])
  }

  /** `n` written in exactly `w` decimal digits. */
  function Pad(n: nat, w: nat): (s: string)
    ensures |s| == w && AllDigits(s)
  {
    if w == 0 then "" else Pad(n / 10, w - 1) + [Digit(n % 10)]
  }

  function NumberOf(s: string): nat
    requires AllDigits(s)
  {
    if s == "" then 0 else NumberOf(s[..|s| - 1]) * 10 + (s[|s| - 1] as int - 48)
  }

  lemma {:induction false} PadNumber(n: nat, w: nat)
    requires n < Pow10(w)
    ensures NumberOf(Pad(n, w)) == n
  {
    if w > 0 {
      PadNumber(n / 10, w - 1);
      assert Pad(n, w)[..w - 1] == Pad(n / 10, w - 1);
    }
  }

  lemma {:induction false} PadOrder(n: nat, m: nat, w: nat)
    requires n < Pow10(w) && m < Pow10(w)
    ensures StrLess(Pad(n, w), Pad(m, w)) <==> n < m
    ensures Pad(n, w) == Pad(m, w) <==> n == m
  {
    PadNumber(n, w);
    PadNumber(m, w);
    if w > 0 {
      PadOrder(n / 10, m / 10, w - 1);
      ConcatOrder(Pad(n / 10, w - 1), Pad(m / 10, w - 1), [Digit(n % 10)], [Digit(m % 10)]);
    }
  }

  predicate IsSpace(c: char) {
    c == ' ' || ('\t' <= c <= '\r') || ('\U{1C}' <= c <= '\U{1F}')
  }

  function StripLeft(s: string): (r: string)
    ensures |r| <= |s|
    ensures r == "" || !IsSpace(r[0])
    ensures s != "" && !IsSpace(s[0]) ==> r == s
  {
    if s != "" && IsSpace(s[0]) then StripLeft(s[1..]) else s
  }

  function StripRight(s: string): (r: string)
    ensures r <= s
    ensures s != "" && !IsSpace(s[|s| - 1]) ==> r == s
  {
    if s != "" && IsSpace(s[|s| - 1]) then StripRight(s[..|s| - 1]) else s
  }

  /** Python's `str.strip()` over ASCII white space. */
  function Strip(s: string): string {
    StripRight(StripLeft(s))
  }

  predicate Blank(s: string) {
    Strip(s) == ""
  }

  /** `text.replace("Z", "+00:00")` */
  function ReplaceZ(s: string): (r: string)
    ensures 'Z' !in s ==> r == s
  {
    if s == "" then "" else (if s[0] == 'Z' then "+00:00" else [s[0]]) + ReplaceZ(s[1..])
  }

  // ----- canonical spelling -----

  function DateText(d: Date): (s: string)
    requires d.Valid()
    ensures |s| == 10
  {
    Pad(d.year, 4) + "-" + Pad(d.month, 2) + "-" + Pad(d.day, 2)
  }

  function ClockText(h: nat, m: nat, s: nat): (t: string)
    ensures |t| == 8
  {
    Pad(h, 2) + ":" + Pad(m, 2) + ":" + Pad(s, 2)
  }

  function FractionText(us: nat): string {
    if us == 0 then "" else "." + Pad(us, 6)
  }

  function Seconds(day: int, h: int, m: int, x: int): int {
    ((day * 24 + h) * 60 + m) * 60 + x
  }

  function HourOf(t: int): (h: nat)
    ensures h < 24
  {
    t / HOUR % 24
  }

  function MinuteOf(t: int): (m: nat)
    ensures m < 60
  {
    t / MINUTE % 60
  }

  function SecondOf(t: int): (x: nat)
    ensures x < 60
  {
    t / SECOND % 60
  }

  /** The calendar fields of an instant, put together again. */
  lemma Fields(t: int)
    ensures t == Seconds(t / DAY, HourOf(t), MinuteOf(t), SecondOf(t)) * SECOND + t % SECOND
    ensures Representable(t) ==> 0 <= t / DAY < LAST_DAY
  {
    assert t / SECOND / 60 == t / MINUTE;
    assert t / MINUTE / 60 == t / HOUR;
    assert t / HOUR / 24 == t / DAY;
  }

  /** `parsed.astimezone(timezone.utc).isoformat()` of an instant. */
  function Canon(t: int): (s: string)
    requires Representable(t)
    ensures |s| == 25 || |s| == 32
  {
    DateText(DateOf(t / DAY)) + "T" + ClockText(HourOf(t), MinuteOf(t), SecondOf(t)) +
    FractionText(t % SECOND) + "+00:00"
  }

  /** One more fixed-width field keeps text order and number order in step. */
  lemma FieldOrder(a: string, b: string, ra: int, rb: int, sep: string, n: nat, m: nat, w: nat, na: int, nb: int)
    requires |a| == |b| && n < Pow10(w) && m < Pow10(w)
    requires (StrLess(a, b) <==> ra < rb) && (a == b <==> ra == rb)
    requires (na < nb <==> ra < rb || (ra == rb && n < m)) && (na == nb <==> ra == rb && n == m)
    ensures StrLess(a + sep + Pad(n, w), b + sep + Pad(m, w)) <==> na < nb
    ensures a + sep + Pad(n, w) == b + sep + Pad(m, w) <==> na == nb
    ensures |a + sep + Pad(n, w)| == |b + sep + Pad(m, w)|
  {
    PadOrder(n, m, w);
    ConcatOrder(a, b, sep, sep);
    StrLessIrreflexive(sep);
    ConcatOrder(a + sep, b + sep, Pad(n, w), Pad(m, w));
    var x, y := a + sep + Pad(n, w), b + sep + Pad(m, w);
    if x == y {
      assert a == x[..|a|] == y[..|b|] == b;
      assert Pad(n, w) == x[|a| + |sep|..] == y[|b| + |sep|..] == Pad(m, w);
    }
  }

  lemma Powers()
    ensures Pow10(4) == 10000 && Pow10(2) == 100
  {
  }

  lemma DateFields(d: Date)
    requires d.Valid()
    ensures 1 <= d.year < 10000 && 1 <= d.month <= 12 && 1 <= d.day <= 31
  {
  }

  lemma DateTextOrder(a: Date, b: Date)
    requires a.Valid() && b.Valid()
    ensures StrLess(DateText(a), DateText(b)) <==> a.Number() < b.Number()
    ensures DateText(a) == DateText(b) <==> a.Number() == b.Number()
  {
    DateOrder(a, b);
    Powers();
    DateFields(a);
    DateFields(b);
    hide Pad, StrLess, Pow10, Date.Number, Date.Valid;
    PadOrder(a.year, b.year, 4);
    var ya, yb := Pad(a.year, 4), Pad(b.year, 4);
    FieldOrder(ya, yb, a.year, b.year, "-", a.month, b.month, 2, a.year * 12 + a.month, b.year * 12 + b.month);
    FieldOrder(ya + "-" + Pad(a.month, 2), yb + "-" + Pad(b.month, 2), a.year * 12 + a.month, b.year * 12 + b.month,
               "-", a.day, b.day, 2, a.Number(), b.Number());
  }

  function WholeText(d: Date, h: nat, m: nat, x: nat): (s: string)
    requires d.Valid()
    ensures |s| == 19
  {
    DateText(d) + "T" + ClockText(h, m, x)
  }

  lemma ClockOrder(t: string, h: nat, m: nat, x: nat, n: int, t': string, h': nat, m': nat, x': nat, n': int)
    requires h < 24 && m < 60 && x < 60 && h' < 24 && m' < 60 && x' < 60
    requires |t| == |t'| && (StrLess(t, t') <==> n < n') && (t == t' <==> n == n')
    ensures var r, r' := Seconds(n, h, m, x), Seconds(n', h', m', x');
            && (StrLess(t + "T" + ClockText(h, m, x), t' + "T" + ClockText(h', m', x')) <==> r < r')
            && (t + "T" + ClockText(h, m, x) == t' + "T" + ClockText(h', m', x') <==> r == r')
  {
    assert Pow10(2) == 100;
    FieldOrder(t, t', n, n', "T", h, h', 2, n * 24 + h, n' * 24 + h');
    var u, u' := t + "T" + Pad(h, 2), t' + "T" + Pad(h', 2);
    FieldOrder(u, u', n * 24 + h, n' * 24 + h', ":", m, m', 2, (n * 24 + h) * 60 + m, (n' * 24 + h') * 60 + m');
    var v, v' := u + ":" + Pad(m, 2), u' + ":" + Pad(m', 2);
    FieldOrder(v, v', (n * 24 + h) * 60 + m, (n' * 24 + h') * 60 + m', ":", x, x', 2,
               Seconds(n, h, m, x), Seconds(n', h', m', x'));
    ClockTail(t, h, m, x);
    ClockTail(t', h', m', x');
  }

  lemma ClockTail(t: string, h: nat, m: nat, x: nat)
    ensures t + "T" + Pad(h, 2) + ":" + Pad(m, 2) + ":" + Pad(x, 2) == t + "T" + ClockText(h, m, x)
  {
  }

  lemma WholeTextOrder(d: Date, h: nat, m: nat, x: nat, d': Date, h': nat, m': nat, x': nat)
    requires d.Valid() && h < 24 && m < 60 && x < 60
    requires d'.Valid() && h' < 24 && m' < 60 && x' < 60
    ensures var r, r' := Seconds(d.Number(), h, m, x), Seconds(d'.Number(), h', m', x');
            && (StrLess(WholeText(d, h, m, x), WholeText(d', h', m', x')) <==> r < r')
            && (WholeText(d, h, m, x) == WholeText(d', h', m', x') <==> r == r')
  {
    DateTextOrder(d, d');
    ClockOrder(DateText(d), h, m, x, d.Number(), DateText(d'), h', m', x', d'.Number());
  }

  lemma FractionOrder(u: nat, v: nat)
    requires u < SECOND && v < SECOND
    ensures StrLess(FractionText(u) + "+00:00", FractionText(v) + "+00:00") <==> u < v
    ensures FractionText(u) + "+00:00" == FractionText(v) + "+00:00" <==> u == v
  {
    assert Pow10(6) == 1000000 by {
      assert Pow10(3) == 1000;
    }
    PadOrder(u, v, 6);
    var zone := "+00:00";
    StrLessIrreflexive(zone);
    ConcatOrder(".", ".", Pad(u, 6), Pad(v, 6));
    ConcatOrder("." + Pad(u, 6), "." + Pad(v, 6), zone, zone);
    assert "" + zone == zone;
    var x, y := FractionText(u) + zone, FractionText(v) + zone;
    if u != 0 && v != 0 && x == y {
      assert Pad(u, 6) == x[1..7] == y[1..7] == Pad(v, 6);
    }
    assert u == 0 ==> x[0] == '+';
    assert u != 0 ==> x[0] == '.';
    assert v == 0 ==> y[0] == '+';
    assert v != 0 ==> y[0] == '.';
  }

  /**
   Text order of canonical timestamps is time order (the ordering goal of section 5.1 of
   RFC 3339): the sign of the zone sorts below the decimal point, so a whole second sorts
   before every fraction of itself.
   */
  lemma CanonOrder(a: int, b: int)
    requires Representable(a) && Representable(b)
    ensures StrLess(Canon(a), Canon(b)) <==> a < b
    ensures Canon(a) == Canon(b) <==> a == b
  {
    Fields(a);
    Fields(b);
    CanonFieldsOrder(DateOf(a / DAY), HourOf(a), MinuteOf(a), SecondOf(a), a % SECOND,
                     DateOf(b / DAY), HourOf(b), MinuteOf(b), SecondOf(b), b % SECOND);
  }

  lemma CanonFieldsOrder(d: Date, h: nat, m: nat, x: nat, us: nat, d': Date, h': nat, m': nat, x': nat, us': nat)
    requires d.Valid() && h < 24 && m < 60 && x < 60 && us < SECOND
    requires d'.Valid() && h' < 24 && m' < 60 && x' < 60 && us' < SECOND
    ensures var s, s' := DateText(d) + "T" + ClockText(h, m, x) + FractionText(us) + "+00:00",
                         DateText(d') + "T" + ClockText(h', m', x') + FractionText(us') + "+00:00";
            var r, r' := Seconds(d.Number(), h, m, x) * SECOND + us, Seconds(d'.Number(), h', m', x') * SECOND + us';
            (StrLess(s, s') <==> r < r') && (s == s' <==> r == r')
  {
    WholeTextOrder(d, h, m, x, d', h', m', x');
    FractionOrder(us, us');
    var w, w' := WholeText(d, h, m, x), WholeText(d', h', m', x');
    var f, f' := FractionText(us) + "+00:00", FractionText(us') + "+00:00";
    ConcatOrder(w, w', f, f');
    assert w + FractionText(us) + "+00:00" == w + f && w' + FractionText(us') + "+00:00" == w' + f';
    if w + f == w' + f' {
      assert w == (w + f)[..19] == (w' + f')[..19] == w';
      assert f == (w + f)[19..] == (w' + f')[19..] == f';
    }
  }

  // ----- parsing and normalisation -----

  function ParseNumber(s: string, lo: int, hi: int): Option<nat> {
    if AllDigits(s) && lo <= NumberOf(s) < hi then Some(NumberOf(s)) else None
  }

  /** `YYYY-MM-DD` as a day number. */
  function ParseDate(s: string): Option<int>
    requires |s| == 10
  {
    if !(AllDigits(s[..4]) && s[4] == '-' && AllDigits(s[5..7]) && s[7] == '-' && AllDigits(s[8..])) then None
    else
      var d := Date(NumberOf(s[..4]), NumberOf(s[5..7]), NumberOf(s[8..]));
      if d.Valid() then Some(d.Number()) else None
  }

  /** `HH:MM` in microseconds. */
  function ParseHourMinute(s: string): Option<int>
    requires |s| == 5
  {
    match (ParseNumber(s[..2], 0, 24), ParseNumber(s[3..], 0, 60))
    case (Some(h), Some(m)) => if s[2] == ':' then Some(h * HOUR + m * MINUTE) else None
    case _ => None
  }

  /** Nothing, `:SS`, `:SS.mmm` or `:SS.uuuuuu` in microseconds. */
  function ParseSecond(s: string): Option<int> {
    if s == "" then Some(0)
    else if !(|s| == 3 || |s| == 7 || |s| == 10) || s[0] != ':' || (|s| > 3 && s[3] != '.') then None
    else
      match (ParseNumber(s[1..3], 0, 60), if |s| > 3 then ParseNumber(s[4..], 0, SECOND) else Some(0))
      case (Some(x), Some(f)) => Some(x * SECOND + if |s| == 7 then f * 1000 else f)
      case _ => None
  }

  function ParseClock(s: string): Option<int> {
    if |s| < 5 then None
    else
      match (ParseHourMinute(s[..5]), ParseSecond(s[5..]))
      case (Some(hm), Some(x)) => Some(hm + x)
      case _ => None
  }

  /** `+HH:MM` or `-HH:MM` as microseconds east of UTC. */
  function ParseZone(s: string): Option<int>
    requires |s| == 6
  {
    match ParseHourMinute(s[1..])
    case Some(offset) => if s[0] == '+' then Some(offset) else if s[0] == '-' then Some(-offset) else None
    case None => None
  }

  /** `datetime.fromisoformat` on the extended spellings, a naive reading taken as UTC. */
  function ParseIso(s: string): Option<int> {
    if |s| == 10 then
      match ParseDate(s)
      case Some(day) => Some(day * DAY)
      case None => None
    else if |s| < 16 then None
    else
      var tail := s[11..];
      var zoned := |tail| > 6 && (tail[|tail| - 6] == '+' || tail[|tail| - 6] == '-');
      var clock := if zoned then tail[..|tail| - 6] else tail;
      var zone := if zoned then ParseZone(tail[|tail| - 6..]) else Some(0);
      match (ParseDate(s[..10]), ParseClock(clock), zone)
      case (Some(day), Some(tod), Some(offset)) => Some(day * DAY + tod - offset)
      case _ => None
  }

  datatype TimestampError = EmptyText | NotIso | OutOfRange

  /** `_timestamp`: strip, parse, move to UTC, print canonically. */
  function Normalize(text: string): Result<string, TimestampError> {
    if Blank(text) then Err(EmptyText)
    else
      match ParseIso(ReplaceZ(Strip(text)))
      case None => Err(NotIso)
      case Some(t) => if Representable(t) then Ok(Canon(t)) else Err(OutOfRange)
  }

  lemma ParseDateText(d: Date)
    requires d.Valid()
    ensures ParseDate(DateText(d)) == Some(d.Number())
  {
    var s := DateText(d);
    assert Pow10(4) == 10000 && Pow10(2) == 100;
    PadNumber(d.year, 4);
    PadNumber(d.month, 2);
    PadNumber(d.day, 2);
    assert s[..4] == Pad(d.year, 4) && s[5..7] == Pad(d.month, 2) && s[8..] == Pad(d.day, 2);
  }

  lemma ParseHourMinuteText(h: nat, m: nat)
    requires h < 24 && m < 60
    ensures ParseHourMinute(Pad(h, 2) + ":" + Pad(m, 2)) == Some(h * HOUR + m * MINUTE)
  {
    var s := Pad(h, 2) + ":" + Pad(m, 2);
    assert Pow10(2) == 100;
    ParsePadded(h, 2, 24);
    ParsePadded(m, 2, 60);
    assert s[..2] == Pad(h, 2) && s[3..] == Pad(m, 2);
  }

  lemma ParseSecondText(x: nat, us: nat)
    requires x < 60 && us < SECOND
    ensures ParseSecond(":" + Pad(x, 2) + FractionText(us)) == Some(x * SECOND + us)
  {
    hide Pad, ParseNumber;
    var s := ":" + Pad(x, 2) + FractionText(us);
    assert Pow10(2) == 100;
    ParsePadded(x, 2, 60);
    assert s[1..3] == Pad(x, 2);
    if us != 0 {
      assert Pow10(6) == 1000000 by {
        assert Pow10(3) == 1000;
      }
      ParsePadded(us, 6, SECOND);
      assert s[4..] == Pad(us, 6);
    }
  }

  lemma ParseClockText(h: nat, m: nat, x: nat, us: nat)
    requires h < 24 && m < 60 && x < 60 && us < SECOND
    ensures ParseClock(ClockText(h, m, x) + FractionText(us)) == Some(h * HOUR + m * MINUTE + x * SECOND + us)
  {
    hide ParseHourMinute, ParseSecond, FractionText;
    ParseHourMinuteText(h, m);
    ParseSecondText(x, us);
    var s := ClockText(h, m, x) + FractionText(us);
    assert s[..5] == Pad(h, 2) + ":" + Pad(m, 2);
    assert s[5..] == ":" + Pad(x, 2) + FractionText(us);
  }

  lemma ParsePadded(n: nat, w: nat, hi: int)
    requires n < Pow10(w) && n < hi
    ensures ParseNumber(Pad(n, w), 0, hi) == Some(n)
  {
    PadNumber(n, w);
  }

  lemma TimeParts(t: int)
    requires Representable(t)
    ensures t == t / DAY * DAY + (HourOf(t) * HOUR + MinuteOf(t) * MINUTE + SecondOf(t) * SECOND + t % SECOND)
    ensures 0 <= t / DAY < LAST_DAY
  {
    hide HourOf, MinuteOf, SecondOf, Seconds;
    Fields(t);
    SecondsInDay(t / DAY, HourOf(t), MinuteOf(t), SecondOf(t));
  }

  /** The canonical text of an instant reads back as that instant. */
  lemma ParseCanon(t: int)
    requires Representable(t)
    ensures ParseIso(Canon(t)) == Some(t)
  {
    hide ParseIso, ParseDate, DateText, ClockText, FractionText, Date.Number, HourOf, MinuteOf, SecondOf, Representable;
    TimeParts(t);
    ParseDateText(DateOf(t / DAY));
    ParseFields(DateText(DateOf(t / DAY)), t / DAY, HourOf(t), MinuteOf(t), SecondOf(t), t % SECOND);
  }

  lemma ParseFields(date: string, day: int, h: nat, m: nat, x: nat, us: nat)
    requires |date| == 10 && ParseDate(date) == Some(day)
    requires h < 24 && m < 60 && x < 60 && us < SECOND
    ensures ParseIso(date + "T" + ClockText(h, m, x) + FractionText(us) + "+00:00") ==
            Some(day * DAY + (h * HOUR + m * MINUTE + x * SECOND + us))
  {
    hide ParseIso, ParseDate, ParseClock;
    ParseClockText(h, m, x, us);
    ParseSplit(date, ClockText(h, m, x), FractionText(us), day, h * HOUR + m * MINUTE + x * SECOND + us);
  }

  lemma SecondsInDay(day: int, h: int, m: int, x: int)
    ensures Seconds(day, h, m, x) * SECOND == day * DAY + (h * HOUR + m * MINUTE + x * SECOND)
  {
  }

  lemma ParseSplit(date: string, clock: string, fraction: string, day: int, tod: int)
    requires |date| == 10 && ParseDate(date) == Some(day)
    requires |clock| == 8 && ParseClock(clock + fraction) == Some(tod)
    ensures ParseIso(date + "T" + clock + fraction + "+00:00") == Some(day * DAY + tod)
  {
    hide ParseIso, ParseDate, ParseClock, ParseZone;
    ParseZeroZone();
    ParseJoined(date, clock + fraction, "+00:00", day, tod, 0);
    Regroup(date + "T", clock, fraction, "+00:00");
  }

  lemma Regroup(a: string, b: string, c: string, d: string)
    ensures a + b + c + d == a + (b + c) + d
  {
    assert a + b + c == a + (b + c);
  }

  lemma ParseJoined(date: string, clock: string, zone: string, day: int, tod: int, offset: int)
    requires |date| == 10 && ParseDate(date) == Some(day) && |clock| >= 8 && ParseClock(clock) == Some(tod)
    requires |zone| == 6 && ParseZone(zone) == Some(offset)
    ensures ParseIso(date + "T" + clock + zone) == Some(day * DAY + tod - offset)
  {
    hide ParseDate, ParseClock;
    var s := date + "T" + clock + zone;
    var tail := s[11..];
    ZoneSign(zone);
    hide ParseZone;
    assert s[..10] == date;
    assert tail == clock + zone;
    assert tail[..|tail| - 6] == clock;
    assert tail[|tail| - 6..] == zone;
    assert tail[|tail| - 6] == zone[0];
  }

  lemma ZoneSign(zone: string)
    requires |zone| == 6 && ParseZone(zone).Some?
    ensures zone[0] == '+' || zone[0] == '-'
  {
  }

  lemma ParseZeroZone()
    ensures ParseZone("+00:00") == Some(0)
  {
    ParseHourMinuteText(0, 0);
    assert "+00:00"[1..] == Pad(0, 2) + ":" + Pad(0, 2);
  }

  predicate Plain(s: string) {
    s != "" && !IsSpace(s[0]) && !IsSpace(s[|s| - 1]) && 'Z' !in s
  }

  lemma PlainText(d: Date, h: nat, m: nat, x: nat, us: nat)
    requires d.Valid()
    ensures Plain(DateText(d) + "T" + ClockText(h, m, x) + FractionText(us) + "+00:00")
  {
    var date, clock, fraction := DateText(d), ClockText(h, m, x), FractionText(us);
    assert 'Z' !in date && IsDigit(date[0]);
    assert 'Z' !in clock;
    assert 'Z' !in fraction;
  }

  lemma CanonIsPlain(t: int)
    requires Representable(t)
    ensures Strip(Canon(t)) == Canon(t) && 'Z' !in Canon(t) && !Blank(Canon(t))
  {
    var d, us := DateOf(t / DAY), t % SECOND;
    PlainText(d, HourOf(t), MinuteOf(t), SecondOf(t), us);
  }

  /** Normalising is faithful to the instant and normalising twice changes nothing. */
  lemma NormalizeFaithful(t: int)
    requires Representable(t)
    ensures Normalize(Canon(t)) == Ok(Canon(t))
  {
    CanonIsPlain(t);
    ParseCanon(t);
  }

  /**
   Two accepted texts get the same canonical text exactly when they denote the same instant,
   and their canonical texts sort exactly as the instants do.
   */
  lemma NormalizeOrders(x: string, y: string)
    requires Normalize(x).Ok? && Normalize(y).Ok?
    ensures var a, b := ParseIso(ReplaceZ(Strip(x))).value, ParseIso(ReplaceZ(Strip(y))).value;
            && (Normalize(x) == Normalize(y) <==> a == b)
            && (StrLess(Normalize(x).value, Normalize(y).value) <==> a < b)
            && Normalize(Normalize(x).value) == Normalize(x)
            && ParseIso(Normalize(x).value) == Some(a)
  {
    var a, b := ParseIso(ReplaceZ(Strip(x))).value, ParseIso(ReplaceZ(Strip(y))).value;
    CanonOrder(a, b);
    NormalizeFaithful(a);
    ParseCanon(a);
  }
}
