/** The texts the parser of instants accepts and what each of them denotes, and what stripping takes off a text. */
module IsoForms {
  import opened Results
  import opened Timestamps

  /** The text is the calendar date with this number. */
  ghost predicate DateSays(s: string, day: int) {
    exists d: Date :: d.Valid() && s == DateText(d) && day == d.Number()
  }

  /** Two digits of an hour and two of a minute. */
  ghost predicate HourMinute(s: string, v: int) {
    exists h: nat, m: nat :: h < 24 && m < 60 && s == Pad(h, 2) + ":" + Pad(m, 2) && v == h * HOUR + m * MINUTE
  }

  /** Nothing, or a second with no fraction, with three digits of one, or with six. */
  ghost predicate SecondSays(s: string, v: int) {
    (s == "" && v == 0) || exists x: nat, us: nat :: x < 60 && us < SECOND && v == x * SECOND + us && Fraction(s, x, us)
  }

  predicate Fraction(s: string, x: nat, us: nat) {
    || (us == 0 && s == ":" + Pad(x, 2))
    || (us % 1000 == 0 && s == ":" + Pad(x, 2) + "." + Pad(us / 1000, 3))
    || s == ":" + Pad(x, 2) + "." + Pad(us, 6)
  }

  ghost predicate ClockSays(s: string, v: int) {
    |s| >= 5 && exists hm, x :: HourMinute(s[..5], hm) && SecondSays(s[5..], x) && v == hm + x
  }

  /** No zone, or a sign and the hours and minutes east or west of Greenwich. */
  ghost predicate ZoneSays(s: string, offset: int) {
    (s == "" && offset == 0) ||
    (|s| == 6 && ((s[0] == '+' && HourMinute(s[1..], offset)) || (s[0] == '-' && HourMinute(s[1..], -offset))))
  }

  /** The first ten characters are a date and those from the twelfth to the n-th a clock; the rest is a zone. */
  ghost predicate SaysAt(s: string, t: int, n: nat) {
    16 <= n <= |s| && exists day, tod, offset ::
      DateSays(s[..10], day) && ClockSays(s[11..n], tod) && ZoneSays(s[n..], offset) && t == day * DAY + tod - offset
  }

  /** The text is a date, or a date, any character, a clock and a zone. */
  ghost predicate IsoSays(s: string, t: int) {
    (exists day :: DateSays(s, day) && t == day * DAY) || exists n: nat :: SaysAt(s, t, n)
  }

  lemma LastDigit(c: char, n: nat)
    requires IsDigit(c)
    ensures var v := n * 10 + (c as int - 48);
            v / 10 == n && v % 10 == c as int - 48 && Digit(v % 10) == c
  {
  }

  lemma {:induction false} PadOf(s: string)
    requires AllDigits(s)
    ensures Pad(NumberOf(s), |s|) == s && NumberOf(s) < Pow10(|s|)
  {
    if s != "" {
      var p, c := s[..|s| - 1], s[|s| - 1];
      PadOf(p);
      LastDigit(c, NumberOf(p));
      PadOneMore(p, c, NumberOf(s));
    }
  }

  lemma PadOneMore(p: string, c: char, v: nat)
    requires AllDigits(p) && IsDigit(c) && Pad(NumberOf(p), |p|) == p && v / 10 == NumberOf(p) && Digit(v % 10) == c
    ensures Pad(v, |p| + 1) == p + [c]
  {
    hide NumberOf;
  }

  lemma NumberIff(s: string, hi: int, n: nat)
    requires hi <= Pow10(|s|)
    ensures ParseNumber(s, 0, hi) == Some(n) <==> n < hi && s == Pad(n, |s|)
  {
    if AllDigits(s) {
      PadOf(s);
    }
    if n < hi {
      PadNumber(n, |s|);
    }
  }

  lemma Powers()
    ensures Pow10(2) == 100 && Pow10(3) == 1000 && Pow10(4) == 10000 && Pow10(6) == 1000000
  {
    assert Pow10(3) == 1000;
  }

  lemma HourMinuteIff(s: string, v: int)
    requires |s| == 5
    ensures ParseHourMinute(s) == Some(v) <==> HourMinute(s, v)
  {
    hide Pad, ParseNumber;
    Powers();
    if ParseHourMinute(s) == Some(v) {
      var h, m := ParseNumber(s[..2], 0, 24).value, ParseNumber(s[3..], 0, 60).value;
      NumberIff(s[..2], 24, h);
      NumberIff(s[3..], 60, m);
      assert s == s[..2] + [s[2]] + s[3..];
      assert s == Pad(h, 2) + ":" + Pad(m, 2);
    }
    if HourMinute(s, v) {
      var h: nat, m: nat :| h < 24 && m < 60 && s == Pad(h, 2) + ":" + Pad(m, 2) && v == h * HOUR + m * MINUTE;
      ParseHourMinuteText(h, m);
    }
  }

  lemma FractionParses(s: string, x: nat, us: nat)
    requires x < 60 && us < SECOND && Fraction(s, x, us)
    ensures ParseSecond(s) == Some(x * SECOND + us)
  {
    hide Pad, ParseNumber;
    Powers();
    ParsePadded(x, 2, 60);
    assert s[1..3] == Pad(x, 2);
    if us == 0 && s == ":" + Pad(x, 2) {
    } else if us % 1000 == 0 && s == ":" + Pad(x, 2) + "." + Pad(us / 1000, 3) {
      ParsePadded(us / 1000, 3, SECOND);
      assert s[4..] == Pad(us / 1000, 3);
    } else {
      ParsePadded(us, 6, SECOND);
      assert s[4..] == Pad(us, 6);
    }
  }

  lemma SecondIff(s: string, v: int)
    ensures ParseSecond(s) == Some(v) <==> SecondSays(s, v)
  {
    hide Pad, ParseNumber;
    Powers();
    if ParseSecond(s) == Some(v) && s != "" {
      var x := ParseNumber(s[1..3], 0, 60).value;
      NumberIff(s[1..3], 60, x);
      if |s| == 3 {
        assert s == ":" + Pad(x, 2);
        assert Fraction(s, x, 0);
      } else {
        DigitsBound(s[4..]);
        var f := ParseNumber(s[4..], 0, SECOND).value;
        assert s == ":" + s[1..3] + "." + s[4..];
        assert Fraction(s, x, if |s| == 7 then f * 1000 else f);
      }
    }
    if SecondSays(s, v) && s != "" {
      var x: nat, us: nat :| x < 60 && us < SECOND && v == x * SECOND + us && Fraction(s, x, us);
      FractionParses(s, x, us);
    }
  }

  lemma DigitsBound(s: string)
    requires ParseNumber(s, 0, SECOND).Some?
    ensures var n := ParseNumber(s, 0, SECOND).value; s == Pad(n, |s|) && n < Pow10(|s|)
  {
    PadOf(s);
  }

  lemma ClockIff(s: string, v: int)
    ensures ParseClock(s) == Some(v) <==> ClockSays(s, v)
  {
    hide ParseHourMinute, ParseSecond, HourMinute, SecondSays;
    if |s| >= 5 {
      forall hm
        ensures ParseHourMinute(s[..5]) == Some(hm) <==> HourMinute(s[..5], hm)
      {
        HourMinuteIff(s[..5], hm);
      }
      forall x
        ensures ParseSecond(s[5..]) == Some(x) <==> SecondSays(s[5..], x)
      {
        SecondIff(s[5..], x);
      }
      if ParseClock(s) == Some(v) {
        assert HourMinute(s[..5], ParseHourMinute(s[..5]).value) && SecondSays(s[5..], ParseSecond(s[5..]).value);
      }
    }
  }

  lemma ZoneIff(s: string, offset: int)
    requires |s| == 6
    ensures ParseZone(s) == Some(offset) <==> ZoneSays(s, offset)
  {
    hide ParseHourMinute, HourMinute;
    HourMinuteIff(s[1..], offset);
    HourMinuteIff(s[1..], -offset);
  }

  lemma DateIff(s: string, day: int)
    requires |s| == 10
    ensures ParseDate(s) == Some(day) <==> DateSays(s, day)
  {
    if ParseDate(s) == Some(day) {
      var d := Date(NumberOf(s[..4]), NumberOf(s[5..7]), NumberOf(s[8..]));
      DateSplits(s, d);
      assert d.Valid() && s == DateText(d) && day == d.Number();
    }
    if DateSays(s, day) {
      var d: Date :| d.Valid() && s == DateText(d) && day == d.Number();
      ParseDateText(d);
    }
  }

  lemma DateSplits(s: string, d: Date)
    requires |s| == 10 && AllDigits(s[..4]) && s[4] == '-' && AllDigits(s[5..7]) && s[7] == '-' && AllDigits(s[8..])
    requires d == Date(NumberOf(s[..4]), NumberOf(s[5..7]), NumberOf(s[8..])) && d.Valid()
    ensures s == DateText(d)
  {
    hide Pad, NumberOf, Date.Valid;
    PadOf(s[..4]);
    PadOf(s[5..7]);
    PadOf(s[8..]);
    assert s == s[..4] + "-" + s[5..7] + "-" + s[8..];
  }

  predicate NoSign(s: string) {
    forall i :: 0 <= i < |s| ==> s[i] != '+' && s[i] != '-'
  }

  lemma DigitsHaveNoSign(s: string)
    requires AllDigits(s)
    ensures NoSign(s)
  {
  }

  lemma NoSignJoined(a: string, b: string)
    requires NoSign(a) && NoSign(b)
    ensures NoSign(a + b)
  {
  }

  lemma FractionHasNoSign(s: string, x: nat, us: nat)
    requires Fraction(s, x, us)
    ensures NoSign(s)
  {
    DigitsHaveNoSign(Pad(x, 2));
    DigitsHaveNoSign(Pad(us, 6));
    DigitsHaveNoSign(Pad(us / 1000, 3));
    assert NoSign(":") && NoSign(".");
    hide Pad, NoSign;
    NoSignJoined(":", Pad(x, 2));
    NoSignJoined(":" + Pad(x, 2), ".");
    NoSignJoined(":" + Pad(x, 2) + ".", Pad(us / 1000, 3));
    NoSignJoined(":" + Pad(x, 2) + ".", Pad(us, 6));
  }

  /** No sign stands anywhere in a clock. */
  lemma ClockHasNoSign(s: string, v: int)
    requires ClockSays(s, v)
    ensures NoSign(s)
  {
    var hm, x :| HourMinute(s[..5], hm) && SecondSays(s[5..], x) && v == hm + x;
    HourMinuteHasNoSign(s[..5], hm);
    SecondHasNoSign(s[5..], x);
    hide NoSign, HourMinute, SecondSays;
    NoSignJoined(s[..5], s[5..]);
    assert s == s[..5] + s[5..];
  }

  lemma HourMinuteHasNoSign(s: string, v: int)
    requires HourMinute(s, v)
    ensures NoSign(s)
  {
    var h: nat, m: nat :| h < 24 && m < 60 && s == Pad(h, 2) + ":" + Pad(m, 2) && v == h * HOUR + m * MINUTE;
    DigitsHaveNoSign(Pad(h, 2));
    DigitsHaveNoSign(Pad(m, 2));
    assert NoSign(":");
    hide Pad, NoSign;
    NoSignJoined(Pad(h, 2), ":");
    NoSignJoined(Pad(h, 2) + ":", Pad(m, 2));
  }

  lemma SecondHasNoSign(s: string, v: int)
    requires SecondSays(s, v)
    ensures NoSign(s)
  {
    hide Fraction;
    if s != "" {
      var x: nat, us: nat :| x < 60 && us < SECOND && v == x * SECOND + us && Fraction(s, x, us);
      FractionHasNoSign(s, x, us);
    }
  }

  /** What a text with a clock parses as. */
  lemma LongIff(s: string, t: int)
    requires |s| >= 16
    ensures ParseIso(s) == Some(t) <==> exists n: nat :: SaysAt(s, t, n)
  {
    hide ParseDate, ParseClock, ParseZone, DateSays, ClockSays, ZoneSays, SaysAt;
    var tail := s[11..];
    var zoned := |tail| > 6 && (tail[|tail| - 6] == '+' || tail[|tail| - 6] == '-');
    var n := if zoned then |s| - 6 else |s|;
    Ends(s, n);
    if ParseIso(s) == Some(t) {
      var day, tod := ParseDate(s[..10]).value, ParseClock(s[11..n]).value;
      var offset := if zoned then ParseZone(s[n..]).value else 0;
      DateIff(s[..10], day);
      ClockIff(s[11..n], tod);
      ZoneOrNone(s[n..], offset);
      ShowSays(s, t, n, day, tod, offset);
    }
    if exists k: nat :: SaysAt(s, t, k) {
      var k: nat :| SaysAt(s, t, k);
      var day, tod, offset := Says(s, t, k);
      SplitsThere(s, k, tod, offset);
      DateIff(s[..10], day);
      ClockIff(s[11..n], tod);
      ZoneOrNone(s[n..], offset);
    }
  }

  lemma Ends(s: string, n: nat)
    requires |s| >= 16 && (n == |s| || n == |s| - 6)
    ensures n == |s| ==> s[11..n] == s[11..] && s[n..] == ""
    ensures n == |s| - 6 && n >= 11 ==> s[11..][..|s[11..]| - 6] == s[11..n] && s[11..][|s[11..]| - 6..] == s[n..] && |s[n..]| == 6
  {
  }

  lemma ZoneOrNone(z: string, offset: int)
    requires z == "" || |z| == 6
    ensures ZoneSays(z, offset) <==> if z == "" then offset == 0 else ParseZone(z) == Some(offset)
  {
    if |z| == 6 {
      ZoneIff(z, offset);
    }
  }

  lemma ShowSays(s: string, t: int, n: nat, day: int, tod: int, offset: int)
    requires 11 <= n <= |s| && DateSays(s[..10], day) && ClockSays(s[11..n], tod) && ZoneSays(s[n..], offset)
    requires t == day * DAY + tod - offset
    ensures SaysAt(s, t, n)
  {
    hide DateSays, HourMinute, SecondSays, ZoneSays;
  }

  lemma Says(s: string, t: int, n: nat) returns (day: int, tod: int, offset: int)
    requires SaysAt(s, t, n)
    ensures 16 <= n <= |s| && DateSays(s[..10], day) && ClockSays(s[11..n], tod) && ZoneSays(s[n..], offset)
    ensures t == day * DAY + tod - offset
  {
    hide DateSays, ClockSays, ZoneSays;
    day, tod, offset :| DateSays(s[..10], day) && ClockSays(s[11..n], tod) && ZoneSays(s[n..], offset) && t == day * DAY + tod - offset;
  }

  /** The clock of a text ends where the parser ends it. */
  lemma SplitsThere(s: string, n: nat, tod: int, offset: int)
    requires 16 <= n <= |s| && ClockSays(s[11..n], tod) && ZoneSays(s[n..], offset)
    ensures var tail := s[11..];
            var zoned := |tail| > 6 && (tail[|tail| - 6] == '+' || tail[|tail| - 6] == '-');
            n == if zoned then |s| - 6 else |s|
  {
    hide HourMinute, SecondSays;
    ClockHasNoSign(s[11..n], tod);
    var tail := s[11..];
    if n == |s| {
      assert tail == s[11..n];
    } else {
      assert tail[|tail| - 6] == s[n] == s[n..][0];
    }
  }

  /** A text parses as an instant exactly when it spells it in one of these forms. */
  lemma ReadsIff(s: string, t: int)
    ensures ParseIso(s) == Some(t) <==> IsoSays(s, t)
  {
    hide ParseDate, SaysAt, DateSays;
    forall day | DateSays(s, day)
      ensures |s| == 10
    {
      DateLength(s, day);
    }
    forall n: nat | SaysAt(s, t, n)
      ensures |s| >= 16
    {
      var day, tod, offset := Says(s, t, n);
    }
    if |s| == 10 {
      forall day
        ensures ParseDate(s) == Some(day) <==> DateSays(s, day)
      {
        DateIff(s, day);
      }
      if ParseIso(s) == Some(t) {
        assert DateSays(s, ParseDate(s).value);
      }
    } else if |s| >= 16 {
      LongIff(s, t);
    }
  }

  lemma DateLength(s: string, day: int)
    requires DateSays(s, day)
    ensures |s| == 10
  {
  }

  // ----- surrounding space -----

  /** A blank, a tab or line break, or one of the four ASCII separators. */
  predicate White(c: char) {
    c as int in {9, 10, 11, 12, 13, 28, 29, 30, 31, 32}
  }

  predicate AllWhite(s: string) {
    forall i :: 0 <= i < |s| ==> White(s[i])
  }

  lemma {:induction false} LeftOf(s: string) returns (a: string)
    ensures s == a + StripLeft(s) && AllWhite(a)
  {
    a := "";
    if s != "" && IsSpace(s[0]) {
      var rest := LeftOf(s[1..]);
      a := [s[0]] + rest;
      assert White(s[0]) && s == [s[0]] + s[1..];
      assert forall i :: 0 < i < |a| ==> a[i] == rest[i - 1];
    }
  }

  lemma {:induction false} RightOf(s: string) returns (b: string)
    ensures s == StripRight(s) + b && AllWhite(b)
    ensures StripRight(s) == "" || !White(StripRight(s)[|StripRight(s)| - 1])
  {
    b := "";
    if s != "" && IsSpace(s[|s| - 1]) {
      var rest := RightOf(s[..|s| - 1]);
      b := rest + [s[|s| - 1]];
      assert White(s[|s| - 1]) && s == s[..|s| - 1] + [s[|s| - 1]];
    }
  }

  /** A stripped text has lost nothing but white space, and has none left at either end. */
  lemma StripTakesSpace(s: string) returns (a: string, b: string)
    ensures s == a + Strip(s) + b && AllWhite(a) && AllWhite(b)
    ensures Strip(s) == "" || (!White(Strip(s)[0]) && !White(Strip(s)[|Strip(s)| - 1]))
  {
    a := LeftOf(s);
    b := RightOf(StripLeft(s));
    var left := StripLeft(s);
    assert Strip(s) != "" ==> Strip(s)[0] == left[0];
  }
}
