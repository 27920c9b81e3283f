/**
 What happens to the watermark guard when a timestamp is not spelled canonically: the store compares
 the texts it is given (src/kline/store.py `commit_mvp_run`).
 */
module Spellings {
  import opened Results
  import opened Timestamps
  import opened Storage
  import opened RunWrites
  import opened Store

  /** A spelling of the zone: nothing, `Z`, or a signed offset of whole minutes. */
  predicate ZoneText(z: string, offset: int) {
    if z == "" || z == "Z" then offset == 0 else |z| == 6 && ParseZone(z) == Some(offset)
  }

  /** The date and the clock of an instant, as its canonical text begins. */
  function Stem(t: int): (s: string)
    requires Representable(t)
    ensures |s| == 19
  {
    DateText(DateOf(t / DAY)) + "T" + ClockText(HourOf(t), MinuteOf(t), SecondOf(t))
  }

  /** The instant as a clock that far east of Greenwich shows it. */
  function Spelled(a: int, offset: int, z: string): string
    requires Representable(a + offset)
  {
    Stem(a + offset) + (FractionText(a % SECOND) + z)
  }

  lemma CanonSpelled(t: int)
    requires Representable(t)
    ensures Canon(t) == Spelled(t, 0, "+00:00")
  {
    hide DateText, ClockText, DateOf, FractionText;
    var date, clock := DateText(DateOf(t / DAY)), ClockText(HourOf(t), MinuteOf(t), SecondOf(t));
    assert date + "T" + clock + FractionText(t % SECOND) + "+00:00" == date + "T" + clock + (FractionText(t % SECOND) + "+00:00");
  }

  // ----- zones -----

  lemma {:induction false} ZeroDigits(s: string)
    requires |s| == 2 && AllDigits(s) && NumberOf(s) == 0
    ensures s == "00"
  {
    assert s[..1][..0] == "";
    assert NumberOf(s[..1]) == s[0] as int - 48;
  }

  /** An offset is whole minutes, and zero only as `+00:00` or `-00:00`. */
  lemma ZoneKinds(z: string, offset: int)
    requires |z| == 6 && ParseZone(z) == Some(offset)
    ensures offset % MINUTE == 0 && (z[0] == '+' || z[0] == '-')
    ensures offset == 0 <==> z == "+00:00" || z == "-00:00"
  {
    var s := z[1..];
    if offset == 0 {
      ZeroDigits(s[..2]);
      ZeroDigits(s[3..]);
      assert s == s[..2] + [s[2]] + s[3..];
      assert z == [z[0]] + s;
    }
    ZeroZones();
  }

  lemma ZeroZones()
    ensures ParseZone("+00:00") == Some(0) && ParseZone("-00:00") == Some(0)
  {
    ParseZeroZone();
    assert "-00:00"[1..] == "+00:00"[1..];
  }

  // ----- order -----

  lemma StemOrder(a: int, b: int)
    requires Representable(a) && Representable(b)
    ensures StrLess(Stem(a), Stem(b)) <==> a / SECOND < b / SECOND
    ensures Stem(a) == Stem(b) <==> a / SECOND == b / SECOND
  {
    hide StrLess, Canon;
    Fields(a);
    Fields(b);
    WholeTextOrder(DateOf(a / DAY), HourOf(a), MinuteOf(a), SecondOf(a), DateOf(b / DAY), HourOf(b), MinuteOf(b), SecondOf(b));
    WholeSeconds(a);
    WholeSeconds(b);
  }

  lemma WholeSeconds(t: int)
    ensures Seconds(t / DAY, HourOf(t), MinuteOf(t), SecondOf(t)) == t / SECOND
  {
    hide HourOf, MinuteOf, SecondOf;
    Fields(t);
  }

  /** Fractions of a second sort by value, and equal ones by what follows. */
  lemma TailOrder(u: nat, v: nat, y: string, z: string)
    requires 0 < u < SECOND && 0 < v < SECOND
    ensures StrLess(FractionText(u) + y, FractionText(v) + z) <==> u < v || (u == v && StrLess(y, z))
  {
    assert Pow10(6) == 1000000 by {
      assert Pow10(3) == 1000;
    }
    PadOrder(u, v, 6);
    var p, q := "." + Pad(u, 6), "." + Pad(v, 6);
    ConcatOrder(".", ".", Pad(u, 6), Pad(v, 6));
    assert p[1..] == Pad(u, 6) && q[1..] == Pad(v, 6);
    ConcatOrder(p, q, y, z);
    StrLessIrreflexive(".");
  }

  // ----- every spelling reads as its instant -----

  predicate ClockChars(s: string) {
    forall i :: 0 <= i < |s| ==> IsDigit(s[i]) || s[i] == ':' || s[i] == '.'
  }

  lemma ClockIsPlain(h: nat, m: nat, x: nat, us: nat)
    ensures ClockChars(ClockText(h, m, x) + FractionText(us))
  {
    hide Pad;
  }

  lemma ReplaceFirst(c: char, rest: string)
    requires c != 'Z'
    ensures ReplaceZ([c] + rest) == [c] + ReplaceZ(rest)
  {
    assert ([c] + rest)[1..] == rest;
  }

  lemma {:induction false} ReplaceNoZ(s: string, t: string)
    requires 'Z' !in s
    ensures ReplaceZ(s + t) == s + ReplaceZ(t)
  {
    hide ReplaceZ;
    if s == "" {
      assert s + t == t && s + ReplaceZ(t) == ReplaceZ(t);
    } else {
      var c, rest := s[0], s[1..];
      assert s == [c] + rest;
      ReplaceNoZ(rest, t);
      ReplaceFirst(c, rest + t);
      assert s + t == [c] + (rest + t);
      assert [c] + (rest + ReplaceZ(t)) == s + ReplaceZ(t);
    }
  }

  lemma ReplacedZone(z: string, offset: int)
    requires ZoneText(z, offset)
    ensures ReplaceZ(z) == if z == "Z" then "+00:00" else z
  {
    if z == "Z" {
      assert z[1..] == "";
      assert ReplaceZ(z[1..]) == "";
    } else if z != "" {
      var s := z[1..];
      assert s == s[..2] + [s[2]] + s[3..];
      assert z == [z[0]] + s;
    }
  }

  lemma ParseNaive(date: string, clock: string, day: int, tod: int)
    requires |date| == 10 && ParseDate(date) == Some(day) && |clock| >= 8 && ParseClock(clock) == Some(tod) && ClockChars(clock)
    ensures ParseIso(date + "T" + clock) == Some(day * DAY + tod)
  {
    hide ParseDate, ParseClock, ParseZone;
    var s := date + "T" + clock;
    assert s[..10] == date && s[11..] == clock;
  }

  lemma DateIsPlain(d: Date)
    requires d.Valid()
    ensures 'Z' !in DateText(d)
  {
    hide Pad, Date.Valid;
  }

  /** A shift by whole minutes keeps the fraction of a second. */
  lemma SameFraction(a: int, offset: int)
    requires offset % MINUTE == 0
    ensures (a + offset) % SECOND == a % SECOND
  {
    assert a + offset == SECOND * (a / SECOND + 60 * (offset / MINUTE)) + a % SECOND;
  }

  /** The parts of the text that do not depend on the zone's spelling. */
  lemma LocalParts(a: int, offset: int, z: string) returns (day: int, h: nat, m: nat, x: nat, us: nat)
    requires ZoneText(z, offset) && Representable(a + offset)
    ensures 0 <= day < LAST_DAY && h < 24 && m < 60 && x < 60 && us < SECOND
    ensures a == day * DAY + (h * HOUR + m * MINUTE + x * SECOND + us) - offset
    ensures Spelled(a, offset, z) == DateText(DateOf(day)) + "T" + ClockText(h, m, x) + (FractionText(us) + z)
  {
    hide HourOf, MinuteOf, SecondOf, ZoneText, Representable, DateText, ClockText, FractionText;
    var t := a + offset;
    TimeParts(t);
    OffsetIsMinutes(z, offset);
    SameFraction(a, offset);
    day, h, m, x, us := t / DAY, HourOf(t), MinuteOf(t), SecondOf(t), t % SECOND;
  }

  lemma SpelledParts(a: int, offset: int, z: string) returns (date: string, clock: string, day: int, tod: int)
    requires ZoneText(z, offset) && Representable(a + offset)
    ensures Spelled(a, offset, z) == (date + "T" + clock) + z && a == day * DAY + tod - offset
    ensures |date| == 10 && ParseDate(date) == Some(day) && |clock| >= 8 && ParseClock(clock) == Some(tod)
    ensures ClockChars(clock) && 'Z' !in date + "T" + clock
  {
    hide ParseDate, ParseClock, DateText, ClockText, FractionText, Date.Number, ZoneText, ClockChars, Representable, Spelled;
    var d, h, m, x, us := LocalParts(a, offset, z);
    day, tod := d, h * HOUR + m * MINUTE + x * SECOND + us;
    date, clock := DateText(DateOf(day)), ClockText(h, m, x) + FractionText(us);
    ParseDateText(DateOf(day));
    ParseClockText(h, m, x, us);
    ClockIsPlain(h, m, x, us);
    DateIsPlain(DateOf(day));
    NoZ(date, clock);
    Rejoined(date + "T", ClockText(h, m, x), FractionText(us), z);
  }

  lemma Rejoined(a: string, b: string, c: string, z: string)
    ensures a + b + (c + z) == a + (b + c) + z
  {
    assert a + b + c == a + (b + c);
  }

  lemma NoZ(date: string, clock: string)
    requires 'Z' !in date && ClockChars(clock)
    ensures 'Z' !in date + "T" + clock
  {
  }

  /** Any spelling but `Z` parses as it stands. */
  lemma SpelledParses(a: int, offset: int, z: string)
    requires ZoneText(z, offset) && z != "Z" && Representable(a + offset)
    ensures ParseIso(Spelled(a, offset, z)) == Some(a)
  {
    hide ParseIso, ParseDate, ParseClock, Spelled, ParseZone, ReplaceZ, ClockChars;
    var date, clock, day, tod := SpelledParts(a, offset, z);
    var s := date + "T" + clock;
    if z == "" {
      assert s + z == s;
      ParseNaive(date, clock, day, tod);
    } else {
      ParseJoined(date, clock, z, day, tod, offset);
    }
  }

  /** However its zone is spelled, the text reads as the instant. */
  lemma SpelledReads(a: int, offset: int, z: string)
    requires ZoneText(z, offset) && Representable(a + offset)
    ensures ParseIso(ReplaceZ(Spelled(a, offset, z))) == Some(a)
  {
    hide ParseIso, ParseDate, ParseClock, Spelled, ParseZone, ReplaceZ, ClockChars;
    var date, clock, day, tod := SpelledParts(a, offset, z);
    ReplacedZone(z, offset);
    ReplaceNoZ(date + "T" + clock, z);
    if z == "Z" {
      ZeroZones();
      ParseJoined(date, clock, "+00:00", day, tod, offset);
    } else {
      SpelledParses(a, offset, z);
    }
  }

  /** No spelling is blank or has white space around it. */
  lemma SpelledIsStripped(a: int, offset: int, z: string)
    requires ZoneText(z, offset) && Representable(a + offset)
    ensures Strip(Spelled(a, offset, z)) == Spelled(a, offset, z) && !Blank(Spelled(a, offset, z))
  {
    hide ParseIso, ParseDate, ParseClock, Spelled, ParseZone, ReplaceZ;
    var date, clock, day, tod := SpelledParts(a, offset, z);
    var s := (date + "T" + clock) + z;
    DateStarts(date);
    ZoneEnds(z, offset);
    assert s[0] == date[0];
    assert s[|s| - 1] == if z == "" then clock[|clock| - 1] else z[|z| - 1];
  }

  lemma DateStarts(date: string)
    requires |date| == 10 && ParseDate(date).Some?
    ensures IsDigit(date[0])
  {
    assert date[..4][0] == date[0];
  }

  lemma ZoneEnds(z: string, offset: int)
    requires ZoneText(z, offset)
    ensures z == "" || !IsSpace(z[|z| - 1])
  {
    if |z| == 6 {
      assert z[1..][3..][1] == z[5];
    }
  }

  lemma HourZone()
    ensures ZoneText("+01:00", HOUR)
  {
    ParseHourMinuteText(1, 0);
    assert "+01:00"[1..] == Pad(1, 2) + ":" + Pad(0, 2);
  }

  lemma OffsetIsMinutes(z: string, offset: int)
    requires ZoneText(z, offset)
    ensures offset % MINUTE == 0
  {
    if z != "" && z != "Z" {
      ZoneKinds(z, offset);
    }
  }

  // ----- the guard -----

  /** With this text stored, exactly the canonical texts of earlier instants sort before it. */
  ghost predicate StoredExact(a: int, text: string) {
    forall t :: Representable(t) ==> (StrLess(Canon(t), text) <==> t < a)
  }

  /** Submitted against a canonical watermark, this text sorts before it exactly when its instant is earlier. */
  ghost predicate SubmittedExact(a: int, text: string) {
    forall t :: Representable(t) ==> (StrLess(text, Canon(t)) <==> a < t)
  }

  /** Comparing a canonical text with one of offset zero. */
  lemma UtcOrder(t: int, a: int, z: string)
    requires Representable(t) && Representable(a)
    ensures StrLess(Canon(t), Spelled(a, 0, z)) <==>
            t / SECOND < a / SECOND ||
            (t / SECOND == a / SECOND && StrLess(FractionText(t % SECOND) + "+00:00", FractionText(a % SECOND) + z))
    ensures StrLess(Spelled(a, 0, z), Canon(t)) <==>
            a / SECOND < t / SECOND ||
            (a / SECOND == t / SECOND && StrLess(FractionText(a % SECOND) + z, FractionText(t % SECOND) + "+00:00"))
  {
    hide FractionText, StrLess, Canon, Stem;
    CanonSpelled(t);
    StemOrder(t, a);
    StemOrder(a, t);
    ConcatOrder(Stem(t), Stem(a), FractionText(t % SECOND) + "+00:00", FractionText(a % SECOND) + z);
    ConcatOrder(Stem(a), Stem(t), FractionText(a % SECOND) + z, FractionText(t % SECOND) + "+00:00");
  }

  /** How the ends of two texts of one second sort. */
  lemma EndsOrder(u: nat, v: nat, z: string)
    requires u < SECOND && v < SECOND && z in {"", "Z", "+00:00", "-00:00"}
    ensures var canonical, other := FractionText(u) + "+00:00", FractionText(v) + z;
            && (z in {"", "+00:00"} ==> (StrLess(canonical, other) <==> u < v))
            && (z in {"Z", "-00:00"} && u == v ==> StrLess(canonical, other))
            && (z in {"+00:00", "-00:00"} || (z == "Z" && v != 0) ==> (StrLess(other, canonical) <==> v < u))
            && (z == "" && u == v ==> StrLess(other, canonical))
            && (z == "Z" && v == 0 && u != 0 ==> !StrLess(other, canonical))
  {
    hide Pad;
    StrLessIrreflexive("+00:00");
    ZoneOrder();
    if u != 0 && v != 0 {
      TailOrder(u, v, "+00:00", z);
      TailOrder(v, u, z, "+00:00");
    } else {
      FirstChars(u, "+00:00");
      FirstChars(v, z);
    }
  }

  lemma FirstChars(u: nat, z: string)
    ensures u == 0 ==> FractionText(u) + z == z
    ensures u != 0 ==> FractionText(u) + z != "" && (FractionText(u) + z)[0] == '.'
  {
    hide Pad;
    assert "" + z == z;
  }

  lemma ZoneOrder()
    ensures StrLess("+00:00", "-00:00") && StrLess("+00:00", "Z") && StrLess("", "+00:00")
    ensures !StrLess("-00:00", "+00:00") && !StrLess("Z", "+00:00") && !StrLess("+00:00", "")
  {
  }

  /** A clock that shows another time than UTC shows a text of another minute. */
  lemma ShiftedStem(a: int, offset: int, z: string)
    requires Representable(a) && Representable(a + offset) && offset % MINUTE == 0 && offset != 0
    ensures offset > 0 ==> StrLess(Canon(a), Spelled(a, offset, z))
    ensures offset < 0 ==> Representable(a - 1) && !StrLess(Canon(a - 1), Spelled(a, offset, z))
    ensures offset < 0 ==> StrLess(Spelled(a, offset, z), Canon(a))
    ensures offset > 0 ==> Representable(a + 1) && !StrLess(Spelled(a, offset, z), Canon(a + 1))
  {
    hide FractionText, StrLess, Canon, Stem;
    if offset > 0 {
      AsStems(a, a, offset, z);
      AsStems(a + 1, a, offset, z);
    } else {
      AsStems(a, a, offset, z);
      AsStems(a - 1, a, offset, z);
    }
  }

  /** Texts of different seconds sort by the seconds they show. */
  lemma AsStems(t: int, a: int, offset: int, z: string)
    requires Representable(t) && Representable(a + offset) && t / SECOND != (a + offset) / SECOND
    ensures StrLess(Canon(t), Spelled(a, offset, z)) <==> t / SECOND < (a + offset) / SECOND
    ensures StrLess(Spelled(a, offset, z), Canon(t)) <==> (a + offset) / SECOND < t / SECOND
  {
    hide FractionText, StrLess, Canon, Stem;
    CanonSpelled(t);
    StemOrder(t, a + offset);
    StemOrder(a + offset, t);
    ConcatOrder(Stem(t), Stem(a + offset), FractionText(t % SECOND) + "+00:00", FractionText(a % SECOND) + z);
    ConcatOrder(Stem(a + offset), Stem(t), FractionText(a % SECOND) + z, FractionText(t % SECOND) + "+00:00");
  }

  /** Stored, a text is guarded by time against every canonical text exactly when it is in UTC and names no zone or `+00:00`. */
  lemma StoredExactIff(a: int, offset: int, z: string)
    requires ZoneText(z, offset) && Representable(a) && Representable(a + offset)
    ensures StoredExact(a, Spelled(a, offset, z)) <==> z in {"", "+00:00"}
  {
    hide StrLess, Canon, FractionText, Spelled, ParseZone;
    UtcZones(z, offset);
    OffsetIsMinutes(z, offset);
    if offset != 0 {
      ShiftedStem(a, offset, z);
    } else {
      forall t | Representable(t) && t / SECOND == a / SECOND
        ensures z in {"", "+00:00"} ==> (StrLess(Canon(t), Spelled(a, 0, z)) <==> t % SECOND < a % SECOND)
        ensures z !in {"", "+00:00"} && t == a ==> StrLess(Canon(t), Spelled(a, 0, z))
      {
        UtcOrder(t, a, z);
        EndsOrder(t % SECOND, a % SECOND, z);
      }
      forall t | Representable(t) && t / SECOND != a / SECOND
        ensures StrLess(Canon(t), Spelled(a, 0, z)) <==> t / SECOND < a / SECOND
      {
        UtcOrder(t, a, z);
      }
      assert forall t :: (t < a <==> t / SECOND < a / SECOND || (t / SECOND == a / SECOND && t % SECOND < a % SECOND));
    }
  }

  /** Submitted, a text is guarded by time exactly when it is in UTC with a signed zone, or with `Z` behind a fraction. */
  lemma SubmittedExactIff(a: int, offset: int, z: string)
    requires ZoneText(z, offset) && Representable(a) && Representable(a + offset)
    ensures SubmittedExact(a, Spelled(a, offset, z)) <==> z in {"+00:00", "-00:00"} || (z == "Z" && a % SECOND != 0)
  {
    hide StrLess, Canon, FractionText, Spelled, ParseZone;
    UtcZones(z, offset);
    OffsetIsMinutes(z, offset);
    if offset != 0 {
      ShiftedStem(a, offset, z);
    } else {
      var exact := z in {"+00:00", "-00:00"} || (z == "Z" && a % SECOND != 0);
      forall t | Representable(t) && t / SECOND == a / SECOND
        ensures exact ==> (StrLess(Spelled(a, 0, z), Canon(t)) <==> a % SECOND < t % SECOND)
        ensures z == "" && t == a ==> StrLess(Spelled(a, 0, z), Canon(t))
        ensures z == "Z" && a % SECOND == 0 && t % SECOND != 0 ==> !StrLess(Spelled(a, 0, z), Canon(t))
      {
        UtcOrder(t, a, z);
        EndsOrder(t % SECOND, a % SECOND, z);
      }
      forall t | Representable(t) && t / SECOND != a / SECOND
        ensures StrLess(Spelled(a, 0, z), Canon(t)) <==> a / SECOND < t / SECOND
      {
        UtcOrder(t, a, z);
      }
      if z == "Z" && a % SECOND == 0 {
        HalfPast(a);
        assert !StrLess(Spelled(a, 0, z), Canon(a + SECOND / 2));
      }
    }
  }

  lemma HalfPast(a: int)
    requires Representable(a) && a % SECOND == 0
    ensures Representable(a + SECOND / 2) && (a + SECOND / 2) / SECOND == a / SECOND && (a + SECOND / 2) % SECOND == SECOND / 2
  {
    assert a == SECOND * (a / SECOND);
  }

  lemma UtcZones(z: string, offset: int)
    requires ZoneText(z, offset)
    ensures offset == 0 <==> z in {"", "Z", "+00:00", "-00:00"}
  {
    if z != "" && z != "Z" {
      ZoneKinds(z, offset);
    }
  }

  /** The guard is a time guard in both places exactly for canonical texts. */
  lemma ExactIffCanonical(a: int, offset: int, z: string)
    requires ZoneText(z, offset) && Representable(a) && Representable(a + offset)
    ensures StoredExact(a, Spelled(a, offset, z)) && SubmittedExact(a, Spelled(a, offset, z)) <==> Spelled(a, offset, z) == Canon(a)
  {
    hide StrLess, Canon, Spelled, StoredExact, SubmittedExact, ParseZone;
    StoredExactIff(a, offset, z);
    SubmittedExactIff(a, offset, z);
    ZeroZones();
    CanonSpelled(a);
    if Spelled(a, offset, z) == Canon(a) {
      CanonIsExact(a);
    }
  }

  lemma CanonIsExact(a: int)
    requires Representable(a)
    ensures StoredExact(a, Canon(a)) && SubmittedExact(a, Canon(a))
  {
    hide StrLess, Canon;
    forall t | Representable(t)
      ensures StrLess(Canon(t), Canon(a)) <==> t < a
      ensures StrLess(Canon(a), Canon(t)) <==> a < t
    {
      CanonOrder(t, a);
      CanonOrder(a, t);
    }
  }

  // ----- the same at the store -----

  /** Whatever canonical watermark is submitted for the series, the store turns back exactly the earlier ones. */
  ghost predicate GuardsStored(t: Tables, x: SeriesId, a: int) {
    forall m: WatermarkWrite, b :: IdOf(m.key) == x && Representable(b) && m.lastClosed == Canon(b) ==> (Backwards(t, m) <==> b < a)
  }

  /** A stored watermark spelled in any zone guards its series by time exactly when it names no zone or `+00:00`. */
  lemma StoredWatermarkGuardIff(t: Tables, key: SeriesKey, a: int, offset: int, z: string)
    requires ZoneText(z, offset) && Representable(a) && Representable(a + offset)
    requires IdOf(key) in t.watermarks && t.watermarks[IdOf(key)].lastClosed == Spelled(a, offset, z)
    ensures GuardsStored(t, IdOf(key), a) <==> z in {"", "+00:00"}
  {
    hide StrLess, Canon, Spelled;
    StoredExactIff(a, offset, z);
    if GuardsStored(t, IdOf(key), a) {
      forall b | Representable(b)
        ensures StrLess(Canon(b), Spelled(a, offset, z)) <==> b < a
      {
        var m := WatermarkWrite(key, Canon(b), None, "");
        assert Backwards(t, m) <==> b < a;
      }
    }
  }

  /** Over a canonical watermark, a submitted text is turned back by time exactly when it is in UTC as stated. */
  lemma SubmittedWatermarkGuardIff(key: SeriesKey, a: int, offset: int, z: string, m: WatermarkWrite)
    requires ZoneText(z, offset) && Representable(a) && Representable(a + offset)
    requires m.key == key && m.lastClosed == Spelled(a, offset, z)
    ensures (forall t: Tables, b :: IdOf(key) in t.watermarks && Representable(b) && t.watermarks[IdOf(key)].lastClosed == Canon(b) ==>
               (Backwards(t, m) <==> a < b)) <==>
            z in {"+00:00", "-00:00"} || (z == "Z" && a % SECOND != 0)
  {
    hide StrLess, Canon, Spelled;
    SubmittedExactIff(a, offset, z);
    if forall t: Tables, b :: IdOf(key) in t.watermarks && Representable(b) && t.watermarks[IdOf(key)].lastClosed == Canon(b) ==>
                                (Backwards(t, m) <==> a < b) {
      forall b | Representable(b)
        ensures StrLess(Spelled(a, offset, z), Canon(b)) <==> a < b
      {
        var t := EMPTY.(watermarks := map[IdOf(key) := WatermarkRow(key, Canon(b), None, "")]);
        assert Backwards(t, m) <==> a < b;
      }
    }
  }
}
