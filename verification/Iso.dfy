/** How instants are written: the date time string format of section 21.4.1.32 of ECMA-262. */
module IsoText {
  import opened Text
  import opened Calendar

  function Pow10(width: nat): nat {
    if width == 0 then 1 else 10 * Pow10(width - 1)
  }

  function Digits(n: nat, width: nat): (s: string)
    ensures |s| == width
  {
    if width == 0 then "" else Digits(n / 10, width - 1) + [(('0' as int) + n % 10) as char]
  }

  /** A number that fits its width can be read back. */
  lemma {:induction false} DigitsDiffer(n: nat, m: nat, width: nat)
    requires n < Pow10(width) && m < Pow10(width)
    ensures Digits(n, width) == Digits(m, width) <==> n == m
  {
    if width > 0 && Digits(n, width) == Digits(m, width) {
      assert Digits(n, width)[..width - 1] == Digits(n / 10, width - 1);
      assert Digits(m, width)[..width - 1] == Digits(m / 10, width - 1);
      assert Digits(n, width)[width - 1] == Digits(m, width)[width - 1];
      DigitsDiffer(n / 10, m / 10, width - 1);
    }
  }

  lemma {:induction false} OnlyDigits(n: nat, width: nat)
    ensures forall c :: c in Digits(n, width) ==> '0' <= c <= '9'
  {
    if width > 0 {
      OnlyDigits(n / 10, width - 1);
    }
  }

  /** Four digits, or a sign and six: years beyond 9999 and before 0 take the longer form. */
  function YearText(y: int): string {
    if 0 <= y <= 9999 then Digits(y, 4) else if y < 0 then "-" + Digits(-y, 6) else "+" + Digits(y, 6)
  }

  lemma YearTextsDiffer(y: int, z: int)
    requires -1_000_000 < y < 1_000_000 && -1_000_000 < z < 1_000_000
    ensures YearText(y) == YearText(z) <==> y == z
  {
    assert Pow10(4) == 10_000 && Pow10(6) == 1_000_000;
    if YearText(y) == YearText(z) {
      if 0 <= y <= 9999 {
        assert |YearText(z)| == 4;
        DigitsDiffer(y, z, 4);
      } else {
        assert |YearText(y)| == 7;
        assert YearText(y)[0] == YearText(z)[0];
        assert YearText(y)[1..] == Digits(if y < 0 then -y else y, 6);
        assert YearText(z)[1..] == Digits(if z < 0 then -z else z, 6);
        DigitsDiffer(if y < 0 then -y else y, if z < 0 then -z else z, 6);
      }
    }
  }

  datatype Clock = Clock(hour: nat, minute: nat, second: nat, ms: nat)

  function TimeOfDay(t: int): Clock {
    var inDay := t % MS_PER_DAY;
    var inHour := inDay % 3_600_000;
    var inMinute := inHour % 60_000;
    Clock(inDay / 3_600_000, inHour / 60_000, inMinute / 1_000, inMinute % 1_000)
  }

  lemma ClockTells(t: int)
    ensures var c := TimeOfDay(t);
            && c.hour < 24 && c.minute < 60 && c.second < 60 && c.ms < 1_000
            && t == Day(t) * MS_PER_DAY + c.hour * 3_600_000 + c.minute * 60_000 + c.second * 1_000 + c.ms
  {
  }

  function DayOfMonth(t: int): (d: int)
    ensures 1 <= d <= 31
  {
    NextMonth(MonthNumber(t));
    Day(t) - MonthDay(MonthNumber(t)) + 1
  }

  function DateText(t: int): string {
    YearText(YearFromTime(t)) + ("-" + Digits(MonthFromTime(t) + 1, 2) + "-" + Digits(DayOfMonth(t), 2) + "T")
  }

  /** Up to the hour: the part before the first colon. */
  function HourText(t: int): string {
    DateText(t) + Digits(TimeOfDay(t).hour, 2)
  }

  function MinuteText(t: int): string {
    Digits(TimeOfDay(t).minute, 2)
  }

  function SecondText(t: int): string {
    Digits(TimeOfDay(t).second, 2) + ("." + Digits(TimeOfDay(t).ms, 3) + "Z")
  }

  function IsoString(t: int): string {
    HourText(t) + ":" + (MinuteText(t) + ":" + SecondText(t))
  }

  lemma ColonsOnlyBetween(t: int)
    ensures Free(HourText(t), ':') && Free(MinuteText(t), ':') && Free(SecondText(t), ':')
  {
    var y := YearFromTime(t);
    if 0 <= y {
      OnlyDigits(y, 4);
      OnlyDigits(y, 6);
    } else {
      OnlyDigits(-y, 6);
    }
    OnlyDigits(MonthFromTime(t) + 1, 2);
    OnlyDigits(DayOfMonth(t), 2);
    OnlyDigits(TimeOfDay(t).hour, 2);
    OnlyDigits(TimeOfDay(t).minute, 2);
    OnlyDigits(TimeOfDay(t).second, 2);
    OnlyDigits(TimeOfDay(t).ms, 3);
  }

  lemma SplitAtEnd(a: string, b: string, c: string, d: string)
    requires a + b == c + d && |b| == |d|
    ensures a == c && b == d
  {
    assert (a + b)[..|a|] == a && (a + b)[|a|..] == b;
    assert (c + d)[..|c|] == c && (c + d)[|c|..] == d;
  }

  lemma SameFields(a: string, b: string, c: string, d: string)
    requires "-" + a + "-" + b + "T" == "-" + c + "-" + d + "T" && |a| == |b| == |c| == |d| == 2
    ensures a == c && b == d
  {
    assert a == ("-" + a + "-" + b + "T")[1..3] && b == ("-" + a + "-" + b + "T")[4..6];
    assert c == ("-" + c + "-" + d + "T")[1..3] && d == ("-" + c + "-" + d + "T")[4..6];
  }

  lemma SameMonth(t: int, u: int)
    requires YearFromTime(t) == YearFromTime(u)
    requires Digits(MonthFromTime(t) + 1, 2) == Digits(MonthFromTime(u) + 1, 2)
    ensures MonthNumber(t) == MonthNumber(u)
  {
    assert Pow10(2) == 100;
    DigitsDiffer(MonthFromTime(t) + 1, MonthFromTime(u) + 1, 2);
  }

  lemma SameDay(t: int, u: int)
    requires MonthNumber(t) == MonthNumber(u)
    requires Digits(DayOfMonth(t), 2) == Digits(DayOfMonth(u), 2)
    ensures Day(t) == Day(u)
  {
    assert Pow10(2) == 100;
    DigitsDiffer(DayOfMonth(t), DayOfMonth(u), 2);
  }

  lemma SameDate(t: int, u: int)
    requires DateText(t) == DateText(u)
    requires -1_000_000 < YearFromTime(t) < 1_000_000 && -1_000_000 < YearFromTime(u) < 1_000_000
    ensures Day(t) == Day(u)
  {
    var (a, b) := (Digits(MonthFromTime(t) + 1, 2), Digits(DayOfMonth(t), 2));
    var (c, d) := (Digits(MonthFromTime(u) + 1, 2), Digits(DayOfMonth(u), 2));
    SplitAtEnd(YearText(YearFromTime(t)), "-" + a + "-" + b + "T", YearText(YearFromTime(u)), "-" + c + "-" + d + "T");
    SameFields(a, b, c, d);
    YearTextsDiffer(YearFromTime(t), YearFromTime(u));
    SameMonth(t, u);
    SameDay(t, u);
  }

  lemma SameClock(t: int, u: int)
    requires Digits(TimeOfDay(t).hour, 2) == Digits(TimeOfDay(u).hour, 2)
    requires MinuteText(t) == MinuteText(u) && SecondText(t) == SecondText(u)
    ensures TimeOfDay(t) == TimeOfDay(u)
  {
    ClockTells(t);
    ClockTells(u);
    assert Pow10(2) == 100 && Pow10(3) == 1_000;
    var (c, d) := (TimeOfDay(t), TimeOfDay(u));
    SplitAtEnd(Digits(c.second, 2), "." + Digits(c.ms, 3) + "Z", Digits(d.second, 2), "." + Digits(d.ms, 3) + "Z");
    assert Digits(c.ms, 3) == ("." + Digits(c.ms, 3) + "Z")[1..4] == ("." + Digits(d.ms, 3) + "Z")[1..4] == Digits(d.ms, 3);
    DigitsDiffer(c.hour, d.hour, 2);
    DigitsDiffer(c.minute, d.minute, 2);
    DigitsDiffer(c.second, d.second, 2);
    DigitsDiffer(c.ms, d.ms, 3);
  }

  lemma YearsAreShort(t: int, y: int, z: int)
    requires Representable(t) && y == FIRST_YEAR && z == LAST_YEAR
    ensures y <= YearFromTime(t) <= z
  {
    EndsOfTime(y, z);
    var n := MonthNumber(t);
    assert -100_000_000 <= Day(t) <= 100_000_000;
    if n < 12 * y + 3 {
      MonthsInOrder(n + 1, 12 * y + 3);
    }
    if n > 12 * z + 8 {
      MonthsInOrder(12 * z + 9, n);
    }
  }

  /** Different instants are written differently, whatever their years. */
  lemma IsoStringsDiffer(t: int, u: int)
    requires Representable(t) && Representable(u)
    ensures IsoString(t) == IsoString(u) <==> t == u
  {
    if IsoString(t) == IsoString(u) {
      ColonsOnlyBetween(t);
      ColonsOnlyBetween(u);
      JoinedOnFirst(HourText(t), MinuteText(t) + ":" + SecondText(t), HourText(u), MinuteText(u) + ":" + SecondText(u), ':');
      JoinedOnFirst(MinuteText(t), SecondText(t), MinuteText(u), SecondText(u), ':');
      SplitAtEnd(DateText(t), Digits(TimeOfDay(t).hour, 2), DateText(u), Digits(TimeOfDay(u).hour, 2));
      YearsAreShort(t, FIRST_YEAR, LAST_YEAR);
      YearsAreShort(u, FIRST_YEAR, LAST_YEAR);
      SameDate(t, u);
      SameClock(t, u);
      ClockTells(t);
      ClockTells(u);
    }
  }

  // ---------- reading back what is written ----------

  /** The number that digits stand for. */
  function Number(digits: string): int {
    if digits == "" then 0 else Number(digits[..|digits| - 1]) * 10 + (digits[|digits| - 1] as int - '0' as int)
  }

  lemma {:induction false} NumberOfDigits(n: nat, width: nat)
    requires n < Pow10(width)
    ensures Number(Digits(n, width)) == n
  {
    if width > 0 {
      NumberOfDigits(n / 10, width - 1);
      assert Digits(n, width)[..width - 1] == Digits(n / 10, width - 1);
    }
  }

  /** The year that a year text stands for: it is signed when it is longer than four. */
  function YearRead(text: string): int
    requires text != ""
  {
    if |text| == 4 then Number(text) else if text[0] == '-' then -Number(text[1..]) else Number(text[1..])
  }

  lemma YearReadsBack(y: int)
    requires -1_000_000 < y < 1_000_000
    ensures var text := YearText(y);
            && YearRead(text) == y && |text| == (if 0 <= y <= 9999 then 4 else 7)
            && (|text| == 7 ==> text[0] == if y < 0 then '-' else '+')
  {
    assert Pow10(4) == 10_000 && Pow10(6) == 1_000_000;
    var n := if y < 0 then -y else y;
    NumberOfDigits(n, if 0 <= y <= 9999 then 4 else 6);
    assert !(0 <= y <= 9999) ==> YearText(y)[1..] == Digits(n, 6);
  }

  /** The fields of a written instant. */
  datatype Written = Written(year: string, month: string, day: string, hour: string, minute: string, second: string, ms: string)

  function Spelled(w: Written): string {
    w.year + ("-" + w.month + "-" + w.day + "T") + w.hour + ":" + (w.minute + ":" + (w.second + ("." + w.ms + "Z")))
  }

  /** The instant that the fields stand for. */
  function Read(w: Written): int
    requires w.year != ""
  {
    MonthStart(12 * YearRead(w.year) + Number(w.month) - 1) + (Number(w.day) - 1) * 86_400_000
    + Number(w.hour) * 3_600_000 + Number(w.minute) * 60_000 + Number(w.second) * 1_000 + Number(w.ms)
  }

  function WrittenAs(t: int): Written {
    var c := TimeOfDay(t);
    Written(YearText(YearFromTime(t)), Digits(MonthFromTime(t) + 1, 2), Digits(DayOfMonth(t), 2),
            Digits(c.hour, 2), Digits(c.minute, 2), Digits(c.second, 2), Digits(c.ms, 3))
  }

  lemma TwoDigits(n: nat)
    requires n < 100
    ensures Number(Digits(n, 2)) == n
  {
    assert Pow10(2) == 100;
    NumberOfDigits(n, 2);
  }

  lemma ThreeDigits(n: nat)
    requires n < 1_000
    ensures Number(Digits(n, 3)) == n
  {
    assert Pow10(3) == 1_000;
    NumberOfDigits(n, 3);
  }

  lemma DateFieldsRead(t: int)
    ensures Number(WrittenAs(t).month) == MonthFromTime(t) + 1 && Number(WrittenAs(t).day) == DayOfMonth(t)
  {
    TwoDigits(MonthFromTime(t) + 1);
    TwoDigits(DayOfMonth(t));
  }

  lemma ClockFieldsRead(t: int)
    ensures var (w, c) := (WrittenAs(t), TimeOfDay(t));
            Number(w.hour) == c.hour && Number(w.minute) == c.minute && Number(w.second) == c.second && Number(w.ms) == c.ms
  {
    var c := TimeOfDay(t);
    ClockTells(t);
    TwoDigits(c.hour);
    TwoDigits(c.minute);
    TwoDigits(c.second);
    ThreeDigits(c.ms);
  }

  lemma SpelledOut(t: int)
    ensures IsoString(t) == Spelled(WrittenAs(t))
  {
  }

  /** The numbers read from a text are those of an instant. */
  lemma ReadTogether(t: int, w: Written)
    requires w.year != "" && YearRead(w.year) == YearFromTime(t)
    requires Number(w.month) == MonthFromTime(t) + 1 && Number(w.day) == DayOfMonth(t)
    requires Number(w.hour) == TimeOfDay(t).hour && Number(w.minute) == TimeOfDay(t).minute
    requires Number(w.second) == TimeOfDay(t).second && Number(w.ms) == TimeOfDay(t).ms
    ensures Read(w) == t
  {
    ClockTells(t);
    FieldsTell(t);
    assert Read(w) == MonthStart(12 * YearFromTime(t) + MonthFromTime(t)) + (DayOfMonth(t) - 1) * 86_400_000
                      + TimeOfDay(t).hour * 3_600_000 + TimeOfDay(t).minute * 60_000 + TimeOfDay(t).second * 1_000 + TimeOfDay(t).ms;
  }

  /**
   A written instant is YYYY-MM-DDTHH:mm:ss.sssZ, with a sign and six digits for a year that does not
   fit in four, and reading its fields gives the instant back.
   */
  lemma IsoStringReadsBack(t: int) returns (w: Written)
    requires Representable(t)
    ensures IsoString(t) == Spelled(w) && (|w.year| == 4 || (|w.year| == 7 && (w.year[0] == '-' || w.year[0] == '+')))
    ensures |w.month| == |w.day| == |w.hour| == |w.minute| == |w.second| == 2 && |w.ms| == 3
    ensures Read(w) == t
  {
    w := WrittenAs(t);
    SpelledOut(t);
    YearsAreShort(t, FIRST_YEAR, LAST_YEAR);
    YearReadsBack(YearFromTime(t));
    DateFieldsRead(t);
    ClockTells(t);
    ClockFieldsRead(t);
    ReadTogether(t, w);
  }

  lemma FieldsTell(t: int)
    ensures MonthStart(12 * YearFromTime(t) + MonthFromTime(t)) + (DayOfMonth(t) - 1) * MS_PER_DAY == Day(t) * MS_PER_DAY
  {
    assert 12 * YearFromTime(t) + MonthFromTime(t) == MonthNumber(t);
  }

  lemma FourParts(h: string, m: string, s: string, e: string, h': string, m': string, s': string, e': string)
    requires Free(h, ':') && Free(m, ':') && Free(s, ':') && Free(h', ':') && Free(m', ':') && Free(s', ':')
    requires h + ":" + (m + ":" + s) + ":" + e == h' + ":" + (m' + ":" + s') + ":" + e'
    ensures h == h' && m == m' && s == s' && e == e'
  {
    assert h + ":" + (m + ":" + s) + ":" + e == h + ":" + (m + ":" + (s + ":" + e));
    assert h' + ":" + (m' + ":" + s') + ":" + e' == h' + ":" + (m' + ":" + (s' + ":" + e'));
    JoinedOnFirst(h, m + ":" + (s + ":" + e), h', m' + ":" + (s' + ":" + e'), ':');
    JoinedOnFirst(m, s + ":" + e, m', s' + ":" + e', ':');
    JoinedOnFirst(s, e, s', e', ':');
  }

  /** Two instants joined by a colon can be told apart although each is written with colons of its own. */
  lemma JoinedInstants(t: int, end: string, u: int, finish: string)
    requires Representable(t) && Representable(u)
    requires IsoString(t) + ":" + end == IsoString(u) + ":" + finish
    ensures t == u && end == finish
  {
    ColonsOnlyBetween(t);
    ColonsOnlyBetween(u);
    FourParts(HourText(t), MinuteText(t), SecondText(t), end, HourText(u), MinuteText(u), SecondText(u), finish);
    IsoStringsDiffer(t, u);
  }
}
