/** Calendar arithmetic on integer milliseconds since 1970, as section 21.4.1 of ECMA-262 defines it. */
module Calendar {
  import opened Prelude

  const MS_PER_DAY: int := 86_400_000
  const MAX_TIME: int := 8_640_000_000_000_000

  predicate Representable(t: int) {
    -MAX_TIME <= t <= MAX_TIME
  }

  function Day(t: int): int {
    t / MS_PER_DAY
  }

  predicate LeapYear(y: int) {
    y % 4 == 0 && (y % 100 != 0 || y % 400 == 0)
  }

  const MONTH_LENGTHS: seq<int> := [31, 28, 31, 30, 31, 30, 31, 31, 30, 31, 30, 31]

  /** Months are numbered through all years: month `m` of year `y` is `12 * y + m`, January being 0. */
  function MonthLength(n: int): (days: int)
    ensures 28 <= days <= 31
  {
    MONTH_LENGTHS[n % 12] + if n % 12 == 1 && LeapYear(n / 12) then 1 else 0
  }

  const JANUARY_1970: int := 12 * 1970

  /** The first day of a month, counted by adding up the months between. */
  function MonthDay(n: int): int
    decreases if n < JANUARY_1970 then JANUARY_1970 - n else n - JANUARY_1970
  {
    if n == JANUARY_1970 then 0
    else if n < JANUARY_1970 then MonthDay(n + 1) - MonthLength(n)
    else MonthDay(n - 1) + MonthLength(n - 1)
  }

  lemma {:induction false} MonthsInOrder(n: int, m: int)
    requires n <= m
    ensures MonthDay(n) + 28 * (m - n) <= MonthDay(m)
    decreases m - n
  {
    if n < m {
      MonthsInOrder(n, m - 1);
      assert MonthDay(m) == MonthDay(m - 1) + MonthLength(m - 1);
    }
  }

  /** The month of a day, looked for from a guess. */
  function MonthOf(day: int, guess: int): (n: int)
    ensures MonthDay(n) <= day < MonthDay(n + 1)
    decreases if day < MonthDay(guess) then 1 else 0,
              if day < MonthDay(guess) then MonthDay(guess) - day else day - MonthDay(guess)
  {
    MonthsInOrder(guess, guess + 1);
    MonthsInOrder(guess - 1, guess);
    if day < MonthDay(guess) then MonthOf(day, guess - 1)
    else if MonthDay(guess + 1) <= day then MonthOf(day, guess + 1)
    else guess
  }

  function MonthNumber(t: int): int {
    MonthOf(Day(t), JANUARY_1970)
  }

  function YearFromTime(t: int): int {
    MonthNumber(t) / 12
  }

  function MonthFromTime(t: int): nat {
    MonthNumber(t) % 12
  }

  // ---------- the standard's closed form ----------

  function DayFromYear(y: int): int {
    365 * (y - 1970) + (y - 1969) / 4 - (y - 1901) / 100 + (y - 1601) / 400
  }

  lemma FourthYears(y: int)
    ensures (y + 1 - 1969) / 4 - (y - 1969) / 4 == if y % 4 == 0 then 1 else 0
  {
  }

  lemma Centuries(y: int)
    ensures (y + 1 - 1901) / 100 - (y - 1901) / 100 == if y % 100 == 0 then 1 else 0
    ensures y % 100 == 0 ==> y % 4 == 0
  {
  }

  lemma FourthCenturies(y: int)
    ensures (y + 1 - 1601) / 400 - (y - 1601) / 400 == if y % 400 == 0 then 1 else 0
    ensures y % 400 == 0 ==> y % 100 == 0
  {
  }

  /** The arithmetic of a year's length, with its quotients given. */
  lemma LeapDays(days: int, after: int, y: int, fourths: int, centuries: int, fourthCenturies: int)
    requires after - days == 365 + fourths - centuries + fourthCenturies
    requires fourths == if y % 4 == 0 then 1 else 0
    requires centuries == if y % 100 == 0 then 1 else 0
    requires fourthCenturies == if y % 400 == 0 then 1 else 0
    requires (y % 100 == 0 ==> y % 4 == 0) && (y % 400 == 0 ==> y % 100 == 0)
    ensures after - days == if LeapYear(y) then 366 else 365
  {
  }

  lemma YearLength(y: int)
    ensures DayFromYear(y + 1) - DayFromYear(y) == if LeapYear(y) then 366 else 365
  {
    FourthYears(y);
    Centuries(y);
    FourthCenturies(y);
    LeapDays(DayFromYear(y), DayFromYear(y + 1), y, (y + 1 - 1969) / 4 - (y - 1969) / 4,
             (y + 1 - 1901) / 100 - (y - 1901) / 100, (y + 1 - 1601) / 400 - (y - 1601) / 400);
  }

  lemma MonthOfYear(y: int, month: nat)
    requires month < 12
    ensures (12 * y + month) / 12 == y && (12 * y + month) % 12 == month
  {
  }

  const DAYS_BEFORE: seq<int> := [0, 31, 59, 90, 120, 151, 181, 212, 243, 273, 304, 334, 365]

  /** Month starts within a year: the standard's table. */
  lemma {:induction false} DaysBeforeMonth(y: int, month: nat)
    requires month <= 12
    ensures MonthDay(12 * y + month) == MonthDay(12 * y) + DAYS_BEFORE[month] + if month >= 2 && LeapYear(y) then 1 else 0
  {
    if month > 0 {
      DaysBeforeMonth(y, month - 1);
      MonthOfYear(y, month - 1);
      NextMonth(12 * y + (month - 1));
    }
  }

  lemma NextMonth(n: int)
    ensures MonthDay(n + 1) == MonthDay(n) + MonthLength(n)
  {
  }

  /** Adding up the months gives the standard's closed form for the first day of every year. */
  lemma {:induction false} YearsAddUp(y: int)
    ensures MonthDay(12 * y) == DayFromYear(y)
    decreases if y < 1970 then 1970 - y else y - 1970
  {
    if y < 1970 {
      YearsAddUp(y + 1);
      DaysBeforeMonth(y, 12);
      YearLength(y);
    } else if y > 1970 {
      YearsAddUp(y - 1);
      DaysBeforeMonth(y - 1, 12);
      YearLength(y - 1);
    }
  }

  /** The year of an instant is the one that the standard asks for: it starts at or before it, the next one after it. */
  lemma YearFromTimeIsTheStandards(t: int)
    ensures DayFromYear(YearFromTime(t)) <= Day(t) < DayFromYear(YearFromTime(t) + 1)
  {
    var n := MonthNumber(t);
    var y := n / 12;
    assert 12 * y <= n < 12 * (y + 1);
    MonthsInOrder(12 * y, n);
    MonthsInOrder(n + 1, 12 * (y + 1));
    YearsAddUp(y);
    YearsAddUp(y + 1);
  }

  // ---------- months as intervals ----------

  datatype Period = Period(start: int, end: int)

  predicate Contains(p: Period, t: int) {
    p.start <= t < p.end
  }

  /** The first millisecond of a month. */
  function MonthStart(n: int): int {
    MonthDay(n) * MS_PER_DAY
  }

  function WholeMonth(n: int): Period {
    Period(MonthStart(n), MonthStart(n + 1))
  }

  lemma MonthStartsInOrder(n: int, m: int)
    ensures MonthStart(n) < MonthStart(m) <==> n < m
    ensures MonthStart(n) == MonthStart(m) <==> n == m
  {
    if n < m {
      MonthsInOrder(n, m);
    } else if m < n {
      MonthsInOrder(m, n);
    }
  }

  /** Months tile time: the month of an instant is the only one that holds it. */
  lemma MonthIs(t: int, n: int)
    ensures Contains(WholeMonth(n), t) <==> n == MonthNumber(t)
  {
    var m := MonthNumber(t);
    assert MonthStart(m) <= t < MonthStart(m + 1);
    MonthStartsInOrder(n + 1, m + 1);
    MonthStartsInOrder(m + 1, n + 1);
    if n < m {
      MonthsInOrder(n + 1, m);
    } else if m < n {
      MonthsInOrder(m + 1, n);
    }
  }

  // ---------- Date.UTC and its two-digit years ----------

  function MakeFullYear(y: int): int {
    if 0 <= y <= 99 then 1900 + y else y
  }

  function TimeClip(t: int): Option<int> {
    if Representable(t) then Some(t) else None
  }

  /** The first day of a month; month 12 runs into the year after. */
  function DateUtc(y: int, month: nat): Option<int> {
    TimeClip(MonthStart(12 * MakeFullYear(y) + month))
  }

  /** No result stands for the RangeError that formatting an unrepresentable date throws. */
  function MonthPeriod(t: int): Option<Period> {
    var start := DateUtc(YearFromTime(t), MonthFromTime(t));
    var end := DateUtc(YearFromTime(t), MonthFromTime(t) + 1);
    if start.Some? && end.Some? then Some(Period(start.value, end.value)) else None
  }

  predicate TwoDigitYear(t: int) {
    0 <= YearFromTime(t) <= 99
  }

  const NINETEEN_CENTURIES: int := 12 * 1900

  /** The month whose counter an instant is metered in. */
  function MeteredMonth(t: int): int {
    if TwoDigitYear(t) then MonthNumber(t) + NINETEEN_CENTURIES else MonthNumber(t)
  }

  lemma PeriodIsTheMeteredMonth(t: int)
    ensures var p := WholeMonth(MeteredMonth(t));
            MonthPeriod(t) == if Representable(p.start) && Representable(p.end) then Some(p) else None
  {
    var n := MonthNumber(t);
    assert n == 12 * (n / 12) + n % 12;
  }

  /** The period of an instant contains it exactly when its year is not between 0 and 99. */
  lemma PeriodContainsItsInstant(t: int)
    requires MonthPeriod(t).Some?
    ensures Contains(MonthPeriod(t).value, t) <==> !TwoDigitYear(t)
  {
    PeriodIsTheMeteredMonth(t);
    MonthIs(t, MeteredMonth(t));
  }

  /** Periods tile time: two instants share a period or have disjoint ones, and the next begins where one ends. */
  lemma PeriodsTile(t: int, u: int)
    requires MonthPeriod(t).Some? && MonthPeriod(u).Some? && !TwoDigitYear(t) && !TwoDigitYear(u)
    ensures var (p, q) := (MonthPeriod(t).value, MonthPeriod(u).value);
            && (p == q <==> Contains(p, u))
            && (p != q ==> p.end <= q.start || q.end <= p.start)
            && (u == p.end ==> q.start == p.end)
  {
    var (n, m) := (MonthNumber(t), MonthNumber(u));
    PeriodIsTheMeteredMonth(t);
    PeriodIsTheMeteredMonth(u);
    MonthIs(u, n);
    MonthIs(u, n + 1);
    MonthStartsInOrder(n + 1, n + 2);
    MonthStartsInOrder(n, m);
    MonthStartsInOrder(m, n + 1);
    MonthStartsInOrder(n, m + 1);
  }

  // ---------- the ends of the time range ----------

  /** The range begins on 20 April of its first year and ends on 13 September of its last. */
  const FIRST_YEAR: int := -271821
  const LAST_YEAR: int := 275760

  lemma EndsOfTime(y: int, z: int)
    requires y == FIRST_YEAR && z == LAST_YEAR
    ensures MonthDay(12 * y + 3) < -100_000_000 < MonthDay(12 * y + 4)
    ensures MonthDay(12 * z + 8) < 100_000_000 < MonthDay(12 * z + 9)
  {
    YearsAddUp(y);
    DaysBeforeMonth(y, 3);
    DaysBeforeMonth(y, 4);
    YearsAddUp(z);
    DaysBeforeMonth(z, 8);
    DaysBeforeMonth(z, 9);
  }

  lemma StartsLateEnough(n: int, first: int)
    requires MonthDay(first - 1) < -100_000_000 < MonthDay(first)
    ensures -MAX_TIME <= MonthStart(n) <==> first <= n
  {
    if n < first {
      MonthsInOrder(n, first - 1);
    } else {
      MonthsInOrder(first, n);
    }
  }

  lemma EndsEarlyEnough(n: int, last: int)
    requires MonthDay(last) < 100_000_000 < MonthDay(last + 1)
    ensures MonthStart(n) <= MAX_TIME <==> n <= last
  {
    if n <= last {
      MonthsInOrder(n, last);
    } else {
      MonthsInOrder(last + 1, n);
    }
  }

  lemma WholeMonths(n: int, first: int, last: int)
    requires MonthDay(first - 1) < -100_000_000 < MonthDay(first)
    requires MonthDay(last + 1) < 100_000_000 < MonthDay(last + 2)
    ensures Representable(MonthStart(n)) && Representable(MonthStart(n + 1)) <==> first <= n <= last
  {
    MonthStartsInOrder(n, n + 1);
    StartsLateEnough(n, first);
    EndsEarlyEnough(n + 1, last + 1);
  }

  lemma Between(t: int, first: int, last: int)
    ensures MonthStart(first) <= t < MonthStart(last + 1) <==> first <= MonthNumber(t) <= last
  {
    var n := MonthNumber(t);
    MonthIs(t, n);
    MonthStartsInOrder(n, first);
    MonthStartsInOrder(first, n + 1);
    MonthStartsInOrder(n, last + 1);
    MonthStartsInOrder(last + 1, n + 1);
  }

  lemma PeriodsExistFrom(t: int, first: int, last: int)
    requires MonthDay(first - 1) < -100_000_000 < MonthDay(first) && first < 0
    requires MonthDay(last + 1) < 100_000_000 < MonthDay(last + 2) && last > 24_000
    ensures MonthPeriod(t).Some? <==> MonthStart(first) <= t < MonthStart(last + 1)
  {
    PeriodIsTheMeteredMonth(t);
    WholeMonths(MeteredMonth(t), first, last);
    Between(t, first, last);
  }

  /** Every instant has a period, except in the two months that the ends of the time range cut short. */
  lemma PeriodsExist(t: int, y: int, z: int)
    requires y == FIRST_YEAR && z == LAST_YEAR
    ensures MonthPeriod(t).Some? <==> MonthStart(12 * y + 4) <= t < MonthStart(12 * z + 8)
  {
    EndsOfTime(y, z);
    PeriodsExistFrom(t, 12 * y + 4, 12 * z + 7);
  }

  /**
   The instants that share the counter of a month: its own, and for a month of the twentieth
   century also those of the same month nineteen centuries before.
   */
  lemma InstantsOfAPeriod(t: int, n: int)
    requires Representable(MonthStart(n)) && Representable(MonthStart(n + 1)) && !(0 <= n / 12 <= 99)
    ensures MonthPeriod(t) == Some(WholeMonth(n))
            <==> Contains(WholeMonth(n), t) || (1900 <= n / 12 <= 1999 && Contains(WholeMonth(n - NINETEEN_CENTURIES), t))
  {
    PeriodIsTheMeteredMonth(t);
    MonthStartsInOrder(n, MeteredMonth(t));
    MonthIs(t, n);
    MonthIs(t, n - NINETEEN_CENTURIES);
  }

  /** 15 March of the year 50 is metered in March 1950, which it comes long before. */
  lemma MarchOfTheYearFifty(y: int, t: int)
    requires y == 50 && t == MonthStart(12 * y + 2) + 14 * MS_PER_DAY
    ensures MonthNumber(t) == 12 * y + 2 && MeteredMonth(t) == 12 * (y + 1900) + 2 && t < MonthStart(MeteredMonth(t))
  {
    NextMonth(12 * y + 2);
    MonthIs(t, 12 * y + 2);
    MonthStartsInOrder(12 * y + 3, MeteredMonth(t));
  }
}
