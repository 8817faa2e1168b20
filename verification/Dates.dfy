/** Dates as minutes since the start of 1904, and back.  The conversions use a calendar in which
    every fourth year is a leap year; the length of February is asked of the Gregorian one. */
module Dates {
  type ULong = n: int | 0 <= n < 0x1_0000_0000

  /** The low 32 bits, unsigned. */
  function ToULong(n: int): ULong {
    if 0 <= n < 0x1_0000_0000 then n else n % 0x1_0000_0000
  }

  /** The low 32 bits, signed. */
  function ToInt(n: int): int {
    if -0x8000_0000 <= n < 0x8000_0000 then n
    else if ToULong(n) < 0x8000_0000 then ToULong(n) else ToULong(n) - 0x1_0000_0000
  }

  /** The quotient and remainder of C's div: truncation towards zero. */
  function Quot(a: int, b: int): int
    requires b > 0
  {
    if a >= 0 then a / b else -(-a / b)
  }

  function Rem(a: int, b: int): int
    requires b > 0
  {
    a - Quot(a, b) * b
  }

  const MINUTES_IN_DAY := 1440

  // ---------- the calendar of every fourth year ----------

  predicate FourthYear(year: int) { year % 4 == 0 }

  function MonthLength(leap: bool, month: int): nat {
    if month == 2 then (if leap then 29 else 28)
    else if month == 4 || month == 6 || month == 9 || month == 11 then 30
    else 31
  }

  /** The days of a year before the first of a month. */
  function MonthStart(leap: bool, month: int): nat
    requires 1 <= month <= 13
    decreases month
  {
    if month == 1 then 0 else MonthStart(leap, month - 1) + MonthLength(leap, month - 1)
  }

  /** The days before the first of January. */
  function YearStart(year: int): nat
    requires 1904 <= year
    decreases year
  {
    if year == 1904 then 0 else YearStart(year - 1) + if FourthYear(year - 1) then 366 else 365
  }

  lemma {:induction false} YearStartFormula(year: int)
    requires 1904 <= year
    ensures YearStart(year) == ((year - 1904) * 1461 + 3) / 4
    decreases year
  {
    if year > 1904 {
      YearStartFormula(year - 1);
      var n := year - 1905;
      assert (n + 1) * 1461 + 3 == n * 1461 + 3 + 1461;
      assert n % 4 == (year - 1) % 4;
    }
  }

  lemma MonthStarts(leap: bool)
    ensures MonthStart(leap, 1) == 0 && MonthStart(leap, 2) == 31
    ensures var m := if leap then 60 else 59;
            && MonthStart(leap, 3) == m && MonthStart(leap, 4) == m + 31 && MonthStart(leap, 5) == m + 61
            && MonthStart(leap, 6) == m + 92 && MonthStart(leap, 7) == m + 122 && MonthStart(leap, 8) == m + 153
            && MonthStart(leap, 9) == m + 184 && MonthStart(leap, 10) == m + 214 && MonthStart(leap, 11) == m + 245
            && MonthStart(leap, 12) == m + 275 && MonthStart(leap, 13) == m + 306
  {
    assert MonthStart(leap, 3) == MonthStart(leap, 2) + MonthLength(leap, 2);
    assert MonthStart(leap, 5) == MonthStart(leap, 4) + MonthLength(leap, 4);
    assert MonthStart(leap, 7) == MonthStart(leap, 6) + MonthLength(leap, 6);
    assert MonthStart(leap, 9) == MonthStart(leap, 8) + MonthLength(leap, 8);
    assert MonthStart(leap, 11) == MonthStart(leap, 10) + MonthLength(leap, 10);
    assert MonthStart(leap, 13) == MonthStart(leap, 12) + MonthLength(leap, 12);
  }

  /** The rule daysInMonth and daysInYear apply. */
  predicate CodeLeap(year: ULong) {
    year >= 2920 || year == 0xFFFF_FFFF || (year % 4 == 0 && (year % 100 != 0 || year % 400 == 0))
  }

  /** The Gregorian calendar: every fourth year, but not the centuries that 400 does not divide. */
  predicate Gregorian(year: int) {
    FourthYear(year) && !(year % 100 == 0 && year % 400 != 0)
  }

  /** From 2920 on every year is taken for a leap year. */
  predicate TakenForLeap(year: int) { year >= 2920 || Gregorian(year) }

  // ---------- dates ----------

  datatype Date = Date(year: ULong, month: ULong, day: ULong, hour: ULong, minute: ULong, second: ULong, dayOfWeek: ULong) {
    /** The fields name a minute of the calendar of every fourth year. */
    predicate OnCalendar() {
      && 1904 <= year && 1 <= month <= 12
      && 1 <= day <= MonthLength(FourthYear(year), month)
      && hour < 24 && minute < 60
    }

    /** The days and the minutes that have passed since the start of 1904, counted by adding up
        the lengths of years and months. */
    function DaysSince1904(): nat
      requires OnCalendar()
    {
      YearStart(year) + MonthStart(FourthYear(year), month) + day - 1
    }

    function MinutesSince1904(): nat
      requires OnCalendar()
    {
      DaysSince1904() * MINUTES_IN_DAY + hour * 60 + minute
    }

    /** Field order: later in the calendar. */
    predicate Before(that: Date) {
      || year < that.year
      || (year == that.year
          && (month < that.month
              || (month == that.month
                  && (day < that.day
                      || (day == that.day && (hour < that.hour || (hour == that.hour && minute < that.minute)))))))
    }

    predicate SameMinute(that: Date) {
      year == that.year && month == that.month && day == that.day && hour == that.hour && minute == that.minute
    }

    function DaysInMonth(): ULong {
      if month in {1, 3, 5, 7, 8, 10, 12} then 31
      else if month in {4, 6, 9, 11} then 30
      else if month == 2 then (if CodeLeap(year) then 29 else 28)
      else 0
    }

    predicate IsValidDate() { month <= 12 && day <= DaysInMonth() }

    /** The number of the day in its year; nothing but the day for a month that is none. */
    function DaysInYear(): ULong {
      var before :=
        match month
        case 1 => 0
        case 2 => 31
        case 3 => 59
        case 4 => 90
        case 5 => 120
        case 6 => 151
        case 7 => 181
        case 8 => 212
        case 9 => 243
        case 10 => 273
        case 11 => 304
        case 12 => 334
        case _ => 0;
      ToULong((if month >= 3 && CodeLeap(year) then before + 1 else before) + day)
    }

    function DaysBeforeYear(): int {
      var numOfYears := ToInt(year - 1904);
      Quot((if numOfYears < 0 then 0 else numOfYears) * 1461 + 3, 4)
    }

    function DaysBeforeMonth(): int {
      var numOfMonths := ToInt(month - 1);
      if numOfMonths >= 2 then
        (if year % 4 == 0 then 60 else 59) + Quot((numOfMonths - 2) * 3917 + 52, 128)
      else
        Quot(numOfMonths * 3917 + 52, 128)
    }

    function TotalDays(): ULong {
      ToULong(ToInt(day - 1) + DaysBeforeYear() + DaysBeforeMonth())
    }

    function TotalMinutes(): ULong {
      ToULong(TotalDays() * MINUTES_IN_DAY + hour * 60 + minute)
    }
  }

  /** The month formula of totalDays: where the months from March, or from January, start. */
  lemma MonthFormula(leap: bool, month: int)
    requires 1 <= month <= 12
    ensures month < 3 ==> ((month - 1) * 3917 + 52) / 128 == MonthStart(leap, month)
    ensures month >= 3 ==> (if leap then 60 else 59) + ((month - 3) * 3917 + 52) / 128 == MonthStart(leap, month)
  {
    MonthStarts(leap);
  }

  /** The last year for which four times the days fit a signed int. */
  const LAST_YEAR := 1_471_776

  /** totalDays counts the days exactly as long as nothing overflows. */
  lemma TotalDaysExact(d: Date)
    requires d.OnCalendar() && d.year <= LAST_YEAR
    ensures d.TotalDays() == d.DaysSince1904()
  {
    DaysBeforeYearExact(d);
    DaysBeforeMonthExact(d);
  }

  lemma DaysBeforeYearExact(d: Date)
    requires d.OnCalendar() && d.year <= LAST_YEAR
    ensures d.DaysBeforeYear() == YearStart(d.year) < 0x2000_0000
  {
    YearStartFormula(d.year);
  }

  lemma DaysBeforeMonthExact(d: Date)
    requires d.OnCalendar()
    ensures d.DaysBeforeMonth() == MonthStart(FourthYear(d.year), d.month) <= 335
  {
    MonthFormula(FourthYear(d.year), d.month);
    MonthStarts(FourthYear(d.year));
  }

  /** totalMinutes counts the minutes of a date exactly when they fit 32 bits. */
  lemma TotalMinutesExact(d: Date)
    requires d.OnCalendar() && d.year <= LAST_YEAR
    ensures d.TotalMinutes() == d.MinutesSince1904() <==> d.MinutesSince1904() < 0x1_0000_0000
  {
    TotalDaysExact(d);
  }

  /** All of these are dates that totalDays is exact for. */
  lemma YearOfMinutes(d: Date)
    requires d.OnCalendar() && d.MinutesSince1904() < 0x1_0000_0000
    ensures d.year < 10_100 <= LAST_YEAR
  {
    if d.year >= 10_100 {
      YearsAscend(10_100, d.year);
      YearStartFormula(10_100);
    }
  }

  /** The order of minutes is the order of the fields. */
  lemma MinutesOrder(a: Date, b: Date)
    requires a.OnCalendar() && b.OnCalendar()
    ensures a.Before(b) <==> a.MinutesSince1904() < b.MinutesSince1904()
    ensures a.SameMinute(b) <==> a.MinutesSince1904() == b.MinutesSince1904()
  {
    if a.Before(b) {
      BeforeMeansFewer(a, b);
    } else if b.Before(a) {
      BeforeMeansFewer(b, a);
    }
  }

  lemma BeforeMeansFewer(a: Date, b: Date)
    requires a.OnCalendar() && b.OnCalendar() && a.Before(b)
    ensures a.MinutesSince1904() < b.MinutesSince1904()
  {
    if a.year != b.year || a.month != b.month || a.day != b.day {
      EarlierDay(a, b);
    }
  }

  lemma EarlierDay(a: Date, b: Date)
    requires a.OnCalendar() && b.OnCalendar()
    requires a.year < b.year || (a.year == b.year && (a.month < b.month || (a.month == b.month && a.day < b.day)))
    ensures a.DaysSince1904() < b.DaysSince1904()
  {
    if a.year < b.year {
      YearsAscend(a.year + 1, b.year);
      MonthsAscend(FourthYear(a.year), a.month + 1, 13);
      MonthStarts(FourthYear(a.year));
    } else if a.month < b.month {
      MonthsAscend(FourthYear(a.year), a.month + 1, b.month);
    }
  }

  lemma {:induction false} YearsAscend(a: int, b: int)
    requires 1904 <= a <= b
    ensures YearStart(a) <= YearStart(b)
    decreases b
  {
    if a < b { YearsAscend(a, b - 1); }
  }

  lemma {:induction false} MonthsAscend(leap: bool, a: int, b: int)
    requires 1 <= a <= b <= 13
    ensures MonthStart(leap, a) <= MonthStart(leap, b)
    decreases b
  {
    if a < b { MonthsAscend(leap, a, b - 1); }
  }

  /** The year formula of initWithMinutes: which year a day falls in, and how far into it. */
  lemma YearOfDay(days: nat)
    ensures var q, r := days * 4 / 1461, days * 4 % 1461;
            && days == (q * 1461 + 3) / 4 + r / 4
            && r / 4 < if q % 4 == 0 then 366 else 365
  {
    var q, r := days * 4 / 1461, days * 4 % 1461;
    assert days * 4 == q * 1461 + r;
    var k, j := q / 4, q % 4;
    assert q * 1461 == k * 5844 + j * 1461;
  }

  /** The month formula of initWithMinutes, from March on: 3919/128 undoes 3917/128. */
  lemma MonthOfDay(leap: bool, d: nat)
    requires d < 306
    ensures var k, f := (d * 128 + 71) / 3919, (d * 128 + 71) % 3919 / 128;
            && k < 10 && MonthStart(leap, k + 3) + f == (if leap then 60 else 59) + d && f < MonthLength(leap, k + 3)
  {
    var k := (d * 128 + 71) / 3919;
    MonthStarts(leap);
    assert k == 0 || k == 1 || k == 2 || k == 3 || k == 4 || k == 5 || k == 6 || k == 7 || k == 8 || k == 9;
  }

  /** And for January and February. */
  lemma MonthOfEarlyDay(leap: bool, d: nat)
    requires d < if leap then 60 else 59
    ensures var k, f := (d * 128 + 71) / 3919, (d * 128 + 71) % 3919 / 128;
            && k < 2 && MonthStart(leap, k + 1) + f == d && f < MonthLength(leap, k + 1)
  {
    MonthStarts(leap);
  }

  /** The month and the day of the month initWithMinutes finds for a day in a year. */
  function DateInYear(leap: bool, day: nat): (nat, nat) {
    var march := if leap then 60 else 59;
    if day >= march then
      (3 + ((day - march) * 128 + 71) / 3919, 1 + ((day - march) * 128 + 71) % 3919 / 128)
    else
      (1 + (day * 128 + 71) / 3919, 1 + (day * 128 + 71) % 3919 / 128)
  }

  lemma DateInYearCorrect(leap: bool, day: nat)
    requires day < if leap then 366 else 365
    ensures var (m, n) := DateInYear(leap, day);
            1 <= m <= 12 && 1 <= n <= MonthLength(leap, m) && MonthStart(leap, m) + n - 1 == day
  {
    var march := if leap then 60 else 59;
    if day >= march {
      var d := day - march;
      MonthOfDay(leap, d);
      assert DateInYear(leap, day) == (3 + (d * 128 + 71) / 3919, 1 + (d * 128 + 71) % 3919 / 128);
    } else {
      MonthOfEarlyDay(leap, day);
      assert DateInYear(leap, day) == (1 + (day * 128 + 71) / 3919, 1 + (day * 128 + 71) % 3919 / 128);
    }
  }

  /** What initWithMinutes computes for the minutes a signed int can hold: the date of a day... */
  function DateOfDays(days: nat): Date
    requires days < 1_500_000
  {
    var q, r := days * 4 / 1461, days * 4 % 1461;
    var (m, n) := DateInYear((1904 + q) % 4 == 0, r / 4);
    Date(1904 + q, ToULong(m), ToULong(n), 0, 0, 0, days % 7)
  }

  /** ...and the time in it. */
  function DateOfMinutes(mins: nat): Date
    requires mins < 0x8000_0000
  {
    DateOfDays(mins / MINUTES_IN_DAY).(hour := mins % MINUTES_IN_DAY / 60, minute := mins % MINUTES_IN_DAY % 60)
  }

  lemma DateOfDaysCorrect(days: nat)
    requires days < 1_500_000
    ensures var d := DateOfDays(days);
            d.OnCalendar() && d.DaysSince1904() == days
  {
    var d := DateOfDays(days);
    YearOfDay(days);
    YearStartFormula(d.year);
    DateInYearCorrect(FourthYear(d.year), days * 4 % 1461 / 4);
  }

  /** daysInMonth is the length of the month in the Gregorian calendar, except for February from 2920 on in
      years that are no leap years. */
  lemma DaysInMonthIs(d: Date)
    requires 1 <= d.month <= 12
    ensures d.DaysInMonth() == MonthLength(TakenForLeap(d.year), d.month)
    ensures d.DaysInMonth() == MonthLength(Gregorian(d.year), d.month) <==> d.month != 2 || d.year < 2920 || Gregorian(d.year)
    ensures d.IsValidDate() <==> d.day <= MonthLength(TakenForLeap(d.year), d.month)
  {
  }

  /** daysInYear counts the days of the months before. */
  lemma DaysInYearIs(d: Date)
    requires 1 <= d.month <= 12 && d.day <= 31
    ensures d.DaysInYear() == MonthStart(TakenForLeap(d.year), d.month) + d.day
  {
    MonthStarts(TakenForLeap(d.year));
  }

  /** A date of the calendar of every fourth year is valid unless it is the 29th of February of a century
      that has none. */
  lemma OnCalendarValid(d: Date)
    requires d.OnCalendar()
    ensures d.IsValidDate() <==> !(d.month == 2 && d.day == 29 && d.year < 2920 && d.year % 100 == 0 && d.year % 400 != 0)
    ensures d.year <= 2099 ==> d.IsValidDate()
  {
    DaysInMonthIs(d);
  }

  lemma DateOfMinutesCorrect(mins: nat)
    requires mins < 0x8000_0000
    ensures var d := DateOfMinutes(mins);
            && d.OnCalendar() && d.MinutesSince1904() == mins && d.TotalMinutes() == mins
            && forall e: Date :: e.OnCalendar() && e.MinutesSince1904() == mins ==> d.SameMinute(e)
  {
    var d := DateOfMinutes(mins);
    DateOfDaysCorrect(mins / MINUTES_IN_DAY);
    YearOfMinutes(d);
    TotalMinutesExact(d);
    forall e: Date | e.OnCalendar() && e.MinutesSince1904() == mins ensures d.SameMinute(e) {
      MinutesOrder(d, e);
    }
  }

  /** The Gregorian and the every-fourth-year counts of the days in a year agree on a date exactly
      when it is before March or the two calendars agree that its year is, or is not, a leap year. */
  lemma DaysInYearAgrees(d: Date)
    requires d.OnCalendar() && d.year <= LAST_YEAR
    ensures d.TotalDays() == YearStart(d.year) + d.DaysInYear() - 1
       <==> d.month < 3 || (FourthYear(d.year) <==> TakenForLeap(d.year))
  {
    TotalDaysExact(d);
    DaysInYearIs(d);
    MonthStarts(FourthYear(d.year));
    MonthStarts(TakenForLeap(d.year));
  }

  /** So it can go: on 1 March 2100. */
  lemma CountsDiffer()
    ensures var d := Date(2100, 3, 1, 0, 0, 0, 0);
            d.OnCalendar() && d.DaysInYear() == 60 && d.TotalDays() == YearStart(2100) + 60
  {
    var d := Date(2100, 3, 1, 0, 0, 0, 0);
    TotalDaysExact(d);
    MonthStarts(true);
  }

  // ---------- moving by months ----------

  /** The two moves that are refused: back out of 1904 and on out of 2920. */
  predicate Refused(d: Date, offset: int) {
    (d.year == 1904 && ToInt(d.month + offset) < 1) || (d.year == 2920 && ToInt(d.month + offset) > 12)
  }

  /** The date some months away: months are counted through the years, the day is held within the
      month.  Past 2920 the year stands still. */
  function MonthsAway(d: Date, offset: int): Date {
    if Refused(d, offset) then d else
      var months := ToInt(d.month + offset) - 1;
      var moved := d.(
        year := if d.year <= 2920 then ToULong(d.year + months / 12) else d.year,
        month := months % 12 + 1);
      if moved.day > moved.DaysInMonth() then moved.(day := moved.DaysInMonth()) else moved
  }

  /** Nothing wraps around and neither year 0 nor year 2920 gets in the way. */
  predicate Free(d: Date, offset: int) {
    && 1 <= d.month <= 12 && d.year <= 2920
    && -0x7FFF_0000 < offset < 0x7FFF_0000
    && 0 <= d.year + (d.month + offset - 1) / 12
    && !Refused(d, offset)
  }

  function MonthNumber(d: Date): int { 12 * d.year + d.month }

  /** The month moves by exactly the offset, whatever month it is, unless the move is refused or would
      have to leave a year past 2920. */
  lemma MovesExactly(d: Date, offset: int)
    requires -0x8000_0000 < d.month + offset < 0x8000_0000
    requires 0 <= d.year + (d.month + offset - 1) / 12
    ensures MonthNumber(MonthsAway(d, offset)) == MonthNumber(d) + offset
       <==> if Refused(d, offset) then offset == 0 else d.year <= 2920 || 1 <= d.month + offset <= 12
  {
    var months := d.month + offset - 1;
    assert months == months / 12 * 12 + months % 12;
  }

  /** Where a move leads that is not refused: the month is one of the year's, a year past 2920 stands
      still, the day is the last of the month if the month is too short, and the time of day stays. */
  lemma MovesWithin(d: Date, offset: int)
    ensures var next, moved := ToInt(d.month + offset), MonthsAway(d, offset);
            if (d.year == 1904 && next < 1) || (d.year == 2920 && next > 12) then moved == d
            else
              var last := MonthLength(TakenForLeap(moved.year), moved.month);
              && 1 <= moved.month <= 12 && (moved.month - next) % 12 == 0
              && (d.year > 2920 ==> moved.year == d.year)
              && moved.day == (if d.day < last then d.day else last)
              && moved.(year := d.year, month := d.month, day := d.day) == d
              && moved.IsValidDate()
  {
    var moved := MonthsAway(d, offset);
    if !Refused(d, offset) {
      DaysInMonthIs(moved);
      var months := ToInt(d.month + offset) - 1;
      assert months == months / 12 * 12 + months % 12;
    }
  }

  lemma MovesCompose(d: Date, a: int, b: int)
    requires d.day <= 28 && Free(d, a) && Free(MonthsAway(d, a), b) && Free(d, a + b)
    ensures MonthsAway(MonthsAway(d, a), b) == MonthsAway(d, a + b)
  {
    MovesExactly(d, a);
    MovesExactly(MonthsAway(d, a), b);
    MovesExactly(d, a + b);
  }

  lemma MoveInverts(d: Date, a: int)
    requires d.day <= 28 && Free(d, a) && Free(MonthsAway(d, a), -a)
    ensures MonthsAway(MonthsAway(d, a), -a) == d
  {
    MovesExactly(d, a);
    MovesExactly(MonthsAway(d, a), -a);
  }

  // ---------- the object ----------

  class CDate {
    var fYear: ULong
    var fMonth: ULong
    var fDay: ULong
    var fHour: ULong
    var fMinute: ULong
    var fSecond: ULong
    var fDayOfWeek: ULong

    constructor ()
      ensures Fields() == Date(0, 0, 0, 0, 0, 0, 0)
    {
      fYear, fMonth, fDay, fHour, fMinute, fSecond, fDayOfWeek := 0, 0, 0, 0, 0, 0, 0;
    }

    function Fields(): Date
      reads this
    {
      Date(fYear, fMonth, fDay, fHour, fMinute, fSecond, fDayOfWeek)
    }

    /** The fields become a date of the calendar whose minutes are the argument, exactly when the
        argument fits a signed int. */
    method InitWithMinutes(inMinsSince1904: ULong)
      modifies this
      ensures inMinsSince1904 < 0x8000_0000
         <==> Fields().OnCalendar() && Fields().TotalMinutes() == inMinsSince1904
      ensures inMinsSince1904 < 0x8000_0000 ==>
                && Fields().MinutesSince1904() == inMinsSince1904
                && fSecond == 0 && fDayOfWeek == inMinsSince1904 / MINUTES_IN_DAY % 7
      // so the fields of any date come back from its minutes
      ensures forall d: Date :: d.OnCalendar() && d.MinutesSince1904() == inMinsSince1904 < 0x8000_0000 ==> Fields().SameMinute(d)
      // and they are valid unless a century's February has no 29th
      ensures inMinsSince1904 < 0x8000_0000 ==>
                (Fields().IsValidDate() <==> !(fMonth == 2 && fDay == 29 && fYear < 2920 && fYear % 100 == 0 && fYear % 400 != 0))
      ensures inMinsSince1904 < 0x8000_0000 && fYear <= 2099 ==> Fields().IsValidDate()
    {
      var mins := ToInt(inMinsSince1904);
      var dayQuot, dayRem := Quot(mins, MINUTES_IN_DAY), Rem(mins, MINUTES_IN_DAY);
      SetDay(dayQuot);
      fHour := ToULong(Quot(dayRem, 60));
      fMinute := ToULong(Rem(dayRem, 60));
      fSecond := 0;
      fDayOfWeek := ToULong(Rem(dayQuot, 7));

      if inMinsSince1904 < 0x8000_0000 {
        assert Fields() == DateOfMinutes(inMinsSince1904);
        DateOfMinutesCorrect(inMinsSince1904);
        OnCalendarValid(Fields());
      } else {
        FirstYearIsShort(Fields());
      }
    }

    /** The part of initWithMinutes that sets the year, the month and the day from the count of days. */
    method SetDay(dayQuot: int)
      requires -1_500_000 <= dayQuot < 1_500_000
      modifies this`fYear, this`fMonth, this`fDay
      ensures 0 <= dayQuot ==> var d := DateOfDays(dayQuot); fYear == d.year && fMonth == d.month && fDay == d.day
      ensures dayQuot <= 0 ==> ToInt(fYear - 1904) <= 0
    {
      var yearQuot, yearRem := Quot(dayQuot * 4, 1461), Rem(dayQuot * 4, 1461);
      YearAndDay(dayQuot);
      fYear := ToULong(1904 + yearQuot);
      SetMonthAndDay(ToULong(Quot(yearRem, 4)));
    }

    /** And the part that sets the month and the day from how far into the year the day is. */
    method SetMonthAndDay(dayInYear: ULong)
      modifies this`fMonth, this`fDay
      ensures dayInYear < 366 ==> (fMonth as nat, fDay as nat) == DateInYear(fYear % 4 == 0, dayInYear)
    {
      var theDay: int := dayInYear;
      var firstMonth := 1;
      var startOfMarch := if fYear % 4 == 0 then 60 else 59;
      if theDay >= startOfMarch {
        firstMonth := 3;
        theDay := theDay - startOfMarch;
      }
      var scaled := ToInt(theDay * 128 + 71);
      fMonth := ToULong(firstMonth + Quot(scaled, 3919));
      fDay := ToULong(1 + Quot(Rem(scaled, 3919), 128));
    }

    method IncrementMonth(inOffset: int)
      requires -0x8000_0000 <= inOffset < 0x8000_0000
      requires ToInt(fMonth + inOffset) > -0x8000_0000
      modifies this`fYear, this`fMonth, this`fDay
      ensures Fields() == MonthsAway(old(Fields()), inOffset)
    {
      var nextMonth := ToInt(fMonth + inOffset);
      if (fYear == 1904 && nextMonth < 1) || (fYear == 2920 && nextMonth > 12) {
        return;
      }
      var yearsQuot, yearsRem := Quot(nextMonth - 1, 12), Rem(nextMonth - 1, 12);
      FloorFromTruncation(nextMonth);
      fMonth := (yearsRem + 12) % 12 + 1;
      if fYear <= 2920 {
        fYear := ToULong(fYear + if nextMonth > 0 then yearsQuot else Quot(nextMonth, 12) - 1);
      }
      var daysThisMonth := Fields().DaysInMonth();
      if fDay > daysThisMonth {
        fDay := daysThisMonth;
      }
    }
  }

  /** So it can go: the first minute that a signed int cannot hold is taken for one before 1904. */
  method TooLate() returns (d: CDate)
    ensures !(d.Fields().OnCalendar() && d.Fields().TotalMinutes() == 0x8000_0000)
  {
    d := new CDate();
    d.InitWithMinutes(0x8000_0000);
  }

  /** The two ways the month count is divided come to rounding down. */
  lemma FloorFromTruncation(nextMonth: int)
    ensures (Rem(nextMonth - 1, 12) + 12) % 12 == (nextMonth - 1) % 12
    ensures (if nextMonth > 0 then Quot(nextMonth - 1, 12) else Quot(nextMonth, 12) - 1) == (nextMonth - 1) / 12
  {
  }

  /** The first two divisions of initWithMinutes, on either side of zero. */
  lemma YearAndDay(days: int)
    requires -1_500_000 <= days < 1_500_000
    ensures var q, r := Quot(days * 4, 1461), Rem(days * 4, 1461);
            && (0 <= days ==> q == days * 4 / 1461 < 5000 && r == days * 4 % 1461 && Quot(r, 4) == r / 4 < 366)
            && (days <= 0 ==> ToInt(ToULong(1904 + q) - 1904) <= 0)
  {
    if days <= 0 {
      assert -5000 <= Quot(days * 4, 1461) <= 0;
    }
  }

  /** A date whose year counts as 1904 is not far from 1904. */
  lemma FirstYearIsShort(d: Date)
    requires ToInt(d.year - 1904) <= 0
    ensures d.OnCalendar() ==> d.TotalMinutes() < 0x8000_0000
  {
    if d.OnCalendar() {
      assert d.DaysBeforeYear() == 0;
      DaysBeforeMonthExact(d);
    }
  }
}
