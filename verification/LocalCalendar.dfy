/** Local dates of the reconciliation queue: which `YYYY-MM-DD` texts are dates, how many
    local days a range has, and what a period filter asks for. JavaScript `Date` follows
    ECMA-262 section 21.4.1, in a time zone with a fixed offset. */
module LocalCalendar {
  import opened Basics

  const MS_PER_DAY := 86400000

  // ------------------------------------------------ ECMA-262 day numbers

  predicate IsLeap(year: int) {
    (year % 4 == 0 && year % 100 != 0) || year % 400 == 0
  }

  function DaysInYear(year: int): int {
    if IsLeap(year) then 366 else 365
  }

  /** The day number of 1 January. */
  function DayFromYear(year: int): int {
    365 * (year - 1970) + (year - 1969) / 4 - (year - 1901) / 100 + (year - 1601) / 400
  }

  lemma FourthYear(year: int)
    ensures (year - 1968) / 4 - (year - 1969) / 4 == if year % 4 == 0 then 1 else 0
  {
  }

  lemma HundredthYear(year: int)
    ensures (year - 1900) / 100 - (year - 1901) / 100 == if year % 100 == 0 then 1 else 0
  {
  }

  lemma FourHundredthYear(year: int)
    ensures (year - 1600) / 400 - (year - 1601) / 400 == if year % 400 == 0 then 1 else 0
  {
  }

  lemma CenturiesAreFourthYears(year: int)
    ensures year % 100 == 0 ==> year % 4 == 0
    ensures year % 400 == 0 ==> year % 100 == 0
  {
  }

  lemma YearStep(year: int)
    ensures DayFromYear(year + 1) == DayFromYear(year) + DaysInYear(year)
  {
    FourthYear(year);
    HundredthYear(year);
    FourHundredthYear(year);
    CenturiesAreFourthYears(year);
  }

  lemma {:induction false} YearsAscend(a: int, b: int)
    requires a < b
    ensures DayFromYear(a) < DayFromYear(b)
    decreases b - a
  {
  }

  function YearUp(day: int, year: int): int
    decreases day - DayFromYear(year)
  {
    YearStep(year);
    if day < DayFromYear(year + 1) then year else YearUp(day, year + 1)
  }

  function YearDown(day: int, year: int): int
    decreases DayFromYear(year + 1) - day
  {
    YearStep(year);
    if DayFromYear(year) <= day then year else YearDown(day, year - 1)
  }

  /** YearFromTime: the last year that begins on or before the day. */
  function YearOf(day: int): int {
    if 0 <= day then YearUp(day, 1970) else YearDown(day, 1969)
  }

  predicate IsWithin(day: int, year: int) {
    DayFromYear(year) <= day < DayFromYear(year + 1)
  }

  lemma {:induction false} YearUpMeans(day: int, year: int)
    requires DayFromYear(year) <= day
    ensures IsWithin(day, YearUp(day, year))
    decreases day - DayFromYear(year)
  {
    YearStep(year);
    if day >= DayFromYear(year + 1) {
      YearUpMeans(day, year + 1);
    }
  }

  lemma YearDownStep(day: int, year: int)
    requires day < DayFromYear(year)
    ensures YearDown(day, year) == YearDown(day, year - 1)
  {
  }

  lemma {:induction false} YearDownMeans(day: int, year: int)
    requires day < DayFromYear(year + 1)
    ensures IsWithin(day, YearDown(day, year))
    decreases DayFromYear(year + 1) - day
  {
    if DayFromYear(year) > day {
      YearDownStep(day, year);
      YearDownMeans(day, year - 1);
    }
  }

  lemma YearOfMeans(day: int)
    ensures DayFromYear(YearOf(day)) <= day < DayFromYear(YearOf(day) + 1)
  {
    if 0 <= day {
      YearUpMeans(day, 1970);
    } else {
      YearDownMeans(day, 1969);
    }
  }

  lemma YearIs(day: int, year: int)
    requires DayFromYear(year) <= day < DayFromYear(year + 1)
    ensures YearOf(day) == year
  {
    var y := YearOf(day);
    YearOfMeans(day);
    if y < year && y + 1 < year {
      YearsAscend(y + 1, year);
    } else if year < y && year + 1 < y {
      YearsAscend(year + 1, y);
    }
  }

  lemma YearIsAtLeast(day: int, year: int)
    ensures DayFromYear(year) <= day <==> year <= YearOf(day)
  {
    var y := YearOf(day);
    YearOfMeans(day);
    if y + 1 < year {
      YearsAscend(y + 1, year);
    } else if year < y {
      YearsAscend(year, y);
    }
  }

  /** Month lengths, with January as month 0. */
  function DaysInMonth(month: int, leap: bool): int {
    if month == 1 then (if leap then 29 else 28)
    else if month == 3 || month == 5 || month == 8 || month == 10 then 30
    else 31
  }

  function DaysBeforeMonth(month: int, leap: bool): int
    decreases month, leap
  {
    if month <= 0 then 0 else DaysBeforeMonth(month - 1, leap) + DaysInMonth(month - 1, leap)
  }

  lemma MonthTable(leap: bool)
    ensures var feb := if leap then 1 else 0;
            && DaysBeforeMonth(1, leap) == 31 && DaysBeforeMonth(2, leap) == 59 + feb
            && DaysBeforeMonth(3, leap) == 90 + feb && DaysBeforeMonth(4, leap) == 120 + feb
            && DaysBeforeMonth(5, leap) == 151 + feb && DaysBeforeMonth(6, leap) == 181 + feb
            && DaysBeforeMonth(7, leap) == 212 + feb && DaysBeforeMonth(8, leap) == 243 + feb
            && DaysBeforeMonth(9, leap) == 273 + feb && DaysBeforeMonth(10, leap) == 304 + feb
            && DaysBeforeMonth(11, leap) == 334 + feb && DaysBeforeMonth(12, leap) == 365 + feb
  {
  }

  lemma {:induction false} LeapShiftsByOne(month: int)
    ensures 0 <= DaysBeforeMonth(month, false) <= DaysBeforeMonth(month, true) <= DaysBeforeMonth(month, false) + 1
    decreases month
  {
    if month > 0 {
      LeapShiftsByOne(month - 1);
      if month > 2 {
        LateMonths(month - 1);
      }
    }
  }

  lemma {:induction false} LateMonths(month: int)
    requires month >= 2
    ensures DaysBeforeMonth(month, true) == DaysBeforeMonth(month, false) + 1
    decreases month
  {
    if month > 2 {
      LateMonths(month - 1);
    } else {
      MonthTable(true);
      MonthTable(false);
    }
  }

  function MonthSearch(dayInYear: int, leap: bool, month: nat): nat
    decreases 11 - month, dayInYear
  {
    if month >= 11 || dayInYear < DaysBeforeMonth(month + 1, leap) then month
    else MonthSearch(dayInYear, leap, month + 1)
  }

  /** MonthFromTime, counted from 0. */
  function MonthOf(day: int): nat {
    MonthSearch(day - DayFromYear(YearOf(day)), IsLeap(YearOf(day)), 0)
  }

  lemma {:induction false} MonthSearchMeans(dayInYear: int, leap: bool, month: nat)
    requires month <= 11 && DaysBeforeMonth(month, leap) <= dayInYear < DaysBeforeMonth(12, leap)
    ensures MonthSearch(dayInYear, leap, month) <= 11
    ensures var m := MonthSearch(dayInYear, leap, month);
            DaysBeforeMonth(m, leap) <= dayInYear < DaysBeforeMonth(m + 1, leap)
    decreases 11 - month
  {
    if month < 11 && dayInYear >= DaysBeforeMonth(month + 1, leap) {
      MonthSearchMeans(dayInYear, leap, month + 1);
    }
  }

  lemma MonthOfMeans(day: int)
    ensures MonthOf(day) <= 11
    ensures var (y, n) := (YearOf(day), day - DayFromYear(YearOf(day)));
            DaysBeforeMonth(MonthOf(day), IsLeap(y)) <= n < DaysBeforeMonth(MonthOf(day) + 1, IsLeap(y))
  {
    YearOfMeans(day);
    YearStep(YearOf(day));
    MonthTable(IsLeap(YearOf(day)));
    MonthSearchMeans(day - DayFromYear(YearOf(day)), IsLeap(YearOf(day)), 0);
  }

  /** DateFromTime, counted from 1. */
  function DateOf(day: int): int {
    MonthOfMeans(day);
    day - DayFromYear(YearOf(day)) - DaysBeforeMonth(MonthOf(day), IsLeap(YearOf(day))) + 1
  }

  /** MakeDay: months and dates out of range carry over. */
  function MakeDay(year: int, month: int, date: int): int {
    var y := year + month / 12;
    DayFromYear(y) + DaysBeforeMonth(month % 12, IsLeap(y)) + date - 1
  }

  predicate IsCalendarDate(year: int, month: int, date: int) {
    0 <= month <= 11 && 1 <= date <= DaysInMonth(month, IsLeap(year))
  }

  /** A day number has a calendar date, and it is the only one that makes that day. */
  lemma DateOfDay(day: int)
    ensures IsCalendarDate(YearOf(day), MonthOf(day), DateOf(day))
    ensures MakeDay(YearOf(day), MonthOf(day), DateOf(day)) == day
  {
    MonthOfMeans(day);
    assert MonthOf(day) / 12 == 0 && MonthOf(day) % 12 == MonthOf(day);
  }

  lemma {:induction false} MonthsAscend(a: int, b: int, leap: bool)
    requires 0 <= a <= b <= 12
    ensures DaysBeforeMonth(a, leap) <= DaysBeforeMonth(b, leap)
    decreases b - a
  {
    if a < b {
      MonthsAscend(a, b - 1, leap);
    }
  }

  lemma MonthIs(dayInYear: int, leap: bool, a: int, b: int)
    requires 0 <= a <= 11 && DaysBeforeMonth(a, leap) <= dayInYear < DaysBeforeMonth(a + 1, leap)
    requires 0 <= b <= 11 && DaysBeforeMonth(b, leap) <= dayInYear < DaysBeforeMonth(b + 1, leap)
    ensures a == b
  {
    if a < b {
      MonthsAscend(a + 1, b, leap);
    } else if b < a {
      MonthsAscend(b + 1, a, leap);
    }
  }

  lemma DayOfDate(year: int, month: int, date: int)
    requires IsCalendarDate(year, month, date)
    ensures var day := MakeDay(year, month, date);
            YearOf(day) == year && MonthOf(day) == month && DateOf(day) == date
  {
    var day, leap := MakeDay(year, month, date), IsLeap(year);
    assert month / 12 == 0 && month % 12 == month;
    YearStep(year);
    MonthTable(IsLeap(year));
    MonthsAscend(month + 1, 12, leap);
    MonthsAscend(0, month, leap);
    YearIs(day, year);
    MonthOfMeans(day);
    MonthIs(day - DayFromYear(year), leap, month, MonthOf(day));
  }

  lemma MakeDayAddsDates(year: int, month: int, date: int, days: int)
    ensures MakeDay(year, month, date + days) == MakeDay(year, month, date) + days
  {
  }

  // ------------------------------------------------------ local dates

  /** A `Date` as its local getters show it: the local day number, and the milliseconds
      since the midnight that began that day. */
  datatype Date = Date(day: int, time: int) {
    predicate Valid() {
      0 <= time < MS_PER_DAY
    }

    /** `getTime()` in a zone whose clocks are `tz` milliseconds ahead. */
    function GetTime(tz: int): int {
      day * MS_PER_DAY + time - tz
    }
  }

  function MakeTime(hours: int, minutes: int, seconds: int, ms: int): int {
    hours * 3600000 + minutes * 60000 + seconds * 1000 + ms
  }

  function FullYear(year: int): int {
    if 0 <= year <= 99 then 1900 + year else year
  }

  /** `new Date(year, month, date, ...)`: years 0 to 99 mean 1900 to 1999. */
  function NewDate(year: int, month: int, date: int, time: int): Date {
    Date(MakeDay(FullYear(year), month, date), time)
  }

  function StartOfLocalDay(t: Date): Date {
    NewDate(YearOf(t.day), MonthOf(t.day), DateOf(t.day), 0)
  }

  /** 23:59:59.999, the last millisecond of the day. */
  function EndOfLocalDay(t: Date): Date {
    NewDate(YearOf(t.day), MonthOf(t.day), DateOf(t.day), MS_PER_DAY - 1)
  }

  function AddLocalDays(t: Date, days: int): Date {
    NewDate(YearOf(t.day), MonthOf(t.day), DateOf(t.day) + days,
            MakeTime(t.time / 3600000, t.time / 60000 % 60, t.time / 1000 % 60, t.time % 1000))
  }

  lemma ClockTime(time: int)
    requires 0 <= time < MS_PER_DAY
    ensures MakeTime(23, 59, 59, 999) == MS_PER_DAY - 1
    ensures MakeTime(time / 3600000, time / 60000 % 60, time / 1000 % 60, time % 1000) == time
  {
    assert time / 60000 % 60 == time / 60000 - 60 * (time / 3600000);
    assert time / 1000 % 60 == time / 1000 - 60 * (time / 60000);
  }

  predicate HasTwoDigitYear(t: Date) {
    0 <= YearOf(t.day) <= 99
  }

  /** The day that the `Date` constructor makes of a day's own year, month and date. */
  function Rebuilt(day: int): int {
    MakeDay(FullYear(YearOf(day)), MonthOf(day), DateOf(day))
  }

  /** It is that day, except that the years 0 to 99 land in the 20th century. */
  lemma RebuiltMeans(day: int)
    ensures Rebuilt(day) >= day
    ensures Rebuilt(day) == day <==> !(0 <= YearOf(day) <= 99)
  {
    var y, m, d := YearOf(day), MonthOf(day), DateOf(day);
    DateOfDay(day);
    if 0 <= y <= 99 {
      assert m / 12 == 0 && m % 12 == m;
      LeapShiftsByOne(m);
      assert DayFromYear(1900 + y) >= DayFromYear(y) + 690000;
    }
  }

  lemma BoundsAreRebuilt(t: Date)
    ensures StartOfLocalDay(t) == Date(Rebuilt(t.day), 0)
    ensures EndOfLocalDay(t) == Date(Rebuilt(t.day), MS_PER_DAY - 1)
  {
  }

  /** The day helpers work on the day itself exactly outside the years 0 to 99. */
  lemma LocalDayBounds(t: Date)
    ensures StartOfLocalDay(t) == Date(Rebuilt(t.day), 0)
    ensures EndOfLocalDay(t) == Date(Rebuilt(t.day), MS_PER_DAY - 1)
    ensures StartOfLocalDay(t).day == t.day == EndOfLocalDay(t).day <==> !HasTwoDigitYear(t)
  {
    BoundsAreRebuilt(t);
    RebuiltMeans(t.day);
  }

  lemma DaysAreAdded(t: Date, days: int)
    requires t.Valid()
    ensures AddLocalDays(t, days) == Date(Rebuilt(t.day) + days, t.time)
  {
    MakeDayAddsDates(FullYear(YearOf(t.day)), MonthOf(t.day), DateOf(t.day), days);
    ClockTime(t.time);
  }

  /** Adding days keeps the clock and moves the calendar by that many days. */
  lemma AddLocalDaysMeans(t: Date, days: int)
    requires t.Valid()
    ensures AddLocalDays(t, days) == Date(Rebuilt(t.day) + days, t.time)
    ensures AddLocalDays(t, days).day == t.day + days <==> !HasTwoDigitYear(t)
  {
    DaysAreAdded(t, days);
    RebuiltMeans(t.day);
  }

  // ------------------------------------------------------ reading a date

  /** A text of the form `YYYY-MM-DD`. */
  predicate IsDateText(text: string) {
    && |text| == 10 && text[4] == '-' && text[7] == '-'
    && AllDigits(text[..4]) && AllDigits(text[5..7]) && AllDigits(text[8..])
  }

  /** `new Date(year, month - 1, day)`, kept if its getters give back the three numbers. */
  function DateFromNumbers(year: nat, month: nat, day: nat): Option<Date> {
    var date := NewDate(year, month - 1, day, 0);
    if YearOf(date.day) != year || MonthOf(date.day) != month - 1 || DateOf(date.day) != day then None else Some(date)
  }

  function ParseLocalDateInput(value: string): Option<Date> {
    var text := Trim(value);
    if IsDateText(text) then DateFromNumbers(Decimal(text[..4]), Decimal(text[5..7]), Decimal(text[8..])) else None
  }

  /** The three numbers are accepted exactly when they are a date of the Gregorian calendar
      from the year 100 on; the value is the midnight that begins that day. */
  lemma AcceptsCalendarDates(year: nat, month: nat, day: nat)
    ensures DateFromNumbers(year, month, day) ==
            if year >= 100 && IsCalendarDate(year, month - 1, day)
            then Some(Date(MakeDay(year, month - 1, day), 0))
            else None
  {
    if year <= 99 {
      OldYearsGoModern(year, month, day);
    } else {
      DateOfDay(MakeDay(year, month - 1, day));
      if IsCalendarDate(year, month - 1, day) {
        DayOfDate(year, month - 1, day);
      }
    }
  }

  lemma OldYearsGoModern(year: nat, month: nat, day: nat)
    requires year <= 99
    ensures DateFromNumbers(year, month, day) == None
  {
    var y := 1900 + year + (month - 1) / 12;
    YearsAscend(1890, y);
    LeapShiftsByOne((month - 1) % 12);
    YearIsAtLeast(NewDate(year, month - 1, day, 0).day, 1890);
  }

  /** 1 January of the year 100. */
  const FIRST_MODERN_DAY := DayFromYear(100)

  predicate Modern(day: int) {
    day >= FIRST_MODERN_DAY
  }

  lemma ModernMeans(day: int)
    ensures Modern(day) <==> YearOf(day) >= 100
  {
    YearIsAtLeast(day, 100);
  }

  /** `parseLocalDateInput` accepts exactly the texts that spell such a date. */
  lemma ParseAcceptsDateTexts(value: string)
    ensures var text := Trim(value);
            ParseLocalDateInput(value).Some? <==>
              && IsDateText(text)
              && Decimal(text[..4]) >= 100
              && IsCalendarDate(Decimal(text[..4]), Decimal(text[5..7]) - 1, Decimal(text[8..]))
    ensures var text := Trim(value);
            ParseLocalDateInput(value).Some? ==>
              ParseLocalDateInput(value).value ==
              Date(MakeDay(Decimal(text[..4]), Decimal(text[5..7]) - 1, Decimal(text[8..])), 0)
  {
    var text := Trim(value);
    if IsDateText(text) {
      AcceptsCalendarDates(Decimal(text[..4]), Decimal(text[5..7]), Decimal(text[8..]));
    }
  }

  /** The text is four, two and two digits with dashes between. */
  predicate HasParts(text: string, year: string, month: string, date: string) {
    && text == year + "-" + month + "-" + date
    && |year| == 4 && |month| == 2 && |date| == 2
    && AllDigits(year) && AllDigits(month) && AllDigits(date)
  }

  /** A date text is read by its parts, and a text that is read has such parts. */
  lemma DateTextIsRead(value: string, year: string, month: string, date: string)
    requires HasParts(Trim(value), year, month, date)
    ensures ParseLocalDateInput(value) == DateFromNumbers(Decimal(year), Decimal(month), Decimal(date))
  {
    PartsInPlace(Trim(value), year, month, date);
  }

  lemma PartsInPlace(text: string, year: string, month: string, date: string)
    requires HasParts(text, year, month, date)
    ensures IsDateText(text) && text[..4] == year && text[5..7] == month && text[8..] == date
  {
    assert text[..4] == year && text[5..7] == month && text[8..] == date;
  }

  lemma ReadTextHasParts(value: string) returns (year: string, month: string, date: string)
    requires ParseLocalDateInput(value).Some?
    ensures HasParts(Trim(value), year, month, date)
  {
    var text := Trim(value);
    year, month, date := text[..4], text[5..7], text[8..];
    assert text == year + [text[4]] + month + [text[7]] + date;
  }

  lemma ParsedDay(value: string)
    requires ParseLocalDateInput(value).Some?
    ensures Modern(ParseLocalDateInput(value).value.day) && ParseLocalDateInput(value).value.time == 0
  {
    var text := Trim(value);
    AcceptedIsModern(Decimal(text[..4]), Decimal(text[5..7]), Decimal(text[8..]));
  }

  lemma AcceptedIsModern(year: nat, month: nat, day: nat)
    requires DateFromNumbers(year, month, day).Some?
    ensures Modern(DateFromNumbers(year, month, day).value.day) && DateFromNumbers(year, month, day).value.time == 0
  {
    AcceptsCalendarDates(year, month, day);
    ModernMeans(DateFromNumbers(year, month, day).value.day);
  }

  // ------------------------------------------------------ counting days

  lemma ModernDay(day: int)
    requires Modern(day)
    ensures Rebuilt(day) == day
  {
    RebuiltMeans(day);
    ModernMeans(day);
  }

  lemma ModernBounds(t: Date)
    requires Modern(t.day)
    ensures StartOfLocalDay(t) == Date(t.day, 0) && EndOfLocalDay(t) == Date(t.day, MS_PER_DAY - 1)
  {
    LocalDayBounds(t);
    ModernDay(t.day);
  }

  /** 1 January of the year 0: stepping a day from there lands on 2 January 1900. */
  const YEAR_ZERO := DayFromYear(0)
  const LANDING := DayFromYear(1900) + 1

  /** The day is not after the start of the year 0, or not before the year 100. */
  predicate IsSteady(day: int) {
    day <= YEAR_ZERO || Modern(day)
  }

  lemma BeforeYearZero(day: int)
    ensures day < YEAR_ZERO <==> YearOf(day) < 0
  {
    YearIsAtLeast(day, 0);
  }

  lemma OnlyJanuary(month: nat, leap: bool)
    requires month <= 11 && DaysBeforeMonth(month, leap) <= 0
    ensures month == 0 && DaysBeforeMonth(month, leap) == 0
  {
  }

  lemma MakesNewYear(year: int, month: int, date: int)
    requires month == 0 && date == 1
    ensures MakeDay(year, month, date) == DayFromYear(year)
  {
  }

  lemma NewYearsDay(day: int, year: int)
    requires DayFromYear(year) == day
    ensures YearOf(day) == year && Rebuilt(day) == DayFromYear(FullYear(year))
  {
    YearStep(year);
    YearIs(day, year);
    MonthOfMeans(day);
    OnlyJanuary(MonthOf(day), IsLeap(year));
    MakesNewYear(FullYear(year), MonthOf(day), DateOf(day));
  }

  lemma YearZeroJumps(day: int)
    requires day == YEAR_ZERO
    ensures Rebuilt(day) == LANDING - 1
  {
    NewYearsDay(day, 0);
  }

  lemma SteadyDay(day: int)
    requires IsSteady(day) && day != YEAR_ZERO
    ensures Rebuilt(day) == day
  {
    RebuiltMeans(day);
    BeforeYearZero(day);
    ModernMeans(day);
  }

  lemma RebuiltIsSteady(day: int)
    ensures IsSteady(Rebuilt(day))
  {
    RebuiltMeans(day);
    ModernMeans(day);
    BeforeYearZero(day);
    if 0 <= YearOf(day) <= 99 {
      TwoDigitYearsGoModern(day);
    }
  }

  lemma TwoDigitYearsGoModern(day: int)
    requires 0 <= YearOf(day) <= 99
    ensures Rebuilt(day) >= DayFromYear(1900)
  {
    var y, m := YearOf(day), MonthOf(day);
    DateOfDay(day);
    assert m / 12 == 0 && m % 12 == m;
    LeapShiftsByOne(m);
    YearIsAtLeast(Rebuilt(day), 1900);
    if y > 0 {
      YearsAscend(1900, 1900 + y);
    }
  }

  /** A midnight moves to a later midnight: the next one, but for the jump. */
  lemma NextMidnight(cursor: Date)
    requires cursor.time == 0
    ensures AddLocalDays(cursor, 1).time == 0 && AddLocalDays(cursor, 1).day > cursor.day
    ensures IsSteady(cursor.day) ==>
              AddLocalDays(cursor, 1).day == if cursor.day == YEAR_ZERO then LANDING else cursor.day + 1
  {
    AddLocalDaysMeans(cursor, 1);
    RebuiltMeans(cursor.day);
    if cursor.day == YEAR_ZERO {
      YearZeroJumps(cursor.day);
    } else if IsSteady(cursor.day) {
      SteadyDay(cursor.day);
    }
  }

  /** What stepping day by day counts between two midnights: the days of the range, except
      that a range over the start of the year 0 is continued on 2 January 1900. */
  function DayCount(first: int, last: int): int {
    if last < first then -1
    else if first > YEAR_ZERO || last <= YEAR_ZERO then last - first + 1
    else YEAR_ZERO - first + 2 + (if last > LANDING then last - LANDING else 0)
  }

  /** 29 February of the year 0, a day that 1900 lacks. */
  const LEAP_DAY := DayFromYear(0) + 59

  /** The days of the years 0 to 99. */
  predicate IsTwoDigitDay(day: int) {
    YEAR_ZERO <= day < FIRST_MODERN_DAY
  }

  /** How far a day of those years moves: 1900 years, one day less after the leap day. */
  function Shifted(day: int): int {
    if !IsTwoDigitDay(day) then day
    else day + DayFromYear(1900) - DayFromYear(0) - (if day <= LEAP_DAY then 0 else 1)
  }

  lemma RebuiltIsShifted(day: int)
    ensures IsTwoDigitDay(day) <==> 0 <= YearOf(day) <= 99
    ensures Rebuilt(day) == Shifted(day)
  {
    RebuiltMeans(day);
    ModernMeans(day);
    BeforeYearZero(day);
    if 0 <= YearOf(day) <= 99 {
      YearOfMeans(day);
      MonthOfMeans(day);
      RebuiltInYear(day, YearOf(day), MonthOf(day));
    }
  }

  lemma RebuiltInYear(day: int, year: int, month: nat)
    requires year == YearOf(day) && month == MonthOf(day) && 0 <= year <= 99 && month <= 11
    requires DayFromYear(year) <= day
    requires DaysBeforeMonth(month, IsLeap(year)) <= day - DayFromYear(year) < DaysBeforeMonth(month + 1, IsLeap(year))
    requires IsTwoDigitDay(day)
    ensures Rebuilt(day) == Shifted(day)
  {
    MovedDay(day, year, month);
    if year == 0 {
      ShiftOfYearZero(day, year, month);
    } else {
      ShiftOfYear(year);
      AfterYearZero(year);
    }
  }

  lemma MovedDay(day: int, year: int, month: nat)
    requires year == YearOf(day) && month == MonthOf(day) && 0 <= year <= 99 && month <= 11
    ensures Rebuilt(day) - day ==
            DayFromYear(1900 + year) - DayFromYear(year)
            + DaysBeforeMonth(month, IsLeap(1900 + year)) - DaysBeforeMonth(month, IsLeap(year))
  {
    assert month / 12 == 0 && month % 12 == month;
  }

  lemma AfterYearZero(year: int)
    requires 1 <= year
    ensures DayFromYear(year) > LEAP_DAY
  {
    if year > 1 {
      YearsAscend(1, year);
    }
  }

  lemma FourYears(year: int)
    ensures (1900 + year - 1969) / 4 == (year - 1969) / 4 + 475
    ensures (1900 + year) % 4 == year % 4
  {
  }

  lemma Centuries(year: int)
    requires 1 <= year <= 99
    ensures (1900 + year - 1901) / 100 == 0 && (year - 1901) / 100 == -19
    ensures (1900 + year - 1601) / 400 == 0 && (year - 1601) / 400 == -4
  {
  }

  lemma CenturyRemainders(year: int)
    requires 1 <= year <= 99
    ensures (1900 + year) % 100 != 0 && year % 100 != 0 && (1900 + year) % 400 != 0 && year % 400 != 0
  {
  }

  lemma ShiftOfYear(year: int)
    requires 1 <= year <= 99
    ensures DayFromYear(1900 + year) - DayFromYear(year) == DayFromYear(1900) - DayFromYear(0) - 1
    ensures IsLeap(1900 + year) == IsLeap(year)
  {
    FourYears(year);
    Centuries(year);
    CenturyRemainders(year);
  }

  lemma ShiftOfYearZero(day: int, year: int, month: nat)
    requires year == 0 && month <= 11
    requires DaysBeforeMonth(month, IsLeap(year)) <= day - DayFromYear(year) < DaysBeforeMonth(month + 1, IsLeap(year))
    ensures DaysBeforeMonth(month, IsLeap(1900 + year)) ==
            DaysBeforeMonth(month, IsLeap(year)) - (if day <= LEAP_DAY then 0 else 1)
  {
    MonthTable(true);
    MonthTable(false);
    if month >= 2 {
      LateMonths(month);
      MonthsAscend(2, month, true);
    } else {
      MonthsAscend(month + 1, 2, true);
    }
  }

  /** The ranges that are counted right: outside the years 0 to 99, those that do not span
      them; within them, those that do not cross the leap day; and a few that meet a day of
      those years at one end only. */
  predicate CountsRight(first: int, last: int) {
    if IsTwoDigitDay(first) && IsTwoDigitDay(last) then
      !(first <= LEAP_DAY < last) && !(last == LEAP_DAY && first == LEAP_DAY + 1)
    else if IsTwoDigitDay(first) then last < YEAR_ZERO
    else if IsTwoDigitDay(last) then
      if first < YEAR_ZERO then YEAR_ZERO < last <= LEAP_DAY else Shifted(last) < first
    else !(first < YEAR_ZERO && last >= FIRST_MODERN_DAY)
  }

  lemma CountOfShifted(first: int, last: int)
    ensures DayCount(Shifted(first), Shifted(last)) == (if last < first then -1 else last - first + 1) <==>
            CountsRight(first, last)
  {
  }

  /** For any two dates the count is the difference of the day numbers plus one, or -1 for a
      reversed range, exactly when the range is counted right. */
  lemma DayCountIsDifference(from: Date, to: Date)
    ensures DayCount(Rebuilt(from.day), Rebuilt(to.day)) ==
            (if to.day < from.day then -1 else to.day - from.day + 1)
            <==> CountsRight(from.day, to.day)
  {
    RebuiltIsShifted(from.day);
    RebuiltIsShifted(to.day);
    CountOfShifted(from.day, to.day);
  }

  method InclusiveLocalDayCount(from: Date, to: Date, tz: int) returns (days: int)
    ensures days == DayCount(Rebuilt(from.day), Rebuilt(to.day))
  {
    BoundsAreRebuilt(from);
    BoundsAreRebuilt(to);
    RebuiltIsSteady(from.day);
    RebuiltIsSteady(to.day);
    days := CountMidnights(StartOfLocalDay(from), StartOfLocalDay(to), tz);
  }

  /** The count so far, with the cursor on its way from the first day to the last. */
  predicate Counted(first: int, last: int, cursor: int, days: int) {
    && IsSteady(cursor) && IsSteady(last)
    && if first > YEAR_ZERO || cursor <= YEAR_ZERO then first <= cursor == first + days - 1 <= last
       else
         && LANDING <= cursor && days == YEAR_ZERO - first + 2 + cursor - LANDING
         && YEAR_ZERO < last && (cursor == LANDING || cursor <= last)
  }

  lemma CountStep(first: int, last: int, cursor: int, days: int)
    requires Counted(first, last, cursor, days)
    ensures cursor < last ==> Counted(first, last, if cursor == YEAR_ZERO then LANDING else cursor + 1, days + 1)
    ensures cursor >= last ==> days == DayCount(first, last)
  {
  }

  lemma MidnightsInOrder(a: Date, b: Date, tz: int)
    requires a.time == 0 == b.time
    ensures a.GetTime(tz) < b.GetTime(tz) <==> a.day < b.day
  {
  }

  /** The loop, from one midnight to another. */
  method CountMidnights(start: Date, end: Date, tz: int) returns (days: int)
    requires start.time == 0 == end.time && IsSteady(start.day) && IsSteady(end.day)
    ensures days == DayCount(start.day, end.day)
  {
    MidnightsInOrder(end, start, tz);
    if end.GetTime(tz) < start.GetTime(tz) {
      return -1;
    }
    days := 1;
    var cursor := start;
    MidnightsInOrder(cursor, end, tz);
    while cursor.GetTime(tz) < end.GetTime(tz)
      invariant cursor.time == 0 && Counted(start.day, end.day, cursor.day, days)
      invariant cursor.GetTime(tz) < end.GetTime(tz) <==> cursor.day < end.day
      decreases end.day - cursor.day
    {
      CountStep(start.day, end.day, cursor.day, days);
      NextMidnight(cursor);
      cursor := AddLocalDays(cursor, 1);
      days := days + 1;
      MidnightsInOrder(cursor, end, tz);
    }
    CountStep(start.day, end.day, cursor.day, days);
  }

  // ------------------------------------------------------ the period filter

  datatype Period = Today | Last7 | Last14 | Last30 | Custom

  datatype Rejection =
    | InvalidRange | StartAfterEnd | EndInFuture | StartInFuture | TooManyDays | TooLongAgo

  datatype Window = Accepted(since: Date, until: Date) | Rejected(why: Rejection)

  const SEARCH_MAX_INCLUSIVE_DAYS := 30
  const SEARCH_MAX_LOOKBACK_MS := 30 * 24 * 60 * 60 * 1000

  /** The local day the filter takes for today: the clock's, except in the years 0 to 99. */
  function TodayOf(now: Date): int {
    Rebuilt(now.day)
  }

  /** The `custom` branch, with the two dates as parsed. */
  method CustomWindow(from: Option<Date>, to: Option<Date>, now: Date, tz: int) returns (w: Window)
    requires from.Some? ==> Modern(from.value.day)
    requires to.Some? ==> Modern(to.value.day)
    requires now.Valid()
    ensures w == CustomRange(from, to, now)
  {
    if from.None? || to.None? {
      return Rejected(InvalidRange);
    }
    ModernBounds(from.value);
    ModernBounds(to.value);
    BoundsAreRebuilt(now);
    var start := StartOfLocalDay(from.value);
    var end := EndOfLocalDay(to.value);
    if start.GetTime(tz) > end.GetTime(tz) {
      return Rejected(StartAfterEnd);
    }
    var today := StartOfLocalDay(now);
    if StartOfLocalDay(to.value).GetTime(tz) > today.GetTime(tz) {
      return Rejected(EndInFuture);
    }
    if start.GetTime(tz) > today.GetTime(tz) {
      return Rejected(StartInFuture);
    }
    var days := InclusiveLocalDayCount(from.value, to.value, tz);
    ModernCount(from.value.day, to.value.day);
    if days > SEARCH_MAX_INCLUSIVE_DAYS {
      return Rejected(TooManyDays);
    }
    if now.GetTime(tz) - start.GetTime(tz) > SEARCH_MAX_LOOKBACK_MS {
      return Rejected(TooLongAgo);
    }
    return Accepted(start, end);
  }

  lemma ModernCount(first: int, last: int)
    requires Modern(first) && Modern(last)
    ensures DayCount(Rebuilt(first), Rebuilt(last)) == if last < first then -1 else last - first + 1
  {
    ModernDay(first);
    ModernDay(last);
  }

  method TypedWindow(customFrom: string, customTo: string, now: Date, tz: int) returns (w: Window)
    requires now.Valid()
    ensures w == CustomRange(ParseLocalDateInput(customFrom), ParseLocalDateInput(customTo), now)
  {
    var from := ParseLocalDateInput(customFrom);
    var to := ParseLocalDateInput(customTo);
    if from.Some? {
      ParsedDay(customFrom);
    }
    if to.Some? {
      ParsedDay(customTo);
    }
    w := CustomWindow(from, to, now, tz);
  }

  method SerializeDateWindow(period: Period, customFrom: string, customTo: string, now: Date, tz: int)
    returns (w: Window)
    requires now.Valid()
    ensures w == WindowOf(period, ParseLocalDateInput(customFrom), ParseLocalDateInput(customTo), now)
    // if they do not reach back before the year 100, the presets are the last 1, 7, 14 and 30 days
    ensures period == Today ==> SpansDays(w, 1, now)
    ensures period == Last7 ==> SpansDays(w, 7, now)
    ensures period == Last14 ==> SpansDays(w, 14, now)
    ensures period == Last30 ==> SpansDays(w, 30, now)
    ensures period == Custom ==>
              IsCustomWindow(w, ParseLocalDateInput(customFrom), ParseLocalDateInput(customTo), now, tz)
  {
    WindowsSpan(period, ParseLocalDateInput(customFrom), ParseLocalDateInput(customTo), now, tz);
    if period == Custom {
      w := TypedWindow(customFrom, customTo, now, tz);
    } else if period == Today {
      w := TodayWindow(now);
    } else {
      w := PresetWindow(if period == Last7 then 6 else if period == Last14 then 13 else 29, now);
    }
  }

  method TodayWindow(now: Date) returns (w: Window)
    requires now.Valid()
    ensures w == WindowOf(Today, None, None, now)
  {
    BoundsAreRebuilt(now);
    w := Accepted(StartOfLocalDay(now), EndOfLocalDay(now));
  }

  method PresetWindow(days: int, now: Date) returns (w: Window)
    requires now.Valid()
    ensures w == PresetRange(days, now)
  {
    var back := AddLocalDays(now, -days);
    DaysAreAdded(now, -days);
    BoundsAreRebuilt(back);
    BoundsAreRebuilt(now);
    w := Accepted(StartOfLocalDay(back), EndOfLocalDay(now));
  }

  /** If the first of the last n days is of the year 100 or later, the window is those. */
  predicate SpansDays(w: Window, n: nat, now: Date) {
    Modern(now.day - n + 1) ==> w == Accepted(Date(now.day - n + 1, 0), Date(now.day, 86399999))
  }

  lemma TodaySpan(now: Date)
    ensures SpansDays(WindowOf(Today, None, None, now), 1, now)
  {
    if Modern(now.day) {
      ModernToday(now);
    }
  }

  lemma PresetSpan(days: nat, now: Date)
    requires days <= 29
    ensures SpansDays(PresetRange(days, now), days + 1, now)
  {
    if Modern(now.day - days) {
      ModernToday(now);
      GoingBack(now, days);
    }
  }

  lemma WindowsSpan(period: Period, from: Option<Date>, to: Option<Date>, now: Date, tz: int)
    requires now.Valid()
    ensures period == Today ==> SpansDays(WindowOf(period, from, to, now), 1, now)
    ensures period == Last7 ==> SpansDays(WindowOf(period, from, to, now), 7, now)
    ensures period == Last14 ==> SpansDays(WindowOf(period, from, to, now), 14, now)
    ensures period == Last30 ==> SpansDays(WindowOf(period, from, to, now), 30, now)
    ensures period == Custom ==> IsCustomWindow(WindowOf(period, from, to, now), from, to, now, tz)
  {
    if period == Custom {
      CustomSpans(from, to, now, tz);
    } else if period == Today {
      TodaySpan(now);
    } else {
      PresetSpan(DaysBack(period), now);
    }
  }

  lemma ModernToday(now: Date)
    requires Modern(now.day)
    ensures TodayOf(now) == now.day
  {
    ModernDay(now.day);
  }

  /** A custom window is accepted exactly if both dates are read, in order, not past today,
      at most 30 days, and no more than 30 times 24 hours back; it is that very range. */
  predicate IsCustomWindow(w: Window, from: Option<Date>, to: Option<Date>, now: Date, tz: int) {
    && (w.Accepted? <==>
          && from.Some? && to.Some?
          && from.value.day <= to.value.day <= TodayOf(now)
          && to.value.day - from.value.day + 1 <= 30
          && now.GetTime(tz) - Date(from.value.day, 0).GetTime(tz) <= 2592000000)
    && (w.Accepted? && from.Some? && to.Some? ==>
          w == Accepted(Date(from.value.day, 0), Date(to.value.day, 86399999)))
    && (w == Rejected(InvalidRange) <==> from.None? || to.None?)
    && (w == Rejected(StartAfterEnd) <==> from.Some? && to.Some? && to.value.day < from.value.day)
    && w != Rejected(StartInFuture)
  }

  lemma CustomSpans(from: Option<Date>, to: Option<Date>, now: Date, tz: int)
    requires now.Valid()
    ensures IsCustomWindow(CustomRange(from, to, now), from, to, now, tz)
  {
    if from.Some? && to.Some? {
      LookBack(from.value.day, now, tz);
    }
  }

  lemma LookBack(first: int, now: Date, tz: int)
    requires now.Valid()
    ensures now.GetTime(tz) - Date(first, 0).GetTime(tz) <= 2592000000 <==>
            !(now.day - first > 30 || (now.day - first == 30 && now.time > 0))
  {
  }

  /** Day 0 is 1 January 1970. */
  lemma EpochIsDayZero(year: int, month: int, date: int)
    requires year == 1970 && month == 0 && date == 1
    ensures MakeDay(year, month, date) == 0
  {
  }

  /** The window as days, from the custom dates as parsed: no `Date`, no loop, and no
      `StartInFuture`, which an earlier test always forestalls. */
  function WindowOf(period: Period, from: Option<Date>, to: Option<Date>, now: Date): Window {
    match period
    case Today => DayRange(TodayOf(now), TodayOf(now))
    case Custom => CustomRange(from, to, now)
    case _ => PresetRange(DaysBack(period), now)
  }

  function PresetRange(days: int, now: Date): Window {
    DayRange(FirstDay(days, now), TodayOf(now))
  }

  function DaysBack(period: Period): (days: nat)
    ensures days <= 29
  {
    match period
    case Last7 => 6
    case Last14 => 13
    case Last30 => 29
    case _ => 0
  }

  function CustomRange(from: Option<Date>, to: Option<Date>, now: Date): Window {
    if from.None? || to.None? then Rejected(InvalidRange)
    else if from.value.day > to.value.day then Rejected(StartAfterEnd)
    else if to.value.day > TodayOf(now) then Rejected(EndInFuture)
    else if to.value.day - from.value.day >= 30 then Rejected(TooManyDays)
    else if now.day - from.value.day > 30 || (now.day - from.value.day == 30 && now.time > 0) then Rejected(TooLongAgo)
    else DayRange(from.value.day, to.value.day)
  }

  function DayRange(first: int, last: int): Window {
    Accepted(Date(first, 0), Date(last, MS_PER_DAY - 1))
  }

  predicate RunsForward(w: Window, tz: int) {
    w.Accepted? && w.since.GetTime(tz) <= w.until.GetTime(tz)
  }

  /** From the midnight that begins a day to the last millisecond of the same or a later
      day, at most 30 local days, not past today, and looking back no further than allowed. */
  predicate IsBounded(w: Window, now: Date, today: int, tz: int) {
    && w.Accepted?
    && w.since.time == 0 && w.until.time == MS_PER_DAY - 1
    && RunsForward(w, tz)
    && w.until.day - w.since.day + 1 <= SEARCH_MAX_INCLUSIVE_DAYS
    && w.until.day <= today
    && now.GetTime(tz) - w.since.GetTime(tz) <= SEARCH_MAX_LOOKBACK_MS
  }

  /** The clock stands so early in the year 100 that the days lead back into the year 99. */
  predicate ReachesYear99(days: nat, now: Date) {
    FIRST_MODERN_DAY <= now.day < FIRST_MODERN_DAY + days
  }

  /** Going back a few days from today lands on that very day, except from the first days of
      the year 100, when it lands after today. */
  lemma GoingBack(now: Date, days: nat)
    requires days <= 29
    ensures if ReachesYear99(days, now)
            then FirstDay(days, now) > TodayOf(now)
            else FirstDay(days, now) == TodayOf(now) - days
    ensures TodayOf(now) >= now.day
  {
    FirstDayIs(days, now);
    FirstDayFrom(now, Rebuilt(now.day), days);
  }

  lemma FirstDayIs(days: int, now: Date)
    ensures FirstDay(days, now) == Rebuilt(Rebuilt(now.day) - days) && TodayOf(now) == Rebuilt(now.day)
  {
  }

  lemma FirstDayFrom(now: Date, today: int, days: nat)
    requires days <= 29 && today == Rebuilt(now.day)
    ensures if ReachesYear99(days, now) then Rebuilt(today - days) > today else Rebuilt(today - days) == today - days
    ensures today >= now.day
  {
    TodayIsSteady(now.day);
    EarlyToday(now, today, days);
    StepBack(today, days);
  }

  lemma EarlyToday(now: Date, today: int, days: nat)
    requires days <= 29 && (now.day >= FIRST_MODERN_DAY || today < FIRST_MODERN_DAY + 29 ==> today == now.day)
    ensures ReachesYear99(days, now) <==> FIRST_MODERN_DAY <= today < FIRST_MODERN_DAY + days
  {
  }

  lemma StepBack(today: int, days: nat)
    requires days <= 29 && (today < YEAR_ZERO || today >= FIRST_MODERN_DAY)
    ensures if FIRST_MODERN_DAY <= today < FIRST_MODERN_DAY + days then Rebuilt(today - days) > today
            else Rebuilt(today - days) == today - days
  {
    if FIRST_MODERN_DAY <= today < FIRST_MODERN_DAY + days {
      EndOfYear99(today - days);
    } else {
      SteadyDay(today - days);
    }
  }

  /** Today is the clock's day before the year 0 and from the year 100 on, and falls in the
      20th century between them. */
  lemma TodayIsSteady(day: int)
    ensures Rebuilt(day) >= day
    ensures Rebuilt(day) < YEAR_ZERO || Rebuilt(day) >= FIRST_MODERN_DAY
    ensures day >= FIRST_MODERN_DAY || Rebuilt(day) < FIRST_MODERN_DAY + 29 ==> Rebuilt(day) == day
  {
    RebuiltMeans(day);
    ModernMeans(day);
    BeforeYearZero(day);
    if 0 <= YearOf(day) <= 99 {
      TwoDigitYearsGoModern(day);
    }
  }

  lemma EndOfYear99(day: int)
    requires FIRST_MODERN_DAY - 29 <= day < FIRST_MODERN_DAY
    ensures Rebuilt(day) >= FIRST_MODERN_DAY + 29
  {
    ModernMeans(day);
    BeforeYearZero(day);
    TwoDigitYearsGoModern(day);
  }

  lemma RangeIsBounded(first: int, last: int, now: Date, today: int, tz: int)
    requires now.Valid() && last <= today
    requires last - first <= 29 && (now.day - first < 30 || (now.day - first == 30 && now.time == 0))
    ensures IsBounded(DayRange(first, last), now, today, tz) <==> first <= last
    ensures RunsForward(DayRange(first, last), tz) <==> first <= last
  {
  }

  lemma TypedIsBounded(from: Option<Date>, to: Option<Date>, now: Date, tz: int)
    requires now.Valid() && CustomRange(from, to, now).Accepted?
    ensures IsBounded(CustomRange(from, to, now), now, TodayOf(now), tz)
  {
    RangeIsBounded(from.value.day, to.value.day, now, TodayOf(now), tz);
  }

  /** The first day of a period of some days back from today. */
  function FirstDay(days: int, now: Date): int {
    Rebuilt(TodayOf(now) - days)
  }

  lemma PresetIsBounded(days: nat, now: Date, first: int, today: int, tz: int)
    requires now.Valid() && days <= 29 && today >= now.day
    requires if ReachesYear99(days, now) then first > today else first == today - days
    ensures IsBounded(DayRange(first, today), now, today, tz) <==> !ReachesYear99(days, now)
    ensures RunsForward(DayRange(first, today), tz) <==> !ReachesYear99(days, now)
  {
    RangeIsBounded(first, today, now, today, tz);
  }

  lemma TodayIsBounded(now: Date, tz: int)
    requires now.Valid()
    ensures IsBounded(DayRange(TodayOf(now), TodayOf(now)), now, TodayOf(now), tz)
  {
    TodayIsSteady(now.day);
    RangeIsBounded(TodayOf(now), TodayOf(now), now, TodayOf(now), tz);
  }

  /** Every accepted window is bounded, except a `7d`, `14d` or `30d` one that reaches into
      the year 99, whose since lies after its until. */
  lemma AcceptedWindowsAreBounded(period: Period, from: Option<Date>, to: Option<Date>, now: Date, tz: int)
    requires now.Valid() && WindowOf(period, from, to, now).Accepted?
    ensures IsBounded(WindowOf(period, from, to, now), now, TodayOf(now), tz) <==> !ReachesYear99(DaysBack(period), now)
    ensures RunsForward(WindowOf(period, from, to, now), tz) <==> !ReachesYear99(DaysBack(period), now)
  {
    match period
    case Custom => TypedIsBounded(from, to, now, tz);
    case Today => TodayIsBounded(now, tz);
    case _ =>
      GoingBack(now, DaysBack(period));
      PresetIsBounded(DaysBack(period), now, FirstDay(DaysBack(period), now), TodayOf(now), tz);
  }
}
