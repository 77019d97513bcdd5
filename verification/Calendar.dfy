/** The calendar of `Date.UTC` and its getters (ECMA-262, section 21.4.1), which the page uses for all its date
    arithmetic. Days are counted from 1 January 1970. */
module Calendar {

  datatype Date = Date(year: int, month: int, day: int)

  predicate LeapYear(y: int) {
    y % 4 == 0 && (y % 100 != 0 || y % 400 == 0)
  }

  function DaysInMonth(y: int, month: int): int
    requires 1 <= month <= 12
  {
    if month == 2 then (if LeapYear(y) then 29 else 28)
    else if month == 4 || month == 6 || month == 9 || month == 11 then 30
    else 31
  }

  predicate Valid(d: Date) {
    1 <= d.month <= 12 && 1 <= d.day <= DaysInMonth(d.year, d.month)
  }

  /** `DayFromYear`: the number of the first day of a year. */
  function DayFromYear(y: int): int {
    365 * (y - 1970) + (y - 1969) / 4 - (y - 1901) / 100 + (y - 1601) / 400
  }

  function CommonDaysBefore(m: int): int
    requires 0 <= m <= 12
  {
    if m == 0 then 0 else if m == 1 then 31 else if m == 2 then 59 else if m == 3 then 90
    else if m == 4 then 120 else if m == 5 then 151 else if m == 6 then 181 else if m == 7 then 212
    else if m == 8 then 243 else if m == 9 then 273 else if m == 10 then 304 else if m == 11 then 334
    else 365
  }

  /** The days of a year before its month `m`, counted from 0. */
  function DaysBefore(y: int, m: int): int
    requires 0 <= m <= 12
  {
    CommonDaysBefore(m) + if m >= 2 && LeapYear(y) then 1 else 0
  }

  /** `MakeDay`: month and day roll over in both directions. */
  function MakeDay(year: int, month: int, date: int): int {
    var ym := year + month / 12;
    DayFromYear(ym) + DaysBefore(ym, month % 12) + date - 1
  }

  lemma MakeDayInYear(y: int, m: int, date: int)
    requires 0 <= m < 12
    ensures MakeDay(y, m, date) == DayFromYear(y) + DaysBefore(y, m) + date - 1
  {
    hide DayFromYear;
    hide CommonDaysBefore;
    hide LeapYear;
  }

  /** `YearFromTime`: the largest year that has begun on `day`; the search goes up or down from `from`. */
  function YearUp(day: int, from: int): (y: int)
    requires DayFromYear(from) <= day
    ensures DayFromYear(y) <= day < DayFromYear(y + 1)
    decreases day - DayFromYear(from)
  {
    if day < DayFromYear(from + 1) then from else YearUp(day, from + 1)
  }

  function YearDown(day: int, from: int): (y: int)
    requires day < DayFromYear(from + 1)
    ensures DayFromYear(y) <= day < DayFromYear(y + 1)
    decreases DayFromYear(from + 1) - day
  {
    if DayFromYear(from) <= day then from else YearDown(day, from - 1)
  }

  function YearOf(day: int): (y: int)
    ensures DayFromYear(y) <= day < DayFromYear(y + 1)
  {
    if DayFromYear(1970) <= day then YearUp(day, 1970) else YearDown(day, 1969)
  }

  /** `MonthFromTime`: the last month of `y` that has begun `offset` days into it. */
  function MonthOf(y: int, offset: int, from: int): (m: int)
    requires 0 <= from <= 11 && 0 <= offset < DaysBefore(y, from + 1)
    ensures 0 <= m <= from && DaysBefore(y, m) <= offset < DaysBefore(y, m + 1)
  {
    if DaysBefore(y, from) <= offset then from else MonthOf(y, offset, from - 1)
  }

  lemma FourthYear(y: int)
    ensures (y - 1968) / 4 - (y - 1969) / 4 == if y % 4 == 0 then 1 else 0
  {
  }

  lemma HundredthYear(y: int)
    ensures (y - 1900) / 100 - (y - 1901) / 100 == if y % 100 == 0 then 1 else 0
  {
  }

  lemma FourHundredthYear(y: int)
    ensures (y - 1600) / 400 - (y - 1601) / 400 == if y % 400 == 0 then 1 else 0
  {
  }

  lemma LeapDays(y: int)
    ensures (if y % 4 == 0 then 1 else 0) - (if y % 100 == 0 then 1 else 0) + (if y % 400 == 0 then 1 else 0)
         == if LeapYear(y) then 1 else 0
  {
  }

  lemma YearLength(y: int)
    ensures DayFromYear(y + 1) - DayFromYear(y) == DaysBefore(y, 12) == 365 + if LeapYear(y) then 1 else 0
  {
    FourthYear(y);
    HundredthYear(y);
    FourHundredthYear(y);
    LeapDays(y);
    hide LeapYear;
  }

  lemma NothingBefore(y: int)
    ensures DaysBefore(y, 0) == 0
  {
  }

  lemma MonthLength(y: int, m: int)
    requires 1 <= m <= 12
    ensures DaysBefore(y, m) - DaysBefore(y, m - 1) == DaysInMonth(y, m)
  {
  }

  /** Year and month of a day fix its day of the month. */
  lemma DateIs(day: int, y: int, m: int)
    requires 0 <= m <= 11 && DayFromYear(y) + DaysBefore(y, m) <= day < DayFromYear(y) + DaysBefore(y, m + 1)
    ensures var d := Date(y, m + 1, day - DayFromYear(y) - DaysBefore(y, m) + 1); Valid(d) && DayNumber(d) == day
  {
    hide DayFromYear;
    hide DaysBefore;
    hide DaysInMonth;
    hide MakeDay;
    MonthLength(y, m + 1);
    MakeDayInYear(y, m, day - DayFromYear(y) - DaysBefore(y, m) + 1);
  }

  /** The getters: year, month and day of a day number. */
  function DateOf(day: int): (d: Date)
    ensures Valid(d) && DayNumber(d) == day
  {
    hide DayFromYear;
    hide DaysBefore;
    hide Valid;
    hide DayNumber;
    var y := YearOf(day);
    YearLength(y);
    var m := MonthOf(y, day - DayFromYear(y), 11);
    DateIs(day, y, m);
    Date(y, m + 1, day - DayFromYear(y) - DaysBefore(y, m) + 1)
  }

  function DayNumber(d: Date): int
    requires 1 <= d.month <= 12
  {
    MakeDay(d.year, d.month - 1, d.day)
  }

  // ---------------------------------------------------------------------------------------------
  // Day numbers order the dates
  // ---------------------------------------------------------------------------------------------

  predicate Before(a: Date, b: Date) {
    a.year < b.year || (a.year == b.year && (a.month < b.month || (a.month == b.month && a.day < b.day)))
  }

  lemma {:induction false} YearsGrow(y: int, z: int)
    requires y < z
    ensures DayFromYear(y + 1) <= DayFromYear(z)
    decreases z - y
  {
    if y + 1 < z {
      YearsGrow(y, z - 1);
      YearLength(z - 1);
    }
  }

  lemma {:induction false} MonthsGrow(y: int, m: int, n: int)
    requires 0 <= m < n <= 12
    ensures DaysBefore(y, m + 1) <= DaysBefore(y, n)
    decreases n - m
  {
    if m + 1 < n {
      MonthsGrow(y, m, n - 1);
      MonthLength(y, n);
    }
  }

  lemma WithinItsYear(d: Date)
    requires Valid(d)
    ensures DayNumber(d) == DayFromYear(d.year) + DaysBefore(d.year, d.month - 1) + d.day - 1
    ensures DayFromYear(d.year) <= DayNumber(d) < DayFromYear(d.year + 1)
    ensures DayNumber(d) < DayFromYear(d.year) + DaysBefore(d.year, d.month)
  {
    MakeDayInYear(d.year, d.month - 1, d.day);
    MonthLength(d.year, d.month);
    YearLength(d.year);
    NothingBefore(d.year);
    hide DayFromYear;
    hide DaysBefore;
    hide DaysInMonth;
    hide MakeDay;
    if d.month > 1 { MonthsGrow(d.year, 0, d.month - 1); }
    if d.month < 12 { MonthsGrow(d.year, d.month, 12); }
  }

  lemma EarlierYear(a: Date, b: Date)
    requires Valid(a) && Valid(b) && a.year < b.year
    ensures DayNumber(a) < DayNumber(b)
  {
    hide DayFromYear;
    hide DayNumber;
    hide DaysBefore;
    WithinItsYear(a);
    WithinItsYear(b);
    YearsGrow(a.year, b.year);
  }

  lemma EarlierMonth(a: Date, b: Date)
    requires Valid(a) && Valid(b) && a.year == b.year && a.month < b.month
    ensures DayNumber(a) < DayNumber(b)
  {
    hide DayFromYear;
    hide DayNumber;
    hide DaysBefore;
    WithinItsYear(a);
    WithinItsYear(b);
    MonthsGrow(a.year, a.month - 1, b.month - 1);
  }

  lemma EarlierDay(a: Date, b: Date)
    requires Valid(a) && Valid(b) && a.year == b.year && a.month == b.month && a.day < b.day
    ensures DayNumber(a) < DayNumber(b)
  {
    MakeDayInYear(a.year, a.month - 1, a.day);
    MakeDayInYear(b.year, b.month - 1, b.day);
    hide DayFromYear;
    hide DaysBefore;
    hide MakeDay;
  }

  lemma EarlierIsSmaller(a: Date, b: Date)
    requires Valid(a) && Valid(b) && Before(a, b)
    ensures DayNumber(a) < DayNumber(b)
  {
    hide Valid;
    hide DayNumber;
    if a.year < b.year {
      EarlierYear(a, b);
    } else if a.month < b.month {
      EarlierMonth(a, b);
    } else {
      EarlierDay(a, b);
    }
  }

  /** One date is before another exactly when its day number is smaller. */
  lemma DayNumberIsOrder(a: Date, b: Date)
    requires Valid(a) && Valid(b)
    ensures Before(a, b) <==> DayNumber(a) < DayNumber(b)
    ensures DayNumber(a) == DayNumber(b) <==> a == b
  {
    if Before(a, b) {
      EarlierIsSmaller(a, b);
    } else if a != b {
      EarlierIsSmaller(b, a);
    }
  }

  /** Counting days and reading dates undo each other. */
  lemma DatesAreDayNumbers(d: Date)
    requires Valid(d)
    ensures DateOf(DayNumber(d)) == d
  {
    DayNumberIsOrder(DateOf(DayNumber(d)), d);
  }

  /** The day before, by the rules of the calendar. */
  function DayBefore(d: Date): (r: Date)
    requires Valid(d)
    ensures Valid(r)
  {
    if d.day > 1 then d.(day := d.day - 1)
    else if d.month > 1 then Date(d.year, d.month - 1, DaysInMonth(d.year, d.month - 1))
    else Date(d.year - 1, 12, 31)
  }

  lemma FirstOfMonth(y: int, month: int)
    requires 2 <= month <= 12
    ensures DayNumber(Date(y, month - 1, DaysInMonth(y, month - 1))) == DayNumber(Date(y, month, 1)) - 1
  {
    MonthLength(y, month - 1);
    MakeDayInYear(y, month - 2, DaysInMonth(y, month - 1));
    MakeDayInYear(y, month - 1, 1);
    hide DayFromYear;
    hide DaysBefore;
    hide DaysInMonth;
    hide MakeDay;
  }

  lemma FirstOfYear(y: int)
    ensures DayNumber(Date(y - 1, 12, 31)) == DayNumber(Date(y, 1, 1)) - 1
  {
    YearLength(y - 1);
    MonthLength(y - 1, 12);
    NothingBefore(y);
    MakeDayInYear(y - 1, 11, 31);
    MakeDayInYear(y, 0, 1);
    hide DayFromYear;
    hide DaysBefore;
    hide MakeDay;
  }

  lemma DayBeforeIsOneLess(d: Date)
    requires Valid(d)
    ensures DayNumber(DayBefore(d)) == DayNumber(d) - 1
  {
    if d.day == 1 && d.month > 1 {
      FirstOfMonth(d.year, d.month);
    } else if d.day == 1 {
      FirstOfYear(d.year);
    } else {
      hide DayFromYear;
      hide DaysBefore;
    }
  }

  /** `WeekDay`: Sunday is 0. */
  function WeekDay(day: int): int {
    (day + 4) % 7
  }

  /** The calendar repeats itself, weekdays included, every 400 years: 146097 days, which are whole weeks. It starts on a
      Thursday. */
  lemma CalendarRepeats(d: Date)
    requires Valid(d)
    ensures var later := d.(year := d.year + 400);
            Valid(later) && DayNumber(later) == DayNumber(d) + 146097 && WeekDay(DayNumber(later)) == WeekDay(DayNumber(d))
    ensures DayNumber(Date(1970, 1, 1)) == 0 && WeekDay(0) == 4
  {
    hide LeapYear;
    hide DayFromYear;
    hide MakeDay;
    hide CommonDaysBefore;
    hide WeekDay;
    LeapYearsRepeat(d.year);
    YearsRepeat(d.year);
    MakeDayInYear(d.year, d.month - 1, d.day);
    MakeDayInYear(d.year + 400, d.month - 1, d.day);
    WholeWeeks(DayNumber(d));
    FirstDay(Date(1970, 1, 1));
  }

  lemma WholeWeeks(day: int)
    ensures WeekDay(day + 146097) == WeekDay(day)
  {
  }

  lemma LeapYearsRepeat(y: int)
    ensures LeapYear(y + 400) <==> LeapYear(y)
  {
  }

  lemma YearsRepeat(y: int)
    ensures DayFromYear(y + 400) == DayFromYear(y) + 146097
  {
    assert (y + 400 - 1969) / 4 == (y - 1969) / 4 + 100;
    assert (y + 400 - 1901) / 100 == (y - 1901) / 100 + 4;
    assert (y + 400 - 1601) / 400 == (y - 1601) / 400 + 1;
  }

  lemma FirstDay(d: Date)
    requires d == Date(1970, 1, 1)
    ensures DayNumber(d) == 0 && WeekDay(0) == 4
  {
    hide MakeDay;
    MakeDayInYear(d.year, d.month - 1, d.day);
  }
}
