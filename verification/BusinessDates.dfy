/** Business dates are texts "YYYY-MM-DD" (apps/web/lib/date/property-date.ts, apps/web/lib/data/dates.ts). */
module BusinessDates {
  import opened Basics
  import opened Calendar
  import opened Text

  // ---------------------------------------------------------------------------------------------
  // Digits
  // ---------------------------------------------------------------------------------------------

  predicate IsDigit(c: char) {
    '0' <= c <= '9'
  }

  function Digit(n: int): (c: char)
    requires 0 <= n <= 9
    ensures IsDigit(c) && c as int == '0' as int + n
  {
    ('0' as int + n) as char
  }

  predicate AllDigits(s: string) {
    forall i :: 0 <= i < |s| ==> IsDigit(s[i])
  }

  /** `Number` of a run of digits. */
  function Number(s: string): nat
    requires AllDigits(s)
  {
    if s == "" then 0 else 10 * Number(s[..|s| - 1]) + (s[|s| - 1] as int - '0' as int)
  }

  /** `String` of a natural number. */
  function Decimal(n: nat): string {
    if n < 10 then [Digit(n)] else Decimal(n / 10) + [Digit(n % 10)]
  }

  /** `padStart(width, "0")`. */
  function Padded(s: string, width: nat): string
    decreases width - |s|
  {
    if |s| >= width then s else Padded("0" + s, width)
  }

  /** The last `k` digits of `n`. */
  function Digits(n: nat, k: nat): (s: string)
    ensures |s| == k && AllDigits(s)
  {
    if k == 0 then "" else Digits(n / 10, k - 1) + [Digit(n % 10)]
  }

  function PowerOfTen(k: nat): (p: nat)
    ensures p > 0
  {
    if k == 0 then 1 else 10 * PowerOfTen(k - 1)
  }

  lemma {:induction false} NumberOfDigits(n: nat, k: nat)
    requires n < PowerOfTen(k)
    ensures Number(Digits(n, k)) == n
    decreases k
  {
    if k > 0 {
      NumberOfDigits(n / 10, k - 1);
      assert Digits(n, k)[..k - 1] == Digits(n / 10, k - 1);
    }
  }

  lemma {:induction false} OneMoreDigit(n: nat, k: nat)
    requires n < PowerOfTen(k)
    ensures Digits(n, k + 1) == "0" + Digits(n, k)
    decreases k
  {
    if k == 0 {
      assert Digits(0, 1) == "" + [Digit(0)];
    } else {
      OneMoreDigit(n / 10, k - 1);
      Associated("0", Digits(n / 10, k - 1), [Digit(n % 10)]);
    }
  }

  lemma {:induction false} DecimalIsDigits(n: nat)
    ensures |Decimal(n)| >= 1 && n < PowerOfTen(|Decimal(n)|) && Decimal(n) == Digits(n, |Decimal(n)|)
    ensures |Decimal(n)| == 1 || PowerOfTen(|Decimal(n)| - 1) <= n
    decreases n
  {
    if n < 10 {
      assert Digits(n / 10, 0) == "";
      assert PowerOfTen(1) == 10 * PowerOfTen(0);
    } else {
      DecimalIsDigits(n / 10);
    }
  }

  lemma {:induction false} PaddedDigits(n: nat, k: nat, width: nat)
    requires k <= width && n < PowerOfTen(k)
    ensures Padded(Digits(n, k), width) == Digits(n, width)
    decreases width - k
  {
    if k < width {
      OneMoreDigit(n, k);
      PaddedDigits(n, k + 1, width);
    }
  }

  lemma {:induction false} PowersGrow(j: nat, k: nat)
    requires j <= k
    ensures PowerOfTen(j) <= PowerOfTen(k)
    decreases k
  {
    if j < k { PowersGrow(j, k - 1); }
  }

  /** A number that fits is written with exactly its width. */
  lemma PaddedIsDigits(n: nat, width: nat)
    requires width > 0 && n < PowerOfTen(width)
    ensures Padded(Decimal(n), width) == Digits(n, width)
  {
    DecimalIsDigits(n);
    var k := |Decimal(n)|;
    if k > width {
      PowersGrow(width, k - 1);
    } else {
      PaddedDigits(n, k, width);
    }
  }

  // ---------------------------------------------------------------------------------------------
  // Texts of dates
  // ---------------------------------------------------------------------------------------------

  /** `^(\d{4})-(\d{2})-(\d{2})$`. */
  predicate IsoShaped(s: string) {
    |s| == 10 && AllDigits(s[..4]) && s[4] == '-' && AllDigits(s[5..7]) && s[7] == '-' && AllDigits(s[8..])
  }

  function Fields(s: string): Date
    requires IsoShaped(s)
  {
    Date(Number(s[..4]), Number(s[5..7]), Number(s[8..]))
  }

  function Iso(d: Date): string
    requires d.year >= 0 && d.month >= 0 && d.day >= 0
  {
    Padded(Decimal(d.year), 4) + "-" + Padded(Decimal(d.month), 2) + "-" + Padded(Decimal(d.day), 2)
  }

  /** A date a business date can write. */
  predicate Writable(d: Date) {
    Valid(d) && 0 <= d.year <= 9999
  }

  lemma Powers()
    ensures PowerOfTen(2) == 100 && PowerOfTen(4) == 10000
  {
    assert PowerOfTen(0) == 1 && PowerOfTen(1) == 10;
    assert PowerOfTen(3) == 1000;
  }

  lemma IsoIs(d: Date)
    requires Writable(d)
    ensures Iso(d) == Digits(d.year, 4) + "-" + Digits(d.month, 2) + "-" + Digits(d.day, 2)
  {
    Powers();
    PaddedIsDigits(d.year, 4);
    PaddedIsDigits(d.month, 2);
    PaddedIsDigits(d.day, 2);
  }

  lemma PartsOfJoined(y: string, m: string, d: string)
    requires |y| == 4 && |m| == 2 && |d| == 2
    ensures var s := y + "-" + m + "-" + d;
            |s| == 10 && s[..4] == y && s[4] == '-' && s[5..7] == m && s[7] == '-' && s[8..] == d
  {
  }

  /** Writing a date and reading it again gives it back. */
  lemma FieldsOfIso(d: Date)
    requires Writable(d)
    ensures IsoShaped(Iso(d)) && Fields(Iso(d)) == d
  {
    IsoIs(d);
    Powers();
    PartsOfJoined(Digits(d.year, 4), Digits(d.month, 2), Digits(d.day, 2));
    NumberOfDigits(d.year, 4);
    NumberOfDigits(d.month, 2);
    NumberOfDigits(d.day, 2);
  }

  // ---------------------------------------------------------------------------------------------
  // The day before
  // ---------------------------------------------------------------------------------------------

  /** `Date.UTC` takes the years 0 to 99 for 1900 to 1999 (section 21.4.3.4). */
  function FullYear(year: int): int {
    if 0 <= year <= 99 then 1900 + year else year
  }

  lemma {:induction false} NumberIsBounded(s: string)
    requires AllDigits(s)
    ensures Number(s) < PowerOfTen(|s|)
    decreases |s|
  {
    if s != "" { NumberIsBounded(s[..|s| - 1]); }
  }

  lemma FieldsAreBounded(s: string)
    requires IsoShaped(s)
    ensures var f := Fields(s); f.year <= 9999 && f.month <= 99 && f.day <= 99
  {
    Powers();
    NumberIsBounded(s[..4]);
    NumberIsBounded(s[5..7]);
    NumberIsBounded(s[8..]);
  }

  /** The date the original computes from the three groups of digits. */
  function Rolled(f: Date): (d: Date)
    ensures Valid(d) && DayNumber(d) == MakeDay(FullYear(f.year), f.month - 1, f.day - 1)
  {
    DateOf(MakeDay(FullYear(f.year), f.month - 1, f.day - 1))
  }

  const EARLIEST := Date(99, 11, 29)

  /** No run of digits leads before year 99, so what is written is never negative. */
  lemma RolledIsNotNegative(s: string)
    requires IsoShaped(s)
    ensures Rolled(Fields(s)).year >= 99
  {
    var f := Fields(s);
    FieldsAreBounded(s);
    NotBeforeTheEarliest(Rolled(f), FullYear(f.year), f.month - 1, f.day - 1);
  }

  lemma NotBeforeTheEarliest(d: Date, year: int, month: int, date: int)
    requires Valid(d) && DayNumber(d) == MakeDay(year, month, date) && year >= 100 && month >= -1 && date >= -1
    ensures d.year >= 99
  {
    assert DayNumber(EARLIEST) == MakeDay(100, -1, -1);
    MonthsFrom(year, month);
    DayNumberIsOrder(d, EARLIEST);
    hide MakeDay;
    hide DayNumber;
    assert MakeDay(year, month, date) >= MakeDay(year, month, -1) by { LaterDate(year, month, date); }
  }

  lemma LaterDate(year: int, month: int, date: int)
    requires date >= -1
    ensures MakeDay(year, month, date) >= MakeDay(year, month, -1)
  {
  }

  lemma MonthsFrom(year: int, month: int)
    requires year >= 100 && month >= -1
    ensures MakeDay(year, month, -1) >= MakeDay(100, -1, -1)
  {
    var ym, mn := year + month / 12, month % 12;
    if ym > 99 {
      YearsGrow(99, ym);
      if mn > 0 { MonthsGrow(ym, 0, mn); }
      YearLength(99);
    }
  }

  /** None when the original throws. */
  function PreviousBusinessDate(isoDate: string): Option<string> {
    if IsoShaped(isoDate) then
      RolledIsNotNegative(isoDate);
      Some(Iso(Rolled(Fields(isoDate))))
    else None
  }

  lemma {:induction false} DigitsOfNumber(s: string)
    requires AllDigits(s)
    ensures Digits(Number(s), |s|) == s
    decreases |s|
  {
    if s != "" {
      var n := |s| - 1;
      DigitsOfNumber(s[..n]);
      assert Number(s) / 10 == Number(s[..n]) && Number(s) % 10 == s[n] as int - '0' as int;
      FrontAndLast(s);
    }
  }

  /** Four, two and two digits with dashes between. */
  ghost predicate WritesDigits(s: string, f: Date) {
    && 0 <= f.year <= 9999 && 0 <= f.month <= 99 && 0 <= f.day <= 99
    && s == Digits(f.year, 4) + "-" + Digits(f.month, 2) + "-" + Digits(f.day, 2)
  }

  /** A text is a business date exactly when it is written so, and what is read are the numbers written. */
  lemma ReadingIsWriting(s: string, f: Date)
    ensures IsoShaped(s) && Fields(s) == f <==> WritesDigits(s, f)
  {
    Powers();
    if IsoShaped(s) && Fields(s) == f {
      FieldsAreBounded(s);
      DigitsOfNumber(s[..4]);
      DigitsOfNumber(s[5..7]);
      DigitsOfNumber(s[8..]);
      CutAtDashes(s);
    }
    if WritesDigits(s, f) {
      PartsOfJoined(Digits(f.year, 4), Digits(f.month, 2), Digits(f.day, 2));
      NumberOfDigits(f.year, 4);
      NumberOfDigits(f.month, 2);
      NumberOfDigits(f.day, 2);
    }
  }

  lemma CutAtDashes(s: string)
    requires |s| == 10 && s[4] == '-' && s[7] == '-'
    ensures s == s[..4] + "-" + s[5..7] + "-" + s[8..]
  {
  }

  /** It throws exactly when the text is not written so. */
  lemma WhenItThrows(s: string)
    ensures PreviousBusinessDate(s).None? <==> forall f :: !WritesDigits(s, f)
  {
    if IsoShaped(s) {
      ReadingIsWriting(s, Fields(s));
    }
    forall f | WritesDigits(s, f) ensures IsoShaped(s) {
      ReadingIsWriting(s, f);
    }
    hide WritesDigits;
    hide IsoShaped;
  }

  /** From year 100 on, what the original writes is the calendar's day before. */
  lemma PreviousIsDayBefore(d: Date)
    requires Writable(d) && d.year >= 100
    ensures Writable(DayBefore(d)) && PreviousBusinessDate(Iso(d)) == Some(Iso(DayBefore(d)))
  {
    FieldsOfIso(d);
    RolledIsDayBefore(d);
    hide Rolled;
    hide Fields;
    hide IsoShaped;
    hide Iso;
    hide Valid;
    hide DateOf;
  }

  lemma RolledIsDayBefore(d: Date)
    requires Valid(d) && d.year >= 100
    ensures Rolled(d) == DayBefore(d)
  {
    hide MakeDay;
    hide Rolled;
    hide DayBefore;
    hide LeapYear;
    OneDayLess(d.year, d.month - 1, d.day);
    DayBeforeIsOneLess(d);
    DayNumberIsOrder(Rolled(d), DayBefore(d));
  }

  lemma OneDayLess(year: int, month: int, date: int)
    ensures MakeDay(year, month, date - 1) == MakeDay(year, month, date) - 1
  {
    hide DayFromYear;
    hide DaysBefore;
  }

  /** `text` writes a valid date one day before `d`. */
  ghost predicate WritesTheDayBefore(text: string, d: Date)
    requires Valid(d)
  {
    exists e :: Writable(e) && text == Iso(e) && DayNumber(e) == DayNumber(d) - 1
  }

  lemma EarlyYearsAreMoved(d: Date)
    requires Writable(d) && d.year <= 99
    ensures PreviousBusinessDate(Iso(d)).Some? && !WritesTheDayBefore(PreviousBusinessDate(Iso(d)).value, d)
  {
    FieldsOfIso(d);
    var moved := Rolled(d);
    MovedYear(d);
    forall e | Writable(e) && Iso(moved) == Iso(e) ensures DayNumber(e) != DayNumber(d) - 1 {
      FieldsOfIso(e);
      FieldsOfIso(moved);
      DayNumberIsOrder(d, moved);
    }
  }

  lemma MovedYear(d: Date)
    requires Writable(d) && d.year <= 99
    ensures Writable(Rolled(d)) && Rolled(d).year >= 1899
  {
    hide Rolled;
    hide MakeDay;
    hide DayNumber;
    hide DayFromYear;
    EarlyMonth(1900 + d.year, d.month, d.day);
    WithinTwoYears(Rolled(d), 1900 + d.year);
  }

  lemma WithinTwoYears(d: Date, year: int)
    requires Valid(d) && DayFromYear(year - 1) <= DayNumber(d) < DayFromYear(year + 1)
    ensures year - 1 <= d.year <= year
  {
    WithinItsYear(d);
    hide DayFromYear;
    hide DayNumber;
    if d.year < year - 1 { YearsGrow(d.year, year - 1); }
    if d.year > year { YearsGrow(year, d.year); }
  }

  lemma EarlyMonth(year: int, month: int, day: int)
    requires 1 <= month <= 12 && 1 <= day <= 31
    ensures DayFromYear(year - 1) <= MakeDay(year, month - 1, day - 1) < DayFromYear(year + 1)
  {
    YearLength(year);
    YearLength(year - 1);
    MakeDayInYear(year, month - 1, day - 1);
    hide DayFromYear;
    hide MakeDay;
  }

  /** For every date that can be written, the original writes the one valid date a day before it exactly when the
      year is not one of 0 to 99. */
  lemma PreviousBusinessDateIsTheDayBefore(d: Date)
    requires Writable(d)
    ensures PreviousBusinessDate(Iso(d)).Some?
    ensures WritesTheDayBefore(PreviousBusinessDate(Iso(d)).value, d) <==> d.year >= 100
    ensures forall e, f :: Writable(e) && Writable(f) && DayNumber(e) == DayNumber(f) ==> e == f
  {
    if d.year >= 100 {
      PreviousIsDayBefore(d);
      DayBeforeIsOneLess(d);
    } else {
      EarlyYearsAreMoved(d);
    }
    forall e, f | Writable(e) && Writable(f) && DayNumber(e) == DayNumber(f) ensures e == f {
      DayNumberIsOrder(e, f);
    }
  }

  lemma RolledTo1950()
    ensures Rolled(Date(50, 1, 2)) == Date(1950, 1, 1)
  {
    hide MakeDay;
    hide Rolled;
    DayNumberIsOrder(Rolled(Date(50, 1, 2)), Date(1950, 1, 1));
  }

  /** 0050-01-02 is one of them: what is written for the day before it is the first of January 1950. */
  lemma TheYear50IsMoved()
    ensures Writable(Date(50, 1, 2)) && PreviousBusinessDate(Iso(Date(50, 1, 2))) == Some(Iso(Date(1950, 1, 1)))
    ensures !WritesTheDayBefore(Iso(Date(1950, 1, 1)), Date(50, 1, 2))
  {
    hide Iso;
    hide Rolled;
    hide Fields;
    hide IsoShaped;
    hide WritesTheDayBefore;
    FieldsOfIso(Date(50, 1, 2));
    RolledTo1950();
    PreviousBusinessDateIsTheDayBefore(Date(50, 1, 2));
  }

  // ---------------------------------------------------------------------------------------------
  // Weekdays
  // ---------------------------------------------------------------------------------------------

  /** None when the text is no date; a day past the end of a short month is let through. */
  function PartsOf(isoDate: string): Option<Date> {
    if !IsoShaped(isoDate) then None
    else
      var f := Fields(isoDate);
      if f.month < 1 || f.month > 12 || f.day < 1 || f.day > 31 then None else Some(f)
  }

  /** A text has parts exactly when it writes them, with a month and a day that some month has. */
  lemma WhenThereAreParts(s: string, f: Date)
    ensures PartsOf(s) == Some(f) <==> WritesDigits(s, f) && 1 <= f.month <= 12 && 1 <= f.day <= 31
  {
    ReadingIsWriting(s, f);
    hide WritesDigits;
    hide IsoShaped;
    hide Fields;
  }

  function WeekdayIndex(parts: Date): int {
    WeekDay(MakeDay(FullYear(parts.year), parts.month - 1, parts.day))
  }

  /** For every date that can be written, the first of all apart, the day before falls on the weekday before, with two
      exceptions: `Date.UTC` jumps from 100 to 1999, and year 0, which is a leap year, counts as 1900, which is none. */
  lemma WeekdayOfTheDayBefore(d: Date)
    requires Writable(d) && d != Date(0, 1, 1)
    ensures PartsOf(Iso(d)) == Some(d) && PartsOf(Iso(DayBefore(d))) == Some(DayBefore(d))
    ensures WeekdayIndex(DayBefore(d)) == (WeekdayIndex(d) + 6) % 7 <==> d != Date(100, 1, 1) && d != Date(0, 3, 1)
  {
    hide WeekdayIndex;
    assert Writable(DayBefore(d));
    PartsOfIso(d);
    PartsOfIso(DayBefore(d));
    WeekdayIsWeekday(d);
    hide Writable;
    hide PartsOf;
    hide Iso;
    if d == Date(100, 1, 1) {
      NewYearOfTheYear100();
    } else if d == Date(0, 3, 1) {
      FirstOfMarchOfTheYear0();
    } else {
      WeekdayStepsBack(d);
    }
  }

  lemma WeekdayIsWeekday(d: Date)
    ensures 0 <= WeekdayIndex(d) <= 6
  {
    hide MakeDay;
  }

  lemma PartsOfIso(d: Date)
    requires Writable(d)
    ensures PartsOf(Iso(d)) == Some(d)
  {
    FieldsOfIso(d);
  }

  lemma TwoNewYears()
    ensures DayFromYear(100) == -683003 && DayFromYear(1999) == 10592
  {
  }

  lemma NewYearOfTheYear100()
    ensures WeekdayIndex(Date(100, 1, 1)) == 5 == WeekdayIndex(Date(99, 12, 31))
  {
    hide DayFromYear;
    TwoNewYears();
    assert MakeDay(100, 0, 1) == -683003;
    assert MakeDay(1999, 11, 31) == 10956;
  }

  lemma MarchOf1900()
    ensures MakeDay(1900, 1, 29) == MakeDay(1900, 2, 1)
  {
    assert DaysBefore(1900, 1) == 31 && DaysBefore(1900, 2) == 59;
    hide DayFromYear;
    hide DaysBefore;
    hide MakeDay;
    MakeDayInYear(1900, 2, 1);
    MakeDayInYear(1900, 1, 29);
  }

  lemma FirstOfMarchOfTheYear0()
    ensures DayBefore(Date(0, 3, 1)) == Date(0, 2, 29)
    ensures WeekdayIndex(Date(0, 3, 1)) == WeekdayIndex(Date(0, 2, 29))
  {
    MarchOf1900();
    hide MakeDay;
    hide WeekDay;
  }

  lemma WeekdayStepsBack(d: Date)
    requires Valid(d) && d.year >= 0 && d != Date(0, 1, 1) && d != Date(100, 1, 1) && d != Date(0, 3, 1)
    ensures WeekdayIndex(DayBefore(d)) == (WeekdayIndex(d) + 6) % 7
  {
    DayCountedStepsBack(d);
    hide MakeDay;
    WeekdaysStepBack(DayCounted(d));
    hide WeekDay;
  }

  /** The day number that the weekday of a date is read from. */
  function DayCounted(d: Date): int {
    MakeDay(FullYear(d.year), d.month - 1, d.day)
  }

  lemma DayCountedStepsBack(d: Date)
    requires Valid(d) && d.year >= 0 && d != Date(0, 1, 1) && d != Date(100, 1, 1) && d != Date(0, 3, 1)
    ensures DayCounted(DayBefore(d)) == DayCounted(d) - 1
  {
    hide MakeDay;
    hide DaysInMonth;
    if d.day > 1 {
      OneDayLess(FullYear(d.year), d.month - 1, d.day);
    } else if d.month > 1 {
      LastOfTheMonthBefore(d.year, d.month);
    } else {
      FirstOfYear(FullYear(d.year));
    }
  }

  lemma LastOfTheMonthBefore(year: int, month: int)
    requires year >= 0 && 2 <= month <= 12 && !(year == 0 && month == 3)
    ensures DayCounted(Date(year, month - 1, DaysInMonth(year, month - 1))) == DayCounted(Date(year, month, 1)) - 1
  {
    hide MakeDay;
    hide DaysInMonth;
    hide FullYear;
    FirstOfMonth(FullYear(year), month);
    SameMonths(year, month - 1);
  }

  /** Of the years 0 to 99 only the first is a leap year where the year counted for it is none. */
  lemma SameMonths(year: int, month: int)
    requires year >= 0 && 1 <= month <= 12 && !(year == 0 && month == 2)
    ensures DaysInMonth(FullYear(year), month) == DaysInMonth(year, month)
  {
    if 1 <= year <= 99 {
      assert (1900 + year) % 4 == year % 4;
      assert year % 100 == year && (1900 + year) % 100 == year;
    }
  }

  lemma WeekdaysStepBack(day: int)
    ensures WeekDay(day - 1) == (WeekDay(day) + 6) % 7
  {
  }

  // ---------------------------------------------------------------------------------------------
  // Text order is time order
  // ---------------------------------------------------------------------------------------------

  lemma {:induction false} FirstDifference(a: string, b: string, s: string, t: string)
    requires |a| == |b|
    ensures TextBefore(a + s, b + t) <==> TextBefore(a, b) || (a == b && TextBefore(s, t))
    decreases |a|
  {
    if a == "" {
      assert a + s == s && b + t == t;
    } else {
      RestOfConcat(a, s);
      RestOfConcat(b, t);
      FirstDifference(a[1..], b[1..], s, t);
      FirstAndRest(a);
      FirstAndRest(b);
    }
  }

  lemma {:induction false} DigitsAreOrdered(m: nat, n: nat, k: nat)
    requires m < PowerOfTen(k) && n < PowerOfTen(k)
    ensures TextBefore(Digits(m, k), Digits(n, k)) <==> m < n
    decreases k
  {
    if k > 0 {
      DigitsAreOrdered(m / 10, n / 10, k - 1);
      FirstDifference(Digits(m / 10, k - 1), Digits(n / 10, k - 1), [Digit(m % 10)], [Digit(n % 10)]);
      SameDigits(m / 10, n / 10, k - 1);
    }
  }

  lemma SameDigits(m: nat, n: nat, k: nat)
    requires m < PowerOfTen(k) && n < PowerOfTen(k)
    ensures Digits(m, k) == Digits(n, k) <==> m == n
  {
    NumberOfDigits(m, k);
    NumberOfDigits(n, k);
  }

  /** Business dates compare as texts exactly as the days they write. */
  lemma TextOrderIsTimeOrder(a: Date, b: Date)
    requires Writable(a) && Writable(b)
    ensures TextBefore(Iso(a), Iso(b)) <==> DayNumber(a) < DayNumber(b)
    ensures Iso(a) == Iso(b) <==> a == b
  {
    DayNumberIsOrder(a, b);
    FieldsOfIso(a);
    FieldsOfIso(b);
    Powers();
    IsoIs(a);
    IsoIs(b);
    DigitsAreOrdered(a.year, b.year, 4);
    DigitsAreOrdered(a.month, b.month, 2);
    DigitsAreOrdered(a.day, b.day, 2);
    SameDigits(a.year, b.year, 4);
    SameDigits(a.month, b.month, 2);
    TextsOfDates(Digits(a.year, 4), Digits(a.month, 2), Digits(a.day, 2), Digits(b.year, 4), Digits(b.month, 2), Digits(b.day, 2));
  }

  lemma TextsOfDates(y: string, m: string, d: string, z: string, n: string, e: string)
    requires |y| == |z| && |m| == |n|
    ensures TextBefore(y + "-" + m + "-" + d, z + "-" + n + "-" + e)
       <==> TextBefore(y, z) || (y == z && (TextBefore(m, n) || (m == n && TextBefore(d, e))))
  {
    FirstDifference(y + "-" + m + "-", z + "-" + n + "-", d, e);
    FirstDifference(y + "-" + m, z + "-" + n, "-", "-");
    FirstDifference(y + "-", z + "-", m, n);
    FirstDifference(y, z, "-", "-");
    assert !TextBefore("-", "-");
    SameJoined(y, m, z, n);
  }

  lemma SameJoined(y: string, m: string, z: string, n: string)
    requires |y| == |z| && |m| == |n|
    ensures y + "-" == z + "-" <==> y == z
    ensures y + "-" + m == z + "-" + n <==> y == z && m == n
    ensures y + "-" + m + "-" == z + "-" + n + "-" <==> y == z && m == n
  {
    assert y == (y + "-")[..|y|] && z == (z + "-")[..|y|];
    assert m == (y + "-" + m)[|y| + 1..] && n == (z + "-" + n)[|y| + 1..];
    assert y + "-" == (y + "-" + m)[..|y| + 1] && z + "-" == (z + "-" + n)[..|y| + 1];
    assert y + "-" + m == (y + "-" + m + "-")[..|y| + 1 + |m|] && z + "-" + n == (z + "-" + n + "-")[..|y| + 1 + |m|];
  }
}
