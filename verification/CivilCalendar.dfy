/**
 The Gregorian day number of the RTC driver and the timestamps built from it.
 */
module CivilCalendar {
  import opened Arithmetic

  const RTC_EPOCH_YEAR := 2000
  const DAYS_PER_ERA := 146_097
  const EPOCH_OFFSET := 719_468
  const NANOSECONDS := 1_000_000_000

  datatype Date = Date(year: int, month: int, day: int)

  predicate IsLeapYear(year: int) { year % 4 == 0 && (year % 100 != 0 || year % 400 == 0) }

  function DaysInMonth(year: int, month: int): int {
    if month == 2 then (if IsLeapYear(year) then 29 else 28)
    else if month == 4 || month == 6 || month == 9 || month == 11 then 30
    else 31
  }

  predicate ValidDate(d: Date) { 1 <= d.month <= 12 && 1 <= d.day <= DaysInMonth(d.year, d.month) }

  /** Division as the source's language does it: towards zero. */
  function TruncatedDiv(a: int, b: int): int
    requires b > 0
  {
    if a >= 0 then a / b else -((-a) / b)
  }

  function DaysFromCivil(year: int, month: int, day: int): int {
    var y := if month <= 2 then year - 1 else year;
    var era := TruncatedDiv(if y >= 0 then y else y - 399, 400);
    var yearOfEra := y - era * 400;
    var adjustedMonth := month + (if month > 2 then -3 else 9);
    var dayOfYear := (153 * adjustedMonth + 2) / 5 + day - 1;
    var dayOfEra := yearOfEra * 365 + yearOfEra / 4 - yearOfEra / 100 + dayOfYear;
    era * DAYS_PER_ERA + dayOfEra - EPOCH_OFFSET
  }

  function DayNumber(d: Date): int { DaysFromCivil(d.year, d.month, d.day) }

  // ----- One day further

  function NextDay(d: Date): Date {
    if d.day < DaysInMonth(d.year, d.month) then d.(day := d.day + 1)
    else if d.month < 12 then Date(d.year, d.month + 1, 1)
    else Date(d.year + 1, 1, 1)
  }

  /** The guarded truncating division is the floor. */
  lemma EraIsFloor(y: int)
    ensures TruncatedDiv(if y >= 0 then y else y - 399, 400) == y / 400
  {
    if y < 0 {
      var n := 399 - y;
      DivMod(n, 400);
      DivModUnique(y, 400, -(n / 400), 399 - n % 400);
    }
  }

  /** The day number of the first of March of year y. */
  function YearStart(y: int): int {
    y / 400 * DAYS_PER_ERA + y % 400 * 365 + y % 400 / 4 - y % 400 / 100 - EPOCH_OFFSET
  }

  /** Days from the first of March to the first of the month. */
  function MonthOffset(month: int): int { (153 * (month + (if month > 2 then -3 else 9)) + 2) / 5 }

  lemma DayNumberFromYearStart(d: Date)
    ensures DayNumber(d) == YearStart(if d.month <= 2 then d.year - 1 else d.year) + MonthOffset(d.month) + d.day - 1
  {
    var y := if d.month <= 2 then d.year - 1 else d.year;
    EraIsFloor(y);
    DivMod(y, 400);
  }

  /** The offsets of neighbouring months differ by the length of the month. */
  lemma MonthLength(year: int, month: int)
    requires 1 <= month <= 12 && month != 2
    ensures MonthOffset(if month == 12 then 1 else month + 1) == MonthOffset(month) + DaysInMonth(year, month)
    ensures MonthOffset(2) == 337 && MonthOffset(3) == 0
  {
  }

  lemma LeapWithinEra(e: int, r: int)
    requires 0 <= r < 400
    ensures IsLeapYear(e * 400 + r) <==> r % 4 == 0 && (r % 100 != 0 || r == 0)
  {
    var y := e * 400 + r;
    AddMultiple(r, e * 100, 4);
    AddMultiple(r, e * 4, 100);
    AddMultiple(r, e, 400);
    assert e * 100 * 4 == e * 400 && e * 4 * 100 == e * 400;
  }

  lemma QuotientStep(r: nat, m: nat)
    requires m > 0
    ensures (r + 1) / m == r / m + (if (r + 1) % m == 0 then 1 else 0)
  {
    DivMod(r, m);
    if r % m == m - 1 {
      DivModUnique(r + 1, m, r / m + 1, 0);
    } else {
      DivModUnique(r + 1, m, r / m, r % m + 1);
    }
  }

  /** A year that starts in March is one day longer when the next civil year is a
      leap year. */
  lemma YearLength(y: int)
    ensures YearStart(y + 1) - YearStart(y) == if IsLeapYear(y + 1) then 366 else 365
  {
    DivMod(y, 400);
    var e, r := y / 400, y % 400;
    if r < 399 {
      DivModUnique(y + 1, 400, e, r + 1);
      LeapWithinEra(e, r + 1);
      QuotientStep(r, 4);
      QuotientStep(r, 100);
    } else {
      DivModUnique(y + 1, 400, e + 1, 0);
      LeapWithinEra(e + 1, 0);
    }
  }

  lemma NextMonthIsOneMore(year: int, month: int)
    requires 1 <= month <= 12 && month != 2
    ensures var last := Date(year, month, DaysInMonth(year, month)); DayNumber(NextDay(last)) == DayNumber(last) + 1
  {
    var last := Date(year, month, DaysInMonth(year, month));
    DayNumberFromYearStart(last);
    DayNumberFromYearStart(NextDay(last));
    MonthLength(year, month);
  }

  lemma MarchIsOneMore(year: int)
    ensures var last := Date(year, 2, DaysInMonth(year, 2)); DayNumber(NextDay(last)) == DayNumber(last) + 1
  {
    var last := Date(year, 2, DaysInMonth(year, 2));
    DayNumberFromYearStart(last);
    DayNumberFromYearStart(NextDay(last));
    MonthLength(year, 1);
    YearLength(year - 1);
  }

  /** Every valid date, of any year, is followed by the date one day later. */
  lemma NextDayIsOneMore(d: Date)
    requires ValidDate(d)
    ensures ValidDate(NextDay(d)) && DayNumber(NextDay(d)) == DayNumber(d) + 1
  {
    if d.day == DaysInMonth(d.year, d.month) {
      if d.month == 2 {
        MarchIsOneMore(d.year);
      } else {
        NextMonthIsOneMore(d.year, d.month);
      }
    } else {
      DayNumberFromYearStart(d);
      DayNumberFromYearStart(NextDay(d));
    }
  }

  const EPOCH_DATE := Date(1970, 1, 1)

  function DaysLater(n: nat): Date {
    if n == 0 then EPOCH_DATE else NextDay(DaysLater(n - 1))
  }

  /** The day number counts days one by one from 1 January 1970. */
  lemma {:induction false} DayNumberCountsDays(n: nat)
    ensures ValidDate(DaysLater(n)) && DayNumber(DaysLater(n)) == n
  {
    if n > 0 {
      DayNumberCountsDays(n - 1);
      NextDayIsOneMore(DaysLater(n - 1));
    }
  }

  // ----- Order

  predicate Earlier(a: Date, b: Date) {
    a.year < b.year || (a.year == b.year && (a.month < b.month || (a.month == b.month && a.day < b.day)))
  }

  lemma DaysAddUp(d: Date)
    requires ValidDate(d)
    ensures DayNumber(d) == DayNumber(d.(day := 1)) + d.day - 1
  {
  }

  lemma {:induction false} MonthsAreOrdered(year: int, m: int, n: int)
    requires 1 <= m < n <= 12
    ensures DayNumber(Date(year, m, 1)) + DaysInMonth(year, m) <= DayNumber(Date(year, n, 1))
    decreases n - m
  {
    var last := Date(year, m, DaysInMonth(year, m));
    NextDayIsOneMore(last);
    DaysAddUp(last);
    if m + 1 < n {
      MonthsAreOrdered(year, m + 1, n);
    }
  }

  lemma {:induction false} YearsAreOrdered(y: int, z: int)
    requires y < z
    ensures DayNumber(Date(y, 12, 31)) < DayNumber(Date(z, 1, 1))
    decreases z - y
  {
    NextDayIsOneMore(Date(y, 12, 31));
    if y + 1 < z {
      YearsAreOrdered(y + 1, z);
      YearIsOrdered(y + 1);
    }
  }

  lemma YearIsOrdered(y: int)
    ensures DayNumber(Date(y, 1, 1)) < DayNumber(Date(y, 12, 31))
  {
    MonthsAreOrdered(y, 1, 12);
    DaysAddUp(Date(y, 12, 31));
  }

  lemma WithinYear(d: Date)
    requires ValidDate(d)
    ensures DayNumber(Date(d.year, 1, 1)) <= DayNumber(d) <= DayNumber(Date(d.year, 12, 31))
  {
    DaysAddUp(d);
    DaysAddUp(Date(d.year, 12, 31));
    if d.month > 1 {
      MonthsAreOrdered(d.year, 1, d.month);
    }
    if d.month < 12 {
      MonthsAreOrdered(d.year, d.month, 12);
    }
  }

  lemma EarlierIsLess(a: Date, b: Date)
    requires ValidDate(a) && ValidDate(b) && Earlier(a, b)
    ensures DayNumber(a) < DayNumber(b)
  {
    if a.year < b.year {
      WithinYear(a);
      WithinYear(b);
      YearsAreOrdered(a.year, b.year);
    } else {
      DaysAddUp(a);
      DaysAddUp(b);
      if a.month < b.month {
        MonthsAreOrdered(a.year, a.month, b.month);
      }
    }
  }

  /** Day numbers order dates exactly as the calendar does. */
  lemma DayNumberOrdersDates(a: Date, b: Date)
    requires ValidDate(a) && ValidDate(b)
    ensures DayNumber(a) < DayNumber(b) <==> Earlier(a, b)
  {
    if Earlier(a, b) {
      EarlierIsLess(a, b);
    } else if Earlier(b, a) {
      EarlierIsLess(b, a);
    }
  }

  // ----- The clock reading

  /** The registers; the sub-second counter runs down from secondFraction. */
  datatype Registers = Registers(
    year: nat, month: nat, day: nat, hours: nat, minutes: nat, seconds: nat, subSeconds: nat, secondFraction: nat)

  datatype Result = Error | Timestamp(seconds: int, nanoseconds: int)

  function DateOf(r: Registers): Date { Date(RTC_EPOCH_YEAR + r.year, r.month, r.day) }

  predicate Accepted(r: Registers) {
    && 1 <= r.month <= 12 && 1 <= r.day <= DaysInMonth(RTC_EPOCH_YEAR + r.year, r.month)
    && r.hours < 24 && r.minutes < 60 && r.seconds < 60 && r.subSeconds <= r.secondFraction
  }

  function SecondOfDay(r: Registers): int { r.hours * 3600 + r.minutes * 60 + r.seconds }

  function GetTime(r: Registers): Result {
    if !Accepted(r) then Error
    else
      Timestamp(DaysFromCivil(RTC_EPOCH_YEAR + r.year, r.month, r.day) * 86_400 + r.hours * 3600 + r.minutes * 60 +
        r.seconds,
                (r.secondFraction - r.subSeconds) * NANOSECONDS / (r.secondFraction + 1))
  }

  /** Calendar order of the readings, down to the second. */
  predicate ReadsEarlier(a: Registers, b: Registers) {
    Earlier(DateOf(a), DateOf(b)) || (DateOf(a) == DateOf(b) && SecondOfDay(a) < SecondOfDay(b))
  }

  /** Accepted readings give timestamps in strict calendar order, with a proper
      nanosecond part, and readings before 1970 cannot occur. */
  lemma TimestampsFollowCalendar(a: Registers, b: Registers)
    requires Accepted(a) && Accepted(b)
    ensures GetTime(a).seconds < GetTime(b).seconds <==> ReadsEarlier(a, b)
    ensures 0 <= GetTime(a).nanoseconds < NANOSECONDS && GetTime(a).seconds >= 0
  {
    SecondsAre(a);
    SecondsAre(b);
    SecondsAreOrdered(DayNumber(DateOf(a)), SecondOfDay(a), DayNumber(DateOf(b)), SecondOfDay(b));
    DayNumberIsDate(DateOf(a), DateOf(b));
    SubSecondIsProper(a);
    AfterEpoch(a);
  }

  function Seconds(day: int, second: int): int { day * 86_400 + second }

  lemma SecondsAre(r: Registers)
    requires Accepted(r)
    ensures GetTime(r).seconds == Seconds(DayNumber(DateOf(r)), SecondOfDay(r)) && 0 <= SecondOfDay(r) < 86_400
    ensures GetTime(r).nanoseconds == (r.secondFraction - r.subSeconds) * NANOSECONDS / (r.secondFraction + 1)
    ensures ValidDate(DateOf(r))
  {
  }

  lemma SecondsAreOrdered(p: int, x: int, q: int, y: int)
    requires 0 <= x < 86_400 && 0 <= y < 86_400
    ensures Seconds(p, x) < Seconds(q, y) <==> p < q || (p == q && x < y)
  {
  }

  /** Equal day numbers are equal dates, and smaller ones earlier dates. */
  lemma DayNumberIsDate(a: Date, b: Date)
    requires ValidDate(a) && ValidDate(b)
    ensures (DayNumber(a) < DayNumber(b) <==> Earlier(a, b)) && (DayNumber(a) == DayNumber(b) <==> a == b)
  {
    DayNumberOrdersDates(a, b);
    DayNumberOrdersDates(b, a);
  }

  lemma AfterEpoch(r: Registers)
    requires Accepted(r)
    ensures DayNumber(DateOf(r)) >= 0
  {
    DayNumberCountsDays(0);
    assert DaysLater(0) == EPOCH_DATE;
    DayNumberOrdersDates(DateOf(r), EPOCH_DATE);
  }

  lemma SubSecondIsProper(r: Registers)
    requires r.subSeconds <= r.secondFraction
    ensures 0 <= (r.secondFraction - r.subSeconds) * NANOSECONDS / (r.secondFraction + 1) < NANOSECONDS
  {
    var n, m := r.secondFraction - r.subSeconds, r.secondFraction + 1;
    DivLower(n * NANOSECONDS, m, 0);
    DivLower(n * NANOSECONDS, m, NANOSECONDS);
    MulMonotone(n + 1, m, NANOSECONDS);
  }

  /** Within one second a lower sub-second count is a later time. */
  lemma SubSecondsRunDown(a: Registers, b: Registers)
    requires Accepted(a) && Accepted(b) && a.secondFraction == b.secondFraction && a.subSeconds > b.subSeconds
    ensures GetTime(a).nanoseconds <= GetTime(b).nanoseconds
    ensures a.secondFraction < NANOSECONDS ==> GetTime(a).nanoseconds < GetTime(b).nanoseconds
  {
    var m := a.secondFraction + 1;
    var x, y := (a.secondFraction - a.subSeconds) * NANOSECONDS, (b.secondFraction - b.subSeconds) * NANOSECONDS;
    assert y >= x + NANOSECONDS;
    DivMonotone(x, y, m);
    if m <= NANOSECONDS {
      AddMultiple(x, 1, m);
      DivMonotone(x + m, y, m);
    }
  }

  /** A reading is accepted exactly if it is a date and a time of day, and its sub-second
      count has not run over. */
  lemma ReadingsAreAcceptedIff(r: Registers)
    ensures GetTime(r) != Error <==>
      && ValidDate(Date(2000 + r.year, r.month, r.day)) && r.hours <= 23 && r.minutes <= 59 && r.seconds <= 59
      && r.subSeconds <= r.secondFraction
  {
  }

  /** What the registers show a second later. */
  function NextSecond(r: Registers): Registers
    requires Accepted(r)
  {
    if r.seconds < 59 then r.(seconds := r.seconds + 1)
    else if r.minutes < 59 then r.(minutes := r.minutes + 1, seconds := 0)
    else if r.hours < 23 then r.(hours := r.hours + 1, minutes := 0, seconds := 0)
    else
      var d := NextDay(DateOf(r));
      r.(year := d.year - RTC_EPOCH_YEAR, month := d.month, day := d.day, hours := 0, minutes := 0, seconds := 0)
  }

  /** It is one second more, at midnight and at the end of months and years too. */
  lemma NextSecondIsOneMore(r: Registers)
    requires Accepted(r)
    ensures Accepted(NextSecond(r)) && GetTime(NextSecond(r)).seconds == GetTime(r).seconds + 1
    ensures GetTime(NextSecond(r)).nanoseconds == GetTime(r).nanoseconds
  {
    var n := NextSecond(r);
    NextSecondShows(r);
    SecondsAre(r);
    SecondsAre(n);
    if n.hours == n.minutes == n.seconds == 0 {
      NextDayIsOneMore(DateOf(r));
    }
  }

  lemma NextSecondShows(r: Registers)
    requires Accepted(r)
    ensures var n := NextSecond(r);
      && Accepted(n) && n.subSeconds == r.subSeconds && n.secondFraction == r.secondFraction
      && if n.hours == n.minutes == n.seconds == 0 then DateOf(n) == NextDay(DateOf(r)) && SecondOfDay(r) == 86_399
         else DateOf(n) == DateOf(r) && SecondOfDay(n) == SecondOfDay(r) + 1
  {
    NextDayIsValid(DateOf(r));
  }

  lemma NextDayIsValid(d: Date)
    requires ValidDate(d)
    ensures ValidDate(NextDay(d)) && NextDay(d).year >= d.year
  {
  }

  /** The clock's epoch, midnight before the first of January 2000, is this many seconds
      after that of 1970. */
  lemma EpochOfTheClock(secondFraction: nat)
    ensures GetTime(Registers(0, 1, 1, 0, 0, 0, secondFraction, secondFraction)) == Timestamp(946_684_800, 0)
  {
  }

  /** A whole second is divided evenly by the sub-second count. */
  lemma NanosecondsAreExact(r: Registers)
    requires Accepted(r)
    ensures var n := GetTime(r).nanoseconds;
      n * (r.secondFraction + 1) <= (r.secondFraction - r.subSeconds) * NANOSECONDS < (n + 1) * (r.secondFraction + 1)
  {
    SecondsAre(r);
    DivMod((r.secondFraction - r.subSeconds) * NANOSECONDS, r.secondFraction + 1);
  }
}
