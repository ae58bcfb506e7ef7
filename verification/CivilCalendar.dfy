/** The billing calendar in closed form: how many days lie between two dates of the Gregorian calendar, and where
    that puts every date the code computes. Nothing here counts month by month. */
module CivilCalendar {
  import opened Wrappers
  import opened Calendar

  // The leap days up to and including the given year.
  function LeapDays(year: int): int {
    year / 4 - year / 100 + year / 400
  }

  // Days from 1 January 1970 to a date, for any number of months from January of the year: the year is counted from
  // March, so that the leap day comes last and the lengths of the months follow a line.
  function CivilDays(year: int, month: int, date: int): int {
    var march := (month + 10) % 12;
    var fromMarch := year + (month - 2) / 12;
    365 * fromMarch + LeapDays(fromMarch) + (153 * march + 2) / 5 + date - 719469
  }

  // The days of a month, from its first day to that of the next.
  function CivilLength(year: int, month: int): int {
    CivilDays(year, month + 1, 1) - CivilDays(year, month, 1)
  }

  lemma OneMoreYear(year: int)
    ensures LeapDays(year) - LeapDays(year - 1)
         == if year % 4 == 0 && (year % 100 != 0 || year % 400 == 0) then 1 else 0
  {
    Quotients(year, 4);
    Quotients(year, 100);
    Quotients(year, 400);
  }

  lemma Quotients(year: int, period: int)
    requires period > 1
    ensures year / period - (year - 1) / period == if year % period == 0 then 1 else 0
  {
    var q, r := year / period, year % period;
    assert year == q * period + r && 0 <= r < period;
    if r == 0 {
      QuotientIs(year - 1, period, q - 1, period - 1);
    } else {
      QuotientIs(year - 1, period, q, r - 1);
    }
  }

  lemma QuotientIs(n: int, period: int, q: int, r: int)
    requires n == q * period + r && 0 <= r < period
    ensures n / period == q
  {
    var difference := n / period - q;
    assert n == (n / period) * period + n % period;
    assert difference * period == r - n % period;
    assert -period < difference * period < period;
    if difference >= 1 {
      assert false;
    } else if difference <= -1 {
      assert false;
    }
  }

  // The twelve months of every year, in numbers.
  lemma LengthsOfMonths(year: int)
    ensures CivilLength(year, 0) == 31
    ensures CivilLength(year, 1) == if year % 4 == 0 && (year % 100 != 0 || year % 400 == 0) then 29 else 28
    ensures CivilLength(year, 2) == 31 && CivilLength(year, 3) == 30 && CivilLength(year, 4) == 31
    ensures CivilLength(year, 5) == 30 && CivilLength(year, 6) == 31 && CivilLength(year, 7) == 31
    ensures CivilLength(year, 8) == 30 && CivilLength(year, 9) == 31 && CivilLength(year, 10) == 30
    ensures CivilLength(year, 11) == 31
  {
    WinterMonths(year);
    SpringAndSummer(year);
    AutumnMonths(year);
    hide *;
  }

  lemma WinterMonths(year: int)
    ensures CivilLength(year, 0) == 31 && CivilLength(year, 11) == 31
    ensures CivilLength(year, 1) == if year % 4 == 0 && (year % 100 != 0 || year % 400 == 0) then 29 else 28
  {
    OneMoreYear(year);
    hide LeapDays;
  }

  lemma SpringAndSummer(year: int)
    ensures CivilLength(year, 2) == 31 && CivilLength(year, 3) == 30 && CivilLength(year, 4) == 31
    ensures CivilLength(year, 5) == 30 && CivilLength(year, 6) == 31
  {
    hide LeapDays;
  }

  lemma AutumnMonths(year: int)
    ensures CivilLength(year, 7) == 31 && CivilLength(year, 8) == 30
    ensures CivilLength(year, 9) == 31 && CivilLength(year, 10) == 30
  {
    hide LeapDays;
  }

  lemma MonthsCarryOver(year: int, month: int, date: int)
    ensures CivilDays(year, month, date) == CivilDays(year + month / 12, month % 12, date)
  {
    var y, m := year + month / 12, month % 12;
    assert month == 12 * (month / 12) + m;
    assert (month + 10) % 12 == (m + 10) % 12;
    assert (month - 2) / 12 == month / 12 + (m - 2) / 12;
  }

  /* The months of the code are those. */

  lemma MonthIsAsLong(monthIndex: int)
    ensures DaysInMonth(monthIndex) == CivilLength(1970 + monthIndex / 12, monthIndex % 12)
  {
    hide CivilLength;
    var year, month := 1970 + monthIndex / 12, monthIndex % 12;
    LengthsOfMonths(year);
    assert month in {0, 1, 2, 3, 4, 5, 6, 7, 8, 9, 10, 11};
  }

  lemma FirstDayAfter(monthIndex: int)
    ensures CivilDays(1970, monthIndex + 1, 1) == CivilDays(1970, monthIndex, 1) + DaysInMonth(monthIndex)
  {
    var year, month := monthIndex / 12, monthIndex % 12;
    MonthIsAsLong(monthIndex);
    hide CivilDays, DaysInMonth;
    MonthsCarryOver(1970, monthIndex, 1);
    MonthsCarryOver(1970 + year, month + 1, 1);
    MonthsCarryOver(1970, monthIndex + 1, 1);
    NextMonth(monthIndex, year, month);
  }

  lemma NextMonth(monthIndex: int, year: int, month: int)
    requires monthIndex == 12 * year + month && 0 <= month < 12
    ensures (monthIndex + 1) % 12 == (month + 1) % 12 && (monthIndex + 1) / 12 == year + (month + 1) / 12
  {
  }

  // The first day of every month, before and after 1970.
  lemma {:induction false} MonthStartIsCivil(monthIndex: int)
    ensures MonthStart(monthIndex) == CivilDays(1970, monthIndex, 1)
    decreases if monthIndex >= 0 then monthIndex else -monthIndex
  {
    hide CivilDays, DaysInMonth;
    if monthIndex > 0 {
      MonthStartIsCivil(monthIndex - 1);
      FirstDayAfter(monthIndex - 1);
    } else if monthIndex < 0 {
      MonthStartIsCivil(monthIndex + 1);
      FirstDayAfter(monthIndex);
    } else {
      Epoch();
    }
  }

  lemma Epoch()
    ensures CivilDays(1970, 0, 1) == 0
  {
    LeapDaysOf1969(1969);
    hide LeapDays;
  }

  lemma LeapDaysOf1969(year: int)
    requires year == 1969
    ensures LeapDays(year) == 477
  {
  }

  lemma YearsAreMonths(year: int, month: int, date: int)
    ensures CivilDays(1970, 12 * (year - 1970) + month, date) == CivilDays(year, month, date)
  {
    MonthsCarryOver(1970, 12 * (year - 1970) + month, date);
    MonthsCarryOver(year, month, date);
    hide CivilDays;
    assert (12 * (year - 1970) + month) / 12 == year - 1970 + month / 12;
    assert (12 * (year - 1970) + month) % 12 == month % 12;
  }

  // Date.UTC counts days as the closed form does, for every year, month and date.
  lemma DateUtcIsCivil(year: int, month: int, date: int)
    ensures DateUtc(year, month, date) == 86_400_000 * CivilDays(year, month, date)
  {
    MonthStartIsCivil(12 * (year - 1970) + month);
    YearsAreMonths(year, month, 1);
    assert CivilDays(year, month, date) == CivilDays(year, month, 1) + date - 1;
    hide CivilDays, MonthStart;
  }

  // The calendar repeats after 400 years: 4800 months are 146097 days.
  lemma FourHundredYears(monthIndex: int)
    ensures MonthStart(monthIndex + 4800) == MonthStart(monthIndex) + 146_097
  {
    MonthStartIsCivil(monthIndex);
    MonthStartIsCivil(monthIndex + 4800);
    hide MonthStart;
    MonthsCarryOver(1970, monthIndex, 1);
    MonthsCarryOver(1970, monthIndex + 4800, 1);
    assert (monthIndex + 4800) % 12 == monthIndex % 12 && (monthIndex + 4800) / 12 == monthIndex / 12 + 400;
    Shifted(1970 + monthIndex / 12, monthIndex % 12);
  }

  lemma Shifted(year: int, month: int)
    ensures CivilDays(year + 400, month, 1) == CivilDays(year, month, 1) + 146_097
  {
    LeapDaysRepeat(year + (month - 2) / 12);
    hide LeapDays;
    assert year + 400 + (month - 2) / 12 == year + (month - 2) / 12 + 400;
  }

  lemma LeapDaysRepeat(year: int)
    ensures LeapDays(year + 400) == LeapDays(year) + 97
  {
    ShiftedQuotient(year, 4, 100);
    ShiftedQuotient(year, 100, 4);
    ShiftedQuotient(year, 400, 1);
  }

  lemma ShiftedQuotient(year: int, period: int, times: int)
    requires period > 0
    ensures (year + times * period) / period == year / period + times
  {
    QuotientIs(year + times * period, period, year / period + times, year % period);
  }

  /* Dates. */

  // A real date with a time of day.
  ghost predicate IsDate(year: int, month: int, date: int, timeOfDay: int) {
    && 0 <= month < 12 && 1 <= date <= CivilLength(year, month) && 0 <= timeOfDay < 86_400_000
  }

  // The instant of a date.
  function Instant(year: int, month: int, date: int, timeOfDay: int): int {
    86_400_000 * CivilDays(year, month, date) + timeOfDay
  }

  // The fields the code reads from an instant are the only date that it is the instant of.
  lemma FieldsAreTheDate(time: int, year: int, month: int, date: int, timeOfDay: int)
    ensures IsDate(year, month, date, timeOfDay) && Instant(year, month, date, timeOfDay) == time
      <==> year == GetUtcFullYear(time) && month == GetUtcMonth(time) && date == GetUtcDate(time)
           && timeOfDay == TimeOfDay(time)
  {
    FieldsAreADate(time);
    hide *;
    if IsDate(year, month, date, timeOfDay) {
      InstantHasFields(year, month, date, timeOfDay);
    }
  }

  lemma InstantHasFields(year: int, month: int, date: int, timeOfDay: int)
    requires IsDate(year, month, date, timeOfDay)
    ensures
      var time := Instant(year, month, date, timeOfDay);
      && UtcMonthIndex(time) == 12 * (year - 1970) + month && GetUtcFullYear(time) == year && GetUtcMonth(time) == month
      && GetUtcDate(time) == date && TimeOfDay(time) == timeOfDay
  {
    hide CivilDays, DaysInMonth, UtcMonthIndex, CivilLength, DateUtc, GetUtcDate, TimeOfDay;
    var monthIndex := 12 * (year - 1970) + month;
    YearOfMonth(year, month);
    MonthIsAsLong(monthIndex);
    DateUtcIsCivil(1970, monthIndex, date);
    YearsAreMonths(year, month, date);
    EncodeDecode(monthIndex, date, timeOfDay);
  }

  lemma YearOfMonth(year: int, month: int)
    requires 0 <= month < 12
    ensures 1970 + (12 * (year - 1970) + month) / 12 == year && (12 * (year - 1970) + month) % 12 == month
  {
  }

  lemma FieldsAreADate(time: int)
    ensures IsDate(GetUtcFullYear(time), GetUtcMonth(time), GetUtcDate(time), TimeOfDay(time))
    ensures Instant(GetUtcFullYear(time), GetUtcMonth(time), GetUtcDate(time), TimeOfDay(time)) == time
  {
    hide CivilDays, CivilLength, DaysInMonth, UtcMonthIndex, DateUtc;
    DecodeEncode(time);
    DateUtcIsCivil(GetUtcFullYear(time), GetUtcMonth(time), GetUtcDate(time));
    MonthIsAsLong(UtcMonthIndex(time));
  }

  /* Billing dates. */

  // Where adding months lands: in that month, on the anchor day or on the month's last day when it is shorter, at
  // the same time of day.
  lemma AddMonthsLands(year: int, month: int, date: int, timeOfDay: int, months: int, anchorDay: int)
    requires IsDate(year, month, date, timeOfDay) && anchorDay >= 1
    ensures
      var y, m := year + (month + months) / 12, (month + months) % 12;
      AddMonthsWithAnchor(Instant(year, month, date, timeOfDay), months, anchorDay)
      == Instant(y, m, Min(anchorDay, CivilLength(y, m)), timeOfDay)
  {
    hide CivilDays, CivilLength, DaysInMonth, UtcMonthIndex, AddMonthsWithAnchor, Instant, IsDate;
    var time := Instant(year, month, date, timeOfDay);
    InstantHasFields(year, month, date, timeOfDay);
    AddMonthsFields(time, months, anchorDay);
    MonthIsAsLong(UtcMonthIndex(time) + months);
    FieldsAreADate(AddMonthsWithAnchor(time, months, anchorDay));
    MonthsFrom(year, month + months);
  }

  lemma MonthsFrom(year: int, months: int)
    ensures (12 * (year - 1970) + months) / 12 == year - 1970 + months / 12
    ensures (12 * (year - 1970) + months) % 12 == months % 12
  {
  }

  // The same with the date's own day as the anchor.
  lemma OwnDayLands(year: int, month: int, date: int, timeOfDay: int, months: int)
    requires IsDate(year, month, date, timeOfDay)
    ensures
      var time, y, m := Instant(year, month, date, timeOfDay), year + (month + months) / 12, (month + months) % 12;
      AddMonthsWithAnchor(time, months, GetUtcDate(time)) == Instant(y, m, Min(date, CivilLength(y, m)), timeOfDay)
  {
    hide CivilDays, CivilLength, AddMonthsWithAnchor, Instant, GetUtcDate;
    InstantHasFields(year, month, date, timeOfDay);
    AddMonthsLands(year, month, date, timeOfDay, months, date);
  }

  // A cycle begun on 31 January 2026, day 20484, ends on 28 February, day 20512.
  lemma JanuaryExample(time: int)
    requires time == 20_484 * 86_400_000
    ensures GetUtcDate(time) == 31 && AddMonthsWithAnchor(time, 1, 31) == 20_512 * 86_400_000
  {
    hide CivilDays, CivilLength, AddMonthsWithAnchor, GetUtcDate;
    DaysOfExample(2026, 0);
    JanuaryLands(time, 2026, 0);
  }

  lemma DaysOfExample(year: int, month: int)
    requires year == 2026 && month == 0
    ensures CivilDays(year, month, 31) == 20_484 && CivilDays(year, month + 1, 28) == 20_512
    ensures CivilLength(year, month) == 31 && CivilLength(year, month + 1) == 28
  {
    LengthsOfMonths(year);
    hide CivilLength, LeapDays;
    assert LeapDays(2025) == 491 by { LeapDaysOf2025(year - 1); }
  }

  lemma LeapDaysOf2025(year: int)
    requires year == 2025
    ensures LeapDays(year) == 491
  {
  }

  lemma JanuaryLands(time: int, year: int, month: int)
    requires 0 <= month < 11 && CivilLength(year, month) == 31 && CivilLength(year, month + 1) == 28
    requires time == Instant(year, month, 31, 0)
    ensures GetUtcDate(time) == 31 && AddMonthsWithAnchor(time, 1, 31) == Instant(year, month + 1, 28, 0)
  {
    hide CivilDays, CivilLength, AddMonthsWithAnchor, GetUtcDate, Instant;
    assert (month + 1) / 12 == 0 && (month + 1) % 12 == month + 1;
    InstantHasFields(year, month, 31, 0);
    AddMonthsLands(year, month, 31, 0, 1, 31);
  }
}
