/** Calendar arithmetic on JavaScript dates: a date is its number of milliseconds since 1970-01-01T00:00Z,
    and the UTC fields are decoded from that number in the proleptic Gregorian calendar. */
module Calendar {
  import opened Wrappers


  const MS_PER_DAY := 86_400_000
  const MS_PER_HOUR := 3_600_000

  predicate IsLeapYear(year: int) {
    year % 4 == 0 && (year % 100 != 0 || year % 400 == 0)
  }

  // Months are numbered from January 1970, which is month 0.
  function DaysInMonth(monthIndex: int): (days: int)
    ensures 28 <= days <= 31
  {
    var month := monthIndex % 12;
    if month == 1 then (if IsLeapYear(1970 + monthIndex / 12) then 29 else 28)
    else if month == 3 || month == 5 || month == 8 || month == 10 then 30
    else 31
  }

  // Days from 1 January 1970 to the first day of the month.
  function MonthStart(monthIndex: int): int
    decreases if monthIndex >= 0 then monthIndex else -monthIndex
  {
    if monthIndex == 0 then 0
    else if monthIndex > 0 then MonthStart(monthIndex - 1) + DaysInMonth(monthIndex - 1)
    else MonthStart(monthIndex + 1) - DaysInMonth(monthIndex)
  }

  // Consecutive months tile the days.
  lemma MonthsAreContiguous(monthIndex: int)
    ensures MonthStart(monthIndex + 1) == MonthStart(monthIndex) + DaysInMonth(monthIndex)
  {
  }

  lemma {:induction false} MonthStartsIncrease(a: int, b: int)
    requires a <= b
    ensures MonthStart(a) + 28 * (b - a) <= MonthStart(b)
    decreases b - a
  {
    if a < b {
      MonthStartsIncrease(a, b - 1);
    }
  }

  // The month holding a day, searched from a starting guess.
  function MonthOfDay(day: int, guess: int): (monthIndex: int)
    ensures MonthStart(monthIndex) <= day < MonthStart(monthIndex) + DaysInMonth(monthIndex)
    decreases if day < MonthStart(guess) then MonthStart(guess) - day + 31 else day - MonthStart(guess)
  {
    if day < MonthStart(guess) then MonthOfDay(day, guess - 1)
    else if MonthStart(guess) + DaysInMonth(guess) <= day then MonthOfDay(day, guess + 1)
    else guess
  }

  /* The JavaScript date primitives. */

  function DayNumber(time: int): int {
    time / MS_PER_DAY
  }

  function UtcMonthIndex(time: int): int {
    MonthOfDay(DayNumber(time), 0)
  }

  function GetUtcFullYear(time: int): int {
    1970 + UtcMonthIndex(time) / 12
  }

  function GetUtcMonth(time: int): int {
    UtcMonthIndex(time) % 12
  }

  function GetUtcDate(time: int): (date: int)
    ensures 1 <= date <= DaysInMonth(UtcMonthIndex(time))
  {
    DayNumber(time) - MonthStart(UtcMonthIndex(time)) + 1
  }

  function TimeOfDay(time: int): int {
    time % MS_PER_DAY
  }

  // Date.UTC(year, month, date): months and dates outside their ranges carry over.
  function DateUtc(year: int, month: int, date: int): int {
    (MonthStart(12 * (year - 1970) + month) + date - 1) * MS_PER_DAY
  }

  // date.setUTCFullYear(year, month, date): the time of day is kept.
  function SetUtcFullYear(time: int, year: int, month: int, date: int): int {
    DateUtc(year, month, date) + TimeOfDay(time)
  }

  function AddMonthsWithAnchor(time: int, months: int, anchorDay: int): int {
    var utcYear := GetUtcFullYear(time);
    var utcMonth := GetUtcMonth(time) + months;
    var lastDay := GetUtcDate(DateUtc(utcYear, utcMonth + 1, 0));
    var day := Min(anchorDay, lastDay);
    SetUtcFullYear(time, utcYear, utcMonth, day)
  }

  function AddHours(time: int, hours: int): (later: int)
    ensures later >= time + MS_PER_HOUR
    ensures later == time + MS_PER_HOUR * Max(1, hours)
  {
    time + Max(1, hours) * 60 * 60 * 1000
  }

  /* Decoding is the inverse of encoding. */

  lemma {:induction false} MonthIsUnique(day: int, a: int, b: int)
    requires MonthStart(a) <= day < MonthStart(a) + DaysInMonth(a)
    requires MonthStart(b) <= day < MonthStart(b) + DaysInMonth(b)
    ensures a == b
  {
    MonthsAreContiguous(a);
    MonthsAreContiguous(b);
    if a < b {
      MonthStartsIncrease(a + 1, b);
    } else if b < a {
      MonthStartsIncrease(b + 1, a);
    }
  }

  // Encoding a real date and decoding it again gives the same month, date and time of day.
  lemma EncodeDecode(monthIndex: int, date: int, timeOfDay: int)
    requires 1 <= date <= DaysInMonth(monthIndex) && 0 <= timeOfDay < MS_PER_DAY
    ensures
      var time := DateUtc(1970, monthIndex, date) + timeOfDay;
      UtcMonthIndex(time) == monthIndex && GetUtcDate(time) == date && TimeOfDay(time) == timeOfDay
  {
    var day := MonthStart(monthIndex) + date - 1;
    var time := DateUtc(1970, monthIndex, date) + timeOfDay;
    DivModUnique(time, day, timeOfDay);
    MonthIsUnique(day, UtcMonthIndex(time), monthIndex);
  }

  lemma DivModUnique(time: int, days: int, rest: int)
    requires time == days * MS_PER_DAY + rest && 0 <= rest < MS_PER_DAY
    ensures time / MS_PER_DAY == days && time % MS_PER_DAY == rest
  {
  }

  // Decoding a date and encoding its fields again gives the same date.
  lemma DecodeEncode(time: int)
    ensures SetUtcFullYear(time, GetUtcFullYear(time), GetUtcMonth(time), GetUtcDate(time)) == time
  {
    assert 12 * (GetUtcFullYear(time) - 1970) + GetUtcMonth(time) == UtcMonthIndex(time);
    assert (time / MS_PER_DAY) * MS_PER_DAY + time % MS_PER_DAY == time;
  }

  /* Billing cycles. */

  // Day 0 of the next month is the last day of this one.
  lemma DayZeroIsLastDay(year: int, month: int)
    ensures GetUtcDate(DateUtc(year, month + 1, 0)) == DaysInMonth(12 * (year - 1970) + month)
  {
    var monthIndex := 12 * (year - 1970) + month;
    assert 12 * (year - 1970) + (month + 1) == monthIndex + 1;
    assert DateUtc(year, month + 1, 0) == DateUtc(1970, monthIndex, DaysInMonth(monthIndex));
    EncodeDecode(monthIndex, DaysInMonth(monthIndex), 0);
  }

  // What adding months means: the month moves by that many, the date is the anchor or the month's last
  // day when the month is shorter, and the time of day is kept.
  lemma AddMonthsFields(time: int, months: int, anchorDay: int)
    requires anchorDay >= 1
    ensures
      var later := AddMonthsWithAnchor(time, months, anchorDay);
      && UtcMonthIndex(later) == UtcMonthIndex(time) + months
      && GetUtcDate(later) == Min(anchorDay, DaysInMonth(UtcMonthIndex(time) + months))
      && TimeOfDay(later) == TimeOfDay(time)
  {
    var year, month := GetUtcFullYear(time), GetUtcMonth(time) + months;
    var monthIndex := UtcMonthIndex(time) + months;
    assert 12 * (year - 1970) + month == monthIndex;
    DayZeroIsLastDay(year, month);
    var day := Min(anchorDay, DaysInMonth(monthIndex));
    assert DateUtc(year, month, day) == DateUtc(1970, monthIndex, day);
    EncodeDecode(monthIndex, day, TimeOfDay(time));
  }

  lemma FieldsDetermineTime(a: int, b: int)
    requires UtcMonthIndex(a) == UtcMonthIndex(b) && GetUtcDate(a) == GetUtcDate(b)
    requires TimeOfDay(a) == TimeOfDay(b)
    ensures a == b
  {
    DecodeEncode(a);
    DecodeEncode(b);
  }

  // No drift: months added one group after another land where adding them all at once lands.
  lemma AddMonthsComposes(time: int, m: int, n: int, anchorDay: int)
    requires anchorDay >= 1
    ensures AddMonthsWithAnchor(AddMonthsWithAnchor(time, m, anchorDay), n, anchorDay)
         == AddMonthsWithAnchor(time, m + n, anchorDay)
  {
    var middle := AddMonthsWithAnchor(time, m, anchorDay);
    AddMonthsFields(time, m, anchorDay);
    AddMonthsFields(middle, n, anchorDay);
    AddMonthsFields(time, m + n, anchorDay);
    FieldsDetermineTime(AddMonthsWithAnchor(middle, n, anchorDay), AddMonthsWithAnchor(time, m + n, anchorDay));
  }

  // A later month is a later instant, whatever the dates within the months.
  lemma LaterMonthIsLater(a: int, b: int)
    requires UtcMonthIndex(a) < UtcMonthIndex(b)
    ensures a < b
  {
    MonthsAreContiguous(UtcMonthIndex(a));
    MonthStartsIncrease(UtcMonthIndex(a) + 1, UtcMonthIndex(b));
    assert DayNumber(a) < DayNumber(b);
  }

  lemma AddMonthsAdvances(time: int, months: int, anchorDay: int)
    requires anchorDay >= 1 && months >= 1
    ensures time < AddMonthsWithAnchor(time, months, anchorDay)
  {
    AddMonthsFields(time, months, anchorDay);
    LaterMonthIsLater(time, AddMonthsWithAnchor(time, months, anchorDay));
  }

  // The date a month shows for an anchor day.
  predicate OnAnchoredDay(time: int, anchorDay: int) {
    GetUtcDate(time) == Min(anchorDay, DaysInMonth(UtcMonthIndex(time)))
  }

  // A one-month cycle that starts on its anchored day lasts 28 to 31 whole days.
  lemma CycleLength(start: int, anchorDay: int)
    requires anchorDay >= 1 && OnAnchoredDay(start, anchorDay)
    ensures
      var end := AddMonthsWithAnchor(start, 1, anchorDay);
      && OnAnchoredDay(end, anchorDay)
      && (end - start) % MS_PER_DAY == 0
      && 28 * MS_PER_DAY <= end - start <= 31 * MS_PER_DAY
  {
    var end := AddMonthsWithAnchor(start, 1, anchorDay);
    AddMonthsFields(start, 1, anchorDay);
    MonthsAreContiguous(UtcMonthIndex(start));
    var days := DayNumber(end) - DayNumber(start);
    assert 28 <= days <= 31;
    assert end - start == days * MS_PER_DAY;
  }
}
