/**
  Proleptic Gregorian dates as Python's `date` holds them, the `calculate_age` rule of
  doctor.py, and the `DD-MM-YYYY` text the form stores for a date of birth.
 */
module Calendar {
  import opened Digits

  datatype Date = Date(year: int, month: int, day: int)

  predicate IsLeapYear(y: int) {
    y % 4 == 0 && (y % 100 != 0 || y % 400 == 0)
  }

  function DaysInMonth(y: int, m: int): (n: int)
    requires 1 <= m <= 12
    ensures 28 <= n <= 31
  {
    if m == 2 then (if IsLeapYear(y) then 29 else 28)
    else if m == 4 || m == 6 || m == 9 || m == 11 then 30
    else 31
  }

  /** The dates Python's `date` can represent: years 1 to 9999. */
  predicate ValidDate(d: Date) {
    && 1 <= d.year <= 9999
    && 1 <= d.month <= 12
    && 1 <= d.day <= DaysInMonth(d.year, d.month)
  }

  /** Calendar order: year first, then month, then day. */
  predicate OnOrBefore(a: Date, b: Date) {
    || a.year < b.year
    || (a.year == b.year && a.month < b.month)
    || (a.year == b.year && a.month == b.month && a.day <= b.day)
  }

  /**
    The tuple comparison `(dob.month, dob.day) > (today.month, today.day)`: this year's
    birthday has not been reached yet.
   */
  predicate BirthdayPending(dob: Date, today: Date) {
    dob.month > today.month || (dob.month == today.month && dob.day > today.day)
  }

  /** The date `n` years after `dob`, on the same month and day. */
  function Anniversary(dob: Date, n: int): Date {
    Date(dob.year + n, dob.month, dob.day)
  }

  /**
    `calculate_age`: the year difference, less one while the birthday is still ahead.
    The result is the number of anniversaries of the birth that have been reached: the
    `age`-th one is on or before `today` and the next one is not.
   */
  function CalculateAge(dob: Date, today: Date): (age: int)
    ensures OnOrBefore(Anniversary(dob, age), today)
    ensures !OnOrBefore(Anniversary(dob, age + 1), today)
    ensures OnOrBefore(dob, today) ==> age >= 0
    ensures age == today.year - dob.year || age == today.year - dob.year - 1
  {
    today.year - dob.year - (if BirthdayPending(dob, today) then 1 else 0)
  }

  /** Exactly one count of years satisfies the anniversary characterisation. */
  lemma AgeIsUnique(dob: Date, today: Date, n: int)
    requires OnOrBefore(Anniversary(dob, n), today)
    requires !OnOrBefore(Anniversary(dob, n + 1), today)
    ensures n == CalculateAge(dob, today)
  {
  }

  /** Age never goes down as the current date moves forward. */
  lemma AgeMonotone(dob: Date, d1: Date, d2: Date)
    requires OnOrBefore(d1, d2)
    ensures CalculateAge(dob, d1) <= CalculateAge(dob, d2)
  {
  }

  /** The day after a valid date. */
  function NextDay(d: Date): (n: Date)
    requires ValidDate(d)
    ensures OnOrBefore(d, n) && n != d
    ensures d.year < 9999 ==> ValidDate(n)
  {
    if d.day < DaysInMonth(d.year, d.month) then Date(d.year, d.month, d.day + 1)
    else if d.month < 12 then Date(d.year, d.month + 1, 1)
    else Date(d.year + 1, 1, 1)
  }

  /** On the birthday itself the age goes up by exactly one. */
  lemma AgeRisesOnBirthday(dob: Date, d: Date)
    requires ValidDate(d)
    requires NextDay(d).month == dob.month && NextDay(d).day == dob.day
    ensures CalculateAge(dob, NextDay(d)) == CalculateAge(dob, d) + 1
  {
  }

  /**
    On any other day the age stays the same, for every birth date except 29 February
    (see `LeapDayBirthdayInCommonYear`).
   */
  lemma AgeSteadyOffBirthday(dob: Date, d: Date)
    requires ValidDate(dob) && ValidDate(d)
    requires !(dob.month == 2 && dob.day == 29)
    requires !(NextDay(d).month == dob.month && NextDay(d).day == dob.day)
    ensures CalculateAge(dob, NextDay(d)) == CalculateAge(dob, d)
  {
  }

  /**
    Someone born on 29 February turns a year older on 1 March of a common year: the
    tuple comparison places (2, 29) after (2, 28) and before (3, 1).
   */
  lemma LeapDayBirthdayInCommonYear(dob: Date, y: int)
    requires dob.month == 2 && dob.day == 29
    requires 1 <= y <= 9999 && !IsLeapYear(y)
    ensures NextDay(Date(y, 2, 28)) == Date(y, 3, 1)
    ensures CalculateAge(dob, Date(y, 3, 1)) == CalculateAge(dob, Date(y, 2, 28)) + 1
  {
  }

  /** `strftime('%d-%m-%Y')`: day, month and four-digit year separated by dashes. */
  function FormatDate(d: Date): (s: string)
    requires ValidDate(d)
    ensures |s| == 10 && s[2] == '-' && s[5] == '-'
    ensures s[..2] == TwoDigits(d.day) && s[3..5] == TwoDigits(d.month)
    ensures s[6..] == FourDigits(d.year)
  {
    TwoDigits(d.day) + "-" + TwoDigits(d.month) + "-" + FourDigits(d.year)
  }

}
