/** Calendar dates as the application reads them from a JavaScript Date
    (getFullYear, getMonth counted from 0, getDate), the age computation shared by
    the Patient schema's `age` virtual and the client's formatAge, and the
    millisecond constants used for time windows. */
module Dates {

  const DAY_MS: int := 24 * 60 * 60 * 1000
  const WEEK_MS: int := 7 * DAY_MS

  datatype Date = Date(year: int, month: int, day: int)

  /** a falls strictly before b on the calendar. */
  predicate Before(a: Date, b: Date) {
    a.year < b.year
    || (a.year == b.year && a.month < b.month)
    || (a.year == b.year && a.month == b.month && a.day < b.day)
  }

  predicate OnOrBefore(a: Date, b: Date) { !Before(b, a) }

  /** The completed-years computation: the year difference, less one when this
      year's birthday (same month and day) has not been reached yet. */
  function AgeInYears(dob: Date, today: Date): int
  {
    var age := today.year - dob.year;
    var monthDiff := today.month - dob.month;
    if monthDiff < 0 || (monthDiff == 0 && today.day < dob.day) then age - 1 else age
  }

  /** The n-th birthday of someone born on dob. */
  function Anniversary(dob: Date, n: int): Date
  {
    Date(dob.year + n, dob.month, dob.day)
  }

  /** The age is the number of birthdays reached: the age-th anniversary is on or
      before today and the next one is after it. */
  lemma AgeCountsBirthdays(dob: Date, today: Date)
    ensures OnOrBefore(Anniversary(dob, AgeInYears(dob, today)), today)
    ensures Before(today, Anniversary(dob, AgeInYears(dob, today) + 1))
  {
  }

  /** The age is determined by that property: it is the only such count. */
  lemma AgeIsUnique(dob: Date, today: Date, n: int)
    requires OnOrBefore(Anniversary(dob, n), today)
    requires Before(today, Anniversary(dob, n + 1))
    ensures n == AgeInYears(dob, today)
  {
  }

  /** Someone born on or before today has a non-negative age. */
  lemma AgeNonNegative(dob: Date, today: Date)
    requires OnOrBefore(dob, today)
    ensures AgeInYears(dob, today) >= 0
  {
  }

  /** The age never moves backwards as today advances. */
  lemma AgeMonotone(dob: Date, d1: Date, d2: Date)
    requires OnOrBefore(d1, d2)
    ensures AgeInYears(dob, d1) <= AgeInYears(dob, d2)
  {
  }
}
