/** Age in whole years, as the registration service computes it
    (App/CustomerService.ts:159-165): the difference of the years, less one
    when today's position in the year comes before the birthday's, where a
    position is `month * 31 + day`. The current date is a parameter. */
module Age {
  import opened Dates

  /** Position of a date within its year under a uniform 31-day month. */
  function Ordinal(d: Date): int
  {
    d.month * 31 + d.day
  }

  /** The calendar reading: `a` falls strictly earlier in the year than `b`. */
  predicate MonthDayBefore(a: Date, b: Date)
  {
    a.month < b.month || (a.month == b.month && a.day < b.day)
  }

  /** This year's birthday has not come yet. */
  predicate BirthdayNotYetReached(birth: Date, today: Date)
  {
    MonthDayBefore(today, birth)
  }

  /** The age of someone born on `birth`, seen on `today`. It is the year
      difference exactly when today's ordinal is not below the birthday's,
      and one less otherwise. */
  function FindAge(birth: Date, today: Date): (age: int)
    ensures age == today.year - birth.year || age == today.year - birth.year - 1
    ensures age == today.year - birth.year <==> Ordinal(today) >= Ordinal(birth)
  {
    var todayOffset := today.month * 31 + today.day;
    var birthOffset := birth.month * 31 + birth.day;
    var preBirthdayCorrection := if todayOffset - birthOffset < 0 then 1 else 0;
    today.year - birth.year - preBirthdayCorrection
  }

  /** With days in 1..31 the ordinal orders dates exactly as the
      lexicographic (month, day) order does. */
  lemma OrdinalMatchesMonthDayOrder(a: Date, b: Date)
    requires Valid(a) && Valid(b)
    ensures Ordinal(a) < Ordinal(b) <==> MonthDayBefore(a, b)
    ensures Ordinal(a) == Ordinal(b) <==> (a.month == b.month && a.day == b.day)
  {
  }

  /** So the correction is the plain "birthday not yet reached" test. */
  lemma FindAgeCountsBirthdays(birth: Date, today: Date)
    requires Valid(birth) && Valid(today)
    ensures FindAge(birth, today) ==
      today.year - birth.year - (if BirthdayNotYetReached(birth, today) then 1 else 0)
  {
    OrdinalMatchesMonthDayOrder(today, birth);
  }

  /** Age is at least `n` exactly when the `n`-th birthday (under the same
      ordinal) has been reached by `today`. */
  lemma AgeAtLeastIffBirthdayReached(birth: Date, today: Date, n: int)
    requires Valid(birth) && Valid(today)
    ensures FindAge(birth, today) >= n <==>
      (today.year > birth.year + n
       || (today.year == birth.year + n && !BirthdayNotYetReached(birth, today)))
  {
    FindAgeCountsBirthdays(birth, today);
  }
}
