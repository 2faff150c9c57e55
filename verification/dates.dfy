/** The calendar components the registration rules read from a date:
    full year, zero-based month and day of the month, as a JavaScript `Date`
    reports them through `getFullYear`, `getMonth` and `getDate`. */
module Dates {

  datatype Date = Date(year: int, month: int, day: int)

  /** The ranges `getMonth` (0..11) and `getDate` (1..31) can return. */
  predicate Valid(d: Date)
  {
    0 <= d.month < 12 && 1 <= d.day <= 31
  }
}
