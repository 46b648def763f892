/** Calendar dates as parsed by `pd.to_datetime`, kept as (year, month, day). */
module Dates {

  datatype Date = Date(year: int, month: int, day: int)

  /** Chronological order: lexicographic on (year, month, day). */
  predicate DateLe(a: Date, b: Date) {
    a.year < b.year
    || (a.year == b.year && a.month < b.month)
    || (a.year == b.year && a.month == b.month && a.day <= b.day)
  }
}
