/** Calendar dates as the dashboard compares them: `dteday` values and the
    `YYYY-MM-DD` literals of its queries are ordered chronologically, which for
    a (year, month, day) triple is the lexicographic order. */
module Dates {

  datatype Date = Date(year: int, month: int, day: int)

  /** `a <= b` on dates. */
  predicate Le(a: Date, b: Date) {
    a.year < b.year
    || (a.year == b.year && (a.month < b.month || (a.month == b.month && a.day <= b.day)))
  }

  /** `a < b` on dates. */
  predicate Lt(a: Date, b: Date) {
    Le(a, b) && a != b
  }

  /** `lo <= d <= hi`, both ends inclusive. */
  predicate InRange(d: Date, lo: Date, hi: Date) {
    Le(lo, d) && Le(d, hi)
  }

  /** The later of two dates. */
  function Max(a: Date, b: Date): (m: Date)
    ensures Le(a, m) && Le(b, m) && (m == a || m == b)
  {
    if Le(a, b) then b else a
  }

  /** The earlier of two dates. */
  function Min(a: Date, b: Date): (m: Date)
    ensures Le(m, a) && Le(m, b) && (m == a || m == b)
  {
    if Le(a, b) then a else b
  }

  /** `Le` is a total order, as chronological comparison is. */
  lemma LeOrder(a: Date, b: Date, c: Date)
    ensures Le(a, a)
    ensures Le(a, b) && Le(b, a) ==> a == b
    ensures Le(a, b) && Le(b, c) ==> Le(a, c)
    ensures Le(a, b) || Le(b, a)
  {
  }

  /** Being inside two ranges is being inside their intersection. */
  lemma InRangeBoth(d: Date, lo1: Date, hi1: Date, lo2: Date, hi2: Date)
    ensures InRange(d, lo1, hi1) && InRange(d, lo2, hi2) <==> InRange(d, Max(lo1, lo2), Min(hi1, hi2))
  {
  }
}
