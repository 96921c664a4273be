/** The two tables the dashboard reads, as already-typed rows, and the
    inclusive date-range query it runs on both of them. */
module Tables {
  import opened Dates

  /** A row of the daily table (`day_clean.csv`). */
  datatype DayRow = DayRow(dteday: Date, season: string, registered: nat, casual: nat, count_cr: nat)

  /** A row of the hourly table (`hour_clean.csv`); `hours` is the hour of the day. */
  datatype HourRow = HourRow(dteday: Date, hours: nat, season: string, count_cr: nat)

  /** `rows.query('dteday >= "lo" and dteday <= "hi"')`: the rows whose date is
      inside [lo, hi], in their original order. */
  function Filter<R>(rows: seq<R>, date: R -> Date, lo: Date, hi: Date): (r: seq<R>)
    ensures |r| <= |rows|
    ensures forall i :: 0 <= i < |r| ==> InRange(date(r[i]), lo, hi)
    decreases |rows|
  {
    if rows == [] then []
    else
      var n := |rows| - 1;
      Filter(rows[..n], date, lo, hi) + (if InRange(date(rows[n]), lo, hi) then [rows[n]] else [])
  }

  /** Filtering distributes over concatenation, so the kept rows keep their
      relative order. */
  lemma {:induction false} FilterConcat<R>(a: seq<R>, b: seq<R>, date: R -> Date, lo: Date, hi: Date)
    ensures Filter(a + b, date, lo, hi) == Filter(a, date, lo, hi) + Filter(b, date, lo, hi)
    decreases |b|
  {
    if b == [] {
      assert a + b == a;
    } else {
      var n := |b| - 1;
      assert (a + b)[..|a + b| - 1] == a + b[..n];
      assert (a + b)[|a + b| - 1] == b[n];
      FilterConcat(a, b[..n], date, lo, hi);
    }
  }

  /** A row is kept exactly as often as it occurs in the input when its date is
      inside the range, and never otherwise. */
  lemma {:induction false} FilterCount<R>(rows: seq<R>, date: R -> Date, lo: Date, hi: Date, x: R)
    ensures multiset(Filter(rows, date, lo, hi))[x] == if InRange(date(x), lo, hi) then multiset(rows)[x] else 0
    decreases |rows|
  {
    if rows != [] {
      var n := |rows| - 1;
      FilterCount(rows[..n], date, lo, hi, x);
      assert rows == rows[..n] + [rows[n]];
    }
  }

  /** Every row inside the range is kept and nothing else is. */
  lemma FilterMembers<R>(rows: seq<R>, date: R -> Date, lo: Date, hi: Date, x: R)
    ensures x in Filter(rows, date, lo, hi) <==> x in rows && InRange(date(x), lo, hi)
  {
    FilterCount(rows, date, lo, hi, x);
  }

  /** When no row is in range, nothing is selected. */
  lemma FilterNone<R>(rows: seq<R>, date: R -> Date, lo: Date, hi: Date)
    ensures (forall i :: 0 <= i < |rows| ==> !InRange(date(rows[i]), lo, hi)) ==> Filter(rows, date, lo, hi) == []
  {
    var r := Filter(rows, date, lo, hi);
    if r != [] {
      FilterMembers(rows, date, lo, hi, r[0]);
    }
  }

  /** Two successive range queries are one query on the intersected range. */
  lemma {:induction false} FilterTwice<R>(rows: seq<R>, date: R -> Date, lo1: Date, hi1: Date, lo2: Date, hi2: Date)
    ensures Filter(Filter(rows, date, lo1, hi1), date, lo2, hi2) == Filter(rows, date, Max(lo1, lo2), Min(hi1, hi2))
    decreases |rows|
  {
    if rows != [] {
      var n := |rows| - 1;
      var once := Filter(rows[..n], date, lo1, hi1);
      var last := if InRange(date(rows[n]), lo1, hi1) then [rows[n]] else [];
      FilterTwice(rows[..n], date, lo1, hi1, lo2, hi2);
      FilterConcat(once, last, date, lo2, hi2);
      InRangeBoth(date(rows[n]), lo1, hi1, lo2, hi2);
      if last != [] {
        assert last[..0] == [];
      }
    }
  }
}
