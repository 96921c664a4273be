/** The data-shaping part of the bike-sharing dashboard: one pass from the two
    loaded tables and the selected date range to everything the page shows. */
module Dashboard {
  import opened Dates
  import opened Tables
  import opened Grouping
  import opened Ranking
  import opened Thousands

  /** The fixed window of the headline metric, 2011-01-01 .. 2012-12-31. */
  const WindowStart: Date := Date(2011, 1, 1)
  const WindowEnd: Date := Date(2012, 12, 31)

  /** How many seasons and how many hours the charts show. */
  const SeasonsShown: nat := 10
  const HoursShown: nat := 5

  function DayDate(d: DayRow): (r: Date) { d.dteday }
  function DaySeason(d: DayRow): (r: string) { d.season }
  function DayRegistered(d: DayRow): (r: nat) { d.registered }
  function DayCasual(d: DayRow): (r: nat) { d.casual }
  function DayCount(d: DayRow): (r: nat) { d.count_cr }
  function HourDate(h: HourRow): (r: Date) { h.dteday }
  function HourOf(h: HourRow): (r: nat) { h.hours }
  function HourCount(h: HourRow): (r: nat) { h.count_cr }

  /** What one run of the script computes, before any plotting. */
  datatype View = View(
    hourCounts: seq<(nat, nat)>,     // hour -> count_cr over the selected hourly rows
    registeredSum: seq<(Date, nat)>, // date -> registered over the selected daily rows
    casualSum: seq<(Date, nat)>,     // date -> casual over the selected daily rows
    totalSharing: nat,               // headline metric
    totalLabel: string,              // headline metric as displayed
    topSeasons: seq<(string, nat)>,  // season ranking, largest first
    mostRented: seq<(nat, nat)>,     // busiest hours, largest first
    fewestRented: seq<(nat, nat)>)   // quietest hours, smallest first

  /** The headline: the total count of the selected daily rows that also lie
      inside the fixed 2011-2012 window. */
  function Headline(selectedDays: seq<DayRow>): (r: nat)
    ensures r <= SumOf(selectedDays, DayCount)
    ensures (forall i :: 0 <= i < |selectedDays| ==> !InRange(selectedDays[i].dteday, WindowStart, WindowEnd)) ==> r == 0
  {
    var inWindow := Filter(selectedDays, DayDate, WindowStart, WindowEnd);
    FilterSumAtMost(selectedDays, DayDate, WindowStart, WindowEnd, DayCount);
    FilterNone(selectedDays, DayDate, WindowStart, WindowEnd);
    SumOf(inWindow, DayCount)
  }

  /** `groupby("hours")["count_cr"].sum()`: each hour once, and the hour
      totals add up to the rows' total. */
  function HourTotals(hours: seq<HourRow>): (r: seq<(nat, nat)>)
    ensures DistinctKeys(r) && |r| <= |hours|
    ensures Totals(r) == SumOf(hours, HourCount)
  {
    GroupSumConserves(hours, HourOf, HourCount);
    GroupSum(hours, HourOf, HourCount)
  }

  /** `day_df.groupby("season")["count_cr"].sum()`: each season once, and the
      season totals add up to the rows' total. */
  function SeasonTotals(days: seq<DayRow>): (r: seq<(string, nat)>)
    ensures DistinctKeys(r) && |r| <= |days|
    ensures Totals(r) == SumOf(days, DayCount)
  {
    GroupSumConserves(days, DaySeason, DayCount);
    GroupSum(days, DaySeason, DayCount)
  }

  /** The season chart: season totals, largest first, first ten. */
  function TopSeasons(days: seq<DayRow>): (r: seq<(string, nat)>)
    ensures |r| <= SeasonsShown && SortedBy(r, false) && DistinctKeys(r)
  {
    TopGroups(days, DaySeason, DayCount, SeasonsShown, false);
    TopK(SeasonTotals(days), SeasonsShown, false)
  }

  /** All hours of the unfiltered hourly table, busiest first. */
  function HoursRanked(hours: seq<HourRow>): (r: seq<(nat, nat)>)
    ensures SortedBy(r, false)
    ensures multiset(r) == multiset(HourTotals(hours))
  {
    SortByTotal(HourTotals(hours), false)
  }

  /** The busiest-hours chart: the first five of `HoursRanked`. */
  function MostRented(hours: seq<HourRow>): (r: seq<(nat, nat)>)
    ensures |r| <= HoursShown && SortedBy(r, false)
  {
    Take(HoursRanked(hours), HoursShown)
  }

  /** The quietest-hours chart: `HoursRanked` re-sorted smallest first, first five. */
  function FewestRented(hours: seq<HourRow>): (r: seq<(nat, nat)>)
    ensures |r| <= HoursShown && SortedBy(r, true)
  {
    TopK(HoursRanked(hours), HoursShown, true)
  }

  /** One run of the script for the range [start, end]: the headline is at
      most the total of all daily rows, the charts show at most 10 seasons and
      5 hours each, and there are no more hour and date entries than rows. */
  function Render(days: seq<DayRow>, hours: seq<HourRow>, start: Date, end: Date): (v: View)
    ensures v.totalSharing <= SumOf(days, DayCount)
    ensures |v.topSeasons| <= SeasonsShown && |v.mostRented| <= HoursShown && |v.fewestRented| <= HoursShown
    ensures |v.hourCounts| <= |hours| && |v.registeredSum| <= |days| && |v.casualSum| <= |days|
  {
    var mainDay := Filter(days, DayDate, start, end);
    var mainHour := Filter(hours, HourDate, start, end);
    var total := Headline(mainDay);
    FilterSumAtMost(days, DayDate, start, end, DayCount);
    View(
      HourTotals(mainHour),
      GroupSum(mainDay, DayDate, DayRegistered),
      GroupSum(mainDay, DayDate, DayCasual),
      total,
      FormatThousands(total),
      TopSeasons(days),
      MostRented(hours),
      FewestRented(hours))
  }

  /** The per-hour table of the selected range has one entry per hour that
      occurs, each the sum of `count_cr` over that hour's selected rows, and
      together they add up to the selected rows' total. */
  lemma HourCountsCorrect(days: seq<DayRow>, hours: seq<HourRow>, start: Date, end: Date, h: nat)
    ensures var v := Render(days, hours, start, end);
      var mainHour := Filter(hours, HourDate, start, end);
      && DistinctKeys(v.hourCounts)
      && KeySet(v.hourCounts) == (set i | 0 <= i < |mainHour| :: mainHour[i].hours)
      && Lookup(v.hourCounts, h) == SumWhere(mainHour, HourOf, HourCount, h)
      && Totals(v.hourCounts) == SumOf(mainHour, HourCount)
  {
    var mainHour := Filter(hours, HourDate, start, end);
    GroupSumKeys(mainHour, HourOf, HourCount);
    GroupSumTotals(mainHour, HourOf, HourCount, h);
    GroupSumConserves(mainHour, HourOf, HourCount);
  }

  /** Hours of the day are 0..23, so there are at most 24 hour entries. */
  lemma HourCountsAtMost24(days: seq<DayRow>, hours: seq<HourRow>, start: Date, end: Date)
    requires forall i :: 0 <= i < |hours| ==> hours[i].hours < 24
    ensures |Render(days, hours, start, end).hourCounts| <= 24
  {
    var mainHour := Filter(hours, HourDate, start, end);
    forall i | 0 <= i < |mainHour| ensures HourOf(mainHour[i]) < 24 {
      FilterMembers(hours, HourDate, start, end, mainHour[i]);
    }
    GroupSumBounded(mainHour, HourOf, HourCount, 24);
  }

  /** Per-date registered and casual sums of the selected range; with one
      daily row per date they pass the rows through unchanged. */
  lemma DateSumsCorrect(days: seq<DayRow>, hours: seq<HourRow>, start: Date, end: Date, d: Date)
    ensures var v := Render(days, hours, start, end);
      var mainDay := Filter(days, DayDate, start, end);
      && DistinctKeys(v.registeredSum) && DistinctKeys(v.casualSum)
      && KeySet(v.registeredSum) == (set i | 0 <= i < |mainDay| :: mainDay[i].dteday)
      && KeySet(v.casualSum) == (set i | 0 <= i < |mainDay| :: mainDay[i].dteday)
      && Lookup(v.registeredSum, d) == SumWhere(mainDay, DayDate, DayRegistered, d)
      && Lookup(v.casualSum, d) == SumWhere(mainDay, DayDate, DayCasual, d)
      && Totals(v.registeredSum) == SumOf(mainDay, DayRegistered)
      && Totals(v.casualSum) == SumOf(mainDay, DayCasual)
  {
    var mainDay := Filter(days, DayDate, start, end);
    GroupSumKeys(mainDay, DayDate, DayRegistered);
    GroupSumKeys(mainDay, DayDate, DayCasual);
    GroupSumTotals(mainDay, DayDate, DayRegistered, d);
    GroupSumTotals(mainDay, DayDate, DayCasual, d);
    GroupSumConserves(mainDay, DayDate, DayRegistered);
    GroupSumConserves(mainDay, DayDate, DayCasual);
  }

  /** The daily table is in ascending date order, one row per date, which is
      also the order `groupby("dteday")` returns: the per-date sums are then the
      selected rows' own (date, amount) pairs, in ascending date order. */
  lemma DateSumsPassThrough(days: seq<DayRow>, hours: seq<HourRow>, start: Date, end: Date)
    requires forall i, j :: 0 <= i < j < |days| ==> Lt(days[i].dteday, days[j].dteday)
    ensures var v := Render(days, hours, start, end);
      var mainDay := Filter(days, DayDate, start, end);
      && |v.registeredSum| == |mainDay| == |v.casualSum|
      && (forall i :: 0 <= i < |mainDay| ==>
           v.registeredSum[i] == (mainDay[i].dteday, mainDay[i].registered)
           && v.casualSum[i] == (mainDay[i].dteday, mainDay[i].casual))
      && (forall i, j :: 0 <= i < j < |mainDay| ==> Lt(v.registeredSum[i].0, v.registeredSum[j].0))
  {
    var mainDay := Filter(days, DayDate, start, end);
    FilterKeepsAscending(days, start, end);
    forall i, j | 0 <= i < j < |mainDay| ensures DayDate(mainDay[i]) != DayDate(mainDay[j]) {
      assert Lt(mainDay[i].dteday, mainDay[j].dteday);
    }
    GroupSumPassThrough(mainDay, DayDate, DayRegistered);
    GroupSumPassThrough(mainDay, DayDate, DayCasual);
  }

  /** A range query on a table in strictly ascending date order keeps that
      order. */
  lemma {:induction false} FilterKeepsAscending(days: seq<DayRow>, start: Date, end: Date)
    requires forall i, j :: 0 <= i < j < |days| ==> Lt(days[i].dteday, days[j].dteday)
    ensures forall i, j :: 0 <= i < j < |Filter(days, DayDate, start, end)| ==>
      Lt(Filter(days, DayDate, start, end)[i].dteday, Filter(days, DayDate, start, end)[j].dteday)
    decreases |days|
  {
    if days != [] {
      var n := |days| - 1;
      var r := Filter(days[..n], DayDate, start, end);
      FilterKeepsAscending(days[..n], start, end);
      forall i | 0 <= i < |r| ensures Lt(r[i].dteday, days[n].dteday) {
        FilterMembers(days[..n], DayDate, start, end, r[i]);
        var k :| 0 <= k < n && days[..n][k] == r[i];
        assert days[k] == r[i];
      }
    }
  }

  /** A range query selects no more of an amount than the whole table holds. */
  lemma {:induction false} FilterSumAtMost<R>(rows: seq<R>, date: R -> Date, lo: Date, hi: Date, val: R -> nat)
    ensures SumOf(Filter(rows, date, lo, hi), val) <= SumOf(rows, val)
    decreases |rows|
  {
    if rows != [] {
      var n := |rows| - 1;
      var prev := Filter(rows[..n], date, lo, hi);
      var last := if InRange(date(rows[n]), lo, hi) then [rows[n]] else [];
      FilterSumAtMost(rows[..n], date, lo, hi, val);
      assert Filter(rows, date, lo, hi) == prev + last;
      SumOfConcat(prev, last, val);
      assert SumOf(last, val) <= val(rows[n]) by {
        assert [rows[n]][..0] == [];
      }
    }
  }

  /** The headline is the total count of the daily rows inside both the
      selected range and the 2011-2012 window. */
  lemma HeadlineIsWindowTotal(days: seq<DayRow>, hours: seq<HourRow>, start: Date, end: Date)
    ensures Render(days, hours, start, end).totalSharing
         == SumOf(Filter(days, DayDate, Max(start, WindowStart), Min(end, WindowEnd)), DayCount)
  {
    FilterTwice(days, DayDate, start, end, WindowStart, WindowEnd);
  }

  /** Narrowing the selected range never increases the headline. */
  lemma HeadlineMonotone(days: seq<DayRow>, hours: seq<HourRow>, start: Date, end: Date, start': Date, end': Date)
    requires Le(start, start') && Le(end', end)
    ensures Render(days, hours, start', end').totalSharing <= Render(days, hours, start, end).totalSharing
  {
    HeadlineIsWindowTotal(days, hours, start, end);
    HeadlineIsWindowTotal(days, hours, start', end');
    NarrowerSumsLess(days, Max(start, WindowStart), Min(end, WindowEnd), Max(start', WindowStart), Min(end', WindowEnd));
  }

  /** A sub-range selects no more count than the range it lies in. */
  lemma {:induction false} NarrowerSumsLess(days: seq<DayRow>, lo: Date, hi: Date, lo': Date, hi': Date)
    requires Le(lo, lo') && Le(hi', hi)
    ensures SumOf(Filter(days, DayDate, lo', hi'), DayCount) <= SumOf(Filter(days, DayDate, lo, hi), DayCount)
    decreases |days|
  {
    if days != [] {
      var n := |days| - 1;
      var last := days[n];
      var wide := Filter(days[..n], DayDate, lo, hi);
      var narrow := Filter(days[..n], DayDate, lo', hi');
      var wideLast := if InRange(last.dteday, lo, hi) then [last] else [];
      var narrowLast := if InRange(last.dteday, lo', hi') then [last] else [];
      NarrowerSumsLess(days[..n], lo, hi, lo', hi');
      assert Filter(days, DayDate, lo, hi) == wide + wideLast;
      assert Filter(days, DayDate, lo', hi') == narrow + narrowLast;
      SumOfConcat(wide, wideLast, DayCount);
      SumOfConcat(narrow, narrowLast, DayCount);
      assert SumOf(narrowLast, DayCount) <= SumOf(wideLast, DayCount) by {
        assert [last][..0] == [];
        assert SumOf([last], DayCount) == last.count_cr;
      }
    }
  }

  /** The displayed headline is the metric's digits, dot-grouped in threes. */
  lemma HeadlineLabel(days: seq<DayRow>, hours: seq<HourRow>, start: Date, end: Date)
    ensures var v := Render(days, hours, start, end);
      && Grouped(v.totalLabel)
      && RemoveDots(v.totalLabel) == Digits(v.totalSharing)
      && Value(RemoveDots(v.totalLabel)) == v.totalSharing
  {
    var v := Render(days, hours, start, end);
    FormatGrouped(v.totalSharing);
    FormatRoundTrip(v.totalSharing);
    FormatDigits(v.totalSharing);
  }

  /** The season chart: at most 10 seasons, largest total first, every shown
      season at least as large as every season left out, each total the sum
      of `count_cr` over that season's rows of the whole daily table. */
  lemma TopSeasonsCorrect(days: seq<DayRow>)
    ensures var r := TopSeasons(days);
      var all := SeasonTotals(days);
      && |r| == (if |all| < SeasonsShown then |all| else SeasonsShown)
      && SortedBy(r, false)
      && DistinctKeys(r)
      && (forall i :: 0 <= i < |r| ==> r[i].1 == SumWhere(days, DaySeason, DayCount, r[i].0))
      && (forall x, y :: x in r && y in multiset(all) - multiset(r) ==> Before(x, y, false))
  {
    TopGroups(days, DaySeason, DayCount, SeasonsShown, false);
  }

  /** The busiest-hours chart: at most 5 hours, largest total first, every
      shown hour at least as busy as every hour left out, each total the sum
      of `count_cr` over that hour's rows of the whole hourly table. */
  lemma MostRentedCorrect(hours: seq<HourRow>)
    ensures var r := MostRented(hours);
      var all := HourTotals(hours);
      && |r| == (if |all| < HoursShown then |all| else HoursShown)
      && SortedBy(r, false)
      && DistinctKeys(r)
      && (forall i :: 0 <= i < |r| ==> r[i].1 == SumWhere(hours, HourOf, HourCount, r[i].0))
      && (forall x, y :: x in r && y in multiset(all) - multiset(r) ==> Before(x, y, false))
  {
    assert MostRented(hours) == TopK(HourTotals(hours), HoursShown, false);
    TopGroups(hours, HourOf, HourCount, HoursShown, false);
  }

  /** The quietest-hours chart: at most 5 hours, smallest total first, every
      shown hour at most as busy as every hour left out, each total the sum
      of `count_cr` over that hour's rows of the whole hourly table. */
  lemma FewestRentedCorrect(hours: seq<HourRow>)
    ensures var r := FewestRented(hours);
      var all := HourTotals(hours);
      && |r| == (if |all| < HoursShown then |all| else HoursShown)
      && SortedBy(r, true)
      && DistinctKeys(r)
      && (forall i :: 0 <= i < |r| ==> r[i].1 == SumWhere(hours, HourOf, HourCount, r[i].0))
      && (forall x, y :: x in r && y in multiset(all) - multiset(r) ==> Before(x, y, true))
  {
    var ranked := HoursRanked(hours);
    var r := FewestRented(hours);
    assert r == TopK(ranked, HoursShown, true);
    assert multiset(ranked) == multiset(HourTotals(hours));
    KeptGroups(hours, HourOf, HourCount, r);
  }

  /** The season and hour rankings read the unfiltered tables, so the
      selected range does not change them. */
  lemma RankingsIgnoreRange(days: seq<DayRow>, hours: seq<HourRow>, start: Date, end: Date, start': Date, end': Date)
    ensures var v := Render(days, hours, start, end);
      var v' := Render(days, hours, start', end');
      && v.topSeasons == v'.topSeasons == TopSeasons(days)
      && v.mostRented == v'.mostRented == MostRented(hours)
      && v.fewestRented == v'.fewestRented == FewestRented(hours)
  {
  }

  /** Two daily rows of 100 and 150 and the range 2011-01-01 .. 2011-01-01:
      one row is selected and the headline, which only sums selected rows,
      is 100 rather than the 250 of both rows. */
  lemma HeadlineFollowsRange()
    ensures var days := [DayRow(Date(2011, 1, 1), "Spring", 60, 40, 100), DayRow(Date(2011, 1, 2), "Spring", 100, 50, 150)];
      var v := Render(days, [], Date(2011, 1, 1), Date(2011, 1, 1));
      && |Filter(days, DayDate, Date(2011, 1, 1), Date(2011, 1, 1))| == 1
      && v.totalSharing == 100
      && v.totalLabel == "100"
  {
    var days := [DayRow(Date(2011, 1, 1), "Spring", 60, 40, 100), DayRow(Date(2011, 1, 2), "Spring", 100, 50, 150)];
    assert days[..1] == [days[0]] && days[..1][..0] == [];
    var sel := Filter(days, DayDate, Date(2011, 1, 1), Date(2011, 1, 1));
    assert sel == [days[0]];
    assert sel[..0] == [];
    assert Filter(sel, DayDate, WindowStart, WindowEnd) == [days[0]];
    assert SumOf([days[0]], DayCount) == 100;
    assert Headline(sel) == 100;
    assert Render(days, [], Date(2011, 1, 1), Date(2011, 1, 1)).totalSharing == 100;
    assert Digits(100) == "100";
  }

  /** Two hourly rows at hour 5 with counts 10 and 20 give 5 -> 30. */
  lemma HourScenario()
    ensures var hours := [HourRow(Date(2011, 1, 1), 5, "Spring", 10), HourRow(Date(2011, 1, 2), 5, "Spring", 20)];
      Render([], hours, Date(2011, 1, 1), Date(2011, 1, 2)).hourCounts == [(5, 30)]
  {
    var hours := [HourRow(Date(2011, 1, 1), 5, "Spring", 10), HourRow(Date(2011, 1, 2), 5, "Spring", 20)];
    assert hours[..1] == [hours[0]] && hours[..1][..0] == [];
    var sel := Filter(hours, HourDate, Date(2011, 1, 1), Date(2011, 1, 2));
    assert sel == hours;
    assert GroupSum(hours[..1], HourOf, HourCount) == [(5, 10)];
  }
}
