/** The filter block of the dashboard pages: an inclusive date range, a zone
    list in which the sentinel "All" switches the zone filter off, and a year
    list that filters only when something is selected. The same block appears
    in the Home page, the single-page website dashboard and the main
    dashboard; the trends page drops the year filter, and the website and
    trends pages stop on an empty result. */
module Filters {
  import opened Common
  import opened Records

  /** `len(date_range) == 2` guards the date filter; both bounds are inclusive. */
  predicate InDateRange(r: Row, dateRange: seq<Date>)
  {
    |dateRange| != 2 || (DateLe(dateRange[0], r.date) && DateLe(r.date, dateRange[1]))
  }

  /** `'All' not in selected_zones` guards the zone filter. */
  predicate ZoneSelected(r: Row, zones: seq<string>)
  {
    "All" in zones || r.zone in zones
  }

  /** `if selected_years:` guards the year filter. */
  predicate YearSelected(r: Row, years: seq<int>)
  {
    |years| == 0 || r.year in years
  }

  predicate Keep(r: Row, dateRange: seq<Date>, zones: seq<string>, years: seq<int>)
  {
    InDateRange(r, dateRange) && ZoneSelected(r, zones) && YearSelected(r, years)
  }

  /** The table the filter block leaves, as one mask. */
  function Filtered(df: seq<Row>, dateRange: seq<Date>, zones: seq<string>, years: seq<int>): seq<Row>
  {
    Where(df, r => Keep(r, dateRange, zones, years))
  }

  /** The filter block as the pages run it: `filtered_df` is reassigned once
      per active filter. */
  method ApplyFilters(df: seq<Row>, dateRange: seq<Date>, zones: seq<string>, years: seq<int>)
    returns (filtered: seq<Row>)
    ensures filtered == Filtered(df, dateRange, zones, years)
  {
    var byDate := (r: Row) => InDateRange(r, dateRange);
    var byDateZone := (r: Row) => InDateRange(r, dateRange) && ZoneSelected(r, zones);
    filtered := df;
    if |dateRange| == 2 {
      filtered := Where(filtered, (r: Row) => DateLe(dateRange[0], r.date) && DateLe(r.date, dateRange[1]));
      WhereCongruent(df, (r: Row) => DateLe(dateRange[0], r.date) && DateLe(r.date, dateRange[1]), byDate);
    } else {
      WhereAll(df, byDate);
    }
    assert filtered == Where(df, byDate);
    if "All" !in zones {
      var inZones := (r: Row) => r.zone in zones;
      filtered := Where(filtered, inZones);
      WhereWhere(df, byDate, inZones, byDateZone);
    } else {
      WhereCongruent(df, byDate, byDateZone);
    }
    assert filtered == Where(df, byDateZone);
    var keep := (r: Row) => Keep(r, dateRange, zones, years);
    if |years| > 0 {
      var inYears := (r: Row) => r.year in years;
      filtered := Where(filtered, inYears);
      WhereWhere(df, byDateZone, inYears, keep);
    } else {
      WhereCongruent(df, byDateZone, keep);
    }
  }

  /** The filter keeps exactly the rows that pass all three conditions, in
      their original order. */
  lemma FilterSpec(df: seq<Row>, dateRange: seq<Date>, zones: seq<string>, years: seq<int>)
    ensures IsSubsequence(Filtered(df, dateRange, zones, years), df)
    ensures forall r :: r in Filtered(df, dateRange, zones, years) <==> r in df && Keep(r, dateRange, zones, years)
    ensures forall r :: multiset(Filtered(df, dateRange, zones, years))[r] ==
              if Keep(r, dateRange, zones, years) then multiset(df)[r] else 0
  {
    WhereIsSubsequence(df, r => Keep(r, dateRange, zones, years));
    WhereCount(df, r => Keep(r, dateRange, zones, years));
  }

  /** Filtering the filtered table with the same settings changes nothing. */
  lemma FilterIdempotent(df: seq<Row>, dateRange: seq<Date>, zones: seq<string>, years: seq<int>)
    ensures Filtered(Filtered(df, dateRange, zones, years), dateRange, zones, years)
         == Filtered(df, dateRange, zones, years)
  {
    WhereIdempotent(df, r => Keep(r, dateRange, zones, years));
  }

  /** With fewer or more than two dates picked there is no date filter. */
  lemma NoDateFilterWithoutTwoBounds(df: seq<Row>, dateRange: seq<Date>, zones: seq<string>, years: seq<int>)
    requires |dateRange| != 2
    ensures Filtered(df, dateRange, zones, years) == Where(df, r => ZoneSelected(r, zones) && YearSelected(r, years))
  {
    WhereCongruent(df, r => Keep(r, dateRange, zones, years), r => ZoneSelected(r, zones) && YearSelected(r, years));
  }

  /** Both date bounds are inclusive: a row dated on either bound passes the date filter. */
  lemma DateBoundsInclusive(r: Row, first: Date, last: Date)
    requires DateLe(first, last)
    requires r.date == first || r.date == last
    ensures InDateRange(r, [first, last])
  {
  }

  /** "All" anywhere in the zone list disables the zone filter, whatever else is listed. */
  lemma AllDisablesZoneFilter(df: seq<Row>, dateRange: seq<Date>, zones: seq<string>, years: seq<int>)
    requires "All" in zones
    ensures Filtered(df, dateRange, zones, years) == Where(df, r => InDateRange(r, dateRange) && YearSelected(r, years))
  {
    WhereCongruent(df, r => Keep(r, dateRange, zones, years), r => InDateRange(r, dateRange) && YearSelected(r, years));
  }

  /** An empty zone list keeps no rows. */
  lemma EmptyZonesKeepNothing(df: seq<Row>, dateRange: seq<Date>, years: seq<int>)
    ensures Filtered(df, dateRange, [], years) == []
  {
    WhereNone(df, r => Keep(r, dateRange, [], years));
  }

  /** An empty year list keeps every year. */
  lemma EmptyYearsKeepAllYears(df: seq<Row>, dateRange: seq<Date>, zones: seq<string>)
    ensures Filtered(df, dateRange, zones, []) == Where(df, r => InDateRange(r, dateRange) && ZoneSelected(r, zones))
  {
    WhereCongruent(df, r => Keep(r, dateRange, zones, []), r => InDateRange(r, dateRange) && ZoneSelected(r, zones));
  }

  /** The page's default selections (the full date span, ["All"], every
      year) leave the table unchanged. */
  lemma DefaultSelectionKeepsAll(df: seq<Row>, first: Date, last: Date, years: seq<int>)
    requires forall r :: r in df ==> DateLe(first, r.date) && DateLe(r.date, last) && r.year in years
    ensures Filtered(df, [first, last], ["All"], years) == df
  {
    WhereAll(df, r => Keep(r, [first, last], ["All"], years));
  }

  /** The website and trends pages call `st.stop()` on an empty result, so
      everything after the filter sees at least one row. */
  function StopIfEmpty(t: seq<Row>): (r: Option<seq<Row>>)
    ensures r.None? <==> |t| == 0
    ensures r.Some? ==> r.value == t && |r.value| > 0
  {
    if |t| == 0 then None else Some(t)
  }

  /** The website dashboard's filter block and its empty stop. */
  function WebsiteView(df: seq<Row>, dateRange: seq<Date>, zones: seq<string>, years: seq<int>): (r: Option<seq<Row>>)
    ensures r.None? <==> forall x :: x in df ==> !Keep(x, dateRange, zones, years)
    ensures r.Some? ==> |r.value| > 0 && r.value == Filtered(df, dateRange, zones, years)
  {
    WhereEmpty(df, x => Keep(x, dateRange, zones, years));
    StopIfEmpty(Filtered(df, dateRange, zones, years))
  }

  /** The trends page's filter: date range and zones, no year filter, and the
      empty stop. It is the common filter with an empty year list. */
  function TrendsView(df: seq<Row>, dateRange: seq<Date>, zones: seq<string>): (r: Option<seq<Row>>)
    ensures r.None? <==> forall x :: x in df ==> !(InDateRange(x, dateRange) && ZoneSelected(x, zones))
    ensures r.Some? ==> |r.value| > 0 && r.value == Filtered(df, dateRange, zones, [])
  {
    var t := Where(df, r => InDateRange(r, dateRange) && ZoneSelected(r, zones));
    EmptyYearsKeepAllYears(df, dateRange, zones);
    WhereEmpty(df, x => InDateRange(x, dateRange) && ZoneSelected(x, zones));
    StopIfEmpty(t)
  }

  /** The Home page's drill-down: one zone, or every zone for "All Zones". */
  function DrillDown(t: seq<Row>, selected: string): (r: seq<Row>)
    ensures selected == "All Zones" ==> r == t
    ensures selected != "All Zones" ==> forall x :: x in r <==> x in t && x.zone == selected
  {
    if selected != "All Zones" then Where(t, (r: Row) => r.zone == selected) else t
  }

  lemma DrillDownIsSubsequence(t: seq<Row>, selected: string)
    ensures IsSubsequence(DrillDown(t, selected), t)
  {
    if selected != "All Zones" {
      WhereIsSubsequence(t, (r: Row) => r.zone == selected);
    } else {
      WhereAll(t, (r: Row) => true);
      WhereIsSubsequence(t, (r: Row) => true);
    }
  }
}
