/** The Data Explorer page: the CSV's records (with only a `Date` added) and a
    year and zone filter in which an empty selection means "everything". */
module DataExplorer {
  import opened Common
  import opened Records

  function YearIn(years: seq<int>): RawRecord -> bool { (r: RawRecord) => r.year in years }
  function ZoneIn(zones: seq<string>): RawRecord -> bool { (r: RawRecord) => r.zone in zones }
  function YearAndZoneIn(years: seq<int>, zones: seq<string>): RawRecord -> bool
  {
    (r: RawRecord) => r.year in years && r.zone in zones
  }

  /** The page's if/elif chain: one of four masks, chosen by which lists are non-empty. */
  function DataFilter(df: seq<RawRecord>, years: seq<int>, zones: seq<string>): seq<RawRecord>
  {
    if |years| > 0 && |zones| > 0 then Where(df, YearAndZoneIn(years, zones))
    else if |years| > 0 then Where(df, YearIn(years))
    else if |zones| > 0 then Where(df, ZoneIn(zones))
    else df
  }

  /** An empty list does not filter its column. */
  predicate Selected(r: RawRecord, years: seq<int>, zones: seq<string>)
  {
    (|years| == 0 || r.year in years) && (|zones| == 0 || r.zone in zones)
  }

  /** The four branches are one mask: a record is kept exactly when each
      list is empty or holds the record's value. */
  lemma DataFilterIsOneMask(df: seq<RawRecord>, years: seq<int>, zones: seq<string>)
    ensures DataFilter(df, years, zones) == Where(df, (r: RawRecord) => Selected(r, years, zones))
  {
    var sel := (r: RawRecord) => Selected(r, years, zones);
    if |years| > 0 && |zones| > 0 {
      WhereCongruent(df, YearAndZoneIn(years, zones), sel);
    } else if |years| > 0 {
      WhereCongruent(df, YearIn(years), sel);
    } else if |zones| > 0 {
      WhereCongruent(df, ZoneIn(zones), sel);
    } else {
      WhereAll(df, sel);
    }
  }

  /** With nothing selected the table is shown unchanged. */
  lemma NoSelectionKeepsAll(df: seq<RawRecord>)
    ensures DataFilter(df, [], []) == df
  {
  }

  /** The result keeps exactly the selected records, in their original order. */
  lemma DataFilterSpec(df: seq<RawRecord>, years: seq<int>, zones: seq<string>)
    ensures IsSubsequence(DataFilter(df, years, zones), df)
    ensures forall r :: r in DataFilter(df, years, zones) <==> r in df && Selected(r, years, zones)
    ensures forall r :: multiset(DataFilter(df, years, zones))[r] == if Selected(r, years, zones) then multiset(df)[r] else 0
  {
    DataFilterIsOneMask(df, years, zones);
    WhereIsSubsequence(df, (r: RawRecord) => Selected(r, years, zones));
    WhereCount(df, (r: RawRecord) => Selected(r, years, zones));
  }

  /** Filtering the shown table again with the same selections changes nothing. */
  lemma DataFilterIdempotent(df: seq<RawRecord>, years: seq<int>, zones: seq<string>)
    ensures DataFilter(DataFilter(df, years, zones), years, zones) == DataFilter(df, years, zones)
  {
    var sel := (r: RawRecord) => Selected(r, years, zones);
    DataFilterIsOneMask(df, years, zones);
    DataFilterIsOneMask(DataFilter(df, years, zones), years, zones);
    WhereIdempotent(df, sel);
  }
}
