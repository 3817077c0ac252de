/** The dashboards' `groupby(...).agg(...)` tables. The money columns
    (revenue, expenditure, collection, billing, net revenue) are summed, the
    percentage columns (collection efficiency, O&M coverage) averaged, and
    ratios are recomputed from the summed numerator and denominator. */
module Aggregation {
  import opened Common
  import opened Keys
  import opened Grouping
  import opened Records
  import opened Tables
  import opened DateAssembly

  /** What a group accumulates: the sums of the money columns, and the sum
      and row count behind each averaged column. */
  datatype Totals = Totals(
    revenue: real, expenditure: real, collection: real, billing: real,
    netRevenue: real, efficiencySum: real, coverageSum: real, count: nat)

  /** One row's contribution. */
  function Single(r: Row): Totals
  {
    Totals(r.revenue, r.expenditure, r.collection, r.billing, r.netRevenue, r.efficiency, r.coverage, 1)
  }

  function Add(a: Totals, b: Totals): Totals
  {
    Totals(a.revenue + b.revenue, a.expenditure + b.expenditure,
           a.collection + b.collection, a.billing + b.billing,
           a.netRevenue + b.netRevenue, a.efficiencySum + b.efficiencySum,
           a.coverageSum + b.coverageSum, a.count + b.count)
  }

  const Zero := Totals(0.0, 0.0, 0.0, 0.0, 0.0, 0.0, 0.0, 0)

  lemma AddMonoid()
    ensures IsCommutativeMonoid(Add, Zero)
  {
  }

  /** The column sums and row count of a table. */
  function TotalsOf(t: seq<Row>): Totals
  {
    Totals(Total(t, Revenue), Total(t, Expenditure), Total(t, Collection), Total(t, Billing),
           Total(t, NetRevenue), Total(t, Efficiency), Total(t, Coverage), |t|)
  }

  /** The mean behind an accumulated sum; a group is never empty. */
  function MeanOf(sum: real, count: nat): real
  {
    if count == 0 then 0.0 else sum / count as real
  }

  /** The group-by entries of a table: each row's key and contribution. */
  function Entries(t: seq<Row>, key: Row -> Key): seq<(Key, Totals)>
  {
    if t == [] then [] else [(key(t[0]), Single(t[0]))] + Entries(t[1..], key)
  }

  /** `groupby(key).agg(...)`: one group per distinct key, ascending. */
  function Aggregate(t: seq<Row>, key: Row -> Key): seq<Group<Totals>>
  {
    GroupBy(Entries(t, key), Add)
  }

  lemma {:induction false} EntriesSum(t: seq<Row>, key: Row -> Key, p: Key -> bool, m: Row -> bool)
    requires forall r :: r in t ==> m(r) == p(key(r))
    ensures SumEntries(Entries(t, key), p, Add, Zero) == TotalsOf(Where(t, m))
  {
    if t != [] {
      var es := Entries(t, key);
      assert es[0] == (key(t[0]), Single(t[0])) && es[1..] == Entries(t[1..], key);
      assert forall r :: r in t[1..] ==> r in t;
      EntriesSum(t[1..], key, p, m);
      if m(t[0]) {
        var w := Where(t[1..], m);
        assert ([t[0]] + w)[1..] == w;
      }
    }
  }

  lemma {:induction false} EntriesKeys(t: seq<Row>, key: Row -> Key)
    ensures EntryKeys(Entries(t, key)) == set r | r in t :: key(r)
  {
    if t != [] {
      var es := Entries(t, key);
      EntriesKeys(t[1..], key);
      assert es == [es[0]] + es[1..] && es[1..] == Entries(t[1..], key);
      assert EntryKeys(es) == {key(t[0])} + EntryKeys(es[1..]);
      assert t == [t[0]] + t[1..];
      assert (set r | r in t :: key(r)) == {key(t[0])} + (set r | r in t[1..] :: key(r));
    }
  }

  lemma {:induction false} EntriesKeepInvariant(t: seq<Row>, key: Row -> Key, inv: Totals -> bool)
    requires forall r :: r in t ==> inv(Single(r))
    ensures forall e :: e in Entries(t, key) ==> inv(e.1)
  {
    if t != [] {
      assert forall r :: r in t[1..] ==> r in t;
      EntriesKeepInvariant(t[1..], key, inv);
    }
  }

  lemma {:induction false} EntriesCongruent(t: seq<Row>, k1: Row -> Key, k2: Row -> Key)
    requires forall r :: r in t ==> k1(r) == k2(r)
    ensures Entries(t, k1) == Entries(t, k2)
  {
    if t != [] {
      assert forall r :: r in t[1..] ==> r in t;
      EntriesCongruent(t[1..], k1, k2);
    }
  }

  /** One group per distinct key of the table, in strictly ascending key order. */
  lemma AggregateSpec(t: seq<Row>, key: Row -> Key)
    ensures StrictlySorted(Aggregate(t, key))
    ensures KeysOf(Aggregate(t, key)) == set r | r in t :: key(r)
  {
    GroupBySpec(Entries(t, key), Add);
    EntriesKeys(t, key);
  }

  lemma GroupHasRow(t: seq<Row>, key: Row -> Key, i: nat)
    requires i < |Aggregate(t, key)|
    ensures exists r :: r in t && key(r) == Aggregate(t, key)[i].key
  {
    var gs := Aggregate(t, key);
    AggregateSpec(t, key);
    assert gs[i] in gs;
    assert gs[i].key in KeysOf(gs);
  }

  lemma RowHasGroup(t: seq<Row>, key: Row -> Key, r: Row)
    requires r in t
    ensures exists i :: 0 <= i < |Aggregate(t, key)| && Aggregate(t, key)[i].key == key(r)
  {
    var gs := Aggregate(t, key);
    AggregateSpec(t, key);
    assert key(r) in set x | x in t :: key(x);
    assert key(r) in KeysOf(gs);
    var g :| g in gs && g.key == key(r);
    var i :| 0 <= i < |gs| && gs[i] == g;
  }

  /** Each group holds the sums over exactly the rows with its key (`m`
      selects them), and it has at least one row. */
  lemma AggregateGroup(t: seq<Row>, key: Row -> Key, i: nat, m: Row -> bool)
    requires i < |Aggregate(t, key)|
    requires forall r :: r in t ==> m(r) == (key(r) == Aggregate(t, key)[i].key)
    ensures Aggregate(t, key)[i].value == TotalsOf(Where(t, m))
    ensures |Where(t, m)| > 0
  {
    var gs := Aggregate(t, key);
    var k := gs[i].key;
    AddMonoid();
    var p := (x: Key) => x == k;
    GroupByLookup(Entries(t, key), Add, Zero, i, p);
    EntriesSum(t, key, p, m);
    GroupHasRow(t, key, i);
    var r :| r in t && key(r) == k;
    assert r in Where(t, m);
  }

  /** The groups whose key satisfies `p` hold, together, the sums over the
      rows whose key satisfies `p`: totals agree across granularities. */
  lemma AggregateSum(t: seq<Row>, key: Row -> Key, p: Key -> bool, m: Row -> bool)
    requires forall r :: r in t ==> m(r) == p(key(r))
    ensures SumGroups(Aggregate(t, key), p, Add, Zero) == TotalsOf(Where(t, m))
  {
    AddMonoid();
    GroupBySum(Entries(t, key), Add, Zero, p);
    EntriesSum(t, key, p, m);
  }

  /** Aggregation loses and duplicates nothing: all groups together hold the
      table's totals. */
  lemma AggregateKeepsTotals(t: seq<Row>, key: Row -> Key)
    ensures SumGroups(Aggregate(t, key), _ => true, Add, Zero) == TotalsOf(t)
  {
    AggregateSum(t, key, _ => true, _ => true);
    WhereAll(t, (_: Row) => true);
  }

  /** Every group's summed `Net_Revenue` is its summed revenue minus its
      summed expenditure. */
  lemma AggregateNet(t: seq<Row>, key: Row -> Key)
    requires WellFormed(t)
    ensures forall g :: g in Aggregate(t, key) ==> g.value.netRevenue == g.value.revenue - g.value.expenditure
  {
    var inv := (v: Totals) => v.netRevenue == v.revenue - v.expenditure;
    EntriesKeepInvariant(t, key, inv);
    GroupByKeepsInvariant(Entries(t, key), Add, inv);
  }

  // The group keys of the dashboards, outermost level first.

  /** `['Date', 'Zone']`. */
  function DateZoneKey(r: Row): Key { [Num(r.date.year), Num(r.date.month), Num(r.date.day), Text(r.zone)] }
  /** Home's `[Date.to_period('Q'), 'Zone']`. */
  function PeriodZoneKey(r: Row): Key { [Num(r.date.year), Num((r.date.month - 1) / 3 + 1), Text(r.zone)] }
  /** `['Year', 'Quarter', 'Zone']`. */
  function QuarterZoneKey(r: Row): Key { [Num(r.year), Num(r.quarter), Text(r.zone)] }
  /** `['Year', 'Zone']`. */
  function YearZoneKey(r: Row): Key { [Num(r.year), Text(r.zone)] }
  /** `['Year', 'Month']`. */
  function YearMonthKey(r: Row): Key { [Num(r.year), Num(r.month)] }
  /** `'Zone'`. */
  function ZoneKey(r: Row): Key { [Text(r.zone)] }
  /** `['Zone', 'Year']`. */
  function ZoneYearKey(r: Row): Key { [Text(r.zone), Num(r.year)] }
  /** `'Year'`. */
  function YearKey(r: Row): Key { [Num(r.year)] }

  /** The website's Zone x Year revenue bars, `groupby(['Zone', 'Year'])`:
      one bar per (zone, year) pair of the table, ordered by zone and then
      year, each the revenue summed over that pair's rows (`m` selects them). */
  lemma ZoneYearSums(t: seq<Row>, i: nat, m: Row -> bool)
    requires i < |Aggregate(t, ZoneYearKey)|
    requires forall r :: r in t ==> m(r) == (ZoneYearKey(r) == Aggregate(t, ZoneYearKey)[i].key)
    ensures StrictlySorted(Aggregate(t, ZoneYearKey))
    ensures KeysOf(Aggregate(t, ZoneYearKey)) == set r | r in t :: [Text(r.zone), Num(r.year)]
    ensures Aggregate(t, ZoneYearKey)[i].value.revenue == Total(Where(t, m), Revenue)
  {
    AggregateSpec(t, ZoneYearKey);
    AggregateGroup(t, ZoneYearKey, i, m);
  }

  /** The aggregation level picked in the sidebar. */
  datatype Level = Monthly | Quarterly | Yearly

  /** The keys of the website and trends pages' `agg_df`. */
  function LevelKey(level: Level): Row -> Key
  {
    match level
    case Monthly => DateZoneKey
    case Quarterly => QuarterZoneKey
    case Yearly => YearZoneKey
  }

  /** The keys of Home's `chart_df`, whose quarters are periods of `Date`. */
  function HomeLevelKey(level: Level): Row -> Key
  {
    match level
    case Monthly => DateZoneKey
    case Quarterly => PeriodZoneKey
    case Yearly => YearZoneKey
  }

  /** On a loaded table Home's quarters are the `Quarter` column's, so Home
      and the other pages aggregate alike at every level. */
  lemma HomeLevelsAgree(t: seq<Row>, level: Level)
    requires WellFormed(t)
    ensures Aggregate(t, HomeLevelKey(level)) == Aggregate(t, LevelKey(level))
  {
    forall r | r in t ensures HomeLevelKey(level)(r) == LevelKey(level)(r) {
      assert r.date == Date(r.year, r.month, 1) && InQuarter(r.month, r.quarter);
      assert (r.month - 1) / 3 == r.quarter - 1;
    }
    EntriesCongruent(t, HomeLevelKey(level), LevelKey(level));
  }

  /** Home's quarterly x value: `Period.start_time`, the quarter's first day. */
  function QuarterStart(year: int, quarter: int): Date
  {
    Date(year, 3 * quarter - 2, 1)
  }

  /** The website and trends pages' quarterly x value: month `Quarter * 3`. */
  function QuarterDateMonth(quarter: int): int
  {
    quarter * 3
  }

  /** The yearly x value, `pd.to_datetime(Year, format='%Y')`: January 1. */
  function YearStart(year: int): Date
  {
    Date(year, 1, 1)
  }

  /** Every Quarterly group names a quarter 1..4; the website/trends month
      `Quarter * 3` is one of 3, 6, 9, 12 and no earlier than any month of the
      group, while Home's quarter start is no later than any row of it. */
  lemma QuarterGroupDates(t: seq<Row>, i: nat)
    requires WellFormed(t)
    requires i < |Aggregate(t, QuarterZoneKey)|
    ensures var k := Aggregate(t, QuarterZoneKey)[i].key;
      && |k| == 3 && k[0].Num? && k[1].Num? && 1 <= k[1].n <= 4
      && QuarterDateMonth(k[1].n) in {3, 6, 9, 12}
      && forall r :: r in t && QuarterZoneKey(r) == k ==>
           r.month <= QuarterDateMonth(k[1].n) && DateLe(QuarterStart(k[0].n, k[1].n), r.date)
  {
    var k := Aggregate(t, QuarterZoneKey)[i].key;
    GroupHasRow(t, QuarterZoneKey, i);
    var r0 :| r0 in t && QuarterZoneKey(r0) == k;
    assert InQuarter(r0.month, r0.quarter);
  }

  /** With the date assembly corrected, every Quarterly group gets day 1 of
      its quarter's last month as its x value. */
  lemma QuarterGroupAssembles(t: seq<Row>, i: nat)
    requires WellFormed(t)
    requires i < |Aggregate(t, QuarterZoneKey)|
    ensures var k := Aggregate(t, QuarterZoneKey)[i].key;
      |k| == 3 && k[0].Num? && k[1].Num? &&
      QuarterDate(k[0].n, k[1].n) == Some(Date(k[0].n, QuarterDateMonth(k[1].n), 1))
  {
    var k := Aggregate(t, QuarterZoneKey)[i].key;
    QuarterGroupDates(t, i);
    QuarterDateSpec(k[0].n, k[1].n);
  }

  /** Every Yearly group's x value, January 1 of its year, is no later than
      any of its rows. */
  lemma YearGroupDates(t: seq<Row>, i: nat)
    requires WellFormed(t)
    requires i < |Aggregate(t, YearZoneKey)|
    ensures var k := Aggregate(t, YearZoneKey)[i].key;
      && |k| == 2 && k[0].Num?
      && forall r :: r in t && YearZoneKey(r) == k ==> DateLe(YearStart(k[0].n), r.date) && r.date.year == k[0].n
  {
    GroupHasRow(t, YearZoneKey, i);
  }

  /** A zone-year's Monthly sums add up to its Yearly row (`p` selects that
      zone-year's monthly keys). */
  lemma MonthlyRollsUpToYearly(t: seq<Row>, i: nat, p: Key -> bool)
    requires WellFormed(t)
    requires i < |Aggregate(t, YearZoneKey)|
    requires forall k :: p(k) == (|k| == 4 && [k[0], k[3]] == Aggregate(t, YearZoneKey)[i].key)
    ensures SumGroups(Aggregate(t, DateZoneKey), p, Add, Zero) == Aggregate(t, YearZoneKey)[i].value
  {
    var k := Aggregate(t, YearZoneKey)[i].key;
    var m := (r: Row) => YearZoneKey(r) == k;
    forall r | r in t ensures m(r) == p(DateZoneKey(r)) {
      assert [DateZoneKey(r)[0], DateZoneKey(r)[3]] == YearZoneKey(r);
    }
    AggregateSum(t, DateZoneKey, p, m);
    AggregateGroup(t, YearZoneKey, i, m);
  }

  /** A zone-year's Quarterly sums add up to its Yearly row. */
  lemma QuarterlyRollsUpToYearly(t: seq<Row>, i: nat, p: Key -> bool)
    requires i < |Aggregate(t, YearZoneKey)|
    requires forall k :: p(k) == (|k| == 3 && [k[0], k[2]] == Aggregate(t, YearZoneKey)[i].key)
    ensures SumGroups(Aggregate(t, QuarterZoneKey), p, Add, Zero) == Aggregate(t, YearZoneKey)[i].value
  {
    var k := Aggregate(t, YearZoneKey)[i].key;
    var m := (r: Row) => YearZoneKey(r) == k;
    forall r | r in t ensures m(r) == p(QuarterZoneKey(r)) {
      assert [QuarterZoneKey(r)[0], QuarterZoneKey(r)[2]] == YearZoneKey(r);
    }
    AggregateSum(t, QuarterZoneKey, p, m);
    AggregateGroup(t, YearZoneKey, i, m);
  }

  /** Summed collection over summed billing, as a percentage; pandas gives
      NaN or inf (here `None`) for a zero denominator. */
  function RatioPercent(num: real, den: real): (r: Option<real>)
    ensures r.None? <==> den == 0.0
    ensures r.Some? ==> r.value * den == num * 100.0
  {
    if den == 0.0 then None else Some(num / den * 100.0)
  }

  /** One row of `zone_metrics`. */
  datatype ZoneMetric = ZoneMetric(
    zone: string, revenue: real, expenditure: real,
    efficiency: real,  // mean Collection Efficiency
    coverage: real,    // mean O&M Cost Coverage
    collection: real, billing: real,
    netRevenue: real, collectionRate: Option<real>)

  /** The zone of a group key: its last level. */
  function KeyZone(k: Key): string
  {
    if |k| > 0 && k[|k| - 1].Text? then k[|k| - 1].s else ""
  }

  function MetricOf(g: Group<Totals>): ZoneMetric
  {
    var v := g.value;
    ZoneMetric(KeyZone(g.key), v.revenue, v.expenditure,
               MeanOf(v.efficiencySum, v.count), MeanOf(v.coverageSum, v.count),
               v.collection, v.billing, v.revenue - v.expenditure,
               RatioPercent(v.collection, v.billing))
  }

  /** `zone_metrics`: `groupby('Zone')` with Net Revenue and Collection Rate
      recomputed from the sums. */
  function ZoneMetrics(t: seq<Row>): (zm: seq<ZoneMetric>)
    ensures |zm| == |Aggregate(t, ZoneKey)|
    ensures forall i :: 0 <= i < |zm| ==> zm[i] == MetricOf(Aggregate(t, ZoneKey)[i])
  {
    var gs := Aggregate(t, ZoneKey);
    seq(|gs|, i requires 0 <= i < |gs| => MetricOf(gs[i]))
  }

  /** The zone metric at `i` is keyed by its zone, which some row has. */
  lemma ZoneMetricKey(t: seq<Row>, i: nat)
    requires i < |ZoneMetrics(t)|
    ensures Aggregate(t, ZoneKey)[i].key == [Text(ZoneMetrics(t)[i].zone)]
    ensures exists r :: r in t && r.zone == ZoneMetrics(t)[i].zone
  {
    GroupHasRow(t, ZoneKey, i);
  }

  /** `zone_metrics` is in strictly ascending zone order, so no zone
      appears twice. */
  lemma ZoneMetricsSorted(t: seq<Row>, i: nat, j: nat)
    requires i < j < |ZoneMetrics(t)|
    ensures StrLess(ZoneMetrics(t)[i].zone, ZoneMetrics(t)[j].zone)
  {
    var gs := Aggregate(t, ZoneKey);
    AggregateSpec(t, ZoneKey);
    ZoneMetricKey(t, i);
    ZoneMetricKey(t, j);
    assert KeyLess(gs[i].key, gs[j].key);
    KeyLessText(ZoneMetrics(t)[i].zone, ZoneMetrics(t)[j].zone);
  }

  /** Every zone of the table has a row in `zone_metrics`. */
  lemma ZoneMetricsCover(t: seq<Row>, r: Row)
    requires r in t
    ensures exists i :: 0 <= i < |ZoneMetrics(t)| && ZoneMetrics(t)[i].zone == r.zone
  {
    var gs := Aggregate(t, ZoneKey);
    RowHasGroup(t, ZoneKey, r);
    var i :| 0 <= i < |gs| && gs[i].key == ZoneKey(r);
    assert ZoneMetrics(t)[i].zone == r.zone;
  }

  /** A zone's metrics are its rows' sums and means (`m` selects its rows);
      Collection Rate comes from the summed collection and billing, not the
      mean of the per-row rates, and Net Revenue from the sums equals the sum
      of the rows' `Net_Revenue`. */
  lemma ZoneMetricValues(t: seq<Row>, i: nat, m: Row -> bool)
    requires WellFormed(t)
    requires i < |ZoneMetrics(t)|
    requires forall r :: r in t ==> m(r) == (r.zone == ZoneMetrics(t)[i].zone)
    ensures var z := ZoneMetrics(t)[i]; var w := Where(t, m);
      && z.revenue == Total(w, Revenue) && z.expenditure == Total(w, Expenditure)
      && z.collection == Total(w, Collection) && z.billing == Total(w, Billing)
      && Mean(w, Efficiency) == Some(z.efficiency) && Mean(w, Coverage) == Some(z.coverage)
      && z.netRevenue == Total(w, NetRevenue)
      && z.collectionRate == RatioPercent(Total(w, Collection), Total(w, Billing))
  {
    var gs := Aggregate(t, ZoneKey);
    ZoneMetricKey(t, i);
    forall r | r in t ensures m(r) == (ZoneKey(r) == gs[i].key) {
    }
    AggregateGroup(t, ZoneKey, i, m);
    AggregateNet(t, ZoneKey);
    assert gs[i] in gs;
  }

  /** The columns shown for the metric focus picked on the Home page. */
  const ZoneMetricColumns: seq<string> := [
    "Total Operating Revenues", "Total Operating Expenditures",
    "Collection Efficiency", "Operation & Maintenance Cost Coverage",
    "Total Collection", "Total Billing", "Net Revenue", "Collection Rate"]

  function DisplayMetrics(focus: string): (cols: seq<string>)
    ensures forall c :: c in cols ==> c in ZoneMetricColumns
    ensures focus == "Revenue" ==> cols == ["Total Operating Revenues", "Total Operating Expenditures", "Net Revenue"]
    ensures focus == "Efficiency" ==> cols == ["Collection Efficiency", "Operation & Maintenance Cost Coverage"]
    ensures focus == "Collection" ==> cols == ["Total Collection", "Total Billing", "Collection Rate"]
    ensures focus !in {"Revenue", "Efficiency", "Collection"} ==> cols == ZoneMetricColumns
  {
    if focus == "Revenue" then ["Total Operating Revenues", "Total Operating Expenditures", "Net Revenue"]
    else if focus == "Efficiency" then ["Collection Efficiency", "Operation & Maintenance Cost Coverage"]
    else if focus == "Collection" then ["Total Collection", "Total Billing", "Collection Rate"]
    else ZoneMetricColumns
  }

  /** One row of the main dashboard's `monthly_data`. */
  datatype MonthRow = MonthRow(date: Date, revenue: real, expenditure: real, efficiency: real, netRevenue: real)

  function MonthRowOf(g: Group<Totals>): MonthRow
  {
    var y := if |g.key| == 2 && g.key[0].Num? then g.key[0].n else 0;
    var mo := if |g.key| == 2 && g.key[1].Num? then g.key[1].n else 0;
    MonthRow(Date(y, mo, 1), g.value.revenue, g.value.expenditure,
             MeanOf(g.value.efficiencySum, g.value.count), g.value.revenue - g.value.expenditure)
  }

  /** `monthly_data`: `groupby(['Year', 'Month'])` across all zones, dated
      day 1 of the month, with Net Revenue from the sums. */
  function MonthlyData(t: seq<Row>): (md: seq<MonthRow>)
    ensures |md| == |Aggregate(t, YearMonthKey)|
    ensures forall i :: 0 <= i < |md| ==> md[i] == MonthRowOf(Aggregate(t, YearMonthKey)[i])
  {
    var gs := Aggregate(t, YearMonthKey);
    seq(|gs|, i requires 0 <= i < |gs| => MonthRowOf(gs[i]))
  }

  predicate DateLess(a: Date, b: Date)
  {
    DateLe(a, b) && a != b
  }

  /** The month row at `i` is keyed by its date's year and month, which some row has. */
  lemma MonthRowKey(t: seq<Row>, i: nat)
    requires WellFormed(t)
    requires i < |MonthlyData(t)|
    ensures Aggregate(t, YearMonthKey)[i].key == [Num(MonthlyData(t)[i].date.year), Num(MonthlyData(t)[i].date.month)]
    ensures MonthlyData(t)[i].date.day == 1
    ensures exists r :: r in t && r.date == MonthlyData(t)[i].date
  {
    GroupHasRow(t, YearMonthKey, i);
  }

  /** A month row holds that month's sums over all zones (`m` selects its
      rows), the mean efficiency, and Net Revenue from the sums. */
  lemma MonthRowValues(t: seq<Row>, i: nat, m: Row -> bool)
    requires i < |MonthlyData(t)|
    requires forall r :: r in t ==> m(r) == (YearMonthKey(r) == Aggregate(t, YearMonthKey)[i].key)
    ensures var x := MonthlyData(t)[i]; var w := Where(t, m);
      && x.revenue == Total(w, Revenue) && x.expenditure == Total(w, Expenditure)
      && Mean(w, Efficiency) == Some(x.efficiency)
      && x.netRevenue == Total(w, Revenue) - Total(w, Expenditure)
  {
    AggregateGroup(t, YearMonthKey, i, m);
  }

  /** `monthly_data` has one row per month of the table, dates strictly
      ascending. */
  lemma MonthlyDataSpec(t: seq<Row>)
    requires WellFormed(t)
    ensures forall i, j :: 0 <= i < j < |MonthlyData(t)| ==> DateLess(MonthlyData(t)[i].date, MonthlyData(t)[j].date)
    ensures forall r :: r in t ==> exists i :: 0 <= i < |MonthlyData(t)| && MonthlyData(t)[i].date == r.date
    ensures forall i :: 0 <= i < |MonthlyData(t)| ==> exists r :: r in t && r.date == MonthlyData(t)[i].date
  {
    var gs := Aggregate(t, YearMonthKey);
    var md := MonthlyData(t);
    AggregateSpec(t, YearMonthKey);
    forall i | 0 <= i < |md| ensures exists r :: r in t && r.date == md[i].date {
      MonthRowKey(t, i);
    }
    forall i, j | 0 <= i < j < |md| ensures DateLess(md[i].date, md[j].date) {
      MonthRowKey(t, i);
      MonthRowKey(t, j);
      var a, b := md[i].date, md[j].date;
      assert KeyLess(gs[i].key, gs[j].key);
      KeyLessCons(Num(a.year), [Num(a.month)], Num(b.year), [Num(b.month)]);
      assert [Num(a.year), Num(a.month)] == [Num(a.year)] + [Num(a.month)];
      assert [Num(b.year), Num(b.month)] == [Num(b.year)] + [Num(b.month)];
      KeyLessNum(a.month, b.month);
    }
    forall r | r in t ensures exists i :: 0 <= i < |md| && md[i].date == r.date {
      RowHasGroup(t, YearMonthKey, r);
      var i :| 0 <= i < |gs| && gs[i].key == YearMonthKey(r);
      MonthRowKey(t, i);
    }
  }
}
