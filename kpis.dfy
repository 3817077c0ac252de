/** The KPI block shared by the Home page, the website dashboard and the main
    dashboard, the trend classes of its tiles, and the Home page's insight
    and alert rules. Every KPI reads the filtered table. */
module Kpis {
  import opened Common
  import opened Keys
  import opened Grouping
  import opened Records
  import opened Tables
  import opened Aggregation

  /** `(total_collection / total_billing * 100) if total_billing > 0 else 0`. */
  function CollectionRate(t: seq<Row>): (rate: real)
    ensures Total(t, Billing) > 0.0 ==> rate * Total(t, Billing) == Total(t, Collection) * 100.0
    ensures Total(t, Billing) <= 0.0 ==> rate == 0.0
  {
    var b := Total(t, Billing);
    if b > 0.0 then Total(t, Collection) / b * 100.0 else 0.0
  }

  /** When no row collects more than it bills, nor a negative amount, the
      collection rate is a percentage in 0..100. */
  lemma CollectionRateBounds(t: seq<Row>)
    requires forall r :: r in t ==> 0.0 <= r.collection <= r.billing
    ensures 0.0 <= CollectionRate(t) <= 100.0
  {
    TotalMonotone(t, Collection, Billing);
    TotalNonNegative(t, Collection);
    var b := Total(t, Billing);
    var c := Total(t, Collection);
    if b > 0.0 {
      assert c / b * b == c;
      assert c / b <= 1.0;
    }
  }

  /** `filtered_df['Zone'].nunique()`. */
  function TotalZones(t: seq<Row>): nat
  {
    |Distinct(Zones(t))|
  }

  /** `total_revenue / total_zones if total_zones > 0 else 0`. */
  function AvgRevenuePerZone(t: seq<Row>): (avg: real)
    ensures TotalZones(t) == 0 ==> avg == 0.0
    ensures TotalZones(t) > 0 ==> avg * TotalZones(t) as real == Total(t, Revenue)
  {
    var n := TotalZones(t);
    if n > 0 then Total(t, Revenue) / n as real else 0.0
  }

  /** The average is 0 exactly for the empty table; otherwise it spreads the
      total revenue evenly over the distinct zones. */
  lemma AvgRevenuePerZoneSpec(t: seq<Row>)
    ensures |t| == 0 ==> AvgRevenuePerZone(t) == 0.0
    ensures |t| > 0 ==> TotalZones(t) > 0 && AvgRevenuePerZone(t) * TotalZones(t) as real == Total(t, Revenue)
  {
    if |t| > 0 {
      ZonesOfNonEmpty(t);
    }
  }

  /** The year of a `groupby('Year')` group. */
  function GroupYear(g: Group<Totals>): int
  {
    if |g.key| == 1 && g.key[0].Num? then g.key[0].n else 0
  }

  /** `groupby('Year')[...].sum().iloc[-2]` when there are two years or more, else 0. */
  function PrevPeriodRevenue(t: seq<Row>): real
  {
    var gs := Aggregate(t, YearKey);
    if |gs| > 1 then gs[|gs| - 2].value.revenue else 0.0
  }

  /** The revenue KPI's growth, as written: the TOTAL revenue of the filtered
      table against the second-latest year's revenue. */
  function RevenueGrowth(t: seq<Row>): (g: real)
    ensures |t| <= 1 || PrevPeriodRevenue(t) <= 0.0 ==> g == 0.0
    ensures |t| > 1 && PrevPeriodRevenue(t) > 0.0 ==>
              g * PrevPeriodRevenue(t) == (Total(t, Revenue) - PrevPeriodRevenue(t)) * 100.0
  {
    if |t| > 1 then
      var prev := PrevPeriodRevenue(t);
      if prev > 0.0 then (Total(t, Revenue) - prev) / prev * 100.0 else 0.0
    else 0.0
  }

  /** The group of year groups at `i` is keyed by its year, which some row has. */
  lemma YearGroupKey(t: seq<Row>, i: nat)
    requires i < |Aggregate(t, YearKey)|
    ensures Aggregate(t, YearKey)[i].key == [Num(GroupYear(Aggregate(t, YearKey)[i]))]
    ensures exists r :: r in t && r.year == GroupYear(Aggregate(t, YearKey)[i])
  {
    GroupHasRow(t, YearKey, i);
  }

  /** There are two year groups or more exactly when two rows differ in year. */
  lemma TwoYearGroupsIffTwoYears(t: seq<Row>)
    ensures |Aggregate(t, YearKey)| > 1 <==> exists r, s :: r in t && s in t && r.year != s.year
  {
    var gs := Aggregate(t, YearKey);
    AggregateSpec(t, YearKey);
    if |gs| > 1 {
      YearGroupKey(t, 0);
      YearGroupKey(t, 1);
      assert KeyLess(gs[0].key, gs[1].key);
      KeyLessNum(GroupYear(gs[0]), GroupYear(gs[1]));
    }
    if exists r, s :: r in t && s in t && r.year != s.year {
      var r, s :| r in t && s in t && r.year != s.year;
      RowHasGroup(t, YearKey, r);
      RowHasGroup(t, YearKey, s);
      var i :| 0 <= i < |gs| && gs[i].key == YearKey(r);
      var j :| 0 <= j < |gs| && gs[j].key == YearKey(s);
      assert i != j;
    }
  }

  /** With a single distinct year there is no previous period, and the growth is 0. */
  lemma SingleYearNoGrowth(t: seq<Row>)
    requires forall r, s :: r in t && s in t ==> r.year == s.year
    ensures PrevPeriodRevenue(t) == 0.0 && RevenueGrowth(t) == 0.0
  {
    TwoYearGroupsIffTwoYears(t);
  }

  /** The base of the growth is the revenue of the second-latest year `y` of
      the table, and the latest year `z` is the only one after it. */
  lemma PrevPeriodIsSecondLatestYear(t: seq<Row>)
    requires |Aggregate(t, YearKey)| > 1
    ensures var gs := Aggregate(t, YearKey);
      var y := GroupYear(gs[|gs| - 2]); var z := GroupYear(gs[|gs| - 1]);
      && y < z
      && (exists r :: r in t && r.year == y) && (exists r :: r in t && r.year == z)
      && (forall r :: r in t ==> r.year <= y || r.year == z)
      && PrevPeriodRevenue(t) == Total(Where(t, YearIs(y)), Revenue)
      && LatestYearRevenue(t) == Total(Where(t, YearIs(z)), Revenue)
  {
    var gs := Aggregate(t, YearKey);
    var n := |gs|;
    var y, z := GroupYear(gs[n - 2]), GroupYear(gs[n - 1]);
    AggregateSpec(t, YearKey);
    YearGroupKey(t, n - 2);
    YearGroupKey(t, n - 1);
    assert KeyLess(gs[n - 2].key, gs[n - 1].key);
    KeyLessNum(y, z);
    forall r | r in t ensures r.year <= y || r.year == z {
      RowHasGroup(t, YearKey, r);
      var i :| 0 <= i < n && gs[i].key == YearKey(r);
      if i < n - 2 {
        assert KeyLess(gs[i].key, gs[n - 2].key);
        KeyLessNum(r.year, y);
      }
    }
    AggregateGroup(t, YearKey, n - 2, YearIs(y));
    AggregateGroup(t, YearKey, n - 1, YearIs(z));
  }

  /** The latest year's revenue. */
  function LatestYearRevenue(t: seq<Row>): real
  {
    var gs := Aggregate(t, YearKey);
    if |gs| > 0 then gs[|gs| - 1].value.revenue else 0.0
  }

  /** The growth the revenue tile evidently means: the latest year against
      the previous one, under the same guards. */
  function LatestYearGrowth(t: seq<Row>): (g: real)
    ensures |t| <= 1 || PrevPeriodRevenue(t) <= 0.0 ==> g == 0.0
  {
    if |t| > 1 then
      var prev := PrevPeriodRevenue(t);
      if prev > 0.0 then (LatestYearRevenue(t) - prev) / prev * 100.0 else 0.0
    else 0.0
  }

  /** The corrected growth is positive, zero or negative exactly as the latest
      year's revenue is above, equal to or below the previous year's. */
  lemma LatestYearGrowthSign(t: seq<Row>)
    requires |t| > 1 && PrevPeriodRevenue(t) > 0.0
    ensures LatestYearGrowth(t) > 0.0 <==> LatestYearRevenue(t) > PrevPeriodRevenue(t)
    ensures LatestYearGrowth(t) == 0.0 <==> LatestYearRevenue(t) == PrevPeriodRevenue(t)
    ensures LatestYearGrowth(t) < 0.0 <==> LatestYearRevenue(t) < PrevPeriodRevenue(t)
  {
    var prev := PrevPeriodRevenue(t);
    var d := LatestYearRevenue(t) - prev;
    assert LatestYearGrowth(t) == d / prev * 100.0;
    assert d / prev * prev == d;
  }

  /** A row of 100 revenue in `year`. */
  function FlatRow(year: int): Row
  {
    Row("A", Date(year, 1, 1), year, 1, 1, 100.0, 0.0, 0.0, 0.0, 0.0, 0.0, 100.0, None, 0.0, None)
  }

  /** Two years of equal revenue: the tile as written shows +100%, while the
      year-over-year change is 0. */
  lemma FlatRevenueShowsGrowth()
    ensures RevenueGrowth([FlatRow(2022), FlatRow(2023)]) == 100.0
    ensures LatestYearGrowth([FlatRow(2022), FlatRow(2023)]) == 0.0
  {
    var t := [FlatRow(2022), FlatRow(2023)];
    assert t[1..] == [FlatRow(2023)] && t[1..][1..] == [];
    KeyLessNum(2022, 2023);
    var es := Entries(t, YearKey);
    assert es == [([Num(2022)], Single(FlatRow(2022))), ([Num(2023)], Single(FlatRow(2023)))];
    assert es[1..][1..] == [];
    var g23 := Group([Num(2023)], Single(FlatRow(2023)));
    assert GroupBy(es[1..], Add) == [g23];
    assert [Num(2023)] != [Num(2022)] by { assert [Num(2023)][0] != [Num(2022)][0]; }
    assert Insert([g23], [Num(2022)], Single(FlatRow(2022)), Add) == [Group([Num(2022)], Single(FlatRow(2022))), g23];
    assert Aggregate(t, YearKey) == [Group([Num(2022)], Single(FlatRow(2022))), Group([Num(2023)], Single(FlatRow(2023)))];
    assert Total(t, Revenue) == 200.0;
  }

  /** The CSS class of a trend indicator. */
  datatype Trend = Up | Down | Neutral

  /** `'trend-up' if growth > 0 else 'trend-down' if growth < 0 else 'trend-neutral'`. */
  function GrowthTrend(growth: real): (c: Trend)
    ensures c == Up <==> growth > 0.0
    ensures c == Down <==> growth < 0.0
    ensures c == Neutral <==> growth == 0.0
  {
    if growth > 0.0 then Up else if growth < 0.0 then Down else Neutral
  }

  /** The growth text under the revenue tile. */
  datatype GrowthText = NoChange | Signed(percent: real)

  function GrowthLabel(growth: real): (l: GrowthText)
    ensures l == NoChange <==> growth == 0.0
    ensures l.Signed? ==> l.percent == growth
  {
    if growth != 0.0 then Signed(growth) else NoChange
  }

  /** The tile reads "No change" exactly when it is neutral. */
  lemma NeutralIffNoChange(growth: real)
    ensures GrowthTrend(growth) == Neutral <==> GrowthLabel(growth) == NoChange
  {
  }

  /** The Net Revenue tile: up when positive, down otherwise, 0 included. */
  function NetRevenueTrend(net: real): (c: Trend)
    ensures c == Up <==> net > 0.0
    ensures c == Down <==> net <= 0.0
  {
    if net > 0.0 then Up else Down
  }

  // The Home page's alerts.

  datatype VarianceAlert = HighVariance | ConsistentPerformance | NoVarianceAlert
  datatype GrowthAlert = RevenueDecline | StrongGrowth | NoGrowthAlert

  /** `efficiency_variance` (a standard deviation; NaN for fewer than two
      rows, where both comparisons are false) against 15 and 5. */
  function VarianceAlertOf(std: Option<real>): (a: VarianceAlert)
    ensures a == HighVariance <==> std.Some? && std.value > 15.0
    ensures a == ConsistentPerformance <==> std.Some? && std.value < 5.0
    ensures a == NoVarianceAlert <==> std.None? || 5.0 <= std.value <= 15.0
  {
    match std
    case None => NoVarianceAlert
    case Some(v) => if v > 15.0 then HighVariance else if v < 5.0 then ConsistentPerformance else NoVarianceAlert
  }

  function GrowthAlertOf(growth: real): (a: GrowthAlert)
    ensures a == RevenueDecline <==> growth < 0.0
    ensures a == StrongGrowth <==> growth > 10.0
    ensures a == NoGrowthAlert <==> 0.0 <= growth <= 10.0
  {
    if growth < 0.0 then RevenueDecline else if growth > 10.0 then StrongGrowth else NoGrowthAlert
  }

  /** The Home page's insight panel. */
  datatype Insights = Insights(
    bestZone: string, bestEfficiency: real,
    worstZone: string, worstEfficiency: real,
    highestRevenueZone: string, highestRevenue: real,
    performanceGap: bool,       // best - worst > 20
    variance: VarianceAlert, growth: GrowthAlert,
    lowCollection: bool)        // collection_rate < 50

  function EfficiencyColumn(zm: seq<ZoneMetric>): (v: seq<real>)
    ensures |v| == |zm| && forall i :: 0 <= i < |zm| ==> v[i] == zm[i].efficiency
  {
    seq(|zm|, i requires 0 <= i < |zm| => zm[i].efficiency)
  }

  function RevenueColumn(zm: seq<ZoneMetric>): (v: seq<real>)
    ensures |v| == |zm| && forall i :: 0 <= i < |zm| ==> v[i] == zm[i].revenue
  {
    seq(|zm|, i requires 0 <= i < |zm| => zm[i].revenue)
  }

  /** The insight rules over `zone_metrics`; `idxmax` on an empty table
      raises, which here is `None`. */
  function HomeInsights(zm: seq<ZoneMetric>, std: Option<real>, growth: real, collectionRate: real): (r: Option<Insights>)
    ensures r.None? <==> |zm| == 0
    ensures r.Some? ==> var ins := r.value;
      && (forall j :: 0 <= j < |zm| ==> zm[j].efficiency <= ins.bestEfficiency)
      && (exists i :: 0 <= i < |zm| && zm[i].zone == ins.bestZone && zm[i].efficiency == ins.bestEfficiency
                      && forall j :: 0 <= j < i ==> zm[j].efficiency < ins.bestEfficiency)
      && (forall j :: 0 <= j < |zm| ==> ins.worstEfficiency <= zm[j].efficiency)
      && (exists i :: 0 <= i < |zm| && zm[i].zone == ins.worstZone && zm[i].efficiency == ins.worstEfficiency
                      && forall j :: 0 <= j < i ==> ins.worstEfficiency < zm[j].efficiency)
      && (forall j :: 0 <= j < |zm| ==> zm[j].revenue <= ins.highestRevenue)
      && (exists i :: 0 <= i < |zm| && zm[i].zone == ins.highestRevenueZone && zm[i].revenue == ins.highestRevenue
                      && forall j :: 0 <= j < i ==> zm[j].revenue < ins.highestRevenue)
      && (ins.performanceGap <==> ins.bestEfficiency - ins.worstEfficiency > 20.0)
      && ins.variance == VarianceAlertOf(std) && ins.growth == GrowthAlertOf(growth)
      && (ins.lowCollection <==> collectionRate < 50.0)
  {
    var eff := EfficiencyColumn(zm);
    var rev := RevenueColumn(zm);
    match (IdxMax(eff), IdxMin(eff), IdxMax(rev))
    case (Some(b), Some(w), Some(h)) =>
      Some(Insights(zm[b].zone, zm[b].efficiency, zm[w].zone, zm[w].efficiency,
                    zm[h].zone, zm[h].revenue,
                    zm[b].efficiency - zm[w].efficiency > 20.0,
                    VarianceAlertOf(std), GrowthAlertOf(growth), collectionRate < 50.0))
    case _ => None
  }
}
