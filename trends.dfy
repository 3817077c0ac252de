/** The trends page's analyses of its aggregated table `agg_df`: the growth
    rate per zone, the aggregated collection rate, the per-zone summary
    statistics, the `performance_metrics` loop and its best-zone picks. */
module Trends {
  import opened Common
  import opened Keys
  import opened Grouping
  import opened Records
  import opened Tables
  import opened Aggregation
  import opened PctChange

  /** One row of `agg_df`: its zone and group key, the sums, and the mean
      Collection Efficiency. */
  datatype AggRow = AggRow(
    zone: string, key: Key,
    revenue: real, expenditure: real, efficiency: real,
    collection: real, billing: real, netRevenue: real)

  function AggRowOf(g: Group<Totals>): AggRow
  {
    AggRow(KeyZone(g.key), g.key, g.value.revenue, g.value.expenditure,
           MeanOf(g.value.efficiencySum, g.value.count),
           g.value.collection, g.value.billing, g.value.netRevenue)
  }

  /** `.reset_index()` of a group-by. */
  function AggRows(gs: seq<Group<Totals>>): (a: seq<AggRow>)
    ensures |a| == |gs| && forall i :: 0 <= i < |gs| ==> a[i] == AggRowOf(gs[i])
  {
    if gs == [] then [] else [AggRowOf(gs[0])] + AggRows(gs[1..])
  }

  /** `agg_df` at the chosen level. */
  function AggTable(t: seq<Row>, level: Level): seq<AggRow>
  {
    AggRows(Aggregate(t, LevelKey(level)))
  }

  /** A group key without its last (zone) level: the period. */
  function PeriodOf(k: Key): Key
  {
    if |k| > 0 then k[..|k| - 1] else []
  }

  function LevelWidth(level: Level): nat
  {
    match level
    case Monthly => 4
    case Quarterly => 3
    case Yearly => 2
  }

  /** Every level key is a period of fixed width followed by the zone. */
  lemma LevelKeyShape(level: Level, r: Row)
    ensures |LevelKey(level)(r)| == LevelWidth(level)
    ensures LevelKey(level)(r) == PeriodOf(LevelKey(level)(r)) + [Text(r.zone)]
    ensures KeyZone(LevelKey(level)(r)) == r.zone
  {
  }

  /** The row of `agg_df` at `i` is keyed like some row of the table, and has its zone. */
  lemma AggRowKey(t: seq<Row>, level: Level, i: nat)
    requires i < |AggTable(t, level)|
    ensures exists r :: r in t && LevelKey(level)(r) == AggTable(t, level)[i].key && r.zone == AggTable(t, level)[i].zone
  {
    GroupHasRow(t, LevelKey(level), i);
    var r :| r in t && LevelKey(level)(r) == Aggregate(t, LevelKey(level))[i].key;
    LevelKeyShape(level, r);
  }

  /** Within one zone, `agg_df` runs in strictly ascending period order, so
      the zone's `pct_change` compares each period with its previous one. */
  lemma ZoneRowsAscend(t: seq<Row>, level: Level, i: nat, j: nat)
    requires i < j < |AggTable(t, level)|
    requires AggTable(t, level)[i].zone == AggTable(t, level)[j].zone
    ensures KeyLess(PeriodOf(AggTable(t, level)[i].key), PeriodOf(AggTable(t, level)[j].key))
  {
    var a := AggTable(t, level);
    AggregateSpec(t, LevelKey(level));
    assert KeyLess(a[i].key, a[j].key);
    AggRowKey(t, level, i);
    AggRowKey(t, level, j);
    var ri :| ri in t && LevelKey(level)(ri) == a[i].key && ri.zone == a[i].zone;
    var rj :| rj in t && LevelKey(level)(rj) == a[j].key && rj.zone == a[j].zone;
    LevelKeyShape(level, ri);
    LevelKeyShape(level, rj);
    KeyLessSameLast(PeriodOf(a[i].key), PeriodOf(a[j].key), Text(ri.zone));
  }

  /** A row of `agg_df` holds the sums and mean efficiency of exactly the
      table rows with its key (`m` selects them); its `Collection_Rate` is
      the summed collection over the summed billing. */
  lemma AggRowValues(t: seq<Row>, level: Level, i: nat, m: Row -> bool)
    requires WellFormed(t)
    requires i < |AggTable(t, level)|
    requires forall r :: r in t ==> m(r) == (LevelKey(level)(r) == AggTable(t, level)[i].key)
    ensures var x := AggTable(t, level)[i]; var w := Where(t, m);
      && x.revenue == Total(w, Revenue) && x.expenditure == Total(w, Expenditure)
      && x.collection == Total(w, Collection) && x.billing == Total(w, Billing)
      && x.netRevenue == Total(w, NetRevenue) && x.netRevenue == x.revenue - x.expenditure
      && Mean(w, Efficiency) == Some(x.efficiency)
      && AggCollectionRate(x) == RatioPercent(Total(w, Collection), Total(w, Billing))
  {
    var gs := Aggregate(t, LevelKey(level));
    AggregateGroup(t, LevelKey(level), i, m);
    AggregateNet(t, LevelKey(level));
    assert gs[i] in gs;
  }

  /** `agg_df['Collection_Rate']`: summed collection over summed billing. */
  function AggCollectionRate(x: AggRow): Option<real>
  {
    RatioPercent(x.collection, x.billing)
  }

  /** The revenue column of `agg_df`, labelled by zone. */
  function RevenueSeriesOf(a: seq<AggRow>): (s: Series)
    ensures |s| == |a| && forall i :: 0 <= i < |a| ==> s[i] == (a[i].zone, a[i].revenue)
  {
    seq(|a|, i requires 0 <= i < |a| => (a[i].zone, a[i].revenue))
  }

  /** A row of `growth_df.dropna()`: its position in `agg_df`, the row and its rate. */
  datatype GrowthRow = GrowthRow(index: nat, row: AggRow, rate: real)

  /** The rows among the first `n` of `agg_df` whose growth rate is defined. */
  function GrowthRows(a: seq<AggRow>, s: Series, n: nat): (g: seq<GrowthRow>)
    requires n <= |a| && s == RevenueSeriesOf(a)
    ensures forall k :: 0 <= k < |g| ==>
              g[k].index < n && g[k].row == a[g[k].index] && PctChangeAt(s, g[k].index) == Some(g[k].rate)
    ensures forall i :: 0 <= i < n && PctChangeAt(s, i).Some? ==> exists k :: 0 <= k < |g| && g[k].index == i
    ensures forall k, l :: 0 <= k < l < |g| ==> g[k].index < g[l].index
  {
    if n == 0 then []
    else
      var prev := GrowthRows(a, s, n - 1);
      match PctChangeAt(s, n - 1)
      case None => prev
      case Some(rate) =>
        var g := prev + [GrowthRow(n - 1, a[n - 1], rate)];
        assert forall k :: 0 <= k < |prev| ==> g[k] == prev[k];
        assert g[|prev|].index == n - 1;
        g
  }

  /** `growth_df.dropna()`: `agg_df` with `Growth_Rate =
      groupby('Zone').pct_change() * 100`, keeping the rows where it is defined. */
  function GrowthTable(a: seq<AggRow>): seq<GrowthRow>
  {
    GrowthRows(a, RevenueSeriesOf(a), |a|)
  }

  /** The first aggregated row of each zone has no growth rate and is dropped. */
  lemma FirstPeriodDropped(a: seq<AggRow>, i: nat)
    requires i < |a|
    requires forall j :: 0 <= j < i ==> a[j].zone != a[i].zone
    ensures forall g :: g in GrowthTable(a) ==> g.index != i
  {
    FirstOfZoneUndefined(RevenueSeriesOf(a), i);
  }

  /** Every other row is kept, with 100 * (r - r_prev) / r_prev against the
      zone's previous aggregated row, when that is not 0. */
  lemma LaterPeriodKept(a: seq<AggRow>, i: nat, j: nat)
    requires j < i < |a| && a[j].zone == a[i].zone
    requires forall k :: j < k < i ==> a[k].zone != a[i].zone
    requires a[j].revenue != 0.0
    ensures exists k :: 0 <= k < |GrowthTable(a)| && GrowthTable(a)[k].index == i
                        && GrowthTable(a)[k].rate == 100.0 * (a[i].revenue - a[j].revenue) / a[j].revenue
  {
    var s := RevenueSeriesOf(a);
    PctChangeFromNearest(s, i, j);
    var g := GrowthTable(a);
    var k :| 0 <= k < |g| && g[k].index == i;
    assert PctChangeAt(s, i) == Some(g[k].rate);
  }

  // trend_stats: mean, min and max per zone (std is not modelled).

  /** The count, sum, minimum and maximum of a column's values. */
  datatype Stats = NoStats | Stats(count: nat, sum: real, lo: real, hi: real)

  function StatsOf(x: real): Stats
  {
    Stats(1, x, x, x)
  }

  function Min(a: real, b: real): real { if a <= b then a else b }
  function Max(a: real, b: real): real { if a >= b then a else b }

  function Merge(a: Stats, b: Stats): Stats
  {
    match (a, b)
    case (NoStats, _) => b
    case (_, NoStats) => a
    case (Stats(c1, s1, l1, h1), Stats(c2, s2, l2, h2)) => Stats(c1 + c2, s1 + s2, Min(l1, l2), Max(h1, h2))
  }

  /** Stats of at least one value: their sum lies between count * min and count * max. */
  predicate Bounded(s: Stats)
  {
    s.Stats? && s.count >= 1 && s.lo * s.count as real <= s.sum <= s.hi * s.count as real
  }

  lemma MergeBounded(a: Stats, b: Stats)
    requires Bounded(a) && Bounded(b)
    ensures Bounded(Merge(a, b))
  {
    var l, h := Min(a.lo, b.lo), Max(a.hi, b.hi);
    var ca, cb := a.count as real, b.count as real;
    MulLe(l, a.lo, ca);
    MulLe(l, b.lo, cb);
    MulLe(a.hi, h, ca);
    MulLe(b.hi, h, cb);
    MulAdd(l, ca, cb);
    MulAdd(h, ca, cb);
    assert Merge(a, b) == Stats(a.count + b.count, a.sum + b.sum, l, h);
    assert (a.count + b.count) as real == ca + cb;
  }

  lemma MulLe(x: real, y: real, c: real)
    requires x <= y && 0.0 <= c
    ensures x * c <= y * c
  {
  }

  lemma MulAdd(x: real, a: real, b: real)
    ensures x * (a + b) == x * a + x * b
  {
  }

  /** `mean` lies between `min` and `max`. */
  lemma MeanWithinRange(s: Stats)
    requires Bounded(s)
    ensures s.lo <= s.sum / s.count as real <= s.hi
  {
    var n := s.count as real;
    assert s.sum / n * n == s.sum;
  }

  /** The statistics of the four summarised columns. */
  datatype ZoneStats = ZoneStats(revenue: Stats, efficiency: Stats, expenditure: Stats, netRevenue: Stats)

  function MergeZone(a: ZoneStats, b: ZoneStats): ZoneStats
  {
    ZoneStats(Merge(a.revenue, b.revenue), Merge(a.efficiency, b.efficiency),
              Merge(a.expenditure, b.expenditure), Merge(a.netRevenue, b.netRevenue))
  }

  predicate AllBounded(z: ZoneStats)
  {
    Bounded(z.revenue) && Bounded(z.efficiency) && Bounded(z.expenditure) && Bounded(z.netRevenue)
  }

  function StatsEntries(a: seq<AggRow>): seq<(Key, ZoneStats)>
  {
    if a == [] then []
    else [([Text(a[0].zone)], ZoneStats(StatsOf(a[0].revenue), StatsOf(a[0].efficiency),
                                        StatsOf(a[0].expenditure), StatsOf(a[0].netRevenue)))]
         + StatsEntries(a[1..])
  }

  /** `trend_stats`: `agg_df.groupby('Zone')` with mean, min and max per column. */
  function TrendStats(a: seq<AggRow>): seq<Group<ZoneStats>>
  {
    GroupBy(StatsEntries(a), MergeZone)
  }

  lemma {:induction false} StatsEntriesBounded(a: seq<AggRow>)
    ensures forall e :: e in StatsEntries(a) ==> AllBounded(e.1)
  {
    if a != [] {
      StatsEntriesBounded(a[1..]);
    }
  }

  lemma {:induction false} StatsEntriesKeys(a: seq<AggRow>)
    ensures EntryKeys(StatsEntries(a)) == set x | x in a :: [Text(x.zone)]
  {
    if a != [] {
      var es := StatsEntries(a);
      StatsEntriesKeys(a[1..]);
      assert es == [es[0]] + es[1..] && es[1..] == StatsEntries(a[1..]);
      assert EntryKeys(es) == {[Text(a[0].zone)]} + EntryKeys(es[1..]);
      assert a == [a[0]] + a[1..];
      assert (set x | x in a :: [Text(x.zone)]) == {[Text(a[0].zone)]} + (set x | x in a[1..] :: [Text(x.zone)]);
    }
  }

  /** One row per zone of `agg_df`, in ascending zone order, and in every row
      and column min <= mean <= max. */
  lemma TrendStatsSpec(a: seq<AggRow>)
    ensures StrictlySorted(TrendStats(a))
    ensures KeysOf(TrendStats(a)) == set x | x in a :: [Text(x.zone)]
    ensures forall g :: g in TrendStats(a) ==> AllBounded(g.value)
  {
    StatsEntriesBounded(a);
    StatsEntriesKeys(a);
    GroupBySpec(StatsEntries(a), MergeZone);
    forall x, y | AllBounded(x) && AllBounded(y) ensures AllBounded(MergeZone(x, y)) {
      MergeBounded(x.revenue, y.revenue);
      MergeBounded(x.efficiency, y.efficiency);
      MergeBounded(x.expenditure, y.expenditure);
      MergeBounded(x.netRevenue, y.netRevenue);
    }
    GroupByKeepsInvariant(StatsEntries(a), MergeZone, AllBounded);
  }

  /** `NoStats`, the statistics of no value, is neutral for `Merge`, which
      is associative and commutative. */
  lemma MergeMonoid()
    ensures IsCommutativeMonoid(Merge, NoStats)
  {
  }

  const NoZoneStats := ZoneStats(NoStats, NoStats, NoStats, NoStats)

  lemma MergeZoneMonoid()
    ensures IsCommutativeMonoid(MergeZone, NoZoneStats)
  {
    MergeMonoid();
  }

  /** The statistics `agg` computes for one column of values. */
  function ColumnStats(v: seq<real>): Stats
  {
    if v == [] then NoStats else Merge(StatsOf(v[0]), ColumnStats(v[1..]))
  }

  /** `s` is the count and sum of `v`, and a least and a greatest value of `v`. */
  ghost predicate Summarises(s: Stats, v: seq<real>)
  {
    && s.Stats? && s.count == |v| && s.sum == Sum(v)
    && (forall k :: 0 <= k < |v| ==> s.lo <= v[k] <= s.hi)
    && (exists k :: 0 <= k < |v| && v[k] == s.lo)
    && (exists k :: 0 <= k < |v| && v[k] == s.hi)
  }

  lemma {:induction false} ColumnStatsSpec(v: seq<real>)
    ensures v == [] ==> ColumnStats(v) == NoStats
    ensures v != [] ==> Summarises(ColumnStats(v), v)
  {
    if |v| == 1 {
      assert v[1..] == [];
      assert v[0] == ColumnStats(v).lo;
    } else if |v| > 1 {
      var rest := v[1..];
      ColumnStatsSpec(rest);
      var r := ColumnStats(rest);
      var c := ColumnStats(v);
      assert c == Stats(1 + r.count, v[0] + r.sum, Min(v[0], r.lo), Max(v[0], r.hi));
      forall k | 0 <= k < |v| ensures c.lo <= v[k] <= c.hi {
        if k > 0 {
          assert v[k] == rest[k - 1];
        }
      }
      var kl :| 0 <= kl < |rest| && rest[kl] == r.lo;
      var kh :| 0 <= kh < |rest| && rest[kh] == r.hi;
      if v[0] <= r.lo {
        assert v[0] == c.lo;
      } else {
        assert v[kl + 1] == c.lo;
      }
      if v[0] >= r.hi {
        assert v[0] == c.hi;
      } else {
        assert v[kh + 1] == c.hi;
      }
    }
  }

  /** A summarised column's `mean` is sum / count, between `min` and `max`. */
  lemma SummarisedMean(s: Stats, v: seq<real>)
    requires v != [] && Summarises(s, v)
    ensures MeanValues(v) == Some(s.sum / s.count as real)
    ensures s.lo <= s.sum / s.count as real <= s.hi
  {
    TotalAtLeastValues(v, s.lo);
    TotalAtMostValues(v, s.hi);
    MeanWithinRange(s);
  }

  lemma {:induction false} TotalAtLeastValues(v: seq<real>, lo: real)
    requires forall k :: 0 <= k < |v| ==> lo <= v[k]
    ensures lo * |v| as real <= Sum(v)
  {
    if v != [] {
      TotalAtLeastValues(v[1..], lo);
      var n := |v[1..]| as real;
      assert |v| as real == n + 1.0;
      assert lo <= v[0];
      MulSucc(lo, n);
    }
  }

  lemma {:induction false} TotalAtMostValues(v: seq<real>, hi: real)
    requires forall k :: 0 <= k < |v| ==> v[k] <= hi
    ensures Sum(v) <= hi * |v| as real
  {
    if v != [] {
      TotalAtMostValues(v[1..], hi);
      var n := |v[1..]| as real;
      assert |v| as real == n + 1.0;
      assert v[0] <= hi;
      MulSucc(hi, n);
    }
  }

  function AggExpenditure(x: AggRow): real { x.expenditure }

  /** The four columns' statistics over the rows `d`. */
  function ZoneStatsOf(d: seq<AggRow>): ZoneStats
  {
    ZoneStats(ColumnStats(Column(d, AggRevenue)), ColumnStats(Column(d, AggEfficiency)),
              ColumnStats(Column(d, AggExpenditure)), ColumnStats(Column(d, AggNet)))
  }

  lemma {:induction false} StatsEntriesSum(a: seq<AggRow>, z: string, p: Key -> bool)
    requires forall k :: p(k) == (k == [Text(z)])
    ensures SumEntries(StatsEntries(a), p, MergeZone, NoZoneStats) == ZoneStatsOf(Where(a, AggZoneIs(z)))
  {
    if a != [] {
      StatsEntriesSum(a[1..], z, p);
      var es := StatsEntries(a);
      assert es[0].0 == [Text(a[0].zone)] && es[1..] == StatsEntries(a[1..]);
      var w := Where(a[1..], AggZoneIs(z));
      if a[0].zone == z {
        assert Where(a, AggZoneIs(z)) == [a[0]] + w;
        assert ([a[0]] + w)[1..] == w;
      } else {
        assert [Text(a[0].zone)][0] != [Text(z)][0];
      }
    }
  }

  /** Each row of `trend_stats` summarises exactly its zone's rows of
      `agg_df`: in every column the count and sum behind `mean`, and a `min`
      and a `max` that bound every value of the zone and are such values. */
  lemma TrendStatsLookup(a: seq<AggRow>, i: nat)
    requires i < |TrendStats(a)|
    ensures TrendStats(a)[i].key == [Text(KeyZone(TrendStats(a)[i].key))]
    ensures var d := Where(a, AggZoneIs(KeyZone(TrendStats(a)[i].key)));
            var st := TrendStats(a)[i].value;
            && d != []
            && Summarises(st.revenue, Column(d, AggRevenue))
            && Summarises(st.efficiency, Column(d, AggEfficiency))
            && Summarises(st.expenditure, Column(d, AggExpenditure))
            && Summarises(st.netRevenue, Column(d, AggNet))
  {
    var es := StatsEntries(a);
    var gs := TrendStats(a);
    StatsEntriesKeys(a);
    GroupBySpec(es, MergeZone);
    assert gs[i] in gs && gs[i].key in KeysOf(gs);
    var x :| x in a && [Text(x.zone)] == gs[i].key;
    var z := x.zone;
    assert KeyZone(gs[i].key) == z;
    MergeZoneMonoid();
    GroupByLookup(es, MergeZone, NoZoneStats, i, (k: Key) => k == gs[i].key);
    StatsEntriesSum(a, z, (k: Key) => k == gs[i].key);
    var d := Where(a, AggZoneIs(z));
    assert x in d;
    ColumnStatsSpec(Column(d, AggRevenue));
    ColumnStatsSpec(Column(d, AggEfficiency));
    ColumnStatsSpec(Column(d, AggExpenditure));
    ColumnStatsSpec(Column(d, AggNet));
  }

  /** The flattened `trend_stats` column names, `'_'.join((column, stat))`. */
  const StatColumns: seq<string> := ["Total Operating Revenues", "Collection Efficiency", "Total Operating Expenditures", "Net_Revenue"]
  const StatNames: seq<string> := ["mean", "std", "min", "max"]

  function FlatColumnName(column: string, stat: string): (name: string)
    ensures |name| == |column| + 1 + |stat|
    ensures name[..|column|] == column && name[|column|] == '_' && name[|column| + 1..] == stat
  {
    column + "_" + stat
  }

  function FlatColumnNames(): (names: seq<string>)
    ensures |names| == 16
    ensures forall i, j :: 0 <= i < 4 && 0 <= j < 4 ==> names[4 * i + j] == FlatColumnName(StatColumns[i], StatNames[j])
  {
    seq(16, k requires 0 <= k < 16 => FlatColumnName(StatColumns[k / 4], StatNames[k % 4]))
  }

  // performance_metrics.

  /** One entry of `performance_metrics`. */
  datatype Performance = Performance(
    zone: string, avgRevenue: real, revenueTrend: Option<real>,
    avgEfficiency: real, efficiencyTrend: Option<real>, totalNetRevenue: real)

  function AggZones(a: seq<AggRow>): (zs: seq<string>)
    ensures |zs| == |a| && forall i :: 0 <= i < |a| ==> zs[i] == a[i].zone
  {
    seq(|a|, i requires 0 <= i < |a| => a[i].zone)
  }

  /** The mask `agg_df['Zone'] == zone`. */
  function AggZoneIs(z: string): AggRow -> bool { (x: AggRow) => x.zone == z }

  function AggRevenue(x: AggRow): real { x.revenue }
  function AggEfficiency(x: AggRow): real { x.efficiency }
  function AggNet(x: AggRow): real { x.netRevenue }

  /** A column of a slice of `agg_df`. */
  function Column(d: seq<AggRow>, col: AggRow -> real): (v: seq<real>)
    ensures |v| == |d|
  {
    if d == [] then [] else [col(d[0])] + Column(d[1..], col)
  }

  function Sum(v: seq<real>): real
  {
    if v == [] then 0.0 else v[0] + Sum(v[1..])
  }

  /** `.mean()`, NaN (`None`) for no values. */
  function MeanValues(v: seq<real>): (m: Option<real>)
    ensures m.None? <==> |v| == 0
  {
    if |v| == 0 then None else Some(Sum(v) / |v| as real)
  }

  /** A single, unlabelled series. */
  function Unlabelled(v: seq<real>): (s: Series)
    ensures |s| == |v| && forall i :: 0 <= i < |v| ==> s[i] == ("", v[i])
  {
    seq(|v|, i requires 0 <= i < |v| => ("", v[i]))
  }

  /** The percent changes between consecutive values among the first `n`,
      skipping those after a 0 (where pandas gives NaN or inf). */
  function ConsecutiveChanges(v: seq<real>, n: nat): seq<real>
    requires n <= |v|
  {
    if n <= 1 then []
    else ConsecutiveChanges(v, n - 1)
         + (if v[n - 2] != 0.0 then [100.0 * (v[n - 1] - v[n - 2]) / v[n - 2]] else [])
  }

  /** The defined values of the first `n` percent changes of a series: in
      order, the change of each value against the one right before it. */
  function DefinedChanges(v: seq<real>, n: nat): (d: seq<real>)
    requires n <= |v|
    ensures d == ConsecutiveChanges(v, n)
  {
    if n == 0 then []
    else
      var prev := DefinedChanges(v, n - 1);
      SeriesChangeIsConsecutive(v, n - 1);
      match PctChangeAt(Unlabelled(v), n - 1)
      case None => prev
      case Some(c) => prev + [c]
  }

  /** `s.pct_change().mean() * 100`: the mean of the defined changes (`pct_change`
      of one series compares each value with the one before), NaN when none is. */
  function Trend(v: seq<real>): (tr: Option<real>)
    ensures tr == MeanValues(ConsecutiveChanges(v, |v|))
    ensures |v| <= 1 ==> tr.None?
  {
    MeanValues(DefinedChanges(v, |v|))
  }

  /** The first value of a series has no change; each later one is compared
      with the value right before it, and has none after a 0. */
  lemma SeriesChangeIsConsecutive(v: seq<real>, i: nat)
    requires i < |v|
    ensures i == 0 ==> PctChangeAt(Unlabelled(v), i) == None
    ensures 0 < i && v[i - 1] != 0.0 ==> PctChangeAt(Unlabelled(v), i) == Some(100.0 * (v[i] - v[i - 1]) / v[i - 1])
    ensures 0 < i && v[i - 1] == 0.0 ==> PctChangeAt(Unlabelled(v), i) == None
  {
    if i == 0 {
      FirstOfZoneUndefined(Unlabelled(v), i);
    } else if v[i - 1] != 0.0 {
      PctChangeFromNearest(Unlabelled(v), i, i - 1);
    } else {
      var s := Unlabelled(v);
      LastValueSpec(s[..i], s[i].0);
      assert s[..i][i - 1] == s[i - 1];
    }
  }

  /** The entry the loop body builds for one zone. */
  function PerformanceOf(a: seq<AggRow>, z: string): Performance
  {
    var d := Where(a, AggZoneIs(z));
    var rev := Column(d, AggRevenue);
    var eff := Column(d, AggEfficiency);
    Performance(z, MeanOf(Sum(rev), |d|), Trend(rev), MeanOf(Sum(eff), |d|), Trend(eff),
                Sum(Column(d, AggNet)))
  }

  /** The `for zone in agg_df['Zone'].unique()` loop: one entry per distinct
      zone of `agg_df`, in `unique()` order. */
  method PerformanceMetrics(a: seq<AggRow>) returns (pm: seq<Performance>)
    ensures |pm| == |Distinct(AggZones(a))|
    ensures forall k :: 0 <= k < |pm| ==> pm[k] == PerformanceOf(a, Distinct(AggZones(a))[k])
  {
    var zones := Distinct(AggZones(a));
    pm := [];
    var k := 0;
    while k < |zones|
      invariant 0 <= k <= |zones| && |pm| == k
      invariant forall j {:trigger pm[j]} :: 0 <= j < k ==> pm[j] == PerformanceOf(a, zones[j])
    {
      var entry := PerformanceOf(a, zones[k]);
      pm := pm + [entry];
      k := k + 1;
    }
  }

  /** The zones the loop visits: every zone of `agg_df`, each once, in order
      of first appearance. */
  lemma PerformanceZones(a: seq<AggRow>)
    ensures forall k :: 0 <= k < |Distinct(AggZones(a))| ==> PerformanceOf(a, Distinct(AggZones(a))[k]).zone == Distinct(AggZones(a))[k]
    ensures forall z :: z in Distinct(AggZones(a)) <==> z in AggZones(a)
    ensures forall x :: x in a ==> x.zone in Distinct(AggZones(a))
    ensures forall z :: z in Distinct(AggZones(a)) ==> exists x :: x in a && x.zone == z
    ensures forall k, l :: 0 <= k < l < |Distinct(AggZones(a))| ==> Distinct(AggZones(a))[k] != Distinct(AggZones(a))[l]
    ensures forall k, l :: 0 <= k < l < |Distinct(AggZones(a))| ==>
              FirstIndex(AggZones(a), Distinct(AggZones(a))[k]) < FirstIndex(AggZones(a), Distinct(AggZones(a))[l])
  {
    var zs := AggZones(a);
    DistinctSpec(zs);
    forall x | x in a ensures x.zone in zs {
      var i :| 0 <= i < |a| && a[i] == x;
      assert zs[i] == x.zone;
    }
    forall z | z in Distinct(zs) ensures exists x :: x in a && x.zone == z {
      var i :| 0 <= i < |zs| && zs[i] == z;
      assert a[i] in a;
    }
  }

  /** A zone seen in one period only has no revenue or efficiency trend. */
  lemma SinglePeriodNoTrend(a: seq<AggRow>, z: string)
    requires |Where(a, AggZoneIs(z))| <= 1
    ensures PerformanceOf(a, z).revenueTrend.None? && PerformanceOf(a, z).efficiencyTrend.None?
  {
  }

  /** The zone's net revenue summed over `agg_df` slices. */
  lemma {:induction false} AggNetSum(gs: seq<Group<Totals>>, z: string)
    ensures Sum(Column(Where(AggRows(gs), AggZoneIs(z)), AggNet))
         == SumGroups(gs, (k: Key) => KeyZone(k) == z, Add, Zero).netRevenue
  {
    if gs != [] {
      var rows := AggRows(gs);
      assert rows == [AggRowOf(gs[0])] + AggRows(gs[1..]);
      assert rows[0] == AggRowOf(gs[0]) && rows[1..] == AggRows(gs[1..]);
      AggNetSum(gs[1..], z);
      var w := Where(AggRows(gs[1..]), AggZoneIs(z));
      if KeyZone(gs[0].key) == z {
        assert Where(rows, AggZoneIs(z)) == [rows[0]] + w;
        assert ([rows[0]] + w)[1..] == w;
        assert Column([rows[0]] + w, AggNet) == [rows[0].netRevenue] + Column(w, AggNet);
        assert ([rows[0].netRevenue] + Column(w, AggNet))[1..] == Column(w, AggNet);
      }
    }
  }

  /** A zone's Total Net Revenue is the sum of its `Net_Revenue` over the
      aggregated periods, which is the sum over its rows of the table. */
  lemma PerformanceNetMatchesRows(t: seq<Row>, level: Level, z: string)
    ensures PerformanceOf(AggTable(t, level), z).totalNetRevenue == Total(Where(t, ZoneIs(z)), NetRevenue)
  {
    var gs := Aggregate(t, LevelKey(level));
    AggNetSum(gs, z);
    forall r | r in t ensures ZoneIs(z)(r) == ((k: Key) => KeyZone(k) == z)(LevelKey(level)(r)) {
      LevelKeyShape(level, r);
    }
    AggregateSum(t, LevelKey(level), (k: Key) => KeyZone(k) == z, ZoneIs(z));
  }

  // The best-zone picks, `performance_df.loc[performance_df[col].idxmax()]`.

  function AvgRevenueOf(p: Performance): real { p.avgRevenue }
  function AvgEfficiencyOf(p: Performance): real { p.avgEfficiency }
  function TotalNetOf(p: Performance): real { p.totalNetRevenue }

  /** Entry `i` has the largest value of `f`, and no earlier entry ties it. */
  predicate IsFirstMax(pm: seq<Performance>, i: nat, f: Performance -> real)
  {
    && i < |pm|
    && (forall j :: 0 <= j < |pm| ==> f(pm[j]) <= f(pm[i]))
    && (forall j :: 0 <= j < i ==> f(pm[j]) < f(pm[i]))
  }

  function PerfColumn(pm: seq<Performance>, f: Performance -> real): (v: seq<real>)
    ensures |v| == |pm| && forall i :: 0 <= i < |pm| ==> v[i] == f(pm[i])
  {
    seq(|pm|, i requires 0 <= i < |pm| => f(pm[i]))
  }

  function BestBy(pm: seq<Performance>, f: Performance -> real): (r: Option<nat>)
    ensures r.None? <==> |pm| == 0
    ensures r.Some? ==> IsFirstMax(pm, r.value, f)
  {
    IdxMax(PerfColumn(pm, f))
  }

  /** The positions of the highest-revenue, most efficient and best net revenue zones. */
  datatype BestZones = BestZones(revenue: nat, efficiency: nat, netRevenue: nat)

  function BestPicks(pm: seq<Performance>): (r: Option<BestZones>)
    ensures r.None? <==> |pm| == 0
    ensures r.Some? ==> IsFirstMax(pm, r.value.revenue, AvgRevenueOf)
    ensures r.Some? ==> IsFirstMax(pm, r.value.efficiency, AvgEfficiencyOf)
    ensures r.Some? ==> IsFirstMax(pm, r.value.netRevenue, TotalNetOf)
  {
    match (BestBy(pm, AvgRevenueOf), BestBy(pm, AvgEfficiencyOf), BestBy(pm, TotalNetOf))
    case (Some(a), Some(b), Some(c)) => Some(BestZones(a, b, c))
    case _ => None
  }
}
