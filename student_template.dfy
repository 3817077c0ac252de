/** The student dashboard template: a fixed twelve-month sample table, a
    date-window and region filter, the overview cards and the per-region
    bar chart's sums. */
module StudentTemplate {
  import opened Common
  import opened Keys
  import opened Grouping

  /** One sample row. */
  datatype Sale = Sale(date: Date, sales: int, profit: int, customers: int, region: string)

  const SalesColumn: seq<int> := [100, 120, 140, 110, 160, 180, 200, 190, 220, 240, 250, 280]
  const ProfitColumn: seq<int> := [20, 30, 40, 25, 50, 60, 70, 65, 80, 90, 95, 110]
  const CustomersColumn: seq<int> := [50, 60, 70, 55, 80, 90, 100, 95, 110, 120, 125, 140]
  const Regions: seq<string> := ["North", "South", "East", "West"]
  const MonthEnds2023: seq<int> := [31, 28, 31, 30, 31, 30, 31, 31, 30, 31, 30, 31]

  /** `load_sample_data`: `pd.date_range('2023-01-01', periods=12, freq='M')`
      gives the month ends of 2023; the region list repeats three times. */
  function SampleData(): (d: seq<Sale>)
    ensures |d| == 12
  {
    seq(12, i requires 0 <= i < 12 =>
      Sale(Date(2023, i + 1, MonthEnds2023[i]), SalesColumn[i], ProfitColumn[i], CustomersColumn[i], Regions[i % 4]))
  }

  /** The sample has twelve rows dated on the last day of each month of 2023,
      in ascending order, with the region cycling North, South, East, West. */
  lemma SampleDataSpec()
    ensures forall i :: 0 <= i < 12 ==>
              SampleData()[i].date == Date(2023, i + 1, DaysInMonth(2023, i + 1)) && SampleData()[i].region == Regions[i % 4]
    ensures forall i, j :: 0 <= i < j < 12 ==> DateLe(SampleData()[i].date, SampleData()[j].date) && SampleData()[i].date != SampleData()[j].date
  {
  }

  /** The sample's Region column. */
  function SampleRegionColumn(): (c: seq<string>)
    ensures |c| == 12 && forall i :: 0 <= i < 12 ==> c[i] == SampleData()[i].region
  {
    seq(12, i requires 0 <= i < 12 => SampleData()[i].region)
  }

  /** The filter's condition: both date bounds inclusive, and the region selected. */
  predicate InWindow(s: Sale, start: Date, end: Date, regions: seq<string>)
  {
    DateLe(start, s.date) && DateLe(s.date, end) && s.region in regions
  }

  function FilterSales(df: seq<Sale>, start: Date, end: Date, regions: seq<string>): seq<Sale>
  {
    Where(df, (s: Sale) => InWindow(s, start, end, regions))
  }

  /** A row is kept exactly when its date lies in the window and its region
      is selected; with no region selected nothing is kept. */
  lemma FilterSalesSpec(df: seq<Sale>, start: Date, end: Date, regions: seq<string>)
    ensures IsSubsequence(FilterSales(df, start, end, regions), df)
    ensures forall s :: s in FilterSales(df, start, end, regions) <==> s in df && InWindow(s, start, end, regions)
    ensures forall s :: multiset(FilterSales(df, start, end, regions))[s] ==
              if InWindow(s, start, end, regions) then multiset(df)[s] else 0
    ensures regions == [] ==> FilterSales(df, start, end, regions) == []
  {
    WhereIsSubsequence(df, (s: Sale) => InWindow(s, start, end, regions));
    WhereCount(df, (s: Sale) => InWindow(s, start, end, regions));
    if regions == [] {
      WhereNone(df, (s: Sale) => InWindow(s, start, end, regions));
    }
  }

  /** The widgets' defaults (first date, last date, every region) show the whole sample. */
  lemma DefaultsKeepSample()
    ensures FilterSales(SampleData(), Date(2023, 1, 31), Date(2023, 12, 31), Distinct(SampleRegionColumn())) == SampleData()
  {
    var regions := Distinct(SampleRegionColumn());
    forall s | s in SampleData() ensures InWindow(s, Date(2023, 1, 31), Date(2023, 12, 31), regions) {
      var i :| 0 <= i < 12 && SampleData()[i] == s;
      DistinctMember(SampleRegionColumn(), s.region);
      assert SampleRegionColumn()[i] == s.region;
    }
    WhereAll(SampleData(), (s: Sale) => InWindow(s, Date(2023, 1, 31), Date(2023, 12, 31), regions));
  }

  /** The metric the selectbox picks. */
  datatype Metric = Sales | Profit | Customers

  function MetricValue(m: Metric): Sale -> int
  {
    match m
    case Sales => (s: Sale) => s.sales
    case Profit => (s: Sale) => s.profit
    case Customers => (s: Sale) => s.customers
  }

  /** `filtered_df[col].sum()`. */
  function SumOf(t: seq<Sale>, col: Sale -> int): int
  {
    if t == [] then 0 else col(t[0]) + SumOf(t[1..], col)
  }

  /** The Profit Margin card: total profit over total sales in percent, 0
      when there are no sales. */
  function ProfitMargin(t: seq<Sale>): (m: real)
    ensures SumOf(t, MetricValue(Sales)) > 0 ==> m * SumOf(t, MetricValue(Sales)) as real == SumOf(t, MetricValue(Profit)) as real * 100.0
    ensures SumOf(t, MetricValue(Sales)) <= 0 ==> m == 0.0
  {
    var sales := SumOf(t, MetricValue(Sales));
    if sales > 0 then SumOf(t, MetricValue(Profit)) as real / sales as real * 100.0 else 0.0
  }

  lemma {:induction false} SumMonotone(t: seq<Sale>, f: Sale -> int, g: Sale -> int)
    requires forall s :: s in t ==> f(s) <= g(s)
    ensures SumOf(t, f) <= SumOf(t, g)
  {
    if t != [] {
      assert forall s :: s in t[1..] ==> s in t;
      SumMonotone(t[1..], f, g);
    }
  }

  /** When no row makes a loss or more profit than sales, the margin lies
      between 0 and 100. */
  lemma ProfitMarginBounds(t: seq<Sale>)
    requires forall s :: s in t ==> 0 <= s.profit <= s.sales
    ensures 0.0 <= ProfitMargin(t) <= 100.0
  {
    var zero := (s: Sale) => 0;
    SumMonotone(t, zero, MetricValue(Profit));
    SumMonotone(t, MetricValue(Profit), MetricValue(Sales));
    assert SumOf(t, zero) == 0 by {
      ZeroSum(t);
    }
  }

  lemma {:induction false} ZeroSum(t: seq<Sale>)
    ensures SumOf(t, (s: Sale) => 0) == 0
  {
    if t != [] {
      ZeroSum(t[1..]);
    }
  }

  // `filtered_df.groupby('Region')[metric].sum()`.

  function IntAdd(a: int, b: int): int { a + b }

  lemma IntAddMonoid()
    ensures IsCommutativeMonoid(IntAdd, 0)
  {
  }

  function RegionEntries(t: seq<Sale>, col: Sale -> int): seq<(Key, int)>
  {
    if t == [] then [] else [([Text(t[0].region)], col(t[0]))] + RegionEntries(t[1..], col)
  }

  function RegionSums(t: seq<Sale>, m: Metric): seq<Group<int>>
  {
    GroupBy(RegionEntries(t, MetricValue(m)), IntAdd)
  }

  /** A row of `region_data`: a region and its metric's sum. */
  datatype RegionRow = RegionRow(region: string, total: int)

  function RegionOf(k: Key): string
  {
    if |k| > 0 && k[0].Text? then k[0].s else ""
  }

  function RegionData(t: seq<Sale>, m: Metric): (rows: seq<RegionRow>)
    ensures |rows| == |RegionSums(t, m)|
    ensures forall i :: 0 <= i < |rows| ==>
              rows[i] == RegionRow(RegionOf(RegionSums(t, m)[i].key), RegionSums(t, m)[i].value)
  {
    var gs := RegionSums(t, m);
    seq(|gs|, i requires 0 <= i < |gs| => RegionRow(RegionOf(gs[i].key), gs[i].value))
  }

  lemma {:induction false} RegionEntriesKeys(t: seq<Sale>, col: Sale -> int)
    ensures EntryKeys(RegionEntries(t, col)) == set s | s in t :: [Text(s.region)]
  {
    if t != [] {
      var es := RegionEntries(t, col);
      RegionEntriesKeys(t[1..], col);
      assert es == [es[0]] + es[1..] && es[1..] == RegionEntries(t[1..], col);
      assert EntryKeys(es) == {[Text(t[0].region)]} + EntryKeys(es[1..]);
      assert t == [t[0]] + t[1..];
      assert (set s | s in t :: [Text(s.region)]) == {[Text(t[0].region)]} + (set s | s in t[1..] :: [Text(s.region)]);
    }
  }

  /** Summing the entries of the regions `p` selects sums the rows of those regions. */
  lemma {:induction false} RegionEntriesSum(t: seq<Sale>, col: Sale -> int, p: Key -> bool, q: Sale -> bool)
    requires forall s :: s in t ==> q(s) == p([Text(s.region)])
    ensures SumEntries(RegionEntries(t, col), p, IntAdd, 0) == SumOf(Where(t, q), col)
  {
    if t != [] {
      assert forall s :: s in t[1..] ==> s in t;
      RegionEntriesSum(t[1..], col, p, q);
      var es := RegionEntries(t, col);
      assert es[0] == ([Text(t[0].region)], col(t[0])) && es[1..] == RegionEntries(t[1..], col);
      if q(t[0]) {
        assert ([t[0]] + Where(t[1..], q))[1..] == Where(t[1..], q);
      }
    }
  }

  /** One bar per region present in the filtered rows, in ascending region
      order, each the sum of the metric over that region's rows; all bars
      together add up to the filtered total. */
  lemma RegionSumsSpec(t: seq<Sale>, m: Metric)
    ensures StrictlySorted(RegionSums(t, m))
    ensures KeysOf(RegionSums(t, m)) == set s | s in t :: [Text(s.region)]
    ensures SumGroups(RegionSums(t, m), (k: Key) => true, IntAdd, 0) == SumOf(t, MetricValue(m))
  {
    var es := RegionEntries(t, MetricValue(m));
    GroupBySpec(es, IntAdd);
    RegionEntriesKeys(t, MetricValue(m));
    IntAddMonoid();
    GroupBySum(es, IntAdd, 0, (k: Key) => true);
    RegionEntriesSum(t, MetricValue(m), (k: Key) => true, (s: Sale) => true);
    WhereAll(t, (s: Sale) => true);
  }

  /** The bar of region `i` is the metric summed over that region's rows. */
  lemma RegionRowTotal(t: seq<Sale>, m: Metric, i: nat)
    requires i < |RegionData(t, m)|
    ensures RegionData(t, m)[i].total == SumOf(Where(t, (s: Sale) => s.region == RegionData(t, m)[i].region), MetricValue(m))
  {
    var gs := RegionSums(t, m);
    var es := RegionEntries(t, MetricValue(m));
    RegionSumsSpec(t, m);
    assert gs[i] in gs && gs[i].key in KeysOf(gs);
    var s0 :| s0 in t && [Text(s0.region)] == gs[i].key;
    var region := RegionData(t, m)[i].region;
    assert region == s0.region;
    IntAddMonoid();
    GroupByLookup(es, IntAdd, 0, i, (k: Key) => k == gs[i].key);
    RegionEntriesSum(t, MetricValue(m), (k: Key) => k == gs[i].key, (s: Sale) => s.region == region);
  }
}
