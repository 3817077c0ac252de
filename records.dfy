/** The dataset's records and `load_data`, which every dashboard page runs
    once: it reads the CSV, builds `Date` from `Year` and `Month`, recomputes
    `Year` from it and adds the derived columns. */
module Records {
  import opened Common
  import opened PctChange

  /** One CSV record: a zone's figures for one month. */
  datatype RawRecord = RawRecord(
    zone: string, year: int, month: int,
    revenue: real,      // Total Operating Revenues
    expenditure: real,  // Total Operating Expenditures
    billing: real,      // Total Billing
    collection: real,   // Total Collection
    efficiency: real,   // Collection Efficiency (percent)
    coverage: real      // Operation & Maintenance Cost Coverage (percent)
  )

  /** A loaded row: the record's columns and the columns `load_data` derives. */
  datatype Row = Row(
    zone: string, date: Date, year: int, month: int, quarter: int,
    revenue: real, expenditure: real, billing: real, collection: real,
    efficiency: real, coverage: real,
    netRevenue: real,              // Net_Revenue
    revenueGrowth: Option<real>,   // Revenue_Growth
    efficiencyScore: real,         // Efficiency_Score
    collectionRate: Option<real>   // Collection_Rate
  )

  /** Every (Year, Month, 1) is a calendar date, which the model takes as the
      condition for `pd.to_datetime` to succeed; otherwise it raises and
      `load_data` returns an empty table. */
  predicate Parsable(raw: seq<RawRecord>)
  {
    forall i :: 0 <= i < |raw| ==> 1 <= raw[i].month <= 12
  }

  /** The revenue column labelled by zone, in input row order. */
  function RevenueSeries(raw: seq<RawRecord>): (s: Series)
    ensures |s| == |raw|
    ensures forall i :: 0 <= i < |raw| ==> s[i] == (raw[i].zone, raw[i].revenue)
  {
    seq(|raw|, i requires 0 <= i < |raw| => (raw[i].zone, raw[i].revenue))
  }

  /** `month` lies in calendar quarter `quarter`. */
  predicate InQuarter(month: int, quarter: int)
  {
    1 <= quarter <= 4 && 3 * quarter - 2 <= month <= 3 * quarter
  }

  /** What `load_data` makes of one record, apart from its revenue growth. */
  ghost predicate DerivedFrom(row: Row, r: RawRecord)
  {
    && row.zone == r.zone && row.month == r.month
    && row.date == Date(r.year, r.month, 1)
    && row.year == row.date.year && row.year == r.year
    && InQuarter(row.month, row.quarter)
    && row.revenue == r.revenue && row.expenditure == r.expenditure
    && row.billing == r.billing && row.collection == r.collection
    && row.efficiency == r.efficiency && row.coverage == r.coverage
    && row.netRevenue == r.revenue - r.expenditure
    && row.efficiencyScore == (r.efficiency / 100.0) * r.coverage
    && row.collectionRate == (if r.billing == 0.0 then None else Some(r.collection / r.billing * 100.0))
  }

  /** What every later stage relies on of a loaded table. */
  ghost predicate WellFormed(t: seq<Row>)
  {
    forall r :: r in t ==>
      && r.date == Date(r.year, r.month, 1)
      && InQuarter(r.month, r.quarter)
      && r.netRevenue == r.revenue - r.expenditure
  }

  function Lookup(m: map<string, real>, z: string): Option<real>
  {
    if z in m then Some(m[z]) else None
  }

  /** One row of `load_data`'s result, from its record and its revenue growth. */
  function DeriveRow(r: RawRecord, growth: Option<real>): (row: Row)
    requires 1 <= r.month <= 12
    ensures DerivedFrom(row, r) && row.revenueGrowth == growth
  {
    var date := Date(r.year, r.month, 1);
    Row(r.zone, date, date.year, date.month, (date.month - 1) / 3 + 1,
        r.revenue, r.expenditure, r.billing, r.collection, r.efficiency, r.coverage,
        r.revenue - r.expenditure, growth, (r.efficiency / 100.0) * r.coverage,
        if r.billing == 0.0 then None else Some(r.collection / r.billing * 100.0))
  }

  /** `load_data`: builds the table row by row. `last` holds, per zone, the
      revenue of its latest row so far, which is what `pct_change` compares with. */
  method LoadData(raw: seq<RawRecord>) returns (df: seq<Row>)
    ensures !Parsable(raw) ==> df == []
    ensures Parsable(raw) ==> |df| == |raw| && WellFormed(df)
    ensures Parsable(raw) ==> forall i :: 0 <= i < |raw| ==>
              DerivedFrom(df[i], raw[i]) && df[i].revenueGrowth == PctChangeAt(RevenueSeries(raw), i)
  {
    if exists i :: 0 <= i < |raw| && !(1 <= raw[i].month <= 12) {
      return [];
    }
    ghost var s := RevenueSeries(raw);
    df := [];
    var last: map<string, real> := map[];
    var i := 0;
    while i < |raw|
      invariant 0 <= i <= |raw| && |df| == i
      invariant forall j :: 0 <= j < i ==> df[j] == DeriveRow(raw[j], PctChangeAt(s, j))
      invariant forall z :: Lookup(last, z) == LastValue(s[..i], z)
    {
      var r := raw[i];
      var growth: Option<real> := None;
      if r.zone in last && last[r.zone] != 0.0 {
        growth := Some((r.revenue / last[r.zone] - 1.0) * 100.0);
      }
      var next := last[r.zone := r.revenue];
      LoadStep(raw, i, df, last, next, growth);
      df := df + [DeriveRow(r, growth)];
      last := next;
      i := i + 1;
    }
    LoadedRows(df, raw);
  }

  /** One turn of the loader: the growth computed from `last` is `pct_change`
      at row `i`, and recording row `i`'s revenue keeps `last` up to date. */
  lemma LoadStep(raw: seq<RawRecord>, i: nat, df: seq<Row>, last: map<string, real>, next: map<string, real>, growth: Option<real>)
    requires Parsable(raw) && i < |raw| && |df| == i
    requires next == last[raw[i].zone := raw[i].revenue]
    requires forall j :: 0 <= j < i ==> df[j] == DeriveRow(raw[j], PctChangeAt(RevenueSeries(raw), j))
    requires forall z :: Lookup(last, z) == LastValue(RevenueSeries(raw)[..i], z)
    requires growth == if raw[i].zone in last && last[raw[i].zone] != 0.0
                       then Some((raw[i].revenue / last[raw[i].zone] - 1.0) * 100.0) else None
    ensures forall j :: 0 <= j < i + 1 ==>
              (df + [DeriveRow(raw[i], growth)])[j] == DeriveRow(raw[j], PctChangeAt(RevenueSeries(raw), j))
    ensures forall z :: Lookup(next, z) == LastValue(RevenueSeries(raw)[..i + 1], z)
  {
    var s := RevenueSeries(raw);
    GrowthFromLast(s, i, last);
    LastStep(s, i, last, next);
  }

  /** The growth computed from `last` is `pct_change` at row `i`. */
  lemma GrowthFromLast(s: Series, i: nat, last: map<string, real>)
    requires i < |s|
    requires forall z :: Lookup(last, z) == LastValue(s[..i], z)
    ensures PctChangeAt(s, i) == if s[i].0 in last && last[s[i].0] != 0.0
                                 then Some((s[i].1 / last[s[i].0] - 1.0) * 100.0) else None
  {
    assert Lookup(last, s[i].0) == LastValue(s[..i], s[i].0);
  }

  /** Recording row `i`'s revenue for its zone keeps `last` up to date. */
  lemma LastStep(s: Series, i: nat, last: map<string, real>, next: map<string, real>)
    requires i < |s|
    requires forall z :: Lookup(last, z) == LastValue(s[..i], z)
    requires next == last[s[i].0 := s[i].1]
    ensures forall z :: Lookup(next, z) == LastValue(s[..i + 1], z)
  {
    forall z ensures Lookup(next, z) == LastValue(s[..i + 1], z) {
      LastValueStep(s, i, z);
    }
  }

  /** Rows built by `DeriveRow` from the records and their growth meet the
      loader's postcondition. */
  lemma LoadedRows(df: seq<Row>, raw: seq<RawRecord>)
    requires Parsable(raw) && |df| == |raw|
    requires forall j :: 0 <= j < |raw| ==> df[j] == DeriveRow(raw[j], PctChangeAt(RevenueSeries(raw), j))
    ensures WellFormed(df)
    ensures forall i :: 0 <= i < |raw| ==>
              DerivedFrom(df[i], raw[i]) && df[i].revenueGrowth == PctChangeAt(RevenueSeries(raw), i)
  {
    forall x | x in df ensures x.date == Date(x.year, x.month, 1) && InQuarter(x.month, x.quarter) && x.netRevenue == x.revenue - x.expenditure {
      var j :| 0 <= j < |df| && df[j] == x;
      assert DerivedFrom(df[j], raw[j]);
    }
  }
}
