/** `pd.to_datetime` applied to a frame of columns, as this model takes it:
    each column name, compared without regard to case, must name a date
    unit; year, month and day must all be given; and the three must form a
    calendar date. Otherwise the assembly raises instead of returning dates. */
module DateAssembly {
  import opened Common
  import opened Records

  /** The units a column of the frame can stand for. */
  datatype Unit = YearUnit | MonthUnit | DayUnit

  function LowerChar(c: char): char
  {
    if 'A' <= c <= 'Z' then (c as int + 32) as char else c
  }

  function Lower(s: string): (l: string)
    ensures |l| == |s| && forall i :: 0 <= i < |s| ==> l[i] == LowerChar(s[i])
  {
    seq(|s|, i requires 0 <= i < |s| => LowerChar(s[i]))
  }

  /** The unit a column name stands for, if pandas recognises it as a date unit. */
  function UnitOf(name: string): Option<Unit>
  {
    var n := Lower(name);
    if n == "year" || n == "years" then Some(YearUnit)
    else if n == "month" || n == "months" then Some(MonthUnit)
    else if n == "day" || n == "days" then Some(DayUnit)
    else None
  }

  /** The value of the last column standing for unit `u`, which is the one
      pandas keeps when a unit is given twice. */
  function Field(cols: seq<(string, int)>, u: Unit): (f: Option<int>)
    ensures f.None? <==> forall i :: 0 <= i < |cols| ==> UnitOf(cols[i].0) != Some(u)
    ensures f.Some? ==> exists i :: 0 <= i < |cols| && UnitOf(cols[i].0) == Some(u) && f.value == cols[i].1 &&
                                    forall j :: i < j < |cols| ==> UnitOf(cols[j].0) != Some(u)
  {
    if cols == [] then None
    else if UnitOf(cols[|cols| - 1].0) == Some(u) then Some(cols[|cols| - 1].1)
    else Field(cols[..|cols| - 1], u)
  }

  predicate ValidDate(year: int, month: int, day: int)
  {
    1 <= month <= 12 && 1 <= day <= DaysInMonth(year, month)
  }

  /** One row of the assembly; `None` where pandas raises. */
  function Assemble(cols: seq<(string, int)>): (d: Option<Date>)
    ensures d.Some? <==>
              && (forall i :: 0 <= i < |cols| ==> UnitOf(cols[i].0).Some?)
              && Field(cols, YearUnit).Some? && Field(cols, MonthUnit).Some? && Field(cols, DayUnit).Some?
              && ValidDate(Field(cols, YearUnit).value, Field(cols, MonthUnit).value, Field(cols, DayUnit).value)
    ensures d.Some? ==> d.value == Date(Field(cols, YearUnit).value, Field(cols, MonthUnit).value, Field(cols, DayUnit).value)
  {
    if exists i :: 0 <= i < |cols| && UnitOf(cols[i].0).None? then None
    else
      match (Field(cols, YearUnit), Field(cols, MonthUnit), Field(cols, DayUnit))
      case (Some(y), Some(m), Some(dd)) => if ValidDate(y, m, dd) then Some(Date(y, m, dd)) else None
      case _ => None
  }

  /** The loaders' `df[['Year', 'Month']].assign(DAY=1)`. */
  function LoadDate(r: RawRecord): Option<Date>
  {
    Assemble([("Year", r.year), ("Month", r.month), ("DAY", 1)])
  }

  /** In this model the loaders' assembly gives day 1 of the record's month,
      and raises on a month outside 1..12. */
  lemma LoadDateSpec(r: RawRecord)
    ensures LoadDate(r) == if 1 <= r.month <= 12 then Some(Date(r.year, r.month, 1)) else None
  {
    UnitNames();
    FieldsOf("Year", r.year, "Month", r.month, "DAY", 1);
  }

  /** A frame of a year, a month and a day column, in that order, gives those
      three values. */
  lemma FieldsOf(y: string, year: int, m: string, month: int, d: string, day: int)
    requires UnitOf(y) == Some(YearUnit) && UnitOf(m) == Some(MonthUnit) && UnitOf(d) == Some(DayUnit)
    ensures var cols := [(y, year), (m, month), (d, day)];
            && (forall i :: 0 <= i < |cols| ==> UnitOf(cols[i].0).Some?)
            && Field(cols, YearUnit) == Some(year) && Field(cols, MonthUnit) == Some(month) && Field(cols, DayUnit) == Some(day)
  {
    var cols := [(y, year), (m, month), (d, day)];
    assert cols[..2] == [(y, year), (m, month)];
    assert cols[..2][..1] == [(y, year)];
    assert Field(cols[..2][..1], YearUnit) == Some(year);
    assert Field(cols[..2], YearUnit) == Some(year);
  }

  lemma UnitNames()
    ensures UnitOf("Year") == Some(YearUnit)
    ensures UnitOf("Month") == Some(MonthUnit)
    ensures UnitOf("DAY") == Some(DayUnit) && UnitOf("Day") == Some(DayUnit)
    ensures UnitOf("Quarter").None?
  {
    assert Lower("Year") == "year";
    assert Lower("Month") == "month";
    assert Lower("DAY") == "day";
    assert Lower("Day") == "day";
  }

  /** `load_data` succeeds exactly when the assembly succeeds on every record,
      which is the condition under which `Records.LoadData` returns rows. */
  lemma ParsableIffLoadDates(raw: seq<RawRecord>)
    ensures Parsable(raw) <==> forall i :: 0 <= i < |raw| ==> LoadDate(raw[i]).Some?
  {
    forall i | 0 <= i < |raw| ensures LoadDate(raw[i]).Some? <==> 1 <= raw[i].month <= 12 {
      LoadDateSpec(raw[i]);
    }
  }

  /** The website and trends pages' `agg_df[['Year', 'Quarter']].assign(Month=agg_df['Quarter']*3)`,
      as written. */
  function QuarterDateAsWritten(year: int, quarter: int): Option<Date>
  {
    Assemble([("Year", year), ("Quarter", quarter), ("Month", quarter * 3)])
  }

  /** As written, the assembly raises for every quarter: `Quarter` is not a
      date unit and no day is given. */
  lemma QuarterDateAlwaysRaises(year: int, quarter: int)
    ensures UnitOf("Quarter").None?
    ensures Field([("Year", year), ("Quarter", quarter), ("Month", quarter * 3)], DayUnit).None?
    ensures QuarterDateAsWritten(year, quarter) == None
  {
    var cols := [("Year", year), ("Quarter", quarter), ("Month", quarter * 3)];
    assert UnitOf(cols[1].0).None?;
  }

  /** The evidently intended assembly: the first day of month `Quarter * 3`. */
  function QuarterDate(year: int, quarter: int): Option<Date>
  {
    Assemble([("Year", year), ("Month", quarter * 3), ("Day", 1)])
  }

  /** For every quarter 1..4 the intended assembly gives day 1 of the
      quarter's last month, and it raises on any other quarter number. */
  lemma QuarterDateSpec(year: int, quarter: int)
    ensures QuarterDate(year, quarter) == if 1 <= quarter <= 4 then Some(Date(year, quarter * 3, 1)) else None
  {
    UnitNames();
    FieldsOf("Year", year, "Month", quarter * 3, "Day", 1);
  }
}
