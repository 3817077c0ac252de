/** Column reductions over a loaded table: `df[col].sum()`, `df[col].mean()`
    and the zone and year columns. */
module Tables {
  import opened Common
  import opened Records

  // The numeric columns, as values that `Total` and `Mean` take.
  function Revenue(r: Row): real { r.revenue }
  function Expenditure(r: Row): real { r.expenditure }
  function Billing(r: Row): real { r.billing }
  function Collection(r: Row): real { r.collection }
  function Efficiency(r: Row): real { r.efficiency }
  function Coverage(r: Row): real { r.coverage }
  function NetRevenue(r: Row): real { r.netRevenue }

  /** The masks `df['Year'] == y` and `df['Zone'] == z`. */
  function YearIs(y: int): Row -> bool { (r: Row) => r.year == y }
  function ZoneIs(z: string): Row -> bool { (r: Row) => r.zone == z }

  /** `df[col].sum()`; 0 for an empty table. */
  function Total(t: seq<Row>, col: Row -> real): real
  {
    if t == [] then 0.0 else col(t[0]) + Total(t[1..], col)
  }

  /** `df[col].mean()`; NaN (here `None`) for an empty table. */
  function Mean(t: seq<Row>, col: Row -> real): (m: Option<real>)
    ensures m.None? <==> |t| == 0
  {
    if |t| == 0 then None else Some(Total(t, col) / |t| as real)
  }

  /** The zone column, in row order. */
  function Zones(t: seq<Row>): (zs: seq<string>)
    ensures |zs| == |t|
    ensures forall i :: 0 <= i < |t| ==> zs[i] == t[i].zone
  {
    seq(|t|, i requires 0 <= i < |t| => t[i].zone)
  }

  /** `m` or not `m`: the negated mask. */
  function Not(m: Row -> bool): Row -> bool { (r: Row) => !m(r) }

  /** The rows a mask keeps and the rows it drops sum to the whole column. */
  lemma {:induction false} TotalPartition(t: seq<Row>, col: Row -> real, m: Row -> bool)
    ensures Total(Where(t, m), col) + Total(Where(t, Not(m)), col) == Total(t, col)
  {
    if t != [] {
      TotalPartition(t[1..], col, m);
      if m(t[0]) {
        assert ([t[0]] + Where(t[1..], m))[1..] == Where(t[1..], m);
      } else {
        assert ([t[0]] + Where(t[1..], Not(m)))[1..] == Where(t[1..], Not(m));
      }
    }
  }

  /** A column that is pointwise no larger has no larger total. */
  lemma {:induction false} TotalMonotone(t: seq<Row>, f: Row -> real, g: Row -> real)
    requires forall r :: r in t ==> f(r) <= g(r)
    ensures Total(t, f) <= Total(t, g)
  {
    if t != [] {
      assert forall r :: r in t[1..] ==> r in t;
      TotalMonotone(t[1..], f, g);
    }
  }

  /** A column with no negative value has no negative total. */
  lemma {:induction false} TotalNonNegative(t: seq<Row>, col: Row -> real)
    requires forall r :: r in t ==> 0.0 <= col(r)
    ensures 0.0 <= Total(t, col)
  {
    if t != [] {
      assert forall r :: r in t[1..] ==> r in t;
      TotalNonNegative(t[1..], col);
    }
  }

  /** A lower bound on every value bounds the total from below by the row count. */
  lemma {:induction false} TotalAtLeast(t: seq<Row>, col: Row -> real, lo: real)
    requires forall r :: r in t ==> lo <= col(r)
    ensures lo * |t| as real <= Total(t, col)
  {
    if t != [] {
      var rest := t[1..];
      assert forall r :: r in rest ==> r in t;
      TotalAtLeast(rest, col, lo);
      assert t[0] in t;
      assert Total(t, col) == col(t[0]) + Total(rest, col);
      var n := |rest| as real;
      assert |t| as real == n + 1.0;
      MulSucc(lo, n);
    }
  }

  /** An upper bound on every value bounds the total from above by the row count. */
  lemma {:induction false} TotalAtMost(t: seq<Row>, col: Row -> real, hi: real)
    requires forall r :: r in t ==> col(r) <= hi
    ensures Total(t, col) <= hi * |t| as real
  {
    if t != [] {
      var rest := t[1..];
      assert forall r :: r in rest ==> r in t;
      TotalAtMost(rest, col, hi);
      assert t[0] in t;
      assert Total(t, col) == col(t[0]) + Total(rest, col);
      var n := |rest| as real;
      assert |t| as real == n + 1.0;
      MulSucc(hi, n);
    }
  }

  /** Bounds on every value bound the total by the row count. */
  lemma TotalBounds(t: seq<Row>, col: Row -> real, lo: real, hi: real)
    requires forall r :: r in t ==> lo <= col(r) <= hi
    ensures lo * |t| as real <= Total(t, col) <= hi * |t| as real
  {
    TotalAtLeast(t, col, lo);
    TotalAtMost(t, col, hi);
  }

  lemma MulSucc(x: real, n: real)
    ensures x * (n + 1.0) == x * n + x
  {
  }

  /** A mean lies between any bounds of the values it averages. */
  lemma MeanBounds(t: seq<Row>, col: Row -> real, lo: real, hi: real)
    requires |t| > 0
    requires forall r :: r in t ==> lo <= col(r) <= hi
    ensures lo <= Mean(t, col).value <= hi
  {
    TotalBounds(t, col, lo, hi);
    var n := |t| as real;
    assert Total(t, col) / n * n == Total(t, col);
  }

  /** A table with rows has at least one zone (`nunique() > 0`). */
  lemma ZonesOfNonEmpty(t: seq<Row>)
    requires |t| > 0
    ensures |Distinct(Zones(t))| > 0
  {
    DistinctMember(Zones(t), t[0].zone);
    assert Zones(t)[0] == t[0].zone;
  }
}
