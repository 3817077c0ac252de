/** `df.groupby('Zone')[col].pct_change() * 100`: each row's percent change
    from the nearest EARLIER row of the same zone, in the table's row order
    (the dashboards do not sort by date first). */
module PctChange {
  import opened Common

  /** A column labelled by zone, in row order. */
  type Series = seq<(string, real)>

  /** The value of the last entry of `s` labelled `z`. */
  function LastValue(s: Series, z: string): Option<real>
  {
    if s == [] then None
    else if s[|s| - 1].0 == z then Some(s[|s| - 1].1)
    else LastValue(s[..|s| - 1], z)
  }

  /** The percent change at row `i`; undefined for the first row of a zone
      and when the previous value is 0 (pandas gives NaN or inf there). */
  function PctChangeAt(s: Series, i: nat): Option<real>
    requires i < |s|
  {
    match LastValue(s[..i], s[i].0)
    case None => None
    case Some(prev) => if prev == 0.0 then None else Some((s[i].1 / prev - 1.0) * 100.0)
  }

  /** The last value labelled `z` is that of the nearest entry labelled `z`
      from the end, and there is none exactly when no entry is labelled `z`. */
  lemma {:induction false} LastValueSpec(s: Series, z: string)
    ensures LastValue(s, z).None? <==> forall j :: 0 <= j < |s| ==> s[j].0 != z
    ensures forall j :: 0 <= j < |s| && s[j].0 == z && (forall k :: j < k < |s| ==> s[k].0 != z) ==>
              LastValue(s, z) == Some(s[j].1)
  {
    if s != [] {
      var n := |s| - 1;
      LastValueSpec(s[..n], z);
      if s[n].0 != z {
        forall j | 0 <= j < n ensures s[..n][j] == s[j] { }
      }
    }
  }

  lemma LastValueStep(s: Series, i: nat, z: string)
    requires i < |s|
    ensures LastValue(s[..i + 1], z) == if s[i].0 == z then Some(s[i].1) else LastValue(s[..i], z)
  {
    assert s[..i + 1][..i] == s[..i];
  }

  /** The first row of each zone has no percent change. */
  lemma FirstOfZoneUndefined(s: Series, i: nat)
    requires i < |s|
    requires forall j :: 0 <= j < i ==> s[j].0 != s[i].0
    ensures PctChangeAt(s, i) == None
  {
    LastValueSpec(s[..i], s[i].0);
  }

  /** Any other row (with a nonzero predecessor) gets 100 * (r - r_prev) / r_prev,
      where r_prev is the nearest earlier row of the same zone. */
  lemma PctChangeFromNearest(s: Series, i: nat, j: nat)
    requires j < i < |s| && s[j].0 == s[i].0
    requires forall k :: j < k < i ==> s[k].0 != s[i].0
    requires s[j].1 != 0.0
    ensures PctChangeAt(s, i) == Some(100.0 * (s[i].1 - s[j].1) / s[j].1)
  {
    LastValueSpec(s[..i], s[i].0);
    assert s[..i][j] == s[j];
    assert LastValue(s[..i], s[i].0) == Some(s[j].1);
    PercentOf(s[i].1, s[j].1);
  }

  lemma PercentOf(x: real, p: real)
    requires p != 0.0
    ensures (x / p - 1.0) * 100.0 == 100.0 * (x - p) / p
  {
    assert (x - p) / p == x / p - p / p;
    assert 100.0 * (x - p) / p == 100.0 * ((x - p) / p);
  }

  /** A row is undefined exactly when it starts its zone or follows a zero. */
  lemma PctChangeDefined(s: Series, i: nat)
    requires i < |s|
    ensures PctChangeAt(s, i).None? <==>
              (forall j :: 0 <= j < i ==> s[j].0 != s[i].0) || LastValue(s[..i], s[i].0) == Some(0.0)
  {
    LastValueSpec(s[..i], s[i].0);
    if exists j :: 0 <= j < i && s[j].0 == s[i].0 {
      var j :| 0 <= j < i && s[j].0 == s[i].0;
      assert s[..i][j].0 == s[i].0;
    } else {
      forall j | 0 <= j < i ensures s[..i][j].0 != s[i].0 {
        assert s[..i][j] == s[j];
      }
    }
  }
}
