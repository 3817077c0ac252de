/** Values and table operations shared by every dashboard page: the optional
    value that stands for pandas' NaN, calendar dates, boolean-mask selection
    (`df[mask]`), `unique()` and `idxmax()`/`idxmin()`. */
module Common {

  /** An optional value; `None` stands for pandas' NaN (no previous row, a
      division by zero, the mean of nothing). */
  datatype Option<T> = None | Some(value: T)

  /** A calendar date. Dates derived from a dataset row are day 1 of its month. */
  datatype Date = Date(year: int, month: int, day: int)

  /** The chronological order of dates (`<=` on pandas timestamps). */
  predicate DateLe(a: Date, b: Date)
  {
    a.year < b.year || (a.year == b.year && (a.month < b.month || (a.month == b.month && a.day <= b.day)))
  }

  /** The length of a month of the Gregorian calendar. */
  function DaysInMonth(year: int, month: int): int
  {
    if month == 2 then (if (year % 4 == 0 && year % 100 != 0) || year % 400 == 0 then 29 else 28)
    else if month == 4 || month == 6 || month == 9 || month == 11 then 30
    else 31
  }

  /** Boolean-mask selection `df[mask]`: the rows that satisfy `p`, in order. */
  function Where<T>(s: seq<T>, p: T -> bool): (r: seq<T>)
    ensures |r| <= |s|
    ensures forall x :: x in r ==> x in s && p(x)
    ensures forall x :: x in s && p(x) ==> x in r
  {
    if s == [] then []
    else if p(s[0]) then [s[0]] + Where(s[1..], p)
    else Where(s[1..], p)
  }

  /** `a` is `b` with some elements removed and the rest in their original order. */
  predicate IsSubsequence<T(==)>(a: seq<T>, b: seq<T>)
    decreases |b|
  {
    if a == [] then true
    else if b == [] then false
    else (a[0] == b[0] && IsSubsequence(a[1..], b[1..])) || IsSubsequence(a, b[1..])
  }

  lemma {:induction false} WhereIsSubsequence<T>(s: seq<T>, p: T -> bool)
    ensures IsSubsequence(Where(s, p), s)
  {
    if s != [] {
      WhereIsSubsequence(s[1..], p);
      if p(s[0]) {
        assert ([s[0]] + Where(s[1..], p))[1..] == Where(s[1..], p);
      }
    }
  }

  /** A mask keeps every copy of an element it accepts and no copy of one it
      rejects. */
  lemma {:induction false} WhereCount<T>(s: seq<T>, p: T -> bool)
    ensures forall x :: multiset(Where(s, p))[x] == if p(x) then multiset(s)[x] else 0
  {
    if s != [] {
      WhereCount(s[1..], p);
      assert s == [s[0]] + s[1..];
      assert multiset(s) == multiset{s[0]} + multiset(s[1..]);
      if p(s[0]) {
        assert multiset(Where(s, p)) == multiset{s[0]} + multiset(Where(s[1..], p));
      }
    }
  }

  /** Two masks that agree on every row select the same rows. */
  lemma {:induction false} WhereCongruent<T>(s: seq<T>, p: T -> bool, q: T -> bool)
    requires forall x :: x in s ==> p(x) == q(x)
    ensures Where(s, p) == Where(s, q)
  {
    if s != [] {
      assert forall x :: x in s[1..] ==> x in s;
      WhereCongruent(s[1..], p, q);
    }
  }

  /** Masking twice is masking once with the conjunction. */
  lemma {:induction false} WhereWhere<T>(s: seq<T>, p: T -> bool, q: T -> bool, pq: T -> bool)
    requires forall x :: pq(x) == (p(x) && q(x))
    ensures Where(Where(s, p), q) == Where(s, pq)
  {
    if s != [] {
      WhereWhere(s[1..], p, q, pq);
      if p(s[0]) {
        assert ([s[0]] + Where(s[1..], p))[1..] == Where(s[1..], p);
      }
    }
  }

  /** A mask leaves an empty table exactly when no row satisfies it. */
  lemma WhereEmpty<T>(s: seq<T>, p: T -> bool)
    ensures |Where(s, p)| == 0 <==> forall x :: x in s ==> !p(x)
  {
    var r := Where(s, p);
    if |r| > 0 {
      assert r[0] in r;
    }
  }

  /** Masking a masked table again with the same mask changes nothing. */
  lemma WhereIdempotent<T>(s: seq<T>, p: T -> bool)
    ensures Where(Where(s, p), p) == Where(s, p)
  {
    WhereWhere(s, p, p, p);
  }

  /** A mask that every row satisfies keeps the table as it is. */
  lemma {:induction false} WhereAll<T>(s: seq<T>, p: T -> bool)
    requires forall x :: x in s ==> p(x)
    ensures Where(s, p) == s
  {
    if s != [] {
      assert forall x :: x in s[1..] ==> x in s;
      WhereAll(s[1..], p);
    }
  }

  /** A mask that no row satisfies keeps nothing. */
  lemma {:induction false} WhereNone<T>(s: seq<T>, p: T -> bool)
    requires forall x :: x in s ==> !p(x)
    ensures Where(s, p) == []
  {
    if s != [] {
      assert forall x :: x in s[1..] ==> x in s;
      WhereNone(s[1..], p);
    }
  }

  /** The position of the first occurrence of `x` in `s`. */
  function FirstIndex<T(==)>(s: seq<T>, x: T): (i: nat)
    requires x in s
    ensures i < |s| && s[i] == x
    ensures forall j :: 0 <= j < i ==> s[j] != x
  {
    if s[0] == x then 0 else 1 + FirstIndex(s[1..], x)
  }

  /** pandas' `Series.unique()`: the distinct values, in order of first appearance. */
  function Distinct<T(==)>(s: seq<T>): seq<T>
  {
    if s == [] then []
    else
      var d := Distinct(s[..|s| - 1]);
      if s[|s| - 1] in d then d else d + [s[|s| - 1]]
  }

  lemma {:induction false} FirstIndexPrefix<T>(s: seq<T>, n: nat, x: T)
    requires n <= |s| && x in s[..n]
    ensures x in s && FirstIndex(s, x) == FirstIndex(s[..n], x)
  {
    var k := FirstIndex(s[..n], x);
    assert s[k] == x;
  }

  /** A value is listed by `unique()` exactly when it occurs. */
  lemma {:induction false} DistinctMember<T>(s: seq<T>, x: T)
    ensures x in Distinct(s) <==> x in s
  {
    if s != [] {
      var n := |s| - 1;
      DistinctMember(s[..n], x);
      assert s == s[..n] + [s[n]];
    }
  }

  /** `unique()` lists its values in order of first appearance. */
  lemma {:induction false} DistinctOrder<T>(s: seq<T>)
    ensures forall x :: x in Distinct(s) ==> x in s
    ensures forall i, j :: 0 <= i < j < |Distinct(s)| ==>
              FirstIndex(s, Distinct(s)[i]) < FirstIndex(s, Distinct(s)[j])
  {
    forall x | x in Distinct(s) ensures x in s {
      DistinctMember(s, x);
    }
    if s != [] {
      var n := |s| - 1;
      var p := s[..n];
      DistinctOrder(p);
      var d := Distinct(p);
      if s[n] !in d {
        var r := d + [s[n]];
        assert s == p + [s[n]];
        forall i, j | 0 <= i < j < |r| ensures FirstIndex(s, r[i]) < FirstIndex(s, r[j]) {
          assert r[i] == d[i];
          FirstIndexPrefix(s, n, r[i]);
          if j < |d| {
            assert r[j] == d[j];
            FirstIndexPrefix(s, n, r[j]);
          } else {
            DistinctMember(p, s[n]);
            FirstIndexLast(s, n);
          }
        }
      } else {
        forall i | 0 <= i < |d| ensures FirstIndex(s, d[i]) == FirstIndex(p, d[i]) {
          FirstIndexPrefix(s, n, d[i]);
        }
      }
    }
  }

  /** A value new at position `n` first appears there. */
  lemma FirstIndexLast<T>(s: seq<T>, n: nat)
    requires n < |s| && s[n] !in s[..n]
    ensures FirstIndex(s, s[n]) == n
  {
    forall j | 0 <= j < n ensures s[j] != s[n] {
      assert s[j] == s[..n][j];
    }
  }

  /** `unique()` lists every value once, nothing else, and in first-appearance order. */
  lemma DistinctSpec<T>(s: seq<T>)
    ensures forall x :: x in Distinct(s) <==> x in s
    ensures forall i, j :: 0 <= i < j < |Distinct(s)| ==> Distinct(s)[i] != Distinct(s)[j]
    ensures forall i, j :: 0 <= i < j < |Distinct(s)| ==>
              FirstIndex(s, Distinct(s)[i]) < FirstIndex(s, Distinct(s)[j])
  {
    forall x ensures x in Distinct(s) <==> x in s {
      DistinctMember(s, x);
    }
    DistinctOrder(s);
  }

  /** pandas' `idxmax()` over a column: the position of the largest value,
      the first one on a tie; `None` (pandas raises) on an empty column. */
  function IdxMax(v: seq<real>): (r: Option<nat>)
    ensures r.None? <==> |v| == 0
    ensures r.Some? ==> r.value < |v|
    ensures r.Some? ==> forall j :: 0 <= j < |v| ==> v[j] <= v[r.value]
    ensures r.Some? ==> forall j :: 0 <= j < r.value ==> v[j] < v[r.value]
  {
    if |v| == 0 then None
    else if |v| == 1 then Some(0)
    else
      var m := IdxMax(v[..|v| - 1]).value;
      if v[|v| - 1] > v[m] then Some(|v| - 1) else Some(m)
  }

  /** pandas' `idxmin()` over a column: the position of the smallest value,
      the first one on a tie; `None` (pandas raises) on an empty column. */
  function IdxMin(v: seq<real>): (r: Option<nat>)
    ensures r.None? <==> |v| == 0
    ensures r.Some? ==> r.value < |v|
    ensures r.Some? ==> forall j :: 0 <= j < |v| ==> v[r.value] <= v[j]
    ensures r.Some? ==> forall j :: 0 <= j < r.value ==> v[r.value] < v[j]
  {
    if |v| == 0 then None
    else if |v| == 1 then Some(0)
    else
      var m := IdxMin(v[..|v| - 1]).value;
      if v[|v| - 1] < v[m] then Some(|v| - 1) else Some(m)
  }
}
