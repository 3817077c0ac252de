/** The group-by engine behind every `df.groupby(keys).agg(...)` of the
    dashboards: entries (a key and an accumulated value each) are folded into
    a table with one group per distinct key, in ascending key order. */
module Grouping {
  import opened Keys

  /** One output row of a group-by: its key and the accumulated value. */
  datatype Group<V> = Group(key: Key, value: V)

  /** Keys strictly ascending: sorted, and no key twice. */
  predicate StrictlySorted<V>(gs: seq<Group<V>>)
  {
    forall i, j :: 0 <= i < j < |gs| ==> KeyLess(gs[i].key, gs[j].key)
  }

  ghost function KeysOf<V>(gs: seq<Group<V>>): set<Key>
  {
    set g | g in gs :: g.key
  }

  ghost function EntryKeys<V>(es: seq<(Key, V)>): set<Key>
  {
    set e | e in es :: e.0
  }

  /** Adds one entry to a key-sorted table: into the group with its key when
      there is one, otherwise as a new group at its sorted position. */
  function Insert<V>(gs: seq<Group<V>>, k: Key, v: V, add: (V, V) -> V): seq<Group<V>>
  {
    if gs == [] then [Group(k, v)]
    else if gs[0].key == k then [Group(k, add(gs[0].value, v))] + gs[1..]
    else if KeyLess(k, gs[0].key) then [Group(k, v)] + gs
    else [gs[0]] + Insert(gs[1..], k, v, add)
  }

  /** `groupby(...).agg(...)`: the fold of all entries into groups. */
  function GroupBy<V>(es: seq<(Key, V)>, add: (V, V) -> V): seq<Group<V>>
  {
    if es == [] then [] else Insert(GroupBy(es[1..], add), es[0].0, es[0].1, add)
  }

  lemma {:induction false} InsertKeys<V>(gs: seq<Group<V>>, k: Key, v: V, add: (V, V) -> V)
    ensures KeysOf(Insert(gs, k, v, add)) == KeysOf(gs) + {k}
  {
    var r := Insert(gs, k, v, add);
    if gs != [] {
      assert gs == [gs[0]] + gs[1..];
      assert KeysOf(gs) == {gs[0].key} + KeysOf(gs[1..]);
      if gs[0].key == k {
        assert r == [Group(k, add(gs[0].value, v))] + gs[1..];
      } else if KeyLess(k, gs[0].key) {
        assert r == [Group(k, v)] + gs;
      } else {
        var rest := Insert(gs[1..], k, v, add);
        InsertKeys(gs[1..], k, v, add);
        assert r == [gs[0]] + rest;
        assert KeysOf(r) == {gs[0].key} + KeysOf(rest);
      }
    }
  }

  lemma {:induction false} InsertSorted<V>(gs: seq<Group<V>>, k: Key, v: V, add: (V, V) -> V)
    requires StrictlySorted(gs)
    ensures StrictlySorted(Insert(gs, k, v, add))
  {
    var r := Insert(gs, k, v, add);
    if gs == [] {
    } else if gs[0].key == k {
      assert forall i :: 0 <= i < |gs| ==> r[i].key == gs[i].key;
    } else if KeyLess(k, gs[0].key) {
      forall j | 0 < j < |r| ensures KeyLess(k, r[j].key) {
        assert r[j] == gs[j - 1];
        if j > 1 {
          KeyLessTransitive(k, gs[0].key, gs[j - 1].key);
        }
      }
    } else {
      KeyLessTotal(k, gs[0].key);
      var rest := Insert(gs[1..], k, v, add);
      InsertSorted(gs[1..], k, v, add);
      InsertKeys(gs[1..], k, v, add);
      assert r == [gs[0]] + rest;
      forall j | 0 <= j < |rest| ensures KeyLess(gs[0].key, rest[j].key) {
        assert rest[j] in rest;
        assert rest[j].key in KeysOf(rest);
        if rest[j].key != k {
          var g :| g in gs[1..] && g.key == rest[j].key;
          var i :| 0 <= i < |gs[1..]| && gs[1..][i] == g;
          assert gs[i + 1] == g;
        }
      }
    }
  }

  /** A group-by yields one group per distinct entry key, in ascending key order. */
  lemma {:induction false} GroupBySpec<V>(es: seq<(Key, V)>, add: (V, V) -> V)
    ensures StrictlySorted(GroupBy(es, add))
    ensures KeysOf(GroupBy(es, add)) == EntryKeys(es)
  {
    if es != [] {
      GroupBySpec(es[1..], add);
      InsertSorted(GroupBy(es[1..], add), es[0].0, es[0].1, add);
      InsertKeys(GroupBy(es[1..], add), es[0].0, es[0].1, add);
      assert es == [es[0]] + es[1..];
      assert EntryKeys(es) == {es[0].0} + EntryKeys(es[1..]);
    }
  }

  lemma {:induction false} InsertKeepsInvariant<V>(gs: seq<Group<V>>, k: Key, v: V, add: (V, V) -> V, inv: V -> bool)
    requires forall g :: g in gs ==> inv(g.value)
    requires inv(v)
    requires forall a, b :: inv(a) && inv(b) ==> inv(add(a, b))
    ensures forall g :: g in Insert(gs, k, v, add) ==> inv(g.value)
  {
    if gs != [] && gs[0].key != k && !KeyLess(k, gs[0].key) {
      assert forall g :: g in gs[1..] ==> g in gs;
      InsertKeepsInvariant(gs[1..], k, v, add, inv);
    }
  }

  /** A property of values that every entry has and that accumulating keeps
      holds of every group. */
  lemma {:induction false} GroupByKeepsInvariant<V>(es: seq<(Key, V)>, add: (V, V) -> V, inv: V -> bool)
    requires forall e :: e in es ==> inv(e.1)
    requires forall a, b :: inv(a) && inv(b) ==> inv(add(a, b))
    ensures forall g :: g in GroupBy(es, add) ==> inv(g.value)
  {
    if es != [] {
      assert forall e :: e in es[1..] ==> e in es;
      GroupByKeepsInvariant(es[1..], add, inv);
      InsertKeepsInvariant(GroupBy(es[1..], add), es[0].0, es[0].1, add, inv);
    }
  }

  /** `add` and `zero` form a commutative monoid (sums of numbers, of columns). */
  ghost predicate IsCommutativeMonoid<V(!new)>(add: (V, V) -> V, zero: V)
  {
    && (forall a, b :: add(a, b) == add(b, a))
    && (forall a, b, c :: add(add(a, b), c) == add(a, add(b, c)))
    && (forall a :: add(zero, a) == a)
  }

  /** The accumulated value of the groups whose key satisfies `p`. */
  function SumGroups<V>(gs: seq<Group<V>>, p: Key -> bool, add: (V, V) -> V, zero: V): V
  {
    if gs == [] then zero
    else if p(gs[0].key) then add(gs[0].value, SumGroups(gs[1..], p, add, zero))
    else SumGroups(gs[1..], p, add, zero)
  }

  /** The accumulated value of the entries whose key satisfies `p`. */
  function SumEntries<V>(es: seq<(Key, V)>, p: Key -> bool, add: (V, V) -> V, zero: V): V
  {
    if es == [] then zero
    else if p(es[0].0) then add(es[0].1, SumEntries(es[1..], p, add, zero))
    else SumEntries(es[1..], p, add, zero)
  }

  lemma {:induction false} InsertSum<V(!new)>(gs: seq<Group<V>>, k: Key, v: V, add: (V, V) -> V, zero: V, p: Key -> bool)
    requires IsCommutativeMonoid(add, zero)
    ensures SumGroups(Insert(gs, k, v, add), p, add, zero)
         == if p(k) then add(v, SumGroups(gs, p, add, zero)) else SumGroups(gs, p, add, zero)
  {
    if gs == [] {
    } else if gs[0].key == k {
      var r := Insert(gs, k, v, add);
      assert r[1..] == gs[1..];
    } else if KeyLess(k, gs[0].key) {
      var r := Insert(gs, k, v, add);
      assert r[1..] == gs;
    } else {
      var r := Insert(gs, k, v, add);
      assert r[1..] == Insert(gs[1..], k, v, add);
      InsertSum(gs[1..], k, v, add, zero, p);
    }
  }

  /** Totals agree across granularities: the groups whose key satisfies `p`
      accumulate to what the entries with such keys accumulate to. */
  lemma {:induction false} GroupBySum<V(!new)>(es: seq<(Key, V)>, add: (V, V) -> V, zero: V, p: Key -> bool)
    requires IsCommutativeMonoid(add, zero)
    ensures SumGroups(GroupBy(es, add), p, add, zero) == SumEntries(es, p, add, zero)
  {
    if es != [] {
      GroupBySum(es[1..], add, zero, p);
      InsertSum(GroupBy(es[1..], add), es[0].0, es[0].1, add, zero, p);
    }
  }

  lemma {:induction false} SumGroupsOfNone<V(!new)>(gs: seq<Group<V>>, p: Key -> bool, add: (V, V) -> V, zero: V)
    requires forall g :: g in gs ==> !p(g.key)
    ensures SumGroups(gs, p, add, zero) == zero
  {
    if gs != [] {
      assert forall g :: g in gs[1..] ==> g in gs;
      SumGroupsOfNone(gs[1..], p, add, zero);
    }
  }

  lemma {:induction false} SumGroupsOfOne<V(!new)>(gs: seq<Group<V>>, i: nat, add: (V, V) -> V, zero: V, p: Key -> bool)
    requires IsCommutativeMonoid(add, zero)
    requires StrictlySorted(gs) && i < |gs|
    requires forall x :: p(x) == (x == gs[i].key)
    ensures SumGroups(gs, p, add, zero) == gs[i].value
  {
    var k := gs[i].key;
    if i == 0 {
      forall g | g in gs[1..] ensures !p(g.key) {
        var j :| 0 <= j < |gs[1..]| && gs[1..][j] == g;
        assert gs[j + 1] == g;
        KeyLessAsymmetric(k, g.key);
      }
      SumGroupsOfNone(gs[1..], p, add, zero);
    } else {
      KeyLessAsymmetric(gs[0].key, k);
      assert gs[1..][i - 1] == gs[i];
      SumGroupsOfOne(gs[1..], i - 1, add, zero, p);
    }
  }

  /** Each group holds exactly the accumulation of the entries with its key
      (`p` selects that key). */
  lemma GroupByLookup<V(!new)>(es: seq<(Key, V)>, add: (V, V) -> V, zero: V, i: nat, p: Key -> bool)
    requires IsCommutativeMonoid(add, zero)
    requires i < |GroupBy(es, add)|
    requires forall x :: p(x) == (x == GroupBy(es, add)[i].key)
    ensures GroupBy(es, add)[i].value == SumEntries(es, p, add, zero)
  {
    var gs := GroupBy(es, add);
    GroupBySpec(es, add);
    SumGroupsOfOne(gs, i, add, zero, p);
    GroupBySum(es, add, zero, p);
  }
}
