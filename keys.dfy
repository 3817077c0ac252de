/** Group keys and the order pandas sorts them in. `groupby` (with its default
    `sort=True`) emits one row per distinct key in ascending key order; a key
    of several columns compares lexicographically, level by level, and Python
    compares strings by code point, as Dafny compares characters. */
module Keys {

  /** One level of a group key: a number (a year, a month, a quarter) or a
      string (a zone or a region). */
  datatype KeyPart = Num(n: int) | Text(s: string)

  /** A group key: its levels, outermost first. */
  type Key = seq<KeyPart>

  /** Python's `<` on strings. */
  predicate StrLess(a: string, b: string)
  {
    if |a| == 0 then |b| > 0
    else if |b| == 0 then false
    else a[0] < b[0] || (a[0] == b[0] && StrLess(a[1..], b[1..]))
  }

  /** The order of one key level; a column never holds both kinds, so the
      mixed case only has to keep the order total. */
  predicate PartLess(x: KeyPart, y: KeyPart)
  {
    match (x, y)
    case (Num(a), Num(b)) => a < b
    case (Text(a), Text(b)) => StrLess(a, b)
    case (Num(_), Text(_)) => true
    case (Text(_), Num(_)) => false
  }

  /** The lexicographic order of a MultiIndex. */
  predicate KeyLess(a: Key, b: Key)
  {
    if |a| == 0 then |b| > 0
    else if |b| == 0 then false
    else PartLess(a[0], b[0]) || (a[0] == b[0] && KeyLess(a[1..], b[1..]))
  }

  lemma {:induction false} StrLessIrreflexive(a: string)
    ensures !StrLess(a, a)
  {
    if |a| > 0 {
      StrLessIrreflexive(a[1..]);
    }
  }

  lemma {:induction false} StrLessTransitive(a: string, b: string, c: string)
    requires StrLess(a, b) && StrLess(b, c)
    ensures StrLess(a, c)
  {
    if |a| > 0 && a[0] == b[0] && b[0] == c[0] {
      StrLessTransitive(a[1..], b[1..], c[1..]);
    }
  }

  lemma {:induction false} StrLessTotal(a: string, b: string)
    requires a != b
    ensures StrLess(a, b) || StrLess(b, a)
  {
    if |a| > 0 && |b| > 0 && a[0] == b[0] {
      assert a == [a[0]] + a[1..] && b == [b[0]] + b[1..];
      StrLessTotal(a[1..], b[1..]);
    }
  }

  lemma PartLessIrreflexive(x: KeyPart)
    ensures !PartLess(x, x)
  {
    if x.Text? {
      StrLessIrreflexive(x.s);
    }
  }

  lemma PartLessTransitive(x: KeyPart, y: KeyPart, z: KeyPart)
    requires PartLess(x, y) && PartLess(y, z)
    ensures PartLess(x, z)
  {
    if x.Text? && y.Text? && z.Text? {
      StrLessTransitive(x.s, y.s, z.s);
    }
  }

  lemma PartLessTotal(x: KeyPart, y: KeyPart)
    requires x != y
    ensures PartLess(x, y) || PartLess(y, x)
  {
    if x.Text? && y.Text? {
      StrLessTotal(x.s, y.s);
    }
  }

  lemma {:induction false} KeyLessIrreflexive(a: Key)
    ensures !KeyLess(a, a)
  {
    if |a| > 0 {
      PartLessIrreflexive(a[0]);
      KeyLessIrreflexive(a[1..]);
    }
  }

  lemma {:induction false} KeyLessTransitive(a: Key, b: Key, c: Key)
    requires KeyLess(a, b) && KeyLess(b, c)
    ensures KeyLess(a, c)
  {
    if |a| > 0 {
      if a[0] == b[0] && b[0] == c[0] {
        PartLessIrreflexive(a[0]);
        KeyLessTransitive(a[1..], b[1..], c[1..]);
      } else if PartLess(a[0], b[0]) && PartLess(b[0], c[0]) {
        PartLessTransitive(a[0], b[0], c[0]);
      }
    }
  }

  lemma {:induction false} KeyLessTotal(a: Key, b: Key)
    requires a != b
    ensures KeyLess(a, b) || KeyLess(b, a)
  {
    if |a| > 0 && |b| > 0 {
      if a[0] == b[0] {
        assert a == [a[0]] + a[1..] && b == [b[0]] + b[1..];
        KeyLessTotal(a[1..], b[1..]);
      } else {
        PartLessTotal(a[0], b[0]);
      }
    }
  }

  /** Neither of two keys precedes the other only when they are equal. */
  lemma KeyLessAsymmetric(a: Key, b: Key)
    requires KeyLess(a, b)
    ensures !KeyLess(b, a) && a != b
  {
    KeyLessIrreflexive(a);
    if KeyLess(b, a) {
      KeyLessTransitive(a, b, a);
    }
  }

  /** Keys compare on their first level, then on the rest. */
  lemma KeyLessCons(x: KeyPart, a: Key, y: KeyPart, b: Key)
    ensures KeyLess([x] + a, [y] + b) <==> PartLess(x, y) || (x == y && KeyLess(a, b))
  {
    assert ([x] + a)[0] == x && ([x] + a)[1..] == a;
    assert ([y] + b)[0] == y && ([y] + b)[1..] == b;
  }

  /** Two keys of one number each compare as the numbers. */
  lemma KeyLessNum(a: int, b: int)
    ensures KeyLess([Num(a)], [Num(b)]) <==> a < b
  {
    KeyLessCons(Num(a), [], Num(b), []);
    assert [Num(a)] == [Num(a)] + [] && [Num(b)] == [Num(b)] + [];
  }

  /** Two keys of one string each compare as the strings. */
  lemma KeyLessText(a: string, b: string)
    ensures KeyLess([Text(a)], [Text(b)]) <==> StrLess(a, b)
  {
    KeyLessCons(Text(a), [], Text(b), []);
    assert [Text(a)] == [Text(a)] + [] && [Text(b)] == [Text(b)] + [];
  }

  /** Two keys of equal length that end in the same level compare as the
      levels before it. */
  lemma {:induction false} KeyLessSameLast(p: Key, q: Key, x: KeyPart)
    requires |p| == |q|
    requires KeyLess(p + [x], q + [x])
    ensures KeyLess(p, q)
  {
    if |p| == 0 {
      assert p + [x] == [x] && q + [x] == [x];
      KeyLessIrreflexive([x]);
    } else {
      assert (p + [x])[0] == p[0] && (p + [x])[1..] == p[1..] + [x];
      assert (q + [x])[0] == q[0] && (q + [x])[1..] == q[1..] + [x];
      if !PartLess(p[0], q[0]) {
        KeyLessSameLast(p[1..], q[1..], x);
      }
    }
  }
}
