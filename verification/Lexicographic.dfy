/** The order of `std::pair<int64, std::string>`: by number, then by string. */
module Lexicographic {
  import O = OrderedKeys

  type Key = (int, string)

  predicate StringLe(a: string, b: string) {
    if a == [] then true
    else if b == [] then false
    else if a[0] != b[0] then a[0] < b[0]
    else StringLe(a[1..], b[1..])
  }

  predicate Le(a: Key, b: Key) {
    a.0 < b.0 || (a.0 == b.0 && StringLe(a.1, b.1))
  }

  lemma {:induction false} StringTotal(a: string, b: string)
    ensures StringLe(a, b) || StringLe(b, a)
  {
    if a != [] && b != [] && a[0] == b[0] {
      StringTotal(a[1..], b[1..]);
    }
  }

  lemma {:induction false} StringAntisymmetric(a: string, b: string)
    requires StringLe(a, b) && StringLe(b, a)
    ensures a == b
  {
    if a != [] && b != [] {
      StringAntisymmetric(a[1..], b[1..]);
      assert a == [a[0]] + a[1..] && b == [b[0]] + b[1..];
    }
  }

  lemma {:induction false} StringTransitive(a: string, b: string, c: string)
    requires StringLe(a, b) && StringLe(b, c)
    ensures StringLe(a, c)
  {
    if a != [] && a[0] == b[0] == c[0] {
      StringTransitive(a[1..], b[1..], c[1..]);
    }
  }

  /** `Le` is a total order. */
  lemma Order(a: Key, b: Key, c: Key)
    ensures Le(a, b) || Le(b, a)
    ensures Le(a, b) && Le(b, a) ==> a == b
    ensures Le(a, b) && Le(b, c) ==> Le(a, c)
  {
    StringTotal(a.1, b.1);
    if Le(a, b) && Le(b, a) {
      StringAntisymmetric(a.1, b.1);
    }
    if Le(a, b) && Le(b, c) && a.0 == b.0 == c.0 {
      StringTransitive(a.1, b.1, c.1);
    }
  }

  ghost predicate IsLeast(k: Key, keys: set<Key>) {
    k in keys && forall j :: j in keys ==> Le(k, j)
  }

  lemma FindLeast(keys: set<Key>) returns (k: Key)
    requires keys != {}
    ensures IsLeast(k, keys)
  {
    forall a, b, c ensures Le(a, b) || Le(b, a) ensures Le(a, b) && Le(b, c) ==> Le(a, c) { Order(a, b, c); }
    k := O.FindFirst(Le, keys);
  }

  lemma LeastUnique(keys: set<Key>)
    requires keys != {}
    ensures exists k :: IsLeast(k, keys)
    ensures forall k, j :: IsLeast(k, keys) && IsLeast(j, keys) ==> k == j
  {
    var k := FindLeast(keys);
    forall k, j | IsLeast(k, keys) && IsLeast(j, keys) ensures k == j {
      Order(k, j, k);
    }
  }

  ghost predicate IsGreatest(k: Key, keys: set<Key>) {
    k in keys && forall j :: j in keys ==> Le(j, k)
  }

  lemma FindGreatest(keys: set<Key>) returns (k: Key)
    requires keys != {}
    ensures IsGreatest(k, keys)
  {
    forall a, b, c ensures Le(a, b) || Le(b, a) ensures Le(a, b) && Le(b, c) ==> Le(a, c) { Order(a, b, c); }
    k := O.FindFirst((a: Key, b: Key) => Le(b, a), keys);
  }

  lemma GreatestUnique(keys: set<Key>)
    requires keys != {}
    ensures exists k :: IsGreatest(k, keys)
    ensures forall k, j :: IsGreatest(k, keys) && IsGreatest(j, keys) ==> k == j
  {
    var k := FindGreatest(keys);
    forall k, j | IsGreatest(k, keys) && IsGreatest(j, keys) ensures k == j {
      Order(k, j, k);
    }
  }

  /** The last key of a map ordered by `Le`. */
  ghost function Greatest(keys: set<Key>): (k: Key)
    requires keys != {}
    ensures IsGreatest(k, keys)
  {
    GreatestUnique(keys);
    var k :| IsGreatest(k, keys);
    k
  }
}
