/** First and last keys of an ordered map keyed by sequence number, and unsigned 64-bit bounds. */
module OrderedKeys {

  const MAX64: nat := 0xFFFF_FFFF_FFFF_FFFF

  function Min(a: int, b: int): int { if a < b then a else b }

  function Max(a: int, b: int): int { if a < b then b else a }

  ghost predicate TotalOrder<T(!new)>(le: (T, T) -> bool) {
    && (forall a, b :: le(a, b) || le(b, a))
    && (forall a, b, c :: le(a, b) && le(b, c) ==> le(a, c))
  }

  lemma {:induction false} FindFirst<T(!new)>(le: (T, T) -> bool, keys: set<T>) returns (k: T)
    requires TotalOrder(le) && keys != {}
    ensures k in keys && forall j :: j in keys ==> le(k, j)
  {
    k :| k in keys;
    var rest := keys - {k};
    assert keys == rest + {k};
    assert le(k, k);
    if rest != {} {
      var m := FindFirst(le, rest);
      if le(m, k) {
        k := m;
      } else {
        assert le(k, m);
      }
    }
  }

  lemma LeastExists(keys: set<nat>)
    requires keys != {}
    ensures exists k :: k in keys && forall j :: j in keys ==> k <= j
  {
    var k := FindFirst((a: nat, b: nat) => a <= b, keys);
  }

  lemma GreatestExists(keys: set<nat>)
    requires keys != {}
    ensures exists k :: k in keys && forall j :: j in keys ==> j <= k
  {
    var k := FindFirst((a: nat, b: nat) => b <= a, keys);
  }

  /** The key at `begin()`. */
  function Least(keys: set<nat>): (k: nat)
    requires keys != {}
    ensures k in keys && forall j :: j in keys ==> k <= j
  {
    LeastExists(keys);
    var k :| k in keys && forall j :: j in keys ==> k <= j;
    k
  }

  /** The key just before `end()`. */
  function Greatest(keys: set<nat>): (k: nat)
    requires keys != {}
    ensures k in keys && forall j :: j in keys ==> j <= k
  {
    GreatestExists(keys);
    var k :| k in keys && forall j :: j in keys ==> j <= k;
    k
  }

  /** The values of an ordered map, by ascending key. */
  function ByKey<T>(m: map<nat, T>): (vs: seq<T>)
    ensures |vs| == |m|
  {
    if m == map[] then []
    else
      var k := Least(m.Keys);
      assert m.Keys == (m - {k}).Keys + {k};
      [m[k]] + ByKey(m - {k})
  }
}
