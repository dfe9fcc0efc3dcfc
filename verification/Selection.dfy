/** What a loop that copies some of a list's items leaves: those items, each once, in their order. */
module Selection {

  ghost predicate Ascending(at: seq<nat>) {
    forall i, j :: 0 <= i < j < |at| ==> at[i] < at[j]
  }

  /** The list `part` is made of the items found at these positions. */
  ghost predicate From<T>(all: seq<T>, part: seq<T>, at: seq<nat>) {
    && |at| == |part|
    && forall i :: 0 <= i < |at| ==> at[i] < |all| && part[i] == all[at[i]]
  }

  /** The positions are exactly those of the items wanted. */
  ghost predicate Hits<T>(all: seq<T>, keep: T -> bool, at: seq<nat>) {
    forall p: nat :: p < |all| ==> (keep(all[p]) <==> p in at)
  }

  /** The list `part` is made of the wanted items of `all`, each once, in their order. */
  ghost predicate IsFilter<T>(all: seq<T>, part: seq<T>, keep: T -> bool) {
    exists at :: Ascending(at) && From(all, part, at) && Hits(all, keep, at)
  }

  lemma FilterEmpty<T>(keep: T -> bool)
    ensures IsFilter([], [], keep)
  {
    var at: seq<nat> := [];
    assert Ascending(at) && From<T>([], [], at) && Hits([], keep, at);
  }

  lemma HitsNext<T>(all: seq<T>, keep: T -> bool, at: seq<nat>, x: T)
    requires Hits(all, keep, at) && forall i :: 0 <= i < |at| ==> at[i] < |all|
    ensures keep(x) ==> Hits(all + [x], keep, at + [|all|])
    ensures !keep(x) ==> Hits(all + [x], keep, at)
  {
  }

  /** One more item, taken if it is wanted. */
  lemma FilterNext<T>(all: seq<T>, part: seq<T>, keep: T -> bool, x: T)
    requires IsFilter(all, part, keep)
    ensures keep(x) ==> IsFilter(all + [x], part + [x], keep)
    ensures !keep(x) ==> IsFilter(all + [x], part, keep)
  {
    var at: seq<nat> :| Ascending(at) && From(all, part, at) && Hits(all, keep, at);
    HitsNext(all, keep, at, x);
    if keep(x) {
      assert Ascending(at + [|all|]) && From(all + [x], part + [x], at + [|all|]);
    } else {
      assert From(all + [x], part, at);
    }
  }
}
