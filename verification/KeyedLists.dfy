/** Lists whose items have a key: read as a map, and free of repeated keys. */
module KeyedLists {
  predicate DistinctKeys<T>(xs: seq<T>, key: T -> string) {
    forall i, j :: 0 <= i < j < |xs| ==> key(xs[i]) != key(xs[j])
  }

  /** The items by key; a later item replaces an earlier one with the same key. */
  function ByKey<T>(xs: seq<T>, key: T -> string): map<string, T> {
    if xs == [] then map[] else
      var last := xs[|xs| - 1];
      ByKey(xs[..|xs| - 1], key)[key(last) := last]
  }

  lemma {:induction false} ByKeyHoldsExactly<T>(xs: seq<T>, key: T -> string)
    ensures forall k :: k in ByKey(xs, key) ==> ByKey(xs, key)[k] in xs && key(ByKey(xs, key)[k]) == k
    ensures forall x :: x in xs ==> key(x) in ByKey(xs, key)
    ensures DistinctKeys(xs, key) ==> forall x :: x in xs ==> ByKey(xs, key)[key(x)] == x
  {
    if xs != [] {
      var front, last := xs[..|xs| - 1], xs[|xs| - 1];
      ByKeyHoldsExactly(front, key);
      assert xs == front + [last];
      assert DistinctKeys(xs, key) ==> forall x :: x in front ==> key(x) != key(last);
    }
  }

  lemma DistinctExtends<T>(front: seq<T>, x: T, key: T -> string)
    requires DistinctKeys(front, key)
    ensures DistinctKeys(front + [x], key) <==> key(x) !in ByKey(front, key)
  {
    ByKeyHoldsExactly(front, key);
    if key(x) in ByKey(front, key) {
      var j :| 0 <= j < |front| && front[j] == ByKey(front, key)[key(x)];
      assert key((front + [x])[j]) == key((front + [x])[|front|]);
    } else {
      assert forall y :: y in front ==> key(y) != key(x);
    }
  }

  /** Reading one more item: the map grows by it, and keys stay distinct exactly if its key is new. */
  lemma DistinctGrows<T>(xs: seq<T>, i: nat, key: T -> string)
    requires i < |xs| && DistinctKeys(xs[..i], key)
    ensures ByKey(xs[..i + 1], key) == ByKey(xs[..i], key)[key(xs[i]) := xs[i]]
    ensures DistinctKeys(xs[..i + 1], key) <==> key(xs[i]) !in ByKey(xs[..i], key)
    ensures DistinctKeys(xs, key) ==> DistinctKeys(xs[..i + 1], key)
  {
    assert xs[..i + 1][..i] == xs[..i];
    assert xs[..i + 1] == xs[..i] + [xs[i]];
    DistinctExtends(xs[..i], xs[i], key);
    assert DistinctKeys(xs, key) ==> forall j, k :: 0 <= j < k < i + 1 ==> key(xs[j]) != key(xs[k]);
  }
}
