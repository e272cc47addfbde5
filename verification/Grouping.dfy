/** Grouping a list by a key, as `buildSeries` groups points by time bucket and `aggregateRollups` by
    bucket, method and route. */
module Grouping {
  import opened Ordering

  function HasKey<T, K(==)>(keyOf: T -> K, k: K): T -> bool { (x: T) => keyOf(x) == k }

  /** The elements with the key, in order. */
  function Group<T, K(==)>(keyOf: T -> K, k: K, items: seq<T>): seq<T> { Select(HasKey(keyOf, k), items) }

  lemma GroupConcat<T, K>(keyOf: T -> K, k: K, a: seq<T>, b: seq<T>)
    ensures Group(keyOf, k, a + b) == Group(keyOf, k, a) + Group(keyOf, k, b)
  {
    SelectConcat(HasKey(keyOf, k), a, b);
  }

  lemma GroupStep<T, K>(keyOf: T -> K, k: K, items: seq<T>, x: T)
    ensures Group(keyOf, k, items + [x]) == Group(keyOf, k, items) + (if keyOf(x) == k then [x] else [])
  {
    GroupConcat(keyOf, k, items, [x]);
    var head := if keyOf(x) == k then [x] else [];
    assert [x][1..] == [] && Select(HasKey(keyOf, k), [x][1..]) == [];
    assert Select(HasKey(keyOf, k), [x]) == head + [];
  }

  lemma GroupMember<T, K>(keyOf: T -> K, k: K, items: seq<T>, x: T)
    ensures x in Group(keyOf, k, items) <==> x in items && keyOf(x) == k
  {
    SelectMember(HasKey(keyOf, k), items, x);
  }

  /** Elements per listed key, summed. */
  function GroupSum<T, K(==)>(keyOf: T -> K, keys: seq<K>, items: seq<T>): nat {
    if keys == [] then 0
    else GroupSum(keyOf, keys[..|keys| - 1], items) + |Group(keyOf, keys[|keys| - 1], items)|
  }

  lemma {:induction false} GroupSumStep<T, K>(keyOf: T -> K, keys: seq<K>, items: seq<T>, x: T)
    requires forall j, k :: 0 <= j < k < |keys| ==> keys[j] != keys[k]
    ensures GroupSum(keyOf, keys, items + [x]) == GroupSum(keyOf, keys, items) + (if keyOf(x) in keys then 1 else 0)
  {
    if keys != [] {
      var n := |keys| - 1;
      GroupSumStep(keyOf, keys[..n], items, x);
      GroupStep(keyOf, keys[n], items, x);
      assert keys == keys[..n] + [keys[n]];
      assert keys[n] !in keys[..n];
    }
  }

  lemma {:induction false} NothingToGroup<T, K>(keyOf: T -> K, keys: seq<K>)
    ensures GroupSum(keyOf, keys, []) == 0
  {
    if keys != [] { NothingToGroup(keyOf, keys[..|keys| - 1]); }
  }

  /** With distinct keys covering every element, the groups share out the list. */
  lemma {:induction false} GroupsShareOut<T, K>(keyOf: T -> K, keys: seq<K>, items: seq<T>)
    requires forall j, k :: 0 <= j < k < |keys| ==> keys[j] != keys[k]
    requires forall x :: x in items ==> keyOf(x) in keys
    ensures GroupSum(keyOf, keys, items) == |items|
  {
    if items == [] {
      NothingToGroup(keyOf, keys);
    } else {
      var n := |items| - 1;
      assert items == items[..n] + [items[n]];
      GroupsShareOut(keyOf, keys, items[..n]);
      GroupSumStep(keyOf, keys, items[..n], items[n]);
    }
  }
}
