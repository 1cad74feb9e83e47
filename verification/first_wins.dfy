/**
 Keeping the first of several items with the same key, in order. The pass over components keeps one
 attempt per repository and branch this way, and the OSV conversion one entry per package name.
 */
module FirstWins {
  type Item<K, V> = (K, V)

  function Keys<K, V>(items: seq<Item<K, V>>): (keys: seq<K>)
    ensures |keys| == |items| && forall i | 0 <= i < |items| :: keys[i] == items[i].0
  {
    seq(|items|, i requires 0 <= i < |items| => items[i].0)
  }

  /** What a loop does that appends an item unless an item with its key is already in the list. */
  function AddIfNew<K(==), V>(list: seq<Item<K, V>>, item: Item<K, V>): seq<Item<K, V>> {
    if item.0 in Keys(list) then list else list + [item]
  }

  function FirstByKey<K(==), V>(items: seq<Item<K, V>>): seq<Item<K, V>> {
    if items == [] then [] else AddIfNew(FirstByKey(items[..|items| - 1]), items[|items| - 1])
  }

  predicate DistinctKeys<K(==), V>(items: seq<Item<K, V>>) {
    forall i, j | 0 <= i < j < |items| :: items[i].0 != items[j].0
  }

  /** Position i is the first in `items` with its key. */
  predicate FirstAt<K(==), V>(items: seq<Item<K, V>>, i: nat) {
    i < |items| && forall j | 0 <= j < i :: items[j].0 != items[i].0
  }

  lemma {:induction false} FirstByKeyDistinct<K, V>(items: seq<Item<K, V>>)
    ensures DistinctKeys(FirstByKey(items))
  {
    if items != [] {
      FirstByKeyDistinct(items[..|items| - 1]);
      var list := FirstByKey(items[..|items| - 1]);
      var item := items[|items| - 1];
      if item.0 !in Keys(list) {
        assert forall i | 0 <= i < |list| :: Keys(list)[i] == list[i].0;
      }
    }
  }

  lemma KeysAppend<K, V>(a: seq<Item<K, V>>, b: seq<Item<K, V>>)
    ensures Keys(a + b) == Keys(a) + Keys(b)
  {
  }

  lemma {:induction false} FirstByKeyKeys<K, V>(items: seq<Item<K, V>>, key: K)
    ensures key in Keys(FirstByKey(items)) <==> key in Keys(items)
  {
    if items != [] {
      var n := |items| - 1;
      FirstByKeyKeys(items[..n], key);
      assert items == items[..n] + [items[n]];
      KeysAppend(items[..n], [items[n]]);
      KeysAppend(FirstByKey(items[..n]), [items[n]]);
    }
  }

  /** The first positions of the keys of `items`, ascending. */
  function FirstPositions<K(==), V>(items: seq<Item<K, V>>): (positions: seq<nat>)
    ensures forall k | 0 <= k < |positions| :: positions[k] < |items|
  {
    if items == [] then []
    else FirstPositions(items[..|items| - 1]) + if FirstAt(items, |items| - 1) then [|items| - 1] else []
  }

  lemma LastIsFirstIffNew<K, V>(items: seq<Item<K, V>>)
    requires items != []
    ensures FirstAt(items, |items| - 1) <==> items[|items| - 1].0 !in Keys(items[..|items| - 1])
  {
  }

  lemma {:induction false} FirstPositionsExact<K, V>(items: seq<Item<K, V>>)
    ensures var p := FirstPositions(items);
            && (forall i, j | 0 <= i < j < |p| :: p[i] < p[j])
            && (forall i: nat :: i in p <==> FirstAt(items, i))
  {
    if items != [] {
      var n := |items| - 1;
      FirstPositionsExact(items[..n]);
      assert forall i: nat | i < n :: FirstAt(items[..n], i) <==> FirstAt(items, i);
    }
  }

  /** FirstByKey keeps, in order, exactly the items at the first position of their key. */
  lemma {:induction false} KeepsFirstPositions<K, V>(items: seq<Item<K, V>>)
    ensures FirstByKey(items) == seq(|FirstPositions(items)|,
        k requires 0 <= k < |FirstPositions(items)| => items[FirstPositions(items)[k]])
  {
    if items != [] {
      var n := |items| - 1;
      KeepsFirstPositions(items[..n]);
      LastIsFirstIffNew(items);
      FirstByKeyKeys(items[..n], items[n].0);
    }
  }

  /** Items whose keys were all seen before change nothing. */
  lemma {:induction false} SeenKeysAddNothing<K, V>(a: seq<Item<K, V>>, b: seq<Item<K, V>>)
    requires forall k | k in Keys(b) :: k in Keys(a)
    ensures FirstByKey(a + b) == FirstByKey(a)
  {
    if b == [] {
      assert a + b == a;
    } else {
      var n := |b| - 1;
      assert (a + b)[..|a + b| - 1] == a + b[..n];
      assert Keys(b)[n] == b[n].0;
      assert forall k | k in Keys(b[..n]) :: k in Keys(b);
      SeenKeysAddNothing(a, b[..n]);
      FirstByKeyKeys(a, b[n].0);
    }
  }

  /** Appending depends on the earlier items only through the list kept of them. */
  lemma {:induction false} FirstByKeyExtends<K, V>(a: seq<Item<K, V>>, a': seq<Item<K, V>>, b: seq<Item<K, V>>)
    requires FirstByKey(a) == FirstByKey(a')
    ensures FirstByKey(a + b) == FirstByKey(a' + b)
  {
    if b == [] {
      assert a + b == a && a' + b == a';
    } else {
      var n := |b| - 1;
      assert (a + b)[..|a + b| - 1] == a + b[..n];
      assert (a' + b)[..|a' + b| - 1] == a' + b[..n];
      FirstByKeyExtends(a, a', b[..n]);
    }
  }
}
