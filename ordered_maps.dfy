/**
  JavaScript's `Map` as src/poll.ts uses it: a dictionary that iterates its
  keys in the order they were first inserted. `set` on a key already present
  overwrites its value and keeps its position; on a new key it appends it.
 */
module OrderedMaps {

  ghost predicate Distinct<T>(s: seq<T>)
  {
    forall i, j :: 0 <= i < j < |s| ==> s[i] != s[j]
  }

  /** The position of the first occurrence of `x` in `s`. */
  function IndexOf<T(==)>(s: seq<T>, x: T): (i: nat)
    requires x in s
    ensures i < |s| && s[i] == x
    ensures forall j :: 0 <= j < i ==> s[j] != x
  {
    if s[0] == x then 0 else 1 + IndexOf(s[1..], x)
  }

  /** The elements of a non-empty sequence are those before its last, and its last. */
  lemma InLast<T>(s: seq<T>)
    requires |s| > 0
    ensures forall y :: y in s <==> y in s[..|s| - 1] || y == s[|s| - 1]
  {
    assert s == s[..|s| - 1] + [s[|s| - 1]];
  }

  /** Dropping the last element does not move the first occurrence of one before it. */
  lemma IndexOfDropLast<T>(s: seq<T>, y: T)
    requires |s| > 0 && y in s[..|s| - 1]
    ensures IndexOf(s, y) == IndexOf(s[..|s| - 1], y)
  {
    var i, k := IndexOf(s, y), IndexOf(s[..|s| - 1], y);
    assert s[k] == y;
    assert i <= k;
    assert s[..|s| - 1][i] == y;
  }

  /** A last element that occurs nowhere before it first occurs at the end. */
  lemma IndexOfNewLast<T>(s: seq<T>)
    requires |s| > 0 && s[|s| - 1] !in s[..|s| - 1]
    ensures IndexOf(s, s[|s| - 1]) == |s| - 1
  {
  }

  /** `keys` is the iteration order, `values` the dictionary itself. */
  datatype OrderedMap<K, V> = OrderedMap(keys: seq<K>, values: map<K, V>) {

    ghost predicate Valid()
    {
      && Distinct(keys)
      && (forall k :: k in values ==> k in keys)
      && (forall i :: 0 <= i < |keys| ==> keys[i] in values)
    }

    /** `map.set(k, v)`. */
    function Set(k: K, v: V): (m: OrderedMap<K, V>)
      ensures Valid() ==> m.Valid()
      ensures m.values.Keys == values.Keys + {k}
      ensures m.values[k] == v
      ensures forall k' :: k' in values && k' != k ==> m.values[k'] == values[k']
      ensures k in values ==> m.keys == keys
      ensures k !in values ==> m.keys == keys + [k]
    {
      OrderedMap(if k in values then keys else keys + [k], values[k := v])
    }
  }

  /** `new Map()`. */
  function Empty<K, V>(): (m: OrderedMap<K, V>)
    ensures m.Valid() && m.keys == [] && m.values == map[]
  {
    OrderedMap([], map[])
  }
}
