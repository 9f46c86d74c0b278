/** The dictionary-of-lists idiom the views use again and again:
    `if k not in d: d[k] = []` followed by `d[k].append(v)`, applied to the
    items of a list in order. Python dictionaries remember the order in
    which their keys were first inserted; `KeysInOrder` gives that order. */
module Grouping {

  /** The dictionary built by appending `val(x)` under `key(x)` for every `x`
      of `xs`, in order. */
  function Grouped<T, K(==), V>(xs: seq<T>, key: T -> K, val: T -> V): map<K, seq<V>>
    decreases |xs|
  {
    if xs == [] then map[]
    else
      var g := Grouped(xs[..|xs| - 1], key, val);
      var x := xs[|xs| - 1];
      g[key(x) := (if key(x) in g then g[key(x)] else []) + [val(x)]]
  }

  /** The values of the items whose key is `k`, in input order. */
  function Select<T, K(==), V>(xs: seq<T>, key: T -> K, val: T -> V, k: K): seq<V>
    decreases |xs|
  {
    if xs == [] then []
    else
      var x := xs[|xs| - 1];
      Select(xs[..|xs| - 1], key, val, k) + (if key(x) == k then [val(x)] else [])
  }

  /** The keys of `Grouped(xs, key, _)` in the order of their first
      insertion. */
  function KeysInOrder<T, K(==)>(xs: seq<T>, key: T -> K): seq<K>
    decreases |xs|
  {
    if xs == [] then []
    else
      var ks := KeysInOrder(xs[..|xs| - 1], key);
      var k := key(xs[|xs| - 1]);
      if k in ks then ks else ks + [k]
  }

  /** The number of values stored under the keys `ks`. */
  function SumLengths<K, V>(ks: seq<K>, g: map<K, seq<V>>): nat
    requires forall k :: k in ks ==> k in g
  {
    if ks == [] then 0 else |g[ks[0]]| + SumLengths(ks[1..], g)
  }

  /** No element occurs twice. */
  predicate Distinct<K(==)>(ks: seq<K>)
  {
    forall i, j :: 0 <= i < j < |ks| ==> ks[i] != ks[j]
  }

  /** A key is present exactly when some item carries it, and the list
      stored under it holds the values of those items, in input order. */
  lemma {:induction false} GroupedIsSelect<T, K, V>(xs: seq<T>, key: T -> K, val: T -> V, k: K)
    ensures k in Grouped(xs, key, val) <==> Select(xs, key, val, k) != []
    ensures k in Grouped(xs, key, val) ==> Grouped(xs, key, val)[k] == Select(xs, key, val, k)
    decreases |xs|
  {
    if xs != [] {
      GroupedIsSelect(xs[..|xs| - 1], key, val, k);
    }
  }

  /** Some value is selected exactly when some item carries the key. */
  lemma {:induction false} SelectNonEmptyIff<T, K, V>(xs: seq<T>, key: T -> K, val: T -> V, k: K)
    ensures Select(xs, key, val, k) != [] <==> exists i :: 0 <= i < |xs| && key(xs[i]) == k
    decreases |xs|
  {
    if xs != [] {
      var init := xs[..|xs| - 1];
      SelectNonEmptyIff(init, key, val, k);
      if exists i :: 0 <= i < |init| && key(init[i]) == k {
        var i :| 0 <= i < |init| && key(init[i]) == k;
        assert xs[i] == init[i];
      }
      if exists i :: 0 <= i < |xs| && key(xs[i]) == k {
        var i :| 0 <= i < |xs| && key(xs[i]) == k;
        if i < |init| {
          assert init[i] == xs[i];
        }
      }
    }
  }

  /** The first-insertion order lists every key of the dictionary once. */
  lemma {:induction false} KeysInOrderAreKeys<T, K, V>(xs: seq<T>, key: T -> K, val: T -> V)
    ensures Distinct(KeysInOrder(xs, key))
    ensures forall k :: k in KeysInOrder(xs, key) <==> k in Grouped(xs, key, val)
    decreases |xs|
  {
    if xs != [] {
      KeysInOrderAreKeys(xs[..|xs| - 1], key, val);
    }
  }

  /** The same, for one given key. */
  lemma KeyInOrderIff<T, K, V>(xs: seq<T>, key: T -> K, val: T -> V, k: K)
    ensures k in KeysInOrder(xs, key) <==> k in Grouped(xs, key, val)
  {
    KeysInOrderAreKeys(xs, key, val);
  }

  /** Appending one value under a key that occurs once in `ks` adds one to
      the count. */
  lemma {:induction false} SumLengthsAppend<K, V>(ks: seq<K>, g: map<K, seq<V>>, k: K, v: V)
    requires forall j :: j in ks ==> j in g
    requires Distinct(ks) && k in ks
    ensures SumLengths(ks, g[k := g[k] + [v]]) == SumLengths(ks, g) + 1
  {
    var g' := g[k := g[k] + [v]];
    if ks[0] == k {
      assert k !in ks[1..];
      SumLengthsUnchanged(ks[1..], g, k, g[k] + [v]);
    } else {
      SumLengthsAppend(ks[1..], g, k, v);
    }
  }

  /** Changing the list under a key not in `ks` does not change the count. */
  lemma {:induction false} SumLengthsUnchanged<K, V>(ks: seq<K>, g: map<K, seq<V>>, k: K, vs: seq<V>)
    requires forall j :: j in ks ==> j in g
    requires k !in ks
    ensures SumLengths(ks, g[k := vs]) == SumLengths(ks, g)
  {
    if ks != [] {
      SumLengthsUnchanged(ks[1..], g, k, vs);
    }
  }

  /** Adding a key at the end of the order adds the length of its list. */
  lemma {:induction false} SumLengthsSnoc<K, V>(ks: seq<K>, g: map<K, seq<V>>, k: K)
    requires forall j :: j in ks ==> j in g
    requires k in g
    ensures SumLengths(ks + [k], g) == SumLengths(ks, g) + |g[k]|
  {
    if ks == [] {
      assert ks + [k] == [k];
    } else {
      assert (ks + [k])[1..] == ks[1..] + [k];
      SumLengthsSnoc(ks[1..], g, k);
    }
  }

  /** Grouping loses no item: over the keys, the lists hold as many values
      as there were items. */
  lemma {:induction false} GroupedKeepsEveryItem<T, K, V>(xs: seq<T>, key: T -> K, val: T -> V)
    ensures forall k :: k in KeysInOrder(xs, key) ==> k in Grouped(xs, key, val)
    ensures SumLengths(KeysInOrder(xs, key), Grouped(xs, key, val)) == |xs|
    decreases |xs|
  {
    KeysInOrderAreKeys(xs, key, val);
    if xs != [] {
      var init := xs[..|xs| - 1];
      var x := xs[|xs| - 1];
      var g := Grouped(init, key, val);
      var ks := KeysInOrder(init, key);
      GroupedKeepsEveryItem(init, key, val);
      KeysInOrderAreKeys(init, key, val);
      if key(x) in ks {
        SumLengthsAppend(ks, g, key(x), val(x));
      } else {
        KeyInOrderIff(init, key, val, key(x));
        assert key(x) !in g;
        var none: seq<V> := [];
        assert none + [val(x)] == [val(x)];
        assert Grouped(xs, key, val) == g[key(x) := [val(x)]];
        assert KeysInOrder(xs, key) == ks + [key(x)];
        SumLengthsUnchanged(ks, g, key(x), [val(x)]);
        SumLengthsSnoc(ks, g[key(x) := [val(x)]], key(x));
      }
    }
  }

  /** One more item extends the values of its own key only. */
  lemma SelectSnoc<T, K, V>(xs: seq<T>, x: T, key: T -> K, val: T -> V, k: K)
    ensures Select(xs + [x], key, val, k) == Select(xs, key, val, k) + (if key(x) == k then [val(x)] else [])
  {
    assert (xs + [x])[..|xs|] == xs;
  }

  /** Selecting distributes over concatenation: appending items only ever
      appends to the lists already built. */
  lemma {:induction false} SelectAppend<T, K, V>(a: seq<T>, b: seq<T>, key: T -> K, val: T -> V, k: K)
    ensures Select(a + b, key, val, k) == Select(a, key, val, k) + Select(b, key, val, k)
    decreases |b|
  {
    if b == [] {
      assert a + b == a;
    } else {
      var b' := b[..|b| - 1];
      SelectAppend(a, b', key, val, k);
      assert (a + b)[..|a + b| - 1] == a + b';
      assert (a + b)[|a + b| - 1] == b[|b| - 1];
    }
  }
}
