/** The leaf operations on a node's own arrays: what the shifts of std::move and std::move_backward
    leave in them is what one message makes of the leaf's contents. The slots behind the leaf's size
    keep what was in them, and one of the assertions before an insertion reads the first of them. */
module LeafArrays {
  import opened Keys
  import opened Messages
  import opened Leaves
  import Arrays

  /** Moves a[index + 1..size] one to the left. */
  method ShiftLeft<T>(a: array<T>, index: nat, size: nat)
    requires index < size <= a.Length
    modifies a
    ensures a[..size - 1] == RemoveAt(old(a[..size]), index)
    ensures forall x :: size - 1 <= x < a.Length ==> a[x] == old(a[x])
  {
    Arrays.MoveForward(a, index + 1, size, 1);
    ghost var s := old(a[..size]);
    forall x | 0 <= x < size - 1 ensures a[x] == RemoveAt(s, index)[x] {
      if x >= index { assert a[x + 1 - 1] == old(a[x + 1]); }
    }
  }

  /** Moves a[index..size] one to the right and stores `v` in the gap. */
  method ShiftRight<T>(a: array<T>, index: nat, size: nat, v: T)
    requires index <= size < a.Length
    modifies a
    ensures a[..size + 1] == InsertAt(old(a[..size]), index, v)
    ensures forall x :: size + 1 <= x < a.Length ==> a[x] == old(a[x])
  {
    hide InsertAt;
    Arrays.MoveBackward(a, index, size, 1);
    a[index] := v;
    ghost var s := old(a[..size]);
    forall x | 0 <= x < size + 1 ensures a[x] == InsertAt(s, index, v)[x] {
      if x > index { assert a[x - 1 + 1] == s[x - 1]; }
    }
  }

  /** A key above every key of the leaf that the first slot behind them still shows. */
  predicate ShownBehind(keys: seq<Key>, size: nat, k: Key) {
    size < |keys| && LowerBound(keys[..size], k) == size && keys[size] == k
  }

  /** One message changes a leaf's arrays in place. Before a new key is inserted, the source asserts
      that a slot is free, which holds, and that the slot at the key's position does not hold the
      key, which fails exactly if the key goes behind all others and the slot there still shows it.
      `asserted` says whether the assertions hold; the leaf's contents are as if they did. */
  method UpsertInPlace(keys: array<Key>, values: array<Value>, size: nat, u: Upsert) returns (newSize: nat, asserted: bool)
    requires keys.Length == values.Length && size <= keys.Length && (keys as object) != (values as object)
    requires |Upserted(Leaf(keys[..size], values[..size]), u).keys| <= keys.Length
    modifies keys, values
    ensures newSize <= keys.Length
    ensures Leaf(keys[..newSize], values[..newSize]) == Upserted(Leaf(old(keys[..size]), old(values[..size])), u)
    ensures forall x :: newSize <= x < keys.Length ==> keys[x] == old(keys[x])
    ensures asserted <==> !(u.kind.INSERT? && ShownBehind(old(keys[..]), size, u.key))
  {
    ghost var l := Leaf(keys[..size], values[..size]);
    assert keys[..][..size] == keys[..size];
    var keyIndex := LowerBound(keys[..size], u.key);
    assert Found(l, u.key) <==> keyIndex < size && keys[keyIndex] == u.key;
    hide LowerBound, RemoveAt, InsertAt;
    asserted := true;
    match u.kind {
      case DELETE =>
        if keyIndex >= size || keys[keyIndex] != u.key {
          return size, true;
        }
        ShiftLeft(keys, keyIndex, size);
        ShiftLeft(values, keyIndex, size);
        return size - 1, true;
      case UPDATE =>
        if keyIndex >= size || keys[keyIndex] != u.key {
          return size, true;
        }
        values[keyIndex] := Add(values[keyIndex], u.value);
        assert values[..size] == l.values[keyIndex := Add(l.values[keyIndex], u.value)] && keys[..size] == l.keys;
        return size, true;
      case INSERT =>
        if keyIndex < size && keys[keyIndex] == u.key {
          values[keyIndex] := u.value;
          assert values[..size] == l.values[keyIndex := u.value] && keys[..size] == l.keys;
          return size, true;
        }
        assert size < keys.Length;
        asserted := keyIndex < keys.Length && keys[keyIndex] != u.key;
        ShiftRight(keys, keyIndex, size, u.key);
        ShiftRight(values, keyIndex, size, u.value);
        return size + 1, asserted;
    }
  }

  lemma LargestIsLast(l: Leaf, u: Upsert)
    requires LeafOK(l) && l.keys != [] && |l.keys| == |l.values| && u.key == l.keys[|l.keys| - 1]
    ensures u.kind.DELETE? ==> Upserted(l, u) == Leaf(l.keys[..|l.keys| - 1], l.values[..|l.keys| - 1])
    ensures LowerBound(l.keys[..|l.keys| - 1], u.key) == |l.keys| - 1
  {
    var n := |l.keys| - 1;
    assert forall i :: 0 <= i < n ==> l.keys[i] < u.key;
    assert LowerBound(l.keys, u.key) == n;
    assert LowerBound(l.keys[..n], u.key) == n;
    assert RemoveAt(l.keys, n) == l.keys[..n] && RemoveAt(l.values, n) == l.values[..n];
  }

  lemma AppendsLargest(l: Leaf, u: Upsert)
    requires |l.keys| == |l.values| && u.kind.INSERT? && LowerBound(l.keys, u.key) == |l.keys|
    ensures Upserted(l, u) == Leaf(l.keys + [u.key], l.values + [u.value])
  {
    hide LowerBound;
    assert InsertAt(l.keys, |l.keys|, u.key) == l.keys + [u.key] && InsertAt(l.values, |l.values|, u.value) == l.values + [u.value];
  }

  /** The second assertion fails on every leaf: the largest key is deleted and inserted again. */
  method ReinsertLargest(keys: array<Key>, values: array<Value>, size: nat, deletion: Upsert, insertion: Upsert)
    returns (newSize: nat, asserted: bool)
    requires keys.Length == values.Length && 0 < size <= keys.Length && (keys as object) != (values as object)
    requires LeafOK(Leaf(keys[..size], values[..size]))
    requires deletion.kind.DELETE? && insertion.kind.INSERT? && deletion.key == insertion.key == keys[size - 1]
    modifies keys, values
    ensures !asserted
    ensures newSize == size && keys[..size] == old(keys[..size])
    ensures values[..size] == old(values[..size])[size - 1 := insertion.value]
  {
    ghost var l := Leaf(keys[..size], values[..size]);
    LargestIsLast(l, deletion);
    AppendsLargest(Leaf(l.keys[..size - 1], l.values[..size - 1]), insertion);
    hide LowerBound, Upserted, LeafOK;
    assert l.keys[..size - 1] + [insertion.key] == l.keys;
    newSize, asserted := UpsertInPlace(keys, values, size, deletion);
    assert keys[..][..size - 1] == l.keys[..size - 1];
    newSize, asserted := UpsertInPlace(keys, values, newSize, insertion);
  }
}
