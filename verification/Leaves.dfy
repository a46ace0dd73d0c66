/** Leaf nodes, which both trees share: parallel sorted arrays of keys and values, and the three
    ways a message changes them. */
module Leaves {
  import opened Keys
  import opened Messages

  datatype Leaf = Leaf(keys: seq<Key>, values: seq<Value>)

  ghost predicate LeafOK(l: Leaf) {
    |l.keys| == |l.values| && StrictlySorted(l.keys)
  }

  /** The map `m` holds exactly the leaf's pairs. */
  ghost predicate HoldsPairs(l: Leaf, m: map<Key, Value>)
    requires LeafOK(l)
  {
    && (forall i :: 0 <= i < |l.keys| ==> l.keys[i] in m && m[l.keys[i]] == l.values[i])
    && (forall k :: k in m ==> k in l.keys)
  }

  lemma {:induction false} PairsExist(l: Leaf)
    requires LeafOK(l)
    ensures exists m :: HoldsPairs(l, m)
    decreases |l.keys|
  {
    if l.keys == [] {
      assert HoldsPairs(l, map[]);
    } else {
      var n := |l.keys| - 1;
      var front := Leaf(l.keys[..n], l.values[..n]);
      PairsExist(front);
      var m :| HoldsPairs(front, m);
      assert l.keys == front.keys + [l.keys[n]];
      assert HoldsPairs(l, m[l.keys[n] := l.values[n]]);
    }
  }

  /** A leaf as a map. */
  ghost function Pairs(l: Leaf): (m: map<Key, Value>)
    requires LeafOK(l)
    ensures HoldsPairs(l, m)
  {
    PairsExist(l);
    var m :| HoldsPairs(l, m);
    m
  }

  lemma PairsUnique(l: Leaf, m: map<Key, Value>)
    requires LeafOK(l) && HoldsPairs(l, m)
    ensures m == Pairs(l)
  {
  }

  lemma PairsKeys(l: Leaf)
    requires LeafOK(l)
    ensures forall k :: k in Pairs(l) <==> k in l.keys
  {
  }

  /** A lookup finds the value at the lower bound of the key, or none. */
  lemma PairsLookup(l: Leaf, k: Key)
    requires LeafOK(l)
    ensures Get(Pairs(l), k) ==
            var i := LowerBound(l.keys, k);
            if i < |l.keys| && l.keys[i] == k then Some(l.values[i]) else None
  {
    BoundsDiffer(l.keys, k);
    hide LowerBound, UpperBound, StrictlySorted;
    var m := Pairs(l);
    assert k in m ==> k in l.keys;
  }

  function LeafLookup(l: Leaf, k: Key): Option<Value> {
    var i := LowerBound(l.keys, k);
    if i < |l.keys| && i < |l.values| && l.keys[i] == k then Some(l.values[i]) else None
  }

  function RemoveAt<T>(s: seq<T>, i: nat): (r: seq<T>)
    requires i < |s|
    ensures |r| == |s| - 1
    ensures forall j :: 0 <= j < |r| ==> r[j] == s[if j < i then j else j + 1]
  {
    s[..i] + s[i + 1..]
  }

  function InsertAt<T>(s: seq<T>, i: nat, x: T): (r: seq<T>)
    requires i <= |s|
    ensures |r| == |s| + 1 && r[i] == x
    ensures forall j {:trigger r[j]} :: 0 <= j < i ==> r[j] == s[j]
    ensures forall j :: i < j < |r| ==> r[j] == s[j - 1]
  {
    s[..i] + [x] + s[i..]
  }

  lemma InsertAtMembers<T>(s: seq<T>, i: nat, x: T)
    requires i <= |s|
    ensures forall q :: q in InsertAt(s, i, x) <==> q in s || q == x
  {
    assert InsertAt(s, i, x) == s[..i] + [x] + s[i..] && s == s[..i] + s[i..];
  }

  predicate Found(l: Leaf, k: Key) {
    LowerBound(l.keys, k) < |l.keys| && l.keys[LowerBound(l.keys, k)] == k
  }

  /** A leaf after one message. */
  function Upserted(l: Leaf, u: Upsert): Leaf
    requires |l.keys| == |l.values|
  {
    var i := LowerBound(l.keys, u.key);
    match u.kind
    case DELETE =>
      if Found(l, u.key) then Leaf(RemoveAt(l.keys, i), RemoveAt(l.values, i)) else l
    case UPDATE =>
      if Found(l, u.key) then l.(values := l.values[i := Add(l.values[i], u.value)]) else l
    case INSERT =>
      if Found(l, u.key) then l.(values := l.values[i := u.value])
      else Leaf(InsertAt(l.keys, i, u.key), InsertAt(l.values, i, u.value))
  }

  lemma RemovedSorted(s: seq<Key>, i: nat)
    requires StrictlySorted(s) && i < |s|
    ensures StrictlySorted(RemoveAt(s, i))
    ensures forall k :: k in s ==> k == s[i] || k in RemoveAt(s, i)
    ensures s[i] !in RemoveAt(s, i)
  {
    var r := RemoveAt(s, i);
    hide RemoveAt;
    forall k | k in s && k != s[i] ensures k in r {
      var j :| 0 <= j < |s| && s[j] == k;
      assert r[if j < i then j else j - 1] == k;
    }
  }

  lemma RemovedHolds(l: Leaf, i: nat)
    requires LeafOK(l) && i < |l.keys|
    ensures LeafOK(Leaf(RemoveAt(l.keys, i), RemoveAt(l.values, i)))
    ensures HoldsPairs(Leaf(RemoveAt(l.keys, i), RemoveAt(l.values, i)), Pairs(l) - {l.keys[i]})
  {
    RemovedSorted(l.keys, i);
    hide RemoveAt, StrictlySorted;
  }

  lemma InsertedSorted(s: seq<Key>, i: nat, k: Key)
    requires StrictlySorted(s) && i <= |s|
    requires i > 0 ==> s[i - 1] < k
    requires i < |s| ==> k < s[i]
    ensures StrictlySorted(InsertAt(s, i, k)) && k !in s
    ensures forall q :: q in s ==> q in InsertAt(s, i, k)
  {
    var r := InsertAt(s, i, k);
    hide InsertAt;
    forall q | q in s ensures q in r {
      var j :| 0 <= j < |s| && s[j] == q;
      assert r[if j < i then j else j + 1] == q;
    }
  }

  lemma InsertedHolds(l: Leaf, i: nat, k: Key, v: Value)
    requires LeafOK(l) && i <= |l.keys|
    requires i > 0 ==> l.keys[i - 1] < k
    requires i < |l.keys| ==> k < l.keys[i]
    ensures LeafOK(Leaf(InsertAt(l.keys, i, k), InsertAt(l.values, i, v)))
    ensures HoldsPairs(Leaf(InsertAt(l.keys, i, k), InsertAt(l.values, i, v)), Pairs(l)[k := v])
  {
    InsertedSorted(l.keys, i, k);
    InsertAtMembers(l.keys, i, k);
    var n := Leaf(InsertAt(l.keys, i, k), InsertAt(l.values, i, v));
    forall j | 0 <= j < |n.keys|
      ensures n.keys[j] in Pairs(l)[k := v] && Pairs(l)[k := v][n.keys[j]] == n.values[j]
    {
      InsertedPair(l, i, k, v, j);
    }
    PairsKeys(l);
    hide InsertAt, StrictlySorted;
    assert forall q :: q in Pairs(l)[k := v] ==> q in n.keys;
  }

  lemma InsertedPair(l: Leaf, i: nat, k: Key, v: Value, j: nat)
    requires LeafOK(l) && i <= |l.keys| && k !in l.keys && j <= |l.keys|
    ensures InsertAt(l.keys, i, k)[j] in Pairs(l)[k := v]
    ensures Pairs(l)[k := v][InsertAt(l.keys, i, k)[j]] == InsertAt(l.values, i, v)[j]
  {
    hide StrictlySorted, InsertAt;
    if j != i {
      var j' := if j < i then j else j - 1;
      assert InsertAt(l.keys, i, k)[j] == l.keys[j'] && InsertAt(l.values, i, v)[j] == l.values[j'];
      assert l.keys[j'] in l.keys;
    }
  }

  lemma ChangedHolds(l: Leaf, i: nat, v: Value)
    requires LeafOK(l) && i < |l.keys|
    ensures HoldsPairs(l.(values := l.values[i := v]), Pairs(l)[l.keys[i] := v])
  {
  }

  /** What a message leaves of a leaf's map. */
  ghost function ActOnPairs(m: map<Key, Value>, u: Upsert): map<Key, Value> {
    match Act(u, Get(m, u.key))
    case Some(v) => m[u.key := v]
    case None => m - {u.key}
  }

  /** A message changes its own key as the message says and nothing else, and keeps the
      arrays sorted. */
  lemma UpsertedPairs(l: Leaf, u: Upsert)
    requires LeafOK(l)
    ensures LeafOK(Upserted(l, u))
    ensures Pairs(Upserted(l, u)) == ActOnPairs(Pairs(l), u)
  {
    var i := LowerBound(l.keys, u.key);
    PairsLookup(l, u.key);
    var m, m' := Pairs(l), ActOnPairs(Pairs(l), u);
    if Found(l, u.key) {
      match u.kind
      case DELETE => RemovedHolds(l, i);
      case UPDATE => ChangedHolds(l, i, Add(l.values[i], u.value));
      case INSERT => ChangedHolds(l, i, u.value);
    } else if u.kind.INSERT? {
      InsertedHolds(l, i, u.key, u.value);
    } else {
      assert m' == m;
    }
    PairsUnique(Upserted(l, u), m');
  }

  /** The number of pairs is the number of keys. */
  lemma {:induction false} PairsSize(l: Leaf)
    requires LeafOK(l)
    ensures |Pairs(l)| == |l.keys|
    decreases |l.keys|
  {
    if l.keys == [] {
      assert Pairs(l) == map[];
    } else {
      var n := |l.keys| - 1;
      var front := Leaf(l.keys[..n], l.values[..n]);
      PairsSize(front);
      assert l.keys == front.keys + [l.keys[n]];
      assert l.keys[n] !in Pairs(front);
      PairsUnique(l, Pairs(front)[l.keys[n] := l.values[n]]);
    }
  }
}
