/** The messages buffered in the inner nodes of a Bε-tree, their order, and the
    rule that squashes two messages for one key into one. */
module Messages {
  import opened Keys

  /** The value type is arbitrary; all the tree asks of it is an associative `+`. */
  type Value(==, 0, !new)

  ghost predicate Associative(f: (Value, Value) -> Value) {
    forall a, b, c :: f(f(a, b), c) == f(a, f(b, c))
  }

  type AddOperator = f: (Value, Value) -> Value | Associative(f)
    witness ((a: Value, b: Value) => a)

  /** The value type's `+`, which need not commute. */
  const Add: AddOperator

  datatype UpsertType = INSERT | UPDATE | DELETE

  datatype Upsert = Upsert(key: Key, value: Value, timeStamp: nat, kind: UpsertType)

  /** Upserts are ordered by key and, for one key, by time stamp. */
  predicate After(a: Upsert, b: Upsert) {
    if a.key == b.key then a.timeStamp > b.timeStamp else a.key > b.key
  }

  /** What a message does to the value stored under its key. */
  function Act(u: Upsert, base: Option<Value>): Option<Value> {
    match u.kind
    case INSERT => Some(u.value)
    case DELETE => None
    case UPDATE => if base.Some? then Some(Add(base.value, u.value)) else None
  }

  /** Squashes two upserts for one key into one. */
  function SquashUpserts(first: Upsert, second: Upsert): (squashed: Upsert)
    requires first.key == second.key
    ensures squashed.key == first.key
  {
    var (a, b) := if After(first, second) then (second, first) else (first, second);
    match (a.kind, b.kind)
    case (INSERT, INSERT) => b
    case (INSERT, UPDATE) => a.(timeStamp := b.timeStamp, value := Add(a.value, b.value))
    case (INSERT, DELETE) => b
    case (UPDATE, INSERT) => b
    case (UPDATE, UPDATE) => b.(value := Add(a.value, b.value))
    case (UPDATE, DELETE) => b
    case (DELETE, INSERT) => b
    case (DELETE, UPDATE) => a
    case (DELETE, DELETE) => b
  }

  /** Squashing acts on any value as the older message followed by the newer one, whichever
      order they are passed in, and the result is never younger or older than both. */
  lemma SquashActsInOrder(older: Upsert, newer: Upsert, base: Option<Value>)
    requires older.key == newer.key && older.timeStamp < newer.timeStamp
    ensures SquashUpserts(older, newer) == SquashUpserts(newer, older)
    ensures SquashUpserts(older, newer).key == newer.key
    ensures SquashUpserts(older, newer).timeStamp in {older.timeStamp, newer.timeStamp}
    ensures Act(SquashUpserts(older, newer), base) == Act(newer, Act(older, base))
  {
    if older.kind.UPDATE? && newer.kind.UPDATE? && base.Some? {
      assert Add(Add(base.value, older.value), newer.value)
          == Add(base.value, Add(older.value, newer.value));
    }
  }

  /** The keys of a run of messages, in order. */
  function KeysOf(s: seq<Upsert>): (keys: seq<Key>)
    ensures |keys| == |s|
    ensures forall i :: 0 <= i < |s| ==> keys[i] == s[i].key
  {
    seq(|s|, i requires 0 <= i < |s| => s[i].key)
  }

  /** Sorted by key, with at most one message per key. */
  ghost predicate Sorted(s: seq<Upsert>) {
    forall i, j :: 0 <= i < j < |s| ==> s[i].key < s[j].key
  }

  /** The map `m` holds exactly the messages of `s`, each under its own key. */
  ghost predicate Holds(s: seq<Upsert>, m: map<Key, Upsert>) {
    && (forall u :: u in s ==> u.key in m && m[u.key] == u)
    && (forall k :: k in m ==> m[k] in s && m[k].key == k)
  }

  lemma HoldsAppend(s: seq<Upsert>, m: map<Key, Upsert>, u: Upsert)
    requires Sorted(s + [u]) && Holds(s, m)
    ensures Sorted(s) && u.key !in m
    ensures Holds(s + [u], m[u.key := u])
  {
    var t := s + [u];
    assert forall i :: 0 <= i < |s| ==> t[i] == s[i] && s[i].key < t[|s|].key;
    assert forall v :: v in t <==> v in s || v == u;
  }

  lemma {:induction false} MapExists(s: seq<Upsert>)
    requires Sorted(s)
    ensures exists m :: Holds(s, m)
  {
    if s == [] {
      assert Holds(s, map[]);
    } else {
      var n := |s| - 1;
      assert s == s[..n] + [s[n]];
      MapExists(s[..n]);
      var m :| Holds(s[..n], m);
      HoldsAppend(s[..n], m, s[n]);
    }
  }

  /** A sorted run of messages as a map from keys to messages. */
  ghost function MapOf(s: seq<Upsert>): (m: map<Key, Upsert>)
    requires Sorted(s)
    ensures Holds(s, m)
  {
    MapExists(s);
    var m :| Holds(s, m);
    m
  }

  lemma HoldsUnique(s: seq<Upsert>, m: map<Key, Upsert>)
    requires Sorted(s) && Holds(s, m)
    ensures m == MapOf(s)
  {
  }

  /** The effect of a message map on one key. */
  ghost function ActOn(m: map<Key, Upsert>, k: Key, base: Option<Value>): Option<Value> {
    if k in m then Act(m[k], base) else base
  }

  ghost predicate KeyedRight(m: map<Key, Upsert>) {
    forall k :: k in m ==> m[k].key == k
  }

  ghost predicate PartOf(a: map<Key, Upsert>, b: map<Key, Upsert>) {
    forall k :: k in a ==> k in b && b[k] == a[k]
  }

  /** The union of two message maps, with the messages of shared keys squashed. */
  ghost function MergeMap(a: map<Key, Upsert>, b: map<Key, Upsert>): (m: map<Key, Upsert>)
    requires KeyedRight(a) && KeyedRight(b)
  {
    map k | k in a.Keys + b.Keys ::
      if k in a && k in b then SquashUpserts(a[k], b[k]) else if k in a then a[k] else b[k]
  }

  lemma MapOfAppend(s: seq<Upsert>, u: Upsert)
    requires Sorted(s + [u])
    ensures Sorted(s)
    ensures u.key !in MapOf(s)
    ensures MapOf(s + [u]) == MapOf(s)[u.key := u]
  {
    SortedConcat(s, [u]);
    HoldsAppend(s, MapOf(s), u);
    HoldsUnique(s + [u], MapOf(s)[u.key := u]);
  }

  lemma SortedConcat(a: seq<Upsert>, b: seq<Upsert>)
    requires Sorted(a + b)
    ensures Sorted(a) && Sorted(b)
    ensures forall u, v :: u in a && v in b ==> u.key < v.key
  {
    var s := a + b;
    assert forall i :: 0 <= i < |a| ==> s[i] == a[i];
    assert forall i :: 0 <= i < |b| ==> s[|a| + i] == b[i];
    forall u, v | u in a && v in b ensures u.key < v.key {
      var x :| 0 <= x < |a| && a[x] == u;
      var y :| 0 <= y < |b| && b[y] == v;
      assert s[x].key < s[|a| + y].key;
    }
  }

  /** Two adjacent sorted runs share no key, and their maps make up the map of the whole. */
  lemma MapOfConcat(a: seq<Upsert>, b: seq<Upsert>)
    requires Sorted(a + b)
    ensures Sorted(a) && Sorted(b)
    ensures MapOf(a).Keys !! MapOf(b).Keys
    ensures MapOf(a + b) == MapOf(a) + MapOf(b)
  {
    SortedConcat(a, b);
    hide Sorted;
    assert forall u :: u in a + b <==> u in a || u in b;
    HoldsUnique(a + b, MapOf(a) + MapOf(b));
  }

  /** A sorted run has as many messages as its map has keys. */
  lemma {:induction false} MapOfSize(s: seq<Upsert>)
    requires Sorted(s)
    ensures |MapOf(s)| == |s|
  {
    if s != [] {
      var n := |s| - 1;
      assert s == s[..n] + [s[n]];
      MapOfAppend(s[..n], s[n]);
      MapOfSize(s[..n]);
    }
  }
}
