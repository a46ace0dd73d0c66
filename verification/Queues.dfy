/** The two queues of the page buffer: a list of entries, the newest in front, and an index map
    from keys to positions in the list. */
module Queues {
  import opened Leaves
  import opened Keys

  // ---- what the queues hold -------------------------------------------------------------------

  datatype Entry<K, V> = Entry(key: K, value: V)

  ghost predicate HasKey<K, V>(q: seq<Entry<K, V>>, k: K) {
    exists i :: 0 <= i < |q| && q[i].key == k
  }

  ghost predicate UniqueKeys<K, V>(q: seq<Entry<K, V>>) {
    forall i, j :: 0 <= i < j < |q| ==> q[i].key != q[j].key
  }

  /** The position of a key, or the length if there is none. */
  function Position<K(==), V>(q: seq<Entry<K, V>>, k: K): (i: nat)
    ensures i <= |q| && (i < |q| ==> q[i].key == k)
    ensures forall j :: 0 <= j < i ==> q[j].key != k
  {
    if q == [] || q[0].key == k then 0 else 1 + Position(q[1..], k)
  }

  lemma PositionIff<K, V>(q: seq<Entry<K, V>>, k: K)
    ensures HasKey(q, k) <==> Position(q, k) < |q|
  {
  }

  lemma PositionUnique<K, V>(q: seq<Entry<K, V>>, i: nat)
    requires UniqueKeys(q) && i < |q|
    ensures Position(q, q[i].key) == i
  {
  }

  /** The entry nearest to the back that the predicate accepts, or none if it accepts none. */
  ghost predicate OldestAccepted<K, V>(q: seq<Entry<K, V>>, accepts: V -> bool, r: Option<K>) {
    match r
    case None => forall i :: 0 <= i < |q| ==> !accepts(q[i].value)
    case Some(k) =>
      var i := Position(q, k);
      i < |q| && accepts(q[i].value) && forall j :: i < j < |q| ==> !accepts(q[j].value)
  }

  function Pushed<K, V>(q: seq<Entry<K, V>>, k: K, v: V): seq<Entry<K, V>> { [Entry(k, v)] + q }

  function Removed<K(==), V>(q: seq<Entry<K, V>>, k: K): seq<Entry<K, V>> {
    var i := Position(q, k);
    if i < |q| then RemoveAt(q, i) else q
  }

  function MovedToFront<K(==), V>(q: seq<Entry<K, V>>, k: K): seq<Entry<K, V>> {
    var i := Position(q, k);
    if i < |q| then [q[i]] + RemoveAt(q, i) else q
  }

  /** A new key in front leaves the other keys where they were. */
  lemma PushedKeys<K, V>(q: seq<Entry<K, V>>, k: K, v: V)
    requires UniqueKeys(q) && !HasKey(q, k)
    ensures UniqueKeys(Pushed(q, k, v))
    ensures forall x :: HasKey(Pushed(q, k, v), x) <==> x == k || HasKey(q, x)
    ensures forall e :: e in Pushed(q, k, v) <==> e == Entry(k, v) || e in q
  {
    var p := Pushed(q, k, v);
    assert forall i :: 0 < i < |p| ==> p[i] == q[i - 1];
    forall x ensures HasKey(p, x) <==> x == k || HasKey(q, x) {
      if HasKey(q, x) {
        var i :| 0 <= i < |q| && q[i].key == x;
        assert p[i + 1].key == x;
      }
      if x == k { assert p[0].key == k; }
    }
  }

  /** Removing takes out the key's only entry and keeps the order of the others. */
  lemma RemovedKeys<K, V>(q: seq<Entry<K, V>>, k: K)
    requires UniqueKeys(q)
    ensures UniqueKeys(Removed(q, k))
    ensures forall x :: HasKey(Removed(q, k), x) <==> x != k && HasKey(q, x)
    ensures forall e :: e in Removed(q, k) <==> e in q && e.key != k
  {
    var i, r := Position(q, k), Removed(q, k);
    if i < |q| {
      RemovedAtKeys(q, i);
    } else {
      PositionIff(q, k);
      assert forall e :: e in q ==> e.key != k;
    }
  }

  lemma RemovedAtKeys<K, V>(q: seq<Entry<K, V>>, i: nat)
    requires UniqueKeys(q) && i < |q|
    ensures UniqueKeys(RemoveAt(q, i))
    ensures forall x :: HasKey(RemoveAt(q, i), x) <==> x != q[i].key && HasKey(q, x)
    ensures forall e :: e in RemoveAt(q, i) <==> e in q && e.key != q[i].key
  {
    hide RemoveAt;
    assert UniqueKeys(RemoveAt(q, i));
    forall e ensures e in RemoveAt(q, i) <==> e in q && e.key != q[i].key { RemovedEntry(q, i, e); }
    hide *;
    forall x ensures HasKey(RemoveAt(q, i), x) <==> x != q[i].key && HasKey(q, x) { RemovedKey(q, i, x); }
  }

  lemma RemovedEntry<K, V>(q: seq<Entry<K, V>>, i: nat, e: Entry<K, V>)
    requires UniqueKeys(q) && i < |q|
    ensures e in RemoveAt(q, i) <==> e in q && e.key != q[i].key
  {
    var r := RemoveAt(q, i);
    hide RemoveAt;
    if e in q && e.key != q[i].key {
      var j :| 0 <= j < |q| && q[j] == e;
      assert r[if j < i then j else j - 1] == e;
    }
  }

  lemma RemovedKey<K, V>(q: seq<Entry<K, V>>, i: nat, x: K)
    requires UniqueKeys(q) && i < |q|
    ensures HasKey(RemoveAt(q, i), x) <==> x != q[i].key && HasKey(q, x)
  {
    var r := RemoveAt(q, i);
    hide RemoveAt;
    if x != q[i].key && HasKey(q, x) {
      var j :| 0 <= j < |q| && q[j].key == x;
      assert r[if j < i then j else j - 1].key == x;
    }
  }

  lemma OnlyEntry<K, V>(q: seq<Entry<K, V>>, i: nat)
    requires UniqueKeys(q) && i < |q|
    ensures HasKey(q, q[i].key) && forall e :: e in q && e.key == q[i].key ==> e == q[i]
  {
  }

  lemma MovedIs<K, V>(q: seq<Entry<K, V>>, k: K)
    ensures var i := Position(q, k);
            MovedToFront(q, k) == if i < |q| then Pushed(RemoveAt(q, i), q[i].key, q[i].value) else q
  {
    var i := Position(q, k);
    if i < |q| { EntryEta(q[i]); }
    hide RemoveAt, Position;
  }

  lemma MovedKeys<K, V>(q: seq<Entry<K, V>>, k: K)
    requires UniqueKeys(q)
    ensures UniqueKeys(MovedToFront(q, k))
    ensures forall x :: HasKey(MovedToFront(q, k), x) <==> HasKey(q, x)
    ensures forall e :: e in MovedToFront(q, k) <==> e in q
  {
    var i := Position(q, k);
    if i < |q| {
      RemovedAtKeys(q, i);
      EntryEta(q[i]);
      PushedKeys(RemoveAt(q, i), k, q[i].value);
      OnlyEntry(q, i);
      hide *;
      MovedIs(q, k);
    } else {
      hide *;
      MovedIs(q, k);
    }
  }

  lemma EntryEta<K, V>(e: Entry<K, V>)
    ensures e == Entry(e.key, e.value)
  {
  }

  // ---- the class ------------------------------------------------------------------------------

  /** A node of std::list; its handle stands for the iterator that keeps pointing to it. */
  datatype Node<K, V> = Node(handle: nat, entry: Entry<K, V>)

  function Entries<K, V>(nodes: seq<Node<K, V>>): (q: seq<Entry<K, V>>)
    ensures |q| == |nodes| && forall i :: 0 <= i < |nodes| ==> q[i] == nodes[i].entry
  {
    seq(|nodes|, i requires 0 <= i < |nodes| => nodes[i].entry)
  }

  ghost predicate UniqueHandles<K, V>(nodes: seq<Node<K, V>>) {
    forall i, j :: 0 <= i < j < |nodes| ==> nodes[i].handle != nodes[j].handle
  }

  /** Where an iterator points. */
  function At<K, V>(nodes: seq<Node<K, V>>, handle: nat): (i: nat)
    ensures i <= |nodes| && (i < |nodes| ==> nodes[i].handle == handle)
    ensures forall j :: 0 <= j < i ==> nodes[j].handle != handle
  {
    if nodes == [] || nodes[0].handle == handle then 0 else 1 + At(nodes[1..], handle)
  }

  /** Some node with this handle holds the key. */
  ghost predicate PointsTo<K, V>(nodes: seq<Node<K, V>>, h: nat, k: K) {
    exists i :: 0 <= i < |nodes| && nodes[i].handle == h && nodes[i].entry.key == k
  }

  ghost predicate NodeIndexed<K, V>(n: Node<K, V>, pointerMap: map<K, nat>) {
    n.entry.key in pointerMap && pointerMap[n.entry.key] == n.handle
  }

  /** The index map points every key of the list, and no other, to its own node. */
  ghost predicate Indexed<K, V>(nodes: seq<Node<K, V>>, pointerMap: map<K, nat>) {
    && UniqueHandles(nodes)
    && (forall i :: 0 <= i < |nodes| ==> NodeIndexed(nodes[i], pointerMap))
    && (forall k :: k in pointerMap ==> PointsTo(nodes, pointerMap[k], k))
  }

  lemma AtUnique<K, V>(nodes: seq<Node<K, V>>, i: nat)
    requires UniqueHandles(nodes) && i < |nodes|
    ensures At(nodes, nodes[i].handle) == i
  {
  }

  lemma AtFinds<K, V>(nodes: seq<Node<K, V>>, pointerMap: map<K, nat>, k: K)
    requires Indexed(nodes, pointerMap) && k in pointerMap
    ensures var i := At(nodes, pointerMap[k]); i < |nodes| && nodes[i].entry.key == k && nodes[i].handle == pointerMap[k]
  {
    assert PointsTo(nodes, pointerMap[k], k);
    var i :| 0 <= i < |nodes| && nodes[i].handle == pointerMap[k] && nodes[i].entry.key == k;
    AtUnique(nodes, i);
  }

  lemma IndexedKeys<K, V>(nodes: seq<Node<K, V>>, pointerMap: map<K, nat>)
    requires Indexed(nodes, pointerMap)
    ensures UniqueKeys(Entries(nodes))
    ensures forall k :: k in pointerMap <==> HasKey(Entries(nodes), k)
    ensures forall k :: k in pointerMap ==> At(nodes, pointerMap[k]) == Position(Entries(nodes), k) < |nodes|
  {
    var q := Entries(nodes);
    assert forall i :: 0 <= i < |nodes| ==> NodeIndexed(nodes[i], pointerMap);
    assert UniqueKeys(q);
    forall k | k in pointerMap ensures HasKey(q, k) && At(nodes, pointerMap[k]) == Position(q, k) < |nodes| {
      AtFinds(nodes, pointerMap, k);
      PositionUnique(q, At(nodes, pointerMap[k]));
    }
  }

  lemma PushUnique<K, V>(nodes: seq<Node<K, V>>, n: Node<K, V>)
    requires UniqueHandles(nodes) && forall i :: 0 <= i < |nodes| ==> nodes[i].handle != n.handle
    ensures UniqueHandles([n] + nodes)
    ensures forall h, k :: PointsTo([n] + nodes, h, k) <==> PointsTo(nodes, h, k) || (h == n.handle && k == n.entry.key)
  {
    var p := [n] + nodes;
    assert forall i :: 0 < i < |p| ==> p[i] == nodes[i - 1];
    forall h, k | PointsTo(nodes, h, k) || (h == n.handle && k == n.entry.key) ensures PointsTo(p, h, k) {
      if PointsTo(nodes, h, k) {
        var i :| 0 <= i < |nodes| && nodes[i].handle == h && nodes[i].entry.key == k;
        assert p[i + 1].handle == h;
      } else {
        assert p[0].handle == h;
      }
    }
  }

  lemma EraseUnique<K, V>(nodes: seq<Node<K, V>>, i: nat)
    requires UniqueHandles(nodes) && i < |nodes|
    ensures var r := RemoveAt(nodes, i);
            UniqueHandles(r) &&
            (forall j :: 0 <= j < |r| ==> r[j] in nodes && r[j].handle != nodes[i].handle) &&
            (forall h, k :: PointsTo(r, h, k) <==> PointsTo(nodes, h, k) && h != nodes[i].handle)
  {
    var r := RemoveAt(nodes, i);
    hide RemoveAt;
    assert forall j :: 0 <= j < |r| ==> r[j] == nodes[if j < i then j else j + 1];
    forall h, k | PointsTo(nodes, h, k) && h != nodes[i].handle ensures PointsTo(r, h, k) {
      var j :| 0 <= j < |nodes| && nodes[j].handle == h && nodes[j].entry.key == k;
      assert r[if j < i then j else j - 1] == nodes[j];
    }
  }

  lemma IndexedPush<K, V>(nodes: seq<Node<K, V>>, pointerMap: map<K, nat>, h: nat, k: K, v: V)
    requires Indexed(nodes, pointerMap) && k !in pointerMap && forall i :: 0 <= i < |nodes| ==> nodes[i].handle != h
    ensures Indexed([Node(h, Entry(k, v))] + nodes, pointerMap[k := h])
  {
    var n, p := [Node(h, Entry(k, v))] + nodes, pointerMap[k := h];
    PushUnique(nodes, Node(h, Entry(k, v)));
    assert forall i :: 0 < i < |n| ==> n[i] == nodes[i - 1];
    forall i | 0 <= i < |n| ensures NodeIndexed(n[i], p) {
      if i > 0 { assert NodeIndexed(nodes[i - 1], pointerMap); }
    }
    hide PointsTo;
  }

  lemma IndexedErase<K, V>(nodes: seq<Node<K, V>>, pointerMap: map<K, nat>, k: K)
    requires Indexed(nodes, pointerMap) && k in pointerMap
    ensures var i := At(nodes, pointerMap[k]); i < |nodes| && Indexed(RemoveAt(nodes, i), pointerMap - {k})
  {
    AtFinds(nodes, pointerMap, k);
    var i := At(nodes, pointerMap[k]);
    var n, p := RemoveAt(nodes, i), pointerMap - {k};
    EraseUnique(nodes, i);
    hide RemoveAt, At;
    forall j | 0 <= j < |n| ensures NodeIndexed(n[j], p) {
      assert NodeIndexed(n[j], pointerMap);
    }
    forall x | x in p ensures PointsTo(n, p[x], x) {
      HandlesDiffer(nodes, pointerMap, k, x);
    }
  }

  lemma HandlesDiffer<K, V>(nodes: seq<Node<K, V>>, pointerMap: map<K, nat>, k: K, x: K)
    requires Indexed(nodes, pointerMap) && k in pointerMap && x in pointerMap && x != k
    ensures pointerMap[x] != pointerMap[k]
  {
    AtFinds(nodes, pointerMap, k);
    AtFinds(nodes, pointerMap, x);
  }

  lemma IndexedSplice<K, V>(nodes: seq<Node<K, V>>, pointerMap: map<K, nat>, i: nat)
    requires Indexed(nodes, pointerMap) && i < |nodes|
    ensures Indexed([nodes[i]] + RemoveAt(nodes, i), pointerMap)
  {
    EraseUnique(nodes, i);
    PushUnique(RemoveAt(nodes, i), nodes[i]);
    var n := [nodes[i]] + RemoveAt(nodes, i);
    assert NodeIndexed(nodes[i], pointerMap);
    hide RemoveAt;
    forall j | 0 <= j < |n| ensures NodeIndexed(n[j], pointerMap) {
      if j > 0 { assert n[j] == RemoveAt(nodes, i)[j - 1]; }
    }
    forall x | x in pointerMap ensures PointsTo(n, pointerMap[x], x) {
      if x != nodes[i].entry.key {
        HandlesDiffer(nodes, pointerMap, nodes[i].entry.key, x);
      }
    }
  }

  lemma EntriesErase<K, V>(nodes: seq<Node<K, V>>, i: nat)
    requires i < |nodes|
    ensures Entries(RemoveAt(nodes, i)) == RemoveAt(Entries(nodes), i)
    ensures Entries([nodes[i]] + RemoveAt(nodes, i)) == [Entries(nodes)[i]] + RemoveAt(Entries(nodes), i)
  {
    hide RemoveAt;
  }

  lemma LastIsOldest<K, V>(nodes: seq<Node<K, V>>, pointerMap: map<K, nat>, accepts: V -> bool, i: nat)
    requires Indexed(nodes, pointerMap) && i < |nodes| && accepts(nodes[i].entry.value)
    requires forall j :: i < j < |nodes| ==> !accepts(nodes[j].entry.value)
    ensures OldestAccepted(Entries(nodes), accepts, Some(nodes[i].entry.key))
  {
    IndexedKeys(nodes, pointerMap);
    PositionUnique(Entries(nodes), i);
    hide Indexed, Position;
  }

  lemma NoneIsOldest<K, V>(nodes: seq<Node<K, V>>, accepts: V -> bool)
    requires forall j :: 0 <= j < |nodes| ==> !accepts(nodes[j].entry.value)
    ensures OldestAccepted<K, V>(Entries(nodes), accepts, None)
  {
    hide Indexed, Position;
  }

  /** The entries of all other keys, in their order. */
  function Others<K(==), V>(q: seq<Entry<K, V>>, k: K): seq<Entry<K, V>> {
    if q == [] then [] else (if q[0].key == k then [] else [q[0]]) + Others(q[1..], k)
  }

  lemma {:induction false} OthersAll<K, V>(q: seq<Entry<K, V>>, k: K)
    requires forall i :: 0 <= i < |q| ==> q[i].key != k
    ensures Others(q, k) == q
  {
    if q != [] {
      OthersAll(q[1..], k);
      assert q == [q[0]] + q[1..];
    }
  }

  /** Without the entry at position `i`, the only one of its key, the others are left. */
  lemma {:induction false} OthersAt<K, V>(q: seq<Entry<K, V>>, i: nat)
    requires UniqueKeys(q) && i < |q|
    ensures RemoveAt(q, i) == Others(q, q[i].key)
  {
    if i == 0 {
      OthersAll(q[1..], q[0].key);
    } else {
      OthersAt(q[1..], i - 1);
      assert RemoveAt(q, i) == [q[0]] + RemoveAt(q[1..], i - 1);
    }
  }

  /** Removing leaves the other entries; a move to the front leaves them behind the moved one. */
  lemma MovesKeepOthers<K, V>(q: seq<Entry<K, V>>, k: K)
    requires UniqueKeys(q)
    ensures Removed(q, k) == Others(q, k)
    ensures Position(q, k) < |q| ==> MovedToFront(q, k) == [q[Position(q, k)]] + Others(q, k)
    ensures !HasKey(q, k) ==> Others(q, k) == q
    ensures !HasKey(Others(q, k), k)
  {
    var i := Position(q, k);
    PositionIff(q, k);
    if i < |q| {
      OthersAt(q, i);
      RemovedAtKeys(q, i);
    } else {
      OthersAll(q, k);
    }
  }

  /** The queue shared by both policies; `find` of the LRU queue may move the entry to the front,
      that of the FIFO queue never does. */
  class Queue<K(==), V> {
    var entryQueue: seq<Node<K, V>>
    var pointerMap: map<K, nat>
    var nextHandle: nat

    ghost predicate Valid()
      reads this
    {
      && Indexed(entryQueue, pointerMap)
      && HandlesBelow(entryQueue, nextHandle)
    }

    ghost function Contents(): seq<Entry<K, V>>
      reads this
    {
      Entries(entryQueue)
    }

    constructor ()
      ensures Valid() && Contents() == []
    {
      entryQueue, pointerMap, nextHandle := [], map[], 0;
    }

    method Contains(key: K) returns (r: bool)
      requires Valid()
      ensures r <==> HasKey(Contents(), key)
    {
      IndexedKeys(entryQueue, pointerMap);
      r := key in pointerMap;
    }

    /** insert puts the entry in front. It keeps list and map in step exactly if the key is new:
        inserting a key twice leaves a stale entry that the map no longer points to. */
    method Insert(key: K, value: V)
      requires Valid()
      modifies this
      ensures Contents() == Pushed(old(Contents()), key, value)
      ensures Valid() <==> !HasKey(old(Contents()), key)
    {
      IndexedKeys(entryQueue, pointerMap);
      ghost var nodes, known := entryQueue, key in pointerMap;
      entryQueue := [Node(nextHandle, Entry(key, value))] + entryQueue;
      pointerMap := pointerMap[key := nextHandle];
      nextHandle := nextHandle + 1;
      EntriesPush(nodes, entryQueue[0]);
      assert forall i :: 0 < i < |entryQueue| ==> entryQueue[i] == nodes[i - 1];
      hide Indexed, Entries;
      if known {
        StaleEntry(nodes, old(pointerMap), entryQueue, pointerMap, key);
      } else {
        IndexedPush(nodes, old(pointerMap), old(nextHandle), key, value);
      }
    }

    /** remove takes out the key's entry, wherever it stands. For an absent key the source follows an
        iterator that points nowhere: there is no result, and nothing is promised. */
    method Remove(key: K) returns (result: Option<Entry<K, V>>)
      requires Valid()
      modifies this
      ensures result.Some? <==> HasKey(old(Contents()), key)
      ensures result.Some? ==> Valid() && Contents() == Removed(old(Contents()), key)
      ensures result.Some? ==> result.value in old(Contents()) && result.value.key == key
    {
      hide *;
      ValidParts();
      KeyIndexed(entryQueue, pointerMap, key);
      if key !in pointerMap {
        return None;
      }
      var it := At(entryQueue, pointerMap[key]);
      var removed := entryQueue[it].entry;
      Erased(entryQueue, pointerMap, nextHandle, key, it);
      entryQueue := RemoveAt(entryQueue, it);
      pointerMap := pointerMap - {key};
      ValidParts();
      return Some(removed);
    }

    /** findOne: the oldest entry, seen from the back, that the predicate accepts. */
    method FindOne(accepts: V -> bool) returns (r: Option<K>)
      requires Valid()
      ensures OldestAccepted(Contents(), accepts, r)
    {
      hide *;
      ValidParts();
      var i := |entryQueue|;
      while i > 0
        invariant 0 <= i <= |entryQueue|
        invariant forall j :: i <= j < |entryQueue| ==> !accepts(entryQueue[j].entry.value)
      {
        i := i - 1;
        if accepts(entryQueue[i].entry.value) {
          LastIsOldest(entryQueue, pointerMap, accepts, i);
          return Some(entryQueue[i].entry.key);
        }
      }
      NoneIsOldest(entryQueue, accepts);
      return None;
    }

    /** FIFOQueue::find leaves the order as it is. */
    method FindFifo(key: K) returns (r: Option<V>)
      requires Valid()
      ensures r.Some? <==> HasKey(Contents(), key)
      ensures r.Some? ==> Entry(key, r.value) in Contents()
    {
      IndexedKeys(entryQueue, pointerMap);
      if key !in pointerMap {
        return None;
      }
      var it := At(entryQueue, pointerMap[key]);
      EntryEta(entryQueue[it].entry);
      assert Contents()[it] == Entry(key, entryQueue[it].entry.value);
      return Some(entryQueue[it].entry.value);
    }

    /** LRUQueue::find moves the entry to the front if it is asked to, and only that entry. */
    method FindLru(key: K, toFront: bool) returns (r: Option<V>)
      requires Valid()
      modifies this
      ensures Valid()
      ensures r.Some? <==> HasKey(old(Contents()), key)
      ensures r.Some? ==> Entry(key, r.value) in Contents()
      ensures Contents() == if toFront then MovedToFront(old(Contents()), key) else old(Contents())
    {
      hide *;
      ValidParts();
      KeyIndexed(entryQueue, pointerMap, key);
      if key !in pointerMap {
        return None;
      }
      var it := At(entryQueue, pointerMap[key]);
      r := Some(entryQueue[it].entry.value);
      if toFront {
        Spliced(entryQueue, pointerMap, nextHandle, key, it);
        entryQueue := [entryQueue[it]] + RemoveAt(entryQueue, it);
        ValidParts();
      }
    }

    lemma ValidParts()
      ensures Valid() <==> Indexed(entryQueue, pointerMap) && HandlesBelow(entryQueue, nextHandle)
      ensures Contents() == Entries(entryQueue)
    {
    }
  }

  ghost predicate HandlesBelow<K, V>(nodes: seq<Node<K, V>>, bound: nat) {
    forall i :: 0 <= i < |nodes| ==> nodes[i].handle < bound
  }

  /** Where the index map leads for a key. */
  lemma KeyIndexed<K, V>(nodes: seq<Node<K, V>>, pointerMap: map<K, nat>, key: K)
    requires Indexed(nodes, pointerMap)
    ensures key in pointerMap <==> HasKey(Entries(nodes), key)
    ensures key !in pointerMap ==> MovedToFront(Entries(nodes), key) == Entries(nodes)
    ensures key in pointerMap ==>
              var i := At(nodes, pointerMap[key]);
              i < |nodes| && Entry(key, nodes[i].entry.value) == nodes[i].entry && nodes[i].entry in Entries(nodes)
  {
    IndexedKeys(nodes, pointerMap);
    PositionIff(Entries(nodes), key);
    hide Indexed, HasKey;
    if key in pointerMap {
      var i := At(nodes, pointerMap[key]);
      EntryEta(nodes[i].entry);
      assert Entries(nodes)[i] == nodes[i].entry;
    }
  }

  /** The node of a key is erased from list and index map. */
  lemma Erased<K, V>(nodes: seq<Node<K, V>>, pointerMap: map<K, nat>, bound: nat, key: K, i: nat)
    requires Indexed(nodes, pointerMap) && key in pointerMap && i == At(nodes, pointerMap[key]) < |nodes| && HandlesBelow(nodes, bound)
    ensures var n := RemoveAt(nodes, i);
            Indexed(n, pointerMap - {key}) && HandlesBelow(n, bound) && Entries(n) == Removed(Entries(nodes), key)
  {
    IndexedKeys(nodes, pointerMap);
    IndexedErase(nodes, pointerMap, key);
    EntriesErase(nodes, i);
    hide Indexed, At, Position;
  }

  /** The node of a key moves to the front. */
  lemma Spliced<K, V>(nodes: seq<Node<K, V>>, pointerMap: map<K, nat>, bound: nat, key: K, i: nat)
    requires Indexed(nodes, pointerMap) && key in pointerMap && i == At(nodes, pointerMap[key]) < |nodes|
    requires HandlesBelow(nodes, bound)
    ensures var n := [nodes[i]] + RemoveAt(nodes, i);
            Indexed(n, pointerMap) && Entries(n) == MovedToFront(Entries(nodes), key) && nodes[i].entry in Entries(n) &&
            HandlesBelow(n, bound)
  {
    IndexedKeys(nodes, pointerMap);
    IndexedSplice(nodes, pointerMap, i);
    EntriesErase(nodes, i);
    SplicedHandles(nodes, i, bound);
    hide Indexed, At, Position, RemoveAt;
    assert Entries([nodes[i]] + RemoveAt(nodes, i))[0] == nodes[i].entry;
  }

  lemma EntriesPush<K, V>(nodes: seq<Node<K, V>>, n: Node<K, V>)
    ensures Entries([n] + nodes) == [n.entry] + Entries(nodes)
  {
  }

  lemma SplicedHandles<K, V>(nodes: seq<Node<K, V>>, i: nat, bound: nat)
    requires i < |nodes| && forall j :: 0 <= j < |nodes| ==> nodes[j].handle < bound
    ensures var n := [nodes[i]] + RemoveAt(nodes, i); forall j :: 0 <= j < |n| ==> n[j].handle < bound
  {
  }

  lemma StaleEntry<K, V>(nodes: seq<Node<K, V>>, pointerMap: map<K, nat>, nodes': seq<Node<K, V>>, pointerMap': map<K, nat>, key: K)
    requires Indexed(nodes, pointerMap) && key in pointerMap && |nodes'| == |nodes| + 1 && nodes'[1..] == nodes
    requires key in pointerMap' && pointerMap'[key] == nodes'[0].handle && forall i :: 0 <= i < |nodes| ==> nodes[i].handle != nodes'[0].handle
    ensures !Indexed(nodes', pointerMap')
  {
    AtFinds(nodes, pointerMap, key);
    var i := At(nodes, pointerMap[key]);
    assert nodes'[i + 1] == nodes[i];
    hide At;
    assert !NodeIndexed(nodes'[i + 1], pointerMap');
    assert nodes'[i + 1].entry.key == key && nodes'[i + 1].handle != pointerMap'[key];
  }
}
