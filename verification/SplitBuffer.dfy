/** splitInnerNode divides a node's buffer with std::remove_if and then reads the removed messages
    from the tail that remove_if leaves behind. That tail holds the removed messages only because
    the buffer is sorted. */
module SplitBuffer {
  import opened Keys
  import opened Messages
  import opened MergeUpserts

  /** The messages up to `key`, which stay in the left node. */
  function KeptPart(s: seq<Upsert>, key: Key): seq<Upsert> {
    if s == [] then []
    else KeptPart(s[..|s| - 1], key) + if s[|s| - 1].key > key then [] else [s[|s| - 1]]
  }

  /** The messages above `key`, which belong to the right node. */
  function RemovedPart(s: seq<Upsert>, key: Key): seq<Upsert> {
    if s == [] then []
    else RemovedPart(s[..|s| - 1], key) + if s[|s| - 1].key > key then [s[|s| - 1]] else []
  }

  lemma {:induction false} PartSizes(s: seq<Upsert>, key: Key)
    ensures |KeptPart(s, key)| + |RemovedPart(s, key)| == |s|
    ensures forall u :: u in KeptPart(s, key) ==> u.key <= key
    ensures forall u :: u in RemovedPart(s, key) ==> u.key > key
  {
    if s != [] { PartSizes(s[..|s| - 1], key); }
  }

  lemma OneMore(s: seq<Upsert>, i: nat, key: Key)
    requires i < |s|
    ensures KeptPart(s[..i + 1], key) == KeptPart(s[..i], key) + if s[i].key > key then [] else [s[i]]
    ensures RemovedPart(s[..i + 1], key) == RemovedPart(s[..i], key) + if s[i].key > key then [s[i]] else []
  {
    assert s[..i + 1][..i] == s[..i];
  }

  /** The first `next` messages of `s` have been looked at; those kept fill the front of `now`. */
  ghost predicate Compacted(s: seq<Upsert>, now: seq<Upsert>, it: nat, next: nat, size: nat, key: Key) {
    && it <= next <= size <= |s| == |now|
    && now[..it] == KeptPart(s[..next], key)
    && now[it..] == s[it..]
  }

  lemma NothingCompacted(s: seq<Upsert>, size: nat, key: Key)
    requires size <= |s|
    ensures Compacted(s, s, 0, 0, size, key)
  {
  }

  lemma KeepInPlace(s: seq<Upsert>, it: nat, size: nat, key: Key)
    requires Compacted(s, s, it, it, size, key) && it < size && s[it].key <= key
    ensures Compacted(s, s, it + 1, it + 1, size, key)
  {
    OneMore(s, it, key);
    hide KeptPart;
  }

  lemma SkipRemoved(s: seq<Upsert>, now: seq<Upsert>, it: nat, next: nat, size: nat, key: Key)
    requires Compacted(s, now, it, next, size, key) && next < size && now[next].key > key
    ensures Compacted(s, now, it, next + 1, size, key)
  {
    assert now[it..][next - it] == s[it..][next - it];
    OneMore(s, next, key);
    hide KeptPart;
  }

  lemma MoveKept(s: seq<Upsert>, now: seq<Upsert>, it: nat, next: nat, size: nat, key: Key)
    requires Compacted(s, now, it, next, size, key) && it < next < size && now[next].key <= key
    ensures Compacted(s, now[it := now[next]], it + 1, next + 1, size, key)
  {
    assert now[it..][next - it] == s[it..][next - it];
    OneMore(s, next, key);
    hide KeptPart;
    var now' := now[it := now[next]];
    assert now'[..it + 1] == now[..it] + [now[next]];
    assert now'[it + 1..] == now[it..][1..] && s[it + 1..] == s[it..][1..];
  }

  /** std::remove_if on the first `size` messages: kept messages move forward over removed ones;
      behind them the buffer is left as it was. */
  method RemoveIfAbove(a: array<Upsert>, size: nat, key: Key) returns (it: nat)
    requires size <= a.Length
    modifies a
    ensures it <= size
    ensures a[..it] == KeptPart(old(a[..size]), key)
    ensures a[it..] == old(a[it..])
  {
    hide *;
    ghost var s := a[..];
    it := 0;
    NothingCompacted(s, size, key);
    while it < size && !(a[it].key > key)
      invariant it <= size && a[..] == s && Compacted(s, s, it, it, size, key)
    {
      KeepInPlace(s, it, size, key);
      it := it + 1;
    }
    var next := it;
    if it != size {
      SkipRemoved(s, s, it, next, size, key);
      next := next + 1;
    }
    while next < size
      invariant it <= next <= size && (next < size ==> it < next)
      invariant Compacted(s, a[..], it, next, size, key)
    {
      ghost var now := a[..];
      if a[next].key > key {
        SkipRemoved(s, now, it, next, size, key);
      } else {
        MoveKept(s, now, it, next, size, key);
        a[it] := a[next];
        assert a[..] == now[it := now[next]];
        it := it + 1;
      }
      next := next + 1;
    }
    CompactedParts(s, a[..], it, next, size, key);
    assert s[..size] == old(a[..size]) && a[..][..it] == a[..it] && a[..][it..] == a[it..] && s[it..] == old(a[it..]);
  }

  lemma CompactedParts(s: seq<Upsert>, now: seq<Upsert>, it: nat, next: nat, size: nat, key: Key)
    requires Compacted(s, now, it, next, size, key)
    ensures it <= next <= size <= |s| == |now| && now[..it] == KeptPart(s[..next], key) && now[it..] == s[it..]
  {
  }

  /** No message up to the key stands behind one above it. */
  ghost predicate KeptFirst(s: seq<Upsert>, key: Key) {
    forall i, j :: 0 <= i < j < |s| && s[i].key > key ==> s[j].key > key
  }

  lemma {:induction false} PartsOfConcat(a: seq<Upsert>, b: seq<Upsert>, key: Key)
    ensures KeptPart(a + b, key) == KeptPart(a, key) + KeptPart(b, key)
    ensures RemovedPart(a + b, key) == RemovedPart(a, key) + RemovedPart(b, key)
    decreases |b|
  {
    if b == [] {
      assert a + b == a;
    } else {
      assert (a + b)[..|a + b| - 1] == a + b[..|b| - 1];
      PartsOfConcat(a, b[..|b| - 1], key);
    }
  }

  lemma {:induction false} AllKept(s: seq<Upsert>, key: Key)
    requires forall i :: 0 <= i < |s| ==> s[i].key <= key
    ensures KeptPart(s, key) == s && RemovedPart(s, key) == []
  {
    if s != [] {
      var front, u := s[..|s| - 1], s[|s| - 1];
      assert s == front + [u];
      AllKept(front, key);
    }
  }

  lemma {:induction false} AllRemoved(s: seq<Upsert>, key: Key)
    requires forall i :: 0 <= i < |s| ==> s[i].key > key
    ensures KeptPart(s, key) == [] && RemovedPart(s, key) == s
  {
    if s != [] {
      var front, u := s[..|s| - 1], s[|s| - 1];
      assert s == front + [u];
      AllRemoved(front, key);
    }
  }

  lemma {:induction false} KeptCount(s: seq<Upsert>, key: Key)
    ensures |KeptPart(s, key)| == |s| ==> forall i :: 0 <= i < |s| ==> s[i].key <= key
  {
    if s != [] {
      PartSizes(s[..|s| - 1], key);
      KeptCount(s[..|s| - 1], key);
    }
  }

  lemma Cut(s: seq<Upsert>, n: nat, key: Key)
    requires n <= |s|
    requires forall i :: 0 <= i < n ==> s[i].key <= key
    requires forall i :: n <= i < |s| ==> s[i].key > key
    ensures KeptPart(s, key) == s[..n] && RemovedPart(s, key) == s[n..]
  {
    assert s == s[..n] + s[n..];
    PartsOfConcat(s[..n], s[n..], key);
    AllKept(s[..n], key);
    AllRemoved(s[n..], key);
    hide KeptPart, RemovedPart;
  }

  /** If no kept message follows a removed one, the parts are a prefix and a suffix. */
  lemma PartsAreSlices(s: seq<Upsert>, key: Key)
    requires KeptFirst(s, key)
    ensures var n := |KeptPart(s, key)|; n <= |s| && KeptPart(s, key) == s[..n] && RemovedPart(s, key) == s[n..]
  {
    var n := 0;
    while n < |s| && s[n].key <= key
      invariant n <= |s| && forall i :: 0 <= i < n ==> s[i].key <= key
    {
      n := n + 1;
    }
    Cut(s, n, key);
    hide KeptPart, RemovedPart;
  }

  lemma TailMeansKeptFirst(s: seq<Upsert>, key: Key)
    requires |KeptPart(s, key)| <= |s| && s[|KeptPart(s, key)|..] == RemovedPart(s, key)
    ensures KeptFirst(s, key)
  {
    hide *;
    var n := |KeptPart(s, key)|;
    var left, right := s[..n], s[n..];
    PartSizes(s, key);
    assert s == left + right;
    PartsOfConcat(left, right, key);
    assert forall i :: 0 <= i < |right| ==> right[i] in right;
    AllRemoved(right, key);
    KeptCount(left, key);
    KeptFirstFrom(s, n, left, right, key);
  }

  lemma KeptFirstFrom(s: seq<Upsert>, n: nat, left: seq<Upsert>, right: seq<Upsert>, key: Key)
    requires n <= |s| && left == s[..n] && right == s[n..]
    requires forall i :: 0 <= i < |left| ==> left[i].key <= key
    requires forall i :: 0 <= i < |right| ==> right[i].key > key
    ensures KeptFirst(s, key)
  {
    assert forall i :: 0 <= i < n ==> s[i] == left[i];
    assert forall j :: n <= j < |s| ==> s[j] == right[j - n];
  }

  /** The tail that splitInnerNode moves to the right node is the removed part exactly if no
      message up to the key stands behind one above it. */
  lemma TailIsRemovedIff(s: seq<Upsert>, key: Key)
    ensures |KeptPart(s, key)| <= |s|
    ensures s[|KeptPart(s, key)|..] == RemovedPart(s, key) <==> KeptFirst(s, key)
  {
    PartSizes(s, key);
    if KeptFirst(s, key) {
      PartsAreSlices(s, key);
    } else if s[|KeptPart(s, key)|..] == RemovedPart(s, key) {
      TailMeansKeptFirst(s, key);
    }
  }

  /** A sorted buffer splits at the upper bound of the key, and the buffer itself is not changed. */
  lemma SortedSplitsAtBound(s: seq<Upsert>, key: Key)
    requires Sorted(s)
    ensures KeptFirst(s, key)
    ensures |KeptPart(s, key)| == UpperBound(KeysOf(s), key)
    ensures KeptPart(s, key) == s[..UpperBound(KeysOf(s), key)] && RemovedPart(s, key) == s[UpperBound(KeysOf(s), key)..]
  {
    PartsAreSlices(s, key);
    PartSizes(s, key);
    var n, keys := |KeptPart(s, key)|, KeysOf(s);
    assert n > 0 ==> s[n - 1] in KeptPart(s, key) by { assert n > 0 ==> s[..n][n - 1] == s[n - 1]; }
    assert n < |s| ==> s[n] in RemovedPart(s, key) by { assert n < |s| ==> s[n..][0] == s[n]; }
    UpperBoundUnique(keys, key, n);
  }

  /** An unsorted buffer loses a message: with messages for 9 and 1 split at 5, the tail read for
      the right node is the message for 1, not the one for 9. */
  lemma UnsortedLosesMessage(v: Value)
    ensures var s := [Upsert(9, v, 1, INSERT), Upsert(1, v, 2, INSERT)];
            KeptPart(s, 5) == [s[1]] && s[1..] != RemovedPart(s, 5)
  {
    var s := [Upsert(9, v, 1, INSERT), Upsert(1, v, 2, INSERT)];
    assert s[..0] == [] && s[..2] == s;
    OneMore(s, 0, 5);
    OneMore(s, 1, 5);
  }
}
