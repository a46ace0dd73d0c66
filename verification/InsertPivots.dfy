/** Inserting the pivots of several split children into their parent. */
module InsertPivots {
  import opened Keys
  import opened Labels
  import opened Kids
  import opened Leaves
  import Arrays

  /** The index of a split child, the key it was split at, and its new right sibling. */
  datatype PivotTuple = PivotTuple(index: nat, key: Key, child: PageId)

  ghost predicate IndexSorted(ts: seq<PivotTuple>) {
    forall i, j :: 0 <= i < j < |ts| ==> ts[i].index < ts[j].index
  }

  ghost function Indices(ts: seq<PivotTuple>): set<nat> {
    set t | t in ts :: t.index
  }

  /** The pivots after inserting the new pairs one at a time, the rightmost first. */
  function PivotsWith(pivots: seq<Key>, ts: seq<PivotTuple>): (r: seq<Key>)
    requires forall t :: t in ts ==> t.index <= |pivots|
    ensures |r| == |pivots| + |ts|
    decreases |ts|
  {
    if ts == [] then pivots
    else
      var t := ts[|ts| - 1];
      PivotsWith(InsertAt(pivots, t.index, t.key), ts[..|ts| - 1])
  }

  /** The children after inserting the new pairs one at a time, the rightmost first. */
  function ChildrenWith(children: seq<PageId>, ts: seq<PivotTuple>): (r: seq<PageId>)
    requires forall t :: t in ts ==> t.index < |children|
    ensures |r| == |children| + |ts|
    decreases |ts|
  {
    if ts == [] then children
    else
      var t := ts[|ts| - 1];
      ChildrenWith(InsertAt(children, t.index + 1, t.child), ts[..|ts| - 1])
  }

  /** The array holds `s` with a gap of `gap` free slots before position `at`, then `tail`. */
  ghost predicate Gapped<T>(a: seq<T>, s: seq<T>, at: nat, gap: nat, tail: seq<T>) {
    && at <= |s| && |s| + gap <= |a|
    && (forall x :: 0 <= x < at ==> a[x] == s[x])
    && (forall x :: at + gap <= x < |s| + gap ==> a[x] == s[x - gap])
    && a[|s| + gap..] == tail
  }

  lemma GapOpened<T>(a: seq<T>, size: nat, gap: nat)
    requires size + gap <= |a|
    ensures Gapped(a, a[..size], size, gap, a[size + gap..])
  {
  }

  lemma GapClosed<T>(a: seq<T>, s: seq<T>, at: nat, tail: seq<T>)
    requires Gapped(a, s, at, 0, tail)
    ensures |s| <= |a| && a[..|s|] == s && a[|s|..] == tail
  {
  }

  /** Moves the block between the new pair and the gap across the gap, and stores the new element
      in the slot before it; the gap ends up one slot smaller, before the new element. */
  method PlaceOne<T>(a: array<T>, index: nat, at: nat, gap: nat, x: T, ghost s: seq<T>, ghost tail: seq<T>)
    requires Gapped(a[..], s, at, gap, tail) && index <= at && gap > 0
    modifies a
    ensures Gapped(a[..], InsertAt(s, index, x), index, gap - 1, tail)
  {
    Arrays.MoveBackward(a, index, at, gap);
    a[index + gap - 1] := x;
  }

  /** insertPivots: one backward pass of shifted block moves inserts all pairs at once. */
  method InsertInPlace(pivots: array<Key>, children: array<PageId>, size: nat, newPivots: seq<PivotTuple>)
    returns (newSize: nat)
    requires children.Length == pivots.Length + 1 && size + |newPivots| <= pivots.Length
    requires IndexSorted(newPivots) && forall t :: t in newPivots ==> t.index <= size
    modifies pivots, children
    ensures newSize == size + |newPivots|
    ensures pivots[..newSize] == PivotsWith(old(pivots[..size]), newPivots)
    ensures children[..newSize + 1] == ChildrenWith(old(children[..size + 1]), newPivots)
    ensures pivots[newSize..] == old(pivots[newSize..])
    ensures children[newSize + 1..] == old(children[newSize + 1..])
  {
    hide *;
    ghost var pv, ch := pivots[..], children[..];
    newSize := size + |newPivots|;
    assert pv[..size] == pivots[..size] && pv[newSize..] == pivots[newSize..];
    assert ch[..size + 1] == children[..size + 1] && ch[newSize + 1..] == children[newSize + 1..];
    GapOpened(pv, size, |newPivots|);
    GapOpened(ch, size + 1, |newPivots|);
    InsertBackwards(pivots, children, size, newPivots, pv[..size], ch[..size + 1], pv[newSize..], ch[newSize + 1..]);
    assert pivots[..][..newSize] == pivots[..newSize] && pivots[..][newSize..] == pivots[newSize..];
    assert children[..][..newSize + 1] == children[..newSize + 1];
    assert children[..][newSize + 1..] == children[newSize + 1..];
  }

  /** The backward pass, on arrays whose used part ends at `size` and that hold a gap for the new
      pairs behind it. */
  method InsertBackwards(pivots: array<Key>, children: array<PageId>, size: nat, newPivots: seq<PivotTuple>,
                         ghost ps0: seq<Key>, ghost cs0: seq<PageId>, ghost pivotTail: seq<Key>, ghost childTail: seq<PageId>)
    requires children.Length == pivots.Length + 1 && size + |newPivots| <= pivots.Length
    requires |ps0| == size && |cs0| == size + 1
    requires IndexSorted(newPivots) && forall t :: t in newPivots ==> t.index <= size
    requires Gapped(pivots[..], ps0, size, |newPivots|, pivotTail) && Gapped(children[..], cs0, size + 1, |newPivots|, childTail)
    modifies pivots, children
    ensures pivots[..][..size + |newPivots|] == PivotsWith(ps0, newPivots)
    ensures children[..][..size + |newPivots| + 1] == ChildrenWith(cs0, newPivots)
    ensures pivots[..][size + |newPivots|..] == pivotTail && children[..][size + |newPivots| + 1..] == childTail
  {
    hide *;
    ghost var ps, cs := ps0, cs0;
    var lastFirst: nat, it := size, |newPivots|;
    StartInserting(ps, cs, newPivots);
    while it > 0
      invariant 0 <= it <= |newPivots|
      invariant Inserting(ps0, cs0, newPivots, ps, cs, lastFirst, it)
      invariant Gapped(pivots[..], ps, lastFirst, it, pivotTail)
      invariant Gapped(children[..], cs, lastFirst + 1, it, childTail)
    {
      var t := newPivots[it - 1];
      InsertOneMore(ps0, cs0, newPivots, ps, cs, lastFirst, it);
      PlaceOne(pivots, t.index, lastFirst, it, t.key, ps, pivotTail);
      PlaceOne(children, t.index + 1, lastFirst + 1, it, t.child, cs, childTail);
      ps, cs := InsertAt(ps, t.index, t.key), InsertAt(cs, t.index + 1, t.child);
      lastFirst, it := t.index, it - 1;
    }
    DoneInserting(ps0, cs0, newPivots, ps, cs, lastFirst);
    GapClosed(pivots[..], ps, lastFirst, pivotTail);
    GapClosed(children[..], cs, lastFirst + 1, childTail);
  }

  /** The pairs from position `it` on have been inserted, giving `ps` and `cs`. */
  ghost predicate Inserting(ps0: seq<Key>, cs0: seq<PageId>, ts: seq<PivotTuple>, ps: seq<Key>, cs: seq<PageId>, lastFirst: nat, it: nat) {
    && it <= |ts| && |cs0| == |ps0| + 1 && lastFirst <= |ps0|
    && IndexSorted(ts)
    && (forall t :: t in ts ==> t.index <= |ps0|)
    && |ps| == |ps0| + |ts| - it && |cs| == |ps| + 1
    && lastFirst == (if it == |ts| then |ps0| else ts[it].index)
    && (forall t :: t in ts[..it] ==> t.index <= |ps0|)
    && PivotsWith(ps, ts[..it]) == PivotsWith(ps0, ts)
    && ChildrenWith(cs, ts[..it]) == ChildrenWith(cs0, ts)
  }

  lemma StartInserting(ps: seq<Key>, cs: seq<PageId>, ts: seq<PivotTuple>)
    requires |cs| == |ps| + 1 && IndexSorted(ts) && forall t :: t in ts ==> t.index <= |ps|
    ensures Inserting(ps, cs, ts, ps, cs, |ps|, |ts|)
  {
    assert ts[..|ts|] == ts;
  }

  lemma InsertOneMore(ps0: seq<Key>, cs0: seq<PageId>, ts: seq<PivotTuple>, ps: seq<Key>, cs: seq<PageId>, lastFirst: nat, it: nat)
    requires Inserting(ps0, cs0, ts, ps, cs, lastFirst, it) && it > 0
    ensures ts[it - 1].index <= lastFirst <= |ps| && ts[it - 1].index + 1 <= |cs|
    ensures Inserting(ps0, cs0, ts, InsertAt(ps, ts[it - 1].index, ts[it - 1].key),
                      InsertAt(cs, ts[it - 1].index + 1, ts[it - 1].child), ts[it - 1].index, it - 1)
  {
    assert ts[it - 1] in ts;
    LastOf(ts, it);
    UnfoldLast(ps, cs, ts, it);
    hide PivotsWith, ChildrenWith, InsertAt, IndexSorted;
  }

  lemma DoneInserting(ps0: seq<Key>, cs0: seq<PageId>, ts: seq<PivotTuple>, ps: seq<Key>, cs: seq<PageId>, lastFirst: nat)
    requires Inserting(ps0, cs0, ts, ps, cs, lastFirst, 0)
    ensures |ps| == |ps0| + |ts| && |cs| == |ps| + 1
    ensures forall t :: t in ts ==> t.index <= |ps0| && t.index < |cs0|
    ensures ps == PivotsWith(ps0, ts) && cs == ChildrenWith(cs0, ts)
  {
  }

  lemma UnfoldLast(ps: seq<Key>, cs: seq<PageId>, ts: seq<PivotTuple>, it: nat)
    requires 0 < it <= |ts| && |cs| == |ps| + 1
    requires forall t :: t in ts[..it] ==> t.index <= |ps|
    ensures ts[it - 1].index <= |ps| && ts[..it][..it - 1] == ts[..it - 1]
    ensures PivotsWith(ps, ts[..it]) == PivotsWith(InsertAt(ps, ts[it - 1].index, ts[it - 1].key), ts[..it - 1])
    ensures ChildrenWith(cs, ts[..it]) == ChildrenWith(InsertAt(cs, ts[it - 1].index + 1, ts[it - 1].child), ts[..it - 1])
  {
    assert ts[..it][it - 1] == ts[it - 1] && ts[it - 1] in ts[..it];
    assert ts[..it][..it - 1] == ts[..it - 1];
  }

  lemma LastOf(ts: seq<PivotTuple>, it: nat)
    requires IndexSorted(ts) && 0 < it <= |ts|
    ensures ts[..it][..it - 1] == ts[..it - 1]
    ensures it < |ts| ==> ts[it - 1].index < ts[it].index
    ensures ts[it - 1] in ts[..it]
  {
  }

  // ---- what the inserted pivots mean ----------------------------------------------------------

  /** A split child that the parent does not list yet: it kept the keys up to `t.key`, and its
      new sibling has the others. */
  ghost predicate SplitKid(A: Labelling, root: PageId, id: PageId, pivots: seq<Key>, children: seq<PageId>, t: PivotTuple)
    requires id in A && |children| == |pivots| + 1
  {
    && t.index < |children|
    && KidAt(A, root, id, children[t.index], LowEnd(pivots, t.index, A[id].lo), t.key)
    && KidAt(A, root, id, t.child, t.key, HighEnd(pivots, t.index, A[id].hi))
  }

  /** The node agrees with the labels but for the pending pivots. */
  ghost predicate KidsPending(A: Labelling, root: PageId, id: PageId, pivots: seq<Key>, children: seq<PageId>, ts: seq<PivotTuple>)
    requires id in A
  {
    && |children| == |pivots| + 1
    && (forall t :: t in ts ==> SplitKid(A, root, id, pivots, children, t))
    && (forall i :: 0 <= i < |children| && i !in Indices(ts) ==> Kid(A, root, id, pivots, children, i))
  }

  lemma InsertLastPivot(A: Labelling, root: PageId, id: PageId, pivots: seq<Key>, children: seq<PageId>, ts: seq<PivotTuple>)
    requires id in A && KidsPending(A, root, id, pivots, children, ts) && IndexSorted(ts) && ts != []
    ensures var t, rest := ts[|ts| - 1], ts[..|ts| - 1];
            t.index < |children| && IndexSorted(rest) &&
            KidsPending(A, root, id, InsertAt(pivots, t.index, t.key), InsertAt(children, t.index + 1, t.child), rest)
  {
    var t, rest := ts[|ts| - 1], ts[..|ts| - 1];
    assert SplitKid(A, root, id, pivots, children, t);
    var ps, cs := InsertAt(pivots, t.index, t.key), InsertAt(children, t.index + 1, t.child);
    assert ts == rest + [t];
    hide InsertAt;
    forall s | s in rest ensures SplitKid(A, root, id, ps, cs, s) {
      assert s in ts && SplitKid(A, root, id, pivots, children, s);
      assert s.index < t.index;
    }
    forall i | 0 <= i < |cs| && i !in Indices(rest) ensures Kid(A, root, id, ps, cs, i) {
      if i < t.index {
        assert i !in Indices(ts);
        assert Kid(A, root, id, pivots, children, i);
      } else if i > t.index + 1 {
        assert i - 1 !in Indices(ts);
        assert Kid(A, root, id, pivots, children, i - 1);
      }
    }
  }

  /** After the pending pivots have been inserted, the node agrees with the labels. */
  lemma {:induction false} KidsInserted(A: Labelling, root: PageId, id: PageId, pivots: seq<Key>, children: seq<PageId>, ts: seq<PivotTuple>)
    requires id in A && KidsPending(A, root, id, pivots, children, ts) && IndexSorted(ts)
    ensures forall t :: t in ts ==> t.index < |children|
    ensures AllKids(A, root, id, PivotsWith(pivots, ts), ChildrenWith(children, ts))
    decreases |ts|
  {
    assert forall t :: t in ts ==> SplitKid(A, root, id, pivots, children, t);
    if ts == [] {
      assert Indices(ts) == {};
    } else {
      var t, rest := ts[|ts| - 1], ts[..|ts| - 1];
      InsertLastPivot(A, root, id, pivots, children, ts);
      KidsInserted(A, root, id, InsertAt(pivots, t.index, t.key), InsertAt(children, t.index + 1, t.child), rest);
    }
  }

  lemma PendingRange(A: Labelling, root: PageId, id: PageId, pivots: seq<Key>, children: seq<PageId>, ts: seq<PivotTuple>, i: nat)
    requires Consistent(A, root) && id in A && KidsPending(A, root, id, pivots, children, ts) && i < |children|
    ensures LowEnd(pivots, i, A[id].lo) < HighEnd(pivots, i, A[id].hi)
    ensures forall t :: t in ts && t.index == i ==> LowEnd(pivots, i, A[id].lo) < t.key < HighEnd(pivots, i, A[id].hi)
  {
    if i in Indices(ts) {
      forall t | t in ts && t.index == i ensures LowEnd(pivots, i, A[id].lo) < t.key < HighEnd(pivots, i, A[id].hi) {
        assert SplitKid(A, root, id, pivots, children, t);
        assert Linked(A, root, children[i]) && Linked(A, root, t.child);
      }
    } else {
      assert Kid(A, root, id, pivots, children, i);
      assert Linked(A, root, children[i]);
    }
  }

  /** New pivots in the order of their children have strictly rising keys. */
  lemma NewKeysRise(A: Labelling, root: PageId, id: PageId, pivots: seq<Key>, children: seq<PageId>, ts: seq<PivotTuple>)
    requires Consistent(A, root) && id in A && KidsPending(A, root, id, pivots, children, ts) && IndexSorted(ts)
    ensures forall i, j :: 0 <= i < j < |ts| ==> ts[i].key < ts[j].key
  {
    hide Consistent, SplitKid, Kid;
    forall i | 0 < i < |pivots| ensures pivots[i - 1] < pivots[i] {
      PendingRange(A, root, id, pivots, children, ts, i);
    }
    AdjacentSorted(pivots);
    forall i, j | 0 <= i < j < |ts| ensures ts[i].key < ts[j].key {
      assert ts[i] in ts && ts[j] in ts && ts[i].index < ts[j].index;
      assert SplitKid(A, root, id, pivots, children, ts[i]) && SplitKid(A, root, id, pivots, children, ts[j]);
      SplitInRange(A, root, id, pivots, children, ts[j]);
      PendingRange(A, root, id, pivots, children, ts, ts[i].index);
      PendingRange(A, root, id, pivots, children, ts, ts[j].index);
    }
  }

  lemma SplitInRange(A: Labelling, root: PageId, id: PageId, pivots: seq<Key>, children: seq<PageId>, t: PivotTuple)
    requires id in A && |children| == |pivots| + 1 && SplitKid(A, root, id, pivots, children, t)
    ensures t.index < |children|
  {
  }

  lemma TupleInserted(sorted: seq<PivotTuple>, i: nat, t: PivotTuple)
    requires IndexSorted(sorted) && i <= |sorted|
    requires i > 0 ==> sorted[i - 1].index < t.index
    requires i < |sorted| ==> t.index < sorted[i].index
    ensures IndexSorted(InsertAt(sorted, i, t))
    ensures forall q :: q in InsertAt(sorted, i, t) <==> q in sorted || q == t
  {
    InsertAtMembers(sorted, i, t);
    hide InsertAt;
  }

  /** Sorts the new pivots by the index of their child. */
  method SortByIndex(ts: seq<PivotTuple>) returns (sorted: seq<PivotTuple>)
    requires forall i, j :: 0 <= i < j < |ts| ==> ts[i].index != ts[j].index
    ensures IndexSorted(sorted) && |sorted| == |ts|
    ensures forall t :: t in sorted <==> t in ts
  {
    hide InsertAt;
    sorted := [];
    for n := 0 to |ts|
      invariant |sorted| == n && IndexSorted(sorted)
      invariant forall t :: t in sorted <==> t in ts[..n]
    {
      hide IndexSorted;
      var t := ts[n];
      var i := 0;
      while i < |sorted| && sorted[i].index < t.index
        invariant 0 <= i <= |sorted|
        invariant i > 0 ==> sorted[i - 1].index < t.index
      {
        i := i + 1;
      }
      assert i < |sorted| ==> sorted[i] in ts[..n];
      TupleInserted(sorted, i, t);
      sorted := InsertAt(sorted, i, t);
      assert ts[..n + 1] == ts[..n] + [t];
    }
    assert ts[..|ts|] == ts;
  }
}
