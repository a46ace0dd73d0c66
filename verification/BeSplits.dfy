/** Which children of a node split while the node is handled, and what that makes of the node. */
module BeSplits {
  import opened Keys
  import opened Messages
  import opened Labels
  import opened Leaves
  import opened LeafFlush
  import opened Kids
  import opened InsertPivots
  import opened BeSizes
  import opened BeNodes
  import opened BeFlush
  import opened BeCascade
  import opened BeServe
  import opened RemoveMessages
  import Median

  /** Buffer and messages together exceed the buffer, and however the children to be served are
      chosen, as many as there are free pivots do not have enough messages waiting. */
  ghost predicate TooManyServed(n: Node, msgs: seq<Upsert>)
    requires n.InnerNode? && Sorted(n.upserts) && Sorted(msgs)
  {
    var merged := MergeMap(MapOf(n.upserts), MapOf(msgs));
    |n.upserts| + |msgs| > SIZES.innerBN &&
    forall cs: set<nat> :: |cs| <= SIZES.innerN - |n.pivots| ==>
      |RoutedIn(merged, n.pivots, cs)| < |n.upserts| + |msgs| - SIZES.innerBN
  }

  /** A child has to split before it can take its messages: a leaf if the forecast exceeds its
      capacity, an inner node if it lacks a free pivot for a child that must get some of them. */
  ghost predicate HasToSplit(n: Node, msgs: seq<Upsert>) {
    match n
    case LeafNode(l) => |l.keys| <= SIZES.leafN && MayOverflow(l, msgs)
    case InnerNode(upserts, _, _) => Sorted(upserts) && Sorted(msgs) && TooManyServed(n, msgs)
    case RootNode(_, _) => false
  }

  lemma LeafHasToSplit(l: Leaf, msgs: seq<Upsert>)
    requires |l.keys| <= SIZES.leafN
    ensures HasToSplit(LeafNode(l), msgs) <==> MayOverflow(l, msgs)
  {
  }

  /** A buffer with room splits nothing. */
  lemma RoomIsEnough(n: Node, msgs: seq<Upsert>)
    requires n.InnerNode? && SIZES.innerBN - |n.upserts| >= |msgs|
    ensures !HasToSplit(n, msgs)
  {
  }

  /** removeMessages serves more children than there are free pivots exactly if no choice of children
      could have done with the free pivots. */
  lemma ServedTooMany(n: Node, msgs: seq<Upsert>, rest: seq<Upsert>, flushed: MessageMap, gone: map<Key, Upsert>)
    requires n.InnerNode? && |n.pivots| <= SIZES.innerN && Rearranged(n.upserts, n.pivots, msgs, rest, flushed, gone)
    requires |n.upserts| + |msgs| > SIZES.innerBN && |gone| >= |n.upserts| + |msgs| - SIZES.innerBN
    requires NoFewer(gone + MapOf(rest), n.pivots, |flushed|, |n.upserts| + |msgs| - SIZES.innerBN)
    ensures HasToSplit(n, msgs) <==> SIZES.innerN - |n.pivots| < |flushed|
  {
    var m := MergeMap(MapOf(n.upserts), MapOf(msgs));
    assert |flushed.Keys| == |flushed|;
    ServedHold(n.pivots, flushed, gone, m);
    hide RoutedIn, MergeMap, MapOf, Carries, Sorted;
  }

  lemma ServedHold(pivots: seq<Key>, flushed: MessageMap, gone: map<Key, Upsert>, m: map<Key, Upsert>)
    requires Carries(pivots, flushed, gone) && gone.Keys <= m.Keys
    ensures |gone| <= |RoutedIn(m, pivots, flushed.Keys)|
  {
    forall k | k in gone ensures k in RoutedIn(m, pivots, flushed.Keys) {
      assert CarriesKey(pivots, flushed, gone, k);
    }
    Contained(gone.Keys, RoutedIn(m, pivots, flushed.Keys));
    assert |gone.Keys| == |gone|;
  }

  /** The two halves of a split node: a leaf is cut above the median of keys and messages, an inner
      node at its middle pivot, which belongs to neither half. */
  ghost predicate Halves(n: Node, msgs: seq<Upsert>, mid: Key, left: Node, right: Node) {
    match n
    case LeafNode(l) =>
      |l.keys| == |l.values| && Median.HasRank(l.keys, KeysOf(msgs), mid, (|l.keys| + |msgs| + 1) / 2) &&
      left == LeafNode(SplitLeft(l, mid)) && right == LeafNode(SplitRight(l, mid))
    case InnerNode(_, pivots, children) =>
      |pivots| >= 2 &&
      var at := SplitIndex(|pivots|);
      at < |pivots| && |children| == |pivots| + 1 && mid == pivots[at] && left.InnerNode? && right.InnerNode? &&
      left.pivots == pivots[..at] && left.children == children[..at + 1] &&
      right.pivots == pivots[at + 1..] && right.children == children[at + 1..]
    case RootNode(_, _) => false
  }

  /** A node that does not split keeps its keys, or its pivots and children. */
  ghost predicate Unsplit(n: Node, n': Node) {
    match n
    case LeafNode(_) => n' == n
    case InnerNode(_, pivots, children) => n'.InnerNode? && n'.pivots == pivots && n'.children == children
    case RootNode(_, _) => false
  }

  /** Child `c` at index `i` has been served, and nothing else has been touched: if it had to, it has
      split, and the separator and the new page are one more pivot for its parent; otherwise it has
      not, and there is no new page and no new pivot. */
  ghost predicate ChildServed(pages: Pages, i: nat, c: PageId, msgs: seq<Upsert>, ts: seq<PivotTuple>, pages': Pages, ts': seq<PivotTuple>) {
    && c in pages && (forall x :: x in pages && x != c ==> x in pages' && pages'[x] == pages[x])
    && if HasToSplit(pages[c], msgs) then
         |ts'| == |ts| + 1 &&
         var t := ts'[|ts|];
         ts' == ts + [t] && t.index == i && t.child !in pages && pages'.Keys == pages.Keys + {t.child} &&
         Halves(pages[c], msgs, t.key, pages'[c], pages'[t.child])
       else ts' == ts && pages'.Keys == pages.Keys && Unsplit(pages[c], pages'[c])
  }

  lemma SplitServed(pages: Pages, i: nat, c: PageId, msgs: seq<Upsert>, ts: seq<PivotTuple>, r: PageId, mid: Key, left: Node, right: Node, pages': Pages)
    requires c in pages && r !in pages && HasToSplit(pages[c], msgs) && Halves(pages[c], msgs, mid, left, right)
    requires pages' == pages[c := left][r := right]
    ensures ChildServed(pages, i, c, msgs, ts, pages', ts + [PivotTuple(i, mid, r)])
  {
    hide HasToSplit, Halves;
  }

  lemma UnsplitServed(pages: Pages, i: nat, c: PageId, msgs: seq<Upsert>, ts: seq<PivotTuple>, n: Node)
    requires c in pages && !HasToSplit(pages[c], msgs) && Unsplit(pages[c], n)
    ensures ChildServed(pages, i, c, msgs, ts, pages[c := n], ts)
  {
    hide HasToSplit, Unsplit;
  }

  lemma LeafHalvesAre(l: Leaf, msgs: seq<Upsert>, mid: Key)
    requires |l.keys| == |l.values| && Median.HasRank(l.keys, KeysOf(msgs), mid, (|l.keys| + |KeysOf(msgs)| + 1) / 2)
    ensures Halves(LeafNode(l), msgs, mid, LeafNode(SplitLeft(l, mid)), LeafNode(SplitRight(l, mid)))
  {
    hide SplitLeft, SplitRight, Median.HasRank;
  }

  lemma InnerHalvesAre(n: Node, rest: seq<Upsert>, msgs: seq<Upsert>, at: nat)
    requires n.InnerNode? && |n.pivots| >= 2 && |n.children| == |n.pivots| + 1 && at == SplitIndex(|n.pivots|) < |n.pivots|
    ensures var n' := n.(upserts := rest); Halves(n, msgs, n.pivots[at], InnerLeft(n', at), InnerRight(n', at))
  {
  }

  lemma InnerUnsplit(n: Node, rest: seq<Upsert>)
    requires n.InnerNode?
    ensures Unsplit(n, n.(upserts := rest))
  {
  }

  lemma LeafUnsplit(pages: Pages, i: nat, c: PageId, msgs: seq<Upsert>, ts: seq<PivotTuple>)
    requires c in pages && pages[c].LeafNode? && !HasToSplit(pages[c], msgs)
    ensures ChildServed(pages, i, c, msgs, ts, pages, ts)
  {
    hide HasToSplit;
  }

  /** The children of a node are different pages, and none is the node itself. */
  lemma ChildApart(pages: Pages, A: Labelling, root: PageId, pend: Pending, p: PageId, rem: MessageMap,
                   ts: seq<PivotTuple>, queue: seq<Entry>, tasks: seq<Task>, i: nat)
    requires Serving(pages, A, root, pend, p, rem, ts, queue, tasks) && p in pages && pages[p].InnerNode? && i < |pages[p].children|
    ensures NoDuplicates(pages[p].children) && pages[p].children[i] != p
    ensures p in A && pages[p].children[i] in A && A[pages[p].children[i]].height < A[p].height
  {
    ServingParts(pages, A, root, pend, p, rem, ts, queue, tasks);
    ChildrenInPages(pages, A, root, pend, p, ts);
    assert pages[p].children[i] in pages[p].children;
    hide Stored, Serving, Source, QueueOK, TasksOK, Owned;
    ParentTaller(A, root, pages[p].children[i]);
  }

  // ---- the handled node -----------------------------------------------------------------------

  /** The children of node `p` that have to split for their messages. */
  ghost function Splitting(pages: Pages, p: PageId, messages: MessageMap): set<nat> {
    set i | i in messages && p in pages && pages[p].InnerNode? && i < |pages[p].children| &&
            pages[p].children[i] in pages && HasToSplit(pages[pages[p].children[i]], messages[i])
  }

  ghost predicate Waiting(pages: Pages, p: PageId, messages: MessageMap, rem: MessageMap, pages': Pages, i: nat)
    requires p in pages && pages[p].InnerNode? && i in rem
  {
    i in messages && rem[i] == messages[i] && i < |pages[p].children| &&
    var c := pages[p].children[i]; c in pages && c in pages' && pages'[c] == pages[c]
  }

  /** The children not in `rem` have been served, the others and the node itself are as they were;
      there is one new pivot for each child served that had to split. */
  ghost predicate ServedSoFar(pages: Pages, p: PageId, messages: MessageMap, rem: MessageMap, pages': Pages, ts: seq<PivotTuple>) {
    && p in pages && pages[p].InnerNode? && p in pages' && pages'[p] == pages[p]
    && (forall i :: i in rem ==> Waiting(pages, p, messages, rem, pages', i))
    && Indices(ts) == Splitting(pages, p, messages) - rem.Keys
  }

  lemma StartServed(pages: Pages, p: PageId, messages: MessageMap)
    requires p in pages && pages[p].InnerNode?
    requires forall i :: i in messages ==> i < |pages[p].children| && pages[p].children[i] in pages
    ensures ServedSoFar(pages, p, messages, messages, pages, [])
  {
    hide HasToSplit;
  }

  /** A node whose turn has come is as it was before its children are served. */
  lemma StartServing(pages: Pages, A: Labelling, root: PageId, pend: Pending, p: PageId, messages: MessageMap, queue: seq<Entry>)
    requires Serving(pages, A, root, pend, p, messages, [], queue, [])
    ensures ServedSoFar(pages, p, messages, messages, pages, [])
  {
    hide *;
    ServingParts(pages, A, root, pend, p, messages, [], queue, []);
    ChildrenInPages(pages, A, root, pend, p, []);
    forall i | i in messages ensures i < |pages[p].children| && pages[p].children[i] in pages {
      UnservedAt(pages[p].children, pend, messages, [], queue, [], i);
      assert pages[p].children[i] in pages[p].children;
    }
    StartServed(pages, p, messages);
  }

  lemma ServedSame(pages: Pages, p: PageId, messages: MessageMap, rem: MessageMap, pages': Pages, ts: seq<PivotTuple>)
    requires ServedSoFar(pages, p, messages, rem, pages', ts)
    ensures p in pages && pages[p].InnerNode? && p in pages' && pages'[p] == pages[p]
  {
  }

  lemma FirstTaskOnly(tasks: seq<Task>)
    requires tasks != []
    ensures TaskPages(tasks[0]) <= AllTaskPages(tasks) && AllTaskPages(tasks[1..]) <= AllTaskPages(tasks)
  {
  }

  lemma ServedMore(pages: Pages, p: PageId, messages: MessageMap, rem: MessageMap, pages1: Pages, ts1: seq<PivotTuple>,
                   i: nat, pages2: Pages, ts2: seq<PivotTuple>)
    requires ServedSoFar(pages, p, messages, rem, pages1, ts1) && i in rem && i < |pages[p].children| && NoDuplicates(pages[p].children)
    requires pages[p].children[i] != p && ChildServed(pages1, i, pages[p].children[i], rem[i], ts1, pages2, ts2)
    ensures ServedSoFar(pages, p, messages, rem - {i}, pages2, ts2)
  {
    hide HasToSplit, Halves, Unsplit;
    var c := pages[p].children[i];
    assert Waiting(pages, p, messages, rem, pages1, i);
    assert i in Splitting(pages, p, messages) <==> HasToSplit(pages1[c], rem[i]);
    if ts2 != ts1 {
      assert ts2 == ts1 + [ts2[|ts1|]];
      assert Indices(ts2) == Indices(ts1) + {i};
    }
    forall j | j in rem - {i} ensures Waiting(pages, p, messages, rem - {i}, pages2, j) {
      assert Waiting(pages, p, messages, rem, pages1, j) && pages[p].children[j] != c;
    }
  }

  /** The node has gained one pivot and one child for each child that had to split, on its right. */
  ghost predicate Gained(n: Node, splitting: set<nat>, n': Node, ts: seq<PivotTuple>) {
    && n.InnerNode? && Indices(ts) == splitting && IndexSorted(ts) && |ts| == |splitting|
    && (forall t :: t in ts ==> t.index < |n.children| && t.index <= |n.pivots|)
    && n' == InnerNode(n.upserts, PivotsWith(n.pivots, ts), ChildrenWith(n.children, ts))
  }

  lemma GainedFrom(pages: Pages, p: PageId, messages: MessageMap, pages': Pages, ts: seq<PivotTuple>, sorted: seq<PivotTuple>)
    requires ServedSoFar(pages, p, messages, map[], pages', ts)
    requires IndexSorted(sorted) && |sorted| == |ts| && forall t :: t in sorted <==> t in ts
    requires forall t :: t in sorted ==> t.index < |pages[p].children| == |pages[p].pivots| + 1
    ensures var n := pages[p];
            Gained(n, Splitting(pages, p, messages), WithPivots(n, PivotsWith(n.pivots, sorted), ChildrenWith(n.children, sorted)), sorted)
  {
    AllServed(pages, p, messages, pages', ts);
    SameIndices(ts, sorted);
    IndexCount(sorted);
    hide Splitting, PivotsWith, ChildrenWith, ServedSoFar, Indices;
  }

  lemma AllServed(pages: Pages, p: PageId, messages: MessageMap, pages': Pages, ts: seq<PivotTuple>)
    requires ServedSoFar(pages, p, messages, map[], pages', ts)
    ensures p in pages && pages[p].InnerNode? && Indices(ts) == Splitting(pages, p, messages)
  {
    hide Splitting;
  }

  lemma SameIndices(ts: seq<PivotTuple>, sorted: seq<PivotTuple>)
    requires forall t :: t in sorted <==> t in ts
    ensures Indices(sorted) == Indices(ts)
  {
  }

  lemma {:induction false} IndexCount(ts: seq<PivotTuple>)
    requires IndexSorted(ts)
    ensures |Indices(ts)| == |ts|
  {
    if ts == [] {
      assert Indices(ts) == {};
    } else {
      var front, t := ts[..|ts| - 1], ts[|ts| - 1];
      IndexCount(front);
      assert ts == front + [t];
      assert t.index !in Indices(front);
      assert Indices(ts) == Indices(front) + {t.index};
    }
  }
}
