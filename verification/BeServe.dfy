/** The ways a child can be served while its parent is handled: a leaf takes its messages as it
    is or splits first; an inner node stores them, passes some on, or splits and passes some on. */
module BeServe {
  import opened Keys
  import opened Messages
  import opened MergeUpserts
  import opened Labels
  import opened Leaves
  import opened LeafFlush
  import opened Kids
  import opened InsertPivots
  import opened BeSizes
  import opened BeNodes
  import opened BeFlush
  import opened BeCascade
  import opened RemoveMessages
  import Median

  /** What is known of a child before it is served. */
  ghost predicate ChildReady(pages: Pages, A: Labelling, root: PageId, pend: Pending, p: PageId, ts: seq<PivotTuple>,
                             i: nat, c: PageId, msgs: seq<Upsert>) {
    && Consistent(A, root) && Stored(pages, A, root, pend, p, ts)
    && p in pages && p in A && p != root && pages[p].InnerNode? && OnlyAt(pages[p].children, ts, i, c)
    && c in pages && c in A && c != root && p != c && A[c].parent == p && A[c].height == A[p].height - 1
    && c !in pend && !pages[c].RootNode?
    && ContentOK(pages[c], A[c], map[], false) && KidsOK(A, root, c, pages[c], [])
    && LevelsFrom(A, pend, A[p].height - 1) && pend.Keys <= pages.Keys && root !in pend
    && Sorted(msgs) && msgs != [] && |msgs| <= MAX_FLUSH_SIZE
    && PartOf(MapOf(msgs), PendingAt(pend, p))
    && (forall k :: k in MapOf(msgs) ==> InRange(A[c], k))
  }

  lemma RoutedInRange(A: Labelling, root: PageId, p: PageId, pivots: seq<Key>, children: seq<PageId>, i: nat, k: Key)
    requires p in A && |children| == |pivots| + 1 && i < |children| && Kid(A, root, p, pivots, children, i)
    requires InRange(A[p], k) && LowerBound(pivots, k) == i
    ensures InRange(A[children[i]], k)
  {
  }

  lemma PendingInRange(n: Node, l: Label, pending: map<Key, Upsert>, isRoot: bool, k: Key)
    requires ContentOK(n, l, pending, isRoot) && Base(l) && k in pending
    ensures InRange(l, k)
  {
    hide Sorted, Holds;
    assert k in l.msgs;
  }

  lemma ChildMessagesInRange(pages: Pages, A: Labelling, root: PageId, pend: Pending, p: PageId, ts: seq<PivotTuple>, rem: MessageMap, i: nat)
    requires Consistent(A, root) && Stored(pages, A, root, pend, p, ts) && Source(pages, root, pend, p, rem, ts)
    requires i in rem && i < |pages[p].children| && i !in Indices(ts) && p in A
    ensures pages[p].children[i] in A
    ensures Sorted(rem[i]) && rem[i] != [] && PartOf(MapOf(rem[i]), PendingAt(pend, p))
    ensures forall k :: k in MapOf(rem[i]) ==> InRange(A[pages[p].children[i]], k)
  {
    var n := pages[p];
    StoredAt(pages, A, root, pend, p, ts, p);
    PageOKParts(pages, A, root, pend, p, ts);
    assert Kid(A, root, p, n.pivots, n.children, i);
    CarriesOthers(n.pivots, rem, PendingAt(pend, p), i);
    assert Linked(A, root, p);
    assert Base(A[p]);
    hide Consistent, Stored, Carries, ContentOK, Base, KidsPending, PageOK, LowerBound;
    forall k | k in MapOf(rem[i]) ensures InRange(A[n.children[i]], k) {
      PendingInRange(n, A[p], PendingAt(pend, p), p == root, k);
      RoutedInRange(A, root, p, n.pivots, n.children, i, k);
    }
  }

  lemma ReadyToServe(pages: Pages, A: Labelling, root: PageId, pend: Pending, p: PageId, rem: MessageMap,
                     ts: seq<PivotTuple>, queue: seq<Entry>, tasks: seq<Task>, i: nat)
    requires Serving(pages, A, root, pend, p, rem, ts, queue, tasks) && i in rem
    ensures p in pages && pages[p].InnerNode? && i < |pages[p].children|
    ensures ChildReady(pages, A, root, pend, p, ts, i, pages[p].children[i], rem[i])
  {
    ServingParts(pages, A, root, pend, p, rem, ts, queue, tasks);
    SourceParts(pages, root, pend, p, rem, ts);
    UnservedAt(pages[p].children, pend, rem, ts, queue, tasks, i);
    NotPendingIndex(pages[p].children, ts, i);
    var c := pages[p].children[i];
    ChildMessagesInRange(pages, A, root, pend, p, ts, rem, i);
    ChildrenInPages(pages, A, root, pend, p, ts);
    StoredKeys(pages, A, root, pend, p, ts);
    hide *;
    assert c in pages[p].children;
    ParentTaller(A, root, c);
    StoredAt(pages, A, root, pend, p, ts, c);
    PageOKParts(pages, A, root, pend, c, if c == p then ts else []);
    KidsOKPart(pages, A, root, pend, c, if c == p then ts else []);
    NothingPendingAt(pend, c);
    NotARoot(pages[c], A[c]);
    ChildReadyFrom(pages, A, root, pend, p, ts, i, c, rem[i]);
  }

  lemma NotPendingIndex(children: seq<PageId>, ts: seq<PivotTuple>, i: nat)
    requires i < |children| && OnlyAt(children, ts, i, children[i])
    ensures i !in Indices(ts)
  {
  }

  lemma KidsOKPart(pages: Pages, A: Labelling, root: PageId, pend: Pending, x: PageId, ts: seq<PivotTuple>)
    requires x in pages && x in A && PageOK(pages, A, root, pend, x, ts)
    ensures KidsOK(A, root, x, pages[x], ts)
  {
  }

  lemma NothingPendingAt(pend: Pending, c: PageId)
    requires c !in pend
    ensures PendingAt(pend, c) == map[]
  {
  }

  lemma NotARoot(n: Node, l: Label)
    requires ContentOK(n, l, map[], false)
    ensures !n.RootNode?
  {
  }

  lemma ChildReadyFrom(pages: Pages, A: Labelling, root: PageId, pend: Pending, p: PageId, ts: seq<PivotTuple>,
                       i: nat, c: PageId, msgs: seq<Upsert>)
    requires Consistent(A, root) && Stored(pages, A, root, pend, p, ts)
    requires p in pages && p in A && p != root && pages[p].InnerNode? && OnlyAt(pages[p].children, ts, i, c)
    requires c in pages && c in A && c != root && p != c && A[c].parent == p && A[c].height == A[p].height - 1
    requires c !in pend && !pages[c].RootNode?
    requires ContentOK(pages[c], A[c], map[], false) && KidsOK(A, root, c, pages[c], [])
    requires LevelsFrom(A, pend, A[p].height - 1) && pend.Keys <= pages.Keys && root !in pend
    requires Sorted(msgs) && msgs != [] && |msgs| <= MAX_FLUSH_SIZE
    requires PartOf(MapOf(msgs), PendingAt(pend, p))
    requires forall k :: k in MapOf(msgs) ==> InRange(A[c], k)
    ensures ChildReady(pages, A, root, pend, p, ts, i, c, msgs)
  {
  }

  // ---- what the two abstract steps touch ------------------------------------------------------

  lemma PassedAt(pend: Pending, p: PageId, moved: map<Key, Upsert>, c: PageId, gone: map<Key, Upsert>)
    requires p != c && c !in pend
    ensures var q := Passed(pend, p, moved, c, gone);
            PendingAt(q, p) == Without(PendingAt(pend, p), moved) && PendingAt(q, c) == gone &&
            (forall x :: x != p && x != c ==> PendingAt(q, x) == PendingAt(pend, x)) &&
            q.Keys <= pend.Keys + {p, c} && (gone == map[] ==> c !in q) &&
            (forall x :: x in q && x !in pend ==> x == p || x == c)
  {
  }

  lemma FlushTouches(pages: Pages, A: Labelling, pend: Pending, p: PageId, c: PageId, moved: map<Key, Upsert>, n: Node,
                     gone: map<Key, Upsert>, B: Labelling)
    requires pages.Keys == A.Keys && p in A && c in A && p != c && A[c].parent == p && A[c].height == A[p].height - 1
    requires c !in pend && p in pend
    requires KeyedRight(A[c].msgs) && KeyedRight(moved)
    requires B == A[p := Drained(A[p], moved)][c := Filled(A[c], moved)]
    ensures OnlyChild(pages, A, pend, p, c, pages[c := n], B, Passed(pend, p, moved, c, gone), {})
  {
    PassedAt(pend, p, moved, c, gone);
    hide Drained, Filled, Passed, PendingAt, KeyedRight;
  }

  lemma NotBelow(A: Labelling, root: PageId, pend: Pending, p: PageId, c: PageId, x: PageId)
    requires Consistent(A, root) && x in A && c in A && p in A && x != root
    requires A[c].height == A[p].height - 1 && x in pend && LevelsFrom(A, pend, A[p].height - 1)
    ensures A[x].parent != c
  {
    ParentTaller(A, root, x);
  }

  lemma NonePendingBelow(A: Labelling, root: PageId, pend: Pending, p: PageId, c: PageId)
    requires Consistent(A, root) && c in A && p in A && LevelsFrom(A, pend, A[p].height - 1) && root !in pend
    requires A[c].height == A[p].height - 1
    ensures forall x :: x in pend && x in A ==> A[x].parent != c
  {
    forall x | x in pend && x in A ensures A[x].parent != c {
      NotBelow(A, root, pend, p, c, x);
    }
  }

  lemma SplitTouchesLabels(A: Labelling, root: PageId, pend: Pending, p: PageId, c: PageId, A1: Labelling, r: PageId, mid: Key)
    requires LabelsTouched(A, pend, A1, p, c, {}) && r !in A
    requires Consistent(A, root) && LevelsFrom(A, pend, A[p].height - 1) && root !in pend
    requires A[c].height == A[p].height - 1
    ensures LabelsTouched(A, pend, Split(A1, c, r, mid), p, c, {r})
  {
    hide Consistent, LevelsFrom, Split;
    NonePendingBelow(A, root, pend, p, c);
    SplitKeeps(A1, c, r, mid);
    var B := Split(A1, c, r, mid);
    forall x | x in {c} + {r} ensures B[x].parent == p && B[x].height == A[p].height - 1 {
      assert c in {c} + {};
      assert A1[c].parent == p;
    }
  }

  lemma SplitKeeps(A: Labelling, c: PageId, r: PageId, mid: Key)
    requires c in A && r !in A
    ensures forall x :: x in A ==> Split(A, c, r, mid)[x].height == A[x].height
    ensures forall x :: x in A && A[x].parent != c ==> Split(A, c, r, mid)[x].parent == A[x].parent
    ensures Split(A, c, r, mid)[c].parent == A[c].parent
    ensures Split(A, c, r, mid)[r].parent == A[c].parent && Split(A, c, r, mid)[r].height == A[c].height
  {
    hide LeftHalf, RightHalf;
  }

  lemma SplitTouchesPending(pages: Pages, pend: Pending, pend1: Pending, p: PageId, c: PageId, r: PageId, pl: map<Key, Upsert>, pr: map<Key, Upsert>)
    requires PendingTouched(pages, pend, pend1, p, c, {}) && r !in pages
    ensures PendingTouched(pages, pend, SetPending(SetPending(pend1, c, pl), r, pr), p, c, {r})
  {
    hide PendingAt, SetPending;
  }

  lemma SplitTouches(pages: Pages, A: Labelling, root: PageId, pend: Pending, p: PageId, c: PageId,
                     pages1: Pages, A1: Labelling, pend1: Pending,
                     r: PageId, mid: Key, nl: Node, nr: Node, pl: map<Key, Upsert>, pr: map<Key, Upsert>)
    requires OnlyChild(pages, A, pend, p, c, pages1, A1, pend1, {})
    requires Consistent(A, root) && LevelsFrom(A, pend, A[p].height - 1) && root !in pend
    requires r !in pages && c in A1 && A[c].height == A[p].height - 1 && r !in A1
    ensures OnlyChild(pages, A, pend, p, c, pages1[c := nl][r := nr], Split(A1, c, r, mid),
                      SetPending(SetPending(pend1, c, pl), r, pr), {r})
  {
    hide Consistent, LevelsFrom, LabelsTouched, PendingTouched, Split, SetPending;
    SplitTouchesLabels(A, root, pend, p, c, A1, r, mid);
    SplitTouchesPending(pages, pend, pend1, p, c, r, pl, pr);
  }

  // ---- the five ways --------------------------------------------------------------------------

  lemma ReadyParts(pages: Pages, A: Labelling, root: PageId, pend: Pending, p: PageId, ts: seq<PivotTuple>, i: nat, c: PageId, msgs: seq<Upsert>)
    requires ChildReady(pages, A, root, pend, p, ts, i, c, msgs)
    ensures Consistent(A, root) && Stored(pages, A, root, pend, p, ts) && pages.Keys == A.Keys
    ensures p in pages && p != root && pages[p].InnerNode? && OnlyAt(pages[p].children, ts, i, c)
    ensures c in pages && c != root && p != c && A[c].parent == p && A[c].height == A[p].height - 1 && c !in pend
    ensures ContentOK(pages[c], A[c], map[], false) && KidsOK(A, root, c, pages[c], [])
    ensures !pages[c].RootNode? && i < |pages[p].children| && pages[p].children[i] == c
    ensures LevelsFrom(A, pend, A[p].height - 1) && pend.Keys <= pages.Keys && root !in pend
    ensures Sorted(msgs) && msgs != [] && |msgs| <= MAX_FLUSH_SIZE
    ensures PartOf(MapOf(msgs), PendingAt(pend, p)) && p in pend
    ensures KeyedRight(A[c].msgs) && KeyedRight(MapOf(msgs)) && MapOf(msgs) != map[]
    ensures forall k :: k in MapOf(msgs) ==> InRange(A[c], k)
  {
    assert Linked(A, root, c);
    assert Base(A[c]);
    MapKeyed(msgs);
    assert msgs[0] in msgs && msgs[0].key in MapOf(msgs);
  }

  lemma MapKeyed(msgs: seq<Upsert>)
    requires Sorted(msgs)
    ensures KeyedRight(MapOf(msgs))
  {
    HeldKeyedRight(msgs, MapOf(msgs));
  }

  /** The child's page becomes `n`, with `gone` still on its way. */
  lemma Arrive(pages: Pages, A: Labelling, root: PageId, pend: Pending, p: PageId, ts: seq<PivotTuple>, i: nat, c: PageId,
               msgs: seq<Upsert>, n: Node, gone: map<Key, Upsert>) returns (B: Labelling, pend1: Pending)
    requires ChildReady(pages, A, root, pend, p, ts, i, c, msgs)
    requires c in pages && c in A && Sorted(msgs) && KeyedRight(A[c].msgs) && KeyedRight(MapOf(msgs))
    requires SameKids(pages[c], n) && ContentOK(n, Filled(A[c], MapOf(msgs)), gone, false)
    ensures p in A && B == A[p := Drained(A[p], MapOf(msgs))][c := Filled(A[c], MapOf(msgs))]
    ensures Consistent(B, root) && root in A && root in B && B[root].view == A[root].view
    ensures Stored(pages[c := n], B, root, pend1, p, ts)
    ensures OnlyChild(pages, A, pend, p, c, pages[c := n], B, pend1, {})
    ensures PendingAt(pend1, p) == Without(PendingAt(pend, p), MapOf(msgs))
    ensures PendingAt(pend1, c) == gone && (gone == map[] ==> c !in pend1)
    ensures pend1.Keys <= pend.Keys + (if gone == map[] then {} else {c})
  {
    hide *;
    ReadyParts(pages, A, root, pend, p, ts, i, c, msgs);
    ConsistentRoot(A, root);
    B := FlushStep(pages, A, root, pend, p, ts, c, MapOf(msgs), n, gone);
    ConsistentRoot(B, root);
    pend1 := Passed(pend, p, MapOf(msgs), c, gone);
    FlushTouches(pages, A, pend, p, c, MapOf(msgs), n, gone, B);
    PassedAt(pend, p, MapOf(msgs), c, gone);
  }

  lemma ConsistentRoot(A: Labelling, root: PageId)
    requires Consistent(A, root)
    ensures root in A
  {
  }

  /** A leaf with enough room keeps the messages pending. */
  lemma ServeLeaf(pages: Pages, A: Labelling, root: PageId, pend: Pending, p: PageId, rem: MessageMap,
                  ts: seq<PivotTuple>, queue: seq<Entry>, tasks: seq<Task>, i: nat, c: PageId)
    returns (B: Labelling, pend': Pending)
    requires Serving(pages, A, root, pend, p, rem, ts, queue, tasks) && i in rem
    requires p in pages && pages[p].InnerNode? && i < |pages[p].children| && c == pages[p].children[i]
    requires c in pages && pages[c].LeafNode? && |pages[c].leaf.keys| == |pages[c].leaf.values| && Fits(pages[c].leaf, rem[i])
    ensures Serving(pages, B, root, pend', p, rem - {i}, ts, queue, tasks + [Task(c, None, rem[i])])
    ensures root in A && root in B && B[root].view == A[root].view
    ensures LabelsTouched(A, pend, B, p, c, {})
  {
    hide *;
    ReadyToServe(pages, A, root, pend, p, rem, ts, queue, tasks, i);
    ReadyParts(pages, A, root, pend, p, ts, i, c, rem[i]);
    LeafReceives(pages[c], A[c], MapOf(rem[i]));
    SameLeaf(pages[c]);
    B, pend' := Arrive(pages, A, root, pend, p, ts, i, c, rem[i], pages[c], MapOf(rem[i]));
    assert pages[c := pages[c]] == pages;
    LeafContent(pages[c], A[c], map[]);
    LeafReadyFrom(pages, pend', c, rem[i]);
    TaskFrom(pages, pend', Task(c, None, rem[i]));
    NoEntries(pages, pend');
    OneTask(pages, pend', Task(c, None, rem[i]));
    TaskPagesOf(Task(c, None, rem[i]));
    AfterChild(pages, A, root, pend, p, rem, ts, queue, tasks, i, pages, B, pend', {}, ts, [], [Task(c, None, rem[i])]);
    assert queue + [] == queue;
    OnlyChildLabels(pages, A, pend, p, c, pages, B, pend', {});
  }

  lemma OnlyChildLabels(pages: Pages, A: Labelling, pend: Pending, p: PageId, c: PageId,
                        pages': Pages, A': Labelling, pend': Pending, created: set<PageId>)
    requires OnlyChild(pages, A, pend, p, c, pages', A', pend', created)
    ensures LabelsTouched(A, pend, A', p, c, created)
  {
  }

  lemma SameLeaf(n: Node)
    ensures n.LeafNode? ==> forall l :: SameKids(n, LeafNode(l))
  {
  }

  lemma LeafContent(n: Node, l: Label, pending: map<Key, Upsert>)
    requires n.LeafNode? && ContentOK(n, l, pending, false)
    ensures LeafOK(n.leaf) && |n.leaf.keys| <= SIZES.leafN && l.height == 0
  {
  }

  lemma LeafReadyFrom(pages: Pages, pend: Pending, x: PageId, msgs: seq<Upsert>)
    requires x in pages && pages[x].LeafNode? && LeafOK(pages[x].leaf)
    requires Sorted(msgs) && PendingAt(pend, x) == MapOf(msgs)
    requires |pages[x].leaf.keys| == |pages[x].leaf.values| && Fits(pages[x].leaf, msgs)
    ensures LeafReady(pages, pend, x, msgs)
  {
  }

  lemma TaskFrom(pages: Pages, pend: Pending, t: Task)
    requires Sorted(t.msgs) && t.split.None? && LeafReady(pages, pend, t.page, t.msgs)
    ensures TaskOK(pages, pend, t)
  {
  }

  lemma NoEntries(pages: Pages, pend: Pending)
    ensures QueueOK(pages, pend, []) && QueuePages([]) == {}
    ensures TasksOK(pages, pend, []) && AllTaskPages([]) == {}
  {
  }

  lemma OneTask(pages: Pages, pend: Pending, t: Task)
    requires TaskOK(pages, pend, t)
    ensures TasksOK(pages, pend, [t]) && AllTaskPages([t]) == TaskPages(t)
  {
    hide TaskOK;
    NoEntries(pages, pend);
    assert [] + [t] == [t];
    AllTaskPagesJoin([], t);
  }

  lemma TaskPagesOf(t: Task)
    ensures t.split == None ==> TaskPages(t) == {t.page}
    ensures t.split.Some? ==> TaskPages(t) == {t.page, t.split.value.right}
  {
  }

  lemma OneEntry(pages: Pages, pend: Pending, e: Entry)
    requires EntryOK(pages, pend, e)
    ensures QueueOK(pages, pend, [e]) && QueuePages([e]) == {e.page}
  {
  }

  // ---- a leaf that splits ---------------------------------------------------------------------

  lemma LeafHasNoChildren(A: Labelling, root: PageId, c: PageId)
    requires Consistent(A, root) && c in A && A[c].height == 0
    ensures forall x :: x in A && x != root ==> A[x].parent != c
  {
    forall x | x in A && x != root ensures A[x].parent != c {
      ParentTaller(A, root, x);
    }
  }

  lemma LeafKeysInRange(A: Labelling, root: PageId, c: PageId, n: Node)
    requires Consistent(A, root) && c in A && n.LeafNode? && ContentOK(n, A[c], map[], false)
    ensures forall k :: k in n.leaf.keys ==> InRange(A[c], k)
  {
    assert Linked(A, root, c);
    assert Base(A[c]);
    PairsKeys(n.leaf);
  }

  lemma MessageKeysInRange(l: Label, msgs: seq<Upsert>)
    requires Sorted(msgs) && forall k :: k in MapOf(msgs) ==> InRange(l, k)
    ensures StrictlySorted(KeysOf(msgs)) && forall k :: k in KeysOf(msgs) ==> InRange(l, k)
  {
    assert forall i :: 0 <= i < |msgs| ==> msgs[i] in msgs && msgs[i].key in MapOf(msgs);
  }

  /** A leaf may be split at the median of its keys and the messages' keys. */
  lemma MedianSplittable(A: Labelling, root: PageId, c: PageId, n: Node, msgs: seq<Upsert>, mid: Key)
    requires Consistent(A, root) && c in A && c != root && n.LeafNode? && ContentOK(n, A[c], map[], false)
    requires Sorted(msgs) && forall k :: k in MapOf(msgs) ==> InRange(A[c], k)
    requires |n.leaf.keys| + |msgs| >= 4
    requires Median.HasRank(n.leaf.keys, KeysOf(msgs), mid, (|n.leaf.keys| + |msgs| + 1) / 2)
    ensures Splittable(A, root, c, mid)
  {
    LeafContent(n, A[c], map[]);
    LeafHasNoChildren(A, root, c);
    LeafKeysInRange(A, root, c, n);
    MessageKeysInRange(A[c], msgs);
    hide Consistent, ContentOK, Sorted, Median.HasRank;
    MedianInside(n.leaf.keys, KeysOf(msgs), mid, A[c].lo, A[c].hi);
  }

  lemma FilledKeepsRange(A: Labelling, root: PageId, p: PageId, c: PageId, moved: map<Key, Upsert>, B: Labelling, mid: Key)
    requires p in A && c in A && p != c && KeyedRight(A[c].msgs) && KeyedRight(moved)
    requires B == A[p := Drained(A[p], moved)][c := Filled(A[c], moved)]
    ensures Splittable(A, root, c, mid) ==> Splittable(B, root, c, mid)
    ensures B[c] == Filled(A[c], moved) && B[c].parent == A[c].parent
  {
    hide Drained, Filled, KeyedRight;
  }

  /** A split leaf's task is ready: each half has its own messages pending, and they fit. */
  lemma SplitTaskReady(pages: Pages, pend: Pending, l: Leaf, msgs: seq<Upsert>, c: PageId, r: PageId, mid: Key)
    requires LeafOK(l) && Sorted(msgs) && c != r
    requires 0 < |l.keys| + |msgs| <= 2 * SIZES.leafN
    requires Median.HasRank(l.keys, KeysOf(msgs), mid, (|l.keys| + |msgs| + 1) / 2)
    requires c in pages && pages[c] == LeafNode(SplitLeft(l, mid)) && PendingAt(pend, c) == UpTo(MapOf(msgs), mid)
    requires r in pages && pages[r] == LeafNode(SplitRight(l, mid)) && PendingAt(pend, r) == Above(MapOf(msgs), mid)
    ensures TaskOK(pages, pend, Task(c, Some(SplitResult(mid, r)), msgs))
  {
    assert |l.keys| == |l.values|;
    hide *;
    HalvesFit(l, msgs, mid);
    RunSplits(msgs, mid);
    SplitTaskFrom(pages, pend, msgs, c, r, mid, SplitLeft(l, mid), SplitRight(l, mid));
  }

  lemma SplitTaskFrom(pages: Pages, pend: Pending, msgs: seq<Upsert>, c: PageId, r: PageId, mid: Key, left: Leaf, right: Leaf)
    requires Sorted(msgs) && c != r && LeafOK(left) && LeafOK(right)
    requires c in pages && pages[c] == LeafNode(left) && r in pages && pages[r] == LeafNode(right)
    requires var at := UpperBound(KeysOf(msgs), mid);
             Sorted(msgs[..at]) && Sorted(msgs[at..]) && PendingAt(pend, c) == MapOf(msgs[..at]) &&
             PendingAt(pend, r) == MapOf(msgs[at..]) && Fits(left, msgs[..at]) && Fits(right, msgs[at..])
    ensures TaskOK(pages, pend, Task(c, Some(SplitResult(mid, r)), msgs))
  {
    hide Fits, LeafOK, Sorted, Holds, UpperBound, KeysOf, PendingAt;
  }

  /** A leaf that may overflow splits at the combined median first. */
  lemma ServeLeafSplit(pages: Pages, A: Labelling, root: PageId, pend: Pending, p: PageId, rem: MessageMap,
                       ts: seq<PivotTuple>, queue: seq<Entry>, tasks: seq<Task>, i: nat, c: PageId, r: PageId, mid: Key)
    returns (B: Labelling, pend': Pending)
    requires Serving(pages, A, root, pend, p, rem, ts, queue, tasks) && i in rem
    requires p in pages && pages[p].InnerNode? && i < |pages[p].children| && c == pages[p].children[i]
    requires c in pages && pages[c].LeafNode? && r !in pages && |pages[c].leaf.keys| == |pages[c].leaf.values|
    requires 4 <= |pages[c].leaf.keys| + |rem[i]|
    requires Median.HasRank(pages[c].leaf.keys, KeysOf(rem[i]), mid, (|pages[c].leaf.keys| + |rem[i]| + 1) / 2)
    ensures Serving(pages[c := LeafNode(SplitLeft(pages[c].leaf, mid))][r := LeafNode(SplitRight(pages[c].leaf, mid))],
                    B, root, pend', p, rem - {i}, ts + [PivotTuple(i, mid, r)], queue,
                    tasks + [Task(c, Some(SplitResult(mid, r)), rem[i])])
    ensures root in A && root in B && B[root].view == A[root].view
    ensures LabelsTouched(A, pend, B, p, c, {r})
  {
    hide *;
    ReadyToServe(pages, A, root, pend, p, rem, ts, queue, tasks, i);
    ReadyParts(pages, A, root, pend, p, ts, i, c, rem[i]);
    var moved, l := MapOf(rem[i]), pages[c].leaf;
    LeafContent(pages[c], A[c], map[]);
    MedianSplittable(A, root, c, pages[c], rem[i], mid);
    LeafReceives(pages[c], A[c], moved);
    SameLeaf(pages[c]);
    var B1, pend1 := Arrive(pages, A, root, pend, p, ts, i, c, rem[i], pages[c], moved);
    assert pages[c := pages[c]] == pages;
    FilledKeepsRange(A, root, p, c, moved, B1, mid);
    LeafHalves(pages[c], B1[c], moved, mid);
    var nl, nr := LeafNode(SplitLeft(l, mid)), LeafNode(SplitRight(l, mid));
    var pl, pr := UpTo(moved, mid), Above(moved, mid);
    StoredKeys(pages, B1, root, pend1, p, ts);
    LeafKidsOK(Split(B1, c, r, mid), root, c, nl);
    LeafKidsOK(Split(B1, c, r, mid), root, r, nr);
    B := SplitStep(pages, B1, root, pend1, p, ts, i, c, r, mid, nl, nr, pl, pr);
    pend' := SetPending(SetPending(pend1, c, pl), r, pr);
    SplitTouches(pages, A, root, pend, p, c, pages, B1, pend1, r, mid, nl, nr, pl, pr);
    ConsistentRoot(B, root);
    var pages', t := pages[c := nl][r := nr], Task(c, Some(SplitResult(mid, r)), rem[i]);
    MaxFlush();
    SplitTaskReady(pages', pend', l, rem[i], c, r, mid);
    NoEntries(pages', pend');
    OneTask(pages', pend', t);
    TaskPagesOf(t);
    AfterChild(pages, A, root, pend, p, rem, ts, queue, tasks, i, pages', B, pend', {r}, ts + [PivotTuple(i, mid, r)], [], [t]);
    assert queue + [] == queue;
    OnlyChildLabels(pages, A, pend, p, c, pages', B, pend', {r});
  }

  lemma MaxFlush()
    ensures MAX_FLUSH_SIZE == SIZES.leafN - 1
  {
  }

  lemma LeafKidsOK(A: Labelling, root: PageId, x: PageId, n: Node)
    requires x in A && n.LeafNode?
    ensures KidsOK(A, root, x, n, [])
  {
  }

  // ---- an inner node --------------------------------------------------------------------------

  /** What removeMessages (or a plain merge, when nothing has to leave) makes of a child's buffer. */
  ghost predicate Rearranged(upserts: seq<Upsert>, pivots: seq<Key>, msgs: seq<Upsert>,
                             rest: seq<Upsert>, flushed: MessageMap, gone: map<Key, Upsert>) {
    && Sorted(upserts) && Sorted(msgs)
    && Sorted(rest) && |rest| <= SIZES.innerBN && gone.Keys !! MapOf(rest).Keys
    && gone + MapOf(rest) == MergeMap(MapOf(upserts), MapOf(msgs))
    && Carries(pivots, flushed, gone)
    && (forall c :: c in flushed ==> |flushed[c]| <= MAX_FLUSH_SIZE)
  }

  lemma RearrangedContent(n: Node, l: Label, msgs: seq<Upsert>, rest: seq<Upsert>, flushed: MessageMap, gone: map<Key, Upsert>)
    requires n.InnerNode? && ContentOK(n, l, map[], false)
    requires Rearranged(n.upserts, n.pivots, msgs, rest, flushed, gone)
    ensures Sorted(msgs) && KeyedRight(l.msgs) && KeyedRight(MapOf(msgs))
    ensures ContentOK(n.(upserts := rest), Filled(l, MapOf(msgs)), gone, false)
    ensures SameKids(n, n.(upserts := rest))
    ensures flushed == map[] ==> gone == map[]
  {
    MapKeyed(msgs);
    InnerReceives(n, l, MapOf(msgs), rest, gone);
    if flushed == map[] { NothingCarried(n.pivots, gone); }
  }

  lemma InnerContent(n: Node, l: Label, pending: map<Key, Upsert>)
    requires n.InnerNode? && ContentOK(n, l, pending, false)
    ensures Sorted(n.upserts) && |n.upserts| <= SIZES.innerBN && |n.pivots| <= SIZES.innerN && l.height > 0
  {
  }

  /** An inner child with room for all its messages, or with a free pivot for every child it
      passes messages on to. */
  lemma ServeInner(pages: Pages, A: Labelling, root: PageId, pend: Pending, p: PageId, rem: MessageMap,
                   ts: seq<PivotTuple>, queue: seq<Entry>, tasks: seq<Task>, i: nat, c: PageId,
                   rest: seq<Upsert>, flushed: MessageMap, gone: map<Key, Upsert>)
    returns (B: Labelling, pend': Pending)
    requires Serving(pages, A, root, pend, p, rem, ts, queue, tasks) && i in rem
    requires p in pages && pages[p].InnerNode? && i < |pages[p].children| && c == pages[p].children[i]
    requires c in pages && pages[c].InnerNode?
    requires Rearranged(pages[c].upserts, pages[c].pivots, rem[i], rest, flushed, gone)
    requires |pages[c].pivots| + |flushed| <= SIZES.innerN
    ensures var qs := if flushed == map[] then [] else [Entry(c, flushed)];
            Serving(pages[c := pages[c].(upserts := rest)], B, root, pend', p, rem - {i}, ts, queue + qs, tasks)
    ensures root in A && root in B && B[root].view == A[root].view
    ensures LabelsTouched(A, pend, B, p, c, {})
  {
    hide *;
    ReadyToServe(pages, A, root, pend, p, rem, ts, queue, tasks, i);
    ReadyParts(pages, A, root, pend, p, ts, i, c, rem[i]);
    RearrangedContent(pages[c], A[c], rem[i], rest, flushed, gone);
    var n := pages[c].(upserts := rest);
    B, pend' := Arrive(pages, A, root, pend, p, ts, i, c, rem[i], n, gone);
    var pages', qs := pages[c := n], if flushed == map[] then [] else [Entry(c, flushed)];
    NoEntries(pages', pend');
    if flushed != map[] {
      RearrangedCarries(pages[c].upserts, pages[c].pivots, rem[i], rest, flushed, gone);
      EntryFrom(pages', pend', Entry(c, flushed));
      OneEntry(pages', pend', Entry(c, flushed));
    }
    AfterChild(pages, A, root, pend, p, rem, ts, queue, tasks, i, pages', B, pend', {}, ts, qs, []);
    assert tasks + [] == tasks;
    OnlyChildLabels(pages, A, pend, p, c, pages', B, pend', {});
  }

  lemma RearrangedCarries(upserts: seq<Upsert>, pivots: seq<Key>, msgs: seq<Upsert>,
                          rest: seq<Upsert>, flushed: MessageMap, gone: map<Key, Upsert>)
    requires Rearranged(upserts, pivots, msgs, rest, flushed, gone)
    ensures Carries(pivots, flushed, gone)
    ensures forall c :: c in flushed ==> |flushed[c]| <= MAX_FLUSH_SIZE
  {
  }

  lemma EntryFrom(pages: Pages, pend: Pending, e: Entry)
    requires e.page in pages && pages[e.page].InnerNode? && e.messages != map[]
    requires Carries(pages[e.page].pivots, e.messages, PendingAt(pend, e.page))
    requires forall c :: c in e.messages ==> |e.messages[c]| <= MAX_FLUSH_SIZE
    requires |pages[e.page].pivots| + |e.messages| <= SIZES.innerN
    ensures EntryOK(pages, pend, e)
  {
  }

  /** After a node with `size` pivots has split, both halves have a free pivot slot for every
      child they keep. */
  predicate SplitMakesRoom(size: nat, fanOut: nat)
    requires 2 <= size
  {
    var at := SplitIndex(size);
    at + (at + 1) <= fanOut && (size - at - 1) + (size - at) <= fanOut
  }

  /** Pre-emptive splitting works for nodes of every size exactly if the fan-out is odd. */
  lemma RoomForAllIffOdd(fanOut: nat)
    requires 2 <= fanOut
    ensures (forall size: nat :: 2 <= size <= fanOut ==> SplitMakesRoom(size, fanOut)) <==> fanOut % 2 == 1
  {
    if fanOut % 2 == 0 {
      assert !SplitMakesRoom(fanOut, fanOut);
    }
  }

  lemma CarriedChildren(pivots: seq<Key>, flushed: MessageMap, gone: map<Key, Upsert>)
    requires Carries(pivots, flushed, gone)
    ensures |flushed| <= |pivots| + 1
  {
    forall c | c in flushed.Keys ensures c < |pivots| + 1 {
      assert CarriesChild(pivots, flushed, gone, c);
    }
    BoundedKeys(flushed.Keys, |pivots| + 1);
  }

  /** The entries for the two halves of a split node; a half without messages gets none. */
  function HalfEntries(c: PageId, left: MessageMap, r: PageId, right: MessageMap): seq<Entry> {
    (if left == map[] then [] else [Entry(c, left)]) + (if right == map[] then [] else [Entry(r, right)])
  }

  lemma SomeHalf(c: PageId, left: MessageMap, r: PageId, right: MessageMap)
    requires |left| + |right| > 0
    ensures HalfEntries(c, left, r, right) != []
  {
  }

  lemma HalfEntriesOK(pages: Pages, pend: Pending, c: PageId, left: MessageMap, r: PageId, right: MessageMap)
    requires left != map[] ==> EntryOK(pages, pend, Entry(c, left))
    requires right != map[] ==> EntryOK(pages, pend, Entry(r, right))
    requires c != r
    ensures QueueOK(pages, pend, HalfEntries(c, left, r, right))
    ensures QueuePages(HalfEntries(c, left, r, right)) ==
            (if left == map[] then {} else {c}) + (if right == map[] then {} else {r})
  {
    hide EntryOK;
    NoEntries(pages, pend);
    if left != map[] { OneEntry(pages, pend, Entry(c, left)); }
    if right != map[] { OneEntry(pages, pend, Entry(r, right)); }
    hide QueueOK, QueuePages;
    QueueJoin(pages, pend, if left == map[] then [] else [Entry(c, left)], if right == map[] then [] else [Entry(r, right)]);
  }

  lemma HalfSizes(flushed: MessageMap, at: nat, left: MessageMap, right: MessageMap)
    requires IsLeftMap(flushed, at, left) && IsRightMap(flushed, at, right)
    requires forall c :: c in flushed ==> |flushed[c]| <= MAX_FLUSH_SIZE
    ensures forall c :: c in left ==> |left[c]| <= MAX_FLUSH_SIZE
    ensures forall d :: d in right ==> |right[d]| <= MAX_FLUSH_SIZE
  {
  }

  /** The halves of a split node carry their share of the messages, with room for all children. */
  lemma HalvesEntries(pages: Pages, pend: Pending, n: Node, flushed: MessageMap, gone: map<Key, Upsert>,
                      c: PageId, left: MessageMap, r: PageId, right: MessageMap, at: nat)
    requires n.InnerNode? && 2 <= |n.pivots| <= SIZES.innerN && |n.children| == |n.pivots| + 1 && at == SplitIndex(|n.pivots|)
    requires StrictlySorted(n.pivots) && Carries(n.pivots, flushed, gone) && c != r
    requires forall d :: d in flushed ==> |flushed[d]| <= MAX_FLUSH_SIZE
    requires IsLeftMap(flushed, at, left) && IsRightMap(flushed, at, right)
    requires c in pages && pages[c] == InnerLeft(n, at) && PendingAt(pend, c) == UpTo(gone, n.pivots[at])
    requires r in pages && pages[r] == InnerRight(n, at) && PendingAt(pend, r) == Above(gone, n.pivots[at])
    ensures QueueOK(pages, pend, HalfEntries(c, left, r, right))
    ensures QueuePages(HalfEntries(c, left, r, right)) <= {c, r}
    ensures UpTo(gone, n.pivots[at]) != map[] ==> c in QueuePages(HalfEntries(c, left, r, right))
    ensures Above(gone, n.pivots[at]) != map[] ==> r in QueuePages(HalfEntries(c, left, r, right))
  {
    hide StrictlySorted, Carries, IsLeftMap, IsRightMap, UpTo, Above, PendingAt;
    CarriesLeft(n.pivots, flushed, gone, at, left);
    CarriesRight(n.pivots, flushed, gone, at, right);
    CarriedChildren(n.pivots[..at], left, UpTo(gone, n.pivots[at]));
    CarriedChildren(n.pivots[at + 1..], right, Above(gone, n.pivots[at]));
    RoomForAllIffOdd(SIZES.innerN);
    assert SplitMakesRoom(|n.pivots|, SIZES.innerN);
    HalfSizes(flushed, at, left, right);
    if left != map[] { EntryFrom(pages, pend, Entry(c, left)); } else { NothingCarried(n.pivots[..at], UpTo(gone, n.pivots[at])); }
    if right != map[] { EntryFrom(pages, pend, Entry(r, right)); } else { NothingCarried(n.pivots[at + 1..], Above(gone, n.pivots[at])); }
    HalfEntriesOK(pages, pend, c, left, r, right);
  }

  lemma InnerKidsPart(A: Labelling, root: PageId, c: PageId, n: Node)
    requires c in A && n.InnerNode? && KidsOK(A, root, c, n, [])
    ensures AllKids(A, root, c, n.pivots, n.children) && |n.children| == |n.pivots| + 1
  {
    NothingPendingMeansKids(A, root, c, n.pivots, n.children);
  }

  lemma InnerKidsFrom(A: Labelling, root: PageId, c: PageId, n: Node)
    requires c in A && n.InnerNode? && AllKids(A, root, c, n.pivots, n.children)
    ensures KidsOK(A, root, c, n, [])
  {
    NothingPendingMeansKids(A, root, c, n.pivots, n.children);
  }

  /** The halves of an inner node agree with the labels after the split. */
  lemma InnerHalvesKids(A: Labelling, root: PageId, c: PageId, r: PageId, n: Node, at: nat)
    requires Consistent(A, root) && c in A && c != root && r !in A && r != root && n.InnerNode?
    requires KidsOK(A, root, c, n, []) && at < |n.pivots|
    ensures |n.children| == |n.pivots| + 1 && Splittable(A, root, c, n.pivots[at])
    ensures KidsOK(Split(A, c, r, n.pivots[at]), root, c, InnerLeft(n, at), [])
    ensures KidsOK(Split(A, c, r, n.pivots[at]), root, r, InnerRight(n, at), [])
    ensures StrictlySorted(n.pivots)
  {
    InnerKidsPart(A, root, c, n);
    KidsSorted(A, root, c, n.pivots, n.children);
    PivotSplittable(A, root, c, n.pivots, n.children, at);
    KidsSplit(A, root, c, r, n.pivots, n.children, at);
    hide Consistent, AllKids, KidsOK, Split, StrictlySorted, Splittable;
    InnerKidsFrom(Split(A, c, r, n.pivots[at]), root, c, InnerLeft(n, at));
    InnerKidsFrom(Split(A, c, r, n.pivots[at]), root, r, InnerRight(n, at));
  }

  lemma KidsOfFilled(A: Labelling, root: PageId, p: PageId, c: PageId, moved: map<Key, Upsert>, B: Labelling, n: Node, n': Node)
    requires p in A && c in A && p != c && KeyedRight(A[c].msgs) && KeyedRight(moved)
    requires B == A[p := Drained(A[p], moved)][c := Filled(A[c], moved)]
    requires KidsOK(A, root, c, n, []) && SameKids(n, n') && n.InnerNode?
    ensures KidsOK(B, root, c, n', [])
  {
    hide Drained, Filled, KeyedRight, KidsPending;
    KidsPendingFrame(A, B, root, c, n.pivots, n.children, []);
  }

  /** An inner child without a free pivot for every child it passes messages on to splits. */
  lemma ServeInnerSplit(pages: Pages, A: Labelling, root: PageId, pend: Pending, p: PageId, rem: MessageMap,
                        ts: seq<PivotTuple>, queue: seq<Entry>, tasks: seq<Task>, i: nat, c: PageId, r: PageId,
                        rest: seq<Upsert>, flushed: MessageMap, gone: map<Key, Upsert>, n: Node, at: nat, left: MessageMap, right: MessageMap)
    returns (B: Labelling, pend': Pending)
    requires Serving(pages, A, root, pend, p, rem, ts, queue, tasks) && i in rem
    requires p in pages && pages[p].InnerNode? && i < |pages[p].children| && c == pages[p].children[i]
    requires c in pages && pages[c].InnerNode? && r !in pages && n == pages[c].(upserts := rest)
    requires Rearranged(pages[c].upserts, pages[c].pivots, rem[i], rest, flushed, gone)
    requires 2 <= |n.pivots| && at == SplitIndex(|n.pivots|) < |n.pivots| && |n.children| == |n.pivots| + 1
    requires IsLeftMap(flushed, at, left) && IsRightMap(flushed, at, right)
    ensures Serving(pages[c := InnerLeft(n, at)][r := InnerRight(n, at)], B, root, pend', p, rem - {i},
                    ts + [PivotTuple(i, n.pivots[at], r)], queue + HalfEntries(c, left, r, right), tasks)
    ensures root in A && root in B && B[root].view == A[root].view
    ensures LabelsTouched(A, pend, B, p, c, {r})
  {
    hide *;
    ReadyToServe(pages, A, root, pend, p, rem, ts, queue, tasks, i);
    ReadyParts(pages, A, root, pend, p, ts, i, c, rem[i]);
    RearrangedContent(pages[c], A[c], rem[i], rest, flushed, gone);
    InnerContent(pages[c], A[c], map[]);
    RearrangedCarries(pages[c].upserts, pages[c].pivots, rem[i], rest, flushed, gone);
    var B1, pend1 := Arrive(pages, A, root, pend, p, ts, i, c, rem[i], n, gone);
    var pages1, mid := pages[c := n], n.pivots[at];
    FilledKeepsRange(A, root, p, c, MapOf(rem[i]), B1, mid);
    KidsOfFilled(A, root, p, c, MapOf(rem[i]), B1, pages[c], n);
    StoredKeys(pages1, B1, root, pend1, p, ts);
    ConsistentRoot(B1, root);
    InnerHalvesKids(B1, root, c, r, n, at);
    InnerHalves(n, B1[c], gone, at);
    var nl, nr, pl, pr := InnerLeft(n, at), InnerRight(n, at), UpTo(gone, mid), Above(gone, mid);
    B := SplitStep(pages1, B1, root, pend1, p, ts, i, c, r, mid, nl, nr, pl, pr);
    pend' := SetPending(SetPending(pend1, c, pl), r, pr);
    SplitTouches(pages, A, root, pend, p, c, pages1, B1, pend1, r, mid, nl, nr, pl, pr);
    ConsistentRoot(B, root);
    var pages', qs := pages1[c := nl][r := nr], HalfEntries(c, left, r, right);
    assert pages' == pages[c := nl][r := nr];
    HalvesEntries(pages', pend', n, flushed, gone, c, left, r, right, at);
    NoEntries(pages', pend');
    AfterChild(pages, A, root, pend, p, rem, ts, queue, tasks, i, pages', B, pend', {r}, ts + [PivotTuple(i, mid, r)], qs, []);
    assert tasks + [] == tasks;
    OnlyChildLabels(pages, A, pend, p, c, pages', B, pend', {r});
  }
}
