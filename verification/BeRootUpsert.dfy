/** The cases of handleRootRootUpsert below a root node: the child is a leaf that takes the message
    directly, after a split if it is full, or an inner node that keeps it, flushes, or splits and
    flushes. */
module BeRootUpsert {
  import opened Keys
  import opened Messages
  import opened MergeUpserts
  import opened Labels
  import opened Views
  import opened Leaves
  import opened LeafFlush
  import opened Kids
  import opened InsertPivots
  import opened BeSizes
  import opened BeNodes
  import opened BeFlush
  import opened BeCascade
  import opened BeServe
  import opened BeTraversal
  import opened BeRoot
  import opened RemoveMessages
  import Median

  // ---- a leaf ---------------------------------------------------------------------------------

  lemma SingleNonempty(u: Upsert)
    ensures Single(u) != map[] && u.key in Single(u) && Single(u)[u.key] == u && Single(u).Keys == {u.key}
  {
    assert u.key in Single(u);
  }

  lemma OneRun(u: Upsert)
    ensures Sorted([u]) && MapOf([u]) == Single(u) && KeysOf([u]) == [u.key]
  {
    HoldsUnique([u], Single(u));
  }

  /** One message changes a leaf as it acts on each key. */
  lemma UpsertedActs(l: Leaf, u: Upsert)
    requires LeafOK(l)
    ensures LeafOK(Upserted(l, u))
    ensures forall k: Key :: Get(Pairs(Upserted(l, u)), k) == ActOn(Single(u), k, Get(Pairs(l), k))
  {
    UpsertedPairs(l, u);
    SingleNonempty(u);
    hide LeafOK, HoldsPairs, Upserted, Single, Act;
    forall k: Key ensures Get(ActOnPairs(Pairs(l), u), k) == ActOn(Single(u), k, Get(Pairs(l), k)) {
    }
  }

  lemma LeafShape(l: Leaf)
    requires LeafOK(l)
    ensures |l.keys| == |l.values|
  {
  }

  lemma PendingIs(c: PageId, m: map<Key, Upsert>)
    ensures PendingAt(map[c := m], c) == m && map[c := m] - {c} == map[]
  {
  }

  /** A leaf below the root applies the message at once. */
  lemma RootLeafUpsert(pages: Pages, A: Labelling, root: PageId, u: Upsert, i: nat, c: PageId) returns (B: Labelling)
    requires Whole(pages, A, root) && Newer(A, root, u) && RootChild(pages, A, root, u.key, i, c)
    requires c in pages && pages[c].LeafNode? && LeafOK(pages[c].leaf)
    requires |Upserted(pages[c].leaf, u).keys| <= SIZES.leafN
    ensures Whole(pages[c := LeafNode(Upserted(pages[c].leaf, u))], B, root)
    ensures root in A && root in B && Told(A[root].view, u, B[root].view)
  {
    hide *;
    RootChildParts(pages, A, root, u.key, i, c);
    var m := Single(u);
    SingleNonempty(u);
    LeafReceives(pages[c], A[c], m);
    SameLeaf(pages[c]);
    assert pages[c := pages[c]] == pages;
    var B1 := RootPasses(pages, A, root, u, i, c, pages[c], m);
    PendingIs(c, m);
    UpsertedActs(pages[c].leaf, u);
    LeafShape(pages[c].leaf);
    B := LeafStep(pages, B1, root, map[c := m], root, c, Upserted(pages[c].leaf, u));
    WholeFrom(pages[c := LeafNode(Upserted(pages[c].leaf, u))], B, root);
    ConsistentRoot(B, root);
    ToldThrough(A[root].view, u, B1[root].view, B[root].view);
  }

  lemma OnePivot(pivots: seq<Key>, children: seq<PageId>, t: PivotTuple)
    requires |children| == |pivots| + 1 && t.index < |children|
    ensures IndexSorted([t]) && t.index <= |pivots|
    ensures PivotsWith(pivots, [t]) == InsertAt(pivots, t.index, t.key)
    ensures ChildrenWith(children, [t]) == InsertAt(children, t.index + 1, t.child)
  {
  }

  lemma SplitPending(c: PageId, r: PageId, m: map<Key, Upsert>, u: Upsert, mid: Key)
    requires m == Single(u) && c != r
    ensures SetPending(SetPending(map[c := m], c, UpTo(m, mid)), r, Above(m, mid)) ==
            if u.key <= mid then map[c := m] else map[r := m]
  {
    if u.key <= mid {
      assert UpTo(m, mid) == m && Above(m, mid) == map[];
      assert m != map[] by { SingleNonempty(u); }
    } else {
      assert UpTo(m, mid) == map[] && Above(m, mid) == m;
      assert m != map[] by { SingleNonempty(u); }
    }
  }

  /** A single message fits the half it goes to. */
  lemma SingleFits(l: Leaf, u: Upsert, mid: Key)
    requires LeafOK(l) && |l.keys| <= SIZES.leafN
    requires Median.HasRank(l.keys, KeysOf([u]), mid, (|l.keys| + 2) / 2)
    ensures LeafOK(SplitLeft(l, mid)) && LeafOK(SplitRight(l, mid))
    ensures u.key <= mid ==> |Upserted(SplitLeft(l, mid), u).keys| <= SIZES.leafN
    ensures u.key > mid ==> |Upserted(SplitRight(l, mid), u).keys| <= SIZES.leafN
  {
    OneRun(u);
    HalvesFit(l, [u], mid);
    hide HasRankOf, SplitLeft, SplitRight, Upserted, LeafOK, Sorted;
    var s := UpperBound(KeysOf([u]), mid);
    if u.key <= mid {
      assert [u][..s] == [u];
      AfterOne(SplitLeft(l, mid), u);
      assert [u][..1] == [u];
    } else {
      assert [u][s..] == [u];
      AfterOne(SplitRight(l, mid), u);
      assert [u][..1] == [u];
    }
  }

  ghost predicate HasRankOf(l: Leaf, u: Upsert, mid: Key) {
    Median.HasRank(l.keys, KeysOf([u]), mid, (|l.keys| + 2) / 2)
  }

  lemma AfterOne(l: Leaf, u: Upsert)
    requires |l.keys| == |l.values|
    ensures LeafAfter(l, [u]) == Upserted(l, u)
  {
    assert [u][..0] == [];
    assert LeafAfter(l, []) == l;
  }

  /** A child of the root splits and the root lists the new page. */
  lemma RootSplits(pages: Pages, A: Labelling, root: PageId, i: nat, c: PageId, m: map<Key, Upsert>, r: PageId, mid: Key,
                   nl: Node, nr: Node, pl: map<Key, Upsert>, pr: map<Key, Upsert>) returns (B: Labelling)
    requires Consistent(A, root) && Stored(pages, A, root, map[c := m], root, [])
    requires root in pages && pages[root].RootNode? && OnlyAt(pages[root].children, [], i, c)
    requires i < |pages[root].children| == |pages[root].pivots| + 1 && |pages[root].pivots| < SIZES.rootN
    requires Splittable(A, root, c, mid) && c in A && c != root && A[c].parent == root && r !in A && root in A
    requires ContentOK(nl, LeftHalf(A[c], mid), pl, false) && ContentOK(nr, RightHalf(A[c], mid), pr, false)
    requires KidsOK(Split(A, c, r, mid), root, c, nl, []) && KidsOK(Split(A, c, r, mid), root, r, nr, [])
    ensures B == Split(A, c, r, mid) && Consistent(B, root) && root in B && B[root].view == A[root].view
    ensures var n := RootNode(InsertAt(pages[root].pivots, i, mid), InsertAt(pages[root].children, i + 1, r));
            Stored(pages[c := nl][r := nr][root := n], B, root, SetPending(SetPending(map[c := m], c, pl), r, pr), root, [])
  {
    hide *;
    StoredKeys(pages, A, root, map[c := m], root, []);
    B := SplitStep(pages, A, root, map[c := m], root, [], i, c, r, mid, nl, nr, pl, pr);
    var n, t := pages[root], PivotTuple(i, mid, r);
    assert [] + [t] == [t];
    OnePivot(n.pivots, n.children, t);
    InsertStep(pages[c := nl][r := nr], B, root, SetPending(SetPending(map[c := m], c, pl), r, pr), root, [t]);
    RootWithPivots(n, InsertAt(n.pivots, i, mid), InsertAt(n.children, i + 1, r));
    ConsistentRoot(B, root);
  }

  /** The pages after the leaf `c`, child `i` of the root, has split at `mid` for message `u`. */
  function LeafSplitPages(pages: Pages, root: PageId, u: Upsert, i: nat, c: PageId, r: PageId, mid: Key): Pages
    requires root in pages && pages[root].RootNode? && i < |pages[root].children| == |pages[root].pivots| + 1
    requires c in pages && pages[c].LeafNode? && |pages[c].leaf.keys| == |pages[c].leaf.values|
  {
    var n, left, right := pages[root], SplitLeft(pages[c].leaf, mid), SplitRight(pages[c].leaf, mid);
    pages[root := RootNode(InsertAt(n.pivots, i, mid), InsertAt(n.children, i + 1, r))]
         [c := LeafNode(if u.key <= mid then Upserted(left, u) else left)]
         [r := LeafNode(if u.key <= mid then right else Upserted(right, u))]
  }

  lemma LeafSplitPagesIs(pages: Pages, root: PageId, u: Upsert, i: nat, c: PageId, r: PageId, mid: Key, pages1: Pages, pages2: Pages)
    requires root in pages && pages[root].RootNode? && i < |pages[root].children| == |pages[root].pivots| + 1
    requires c in pages && pages[c].LeafNode? && |pages[c].leaf.keys| == |pages[c].leaf.values| && c != root && r !in pages
    requires pages1 == pages[c := LeafNode(SplitLeft(pages[c].leaf, mid))][r := LeafNode(SplitRight(pages[c].leaf, mid))]
    requires pages2 == pages1[root := RootNode(InsertAt(pages[root].pivots, i, mid), InsertAt(pages[root].children, i + 1, r))]
    ensures var left, right := SplitLeft(pages[c].leaf, mid), SplitRight(pages[c].leaf, mid);
            LeafSplitPages(pages, root, u, i, c, r, mid) ==
            if u.key <= mid then pages2[c := LeafNode(Upserted(left, u))] else pages2[r := LeafNode(Upserted(right, u))]
  {
    hide SplitLeft, SplitRight, Upserted, InsertAt;
  }

  /** A full leaf below the root splits at the median first, and the root gains a pivot. */
  lemma RootLeafSplit(pages: Pages, A: Labelling, root: PageId, u: Upsert, i: nat, c: PageId, r: PageId, mid: Key)
    returns (B: Labelling)
    requires Whole(pages, A, root) && Newer(A, root, u) && RootChild(pages, A, root, u.key, i, c)
    requires root in pages && pages[root].RootNode? && i < |pages[root].children| == |pages[root].pivots| + 1
    requires |pages[root].pivots| < SIZES.rootN && r !in pages
    requires c in pages && pages[c].LeafNode? && LeafOK(pages[c].leaf) && 3 <= |pages[c].leaf.keys| <= SIZES.leafN
    requires |pages[c].leaf.keys| == |pages[c].leaf.values|
    requires Median.HasRank(pages[c].leaf.keys, KeysOf([u]), mid, (|pages[c].leaf.keys| + 2) / 2)
    ensures Whole(LeafSplitPages(pages, root, u, i, c, r, mid), B, root)
    ensures root in A && root in B && Told(A[root].view, u, B[root].view)
  {
    hide *;
    RootChildParts(pages, A, root, u.key, i, c);
    WholeParts(pages, A, root);
    OneRun(u);
    var m, l, n := Single(u), pages[c].leaf, pages[root];
    SingleNonempty(u);
    SingleInRange(A[c], u);
    MedianSplittable(A, root, c, pages[c], [u], mid);
    LeafReceives(pages[c], A[c], m);
    SameLeaf(pages[c]);
    assert pages[c := pages[c]] == pages;
    var B1 := RootPasses(pages, A, root, u, i, c, pages[c], m);
    var pend := map[c := m];
    SplittableShape(A, B1, root, c, mid);
    SameShapeAt(A, B1, c);
    LeafHalves(pages[c], B1[c], m, mid);
    StoredKeys(pages, B1, root, pend, root, []);
    var nl, nr := LeafNode(SplitLeft(l, mid)), LeafNode(SplitRight(l, mid));
    LeafKidsOK(Split(B1, c, r, mid), root, c, nl);
    LeafKidsOK(Split(B1, c, r, mid), root, r, nr);
    var B2 := RootSplits(pages, B1, root, i, c, m, r, mid, nl, nr, UpTo(m, mid), Above(m, mid));
    SplitPending(c, r, m, u, mid);
    var pages1 := pages[c := nl][r := nr];
    var pages2 := pages1[root := RootNode(InsertAt(n.pivots, i, mid), InsertAt(n.children, i + 1, r))];
    LeafSplitPagesIs(pages, root, u, i, c, r, mid, pages1, pages2);
    SingleFits(l, u, mid);
    PendingIs(c, m);
    PendingIs(r, m);
    if u.key <= mid {
      UpsertedActs(nl.leaf, u);
      LeafShape(nl.leaf);
      B := LeafStep(pages2, B2, root, map[c := m], root, c, Upserted(nl.leaf, u));
    } else {
      UpsertedActs(nr.leaf, u);
      LeafShape(nr.leaf);
      B := LeafStep(pages2, B2, root, map[r := m], root, r, Upserted(nr.leaf, u));
    }
    WholeFrom(LeafSplitPages(pages, root, u, i, c, r, mid), B, root);
    ConsistentRoot(B, root);
    ToldThrough(A[root].view, u, B1[root].view, B[root].view);
  }

  lemma RootWithPivots(n: Node, pivots: seq<Key>, children: seq<PageId>)
    ensures n.RootNode? ==> WithPivots(n, pivots, children) == RootNode(pivots, children)
  {
  }

  lemma SplittableShape(A: Labelling, B: Labelling, root: PageId, c: PageId, mid: Key)
    requires SameShape(A, B) && Splittable(A, root, c, mid)
    ensures Splittable(B, root, c, mid)
  {
  }

  lemma SameShapeAt(A: Labelling, B: Labelling, c: PageId)
    requires SameShape(A, B) && c in A
    ensures c in B && B[c].parent == A[c].parent && B[c].height == A[c].height && B.Keys == A.Keys
  {
  }

  // ---- an inner node keeps the message --------------------------------------------------------

  lemma MapPresent(s: seq<Upsert>, m: map<Key, Upsert>, j: nat)
    requires Holds(s, m) && j < |s|
    ensures s[j].key in m && m[s[j].key] == s[j]
  {
    assert s[j] in s;
  }

  lemma HoldsReplaced(s: seq<Upsert>, m: map<Key, Upsert>, j: nat, w: Upsert)
    requires Sorted(s) && Holds(s, m) && j < |s| && s[j].key == w.key
    ensures Sorted(s[j := w]) && Holds(s[j := w], m[w.key := w])
  {
    var t, m' := s[j := w], m[w.key := w];
    assert t[j] == w;
    forall v | v in t ensures v.key in m' && m'[v.key] == v {
      var x :| 0 <= x < |t| && t[x] == v;
      if x != j { MapPresent(s, m, x); }
    }
    forall k | k in m' ensures m'[k] in t && m'[k].key == k {
      if k != w.key {
        var x :| 0 <= x < |s| && s[x] == m[k];
        assert t[x] == m[k];
      }
    }
  }

  lemma HoldsInserted(s: seq<Upsert>, m: map<Key, Upsert>, j: nat, u: Upsert)
    requires Sorted(s) && Holds(s, m) && j <= |s|
    requires j > 0 ==> s[j - 1].key < u.key
    requires j < |s| ==> u.key < s[j].key
    ensures Sorted(InsertAt(s, j, u)) && u.key !in m && Holds(InsertAt(s, j, u), m[u.key := u])
  {
    hide *;
    InsertAtMembers(s, j, u);
    InsertedRun(s, j, u);
    NotInBuffer(s, m, j, u.key);
    HoldsMore(s, m, InsertAt(s, j, u), u);
  }

  lemma HoldsMore(s: seq<Upsert>, m: map<Key, Upsert>, t: seq<Upsert>, u: Upsert)
    requires Holds(s, m) && u.key !in m && forall q :: q in t <==> q in s || q == u
    ensures Holds(t, m[u.key := u])
  {
    var m' := m[u.key := u];
    assert forall v :: v in t && v != u ==> v.key in m && m[v.key] == v;
    forall k | k in m' ensures m'[k] in t && m'[k].key == k {
      if k != u.key { assert m[k] in s; }
    }
  }

  lemma NotInBuffer(s: seq<Upsert>, m: map<Key, Upsert>, j: nat, k: Key)
    requires Sorted(s) && Holds(s, m) && j <= |s|
    requires j > 0 ==> s[j - 1].key < k
    requires j < |s| ==> k < s[j].key
    ensures k !in m
  {
    forall x | 0 <= x < |s| ensures s[x].key != k {
      assert x < j - 1 ==> s[x].key < s[j - 1].key;
      assert x > j ==> s[j].key < s[x].key;
    }
  }

  lemma InsertedRun(s: seq<Upsert>, j: nat, u: Upsert)
    requires Sorted(s) && j <= |s|
    requires j > 0 ==> s[j - 1].key < u.key
    requires j < |s| ==> u.key < s[j].key
    ensures Sorted(InsertAt(s, j, u))
  {
    var t := InsertAt(s, j, u);
    hide InsertAt;
    forall x, y | 0 <= x < y < |t| ensures t[x].key < t[y].key {
      var x', y' := if x < j then x else x - 1, if y < j then y else y - 1;
      if x == j {
        assert s[j].key <= s[y'].key;
      } else if y == j {
        assert s[x'].key <= s[j - 1].key;
      }
    }
  }

  lemma MergeSingle(m: map<Key, Upsert>, u: Upsert)
    requires KeyedRight(m)
    ensures u.key in m ==> MergeMap(m, Single(u)) == m[u.key := SquashUpserts(m[u.key], u)]
    ensures u.key !in m ==> MergeMap(m, Single(u)) == m[u.key := u]
  {
    hide SquashUpserts;
  }

  /** Squashing a message with an older one for its key merges it into the buffer. */
  lemma BufferSquashed(s: seq<Upsert>, j: nat, u: Upsert)
    requires Sorted(s) && j < |s| && s[j].key == u.key && s[j].timeStamp < u.timeStamp
    ensures var t := s[j := SquashUpserts(u, s[j])];
            Sorted(t) && KeyedRight(MapOf(s)) && MapOf(t) == MergeMap(MapOf(s), Single(u))
  {
    SquashActsInOrder(s[j], u, None);
    var w, m := SquashUpserts(u, s[j]), MapOf(s);
    HeldKeyedRight(s, m);
    MapPresent(s, m, j);
    HoldsReplaced(s, m, j, w);
    HoldsUnique(s[j := w], m[u.key := w]);
    hide SquashUpserts, Act, Sorted, Holds;
    MergeSingle(m, u);
  }

  /** A message for a new key is inserted at its lower bound. */
  lemma BufferInserted(s: seq<Upsert>, j: nat, u: Upsert)
    requires Sorted(s) && j <= |s|
    requires j > 0 ==> s[j - 1].key < u.key
    requires j < |s| ==> u.key < s[j].key
    ensures var t := InsertAt(s, j, u);
            Sorted(t) && KeyedRight(MapOf(s)) && MapOf(t) == MergeMap(MapOf(s), Single(u))
  {
    var m := MapOf(s);
    HeldKeyedRight(s, m);
    HoldsInserted(s, m, j, u);
    HoldsUnique(InsertAt(s, j, u), m[u.key := u]);
    hide InsertAt, Sorted, Holds;
    MergeSingle(m, u);
  }

  /** The root's inner child stores the message in its buffer. */
  lemma RootInnerKeeps(pages: Pages, A: Labelling, root: PageId, u: Upsert, i: nat, c: PageId, rest: seq<Upsert>) returns (B: Labelling)
    requires Whole(pages, A, root) && Newer(A, root, u) && RootChild(pages, A, root, u.key, i, c)
    requires c in pages && pages[c].InnerNode? && Sorted(pages[c].upserts) && KeyedRight(MapOf(pages[c].upserts))
    requires Sorted(rest) && |rest| <= SIZES.innerBN && MapOf(rest) == MergeMap(MapOf(pages[c].upserts), Single(u))
    ensures Whole(pages[c := pages[c].(upserts := rest)], B, root)
    ensures root in A && root in B && Told(A[root].view, u, B[root].view) && SameShape(A, B)
  {
    hide *;
    RootChildParts(pages, A, root, u.key, i, c);
    var n := pages[c].(upserts := rest);
    assert map[] + MapOf(rest) == MapOf(rest);
    InnerReceives(pages[c], A[c], Single(u), rest, map[]);
    SameInner(pages[c], rest);
    B := RootPasses(pages, A, root, u, i, c, n, map[]);
    WholeFrom(pages[c := n], B, root);
  }

  lemma SameInner(n: Node, rest: seq<Upsert>)
    requires n.InnerNode?
    ensures SameKids(n, n.(upserts := rest))
  {
  }

  // ---- an inner node flushes ------------------------------------------------------------------

  lemma PendingBelowRoot(A: Labelling, root: PageId, pend: Pending)
    requires root !in pend && forall x :: x in pend ==> x in A && A[x].parent == root
    ensures ParentsDone(A, pend, root)
  {
  }

  lemma CascadingFrom(pages: Pages, A: Labelling, root: PageId, pend: Pending, queue: seq<Entry>)
    requires Consistent(A, root) && Stored(pages, A, root, pend, root, [])
    requires QueueOK(pages, pend, queue) && pend.Keys <= QueuePages(queue)
    requires root !in pend && ParentsDone(A, pend, root)
    ensures Cascading(pages, A, root, pend, queue)
  {
  }

  /** The root's full inner child passes on the messages it has no room for. */
  lemma RootInnerFlush(pages: Pages, A: Labelling, root: PageId, u: Upsert, i: nat, c: PageId,
                       rest: seq<Upsert>, flushed: MessageMap, gone: map<Key, Upsert>) returns (B: Labelling)
    requires Whole(pages, A, root) && Newer(A, root, u) && RootChild(pages, A, root, u.key, i, c)
    requires c in pages && pages[c].InnerNode?
    requires Rearranged(pages[c].upserts, pages[c].pivots, [u], rest, flushed, gone)
    requires flushed != map[] && |pages[c].pivots| + |flushed| <= SIZES.innerN
    ensures root in A && root in B && Told(A[root].view, u, B[root].view) && c in B
    ensures Cascading(pages[c := pages[c].(upserts := rest)], B, root, map[c := gone], [Entry(c, flushed)])
    ensures Leveled(B, [Entry(c, flushed)], B[c].height, 1)
  {
    hide *;
    RootChildParts(pages, A, root, u.key, i, c);
    OneRun(u);
    RearrangedContent(pages[c], A[c], [u], rest, flushed, gone);
    RearrangedCarries(pages[c].upserts, pages[c].pivots, [u], rest, flushed, gone);
    SomethingCarried(pages[c].pivots, flushed, gone);
    var n := pages[c].(upserts := rest);
    B := RootPasses(pages, A, root, u, i, c, n, gone);
    var pages', pend, e := pages[c := n], map[c := gone], Entry(c, flushed);
    PendingIs(c, gone);
    EntryFrom(pages', pend, e);
    OneEntry(pages', pend, e);
    SameShapeAt(A, B, c);
    PendingBelowRoot(B, root, pend);
    CascadingFrom(pages', B, root, pend, [e]);
    OneLevel(B, [e], B[c].height);
  }

  lemma OneLevel(A: Labelling, queue: seq<Entry>, level: nat)
    requires forall e :: e in queue ==> e.page in A && A[e.page].height == level
    ensures Leveled(A, queue, level, |queue|)
  {
    assert forall i :: 0 <= i < |queue| ==> queue[i] in queue;
  }

  /** The pages after the inner node `c`, child `i` of the root, has split. */
  function InnerSplitPages(pages: Pages, root: PageId, i: nat, c: PageId, r: PageId, n: Node, at: nat): Pages
    requires root in pages && pages[root].RootNode? && i < |pages[root].children| == |pages[root].pivots| + 1
    requires n.InnerNode? && at < |n.pivots| && |n.children| == |n.pivots| + 1
  {
    pages[root := RootNode(InsertAt(pages[root].pivots, i, n.pivots[at]), InsertAt(pages[root].children, i + 1, r))]
         [c := InnerLeft(n, at)][r := InnerRight(n, at)]
  }

  lemma InnerSplitPagesIs(pages: Pages, root: PageId, i: nat, c: PageId, r: PageId, n: Node, at: nat)
    requires root in pages && pages[root].RootNode? && i < |pages[root].children| == |pages[root].pivots| + 1
    requires n.InnerNode? && at < |n.pivots| && |n.children| == |n.pivots| + 1 && c != root && r != root
    ensures InnerSplitPages(pages, root, i, c, r, n, at) ==
            pages[c := n][c := InnerLeft(n, at)][r := InnerRight(n, at)]
                 [root := RootNode(InsertAt(pages[root].pivots, i, n.pivots[at]), InsertAt(pages[root].children, i + 1, r))]
    ensures var p := InnerSplitPages(pages, root, i, c, r, n, at);
            r in p && p[r] == InnerRight(n, at) && c in p && (c != r ==> p[c] == InnerLeft(n, at))
  {
    hide InnerLeft, InnerRight, InsertAt;
  }

  /** What is pending on the two halves of a node that has split. */
  function HalfPending(c: PageId, left: map<Key, Upsert>, r: PageId, right: map<Key, Upsert>): Pending {
    SetPending(SetPending(map[], c, left), r, right)
  }

  lemma HalfPendingIs(c: PageId, left: map<Key, Upsert>, r: PageId, right: map<Key, Upsert>, gone: map<Key, Upsert>)
    requires c != r
    ensures var pend := HalfPending(c, left, r, right);
            pend == SetPending(SetPending(map[c := gone], c, left), r, right) &&
            PendingAt(pend, c) == left && PendingAt(pend, r) == right && pend.Keys <= {c, r} &&
            (c in pend ==> left != map[]) && (r in pend ==> right != map[])
  {
  }

  /** The root's inner child with neither room nor a free pivot splits and then flushes. */
  lemma RootInnerSplit(pages: Pages, A: Labelling, root: PageId, u: Upsert, i: nat, c: PageId, r: PageId,
                       rest: seq<Upsert>, flushed: MessageMap, gone: map<Key, Upsert>, n: Node, at: nat,
                       left: MessageMap, right: MessageMap)
    returns (B: Labelling, pend: Pending)
    requires Whole(pages, A, root) && Newer(A, root, u) && RootChild(pages, A, root, u.key, i, c)
    requires root in pages && pages[root].RootNode? && i < |pages[root].children| == |pages[root].pivots| + 1
    requires |pages[root].pivots| < SIZES.rootN && r !in pages
    requires c in pages && pages[c].InnerNode? && n == pages[c].(upserts := rest)
    requires Rearranged(pages[c].upserts, pages[c].pivots, [u], rest, flushed, gone) && flushed != map[]
    requires 2 <= |n.pivots| && at == SplitIndex(|n.pivots|) < |n.pivots| && |n.children| == |n.pivots| + 1
    requires IsLeftMap(flushed, at, left) && IsRightMap(flushed, at, right)
    ensures root in A && root in B && Told(A[root].view, u, B[root].view) && c in B
    ensures Cascading(InnerSplitPages(pages, root, i, c, r, n, at), B, root, pend, HalfEntries(c, left, r, right))
    ensures Leveled(B, HalfEntries(c, left, r, right), B[c].height, |HalfEntries(c, left, r, right)|)
  {
    hide *;
    RootChildParts(pages, A, root, u.key, i, c);
    WholeParts(pages, A, root);
    OneRun(u);
    RearrangedContent(pages[c], A[c], [u], rest, flushed, gone);
    InnerContent(pages[c], A[c], map[]);
    RearrangedCarries(pages[c].upserts, pages[c].pivots, [u], rest, flushed, gone);
    SomethingCarried(pages[c].pivots, flushed, gone);
    var B1 := RootPasses(pages, A, root, u, i, c, n, gone);
    var pages1, pend1, mid := pages[c := n], map[c := gone], n.pivots[at];
    SameShapeAt(A, B1, c);
    StoredKeys(pages1, B1, root, pend1, root, []);
    StoredAt(pages1, B1, root, pend1, root, [], c);
    KidsOKPart(pages1, B1, root, pend1, c, []);
    InnerHalvesKids(B1, root, c, r, n, at);
    PageOKParts(pages1, B1, root, pend1, c, []);
    PendingIs(c, gone);
    InnerHalves(n, B1[c], gone, at);
    var pl, pr := UpTo(gone, mid), Above(gone, mid);
    B := RootSplits(pages1, B1, root, i, c, gone, r, mid, InnerLeft(n, at), InnerRight(n, at), pl, pr);
    pend := HalfPending(c, pl, r, pr);
    HalfPendingIs(c, pl, r, pr, gone);
    InnerSplitPagesIs(pages, root, i, c, r, n, at);
    var pages' := InnerSplitPages(pages, root, i, c, r, n, at);
    HalvesEntries(pages', pend, n, flushed, gone, c, left, r, right, at);
    SplitLabels(B1, c, r, mid);
    HalfLabelsKeep(B1[c], mid);
    var qs := HalfEntries(c, left, r, right);
    HalvesOwned(B, root, pend, c, r, QueuePages(qs));
    CascadingFrom(pages', B, root, pend, qs);
    EntriesOf(c, left, r, right);
    OneLevel(B, qs, B[c].height);
    ConsistentRoot(B, root);
    ToldThrough(A[root].view, u, B1[root].view, B[root].view);
  }

  lemma HalvesOwned(A: Labelling, root: PageId, pend: Pending, c: PageId, r: PageId, owners: set<PageId>)
    requires pend.Keys <= {c, r} && c != root && r != root
    requires (c in pend ==> c in owners) && (r in pend ==> r in owners)
    requires c in A && A[c].parent == root && r in A && A[r].parent == root
    ensures ParentsDone(A, pend, root) && pend.Keys <= owners && root !in pend
  {
  }

  lemma HalfLabelsKeep(l: Label, mid: Key)
    ensures LeftHalf(l, mid).parent == l.parent && RightHalf(l, mid).parent == l.parent
    ensures LeftHalf(l, mid).height == l.height && RightHalf(l, mid).height == l.height
  {
  }

  lemma EntriesOf(c: PageId, left: MessageMap, r: PageId, right: MessageMap)
    ensures forall e :: e in HalfEntries(c, left, r, right) ==> e.page == c || e.page == r
  {
  }
}
