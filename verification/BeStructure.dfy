/** The shape every operation leaves a Bε-tree in, read off its pages: sorted and bounded nodes,
    leaves at one depth, no page with two parents, and younger messages above older ones. */
module BeStructure {
  import opened Keys
  import opened Messages
  import opened Labels
  import opened Views
  import opened Leaves
  import opened Kids
  import opened InsertPivots
  import opened BeSizes
  import opened BeNodes
  import opened BeTraversal
  import opened BeRoot
  import opened BeMeaning

  /** One page on its own: sorted, within capacity, and within the keys (lo, hi]. */
  ghost predicate WellFormed(n: Node, lo: int, hi: int) {
    match n
    case LeafNode(l) =>
      |l.keys| == |l.values| <= SIZES.leafN && StrictlySorted(l.keys) && forall k :: k in l.keys ==> Within(lo, k, hi)
    case InnerNode(upserts, pivots, children) =>
      |children| == |pivots| + 1 && |pivots| <= SIZES.innerN && |upserts| <= SIZES.innerBN &&
      StrictlySorted(pivots) && (forall k :: k in pivots ==> lo < k < hi) &&
      Sorted(upserts) && (forall u :: u in upserts ==> Within(lo, u.key, hi))
    case RootNode(pivots, children) =>
      |children| == |pivots| + 1 && |pivots| <= SIZES.rootN && StrictlySorted(pivots)
  }

  /** The subtree of `x` is well-formed, its leaves are exactly `h` levels down, and every child
      answers for the keys between its two pivots. */
  ghost predicate WellShaped(pages: Pages, x: PageId, h: nat, lo: int, hi: int)
    decreases h
  {
    && x in pages && WellFormed(pages[x], lo, hi)
    && (pages[x].LeafNode? <==> h == 0)
    && (h > 0 ==>
          forall i :: 0 <= i < |pages[x].children| ==>
            WellShaped(pages, pages[x].children[i], h - 1, LowEnd(pages[x].pivots, i, lo), HighEnd(pages[x].pivots, i, hi)))
  }

  lemma BufferInRange(A: Labelling, root: PageId, x: PageId, upserts: seq<Upsert>)
    requires Consistent(A, root) && x in A && Sorted(upserts) && A[x].msgs == MapOf(upserts)
    ensures forall u :: u in upserts ==> Within(A[x].lo, u.key, A[x].hi)
  {
    assert Linked(A, root, x);
    assert Base(A[x]);
    forall u | u in upserts ensures Within(A[x].lo, u.key, A[x].hi) {
      assert u.key in A[x].msgs;
    }
  }

  lemma Capacities(pages: Pages, A: Labelling, root: PageId, x: PageId)
    requires Whole(pages, A, root) && x in pages
    ensures match pages[x]
            case LeafNode(l) => |l.keys| <= SIZES.leafN
            case InnerNode(upserts, pivots, children) => |pivots| <= SIZES.innerN && |upserts| <= SIZES.innerBN
            case RootNode(pivots, children) => |pivots| <= SIZES.rootN
  {
    StoredAt(pages, A, root, map[], root, [], x);
    hide Consistent, Sorted, KidsPending, LeafOK;
  }

  lemma NodeWellFormed(pages: Pages, A: Labelling, root: PageId, x: PageId)
    requires Whole(pages, A, root) && x in pages
    ensures x in A && WellFormed(pages[x], A[x].lo, A[x].hi)
  {
    WholeParts(pages, A, root);
    NodeParts(pages, A, root, x);
    Capacities(pages, A, root, x);
    if pages[x].LeafNode? {
      LeafInRange(A, root, x, pages[x].leaf);
      LeafLengths(pages[x].leaf);
    } else {
      KidsSorted(A, root, x, pages[x].pivots, pages[x].children);
      if pages[x].InnerNode? { BufferInRange(A, root, x, pages[x].upserts); }
    }
    hide Whole, Consistent, Stored, AllKids, Sorted, Pairs, MapOf;
  }

  lemma ShapeStep(pages: Pages, x: PageId, h: nat, lo: int, hi: int)
    requires x in pages && WellFormed(pages[x], lo, hi) && (pages[x].LeafNode? <==> h == 0)
    requires h > 0 ==>
               forall i :: 0 <= i < |pages[x].children| ==>
                 WellShaped(pages, pages[x].children[i], h - 1, LowEnd(pages[x].pivots, i, lo), HighEnd(pages[x].pivots, i, hi))
    ensures WellShaped(pages, x, h, lo, hi)
  {
  }

  /** A whole tree is well shaped from any of its pages on down. */
  lemma {:induction false} ShapeHolds(pages: Pages, A: Labelling, root: PageId, x: PageId)
    requires Whole(pages, A, root) && x in pages && x in A
    ensures WellShaped(pages, x, A[x].height, A[x].lo, A[x].hi)
    decreases A[x].height
  {
    hide *;
    WholeParts(pages, A, root);
    NodeParts(pages, A, root, x);
    NodeWellFormed(pages, A, root, x);
    StoredKeys(pages, A, root, map[], root, []);
    if !pages[x].LeafNode? {
      var n := pages[x];
      forall i | 0 <= i < |n.children|
        ensures WellShaped(pages, n.children[i], A[x].height - 1, LowEnd(n.pivots, i, A[x].lo), HighEnd(n.pivots, i, A[x].hi))
      {
        KidLabels(A, root, x, n.pivots, n.children, i);
        ShapeHolds(pages, A, root, n.children[i]);
      }
    }
    ShapeStep(pages, x, A[x].height, A[x].lo, A[x].hi);
  }

  /** Page `c` is child number `i` of page `x`. */
  predicate ChildAt(pages: Pages, x: PageId, i: nat, c: PageId) {
    x in pages && !pages[x].LeafNode? && i < |pages[x].children| && pages[x].children[i] == c
  }

  /** No page is listed twice, not by two parents and not by one, and the root by none. */
  lemma OneParent(pages: Pages, A: Labelling, root: PageId, x: PageId, i: nat, y: PageId, j: nat, c: PageId)
    requires Whole(pages, A, root) && ChildAt(pages, x, i, c) && ChildAt(pages, y, j, c)
    ensures x == y && i == j && c != root
  {
    hide Whole, AllKids, Consistent;
    WholeParts(pages, A, root);
    NodeParts(pages, A, root, x);
    NodeParts(pages, A, root, y);
    KidLabels(A, root, x, pages[x].pivots, pages[x].children, i);
    KidLabels(A, root, y, pages[y].pivots, pages[y].children, j);
    KidsDistinct(A, root, x, pages[x].pivots, pages[x].children, i, j);
  }

  // ---- time stamps ----------------------------------------------------------------------------

  /** The messages for a key from page `x` on down, the youngest first. */
  function PathMessages(pages: Pages, x: PageId, h: nat, k: Key): seq<Upsert>
    decreases h
  {
    if x !in pages || pages[x].LeafNode? || h == 0 then []
    else
      var c := ChildFor(pages[x].pivots, pages[x].children, k);
      var rest := if c.None? then [] else PathMessages(pages, c.value, h - 1, k);
      var u := if pages[x].InnerNode? then MessageFor(pages[x].upserts, k) else None;
      (if u.Some? then [u.value] else []) + rest
  }

  ghost predicate Falling(s: seq<Upsert>, bound: nat) {
    && (forall i :: 0 <= i < |s| ==> s[i].timeStamp <= bound)
    && (forall i, j :: 0 <= i < j < |s| ==> s[i].timeStamp > s[j].timeStamp)
  }

  lemma FallingOn(u: Option<Upsert>, rest: seq<Upsert>, bound: nat, below: nat)
    requires Falling(rest, below) && below <= bound
    requires u.Some? ==> below < u.value.timeStamp <= bound
    ensures Falling((if u.Some? then [u.value] else []) + rest, bound)
  {
  }

  lemma StampsAt(A: Labelling, root: PageId, x: PageId, pivots: seq<Key>, children: seq<PageId>, k: Key)
    requires Consistent(A, root) && x in A && AllKids(A, root, x, pivots, children) && InRange(A[x], k)
    ensures var c := ChildFor(pivots, children, k);
            c.Some? && c.value in A && A[c.value].view[k].newest <= A[x].view[k].newest &&
            (k in A[x].msgs ==> A[c.value].view[k].newest < A[x].msgs[k].timeStamp <= A[x].view[k].newest)
  {
    RouteInRange(A, root, x, pivots, children, k);
    var c := children[LowerBound(pivots, k)];
    assert Linked(A, root, c) && Linked(A, root, x);
    assert Sees(A[x], A[c], k);
    assert Base(A[x]);
  }

  lemma PathStep(pages: Pages, x: PageId, h: nat, k: Key)
    requires x in pages && !pages[x].LeafNode? && h > 0 && ChildFor(pages[x].pivots, pages[x].children, k).Some?
    ensures var u := if pages[x].InnerNode? then MessageFor(pages[x].upserts, k) else None;
            PathMessages(pages, x, h, k) ==
            (if u.Some? then [u.value] else []) +
            PathMessages(pages, ChildFor(pages[x].pivots, pages[x].children, k).value, h - 1, k)
  {
  }

  /** On every key's path the time stamps of its messages fall strictly from the root to the leaf. */
  lemma {:induction false} StampsFall(pages: Pages, A: Labelling, root: PageId, x: PageId, k: Key)
    requires Whole(pages, A, root) && x in pages && x in A && InRange(A[x], k)
    ensures k in A[x].view && Falling(PathMessages(pages, x, A[x].height, k), A[x].view[k].newest)
    decreases A[x].height
  {
    TotalViews();
    hide *;
    WholeParts(pages, A, root);
    NodeParts(pages, A, root, x);
    StoredKeys(pages, A, root, map[], root, []);
    if pages[x].LeafNode? {
      NoPath(pages, x, A[x].height, k);
      NothingFalls(A[x].view[k].newest);
    } else {
      var n := pages[x];
      ViewThroughKid(A, root, x, n.pivots, n.children, k);
      StampsAt(A, root, x, n.pivots, n.children, k);
      var c := ChildFor(n.pivots, n.children, k).value;
      StampsFall(pages, A, root, c, k);
      PathStep(pages, x, A[x].height, k);
      if n.InnerNode? { MessageForIs(n.upserts, k); }
      var u := if n.InnerNode? then MessageFor(n.upserts, k) else None;
      GetIs(A[x].msgs, k);
      FallingOn(u, PathMessages(pages, c, A[c].height, k), A[x].view[k].newest, A[c].view[k].newest);
    }
  }

  lemma GetIs(m: map<Key, Upsert>, k: Key)
    ensures Get(m, k) == if k in m then Some(m[k]) else None
  {
  }

  lemma NoPath(pages: Pages, x: PageId, h: nat, k: Key)
    requires x in pages && pages[x].LeafNode?
    ensures PathMessages(pages, x, h, k) == []
  {
  }

  lemma NothingFalls(bound: nat)
    ensures Falling([], bound)
  {
  }
}
