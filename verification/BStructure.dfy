/** The shape every operation leaves a B-tree in, read off its pages: sorted and bounded nodes, leaves
    at one depth, every child between its pivots, and no page with two parents. */
module BStructure {
  import opened Keys
  import opened Messages
  import opened Labels
  import opened Leaves
  import opened Kids
  import opened InsertPivots
  import opened BNodes

  /** One page on its own: sorted, within capacity, and within the keys (lo, hi]. */
  ghost predicate WellFormed(n: Node, lo: int, hi: int) {
    match n
    case LeafNode(l) =>
      |l.keys| == |l.values| <= SIZES.leafN && StrictlySorted(l.keys) && forall k :: k in l.keys ==> Within(lo, k, hi)
    case InnerNode(pivots, children) =>
      |children| == |pivots| + 1 && |pivots| <= SIZES.innerN && StrictlySorted(pivots) && forall k :: k in pivots ==> lo < k < hi
  }

  /** The subtree of `x` is well-formed, its leaves are exactly `h` levels down, and every child
      answers for the keys between its two pivots. */
  ghost predicate WellShaped(pages: Pages, x: PageId, h: nat, lo: int, hi: int)
    decreases h
  {
    && x in pages && WellFormed(pages[x], lo, hi)
    && (pages[x].LeafNode? <==> h == 0)
    && (h > 0 ==>
          forall i :: 0 <= i < |pages[x].children| ==>
            WellShaped(pages, pages[x].children[i], h - 1, LowEnd(pages[x].pivots, i, lo), HighEnd(pages[x].pivots, i, hi)))
  }

  lemma NodeWellFormed(pages: Pages, A: Labelling, root: PageId, x: PageId)
    requires Stored(pages, A, root, root, map[]) && x in pages
    ensures x in A && WellFormed(pages[x], A[x].lo, A[x].hi) && (pages[x].LeafNode? <==> A[x].height == 0)
  {
    StoredParts(pages, A, root, root, map[]);
    if pages[x].LeafNode? {
      LeafAt(pages, A, root, root, map[], x);
      LeafInRange(A, root, x, pages[x].leaf);
    } else {
      InnerAt(pages, A, root, root, map[], x);
      KidsSorted(A, root, x, pages[x].pivots, pages[x].children);
    }
    hide Stored, Consistent, AllKids, Pairs;
  }

  lemma ShapeStep(pages: Pages, x: PageId, h: nat, lo: int, hi: int)
    requires x in pages && WellFormed(pages[x], lo, hi) && (pages[x].LeafNode? <==> h == 0)
    requires h > 0 ==>
               forall i :: 0 <= i < |pages[x].children| ==>
                 WellShaped(pages, pages[x].children[i], h - 1, LowEnd(pages[x].pivots, i, lo), HighEnd(pages[x].pivots, i, hi))
    ensures WellShaped(pages, x, h, lo, hi)
  {
  }

  /** A tree is well shaped from any of its pages on down. */
  lemma {:induction false} ShapeHolds(pages: Pages, A: Labelling, root: PageId, x: PageId)
    requires Stored(pages, A, root, root, map[]) && x in pages && x in A
    ensures WellShaped(pages, x, A[x].height, A[x].lo, A[x].hi)
    decreases A[x].height
  {
    hide *;
    StoredParts(pages, A, root, root, map[]);
    NodeWellFormed(pages, A, root, x);
    if pages[x].InnerNode? {
      InnerAt(pages, A, root, root, map[], x);
      var n := pages[x];
      forall i | 0 <= i < |n.children|
        ensures WellShaped(pages, n.children[i], A[x].height - 1, LowEnd(n.pivots, i, A[x].lo), HighEnd(n.pivots, i, A[x].hi))
      {
        KidLabels(A, root, x, n.pivots, n.children, i);
        ShapeHolds(pages, A, root, n.children[i]);
      }
    }
    ShapeStep(pages, x, A[x].height, A[x].lo, A[x].hi);
  }

  /** Page `c` is child number `i` of page `x`. */
  predicate ChildAt(pages: Pages, x: PageId, i: nat, c: PageId) {
    x in pages && pages[x].InnerNode? && i < |pages[x].children| && pages[x].children[i] == c
  }

  /** No page is listed twice, not by two parents and not by one, and the root by none. */
  lemma OneParent(pages: Pages, A: Labelling, root: PageId, x: PageId, i: nat, y: PageId, j: nat, c: PageId)
    requires Stored(pages, A, root, root, map[]) && ChildAt(pages, x, i, c) && ChildAt(pages, y, j, c)
    ensures x == y && i == j && c != root
  {
    hide Stored, AllKids, Consistent;
    StoredParts(pages, A, root, root, map[]);
    InnerAt(pages, A, root, root, map[], x);
    InnerAt(pages, A, root, root, map[], y);
    KidLabels(A, root, x, pages[x].pivots, pages[x].children, i);
    KidLabels(A, root, y, pages[y].pivots, pages[y].children, j);
    KidsDistinct(A, root, x, pages[x].pivots, pages[x].children, i, j);
  }

  // ---- what splits ----------------------------------------------------------------------------

  predicate Full(n: Node) {
    match n
    case LeafNode(l) => |l.keys| == SIZES.leafN
    case InnerNode(pivots, _) => |pivots| == SIZES.innerN
  }

  /** A node has lost none of its keys, pivots or children. */
  ghost predicate Grows(n: Node, n': Node) {
    match n
    case LeafNode(l) => n'.LeafNode? && forall k :: k in l.keys ==> k in n'.leaf.keys
    case InnerNode(pivots, children) =>
      n'.InnerNode? && (forall k :: k in pivots ==> k in n'.pivots) && (forall c :: c in children ==> c in n'.children)
  }

  /** Only full nodes have given anything away. */
  ghost predicate OnlyFullSplit(pages: Pages, pages': Pages) {
    forall x :: x in pages ==> x in pages' && (Full(pages[x]) || Grows(pages[x], pages'[x]))
  }

  ghost predicate SameBut(pages: Pages, pages': Pages, changed: set<PageId>) {
    forall x :: x in pages && x !in changed ==> x in pages' && pages'[x] == pages[x]
  }

  lemma OthersSame(pages: Pages, p: PageId, c: PageId, pages': Pages)
    requires forall x :: x in pages && x != p && x != c ==> x in pages' && pages'[x] == pages[x]
    ensures SameBut(pages, pages', {p, c})
  {
  }

  lemma NothingChanged(pages: Pages, changed: set<PageId>)
    ensures OnlyFullSplit(pages, pages) && SameBut(pages, pages, changed)
  {
  }

  lemma FullIs(n: Node)
    ensures Full(n) <==> match n case LeafNode(l) => |l.keys| == SIZES.leafN case InnerNode(pivots, _) => |pivots| == SIZES.innerN
  {
  }

  /** New pages are not among those that may have changed. */
  lemma SameButOld(pages: Pages, pages': Pages, changed: set<PageId>, old': set<PageId>)
    requires SameBut(pages, pages', changed) && forall x :: x in changed && x in pages ==> x in old'
    ensures SameBut(pages, pages', old')
  {
  }

  lemma UpsertedGrows(l: Leaf, u: Upsert)
    requires u.kind.INSERT? && |l.keys| == |l.values|
    ensures forall k :: k in l.keys ==> k in Upserted(l, u).keys
  {
    InsertedMembers(l.keys, LowerBound(l.keys, u.key), u.key);
    hide InsertAt, LowerBound;
  }

  lemma ShapeHeights(A: Labelling, B: Labelling)
    requires SameShape(A, B)
    ensures forall x :: x in A ==> x in B && B[x].height == A[x].height
  {
  }

  lemma SplitHeights(A: Labelling, c: PageId, r: PageId, mid: Key)
    requires c in A && r !in A
    ensures forall x :: x in A ==> x in Split(A, c, r, mid) && Split(A, c, r, mid)[x].height == A[x].height
  {
  }

  /** A full root splits, and the rest of the descent follows. */
  lemma RootThenRest(pages: Pages, root: PageId, pages1: Pages, pages2: Pages)
    requires root in pages && Full(pages[root]) && root in pages1 && SameBut(pages, pages1, {root}) && OnlyFullSplit(pages1, pages2)
    ensures OnlyFullSplit(pages, pages2)
  {
    forall x | x in pages ensures x in pages2 && (Full(pages[x]) || Grows(pages[x], pages2[x])) {
      assert x in pages1 && (x != root ==> pages1[x] == pages[x]);
    }
  }

  lemma LoneLeafGrows(pages: Pages, root: PageId, l: Leaf)
    requires root in pages && pages[root].LeafNode? && forall k :: k in pages[root].leaf.keys ==> k in l.keys
    ensures OnlyFullSplit(pages, pages[root := LeafNode(l)])
  {
  }

  lemma InsertedMembers<T>(s: seq<T>, i: nat, v: T)
    requires i <= |s|
    ensures forall x :: x in s ==> x in InsertAt(s, i, v)
  {
    var t := InsertAt(s, i, v);
    assert forall j :: 0 <= j < |s| ==> s[j] == t[if j < i then j else j + 1];
    forall x | x in s ensures x in t {
      var j :| 0 <= j < |s| && s[j] == x;
      assert t[if j < i then j else j + 1] == x;
    }
  }

  /** A full child gives a new page what lies above a pivot; its parent gains that pivot. */
  lemma SplitBelowParent(pages: Pages, p: PageId, i: nat, c: PageId, r: PageId, mid: Key, pages': Pages)
    requires p in pages && pages[p].InnerNode? && i <= |pages[p].pivots| && i < |pages[p].children|
    requires c in pages && Full(pages[c]) && r !in pages && p != c && pages'.Keys == pages.Keys + {r}
    requires pages'[p] == InnerNode(InsertAt(pages[p].pivots, i, mid), InsertAt(pages[p].children, i + 1, r))
    requires forall x :: x in pages && x != p && x != c ==> pages'[x] == pages[x]
    ensures OnlyFullSplit(pages, pages') && SameBut(pages, pages', {p, c})
  {
    InsertedMembers(pages[p].pivots, i, mid);
    InsertedMembers(pages[p].children, i + 1, r);
    hide InsertAt;
  }

  /** A leaf takes a key. */
  lemma LeafGrows(pages: Pages, pages1: Pages, changed: set<PageId>, c: PageId, l: Leaf, pages2: Pages)
    requires OnlyFullSplit(pages, pages1) && SameBut(pages, pages1, changed)
    requires c in pages1 && pages1[c].LeafNode? && pages2 == pages1[c := LeafNode(l)]
    requires forall k :: k in pages1[c].leaf.keys ==> k in l.keys
    requires c in pages ==> pages1[c] == pages[c] || Full(pages[c])
    ensures OnlyFullSplit(pages, pages2) && SameBut(pages, pages2, changed + {c})
  {
  }

  /** The rest of the descent only touches pages at the height of page `t` and below. */
  ghost predicate AboveSame(pages: Pages, A: Labelling, h: int, pages': Pages) {
    forall x :: x in pages && x in A && A[x].height > h ==> x in pages' && pages'[x] == pages[x]
  }

  lemma AboveFrom(pages: Pages, A: Labelling, p: PageId, c: PageId, pages': Pages)
    requires p in A && c in A && A[c].height + 1 == A[p].height && SameBut(pages, pages', {p, c})
    ensures AboveSame(pages, A, A[p].height, pages')
  {
  }

  /** One step of the descent and the rest of it. */
  lemma StepThenRest(pages: Pages, A: Labelling, p: PageId, c: PageId, pages1: Pages, B: Labelling, t: PageId, pages2: Pages)
    requires p in pages && p in A && c in A && A[c].height + 1 == A[p].height && pages.Keys <= A.Keys
    requires OnlyFullSplit(pages, pages1) && SameBut(pages, pages1, {p, c}) && c in pages && (pages1[c] == pages[c] || Full(pages[c]))
    requires t in B && B[t].height + 1 == A[p].height && forall x :: x in A ==> x in B && B[x].height == A[x].height
    requires OnlyFullSplit(pages1, pages2) && AboveSame(pages1, B, B[t].height, pages2)
    ensures OnlyFullSplit(pages, pages2) && AboveSame(pages, A, A[p].height, pages2)
  {
    forall x | x in pages ensures x in pages2 && (Full(pages[x]) || Grows(pages[x], pages2[x])) {
      if x == p {
        assert pages2[p] == pages1[p];
      } else if x != c {
        assert pages1[x] == pages[x];
      }
    }
  }
}
