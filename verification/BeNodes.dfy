/** The pages of a Bε-tree and how they agree with the labels: what a page stores, and what is
    pending on it while a flush is under way. */
module BeNodes {
  import opened Keys
  import opened Messages
  import opened MergeUpserts
  import opened Labels
  import opened Leaves
  import opened Kids
  import opened InsertPivots
  import opened BeSizes

  datatype Node =
    | LeafNode(leaf: Leaf)
    | InnerNode(upserts: seq<Upsert>, pivots: seq<Key>, children: seq<PageId>)
    | RootNode(pivots: seq<Key>, children: seq<PageId>)

  type Pages = map<PageId, Node>

  /** Messages that have left a page's buffer, or arrived at a leaf, but are not stored yet. */
  type Pending = map<PageId, map<Key, Upsert>>

  function PendingAt(pend: Pending, x: PageId): map<Key, Upsert> {
    if x in pend then pend[x] else map[]
  }

  /** `m` is the disjoint union of `a` and `b`. */
  ghost predicate Splits(m: map<Key, Upsert>, a: map<Key, Upsert>, b: map<Key, Upsert>) {
    a.Keys !! b.Keys && m == a + b
  }

  /** What a page stores, together with what is pending on it, is what its label says. */
  ghost predicate ContentOK(n: Node, l: Label, pending: map<Key, Upsert>, isRoot: bool) {
    match n
    case LeafNode(leaf) =>
      l.height == 0 && LeafOK(leaf) && |leaf.keys| <= SIZES.leafN &&
      Pairs(leaf) == l.leaf && l.msgs == pending
    case InnerNode(upserts, pivots, _) =>
      !isRoot && l.height > 0 && |pivots| <= SIZES.innerN && |upserts| <= SIZES.innerBN &&
      Sorted(upserts) && Splits(l.msgs, MapOf(upserts), pending)
    case RootNode(pivots, _) =>
      isRoot && l.height > 0 && |pivots| <= SIZES.rootN && l.msgs == pending
  }

  /** The children of a page agree with the labels, but for the pivots `ts` still to be inserted. */
  ghost predicate KidsOK(A: Labelling, root: PageId, x: PageId, n: Node, ts: seq<PivotTuple>)
    requires x in A
  {
    !n.LeafNode? ==> KidsPending(A, root, x, n.pivots, n.children, ts)
  }

  ghost predicate PageOK(pages: Pages, A: Labelling, root: PageId, pend: Pending, x: PageId, ts: seq<PivotTuple>)
    requires x in pages && x in A
  {
    ContentOK(pages[x], A[x], PendingAt(pend, x), x == root) && KidsOK(A, root, x, pages[x], ts)
  }

  /** All pages agree with the labels; only page `p` may wait for the pivots `ts`. */
  ghost predicate Stored(pages: Pages, A: Labelling, root: PageId, pend: Pending, p: PageId, ts: seq<PivotTuple>) {
    && pages.Keys == A.Keys && pend.Keys <= pages.Keys
    && forall x :: x in pages ==> PageOK(pages, A, root, pend, x, if x == p then ts else [])
  }

  lemma NothingPendingMeansKids(A: Labelling, root: PageId, x: PageId, pivots: seq<Key>, children: seq<PageId>)
    requires x in A
    ensures KidsPending(A, root, x, pivots, children, []) <==> AllKids(A, root, x, pivots, children)
  {
    assert Indices([]) == {};
  }

  /** The kids of a page under another labelling of the same ranges and parents. */
  lemma KidsPendingFrame(A: Labelling, B: Labelling, root: PageId, x: PageId, pivots: seq<Key>, children: seq<PageId>, ts: seq<PivotTuple>)
    requires x in A && KidsPending(A, root, x, pivots, children, ts)
    requires x in B && B[x].lo == A[x].lo && B[x].hi == A[x].hi
    requires forall c :: c in A && c != root && A[c].parent == x ==>
               c in B && B[c].lo == A[c].lo && B[c].hi == A[c].hi && B[c].parent == A[c].parent
    ensures KidsPending(B, root, x, pivots, children, ts)
  {
    forall t | t in ts ensures SplitKid(B, root, x, pivots, children, t) {
      assert SplitKid(A, root, x, pivots, children, t);
    }
    forall i | 0 <= i < |children| && i !in Indices(ts) ensures Kid(B, root, x, pivots, children, i) {
      assert Kid(A, root, x, pivots, children, i);
    }
  }

  // ---- a page takes in messages from its parent -----------------------------------------------

  /** The same kind of node with the same children. */
  predicate SameKids(n: Node, m: Node) {
    match n
    case LeafNode(_) => m.LeafNode?
    case InnerNode(_, pivots, children) => m.InnerNode? && m.pivots == pivots && m.children == children
    case RootNode(pivots, children) => m == n
  }

  /** What remains pending on the parent after `moved` has gone to a child. */
  function Without(pending: map<Key, Upsert>, moved: map<Key, Upsert>): map<Key, Upsert> {
    pending - moved.Keys
  }

  lemma DrainedContent(n: Node, l: Label, pending: map<Key, Upsert>, isRoot: bool, moved: map<Key, Upsert>)
    requires ContentOK(n, l, pending, isRoot) && !n.LeafNode? && PartOf(moved, pending)
    ensures ContentOK(n, Drained(l, moved), Without(pending, moved), isRoot)
  {
    hide Sorted, Holds;
    if n.InnerNode? {
      assert l.msgs - moved.Keys == MapOf(n.upserts) + (pending - moved.Keys);
    }
  }

  lemma PendingMovable(n: Node, p: Label, c: Label, pending: map<Key, Upsert>, isRoot: bool, moved: map<Key, Upsert>)
    requires ContentOK(n, p, pending, isRoot) && !n.LeafNode? && PartOf(moved, pending)
    requires forall k :: k in moved ==> InRange(c, k)
    ensures Movable(p, c, moved)
  {
    hide Sorted, Holds;
  }

  /** The pending messages after `moved` has left `p` and `gone` is pending on `c`. */
  function Passed(pend: Pending, p: PageId, moved: map<Key, Upsert>, c: PageId, gone: map<Key, Upsert>): Pending {
    var drained := pend[p := Without(PendingAt(pend, p), moved)];
    if gone == map[] then drained else drained[c := gone]
  }

  lemma FlushPageOK(pages: Pages, A: Labelling, root: PageId, pend: Pending, p: PageId, ts: seq<PivotTuple>,
                    c: PageId, moved: map<Key, Upsert>, n: Node, gone: map<Key, Upsert>, B: Labelling, x: PageId)
    requires p in A && c in A && p != c && x in A && pages.Keys == A.Keys
    requires PageOK(pages, A, root, pend, x, ts)
    requires KeyedRight(A[c].msgs) && KeyedRight(moved)
    requires B == A[p := Drained(A[p], moved)][c := Filled(A[c], moved)]
    requires !pages[p].LeafNode? && PartOf(moved, PendingAt(pend, p)) && c !in pend
    requires SameKids(pages[c], n) && ContentOK(n, Filled(A[c], moved), gone, c == root)
    ensures PageOK(pages[c := n], B, root, Passed(pend, p, moved, c, gone), x, ts)
  {
    hide ContentOK, Drained, Filled, KidsPending, PartOf, KeyedRight;
    if x == p {
      DrainedContent(pages[p], A[p], PendingAt(pend, p), p == root, moved);
    }
    if !pages[x].LeafNode? {
      KidsPendingFrame(A, B, root, x, pages[x].pivots, pages[x].children, ts);
    }
  }

  /** Pending messages of `p` move to its child `c`, whose page becomes `n` with `gone` pending. */
  lemma FlushStep(pages: Pages, A: Labelling, root: PageId, pend: Pending, p: PageId, ts: seq<PivotTuple>,
                  c: PageId, moved: map<Key, Upsert>, n: Node, gone: map<Key, Upsert>) returns (B: Labelling)
    requires Consistent(A, root) && Stored(pages, A, root, pend, p, ts)
    requires p in pages && c in pages && c != root && A[c].parent == p
    requires !pages[p].LeafNode? && PartOf(moved, PendingAt(pend, p)) && c !in pend
    requires forall k :: k in moved ==> InRange(A[c], k)
    requires KeyedRight(A[c].msgs) && KeyedRight(moved)
    requires SameKids(pages[c], n) && ContentOK(n, Filled(A[c], moved), gone, false)
    ensures p != c && B == A[p := Drained(A[p], moved)][c := Filled(A[c], moved)]
    ensures Consistent(B, root) && B[root].view == A[root].view
    ensures Stored(pages[c := n], B, root, Passed(pend, p, moved, c, gone), p, ts)
  {
    hide Consistent, ContentOK, Drained, Filled, PartOf, KeyedRight, Movable, KidsOK, SameKids;
    assert PageOK(pages, A, root, pend, p, ts);
    PendingMovable(pages[p], A[p], A[c], PendingAt(pend, p), p == root, moved);
    B := MoveDown(A, root, c, moved);
    var pages', pend' := pages[c := n], Passed(pend, p, moved, c, gone);
    assert pend'.Keys <= pages'.Keys;
    forall x | x in pages' ensures PageOK(pages', B, root, pend', x, if x == p then ts else []) {
      assert PageOK(pages, A, root, pend, x, if x == p then ts else []);
      FlushPageOK(pages, A, root, pend, p, if x == p then ts else [], c, moved, n, gone, B, x);
    }
  }

  // ---- a child splits; the parent will list its new sibling later -----------------------------

  /** `c` is child number `i` of a node with these children and nowhere else among them. */
  predicate OnlyAt(children: seq<PageId>, ts: seq<PivotTuple>, i: nat, c: PageId) {
    && i < |children| && children[i] == c
    && (forall j :: 0 <= j < |children| && children[j] == c ==> j == i)
    && (forall t :: t in ts ==> t.index != i && t.child != c)
  }

  lemma KidsPendingMore(A: Labelling, root: PageId, p: PageId, pivots: seq<Key>, children: seq<PageId>, ts: seq<PivotTuple>,
                        i: nat, c: PageId, r: PageId, mid: Key)
    requires Consistent(A, root) && p in A && KidsPending(A, root, p, pivots, children, ts)
    requires OnlyAt(children, ts, i, c) && r !in A && r != root && c in A && p != c
    ensures KidsPending(Split(A, c, r, mid), root, p, pivots, children, ts + [PivotTuple(i, mid, r)])
  {
    var B := Split(A, c, r, mid);
    var t := PivotTuple(i, mid, r);
    var ts' := ts + [t];
    assert i !in Indices(ts);
    assert Kid(A, root, p, pivots, children, i);
    hide Consistent, LeftHalf, RightHalf;
    forall s | s in ts' ensures SplitKid(B, root, p, pivots, children, s) {
      if s in ts {
        assert SplitKid(A, root, p, pivots, children, s);
        assert s.child != c && children[s.index] != c;
      }
    }
    forall j | 0 <= j < |children| && j !in Indices(ts') ensures Kid(B, root, p, pivots, children, j) {
      assert t in ts';
      assert j != i && j !in Indices(ts) by {
        assert forall s :: s in ts ==> s in ts';
      }
      assert Kid(A, root, p, pivots, children, j);
    }
  }

  lemma ContentIgnoresParent(n: Node, l: Label, m: Label, pending: map<Key, Upsert>, isRoot: bool)
    requires ContentOK(n, l, pending, isRoot) && m == l.(parent := m.parent)
    ensures ContentOK(n, m, pending, isRoot)
  {
  }

  function SetPending(pend: Pending, x: PageId, pending: map<Key, Upsert>): (r: Pending)
    ensures PendingAt(r, x) == pending
    ensures forall y :: y != x ==> PendingAt(r, y) == PendingAt(pend, y)
    ensures r.Keys == if pending == map[] then pend.Keys - {x} else pend.Keys + {x}
  {
    if pending == map[] then pend - {x} else pend[x := pending]
  }

  lemma SplitPageOK(pages: Pages, A: Labelling, root: PageId, pend: Pending, p: PageId, c: PageId, r: PageId, mid: Key,
                    nl: Node, nr: Node, pend': Pending, x: PageId)
    requires Consistent(A, root) && pages.Keys == A.Keys && x in A && c in A && c != root && r !in A
    requires A[c].parent == p && x != p && x != c && x != r
    requires PageOK(pages, A, root, pend, x, []) && PendingAt(pend', x) == PendingAt(pend, x)
    ensures PageOK(pages[c := nl][r := nr], Split(A, c, r, mid), root, pend', x, [])
  {
    var B := Split(A, c, r, mid);
    hide Consistent, ContentOK, KidsPending, LeftHalf, RightHalf, PendingAt;
    ContentIgnoresParent(pages[x], A[x], B[x], PendingAt(pend, x), x == root);
    if !pages[x].LeafNode? {
      KidsPendingFrame(A, B, root, x, pages[x].pivots, pages[x].children, []);
    }
  }

  lemma SplitParentOK(pages: Pages, A: Labelling, root: PageId, pend: Pending, p: PageId, ts: seq<PivotTuple>,
                      i: nat, c: PageId, r: PageId, mid: Key, nl: Node, nr: Node, pend': Pending)
    requires Consistent(A, root) && pages.Keys == A.Keys && p in A && c in A && p != c && r !in A && r != root
    requires !pages[p].LeafNode? && OnlyAt(pages[p].children, ts, i, c)
    requires PageOK(pages, A, root, pend, p, ts) && PendingAt(pend', p) == PendingAt(pend, p)
    ensures PageOK(pages[c := nl][r := nr], Split(A, c, r, mid), root, pend', p, ts + [PivotTuple(i, mid, r)])
  {
    var B := Split(A, c, r, mid);
    hide Consistent, ContentOK, LeftHalf, RightHalf, KidsPending, OnlyAt, PendingAt;
    ContentIgnoresParent(pages[p], A[p], B[p], PendingAt(pend, p), p == root);
    KidsPendingMore(A, root, p, pages[p].pivots, pages[p].children, ts, i, c, r, mid);
  }

  lemma SplitFacts(A: Labelling, root: PageId, c: PageId, mid: Key)
    requires Consistent(A, root) && Splittable(A, root, c, mid)
    ensures root in A && c in A && c != root && A[c].parent in A && A[c].parent != c
  {
    ParentTaller(A, root, c);
  }

  /** Child number `i` of `p` splits at `mid`; `p` is left waiting for the new pivot. */
  lemma SplitStep(pages: Pages, A: Labelling, root: PageId, pend: Pending, p: PageId, ts: seq<PivotTuple>,
                  i: nat, c: PageId, r: PageId, mid: Key, nl: Node, nr: Node, pl: map<Key, Upsert>, pr: map<Key, Upsert>)
    returns (B: Labelling)
    requires Consistent(A, root) && Stored(pages, A, root, pend, p, ts)
    requires p in pages && !pages[p].LeafNode? && OnlyAt(pages[p].children, ts, i, c)
    requires Splittable(A, root, c, mid) && c in A && A[c].parent == p && r !in A
    requires ContentOK(nl, LeftHalf(A[c], mid), pl, false) && ContentOK(nr, RightHalf(A[c], mid), pr, false)
    requires KidsOK(Split(A, c, r, mid), root, c, nl, []) && KidsOK(Split(A, c, r, mid), root, r, nr, [])
    ensures B == Split(A, c, r, mid) && Consistent(B, root) && B[root].view == A[root].view
    ensures Stored(pages[c := nl][r := nr], B, root, SetPending(SetPending(pend, c, pl), r, pr), p, ts + [PivotTuple(i, mid, r)])
  {
    hide *;
    SplitFacts(A, root, c, mid);
    B := SplitPage(A, root, c, r, mid);
    SplitLabels(A, c, r, mid);
    StoredKeys(pages, A, root, pend, p, ts);
    var pages', pend', ts' := pages[c := nl][r := nr], SetPending(SetPending(pend, c, pl), r, pr), ts + [PivotTuple(i, mid, r)];
    forall x | x in pages' ensures PageOK(pages', B, root, pend', x, if x == p then ts' else []) {
      if x == p {
        StoredAt(pages, A, root, pend, p, ts, p);
        SplitParentOK(pages, A, root, pend, p, ts, i, c, r, mid, nl, nr, pend');
      } else if x != c && x != r {
        StoredAt(pages, A, root, pend, p, ts, x);
        SplitPageOK(pages, A, root, pend, p, c, r, mid, nl, nr, pend', x);
      } else {
        PageOKFrom(pages', B, root, pend', x);
      }
    }
    StoredFrom(pages', B, root, pend', p, ts');
  }

  lemma SplitLabels(A: Labelling, c: PageId, r: PageId, mid: Key)
    requires c in A && r !in A
    ensures Split(A, c, r, mid)[c] == LeftHalf(A[c], mid) && Split(A, c, r, mid)[r] == RightHalf(A[c], mid)
  {
  }

  lemma StoredAt(pages: Pages, A: Labelling, root: PageId, pend: Pending, p: PageId, ts: seq<PivotTuple>, x: PageId)
    requires Stored(pages, A, root, pend, p, ts) && x in pages
    ensures x in A && PageOK(pages, A, root, pend, x, if x == p then ts else [])
  {
  }

  lemma StoredKeys(pages: Pages, A: Labelling, root: PageId, pend: Pending, p: PageId, ts: seq<PivotTuple>)
    requires Stored(pages, A, root, pend, p, ts)
    ensures pages.Keys == A.Keys && pend.Keys <= pages.Keys
  {
  }

  lemma StoredFrom(pages: Pages, A: Labelling, root: PageId, pend: Pending, p: PageId, ts: seq<PivotTuple>)
    requires pages.Keys == A.Keys && pend.Keys <= pages.Keys
    requires forall x :: x in pages ==> PageOK(pages, A, root, pend, x, if x == p then ts else [])
    ensures Stored(pages, A, root, pend, p, ts)
  {
  }

  lemma PageOKFrom(pages: Pages, A: Labelling, root: PageId, pend: Pending, x: PageId)
    requires x in pages && x in A
    requires ContentOK(pages[x], A[x], PendingAt(pend, x), x == root) && KidsOK(A, root, x, pages[x], [])
    ensures PageOK(pages, A, root, pend, x, [])
  {
  }

  // ---- the parent lists the new siblings ------------------------------------------------------

  function WithPivots(n: Node, pivots: seq<Key>, children: seq<PageId>): Node {
    match n
    case LeafNode(_) => n
    case InnerNode(u, _, _) => InnerNode(u, pivots, children)
    case RootNode(_, _) => RootNode(pivots, children)
  }

  lemma WithPivotsContent(n: Node, l: Label, pending: map<Key, Upsert>, isRoot: bool, pivots: seq<Key>, children: seq<PageId>)
    requires ContentOK(n, l, pending, isRoot) && !n.LeafNode?
    requires |pivots| <= if isRoot then SIZES.rootN else SIZES.innerN
    ensures ContentOK(WithPivots(n, pivots, children), l, pending, isRoot)
  {
  }

  lemma InsertedKidsOK(A: Labelling, root: PageId, p: PageId, n: Node, pivots: seq<Key>, children: seq<PageId>)
    requires p in A && !n.LeafNode? && AllKids(A, root, p, pivots, children)
    ensures KidsOK(A, root, p, WithPivots(n, pivots, children), [])
  {
    NothingPendingMeansKids(A, root, p, pivots, children);
  }

  lemma PageOKParts(pages: Pages, A: Labelling, root: PageId, pend: Pending, x: PageId, ts: seq<PivotTuple>)
    requires x in pages && x in A && PageOK(pages, A, root, pend, x, ts)
    ensures ContentOK(pages[x], A[x], PendingAt(pend, x), x == root)
    ensures !pages[x].LeafNode? ==>
              KidsPending(A, root, x, pages[x].pivots, pages[x].children, ts) &&
              |pages[x].children| == |pages[x].pivots| + 1
  {
  }

  /** Inserting the pending pivots makes the parent agree with the labels again. */
  lemma InsertStep(pages: Pages, A: Labelling, root: PageId, pend: Pending, p: PageId, ts: seq<PivotTuple>)
    requires Stored(pages, A, root, pend, p, ts) && p in pages && !pages[p].LeafNode? && IndexSorted(ts)
    requires |pages[p].pivots| + |ts| <= if p == root then SIZES.rootN else SIZES.innerN
    ensures |pages[p].children| == |pages[p].pivots| + 1
    ensures forall t :: t in ts ==> t.index < |pages[p].children|
    ensures var n := WithPivots(pages[p], PivotsWith(pages[p].pivots, ts), ChildrenWith(pages[p].children, ts));
            Stored(pages[p := n], A, root, pend, p, [])
  {
    hide *;
    StoredKeys(pages, A, root, pend, p, ts);
    StoredAt(pages, A, root, pend, p, ts, p);
    var n := pages[p];
    PageOKParts(pages, A, root, pend, p, ts);
    KidsInserted(A, root, p, n.pivots, n.children, ts);
    var ps, cs := PivotsWith(n.pivots, ts), ChildrenWith(n.children, ts);
    var n' := WithPivots(n, ps, cs);
    WithPivotsContent(n, A[p], PendingAt(pend, p), p == root, ps, cs);
    InsertedKidsOK(A, root, p, n, ps, cs);
    var pages' := pages[p := n'];
    forall x | x in pages' ensures PageOK(pages', A, root, pend, x, []) {
      if x == p {
        PageOKFrom(pages', A, root, pend, p);
      } else {
        StoredAt(pages, A, root, pend, p, ts, x);
        SamePageOK(pages, pages', A, A, root, pend, pend, x);
      }
    }
    StoredFrom(pages', A, root, pend, p, []);
  }

  lemma SamePageOK(pages: Pages, pages': Pages, A: Labelling, B: Labelling, root: PageId, pend: Pending, pend': Pending, x: PageId)
    requires x in pages && x in A && PageOK(pages, A, root, pend, x, [])
    requires x in pages' && pages'[x] == pages[x] && x in B && B[x] == A[x]
    requires PendingAt(pend', x) == PendingAt(pend, x)
    requires forall c :: c in A && c != root && A[c].parent == x ==>
               c in B && B[c].lo == A[c].lo && B[c].hi == A[c].hi && B[c].parent == A[c].parent
    ensures PageOK(pages', B, root, pend', x, [])
  {
    hide ContentOK, KidsPending;
    if !pages[x].LeafNode? {
      KidsPendingFrame(A, B, root, x, pages[x].pivots, pages[x].children, []);
    }
  }

  // ---- a leaf applies what is pending ---------------------------------------------------------

  /** A leaf that has applied its pending messages has none pending any more. */
  lemma LeafStep(pages: Pages, A: Labelling, root: PageId, pend: Pending, p: PageId, c: PageId, leaf: Leaf) returns (B: Labelling)
    requires Consistent(A, root) && Stored(pages, A, root, pend, p, [])
    requires c in pages && pages[c].LeafNode? && LeafOK(leaf) && |leaf.keys| <= SIZES.leafN
    requires forall k: Key :: Get(Pairs(leaf), k) == ActOn(PendingAt(pend, c), k, Get(Pairs(pages[c].leaf), k))
    ensures Consistent(B, root) && B[root].view == A[root].view
    ensures c in A && B == A[c := WithLeaf(A[c], Pairs(leaf))]
    ensures Stored(pages[c := LeafNode(leaf)], B, root, pend - {c}, p, [])
  {
    StoredAt(pages, A, root, pend, p, [], c);
    LeafApplied(pages[c], A[c], PendingAt(pend, c), leaf, A, root, c);
    B := ApplyToLeaf(A, root, c, Pairs(leaf));
    var pages', pend' := pages[c := LeafNode(leaf)], pend - {c};
    assert ContentOK(pages'[c], B[c], PendingAt(pend', c), c == root);
    assert forall x :: x != c ==> PendingAt(pend', x) == PendingAt(pend, x);
    assert KidsOK(B, root, c, pages'[c], []);
    hide *;
    forall x | x in pages' ensures PageOK(pages', B, root, pend', x, []) {
      if x == c {
        PageOKFrom(pages', B, root, pend', c);
      } else {
        StoredAt(pages, A, root, pend, p, [], x);
        SamePageOK(pages, pages', A, B, root, pend, pend', x);
      }
    }
    StoredKeys(pages, A, root, pend, p, []);
    StoredFrom(pages', B, root, pend', p, []);
  }

  lemma LeafApplied(n: Node, l: Label, pending: map<Key, Upsert>, leaf: Leaf, A: Labelling, root: PageId, c: PageId)
    requires Consistent(A, root) && c in A && l == A[c]
    requires n.LeafNode? && ContentOK(n, l, pending, c == root) && LeafOK(leaf)
    requires forall k: Key :: Get(Pairs(leaf), k) == ActOn(pending, k, Get(Pairs(n.leaf), k))
    ensures l.height == 0 && Applied(l, Pairs(leaf))
  {
    assert Linked(A, root, c);
    assert Base(l);
    var m := Pairs(leaf);
    hide LeafOK, HoldsPairs, Act;
    forall k | k in m ensures InRange(l, k) {
      assert Get(m, k) == ActOn(pending, k, Get(l.leaf, k));
    }
  }
}
