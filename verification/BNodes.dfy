/** The pages of the B-tree and how they agree with the labels. A write travels down as one
    message, from the root to the leaf that takes it; between two operations there is none. */
module BNodes {
  import opened Keys
  import opened Messages
  import opened MergeUpserts
  import opened Labels
  import opened Views
  import opened Leaves
  import opened LeafFlush
  import opened Kids
  import opened InsertPivots

  datatype NodeSizes = NodeSizes(leafN: nat, innerN: nat)

  /** What the splits assert, and what BNodeWrapper asserts statically. */
  predicate Supported(s: NodeSizes) { 2 <= s.leafN && 3 <= s.innerN && s.innerN % 2 == 1 }

  type SupportedSizes = s: NodeSizes | Supported(s) witness NodeSizes(2, 3)

  const SIZES: SupportedSizes

  datatype Node = LeafNode(leaf: Leaf) | InnerNode(pivots: seq<Key>, children: seq<PageId>)

  type Pages = map<PageId, Node>

  ghost predicate ContentOK(n: Node, l: Label) {
    match n
    case LeafNode(leaf) => l.height == 0 && LeafOK(leaf) && |leaf.keys| <= SIZES.leafN && Pairs(leaf) == l.leaf
    case InnerNode(pivots, _) => l.height > 0 && |pivots| <= SIZES.innerN
  }

  ghost predicate NodeOK(pages: Pages, A: Labelling, root: PageId, x: PageId)
    requires x in pages && x in A
  {
    ContentOK(pages[x], A[x]) && (pages[x].InnerNode? ==> AllKids(A, root, x, pages[x].pivots, pages[x].children))
  }

  /** Only page `at` has messages waiting, namely `m`. */
  ghost predicate OnlyAt(A: Labelling, at: PageId, m: map<Key, Upsert>) {
    forall x :: x in A ==> A[x].msgs == if x == at then m else map[]
  }

  /** All pages agree with the labels. */
  ghost predicate Stored(pages: Pages, A: Labelling, root: PageId, at: PageId, m: map<Key, Upsert>) {
    && Consistent(A, root) && pages.Keys == A.Keys && OnlyAt(A, at, m)
    && forall x :: x in pages ==> NodeOK(pages, A, root, x)
  }

  function Single(u: Upsert): (m: map<Key, Upsert>)
    ensures KeyedRight(m) && u.key in m && m[u.key] == u && m.Keys == {u.key}
  {
    map[u.key := u]
  }

  lemma StoredParts(pages: Pages, A: Labelling, root: PageId, at: PageId, m: map<Key, Upsert>)
    requires Stored(pages, A, root, at, m)
    ensures Consistent(A, root) && pages.Keys == A.Keys && OnlyAt(A, at, m) && root in A && root in pages
  {
  }

  lemma StoredFrom(pages: Pages, A: Labelling, root: PageId, at: PageId, m: map<Key, Upsert>)
    requires Consistent(A, root) && pages.Keys == A.Keys && OnlyAt(A, at, m)
    requires forall x :: x in pages ==> NodeOK(pages, A, root, x)
    ensures Stored(pages, A, root, at, m)
  {
  }

  lemma NodeAt(pages: Pages, A: Labelling, root: PageId, at: PageId, m: map<Key, Upsert>, x: PageId)
    requires Stored(pages, A, root, at, m) && x in pages
    ensures x in A && NodeOK(pages, A, root, x)
  {
  }

  lemma NodeFrom(pages: Pages, A: Labelling, root: PageId, x: PageId)
    requires x in pages && x in A && ContentOK(pages[x], A[x])
    requires pages[x].InnerNode? ==> AllKids(A, root, x, pages[x].pivots, pages[x].children)
    ensures NodeOK(pages, A, root, x)
  {
  }

  lemma LeafAt(pages: Pages, A: Labelling, root: PageId, at: PageId, m: map<Key, Upsert>, x: PageId)
    requires Stored(pages, A, root, at, m) && x in pages && pages[x].LeafNode?
    ensures x in A && A[x].height == 0 && LeafOK(pages[x].leaf) && |pages[x].leaf.keys| == |pages[x].leaf.values|
    ensures |pages[x].leaf.keys| <= SIZES.leafN && Pairs(pages[x].leaf) == A[x].leaf
  {
    NodeAt(pages, A, root, at, m, x);
  }

  lemma InnerAt(pages: Pages, A: Labelling, root: PageId, at: PageId, m: map<Key, Upsert>, x: PageId)
    requires Stored(pages, A, root, at, m) && x in pages && pages[x].InnerNode?
    ensures x in A && A[x].height > 0 && |pages[x].children| == |pages[x].pivots| + 1 && |pages[x].pivots| <= SIZES.innerN
    ensures AllKids(A, root, x, pages[x].pivots, pages[x].children)
  {
    NodeAt(pages, A, root, at, m, x);
  }

  /** The child a key is routed to. */
  lemma RoutedChild(pages: Pages, A: Labelling, root: PageId, at: PageId, m: map<Key, Upsert>, x: PageId, k: Key)
    requires Stored(pages, A, root, at, m) && x in pages && pages[x].InnerNode? && x in A && InRange(A[x], k)
    ensures |pages[x].children| == |pages[x].pivots| + 1
    ensures var i := LowerBound(pages[x].pivots, k);
            i < |pages[x].children| &&
            var c := pages[x].children[i];
            c in pages && c in A && c != root && c != x && A[c].parent == x && InRange(A[c], k) && A[c].height + 1 == A[x].height &&
            A[x].view[k].value == ActOn(A[x].msgs, k, A[c].view[k].value) &&
            (forall j :: 0 <= j < |pages[x].children| && pages[x].children[j] == c ==> j == i)
  {
    StoredParts(pages, A, root, at, m);
    InnerAt(pages, A, root, at, m, x);
    var n := pages[x];
    RouteInRange(A, root, x, n.pivots, n.children, k);
    var i := LowerBound(n.pivots, k);
    var c := n.children[i];
    hide Stored, AllKids;
    assert Kid(A, root, x, n.pivots, n.children, i);
    ParentTaller(A, root, c);
    assert Linked(A, root, c);
    assert Sees(A[x], A[c], k);
    hide Consistent;
    forall j | 0 <= j < |n.children| && n.children[j] == c ensures j == i {
      KidsDistinct(A, root, x, n.pivots, n.children, i, j);
    }
  }

  // ---- the message is told to the root --------------------------------------------------------

  ghost predicate SameShape(A: Labelling, B: Labelling) {
    && B.Keys == A.Keys
    && forall x :: x in A ==> B[x] == A[x].(msgs := B[x].msgs, view := B[x].view)
  }

  lemma SameShapeNodes(pages: Pages, A: Labelling, B: Labelling, root: PageId, at: PageId, m: map<Key, Upsert>, at': PageId, m': map<Key, Upsert>)
    requires Stored(pages, A, root, at, m) && SameShape(A, B) && Consistent(B, root) && OnlyAt(B, at', m')
    ensures Stored(pages, B, root, at', m')
  {
    hide Consistent, OnlyAt;
    forall x | x in pages ensures NodeOK(pages, B, root, x) {
      assert NodeOK(pages, A, root, x);
      if pages[x].InnerNode? {
        KidsOfSameShape(A, B, root, x, pages[x].pivots, pages[x].children);
      }
    }
  }

  lemma KidsOfSameShape(A: Labelling, B: Labelling, root: PageId, x: PageId, pivots: seq<Key>, children: seq<PageId>)
    requires x in A && AllKids(A, root, x, pivots, children) && SameShape(A, B)
    ensures x in B && AllKids(B, root, x, pivots, children)
  {
    forall i | 0 <= i < |children| ensures Kid(B, root, x, pivots, children, i) {
      assert Kid(A, root, x, pivots, children, i);
    }
  }

  lemma Tell(pages: Pages, A: Labelling, root: PageId, u: Upsert) returns (B: Labelling)
    requires Stored(pages, A, root, root, map[]) && root in A && A[root].view[u.key].newest < u.timeStamp
    ensures Stored(pages, B, root, root, Single(u)) && root in B && Told(A[root].view, u, B[root].view) && SameShape(A, B)
  {
    StoredParts(pages, A, root, root, map[]);
    B := MessageAtRoot(A, root, u);
    hide Consistent, Act, Stored;
    SameShapeNodes(pages, A, B, root, root, map[], root, Single(u));
  }

  // ---- the message moves down -----------------------------------------------------------------

  lemma MovedShape(A: Labelling, p: PageId, c: PageId, m: map<Key, Upsert>, B: Labelling)
    requires p in A && c in A && p != c && OnlyAt(A, p, m) && KeyedRight(A[c].msgs) && KeyedRight(m)
    requires B == A[p := Drained(A[p], m)][c := Filled(A[c], m)]
    ensures SameShape(A, B) && OnlyAt(B, c, m)
  {
    assert MergeMap(map[], m) == m;
    assert m - m.Keys == map[];
  }

  lemma Descend(pages: Pages, A: Labelling, root: PageId, p: PageId, c: PageId, u: Upsert) returns (B: Labelling)
    requires Stored(pages, A, root, p, Single(u)) && c in A && c != root && p in A && p != c && A[c].parent == p && InRange(A[c], u.key)
    ensures Stored(pages, B, root, c, Single(u)) && root in A && root in B && B[root].view == A[root].view && SameShape(A, B)
  {
    StoredParts(pages, A, root, p, Single(u));
    assert Movable(A[p], A[c], Single(u));
    hide Consistent, Drained, Filled, Movable, Stored;
    B := MoveDown(A, root, c, Single(u));
    MovedShape(A, p, c, Single(u), B);
    SameShapeNodes(pages, A, B, root, p, Single(u), c, Single(u));
  }

  // ---- a leaf takes the message ---------------------------------------------------------------

  lemma LeafTakes(l: Leaf, u: Upsert, tag: Label)
    requires LeafOK(l) && Pairs(l) == tag.leaf && tag.msgs == Single(u) && Base(tag) && tag.height == 0
    ensures LeafOK(Upserted(l, u)) && Labels.Applied(tag, Pairs(Upserted(l, u)))
  {
    UpsertedPairs(l, u);
    hide LeafOK, HoldsPairs, Upserted, Act;
    assert u.key in tag.msgs;
    var m := Pairs(Upserted(l, u));
    forall k: Key | InRange(tag, k) ensures Get(m, k) == ActOn(tag.msgs, k, Get(tag.leaf, k)) {
    }
  }

  lemma AppliedNodes(pages: Pages, A: Labelling, root: PageId, c: PageId, u: Upsert, leaf: Leaf, B: Labelling)
    requires Stored(pages, A, root, c, Single(u)) && c in A && c in pages && pages[c].LeafNode?
    requires LeafOK(leaf) && |leaf.keys| <= SIZES.leafN && B == A[c := WithLeaf(A[c], Pairs(leaf))] && Consistent(B, root)
    ensures Stored(pages[c := LeafNode(leaf)], B, root, root, map[])
  {
    var pages' := pages[c := LeafNode(leaf)];
    LeafAt(pages, A, root, c, Single(u), c);
    hide Consistent, LeafOK;
    forall x | x in pages' ensures NodeOK(pages', B, root, x) {
      assert NodeOK(pages, A, root, x);
      if x != c && pages[x].InnerNode? {
        SameRangesKids(A, B, root, x, pages[x].pivots, pages[x].children);
      }
    }
  }

  lemma SameRangesKids(A: Labelling, B: Labelling, root: PageId, x: PageId, pivots: seq<Key>, children: seq<PageId>)
    requires x in A && AllKids(A, root, x, pivots, children) && B.Keys >= A.Keys
    requires B[x].lo == A[x].lo && B[x].hi == A[x].hi
    requires forall c :: c in A && c != root && A[c].parent == x ==>
               B[c].lo == A[c].lo && B[c].hi == A[c].hi && B[c].parent == A[c].parent
    ensures AllKids(B, root, x, pivots, children)
  {
    forall i | 0 <= i < |children| ensures Kid(B, root, x, pivots, children, i) {
      assert Kid(A, root, x, pivots, children, i);
    }
  }

  lemma Land(pages: Pages, A: Labelling, root: PageId, c: PageId, u: Upsert) returns (B: Labelling)
    requires Stored(pages, A, root, c, Single(u)) && c in pages && pages[c].LeafNode?
    requires |pages[c].leaf.keys| == |pages[c].leaf.values| && |Upserted(pages[c].leaf, u).keys| <= SIZES.leafN
    ensures Stored(pages[c := LeafNode(Upserted(pages[c].leaf, u))], B, root, root, map[])
    ensures root in A && root in B && B[root].view == A[root].view
  {
    StoredParts(pages, A, root, c, Single(u));
    LeafAt(pages, A, root, c, Single(u), c);
    var l := pages[c].leaf;
    assert Linked(A, root, c);
    LeafTakes(l, u, A[c]);
    hide Consistent, LeafOK, Upserted, Stored;
    B := ApplyToLeaf(A, root, c, Pairs(Upserted(l, u)));
    AppliedNodes(pages, A, root, c, u, Upserted(l, u), B);
  }

  // ---- a child splits -------------------------------------------------------------------------

  /** The pages after child number `i` of `p`, page `c`, has split into `nl` and `nr` at `mid`. */
  function SplitPages(pages: Pages, p: PageId, i: nat, c: PageId, r: PageId, mid: Key, nl: Node, nr: Node): Pages
    requires p in pages && pages[p].InnerNode? && i < |pages[p].children| == |pages[p].pivots| + 1
  {
    pages[c := nl][r := nr][p := InnerNode(InsertAt(pages[p].pivots, i, mid), InsertAt(pages[p].children, i + 1, r))]
  }

  lemma SplitOnlyAt(A: Labelling, p: PageId, m: map<Key, Upsert>, c: PageId, r: PageId, mid: Key)
    requires OnlyAt(A, p, m) && c in A && r !in A && c != p
    ensures OnlyAt(Split(A, c, r, mid), p, m) || p !in A
  {
  }

  lemma SplitParent(A: Labelling, root: PageId, p: PageId, pivots: seq<Key>, children: seq<PageId>, i: nat, c: PageId, r: PageId, mid: Key)
    requires Consistent(A, root) && p in A && AllKids(A, root, p, pivots, children) && c in A && p != c && r !in A && r != root
    requires i < |children| && children[i] == c && forall j :: 0 <= j < |children| && children[j] == c ==> j == i
    ensures |children| == |pivots| + 1
    ensures AllKids(Split(A, c, r, mid), root, p, InsertAt(pivots, i, mid), InsertAt(children, i + 1, r))
  {
    var B, t := Split(A, c, r, mid), PivotTuple(i, mid, r);
    assert Kid(A, root, p, pivots, children, i);
    KidsPendingNone(A, root, p, pivots, children);
    assert [] + [t] == [t];
    assert KidsPending(B, root, p, pivots, children, [t]) by {
      SplitKidsPending(A, root, p, pivots, children, i, c, r, mid);
    }
    hide Consistent, Split;
    OnePivotInserted(pivots, children, t);
    KidsInserted(B, root, p, pivots, children, [t]);
  }

  lemma OnePivotInserted(pivots: seq<Key>, children: seq<PageId>, t: PivotTuple)
    requires |children| == |pivots| + 1 && t.index < |children|
    ensures IndexSorted([t]) && t.index <= |pivots|
    ensures PivotsWith(pivots, [t]) == InsertAt(pivots, t.index, t.key)
    ensures ChildrenWith(children, [t]) == InsertAt(children, t.index + 1, t.child)
  {
  }

  lemma KidsPendingNone(A: Labelling, root: PageId, p: PageId, pivots: seq<Key>, children: seq<PageId>)
    requires p in A && AllKids(A, root, p, pivots, children)
    ensures KidsPending(A, root, p, pivots, children, [])
  {
    assert Indices([]) == {};
  }

  lemma SplitKidsPending(A: Labelling, root: PageId, p: PageId, pivots: seq<Key>, children: seq<PageId>, i: nat, c: PageId, r: PageId, mid: Key)
    requires Consistent(A, root) && p in A && AllKids(A, root, p, pivots, children) && c in A && p != c && r !in A && r != root
    requires i < |children| && children[i] == c && forall j :: 0 <= j < |children| && children[j] == c ==> j == i
    ensures KidsPending(Split(A, c, r, mid), root, p, pivots, children, [PivotTuple(i, mid, r)])
  {
    var B, t := Split(A, c, r, mid), PivotTuple(i, mid, r);
    hide Consistent, LeftHalf, RightHalf;
    assert Kid(A, root, p, pivots, children, i);
    assert Indices([t]) == {i} by { assert t in [t]; }
    forall j | 0 <= j < |children| && j !in Indices([t]) ensures Kid(B, root, p, pivots, children, j) {
      assert Kid(A, root, p, pivots, children, j);
    }
  }

  lemma SplitOther(pages: Pages, A: Labelling, root: PageId, c: PageId, r: PageId, mid: Key, pages': Pages, x: PageId)
    requires x in pages && x in A && NodeOK(pages, A, root, x) && c in A && r !in A && x != c && x != r && c != root
    requires A[c].parent != x && x in pages' && pages'[x] == pages[x]
    ensures NodeOK(pages', Split(A, c, r, mid), root, x)
  {
    var B := Split(A, c, r, mid);
    hide LeftHalf, RightHalf, LeafOK;
    if pages[x].InnerNode? {
      SameRangesKids(A, B, root, x, pages[x].pivots, pages[x].children);
    }
  }

  /** A child splits while its parent holds the message; the parent lists the new page at once. */
  lemma SplitChild(pages: Pages, A: Labelling, root: PageId, p: PageId, m: map<Key, Upsert>, i: nat, c: PageId, r: PageId, mid: Key,
                   nl: Node, nr: Node) returns (B: Labelling)
    requires Stored(pages, A, root, p, m) && p in pages && pages[p].InnerNode? && |pages[p].pivots| < SIZES.innerN
    requires i < |pages[p].children| == |pages[p].pivots| + 1 && pages[p].children[i] == c && c != p && c != root
    requires forall j :: 0 <= j < |pages[p].children| && pages[p].children[j] == c ==> j == i
    requires c in A && A[c].parent == p && r !in A && Splittable(A, root, c, mid)
    requires ContentOK(nl, LeftHalf(A[c], mid)) && ContentOK(nr, RightHalf(A[c], mid))
    requires nl.InnerNode? ==> AllKids(Split(A, c, r, mid), root, c, nl.pivots, nl.children)
    requires nr.InnerNode? ==> AllKids(Split(A, c, r, mid), root, r, nr.pivots, nr.children)
    ensures B == Split(A, c, r, mid) && Stored(SplitPages(pages, p, i, c, r, mid, nl, nr), B, root, p, m)
    ensures root in A && root in B && B[root].view == A[root].view
  {
    StoredParts(pages, A, root, p, m);
    assert c in pages && r !in pages && r != root;
    InnerAt(pages, A, root, p, m, p);
    B := SplitPage(A, root, c, r, mid);
    SplitOnlyAt(A, p, m, c, r, mid);
    SplitParent(A, root, p, pages[p].pivots, pages[p].children, i, c, r, mid);
    SplitLabels(A, c, r, mid);
    hide *;
    SplitParentHeight(A, p, c, r, mid);
    SplitPagesAt(pages, p, i, c, r, mid, nl, nr);
    var pages' := SplitPages(pages, p, i, c, r, mid, nl, nr);
    forall x | x in pages' ensures NodeOK(pages', B, root, x) {
      if x == p {
        NodeAt(pages, A, root, p, m, p);
        GrownContent(pages, A, root, p, B[p], pages'[p]);
        NodeFrom(pages', B, root, p);
      } else if x == c || x == r {
        NodeFrom(pages', B, root, x);
      } else {
        NodeAt(pages, A, root, p, m, x);
        SplitOther(pages, A, root, c, r, mid, pages', x);
      }
    }
    StoredFrom(pages', B, root, p, m);
  }

  lemma SplitPagesAt(pages: Pages, p: PageId, i: nat, c: PageId, r: PageId, mid: Key, nl: Node, nr: Node)
    requires p in pages && pages[p].InnerNode? && i < |pages[p].children| == |pages[p].pivots| + 1
    requires c in pages && r !in pages && c != p
    ensures var q := SplitPages(pages, p, i, c, r, mid, nl, nr);
            q.Keys == pages.Keys + {r} && q[c] == nl && q[r] == nr &&
            q[p] == InnerNode(InsertAt(pages[p].pivots, i, mid), InsertAt(pages[p].children, i + 1, r)) &&
            |q[p].pivots| == |pages[p].pivots| + 1 &&
            forall x :: x in pages && x != p && x != c ==> q[x] == pages[x]
  {
  }

  lemma SplitParentHeight(A: Labelling, p: PageId, c: PageId, r: PageId, mid: Key)
    requires p in A && c in A && r !in A && p != c
    ensures Split(A, c, r, mid)[p].height == A[p].height
  {
  }

  lemma GrownContent(pages: Pages, A: Labelling, root: PageId, p: PageId, l: Label, n: Node)
    requires p in pages && p in A && NodeOK(pages, A, root, p) && pages[p].InnerNode? && l.height == A[p].height
    requires n.InnerNode? && |n.pivots| <= SIZES.innerN
    ensures ContentOK(n, l)
  {
  }

  lemma SplitLabels(A: Labelling, c: PageId, r: PageId, mid: Key)
    requires c in A && r !in A
    ensures Split(A, c, r, mid)[c] == LeftHalf(A[c], mid) && Split(A, c, r, mid)[r] == RightHalf(A[c], mid)
  {
  }

  // ---- how nodes split ------------------------------------------------------------------------

  lemma MiddleKey(l: Leaf)
    requires LeafOK(l) && 2 <= |l.keys|
    ensures var s := SplitIndex(|l.keys|);
            |l.keys| == |l.values| && s + 1 < |l.keys| && l.keys[s] in l.keys && l.keys[s] < l.keys[|l.keys| - 1] &&
            l.keys[|l.keys| - 1] in l.keys && UpperBound(l.keys, l.keys[s]) == s + 1
  {
    var s := SplitIndex(|l.keys|);
    UpperBoundUnique(l.keys, l.keys[s], s + 1);
  }

  lemma HalfContents(l: Leaf, tag: Label, mid: Key)
    requires LeafOK(l) && |l.keys| <= SIZES.leafN && Pairs(l) == tag.leaf && tag.height == 0
    ensures |l.keys| == |l.values|
    ensures ContentOK(LeafNode(SplitLeft(l, mid)), LeftHalf(tag, mid))
    ensures ContentOK(LeafNode(SplitRight(l, mid)), RightHalf(tag, mid))
  {
    SplitLeftPairs(l, mid);
    SplitRightPairs(l, mid);
    hide LeafOK, UpperBound, HoldsPairs;
  }

  /** The left half of a leaf keeps its middle key. */
  lemma LeafHalvesAt(l: Leaf, tag: Label)
    requires LeafOK(l) && 2 <= |l.keys| <= SIZES.leafN && Pairs(l) == tag.leaf && tag.height == 0 && Base(tag)
    ensures var s := SplitIndex(|l.keys|);
            |l.keys| == |l.values| && s + 1 < |l.keys| &&
            var mid := l.keys[s];
            tag.lo < mid < tag.hi && UpperBound(l.keys, mid) == s + 1 &&
            ContentOK(LeafNode(SplitLeft(l, mid)), LeftHalf(tag, mid)) &&
            ContentOK(LeafNode(SplitRight(l, mid)), RightHalf(tag, mid))
  {
    MiddleKey(l);
    PairsKeys(l);
    KeysInRange(tag);
    hide LeafOK, HoldsPairs, Base, ContentOK, UpperBound;
    HalfContents(l, tag, l.keys[SplitIndex(|l.keys|)]);
  }

  lemma KeysInRange(tag: Label)
    requires Base(tag)
    ensures forall k :: k in tag.leaf ==> InRange(tag, k)
  {
  }

  lemma LeafSplittable(A: Labelling, root: PageId, c: PageId, mid: Key)
    requires Consistent(A, root) && c in A && c != root && A[c].height == 0 && A[c].lo < mid < A[c].hi
    ensures Splittable(A, root, c, mid)
  {
    forall x | x in A && x != root ensures A[x].parent != c {
      ParentTaller(A, root, x);
    }
  }

  lemma LabelBase(A: Labelling, root: PageId, c: PageId)
    requires Consistent(A, root) && c in A
    ensures Base(A[c])
  {
    assert Linked(A, root, c);
  }

  /** A full leaf splits below its parent. */
  lemma SplitLeafChild(pages: Pages, A: Labelling, root: PageId, p: PageId, m: map<Key, Upsert>, i: nat, c: PageId, r: PageId) returns (B: Labelling)
    requires Stored(pages, A, root, p, m) && p in pages && pages[p].InnerNode? && |pages[p].pivots| < SIZES.innerN
    requires i < |pages[p].children| == |pages[p].pivots| + 1 && pages[p].children[i] == c && c != p && c != root
    requires forall j :: 0 <= j < |pages[p].children| && pages[p].children[j] == c ==> j == i
    requires c in A && c in pages && A[c].parent == p && r !in A && pages[c].LeafNode? && |pages[c].leaf.keys| >= 2
    ensures |pages[c].leaf.keys| == |pages[c].leaf.values|
    ensures var l := pages[c].leaf;
            var mid := l.keys[SplitIndex(|l.keys|)];
            B == Split(A, c, r, mid) &&
            Stored(SplitPages(pages, p, i, c, r, mid, LeafNode(SplitLeft(l, mid)), LeafNode(SplitRight(l, mid))), B, root, p, m)
    ensures root in A && root in B && B[root].view == A[root].view
  {
    hide *;
    StoredParts(pages, A, root, p, m);
    LeafAt(pages, A, root, p, m, c);
    LabelBase(A, root, c);
    var l := pages[c].leaf;
    LeafHalvesAt(l, A[c]);
    var mid := l.keys[SplitIndex(|l.keys|)];
    LeafSplittable(A, root, c, mid);
    B := SplitChild(pages, A, root, p, m, i, c, r, mid, LeafNode(SplitLeft(l, mid)), LeafNode(SplitRight(l, mid)));
  }

  lemma InnerHalvesAt(n: Node, l: Label, at: nat)
    requires n.InnerNode? && ContentOK(n, l) && at < |n.pivots| && |n.children| == |n.pivots| + 1
    ensures ContentOK(InnerNode(n.pivots[..at], n.children[..at + 1]), LeftHalf(l, n.pivots[at]))
    ensures ContentOK(InnerNode(n.pivots[at + 1..], n.children[at + 1..]), RightHalf(l, n.pivots[at]))
  {
  }

  /** A full inner node splits below its parent; its middle pivot moves up. */
  lemma SplitInnerChild(pages: Pages, A: Labelling, root: PageId, p: PageId, m: map<Key, Upsert>, i: nat, c: PageId, r: PageId, at: nat) returns (B: Labelling)
    requires Stored(pages, A, root, p, m) && p in pages && pages[p].InnerNode? && |pages[p].pivots| < SIZES.innerN
    requires i < |pages[p].children| == |pages[p].pivots| + 1 && pages[p].children[i] == c && c != p && c != root
    requires forall j :: 0 <= j < |pages[p].children| && pages[p].children[j] == c ==> j == i
    requires c in A && c in pages && A[c].parent == p && r !in A && pages[c].InnerNode? && at < |pages[c].pivots|
    ensures |pages[c].children| == |pages[c].pivots| + 1
    ensures var n := pages[c];
            B == Split(A, c, r, n.pivots[at]) &&
            Stored(SplitPages(pages, p, i, c, r, n.pivots[at], InnerNode(n.pivots[..at], n.children[..at + 1]),
                              InnerNode(n.pivots[at + 1..], n.children[at + 1..])), B, root, p, m)
    ensures root in A && root in B && B[root].view == A[root].view
  {
    hide *;
    StoredParts(pages, A, root, p, m);
    InnerAt(pages, A, root, p, m, c);
    ContentAt(pages, A, root, p, m, c);
    var n := pages[c];
    PivotSplittable(A, root, c, n.pivots, n.children, at);
    KidsSplit(A, root, c, r, n.pivots, n.children, at);
    InnerHalvesAt(n, A[c], at);
    B := SplitChild(pages, A, root, p, m, i, c, r, n.pivots[at], InnerNode(n.pivots[..at], n.children[..at + 1]),
                    InnerNode(n.pivots[at + 1..], n.children[at + 1..]));
  }

  lemma ContentAt(pages: Pages, A: Labelling, root: PageId, at: PageId, m: map<Key, Upsert>, x: PageId)
    requires Stored(pages, A, root, at, m) && x in pages
    ensures x in A && ContentOK(pages[x], A[x])
  {
    NodeAt(pages, A, root, at, m, x);
  }

  /** The key keeps being answered for by the half it is not above the middle key of. */
  lemma HalfRange(A: Labelling, c: PageId, r: PageId, mid: Key, k: Key)
    requires c in A && r !in A && InRange(A[c], k)
    ensures var B := Split(A, c, r, mid);
            B[c].parent == A[c].parent && B[r].parent == A[c].parent && B[c].height == A[c].height && B[r].height == A[c].height &&
            (k <= mid ==> InRange(B[c], k)) && (k > mid ==> InRange(B[r], k))
  {
  }

  // ---- the root grows -------------------------------------------------------------------------

  /** The pages after the root's content has moved to page `n` below a new root. */
  function GrownPages(pages: Pages, root: PageId, n: PageId): Pages
    requires root in pages
  {
    pages[n := pages[root]][root := InnerNode([], [n])]
  }

  lemma GrownPagesAt(pages: Pages, root: PageId, n: PageId)
    requires root in pages && n != root
    ensures var p := GrownPages(pages, root, n);
            p.Keys == pages.Keys + {n} && p[n] == pages[root] && p[root] == InnerNode([], [n]) &&
            forall x :: x in pages && x != root && x != n ==> p[x] == pages[x]
  {
  }

  lemma GrownAt(A: Labelling, root: PageId, n: PageId)
    requires root in A && n !in A
    ensures var B := Grown(A, root, n);
            B[n] == A[root].(parent := root) &&
            B[root] == A[root].(height := A[root].height + 1, msgs := map[], leaf := map[]) &&
            (forall x :: x in A && x != root ==> B[x] == A[x].(parent := if A[x].parent == root then n else A[x].parent))
  {
  }

  lemma GrownOnlyAt(A: Labelling, root: PageId, n: PageId)
    requires root in A && n !in A && OnlyAt(A, root, map[])
    ensures OnlyAt(Grown(A, root, n), root, map[])
  {
  }

  lemma GrownOther(pages: Pages, A: Labelling, root: PageId, n: PageId, pages': Pages, x: PageId)
    requires x in pages && x in A && x != root && NodeOK(pages, A, root, x) && root in A && n !in A
    requires x in pages' && pages'[x] == pages[x]
    ensures NodeOK(pages', Grown(A, root, n), root, x)
  {
    var B := Grown(A, root, n);
    GrownAt(A, root, n);
    hide LeafOK, Grown;
    if pages[x].InnerNode? {
      SameRangesKids(A, B, root, x, pages[x].pivots, pages[x].children);
    }
  }

  lemma GrownChild(pages: Pages, A: Labelling, root: PageId, n: PageId, pages': Pages)
    requires root in pages && root in A && NodeOK(pages, A, root, root) && n !in A
    requires n in pages' && pages'[n] == pages[root]
    ensures NodeOK(pages', Grown(A, root, n), root, n)
  {
    var B := Grown(A, root, n);
    GrownAt(A, root, n);
    hide LeafOK, Grown;
    if pages[root].InnerNode? {
      forall i | 0 <= i < |pages[root].children| ensures Kid(B, root, n, pages[root].pivots, pages[root].children, i) {
        assert Kid(A, root, root, pages[root].pivots, pages[root].children, i);
      }
    }
  }

  /** The root's content moves to a new page below it. */
  lemma GrowRoot(pages: Pages, A: Labelling, root: PageId, n: PageId) returns (B: Labelling)
    requires Stored(pages, A, root, root, map[]) && root in pages && n !in pages
    ensures Stored(GrownPages(pages, root, n), B, root, root, map[])
    ensures root in A && root in B && B[root].view == A[root].view
    ensures n in B && B[n].parent == root && B[n].lo == -1 && B[n].hi == MAX_KEY && n != root
  {
    StoredParts(pages, A, root, root, map[]);
    B := GrowLevel(A, root, n);
    GrownAt(A, root, n);
    GrownOnlyAt(A, root, n);
    GrownPagesAt(pages, root, n);
    var pages' := GrownPages(pages, root, n);
    assert AllKids(B, root, root, [], [n]) by { assert Kid(B, root, root, [], [n], 0); }
    assert ContentOK(pages'[root], B[root]);
    assert A[root].lo == -1 && A[root].hi == MAX_KEY;
    hide *;
    forall x | x in pages' ensures NodeOK(pages', B, root, x) {
      if x == root {
        NodeFrom(pages', B, root, root);
      } else if x == n {
        NodeAt(pages, A, root, root, map[], root);
        GrownChild(pages, A, root, n, pages');
      } else {
        NodeAt(pages, A, root, root, map[], x);
        GrownOther(pages, A, root, n, pages', x);
      }
    }
    StoredFrom(pages', B, root, root, map[]);
  }
}
