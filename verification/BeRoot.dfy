/** A message enters the tree at its root: how it reaches the root's child, which stores it, applies
    it, splits, or passes older messages on. */
module BeRoot {
  import opened Keys
  import opened Messages
  import opened MergeUpserts
  import opened Labels
  import opened Views
  import opened Leaves
  import opened LeafFlush
  import opened Kids
  import opened InsertPivots
  import opened BeSizes
  import opened BeNodes
  import opened BeFlush
  import opened BeCascade
  import opened BeServe
  import opened BeTraversal
  import opened RemoveMessages
  import Median

  /** Between two operations nothing is pending. */
  ghost predicate Whole(pages: Pages, A: Labelling, root: PageId) {
    Consistent(A, root) && Stored(pages, A, root, map[], root, [])
  }

  function Single(u: Upsert): (m: map<Key, Upsert>)
    ensures KeyedRight(m)
  {
    map[u.key := u]
  }

  /** The message is newer than whatever was told about its key before. */
  ghost predicate Newer(A: Labelling, root: PageId, u: Upsert) {
    root in A && A[root].view[u.key].newest < u.timeStamp
  }

  lemma WholeParts(pages: Pages, A: Labelling, root: PageId)
    requires Whole(pages, A, root)
    ensures Consistent(A, root) && Stored(pages, A, root, map[], root, []) && root in A && root in pages
  {
  }

  lemma WholeFrom(pages: Pages, A: Labelling, root: PageId)
    requires Consistent(A, root) && Stored(pages, A, root, map[], root, [])
    ensures Whole(pages, A, root)
  {
  }

  // ---- the message arrives --------------------------------------------------------------------

  lemma RootContent(n: Node, l: Label, u: Upsert)
    requires ContentOK(n, l, map[], true)
    ensures l.msgs == map[]
    ensures ContentOK(n, WithMessage(l, u), Single(u), true)
  {
    hide Act;
  }

  lemma WithMessageKeeps(A: Labelling, root: PageId, u: Upsert)
    requires root in A
    ensures var B := A[root := WithMessage(A[root], u)];
            Told(A[root].view, u, B[root].view) &&
            forall x :: x in A ==> B[x].lo == A[x].lo && B[x].hi == A[x].hi && B[x].parent == A[x].parent && B[x].height == A[x].height
  {
    hide Act;
  }

  /** A message that has just been told to the tree is pending on the root. */
  lemma RootTakes(pages: Pages, A: Labelling, root: PageId, u: Upsert) returns (B: Labelling)
    requires Whole(pages, A, root) && Newer(A, root, u)
    ensures root in A && B == A[root := WithMessage(A[root], u)] && Consistent(B, root)
    ensures Told(A[root].view, u, B[root].view)
    ensures Stored(pages, B, root, map[root := Single(u)], root, [])
  {
    WholeParts(pages, A, root);
    StoredAt(pages, A, root, map[], root, [], root);
    PageOKParts(pages, A, root, map[], root, []);
    RootContent(pages[root], A[root], u);
    B := MessageAtRoot(A, root, u);
    WithMessageKeeps(A, root, u);
    StoredKeys(pages, A, root, map[], root, []);
    var pend := map[root := Single(u)];
    hide *;
    forall x | x in pages ensures PageOK(pages, B, root, pend, x, []) {
      StoredAt(pages, A, root, map[], root, [], x);
      if x == root {
        RootPageOK(pages, A, B, root, pend, u);
      } else {
        PendingElsewhereIs(pend, root, x);
        SamePageOK(pages, pages, A, B, root, map[], pend, x);
      }
    }
    StoredFrom(pages, B, root, pend, root, []);
  }

  lemma PendingElsewhereIs(pend: Pending, root: PageId, x: PageId)
    requires pend.Keys == {root} && x != root
    ensures PendingAt(pend, x) == PendingAt(map[], x)
  {
  }

  lemma RootPageOK(pages: Pages, A: Labelling, B: Labelling, root: PageId, pend: Pending, u: Upsert)
    requires root in pages && root in A && PageOK(pages, A, root, map[], root, [])
    requires B == A[root := WithMessage(A[root], u)] && pend == map[root := Single(u)]
    ensures PageOK(pages, B, root, pend, root, [])
  {
    RootContent(pages[root], A[root], u);
    WithMessageKeeps(A, root, u);
    hide ContentOK, KidsPending, WithMessage;
    if !pages[root].LeafNode? {
      KidsPendingFrame(A, B, root, root, pages[root].pivots, pages[root].children, []);
    }
  }

  // ---- the child the message is routed to -----------------------------------------------------

  /** What is known of the root's child that answers for key `k`. */
  ghost predicate RootChild(pages: Pages, A: Labelling, root: PageId, k: Key, i: nat, c: PageId) {
    && root in pages && pages[root].RootNode? && root in A
    && OnlyAt(pages[root].children, [], i, c)
    && |pages[root].children| == |pages[root].pivots| + 1 && |pages[root].pivots| <= SIZES.rootN
    && c in pages && c in A && c != root && A[c].parent == root && InRange(A[c], k)
    && !pages[c].RootNode? && ContentOK(pages[c], A[c], map[], false) && KidsOK(A, root, c, pages[c], [])
    && A[c].view[k].newest <= A[root].view[k].newest && KeyedRight(A[c].msgs)
    && (forall q :: q in A[c].msgs ==> A[c].msgs[q].timeStamp <= A[c].view[q].newest)
  }

  lemma RootNodeSize(n: Node, l: Label)
    requires ContentOK(n, l, map[], true) && n.RootNode?
    ensures |n.pivots| <= SIZES.rootN
  {
  }

  lemma LinkedSees(A: Labelling, root: PageId, c: PageId, k: Key)
    requires Consistent(A, root) && c in A && c != root && InRange(A[c], k)
    ensures A[c].parent in A && A[c].view[k].newest <= A[A[c].parent].view[k].newest
    ensures KeyedRight(A[c].msgs)
    ensures forall q :: q in A[c].msgs ==> A[c].msgs[q].timeStamp <= A[c].view[q].newest
  {
    assert Linked(A, root, c);
    assert Sees(A[A[c].parent], A[c], k);
  }

  lemma OnlyHere(children: seq<PageId>, i: nat)
    requires NoDuplicates(children) && i < |children|
    ensures OnlyAt(children, [], i, children[i])
  {
  }

  /** The root's lower bound for a key finds the child that answers for it. */
  lemma RootRoutes(pages: Pages, A: Labelling, root: PageId, k: Key)
    requires Whole(pages, A, root) && root in pages && pages[root].RootNode?
    ensures var i := LowerBound(pages[root].pivots, k);
            i < |pages[root].children| && RootChild(pages, A, root, k, i, pages[root].children[i])
  {
    hide *;
    WholeParts(pages, A, root);
    NodeKids(pages, A, root, map[], root);
    var n := pages[root];
    var i := LowerBound(n.pivots, k);
    WholeRange(A, root, k);
    RouteInRange(A, root, root, n.pivots, n.children, k);
    KidsLength(A, root, root, n.pivots, n.children);
    var c := n.children[i];
    OnlyHere(n.children, i);
    StoredKeys(pages, A, root, map[], root, []);
    StoredAt(pages, A, root, map[], root, [], c);
    StoredAt(pages, A, root, map[], root, [], root);
    PageOKParts(pages, A, root, map[], root, []);
    PageOKParts(pages, A, root, map[], c, []);
    NothingPendingAt(map[], c);
    NothingPendingAt(map[], root);
    RootNodeSize(n, A[root]);
    NotARoot(pages[c], A[c]);
    KidsOKPart(pages, A, root, map[], c, []);
    LinkedSees(A, root, c, k);
    RootChildFrom(pages, A, root, k, i, c);
  }

  lemma WholeRange(A: Labelling, root: PageId, k: Key)
    requires Consistent(A, root)
    ensures root in A && InRange(A[root], k)
  {
  }

  lemma RootChildFrom(pages: Pages, A: Labelling, root: PageId, k: Key, i: nat, c: PageId)
    requires root in pages && pages[root].RootNode? && root in A
    requires OnlyAt(pages[root].children, [], i, c)
    requires |pages[root].children| == |pages[root].pivots| + 1 && |pages[root].pivots| <= SIZES.rootN
    requires c in pages && c in A && c != root && A[c].parent == root && InRange(A[c], k)
    requires !pages[c].RootNode? && ContentOK(pages[c], A[c], map[], false) && KidsOK(A, root, c, pages[c], [])
    requires A[c].view[k].newest <= A[root].view[k].newest && KeyedRight(A[c].msgs)
    requires forall q :: q in A[c].msgs ==> A[c].msgs[q].timeStamp <= A[c].view[q].newest
    ensures RootChild(pages, A, root, k, i, c)
  {
  }

  lemma RootChildParts(pages: Pages, A: Labelling, root: PageId, k: Key, i: nat, c: PageId)
    requires RootChild(pages, A, root, k, i, c)
    ensures root in pages && pages[root].RootNode? && root in A
    ensures OnlyAt(pages[root].children, [], i, c) && i < |pages[root].children| && pages[root].children[i] == c
    ensures |pages[root].children| == |pages[root].pivots| + 1 && |pages[root].pivots| <= SIZES.rootN
    ensures c in pages && c in A && c != root && A[c].parent == root && InRange(A[c], k)
    ensures !pages[c].RootNode? && ContentOK(pages[c], A[c], map[], false) && KidsOK(A, root, c, pages[c], [])
    ensures A[c].view[k].newest <= A[root].view[k].newest && KeyedRight(A[c].msgs)
    ensures forall q :: q in A[c].msgs ==> A[c].msgs[q].timeStamp <= A[c].view[q].newest
  {
  }

  // ---- the child takes the message ------------------------------------------------------------

  lemma PartOfItself(m: map<Key, Upsert>)
    ensures PartOf(m, m)
  {
  }

  lemma PendingOnRoot(root: PageId, m: map<Key, Upsert>)
    ensures PendingAt(map[root := m], root) == m
  {
  }

  lemma RootEmptied(root: PageId, m: map<Key, Upsert>, c: PageId, gone: map<Key, Upsert>)
    requires c != root
    ensures var pend := Passed(map[root := m], root, m, c, gone);
            var pend' := if gone == map[] then map[] else map[c := gone];
            pend'.Keys <= pend.Keys && forall x :: PendingAt(pend', x) == PendingAt(pend, x)
  {
    assert m - m.Keys == map[];
  }

  lemma TakenAndFilled(A: Labelling, root: PageId, u: Upsert, c: PageId, B: Labelling)
    requires root in A && c in A && c != root && KeyedRight(A[c].msgs)
    requires var A1 := A[root := WithMessage(A[root], u)];
             B == A1[root := Drained(A1[root], Single(u))][c := Filled(A1[c], Single(u))]
    ensures B.Keys == A.Keys && B[c] == Filled(A[c], Single(u))
    ensures forall x :: x in A ==> B[x].lo == A[x].lo && B[x].hi == A[x].hi && B[x].parent == A[x].parent && B[x].height == A[x].height
    ensures forall x :: x in A && x != root && x != c ==> B[x] == A[x]
  {
    hide Drained, Filled, WithMessage, KeyedRight;
    WithMessageKeeps(A, root, u);
  }

  ghost predicate SameShape(A: Labelling, B: Labelling) {
    && B.Keys == A.Keys
    && forall x :: x in A ==> B[x].lo == A[x].lo && B[x].hi == A[x].hi && B[x].parent == A[x].parent && B[x].height == A[x].height
  }

  /** The new message moves on to child `c`, whose page becomes `n` with `gone` on its way. */
  lemma RootPasses(pages: Pages, A: Labelling, root: PageId, u: Upsert, i: nat, c: PageId, n: Node, gone: map<Key, Upsert>)
    returns (B: Labelling)
    requires Whole(pages, A, root) && Newer(A, root, u) && RootChild(pages, A, root, u.key, i, c)
    requires c in pages && c in A && KeyedRight(A[c].msgs)
    requires SameKids(pages[c], n) && ContentOK(n, Filled(A[c], Single(u)), gone, false)
    ensures root in A && root in B && Consistent(B, root) && Told(A[root].view, u, B[root].view)
    ensures Stored(pages[c := n], B, root, if gone == map[] then map[] else map[c := gone], root, [])
    ensures SameShape(A, B) && c in B && B[c] == Filled(A[c], Single(u))
    ensures forall x :: x in A && x != root && x != c ==> B[x] == A[x]
  {
    hide *;
    WholeParts(pages, A, root);
    RootChildParts(pages, A, root, u.key, i, c);
    var A1 := RootTakes(pages, A, root, u);
    WithMessageKeeps(A, root, u);
    var m, pend := Single(u), map[root := Single(u)];
    PendingOnRoot(root, m);
    PartOfItself(m);
    SingleInRange(A1[c], u);
    B := FlushStep(pages, A1, root, pend, root, [], c, m, n, gone);
    RootEmptied(root, m, c, gone);
    var pend' := if gone == map[] then map[] else map[c := gone];
    StoredSamePending(pages[c := n], B, root, Passed(pend, root, m, c, gone), pend');
    TakenAndFilled(A, root, u, c, B);
    ConsistentRoot(B, root);
    ToldThrough(A[root].view, u, A1[root].view, B[root].view);
    SameShapeFrom(A, B);
  }

  lemma SameShapeFrom(A: Labelling, B: Labelling)
    requires B.Keys == A.Keys
    requires forall x :: x in A ==> B[x].lo == A[x].lo && B[x].hi == A[x].hi && B[x].parent == A[x].parent && B[x].height == A[x].height
    ensures SameShape(A, B)
  {
  }

  lemma SingleInRange(l: Label, u: Upsert)
    requires InRange(l, u.key)
    ensures forall k :: k in Single(u) ==> InRange(l, k)
  {
  }
}
