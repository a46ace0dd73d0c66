/** The Bε-tree: a store of pages that behaves as a map, however its messages are buffered,
    squashed, flushed and split. */
module BeTrees {
  import opened Keys
  import opened Messages
  import opened Labels
  import opened Views
  import opened Leaves
  import opened LeafFlush
  import opened Kids
  import opened InsertPivots
  import opened BeSizes
  import opened BeNodes
  import opened BeFlush
  import opened BeCascade
  import opened BeServe
  import opened BeTraversal
  import opened BeRoot
  import opened BeRootUpsert
  import opened BeRootLeaf
  import opened BeRootSplit
  import opened BeMeaning
  import opened BeStructure
  import opened BeUpdates
  import opened BePins
  import opened BeSplits
  import opened BeRewrites
  import opened PlainMap
  import opened PinnedPages
  import opened RemoveMessages
  import RootChunks
  import MergeUpserts
  import Median

  /** Pages keep their height while other pages are created. */
  ghost predicate HeightsKept(A: Labelling, B: Labelling) {
    A.Keys <= B.Keys && forall x :: x in A ==> B[x].height == A[x].height
  }

  /** Heights and the root's view are kept: nothing has changed for a reader of the tree. */
  ghost predicate Kept(A: Labelling, B: Labelling, root: PageId) {
    root in A && root in B && B[root].view == A[root].view && HeightsKept(A, B)
  }

  lemma KeptSelf(A: Labelling, root: PageId)
    requires root in A
    ensures Kept(A, A, root)
  {
  }

  lemma KeptChain(A: Labelling, B: Labelling, C: Labelling, root: PageId)
    requires Kept(A, B, root) && Kept(B, C, root)
    ensures Kept(A, C, root)
  {
  }

  ghost predicate EntriesAt(A: Labelling, qs: seq<Entry>, h: int) {
    forall e :: e in qs ==> e.page in A && A[e.page].height == h
  }

  lemma TouchedKept(A: Labelling, pend: Pending, B: Labelling, root: PageId, p: PageId, c: PageId, created: set<PageId>)
    requires LabelsTouched(A, pend, B, p, c, created)
    requires root in A && root in B && B[root].view == A[root].view
    ensures Kept(A, B, root)
  {
  }

  lemma TouchedEntries(A: Labelling, pend: Pending, B: Labelling, p: PageId, c: PageId, created: set<PageId>, qs: seq<Entry>)
    requires LabelsTouched(A, pend, B, p, c, created)
    requires forall e :: e in qs ==> e.page in {c} + created
    ensures p in A && EntriesAt(B, qs, A[p].height - 1)
  {
  }

  /** The queue has grown by entries for nodes at height `h`. */
  ghost predicate Appended(A: Labelling, queue: seq<Entry>, queue': seq<Entry>, h: int) {
    && |queue| <= |queue'| && queue'[..|queue|] == queue
    && forall i :: |queue| <= i < |queue'| ==> queue'[i].page in A && A[queue'[i].page].height == h
  }

  lemma AppendedSelf(A: Labelling, queue: seq<Entry>, h: int)
    ensures Appended(A, queue, queue, h)
  {
  }

  lemma AppendedMore(A: Labelling, B: Labelling, queue: seq<Entry>, q1: seq<Entry>, qs: seq<Entry>, h: int)
    requires Appended(A, queue, q1, h) && HeightsKept(A, B) && EntriesAt(B, qs, h)
    ensures Appended(B, queue, q1 + qs, h)
  {
    var q := q1 + qs;
    forall i | |queue| <= i < |q| ensures q[i].page in B && B[q[i].page].height == h {
      if i >= |q1| { assert qs[i - |q1|] in qs; }
    }
  }

  lemma AppendedLevels(A: Labelling, B: Labelling, e: Entry, queue: seq<Entry>, level: nat, front: nat, queue': seq<Entry>)
    requires Leveled(A, [e] + queue, level, front) && front > 0 && level > 0
    requires HeightsKept(A, B) && Appended(B, queue, queue', level - 1)
    ensures Leveled(B, queue', level, front - 1)
  {
    LevelsAfterEntry(A, B, e, queue, level, front, queue');
  }

  /** A buffer with room for all messages rearranges to the plain merge. */
  lemma MergedIsRearranged(upserts: seq<Upsert>, pivots: seq<Key>, msgs: seq<Upsert>, merged: seq<Upsert>)
    requires Sorted(upserts) && Sorted(msgs) && Sorted(merged) && |merged| <= SIZES.innerBN
    requires KeyedRight(MapOf(upserts)) && KeyedRight(MapOf(msgs))
    requires MapOf(merged) == MergeMap(MapOf(upserts), MapOf(msgs))
    ensures Rearranged(upserts, pivots, msgs, merged, map[], map[])
  {
    hide Sorted, Holds, MergeMap, KeyedRight;
    assert map[] + MapOf(merged) == MapOf(merged);
  }

  lemma RemovedIsRearranged(upserts: seq<Upsert>, pivots: seq<Key>, msgs: seq<Upsert>, rest: seq<Upsert>, flushed: MessageMap, gone: map<Key, Upsert>)
    requires Sorted(upserts) && Sorted(msgs) && KeyedRight(MapOf(upserts)) && KeyedRight(MapOf(msgs))
    requires Sorted(rest) && |rest| <= SIZES.innerBN && gone.Keys !! MapOf(rest).Keys
    requires gone + MapOf(rest) == MergeMap(MapOf(upserts), MapOf(msgs))
    requires Carries(pivots, flushed, gone)
    requires forall c :: c in flushed ==> |flushed[c]| <= MAX_FLUSH_SIZE
    ensures Rearranged(upserts, pivots, msgs, rest, flushed, gone)
  {
  }

  lemma RemovedOne(rem: MessageMap, i: nat)
    requires i in rem
    ensures |rem - {i}| < |rem|
  {
    assert (rem - {i}).Keys == rem.Keys - {i};
    assert |rem.Keys - {i}| == |rem.Keys| - 1;
    assert |(rem - {i}).Keys| == |rem - {i}|;
    assert |rem.Keys| == |rem|;
  }

  lemma Sizes()
    ensures MAX_FLUSH_SIZE == SIZES.leafN - 1 && 3 <= SIZES.leafN && 1 <= SIZES.innerBN <= SIZES.leafN
    ensures 3 <= SIZES.innerN && 1 <= SIZES.rootN
  {
  }

  lemma FanOuts()
    ensures 3 <= SIZES.innerN && SIZES.innerN % 2 == 1 && 1 <= SIZES.rootN && SIZES.rootN % (SIZES.innerN / 2 + 1) != 0
  {
  }

  lemma CascadeOver(pages: Pages, A: Labelling, root: PageId, pend: Pending)
    requires Cascading(pages, A, root, pend, [])
    ensures Whole(pages, A, root)
  {
    assert QueuePages([]) == {};
    assert pend == map[];
  }

  lemma CascadingParts(pages: Pages, A: Labelling, root: PageId, pend: Pending, queue: seq<Entry>)
    requires Cascading(pages, A, root, pend, queue)
    ensures Consistent(A, root) && Stored(pages, A, root, pend, root, [])
  {
  }

  lemma HeightOfRoot(pages: Pages, A: Labelling, root: PageId, pend: Pending)
    requires Stored(pages, A, root, pend, root, []) && root in pages && pages[root].RootNode?
    ensures root in A && A[root].height > 0
  {
    StoredAt(pages, A, root, pend, root, [], root);
  }

  lemma HighRootIsRootNode(pages: Pages, A: Labelling, root: PageId)
    requires Whole(pages, A, root) && root in A && A[root].height > 0
    ensures root in pages && pages[root].RootNode?
  {
    WholeParts(pages, A, root);
    NodeParts(pages, A, root, root);
  }

  /** The root's child has to split before it can take the message: a full leaf before an insertion,
      a full inner node whose full buffer has no message for the key. */
  predicate ChildMustSplit(n: Node, u: Upsert) {
    match n
    case LeafNode(leaf) => u.kind.INSERT? && |leaf.keys| == SIZES.leafN
    case InnerNode(upserts, pivots, _) =>
      MessageFor(upserts, u.key).None? && |upserts| >= SIZES.innerBN && |pivots| + 1 > SIZES.innerN
    case RootNode(_, _) => false
  }

  /** The root node or its child for the message has to split. */
  predicate MustSplit(pages: Pages, root: PageId, u: Upsert) {
    root in pages && pages[root].RootNode? &&
    (|pages[root].pivots| == SIZES.rootN ||
     var i := LowerBound(pages[root].pivots, u.key);
     i < |pages[root].children| && pages[root].children[i] in pages && ChildMustSplit(pages[pages[root].children[i]], u))
  }

  /** Where a child of the root is cut: a leaf above the median of its keys and the message's, an inner
      node at its middle pivot. */
  ghost predicate CutAtKey(n: Node, u: Upsert, mid: Key) {
    match n
    case LeafNode(l) => Median.HasRank(l.keys, [u.key], mid, (|l.keys| + 2) / 2)
    case InnerNode(_, pivots, _) =>
      |pivots| >= 2 && SplitIndex(|pivots|) < |pivots| && mid == pivots[SplitIndex(|pivots|)]
    case RootNode(_, _) => false
  }

  /** The root has one more pivot, and a new page behind its child at index `i`. */
  ghost predicate RootGained(pages: Pages, root: PageId, i: nat, mid: Key, r: PageId, pages': Pages) {
    && root in pages && pages[root].RootNode? && i < |pages[root].children| == |pages[root].pivots| + 1
    && r !in pages && root in pages'
    && pages'[root] == RootNode(InsertAt(pages[root].pivots, i, mid), InsertAt(pages[root].children, i + 1, r))
  }

  /** The root when its child for the message has taken it: it has gained the separator of the child's
      halves if the child had to split, and is as it was otherwise. */
  ghost predicate RootThen(pages: Pages, root: PageId, u: Upsert, pages': Pages) {
    && root in pages && pages[root].RootNode?
    && var i := LowerBound(pages[root].pivots, u.key);
       i < |pages[root].children| && pages[root].children[i] in pages &&
       var n := pages[pages[root].children[i]];
       if ChildMustSplit(n, u) then exists mid, r :: CutAtKey(n, u, mid) && RootGained(pages, root, i, mid, r, pages')
       else root in pages' && pages'[root] == pages[root]
  }

  /** A full root is cut into chunks of INNER_N/2 pivots first, and no other root is. */
  ghost predicate CutIfFull(pages: Pages, root: PageId, cut: Pages) {
    && root in pages && pages[root].RootNode? && |pages[root].children| == |pages[root].pivots| + 1
    && var ps, cs, step := pages[root].pivots, pages[root].children, SIZES.innerN / 2;
       step > 0 &&
       if |ps| == SIZES.rootN then exists ids :: CutPages(pages, root, cut, ids, RootChunks.Chunks(ps, cs, step), RootChunks.Separators(ps, step))
       else cut == pages
  }

  /** What a message makes of the root. */
  ghost predicate RootUpserted(pages: Pages, root: PageId, u: Upsert, pages': Pages) {
    exists cut :: CutIfFull(pages, root, cut) && RootThen(cut, root, u, pages')
  }

  /** No root node has changed. */
  ghost predicate RootsStay(pages: Pages, pages': Pages) {
    forall x :: x in pages && pages[x].RootNode? ==> x in pages' && pages'[x] == pages[x]
  }

  /** Only leaves have changed. */
  ghost predicate NodesStay(pages: Pages, pages': Pages) {
    forall x :: x in pages && !pages[x].LeafNode? ==> x in pages' && pages'[x] == pages[x]
  }

  /** Root nodes are as they were, and inner nodes at the given height and above hold the same messages. */
  ghost predicate Undisturbed(A: Labelling, level: nat, pages: Pages, pages': Pages) {
    RootsStay(pages, pages') && BuffersStay(A, level, pages, pages')
  }

  ghost predicate BuffersStay(A: Labelling, level: nat, pages: Pages, pages': Pages) {
    forall x :: x in pages && pages[x].InnerNode? && x in A && A[x].height >= level ==>
      x in pages' && pages'[x].InnerNode? && pages'[x].upserts == pages[x].upserts
  }

  lemma Stayed(P: Pages)
    ensures NodesStay(P, P)
    ensures forall A, level :: Undisturbed(A, level, P, P)
  {
  }

  lemma NodesStayOn(P: Pages, Q: Pages, R: Pages)
    requires NodesStay(P, Q) && NodesStay(Q, R)
    ensures NodesStay(P, R)
  {
  }

  lemma LeafRewritten(P: Pages, p: PageId, n: Node)
    requires p in P && P[p].LeafNode?
    ensures NodesStay(P, P[p := n])
  {
  }

  lemma UndisturbedOn(A: Labelling, level: nat, P: Pages, Q: Pages, R: Pages)
    requires Undisturbed(A, level, P, Q) && Undisturbed(A, level, Q, R)
    ensures Undisturbed(A, level, P, R)
  {
  }

  lemma UndisturbedByLeaves(A: Labelling, level: nat, P: Pages, Q: Pages, R: Pages)
    requires Undisturbed(A, level, P, Q) && NodesStay(Q, R)
    ensures Undisturbed(A, level, P, R)
  {
  }

  lemma UndisturbedAbove(A: Labelling, level: nat, A1: Labelling, level1: nat, root: PageId, P: Pages, Q: Pages, R: Pages)
    requires Undisturbed(A, level, P, Q) && Kept(A, A1, root) && level1 <= level && Undisturbed(A1, level1, Q, R)
    ensures Undisturbed(A, level, P, R)
  {
  }

  lemma UndisturbedByNode(A: Labelling, level: nat, P: Pages, Q: Pages, p: PageId, ps: seq<Key>, cs: seq<PageId>)
    requires Undisturbed(A, level, P, Q) && p in Q && Q[p].InnerNode?
    ensures Undisturbed(A, level, P, Q[p := WithPivots(Q[p], ps, cs)])
  {
  }

  lemma UndisturbedByChild(A: Labelling, B: Labelling, level: nat, root: PageId, P: Pages, Q: Pages, i: nat, c: PageId, msgs: seq<Upsert>,
                           ts: seq<PivotTuple>, R: Pages, ts': seq<PivotTuple>)
    requires Undisturbed(A, level, P, Q) && ChildServed(Q, i, c, msgs, ts, R, ts')
    requires Kept(A, B, root) && c in B && B[c].height < level
    ensures Undisturbed(A, level, P, R)
  {
    RootsServed(Q, i, c, msgs, ts, R, ts');
    hide HasToSplit, Halves, Unsplit;
    assert BuffersStay(A, level, Q, R);
  }

  lemma RootsServed(P: Pages, i: nat, c: PageId, msgs: seq<Upsert>, ts: seq<PivotTuple>, Q: Pages, ts': seq<PivotTuple>)
    requires ChildServed(P, i, c, msgs, ts, Q, ts')
    ensures RootsStay(P, Q)
  {
  }

  lemma UndisturbedRoot(A: Labelling, level: nat, P: Pages, root: PageId, u: Upsert, Q: Pages, R: Pages)
    requires RootThen(P, root, u, Q) && Undisturbed(A, level, Q, R)
    ensures RootThen(P, root, u, R)
  {
    hide RootThen, BuffersStay;
    RootThenStays(P, root, u, Q, R);
  }

  lemma RootThenStays(P: Pages, root: PageId, u: Upsert, Q: Pages, R: Pages)
    requires RootThen(P, root, u, Q) && RootsStay(Q, R)
    ensures RootThen(P, root, u, R)
  {
    hide ChildMustSplit, CutAtKey;
    var i := LowerBound(P[root].pivots, u.key);
    var n := P[P[root].children[i]];
    if ChildMustSplit(n, u) {
      var mid, r :| CutAtKey(n, u, mid) && RootGained(P, root, i, mid, r, Q);
      assert RootGained(P, root, i, mid, r, R);
    }
  }

  lemma RootThenSame(P: Pages, root: PageId, u: Upsert, i: nat, c: PageId, Q: Pages)
    requires root in P && P[root].RootNode? && i == LowerBound(P[root].pivots, u.key) < |P[root].children| && P[root].children[i] == c
    requires c in P && !ChildMustSplit(P[c], u) && root in Q && Q[root] == P[root]
    ensures RootThen(P, root, u, Q)
  {
  }

  lemma RootThenGains(P: Pages, root: PageId, u: Upsert, i: nat, c: PageId, mid: Key, r: PageId, Q: Pages)
    requires root in P && P[root].RootNode? && i == LowerBound(P[root].pivots, u.key) < |P[root].children| && P[root].children[i] == c
    requires |P[root].children| == |P[root].pivots| + 1 && r !in P && root in Q
    requires c in P && ChildMustSplit(P[c], u) && CutAtKey(P[c], u, mid)
    requires Q[root] == RootNode(InsertAt(P[root].pivots, i, mid), InsertAt(P[root].children, i + 1, r))
    ensures RootThen(P, root, u, Q)
  {
    hide ChildMustSplit, CutAtKey;
    assert RootGained(P, root, i, mid, r, Q);
  }

  lemma LeafCutAt(l: Leaf, u: Upsert, mid: Key)
    requires Median.HasRank(l.keys, KeysOf([u]), mid, (|l.keys| + |KeysOf([u])| + 1) / 2)
    ensures CutAtKey(LeafNode(l), u, mid)
  {
    assert KeysOf([u]) == [u.key];
  }

  lemma InnerCutAt(n: Node, u: Upsert)
    requires n.InnerNode? && |n.pivots| >= 2 && SplitIndex(|n.pivots|) < |n.pivots|
    ensures CutAtKey(n, u, n.pivots[SplitIndex(|n.pivots|)])
  {
  }

  /** What stays in the buffer of the root's child when it flushes and `rest` does not leave it: all of
      `rest`, or after a split what belongs to the left half. */
  function StaysBuffered(n: Node, rest: seq<Upsert>): seq<Upsert> {
    if n.InnerNode? && |n.pivots| == SIZES.innerN then rest[..UpperBound(KeysOf(rest), n.pivots[SplitIndex(|n.pivots|)])]
    else rest
  }

  lemma BufferedWhole(n: Node, rest: seq<Upsert>)
    requires n.InnerNode? && |n.pivots| != SIZES.innerN
    ensures StaysBuffered(n, rest) == rest
  {
  }

  lemma BufferedHalf(n: Node, rest: seq<Upsert>)
    requires n.InnerNode? && |n.pivots| == SIZES.innerN && |n.children| == |n.pivots| + 1
    ensures |n.pivots| >= 2 && var left := InnerLeft(n.(upserts := rest), SplitIndex(|n.pivots|));
            left.InnerNode? && StaysBuffered(n, rest) == left.upserts
  {
    hide UpperBound;
  }

  lemma BufferStays(A: Labelling, level: nat, P: Pages, Q: Pages, c: PageId)
    requires Undisturbed(A, level, P, Q) && c in P && P[c].InnerNode? && c in A && A[c].height >= level
    ensures c in Q && Q[c].InnerNode? && Q[c].upserts == P[c].upserts
  {
  }

  lemma RootUpsertedFrom(P: Pages, root: PageId, cut: Pages, u: Upsert, Q: Pages)
    requires CutIfFull(P, root, cut) && RootThen(cut, root, u, Q)
    ensures RootUpserted(P, root, u, Q)
  {
  }

  lemma NotCut(P: Pages, root: PageId)
    requires root in P && P[root].RootNode? && |P[root].children| == |P[root].pivots| + 1 && |P[root].pivots| != SIZES.rootN
    ensures CutIfFull(P, root, P)
  {
  }

  lemma WasCut(P: Pages, root: PageId, Q: Pages, ids: seq<PageId>)
    requires root in P && P[root].RootNode? && |P[root].children| == |P[root].pivots| + 1 && |P[root].pivots| == SIZES.rootN
    requires var ps, cs, step := P[root].pivots, P[root].children, SIZES.innerN / 2;
             step > 0 && CutPages(P, root, Q, ids, RootChunks.Chunks(ps, cs, step), RootChunks.Separators(ps, step))
    ensures CutIfFull(P, root, Q)
  {
  }

  lemma LeafMustSplit(l: Leaf, u: Upsert)
    ensures ChildMustSplit(LeafNode(l), u) <==> u.kind.INSERT? && |l.keys| == SIZES.leafN
  {
  }

  lemma InnerMustSplit(n: Node, u: Upsert)
    requires n.InnerNode?
    ensures ChildMustSplit(n, u) <==>
            !(LowerBound(KeysOf(n.upserts), u.key) < |n.upserts| && n.upserts[LowerBound(KeysOf(n.upserts), u.key)].key == u.key) &&
            |n.upserts| >= SIZES.innerBN && |n.pivots| + 1 > SIZES.innerN
    ensures MessageFor(n.upserts, u.key).Some? <==>
            LowerBound(KeysOf(n.upserts), u.key) < |n.upserts| && n.upserts[LowerBound(KeysOf(n.upserts), u.key)].key == u.key
  {
  }

  lemma MustSplitIs(pages: Pages, root: PageId, u: Upsert)
    requires root in pages && pages[root].RootNode?
    requires LowerBound(pages[root].pivots, u.key) < |pages[root].children|
    requires pages[root].children[LowerBound(pages[root].pivots, u.key)] in pages
    ensures MustSplit(pages, root, u) <==>
            |pages[root].pivots| == SIZES.rootN ||
            ChildMustSplit(pages[pages[root].children[LowerBound(pages[root].pivots, u.key)]], u)
  {
  }

  /** What leaves a buffer: enough messages, for as few children as possible and those with the most
      messages; whole blocks, or MAX_FLUSH_SIZE messages; and of a block that is cut short the lowest. */
  ghost predicate MadeRoom(pivots: seq<Key>, needed: int, flushed: MessageMap, gone: map<Key, Upsert>, kept: map<Key, Upsert>) {
    && |gone| >= needed
    && NoFewer(gone + kept, pivots, |flushed|, needed) && ServesLargest(gone + kept, pivots, flushed)
    && WholeBlocks(gone + kept, pivots, flushed, |gone|, MAX_FLUSH_SIZE) && LowestLeave(gone, kept, pivots)
  }

  lemma MadeRoomIs(pivots: seq<Key>, needed: int, flushed: MessageMap, gone: map<Key, Upsert>, kept: map<Key, Upsert>)
    requires |gone| >= needed
    requires NoFewer(gone + kept, pivots, |flushed|, needed) && ServesLargest(gone + kept, pivots, flushed)
    requires WholeBlocks(gone + kept, pivots, flushed, |gone|, MAX_FLUSH_SIZE) && LowestLeave(gone, kept, pivots)
    ensures MadeRoom(pivots, needed, flushed, gone, kept)
  {
    hide NoFewer, ServesLargest, WholeBlocks, LowestLeave;
  }

  lemma ServedForRoom(n: Node, msgs: seq<Upsert>, rest: seq<Upsert>, flushed: MessageMap, gone: map<Key, Upsert>)
    requires n.InnerNode? && |n.pivots| <= SIZES.innerN && Rearranged(n.upserts, n.pivots, msgs, rest, flushed, gone)
    requires |n.upserts| + |msgs| > SIZES.innerBN && Sorted(rest)
    requires MadeRoom(n.pivots, |n.upserts| + |msgs| - SIZES.innerBN, flushed, gone, MapOf(rest))
    ensures HasToSplit(n, msgs) <==> SIZES.innerN - |n.pivots| < |flushed|
  {
    hide NoFewer, ServesLargest, WholeBlocks, LowestLeave, MapOf, Sorted, Rearranged, HasToSplit;
    ServedTooMany(n, msgs, rest, flushed, gone);
  }

  /** The buffer of a node that has flushed: what has not left, or after a split what of that belongs to
      the left half. */
  ghost predicate FlushedBuffer(n: Node, msgs: seq<Upsert>, rest: seq<Upsert>, flushed: MessageMap, gone: map<Key, Upsert>, n': Node) {
    && n.InnerNode? && n'.InnerNode? && Sorted(rest)
    && Rearranged(n.upserts, n.pivots, msgs, rest, flushed, gone)
    && MadeRoom(n.pivots, |n.upserts| + |msgs| - SIZES.innerBN, flushed, gone, MapOf(rest))
    && n'.upserts == if SIZES.innerN - |n.pivots| < |flushed| && |n.pivots| >= 2
                     then rest[..UpperBound(KeysOf(rest), n.pivots[SplitIndex(|n.pivots|)])] else rest
  }

  /** The buffer of an inner child that has got its messages: the merge if it has room for it. */
  ghost predicate BufferServed(n: Node, msgs: seq<Upsert>, n': Node) {
    n.InnerNode? && n'.InnerNode? && Sorted(n.upserts) && Sorted(msgs) && Sorted(n'.upserts) &&
    if SIZES.innerBN - |n.upserts| >= |msgs| then MapOf(n'.upserts) == MergeMap(MapOf(n.upserts), MapOf(msgs))
    else exists rest, flushed, gone :: FlushedBuffer(n, msgs, rest, flushed, gone, n')
  }

  lemma ServedByMerge(n: Node, msgs: seq<Upsert>, merged: seq<Upsert>)
    requires n.InnerNode? && Sorted(n.upserts) && Sorted(msgs) && Sorted(merged) && SIZES.innerBN - |n.upserts| >= |msgs|
    requires MapOf(merged) == MergeMap(MapOf(n.upserts), MapOf(msgs))
    ensures BufferServed(n, msgs, n.(upserts := merged))
  {
    hide Sorted, MergeMap;
  }

  lemma ServedByFlush(n: Node, msgs: seq<Upsert>, rest: seq<Upsert>, flushed: MessageMap, gone: map<Key, Upsert>, n': Node)
    requires n.InnerNode? && Sorted(rest) && Rearranged(n.upserts, n.pivots, msgs, rest, flushed, gone)
    requires MadeRoom(n.pivots, |n.upserts| + |msgs| - SIZES.innerBN, flushed, gone, MapOf(rest)) && SIZES.innerBN - |n.upserts| < |msgs|
    requires |n.pivots| <= SIZES.innerN && |n.children| == |n.pivots| + 1
    requires if SIZES.innerN - |n.pivots| < |flushed| then
               |n.pivots| >= 2 && n' == InnerLeft(n.(upserts := rest), SplitIndex(|n.pivots|))
             else n' == n.(upserts := rest)
    ensures BufferServed(n, msgs, n')
  {
    hide MadeRoom, UpperBound;
    assert FlushedBuffer(n, msgs, rest, flushed, gone, n');
  }

  /** removeMessages on a node that has too little room for the messages: some always leave. */
  method MakeRoom(n: Node, msgs: seq<Upsert>) returns (rest: seq<Upsert>, flushed: MessageMap, ghost gone: map<Key, Upsert>)
    requires InnerReady(n) && Sorted(msgs) && msgs != [] && |msgs| <= MAX_FLUSH_SIZE && n.InnerNode?
    requires |n.upserts| + |msgs| > SIZES.innerBN
    ensures Rearranged(n.upserts, n.pivots, msgs, rest, flushed, gone) && flushed != map[]
    ensures |flushed| <= |n.pivots| + 1
    ensures |n.upserts| + |msgs| == SIZES.innerBN + 1 ==> |flushed| == 1
    ensures Sorted(rest) && MadeRoom(n.pivots, |n.upserts| + |msgs| - SIZES.innerBN, flushed, gone, MapOf(rest))
  {
    hide *;
    InnerReadyParts(n);
    MapKeyed(msgs);
    rest, flushed, gone := RemoveMessages.RemoveMessages(n.upserts, n.pivots, msgs, SIZES.innerBN, MAX_FLUSH_SIZE);
    RemovedIsRearranged(n.upserts, n.pivots, msgs, rest, flushed, gone);
    CarriedChildren(n.pivots, flushed, gone);
    MadeRoomIs(n.pivots, |n.upserts| + |msgs| - SIZES.innerBN, flushed, gone, MapOf(rest));
  }

  /** What find returns, or that its assertion `currentValue` fails. */
  datatype FindResult = Found(value: Option<Value>) | AssertionFailed

  class BeTree {
    var pages: Pages
    var rootID: PageId
    var rootLeaf: bool
    var currentTimeStamp: nat
    var pins: Pins<Node>
    ghost var labels: Labelling

    /** Between operations nothing is pinned. */
    ghost predicate Valid()
      reads this
    {
      && pins.held == {}
      && Whole(pages, labels, rootID)
      && rootID in pages && rootID in labels
      && (rootLeaf <==> pages[rootID].LeafNode?)
      && (forall k: Key :: labels[rootID].view[k].newest <= currentTimeStamp)
    }

    /** What the tree says of a key. */
    ghost function Denotes(k: Key): Option<Value>
      requires Valid()
      reads this
    {
      Meaning(pages, rootID, labels[rootID].height, k)
    }

    /** The page buffer keeps every page as it is, whatever it evicts. */
    ghost predicate Durable()
      reads this
    {
      pins.kept == pages
    }

    /** Every update that waits for the key is known to find a value to be added to. */
    ghost predicate Sound(k: Key)
      requires Valid()
      reads this
    {
      labels[rootID].view[k].sound
    }

    // ---- pages ------------------------------------------------------------------------------

    /** splitLeafNode */
    method SplitLeafNode(c: PageId, medianKey: Key) returns (rightPage: PageId)
      requires c in pages && pages[c].LeafNode? && |pages[c].leaf.keys| == |pages[c].leaf.values|
      requires |pages[c].leaf.keys| >= 2 && pins.held <= pages.Keys
      modifies `pages, `pins
      ensures rightPage !in old(pages) && rightPage !in old(pins).held && pins == old(pins).Pin(rightPage)
      ensures pages == old(pages)[c := LeafNode(SplitLeft(old(pages[c].leaf), medianKey))]
                                 [rightPage := LeafNode(SplitRight(old(pages[c].leaf), medianKey))]
    {
      var leaf := pages[c].leaf;
      var medianIndex := UpperBound(leaf.keys, medianKey);
      if medianIndex > |leaf.keys| {
        medianIndex := |leaf.keys|;
      }
      rightPage := CreatePage(pages.Keys);
      pins := pins.Pin(rightPage);
      pages := pages[rightPage := LeafNode(Leaf(leaf.keys[medianIndex..], leaf.values[medianIndex..]))];
      pages := pages[c := LeafNode(Leaf(leaf.keys[..medianIndex], leaf.values[..medianIndex]))];
      assert pages == old(pages)[c := pages[c]][rightPage := pages[rightPage]];
    }

    /** splitInnerNode */
    method SplitInnerNode(c: PageId) returns (rightPage: PageId, resultKey: Key)
      requires c in pages && pages[c].InnerNode? && |pages[c].pivots| >= 2
      requires |pages[c].children| == |pages[c].pivots| + 1 && pins.held <= pages.Keys
      modifies `pages, `pins
      ensures rightPage !in old(pages) && rightPage != c && rightPage !in old(pins).held && pins == old(pins).Pin(rightPage)
      ensures var n, at := old(pages[c]), SplitIndex(|old(pages[c]).pivots|);
              resultKey == n.pivots[at] && pages == old(pages)[c := InnerLeft(n, at)][rightPage := InnerRight(n, at)]
      ensures |pages[rightPage].pivots| == |old(pages[c]).pivots| / 2 && |pages[c].pivots| == (|old(pages[c]).pivots| - 1) / 2
    {
      var n := pages[c];
      var size := |n.pivots|;
      var splitIndex := (size - 1) / 2;
      resultKey := n.pivots[splitIndex];
      rightPage := CreatePage(pages.Keys);
      pins := pins.Pin(rightPage);
      var rightSize := size / 2;
      var leftSize := size - rightSize - 1;
      assert leftSize == splitIndex;
      var removed := UpperBound(KeysOf(n.upserts), resultKey);
      pages := pages[rightPage := InnerNode(n.upserts[removed..], n.pivots[splitIndex + 1..], n.children[splitIndex + 1..])];
      pages := pages[c := InnerNode(n.upserts[..removed], n.pivots[..leftSize], n.children[..leftSize + 1])];
      assert pages == old(pages)[c := pages[c]][rightPage := pages[rightPage]];
    }

    // ---- the cascade ------------------------------------------------------------------------

    /** A leaf child of the node being handled: split it if its messages might not fit. */
    method ServeLeafChild(p: PageId, i: nat, c: PageId, ghost rem: MessageMap, msgs: seq<Upsert>,
                          newPivots: seq<PivotTuple>, ghost queue: seq<Entry>, leafMessages: seq<Task>, ghost pend: Pending)
      returns (newPivots': seq<PivotTuple>, leafMessages': seq<Task>, ghost pend': Pending)
      requires Serving(pages, labels, rootID, pend, p, rem, newPivots, queue, leafMessages)
      requires i in rem && rem[i] == msgs
      requires p in pages && pages[p].InnerNode? && i < |pages[p].children| && c == pages[p].children[i]
      requires c in pages && pages[c].LeafNode? && LeafOK(pages[c].leaf) && |pages[c].leaf.keys| == |pages[c].leaf.values|
      requires |pages[c].leaf.keys| <= SIZES.leafN && Sorted(msgs) && |msgs| <= MAX_FLUSH_SIZE
      requires pins.held == HeldAt(p, queue, leafMessages) + {c}
      modifies `pages, `labels, `pins
      ensures Serving(pages, labels, rootID, pend', p, rem - {i}, newPivots', queue, leafMessages')
      ensures Kept(old(labels), labels, rootID) && ChildServed(old(pages), i, c, msgs, newPivots, pages, newPivots')
      ensures pins.held == HeldAt(p, queue, leafMessages') && (old(AllKept(pages, pins)) ==> AllKept(pages, pins))
    {
      hide *;
      HeldInPages(pages, labels, rootID, pend, p, rem, newPivots, queue, leafMessages);
      var leaf := pages[c].leaf;
      var needToSplit := NeedToSplit(leaf, msgs);
      LeafHasToSplit(leaf, msgs);
      if needToSplit {
        Sizes();
        LeafAscending(leaf, msgs);
        var medianKey := Median.FindMedianKey(leaf.keys, KeysOf(msgs));
        ghost var pages0 := pages;
        var rightPage := SplitLeafNode(c, medianKey);
        ghost var B, pd := ServeLeafSplit(pages0, labels, rootID, pend, p, rem, newPivots, queue, leafMessages, i, c, rightPage, medianKey);
        TouchedKept(labels, pend, B, rootID, p, c, {rightPage});
        labels, pend' := B, pd;
        SplitHolds(pages0, old(pins), c, rightPage, pages[c], pages[rightPage], pages);
        HeldMoreTasks(p, queue, leafMessages, Task(c, Some(SplitResult(medianKey, rightPage)), msgs));
        newPivots' := newPivots + [PivotTuple(i, medianKey, rightPage)];
        assert ChildServed(pages0, i, c, msgs, newPivots, pages, newPivots') by {
          LeafHalvesAre(leaf, msgs, medianKey);
          SplitServed(pages0, i, c, msgs, newPivots, rightPage, medianKey, pages[c], pages[rightPage], pages);
        }
        leafMessages' := leafMessages + [Task(c, Some(SplitResult(medianKey, rightPage)), msgs)];
      } else {
        ghost var B, pd := ServeLeaf(pages, labels, rootID, pend, p, rem, newPivots, queue, leafMessages, i, c);
        TouchedKept(labels, pend, B, rootID, p, c, {});
        labels, pend' := B, pd;
        HeldMoreTasks(p, queue, leafMessages, Task(c, None, msgs));
        newPivots' := newPivots;
        LeafUnsplit(pages, i, c, msgs, newPivots);
        leafMessages' := leafMessages + [Task(c, None, msgs)];
      }
    }

    /** An inner child of the node being handled: it stores its messages if it has room for them. */
    method ServeInnerChild(p: PageId, i: nat, c: PageId, ghost rem: MessageMap, msgs: seq<Upsert>,
                           newPivots: seq<PivotTuple>, ghost queue: seq<Entry>, ghost leafMessages: seq<Task>, ghost pend: Pending)
      returns (newPivots': seq<PivotTuple>, entries: seq<Entry>, ghost pend': Pending)
      requires Serving(pages, labels, rootID, pend, p, rem, newPivots, queue, leafMessages)
      requires i in rem && rem[i] == msgs && p in labels
      requires p in pages && pages[p].InnerNode? && i < |pages[p].children| && c == pages[p].children[i]
      requires c in pages && InnerReady(pages[c]) && Sorted(msgs) && msgs != [] && |msgs| <= MAX_FLUSH_SIZE
      requires pins.held == HeldAt(p, queue, leafMessages) + {c} && c !in HeldAt(p, queue, leafMessages)
      modifies `pages, `labels, `pins
      ensures Serving(pages, labels, rootID, pend', p, rem - {i}, newPivots', queue + entries, leafMessages)
      ensures Kept(old(labels), labels, rootID) && EntriesAt(labels, entries, old(labels[p].height) - 1)
      ensures ChildServed(old(pages), i, c, msgs, newPivots, pages, newPivots')
      ensures entries == [] <==> SIZES.innerBN - |old(pages)[c].upserts| >= |msgs|
      ensures c in pages && BufferServed(old(pages)[c], msgs, pages[c])
      ensures pins.held == HeldAt(p, queue + entries, leafMessages) && (old(AllKept(pages, pins)) ==> AllKept(pages, pins))
    {
      hide *;
      var n := pages[c];
      InnerReadyParts(n);
      MapKeyed(msgs);
      if SIZES.innerBN - |n.upserts| >= |msgs| {
        newPivots', entries := newPivots, [];
        var merged := MergeUpserts.MergeUpserts(n.upserts, msgs);
        MergedIsRearranged(n.upserts, n.pivots, msgs, merged);
        ghost var B, pd := ServeInner(pages, labels, rootID, pend, p, rem, newPivots, queue, leafMessages, i, c, merged, map[], map[]);
        TouchedKept(labels, pend, B, rootID, p, c, {});
        TouchedEntries(labels, pend, B, p, c, {}, []);
        ghost var h := labels[p].height - 1;
        assert EntriesAt(B, [], h);
        ReleasedChild(pins.held, p, queue, leafMessages, c);
        WriteBackHolds(pages, pins, c, n.(upserts := merged));
        RoomIsEnough(n, msgs);
        InnerUnsplit(n, merged);
        UnsplitServed(pages, i, c, msgs, newPivots, n.(upserts := merged));
        ServedByMerge(n, msgs, merged);
        pages := pages[c := n.(upserts := merged)];
        pins := pins.Unpin(c, pages[c], true);
        labels, pend' := B, pd;
      } else {
        newPivots', entries, pend' := FlushInnerChild(p, i, c, rem, msgs, newPivots, queue, leafMessages, pend);
      }
    }

    /** An inner child without room removes messages, and splits if it lacks a free pivot for a
        child that gets some of them. */
    method FlushInnerChild(p: PageId, i: nat, c: PageId, ghost rem: MessageMap, msgs: seq<Upsert>,
                           newPivots: seq<PivotTuple>, ghost queue: seq<Entry>, ghost leafMessages: seq<Task>, ghost pend: Pending)
      returns (newPivots': seq<PivotTuple>, entries: seq<Entry>, ghost pend': Pending)
      requires Serving(pages, labels, rootID, pend, p, rem, newPivots, queue, leafMessages)
      requires i in rem && rem[i] == msgs && p in labels
      requires p in pages && pages[p].InnerNode? && i < |pages[p].children| && c == pages[p].children[i]
      requires c in pages && InnerReady(pages[c]) && Sorted(msgs) && msgs != [] && |msgs| <= MAX_FLUSH_SIZE
      requires SIZES.innerBN - |pages[c].upserts| < |msgs|
      requires pins.held == HeldAt(p, queue, leafMessages) + {c} && c !in HeldAt(p, queue, leafMessages)
      modifies `pages, `labels, `pins
      ensures Serving(pages, labels, rootID, pend', p, rem - {i}, newPivots', queue + entries, leafMessages)
      ensures Kept(old(labels), labels, rootID) && EntriesAt(labels, entries, old(labels[p].height) - 1)
      ensures ChildServed(old(pages), i, c, msgs, newPivots, pages, newPivots') && entries != []
      ensures c in pages && BufferServed(old(pages)[c], msgs, pages[c])
      ensures pins.held == HeldAt(p, queue + entries, leafMessages) && (old(AllKept(pages, pins)) ==> AllKept(pages, pins))
    {
      hide *;
      var n := pages[c];
      InnerReadyParts(n);
      Sizes();
      var rest, messageMap, gone := MakeRoom(n, msgs);
      ServedForRoom(n, msgs, rest, messageMap, gone);
      ghost var pages0, h := pages, labels[p].height - 1;
      var n' := n.(upserts := rest);
      assert AllKept(pages, pins) ==> AllKept(pages[c := n'], pins) by { WriteHolds(pages, pins, c, n'); }
      pages := pages[c := n'];
      assert pins.held <= pages.Keys by { HeldInPages(pages0, labels, rootID, pend, p, rem, newPivots, queue, leafMessages); }
      if SIZES.innerN - |n.pivots| < |messageMap| {
        newPivots', entries, pend' := FlushHalves(p, i, c, pages0, rem, msgs, newPivots, queue, leafMessages, pend, rest, messageMap, gone);
        ServedByFlush(n, msgs, rest, messageMap, gone, pages[c]);
      } else {
        ghost var B, pd := ServeInner(pages0, labels, rootID, pend, p, rem, newPivots, queue, leafMessages, i, c, rest, messageMap, gone);
        assert Kept(labels, B, rootID) by { TouchedKept(labels, pend, B, rootID, p, c, {}); }
        newPivots' := newPivots;
        ServedByFlush(n, msgs, rest, messageMap, gone, n');
        assert ChildServed(pages0, i, c, msgs, newPivots, pages, newPivots') by {
          InnerUnsplit(n, rest);
          UnsplitServed(pages0, i, c, msgs, newPivots, n');
        }
        entries := [Entry(c, messageMap)];
        assert EntriesAt(B, entries, h) by { TouchedEntries(labels, pend, B, p, c, {}, entries); }
        assert pins.held == HeldAt(p, queue + entries, leafMessages) by {
          EnqueuedChild(old(pins.held), p, queue, leafMessages, c, {}, entries);
          OnePage(Entry(c, messageMap));
        }
        labels, pend' := B, pd;
      }
    }

    /** The child, whose buffer holds the rest, lacks a free pivot: it splits, and its halves share
        the removed messages. `pages0` are the pages before the messages were removed. */
    method FlushHalves(p: PageId, i: nat, c: PageId, ghost pages0: Pages, ghost rem: MessageMap, msgs: seq<Upsert>,
                       newPivots: seq<PivotTuple>, ghost queue: seq<Entry>, ghost leafMessages: seq<Task>, ghost pend: Pending,
                       rest: seq<Upsert>, messageMap: MessageMap, ghost gone: map<Key, Upsert>)
      returns (newPivots': seq<PivotTuple>, entries: seq<Entry>, ghost pend': Pending)
      requires Serving(pages0, labels, rootID, pend, p, rem, newPivots, queue, leafMessages)
      requires i in rem && rem[i] == msgs && p in labels
      requires p in pages0 && pages0[p].InnerNode? && i < |pages0[p].children| && c == pages0[p].children[i]
      requires c in pages0 && InnerReady(pages0[c]) && pages0[c].InnerNode? && HasToSplit(pages0[c], msgs)
      requires Rearranged(pages0[c].upserts, pages0[c].pivots, msgs, rest, messageMap, gone)
      requires |messageMap| <= |pages0[c].pivots| + 1 && SIZES.innerN - |pages0[c].pivots| < |messageMap|
      requires pages == pages0[c := pages0[c].(upserts := rest)] && pins.held <= pages.Keys
      requires pins.held == HeldAt(p, queue, leafMessages) + {c} && c !in HeldAt(p, queue, leafMessages)
      modifies `pages, `labels, `pins
      ensures Serving(pages, labels, rootID, pend', p, rem - {i}, newPivots', queue + entries, leafMessages)
      ensures Kept(old(labels), labels, rootID) && EntriesAt(labels, entries, old(labels[p].height) - 1)
      ensures ChildServed(pages0, i, c, msgs, newPivots, pages, newPivots') && entries != []
      ensures |pages0[c].pivots| >= 2 && |pages0[c].children| == |pages0[c].pivots| + 1
      ensures c in pages && pages[c] == InnerLeft(pages0[c].(upserts := rest), SplitIndex(|pages0[c].pivots|))
      ensures pins.held == HeldAt(p, queue + entries, leafMessages) && (old(AllKept(pages, pins)) ==> AllKept(pages, pins))
    {
      hide *;
      InnerReadyParts(pages0[c]);
      Sizes();
      ghost var n, pages1, h := pages0[c], pages, labels[p].height - 1;
      var n' := pages[c];
      SplitSizes(|n'.pivots|);
      var rightPage, middleKey := SplitInnerNode(c);
      var at := |n'.pivots| - |n'.pivots| / 2 - 1;
      assert AllKept(pages1, old(pins)) ==> AllKept(pages, pins) by {
        SplitHolds(pages1, old(pins), c, rightPage, pages[c], pages[rightPage], pages);
      }
      var leftMap, rightMap := SplitMap(messageMap, at);
      ghost var B, pd := ServeInnerSplit(pages0, labels, rootID, pend, p, rem, newPivots, queue, leafMessages, i, c, rightPage,
                                         rest, messageMap, gone, n', at, leftMap, rightMap);
      assert Kept(labels, B, rootID) by { TouchedKept(labels, pend, B, rootID, p, c, {rightPage}); }
      OverwriteTwice(pages0, c, n', InnerLeft(n', at), rightPage, InnerRight(n', at));
      newPivots' := newPivots + [PivotTuple(i, middleKey, rightPage)];
      assert ChildServed(pages0, i, c, msgs, newPivots, pages, newPivots') by {
        InnerHalvesAre(n, rest, msgs, at);
        SplitServed(pages0, i, c, msgs, newPivots, rightPage, middleKey, InnerLeft(n', at), InnerRight(n', at), pages);
      }
      EntriesOf(c, leftMap, rightPage, rightMap);
      entries := HalfEntries(c, leftMap, rightPage, rightMap);
      SomeHalf(c, leftMap, rightPage, rightMap);
      assert EntriesAt(B, entries, h) by { TouchedEntries(labels, pend, B, p, c, {rightPage}, entries); }
      pins := UnpinEmptyHalves(pins, pages, c, leftMap, rightPage, rightMap);
      assert pins.held == HeldAt(p, queue + entries, leafMessages) by {
        HeldInPages(pages0, labels, rootID, pend, p, rem, newPivots, queue, leafMessages);
        EnqueuedChild(old(pins.held), p, queue, leafMessages, c, {rightPage}, entries);
      }
      labels, pend' := B, pd;
    }

    /** One child of the node being handled gets its messages. */
    method ServeChild(p: PageId, i: nat, ghost rem: MessageMap, msgs: seq<Upsert>, newPivots: seq<PivotTuple>,
                      ghost queue: seq<Entry>, leafMessages: seq<Task>, ghost pend: Pending)
      returns (newPivots': seq<PivotTuple>, entries: seq<Entry>, leafMessages': seq<Task>, ghost pend': Pending)
      requires Serving(pages, labels, rootID, pend, p, rem, newPivots, queue, leafMessages)
      requires i in rem && rem[i] == msgs && p in labels
      requires pins.held == HeldAt(p, queue, leafMessages)
      modifies `pages, `labels, `pins
      ensures Serving(pages, labels, rootID, pend', p, rem - {i}, newPivots', queue + entries, leafMessages')
      ensures Kept(old(labels), labels, rootID) && EntriesAt(labels, entries, old(labels[p].height) - 1)
      ensures pins.held == HeldAt(p, queue + entries, leafMessages') && (old(AllKept(pages, pins)) ==> AllKept(pages, pins))
      ensures p in old(pages) && old(pages)[p].InnerNode? && i < |old(pages)[p].children| && old(pages)[p].children[i] != p
      ensures NoDuplicates(old(pages)[p].children)
      ensures var c := old(pages)[p].children[i]; c in old(labels) && old(labels)[c].height < old(labels[p].height)
      ensures ChildServed(old(pages), i, old(pages)[p].children[i], msgs, newPivots, pages, newPivots')
      ensures var n := old(pages)[old(pages)[p].children[i]];
              n.LeafNode? ||
              (n.InnerNode? && (entries == [] <==> SIZES.innerBN - |n.upserts| >= |msgs|) &&
               old(pages)[p].children[i] in pages && BufferServed(n, msgs, pages[old(pages)[p].children[i]]))
    {
      hide *;
      ChildToServe(pages, labels, rootID, pend, p, rem, newPivots, queue, leafMessages, i);
      ChildApart(pages, labels, rootID, pend, p, rem, newPivots, queue, leafMessages, i);
      var c := pages[p].children[i];
      ChildUnpinned(pages, labels, rootID, pend, p, rem, newPivots, queue, leafMessages, i);
      assert AllKept(pages, pins) ==> AllKept(pages, pins.Pin(c)) by { PinHolds(pages, pins, c); }
      pins := pins.Pin(c);
      if pages[c].LeafNode? {
        entries := [];
        newPivots', leafMessages', pend' := ServeLeafChild(p, i, c, rem, msgs, newPivots, queue, leafMessages, pend);
        NoEntriesAt(labels, queue, old(labels[p].height) - 1);
        assert queue + [] == queue;
      } else {
        leafMessages' := leafMessages;
        newPivots', entries, pend' := ServeInnerChild(p, i, c, rem, msgs, newPivots, queue, leafMessages, pend);
      }
    }

    /** A leaf takes one message. A new key finds a free slot, as the source asserts. What its other
        assertion reads behind the leaf's keys is in LeafArrays; here it is compiled out. `dirty` is
        the flag that a leaf is unpinned with when it takes a message directly: a message that
        changes nothing leaves it clean. */
    method ApplyMessage(l: Leaf, u: Upsert) returns (l': Leaf, dirty: bool)
      requires LeafOK(l) && |l.keys| == |l.values| && |Upserted(l, u).keys| <= SIZES.leafN
      ensures l' == Upserted(l, u)
      ensures !dirty ==> l' == l
      ensures dirty <==> Touches(l, u)
      ensures u.kind.INSERT? ==> (dirty <==> LeafLookup(l, u.key) != Some(u.value))
    {
      FoundIs(l, u.key);
      hide LeafOK;
      var keyIndex := LowerBound(l.keys, u.key);
      match u.kind {
        case DELETE =>
          if keyIndex >= |l.keys| || l.keys[keyIndex] != u.key { return l, false; }
          return Leaf(RemoveAt(l.keys, keyIndex), RemoveAt(l.values, keyIndex)), true;
        case UPDATE =>
          if keyIndex >= |l.keys| || l.keys[keyIndex] != u.key { return l, false; }
          return l.(values := l.values[keyIndex := Add(l.values[keyIndex], u.value)]), true;
        case INSERT =>
          if keyIndex < |l.keys| && l.keys[keyIndex] == u.key {
            if l.values[keyIndex] == u.value {
              assert l.values[keyIndex := u.value] == l.values;
              return l, false;
            }
            return l.(values := l.values[keyIndex := u.value]), true;
          }
          assert |l.keys| < SIZES.leafN;
          return Leaf(InsertAt(l.keys, keyIndex, u.key), InsertAt(l.values, keyIndex, u.value)), true;
      }
    }

    /** The messages of one leaf, or of the two halves of a leaf that has split, are applied in order. */
    method ApplyTask(t: Task, ghost pend: Pending)
      requires TaskOK(pages, pend, t)
      requires t.page in pages && pages[t.page].LeafNode? && |pages[t.page].leaf.keys| == |pages[t.page].leaf.values|
      requires t.split.Some? ==>
                 var r := t.split.value.right;
                 r in pages && r != t.page && pages[r].LeafNode? && |pages[r].leaf.keys| == |pages[r].leaf.values|
      requires TaskPages(t) <= pins.held
      modifies `pages, `pins
      ensures pages == TaskDone(old(pages), t)
      ensures forall x :: x in old(pages) && x !in TaskPages(t) ==> x in pages && pages[x] == old(pages)[x]
      ensures NodesStay(old(pages), pages)
      ensures pins.held == old(pins.held) - TaskPages(t) && (old(AllKept(pages, pins)) ==> AllKept(pages, pins))
    {
      hide *;
      ghost var pages0 := pages;
      PagesOfTask(t);
      var left := pages[t.page].leaf;
      var right := if t.split.Some? then pages[t.split.value.right].leaf else left;
      AppliedNone(pages, t, left, right);
      for j := 0 to |t.msgs|
        invariant pages == pages0 && pins == old(pins) && PartlyApplied(pages, t, j, left, right)
      {
        var u := t.msgs[j];
        if t.split.Some? && u.key > t.split.value.mid {
          AppliedRight(pages, pend, t, j, left, right);
          var after, _ := ApplyMessage(right, u);
          right := after;
        } else {
          AppliedLeft(pages, pend, t, j, left, right);
          var after, _ := ApplyMessage(left, u);
          left := after;
        }
      }
      AppliedAll(pages, pend, t, left, right);
      WriteHolds(pages, pins, t.page, LeafNode(left));
      LeafRewritten(pages, t.page, LeafNode(left));
      pages := pages[t.page := LeafNode(left)];
      if t.split.Some? {
        WriteHolds(pages, pins, t.split.value.right, LeafNode(right));
        LeafRewritten(pages, t.split.value.right, LeafNode(right));
        NodesStayOn(pages0, pages, pages[t.split.value.right := LeafNode(right)]);
        pages := pages[t.split.value.right := LeafNode(right)];
      }
      UnpinHolds(pages, pins, t.page);
      pins := pins.Unpin(t.page, pages[t.page], true);
      if t.split.Some? {
        UnpinHolds(pages, pins, t.split.value.right);
        pins := pins.Unpin(t.split.value.right, pages[t.split.value.right], true);
      }
    }

    /** All children of a node that get messages are served. */
    method ServeChildren(p: PageId, messageMap: MessageMap, queue: seq<Entry>, ghost pend: Pending, ghost level: nat)
      returns (newPivots: seq<PivotTuple>, queue': seq<Entry>, leafMessages: seq<Task>, ghost pend': Pending)
      requires Serving(pages, labels, rootID, pend, p, messageMap, [], queue, [])
      requires p in labels && labels[p].height == level > 0
      requires pins.held == HeldAt(p, queue, [])
      modifies `pages, `labels, `pins
      ensures Serving(pages, labels, rootID, pend', p, map[], newPivots, queue', leafMessages)
      ensures Kept(old(labels), labels, rootID) && ServedSoFar(old(pages), p, messageMap, map[], pages, newPivots)
      ensures Undisturbed(old(labels), level, old(pages), pages) && Appended(labels, queue, queue', level - 1)
      ensures pins.held == HeldAt(p, queue', leafMessages) && (old(AllKept(pages, pins)) ==> AllKept(pages, pins))
    {
      hide *;
      ghost var A0, pages0, kept := labels, pages, AllKept(pages, pins);
      var rem: MessageMap := messageMap;
      newPivots, leafMessages, queue', pend' := [], [], queue, pend;
      AppendedSelf(labels, queue, level - 1);
      ServingRoot(pages, labels, rootID, pend, p, rem, newPivots, queue, leafMessages);
      KeptSelf(labels, rootID);
      StartServing(pages, labels, rootID, pend, p, rem, queue);
      Stayed(pages);
      while rem != map[]
        invariant Serving(pages, labels, rootID, pend', p, rem, newPivots, queue', leafMessages)
        invariant Kept(A0, labels, rootID) && ServedSoFar(pages0, p, messageMap, rem, pages, newPivots)
        invariant Undisturbed(A0, level, pages0, pages)
        invariant p in labels && labels[p].height == level && Appended(labels, queue, queue', level - 1)
        invariant pins.held == HeldAt(p, queue', leafMessages) && (kept ==> AllKept(pages, pins))
        decreases |rem|
      {
        var i: nat :| i in rem;
        ghost var A1, pages1, ts1 := labels, pages, newPivots;
        ServedSame(pages0, p, messageMap, rem, pages, newPivots);
        var entries;
        newPivots, entries, leafMessages, pend' := ServeChild(p, i, rem, rem[i], newPivots, queue', leafMessages, pend');
        KeptParts(A1, labels, rootID);
        HeightAt(A1, labels, p);
        AppendedMore(A1, labels, queue, queue', entries, level - 1);
        KeptChain(A0, A1, labels, rootID);
        RemovedOne(rem, i);
        ServedMore(pages0, p, messageMap, rem, pages1, ts1, i, pages, newPivots);
        UndisturbedByChild(A0, A1, level, rootID, pages0, pages1, i, pages1[p].children[i], rem[i], ts1, pages, newPivots);
        rem, queue' := rem - {i}, queue' + entries;
      }
    }

    /** handleTraversalNode: serves every child that gets messages, then lists the new siblings in
        the node, and at last applies the messages that have reached leaves, with the assertion of
        LeafArrays.ShownBehind compiled out. */
    method HandleTraversalNode(currentPage: PageId, messageMap: MessageMap, queue: seq<Entry>,
                               ghost pend: Pending, ghost level: nat, ghost front: nat)
      returns (queue': seq<Entry>, ghost pend': Pending, ghost gained: seq<PivotTuple>)
      requires Cascading(pages, labels, rootID, pend, [Entry(currentPage, messageMap)] + queue)
      requires Leveled(labels, [Entry(currentPage, messageMap)] + queue, level, front) && front > 0
      requires pins.held == QueuePages([Entry(currentPage, messageMap)] + queue)
      modifies `pages, `labels, `pins
      ensures Cascading(pages, labels, rootID, pend', queue') && Leveled(labels, queue', level, front - 1)
      ensures Kept(old(labels), labels, rootID) && Undisturbed(old(labels), level, old(pages), pages)
      ensures currentPage in old(pages) && currentPage in pages &&
              Gained(old(pages)[currentPage], Splitting(old(pages), currentPage, messageMap), pages[currentPage], gained)
      ensures pins.held == QueuePages(queue') && (old(AllKept(pages, pins)) ==> AllKept(pages, pins))
    {
      hide *;
      var p, e := currentPage, Entry(currentPage, messageMap);
      ghost var kept := AllKept(pages, pins);
      HeldAtFirst(e, queue);
      BeginServing(pages, labels, rootID, pend, e, queue, level, front);
      ghost var A0 := labels;
      var newPivots, leafMessages;
      ghost var pages0 := pages;
      newPivots, queue', leafMessages, pend' := ServeChildren(p, messageMap, queue, pend, level);
      KeptParts(A0, labels, rootID);
      HeightAt(A0, labels, p);
      PivotsDistinct(pages, labels, rootID, pend', p, map[], newPivots, queue', leafMessages);
      var sorted := SortByIndex(newPivots);
      assert p in pins.held && pins.held - {p} == QueuePages(queue') + AllTaskPages(leafMessages) by {
        HeldApart(pages, labels, rootID, pend', p, map[], newPivots, queue', leafMessages);
      }
      EndServing(pages, labels, rootID, pend', p, newPivots, queue', leafMessages, sorted);
      gained := sorted;
      ServedSame(pages0, p, messageMap, map[], pages, newPivots);
      GainedFrom(pages0, p, messageMap, pages, newPivots, sorted);
      var n' := WithPivots(pages[p], PivotsWith(pages[p].pivots, sorted), ChildrenWith(pages[p].children, sorted));
      assert AllKept(pages, pins) ==> AllKept(pages[p := n'], pins.Unpin(p, n', true)) by { WriteBackHolds(pages, pins, p, n'); }
      UndisturbedByNode(A0, level, pages0, pages, p, PivotsWith(pages[p].pivots, sorted), ChildrenWith(pages[p].children, sorted));
      pages := pages[p := n'];
      pend' := pend' - {p};
      pins := pins.Unpin(p, pages[p], true);
      ghost var A1, pages1 := labels, pages;
      pend' := ApplyLeafMessages(leafMessages, queue', pend');
      UndisturbedByLeaves(A0, level, pages0, pages1, pages);
      KeptParts(A1, labels, rootID);
      NoEntriesAt(labels, queue', level - 1);
      AppendedMore(A1, labels, queue, queue', [], level - 1);
      KeptChain(A0, A1, labels, rootID);
      KeptParts(A0, labels, rootID);
      AppendedLevels(A0, labels, e, queue, level, front, queue');
    }

    /** The last part of handleTraversalNode: the leaves collected on the way apply their messages and
        are released. */
    method ApplyLeafMessages(leafMessages: seq<Task>, ghost queue: seq<Entry>, ghost pend: Pending) returns (ghost pend': Pending)
      requires Releasing(pages, labels, rootID, pend, queue, leafMessages)
      requires pins.held == QueuePages(queue) + AllTaskPages(leafMessages)
      modifies `pages, `labels, `pins
      ensures Cascading(pages, labels, rootID, pend', queue) && Kept(old(labels), labels, rootID)
      ensures pins.held == QueuePages(queue) && (old(AllKept(pages, pins)) ==> AllKept(pages, pins))
      ensures forall x :: x in old(pages) && x !in AllTaskPages(leafMessages) ==> x in pages && pages[x] == old(pages)[x]
      ensures NodesStay(old(pages), pages)
    {
      hide *;
      var todo := leafMessages;
      pend' := pend;
      ghost var kept := AllKept(pages, pins);
      ReleasingRoot(pages, labels, rootID, pend, queue, todo);
      KeptSelf(labels, rootID);
      Stayed(pages);
      while todo != []
        invariant Releasing(pages, labels, rootID, pend', queue, todo) && Kept(old(labels), labels, rootID)
        invariant pins.held == QueuePages(queue) + AllTaskPages(todo) && (kept ==> AllKept(pages, pins))
        invariant AllTaskPages(todo) <= AllTaskPages(leafMessages)
        invariant forall x :: x in old(pages) && x !in AllTaskPages(leafMessages) ==> x in pages && pages[x] == old(pages)[x]
        invariant NodesStay(old(pages), pages)
        decreases |todo|
      {
        ghost var A1, pages1 := labels, pages;
        assert TaskPages(todo[0]) <= pins.held &&
               pins.held - TaskPages(todo[0]) == QueuePages(queue) + AllTaskPages(todo[1..]) by {
          FirstTaskHeld(pages, labels, rootID, pend', queue, todo);
        }
        ghost var B := ReleaseTask(pages, labels, rootID, pend', queue, todo);
        FirstTaskOnly(todo);
        ApplyTask(todo[0], pend');
        NodesStayOn(old(pages), pages1, pages);
        labels, pend' := B, pend' - TaskPages(todo[0]);
        ReleasingRoot(pages, labels, rootID, pend', queue, todo[1..]);
        KeptHeights(A1, labels, rootID);
        KeptChain(old(labels), A1, labels, rootID);
        todo := todo[1..];
      }
      Released(pages, labels, rootID, pend', queue);
      NoTaskPages();
    }

    /** The level-order traversal ends: every node it handles only enqueues nodes one level lower. */
    method TraverseLevels(queue0: seq<Entry>, ghost pend0: Pending, ghost level0: nat)
      requires Cascading(pages, labels, rootID, pend0, queue0) && Leveled(labels, queue0, level0, |queue0|)
      requires pins.held == QueuePages(queue0)
      modifies `pages, `labels, `pins
      ensures Whole(pages, labels, rootID)
      ensures Kept(old(labels), labels, rootID) && Undisturbed(old(labels), level0, old(pages), pages)
      ensures pins.held == {} && (old(AllKept(pages, pins)) ==> AllKept(pages, pins))
    {
      hide *;
      ghost var kept := AllKept(pages, pins);
      var queue := queue0;
      ghost var pend := pend0;
      ghost var level: nat, front: nat := level0, |queue0|;
      CascadingRoot(pages, labels, rootID, pend, queue);
      KeptSelf(labels, rootID);
      Stayed(pages);
      while queue != []
        invariant Cascading(pages, labels, rootID, pend, queue) && Leveled(labels, queue, level, front)
        invariant Kept(old(labels), labels, rootID) && level <= level0 && Undisturbed(old(labels), level0, old(pages), pages)
        invariant pins.held == QueuePages(queue) && (kept ==> AllKept(pages, pins))
        decreases level, front
      {
        if front == 0 {
          NextLevel(pages, labels, rootID, pend, queue, level);
          level, front := level - 1, |queue|;
        }
        ghost var A1, pages1 := labels, pages;
        var e := queue[0];
        assert queue == [e] + queue[1..];
        EntryEta(e);
        ghost var gained;
        queue, pend, gained := HandleTraversalNode(e.page, e.messages, queue[1..], pend, level, front);
        front := front - 1;
        KeptChain(old(labels), A1, labels, rootID);
        UndisturbedAbove(old(labels), level0, A1, level, rootID, old(pages), pages1, pages);
      }
      CascadeOver(pages, labels, rootID, pend);
      NoPages();
    }

    // ---- the root ---------------------------------------------------------------------------

    /** splitRootNode: the full root keeps every separator and gets new inner nodes below it. */
    method SplitRootNode() returns (newChildren: seq<PageId>, midPivots: seq<Key>)
      requires Whole(pages, labels, rootID) && rootID in pages && pages[rootID].RootNode?
      requires |pages[rootID].children| == |pages[rootID].pivots| + 1 && |pages[rootID].pivots| == SIZES.rootN
      requires pins.held == {rootID}
      modifies `pages, `labels, `pins
      ensures Whole(pages, labels, rootID)
      ensures pins.held == {rootID} + (set x | x in newChildren) && pins.kept == old(pins.kept)
      ensures rootID in old(labels) && rootID in labels && labels[rootID].view == old(labels[rootID].view)
      ensures rootID in pages && pages[rootID] == RootNode(midPivots, newChildren) && |midPivots| < SIZES.rootN
      ensures var ps, cs, step := old(pages[rootID].pivots), old(pages[rootID].children), SIZES.innerN / 2;
              CutPages(old(pages), rootID, pages, newChildren, RootChunks.Chunks(ps, cs, step), RootChunks.Separators(ps, step))
      ensures forall i, j :: 0 <= i < j < |newChildren| ==> newChildren[i] != newChildren[j]
    {
      hide *;
      Sizes();
      ghost var pages0 := pages;
      var root := pages[rootID];
      var ps, cs := root.pivots, root.children;
      var childPivots := SIZES.innerN / 2;
      newChildren, midPivots := [], [];
      ghost var chunks: seq<RootChunks.Chunk> := [];
      var i := 0;
      RootChunks.CutStart(ps, cs, childPivots);
      NothingCreated(pages);
      while i < |ps|
        invariant labels == old(labels) && Created(pages0, pages, newChildren, chunks)
        invariant pins.held == {rootID} + (set x | x in newChildren) && pins.kept == old(pins.kept)
        invariant i < |ps| ==> RootChunks.CutAt(ps, cs, childPivots, i, chunks, midPivots)
        invariant i >= |ps| ==> chunks == RootChunks.Chunks(ps, cs, childPivots) && midPivots == RootChunks.Separators(ps, childPivots)
      {
        var lastIteration := i + (childPivots + 1) >= |ps|;
        var pivots := if childPivots <= |ps| - i then childPivots else |ps| - i;
        var newChild := CreatePage(pages.Keys);
        CreatedHolds(pages0, pages, newChildren, chunks, newChild);
        pins := pins.Pin(newChild);
        ghost var chunk := RootChunks.Chunk(ps[i..i + pivots], cs[i..i + pivots + 1]);
        CreatedMore(pages0, pages, newChildren, chunks, newChild, chunk);
        pages := pages[newChild := InnerNode([], ps[i..i + pivots], cs[i..i + pivots + 1])];
        if lastIteration {
          RootChunks.CutLast(ps, cs, childPivots, i, chunks, midPivots);
          RootChunks.MinIs(childPivots, |ps| - i);
        } else {
          RootChunks.CutNext(ps, cs, childPivots, i, chunks, midPivots);
          midPivots := midPivots + [ps[i + pivots]];
        }
        newChildren := newChildren + [newChild];
        chunks := chunks + [chunk];
        i := i + (childPivots + 1);
      }
      CreatedCut(pages0, pages, newChildren, chunks, rootID, midPivots);
      pages := pages[rootID := RootNode(midPivots, newChildren)];
      RootChunks.ChunksShape(ps, cs, childPivots);
      FanOuts();
      labels := RootCut(pages0, labels, rootID, pages, newChildren, childPivots);
    }

    /** The full leaf below the root splits for an insertion, and the half that gets the key takes it.
        That half is released as dirty only if the message changes it: if the leaf has the key with
        this value already, what the split has done to the half is forgotten. */
    method SplitFullChild(u: Upsert, childIndex: nat, c: PageId)
      requires Whole(pages, labels, rootID) && Newer(labels, rootID, u) && RootChild(pages, labels, rootID, u.key, childIndex, c)
      requires rootID in pages && pages[rootID].RootNode? && |pages[rootID].pivots| < SIZES.rootN
      requires childIndex < |pages[rootID].children| == |pages[rootID].pivots| + 1
      requires c in pages && pages[c].LeafNode? && c != rootID
      requires LeafOK(pages[c].leaf) && |pages[c].leaf.keys| == |pages[c].leaf.values|
      requires u.kind.INSERT? && |pages[c].leaf.keys| == SIZES.leafN && pins.held == {rootID, c}
      requires childIndex == LowerBound(pages[rootID].pivots, u.key) && pages[rootID].children[childIndex] == c
      modifies `pages, `labels, `pins
      ensures Whole(pages, labels, rootID) && rootID in pages && pages[rootID].RootNode?
      ensures rootID in old(labels) && rootID in labels && Told(old(labels[rootID].view), u, labels[rootID].view)
      ensures pins.held == {} && (old(pins.kept == pages) ==> (pins.kept == pages <==> !Forgotten(old(pages)[c], u)))
      ensures old(pins.kept == pages) && Forgotten(old(pages)[c], u) ==>
                HalfLost(pages, pins.kept, rootID, u.key, IsLargest(old(pages)[c], u.key))
      ensures RootThen(old(pages), rootID, u, pages)
    {
      hide *;
      ConsistentRootOf(pages, labels, rootID);
      Sizes();
      var leaf := pages[c].leaf;
      LeafForgotten(leaf, u);
      OneRun(u);
      LeafAscending(leaf, [u]);
      var medianKey := Median.FindMedianKey(leaf.keys, KeysOf([u]));
      ghost var pages0, B := pages, labels;
      var rightPage := SplitLeafNode(c, medianKey);
      B := RootLeafSplit(pages0, labels, rootID, u, childIndex, c, rightPage, medianKey);
      SingleFits(leaf, u, medianKey);
      var root := pages[rootID];
      ghost var pages1 := pages;
      pages := pages[rootID := RootNode(InsertAt(root.pivots, childIndex, medianKey), InsertAt(root.children, childIndex + 1, rightPage))];
      LeafSplitPagesIs(pages0, rootID, u, childIndex, c, rightPage, medianKey, pages1, pages);
      pins := pins.Unpin(rootID, pages[rootID], true);
      LeafShape(pages[c].leaf);
      LeafShape(pages[rightPage].leaf);
      ghost var pages2 := pages;
      var dirty := TakeAtHalf(u, medianKey, c, rightPage);
      labels := B;
      assert RootThen(pages0, rootID, u, pages) by {
        LeafMustSplit(leaf, u);
        LeafCutAt(leaf, u, medianKey);
        assert pages[rootID] == pages2[rootID];
        RootThenGains(pages0, rootID, u, childIndex, c, medianKey, rightPage, pages);
      }
      assert dirty <==> !Forgotten(LeafNode(leaf), u) by { HalfLookup(leaf, u.key, medianKey); }
      assert !dirty ==> (u.key <= medianKey ==> pages[c] != pages0[c]) && (IsLargest(LeafNode(leaf), u.key) ==> u.key > medianKey) by {
        if !dirty { HalfDiffersFrom(leaf, u, medianKey); }
      }
      if old(pins.kept) == pages0 {
        SplitOutcome(pages0, rootID, c, rightPage, childIndex, medianKey, u.key, pages, dirty, pins.kept, IsLargest(LeafNode(leaf), u.key));
      }
    }

    /** The half that the message belongs to takes it. The other half is released as dirty, this one
        only if the message changes it. */
    method TakeAtHalf(u: Upsert, medianKey: Key, c: PageId, rightPage: PageId) returns (dirty: bool)
      requires c in pages && pages[c].LeafNode? && LeafOK(pages[c].leaf) && |pages[c].leaf.keys| == |pages[c].leaf.values|
      requires rightPage in pages && pages[rightPage].LeafNode? && LeafOK(pages[rightPage].leaf)
      requires |pages[rightPage].leaf.keys| == |pages[rightPage].leaf.values|
      requires c != rightPage && pins.held == {c, rightPage}
      requires u.key <= medianKey ==> |Upserted(pages[c].leaf, u).keys| <= SIZES.leafN
      requires u.key > medianKey ==> |Upserted(pages[rightPage].leaf, u).keys| <= SIZES.leafN
      modifies `pages, `pins
      ensures var target, other := if u.key <= medianKey then c else rightPage, if u.key <= medianKey then rightPage else c;
              var leaf, released := old(pages)[target].leaf, old(pins.kept)[other := old(pages)[other]];
              pages == old(pages)[target := LeafNode(Upserted(leaf, u))] &&
              pins.held == {} && pins.kept == (if dirty then released[target := LeafNode(Upserted(leaf, u))] else released) &&
              (!dirty ==> Upserted(leaf, u) == leaf) &&
              (u.kind.INSERT? ==> (dirty <==> LeafLookup(leaf, u.key) != Some(u.value)))
    {
      hide *;
      var targetPage := c;
      if u.key <= medianKey {
        pins := pins.Unpin(rightPage, pages[rightPage], true);
      } else {
        pins := pins.Unpin(c, pages[c], true);
        targetPage := rightPage;
      }
      var target;
      target, dirty := ApplyMessage(pages[targetPage].leaf, u);
      pages := pages[targetPage := LeafNode(target)];
      pins := pins.Unpin(targetPage, pages[targetPage], dirty);
    }

    /** The root's child is a leaf: it takes the message at once, after a split if it is full. */
    method UpsertLeafChild(u: Upsert, childIndex: nat, c: PageId, exclusiveMode: bool) returns (success: bool)
      requires Whole(pages, labels, rootID) && Newer(labels, rootID, u) && RootChild(pages, labels, rootID, u.key, childIndex, c)
      requires rootID in pages && pages[rootID].RootNode? && |pages[rootID].pivots| < SIZES.rootN
      requires childIndex < |pages[rootID].children| == |pages[rootID].pivots| + 1
      requires c in pages && pages[c].LeafNode? && c != rootID
      requires childIndex == LowerBound(pages[rootID].pivots, u.key) && pages[rootID].children[childIndex] == c
      requires pins.held == if exclusiveMode then {rootID, c} else {c}
      modifies `pages, `labels, `pins
      ensures pins.held == {} && (!success ==> pins.kept == old(pins.kept))
      ensures success && old(pins.kept == pages) ==> (pins.kept == pages <==> !Forgotten(old(pages)[c], u))
      ensures success && old(pins.kept == pages) && Forgotten(old(pages)[c], u) ==>
                HalfLost(pages, pins.kept, rootID, u.key, IsLargest(old(pages)[c], u.key))
      ensures success <==> exclusiveMode || !ChildMustSplit(old(pages)[c], u)
      ensures success ==> RootThen(old(pages), rootID, u, pages)
      ensures !success ==> pages == old(pages) && labels == old(labels)
      ensures success ==> Whole(pages, labels, rootID) && rootID in pages && pages[rootID].RootNode?
      ensures rootID in old(labels) && rootID in labels
      ensures success ==> Told(old(labels[rootID].view), u, labels[rootID].view)
      ensures !ChildMustSplit(old(pages)[c], u) ==>
                |old(pages)[c].leaf.keys| == |old(pages)[c].leaf.values| &&
                pages == old(pages)[c := LeafNode(Upserted(old(pages)[c].leaf, u))] &&
                pins.kept == if Touches(old(pages)[c].leaf, u) then old(pins.kept)[c := pages[c]] else old(pins.kept)
    {
      hide *;
      ConsistentRootOf(pages, labels, rootID);
      LeafChildParts(pages, labels, rootID, u.key, childIndex, c);
      Sizes();
      var leaf := pages[c].leaf;
      LeafMustSplit(leaf, u);
      LeafForgotten(leaf, u);
      if u.kind == INSERT && |leaf.keys| == SIZES.leafN {
        if !exclusiveMode {
          pins := pins.Unpin(c, pages[c], false);
          return false;
        }
        SplitFullChild(u, childIndex, c);
      } else {
        if exclusiveMode {
          pins := pins.Unpin(rootID, pages[rootID], false);
        }
        UpsertedSize(leaf, u);
        var target, dirty := ApplyMessage(leaf, u);
        labels := RootLeafUpsert(pages, labels, rootID, u, childIndex, c);
        RootThenSame(pages, rootID, u, childIndex, c, pages[c := LeafNode(target)]);
        pages := pages[c := LeafNode(target)];
        pins := pins.Unpin(c, pages[c], dirty);
      }
      return true;
    }

    /** The root's child is an inner node: it squashes or stores the message, or makes room for it
        by flushing, after a split if it has no free pivot. */
    method UpsertInnerChild(u: Upsert, childIndex: nat, c: PageId, exclusiveMode: bool, splitRoot: bool) returns (success: bool)
      requires Whole(pages, labels, rootID) && Newer(labels, rootID, u) && RootChild(pages, labels, rootID, u.key, childIndex, c)
      requires rootID in pages && pages[rootID].RootNode? && |pages[rootID].pivots| < SIZES.rootN
      requires childIndex < |pages[rootID].children| == |pages[rootID].pivots| + 1
      requires c in pages && pages[c].InnerNode? && c != rootID
      requires childIndex == LowerBound(pages[rootID].pivots, u.key) && pages[rootID].children[childIndex] == c
      requires pins.held == (if exclusiveMode then {rootID, c} else {c}) && (splitRoot ==> exclusiveMode)
      modifies `pages, `labels, `pins
      ensures pins.held == {} && (!success ==> pins.kept == old(pins.kept))
      ensures success && old(KeptBut(pages, pins.kept, if splitRoot then {rootID, c} else {c})) ==> pins.kept == pages
      ensures success <==> exclusiveMode || !ChildMustSplit(old(pages)[c], u)
      ensures success ==> RootThen(old(pages), rootID, u, pages)
      ensures !success ==> pages == old(pages) && labels == old(labels)
      ensures success ==> Whole(pages, labels, rootID) && rootID in pages && pages[rootID].RootNode?
      ensures rootID in old(labels) && rootID in labels
      ensures success ==> Told(old(labels[rootID].view), u, labels[rootID].view)
      ensures var n := old(pages)[c];
              MessageFor(n.upserts, u.key).Some? || |n.upserts| < SIZES.innerBN ==>
                pages == old(pages)[c := n.(upserts := WithUpsert(n.upserts, u))] && SameShape(old(labels), labels) &&
                pins.kept == (if splitRoot then old(pins.kept)[rootID := pages[rootID]] else old(pins.kept))[c := pages[c]]
    {
      hide *;
      ConsistentRootOf(pages, labels, rootID);
      InnerChildParts(pages, labels, rootID, u, childIndex, c);
      Sizes();
      var n := pages[c];
      InnerReadyParts(n);
      InnerMustSplit(n, u);
      var upsertIndex := LowerBound(KeysOf(n.upserts), u.key);
      BufferPosition(n.upserts, u.key);
      WithUpsertIs(n.upserts, u);
      if upsertIndex < |n.upserts| && n.upserts[upsertIndex].key == u.key {
        if exclusiveMode {
          pins := pins.Unpin(rootID, pages[rootID], splitRoot);
        }
        BufferSquashed(n.upserts, upsertIndex, u);
        var rest := n.upserts[upsertIndex := SquashUpserts(u, n.upserts[upsertIndex])];
        labels := RootInnerKeeps(pages, labels, rootID, u, childIndex, c, rest);
        RootThenSame(pages, rootID, u, childIndex, c, pages[c := n.(upserts := rest)]);
        BufferReleased(pages, old(pins), rootID, c, exclusiveMode, splitRoot, n.(upserts := rest));
        pages := pages[c := n.(upserts := rest)];
        pins := pins.Unpin(c, pages[c], true);
        return true;
      }
      if |n.upserts| < SIZES.innerBN {
        if exclusiveMode {
          pins := pins.Unpin(rootID, pages[rootID], splitRoot);
        }
        BufferInserted(n.upserts, upsertIndex, u);
        var rest := InsertAt(n.upserts, upsertIndex, u);
        labels := RootInnerKeeps(pages, labels, rootID, u, childIndex, c, rest);
        RootThenSame(pages, rootID, u, childIndex, c, pages[c := n.(upserts := rest)]);
        BufferReleased(pages, old(pins), rootID, c, exclusiveMode, splitRoot, n.(upserts := rest));
        pages := pages[c := n.(upserts := rest)];
        pins := pins.Unpin(c, pages[c], true);
        return true;
      }
      if |n.pivots| + 1 > SIZES.innerN && !exclusiveMode {
        pins := pins.Unpin(c, pages[c], false);
        return false;
      }
      ghost var _, _, _ := FlushRootChild(u, childIndex, c, exclusiveMode, splitRoot);
      return true;
    }

    /** The root's inner child has a full buffer: it removes messages, splits if it has no free
        pivot, and the removed messages cascade down. */
    method FlushRootChild(u: Upsert, childIndex: nat, c: PageId, exclusiveMode: bool, splitRoot: bool)
      returns (ghost rest': seq<Upsert>, ghost flushed: MessageMap, ghost gone': map<Key, Upsert>)
      requires Whole(pages, labels, rootID) && Newer(labels, rootID, u) && RootChild(pages, labels, rootID, u.key, childIndex, c)
      requires rootID in pages && pages[rootID].RootNode? && |pages[rootID].pivots| < SIZES.rootN
      requires childIndex < |pages[rootID].children| == |pages[rootID].pivots| + 1
      requires c in pages && InnerReady(pages[c]) && c != rootID && pages[c].InnerNode? && |pages[c].upserts| == SIZES.innerBN
      requires childIndex == LowerBound(pages[rootID].pivots, u.key) && pages[rootID].children[childIndex] == c
      requires ChildMustSplit(pages[c], u) <==> |pages[c].pivots| + 1 > SIZES.innerN
      requires |pages[c].pivots| + 1 > SIZES.innerN || splitRoot ==> exclusiveMode
      requires pins.held == if exclusiveMode then {rootID, c} else {c}
      modifies `pages, `labels, `pins
      ensures pins.held == {}
      ensures old(KeptBut(pages, pins.kept, if splitRoot then {rootID, c} else {c})) ==> pins.kept == pages
      ensures Whole(pages, labels, rootID) && rootID in pages && pages[rootID].RootNode?
      ensures rootID in old(labels) && rootID in labels && Told(old(labels[rootID].view), u, labels[rootID].view)
      ensures RootThen(old(pages), rootID, u, pages)
      ensures Rearranged(old(pages)[c].upserts, old(pages)[c].pivots, [u], rest', flushed, gone')
      ensures |flushed| == 1 && Sorted(rest') && MadeRoom(old(pages)[c].pivots, 1, flushed, gone', MapOf(rest'))
      ensures c in pages && pages[c].InnerNode? && pages[c].upserts == StaysBuffered(old(pages)[c], rest')
    {
      hide *;
      ConsistentRootOf(pages, labels, rootID);
      Sizes();
      OneRun(u);
      ghost var pages0, A := pages, labels;
      var n := pages[c];
      InnerReadyParts(n);
      var rest, targetMap, gone := MakeRoom(n, [u]);
      assert |targetMap| == 1;
      rest', flushed, gone' := rest, targetMap, gone;
      var queue;
      ghost var pend;
      if |n.pivots| + 1 > SIZES.innerN {
        queue, pend := SplitRootChild(u, childIndex, c, splitRoot, rest, targetMap, gone);
      } else {
        var n' := n.(upserts := rest);
        RootThenSame(pages, rootID, u, childIndex, c, pages[c := n']);
        BufferedWhole(n, rest);
        pages := pages[c := n'];
        if exclusiveMode {
          pins := pins.Unpin(rootID, pages[rootID], splitRoot);
        }
        assert old(KeptBut(pages, pins.kept, if splitRoot then {rootID, c} else {c})) ==> AllKept(pages, pins) by {
          BufferWritten(pages0, old(pins), rootID, c, exclusiveMode, splitRoot, n');
        }
        labels := RootInnerFlush(pages0, labels, rootID, u, childIndex, c, rest, targetMap, gone);
        queue, pend := [Entry(c, targetMap)], map[c := gone];
        assert QueuePages(queue) == {c} by { OnePage(Entry(c, targetMap)); }
      }
      ghost var B, pages1 := labels, pages;
      CascadingParts(pages, labels, rootID, pend, queue);
      HeightOfRoot(pages, labels, rootID, pend);
      TraverseLevels(queue, pend, labels[c].height);
      UndisturbedRoot(B, B[c].height, pages0, rootID, u, pages1, pages);
      BufferStays(B, B[c].height, pages1, pages, c);
      KeptParts(B, labels, rootID);
      HeightAt(B, labels, rootID);
      HighRootIsRootNode(pages, labels, rootID);
      AllKeptAtEnd(pages, pins);
      ToldThrough(A[rootID].view, u, B[rootID].view, labels[rootID].view);
    }

    /** The inner child that flushes splits first: the root gains a pivot and is released, and so is
        the half that gets none of the removed messages. */
    method SplitRootChild(u: Upsert, childIndex: nat, c: PageId, ghost splitRoot: bool, rest: seq<Upsert>, targetMap: MessageMap, ghost gone: map<Key, Upsert>)
      returns (queue: seq<Entry>, ghost pend: Pending)
      requires Whole(pages, labels, rootID) && Newer(labels, rootID, u) && RootChild(pages, labels, rootID, u.key, childIndex, c)
      requires rootID in pages && pages[rootID].RootNode? && |pages[rootID].pivots| < SIZES.rootN
      requires childIndex < |pages[rootID].children| == |pages[rootID].pivots| + 1
      requires c in pages && InnerReady(pages[c]) && c != rootID && pages[c].InnerNode? && ChildMustSplit(pages[c], u)
      requires |pages[c].pivots| == SIZES.innerN
      requires childIndex == LowerBound(pages[rootID].pivots, u.key) && pages[rootID].children[childIndex] == c
      requires Rearranged(pages[c].upserts, pages[c].pivots, [u], rest, targetMap, gone) && targetMap != map[]
      requires pins.held == {rootID, c}
      modifies `pages, `labels, `pins
      ensures rootID in old(labels) && rootID in labels && Told(old(labels[rootID].view), u, labels[rootID].view) && c in labels
      ensures Cascading(pages, labels, rootID, pend, queue) && Leveled(labels, queue, labels[c].height, |queue|)
      ensures rootID in pages && pages[rootID].RootNode? && RootThen(old(pages), rootID, u, pages)
      ensures pins.held == QueuePages(queue)
      ensures old(KeptBut(pages, pins.kept, if splitRoot then {rootID, c} else {c})) ==> AllKept(pages, pins)
      ensures c in pages && pages[c].InnerNode? && pages[c].upserts == StaysBuffered(old(pages)[c], rest)
    {
      hide *;
      ghost var pages0 := pages;
      InnerReadyParts(pages[c]);
      BufferedHalf(pages[c], rest);
      Sizes();
      var n := pages[c];
      InnerReadyParts(n);
      var n' := n.(upserts := rest);
      pages := pages[c := n'];
      var rightPage, middleKey := SplitInnerNode(c);
      var at := |n.pivots| - |n.pivots| / 2 - 1;
      SplitSizes(|n.pivots|);
      var root := pages[rootID];
      pages := pages[rootID := RootNode(InsertAt(root.pivots, childIndex, middleKey), InsertAt(root.children, childIndex + 1, rightPage))];
      pins := pins.Unpin(rootID, pages[rootID], true);
      assert RootThen(pages0, rootID, u, pages) by {
        InnerCutAt(n, u);
        RootThenGains(pages0, rootID, u, childIndex, c, middleKey, rightPage, pages);
      }
      assert old(KeptBut(pages, pins.kept, if splitRoot then {rootID, c} else {c})) ==> AllKept(pages, pins) by {
        SplitRootReleased(pages0, old(pins), rootID, c, rightPage, splitRoot, pages, pins);
      }
      var leftMap, rightMap := SplitMap(targetMap, at);
      ghost var B;
      B, pend := RootInnerSplit(pages0, labels, rootID, u, childIndex, c, rightPage, rest, targetMap, gone, n', at, leftMap, rightMap);
      assert pages == InnerSplitPages(pages0, rootID, childIndex, c, rightPage, n', at) by {
        InnerSplitPagesIs(pages0, rootID, childIndex, c, rightPage, n', at);
        OverwriteTwice(pages0, c, n', InnerLeft(n', at), rightPage, InnerRight(n', at));
      }
      labels := B;
      queue := HalfEntries(c, leftMap, rightPage, rightMap);
      pins := UnpinEmptyHalves(pins, pages, c, leftMap, rightPage, rightMap);
    }

    /** The full root splits; of its new children the one that gets the message stays pinned. */
    method SplitRootFor(u: Upsert) returns (childIndex: nat)
      requires Whole(pages, labels, rootID) && Newer(labels, rootID, u) && rootID in pages && pages[rootID].RootNode?
      requires |pages[rootID].children| == |pages[rootID].pivots| + 1 && |pages[rootID].pivots| == SIZES.rootN
      requires pins.held == {rootID}
      modifies `pages, `labels, `pins
      ensures Whole(pages, labels, rootID) && Newer(labels, rootID, u) && rootID in pages && pages[rootID].RootNode?
      ensures rootID in old(labels) && rootID in labels && labels[rootID].view == old(labels[rootID].view)
      ensures |pages[rootID].pivots| < SIZES.rootN && childIndex < |pages[rootID].children| == |pages[rootID].pivots| + 1
      ensures var c := pages[rootID].children[childIndex];
              childIndex == LowerBound(pages[rootID].pivots, u.key) &&
              RootChild(pages, labels, rootID, u.key, childIndex, c) && c in pages && pages[c].InnerNode? && c != rootID &&
              pins.held == {rootID, c} && (old(pins.kept == pages) ==> KeptBut(pages, pins.kept, {rootID, c}))
      ensures CutIfFull(old(pages), rootID, pages)
    {
      hide *;
      ghost var A, pages0, kept := labels, pages, pins.kept == pages;
      var children, midPivots := SplitRootNode();
      CutNodes(pages0, rootID, pages, children, midPivots);
      Sizes();
      WasCut(pages0, rootID, pages, children);
      assert kept ==> AllKept(pages, pins) by {
        if kept { CutKept(pages0, rootID, pages, children, midPivots, pins); }
      }
      NewerStill(A, labels, rootID, u);
      RootRoutes(pages, labels, rootID, u.key);
      childIndex := LowerBound(midPivots, u.key);
      RootChildParts(pages, labels, rootID, u.key, childIndex, children[childIndex]);
      OthersStart(rootID, children, childIndex);
      ghost var pages1, B := pages, labels;
      for i := 0 to |children|
        invariant pages == pages1 && labels == B
        invariant pins.held == Others(rootID, children, childIndex, i) && (kept ==> AllKept(pages, pins))
      {
        OthersStep(rootID, children, childIndex, i);
        if i != childIndex {
          UnpinHolds(pages, pins, children[i]);
          pins := pins.Unpin(children[i], pages[children[i]], true);
        }
      }
      OthersEnd(rootID, children, childIndex);
      HeldIs(pages, pins, {rootID, children[childIndex]});
    }

    /** handleRootRootUpsert: an attempt without exclusive access gives up, changing nothing, exactly
        if the root or its child has to split; an exclusive attempt always succeeds. */
    method HandleRootRootUpsert(u: Upsert, exclusiveMode: bool) returns (success: bool)
      requires Whole(pages, labels, rootID) && Newer(labels, rootID, u) && rootID in pages && pages[rootID].RootNode?
      requires pins.held == if exclusiveMode then {rootID} else {}
      modifies `pages, `labels, `pins
      ensures pins.held == {} && (!success ==> pins.kept == old(pins.kept))
      ensures success && old(pins.kept == pages) ==> (pins.kept == pages <==> !Forgets(old(pages), rootID, u))
      ensures success && old(pins.kept == pages) && Forgets(old(pages), rootID, u) ==>
                HalfLost(pages, pins.kept, rootID, u.key, LargestAtChild(old(pages), rootID, u.key))
      ensures success <==> exclusiveMode || !MustSplit(old(pages), rootID, u)
      ensures success ==> RootUpserted(old(pages), rootID, u, pages)
      ensures !success ==> pages == old(pages) && labels == old(labels)
      ensures success ==> Whole(pages, labels, rootID) && rootID in pages && pages[rootID].RootNode?
      ensures rootID in old(labels) && rootID in labels
      ensures success ==> Told(old(labels[rootID].view), u, labels[rootID].view)
      ensures StaysAtChild(old(pages), rootID, u.key) ==>
                success && pages == PagesWith(old(pages), rootID, u) && SameShape(old(labels), labels)
      ensures LeafTakes(old(pages), rootID, u.key) ==> success && pages == LeafTaken(old(pages), rootID, u)
    {
      hide *;
      ghost var pages0 := pages;
      if StaysAtChild(pages, rootID, u.key) {
        StaysParts(pages, rootID, u.key);
        StaysWithoutSplit(pages, rootID, u);
        PagesWithIs(pages, rootID, u);
      }
      ConsistentRootOf(pages, labels, rootID);
      RootRoutes(pages, labels, rootID, u.key);
      var root := pages[rootID];
      var childIndex := LowerBound(root.pivots, u.key);
      RootChildParts(pages, labels, rootID, u.key, childIndex, root.children[childIndex]);
      MustSplitIs(pages, rootID, u);
      ForgetsIs(pages, rootID, u);
      LargestIs(pages, rootID, u.key);
      ghost var A := labels;
      var splitRoot := false;
      if |root.pivots| == SIZES.rootN {
        assert !LeafTakes(pages0, rootID, u.key) by {
          if LeafTakes(pages0, rootID, u.key) { LeafTakesIs(pages0, rootID, u); }
        }
        if !exclusiveMode {
          return false;
        }
        childIndex := SplitRootFor(u);
        root := pages[rootID];
        splitRoot := true;
      } else {
        pins := pins.Pin(root.children[childIndex]);
        assert old(pins.kept == pages) ==> forall S: set<PageId> :: KeptBut(pages, pins.kept, S) by {
          if pins.kept == pages { KeptThenAll(pages, pins); }
        }
      }
      ghost var A1, cut := labels, pages;
      assert CutIfFull(pages0, rootID, cut) by {
        if |pages0[rootID].pivots| != SIZES.rootN { NotCut(pages0, rootID); }
      }
      var targetPage := root.children[childIndex];
      if pages[targetPage].LeafNode? {
        success := UpsertLeafChild(u, childIndex, targetPage, exclusiveMode);
      } else {
        InnerNotForgotten(pages[targetPage], u);
        success := UpsertInnerChild(u, childIndex, targetPage, exclusiveMode, splitRoot);
      }
      assert LeafTakes(pages0, rootID, u.key) ==> success && pages == LeafTaken(pages0, rootID, u) by {
        if LeafTakes(pages0, rootID, u.key) {
          LeafTakesIs(pages0, rootID, u);
          LeafTakesWithoutSplit(pages0, rootID, u);
        }
      }
      if success {
        RootUpsertedFrom(pages0, rootID, cut, u, pages);
        ToldFrom(A[rootID].view, A1[rootID].view, u, labels[rootID].view);
      }
    }

    /** The full lone leaf splits at the median, its halves move below a new root node, and the half
        that gets the new key takes it. */
    method SplitLoneLeaf(u: Upsert, index: nat)
      requires Whole(pages, labels, rootID) && Newer(labels, rootID, u) && rootID in pages && pages[rootID].LeafNode?
      requires u.kind.INSERT? && u.key !in pages[rootID].leaf.keys && |pages[rootID].leaf.keys| == SIZES.leafN
      requires index == LowerBound(pages[rootID].leaf.keys, u.key) && pins.held == {rootID}
      modifies `pages, `labels, `rootLeaf, `pins
      ensures pins.held == {} && (old(pins.kept == pages) ==> pins.kept == pages)
      ensures Whole(pages, labels, rootID) && rootID in pages && pages[rootID].RootNode? && !rootLeaf
      ensures rootID in old(labels) && rootID in labels && Told(old(labels[rootID].view), u, labels[rootID].view)
      ensures HalvesBelow(old(pages[rootID].leaf), u, pages, rootID)
    {
      hide *;
      ConsistentRootOf(pages, labels, rootID);
      LoneLeafParts(pages, labels, rootID);
      Sizes();
      var leaf := pages[rootID].leaf;
      OneRun(u);
      LeafAscending(leaf, [u]);
      var medianKey := Median.FindMedianKey(leaf.keys, KeysOf([u]));
      ghost var pages0 := pages;
      var rightPage := SplitLeafNode(rootID, medianKey);
      var newRoot := CreatePage(pages.Keys);
      pins := pins.Pin(newRoot);
      ghost var B := RootLeafFull(pages0, labels, rootID, u, newRoot, rightPage, medianKey);
      var left, right := pages[rootID].leaf, pages[rightPage].leaf;
      assert left == SplitLeft(leaf, medianKey) && right == SplitRight(leaf, medianKey);
      pages := pages[newRoot := LeafNode(left)][rootID := RootNode([medianKey], [newRoot, rightPage])];
      rootLeaf := false;
      ghost var pages1 := pages0[rightPage := LeafNode(right)][newRoot := LeafNode(left)][rootID := RootNode([medianKey], [newRoot, rightPage])];
      assert pages == pages1 by { RootMoved(pages0, rootID, rightPage, newRoot, LeafNode(left), LeafNode(right), pages[rootID]); }
      pins := pins.Unpin(rootID, pages[rootID], true);
      assert HalvesReady(u, medianKey, left, right, index) by { HalvesReadyFrom(leaf, u, medianKey); }
      InsertIntoHalf(u, index, medianKey, newRoot, rightPage, left, right);
      LoneLeafSplitIs(pages0, rootID, u, newRoot, rightPage, medianKey, left, right, pages1, pages);
      assert HalvesBelow(leaf, u, pages, rootID) by {
        HalvesAre(leaf, u, newRoot, rightPage, medianKey, left, right, pages1, rootID, pages);
      }
      labels := B;
      assert old(pins.kept == pages) ==> pins.kept == pages by {
        GrownReleased(pages0, rootID, newRoot, rightPage, pages);
      }
    }

    /** The half of the split leaf that gets the new key takes it, at the position found before the
        split, less the keys that went to the left. */
    method InsertIntoHalf(u: Upsert, index: nat, medianKey: Key, newRoot: PageId, rightPage: PageId, left: Leaf, right: Leaf)
      requires newRoot in pages && pages[newRoot] == LeafNode(left) && rightPage in pages && pages[rightPage] == LeafNode(right)
      requires newRoot != rightPage && pins.held == {newRoot, rightPage} && u.kind.INSERT?
      requires HalvesReady(u, medianKey, left, right, index)
      modifies `pages, `pins
      ensures pages == if u.key <= medianKey then old(pages)[newRoot := LeafNode(Upserted(left, u))]
                       else old(pages)[rightPage := LeafNode(Upserted(right, u))]
      ensures pins.held == {}
      ensures pins.kept == if u.key <= medianKey then old(pins.kept)[rightPage := pages[rightPage]][newRoot := pages[newRoot]]
                           else old(pins.kept)[newRoot := pages[newRoot]][rightPage := pages[rightPage]]
    {
      var targetPage, target, keyIndex := newRoot, left, index;
      if u.key <= medianKey {
        pins := pins.Unpin(rightPage, pages[rightPage], true);
      } else {
        targetPage, target, keyIndex := rightPage, right, index - |left.keys|;
        pins := pins.Unpin(newRoot, pages[newRoot], true);
      }
      InsertedIs(target, u);
      hide *;
      pages := pages[targetPage := LeafNode(Leaf(InsertAt(target.keys, keyIndex, u.key), InsertAt(target.values, keyIndex, u.value)))];
      pins := pins.Unpin(targetPage, pages[targetPage], true);
    }

    /** handleRootLeafUpsert: the root is still a leaf. If it is full it splits, its halves move to
        new pages, and the root becomes a root node above them. */
    method HandleRootLeafUpsert(u: Upsert)
      requires Whole(pages, labels, rootID) && Newer(labels, rootID, u) && rootID in pages && pages[rootID].LeafNode? && rootLeaf
      requires pins.held == {rootID}
      modifies `pages, `labels, `rootLeaf, `pins
      ensures pins.held == {} && (old(pins.kept == pages) ==> pins.kept == pages)
      ensures Whole(pages, labels, rootID) && rootID in pages && (rootLeaf <==> pages[rootID].LeafNode?)
      ensures rootID in old(labels) && rootID in labels && Told(old(labels[rootID].view), u, labels[rootID].view)
      ensures rootLeaf <==>
                !(u.kind.INSERT? && u.key !in old(pages[rootID].leaf.keys) && old(|pages[rootID].leaf.keys|) == SIZES.leafN)
      ensures LoneLeafTook(old(pages), rootID, u, pages)
      ensures rootLeaf ==>
                pins.kept == if Touches(old(pages)[rootID].leaf, u) then old(pins.kept)[rootID := pages[rootID]] else old(pins.kept)
    {
      hide *;
      ConsistentRootOf(pages, labels, rootID);
      LoneLeafParts(pages, labels, rootID);
      var leaf := pages[rootID].leaf;
      var keyIndex := LowerBound(leaf.keys, u.key);
      FoundIs(leaf, u.key);
      UpsertedSize(leaf, u);
      Sizes();
      ghost var pages0 := pages;
      if u.kind == INSERT && !(keyIndex < |leaf.keys| && leaf.keys[keyIndex] == u.key) && |leaf.keys| == SIZES.leafN {
        SplitLoneLeaf(u, keyIndex);
      } else {
        var target, dirty := ApplyMessage(leaf, u);
        labels := RootLeafDirect(pages, labels, rootID, u);
        pages := pages[rootID := LeafNode(target)];
        pins := pins.Unpin(rootID, pages[rootID], dirty);
      }
      LoneLeafTookIs(pages0, rootID, u, pages);
    }

    // ---- operations -------------------------------------------------------------------------

    /** Applies a message; an attempt that gave up is repeated with exclusive access. */
    method Upsert(u: Upsert)
      requires Whole(pages, labels, rootID) && Newer(labels, rootID, u) && rootID in pages && (rootLeaf <==> pages[rootID].LeafNode?)
      requires pins.held == {}
      modifies `pages, `labels, `rootLeaf, `pins
      ensures pins.held == {}
      ensures old(Durable()) ==> (Durable() <==> !Forgets(old(pages), rootID, u))
      ensures old(Durable()) && Forgets(old(pages), rootID, u) ==>
                HalfLost(pages, pins.kept, rootID, u.key, LargestAtChild(old(pages), rootID, u.key))
      ensures Whole(pages, labels, rootID) && rootID in pages && (rootLeaf <==> pages[rootID].LeafNode?)
      ensures rootID in old(labels) && rootID in labels && Told(old(labels[rootID].view), u, labels[rootID].view)
      ensures old(pages[rootID].LeafNode? && |pages[rootID].leaf.keys| < SIZES.leafN) ==> rootLeaf
      ensures StaysAtChild(old(pages), rootID, u.key) ==>
                pages == PagesWith(old(pages), rootID, u) && SameShape(old(labels), labels)
      ensures old(pages[rootID].LeafNode?) ==> LoneLeafTook(old(pages), rootID, u, pages)
      ensures old(pages[rootID].RootNode?) ==> RootUpserted(old(pages), rootID, u, pages)
      ensures LeafTakes(old(pages), rootID, u.key) ==> pages == LeafTaken(old(pages), rootID, u)
    {
      hide *;
      if StaysAtChild(pages, rootID, u.key) { StaysParts(pages, rootID, u.key); }
      if LeafTakes(pages, rootID, u.key) { LeafTakesIs(pages, rootID, u); }
      ConsistentRootOf(pages, labels, rootID);
      RootKind(pages, labels, rootID);
      DurableIs();
      if pages[rootID].LeafNode? {
        LoneLeafForgetsNothing(pages, rootID, u);
        pins := pins.Pin(rootID);
        HandleRootLeafUpsert(u);
        DurableIs();
        return;
      }
      var success := HandleRootRootUpsert(u, false);
      if !success {
        pins := pins.Pin(rootID);
        success := HandleRootRootUpsert(u, true);
      }
      DurableIs();
    }

    lemma DurableIs()
      ensures Durable() <==> pins.kept == pages
    {
    }

    lemma DenotesView(k: Key)
      requires Valid()
      ensures Denotes(k) == labels[rootID].view[k].value
    {
      WholeParts(pages, labels, rootID);
      WholeRange(labels, rootID, k);
      MeaningIsView(pages, labels, rootID, rootID, k);
    }

    lemma NewerThanAll(u: Upsert)
      requires Valid() && u.timeStamp == currentTimeStamp + 1
      ensures Newer(labels, rootID, u) && Whole(pages, labels, rootID)
    {
      hide Whole;
    }

    /** A message with a fresh time stamp acts on its own key and on no other. */
    method Send(key: Key, value: Value, kind: UpsertType)
      requires Valid()
      modifies this
      ensures Valid() && currentTimeStamp == old(currentTimeStamp) + 1 && rootID == old(rootID)
      ensures forall k: Key :: Denotes(k) ==
                if k == key then Act(Messages.Upsert(key, value, currentTimeStamp, kind), old(Denotes(k))) else old(Denotes(k))
      ensures forall k: Key :: Sound(k) <==>
                if k == key && !kind.UPDATE? then true else old(Sound(k)) && (k == key ==> old(Denotes(k)).Some?)
      ensures old(pages[rootID].LeafNode? && |pages[rootID].leaf.keys| < SIZES.leafN) ==> rootLeaf
      ensures StaysAtChild(old(pages), old(rootID), key) ==>
                labels[rootID].height == old(labels[rootID].height) &&
                pages == PagesWith(old(pages), rootID, Messages.Upsert(key, value, currentTimeStamp, kind))
      ensures old(pages[rootID].LeafNode?) ==>
                LoneLeafTook(old(pages), rootID, Messages.Upsert(key, value, currentTimeStamp, kind), pages)
      ensures LeafTakes(old(pages), rootID, key) ==>
                pages == LeafTaken(old(pages), rootID, Messages.Upsert(key, value, currentTimeStamp, kind))
      ensures old(Durable()) ==>
                (Durable() <==> !Forgets(old(pages), old(rootID), Messages.Upsert(key, value, currentTimeStamp, kind)))
      ensures old(Durable()) && Forgets(old(pages), old(rootID), Messages.Upsert(key, value, currentTimeStamp, kind)) ==>
                HalfLost(pages, pins.kept, rootID, key, LargestAtChild(old(pages), old(rootID), key))
    {
      forall k: Key ensures Denotes(k) == labels[rootID].view[k].value {
        DenotesView(k);
      }
      currentTimeStamp := currentTimeStamp + 1;
      hide Whole, Meaning, Act, LoneLeafTook, LeafTakes, LeafTaken;
      var message := Messages.Upsert(key, value, currentTimeStamp, kind);
      Upsert(message);
      ToldStamps(old(labels[rootID].view), message, labels[rootID].view, old(currentTimeStamp));
      forall k: Key ensures Denotes(k) == labels[rootID].view[k].value {
        DenotesView(k);
      }
    }

    /** insert */
    method Insert(key: Key, value: Value)
      requires Valid()
      modifies this
      ensures Valid() && rootID == old(rootID)
      ensures forall k: Key :: Denotes(k) == if k == key then Some(value) else old(Denotes(k))
      ensures forall k: Key :: Sound(k) <==> k == key || old(Sound(k))
      ensures old(Durable()) ==>
                (Durable() <==> !Forgets(old(pages), old(rootID), Messages.Upsert(key, value, old(currentTimeStamp) + 1, INSERT)))
      ensures old(Durable()) && Forgets(old(pages), old(rootID), Messages.Upsert(key, value, old(currentTimeStamp) + 1, INSERT)) ==>
                HalfLost(pages, pins.kept, rootID, key, LargestAtChild(old(pages), old(rootID), key))
      ensures old(Durable() && Denotes(key) != Some(value)) ==> Durable()
      ensures old(pages[rootID].LeafNode?) ==>
                LoneLeafTook(old(pages), rootID, Messages.Upsert(key, value, old(currentTimeStamp) + 1, INSERT), pages)
      ensures LeafTakes(old(pages), rootID, key) ==>
                pages == LeafTaken(old(pages), rootID, Messages.Upsert(key, value, old(currentTimeStamp) + 1, INSERT))
      ensures old(pages[rootID].LeafNode? && |pages[rootID].leaf.keys| < SIZES.leafN) ==> rootLeaf
    {
      hide *;
      ghost var u := Messages.Upsert(key, value, currentTimeStamp + 1, INSERT);
      assert Durable() && Denotes(key) != Some(value) ==> !Forgets(pages, rootID, u) by { InsertForgets(u); }
      InsertActs(u);
      Send(key, value, INSERT);
    }

    lemma InsertForgets(u: Upsert)
      requires Valid()
      ensures Forgets(pages, rootID, u) ==> Denotes(u.key) == Some(u.value)
    {
      ForgottenIsDenoted(pages, labels, rootID, u);
      hide Meaning, Whole, Forgets;
    }

    /** update: adds to the value of a present key and does nothing for an absent one. */
    method Update(key: Key, value: Value)
      requires Valid()
      modifies this
      ensures Valid()
      ensures forall k: Key :: Denotes(k) ==
                if k == key && old(Denotes(k)).Some? then Some(Add(old(Denotes(k)).value, value)) else old(Denotes(k))
      ensures forall k: Key :: Sound(k) <==> old(Sound(k)) && (k == key ==> old(Denotes(k)).Some?)
      ensures old(Durable()) ==> Durable()
      ensures StaysAtChild(old(pages), old(rootID), key) ==>
                rootID == old(rootID) && labels[rootID].height == old(labels[rootID].height) &&
                pages == PagesWith(old(pages), rootID, Messages.Upsert(key, value, old(currentTimeStamp) + 1, UPDATE))
    {
      hide Meaning, Whole;
      Send(key, value, UPDATE);
    }

    /** erase sends a deletion with an arbitrary value, which nobody reads. */
    method Erase(key: Key)
      requires Valid()
      modifies this
      ensures Valid()
      ensures forall k: Key :: Denotes(k) == if k == key then None else old(Denotes(k))
      ensures forall k: Key :: Sound(k) <==> k == key || old(Sound(k))
      ensures old(Durable()) ==> Durable()
    {
      hide Meaning, Whole;
      var anyValue: Value := *;
      Send(key, anyValue, DELETE);
    }

    /** The map the tree denotes. */
    ghost predicate Represents(m: map<Key, Value>)
      requires Valid()
      reads this
    {
      forall k: Key :: Denotes(k) == Get(m, k)
    }

    method Perform(op: Operation, ghost m: map<Key, Value>)
      requires Valid() && Represents(m)
      modifies this
      ensures Valid() && Represents(PlainStep(m, op))
      ensures forall k: Key :: Sound(k) <==> StaysSettled(m, op, k, old(Sound(k)))
      ensures old(Durable()) && !Rewrites(m, op) ==> Durable()
    {
      hide Meaning, Whole;
      match op {
        case InsertOp(k, v) => Insert(k, v);
        case UpdateOp(k, v) => Update(k, v);
        case EraseOp(k) => Erase(k);
      }
    }

    /** A run of operations leaves the tree denoting what the same run leaves of a plain map, and a
        key sound that the run settles. It does so with the assertion of LeafArrays.ShownBehind
        compiled out: otherwise a cascade may stop the program when it inserts a leaf's largest key
        again that was deleted before. The map is read from the pages as they are in memory. A page
        that is evicted comes back as it was if `Durable()` holds, which the run keeps unless one of
        its insertions repeats the value its key has; which of those break it, Insert says. */
    method Run(ops: seq<Operation>, ghost m: map<Key, Value>)
      requires Valid() && Represents(m)
      modifies this
      ensures Valid() && Represents(PlainRun(m, ops))
      ensures forall k: Key :: old(Sound(k)) && Settled(m, ops, k) ==> Sound(k)
      ensures old(Durable()) && NoRewrites(m, ops) ==> Durable()
    {
      hide *;
      PlainRunStart(m, ops);
      for j := 0 to |ops|
        invariant Valid() && Represents(PlainRun(m, ops[..j]))
        invariant forall k: Key :: old(Sound(k)) && Settled(m, ops[..j], k) ==> Sound(k)
        invariant old(Durable()) && NoRewrites(m, ops) ==> Durable()
      {
        PlainRunNext(m, ops, j);
        assert NoRewrites(m, ops) ==> !Rewrites(PlainRun(m, ops[..j]), ops[j]) by { RewriteAt(m, ops, j); }
        label Before:
        Perform(ops[j], PlainRun(m, ops[..j]));
        forall k: Key | old(Sound(k)) && Settled(m, ops[..j + 1], k) ensures Sound(k) {
          SettledNext(m, ops, j, k);
          SettledOnly(PlainRun(m, ops[..j]), ops[j], k, Settled(m, ops[..j], k), old@Before(Sound(k)));
        }
      }
      assert ops[..|ops|] == ops;
    }

    /** find: collects updates on the way down, stops at the first insert or delete, and adds the
        updates to the base value, oldest first. It finds nothing while the root is a leaf, and
        fails its assertion exactly if updates wait for a key that has no base: never for a sound key. */
    method Find(key: Key) returns (r: FindResult)
      requires Valid()
      ensures pages[rootID].LeafNode? ==> r == Found(None)
      ensures !pages[rootID].LeafNode? ==>
                r == if Dangling(pages, rootID, labels[rootID].height, key) then AssertionFailed else Found(Denotes(key))
      ensures Sound(key) && !pages[rootID].LeafNode? ==> r == Found(Denotes(key))
    {
      hide *;
      ValidWhole();
      SoundHolds(key);
      RootKind(pages, labels, rootID);
      if !pages[rootID].RootNode? {
        return Found(None);
      }
      StartSearch(pages, labels, rootID, key);
      var root := pages[rootID];
      var currentPage := root.children[LowerBound(root.pivots, key)];
      var accumulatedUpdates: seq<Value> := [];
      var currentValue: Option<Value> := None;
      var stopped := false;
      ghost var h := labels[rootID].height - 1;
      while !stopped && pages[currentPage].InnerNode?
        invariant currentPage in pages
        invariant !stopped ==> currentValue == None && Searching(pages, labels, rootID, key, currentPage, h, accumulatedUpdates)
        invariant stopped ==> SearchOver(pages, labels, rootID, key, currentValue, accumulatedUpdates)
        decreases !stopped, h
      {
        SearchStep(pages, labels, rootID, key, currentPage, h, accumulatedUpdates);
        var n := pages[currentPage];
        var localUpdates, inserted, deleted := ReadBuffer(n.upserts, key);
        currentValue := inserted;
        if deleted {
          accumulatedUpdates := [];
        }
        assert localUpdates == [] ==> localUpdates + accumulatedUpdates == accumulatedUpdates;
        accumulatedUpdates := localUpdates + accumulatedUpdates;
        if deleted || currentValue.Some? {
          stopped := true;
        } else {
          currentPage := n.children[LowerBound(n.pivots, key)];
          h := h - 1;
        }
      }
      if !stopped {
        SearchLeaf(pages, labels, rootID, key, currentPage, h, accumulatedUpdates);
        var leaf := pages[currentPage].leaf;
        var index := LowerBound(leaf.keys, key);
        if index < |leaf.keys| && leaf.keys[index] == key {
          currentValue := Some(leaf.values[index]);
        }
      }
      SearchEnd(pages, labels, rootID, key, currentValue, accumulatedUpdates);
      ghost var base, all := currentValue, accumulatedUpdates;
      for j := 0 to |accumulatedUpdates|
        invariant base.Some? ==> currentValue.Some? && AddAll(currentValue.value, all[j..]) == AddAll(base.value, all)
        invariant base.None? ==> j == 0 && currentValue.None?
      {
        if currentValue.None? {
          return AssertionFailed;
        }
        AddNext(currentValue.value, all, j);
        currentValue := Some(Add(currentValue.value, accumulatedUpdates[j]));
      }
      AddDone(currentValue, all);
      return Found(currentValue);
    }

    lemma ValidWhole()
      requires Valid()
      ensures Whole(pages, labels, rootID) && rootID in pages && rootID in labels
      ensures forall k: Key :: Denotes(k) == Meaning(pages, rootID, labels[rootID].height, k)
    {
    }

    lemma SoundHolds(k: Key)
      requires Valid()
      ensures Sound(k) ==> !Dangling(pages, rootID, labels[rootID].height, k)
    {
      WholeParts(pages, labels, rootID);
      WholeRange(labels, rootID, k);
      hide Whole, Dangling;
      if Sound(k) { SoundNeverDangles(pages, labels, rootID, rootID, k); }
    }

    /** Every valid tree is well shaped: sorted and bounded nodes, all leaves equally deep. */
    lemma StructureHolds()
      requires Valid()
      ensures WellShaped(pages, rootID, labels[rootID].height, -1, MAX_KEY)
    {
      ShapeHolds(pages, labels, rootID, rootID);
    }

    /** A new tree is one empty leaf. */
    constructor ()
      ensures Valid() && Represents(map[]) && Durable() && rootLeaf && forall k: Key :: Sound(k)
      ensures pages == map[rootID := LeafNode(Leaf([], []))]
    {
      rootID := 0;
      pages := map[0 := LeafNode(Leaf([], []))];
      rootLeaf := true;
      currentTimeStamp := 0;
      pins := Pins.Pins({}, map[0 := LeafNode(Leaf([], []))]);
      labels := map[0 := EmptyLabel()];
      new;
      EmptyTree();
      hide Whole, Meaning;
      forall k: Key ensures Denotes(k) == Get(map[], k) {
        DenotesView(k);
      }
    }
  }

  lemma InsertActs(u: Upsert)
    requires u.kind.INSERT?
    ensures forall x :: Act(u, x) == Some(u.value)
  {
  }

  /** While the root is a leaf, find does not see what the tree holds: a key that has just been
      inserted into a new tree is not found. */
  method LeafRootHidesKeys(key: Key, value: Value) returns (tree: BeTree, r: FindResult)
    ensures tree.Valid() && tree.Denotes(key) == Some(value) && r == Found(None)
  {
    hide Whole, Meaning;
    Sizes();
    tree := new BeTree();
    tree.Insert(key, value);
    r := tree.Find(key);
  }

  /** A client that updates a key only while it is present finds what the plain map has, however
      its messages have been buffered and flushed: find's assertion does not fail. */
  method FindAfterRun(ops: seq<Operation>, key: Key) returns (tree: BeTree, r: FindResult)
    requires Settled(map[], ops, key)
    ensures tree.Valid() && tree.Represents(PlainRun(map[], ops))
    ensures NoRewrites(map[], ops) ==> tree.Durable()
    ensures r == Found(if tree.rootLeaf then None else Get(PlainRun(map[], ops), key))
  {
    hide Whole, Meaning, Settled, PlainRun, Dangling;
    tree := new BeTree();
    tree.Run(ops, map[]);
    r := tree.Find(key);
  }

  /** A full leaf below the root is lost: its largest key is inserted again with the value it has. The
      tree goes on denoting the value, but once the pages are evicted the key is gone. */
  method RewriteLargest(tree: BeTree, key: Key, value: Value)
    requires tree.Valid() && tree.Durable()
    requires Forgets(tree.pages, tree.rootID, Messages.Upsert(key, value, tree.currentTimeStamp + 1, INSERT))
    requires LargestAtChild(tree.pages, tree.rootID, key)
    modifies tree
    ensures tree.Valid() && tree.Denotes(key) == Some(value) && !tree.Durable()
    ensures forall h: nat :: Meaning(tree.pins.kept, tree.rootID, h, key) == None
  {
    hide Meaning, Whole, Forgets, HalfLost, LargestAtChild;
    tree.Insert(key, value);
    forall h: nat ensures Meaning(tree.pins.kept, tree.rootID, h, key) == None {
      LostMeansNothing(tree.pages, tree.pins.kept, tree.rootID, h, key);
    }
  }

  /** A new tree whose only leaf has been filled with the keys from 0 on. */
  method FillLoneLeaf(value: Value) returns (tree: BeTree, key: Key)
    ensures fresh(tree) && tree.Valid() && tree.Durable() && EndsLone(tree.pages, tree.rootID, key, value)
    ensures |tree.pages[tree.rootID].leaf.keys| == SIZES.leafN && key < SIZES.leafN
  {
    hide *;
    KeysSuffice();
    tree := new BeTree();
    key := 0;
    EmptyEnds(tree.pages, tree.rootID, Messages.Upsert(key, value, tree.currentTimeStamp + 1, INSERT));
    tree.Insert(key, value);
    EndsLoneParts(tree.pages, tree.rootID, key, value);
    while |tree.pages[tree.rootID].leaf.keys| < SIZES.leafN
      invariant fresh(tree) && tree.Valid() && tree.Durable() && EndsLone(tree.pages, tree.rootID, key, value)
      invariant tree.rootID in tree.pages && tree.pages[tree.rootID].LeafNode?
      invariant |tree.pages[tree.rootID].leaf.keys| == key + 1 <= SIZES.leafN
    {
      NextInLoneLeaf(tree.pages, tree.rootID, key, value, Messages.Upsert(key + 1, value, tree.currentTimeStamp + 1, INSERT));
      key := key + 1;
      tree.Insert(key, value);
      EndsLoneParts(tree.pages, tree.rootID, key, value);
    }
  }

  /** The next key splits that leaf, and more keys fill the right one of its halves. */
  method FillRightLeaf(value: Value) returns (tree: BeTree, key: Key)
    requires 1 < SIZES.rootN
    ensures fresh(tree) && tree.Valid() && tree.Durable() && EndsRight(tree.pages, tree.rootID, key, value)
    ensures |tree.pages[tree.pages[tree.rootID].children[1]].leaf.keys| == SIZES.leafN
  {
    hide *;
    KeysSuffice();
    tree, key := FillLoneLeaf(value);
    EndsLoneParts(tree.pages, tree.rootID, key, value);
    NextSplitsLoneLeaf(tree.pages, tree.rootID, key, value, Messages.Upsert(key + 1, value, tree.currentTimeStamp + 1, INSERT));
    key := key + 1;
    tree.Insert(key, value);
    EndsRightParts(tree.pages, tree.rootID, key, value);
    var c := tree.pages[tree.rootID].children[1];
    while |tree.pages[c].leaf.keys| < SIZES.leafN
      invariant fresh(tree) && tree.Valid() && tree.Durable() && EndsRight(tree.pages, tree.rootID, key, value)
      invariant tree.rootID in tree.pages && tree.pages[tree.rootID].RootNode? && |tree.pages[tree.rootID].children| == 2
      invariant c == tree.pages[tree.rootID].children[1] && c in tree.pages && tree.pages[c].LeafNode?
      invariant |tree.pages[c].leaf.keys| <= SIZES.leafN && key <= SIZES.leafN + |tree.pages[c].leaf.keys|
    {
      NextInRightLeaf(tree.pages, tree.rootID, key, value, Messages.Upsert(key + 1, value, tree.currentTimeStamp + 1, INSERT));
      key := key + 1;
      tree.Insert(key, value);
      EndsRightParts(tree.pages, tree.rootID, key, value);
    }
  }

  /** A run of insertions into a new tree that ends with a leaf lost: only the last one repeats a key.
      A root with room for a single pivot never has a leaf below it to split. */
  method FillAndRewrite(value: Value) returns (tree: BeTree, key: Key)
    requires 1 < SIZES.rootN
    ensures tree.Valid() && tree.Denotes(key) == Some(value) && !tree.Durable()
    ensures forall h: nat :: Meaning(tree.pins.kept, tree.rootID, h, key) == None
  {
    hide *;
    tree, key := FillRightLeaf(value);
    FullForgets(tree.pages, tree.rootID, Messages.Upsert(key, value, tree.currentTimeStamp + 1, INSERT));
    RewriteLargest(tree, key, value);
  }

  /** An update that stays with the root's child makes find fail exactly if its key has no base. */
  method UpdateThenFind(tree: BeTree, key: Key, value: Value) returns (r: FindResult)
    requires tree.Valid() && StaysAtChild(tree.pages, tree.rootID, key)
    modifies tree
    ensures tree.Valid()
    ensures r == if old(NoBase(tree.pages, tree.rootID, tree.labels[tree.rootID].height, key)) then AssertionFailed
                 else Found(tree.Denotes(key))
  {
    hide *;
    ghost var u := Messages.Upsert(key, value, tree.currentTimeStamp + 1, UPDATE);
    tree.NewerThanAll(u);
    UpdateDanglesIff(tree.pages, tree.labels, tree.rootID, u);
    StaysParts(tree.pages, tree.rootID, key);
    PagesWithIs(tree.pages, tree.rootID, u);
    tree.Update(key, value);
    r := tree.Find(key);
  }

  lemma RewriteAt(m: map<Key, Value>, ops: seq<Operation>, j: nat)
    requires j < |ops|
    ensures NoRewrites(m, ops) ==> !Rewrites(PlainRun(m, ops[..j]), ops[j])
  {
  }

  lemma SettledOnly(m: map<Key, Value>, op: Operation, k: Key, s: bool, t: bool)
    requires StaysSettled(m, op, k, s) && (s ==> t)
    ensures StaysSettled(m, op, k, t)
  {
  }

  lemma OverwriteTwice(pages: Pages, c: PageId, n: Node, m: Node, r: PageId, k: Node)
    requires c != r
    ensures pages[c := n][c := m][r := k] == pages[c := m][r := k]
  {
  }

  /** An inner node between two operations on it. */
  ghost predicate InnerReady(n: Node) {
    && n.InnerNode? && |n.children| == |n.pivots| + 1 && Sorted(n.upserts)
    && |n.upserts| <= SIZES.innerBN && |n.pivots| <= SIZES.innerN
  }

  lemma InnerReadyParts(n: Node)
    requires InnerReady(n)
    ensures n.InnerNode? && |n.children| == |n.pivots| + 1 && Sorted(n.upserts) && KeyedRight(MapOf(n.upserts))
    ensures |n.upserts| <= SIZES.innerBN && |n.pivots| <= SIZES.innerN
  {
    MapKeyed(n.upserts);
  }

  lemma EntryEta(e: Entry)
    ensures e == Entry(e.page, e.messages)
  {
  }

  lemma SplitSizes(size: nat)
    requires size >= 2
    ensures size - size / 2 - 1 == SplitIndex(size) < size
  {
  }

  lemma ServingRoot(pages: Pages, A: Labelling, root: PageId, pend: Pending, p: PageId, rem: MessageMap,
                    ts: seq<PivotTuple>, queue: seq<Entry>, tasks: seq<Task>)
    requires Serving(pages, A, root, pend, p, rem, ts, queue, tasks)
    ensures root in A
  {
  }

  lemma CascadingRoot(pages: Pages, A: Labelling, root: PageId, pend: Pending, queue: seq<Entry>)
    requires Cascading(pages, A, root, pend, queue)
    ensures root in A
  {
  }

  lemma ReleasingRoot(pages: Pages, A: Labelling, root: PageId, pend: Pending, queue: seq<Entry>, tasks: seq<Task>)
    requires Releasing(pages, A, root, pend, queue, tasks)
    ensures root in A
  {
  }

  lemma HeightAt(A: Labelling, B: Labelling, p: PageId)
    requires HeightsKept(A, B) && p in A
    ensures p in B && B[p].height == A[p].height
  {
  }

  lemma KeptHeights(A: Labelling, B: Labelling, root: PageId)
    requires B.Keys == A.Keys && forall y :: y in A ==> B[y].height == A[y].height
    requires root in A && root in B && B[root].view == A[root].view
    ensures Kept(A, B, root)
  {
  }

  lemma KeptParts(A: Labelling, B: Labelling, root: PageId)
    requires Kept(A, B, root)
    ensures root in A && root in B && B[root].view == A[root].view && HeightsKept(A, B)
  {
  }

  lemma NoEntriesAt(A: Labelling, queue: seq<Entry>, h: int)
    ensures EntriesAt(A, [], h) && queue + [] == queue
  {
  }

  lemma PivotsDistinct(pages: Pages, A: Labelling, root: PageId, pend: Pending, p: PageId, rem: MessageMap,
                       ts: seq<PivotTuple>, queue: seq<Entry>, tasks: seq<Task>)
    requires Serving(pages, A, root, pend, p, rem, ts, queue, tasks)
    ensures forall i, j :: 0 <= i < j < |ts| ==> ts[i].index != ts[j].index
  {
    ServingParts(pages, A, root, pend, p, rem, ts, queue, tasks);
    UnservedDistinct(pages[p].children, pend, rem, ts, queue, tasks);
  }

  /** What a child to be served looks like. */
  lemma ChildToServe(pages: Pages, A: Labelling, root: PageId, pend: Pending, p: PageId, rem: MessageMap,
                     ts: seq<PivotTuple>, queue: seq<Entry>, tasks: seq<Task>, i: nat)
    requires Serving(pages, A, root, pend, p, rem, ts, queue, tasks) && i in rem
    ensures p in pages && pages[p].InnerNode? && i < |pages[p].children|
    ensures Sorted(rem[i]) && rem[i] != [] && |rem[i]| <= MAX_FLUSH_SIZE && KeyedRight(MapOf(rem[i]))
    ensures var c := pages[p].children[i];
            c in pages && !pages[c].RootNode? &&
            (pages[c].LeafNode? ==> LeafOK(pages[c].leaf) && |pages[c].leaf.keys| == |pages[c].leaf.values| && |pages[c].leaf.keys| <= SIZES.leafN) &&
            (pages[c].InnerNode? ==> InnerReady(pages[c]))
  {
    hide *;
    ReadyToServe(pages, A, root, pend, p, rem, ts, queue, tasks, i);
    var c := pages[p].children[i];
    ReadyParts(pages, A, root, pend, p, ts, i, c, rem[i]);
    if pages[c].LeafNode? {
      LeafContent(pages[c], A[c], map[]);
      LeafShape(pages[c].leaf);
    } else {
      InnerContent(pages[c], A[c], map[]);
      InnerKidsPart(A, root, c, pages[c]);
      InnerReadyFrom(pages[c]);
    }
  }

  lemma InnerReadyFrom(n: Node)
    requires n.InnerNode? && |n.children| == |n.pivots| + 1 && Sorted(n.upserts)
    requires |n.upserts| <= SIZES.innerBN && |n.pivots| <= SIZES.innerN
    ensures InnerReady(n)
  {
  }

  // ---- applying a task's messages -------------------------------------------------------------

  /** The number of messages that go to the left leaf. */
  ghost function TaskCut(t: Task): nat {
    if t.split.None? then |t.msgs| else UpperBound(KeysOf(t.msgs), t.split.value.mid)
  }

  lemma TaskCutIs(t: Task)
    ensures t.split.None? ==> TaskCut(t) == |t.msgs|
    ensures t.split.Some? ==> TaskCut(t) == UpperBound(KeysOf(t.msgs), t.split.value.mid)
  {
  }

  lemma LeafAfterNone(l: Leaf)
    requires |l.keys| == |l.values|
    ensures LeafAfter(l, []) == l
  {
  }

  lemma TaskSide(pages: Pages, pend: Pending, t: Task, j: nat)
    requires TaskOK(pages, pend, t) && j < |t.msgs|
    ensures (t.split.Some? && t.msgs[j].key > t.split.value.mid) <==> j >= TaskCut(t)
  {
    if t.split.Some? {
      var at, keys := TaskCut(t), KeysOf(t.msgs);
      assert keys[j] == t.msgs[j].key;
      assert j < at ==> keys[j] <= t.split.value.mid;
      assert j >= at ==> t.msgs[at].key <= t.msgs[j].key && keys[at] == t.msgs[at].key;
    }
  }

  lemma FitsStep(l: Leaf, msgs: seq<Upsert>, j: nat)
    requires LeafOK(l) && |l.keys| == |l.values| && Sorted(msgs) && Fits(l, msgs) && j < |msgs|
    ensures LeafOK(LeafAfter(l, msgs[..j]))
    ensures LeafAfter(l, msgs[..j + 1]) == Upserted(LeafAfter(l, msgs[..j]), msgs[j])
    ensures |Upserted(LeafAfter(l, msgs[..j]), msgs[j]).keys| <= SIZES.leafN
  {
    hide *;
    LeafAfterNext(l, msgs, j);
    assert msgs == msgs[..j] + msgs[j..];
    SortedConcat(msgs[..j], msgs[j..]);
    LeafAfterOK(l, msgs[..j]);
    LeafShape(LeafAfter(l, msgs[..j]));
    FitsAt(l, msgs, j + 1);
  }

  lemma FitsAt(l: Leaf, msgs: seq<Upsert>, j: nat)
    requires |l.keys| == |l.values| && Fits(l, msgs) && j <= |msgs|
    ensures |LeafAfter(l, msgs[..j]).keys| <= SIZES.leafN
  {
  }

  lemma TaskHalvesReady(pages: Pages, pend: Pending, t: Task)
    requires TaskOK(pages, pend, t)
    ensures TaskCut(t) <= |t.msgs| && LeafReady(pages, pend, t.page, t.msgs[..TaskCut(t)])
    ensures t.split.Some? ==> LeafReady(pages, pend, t.split.value.right, t.msgs[TaskCut(t)..])
  {
    hide LeafReady, KeysOf, Sorted;
    assert t.msgs[..|t.msgs|] == t.msgs;
  }

  /** The leaves of a task after its first `j` messages. */
  ghost predicate PartlyApplied(pages: Pages, t: Task, j: nat, left: Leaf, right: Leaf) {
    && t.page in pages && pages[t.page].LeafNode? && |pages[t.page].leaf.keys| == |pages[t.page].leaf.values|
    && j <= |t.msgs| && TaskCut(t) <= |t.msgs|
    && left == LeafAfter(pages[t.page].leaf, t.msgs[..RootChunks.Min(j, TaskCut(t))])
    && (t.split.Some? ==>
          var r := t.split.value.right;
          r in pages && pages[r].LeafNode? && |pages[r].leaf.keys| == |pages[r].leaf.values| &&
          right == LeafAfter(pages[r].leaf, t.msgs[TaskCut(t)..if j <= TaskCut(t) then TaskCut(t) else j]))
  }

  lemma AppliedNone(pages: Pages, t: Task, left: Leaf, right: Leaf)
    requires t.page in pages && pages[t.page] == LeafNode(left) && |left.keys| == |left.values|
    requires t.split.Some? ==>
               t.split.value.right in pages && pages[t.split.value.right] == LeafNode(right) && |right.keys| == |right.values|
    ensures PartlyApplied(pages, t, 0, left, right)
  {
    TaskCutBound(t);
    LeafAfterNone(left);
    if t.split.Some? { LeafAfterNone(right); }
    hide LeafAfter, TaskCut;
    assert t.msgs[..0] == [] && t.msgs[TaskCut(t)..TaskCut(t)] == [];
  }

  lemma TaskCutBound(t: Task)
    ensures TaskCut(t) <= |t.msgs|
  {
  }

  lemma LeftSoFar(pages: Pages, t: Task, j: nat, left: Leaf, right: Leaf, next: Leaf)
    requires PartlyApplied(pages, t, j, left, right) && j < |t.msgs| && j < TaskCut(t)
    ensures t.page in pages && pages[t.page].LeafNode? && |pages[t.page].leaf.keys| == |pages[t.page].leaf.values|
    ensures left == LeafAfter(pages[t.page].leaf, t.msgs[..j])
    ensures next == LeafAfter(pages[t.page].leaf, t.msgs[..j + 1]) ==> PartlyApplied(pages, t, j + 1, next, right)
  {
    hide LeafAfter, TaskCut;
  }

  lemma RightSoFar(pages: Pages, t: Task, j: nat, left: Leaf, right: Leaf, next: Leaf)
    requires PartlyApplied(pages, t, j, left, right) && j < |t.msgs| && j >= TaskCut(t) && t.split.Some?
    ensures var r := t.split.value.right;
            r in pages && pages[r].LeafNode? && |pages[r].leaf.keys| == |pages[r].leaf.values| &&
            right == LeafAfter(pages[r].leaf, t.msgs[TaskCut(t)..j]) &&
            (next == LeafAfter(pages[r].leaf, t.msgs[TaskCut(t)..j + 1]) ==> PartlyApplied(pages, t, j + 1, left, next))
  {
    hide LeafAfter, TaskCut;
  }

  lemma AppliedLeft(pages: Pages, pend: Pending, t: Task, j: nat, left: Leaf, right: Leaf)
    requires TaskOK(pages, pend, t) && j < |t.msgs| && PartlyApplied(pages, t, j, left, right)
    requires t.split.None? || t.msgs[j].key <= t.split.value.mid
    ensures |left.keys| == |left.values| && LeafOK(left) && |Upserted(left, t.msgs[j]).keys| <= SIZES.leafN
    ensures PartlyApplied(pages, t, j + 1, Upserted(left, t.msgs[j]), right)
  {
    hide *;
    TaskSide(pages, pend, t, j);
    TaskHalvesReady(pages, pend, t);
    var at := TaskCut(t);
    var run := t.msgs[..at];
    LeafReadyParts(pages, pend, t.page, run);
    LeftSoFar(pages, t, j, left, right, left);
    var l := pages[t.page].leaf;
    assert run[..j] == t.msgs[..j] && run[..j + 1] == t.msgs[..j + 1] && run[j] == t.msgs[j];
    FitsStep(l, run, j);
    LeafShape(left);
    LeftSoFar(pages, t, j, left, right, Upserted(left, t.msgs[j]));
  }

  lemma AppliedRight(pages: Pages, pend: Pending, t: Task, j: nat, left: Leaf, right: Leaf)
    requires TaskOK(pages, pend, t) && j < |t.msgs| && PartlyApplied(pages, t, j, left, right)
    requires t.split.Some? && t.msgs[j].key > t.split.value.mid
    ensures LeafOK(right) && |right.keys| == |right.values| && |Upserted(right, t.msgs[j]).keys| <= SIZES.leafN
    ensures PartlyApplied(pages, t, j + 1, left, Upserted(right, t.msgs[j]))
  {
    hide *;
    TaskSide(pages, pend, t, j);
    TaskHalvesReady(pages, pend, t);
    var at, r := TaskCut(t), t.split.value.right;
    var run := t.msgs[at..];
    LeafReadyParts(pages, pend, r, run);
    RightSoFar(pages, t, j, left, right, right);
    var l := pages[r].leaf;
    assert run[..j - at] == t.msgs[at..j] && run[..j - at + 1] == t.msgs[at..j + 1] && run[j - at] == t.msgs[j];
    FitsStep(l, run, j - at);
    LeafShape(right);
    RightSoFar(pages, t, j, left, right, Upserted(right, t.msgs[j]));
  }

  lemma AppliedAll(pages: Pages, pend: Pending, t: Task, left: Leaf, right: Leaf)
    requires TaskOK(pages, pend, t) && PartlyApplied(pages, t, |t.msgs|, left, right)
    requires t.page in pages && pages[t.page].LeafNode? && |pages[t.page].leaf.keys| == |pages[t.page].leaf.values|
    requires t.split.Some? ==>
               var r := t.split.value.right;
               r in pages && r != t.page && pages[r].LeafNode? && |pages[r].leaf.keys| == |pages[r].leaf.values|
    ensures t.split.None? ==> TaskDone(pages, t) == pages[t.page := LeafNode(left)]
    ensures t.split.Some? ==> TaskDone(pages, t) == pages[t.page := LeafNode(left)][t.split.value.right := LeafNode(right)]
  {
    TaskDoneIs(pages, t);
    TaskCutIs(t);
    var at := TaskCut(t);
    hide TaskOK, TaskDone, LeafAfter, TaskCut, KeysOf, UpperBound;
    assert t.msgs[..|t.msgs|] == t.msgs && t.msgs[at..|t.msgs|] == t.msgs[at..];
    assert at == |t.msgs| ==> t.msgs[at..at] == t.msgs[at..];
  }

  lemma LeafReadyParts(pages: Pages, pend: Pending, x: PageId, msgs: seq<Upsert>)
    requires LeafReady(pages, pend, x, msgs)
    ensures x in pages && pages[x].LeafNode? && LeafOK(pages[x].leaf) && |pages[x].leaf.keys| == |pages[x].leaf.values|
    ensures Sorted(msgs) && Fits(pages[x].leaf, msgs)
  {
  }

  lemma LeafAscending(l: Leaf, msgs: seq<Upsert>)
    requires LeafOK(l) && Sorted(msgs)
    ensures Median.Ascending(l.keys) && Median.Ascending(KeysOf(msgs))
  {
  }

  // ---- the new nodes of a root split ----------------------------------------------------------

  /** Pages `ids` have been created and store the chunks. */
  ghost predicate Created(pages: Pages, pages': Pages, ids: seq<PageId>, chunks: seq<RootChunks.Chunk>) {
    && |ids| == |chunks| && pages'.Keys == pages.Keys + (set x | x in ids)
    && (forall x :: x in pages ==> pages'[x] == pages[x])
    && (forall x :: x in ids ==> x !in pages)
    && (forall i, j :: 0 <= i < j < |ids| ==> ids[i] != ids[j])
    && (forall j :: 0 <= j < |ids| ==> pages'[ids[j]] == InnerNode([], chunks[j].pivots, chunks[j].children))
  }

  lemma NothingCreated(pages: Pages)
    ensures Created(pages, pages, [], [])
  {
  }

  lemma CreatedMore(pages: Pages, pages1: Pages, ids: seq<PageId>, chunks: seq<RootChunks.Chunk>, x: PageId, k: RootChunks.Chunk)
    requires Created(pages, pages1, ids, chunks) && x !in pages1
    ensures Created(pages, pages1[x := InnerNode([], k.pivots, k.children)], ids + [x], chunks + [k])
  {
    assert (set y | y in ids + [x]) == (set y | y in ids) + {x};
    assert forall j :: 0 <= j < |ids| ==> ids[j] in ids;
  }

  lemma CreatedHolds(pages: Pages, pages': Pages, ids: seq<PageId>, chunks: seq<RootChunks.Chunk>, x: PageId)
    requires Created(pages, pages', ids, chunks) && x !in pages'
    ensures x !in ids && x !in pages && (set y | y in ids + [x]) == (set y | y in ids) + {x}
  {
  }

  lemma CreatedCut(pages: Pages, pages': Pages, ids: seq<PageId>, chunks: seq<RootChunks.Chunk>, root: PageId, mids: seq<Key>)
    requires Created(pages, pages', ids, chunks) && root in pages
    ensures CutPages(pages, root, pages'[root := RootNode(mids, ids)], ids, chunks, mids)
    ensures forall x :: x in ids ==> x !in pages
    ensures forall i, j :: 0 <= i < j < |ids| ==> ids[i] != ids[j]
  {
    assert forall j :: 0 <= j < |ids| ==> ids[j] in ids;
  }

  // ---- the root's child -----------------------------------------------------------------------

  lemma ConsistentRootOf(pages: Pages, A: Labelling, root: PageId)
    requires Whole(pages, A, root)
    ensures root in A && root in pages
  {
    WholeParts(pages, A, root);
  }

  lemma LeafChildParts(pages: Pages, A: Labelling, root: PageId, k: Key, i: nat, c: PageId)
    requires RootChild(pages, A, root, k, i, c) && c in pages && pages[c].LeafNode?
    ensures LeafOK(pages[c].leaf) && |pages[c].leaf.keys| == |pages[c].leaf.values| && |pages[c].leaf.keys| <= SIZES.leafN
  {
    RootChildParts(pages, A, root, k, i, c);
    LeafContent(pages[c], A[c], map[]);
    LeafShape(pages[c].leaf);
  }

  lemma InnerChildParts(pages: Pages, A: Labelling, root: PageId, u: Upsert, i: nat, c: PageId)
    requires RootChild(pages, A, root, u.key, i, c) && Newer(A, root, u) && c in pages && pages[c].InnerNode?
    ensures InnerReady(pages[c])
    ensures forall j :: 0 <= j < |pages[c].upserts| && pages[c].upserts[j].key == u.key ==> pages[c].upserts[j].timeStamp < u.timeStamp
  {
    RootChildParts(pages, A, root, u.key, i, c);
    InnerContent(pages[c], A[c], map[]);
    InnerKidsPart(A, root, c, pages[c]);
    InnerReadyFrom(pages[c]);
    var n := pages[c];
    SplitsNone(A[c].msgs, MapOf(n.upserts));
    forall j | 0 <= j < |n.upserts| && n.upserts[j].key == u.key ensures n.upserts[j].timeStamp < u.timeStamp {
      MapPresent(n.upserts, MapOf(n.upserts), j);
    }
  }

  lemma WithUpsertIs(s: seq<Upsert>, u: Upsert)
    ensures var i := LowerBound(KeysOf(s), u.key);
            i <= |s| && WithUpsert(s, u) == if i < |s| && s[i].key == u.key then s[i := SquashUpserts(u, s[i])] else InsertAt(s, i, u)
  {
  }

  /** A message that stays with the root's child needs no split. */
  lemma StaysWithoutSplit(pages: Pages, root: PageId, u: Upsert)
    requires StaysAtChild(pages, root, u.key)
    ensures !MustSplit(pages, root, u)
    ensures var i := LowerBound(pages[root].pivots, u.key);
            i < |pages[root].children| && ChildFor(pages[root].pivots, pages[root].children, u.key) == Some(pages[root].children[i])
  {
  }

  lemma LeafTakesWithoutSplit(pages: Pages, root: PageId, u: Upsert)
    requires LeafTakes(pages, root, u.key)
    ensures !MustSplit(pages, root, u) && !ChildMustSplit(pages[pages[root].children[LowerBound(pages[root].pivots, u.key)]], u)
  {
  }

  lemma LoneLeafParts(pages: Pages, A: Labelling, root: PageId)
    requires Whole(pages, A, root) && root in pages && pages[root].LeafNode?
    ensures LeafOK(pages[root].leaf) && |pages[root].leaf.keys| == |pages[root].leaf.values| && |pages[root].leaf.keys| <= SIZES.leafN
  {
    WholeParts(pages, A, root);
    StoredAt(pages, A, root, map[], root, [], root);
    hide Consistent, Stored;
  }

  lemma InsertedIs(l: Leaf, u: Upsert)
    requires LeafOK(l) && |l.keys| == |l.values| && u.kind.INSERT?
    ensures LowerBound(l.keys, u.key) <= |l.keys|
    ensures u.key !in l.keys ==>
              Upserted(l, u) == Leaf(InsertAt(l.keys, LowerBound(l.keys, u.key), u.key), InsertAt(l.values, LowerBound(l.keys, u.key), u.value))
  {
    FoundIs(l, u.key);
  }

  /** The halves of a split leaf, the new key's position in the leaf, and what it is in its half. */
  ghost predicate HalvesReady(u: Upsert, mid: Key, left: Leaf, right: Leaf, index: nat) {
    && LeafOK(left) && LeafOK(right) && |left.keys| == |left.values| && |right.keys| == |right.values|
    && u.key !in left.keys && u.key !in right.keys
    && (u.key <= mid ==> index == LowerBound(left.keys, u.key))
    && (u.key > mid ==> index >= |left.keys| && index - |left.keys| == LowerBound(right.keys, u.key))
  }

  lemma HalvesReadyFrom(l: Leaf, u: Upsert, mid: Key)
    requires LeafOK(l) && |l.keys| == |l.values| && u.key !in l.keys
    ensures HalvesReady(u, mid, SplitLeft(l, mid), SplitRight(l, mid), LowerBound(l.keys, u.key))
  {
    IndexInHalves(l, u.key, mid);
    LeafShape(SplitLeft(l, mid));
    LeafShape(SplitRight(l, mid));
    hide LeafOK, SplitLeft, SplitRight;
  }

  lemma RootMoved(pages: Pages, root: PageId, r: PageId, n: PageId, left: Node, right: Node, top: Node)
    requires root != r && root != n && r != n
    ensures pages[root := left][r := right][n := left][root := top] == pages[r := right][n := left][root := top]
  {
  }

  lemma LoneLeafSplitIs(pages: Pages, root: PageId, u: Upsert, n: PageId, r: PageId, mid: Key,
                        left: Leaf, right: Leaf, pages1: Pages, pages2: Pages)
    requires root in pages && pages[root].LeafNode? && |pages[root].leaf.keys| == |pages[root].leaf.values|
    requires n !in pages && r !in pages && n != r
    requires left == SplitLeft(pages[root].leaf, mid) && right == SplitRight(pages[root].leaf, mid)
    requires pages1 == pages[r := LeafNode(right)][n := LeafNode(left)][root := RootNode([mid], [n, r])]
    requires pages2 == if u.key <= mid then pages1[n := LeafNode(Upserted(left, u))] else pages1[r := LeafNode(Upserted(right, u))]
    ensures n != root && GrownPages(pages, root, n)[root] == RootNode([], [n]) && n in GrownPages(pages, root, n)
    ensures GrownPages(pages, root, n)[n] == pages[root]
    ensures LeafSplitPages(GrownPages(pages, root, n), root, u, 0, n, r, mid) == pages2
  {
    hide SplitLeft, SplitRight, Upserted;
    assert InsertAt([], 0, mid) == [mid] && InsertAt([n], 1, r) == [n, r];
  }

  // ---- operations -----------------------------------------------------------------------------

  lemma RootKind(pages: Pages, A: Labelling, root: PageId)
    requires Whole(pages, A, root) && root in pages
    ensures !pages[root].LeafNode? ==> pages[root].RootNode?
  {
    NodeParts(pages, A, root, root);
  }

  lemma EmptyTree()
    ensures Whole(map[0 := LeafNode(Leaf([], []))], map[0 := EmptyLabel()], 0)
  {
    var A, pages := map[0 := EmptyLabel()], map[0 := LeafNode(Leaf([], []))];
    assert Linked(A, 0, 0);
    assert Consistent(A, 0);
    PairsSize(Leaf([], []));
    assert Pairs(Leaf([], [])) == map[];
    assert PageOK(pages, A, 0, map[], 0, []);
  }
}
