/** Which pages an operation on the Bε-tree has pinned at each stage of a cascade. */
module BePins {
  import opened Keys
  import opened Messages
  import opened Labels
  import opened Leaves
  import opened LeafFlush
  import opened Kids
  import opened InsertPivots
  import opened BeSizes
  import opened BeNodes
  import opened BeFlush
  import opened BeCascade
  import opened BeServe
  import opened BeTraversal
  import opened BeRoot
  import opened BeRootSplit
  import opened BeMeaning
  import opened RemoveMessages
  import RootChunks
  import Median
  import opened PinnedPages

  /** What is pinned while node `p` is handled: the node, the nodes enqueued, and the leaves that
      wait for their messages. */
  ghost function HeldAt(p: PageId, queue: seq<Entry>, tasks: seq<Task>): set<PageId> {
    {p} + QueuePages(queue) + AllTaskPages(tasks)
  }

  lemma NoPages()
    ensures QueuePages([]) == {}
  {
  }

  lemma NoTaskPages()
    ensures AllTaskPages([]) == {}
  {
  }

  lemma OnePage(e: Entry)
    ensures QueuePages([e]) == {e.page}
  {
    assert e in [e];
  }

  lemma PagesOfTask(t: Task)
    ensures t.split.None? ==> TaskPages(t) == {t.page}
    ensures t.split.Some? ==> TaskPages(t) == {t.page, t.split.value.right}
  {
  }

  lemma QueuePagesJoin(a: seq<Entry>, b: seq<Entry>)
    ensures QueuePages(a + b) == QueuePages(a) + QueuePages(b)
  {
    assert forall e :: e in a + b <==> e in a || e in b;
  }

  lemma HalfPages(c: PageId, leftMap: MessageMap, r: PageId, rightMap: MessageMap)
    ensures QueuePages(HalfEntries(c, leftMap, r, rightMap)) ==
            (if leftMap == map[] then {} else {c}) + (if rightMap == map[] then {} else {r})
  {
    NoPages();
    OnePage(Entry(c, leftMap));
    OnePage(Entry(r, rightMap));
    hide QueuePages;
    QueuePagesJoin(if leftMap == map[] then [] else [Entry(c, leftMap)], if rightMap == map[] then [] else [Entry(r, rightMap)]);
  }

  /** Of the halves of a split node those that get messages stay pinned; one that gets none is
      released. */
  function UnpinEmptyHalves(p: Pins<Node>, pages: Pages, c: PageId, leftMap: MessageMap, r: PageId, rightMap: MessageMap): (p': Pins<Node>)
    requires c in pages && r in pages && c != r && c in p.held && r in p.held
    ensures p'.held == p.held - {c, r} + QueuePages(HalfEntries(c, leftMap, r, rightMap))
    ensures AllKept(pages, p) ==> AllKept(pages, p')
  {
    HalfPages(c, leftMap, r, rightMap);
    var p1 := if leftMap == map[] then p.Unpin(c, pages[c], true) else p;
    if rightMap == map[] then p1.Unpin(r, pages[r], true) else p1
  }

  lemma HeldMoreTasks(p: PageId, queue: seq<Entry>, tasks: seq<Task>, t: Task)
    ensures HeldAt(p, queue, tasks + [t]) == HeldAt(p, queue, tasks) + TaskPages(t)
    ensures t.split.None? ==> TaskPages(t) == {t.page}
    ensures t.split.Some? ==> TaskPages(t) == {t.page, t.split.value.right}
  {
    PagesOfTask(t);
    AllTaskPagesJoin(tasks, t);
    hide QueuePages, AllTaskPages, TaskPages;
  }

  lemma HeldMoreEntries(p: PageId, queue: seq<Entry>, entries: seq<Entry>, tasks: seq<Task>)
    ensures HeldAt(p, queue + entries, tasks) == HeldAt(p, queue, tasks) + QueuePages(entries)
  {
    QueuePagesJoin(queue, entries);
    hide QueuePages, AllTaskPages;
  }

  /** A child that keeps its messages is released. */
  lemma ReleasedChild(held: set<PageId>, p: PageId, queue: seq<Entry>, tasks: seq<Task>, c: PageId)
    requires held == HeldAt(p, queue, tasks) + {c} && c !in HeldAt(p, queue, tasks)
    ensures held - {c} == HeldAt(p, queue + [], tasks)
  {
    assert queue + [] == queue;
    hide HeldAt;
  }

  /** A child, or the halves of one, stay pinned as far as they have been enqueued. */
  lemma EnqueuedChild(held: set<PageId>, p: PageId, queue: seq<Entry>, tasks: seq<Task>, c: PageId, created: set<PageId>, entries: seq<Entry>)
    requires held == HeldAt(p, queue, tasks) + {c} && c !in HeldAt(p, queue, tasks) && created !! HeldAt(p, queue, tasks)
    ensures held + created - ({c} + created) + QueuePages(entries) == HeldAt(p, queue + entries, tasks)
  {
    HeldMoreEntries(p, queue, entries, tasks);
    hide HeldAt, QueuePages;
  }

  lemma HeldAtFirst(e: Entry, queue: seq<Entry>)
    ensures QueuePages([e] + queue) == HeldAt(e.page, queue, [])
  {
    OnePage(e);
    NoTaskPages();
    QueuePagesJoin([e], queue);
    hide QueuePages, AllTaskPages;
  }

  lemma HeldInPages(pages: Pages, A: Labelling, root: PageId, pend: Pending, p: PageId, rem: MessageMap,
                    ts: seq<PivotTuple>, queue: seq<Entry>, tasks: seq<Task>)
    requires Serving(pages, A, root, pend, p, rem, ts, queue, tasks)
    ensures HeldAt(p, queue, tasks) <= pages.Keys
  {
    ServingParts(pages, A, root, pend, p, rem, ts, queue, tasks);
    SourceParts(pages, root, pend, p, rem, ts);
    QueueInPages(pages, pend, queue);
    TasksInPages(pages, pend, tasks);
    hide Serving, QueuePages, AllTaskPages;
  }

  /** The handled node is neither enqueued nor a leaf waiting for messages. */
  lemma HeldApart(pages: Pages, A: Labelling, root: PageId, pend: Pending, p: PageId, rem: MessageMap,
                  ts: seq<PivotTuple>, queue: seq<Entry>, tasks: seq<Task>)
    requires Serving(pages, A, root, pend, p, rem, ts, queue, tasks)
    ensures p in HeldAt(p, queue, tasks) && HeldAt(p, queue, tasks) - {p} == QueuePages(queue) + AllTaskPages(tasks)
  {
    ServingParts(pages, A, root, pend, p, rem, ts, queue, tasks);
    OwnedParts(pend, p, queue, tasks);
    hide Serving, QueuePages, AllTaskPages;
  }

  /** A child is pinned once: it is not held yet when its turn comes. */
  lemma ChildUnpinned(pages: Pages, A: Labelling, root: PageId, pend: Pending, p: PageId, rem: MessageMap,
                      ts: seq<PivotTuple>, queue: seq<Entry>, tasks: seq<Task>, i: nat)
    requires Serving(pages, A, root, pend, p, rem, ts, queue, tasks) && i in rem
    ensures p in pages && pages[p].InnerNode? && i < |pages[p].children|
    ensures pages[p].children[i] !in HeldAt(p, queue, tasks)
  {
    ServingParts(pages, A, root, pend, p, rem, ts, queue, tasks);
    SourceParts(pages, root, pend, p, rem, ts);
    SomethingCarried(pages[p].pivots, rem, PendingAt(pend, p));
    hide Serving, QueuePages, AllTaskPages, Stored, Consistent, Carries;
  }

  lemma FirstTaskHeld(pages: Pages, A: Labelling, root: PageId, pend: Pending, queue: seq<Entry>, tasks: seq<Task>)
    requires Releasing(pages, A, root, pend, queue, tasks) && tasks != []
    ensures TaskPages(tasks[0]) <= AllTaskPages(tasks)
    ensures QueuePages(queue) + AllTaskPages(tasks) - TaskPages(tasks[0]) == QueuePages(queue) + AllTaskPages(tasks[1..])
  {
    ReleasingParts(pages, A, root, pend, queue, tasks);
    FirstTask(pages, pend, tasks);
    hide Releasing, QueuePages, AllTaskPages, TaskPages, TasksOK;
  }

  lemma FirstTask(pages: Pages, pend: Pending, tasks: seq<Task>)
    requires TasksOK(pages, pend, tasks) && tasks != []
    ensures AllTaskPages(tasks) == TaskPages(tasks[0]) + AllTaskPages(tasks[1..])
    ensures TaskPages(tasks[0]) !! AllTaskPages(tasks[1..])
  {
    hide TaskOK, TaskPages;
    var rest := tasks[1..];
    assert tasks == [tasks[0]] + rest;
    assert forall t :: t in tasks <==> t == tasks[0] || t in rest;
    forall x | x in TaskPages(tasks[0]) ensures x in AllTaskPages(tasks) {
      assert tasks[0] in tasks;
    }
    forall x | x in AllTaskPages(rest) ensures x !in TaskPages(tasks[0]) {
      var t :| t in rest && x in TaskPages(t);
      var j :| 0 <= j < |rest| && rest[j] == t;
      assert tasks[j + 1] == t;
    }
  }

  lemma SplitHolds(pages: Pages, p: Pins<Node>, c: PageId, r: PageId, left: Node, right: Node, pages': Pages)
    requires pages' == pages[c := left][r := right] && c in p.held && r !in p.held
    ensures AllKept(pages, p) ==> AllKept(pages', p.Pin(r))
  {
  }

  // ---- a root that is released ----------------------------------------------------------------

  /** A message that a leaf takes as a change: an insertion of a value it has already is none, nor is
      an update or a deletion of an absent key. */
  predicate Touches(l: Leaf, u: Upsert) {
    if u.kind.INSERT? then LeafLookup(l, u.key) != Some(u.value) else u.key in l.keys
  }

  /** An insertion that splits a full leaf although it changes nothing in it: the leaf has the key
      with that value already. */
  predicate Forgotten(n: Node, u: Upsert) {
    n.LeafNode? && u.kind.INSERT? && |n.leaf.keys| == SIZES.leafN && LeafLookup(n.leaf, u.key) == Some(u.value)
  }

  /** The root's child for the key is such a leaf, and the root has a free pivot. */
  predicate Forgets(pages: Pages, root: PageId, u: Upsert) {
    root in pages && pages[root].RootNode? && |pages[root].pivots| < SIZES.rootN &&
    var c := ChildFor(pages[root].pivots, pages[root].children, u.key);
    c.Some? && c.value in pages && Forgotten(pages[c.value], u)
  }

  /** The root is kept, but not its child for the key; if `all`, nothing is kept of that child. */
  predicate HalfLost(pages: Pages, kept: Pages, root: PageId, k: Key, all: bool) {
    root in pages && pages[root].RootNode? && root in kept && kept[root] == pages[root] &&
    var c := ChildFor(pages[root].pivots, pages[root].children, k);
    c.Some? && c.value in pages && !(c.value in kept && kept[c.value] == pages[c.value]) && (all ==> c.value !in kept)
  }

  predicate IsLargest(n: Node, k: Key) {
    n.LeafNode? && n.leaf.keys != [] && n.leaf.keys[|n.leaf.keys| - 1] == k
  }

  predicate LargestAtChild(pages: Pages, root: PageId, k: Key) {
    root in pages && pages[root].RootNode? &&
    var c := ChildFor(pages[root].pivots, pages[root].children, k);
    c.Some? && c.value in pages && IsLargest(pages[c.value], k)
  }

  lemma LargestIs(pages: Pages, root: PageId, k: Key)
    requires root in pages && pages[root].RootNode?
    requires LowerBound(pages[root].pivots, k) < |pages[root].children|
    requires pages[root].children[LowerBound(pages[root].pivots, k)] in pages
    ensures LargestAtChild(pages, root, k) <==> IsLargest(pages[pages[root].children[LowerBound(pages[root].pivots, k)]], k)
  {
  }

  /** The root routes a key to the half of the split child that the key belongs to. */
  lemma RoutedHalf(ps: seq<Key>, cs: seq<PageId>, i: nat, mid: Key, r: PageId, k: Key)
    requires i == LowerBound(ps, k) < |cs| == |ps| + 1
    ensures ChildFor(InsertAt(ps, i, mid), InsertAt(cs, i + 1, r), k) == Some(if k <= mid then cs[i] else r)
  {
    var q := InsertAt(ps, i, mid);
    assert LowerBound(q, k) == if k <= mid then i else i + 1 by {
      assert forall j :: 0 <= j < i ==> q[j] == ps[j] && ps[j] < k;
      assert q[i] == mid && (i < |ps| ==> q[i + 1] == ps[i]);
    }
    hide LowerBound;
  }

  lemma HalfLostFrom(pages: Pages, kept: Pages, root: PageId, k: Key, all: bool, target: PageId)
    requires root in pages && pages[root].RootNode? && root in kept && kept[root] == pages[root]
    requires ChildFor(pages[root].pivots, pages[root].children, k) == Some(target) && target in pages
    requires !(target in kept && kept[target] == pages[target]) && (all ==> target !in kept)
    ensures HalfLost(pages, kept, root, k, all)
  {
  }

  /** Both at once, for the leaf that has split below the root. */
  lemma SplitOutcome(pages: Pages, root: PageId, c: PageId, r: PageId, i: nat, mid: Key, k: Key, pages': Pages, dirty: bool, kept: Pages, all: bool)
    requires root in pages && pages[root].RootNode? && c in pages && r !in pages && c != root
    requires i == LowerBound(pages[root].pivots, k) < |pages[root].children| == |pages[root].pivots| + 1 && pages[root].children[i] == c
    requires pages'.Keys == pages.Keys + {r} && forall x :: x in pages && x != root && x != c ==> pages'[x] == pages[x]
    requires pages'[root] == RootNode(InsertAt(pages[root].pivots, i, mid), InsertAt(pages[root].children, i + 1, r))
    requires var target, other := if k <= mid then c else r, if k <= mid then r else c;
             var released := pages[root := pages'[root]][other := pages'[other]];
             kept == if dirty then released[target := pages'[target]] else released
    requires !dirty ==> (k <= mid ==> pages'[c] != pages[c]) && (all ==> k > mid)
    ensures kept == pages' <==> dirty
    ensures !dirty ==> HalfLost(pages', kept, root, k, all)
  {
    hide *;
    var target := if k <= mid then c else r;
    SplitReleased(pages, root, c, r, target, pages', dirty, kept);
    RoutedHalf(pages[root].pivots, pages[root].children, i, mid, r, k);
    if !dirty { HalfLostFrom(pages', kept, root, k, all, target); }
  }

  /** What reading the kept pages makes of a key whose page is lost. */
  lemma LostMeansNothing(pages: Pages, kept: Pages, root: PageId, h: nat, k: Key)
    requires HalfLost(pages, kept, root, k, true)
    ensures Meaning(kept, root, h, k) == None
  {
    if h > 0 {
      var c := ChildFor(pages[root].pivots, pages[root].children, k).value;
      assert Meaning(kept, c, h - 1, k) == None;
    }
    hide ChildFor;
  }

  lemma ForgetsIs(pages: Pages, root: PageId, u: Upsert)
    requires root in pages && pages[root].RootNode?
    requires LowerBound(pages[root].pivots, u.key) < |pages[root].children|
    requires pages[root].children[LowerBound(pages[root].pivots, u.key)] in pages
    ensures Forgets(pages, root, u) <==>
            |pages[root].pivots| < SIZES.rootN &&
            Forgotten(pages[pages[root].children[LowerBound(pages[root].pivots, u.key)]], u)
  {
  }

  lemma LoneLeafForgetsNothing(pages: Pages, root: PageId, u: Upsert)
    requires root in pages && pages[root].LeafNode?
    ensures !Forgets(pages, root, u)
  {
  }

  lemma InnerNotForgotten(n: Node, u: Upsert)
    requires !n.LeafNode?
    ensures !Forgotten(n, u)
  {
  }

  lemma LeafForgotten(l: Leaf, u: Upsert)
    ensures Forgotten(LeafNode(l), u) <==> u.kind.INSERT? && |l.keys| == SIZES.leafN && LeafLookup(l, u.key) == Some(u.value)
  {
  }

  lemma LookupIsPairs(l: Leaf, k: Key)
    requires LeafOK(l)
    ensures LeafLookup(l, k) == Get(Pairs(l), k)
  {
    PairsLookup(l, k);
    hide LowerBound, HoldsPairs, StrictlySorted, Pairs;
  }

  /** The half that a key goes to shows it as the leaf did. */
  lemma HalfLookup(l: Leaf, k: Key, mid: Key)
    requires LeafOK(l)
    ensures k <= mid ==> LeafLookup(SplitLeft(l, mid), k) == LeafLookup(l, k)
    ensures k > mid ==> LeafLookup(SplitRight(l, mid), k) == LeafLookup(l, k)
  {
    SplitLeftPairs(l, mid);
    SplitRightPairs(l, mid);
    hide LeafOK, LeafLookup, SplitLeft, SplitRight, Pairs, HoldsPairs;
    LookupIsPairs(l, k);
    LookupIsPairs(SplitLeft(l, mid), k);
    LookupIsPairs(SplitRight(l, mid), k);
  }

  /** A full leaf that has the key gives up its largest key when it splits. */
  lemma HalfDiffers(l: Leaf, k: Key, mid: Key)
    requires LeafOK(l) && |l.keys| == SIZES.leafN && k in l.keys
    requires Median.HasRank(l.keys, [k], mid, (|l.keys| + 2) / 2)
    ensures mid < l.keys[|l.keys| - 1] && SplitLeft(l, mid) != l
  {
    var last := l.keys[|l.keys| - 1];
    assert 3 <= SIZES.leafN;
    assert forall q :: q in l.keys || q in [k] ==> -1 < q <= last;
    MedianInside(l.keys, [k], mid, -1, last);
    hide Median.HasRank, LowerBound;
    assert UpperBound(l.keys, mid) < |l.keys|;
  }

  lemma HalfDiffersFrom(l: Leaf, u: Upsert, mid: Key)
    requires LeafOK(l) && Forgotten(LeafNode(l), u)
    requires Median.HasRank(l.keys, KeysOf([u]), mid, (|l.keys| + |KeysOf([u])| + 1) / 2)
    ensures SplitLeft(l, mid) != l && (IsLargest(LeafNode(l), u.key) ==> mid < u.key)
  {
    assert KeysOf([u]) == [u.key];
    HalfDiffers(l, u.key, mid);
  }

  /** What is kept after a leaf below the root has split and taken a message: all pages if the half
      that took it was released as dirty; otherwise that half, if the split has changed it, is lost. */
  lemma SplitReleased(pages: Pages, root: PageId, c: PageId, r: PageId, target: PageId, pages': Pages, dirty: bool, kept: Pages)
    requires root in pages && c in pages && r !in pages && c != root && (target == c || target == r)
    requires pages'.Keys == pages.Keys + {r} && forall x :: x in pages && x != root && x != c ==> pages'[x] == pages[x]
    requires var other := if target == c then r else c;
             var released := pages[root := pages'[root]][other := pages'[other]];
             kept == if dirty then released[target := pages'[target]] else released
    ensures dirty ==> kept == pages'
    ensures !dirty && (target in pages ==> pages'[target] != pages[target]) ==> kept != pages'
    ensures root in kept && kept[root] == pages'[root] && (!dirty && target == r ==> r !in kept)
    ensures !dirty && (target in pages ==> pages'[target] != pages[target]) ==> !(target in kept && kept[target] == pages'[target])
  {
    if dirty {
      assert forall x :: x in pages' ==> x in kept && kept[x] == pages'[x];
      assert kept.Keys == pages'.Keys;
    }
  }

  lemma CutKept(pages: Pages, root: PageId, pages': Pages, ids: seq<PageId>, seps: seq<Key>, p: Pins<Node>)
    requires root in pages && pages[root].RootNode? && |pages[root].children| == |pages[root].pivots| + 1
    requires CutPages(pages, root, pages', ids, RootChunks.Chunks(pages[root].pivots, pages[root].children, SIZES.innerN / 2),
                      RootChunks.Separators(pages[root].pivots, SIZES.innerN / 2))
    requires p.held == {root} + (set x | x in ids) && p.kept == pages
    ensures AllKept(pages', p)
  {
    hide RootChunks.Chunks, RootChunks.Separators;
  }

  /** The child that the message goes to stays pinned, the others are released. */
  ghost function Others(root: PageId, ids: seq<PageId>, at: nat, i: nat): set<PageId> {
    {root} + (set j: nat | j < |ids| && (j >= i || j == at) :: ids[j])
  }

  lemma OthersStart(root: PageId, ids: seq<PageId>, at: nat)
    ensures Others(root, ids, at, 0) == {root} + (set x | x in ids)
  {
    forall x | x in ids ensures x in Others(root, ids, at, 0) {
      var j: nat :| j < |ids| && ids[j] == x;
      assert j >= 0 || j == at;
    }
  }

  lemma OthersStep(root: PageId, ids: seq<PageId>, at: nat, i: nat)
    requires i < |ids| && root !in ids && forall j, k :: 0 <= j < k < |ids| ==> ids[j] != ids[k]
    ensures ids[i] in Others(root, ids, at, i)
    ensures Others(root, ids, at, i + 1) == if i == at then Others(root, ids, at, i) else Others(root, ids, at, i) - {ids[i]}
  {
    assert ids[i] in ids;
  }

  lemma OthersEnd(root: PageId, ids: seq<PageId>, at: nat)
    requires at < |ids|
    ensures Others(root, ids, at, |ids|) == {root, ids[at]}
  {
  }

  lemma AllKeptAtEnd(pages: Pages, p: Pins<Node>)
    requires p.held == {}
    ensures AllKept(pages, p) <==> p.kept == pages
  {
    if AllKept(pages, p) {
      forall x | x in pages ensures x in p.kept && p.kept[x] == pages[x] {
        assert x !in p.held;
      }
      assert p.kept.Keys == pages.Keys;
    }
  }

  lemma KeptThenAll(pages: Pages, p: Pins<Node>)
    requires p.kept == pages
    ensures AllKept(pages, p)
    ensures forall S: set<PageId> :: KeptBut(pages, p.kept, S)
  {
  }

  lemma CutNodes(pages: Pages, root: PageId, pages': Pages, ids: seq<PageId>, seps: seq<Key>)
    requires root in pages && pages[root].RootNode? && |pages[root].children| == |pages[root].pivots| + 1
    requires CutPages(pages, root, pages', ids, RootChunks.Chunks(pages[root].pivots, pages[root].children, SIZES.innerN / 2),
                      RootChunks.Separators(pages[root].pivots, SIZES.innerN / 2))
    ensures root !in ids && forall j :: 0 <= j < |ids| ==> ids[j] in pages' && pages'[ids[j]].InnerNode?
  {
    hide RootChunks.Chunks, RootChunks.Separators;
    assert forall j :: 0 <= j < |ids| ==> ids[j] in ids;
  }

  /** Writing the buffer of the root's child, with the root released before. */
  lemma BufferWritten(pages: Pages, p: Pins<Node>, root: PageId, c: PageId, exclusiveMode: bool, splitRoot: bool, n: Node)
    requires root in pages && c in pages && root != c && (splitRoot ==> exclusiveMode)
    requires p.held == if exclusiveMode then {root, c} else {c}
    ensures var p' := if exclusiveMode then p.Unpin(root, pages[root], splitRoot) else p;
            p'.held == {c} &&
            (KeptBut(pages, p.kept, if splitRoot then {root, c} else {c}) ==> AllKept(pages[c := n], p'))
  {
  }

  lemma BufferReleased(pages: Pages, p: Pins<Node>, root: PageId, c: PageId, exclusiveMode: bool, splitRoot: bool, n: Node)
    requires root in pages && c in pages && root != c && (splitRoot ==> exclusiveMode)
    requires p.held == if exclusiveMode then {root, c} else {c}
    ensures var p' := (if exclusiveMode then p.Unpin(root, pages[root], splitRoot) else p).Unpin(c, n, true);
            p'.held == {} && (KeptBut(pages, p.kept, if splitRoot then {root, c} else {c}) ==> p'.kept == pages[c := n])
  {
    BufferWritten(pages, p, root, c, exclusiveMode, splitRoot, n);
    var p1 := if exclusiveMode then p.Unpin(root, pages[root], splitRoot) else p;
    UnpinHolds(pages[c := n], p1, c);
    AllKeptAtEnd(pages[c := n], p1.Unpin(c, n, true));
    hide AllKept, KeptBut;
  }

  lemma SplitRootReleased(pages: Pages, p: Pins<Node>, root: PageId, c: PageId, r: PageId, splitRoot: bool, pages': Pages, p': Pins<Node>)
    requires root in pages && c in pages && root != c && r !in pages && p.held == {root, c}
    requires pages'.Keys == pages.Keys + {r} && forall x :: x in pages && x != root && x != c ==> pages'[x] == pages[x]
    requires p' == p.Pin(r).Unpin(root, pages'[root], true)
    ensures KeptBut(pages, p.kept, if splitRoot then {root, c} else {c}) ==> AllKept(pages', p')
  {
  }

  /** All pages of a lone leaf that has split are released as dirty. */
  lemma GrownReleased(pages: Pages, root: PageId, n: PageId, r: PageId, pages': Pages)
    requires root in pages && n in pages' && r in pages' && root in pages'
    requires pages'.Keys == pages.Keys + {n, r} && forall x :: x in pages && x != root ==> pages'[x] == pages[x]
    ensures pages[root := pages'[root]][r := pages'[r]][n := pages'[n]] == pages'
    ensures pages[root := pages'[root]][n := pages'[n]][r := pages'[r]] == pages'
  {
    var a, b := pages[root := pages'[root]][r := pages'[r]][n := pages'[n]], pages[root := pages'[root]][n := pages'[n]][r := pages'[r]];
    assert a.Keys == pages'.Keys && b.Keys == pages'.Keys;
    assert forall x :: x in pages' ==> a[x] == pages'[x] && b[x] == pages'[x];
  }

  /** Below the root nothing waits for the keys of its leaves: the forgotten insertion is one that
      changes nothing of what the tree denotes. */
  lemma ForgottenIsDenoted(pages: Pages, A: Labelling, root: PageId, u: Upsert)
    requires Whole(pages, A, root) && root in A
    ensures Forgets(pages, root, u) ==> Meaning(pages, root, A[root].height, u.key) == Some(u.value)
  {
    if Forgets(pages, root, u) {
      var c := ChildFor(pages[root].pivots, pages[root].children, u.key).value;
      WholeParts(pages, A, root);
      WholeRange(A, root, u.key);
      RoutedChild(pages, A, root, root, u.key);
      hide Whole, Consistent, Stored, InRange, ChildFor, LeafLookup;
      MeaningStep(pages, root, A[root].height, u.key);
      assert Meaning(pages, c, A[root].height - 1, u.key) == LeafLookup(pages[c].leaf, u.key);
    }
  }
}
