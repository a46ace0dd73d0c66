/** The state of a flush cascade: the queue of nodes whose removed messages are on their way, the
    leaves waiting to apply theirs, and the node being handled. */
module BeCascade {
  import opened Keys
  import opened Messages
  import opened Labels
  import opened Leaves
  import opened LeafFlush
  import opened Kids
  import opened InsertPivots
  import opened BeSizes
  import opened BeNodes
  import opened BeFlush
  import opened RemoveMessages

  /** A node in the level-order queue, with the messages removed from it. */
  datatype Entry = Entry(page: PageId, messages: MessageMap)

  datatype SplitResult = SplitResult(mid: Key, right: PageId)

  /** A leaf that will apply messages once its parent has been released. */
  datatype Task = Task(page: PageId, split: Option<SplitResult>, msgs: seq<Upsert>)

  // ---- queue and tasks ------------------------------------------------------------------------

  /** An entry carries what is pending on its node, a child gets no more than one flush may move,
      and the node has a free pivot slot for every child that may split. */
  ghost predicate EntryOK(pages: Pages, pend: Pending, e: Entry) {
    && e.page in pages && pages[e.page].InnerNode?
    && e.messages != map[]
    && Carries(pages[e.page].pivots, e.messages, PendingAt(pend, e.page))
    && (forall c :: c in e.messages ==> |e.messages[c]| <= MAX_FLUSH_SIZE)
    && |pages[e.page].pivots| + |e.messages| <= SIZES.innerN
  }

  ghost predicate QueueOK(pages: Pages, pend: Pending, queue: seq<Entry>) {
    && (forall e :: e in queue ==> EntryOK(pages, pend, e))
    && (forall i, j :: 0 <= i < j < |queue| ==> queue[i].page != queue[j].page)
  }

  ghost function QueuePages(queue: seq<Entry>): set<PageId> {
    set e | e in queue :: e.page
  }

  ghost function TaskPages(t: Task): set<PageId> {
    {t.page} + if t.split.Some? then {t.split.value.right} else {}
  }

  ghost predicate LeafReady(pages: Pages, pend: Pending, x: PageId, msgs: seq<Upsert>) {
    && x in pages && pages[x].LeafNode? && LeafOK(pages[x].leaf)
    && Sorted(msgs) && PendingAt(pend, x) == MapOf(msgs) && Fits(pages[x].leaf, msgs)
  }

  /** The task's messages are pending on its leaf, or on the halves of its leaf, and fit there. */
  ghost predicate TaskOK(pages: Pages, pend: Pending, t: Task) {
    && Sorted(t.msgs)
    && match t.split
       case None => LeafReady(pages, pend, t.page, t.msgs)
       case Some(s) =>
         var at := UpperBound(KeysOf(t.msgs), s.mid);
         s.right != t.page && LeafReady(pages, pend, t.page, t.msgs[..at]) &&
         LeafReady(pages, pend, s.right, t.msgs[at..])
  }

  ghost predicate TasksOK(pages: Pages, pend: Pending, tasks: seq<Task>) {
    && (forall t :: t in tasks ==> TaskOK(pages, pend, t))
    && (forall i, j :: 0 <= i < j < |tasks| ==> TaskPages(tasks[i]) !! TaskPages(tasks[j]))
  }

  ghost function AllTaskPages(tasks: seq<Task>): set<PageId> {
    set t, x | t in tasks && x in TaskPages(t) :: x
  }

  // ---- between two nodes ----------------------------------------------------------------------

  /** Whatever is pending is pending on a page whose parent has nothing pending, `p` excepted. */
  ghost predicate ParentsDone(A: Labelling, pend: Pending, p: PageId) {
    forall x :: x in pend && x in A ==> A[x].parent == p || A[x].parent !in pend
  }

  ghost predicate LevelsFrom(A: Labelling, pend: Pending, h: int) {
    forall x :: x in pend && x in A ==> A[x].height >= h
  }

  /** Everything pending belongs to an entry of the queue or to a task. */
  ghost predicate Owned(pend: Pending, p: PageId, queue: seq<Entry>, tasks: seq<Task>) {
    && pend.Keys <= {p} + QueuePages(queue) + AllTaskPages(tasks)
    && p !in QueuePages(queue) && p !in AllTaskPages(tasks)
    && QueuePages(queue) !! AllTaskPages(tasks)
  }

  /** The tree agrees with its labels, with the queue's messages still on their way. */
  ghost predicate Cascading(pages: Pages, A: Labelling, root: PageId, pend: Pending, queue: seq<Entry>) {
    && Consistent(A, root) && Stored(pages, A, root, pend, root, [])
    && QueueOK(pages, pend, queue) && pend.Keys <= QueuePages(queue)
    && root !in pend && ParentsDone(A, pend, root)
  }

  /** Level order: the first `front` entries are at height `level`, the others one level lower. */
  ghost predicate Leveled(A: Labelling, queue: seq<Entry>, level: nat, front: nat) {
    && front <= |queue|
    && (forall i :: 0 <= i < |queue| ==> queue[i].page in A)
    && (forall i :: 0 <= i < front ==> A[queue[i].page].height == level)
    && (forall i :: front <= i < |queue| ==> A[queue[i].page].height == level - 1)
  }

  // ---- while a node is handled ----------------------------------------------------------------

  /** The node `p` still has to serve the children in `rem`. */
  ghost predicate Source(pages: Pages, root: PageId, pend: Pending, p: PageId, rem: MessageMap, ts: seq<PivotTuple>) {
    && p != root && p in pages && pages[p].InnerNode?
    && Carries(pages[p].pivots, rem, PendingAt(pend, p))
    && (forall c :: c in rem ==> |rem[c]| <= MAX_FLUSH_SIZE)
    && |pages[p].pivots| + |ts| + |rem| <= SIZES.innerN
  }

  ghost predicate NoDuplicates(children: seq<PageId>) {
    forall i, j :: 0 <= i < j < |children| ==> children[i] != children[j]
  }

  /** The children still to be served are untouched. */
  ghost predicate Unserved(children: seq<PageId>, pend: Pending, rem: MessageMap, ts: seq<PivotTuple>, queue: seq<Entry>, tasks: seq<Task>) {
    && NoDuplicates(children)
    && (forall t :: t in ts ==> t.child !in children)
    && (forall i, j :: 0 <= i < j < |ts| ==> ts[i].index != ts[j].index)
    && (forall i :: i in rem ==>
          i < |children| && i !in Indices(ts) && children[i] !in pend &&
          children[i] !in QueuePages(queue) && children[i] !in AllTaskPages(tasks))
  }

  ghost predicate Serving(pages: Pages, A: Labelling, root: PageId, pend: Pending, p: PageId, rem: MessageMap,
                          ts: seq<PivotTuple>, queue: seq<Entry>, tasks: seq<Task>) {
    && Consistent(A, root) && Stored(pages, A, root, pend, p, ts)
    && Source(pages, root, pend, p, rem, ts)
    && Unserved(pages[p].children, pend, rem, ts, queue, tasks)
    && QueueOK(pages, pend, queue) && TasksOK(pages, pend, tasks)
    && Owned(pend, p, queue, tasks) && root !in pend
    && p in A && LevelsFrom(A, pend, A[p].height - 1)
    && ParentsDone(A, pend, p)
  }

  lemma QueueFrame(pages: Pages, pend: Pending, queue: seq<Entry>, pages': Pages, pend': Pending)
    requires QueueOK(pages, pend, queue)
    requires forall x :: x in QueuePages(queue) ==>
               x in pages' && (x in pages ==> pages'[x] == pages[x]) && PendingAt(pend', x) == PendingAt(pend, x)
    ensures QueueOK(pages', pend', queue)
  {
    hide Carries;
    forall e | e in queue ensures EntryOK(pages', pend', e) {
      assert EntryOK(pages, pend, e) && e.page in QueuePages(queue);
    }
  }

  lemma TasksFrame(pages: Pages, pend: Pending, tasks: seq<Task>, pages': Pages, pend': Pending)
    requires TasksOK(pages, pend, tasks)
    requires forall x :: x in AllTaskPages(tasks) ==>
               x in pages' && (x in pages ==> pages'[x] == pages[x]) && PendingAt(pend', x) == PendingAt(pend, x)
    ensures TasksOK(pages', pend', tasks)
  {
    forall t | t in tasks ensures TaskOK(pages', pend', t) {
      assert TaskOK(pages, pend, t);
      forall x | x in TaskPages(t) ensures x in AllTaskPages(tasks) {
      }
      TaskFrame(pages, pend, t, pages', pend');
    }
  }

  lemma TaskFrame(pages: Pages, pend: Pending, t: Task, pages': Pages, pend': Pending)
    requires TaskOK(pages, pend, t)
    requires forall x :: x in TaskPages(t) ==>
               x in pages' && (x in pages ==> pages'[x] == pages[x]) && PendingAt(pend', x) == PendingAt(pend, x)
    ensures TaskOK(pages', pend', t)
  {
    hide Fits, LeafOK, Sorted, UpperBound, Holds;
    assert t.page in TaskPages(t);
    if t.split.Some? { assert t.split.value.right in TaskPages(t); }
  }

  lemma QueueJoin(pages: Pages, pend: Pending, a: seq<Entry>, b: seq<Entry>)
    requires QueueOK(pages, pend, a) && QueueOK(pages, pend, b) && QueuePages(a) !! QueuePages(b)
    ensures QueueOK(pages, pend, a + b) && QueuePages(a + b) == QueuePages(a) + QueuePages(b)
  {
    hide EntryOK;
    var q := a + b;
    assert forall e :: e in a ==> e.page in QueuePages(a);
    assert forall e :: e in b ==> e.page in QueuePages(b);
    assert forall e :: e in q <==> e in a || e in b;
    forall i, j | 0 <= i < j < |q| ensures q[i].page != q[j].page {
      if i < |a| <= j { assert a[i] in a && b[j - |a|] in b; }
    }
  }

  lemma TasksJoin(pages: Pages, pend: Pending, tasks: seq<Task>, t: Task)
    requires TasksOK(pages, pend, tasks) && TaskOK(pages, pend, t) && AllTaskPages(tasks) !! TaskPages(t)
    ensures TasksOK(pages, pend, tasks + [t]) && AllTaskPages(tasks + [t]) == AllTaskPages(tasks) + TaskPages(t)
  {
    hide TaskOK, TaskPages;
    var ts := tasks + [t];
    assert forall s :: s in ts <==> s in tasks || s == t;
    forall i, j | 0 <= i < j < |ts| ensures TaskPages(ts[i]) !! TaskPages(ts[j]) {
      if j == |tasks| {
        assert ts[i] in tasks;
        assert forall x :: x in TaskPages(ts[i]) ==> x in AllTaskPages(tasks);
      }
    }
    AllTaskPagesJoin(tasks, t);
  }

  lemma AllTaskPagesJoin(tasks: seq<Task>, t: Task)
    ensures AllTaskPages(tasks + [t]) == AllTaskPages(tasks) + TaskPages(t)
  {
    hide TaskPages;
    var ts := tasks + [t];
    assert forall s :: s in ts <==> s in tasks || s == t;
    forall x ensures x in AllTaskPages(ts) <==> x in AllTaskPages(tasks) + TaskPages(t) {
      if x in AllTaskPages(ts) {
        var s :| s in ts && x in TaskPages(s);
      }
    }
  }

  // ---- one child is served --------------------------------------------------------------------

  ghost predicate PagesTouched(pages: Pages, pages': Pages, c: PageId, created: set<PageId>) {
    && c in pages && created !! pages.Keys && pages'.Keys == pages.Keys + created
    && forall x :: x in pages && x != c ==> pages'[x] == pages[x]
  }

  ghost predicate PendingTouched(pages: Pages, pend: Pending, pend': Pending, p: PageId, c: PageId, created: set<PageId>) {
    && (forall x :: x in pages && x != c && x != p ==> PendingAt(pend', x) == PendingAt(pend, x))
    && pend'.Keys <= pend.Keys + {c} + created
  }

  ghost predicate LabelsTouched(A: Labelling, pend: Pending, A': Labelling, p: PageId, c: PageId, created: set<PageId>) {
    && p in A && c in A && A'.Keys == A.Keys + created
    && (forall x :: x in A ==> A'[x].height == A[x].height)
    && (forall x :: x in pend && x in A ==> A'[x].parent == A[x].parent)
    && (forall x :: x in {c} + created ==> A'[x].parent == p && A'[x].height == A[p].height - 1)
  }

  /** Serving child `c` of `p` touches only `p`, `c` and the new pages. */
  ghost predicate OnlyChild(pages: Pages, A: Labelling, pend: Pending, p: PageId, c: PageId,
                            pages': Pages, A': Labelling, pend': Pending, created: set<PageId>) {
    && pages.Keys == A.Keys && p in pages && p != c
    && PagesTouched(pages, pages', c, created)
    && PendingTouched(pages, pend, pend', p, c, created)
    && LabelsTouched(A, pend, A', p, c, created)
  }

  lemma QueueInPages(pages: Pages, pend: Pending, queue: seq<Entry>)
    requires QueueOK(pages, pend, queue)
    ensures QueuePages(queue) <= pages.Keys
  {
    forall x | x in QueuePages(queue) ensures x in pages {
      var e :| e in queue && e.page == x;
      assert EntryOK(pages, pend, e);
    }
  }

  lemma TasksInPages(pages: Pages, pend: Pending, tasks: seq<Task>)
    requires TasksOK(pages, pend, tasks)
    ensures AllTaskPages(tasks) <= pages.Keys
  {
    forall x | x in AllTaskPages(tasks) ensures x in pages {
      var t :| t in tasks && x in TaskPages(t);
      assert TaskOK(pages, pend, t);
    }
  }

  lemma QueueAfterChild(pages: Pages, A: Labelling, pend: Pending, p: PageId, c: PageId,
                        pages': Pages, A': Labelling, pend': Pending, created: set<PageId>,
                        queue: seq<Entry>, tasks: seq<Task>)
    requires OnlyChild(pages, A, pend, p, c, pages', A', pend', created)
    requires QueueOK(pages, pend, queue) && TasksOK(pages, pend, tasks)
    requires p !in QueuePages(queue) && p !in AllTaskPages(tasks)
    requires c !in QueuePages(queue) && c !in AllTaskPages(tasks)
    ensures QueueOK(pages', pend', queue) && TasksOK(pages', pend', tasks)
    ensures QueuePages(queue) !! {c} + created && AllTaskPages(tasks) !! {c} + created
    ensures QueuePages(queue) <= pages.Keys && AllTaskPages(tasks) <= pages.Keys
  {
    QueueInPages(pages, pend, queue);
    TasksInPages(pages, pend, tasks);
    hide QueueOK, TasksOK, QueuePages, AllTaskPages, PendingAt;
    QueueFrame(pages, pend, queue, pages', pend');
    TasksFrame(pages, pend, tasks, pages', pend');
  }

  lemma LevelsAfterChild(pages: Pages, A: Labelling, pend: Pending, p: PageId, c: PageId,
                         pages': Pages, A': Labelling, pend': Pending, created: set<PageId>)
    requires OnlyChild(pages, A, pend, p, c, pages', A', pend', created) && p in A
    requires LevelsFrom(A, pend, A[p].height - 1)
    ensures p in A' && LevelsFrom(A', pend', A'[p].height - 1)
  {
  }

  /** A page below a child at the next level has nothing pending yet. */
  lemma ParentsAfterChild(pages: Pages, A: Labelling, root: PageId, pend: Pending, p: PageId, c: PageId,
                          pages': Pages, A': Labelling, pend': Pending, created: set<PageId>)
    requires OnlyChild(pages, A, pend, p, c, pages', A', pend', created) && p in A && root !in pend
    requires Consistent(A', root) && ParentsDone(A, pend, p) && LevelsFrom(A, pend, A[p].height - 1)
    requires pend.Keys <= pages.Keys
    ensures ParentsDone(A', pend', p)
  {
    hide Consistent, PendingAt;
    forall x | x in pend' && x in A' ensures A'[x].parent == p || A'[x].parent !in pend' {
      if x !in {c} + created {
        assert x in pend && A'[x].parent == A[x].parent;
        ParentTaller(A', root, x);
      }
    }
  }

  lemma UnservedAfterChild(children: seq<PageId>, pend: Pending, rem: MessageMap, ts: seq<PivotTuple>, queue: seq<Entry>, tasks: seq<Task>,
                           i: nat, c: PageId, pend': Pending, ts': seq<PivotTuple>, queue': seq<Entry>, tasks': seq<Task>, created: set<PageId>)
    requires Unserved(children, pend, rem, ts, queue, tasks) && i in rem && i < |children| && children[i] == c
    requires forall x :: x in created ==> x !in children
    requires ts' == ts || (|ts'| == |ts| + 1 && ts'[..|ts|] == ts && ts'[|ts|].index == i && ts'[|ts|].child in created)
    requires pend'.Keys <= pend.Keys + {c} + created
    requires QueuePages(queue') <= QueuePages(queue) + {c} + created
    requires AllTaskPages(tasks') <= AllTaskPages(tasks) + {c} + created
    ensures Unserved(children, pend', rem - {i}, ts', queue', tasks')
  {
    hide QueuePages, AllTaskPages;
    if ts' != ts {
      assert ts' == ts + [ts'[|ts|]];
      assert i !in Indices(ts);
      assert forall t :: t in ts ==> t.index in Indices(ts);
    }
    forall j | j in rem - {i} ensures
      j < |children| && j !in Indices(ts') && children[j] !in pend' &&
      children[j] !in QueuePages(queue') && children[j] !in AllTaskPages(tasks')
    {
      assert children[j] != c;
    }
  }

  lemma ChildrenInPages(pages: Pages, A: Labelling, root: PageId, pend: Pending, p: PageId, ts: seq<PivotTuple>)
    requires Stored(pages, A, root, pend, p, ts) && p in pages && pages[p].InnerNode?
    ensures forall c :: c in pages[p].children ==> c in pages && c != root && c in A && A[c].parent == p
    ensures |pages[p].children| == |pages[p].pivots| + 1
  {
    StoredAt(pages, A, root, pend, p, ts, p);
    PageOKParts(pages, A, root, pend, p, ts);
    var n := pages[p];
    hide Stored, PageOK, ContentOK;
    forall c | c in n.children ensures c in A && c != root && A[c].parent == p {
      var i :| 0 <= i < |n.children| && n.children[i] == c;
      if i in Indices(ts) {
        var t :| t in ts && t.index == i;
        assert SplitKid(A, root, p, n.pivots, n.children, t);
      } else {
        assert Kid(A, root, p, n.pivots, n.children, i);
      }
    }
    StoredKeys(pages, A, root, pend, p, ts);
  }

  lemma SourceAfterChild(pages: Pages, root: PageId, pend: Pending, p: PageId, rem: MessageMap, ts: seq<PivotTuple>,
                         i: nat, pages': Pages, pend': Pending, ts': seq<PivotTuple>)
    requires Source(pages, root, pend, p, rem, ts) && i in rem && p in pages' && pages'[p] == pages[p]
    requires Sorted(rem[i]) && PendingAt(pend', p) == Without(PendingAt(pend, p), MapOf(rem[i]))
    requires |ts'| <= |ts| + 1
    ensures Source(pages', root, pend', p, rem - {i}, ts')
  {
    CarriesOthers(pages[p].pivots, rem, PendingAt(pend, p), i);
    hide Carries, PendingAt;
    assert (rem - {i}).Keys == rem.Keys - {i};
    assert |(rem - {i}).Keys| == |rem.Keys| - 1;
    assert |rem - {i}| == |rem| - 1;
  }

  /** Serving one child keeps the state of the node being handled. */
  lemma AfterChild(pages: Pages, A: Labelling, root: PageId, pend: Pending, p: PageId, rem: MessageMap,
                   ts: seq<PivotTuple>, queue: seq<Entry>, tasks: seq<Task>,
                   i: nat, pages': Pages, A': Labelling, pend': Pending, created: set<PageId>,
                   ts': seq<PivotTuple>, qs: seq<Entry>, tks: seq<Task>)
    requires Serving(pages, A, root, pend, p, rem, ts, queue, tasks) && i in rem && i < |pages[p].children|
    requires var c := pages[p].children[i]; OnlyChild(pages, A, pend, p, c, pages', A', pend', created)
    requires Consistent(A', root) && Stored(pages', A', root, pend', p, ts')
    requires Sorted(rem[i]) && PendingAt(pend', p) == Without(PendingAt(pend, p), MapOf(rem[i]))
    requires ts' == ts || (|ts'| == |ts| + 1 && ts'[..|ts|] == ts && ts'[|ts|].index == i && ts'[|ts|].child in created)
    requires QueueOK(pages', pend', qs) && TasksOK(pages', pend', tks) && |tks| <= 1
    requires var c := pages[p].children[i];
             QueuePages(qs) <= {c} + created && AllTaskPages(tks) <= {c} + created && QueuePages(qs) !! AllTaskPages(tks) &&
             pend'.Keys <= pend.Keys + QueuePages(qs) + AllTaskPages(tks)
    ensures Serving(pages', A', root, pend', p, rem - {i}, ts', queue + qs, tasks + tks)
  {
    hide *;
    ServingParts(pages, A, root, pend, p, rem, ts, queue, tasks);
    var c := pages[p].children[i];
    SourceParts(pages, root, pend, p, rem, ts);
    ChildrenInPages(pages, A, root, pend, p, ts);
    UnservedAt(pages[p].children, pend, rem, ts, queue, tasks, i);
    OnlyChildKeys(pages, A, pend, p, c, pages', A', pend', created);
    StoredKeys(pages, A, root, pend, p, ts);
    OwnedParts(pend, p, queue, tasks);
    QueueAfterChild(pages, A, pend, p, c, pages', A', pend', created, queue, tasks);
    QueueJoin(pages', pend', queue, qs);
    TasksJoinAll(pages', pend', tasks, tks);
    SourceAfterChild(pages, root, pend, p, rem, ts, i, pages', pend', ts');
    LevelsAfterChild(pages, A, pend, p, c, pages', A', pend', created);
    ParentsAfterChild(pages, A, root, pend, p, c, pages', A', pend', created);
    CreatedNotChildren(pages[p].children, pages, created);
    UnservedAfterChild(pages[p].children, pend, rem, ts, queue, tasks, i, c, pend', ts', queue + qs, tasks + tks, created);
    OwnedFrom(pend', p, queue + qs, tasks + tks);
    ServingFrom(pages', A', root, pend', p, rem - {i}, ts', queue + qs, tasks + tks);
  }

  lemma CreatedNotChildren(children: seq<PageId>, pages: Pages, created: set<PageId>)
    requires created !! pages.Keys && forall c :: c in children ==> c in pages
    ensures forall x :: x in created ==> x !in children
  {
  }

  lemma OwnedParts(pend: Pending, p: PageId, queue: seq<Entry>, tasks: seq<Task>)
    requires Owned(pend, p, queue, tasks)
    ensures pend.Keys <= {p} + QueuePages(queue) + AllTaskPages(tasks)
    ensures p !in QueuePages(queue) && p !in AllTaskPages(tasks)
    ensures QueuePages(queue) !! AllTaskPages(tasks)
  {
  }

  lemma OwnedFrom(pend: Pending, p: PageId, queue: seq<Entry>, tasks: seq<Task>)
    requires pend.Keys <= {p} + QueuePages(queue) + AllTaskPages(tasks)
    requires p !in QueuePages(queue) && p !in AllTaskPages(tasks)
    requires QueuePages(queue) !! AllTaskPages(tasks)
    ensures Owned(pend, p, queue, tasks)
  {
  }

  lemma SourceParts(pages: Pages, root: PageId, pend: Pending, p: PageId, rem: MessageMap, ts: seq<PivotTuple>)
    requires Source(pages, root, pend, p, rem, ts)
    ensures p != root && p in pages && pages[p].InnerNode?
    ensures Carries(pages[p].pivots, rem, PendingAt(pend, p))
    ensures forall c :: c in rem ==> |rem[c]| <= MAX_FLUSH_SIZE
    ensures |pages[p].pivots| + |ts| + |rem| <= SIZES.innerN
  {
  }

  lemma ServingParts(pages: Pages, A: Labelling, root: PageId, pend: Pending, p: PageId, rem: MessageMap,
                     ts: seq<PivotTuple>, queue: seq<Entry>, tasks: seq<Task>)
    requires Serving(pages, A, root, pend, p, rem, ts, queue, tasks)
    ensures Consistent(A, root) && Stored(pages, A, root, pend, p, ts)
    ensures Source(pages, root, pend, p, rem, ts)
    ensures p in pages && pages[p].InnerNode? && Unserved(pages[p].children, pend, rem, ts, queue, tasks)
    ensures QueueOK(pages, pend, queue) && TasksOK(pages, pend, tasks)
    ensures Owned(pend, p, queue, tasks) && root !in pend
    ensures p in A && LevelsFrom(A, pend, A[p].height - 1) && ParentsDone(A, pend, p)
  {
  }

  lemma ServingFrom(pages: Pages, A: Labelling, root: PageId, pend: Pending, p: PageId, rem: MessageMap,
                    ts: seq<PivotTuple>, queue: seq<Entry>, tasks: seq<Task>)
    requires Consistent(A, root) && Stored(pages, A, root, pend, p, ts)
    requires Source(pages, root, pend, p, rem, ts)
    requires p in pages && pages[p].InnerNode? && Unserved(pages[p].children, pend, rem, ts, queue, tasks)
    requires QueueOK(pages, pend, queue) && TasksOK(pages, pend, tasks)
    requires Owned(pend, p, queue, tasks) && root !in pend
    requires p in A && LevelsFrom(A, pend, A[p].height - 1) && ParentsDone(A, pend, p)
    ensures Serving(pages, A, root, pend, p, rem, ts, queue, tasks)
  {
  }

  lemma TasksJoinAll(pages: Pages, pend: Pending, tasks: seq<Task>, tks: seq<Task>)
    requires TasksOK(pages, pend, tasks) && TasksOK(pages, pend, tks) && |tks| <= 1
    requires AllTaskPages(tasks) !! AllTaskPages(tks)
    ensures TasksOK(pages, pend, tasks + tks) && AllTaskPages(tasks + tks) == AllTaskPages(tasks) + AllTaskPages(tks)
  {
    hide TaskOK, TaskPages;
    if tks == [] {
      assert tasks + tks == tasks;
      assert AllTaskPages([]) == {};
    } else {
      assert tks == [] + [tks[0]];
      AllTaskPagesJoin([], tks[0]);
      assert AllTaskPages([]) == {};
      assert tks[0] in tks;
      assert tasks + tks == tasks + [tks[0]];
      hide *;
      TasksJoin(pages, pend, tasks, tks[0]);
    }
  }

  lemma OnlyChildKeys(pages: Pages, A: Labelling, pend: Pending, p: PageId, c: PageId,
                      pages': Pages, A': Labelling, pend': Pending, created: set<PageId>)
    requires OnlyChild(pages, A, pend, p, c, pages', A', pend', created)
    ensures p in pages' && pages'[p] == pages[p] && p in A' && pages'.Keys == A'.Keys && created !! pages.Keys
    ensures pend'.Keys <= pend.Keys + {c} + created && p !in created && p != c
  {
  }

  lemma UnservedAt(children: seq<PageId>, pend: Pending, rem: MessageMap, ts: seq<PivotTuple>, queue: seq<Entry>, tasks: seq<Task>, i: nat)
    requires Unserved(children, pend, rem, ts, queue, tasks) && i in rem
    ensures i < |children| && children[i] !in pend && children[i] !in QueuePages(queue) && children[i] !in AllTaskPages(tasks)
    ensures OnlyAt(children, ts, i, children[i])
  {
    assert i !in Indices(ts);
    forall t | t in ts ensures t.index != i && t.child != children[i] {
      assert t.index in Indices(ts) && children[i] in children;
    }
  }
}
