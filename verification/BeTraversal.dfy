/** How the handling of one queue entry begins and ends. */
module BeTraversal {
  import opened Keys
  import opened Messages
  import opened Labels
  import opened Leaves
  import opened LeafFlush
  import opened Kids
  import opened InsertPivots
  import opened BeSizes
  import opened BeNodes
  import opened BeFlush
  import opened BeCascade
  import opened BeServe
  import opened RemoveMessages

  // ---- taking an entry off the queue ----------------------------------------------------------

  lemma EntryPending(pages: Pages, pend: Pending, e: Entry)
    requires EntryOK(pages, pend, e)
    ensures e.page in pend && e.page in pages && pages[e.page].InnerNode?
  {
    SomethingCarried(pages[e.page].pivots, e.messages, PendingAt(pend, e.page));
  }

  lemma QueueHead(pages: Pages, pend: Pending, e: Entry, queue: seq<Entry>)
    requires QueueOK(pages, pend, [e] + queue)
    ensures EntryOK(pages, pend, e) && QueueOK(pages, pend, queue)
    ensures QueuePages([e] + queue) == {e.page} + QueuePages(queue) && e.page !in QueuePages(queue)
  {
    var q := [e] + queue;
    hide EntryOK;
    assert q[0] == e && q[0] in q;
    assert forall i :: 0 <= i < |queue| ==> queue[i] == q[i + 1];
    assert forall f :: f in queue ==> f in q;
    assert forall f :: f in q ==> f == e || f in queue;
  }

  lemma QueuePending(pages: Pages, pend: Pending, queue: seq<Entry>)
    requires QueueOK(pages, pend, queue)
    ensures QueuePages(queue) <= pend.Keys
  {
    forall x | x in QueuePages(queue) ensures x in pend {
      var e :| e in queue && e.page == x;
      EntryPending(pages, pend, e);
    }
  }

  lemma InnerNotRoot(pages: Pages, A: Labelling, root: PageId, pend: Pending, p: PageId, ts: seq<PivotTuple>, x: PageId)
    requires Stored(pages, A, root, pend, p, ts) && x in pages && pages[x].InnerNode?
    ensures x != root && x in A && A[x].height > 0
  {
    StoredAt(pages, A, root, pend, p, ts, x);
  }

  lemma NodeKids(pages: Pages, A: Labelling, root: PageId, pend: Pending, p: PageId)
    requires Consistent(A, root) && Stored(pages, A, root, pend, root, []) && p in pages && !pages[p].LeafNode?
    ensures p in A && AllKids(A, root, p, pages[p].pivots, pages[p].children)
    ensures NoDuplicates(pages[p].children)
    ensures forall c :: c in pages[p].children ==> c in A && c != root && A[c].parent == p
  {
    StoredAt(pages, A, root, pend, root, [], p);
    var n := pages[p];
    KidsOKPart(pages, A, root, pend, p, []);
    NothingPendingMeansKids(A, root, p, n.pivots, n.children);
    hide Consistent, Stored, PageOK, KidsOK;
    forall i, j | 0 <= i < j < |n.children| ensures n.children[i] != n.children[j] {
      if n.children[i] == n.children[j] { KidsDistinct(A, root, p, n.pivots, n.children, i, j); }
    }
    forall c | c in n.children ensures c in A && c != root && A[c].parent == p {
      var i :| 0 <= i < |n.children| && n.children[i] == c;
      assert Kid(A, root, p, n.pivots, n.children, i);
    }
  }

  lemma StoredForAny(pages: Pages, A: Labelling, root: PageId, pend: Pending, p: PageId, q: PageId)
    requires Stored(pages, A, root, pend, p, [])
    ensures Stored(pages, A, root, pend, q, [])
  {
    hide PageOK;
  }

  lemma CarriedIndex(pivots: seq<Key>, flushed: MessageMap, gone: map<Key, Upsert>)
    requires Carries(pivots, flushed, gone)
    ensures forall c :: c in flushed ==> c <= |pivots|
  {
    forall c | c in flushed ensures c <= |pivots| {
      assert CarriesChild(pivots, flushed, gone, c);
    }
  }

  lemma ChildNotPending(A: Labelling, root: PageId, pend: Pending, p: PageId, c: PageId)
    requires p in pend && p != root && ParentsDone(A, pend, root)
    requires c in A && A[c].parent == p
    ensures c !in pend
  {
  }

  lemma UnservedAtFirst(A: Labelling, root: PageId, pend: Pending, p: PageId, n: Node, rem: MessageMap, queue: seq<Entry>)
    requires n.InnerNode? && NoDuplicates(n.children) && |n.children| == |n.pivots| + 1
    requires forall c :: c in rem ==> c <= |n.pivots|
    requires forall c :: c in n.children ==> c in A && c != root && A[c].parent == p
    requires p in pend && p != root && root !in pend && ParentsDone(A, pend, root) && QueuePages(queue) <= pend.Keys
    ensures Unserved(n.children, pend, rem, [], queue, [])
  {
    hide QueuePages;
    assert Indices([]) == {} && AllTaskPages([]) == {};
    forall i | i in rem ensures n.children[i] !in pend {
      var c := n.children[i];
      assert c in n.children;
      ChildNotPending(A, root, pend, p, c);
    }
  }

  lemma LevelsOfQueue(A: Labelling, pend: Pending, queue: seq<Entry>, level: nat, front: nat)
    requires Leveled(A, queue, level, front) && pend.Keys <= QueuePages(queue) && front > 0
    ensures LevelsFrom(A, pend, A[queue[0].page].height - 1)
    ensures A[queue[0].page].height == level
  {
    forall x | x in pend && x in A ensures A[x].height >= level - 1 {
      var e :| e in queue && e.page == x;
      var i :| 0 <= i < |queue| && queue[i] == e;
    }
  }

  /** The first entry's node becomes the node being handled. */
  lemma BeginServing(pages: Pages, A: Labelling, root: PageId, pend: Pending, e: Entry, queue: seq<Entry>, level: nat, front: nat)
    requires Cascading(pages, A, root, pend, [e] + queue) && Leveled(A, [e] + queue, level, front) && front > 0
    ensures Serving(pages, A, root, pend, e.page, e.messages, [], queue, [])
    ensures e.page in A && A[e.page].height == level && level > 0
  {
    var p := e.page;
    QueueHead(pages, pend, e, queue);
    EntryPending(pages, pend, e);
    InnerNotRoot(pages, A, root, pend, root, [], p);
    NodeKids(pages, A, root, pend, p);
    StoredForAny(pages, A, root, pend, root, p);
    QueuePending(pages, pend, queue);
    LevelsOfQueue(A, pend, [e] + queue, level, front);
    CarriedIndex(pages[p].pivots, e.messages, PendingAt(pend, p));
    KidsLength(A, root, p, pages[p].pivots, pages[p].children);
    UnservedAtFirst(A, root, pend, p, pages[p], e.messages, queue);
    NoEntries(pages, pend);
    SourceFrom(pages, root, pend, e);
    ParentsDoneFor(A, pend, root, p);
    hide *;
    OwnedFrom(pend, p, queue, []);
    ServingFrom(pages, A, root, pend, p, e.messages, [], queue, []);
  }

  lemma KidsLength(A: Labelling, root: PageId, p: PageId, pivots: seq<Key>, children: seq<PageId>)
    requires p in A && AllKids(A, root, p, pivots, children)
    ensures |children| == |pivots| + 1
  {
  }

  lemma SourceFrom(pages: Pages, root: PageId, pend: Pending, e: Entry)
    requires EntryOK(pages, pend, e) && e.page != root
    ensures Source(pages, root, pend, e.page, e.messages, [])
  {
  }

  lemma ParentsDoneFor(A: Labelling, pend: Pending, root: PageId, p: PageId)
    requires ParentsDone(A, pend, root) && root !in pend
    ensures ParentsDone(A, pend, p)
  {
  }

  // ---- releasing the handled node -------------------------------------------------------------

  /** The handled node lists its children again; leaves still have messages to apply. */
  ghost predicate Releasing(pages: Pages, A: Labelling, root: PageId, pend: Pending, queue: seq<Entry>, tasks: seq<Task>) {
    && Consistent(A, root) && Stored(pages, A, root, pend, root, [])
    && QueueOK(pages, pend, queue) && TasksOK(pages, pend, tasks)
    && pend.Keys <= QueuePages(queue) + AllTaskPages(tasks) && QueuePages(queue) !! AllTaskPages(tasks)
    && root !in pend && ParentsDone(A, pend, root)
  }

  lemma StoredSamePending(pages: Pages, A: Labelling, root: PageId, pend: Pending, pend': Pending)
    requires Stored(pages, A, root, pend, root, []) && pend'.Keys <= pend.Keys
    requires forall x :: PendingAt(pend', x) == PendingAt(pend, x)
    ensures Stored(pages, A, root, pend', root, [])
  {
    hide ContentOK, KidsOK, PendingAt;
    forall x | x in pages ensures PageOK(pages, A, root, pend', x, []) {
      assert PageOK(pages, A, root, pend, x, if x == root then [] else []);
    }
  }

  lemma DroppedPending(pend: Pending, p: PageId)
    requires PendingAt(pend, p) == map[]
    ensures forall x :: PendingAt(pend - {p}, x) == PendingAt(pend, x)
  {
  }

  lemma ParentsDoneAfter(A: Labelling, pend: Pending, root: PageId, p: PageId)
    requires ParentsDone(A, pend, p)
    ensures ParentsDone(A, pend - {p}, root)
  {
  }

  lemma UnservedDistinct(children: seq<PageId>, pend: Pending, rem: MessageMap, ts: seq<PivotTuple>, queue: seq<Entry>, tasks: seq<Task>)
    requires Unserved(children, pend, rem, ts, queue, tasks)
    ensures forall i, j :: 0 <= i < j < |ts| ==> ts[i].index != ts[j].index
  {
  }

  lemma PendingKidsMembers(A: Labelling, root: PageId, p: PageId, pivots: seq<Key>, children: seq<PageId>, ts: seq<PivotTuple>, sorted: seq<PivotTuple>)
    requires p in A && KidsPending(A, root, p, pivots, children, ts) && forall t :: t in sorted <==> t in ts
    ensures KidsPending(A, root, p, pivots, children, sorted)
  {
    assert Indices(sorted) == Indices(ts);
  }

  lemma StoredMembers(pages: Pages, A: Labelling, root: PageId, pend: Pending, p: PageId, ts: seq<PivotTuple>, sorted: seq<PivotTuple>)
    requires Stored(pages, A, root, pend, p, ts) && p in pages && !pages[p].LeafNode? && forall t :: t in sorted <==> t in ts
    ensures Stored(pages, A, root, pend, p, sorted)
  {
    StoredAt(pages, A, root, pend, p, ts, p);
    PendingKidsMembers(A, root, p, pages[p].pivots, pages[p].children, ts, sorted);
    hide ContentOK, KidsPending;
    forall x | x in pages ensures PageOK(pages, A, root, pend, x, if x == p then sorted else []) {
      assert PageOK(pages, A, root, pend, x, if x == p then ts else []);
    }
  }

  /** Inserting the new pivots into the handled node releases it. */
  lemma EndServing(pages: Pages, A: Labelling, root: PageId, pend: Pending, p: PageId, ts: seq<PivotTuple>, queue: seq<Entry>, tasks: seq<Task>, sorted: seq<PivotTuple>)
    requires Serving(pages, A, root, pend, p, map[], ts, queue, tasks)
    requires IndexSorted(sorted) && |sorted| == |ts| && forall t :: t in sorted <==> t in ts
    ensures p in pages && pages[p].InnerNode? && |pages[p].children| == |pages[p].pivots| + 1
    ensures |pages[p].pivots| + |sorted| <= SIZES.innerN
    ensures forall t :: t in sorted ==> t.index < |pages[p].children|
    ensures var n := WithPivots(pages[p], PivotsWith(pages[p].pivots, sorted), ChildrenWith(pages[p].children, sorted));
            Releasing(pages[p := n], A, root, pend - {p}, queue, tasks)
  {
    hide *;
    ServingParts(pages, A, root, pend, p, map[], ts, queue, tasks);
    SourceParts(pages, root, pend, p, map[], ts);
    NothingCarried(pages[p].pivots, PendingAt(pend, p));
    DroppedPending(pend, p);
    StoredMembers(pages, A, root, pend, p, ts, sorted);
    InsertStep(pages, A, root, pend, p, sorted);
    var n := WithPivots(pages[p], PivotsWith(pages[p].pivots, sorted), ChildrenWith(pages[p].children, sorted));
    var pages', pend' := pages[p := n], pend - {p};
    StoredForAny(pages', A, root, pend, p, root);
    StoredSamePending(pages', A, root, pend, pend');
    OwnedParts(pend, p, queue, tasks);
    QueueInPages(pages, pend, queue);
    TasksInPages(pages, pend, tasks);
    QueueFrame(pages, pend, queue, pages', pend');
    TasksFrame(pages, pend, tasks, pages', pend');
    ParentsDoneAfter(A, pend, root, p);
    ReleasingFrom(pages', A, root, pend', queue, tasks);
  }

  lemma ReleasingFrom(pages: Pages, A: Labelling, root: PageId, pend: Pending, queue: seq<Entry>, tasks: seq<Task>)
    requires Consistent(A, root) && Stored(pages, A, root, pend, root, [])
    requires QueueOK(pages, pend, queue) && TasksOK(pages, pend, tasks)
    requires pend.Keys <= QueuePages(queue) + AllTaskPages(tasks) && QueuePages(queue) !! AllTaskPages(tasks)
    requires root !in pend && ParentsDone(A, pend, root)
    ensures Releasing(pages, A, root, pend, queue, tasks)
  {
  }

  lemma ReleasingParts(pages: Pages, A: Labelling, root: PageId, pend: Pending, queue: seq<Entry>, tasks: seq<Task>)
    requires Releasing(pages, A, root, pend, queue, tasks)
    ensures Consistent(A, root) && Stored(pages, A, root, pend, root, [])
    ensures QueueOK(pages, pend, queue) && TasksOK(pages, pend, tasks)
    ensures pend.Keys <= QueuePages(queue) + AllTaskPages(tasks) && QueuePages(queue) !! AllTaskPages(tasks)
    ensures root !in pend && ParentsDone(A, pend, root)
  {
  }

  /** With all tasks done the cascade goes on with the queue. */
  lemma Released(pages: Pages, A: Labelling, root: PageId, pend: Pending, queue: seq<Entry>)
    requires Releasing(pages, A, root, pend, queue, [])
    ensures Cascading(pages, A, root, pend, queue)
  {
    assert AllTaskPages([]) == {};
  }

  // ---- a task applies its messages ------------------------------------------------------------

  /** A leaf after its ready messages. */
  lemma ApplyReady(pages: Pages, A: Labelling, root: PageId, pend: Pending, x: PageId, msgs: seq<Upsert>) returns (B: Labelling)
    requires Consistent(A, root) && Stored(pages, A, root, pend, root, []) && LeafReady(pages, pend, x, msgs)
    ensures x in pages && pages[x].LeafNode? && |pages[x].leaf.keys| == |pages[x].leaf.values|
    ensures x in A && x in B && B.Keys == A.Keys && Consistent(B, root) && root in A && B[root].view == A[root].view
    ensures forall y :: y in A ==> B[y].parent == A[y].parent && B[y].height == A[y].height
    ensures Stored(pages[x := LeafNode(LeafAfter(pages[x].leaf, msgs))], B, root, pend - {x}, root, [])
  {
    var l := pages[x].leaf;
    var leaf := LeafAfter(l, msgs);
    assert msgs[..|msgs|] == msgs;
    assert |leaf.keys| <= SIZES.leafN;
    ConsistentRoot(A, root);
    LeafAfterOK(l, msgs);
    forall k: Key ensures Get(Pairs(leaf), k) == ActOn(PendingAt(pend, x), k, Get(Pairs(l), k)) {
      LeafAfterActs(l, msgs, k);
    }
    hide *;
    B := LeafStep(pages, A, root, pend, root, x, leaf);
    StoredKeys(pages, A, root, pend, root, []);
    ConsistentRoot(B, root);
    WithLeafKeeps(A[x], Pairs(leaf));
  }

  lemma LeafAfterOK(l: Leaf, msgs: seq<Upsert>)
    requires LeafOK(l) && Sorted(msgs)
    ensures LeafOK(LeafAfter(l, msgs))
  {
    LeafAfterActs(l, msgs, 0);
  }

  lemma WithLeafKeeps(l: Label, leaf: map<Key, Value>)
    ensures WithLeaf(l, leaf).parent == l.parent && WithLeaf(l, leaf).height == l.height
    ensures WithLeaf(l, leaf).view == l.view
  {
  }

  /** The pages after a task has been carried out. */
  function TaskDone(pages: Pages, t: Task): Pages
    requires t.page in pages && pages[t.page].LeafNode? && |pages[t.page].leaf.keys| == |pages[t.page].leaf.values|
    requires t.split.Some? ==>
               var r := t.split.value.right;
               r in pages && r != t.page && pages[r].LeafNode? && |pages[r].leaf.keys| == |pages[r].leaf.values|
  {
    match t.split
    case None => pages[t.page := LeafNode(LeafAfter(pages[t.page].leaf, t.msgs))]
    case Some(s) =>
      var at := UpperBound(KeysOf(t.msgs), s.mid);
      pages[t.page := LeafNode(LeafAfter(pages[t.page].leaf, t.msgs[..at]))]
           [s.right := LeafNode(LeafAfter(pages[s.right].leaf, t.msgs[at..]))]
  }

  lemma TaskReady(pages: Pages, pend: Pending, t: Task)
    requires TaskOK(pages, pend, t)
    ensures Sorted(t.msgs)
    ensures t.page in pages && pages[t.page].LeafNode? && |pages[t.page].leaf.keys| == |pages[t.page].leaf.values|
    ensures t.split.Some? ==>
              var r := t.split.value.right;
              r in pages && r != t.page && pages[r].LeafNode? && |pages[r].leaf.keys| == |pages[r].leaf.values|
    ensures t.split.None? ==> LeafReady(pages, pend, t.page, t.msgs)
    ensures t.split.Some? ==>
              var at := UpperBound(KeysOf(t.msgs), t.split.value.mid);
              LeafReady(pages, pend, t.page, t.msgs[..at]) && LeafReady(pages, pend, t.split.value.right, t.msgs[at..])
  {
    hide Fits, UpperBound, Holds;
  }

  lemma ReadyElsewhere(pages: Pages, pend: Pending, x: PageId, msgs: seq<Upsert>, y: PageId, n: Node)
    requires LeafReady(pages, pend, x, msgs) && x != y
    ensures LeafReady(pages[y := n], pend - {y}, x, msgs)
  {
    hide Fits, LeafOK, Holds, Sorted;
  }

  /** Carrying out a task changes no view and leaves nothing pending on its leaves. */
  lemma CarryOut(pages: Pages, A: Labelling, root: PageId, pend: Pending, t: Task) returns (B: Labelling)
    requires Consistent(A, root) && Stored(pages, A, root, pend, root, []) && TaskOK(pages, pend, t)
    ensures t.page in pages && pages[t.page].LeafNode? && |pages[t.page].leaf.keys| == |pages[t.page].leaf.values|
    ensures t.split.Some? ==>
              var r := t.split.value.right;
              r in pages && r != t.page && pages[r].LeafNode? && |pages[r].leaf.keys| == |pages[r].leaf.values|
    ensures B.Keys == A.Keys && Consistent(B, root) && root in A && B[root].view == A[root].view
    ensures forall y :: y in A ==> B[y].parent == A[y].parent && B[y].height == A[y].height
    ensures Stored(TaskDone(pages, t), B, root, pend - TaskPages(t), root, [])
  {
    hide *;
    TaskReady(pages, pend, t);
    TaskPagesOf(t);
    TaskDoneIs(pages, t);
    match t.split
    case None =>
      B := ApplyReady(pages, A, root, pend, t.page, t.msgs);
    case Some(s) =>
      var at := UpperBound(KeysOf(t.msgs), s.mid);
      var A1 := ApplyReady(pages, A, root, pend, t.page, t.msgs[..at]);
      var n := LeafNode(LeafAfter(pages[t.page].leaf, t.msgs[..at]));
      ReadyElsewhere(pages, pend, s.right, t.msgs[at..], t.page, n);
      B := ApplyReady(pages[t.page := n], A1, root, pend - {t.page}, s.right, t.msgs[at..]);
      assert pend - {t.page} - {s.right} == pend - TaskPages(t);
  }

  lemma TaskDoneIs(pages: Pages, t: Task)
    requires t.page in pages && pages[t.page].LeafNode? && |pages[t.page].leaf.keys| == |pages[t.page].leaf.values|
    requires t.split.Some? ==>
               var r := t.split.value.right;
               r in pages && r != t.page && pages[r].LeafNode? && |pages[r].leaf.keys| == |pages[r].leaf.values|
    ensures t.split.None? ==> TaskDone(pages, t) == pages[t.page := LeafNode(LeafAfter(pages[t.page].leaf, t.msgs))]
    ensures t.split.Some? ==>
              var s := t.split.value;
              var at := UpperBound(KeysOf(t.msgs), s.mid);
              TaskDone(pages, t) == pages[t.page := LeafNode(LeafAfter(pages[t.page].leaf, t.msgs[..at]))]
                                         [s.right := LeafNode(LeafAfter(pages[s.right].leaf, t.msgs[at..]))]
  {
  }

  lemma TasksSplitFirst(pages: Pages, pend: Pending, tasks: seq<Task>)
    requires TasksOK(pages, pend, tasks) && tasks != []
    ensures TaskOK(pages, pend, tasks[0]) && TasksOK(pages, pend, tasks[1..])
    ensures TaskPages(tasks[0]) !! AllTaskPages(tasks[1..])
    ensures AllTaskPages(tasks) == TaskPages(tasks[0]) + AllTaskPages(tasks[1..])
  {
    hide TaskOK, TaskPages;
    var rest := tasks[1..];
    assert forall i :: 0 <= i < |rest| ==> rest[i] == tasks[i + 1];
    assert tasks[0] in tasks;
    assert forall t :: t in rest ==> t in tasks;
    forall x ensures x in AllTaskPages(tasks) <==> x in TaskPages(tasks[0]) + AllTaskPages(rest) {
      if x in AllTaskPages(tasks) {
        var t :| t in tasks && x in TaskPages(t);
        assert t == tasks[0] || t in rest;
      }
    }
    forall x | x in AllTaskPages(rest) ensures x !in TaskPages(tasks[0]) {
      var t :| t in rest && x in TaskPages(t);
      var i :| 0 <= i < |rest| && rest[i] == t;
      assert TaskPages(tasks[0]) !! TaskPages(tasks[i + 1]);
    }
  }

  lemma TaskDoneElsewhere(pages: Pages, t: Task)
    requires t.page in pages && pages[t.page].LeafNode? && |pages[t.page].leaf.keys| == |pages[t.page].leaf.values|
    requires t.split.Some? ==>
               var r := t.split.value.right;
               r in pages && r != t.page && pages[r].LeafNode? && |pages[r].leaf.keys| == |pages[r].leaf.values|
    ensures TaskDone(pages, t).Keys == pages.Keys
    ensures forall x :: x in pages && x !in TaskPages(t) ==> TaskDone(pages, t)[x] == pages[x]
  {
    hide LeafAfter, UpperBound;
  }

  /** The first task is carried out. */
  lemma ReleaseTask(pages: Pages, A: Labelling, root: PageId, pend: Pending, queue: seq<Entry>, tasks: seq<Task>) returns (B: Labelling)
    requires Releasing(pages, A, root, pend, queue, tasks) && tasks != []
    ensures TaskOK(pages, pend, tasks[0])
    ensures var t := tasks[0];
            t.page in pages && pages[t.page].LeafNode? && |pages[t.page].leaf.keys| == |pages[t.page].leaf.values| &&
            (t.split.Some? ==>
              var r := t.split.value.right;
              r in pages && r != t.page && pages[r].LeafNode? && |pages[r].leaf.keys| == |pages[r].leaf.values|)
    ensures Releasing(TaskDone(pages, tasks[0]), B, root, pend - TaskPages(tasks[0]), queue, tasks[1..])
    ensures B.Keys == A.Keys && root in A && B[root].view == A[root].view
    ensures forall y :: y in A ==> B[y].height == A[y].height
  {
    hide *;
    ReleasingParts(pages, A, root, pend, queue, tasks);
    TasksSplitFirst(pages, pend, tasks);
    var t := tasks[0];
    B := CarryOut(pages, A, root, pend, t);
    var pages', pend' := TaskDone(pages, t), pend - TaskPages(t);
    TaskDoneElsewhere(pages, t);
    PendingElsewhere(pend, TaskPages(t));
    QueueInPages(pages, pend, queue);
    TasksInPages(pages, pend, tasks[1..]);
    QueueFrame(pages, pend, queue, pages', pend');
    TasksFrame(pages, pend, tasks[1..], pages', pend');
    ParentsDoneLess(A, B, pend, pend', root);
    ReleasingFrom(pages', B, root, pend', queue, tasks[1..]);
  }

  lemma PendingElsewhere(pend: Pending, s: set<PageId>)
    ensures forall x :: x !in s ==> PendingAt(pend - s, x) == PendingAt(pend, x)
  {
  }

  lemma ParentsDoneLess(A: Labelling, B: Labelling, pend: Pending, pend': Pending, root: PageId)
    requires ParentsDone(A, pend, root) && pend'.Keys <= pend.Keys && B.Keys == A.Keys
    requires forall y :: y in A ==> B[y].parent == A[y].parent
    ensures ParentsDone(B, pend', root)
  {
  }

  // ---- levels ---------------------------------------------------------------------------------

  /** Handling an entry of the current level appends entries of the next one. */
  lemma LevelsAfterEntry(A: Labelling, B: Labelling, e: Entry, queue: seq<Entry>, level: nat, front: nat, queue': seq<Entry>)
    requires Leveled(A, [e] + queue, level, front) && front > 0 && level > 0
    requires A.Keys <= B.Keys && forall x :: x in A ==> B[x].height == A[x].height
    requires |queue| <= |queue'| && queue'[..|queue|] == queue
    requires forall i :: |queue| <= i < |queue'| ==> queue'[i].page in B && B[queue'[i].page].height == level - 1
    ensures Leveled(B, queue', level, front - 1)
  {
    forall i | 0 <= i < |queue|
      ensures queue'[i].page in B && B[queue'[i].page].height == if i < front - 1 then level else level - 1
    {
      assert queue'[i] == queue'[..|queue|][i] == ([e] + queue)[i + 1];
    }
  }

  /** When the front of the queue is used up, the rest becomes the front, one level lower. */
  lemma NextLevel(pages: Pages, A: Labelling, root: PageId, pend: Pending, queue: seq<Entry>, level: nat)
    requires Cascading(pages, A, root, pend, queue) && Leveled(A, queue, level, 0) && queue != []
    ensures level >= 1 && Leveled(A, queue, level - 1, |queue|)
  {
    assert queue[0] in queue;
    assert EntryOK(pages, pend, queue[0]);
    InnerNotRoot(pages, A, root, pend, root, [], queue[0].page);
  }
}
