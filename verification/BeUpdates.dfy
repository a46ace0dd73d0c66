/** Updates that stay in the buffer of the root's child: what they do to the pages, and when they
    are left dangling. */
module BeUpdates {
  import opened Keys
  import opened Messages
  import opened Labels
  import opened Leaves
  import opened Kids
  import opened InsertPivots
  import opened BeSizes
  import opened BeNodes
  import opened BeFlush
  import opened BeServe
  import opened BeRoot
  import opened BeRootUpsert
  import opened BeMeaning

  /** A message for the key stays with the root's child: the root has a free pivot, and the child is
      an inner node that has a message for the key already or room for one more. */
  predicate StaysAtChild(pages: Pages, root: PageId, k: Key) {
    root in pages && pages[root].RootNode? && |pages[root].pivots| < SIZES.rootN &&
    var c := ChildFor(pages[root].pivots, pages[root].children, k);
    c.Some? && c.value != root && c.value in pages && pages[c.value].InnerNode? &&
    (MessageFor(pages[c.value].upserts, k).Some? || |pages[c.value].upserts| < SIZES.innerBN)
  }

  /** A buffer with one more message, squashed if it has one for the key already. */
  function WithUpsert(s: seq<Upsert>, u: Upsert): seq<Upsert> {
    var i := LowerBound(KeysOf(s), u.key);
    if i < |s| && s[i].key == u.key then s[i := SquashUpserts(u, s[i])] else InsertAt(s, i, u)
  }

  /** The pages after the root's child has taken the message. */
  function PagesWith(pages: Pages, root: PageId, u: Upsert): Pages
    requires StaysAtChild(pages, root, u.key)
  {
    var c := ChildFor(pages[root].pivots, pages[root].children, u.key).value;
    pages[c := pages[c].(upserts := WithUpsert(pages[c].upserts, u))]
  }

  /** What the path of a key holds does not depend on pages that are not below it. */
  lemma {:induction false} NoBaseElsewhere(pages: Pages, A: Labelling, root: PageId, x: PageId, k: Key, c: PageId, n: Node)
    requires Whole(pages, A, root) && x in pages && x in A && InRange(A[x], k)
    requires c in A && A[x].height < A[c].height
    ensures NoBase(pages[c := n], x, A[x].height, k) <==> NoBase(pages, x, A[x].height, k)
    decreases A[x].height
  {
    hide *;
    NodeParts(pages, A, root, x);
    if pages[x].LeafNode? {
      BaseOfLeaf(pages, x, A[x].height, k);
      BaseOfLeaf(pages[c := n], x, A[x].height, k);
    } else {
      RoutedChild(pages, A, root, x, k);
      BaseStep(pages, x, A[x].height, k);
      BaseStep(pages[c := n], x, A[x].height, k);
      NoBaseElsewhere(pages, A, root, ChildFor(pages[x].pivots, pages[x].children, k).value, k, c, n);
    }
  }

  lemma BaseOfLeaf(pages: Pages, x: PageId, h: nat, k: Key)
    requires x in pages && pages[x].LeafNode?
    ensures NoBase(pages, x, h, k) <==> LeafLookup(pages[x].leaf, k).None?
  {
  }

  lemma BaseStep(pages: Pages, x: PageId, h: nat, k: Key)
    requires x in pages && !pages[x].LeafNode? && h > 0
    requires ChildFor(pages[x].pivots, pages[x].children, k).Some?
    ensures var c := ChildFor(pages[x].pivots, pages[x].children, k).value;
            var u := if pages[x].InnerNode? then MessageFor(pages[x].upserts, k) else None;
            NoBase(pages, x, h, k) <==> (u.Some? ==> u.value.kind.UPDATE?) && NoBase(pages, c, h - 1, k)
  {
    hide ChildFor, MessageFor, LeafLookup;
  }

  lemma MergedMessage(m: map<Key, Upsert>, u: Upsert)
    requires KeyedRight(m) && (u.key in m ==> m[u.key].timeStamp < u.timeStamp)
    ensures Get(MergeMap(m, Single(u)), u.key) == Some(if u.key in m then SquashUpserts(u, m[u.key]) else u)
  {
    SingleNonempty(u);
    if u.key in m {
      SquashActsInOrder(m[u.key], u, None);
    }
    hide SquashUpserts, Act, Single;
  }

  lemma SquashedUpdate(older: Upsert, u: Upsert)
    requires older.key == u.key && u.kind.UPDATE? && older.timeStamp < u.timeStamp
    ensures SquashUpserts(u, older).kind.UPDATE? <==> older.kind.UPDATE?
  {
  }

  /** The buffer's message for the key after an update: an update exactly if there was none or an
      update before. */
  lemma UpdateInBuffer(s: seq<Upsert>, u: Upsert)
    requires Sorted(s) && u.kind.UPDATE?
    requires forall j :: 0 <= j < |s| && s[j].key == u.key ==> s[j].timeStamp < u.timeStamp
    ensures var before, after := MessageFor(s, u.key), MessageFor(WithUpsert(s, u), u.key);
            after.Some? && (after.value.kind.UPDATE? <==> (before.Some? ==> before.value.kind.UPDATE?))
  {
    hide Sorted, SquashUpserts, MergeMap, MapOf, Single, InsertAt, KeyedRight;
    var i := LowerBound(KeysOf(s), u.key);
    BufferPosition(s, u.key);
    MessageForIs(s, u.key);
    if i < |s| && s[i].key == u.key {
      BufferSquashed(s, i, u);
      SquashedUpdate(s[i], u);
    } else {
      BufferInserted(s, i, u);
    }
    MessageForIs(WithUpsert(s, u), u.key);
    HeldTimes(s, u);
    MergedMessage(MapOf(s), u);
  }

  lemma HeldTimes(s: seq<Upsert>, u: Upsert)
    requires Sorted(s) && forall j :: 0 <= j < |s| && s[j].key == u.key ==> s[j].timeStamp < u.timeStamp
    ensures u.key in MapOf(s) ==> MapOf(s)[u.key].timeStamp < u.timeStamp
  {
  }

  lemma BufferPosition(s: seq<Upsert>, k: Key)
    requires Sorted(s)
    ensures var j := LowerBound(KeysOf(s), k);
            j <= |s| && (j > 0 ==> s[j - 1].key < k) && (j < |s| ==> k <= s[j].key)
  {
  }

  lemma StaysParts(pages: Pages, root: PageId, k: Key)
    requires StaysAtChild(pages, root, k)
    ensures root in pages && pages[root].RootNode? && |pages[root].pivots| < SIZES.rootN
    ensures ChildFor(pages[root].pivots, pages[root].children, k).Some?
    ensures var c := ChildFor(pages[root].pivots, pages[root].children, k).value;
            c != root && c in pages && pages[c].InnerNode? &&
            (MessageFor(pages[c].upserts, k).Some? || |pages[c].upserts| < SIZES.innerBN)
  {
  }

  lemma OlderInBuffer(pages: Pages, A: Labelling, root: PageId, u: Upsert)
    requires Whole(pages, A, root) && Newer(A, root, u) && StaysAtChild(pages, root, u.key)
    ensures var c := ChildFor(pages[root].pivots, pages[root].children, u.key).value;
            Sorted(pages[c].upserts) &&
            forall j :: 0 <= j < |pages[c].upserts| && pages[c].upserts[j].key == u.key ==> pages[c].upserts[j].timeStamp < u.timeStamp
  {
    RootRoutes(pages, A, root, u.key);
    var c := ChildFor(pages[root].pivots, pages[root].children, u.key).value;
    RootChildParts(pages, A, root, u.key, LowerBound(pages[root].pivots, u.key), c);
    NodeParts(pages, A, root, c);
    InMap(pages[c].upserts, A[c].msgs, u.key);
    hide Whole, RootChild, ContentOK, KidsOK, OnlyAt, MapOf;
  }

  /** An update that stays with the root's child is left dangling exactly if the key has no base. */
  lemma UpdateDanglesIff(pages: Pages, A: Labelling, root: PageId, u: Upsert)
    requires Whole(pages, A, root) && Newer(A, root, u) && StaysAtChild(pages, root, u.key) && u.kind.UPDATE?
    ensures root in A
    ensures Dangling(PagesWith(pages, root, u), root, A[root].height, u.key) <==> NoBase(pages, root, A[root].height, u.key)
  {
    hide *;
    var k := u.key;
    WholeParts(pages, A, root);
    WholeRange(A, root, k);
    StaysParts(pages, root, k);
    var c := ChildFor(pages[root].pivots, pages[root].children, k).value;
    RoutedChild(pages, A, root, root, k);
    RoutedChild(pages, A, root, c, k);
    var d := ChildFor(pages[c].pivots, pages[c].children, k).value;
    var pages' := PagesWith(pages, root, u);
    PagesWithIs(pages, root, u);
    OlderInBuffer(pages, A, root, u);
    UpdateInBuffer(pages[c].upserts, u);
    BaseStep(pages, root, A[root].height, k);
    BaseStep(pages, c, A[c].height, k);
    NoBaseElsewhere(pages, A, root, d, k, c, pages'[c]);
    BaseStep(pages', c, A[c].height, k);
    DanglingStep(pages', c, A[c].height, k);
    DanglingStep(pages', root, A[root].height, k);
    DanglingParts(pages', c, A[c].height, k);
  }

  lemma PagesWithIs(pages: Pages, root: PageId, u: Upsert)
    requires StaysAtChild(pages, root, u.key)
    ensures var c := ChildFor(pages[root].pivots, pages[root].children, u.key).value;
            PagesWith(pages, root, u) == pages[c := pages[c].(upserts := WithUpsert(pages[c].upserts, u))]
  {
  }
}
