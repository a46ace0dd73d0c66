/** The map a Bε-tree denotes, read off its pages: the value in the leaf a key is routed to, with
    the messages buffered on the way applied bottom-up. */
module BeMeaning {
  import opened Keys
  import opened Messages
  import opened Labels
  import opened Leaves
  import opened Kids
  import opened InsertPivots
  import opened BeSizes
  import opened BeNodes
  import opened BeFlush
  import opened BeServe
  import opened BeTraversal
  import opened BeRoot

  /** The message for a key in a buffer, found at the key's lower bound. */
  function MessageFor(s: seq<Upsert>, k: Key): Option<Upsert> {
    var i := LowerBound(KeysOf(s), k);
    if i < |s| && s[i].key == k then Some(s[i]) else None
  }

  lemma KeysSorted(s: seq<Upsert>)
    requires Sorted(s)
    ensures StrictlySorted(KeysOf(s))
  {
  }

  lemma InMap(s: seq<Upsert>, m: map<Key, Upsert>, k: Key)
    requires Holds(s, m)
    ensures k in m <==> k in KeysOf(s)
    ensures forall i :: 0 <= i < |s| && s[i].key == k ==> k in m && m[k] == s[i]
  {
    if k in m {
      var i :| 0 <= i < |s| && s[i] == m[k];
      assert KeysOf(s)[i] == k;
    }
    forall i | 0 <= i < |s| && s[i].key == k ensures k in m && m[k] == s[i] {
      assert s[i] in s;
    }
  }

  lemma MessageForIs(s: seq<Upsert>, k: Key)
    requires Sorted(s)
    ensures MessageFor(s, k) == Get(MapOf(s), k)
  {
    KeysSorted(s);
    BoundsDiffer(KeysOf(s), k);
    InMap(s, MapOf(s), k);
    hide Sorted, StrictlySorted, LowerBound, UpperBound, Holds;
  }

  function Deliver(u: Option<Upsert>, base: Option<Value>): Option<Value> {
    if u.Some? then Act(u.value, base) else base
  }

  /** What key `k` means from page `x` on down, through `h` levels of nodes above the leaves. */
  function Meaning(pages: Pages, x: PageId, h: nat, k: Key): Option<Value>
    decreases h
  {
    if x !in pages then None
    else match pages[x]
      case LeafNode(l) => LeafLookup(l, k)
      case InnerNode(upserts, pivots, children) =>
        var c := ChildFor(pivots, children, k);
        if h == 0 || c.None? then None else Deliver(MessageFor(upserts, k), Meaning(pages, c.value, h - 1, k))
      case RootNode(pivots, children) =>
        var c := ChildFor(pivots, children, k);
        if h == 0 || c.None? then None else Meaning(pages, c.value, h - 1, k)
  }

  lemma NodeParts(pages: Pages, A: Labelling, root: PageId, x: PageId)
    requires Whole(pages, A, root) && x in pages
    ensures x in A
    ensures pages[x].LeafNode? ==> A[x].height == 0 && LeafOK(pages[x].leaf) && A[x].leaf == Pairs(pages[x].leaf) && A[x].msgs == map[]
    ensures !pages[x].LeafNode? ==>
              A[x].height > 0 && |pages[x].children| == |pages[x].pivots| + 1 &&
              AllKids(A, root, x, pages[x].pivots, pages[x].children)
    ensures pages[x].InnerNode? ==> Sorted(pages[x].upserts) && A[x].msgs == MapOf(pages[x].upserts)
    ensures pages[x].RootNode? ==> A[x].msgs == map[]
    ensures pages[x].RootNode? <==> x == root && !pages[x].LeafNode?
  {
    StoredAt(pages, A, root, map[], root, [], x);
    NothingPendingAt(map[], x);
    if !pages[x].LeafNode? {
      NothingPendingMeansKids(A, root, x, pages[x].pivots, pages[x].children);
    }
    if pages[x].InnerNode? {
      SplitsNone(A[x].msgs, MapOf(pages[x].upserts));
    }
    hide Consistent, Sorted, KidsPending, LeafOK;
  }

  /** The label above sees a key through its own message. */
  lemma ViewThroughKid(A: Labelling, root: PageId, x: PageId, pivots: seq<Key>, children: seq<PageId>, k: Key)
    requires Consistent(A, root) && x in A && AllKids(A, root, x, pivots, children) && InRange(A[x], k)
    ensures var c := ChildFor(pivots, children, k);
            c.Some? && c.value in A && A[c.value].height + 1 == A[x].height && InRange(A[c.value], k) && k in A[c.value].view &&
            A[x].view[k].value == ActOn(A[x].msgs, k, A[c.value].view[k].value) &&
            (A[x].view[k].sound ==> SoundThrough(A[x].msgs, k, A[c.value].view[k]))
  {
    RouteInRange(A, root, x, pivots, children, k);
    var i := LowerBound(pivots, k);
    var c := children[i];
    assert Kid(A, root, x, pivots, children, i);
    assert Linked(A, root, c);
    assert Sees(A[x], A[c], k);
  }

  lemma LeafView(A: Labelling, root: PageId, x: PageId, k: Key)
    requires Consistent(A, root) && x in A && A[x].height == 0 && A[x].msgs == map[] && InRange(A[x], k)
    ensures A[x].view[k].value == Get(A[x].leaf, k)
  {
    assert Linked(A, root, x);
  }

  lemma LeafMeaning(pages: Pages, A: Labelling, root: PageId, x: PageId, k: Key)
    requires Consistent(A, root) && x in A && x in pages && pages[x].LeafNode? && InRange(A[x], k)
    requires A[x].height == 0 && LeafOK(pages[x].leaf) && A[x].leaf == Pairs(pages[x].leaf) && A[x].msgs == map[]
    ensures Meaning(pages, x, A[x].height, k) == A[x].view[k].value
  {
    LeafView(A, root, x, k);
    PairsLookup(pages[x].leaf, k);
    LeafLengths(pages[x].leaf);
    hide Consistent, LeafOK, HoldsPairs, LowerBound;
  }

  lemma MeaningStep(pages: Pages, x: PageId, h: nat, k: Key)
    requires x in pages && !pages[x].LeafNode? && h > 0
    requires ChildFor(pages[x].pivots, pages[x].children, k).Some?
    ensures var below := Meaning(pages, ChildFor(pages[x].pivots, pages[x].children, k).value, h - 1, k);
            Meaning(pages, x, h, k) ==
            if pages[x].InnerNode? then Deliver(MessageFor(pages[x].upserts, k), below) else below
  {
  }

  lemma DeliverIs(m: map<Key, Upsert>, k: Key, base: Option<Value>)
    ensures Deliver(Get(m, k), base) == ActOn(m, k, base)
  {
  }

  /** While nothing is pending, what a label sees of a key is what the pages say. */
  lemma {:induction false} MeaningIsView(pages: Pages, A: Labelling, root: PageId, x: PageId, k: Key)
    requires Whole(pages, A, root) && x in pages && x in A && InRange(A[x], k)
    ensures Meaning(pages, x, A[x].height, k) == A[x].view[k].value
    decreases A[x].height
  {
    hide *;
    WholeParts(pages, A, root);
    StoredKeys(pages, A, root, map[], root, []);
    NodeParts(pages, A, root, x);
    if pages[x].LeafNode? {
      LeafMeaning(pages, A, root, x, k);
    } else {
      var n := pages[x];
      ViewThroughKid(A, root, x, n.pivots, n.children, k);
      var c := ChildFor(n.pivots, n.children, k).value;
      MeaningIsView(pages, A, root, c, k);
      MeaningStep(pages, x, A[x].height, k);
      DeliverIs(A[x].msgs, k, A[c].view[k].value);
      if n.InnerNode? { MessageForIs(n.upserts, k); } else { NoMessages(k, A[c].view[k].value); }
    }
  }

  lemma NoMessages(k: Key, base: Option<Value>)
    ensures ActOn(map[], k, base) == base
  {
  }

  lemma LeafLengths(l: Leaf)
    requires LeafOK(l)
    ensures |l.keys| == |l.values|
  {
  }

  // ---- lookups --------------------------------------------------------------------------------

  /** Neither the leaf a key is routed to nor a message on the way gives the key a base value, or
      takes it away: the leaf lacks the key and the path holds updates at most. */
  predicate NoBase(pages: Pages, x: PageId, h: nat, k: Key)
    decreases h
  {
    x in pages &&
    match pages[x]
      case LeafNode(l) => LeafLookup(l, k).None?
      case InnerNode(upserts, pivots, children) =>
        var u, c := MessageFor(upserts, k), ChildFor(pivots, children, k);
        h > 0 && c.Some? && (u.Some? ==> u.value.kind.UPDATE?) && NoBase(pages, c.value, h - 1, k)
      case RootNode(pivots, children) =>
        var c := ChildFor(pivots, children, k);
        h > 0 && c.Some? && NoBase(pages, c.value, h - 1, k)
  }

  /** Some message for the key waits on its path. */
  predicate Waiting(pages: Pages, x: PageId, h: nat, k: Key)
    decreases h
  {
    x in pages &&
    match pages[x]
      case LeafNode(l) => false
      case InnerNode(upserts, pivots, children) =>
        var u, c := MessageFor(upserts, k), ChildFor(pivots, children, k);
        h > 0 && c.Some? && (u.Some? || Waiting(pages, c.value, h - 1, k))
      case RootNode(pivots, children) =>
        var c := ChildFor(pivots, children, k);
        h > 0 && c.Some? && Waiting(pages, c.value, h - 1, k)
  }

  /** Updates waiting for a key that has nothing to be added to. */
  predicate Dangling(pages: Pages, x: PageId, h: nat, k: Key) {
    NoBase(pages, x, h, k) && Waiting(pages, x, h, k)
  }

  /** Without a base a key means nothing. */
  lemma {:induction false} NoBaseMeansNothing(pages: Pages, x: PageId, h: nat, k: Key)
    requires NoBase(pages, x, h, k)
    ensures Meaning(pages, x, h, k) == None
    decreases h
  {
    if !pages[x].LeafNode? {
      NoBaseMeansNothing(pages, ChildFor(pages[x].pivots, pages[x].children, k).value, h - 1, k);
    }
    hide ChildFor, MessageFor, LeafLookup;
  }

  lemma DanglingStep(pages: Pages, x: PageId, h: nat, k: Key)
    requires x in pages && !pages[x].LeafNode? && h > 0
    requires ChildFor(pages[x].pivots, pages[x].children, k).Some?
    ensures var c := ChildFor(pages[x].pivots, pages[x].children, k).value;
            var u := if pages[x].InnerNode? then MessageFor(pages[x].upserts, k) else None;
            Dangling(pages, x, h, k) <==>
            (u.Some? ==> u.value.kind.UPDATE?) && NoBase(pages, c, h - 1, k) && (u.Some? || Waiting(pages, c, h - 1, k))
  {
    hide ChildFor, MessageFor, LeafLookup;
  }

  lemma LeafHoldsNoMessage(pages: Pages, x: PageId, h: nat, k: Key)
    requires x in pages && pages[x].LeafNode?
    ensures !Dangling(pages, x, h, k)
  {
  }

  lemma SoundMessage(m: map<Key, Upsert>, k: Key, below: Sight)
    requires SoundThrough(m, k, below)
    ensures Get(m, k).None? ==> below.sound
    ensures Get(m, k).Some? && Get(m, k).value.kind.UPDATE? ==> below.value.Some?
  {
  }

  lemma NoMessage(m: map<Key, Upsert>, k: Key)
    requires m == map[]
    ensures Get(m, k) == None
  {
  }

  /** A key that is seen soundly has a value below every update that waits for it, however far the
      updates have been flushed: no update dangles. */
  lemma {:induction false} SoundNeverDangles(pages: Pages, A: Labelling, root: PageId, x: PageId, k: Key)
    requires Whole(pages, A, root) && x in pages && x in A && InRange(A[x], k) && A[x].view[k].sound
    ensures !Dangling(pages, x, A[x].height, k)
    decreases A[x].height
  {
    hide *;
    WholeParts(pages, A, root);
    NodeParts(pages, A, root, x);
    if pages[x].LeafNode? {
      LeafHoldsNoMessage(pages, x, A[x].height, k);
    } else {
      var n := pages[x];
      RoutedChild(pages, A, root, x, k);
      ViewThroughKid(A, root, x, n.pivots, n.children, k);
      var c := ChildFor(n.pivots, n.children, k).value;
      DanglingStep(pages, x, A[x].height, k);
      SoundMessage(A[x].msgs, k, A[c].view[k]);
      if n.InnerNode? { MessageForIs(n.upserts, k); } else { NoMessage(A[x].msgs, k); }
      MeaningIsView(pages, A, root, c, k);
      if NoBase(pages, c, A[c].height, k) { NoBaseMeansNothing(pages, c, A[c].height, k); }
      if A[c].view[k].sound {
        SoundNeverDangles(pages, A, root, c, k);
        DanglingParts(pages, c, A[c].height, k);
      }
    }
  }

  lemma DanglingParts(pages: Pages, x: PageId, h: nat, k: Key)
    ensures Dangling(pages, x, h, k) <==> NoBase(pages, x, h, k) && Waiting(pages, x, h, k)
  {
  }

  /** Adds collected updates to a base value, oldest first. */
  function AddAll(base: Value, updates: seq<Value>): Value
    decreases |updates|
  {
    if updates == [] then base else AddAll(Add(base, updates[0]), updates[1..])
  }

  function Updated(base: Option<Value>, updates: seq<Value>): Option<Value> {
    if base.Some? then Some(AddAll(base.value, updates)) else None
  }

  /** An older update goes in front of those collected further up. */
  lemma OlderUpdateFirst(base: Option<Value>, v: Value, updates: seq<Value>, u: Upsert)
    requires u.kind.UPDATE? && u.value == v
    ensures Updated(Act(u, base), updates) == Updated(base, [v] + updates)
  {
    assert ([v] + updates)[1..] == updates;
  }

  /** The search has come to page `x`, above `h` levels, with only updates on the way. */
  ghost predicate Searching(pages: Pages, A: Labelling, root: PageId, k: Key, x: PageId, h: int, updates: seq<Value>) {
    && Whole(pages, A, root) && root in pages && root in A && x in pages && x in A && x != root && h == A[x].height && InRange(A[x], k)
    && Meaning(pages, root, A[root].height, k) == Updated(Meaning(pages, x, h, k), updates)
    && (NoBase(pages, root, A[root].height, k) <==> NoBase(pages, x, h, k))
    && (Waiting(pages, root, A[root].height, k) <==> updates != [] || Waiting(pages, x, h, k))
  }

  /** The search has a base value, or knows there is none. */
  ghost predicate SearchOver(pages: Pages, A: Labelling, root: PageId, k: Key, base: Option<Value>, updates: seq<Value>) {
    && root in A
    && Meaning(pages, root, A[root].height, k) == Updated(base, updates)
    && (Dangling(pages, root, A[root].height, k) <==> base.None? && updates != [])
  }

  lemma RoutedChild(pages: Pages, A: Labelling, root: PageId, x: PageId, k: Key)
    requires Whole(pages, A, root) && x in pages && !pages[x].LeafNode? && x in A && InRange(A[x], k)
    ensures A[x].height > 0 && LowerBound(pages[x].pivots, k) < |pages[x].children|
    ensures var c := pages[x].children[LowerBound(pages[x].pivots, k)];
            ChildFor(pages[x].pivots, pages[x].children, k) == Some(c) && c in pages && c in A && c != root &&
            A[c].height == A[x].height - 1 && InRange(A[c], k)
  {
    WholeParts(pages, A, root);
    NodeParts(pages, A, root, x);
    StoredKeys(pages, A, root, map[], root, []);
    RouteInRange(A, root, x, pages[x].pivots, pages[x].children, k);
    ViewThroughKid(A, root, x, pages[x].pivots, pages[x].children, k);
    hide Whole, Consistent, Stored, AllKids;
    assert Kid(A, root, x, pages[x].pivots, pages[x].children, LowerBound(pages[x].pivots, k));
  }

  lemma StartSearch(pages: Pages, A: Labelling, root: PageId, k: Key)
    requires Whole(pages, A, root) && root in pages && pages[root].RootNode? && root in A
    ensures LowerBound(pages[root].pivots, k) < |pages[root].children| && A[root].height > 0
    ensures Searching(pages, A, root, k, pages[root].children[LowerBound(pages[root].pivots, k)], A[root].height - 1, [])
    ensures pages[root].children[LowerBound(pages[root].pivots, k)] in pages
  {
    WholeParts(pages, A, root);
    WholeRange(A, root, k);
    RoutedChild(pages, A, root, root, k);
    hide Whole, ChildFor, InRange;
  }

  /** Searching one inner node: an update joins those collected, an insert or delete ends the search. */
  lemma SearchStep(pages: Pages, A: Labelling, root: PageId, k: Key, x: PageId, h: int, updates: seq<Value>)
    requires Searching(pages, A, root, k, x, h, updates) && x in pages && pages[x].InnerNode?
    ensures h > 0 && LowerBound(pages[x].pivots, k) < |pages[x].children| && Sorted(pages[x].upserts)
    ensures pages[x].children[LowerBound(pages[x].pivots, k)] in pages
    ensures var u, c := MessageFor(pages[x].upserts, k), pages[x].children[LowerBound(pages[x].pivots, k)];
            match u
            case None => Searching(pages, A, root, k, c, h - 1, updates) && [] + updates == updates
            case Some(m) =>
              match m.kind
              case UPDATE => Searching(pages, A, root, k, c, h - 1, [m.value] + updates)
              case INSERT => SearchOver(pages, A, root, k, Some(m.value), updates) && [] + updates == updates
              case DELETE => SearchOver(pages, A, root, k, None, [])
  {
    RoutedChild(pages, A, root, x, k);
    var u, c := MessageFor(pages[x].upserts, k), pages[x].children[LowerBound(pages[x].pivots, k)];
    MeaningStep(pages, x, h, k);
    NodeParts(pages, A, root, x);
    if u.Some? && u.value.kind.UPDATE? {
      OlderUpdateFirst(Meaning(pages, c, h - 1, k), u.value.value, updates, u.value);
    }
    hide Whole, ChildFor, InRange, MessageFor, AddAll;
  }

  lemma SearchLeaf(pages: Pages, A: Labelling, root: PageId, k: Key, x: PageId, h: int, updates: seq<Value>)
    requires Searching(pages, A, root, k, x, h, updates) && x in pages && !pages[x].InnerNode?
    ensures pages[x].LeafNode? && |pages[x].leaf.keys| == |pages[x].leaf.values|
    ensures SearchOver(pages, A, root, k, LeafLookup(pages[x].leaf, k), updates)
    ensures var l := pages[x].leaf;
            var i := LowerBound(l.keys, k);
            LeafLookup(l, k) == if i < |l.keys| && l.keys[i] == k then Some(l.values[i]) else None
  {
    NodeParts(pages, A, root, x);
    hide Whole, InRange, AddAll;
  }

  lemma SearchEnd(pages: Pages, A: Labelling, root: PageId, k: Key, base: Option<Value>, updates: seq<Value>)
    requires SearchOver(pages, A, root, k, base, updates)
    ensures root in A
    ensures base.Some? ==> Meaning(pages, root, A[root].height, k) == Some(AddAll(base.value, updates))
    ensures base.None? ==> Meaning(pages, root, A[root].height, k) == None
    ensures Dangling(pages, root, A[root].height, k) <==> base.None? && updates != []
  {
  }

  lemma AddNext(v: Value, updates: seq<Value>, j: nat)
    requires j < |updates|
    ensures AddAll(Add(v, updates[j]), updates[j + 1..]) == AddAll(v, updates[j..])
  {
    assert updates[j..][1..] == updates[j + 1..];
  }

  lemma AddDone(v: Option<Value>, updates: seq<Value>)
    ensures v.Some? ==> AddAll(v.value, updates[|updates|..]) == v.value
  {
  }

  /** What find reads in one node's buffer for a key: updates to add, or a new base value, or a
      deletion. A buffer holds at most one message for a key, so the loop runs at most once. */
  method ReadBuffer(upserts: seq<Upsert>, key: Key) returns (localUpdates: seq<Value>, inserted: Option<Value>, deleted: bool)
    requires Sorted(upserts)
    ensures match MessageFor(upserts, key)
            case None => localUpdates == [] && inserted == None && !deleted
            case Some(m) =>
              match m.kind
              case INSERT => localUpdates == [] && inserted == Some(m.value) && !deleted
              case UPDATE => localUpdates == [m.value] && inserted == None && !deleted
              case DELETE => localUpdates == [] && inserted == None && deleted
  {
    localUpdates, inserted, deleted := [], None, false;
    var first := LowerBound(KeysOf(upserts), key);
    var it := first;
    while it < |upserts| && upserts[it].key == key
      invariant first <= it <= |upserts|
      invariant it == first ==> localUpdates == [] && inserted == None && !deleted
      invariant it > first ==> it == first + 1 && upserts[first].key == key
      invariant it > first ==> match upserts[first].kind
                                case INSERT => localUpdates == [] && inserted == Some(upserts[first].value) && !deleted
                                case UPDATE => localUpdates == [upserts[first].value] && inserted == None && !deleted
                                case DELETE => localUpdates == [] && inserted == None && deleted
    {
      match upserts[it].kind {
        case DELETE => localUpdates, inserted, deleted := [], None, true;
        case UPDATE => localUpdates := localUpdates + [upserts[it].value];
        case INSERT => localUpdates, inserted, deleted := [], Some(upserts[it].value), false;
      }
      it := it + 1;
    }
  }
}
