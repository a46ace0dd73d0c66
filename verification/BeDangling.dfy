/** A small tree on which find's assertion fails: one update waits in an inner node above an empty
    leaf. It is the tree that the first split of a root node leaves for capacities of three pivots,
    after every key has been erased and one update of an absent key has arrived. */
module BeDangling {
  import opened Keys
  import opened Messages
  import opened Leaves
  import opened Labels
  import opened Views
  import opened Kids
  import opened InsertPivots
  import opened BeSizes
  import opened BeNodes
  import opened BeRoot
  import opened BeMeaning

  /** The root's one pivot separates two inner nodes with two leaves each; the left one holds `u`. */
  function SmallPages(u: Upsert): Pages {
    var leaf := LeafNode(Leaf([], []));
    map[0 := RootNode([20], [1, 2]),
        1 := InnerNode([u], [10], [3, 4]),
        2 := InnerNode([], [30], [5, 6]),
        3 := leaf, 4 := leaf, 5 := leaf, 6 := leaf]
  }

  function SightOf(u: Upsert, k: Key): Sight { Sight(None, if k == u.key then u.timeStamp else 0, k != u.key) }

  ghost function UpdateView(u: Upsert): View {
    var view := imap k: Key :: SightOf(u, k);
    assert forall k: Key :: k in view;
    view
  }

  ghost function NoView(): View { imap k: Key :: NothingSeen(k) }

  ghost function SmallLabel(height: nat, lo: int, hi: int, parent: PageId): Label {
    Label(height, lo, hi, parent, map[], map[], NoView())
  }

  ghost function SmallLabels(u: Upsert): Labelling {
    map[0 := SmallLabel(2, -1, MAX_KEY, 0).(view := UpdateView(u)),
        1 := SmallLabel(1, -1, 20, 0).(msgs := map[u.key := u], view := UpdateView(u)),
        2 := SmallLabel(1, 20, MAX_KEY, 0),
        3 := SmallLabel(0, -1, 10, 1),
        4 := SmallLabel(0, 10, 20, 1),
        5 := SmallLabel(0, 20, 30, 2),
        6 := SmallLabel(0, 30, MAX_KEY, 2)]
  }

  lemma PlainLabel(height: nat, lo: int, hi: int, parent: PageId)
    requires -1 <= lo < hi <= MAX_KEY
    ensures Base(SmallLabel(height, lo, hi, parent))
  {
  }

  lemma PlainLink(p: Label, c: Label)
    requires p.msgs == map[] && p.view == NoView() && c.view == NoView()
    requires p.height == c.height + 1 && p.lo <= c.lo && c.hi <= p.hi
    ensures Link(p, c)
  {
  }

  /** Around the update: the root sees it through the inner node, which sees nothing below. */
  lemma UpdateLinks(u: Upsert, p: Label, c: Label)
    requires u.kind.UPDATE? && u.timeStamp > 0
    requires p.height == c.height + 1 && p.lo <= c.lo && c.hi <= p.hi
    requires p.view == UpdateView(u)
    requires (p.msgs == map[] && c.view == UpdateView(u)) || (p.msgs == map[u.key := u] && c.view == NoView()) ||
             (p.msgs == map[] && c.view == NoView() && u.key <= c.lo)
    ensures Link(p, c)
  {
    forall k: Key | InRange(c, k) ensures Sees(p, c, k) {
      assert p.view[k] == SightOf(u, k);
    }
  }

  lemma SmallLinked(u: Upsert, x: PageId)
    requires u.kind.UPDATE? && u.timeStamp > 0 && u.key <= 10 && 0 <= x <= 6
    ensures x in SmallLabels(u) && Linked(SmallLabels(u), 0, x)
  {
    var A := SmallLabels(u);
    if x >= 2 {
      PlainLabel(A[x].height, A[x].lo, A[x].hi, A[x].parent);
    } else {
      assert Base(A[x]);
    }
    hide Base, Link, UpdateView, NoView;
    if x == 1 || x == 2 {
      UpdateLinks(u, A[0], A[x]);
    } else if x == 3 || x == 4 {
      UpdateLinks(u, A[1], A[x]);
    } else if x > 4 {
      PlainLink(A[2], A[x]);
    }
  }

  lemma SmallConsistent(u: Upsert)
    requires u.kind.UPDATE? && u.timeStamp > 0 && u.key <= 10
    ensures Consistent(SmallLabels(u), 0)
  {
    var A := SmallLabels(u);
    hide Linked, UpdateView, NoView;
    forall x | x in A ensures Linked(A, 0, x) {
      SmallLinked(u, x);
    }
  }

  lemma SmallLeaf(x: PageId, A: Labelling)
    requires x in A && x != 0 && A[x].height == 0 && A[x].msgs == map[] && A[x].leaf == map[]
    ensures ContentOK(LeafNode(Leaf([], [])), A[x], PendingAt(map[], x), false)
  {
    PairsUnique(Leaf([], []), map[]);
  }

  lemma SmallInner(x: PageId, A: Labelling, upserts: seq<Upsert>, pivot: Key, left: PageId, right: PageId)
    requires x in A && x != 0 && A[x].height == 1 && |upserts| <= 1
    requires A[x].msgs == map k | k in KeysOf(upserts) :: upserts[0]
    ensures ContentOK(InnerNode(upserts, [pivot], [left, right]), A[x], PendingAt(map[], x), false)
  {
    var m: map<Key, Upsert> := map k | k in KeysOf(upserts) :: upserts[0];
    assert forall u :: u in upserts ==> u == upserts[0] && KeysOf(upserts)[0] == u.key;
    assert Holds(upserts, m);
    HoldsUnique(upserts, m);
  }

  lemma TwoKids(A: Labelling, x: PageId, pivot: Key, left: PageId, right: PageId)
    requires x in A && left in A && right in A && left != 0 && right != 0
    requires A[left].parent == x && A[left].lo == A[x].lo && A[left].hi == pivot
    requires A[right].parent == x && A[right].lo == pivot && A[right].hi == A[x].hi
    ensures KidsPending(A, 0, x, [pivot], [left, right], [])
  {
    assert Indices([]) == {};
    assert Kid(A, 0, x, [pivot], [left, right], 0) && Kid(A, 0, x, [pivot], [left, right], 1);
  }

  lemma SmallContent(u: Upsert, x: PageId)
    requires x in SmallPages(u)
    ensures x in SmallLabels(u) && ContentOK(SmallPages(u)[x], SmallLabels(u)[x], PendingAt(map[], x), x == 0)
  {
    var A := SmallLabels(u);
    hide UpdateView, NoView, MapOf, Sorted, Holds, LeafOK;
    if x >= 3 {
      SmallLeaf(x, A);
    } else if x == 1 {
      assert KeysOf([u]) == [u.key] && (map k | k in [u.key] :: u) == map[u.key := u];
      SmallInner(1, A, [u], 10, 3, 4);
    } else if x == 2 {
      assert (map k | k in KeysOf([]) :: u) == map[];
      SmallInner(2, A, [], 30, 5, 6);
    }
  }

  lemma SmallKids(u: Upsert, x: PageId)
    requires x in SmallPages(u)
    ensures x in SmallLabels(u) && KidsOK(SmallLabels(u), 0, x, SmallPages(u)[x], [])
  {
    var A := SmallLabels(u);
    hide UpdateView, NoView, KidsPending;
    if x == 0 {
      TwoKids(A, 0, 20, 1, 2);
    } else if x == 1 {
      TwoKids(A, 1, 10, 3, 4);
    } else if x == 2 {
      TwoKids(A, 2, 30, 5, 6);
    }
  }

  lemma SmallStored(u: Upsert)
    ensures Stored(SmallPages(u), SmallLabels(u), 0, map[], 0, [])
  {
    var pages, A := SmallPages(u), SmallLabels(u);
    assert pages.Keys == A.Keys;
    hide SmallLabels, SmallPages, ContentOK, KidsOK;
    forall x | x in pages ensures PageOK(pages, A, 0, map[], x, []) {
      SmallContent(u, x);
      SmallKids(u, x);
    }
  }

  lemma SmallRoutes(u: Upsert, k: Key)
    ensures ChildFor([20], [1, 2], k) == Some(if k <= 20 then 1 else 2)
    ensures ChildFor([10], [3, 4], k) == Some(if k <= 10 then 3 else 4)
    ensures ChildFor([30], [5, 6], k) == Some(if k <= 30 then 5 else 6)
    ensures MessageFor([u], k) == if k == u.key then Some(u) else None
    ensures MessageFor([], k) == None
  {
  }

  lemma SmallMeaning(u: Upsert, k: Key)
    requires u.kind.UPDATE? && u.key <= 10
    ensures Meaning(SmallPages(u), 0, 2, k) == None
  {
    SmallRoutes(u, k);
    var pages := SmallPages(u);
    hide MessageFor, ChildFor;
    assert forall x :: 3 <= x <= 6 ==> Meaning(pages, x, 0, k) == None;
    assert Meaning(pages, 1, 1, k) == None && Meaning(pages, 2, 1, k) == None;
  }

  lemma SmallDangles(u: Upsert)
    requires u.kind.UPDATE? && u.key <= 10
    ensures Dangling(SmallPages(u), 0, 2, u.key)
  {
    SmallRoutes(u, u.key);
    var pages := SmallPages(u);
    hide MessageFor, ChildFor;
    assert NoBase(pages, 3, 0, u.key);
    assert NoBase(pages, 1, 1, u.key) && Waiting(pages, 1, 1, u.key);
  }

  /** The tree is in order and holds nothing, yet an update waits for its key: find fails. */
  lemma UpdateDangles(u: Upsert)
    requires u.kind.UPDATE? && u.timeStamp > 0 && u.key <= 10
    ensures Whole(SmallPages(u), SmallLabels(u), 0) && SmallPages(u)[0].RootNode?
    ensures Dangling(SmallPages(u), 0, 2, u.key) && forall k: Key :: Meaning(SmallPages(u), 0, 2, k) == None
  {
    SmallConsistent(u);
    SmallStored(u);
    SmallDangles(u);
    var pages := SmallPages(u);
    hide Stored, Consistent, Dangling, Meaning, SmallLabels;
    forall k: Key ensures Meaning(pages, 0, 2, k) == None {
      SmallMeaning(u, k);
    }
  }
}
