/** What a tree of pages means. Every page carries a label: its height, the half-open key range
    (lo, hi] it answers for, its parent, the messages waiting in it, a leaf's pairs, and the view
    a lookup has of the keys from there on down. Labels are linked pairwise, child to parent, so
    a change to one page only has to be justified against its parent and its children. The five
    steps both trees are made of are proved here to keep the labelling consistent. */
module Labels {
  import opened Keys
  import opened Messages
  import opened MergeUpserts

  /** A key's value seen from a page, a bound on the time stamps met on the way down, and whether
      every update waiting on the way is known to find a value to be added to. */
  datatype Sight = Sight(value: Option<Value>, newest: nat, sound: bool)

  ghost predicate Total(m: imap<Key, Sight>) { forall k: Key :: k in m }

  type View = m: imap<Key, Sight> | Total(m) ghost witness imap k: Key :: Sight(None, 0, true)

  datatype Label = Label(
    height: nat,
    lo: int,
    hi: int,
    parent: PageId,
    msgs: map<Key, Upsert>,
    leaf: map<Key, Value>,
    view: View)

  type Labelling = map<PageId, Label>

  predicate InRange(l: Label, k: Key) { l.lo < k <= l.hi }

  /** An insertion or a deletion needs nothing below it, an update needs a value. */
  predicate SoundOver(u: Upsert, below: Sight) {
    u.kind.UPDATE? ==> below.sound && below.value.Some?
  }

  predicate SoundThrough(msgs: map<Key, Upsert>, k: Key, below: Sight) {
    if k in msgs then SoundOver(msgs[k], below) else below.sound
  }

  /** How a key is seen through a message. */
  function Through(u: Upsert, below: Sight): Sight {
    Sight(Act(u, below.value), u.timeStamp, SoundOver(u, below))
  }

  /** The label's own facts; a leaf's view is its pairs under its waiting messages. */
  ghost predicate Base(l: Label) {
    && -1 <= l.lo < l.hi <= MAX_KEY
    && (forall k :: k in l.msgs ==>
          InRange(l, k) && l.msgs[k].key == k && l.msgs[k].timeStamp <= l.view[k].newest)
    && (forall k :: k in l.leaf ==> InRange(l, k) && l.height == 0)
    && (l.height == 0 ==>
          forall k: Key :: InRange(l, k) ==> l.view[k].value == ActOn(l.msgs, k, Get(l.leaf, k)))
  }

  /** The parent sees a key of the child through its own waiting message, which is newer than
      every message for the key further down. */
  ghost predicate Sees(p: Label, c: Label, k: Key) {
    && p.view[k].value == ActOn(p.msgs, k, c.view[k].value)
    && (p.view[k].sound ==> SoundThrough(p.msgs, k, c.view[k]))
    && p.view[k].newest >= c.view[k].newest
    && (k in p.msgs ==> p.msgs[k].timeStamp > c.view[k].newest)
  }

  ghost predicate Link(p: Label, c: Label) {
    && p.height == c.height + 1
    && p.lo <= c.lo && c.hi <= p.hi
    && forall k: Key :: InRange(c, k) ==> Sees(p, c, k)
  }

  predicate Apart(a: Label, b: Label) { a.hi <= b.lo || b.hi <= a.lo }

  /** A page's label fits its parent's. */
  ghost predicate Linked(A: Labelling, root: PageId, x: PageId)
    requires x in A
  {
    Base(A[x]) && (x != root ==> A[x].parent in A && Link(A[A[x].parent], A[x]))
  }

  ghost predicate Siblings(A: Labelling, root: PageId, x: PageId, y: PageId)
    requires x in A && y in A
  {
    x != y && x != root && y != root && A[x].parent == A[y].parent
  }

  ghost predicate Consistent(A: Labelling, root: PageId) {
    && root in A && A[root].lo == -1 && A[root].hi == MAX_KEY
    && (forall x {:trigger Linked(A, root, x)} :: x in A ==> Linked(A, root, x))
    && (forall x, y {:trigger Siblings(A, root, x, y)} ::
          x in A && y in A && Siblings(A, root, x, y) ==> Apart(A[x], A[y]))
  }

  /** A relabelling that keeps ranges and parents only has to be linked again. */
  lemma Relabelled(A: Labelling, B: Labelling, root: PageId)
    requires Consistent(A, root) && B.Keys == A.Keys
    requires forall x :: x in A ==> B[x].lo == A[x].lo && B[x].hi == A[x].hi && B[x].parent == A[x].parent
    requires forall x :: x in B ==> Linked(B, root, x)
    ensures Consistent(B, root)
  {
    hide Linked;
    forall x, y | x in B && y in B && Siblings(B, root, x, y) ensures Apart(B[x], B[y]) {
      assert Siblings(A, root, x, y);
    }
  }

  lemma ParentTaller(A: Labelling, root: PageId, x: PageId)
    requires Consistent(A, root) && x in A && x != root
    ensures A[x].parent in A && A[A[x].parent].height == A[x].height + 1
  {
    assert Linked(A, root, x);
  }

  // ---- step 1: a new message reaches the root -------------------------------------------------

  function WithMessage(l: Label, u: Upsert): Label {
    l.(msgs := l.msgs[u.key := u],
       view := imap k: Key :: if k == u.key then Through(u, l.view[k]) else l.view[k])
  }

  lemma WithMessageBase(l: Label, u: Upsert)
    requires Base(l) && u.key !in l.msgs && InRange(l, u.key)
    ensures Base(WithMessage(l, u))
  {
    hide Act;
  }

  lemma WithMessageLinks(l: Label, c: Label, u: Upsert)
    requires Link(l, c) && u.key !in l.msgs && l.view[u.key].newest < u.timeStamp
    ensures Link(WithMessage(l, u), c)
  {
    hide Act;
    forall k: Key | InRange(c, k) ensures Sees(WithMessage(l, u), c, k) {
      assert Sees(l, c, k);
    }
  }

  /** The root takes in a message for a key it holds no message for. */
  lemma MessageAtRoot(A: Labelling, root: PageId, u: Upsert) returns (B: Labelling)
    requires Consistent(A, root) && u.key !in A[root].msgs
    requires A[root].view[u.key].newest < u.timeStamp
    ensures B == A[root := WithMessage(A[root], u)]
    ensures Consistent(B, root)
    ensures forall k: Key :: B[root].view[k].value ==
                             if k == u.key then Act(u, A[root].view[k].value) else A[root].view[k].value
  {
    B := A[root := WithMessage(A[root], u)];
    hide Base, Link, Act;
    assert Linked(A, root, root);
    WithMessageBase(A[root], u);
    forall x | x in B ensures Linked(B, root, x) {
      assert Linked(A, root, x);
      if x != root && A[x].parent == root {
        WithMessageLinks(A[root], A[x], u);
      }
    }
    Relabelled(A, B, root);
  }

  // ---- step 2: messages move from a page to one of its children ------------------------------

  /** The messages `moved` have left the parent. */
  ghost function Drained(p: Label, moved: map<Key, Upsert>): (d: Label)
    ensures d == p.(msgs := d.msgs)
  {
    p.(msgs := p.msgs - moved.Keys)
  }

  /** The messages `moved` have been merged over those already waiting in the child. */
  ghost function Filled(c: Label, moved: map<Key, Upsert>): (f: Label)
    requires KeyedRight(c.msgs) && KeyedRight(moved)
    ensures f == c.(msgs := f.msgs, view := f.view)
  {
    c.(msgs := MergeMap(c.msgs, moved),
       view := imap k: Key ::
         if k in moved then Through(moved[k], c.view[k]) else c.view[k])
  }

  /** `moved` is a part of the parent's messages, all in the child's range. */
  ghost predicate Movable(p: Label, c: Label, moved: map<Key, Upsert>) {
    forall k :: k in moved ==> k in p.msgs && p.msgs[k] == moved[k] && InRange(c, k)
  }

  lemma DrainedLinksFilled(p: Label, c: Label, moved: map<Key, Upsert>)
    requires Base(p) && Base(c) && Link(p, c) && Movable(p, c, moved)
    ensures KeyedRight(c.msgs) && KeyedRight(moved)
    ensures Base(Drained(p, moved))
    ensures Link(Drained(p, moved), Filled(c, moved))
  {
    var p', c' := Drained(p, moved), Filled(c, moved);
    forall k: Key | InRange(c', k) ensures Sees(p', c', k) {
      assert Sees(p, c, k);
    }
  }

  lemma DrainedLinksOthers(p: Label, c: Label, d: Label, moved: map<Key, Upsert>)
    requires Link(p, d) && Movable(p, c, moved) && Apart(c, d)
    ensures Link(Drained(p, moved), d)
  {
    forall k: Key | InRange(d, k) ensures Sees(Drained(p, moved), d, k) {
      assert Sees(p, d, k);
    }
  }

  lemma OlderBelow(p: Label, c: Label, moved: map<Key, Upsert>)
    requires Base(p) && Base(c) && Link(p, c) && Movable(p, c, moved)
    ensures KeyedRight(c.msgs) && KeyedRight(moved)
    ensures Precedes(c.msgs, moved)
    ensures forall k :: k in moved ==> c.view[k].newest < moved[k].timeStamp
  {
    forall k | k in moved ensures c.view[k].newest < moved[k].timeStamp {
      assert Sees(p, c, k);
    }
  }

  lemma FilledBase(p: Label, c: Label, moved: map<Key, Upsert>)
    requires Base(p) && Base(c) && Link(p, c) && Movable(p, c, moved)
    ensures KeyedRight(c.msgs) && KeyedRight(moved)
    ensures Base(Filled(c, moved))
  {
    OlderBelow(p, c, moved);
    var c' := Filled(c, moved);
    hide SquashUpserts, Act;
    forall k | k in c'.msgs
      ensures InRange(c', k) && c'.msgs[k].key == k && c'.msgs[k].timeStamp <= c'.view[k].newest
    {
      if k in c.msgs && k in moved { SquashActsInOrder(c.msgs[k], moved[k], None); }
    }
    if c.height == 0 {
      forall k: Key | InRange(c', k)
        ensures c'.view[k].value == ActOn(c'.msgs, k, Get(c'.leaf, k))
      {
        MergeActsInOrder(c.msgs, moved, k, Get(c.leaf, k));
      }
    }
  }

  lemma FilledLinksBelow(p: Label, c: Label, d: Label, moved: map<Key, Upsert>)
    requires Base(p) && Base(c) && Link(p, c) && Movable(p, c, moved) && Link(c, d)
    ensures KeyedRight(c.msgs) && KeyedRight(moved)
    ensures Link(Filled(c, moved), d)
  {
    OlderBelow(p, c, moved);
    var c' := Filled(c, moved);
    hide SquashUpserts, Act;
    forall k: Key | InRange(d, k) ensures Sees(c', d, k) {
      assert Sees(c, d, k);
      MergeActsInOrder(c.msgs, moved, k, d.view[k].value);
      if k in c.msgs && k in moved {
        SquashActsInOrder(c.msgs[k], moved[k], None);
        SquashSound(c.msgs[k], moved[k], c.view[k], d.view[k]);
      }
    }
  }

  /** A squashed message is as sound as the older followed by the newer one. */
  lemma SquashSound(older: Upsert, newer: Upsert, above: Sight, below: Sight)
    requires older.key == newer.key && older.timeStamp < newer.timeStamp && above.value == Act(older, below.value)
    requires above.sound ==> SoundOver(older, below)
    ensures SoundOver(newer, above) ==> SoundOver(SquashUpserts(older, newer), below)
  {
  }

  lemma DrainedLinksUp(q: Label, p: Label, moved: map<Key, Upsert>)
    requires Link(q, p)
    ensures Link(q, Drained(p, moved))
  {
    forall k: Key | InRange(p, k) ensures Sees(q, Drained(p, moved), k) {
      assert Sees(q, p, k);
    }
  }

  lemma MovedLinked(A: Labelling, root: PageId, c: PageId, moved: map<Key, Upsert>, B: Labelling, x: PageId)
    requires Consistent(A, root) && c in A && c != root && x in A
    requires A[c].parent in A && A[c].parent != c && Movable(A[A[c].parent], A[c], moved)
    requires KeyedRight(A[c].msgs) && KeyedRight(moved)
    requires B == A[A[c].parent := Drained(A[A[c].parent], moved)][c := Filled(A[c], moved)]
    ensures Linked(B, root, x)
  {
    hide Base, Link, Movable, KeyedRight, Drained, Filled, Apart;
    var p := A[c].parent;
    assert Linked(A, root, c) && Linked(A, root, p) && Linked(A, root, x);
    DrainedLinksFilled(A[p], A[c], moved);
    FilledBase(A[p], A[c], moved);
    if x != root {
      var q := A[x].parent;
      ParentTaller(A, root, c);
      ParentTaller(A, root, x);
      if x == p {
        DrainedLinksUp(A[q], A[p], moved);
      } else if x != c && q == c {
        FilledLinksBelow(A[p], A[c], A[x], moved);
      } else if x != c && q == p {
        assert Siblings(A, root, c, x);
        DrainedLinksOthers(A[p], A[c], A[x], moved);
      }
    }
  }

  /** Messages move one level down; no page's view of any key above the child changes. */
  lemma MoveDown(A: Labelling, root: PageId, c: PageId, moved: map<Key, Upsert>) returns (B: Labelling)
    requires Consistent(A, root) && c in A && c != root
    requires A[c].parent in A && Movable(A[A[c].parent], A[c], moved)
    ensures KeyedRight(A[c].msgs) && KeyedRight(moved)
    ensures B == A[A[c].parent := Drained(A[A[c].parent], moved)][c := Filled(A[c], moved)]
    ensures A[c].parent != c
    ensures Consistent(B, root)
    ensures B[root].view == A[root].view
  {
    hide Base, Link, Movable, KeyedRight, Drained, Filled;
    var p := A[c].parent;
    assert Linked(A, root, c) && Linked(A, root, p);
    ParentTaller(A, root, c);
    DrainedLinksFilled(A[p], A[c], moved);
    B := A[p := Drained(A[p], moved)][c := Filled(A[c], moved)];
    forall x | x in B ensures Linked(B, root, x) {
      MovedLinked(A, root, c, moved, B, x);
    }
    Relabelled(A, B, root);
  }

  // ---- step 3: a leaf applies its waiting messages --------------------------------------------

  /** The pairs after every waiting message has been applied to its key. */
  ghost predicate Applied(l: Label, leaf: map<Key, Value>) {
    && (forall k :: k in leaf ==> InRange(l, k))
    && (forall k: Key :: InRange(l, k) ==> Get(leaf, k) == ActOn(l.msgs, k, Get(l.leaf, k)))
  }

  ghost function WithLeaf(l: Label, leaf: map<Key, Value>): Label {
    l.(msgs := map[], leaf := leaf)
  }

  lemma WithLeafBase(l: Label, leaf: map<Key, Value>)
    requires Base(l) && l.height == 0 && Applied(l, leaf)
    ensures Base(WithLeaf(l, leaf))
  {
  }

  lemma WithLeafLinksUp(p: Label, l: Label, leaf: map<Key, Value>)
    requires Link(p, l)
    ensures Link(p, WithLeaf(l, leaf))
  {
    forall k: Key | InRange(l, k) ensures Sees(p, WithLeaf(l, leaf), k) {
      assert Sees(p, l, k);
    }
  }

  /** Applying the waiting messages to a leaf changes no page's view. */
  lemma ApplyToLeaf(A: Labelling, root: PageId, c: PageId, leaf: map<Key, Value>) returns (B: Labelling)
    requires Consistent(A, root) && c in A && A[c].height == 0 && Applied(A[c], leaf)
    ensures B == A[c := WithLeaf(A[c], leaf)]
    ensures Consistent(B, root)
  {
    hide Base, Link, Applied;
    B := A[c := WithLeaf(A[c], leaf)];
    forall x | x in B ensures Linked(B, root, x) {
      assert Linked(A, root, x);
      if x != root { ParentTaller(A, root, x); }
      if x == c {
        WithLeafBase(A[c], leaf);
        if c != root { WithLeafLinksUp(A[A[c].parent], A[c], leaf); }
      }
    }
    Relabelled(A, B, root);
  }

  // ---- step 4: a page splits in two at a key of its range -------------------------------------

  ghost function LeftHalf(c: Label, mid: Key): (l: Label)
    ensures l == c.(hi := mid, msgs := l.msgs, leaf := l.leaf)
  {
    c.(hi := mid,
       msgs := map k | k in c.msgs && k <= mid :: c.msgs[k],
       leaf := map k | k in c.leaf && k <= mid :: c.leaf[k])
  }

  ghost function RightHalf(c: Label, mid: Key): (r: Label)
    ensures r == c.(lo := mid, msgs := r.msgs, leaf := r.leaf)
  {
    c.(lo := mid,
       msgs := map k | k in c.msgs && k > mid :: c.msgs[k],
       leaf := map k | k in c.leaf && k > mid :: c.leaf[k])
  }

  lemma LeftHalfBase(c: Label, mid: Key)
    requires Base(c) && c.lo < mid < c.hi
    ensures Base(LeftHalf(c, mid))
  {
    hide Act;
  }

  lemma RightHalfBase(c: Label, mid: Key)
    requires Base(c) && c.lo < mid < c.hi
    ensures Base(RightHalf(c, mid))
  {
    hide Act;
  }

  lemma HalvesLinkUp(p: Label, c: Label, mid: Key)
    requires Link(p, c) && c.lo < mid < c.hi
    ensures Link(p, LeftHalf(c, mid)) && Link(p, RightHalf(c, mid))
  {
    var l, r := LeftHalf(c, mid), RightHalf(c, mid);
    forall k: Key | InRange(l, k) ensures Sees(p, l, k) {
      assert InRange(c, k) && Sees(p, c, k);
    }
    forall k: Key | InRange(r, k) ensures Sees(p, r, k) {
      assert InRange(c, k) && Sees(p, c, k);
    }
  }

  /** The half that a child of the split page belongs to. */
  ghost function HalfFor(c: Label, d: Label, mid: Key): Label {
    if d.lo >= mid then RightHalf(c, mid) else LeftHalf(c, mid)
  }

  lemma HalvesLinkDown(c: Label, d: Label, mid: Key, q: PageId)
    requires Link(c, d) && -1 <= d.lo < d.hi && (d.hi <= mid || mid <= d.lo)
    ensures Link(HalfFor(c, d, mid), d.(parent := q))
  {
    var e := HalfFor(c, d, mid);
    forall k: Key | InRange(d, k) ensures Sees(e, d.(parent := q), k) {
      assert Sees(c, d, k);
    }
  }

  /** The labelling after page `c` has given the keys above `mid` to the new page `r`. */
  ghost function Split(A: Labelling, c: PageId, r: PageId, mid: Key): (B: Labelling)
    requires c in A && r !in A
    ensures B.Keys == A.Keys + {r}
  {
    map x | x in A.Keys + {r} ::
      if x == r then RightHalf(A[c], mid)
      else if x == c then LeftHalf(A[c], mid)
      else if A[x].parent == c && A[x].lo >= mid then A[x].(parent := r)
      else A[x]
  }

  /** The split page and its children allow a split at `mid`. */
  ghost predicate Splittable(A: Labelling, root: PageId, c: PageId, mid: Key) {
    && c in A && c != root && A[c].lo < mid < A[c].hi
    && forall x :: x in A && x != root && A[x].parent == c ==> A[x].hi <= mid || mid <= A[x].lo
  }

  lemma SplitLinked(A: Labelling, root: PageId, c: PageId, r: PageId, mid: Key, x: PageId)
    requires Consistent(A, root) && Splittable(A, root, c, mid) && r !in A && x in A.Keys + {r}
    ensures Linked(Split(A, c, r, mid), root, x)
  {
    var B := Split(A, c, r, mid);
    assert Linked(A, root, c) && A[c].parent != c by { ParentTaller(A, root, c); }
    assert A[A[c].parent].parent != c || A[c].parent == root by {
      if A[c].parent != root { ParentTaller(A, root, A[c].parent); }
    }
    LeftHalfBase(A[c], mid);
    RightHalfBase(A[c], mid);
    hide Base, Link, LeftHalf, RightHalf, HalfFor;
    if x == c || x == r {
      var p := A[c].parent;
      HalvesLinkUp(A[p], A[c], mid);
      SameButParentLinks(A[p], B[p], B[x]);
    } else {
      assert Linked(A, root, x);
      SameButParentBase(A[x], B[x]);
      if x != root {
        ParentTaller(A, root, x);
        var q := A[x].parent;
        if q == c {
          BaseRange(A[x]);
          HalvesLinkDown(A[c], A[x], mid, B[x].parent);
          HalfForCases(A[c], A[x], mid);
        } else {
          SameButParentLinks(A[q], B[q], B[x]);
        }
      }
    }
  }

  lemma HalfForCases(c: Label, d: Label, mid: Key)
    ensures d.lo >= mid ==> HalfFor(c, d, mid) == RightHalf(c, mid)
    ensures d.lo < mid ==> HalfFor(c, d, mid) == LeftHalf(c, mid)
  {
  }

  lemma BaseRange(l: Label)
    requires Base(l)
    ensures -1 <= l.lo < l.hi <= MAX_KEY
  {
  }

  lemma SameButParentBase(l: Label, m: Label)
    requires Base(l) && m == l.(parent := m.parent)
    ensures Base(m)
  {
  }

  lemma SameButParentLinks(p: Label, q: Label, c: Label)
    requires Link(p, c) && q == p.(parent := q.parent)
    ensures Link(q, c)
  {
    forall k: Key | InRange(c, k) ensures Sees(q, c, k) {
      assert Sees(p, c, k);
    }
  }

  lemma SplitApart(A: Labelling, root: PageId, c: PageId, r: PageId, mid: Key, x: PageId, y: PageId)
    requires Consistent(A, root) && Splittable(A, root, c, mid) && r !in A
    requires x in A.Keys + {r} && y in A.Keys + {r} && Siblings(Split(A, c, r, mid), root, x, y)
    ensures Apart(Split(A, c, r, mid)[x], Split(A, c, r, mid)[y])
  {
    var B := Split(A, c, r, mid);
    hide Base, Link, LeftHalf, RightHalf, Linked;
    var x', y' := if x == r then c else x, if y == r then c else y;
    ParentTaller(A, root, c);
    if x' != y' {
      NoParentIsNew(A, root, x', r);
      NoParentIsNew(A, root, y', r);
      assert Siblings(A, root, x', y');
    }
  }

  lemma NoParentIsNew(A: Labelling, root: PageId, x: PageId, r: PageId)
    requires Consistent(A, root) && x in A && r !in A
    ensures x != root ==> A[x].parent != r
  {
    if x != root { assert Linked(A, root, x); }
  }

  /** Splitting a page changes no page's view; the halves share the old page's parent. */
  lemma SplitPage(A: Labelling, root: PageId, c: PageId, r: PageId, mid: Key) returns (B: Labelling)
    requires Consistent(A, root) && Splittable(A, root, c, mid) && r !in A
    ensures B == Split(A, c, r, mid)
    ensures Consistent(B, root)
    ensures B[root].view == A[root].view
  {
    B := Split(A, c, r, mid);
    assert root in A;
    assert B[root].lo == A[root].lo && B[root].hi == A[root].hi;
    hide Base, Link, LeftHalf, RightHalf, Splittable;
    forall x | x in B ensures Linked(B, root, x) {
      SplitLinked(A, root, c, r, mid, x);
    }
    hide Linked;
    forall x, y | x in B && y in B && Siblings(B, root, x, y) ensures Apart(B[x], B[y]) {
      SplitApart(A, root, c, r, mid, x, y);
    }
  }

  // ---- step 5: the tree grows a level under its root ------------------------------------------

  /** The labelling after the new page `n` has taken the root's place below the root. */
  ghost function Grown(A: Labelling, root: PageId, n: PageId): (B: Labelling)
    requires root in A && n !in A
    ensures B.Keys == A.Keys + {n}
  {
    map x | x in A.Keys + {n} ::
      if x == n then A[root].(parent := root)
      else if x == root then A[root].(height := A[root].height + 1, msgs := map[], leaf := map[])
      else if A[x].parent == root then A[x].(parent := n)
      else A[x]
  }

  lemma GrownRoot(l: Label, root: PageId)
    requires Base(l)
    ensures Base(l.(height := l.height + 1, msgs := map[], leaf := map[]))
    ensures Link(l.(height := l.height + 1, msgs := map[], leaf := map[]), l.(parent := root))
  {
  }

  lemma GrownLinked(A: Labelling, root: PageId, n: PageId, x: PageId)
    requires Consistent(A, root) && n !in A && A[root].msgs == map[] && x in A.Keys + {n}
    ensures Linked(Grown(A, root, n), root, x)
  {
    var B := Grown(A, root, n);
    assert Linked(A, root, root);
    hide Base, Link;
    if x == root || x == n {
      GrownRoot(A[root], root);
      SameButParentBase(A[root], A[root].(parent := root));
    } else {
      assert Linked(A, root, x);
      SameButParentBase(A[x], B[x]);
      var q := A[x].parent;
      LinkIgnoresParents(A[q], A[x], if q == root then B[n] else B[q], B[x]);
    }
  }

  lemma LinkIgnoresParents(p: Label, c: Label, p': Label, c': Label)
    requires Link(p, c) && p' == p.(parent := p'.parent) && c' == c.(parent := c'.parent)
    ensures Link(p', c')
  {
    forall k: Key | InRange(c', k) ensures Sees(p', c', k) {
      assert Sees(p, c, k);
    }
  }

  lemma GrownApart(A: Labelling, root: PageId, n: PageId, x: PageId, y: PageId)
    requires Consistent(A, root) && n !in A
    requires x in A.Keys + {n} && y in A.Keys + {n} && Siblings(Grown(A, root, n), root, x, y)
    ensures Apart(Grown(A, root, n)[x], Grown(A, root, n)[y])
  {
    hide Base, Link, Linked;
    if x in A { NoParentIsNew(A, root, x, n); }
    if y in A { NoParentIsNew(A, root, y, n); }
    if x in A && y in A { assert Siblings(A, root, x, y); }
  }

  /** Growing a level leaves the root's view as it is. */
  lemma GrowLevel(A: Labelling, root: PageId, n: PageId) returns (B: Labelling)
    requires Consistent(A, root) && n !in A && A[root].msgs == map[]
    ensures B == Grown(A, root, n)
    ensures Consistent(B, root)
    ensures B[root].view == A[root].view
  {
    B := Grown(A, root, n);
    assert root in A;
    assert B[root].lo == A[root].lo && B[root].hi == A[root].hi && B[root].view == A[root].view;
    hide Base, Link, Grown;
    forall x | x in B ensures Linked(B, root, x) {
      GrownLinked(A, root, n, x);
    }
    hide Linked;
    forall x, y | x in B && y in B && Siblings(B, root, x, y) ensures Apart(B[x], B[y]) {
      GrownApart(A, root, n, x, y);
    }
  }
}
