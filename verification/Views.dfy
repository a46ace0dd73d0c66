/** What both trees share besides the labels: how a message changes the view from the root, the label
    of an empty tree, and new pages. */
module Views {
  import opened Keys
  import opened Messages
  import opened Labels

  /** The view after a new message. */
  ghost predicate Told(v: View, u: Upsert, v': View) {
    forall k: Key :: v'[k] == if k == u.key then Through(u, v[k]) else v[k]
  }

  lemma ToldFrom(v: View, v1: View, u: Upsert, v2: View)
    requires v1 == v && Told(v1, u, v2)
    ensures Told(v, u, v2)
  {
  }

  lemma ToldThrough(v: View, u: Upsert, v1: View, v2: View)
    requires Told(v, u, v1) && v2 == v1
    ensures Told(v, u, v2)
  {
  }

  lemma ToldStamps(v: View, u: Upsert, v': View, t: nat)
    requires Told(v, u, v') && u.timeStamp == t + 1 && forall k: Key :: v[k].newest <= t
    ensures forall k: Key :: v'[k].newest <= t + 1
    ensures forall k: Key :: v'[k].value == if k == u.key then Act(u, v[k].value) else v[k].value
    ensures forall k: Key :: v'[k].sound == if k == u.key then SoundOver(u, v[k]) else v[k].sound
  {
    hide Act, SoundOver;
  }

  lemma TotalViews()
    ensures forall v: View, k: Key :: k in v
  {
  }

  function NothingSeen(k: Key): Sight { Sight(None, 0, true) }

  /** The label of a lone empty leaf. */
  ghost function EmptyLabel(): Label {
    Label(0, -1, MAX_KEY, 0, map[], map[], imap k: Key :: NothingSeen(k))
  }

  lemma {:induction false} Bounded(s: set<PageId>) returns (m: PageId)
    ensures forall x :: x in s ==> x <= m
  {
    if x :| x in s {
      m := Bounded(s - {x});
      assert forall y :: y in s ==> y == x || y in s - {x};
      if m < x { m := x; }
    } else {
      m := 0;
    }
  }

  /** The page buffer hands out the id of a page not in use. */
  method CreatePage(used: set<PageId>) returns (r: PageId)
    ensures r !in used
  {
    ghost var m := Bounded(used);
    assert m + 1 !in used;
    r :| r !in used;
  }
}
