/** What every reachable state of the page buffer satisfies, in every interleaving: the table and
    the free slots partition the slots, each resident page is in exactly one queue, the pin counters
    count pins, and whatever is not resident, or not marked dirty, is on disk as last written. */
module BufferSafety {
  import opened Keys
  import opened Leaves
  import opened Queues
  import opened BufferSteps

  // ---- the invariant --------------------------------------------------------------------------

  /** Table and free slots partition the slots, and the table is injective. */
  ghost predicate TableOK(s: State) {
    && |s.pages| == SLOTS
    && (forall id :: id in s.table ==> s.table[id] < SLOTS && s.table[id] !in s.free && s.pages[s.table[id]].id == id)
    && (forall i :: 0 <= i < SLOTS && i !in s.free ==> s.pages[i].id in s.table && s.table[s.pages[i].id] == i)
    && (forall i :: i in s.free ==> i < SLOTS)
  }

  ghost predicate InTable(table: map<Id, Slot>, e: Entry<Id, Slot>) {
    e.key in table && table[e.key] == e.value
  }

  /** Every resident page is in exactly one of the two queues, once. */
  ghost predicate QueuesOK(s: State) {
    && UniqueKeys(s.fifo) && UniqueKeys(s.lru)
    && (forall e :: e in s.fifo ==> InTable(s.table, e))
    && (forall e :: e in s.lru ==> InTable(s.table, e))
    && (forall id :: id in s.table ==> (HasKey(s.fifo, id) <==> !HasKey(s.lru, id)))
  }

  /** A page's counter is the number of threads that have it pinned. */
  ghost predicate PinsOK(s: State) {
    forall i :: 0 <= i < |s.pages| ==> s.pages[i].pins == |Pinners(s.threads, i)|
  }

  /** What a thread that is about to evict its page has made sure of. */
  ghost predicate EvictionOK(s: State, t: Thread) {
    && t.ex && t.id !in s.table && HasKey(if t.fromFifo then s.fifo else s.lru, t.pinned)
    && (t.stage.Clean? ==> t.slot < |s.pages| && !s.pages[t.slot].dirty)
  }

  ghost predicate ThreadOK(s: State, t: Thread) {
    && (Evicting(t) ==> EvictionOK(s, t))
    && (HasPin(t) || t.stage == Picked ==> t.pinned in s.table && s.table[t.pinned] == t.slot)
    && (t.stage.Recheck? || t.stage.GiveUp? || t.stage.Bound? ==> t.ex)
    && (t.stage == ScanFifo ==> t.index <= |s.fifo|)
    && (t.stage == ScanLru ==> t.index <= |s.lru|)
    && (t.stage.Counted? || t.stage.Bound? || t.stage.Loading? || t.stage.Want? ==> t.pinned == t.id)
    && (t.stage.Holding? || t.stage.Leaving? || t.stage.Dropping? ==> t.pinned == t.id)
    && ((t.stage.Want? || t.stage.Holding?) && t.raw ==> t.skip)
    && (t.stage == Holding && t.raw ==> t.excl && !t.written)
    && (t.stage == Holding && t.written ==> t.excl)
    && (t.stage == Loading ==> !t.skip)
  }

  /** What two different threads may do at the same time. */
  ghost predicate Compatible(a: Thread, b: Thread) {
    && (HoldsTable(a) && HoldsTable(b) ==> !a.ex && !b.ex)
    && (HoldsPage(a) && HoldsPage(b) && a.slot == b.slot ==> !HoldsPageAlone(a) && !HoldsPageAlone(b))
    && (HasPin(a) && HasPin(b) && a.slot == b.slot ==> !Alone(a) && !Alone(b))
    && (a.stage == Picked && HasPin(b) && a.slot == b.slot ==> !Filling(b))
    && (b.stage == Picked && HasPin(a) && a.slot == b.slot ==> !Filling(a))
    && ((Skips(a) && Active(b)) || (Skips(b) && Active(a)) ==> a.id != b.id)
  }

  ghost predicate SomeFilling(threads: map<Tid, Thread>, i: Slot) {
    exists x :: x in threads && threads[x].slot == i && Filling(threads[x])
  }

  ghost predicate SomeResponsible(threads: map<Tid, Thread>, i: Slot) {
    exists x :: x in threads && threads[x].slot == i && Responsible(threads[x])
  }

  /** A page that is not resident is on disk as last written. A resident one is in its slot as
      last written, and if the disk differs it is marked dirty or somebody will see to it. */
  ghost predicate ContentAt(s: State, id: Id) {
    if id !in s.table then s.disk(id) == s.current(id)
    else
      var i := s.table[id];
      i < |s.pages| &&
      if SomeFilling(s.threads, i) then s.disk(id) == s.current(id)
      else
        s.pages[i].data == s.current(id) &&
        (s.disk(id) == s.current(id) || s.pages[i].dirty || SomeResponsible(s.threads, i))
  }

  ghost predicate Together(threads: map<Tid, Thread>, x: Tid, y: Tid)
    requires x in threads && y in threads
  {
    x != y ==> Compatible(threads[x], threads[y])
  }

  ghost predicate Inv(s: State) {
    && TableOK(s) && QueuesOK(s) && PinsOK(s)
    && (forall x :: x in s.threads ==> ThreadOK(s, s.threads[x]))
    && (forall x, y {:trigger Together(s.threads, x, y)} :: x in s.threads && y in s.threads ==> Together(s.threads, x, y))
    && (forall id :: ContentAt(s, id))
  }

  ghost predicate Init(s: State) {
    && |s.pages| == SLOTS && s.table == map[] && s.fifo == [] && s.lru == []
    && (forall i :: i in s.free <==> 0 <= i < SLOTS)
    && (forall i :: 0 <= i < SLOTS ==> s.pages[i].pins == 0)
    && (forall x :: x in s.threads ==> s.threads[x].stage == Idle)
    && (forall id :: s.current(id) == s.disk(id))
  }

  lemma InitHolds(s: State)
    requires Init(s)
    ensures Inv(s)
  {
    forall i | 0 <= i < SLOTS ensures Pinners(s.threads, i) == {} {
      assert forall x :: x in s.threads ==> !PinsSlot(s.threads[x], i);
    }
  }

  lemma InvParts(s: State, x: Tid)
    requires Inv(s) && x in s.threads
    ensures TableOK(s) && QueuesOK(s) && PinsOK(s) && ThreadOK(s, s.threads[x])
    ensures forall y :: y in s.threads && y != x ==> Compatible(s.threads[x], s.threads[y])
    ensures forall y :: y in s.threads && y != x ==> ThreadOK(s, s.threads[y])
    ensures forall id :: ContentAt(s, id)
  {
    forall y | y in s.threads && y != x ensures Compatible(s.threads[x], s.threads[y]) {
      assert Together(s.threads, x, y);
    }
  }

  /** Compatibility after thread `x` alone has changed. */
  lemma TogetherAfter(threads: map<Tid, Thread>, x: Tid, t: Thread)
    requires x in threads && forall y, z {:trigger Together(threads, y, z)} :: y in threads && z in threads ==> Together(threads, y, z)
    requires forall y :: y in threads && y != x ==> Compatible(t, threads[y])
    ensures forall y, z {:trigger Together(threads[x := t], y, z)} ::
              y in threads[x := t] && z in threads[x := t] ==> Together(threads[x := t], y, z)
  {
    var ts := threads[x := t];
    hide Compatible;
    forall y, z | y in ts && z in ts ensures Together(ts, y, z) {
      if y != x && z != x {
        assert Together(threads, y, z);
      } else if y != z {
        Symmetric(t, threads[if y == x then z else y]);
      }
    }
  }

  lemma Symmetric(a: Thread, b: Thread)
    requires Compatible(a, b)
    ensures Compatible(b, a)
  {
  }

  lemma InvFrom(s: State, s': State, x: Tid, t: Thread)
    requires Inv(s) && x in s.threads && s'.threads == s.threads[x := t]
    requires TableOK(s') && QueuesOK(s') && PinsOK(s') && ThreadOK(s', t)
    requires forall y :: y in s.threads && y != x ==> Compatible(t, s.threads[y])
    requires forall y :: y in s.threads && y != x ==> ThreadOK(s', s.threads[y])
    requires forall id :: ContentAt(s', id)
    ensures Inv(s')
  {
    hide TableOK, QueuesOK, PinsOK, ThreadOK, Compatible, ContentAt;
    TogetherAfter(s.threads, x, t);
  }

  // ---- what a change of one thread leaves as it is --------------------------------------------

  predicate SamePin(t: Thread, t': Thread) {
    HasPin(t') == HasPin(t) && (HasPin(t) ==> t'.slot == t.slot)
  }

  predicate SameRole(t: Thread, t': Thread) {
    && Filling(t') == Filling(t) && Responsible(t') == Responsible(t)
    && (Filling(t) || Responsible(t) ==> t'.slot == t.slot)
  }

  lemma PinnersSame(threads: map<Tid, Thread>, x: Tid, t: Thread)
    requires x in threads && SamePin(threads[x], t)
    ensures forall i :: Pinners(threads[x := t], i) == Pinners(threads, i)
  {
  }

  lemma RolesSame(threads: map<Tid, Thread>, x: Tid, t: Thread)
    requires x in threads && SameRole(threads[x], t)
    ensures forall i :: SomeFilling(threads[x := t], i) == SomeFilling(threads, i)
    ensures forall i :: SomeResponsible(threads[x := t], i) == SomeResponsible(threads, i)
  {
    var ts := threads[x := t];
    forall i ensures SomeFilling(ts, i) == SomeFilling(threads, i) {
      if SomeFilling(ts, i) { var y :| y in ts && ts[y].slot == i && Filling(ts[y]); assert threads[y].slot == i && Filling(threads[y]); }
      if SomeFilling(threads, i) { var y :| y in threads && threads[y].slot == i && Filling(threads[y]); assert ts[y].slot == i && Filling(ts[y]); }
    }
    forall i ensures SomeResponsible(ts, i) == SomeResponsible(threads, i) {
      if SomeResponsible(ts, i) { var y :| y in ts && ts[y].slot == i && Responsible(ts[y]); assert threads[y].slot == i && Responsible(threads[y]); }
      if SomeResponsible(threads, i) { var y :| y in threads && threads[y].slot == i && Responsible(threads[y]); assert ts[y].slot == i && Responsible(ts[y]); }
    }
  }

  /** A step that only changes the thread itself, without changing its pin or role. */
  lemma ThreadOnly(s: State, x: Tid, t: Thread)
    requires Inv(s) && x in s.threads && SamePin(s.threads[x], t) && SameRole(s.threads[x], t)
    requires ThreadOK(s, t)
    requires forall y :: y in s.threads && y != x ==> Compatible(t, s.threads[y])
    ensures Inv(Set(s, x, t))
  {
    InvParts(s, x);
    var s' := Set(s, x, t);
    PinnersSame(s.threads, x, t);
    RolesSame(s.threads, x, t);
    hide Compatible, SomeFilling, SomeResponsible, Pinners, Inv;
    forall id ensures ContentAt(s', id) {
      assert ContentAt(s, id);
    }
    InvFrom(s, s', x, t);
  }

  // ---- steps of one thread --------------------------------------------------------------------

  lemma BeginHolds(s: State, x: Tid, id: Id, skip: bool)
    requires Inv(s) && Enabled(s, x, Begin(id, skip))
    ensures Inv(Do(s, x, Begin(id, skip)))
  {
    InvParts(s, x);
    var t := s.threads[x].(stage := Enter, id := id, skip := skip, ex := false);
    hide Inv;
    ThreadOnly(s, x, t);
  }

  lemma LockTableHolds(s: State, x: Tid)
    requires Inv(s) && Enabled(s, x, LockTable)
    ensures Inv(Do(s, x, LockTable))
  {
    InvParts(s, x);
    hide Inv;
    ThreadOnly(s, x, s.threads[x].(stage := Inside));
  }

  lemma LockAgainHolds(s: State, x: Tid)
    requires Inv(s) && Enabled(s, x, LockAgain)
    ensures Inv(Do(s, x, LockAgain))
  {
    InvParts(s, x);
    hide Inv;
    ThreadOnly(s, x, s.threads[x].(stage := Recheck, ex := true));
  }

  lemma CheckDirtyHolds(s: State, x: Tid)
    requires Inv(s) && Enabled(s, x, CheckDirty)
    ensures Inv(Do(s, x, CheckDirty))
  {
    InvParts(s, x);
    var t := s.threads[x];
    hide Inv;
    ThreadOnly(s, x, t.(stage := if s.pages[t.slot].dirty then Cleaning else if t.ex then Recheck else Relock));
  }

  lemma LockToSaveHolds(s: State, x: Tid)
    requires Inv(s) && Enabled(s, x, LockToSave)
    ensures Inv(Do(s, x, LockToSave))
  {
    InvParts(s, x);
    hide Inv;
    ThreadOnly(s, x, s.threads[x].(stage := Saving));
  }

  lemma FillHolds(s: State, x: Tid)
    requires Inv(s) && Enabled(s, x, Fill)
    ensures Inv(Do(s, x, Fill))
  {
    InvParts(s, x);
    var t := s.threads[x];
    hide Inv;
    ThreadOnly(s, x, if t.skip then t.(stage := Want, raw := true) else t.(stage := Loading));
  }

  lemma LockPageHolds(s: State, x: Tid, exclusive: bool)
    requires Inv(s) && Enabled(s, x, LockPage(exclusive))
    ensures Inv(Do(s, x, LockPage(exclusive)))
  {
    InvParts(s, x);
    hide Inv;
    ThreadOnly(s, x, s.threads[x].(stage := Holding, excl := exclusive, written := false));
  }

  lemma UnlockPageHolds(s: State, x: Tid)
    requires Inv(s) && Enabled(s, x, UnlockPage)
    ensures Inv(Do(s, x, UnlockPage))
  {
    InvParts(s, x);
    hide Inv;
    ThreadOnly(s, x, s.threads[x].(stage := Dropping));
  }

  lemma FifoEndHolds(s: State, x: Tid)
    requires Inv(s) && x in s.threads && s.threads[x].stage == ScanFifo
    ensures Inv(Set(s, x, s.threads[x].(stage := ScanLru, index := |s.lru|)))
  {
    InvParts(s, x);
    hide Inv, QueuesOK, PinsOK, TableOK;
    ThreadOnly(s, x, s.threads[x].(stage := ScanLru, index := |s.lru|));
  }

  lemma LruEndHolds(s: State, x: Tid)
    requires Inv(s) && x in s.threads && s.threads[x].stage == ScanLru
    ensures Inv(Set(s, x, s.threads[x].(stage := Full)))
  {
    InvParts(s, x);
    hide Inv, QueuesOK, PinsOK, TableOK;
    ThreadOnly(s, x, s.threads[x].(stage := Full));
  }

  lemma ScanNextHolds(s: State, x: Tid)
    requires Inv(s) && Enabled(s, x, Scan) && s.threads[x].index > 0
    ensures Inv(Set(s, x, s.threads[x].(index := s.threads[x].index - 1)))
  {
    InvParts(s, x);
    var t := s.threads[x];
    hide Inv, QueuesOK, PinsOK, TableOK;
    ThreadOnly(s, x, t.(index := t.index - 1));
  }

  lemma ScanHolds(s: State, x: Tid)
    requires Inv(s) && Enabled(s, x, Scan)
    ensures Inv(Do(s, x, Scan))
  {
    hide Inv;
    var t := s.threads[x];
    if t.index == 0 {
      if t.stage == ScanFifo { FifoEndHolds(s, x); } else { LruEndHolds(s, x); }
    } else if s.pages[QueueOf(s, t)[t.index - 1].value].pins == 0 {
      PickHolds(s, x, QueueOf(s, t)[t.index - 1]);
    } else {
      ScanNextHolds(s, x);
    }
  }

  lemma NobodyPins(s: State, i: Slot)
    requires PinsOK(s) && i < |s.pages| && s.pages[i].pins == 0
    ensures forall y :: y in s.threads ==> !PinsSlot(s.threads[y], i)
  {
    assert Pinners(s.threads, i) == {};
    forall y | y in s.threads ensures !PinsSlot(s.threads[y], i) {
      assert y !in Pinners(s.threads, i);
    }
  }

  lemma PickHolds(s: State, x: Tid, e: Entry<Id, Slot>)
    requires Inv(s) && Enabled(s, x, Scan) && s.threads[x].index > 0
    requires e == QueueOf(s, s.threads[x])[s.threads[x].index - 1] && s.pages[e.value].pins == 0
    ensures Inv(Set(s, x, s.threads[x].(stage := Picked, slot := e.value, pinned := e.key, fromFifo := s.threads[x].stage == ScanFifo)))
  {
    InvParts(s, x);
    var t := s.threads[x];
    assert e in QueueOf(s, t);
    assert InTable(s.table, e);
    NobodyPins(s, e.value);
    hide Inv, TableOK, QueuesOK, PinsOK;
    ThreadOnly(s, x, t.(stage := Picked, slot := e.value, pinned := e.key, fromFifo := t.stage == ScanFifo));
  }

  // ---- pins come and go -----------------------------------------------------------------------

  lemma PinnersGained(threads: map<Tid, Thread>, x: Tid, t: Thread, i: Slot)
    requires x in threads && !HasPin(threads[x]) && PinsSlot(t, i)
    ensures |Pinners(threads[x := t], i)| == |Pinners(threads, i)| + 1
    ensures forall j :: j != i ==> Pinners(threads[x := t], j) == Pinners(threads, j)
  {
    assert Pinners(threads[x := t], i) == Pinners(threads, i) + {x};
  }

  lemma PinnersLost(threads: map<Tid, Thread>, x: Tid, t: Thread, i: Slot)
    requires x in threads && PinsSlot(threads[x], i) && !HasPin(t)
    ensures |Pinners(threads[x := t], i)| + 1 == |Pinners(threads, i)|
    ensures forall j :: j != i ==> Pinners(threads[x := t], j) == Pinners(threads, j)
  {
    assert Pinners(threads, i) == Pinners(threads[x := t], i) + {x};
  }

  predicate NoRole(t: Thread) { !Filling(t) && !Responsible(t) }

  lemma CounterChange(s: State, x: Tid, t: Thread, i: Slot, pins: nat)
    requires Inv(s) && x in s.threads && NoRole(s.threads[x]) && NoRole(t) && i < |s.pages|
    requires PinsOK(Set(WithPins(s, i, pins), x, t)) && ThreadOK(s, t)
    requires forall y :: y in s.threads && y != x ==> Compatible(t, s.threads[y])
    ensures Inv(Set(WithPins(s, i, pins), x, t))
  {
    InvParts(s, x);
    RolesSame(s.threads, x, t);
    var s' := Set(WithPins(s, i, pins), x, t);
    hide Compatible, SomeFilling, SomeResponsible, PinsOK, Inv, QueuesOK;
    forall id ensures ContentAt(s', id) {
      assert ContentAt(s, id);
    }
    assert QueuesOK(s') by { SameQueues(s, s'); }
    forall y | y in s.threads && y != x ensures ThreadOK(s', s.threads[y]) {
    }
    InvFrom(s, s', x, t);
  }

  lemma SameQueues(s: State, s': State)
    requires QueuesOK(s) && s'.table == s.table && s'.fifo == s.fifo && s'.lru == s.lru
    ensures QueuesOK(s')
  {
  }

  lemma GainPin(s: State, x: Tid, t: Thread, i: Slot)
    requires Inv(s) && x in s.threads && !HasPin(s.threads[x]) && PinsSlot(t, i) && i < |s.pages|
    requires NoRole(s.threads[x]) && NoRole(t) && ThreadOK(s, t)
    requires forall y :: y in s.threads && y != x ==> Compatible(t, s.threads[y])
    ensures Inv(Set(WithPins(s, i, s.pages[i].pins + 1), x, t))
  {
    PinnersGained(s.threads, x, t, i);
    assert PinsOK(s);
    hide Inv, Compatible, ThreadOK, Pinners;
    CounterChange(s, x, t, i, s.pages[i].pins + 1);
  }

  lemma LosePin(s: State, x: Tid, t: Thread, i: Slot)
    requires Inv(s) && x in s.threads && PinsSlot(s.threads[x], i) && !HasPin(t) && i < |s.pages| && s.pages[i].pins >= 1
    requires NoRole(s.threads[x]) && NoRole(t) && ThreadOK(s, t)
    requires forall y :: y in s.threads && y != x ==> Compatible(t, s.threads[y])
    ensures Inv(Set(WithPins(s, i, s.pages[i].pins - 1), x, t))
  {
    PinnersLost(s.threads, x, t, i);
    assert PinsOK(s);
    hide Inv, Compatible, ThreadOK, Pinners;
    CounterChange(s, x, t, i, s.pages[i].pins - 1);
  }

  /** Two ids in one slot are the same id. */
  lemma SameSlotSameId(s: State, a: Id, b: Id)
    requires TableOK(s) && a in s.table && b in s.table && s.table[a] == s.table[b]
    ensures a == b
  {
  }

  lemma HitCompatible(s: State, x: Tid, t': Thread, y: Tid)
    requires Inv(s) && x in s.threads && y in s.threads && y != x && s.threads[x].stage == Inside && s.threads[x].id in s.table
    requires t' == s.threads[x].(stage := Counted, slot := s.table[s.threads[x].id], pinned := s.threads[x].id, first := t'.first)
    ensures Compatible(t', s.threads[y])
  {
    InvParts(s, x);
    hide Inv, QueuesOK, PinsOK, ContentAt;
    var b := s.threads[y];
    assert Compatible(s.threads[x], b) && ThreadOK(s, b);
    if HasPin(b) && b.slot == t'.slot { SameSlotSameId(s, b.pinned, t'.id); }
  }

  lemma HitThread(s: State, x: Tid, t': Thread)
    requires Inv(s) && x in s.threads && s.threads[x].stage == Inside && s.threads[x].id in s.table
    requires t' == s.threads[x].(stage := Counted, slot := s.table[s.threads[x].id], pinned := s.threads[x].id, first := t'.first)
    ensures !HasPin(s.threads[x]) && PinsSlot(t', t'.slot) && t'.slot < |s.pages| && NoRole(s.threads[x]) && NoRole(t') && ThreadOK(s, t')
  {
    InvParts(s, x);
    hide Inv, QueuesOK, PinsOK, ContentAt, Compatible;
  }

  lemma HitHolds(s: State, x: Tid, t': Thread)
    requires Inv(s) && x in s.threads && s.threads[x].stage == Inside && s.threads[x].id in s.table
    requires t' == s.threads[x].(stage := Counted, slot := s.table[s.threads[x].id], pinned := s.threads[x].id, first := t'.first)
    ensures t'.slot < |s.pages| && Inv(Set(WithPins(s, t'.slot, s.pages[t'.slot].pins + 1), x, t'))
  {
    hide *;
    HitThread(s, x, t');
    forall y | y in s.threads && y != x ensures Compatible(t', s.threads[y]) {
      HitCompatible(s, x, t', y);
    }
    GainPin(s, x, t', t'.slot);
  }

  lemma PinPickedHolds(s: State, x: Tid)
    requires Inv(s) && Enabled(s, x, PinPicked)
    ensures Inv(Do(s, x, PinPicked))
  {
    InvParts(s, x);
    var t := s.threads[x];
    hide Inv, QueuesOK, PinsOK, TableOK;
    GainPin(s, x, t.(stage := Reserved), t.slot);
  }

  lemma AgainCompatible(t: Thread, b: Thread)
    requires Compatible(t, b) && Active(t)
    ensures Compatible(t.(stage := Enter, ex := false), b)
  {
  }

  lemma UnpinPickedHolds(s: State, x: Tid)
    requires Inv(s) && Enabled(s, x, UnpinPicked)
    ensures Inv(Do(s, x, UnpinPicked))
  {
    InvParts(s, x);
    var t := s.threads[x];
    hide Inv, QueuesOK, PinsOK, TableOK, ContentAt, Compatible;
    forall y | y in s.threads && y != x ensures Compatible(t.(stage := Enter, ex := false), s.threads[y]) {
      AgainCompatible(t, s.threads[y]);
    }
    LosePin(s, x, t.(stage := Enter, ex := false), t.slot);
  }

  lemma IdleCompatible(t: Thread, b: Thread)
    requires Compatible(t, b)
    ensures Compatible(t.(stage := Idle), b)
  {
  }

  lemma DropHolds(s: State, x: Tid)
    requires Inv(s) && Enabled(s, x, Drop)
    ensures Inv(Do(s, x, Drop))
  {
    InvParts(s, x);
    var t := s.threads[x];
    hide Inv, QueuesOK, PinsOK, TableOK, ContentAt, Compatible;
    forall y | y in s.threads && y != x ensures Compatible(t.(stage := Idle), s.threads[y]) {
      IdleCompatible(t, s.threads[y]);
    }
    LosePin(s, x, t.(stage := Idle), t.slot);
  }

  // ---- the queues change ----------------------------------------------------------------------

  /** While `x` holds the table exclusively, nobody else scans a queue or has picked a page. */
  lemma NobodyScans(s: State, x: Tid)
    requires Inv(s) && x in s.threads && HoldsTable(s.threads[x]) && s.threads[x].ex
    ensures forall y :: y in s.threads && y != x ==> !HoldsTable(s.threads[y])
  {
    InvParts(s, x);
    hide Inv, TableOK, QueuesOK, PinsOK, ThreadOK, ContentAt;
  }

  lemma QueueChange(s: State, x: Tid, t: Thread, fifo: Entries, lru: Entries)
    requires Inv(s) && x in s.threads && HoldsTable(s.threads[x]) && s.threads[x].ex
    requires SamePin(s.threads[x], t) && SameRole(s.threads[x], t)
    requires QueuesOK(s.(fifo := fifo, lru := lru)) && ThreadOK(s.(fifo := fifo, lru := lru), t)
    requires forall y :: y in s.threads && y != x ==> Compatible(t, s.threads[y])
    ensures Inv(Set(s.(fifo := fifo, lru := lru), x, t))
  {
    InvParts(s, x);
    NobodyScans(s, x);
    var s' := Set(s.(fifo := fifo, lru := lru), x, t);
    PinnersSame(s.threads, x, t);
    RolesSame(s.threads, x, t);
    SameQueues(s.(fifo := fifo, lru := lru), s');
    hide Compatible, SomeFilling, SomeResponsible, Pinners, Inv, QueuesOK;
    forall id ensures ContentAt(s', id) {
      assert ContentAt(s, id);
    }
    InvFrom(s, s', x, t);
  }

  lemma MoveToLru(s: State, id: Id, i: Slot)
    requires QueuesOK(s) && InTable(s.table, Entry(id, i)) && HasKey(s.fifo, id)
    ensures QueuesOK(s.(fifo := Removed(s.fifo, id), lru := Pushed(s.lru, id, i)))
  {
    RemovedKeys(s.fifo, id);
    PushedKeys(s.lru, id, i);
    hide HasKey, UniqueKeys, Removed, Pushed;
  }

  lemma FrontOfLru(s: State, id: Id)
    requires QueuesOK(s)
    ensures QueuesOK(s.(lru := MovedToFront(s.lru, id)))
  {
    MovedKeys(s.lru, id);
    hide HasKey, UniqueKeys, MovedToFront;
  }

  /** What is known of a thread that has counted itself at a resident page. */
  lemma CountedParts(s: State, x: Tid)
    requires Inv(s) && x in s.threads && s.threads[x].stage == Counted && SlotOK(s, s.threads[x])
    ensures var t, want, again := s.threads[x], s.threads[x].(stage := Want, raw := false), s.threads[x].(stage := Enter, ex := true);
            QueuesOK(s) && InTable(s.table, Entry(t.id, t.slot)) && HoldsTable(t) && PinsSlot(t, t.slot) && t.slot < |s.pages| &&
            SamePin(t, want) && SameRole(t, want) && ThreadOK(s, want) &&
            !HasPin(again) && NoRole(t) && NoRole(again) && ThreadOK(s, again) &&
            forall y :: y in s.threads && y != x ==> Compatible(want, s.threads[y]) && Compatible(again, s.threads[y])
  {
    InvParts(s, x);
    hide Inv, QueuesOK, PinsOK, TableOK, ContentAt, Compatible;
    forall y | y in s.threads && y != x
      ensures Compatible(s.threads[x].(stage := Want, raw := false), s.threads[y])
      ensures Compatible(s.threads[x].(stage := Enter, ex := true), s.threads[y])
    {
      CountedCompatible(s.threads[x], s.threads[y]);
    }
  }

  lemma CountedCompatible(t: Thread, b: Thread)
    requires t.stage == Counted && Compatible(t, b)
    ensures Compatible(t.(stage := Want, raw := false), b) && Compatible(t.(stage := Enter, ex := true), b)
  {
  }

  /** The four outcomes of a settling thread; the fallback insertion is not among them. */
  lemma SettleIs(s: State, x: Tid)
    requires Enabled(s, x, Settle)
    ensures x in s.threads && s.threads[x].stage == Counted && SlotOK(s, s.threads[x])
    ensures var t, s' := s.threads[x], Do(s, x, Settle);
            var want := t.(stage := Want, raw := false);
            s.pages[t.slot].pins >= 1 &&
            if !t.first then s' == Set(s, x, want)
            else if !t.ex then s' == Set(WithPins(s, t.slot, s.pages[t.slot].pins - 1), x, t.(stage := Enter, ex := true))
            else if Position(s.fifo, t.id) < |s.fifo| then
              s' == Set(s.(fifo := Removed(s.fifo, t.id), lru := Pushed(s.lru, t.id, t.slot)), x, want)
            else s' == Set(s.(fifo := s.fifo, lru := MovedToFront(s.lru, t.id)), x, want)
  {
    hide Removed, Pushed, MovedToFront, Position;
  }

  lemma WantHolds(s: State, x: Tid, fifo: Entries, lru: Entries)
    requires Inv(s) && x in s.threads && s.threads[x].stage == Counted && s.threads[x].ex && SlotOK(s, s.threads[x])
    requires QueuesOK(s.(fifo := fifo, lru := lru))
    ensures Inv(Set(s.(fifo := fifo, lru := lru), x, s.threads[x].(stage := Want, raw := false)))
  {
    var want := s.threads[x].(stage := Want, raw := false);
    CountedParts(s, x);
    hide Inv, QueuesOK, Compatible;
    QueueChange(s, x, want, fifo, lru);
  }

  lemma SettleHolds(s: State, x: Tid)
    requires Inv(s) && Enabled(s, x, Settle)
    ensures Inv(Do(s, x, Settle))
  {
    hide *;
    SettleIs(s, x);
    CountedParts(s, x);
    var t := s.threads[x];
    var want := t.(stage := Want, raw := false);
    PositionIff(s.fifo, t.id);
    if !t.first {
      ThreadOnly(s, x, want);
    } else if !t.ex {
      LosePin(s, x, t.(stage := Enter, ex := true), t.slot);
    } else if Position(s.fifo, t.id) < |s.fifo| {
      MoveToLru(s, t.id, t.slot);
      WantHolds(s, x, Removed(s.fifo, t.id), Pushed(s.lru, t.id, t.slot));
    } else {
      FrontOfLru(s, t.id);
      WantHolds(s, x, s.fifo, MovedToFront(s.lru, t.id));
    }
  }

  // ---- flags, data and disk change ------------------------------------------------------------

  /** What a change of flags, data, disk and current contents has to leave in place. */
  lemma DataChange(s: State, s': State, x: Tid, t: Thread)
    requires Inv(s) && x in s.threads && s'.threads == s.threads[x := t] && SamePin(s.threads[x], t)
    requires s'.table == s.table && s'.free == s.free && s'.fifo == s.fifo && s'.lru == s.lru && |s'.pages| == |s.pages|
    requires forall i :: 0 <= i < |s.pages| ==> s'.pages[i].id == s.pages[i].id && s'.pages[i].pins == s.pages[i].pins
    requires HasPin(t) && forall i :: 0 <= i < |s.pages| && i != t.slot ==> s'.pages[i].dirty == s.pages[i].dirty
    requires ThreadOK(s, t) && !Evicting(t)
    requires forall y :: y in s.threads && y != x ==> Compatible(t, s.threads[y])
    requires forall id :: ContentAt(s', id)
    ensures Inv(s')
  {
    InvParts(s, x);
    PinnersSame(s.threads, x, t);
    SameQueues(s, s');
    forall y | y in s.threads && y != x ensures ThreadOK(s', s.threads[y]) {
      assert Compatible(t, s.threads[y]);
    }
    hide Compatible, ContentAt, Pinners, Inv, QueuesOK;
    InvFrom(s, s', x, t);
  }

  lemma Stays(threads: map<Tid, Thread>, x: Tid, t: Thread, i: Slot)
    requires x in threads
    ensures !(threads[x].slot == i && Filling(threads[x])) || (t.slot == i && Filling(t)) ==>
              (SomeFilling(threads, i) ==> SomeFilling(threads[x := t], i))
    ensures !(t.slot == i && Filling(t)) ==> (SomeFilling(threads[x := t], i) ==> SomeFilling(threads, i))
    ensures !(threads[x].slot == i && Responsible(threads[x])) || (t.slot == i && Responsible(t)) ==>
              (SomeResponsible(threads, i) ==> SomeResponsible(threads[x := t], i))
    ensures t.slot == i && Responsible(t) ==> SomeResponsible(threads[x := t], i)
    ensures t.slot == i && Filling(t) ==> SomeFilling(threads[x := t], i)
  {
    var ts := threads[x := t];
    assert ts[x] == t;
    if SomeFilling(threads, i) {
      var y :| y in threads && threads[y].slot == i && Filling(threads[y]);
      assert y != x ==> ts[y].slot == i && Filling(ts[y]);
    }
    if SomeFilling(ts, i) {
      var y :| y in ts && ts[y].slot == i && Filling(ts[y]);
      assert y != x ==> threads[y].slot == i && Filling(threads[y]);
    }
    if SomeResponsible(threads, i) {
      var y :| y in threads && threads[y].slot == i && Responsible(threads[y]);
      assert y != x ==> ts[y].slot == i && Responsible(ts[y]);
    }
  }

  lemma SlotOf(s: State, x: Tid)
    requires Inv(s) && x in s.threads && HasPin(s.threads[x])
    ensures var t := s.threads[x];
            t.pinned in s.table && s.table[t.pinned] == t.slot && t.slot < |s.pages| && s.pages[t.slot].id == t.pinned &&
            forall id :: id in s.table && s.table[id] == t.slot ==> id == t.pinned
  {
    InvParts(s, x);
    hide Inv, QueuesOK, PinsOK, ContentAt, Compatible;
  }

  lemma ClearDirtyHolds(s: State, x: Tid)
    requires Inv(s) && Enabled(s, x, ClearDirty)
    ensures Inv(Do(s, x, ClearDirty))
  {
    InvParts(s, x);
    var t' := s.threads[x].(stage := Cleared);
    var s' := Do(s, x, ClearDirty);
    hide Inv, QueuesOK, PinsOK, ContentAt, TableOK, SomeFilling, SomeResponsible;
    forall id ensures ContentAt(s', id) {
      ClearedContent(s, x, id);
    }
    DataChange(s, s', x, t');
  }

  lemma ClearedContent(s: State, x: Tid, id: Id)
    requires Inv(s) && Enabled(s, x, ClearDirty)
    ensures ContentAt(Do(s, x, ClearDirty), id)
  {
    SlotOf(s, x);
    assert ContentAt(s, id);
    hide Inv, QueuesOK, PinsOK, TableOK, SomeFilling, SomeResponsible;
    if id in s.table { Stays(s.threads, x, s.threads[x].(stage := Cleared), s.table[id]); }
  }

  /** While a thread holds a page, or is alone on it, nobody else is filling it. */
  lemma NobodyFills(s: State, x: Tid)
    requires Inv(s) && x in s.threads && HoldsPage(s.threads[x]) && !Filling(s.threads[x])
    ensures !SomeFilling(s.threads, s.threads[x].slot)
  {
    InvParts(s, x);
    hide Inv, TableOK, QueuesOK, PinsOK, ContentAt;
    var t := s.threads[x];
    forall y | y in s.threads && s.threads[y].slot == t.slot ensures !Filling(s.threads[y]) {
      if y != x { assert Compatible(t, s.threads[y]); }
    }
  }

  lemma SaveHolds(s: State, x: Tid)
    requires Inv(s) && Enabled(s, x, Save)
    ensures Inv(Do(s, x, Save))
  {
    InvParts(s, x);
    var t' := s.threads[x].(stage := Relock);
    var s' := Do(s, x, Save);
    hide Inv, QueuesOK, PinsOK, ContentAt, TableOK, SomeFilling, SomeResponsible;
    forall id ensures ContentAt(s', id) {
      SavedContent(s, x, id);
    }
    DataChange(s, s', x, t');
  }

  lemma SavedContent(s: State, x: Tid, id: Id)
    requires Inv(s) && Enabled(s, x, Save)
    ensures ContentAt(Do(s, x, Save), id)
  {
    SlotOf(s, x);
    NobodyFills(s, x);
    assert ContentAt(s, id);
    hide Inv, QueuesOK, PinsOK, TableOK, SomeFilling, SomeResponsible;
    if id in s.table { Stays(s.threads, x, s.threads[x].(stage := Relock), s.table[id]); }
  }

  lemma UnpinHolds(s: State, x: Tid, dirty: bool)
    requires Inv(s) && Enabled(s, x, Unpin(dirty))
    ensures Inv(Do(s, x, Unpin(dirty)))
  {
    InvParts(s, x);
    var t' := s.threads[x].(stage := Leaving);
    var s' := Do(s, x, Unpin(dirty));
    hide Inv, QueuesOK, PinsOK, ContentAt, TableOK, SomeFilling, SomeResponsible;
    forall id ensures ContentAt(s', id) {
      UnpinnedContent(s, x, dirty, id);
    }
    DataChange(s, s', x, t');
  }

  lemma UnpinnedContent(s: State, x: Tid, dirty: bool, id: Id)
    requires Inv(s) && Enabled(s, x, Unpin(dirty))
    ensures ContentAt(Do(s, x, Unpin(dirty)), id)
  {
    SlotOf(s, x);
    assert ContentAt(s, id);
    hide Inv, QueuesOK, PinsOK, TableOK, SomeFilling, SomeResponsible;
    if id in s.table { Stays(s.threads, x, s.threads[x].(stage := Leaving), s.table[id]); }
  }

  /** The only thread filling a slot. */
  lemma OnlyFiller(s: State, x: Tid, t': Thread)
    requires Inv(s) && x in s.threads && HoldsPageAlone(s.threads[x]) && !Filling(t') && t'.slot == s.threads[x].slot
    ensures !SomeFilling(s.threads[x := t'], t'.slot)
  {
    InvParts(s, x);
    hide Inv, TableOK, QueuesOK, PinsOK, ContentAt;
    var t := s.threads[x];
    forall y | y in s.threads && y != x && s.threads[y].slot == t.slot ensures !Filling(s.threads[y]) {
      assert Compatible(t, s.threads[y]);
    }
  }

  lemma ModifyHolds(s: State, x: Tid, data: Data)
    requires Inv(s) && Enabled(s, x, Modify(data))
    ensures Inv(Do(s, x, Modify(data)))
  {
    InvParts(s, x);
    SlotOf(s, x);
    var t := s.threads[x];
    var t' := t.(written := true, raw := false);
    var s' := Do(s, x, Modify(data));
    OnlyFiller(s, x, t');
    hide Inv, QueuesOK, PinsOK;
    forall id ensures ContentAt(s', id) {
      assert ContentAt(s, id);
      if id in s.table { Stays(s.threads, x, t', s.table[id]); }
    }
    hide ContentAt, TableOK;
    DataChange(s, s', x, t');
  }

  lemma LoadHolds(s: State, x: Tid)
    requires Inv(s) && Enabled(s, x, Load)
    ensures Inv(Do(s, x, Load))
  {
    InvParts(s, x);
    SlotOf(s, x);
    var t := s.threads[x];
    var t' := t.(stage := Want, raw := false);
    var s' := Do(s, x, Load);
    OnlyFiller(s, x, t');
    FillerMeansDisk(s, x);
    hide Inv, QueuesOK, PinsOK;
    forall id ensures ContentAt(s', id) {
      assert ContentAt(s, id);
      if id in s.table { Stays(s.threads, x, t', s.table[id]); }
    }
    hide ContentAt, TableOK;
    DataChange(s, s', x, t');
  }

  lemma FillerMeansDisk(s: State, x: Tid)
    requires Inv(s) && x in s.threads && Filling(s.threads[x])
    ensures s.disk(s.threads[x].pinned) == s.current(s.threads[x].pinned)
  {
    InvParts(s, x);
    var t := s.threads[x];
    assert SomeFilling(s.threads, t.slot);
    assert ContentAt(s, t.pinned);
    hide Inv, QueuesOK, PinsOK, TableOK, Compatible;
  }

  // ---- a slot is bound ------------------------------------------------------------------------

  lemma NotQueued(s: State, id: Id)
    requires QueuesOK(s) && id !in s.table
    ensures !HasKey(s.fifo, id) && !HasKey(s.lru, id)
  {
    assert forall i :: 0 <= i < |s.fifo| ==> InTable(s.table, s.fifo[i]);
    assert forall i :: 0 <= i < |s.lru| ==> InTable(s.table, s.lru[i]);
  }

  lemma BindQueues(s: State, s': State, id: Id, i: Slot)
    requires QueuesOK(s) && id !in s.table && s'.table == s.table[id := i]
    requires s'.fifo == Pushed(s.fifo, id, i) && s'.lru == s.lru
    ensures QueuesOK(s')
  {
    NotQueued(s, id);
    PushedKeys(s.fifo, id, i);
    hide HasKey, UniqueKeys, Pushed;
  }

  /** What binding a slot leaves of the threads: `t` is the binder's new state. */
  lemma BindThreads(s: State, s': State, x: Tid, t: Thread, i: Slot)
    requires Inv(s) && x in s.threads && HoldsTable(s.threads[x]) && s.threads[x].ex
    requires t == s.threads[x].(stage := Bound, slot := i, pinned := s.threads[x].id) && t.id !in s.table
    requires forall y :: y in s.threads && y != x ==> !PinsSlot(s.threads[y], i)
    requires forall id :: id in s.table && s.table[id] != i ==> id in s'.table && s'.table[id] == s.table[id]
    requires t.id in s'.table && s'.table[t.id] == i
    ensures ThreadOK(s', t)
    ensures forall y :: y in s.threads && y != x ==> ThreadOK(s', s.threads[y]) && Compatible(t, s.threads[y])
  {
    NobodyScans(s, x);
    InvParts(s, x);
    hide Inv, TableOK, QueuesOK, PinsOK, ContentAt;
    forall y | y in s.threads && y != x ensures ThreadOK(s', s.threads[y]) && Compatible(t, s.threads[y]) {
      assert ThreadOK(s, s.threads[y]) && Compatible(s.threads[x], s.threads[y]);
    }
  }

  lemma BindContent(s: State, s': State, x: Tid, t: Thread, i: Slot, gone: set<Id>)
    requires x in s.threads && NoRole(s.threads[x]) && s'.threads == s.threads[x := t] && t.stage == Bound && t.slot == i && t.id !in s.table
    requires s'.table == (s.table - gone)[t.id := i] && i < |s.pages| && |s'.pages| == |s.pages|
    requires s'.disk == s.disk && s'.current == s.current
    requires forall j :: 0 <= j < |s.pages| && j != i ==> s'.pages[j] == s.pages[j]
    requires forall id :: id in s.table && s.table[id] == i ==> id in gone
    requires forall id :: id in gone ==> id in s.table && s.disk(id) == s.current(id)
    requires forall id :: ContentAt(s, id)
    ensures forall id :: ContentAt(s', id)
  {
    hide SomeFilling, SomeResponsible;
    forall id ensures ContentAt(s', id) {
      assert ContentAt(s, id);
      if id in s'.table { Stays(s.threads, x, t, s'.table[id]); }
    }
  }

  lemma TakeFreeTable(s: State, x: Tid, i: Slot)
    requires TableOK(s) && x in s.threads && s.threads[x].id !in s.table && i in s.free && i < |s.pages|
    ensures TableOK(TakeFree(s, x, i))
  {
    hide Pushed;
  }

  lemma TakeFreePins(s: State, x: Tid, i: Slot)
    requires PinsOK(s) && x in s.threads && !HasPin(s.threads[x]) && i < |s.pages| && s.pages[i].pins == 0
    ensures PinsOK(TakeFree(s, x, i))
  {
    var t := s.threads[x].(stage := Bound, slot := i, pinned := s.threads[x].id);
    PinnersGained(s.threads, x, t, i);
    hide Pinners, Pushed;
  }

  lemma TakeFreeFacts(s: State, x: Tid, i: Slot)
    requires Inv(s) && Enabled(s, x, LookUp(i)) && s.threads[x].id !in s.table && |s.table| < SLOTS && s.threads[x].ex
    ensures TableOK(s) && QueuesOK(s) && PinsOK(s) && forall id :: ContentAt(s, id)
    ensures forall y :: y in s.threads ==> !PinsSlot(s.threads[y], i)
    ensures forall id :: id in s.table ==> s.table[id] != i
  {
    InvParts(s, x);
    hide Inv, QueuesOK, ContentAt;
    NobodyPins(s, i);
  }

  lemma TakeFreeHolds(s: State, x: Tid, i: Slot)
    requires Inv(s) && Enabled(s, x, LookUp(i)) && s.threads[x].id !in s.table && |s.table| < SLOTS && s.threads[x].ex
    ensures Inv(Do(s, x, LookUp(i)))
  {
    TakeFreeFacts(s, x, i);
    hide Inv, TableOK, QueuesOK, PinsOK, ThreadOK, Compatible, ContentAt, Pushed;
    var t := s.threads[x];
    var t' := t.(stage := Bound, slot := i, pinned := t.id);
    var s' := TakeFree(s, x, i);
    TakeFreeTable(s, x, i);
    TakeFreePins(s, x, i);
    BindQueues(s, s', t.id, i);
    BindThreads(s, s', x, t', i);
    BindContent(s, s', x, t', i, {});
    InvFrom(s, s', x, t');
  }

  /** A counter of one that includes the thread's own pin leaves no other pinner. */
  lemma OnlyPinner(s: State, x: Tid)
    requires PinsOK(s) && x in s.threads && HasPin(s.threads[x]) && s.threads[x].slot < |s.pages| && s.pages[s.threads[x].slot].pins == 1
    ensures forall y :: y in s.threads && y != x ==> !PinsSlot(s.threads[y], s.threads[x].slot)
  {
    var i := s.threads[x].slot;
    var p := Pinners(s.threads, i);
    assert x in p && |p - {x}| == 0;
    forall y | y in s.threads && y != x ensures !PinsSlot(s.threads[y], i) {
      assert y !in p - {x};
    }
  }

  /** A clean page whose only pinner neither fills it nor is responsible for it is on disk. */
  lemma CleanIsOnDisk(s: State, x: Tid, id: Id)
    requires x in s.threads && ContentAt(s, id) && id in s.table && s.table[id] < |s.pages| && !s.pages[s.table[id]].dirty
    requires NoRole(s.threads[x]) && forall y :: y in s.threads && y != x ==> !PinsSlot(s.threads[y], s.table[id])
    ensures s.disk(id) == s.current(id)
  {
    var i := s.table[id];
    assert !SomeFilling(s.threads, i) && !SomeResponsible(s.threads, i);
  }

  lemma UnbindQueues(s: State, id: Id, fromFifo: bool)
    requires QueuesOK(s) && HasKey(if fromFifo then s.fifo else s.lru, id)
    ensures QueuesOK(s.(table := s.table - {id}, fifo := if fromFifo then Removed(s.fifo, id) else s.fifo,
                        lru := if fromFifo then s.lru else Removed(s.lru, id)))
  {
    QueuedIsResident(s, id);
    AnEntry(s.fifo, id);
    AnEntry(s.lru, id);
    if fromFifo { UnbindFifo(s, id); } else { UnbindLru(s, id); }
  }

  lemma UnbindFifo(s: State, id: Id)
    requires QueuesOK(s) && id in s.table && HasKey(s.fifo, id) && forall e :: e in s.lru ==> e.key != id
    ensures QueuesOK(s.(table := s.table - {id}, fifo := Removed(s.fifo, id), lru := s.lru))
  {
    hide HasKey, UniqueKeys, Removed;
    RemovedKeys(s.fifo, id);
  }

  lemma UnbindLru(s: State, id: Id)
    requires QueuesOK(s) && id in s.table && HasKey(s.lru, id) && forall e :: e in s.fifo ==> e.key != id
    ensures QueuesOK(s.(table := s.table - {id}, fifo := s.fifo, lru := Removed(s.lru, id)))
  {
    hide HasKey, UniqueKeys, Removed;
    RemovedKeys(s.lru, id);
  }

  lemma QueuedIsResident(s: State, id: Id)
    requires QueuesOK(s) && (HasKey(s.fifo, id) || HasKey(s.lru, id))
    ensures id in s.table
  {
    assert forall i :: 0 <= i < |s.fifo| ==> InTable(s.table, s.fifo[i]);
    assert forall i :: 0 <= i < |s.lru| ==> InTable(s.table, s.lru[i]);
  }

  lemma EvictQueues(s: State, s': State, t: Thread)
    requires QueuesOK(s) && t.pinned in s.table && t.id !in s.table
    requires HasKey(if t.fromFifo then s.fifo else s.lru, t.pinned)
    requires s'.table == (s.table - {t.pinned})[t.id := t.slot]
    requires s'.fifo == Pushed(if t.fromFifo then Removed(s.fifo, t.pinned) else s.fifo, t.id, t.slot)
    requires s'.lru == if t.fromFifo then s.lru else Removed(s.lru, t.pinned)
    ensures QueuesOK(s')
  {
    UnbindQueues(s, t.pinned, t.fromFifo);
    hide QueuesOK, HasKey, Pushed, Removed;
    BindQueues(s.(table := s.table - {t.pinned}, fifo := if t.fromFifo then Removed(s.fifo, t.pinned) else s.fifo,
                  lru := if t.fromFifo then s.lru else Removed(s.lru, t.pinned)), s', t.id, t.slot);
  }

  lemma AnEntry(q: Entries, id: Id)
    ensures !HasKey(q, id) ==> forall e :: e in q ==> e.key != id
  {
  }

  lemma EvictTable(s: State, x: Tid)
    requires TableOK(s) && x in s.threads && s.threads[x].id !in s.table && s.threads[x].pinned in s.table
    requires s.table[s.threads[x].pinned] == s.threads[x].slot && SlotOK(s, s.threads[x])
    ensures TableOK(Evict(s, x))
  {
    hide Pushed, Removed;
  }

  lemma EvictPins(s: State, x: Tid)
    requires PinsOK(s) && x in s.threads && HasPin(s.threads[x]) && SlotOK(s, s.threads[x])
    ensures PinsOK(Evict(s, x))
  {
    var t := s.threads[x];
    PinnersSame(s.threads, x, t.(stage := Bound, pinned := t.id));
    hide Pinners, Pushed, Removed;
  }

  lemma EvictFacts(s: State, x: Tid)
    requires Inv(s) && Enabled(s, x, TakeOver)
    ensures TableOK(s) && QueuesOK(s) && PinsOK(s) && forall id :: ContentAt(s, id)
    ensures var t := s.threads[x];
            t.ex && HasPin(t) && t.pinned in s.table && s.table[t.pinned] == t.slot && t.slot < |s.pages| &&
            HasKey(if t.fromFifo then s.fifo else s.lru, t.pinned) && t.id !in s.table && !s.pages[t.slot].dirty
    ensures forall id :: id in s.table && s.table[id] == s.threads[x].slot ==> id == s.threads[x].pinned
    ensures forall y :: y in s.threads && y != x ==> !PinsSlot(s.threads[y], s.threads[x].slot)
  {
    InvParts(s, x);
    SlotOf(s, x);
    hide Inv, TableOK, QueuesOK, PinsOK, ContentAt, HasKey;
  }

  lemma EvictIs(s: State, x: Tid)
    requires Enabled(s, x, TakeOver)
    ensures x in s.threads && SlotOK(s, s.threads[x]) && Do(s, x, TakeOver) == Evict(s, x)
    ensures var t, s' := s.threads[x], Evict(s, x);
            t.stage == Clean && HoldsTable(t) && NoRole(t) && t.slot < |s.pages| == |s'.pages| &&
            s'.threads == s.threads[x := t.(stage := Bound, pinned := t.id)] &&
            s'.table == (s.table - {t.pinned})[t.id := t.slot] && s'.disk == s.disk && s'.current == s.current &&
            s'.fifo == Pushed(if t.fromFifo then Removed(s.fifo, t.pinned) else s.fifo, t.id, t.slot) &&
            s'.lru == (if t.fromFifo then s.lru else Removed(s.lru, t.pinned)) &&
            forall j :: 0 <= j < |s.pages| && j != t.slot ==> s'.pages[j] == s.pages[j]
  {
    hide Pushed, Removed, Position;
  }

  /** The eviction itself: by then the page has no other pin, is clean, and is still queued. */
  lemma TakeOverHolds(s: State, x: Tid)
    requires Inv(s) && Enabled(s, x, TakeOver)
    ensures Inv(Do(s, x, TakeOver))
  {
    hide *;
    EvictIs(s, x);
    EvictFacts(s, x);
    var t := s.threads[x];
    var t' := t.(stage := Bound, pinned := t.id);
    var s' := Evict(s, x);
    CleanIsOnDisk(s, x, t.pinned);
    EvictTable(s, x);
    EvictPins(s, x);
    EvictQueues(s, s', t);
    BindThreads(s, s', x, t', t.slot);
    BindContent(s, s', x, t', t.slot, {t.pinned});
    InvFrom(s, s', x, t');
  }

  /** A thread that still finds its pick evictable, with one pin, is the only one that has it pinned. */
  lemma SoleThread(s: State, x: Tid)
    requires Inv(s) && Enabled(s, x, Check) && MayEvict(s, s.threads[x])
    ensures ThreadOK(s, s.threads[x].(stage := Sole))
    ensures forall y :: y in s.threads && y != x ==> Compatible(s.threads[x].(stage := Sole), s.threads[y])
  {
    InvParts(s, x);
    var t := s.threads[x];
    PositionIff(if t.fromFifo then s.fifo else s.lru, t.pinned);
    hide Inv, TableOK, QueuesOK, ContentAt, HasKey;
    OnlyPinner(s, x);
  }

  lemma CheckHolds(s: State, x: Tid)
    requires Inv(s) && Enabled(s, x, Check)
    ensures Inv(Do(s, x, Check))
  {
    if MayEvict(s, s.threads[x]) {
      SoleThread(s, x);
      hide Inv, TableOK, QueuesOK, PinsOK, ThreadOK, Compatible, MayEvict;
      ThreadOnly(s, x, s.threads[x].(stage := Sole));
    } else {
      InvParts(s, x);
      hide Inv, TableOK, QueuesOK, PinsOK;
      ThreadOnly(s, x, s.threads[x].(stage := GiveUp));
    }
  }

  lemma CheckCleanHolds(s: State, x: Tid)
    requires Inv(s) && Enabled(s, x, CheckClean)
    ensures Inv(Do(s, x, CheckClean))
  {
    InvParts(s, x);
    var t := s.threads[x];
    hide Inv, TableOK, QueuesOK, PinsOK, HasKey;
    ThreadOnly(s, x, t.(stage := if s.pages[t.slot].dirty then GiveUp else Clean));
  }

  lemma LookUpHolds(s: State, x: Tid, i: Slot)
    requires Inv(s) && Enabled(s, x, LookUp(i))
    ensures Inv(Do(s, x, LookUp(i)))
  {
    hide Inv;
    var t := s.threads[x];
    if t.id in s.table {
      HitHolds(s, x, t.(stage := Counted, slot := s.table[t.id], pinned := t.id, first := s.pages[s.table[t.id]].pins + 1 == 1));
    } else if |s.table| < SLOTS && t.ex {
      TakeFreeHolds(s, x, i);
    } else {
      MissHolds(s, x);
    }
  }

  lemma MissHolds(s: State, x: Tid)
    requires Inv(s) && x in s.threads && s.threads[x].stage == Inside
    ensures Inv(Set(s, x, s.threads[x].(stage := Enter, ex := true)))
    ensures Inv(Set(s, x, s.threads[x].(stage := ScanFifo, index := |s.fifo|)))
  {
    InvParts(s, x);
    hide Inv, TableOK, QueuesOK, PinsOK;
    ThreadOnly(s, x, s.threads[x].(stage := Enter, ex := true));
    ThreadOnly(s, x, s.threads[x].(stage := ScanFifo, index := |s.fifo|));
  }

  // ---- every step, every run ------------------------------------------------------------------

  /** Every step keeps the invariant. */
  lemma StepHolds(s: State, x: Tid, step: Step)
    requires Inv(s) && Enabled(s, x, step)
    ensures Inv(Do(s, x, step))
  {
    hide Inv, Enabled, Do;
    match step
    case Begin(id, skip) => BeginHolds(s, x, id, skip);
    case LockTable => LockTableHolds(s, x);
    case LookUp(i) => LookUpHolds(s, x, i);
    case Settle => SettleHolds(s, x);
    case Scan => ScanHolds(s, x);
    case PinPicked => PinPickedHolds(s, x);
    case CheckDirty => CheckDirtyHolds(s, x);
    case ClearDirty => ClearDirtyHolds(s, x);
    case LockToSave => LockToSaveHolds(s, x);
    case Save => SaveHolds(s, x);
    case LockAgain => LockAgainHolds(s, x);
    case Check => CheckHolds(s, x);
    case CheckClean => CheckCleanHolds(s, x);
    case TakeOver => TakeOverHolds(s, x);
    case UnpinPicked => UnpinPickedHolds(s, x);
    case Fill => FillHolds(s, x);
    case Load => LoadHolds(s, x);
    case LockPage(exclusive) => LockPageHolds(s, x, exclusive);
    case Modify(data) => ModifyHolds(s, x, data);
    case Unpin(dirty) => UnpinHolds(s, x, dirty);
    case UnlockPage => UnlockPageHolds(s, x);
    case Drop => DropHolds(s, x);
  }
}
