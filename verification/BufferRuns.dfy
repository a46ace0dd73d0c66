/** The page buffer's guarantees over whole runs, for every number of threads and every
    interleaving of their steps. */
module BufferRuns {
  import opened Keys
  import opened Leaves
  import opened Queues
  import opened BufferSteps
  import opened BufferSafety

  // ---- counting slots -------------------------------------------------------------------------

  ghost function ResidentBelow(s: State, n: nat): set<Id> {
    set id | id in s.table && s.table[id] < n
  }

  ghost function FreeBelow(s: State, n: nat): set<Slot> {
    set i | i in s.free && i < n
  }

  lemma ResidentStep(s: State, n: nat)
    requires TableOK(s) && n < SLOTS
    ensures n in s.free ==> ResidentBelow(s, n + 1) == ResidentBelow(s, n) && FreeBelow(s, n + 1) == FreeBelow(s, n) + {n}
    ensures n !in s.free ==>
              s.pages[n].id !in ResidentBelow(s, n) && ResidentBelow(s, n + 1) == ResidentBelow(s, n) + {s.pages[n].id} &&
              FreeBelow(s, n + 1) == FreeBelow(s, n)
  {
    forall id | id in s.table ensures s.table[id] == n <==> (n !in s.free && id == s.pages[n].id) {
    }
    forall id ensures id in ResidentBelow(s, n + 1) <==> id in ResidentBelow(s, n) || (n !in s.free && id == s.pages[n].id) {
      if n !in s.free { assert s.pages[n].id in s.table; }
    }
  }

  lemma {:induction false} CountBelow(s: State, n: nat)
    requires TableOK(s) && n <= SLOTS
    ensures |ResidentBelow(s, n)| + |FreeBelow(s, n)| == n
  {
    if n == 0 {
      assert ResidentBelow(s, 0) == {} && FreeBelow(s, 0) == {};
    } else {
      CountBelow(s, n - 1);
      ResidentStep(s, n - 1);
      assert n - 1 !in FreeBelow(s, n - 1);
      hide TableOK;
    }
  }

  lemma AllBelow(s: State)
    requires TableOK(s)
    ensures ResidentBelow(s, SLOTS) == s.table.Keys && FreeBelow(s, SLOTS) == s.free
  {
    forall id ensures id in ResidentBelow(s, SLOTS) <==> id in s.table.Keys {
    }
  }

  /** Free slots and table slots partition the slots. */
  lemma Partition(s: State)
    requires Inv(s)
    ensures |s.table| + |s.free| == SLOTS
    ensures forall i :: 0 <= i < SLOTS ==> (i in s.free <==> !exists id :: id in s.table && s.table[id] == i)
    ensures forall a, b :: a in s.table && b in s.table && s.table[a] == s.table[b] ==> a == b
  {
    assert TableOK(s);
    hide Inv;
    CountBelow(s, SLOTS);
    AllBelow(s);
    forall i | 0 <= i < SLOTS && i !in s.free ensures exists id :: id in s.table && s.table[id] == i {
      assert s.pages[i].id in s.table;
    }
  }

  lemma FreeIsUnpinned(s: State, i: Slot)
    requires Inv(s) && i in s.free
    ensures i < |s.pages| && s.pages[i].pins == 0
  {
    assert forall x :: x in s.threads ==> ThreadOK(s, s.threads[x]);
    assert Pinners(s.threads, i) == {} by {
      forall x | x in s.threads ensures !PinsSlot(s.threads[x], i) {
        assert ThreadOK(s, s.threads[x]);
      }
    }
  }

  // ---- nothing the code takes for granted fails -----------------------------------------------

  lemma SettleSound(s: State, x: Tid)
    requires Inv(s) && Guard(s, x, Settle)
    ensures Sound(s, x, Settle)
  {
    InvParts(s, x);
    SlotOf(s, x);
    var t := s.threads[x];
    PositionIff(s.fifo, t.id);
    PositionIff(s.lru, t.id);
    PinCounted(s, x);
  }

  lemma PinCounted(s: State, x: Tid)
    requires PinsOK(s) && x in s.threads && HasPin(s.threads[x]) && s.threads[x].slot < |s.pages|
    ensures s.pages[s.threads[x].slot].pins >= 1
  {
    assert x in Pinners(s.threads, s.threads[x].slot);
  }

  lemma QueuedInRange(s: State, q: Entries, i: nat)
    requires TableOK(s) && QueuesOK(s) && (q == s.fifo || q == s.lru) && i < |q|
    ensures q[i].value < |s.pages|
  {
    var e := q[i];
    assert e in q;
    assert InTable(s.table, e);
    var k: Id := e.key;
    assert k in s.table && s.table[k] == q[i].value;
  }

  lemma ScanSound(s: State, x: Tid)
    requires Inv(s) && Guard(s, x, Scan)
    ensures Sound(s, x, Scan)
  {
    InvParts(s, x);
    var t := s.threads[x];
    hide Inv, PinsOK, ContentAt, Compatible;
    if t.index > 0 {
      QueuedInRange(s, QueueOf(s, t), t.index - 1);
    }
  }

  lemma LookUpSound(s: State, x: Tid, i: Slot)
    requires Inv(s) && Guard(s, x, LookUp(i))
    ensures Sound(s, x, LookUp(i))
  {
    InvParts(s, x);
    var t := s.threads[x];
    if t.id !in s.table && |s.table| < SLOTS && t.ex {
      Partition(s);
      assert s.free != {};
      FreeIsUnpinned(s, i);
    }
  }

  lemma PickedSound(s: State, x: Tid)
    requires Inv(s) && x in s.threads && (HasPin(s.threads[x]) || s.threads[x].stage == Picked)
    ensures SlotOK(s, s.threads[x]) && (HasPin(s.threads[x]) ==> s.pages[s.threads[x].slot].pins >= 1)
  {
    InvParts(s, x);
    if HasPin(s.threads[x]) { PinCounted(s, x); }
  }

  lemma FillSound(s: State, x: Tid)
    requires Inv(s) && Guard(s, x, Fill)
    ensures Sound(s, x, Fill)
  {
    InvParts(s, x);
    hide Inv, TableOK, QueuesOK, PinsOK, ContentAt;
  }

  /** Whenever a thread's turn comes, every assertion of the code holds: there is a free slot when
      the table is not full, a free slot is unpinned, a page found in the table is in one of the two
      queues, so that the fallback insertion is dead code, a counter is positive before it is
      decremented, and a page that has just been bound to a slot is locked without waiting. */
  lemma GuardIsEnough(s: State, x: Tid, step: Step)
    requires Inv(s) && Guard(s, x, step)
    ensures Sound(s, x, step)
  {
    match step
    case LookUp(i) => LookUpSound(s, x, i);
    case Settle => SettleSound(s, x);
    case Scan => ScanSound(s, x);
    case Fill => FillSound(s, x);
    case UnpinPicked => PickedSound(s, x);
    case Drop => PickedSound(s, x);
    case PinPicked => PickedSound(s, x);
    case CheckDirty => PickedSound(s, x);
    case ClearDirty => PickedSound(s, x);
    case Save => PickedSound(s, x);
    case Check => PickedSound(s, x);
    case CheckClean => PickedSound(s, x);
    case TakeOver => PickedSound(s, x);
    case Load => PickedSound(s, x);
    case Modify(_) => PickedSound(s, x);
    case Unpin(_) => PickedSound(s, x);
    case _ =>
  }

  // ---- runs -----------------------------------------------------------------------------------

  datatype Event = Event(thread: Tid, step: Step)

  ghost predicate Follows(s: State, e: Event, s': State) {
    Enabled(s, e.thread, e.step) && s' == Do(s, e.thread, e.step)
  }

  ghost predicate IsRun(states: seq<State>, events: seq<Event>) {
    && |states| == |events| + 1 && Init(states[0])
    && forall i :: 0 <= i < |events| ==> Follows(states[i], events[i], states[i + 1])
  }

  /** The invariant holds in every state of every run. */
  lemma {:induction false} RunsKeepInv(states: seq<State>, events: seq<Event>, i: nat)
    requires IsRun(states, events) && i < |states|
    ensures Inv(states[i])
  {
    hide Inv, Do, Enabled, Init;
    if i == 0 {
      InitHolds(states[0]);
    } else {
      RunsKeepInv(states, events, i - 1);
      assert Follows(states[i - 1], events[i - 1], states[i]);
      StepHolds(states[i - 1], events[i - 1].thread, events[i - 1].step);
    }
  }

  /** No dirty data is lost: in every state of every run, a page that is not resident is on disk
      as it was last written, although the table is unlocked while pages are saved. */
  lemma NothingLost(states: seq<State>, events: seq<Event>, i: nat, id: Id)
    requires IsRun(states, events) && i < |states| && id !in states[i].table
    ensures states[i].disk(id) == states[i].current(id)
  {
    RunsKeepInv(states, events, i);
    assert ContentAt(states[i], id);
  }

  /** Every client sees what was last written: the contents of a page that pinPage has returned,
      skipped loads aside, are the page's current contents, in the slot bound to its id. */
  lemma PinnedIsCurrent(states: seq<State>, events: seq<Event>, i: nat, x: Tid)
    requires IsRun(states, events) && i < |states| && x in states[i].threads
    requires states[i].threads[x].stage == Holding && !states[i].threads[x].raw
    ensures var s, t := states[i], states[i].threads[x];
            t.id in s.table && s.table[t.id] == t.slot < |s.pages| &&
            s.pages[t.slot].id == t.id && s.pages[t.slot].data == s.current(t.id)
  {
    RunsKeepInv(states, events, i);
    var s := states[i];
    InvParts(s, x);
    SlotOf(s, x);
    NobodyFills(s, x);
    assert ContentAt(s, s.threads[x].id);
  }

  lemma OthersUntouched(s: State, x: Tid, step: Step, y: Tid)
    requires Enabled(s, x, step) && y in s.threads && y != x
    ensures var s' := Do(s, x, step); y in s'.threads && s'.threads[y] == s.threads[y]
  {
    hide Pushed, Removed, MovedToFront, Position, Guard, Sound, MayEvict, Put;
    match step
    case LookUp(i) => OthersAtLookUp(s, x, i, y);
    case Settle => OthersAtSettle(s, x, y);
    case Scan => OthersAtScan(s, x, y);
    case _ =>
  }

  lemma OthersAtLookUp(s: State, x: Tid, i: Slot, y: Tid)
    requires Enabled(s, x, LookUp(i)) && y in s.threads && y != x
    ensures var s' := DoLookUp(s, x, i); y in s'.threads && s'.threads[y] == s.threads[y]
  {
    hide Pushed;
  }

  lemma OthersAtSettle(s: State, x: Tid, y: Tid)
    requires Enabled(s, x, Settle) && y in s.threads && y != x
    ensures var s' := DoSettle(s, x); y in s'.threads && s'.threads[y] == s.threads[y]
  {
    hide Pushed, Removed, MovedToFront, Position;
  }

  lemma OthersAtScan(s: State, x: Tid, y: Tid)
    requires Enabled(s, x, Scan) && y in s.threads && y != x
    ensures var s' := DoScan(s, x); y in s'.threads && s'.threads[y] == s.threads[y]
  {
  }

  /** No step evicts a page that another thread has pinned: it stays in its slot. */
  lemma PinProtects(states: seq<State>, events: seq<Event>, i: nat, y: Tid)
    requires IsRun(states, events) && i < |events| && y in states[i].threads && y != events[i].thread
    requires HasPin(states[i].threads[y])
    ensures var t := states[i].threads[y];
            t.pinned in states[i].table && states[i].table[t.pinned] == t.slot &&
            t.pinned in states[i + 1].table && states[i + 1].table[t.pinned] == t.slot
  {
    RunsKeepInv(states, events, i);
    RunsKeepInv(states, events, i + 1);
    assert Follows(states[i], events[i], states[i + 1]);
    OthersUntouched(states[i], events[i].thread, events[i].step, y);
    InvParts(states[i], y);
    InvParts(states[i + 1], y);
  }

  /** Two clients never hold one page at the same time if one of them may write it. */
  lemma WritersExclude(states: seq<State>, events: seq<Event>, i: nat, x: Tid, y: Tid)
    requires IsRun(states, events) && i < |states| && x in states[i].threads && y in states[i].threads && x != y
    requires states[i].threads[x].stage == Holding && states[i].threads[y].stage == Holding
    requires states[i].threads[x].id == states[i].threads[y].id
    ensures !states[i].threads[x].excl && !states[i].threads[y].excl
  {
    RunsKeepInv(states, events, i);
    var s := states[i];
    InvParts(s, x);
    SlotOf(s, x);
    InvParts(s, y);
    SlotOf(s, y);
  }

  /** Readers share a page: a thread that wants to read what another one reads gets it at once. */
  lemma ReadersShare(states: seq<State>, events: seq<Event>, i: nat, x: Tid, y: Tid)
    requires IsRun(states, events) && i < |states| && x in states[i].threads && y in states[i].threads && x != y
    requires states[i].threads[x].stage == Want && !states[i].threads[x].raw
    requires states[i].threads[y].stage == Holding && !states[i].threads[y].excl
    requires states[i].threads[x].id == states[i].threads[y].id
    ensures Enabled(states[i], x, LockPage(false))
    ensures var s' := Do(states[i], x, LockPage(false));
            s'.threads[x].stage == s'.threads[y].stage == Holding && s'.threads[x].slot == s'.threads[y].slot
  {
    RunsKeepInv(states, events, i);
    var s := states[i];
    SlotOf(s, x);
    SlotOf(s, y);
    InvParts(s, y);
  }

  /** Look-ups share the table: a thread that asks for it in shared mode gets it at once while another
      one has it in shared mode. */
  lemma LookUpsShare(states: seq<State>, events: seq<Event>, i: nat, x: Tid, y: Tid)
    requires IsRun(states, events) && i < |states| && x in states[i].threads && y in states[i].threads && x != y
    requires states[i].threads[x].stage == Enter && !states[i].threads[x].ex
    requires HoldsTable(states[i].threads[y]) && !states[i].threads[y].ex
    ensures Enabled(states[i], x, LockTable)
    ensures var s' := Do(states[i], x, LockTable); HoldsTable(s'.threads[x]) && HoldsTable(s'.threads[y])
  {
    RunsKeepInv(states, events, i);
    InvParts(states[i], y);
  }

  /** The third case of a first pin, a page in neither queue, never occurs in a run. */
  lemma FallbackIsDead(states: seq<State>, events: seq<Event>, i: nat, id: Id)
    requires IsRun(states, events) && i < |states| && id in states[i].table
    ensures HasKey(states[i].fifo, id) <==> !HasKey(states[i].lru, id)
  {
    RunsKeepInv(states, events, i);
  }

  // ---- what is written back -------------------------------------------------------------------

  /** What a step does to the dirty flag of a slot: unpinPage raises it on request, the eviction clears
      it before it saves the page, and a page that comes in is clean. */
  ghost predicate FlagStep(s: State, x: Tid, step: Step, s': State, i: Slot) {
    x in s.threads && i < |s.pages| == |s'.pages| &&
    var t, p, p' := s.threads[x], s.pages[i], s'.pages[i];
    if step.Unpin? && t.slot == i then p'.id == p.id && p'.dirty == (p.dirty || step.dirty)
    else if step.ClearDirty? && t.slot == i then !p'.dirty
    else if p'.id != p.id || (i in s.free && i !in s'.free) then !p'.dirty
    else p'.dirty == p.dirty
  }

  lemma FlagsAtStep(s: State, x: Tid, step: Step, i: Slot)
    requires Inv(s) && Enabled(s, x, step) && i < |s.pages|
    ensures FlagStep(s, x, step, Do(s, x, step), i)
  {
    hide *;
    match step
    case LookUp(j) => FlagsAtLookUp(s, x, j, i);
    case Settle => FlagsAtSettle(s, x, i);
    case Scan => FlagsAtScan(s, x, i);
    case TakeOver => FlagsAtTakeOver(s, x, i);
    case _ => FlagsAtOther(s, x, step, i);
  }

  lemma FlagsAtLookUp(s: State, x: Tid, j: Slot, i: Slot)
    requires Enabled(s, x, LookUp(j)) && i < |s.pages|
    ensures FlagStep(s, x, LookUp(j), Do(s, x, LookUp(j)), i)
  {
    hide Pushed, Position;
  }

  lemma FlagsAtSettle(s: State, x: Tid, i: Slot)
    requires Enabled(s, x, Settle) && i < |s.pages|
    ensures FlagStep(s, x, Settle, Do(s, x, Settle), i)
  {
    hide Pushed, Position, Removed, MovedToFront;
  }

  lemma FlagsAtScan(s: State, x: Tid, i: Slot)
    requires Enabled(s, x, Scan) && i < |s.pages|
    ensures FlagStep(s, x, Scan, Do(s, x, Scan), i)
  {
  }

  lemma FlagsAtTakeOver(s: State, x: Tid, i: Slot)
    requires Inv(s) && Enabled(s, x, TakeOver) && i < |s.pages|
    ensures FlagStep(s, x, TakeOver, Do(s, x, TakeOver), i)
  {
    hide *;
    EvictIs(s, x);
    EvictFacts(s, x);
    EvictedClean(s, x);
    SlotId(s, x);
    hide Evict, Do;
    FlagStepAs(s, x, TakeOver, Do(s, x, TakeOver), i);
  }

  lemma EvictedClean(s: State, x: Tid)
    requires x in s.threads && SlotOK(s, s.threads[x])
    ensures s.threads[x].slot < |Evict(s, x).pages| && !Evict(s, x).pages[s.threads[x].slot].dirty && Evict(s, x).free == s.free
    ensures Evict(s, x).pages[s.threads[x].slot].id == s.threads[x].id
  {
    hide Pushed, Removed;
  }

  lemma SlotId(s: State, x: Tid)
    requires Inv(s) && x in s.threads && HasPin(s.threads[x])
    ensures s.threads[x].slot < |s.pages| && s.pages[s.threads[x].slot].id in s.table
  {
    SlotOf(s, x);
    hide Inv;
  }

  lemma FlagStepAs(s: State, x: Tid, step: Step, s': State, i: Slot)
    requires x in s.threads && i < |s.pages| == |s'.pages| && !step.Unpin? && !step.ClearDirty? && s'.free == s.free
    requires if s.threads[x].slot == i then s'.pages[i].id != s.pages[i].id && !s'.pages[i].dirty else s'.pages[i] == s.pages[i]
    ensures FlagStep(s, x, step, s', i)
  {
  }

  lemma FlagsAtOther(s: State, x: Tid, step: Step, i: Slot)
    requires Enabled(s, x, step) && i < |s.pages| && !step.LookUp? && !step.Settle? && !step.Scan? && !step.TakeOver?
    ensures FlagStep(s, x, step, Do(s, x, step), i)
  {
    hide Guard, DoLookUp, DoSettle, DoScan, Evict, MayEvict, Put, PageFree;
  }

  /** All that ever happens to a dirty flag. */
  lemma DirtyFlags(states: seq<State>, events: seq<Event>, n: nat, i: Slot)
    requires IsRun(states, events) && n < |events| && i < |states[n].pages|
    ensures FlagStep(states[n], events[n].thread, events[n].step, states[n + 1], i)
  {
    RunsKeepInv(states, events, n);
    RunStep(states, events, n);
    hide *;
    FlagsAtStep(states[n], events[n].thread, events[n].step, i);
  }

  /** Step `k` has unpinned page `id` as dirty. */
  ghost predicate Marked(states: seq<State>, events: seq<Event>, k: nat, id: Id) {
    k < |events| && k < |states| && events[k].step == Unpin(true) && events[k].thread in states[k].threads &&
    states[k].threads[events[k].thread].pinned == id
  }

  /** A resident page is marked as dirty only if somebody has unpinned it as dirty. */
  lemma {:induction false} DirtyWasUnpinned(states: seq<State>, events: seq<Event>, j: nat, i: Slot) returns (k: nat)
    requires IsRun(states, events) && j < |states| && i < |states[j].pages| && i !in states[j].free && states[j].pages[i].dirty
    ensures k < j && Marked(states, events, k, states[j].pages[i].id)
  {
    hide *;
    FreeAtStart(states, events);
    if j == 0 {
      assert false;
    } else {
      var s, x, step := states[j - 1], events[j - 1].thread, events[j - 1].step;
      RunStep(states, events, j - 1);
      RunsKeepInv(states, events, j - 1);
      DirtyStep(s, x, step, i);
      if step.Unpin? && s.threads[x].slot == i && step.dirty {
        k := j - 1;
        MarkedNow(states, events, k, x, states[j].pages[i].id);
      } else {
        k := DirtyWasUnpinned(states, events, j - 1, i);
      }
    }
  }

  lemma FreeAtStart(states: seq<State>, events: seq<Event>)
    requires IsRun(states, events)
    ensures |states| == |events| + 1 && forall i :: 0 <= i < |states[0].pages| ==> i in states[0].free
  {
  }

  lemma MarkedNow(states: seq<State>, events: seq<Event>, k: nat, x: Tid, id: Id)
    requires k < |events| && k < |states| && events[k].thread == x && events[k].step.Unpin? && events[k].step.dirty
    requires x in states[k].threads && states[k].threads[x].pinned == id
    ensures Marked(states, events, k, id)
  {
  }

  lemma DirtyStep(s: State, x: Tid, step: Step, i: Slot)
    requires Inv(s) && Enabled(s, x, step)
    requires var s' := Do(s, x, step); i < |s'.pages| && i !in s'.free && s'.pages[i].dirty
    ensures x in s.threads && i < |s.pages| && Do(s, x, step).pages[i].id == s.pages[i].id
    ensures step.Unpin? && s.threads[x].slot == i && step.dirty ==> s.threads[x].pinned == s.pages[i].id
    ensures (step.Unpin? && s.threads[x].slot == i && step.dirty) || (s.pages[i].dirty && i !in s.free)
  {
    PagesStay(s, x, step);
    FlagsAtStep(s, x, step, i);
    if step.Unpin? {
      hide Inv, Do;
      SlotOf(s, x);
    }
  }

  lemma PagesStay(s: State, x: Tid, step: Step)
    requires Enabled(s, x, step)
    ensures |Do(s, x, step).pages| == |s.pages| && x in s.threads
  {
    hide MayEvict, Put, Position, Removed, MovedToFront, Pushed;
  }

  /** The disk is only written for a page that somebody has unpinned as dirty. */
  lemma SavesAreDue(states: seq<State>, events: seq<Event>, i: nat, id: Id)
    requires IsRun(states, events) && i < |events| && states[i + 1].disk(id) != states[i].disk(id)
    ensures exists k :: 0 <= k < i && Marked(states, events, k, id)
  {
    var s, x, step := states[i], events[i].thread, events[i].step;
    RunStep(states, events, i);
    RunsKeepInv(states, events, i);
    DiskAtStep(s, x, step, id);
    SlotOf(s, x);
    hide Do, Enabled, Inv;
    var j := SaverSawDirty(states, events, i, x);
    RunsKeepInv(states, events, j);
    PinnedSlot(states[j], x);
    var k := DirtyWasUnpinned(states, events, j, states[j].threads[x].slot);
  }

  lemma DiskAtStep(s: State, x: Tid, step: Step, id: Id)
    requires Enabled(s, x, step) && Do(s, x, step).disk(id) != s.disk(id)
    ensures x in s.threads && s.threads[x].stage == Saving && SlotOK(s, s.threads[x]) && s.pages[s.threads[x].slot].id == id
  {
    hide MayEvict, Position, Removed, MovedToFront, Pushed;
  }

  lemma PinnedSlot(s: State, x: Tid)
    requires Inv(s) && x in s.threads && HasPin(s.threads[x])
    ensures var t := s.threads[x]; t.slot < |s.pages| && t.slot !in s.free && s.pages[t.slot].id == t.pinned
  {
    SlotOf(s, x);
    Partition(s);
    hide Inv;
  }

  /** A thread that is about to save a page has seen it dirty, with a pin of its own. */
  lemma {:induction false} SaverSawDirty(states: seq<State>, events: seq<Event>, i: nat, x: Tid) returns (j: nat)
    requires IsRun(states, events) && i < |states| && x in states[i].threads && Saves(states[i].threads[x])
    ensures j < i && x in states[j].threads && HasPin(states[j].threads[x]) && states[j].threads[x].pinned == states[i].threads[x].pinned
    ensures SlotOK(states[j], states[j].threads[x]) && states[j].pages[states[j].threads[x].slot].dirty
  {
    hide *;
    FreeAtStart(states, events);
    if i == 0 {
      NobodySaves(states, events, x);
      assert false;
    } else {
      var s, y, step := states[i - 1], events[i - 1].thread, events[i - 1].step;
      RunStep(states, events, i - 1);
      ThreadsStay(s, y, step);
      SavesAtStep(s, y, step, x);
      if step.CheckDirty? && y == x {
        j := i - 1;
      } else {
        j := SaverSawDirty(states, events, i - 1, x);
      }
    }
  }

  lemma NobodySaves(states: seq<State>, events: seq<Event>, x: Tid)
    requires IsRun(states, events)
    ensures |states| > 0 && (x in states[0].threads ==> !Saves(states[0].threads[x]))
  {
  }

  predicate Saves(t: Thread) { t.stage.Cleaning? || t.stage.Cleared? || t.stage.Saving? }

  lemma SavesAtStep(s: State, y: Tid, step: Step, x: Tid)
    requires Enabled(s, y, step) && x in s.threads
    requires var s' := Do(s, y, step); x in s'.threads && Saves(s'.threads[x])
    ensures s.threads[x].pinned == Do(s, y, step).threads[x].pinned
    ensures if step.CheckDirty? && y == x then HasPin(s.threads[x]) && SlotOK(s, s.threads[x]) && s.pages[s.threads[x].slot].dirty
            else Saves(s.threads[x])
  {
    hide *;
    if x != y {
      OthersUntouched(s, y, step, x);
    } else {
      match step
      case LookUp(i) => LookUpSavesNot(s, x, i);
      case Settle => SettleSavesNot(s, x);
      case Scan => ScanSavesNot(s, x);
      case TakeOver => TakeOverSavesNot(s, x);
      case _ => OtherSaves(s, x, step);
    }
  }

  lemma LookUpSavesNot(s: State, x: Tid, i: Slot)
    requires Enabled(s, x, LookUp(i))
    ensures var s' := Do(s, x, LookUp(i)); x in s'.threads && !Saves(s'.threads[x])
  {
    assert Do(s, x, LookUp(i)) == DoLookUp(s, x, i) && x in s.threads;
    var t := s.threads[x];
    assert t.id in s.table ==> s.table[t.id] < |s.pages|;
    assert t.id !in s.table && |s.table| < SLOTS && t.ex ==> i < |s.pages|;
    hide Do, Enabled, Guard, Sound, Pushed, Position;
    if t.id in s.table {
      assert DoLookUp(s, x, i).threads[x].stage == Counted;
    } else if |s.table| >= SLOTS {
      assert DoLookUp(s, x, i).threads[x].stage == ScanFifo;
    }
  }

  lemma SettleSavesNot(s: State, x: Tid)
    requires Enabled(s, x, Settle)
    ensures var s' := Do(s, x, Settle); x in s'.threads && !Saves(s'.threads[x])
  {
    hide Pushed, Position, Removed, MovedToFront;
  }

  lemma ScanSavesNot(s: State, x: Tid)
    requires Enabled(s, x, Scan)
    ensures var s' := Do(s, x, Scan); x in s'.threads && !Saves(s'.threads[x])
  {
    assert Do(s, x, Scan) == DoScan(s, x);
    hide Do;
    ScanKeepsScanning(s, x);
  }

  lemma ScanKeepsScanning(s: State, x: Tid)
    requires Enabled(s, x, Scan)
    ensures x in DoScan(s, x).threads && !Saves(DoScan(s, x).threads[x])
  {
    var t := s.threads[x];
    assert t.stage.ScanFifo? || t.stage.ScanLru?;
    assert t.index > 0 ==> t.index <= |QueueOf(s, t)| && QueueOf(s, t)[t.index - 1].value < |s.pages|;
    hide Enabled, QueueOf;
    if t.index > 0 && s.pages[QueueOf(s, t)[t.index - 1].value].pins != 0 {
      assert DoScan(s, x).threads[x].stage == t.stage;
    }
  }

  lemma TakeOverSavesNot(s: State, x: Tid)
    requires Enabled(s, x, TakeOver)
    ensures var s' := Do(s, x, TakeOver); x in s'.threads && !Saves(s'.threads[x])
  {
    hide Pushed, Position, Removed;
  }

  lemma OtherSaves(s: State, x: Tid, step: Step)
    requires Enabled(s, x, step) && !step.LookUp? && !step.Settle? && !step.Scan? && !step.TakeOver?
    requires var s' := Do(s, x, step); x in s'.threads && Saves(s'.threads[x])
    ensures x in s.threads && s.threads[x].pinned == Do(s, x, step).threads[x].pinned
    ensures if step.CheckDirty? then HasPin(s.threads[x]) && SlotOK(s, s.threads[x]) && s.pages[s.threads[x].slot].dirty
            else Saves(s.threads[x])
  {
    hide DoLookUp, DoSettle, DoScan, Evict, MayEvict, Put;
  }

  // ---- the 2Q policy --------------------------------------------------------------------------

  /** A resident page comes to the front of the LRU queue, and no other entry moves. */
  ghost predicate MovedUp(s: State, id: Id, s': State) {
    id in s.table && s'.table == s.table &&
    s'.fifo == Others(s.fifo, id) && s'.lru == [Entry(id, s.table[id])] + Others(s.lru, id)
  }

  /** A page comes in front of the FIFO queue in a slot that was free. */
  ghost predicate CameIn(s: State, id: Id, i: Slot, s': State) {
    id !in s.table && i in s.free && s'.table == s.table[id := i] && s'.fifo == [Entry(id, i)] + s.fifo && s'.lru == s.lru
  }

  /** A page comes in front of the FIFO queue in the slot of a page that leaves both queues. */
  ghost predicate Replaced(s: State, id: Id, victim: Id, s': State) {
    id !in s.table && victim in s.table && s'.table == (s.table - {victim})[id := s.table[victim]] &&
    s'.fifo == [Entry(id, s.table[victim])] + Others(s.fifo, victim) && s'.lru == Others(s.lru, victim)
  }

  ghost predicate SameTable(s: State, s': State) {
    s'.table == s.table && s'.fifo == s.fifo && s'.lru == s.lru
  }

  lemma SettleMoves(s: State, x: Tid)
    requires Inv(s) && Enabled(s, x, Settle)
    ensures var t, s' := s.threads[x], DoSettle(s, x);
            x in s'.threads && t.id in s.table && s.table[t.id] == t.slot &&
            s'.threads[x].stage == (if t.first && !t.ex then Enter else Want) &&
            if t.first && t.ex then MovedUp(s, t.id, s') else SameTable(s, s')
  {
    InvParts(s, x);
    SlotOf(s, x);
    var t := s.threads[x];
    hide Inv, TableOK, PinsOK, ContentAt, Others;
    PositionIff(s.fifo, t.id);
    PositionIff(s.lru, t.id);
    MovesKeepOthers(s.fifo, t.id);
    MovesKeepOthers(s.lru, t.id);
    QueuedEntry(s, s.lru, Position(s.lru, t.id));
    hide HasKey, Removed, MovedToFront;
  }

  lemma QueuedEntry(s: State, q: Entries, i: nat)
    requires QueuesOK(s) && (q == s.fifo || q == s.lru)
    ensures i < |q| ==> q[i].key in s.table && q[i] == Entry(q[i].key, s.table[q[i].key])
  {
    if i < |q| {
      assert q[i] in q && InTable(s.table, q[i]);
      EntryEta(q[i]);
    }
  }

  lemma EvictMoves(s: State, x: Tid)
    requires Inv(s) && Enabled(s, x, TakeOver)
    ensures Replaced(s, s.threads[x].id, s.threads[x].pinned, Do(s, x, TakeOver))
  {
    hide *;
    EvictIs(s, x);
    EvictFacts(s, x);
    var t := s.threads[x];
    UniqueQueues(s);
    MovesKeepOthers(s.fifo, t.pinned);
    MovesKeepOthers(s.lru, t.pinned);
    OneQueue(s, t.pinned);
    ReplacedFrom(s, t.id, t.pinned, t.fromFifo, Evict(s, x));
  }

  lemma UniqueQueues(s: State)
    requires QueuesOK(s)
    ensures UniqueKeys(s.fifo) && UniqueKeys(s.lru)
  {
  }

  lemma OneQueue(s: State, id: Id)
    requires QueuesOK(s) && id in s.table
    ensures HasKey(s.fifo, id) <==> !HasKey(s.lru, id)
  {
    hide HasKey;
  }

  lemma ReplacedFrom(s: State, id: Id, victim: Id, fromFifo: bool, s': State)
    requires id !in s.table && victim in s.table && s'.table == (s.table - {victim})[id := s.table[victim]]
    requires s'.fifo == Pushed(if fromFifo then Others(s.fifo, victim) else s.fifo, id, s.table[victim])
    requires s'.lru == if fromFifo then s.lru else Others(s.lru, victim)
    requires if fromFifo then Others(s.lru, victim) == s.lru else Others(s.fifo, victim) == s.fifo
    ensures Replaced(s, id, victim, s')
  {
    hide Others;
  }

  lemma LookUpMoves(s: State, x: Tid, i: Slot)
    requires Inv(s) && Enabled(s, x, LookUp(i))
    ensures var t, s' := s.threads[x], Do(s, x, LookUp(i)); SameTable(s, s') || CameIn(s, t.id, i, s')
  {
    hide Inv;
  }

  /** The steps that leave table and queues as they are. */
  lemma OtherStepsMoveNothing(s: State, x: Tid, step: Step)
    requires Enabled(s, x, step) && !step.LookUp? && !step.Settle? && !step.TakeOver?
    ensures SameTable(s, Do(s, x, step))
  {
    hide Guard, Sound, MayEvict, Put, Evict, DoSettle, DoLookUp;
    if step.Scan? { TableAtScan(s, x); }
  }

  /** All that ever happens to table and queues: a first pin moves its page to the front of the LRU
      queue, and a page that comes in goes to the front of the FIFO queue, into a free slot or into
      that of the one page that leaves. Everything else keeps its place. */
  lemma QueuesFollow2Q(states: seq<State>, events: seq<Event>, i: nat)
    requires IsRun(states, events) && i < |events|
    ensures var s, s' := states[i], states[i + 1];
            SameTable(s, s') || (exists id :: MovedUp(s, id, s')) || (exists id, slot :: CameIn(s, id, slot, s')) ||
            exists id, victim :: Replaced(s, id, victim, s')
  {
    RunsKeepInv(states, events, i);
    RunStep(states, events, i);
    var s, x, step := states[i], events[i].thread, events[i].step;
    hide IsRun, Inv, MovedUp, CameIn, Replaced, SameTable, Enabled, Do;
    match step
    case LookUp(slot) => LookUpMoves(s, x, slot);
    case Settle =>
      SettleMoves(s, x);
      SettleIs(s, x);
    case TakeOver => EvictMoves(s, x);
    case _ => OtherStepsMoveNothing(s, x, step);
  }

  lemma SettleIs(s: State, x: Tid)
    requires Enabled(s, x, Settle)
    ensures Do(s, x, Settle) == DoSettle(s, x)
  {
    hide DoSettle;
  }

  /** The thread has counted its pin at state `j + 1` and not settled it before state `i`. */
  ghost predicate CountedUntil(states: seq<State>, j: nat, i: nat, x: Tid) {
    j < i < |states| && forall k :: j < k <= i ==> x in states[k].threads && states[k].threads[x].stage == Counted
  }

  lemma {:induction false} CountedSame(states: seq<State>, events: seq<Event>, j: nat, i: nat, x: Tid)
    requires IsRun(states, events) && CountedUntil(states, j, i, x)
    ensures states[i].threads[x] == states[j + 1].threads[x]
    decreases i
  {
    hide *;
    CountedNow(states, j, i, x);
    if i > j + 1 {
      CountedBefore(states, j, i, x);
      RunLength(states, events);
      CountedSame(states, events, j, i - 1, x);
      RunStep(states, events, i - 1);
      CountedMoves(states[i - 1], events[i - 1].thread, events[i - 1].step, x);
    }
  }

  lemma CountedBefore(states: seq<State>, j: nat, i: nat, x: Tid)
    requires CountedUntil(states, j, i, x) && i > j + 1
    ensures CountedUntil(states, j, i - 1, x) && x in states[i - 1].threads && states[i - 1].threads[x].stage == Counted
  {
  }

  /** A thread that has counted its pin settles it next. */
  lemma CountedMoves(s: State, y: Tid, step: Step, x: Tid)
    requires Enabled(s, y, step) && x in s.threads && s.threads[x].stage == Counted
    ensures x in Do(s, y, step).threads
    ensures y != x ==> Do(s, y, step).threads[x] == s.threads[x]
    ensures y == x ==> step == Settle && Do(s, y, step).threads[x].stage != Counted
  {
    if y != x {
      OthersUntouched(s, y, step, x);
    } else {
      assert step == Settle;
      hide Pushed, Removed, MovedToFront, Position, WithPins;
    }
  }

  lemma HitIs(s: State, x: Tid, freeSlot: Slot)
    requires Enabled(s, x, LookUp(freeSlot)) && s.threads[x].id in s.table
    ensures var t, s', i := s.threads[x], Do(s, x, LookUp(freeSlot)), s.table[s.threads[x].id];
            i < |s.pages| && s'.pages == s.pages[i := s.pages[i].(pins := s.pages[i].pins + 1)] && x in s'.threads &&
            var t' := s'.threads[x];
            t'.id == t.id && t'.ex == t.ex && t'.slot == i && (t'.first <==> s.pages[i].pins == 0)
  {
  }

  /** A hit, from the step that counts the pin to the step that settles it: if the counter was zero
      and the table is locked exclusively, the page goes to the front of the LRU queue and to no
      other place; if it was zero under a shared lock, the thread starts again; otherwise no entry
      moves. */
  lemma HitMovesPage(states: seq<State>, events: seq<Event>, j: nat, i: nat, x: Tid)
    requires IsRun(states, events) && j < i < |events| && events[j].thread == x && events[j].step.LookUp?
    requires x in states[j].threads && states[j].threads[x].id in states[j].table
    requires CountedUntil(states, j, i, x) && x in states[i + 1].threads && states[i + 1].threads[x].stage != Counted
    ensures var s, s', t := states[i], states[i + 1], states[j].threads[x];
            var slot := states[j].table[t.id];
            slot < |states[j].pages| == |states[j + 1].pages| &&
            var pins := states[j].pages[slot].pins;
            states[j + 1].pages[slot].pins == pins + 1 &&
            s'.threads[x].stage == (if pins == 0 && !t.ex then Enter else Want) &&
            if pins == 0 && t.ex
            then t.id in s.table && s.table[t.id] == slot && s'.lru == [Entry(t.id, slot)] + Others(s.lru, t.id) &&
                 s'.fifo == Others(s.fifo, t.id) && !HasKey(s'.fifo, t.id)
            else s'.fifo == s.fifo && s'.lru == s.lru
  {
    hide *;
    RunLength(states, events);
    RunStep(states, events, j);
    RunStep(states, events, i);
    RunsKeepInv(states, events, i);
    HitIs(states[j], x, events[j].step.freeSlot);
    CountedSame(states, events, j, i, x);
    CountedNow(states, j, i, x);
    CountedMoves(states[i], events[i].thread, events[i].step, x);
    SettleIs(states[i], x);
    SettleMoves(states[i], x);
    MovedUpParts(states[i], states[i].threads[x].id, states[i + 1]);
    InvQueues(states[i]);
    MovesKeepOthers(states[i].fifo, states[i].threads[x].id);
  }

  lemma InvQueues(s: State)
    requires Inv(s)
    ensures UniqueKeys(s.fifo) && UniqueKeys(s.lru)
  {
  }

  lemma CountedNow(states: seq<State>, j: nat, i: nat, x: Tid)
    requires CountedUntil(states, j, i, x)
    ensures j < i < |states| && x in states[i].threads && states[i].threads[x].stage == Counted
  {
  }

  lemma MovedUpParts(s: State, id: Id, s': State)
    ensures MovedUp(s, id, s') ==>
              id in s.table && s'.fifo == Others(s.fifo, id) && s'.lru == [Entry(id, s.table[id])] + Others(s.lru, id)
    ensures SameTable(s, s') ==> s'.fifo == s.fifo && s'.lru == s.lru
  {
    hide Others;
  }

  // ---- a full buffer --------------------------------------------------------------------------

  /** The thread has kept its table lock from state `m` to state `i`. */
  ghost predicate Held(states: seq<State>, x: Tid, m: nat, i: nat) {
    m <= i < |states| && forall r :: m <= r <= i ==> x in states[r].threads && HoldsTable(states[r].threads[x])
  }

  /** The slot has been pinned at some moment since the thread locked the table. */
  ghost predicate SeenPinned(states: seq<State>, x: Tid, slot: Slot, i: nat) {
    exists m: nat :: Held(states, x, m, i) && slot < |states[m].pages| && states[m].pages[slot].pins > 0
  }

  ghost predicate AllSeen(states: seq<State>, x: Tid, q: Entries, from: nat, i: nat) {
    forall k :: from <= k < |q| ==> SeenPinned(states, x, q[k].value, i)
  }

  /** What a scanning thread knows: the id is absent, the table is full, and every entry it has
      passed has been pinned. */
  ghost predicate ScanKnows(states: seq<State>, x: Tid, i: nat)
    requires i < |states|
  {
    var s := states[i];
    x in s.threads &&
    var t := s.threads[x];
    (t.stage.ScanFifo? || t.stage.ScanLru? || t.stage.Full? ==> t.id !in s.table && |s.table| >= SLOTS) &&
    (t.stage.ScanFifo? ==> AllSeen(states, x, s.fifo, t.index, i)) &&
    (t.stage.ScanLru? ==> AllSeen(states, x, s.fifo, 0, i) && AllSeen(states, x, s.lru, t.index, i)) &&
    (t.stage.Full? ==> AllSeen(states, x, s.fifo, 0, i) && AllSeen(states, x, s.lru, 0, i))
  }

  lemma StillSeen(states: seq<State>, x: Tid, slot: Slot, i: nat)
    requires SeenPinned(states, x, slot, i) && i + 1 < |states|
    requires x in states[i + 1].threads && HoldsTable(states[i + 1].threads[x])
    ensures SeenPinned(states, x, slot, i + 1)
  {
    hide HoldsTable;
    var m: nat :| Held(states, x, m, i) && slot < |states[m].pages| && states[m].pages[slot].pins > 0;
    assert Held(states, x, m, i + 1);
  }

  lemma StillAllSeen(states: seq<State>, x: Tid, q: Entries, from: nat, i: nat)
    requires AllSeen(states, x, q, from, i) && i + 1 < |states|
    requires x in states[i + 1].threads && HoldsTable(states[i + 1].threads[x])
    ensures AllSeen(states, x, q, from, i + 1)
  {
    hide HoldsTable, SeenPinned;
    forall k | from <= k < |q| ensures SeenPinned(states, x, q[k].value, i + 1) {
      StillSeen(states, x, q[k].value, i);
    }
  }

  lemma TableKept(s: State, x: Tid, step: Step)
    requires Enabled(s, x, step) && !(HoldsTable(s.threads[x]) && s.threads[x].ex)
    requires !step.TakeOver?
    ensures var s' := Do(s, x, step); s'.table == s.table && s'.fifo == s.fifo && s'.lru == s.lru
  {
    hide Pushed, Removed, MovedToFront, Position, MayEvict, Put;
    match step
    case LookUp(i) => TableAtLookUp(s, x, i);
    case Settle => TableAtSettle(s, x);
    case Scan => TableAtScan(s, x);
    case _ =>
  }

  lemma TableAtLookUp(s: State, x: Tid, i: Slot)
    requires Enabled(s, x, LookUp(i)) && !s.threads[x].ex
    ensures var s' := DoLookUp(s, x, i); s'.table == s.table && s'.fifo == s.fifo && s'.lru == s.lru
  {
    hide Pushed;
  }

  lemma TableAtSettle(s: State, x: Tid)
    requires Enabled(s, x, Settle) && !s.threads[x].ex
    ensures var s' := DoSettle(s, x); s'.table == s.table && s'.fifo == s.fifo && s'.lru == s.lru
  {
    hide Pushed, Removed, MovedToFront, Position;
  }

  lemma TableAtScan(s: State, x: Tid)
    requires Enabled(s, x, Scan)
    ensures var s' := DoScan(s, x); s'.table == s.table && s'.fifo == s.fifo && s'.lru == s.lru
  {
  }

  /** While a thread holds the table, in whatever mode, nobody else changes table or queues. */
  lemma TableFrozen(s: State, x: Tid, y: Tid, step: Step)
    requires Inv(s) && Enabled(s, y, step) && x in s.threads && x != y && HoldsTable(s.threads[x])
    ensures var s' := Do(s, y, step);
            s'.table == s.table && s'.fifo == s.fifo && s'.lru == s.lru && x in s'.threads && s'.threads[x] == s.threads[x]
  {
    OthersUntouched(s, y, step, x);
    InvParts(s, y);
    hide Inv, TableOK, QueuesOK, PinsOK, ContentAt, Do, Sound;
    assert Compatible(s.threads[y], s.threads[x]) && ThreadOK(s, s.threads[y]);
    assert !(HoldsTable(s.threads[y]) && s.threads[y].ex);
    TableKept(s, y, step);
  }

  lemma LookUpKnows(states: seq<State>, x: Tid, i: nat, slot: Slot)
    requires i + 1 < |states| && Enabled(states[i], x, LookUp(slot)) && states[i + 1] == Do(states[i], x, LookUp(slot))
    ensures ScanKnows(states, x, i + 1)
  {
    hide Do, DoLookUp, SeenPinned, Enabled;
    LookUpIs(states[i], x, slot);
    LookUpScans(states[i], x, slot);
  }

  lemma LookUpScans(s: State, x: Tid, slot: Slot)
    requires Enabled(s, x, LookUp(slot))
    ensures x in s.threads && x in DoLookUp(s, x, slot).threads
    ensures var s' := DoLookUp(s, x, slot);
            var t' := s'.threads[x];
            (t'.stage.Counted? || t'.stage.Enter? || t'.stage.Bound? || t'.stage.ScanFifo?) &&
            (t'.stage.ScanFifo? ==> t'.id !in s'.table && |s'.table| >= SLOTS && t'.index == |s'.fifo|)
  {
    Stepper(s, x, LookUp(slot));
    hide Pushed, Do, Guard, Sound;
  }

  lemma ScanOnKnows(states: seq<State>, x: Tid, i: nat)
    requires i + 1 < |states| && Enabled(states[i], x, Scan) && states[i + 1] == Do(states[i], x, Scan)
    requires ScanKnows(states, x, i)
    ensures ScanKnows(states, x, i + 1)
  {
    hide Enabled, Do, DoScan, HoldsTable, SeenPinned, AllSeen;
    var s, s', t := states[i], states[i + 1], states[i].threads[x];
    TableAtScan(s, x);
    ScanTo(s, x);
    ScannerHolds(s, x);
    var t' := s'.threads[x];
    if !t'.stage.Picked? {
      if t.index > 0 { SeenNow(states, x, QueueOf(s, t)[t.index - 1].value, i); }
      SeenFrom(states, x, QueueOf(s, t), t.index, i);
      if t.stage.ScanFifo? {
        StillAllSeen(states, x, s.fifo, if t.index > 0 then t.index - 1 else 0, i);
      } else {
        StillAllSeen(states, x, s.fifo, 0, i);
        StillAllSeen(states, x, s.lru, if t.index > 0 then t.index - 1 else 0, i);
      }
      NothingToSee(states, x, s.lru, i + 1);
    }
  }

  lemma ScannerHolds(s: State, x: Tid)
    requires Enabled(s, x, Scan)
    ensures x in s.threads && x in Do(s, x, Scan).threads
    ensures Do(s, x, Scan) == DoScan(s, x) && HoldsTable(s.threads[x]) && HoldsTable(Do(s, x, Scan).threads[x])
  {
    hide *;
    Stepper(s, x, Scan);
    ScanIs(s, x);
    ScanTo(s, x);
    ScannersHold(s.threads[x]);
    ScannersHold(Do(s, x, Scan).threads[x]);
  }

  lemma ScanIs(s: State, x: Tid)
    requires Enabled(s, x, Scan)
    ensures Do(s, x, Scan) == DoScan(s, x)
  {
    hide DoScan, Guard, Sound;
  }

  lemma ScannersHold(t: Thread)
    ensures t.stage.ScanFifo? || t.stage.ScanLru? || t.stage.Picked? || t.stage.Full? ==> HoldsTable(t)
  {
  }

  lemma SeenNow(states: seq<State>, x: Tid, slot: Slot, i: nat)
    requires i < |states| && x in states[i].threads && HoldsTable(states[i].threads[x])
    requires slot < |states[i].pages| && states[i].pages[slot].pins > 0
    ensures SeenPinned(states, x, slot, i)
  {
    hide HoldsTable;
    assert Held(states, x, i, i);
  }

  lemma SeenFrom(states: seq<State>, x: Tid, q: Entries, n: nat, i: nat)
    requires AllSeen(states, x, q, n, i) && 0 <= n <= |q| && (n > 0 ==> SeenPinned(states, x, q[n - 1].value, i))
    ensures AllSeen(states, x, q, if n > 0 then n - 1 else 0, i)
  {
    hide SeenPinned;
  }

  lemma NothingToSee(states: seq<State>, x: Tid, q: Entries, i: nat)
    ensures AllSeen(states, x, q, |q|, i)
  {
    hide SeenPinned;
  }

  lemma ScanTo(s: State, x: Tid)
    requires Enabled(s, x, Scan)
    ensures var t, s' := s.threads[x], Do(s, x, Scan);
            (t.stage.ScanFifo? || t.stage.ScanLru?) && x in s'.threads &&
            if t.index == 0 then s'.threads[x] == if t.stage.ScanFifo? then t.(stage := ScanLru, index := |s.lru|) else t.(stage := Full)
            else
              t.index <= |QueueOf(s, t)| && QueueOf(s, t)[t.index - 1].value < |s.pages| &&
              if s.pages[QueueOf(s, t)[t.index - 1].value].pins == 0
              then var e := QueueOf(s, t)[t.index - 1];
                   s'.threads[x] == t.(stage := Picked, slot := e.value, pinned := e.key, fromFifo := t.stage.ScanFifo?)
              else s'.threads[x] == t.(index := t.index - 1)
  {
  }

  lemma OthersKnow(states: seq<State>, x: Tid, i: nat, y: Tid, step: Step)
    requires i + 1 < |states| && Inv(states[i]) && Enabled(states[i], y, step) && states[i + 1] == Do(states[i], y, step) && x != y
    requires ScanKnows(states, x, i)
    ensures ScanKnows(states, x, i + 1)
  {
    var s, t := states[i], states[i].threads[x];
    OthersUntouched(s, y, step, x);
    if t.stage.ScanFifo? || t.stage.ScanLru? || t.stage.Full? {
      TableFrozen(s, x, y, step);
      hide Inv, Enabled, Do, SeenPinned;
      if t.stage.ScanFifo? { StillAllSeen(states, x, s.fifo, t.index, i); } else { StillAllSeen(states, x, s.fifo, 0, i); }
      if t.stage.ScanLru? { StillAllSeen(states, x, s.lru, t.index, i); }
      if t.stage.Full? { StillAllSeen(states, x, s.lru, 0, i); }
    }
  }

  predicate Scans(t: Thread) { t.stage.ScanFifo? || t.stage.ScanLru? || t.stage.Full? || t.stage.Picked? }

  lemma SettleDoesNotScan(s: State, x: Tid)
    requires Enabled(s, x, Settle)
    ensures x in DoSettle(s, x).threads && !Scans(DoSettle(s, x).threads[x])
  {
    hide Pushed, Removed, MovedToFront, Position;
  }

  /** The steps of a thread that has a page in sight, up to the eviction. */
  predicate Picking(step: Step) {
    || step.PinPicked? || step.CheckDirty? || step.ClearDirty? || step.LockToSave? || step.Save? || step.LockAgain?
    || step.Check? || step.CheckClean? || step.TakeOver? || step.UnpinPicked?
  }

  lemma PickingDoesNotScan(s: State, x: Tid, step: Step)
    requires Enabled(s, x, step) && Picking(step)
    ensures x in Do(s, x, step).threads && !Scans(Do(s, x, step).threads[x])
  {
    hide Evict, Sound, MayEvict, Put, TableFree, PageShareable;
    if step.TakeOver? { EvictIs(s, x); }
  }

  lemma ClientsDoNotScan(s: State, x: Tid, step: Step)
    requires Enabled(s, x, step) && !Picking(step) && !step.LookUp? && !step.Scan? && !step.Settle?
    ensures x in Do(s, x, step).threads && !Scans(Do(s, x, step).threads[x])
  {
    hide Sound, Put, TableFree, TableShareable, PageFree, PageShareable;
  }

  lemma OthersDoNotScan(s: State, x: Tid, step: Step)
    requires Enabled(s, x, step) && !step.LookUp? && !step.Scan?
    ensures x in Do(s, x, step).threads && !Scans(Do(s, x, step).threads[x])
  {
    hide Enabled, DoSettle, Scans;
    if step.Settle? {
      SettleDoesNotScan(s, x);
    } else {
      hide Do;
      if Picking(step) { PickingDoesNotScan(s, x, step); } else { ClientsDoNotScan(s, x, step); }
    }
  }

  lemma OtherStages(states: seq<State>, x: Tid, i: nat, step: Step)
    requires i + 1 < |states| && Enabled(states[i], x, step) && states[i + 1] == Do(states[i], x, step)
    requires !step.LookUp? && !step.Scan?
    ensures ScanKnows(states, x, i + 1)
  {
    OthersDoNotScan(states[i], x, step);
    hide Do, Enabled, SeenPinned;
  }

  lemma {:induction false} ScansKnow(states: seq<State>, events: seq<Event>, i: nat, x: Tid)
    requires IsRun(states, events) && i < |states| && x in states[i].threads
    ensures ScanKnows(states, x, i)
    decreases i
  {
    hide *;
    if i == 0 {
      StartsIdle(states, events, x);
    } else {
      RunLength(states, events);
      var e := events[i - 1];
      RunStep(states, events, i - 1);
      ThreadsStay(states[i - 1], e.thread, e.step);
      RunsKeepInv(states, events, i - 1);
      ScansKnow(states, events, i - 1, x);
      if e.thread != x {
        OthersKnow(states, x, i - 1, e.thread, e.step);
      } else if e.step.LookUp? {
        LookUpKnows(states, x, i - 1, e.step.freeSlot);
      } else if e.step.Scan? {
        ScanOnKnows(states, x, i - 1);
      } else {
        OtherStages(states, x, i - 1, e.step);
      }
    }
  }

  lemma StartsIdle(states: seq<State>, events: seq<Event>, x: Tid)
    requires IsRun(states, events) && x in states[0].threads
    ensures ScanKnows(states, x, 0)
  {
  }

  lemma RunLength(states: seq<State>, events: seq<Event>)
    requires IsRun(states, events)
    ensures |states| == |events| + 1
  {
  }

  lemma RunStep(states: seq<State>, events: seq<Event>, i: nat)
    requires IsRun(states, events) && i < |events|
    ensures |states| == |events| + 1
    ensures Enabled(states[i], events[i].thread, events[i].step) && states[i + 1] == Do(states[i], events[i].thread, events[i].step)
  {
    hide Enabled, Do;
    assert Follows(states[i], events[i], states[i + 1]);
  }

  lemma ThreadsStay(s: State, x: Tid, step: Step)
    requires Enabled(s, x, step)
    ensures Do(s, x, step).threads.Keys == s.threads.Keys
  {
    Stepper(s, x, step);
    hide Pushed, Removed, MovedToFront, Position, MayEvict, Put, Guard, Sound;
  }

  lemma Stepper(s: State, x: Tid, step: Step)
    requires Enabled(s, x, step)
    ensures x in s.threads
  {
  }

  /** With a full table every slot is in one of the queues. */
  lemma SlotIsQueued(s: State, slot: Slot)
    requires Inv(s) && |s.table| >= SLOTS && slot < SLOTS
    ensures (exists k :: 0 <= k < |s.fifo| && s.fifo[k].value == slot) || (exists k :: 0 <= k < |s.lru| && s.lru[k].value == slot)
  {
    Partition(s);
    assert |s.free| == 0 && s.free == {};
    assert TableOK(s) && QueuesOK(s);
    hide Inv;
    var id := s.pages[slot].id;
    assert id in s.table && s.table[id] == slot;
    var q := if HasKey(s.fifo, id) then s.fifo else s.lru;
    assert HasKey(q, id);
    var k :| 0 <= k < |q| && q[k].key == id;
    assert q[k] in q && InTable(s.table, q[k]);
  }

  /** "Buffer is full!" is raised only by a thread that, under one table lock, has found its id absent
      and the table full, and has seen every slot pinned, each at some moment since it took the lock. */
  lemma FullHasSeen(states: seq<State>, events: seq<Event>, i: nat, x: Tid, slot: Slot)
    requires IsRun(states, events) && i < |states| && x in states[i].threads && states[i].threads[x].stage == Full && slot < SLOTS
    ensures states[i].threads[x].id !in states[i].table && |states[i].table| == SLOTS
    ensures SeenPinned(states, x, slot, i)
  {
    ScansKnow(states, events, i, x);
    RunsKeepInv(states, events, i);
    var s := states[i];
    Partition(s);
    SlotIsQueued(s, slot);
    hide IsRun, Inv, SeenPinned;
  }

  // ---- which page is picked ---------------------------------------------------------------------

  /** The slot has been unpinned at some moment since the thread locked the table. */
  ghost predicate SeenUnpinned(states: seq<State>, x: Tid, slot: Slot, i: nat) {
    exists m: nat :: Held(states, x, m, i) && slot < |states[m].pages| && states[m].pages[slot].pins == 0
  }

  /** What a thread that has picked a page for eviction knows of it. */
  ghost predicate PickKnows(states: seq<State>, x: Tid, i: nat)
    requires i < |states|
  {
    var s := states[i];
    x in s.threads &&
    var t := s.threads[x];
    (t.stage.Picked? ==>
       t.id !in s.table && |s.table| >= SLOTS && SeenUnpinned(states, x, t.slot, i) &&
       var q := if t.fromFifo then s.fifo else s.lru;
       0 < t.index <= |q| && q[t.index - 1] == Entry(t.pinned, t.slot) && AllSeen(states, x, q, t.index, i) &&
       (!t.fromFifo ==> AllSeen(states, x, s.fifo, 0, i)))
  }

  lemma StillUnpinned(states: seq<State>, x: Tid, slot: Slot, i: nat)
    requires SeenUnpinned(states, x, slot, i) && i + 1 < |states|
    requires x in states[i + 1].threads && HoldsTable(states[i + 1].threads[x])
    ensures SeenUnpinned(states, x, slot, i + 1)
  {
    hide HoldsTable;
    var m: nat :| Held(states, x, m, i) && slot < |states[m].pages| && states[m].pages[slot].pins == 0;
    assert Held(states, x, m, i + 1);
  }

  lemma ScanPicks(states: seq<State>, x: Tid, i: nat)
    requires i + 1 < |states| && Enabled(states[i], x, Scan) && states[i + 1] == Do(states[i], x, Scan)
    requires ScanKnows(states, x, i)
    ensures PickKnows(states, x, i + 1)
  {
    var s, s', t := states[i], states[i + 1], states[i].threads[x];
    TableAtScan(s, x);
    ScanTo(s, x);
    if s'.threads[x].stage.Picked? {
      var e := QueueOf(s, t)[t.index - 1];
      EntryEta(e);
      assert Held(states, x, i, i);
      assert SeenUnpinned(states, x, e.value, i);
      hide Enabled, Do, HoldsTable, SeenPinned, SeenUnpinned;
      StillUnpinned(states, x, e.value, i);
      StillAllSeen(states, x, QueueOf(s, t), t.index, i);
      if t.stage.ScanLru? { StillAllSeen(states, x, s.fifo, 0, i); }
    }
  }

  lemma OthersKnowPick(states: seq<State>, x: Tid, i: nat, y: Tid, step: Step)
    requires i + 1 < |states| && Inv(states[i]) && Enabled(states[i], y, step) && states[i + 1] == Do(states[i], y, step) && x != y
    requires PickKnows(states, x, i)
    ensures PickKnows(states, x, i + 1)
  {
    hide Inv, Enabled, Do, SeenPinned, SeenUnpinned, AllSeen;
    var s, t := states[i], states[i].threads[x];
    OthersUntouched(s, y, step, x);
    if t.stage.Picked? {
      TableFrozen(s, x, y, step);
      StillUnpinned(states, x, t.slot, i);
      StillAllSeen(states, x, if t.fromFifo then s.fifo else s.lru, t.index, i);
      if !t.fromFifo { StillAllSeen(states, x, s.fifo, 0, i); }
    }
  }

  lemma NotPicking(states: seq<State>, x: Tid, i: nat, step: Step)
    requires i + 1 < |states| && Enabled(states[i], x, step) && states[i + 1] == Do(states[i], x, step) && !step.Scan?
    ensures PickKnows(states, x, i + 1)
  {
    hide Do, DoLookUp, Enabled, SeenUnpinned, AllSeen;
    if step.LookUp? {
      LookUpIs(states[i], x, step.freeSlot);
      LookUpScans(states[i], x, step.freeSlot);
    } else {
      OthersDoNotScan(states[i], x, step);
    }
  }

  lemma LookUpIs(s: State, x: Tid, i: Slot)
    requires Enabled(s, x, LookUp(i))
    ensures Do(s, x, LookUp(i)) == DoLookUp(s, x, i)
  {
    hide DoLookUp, Guard, Sound;
  }

  lemma {:induction false} PicksKnow(states: seq<State>, events: seq<Event>, i: nat, x: Tid)
    requires IsRun(states, events) && i < |states| && x in states[i].threads
    ensures PickKnows(states, x, i)
    decreases i
  {
    hide *;
    if i == 0 {
      StartsWithoutPick(states, events, x);
    } else {
      RunLength(states, events);
      var e := events[i - 1];
      RunStep(states, events, i - 1);
      ThreadsStay(states[i - 1], e.thread, e.step);
      RunsKeepInv(states, events, i - 1);
      ScansKnow(states, events, i - 1, x);
      PicksKnow(states, events, i - 1, x);
      if e.thread != x {
        OthersKnowPick(states, x, i - 1, e.thread, e.step);
      } else if e.step.Scan? {
        ScanPicks(states, x, i - 1);
      } else {
        NotPicking(states, x, i - 1, e.step);
      }
    }
  }

  lemma StartsWithoutPick(states: seq<State>, events: seq<Event>, x: Tid)
    requires IsRun(states, events) && x in states[0].threads
    ensures PickKnows(states, x, 0)
  {
  }

  /** The page that a thread picks for eviction has been seen unpinned under its table lock, and
      every entry behind it in its queue has been seen pinned. A page of the LRU queue is only picked
      after every entry of the FIFO queue has been seen pinned, too. */
  lemma PickedIsOldest(states: seq<State>, events: seq<Event>, i: nat, x: Tid)
    requires IsRun(states, events) && i < |states| && x in states[i].threads && states[i].threads[x].stage == Picked
    ensures var s, t := states[i], states[i].threads[x];
            t.id !in s.table && |s.table| == SLOTS && SeenUnpinned(states, x, t.slot, i) &&
            var q := if t.fromFifo then s.fifo else s.lru;
            var p := Position(q, t.pinned);
            p < |q| && q[p] == Entry(t.pinned, t.slot) && AllSeen(states, x, q, p + 1, i) &&
            (!t.fromFifo ==> AllSeen(states, x, s.fifo, 0, i))
  {
    hide *;
    RunLength(states, events);
    PicksKnow(states, events, i, x);
    RunsKeepInv(states, events, i);
    var s, t := states[i], states[i].threads[x];
    PickParts(states, x, i);
    Partition(s);
    InvQueues(s);
    PositionUnique(if t.fromFifo then s.fifo else s.lru, t.index - 1);
  }

  lemma PickParts(states: seq<State>, x: Tid, i: nat)
    requires i < |states| && PickKnows(states, x, i) && x in states[i].threads && states[i].threads[x].stage == Picked
    ensures var s, t := states[i], states[i].threads[x];
            t.id !in s.table && |s.table| >= SLOTS && SeenUnpinned(states, x, t.slot, i) &&
            var q := if t.fromFifo then s.fifo else s.lru;
            0 < t.index <= |q| && q[t.index - 1] == Entry(t.pinned, t.slot) && q[t.index - 1].key == t.pinned &&
            AllSeen(states, x, q, t.index, i) && (!t.fromFifo ==> AllSeen(states, x, s.fifo, 0, i))
  {
    hide SeenUnpinned, AllSeen;
  }

  // ---- a scan that finds nothing ----------------------------------------------------------------

  /** Every page in the queues is pinned. */
  ghost predicate AllPinned(s: State) {
    && (forall k :: 0 <= k < |s.fifo| ==> s.fifo[k].value < |s.pages| && s.pages[s.fifo[k].value].pins > 0)
    && (forall k :: 0 <= k < |s.lru| ==> s.lru[k].value < |s.pages| && s.pages[s.lru[k].value].pins > 0)
  }

  ghost predicate Scanning(s: State, x: Tid) {
    x in s.threads && (s.threads[x].stage.ScanFifo? || s.threads[x].stage.ScanLru?) &&
    s.threads[x].index <= |QueueOf(s, s.threads[x])|
  }

  function ScannedOn(s: State, t: Thread): Thread {
    if t.index > 0 then t.(index := t.index - 1)
    else if t.stage.ScanFifo? then t.(stage := ScanLru, index := |s.lru|)
    else t.(stage := Full)
  }

  lemma PinnedScanStep(s: State, x: Tid)
    requires Scanning(s, x) && AllPinned(s)
    ensures Enabled(s, x, Scan) && x in s.threads && Do(s, x, Scan) == Set(s, x, ScannedOn(s, s.threads[x]))
  {
  }

  lemma PinnedStays(s: State, x: Tid, t: Thread)
    requires AllPinned(s)
    ensures AllPinned(Set(s, x, t))
  {
  }

  /** A thread that starts to scan while every queued page is pinned, and scans on undisturbed,
      raises "Buffer is full!". */
  lemma {:induction false} PinnedScanIsFull(s: State, x: Tid) returns (states: seq<State>)
    requires Scanning(s, x) && AllPinned(s)
    ensures |states| > 0 && states[0] == s && forall k :: 0 <= k < |states| - 1 ==> Follows(states[k], Event(x, Scan), states[k + 1])
    ensures x in states[|states| - 1].threads && states[|states| - 1].threads[x].stage == Full
    decreases s.threads[x].stage.ScanFifo?, s.threads[x].index
  {
    var t := s.threads[x];
    PinnedScanStep(s, x);
    PinnedStays(s, x, ScannedOn(s, t));
    var s' := Set(s, x, ScannedOn(s, t));
    assert s'.threads[x] == ScannedOn(s, t) && s'.fifo == s.fifo && s'.lru == s.lru;
    assert t.index > 0 || t.stage.ScanFifo? ==> Scanning(s', x);
    hide Enabled, Do, AllPinned, Set;
    assert Follows(s, Event(x, Scan), s');
    if t.index == 0 && t.stage.ScanLru? {
      states := [s, s'];
    } else {
      var rest := PinnedScanIsFull(s', x);
      states := [s] + rest;
      hide Follows;
      forall k | 0 <= k < |states| - 1 ensures Follows(states[k], Event(x, Scan), states[k + 1]) {
        if k > 0 { assert Follows(rest[k - 1], Event(x, Scan), rest[k]); }
      }
    }
  }

  /** A thread that has raised "Buffer is full!" keeps the table locked for good: nobody can lock it
      exclusively any more, whether to look a page up or to come back from saving a victim. */
  lemma FullBlocksTable(states: seq<State>, events: seq<Event>, i: nat, x: Tid, y: Tid)
    requires IsRun(states, events) && i < |events| && x in states[i].threads && states[i].threads[x].stage == Full
    requires y in states[i].threads && y != x
    ensures x in states[i + 1].threads && states[i + 1].threads[x].stage == Full
    ensures states[i].threads[y].ex ==> !Guard(states[i], y, LockTable)
    ensures !Guard(states[i], y, LockAgain)
  {
    assert Follows(states[i], events[i], states[i + 1]);
    if events[i].thread != x {
      OthersUntouched(states[i], events[i].thread, events[i].step, x);
    }
  }
}
