/** The page buffer as a step system: any number of threads inside pinPage and unpinPage, each
    step with at most one access to a page's atomic counters or flags, and with the table lock
    and the page locks as guards. Only a free slot, which nobody else can reach, gets its counter
    and flag in one step. Releasing a lock is part of the step before it. */
module BufferSteps {
  import opened Keys
  import opened Leaves
  import opened Queues

  type Id = int
  type Slot = nat
  type Tid = int
  type Data(==, 0, !new)

  /** The number of slots, N in PageBuffer. */
  const SLOTS: nat

  datatype Stage =
    | Idle        // outside
    | Enter       // about to lock the table in mode `ex`
    | Inside      // holds the table; about to look the id up
    | Counted     // hit, and counted as a pin; holds the table
    | ScanFifo    // looking for an unpinned page at `index`; holds the table
    | ScanLru
    | Picked      // has seen an unpinned page; holds the table
    | Reserved    // has pinned it; about to read its dirty flag; holds the table
    | Cleaning    // has seen it dirty; about to clear the flag; holds the table
    | Cleared     // has cleared the flag; about to lock the page; holds the table
    | Saving      // holds the page (shared), no longer the table; about to write it to disk
    | Relock      // about to lock the table exclusively
    | Recheck     // holds the table; about to check whether the page may be evicted
    | Sole        // has found nothing against it, and no other pin; about to read the dirty flag again
    | Clean       // has seen it clean; about to take the slot over
    | GiveUp      // may not evict it; about to unpin it; holds the table
    | Bound       // has bound the slot to the requested id; holds the table
    | Loading     // holds the page (exclusive); about to read it from disk
    | Want        // about to lock the page
    | Holding     // pinPage has returned
    | Leaving     // unpinPage has set the dirty flag if asked to; holds the page
    | Dropping    // has released the page; about to unpin it
    | Full        // "Buffer is full!" was raised, and the table lock was never released

  /** A thread: its stage, the request (`id`, `skip`), the mode `ex` of its table lock, its pin
      (`slot`, bound to `pinned`), the scan position, and what it does with the page it holds. */
  datatype Thread = Thread(
    stage: Stage, id: Id, skip: bool, ex: bool, slot: Slot, pinned: Id, fromFifo: bool, index: nat,
    first: bool, excl: bool, written: bool, raw: bool)

  datatype Page = Page(id: Id, pins: nat, dirty: bool, data: Data)

  type Entries = seq<Entry<Id, Slot>>

  /** `current` is a ghost of the last contents written to each page. */
  datatype State = State(
    table: map<Id, Slot>, free: set<Slot>, fifo: Entries, lru: Entries, pages: seq<Page>,
    disk: Id -> Data, current: Id -> Data, threads: map<Tid, Thread>)

  // ---- locks and pins -------------------------------------------------------------------------

  predicate HoldsTable(t: Thread) {
    || t.stage.Inside? || t.stage.Counted? || t.stage.ScanFifo? || t.stage.ScanLru? || t.stage.Picked? || t.stage.Reserved?
    || t.stage.Cleaning? || t.stage.Cleared? || t.stage.Recheck? || t.stage.GiveUp?
    || t.stage.Bound? || t.stage.Full? || t.stage.Sole? || t.stage.Clean?
  }

  predicate HasPin(t: Thread) {
    || t.stage.Counted? || t.stage.Reserved? || t.stage.Cleaning? || t.stage.Cleared? || t.stage.Saving? || t.stage.Relock?
    || t.stage.Recheck? || t.stage.GiveUp? || t.stage.Bound? || t.stage.Loading? || t.stage.Want? || t.stage.Holding?
    || t.stage.Leaving? || t.stage.Dropping? || t.stage.Sole? || t.stage.Clean?
  }

  predicate HoldsPage(t: Thread) { t.stage.Saving? || t.stage.Loading? || t.stage.Holding? || t.stage.Leaving? }

  predicate HoldsPageAlone(t: Thread) { t.stage.Loading? || ((t.stage.Holding? || t.stage.Leaving?) && t.excl) }

  /** The slot's data is not the page's contents yet. */
  predicate Filling(t: Thread) { t.stage.Bound? || t.stage.Loading? || ((t.stage.Want? || t.stage.Holding?) && t.raw) }

  /** The thread will still mark the page dirty, or write it to disk. */
  predicate Responsible(t: Thread) { t.stage.Cleared? || t.stage.Saving? || (t.stage.Holding? && t.written) }

  /** The thread has seen that its own pin is the only one. */
  predicate Evicting(t: Thread) { t.stage.Sole? || t.stage.Clean? }

  /** Nobody else may have a pin on the thread's slot. */
  predicate Alone(t: Thread) { Evicting(t) || t.stage.Bound? || ((t.stage.Want? || t.stage.Holding?) && t.raw) }

  predicate Active(t: Thread) { t.stage != Idle }

  predicate Skips(t: Thread) { Active(t) && t.skip }

  predicate PinsSlot(t: Thread, s: Slot) { HasPin(t) && t.slot == s }

  ghost function Pinners(threads: map<Tid, Thread>, s: Slot): set<Tid> {
    set x | x in threads && PinsSlot(threads[x], s)
  }

  predicate TableFree(threads: map<Tid, Thread>, x: Tid) {
    forall y :: y in threads && y != x ==> !HoldsTable(threads[y])
  }

  predicate TableShareable(threads: map<Tid, Thread>, x: Tid) {
    forall y :: y in threads && y != x ==> !(HoldsTable(threads[y]) && threads[y].ex)
  }

  predicate PageFree(threads: map<Tid, Thread>, x: Tid, s: Slot) {
    forall y :: y in threads && y != x ==> !(HoldsPage(threads[y]) && threads[y].slot == s)
  }

  predicate PageShareable(threads: map<Tid, Thread>, x: Tid, s: Slot) {
    forall y :: y in threads && y != x ==> !(HoldsPageAlone(threads[y]) && threads[y].slot == s)
  }

  // ---- steps ----------------------------------------------------------------------------------

  datatype Step =
    | Begin(id: Id, skip: bool)
    | LockTable
    | LookUp(freeSlot: Slot)
    | Settle
    | Scan
    | PinPicked
    | CheckDirty
    | ClearDirty
    | LockToSave
    | Save
    | LockAgain
    | Check
    | CheckClean
    | TakeOver
    | UnpinPicked
    | Fill
    | Load
    | LockPage(exclusive: bool)
    | Modify(data: Data)
    | Unpin(dirty: bool)
    | UnlockPage
    | Drop

  function Set(s: State, x: Tid, t: Thread): State {
    s.(threads := s.threads[x := t])
  }

  predicate SlotOK(s: State, t: Thread) { t.slot < |s.pages| }

  function QueueOf(s: State, t: Thread): Entries { if t.stage == ScanFifo then s.fifo else s.lru }

  /** The condition under which the picked page is evicted, if it is clean. */
  predicate MayEvict(s: State, t: Thread)
    requires SlotOK(s, t)
  {
    && t.id !in s.table
    && Position(if t.fromFifo then s.fifo else s.lru, t.pinned) < |if t.fromFifo then s.fifo else s.lru|
    && s.pages[t.slot].pins == 1
  }

  /** When thread `x` can take a step. A lock is only taken when it is free; and the client keeps
      two rules: a page pinned with skipLoad is used by nobody else until it has been unpinned, it
      is locked exclusively and written before that; and a written page is unpinned as dirty. */
  predicate Guard(s: State, x: Tid, step: Step) {
    x in s.threads &&
    var t := s.threads[x];
    match step
    case Begin(id, skip) =>
      t.stage == Idle &&
      forall y :: y in s.threads && y != x && Active(s.threads[y]) && (skip || s.threads[y].skip) ==> s.threads[y].id != id
    case LockTable => t.stage == Enter && if t.ex then TableFree(s.threads, x) else TableShareable(s.threads, x)
    case LookUp(freeSlot) => t.stage == Inside && (t.id !in s.table && |s.table| < SLOTS && s.free != {} ==> freeSlot in s.free)
    case Settle => t.stage == Counted
    case Scan => t.stage.ScanFifo? || t.stage.ScanLru?
    case PinPicked => t.stage == Picked
    case CheckDirty => t.stage == Reserved
    case ClearDirty => t.stage == Cleaning
    case LockToSave => t.stage == Cleared && PageShareable(s.threads, x, t.slot)
    case Save => t.stage == Saving
    case LockAgain => t.stage == Relock && TableFree(s.threads, x)
    case Check => t.stage == Recheck
    case CheckClean => t.stage == Sole
    case TakeOver => t.stage == Clean
    case UnpinPicked => t.stage == GiveUp
    case Fill => t.stage == Bound
    case Load => t.stage == Loading
    case LockPage(exclusive) =>
      t.stage == Want && (t.raw ==> exclusive) &&
      if exclusive then PageFree(s.threads, x, t.slot) else PageShareable(s.threads, x, t.slot)
    case Modify(_) => t.stage == Holding && t.excl
    case Unpin(dirty) => t.stage == Holding && !t.raw && (t.written ==> dirty)
    case UnlockPage => t.stage == Leaving
    case Drop => t.stage == Dropping
  }

  /** What the code takes for granted at a step: indices in range, the assertions of pinPage and
      unpinPage, and that a page just bound to a slot can be locked at once. */
  predicate Sound(s: State, x: Tid, step: Step) {
    x in s.threads &&
    var t := s.threads[x];
    match step
    case LookUp(freeSlot) =>
      if t.id in s.table then s.table[t.id] < |s.pages|
      else |s.table| < SLOTS && t.ex ==> freeSlot in s.free && freeSlot < |s.pages| && s.pages[freeSlot].pins == 0
    case Settle =>
      SlotOK(s, t) && s.pages[t.slot].pins >= 1 &&
      (Position(s.fifo, t.id) < |s.fifo| || Position(s.lru, t.id) < |s.lru|)
    case Scan => t.index <= |QueueOf(s, t)| && (t.index > 0 ==> QueueOf(s, t)[t.index - 1].value < |s.pages|)
    case UnpinPicked => SlotOK(s, t) && s.pages[t.slot].pins >= 1
    case Drop => SlotOK(s, t) && s.pages[t.slot].pins >= 1
    case Fill => !t.skip ==> PageFree(s.threads, x, t.slot)
    case PinPicked => SlotOK(s, t)
    case CheckDirty => SlotOK(s, t)
    case ClearDirty => SlotOK(s, t)
    case Save => SlotOK(s, t)
    case Check => SlotOK(s, t)
    case CheckClean => SlotOK(s, t)
    case TakeOver => SlotOK(s, t)
    case Load => SlotOK(s, t)
    case Modify(_) => SlotOK(s, t)
    case Unpin(_) => SlotOK(s, t)
    case _ => true
  }

  predicate Enabled(s: State, x: Tid, step: Step) { Guard(s, x, step) && Sound(s, x, step) }

  function WithPins(s: State, i: Slot, pins: nat): State
    requires i < |s.pages|
  {
    s.(pages := s.pages[i := s.pages[i].(pins := pins)])
  }

  function WithDirty(s: State, i: Slot, dirty: bool): State
    requires i < |s.pages|
  {
    s.(pages := s.pages[i := s.pages[i].(dirty := dirty)])
  }

  function Put(f: Id -> Data, id: Id, d: Data): (g: Id -> Data) {
    (x: Id) => if x == id then d else f(x)
  }

  /** A hit, a free slot, or the scan for a page to evict. */
  function DoLookUp(s: State, x: Tid, freeSlot: Slot): State
    requires Enabled(s, x, LookUp(freeSlot))
  {
    var t := s.threads[x];
    if t.id in s.table then
      var i := s.table[t.id];
      var pins := s.pages[i].pins + 1;
      Set(WithPins(s, i, pins), x, t.(stage := Counted, slot := i, pinned := t.id, first := pins == 1))
    else if |s.table| < SLOTS then
      if !t.ex then Set(s, x, t.(stage := Enter, ex := true)) else TakeFree(s, x, freeSlot)
    else Set(s, x, t.(stage := ScanFifo, index := |s.fifo|))
  }

  /** A free slot is bound to the requested id. */
  function TakeFree(s: State, x: Tid, i: Slot): State
    requires x in s.threads && i < |s.pages|
  {
    var t := s.threads[x];
    Set(s.(free := s.free - {i}, table := s.table[t.id := i], fifo := Pushed(s.fifo, t.id, i),
           pages := s.pages[i := s.pages[i].(id := t.id, pins := 1, dirty := false)]),
        x, t.(stage := Bound, slot := i, pinned := t.id))
  }

  /** A first pin needs the exclusive table lock, to move the page in the queues. */
  function DoSettle(s: State, x: Tid): State
    requires Enabled(s, x, Settle)
  {
    var t := s.threads[x];
    var want := t.(stage := Want, raw := false);
    if !t.first then Set(s, x, want)
    else if !t.ex then Set(WithPins(s, t.slot, s.pages[t.slot].pins - 1), x, t.(stage := Enter, ex := true))
    else if Position(s.fifo, t.id) < |s.fifo| then
      Set(s.(fifo := Removed(s.fifo, t.id), lru := Pushed(s.lru, t.id, t.slot)), x, want)
    else if Position(s.lru, t.id) < |s.lru| then Set(s.(lru := MovedToFront(s.lru, t.id)), x, want)
    else Set(s.(fifo := Pushed(s.fifo, t.id, t.slot)), x, want)
  }

  /** The scan reads one counter at a time, from the back of the FIFO queue, then of the LRU queue. */
  function DoScan(s: State, x: Tid): State
    requires Enabled(s, x, Scan)
  {
    var t := s.threads[x];
    if t.index == 0 then
      if t.stage == ScanFifo then Set(s, x, t.(stage := ScanLru, index := |s.lru|)) else Set(s, x, t.(stage := Full))
    else
      var e := QueueOf(s, t)[t.index - 1];
      if s.pages[e.value].pins == 0
      then Set(s, x, t.(stage := Picked, slot := e.value, pinned := e.key, fromFifo := t.stage == ScanFifo))
      else Set(s, x, t.(index := t.index - 1))
  }

  /** The eviction: the slot changes hands. */
  function Evict(s: State, x: Tid): State
    requires x in s.threads && SlotOK(s, s.threads[x])
  {
    var t := s.threads[x];
    var fifo := if t.fromFifo then Removed(s.fifo, t.pinned) else s.fifo;
    var lru := if t.fromFifo then s.lru else Removed(s.lru, t.pinned);
    Set(s.(table := (s.table - {t.pinned})[t.id := t.slot], fifo := Pushed(fifo, t.id, t.slot), lru := lru,
           pages := s.pages[t.slot := s.pages[t.slot].(id := t.id, dirty := false)]),
        x, t.(stage := Bound, pinned := t.id))
  }

  function Do(s: State, x: Tid, step: Step): State
    requires Enabled(s, x, step)
  {
    var t := s.threads[x];
    match step
    case Begin(id, skip) => Set(s, x, t.(stage := Enter, id := id, skip := skip, ex := false))
    case LockTable => Set(s, x, t.(stage := Inside))
    case LookUp(freeSlot) => DoLookUp(s, x, freeSlot)
    case Settle => DoSettle(s, x)
    case Scan => DoScan(s, x)
    case PinPicked => Set(WithPins(s, t.slot, s.pages[t.slot].pins + 1), x, t.(stage := Reserved))
    case CheckDirty =>
      Set(s, x, t.(stage := if s.pages[t.slot].dirty then Cleaning else if t.ex then Recheck else Relock))
    case ClearDirty => Set(WithDirty(s, t.slot, false), x, t.(stage := Cleared))
    case LockToSave => Set(s, x, t.(stage := Saving))
    case Save =>
      Set(s.(disk := Put(s.disk, s.pages[t.slot].id, s.pages[t.slot].data)), x, t.(stage := Relock))
    case LockAgain => Set(s, x, t.(stage := Recheck, ex := true))
    case Check => Set(s, x, t.(stage := if MayEvict(s, t) then Sole else GiveUp))
    case CheckClean => Set(s, x, t.(stage := if s.pages[t.slot].dirty then GiveUp else Clean))
    case TakeOver => Evict(s, x)
    case UnpinPicked => Set(WithPins(s, t.slot, s.pages[t.slot].pins - 1), x, t.(stage := Enter, ex := false))
    case Fill => Set(s, x, if t.skip then t.(stage := Want, raw := true) else t.(stage := Loading))
    case Load =>
      Set(s.(pages := s.pages[t.slot := s.pages[t.slot].(data := s.disk(t.id))]), x, t.(stage := Want, raw := false))
    case LockPage(exclusive) => Set(s, x, t.(stage := Holding, excl := exclusive, written := false))
    case Modify(data) =>
      Set(s.(pages := s.pages[t.slot := s.pages[t.slot].(data := data)], current := Put(s.current, t.pinned, data)),
          x, t.(written := true, raw := false))
    case Unpin(dirty) => Set(if dirty then WithDirty(s, t.slot, true) else s, x, t.(stage := Leaving))
    case UnlockPage => Set(s, x, t.(stage := Dropping))
    case Drop => Set(WithPins(s, t.slot, s.pages[t.slot].pins - 1), x, t.(stage := Idle))
  }
}
