/** A thread that nobody gets in the way of: its steps through pinPage lead to exactly the state in
    which the buffer, used by one thread, returns from pinPage. The other threads may hold pages, as
    many and as long as they like. */
module BufferAlone {
  import opened Keys
  import opened Leaves
  import opened Queues
  import opened BufferSteps
  import opened BufferSafety
  import BufferRuns
  import PageBuffers

  /** The other threads are outside or hold a page. */
  ghost predicate Quiet(s: State, x: Tid) {
    x in s.threads && forall y :: y in s.threads && y != x ==> s.threads[y].stage == Idle || s.threads[y].stage == Holding
  }

  ghost predicate ReachesIn(s: State, x: Tid, s': State, n: nat)
    decreases n
  {
    if n == 0 then s' == s else exists step :: Enabled(s, x, step) && ReachesIn(Do(s, x, step), x, s', n - 1)
  }

  /** Steps of thread `x` alone lead from one state to the other. */
  ghost predicate Reaches(s: State, x: Tid, s': State) {
    exists n: nat :: ReachesIn(s, x, s', n)
  }

  lemma {:induction false} ReachesInThen(a: State, x: Tid, b: State, c: State, n: nat, m: nat)
    requires ReachesIn(a, x, b, n) && ReachesIn(b, x, c, m)
    ensures ReachesIn(a, x, c, n + m)
    decreases n
  {
    hide Do, Enabled;
    if n > 0 {
      var step :| Enabled(a, x, step) && ReachesIn(Do(a, x, step), x, b, n - 1);
      ReachesInThen(Do(a, x, step), x, b, c, n - 1, m);
      assert ReachesIn(Do(a, x, step), x, c, n + m - 1);
    }
  }

  lemma ReachesThen(a: State, x: Tid, b: State, c: State)
    requires Reaches(a, x, b) && Reaches(b, x, c)
    ensures Reaches(a, x, c)
  {
    hide ReachesIn;
    var n: nat :| ReachesIn(a, x, b, n);
    var m: nat :| ReachesIn(b, x, c, m);
    ReachesInThen(a, x, b, c, n, m);
  }

  lemma ReachesStep(s: State, x: Tid, step: Step)
    requires Enabled(s, x, step)
    ensures Reaches(s, x, Do(s, x, step))
  {
    hide Do, Enabled;
    assert ReachesIn(Do(s, x, step), x, Do(s, x, step), 0);
    assert ReachesIn(s, x, Do(s, x, step), 1);
  }

  /** One step that the guard allows. */
  lemma Take(s: State, x: Tid, step: Step)
    requires Inv(s) && Quiet(s, x) && Guard(s, x, step)
    ensures Enabled(s, x, step) && Inv(Do(s, x, step)) && Quiet(Do(s, x, step), x) && Reaches(s, x, Do(s, x, step))
  {
    hide Inv, Do, Guard, Sound;
    BufferRuns.GuardIsEnough(s, x, step);
    StepHolds(s, x, step);
    ReachesStep(s, x, step);
    BufferRuns.ThreadsStay(s, x, step);
    forall y | y in s.threads && y != x ensures Do(s, x, step).threads[y] == s.threads[y] {
      BufferRuns.OthersUntouched(s, x, step, y);
    }
  }

  lemma QuietLocks(s: State, x: Tid)
    requires Quiet(s, x)
    ensures TableFree(s.threads, x) && TableShareable(s.threads, x)
  {
  }

  // ---- what the steps do ----------------------------------------------------------------------

  lemma BeginIs(s: State, x: Tid, id: Id, skip: bool)
    requires Enabled(s, x, Begin(id, skip))
    ensures x in s.threads && Do(s, x, Begin(id, skip)) == Set(s, x, s.threads[x].(stage := Enter, id := id, skip := skip, ex := false))
  {
    BufferRuns.Stepper(s, x, Begin(id, skip));
    hide Guard, Sound;
  }

  lemma LockTableIs(s: State, x: Tid)
    requires Enabled(s, x, LockTable)
    ensures x in s.threads && Do(s, x, LockTable) == Set(s, x, s.threads[x].(stage := Inside))
  {
    BufferRuns.Stepper(s, x, LockTable);
    hide Guard, Sound;
  }

  /** The table is locked in the mode the thread asks for. */
  lemma LockIn(s: State, x: Tid) returns (s': State)
    requires Inv(s) && Quiet(s, x) && s.threads[x].stage == Enter
    ensures Inv(s') && Quiet(s', x) && Reaches(s, x, s') && s' == Set(s, x, s.threads[x].(stage := Inside))
  {
    QuietLocks(s, x);
    hide Inv, Do, Quiet, Reaches, TableFree, TableShareable;
    assert x in s.threads by { QuietThread(s, x); }
    Take(s, x, LockTable);
    LockTableIs(s, x);
    s' := Do(s, x, LockTable);
  }

  lemma QuietThread(s: State, x: Tid)
    requires Quiet(s, x)
    ensures x in s.threads
  {
  }

  // ---- a hit ----------------------------------------------------------------------------------

  lemma HitIs(s: State, x: Tid)
    requires Enabled(s, x, LookUp(0)) && s.threads[x].id in s.table
    ensures var t, i := s.threads[x], s.table[s.threads[x].id];
            i < |s.pages| &&
            Do(s, x, LookUp(0)) ==
              s.(pages := s.pages[i := s.pages[i].(pins := s.pages[i].pins + 1)],
                 threads := s.threads[x := t.(stage := Counted, slot := i, pinned := t.id, first := s.pages[i].pins == 0)])
  {
  }

  lemma SettledIs(s: State, x: Tid)
    requires Inv(s) && Enabled(s, x, Settle)
    ensures x in s.threads
    ensures var t, s' := s.threads[x], Do(s, x, Settle);
            t.slot < |s.pages| && t.id in s.table && s.table[t.id] == t.slot &&
            (!t.first ==> s' == Set(s, x, t.(stage := Want, raw := false))) &&
            (t.first && t.ex ==>
               s' == s.(fifo := Others(s.fifo, t.id), lru := [Entry(t.id, t.slot)] + Others(s.lru, t.id),
                        threads := s.threads[x := t.(stage := Want, raw := false)])) &&
            (t.first && !t.ex && s.pages[t.slot].pins > 0 ==>
               s' == s.(pages := s.pages[t.slot := s.pages[t.slot].(pins := s.pages[t.slot].pins - 1)],
                        threads := s.threads[x := t.(stage := Enter, ex := true)]))
  {
    hide *;
    BufferRuns.Stepper(s, x, Settle);
    SettleHasPin(s, x);
    BufferRuns.SettleIs(s, x);
    BufferRuns.SettleMoves(s, x);
    SettleShape(s, x);
    MovedParts(s, s.threads[x].id, DoSettle(s, x));
  }

  lemma SettleHasPin(s: State, x: Tid)
    requires Enabled(s, x, Settle)
    ensures x in s.threads && HasPin(s.threads[x]) && s.threads[x].slot < |s.pages| && s.pages[s.threads[x].slot].pins >= 1
  {
  }

  lemma MovedParts(s: State, id: Id, s': State)
    ensures BufferRuns.MovedUp(s, id, s') ==>
              id in s.table && s'.fifo == Others(s.fifo, id) && s'.lru == [Entry(id, s.table[id])] + Others(s.lru, id)
  {
  }

  lemma SettleShape(s: State, x: Tid)
    requires Enabled(s, x, Settle)
    ensures x in s.threads && s.threads[x].slot < |s.pages|
    ensures var t, s' := s.threads[x], DoSettle(s, x);
            (!t.first ==> s' == Set(s, x, t.(stage := Want, raw := false))) &&
            (t.first && t.ex ==>
               s' == s.(fifo := s'.fifo, lru := s'.lru, threads := s.threads[x := t.(stage := Want, raw := false)])) &&
            (t.first && !t.ex && s.pages[t.slot].pins > 0 ==>
               s' == s.(pages := s.pages[t.slot := s.pages[t.slot].(pins := s.pages[t.slot].pins - 1)],
                        threads := s.threads[x := t.(stage := Enter, ex := true)]))
  {
    hide Pushed, Removed, MovedToFront, Position, Do;
  }

  /** The thread is about to lock the page, which it has pinned in slot `i`. */
  ghost predicate Wants(s: State, x: Tid, id: Id, i: Slot, raw: bool) {
    x in s.threads && var t := s.threads[x]; t.stage == Want && t.id == id && t.slot == i && t.raw == raw
  }

  /** The state without what thread `x` has gone through. */
  function Seen(s: State, s': State): State { s'.(threads := s.threads) }

  lemma HitOutcome(s: State, x: Tid, s': State)
    requires x in s.threads && s.threads[x].id in s.table
    requires var t, i := s.threads[x], s.table[s.threads[x].id];
             i < |s.pages| && x in s'.threads && s'.threads[x].stage == Want && s'.threads[x].id == t.id && s'.threads[x].slot == i &&
             !s'.threads[x].raw &&
             s'.(threads := s.threads) == s.(pages := s.pages[i := s.pages[i].(pins := s.pages[i].pins + 1)], fifo := s'.fifo, lru := s'.lru) &&
             if s.pages[i].pins == 0 then s'.fifo == Others(s.fifo, t.id) && s'.lru == [Entry(t.id, i)] + Others(s.lru, t.id)
             else s'.fifo == s.fifo && s'.lru == s.lru
    ensures var id := s.threads[x].id;
            Wants(s', x, id, s.table[id], false) && PageBuffers.OneMorePin(s, id, s.table[id], Seen(s, s'))
  {
    hide Others;
  }

  /** The pin is counted and settled, or undone under a shared table lock if it was the first. */
  lemma CountAndSettle(s: State, x: Tid) returns (s': State)
    requires Inv(s) && Quiet(s, x) && x in s.threads && s.threads[x].stage == Inside && s.threads[x].id in s.table
    ensures Inv(s') && Quiet(s', x) && Reaches(s, x, s')
    ensures var t, i := s.threads[x], s.table[s.threads[x].id];
            i < |s.pages| &&
            if s.pages[i].pins == 0 && !t.ex
            then s' == s.(threads := s.threads[x := t.(stage := Enter, ex := true, slot := i, pinned := t.id, first := true)])
            else Wants(s', x, t.id, i, false) && PageBuffers.OneMorePin(s, t.id, i, Seen(s, s'))
  {
    LookUpNext(s, x);
    hide *;
    Take(s, x, LookUp(0));
    HitIs(s, x);
    var s1 := Do(s, x, LookUp(0));
    SettleNext(s1, x);
    Take(s1, x, Settle);
    SettledIs(s1, x);
    s' := Do(s1, x, Settle);
    ReachesThen(s, x, s1, s');
    AfterSettle(s, x, s1, s');
  }

  lemma LookUpNext(s: State, x: Tid)
    requires x in s.threads && s.threads[x].stage == Inside && s.threads[x].id in s.table
    ensures Guard(s, x, LookUp(0))
  {
  }

  lemma AfterSettle(s: State, x: Tid, s1: State, s': State)
    requires x in s.threads && s.threads[x].id in s.table && s.table[s.threads[x].id] < |s.pages|
    requires var t, i := s.threads[x], s.table[s.threads[x].id];
             s1 == s.(pages := s.pages[i := s.pages[i].(pins := s.pages[i].pins + 1)],
                      threads := s.threads[x := t.(stage := Counted, slot := i, pinned := t.id, first := s.pages[i].pins == 0)])
    requires var t, i := s1.threads[x], s.table[s.threads[x].id];
             (!t.first ==> s' == Set(s1, x, t.(stage := Want, raw := false))) &&
             (t.first && t.ex ==>
                s' == s1.(fifo := Others(s1.fifo, t.id), lru := [Entry(t.id, i)] + Others(s1.lru, t.id),
                          threads := s1.threads[x := t.(stage := Want, raw := false)])) &&
             (t.first && !t.ex ==>
                s' == s1.(pages := s1.pages[i := s1.pages[i].(pins := s1.pages[i].pins - 1)],
                          threads := s1.threads[x := t.(stage := Enter, ex := true)]))
    ensures var t, i := s.threads[x], s.table[s.threads[x].id];
            if s.pages[i].pins == 0 && !t.ex
            then s' == s.(threads := s.threads[x := t.(stage := Enter, ex := true, slot := i, pinned := t.id, first := true)])
            else Wants(s', x, t.id, i, false) && PageBuffers.OneMorePin(s, t.id, i, Seen(s, s'))
  {
    var t, i := s.threads[x], s.table[s.threads[x].id];
    hide Others, Wants, PageBuffers.OneMorePin;
    if s.pages[i].pins == 0 && !t.ex {
      PinUndone(s, i, s1.pages);
      assert s'.threads == s.threads[x := t.(stage := Enter, ex := true, slot := i, pinned := t.id, first := true)];
    } else {
      HitOutcome(s, x, s');
    }
  }

  lemma PinUndone(s: State, i: Slot, counted: seq<Page>)
    requires i < |s.pages| && counted == s.pages[i := s.pages[i].(pins := s.pages[i].pins + 1)]
    ensures counted[i := counted[i].(pins := counted[i].pins - 1)] == s.pages
  {
  }

  /** A resident page. Without the exclusive table lock a first pin is undone, and the thread starts
      again. */
  lemma HitAlone(s: State, x: Tid) returns (s': State)
    requires Inv(s) && Quiet(s, x) && s.threads[x].stage == Inside && s.threads[x].id in s.table
    ensures Inv(s') && Quiet(s', x) && Reaches(s, x, s')
    ensures var id := s.threads[x].id;
            Wants(s', x, id, s.table[id], false) && PageBuffers.OneMorePin(s, id, s.table[id], Seen(s, s'))
    decreases !s.threads[x].ex
  {
    QuietThread(s, x);
    hide *;
    var t, i := s.threads[x], s.table[s.threads[x].id];
    s' := CountAndSettle(s, x);
    if s.pages[i].pins == 0 && !t.ex {
      var s2 := s';
      var s3 := LockIn(s2, x);
      SetTwice(s, x, s2.threads[x], s2.threads[x].(stage := Inside));
      ReachesThen(s, x, s2, s3);
      s' := HitAlone(s3, x);
      ReachesThen(s, x, s3, s');
      SamePin(s, s3, t.id, i, s');
    }
  }

  lemma SettleNext(s: State, x: Tid)
    requires x in s.threads && s.threads[x].stage == Counted
    ensures Guard(s, x, Settle)
  {
  }

  lemma SetTwice(s: State, x: Tid, t: Thread, t': Thread)
    ensures Set(s.(threads := s.threads[x := t]), x, t') == s.(threads := s.threads[x := t'])
  {
    assert s.threads[x := t][x := t'] == s.threads[x := t'];
  }

  /** Threads do not matter to what happens to a page. */
  lemma SamePin(s: State, s1: State, id: Id, i: Slot, s': State)
    requires s1 == s.(threads := s1.threads) && PageBuffers.OneMorePin(s1, id, i, Seen(s1, s'))
    ensures PageBuffers.OneMorePin(s, id, i, Seen(s, s'))
  {
    hide Others;
  }

  // ---- the slot is bound ----------------------------------------------------------------------

  /** What the slot holds once the page has been loaded, or its load skipped. */
  function Filled(s: State, i: Slot, id: Id, skip: bool): seq<Page>
    requires i < |s.pages|
  {
    if skip then s.pages else s.pages[i := s.pages[i].(data := s.disk(id))]
  }

  lemma FillIs(s: State, x: Tid)
    requires Enabled(s, x, Fill)
    ensures x in s.threads
    ensures var t := s.threads[x];
            Do(s, x, Fill) == Set(s, x, if t.skip then t.(stage := Want, raw := true) else t.(stage := Loading))
  {
    BufferRuns.Stepper(s, x, Fill);
    hide Guard, Sound;
  }

  lemma LoadIs(s: State, x: Tid)
    requires Enabled(s, x, Load)
    ensures x in s.threads && s.threads[x].slot < |s.pages|
    ensures var t := s.threads[x];
            Do(s, x, Load) == s.(pages := s.pages[t.slot := s.pages[t.slot].(data := s.disk(t.id))],
                                 threads := s.threads[x := t.(stage := Want, raw := false)])
  {
  }

  lemma FillAlone(s: State, x: Tid) returns (s': State)
    requires Inv(s) && Quiet(s, x) && s.threads[x].stage == Bound && s.threads[x].slot < |s.pages|
    ensures Inv(s') && Quiet(s', x) && Reaches(s, x, s')
    ensures var t := s.threads[x];
            Wants(s', x, t.id, t.slot, t.skip) && s'.(threads := s.threads) == s.(pages := Filled(s, t.slot, t.id, t.skip))
  {
    QuietThread(s, x);
    var t := s.threads[x];
    assert Guard(s, x, Fill);
    hide *;
    Take(s, x, Fill);
    FillIs(s, x);
    s' := Do(s, x, Fill);
    SetIs(s, x, if t.skip then t.(stage := Want, raw := true) else t.(stage := Loading));
    FilledIs(s, t.slot, t.id, t.skip);
    if t.skip {
      WantsFrom(s', x, t.id, t.slot, true);
    } else {
      var s1 := s';
      LoadNext(s1, x);
      Take(s1, x, Load);
      LoadIs(s1, x);
      s' := Do(s1, x, Load);
      ReachesThen(s, x, s1, s');
      WantsFrom(s', x, t.id, t.slot, false);
    }
  }

  lemma LoadNext(s: State, x: Tid)
    requires x in s.threads && s.threads[x].stage == Loading
    ensures Guard(s, x, Load)
  {
  }

  lemma SetIs(s: State, x: Tid, t: Thread)
    ensures Set(s, x, t) == s.(threads := s.threads[x := t])
  {
  }

  lemma FilledIs(s: State, i: Slot, id: Id, skip: bool)
    requires i < |s.pages|
    ensures Filled(s, i, id, skip) == if skip then s.pages else s.pages[i := s.pages[i].(data := s.disk(id))]
  {
  }

  lemma WantsFrom(s: State, x: Tid, id: Id, i: Slot, raw: bool)
    requires x in s.threads && s.threads[x].stage == Want && s.threads[x].id == id && s.threads[x].slot == i && s.threads[x].raw == raw
    ensures Wants(s, x, id, i, raw)
  {
  }

  // ---- a free slot ----------------------------------------------------------------------------

  lemma UpgradeIs(s: State, x: Tid, i: Slot)
    requires Enabled(s, x, LookUp(i)) && s.threads[x].id !in s.table && |s.table| < SLOTS && !s.threads[x].ex
    ensures x in s.threads && Do(s, x, LookUp(i)) == s.(threads := s.threads[x := s.threads[x].(stage := Enter, ex := true)])
  {
    BufferRuns.LookUpIs(s, x, i);
    BufferRuns.Stepper(s, x, LookUp(i));
    hide Do, Guard, Sound;
  }

  lemma TakenIs(s: State, x: Tid, i: Slot)
    requires Enabled(s, x, LookUp(i)) && s.threads[x].id !in s.table && |s.table| < SLOTS && s.threads[x].ex
    ensures x in s.threads && i in s.free && i < |s.pages|
    ensures var t := s.threads[x];
            Do(s, x, LookUp(i)) ==
              s.(free := s.free - {i}, table := s.table[t.id := i], fifo := [Entry(t.id, i)] + s.fifo,
                 pages := s.pages[i := s.pages[i].(id := t.id, pins := 1, dirty := false)],
                 threads := s.threads[x := t.(stage := Bound, slot := i, pinned := t.id)])
  {
  }

  lemma FreeNext(s: State, x: Tid) returns (i: Slot)
    requires Inv(s) && x in s.threads && s.threads[x].stage == Inside && s.threads[x].id !in s.table && |s.table| < SLOTS
    ensures i in s.free && Guard(s, x, LookUp(i))
  {
    BufferRuns.Partition(s);
    hide Inv;
    assert s.free != {};
    i :| i in s.free;
  }

  lemma LoadOutcome(s: State, x: Tid, i: Slot, s1: State, s': State)
    requires x in s.threads && i in s.free && i < |s.pages|
    requires var t := s.threads[x];
             s1 == s.(free := s.free - {i}, table := s.table[t.id := i], fifo := [Entry(t.id, i)] + s.fifo,
                      pages := s.pages[i := s.pages[i].(id := t.id, pins := 1, dirty := false)],
                      threads := s.threads[x := t.(stage := Bound, slot := i, pinned := t.id)]) &&
             s'.(threads := s1.threads) == s1.(pages := Filled(s1, i, t.id, t.skip))
    ensures var t := s.threads[x]; PageBuffers.LoadedInto(s, t.id, i, t.skip, Seen(s, s'))
  {
  }

  /** A page that is not resident, and a free slot. The table is locked exclusively first. */
  lemma FreeAlone(s: State, x: Tid) returns (s': State, i: Slot)
    requires Inv(s) && Quiet(s, x) && s.threads[x].stage == Inside && s.threads[x].id !in s.table && |s.table| < SLOTS
    ensures Inv(s') && Quiet(s', x) && Reaches(s, x, s')
    ensures var t := s.threads[x]; Wants(s', x, t.id, i, t.skip) && PageBuffers.LoadedInto(s, t.id, i, t.skip, Seen(s, s'))
    decreases !s.threads[x].ex
  {
    QuietThread(s, x);
    hide *;
    var t := s.threads[x];
    i := FreeNext(s, x);
    Take(s, x, LookUp(i));
    var s1 := Do(s, x, LookUp(i));
    if t.ex {
      TakenIs(s, x, i);
      s' := FillAlone(s1, x);
      ReachesThen(s, x, s1, s');
      LoadOutcome(s, x, i, s1, s');
    } else {
      UpgradeIs(s, x, i);
      var s2 := LockIn(s1, x);
      ReachesThen(s, x, s1, s2);
      SetTwice(s, x, t.(stage := Enter, ex := true), t.(stage := Inside, ex := true));
      assert s2 == s.(threads := s.threads[x := t.(stage := Inside, ex := true)]);
      s', i := FreeAlone(s2, x);
      ReachesThen(s, x, s2, s');
      SameLoad(s, s2, t.id, i, t.skip, s');
    }
  }

  lemma SameLoad(s: State, s1: State, id: Id, i: Slot, skip: bool, s': State)
    requires s1 == s.(threads := s1.threads) && PageBuffers.LoadedInto(s1, id, i, skip, Seen(s1, s'))
    ensures PageBuffers.LoadedInto(s, id, i, skip, Seen(s, s'))
  {
  }

  // ---- the scan -------------------------------------------------------------------------------

  /** All entries from position `from` on are pinned. */
  ghost predicate PinnedFrom(q: Entries, pages: seq<Page>, from: nat) {
    forall j :: from <= j < |q| ==> q[j].value < |pages| && pages[q[j].value].pins > 0
  }

  /** The scan has passed pinned pages only. */
  ghost predicate ScanState(s: State, x: Tid) {
    x in s.threads &&
    var t := s.threads[x];
    (t.stage.ScanFifo? && PinnedFrom(s.fifo, s.pages, t.index)) ||
    (t.stage.ScanLru? && PinnedFrom(s.fifo, s.pages, 0) && PinnedFrom(s.lru, s.pages, t.index))
  }

  /** It has picked the victim of the 2Q policy, or there is none. */
  ghost predicate ScanResult(s: State, x: Tid) {
    x in s.threads &&
    var t := s.threads[x];
    if t.stage.Full? then PageBuffers.NoneUnpinned(s.fifo, s.pages) && PageBuffers.NoneUnpinned(s.lru, s.pages)
    else
      t.stage.Picked? && t.slot < |s.pages| && s.pages[t.slot].pins == 0 &&
      (t.fromFifo <==> !PageBuffers.NoneUnpinned(s.fifo, s.pages)) &&
      PageBuffers.LastUnpinned(if t.fromFifo then s.fifo else s.lru, s.pages, t.pinned)
  }

  lemma PickedResult(s: State, q: Entries, k: nat, pinned: Id, slot: Slot)
    requires UniqueKeys(q) && k < |q| && q[k].key == pinned && q[k].value == slot < |s.pages| && s.pages[slot].pins == 0
    requires PinnedFrom(q, s.pages, k + 1)
    ensures PageBuffers.LastUnpinned(q, s.pages, pinned) && !PageBuffers.NoneUnpinned(q, s.pages)
  {
    PositionUnique(q, k);
    hide Position, UniqueKeys;
  }

  /** One step of the scan. */
  lemma ScanOne(s: State, x: Tid, s': State)
    requires Inv(s) && ScanState(s, x) && Enabled(s, x, Scan) && s' == Do(s, x, Scan)
    ensures x in s.threads && x in s'.threads && s' == s.(threads := s.threads[x := s'.threads[x]])
    ensures var t, t' := s.threads[x], s'.threads[x];
            t'.id == t.id && t'.skip == t.skip && t'.ex == t.ex &&
            (ScanResult(s', x) ||
             (ScanState(s', x) && (t.stage.ScanFifo? || t'.stage.ScanLru?) &&
              ((t.stage.ScanFifo? && t'.stage.ScanLru?) || (t'.stage == t.stage && t'.index < t.index))))
  {
    hide *;
    BufferRuns.ScanTo(s, x);
    ScanShape(s, x);
    BufferRuns.InvQueues(s);
    ScanParts(s, x);
    var t, t' := s.threads[x], s'.threads[x];
    var q := QueueOf(s, t);
    if t.index == 0 {
      EndOfQueue(s, x, s');
    } else if s.pages[q[t.index - 1].value].pins == 0 {
      PickedResult(s, q, t.index - 1, q[t.index - 1].key, q[t.index - 1].value);
      ResultFrom(s, x, s');
    } else {
      PassedOne(s, x, s');
    }
  }

  lemma ScanShape(s: State, x: Tid)
    requires Enabled(s, x, Scan)
    ensures x in s.threads && x in Do(s, x, Scan).threads
    ensures Do(s, x, Scan) == s.(threads := s.threads[x := Do(s, x, Scan).threads[x]])
  {
    BufferRuns.ScanIs(s, x);
    hide Do, Guard;
  }

  lemma ScanParts(s: State, x: Tid)
    requires ScanState(s, x)
    ensures var t := s.threads[x];
            (t.stage.ScanFifo? || t.stage.ScanLru?) && PinnedFrom(QueueOf(s, t), s.pages, t.index) &&
            QueueOf(s, t) == (if t.stage.ScanFifo? then s.fifo else s.lru) &&
            (t.stage.ScanLru? ==> PageBuffers.NoneUnpinned(s.fifo, s.pages) && PinnedFrom(s.fifo, s.pages, 0))
  {
  }

  lemma EndOfQueue(s: State, x: Tid, s': State)
    requires ScanState(s, x) && s.threads[x].index == 0 && x in s'.threads && s' == s.(threads := s.threads[x := s'.threads[x]])
    requires var t := s.threads[x];
             s'.threads[x] == if t.stage.ScanFifo? then t.(stage := ScanLru, index := |s.lru|) else t.(stage := Full)
    ensures if s.threads[x].stage.ScanFifo? then ScanState(s', x) else ScanResult(s', x)
  {
  }

  lemma ResultFrom(s: State, x: Tid, s': State)
    requires ScanState(s, x) && x in s'.threads && s' == s.(threads := s.threads[x := s'.threads[x]])
    requires var t, t' := s.threads[x], s'.threads[x];
             t'.stage.Picked? && t'.slot < |s.pages| && s.pages[t'.slot].pins == 0 && (t'.fromFifo <==> t.stage.ScanFifo?) &&
             var q := if t.stage.ScanFifo? then s.fifo else s.lru;
             PageBuffers.LastUnpinned(q, s.pages, t'.pinned) && !PageBuffers.NoneUnpinned(q, s.pages)
    ensures ScanResult(s', x)
  {
    ScanParts(s, x);
    hide PageBuffers.LastUnpinned, PageBuffers.NoneUnpinned, ScanState;
  }

  lemma PassedOne(s: State, x: Tid, s': State)
    requires ScanState(s, x) && s.threads[x].index > 0 && x in s'.threads && s' == s.(threads := s.threads[x := s'.threads[x]])
    requires var t := s.threads[x];
             s'.threads[x] == t.(index := t.index - 1) && t.index <= |QueueOf(s, t)| &&
             QueueOf(s, t)[t.index - 1].value < |s.pages| && s.pages[QueueOf(s, t)[t.index - 1].value].pins > 0
    ensures ScanState(s', x)
  {
  }

  lemma ScanNext(s: State, x: Tid)
    requires ScanState(s, x)
    ensures x in s.threads && Guard(s, x, Scan)
  {
  }

  lemma ScanAlone(s: State, x: Tid) returns (s': State)
    requires Inv(s) && Quiet(s, x) && ScanState(s, x)
    ensures Inv(s') && Quiet(s', x) && Reaches(s, x, s') && ScanResult(s', x)
    ensures x in s.threads && x in s'.threads && s' == s.(threads := s.threads[x := s'.threads[x]])
    ensures var t, t' := s.threads[x], s'.threads[x]; t'.id == t.id && t'.skip == t.skip && t'.ex == t.ex
    decreases s.threads[x].stage.ScanFifo?, s.threads[x].index
  {
    hide *;
    ScanNext(s, x);
    Take(s, x, Scan);
    var s1 := Do(s, x, Scan);
    ScanOne(s, x, s1);
    if ScanResult(s1, x) {
      s' := s1;
    } else {
      s' := ScanAlone(s1, x);
      ReachesThen(s, x, s1, s');
      assert s.threads[x := s1.threads[x]][x := s'.threads[x]] == s.threads[x := s'.threads[x]];
    }
  }

  // ---- the eviction ---------------------------------------------------------------------------

  /** Nobody else has a pin on the slot. */
  ghost predicate Unshared(s: State, x: Tid, i: Slot) {
    forall y :: y in s.threads && y != x ==> !PinsSlot(s.threads[y], i)
  }

  lemma NobodyPins(s: State, x: Tid, i: Slot)
    requires Inv(s) && i < |s.pages| && s.pages[i].pins == 0
    ensures Unshared(s, x, i)
  {
    assert PinsOK(s);
    hide Inv, PinsSlot;
    assert Pinners(s.threads, i) == {};
    forall y | y in s.threads ensures !PinsSlot(s.threads[y], i) {
      assert y !in Pinners(s.threads, i);
    }
  }

  /** The thread works on the victim in slot `i`: it has pinned it once, and the flag and the disk
      are as given; nothing else has changed. */
  ghost predicate AtVictim(s: State, x: Tid, i: Slot, stage: Stage, dirty: bool, disk: Id -> Data, s': State) {
    x in s.threads && i < |s.pages| && x in s'.threads &&
    var t := s.threads[x];
    s' == s.(pages := s.pages[i := s.pages[i].(pins := 1, dirty := dirty)], disk := disk,
             threads := s.threads[x := t.(stage := stage, ex := s'.threads[x].ex)])
  }

  lemma PinPickedIs(s: State, x: Tid)
    requires Enabled(s, x, PinPicked) && s.threads[x].slot < |s.pages| && s.pages[s.threads[x].slot].pins == 0
    ensures AtVictim(s, x, s.threads[x].slot, Reserved, s.pages[s.threads[x].slot].dirty, s.disk, Do(s, x, PinPicked))
    ensures Do(s, x, PinPicked).threads[x].ex == s.threads[x].ex
  {
  }

  /** The steps on the victim up to the second check of its flag, in the order they come. */
  predicate OnVictim(step: Step) {
    step.CheckDirty? || step.ClearDirty? || step.LockToSave? || step.Save? || step.LockAgain?
  }

  /** Where a thread takes such a step. */
  function StageBefore(step: Step): Stage
    requires OnVictim(step)
  {
    match step
    case CheckDirty => Reserved
    case ClearDirty => Cleaning
    case LockToSave => Cleared
    case Save => Saving
    case _ => Relock
  }

  /** Where it comes to by the step. */
  function NextStage(step: Step, dirty: bool, ex: bool): Stage
    requires OnVictim(step)
  {
    match step
    case CheckDirty => if dirty then Cleaning else if ex then Recheck else Relock
    case ClearDirty => Cleared
    case LockToSave => Saving
    case Save => Relock
    case _ => Recheck
  }

  lemma VictimStep(s: State, x: Tid, i: Slot, dirty: bool, disk: Id -> Data, s1: State, step: Step)
    requires x in s.threads && x in s1.threads && AtVictim(s, x, i, s1.threads[x].stage, dirty, disk, s1) && s.threads[x].slot == i
    requires Enabled(s1, x, step) && OnVictim(step)
    ensures x in Do(s1, x, step).threads
    ensures var s2, ex := Do(s1, x, step), s1.threads[x].ex;
            AtVictim(s, x, i, NextStage(step, dirty, ex), if step.ClearDirty? then false else dirty,
                     if step.Save? then Put(disk, s.pages[i].id, s.pages[i].data) else disk, s2) &&
            s2.threads[x].stage == NextStage(step, dirty, ex) && (s2.threads[x].ex <==> ex || step.LockAgain?)
  {
    hide *;
    VictimSlot(s, x, i, dirty, disk, s1);
    VictimDo(s1, x, step);
    AtVictimNext(s, x, i, dirty, disk, s1, NextStage(step, dirty, s1.threads[x].ex), if step.ClearDirty? then false else dirty,
                 if step.Save? then Put(disk, s.pages[i].id, s.pages[i].data) else disk, s1.threads[x].ex || step.LockAgain?, Do(s1, x, step));
  }

  lemma VictimSlot(s: State, x: Tid, i: Slot, dirty: bool, disk: Id -> Data, s1: State)
    requires x in s.threads && x in s1.threads && AtVictim(s, x, i, s1.threads[x].stage, dirty, disk, s1)
    ensures i < |s.pages| == |s1.pages| && s1.threads[x].slot == s.threads[x].slot && s1.disk == disk
    ensures s1.pages[i].dirty == dirty && s1.pages[i].id == s.pages[i].id && s1.pages[i].data == s.pages[i].data
  {
  }

  lemma AtVictimNext(s: State, x: Tid, i: Slot, dirty: bool, disk: Id -> Data, s1: State,
                     stage: Stage, dirty2: bool, disk2: Id -> Data, ex: bool, s2: State)
    requires x in s.threads && x in s1.threads && AtVictim(s, x, i, s1.threads[x].stage, dirty, disk, s1) && i < |s1.pages|
    requires s2 == s1.(pages := s1.pages[i := s1.pages[i].(dirty := dirty2)], disk := disk2,
                       threads := s1.threads[x := s1.threads[x].(stage := stage, ex := ex)])
    ensures AtVictim(s, x, i, stage, dirty2, disk2, s2) && x in s2.threads && s2.threads[x].stage == stage && s2.threads[x].ex == ex
  {
    UpdateTwice(s.pages, i, s1.pages[i], s1.pages[i].(dirty := dirty2));
    SetAgain(s.threads, x, s1.threads[x], s1.threads[x].(stage := stage, ex := ex));
    SamePages(s, x, i, dirty, disk, s1);
    hide Unshared, Inv;
  }

  lemma SamePages(s: State, x: Tid, i: Slot, dirty: bool, disk: Id -> Data, s1: State)
    requires x in s.threads && x in s1.threads && AtVictim(s, x, i, s1.threads[x].stage, dirty, disk, s1)
    ensures i < |s.pages| == |s1.pages| && s1.pages == s.pages[i := s1.pages[i]] && s1.threads == s.threads[x := s1.threads[x]]
  {
  }

  lemma UpdateTwice<T>(s: seq<T>, i: nat, a: T, b: T)
    requires i < |s|
    ensures s[i := a][i := b] == s[i := b]
  {
  }

  lemma SetAgain(threads: map<Tid, Thread>, x: Tid, a: Thread, b: Thread)
    ensures threads[x := a][x := b] == threads[x := b]
  {
  }

  lemma NextStages(dirty: bool)
    ensures OnVictim(CheckDirty) && OnVictim(ClearDirty) && OnVictim(LockToSave) && OnVictim(Save) && OnVictim(LockAgain)
    ensures StageBefore(CheckDirty) == Reserved && StageBefore(ClearDirty) == Cleaning && StageBefore(LockToSave) == Cleared
    ensures StageBefore(Save) == Saving && StageBefore(LockAgain) == Relock
    ensures forall ex :: NextStage(CheckDirty, dirty, ex) == if dirty then Cleaning else if ex then Recheck else Relock
    ensures forall ex, d :: NextStage(ClearDirty, d, ex) == Cleared && NextStage(LockToSave, d, ex) == Saving
    ensures forall ex, d :: NextStage(Save, d, ex) == Relock && NextStage(LockAgain, d, ex) == Recheck
  {
  }

  lemma VictimDo(s: State, x: Tid, step: Step)
    requires Enabled(s, x, step) && OnVictim(step) && x in s.threads && s.threads[x].slot < |s.pages|
    ensures var t, p := s.threads[x], s.pages[s.threads[x].slot];
            Do(s, x, step) ==
              s.(pages := s.pages[t.slot := p.(dirty := if step.ClearDirty? then false else p.dirty)],
                 disk := if step.Save? then Put(s.disk, p.id, p.data) else s.disk,
                 threads := s.threads[x := t.(stage := NextStage(step, p.dirty, t.ex), ex := t.ex || step.LockAgain?)])
  {
    hide Guard, Sound, Put;
    var p := s.pages[s.threads[x].slot];
    assert s.pages[s.threads[x].slot := p.(dirty := p.dirty)] == s.pages;
  }

  lemma VictimGuard(s: State, x: Tid, i: Slot, dirty: bool, disk: Id -> Data, s1: State, step: Step)
    requires Quiet(s, x) && x in s1.threads && AtVictim(s, x, i, s1.threads[x].stage, dirty, disk, s1) && s.threads[x].slot == i
    requires Unshared(s, x, i) && OnVictim(step)
    requires s1.threads[x].stage == StageBefore(step)
    ensures Guard(s1, x, step)
  {
    hide Inv;
    assert forall y :: y in s.threads && y != x ==> s1.threads[y] == s.threads[y];
    assert forall y :: y in s.threads && y != x && HoldsPageAlone(s.threads[y]) ==> PinsSlot(s.threads[y], s.threads[y].slot);
  }

  /** One more step on the victim. */
  lemma OnVictimAlone(s: State, x: Tid, i: Slot, dirty: bool, disk: Id -> Data, s1: State, step: Step)
    requires Inv(s1) && Quiet(s, x) && Quiet(s1, x) && Unshared(s, x, i) && OnVictim(step) && Reaches(s, x, s1)
    requires x in s1.threads && AtVictim(s, x, i, s1.threads[x].stage, dirty, disk, s1) && s.threads[x].slot == i
    requires s1.threads[x].stage == StageBefore(step)
    ensures Enabled(s1, x, step) && x in Do(s1, x, step).threads
    ensures var s2 := Do(s1, x, step);
            Inv(s2) && Quiet(s2, x) && Reaches(s, x, s2) &&
            AtVictim(s, x, i, s2.threads[x].stage, if step.ClearDirty? then false else dirty,
                     if step.Save? then Put(disk, s.pages[i].id, s.pages[i].data) else disk, s2) &&
            s2.threads[x].stage == NextStage(step, dirty, s1.threads[x].ex) &&
            (s2.threads[x].ex <==> s1.threads[x].ex || step.LockAgain?)
  {
    hide *;
    QuietThread(s, x);
    VictimGuard(s, x, i, dirty, disk, s1, step);
    Take(s1, x, step);
    VictimStep(s, x, i, dirty, disk, s1, step);
    ReachesThen(s, x, s1, Do(s1, x, step));
  }

  /** The picked page is pinned and, if it is dirty, written back; the table is locked exclusively. */
  lemma CleanAlone(s: State, x: Tid) returns (s': State)
    requires Inv(s) && Quiet(s, x) && x in s.threads && s.threads[x].stage == Picked
    requires s.threads[x].slot < |s.pages| && s.pages[s.threads[x].slot].pins == 0
    ensures Inv(s') && Quiet(s', x) && Reaches(s, x, s')
    ensures var i := s.threads[x].slot;
            AtVictim(s, x, i, Recheck, false, PageBuffers.SavedDisk(s, i), s')
  {
    hide *;
    NextStages(s.pages[s.threads[x].slot].dirty);
    var i := s.threads[x].slot;
    NobodyPins(s, x, i);
    PinNext(s, x);
    Take(s, x, PinPicked);
    PinPickedIs(s, x);
    s' := Do(s, x, PinPicked);
    VictimStage(s, x, i, Reserved, s.pages[i].dirty, s.disk, s');
    OnVictimAlone(s, x, i, s.pages[i].dirty, s.disk, s', CheckDirty);
    s' := Do(s', x, CheckDirty);
    SavedIs(s, i);
    if s.pages[i].dirty {
      OnVictimAlone(s, x, i, true, s.disk, s', ClearDirty);
      s' := Do(s', x, ClearDirty);
      OnVictimAlone(s, x, i, false, s.disk, s', LockToSave);
      s' := Do(s', x, LockToSave);
      OnVictimAlone(s, x, i, false, s.disk, s', Save);
      s' := Do(s', x, Save);
    }
    if s'.threads[x].stage == Relock {
      OnVictimAlone(s, x, i, false, PageBuffers.SavedDisk(s, i), s', LockAgain);
      s' := Do(s', x, LockAgain);
    }
  }

  lemma PinNext(s: State, x: Tid)
    requires x in s.threads && s.threads[x].stage == Picked
    ensures Guard(s, x, PinPicked)
  {
  }

  lemma VictimStage(s: State, x: Tid, i: Slot, stage: Stage, dirty: bool, disk: Id -> Data, s': State)
    requires AtVictim(s, x, i, stage, dirty, disk, s')
    ensures x in s'.threads && s'.threads[x].stage == stage
  {
  }

  lemma SavedIs(s: State, i: Slot)
    requires i < |s.pages|
    ensures PageBuffers.SavedDisk(s, i) == if s.pages[i].dirty then Put(s.disk, s.pages[i].id, s.pages[i].data) else s.disk
  {
  }

  lemma CheckIs(s: State, x: Tid)
    requires Enabled(s, x, Check) && s.threads[x].slot < |s.pages| && MayEvict(s, s.threads[x])
    ensures x in s.threads && Do(s, x, Check) == s.(threads := s.threads[x := s.threads[x].(stage := Sole)])
  {
    BufferRuns.Stepper(s, x, Check);
    hide Guard, Sound, MayEvict;
  }

  lemma CheckCleanIs(s: State, x: Tid)
    requires Enabled(s, x, CheckClean) && s.threads[x].slot < |s.pages| && !s.pages[s.threads[x].slot].dirty
    ensures x in s.threads && Do(s, x, CheckClean) == s.(threads := s.threads[x := s.threads[x].(stage := Clean)])
  {
    BufferRuns.Stepper(s, x, CheckClean);
    hide Guard, Sound;
  }

  lemma CheckNext(s: State, x: Tid)
    requires x in s.threads
    ensures s.threads[x].stage == Recheck ==> Guard(s, x, Check)
    ensures s.threads[x].stage == Sole ==> Guard(s, x, CheckClean)
    ensures s.threads[x].stage == Clean ==> Guard(s, x, TakeOver)
  {
  }

  lemma StillEvictable(s: State, x: Tid, s1: State)
    requires x in s.threads && AtVictim(s, x, s.threads[x].slot, Recheck, false, s1.disk, s1) && x in s1.threads
    requires s.threads[x].id !in s.table && Position(if s.threads[x].fromFifo then s.fifo else s.lru, s.threads[x].pinned) <
                                           |if s.threads[x].fromFifo then s.fifo else s.lru|
    ensures s1.threads[x].stage == Recheck && s1.threads[x].slot < |s1.pages| && !s1.pages[s1.threads[x].slot].dirty
    ensures MayEvict(s1, s1.threads[x])
  {
    hide Position;
  }

  /** Once the victim is clean the thread checks it again and takes its slot over. */
  lemma TakeOverAlone(s: State, x: Tid, s1: State) returns (s': State)
    requires x in s.threads && Inv(s1) && Quiet(s1, x) && AtVictim(s, x, s.threads[x].slot, Recheck, false, s1.disk, s1)
    requires s.threads[x].id !in s.table && Position(if s.threads[x].fromFifo then s.fifo else s.lru, s.threads[x].pinned) <
                                           |if s.threads[x].fromFifo then s.fifo else s.lru|
    ensures Inv(s') && Quiet(s', x) && Reaches(s1, x, s') && x in s1.threads
    ensures var t := s1.threads[x];
            x in s'.threads && t.slot < |s1.pages| && BufferRuns.Replaced(s1, t.id, t.pinned, s') &&
            s'.threads[x].stage == Bound && s'.threads[x].id == t.id && s'.threads[x].slot == t.slot && s'.threads[x].skip == t.skip &&
            s' == s1.(table := s'.table, fifo := s'.fifo, lru := s'.lru,
                      pages := s1.pages[t.slot := s1.pages[t.slot].(id := t.id, dirty := false)], threads := s'.threads)
  {
    hide *;
    QuietThread(s1, x);
    StillEvictable(s, x, s1);
    var t := s1.threads[x];
    CheckNext(s1, x);
    Take(s1, x, Check);
    CheckIs(s1, x);
    var s2 := Do(s1, x, Check);
    CheckNext(s2, x);
    Take(s2, x, CheckClean);
    CheckCleanIs(s2, x);
    var s3 := Do(s2, x, CheckClean);
    ReachesThen(s1, x, s2, s3);
    CheckNext(s3, x);
    Take(s3, x, TakeOver);
    s' := Do(s3, x, TakeOver);
    ReachesThen(s1, x, s3, s');
    BufferRuns.EvictMoves(s3, x);
    EvictShape(s3, x);
    SameMove(s1, s3, t.id, t.pinned, s');
  }

  lemma SameMove(s: State, s1: State, id: Id, victim: Id, s': State)
    requires s1 == s.(threads := s1.threads) && BufferRuns.Replaced(s1, id, victim, s')
    ensures BufferRuns.Replaced(s, id, victim, s')
  {
    hide Others;
  }

  lemma EvictShape(s: State, x: Tid)
    requires Enabled(s, x, TakeOver)
    ensures x in s.threads && s.threads[x].slot < |s.pages|
    ensures var t, s' := s.threads[x], Do(s, x, TakeOver);
            s' == s.(table := s'.table, fifo := s'.fifo, lru := s'.lru,
                     pages := s.pages[t.slot := s.pages[t.slot].(id := t.id, dirty := false)],
                     threads := s.threads[x := t.(stage := Bound, pinned := t.id)])
  {
    hide Pushed, Removed, Position, MayEvict, Put;
  }

  lemma ReplaceOutcome(s: State, x: Tid, s1: State, s2: State, s': State)
    requires x in s.threads && s.threads[x].slot < |s.pages|
    requires AtVictim(s, x, s.threads[x].slot, Recheck, false, PageBuffers.SavedDisk(s, s.threads[x].slot), s1)
    requires s.threads[x].pinned in s.table && s.table[s.threads[x].pinned] == s.threads[x].slot
    requires s.pages[s.threads[x].slot].id == s.threads[x].pinned
    requires PageBuffers.Victim(s.fifo, s.lru, s.pages, s.threads[x].pinned)
    requires var t := s.threads[x];
             BufferRuns.Replaced(s1, t.id, t.pinned, s2) &&
             s2 == s1.(table := s2.table, fifo := s2.fifo, lru := s2.lru,
                       pages := s1.pages[t.slot := s1.pages[t.slot].(id := t.id, dirty := false)], threads := s2.threads) &&
             s'.(threads := s2.threads) == s2.(pages := Filled(s2, t.slot, t.id, t.skip))
    ensures var t := s.threads[x]; PageBuffers.Replaced(s, t.id, t.slot, t.skip, Seen(s, s'))
  {
    var t, i := s.threads[x], s.threads[x].slot;
    SavedIs(s, i);
    hide PageBuffers.Victim, Others, PageBuffers.SavedDisk;
    assert s'.pages == s.pages[i := Page(t.id, 1, false, if t.skip then s.pages[i].data else s'.disk(t.id))];
  }

  /** The picked page makes room. */
  lemma EvictAlone(s: State, x: Tid) returns (s': State)
    requires Inv(s) && Quiet(s, x) && x in s.threads && s.threads[x].stage == Picked && s.threads[x].id !in s.table
    requires ScanResult(s, x)
    ensures Inv(s') && Quiet(s', x) && Reaches(s, x, s')
    ensures var t := s.threads[x];
            Wants(s', x, t.id, t.slot, t.skip) && PageBuffers.Replaced(s, t.id, t.slot, t.skip, Seen(s, s'))
  {
    hide *;
    var t := s.threads[x];
    PickedParts(s, x);
    var s1 := CleanAlone(s, x);
    SameDisk(s, x, s1);
    var s2 := TakeOverAlone(s, x, s1);
    ReachesThen(s, x, s1, s2);
    SameThread(s, x, s1);
    s' := FillAlone(s2, x);
    ReachesThen(s, x, s2, s');
    ReplaceOutcome(s, x, s1, s2, s');
  }

  lemma SameDisk(s: State, x: Tid, s1: State)
    requires x in s.threads && s.threads[x].slot < |s.pages|
    requires AtVictim(s, x, s.threads[x].slot, Recheck, false, PageBuffers.SavedDisk(s, s.threads[x].slot), s1)
    ensures s1.disk == PageBuffers.SavedDisk(s, s.threads[x].slot)
  {
    hide PageBuffers.SavedDisk;
  }

  lemma SameThread(s: State, x: Tid, s1: State)
    requires x in s.threads && x in s1.threads && AtVictim(s, x, s.threads[x].slot, Recheck, false, s1.disk, s1)
    ensures var t, t1 := s.threads[x], s1.threads[x];
            t1.id == t.id && t1.slot == t.slot && t1.pinned == t.pinned && t1.skip == t.skip && |s1.pages| == |s.pages|
  {
  }

  lemma PickedParts(s: State, x: Tid)
    requires Inv(s) && x in s.threads && s.threads[x].stage == Picked && ScanResult(s, x)
    ensures var t := s.threads[x];
            t.slot < |s.pages| && s.pages[t.slot].pins == 0 && t.pinned in s.table && s.table[t.pinned] == t.slot && s.pages[t.slot].id == t.pinned &&
            PageBuffers.Victim(s.fifo, s.lru, s.pages, t.pinned) &&
            Position(if t.fromFifo then s.fifo else s.lru, t.pinned) < |if t.fromFifo then s.fifo else s.lru|
  {
    InvParts(s, x);
    hide Inv, QueuesOK, PinsOK, ContentAt, Compatible, Position;
  }

  // ---- pinPage --------------------------------------------------------------------------------

  lemma ScanBeginsIs(s: State, x: Tid)
    requires Enabled(s, x, LookUp(0)) && s.threads[x].id !in s.table && |s.table| >= SLOTS
    ensures x in s.threads && Do(s, x, LookUp(0)) == s.(threads := s.threads[x := s.threads[x].(stage := ScanFifo, index := |s.fifo|)])
  {
    BufferRuns.LookUpIs(s, x, 0);
    BufferRuns.Stepper(s, x, LookUp(0));
    hide Do, Guard, Sound;
  }

  lemma MissNext(s: State, x: Tid)
    requires x in s.threads && s.threads[x].stage == Inside && |s.table| >= SLOTS
    ensures Guard(s, x, LookUp(0))
  {
  }

  lemma ScanBegins(s: State, x: Tid)
    requires x in s.threads && s.threads[x].stage == ScanFifo && s.threads[x].index == |s.fifo|
    ensures ScanState(s, x)
  {
  }

  /** What the scan has found decides: there is no victim exactly if all slots are pinned. */
  lemma FullOutcome(s: State, x: Tid)
    requires Inv(s) && |s.table| >= SLOTS && ScanResult(s, x)
    ensures x in s.threads && (s.threads[x].stage == Full <==> PageBuffers.AllPinned(s.pages))
    ensures s.threads[x].stage != Full ==> s.threads[x].stage == Picked
  {
    BufferRuns.Partition(s);
    assert |s.free| == 0 && s.free == {};
    assert TableOK(s) && QueuesOK(s);
    PageBuffers.QueuesCoverSlots(s);
    ResultParts(s, x);
    hide Inv, TableOK, QueuesOK, ScanResult, PageBuffers.NoneUnpinned, PageBuffers.AllPinned;
  }

  lemma ResultParts(s: State, x: Tid)
    requires ScanResult(s, x)
    ensures x in s.threads && (s.threads[x].stage == Full || s.threads[x].stage == Picked)
    ensures s.threads[x].stage == Full <==> PageBuffers.NoneUnpinned(s.fifo, s.pages) && PageBuffers.NoneUnpinned(s.lru, s.pages)
  {
    var t := s.threads[x];
    if t.stage == Picked && !t.fromFifo { LastIsUnpinned(s.lru, s.pages, t.pinned); }
  }

  lemma LastIsUnpinned(q: Entries, pages: seq<Page>, id: Id)
    requires PageBuffers.LastUnpinned(q, pages, id)
    ensures !PageBuffers.NoneUnpinned(q, pages)
  {
    hide Position;
  }

  /** A page that is not resident, and no free slot. */
  lemma MissAlone(s: State, x: Tid) returns (s': State, i: Slot)
    requires Inv(s) && Quiet(s, x) && s.threads[x].stage == Inside && s.threads[x].id !in s.table && |s.table| >= SLOTS
    ensures Inv(s') && Quiet(s', x) && Reaches(s, x, s')
    ensures var t := s.threads[x];
            if PageBuffers.AllPinned(s.pages) then Seen(s, s') == s && x in s'.threads && s'.threads[x].stage == Full
            else Wants(s', x, t.id, i, t.skip) && PageBuffers.Replaced(s, t.id, i, t.skip, Seen(s, s'))
  {
    hide *;
    QuietThread(s, x);
    var t := s.threads[x];
    MissNext(s, x);
    Take(s, x, LookUp(0));
    ScanBeginsIs(s, x);
    var s1 := Do(s, x, LookUp(0));
    ScanBegins(s1, x);
    var s2 := ScanAlone(s1, x);
    ReachesThen(s, x, s1, s2);
    FullOutcome(s2, x);
    i := 0;
    SeenIs(s, s2);
    if s2.threads[x].stage == Full {
      s' := s2;
      assert s'.(threads := s.threads) == s;
    } else {
      i := s2.threads[x].slot;
      s' := EvictAlone(s2, x);
      ReachesThen(s, x, s2, s');
      SameReplace(s, s2, t.id, i, t.skip, s');
    }
  }

  lemma SeenIs(s: State, s': State)
    ensures Seen(s, s') == s'.(threads := s.threads)
  {
  }

  lemma SameReplace(s: State, s1: State, id: Id, i: Slot, skip: bool, s': State)
    requires s1 == s.(threads := s1.threads) && PageBuffers.Replaced(s1, id, i, skip, Seen(s1, s'))
    ensures PageBuffers.Replaced(s, id, i, skip, Seen(s, s'))
  {
    hide Others, PageBuffers.Victim;
  }

  lemma BeginTo(s: State, x: Tid, id: Id, skip: bool) returns (s': State)
    requires Inv(s) && Quiet(s, x) && Guard(s, x, Begin(id, skip))
    ensures Inv(s') && Quiet(s', x) && Reaches(s, x, s') && x in s.threads
    ensures s' == s.(threads := s.threads[x := s.threads[x].(stage := Inside, id := id, skip := skip, ex := false)])
  {
    hide *;
    QuietThread(s, x);
    var t := s.threads[x].(stage := Enter, id := id, skip := skip, ex := false);
    Take(s, x, Begin(id, skip));
    BeginIs(s, x, id, skip);
    SetIs(s, x, t);
    var s1 := Do(s, x, Begin(id, skip));
    s' := LockIn(s1, x);
    ReachesThen(s, x, s1, s');
    SetTwice(s, x, t, t.(stage := Inside));
  }

  /** From any state that satisfies the invariant: if the other threads are outside or hold pages, the
      steps of one thread lead to exactly the state that the sequential pinPage promises: a hit, a load
      into a free slot, an eviction by the 2Q policy, or, if and only if the page is absent and all
      slots are pinned, "Buffer is full!" with nothing changed. */
  lemma AloneIsSequential(s: State, x: Tid, id: Id, skip: bool) returns (s': State, i: Slot)
    requires Inv(s) && Quiet(s, x) && Guard(s, x, Begin(id, skip))
    ensures Inv(s') && Reaches(s, x, s')
    ensures id in s.table ==> Wants(s', x, id, i, false) && i == s.table[id] && PageBuffers.OneMorePin(s, id, i, Seen(s, s'))
    ensures id !in s.table && |s.table| < SLOTS ==> Wants(s', x, id, i, skip) && PageBuffers.LoadedInto(s, id, i, skip, Seen(s, s'))
    ensures id !in s.table && |s.table| == SLOTS && !PageBuffers.AllPinned(s.pages) ==>
              Wants(s', x, id, i, skip) && PageBuffers.Replaced(s, id, i, skip, Seen(s, s'))
    ensures id !in s.table && |s.table| == SLOTS && PageBuffers.AllPinned(s.pages) ==>
              Seen(s, s') == s && x in s'.threads && s'.threads[x].stage == Full
  {
    hide *;
    var s1 := BeginTo(s, x, id, skip);
    if id in s.table {
      i := s.table[id];
      s' := HitAlone(s1, x);
      SamePin(s, s1, id, i, s');
    } else if |s.table| < SLOTS {
      s', i := FreeAlone(s1, x);
      SameLoad(s, s1, id, i, skip, s');
    } else {
      s', i := MissAlone(s1, x);
      SeenIs(s, s');
      SeenIs(s1, s');
      if !PageBuffers.AllPinned(s.pages) { SameReplace(s, s1, id, i, skip, s'); }
    }
    ReachesThen(s, x, s1, s');
  }
}
