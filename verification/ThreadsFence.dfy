/** The reusable barrier of the benchmark's workers as a step system: two counters, and the
    compare-exchanges that reset them taken as strong. */
module ThreadsFence {

  type Tid = int

  /** Where a thread is inside sync. */
  datatype Stage =
    | AwaitReset      // spins until nobody is counted as released
    | Arrive          // about to count itself as waiting
    | AwaitAll        // spins until all threads are counted as waiting
    | Depart          // about to count itself as released
    | Check           // about to read whether all threads are released
    | ResetWaiting    // about to reset the first counter
    | ResetReleased   // about to reset the second counter

  /** `round` is the number of calls of sync the thread has completed. */
  datatype Thread = Thread(round: nat, stage: Stage)

  /** The two counters, and two history variables: how often the second counter has been reset,
      and whether the first one has been reset since. */
  datatype State = State(threads: map<Tid, Thread>, waiting: nat, released: nat, generation: nat, cleared: bool)

  /** A thread can take a step unless it spins. */
  predicate Enabled(s: State, x: Tid) {
    x in s.threads &&
    match s.threads[x].stage
    case AwaitReset => s.released == 0
    case AwaitAll => s.waiting == |s.threads|
    case _ => true
  }

  function Moved(s: State, x: Tid, stage: Stage): State
    requires x in s.threads
  {
    s.(threads := s.threads[x := s.threads[x].(stage := stage)])
  }

  /** The call returns; the thread may call sync again. */
  function Returned(s: State, x: Tid): State
    requires x in s.threads
  {
    s.(threads := s.threads[x := Thread(s.threads[x].round + 1, AwaitReset)])
  }

  function Do(s: State, x: Tid): State
    requires Enabled(s, x)
  {
    match s.threads[x].stage
    case AwaitReset => Moved(s, x, Arrive)
    case Arrive => Moved(s, x, AwaitAll).(waiting := s.waiting + 1)
    case AwaitAll => Moved(s, x, Depart)
    case Depart => Moved(s, x, Check).(released := s.released + 1)
    case Check => if s.released == |s.threads| then Moved(s, x, ResetWaiting) else Returned(s, x)
    case ResetWaiting =>
      if s.waiting == |s.threads| then Moved(s, x, ResetReleased).(waiting := 0, cleared := true)
      else Moved(s, x, ResetReleased)
    case ResetReleased =>
      if s.released == |s.threads|
      then Returned(s, x).(released := 0, generation := s.generation + 1, cleared := false)
      else Returned(s, x)
  }

  /** The thread has counted itself as waiting in round `r`. */
  predicate Entered(t: Thread, r: nat) {
    t.round > r || (t.round == r && t.stage in {AwaitAll, Depart, Check, ResetWaiting, ResetReleased})
  }

  /** The thread has counted itself as released in round `r`. */
  predicate Released(t: Thread, r: nat) {
    t.round > r || (t.round == r && t.stage in {Check, ResetWaiting, ResetReleased})
  }

  ghost function EnteredSet(threads: map<Tid, Thread>, r: nat): set<Tid> {
    set x | x in threads && Entered(threads[x], r)
  }

  ghost function ReleasedSet(threads: map<Tid, Thread>, r: nat): set<Tid> {
    set x | x in threads && Released(threads[x], r)
  }

  ghost predicate ThreadOK(s: State, t: Thread) {
    var g := s.generation;
    && (t.round == g || (t.round == g + 1 && t.stage == AwaitReset) ||
        (t.round + 1 == g && t.stage in {Check, ResetWaiting, ResetReleased}))
    && (t.round == g && t.stage == Depart ==> |EnteredSet(s.threads, g)| == |s.threads|)
    && (t.round == g && t.stage in {ResetWaiting, ResetReleased} ==> s.released == |s.threads|)
    && (t.round == g && t.stage == ResetReleased ==> s.cleared)
  }

  /** Some thread of the current round will still look at the counter of the released. */
  ghost predicate SomebodyChecks(s: State) {
    exists x :: x in s.threads && s.threads[x].round == s.generation && s.threads[x].stage in {Check, ResetWaiting, ResetReleased}
  }

  ghost predicate Inv(s: State) {
    && |s.threads| > 0
    && (forall x :: x in s.threads ==> ThreadOK(s, s.threads[x]))
    && s.released == |ReleasedSet(s.threads, s.generation)|
    && s.waiting == (if s.cleared then 0 else |EnteredSet(s.threads, s.generation)|)
    && (s.cleared ==> s.released == |s.threads|)
    && (s.released > 0 ==> |EnteredSet(s.threads, s.generation)| == |s.threads|)
    && (s.released == |s.threads| ==> SomebodyChecks(s))
  }

  ghost predicate Init(s: State) {
    && |s.threads| > 0 && s.waiting == 0 && s.released == 0 && s.generation == 0 && !s.cleared
    && forall x :: x in s.threads ==> s.threads[x] == Thread(0, AwaitReset)
  }

  lemma InitHolds(s: State)
    requires Init(s)
    ensures Inv(s)
  {
    assert forall x :: x in s.threads ==> !Entered(s.threads[x], 0) && !Released(s.threads[x], 0);
    assert EnteredSet(s.threads, 0) == {};
    assert ReleasedSet(s.threads, 0) == {};
  }

  lemma AllOf(a: set<Tid>, b: set<Tid>)
    requires a <= b
    ensures |a| <= |b| && (|a| == |b| ==> a == b)
  {
    assert b == a + (b - a);
  }

  /** All threads are counted exactly if every single one is. */
  lemma AllEntered(threads: map<Tid, Thread>, r: nat)
    ensures |EnteredSet(threads, r)| <= |threads|
    ensures |EnteredSet(threads, r)| == |threads| <==> forall x :: x in threads ==> Entered(threads[x], r)
  {
    AllOf(EnteredSet(threads, r), threads.Keys);
    if forall x :: x in threads ==> Entered(threads[x], r) {
      assert EnteredSet(threads, r) == threads.Keys;
    }
  }

  lemma AllReleased(threads: map<Tid, Thread>, r: nat)
    ensures |ReleasedSet(threads, r)| <= |threads|
    ensures |ReleasedSet(threads, r)| == |threads| <==> forall x :: x in threads ==> Released(threads[x], r)
  {
    AllOf(ReleasedSet(threads, r), threads.Keys);
    if forall x :: x in threads ==> Released(threads[x], r) {
      assert ReleasedSet(threads, r) == threads.Keys;
    }
  }

  /** How a change of one thread changes the two counts. */
  lemma CountsAfter(threads: map<Tid, Thread>, x: Tid, t: Thread, r: nat)
    requires x in threads
    ensures |threads[x := t]| == |threads|
    ensures |EnteredSet(threads[x := t], r)| ==
            |EnteredSet(threads, r)| + (if Entered(t, r) then 1 else 0) - (if Entered(threads[x], r) then 1 else 0)
    ensures |ReleasedSet(threads[x := t], r)| ==
            |ReleasedSet(threads, r)| + (if Released(t, r) then 1 else 0) - (if Released(threads[x], r) then 1 else 0)
  {
    var ts := threads[x := t];
    assert ts.Keys == threads.Keys;
    assert |ts| == |ts.Keys| && |threads| == |threads.Keys|;
    assert EnteredSet(ts, r) - {x} == EnteredSet(threads, r) - {x};
    assert ReleasedSet(ts, r) - {x} == ReleasedSet(threads, r) - {x};
    hide Entered, Released;
    SizeWithout(EnteredSet(ts, r), x);
    SizeWithout(EnteredSet(threads, r), x);
    SizeWithout(ReleasedSet(ts, r), x);
    SizeWithout(ReleasedSet(threads, r), x);
  }

  lemma SizeWithout(a: set<Tid>, x: Tid)
    ensures |a| == |a - {x}| + if x in a then 1 else 0
  {
    if x in a { assert a == (a - {x}) + {x}; } else { assert a == a - {x}; }
  }

  lemma StaysChecked(s: State, s': State, x: Tid)
    requires SomebodyChecks(s) && x in s.threads && s'.threads.Keys == s.threads.Keys && s'.generation == s.generation
    requires forall y :: y in s.threads && y != x ==> s'.threads[y] == s.threads[y]
    requires s.threads[x].round == s.generation && s.threads[x].stage in {Check, ResetWaiting, ResetReleased} ==>
               s'.threads[x].round == s.generation && s'.threads[x].stage in {Check, ResetWaiting, ResetReleased}
    ensures SomebodyChecks(s')
  {
    var y :| y in s.threads && s.threads[y].round == s.generation && s.threads[y].stage in {Check, ResetWaiting, ResetReleased};
    assert s'.threads[y].round == s'.generation && s'.threads[y].stage in {Check, ResetWaiting, ResetReleased};
  }

  /** What a step within a generation has to show. */
  lemma Within(s: State, s': State, x: Tid, t: Thread)
    requires Inv(s) && x in s.threads && s'.threads == s.threads[x := t] && s'.generation == s.generation
    requires Entered(s.threads[x], s.generation) ==> Entered(t, s.generation)
    requires Released(s.threads[x], s.generation) ==> Released(t, s.generation)
    requires s.cleared ==> s'.cleared
    requires s'.released == |ReleasedSet(s'.threads, s.generation)|
    requires s'.waiting == if s'.cleared then 0 else |EnteredSet(s'.threads, s.generation)|
    requires s'.cleared ==> s'.released == |s.threads|
    requires s'.released > 0 ==> |EnteredSet(s'.threads, s.generation)| == |s.threads|
    requires s'.released == |s.threads| ==> SomebodyChecks(s')
    requires ThreadOK(s', t)
    ensures Inv(s')
  {
    hide Entered, Released, SomebodyChecks;
    CountsAfter(s.threads, x, t, s.generation);
    AllEntered(s.threads, s.generation);
    AllEntered(s'.threads, s.generation);
    AllReleased(s.threads, s.generation);
    AllReleased(s'.threads, s.generation);
    forall y | y in s'.threads ensures ThreadOK(s', s'.threads[y]) {
      if y != x { assert ThreadOK(s, s.threads[y]); }
    }
  }

  /** A step that moves a thread without counting it anew and writes no counter. */
  lemma MoveHolds(s: State, x: Tid, t: Thread)
    requires Inv(s) && x in s.threads && ThreadOK(s, t)
    requires Entered(s.threads[x], s.generation) == Entered(t, s.generation)
    requires Released(s.threads[x], s.generation) == Released(t, s.generation)
    requires s.released == |s.threads| ==> SomebodyChecks(s.(threads := s.threads[x := t]))
    requires t.round == s.generation && t.stage == Depart ==> |EnteredSet(s.threads, s.generation)| == |s.threads|
    ensures Inv(s.(threads := s.threads[x := t]))
  {
    hide Entered, Released, SomebodyChecks;
    var s' := s.(threads := s.threads[x := t]);
    CountsAfter(s.threads, x, t, s.generation);
    Within(s, s', x, t);
  }

  /** A thread that is not counted in this generation shows that not all are. */
  lemma NotAll(s: State, x: Tid)
    requires Inv(s) && x in s.threads
    ensures !Entered(s.threads[x], s.generation) ==> s.released == 0 && !s.cleared && s.waiting < |s.threads|
    ensures !Released(s.threads[x], s.generation) ==> s.released < |s.threads| && !s.cleared
  {
    AllEntered(s.threads, s.generation);
    AllReleased(s.threads, s.generation);
  }

  lemma CountedReleased(s: State, x: Tid)
    requires Inv(s) && x in s.threads
    ensures Released(s.threads[x], s.generation) ==> s.released > 0
  {
    assert Released(s.threads[x], s.generation) ==> x in ReleasedSet(s.threads, s.generation);
  }

  lemma WaitHolds(s: State, x: Tid)
    requires Inv(s) && Enabled(s, x) && s.threads[x].stage in {AwaitReset, AwaitAll}
    ensures Inv(Do(s, x))
  {
    var t := s.threads[x];
    assert ThreadOK(s, t);
    NotAll(s, x);
    var t' := t.(stage := if t.stage == AwaitReset then Arrive else Depart);
    CountedReleased(s, x);
    MoveHolds(s, x, t');
  }

  lemma ArriveHolds(s: State, x: Tid)
    requires Inv(s) && Enabled(s, x) && s.threads[x].stage == Arrive
    ensures Inv(Do(s, x))
  {
    var t := s.threads[x].(stage := AwaitAll);
    assert ThreadOK(s, s.threads[x]);
    NotAll(s, x);
    CountsAfter(s.threads, x, t, s.generation);
    Within(s, Do(s, x), x, t);
  }

  lemma DepartHolds(s: State, x: Tid)
    requires Inv(s) && Enabled(s, x) && s.threads[x].stage == Depart
    ensures Inv(Do(s, x))
  {
    var t := s.threads[x].(stage := Check);
    assert ThreadOK(s, s.threads[x]);
    NotAll(s, x);
    CountsAfter(s.threads, x, t, s.generation);
    AllEntered(s.threads, s.generation);
    AllEntered(s.threads[x := t], s.generation);
    assert Do(s, x).threads[x] == t;
    Within(s, Do(s, x), x, t);
  }

  lemma CheckHolds(s: State, x: Tid)
    requires Inv(s) && Enabled(s, x) && s.threads[x].stage == Check
    ensures Inv(Do(s, x))
  {
    var t := s.threads[x];
    assert ThreadOK(s, t);
    NotAll(s, x);
    var t' := if s.released == |s.threads| then t.(stage := ResetWaiting) else Thread(t.round + 1, AwaitReset);
    if s.released == |s.threads| { StaysChecked(s, Do(s, x), x); }
    MoveHolds(s, x, t');
  }

  lemma ResetWaitingHolds(s: State, x: Tid)
    requires Inv(s) && Enabled(s, x) && s.threads[x].stage == ResetWaiting
    ensures Inv(Do(s, x))
  {
    var t := s.threads[x];
    var t' := t.(stage := ResetReleased);
    assert ThreadOK(s, t);
    NotAll(s, x);
    CountsAfter(s.threads, x, t', s.generation);
    AllEntered(s.threads, s.generation);
    if s.released == |s.threads| { StaysChecked(s, Do(s, x), x); }
    if t.round == s.generation {
      Within(s, Do(s, x), x, t');
    } else {
      MoveHolds(s, x, t');
    }
  }

  /** The step that opens the next generation. */
  lemma NextGeneration(s: State, x: Tid)
    requires Inv(s) && x in s.threads && s.threads[x].stage == ResetReleased && s.threads[x].round == s.generation
    ensures Enabled(s, x) && Inv(Do(s, x))
  {
    var s' := Do(s, x);
    var g := s'.generation;
    assert ThreadOK(s, s.threads[x]);
    AllReleased(s.threads, s.generation);
    forall y | y in s'.threads
      ensures ThreadOK(s', s'.threads[y]) && !Entered(s'.threads[y], g) && !Released(s'.threads[y], g)
    {
      assert ThreadOK(s, s.threads[y]) && Released(s.threads[y], s.generation);
    }
    assert EnteredSet(s'.threads, g) == {};
    assert ReleasedSet(s'.threads, g) == {};
    CountsAfter(s.threads, x, s'.threads[x], g);
  }

  lemma ResetReleasedHolds(s: State, x: Tid)
    requires Inv(s) && Enabled(s, x) && s.threads[x].stage == ResetReleased
    ensures Inv(Do(s, x))
  {
    var t := s.threads[x];
    assert ThreadOK(s, t);
    NotAll(s, x);
    if t.round == s.generation {
      NextGeneration(s, x);
    } else {
      MoveHolds(s, x, Thread(t.round + 1, AwaitReset));
    }
  }

  /** Every step of every thread keeps the invariant. */
  lemma StepHolds(s: State, x: Tid)
    requires Inv(s) && Enabled(s, x)
    ensures Inv(Do(s, x))
  {
    hide Inv, Do;
    match s.threads[x].stage
    case AwaitReset => WaitHolds(s, x);
    case Arrive => ArriveHolds(s, x);
    case AwaitAll => WaitHolds(s, x);
    case Depart => DepartHolds(s, x);
    case Check => CheckHolds(s, x);
    case ResetWaiting => ResetWaitingHolds(s, x);
    case ResetReleased => ResetReleasedHolds(s, x);
  }

  /** A run: the states and the thread that takes each step. */
  ghost predicate IsRun(states: seq<State>, moves: seq<Tid>) {
    && |states| == |moves| + 1
    && Init(states[0])
    && forall i :: 0 <= i < |moves| ==> Enabled(states[i], moves[i]) && states[i + 1] == Do(states[i], moves[i])
  }

  lemma {:induction false} RunsKeepInv(states: seq<State>, moves: seq<Tid>, i: nat)
    requires IsRun(states, moves) && i < |states|
    ensures Inv(states[i])
  {
    if i == 0 {
      InitHolds(states[0]);
    } else {
      RunsKeepInv(states, moves, i - 1);
      StepHolds(states[i - 1], moves[i - 1]);
    }
  }

  /** The barrier: in no run has a thread passed its wait of a round that another thread has not
      yet entered. */
  lemma NobodyLeavesEarly(states: seq<State>, moves: seq<Tid>, i: nat, x: Tid, y: Tid, r: nat)
    requires IsRun(states, moves) && i < |states| && x in states[i].threads && y in states[i].threads
    requires states[i].threads[x].round > r ||
             (states[i].threads[x].round == r && states[i].threads[x].stage in {Depart, Check, ResetWaiting, ResetReleased})
    ensures Entered(states[i].threads[y], r)
  {
    RunsKeepInv(states, moves, i);
    var s := states[i];
    assert ThreadOK(s, s.threads[x]) && ThreadOK(s, s.threads[y]);
    AllEntered(s.threads, s.generation);
    NotAll(s, y);
    CountedReleased(s, x);
  }

  /** A thread that is still about to reset when the next round has begun writes neither counter. */
  lemma LateResetIsHarmless(states: seq<State>, moves: seq<Tid>, i: nat)
    requires IsRun(states, moves) && i < |moves|
    requires states[i].threads[moves[i]].round < states[i].generation
    ensures states[i + 1].waiting == states[i].waiting && states[i + 1].released == states[i].released
    ensures states[i + 1].generation == states[i].generation && states[i + 1].cleared == states[i].cleared
  {
    RunsKeepInv(states, moves, i);
    var s := states[i];
    assert ThreadOK(s, s.threads[moves[i]]);
    NotAll(s, moves[i]);
  }

  /** No run gets stuck: in every reachable state some thread can take a step. */
  lemma SomebodyCanMove(states: seq<State>, moves: seq<Tid>, i: nat) returns (x: Tid)
    requires IsRun(states, moves) && i < |states|
    ensures Enabled(states[i], x)
  {
    RunsKeepInv(states, moves, i);
    var s := states[i];
    assert |s.threads.Keys| > 0;
    if x: Tid :| x in s.threads && s.threads[x].stage !in {AwaitReset, AwaitAll} { return x; }
    AllEntered(s.threads, s.generation);
    AllReleased(s.threads, s.generation);
    assert forall y :: y in s.threads ==> ThreadOK(s, s.threads[y]);
    if x: Tid :| x in s.threads && s.threads[x].stage == AwaitAll {
      NotAll(s, x);
      if s.waiting == |s.threads| { return x; }
      var y: Tid :| y in s.threads && !Entered(s.threads[y], s.generation);
      NotAll(s, y);
      return y;
    }
    x :| x in s.threads;
    NotAll(s, x);
  }
}
