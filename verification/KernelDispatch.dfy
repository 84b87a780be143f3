/** The invariant through a dispatch: the old thread leaves the processor, the
    front of the ready queue is cleaned, the next thread goes on where it left off. */
module KernelDispatch {
  import opened ListSpec
  import opened KernelState
  import opened KernelInvariant

  predicate SameClock(st: State, st': State) { st'.time == st.time && st'.cpu == st.cpu }

  /** The running thread has been suspended and is about to be switched out. */
  predicate Suspended(st: State, st': State) {
    && st'.running == st.running && st'.time == st.time
    && st.running in st'.threads && st'.threads[st.running].state == SUSPENDED
  }

  // ------------------------------------------------- leaving the processor

  /** A running thread that can block. */
  predicate MayBlock(st: State) { st.running != MAIN }

  lemma RunningFacts(st: State)
    requires Core(st, true)
    ensures st.running in st.threads && Running(st, st.running, st.threads[st.running])
    ensures forall s :: s in st.sems ==> st.running !in st.sems[s].queue
  {
    assert ThreadOk(st, st.running, true);
    forall s | s in st.sems ensures st.running !in st.sems[s].queue { assert SemOk(st, s); }
  }

  lemma BlockKeepsCore(st: State, s: SemId)
    requires Core(st, true) && MayBlock(st) && s in st.sems && MustBlock(st, s)
    ensures st.running in st.threads && Core(Block(st, s), false)
    ensures Suspended(st, Block(st, s))
  {
    hide MainOk;
    RunningFacts(st);
    var st' := Block(st, s);
    var t := st.running;
    assert forall x :: WakeOf(st'.threads, x) == WakeOf(st.threads, x);
    assert MainOk(st') by { MainElsewhere(st, st'); }
    forall x | x in st'.threads ensures ThreadOk(st', x, false) {
      assert ThreadOk(st, x, true);
    }
    forall r | r in st'.sems ensures SemOk(st', r) {
      assert SemOk(st, r);
      if r == s { AppendDistinct(st.sems[s].queue, t); }
    }
  }

  lemma MainElsewhere(st: State, st': State)
    requires MainOk(st) && (MAIN in st'.asleep ==> MAIN in st.asleep)
    requires MAIN in st.threads ==> MAIN in st'.threads && st'.threads[MAIN] == st.threads[MAIN]
    ensures MainOk(st')
  {
  }

  lemma AppendDistinct<T>(s: seq<T>, x: T)
    requires NoDup(s) && x !in s
    ensures NoDup(s + [x])
  {
  }

  /** Ordered insertion keeps the sleep list in wake-up order. */
  lemma InsertAsleepKeepsOrder(threads: map<ThreadId, Thread>, asleep: seq<ThreadId>, t: ThreadId)
    requires SleepSorted(threads, asleep) && NoDup(asleep) && t !in asleep
    ensures var a := Insert(asleep, t, SmallerSleepTime(threads));
            SleepSorted(threads, a) && NoDup(a) && forall x :: x in a <==> x in asleep || x == t
  {
    var cmp := SmallerSleepTime(threads);
    assert Sorted(asleep, cmp);
    InsertKeepsSorted(asleep, t, cmp);
    InsertKeepsDistinct(asleep, t, cmp);
    InsertMembers(asleep, t, cmp);
  }

  /** Only wake-up times matter to the order of the sleep list. */
  lemma {:induction false} InsertReadsWakes(threads: map<ThreadId, Thread>, threads': map<ThreadId, Thread>, asleep: seq<ThreadId>, t: ThreadId)
    requires forall x :: WakeOf(threads, x) == WakeOf(threads', x)
    ensures Insert(asleep, t, SmallerSleepTime(threads)) == Insert(asleep, t, SmallerSleepTime(threads'))
  {
    if asleep != [] { InsertReadsWakes(threads, threads', asleep[1..], t); }
  }

  /** The running thread moves to the sleep list with wake-up time `wake`. */
  lemma SleepLists(st: State, th: Thread)
    requires Core(st, true) && MayBlock(st)
    ensures st.running in st.threads && ListsOk(InsertAsleep(SetThread(st, st.running, th), st.running))
    ensures var st' := InsertAsleep(SetThread(st, st.running, th), st.running);
            MainOk(st') && forall x :: x in st'.asleep <==> x in st.asleep || x == st.running
  {
    hide Insert;
    RunningFacts(st);
    var t, st1 := st.running, SetThread(st, st.running, th);
    assert forall x :: x != t ==> WakeOf(st1.threads, x) == WakeOf(st.threads, x);
    assert SleepSorted(st1.threads, st.asleep) by { SortedElsewhere(st.threads, st1.threads, st.asleep); }
    InsertAsleepKeepsOrder(st1.threads, st.asleep, t);
  }

  lemma SortedElsewhere(threads: map<ThreadId, Thread>, threads': map<ThreadId, Thread>, a: seq<ThreadId>)
    requires SleepSorted(threads, a) && forall x :: x in a ==> WakeOf(threads', x) == WakeOf(threads, x)
    ensures SleepSorted(threads', a)
  {
  }

  lemma TimedBlockKeepsCore(st: State, s: SemId, d: nat)
    requires Core(st, true) && MayBlock(st) && s in st.sems && MustBlock(st, s)
    ensures st.running in st.threads && Core(TimedBlock(st, s, d), false)
    ensures Suspended(st, TimedBlock(st, s, d))
  {
    hide MainOk, ListsOk, Insert;
    RunningFacts(st);
    var t, st' := st.running, TimedBlock(st, s, d);
    SleepLists(st, st'.threads[t]);
    var plain := InsertAsleep(SetThread(st, t, st'.threads[t]), t);
    assert st' == plain.(sems := st'.sems);
    assert ListsOk(plain) ==> ListsOk(st') by { SameLists(plain, st'); }
    assert MainOk(st') by { MainElsewhere(plain, st'); }
    forall x | x in st'.threads ensures ThreadOk(st', x, false) { assert ThreadOk(st, x, true); }
    forall r | r in st'.sems ensures SemOk(st', r) {
      assert SemOk(st, r);
      if r == s { AppendDistinct(st.sems[s].queue, t); }
    }
  }

  lemma SameLists(st: State, st': State)
    requires ListsOk(st) && st'.ready == st.ready && st'.asleep == st.asleep && st'.threads == st.threads
    ensures ListsOk(st')
  {
  }

  lemma PutToSleepKeepsCore(st: State, d: nat)
    requires Core(st, true) && MayBlock(st)
    ensures st.running in st.threads && Core(PutToSleep(st, d), false)
    ensures Suspended(st, PutToSleep(st, d))
  {
    hide MainOk, ListsOk, Insert;
    RunningFacts(st);
    var t, st' := st.running, PutToSleep(st, d);
    SleepLists(st, st'.threads[t]);
    forall x | x in st'.threads ensures ThreadOk(st', x, false) { assert ThreadOk(st, x, true); }
    forall r | r in st'.sems ensures SemOk(st', r) { assert SemOk(st, r); }
  }

  /** A suspended thread needs no parking. */
  lemma ParkSuspended(st: State)
    requires Core(st, false) && st.running in st.threads && st.threads[st.running].state == SUSPENDED
    ensures Core(Park(st), false) && Park(st) == st.(cpu := 0)
  {
    var st' := Park(st);
    forall x | x in st'.threads ensures ThreadOk(st', x, false) { assert ThreadOk(st, x, false); }
    forall r | r in st'.sems ensures SemOk(st', r) { assert SemOk(st, r); }
  }

  /** A thread that can run on goes to the back of the ready queue. */
  lemma ParkRunning(st: State)
    requires Core(st, true)
    ensures st.running in st.threads && Core(Park(st), false) && Park(st).ready == st.ready + [st.running]
  {
    RunningFacts(st);
    var t, st' := st.running, Park(st);
    assert forall x :: WakeOf(st'.threads, x) == WakeOf(st.threads, x);
    assert ListsOk(st') by { AppendDistinct(st.ready, t); }
    forall x | x in st'.threads ensures ThreadOk(st', x, false) { assert ThreadOk(st, x, true); }
    forall r | r in st'.sems ensures SemOk(st', r) { assert SemOk(st, r); }
  }

  /** A thread that exits is deleted. */
  lemma ParkFinished(st: State)
    requires Core(st, true) && MayBlock(st)
    ensures st.running in st.threads
    ensures var st' := Park(Finished(st));
            Core(st', false) && st'.threads == st.threads - {st.running} && st'.ready == st.ready
  {
    RunningFacts(st);
    var t, st' := st.running, Park(Finished(st));
    assert st'.threads == st.threads - {t};
    assert forall x :: x in st.asleep ==> x != t;
    assert forall x :: x != t ==> WakeOf(st'.threads, x) == WakeOf(st.threads, x);
    forall x | x in st'.threads ensures ThreadOk(st', x, false) { assert ThreadOk(st, x, true); }
    forall r | r in st'.sems ensures SemOk(st', r) { assert SemOk(st, r); }
  }

  // -------------------------------------------------- cleaning the ready queue

  /** `t` has been killed or has exited. */
  function IsFinished(threads: map<ThreadId, Thread>): ThreadId -> bool {
    (t: ThreadId) => t !in threads || threads[t].state == FINISHED
  }

  lemma MainReady(st: State)
    requires Core(st, false)
    ensures MAIN in st.ready && MAIN in st.threads && st.threads[MAIN].state != FINISHED
  {
    assert ThreadOk(st, MAIN, false);
  }

  lemma DeleteFirst(st: State)
    requires Core(st, false) && st.ready != [] && Dead(st, st.ready[0])
    ensures var t := st.ready[0];
            && t in st.threads && t != MAIN && st.threads[t].state == FINISHED
            && DeleteDead(st, t) == st.(ready := st.ready[1..], threads := st.threads - {t})
  {
    RemoveHead(st.ready);
    MainReady(st);
  }

  lemma DeleteKeepsCore(st: State)
    requires Core(st, false) && st.ready != [] && st.ready[0] in st.threads && st.ready[0] != MAIN
    ensures Core(st.(ready := st.ready[1..], threads := st.threads - {st.ready[0]}), false)
  {
    var t := st.ready[0];
    var st' := st.(ready := st.ready[1..], threads := st.threads - {t});
    TailOfDistinct(st.ready);
    assert ThreadOk(st, t, false);
    assert forall x :: x != t ==> WakeOf(st'.threads, x) == WakeOf(st.threads, x);
    forall x | x in st'.threads ensures ThreadOk(st', x, false) { assert ThreadOk(st, x, false); }
    forall r | r in st'.sems ensures SemOk(st', r) { assert SemOk(st, r); }
  }

  /** `r` is `st` without its ready-queue prefix `gone` and those threads. */
  ghost predicate Cleaned(st: State, r: State, gone: seq<ThreadId>) {
    && st.ready == gone + r.ready
    && r == st.(ready := r.ready, threads := r.threads)
    && (forall t :: t in r.threads <==> t in st.threads && t !in gone)
    && (forall t :: t in r.threads ==> r.threads[t] == st.threads[t])
  }

  lemma CleanedMore(st: State, st1: State, r: State, t: ThreadId, gone: seq<ThreadId>)
    requires st1 == st.(ready := st1.ready, threads := st.threads - {t}) && st.ready == [t] + st1.ready && Cleaned(st1, r, gone)
    ensures Cleaned(st, r, [t] + gone)
  {
    assert st.ready == ([t] + gone) + r.ready;
  }

  /** A dispatch discards exactly the maximal finished prefix of the ready queue,
      and each thread in it ceases to exist. It stops at a live thread. */
  lemma {:induction false} DropDeadMeaning(st: State)
    requires Core(st, false)
    ensures var r := DropDead(st, st.ready);
            && Core(r, false) && Cleaned(st, r, TakeWhile(st.ready, IsFinished(st.threads)))
            && r.ready == DropWhile(st.ready, IsFinished(st.threads))
            && r.ready != [] && r.ready[0] in r.threads && r.threads[r.ready[0]].state != FINISHED
    decreases |st.ready|
  {
    hide Core, Cleaned, DeleteDead, TakeWhile, DropWhile;
    MainReady(st);
    WhileStep(st.ready, IsFinished(st.threads));
    if !Dead(st, st.ready[0]) {
      NothingCleaned(st);
    } else {
      var t := st.ready[0];
      DeleteFirst(st);
      var st1 := DeleteDead(st, t);
      DeleteKeepsCore(st);
      DropDeadMeaning(st1);
      RestUnaffected(st, t);
      assert st.ready == [t] + st1.ready;
      CleanedMore(st, st1, DropDead(st1, st1.ready), t, TakeWhile(st1.ready, IsFinished(st1.threads)));
    }
  }

  lemma NothingCleaned(st: State)
    ensures Cleaned(st, st, [])
  {
  }

  lemma {:induction false} PrefixOnMembers<T(!new)>(s: seq<T>, p: T -> bool, q: T -> bool)
    requires forall x :: x in s ==> p(x) == q(x)
    ensures TakeWhile(s, p) == TakeWhile(s, q) && DropWhile(s, p) == DropWhile(s, q)
  {
    if s != [] { PrefixOnMembers(s[1..], p, q); }
  }

  lemma RestUnaffected(st: State, t: ThreadId)
    requires Core(st, false) && st.ready != [] && t == st.ready[0]
    ensures var p, q := IsFinished(st.threads - {t}), IsFinished(st.threads);
            TakeWhile(st.ready[1..], p) == TakeWhile(st.ready[1..], q) && DropWhile(st.ready[1..], p) == DropWhile(st.ready[1..], q)
  {
    TailOfDistinct(st.ready);
    PrefixOnMembers(st.ready[1..], IsFinished(st.threads - {t}), IsFinished(st.threads));
  }

  // ------------------------------------------------------------------ selection

  /** A selected thread is back in its own code, on no semaphore. */
  lemma ResumedRuns(th: Thread)
    requires th.sem == None && th.state != FINISHED && ReadyToGoOn(th)
    ensures var r := Resumed(th);
            && r.sem == None && r.resume == Plainly && r.status == NON_WAITING && (r.state == RUNNING || r.state == READY)
            && r.body == th.body && r.parent == th.parent
  {
  }

  lemma SelectedThread(st: State, x: ThreadId)
    requires Core(st, false) && st.cpu == 0
    requires st.ready != [] && st.ready[0] in st.threads && st.threads[st.ready[0]].state != FINISHED
    requires x in st.threads
    ensures ThreadOk(Select(st), x, true)
  {
    hide Resumed;
    TailOfDistinct(st.ready);
    assert ThreadOk(st, x, false);
    if x == st.ready[0] { ResumedRuns(st.threads[x]); }
  }

  lemma SelectedLists(st: State)
    requires Core(st, false)
    requires st.ready != [] && st.ready[0] in st.threads && st.threads[st.ready[0]].state != FINISHED
    ensures ListsOk(Select(st)) && MainOk(Select(st))
  {
    var t, st' := st.ready[0], Select(st);
    TailOfDistinct(st.ready);
    assert ThreadOk(st, t, false);
    assert forall x :: x != t ==> WakeOf(st'.threads, x) == WakeOf(st.threads, x);
    SortedElsewhere(st.threads, st'.threads, st.asleep);
  }

  lemma SelectedSem(st: State, r: SemId)
    requires Core(st, false) && r in st.sems
    requires st.ready != [] && st.ready[0] in st.threads && st.threads[st.ready[0]].state != FINISHED
    ensures SemOk(Select(st), r)
  {
    assert SemOk(st, r);
  }

  lemma SelectKeepsInv(st: State)
    requires Core(st, false) && st.cpu == 0 && st.time < TIME_RANGE
    requires st.ready != [] && st.ready[0] in st.threads && st.threads[st.ready[0]].state != FINISHED
    ensures Inv(Select(st))
  {
    hide ThreadOk, SemOk, ListsOk, MainOk;
    SelectedLists(st);
    forall x | x in Select(st).threads ensures ThreadOk(Select(st), x, true) { SelectedThread(st, x); }
    forall r | r in Select(st).sems ensures SemOk(Select(st), r) { SelectedSem(st, r); }
  }

  /** From a parked state a live thread is always found and the invariant is back. */
  lemma RescheduleKeepsInv(st: State)
    requires Core(st, false) && st.cpu == 0 && st.time < TIME_RANGE
    ensures CanSelect(st) && Inv(Reschedule(st))
  {
    hide Core, Inv, Select, DropDead;
    DropDeadMeaning(st);
    CleanedClock(st, DropDead(st, st.ready), TakeWhile(st.ready, IsFinished(st.threads)));
    SelectKeepsInv(DropDead(st, st.ready));
  }

  lemma CleanedClock(st: State, r: State, gone: seq<ThreadId>)
    requires Cleaned(st, r, gone)
    ensures r.cpu == st.cpu && r.time == st.time
  {
  }

  // ---------------------------------------------------------- the other steps

  lemma NextIsFresh(st: State)
    requires Core(st, true)
    ensures st.nextThread !in st.threads && st.nextSem !in st.sems
  {
    assert forall t :: t in st.threads ==> ThreadOk(st, t, true);
    assert forall s :: s in st.sems ==> SemOk(st, s);
  }

  lemma CreateKeepsCore(st: State, body: bool)
    requires Core(st, true)
    ensures Core(Create(st, body), true) && SameClock(st, Create(st, body))
  {
    var t, st' := st.nextThread, Create(st, body);
    NextIsFresh(st);
    RunningFacts(st);
    assert ThreadOk(st, st.running, true) && ThreadOk(st, MAIN, true);
    assert forall x :: x != t ==> WakeOf(st'.threads, x) == WakeOf(st.threads, x);
    assert SleepSorted(st'.threads, st'.asleep) by { SortedElsewhere(st.threads, st'.threads, st.asleep); }
    assert forall x :: x in st'.ready <==> x in st.ready || (body && x == t);
    forall x | x in st'.threads ensures ThreadOk(st', x, true) { if x != t { assert ThreadOk(st, x, true); } }
    forall r | r in st'.sems ensures SemOk(st', r) { assert SemOk(st, r); }
  }

  lemma KillKeepsCore(st: State, t: ThreadId)
    requires Core(st, true)
    ensures Core(Kill(st, t), true) && SameClock(st, Kill(st, t))
  {
    var st' := Kill(st, t);
    assert t in st.threads ==> ThreadOk(st, t, true);
    assert forall x :: WakeOf(st'.threads, x) == WakeOf(st.threads, x);
    forall x | x in st'.threads ensures ThreadOk(st', x, true) { assert ThreadOk(st, x, true); }
    forall r | r in st'.sems ensures SemOk(st', r) { assert SemOk(st, r); }
  }

  /** A kill succeeds exactly on the running thread's own live children and then
      finishes that one thread; the check against killing oneself never fires,
      because nobody is its own parent. The main thread cannot be killed. */
  lemma OnlyParentsKill(st: State, t: ThreadId)
    requires Core(st, true)
    ensures KillCode(st, t) == 0 <==> t in st.threads && st.threads[t].parent == Some(st.running)
    ensures KillCode(st, t) != -3 && (KillCode(st, t) == 0 ==> t != MAIN && t != st.running)
    ensures KillCode(st, t) != 0 ==> Kill(st, t) == st
    ensures KillCode(st, t) == 0 ==>
              && Kill(st, t).threads.Keys == st.threads.Keys && Kill(st, t) == st.(threads := Kill(st, t).threads)
              && Kill(st, t).threads[t].state == FINISHED
              && forall x :: x in st.threads && x != t ==> Kill(st, t).threads[x] == st.threads[x]
  {
    if t in st.threads { assert ThreadOk(st, t, true); }
  }

  lemma OpenKeepsCore(st: State, n: nat)
    requires Core(st, true) && n < SIGN_BIT
    ensures Core(Open(st, n), true) && SameClock(st, Open(st, n))
  {
    var st' := Open(st, n);
    NextIsFresh(st);
    forall x | x in st'.threads ensures ThreadOk(st', x, true) { assert ThreadOk(st, x, true); }
    forall r | r in st'.sems ensures SemOk(st', r) { if r != st.nextSem { assert SemOk(st, r); } }
  }

  /** A semaphore opened with `n` obeys the law exactly when `n` fits the signed
      counter. */
  lemma OpenObeysLaw(st: State, n: nat)
    requires n < TIME_RANGE
    ensures var m := Open(st, n).sems[st.nextSem];
            |m.queue| == (if m.val < 0 then -m.val else 0) <==> n < SIGN_BIT
  {
  }

  /** Above that the first signal takes a thread off an empty queue. */
  lemma FirstSignalIsDefined(st: State, n: nat)
    requires Core(st, true) && n < TIME_RANGE
    ensures EffectDefined(Open(st, n), DoSignal(st.nextSem)) <==> n < SIGN_BIT
  {
    RunningFacts(st);
  }

  lemma TakeUnitKeepsCore(st: State, s: SemId)
    requires Core(st, true) && s in st.sems && !MustBlock(st, s)
    ensures st.running in st.threads && Core(TakeUnit(st, s), true) && SameClock(st, TakeUnit(st, s))
  {
    var st' := TakeUnit(st, s);
    assert forall x :: WakeOf(st'.threads, x) == WakeOf(st.threads, x);
    forall x | x in st'.threads ensures ThreadOk(st', x, true) { assert ThreadOk(st, x, true); }
    forall r | r in st'.sems ensures SemOk(st', r) { assert SemOk(st, r); }
  }

  lemma ClockKeepsCore(st: State, time: nat, cpu: nat, onCpu: bool)
    requires Core(st, onCpu)
    ensures Core(st.(time := time, cpu := cpu), onCpu)
  {
    var st' := st.(time := time, cpu := cpu);
    forall x | x in st'.threads ensures ThreadOk(st', x, onCpu) { assert ThreadOk(st, x, onCpu); }
    forall r | r in st'.sems ensures SemOk(st', r) { assert SemOk(st, r); }
  }

  /** One unit fewer without blocking anyone, and the answer. */
  function TryWait(m: Sem): (Sem, int) { (m.(val := m.val - 1), if m.val < 0 then 0 else 1) }

  /** A try-wait keeps the semaphore law exactly when there is a unit to take. */
  lemma TryWaitObeysLaw(m: Sem)
    requires |m.queue| == (if m.val < 0 then -m.val else 0)
    ensures var m' := TryWait(m).0; |m'.queue| == (if m'.val < 0 then -m'.val else 0) <==> m.val >= 1
  {
  }

  /** With `val` 0, and only then, its answer is wrong - it claims a unit that is not
      there - and the next signal takes a thread off an empty queue. */
  lemma TryWaitThenSignal(st: State, s: SemId)
    requires Core(st, true) && s in st.sems
    ensures (TryWait(st.sems[s]).1 == 1 <==> st.sems[s].val >= 1) <==> st.sems[s].val != 0
    ensures EffectDefined(SetSem(st, s, TryWait(st.sems[s]).0), DoSignal(s)) <==> st.sems[s].val != 0
  {
    RunningFacts(st);
    QueueFacts(st, s);
  }

  // --------------------------------------------------------- every step, every run

  lemma TickWakesKeepsCore(st: State)
    requires Inv(st)
    ensures Core(TickWakes(st), true) && TickWakes(st).cpu == st.cpu + 1 && TickWakes(st).time == (st.time + 1) % TIME_RANGE
    ensures TickWakes(st).running == st.running
  {
    hide Core, WakeAll, Woken;
    ClockKeepsCore(st, (st.time + 1) % TIME_RANGE, st.cpu + 1, true);
    WakeAllMeaning(Advance(st));
    WokenClock(Advance(st), TickWakes(st), TakeWhile(Advance(st).asleep, DueAt(Advance(st).threads, Advance(st).time)));
  }

  lemma WokenClock(st: State, r: State, woken: seq<ThreadId>)
    requires Woken(st, r, woken)
    ensures SameClock(st, r) && r.running == st.running
  {
  }

  /** The state of a dispatching step once the old thread is off the processor. */
  function Parked(st: State, step: Step): State
    requires EffectDefined(st, step) && Effect(st, step).running in Effect(st, step).threads
  {
    Park(Effect(st, step))
  }

  lemma ParkClock(st: State)
    requires st.running in st.threads
    ensures Park(st).cpu == 0 && Park(st).time == st.time && Park(st).asleep == st.asleep && Park(st).sems == st.sems
  {
  }

  lemma EffectIsDefined(st: State, step: Step)
    requires Inv(st) && Allowed(st, step)
    ensures EffectDefined(st, step)
  {
    hide ThreadOk, MainOk, ListsOk;
    if step.DoSignal? || step.DoClose? { QueueFacts(st, step.s); }
  }

  lemma ParkedKeepsCore(st: State, step: Step)
    requires Inv(st) && Allowed(st, step) && Dispatches(st, step) && EffectDefined(st, step)
    ensures Effect(st, step).running == st.running && st.running in Effect(st, step).threads
    ensures Core(Parked(st, step), false) && Parked(st, step).cpu == 0 && Parked(st, step).time < TIME_RANGE
  {
    hide Core, Park, TickWakes, Block, TimedBlock, PutToSleep, MustBlock;
    RunningLive(st);
    match step
    case DoDispatch => ParkRunning(st); ParkClock(st);
    case DoExit => ParkFinished(st); ParkClock(Finished(st));
    case DoSleep(d) =>
      PutToSleepKeepsCore(st, ClampedSleep(d));
      ParkSuspended(PutToSleep(st, ClampedSleep(d)));
    case DoWait(s) =>
      BlockKeepsCore(st, s);
      ParkSuspended(Block(st, s));
    case DoTimedWait(s, d) =>
      TimedBlockKeepsCore(st, s, d);
      ParkSuspended(TimedBlock(st, s, d));
    case DoTick =>
      TickWakesKeepsCore(st);
      ParkRunning(TickWakes(st));
      ParkClock(TickWakes(st));
  }

  lemma EffectKeepsInv(st: State, step: Step)
    requires Inv(st) && Allowed(st, step) && !Dispatches(st, step) && EffectDefined(st, step)
    ensures Inv(Effect(st, step))
  {
    hide Core, TickWakes, Signal, Close, Kill, Create, Open, TakeUnit, MustBlock;
    match step
    case DoCreate(body) => CreateKeepsCore(st, body);
    case DoKill(t) => KillKeepsCore(st, t);
    case DoOpen(n) => OpenKeepsCore(st, n);
    case DoWait(s) => TakeUnitKeepsCore(st, s);
    case DoTimedWait(s, d) => TakeUnitKeepsCore(st, s);
    case DoSignal(s) => SignalKeepsCore(st, s);
    case DoClose(s) => CloseKeepsCore(st, s);
    case DoTick => TickWakesKeepsCore(st);
  }

  /** Every step callers are allowed to make is defined - no queue that is read is
      empty, no handle dangles, a next thread is always found - and keeps the
      invariant. */
  lemma StepKeepsInv(st: State, step: Step)
    requires Inv(st) && Allowed(st, step)
    ensures Defined(st, step) && Inv(Next(st, step))
  {
    hide Inv, Effect, Allowed, Dispatches, EffectDefined, Park, Reschedule, CanSelect;
    EffectIsDefined(st, step);
    StepHandle(st, step);
    if Dispatches(st, step) {
      ParkedKeepsCore(st, step);
      RescheduleKeepsInv(Parked(st, step));
    } else {
      EffectKeepsInv(st, step);
    }
  }

  lemma StepHandle(st: State, step: Step)
    requires Allowed(st, step)
    ensures TheSem(step).Some? ==> TheSem(step).value in st.sems
  {
  }

  lemma RunningLive(st: State)
    requires Core(st, true)
    ensures st.running in st.threads
  {
  }
}
