/** What each step of the kernel does to the whole state, said without the functions
    that compute it: who runs next, who is in which list and in which order, what a
    waiter is told, and that everything else stays as it is. */
module KernelSteps {
  import opened ListSpec
  import opened KernelState
  import opened KernelInvariant
  import opened KernelDispatch
  import opened KernelRuns

  // -------------------------------------------------------------- who runs next

  /** A selected thread is back in its own code. A wait it was blocked in has
      returned: 0 after a signal, -1 after deletion, -2 after a timeout. */
  predicate BackAtWork(th: Thread, th': Thread) {
    && th'.status == NON_WAITING && th'.sem == None && th'.resume == Plainly
    && th'.state == (if th.resume == InSleep then READY else RUNNING)
    && th'.parent == th.parent && th'.body == th.body
    && th'.wake == (if th.resume == InSleep || th.resume == InTimedBlock then 0 else th.wake)
    && th'.answer == (if th.resume == Plainly || th.resume == InSleep then th.answer
                      else if th.status == REGULARLY_WAITED then 0
                      else if th.status == SEM_DELETED then -1
                      else -2)
  }

  /** From `m`, with `q` waiting for the processor, it goes to the first thread of `q`
      that has not finished, `q[n]`. Those before it are deleted, those behind it
      wait on, and nothing else changes. */
  ghost predicate Switched(m: State, q: seq<ThreadId>, n: nat, st': State) {
    && n < |q| && Live(m, q[n]) && (forall i :: 0 <= i < n ==> q[i] in m.threads && m.threads[q[i]].state == FINISHED)
    && st'.running == q[n] && st'.ready == q[n + 1..] && st'.cpu == 0
    && (forall t :: t in st'.threads <==> t in m.threads && t !in q[..n])
    && (forall t :: t in st'.threads && t != q[n] ==> st'.threads[t] == m.threads[t])
    && q[n] in st'.threads && BackAtWork(m.threads[q[n]], st'.threads[q[n]])
    && st'.asleep == m.asleep && st'.sems == m.sems && st'.time == m.time
    && st'.nextThread == m.nextThread && st'.nextSem == m.nextSem
  }

  lemma ResumedIsBackAtWork(th: Thread)
    requires th.sem == None && th.state != FINISHED && ReadyToGoOn(th)
    ensures BackAtWork(th, Resumed(th))
  {
  }

  lemma ReadyRecord(m: State, t: ThreadId)
    requires Core(m, false) && t in m.ready && Live(m, t)
    ensures m.threads[t].sem == None && ReadyToGoOn(m.threads[t])
  {
    assert ThreadOk(m, t, false);
  }

  lemma ParkedSwitches(m: State) returns (n: nat)
    requires Core(m, false) && m.cpu == 0
    ensures CanSelect(m) && Switched(m, m.ready, n, Reschedule(m))
  {
    hide Core, Reschedule, CanSelect, Resumed, BackAtWork, TakeWhile;
    RescheduleMeaning(m);
    n := |TakeWhile(m.ready, IsFinished(m.threads))|;
    ReadyRecord(m, m.ready[n]);
    ResumedIsBackAtWork(m.threads[m.ready[n]]);
  }

  /** The clock of the old slice and who ran before do not matter. */
  lemma SwitchReads(m: State, m': State, q: seq<ThreadId>, n: nat, st': State)
    requires Switched(m, q, n, st')
    requires m'.threads == m.threads && m'.asleep == m.asleep && m'.sems == m.sems && m'.time == m.time
    requires m'.nextThread == m.nextThread && m'.nextSem == m.nextSem
    ensures Switched(m', q, n, st')
  {
    hide BackAtWork;
  }

  lemma StepSwitches(st: State, step: Step) returns (n: nat)
    requires Inv(st) && Allowed(st, step) && (TheSem(step).Some? ==> TheSem(step).value in st.sems) && Dispatches(st, step)
    ensures EffectDefined(st, step) && Effect(st, step).running == st.running && st.running in Effect(st, step).threads
    ensures var m := Park(Effect(st, step)); Defined(st, step) && Switched(m, m.ready, n, Next(st, step))
  {
    hide Core, Effect, Allowed, Park, Switched, Reschedule, CanSelect;
    StepIsMiddle(st, step);
    n := ParkedSwitches(Park(Effect(st, step)));
  }

  // ------------------------------------------------------------ dispatch and exit

  /** A dispatch: the caller goes behind everyone in the ready queue, and the first
      that has not finished runs. */
  lemma DispatchMeaning(st: State) returns (n: nat)
    requires Inv(st)
    ensures Defined(st, DoDispatch) && st.running in st.threads
    ensures var t := st.running;
            Switched(st.(threads := st.threads[t := st.threads[t].(state := READY)]), st.ready + [t], n, Next(st, DoDispatch))
  {
    hide Core, Switched;
    RunningFacts(st);
    n := StepSwitches(st, DoDispatch);
    var t := st.running;
    SwitchReads(Park(st), st.(threads := st.threads[t := st.threads[t].(state := READY)]), st.ready + [t], n, Next(st, DoDispatch));
  }

  /** It yields: with a live thread in the ready queue the caller no longer runs and
      is the last of the queue, and without one it runs on. */
  lemma DispatchYields(st: State)
    requires Inv(st)
    ensures Defined(st, DoDispatch)
    ensures var st', t := Next(st, DoDispatch), st.running;
            if exists x :: x in st.ready && Live(st, x)
            then st'.running in st.ready && st'.running != t && st'.ready != [] && st'.ready[|st'.ready| - 1] == t
            else st'.running == t && st'.ready == []
  {
    hide Core, Next, Defined, BackAtWork;
    var n := DispatchMeaning(st);
    RunningFacts(st);
    var q := st.ready + [st.running];
    if x :| x in st.ready && Live(st, x) {
      var i :| 0 <= i < |st.ready| && st.ready[i] == x;
      ReadyElsewhere(st, x);
      assert q[i] == x && n <= i;
      ReadyElsewhere(st, st.ready[n]);
    } else {
      assert n < |st.ready| ==> q[n] == st.ready[n];
      if n < |st.ready| { ReadyElsewhere(st, st.ready[n]); }
    }
  }

  /** An exit: the caller is gone, and the first live thread of the ready queue runs. */
  lemma ExitMeaning(st: State) returns (n: nat)
    requires Inv(st) && st.running != MAIN
    ensures Defined(st, DoExit) && st.running !in Next(st, DoExit).threads
    ensures Switched(st.(threads := st.threads - {st.running}), st.ready, n, Next(st, DoExit))
  {
    hide Core, Switched;
    RunningFacts(st);
    n := StepSwitches(st, DoExit);
    var m := Park(Finished(st));
    assert m.threads == st.threads - {st.running};
    SwitchReads(m, st.(threads := st.threads - {st.running}), st.ready, n, Next(st, DoExit));
    SwitchedGone(st.(threads := st.threads - {st.running}), st.ready, n, Next(st, DoExit), st.running);
  }

  lemma SwitchedGone(m: State, q: seq<ThreadId>, n: nat, st': State, t: ThreadId)
    requires Switched(m, q, n, st') && t !in m.threads
    ensures t !in st'.threads
  {
  }

  // ------------------------------------------------------------- create and kill

  /** A new thread: a fresh child of the caller, last of the ready queue when it has a
      body and in no list when it has none; nothing else changes. */
  lemma CreateMeaning(st: State, body: bool)
    requires Inv(st)
    ensures Defined(st, DoCreate(body)) && st.nextThread !in st.threads
    ensures var st', t := Next(st, DoCreate(body)), st.nextThread;
            && t in st'.threads && t != st'.running && st'.nextThread == t + 1
            && var th := st'.threads[t];
            && th.state == READY && th.status == NON_WAITING && th.sem == None && th.resume == Plainly
            && th.body == body && th.parent == Some(st.running) && th.wake == 0
            && st'.ready == (if body then st.ready + [t] else st.ready) && t !in st.ready
            && t !in st'.asleep && (forall s :: s in st'.sems ==> t !in st'.sems[s].queue)
            && st'.threads == st.threads[t := th]
            && st' == st.(threads := st'.threads, ready := st'.ready, nextThread := t + 1)
    ensures KillCode(Next(st, DoCreate(body)), st.nextThread) == 0
  {
    NextIsFresh(st);
    RunningFacts(st);
    forall s | s in st.sems ensures st.nextThread !in st.sems[s].queue { QueueFacts(st, s); }
  }

  /** A thread created with a body runs within 2(k + 1) ticks, where `k` threads were in
      the ready queue, unless it is killed. */
  lemma CreatedThreadRuns(sts: seq<State>, steps: seq<Step>) returns (j: nat)
    requires Run(sts, steps) && steps != [] && steps[0] == DoCreate(true) && DoKill(sts[0].nextThread) !in steps
    requires Ticks(steps) >= 2 * (|sts[0].ready| + 1)
    ensures |sts| == |steps| + 1 && 0 < j <= |steps|
    ensures sts[j].running == sts[0].nextThread && Ticks(steps[..j]) <= 2 * (|sts[0].ready| + 1)
  {
    hide Run, Leads, Core, Next, Defined, Allowed, IndexOf;
    RunStart(sts, steps);
    RunTail(sts, steps);
    LeadsAllowed(sts[0], steps[0], sts[1]);
    CreateMeaning(sts[0], true);
    var t, k := sts[0].nextThread, |sts[0].ready|;
    LastIndex(sts[0].ready, t);
    var i := ReadyThreadRuns(sts[1..], steps[1..], t);
    j := i + 1;
    assert steps[..j][0] == steps[0] && steps[..j][1..] == steps[1..][..i];
  }

  lemma {:induction false} LastIndex<T>(s: seq<T>, x: T)
    requires x !in s
    ensures IndexOf(s + [x], x) == |s|
  {
    if s != [] {
      LastIndex(s[1..], x);
      assert (s + [x])[1..] == s[1..] + [x];
    } else {
      assert s + [x] == [x];
    }
  }

  /** A thread created without a body is never in a list and never runs. */
  lemma {:induction false} BodylessNeverRuns(sts: seq<State>, steps: seq<Step>, i: nat)
    requires Run(sts, steps) && steps != [] && steps[0] == DoCreate(false) && 0 < i <= |steps|
    ensures |sts| == |steps| + 1 && sts[i].running != sts[0].nextThread
    ensures sts[0].nextThread !in sts[i].asleep && forall s :: !WaitingOn(sts[i], sts[0].nextThread, s)
    ensures sts[0].nextThread !in sts[i].ready
    ensures sts[0].nextThread < sts[i].nextThread
    ensures sts[0].nextThread in sts[i].threads ==> !sts[i].threads[sts[0].nextThread].body
  {
    hide Run, Leads, Core, Next, Defined, Allowed;
    RunStart(sts, steps);
    var t := sts[0].nextThread;
    InvAlong(sts, steps, i);
    FreshIsNotMain(sts[0]);
    if i == 1 {
      RunTail(sts, steps);
      LeadsAllowed(sts[0], steps[0], sts[1]);
      CreateMeaning(sts[0], false);
    } else {
      BodylessNeverRuns(sts, steps, i - 1);
      InvAlong(sts, steps, i - 1);
      RunLeads(sts, steps, i - 1);
      FinishedForGood(sts[i - 1], steps[i - 1], t);
    }
    BodylessNowhere(sts[i], t);
  }

  lemma RunLeads(sts: seq<State>, steps: seq<Step>, i: nat)
    requires Run(sts, steps) && i < |steps|
    ensures |sts| == |steps| + 1 && Allowed(sts[i], steps[i]) && Defined(sts[i], steps[i]) && sts[i + 1] == Next(sts[i], steps[i])
  {
    hide Inv, Allowed, Defined, Next;
    assert Leads(sts[i], steps[i], sts[i + 1]);
  }

  lemma FreshIsNotMain(st: State)
    requires Core(st, true)
    ensures st.nextThread != MAIN
  {
    NextIsFresh(st);
  }

  lemma BodylessNowhere(st: State, t: ThreadId)
    requires Inv(st) && t != MAIN && (t in st.threads ==> !st.threads[t].body)
    ensures st.running != t && t !in st.ready && t !in st.asleep && forall s :: !WaitingOn(st, t, s)
  {
    RunningFacts(st);
    if t in st.threads { assert ThreadOk(st, t, true); }
    forall s ensures !WaitingOn(st, t, s) { if s in st.sems { assert SemOk(st, s); } }
  }

  /** A kill: only the parent's own live child is marked, the code says why nothing was
      done otherwise, and nothing else changes. */
  lemma KillMeaning(st: State, t: ThreadId)
    requires Inv(st)
    ensures Defined(st, DoKill(t))
    ensures KillCode(st, t) == if t !in st.threads then -10 else if st.threads[t].parent != Some(st.running) then -2 else 0
    ensures Next(st, DoKill(t)) ==
              if t in st.threads && st.threads[t].parent == Some(st.running)
              then st.(threads := st.threads[t := st.threads[t].(state := FINISHED)]) else st
  {
    RunningFacts(st);
    OnlyParentsKill(st, t);
  }

  // --------------------------------------------------------------- going to sleep

  /** Where a thread with wake-up time `wake` goes in the sleep list: behind those that
      wake earlier and ahead of those that wake at the same time or later. */
  ghost predicate AlarmPlace(st: State, wake: int, k: nat) {
    && k <= |st.asleep|
    && (forall i :: 0 <= i < |st.asleep| ==> st.asleep[i] in st.threads)
    && (forall i :: 0 <= i < k ==> st.threads[st.asleep[i]].wake < wake)
    && (forall i :: k <= i < |st.asleep| ==> wake <= st.threads[st.asleep[i]].wake)
  }

  lemma PlaceByAlarm(st: State, threads: map<ThreadId, Thread>, t: ThreadId) returns (k: nat)
    requires Core(st, true) && t in threads && t !in st.asleep
    requires forall x :: x in st.asleep ==> WakeOf(threads, x) == WakeOf(st.threads, x)
    ensures k <= |st.asleep| && AlarmPlace(st, threads[t].wake, k)
    ensures Insert(st.asleep, t, SmallerSleepTime(threads)) == st.asleep[..k] + [t] + st.asleep[k..]
  {
    hide Insert;
    k := InsertSplits(st.asleep, t, SmallerSleepTime(threads));
    CoreSorted(st);
    SleepersLive(st);
    forall i | k <= i < |st.asleep| ensures threads[t].wake <= WakeOf(st.threads, st.asleep[i]) {
      assert WakeOf(st.threads, st.asleep[k]) <= WakeOf(st.threads, st.asleep[i]) by { if k < i { assert SleepSorted(st.threads, st.asleep); } }
    }
  }

  lemma SleepersLive(st: State)
    requires Core(st, true)
    ensures forall i :: 0 <= i < |st.asleep| ==> st.asleep[i] in st.threads
  {
  }

  /** A sleep: the caller is on the sleep list at the place of its alarm, and the first
      live thread of the ready queue runs. Durations above 2^63 are halved. */
  lemma SleepMeaning(st: State, d: nat) returns (n: nat, k: nat)
    requires Inv(st) && Allowed(st, DoSleep(d))
    ensures Defined(st, DoSleep(d)) && st.running in st.threads && k <= |st.asleep|
    ensures var t, wake := st.running, (st.time + if d > 0x8000_0000_0000_0000 then d / 2 else d) % 0x1_0000_0000_0000_0000;
            && AlarmPlace(st, wake, k)
            && Switched(st.(threads := st.threads[t := st.threads[t].(state := SUSPENDED, wake := wake, resume := InSleep)],
                            asleep := st.asleep[..k] + [t] + st.asleep[k..]),
                        st.ready, n, Next(st, DoSleep(d)))
  {
    hide Core, Switched, Insert, AlarmPlace;
    RunningFacts(st);
    n := StepSwitches(st, DoSleep(d));
    var t, m := st.running, PutToSleep(st, ClampedSleep(d));
    k := PlaceByAlarm(st, m.threads, t);
    SwitchReads(Park(m), m, st.ready, n, Next(st, DoSleep(d)));
    assert m == st.(threads := m.threads, asleep := st.asleep[..k] + [t] + st.asleep[k..]);
  }

  // ------------------------------------------------------------------------- waits

  /** A wait, timed or not, with a unit to take: the caller takes it, is told 1 and runs
      on; nothing else changes. */
  lemma UnblockedWaitMeaning(st: State, step: Step, s: SemId)
    requires Inv(st) && (step == DoWait(s) || (step.DoTimedWait? && step.s == s)) && s in st.sems && st.sems[s].val >= 1
    ensures Defined(st, step) && st.running in st.threads
    ensures Next(st, step) == st.(sems := st.sems[s := Sem(st.sems[s].val - 1, st.sems[s].queue)],
                                  threads := st.threads[st.running := st.threads[st.running].(answer := 1)])
    ensures Next(st, step).running == st.running && Answered(Next(st, step), st.running, 1) && Next(st, step).ready == st.ready
  {
    RunningFacts(st);
  }

  /** A wait without one: the caller is the last of the semaphore's queue, without a
      deadline, and the first live thread of the ready queue runs. */
  lemma BlockedWaitMeaning(st: State, s: SemId) returns (n: nat)
    requires Inv(st) && Allowed(st, DoWait(s)) && s in st.sems && st.sems[s].val <= 0
    ensures Defined(st, DoWait(s)) && st.running in st.threads
    ensures var t, m := st.running, st.sems[s];
            Switched(st.(sems := st.sems[s := Sem(m.val - 1, m.queue + [t])],
                         threads := st.threads[t := st.threads[t].(status := WAITING, state := SUSPENDED, sem := Some(s), resume := InBlock)]),
                     st.ready, n, Next(st, DoWait(s)))
  {
    hide Core, Switched;
    RunningFacts(st);
    n := StepSwitches(st, DoWait(s));
    var m := Block(st, s);
    SwitchReads(Park(m), m, st.ready, n, Next(st, DoWait(s)));
  }

  /** A timed wait without one: as before, and the caller is on the sleep list as well,
      at the place of its deadline. */
  lemma BlockedTimedWaitMeaning(st: State, s: SemId, d: nat) returns (n: nat, k: nat)
    requires Inv(st) && Allowed(st, DoTimedWait(s, d)) && s in st.sems && st.sems[s].val <= 0
    ensures Defined(st, DoTimedWait(s, d)) && st.running in st.threads && k <= |st.asleep|
    ensures var t, m, wake := st.running, st.sems[s], (st.time + d) % 0x1_0000_0000_0000_0000;
            && AlarmPlace(st, wake, k)
            && Switched(st.(sems := st.sems[s := Sem(m.val - 1, m.queue + [t])],
                            threads := st.threads[t := st.threads[t].(status := TIMEDWAITING, state := SUSPENDED, sem := Some(s),
                                                                      resume := InTimedBlock, wake := wake)],
                            asleep := st.asleep[..k] + [t] + st.asleep[k..]),
                        st.ready, n, Next(st, DoTimedWait(s, d)))
  {
    hide Core, Switched, Insert, AlarmPlace;
    RunningFacts(st);
    n := StepSwitches(st, DoTimedWait(s, d));
    var t, m := st.running, TimedBlock(st, s, d);
    k := PlaceByAlarm(st, m.threads, t);
    SwitchReads(Park(m), m, st.ready, n, Next(st, DoTimedWait(s, d)));
    assert m == st.(sems := m.sems, threads := m.threads, asleep := st.asleep[..k] + [t] + st.asleep[k..]);
  }

  // -------------------------------------------------------- open, signal and close

  /** A new semaphore: a fresh one with `n` units and nobody waiting. */
  lemma OpenMeaning(st: State, n: nat)
    requires Inv(st) && n < 0x8000_0000_0000_0000
    ensures Defined(st, DoOpen(n)) && st.nextSem !in st.sems
    ensures Next(st, DoOpen(n)) == st.(sems := st.sems[st.nextSem := Sem(n, [])], nextSem := st.nextSem + 1)
  {
    RunningLive(st);
    NextIsFresh(st);
  }

  /** How a released waiter's record looks: on no semaphore, ready, and told the cause. A
      finished thread is only taken off the semaphore. */
  predicate Told(th: Thread, th': Thread, cause: SemStatus) {
    th' == if th.state == FINISHED then th.(sem := None) else th.(sem := None, status := cause, state := READY)
  }

  /** A signal: one more unit, or the first waiter - and nobody else - goes to the back of
      the ready queue, off the sleep list if it was on it. The caller runs on. */
  lemma SignalMeaning(st: State, s: SemId)
    requires Inv(st) && s in st.sems
    ensures Defined(st, DoSignal(s))
    ensures var st', m := Next(st, DoSignal(s)), st.sems[s];
            if m.val >= 0 then st' == st.(sems := st.sems[s := Sem(m.val + 1, m.queue)])
            else
              && m.queue != [] && m.queue[0] in st.threads && m.queue[0] in st'.threads && m.queue[0] != st.running
              && var w := m.queue[0];
              && Told(st.threads[w], st'.threads[w], REGULARLY_WAITED)
              && st' == st.(sems := st.sems[s := Sem(m.val + 1, m.queue[1..])], ready := st.ready + [w],
                            asleep := if w in st.asleep then Remove(st.asleep, w) else st.asleep,
                            threads := st.threads[w := st'.threads[w]])
  {
    hide Core, Remove;
    RunningLive(st);
    SignalKeepsCore(st, s);
    QueueFacts(st, s);
  }

  /** Deletion: the semaphore is gone, every waiter is at the back of the ready queue in
      the order they waited and told so, and the timed ones among them are off the sleep
      list, whose order is otherwise kept. */
  lemma CloseMeaning(st: State, s: SemId)
    requires Inv(st) && s in st.sems
    ensures Defined(st, DoClose(s))
    ensures var st', m := Next(st, DoClose(s)), st.sems[s];
            && st'.sems == st.sems - {s} && st'.ready == st.ready + m.queue && st'.asleep == Minus(st.asleep, m.queue)
            && st'.threads.Keys == st.threads.Keys
            && (forall t :: t in m.queue ==> t in st.threads && Told(st.threads[t], st'.threads[t], SEM_DELETED))
            && (forall t :: t in st.threads && t !in m.queue ==> st'.threads[t] == st.threads[t])
            && st' == st.(sems := st'.sems, ready := st'.ready, asleep := st'.asleep, threads := st'.threads)
  {
    hide Core, Minus, UnblockAll;
    RunningLive(st);
    QueueFacts(st, s);
    UnblockAllDrains(st, s);
  }

  // -------------------------------------------------------------------------- tick

  /** `m` is `st` one tick later with its first `k` sleepers woken: exactly those whose
      time has come. They are at the back of the ready queue in list order; a timed
      waiter among them has left its semaphore, given its unit back and been told. */
  ghost predicate Ticked(st: State, m: State, k: nat) {
    && m.time == (st.time + 1) % 0x1_0000_0000_0000_0000 && m.cpu == st.cpu + 1
    && m.running == st.running && m.nextThread == st.nextThread && m.nextSem == st.nextSem
    && k <= |st.asleep| && (forall t :: t in st.asleep ==> t in st.threads)
    && (forall i :: 0 <= i < k ==> st.threads[st.asleep[i]].wake <= m.time)
    && (forall i :: k <= i < |st.asleep| ==> m.time < st.threads[st.asleep[i]].wake)
    && m.asleep == st.asleep[k..] && m.ready == st.ready + st.asleep[..k]
    && m.threads.Keys == st.threads.Keys && m.sems.Keys == st.sems.Keys
    && (forall t :: t in st.threads ==>
          if t in st.asleep[..k] && st.threads[t].status == TIMEDWAITING then Told(st.threads[t], m.threads[t], TIMEOUT)
          else m.threads[t] == st.threads[t])
    && (forall s :: s in st.sems ==> m.sems[s].queue == Minus(st.sems[s].queue, st.asleep[..k]))
    && (forall s :: s in st.sems ==> m.sems[s].val == st.sems[s].val + |st.sems[s].queue| - |m.sems[s].queue|)
  }

  lemma WakesAreTicked(st: State) returns (k: nat)
    requires Inv(st)
    ensures Ticked(st, TickWakes(st), k)
  {
    hide Core, WakeAll, Minus, TakeWhile, DropWhile, AfterWake, Told;
    var now := (st.time + 1) % TIME_RANGE;
    ClockKeepsCore(st, now, st.cpu + 1, true);
    WakeAllMeaning(Advance(st));
    SleepersKnown(st);
    k := DueCount(st, now);
    forall t | t in st.threads && t in st.asleep[..k]
      ensures st.threads[t].status == TIMEDWAITING ==> Told(st.threads[t], AfterWake(st.threads[t]), TIMEOUT)
      ensures st.threads[t].status != TIMEDWAITING ==> AfterWake(st.threads[t]) == st.threads[t]
    {
      AfterWakeIsTold(st.threads[t]);
    }
  }

  lemma AfterWakeIsTold(th: Thread)
    ensures if th.status == TIMEDWAITING then Told(th, AfterWake(th), TIMEOUT) else AfterWake(th) == th
  {
  }

  lemma DueCount(st: State, now: nat) returns (k: nat)
    requires Inv(st)
    ensures k <= |st.asleep| && (forall t :: t in st.asleep ==> t in st.threads)
    ensures TakeWhile(st.asleep, DueAt(st.threads, now)) == st.asleep[..k] && DropWhile(st.asleep, DueAt(st.threads, now)) == st.asleep[k..]
    ensures forall i :: 0 <= i < k ==> st.threads[st.asleep[i]].wake <= now
    ensures forall i :: k <= i < |st.asleep| ==> now < st.threads[st.asleep[i]].wake
  {
    hide Core, TakeWhile, DropWhile;
    SleepersKnown(st);
    ClockKeepsCore(st, now, st.cpu, true);
    NobodyDueIsLeft(st.(time := now));
    var due := DueAt(st.threads, now);
    k := |TakeWhile(st.asleep, due)|;
    assert TakeWhile(st.asleep, due) == st.asleep[..k] && DropWhile(st.asleep, due) == st.asleep[k..];
    forall i | 0 <= i < k ensures st.threads[st.asleep[i]].wake <= now { assert st.asleep[i] in st.asleep[..k]; }
    forall i | k <= i < |st.asleep| ensures now < st.threads[st.asleep[i]].wake { assert st.asleep[i] in st.asleep[k..]; }
  }

  lemma SleepersKnown(st: State)
    requires Inv(st)
    ensures forall t :: t in st.asleep ==> t in st.threads
  {
  }

  /** A tick: the due sleepers wake. In the first tick of its slice the running thread
      runs on; the second sends it to the back of the ready queue, behind the threads
      just woken, and the first live thread runs. */
  lemma TickMeaning(st: State) returns (m: State, k: nat, n: nat)
    requires Inv(st)
    ensures Defined(st, DoTick) && Ticked(st, m, k) && m.running in m.threads
    ensures st.cpu == 0 || st.cpu == 1
    ensures st.cpu == 0 ==> Next(st, DoTick) == m
    ensures st.cpu == 1 ==>
              var t := st.running;
              Switched(m.(threads := m.threads[t := m.threads[t].(state := READY)]), m.ready + [t], n, Next(st, DoTick))
  {
    hide Core, TickWakes, Switched, Ticked;
    m := TickWakes(st);
    k := WakesAreTicked(st);
    StepIsMiddle(st, DoTick);
    TickRunning(st);
    n := 0;
    if st.cpu == 1 {
      n := StepSwitches(st, DoTick);
      var t := st.running;
      SwitchReads(Park(m), m.(threads := m.threads[t := m.threads[t].(state := READY)]), m.ready + [t], n, Next(st, DoTick));
    }
  }

  lemma TickRunning(st: State)
    requires Inv(st)
    ensures var m := TickWakes(st);
            && m.cpu == st.cpu + 1 && m.running == st.running && st.running in m.threads
            && (m.threads[st.running].state == RUNNING || m.threads[st.running].state == READY)
  {
    hide Core, TickWakes;
    TickWakesKeepsCore(st);
    RunningFacts(TickWakes(st));
  }

  // ------------------------------------------------------------------- the slice

  /** A fresh slice lasts two ticks: as long as it makes no call that gives up the
      processor and fewer than two ticks have passed, the thread runs on. */
  lemma {:induction false} SliceLasts(sts: seq<State>, steps: seq<Step>, i: nat)
    requires Run(sts, steps) && i <= |steps| && sts[0].cpu == 0 && Ticks(steps[..i]) <= 1
    requires forall k :: 0 <= k < i ==> steps[k] in {DoTick} || !GivesUp(sts[k], steps[k])
    ensures |sts| == |steps| + 1 && sts[i].running == sts[0].running && sts[i].cpu == Ticks(steps[..i])
  {
    hide Run, Core, Allowed, Defined, Next;
    RunStart(sts, steps);
    if i > 0 {
      TicksOfPrefix(steps, i - 1);
      SliceLasts(sts, steps, i - 1);
      InvAlong(sts, steps, i - 1);
      RunLeads(sts, steps, i - 1);
      if steps[i - 1] == DoTick {
        var m, k, n := TickMeaning(sts[i - 1]);
      } else {
        KeepsProcessor(sts[i - 1], steps[i - 1]);
      }
    }
  }

  /** Calls that give up the processor: dispatch, exit, sleep, and waits that block. */
  predicate GivesUp(st: State, step: Step) {
    match step
    case DoDispatch => true
    case DoExit => true
    case DoSleep(_) => true
    case DoWait(s) => s in st.sems && st.sems[s].val <= 0
    case DoTimedWait(s, _) => s in st.sems && st.sems[s].val <= 0
    case _ => false
  }

  lemma KeepsProcessor(st: State, step: Step)
    requires Inv(st) && Allowed(st, step) && !step.DoTick? && !GivesUp(st, step)
    ensures Defined(st, step) && Next(st, step).running == st.running && Next(st, step).cpu == st.cpu
  {
    hide Core, Next, Defined, Remove;
    match step
    case DoCreate(body) => CreateMeaning(st, body);
    case DoKill(t) => KillMeaning(st, t);
    case DoOpen(n) => OpenMeaning(st, n);
    case DoWait(s) => UnblockedWaitMeaning(st, step, s);
    case DoTimedWait(s, d) => UnblockedWaitMeaning(st, step, s);
    case DoSignal(s) => SignalMeaning(st, s);
    case DoClose(s) => CloseMeaning(st, s);
  }

  lemma {:induction false} TicksOfPrefix(steps: seq<Step>, i: nat)
    requires i < |steps|
    ensures Ticks(steps[..i + 1]) == Ticks(steps[..i]) + if steps[i].DoTick? then 1 else 0
  {
    if i == 0 {
      assert steps[..1] == [steps[0]] && steps[..0] == [] && steps[..1][1..] == [];
    } else {
      TicksOfPrefix(steps[1..], i - 1);
      assert steps[..i + 1][1..] == steps[1..][..i] && steps[..i][1..] == steps[1..][..i - 1];
    }
  }

  // ------------------------------------------------------------- whole waits

  /** A whole wait, from the call to the moment the caller next runs, in a run in which
      it is not killed. It is told 1 exactly when there was a unit to take. Otherwise
      exactly one step, `j`, releases it: a signal, and it is told 0; the deletion of
      the semaphore, and it is told -1; or, for a timed wait only, a tick, and it is
      told -2. */
  lemma WaitAnswers(sts: seq<State>, steps: seq<Step>, s: SemId) returns (j: nat)
    requires Run(sts, steps) && steps != [] && (steps[0] == DoWait(s) || (steps[0].DoTimedWait? && steps[0].s == s))
    requires DoKill(sts[0].running) !in steps && sts[|steps|].running == sts[0].running
    requires forall i :: 0 < i < |steps| ==> sts[i].running != sts[0].running
    ensures |sts| == |steps| + 1 && s in sts[0].sems && sts[0].running in sts[|steps|].threads
    ensures var a := sts[|steps|].threads[sts[0].running].answer;
            && (a == 1 <==> sts[0].sems[s].val >= 1)
            && (a != 1 ==>
                  && 0 < j < |steps| && (forall i :: 0 < i <= |steps| ==> (WaitingOn(sts[i], sts[0].running, s) <==> i <= j))
                  && ((steps[j] == DoSignal(s) && a == 0) || (steps[j] == DoClose(s) && a == -1)
                      || (steps[j] == DoTick && steps[0].DoTimedWait? && a == -2)))
  {
    hide Run, Leads, Core, Allowed, Defined, Next, WaitingOn, CauseCode;
    RunStart(sts, steps);
    RunTail(sts, steps);
    LeadsAllowed(sts[0], steps[0], sts[1]);
    WaitsOnLive(sts[0], steps[0]);
    j := 0;
    if sts[0].sems[s].val >= 1 {
      UnblockedWaitMeaning(sts[0], steps[0], s);
    } else {
      BlockedCaller(sts[0], steps[0], s);
      var i := AnswerMatchesCause(sts[1..], steps[1..], sts[0].running, s);
      j := i + 1;
      Codes(steps[j]);
      forall i | 0 < i <= |steps| ensures WaitingOn(sts[i], sts[0].running, s) <==> i <= j { assert sts[i] == sts[1..][i - 1]; }
    }
  }

  lemma Codes(step: Step)
    ensures CauseCode(step) == if step.DoSignal? then 0 else if step.DoClose? then -1 else -2
  {
  }

  lemma WaitsOnLive(st: State, step: Step)
    requires Allowed(st, step) && TheSem(step).Some?
    ensures TheSem(step).value in st.sems
  {
  }

  lemma BlockedCaller(st: State, step: Step, s: SemId)
    requires Inv(st) && Allowed(st, step) && (step == DoWait(s) || (step.DoTimedWait? && step.s == s)) && s in st.sems && st.sems[s].val <= 0
    ensures Defined(st, step)
    ensures var st', t := Next(st, step), st.running;
            && WaitingOn(st', t, s) && Live(st', t) && st'.running != t
            && st'.threads[t].status == if step.DoTimedWait? then TIMEDWAITING else WAITING
  {
    hide Core, Allowed, Defined, Next, BackAtWork, AlarmPlace;
    RunningFacts(st);
    if step == DoWait(s) {
      var n := BlockedWaitMeaning(st, s);
      ReadyElsewhere(st, st.ready[n]);
      assert forall x :: x in st.ready[..n] ==> x in st.ready;
      NotReady(st, st.running);
    } else {
      var n, k := BlockedTimedWaitMeaning(st, s, step.d);
      ReadyElsewhere(st, st.ready[n]);
      assert forall x :: x in st.ready[..n] ==> x in st.ready;
      NotReady(st, st.running);
    }
  }

  lemma NotReady(st: State, t: ThreadId)
    requires Core(st, true)
    ensures t == st.running ==> t !in st.ready
  {
    RunningFacts(st);
  }

  // ------------------------------------------------------------ order of waking

  ghost predicate Ahead(s: seq<ThreadId>, u: ThreadId, t: ThreadId) {
    exists i, j :: 0 <= i < j < |s| && s[i] == u && s[j] == t
  }

  lemma AheadInserted(s: seq<ThreadId>, x: ThreadId, k: nat, u: ThreadId, t: ThreadId)
    requires Ahead(s, u, t) && k <= |s|
    ensures Ahead(s[..k] + [x] + s[k..], u, t)
  {
    var i, j :| 0 <= i < j < |s| && s[i] == u && s[j] == t;
    var r := s[..k] + [x] + s[k..];
    assert r[if i < k then i else i + 1] == u && r[if j < k then j else j + 1] == t;
  }

  lemma AheadInSuffix(s: seq<ThreadId>, k: nat, u: ThreadId, t: ThreadId)
    requires Ahead(s, u, t) && NoDup(s) && k <= |s| && u in s[k..]
    ensures Ahead(s[k..], u, t)
  {
    var i, j :| 0 <= i < j < |s| && s[i] == u && s[j] == t;
    var l :| 0 <= l < |s[k..]| && s[k..][l] == u;
    assert s[k + l] == u && i == k + l;
    assert s[k..][i - k] == u && s[k..][j - k] == t;
  }

  lemma {:induction false} AheadInMinus(s: seq<ThreadId>, q: seq<ThreadId>, u: ThreadId, t: ThreadId)
    requires Ahead(s, u, t) && u !in q && t !in q
    ensures Ahead(Minus(s, q), u, t)
  {
    var i, j :| 0 <= i < j < |s| && s[i] == u && s[j] == t;
    if i == 0 {
      assert s[1..][j - 1] == t;
      assert t in Minus(s[1..], q);
      var l :| 0 <= l < |Minus(s[1..], q)| && Minus(s[1..], q)[l] == t;
      assert Minus(s, q) == [u] + Minus(s[1..], q);
      assert Minus(s, q)[0] == u && Minus(s, q)[l + 1] == t;
    } else {
      assert s[1..][i - 1] == u && s[1..][j - 1] == t;
      AheadInMinus(s[1..], q, u, t);
      var a, b :| 0 <= a < b < |Minus(s[1..], q)| && Minus(s[1..], q)[a] == u && Minus(s[1..], q)[b] == t;
      var d := |Minus(s, q)| - |Minus(s[1..], q)|;
      assert Minus(s, q)[a + d] == u && Minus(s, q)[b + d] == t;
    }
  }

  /** Two threads that stay asleep keep their order in the sleep list. */
  lemma StepKeepsSleepOrder(st: State, step: Step, u: ThreadId, t: ThreadId)
    requires Inv(st) && Allowed(st, step) && Ahead(st.asleep, u, t)
    ensures Defined(st, step)
    ensures u in Next(st, step).asleep && t in Next(st, step).asleep ==> Ahead(Next(st, step).asleep, u, t)
  {
    hide Core, Allowed, Next, Defined, Ahead, Remove, Minus, AlarmPlace, BackAtWork, NoDup;
    StepHandle(st, step);
    CoreQueues(st);
    MainStays(st, step);
    match step
    case DoCreate(body) => CreateMeaning(st, body);
    case DoDispatch => var n := DispatchMeaning(st);
    case DoExit => var n := ExitMeaning(st);
    case DoKill(x) => KillMeaning(st, x);
    case DoSleep(d) => var n, k := SleepMeaning(st, d); AheadInserted(st.asleep, st.running, k, u, t);
    case DoOpen(n) => OpenMeaning(st, n);
    case DoWait(s) =>
      if st.sems[s].val >= 1 { UnblockedWaitMeaning(st, step, s); } else { var n := BlockedWaitMeaning(st, s); }
    case DoTimedWait(s, d) =>
      if st.sems[s].val >= 1 {
        UnblockedWaitMeaning(st, step, s);
      } else {
        var n, k := BlockedTimedWaitMeaning(st, s, d);
        AheadInserted(st.asleep, st.running, k, u, t);
      }
    case DoSignal(s) =>
      SignalMeaning(st, s);
      if st.sems[s].val < 0 {
        var w := st.sems[s].queue[0];
        RemoveFromDistinct(st.asleep, w);
        MinusOne(st.asleep, w);
        if u != w && t != w { AheadInMinus(st.asleep, [w], u, t); }
      }
    case DoClose(s) =>
      CloseMeaning(st, s);
      if u !in st.sems[s].queue && t !in st.sems[s].queue { AheadInMinus(st.asleep, st.sems[s].queue, u, t); }
    case DoTick =>
      var m, k, n := TickMeaning(st);
      if u in st.asleep[k..] { AheadInSuffix(st.asleep, k, u, t); }
  }

  lemma MainStays(st: State, step: Step)
    requires Allowed(st, step)
    ensures step == DoExit ==> st.running != MAIN
    ensures step.DoOpen? ==> step.n < 0x8000_0000_0000_0000
  {
  }

  /** Sleepers with equal alarms wake last come, first served: a thread that falls asleep,
      by a sleep or a timed wait, with the alarm of one already asleep or an earlier one
      stays ahead of it in the sleep list as long as both are on it. Ticks take sleepers
      off in list order. */
  lemma {:induction false} LastToSleepIsAhead(sts: seq<State>, steps: seq<Step>, t: ThreadId, n: nat)
    requires Run(sts, steps) && 0 < n <= |steps| && t in sts[0].asleep && t in sts[0].threads
    requires FallsAsleep(sts[0], steps[0], sts[0].threads[t].wake)
    requires forall i :: 0 < i <= n ==> sts[0].running in sts[i].asleep && t in sts[i].asleep
    ensures |sts| == |steps| + 1 && Ahead(sts[n].asleep, sts[0].running, t)
  {
    hide Run, Core, Allowed, Next, Defined, Ahead, FallsAsleep;
    RunStart(sts, steps);
    RunLeads(sts, steps, n - 1);
    if n == 1 {
      AheadAtOnce(sts[0], steps[0], t);
    } else {
      LastToSleepIsAhead(sts, steps, t, n - 1);
      InvAlong(sts, steps, n - 1);
      StepKeepsSleepOrder(sts[n - 1], steps[n - 1], sts[0].running, t);
    }
  }

  /** The step puts the caller to sleep with an alarm no later than `wake`. */
  predicate FallsAsleep(st: State, step: Step, wake: int) {
    match step
    case DoSleep(d) => (st.time + if d > 0x8000_0000_0000_0000 then d / 2 else d) % 0x1_0000_0000_0000_0000 <= wake
    case DoTimedWait(s, d) => s in st.sems && st.sems[s].val <= 0 && (st.time + d) % 0x1_0000_0000_0000_0000 <= wake
    case _ => false
  }

  lemma AheadAtOnce(st: State, step: Step, t: ThreadId)
    requires Inv(st) && Allowed(st, step) && t in st.asleep && t in st.threads && FallsAsleep(st, step, st.threads[t].wake)
    ensures Defined(st, step) && Ahead(Next(st, step).asleep, st.running, t)
  {
    hide Core, Allowed, Next, Defined, BackAtWork, Ahead;
    var j :| 0 <= j < |st.asleep| && st.asleep[j] == t;
    match step
    case DoSleep(d) =>
      var n, k := SleepMeaning(st, d);
      AheadOfLater(st.asleep, st.running, k, j);
    case DoTimedWait(s, d) =>
      var n, k := BlockedTimedWaitMeaning(st, s, d);
      AheadOfLater(st.asleep, st.running, k, j);
    case _ =>
  }

  lemma AheadOfLater(s: seq<ThreadId>, x: ThreadId, k: nat, j: nat)
    requires k <= j < |s|
    ensures Ahead(s[..k] + [x] + s[k..], x, s[j])
  {
    var r := s[..k] + [x] + s[k..];
    assert r[k] == x && r[j + 1] == s[j];
  }
}
