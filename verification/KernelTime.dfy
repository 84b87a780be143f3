/** When the timer releases sleepers and timed waiters: the exact tick, for every
    duration and every state of the 64-bit clock. */
module KernelTime {
  import opened ListSpec
  import opened KernelState
  import opened KernelInvariant
  import opened KernelDispatch
  import opened KernelRuns

  // ---------------------------------------------------------------- the clock

  function ClockAfter(time: nat, n: nat): nat { (time + n) % TIME_RANGE }

  /** The `n`-th tick is the first at which the clock is not below `wake`. */
  predicate FirstReach(time: nat, wake: nat, n: nat) {
    n >= 1 && wake <= ClockAfter(time, n) && forall m :: 1 <= m < n ==> ClockAfter(time, m) < wake
  }

  /** On which tick after clock value `time` the timer releases a thread that asked
      for `d` ticks. When `time + d` does not fit the clock, that is the very next
      tick - except at the clock's last value, where the next tick wraps the clock
      as well and every duration but 0 is kept. */
  function ReleaseTick(time: nat, d: nat): nat {
    if time == TIME_RANGE - 1 then (if d == 0 then TIME_RANGE else d)
    else if d == 0 || time + d >= TIME_RANGE then 1
    else d
  }

  lemma ReachAtReleaseTick(time: nat, d: nat)
    requires time < TIME_RANGE && d < TIME_RANGE
    ensures FirstReach(time, ClockAfter(time, d), ReleaseTick(time, d))
  {
  }

  lemma ReachIsReleaseTick(time: nat, d: nat, n: nat)
    requires time < TIME_RANGE && d < TIME_RANGE
    ensures FirstReach(time, ClockAfter(time, d), n) <==> n == ReleaseTick(time, d)
  {
    hide ClockAfter, ReleaseTick;
    ReachAtReleaseTick(time, d);
  }

  lemma ReachLater(time: nat, wake: nat, n: nat)
    requires n >= 2
    ensures FirstReach(time, wake, n) <==> ClockAfter(time, 1) < wake && FirstReach(ClockAfter(time, 1), wake, n - 1)
  {
    forall m: nat ensures ClockAfter(ClockAfter(time, 1), m) == ClockAfter(time, m + 1) { ClockAdds(time, m); }
    hide ClockAfter;
    if ClockAfter(time, 1) < wake && FirstReach(ClockAfter(time, 1), wake, n - 1) {
      forall m | 1 <= m < n ensures ClockAfter(time, m) < wake {
        if m > 1 { assert ClockAfter(ClockAfter(time, 1), m - 1) < wake; }
      }
    }
  }

  lemma ClockAdds(time: nat, m: nat)
    ensures ClockAfter(ClockAfter(time, 1), m) == ClockAfter(time, m + 1)
  {
  }

  /** The requested tick is the one that releases exactly when the sum fits the
      clock or the clock stands at its last value; otherwise the next tick does. */
  lemma RequestedTick(time: nat, d: nat)
    requires time < TIME_RANGE && 1 <= d < TIME_RANGE
    ensures ReleaseTick(time, d) == d <==> time + d < TIME_RANGE || time == TIME_RANGE - 1
    ensures TIME_RANGE <= time + d && time < TIME_RANGE - 1 ==> d >= 2 && ReleaseTick(time, d) == 1
  {
  }

  /** The same for a sleep, whose duration is clamped first. */
  lemma RequestedSleep(time: nat, d: nat)
    requires time < TIME_RANGE && 1 <= d < TIME_RANGE
    ensures ReleaseTick(time, ClampedSleep(d)) == d <==> d <= SIGN_BIT && (time + d < TIME_RANGE || time == TIME_RANGE - 1)
    ensures time < SIGN_BIT ==> ReleaseTick(time, ClampedSleep(d)) == ClampedSleep(d)
  {
  }

  // ----------------------------------------------------------------- sleeping

  /** The running thread goes to sleep until `time + d`, exactly when that sum still
      fits the clock; clamped durations always fit in the first half of its range. */
  lemma SleepSetsAlarm(st: State, d: nat)
    requires Inv(st) && Allowed(st, DoSleep(d)) && Defined(st, DoSleep(d))
    ensures var st', t := Next(st, DoSleep(d)), st.running;
            && Sleeping(st', t) && Live(st', t) && st'.running != t && st'.threads[t].wake == ClockAfter(st.time, ClampedSleep(d))
            && (st'.threads[t].wake == st.time + ClampedSleep(d) <==> st.time + ClampedSleep(d) < TIME_RANGE)
    ensures st.time < SIGN_BIT ==> st.time + ClampedSleep(d) < TIME_RANGE
  {
    hide Core, PutToSleep, Park, Reschedule, CanSelect;
    RunningFacts(st);
    StepIsMiddle(st, DoSleep(d));
    AlarmSet(st, ClampedSleep(d));
    SleeperThroughDispatch(Park(PutToSleep(st, ClampedSleep(d))), st.running);
  }

  lemma AlarmSet(st: State, d: nat)
    requires Core(st, true) && MayBlock(st)
    ensures st.running in st.threads && PutToSleep(st, d).running in PutToSleep(st, d).threads
    ensures var m, t := Park(PutToSleep(st, d)), st.running;
            && Sleeping(m, t) && m.threads[t].wake == ClockAfter(st.time, d) && m.threads[t].state == SUSPENDED
  {
    hide Core, Insert;
    RunningFacts(st);
    SleepLists(st, PutToSleep(st, d).threads[st.running]);
  }

  /** A dispatch neither wakes a sleeper nor changes it. */
  lemma SleeperThroughDispatch(m: State, t: ThreadId)
    requires Core(m, false) && CanSelect(m) && t in m.asleep
    ensures t in m.threads
    ensures var r := Reschedule(m); t in r.asleep && r.running != t && t in r.threads && r.threads[t] == m.threads[t]
  {
    hide Core, Reschedule, CanSelect, Resumed, TakeWhile;
    SleeperNotReady(m, t);
    RescheduleMeaning(m);
    var n := |TakeWhile(m.ready, IsFinished(m.threads))|;
    assert forall x :: x in m.ready[..n] ==> x in m.ready;
  }

  lemma SleeperNotReady(m: State, t: ThreadId)
    requires Core(m, false) && t in m.asleep
    ensures t in m.threads && t !in m.ready
  {
    assert ThreadOk(m, t, false);
  }

  /** A plain sleeper: on the sleep list without waiting on a semaphore. */
  predicate Sleeping(st: State, t: ThreadId) {
    t in st.asleep && t in st.threads && st.threads[t].status == NON_WAITING
  }

  /** In the ready queue, or already past it. */
  predicate Awake(st: State, t: ThreadId) {
    t !in st.asleep && (t in st.ready || t == st.running || t !in st.threads)
  }

  /** Only a tick that reaches its alarm wakes a sleeper, and such a tick does. */
  lemma StepAndSleeper(st: State, step: Step, t: ThreadId)
    requires Inv(st) && Allowed(st, step) && Defined(st, step) && Sleeping(st, t)
    ensures var st' := Next(st, step);
            if step.DoTick? && st.threads[t].wake <= (st.time + 1) % TIME_RANGE then Awake(st', t)
            else Sleeping(st', t) && st'.threads[t].wake == st.threads[t].wake
  {
    hide Core, Middle, Effect, Allowed, Reschedule, CanSelect;
    StepIsMiddle(st, step);
    MiddleSleeper(st, step, t);
    var m := Middle(st, step);
    if Dispatches(st, step) {
      if t in m.asleep { SleeperThroughDispatch(m, t); } else { ReadyThroughDispatch(m, t); }
    }
  }

  lemma ReadyThroughDispatch(m: State, t: ThreadId)
    requires Core(m, false) && CanSelect(m) && t in m.ready
    ensures var r := Reschedule(m); r.asleep == m.asleep && (t in r.ready || t == r.running || t !in r.threads)
  {
    hide Core, Reschedule, CanSelect, Resumed, TakeWhile;
    RescheduleMeaning(m);
    var n := |TakeWhile(m.ready, IsFinished(m.threads))|;
    assert m.ready == m.ready[..n] + [m.ready[n]] + m.ready[n + 1..];
  }

  lemma MiddleSleeper(st: State, step: Step, t: ThreadId)
    requires Inv(st) && Allowed(st, step) && Sleeping(st, t)
    ensures EffectDefined(st, step) && Effect(st, step).running in Effect(st, step).threads
    ensures var m := Middle(st, step);
            if step.DoTick? && st.threads[t].wake <= (st.time + 1) % TIME_RANGE then t !in m.asleep && t in m.ready
            else t in m.asleep && t in m.threads && m.threads[t].wake == st.threads[t].wake && m.threads[t].status == NON_WAITING
  {
    hide Core, TickWakes, Signal, Close, Insert, Minus, WithStatus, TakeWhile, DropWhile, Park;
    StepIsMiddle(st, step);
    RunningFacts(st);
    ParkOthers(Effect(st, step), t);
    match step
    case DoCreate(_) => NextIsFresh(st);
    case DoSleep(d) => SleepLists(st, PutToSleep(st, ClampedSleep(d)).threads[st.running]);
    case DoTimedWait(s, d) => if MustBlock(st, s) { SleepLists(st, TimedBlock(st, s, d).threads[st.running]); }
    case DoSignal(s) => SignalSleeper(st, s, t);
    case DoClose(s) => CloseSleeper(st, s, t);
    case DoTick => TickSleeper(st, t);
    case _ =>
  }

  lemma SignalSleeper(st: State, s: SemId, t: ThreadId)
    requires Core(st, true) && s in st.sems && Sleeping(st, t)
    ensures EffectDefined(st, DoSignal(s))
    ensures var m := Signal(st, s); t in m.asleep && t in m.threads && m.threads[t] == st.threads[t]
  {
    hide Core, WithStatus, Remove;
    RunningLive(st);
    QueueFacts(st, s);
    CoreQueues(st);
    if st.sems[s].val < 0 {
      UnblockReleases(st, s, REGULARLY_WAITED);
      RemoveFromDistinct(st.asleep, st.sems[s].queue[0]);
    }
  }

  lemma CloseSleeper(st: State, s: SemId, t: ThreadId)
    requires Core(st, true) && s in st.sems && Sleeping(st, t)
    ensures EffectDefined(st, DoClose(s))
    ensures var m := Close(st, s); t in m.asleep && t in m.threads && m.threads[t] == st.threads[t]
  {
    hide Core, WithStatus, UnblockAll;
    RunningLive(st);
    UnblockAllDrains(st, s);
    QueueFacts(st, s);
  }

  lemma TickSleeper(st: State, t: ThreadId)
    requires Inv(st) && Sleeping(st, t)
    ensures var m := TickWakes(st);
            if st.threads[t].wake <= (st.time + 1) % TIME_RANGE then t !in m.asleep && t in m.ready
            else t in m.asleep && t in m.threads && m.threads[t] == st.threads[t] && t != m.running
  {
    hide Core, WakeAll, Minus, AfterWake, TakeWhile, DropWhile;
    var st1 := Advance(st);
    ClockKeepsCore(st, (st.time + 1) % TIME_RANGE, st.cpu + 1, true);
    WakeAllMeaning(st1);
    NobodyDueIsLeft(st1);
    RunningFacts(st);
    var due := DueAt(st1.threads, st1.time);
    assert forall x :: x in st1.asleep <==> x in TakeWhile(st1.asleep, due) || x in DropWhile(st1.asleep, due);
  }

  lemma TimePasses(st: State, step: Step)
    requires Inv(st) && Allowed(st, step) && Defined(st, step)
    ensures Next(st, step).time == if step.DoTick? then (st.time + 1) % TIME_RANGE else st.time
  {
    hide Core, TickWakes, Signal, Close, Reschedule, CanSelect, TakeWhile, Park, Insert;
    StepIsMiddle(st, step);
    ParkClock(Effect(st, step));
    if Dispatches(st, step) { RescheduleMeaning(Middle(st, step)); }
    match step
    case DoSignal(s) => SignalKeepsCore(st, s);
    case DoClose(s) => CloseKeepsCore(st, s);
    case DoTick => TickWakesKeepsCore(st);
    case _ =>
  }

  /** A sleeper over any run that ends with a tick: it is asleep up to that tick and
      up after it exactly when that tick is the first to reach its alarm. */
  lemma {:induction false} SleeperIsUp(sts: seq<State>, steps: seq<Step>, t: ThreadId)
    requires Run(sts, steps) && Sleeping(sts[0], t) && steps != [] && steps[|steps| - 1] == DoTick
    ensures |sts| == |steps| + 1
    ensures (forall i :: 0 <= i < |steps| ==> Sleeping(sts[i], t)) && Awake(sts[|steps|], t)
            <==> FirstReach(sts[0].time, sts[0].threads[t].wake, Ticks(steps))
    decreases |steps|
  {
    hide Run, Leads, Core, Allowed, Defined, Next, FirstReach, Ticks;
    RunStart(sts, steps);
    RunTail(sts, steps);
    LeadsAllowed(sts[0], steps[0], sts[1]);
    StepAndSleeper(sts[0], steps[0], t);
    TimePasses(sts[0], steps[0]);
    TicksStep(steps);
    var time, wake := sts[0].time, sts[0].threads[t].wake;
    if |steps| == 1 {
      ReachAtOnce(time, wake);
    } else {
      LastTick(steps);
      if steps[0] == DoTick { ReachLater(time, wake, Ticks(steps)); }
      if Sleeping(sts[1], t) {
        SleeperIsUp(sts[1..], steps[1..], t);
        assert (forall i :: 0 <= i < |steps| ==> Sleeping(sts[i], t)) <==> forall i :: 0 <= i < |steps[1..]| ==> Sleeping(sts[1..][i], t) by {
          AllFromFirst(sts, steps, t);
        }
      }
    }
  }

  lemma AllFromFirst(sts: seq<State>, steps: seq<Step>, t: ThreadId)
    requires |sts| == |steps| + 1 && steps != [] && Sleeping(sts[0], t)
    ensures (forall i :: 0 <= i < |steps| ==> Sleeping(sts[i], t)) <==> forall i :: 0 <= i < |steps[1..]| ==> Sleeping(sts[1..][i], t)
  {
    hide Sleeping;
    if forall i :: 0 <= i < |steps[1..]| ==> Sleeping(sts[1..][i], t) {
      forall i | 0 <= i < |steps| ensures Sleeping(sts[i], t) { if i > 0 { assert sts[i] == sts[1..][i - 1]; } }
    }
  }

  lemma ReachAtOnce(time: nat, wake: nat)
    ensures FirstReach(time, wake, 1) <==> wake <= ClockAfter(time, 1)
  {
  }

  lemma TicksStep(steps: seq<Step>)
    requires steps != []
    ensures Ticks(steps) == Ticks(steps[1..]) + if steps[0].DoTick? then 1 else 0
    ensures |steps| == 1 ==> Ticks(steps[1..]) == 0
  {
  }

  /** A thread that asked for `d` ticks when the clock stood at `time` is asleep up to
      and up right after its release tick, and no other, however many other steps
      happen in between. */
  lemma WakesOnTheTick(sts: seq<State>, steps: seq<Step>, t: ThreadId, d: nat)
    requires Run(sts, steps) && Sleeping(sts[0], t) && d < TIME_RANGE && sts[0].threads[t].wake == ClockAfter(sts[0].time, d)
    requires steps != [] && steps[|steps| - 1] == DoTick
    ensures |sts| == |steps| + 1
    ensures (forall i :: 0 <= i < |steps| ==> Sleeping(sts[i], t)) && Awake(sts[|steps|], t)
            <==> Ticks(steps) == ReleaseTick(sts[0].time, d)
  {
    hide Run, Core, Sleeping, Awake, ClockAfter, FirstReach, ReleaseTick;
    RunStart(sts, steps);
    SleepingThread(sts[0], t);
    SleeperIsUp(sts, steps, t);
    ReachIsReleaseTick(sts[0].time, d, Ticks(steps));
  }

  /** The whole of a sleep, from the call: asleep after it, up to its release tick and
      no other. That is the `d`-th tick exactly when `d` is not clamped and its sum
      with the clock fits, or the clock stands at its last value. */
  lemma SleepLasts(sts: seq<State>, steps: seq<Step>, d: nat)
    requires Run(sts, steps) && |steps| > 1 && steps[0] == DoSleep(d) && steps[|steps| - 1] == DoTick
    ensures |sts| == |steps| + 1
    ensures var t := sts[0].running;
            (forall i :: 0 < i < |steps| ==> Sleeping(sts[i], t)) && Awake(sts[|steps|], t)
            <==> Ticks(steps) == ReleaseTick(sts[0].time, ClampedSleep(d))
    ensures var t := sts[0].running;
            1 <= d == Ticks(steps) ==>
              ((forall i :: 0 < i < |steps| ==> Sleeping(sts[i], t)) && Awake(sts[|steps|], t)
               <==> d <= SIGN_BIT && (sts[0].time + d < TIME_RANGE || sts[0].time == TIME_RANGE - 1))
  {
    hide Run, Leads, Core, Allowed, Defined, Next, Sleeping, Awake, ClockAfter, ReleaseTick, Ticks;
    RunStart(sts, steps);
    RunTail(sts, steps);
    LeadsAllowed(sts[0], steps[0], sts[1]);
    StepHandles(sts[0], steps[0]);
    SleepSetsAlarm(sts[0], d);
    TimePasses(sts[0], steps[0]);
    TicksStep(steps);
    var t := sts[0].running;
    WakesOnTheTick(sts[1..], steps[1..], t, ClampedSleep(d));
    assert forall i :: 0 <= i < |steps[1..]| ==> sts[1..][i] == sts[i + 1];
    assert forall i :: 0 < i < |steps| ==> sts[i] == sts[1..][i - 1];
    if d >= 1 { RequestedSleep(sts[0].time, d); }
  }

  lemma StepHandles(st: State, step: Step)
    requires Allowed(st, step)
    ensures step.DoSleep? || step.DoTimedWait? ==> step.d < TIME_RANGE
  {
  }

  /** Ready to run, or running. */
  predicate Up(st: State, t: ThreadId) { Live(st, t) && (t in st.ready || st.running == t) }

  /** From sleep to run: a thread that sleeps and is not killed is asleep until its
      release tick, is in the ready queue or running right after it, and with `k`
      threads then ahead of it runs within 2(k + 1) further ticks. */
  lemma SleepThenRun(sts: seq<State>, steps: seq<Step>, d: nat, m: nat) returns (j: nat)
    requires Run(sts, steps) && 1 < m <= |steps| && steps[0] == DoSleep(d) && steps[m - 1] == DoTick
    requires DoKill(sts[0].running) !in steps && Ticks(steps[..m]) == ReleaseTick(sts[0].time, ClampedSleep(d))
    ensures |sts| == |steps| + 1
    ensures forall i :: 0 < i < m ==> Sleeping(sts[i], sts[0].running)
    ensures Up(sts[m], sts[0].running)
    ensures var t, patience := sts[0].running, 2 * (IndexOf(sts[m].ready, sts[0].running) + 1);
            sts[m].running != t && Ticks(steps[m..]) >= patience ==>
              m < j <= |steps| && sts[j].running == t && Ticks(steps[m..j]) <= patience
  {
    hide Run, Core, Sleeping, Awake, ReleaseTick, Ticks, IndexOf, Live;
    RunParts(sts, steps, m);
    var t := sts[0].running;
    SleepLasts(sts[..m + 1], steps[..m], d);
    assert forall i :: 0 <= i <= m ==> sts[..m + 1][i] == sts[i];
    LiveSleeper(sts[..m + 1], steps[..m], d);
    UpFromAwake(sts[m], t);
    j := m;
    if sts[m].running != t && Ticks(steps[m..]) >= 2 * (IndexOf(sts[m].ready, t) + 1) {
      LiveRecord(sts[m], t);
      var i := ReadyThreadRuns(sts[m..], steps[m..], t);
      j := m + i;
      assert steps[m..][..i] == steps[m..j];
    }
  }

  lemma RunParts(sts: seq<State>, steps: seq<Step>, m: nat)
    requires Run(sts, steps) && m <= |steps|
    ensures |sts| == |steps| + 1 && Run(sts[..m + 1], steps[..m]) && Run(sts[m..], steps[m..])
  {
    hide Inv, Leads;
    InvAlong(sts, steps, m);
    forall i | 0 <= i < m ensures Leads(sts[..m + 1][i], steps[..m][i], sts[..m + 1][i + 1]) {
      assert Leads(sts[i], steps[i], sts[i + 1]);
    }
    forall i | 0 <= i < |steps| - m ensures Leads(sts[m..][i], steps[m..][i], sts[m..][i + 1]) {
      assert Leads(sts[m + i], steps[m + i], sts[m + i + 1]);
    }
  }

  lemma LiveRecord(st: State, t: ThreadId)
    ensures Live(st, t) ==> t in st.threads && st.threads[t].state != FINISHED
  {
  }

  lemma UpFromAwake(st: State, t: ThreadId)
    requires Live(st, t) && Awake(st, t)
    ensures Up(st, t)
  {
  }

  /** A sleeping thread cannot exit, so one that is not killed stays alive. */
  lemma LiveSleeper(sts: seq<State>, steps: seq<Step>, d: nat)
    requires Run(sts, steps) && steps != [] && steps[0] == DoSleep(d) && DoKill(sts[0].running) !in steps
    requires forall i :: 0 < i < |steps| ==> Sleeping(sts[i], sts[0].running)
    ensures |sts| == |steps| + 1 && Live(sts[|steps|], sts[0].running)
  {
    hide Run, Leads, Core, Allowed, Defined, Next, Live, ClockAfter;
    RunStart(sts, steps);
    var t := sts[0].running;
    RunTail(sts, steps);
    LeadsAllowed(sts[0], steps[0], sts[1]);
    StepHandles(sts[0], steps[0]);
    SleepSetsAlarm(sts[0], d);
    forall k | 0 <= k < |steps[1..]| && steps[1..][k] == DoExit ensures sts[1..][k].running != t {
      InvAlong(sts, steps, k + 1);
      SleeperNotRunning(sts[k + 1], t);
    }
    LiveUntilKilled(sts[1..], steps[1..], t, |steps[1..]|);
  }

  lemma SleeperNotRunning(st: State, t: ThreadId)
    requires Inv(st) && Sleeping(st, t)
    ensures st.running != t
  {
    RunningFacts(st);
  }

  lemma SleepingThread(st: State, t: ThreadId)
    ensures Sleeping(st, t) ==> t in st.threads
  {
  }

  lemma {:induction false} LastTick(steps: seq<Step>)
    requires |steps| >= 2 && steps[|steps| - 1] == DoTick
    ensures Ticks(steps[1..]) >= 1
  {
    if |steps| > 2 {
      assert steps[1..][|steps[1..]| - 1] == DoTick;
      LastTick(steps[1..]);
    }
  }

  // ------------------------------------------------------------------ deadlines

  /** A timed wait that blocks is queued and given the deadline `time + d`, exactly
      when that sum still fits the clock. */
  lemma TimedWaitSetsDeadline(st: State, s: SemId, d: nat)
    requires Inv(st) && Allowed(st, DoTimedWait(s, d)) && Defined(st, DoTimedWait(s, d)) && MustBlock(st, s)
    ensures var st', t := Next(st, DoTimedWait(s, d)), st.running;
            && WaitingTimed(st', t, s) && Live(st', t) && st'.running != t && st'.threads[t].wake == ClockAfter(st.time, d)
            && (st'.threads[t].wake == st.time + d <==> st.time + d < TIME_RANGE)
  {
    hide Core, TimedBlock, Park, Reschedule, CanSelect;
    RunningFacts(st);
    StepIsMiddle(st, DoTimedWait(s, d));
    DeadlineSet(st, s, d);
    WaiterThroughDispatch(Park(TimedBlock(st, s, d)), st.running, s);
  }

  lemma DeadlineSet(st: State, s: SemId, d: nat)
    requires Core(st, true) && MayBlock(st) && s in st.sems
    ensures st.running in st.threads && TimedBlock(st, s, d).running in TimedBlock(st, s, d).threads
    ensures var m, t := Park(TimedBlock(st, s, d)), st.running;
            && WaitingTimed(m, t, s) && m.threads[t].state == SUSPENDED && m.threads[t].wake == (d + st.time) % TIME_RANGE
  {
    hide Core, Insert;
    RunningFacts(st);
  }

  /** Queued on `s` with a deadline. */
  predicate WaitingTimed(st: State, t: ThreadId, s: SemId) {
    WaitingOn(st, t, s) && t in st.threads && st.threads[t].status == TIMEDWAITING
  }

  /** A tick ends a timed wait exactly when it reaches the deadline. */
  lemma TickAndDeadline(st: State, t: ThreadId, s: SemId)
    requires Inv(st) && Defined(st, DoTick) && WaitingTimed(st, t, s) && st.threads[t].state != FINISHED
    ensures WaitingOn(Next(st, DoTick), t, s) <==> (st.time + 1) % TIME_RANGE < st.threads[t].wake
  {
    hide Core, Defined, Next, Minus, TakeWhile;
    QueueFacts(st, s);
    DueSleepers(st);
    StepSem(st, DoTick, s);
  }

  /** Who is taken off the sleep list by a tick. */
  lemma DueSleepers(st: State)
    requires Inv(st)
    ensures var now := (st.time + 1) % TIME_RANGE;
            forall t :: t in TakeWhile(st.asleep, DueAt(st.threads, now)) <==> t in st.asleep && WakeOf(st.threads, t) <= now
  {
    hide Core, TakeWhile, DropWhile;
    ClockKeepsCore(st, (st.time + 1) % TIME_RANGE, st.cpu + 1, true);
    NobodyDueIsLeft(Advance(st));
  }

  /** A timed waiter over any run that ends with a tick and through which it stays
      queued: that tick ends the wait exactly when it is the first to reach the
      deadline. */
  lemma {:induction false} WaitsForTheTick(sts: seq<State>, steps: seq<Step>, t: ThreadId, s: SemId)
    requires Run(sts, steps) && WaitingTimed(sts[0], t, s) && sts[0].threads[t].state != FINISHED && DoKill(t) !in steps
    requires steps != [] && steps[|steps| - 1] == DoTick && forall i :: 0 <= i < |steps| ==> WaitingOn(sts[i], t, s)
    ensures |sts| == |steps| + 1
    ensures !WaitingOn(sts[|steps|], t, s) <==> FirstReach(sts[0].time, sts[0].threads[t].wake, Ticks(steps))
    decreases |steps|
  {
    hide Run, Leads, Core, Allowed, Defined, Next, WaitingOn, FirstReach, Ticks, Owed, Answered;
    RunStart(sts, steps);
    RunTail(sts, steps);
    LeadsAllowed(sts[0], steps[0], sts[1]);
    NoKillFirst(steps, t);
    StepReleases(sts[0], steps[0], t, s);
    TimePasses(sts[0], steps[0]);
    TicksStep(steps);
    var time, wake := sts[0].time, sts[0].threads[t].wake;
    if steps[0] == DoTick { TickAndDeadline(sts[0], t, s); }
    if |steps| == 1 {
      ReachAtOnce(time, wake);
    } else {
      LastTick(steps);
      if steps[0] == DoTick { ReachLater(time, wake, Ticks(steps)); }
      assert forall i :: 0 <= i < |steps[1..]| ==> sts[1..][i] == sts[i + 1];
      WaitsForTheTick(sts[1..], steps[1..], t, s);
    }
  }

  /** While it stays queued, the timer ends a wait of `d` ticks on its release tick
      and no other: on the `d`-th tick exactly when the sum with the clock fits or
      the clock stands at its last value, and otherwise on the first. */
  lemma TimerEndsWait(sts: seq<State>, steps: seq<Step>, t: ThreadId, s: SemId, d: nat)
    requires Run(sts, steps) && WaitingTimed(sts[0], t, s) && sts[0].threads[t].state != FINISHED && DoKill(t) !in steps
    requires d < TIME_RANGE && sts[0].threads[t].wake == ClockAfter(sts[0].time, d)
    requires steps != [] && steps[|steps| - 1] == DoTick && forall i :: 0 <= i < |steps| ==> WaitingOn(sts[i], t, s)
    ensures |sts| == |steps| + 1
    ensures !WaitingOn(sts[|steps|], t, s) <==> Ticks(steps) == ReleaseTick(sts[0].time, d)
    ensures 1 <= d == Ticks(steps) ==>
              (!WaitingOn(sts[|steps|], t, s) <==> sts[0].time + d < TIME_RANGE || sts[0].time == TIME_RANGE - 1)
    ensures TIME_RANGE <= sts[0].time + d && sts[0].time < TIME_RANGE - 1 ==> (!WaitingOn(sts[|steps|], t, s) <==> Ticks(steps) == 1)
  {
    hide Run, Core, WaitingOn, ClockAfter, FirstReach, ReleaseTick;
    RunStart(sts, steps);
    WaitsForTheTick(sts, steps, t, s);
    ReachIsReleaseTick(sts[0].time, d, Ticks(steps));
    if d >= 1 { RequestedTick(sts[0].time, d); }
  }

  /** A wait of `d` ticks over any run up to its release tick: a signal or the
      deletion of the semaphore ends it first, or that tick does, and it owes or has
      returned the answer of what ended it, -2 for the timer. */
  lemma TimesOutOnTheTick(sts: seq<State>, steps: seq<Step>, t: ThreadId, s: SemId, d: nat) returns (j: nat)
    requires Run(sts, steps) && WaitingTimed(sts[0], t, s) && sts[0].threads[t].state != FINISHED && DoKill(t) !in steps
    requires d < TIME_RANGE && sts[0].threads[t].wake == ClockAfter(sts[0].time, d)
    requires steps != [] && steps[|steps| - 1] == DoTick && Ticks(steps) == ReleaseTick(sts[0].time, d)
    ensures j < |steps| == |sts| - 1 && (forall i :: 0 <= i <= j ==> WaitingOn(sts[i], t, s)) && !WaitingOn(sts[j + 1], t, s)
    ensures steps[j] == DoSignal(s) || steps[j] == DoClose(s) || j == |steps| - 1
    ensures Owed(sts[j + 1], t, CauseCode(steps[j])) || Answered(sts[j + 1], t, CauseCode(steps[j]))
  {
    hide Run, Core, WaitingOn, ClockAfter, FirstReach, ReleaseTick, Owed, Answered, CauseCode;
    RunStart(sts, steps);
    ReachIsReleaseTick(sts[0].time, d, Ticks(steps));
    j := EndsByTheTick(sts, steps, t, s);
  }

  lemma {:induction false} EndsByTheTick(sts: seq<State>, steps: seq<Step>, t: ThreadId, s: SemId) returns (j: nat)
    requires Run(sts, steps) && WaitingTimed(sts[0], t, s) && sts[0].threads[t].state != FINISHED && DoKill(t) !in steps
    requires steps != [] && steps[|steps| - 1] == DoTick && FirstReach(sts[0].time, sts[0].threads[t].wake, Ticks(steps))
    ensures j < |steps| == |sts| - 1 && (forall i :: 0 <= i <= j ==> WaitingOn(sts[i], t, s)) && !WaitingOn(sts[j + 1], t, s)
    ensures steps[j] == DoSignal(s) || steps[j] == DoClose(s) || j == |steps| - 1
    ensures Owed(sts[j + 1], t, CauseCode(steps[j])) || Answered(sts[j + 1], t, CauseCode(steps[j]))
    decreases |steps|
  {
    hide Run, Leads, Core, Allowed, Defined, Next, WaitingOn, FirstReach, Ticks, Owed, Answered, CauseCode;
    RunStart(sts, steps);
    RunTail(sts, steps);
    LeadsAllowed(sts[0], steps[0], sts[1]);
    NoKillFirst(steps, t);
    StepReleases(sts[0], steps[0], t, s);
    TimePasses(sts[0], steps[0]);
    TicksStep(steps);
    var time, wake := sts[0].time, sts[0].threads[t].wake;
    if steps[0] == DoTick { TickAndDeadline(sts[0], t, s); }
    if |steps| == 1 {
      ReachAtOnce(time, wake);
      j := 0;
    } else {
      LastTick(steps);
      if steps[0] == DoTick { ReachLater(time, wake, Ticks(steps)); }
      if WaitingOn(sts[1], t, s) {
        var k := EndsByTheTick(sts[1..], steps[1..], t, s);
        j := k + 1;
        forall i | 0 <= i <= j ensures WaitingOn(sts[i], t, s) { if i > 0 { assert sts[i] == sts[1..][i - 1]; } }
        assert sts[j + 1] == sts[1..][k + 1] && steps[j] == steps[1..][k];
      } else {
        j := 0;
      }
    }
  }

  /** The whole of a timed wait that blocks, from the call: whatever ends it, it is
      over by its release tick, the timer never ends it before that tick, and the
      answer it owes or has returned is that of what ended it. */
  lemma TimedWaitLasts(sts: seq<State>, steps: seq<Step>, s: SemId, d: nat) returns (j: nat)
    requires Run(sts, steps) && |steps| > 1 && steps[0] == DoTimedWait(s, d) && steps[|steps| - 1] == DoTick
    requires s in sts[0].sems && MustBlock(sts[0], s) && DoKill(sts[0].running) !in steps
    requires Ticks(steps) == ReleaseTick(sts[0].time, d)
    ensures 0 < j < |steps| == |sts| - 1 && !WaitingOn(sts[j + 1], sts[0].running, s)
    ensures forall i :: 0 < i <= j ==> WaitingOn(sts[i], sts[0].running, s)
    ensures steps[j] == DoSignal(s) || steps[j] == DoClose(s) || j == |steps| - 1
    ensures var t := sts[0].running; Owed(sts[j + 1], t, CauseCode(steps[j])) || Answered(sts[j + 1], t, CauseCode(steps[j]))
  {
    hide Run, Leads, Core, Allowed, Defined, Next, WaitingOn, ClockAfter, ReleaseTick, Ticks, Owed, Answered, CauseCode;
    RunStart(sts, steps);
    var t := sts[0].running;
    RunTail(sts, steps);
    LeadsAllowed(sts[0], steps[0], sts[1]);
    StepHandles(sts[0], steps[0]);
    TimedWaitSetsDeadline(sts[0], s, d);
    TimePasses(sts[0], steps[0]);
    TicksStep(steps);
    NoKillFirst(steps, t);
    var k := TimesOutOnTheTick(sts[1..], steps[1..], t, s, d);
    j := k + 1;
    forall i | 0 < i <= j ensures WaitingOn(sts[i], t, s) { assert sts[i] == sts[1..][i - 1]; }
    assert sts[j + 1] == sts[1..][k + 1] && steps[j] == steps[1..][k];
  }

  lemma NoKillFirst(steps: seq<Step>, t: ThreadId)
    requires DoKill(t) !in steps && steps != []
    ensures steps[0] != DoKill(t) && DoKill(t) !in steps[1..]
  {
  }
}
