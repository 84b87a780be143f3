/** Theorems about whole runs of the kernel, whatever the order of its steps. */
module KernelRuns {
  import opened ListSpec
  import opened KernelState
  import opened KernelInvariant
  import opened KernelDispatch

  /** A run: `steps[i]` takes `sts[i]` to `sts[i + 1]`. */
  ghost predicate Run(sts: seq<State>, steps: seq<Step>) {
    && |sts| == |steps| + 1 && Inv(sts[0])
    && forall i :: 0 <= i < |steps| ==> Leads(sts[i], steps[i], sts[i + 1])
  }

  ghost predicate Leads(st: State, step: Step, st': State) {
    Allowed(st, step) && Defined(st, step) && st' == Next(st, step)
  }

  lemma {:induction false} InvAlong(sts: seq<State>, steps: seq<Step>, i: nat)
    requires Run(sts, steps) && i <= |steps|
    ensures Inv(sts[i])
  {
    hide Inv, Allowed, Defined, Next;
    if i > 0 {
      InvAlong(sts, steps, i - 1);
      assert Leads(sts[i - 1], steps[i - 1], sts[i]);
      StepKeepsInv(sts[i - 1], steps[i - 1]);
    }
  }

  /** No run from the initial state ever gets stuck: each allowed step is defined. */
  lemma RunsNeverStick(sts: seq<State>, steps: seq<Step>, step: Step)
    requires Run(sts, steps) && Allowed(sts[|steps|], step)
    ensures Defined(sts[|steps|], step) && Run(sts + [Next(sts[|steps|], step)], steps + [step])
  {
    hide Inv, Allowed, Defined, Next;
    InvAlong(sts, steps, |steps|);
    StepKeepsInv(sts[|steps|], step);
    var sts', steps' := sts + [Next(sts[|steps|], step)], steps + [step];
    forall i | 0 <= i < |steps'| ensures Leads(sts'[i], steps'[i], sts'[i + 1]) {
      if i < |steps| { assert Leads(sts[i], steps[i], sts[i + 1]); }
    }
  }

  // ------------------------------------------------------- what one step does

  /** A dispatch from a parked state: the finished prefix of the ready queue goes,
      the thread behind it runs on, nobody else changes. */
  lemma RescheduleMeaning(st: State)
    requires Core(st, false)
    ensures CanSelect(st)
    ensures var n, r := |TakeWhile(st.ready, IsFinished(st.threads))|, Reschedule(st);
            && n < |st.ready| && r.running == st.ready[n] && r.ready == st.ready[n + 1..]
            && (forall i :: 0 <= i < n ==> st.ready[i] in st.threads && st.threads[st.ready[i]].state == FINISHED)
            && r.running in st.threads && st.threads[r.running].state != FINISHED
            && r.running in r.threads && r.threads[r.running] == Resumed(st.threads[r.running])
            && (forall t :: t in r.threads <==> t in st.threads && t !in st.ready[..n])
            && (forall t :: t in r.threads && t != r.running ==> r.threads[t] == st.threads[t])
            && r == st.(running := r.running, ready := r.ready, threads := r.threads)
  {
    hide Core, Resumed, TakeWhile, DropWhile, DropDead;
    DropDeadMeaning(st);
    var gone := TakeWhile(st.ready, IsFinished(st.threads));
    var mid := DropDead(st, st.ready);
    assert gone == st.ready[..|gone|] && mid.ready == st.ready[|gone|..];
    assert forall i :: 0 <= i < |gone| ==> gone[i] == st.ready[i] && gone[i] in gone;
    ReadyLive(st);
  }

  lemma ReadyLive(st: State)
    requires Core(st, false)
    ensures forall i :: 0 <= i < |st.ready| ==> st.ready[i] in st.threads
  {
  }

  /** The state a step leaves when no thread is selected yet: after parking for a
      dispatching step, the outcome otherwise. */
  function Middle(st: State, step: Step): State
    requires EffectDefined(st, step) && Effect(st, step).running in Effect(st, step).threads
  {
    if Dispatches(st, step) then Park(Effect(st, step)) else Effect(st, step)
  }

  lemma StepIsMiddle(st: State, step: Step)
    requires Inv(st) && Allowed(st, step)
    ensures Defined(st, step) && Effect(st, step).running == st.running && st.running in Effect(st, step).threads
    ensures Dispatches(st, step) ==>
              && Core(Middle(st, step), false) && Middle(st, step).cpu == 0
              && CanSelect(Middle(st, step)) && Next(st, step) == Reschedule(Middle(st, step))
    ensures !Dispatches(st, step) ==> Next(st, step) == Middle(st, step) && Core(Middle(st, step), true)
  {
    hide Core, Effect, Reschedule, CanSelect, Park, Allowed;
    EffectIsDefined(st, step);
    StepHandle(st, step);
    StepKeepsInv(st, step);
    if Dispatches(st, step) { ParkedKeepsCore(st, step); } else { EffectStays(st, step); EffectKeepsInv(st, step); }
  }

  lemma EffectStays(st: State, step: Step)
    requires Inv(st) && Allowed(st, step) && !Dispatches(st, step) && EffectDefined(st, step)
    ensures Effect(st, step).running == st.running && st.running in Effect(st, step).threads
  {
    hide Core, TickWakes, UnblockAll, MustBlock;
    RunningLive(st);
    match step
    case DoSignal(s) => SignalKeepsCore(st, s); RunningLive(Signal(st, s)); SignalRunning(st, s);
    case DoClose(s) => CloseKeepsCore(st, s); UnblockAllDrains(st, s); RunningLive(Close(st, s));
    case DoTick => TickWakesKeepsCore(st); RunningLive(TickWakes(st));
    case _ =>
  }

  lemma SignalRunning(st: State, s: SemId)
    requires EffectDefined(st, DoSignal(s))
    ensures Signal(st, s).running == st.running
  {
  }

  // --------------------------------------------------- the ready queue is fair

  /** Threads only join the ready queue at its back, and those in it stay as they
      are unless killed. */
  lemma MiddleReady(st: State, step: Step, t: ThreadId)
    requires Inv(st) && Allowed(st, step) && t in st.ready && step != DoKill(t)
    ensures EffectDefined(st, step) && Effect(st, step).running in Effect(st, step).threads
    ensures var m := Middle(st, step);
            && st.ready <= m.ready && t in m.threads && t in st.threads && m.threads[t] == st.threads[t]
            && (!Dispatches(st, step) ==> m.running == st.running && m.cpu == st.cpu + if step.DoTick? then 1 else 0)
  {
    hide Core, TickWakes, Signal, Close, Insert, WithStatus, Park;
    StepIsMiddle(st, step);
    ReadyElsewhere(st, t);
    ParkOthers(Effect(st, step), t);
    match step
    case DoCreate(body) => NextIsFresh(st);
    case DoSignal(s) => SignalSem(st, s, s); QueueFacts(st, s);
    case DoClose(s) => CloseSem(st, s, s); QueueFacts(st, s);
    case DoTick => TickReady(st, t);
    case _ =>
  }

  lemma ReadyElsewhere(st: State, t: ThreadId)
    requires Core(st, true) && t in st.ready
    ensures t in st.threads && t != st.running && t !in st.asleep
  {
    assert ThreadOk(st, t, true);
  }

  lemma TickReady(st: State, t: ThreadId)
    requires Inv(st) && t in st.ready
    ensures var m := TickWakes(st);
            && st.ready <= m.ready && t in m.threads && t in st.threads && m.threads[t] == st.threads[t] && t != m.running
            && m.cpu == st.cpu + 1 && m.running == st.running
  {
    hide Core, WakeAll, Minus, AfterWake;
    var st1 := Advance(st);
    ClockKeepsCore(st, (st.time + 1) % TIME_RANGE, st.cpu + 1, true);
    WakeAllMeaning(st1);
    ReadyElsewhere(st, t);
    assert forall x :: x in TakeWhile(st1.asleep, DueAt(st1.threads, st1.time)) ==> x in st1.asleep;
  }

  lemma {:induction false} IndexInPrefix<T>(s: seq<T>, r: seq<T>, x: T)
    requires s <= r && x in s
    ensures x in r && IndexOf(r, x) == IndexOf(s, x)
  {
    if s[0] != x { assert s[1..] <= r[1..]; IndexInPrefix(s[1..], r[1..], x); }
  }

  lemma {:induction false} IndexAfterDrop<T>(s: seq<T>, k: nat, x: T)
    requires x in s && k <= IndexOf(s, x)
    ensures x in s[k..] && IndexOf(s[k..], x) == IndexOf(s, x) - k
  {
    if k > 0 {
      assert s[0] != x && s[k..] == s[1..][k - 1..];
      IndexAfterDrop(s[1..], k - 1, x);
    }
  }

  /** How many ticks `t` may still wait in the ready queue. */
  function Patience(st: State, t: ThreadId): int { 2 * (IndexOf(st.ready, t) + 1) - st.cpu }

  /** A dispatch selects a live thread of the ready queue or moves it up. */
  lemma DispatchBringsCloser(m: State, t: ThreadId)
    requires Core(m, false) && CanSelect(m) && t in m.ready && t in m.threads && m.threads[t].state != FINISHED
    ensures var r := Reschedule(m);
            && t in r.threads && r.cpu == m.cpu
            && if r.running == t then r.threads[t] == Resumed(m.threads[t])
               else t in r.ready && r.threads[t] == m.threads[t] && IndexOf(r.ready, t) < IndexOf(m.ready, t)
  {
    hide Core, Reschedule, CanSelect, Resumed, IndexOf, TakeWhile;
    RescheduleMeaning(m);
    var n, k := |TakeWhile(m.ready, IsFinished(m.threads))|, IndexOf(m.ready, t);
    assert m.ready[k] == t;
    if k > n {
      IndexAfterDrop(m.ready, n + 1, t);
      NotEarlier(m.ready, t, n);
    }
  }

  /** Every step selects `t` or leaves it in the ready queue, untouched and with no
      less reason to be next; every tick brings it closer. */
  lemma StepBringsCloser(st: State, step: Step, t: ThreadId)
    requires Inv(st) && Allowed(st, step) && Defined(st, step) && t in st.ready && step != DoKill(t)
    requires t in st.threads && st.threads[t].state != FINISHED
    ensures var st' := Next(st, step);
            || (st'.running == t && t in st'.threads && st'.threads[t] == Resumed(st.threads[t]))
            || (&& t in st'.ready && st'.running != t && t in st'.threads && st'.threads[t] == st.threads[t]
                && Patience(st', t) <= Patience(st, t) - if step.DoTick? then 1 else 0)
  {
    hide Core, Middle, Effect, Allowed, Reschedule, CanSelect, Resumed, IndexOf, TakeWhile;
    StepIsMiddle(st, step);
    var m := Middle(st, step);
    MiddleReady(st, step, t);
    IndexInPrefix(st.ready, m.ready, t);
    if Dispatches(st, step) { DispatchBringsCloser(m, t); } else { ReadyElsewhere(st, t); }
  }

  lemma NotEarlier<T>(s: seq<T>, x: T, n: nat)
    requires x in s && n < IndexOf(s, x)
    ensures x !in s[..n] && s[n] != x
  {
  }

  function Ticks(steps: seq<Step>): nat {
    if steps == [] then 0 else (if steps[0].DoTick? then 1 else 0) + Ticks(steps[1..])
  }

  lemma RunTail(sts: seq<State>, steps: seq<Step>)
    requires Run(sts, steps) && steps != []
    ensures Leads(sts[0], steps[0], sts[1]) && Run(sts[1..], steps[1..])
  {
    hide Inv, Allowed, Defined, Next;
    assert Leads(sts[0], steps[0], sts[1]);
    StepKeepsInv(sts[0], steps[0]);
    forall i | 0 <= i < |steps| - 1 ensures Leads(sts[1..][i], steps[1..][i], sts[1..][i + 1]) {
      assert Leads(sts[i + 1], steps[i + 1], sts[i + 2]);
    }
  }

  /** Bounded latency: a live thread with `k` threads ahead of it in the ready queue
      runs within 2(k + 1) ticks, whatever else happens, unless it is killed. */
  lemma {:induction false} ReadyThreadRuns(sts: seq<State>, steps: seq<Step>, t: ThreadId) returns (j: nat)
    requires Run(sts, steps) && t in sts[0].ready && t in sts[0].threads && sts[0].threads[t].state != FINISHED
    requires DoKill(t) !in steps && Ticks(steps) >= 2 * (IndexOf(sts[0].ready, t) + 1)
    ensures 0 < j <= |steps| && sts[j].running == t && Ticks(steps[..j]) <= 2 * (IndexOf(sts[0].ready, t) + 1)
  {
    j := RunsWithinPatience(sts, steps, t);
  }

  lemma {:induction false} RunsWithinPatience(sts: seq<State>, steps: seq<Step>, t: ThreadId) returns (j: nat)
    requires Run(sts, steps) && t in sts[0].ready && t in sts[0].threads && sts[0].threads[t].state != FINISHED
    requires DoKill(t) !in steps && Ticks(steps) >= Patience(sts[0], t)
    ensures 0 < j <= |steps| && sts[j].running == t && Ticks(steps[..j]) <= Patience(sts[0], t)
    decreases |steps|
  {
    hide Run, Leads, Core, Allowed, Defined, Next, IndexOf;
    PatienceIsPositive(sts, steps, t);
    RunTail(sts, steps);
    LeadsAllowed(sts[0], steps[0], sts[1]);
    StepBringsCloser(sts[0], steps[0], t);
    if sts[1].running == t {
      j := 1;
      assert steps[..1] == [steps[0]];
    } else {
      var i := RunsWithinPatience(sts[1..], steps[1..], t);
      j := i + 1;
      assert steps[..j][0] == steps[0] && steps[..j][1..] == steps[1..][..i];
    }
  }

  lemma PatienceIsPositive(sts: seq<State>, steps: seq<Step>, t: ThreadId)
    requires Run(sts, steps)
    ensures |sts| == |steps| + 1 && Inv(sts[0]) && Patience(sts[0], t) > 0
  {
  }

  lemma LeadsAllowed(st: State, step: Step, st': State)
    requires Leads(st, step, st')
    ensures Allowed(st, step) && Defined(st, step) && st' == Next(st, step)
  {
  }

  // --------------------------------------------- releases and their answers

  predicate WaitingOn(st: State, t: ThreadId, s: SemId) { s in st.sems && t in st.sems[s].queue }

  /** The effect of a step, besides its dispatch, on the semaphore `s`. */
  ghost predicate SemAfter(st: State, step: Step, s: SemId, m: State)
    requires s in st.sems
  {
    var q := st.sems[s];
    && s in m.sems
    && (TheSem(step) != Some(s) && !step.DoTick? ==> m.sems[s] == q)
    && (step == DoSignal(s) && q.val < 0 ==> q.queue != [] && m.sems[s] == Sem(q.val + 1, q.queue[1..]))
    && (step == DoSignal(s) && q.val >= 0 ==> m.sems[s] == Sem(q.val + 1, q.queue))
    && ((step == DoWait(s) || (step.DoTimedWait? && step.s == s)) ==>
          m.sems[s] == Sem(q.val - 1, if q.val - 1 < 0 then q.queue + [st.running] else q.queue))
    && (step.DoTick? ==> m.sems[s].queue == Minus(q.queue, TakeWhile(st.asleep, DueAt(st.threads, (st.time + 1) % TIME_RANGE)))
                         && m.sems[s].val == q.val + |q.queue| - |m.sems[s].queue|)
  }

  lemma ReleasesSem(st: State, step: Step, s: SemId)
    requires Inv(st) && EffectDefined(st, step) && s in st.sems && step != DoClose(s)
    requires step.DoSignal? || step.DoClose? || step.DoTick?
    ensures SemAfter(st, step, s, Effect(st, step))
  {
    hide Core, TickWakes, Signal, Close, Minus, TakeWhile, DropWhile;
    match step
    case DoSignal(r) => SignalSem(st, r, s);
    case DoClose(r) => CloseSem(st, r, s);
    case DoTick => TickSem(st, s);
    case _ =>
  }

  lemma OtherStepsSem(st: State, step: Step, s: SemId)
    requires Inv(st) && EffectDefined(st, step) && s in st.sems
    requires !step.DoSignal? && !step.DoClose? && !step.DoTick?
    ensures SemAfter(st, step, s, Effect(st, step))
  {
    hide Core, Insert, TakeWhile, WithStatus;
    NextIsFresh(st);
  }

  /** What a step leaves of the semaphore `s`. */
  lemma MiddleSem(st: State, step: Step, s: SemId)
    requires Inv(st) && Allowed(st, step) && s in st.sems && step != DoClose(s)
    ensures EffectDefined(st, step) && Effect(st, step).running in Effect(st, step).threads
    ensures SemAfter(st, step, s, Middle(st, step))
  {
    hide Core, Effect, EffectDefined, Allowed, Park, Minus, TakeWhile;
    StepIsMiddle(st, step);
    if step.DoSignal? || step.DoClose? || step.DoTick? { ReleasesSem(st, step, s); } else { OtherStepsSem(st, step, s); }
    ParkClock(Effect(st, step));
  }

  /** What a whole step leaves of the semaphore `s`: a dispatch changes no semaphore. */
  lemma StepSem(st: State, step: Step, s: SemId)
    requires Inv(st) && Allowed(st, step) && s in st.sems && step != DoClose(s)
    ensures Defined(st, step) && SemAfter(st, step, s, Next(st, step))
  {
    hide Core, Effect, Allowed, Middle, Reschedule, CanSelect, Minus, TakeWhile;
    StepIsMiddle(st, step);
    MiddleSem(st, step, s);
    if Dispatches(st, step) { RescheduleMeaning(Middle(st, step)); }
  }

  lemma SignalSem(st: State, r: SemId, s: SemId)
    requires Core(st, true) && r in st.sems && s in st.sems
    ensures EffectDefined(st, DoSignal(r))
    ensures var q, m := st.sems[s], Signal(st, r);
            s in m.sems && m.sems[s] == if r == s then Sem(q.val + 1, if q.val < 0 then q.queue[1..] else q.queue) else q
    ensures var q, m := st.sems[r].queue, Signal(st, r);
            && m.running == st.running && m.cpu == st.cpu && st.ready <= m.ready && m.threads.Keys == st.threads.Keys
            && if st.sems[r].val >= 0 then m.threads == st.threads
               else && q != [] && q[0] in st.threads && q[0] in m.ready && q[0] !in q[1..]
                    && m.threads == st.threads[q[0] := WithStatus(st.threads[q[0]].(sem := None), REGULARLY_WAITED, false)]
  {
    hide Core, WithStatus, Remove;
    RunningLive(st);
    QueueFacts(st, r);
    if st.sems[r].val < 0 {
      UnblockReleases(st, r, REGULARLY_WAITED);
      RemoveHead(st.sems[r].queue);
      NotTwice(st.sems[r].queue);
    }
  }

  lemma CloseSem(st: State, r: SemId, s: SemId)
    requires Core(st, true) && r in st.sems && s in st.sems
    requires EffectDefined(st, DoClose(r))
    ensures var m := Close(st, r);
            && (s != r ==> s in m.sems && m.sems[s] == st.sems[s]) && r !in m.sems
            && m.running == st.running && m.cpu == st.cpu && st.ready <= m.ready && m.threads.Keys == st.threads.Keys
            && (forall t :: t in st.sems[r].queue ==> t in m.ready)
            && forall t :: t in st.threads ==> m.threads[t] == AfterDeletion(st.threads[t], t in st.sems[r].queue)
  {
    hide Core, WithStatus, AfterDeletion, Minus;
    UnblockAllDrains(st, r);
  }

  lemma TickSem(st: State, s: SemId)
    requires Inv(st) && s in st.sems
    ensures var m, woken := TickWakes(st), TakeWhile(st.asleep, DueAt(st.threads, (st.time + 1) % TIME_RANGE));
            && s in m.sems && m.sems[s].queue == Minus(st.sems[s].queue, woken)
            && m.sems[s].val == st.sems[s].val + |st.sems[s].queue| - |m.sems[s].queue|
            && m.running == st.running && m.asleep == DropWhile(st.asleep, DueAt(st.threads, (st.time + 1) % TIME_RANGE))
            && m.threads.Keys == st.threads.Keys && m.ready == st.ready + woken
            && forall t :: t in st.threads ==> m.threads[t] == if t in woken then AfterWake(st.threads[t]) else st.threads[t]
    ensures forall t :: t in TakeWhile(st.asleep, DueAt(st.threads, (st.time + 1) % TIME_RANGE)) ==> t in st.asleep
  {
    hide Core, WakeAll, Minus, AfterWake, TakeWhile, DropWhile;
    ClockKeepsCore(st, (st.time + 1) % TIME_RANGE, st.cpu + 1, true);
    WakeAllMeaning(Advance(st));
  }

  /** What became of the record of a thread queued on `s`. */
  lemma MiddleWaiter(st: State, step: Step, t: ThreadId, s: SemId)
    requires Inv(st) && Allowed(st, step) && WaitingOn(st, t, s) && step != DoKill(t)
    ensures EffectDefined(st, step) && Effect(st, step).running in Effect(st, step).threads
    ensures var m, th := Middle(st, step), st.threads[t];
            && t in st.threads && t in m.threads && t != st.running
            && if WaitingOn(m, t, s) then m.threads[t] == th
               else
                 && t in m.ready
                 && ((step == DoSignal(s) && m.threads[t] == WithStatus(th.(sem := None), REGULARLY_WAITED, false))
                     || (step == DoClose(s) && m.threads[t] == WithStatus(th.(sem := None), SEM_DELETED, false))
                     || (step == DoTick && th.status == TIMEDWAITING && m.threads[t] == WithStatus(th.(sem := None), TIMEOUT, false)))
  {
    hide Core, TickWakes, Signal, Close, Insert, Minus, WithStatus, TakeWhile, DropWhile, Park;
    StepIsMiddle(st, step);
    QueueFacts(st, s);
    ParkOthers(Effect(st, step), t);
    match step
    case DoCreate(_) => NextIsFresh(st);
    case DoOpen(n) => NextIsFresh(st);
    case DoSignal(r) => SignalSem(st, r, s); QueueFacts(st, r);
    case DoClose(r) => CloseSem(st, r, s); QueueFacts(st, r);
    case DoTick => TickSem(st, s);
    case _ =>
  }

  lemma ParkOthers(st: State, t: ThreadId)
    requires st.running in st.threads
    ensures var m := Park(st);
            && m.sems == st.sems && m.asleep == st.asleep && st.ready <= m.ready && (t in st.ready ==> t in m.ready)
            && (t != st.running && t in st.threads ==> t in m.threads && m.threads[t] == st.threads[t])
  {
  }

  /** What a release step owes the thread it releases. */
  function CauseCode(step: Step): int {
    if step.DoSignal? then 0 else if step.DoClose? then -1 else -2
  }

  /** Released, ready, and about to return `code` from its wait. */
  predicate Owed(st: State, t: ThreadId, code: int) {
    && t in st.ready && t in st.threads && st.threads[t].state != FINISHED
    && (st.threads[t].resume == InBlock || st.threads[t].resume == InTimedBlock) && ResponseTo(st.threads[t].status) == code
  }

  predicate Answered(st: State, t: ThreadId, code: int) {
    st.running == t && t in st.threads && st.threads[t].answer == code
  }

  /** A queued thread stays queued, unchanged, or the step releases it and owes it
      the answer that goes with the kind of step; only a timed waiter times out. */
  lemma StepReleases(st: State, step: Step, t: ThreadId, s: SemId)
    requires Inv(st) && Allowed(st, step) && Defined(st, step) && WaitingOn(st, t, s) && step != DoKill(t)
    requires t in st.threads && st.threads[t].state != FINISHED
    ensures var st' := Next(st, step);
            if WaitingOn(st', t, s) then t in st'.threads && st'.threads[t] == st.threads[t] && st'.running != t
            else
              && (step == DoSignal(s) || step == DoClose(s) || (step == DoTick && st.threads[t].status == TIMEDWAITING))
              && (Owed(st', t, CauseCode(step)) || Answered(st', t, CauseCode(step)))
              && forall r :: !WaitingOn(st', t, r)
  {
    hide Core, Middle, Effect, Allowed, Reschedule, CanSelect, Next, TheSem, Dispatches, Defined;
    StepIsMiddle(st, step);
    StepKeepsInv(st, step);
    MiddleWaiter(st, step, t, s);
    WaiterRecord(st, t, s);
    var m, st' := Middle(st, step), Next(st, step);
    if Dispatches(st, step) { WaiterThroughDispatch(m, t, s); }
    forall r ensures (t == st'.running || t in st'.ready) ==> !WaitingOn(st', t, r) { NotQueued(st', t, r); }
  }

  /** A dispatch leaves a queued thread where it is and either selects a ready one
      or leaves it in the ready queue. */
  lemma WaiterThroughDispatch(m: State, t: ThreadId, s: SemId)
    requires Core(m, false) && t in m.threads && m.threads[t].state != FINISHED && CanSelect(m)
    ensures var r := Reschedule(m);
            && r.sems == m.sems && t in r.threads
            && (WaitingOn(m, t, s) ==> r.running != t && r.threads[t] == m.threads[t])
            && (t in m.ready ==>
                  || (r.running == t && r.threads[t] == Resumed(m.threads[t]))
                  || (t in r.ready && r.threads[t] == m.threads[t]))
  {
    hide Core, Reschedule, CanSelect, Resumed, TakeWhile;
    RescheduleMeaning(m);
    var n := |TakeWhile(m.ready, IsFinished(m.threads))|;
    assert t !in m.ready[..n];
    assert m.ready == m.ready[..n] + [m.ready[n]] + m.ready[n + 1..];
    if WaitingOn(m, t, s) { WaiterNotReady(m, t, s); }
  }

  lemma WaiterRecord(st: State, t: ThreadId, s: SemId)
    requires Core(st, true) && WaitingOn(st, t, s)
    ensures t in st.threads
    ensures (st.threads[t].status == WAITING && st.threads[t].resume == InBlock)
            || (st.threads[t].status == TIMEDWAITING && st.threads[t].resume == InTimedBlock)
  {
    assert SemOk(st, s);
    assert ThreadOk(st, t, true);
  }

  lemma WaiterNotReady(st: State, t: ThreadId, s: SemId)
    requires Core(st, false) && WaitingOn(st, t, s)
    ensures t !in st.ready
  {
    assert SemOk(st, s);
    assert ThreadOk(st, t, false);
  }

  /** A thread that runs or waits in the ready queue is queued on no semaphore. */
  lemma NotQueued(st: State, t: ThreadId, r: SemId)
    requires Inv(st)
    ensures t == st.running || t in st.ready ==> !WaitingOn(st, t, r)
  {
    if r in st.sems { QueueFacts(st, r); }
  }

  /** The answer a released thread is owed stays owed until it runs. */
  lemma OwedUntilAnswered(st: State, step: Step, t: ThreadId, code: int)
    requires Inv(st) && Allowed(st, step) && Defined(st, step) && Owed(st, t, code) && step != DoKill(t)
    ensures var st' := Next(st, step);
            (Owed(st', t, code) && st'.running != t) || Answered(st', t, code)
    ensures var st' := Next(st, step); forall r :: !WaitingOn(st', t, r)
  {
    hide Core, Allowed, Defined, Next, ResponseTo;
    StepBringsCloser(st, step, t);
    StepKeepsInv(st, step);
    forall r ensures var st' := Next(st, step); !WaitingOn(st', t, r) { NotQueued(Next(st, step), t, r); }
  }

  /** One release per blocked wait, with the right answer. Take a thread queued on
      `s` and any run up to the moment it runs again, in which it is not killed.
      There is exactly one step that releases it; before it the thread is queued on
      `s`, after it on nothing; and the wait returns what that step owes: 0 for a
      signal, -1 for the deletion of the semaphore, -2 for the timer - which
      releases only a wait with a timeout. */
  lemma {:induction false} AnswerMatchesCause(sts: seq<State>, steps: seq<Step>, t: ThreadId, s: SemId) returns (j: nat)
    requires Run(sts, steps) && WaitingOn(sts[0], t, s) && t in sts[0].threads && sts[0].threads[t].state != FINISHED
    requires DoKill(t) !in steps && sts[|steps|].running == t
    requires forall i :: 0 < i < |steps| ==> sts[i].running != t
    ensures j < |steps| && forall i :: 0 <= i <= |steps| ==> (WaitingOn(sts[i], t, s) <==> i <= j)
    ensures forall i, r :: j < i <= |steps| ==> !WaitingOn(sts[i], t, r)
    ensures steps[j] == DoSignal(s) || steps[j] == DoClose(s) || (steps[j] == DoTick && sts[0].threads[t].status == TIMEDWAITING)
    ensures Answered(sts[|steps|], t, CauseCode(steps[j]))
    decreases |steps|
  {
    hide Run, Leads, Core, Allowed, Defined, Next, Owed, Answered, WaitingOn, CauseCode;
    RunStart(sts, steps);
    WaiterNotRunning(sts[0], t, s);
    RunTail(sts, steps);
    LeadsAllowed(sts[0], steps[0], sts[1]);
    StepReleases(sts[0], steps[0], t, s);
    if WaitingOn(sts[1], t, s) {
      var k := AnswerMatchesCause(sts[1..], steps[1..], t, s);
      j := k + 1;
      forall i | 0 <= i <= |steps| ensures WaitingOn(sts[i], t, s) <==> i <= j {
        if i > 0 { assert sts[i] == sts[1..][i - 1]; }
      }
      forall i, r | j < i <= |steps| ensures !WaitingOn(sts[i], t, r) { assert sts[i] == sts[1..][i - 1]; }
    } else {
      j := 0;
      StaysOwed(sts[1..], steps[1..], t, CauseCode(steps[0]));
      forall i, r | 0 < i <= |steps| ensures !WaitingOn(sts[i], t, r) { assert sts[i] == sts[1..][i - 1]; }
    }
  }

  lemma {:induction false} StaysOwed(sts: seq<State>, steps: seq<Step>, t: ThreadId, code: int)
    requires Run(sts, steps) && (Owed(sts[0], t, code) || Answered(sts[0], t, code))
    requires forall r :: !WaitingOn(sts[0], t, r)
    requires DoKill(t) !in steps && sts[|steps|].running == t
    requires forall i :: 0 <= i < |steps| ==> sts[i].running != t
    ensures Answered(sts[|steps|], t, code)
    ensures forall i, r :: 0 <= i <= |steps| ==> !WaitingOn(sts[i], t, r)
    decreases |steps|
  {
    hide Run, Leads, Core, Allowed, Defined, Next, WaitingOn, ResponseTo;
    RunStart(sts, steps);
    if steps == [] {
      ReadyNotRunning(sts[0], t);
    } else {
      RunTail(sts, steps);
      LeadsAllowed(sts[0], steps[0], sts[1]);
      OwedUntilAnswered(sts[0], steps[0], t, code);
      StaysOwed(sts[1..], steps[1..], t, code);
      forall i, r | 0 <= i <= |steps| ensures !WaitingOn(sts[i], t, r) {
        if i > 0 { assert sts[i] == sts[1..][i - 1]; }
      }
    }
  }

  lemma RunStart(sts: seq<State>, steps: seq<Step>)
    requires Run(sts, steps)
    ensures |sts| == |steps| + 1 && Inv(sts[0])
  {
  }

  lemma WaiterNotRunning(st: State, t: ThreadId, s: SemId)
    requires Inv(st) && WaitingOn(st, t, s)
    ensures st.running != t
  {
    QueueFacts(st, s);
  }

  lemma ReadyNotRunning(st: State, t: ThreadId)
    requires Inv(st)
    ensures t in st.ready ==> st.running != t
  {
    RunningFacts(st);
  }

  // ----------------------------------------------------- first come, first served

  /** A step never moves a waiter back; a signal moves it up or releases it. */
  lemma StepMovesUp(st: State, step: Step, t: ThreadId, s: SemId)
    requires Inv(st) && Allowed(st, step) && Defined(st, step) && WaitingOn(st, t, s) && WaitingOn(Next(st, step), t, s)
    ensures IndexOf(Next(st, step).sems[s].queue, t) <= IndexOf(st.sems[s].queue, t) - if step == DoSignal(s) then 1 else 0
  {
    hide Core, Allowed, Defined, Next, Minus, TakeWhile, IndexOf;
    var q := st.sems[s].queue;
    if step != DoClose(s) {
      StepSem(st, step, s);
      QueueFacts(st, s);
      if step == DoSignal(s) {
        if q[0] == t { NotTwice(q); } else { IndexAfterDrop(q, 1, t); }
      } else if step.DoTick? {
        MinusMovesUp(q, TakeWhile(st.asleep, DueAt(st.threads, (st.time + 1) % TIME_RANGE)), t);
      } else {
        IndexInPrefix(q, Next(st, step).sems[s].queue, t);
      }
    } else {
      ClosedIsGone(st, s);
    }
  }

  lemma {:induction false} MinusMovesUp<T(!new)>(s: seq<T>, q: seq<T>, x: T)
    requires x in Minus(s, q)
    ensures x in s && IndexOf(Minus(s, q), x) <= IndexOf(s, x)
  {
    if s[0] in q {
      MinusMovesUp(s[1..], q, x);
    } else if s[0] != x {
      assert Minus(s, q)[0] == s[0] && Minus(s, q)[1..] == Minus(s[1..], q);
      MinusMovesUp(s[1..], q, x);
    }
  }

  lemma ClosedIsGone(st: State, s: SemId)
    requires Inv(st) && s in st.sems && Defined(st, DoClose(s))
    ensures s !in Next(st, DoClose(s)).sems
  {
  }

  function Signals(steps: seq<Step>, s: SemId): nat {
    if steps == [] then 0 else (if steps[0] == DoSignal(s) then 1 else 0) + Signals(steps[1..], s)
  }

  /** Bounded waiting: a waiter with `k` others ahead of it is released by the
      (k + 1)-st signal at the latest, even if timeouts take others out. */
  lemma {:induction false} ReleasedInTurn(sts: seq<State>, steps: seq<Step>, t: ThreadId, s: SemId) returns (j: nat)
    requires Run(sts, steps) && WaitingOn(sts[0], t, s) && Signals(steps, s) > IndexOf(sts[0].sems[s].queue, t)
    ensures j <= |steps| && !WaitingOn(sts[j], t, s) && Signals(steps[..j], s) <= IndexOf(sts[0].sems[s].queue, t) + 1
    decreases |steps|
  {
    hide Run, Leads, Core, Allowed, Defined, Next, IndexOf;
    RunStart(sts, steps);
    RunTail(sts, steps);
    LeadsAllowed(sts[0], steps[0], sts[1]);
    if !WaitingOn(sts[1], t, s) {
      j := 1;
      assert steps[..1] == [steps[0]];
    } else {
      StepMovesUp(sts[0], steps[0], t, s);
      var k := ReleasedInTurn(sts[1..], steps[1..], t, s);
      j := k + 1;
      assert steps[..j][0] == steps[0] && steps[..j][1..] == steps[1..][..k];
    }
  }

  // ------------------------------------------------------ conservation of units

  function Units(m: Sem): nat { if m.val > 0 then m.val else 0 }

  /** Waits on `s` that a step grants: a wait that does not block, or the waiters a
      signal takes off the queue. */
  function Granted(st: State, step: Step, st': State, s: SemId): int
    requires s in st.sems && s in st'.sems
  {
    match step
    case DoWait(r) => if r == s && st'.sems[s].queue == st.sems[s].queue then 1 else 0
    case DoTimedWait(r, _) => if r == s && st'.sems[s].queue == st.sems[s].queue then 1 else 0
    case DoSignal(r) => if r == s then |st.sems[s].queue| - |st'.sems[s].queue| else 0
    case _ => 0
  }

  lemma StepConservesUnits(st: State, step: Step, s: SemId)
    requires Inv(st) && Allowed(st, step) && Defined(st, step) && s in st.sems && step != DoClose(s)
    ensures var st' := Next(st, step);
            s in st'.sems && Units(st'.sems[s]) + Granted(st, step, st', s) == Units(st.sems[s]) + if step == DoSignal(s) then 1 else 0
  {
    hide Core, Allowed, Defined, Next, Minus, TakeWhile;
    StepKeepsInv(st, step);
    StepSem(st, step, s);
    QueueFacts(st, s);
    QueueFacts(Next(st, step), s);
  }

  ghost predicate Alive(sts: seq<State>, s: SemId) { forall i :: 0 <= i < |sts| ==> s in sts[i].sems }

  function Grants(sts: seq<State>, steps: seq<Step>, s: SemId): int
    requires |sts| == |steps| + 1 && forall i :: 0 <= i < |sts| ==> s in sts[i].sems
  {
    if steps == [] then 0 else Granted(sts[0], steps[0], sts[1], s) + Grants(sts[1..], steps[1..], s)
  }

  /** Every run conserves the units of a semaphore: units at the start plus signals
      equal waits granted plus units left. */
  lemma {:induction false} UnitsAreConserved(sts: seq<State>, steps: seq<Step>, s: SemId)
    requires Run(sts, steps) && s in sts[0].sems && DoClose(s) !in steps
    ensures |sts| == |steps| + 1 && Alive(sts, s)
    ensures Units(sts[0].sems[s]) + Signals(steps, s) == Grants(sts, steps, s) + Units(sts[|steps|].sems[s])
    decreases |steps|
  {
    hide Run, Leads, Core, Allowed, Defined, Next, Granted, Units;
    RunStart(sts, steps);
    if steps != [] {
      RunTail(sts, steps);
      LeadsAllowed(sts[0], steps[0], sts[1]);
      StepConservesUnits(sts[0], steps[0], s);
      UnitsAreConserved(sts[1..], steps[1..], s);
      forall i | 0 <= i < |sts| ensures s in sts[i].sems { if i > 0 { assert sts[i] == sts[1..][i - 1]; } }
    }
  }

  /** A semaphore opened with one unit: at every moment at most one granted wait is
      not yet matched by a signal, and one is exactly when no unit is left. */
  lemma OneHolder(sts: seq<State>, steps: seq<Step>, s: SemId)
    requires Run(sts, steps) && s in sts[0].sems && sts[0].sems[s] == Sem(1, []) && DoClose(s) !in steps
    ensures |sts| == |steps| + 1 && Alive(sts, s)
    ensures Grants(sts, steps, s) - Signals(steps, s) <= 1
    ensures Grants(sts, steps, s) - Signals(steps, s) == 1 <==> sts[|steps|].sems[s].val <= 0
  {
    hide Run, Grants, Signals;
    UnitsAreConserved(sts, steps, s);
  }

  // ------------------------------------------------------------ finished threads

  /** FINISHED is never overwritten and a finished thread never runs; a thread
      finishes only by a kill of it or its own exit, and disappears only once it has
      finished; an identity that is gone stays gone, so nothing is deleted twice. */
  lemma FinishedForGood(st: State, step: Step, t: ThreadId)
    requires Inv(st) && Allowed(st, step) && Defined(st, step)
    ensures var st' := Next(st, step);
            && st.nextThread <= st'.nextThread
            && (t in st.threads && st.threads[t].state == FINISHED ==>
                  st'.running != t && (t in st'.threads ==> st'.threads[t].state == FINISHED))
            && (t in st.threads && t !in st'.threads ==> st.threads[t].state == FINISHED || (step == DoExit && t == st.running))
            && (t in st.threads && t in st'.threads && st'.threads[t].state == FINISHED ==>
                  st.threads[t].state == FINISHED || step == DoKill(t))
            && (t !in st.threads && t < st.nextThread ==> t !in st'.threads)
            && (t in st.threads && t in st'.threads ==> st'.threads[t].body == st.threads[t].body)
  {
    hide Core, Middle, Effect, Allowed, Reschedule, CanSelect, Resumed, TakeWhile;
    StepIsMiddle(st, step);
    MiddleFinished(st, step, t);
    RunningFacts(st);
    if Dispatches(st, step) {
      var m := Middle(st, step);
      RescheduleMeaning(m);
      var n, r := |TakeWhile(m.ready, IsFinished(m.threads))|, Reschedule(m).running;
      assert t in m.ready[..n] ==> t in m.threads && IsFinished(m.threads)(t);
      ResumedIsSame(m.threads[r]);
    }
  }

  /** A thread that exists and has not finished. */
  predicate Live(st: State, t: ThreadId) { t in st.threads && st.threads[t].state != FINISHED }

  /** Nothing but a kill of it or its own exit ends a thread. */
  lemma {:induction false} LiveUntilKilled(sts: seq<State>, steps: seq<Step>, t: ThreadId, i: nat)
    requires Run(sts, steps) && Live(sts[0], t) && DoKill(t) !in steps && i <= |steps|
    requires forall k :: 0 <= k < i && steps[k] == DoExit ==> sts[k].running != t
    ensures Live(sts[i], t)
  {
    hide Core, Allowed, Defined, Next;
    if i > 0 {
      LiveUntilKilled(sts, steps, t, i - 1);
      InvAlong(sts, steps, i - 1);
      assert Leads(sts[i - 1], steps[i - 1], sts[i]);
      FinishedForGood(sts[i - 1], steps[i - 1], t);
    }
  }

  /** Neither finished nor revived, and with the body it was created with. */
  predicate SameLife(th: Thread, th': Thread) {
    (th'.state == FINISHED <==> th.state == FINISHED) && th'.body == th.body
  }

  lemma ResumedIsSame(th: Thread)
    requires th.state != FINISHED
    ensures SameLife(th, Resumed(th))
  {
  }

  lemma ParkedIsSame(st: State, t: ThreadId)
    requires st.running in st.threads
    ensures var m := Park(st);
            && m.nextThread == st.nextThread
            && (t in m.threads ==> t in st.threads && SameLife(st.threads[t], m.threads[t]))
            && (t in st.threads ==> (t !in m.threads <==> t == st.running && st.threads[t].state == FINISHED))
  {
  }

  lemma MiddleFinished(st: State, step: Step, t: ThreadId)
    requires Inv(st) && Allowed(st, step)
    ensures EffectDefined(st, step) && Effect(st, step).running in Effect(st, step).threads
    ensures var m := Middle(st, step);
            && st.nextThread <= m.nextThread
            && (t in st.threads && st.threads[t].state == FINISHED ==> t in m.threads && m.threads[t].state == FINISHED)
            && (t in st.threads && t !in m.threads ==> step == DoExit && t == st.running)
            && (t in st.threads && t in m.threads && m.threads[t].state == FINISHED ==> st.threads[t].state == FINISHED || step == DoKill(t))
            && (t in st.threads && t in m.threads ==> m.threads[t].body == st.threads[t].body)
            && (t !in st.threads && t < st.nextThread ==> t !in m.threads)
  {
    hide Core, Allowed, Effect, EffectDefined, Park;
    StepIsMiddle(st, step);
    RunningLives(st);
    EffectIsDefined(st, step);
    EffectFinishes(st, step, t);
    StepHandle(st, step);
    ParkedIsSame(Effect(st, step), t);
  }

  lemma RunningLives(st: State)
    requires Core(st, true)
    ensures Live(st, st.running)
  {
    RunningFacts(st);
  }

  /** Who finishes, before any dispatch. */
  lemma EffectFinishes(st: State, step: Step, t: ThreadId)
    requires Inv(st) && EffectDefined(st, step)
    ensures var e := Effect(st, step);
            && st.nextThread <= e.nextThread
            && (t in st.threads ==> t in e.threads && e.threads[t].body == st.threads[t].body)
            && (t in st.threads && st.threads[t].state == FINISHED ==> e.threads[t].state == FINISHED)
            && (t in st.threads && e.threads[t].state == FINISHED ==>
                  st.threads[t].state == FINISHED || step == DoKill(t) || (step == DoExit && t == st.running))
            && (t !in st.threads && t < st.nextThread ==> t !in e.threads)
  {
    hide Core, TickWakes, Signal, Close, Insert, TakeWhile;
    NextIsFresh(st);
    RunningLives(st);
    match step
    case DoSignal(s) => SignalFinished(st, s, t);
    case DoClose(s) => CloseFinished(st, s, t);
    case DoTick => TickFinished(st, t);
    case _ =>
  }

  lemma SignalFinished(st: State, s: SemId, t: ThreadId)
    requires Core(st, true) && s in st.sems
    ensures EffectDefined(st, DoSignal(s))
    ensures var m := Signal(st, s);
            && m.threads.Keys == st.threads.Keys && m.nextThread == st.nextThread
            && (t in st.threads ==> SameLife(st.threads[t], m.threads[t]))
  {
    hide Core, Remove;
    SignalSem(st, s, s);
  }

  lemma CloseFinished(st: State, s: SemId, t: ThreadId)
    requires Core(st, true) && s in st.sems
    ensures EffectDefined(st, DoClose(s))
    ensures var m := Close(st, s);
            && m.threads.Keys == st.threads.Keys && m.nextThread == st.nextThread
            && (t in st.threads ==> SameLife(st.threads[t], m.threads[t]))
  {
    hide Core, UnblockAll, Minus;
    RunningLive(st);
    UnblockAllDrains(st, s);
  }

  lemma TickFinished(st: State, t: ThreadId)
    requires Inv(st)
    ensures var m := TickWakes(st);
            && m.threads.Keys == st.threads.Keys && m.nextThread == st.nextThread && m.running == st.running
            && (t in st.threads ==> SameLife(st.threads[t], m.threads[t]))
            && (t == st.running && t in st.threads ==> m.threads[t] == st.threads[t])
  {
    hide Core, WakeAll, Minus, TakeWhile, DropWhile;
    RunningFacts(st);
    ClockKeepsCore(st, (st.time + 1) % TIME_RANGE, st.cpu + 1, true);
    WakeAllMeaning(Advance(st));
    assert forall x :: x in TakeWhile(Advance(st).asleep, DueAt(Advance(st).threads, Advance(st).time)) ==> x in st.asleep;
  }
}
