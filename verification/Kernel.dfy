/** The kernel as it runs: one object whose fields the system calls and the timer
    overwrite. Each method is proved to take the state where `KernelState` says
    the step takes it, so the invariant and the theorems about runs apply. */
module Kernel {
  import opened ListSpec
  import opened KernelState
  import opened KernelInvariant
  import opened KernelDispatch
  import KS = KernelState

  class Kernel {
    var running: ThreadId
    var ready: seq<ThreadId>
    var asleep: seq<ThreadId>
    var threads: map<ThreadId, Thread>
    var sems: map<SemId, Sem>
    var time: nat
    var cpu: nat
    var nextThread: ThreadId
    var nextSem: SemId

    function View(): State
      reads this
    {
      State(running, ready, asleep, threads, sems, time, cpu, nextThread, nextSem)
    }

    constructor ()
      ensures View() == InitialState() && Inv(View())
      ensures running == 0 && threads.Keys == {0} && threads[0].state == RUNNING && threads[0].status == NON_WAITING
      ensures ready == [] && asleep == [] && sems == map[] && time == 0 && cpu == 0
    {
      running, ready, asleep := MAIN, [], [];
      threads := map[MAIN := Thread(RUNNING, NON_WAITING, None, 0, None, false, Plainly, 0)];
      sems, time, cpu, nextThread, nextSem := map[], 0, 0, 1, 0;
      new;
      InitialInv();
    }

    // -------------------------------------------------------------- scheduler

    method Put(t: ThreadId)
      modifies this`ready
      ensures ready == old(ready) + [t]
    {
      ready := ready + [t];
    }

    method Get() returns (t: Option<ThreadId>)
      modifies this`ready
      ensures old(ready) == [] ==> t == None && ready == []
      ensures old(ready) != [] ==> t == Some(old(ready)[0]) && ready == old(ready)[1..]
    {
      if ready == [] {
        return None;
      }
      t, ready := Some(ready[0]), ready[1..];
    }

    // --------------------------------------------------------- thread setters

    method SetMySem(t: ThreadId, s: Option<SemId>)
      modifies this`threads
      ensures threads == if t in old(threads) then old(threads)[t := old(threads)[t].(sem := s)] else old(threads)
    {
      if t in threads {
        threads := threads[t := threads[t].(sem := s)];
      }
    }

    method SetThreadsSemStatus(t: ThreadId, status: SemStatus)
      modifies this`threads
      ensures threads == if t in old(threads) then old(threads)[t := WithStatus(old(threads)[t], status, t == running)] else old(threads)
    {
      if t !in threads || threads[t].state == FINISHED {
        return;
      }
      threads := threads[t := threads[t].(status := status)];
      if status == WAITING || status == TIMEDWAITING {
        threads := threads[t := threads[t].(state := SUSPENDED)];
        return;
      }
      if running == t {
        threads := threads[t := threads[t].(state := RUNNING)];
      } else {
        threads := threads[t := threads[t].(state := READY)];
      }
    }

    method SetThreadState(t: ThreadId, state: RunState)
      modifies this`threads
      ensures threads == if t in old(threads) then old(threads)[t := old(threads)[t].(state := state)] else old(threads)
    {
      if t in threads {
        threads := threads[t := threads[t].(state := state)];
      }
    }

    method SetTimeForWakingUp(t: ThreadId, wake: nat)
      modifies this`threads
      ensures threads == if t in old(threads) then old(threads)[t := old(threads)[t].(wake := wake)] else old(threads)
    {
      if t in threads {
        threads := threads[t := threads[t].(wake := wake)];
      }
    }

    method InsertOrderedAsleep(t: ThreadId)
      modifies this`asleep
      ensures asleep == if t in threads then Insert(old(asleep), t, SmallerSleepTime(threads)) else old(asleep)
    {
      if t in threads {
        asleep := Insert(asleep, t, SmallerSleepTime(threads));
      }
    }

    // --------------------------------------------------------------- dispatch

    /** Iterates over the ready queue while its threads are dead, deleting each. */
    method DeleteFinished()
      modifies this`ready, this`threads
      ensures View() == DropDead(old(View()), old(ready))
    {
      var curr := ready;
      while curr != [] && Dead(View(), curr[0])
        invariant DropDead(View(), curr) == DropDead(old(View()), old(ready))
        decreases |curr|
      {
        var toCheck := curr[0];
        curr := curr[1..];
        var found := toCheck in ready;
        ready := Remove(ready, toCheck);
        if found && toCheck in threads && threads[toCheck].state == FINISHED {
          threads := threads - {toCheck};
        }
      }
    }

    /** Goes on with the system call the selected thread was suspended in. */
    method Continue()
      requires running in threads
      modifies this`threads
      ensures threads == old(threads)[running := Resumed(old(threads)[running])]
    {
      var t := running;
      var resume, status := threads[t].resume, threads[t].status;
      threads := threads[t := threads[t].(state := RUNNING, resume := Plainly)];
      match resume {
        case Plainly =>
        case InBlock =>
          SetMySem(t, None);
          threads := threads[t := threads[t].(answer := ResponseTo(status))];
          SetThreadsSemStatus(t, NON_WAITING);
        case InTimedBlock =>
          SetMySem(t, None);
          SetTimeForWakingUp(t, 0);
          threads := threads[t := threads[t].(answer := ResponseTo(status))];
          SetThreadsSemStatus(t, NON_WAITING);
        case InSleep =>
          SetThreadState(t, READY);
          SetTimeForWakingUp(t, 0);
      }
    }

    method Dispatch()
      requires CanDispatch(View())
      modifies this
      ensures View() == KS.Dispatch(old(View()))
    {
      cpu := 0;
      var out := running;
      var state := threads[out].state;
      if state == READY || state == RUNNING {
        SetThreadState(out, READY);
        Put(out);
      }
      if state == FINISHED {
        threads := threads - {out};
      }
      assert View() == Park(old(View()));
      DeleteFinished();
      var next := Get();
      running := next.value;
      Continue();
    }

    method Exit()
      requires Inv(View()) && Allowed(View(), DoExit)
      modifies this
      ensures Defined(old(View()), DoExit) && View() == Next(old(View()), DoExit) && Inv(View())
    {
      StepKeepsInv(View(), DoExit);
      SetThreadState(running, FINISHED);
      Dispatch();
    }

    method ThreadDispatch()
      requires Inv(View())
      modifies this
      ensures Defined(old(View()), DoDispatch) && View() == Next(old(View()), DoDispatch) && Inv(View())
    {
      StepKeepsInv(View(), DoDispatch);
      Dispatch();
    }

    method SubtleKill(target: ThreadId) returns (code: int)
      requires Inv(View())
      modifies this
      ensures code == KillCode(old(View()), target) && View() == Next(old(View()), DoKill(target)) && Inv(View())
    {
      StepKeepsInv(View(), DoKill(target));
      if target !in threads {
        return THREAD_IS_INVALID_ERR;
      }
      if Some(running) != threads[target].parent {
        return -2;
      }
      if running == target {
        return -3;
      }
      SetThreadState(target, FINISHED);
      return 0;
    }

    method CreateThread(hasBody: bool) returns (t: ThreadId)
      requires Inv(View())
      modifies this
      ensures t == old(nextThread) && View() == Next(old(View()), DoCreate(hasBody)) && Inv(View())
    {
      StepKeepsInv(View(), DoCreate(hasBody));
      t, nextThread := nextThread, nextThread + 1;
      threads := threads[t := Thread(READY, NON_WAITING, None, 0, Some(running), hasBody, Plainly, 0)];
      if hasBody {
        Put(t);
      }
    }

    // ------------------------------------------------------------- semaphores

    method Unblock(s: SemId, cause: SemStatus)
      requires s in sems && sems[s].queue != [] && sems[s].queue[0] in threads
      modifies this`sems, this`asleep, this`threads, this`ready
      ensures View() == KS.Unblock(old(View()), s, cause)
    {
      hide Remove, WithStatus;
      var t := sems[s].queue[0];
      sems := sems[s := sems[s].(queue := sems[s].queue[1..])];
      if threads[t].status == TIMEDWAITING {
        asleep := Remove(asleep, t);
      }
      SetMySem(t, None);
      SetThreadsSemStatus(t, cause);
      Put(t);
    }

    method SemSignal(s: SemId) returns (woke: int)
      requires Inv(View()) && s in sems
      modifies this
      ensures Defined(old(View()), DoSignal(s)) && View() == Next(old(View()), DoSignal(s)) && Inv(View())
      ensures woke == if old(sems)[s].val < 0 then 1 else 0
    {
      StepKeepsInv(View(), DoSignal(s));
      sems := sems[s := sems[s].(val := sems[s].val + 1)];
      if sems[s].val > 0 {
        return 0;
      }
      Unblock(s, REGULARLY_WAITED);
      return 1;
    }

    lemma KeptQueue(st: State, s: SemId, cause: SemStatus)
      requires s in st.sems && st.sems[s].queue != [] && forall t :: t in st.sems[s].queue ==> t in st.threads
      ensures var r := KS.Unblock(st, s, cause);
              && s in r.sems && r.sems[s] == st.sems[s].(queue := st.sems[s].queue[1..])
              && forall t :: t in r.sems[s].queue ==> t in r.threads
    {
    }

    method UnblockAll(s: SemId, cause: SemStatus)
      requires s in sems && -sems[s].val <= |sems[s].queue| && forall t :: t in sems[s].queue ==> t in threads
      modifies this`sems, this`asleep, this`threads, this`ready
      ensures View() == KS.UnblockAll(old(View()), s, cause)
    {
      hide Remove, WithStatus, KS.Unblock;
      while sems[s].val < 0
        invariant s in sems && -sems[s].val <= |sems[s].queue| && forall t :: t in sems[s].queue ==> t in threads
        invariant KS.UnblockAll(View(), s, cause) == KS.UnblockAll(old(View()), s, cause)
        decreases -sems[s].val
      {
        ghost var st := View();
        Unblock(s, cause);
        KeptQueue(st, s, cause);
        sems := sems[s := sems[s].(val := sems[s].val + 1)];
      }
    }

    method SemClose(s: SemId)
      requires Inv(View()) && s in sems
      modifies this
      ensures Defined(old(View()), DoClose(s)) && View() == Next(old(View()), DoClose(s)) && Inv(View())
    {
      StepKeepsInv(View(), DoClose(s));
      UnblockAll(s, SEM_DELETED);
      sems := sems - {s};
    }

    /** The invariant survives exactly the values that fit the signed counter. */
    method SemOpen(n: nat) returns (s: SemId)
      requires Inv(View()) && n < TIME_RANGE
      modifies this
      ensures s == old(nextSem) && s !in old(sems) && View() == KS.Open(old(View()), n) == Next(old(View()), DoOpen(n))
      ensures Inv(View()) <==> n < SIGN_BIT
    {
      OpenKeepsInv(View(), n);
      s, nextSem := nextSem, nextSem + 1;
      sems := sems[s := Sem(Signed(n), [])];
    }

    lemma OpenKeepsInv(st: State, n: nat)
      requires Inv(st) && n < TIME_RANGE
      ensures st.nextSem !in st.sems && (Inv(Open(st, n)) <==> n < SIGN_BIT)
    {
      NextIsFresh(st);
      OpenObeysLaw(st, n);
      if n < SIGN_BIT { OpenKeepsCore(st, n); } else { assert !SemOk(Open(st, n), st.nextSem); }
    }

    method SemWait(s: SemId)
      requires Inv(View()) && Allowed(View(), DoWait(s))
      modifies this
      ensures Defined(old(View()), DoWait(s)) && View() == Next(old(View()), DoWait(s)) && Inv(View())
    {
      hide Core, Reschedule, CanSelect, Park, Insert, WakeAll, Remove, Signed;
      StepKeepsInv(View(), DoWait(s));
      var t := running;
      sems := sems[s := sems[s].(val := sems[s].val - 1)];
      if sems[s].val >= 0 {
        threads := threads[t := threads[t].(answer := SEM_DIDNTWAIT)];
        return;
      }
      sems := sems[s := sems[s].(queue := sems[s].queue + [t])];
      SetThreadsSemStatus(t, WAITING);
      SetMySem(t, Some(s));
      threads := threads[t := threads[t].(resume := InBlock)];
      assert View() == Block(old(View()), s);
      Dispatch();
    }

    method SemTimedWait(s: SemId, d: nat)
      requires Inv(View()) && Allowed(View(), DoTimedWait(s, d))
      modifies this
      ensures Defined(old(View()), DoTimedWait(s, d)) && View() == Next(old(View()), DoTimedWait(s, d)) && Inv(View())
    {
      hide Core, Reschedule, CanSelect, Park, KS.TimedBlock, InsertAsleep, WakeAll, Remove, Signed;
      StepKeepsInv(View(), DoTimedWait(s, d));
      sems := sems[s := sems[s].(val := sems[s].val - 1)];
      if sems[s].val >= 0 {
        threads := threads[running := threads[running].(answer := SEM_DIDNTWAIT)];
        return;
      }
      assert SetSem(View(), s, sems[s].(val := sems[s].val + 1)) == old(View());
      RunningFacts(old(View()));
      QueueWithDeadline(s, d);
      Dispatch();
    }

    /** The running thread in two lists, its unit already taken. */
    method QueueWithDeadline(s: SemId, d: nat)
      requires s in sems && running in threads && threads[running].state != FINISHED
      modifies this`threads, this`sems, this`asleep
      ensures View() == KS.TimedBlock(SetSem(old(View()), s, old(sems)[s].(val := old(sems)[s].val + 1)), s, d)
    {
      hide Insert;
      var timeForRelease, t := (d + time) % TIME_RANGE, running;
      SetThreadsSemStatus(t, TIMEDWAITING);
      SetTimeForWakingUp(t, timeForRelease);
      sems := sems[s := sems[s].(queue := sems[s].queue + [t])];
      ghost var early := threads;
      InsertOrderedAsleep(t);
      SetMySem(t, Some(s));
      threads := threads[t := threads[t].(resume := InTimedBlock)];
      InsertReadsWakes(early, threads, old(asleep), t);
      assert threads == KS.TimedBlock(SetSem(old(View()), s, old(sems)[s].(val := old(sems)[s].val + 1)), s, d).threads;
      assert sems == KS.TimedBlock(SetSem(old(View()), s, old(sems)[s].(val := old(sems)[s].val + 1)), s, d).sems;
    }

    // ------------------------------------------------------------------ timer

    method TimeSleep(d: nat)
      requires Inv(View()) && Allowed(View(), DoSleep(d))
      modifies this
      ensures Defined(old(View()), DoSleep(d)) && View() == Next(old(View()), DoSleep(d)) && Inv(View())
    {
      hide Core, Reschedule, CanSelect, Park, Insert, WakeAll, Remove, Signed;
      StepKeepsInv(View(), DoSleep(d));
      var timeSleeping := if d > SIGN_BIT then d / 2 else d;
      var t := running;
      SetThreadState(t, SUSPENDED);
      SetTimeForWakingUp(t, (time + timeSleeping) % TIME_RANGE);
      threads := threads[t := threads[t].(resume := InSleep)];
      assert threads == PutToSleep(old(View()), ClampedSleep(d)).threads;
      InsertOrderedAsleep(t);
      assert View() == PutToSleep(old(View()), ClampedSleep(d));
      Dispatch();
    }

    method UnblockedByTime(s: SemId, t: ThreadId)
      requires s in sems && t in threads
      modifies this`sems, this`asleep, this`threads, this`ready
      ensures View() == KS.UnblockedByTime(old(View()), s, t)
      ensures old(threads)[t].status != TIMEDWAITING ==> View() == old(View())
    {
      if threads[t].status != TIMEDWAITING {
        return;
      }
      sems := sems[s := sems[s].(val := sems[s].val + 1)];
      asleep := Remove(asleep, t);
      sems := sems[s := sems[s].(queue := Remove(sems[s].queue, t))];
      SetMySem(t, None);
      SetThreadsSemStatus(t, TIMEOUT);
      Put(t);
    }

    method WakeThreadUp(t: ThreadId)
      modifies this`sems, this`asleep, this`threads, this`ready
      ensures View() == WakeThread(old(View()), t)
      ensures t !in old(threads) ==> View() == old(View())
    {
      if t !in threads {
        return;
      }
      if threads[t].status == TIMEDWAITING {
        if threads[t].sem.Some? && threads[t].sem.value in sems {
          UnblockedByTime(threads[t].sem.value, t);
        }
      } else if t in asleep {
        asleep := Remove(asleep, t);
        Put(t);
      }
    }

    /** Iterates over the sleep list while its threads are due. */
    method WakeAsleepThreadsUp()
      modifies this`sems, this`asleep, this`threads, this`ready
      ensures View() == WakeAll(old(View()), old(asleep))
    {
      var curr := asleep;
      while curr != [] && Due(View(), curr[0])
        invariant WakeAll(View(), curr) == WakeAll(old(View()), old(asleep))
        decreases |curr|
      {
        var toCheck := curr[0];
        curr := curr[1..];
        WakeThreadUp(toCheck);
      }
    }

    method TimerInterrupt()
      requires Inv(View())
      modifies this
      ensures Defined(old(View()), DoTick) && View() == Next(old(View()), DoTick) && Inv(View())
    {
      hide Core, Reschedule, CanSelect, Park, Insert, WakeAll, Remove, Signed;
      StepKeepsInv(View(), DoTick);
      time := (time + 1) % TIME_RANGE;
      cpu := cpu + 1;
      TickWakesKeepsCore(old(View()));
      WakeAsleepThreadsUp();
      if cpu >= DEFAULT_TIME_SLICE {
        Dispatch();
      }
    }
  }
}
