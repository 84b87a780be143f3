/** What every step of the kernel keeps: where each thread is, what each queue
    holds and how the counters relate to them. */
module KernelInvariant {
  import opened ListSpec
  import opened KernelState

  /** Threads that take part in scheduling: all but those created without a body. */
  predicate Scheduled(t: ThreadId, th: Thread) { th.body || t == MAIN }

  /** Status and run state of a thread waiting in the ready queue to go on. */
  predicate ReadyToGoOn(th: Thread) {
    match th.resume
    case Plainly => th.status == NON_WAITING && th.state == READY
    case InSleep => th.status == NON_WAITING && th.state == SUSPENDED
    case InBlock => th.status in {REGULARLY_WAITED, SEM_DELETED} && th.state == READY
    case InTimedBlock => th.status in {REGULARLY_WAITED, SEM_DELETED, TIMEOUT} && th.state == READY
  }

  /** The running thread. */
  predicate Running(st: State, t: ThreadId, th: Thread) {
    && th.sem == None && t !in st.ready && t !in st.asleep && Scheduled(t, th)
    && th.resume == Plainly && th.status == NON_WAITING && (th.state == RUNNING || th.state == READY)
  }

  /** In the blocked queue of the semaphore in its `sem`, and on the sleep list
      exactly when it waits with a timeout. */
  predicate Blocked(st: State, t: ThreadId, th: Thread) {
    && th.sem.Some? && th.sem.value in st.sems && t in st.sems[th.sem.value].queue
    && t !in st.ready && Scheduled(t, th) && th.state in {SUSPENDED, FINISHED}
    && ((th.status == WAITING && th.resume == InBlock && t !in st.asleep)
        || (th.status == TIMEDWAITING && th.resume == InTimedBlock && t in st.asleep))
  }

  /** In no blocked queue: in the ready queue or on the sleep list, not in both;
      in neither when it was created without a body. */
  predicate Unblocked(st: State, t: ThreadId, th: Thread) {
    && th.sem == None
    && (t in st.ready || t in st.asleep <==> Scheduled(t, th)) && !(t in st.ready && t in st.asleep)
    && (t in st.asleep ==> th.status == NON_WAITING && th.resume == InSleep && th.state in {SUSPENDED, FINISHED})
    && (t in st.ready ==> th.state == FINISHED || ReadyToGoOn(th))
  }

  predicate ThreadOk(st: State, t: ThreadId, onCpu: bool)
    requires t in st.threads
  {
    var th := st.threads[t];
    && t < st.nextThread && (th.parent.Some? ==> th.parent.value < t)
    && if onCpu && t == st.running then Running(st, t, th) else Blocked(st, t, th) || Unblocked(st, t, th)
  }

  /** The semaphore law, and that the queue holds exactly its own waiters. */
  ghost predicate SemOk(st: State, s: SemId)
    requires s in st.sems
  {
    var m := st.sems[s];
    && s < st.nextSem
    && NoDup(m.queue)
    && |m.queue| == (if m.val < 0 then -m.val else 0)
    && forall t :: t in m.queue ==> t in st.threads && st.threads[t].sem == Some(s)
  }

  ghost predicate SleepSorted(threads: map<ThreadId, Thread>, asleep: seq<ThreadId>) {
    forall i, j :: 0 <= i < j < |asleep| ==> WakeOf(threads, asleep[i]) <= WakeOf(threads, asleep[j])
  }

  ghost predicate ListsOk(st: State) {
    && NoDup(st.ready) && NoDup(st.asleep)
    && (forall t :: t in st.ready ==> t in st.threads)
    && (forall t :: t in st.asleep ==> t in st.threads)
    && SleepSorted(st.threads, st.asleep)
  }

  predicate MainOk(st: State) {
    && MAIN in st.threads && st.threads[MAIN].state != FINISHED && st.threads[MAIN].sem == None
    && st.threads[MAIN].parent == None && MAIN !in st.asleep
  }

  /** What holds inside a step too. Between the parking of the old thread and the
      selection of the next, `onCpu` is false: no thread is on the processor. */
  ghost predicate Core(st: State, onCpu: bool) {
    && (onCpu ==> st.running in st.threads)
    && ListsOk(st) && MainOk(st)
    && (forall t :: t in st.threads ==> ThreadOk(st, t, onCpu))
    && (forall s :: s in st.sems ==> SemOk(st, s))
  }

  /** What holds between steps. */
  ghost predicate Inv(st: State) {
    Core(st, true) && st.cpu < DEFAULT_TIME_SLICE && st.time < TIME_RANGE
  }

  lemma InitialInv()
    ensures Inv(InitialState())
  {
  }

  // ------------------------------------------------------- releasing a waiter

  lemma RemoveHead<T>(s: seq<T>)
    requires s != []
    ensures Remove(s, s[0]) == s[1..]
  {
  }

  lemma RemoveKeepsSorted(threads: map<ThreadId, Thread>, s: seq<ThreadId>, x: ThreadId)
    requires SleepSorted(threads, s)
    ensures SleepSorted(threads, Remove(s, x))
  {
    hide Remove, WakeOf, IndexOf, NoDup;
    if x in s {
      RemoveSplits(s, x);
      var k := IndexOf(s, x);
      var r := s[..k] + s[k + 1..];
      forall i, j | 0 <= i < j < |r| ensures WakeOf(threads, r[i]) <= WakeOf(threads, r[j]) {
        var i', j' := if i < k then i else i + 1, if j < k then j else j + 1;
        assert r[i] == s[i'] && r[j] == s[j'] && i' < j';
      }
    }
  }

  /** Thread `t` leaves the queue of `s` (which gains a unit) and possibly the
      sleep list, and goes to the back of the ready queue. */
  function Released(st: State, s: SemId, t: ThreadId, cause: SemStatus): State
    requires s in st.sems && t in st.threads
  {
    var m, th := st.sems[s], st.threads[t];
    st.(sems := st.sems[s := Sem(m.val + 1, Remove(m.queue, t))],
        asleep := if th.status == TIMEDWAITING then Remove(st.asleep, t) else st.asleep,
        threads := st.threads[t := WithStatus(th.(sem := None), cause, t == st.running)],
        ready := st.ready + [t])
  }

  lemma ReleasedLists(st: State, s: SemId, t: ThreadId, cause: SemStatus)
    requires Core(st, true) && s in st.sems && t in st.sems[s].queue
    ensures t in st.threads && t !in st.ready && st.threads[t].sem == Some(s)
    ensures ListsOk(Released(st, s, t, cause)) && MainOk(Released(st, s, t, cause))
  {
    assert SemOk(st, s) && ThreadOk(st, t, true);
    var st' := Released(st, s, t, cause);
    RemoveFromDistinct(st.asleep, t);
    RemoveKeepsSorted(st.threads, st.asleep, t);
    assert forall x :: WakeOf(st'.threads, x) == WakeOf(st.threads, x);
    assert forall x :: x in st'.ready <==> x in st.ready || x == t;
  }

  lemma ReleasedThreads(st: State, s: SemId, t: ThreadId, cause: SemStatus, x: ThreadId)
    requires Core(st, true) && s in st.sems && t in st.sems[s].queue && t in st.threads && x in st.threads
    requires cause in {REGULARLY_WAITED, SEM_DELETED} || (cause == TIMEOUT && st.threads[t].status == TIMEDWAITING)
    ensures ThreadOk(Released(st, s, t, cause), x, true)
  {
    hide ListsOk, Remove;
    var st' := Released(st, s, t, cause);
    assert ThreadOk(st, t, true) && ThreadOk(st, x, true) && SemOk(st, s);
    SleepersDiffer(st);
    RemoveFromDistinct(st.sems[s].queue, t);
    RemoveFromDistinct(st.asleep, t);
  }

  lemma SleepersDiffer(st: State)
    requires ListsOk(st)
    ensures NoDup(st.asleep) && NoDup(st.ready)
  {
  }

  lemma ReleasedSems(st: State, s: SemId, t: ThreadId, cause: SemStatus, r: SemId)
    requires Core(st, true) && s in st.sems && t in st.sems[s].queue && t in st.threads && r in st.sems
    ensures SemOk(Released(st, s, t, cause), r)
  {
    hide ListsOk, Remove, Blocked, Unblocked, Running;
    assert SemOk(st, s) && SemOk(st, r);
    RemoveFromDistinct(st.sems[s].queue, t);
  }

  /** Releasing a waiter, for whatever reason, keeps everything. */
  lemma ReleasedKeepsCore(st: State, s: SemId, t: ThreadId, cause: SemStatus)
    requires Core(st, true) && s in st.sems && t in st.sems[s].queue
    requires cause in {REGULARLY_WAITED, SEM_DELETED} || (cause == TIMEOUT && t in st.threads && st.threads[t].status == TIMEDWAITING)
    ensures t in st.threads && Core(Released(st, s, t, cause), true)
  {
    hide ListsOk, ThreadOk, SemOk, Remove;
    ReleasedLists(st, s, t, cause);
    var st' := Released(st, s, t, cause);
    forall x | x in st'.threads ensures ThreadOk(st', x, true) { ReleasedThreads(st, s, t, cause, x); }
    forall r | r in st'.sems ensures SemOk(st', r) { ReleasedSems(st, s, t, cause, r); }
  }

  /** Taking the first waiter off with one more unit is such a release. */
  lemma UnblockReleases(st: State, s: SemId, cause: SemStatus)
    requires Core(st, true) && s in st.sems && st.sems[s].val < 0
    ensures var q := st.sems[s].queue;
            && q != [] && q[0] in st.threads
            && Unblock(SetSem(st, s, st.sems[s].(val := st.sems[s].val + 1)), s, cause) == Released(st, s, q[0], cause)
            && var st1 := Unblock(st, s, cause); SetSem(st1, s, st1.sems[s].(val := st.sems[s].val + 1)) == Released(st, s, q[0], cause)
  {
    assert SemOk(st, s);
    RemoveHead(st.sems[s].queue);
  }

  lemma SignalKeepsCore(st: State, s: SemId)
    requires Core(st, true) && s in st.sems
    ensures st.sems[s].val < 0 ==> st.sems[s].queue != [] && st.sems[s].queue[0] in st.threads
    ensures Core(Signal(st, s), true) && Signal(st, s).time == st.time && Signal(st, s).cpu == st.cpu
  {
    assert SemOk(st, s);
    if st.sems[s].val < 0 {
      UnblockReleases(st, s, REGULARLY_WAITED);
      ReleasedKeepsCore(st, s, st.sems[s].queue[0], REGULARLY_WAITED);
    } else {
      UnitsChangedKeepsCore(st, s, st.sems[s].val + 1);
    }
  }

  lemma UnitsChangedKeepsCore(st: State, s: SemId, val: int)
    requires Core(st, true) && s in st.sems && st.sems[s].val >= 0 && val >= 0
    ensures Core(SetSem(st, s, st.sems[s].(val := val)), true)
  {
    var st' := SetSem(st, s, st.sems[s].(val := val));
    assert SemOk(st, s);
    forall x | x in st'.threads ensures ThreadOk(st', x, true) { assert ThreadOk(st, x, true); }
    forall r | r in st'.sems ensures SemOk(st', r) { assert SemOk(st, r); }
  }

  // ----------------------------------------------------------- deleting a semaphore

  /** The elements of `s` outside `q`, in order. */
  function Minus<T(==,!new)>(s: seq<T>, q: seq<T>): (r: seq<T>)
    ensures forall x :: x in r <==> x in s && x !in q
  {
    if s == [] then [] else if s[0] in q then Minus(s[1..], q) else [s[0]] + Minus(s[1..], q)
  }

  lemma {:induction false} MinusNone<T(!new)>(s: seq<T>, q: seq<T>)
    requires forall x :: x in s ==> x !in q
    ensures Minus(s, q) == s
  {
    if s != [] { MinusNone(s[1..], q); }
  }

  lemma {:induction false} MinusAfterRemove<T(!new)>(s: seq<T>, q: seq<T>)
    requires NoDup(s) && q != []
    ensures Minus(Remove(s, q[0]), q[1..]) == Minus(s, q)
  {
    if s != [] {
      MinusAfterRemove(s[1..], q);
      assert forall x :: x in q <==> x == q[0] || x in q[1..];
      if s[0] == q[0] {
        assert s[0] !in s[1..];
        MinusIgnores(s[1..], q);
      }
    }
  }

  lemma {:induction false} MinusIgnores<T(!new)>(s: seq<T>, q: seq<T>)
    requires q != [] && q[0] !in s
    ensures Minus(s, q[1..]) == Minus(s, q)
  {
    if s != [] {
      MinusIgnores(s[1..], q);
      assert forall x :: x in q <==> x == q[0] || x in q[1..];
    }
  }

  function AfterDeletion(th: Thread, waiting: bool): Thread {
    if waiting then WithStatus(th.(sem := None), SEM_DELETED, false) else th
  }

  /** Closing terminates with an empty queue and no debt. All waiters are at the
      back of the ready queue in the order they waited, told that the semaphore is
      gone; the sleep list loses exactly its timed waiters. */
  lemma {:induction false} UnblockAllDrains(st: State, s: SemId)
    requires Core(st, true) && s in st.sems
    ensures -st.sems[s].val <= |st.sems[s].queue| && forall t :: t in st.sems[s].queue ==> t in st.threads
    ensures var m, r := st.sems[s], UnblockAll(st, s, SEM_DELETED);
            && Core(r, true)
            && r.sems == st.sems[s := Sem(if m.val < 0 then 0 else m.val, [])]
            && r.ready == st.ready + m.queue
            && r.asleep == Minus(st.asleep, m.queue)
            && r.threads.Keys == st.threads.Keys
            && (forall t :: t in st.threads ==> r.threads[t] == AfterDeletion(st.threads[t], t in m.queue))
            && r == st.(sems := r.sems, ready := r.ready, asleep := r.asleep, threads := r.threads)
    decreases -st.sems[s].val
  {
    hide Core, SemOk, ListsOk, Unblock, Minus, Remove, WithStatus;
    QueueFacts(st, s);
    var m := st.sems[s];
    if m.val >= 0 {
      MinusNone(st.asleep, m.queue);
      assert m == Sem(m.val, []) && st.sems == st.sems[s := m];
    } else {
      var t := m.queue[0];
      UnblockReleases(st, s, SEM_DELETED);
      ReleasedKeepsCore(st, s, t, SEM_DELETED);
      var st1 := Released(st, s, t, SEM_DELETED);
      RemoveHead(m.queue);
      UnblockAllDrains(st1, s);
      assert st1.ready + m.queue[1..] == st.ready + m.queue;
      ReleasedAsleep(st, s);
      assert forall x :: x in m.queue <==> x == t || x in m.queue[1..];
      NotTwice(m.queue);
      QueueNotRunning(st, s);
    }
  }

  lemma QueueFacts(st: State, s: SemId)
    requires Core(st, true) && s in st.sems
    ensures var m := st.sems[s];
            && |m.queue| == (if m.val < 0 then -m.val else 0) && NoDup(m.queue)
            && (forall t :: t in m.queue ==> t in st.threads && st.threads[t].sem == Some(s))
    ensures forall t :: t in st.sems[s].queue ==> t != MAIN && t !in st.ready && t != st.running
    ensures forall t :: t in st.sems[s].queue ==> (t in st.asleep <==> st.threads[t].status == TIMEDWAITING)
  {
    assert SemOk(st, s);
    forall t | t in st.sems[s].queue
      ensures t != MAIN && t !in st.ready && t != st.running && (t in st.asleep <==> st.threads[t].status == TIMEDWAITING)
    {
      assert ThreadOk(st, t, true);
    }
  }

  lemma NotTwice<T>(q: seq<T>)
    requires NoDup(q) && q != []
    ensures q[0] !in q[1..]
  {
  }

  lemma QueueNotRunning(st: State, s: SemId)
    requires Core(st, true) && s in st.sems
    ensures st.running !in st.sems[s].queue
  {
    QueueFacts(st, s);
  }

  lemma ReleasedAsleep(st: State, s: SemId)
    requires Core(st, true) && s in st.sems && st.sems[s].queue != []
    ensures var q := st.sems[s].queue;
            q[0] in st.threads && Minus(Released(st, s, q[0], SEM_DELETED).asleep, q[1..]) == Minus(st.asleep, q)
  {
    QueueFacts(st, s);
    var q := st.sems[s].queue;
    MinusAfterRemove(st.asleep, q);
    if st.threads[q[0]].status != TIMEDWAITING { MinusIgnores(st.asleep, q); }
  }

  lemma CloseKeepsCore(st: State, s: SemId)
    requires Core(st, true) && s in st.sems
    ensures -st.sems[s].val <= |st.sems[s].queue| && forall t :: t in st.sems[s].queue ==> t in st.threads
    ensures Core(Close(st, s), true) && Close(st, s).time == st.time && Close(st, s).cpu == st.cpu
  {
    UnblockAllDrains(st, s);
    var r := UnblockAll(st, s, SEM_DELETED);
    var st' := Close(st, s);
    forall x | x in st'.threads ensures ThreadOk(st', x, true) {
      assert ThreadOk(r, x, true);
      assert r.sems[s].queue == [];
    }
    forall q | q in st'.sems ensures SemOk(st', q) { assert SemOk(r, q); }
  }

  // --------------------------------------------------------------- timer wake-up

  /** What waking the first sleeper does: a timed waiter leaves its semaphore as
      well, a plain sleeper just goes to the ready queue. The semaphore of a timed
      waiter is never missing. */
  lemma WakeFirst(st: State)
    requires Core(st, true) && st.asleep != []
    ensures var t := st.asleep[0];
            && t in st.threads && t != st.running && t !in st.ready
            && (st.threads[t].status == TIMEDWAITING ==>
                  && st.threads[t].sem.Some? && st.threads[t].sem.value in st.sems
                  && t in st.sems[st.threads[t].sem.value].queue
                  && WakeThread(st, t) == Released(st, st.threads[t].sem.value, t, TIMEOUT))
            && (st.threads[t].status != TIMEDWAITING ==>
                  && st.threads[t].sem == None && st.threads[t].resume == InSleep
                  && WakeThread(st, t) == st.(asleep := st.asleep[1..], ready := st.ready + [t]))
            && WakeThread(st, t).asleep == st.asleep[1..]
            && WakeThread(st, t).ready == st.ready + [t]
            && WakeThread(st, t).time == st.time
  {
    var t := st.asleep[0];
    assert ThreadOk(st, t, true);
    RemoveHead(st.asleep);
  }

  lemma SleeperWakes(st: State)
    requires Core(st, true) && st.asleep != []
    requires var t := st.asleep[0]; t in st.threads && st.threads[t].status != TIMEDWAITING && st.threads[t].sem == None
    ensures Core(st.(asleep := st.asleep[1..], ready := st.ready + [st.asleep[0]]), true)
  {
    var t := st.asleep[0];
    var st' := st.(asleep := st.asleep[1..], ready := st.ready + [t]);
    TailOfDistinct(st.asleep);
    assert forall x :: x in st'.ready <==> x in st.ready || x == t;
    assert ThreadOk(st, t, true);
    forall x | x in st'.threads ensures ThreadOk(st', x, true) { assert ThreadOk(st, x, true); }
    forall r | r in st'.sems ensures SemOk(st', r) { assert SemOk(st, r); }
    assert ListsOk(st') by { SleeperLists(st); }
  }

  lemma SleeperLists(st: State)
    requires ListsOk(st) && st.asleep != [] && st.asleep[0] !in st.ready
    ensures ListsOk(st.(asleep := st.asleep[1..], ready := st.ready + [st.asleep[0]]))
  {
    TailOfDistinct(st.asleep);
    var a := st.asleep[1..];
    forall i, j | 0 <= i < j < |a| ensures WakeOf(st.threads, a[i]) <= WakeOf(st.threads, a[j]) {
      assert a[i] == st.asleep[i + 1] && a[j] == st.asleep[j + 1];
    }
  }

  lemma TailOfDistinct<T(!new)>(s: seq<T>)
    requires NoDup(s) && s != []
    ensures NoDup(s[1..]) && s[0] !in s[1..] && forall x :: x in s[1..] <==> x in s && x != s[0]
  {
    assert forall x :: x in s <==> x == s[0] || x in s[1..];
  }

  lemma WakeFirstKeepsCore(st: State)
    requires Core(st, true) && st.asleep != []
    ensures Core(WakeThread(st, st.asleep[0]), true)
  {
    hide Core, WakeThread;
    WakeFirst(st);
    var t := st.asleep[0];
    if st.threads[t].status == TIMEDWAITING {
      ReleasedKeepsCore(st, st.threads[t].sem.value, t, TIMEOUT);
    } else {
      SleeperWakes(st);
    }
  }

  /** How a thread record looks after its wake-up. */
  function AfterWake(th: Thread): Thread {
    if th.status == TIMEDWAITING then WithStatus(th.(sem := None), TIMEOUT, false) else th
  }

  /** Whose time has come. */
  function DueAt(threads: map<ThreadId, Thread>, time: nat): ThreadId -> bool {
    (t: ThreadId) => WakeOf(threads, t) <= time
  }

  lemma {:induction false} SamePrefix<T(!new)>(s: seq<T>, p: T -> bool, q: T -> bool)
    requires forall x :: p(x) == q(x)
    ensures TakeWhile(s, p) == TakeWhile(s, q) && DropWhile(s, p) == DropWhile(s, q)
  {
    if s != [] { SamePrefix(s[1..], p, q); }
  }

  /** `r` is `st` after waking the threads `woken`, in order: they move from the
      front of the sleep list to the back of the ready queue, and those waiting on
      a semaphore leave its queue, give their unit back and read TIMEOUT. */
  ghost predicate Woken(st: State, r: State, woken: seq<ThreadId>) {
    && st.asleep == woken + r.asleep
    && r == st.(sems := r.sems, ready := st.ready + woken, asleep := r.asleep, threads := r.threads)
    && r.threads.Keys == st.threads.Keys && r.sems.Keys == st.sems.Keys
    && (forall t :: t in st.threads ==> r.threads[t] == if t in woken then AfterWake(st.threads[t]) else st.threads[t])
    && (forall s :: s in st.sems ==> r.sems[s].queue == Minus(st.sems[s].queue, woken))
    && (forall s :: s in st.sems ==> r.sems[s].val == st.sems[s].val + |st.sems[s].queue| - |r.sems[s].queue|)
  }

  lemma NobodyWoken(st: State)
    ensures Woken(st, st, [])
  {
    forall s | s in st.sems ensures st.sems[s].queue == Minus(st.sems[s].queue, []) { MinusNone(st.sems[s].queue, []); }
  }

  lemma MinusOne<T(!new)>(s: seq<T>, x: T)
    requires NoDup(s)
    ensures Minus(s, [x]) == Remove(s, x)
  {
    MinusAfterRemove(s, [x]);
    assert [x][1..] == [];
    MinusNone(Remove(s, x), []);
  }

  /** A sleeper is queued nowhere but, when it waits with a deadline, on its semaphore. */
  lemma FirstSleeper(st: State)
    requires Core(st, true) && st.asleep != []
    ensures var t := st.asleep[0];
            && t in st.threads
            && forall s :: s in st.sems ==>
                 NoDup(st.sems[s].queue) && (t in st.sems[s].queue <==> st.threads[t].sem == Some(s))
  {
    var t := st.asleep[0];
    assert ThreadOk(st, t, true);
    forall s | s in st.sems ensures NoDup(st.sems[s].queue) && (t in st.sems[s].queue <==> st.threads[t].sem == Some(s)) {
      assert SemOk(st, s);
    }
  }

  lemma FirstWoken(st: State)
    requires Core(st, true) && st.asleep != []
    ensures Woken(st, WakeThread(st, st.asleep[0]), [st.asleep[0]])
    ensures forall x :: WakeOf(WakeThread(st, st.asleep[0]).threads, x) == WakeOf(st.threads, x)
  {
    hide Core, Minus, Remove, WakeThread, ThreadOk, NoDup;
    WakeFirst(st);
    var t := st.asleep[0];
    FirstSleeper(st);
    forall s | s in st.sems
      ensures Minus(st.sems[s].queue, [t]) == Remove(st.sems[s].queue, t)
    {
      MinusOne(st.sems[s].queue, t);
    }
  }

  lemma WokenInTurn(st: State, st1: State, r: State, t: ThreadId, woken: seq<ThreadId>)
    requires Woken(st, st1, [t]) && Woken(st1, r, woken) && NoDup(st.asleep)
    requires forall s :: s in st.sems ==> NoDup(st.sems[s].queue)
    ensures Woken(st, r, [t] + woken)
  {
    hide Minus, WithStatus, AfterWake;
    assert st.asleep[0] == t && st.asleep[1..] == st1.asleep;
    TailOfDistinct(st.asleep);
    assert t !in woken by { assert forall x :: x in woken ==> x in st1.asleep; }
    var both := [t] + woken;
    assert st.asleep == both + r.asleep && st1.ready + woken == st.ready + both;
    forall s | s in st.sems ensures r.sems[s].queue == Minus(st.sems[s].queue, both) {
      MinusTwice(st.sems[s].queue, t, woken);
    }
  }

  lemma {:induction false} MinusTwice<T(!new)>(s: seq<T>, x: T, q: seq<T>)
    ensures Minus(Minus(s, [x]), q) == Minus(s, [x] + q)
  {
    if s != [] { MinusTwice(s[1..], x, q); }
  }

  /** Waking stops at the first sleeper whose time has not come: exactly the due
      prefix of the sleep list is woken. */
  lemma {:induction false} WakeAllMeaning(st: State)
    requires Core(st, true)
    ensures var due := DueAt(st.threads, st.time);
            && Core(WakeAll(st, st.asleep), true)
            && Woken(st, WakeAll(st, st.asleep), TakeWhile(st.asleep, due))
            && WakeAll(st, st.asleep).asleep == DropWhile(st.asleep, due)
    decreases |st.asleep|
  {
    hide Core, WakeThread, Woken, WakeOf;
    var due := DueAt(st.threads, st.time);
    NobodyWoken(st);
    if st.asleep != [] && due(st.asleep[0]) {
      var t, st1 := st.asleep[0], WakeThread(st, st.asleep[0]);
      FirstWoken(st);
      WakeFirst(st);
      WakeFirstKeepsCore(st);
      WakeAllMeaning(st1);
      SamePrefix(st1.asleep, DueAt(st1.threads, st1.time), due);
      CoreQueues(st);
      WokenInTurn(st, st1, WakeAll(st1, st1.asleep), t, TakeWhile(st1.asleep, due));
    }
  }

  lemma CoreQueues(st: State)
    requires Core(st, true)
    ensures NoDup(st.asleep) && forall s :: s in st.sems ==> NoDup(st.sems[s].queue)
  {
    forall s | s in st.sems ensures NoDup(st.sems[s].queue) { assert SemOk(st, s); }
  }

  /** The due prefix is all that is due: everyone left sleeps past the present. */
  lemma NobodyDueIsLeft(st: State)
    requires Core(st, true)
    ensures forall t :: t in DropWhile(st.asleep, DueAt(st.threads, st.time)) ==> st.time < WakeOf(st.threads, t)
    ensures forall t :: t in TakeWhile(st.asleep, DueAt(st.threads, st.time)) <==> t in st.asleep && WakeOf(st.threads, t) <= st.time
  {
    hide TakeWhile, DropWhile, Core, WakeOf;
    var due := DueAt(st.threads, st.time);
    var a, woken, rest := st.asleep, TakeWhile(st.asleep, due), DropWhile(st.asleep, due);
    assert SleepSorted(st.threads, a) by { CoreSorted(st); }
    LeftSleepLonger(st.threads, st.time, a);
    assert forall t :: t in a <==> t in woken || t in rest;
    assert forall t :: t in woken ==> due(t);
  }

  lemma CoreSorted(st: State)
    requires Core(st, true)
    ensures SleepSorted(st.threads, st.asleep)
  {
  }

  lemma LeftSleepLonger(threads: map<ThreadId, Thread>, time: nat, a: seq<ThreadId>)
    requires SleepSorted(threads, a)
    ensures forall t :: t in DropWhile(a, DueAt(threads, time)) ==> time < WakeOf(threads, t)
  {
    hide TakeWhile, DropWhile, WakeOf;
    var due := DueAt(threads, time);
    var woken, rest := TakeWhile(a, due), DropWhile(a, due);
    forall t | t in rest ensures time < WakeOf(threads, t) {
      var i :| 0 <= i < |rest| && rest[i] == t;
      assert rest[i] == a[|woken| + i] && rest[0] == a[|woken|] && !due(rest[0]);
    }
  }
}
