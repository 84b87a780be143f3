/** The state of the thread kernel and its steps: one system call or one timer
    tick is one step, because traps run to completion on the single core. A
    context switch is a change of `running` followed by the rest of the system
    call in which the selected thread was suspended. */
module KernelState {
  import opened ListSpec

  type ThreadId = nat
  type SemId = nat

  const TIME_RANGE: int := 0x1_0000_0000_0000_0000
  const SIGN_BIT: int := 0x8000_0000_0000_0000
  const DEFAULT_TIME_SLICE := 2
  const MAIN: ThreadId := 0

  datatype RunState = RUNNING | READY | SUSPENDED | FINISHED

  datatype SemStatus = NON_WAITING | WAITING | TIMEDWAITING | REGULARLY_WAITED | TIMEOUT | SEM_DELETED

  /** The system call a thread is suspended in: what is left to do when it is
      selected again. */
  datatype Resume = Plainly | InBlock | InTimedBlock | InSleep

  // What a wait returns.
  const SEM_DIDNTWAIT := 1
  const SEM_OKAYWAITED := 0
  const SEM_DEAD := -1
  const SEM_TIMEOUT := -2
  const SEM_ERROR := -5

  // What a kill returns.
  const THREAD_IS_INVALID_ERR := -10

  /** `answer` is what the thread's latest wait returned. */
  datatype Thread = Thread(state: RunState, status: SemStatus, sem: Option<SemId>, wake: nat,
                           parent: Option<ThreadId>, body: bool, resume: Resume, answer: int)

  datatype Sem = Sem(val: int, queue: seq<ThreadId>)

  /** A thread or semaphore exists while it is a key of its map; identities are
      not used twice. */
  datatype State = State(running: ThreadId, ready: seq<ThreadId>, asleep: seq<ThreadId>,
                         threads: map<ThreadId, Thread>, sems: map<SemId, Sem>,
                         time: nat, cpu: nat, nextThread: ThreadId, nextSem: SemId)

  // ------------------------------------------------------------- field updates

  function SetThread(st: State, t: ThreadId, th: Thread): State { st.(threads := st.threads[t := th]) }
  function SetSem(st: State, s: SemId, m: Sem): State { st.(sems := st.sems[s := m]) }
  function PutReady(st: State, t: ThreadId): State { st.(ready := st.ready + [t]) }

  /** A semaphore status and the run state that goes with it; a finished thread
      keeps both. */
  function WithStatus(th: Thread, status: SemStatus, isRunning: bool): Thread {
    if th.state == FINISHED then th
    else th.(status := status,
             state := if status == WAITING || status == TIMEDWAITING then SUSPENDED
                      else if isRunning then RUNNING else READY)
  }

  function WakeOf(threads: map<ThreadId, Thread>, t: ThreadId): nat {
    if t in threads then threads[t].wake else 0
  }

  /** The order of the sleep list. */
  function SmallerSleepTime(threads: map<ThreadId, Thread>): Comparer<ThreadId> {
    (a: ThreadId, b: ThreadId) => WakeOf(threads, a) < WakeOf(threads, b)
  }

  function InsertAsleep(st: State, t: ThreadId): State {
    st.(asleep := Insert(st.asleep, t, SmallerSleepTime(st.threads)))
  }

  // ---------------------------------------------------------------- semaphores

  function Unblock(st: State, s: SemId, cause: SemStatus): State
    requires s in st.sems && st.sems[s].queue != [] && st.sems[s].queue[0] in st.threads
  {
    var m := st.sems[s];
    var t := m.queue[0];
    var th := st.threads[t];
    var st1 := SetSem(st, s, m.(queue := m.queue[1..]));
    var st2 := if th.status == TIMEDWAITING then st1.(asleep := Remove(st1.asleep, t)) else st1;
    PutReady(SetThread(st2, t, WithStatus(th.(sem := None), cause, t == st.running)), t)
  }

  /** One more unit for `s`: kept, or passed on to the first waiter. */
  function Signal(st: State, s: SemId): State
    requires s in st.sems && (st.sems[s].val < 0 ==> st.sems[s].queue != [] && st.sems[s].queue[0] in st.threads)
  {
    var m := st.sems[s];
    var st1 := SetSem(st, s, m.(val := m.val + 1));
    if m.val + 1 > 0 then st1 else Unblock(st1, s, REGULARLY_WAITED)
  }

  /** Releases every waiter with `cause`. */
  function UnblockAll(st: State, s: SemId, cause: SemStatus): (r: State)
    requires s in st.sems && -st.sems[s].val <= |st.sems[s].queue|
    requires forall t :: t in st.sems[s].queue ==> t in st.threads
    ensures s in r.sems
    decreases -st.sems[s].val
  {
    var m := st.sems[s];
    if m.val >= 0 then st
    else
      var st1 := Unblock(st, s, cause);
      UnblockAll(SetSem(st1, s, st1.sems[s].(val := m.val + 1)), s, cause)
  }

  function Close(st: State, s: SemId): State
    requires s in st.sems && -st.sems[s].val <= |st.sems[s].queue|
    requires forall t :: t in st.sems[s].queue ==> t in st.threads
  {
    var st1 := UnblockAll(st, s, SEM_DELETED);
    st1.(sems := st1.sems - {s})
  }

  /** A timed waiter whose time is up leaves its semaphore and gives its unit back. */
  function UnblockedByTime(st: State, s: SemId, t: ThreadId): State
    requires s in st.sems && t in st.threads
  {
    var th, m := st.threads[t], st.sems[s];
    if th.status != TIMEDWAITING then st
    else
      var st1 := SetSem(st, s, Sem(m.val + 1, Remove(m.queue, t)));
      var st2 := st1.(asleep := Remove(st.asleep, t));
      PutReady(SetThread(st2, t, WithStatus(th.(sem := None), TIMEOUT, t == st.running)), t)
  }

  // ---------------------------------------------------------------- timer wake-up

  function Due(st: State, t: ThreadId): bool { WakeOf(st.threads, t) <= st.time }

  function WakeThread(st: State, t: ThreadId): State {
    if t !in st.threads then st
    else
      var th := st.threads[t];
      if th.status == TIMEDWAITING then
        if th.sem.Some? && th.sem.value in st.sems then UnblockedByTime(st, th.sem.value, t) else st
      else if t in st.asleep then PutReady(st.(asleep := Remove(st.asleep, t)), t)
      else st
  }

  /** The iteration over the sleep list: `pending` is what the saved next pointer
      leads to. */
  function WakeAll(st: State, pending: seq<ThreadId>): State
    decreases |pending|
  {
    if pending == [] || !Due(st, pending[0]) then st
    else WakeAll(WakeThread(st, pending[0]), pending[1..])
  }

  // -------------------------------------------------------------------- dispatch

  /** The outgoing thread goes to the back of the ready queue if it can still run
      and is deleted if it has finished. */
  function Park(st: State): State
    requires st.running in st.threads
  {
    var th := st.threads[st.running];
    var st1 := st.(cpu := 0);
    if th.state == READY || th.state == RUNNING then PutReady(SetThread(st1, st.running, th.(state := READY)), st.running)
    else if th.state == FINISHED then st1.(threads := st.threads - {st.running})
    else st1
  }

  predicate Dead(st: State, t: ThreadId) { t !in st.threads || st.threads[t].state == FINISHED }

  function DeleteDead(st: State, t: ThreadId): State {
    var st1 := st.(ready := Remove(st.ready, t));
    if t in st.ready && t in st.threads && st.threads[t].state == FINISHED then st1.(threads := st.threads - {t}) else st1
  }

  /** The iteration over the front of the ready queue that deletes finished threads. */
  function DropDead(st: State, pending: seq<ThreadId>): State
    decreases |pending|
  {
    if pending == [] || !Dead(st, pending[0]) then st
    else DropDead(DeleteDead(st, pending[0]), pending[1..])
  }

  function ResponseTo(status: SemStatus): int {
    match status
    case NON_WAITING => SEM_DIDNTWAIT
    case WAITING => SEM_ERROR
    case TIMEDWAITING => SEM_ERROR
    case SEM_DELETED => SEM_DEAD
    case REGULARLY_WAITED => SEM_OKAYWAITED
    case TIMEOUT => SEM_TIMEOUT
  }

  /** What a selected thread does before it is back in its own code. */
  function Resumed(th: Thread): Thread {
    match th.resume
    case Plainly => th.(state := RUNNING)
    case InBlock => WithStatus(th.(state := RUNNING, resume := Plainly, sem := None, answer := ResponseTo(th.status)), NON_WAITING, true)
    case InTimedBlock =>
      WithStatus(th.(state := RUNNING, resume := Plainly, sem := None, wake := 0, answer := ResponseTo(th.status)), NON_WAITING, true)
    case InSleep => th.(state := READY, resume := Plainly, wake := 0)
  }

  function Select(st: State): State
    requires st.ready != [] && st.ready[0] in st.threads
  {
    var t := st.ready[0];
    SetThread(st.(running := t, ready := st.ready[1..]), t, Resumed(st.threads[t]))
  }

  /** Some thread is left to run once the front of the ready queue is cleaned. */
  predicate CanSelect(st: State) {
    var st1 := DropDead(st, st.ready);
    st1.ready != [] && st1.ready[0] in st1.threads
  }

  function Reschedule(st: State): State
    requires CanSelect(st)
  {
    Select(DropDead(st, st.ready))
  }

  predicate CanDispatch(st: State) { st.running in st.threads && CanSelect(Park(st)) }

  function Dispatch(st: State): State
    requires CanDispatch(st)
  {
    Reschedule(Park(st))
  }

  // ---------------------------------------------------------------- system calls

  function Finished(st: State): State
    requires st.running in st.threads
  {
    SetThread(st, st.running, st.threads[st.running].(state := FINISHED))
  }

  /** The code a kill returns; only code 0 kills. */
  function KillCode(st: State, t: ThreadId): int {
    if t !in st.threads then THREAD_IS_INVALID_ERR
    else if st.threads[t].parent != Some(st.running) then -2
    else if st.running == t then -3
    else 0
  }

  function Kill(st: State, t: ThreadId): State {
    if KillCode(st, t) == 0 then SetThread(st, t, st.threads[t].(state := FINISHED)) else st
  }

  /** A new thread, a child of the running one; without a body it is never queued. */
  function Create(st: State, body: bool): State {
    var t := st.nextThread;
    var th := Thread(READY, NON_WAITING, None, 0, Some(st.running), body, Plainly, 0);
    var st1 := SetThread(st.(nextThread := t + 1), t, th);
    if body then PutReady(st1, t) else st1
  }

  /** The constructor converts its unsigned argument to the signed `val`. */
  function Signed(n: nat): int { if n < SIGN_BIT then n else n - TIME_RANGE }

  function Open(st: State, n: nat): State {
    SetSem(st.(nextSem := st.nextSem + 1), st.nextSem, Sem(Signed(n), []))
  }

  function ClampedSleep(d: nat): nat { if d > SIGN_BIT then d / 2 else d }

  /** The running thread on the sleep list, before the dispatch. */
  function PutToSleep(st: State, d: nat): State
    requires st.running in st.threads
  {
    var th := st.threads[st.running].(state := SUSPENDED, wake := (st.time + d) % TIME_RANGE, resume := InSleep);
    InsertAsleep(SetThread(st, st.running, th), st.running)
  }

  /** A wait that need not block takes its unit and returns at once. */
  function TakeUnit(st: State, s: SemId): State
    requires s in st.sems && st.running in st.threads
  {
    SetThread(SetSem(st, s, st.sems[s].(val := st.sems[s].val - 1)), st.running, st.threads[st.running].(answer := SEM_DIDNTWAIT))
  }

  /** The running thread queued on `s`, before the dispatch. */
  function Block(st: State, s: SemId): State
    requires s in st.sems && st.running in st.threads
  {
    var m := st.sems[s];
    var th := WithStatus(st.threads[st.running], WAITING, true).(sem := Some(s), resume := InBlock);
    SetThread(SetSem(st, s, Sem(m.val - 1, m.queue + [st.running])), st.running, th)
  }

  function TimedBlock(st: State, s: SemId, d: nat): State
    requires s in st.sems && st.running in st.threads
  {
    var m := st.sems[s];
    var th := WithStatus(st.threads[st.running], TIMEDWAITING, true)
              .(sem := Some(s), resume := InTimedBlock, wake := (d + st.time) % TIME_RANGE);
    InsertAsleep(SetThread(SetSem(st, s, Sem(m.val - 1, m.queue + [st.running])), st.running, th), st.running)
  }

  function Advance(st: State): State { st.(time := (st.time + 1) % TIME_RANGE, cpu := st.cpu + 1) }

  /** Clock and wake-up part of a tick. */
  function TickWakes(st: State): State {
    var st1 := Advance(st);
    WakeAll(st1, st1.asleep)
  }

  datatype Step =
    | DoCreate(body: bool)
    | DoDispatch
    | DoExit
    | DoKill(target: ThreadId)
    | DoSleep(d: nat)
    | DoOpen(n: nat)
    | DoWait(s: SemId)
    | DoTimedWait(s: SemId, d: nat)
    | DoSignal(s: SemId)
    | DoClose(s: SemId)
    | DoTick

  function TheSem(step: Step): Option<SemId> {
    match step
    case DoWait(s) => Some(s)
    case DoTimedWait(s, _) => Some(s)
    case DoSignal(s) => Some(s)
    case DoClose(s) => Some(s)
    case _ => None
  }

  /** What callers owe the kernel: semaphore handles are live, a new semaphore's
      value fits its signed counter, durations are 64-bit, and the main thread
      never blocks, sleeps or exits. */
  predicate Allowed(st: State, step: Step) {
    && (TheSem(step).Some? ==> TheSem(step).value in st.sems)
    && (st.running == MAIN ==> !step.DoExit? && !step.DoSleep? && !step.DoWait? && !step.DoTimedWait?)
    && (step.DoOpen? ==> step.n < SIGN_BIT)
    && (step.DoSleep? || step.DoTimedWait? ==> step.d < TIME_RANGE)
  }

  function MustBlock(st: State, s: SemId): bool
    requires s in st.sems
  {
    st.sems[s].val - 1 < 0
  }

  /** Whether the step gives up the processor. */
  predicate Dispatches(st: State, step: Step)
    requires TheSem(step).Some? ==> TheSem(step).value in st.sems
  {
    match step
    case DoDispatch => true
    case DoExit => true
    case DoSleep(_) => true
    case DoWait(s) => MustBlock(st, s)
    case DoTimedWait(s, _) => MustBlock(st, s)
    case DoTick => st.cpu + 1 >= DEFAULT_TIME_SLICE
    case _ => false
  }

  /** What the step's own work relies on. */
  predicate EffectDefined(st: State, step: Step) {
    && st.running in st.threads
    && (TheSem(step).Some? ==> TheSem(step).value in st.sems)
    && match step
       case DoSignal(s) => st.sems[s].val < 0 ==> st.sems[s].queue != [] && st.sems[s].queue[0] in st.threads
       case DoClose(s) => -st.sems[s].val <= |st.sems[s].queue| && forall t :: t in st.sems[s].queue ==> t in st.threads
       case _ => true
  }

  /** The step's own work, up to the dispatch if there is one. */
  function Effect(st: State, step: Step): State
    requires EffectDefined(st, step)
  {
    match step
    case DoCreate(body) => Create(st, body)
    case DoDispatch => st
    case DoExit => Finished(st)
    case DoKill(t) => Kill(st, t)
    case DoSleep(d) => PutToSleep(st, ClampedSleep(d))
    case DoOpen(n) => Open(st, n)
    case DoWait(s) => if MustBlock(st, s) then Block(st, s) else TakeUnit(st, s)
    case DoTimedWait(s, d) => if MustBlock(st, s) then TimedBlock(st, s, d) else TakeUnit(st, s)
    case DoSignal(s) => Signal(st, s)
    case DoClose(s) => Close(st, s)
    case DoTick => TickWakes(st)
  }

  /** Nothing the step reads is missing: no queue is empty that must not be, and a
      thread is found to run next. */
  predicate Defined(st: State, step: Step) {
    EffectDefined(st, step) && (Dispatches(st, step) ==> CanDispatch(Effect(st, step)))
  }

  function Next(st: State, step: Step): State
    requires Defined(st, step)
  {
    if Dispatches(st, step) then Dispatch(Effect(st, step)) else Effect(st, step)
  }

  /** After the main thread has been created. */
  function InitialState(): State {
    State(MAIN, [], [], map[MAIN := Thread(RUNNING, NON_WAITING, None, 0, None, false, Plainly, 0)], map[], 0, 0, 1, 0)
  }
}
