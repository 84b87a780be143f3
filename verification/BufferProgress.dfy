/** The bounded buffer never deadlocks. */
module BufferProgress {
  import opened ListSpec
  import opened KernelState
  import opened KernelInvariant
  import opened KernelDispatch
  import opened KernelRuns
  import opened BoundedBuffer

  predicate Inside(b: Buffer, t: ThreadId) { t in b.at && b.at[t] != Outside }

  /** Queued on one of the buffer's semaphores. */
  ghost predicate Queued(b: Buffer, t: ThreadId) {
    exists role :: SemOf(b, role) in b.k.sems && t in b.k.sems[SemOf(b, role)].queue
  }

  /** Nobody inside an operation was killed or has exited. */
  ghost predicate InsideLive(b: Buffer) { forall t :: Inside(b, t) ==> Live(b.k, t) }

  /** Suspended by a call of its own that has nothing to do with the buffer. */
  predicate SuspendedElsewhere(b: Buffer, t: ThreadId) {
    t in b.k.threads && (t in b.k.asleep || (b.k.threads[t].sem.Some? && !Mine(b, b.k.threads[t].sem.value)))
  }

  /** A thread stands at one wait only. */
  lemma WaitsAtOne(role: Role, other: Role, p: Place)
    ensures WaitsAt(role, p) && WaitsAt(other, p) ==> role == other
    ensures WaitsAt(role, p) ==> p != Outside
  {
  }

  lemma QueuedWaitsThere(b: Buffer, role: Role, t: ThreadId)
    requires BufferInv(b) && SemOf(b, role) in b.k.sems && t in b.k.sems[SemOf(b, role)].queue
    ensures Inside(b, t) && WaitsAt(role, b.at[t]) && Queued(b, t)
  {
    hide Inv, Accounts, Contents, WaitsAt;
    assert QueueMatches(b, role);
    WaitsAtOne(role, role, b.at[t]);
  }

  /** Whoever holds the tail mutex is queued on nothing of the buffer's; whoever holds
      the head mutex can be queued only for the tail mutex. */
  lemma TailHolderIsFree(b: Buffer, t: ThreadId)
    requires BufferInv(b) && b.mutexTail in b.k.sems && t in Holders(b.at, TailMutex, b.k.sems[b.mutexTail].queue)
    ensures Inside(b, t) && !Queued(b, t)
  {
    hide Inv, Accounts, Contents;
    if role :| SemOf(b, role) in b.k.sems && t in b.k.sems[SemOf(b, role)].queue { QueuedWaitsThere(b, role, t); }
  }

  lemma HeadHolderWaitsForTail(b: Buffer, t: ThreadId)
    requires BufferInv(b) && b.mutexHead in b.k.sems && t in Holders(b.at, HeadMutex, b.k.sems[b.mutexHead].queue)
    ensures Inside(b, t) && (Queued(b, t) ==> b.mutexTail in b.k.sems && b.k.sems[b.mutexTail].queue != [])
  {
    hide Inv, Accounts, Contents;
    if role :| SemOf(b, role) in b.k.sems && t in b.k.sems[SemOf(b, role)].queue { QueuedWaitsThere(b, role, t); }
  }

  /** A semaphore with a queue has no units left. */
  lemma QueueMeansNoUnits(b: Buffer, role: Role)
    requires BufferInv(b) && SemOf(b, role) in b.k.sems && b.k.sems[SemOf(b, role)].queue != []
    ensures Units(b.k.sems[SemOf(b, role)]) == 0
  {
    hide Core, Accounts, Contents;
    InvQueue(b.k, SemOf(b, role));
  }

  lemma MutexHasHolder(b: Buffer, role: Role) returns (t: ThreadId)
    requires BufferInv(b) && (role == HeadMutex || role == TailMutex)
    requires SemOf(b, role) in b.k.sems && b.k.sems[SemOf(b, role)].queue != []
    ensures t in Holders(b.at, role, b.k.sems[SemOf(b, role)].queue)
  {
    hide Inv, Contents, Holders;
    QueueMeansNoUnits(b, role);
    var hs := Holders(b.at, role, b.k.sems[SemOf(b, role)].queue);
    assert |hs| == 1;
    t :| t in hs;
  }

  /** If somebody waits for a mutex, some thread inside waits for nothing of the
      buffer's: the head mutex is taken before the tail mutex, and whoever holds the
      tail mutex waits no more. */
  lemma MutexesProgress(b: Buffer) returns (t: ThreadId)
    requires BufferInv(b) && b.mutexHead in b.k.sems && b.mutexTail in b.k.sems
    requires b.k.sems[b.mutexHead].queue != [] || b.k.sems[b.mutexTail].queue != []
    ensures Inside(b, t) && !Queued(b, t)
  {
    hide BufferInv, Inside, Queued, Holders;
    if b.k.sems[b.mutexTail].queue != [] {
      t := MutexHasHolder(b, TailMutex);
      TailHolderIsFree(b, t);
    } else {
      t := MutexHasHolder(b, HeadMutex);
      HeadHolderWaitsForTail(b, t);
    }
  }

  /** Whoever is inside has run, so it is a thread that can be scheduled. */
  predicate InsideScheduled(b: Buffer) {
    forall t :: t in b.at ==> t < b.k.nextThread && (t in b.k.threads ==> Scheduled(t, b.k.threads[t]))
  }

  lemma ActKeepsScheduled(b: Buffer, a: Action)
    requires BufferInv(b) && Permitted(b, a) && InsideScheduled(b)
    ensures SysCall(b, a).Some? ==> Defined(b.k, SysCall(b, a).value)
    ensures InsideScheduled(Act(b, a))
  {
    hide Core, Accounts, Contents, QueueMatches, Permitted, SysCall, PlaceAfter, RingAfter, Allowed, Defined, Next;
    ActKeepsInv(b, a);
    RunningIsScheduled(b.k);
    forall t | t in Act(b, a).at
      ensures t < Act(b, a).k.nextThread && (t in Act(b, a).k.threads ==> Scheduled(t, Act(b, a).k.threads[t]))
    {
      if SysCall(b, a).Some? {
        SysCallIsAllowed(b, a);
        FinishedForGood(b.k, SysCall(b, a).value, t);
      }
    }
  }

  lemma RunningIsScheduled(st: State)
    requires Core(st, true)
    ensures st.running in st.threads && st.running < st.nextThread && Scheduled(st.running, st.threads[st.running])
  {
    RunningFacts(st);
    assert ThreadOk(st, st.running, true);
  }

  /** In every run of the buffer, the invariant and this hold throughout. */
  lemma {:induction false} EveryRunSchedules(bs: seq<Buffer>, acts: seq<Action>, i: nat)
    requires BufferRun(bs, acts) && InsideScheduled(bs[0]) && i <= |acts|
    ensures |bs| == |acts| + 1 && BufferInv(bs[i]) && InsideScheduled(bs[i])
  {
    hide BufferInv, Permitted, Defined, Act, SysCall, InsideScheduled;
    if i > 0 {
      EveryRunSchedules(bs, acts, i - 1);
      assert ActLeads(bs[i - 1], acts[i - 1], bs[i]);
      ActKeepsInv(bs[i - 1], acts[i - 1]);
      ActKeepsScheduled(bs[i - 1], acts[i - 1]);
    }
  }

  /** A live thread that the buffer does not hold up can run: it is running or in
      the ready queue, unless it suspended itself on something else. */
  lemma FreeThreadsRun(b: Buffer, t: ThreadId)
    requires BufferInv(b) && InsideLive(b) && InsideScheduled(b) && Inside(b, t) && !Queued(b, t)
    ensures Live(b.k, t) && (t == b.k.running || t in b.k.ready || SuspendedElsewhere(b, t))
  {
    hide Accounts, Contents, QueueMatches;
    assert ThreadOk(b.k, t, true);
    if b.k.threads[t].sem.Some? { MineIsQueued(b, t, b.k.threads[t].sem.value); }
  }

  lemma MineIsQueued(b: Buffer, t: ThreadId, s: SemId)
    ensures Mine(b, s) && s in b.k.sems && t in b.k.sems[s].queue ==> Queued(b, t)
  {
    var role := if s == b.space then Space else if s == b.item then Item else if s == b.mutexHead then HeadMutex else TailMutex;
    assert Mine(b, s) ==> SemOf(b, role) == s;
  }

  /** Freedom from deadlock. When every thread inside is queued, nobody waits for a
      mutex; if somebody waits for space the buffer is full, and if somebody waits
      for an item it is empty. */
  lemma NoDeadlock(b: Buffer)
    requires BufferInv(b) && SemsApart(b) && forall t :: Inside(b, t) ==> Queued(b, t)
    ensures b.k.sems[b.mutexHead].queue == [] && b.k.sems[b.mutexTail].queue == []
    ensures b.k.sems[b.space].queue != [] ==> Unread(b) == Capacity(b)
    ensures b.k.sems[b.item].queue != [] ==> Unread(b) == 0
  {
    hide Inv, Contents, Inside, Queued, Holders, Storers, Takers;
    if b.k.sems[b.mutexHead].queue != [] || b.k.sems[b.mutexTail].queue != [] {
      var t := MutexesProgress(b);
      assert false;
    }
    NobodyBetween(b);
    NoHolders(b, Space);
    NoHolders(b, Item);
    if b.k.sems[b.space].queue != [] { QueueMeansNoUnits(b, Space); }
    if b.k.sems[b.item].queue != [] { QueueMeansNoUnits(b, Item); }
  }

  /** Threads that are all queued stand at the waits they are queued for. */
  lemma QueuedAtWait(b: Buffer, t: ThreadId) returns (role: Role)
    requires BufferInv(b) && Inside(b, t) && Queued(b, t)
    ensures SemOf(b, role) in b.k.sems && t in b.k.sems[SemOf(b, role)].queue && WaitsAt(role, b.at[t])
  {
    hide BufferInv, WaitsAt;
    role :| SemOf(b, role) in b.k.sems && t in b.k.sems[SemOf(b, role)].queue;
    QueuedWaitsThere(b, role, t);
  }

  lemma NobodyBetween(b: Buffer)
    requires BufferInv(b) && forall t :: Inside(b, t) ==> Queued(b, t)
    ensures Storers(b.at) == {} && Takers(b.at) == {}
  {
    hide BufferInv, Queued;
    forall t | t in b.at ensures !HasStored(b.at[t]) && !HasTaken(b.at[t]) {
      if Inside(b, t) { var role := QueuedAtWait(b, t); }
    }
  }

  lemma NoHolders(b: Buffer, role: Role)
    requires BufferInv(b) && SemOf(b, role) in b.k.sems && (role == Space || role == Item)
    requires SemsApart(b) && b.k.sems[b.mutexHead].queue == [] && b.k.sems[b.mutexTail].queue == []
    requires forall t :: Inside(b, t) ==> Queued(b, t)
    ensures Holders(b.at, role, b.k.sems[SemOf(b, role)].queue) == {}
  {
    hide BufferInv, Queued;
    forall t | t in b.at && Engaged(role, b.at[t]) ensures WaitsAt(role, b.at[t]) && t in b.k.sems[SemOf(b, role)].queue {
      assert Inside(b, t);
      var at := QueuedAtWait(b, t);
    }
  }

  lemma WaitForSpaceOrItem(b: Buffer, t: ThreadId)
    requires BufferInv(b) && SemsApart(b) && Inside(b, t) && Queued(b, t)
    requires b.k.sems[b.mutexHead].queue == [] && b.k.sems[b.mutexTail].queue == []
    ensures t in b.k.sems[b.space].queue || t in b.k.sems[b.item].queue
  {
    hide BufferInv, Queued;
    var role := QueuedAtWait(b, t);
  }

  lemma BufferFacts(b: Buffer)
    requires BufferInv(b)
    ensures SemsApart(b) && Capacity(b) >= 0
  {
    hide Inv, Accounts, Contents, QueueMatches;
  }

  /** Some thread inside is not held up by the buffer: it runs, can be selected, or
      suspended itself elsewhere. */
  ghost predicate CanProceed(b: Buffer) {
    exists t :: Inside(b, t) && Live(b.k, t) && (t == b.k.running || t in b.k.ready || SuspendedElsewhere(b, t))
  }

  /** At every point of every run, as long as nobody inside was killed or has exited:
      nobody is inside, or some thread inside can proceed, or all of them wait for space and the buffer is
      full, or all of them wait for an item and it is empty. */
  lemma NeverStuck(bs: seq<Buffer>, acts: seq<Action>, i: nat)
    requires BufferRun(bs, acts) && InsideScheduled(bs[0]) && i <= |acts| && InsideLive(bs[i]) && Capacity(bs[i]) > 0
    ensures SemsApart(bs[i])
    ensures var b := bs[i];
            || CanProceed(b) || (forall t :: !Inside(b, t))
            || (Unread(b) == Capacity(b) && forall t :: Inside(b, t) ==> t in b.k.sems[b.space].queue)
            || (Unread(b) == 0 && forall t :: Inside(b, t) ==> t in b.k.sems[b.item].queue)
  {
    hide BufferInv, BufferRun, Queued, Inside, InsideLive, InsideScheduled, Live, SuspendedElsewhere;
    EveryRunSchedules(bs, acts, i);
    var b := bs[i];
    BufferFacts(b);
    if t :| Inside(b, t) && !Queued(b, t) {
      FreeThreadsRun(b, t);
    } else {
      NoDeadlock(b);
      forall t | Inside(b, t) ensures t in b.k.sems[b.space].queue || t in b.k.sems[b.item].queue { WaitForSpaceOrItem(b, t); }
    }
  }
}
