/** The bounded buffer that any number of threads use under the preemptive kernel.
    Its operations are broken into the statements between which the timer may
    switch threads; each semaphore call is a step of the kernel itself. */
module BoundedBuffer {
  import opened ListSpec
  import opened KernelState
  import opened KernelInvariant
  import opened KernelDispatch
  import opened KernelRuns

  // ------------------------------------------------------------------ the ring

  /** The array with its two positions. */
  datatype Ring = Ring(slots: seq<int>, head: nat, tail: nat)

  predicate RingOk(r: Ring) { r.head < |r.slots| && r.tail < |r.slots| }

  function StoreAtTail(r: Ring, v: int): Ring requires RingOk(r) { r.(slots := r.slots[r.tail := v]) }
  function AdvanceTail(r: Ring): Ring requires RingOk(r) { r.(tail := (r.tail + 1) % |r.slots|) }
  function AdvanceHead(r: Ring): Ring requires RingOk(r) { r.(head := (r.head + 1) % |r.slots|) }
  function ReadHead(r: Ring): int requires RingOk(r) { r.slots[r.head] }

  function CountOf(r: Ring): int requires RingOk(r) {
    if r.tail >= r.head then r.tail - r.head else |r.slots| - r.head + r.tail
  }

  /** The array itself, as the statements of the operations change it. */
  class RingArray {
    const buffer: array<int>
    var head: nat
    var tail: nat

    function View(): Ring
      reads this, buffer
    {
      Ring(buffer[..], head, tail)
    }

    constructor (cap: nat)
      ensures RingOk(View()) && buffer.Length == cap + 1 && head == tail == 0 && fresh(buffer)
    {
      buffer := new int[cap + 1];
      head, tail := 0, 0;
    }

    method Store(v: int)
      requires RingOk(View())
      modifies buffer
      ensures View() == StoreAtTail(old(View()), v)
    {
      buffer[tail] := v;
    }

    method MoveTail()
      requires RingOk(View())
      modifies this`tail
      ensures View() == AdvanceTail(old(View())) && RingOk(View())
    {
      tail := (tail + 1) % buffer.Length;
    }

    method Read() returns (ret: int)
      requires RingOk(View())
      ensures ret == ReadHead(View())
    {
      ret := buffer[head];
    }

    method MoveHead()
      requires RingOk(View())
      modifies this`head
      ensures View() == AdvanceHead(old(View())) && RingOk(View())
    {
      head := (head + 1) % buffer.Length;
    }

    /** How many slots lie from the head to the tail, going round. */
    method Count() returns (ret: int)
      requires RingOk(View())
      ensures 0 <= ret < buffer.Length && (head + ret) % buffer.Length == tail
    {
      if tail >= head {
        ret := tail - head;
      } else {
        ret := buffer.Length - head + tail;
      }
    }
  }

  /** There is only one such distance. */
  lemma DistanceIsCount(r: Ring, n: int)
    requires RingOk(r)
    ensures 0 <= n < |r.slots| && (r.head + n) % |r.slots| == r.tail <==> n == CountOf(r)
  {
    var size := |r.slots|;
    if 0 <= n < size {
      ModAdd(r.head, n, size);
      Remainder(size, 0, r.head);
    }
  }

  // --------------------------------------------------------- threads at work

  /** How far a thread is in its current operation: the last statement begun. A
      thread whose last statement was a wait that blocked is still queued. */
  datatype Place =
    | Outside
    | PutSpace(v: int)      // waited for space
    | PutTail(v: int)       // waited for the tail mutex
    | PutStored(v: int)     // stored the value
    | PutMoved              // advanced tail
    | PutUnlocked           // signalled the tail mutex
    | GetItem               // waited for an item
    | GetHead               // waited for the head mutex
    | GetRead(ret: int)     // read the value
    | GetMoved(ret: int)    // advanced head
    | GetUnlocked(ret: int) // signalled the head mutex
    | CountHead             // waited for the head mutex
    | CountTail             // waited for the tail mutex
    | Counted(ret: int)     // computed the count
    | CountUnlocked(ret: int) // signalled the tail mutex

  /** `stored` and `taken` are the values in the order in which the tail and the
      head advanced over them. */
  datatype Buffer = Buffer(k: State, at: map<ThreadId, Place>, ring: Ring,
                           space: SemId, item: SemId, mutexHead: SemId, mutexTail: SemId,
                           stored: seq<int>, taken: seq<int>)

  datatype Action =
    | CallPut(v: int)
    | CallGet
    | CallCount
    | GoOn           // the running thread's next statement
    | Other(step: Step)

  function Lookup(at: map<ThreadId, Place>, t: ThreadId): Place { if t in at then at[t] else Outside }

  function Here(b: Buffer): Place { Lookup(b.at, b.k.running) }

  /** The system call an action makes, if any. */
  function SysCall(b: Buffer, a: Action): Option<Step> {
    match a
    case CallPut(_) => Some(DoWait(b.space))
    case CallGet => Some(DoWait(b.item))
    case CallCount => Some(DoWait(b.mutexHead))
    case Other(step) => Some(step)
    case GoOn =>
      match Here(b)
      case PutSpace(_) => Some(DoWait(b.mutexTail))
      case PutMoved => Some(DoSignal(b.mutexTail))
      case PutUnlocked => Some(DoSignal(b.item))
      case GetItem => Some(DoWait(b.mutexHead))
      case GetMoved(_) => Some(DoSignal(b.mutexHead))
      case GetUnlocked(_) => Some(DoSignal(b.space))
      case CountHead => Some(DoWait(b.mutexTail))
      case Counted(_) => Some(DoSignal(b.mutexTail))
      case CountUnlocked(_) => Some(DoSignal(b.mutexHead))
      case _ => None
  }

  /** Where the action leaves the running thread. */
  function PlaceAfter(b: Buffer, a: Action): Place
    requires RingOk(b.ring)
  {
    match a
    case CallPut(v) => PutSpace(v)
    case CallGet => GetItem
    case CallCount => CountHead
    case Other(_) => Here(b)
    case GoOn =>
      match Here(b)
      case PutSpace(v) => PutTail(v)
      case PutTail(v) => PutStored(v)
      case PutStored(_) => PutMoved
      case PutMoved => PutUnlocked
      case GetItem => GetHead
      case GetHead => GetRead(ReadHead(b.ring))
      case GetRead(ret) => GetMoved(ret)
      case GetMoved(ret) => GetUnlocked(ret)
      case CountHead => CountTail
      case CountTail => Counted(CountOf(b.ring))
      case Counted(ret) => CountUnlocked(ret)
      case _ => Outside
  }

  function RingAfter(b: Buffer, a: Action): Ring
    requires RingOk(b.ring)
  {
    if a != GoOn then b.ring
    else match Here(b)
      case PutTail(v) => StoreAtTail(b.ring, v)
      case PutStored(_) => AdvanceTail(b.ring)
      case GetRead(_) => AdvanceHead(b.ring)
      case _ => b.ring
  }

  function Act(b: Buffer, a: Action): Buffer
    requires RingOk(b.ring) && (SysCall(b, a).Some? ==> Defined(b.k, SysCall(b, a).value))
  {
    b.(k := if SysCall(b, a).Some? then Next(b.k, SysCall(b, a).value) else b.k,
       at := b.at[b.k.running := PlaceAfter(b, a)],
       ring := RingAfter(b, a),
       stored := if a == GoOn && Here(b).PutStored? then b.stored + [Here(b).v] else b.stored,
       taken := if a == GoOn && Here(b).GetRead? then b.taken + [Here(b).ret] else b.taken)
  }

  /** What the action hands to the caller of the operation it ends. */
  function Result(b: Buffer, a: Action): Option<int> {
    if a != GoOn then None
    else match Here(b)
      case GetUnlocked(ret) => Some(ret)
      case CountUnlocked(ret) => Some(ret)
      case _ => None
  }

  predicate Mine(b: Buffer, s: SemId) { s == b.space || s == b.item || s == b.mutexHead || s == b.mutexTail }

  /** An operation starts only outside another one; everything else the kernel can
      do - ticks, dispatches, kills, other semaphores - may happen at any point, but
      nobody else touches the buffer's semaphores. */
  predicate Permitted(b: Buffer, a: Action) {
    && (a == GoOn ==> Here(b) != Outside)
    && (a.CallPut? || a.CallGet? || a.CallCount? ==> Here(b) == Outside && b.k.running != MAIN)
    && (a.Other? ==> Allowed(b.k, a.step) && (TheSem(a.step).Some? ==> !Mine(b, TheSem(a.step).value)))
  }

  // ------------------------------------------------- who holds what, by place

  /** The four semaphores of the buffer. */
  datatype Role = Space | Item | HeadMutex | TailMutex

  function SemOf(b: Buffer, role: Role): SemId {
    match role
    case Space => b.space
    case Item => b.item
    case HeadMutex => b.mutexHead
    case TailMutex => b.mutexTail
  }

  /** The last statement was the wait on this semaphore. */
  predicate WaitsAt(role: Role, p: Place) {
    match role
    case Space => p.PutSpace?
    case Item => p.GetItem?
    case HeadMutex => p.GetHead? || p.CountHead?
    case TailMutex => p.PutTail? || p.CountTail?
  }

  /** Past the wait, not yet past the statement that uses the unit up: advancing the
      tail or head for `Space` and `Item`, the signal for the mutexes. */
  predicate Beyond(role: Role, p: Place) {
    match role
    case Space => p.PutTail? || p.PutStored?
    case Item => p.GetHead? || p.GetRead?
    case HeadMutex => p.GetRead? || p.GetMoved? || p.CountTail? || p.Counted? || p.CountUnlocked?
    case TailMutex => p.PutStored? || p.PutMoved? || p.Counted?
  }

  predicate Engaged(role: Role, p: Place) { WaitsAt(role, p) || Beyond(role, p) }

  /** The threads that have been granted a unit and still have it. */
  ghost function Holders(at: map<ThreadId, Place>, role: Role, queue: seq<ThreadId>): set<ThreadId> {
    set t | t in at && Engaged(role, at[t]) && !(WaitsAt(role, at[t]) && t in queue)
  }

  predicate HasStored(p: Place) { p.PutMoved? || p.PutUnlocked? }
  predicate HasTaken(p: Place) { p.GetMoved? || p.GetUnlocked? }

  /** Threads past the tail whose item is not signalled yet. */
  ghost function Storers(at: map<ThreadId, Place>): set<ThreadId> { set t | t in at && HasStored(at[t]) }

  /** Threads past the head whose space is not signalled yet. */
  ghost function Takers(at: map<ThreadId, Place>): set<ThreadId> { set t | t in at && HasTaken(at[t]) }

  lemma StorersMove(at: map<ThreadId, Place>, r: ThreadId, p: Place)
    ensures |Storers(at[r := p])| == |Storers(at)| + (if HasStored(p) then 1 else 0) - (if HasStored(Lookup(at, r)) then 1 else 0)
  {
    var others := Storers(at) - {r};
    assert Storers(at) == if HasStored(Lookup(at, r)) then others + {r} else others;
    assert Storers(at[r := p]) == if HasStored(p) then others + {r} else others;
  }

  lemma TakersMove(at: map<ThreadId, Place>, r: ThreadId, p: Place)
    ensures |Takers(at[r := p])| == |Takers(at)| + (if HasTaken(p) then 1 else 0) - (if HasTaken(Lookup(at, r)) then 1 else 0)
  {
    var others := Takers(at) - {r};
    assert Takers(at) == if HasTaken(Lookup(at, r)) then others + {r} else others;
    assert Takers(at[r := p]) == if HasTaken(p) then others + {r} else others;
  }

  lemma OutsideIsIdle(role: Role)
    ensures !Engaged(role, Outside)
  {
  }

  /** The queue is unchanged: only the acting thread, which is not in it, can become
      or cease to be a holder. */
  lemma HoldersMove(at: map<ThreadId, Place>, role: Role, q: seq<ThreadId>, r: ThreadId, p: Place)
    requires r !in q
    ensures |Holders(at[r := p], role, q)| ==
            |Holders(at, role, q)| + (if Engaged(role, p) then 1 else 0) - (if Engaged(role, Lookup(at, r)) then 1 else 0)
  {
    hide Holders, Engaged, WaitsAt, Beyond;
    HolderItself(at, role, q, r);
    HolderItself(at[r := p], role, q, r);
    HoldersElsewhere(at, role, q, r, p);
    SizeWithout(Holders(at, role, q), r);
    SizeWithout(Holders(at[r := p], role, q), r);
  }

  lemma HolderItself(at: map<ThreadId, Place>, role: Role, q: seq<ThreadId>, r: ThreadId)
    requires r !in q
    ensures r in Holders(at, role, q) <==> Engaged(role, Lookup(at, r))
  {
    OutsideIsIdle(role);
  }

  lemma HoldersElsewhere(at: map<ThreadId, Place>, role: Role, q: seq<ThreadId>, r: ThreadId, p: Place)
    ensures Holders(at[r := p], role, q) - {r} == Holders(at, role, q) - {r}
  {
    hide Engaged, WaitsAt;
  }

  lemma SizeWithout<T>(s: set<T>, x: T)
    ensures |s| == |s - {x}| + if x in s then 1 else 0
  {
    assert x in s ==> s == s - {x} + {x};
    assert x !in s ==> s == s - {x};
  }

  /** The acting thread joins the queue. */
  lemma HoldersQueue(at: map<ThreadId, Place>, role: Role, q: seq<ThreadId>, r: ThreadId, p: Place)
    requires r !in q && WaitsAt(role, p) && !Engaged(role, Lookup(at, r))
    ensures Holders(at[r := p], role, q + [r]) == Holders(at, role, q)
  {
    hide Beyond;
    assert forall t :: t in q + [r] <==> t in q || t == r;
  }

  /** The first waiter is granted a unit. */
  lemma HoldersGrant(at: map<ThreadId, Place>, role: Role, q: seq<ThreadId>)
    requires NoDup(q) && q != [] && q[0] in at && WaitsAt(role, at[q[0]])
    ensures |Holders(at, role, q[1..])| == |Holders(at, role, q)| + 1
  {
    hide WaitsAt, Beyond;
    TailOfDistinct(q);
    assert Holders(at, role, q[1..]) == Holders(at, role, q) + {q[0]};
    assert q[0] !in Holders(at, role, q);
  }

  // ---------------------------------------------------------------- invariant

  predicate SemsApart(b: Buffer) {
    && b.space != b.item && b.space != b.mutexHead && b.space != b.mutexTail
    && b.item != b.mutexHead && b.item != b.mutexTail && b.mutexHead != b.mutexTail
    && b.space in b.k.sems && b.item in b.k.sems && b.mutexHead in b.k.sems && b.mutexTail in b.k.sems
  }

  /** Exactly threads whose place is that wait are queued, with a plain wait. */
  predicate QueueMatches(b: Buffer, role: Role)
    requires SemOf(b, role) in b.k.sems
  {
    forall t :: t in b.k.sems[SemOf(b, role)].queue ==>
      t in b.at && WaitsAt(role, b.at[t]) && t in b.k.threads && b.k.threads[t].status == WAITING
  }

  /** Units left plus units held. */
  ghost function Supply(b: Buffer, role: Role): nat
    requires SemOf(b, role) in b.k.sems
  {
    var m := b.k.sems[SemOf(b, role)];
    Units(m) + |Holders(b.at, role, m.queue)|
  }

  function Unread(b: Buffer): int { |b.stored| - |b.taken| }

  ghost predicate Accounts(b: Buffer)
    requires SemsApart(b)
  {
    && Supply(b, Space) + |Takers(b.at)| + Unread(b) == |b.ring.slots| - 1
    && Supply(b, Item) + |Storers(b.at)| == Unread(b)
    && Supply(b, HeadMutex) == 1
    && Supply(b, TailMutex) == 1
  }

  ghost predicate Contents(b: Buffer) {
    && RingOk(b.ring)
    && b.ring.head == |b.taken| % |b.ring.slots| && b.ring.tail == |b.stored| % |b.ring.slots|
    && b.taken <= b.stored
    && forall i :: |b.taken| <= i < |b.stored| ==> b.ring.slots[i % |b.ring.slots|] == b.stored[i]
  }

  predicate PlaceOk(b: Buffer, p: Place)
    requires RingOk(b.ring)
  {
    && (p.PutStored? ==> b.ring.slots[b.ring.tail] == p.v)
    && (p.GetRead? ==> |b.taken| < |b.stored| && p.ret == b.stored[|b.taken|])
    && (p.Counted? ==> p.ret == Unread(b))
  }

  ghost predicate BufferInv(b: Buffer) {
    && Inv(b.k) && SemsApart(b) && RingOk(b.ring)
    && (forall role :: QueueMatches(b, role))
    && Lookup(b.at, MAIN) == Outside
    && Accounts(b) && Contents(b)
    && forall t :: t in b.at ==> PlaceOk(b, b.at[t])
  }

  // ------------------------------------------------------ what the kernel does

  /** A plain waiter that stays queued keeps its record's status. */
  lemma QueuedKeepsStatus(st: State, step: Step, t: ThreadId, s: SemId)
    requires Inv(st) && Allowed(st, step) && Defined(st, step) && WaitingOn(st, t, s) && WaitingOn(Next(st, step), t, s)
    ensures t in st.threads && t in Next(st, step).threads && Next(st, step).threads[t].status == st.threads[t].status
  {
    hide Core, Middle, Effect, Allowed, Reschedule, CanSelect, TakeWhile;
    StepIsMiddle(st, step);
    WaiterRecord(st, t, s);
    if step != DoKill(t) {
      MiddleWaiter(st, step, t, s);
      if Dispatches(st, step) { DispatchKeepsQueued(Middle(st, step), t, s); }
    } else {
      KillKeepsStatus(st, t);
    }
  }

  lemma KillKeepsStatus(st: State, t: ThreadId)
    requires t in st.threads && Defined(st, DoKill(t))
    ensures t in Next(st, DoKill(t)).threads && Next(st, DoKill(t)).threads[t].status == st.threads[t].status
  {
  }

  lemma DispatchKeepsQueued(m: State, t: ThreadId, s: SemId)
    requires Core(m, false) && CanSelect(m) && t in m.threads && WaitingOn(Reschedule(m), t, s)
    ensures WaitingOn(m, t, s) && t in Reschedule(m).threads && Reschedule(m).threads[t] == m.threads[t]
  {
    hide Core, Reschedule, CanSelect, Resumed, TakeWhile;
    RescheduleMeaning(m);
    WaiterNotReady(m, t, s);
    var n := |TakeWhile(m.ready, IsFinished(m.threads))|;
    assert forall x :: x in m.ready[..n] ==> x in m.ready;
  }

  /** A semaphore all of whose waiters wait without a timeout, through any step. */
  lemma NextSem(st: State, step: Step, s: SemId)
    requires Inv(st) && Allowed(st, step) && Defined(st, step) && s in st.sems && step != DoClose(s)
    requires !(step.DoTimedWait? && step.s == s)
    requires forall t :: t in st.sems[s].queue ==> t in st.threads && st.threads[t].status == WAITING
    ensures var q, st' := st.sems[s], Next(st, step);
            && s in st'.sems
            && st'.sems[s] == (if step == DoSignal(s) then Sem(q.val + 1, if q.val < 0 then q.queue[1..] else q.queue)
                               else if step == DoWait(s) then Sem(q.val - 1, if q.val - 1 < 0 then q.queue + [st.running] else q.queue)
                               else q)
  {
    hide Core, Allowed, Defined, Next, Minus, TakeWhile;
    StepSem(st, step, s);
    QueueFacts(st, s);
    if step.DoTick? {
      TickSem(st, s);
      MinusNone(st.sems[s].queue, TakeWhile(st.asleep, DueAt(st.threads, (st.time + 1) % TIME_RANGE)));
    }
  }

  /** A thread that blocks on a plain wait reads WAITING. */
  lemma NewWaiterIsPlain(st: State, s: SemId)
    requires Inv(st) && Allowed(st, DoWait(s)) && Defined(st, DoWait(s)) && MustBlock(st, s)
    ensures var st' := Next(st, DoWait(s)); st.running in st'.threads && st'.threads[st.running].status == WAITING
  {
    hide Core, Reschedule, CanSelect, Park, Block;
    StepIsMiddle(st, DoWait(s));
    RunningFacts(st);
    BlockedRecord(st, s);
    DispatchKeepsBlocked(Park(Block(st, s)), st.running, s);
  }

  lemma BlockedRecord(st: State, s: SemId)
    requires Core(st, true) && s in st.sems
    ensures st.running in st.threads && Block(st, s).running in Block(st, s).threads
    ensures var m := Park(Block(st, s));
            WaitingOn(m, st.running, s) && st.running in m.threads && m.threads[st.running].status == WAITING
  {
    hide Core;
    RunningFacts(st);
  }

  lemma DispatchKeepsBlocked(m: State, t: ThreadId, s: SemId)
    requires Core(m, false) && CanSelect(m) && t in m.threads && WaitingOn(m, t, s)
    ensures t in Reschedule(m).threads && Reschedule(m).threads[t] == m.threads[t]
  {
    hide Core, Reschedule, CanSelect, Resumed, TakeWhile;
    RescheduleMeaning(m);
    DispatchKeepsQueued(m, t, s);
  }

  // ------------------------------------------------------- every action, every run

  /** What the running thread owes the kernel is met: its semaphores exist and it
      is not the main thread when it waits. */
  lemma SysCallIsAllowed(b: Buffer, a: Action)
    requires BufferInv(b) && Permitted(b, a) && SysCall(b, a).Some?
    ensures Allowed(b.k, SysCall(b, a).value) && Defined(b.k, SysCall(b, a).value)
  {
    hide Inv, Accounts, Contents, QueueMatches, Defined, Next;
    StepKeepsInv(b.k, SysCall(b, a).value);
  }

  lemma QueuesAfter(b: Buffer, a: Action, role: Role)
    requires BufferInv(b) && Permitted(b, a) && SysCall(b, a).Some?
    ensures SemOf(b, role) in b.k.sems && Defined(b.k, SysCall(b, a).value)
    ensures var s, step := SemOf(b, role), SysCall(b, a).value;
            var q, k' := b.k.sems[s], Next(b.k, step);
            && s in k'.sems
            && k'.sems[s] == (if step == DoSignal(s) then Sem(q.val + 1, if q.val < 0 then q.queue[1..] else q.queue)
                              else if step == DoWait(s) then Sem(q.val - 1, if q.val - 1 < 0 then q.queue + [b.k.running] else q.queue)
                              else q)
            && NoDup(q.queue) && b.k.running !in q.queue && (q.val < 0 <==> q.queue != [])
  {
    hide Inv, Core, Accounts, Contents, Defined, Next, Allowed;
    SysCallIsAllowed(b, a);
    var s := SemOf(b, role);
    assert QueueMatches(b, role);
    NotMine(b, a, s);
    NextSem(b.k, SysCall(b, a).value, s);
    InvQueue(b.k, s);
  }

  lemma InvQueue(st: State, s: SemId)
    requires Inv(st) && s in st.sems
    ensures var q := st.sems[s]; NoDup(q.queue) && st.running !in q.queue && (q.val < 0 <==> q.queue != [])
  {
    QueueFacts(st, s);
  }

  lemma NotMine(b: Buffer, a: Action, s: SemId)
    requires Permitted(b, a) && SysCall(b, a).Some? && Mine(b, s)
    ensures SysCall(b, a).value != DoClose(s) && !(SysCall(b, a).value.DoTimedWait? && SysCall(b, a).value.s == s)
  {
  }

  /** One more unit for every signal, one less for every holder that uses its unit
      up; a wait changes nothing. */
  lemma SupplyAfter(b: Buffer, a: Action, role: Role)
    requires BufferInv(b) && Permitted(b, a)
    requires SysCall(b, a).Some? ==> Defined(b.k, SysCall(b, a).value)
    ensures SemOf(b, role) in b.k.sems && SemOf(b, role) in Act(b, a).k.sems
    ensures Supply(Act(b, a), role) == Supply(b, role)
              + (if SysCall(b, a) == Some(DoSignal(SemOf(b, role))) then 1 else 0)
              - (if Engaged(role, Here(b)) && !Engaged(role, PlaceAfter(b, a)) then 1 else 0)
  {
    hide Inv, Core, Accounts, Contents, Defined, Next, Permitted, Holders, NoDup, RingAfter;
    var r, s, q, p := b.k.running, SemOf(b, role), b.k.sems[SemOf(b, role)].queue, PlaceAfter(b, a);
    RunningNotQueued(b, role);
    WaitsAreFresh(b, a, role);
    HoldersMove(b.at, role, q, r, p);
    if SysCall(b, a).Some? {
      QueuesAfter(b, a, role);
      if SysCall(b, a).value == DoWait(s) && b.k.sems[s].val - 1 < 0 { HoldersQueue(b.at, role, q, r, p); }
      if SysCall(b, a).value == DoSignal(s) && b.k.sems[s].val < 0 { FirstWaiterPlace(b, a, role); HoldersGrant(b.at[r := p], role, q); }
    }
  }

  lemma RunningNotQueued(b: Buffer, role: Role)
    requires BufferInv(b)
    ensures SemOf(b, role) in b.k.sems && b.k.running !in b.k.sems[SemOf(b, role)].queue
  {
    hide Core;
    InvQueue(b.k, SemOf(b, role));
  }

  /** A thread becomes engaged with a semaphore by waiting on it and no other way,
      and the waits of an operation are each for a new one. */
  lemma WaitsAreFresh(b: Buffer, a: Action, role: Role)
    requires BufferInv(b) && Permitted(b, a)
    ensures SysCall(b, a) == Some(DoWait(SemOf(b, role))) ==> WaitsAt(role, PlaceAfter(b, a)) && !Engaged(role, Here(b))
    ensures SysCall(b, a) != Some(DoWait(SemOf(b, role))) && Engaged(role, PlaceAfter(b, a)) ==> Engaged(role, Here(b))
    ensures SysCall(b, a) != Some(DoWait(SemOf(b, role))) && !a.Other? ==> !WaitsAt(role, PlaceAfter(b, a))
  {
    hide Inv, Accounts, Contents, QueueMatches;
  }

  lemma FirstWaiterPlace(b: Buffer, a: Action, role: Role)
    requires BufferInv(b) && SemOf(b, role) in b.k.sems && b.k.sems[SemOf(b, role)].queue != []
    ensures var q, at' := b.k.sems[SemOf(b, role)].queue, b.at[b.k.running := PlaceAfter(b, a)];
            q[0] in at' && WaitsAt(role, at'[q[0]])
  {
    hide Inv, Accounts, Contents;
    RunningNotQueued(b, role);
    assert QueueMatches(b, role);
  }

  lemma QueueMatchesAfter(b: Buffer, a: Action, role: Role)
    requires BufferInv(b) && Permitted(b, a)
    requires SysCall(b, a).Some? ==> Defined(b.k, SysCall(b, a).value)
    ensures SemOf(b, role) in Act(b, a).k.sems && QueueMatches(Act(b, a), role)
  {
    hide Inv, Core, Accounts, Contents, Defined, Next, Allowed, Permitted, WaitsAt, Engaged, SysCall, PlaceAfter, RingAfter, NoDup;
    var b', s := Act(b, a), SemOf(b, role);
    RunningNotQueued(b, role);
    assert QueueMatches(b, role);
    if SysCall(b, a).Some? {
      var step := SysCall(b, a).value;
      QueuesAfter(b, a, role);
      SysCallIsAllowed(b, a);
      WaitsAreFresh(b, a, role);
      forall t | t in b'.k.sems[s].queue
        ensures t in b'.at && WaitsAt(role, b'.at[t]) && t in b'.k.threads && b'.k.threads[t].status == WAITING
      {
        if t in b.k.sems[s].queue {
          QueuedKeepsStatus(b.k, step, t, s);
        } else {
          NewWaiterIsPlain(b.k, s);
        }
      }
    }
  }

  // ------------------------------------------------------------ wrap-around

  /** A number `n * q + x` with `0 <= x < n` leaves the remainder `x`. */
  lemma Remainder(n: nat, q: int, x: int)
    requires 0 <= x < n
    ensures (n * q + x) % n == x
  {
    var a := n * q + x;
    var d := q - a / n;
    assert a == n * (a / n) + a % n;
    assert n * d == n * q - n * (a / n);
    assert n * d == a % n - x;
    MulBounds(n, d);
  }

  lemma MulBounds(n: int, d: int)
    requires n > 0
    ensures d >= 1 ==> n * d >= n
    ensures d <= -1 ==> n * d <= -n
  {
  }

  /** Moving less than once round the ring from `h`. */
  lemma ModAdd(h: nat, u: nat, n: nat)
    requires u < n
    ensures (h + u) % n == if h % n + u < n then h % n + u else h % n + u - n
  {
    var q, m := h / n, h % n;
    assert h == n * q + m;
    if m + u < n {
      Remainder(n, q, m + u);
    } else {
      assert n * (q + 1) == n * q + n;
      Remainder(n, q + 1, m + u - n);
    }
  }

  lemma AdvanceIsMod(a: nat, n: nat)
    requires n > 0
    ensures (a % n + 1) % n == (a + 1) % n
  {
    if n == 1 {
    } else {
      ModAdd(a, 1, n);
    }
  }

  lemma CountIsUnread(b: Buffer)
    requires Contents(b) && Unread(b) < |b.ring.slots|
    ensures CountOf(b.ring) == Unread(b)
  {
    ModAdd(|b.taken|, Unread(b), |b.ring.slots|);
  }

  /** With room for one more value, the tail's slot holds no unread value. */
  lemma TailSlotIsFree(b: Buffer, i: nat)
    requires Contents(b) && Unread(b) < |b.ring.slots| - 1 && |b.taken| <= i < |b.stored|
    ensures i % |b.ring.slots| != b.ring.tail
  {
    ModAdd(i, |b.stored| - i, |b.ring.slots|);
  }

  // ------------------------------------------- what the units held mean for a step

  lemma HolderCounts(b: Buffer, role: Role, t: ThreadId)
    requires SemOf(b, role) in b.k.sems && t in Holders(b.at, role, b.k.sems[SemOf(b, role)].queue)
    ensures Supply(b, role) >= 1
  {
  }

  /** The running thread has whatever its place says it waited for. */
  lemma RunningHolds(b: Buffer, role: Role)
    requires BufferInv(b) && Engaged(role, Here(b))
    ensures SemOf(b, role) in b.k.sems && b.k.running in Holders(b.at, role, b.k.sems[SemOf(b, role)].queue)
    ensures Supply(b, role) >= 1
  {
    hide Inv, Core, Accounts, Contents, QueueMatches;
    RunningNotQueued(b, role);
    HolderCounts(b, role, b.k.running);
  }

  /** Mutual exclusion: two threads past the wait of a mutex are the same thread. */
  lemma OneAtATime(b: Buffer, role: Role, t: ThreadId, u: ThreadId)
    requires BufferInv(b) && (role == HeadMutex || role == TailMutex) && SemOf(b, role) in b.k.sems
    requires t in Holders(b.at, role, b.k.sems[SemOf(b, role)].queue) && u in Holders(b.at, role, b.k.sems[SemOf(b, role)].queue)
    ensures t == u
  {
    var hs := Holders(b.at, role, b.k.sems[SemOf(b, role)].queue);
    if t != u {
      assert {t, u} <= hs && |{t, u}| == 2;
      SubsetSize({t, u}, hs);
    }
  }

  lemma SubsetSize<T>(s: set<T>, t: set<T>)
    requires s <= t
    ensures |s| <= |t|
  {
    assert t == s + (t - s);
  }

  /** Bounds that the accounts put on the values in the ring. */
  lemma AccountBounds(b: Buffer)
    requires BufferInv(b)
    ensures 0 <= Unread(b) <= |b.ring.slots| - 1
    ensures Engaged(Space, Here(b)) ==> Unread(b) < |b.ring.slots| - 1
    ensures Engaged(Item, Here(b)) ==> Unread(b) > 0
  {
    hide Inv, Core, Contents, QueueMatches, Supply;
    if Engaged(Space, Here(b)) { RunningHolds(b, Space); }
    if Engaged(Item, Here(b)) { RunningHolds(b, Item); }
  }

  lemma AccountsAfter(b: Buffer, a: Action)
    requires BufferInv(b) && Permitted(b, a)
    requires SysCall(b, a).Some? ==> Defined(b.k, SysCall(b, a).value)
    ensures SemsApart(Act(b, a)) && Accounts(Act(b, a))
  {
    hide Inv, Core, Contents, Defined, Next, QueueMatches, Supply, Permitted, Storers, Takers;
    var r, p := b.k.running, PlaceAfter(b, a);
    SupplyAfter(b, a, Space);
    SupplyAfter(b, a, Item);
    SupplyAfter(b, a, HeadMutex);
    SupplyAfter(b, a, TailMutex);
    StorersMove(b.at, r, p);
    TakersMove(b.at, r, p);
    OtherIsNotMine(b, a);
    RingKeepsSize(b, a);
    CallsFromOutside(b, a);
  }

  lemma OtherIsNotMine(b: Buffer, a: Action)
    requires BufferInv(b) && Permitted(b, a)
    ensures a.Other? ==> forall role :: SysCall(b, a) != Some(DoSignal(SemOf(b, role)))
  {
  }

  lemma CallsFromOutside(b: Buffer, a: Action)
    requires Permitted(b, a)
    ensures a.CallPut? || a.CallGet? || a.CallCount? ==> Here(b) == Outside
    ensures a == GoOn ==> Here(b) != Outside
  {
  }

  lemma RingKeepsSize(b: Buffer, a: Action)
    requires RingOk(b.ring)
    ensures |RingAfter(b, a).slots| == |b.ring.slots| && RingOk(RingAfter(b, a))
  {
  }

  lemma StoreKeepsContents(b: Buffer, v: int)
    requires Contents(b) && Unread(b) < |b.ring.slots| - 1
    ensures Contents(b.(ring := StoreAtTail(b.ring, v)))
  {
    var r := StoreAtTail(b.ring, v);
    forall i | |b.taken| <= i < |b.stored| ensures r.slots[i % |r.slots|] == b.stored[i] {
      TailSlotIsFree(b, i);
    }
  }

  lemma TailKeepsContents(b: Buffer, v: int)
    requires Contents(b) && b.ring.slots[b.ring.tail] == v
    ensures Contents(b.(ring := AdvanceTail(b.ring), stored := b.stored + [v]))
  {
    AdvanceIsMod(|b.stored|, |b.ring.slots|);
  }

  lemma HeadKeepsContents(b: Buffer, ret: int)
    requires Contents(b) && |b.taken| < |b.stored| && ret == b.stored[|b.taken|]
    ensures Contents(b.(ring := AdvanceHead(b.ring), taken := b.taken + [ret]))
  {
    AdvanceIsMod(|b.taken|, |b.ring.slots|);
  }

  /** Contents speaks of the ring and the history alone. */
  lemma SameContents(b: Buffer, c: Buffer)
    requires Contents(b) && b.ring == c.ring && b.stored == c.stored && b.taken == c.taken
    ensures Contents(c)
  {
  }

  lemma ContentsAfter(b: Buffer, a: Action)
    requires BufferInv(b) && Permitted(b, a)
    requires SysCall(b, a).Some? ==> Defined(b.k, SysCall(b, a).value)
    ensures Contents(Act(b, a))
  {
    hide Inv, Core, Accounts, Defined, Next, QueueMatches, Permitted, SysCall, Contents, AdvanceTail, AdvanceHead, StoreAtTail;
    AccountBounds(b);
    HereIsOk(b);
    var c := b;
    if a == GoOn {
      match Here(b)
      case PutTail(v) =>
        StoreKeepsContents(b, v);
        c := b.(ring := StoreAtTail(b.ring, v));
      case PutStored(v) =>
        TailKeepsContents(b, v);
        c := b.(ring := AdvanceTail(b.ring), stored := b.stored + [v]);
      case GetRead(ret) =>
        HeadKeepsContents(b, ret);
        c := b.(ring := AdvanceHead(b.ring), taken := b.taken + [ret]);
      case _ =>
    }
    SameContents(c, Act(b, a));
  }

  lemma HereIsOk(b: Buffer)
    requires BufferInv(b)
    ensures PlaceOk(b, Here(b))
  {
  }

  /** A thread past the wait of a mutex that the running thread also holds is the
      running thread. */
  lemma Alone(b: Buffer, role: Role, t: ThreadId)
    requires BufferInv(b) && (role == HeadMutex || role == TailMutex)
    requires Engaged(role, Here(b)) && t in b.at && Beyond(role, b.at[t])
    ensures t == b.k.running
  {
    hide Inv, Core, Accounts, Contents, QueueMatches;
    RunningHolds(b, role);
    assert t in Holders(b.at, role, b.k.sems[SemOf(b, role)].queue);
    OneAtATime(b, role, t, b.k.running);
  }

  lemma PlacesAfter(b: Buffer, a: Action, t: ThreadId)
    requires BufferInv(b) && Permitted(b, a)
    requires SysCall(b, a).Some? ==> Defined(b.k, SysCall(b, a).value)
    requires t in Act(b, a).at && RingOk(Act(b, a).ring)
    ensures PlaceOk(Act(b, a), Act(b, a).at[t])
  {
    hide Inv, Core, Accounts, Defined, Next, QueueMatches, Permitted, SysCall;
    AccountBounds(b);
    HereIsOk(b);
    CountIsUnread(b);
    if t in b.at { assert PlaceOk(b, b.at[t]); }
    if a == GoOn && t in b.at {
      if Engaged(TailMutex, Here(b)) && Beyond(TailMutex, b.at[t]) { Alone(b, TailMutex, t); }
      if Engaged(HeadMutex, Here(b)) && Beyond(HeadMutex, b.at[t]) { Alone(b, HeadMutex, t); }
    }
  }

  /** Every permitted action is defined and keeps the buffer's invariant, whatever
      the kernel does in between. */
  lemma ActKeepsInv(b: Buffer, a: Action)
    requires BufferInv(b) && Permitted(b, a)
    ensures SysCall(b, a).Some? ==> Defined(b.k, SysCall(b, a).value)
    ensures BufferInv(Act(b, a))
  {
    hide Inv, Core, Accounts, Contents, Defined, Next, QueueMatches, Permitted, SysCall, PlaceAfter, PlaceOk, RingAfter;
    if SysCall(b, a).Some? {
      SysCallIsAllowed(b, a);
      StepKeepsInv(b.k, SysCall(b, a).value);
    }
    RingKeepsSize(b, a);
    AccountsAfter(b, a);
    ContentsAfter(b, a);
    MainOutside(b, a);
    forall role ensures QueueMatches(Act(b, a), role) { QueueMatchesAfter(b, a, role); }
    forall t | t in Act(b, a).at ensures PlaceOk(Act(b, a), Act(b, a).at[t]) { PlacesAfter(b, a, t); }
  }

  lemma MainOutside(b: Buffer, a: Action)
    requires BufferInv(b) && Permitted(b, a)
    ensures Lookup(b.at[b.k.running := PlaceAfter(b, a)], MAIN) == Outside
  {
  }

  // ------------------------------------------------------------- what it is for

  /** The buffer as its users see it: the values stored and not yet taken. */
  function Fifo(b: Buffer): seq<int>
    requires b.taken <= b.stored
  {
    b.stored[|b.taken|..]
  }

  function Capacity(b: Buffer): int { |b.ring.slots| - 1 }

  /** Every action is a step of a bounded FIFO queue or leaves it alone: advancing
      the tail enqueues and there is room, advancing the head dequeues the oldest
      value and the operation returns it, counting sees the exact length. */
  lemma RefinesFifo(b: Buffer, a: Action)
    requires BufferInv(b) && Permitted(b, a)
    ensures SysCall(b, a).Some? ==> Defined(b.k, SysCall(b, a).value)
    ensures b.taken <= b.stored && Act(b, a).taken <= Act(b, a).stored && |Fifo(b)| <= Capacity(b) == Capacity(Act(b, a))
    ensures var q, q' := Fifo(b), Fifo(Act(b, a));
            if a == GoOn && Here(b).PutStored? then |q| < Capacity(b) && q' == q + [Here(b).v]
            else if a == GoOn && Here(b).GetRead? then
              q != [] && q == [Here(b).ret] + q' && PlaceAfter(b, a) == GetMoved(q[0])
            else q' == q && (a == GoOn && Here(b).CountTail? ==> PlaceAfter(b, a) == Counted(|q|))
  {
    hide Inv, Core, Accounts, Defined, Next, QueueMatches, SysCall, Contents, Permitted, CountOf, AdvanceTail, AdvanceHead, StoreAtTail;
    ActKeepsInv(b, a);
    ContentsIsPrefix(b);
    ContentsIsPrefix(Act(b, a));
    AccountBounds(b);
    HereIsOk(b);
    CountIsUnread(b);
    RingKeepsSize(b, a);
  }

  lemma ContentsIsPrefix(b: Buffer)
    requires Contents(b)
    ensures b.taken <= b.stored && RingOk(b.ring)
  {
  }

  /** No action changes a slot that holds an unread value, and none but the holder
      of the tail mutex changes any slot. */
  lemma UnreadSlotsAreSafe(b: Buffer, a: Action, i: nat)
    requires BufferInv(b) && Permitted(b, a) && |b.taken| <= i < |b.stored|
    ensures |RingAfter(b, a).slots| == |b.ring.slots| > 0
    ensures RingAfter(b, a).slots[i % |b.ring.slots|] == b.ring.slots[i % |b.ring.slots|] == b.stored[i]
  {
    hide Inv, Core, Accounts, QueueMatches, SysCall;
    AccountBounds(b);
    RingKeepsSize(b, a);
    if a == GoOn && Here(b).PutTail? { TailSlotIsFree(b, i); }
  }

  /** The slots that the constructor's array has for the capacity asked for. */
  function SlotsFor(cap: int): nat { if cap < 0 then 0 else cap + 1 }

  /** The capacity as the unsigned value of the space semaphore. */
  function InitialSpace(cap: int): nat { cap % 0x1_0000_0000 }

  /** The state after the constructor's four semaphores are open. */
  function Constructed(k: State, cap: int, slots: seq<int>): Buffer {
    var k4 := Open(Open(Open(Open(k, 0), InitialSpace(cap)), 1), 1);
    Buffer(k4, map[], Ring(slots, 0, 0), k.nextSem + 1, k.nextSem, k.nextSem + 2, k.nextSem + 3, [], [])
  }

  /** The constructor establishes the invariant in any state of the kernel, whatever
      the fresh array holds, exactly when the capacity is not negative. */
  lemma ConstructorEstablishes(k: State, cap: int, slots: seq<int>)
    requires Inv(k) && -0x8000_0000 <= cap < 0x7fff_ffff && |slots| == SlotsFor(cap)
    ensures BufferInv(Constructed(k, cap, slots)) <==> 0 <= cap
    ensures Constructed(k, cap, slots).stored == Constructed(k, cap, slots).taken == []
  {
    hide Constructed, BufferInv;
    NegativeHasNoRing(k, cap, slots);
    if 0 <= cap { EmptyBuffer(k, cap, slots); }
  }

  lemma NegativeHasNoRing(k: State, cap: int, slots: seq<int>)
    ensures slots == [] ==> !BufferInv(Constructed(k, cap, slots))
    ensures Constructed(k, cap, slots).stored == Constructed(k, cap, slots).taken == []
  {
    hide Inv, Accounts, Contents;
  }

  lemma ConstructedState(k: State, cap: nat, slots: seq<int>)
    requires Inv(k) && cap < 0x7fff_ffff
    ensures var b := Constructed(k, cap, slots);
            && Inv(b.k) && SemsApart(b) && b.at == map[] && b.ring == Ring(slots, 0, 0) && b.stored == b.taken == []
            && b.k.sems[b.space] == Sem(cap, []) && b.k.sems[b.item] == Sem(0, [])
            && b.k.sems[b.mutexHead] == Sem(1, []) && b.k.sems[b.mutexTail] == Sem(1, [])
  {
    hide Inv, Core, Open, Allowed, Signed;
    assert InitialSpace(cap) == cap;
    var k1 := Open(k, 0);
    var k2 := Open(k1, cap);
    var k3 := Open(k2, 1);
    OpenKeepsInv(k, 0);
    OpenKeepsInv(k1, cap);
    OpenKeepsInv(k2, 1);
    OpenKeepsInv(k3, 1);
  }

  lemma EmptyBuffer(k: State, cap: nat, slots: seq<int>)
    requires Inv(k) && cap < 0x7fff_ffff && |slots| == cap + 1
    ensures BufferInv(Constructed(k, cap, slots))
  {
    hide Inv, Constructed, Engaged, WaitsAt;
    ConstructedState(k, cap, slots);
    var b := Constructed(k, cap, slots);
    assert Storers(b.at) == {} && Takers(b.at) == {};
    assert forall role :: Holders(b.at, role, []) == {};
  }

  lemma OpenKeepsInv(k: State, n: nat)
    requires Inv(k) && n < SIGN_BIT
    ensures Inv(Open(k, n)) && Open(k, n).sems == k.sems[k.nextSem := Sem(n, [])] && Open(k, n).nextSem == k.nextSem + 1
    ensures k.nextSem !in k.sems
  {
    OpenKeepsCore(k, n);
    NextIsFresh(k);
  }

  /** A run of any number of threads over the buffer. */
  ghost predicate BufferRun(bs: seq<Buffer>, acts: seq<Action>) {
    && |bs| == |acts| + 1 && BufferInv(bs[0])
    && forall i :: 0 <= i < |acts| ==> ActLeads(bs[i], acts[i], bs[i + 1])
  }

  ghost predicate ActLeads(b: Buffer, a: Action, b': Buffer) {
    && RingOk(b.ring) && Permitted(b, a) && (SysCall(b, a).Some? ==> Defined(b.k, SysCall(b, a).value))
    && b' == Act(b, a)
  }

  /** In every run, under any interleaving: the values taken are a prefix of the
      values stored, both in the order of their critical sections; neither is ever
      rewritten; and no more than the capacity is ever unread. */
  lemma {:induction false} EveryRunIsFifo(bs: seq<Buffer>, acts: seq<Action>)
    requires BufferRun(bs, acts)
    ensures |bs| == |acts| + 1 && BufferInv(bs[|acts|])
    ensures var b := bs[|acts|];
            && b.taken <= b.stored && |Fifo(b)| <= Capacity(b) == Capacity(bs[0])
            && bs[0].stored <= b.stored && bs[0].taken <= b.taken
    decreases |acts|
  {
    hide BufferInv, Permitted, Defined, Act, SysCall;
    if acts == [] {
      InvIsFifo(bs[0]);
    } else {
      var n := |acts| - 1;
      assert BufferRun(bs[..|acts|], acts[..n]) by { RunPrefix(bs, acts); }
      EveryRunIsFifo(bs[..|acts|], acts[..n]);
      assert ActLeads(bs[n], acts[n], bs[|acts|]);
      ActKeepsInv(bs[n], acts[n]);
      InvIsFifo(bs[|acts|]);
      HistoryGrows(bs[n], acts[n]);
    }
  }

  lemma RunPrefix(bs: seq<Buffer>, acts: seq<Action>)
    requires BufferRun(bs, acts) && acts != []
    ensures BufferRun(bs[..|acts|], acts[..|acts| - 1])
  {
    hide BufferInv, ActLeads;
    forall i | 0 <= i < |acts| - 1 ensures ActLeads(bs[..|acts|][i], acts[..|acts| - 1][i], bs[..|acts|][i + 1]) {
      assert ActLeads(bs[i], acts[i], bs[i + 1]);
    }
  }

  lemma InvIsFifo(b: Buffer)
    requires BufferInv(b)
    ensures b.taken <= b.stored && |Fifo(b)| <= Capacity(b)
  {
    hide Inv, Core, QueueMatches, Accounts;
    AccountBounds(b);
  }

  lemma HistoryGrows(b: Buffer, a: Action)
    requires RingOk(b.ring) && (SysCall(b, a).Some? ==> Defined(b.k, SysCall(b, a).value))
    ensures var b' := Act(b, a); b.stored <= b'.stored && b.taken <= b'.taken && Capacity(b') == Capacity(b)
  {
    hide Next, Defined, SysCall;
    RingKeepsSize(b, a);
  }
}
