/** The buffer as it runs: the array, the kernel and the place of every thread, with
    a method for each statement. Each is proved to be the action that
    `BoundedBuffer` reasons about. */
module SharedBuffer {
  import opened ListSpec
  import opened KernelState
  import opened KernelInvariant
  import opened KernelDispatch
  import opened BoundedBuffer
  import K = Kernel

  class SharedBuffer {
    const kernel: K.Kernel
    const ring: RingArray
    const space: SemId
    const item: SemId
    const mutexHead: SemId
    const mutexTail: SemId
    /** Each thread's program counter and locals. */
    var at: map<ThreadId, Place>
    ghost var stored: seq<int>
    ghost var taken: seq<int>

    ghost function View(): Buffer
      reads this, kernel, ring, ring.buffer
    {
      Buffer(kernel.View(), at, ring.View(), space, item, mutexHead, mutexTail, stored, taken)
    }

    constructor (k: K.Kernel, cap: nat)
      requires Inv(k.View()) && cap < 0x7fff_ffff
      modifies k
      ensures kernel == k && fresh(ring) && fresh(ring.buffer) && ring.buffer.Length == cap + 1
      ensures View() == Constructed(old(k.View()), cap, ring.buffer[..]) && BufferInv(View())
    {
      hide Inv, BufferInv, Next, Defined, Signed;
      assert InitialSpace(cap) == cap;
      var itemAvailable := k.SemOpen(0);
      var spaceAvailable := k.SemOpen(cap);
      var head := k.SemOpen(1);
      var tail := k.SemOpen(1);
      kernel, item, space, mutexHead, mutexTail := k, itemAvailable, spaceAvailable, head, tail;
      ring := new RingArray(cap);
      at, stored, taken := map[], [], [];
      new;
      EmptyBuffer(old(k.View()), cap, ring.buffer[..]);
    }

    /** The running thread goes on to `p` with a wait. */
    method Wait(s: SemId, p: Place)
      requires Inv(kernel.View()) && Allowed(kernel.View(), DoWait(s))
      modifies this`at, kernel
      ensures Defined(old(kernel.View()), DoWait(s)) && kernel.View() == Next(old(kernel.View()), DoWait(s))
      ensures at == old(at)[old(kernel.running) := p]
    {
      at := at[kernel.running := p];
      kernel.SemWait(s);
    }

    /** The running thread goes on to `p` with a signal. */
    method Signal(s: SemId, p: Place)
      requires Inv(kernel.View()) && s in kernel.sems
      modifies this`at, kernel
      ensures Defined(old(kernel.View()), DoSignal(s)) && kernel.View() == Next(old(kernel.View()), DoSignal(s))
      ensures at == old(at)[old(kernel.running) := p]
    {
      at := at[kernel.running := p];
      var _ := kernel.SemSignal(s);
    }

    method CallPut(v: int)
      requires BufferInv(View()) && Permitted(View(), Action.CallPut(v))
      modifies this`at, kernel
      ensures SysCall(old(View()), Action.CallPut(v)).Some? ==> Defined(old(kernel.View()), SysCall(old(View()), Action.CallPut(v)).value)
      ensures View() == Act(old(View()), Action.CallPut(v)) && BufferInv(View())
    {
      hide Inv, Accounts, Contents, QueueMatches, Permitted, Defined, Next, Allowed;
      ActKeepsInv(View(), Action.CallPut(v));
      SysCallIsAllowed(View(), Action.CallPut(v));
      Wait(space, PutSpace(v));
    }

    method CallGet()
      requires BufferInv(View()) && Permitted(View(), Action.CallGet)
      modifies this`at, kernel
      ensures SysCall(old(View()), Action.CallGet).Some? ==> Defined(old(kernel.View()), SysCall(old(View()), Action.CallGet).value)
      ensures View() == Act(old(View()), Action.CallGet) && BufferInv(View())
    {
      hide Inv, Accounts, Contents, QueueMatches, Permitted, Defined, Next, Allowed;
      ActKeepsInv(View(), Action.CallGet);
      SysCallIsAllowed(View(), Action.CallGet);
      Wait(item, GetItem);
    }

    method CallCount()
      requires BufferInv(View()) && Permitted(View(), Action.CallCount)
      modifies this`at, kernel
      ensures SysCall(old(View()), Action.CallCount).Some? ==> Defined(old(kernel.View()), SysCall(old(View()), Action.CallCount).value)
      ensures View() == Act(old(View()), Action.CallCount) && BufferInv(View())
    {
      hide Inv, Accounts, Contents, QueueMatches, Permitted, Defined, Next, Allowed;
      ActKeepsInv(View(), Action.CallCount);
      SysCallIsAllowed(View(), Action.CallCount);
      Wait(mutexHead, CountHead);
    }

    /** Anything else the kernel does, whoever asks for it. */
    method Other(step: Step)
      requires BufferInv(View()) && Permitted(View(), Action.Other(step))
      modifies this`at, kernel
      ensures SysCall(old(View()), Action.Other(step)).Some? ==> Defined(old(kernel.View()), SysCall(old(View()), Action.Other(step)).value)
      ensures View() == Act(old(View()), Action.Other(step)) && BufferInv(View())
    {
      hide Core, Accounts, Contents, QueueMatches, Defined, Next, CountOf;
      ActKeepsInv(View(), Action.Other(step));
      SysCallIsAllowed(View(), Action.Other(step));
      at := at[kernel.running := Lookup(at, kernel.running)];
      match step
      case DoCreate(body) => var _ := kernel.CreateThread(body);
      case DoDispatch => kernel.ThreadDispatch();
      case DoExit => kernel.Exit();
      case DoKill(target) => var _ := kernel.SubtleKill(target);
      case DoSleep(d) => kernel.TimeSleep(d);
      case DoOpen(n) => var _ := kernel.SemOpen(n);
      case DoWait(s) => kernel.SemWait(s);
      case DoTimedWait(s, d) => kernel.SemTimedWait(s, d);
      case DoSignal(s) => var _ := kernel.SemSignal(s);
      case DoClose(s) => kernel.SemClose(s);
      case DoTick => kernel.TimerInterrupt();
    }

    ghost predicate GoesOn(b: Buffer)
    {
      BufferInv(b) && Permitted(b, GoOn)
    }

    /** The next statement of the running thread's `put`. */
    method PutOn()
      requires GoesOn(View()) && (Here(View()).PutSpace? || Here(View()).PutTail? || Here(View()).PutStored? || Here(View()).PutMoved? || Here(View()).PutUnlocked?)
      modifies this, kernel, ring`tail, ring.buffer
      ensures SysCall(old(View()), GoOn).Some? ==> Defined(old(kernel.View()), SysCall(old(View()), GoOn).value)
      ensures RingOk(old(View()).ring) && View() == Act(old(View()), GoOn) && BufferInv(View())
      ensures Result(old(View()), GoOn) == None
    {
      hide Inv, Accounts, Contents, QueueMatches, Permitted, Defined, Next, Allowed, StoreAtTail, AdvanceTail;
      ghost var b := View();
      ActKeepsInv(b, GoOn);
      if SysCall(b, GoOn).Some? { SysCallIsAllowed(b, GoOn); }
      var t := kernel.running;
      match at[t]
      case PutSpace(v) => Wait(mutexTail, PutTail(v));
      case PutTail(v) => ring.Store(v); at := at[t := PutStored(v)];
      case PutStored(v) => ring.MoveTail(); at := at[t := PutMoved]; stored := stored + [v];
      case PutMoved => Signal(mutexTail, PutUnlocked);
      case PutUnlocked => Signal(item, Outside);
    }

    /** The next statement of the running thread's `get`; the last one returns. */
    method GetOn() returns (result: Option<int>)
      requires GoesOn(View()) && (Here(View()).GetItem? || Here(View()).GetHead? || Here(View()).GetRead? || Here(View()).GetMoved? || Here(View()).GetUnlocked?)
      modifies this, kernel, ring`head
      ensures SysCall(old(View()), GoOn).Some? ==> Defined(old(kernel.View()), SysCall(old(View()), GoOn).value)
      ensures RingOk(old(View()).ring) && View() == Act(old(View()), GoOn) && BufferInv(View())
      ensures result == Result(old(View()), GoOn)
    {
      hide Inv, Accounts, Contents, QueueMatches, Permitted, Defined, Next, Allowed, AdvanceHead;
      ghost var b := View();
      ActKeepsInv(b, GoOn);
      if SysCall(b, GoOn).Some? { SysCallIsAllowed(b, GoOn); }
      var t := kernel.running;
      result := None;
      match at[t]
      case GetItem => Wait(mutexHead, GetHead);
      case GetHead => var ret := ring.Read(); at := at[t := GetRead(ret)];
      case GetRead(ret) => ring.MoveHead(); at := at[t := GetMoved(ret)]; taken := taken + [ret];
      case GetMoved(ret) => Signal(mutexHead, GetUnlocked(ret));
      case GetUnlocked(ret) => Signal(space, Outside); result := Some(ret);
    }

    /** The next statement of the running thread's `getCnt`; the last one returns. */
    method CountOn() returns (result: Option<int>)
      requires GoesOn(View()) && (Here(View()).CountHead? || Here(View()).CountTail? || Here(View()).Counted? || Here(View()).CountUnlocked?)
      modifies this, kernel
      ensures SysCall(old(View()), GoOn).Some? ==> Defined(old(kernel.View()), SysCall(old(View()), GoOn).value)
      ensures RingOk(old(View()).ring) && View() == Act(old(View()), GoOn) && BufferInv(View())
      ensures result == Result(old(View()), GoOn)
    {
      hide Inv, Accounts, Contents, QueueMatches, Permitted, Defined, Next, Allowed, CountOf;
      ghost var b := View();
      ActKeepsInv(b, GoOn);
      if SysCall(b, GoOn).Some? { SysCallIsAllowed(b, GoOn); }
      var t := kernel.running;
      result := None;
      match at[t]
      case CountHead => Wait(mutexTail, CountTail);
      case CountTail => var ret := ring.Count(); DistanceIsCount(ring.View(), ret); at := at[t := Counted(ret)];
      case Counted(ret) => Signal(mutexTail, CountUnlocked(ret));
      case CountUnlocked(ret) => Signal(mutexHead, Outside); result := Some(ret);
    }
  }
}
