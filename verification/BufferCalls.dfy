/** What a caller of the buffer gets: each call takes effect exactly once, at one
    moment between its start and its return, whatever the other threads do. */
module BufferCalls {
  import opened ListSpec
  import opened KernelState
  import opened KernelInvariant
  import opened BoundedBuffer

  // --------------------------------------------------------------- observations

  /** The queue as seen from outside, before and after an action. */
  predicate Enqueues(b: Buffer, b': Buffer, v: int) { b'.stored == b.stored + [v] && b'.taken == b.taken }

  predicate Dequeues(b: Buffer, b': Buffer, v: int) {
    b'.stored == b.stored && b'.taken == b.taken + [v] && |b.taken| < |b.stored| && v == b.stored[|b.taken|]
  }

  predicate Quiet(b: Buffer, b': Buffer) { b'.stored == b.stored && b'.taken == b.taken }

  /** Thread `t` acts and is inside an operation before and outside after. */
  predicate Returns(b: Buffer, b': Buffer, t: ThreadId) {
    b.k.running == t && Lookup(b.at, t) != Outside && Lookup(b'.at, t) == Outside
  }

  // -------------------------------------------------- where in its call a thread is

  predicate PutBefore(p: Place, v: int) { p == PutSpace(v) || p == PutTail(v) || p == PutStored(v) }
  predicate PutAfter(p: Place) { p.PutMoved? || p.PutUnlocked? }
  predicate GetBefore(p: Place) { p.GetItem? || p.GetHead? || p.GetRead? }
  predicate GetAfter(p: Place, v: int) { p == GetMoved(v) || p == GetUnlocked(v) }
  predicate CountBefore(p: Place) { p.CountHead? || p.CountTail? }
  predicate CountAfter(p: Place, n: int) { p == Counted(n) || p == CountUnlocked(n) }

  /** The statements of the running thread's own that are left of its call. */
  function StatementsLeft(p: Place): nat {
    match p
    case Outside => 0
    case PutSpace(_) => 5
    case PutTail(_) => 4
    case PutStored(_) => 3
    case PutMoved => 2
    case PutUnlocked => 1
    case GetItem => 5
    case GetHead => 4
    case GetRead(_) => 3
    case GetMoved(_) => 2
    case GetUnlocked(_) => 1
    case CountHead => 4
    case CountTail => 3
    case Counted(_) => 2
    case CountUnlocked(_) => 1
  }

  /** A call ends after five statements of the caller's own, four for a count:
      nothing else brings it closer to its end or sets it back. */
  lemma EveryStatementCounts(b: Buffer, a: Action, t: ThreadId)
    requires BufferInv(b) && Permitted(b, a)
    ensures SysCall(b, a).Some? ==> Defined(b.k, SysCall(b, a).value)
    ensures var left, left' := StatementsLeft(Lookup(b.at, t)), StatementsLeft(Lookup(Act(b, a).at, t));
            if t != b.k.running || a.Other? then left' == left
            else if a == GoOn then left > 0 && left' == left - 1
            else left == 0 && left' == (if a == CallCount then 4 else 5)
    ensures Lookup(b.at, t) == Outside <==> StatementsLeft(Lookup(b.at, t)) == 0
  {
    hide Inv, Accounts, Contents, QueueMatches, Defined, Next, Allowed;
    ActKeepsInv(b, a);
  }

  /** Only the running thread's place changes, and only by its own calls. */
  lemma OthersStay(b: Buffer, a: Action, b': Buffer, t: ThreadId)
    requires ActLeads(b, a, b') && (t != b.k.running || a.Other?)
    ensures Lookup(b'.at, t) == Lookup(b.at, t)
    ensures t == b.k.running ==> Quiet(b, b') && Result(b, a) == None
  {
    hide Permitted, Defined, Next;
  }

  /** The running thread's next statement in a `put`. */
  lemma PutStatement(b: Buffer, a: Action, b': Buffer, v: int)
    requires BufferInv(b) && ActLeads(b, a, b') && a == GoOn
    ensures PutBefore(Here(b), v) ==>
              var p := Lookup(b'.at, b.k.running);
              if PutBefore(p, v) then Quiet(b, b') else PutAfter(p) && Enqueues(b, b', v)
    ensures PutAfter(Here(b)) ==>
              Quiet(b, b') && (PutAfter(Lookup(b'.at, b.k.running)) || Lookup(b'.at, b.k.running) == Outside) && Result(b, a) == None
  {
    hide BufferInv, Permitted, Defined, Next;
  }

  /** The running thread's next statement in a `get`. */
  lemma GetStatement(b: Buffer, a: Action, b': Buffer)
    requires BufferInv(b) && ActLeads(b, a, b') && a == GoOn
    ensures GetBefore(Here(b)) ==>
              var p := Lookup(b'.at, b.k.running);
              if GetBefore(p) then Quiet(b, b')
              else |b.taken| < |b.stored| && Dequeues(b, b', b.stored[|b.taken|]) && GetAfter(p, b.stored[|b.taken|])
    ensures forall v :: GetAfter(Here(b), v) ==>
              var p := Lookup(b'.at, b.k.running);
              Quiet(b, b') && (GetAfter(p, v) || (p == Outside && Result(b, a) == Some(v)))
  {
    hide Inv, Accounts, Contents, QueueMatches, Permitted, Defined, Next;
    HereIsOk(b);
  }

  /** The running thread's next statement in a `getCnt`. */
  lemma CountStatement(b: Buffer, a: Action, b': Buffer)
    requires BufferInv(b) && ActLeads(b, a, b') && a == GoOn
    ensures CountBefore(Here(b)) ==>
              Quiet(b, b') && (CountBefore(Lookup(b'.at, b.k.running)) || CountAfter(Lookup(b'.at, b.k.running), Unread(b)))
    ensures forall n :: CountAfter(Here(b), n) ==>
              var p := Lookup(b'.at, b.k.running);
              Quiet(b, b') && (CountAfter(p, n) || (p == Outside && Result(b, a) == Some(n)))
  {
    hide Inv, Accounts, Contents, QueueMatches, Permitted, Defined, Next, CountOf;
    AccountBounds(b);
    BufferContents(b);
    CountIsUnread(b);
  }

  lemma BufferContents(b: Buffer)
    requires BufferInv(b)
    ensures Contents(b)
  {
    hide Inv, Accounts, QueueMatches;
  }

  /** Only a thread that has stored its value and stands at the tail changes what is
      stored. */
  lemma WhoStores(b: Buffer, a: Action, b': Buffer)
    requires ActLeads(b, a, b') && b'.stored != b.stored
    ensures a == GoOn && Here(b).PutStored? && b'.stored == b.stored + [Here(b).v]
  {
    hide Permitted, Defined, Next;
  }

  lemma WhoTakes(b: Buffer, a: Action, b': Buffer)
    requires ActLeads(b, a, b') && b'.taken != b.taken
    ensures a == GoOn && GetBefore(Here(b)) && !GetBefore(Lookup(b'.at, b.k.running))
  {
    hide Permitted, Defined, Next;
  }

  /** A new call is made outside any other. */
  lemma Entering(b: Buffer, a: Action, b': Buffer)
    requires ActLeads(b, a, b') && !a.Other? && a != GoOn
    ensures Here(b) == Outside && Quiet(b, b')
    ensures a.CallPut? ==> Lookup(b'.at, b.k.running) == PutSpace(a.v)
    ensures a.CallGet? ==> Lookup(b'.at, b.k.running) == GetItem
    ensures a.CallCount? ==> Lookup(b'.at, b.k.running) == CountHead
  {
    hide Defined, Next;
  }

  lemma {:induction false} InvInRun(bs: seq<Buffer>, acts: seq<Action>, i: nat)
    requires BufferRun(bs, acts) && i <= |acts|
    ensures |bs| == |acts| + 1 && BufferInv(bs[i]) && (i < |acts| ==> ActLeads(bs[i], acts[i], bs[i + 1]))
  {
    hide BufferInv, Permitted, Defined, Act, SysCall;
    if i > 0 {
      InvInRun(bs, acts, i - 1);
      ActKeepsInv(bs[i - 1], acts[i - 1]);
    }
  }

  lemma RunRest(bs: seq<Buffer>, acts: seq<Action>, i: nat)
    requires BufferRun(bs, acts) && i <= |acts|
    ensures |bs| == |acts| + 1 && BufferRun(bs[i..], acts[i..])
  {
    hide BufferInv, ActLeads;
    InvInRun(bs, acts, i);
    forall k | 0 <= k < |acts| - i ensures ActLeads(bs[i..][k], acts[i..][k], bs[i..][k + 1]) {
      InvInRun(bs, acts, i + k);
    }
  }

  // ------------------------------------------------------------------------ put

  /** `put(v)` is called first; thread `t` has not moved the tail in the meantime. */
  lemma {:induction false} PutPending(bs: seq<Buffer>, acts: seq<Action>, v: int, n: nat)
    requires BufferRun(bs, acts) && 0 < n <= |acts| && acts[0] == CallPut(v)
    requires forall k :: 0 <= k < n && bs[k].k.running == bs[0].k.running ==> bs[k + 1].stored == bs[k].stored
    ensures |bs| == |acts| + 1 && PutBefore(Lookup(bs[n].at, bs[0].k.running), v)
  {
    hide BufferInv, BufferRun, ActLeads, Lookup;
    InvInRun(bs, acts, n - 1);
    var t := bs[0].k.running;
    if n == 1 {
      Entering(bs[0], acts[0], bs[1]);
    } else {
      PutPending(bs, acts, v, n - 1);
      NextOfPut(bs[n - 1], acts[n - 1], bs[n], t, v);
    }
  }

  lemma NextOfPut(b: Buffer, a: Action, b': Buffer, t: ThreadId, v: int)
    requires BufferInv(b) && ActLeads(b, a, b') && PutBefore(Lookup(b.at, t), v)
    ensures if PutBefore(Lookup(b'.at, t), v) then b.k.running == t ==> Quiet(b, b')
            else b.k.running == t && PutAfter(Lookup(b'.at, t)) && Enqueues(b, b', v)
    ensures !Returns(b, b', t)
  {
    hide BufferInv, ActLeads;
    if t != b.k.running || a.Other? { OthersStay(b, a, b', t); }
    else if a == GoOn { PutStatement(b, a, b', v); }
    else { Entering(b, a, b'); }
  }

  /** `put` stores its argument: from the call on, the first time the caller moves
      the tail it is over the value it was called with. */
  lemma PutStoresArgument(bs: seq<Buffer>, acts: seq<Action>, v: int, j: nat)
    requires BufferRun(bs, acts) && 0 < j < |acts| && acts[0] == CallPut(v)
    requires bs[j].k.running == bs[0].k.running && bs[j + 1].stored != bs[j].stored
    requires forall k :: 0 <= k < j && bs[k].k.running == bs[0].k.running ==> bs[k + 1].stored == bs[k].stored
    ensures |bs| == |acts| + 1 && bs[j + 1].stored == bs[j].stored + [v]
  {
    hide BufferInv, BufferRun, ActLeads;
    InvInRun(bs, acts, j);
    PutPending(bs, acts, v, j);
    NextOfPut(bs[j], acts[j], bs[j + 1], bs[0].k.running, v);
  }

  /** So far in a `put(v)` by `t`: nothing yet (`m` is 0), or its value was enqueued
      by step `m`. */
  lemma {:induction false} PutSoFar(bs: seq<Buffer>, acts: seq<Action>, v: int, n: nat) returns (m: nat)
    requires BufferRun(bs, acts) && 0 < n <= |acts| && acts[0] == CallPut(v)
    requires forall k :: 0 < k < n ==> !Returns(bs[k], bs[k + 1], bs[0].k.running)
    ensures |bs| == |acts| + 1 && m < n
    ensures forall k :: 0 <= k < n && k != m && bs[k].k.running == bs[0].k.running ==> Quiet(bs[k], bs[k + 1])
    ensures m == 0 ==> Quiet(bs[0], bs[1]) && PutBefore(Lookup(bs[n].at, bs[0].k.running), v)
    ensures m > 0 ==> bs[m].k.running == bs[0].k.running && Enqueues(bs[m], bs[m + 1], v) && PutAfter(Lookup(bs[n].at, bs[0].k.running))
  {
    hide BufferInv, BufferRun, ActLeads, Lookup, Quiet, Enqueues, PutBefore, PutAfter, Returns;
    InvInRun(bs, acts, n - 1);
    var t := bs[0].k.running;
    if n == 1 {
      m := 0;
      FirstOfPut(bs[0], acts[0], bs[1], v);
    } else {
      m := PutSoFar(bs, acts, v, n - 1);
      if m == 0 {
        NextOfPut(bs[n - 1], acts[n - 1], bs[n], t, v);
        if !PutBefore(Lookup(bs[n].at, t), v) { m := n - 1; }
      } else {
        LastOfPut(bs[n - 1], acts[n - 1], bs[n], t);
      }
    }
  }

  lemma FirstOfPut(b: Buffer, a: Action, b': Buffer, v: int)
    requires ActLeads(b, a, b') && a == CallPut(v)
    ensures Quiet(b, b') && PutBefore(Lookup(b'.at, b.k.running), v)
  {
    hide ActLeads;
    Entering(b, a, b');
  }

  lemma LastOfPut(b: Buffer, a: Action, b': Buffer, t: ThreadId)
    requires BufferInv(b) && ActLeads(b, a, b') && PutAfter(Lookup(b.at, t))
    ensures b.k.running == t ==> Quiet(b, b') && Result(b, a) == None
    ensures PutAfter(Lookup(b'.at, t)) <==> !Returns(b, b', t)
  {
    hide BufferInv, ActLeads;
    if t != b.k.running || a.Other? { OthersStay(b, a, b', t); }
    else if a == GoOn { PutStatement(b, a, b', 0); }
    else { Entering(b, a, b'); }
  }

  /** A whole `put(v)`, from the call to its return in step `j`: exactly one step of the
      caller enqueues, it enqueues `v`, and nothing else the caller does touches the
      queue. */
  lemma PutTakesEffectOnce(bs: seq<Buffer>, acts: seq<Action>, v: int, j: nat) returns (m: nat)
    requires BufferRun(bs, acts) && 0 < j < |acts| && acts[0] == CallPut(v) && Returns(bs[j], bs[j + 1], bs[0].k.running)
    requires forall k :: 0 < k < j ==> !Returns(bs[k], bs[k + 1], bs[0].k.running)
    ensures |bs| == |acts| + 1 && 0 < m < j && bs[m].k.running == bs[0].k.running && Enqueues(bs[m], bs[m + 1], v)
    ensures forall k :: 0 <= k <= j && k != m && bs[k].k.running == bs[0].k.running ==> Quiet(bs[k], bs[k + 1])
    ensures Result(bs[j], acts[j]) == None
  {
    hide BufferInv, BufferRun, ActLeads, Lookup, Quiet, Enqueues, PutBefore, PutAfter, Result;
    InvInRun(bs, acts, j);
    m := PutSoFar(bs, acts, v, j);
    if m == 0 {
      NextOfPut(bs[j], acts[j], bs[j + 1], bs[0].k.running, v);
    } else {
      LastOfPut(bs[j], acts[j], bs[j + 1], bs[0].k.running);
    }
  }

  // ------------------------------------------------------------------------ get

  lemma NextOfGet(b: Buffer, a: Action, b': Buffer, t: ThreadId)
    requires BufferInv(b) && ActLeads(b, a, b') && GetBefore(Lookup(b.at, t))
    ensures if GetBefore(Lookup(b'.at, t)) then b.k.running == t ==> Quiet(b, b')
            else b.k.running == t && |b.taken| < |b.stored| && Dequeues(b, b', b.stored[|b.taken|])
                 && GetAfter(Lookup(b'.at, t), b.stored[|b.taken|])
    ensures !Returns(b, b', t)
  {
    hide BufferInv, ActLeads;
    if t != b.k.running || a.Other? { OthersStay(b, a, b', t); }
    else if a == GoOn { GetStatement(b, a, b'); }
    else { Entering(b, a, b'); }
  }

  lemma LastOfGet(b: Buffer, a: Action, b': Buffer, t: ThreadId, v: int)
    requires BufferInv(b) && ActLeads(b, a, b') && GetAfter(Lookup(b.at, t), v)
    ensures b.k.running == t ==> Quiet(b, b')
    ensures if Returns(b, b', t) then Result(b, a) == Some(v) else GetAfter(Lookup(b'.at, t), v)
  {
    hide BufferInv, ActLeads;
    if t != b.k.running || a.Other? { OthersStay(b, a, b', t); }
    else if a == GoOn { GetStatement(b, a, b'); }
    else { Entering(b, a, b'); }
  }

  lemma {:induction false} GetHolds(bs: seq<Buffer>, acts: seq<Action>, t: ThreadId, v: int, n: nat)
    requires BufferRun(bs, acts) && n <= |acts| && |bs| > 0 && GetAfter(Lookup(bs[0].at, t), v)
    requires forall k :: 0 <= k < n ==> !Returns(bs[k], bs[k + 1], t)
    ensures |bs| == |acts| + 1 && GetAfter(Lookup(bs[n].at, t), v)
    ensures forall k :: 0 <= k < n && bs[k].k.running == t ==> Quiet(bs[k], bs[k + 1])
  {
    hide BufferInv, BufferRun, ActLeads, Lookup, Quiet, GetAfter, Returns;
    InvInRun(bs, acts, n);
    if n > 0 {
      InvInRun(bs, acts, n - 1);
      GetHolds(bs, acts, t, v, n - 1);
      LastOfGet(bs[n - 1], acts[n - 1], bs[n], t, v);
    }
  }

  /** `get` returns what it took: when a thread moves the head in the first step of a
      run and returns in step `j`, it hands out the oldest value unread at that first
      step, the one its own move appended to the values taken. */
  lemma GetHandsOut(bs: seq<Buffer>, acts: seq<Action>, j: nat)
    requires BufferRun(bs, acts) && 0 < j < |acts| && bs[1].taken != bs[0].taken
    requires Returns(bs[j], bs[j + 1], bs[0].k.running)
    requires forall k :: 0 < k < j ==> !Returns(bs[k], bs[k + 1], bs[0].k.running)
    ensures |bs| == |acts| + 1 && |bs[0].taken| < |bs[0].stored|
    ensures Result(bs[j], acts[j]) == Some(bs[0].stored[|bs[0].taken|])
    ensures Dequeues(bs[0], bs[1], bs[0].stored[|bs[0].taken|])
  {
    hide BufferInv, BufferRun, ActLeads, Lookup, Returns, Dequeues, GetAfter, GetBefore, Result;
    InvInRun(bs, acts, 0);
    InvInRun(bs, acts, j);
    var t := bs[0].k.running;
    HeadMover(bs[0], acts[0], bs[1]);
    var v := bs[0].stored[|bs[0].taken|];
    RunRest(bs, acts, 1);
    GetHolds(bs[1..], acts[1..], t, v, j - 1);
    LastOfGet(bs[j], acts[j], bs[j + 1], t, v);
  }

  lemma HeadMover(b: Buffer, a: Action, b': Buffer)
    requires BufferInv(b) && ActLeads(b, a, b') && b'.taken != b.taken
    ensures |b.taken| < |b.stored| && Dequeues(b, b', b.stored[|b.taken|])
    ensures GetAfter(Lookup(b'.at, b.k.running), b.stored[|b.taken|])
  {
    hide BufferInv, ActLeads;
    WhoTakes(b, a, b');
    GetStatement(b, a, b');
  }

  lemma {:induction false} GetSoFar(bs: seq<Buffer>, acts: seq<Action>, n: nat) returns (m: nat, v: int)
    requires BufferRun(bs, acts) && 0 < n <= |acts| && acts[0] == CallGet
    requires forall k :: 0 < k < n ==> !Returns(bs[k], bs[k + 1], bs[0].k.running)
    ensures |bs| == |acts| + 1 && m < n
    ensures forall k :: 0 <= k < n && k != m && bs[k].k.running == bs[0].k.running ==> Quiet(bs[k], bs[k + 1])
    ensures m == 0 ==> Quiet(bs[0], bs[1]) && GetBefore(Lookup(bs[n].at, bs[0].k.running))
    ensures m > 0 ==> bs[m].k.running == bs[0].k.running && Dequeues(bs[m], bs[m + 1], v) && GetAfter(Lookup(bs[n].at, bs[0].k.running), v)
  {
    hide BufferInv, BufferRun, ActLeads, Lookup, Quiet, Dequeues, GetBefore, GetAfter, Returns;
    InvInRun(bs, acts, n - 1);
    var t := bs[0].k.running;
    if n == 1 {
      m, v := 0, 0;
      FirstOfGet(bs[0], acts[0], bs[1]);
    } else {
      m, v := GetSoFar(bs, acts, n - 1);
      if m == 0 {
        NextOfGet(bs[n - 1], acts[n - 1], bs[n], t);
        if !GetBefore(Lookup(bs[n].at, t)) { m, v := n - 1, bs[n - 1].stored[|bs[n - 1].taken|]; }
      } else {
        LastOfGet(bs[n - 1], acts[n - 1], bs[n], t, v);
      }
    }
  }

  lemma FirstOfGet(b: Buffer, a: Action, b': Buffer)
    requires ActLeads(b, a, b') && a == CallGet
    ensures Quiet(b, b') && GetBefore(Lookup(b'.at, b.k.running))
  {
    hide ActLeads;
    Entering(b, a, b');
  }

  /** A whole `get`, from the call to its return in step `j`: exactly one step of the
      caller dequeues, the value it returns is the oldest unread at that step, and
      nothing else the caller does touches the queue. */
  lemma GetTakesEffectOnce(bs: seq<Buffer>, acts: seq<Action>, j: nat) returns (m: nat, v: int)
    requires BufferRun(bs, acts) && 0 < j < |acts| && acts[0] == CallGet && Returns(bs[j], bs[j + 1], bs[0].k.running)
    requires forall k :: 0 < k < j ==> !Returns(bs[k], bs[k + 1], bs[0].k.running)
    ensures |bs| == |acts| + 1 && 0 < m < j && bs[m].k.running == bs[0].k.running && Dequeues(bs[m], bs[m + 1], v)
    ensures forall k :: 0 <= k <= j && k != m && bs[k].k.running == bs[0].k.running ==> Quiet(bs[k], bs[k + 1])
    ensures Result(bs[j], acts[j]) == Some(v)
  {
    hide BufferInv, BufferRun, ActLeads, Lookup, Quiet, Dequeues, GetBefore, GetAfter, Result;
    InvInRun(bs, acts, j);
    m, v := GetSoFar(bs, acts, j);
    if m == 0 {
      NextOfGet(bs[j], acts[j], bs[j + 1], bs[0].k.running);
    } else {
      LastOfGet(bs[j], acts[j], bs[j + 1], bs[0].k.running, v);
    }
  }

  // --------------------------------------------------------------------- getCnt

  lemma NextOfCount(b: Buffer, a: Action, b': Buffer, t: ThreadId)
    requires BufferInv(b) && ActLeads(b, a, b') && CountBefore(Lookup(b.at, t))
    ensures b.k.running == t ==> Quiet(b, b')
    ensures CountBefore(Lookup(b'.at, t)) || (b.k.running == t && CountAfter(Lookup(b'.at, t), Unread(b)))
    ensures !Returns(b, b', t)
  {
    hide BufferInv, ActLeads;
    if t != b.k.running || a.Other? { OthersStay(b, a, b', t); }
    else if a == GoOn { CountStatement(b, a, b'); }
    else { Entering(b, a, b'); }
  }

  lemma LastOfCount(b: Buffer, a: Action, b': Buffer, t: ThreadId, n: int)
    requires BufferInv(b) && ActLeads(b, a, b') && CountAfter(Lookup(b.at, t), n)
    ensures b.k.running == t ==> Quiet(b, b')
    ensures if Returns(b, b', t) then Result(b, a) == Some(n) else CountAfter(Lookup(b'.at, t), n)
  {
    hide BufferInv, ActLeads;
    if t != b.k.running || a.Other? { OthersStay(b, a, b', t); }
    else if a == GoOn { CountStatement(b, a, b'); }
    else { Entering(b, a, b'); }
  }

  lemma {:induction false} CountSoFar(bs: seq<Buffer>, acts: seq<Action>, n: nat) returns (m: nat)
    requires BufferRun(bs, acts) && 0 < n <= |acts| && acts[0] == CallCount
    requires forall k :: 0 < k < n ==> !Returns(bs[k], bs[k + 1], bs[0].k.running)
    ensures |bs| == |acts| + 1 && m < n
    ensures forall k :: 0 <= k < n && bs[k].k.running == bs[0].k.running ==> Quiet(bs[k], bs[k + 1])
    ensures m == 0 ==> CountBefore(Lookup(bs[n].at, bs[0].k.running))
    ensures m > 0 ==> bs[m].k.running == bs[0].k.running && CountAfter(Lookup(bs[n].at, bs[0].k.running), Unread(bs[m]))
  {
    hide BufferInv, BufferRun, ActLeads, Lookup, Quiet, CountBefore, CountAfter, Returns;
    InvInRun(bs, acts, n - 1);
    var t := bs[0].k.running;
    if n == 1 {
      m := 0;
      FirstOfCount(bs[0], acts[0], bs[1]);
    } else {
      m := CountSoFar(bs, acts, n - 1);
      if m == 0 {
        NextOfCount(bs[n - 1], acts[n - 1], bs[n], t);
        if !CountBefore(Lookup(bs[n].at, t)) { m := n - 1; }
      } else {
        LastOfCount(bs[n - 1], acts[n - 1], bs[n], t, Unread(bs[m]));
      }
    }
  }

  lemma FirstOfCount(b: Buffer, a: Action, b': Buffer)
    requires ActLeads(b, a, b') && a == CallCount
    ensures Quiet(b, b') && CountBefore(Lookup(b'.at, b.k.running))
  {
    hide ActLeads;
    Entering(b, a, b');
  }

  /** A whole `getCnt`: it changes nothing and returns the exact number of unread
      values at one moment between its call and its return. */
  lemma CountIsExactOnce(bs: seq<Buffer>, acts: seq<Action>, j: nat) returns (m: nat)
    requires BufferRun(bs, acts) && 0 < j < |acts| && acts[0] == CallCount && Returns(bs[j], bs[j + 1], bs[0].k.running)
    requires forall k :: 0 < k < j ==> !Returns(bs[k], bs[k + 1], bs[0].k.running)
    ensures |bs| == |acts| + 1 && 0 < m < j && bs[m].k.running == bs[0].k.running
    ensures Result(bs[j], acts[j]) == Some(|bs[m].stored| - |bs[m].taken|)
    ensures forall k :: 0 <= k <= j && bs[k].k.running == bs[0].k.running ==> Quiet(bs[k], bs[k + 1])
  {
    hide BufferInv, BufferRun, ActLeads, Lookup, Quiet, CountBefore, CountAfter, Result;
    InvInRun(bs, acts, j);
    m := CountSoFar(bs, acts, j);
    if m == 0 {
      NextOfCount(bs[j], acts[j], bs[j + 1], bs[0].k.running);
    } else {
      LastOfCount(bs[j], acts[j], bs[j + 1], bs[0].k.running, Unread(bs[m]));
    }
  }

  // ------------------------------------------------------------ from put to get

  /** A buffer that nobody has used yet. */
  predicate Unused(b: Buffer) { b.at == map[] && b.stored == [] && b.taken == [] }

  /** A thread that is about to store `v` was called with `v` and has not moved the tail
      since. */
  lemma {:induction false} CallOf(bs: seq<Buffer>, acts: seq<Action>, n: nat, u: ThreadId, v: int) returns (i: nat)
    requires BufferRun(bs, acts) && n <= |acts| && |bs| > n && Unused(bs[0]) && PutBefore(Lookup(bs[n].at, u), v)
    ensures |bs| == |acts| + 1 && i < n && acts[i] == CallPut(v) && bs[i].k.running == u
    ensures forall k :: i <= k < n && bs[k].k.running == u ==> bs[k + 1].stored == bs[k].stored
  {
    hide BufferInv, BufferRun, ActLeads;
    if n == 0 {
      assert false;
    } else {
      InvInRun(bs, acts, n - 1);
      Earlier(bs[n - 1], acts[n - 1], bs[n], u, v);
      if acts[n - 1] == CallPut(v) && bs[n - 1].k.running == u {
        i := n - 1;
      } else {
        i := CallOf(bs, acts, n - 1, u, v);
      }
    }
  }

  lemma Earlier(b: Buffer, a: Action, b': Buffer, u: ThreadId, v: int)
    requires BufferInv(b) && ActLeads(b, a, b') && PutBefore(Lookup(b'.at, u), v)
    ensures PutBefore(Lookup(b.at, u), v) || (a == CallPut(v) && b.k.running == u)
    ensures b.k.running == u ==> b'.stored == b.stored
  {
    hide BufferInv, Permitted, Defined, Next;
  }

  /** The `k`-th value stored is the argument of a call of `put`: the one whose caller
      moved the tail over it. */
  lemma {:induction false} StoredComesFromPut(bs: seq<Buffer>, acts: seq<Action>, n: nat, k: nat) returns (i: nat, e: nat)
    requires BufferRun(bs, acts) && n <= |acts| && |bs| > n && Unused(bs[0]) && k < |bs[n].stored|
    ensures |bs| == |acts| + 1 && i < e < n && acts[i] == CallPut(bs[n].stored[k]) && bs[e].k.running == bs[i].k.running
    ensures |bs[e].stored| == k && Enqueues(bs[e], bs[e + 1], bs[n].stored[k])
    ensures forall l :: i <= l < e && bs[l].k.running == bs[i].k.running ==> bs[l + 1].stored == bs[l].stored
  {
    hide BufferInv, BufferRun, ActLeads, PutBefore, Lookup;
    if n == 0 {
      assert false;
    } else {
      InvInRun(bs, acts, n - 1);
      if bs[n].stored == bs[n - 1].stored {
        i, e := StoredComesFromPut(bs, acts, n - 1, k);
      } else {
        TailMover(bs[n - 1], acts[n - 1], bs[n]);
        var u, v := bs[n - 1].k.running, bs[n].stored[|bs[n - 1].stored|];
        if k < |bs[n - 1].stored| {
          i, e := StoredComesFromPut(bs, acts, n - 1, k);
        } else {
          i := CallOf(bs, acts, n - 1, u, v);
          e := n - 1;
        }
      }
    }
  }

  lemma TailMover(b: Buffer, a: Action, b': Buffer)
    requires BufferInv(b) && ActLeads(b, a, b') && b'.stored != b.stored
    ensures |b'.stored| == |b.stored| + 1 && Enqueues(b, b', b'.stored[|b.stored|])
    ensures PutBefore(Lookup(b.at, b.k.running), b'.stored[|b.stored|])
  {
    hide BufferInv, Permitted, Defined, Next;
    WhoStores(b, a, b');
  }

  /** First in, first out, from argument to result: in any run of a new buffer, the
      value returned by the `get` that takes the `k`-th value is the argument of the
      `put` that stored the `k`-th. */
  lemma GetReturnsWhatPutWasGiven(bs: seq<Buffer>, acts: seq<Action>, m: nat, j: nat) returns (i: nat, e: nat)
    requires BufferRun(bs, acts) && |bs| == |acts| + 1 && Unused(bs[0]) && m < j < |acts| && bs[m + 1].taken != bs[m].taken
    requires Returns(bs[j], bs[j + 1], bs[m].k.running)
    requires forall k :: m < k < j ==> !Returns(bs[k], bs[k + 1], bs[m].k.running)
    ensures i < e < m && acts[i].CallPut? && bs[e].k.running == bs[i].k.running
    ensures |bs[e].stored| == |bs[m].taken| && Enqueues(bs[e], bs[e + 1], acts[i].v)
    ensures forall l :: i <= l < e && bs[l].k.running == bs[i].k.running ==> bs[l + 1].stored == bs[l].stored
    ensures Result(bs[j], acts[j]) == Some(acts[i].v)
  {
    hide BufferInv, BufferRun, ActLeads, Returns, Result, Dequeues;
    RunRest(bs, acts, m);
    forall k | 0 < k < j - m ensures !Returns(bs[m..][k], bs[m..][k + 1], bs[m].k.running) {
      assert !Returns(bs[m + k], bs[m + k + 1], bs[m].k.running);
    }
    GetHandsOut(bs[m..], acts[m..], j - m);
    i, e := StoredComesFromPut(bs, acts, m, |bs[m].taken|);
  }
}
