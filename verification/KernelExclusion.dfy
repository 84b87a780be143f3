/** Who holds the units of a semaphore: for any clients, over any run in which a
    thread signals only what it holds. */
module KernelExclusion {
  import opened ListSpec
  import opened KernelState
  import opened KernelInvariant
  import opened KernelDispatch
  import opened KernelRuns

  /** The holders after a step. A wait that does not block makes the caller a holder;
      a signal takes the caller off and makes the first waiter one. A thread is
      counted once for every unit it holds. */
  function HoldersAfter(st: State, step: Step, s: SemId, held: multiset<ThreadId>): multiset<ThreadId>
    requires s in st.sems
  {
    var m := st.sems[s];
    match step
    case DoWait(r) => if r == s && !MustBlock(st, s) then held + multiset{st.running} else held
    case DoTimedWait(r, _) => if r == s && !MustBlock(st, s) then held + multiset{st.running} else held
    case DoSignal(r) =>
      if r != s then held
      else held - multiset{st.running} + if m.val < 0 && m.queue != [] then multiset{m.queue[0]} else multiset{}
    case _ => held
  }

  /** The holders of `s` after `n` steps of a run that starts without any. */
  function HoldersAt(sts: seq<State>, steps: seq<Step>, s: SemId, n: nat): multiset<ThreadId>
    requires n <= |steps| < |sts| && forall i :: 0 <= i < |sts| ==> s in sts[i].sems
  {
    if n == 0 then multiset{} else HoldersAfter(sts[n - 1], steps[n - 1], s, HoldersAt(sts, steps, s, n - 1))
  }

  /** Bracketed use: each signal is by a thread that holds a unit. */
  ghost predicate Bracketed(sts: seq<State>, steps: seq<Step>, s: SemId)
    requires |steps| < |sts| && forall i :: 0 <= i < |sts| ==> s in sts[i].sems
  {
    forall i :: 0 <= i < |steps| && steps[i] == DoSignal(s) ==> sts[i].running in HoldersAt(sts, steps, s, i)
  }

  lemma StepKeepsUnits(st: State, step: Step, s: SemId, held: multiset<ThreadId>)
    requires Inv(st) && Allowed(st, step) && s in st.sems && step != DoClose(s)
    requires step == DoSignal(s) ==> st.running in held
    ensures Defined(st, step) && s in Next(st, step).sems
    ensures |HoldersAfter(st, step, s, held)| + Units(Next(st, step).sems[s]) == |held| + Units(st.sems[s])
  {
    hide Core, Allowed, Defined, Next, Minus, TakeWhile;
    StepKeepsInv(st, step);
    StepSem(st, step, s);
    QueueFacts(st, s);
    QueueFacts(Next(st, step), s);
  }

  /** Units left and units held add up to the units the semaphore was opened with. */
  lemma {:induction false} UnitsHeld(sts: seq<State>, steps: seq<Step>, s: SemId, units: nat, n: nat)
    requires Run(sts, steps) && s in sts[0].sems && sts[0].sems[s] == Sem(units, []) && DoClose(s) !in steps && n <= |steps|
    ensures |sts| == |steps| + 1 && Alive(sts, s)
    ensures Bracketed(sts, steps, s) ==> |HoldersAt(sts, steps, s, n)| + Units(sts[n].sems[s]) == units
  {
    hide Inv, Allowed, Defined, Next, Units;
    UnitsAreConserved(sts, steps, s);
    if n == 0 {
      UnitsOf(sts[0].sems[s]);
    } else if Bracketed(sts, steps, s) {
      UnitsHeld(sts, steps, s, units, n - 1);
      InvAlong(sts, steps, n - 1);
      assert Leads(sts[n - 1], steps[n - 1], sts[n]);
      StepKeepsUnits(sts[n - 1], steps[n - 1], s, HoldersAt(sts, steps, s, n - 1));
    }
  }

  lemma UnitsOf(m: Sem)
    ensures m.val >= 0 ==> Units(m) == m.val
  {
  }

  /** Mutual exclusion for any clients: with one unit and bracketed use, two threads
      between grant and signal are the same thread, and it was granted once. */
  lemma MutualExclusion(sts: seq<State>, steps: seq<Step>, s: SemId, n: nat, t: ThreadId, u: ThreadId)
    requires Run(sts, steps) && s in sts[0].sems && sts[0].sems[s] == Sem(1, []) && DoClose(s) !in steps && n <= |steps|
    ensures |sts| == |steps| + 1 && Alive(sts, s)
    ensures Bracketed(sts, steps, s) && t in HoldersAt(sts, steps, s, n) && u in HoldersAt(sts, steps, s, n) ==>
              t == u && HoldersAt(sts, steps, s, n) == multiset{t} && sts[n].sems[s].val <= 0
  {
    hide Run, Bracketed, HoldersAt;
    UnitsHeld(sts, steps, s, 1, n);
    var held := HoldersAt(sts, steps, s, n);
    if Bracketed(sts, steps, s) && t in held && u in held {
      var rest := held - multiset{t};
      assert held == rest + multiset{t} && |rest| == 0;
    }
  }
}
