/** Crash recovery over whole runs of the shipped OFF and RECOVERY systems. */
module ShippedRuns {
  import opened Base
  import opened Memory
  import opened State
  import opened Machine
  import opened Invariant
  import opened Runs
  import opened Shapes
  import opened Shipped
  import opened ShippedSteps

  ghost predicate ShippedRun(l: Layout, s: Kernel, es: seq<Event>)
    requires Fits(s) && RangeOk(l.flag, 4)
    decreases |es|
  {
    es != [] ==>
      && ByShipped(l, s, es[0])
      && (Do(s, es[0]).Ok? ==> ShippedRun(l, Do(s, es[0]).value, es[1..]))
  }

  /** How many deaths of task `i`, and how many of its restarts, a run contains. */
  function Deaths(s: Kernel, es: seq<Event>, i: nat): nat
    requires Fits(s) && i < IDLE
    decreases |es|
  {
    if es == [] || Do(s, es[0]).Panicked? then 0
    else
      var r := Do(s, es[0]).value;
      (if !Dead(s, i) && Dead(r, i) then 1 else 0) + Deaths(r, es[1..], i)
  }

  function Revivals(s: Kernel, es: seq<Event>, i: nat): nat
    requires Fits(s) && i < IDLE
    decreases |es|
  {
    if es == [] || Do(s, es[0]).Panicked? then 0
    else
      var r := Do(s, es[0]).value;
      (if Dead(s, i) && !Dead(r, i) then 1 else 0) + Revivals(r, es[1..], i)
  }

  /** task_b may still die once if the flag is clear. */
  function CrashesLeft(l: Layout, s: Kernel): nat
    requires RangeOk(l.flag, 4)
  {
    if Crashed(l, s.mem) then 0 else 1
  }

  lemma ShippedStep(l: Layout, s: Kernel, e: Event)
    requires SystemOk(l, s) && ByShipped(l, s, e)
    ensures Do(s, e).Ok? && SystemOk(l, Do(s, e).value)
    ensures Dead(s, TASK_B) ==> CrashesLeft(l, s) == 0
    ensures CrashesLeft(l, Do(s, e).value) <= CrashesLeft(l, s)
    ensures !Dead(s, TASK_B) && Dead(Do(s, e).value, TASK_B) ==> CrashesLeft(l, Do(s, e).value) < CrashesLeft(l, s)
  {
    SomeoneRuns(l, s);
    match e
    case Trap(mem, tf, w) =>
      TrapKeepsFlag(l, s, e);
    case TimerTick =>
      TickKeepsInv(s);
      TickFrame(s);
    case IdlePass(_) =>
  }

  lemma TrapKeepsFlag(l: Layout, s: Kernel, e: Event)
    requires SystemOk(l, s) && s.current != IDLE && e.Trap? && ByShipped(l, s, e)
    ensures Step(s, e).Ok? && SystemOk(l, Step(s, e).value)
    ensures CrashesLeft(l, Step(s, e).value) <= CrashesLeft(l, s)
    ensures !Dead(s, TASK_B) && Dead(Step(s, e).value, TASK_B) ==> CrashesLeft(l, Step(s, e).value) < CrashesLeft(l, s)
  {
    if s.current == TASK_A {
      var s0 := s.(mem := e.mem);
      MemSwap(l, s, e.mem);
      StepA(l, s0, e.tf, e.w);
      assert Step(s, e) == TrapStep(s0, e.tf, e.w);
    } else if s.current == TASK_B {
      StepB(l, s, e);
    } else {
      StepC(l, s, e);
    }
  }

  lemma {:induction false} ShippedSafe(l: Layout, s: Kernel, es: seq<Event>)
    requires SystemOk(l, s) && ShippedRun(l, s, es)
    ensures Run(s, es).Ok? && SystemOk(l, Run(s, es).value)
    ensures Deaths(s, es, TASK_B) <= CrashesLeft(l, s)
    ensures Revivals(s, es, TASK_B) <= Deaths(s, es, TASK_B) + (if Dead(s, TASK_B) then 1 else 0)
    ensures Deaths(s, es, TASK_A) == Deaths(s, es, TASK_C) == 0
    decreases |es|
  {
    if es != [] {
      ShippedStep(l, s, es[0]);
      ShippedSafe(l, Do(s, es[0]).value, es[1..]);
    }
  }

  /** In MONO and MICRO, OFF and RECOVERY: the shipped tasks never make the kernel panic and
      never leave it idle; some user task is always selectable. While task_b is dead its
      notice is in exactly one place: the mailbox, or with task_c (in the x0 it was woken or
      answered with) before its restart call. task_b dies at most once and is restarted at
      most once; the other two never die. The UART endpoint stays in the four orderly shapes,
      across the crash and the restart. */
  lemma CrashRecovery(l: Layout, b: Build, mem: Mem, es: seq<Event>)
    requires l.Suits(b) && !b.latency && ShippedRun(l, Boot(b, mem), es)
    ensures Run(Boot(b, mem), es).Ok?
    ensures var s := Run(Boot(b, mem), es).value;
            && s.current != IDLE
            && (UserSelectable(s, TASK_A) || UserSelectable(s, TASK_B) || UserSelectable(s, TASK_C))
            && !Dead(s, TASK_A) && !Dead(s, TASK_C)
            && (Dead(s, TASK_B) ==> (s.death == TASK_B) != Held(l, s))
            && (!Dead(s, TASK_B) ==> s.death == NONE && !Held(l, s))
            && Orderly(ShapeOf(s.eps[EP_UART]))
    ensures Deaths(Boot(b, mem), es, TASK_B) <= 1
    ensures Revivals(Boot(b, mem), es, TASK_B) <= Deaths(Boot(b, mem), es, TASK_B)
  {
    BootOk(l, b, mem);
    ShippedSafe(l, Boot(b, mem), es);
    SomeoneRuns(l, Run(Boot(b, mem), es).value);
  }
}
