/** Bounded bypass in the kernel: how many return steps a task that can run may wait. */
module Fairness {
  import opened Base
  import opened Memory
  import opened State
  import opened Threads
  import opened Machine
  import opened Invariant
  import opened Runs
  import opened Context
  import opened Scheduler

  /** The pick and the resumption behind it. */
  lemma PickedIsNearest(s: Kernel, i: nat)
    requires Parked(s) && i < IDLE && Selectable(s.threads[i])
    ensures PickNext(s.threads, s.current).Ok?
    ensures var next := PickNext(s.threads, s.current).value;
            && Resume(SwitchTo(s, next)).Ok? && Resume(SwitchTo(s, next)).value.current == next < IDLE
            && Distance(THREAD_COUNT, s.current, next) <= Distance(THREAD_COUNT, s.current, i)
  {
    PickOk(s);
    var next := PickNext(s.threads, s.current).value;
    PickIsNearest(s.threads, s.current, next);
    SwitchParked(s, next);
    hide PickNext, SwitchTo, Resume, Parked;
    ResumeSwitched(SwitchTo(s, next));
  }

  /** The switch goes to a user slot at least as near as any selectable one. */
  lemma SwitchPicksNearest(s: Kernel, w: nat, i: nat)
    requires Parked(s) && s.resched && i < IDLE && Selectable(s.threads[i])
    ensures SwitchAndResume(s, w).Ok?
    ensures var c := SwitchAndResume(s, w).value.current;
            0 <= c < IDLE && Distance(THREAD_COUNT, s.current, c) <= Distance(THREAD_COUNT, s.current, i)
  {
    var s1 := s.(resched := false);
    SameKernelKeeps(s, s1);
    TicksOthers(s1, w);
    TicksKeep(s1, w);
    var s2 := Ticks(s1, w);
    TicksSelectable(s, s2);
    PickedIsNearest(s2, i);
    hide Resume, SwitchTo, PickNext, Ticks, Common;
    assert SwitchAndResume(s, w) == Resume(SwitchTo(s2, PickNext(s2.threads, s2.current).value));
  }

  /** After a return step the CPU belongs to a task at least as near as any that waits to run. */
  lemma ReturnPicksNearest(s: Kernel, w: nat, i: nat)
    requires Redirected(s) && i < IDLE && i != s.current && s.threads[i].task.TaskRunnable?
    ensures ReturnStep(s, w).Ok?
    ensures var c := ReturnStep(s, w).value.current;
            0 <= c < IDLE && Distance(THREAD_COUNT, s.current, c) <= Distance(THREAD_COUNT, s.current, i)
  {
    ParkInv(s);
    ParkOthers(s);
    var p := Park(s).value.(resched := true);
    SameKernelKeeps(Park(s).value, p);
    assert OtherTask(s.threads[i], p.threads[i]);
    assert ThreadOk(p.build, p.threads[i], i);
    SwitchPicksNearest(p, w, i);
  }

  /** One trap of another task, seen from a task that waits to run. */
  lemma TrapPicksNearest(s: Kernel, tf: TrapFrame, w: nat, i: nat)
    requires UserRunning(s) && InSandbox(tf.elr) && i < IDLE && i != s.current && s.threads[i].task.TaskRunnable?
    ensures TrapStep(s, tf, w).Ok?
    ensures var c := TrapStep(s, tf, w).value.current;
            if Parks(s, tf) then
              0 <= c < IDLE && Distance(THREAD_COUNT, s.current, c) <= Distance(THREAD_COUNT, s.current, i)
            else c == s.current
  {
    ParksExactly(s, tf);
    HandleTrapInv(s, tf);
    HandleTrapOthers(s, tf);
    if Parks(s, tf) {
      var s1 := HandleTrap(s, tf).value.0;
      RestartAnswers(s, tf);
      assert OtherTask(s.threads[i], s1.threads[i]);
      hide HandleTrap, Parks, Redirected, Inv;
      ReturnPicksNearest(s1, w, i);
    }
  }

  lemma RestartAnswers(s: Kernel, tf: TrapFrame)
    requires UserRunning(s) && Parks(s, tf)
    ensures !RestartAsked(tf)
  {
  }

  /** How many return steps a run contains. */
  function ReturnSteps(s: Kernel, es: seq<Event>): nat
    requires Fits(s)
    decreases |es|
  {
    if es == [] || Do(s, es[0]).Panicked? then 0
    else
      (if Enabled(s, es[0]) && es[0].Trap? && Parks(s.(mem := es[0].mem), es[0].tf) then 1 else 0)
      + ReturnSteps(Do(s, es[0]).value, es[1..])
  }

  /** One event brings a waiting task nearer, runs it, or is no return step. */
  lemma EventPicksNearest(s: Kernel, e: Event, i: nat)
    requires Inv(s) && TrapInside(e) && i < IDLE && s.threads[i].task.TaskRunnable?
    ensures Do(s, e).Ok? && Inv(Do(s, e).value)
    ensures 0 <= s.current < IDLE && i != s.current
    ensures var r := Do(s, e).value;
            && (r.current == i || r.threads[i].task.TaskRunnable?)
            && 0 <= r.current < IDLE
            && (r.current != i ==>
                  if Enabled(s, e) && e.Trap? && Parks(s.(mem := e.mem), e.tf)
                  then Distance(THREAD_COUNT, r.current, i) < Distance(THREAD_COUNT, s.current, i)
                  else r.current == s.current)
  {
    assert ThreadOk(s.build, s.threads[i], i);
    assert UserSelectable(s, i);
    StepOtherCtx(s, e, i);
    if Enabled(s, e) && e.Trap? {
      var s0 := s.(mem := e.mem);
      SameKernelKeeps(s, s0);
      TrapPicksNearest(s0, e.tf, e.w, i);
      var r := Do(s, e).value;
      if r.current != i && Parks(s0, e.tf) {
        CloserNext(THREAD_COUNT, s.current, r.current, i);
      }
    }
  }

  /** A task that can run enters EL0, with its saved registers, before the run has made as many
      return steps as its cyclic distance from the current task: at most three. */
  lemma {:induction false} EntersWithin(s: Kernel, es: seq<Event>, i: nat)
    requires Inv(s) && StaysInside(es) && i < IDLE && s.threads[i].task.TaskRunnable?
    requires 0 <= s.current < IDLE && ReturnSteps(s, es) >= Distance(THREAD_COUNT, s.current, i)
    ensures Distance(THREAD_COUNT, s.current, i) <= 3
    ensures exists k :: 0 < k <= |es| && EntersAt(s, es, k, i)
    decreases |es|
  {
    assert TrapInside(es[0]);
    EventPicksNearest(s, es[0], i);
    StepOtherCtx(s, es[0], i);
    var m := Do(s, es[0]).value;
    if m.current == i {
      RunPrefix(s, es, 1);
      assert EntersAt(s, es, 1, i);
    } else {
      EntersWithin(m, es[1..], i);
      var k :| 0 < k <= |es[1..]| && EntersAt(m, es[1..], k, i);
      RunPrefix(s, es, k + 1);
      assert EntersAt(s, es, k + 1, i);
    }
  }

  /** After `k` events task `i` is in EL0 with the registers it had saved in `s`. */
  ghost predicate EntersAt(s: Kernel, es: seq<Event>, k: nat, i: nat)
    requires Fits(s) && i < IDLE && k <= |es|
  {
    && Run(s, es[..k]).Ok?
    && var r := Run(s, es[..k]).value;
       r.current == i && r.el0 == s.threads[i].ctx
  }

  lemma RunPrefix(s: Kernel, es: seq<Event>, k: nat)
    requires Fits(s) && 0 < k <= |es| && Do(s, es[0]).Ok?
    ensures Run(s, es[..k]) == Run(Do(s, es[0]).value, es[1..][..k - 1])
  {
    assert es[..k][1..] == es[1..][..k - 1];
  }
}
