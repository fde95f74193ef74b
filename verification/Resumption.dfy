/** From a trap to the next entry into EL0: what a task gets back, told from what it asked. */
module Resumption {
  import opened Base
  import opened Memory
  import opened State
  import opened Threads
  import opened Machine
  import opened Invariant
  import opened Runs
  import opened Context
  import opened Frames
  import opened Shapes

  predicate Dies(tf: TrapFrame) {
    !IsSvc(tf) || tf.x[8] == SYS_EXIT
  }

  predicate Yields(tf: TrapFrame) {
    IsSvc(tf) && tf.x[8] == SYS_YIELD
  }

  /** What a trap that parks its task makes of it. */
  lemma ParkedAs(s: Kernel, tf: TrapFrame, w: nat)
    requires UserRunning(s) && InSandbox(tf.elr) && Parks(s, tf)
    ensures TrapStep(s, tf, w).Ok?
    ensures var t := TrapStep(s, tf, w).value.threads[s.current].task;
            && (t.TaskDead? <==> Dies(tf))
            && (t.TaskBlocked? <==> !Dies(tf) && !Yields(tf))
  {
    ParksExactly(s, tf);
    HandleTrapInv(s, tf);
    HandleReason(s, tf);
    hide HandleTrap, Inv, ReturnStep, Parks;
    ReturnEps(HandleTrap(s, tf).value.0, w, 0);
  }

  /** The registers of a start at the entry point: all general registers zero, the task's own
      entry and stack, EL0 with SP_EL0 in AArch64 state (mode bits 0), and debug exceptions,
      SError, IRQ and FIQ masked (bits 9 to 6), all other flags clear. */
  predicate StartsFresh(b: Build, c: UserCtx, j: nat) {
    && (forall i :: 0 <= i < 31 ==> c.x[i] == 0)
    && c.elr == (if j == 0 then b.entryA else if j == 1 then b.entryB else b.entryC)
    && c.sp == (if j == 0 then 0x40FE_0000 else if j == 1 then 0x4100_0000 else 0x40FC_0000)
    && c.spsr % 0x40 == 0 && c.spsr / 0x40 == 15
  }

  /** Every task's first entry into EL0 after boot, over any run before it, is such a start. */
  lemma FirstEntry(b: Build, mem: Mem, es: seq<Event>, j: nat)
    requires b.LayoutOk() && StaysInside(es) && j < IDLE
    requires if es == [] then j == TASK_A else Away(Boot(b, mem), es, j)
    ensures Run(Boot(b, mem), es).Ok?
    ensures var r := Run(Boot(b, mem), es).value;
            r.current == j ==> StartsFresh(b, r.el0, j)
  {
    BootInv(b, mem);
    if es != [] {
      BootFresh(b, mem, j);
      hide Inv, Boot, Run;
      RunnableResumes(Boot(b, mem), es, j);
    }
  }

  lemma BootFresh(b: Build, mem: Mem, j: nat)
    requires j < IDLE && j != TASK_A
    ensures Boot(b, mem).threads[j].task.TaskRunnable?
    ensures StartsFresh(b, Boot(b, mem).threads[j].ctx, j)
  {
  }

  /** From a trap that parks the task to its next entry into EL0, over any run in between:
      a yield brings back all registers as trapped; an exit or a fault brings back the task's
      entry point and stack with zeroed registers; anything else brings back the trapped
      registers with only x0 changed, by exactly one wake. */
  lemma TrapToResume(s: Kernel, e: Event, es: seq<Event>)
    requires Inv(s) && Enabled(s, e) && e.Trap? && TrapInside(e) && Parks(s.(mem := e.mem), e.tf)
    requires StaysInside(es) && es != []
    requires Step(s, e).Ok? && Away(Step(s, e).value, es, s.current)
    requires Run(Step(s, e).value, es).Ok? && Run(Step(s, e).value, es).value.current == s.current
    ensures var j := s.current;
            var trapped := UserCtx(e.tf.x, e.tf.sp, e.tf.elr, e.tf.spsr);
            var parked := Step(s, e).value;
            var r := Run(parked, es).value;
            if Yields(e.tf) then r.el0 == trapped
            else if Dies(e.tf) then
              r.el0 == UserCtx(ZeroRegs(), StackOf(j), EntryOf(s.build, j), SPSR_EL0T_MASKED)
              && StartsFresh(s.build, r.el0, j)
            else r.el0 == WithX0(trapped, r.el0.x[0]) && Wakes(parked, es, j) == 1
  {
    TrapOwnCtx(s, e);
    StepInv(s, e);
    var j, parked := s.current, Step(s, e).value;
    SameKernelKeeps(s, s.(mem := e.mem));
    ParkedAs(s.(mem := e.mem), e.tf, e.w);
    if Yields(e.tf) {
      RunnableResumes(parked, es, j);
    } else if Dies(e.tf) {
      DeadResumes(parked, es, j);
      StepBuild(s, e);
      assert ThreadOk(parked.build, parked.threads[j], j);
    } else {
      BlockedResumes(parked, es, j);
      BlockedWakes(parked, es, j);
    }
  }

  lemma StepBuild(s: Kernel, e: Event)
    requires Inv(s) && Enabled(s, e) && e.Trap? && TrapInside(e)
    ensures Step(s, e).Ok? && Step(s, e).value.build == s.build
  {
    var s0 := s.(mem := e.mem);
    SameKernelKeeps(s, s0);
    HandleTrapInv(s0, e.tf);
    hide HandleTrap, Inv, ReturnStep;
    if HandleTrap(s0, e.tf).value.1.ToKernel? {
      ReturnEps(HandleTrap(s0, e.tf).value.0, e.w, 0);
    }
  }
}
