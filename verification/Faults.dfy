/** Containment of EL0 faults: exactly when a fault kills its task only, and what else it does. */
module Faults {
  import opened Base
  import opened Memory
  import opened State
  import opened Threads
  import opened Ipc
  import opened Supervisor
  import opened Machine
  import opened Invariant
  import opened Runs
  import opened Context
  import opened Frames
  import opened RpcKernel
  import opened Mailbox
  import opened Shapes

  /** Task `j` waits for a reply that only task `slot` could give. */
  predicate ServedBy(s: Kernel, slot: int, j: int)
    requires |s.eps| == EP_COUNT
  {
    exists k :: 0 <= k < EP_COUNT && s.eps[k].owner == slot && s.eps[k].caller == j
  }

  /** The log item of a fault. */
  function FaultItem(s: Kernel, tf: TrapFrame): UartItem
    requires Fits(s) && s.current != NONE
  {
    FaultLine(TaskName(s.threads[s.current]), tf.esr, tf.elr, tf.far)
  }

  /** Another task after a fault of the current one: a caller it served is woken with -1, the
      waiting supervisor with its slot, and nobody else is touched. */
  predicate Bystander(s: Kernel, r: Kernel, j: nat)
    requires Fits(s) && Fits(r) && j < IDLE && 0 <= s.current < IDLE
  {
    var t, u := s.threads[j], r.threads[j];
    && u.entry == t.entry && u.userSp == t.userSp
    && (if ServedBy(s, s.current, j) then u.ctx == WithX0(t.ctx, MINUS_ONE) && !Waits(u)
        else if s.waiter == j then u.ctx == WithX0(t.ctx, s.current) && !Waits(u)
        else u.ctx == t.ctx && (u.task == t.task || (r.current == j && t.task.TaskRunnable?)))
    && (r.current == j ==> r.el0 == u.ctx)
  }

  predicate Waits(t: Thread) {
    t.task.TaskBlocked? || t.task.TaskDead?
  }

  /** The fault is contained: the task is dead, one line is logged, its endpoints are cleaned,
      the supervisor is told, the other tasks are bystanders, and memory is as it was. */
  ghost predicate Contained(s: Kernel, tf: TrapFrame, r: Kernel)
    requires Fits(s) && 0 <= s.current < IDLE
  {
    && Inv(r) && r.build == s.build && r.mem == s.mem
    && r.threads[s.current].task.TaskDead? && r.current != s.current
    && r.uart == s.uart + [FaultItem(s, tf)]
    && (forall k :: 0 < k < EP_COUNT ==> r.eps[k] == AfterDeath(s.eps[k], s.current))
    && r.waiter == NONE && r.death == (if s.waiter == NONE then s.current else s.death)
    && (forall j: nat :: j < IDLE && j != s.current ==> Bystander(s, r, j))
  }

  // ---------------------------------------------------------------- the line

  /** The line an orderly exit leaves, and nothing from any other return. */
  function Farewell(t: Thread): seq<UartItem> {
    if t.reason.Exit? then [ExitLine(TaskName(t))] else []
  }

  lemma ReturnUart(s: Kernel, w: nat)
    requires Redirected(s)
    ensures ReturnStep(s, w).Ok? && ReturnStep(s, w).value.uart == s.uart + Farewell(s.threads[s.current])
  {
    ParkInv(s);
    ParkUart(s);
    var p := Park(s).value.(resched := true);
    SameKernelKeeps(Park(s).value, p);
    SwitchReturns(p, w);
    hide Park, SwitchAndResume, Common, Parked, Redirected;
  }

  lemma ParkUart(s: Kernel)
    requires Redirected(s)
    ensures Park(s).Ok? && Park(s).value.uart == s.uart + Farewell(s.threads[s.current])
  {
    assert s.uart + [] == s.uart;
    if Dying(s.threads[s.current]) {
      var dead := MarkDead(s);
      MarkDeadInv(s);
      DeathFromInv(dead, 0);
      DeathFromEps(dead, 0, 0);
      var m := DeathFrom(dead, s.current, 0).value;
      NoteDeathInv(m);
      NoteDeathFrame(m, s.current);
      hide DeathFrom, NoteDeath, Common, WaitsMatch;
    } else {
      ParkLiveEffect(s);
    }
  }

  // ---------------------------------------------------------------- the bystanders

  /** A sleeper that neither the dead task served nor the supervisor's slot names sleeps on. */
  lemma SleepsOn(s: Kernel, r: Kernel, j: nat)
    requires Inv(s) && Inv(r) && 0 <= s.current < IDLE && j < IDLE && j != s.current
    requires forall k :: 0 < k < EP_COUNT ==> r.eps[k] == AfterDeath(s.eps[k], s.current)
    requires s.threads[j].task.TaskBlocked? && !ServedBy(s, s.current, j) && s.waiter != j
    ensures r.threads[j].task.TaskBlocked?
  {
    assert j in Blocked(s);
    var w :| Named(s, w) == j;
    assert s.eps[0].owner == NONE;
    assert Named(r, w) == j;
  }

  /** A caller the dead task served, and the waiting supervisor, sleep before the fault. */
  lemma NamedSleeps(s: Kernel, j: nat)
    requires UserRunning(s) && j < IDLE && j != s.current
    ensures ServedBy(s, s.current, j) ==> s.threads[j].task.TaskBlocked? && s.waiter != j
    ensures s.waiter == j ==> s.threads[j].task.TaskBlocked?
  {
    assert Named(s, SupervisorWait) == s.waiter;
    if ServedBy(s, s.current, j) {
      var k :| 0 <= k < EP_COUNT && s.eps[k].owner == s.current && s.eps[k].caller == j;
      assert Named(s, CallerOf(k)) == j && j in Blocked(s);
      assert CallerOf(k) != SupervisorWait;
    }
    assert s.waiter == j ==> j in Blocked(s);
  }

  lemma ServedGetsMinusOne(s: Kernel, tf: TrapFrame, w: nat, j: nat)
    requires UserRunning(s) && InSandbox(tf.elr) && !IsSvc(tf) && j < IDLE && ServedBy(s, s.current, j)
    ensures TrapStep(s, tf, w).Ok?
    ensures var u := TrapStep(s, tf, w).value.threads[j];
            !u.task.TaskBlocked? && u.ctx.x[0] == MINUS_ONE
  {
    var k :| 0 <= k < EP_COUNT && s.eps[k].owner == s.current && s.eps[k].caller == j;
    HandleTrapInv(s, tf);
    PlainReason(s, tf);
    PlainKeepsEps(s, tf);
    hide Inv, HandleTrap, ReturnStep, Common;
    ReturnEps(HandleTrap(s, tf).value.0, w, k);
  }

  lemma BystanderStands(s: Kernel, tf: TrapFrame, w: nat, j: nat)
    requires UserRunning(s) && InSandbox(tf.elr) && !IsSvc(tf) && j < IDLE && j != s.current
    requires TrapStep(s, tf, w).Ok? && Inv(TrapStep(s, tf, w).value)
    requires var r := TrapStep(s, tf, w).value;
             && (forall k :: 0 < k < EP_COUNT ==> r.eps[k] == AfterDeath(s.eps[k], s.current))
             && (s.waiter != NONE ==>
                   s.waiter == TASK_C && X0Of(r, s.waiter) == s.current && !r.threads[TASK_C].task.TaskBlocked?)
    ensures Bystander(s, TrapStep(s, tf, w).value, j)
  {
    var r := TrapStep(s, tf, w).value;
    TrapOtherCtx(s, tf, w, j);
    NamedSleeps(s, j);
    if ServedBy(s, s.current, j) {
      ServedGetsMinusOne(s, tf, w, j);
    } else if s.waiter != j && s.threads[j].task.TaskBlocked? {
      SleepsOn(s, r, j);
    }
    hide Inv, TrapStep, ServedBy;
  }

  // ---------------------------------------------------------------- the theorem

  lemma FaultParts(s: Kernel, tf: TrapFrame, w: nat)
    requires UserRunning(s) && InSandbox(tf.elr) && !IsSvc(tf)
    ensures TrapStep(s, tf, w).Ok?
    ensures var r := TrapStep(s, tf, w).value;
            && Inv(r) && r.build == s.build && r.mem == s.mem && r.threads[s.current].task.TaskDead?
            && r.uart == s.uart + [FaultItem(s, tf)]
            && r.waiter == NONE && r.death == (if s.waiter == NONE then s.current else s.death)
            && (s.waiter != NONE ==>
                  s.waiter == TASK_C && X0Of(r, s.waiter) == s.current && !r.threads[TASK_C].task.TaskBlocked?)
  {
    TrapStepInv(s, tf, w);
    HandleTrapInv(s, tf);
    HandleReason(s, tf);
    PlainKeepsEps(s, tf);
    HandlerMail(s, tf);
    FaultLogged(s, tf);
    hide Inv, HandleTrap, ReturnStep, Common;
    var s1 := HandleTrap(s, tf).value.0;
    ReturnUart(s1, w);
    assert s1.uart + [] == s1.uart;
    ReturnMail(s1, w);
    ReturnEps(s1, w, 0);
  }

  lemma FaultLogged(s: Kernel, tf: TrapFrame)
    requires UserRunning(s) && !IsSvc(tf) && HandleTrap(s, tf).Ok?
    ensures HandleTrap(s, tf).value.1.ToKernel? && HandleTrap(s, tf).value.0.uart == s.uart + [FaultItem(s, tf)]
  {
  }

  /** A fault kills its task and nothing more if and only if it was taken at an ELR inside the
      sandbox; otherwise it stops the kernel. */
  lemma FaultContainedExactly(s: Kernel, tf: TrapFrame, w: nat)
    requires UserRunning(s) && !IsSvc(tf)
    ensures TrapStep(s, tf, w).Ok? <==> InSandbox(tf.elr)
    ensures TrapStep(s, tf, w).Ok? ==> Contained(s, tf, TrapStep(s, tf, w).value)
    ensures TrapStep(s, tf, w).Panicked? ==> TrapStep(s, tf, w).reason == TrapElrOutside
  {
    assert s.(mem := s.mem) == s;
    PanicsExactly(s, Trap(s.mem, tf, w));
    if InSandbox(tf.elr) {
      FaultParts(s, tf, w);
      var r := TrapStep(s, tf, w).value;
      forall k | 0 < k < EP_COUNT ensures r.eps[k] == AfterDeath(s.eps[k], s.current) {
        PlainEps(s, tf, w, k);
      }
      forall j: nat | j < IDLE && j != s.current ensures Bystander(s, r, j) {
        BystanderStands(s, tf, w, j);
      }
      OneRunningTask(r, s.current);
    }
  }

  /** The wild jump: from boot, one instruction abort at address 0 stops the kernel. */
  lemma WildJumpStopsTheKernel(b: Build, mem: Mem)
    requires b.LayoutOk()
    ensures var abort := TrapFrame(ZeroRegs(), 0, 0, 0, 0x8000_0000, 0);
            Run(Boot(b, mem), [Trap(mem, abort, 0)]) == Panicked(TrapElrOutside)
  {
    var e := Trap(mem, TrapFrame(ZeroRegs(), 0, 0, 0, 0x8000_0000, 0), 0);
    BootInv(b, mem);
    PanicsExactly(Boot(b, mem), e);
    assert Do(Boot(b, mem), e) == Panicked(TrapElrOutside);
  }
}
