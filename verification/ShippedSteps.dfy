/** Every step of the shipped OFF and RECOVERY systems keeps the system invariant. */
module ShippedSteps {
  import opened Base
  import opened Memory
  import opened State
  import opened Ipc
  import opened Machine
  import opened Invariant
  import opened Runs
  import opened Context
  import opened Frames
  import opened RpcKernel
  import opened Mailbox
  import opened Shapes
  import opened Shipped

  /** What a step does to the registers and life of every task, as far as the system
      invariant cares. */
  ghost predicate TaskView(s: Kernel, tf: TrapFrame, r: Kernel)
    requires Fits(s) && Fits(r) && 0 <= s.current < IDLE
  {
    && Pc(r, s.current).elr == tf.elr
    && Pc(r, s.current) == FrameCtx(tf, Pc(r, s.current).x[0])
    && (forall j: nat :: j < IDLE && j != s.current ==> OtherView(s, tf, r, j))
  }

  predicate OtherView(s: Kernel, tf: TrapFrame, r: Kernel, j: nat)
    requires |s.threads| == THREAD_COUNT && |r.threads| == THREAD_COUNT && j < IDLE && j != s.current
  {
    && (!Dead(s, j) ==> !Dead(r, j) && Pc(r, j).elr == s.threads[j].ctx.elr)
    && (!Sleeps(s, j) && !Dead(s, j) ==> Pc(r, j) == s.threads[j].ctx && !Sleeps(r, j))
    && (Sleeps(s, j) && Sleeps(r, j) ==> Pc(r, j) == s.threads[j].ctx)
    && (Sleeps(s, j) ==> Pc(r, j) == WithX0(s.threads[j].ctx, Pc(r, j).x[0]))
    && (Dead(s, j) && !RestartAsked(tf) ==> Dead(r, j))
    && (Dead(s, j) && !Dead(r, j) ==> Pc(r, j) == FreshCtx(s.threads[j]) && !Sleeps(r, j))
    && Pc(r, j).x[0] == r.threads[j].ctx.x[0]
  }

  lemma TrapTaskView(s: Kernel, tf: TrapFrame, w: nat)
    requires UserRunning(s) && InSandbox(tf.elr)
    ensures TrapStep(s, tf, w).Ok? && Inv(TrapStep(s, tf, w).value)
    ensures TaskView(s, tf, TrapStep(s, tf, w).value)
  {
    TrapStepInv(s, tf, w);
    var r := TrapStep(s, tf, w).value;
    assert s.(mem := s.mem) == s;
    TrapOwnCtx(s, Trap(s.mem, tf, w));
    forall j: nat | j < IDLE && j != s.current ensures OtherView(s, tf, r, j) {
      TrapOtherCtx(s, tf, w, j);
      assert s.threads[j].task.TaskRunning? <==> j == s.current;
    }
  }

  /** Swapping in EL0's memory keeps the invariant as long as the flag reads the same. */
  lemma MemSwap(l: Layout, s: Kernel, mem: Mem)
    requires SystemOk(l, s) && Crashed(l, mem) == Crashed(l, s.mem)
    ensures SystemOk(l, s.(mem := mem))
  {
    SameKernelKeeps(s, s.(mem := mem));
  }

  /** The parts outside the thread table that the system invariant reads. */
  ghost predicate RestSame(l: Layout, s: Kernel, r: Kernel)
    requires |s.eps| == |r.eps| == EP_COUNT && RangeOk(l.flag, 4)
  {
    r.eps[EP_UART] == s.eps[EP_UART] && r.death == s.death && r.waiter == s.waiter && r.build == s.build
    && Crashed(l, r.mem) == Crashed(l, s.mem)
  }

  /** Yields, clock reads, refused or direct writes: only the task's own position moves. */
  lemma QuietTrap(l: Layout, s: Kernel, tf: TrapFrame, w: nat)
    requires UserRunning(s) && InSandbox(tf.elr) && IsSvc(tf) && RangeOk(l.flag, 4)
    requires tf.x[8] == SYS_YIELD || tf.x[8] == SYS_TIME_TICKS || (tf.x[8] == SYS_WRITE && !Parks(s, tf))
    ensures TrapStep(s, tf, w).Ok? && RestSame(l, s, TrapStep(s, tf, w).value)
    ensures tf.x[8] != SYS_YIELD ==> TrapStep(s, tf, w).value.current == s.current
  {
    ParksExactly(s, tf);
    HandleTrapInv(s, tf);
    HandlerMail(s, tf);
    if tf.x[8] == SYS_YIELD {
      ReturnEps(HandleTrap(s, tf).value.0, w, EP_UART);
    } else {
      AnsweredRuns(s, tf, w);
    }
  }

  /** With the endpoint and the supervisor's slot untouched, nobody else starts or stops
      sleeping. */
  lemma SameSleepers(l: Layout, s: Kernel, r: Kernel)
    requires Inv(s) && Inv(r) && !s.build.latency && RangeOk(l.flag, 4) && RestSame(l, s, r)
    ensures forall j: nat :: j < IDLE ==> Sleeps(r, j) == Sleeps(s, j)
  {
    WhoSleeps(s);
    WhoSleeps(r);
    forall j: nat | j < IDLE ensures Sleeps(r, j) == Sleeps(s, j) {
      assert j == TASK_A || j == TASK_B || j == TASK_C;
    }
  }

  lemma AQuiet(l: Layout, s: Kernel, tf: TrapFrame, r: Kernel)
    requires SystemOk(l, s) && s.current == TASK_A && Inv(r) && TaskView(s, tf, r) && IsSvc(tf)
    requires tf.x[8] != SYS_TASK_RESTART && RestSame(l, s, r) && !Dead(r, TASK_A)
    ensures SystemOk(l, r)
  {
    SameSleepers(l, s, r);
    assert OtherView(s, tf, r, TASK_B) && OtherView(s, tf, r, TASK_C);
  }

  /** task_a's request, queued or handed to the sleeping server. */
  lemma AAsked(l: Layout, s: Kernel, tf: TrapFrame, r: Kernel, len: nat)
    requires SystemOk(l, s) && s.current == TASK_A && Inv(r) && TaskView(s, tf, r)
    requires IsSvc(tf) && tf.x[8] != SYS_TASK_RESTART && !Dead(r, TASK_A) && len <= IPC_MSG_SIZE
    requires Accepting(s.eps[EP_UART])
    requires r.eps[EP_UART].caller == TASK_A && r.eps[EP_UART].receiver == NONE
    requires r.eps[EP_UART].hasPending == (s.eps[EP_UART].receiver == NONE)
    requires s.eps[EP_UART].receiver != NONE ==> X0Of(r, s.eps[EP_UART].receiver) == Min(len, s.eps[EP_UART].bufCap)
    requires r.death == s.death && r.waiter == s.waiter && r.build == s.build
    requires Crashed(l, r.mem) == Crashed(l, s.mem)
    ensures SystemOk(l, r)
  {
    WhoSleeps(s);
    WhoSleeps(r);
    assert OtherView(s, tf, r, TASK_B) && OtherView(s, tf, r, TASK_C);
  }

  /** Copying into the receive buffer leaves the flag alone. */
  lemma FlagUntouched(l: Layout, m: Mem, src: u64, n: nat, bytes: seq<byte>)
    requires RangeOk(l.recvBuf, 256) && RangeOk(l.flag, 4) && n <= 256 && |bytes| <= 256
    requires l.flag + 4 <= l.recvBuf || l.recvBuf + 256 <= l.flag
    ensures InSandbox(src) && src + n <= SANDBOX_END ==> Crashed(l, CopyWithin(m, l.recvBuf, src, n)) == Crashed(l, m)
    ensures Crashed(l, Store(m, l.recvBuf, bytes)) == Crashed(l, m)
  {
    var d, f := l.recvBuf - SANDBOX_BASE, l.flag - SANDBOX_BASE;
    if InSandbox(src) && src + n <= SANDBOX_END {
      forall k | f <= k < f + 4 ensures CopyWithin(m, l.recvBuf, src, n)[k] == m[k] {
        ForwardCopyAt(m, d, src - SANDBOX_BASE, n, k);
      }
      assert Load(CopyWithin(m, l.recvBuf, src, n), l.flag, 4) == Load(m, l.flag, 4);
    }
    assert Load(Store(m, l.recvBuf, bytes), l.flag, 4) == Load(m, l.flag, 4);
  }

  lemma StepA(l: Layout, s: Kernel, tf: TrapFrame, w: nat)
    requires SystemOk(l, s) && s.current == TASK_A && TrapOfA(l, s, Trap(s.mem, tf, w))
    ensures TrapStep(s, tf, w).Ok? && SystemOk(l, TrapStep(s, tf, w).value)
    ensures Crashed(l, TrapStep(s, tf, w).value.mem) == Crashed(l, s.mem)
    ensures TrapStep(s, tf, w).value.threads[TASK_B].task.TaskDead? == Dead(s, TASK_B)
  {
    if tf.x[8] == SYS_WRITE && Parks(s, tf) {
      AWritesRouted(l, s, tf, w);
    } else {
      TrapTaskView(s, tf, w);
      var r := TrapStep(s, tf, w).value;
      ANotDead(s, tf, w);
      assert OtherView(s, tf, r, TASK_B);
      QuietTrap(l, s, tf, w);
      AQuiet(l, s, tf, r);
    }
  }

  lemma AWritesRouted(l: Layout, s: Kernel, tf: TrapFrame, w: nat)
    requires SystemOk(l, s) && s.current == TASK_A && TrapOfA(l, s, Trap(s.mem, tf, w))
    requires tf.x[8] == SYS_WRITE && Parks(s, tf)
    ensures TrapStep(s, tf, w).Ok? && SystemOk(l, TrapStep(s, tf, w).value)
    ensures Crashed(l, TrapStep(s, tf, w).value.mem) == Crashed(l, s.mem)
    ensures TrapStep(s, tf, w).value.threads[TASK_B].task.TaskDead? == Dead(s, TASK_B)
  {
    TrapTaskView(s, tf, w);
    var r := TrapStep(s, tf, w).value;
    ANotDead(s, tf, w);
    assert OtherView(s, tf, r, TASK_B);
    SubmitReturns(s, tf, w, EP_UART, tf.x[0], tf.x[1], 0, 0, tf.x[1], EP_UART);
    FlagUntouched(l, s.mem, tf.x[0], Min(tf.x[1], s.eps[EP_UART].bufCap), []);
    AAsked(l, s, tf, r, tf.x[1]);
  }

  /** A system call other than exit never kills its caller. */
  lemma ANotDead(s: Kernel, tf: TrapFrame, w: nat)
    requires UserRunning(s) && InSandbox(tf.elr) && IsSvc(tf) && tf.x[8] != SYS_EXIT
    ensures TrapStep(s, tf, w).Ok? && !Dead(TrapStep(s, tf, w).value, s.current)
  {
    HandleTrapInv(s, tf);
    var (s1, how) := HandleTrap(s, tf).value;
    if how.ToKernel? {
      NotDyingCall(s, tf);
      ReturnEps(s1, w, 0);
    } else {
      AnsweredRuns(s, tf, w);
    }
  }

  lemma NotDyingCall(s: Kernel, tf: TrapFrame)
    requires UserRunning(s) && InSandbox(tf.elr) && IsSvc(tf) && tf.x[8] != SYS_EXIT
    requires HandleTrap(s, tf).Ok? && HandleTrap(s, tf).value.1.ToKernel?
    ensures !Dying(HandleTrap(s, tf).value.0.threads[s.current])
  {
    ParksExactly(s, tf);
    if tf.x[8] == SYS_IPC_CALL {
      SubmitHandled(s, tf, tf.x[0], tf.x[1], tf.x[2], tf.x[3], tf.x[4], 0);
    } else if tf.x[8] == SYS_WRITE {
      SubmitHandled(s, tf, EP_UART, tf.x[0], tf.x[1], 0, 0, tf.x[1]);
    }
  }

  // ---------------------------------------------------------------- task_b

  lemma BWrites(l: Layout, s: Kernel, tf: TrapFrame, w: nat)
    requires SystemOk(l, s) && s.current == TASK_B && IsSvc(tf) && tf.x[8] == SYS_WRITE && InSandbox(tf.elr)
    requires if s.el0.elr == s.build.entryB then tf.elr == l.bReady
             else s.el0.elr == l.bRecv && s.el0.x[0] != MINUS_ONE && tf.elr == l.bWrite
    ensures TrapStep(s, tf, w).Ok? && SystemOk(l, TrapStep(s, tf, w).value)
    ensures Crashed(l, TrapStep(s, tf, w).value.mem) == Crashed(l, s.mem)
  {
    TrapTaskView(s, tf, w);
    QuietTrap(l, s, tf, w);
    var r := TrapStep(s, tf, w).value;
    SameSleepers(l, s, r);
    assert OtherView(s, tf, r, TASK_A) && OtherView(s, tf, r, TASK_C);
  }

  lemma BReceives(l: Layout, s: Kernel, tf: TrapFrame, w: nat)
    requires SystemOk(l, s) && s.current == TASK_B && RecvCall(l, tf) && !Busy(l, s)
    ensures TrapStep(s, tf, w).Ok? && SystemOk(l, TrapStep(s, tf, w).value)
    ensures Crashed(l, TrapStep(s, tf, w).value.mem) == Crashed(l, s.mem)
  {
    TrapTaskView(s, tf, w);
    RecvResult(l, s, tf, w);
    var r := TrapStep(s, tf, w).value;
    WhoSleeps(s);
    WhoSleeps(r);
    assert OtherView(s, tf, r, TASK_A) && OtherView(s, tf, r, TASK_C);
  }

  /** task_b's receive either takes the queued request or goes to sleep. */
  lemma RecvResult(l: Layout, s: Kernel, tf: TrapFrame, w: nat)
    requires SystemOk(l, s) && s.current == TASK_B && RecvCall(l, tf)
    ensures TrapStep(s, tf, w).Ok?
    ensures var r := TrapStep(s, tf, w).value;
            var ep := s.eps[EP_UART];
            && r.death == s.death && r.waiter == s.waiter && r.build == s.build
            && Crashed(l, r.mem) == Crashed(l, s.mem)
            && !Dead(r, TASK_B)
            && (if ep.hasPending then
                  r.eps[EP_UART] == ClearPending(ep) && r.current == TASK_B && r.el0.x[0] <= IPC_MSG_SIZE
                else r.eps[EP_UART] == SetReceiver(ep, TASK_B, l.recvBuf, 256))
  {
    ParksExactly(s, tf);
    HandleTrapInv(s, tf);
    HandlerMail(s, tf);
    ANotDead(s, tf, w);
    var ep := s.eps[EP_UART];
    assert ep.owner == TASK_B;
    if ep.hasPending {
      AnsweredRuns(s, tf, w);
      FlagUntouched(l, s.mem, 0, 0, ep.pendingMsg[..Min(ep.pendingLen, 256)]);
    } else {
      AwakeIsUnnamed(s);
      ReturnEps(HandleTrap(s, tf).value.0, w, EP_UART);
    }
  }

  lemma BReplies(l: Layout, s: Kernel, tf: TrapFrame, w: nat)
    requires SystemOk(l, s) && s.current == TASK_B && s.el0.elr == l.bWrite
    requires Syscall(tf, SYS_IPC_REPLY, l.bReply) && tf.x[0] == EP_UART && tf.x[1] == l.recvBuf && tf.x[2] == 0
    ensures TrapStep(s, tf, w).Ok? && SystemOk(l, TrapStep(s, tf, w).value)
    ensures Crashed(l, TrapStep(s, tf, w).value.mem) == Crashed(l, s.mem)
  {
    TrapTaskView(s, tf, w);
    ReplyEps(s, tf, EP_UART);
    HandlerMail(s, tf);
    AnsweredRuns(s, tf, w);
    var r := TrapStep(s, tf, w).value;
    assert s.eps[EP_UART].owner == TASK_B && RangeOk(l.recvBuf, 0);
    assert r.mem == s.mem;
    WhoSleeps(s);
    WhoSleeps(r);
    assert OtherView(s, tf, r, TASK_A) && OtherView(s, tf, r, TASK_C);
  }

  /** The injected crash: task_b dies, a waiting client gets -1, the supervisor is told. */
  lemma BCrashes(l: Layout, s: Kernel, tf: TrapFrame, w: nat, before: Mem)
    requires SystemOk(l, s.(mem := before)) && s.current == TASK_B && s.el0.elr == l.bReply
    requires !IsSvc(tf) && InSandbox(tf.elr) && Crashed(l, s.mem)
    ensures TrapStep(s, tf, w).Ok? && SystemOk(l, TrapStep(s, tf, w).value)
    ensures Dead(TrapStep(s, tf, w).value, TASK_B) && Crashed(l, TrapStep(s, tf, w).value.mem)
  {
    SameKernelKeeps(s.(mem := before), s);
    TrapTaskView(s, tf, w);
    HandleTrapInv(s, tf);
    var s1 := HandleTrap(s, tf).value.0;
    PlainReason(s, tf);
    PlainKeepsEps(s, tf);
    HandlerMail(s, tf);
    ReturnEps(s1, w, EP_UART);
    ReturnMail(s1, w);
    var r := TrapStep(s, tf, w).value;
    CrashOk(l, s, tf, r, before);
  }

  lemma CrashOk(l: Layout, s: Kernel, tf: TrapFrame, r: Kernel, before: Mem)
    requires SystemOk(l, s.(mem := before)) && s.current == TASK_B && s.el0.elr == l.bReply && !IsSvc(tf)
    requires Inv(s) && Inv(r) && TaskView(s, tf, r) && Crashed(l, r.mem) && r.build == s.build
    requires r.eps[EP_UART] == AfterDeath(s.eps[EP_UART], TASK_B) && Dead(r, TASK_B)
    requires r.waiter == NONE
    requires if s.waiter == NONE then r.death == TASK_B else r.death == s.death && X0Of(r, s.waiter) == TASK_B
    ensures SystemOk(l, r)
  {
    WhoSleeps(s);
    WhoSleeps(r);
    assert OtherView(s, tf, r, TASK_A) && OtherView(s, tf, r, TASK_C);
  }

  lemma StepB(l: Layout, s: Kernel, e: Event)
    requires SystemOk(l, s) && s.current == TASK_B && e.Trap? && TrapOfB(l, s, e)
    ensures Step(s, e).Ok? && SystemOk(l, Step(s, e).value)
    ensures Crashed(l, s.mem) ==> Crashed(l, Step(s, e).value.mem)
    ensures Dead(Step(s, e).value, TASK_B) ==> !Crashed(l, s.mem) && Crashed(l, Step(s, e).value.mem)
  {
    var s0 := s.(mem := e.mem);
    var pc := s.el0.elr;
    assert l.BPoint(s.build, pc);
    if pc == l.bReply && !Crashed(l, s.mem) {
      assert s0.(mem := s.mem) == s;
      BCrashes(l, s0, e.tf, e.w, s.mem);
    } else {
      MemSwap(l, s, e.mem);
      if pc == s.build.entryB && l.off {
        BWrites(l, s0, e.tf, e.w);
      } else if pc == l.bRecv && s.el0.x[0] != MINUS_ONE {
        BWrites(l, s0, e.tf, e.w);
      } else if pc == l.bWrite {
        BReplies(l, s0, e.tf, e.w);
      } else {
        BReceives(l, s0, e.tf, e.w);
      }
      ANotDead(s0, e.tf, e.w);
    }
  }

  // ---------------------------------------------------------------- task_c

  lemma CWrites(l: Layout, s: Kernel, tf: TrapFrame, w: nat)
    requires SystemOk(l, s) && s.current == TASK_C && IsSvc(tf) && tf.x[8] == SYS_WRITE && InSandbox(tf.elr)
    requires s.el0.elr != l.cWait && (tf.elr == l.cReady || tf.elr == l.cSaid)
    ensures TrapStep(s, tf, w).Ok? && SystemOk(l, TrapStep(s, tf, w).value)
    ensures Crashed(l, TrapStep(s, tf, w).value.mem) == Crashed(l, s.mem)
    ensures Dead(TrapStep(s, tf, w).value, TASK_B) == Dead(s, TASK_B)
  {
    TrapTaskView(s, tf, w);
    QuietTrap(l, s, tf, w);
    ANotDead(s, tf, w);
    var r := TrapStep(s, tf, w).value;
    SameSleepers(l, s, r);
    assert OtherView(s, tf, r, TASK_A) && OtherView(s, tf, r, TASK_B);
  }

  lemma CWaits(l: Layout, s: Kernel, tf: TrapFrame, w: nat)
    requires SystemOk(l, s) && s.current == TASK_C && Syscall(tf, SYS_SUPERVISE_WAIT, l.cWait) && !Held(l, s)
    ensures TrapStep(s, tf, w).Ok? && SystemOk(l, TrapStep(s, tf, w).value)
    ensures Crashed(l, TrapStep(s, tf, w).value.mem) == Crashed(l, s.mem)
    ensures Dead(TrapStep(s, tf, w).value, TASK_B) == Dead(s, TASK_B)
  {
    TrapTaskView(s, tf, w);
    WaitResult(s, tf, w);
    ANotDead(s, tf, w);
    var r := TrapStep(s, tf, w).value;
    WhoSleeps(s);
    WhoSleeps(r);
    assert OtherView(s, tf, r, TASK_A) && OtherView(s, tf, r, TASK_B);
  }

  lemma WaitResult(s: Kernel, tf: TrapFrame, w: nat)
    requires UserRunning(s) && s.current == TASK_C && InSandbox(tf.elr) && IsWait(tf)
    ensures TrapStep(s, tf, w).Ok?
    ensures var r := TrapStep(s, tf, w).value;
            && r.eps[EP_UART] == s.eps[EP_UART] && r.mem == s.mem && r.build == s.build && r.death == NONE
            && (if s.death != NONE then r.waiter == s.waiter && r.current == TASK_C && r.el0.x[0] == s.death
                else r.waiter == TASK_C)
  {
    AwakeIsUnnamed(s);
    HandleTrapInv(s, tf);
    PlainKeepsEps(s, tf);
    if s.death != NONE {
      AnsweredRuns(s, tf, w);
    } else {
      ReturnEps(HandleTrap(s, tf).value.0, w, EP_UART);
    }
  }

  /** The restart: task_b is dead when it is asked for, so it succeeds. */
  lemma CRestarts(l: Layout, s: Kernel, tf: TrapFrame, w: nat)
    requires SystemOk(l, s) && s.current == TASK_C && Held(l, s)
    requires Syscall(tf, SYS_TASK_RESTART, l.cRestart) && tf.x[0] == TASK_B
    ensures TrapStep(s, tf, w).Ok? && SystemOk(l, TrapStep(s, tf, w).value)
    ensures Crashed(l, TrapStep(s, tf, w).value.mem) == Crashed(l, s.mem)
    ensures Dead(s, TASK_B) && !Dead(TrapStep(s, tf, w).value, TASK_B)
    ensures TrapStep(s, tf, w).value.el0.x[0] == 0
  {
    TrapTaskView(s, tf, w);
    HandleTrapInv(s, tf);
    PlainKeepsEps(s, tf);
    HandlerMail(s, tf);
    RestartSucceeds(s, tf);
    AnsweredRuns(s, tf, w);
    ANotDead(s, tf, w);
    var r := TrapStep(s, tf, w).value;
    WhoSleeps(s);
    WhoSleeps(r);
    assert OtherView(s, tf, r, TASK_A) && OtherView(s, tf, r, TASK_B);
  }

  lemma RestartSucceeds(s: Kernel, tf: TrapFrame)
    requires UserRunning(s) && s.current == TASK_C && Dead(s, TASK_B)
    requires IsSvc(tf) && tf.x[8] == SYS_TASK_RESTART && tf.x[0] == TASK_B
    ensures HandleTrap(s, tf).Ok? && HandleTrap(s, tf).value.1 == ToUser(0)
    ensures HandleTrap(s, tf).value.0.threads[TASK_B].task.TaskRunnable?
  {
    assert ThreadOk(s.build, s.threads[TASK_B], TASK_B);
  }

  lemma StepC(l: Layout, s: Kernel, e: Event)
    requires SystemOk(l, s) && s.current == TASK_C && e.Trap? && TrapOfC(l, s, e)
    ensures Step(s, e).Ok? && SystemOk(l, Step(s, e).value)
    ensures Crashed(l, s.mem) ==> Crashed(l, Step(s, e).value.mem)
    ensures Dead(Step(s, e).value, TASK_B) ==> Dead(s, TASK_B)
  {
    var s0 := s.(mem := e.mem);
    MemSwap(l, s, e.mem);
    if s.el0.elr == l.cWait && s.el0.x[0] == TASK_B {
      CRestarts(l, s0, e.tf, e.w);
    } else if e.tf.x[8] == SYS_WRITE {
      CWrites(l, s0, e.tf, e.w);
    } else {
      CWaits(l, s0, e.tf, e.w);
    }
  }
}
