/** Integrity of the user registers: what a task resumes with is what it trapped with. */
module Context {
  import opened Base
  import opened Memory
  import opened State
  import opened Threads
  import opened Ipc
  import opened Supervisor
  import opened Machine
  import opened Invariant
  import opened Runs

  function WithX0(c: UserCtx, v: u64): UserCtx {
    c.(x := c.x[0 := v])
  }

  /** The registers a restarted task begins with. */
  function FreshCtx(t: Thread): UserCtx {
    UserCtx(ZeroRegs(), t.userSp, t.entry, SPSR_EL0T_MASKED)
  }

  predicate Woken(t: Thread, u: Thread) {
    t.task.TaskBlocked?
    && u == t.(ctx := WithX0(t.ctx, u.ctx.x[0]), task := TaskRunnable, state := ThreadRunnable)
  }

  predicate Restarted(t: Thread, u: Thread) {
    t.task.TaskDead?
    && u == t.(ctx := FreshCtx(t), task := TaskRunnable, state := ThreadRunnable, reason := NoReason, started := false)
  }

  /** All that kernel work done on behalf of one task can do to another, a restart apart. */
  predicate OtherTask(t: Thread, u: Thread) {
    u == t || Woken(t, u)
  }

  predicate RestartAsked(tf: TrapFrame) {
    IsSvc(tf) && tf.x[8] == SYS_TASK_RESTART
  }

  ghost predicate OthersKept(s: Kernel, r: Kernel)
    requires |s.threads| == |r.threads| == THREAD_COUNT
  {
    && r.current == s.current
    && forall j :: 0 <= j < IDLE && j != s.current ==> OtherTask(s.threads[j], r.threads[j])
  }

  lemma PlaceOthers(s: Kernel, e: nat, src: u64, len: nat, replyPtr: u64, replyCap: u64, override: u64)
    requires UserRunning(s) && 0 < e < EP_COUNT && len <= IPC_MSG_SIZE && RangeOk(src, len)
    requires BufferOk(replyPtr, replyCap)
    requires s.eps[e].owner != NONE && !s.eps[e].hasPending && s.eps[e].caller == NONE
    ensures var out := Place(s, e, SetCaller(s.eps[e], s.current, replyPtr, replyCap, override), src, len);
            out.Ok? && OthersKept(s, out.value)
  {
    PlaceInv(s, e, src, len, replyPtr, replyCap, override);
    assert s.eps[e].receiver != NONE ==> Named(s, ReceiverOf(e)) in Blocked(s);
  }

  /** A handler's effect on registers: other tasks as in `OthersKept`, or restarted if that is
      what the trap asks for; a redirected task has its trapped registers saved. */
  ghost predicate CtxHandled(s: Kernel, tf: TrapFrame, out: Result<(Kernel, Leave)>)
    requires |s.threads| == THREAD_COUNT && 0 <= s.current < THREAD_COUNT
  {
    out.Ok? ==>
      var (r, how) := out.value;
      && |r.threads| == THREAD_COUNT && r.current == s.current
      && (if RestartAsked(tf) then
            && how.ToUser?
            && forall j :: 0 <= j < IDLE && j != s.current ==>
                 r.threads[j] == s.threads[j] || Restarted(s.threads[j], r.threads[j])
          else OthersKept(s, r))
      && (how.ToKernel? ==> r.threads[s.current].ctx == UserCtx(tf.x, tf.sp, tf.elr, tf.spsr))
  }

  lemma SubmitOthers(s: Kernel, tf: TrapFrame, e: nat, src: u64, len: nat,
                     replyPtr: u64, replyCap: u64, override: u64)
    requires !RestartAsked(tf)
    requires UserRunning(s) && 0 < e < EP_COUNT && len <= IPC_MSG_SIZE && RangeOk(src, len)
    requires BufferOk(replyPtr, replyCap)
    requires s.eps[e].owner != NONE && !s.eps[e].hasPending && s.eps[e].caller == NONE
    ensures CtxHandled(s, tf, Submit(s, tf, e, src, len, replyPtr, replyCap, override))
  {
    PlaceOthers(s, e, src, len, replyPtr, replyCap, override);
  }

  lemma CallOthers(s: Kernel, tf: TrapFrame)
    requires !RestartAsked(tf)
    requires UserRunning(s)
    ensures CtxHandled(s, tf, Call(s, tf))
  {
    if Call(s, tf) != Refuse(s) {
      SubmitOthers(s, tf, tf.x[0], tf.x[1], tf.x[2], tf.x[3], tf.x[4], 0);
    }
  }

  lemma ReplyOthers(s: Kernel, tf: TrapFrame)
    requires !RestartAsked(tf)
    requires UserRunning(s)
    ensures CtxHandled(s, tf, Reply(s, tf))
  {
    if Reply(s, tf) != Refuse(s) {
      assert Named(s, CallerOf(tf.x[0])) in Blocked(s);
    }
  }

  lemma RecvOthers(s: Kernel, tf: TrapFrame)
    requires !RestartAsked(tf)
    requires UserRunning(s)
    ensures CtxHandled(s, tf, Recv(s, tf))
  {
  }

  lemma WriteOthers(s: Kernel, tf: TrapFrame)
    requires !RestartAsked(tf)
    requires UserRunning(s)
    ensures CtxHandled(s, tf, Write(s, tf))
  {
    if s.build.micro && s.current == TASK_A && Write(s, tf) != Refuse(s) {
      SubmitOthers(s, tf, EP_UART, tf.x[0], tf.x[1], 0, 0, tf.x[1]);
    }
  }

  lemma WaitOthers(s: Kernel, tf: TrapFrame)
    requires UserRunning(s) && !RestartAsked(tf)
    ensures CtxHandled(s, tf, Wait(s, tf))
  {
  }

  lemma RestartOthers(s: Kernel, tf: TrapFrame)
    requires UserRunning(s) && RestartAsked(tf)
    ensures CtxHandled(s, tf, RestartCall(s, tf.x[0]))
  {
    assert ThreadOk(s.build, s.threads[TASK_B], TASK_B);
  }

  lemma RedirectOthers(s: Kernel, uart: seq<UartItem>, tf: TrapFrame, reason: Reason)
    requires !RestartAsked(tf)
    requires UserRunning(s)
    ensures CtxHandled(s, tf, RedirectOnly(s.(uart := uart), tf, reason))
  {
  }

  lemma DispatchOthers(s: Kernel, tf: TrapFrame)
    requires UserRunning(s) && IsSvc(tf)
    ensures CtxHandled(s, tf, Dispatch(s, tf))
  {
    var nr := tf.x[8];
    assert s.(uart := s.uart) == s;
    if nr == SYS_YIELD {
      RedirectOthers(s, s.uart, tf, Yield);
    } else if nr == SYS_TIME_TICKS {
    } else if nr == SYS_WRITE {
      WriteOthers(s, tf);
    } else if nr == SYS_EXIT {
      RedirectOthers(s, s.uart, tf, Exit);
    } else if nr == SYS_IPC_CALL {
      CallOthers(s, tf);
    } else if nr == SYS_IPC_RECV {
      RecvOthers(s, tf);
    } else if nr == SYS_IPC_REPLY {
      ReplyOthers(s, tf);
    } else if nr == SYS_SUPERVISE_WAIT {
      WaitOthers(s, tf);
    } else if nr == SYS_TASK_RESTART {
      RestartOthers(s, tf);
    }
  }

  lemma HandleTrapOthers(s: Kernel, tf: TrapFrame)
    requires UserRunning(s)
    ensures CtxHandled(s, tf, HandleTrap(s, tf))
  {
    if IsSvc(tf) {
      DispatchOthers(s, tf);
    } else {
      RedirectOthers(s, s.uart + [FaultLine(TaskName(s.threads[s.current]), tf.esr, tf.elr, tf.far)], tf, Fault);
    }
  }

  lemma OthersChain(s: Kernel, m: Kernel, r: Kernel)
    requires |s.threads| == |m.threads| == |r.threads| == THREAD_COUNT
    requires OthersKept(s, m) && OthersKept(m, r)
    ensures OthersKept(s, r)
  {
    forall j | 0 <= j < IDLE && j != s.current ensures OtherTask(s.threads[j], r.threads[j]) {
      assert OtherTask(s.threads[j], m.threads[j]) && OtherTask(m.threads[j], r.threads[j]);
    }
  }

  /** A caller the dead task served is woken with -1; nothing else happens at an endpoint. */
  lemma DeathAtEffect(s: Kernel, e: nat)
    requires DeadParked(s) && e < EP_COUNT
    ensures DeathAt(s, s.current, e).Ok?
    ensures var ep, r := s.eps[e], DeathAt(s, s.current, e).value;
            if ep.owner == s.current && ep.caller != NONE then
              && 0 <= ep.caller < IDLE && ep.caller != s.current && s.threads[ep.caller].task.TaskBlocked?
              && var t := s.threads[ep.caller];
                 r == s.(threads := s.threads[ep.caller := t.(
                           ctx := WithX0(t.ctx, MINUS_ONE), task := TaskRunnable, state := ThreadRunnable)],
                         eps := s.eps[e := ClearPending(ClearCaller(ep))], resched := true)
            else r == s
  {
    DeathAtInv(s, e);
    assert s.eps[e].caller != NONE ==> Named(s, CallerOf(e)) in Blocked(s);
    assert s.eps[e := s.eps[e]] == s.eps;
    hide WaitsMatch, MailboxOk, EndpointOk, EndpointFits, ThreadOk;
  }

  lemma DeathAtOthers(s: Kernel, e: nat)
    requires DeadParked(s) && e < EP_COUNT
    ensures DeathAt(s, s.current, e).Ok? && OthersKept(s, DeathAt(s, s.current, e).value)
    ensures DeathAt(s, s.current, e).value.threads[s.current] == s.threads[s.current]
  {
    assert Fits(s) && 0 <= s.current < IDLE;
    hide DeathAt, DeadParked;
    DeathAtEffect(s, e);
  }

  lemma {:induction false} DeathFromOthers(s: Kernel, e: nat)
    requires DeadParked(s) && e <= EP_COUNT
    ensures DeathFrom(s, s.current, e).Ok?
    ensures OthersKept(s, DeathFrom(s, s.current, e).value)
    ensures DeathFrom(s, s.current, e).value.threads[s.current] == s.threads[s.current]
    decreases EP_COUNT - e
  {
    if e < EP_COUNT {
      DeathAtInv(s, e);
      DeathAtOthers(s, e);
      var m := DeathAt(s, s.current, e).value;
      DeathFromOthers(m, e + 1);
      OthersChain(s, m, DeathFrom(m, s.current, e + 1).value);
    }
  }

  lemma NoteDeathOthers(s: Kernel)
    requires DeadParked(s)
    ensures NoteDeath(s, s.current).Ok? && OthersKept(s, NoteDeath(s, s.current).value)
    ensures NoteDeath(s, s.current).value.threads[s.current] == s.threads[s.current]
  {
    NoteDeathInv(s);
    assert s.waiter != NONE ==> Named(s, SupervisorWait) in Blocked(s);
  }

  lemma ParkOthers(s: Kernel)
    requires Redirected(s)
    ensures Park(s).Ok? && OthersKept(s, Park(s).value)
    ensures Park(s).value.threads[s.current].ctx == s.threads[s.current].ctx
  {
    ParkInv(s);
    if s.threads[s.current].reason.Exit? || s.threads[s.current].reason.Fault? {
      var dead := MarkDead(s);
      MarkDeadInv(s);
      DeathFromInv(dead, 0);
      DeathFromOthers(dead, 0);
      var m := DeathFrom(dead, s.current, 0).value;
      NoteDeathOthers(m);
      OthersChain(dead, m, Park(s).value);
    }
  }

  lemma {:induction false} TicksOthers(s: Kernel, n: nat)
    requires Parked(s)
    ensures Ticks(s, n).current == s.current
    ensures forall j :: 0 <= j < IDLE ==>
              Ticks(s, n).threads[j] == s.threads[j].(quantum := Ticks(s, n).threads[j].quantum)
    decreases n
  {
    if n > 0 {
      TickFrame(s);
      TickKeepsParked(s);
      TicksOthers(Tick(s), n - 1);
    }
  }

  /** `r` is the kernel after the switch and the resumption: the picked task has entered EL0
      with its saved registers; every task keeps its own. */
  ghost predicate Resumed(s: Kernel, r: Kernel)
    requires |s.threads| == |r.threads| == THREAD_COUNT
  {
    && NONE < r.current < THREAD_COUNT
    && (r.current != IDLE ==> Selectable(s.threads[r.current]) && r.el0 == s.threads[r.current].ctx)
    && forall j :: 0 <= j < IDLE ==>
         && r.threads[j].ctx == s.threads[j].ctx
         && r.threads[j].entry == s.threads[j].entry && r.threads[j].userSp == s.threads[j].userSp
         && r.threads[j].task == if j == r.current then TaskRunning else s.threads[j].task
  }

  lemma SwitchKeepsCtx(s: Kernel, w: nat)
    requires Parked(s) && s.resched
    ensures SwitchAndResume(s, w).Ok? && Resumed(s, SwitchAndResume(s, w).value)
  {
    var s1 := s.(resched := false);
    SameKernelKeeps(s, s1);
    TicksOthers(s1, w);
    TicksKeep(s1, w);
    var s2 := Ticks(s1, w);
    PickOk(s2);
    var next := PickNext(s2.threads, s2.current).value;
    PickedResumes(s2, next);
    assert SwitchAndResume(s, w) == Resume(SwitchTo(s2, next));
    TicksSelectable(s, s2);
  }

  lemma TicksSelectable(s: Kernel, r: Kernel)
    requires |s.threads| == |r.threads| == THREAD_COUNT
    requires forall j :: 0 <= j < IDLE ==> r.threads[j] == s.threads[j].(quantum := r.threads[j].quantum)
    ensures forall j :: 0 <= j < IDLE ==> Selectable(r.threads[j]) == Selectable(s.threads[j])
  {
  }

  lemma PickedResumes(s: Kernel, next: nat)
    requires Parked(s) && PickNext(s.threads, s.current) == Ok(next)
    ensures Resume(SwitchTo(s, next)).Ok? && Resumed(s, Resume(SwitchTo(s, next)).value)
  {
    SwitchParked(s, next);
    ResumeCtx(SwitchTo(s, next));
  }

  lemma ResumeCtx(s: Kernel)
    requires Switched(s)
    ensures Resume(s).Ok?
    ensures var r := Resume(s).value;
            && r.current == s.current
            && (r.current != IDLE ==> r.el0 == s.threads[r.current].ctx)
            && forall j :: 0 <= j < IDLE ==>
                 && r.threads[j].ctx == s.threads[j].ctx
                 && r.threads[j].entry == s.threads[j].entry && r.threads[j].userSp == s.threads[j].userSp
                 && r.threads[j].task == if j == r.current then TaskRunning else s.threads[j].task
  {
    ResumeSwitched(s);
  }

  /** One step seen from the task that traps: an immediate answer puts the value in x0 and
      nothing else; a parked task keeps exactly its trapped registers, and has them back if
      it is the one picked again. */
  lemma TrapOwnCtx(s: Kernel, e: Event)
    requires Inv(s) && Enabled(s, e) && e.Trap? && TrapInside(e)
    ensures Step(s, e).Ok?
    ensures var r := Step(s, e).value;
            var trapped := UserCtx(e.tf.x, e.tf.sp, e.tf.elr, e.tf.spsr);
            if Parks(s.(mem := e.mem), e.tf) then
              && r.threads[s.current].ctx == trapped
              && (r.current == s.current ==> r.el0 == trapped)
            else
              r.current == s.current && r.el0 == WithX0(trapped, r.el0.x[0])
  {
    StepInv(s, e);
    var s0 := s.(mem := e.mem);
    SameKernelKeeps(s, s0);
    ParksExactly(s0, e.tf);
    HandleTrapInv(s0, e.tf);
    HandleTrapOthers(s0, e.tf);
    var (s1, how) := HandleTrap(s0, e.tf).value;
    if how.ToKernel? {
      ParkInv(s1);
      ParkOthers(s1);
      var p := Park(s1).value.(resched := true);
      SameKernelKeeps(Park(s1).value, p);
      SwitchKeepsCtx(p, e.w);
    }
  }

  /** One step seen from a task that is not running. */
  lemma StepOtherCtx(s: Kernel, e: Event, j: nat)
    requires Inv(s) && j < IDLE && j != s.current && TrapInside(e)
    ensures Do(s, e).Ok? && Inv(Do(s, e).value)
    ensures var r := Do(s, e).value;
            var t, u := s.threads[j], r.threads[j];
            && u.entry == t.entry && u.userSp == t.userSp
            && (u.ctx == t.ctx
                || (t.task.TaskBlocked? && !u.task.TaskBlocked? && u.ctx == WithX0(t.ctx, u.ctx.x[0]))
                || (t.task.TaskDead? && !u.task.TaskDead? && u.ctx == FreshCtx(t)))
            && (t.task.TaskRunnable? ==> u.ctx == t.ctx && (u.task.TaskRunnable? || r.current == j))
            && (t.task.TaskDead? ==> u.task.TaskDead? || u.ctx == FreshCtx(t))
            && (t.task.TaskBlocked? ==> !u.task.TaskDead?)
            && (t.task.TaskDead? ==> !u.task.TaskBlocked?)
            && (r.current == j ==> r.el0 == u.ctx)
  {
    if Enabled(s, e) {
      StepInv(s, e);
      match e
      case Trap(mem, tf, w) =>
        SameKernelKeeps(s, s.(mem := mem));
        TrapOtherCtx(s.(mem := mem), tf, w, j);
      case TimerTick => TickFrame(s);
      case IdlePass(w) =>
        IdleStep(s, e);
    }
  }

  lemma TrapOtherCtx(s: Kernel, tf: TrapFrame, w: nat, j: nat)
    requires UserRunning(s) && InSandbox(tf.elr) && j < IDLE && j != s.current
    ensures TrapStep(s, tf, w).Ok?
    ensures var r := TrapStep(s, tf, w).value;
            var t, u := s.threads[j], r.threads[j];
            && u.entry == t.entry && u.userSp == t.userSp
            && (r.current == j ==> u.task.TaskRunning? && r.el0 == u.ctx)
            && (|| (u.ctx == t.ctx && (u.task == t.task || (r.current == j && t.task.TaskRunnable?)))
                || (t.task.TaskBlocked? && (u.task.TaskRunnable? || r.current == j)
                    && u.ctx == WithX0(t.ctx, u.ctx.x[0]))
                || (t.task.TaskDead? && u.task.TaskRunnable? && r.current == s.current && RestartAsked(tf)
                    && u.ctx == FreshCtx(t)))
  {
    HandleTrapInv(s, tf);
    HandleTrapOthers(s, tf);
    var (s1, how) := HandleTrap(s, tf).value;
    if how.ToKernel? {
      hide HandleTrap, Park, SwitchAndResume, DeathFrom, NoteDeath, Common;
      ParkInv(s1);
      ParkOthers(s1);
      var p := Park(s1).value.(resched := true);
      SameKernelKeeps(Park(s1).value, p);
      SwitchKeepsCtx(p, w);
      assert OtherTask(s.threads[j], s1.threads[j]) && OtherTask(s1.threads[j], p.threads[j]);
    }
  }

  // ---------------------------------------------------------------- whole runs

  /** Task `j` is off the CPU in every state of the run but possibly the last. */
  ghost predicate Away(s: Kernel, es: seq<Event>, j: nat)
    requires Fits(s)
    decreases |es|
  {
    && s.current != j
    && (|es| > 1 ==> Do(s, es[0]).Ok? && Away(Do(s, es[0]).value, es[1..], j))
  }

  /** How often the run takes task `j` out of the blocked state. */
  function Wakes(s: Kernel, es: seq<Event>, j: nat): nat
    requires Fits(s) && j < IDLE
    decreases |es|
  {
    if es == [] || Do(s, es[0]).Panicked? then 0
    else
      var r := Do(s, es[0]).value;
      (if s.threads[j].task.TaskBlocked? && !r.threads[j].task.TaskBlocked? then 1 else 0)
      + Wakes(r, es[1..], j)
  }

  /** A task waiting to run comes back with every register as it was saved. */
  lemma {:induction false} RunnableResumes(s: Kernel, es: seq<Event>, j: nat)
    requires Inv(s) && j < IDLE && StaysInside(es) && Away(s, es, j) && s.threads[j].task.TaskRunnable?
    ensures Run(s, es).Ok?
    ensures var r := Run(s, es).value;
            && r.threads[j].ctx == s.threads[j].ctx
            && (es != [] && r.current == j ==> r.el0 == s.threads[j].ctx)
            && (r.threads[j].task.TaskRunnable? || r.current == j)
            && Wakes(s, es, j) == 0
    decreases |es|
  {
    if es != [] {
      assert TrapInside(es[0]);
      StepOtherCtx(s, es[0], j);
      var m := Do(s, es[0]).value;
      if |es| > 1 {
        RunnableResumes(m, es[1..], j);
      }
    }
  }

  /** A blocked task comes back with only x0 changed. */
  lemma {:induction false} BlockedResumes(s: Kernel, es: seq<Event>, j: nat)
    requires Inv(s) && j < IDLE && StaysInside(es) && Away(s, es, j) && s.threads[j].task.TaskBlocked?
    ensures Run(s, es).Ok?
    ensures var r := Run(s, es).value;
            && r.threads[j].ctx == WithX0(s.threads[j].ctx, r.threads[j].ctx.x[0])
            && (r.threads[j].task.TaskBlocked? ==> r.threads[j].ctx == s.threads[j].ctx)
            && (es != [] && r.current == j ==> r.el0 == r.threads[j].ctx && !r.threads[j].task.TaskBlocked?)
    decreases |es|
  {
    if es != [] {
      assert TrapInside(es[0]);
      StepOtherCtx(s, es[0], j);
      var m := Do(s, es[0]).value;
      assert Run(s, es) == Run(m, es[1..]);
      if |es| == 1 {
        OneRunningTask(m, j);
      } else if m.threads[j].task.TaskBlocked? {
        BlockedResumes(m, es[1..], j);
      } else {
        RunnableResumes(m, es[1..], j);
        OneRunningTask(Run(s, es).value, j) by {
          RunInv(m, es[1..]);
        }
      }
    }
  }

  lemma OneRunningTask(s: Kernel, j: nat)
    requires Inv(s) && j < IDLE
    ensures s.threads[j].task.TaskRunning? <==> s.current == j
  {
  }

  /** It is woken exactly once on the way, and not at all if it is still blocked. */
  lemma {:induction false} BlockedWakes(s: Kernel, es: seq<Event>, j: nat)
    requires Inv(s) && j < IDLE && StaysInside(es) && Away(s, es, j) && s.threads[j].task.TaskBlocked?
    requires Run(s, es).Ok?
    ensures Wakes(s, es, j) == (if Run(s, es).value.threads[j].task.TaskBlocked? then 0 else 1)
    decreases |es|
  {
    if es != [] {
      assert TrapInside(es[0]);
      StepOtherCtx(s, es[0], j);
      var m := Do(s, es[0]).value;
      if |es| > 1 {
        if m.threads[j].task.TaskBlocked? {
          BlockedWakes(m, es[1..], j);
        } else {
          RunnableResumes(m, es[1..], j);
          RunInv(m, es[1..]);
          OneRunningTask(Run(m, es[1..]).value, j);
        }
      }
    }
  }

  /** A dead task comes back only as a fresh start at its stored entry and stack. */
  lemma {:induction false} DeadResumes(s: Kernel, es: seq<Event>, j: nat)
    requires Inv(s) && j < IDLE && StaysInside(es) && Away(s, es, j) && s.threads[j].task.TaskDead?
    ensures Run(s, es).Ok?
    ensures var r := Run(s, es).value;
            && (r.threads[j].task.TaskDead? || r.threads[j].ctx == FreshCtx(s.threads[j]))
            && (es != [] && r.current == j ==> r.el0 == FreshCtx(s.threads[j]))
    decreases |es|
  {
    if es != [] {
      assert TrapInside(es[0]);
      StepOtherCtx(s, es[0], j);
      var m := Do(s, es[0]).value;
      if |es| > 1 {
        if m.threads[j].task.TaskDead? {
          DeadResumes(m, es[1..], j);
        } else {
          RunnableResumes(m, es[1..], j);
        }
      }
    }
  }
}
