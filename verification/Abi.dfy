/** The system call interface in plain numbers: how a trap is told from its raw syndrome and
    registers, what is answered at once, and what the UART line gets. No constant, decoder or
    handler of the model is named in these statements. */
module Abi {
  import opened Base
  import opened Memory
  import opened State
  import opened Ipc
  import opened Supervisor
  import opened Machine
  import opened Invariant
  import opened Runs
  import opened Context
  import opened RpcKernel
  import opened Shapes
  import opened Resumption
  import opened Faults
  import opened Effects

  /** A trap by `svc`: exception class 0x15 in bits 31 to 26 of the syndrome. */
  predicate Svc(tf: TrapFrame) {
    0x5400_0000 <= tf.esr % 0x1_0000_0000 < 0x5800_0000
  }

  /** System call number `nr`. */
  predicate SysCall(tf: TrapFrame, nr: int) {
    Svc(tf) && tf.x[8] == nr
  }

  /** A buffer the kernel may touch. */
  predicate Inside(ptr: u64, len: u64) {
    0x40E0_0000 <= ptr < 0x4100_0000 && ptr + len <= 0x4100_0000
  }

  function NameLogged(i: int): string {
    if i == 0 then "task_a" else if i == 1 then "task_b" else "task_c"
  }

  /** Open for a request: served by a task, nothing queued, nobody waiting. */
  predicate Open(ep: Endpoint) {
    ep.owner != -1 && !ep.hasPending && ep.caller == -1
  }

  /** A write that goes straight to the line. */
  predicate WritesNow(s: Kernel, tf: TrapFrame) {
    SysCall(tf, 2) && Inside(tf.x[0], tf.x[1]) && (!s.build.micro || s.current != 0)
  }

  lemma InsideIsOk(ptr: u64, len: u64)
    ensures RangeOk(ptr, len) <==> Inside(ptr, len)
    ensures InSandbox(ptr) <==> 0x40E0_0000 <= ptr < 0x4100_0000
  {
  }

  // ---------------------------------------------------------------- parked or answered

  /** The traps after which the task leaves the CPU: every fault, yield (0) and exit (3), an
      accepted request (4, or 2 from task_a on the routing kernel), a receive with nothing
      queued (5), the supervisor's wait with no death to report (7). */
  predicate Leaves(s: Kernel, tf: TrapFrame)
    requires Fits(s)
  {
    || !Svc(tf) || SysCall(tf, 0) || SysCall(tf, 3)
    || (SysCall(tf, 2) && s.build.micro && s.current == 0 && Inside(tf.x[0], tf.x[1]) && tf.x[1] <= 256
        && Open(s.eps[1]))
    || (SysCall(tf, 4) && 0 < tf.x[0] < 3 && Inside(tf.x[1], tf.x[2]) && tf.x[2] <= 256 && Inside(tf.x[3], tf.x[4])
        && Open(s.eps[tf.x[0]]))
    || (SysCall(tf, 5) && 0 < tf.x[0] < 3 && Inside(tf.x[1], tf.x[2])
        && s.eps[tf.x[0]].owner == s.current && !s.eps[tf.x[0]].hasPending)
    || (SysCall(tf, 7) && s.current == 2 && s.death == -1)
  }

  lemma LeavesParks(s: Kernel, tf: TrapFrame)
    requires Fits(s)
    ensures Parks(s, tf) <==> Leaves(s, tf)
  {
    SvcByEsr(tf);
    InsideIsOk(tf.x[0], tf.x[1]);
    InsideIsOk(tf.x[1], tf.x[2]);
    InsideIsOk(tf.x[3], tf.x[4]);
    hide IsSvc, RangeOk, Inside, Svc;
  }

  /** The calls that are answered with something else than -1: the clock (1), a direct write,
      a receive with a request queued, a reply to a waiting caller (6), the supervisor's wait
      with a death to report, and its restart of dead task_b (8). */
  predicate Granted(s: Kernel, tf: TrapFrame)
    requires Fits(s)
  {
    || SysCall(tf, 1) || WritesNow(s, tf)
    || (SysCall(tf, 5) && 0 < tf.x[0] < 3 && Inside(tf.x[1], tf.x[2])
        && s.eps[tf.x[0]].owner == s.current && s.eps[tf.x[0]].hasPending)
    || (SysCall(tf, 6) && 0 < tf.x[0] < 3 && Inside(tf.x[1], tf.x[2]) && tf.x[2] <= 256
        && s.eps[tf.x[0]].owner == s.current && s.eps[tf.x[0]].caller != -1)
    || (SysCall(tf, 7) && s.current == 2 && s.death != -1)
    || (SysCall(tf, 8) && s.current == 2 && tf.x[0] == 1 && s.threads[1].task.TaskDead?)
  }

  /** The answer itself. */
  function Answer(s: Kernel, tf: TrapFrame): int
    requires Fits(s)
  {
    if !Granted(s, tf) then 0xFFFF_FFFF_FFFF_FFFF
    else if tf.x[8] == 1 then s.ticks
    else if tf.x[8] == 2 then tf.x[1]
    else if tf.x[8] == 5 then
      var queued := s.eps[tf.x[0]].pendingLen;
      if queued < tf.x[2] then queued else tf.x[2]
    else if tf.x[8] == 7 then s.death
    else 0
  }

  /** What a granted call changes; nothing that is not granted changes anything. A receive
      takes the queued request; a reply frees the endpoint and wakes the waiting caller with the
      length it is owed or the number of bytes it gets; a restart makes task_b a fresh start. */
  ghost predicate Touches(s: Kernel, tf: TrapFrame, r: Kernel)
    requires Fits(s)
  {
    var e := tf.x[0];
    if !Granted(s, tf) || tf.x[8] == 1 then r == s
    else if tf.x[8] == 2 then r == s.(uart := r.uart)
    else if tf.x[8] == 5 then
      r == s.(mem := r.mem, eps := s.eps[e := s.eps[e].(hasPending := false, pendingLen := 0)])
    else if tf.x[8] == 6 then
      var c := s.eps[e].caller;
      && 0 <= c < 3
      && r == s.(mem := r.mem, resched := true,
                 eps := s.eps[e := s.eps[e].(caller := -1, replyPtr := 0, replyCap := 0, override := 0)],
                 threads := s.threads[c := s.threads[c].(ctx := WithX0(s.threads[c].ctx, Owed(s.eps[e], tf.x[2])),
                                                         task := TaskRunnable, state := ThreadRunnable)])
    else if tf.x[8] == 7 then r == s.(death := -1)
    else
      && |r.threads| == 4 && StartsFresh(s.build, r.threads[1].ctx, 1)
      && r == s.(resched := true,
                 threads := s.threads[1 := s.threads[1].(ctx := r.threads[1].ctx, state := ThreadRunnable,
                                                         task := TaskRunnable, reason := NoReason, started := false)])
  }

  /** What a reply of `len` bytes wakes the caller with. */
  function Owed(ep: Endpoint, len: u64): u64 {
    if ep.override != 0 then ep.override else if len < ep.replyCap then len else ep.replyCap
  }

  /** The handler `out` gives that answer and touches no more than that. */
  ghost predicate Answers(s: Kernel, tf: TrapFrame, out: Result<(Kernel, Leave)>)
    requires Fits(s)
  {
    out.Ok? && out.value.1.ToUser? ==> out.value.1.x0 == Answer(s, tf) && Touches(s, tf, out.value.0)
  }

  lemma WriteAnswers(s: Kernel, tf: TrapFrame)
    requires UserRunning(s) && SysCall(tf, 2)
    ensures Answers(s, tf, Write(s, tf))
  {
    InsideIsOk(tf.x[0], tf.x[1]);
    hide Submit, Inside, RangeOk, Extends;
  }

  lemma CallAnswers(s: Kernel, tf: TrapFrame)
    requires UserRunning(s) && SysCall(tf, 4)
    ensures Answers(s, tf, Call(s, tf))
  {
    hide Place;
  }

  lemma RecvAnswers(s: Kernel, tf: TrapFrame)
    requires UserRunning(s) && SysCall(tf, 5)
    ensures Answers(s, tf, Recv(s, tf))
  {
    AwakeIsUnnamed(s);
    InsideIsOk(tf.x[1], tf.x[2]);
    hide Store, Inside, RangeOk;
  }

  lemma CallerSleeps(s: Kernel, e: nat)
    requires Inv(s) && 0 < e < EP_COUNT && s.eps[e].caller != NONE
    ensures 0 <= s.eps[e].caller < IDLE
    ensures s.threads[s.eps[e].caller].task.TaskBlocked? && s.threads[s.eps[e].caller].kind.UserThread?
  {
    assert Named(s, CallerOf(e)) == s.eps[e].caller && Named(s, CallerOf(e)) in Blocked(s);
  }

  lemma ReplyAnswers(s: Kernel, tf: TrapFrame)
    requires UserRunning(s) && SysCall(tf, 6)
    ensures Answers(s, tf, Reply(s, tf))
  {
    InsideIsOk(tf.x[1], tf.x[2]);
    if Granted(s, tf) {
      CallerSleeps(s, tf.x[0]);
    }
    hide CopyWithin, Inside, RangeOk, Inv;
  }

  lemma WaitAnswers(s: Kernel, tf: TrapFrame)
    requires UserRunning(s) && SysCall(tf, 7)
    ensures Answers(s, tf, Wait(s, tf))
  {
  }

  lemma RestartAnswers(s: Kernel, tf: TrapFrame)
    requires UserRunning(s) && SysCall(tf, 8)
    ensures Answers(s, tf, RestartCall(s, tf.x[0]))
  {
    assert ThreadOk(s.build, s.threads[TASK_B], TASK_B);
  }

  lemma HandlerAnswers(s: Kernel, tf: TrapFrame)
    requires UserRunning(s)
    ensures Answers(s, tf, HandleTrap(s, tf))
  {
    SvcByEsr(tf);
    assert Svc(tf) <==> IsSvc(tf);
    hide Inv, Call, Write, Recv, Reply, Wait, RestartCall, IsSvc, Svc;
    var nr := tf.x[8];
    if Svc(tf) {
      if nr == 2 {
        WriteAnswers(s, tf);
      } else if nr == 4 {
        CallAnswers(s, tf);
      } else if nr == 5 {
        RecvAnswers(s, tf);
      } else if nr == 6 {
        ReplyAnswers(s, tf);
      } else if nr == 7 {
        WaitAnswers(s, tf);
      } else if nr == 8 {
        RestartAnswers(s, tf);
      }
    }
  }

  /** Every trap that does not take the task off the CPU returns to it with the answer in x0
      and every other register as trapped. A call that is not granted (an unknown number, a
      busy endpoint, a buffer outside, a stranger's receive, reply or restart) gets 2^64 - 1
      and changes nothing else whatever. */
  lemma AnsweredExactly(s: Kernel, tf: TrapFrame, w: nat)
    requires UserRunning(s) && !Leaves(s, tf)
    ensures 0 <= Answer(s, tf) < TWO64
    ensures TrapStep(s, tf, w).Ok?
    ensures var r := TrapStep(s, tf, w).value;
            && r.el0 == UserCtx(tf.x[0 := Answer(s, tf)], tf.sp, tf.elr, tf.spsr)
            && r.current == s.current && Touches(s, tf, r.(el0 := s.el0))
  {
    LeavesParks(s, tf);
    ParksExactly(s, tf);
    HandlerAnswers(s, tf);
    hide HandleTrap, Leaves, Granted;
    AnsweredRuns(s, tf, w);
  }

  // ---------------------------------------------------------------- the line

  /** What a handler puts on the line: a fault its line, a direct write its bytes, anything
      else nothing. */
  ghost predicate LineHandled(s: Kernel, tf: TrapFrame, line: seq<UartItem>)
    requires Fits(s)
  {
    if !Svc(tf) then line == s.uart + [FaultLine(NameLogged(s.current), tf.esr, tf.elr, tf.far)]
    else if WritesNow(s, tf) then Inside(tf.x[0], tf.x[1]) && Extends(s.uart, line, s.mem, tf.x[0], tf.x[1])
    else line == s.uart
  }

  lemma HandlerLine(s: Kernel, tf: TrapFrame)
    requires UserRunning(s) && HandleTrap(s, tf).Ok?
    ensures LineHandled(s, tf, HandleTrap(s, tf).value.0.uart)
  {
    SvcByEsr(tf);
    assert Svc(tf) <==> IsSvc(tf);
    assert ThreadOk(s.build, s.threads[s.current], s.current);
    hide Inv, Call, Write, Recv, Reply, Wait, RestartCall, Extends, IsSvc, Svc, Inside, RangeOk;
    if Svc(tf) && tf.x[8] == 2 {
      WriteLine(s, tf);
    } else if Svc(tf) && (tf.x[8] == 7 || tf.x[8] == 8) {
      SupervisorLine(s, tf);
    }
  }

  lemma WriteLine(s: Kernel, tf: TrapFrame)
    requires UserRunning(s) && SysCall(tf, 2)
    ensures Write(s, tf).Ok? ==> LineHandled(s, tf, Write(s, tf).value.0.uart)
  {
    InsideIsOk(tf.x[0], tf.x[1]);
    hide Submit, Extends, RangeOk, Inside;
  }

  lemma SupervisorLine(s: Kernel, tf: TrapFrame)
    requires UserRunning(s)
    ensures Wait(s, tf).Ok? ==> Wait(s, tf).value.0.uart == s.uart
    ensures RestartCall(s, tf.x[0]).Ok? ==> RestartCall(s, tf.x[0]).value.0.uart == s.uart
  {
  }

  /** What one trap does to the line. A system call, whatever bits 24 to 0 and 63 to 32 of its
      syndrome are, never logs a fault line: an exit logs its own line, a write that goes
      straight out appends its bytes, every other call leaves the line alone. A trap of any
      other class appends exactly the fault line with its syndrome and addresses. */
  lemma LineAfterTrap(s: Kernel, tf: TrapFrame, w: nat)
    requires UserRunning(s) && InSandbox(tf.elr)
    ensures TrapStep(s, tf, w).Ok?
    ensures var line := TrapStep(s, tf, w).value.uart;
            if !Svc(tf) then line == s.uart + [FaultLine(NameLogged(s.current), tf.esr, tf.elr, tf.far)]
            else if tf.x[8] == 3 then line == s.uart + [ExitLine(NameLogged(s.current))]
            else if WritesNow(s, tf) then Inside(tf.x[0], tf.x[1]) && Extends(s.uart, line, s.mem, tf.x[0], tf.x[1])
            else line == s.uart
  {
    ParksExactly(s, tf);
    HandleTrapInv(s, tf);
    HandlerLine(s, tf);
    HandleReason(s, tf);
    var (s1, how) := HandleTrap(s, tf).value;
    SvcByEsr(tf);
    WritesStay(s, tf);
    hide Inv, HandleTrap, Parks, Extends, Common, ReturnStep, WritesNow;
    if how.ToKernel? {
      HandlerOwn(s, tf);
      ReturnUart(s1, w);
      OwnFarewell(s, tf, s1.threads[s.current]);
      assert s1.uart + [] == s1.uart;
    } else {
      AnsweredRuns(s, tf, w);
    }
  }

  lemma OwnFarewell(s: Kernel, tf: TrapFrame, u: Thread)
    requires UserRunning(s) && u == s.threads[s.current].(ctx := u.ctx, reason := ReasonFor(tf))
    ensures Farewell(u) == if SysCall(tf, 3) then [ExitLine(NameLogged(s.current))] else []
  {
    SvcByEsr(tf);
    assert ThreadOk(s.build, s.threads[s.current], s.current);
  }

  /** A write that goes straight out does not park. */
  lemma WritesStay(s: Kernel, tf: TrapFrame)
    requires Fits(s)
    ensures WritesNow(s, tf) ==> !Parks(s, tf)
  {
    LeavesParks(s, tf);
  }

  /** Which task a trap kills: its own, if it is not a system call or is an exit. */
  lemma EsrDecides(s: Kernel, tf: TrapFrame, w: nat)
    requires UserRunning(s) && InSandbox(tf.elr)
    ensures TrapStep(s, tf, w).Ok?
    ensures var r := TrapStep(s, tf, w).value;
            && (r.threads[s.current].task.TaskDead? <==> !Svc(tf) || tf.x[8] == 3)
            && |r.uart| >= |s.uart| && r.uart[..|s.uart|] == s.uart
            && (forall k :: |s.uart| <= k < |r.uart| ==> (r.uart[k].FaultLine? <==> !Svc(tf)))
            && (!Svc(tf) ==> |r.uart| == |s.uart| + 1)
  {
    SvcByEsr(tf);
    ParksExactly(s, tf);
    LineAfterTrap(s, tf, w);
    hide Parks, TrapStep, HandleTrap;
    if Parks(s, tf) {
      ParkedAs(s, tf, w);
    } else {
      AnsweredRuns(s, tf, w);
    }
  }

  // ---------------------------------------------------------------- boot

  /** The kernel when task_a enters EL0 for the first time: tasks fresh with full quanta, clock
      at zero, line and mailbox empty, endpoint 1 served by task_b, endpoint 2 by task_c in a
      latency build and by nobody otherwise, endpoint 0 by nobody. */
  lemma BootState(b: Build, mem: Mem, j: nat, k: nat)
    requires j < 3 && k < 3
    ensures var s := Boot(b, mem);
            && s.build == b && s.current == 0 && s.ticks == 0 && !s.resched && s.death == -1 && s.waiter == -1
            && s.mem == mem && s.uart == [] && s.el0 == s.threads[0].ctx
            && StartsFresh(b, s.threads[j].ctx, j) && s.threads[j].quantum == 10
            && s.threads[j].name == Some(NameLogged(j))
            && s.threads[j].task == (if j == 0 then TaskRunning else TaskRunnable)
            && s.eps[k].owner == (if k == 1 then 1 else if k == 2 && b.latency then 2 else -1)
            && s.eps[k].caller == s.eps[k].receiver == -1 && !s.eps[k].hasPending
  {
  }
}
