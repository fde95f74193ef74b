/** Sending before receiving or receiving before sending: two runs of the kernel compared. */
module Rendezvous {
  import opened Base
  import opened Memory
  import opened State
  import opened Ipc
  import opened Machine
  import opened Invariant
  import opened Runs
  import opened Context
  import opened Frames
  import opened Scheduler
  import opened Overlap
  import opened RpcKernel
  import opened Shapes
  import opened Fairness
  import opened Witnesses

  /** task_a sends `len` bytes from `src` to the UART endpoint, with no room for a reply. */
  function Send(mem: Mem, src: u64, len: u64): Event {
    Trap(mem, Svc(SYS_IPC_CALL, EP_UART, src, len, SANDBOX_BASE, 0), 0)
  }

  /** task_b offers `cap` bytes at `dst`. */
  function Listen(mem: Mem, dst: u64, cap: u64): Event {
    Trap(mem, Svc(SYS_IPC_RECV, EP_UART, dst, cap, 0, 0), 0)
  }

  function SendFirst(mem: Mem, src: u64, len: u64, dst: u64, cap: u64): seq<Event> {
    [Send(mem, src, len), Listen(mem, dst, cap)]
  }

  function ListenFirst(mem: Mem, src: u64, len: u64, dst: u64, cap: u64): seq<Event> {
    [YieldNow(mem), Listen(mem, dst, cap), YieldNow(mem), Send(mem, src, len)]
  }

  predicate Quiet(ep: Endpoint) {
    Accepting(ep) && ep.receiver == NONE && ep.owner == TASK_B
  }

  predicate Waiting(s: Kernel, i: nat)
    requires |s.threads| == THREAD_COUNT && i < IDLE
  {
    s.threads[i].task.TaskRunnable?
  }

  // ---------------------------------------------------------------- the four kinds of step

  lemma SendIsAccepted(s: Kernel, src: u64, len: u64)
    requires Inv(s) && s.current == TASK_A && Accepting(s.eps[EP_UART])
    requires RangeOk(src, len) && len <= IPC_MSG_SIZE
    ensures var tf := Send(s.mem, src, len).tf;
            && Parks(s, tf) && InSandbox(tf.elr) && RangeOk(SANDBOX_BASE, 0)
            && HandleTrap(s, tf) == Submit(s, tf, EP_UART, src, len, SANDBOX_BASE, 0, 0)
  {
  }

  /** The endpoint and the memory after the request. */
  lemma SendResult(s: Kernel, src: u64, len: u64)
    requires Inv(s) && s.current == TASK_A && Accepting(s.eps[EP_UART])
    requires RangeOk(src, len) && len <= IPC_MSG_SIZE
    ensures var e := Send(s.mem, src, len);
            && Do(s, e).Ok? && Inv(Do(s, e).value)
            && var r := Do(s, e).value;
               && r.eps[EP_UART] == AfterSubmit(s, EP_UART, src, len, SANDBOX_BASE, 0, 0)
               && r.mem == MemAfterSubmit(s, EP_UART, src, len)
               && (s.eps[EP_UART].receiver != NONE ==>
                     X0Of(r, s.eps[EP_UART].receiver) == Min(len, s.eps[EP_UART].bufCap))
  {
    var e := Send(s.mem, src, len);
    SendIsAccepted(s, src, len);
    StepInv(s, e);
    assert s.(mem := s.mem) == s;
    hide Inv, HandleTrap, Submit, ReturnStep, Parks;
    SubmitReturns(s, e.tf, 0, EP_UART, src, len, SANDBOX_BASE, 0, 0, EP_UART);
  }

  /** A request handed to the sleeping task_b gives it the CPU. */
  lemma SendWakes(s: Kernel, src: u64, len: u64)
    requires Inv(s) && s.current == TASK_A && Accepting(s.eps[EP_UART]) && s.eps[EP_UART].receiver == TASK_B
    requires RangeOk(src, len) && len <= IPC_MSG_SIZE
    ensures Do(s, Send(s.mem, src, len)).Ok? && Do(s, Send(s.mem, src, len)).value.current == TASK_B
  {
    var tf := Send(s.mem, src, len).tf;
    SendIsAccepted(s, src, len);
    assert s.(mem := s.mem) == s;
    SubmitHandled(s, tf, EP_UART, src, len, SANDBOX_BASE, 0, 0);
    hide Inv, HandleTrap, Submit, ReturnStep, Parks, Redirected;
    ReturnPicksNearest(HandleTrap(s, tf).value.0, 0, TASK_B);
  }

  /** task_b takes the queued request. */
  lemma ListenTakes(s: Kernel, dst: u64, cap: u64)
    requires Inv(s) && s.current == TASK_B && s.eps[EP_UART].owner == TASK_B && s.eps[EP_UART].hasPending
    requires RangeOk(dst, cap)
    ensures var e, ep := Listen(s.mem, dst, cap), s.eps[EP_UART];
            var n := Min(ep.pendingLen, cap);
            && Do(s, e).Ok?
            && var r := Do(s, e).value;
               && r.current == TASK_B && r.el0.x[0] == n && r.eps[EP_UART] == ClearPending(ep)
               && r.mem == if n > 0 then Store(s.mem, dst, ep.pendingMsg[..n]) else s.mem
  {
    assert s.(mem := s.mem) == s;
    HandleTrapInv(s, Listen(s.mem, dst, cap).tf);
    AnsweredRuns(s, Listen(s.mem, dst, cap).tf, 0);
  }

  /** task_b goes to sleep on a quiet endpoint and task_c is next. */
  lemma ListenSleeps(s: Kernel, dst: u64, cap: u64)
    requires Inv(s) && s.current == TASK_B && Quiet(s.eps[EP_UART]) && RangeOk(dst, cap)
    requires Waiting(s, TASK_A) && Waiting(s, TASK_C)
    ensures var e := Listen(s.mem, dst, cap);
            && Do(s, e).Ok? && Inv(Do(s, e).value)
            && var r := Do(s, e).value;
               && r.current == TASK_C && Waiting(r, TASK_A) && r.mem == s.mem
               && r.eps[EP_UART] == SetReceiver(s.eps[EP_UART], TASK_B, dst, cap)
  {
    var e := Listen(s.mem, dst, cap);
    assert s.(mem := s.mem) == s;
    assert Parks(s, e.tf);
    EventPicksNearest(s, e, TASK_C);
    EventPicksNearest(s, e, TASK_A);
    HandleTrapInv(s, e.tf);
    ParksExactly(s, e.tf);
    LivingReturns(HandleTrap(s, e.tf).value.0, 0);
  }

  /** A yield moves nothing but the CPU. */
  lemma YieldResult(s: Kernel, i: nat)
    requires Inv(s) && s.current != IDLE && i < IDLE && i != s.current && Waiting(s, i)
    ensures var e := YieldNow(s.mem);
            && Do(s, e).Ok? && Inv(Do(s, e).value)
            && var r := Do(s, e).value;
               && r.eps == s.eps && r.mem == s.mem
               && 0 <= r.current < IDLE
               && Distance(THREAD_COUNT, s.current, r.current) <= Distance(THREAD_COUNT, s.current, i)
               && (r.current == i || Waiting(r, i))
               && (r.current == s.current || Waiting(r, s.current))
  {
    var e := YieldNow(s.mem);
    assert s.(mem := s.mem) == s;
    assert Parks(s, e.tf);
    TrapPicksNearest(s, e.tf, 0, i);
    EventPicksNearest(s, e, i);
    YieldReturns(s, e.tf);
    hide HandleTrap, ReturnStep, Parks, YieldNow;
    OneRunningTask(Do(s, e).value, s.current);
  }

  lemma YieldReturns(s: Kernel, tf: TrapFrame)
    requires UserRunning(s) && InSandbox(tf.elr) && IsSvc(tf) && tf.x[8] == SYS_YIELD
    ensures TrapStep(s, tf, 0).Ok?
    ensures var r := TrapStep(s, tf, 0).value;
            && r.eps == s.eps && r.mem == s.mem
            && !r.threads[s.current].task.TaskDead? && !r.threads[s.current].task.TaskBlocked?
  {
    HandleTrapInv(s, tf);
    LivingReturns(HandleTrap(s, tf).value.0, 0);
    hide ReturnStep, Inv, Common;
  }

  // ---------------------------------------------------------------- the two runs

  lemma RunTwo(s: Kernel, e1: Event, e2: Event)
    requires Fits(s) && Do(s, e1).Ok?
    ensures Run(s, [e1, e2]) == Do(Do(s, e1).value, e2)
  {
    assert [e1] + [e2] == [e1, e2];
    hide Run, Do, Fits;
    RunCons(s, e1, [e2]);
    RunOne(Do(s, e1).value, e2);
  }

  lemma RunFour(s: Kernel, e1: Event, e2: Event, e3: Event, e4: Event)
    requires Fits(s) && Do(s, e1).Ok? && Do(Do(s, e1).value, e2).Ok?
    requires Do(Do(Do(s, e1).value, e2).value, e3).Ok?
    ensures Run(s, [e1, e2, e3, e4]) == Do(Do(Do(Do(s, e1).value, e2).value, e3).value, e4)
  {
    assert [e1, e2] + [e3, e4] == [e1, e2, e3, e4];
    assert [e1] + [e2, e3, e4] == [e1, e2, e3, e4] && [e2] + [e3, e4] == [e2, e3, e4];
    hide Run, Do, Fits;
    RunCons(s, e1, [e2, e3, e4]);
    RunCons(Do(s, e1).value, e2, [e3, e4]);
    RunTwo(Do(Do(s, e1).value, e2).value, e3, e4);
  }

  /** task_a in EL0, the other two waiting, the UART endpoint quiet: as after boot. */
  ghost predicate Ready(s: Kernel) {
    Inv(s) && s.current == TASK_A && Waiting(s, TASK_B) && Waiting(s, TASK_C) && Quiet(s.eps[EP_UART])
  }

  /** Both orders end so: task_b in EL0 with the count, the request recorded and received. */
  ghost predicate Met(s: Kernel, n: nat) {
    && Fits(s) && s.current == TASK_B && s.el0.x[0] == n
    && ShapeOf(s.eps[EP_UART]) == Shape(true, false, false)
  }

  lemma SendFirstEnds(s: Kernel, src: u64, len: u64, dst: u64, cap: u64)
    requires Ready(s) && RangeOk(src, len) && len <= IPC_MSG_SIZE && RangeOk(dst, cap)
    ensures var out, n := Run(s, SendFirst(s.mem, src, len, dst, cap)), Min(len, cap);
            && out.Ok? && Met(out.value, n)
            && out.value.mem == if n > 0 then Store(s.mem, dst, Load(s.mem, src, n)) else s.mem
  {
    var send, listen := Send(s.mem, src, len), Listen(s.mem, dst, cap);
    assert s.(mem := s.mem) == s;
    SendIsAccepted(s, src, len);
    SendResult(s, src, len);
    EventPicksNearest(s, send, TASK_B);
    var s1 := Do(s, send).value;
    hide Inv, Do, Send, Listen, Parks, Run;
    QueuedEnds(s1, s.mem, src, len, dst, cap);
    RunTwo(s, send, listen);
  }

  lemma QueuedEnds(s: Kernel, mem: Mem, src: u64, len: u64, dst: u64, cap: u64)
    requires Inv(s) && s.current == TASK_B && RangeOk(src, len) && len <= IPC_MSG_SIZE && RangeOk(dst, cap)
    requires var ep := s.eps[EP_UART];
             && ep.owner == TASK_B && ep.caller == TASK_A && ep.receiver == NONE && ep.hasPending
             && ep.pendingLen == len && ep.pendingMsg[..len] == Load(mem, src, len)
    ensures var out, n := Do(s, Listen(s.mem, dst, cap)), Min(len, cap);
            && out.Ok? && Met(out.value, n)
            && out.value.mem == if n > 0 then Store(s.mem, dst, Load(mem, src, n)) else s.mem
  {
    ListenTakes(s, dst, cap);
    assert s.eps[EP_UART].pendingMsg[..Min(len, cap)] == Load(mem, src, len)[..Min(len, cap)];
    assert Load(mem, src, Min(len, cap)) == Load(mem, src, len)[..Min(len, cap)];
    hide Inv, Do;
  }

  lemma ListenFirstEnds(s: Kernel, src: u64, len: u64, dst: u64, cap: u64)
    requires Ready(s) && RangeOk(src, len) && len <= IPC_MSG_SIZE && RangeOk(dst, cap)
    ensures var out, n := Run(s, ListenFirst(s.mem, src, len, dst, cap)), Min(len, cap);
            && out.Ok? && Met(out.value, n)
            && out.value.mem == if n > 0 then CopyWithin(s.mem, dst, src, n) else s.mem
  {
    var yield1, listen, send := YieldNow(s.mem), Listen(s.mem, dst, cap), Send(s.mem, src, len);
    assert Fits(s);
    hide Inv, Do, Send, Listen, YieldNow, Fits, Run, Ready, Met;
    BothWait(s);
    var s1 := Do(s, yield1).value;
    ListenSleeps(s1, dst, cap);
    var s2 := Do(s1, listen).value;
    YieldResult(s2, TASK_A);
    var s3 := Do(s2, yield1).value;
    SendMeets(s3, src, len, dst, cap);
    RunFour(s, yield1, listen, yield1, send);
  }

  /** After task_a's yield task_b runs and the other two wait. */
  lemma BothWait(s: Kernel)
    requires Ready(s)
    ensures var e := YieldNow(s.mem);
            && Do(s, e).Ok?
            && var r := Do(s, e).value;
               && Inv(r) && r.current == TASK_B && Waiting(r, TASK_A) && Waiting(r, TASK_C)
               && r.eps == s.eps && r.mem == s.mem
  {
    assert Fits(s);
    hide Inv, Do, YieldNow;
    YieldResult(s, TASK_B);
    YieldResult(s, TASK_C);
  }

  lemma SendMeets(s: Kernel, src: u64, len: u64, dst: u64, cap: u64)
    requires Inv(s) && s.current == TASK_A && RangeOk(src, len) && len <= IPC_MSG_SIZE && RangeOk(dst, cap)
    requires var ep := s.eps[EP_UART];
             Accepting(ep) && ep.receiver == TASK_B && ep.bufPtr == dst && ep.bufCap == cap
    ensures var out, n := Do(s, Send(s.mem, src, len)), Min(len, cap);
            && out.Ok? && Met(out.value, n)
            && out.value.mem == if n > 0 then CopyWithin(s.mem, dst, src, n) else s.mem
  {
    var e := Send(s.mem, src, len);
    SendResult(s, src, len);
    SendWakes(s, src, len);
    assert TrapInside(e);
    StepOtherCtx(s, e, TASK_B);
  }

  /** The order does not matter but for overlapping buffers: from boot, whichever of the two
      comes first, task_b runs with the same count and the endpoint in the same shape; and the
      memory is the same exactly when the direct copy is harmless. */
  lemma OrderDoesNotMatter(b: Build, mem: Mem, src: u64, len: u64, dst: u64, cap: u64)
    requires b.LayoutOk() && RangeOk(src, len) && len <= IPC_MSG_SIZE && RangeOk(dst, cap)
    ensures var n := Min(len, cap);
            var one := Run(Boot(b, mem), SendFirst(mem, src, len, dst, cap));
            var two := Run(Boot(b, mem), ListenFirst(mem, src, len, dst, cap));
            && one.Ok? && two.Ok? && Met(one.value, n) && Met(two.value, n)
            && (one.value.mem == two.value.mem <==> n == 0 || Harmless(Load(mem, src, n), Overtake(dst, src, n)))
  {
    var s := Boot(b, mem);
    BootInv(b, mem);
    assert Ready(s) && s.mem == mem;
    hide Boot, Run, Ready, Met;
    SendFirstEnds(s, src, len, dst, cap);
    ListenFirstEnds(s, src, len, dst, cap);
    if Min(len, cap) > 0 {
      CopyAgreesExactly(mem, dst, src, Min(len, cap));
    }
  }

  /** The two runs do differ: two unequal bytes sent to a buffer one byte further on. */
  lemma OverlapDiffers(b: Build, mem: Mem, a: u64)
    requires b.LayoutOk() && InSandbox(a) && a + 3 <= SANDBOX_END && Load(mem, a, 2) == [1, 2]
    ensures var one := Run(Boot(b, mem), SendFirst(mem, a, 2, a + 1, 2));
            var two := Run(Boot(b, mem), ListenFirst(mem, a, 2, a + 1, 2));
            one.Ok? && two.Ok? && one.value.mem != two.value.mem
  {
    hide Run, Boot;
    OrderDoesNotMatter(b, mem, a, 2, a + 1, 2);
    assert !RepeatsAt(Load(mem, a, 2), 1, 1);
  }
}
