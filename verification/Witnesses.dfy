/** Short concrete runs: each of the six endpoint shapes is reached. */
module Witnesses {
  import opened Base
  import opened Memory
  import opened State
  import opened Threads
  import opened Machine
  import opened Invariant
  import opened Runs
  import opened Frames
  import opened Fairness
  import opened Shapes

  /** A system call from the start of the sandbox with the given x0..x4. */
  function Svc(nr: u64, a0: u64, a1: u64, a2: u64, a3: u64, a4: u64): (tf: TrapFrame)
    ensures IsSvc(tf) && tf.x[8] == nr && InSandbox(tf.elr)
    ensures tf.x[0] == a0 && tf.x[1] == a1 && tf.x[2] == a2 && tf.x[3] == a3 && tf.x[4] == a4
  {
    var x := ZeroRegs()[0 := a0][1 := a1][2 := a2][3 := a3][4 := a4][8 := nr];
    TrapFrame(x, 0, SANDBOX_BASE, 0, 0x5400_0000, 0)
  }

  function CallUart(mem: Mem): Event {
    Trap(mem, Svc(SYS_IPC_CALL, EP_UART, SANDBOX_BASE, 1, SANDBOX_BASE, 1), 0)
  }

  function RecvUart(mem: Mem): Event {
    Trap(mem, Svc(SYS_IPC_RECV, EP_UART, SANDBOX_BASE, 1, 0, 0), 0)
  }

  function ReplyUart(mem: Mem): Event {
    Trap(mem, Svc(SYS_IPC_REPLY, EP_UART, SANDBOX_BASE, 0, 0, 0), 0)
  }

  function YieldNow(mem: Mem): Event {
    Trap(mem, Svc(SYS_YIELD, 0, 0, 0, 0, 0), 0)
  }

  /** task_a in EL0, task_b waiting for its turn, the UART endpoint quiet. */
  ghost predicate Fresh(s: Kernel) {
    Inv(s) && s.current == TASK_A && s.threads[TASK_B].task.TaskRunnable?
    && ShapeOf(s.eps[EP_UART]) == Shape(false, false, false)
  }

  lemma BootIsFresh(b: Build, mem: Mem)
    requires b.LayoutOk()
    ensures Fresh(Boot(b, mem))
  {
    BootInv(b, mem);
  }

  /** A yield or a call by task_a hands the CPU to task_b. */
  lemma FirstTrap(s: Kernel, e: Event, mem: Mem)
    requires Fresh(s) && (e == YieldNow(mem) || e == CallUart(mem))
    ensures Do(s, e).Ok? && Inv(Do(s, e).value)
    ensures Do(s, e).value.current == TASK_B
    ensures ShapeOf(Do(s, e).value.eps[EP_UART]) == Shape(e == CallUart(mem), e == CallUart(mem), false)
  {
    StepInv(s, e);
    var s0 := s.(mem := e.mem);
    SameKernelKeeps(s, s0);
    FirstShape(s0, e.tf, e.w, e == CallUart(mem));
    HandOver(s0, e.tf, e.w);
  }

  lemma FirstShape(s: Kernel, tf: TrapFrame, w: nat, call: bool)
    requires Fresh(s)
    requires tf == if call then CallUart(s.mem).tf else YieldNow(s.mem).tf
    ensures Parks(s, tf) && TrapStep(s, tf, w).Ok?
    ensures ShapeOf(TrapStep(s, tf, w).value.eps[EP_UART]) == Shape(call, call, false)
  {
    assert s.eps[EP_UART].owner == Owner(s.build, EP_UART);
    assert Parks(s, tf);
    TrapMoves(s, tf, w, EP_UART);
  }

  lemma HandOver(s: Kernel, tf: TrapFrame, w: nat)
    requires Fresh(s) && InSandbox(tf.elr) && Parks(s, tf)
    ensures TrapStep(s, tf, w).Ok? && TrapStep(s, tf, w).value.current == TASK_B
  {
    TrapPicksNearest(s, tf, w, TASK_B);
  }

  /** One trap by task_b on the UART endpoint. */
  lemma ServerTrap(s: Kernel, e: Event)
    requires Inv(s) && s.current == TASK_B && e.Trap? && TrapInside(e)
    ensures Do(s, e).Ok? && Inv(Do(s, e).value)
    ensures ShapeOf(Do(s, e).value.eps[EP_UART]) ==
              Moved(ShapeOf(s.eps[EP_UART]), MoveOf(s.(mem := e.mem), e.tf, EP_UART))
    ensures !Parks(s.(mem := e.mem), e.tf) ==> Do(s, e).value.current == TASK_B
  {
    StepInv(s, e);
    var s0 := s.(mem := e.mem);
    SameKernelKeeps(s, s0);
    TrapMoves(s0, e.tf, e.w, EP_UART);
    ParksExactly(s0, e.tf);
    HandleTrapInv(s0, e.tf);
  }

  /** A run of three events, unfolded. */
  lemma RunThree(s: Kernel, e1: Event, e2: Event, e3: Event)
    requires Fits(s) && Do(s, e1).Ok? && Do(Do(s, e1).value, e2).Ok?
    ensures Run(s, [e1]) == Do(s, e1)
    ensures Run(s, [e1, e2]) == Do(Do(s, e1).value, e2)
    ensures Run(s, [e1, e2, e3]) == Do(Do(Do(s, e1).value, e2).value, e3)
  {
    var s1 := Do(s, e1).value;
    var s2 := Do(s1, e2).value;
    RunOne(s, e1);
    RunOne(s1, e2);
    RunOne(s2, e3);
    assert [e1, e2][1..] == [e2] && [e1, e2, e3][1..] == [e2, e3] && [e2, e3][1..] == [e3];
    assert Run(s, [e1, e2]) == Run(s1, [e2]);
    assert Run(s, [e1, e2, e3]) == Run(s1, [e2, e3]) == Run(s2, [e3]);
  }

  lemma RunOne(s: Kernel, e: Event)
    requires Fits(s)
    ensures Run(s, [e]) == Do(s, e)
  {
    assert [e][1..] == [];
  }

  /** The events that lead to a shape: a call or a yield by task_a, then task_b's own traps. */
  function RunTo(h: Shape, mem: Mem): (es: seq<Event>)
    requires Possible(h)
    ensures StaysInside(es)
  {
    if h == Shape(false, false, false) then []
    else if h == Shape(true, true, false) then [CallUart(mem)]
    else if h == Shape(false, true, false) then [CallUart(mem), ReplyUart(mem)]
    else if h == Shape(false, false, true) then [YieldNow(mem), RecvUart(mem)]
    else if h == Shape(true, false, false) then [CallUart(mem), RecvUart(mem)]
    else [CallUart(mem), RecvUart(mem), RecvUart(mem)]
  }

  /** Each of the six shapes is the UART endpoint's at the end of some run. */
  lemma SixShapesReached(b: Build, mem: Mem, h: Shape)
    requires b.LayoutOk() && Possible(h)
    ensures Run(Boot(b, mem), RunTo(h, mem)).Ok?
    ensures ShapeOf(Run(Boot(b, mem), RunTo(h, mem)).value.eps[EP_UART]) == h
  {
    BootIsFresh(b, mem);
    if h != Shape(false, false, false) {
      ShapeReached(Boot(b, mem), mem, h);
    }
  }

  /** What task_b's receive and reply do to its own endpoint. */
  lemma ServerMoves(s: Kernel, mem: Mem)
    requires Inv(s) && s.current == TASK_B
    ensures var s0, h := s.(mem := mem), ShapeOf(s.eps[EP_UART]);
            && MoveOf(s0, RecvUart(mem).tf, EP_UART) == (if h.pending then Taken else Slept)
            && MoveOf(s0, ReplyUart(mem).tf, EP_UART) == (if h.caller then Replied else Stay)
            && (h.pending ==> !Parks(s0, RecvUart(mem).tf))
            && !Parks(s0, ReplyUart(mem).tf)
  {
    assert s.eps[EP_UART].owner == Owner(s.build, EP_UART);
  }

  lemma CallAndYieldDiffer(mem: Mem)
    ensures CallUart(mem) != YieldNow(mem)
    ensures ReplyUart(mem) != RecvUart(mem)
    ensures ReplyUart(mem).Trap? && TrapInside(ReplyUart(mem)) && ReplyUart(mem).mem == mem
    ensures RecvUart(mem).Trap? && TrapInside(RecvUart(mem)) && RecvUart(mem).mem == mem
  {
    assert CallUart(mem).tf.x[8] != YieldNow(mem).tf.x[8];
    assert ReplyUart(mem).tf.x[8] != RecvUart(mem).tf.x[8];
  }

  /** task_b's receive or reply, told from the endpoint's shape. */
  lemma ServerDoes(s: Kernel, e: Event, mem: Mem)
    requires Inv(s) && s.current == TASK_B && (e == RecvUart(mem) || e == ReplyUart(mem))
    ensures Do(s, e).Ok? && Inv(Do(s, e).value)
    ensures var h, recv := ShapeOf(s.eps[EP_UART]), e == RecvUart(mem);
            && ShapeOf(Do(s, e).value.eps[EP_UART]) ==
                 (if !recv then h.(caller := false)
                  else if h.pending then h.(pending := false)
                  else h.(receiver := true))
            && (h.pending || !recv ==> Do(s, e).value.current == TASK_B)
  {
    assert Fits(s);
    CallAndYieldDiffer(mem);
    ServerMoves(s, mem);
    hide Inv, Fits, Do, ShapeOf, RecvUart, ReplyUart, Parks, MoveOf, TrapInside;
    ServerTrap(s, e);
  }

  lemma AfterTwo(s: Kernel, first: Event, second: Event, mem: Mem)
    requires Fresh(s) && (first == YieldNow(mem) || first == CallUart(mem))
    requires second == RecvUart(mem) || second == ReplyUart(mem)
    ensures Do(s, first).Ok? && Do(Do(s, first).value, second).Ok?
    ensures var call, recv := first == CallUart(mem), second == RecvUart(mem);
            var s1, s2 := Do(s, first).value, Do(Do(s, first).value, second).value;
            && ShapeOf(s1.eps[EP_UART]) == Shape(call, call, false)
            && ShapeOf(s2.eps[EP_UART]) == (if recv then Shape(call, false, !call) else Shape(false, call, false))
            && Inv(s2) && (call ==> s2.current == TASK_B)
  {
    assert Fits(s);
    hide Inv, Do, MoveOf, ShapeOf, Parks, CallUart, RecvUart, ReplyUart, YieldNow;
    CallAndYieldDiffer(mem);
    FirstTrap(s, first, mem);
    ServerDoes(Do(s, first).value, second, mem);
  }

  /** Where one, two or three events lead. */
  lemma AfterRuns(s: Kernel, first: Event, second: Event, mem: Mem)
    requires Fresh(s) && (first == YieldNow(mem) || first == CallUart(mem))
    requires second == RecvUart(mem) || second == ReplyUart(mem)
    ensures Run(s, [first]).Ok? && Run(s, [first, second]).Ok?
    ensures var call, recv := first == CallUart(mem), second == RecvUart(mem);
            && ShapeOf(Run(s, [first]).value.eps[EP_UART]) == Shape(call, call, false)
            && ShapeOf(Run(s, [first, second]).value.eps[EP_UART]) ==
                 (if recv then Shape(call, false, !call) else Shape(false, call, false))
            && Inv(Run(s, [first, second]).value)
            && (call ==> Run(s, [first, second]).value.current == TASK_B)
            && Run(s, [first, second, second]) == Do(Run(s, [first, second]).value, second)
  {
    assert Fits(s);
    hide Inv, Do, Run, ShapeOf, CallUart, RecvUart, ReplyUart, YieldNow, Fresh, Fits;
    AfterTwo(s, first, second, mem);
    RunThree(s, first, second, second);
  }

  lemma ThirdReceive(s: Kernel, mem: Mem)
    requires Fresh(s)
    ensures var out := Run(s, [CallUart(mem), RecvUart(mem), RecvUart(mem)]);
            out.Ok? && ShapeOf(out.value.eps[EP_UART]) == Shape(true, false, true)
  {
    assert Fits(s);
    CallAndYieldDiffer(mem);
    AfterRuns(s, CallUart(mem), RecvUart(mem), mem);
    hide Inv, Do, Run, ShapeOf, CallUart, RecvUart, ReplyUart, Fresh, MoveOf, Parks;
    ServerDoes(Run(s, [CallUart(mem), RecvUart(mem)]).value, RecvUart(mem), mem);
  }

  lemma ShapeReached(s: Kernel, mem: Mem, h: Shape)
    requires Fresh(s) && Possible(h) && h != Shape(false, false, false)
    ensures Run(s, RunTo(h, mem)).Ok? && ShapeOf(Run(s, RunTo(h, mem)).value.eps[EP_UART]) == h
  {
    assert Fits(s);
    hide Inv, Do, Run, ShapeOf, CallUart, RecvUart, ReplyUart, YieldNow, Fresh, Fits;
    CallAndYieldDiffer(mem);
    if h == Shape(true, false, true) {
      ThirdReceive(s, mem);
    } else if h == Shape(false, false, true) {
      AfterRuns(s, YieldNow(mem), RecvUart(mem), mem);
    } else if h == Shape(false, true, false) {
      AfterRuns(s, CallUart(mem), ReplyUart(mem), mem);
    } else {
      AfterRuns(s, CallUart(mem), RecvUart(mem), mem);
    }
  }

  function ExitNow(mem: Mem): Event {
    Trap(mem, Svc(SYS_EXIT, 0, 0, 0, 0, 0), 0)
  }

  /** A run in which the owner's death does not clear its endpoint: task_a calls, task_b
      replies without having received, and exits. */
  lemma RequestOutlivesOwner(b: Build, mem: Mem)
    requires b.LayoutOk()
    ensures var es := [CallUart(mem), ReplyUart(mem), ExitNow(mem)];
            && StaysInside(es) && Run(Boot(b, mem), es).Ok?
            && var s := Run(Boot(b, mem), es).value;
               s.threads[TASK_B].task.TaskDead? && s.eps[EP_UART].hasPending && !Accepting(s.eps[EP_UART])
  {
    BootIsFresh(b, mem);
    CallAndYieldDiffer(mem);
    OwnerGone(Boot(b, mem), mem);
  }

  lemma OwnerGone(s: Kernel, mem: Mem)
    requires Fresh(s)
    ensures var es := [CallUart(mem), ReplyUart(mem), ExitNow(mem)];
            && Run(s, es).Ok?
            && var r := Run(s, es).value;
               r.threads[TASK_B].task.TaskDead? && r.eps[EP_UART].hasPending && !Accepting(r.eps[EP_UART])
  {
    assert Fits(s);
    AfterTwo(s, CallUart(mem), ReplyUart(mem), mem);
    hide Inv, Do, Run, Fresh, CallUart, ReplyUart, RecvUart, ExitNow, Parks;
    CallAndYieldDiffer(mem);
    OwnerExits(Do(Do(s, CallUart(mem)).value, ReplyUart(mem)).value, mem);
    RunThree(s, CallUart(mem), ReplyUart(mem), ExitNow(mem));
  }

  lemma OwnerExits(s: Kernel, mem: Mem)
    requires Inv(s) && s.current == TASK_B && ShapeOf(s.eps[EP_UART]) == Shape(false, true, false)
    ensures Do(s, ExitNow(mem)).Ok?
    ensures var r := Do(s, ExitNow(mem)).value;
            r.threads[TASK_B].task.TaskDead? && r.eps[EP_UART].hasPending && !Accepting(r.eps[EP_UART])
  {
    var s0, tf := s.(mem := mem), ExitNow(mem).tf;
    SameKernelKeeps(s, s0);
    assert s.eps[EP_UART].owner == Owner(s.build, EP_UART);
    DeathLeaves(s0, tf, 0, EP_UART);
    HandleTrapInv(s0, tf);
    PlainReason(s0, tf);
    ReturnEps(HandleTrap(s0, tf).value.0, 0, EP_UART);
  }
}
