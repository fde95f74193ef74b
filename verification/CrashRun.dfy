/** A run of the RECOVERY system in which the injected crash and the restart happen. */
module CrashRun {
  import opened Base
  import opened Memory
  import opened State
  import opened Machine
  import opened Invariant
  import opened Runs
  import opened Context
  import opened Overlap
  import opened Mailbox
  import opened Faults
  import opened Shapes
  import opened Resumption
  import opened Scheduler
  import opened Fairness
  import opened Witnesses
  import opened WaitGraph
  import opened KernelGraph
  import opened HangRuns
  import opened Shipped
  import opened ShippedSteps
  import opened ShippedRuns
  import opened Wire
  import opened WireRuns

  /** The programs' points lie in the sandbox. */
  predicate PointsInside(l: Layout) {
    InSandbox(l.bRecv) && InSandbox(l.bWrite) && InSandbox(l.bReply) && InSandbox(l.cWait) && InSandbox(l.cRestart)
  }

  /** A system call that comes back to `next`. */
  function CallAt(s: Kernel, nr: u64, a0: u64, a1: u64, a2: u64, next: u64): Event {
    Trap(s.mem, Svc(nr, a0, a1, a2, 0, 0).(elr := next), 0)
  }

  /** A stage of the run: who waits for what, who has the CPU, and where the servers are. */
  ghost predicate Stage(l: Layout, s: Kernel, g: Graph, cur: nat, pcB: u64, pcC: u64) {
    && Wired(l, s) && GraphOf(s) == g && s.current == cur
    && Pc(s, TASK_B).elr == pcB && Pc(s, TASK_C).elr == pcC
    && !Crashed(l, s.mem)
  }

  /** The run so far: what the programs may do, carefully, from `s` to `r`. */
  ghost predicate Leads(l: Layout, s: Kernel, es: seq<Event>, r: Kernel) {
    && Wired(l, s) && ShippedRun(l, s, es) && CarefulRun(l, s, es) && Run(s, es) == Ok(r)
  }

  lemma {:induction false} LeadsOn(l: Layout, s: Kernel, es: seq<Event>, m: Kernel, e: Event)
    requires Leads(l, s, es, m) && Fits(m) && ByShipped(l, m, e) && Careful(l, m, e) && Do(m, e).Ok?
    ensures Leads(l, s, es + [e], Do(m, e).value)
    decreases |es|
  {
    if es == [] {
      assert [] + [e] == [e] && [e][1..] == [];
      RunOne(s, e);
    } else {
      assert (es + [e])[0] == es[0] && (es + [e])[1..] == es[1..] + [e];
      WireStep(l, s, es[0]);
      LeadsOn(l, Do(s, es[0]).value, es[1..], m, e);
    }
  }

  /** One trap of the programs, seen from the wait graph and the servers' points. */
  lemma StageStep(l: Layout, s: Kernel, e: Event)
    requires Wired(l, s) && e.Trap? && s.current != IDLE && ByShipped(l, s, e) && Careful(l, s, e) && e.mem == s.mem
    ensures UserRunning(s) && InSandbox(e.tf.elr)
    ensures Do(s, e).Ok? && Wired(l, Do(s, e).value)
    ensures var r := Do(s, e).value;
            && StepsTo(GraphOf(s), GraphOf(r), s.current) && GraphOf(r)[s.current] == OwnStatus(s, e.tf)
            && (forall i: nat :: i < IDLE && i != s.current ==>
                  GraphOf(r)[i] == if WakesUp(s, e.tf, i) then Awake else GraphOf(s)[i])
            && (forall j: nat :: j < IDLE && !(j != s.current && Dead(s, j)) ==>
                  Pc(r, j).elr == if j == s.current then e.tf.elr else Pc(s, j).elr)
            && (!Parks(s, e.tf) ==> r.current == s.current)
            && 0 <= r.current < IDLE && GraphOf(r)[r.current].Awake?
  {
    TrapIsInside(l, s, e);
    WireStep(l, s, e);
    assert s.(mem := e.mem) == s;
    TrapTaskView(s, e.tf, e.w);
    TrapSteps(s, e.tf, e.w);
    var r := Do(s, e).value;
    SomeoneRuns(l, r);
    StatusTells(r, r.current);
    GraphAt(r, r.current);
    OneRunningTask(r, r.current);
    TrapOwnCtx(s, e);
    hide Inv, GraphOf, TrapStep, WakesUp, OwnStatus, WireOk, UartOk, ServerOk, NoticeOk, Parks;
    forall i: nat | i < IDLE && i != s.current
      ensures GraphOf(r)[i] == if WakesUp(s, e.tf, i) then Awake else GraphOf(s)[i]
    {
      OthersMove(s, e.tf, e.w, i);
      GraphAt(s, i);
      GraphAt(r, i);
    }
    forall j: nat | j < IDLE && !(j != s.current && Dead(s, j))
      ensures Pc(r, j).elr == if j == s.current then e.tf.elr else Pc(s, j).elr
    {
      assert j != s.current ==> OtherView(s, e.tf, r, j);
    }
  }

  lemma TrapIsInside(l: Layout, s: Kernel, e: Event)
    requires Wired(l, s) && e.Trap? && s.current != IDLE && ByShipped(l, s, e)
    ensures UserRunning(s) && InSandbox(e.tf.elr)
  {
  }

  // ---------------------------------------------------------------- who is next

  /** A trap that parks gives the CPU to an awake task at least as near as `i`. */
  lemma NextIs(l: Layout, s: Kernel, e: Event, i: nat)
    requires Wired(l, s) && e.Trap? && s.current != IDLE && TrapInside(e) && e.mem == s.mem
    requires i < IDLE && i != s.current && GraphOf(s)[i].Awake? && Parks(s, e.tf)
    ensures Do(s, e).Ok?
    ensures var c := Do(s, e).value.current;
            0 <= c < IDLE && Distance(THREAD_COUNT, s.current, c) <= Distance(THREAD_COUNT, s.current, i)
  {
    assert s.(mem := e.mem) == s;
    StatusTells(s, i);
    GraphAt(s, i);
    OneRunningTask(s, i);
    hide GraphOf, TrapStep, Parks;
    TrapPicksNearest(s, e.tf, e.w, i);
  }

  /** The crash hands the CPU to the waiting supervisor. */
  lemma CrashGoesToC(s: Kernel, tf: TrapFrame, w: nat)
    requires UserRunning(s) && s.current == TASK_B && s.waiter == TASK_C && !IsSvc(tf) && InSandbox(tf.elr)
    ensures TrapStep(s, tf, w).Ok? && TrapStep(s, tf, w).value.current == TASK_C
  {
    HandleTrapInv(s, tf);
    PlainReason(s, tf);
    HandlerMail(s, tf);
    var s1 := HandleTrap(s, tf).value.0;
    hide HandleTrap;
    ParkInv(s1);
    ParkDyingMail(s1);
    var p := Park(s1).value.(resched := true);
    SameKernelKeeps(Park(s1).value, p);
    assert ThreadOk(p.build, p.threads[TASK_C], TASK_C);
    SwitchPicksNearest(p, w, TASK_C);
  }

  // ---------------------------------------------------------------- the stages

  const ALL_AWAKE: Graph := [Awake, Awake, Awake]

  lemma Stage0(l: Layout, b: Build, mem: Mem)
    requires l.Suits(b) && !b.latency && !Crashed(l, mem)
    ensures Stage(l, Boot(b, mem), ALL_AWAKE, TASK_A, b.entryB, b.entryC)
  {
    WiredBoot(l, b, mem);
  }

  lemma Stage1(l: Layout, s: Kernel, pcB: u64, pcC: u64) returns (e: Event)
    requires Stage(l, s, ALL_AWAKE, TASK_A, pcB, pcC)
    ensures ByShipped(l, s, e) && Careful(l, s, e) && Do(s, e).Ok?
    ensures Stage(l, Do(s, e).value, ALL_AWAKE, TASK_B, pcB, pcC)
  {
    e := YieldNow(s.mem);
    assert s.(mem := e.mem) == s && Parks(s, e.tf) && OwnStatus(s, e.tf) == Awake;
    StageStep(l, s, e);
    AliveThen(s, TASK_B);
    AliveThen(s, TASK_C);
    NextIs(l, s, e, TASK_B);
    FlagKept(l, s, e);
    hide Wired, GraphOf, WakesUp, OwnStatus, Parks, Do;
    var r := Do(s, e).value;
    assert GraphOf(r) == ALL_AWAKE;
  }

  lemma AliveThen(s: Kernel, i: nat)
    requires Inv(s) && i < IDLE
    ensures Dead(s, i) <==> GraphOf(s)[i].Gone?
  {
    StatusTells(s, i);
    GraphAt(s, i);
  }

  /** task_a's traps do not touch the flag. */
  lemma FlagKept(l: Layout, s: Kernel, e: Event)
    requires Wired(l, s) && e.Trap? && e.mem == s.mem && ByShipped(l, s, e) && s.current == TASK_A
    ensures Do(s, e).Ok? && Crashed(l, Do(s, e).value.mem) == Crashed(l, s.mem)
  {
    assert s.(mem := e.mem) == s;
    StepA(l, s, e.tf, e.w);
  }

  /** The UART endpoint, read off the wait graph. */
  lemma UartSeen(l: Layout, s: Kernel)
    requires Wired(l, s)
    ensures var g, ep := GraphOf(s), s.eps[EP_UART];
            && ep.owner == TASK_B && s.eps[EP_BENCH].owner == NONE
            && (ep.caller == TASK_A <==> g[TASK_A] == Asks(TASK_B)) && (ep.caller == NONE || ep.caller == TASK_A)
            && (ep.receiver == TASK_B <==> g[TASK_B].Listens?) && (ep.receiver == NONE || ep.receiver == TASK_B)
            && (ep.hasPending ==> ep.caller == TASK_A)
            && (s.waiter == TASK_C <==> g[TASK_C].Watches?)
            && (!g[TASK_B].Gone? ==> s.death == NONE)
  {
    StatusTells(s, TASK_A);
    StatusTells(s, TASK_B);
    StatusTells(s, TASK_C);
    WhoSleeps(s);
    assert s.eps[EP_UART].owner == Owner(s.build, EP_UART) && s.eps[EP_BENCH].owner == Owner(s.build, EP_BENCH);
    hide Inv;
  }

  /** task_b starts to listen. */
  lemma Stage2(l: Layout, s: Kernel, pcC: u64) returns (e: Event)
    requires Stage(l, s, ALL_AWAKE, TASK_B, s.build.entryB, pcC) && PointsInside(l) && !l.off
    ensures ByShipped(l, s, e) && Careful(l, s, e) && Do(s, e).Ok?
    ensures Stage(l, Do(s, e).value, [Awake, Listens, Awake], TASK_C, l.bRecv, pcC)
  {
    e := CallAt(s, SYS_IPC_RECV, EP_UART, l.recvBuf, 256, l.bRecv);
    UartSeen(l, s);
    assert s.(mem := e.mem) == s && Parks(s, e.tf) && OwnStatus(s, e.tf) == Listens;
    StageStep(l, s, e);
    AliveThen(s, TASK_C);
    NextIs(l, s, e, TASK_C);
    ServerIdle(l, s, e);
    BReceives(l, s, e.tf, e.w);
    hide Wired, WakesUp, GraphOf, OwnStatus, Parks, Do, SystemOk;
    assert GraphOf(Do(s, e).value) == [Awake, Listens, Awake];
  }

  lemma ServerIdle(l: Layout, s: Kernel, e: Event)
    requires Wired(l, s) && s.current == TASK_B && s.el0.elr == s.build.entryB
    ensures !Busy(l, s)
  {
  }

  /** task_c starts to wait for a death. */
  lemma Stage3(l: Layout, s: Kernel) returns (e: Event)
    requires Stage(l, s, [Awake, Listens, Awake], TASK_C, l.bRecv, s.build.entryC) && PointsInside(l) && !l.off
    ensures ByShipped(l, s, e) && Careful(l, s, e) && Do(s, e).Ok?
    ensures Stage(l, Do(s, e).value, [Awake, Listens, Watches], TASK_A, l.bRecv, l.cWait)
  {
    e := CallAt(s, SYS_SUPERVISE_WAIT, 0, 0, 0, l.cWait);
    UartSeen(l, s);
    OneRunningTask(s, TASK_C);
    assert s.(mem := e.mem) == s && Parks(s, e.tf) && OwnStatus(s, e.tf) == Watches;
    StageStep(l, s, e);
    AliveThen(s, TASK_B);
    NextIs(l, s, e, TASK_A);
    assert !WakesUp(s, e.tf, TASK_B);
    CWaits(l, s, e.tf, e.w);
    hide Wired, WakesUp, GraphOf, OwnStatus, Parks, Do, SystemOk;
    assert GraphOf(Do(s, e).value) == [Awake, Listens, Watches];
  }

  /** task_a writes; the request wakes the server, the only task left awake. */
  lemma Stage4(l: Layout, s: Kernel) returns (e: Event)
    requires Stage(l, s, [Awake, Listens, Watches], TASK_A, l.bRecv, l.cWait) && s.build.micro
    ensures ByShipped(l, s, e) && Careful(l, s, e) && Do(s, e).Ok?
    ensures Stage(l, Do(s, e).value, [Asks(TASK_B), Awake, Watches], TASK_B, l.bRecv, l.cWait)
    ensures Busy(l, Do(s, e).value)
  {
    e := CallAt(s, SYS_WRITE, SANDBOX_BASE, 0, 0, SANDBOX_BASE);
    UartSeen(l, s);
    assert s.(mem := e.mem) == s && Parks(s, e.tf) && OwnStatus(s, e.tf) == Asks(TASK_B);
    assert Harmless(Load(s.mem, SANDBOX_BASE, 0), Overtake(l.recvBuf, SANDBOX_BASE, 0));
    StageStep(l, s, e);
    AliveThen(s, TASK_B);
    AliveThen(s, TASK_C);
    assert WakesUp(s, e.tf, TASK_B) && !WakesUp(s, e.tf, TASK_C);
    FlagKept(l, s, e);
    TrapMoves(s, e.tf, e.w, EP_UART);
    var r := Do(s, e).value;
    hide WakesUp, GraphOf, OwnStatus, Parks, Do, Inv, TrapStep, NoticeOk, WireOk;
    assert GraphOf(r) == [Asks(TASK_B), Awake, Watches];
  }

  /** The server writes what it was sent. */
  lemma Stage5(l: Layout, s: Kernel) returns (e: Event)
    requires Stage(l, s, [Asks(TASK_B), Awake, Watches], TASK_B, l.bRecv, l.cWait) && Busy(l, s) && PointsInside(l)
    ensures ByShipped(l, s, e) && Careful(l, s, e) && Do(s, e).Ok?
    ensures Stage(l, Do(s, e).value, [Asks(TASK_B), Awake, Watches], TASK_B, l.bWrite, l.cWait)
  {
    e := CallAt(s, SYS_WRITE, l.recvBuf, s.el0.x[0], 0, l.bWrite);
    assert s.(mem := e.mem) == s && !Parks(s, e.tf) && OwnStatus(s, e.tf) == Awake;
    StageStep(l, s, e);
    AliveThen(s, TASK_C);
    assert !WakesUp(s, e.tf, TASK_A) && !WakesUp(s, e.tf, TASK_C);
    BWrites(l, s, e.tf, e.w);
    hide Wired, WakesUp, GraphOf, OwnStatus, Parks, Do, SystemOk;
    assert GraphOf(Do(s, e).value) == [Asks(TASK_B), Awake, Watches];
  }

  /** The acknowledgement wakes task_a; the server goes on. */
  lemma Stage6(l: Layout, s: Kernel) returns (e: Event)
    requires Stage(l, s, [Asks(TASK_B), Awake, Watches], TASK_B, l.bWrite, l.cWait) && PointsInside(l)
    ensures ByShipped(l, s, e) && Careful(l, s, e) && Do(s, e).Ok?
    ensures Stage(l, Do(s, e).value, [Awake, Awake, Watches], TASK_B, l.bReply, l.cWait)
  {
    e := CallAt(s, SYS_IPC_REPLY, EP_UART, l.recvBuf, 0, l.bReply);
    UartSeen(l, s);
    assert RangeOk(l.recvBuf, 0);
    assert s.(mem := e.mem) == s && !Parks(s, e.tf) && OwnStatus(s, e.tf) == Awake;
    StageStep(l, s, e);
    AliveThen(s, TASK_C);
    assert WakesUp(s, e.tf, TASK_A) && !WakesUp(s, e.tf, TASK_C);
    BReplies(l, s, e.tf, e.w);
    hide Wired, WakesUp, GraphOf, OwnStatus, Parks, Do, SystemOk;
    assert GraphOf(Do(s, e).value) == [Awake, Awake, Watches];
  }

  /** The breakpoint, with the flag set just before. */
  function Breakpoint(l: Layout, s: Kernel): Event
    requires RangeOk(l.flag, 4)
  {
    Trap(Store(s.mem, l.flag, [1, 0, 0, 0]), Svc(0, 0, 0, 0, 0, 0).(elr := l.bReply, esr := 0), 0)
  }

  lemma BreakpointCareful(l: Layout, s: Kernel)
    requires Wired(l, s) && s.current == TASK_B && s.el0.elr == l.bReply && !Crashed(l, s.mem) && InSandbox(l.bReply)
    ensures var e := Breakpoint(l, s); ByShipped(l, s, e) && Careful(l, s, e) && Crashed(l, e.mem)
  {
    var m := Store(s.mem, l.flag, [1, 0, 0, 0]);
    assert Load(m, l.flag, 4) == [1, 0, 0, 0];
    assert Load(m, l.recvBuf, 256) == Load(s.mem, l.recvBuf, 256);
  }

  /** The crash: task_b is dead and the supervisor runs, holding the notice. */
  lemma Stage7(l: Layout, s: Kernel) returns (e: Event)
    requires Stage(l, s, [Awake, Awake, Watches], TASK_B, l.bReply, l.cWait) && PointsInside(l)
    ensures ByShipped(l, s, e) && Careful(l, s, e) && Do(s, e).Ok?
    ensures var r := Do(s, e).value;
            Wired(l, r) && r.current == TASK_C && Dead(r, TASK_B) && Held(l, r)
  {
    e := Breakpoint(l, s);
    OneRunningTask(s, TASK_B);
    BreakpointCareful(l, s);
    WireStep(l, s, e);
    UartSeen(l, s);
    CrashSeen(l, s, e);
  }

  lemma CrashSeen(l: Layout, s: Kernel, e: Event)
    requires Wired(l, s) && s.current == TASK_B && s.waiter == TASK_C && e.Trap? && !IsSvc(e.tf) && InSandbox(e.tf.elr)
    requires Do(s, e).Ok? && Wired(l, Do(s, e).value)
    ensures var r := Do(s, e).value; r.current == TASK_C && Dead(r, TASK_B) && Held(l, r)
  {
    var s0 := s.(mem := e.mem);
    SameKernelKeeps(s, s0);
    CrashGoesToC(s0, e.tf, e.w);
    FaultContainedExactly(s0, e.tf, e.w);
    hide TrapStep, FaultItem, Bystander, WireOk, UartOk, ServerOk;
  }

  /** The restart is granted. */
  lemma Stage8(l: Layout, s: Kernel) returns (e: Event)
    requires Wired(l, s) && s.current == TASK_C && Dead(s, TASK_B) && Held(l, s) && PointsInside(l)
    ensures ByShipped(l, s, e) && Careful(l, s, e) && Do(s, e).Ok?
    ensures !Dead(Do(s, e).value, TASK_B)
  {
    e := CallAt(s, SYS_TASK_RESTART, TASK_B, 0, 0, l.cRestart);
    assert s.(mem := e.mem) == s;
    OneRunningTask(s, TASK_C);
    CRestarts(l, s, e.tf, e.w);
  }

  // ---------------------------------------------------------------- the run

  /** From boot, a run of the RECOVERY programs on the MICRO kernel in which task_b crashes after
      serving a write of task_a, and one more event after which it is alive again. */
  lemma CrashAndRestartHappen(l: Layout, b: Build, mem: Mem)
    requires l.Suits(b) && !b.latency && b.micro && !l.off && PointsInside(l) && !Crashed(l, mem)
    ensures exists es, m, e :: Leads(l, Boot(b, mem), es, m) && Dead(m, TASK_B) && Revives(l, m, e)
  {
    Stage0(l, b, mem);
    var s0 := Boot(b, mem);
    LeadsNowhere(l, s0);
    var es, m := UpToTheWrite(l, s0);
    var es2, m2 := FromTheWrite(l, s0, es, m);
    var e := Stage8(l, m2);
    assert Revives(l, m2, e);
  }

  ghost predicate Revives(l: Layout, m: Kernel, e: Event) {
    && Wired(l, m) && ByShipped(l, m, e) && Careful(l, m, e)
    && Do(m, e).Ok? && !Dead(Do(m, e).value, TASK_B)
  }

  lemma LeadsNowhere(l: Layout, s: Kernel)
    requires Wired(l, s)
    ensures Leads(l, s, [], s)
  {
  }

  lemma UpToTheWrite(l: Layout, s0: Kernel) returns (es: seq<Event>, m: Kernel)
    requires Stage(l, s0, ALL_AWAKE, TASK_A, s0.build.entryB, s0.build.entryC)
    requires s0.build.micro && !l.off && PointsInside(l)
    ensures Leads(l, s0, es, m) && Busy(l, m)
    ensures Stage(l, m, [Asks(TASK_B), Awake, Watches], TASK_B, l.bRecv, l.cWait)
  {
    LeadsNowhere(l, s0);
    StageFits(l, s0);
    hide Stage, Leads, Do, Wired, Fits, Careful, ByShipped;
    var e1 := Stage1(l, s0, s0.build.entryB, s0.build.entryC);
    var s1 := Advance(l, s0, [], s0, e1);
    var e2 := Stage2(l, s1, s0.build.entryC);
    var s2 := Advance(l, s0, [] + [e1], s1, e2);
    var e3 := Stage3(l, s2);
    var s3 := Advance(l, s0, [] + [e1] + [e2], s2, e3);
    var e4 := Stage4(l, s3);
    m := Advance(l, s0, [] + [e1] + [e2] + [e3], s3, e4);
    es := [] + [e1] + [e2] + [e3] + [e4];
  }

  lemma FromTheWrite(l: Layout, s0: Kernel, es: seq<Event>, m: Kernel) returns (es1: seq<Event>, r: Kernel)
    requires Leads(l, s0, es, m) && Busy(l, m) && PointsInside(l)
    requires Stage(l, m, [Asks(TASK_B), Awake, Watches], TASK_B, l.bRecv, l.cWait)
    ensures Leads(l, s0, es1, r) && Wired(l, r) && r.current == TASK_C && Dead(r, TASK_B) && Held(l, r)
  {
    StageFits(l, m);
    hide Leads, Do, Wired, Fits, Careful, ByShipped, GraphOf;
    var e5 := Stage5(l, m);
    var s5 := Advance(l, s0, es, m, e5);
    var e6 := Stage6(l, s5);
    var s6 := Advance(l, s0, es + [e5], s5, e6);
    var e7 := Stage7(l, s6);
    r := Advance(l, s0, es + [e5] + [e6], s6, e7);
    es1 := es + [e5] + [e6] + [e7];
  }

  lemma StageFits(l: Layout, s: Kernel)
    requires Wired(l, s)
    ensures Fits(s)
  {
  }

  lemma DoBuild(l: Layout, s: Kernel, e: Event)
    requires Wired(l, s) && ByShipped(l, s, e)
    ensures Do(s, e).Ok? ==> Do(s, e).value.build == s.build
  {
    SomeoneRuns(l, s);
    if e.Trap? {
      TrapIsInside(l, s, e);
      StepBuild(s, e);
    }
  }

  /** One more event; the build stays. */
  lemma Advance(l: Layout, s0: Kernel, es: seq<Event>, m: Kernel, e: Event) returns (r: Kernel)
    requires Leads(l, s0, es, m) && Wired(l, m) && ByShipped(l, m, e) && Careful(l, m, e) && Do(m, e).Ok?
    ensures r == Do(m, e).value && Leads(l, s0, es + [e], r) && r.build == m.build && Fits(r)
  {
    r := Do(m, e).value;
    LeadsOn(l, s0, es, m, e);
    DoBuild(l, m, e);
  }
}
