/** Hanging, over whole runs: a task runs again if and only if the wait graph lets it. */
module HangRuns {
  import opened Base
  import opened Memory
  import opened State
  import opened Machine
  import opened Invariant
  import opened Runs
  import opened Context
  import opened Mailbox
  import opened Shapes
  import opened Buffers
  import opened Resumption
  import opened Scheduler
  import opened Fairness
  import opened Witnesses
  import opened WaitGraph
  import opened KernelGraph

  // ---------------------------------------------------------------- one event

  lemma GraphAt(s: Kernel, i: nat)
    requires Fits(s) && i < IDLE
    ensures GraphOf(s)[i] == StatusOf(s, i)
  {
    assert i == TASK_A || i == TASK_B || i == TASK_C;
  }

  /** A woken task waited for something the running task can give. */
  lemma WokenIsWakeable(s: Kernel, tf: TrapFrame, i: nat)
    requires UserRunning(s) && i < IDLE && i != s.current && WakesUp(s, tf, i)
    ensures Wakeable(GraphOf(s), i, s.current)
  {
    StatusTells(s, i);
    GraphAt(s, i);
    MovesAllowed(s, tf, EP_UART);
    MovesAllowed(s, tf, EP_BENCH);
    hide Inv, MoveOf;
  }

  /** A trap is a step of the wait graph. */
  lemma TrapSteps(s: Kernel, tf: TrapFrame, w: nat)
    requires UserRunning(s) && InSandbox(tf.elr)
    ensures TrapStep(s, tf, w).Ok?
    ensures StepsTo(GraphOf(s), GraphOf(TrapStep(s, tf, w).value), s.current)
    ensures GraphOf(TrapStep(s, tf, w).value)[s.current] == OwnStatus(s, tf)
  {
    OwnMoves(s, tf, w);
    StatusTells(s, s.current);
    OneRunningTask(s, s.current);
    GraphAt(s, s.current);
    var r := TrapStep(s, tf, w).value;
    GraphAt(r, s.current);
    hide Inv, TrapStep, WakesUp, OwnStatus, GraphOf, StatusOf;
    forall i: nat | i < IDLE && i != s.current
      ensures GraphOf(r)[i] == GraphOf(s)[i] || (GraphOf(r)[i].Awake? && Wakeable(GraphOf(s), i, s.current))
    {
      OthersMove(s, tf, w, i);
      GraphAt(s, i);
      GraphAt(r, i);
      if WakesUp(s, tf, i) {
        WokenIsWakeable(s, tf, i);
      }
    }
  }

  /** Ticks and idle passes leave the wait graph and the CPU alone. */
  lemma OtherEvents(s: Kernel, e: Event)
    requires Inv(s) && (!Enabled(s, e) || !e.Trap?)
    ensures Do(s, e).Ok? && Inv(Do(s, e).value) && GraphOf(Do(s, e).value) == GraphOf(s)
    ensures Do(s, e).value.current == s.current
  {
    if Enabled(s, e) {
      StepInv(s, e);
      match e
      case TimerTick => TickFrame(s);
      case IdlePass(_) => IdleStep(s, e);
    }
  }

  /** Where EL0's own stores leave the graph. */
  lemma SwapGraph(s: Kernel, mem: Mem)
    requires Inv(s)
    ensures Inv(s.(mem := mem)) && GraphOf(s.(mem := mem)) == GraphOf(s)
  {
    SameKernelKeeps(s, s.(mem := mem));
  }

  lemma EventSteps(s: Kernel, e: Event)
    requires Inv(s) && TrapInside(e) && e.Trap? && Enabled(s, e)
    ensures Do(s, e).Ok? && Inv(Do(s, e).value)
    ensures StepsTo(GraphOf(s), GraphOf(Do(s, e).value), s.current)
  {
    StepInv(s, e);
    SwapGraph(s, e.mem);
    hide Inv, GraphOf, TrapStep;
    TrapSteps(s.(mem := e.mem), e.tf, e.w);
  }

  // ---------------------------------------------------------------- outside the fixpoint: never again

  lemma StaysHung(s: Kernel, e: Event, i: nat)
    requires Inv(s) && TrapInside(e) && i < IDLE && !CanRun(GraphOf(s), i)
    ensures Do(s, e).Ok? && Inv(Do(s, e).value) && !CanRun(GraphOf(Do(s, e).value), i)
    ensures GraphOf(Do(s, e).value)[i] == GraphOf(s)[i]
  {
    hide GraphOf;
    if e.Trap? && Enabled(s, e) {
      EventSteps(s, e);
      var g, h := GraphOf(s), GraphOf(Do(s, e).value);
      if CanRun(h, i) {
        var n: nat :| CanIn(h, i, n);
        NoRevival(g, h, s.current, i, n);
      }
      assert CanIn(h, i, 0) == h[i].Awake?;
      assert CanIn(g, s.current, 0);
    } else {
      OtherEvents(s, e);
    }
  }

  /** A task outside the fixpoint never runs again, whatever EL0 does from then on. */
  lemma {:induction false} HungForever(s: Kernel, es: seq<Event>, i: nat)
    requires Fits(s) && Inv(s) && StaysInside(es) && i < IDLE && !CanRun(GraphOf(s), i)
    ensures Run(s, es).Ok? && Inv(Run(s, es).value) && Run(s, es).value.current != i
    ensures GraphOf(Run(s, es).value)[i] == GraphOf(s)[i]
    decreases |es|
  {
    if es == [] {
      NotCurrent(s, i);
    } else {
      assert TrapInside(es[0]);
      hide Inv, GraphOf, Do;
      StaysHung(s, es[0], i);
      HungForever(Do(s, es[0]).value, es[1..], i);
    }
  }

  lemma NotCurrent(s: Kernel, i: nat)
    requires Inv(s) && i < IDLE && !CanRun(GraphOf(s), i)
    ensures s.current != i && !GraphOf(s)[i].Awake?
  {
    StatusTells(s, i);
    GraphAt(s, i);
    OneRunningTask(s, i);
    assert !CanIn(GraphOf(s), i, 0);
  }

  // ---------------------------------------------------------------- inside the fixpoint: a run that gets there

  /** An awake task gets the CPU after some yields of the others. */
  lemma TurnTo(s: Kernel, i: nat) returns (es: seq<Event>)
    requires Inv(s) && i < IDLE && GraphOf(s)[i].Awake?
    ensures StaysInside(es) && Run(s, es).Ok? && Run(s, es).value.current == i
    decreases if s.current == i then 0 else Distance(THREAD_COUNT, if s.current < 0 then 0 else s.current, i)
  {
    if s.current == i {
      return [];
    }
    var e := YieldNow(s.mem);
    AwakeWaits(s, i);
    EventPicksNearest(s, e, i);
    assert s.(mem := s.mem) == s && Parks(s, e.tf);
    var m := Do(s, e).value;
    StatusTells(m, i);
    GraphAt(m, i);
    OneRunningTask(m, i);
    hide Inv, Do, YieldNow, GraphOf, Run;
    var tail := TurnTo(m, i);
    es := [e] + tail;
    RunCons(s, e, tail);
  }

  lemma AwakeWaits(s: Kernel, i: nat)
    requires Inv(s) && i < IDLE && GraphOf(s)[i].Awake? && s.current != i
    ensures s.threads[i].task.TaskRunnable? && TrapInside(YieldNow(s.mem))
  {
    StatusTells(s, i);
    GraphAt(s, i);
    OneRunningTask(s, i);
  }

  /** Along any run a task is awake at some point, or its status never moves. */
  lemma {:induction false} AwakeOrKept(s: Kernel, es: seq<Event>, i: nat)
    requires Fits(s) && Inv(s) && StaysInside(es) && i < IDLE
    ensures Run(s, es).Ok? && Inv(Run(s, es).value)
    ensures GraphOf(Run(s, es).value)[i] == GraphOf(s)[i] || exists k :: 0 <= k <= |es| && AwakeAt(s, es, k, i)
    decreases |es|
  {
    if GraphOf(s)[i].Awake? {
      assert AwakeAt(s, es, 0, i);
      RunInv(s, es);
    } else if es != [] {
      assert TrapInside(es[0]);
      OneEvent(s, es[0], i);
      var m := Do(s, es[0]).value;
      hide Inv, GraphOf, Do;
      AwakeOrKept(m, es[1..], i);
      if GraphOf(Run(s, es).value)[i] != GraphOf(s)[i] {
        if GraphOf(m)[i] == GraphOf(s)[i] {
          var k :| 0 <= k <= |es[1..]| && AwakeAt(m, es[1..], k, i);
          LaterAwake(s, es, k, i);
        } else {
          assert AwakeAt(m, es[1..], 0, i);
          LaterAwake(s, es, 0, i);
        }
      }
    }
  }

  lemma OneEvent(s: Kernel, e: Event, i: nat)
    requires Inv(s) && TrapInside(e) && i < IDLE && !GraphOf(s)[i].Awake?
    ensures Do(s, e).Ok? && Inv(Do(s, e).value)
    ensures GraphOf(Do(s, e).value)[i] == GraphOf(s)[i] || GraphOf(Do(s, e).value)[i].Awake?
  {
    if e.Trap? && Enabled(s, e) {
      EventSteps(s, e);
    } else {
      OtherEvents(s, e);
    }
  }

  ghost predicate AwakeAt(s: Kernel, es: seq<Event>, k: nat, i: nat)
    requires Fits(s) && k <= |es| && i < IDLE
  {
    Run(s, es[..k]).Ok? && GraphOf(Run(s, es[..k]).value)[i].Awake?
  }

  lemma LaterAwake(s: Kernel, es: seq<Event>, k: nat, i: nat)
    requires Fits(s) && i < IDLE && es != [] && Do(s, es[0]).Ok? && k < |es|
    requires AwakeAt(Do(s, es[0]).value, es[1..], k, i)
    ensures AwakeAt(s, es, k + 1, i)
  {
    RunPrefix(s, es, k + 1);
  }

  /** What the running task can do for a sleeper that waits for it. */
  function Help(s: Kernel, i: nat): Event
    requires Fits(s) && i < IDLE
  {
    var tf :=
      match GraphOf(s)[i]
      case Asks(_) =>
        Svc(SYS_IPC_REPLY, if s.eps[EP_UART].caller == i then EP_UART else EP_BENCH, SANDBOX_BASE, 0, 0, 0)
      case Listens =>
        Svc(SYS_IPC_CALL, if s.eps[EP_UART].receiver == i then EP_UART else EP_BENCH, SANDBOX_BASE, 0, SANDBOX_BASE, 0)
      case Gone => Svc(SYS_TASK_RESTART, TASK_B, 0, 0, 0, 0)
      case _ => Svc(SYS_EXIT, 0, 0, 0, 0, 0);
    Trap(s.mem, tf, 0)
  }

  lemma HelpWakes(s: Kernel, i: nat)
    requires UserRunning(s) && i < IDLE && i != s.current && Wakeable(GraphOf(s), i, s.current)
    ensures WakesUp(s, Help(s, i).tf, i)
  {
    StatusTells(s, i);
    GraphAt(s, i);
    AwakeIsUnnamed(s);
    assert EndpointOk(s.eps[EP_UART]) && EndpointOk(s.eps[EP_BENCH]);
    assert RangeOk(SANDBOX_BASE, 0);
    hide Inv, RangeOk;
  }

  lemma Helped(s: Kernel, i: nat)
    requires UserRunning(s) && i < IDLE && i != s.current && Wakeable(GraphOf(s), i, s.current)
    ensures var e := Help(s, i);
            TrapInside(e) && Do(s, e).Ok? && Inv(Do(s, e).value) && GraphOf(Do(s, e).value)[i].Awake?
  {
    var e := Help(s, i);
    HelpWakes(s, i);
    assert s.(mem := s.mem) == s;
    StepInv(s, e);
    hide Inv, GraphOf, TrapStep, WakesUp;
    OthersMove(s, e.tf, e.w, i);
    GraphAt(Do(s, e).value, i);
  }

  /** From a state where `j` has the CPU and is what `i` waits for, and from one where `i` is
      awake, a run that gives `i` the CPU. */
  lemma HelpThenTurn(s: Kernel, j: nat, i: nat) returns (es: seq<Event>)
    requires Inv(s) && i < IDLE && j < IDLE && s.current == j != i && Wakeable(GraphOf(s), i, j)
    ensures StaysInside(es) && Run(s, es).Ok? && Run(s, es).value.current == i
  {
    Helped(s, i);
    var e := Help(s, i);
    hide Inv, GraphOf, Do, Help, Run;
    var tail := TurnTo(Do(s, e).value, i);
    es := [e] + tail;
    RunCons(s, e, tail);
  }

  /** The tasks a sleeper's status lets hope for. */
  predicate Hopes(g: Graph, i: int, j: int) {
    0 <= i < IDLE && 0 <= j < IDLE &&
    match g[i]
    case Awake => false
    case Asks(o) => j == o
    case Listens => j != i
    case Watches => j != i
    case Gone => i == TASK_B && j == TASK_C
    case Wedged => false
  }

  lemma HopeFor(g: Graph, i: int, n: nat) returns (j: int)
    requires CanIn(g, i, n) && 0 <= i < IDLE && !g[i].Awake?
    ensures n > 0 && Hopes(g, i, j) && CanIn(g, j, n - 1)
  {
    var m: nat := n - 1;
    if g[i].Asks? {
      j := g[i].owner;
    } else if g[i].Gone? {
      j := TASK_C;
    } else {
      j := if i != TASK_A && CanIn(g, TASK_A, m) then TASK_A
           else if i != TASK_B && CanIn(g, TASK_B, m) then TASK_B else TASK_C;
    }
  }

  lemma {:induction false} RunThatWakes(s: Kernel, i: int, n: nat) returns (es: seq<Event>)
    requires Fits(s) && Inv(s) && CanIn(GraphOf(s), i, n)
    ensures 0 <= i < IDLE
    ensures StaysInside(es) && Run(s, es).Ok? && Run(s, es).value.current == i
    decreases n
  {
    hide GraphOf;
    if GraphOf(s)[i].Awake? {
      es := TurnTo(s, i);
      return;
    }
    var j := HopeFor(GraphOf(s), i, n);
    if j == i {
      es := RunThatWakes(s, i, n - 1);
      return;
    }
    var first := RunThatWakes(s, j, n - 1);
    es := ThenTurn(s, first, j, i);
  }

  lemma ThenTurn(s: Kernel, first: seq<Event>, j: nat, i: nat) returns (es: seq<Event>)
    requires Inv(s) && StaysInside(first) && i != j && Hopes(GraphOf(s), i, j)
    requires Run(s, first).Ok? && Run(s, first).value.current == j
    ensures StaysInside(es) && Run(s, es).Ok? && Run(s, es).value.current == i
  {
    assert Fits(s);
    AwakeOrKept(s, first, i);
    hide Inv, GraphOf, Run;
    if GraphOf(Run(s, first).value)[i] == GraphOf(s)[i] {
      var tail := HelpThenTurn(Run(s, first).value, j, i);
      es := first + tail;
      RunAppend(s, first, tail);
    } else {
      var k :| 0 <= k <= |first| && AwakeAt(s, first, k, i);
      RunInv(s, first[..k]);
      var tail := TurnTo(Run(s, first[..k]).value, i);
      es := first[..k] + tail;
      RunAppend(s, first[..k], tail);
    }
  }

  ghost predicate GetsTo(s: Kernel, es: seq<Event>, i: int)
    requires Fits(s)
  {
    StaysInside(es) && Run(s, es).Ok? && Run(s, es).value.current == i
  }

  /** A task can get the CPU again in some run if and only if the wait graph lets it; otherwise
      it never does, in any run. */
  lemma RunsAgainExactly(s: Kernel, i: nat)
    requires Inv(s) && i < IDLE
    ensures CanRun(GraphOf(s), i) <==> exists es :: GetsTo(s, es, i)
  {
    assert Fits(s);
    hide Inv, GraphOf, Run;
    if CanRun(GraphOf(s), i) {
      var n: nat :| CanIn(GraphOf(s), i, n);
      var es := RunThatWakes(s, i, n);
      assert GetsTo(s, es, i);
    }
    if exists es :: GetsTo(s, es, i) {
      var es :| GetsTo(s, es, i);
      if !CanRun(GraphOf(s), i) {
        HungForever(s, es, i);
      }
    }
  }

  // ---------------------------------------------------------------- which traps start a hang

  lemma OwnFits(s: Kernel, tf: TrapFrame)
    requires UserRunning(s)
    ensures FitsNow(GraphOf(s), s.current, OwnStatus(s, tf))
  {
    StatusTells(s, TASK_A);
    StatusTells(s, TASK_B);
    StatusTells(s, TASK_C);
    assert s.eps[EP_UART].owner == Owner(s.build, EP_UART) && s.eps[EP_BENCH].owner == Owner(s.build, EP_BENCH);
    assert s.eps[0].owner == NONE && s.eps[0].caller == NONE;
    if Parks(s, tf) {
      ParkingKinds(s, tf);
      if IsWait(tf) {
        AwakeIsUnnamed(s);
      }
    }
    AskersOwner(s, TASK_A);
    AskersOwner(s, TASK_B);
    AskersOwner(s, TASK_C);
    hide Inv;
  }

  /** A task that asks is the caller at its owner's endpoint. */
  lemma AskersOwner(s: Kernel, i: nat)
    requires Inv(s) && i < IDLE
    ensures forall k :: 0 < k < EP_COUNT && s.eps[k].caller == NONE && s.eps[k].owner != NONE ==>
              StatusOf(s, i) != Asks(s.eps[k].owner)
  {
    assert s.eps[EP_UART].owner == Owner(s.build, EP_UART) && s.eps[EP_BENCH].owner == Owner(s.build, EP_BENCH);
  }

  lemma ParkingIsParkedTo(s: Kernel, tf: TrapFrame, w: nat)
    requires UserRunning(s) && InSandbox(tf.elr) && Parks(s, tf) && !Yields(tf)
    ensures TrapStep(s, tf, w).Ok?
    ensures ParkedTo(GraphOf(s), GraphOf(TrapStep(s, tf, w).value), s.current, OwnStatus(s, tf))
  {
    TrapSteps(s, tf, w);
    var r := TrapStep(s, tf, w).value;
    hide Inv, TrapStep, WakesUp, OwnStatus, GraphOf, StatusOf, Parks, WokenBy;
    forall i: nat | i < IDLE && i != s.current
      ensures GraphOf(r)[i] ==
                if WokenBy(GraphOf(s), s.current, OwnStatus(s, tf), i) then Awake else GraphOf(s)[i]
    {
      OthersMove(s, tf, w, i);
      WakesMatch(s, tf, i);
      GraphAt(s, i);
      GraphAt(r, i);
    }
  }

  /** Exactly which traps make a task hang that could still run: told from the registers (which
      status the trap gives its task) and the wait graph before it. */
  lemma TrapStartsHangExactly(s: Kernel, tf: TrapFrame, w: nat)
    requires UserRunning(s) && InSandbox(tf.elr)
    ensures TrapStep(s, tf, w).Ok?
    ensures HangStarted(GraphOf(s), GraphOf(TrapStep(s, tf, w).value)) <==>
              StartsHang(GraphOf(s), s.current, OwnStatus(s, tf))
  {
    TrapSteps(s, tf, w);
    if OwnStatus(s, tf).Awake? {
      NoneStarts(GraphOf(s), GraphOf(TrapStep(s, tf, w).value), s.current);
    } else {
      GraphConsistent(s);
      OwnFits(s, tf);
      ParkingIsParkedTo(s, tf, w);
      hide Inv, TrapStep, OwnStatus, GraphOf, Parks, StartsHang, HangStarted, ParkedTo, FitsNow, Consistent;
      StartsHangExactly(GraphOf(s), GraphOf(TrapStep(s, tf, w).value), s.current, OwnStatus(s, tf));
    }
  }

  // ---------------------------------------------------------------- a server that calls itself

  /** From boot: task_a yields, task_b calls its own endpoint. The endpoint's shape stays orderly
      and no receiver sleeps there, yet task_b never runs again. */
  lemma SelfCallHangs(b: Build, mem: Mem, later: seq<Event>)
    requires b.LayoutOk() && StaysInside(later)
    ensures var es := [YieldNow(mem), CallUart(mem)];
            && StaysInside(es) && Run(Boot(b, mem), es).Ok?
            && var s := Run(Boot(b, mem), es).value;
               && s.eps[EP_UART].caller == TASK_B && !Wedged(s, EP_UART) && Orderly(ShapeOf(s.eps[EP_UART]))
               && Hangs(GraphOf(s), TASK_B)
               && Run(s, later).Ok? && Run(s, later).value.current != TASK_B
  {
    var s0 := Boot(b, mem);
    BootIsFresh(b, mem);
    CallAndYieldDiffer(mem);
    FirstTrap(s0, YieldNow(mem), mem);
    var s1 := Do(s0, YieldNow(mem)).value;
    SelfCall(s1, mem);
    var s2 := Do(s1, CallUart(mem)).value;
    hide Inv, Do, GraphOf, Run, YieldNow, CallUart;
    RunCons(s0, YieldNow(mem), [CallUart(mem)]);
    RunOne(s1, CallUart(mem));
    assert [YieldNow(mem)] + [CallUart(mem)] == [YieldNow(mem), CallUart(mem)];
    AskingOneself(GraphOf(s2), TASK_B);
    HungForever(s2, later, TASK_B);
  }

  lemma {:induction false} AskingOneself(g: Graph, i: nat)
    requires i < IDLE && g[i] == Asks(i)
    ensures Hangs(g, i)
  {
    CanRunWrittenOut(g, i);
  }

  lemma SelfCall(s: Kernel, mem: Mem)
    requires Inv(s) && s.current == TASK_B && ShapeOf(s.eps[EP_UART]) == Shape(false, false, false)
    ensures Do(s, CallUart(mem)).Ok? && Inv(Do(s, CallUart(mem)).value)
    ensures var r := Do(s, CallUart(mem)).value;
            && GraphOf(r)[TASK_B] == Asks(TASK_B) && r.eps[EP_UART].caller == TASK_B
            && ShapeOf(r.eps[EP_UART]) == Shape(true, true, false)
  {
    var s0, tf := s.(mem := mem), CallUart(mem).tf;
    SwapGraph(s, mem);
    StepInv(s, CallUart(mem));
    assert s.eps[EP_UART].owner == Owner(s.build, EP_UART);
    assert Parks(s0, tf) && IsRequest(tf) && EndpointOf(tf) == EP_UART;
    TrapSteps(s0, tf, 0);
    TrapMoves(s0, tf, 0, EP_UART);
  }
}
