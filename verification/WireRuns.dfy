/** Over every run of the OFF and RECOVERY systems, across the crash and the restart, the
    routed SYS_write is the direct one. */
module WireRuns {
  import opened Base
  import opened Memory
  import opened State
  import opened Threads
  import opened Machine
  import opened Invariant
  import opened Runs
  import opened Shipped
  import opened ShippedSteps
  import opened ShippedRuns
  import opened LatencySteps
  import opened LatencyRuns
  import opened Wire
  import opened WireSteps

  /** One event: what was in flight and what it writes, is what it puts on the line for task_a
      and what is in flight then. */
  ghost predicate Carried(l: Layout, s: Kernel, e: Event)
    requires Fits(s) && RangeOk(l.recvBuf, 256)
  {
    && Do(s, e).Ok? && Wired(l, Do(s, e).value)
    && OnTheWire(l, WireOf(l, s)) + Emits(s, e) == OnBehalf(l, s, e) + OnTheWire(l, WireOf(l, Do(s, e).value))
  }

  lemma NewItemsAre(s: Kernel, r: Kernel, items: seq<UartItem>)
    requires r.uart == s.uart + items
    ensures NewItems(s, r) == items
  {
  }

  lemma WiredFits(l: Layout, s: Kernel)
    requires Wired(l, s)
    ensures Fits(s) && RangeOk(l.recvBuf, 256) && RangeOk(l.flag, 4)
  {
  }

  lemma WireSwap(l: Layout, s: Kernel, mem: Mem)
    requires Wired(l, s) && Crashed(l, mem) == Crashed(l, s.mem)
    requires Load(mem, l.recvBuf, 256) == Load(s.mem, l.recvBuf, 256)
    ensures Wired(l, s.(mem := mem)) && WireOf(l, s.(mem := mem)) == WireOf(l, s)
  {
    MemSwap(l, s, mem);
  }

  /** A trap step that accounts for its items carries. */
  lemma TrapCarried(l: Layout, s: Kernel, e: Event, behalf: seq<UartItem>)
    requires Fits(s) && RangeOk(l.recvBuf, 256) && e.Trap? && Enabled(s, e)
    requires var out := TrapStep(s.(mem := e.mem), e.tf, e.w);
             && out.Ok? && Wired(l, out.value)
             && OnTheWire(l, WireOf(l, s)) + Emits(s, e) == behalf + OnTheWire(l, WireOf(l, out.value))
             && if s.current == TASK_A || (s.current == TASK_B && s.el0.elr == l.bRecv)
                then out.value.uart == s.uart + behalf else behalf == []
    ensures Carried(l, s, e)
  {
    assert Fits(s.(mem := e.mem));
    hide Wired, WireOf, OnTheWire, Emits, TrapStep, Fits;
    if s.current == TASK_A || (s.current == TASK_B && s.el0.elr == l.bRecv) {
      NewItemsAre(s, TrapStep(s.(mem := e.mem), e.tf, e.w).value, behalf);
    }
  }

  lemma AWire(l: Layout, s: Kernel, e: Event)
    requires Wired(l, s) && s.current == TASK_A && e.Trap? && TrapOfA(l, s, e) && Careful(l, s, e)
    ensures Carried(l, s, e)
  {
    var s0 := s.(mem := e.mem);
    WiredFits(l, s);
    WireSwap(l, s, e.mem);
    hide Wired, Fits, WireOf, OnTheWire, TrapStep, Carried;
    if e.tf.x[8] != SYS_WRITE {
      AQuietStep(l, s0, e.tf, e.w);
      TrapCarried(l, s, e, []);
    } else if s.build.micro {
      ARoutedStep(l, s0, e.tf, e.w);
      TrapCarried(l, s, e, []);
    } else {
      ADirectStep(l, s0, e.tf, e.w);
      TrapCarried(l, s, e, Emits(s, e));
    }
  }

  /** The server never holds a request at the points where it receives. */
  lemma ServerPoints(l: Layout, s: Kernel)
    requires Wired(l, s) && s.current == TASK_B
    ensures l.BPoint(s.build, s.el0.elr) && l.Suits(s.build)
    ensures !(s.el0.elr == l.bRecv && s.el0.x[0] != MINUS_ONE) && s.el0.elr != l.bWrite ==> !Busy(l, s)
  {
  }

  lemma BWire(l: Layout, s: Kernel, e: Event)
    requires Wired(l, s) && s.current == TASK_B && e.Trap? && TrapOfB(l, s, e) && Careful(l, s, e)
    ensures Carried(l, s, e)
  {
    WiredFits(l, s);
    hide Wired, Fits, Carried, TrapOfB;
    if s.el0.elr == l.bReply && !Crashed(l, s.mem) {
      BCrashWire(l, s, e);
    } else {
      BServiceWire(l, s, e);
    }
  }

  lemma BCrashWire(l: Layout, s: Kernel, e: Event)
    requires Wired(l, s) && s.current == TASK_B && e.Trap? && TrapOfB(l, s, e) && Careful(l, s, e)
    requires s.el0.elr == l.bReply && !Crashed(l, s.mem)
    ensures Carried(l, s, e)
  {
    var s0 := s.(mem := e.mem);
    WiredFits(l, s);
    ServerPoints(l, s);
    assert s0.(mem := s.mem) == s && WireOf(l, s0) == WireOf(l, s);
    hide Wired, Fits, WireOf, OnTheWire, TrapStep, Carried;
    BCrashStep(l, s0, e.tf, e.w, s.mem);
    TrapCarried(l, s, e, []);
  }

  lemma BServiceWire(l: Layout, s: Kernel, e: Event)
    requires Wired(l, s) && s.current == TASK_B && e.Trap? && TrapOfB(l, s, e) && Careful(l, s, e)
    requires !(s.el0.elr == l.bReply && !Crashed(l, s.mem))
    ensures Carried(l, s, e)
  {
    var pc := s.el0.elr;
    WiredFits(l, s);
    ServerPoints(l, s);
    WireSwap(l, s, e.mem);
    assert Busy(l, s.(mem := e.mem)) == Busy(l, s);
    hide Wired, Fits, WireOf, OnTheWire, TrapStep, Carried, Busy;
    if pc == s.build.entryB && l.off {
      BAnnounceStep(l, s.(mem := e.mem), e.tf, e.w);
      TrapCarried(l, s, e, []);
    } else if pc == l.bRecv && s.el0.x[0] != MINUS_ONE {
      BServeWire(l, s, e);
    } else if pc == l.bWrite {
      BReplyStep(l, s.(mem := e.mem), e.tf, e.w);
      TrapCarried(l, s, e, []);
    } else {
      BReceiveWire(l, s, e);
    }
  }

  lemma BServeWire(l: Layout, s: Kernel, e: Event)
    requires Wired(l, s) && s.current == TASK_B && s.el0.elr == l.bRecv && s.el0.x[0] != MINUS_ONE
    requires e.Trap? && Wired(l, s.(mem := e.mem)) && WireOf(l, s.(mem := e.mem)) == WireOf(l, s)
    requires Syscall(e.tf, SYS_WRITE, l.bWrite) && e.tf.x[0] == l.recvBuf && e.tf.x[1] == s.el0.x[0]
    ensures Carried(l, s, e)
  {
    WiredFits(l, s);
    hide Wired, Fits, WireOf, OnTheWire, TrapStep, Carried;
    BServeStep(l, s.(mem := e.mem), e.tf, e.w);
    TrapCarried(l, s, e, OnTheWire(l, WireOf(l, s)));
  }

  lemma BReceiveWire(l: Layout, s: Kernel, e: Event)
    requires e.Trap? && Wired(l, s) && s.current == TASK_B && RecvCall(l, e.tf) && !Busy(l, s.(mem := e.mem))
    requires Wired(l, s.(mem := e.mem)) && WireOf(l, s.(mem := e.mem)) == WireOf(l, s)
    ensures Carried(l, s, e)
  {
    WiredFits(l, s);
    hide Wired, Fits, WireOf, OnTheWire, TrapStep, Carried;
    BReceiveStep(l, s.(mem := e.mem), e.tf, e.w);
    TrapCarried(l, s, e, []);
  }

  lemma CWire(l: Layout, s: Kernel, e: Event)
    requires Wired(l, s) && s.current == TASK_C && e.Trap? && TrapOfC(l, s, e) && Careful(l, s, e)
    ensures Carried(l, s, e)
  {
    WiredFits(l, s);
    WireSwap(l, s, e.mem);
    hide Wired, Fits, WireOf, OnTheWire, TrapStep, Carried;
    CStep(l, s.(mem := e.mem), e);
    TrapCarried(l, s, e, []);
  }

  lemma TickWire(l: Layout, s: Kernel)
    requires Wired(l, s)
    ensures Carried(l, s, TimerTick)
  {
    TickKeepsInv(s);
    TickFrame(s);
    assert WireOf(l, Tick(s)) == WireOf(l, s);
  }

  lemma WireStep(l: Layout, s: Kernel, e: Event)
    requires Wired(l, s) && ByShipped(l, s, e) && Careful(l, s, e)
    ensures Carried(l, s, e)
  {
    SomeoneRuns(l, s);
    match e
    case Trap(_, _, _) =>
      if s.current == TASK_A {
        AWire(l, s, e);
      } else if s.current == TASK_B {
        BWire(l, s, e);
      } else {
        CWire(l, s, e);
      }
    case TimerTick => TickWire(l, s);
    case IdlePass(_) =>
  }

  // ---------------------------------------------------------------- runs

  ghost predicate CarefulRun(l: Layout, s: Kernel, es: seq<Event>)
    requires Fits(s) && RangeOk(l.recvBuf, 256)
    decreases |es|
  {
    es != [] ==>
      && Careful(l, s, es[0])
      && (Do(s, es[0]).Ok? ==> CarefulRun(l, Do(s, es[0]).value, es[1..]))
  }

  /** What a run puts on the UART line for task_a. */
  function ServedLog(l: Layout, s: Kernel, es: seq<Event>): seq<UartItem>
    requires Fits(s)
    decreases |es|
  {
    if es == [] || Do(s, es[0]).Panicked? then []
    else OnBehalf(l, s, es[0]) + ServedLog(l, Do(s, es[0]).value, es[1..])
  }

  lemma FirstOfRun(l: Layout, s: Kernel, es: seq<Event>)
    requires Fits(s) && RangeOk(l.recvBuf, 256) && RangeOk(l.flag, 4)
    requires es != [] && ShippedRun(l, s, es) && CarefulRun(l, s, es)
    ensures ByShipped(l, s, es[0]) && Careful(l, s, es[0])
    ensures Do(s, es[0]).Ok? ==>
              var m := Do(s, es[0]).value;
              && ShippedRun(l, m, es[1..]) && CarefulRun(l, m, es[1..])
              && Run(s, es) == Run(m, es[1..])
              && ServedLog(l, s, es) == OnBehalf(l, s, es[0]) + ServedLog(l, m, es[1..])
              && DirectLog(s, es) == Emits(s, es[0]) + DirectLog(m, es[1..])
  {
  }

  lemma {:induction false} WireSafe(l: Layout, s: Kernel, es: seq<Event>)
    requires Fits(s) && RangeOk(l.recvBuf, 256) && RangeOk(l.flag, 4)
    requires Wired(l, s) && ShippedRun(l, s, es) && CarefulRun(l, s, es)
    ensures Run(s, es).Ok? && Wired(l, Run(s, es).value)
    ensures OnTheWire(l, WireOf(l, s)) + DirectLog(s, es) ==
              ServedLog(l, s, es) + OnTheWire(l, WireOf(l, Run(s, es).value))
    decreases |es|
  {
    if es == [] {
      assert OnTheWire(l, WireOf(l, s)) + [] == [] + OnTheWire(l, WireOf(l, s));
    } else {
      hide Wired, Fits, Do, Run, OnTheWire, WireOf, OnBehalf, Emits, ShippedRun, CarefulRun, ServedLog, DirectLog;
      FirstOfRun(l, s, es);
      WireStep(l, s, es[0]);
      var m := Do(s, es[0]).value;
      WiredFits(l, m);
      WireSafe(l, m, es[1..]);
      Chain(OnTheWire(l, WireOf(l, s)), Emits(s, es[0]), OnBehalf(l, s, es[0]), OnTheWire(l, WireOf(l, m)),
            DirectLog(m, es[1..]), ServedLog(l, m, es[1..]), OnTheWire(l, WireOf(l, Run(s, es).value)));
    }
  }

  lemma Chain<A>(before: seq<A>, emits: seq<A>, now: seq<A>, mid: seq<A>, direct: seq<A>, served: seq<A>, after: seq<A>)
    requires before + emits == now + mid && mid + direct == served + after
    ensures before + (emits + direct) == (now + served) + after
  {
    assert before + (emits + direct) == (before + emits) + direct == now + (mid + direct);
  }

  lemma WiredBoot(l: Layout, b: Build, mem: Mem)
    requires l.Suits(b) && !b.latency
    ensures Wired(l, Boot(b, mem)) && OnTheWire(l, WireOf(l, Boot(b, mem))) == []
  {
    BootOk(l, b, mem);
  }

  lemma ClientSeen(l: Layout, s: Kernel)
    requires Wired(l, s) && s.current == TASK_A
    ensures OnTheWire(l, WireOf(l, s)) == [] && (s.el0.x[8] == SYS_WRITE ==> s.el0.x[0] == s.el0.x[1] != MINUS_ONE)
  {
    ClientRuns(l, s);
  }

  /** The routed write refines the direct one, crash and restart included. In every reachable
      state what went out on task_a's behalf, with the bytes of the one write in flight, is the
      direct log; whenever task_a runs nothing is in flight, and its last write returned its
      length: never -1, whether the server had crashed, was dead or was restarted meanwhile. */
  lemma WritesSurviveTheCrash(l: Layout, b: Build, mem: Mem, es: seq<Event>)
    requires l.Suits(b) && !b.latency && ShippedRun(l, Boot(b, mem), es) && CarefulRun(l, Boot(b, mem), es)
    ensures Run(Boot(b, mem), es).Ok?
    ensures var s := Run(Boot(b, mem), es).value;
            && ServedLog(l, Boot(b, mem), es) + OnTheWire(l, WireOf(l, s)) == DirectLog(Boot(b, mem), es)
            && (s.current == TASK_A ==>
                  && ServedLog(l, Boot(b, mem), es) == DirectLog(Boot(b, mem), es)
                  && (s.el0.x[8] == SYS_WRITE ==> s.el0.x[0] == s.el0.x[1] != MINUS_ONE))
  {
    WiredBoot(l, b, mem);
    WireSafe(l, Boot(b, mem), es);
    var s := Run(Boot(b, mem), es).value;
    assert [] + DirectLog(Boot(b, mem), es) == DirectLog(Boot(b, mem), es);
    if s.current == TASK_A {
      ClientSeen(l, s);
    }
  }

  /** So the UART line of a MONO kernel that is given the same client writes is, in every
      reachable state, what MICRO has put out for its client plus the one write in flight. */
  lemma RecoveryRefinesMono(l: Layout, b: Build, mem: Mem, es: seq<Event>)
    requires l.Suits(b) && !b.latency && ShippedRun(l, Boot(b, mem), es) && CarefulRun(l, Boot(b, mem), es)
    ensures var mono := Run(Boot(b.(micro := false), mem), ClientWrites(Boot(b, mem), es));
            var micro := Run(Boot(b, mem), es);
            && mono.Ok? && micro.Ok?
            && mono.value.uart == ServedLog(l, Boot(b, mem), es) + OnTheWire(l, WireOf(l, micro.value))
            && (micro.value.current == TASK_A ==> mono.value.uart == ServedLog(l, Boot(b, mem), es))
  {
    var t := Boot(b.(micro := false), mem);
    BootInv(b.(micro := false), mem);
    WritesSurviveTheCrash(l, b, mem, es);
    MonoPlays(t, Boot(b, mem), es);
    assert t.uart == [];
    assert [] + DirectLog(Boot(b, mem), es) == DirectLog(Boot(b, mem), es);
  }
}
