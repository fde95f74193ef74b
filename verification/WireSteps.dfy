/** Every step of the shipped OFF and RECOVERY systems keeps the wire invariant. */
module WireSteps {
  import opened Base
  import opened Memory
  import opened State
  import opened Ipc
  import opened Machine
  import opened Invariant
  import opened Runs
  import opened Context
  import opened Frames
  import opened Overlap
  import opened RpcKernel
  import opened Shapes
  import opened Buffers
  import opened Shipped
  import opened ShippedSteps
  import opened LatencySteps
  import opened Wire

  // ---------------------------------------------------------------- task_a

  /** Neither sleeping nor waking: the server as a step of another task leaves it. */
  lemma ServerKept(l: Layout, s: Kernel, tf: TrapFrame, r: Kernel)
    requires SystemOk(l, s) && SystemOk(l, r) && TaskViewOf(s, tf, r, TASK_B)
    requires r.eps[EP_UART] == s.eps[EP_UART] && !RestartAsked(tf)
    ensures Dead(r, TASK_B) == Dead(s, TASK_B)
    ensures !Dead(s, TASK_B) ==> Pc(r, TASK_B) == Pc(s, TASK_B)
  {
    WhoSleeps(s);
    WhoSleeps(r);
  }

  predicate TaskViewOf(s: Kernel, tf: TrapFrame, r: Kernel, j: nat)
    requires j < IDLE
  {
    |s.threads| == THREAD_COUNT && |r.threads| == THREAD_COUNT && j != s.current && OtherView(s, tf, r, j)
  }

  /** The client as a step of another task leaves it. */
  lemma ClientKept(l: Layout, s: Kernel, tf: TrapFrame, r: Kernel)
    requires SystemOk(l, s) && SystemOk(l, r) && TaskViewOf(s, tf, r, TASK_A)
    requires r.eps[EP_UART].caller == s.eps[EP_UART].caller
    ensures Pc(r, TASK_A) == Pc(s, TASK_A)
  {
    WhoSleeps(s);
    WhoSleeps(r);
  }

  /** On the wire alone: a step of the client that leaves endpoint, server and buffer alone. */
  lemma ClientMoves(l: Layout, w: Wire, v: Wire)
    requires WireOk(l, w) && w.ep.caller == NONE && !w.ep.hasPending && !HoldsBytes(l, w) && !w.bRuns
    requires v.ep == w.ep && v.bDead == w.bDead && (!w.bDead ==> v.b == w.b)
    requires v.a.x[8] == SYS_WRITE ==> v.a.x[0] == v.a.x[1] <= IPC_MSG_SIZE
    ensures WireOk(l, v) && OnTheWire(l, v) == []
  {
  }

  /** On the wire alone: a step of anyone else that leaves client, endpoint and buffer alone,
      the server too unless it was dead and starts over. */
  lemma OthersMove(l: Layout, w: Wire, v: Wire)
    requires WireOk(l, w) && !w.bRuns && l.bRecv != l.bReply
    requires v.ep == w.ep && v.a == w.a && v.buf == w.buf
    requires if w.bDead then v.bDead || (v.b.elr != l.bRecv && v.b.elr != l.bReply) else !v.bDead && v.b == w.b
    ensures WireOk(l, v) && OnTheWire(l, v) == OnTheWire(l, w)
  {
  }

  lemma AQuietStep(l: Layout, s: Kernel, tf: TrapFrame, w: nat)
    requires Wired(l, s) && s.current == TASK_A && TrapOfA(l, s, Trap(s.mem, tf, w)) && tf.x[8] != SYS_WRITE
    ensures TrapStep(s, tf, w).Ok? && OnTheWire(l, WireOf(l, s)) == []
    ensures var r := TrapStep(s, tf, w).value;
            Wired(l, r) && OnTheWire(l, WireOf(l, r)) == [] && r.uart == s.uart
  {
    StepA(l, s, tf, w);
    TrapTaskView(s, tf, w);
    QuietTrap(l, s, tf, w);
    QuietUart(s, tf, w);
    var r := TrapStep(s, tf, w).value;
    assert OtherView(s, tf, r, TASK_B);
    ServerKept(l, s, tf, r);
    ClientRuns(l, s);
    ClientMoves(l, WireOf(l, s), WireOf(l, r));
  }

  lemma QuietUart(s: Kernel, tf: TrapFrame, w: nat)
    requires UserRunning(s) && InSandbox(tf.elr) && IsSvc(tf) && (tf.x[8] == SYS_YIELD || tf.x[8] == SYS_TIME_TICKS)
    ensures TrapStep(s, tf, w).Ok? && TrapStep(s, tf, w).value.uart == s.uart
  {
    HandleTrapInv(s, tf);
    if tf.x[8] == SYS_YIELD {
      ReturnEps(HandleTrap(s, tf).value.0, w, 0);
    } else {
      AnsweredRuns(s, tf, w);
    }
  }

  /** A direct write, by anyone and anywhere: the line grows, memory and registers stay. */
  lemma DirectWriteReturns(s: Kernel, tf: TrapFrame, w: nat)
    requires UserRunning(s) && IsSvc(tf) && tf.x[8] == SYS_WRITE && RangeOk(tf.x[0], tf.x[1])
    requires !s.build.micro || s.current != TASK_A
    ensures TrapStep(s, tf, w).Ok?
    ensures var r := TrapStep(s, tf, w).value;
            && Extends(s.uart, r.uart, s.mem, tf.x[0], tf.x[1])
            && r.uart == s.uart + Chars(Load(s.mem, tf.x[0], tf.x[1])) && r.mem == s.mem
            && r.el0 == FrameCtx(tf, tf.x[1]) && r.current == s.current && r.eps == s.eps
  {
    AnsweredRuns(s, tf, w);
  }

  /** The MONO kernel: task_a's bytes go out at once. */
  lemma ADirectStep(l: Layout, s: Kernel, tf: TrapFrame, w: nat)
    requires Wired(l, s) && s.current == TASK_A && TrapOfA(l, s, Trap(s.mem, tf, w)) && tf.x[8] == SYS_WRITE
    requires !s.build.micro && RangeOk(tf.x[0], tf.x[1]) && tf.x[1] <= IPC_MSG_SIZE
    ensures TrapStep(s, tf, w).Ok? && OnTheWire(l, WireOf(l, s)) == []
    ensures var r := TrapStep(s, tf, w).value;
            Wired(l, r) && OnTheWire(l, WireOf(l, r)) == [] && r.uart == s.uart + Chars(Load(s.mem, tf.x[0], tf.x[1]))
  {
    StepA(l, s, tf, w);
    TrapTaskView(s, tf, w);
    DirectWriteReturns(s, tf, w);
    var r := TrapStep(s, tf, w).value;
    assert OtherView(s, tf, r, TASK_B);
    ServerKept(l, s, tf, r);
    ClientRuns(l, s);
    ClientMoves(l, WireOf(l, s), WireOf(l, r));
  }

  /** The MICRO kernel: the bytes are queued, or lie in the sleeping server's buffer. */
  lemma ARoutedStep(l: Layout, s: Kernel, tf: TrapFrame, w: nat)
    requires Wired(l, s) && s.current == TASK_A && TrapOfA(l, s, Trap(s.mem, tf, w)) && tf.x[8] == SYS_WRITE
    requires s.build.micro && GoodWrite(l.recvBuf, s.mem, tf)
    ensures TrapStep(s, tf, w).Ok? && OnTheWire(l, WireOf(l, s)) == []
    ensures var r := TrapStep(s, tf, w).value;
            Wired(l, r) && OnTheWire(l, WireOf(l, r)) == Chars(Load(s.mem, tf.x[0], tf.x[1])) && r.uart == s.uart
  {
    ClientRuns(l, s);
    assert Parks(s, tf);
    StepA(l, s, tf, w);
    TrapTaskView(s, tf, w);
    var r := TrapStep(s, tf, w).value;
    assert s.(mem := s.mem) == s;
    TrapOwnCtx(s, Trap(s.mem, tf, w));
    SubmitReturns(s, tf, w, EP_UART, tf.x[0], tf.x[1], 0, 0, tf.x[1], EP_UART);
    assert OtherView(s, tf, r, TASK_B);
    WhoSleeps(s);
    WhoSleeps(r);
    RoutedBytes(l, s, tf, r);
    RoutedWire(l, WireOf(l, s), WireOf(l, r), tf, Load(s.mem, tf.x[0], tf.x[1]));
  }

  /** The bytes that reached the sleeping server's buffer. */
  lemma RoutedBytes(l: Layout, s: Kernel, tf: TrapFrame, r: Kernel)
    requires Fits(s) && RangeOk(l.recvBuf, 256) && GoodWrite(l.recvBuf, s.mem, tf)
    requires var ep := s.eps[EP_UART]; ep.receiver != NONE ==> ep.bufPtr == l.recvBuf && ep.bufCap == 256
    requires r.mem == MemAfterSubmit(s, EP_UART, tf.x[0], tf.x[1])
    ensures s.eps[EP_UART].receiver != NONE ==>
              Load(r.mem, l.recvBuf, 256)[..tf.x[1]] == Load(s.mem, tf.x[0], tf.x[1])
  {
    var bytes := Load(s.mem, tf.x[0], tf.x[1]);
    if s.eps[EP_UART].receiver != NONE {
      DirectCopy(s.mem, r.mem, l.recvBuf, tf.x[0], tf.x[1], bytes);
      assert bytes[..tf.x[1]] == bytes;
      IntactExactly(bytes, Overtake(l.recvBuf, tf.x[0], tf.x[1]));
      LoadPrefix(r.mem, l.recvBuf, tf.x[1]);
    }
  }

  /** On the wire alone: the client's request is queued or handed over. */
  lemma RoutedWire(l: Layout, w: Wire, v: Wire, tf: TrapFrame, bytes: seq<byte>)
    requires WireOk(l, w) && w.ep.caller == NONE && !w.bRuns && l.bRecv != l.bReply
    requires |bytes| == tf.x[1] <= IPC_MSG_SIZE && |v.ep.pendingMsg| == IPC_MSG_SIZE && |v.buf| == 256
    requires v.a.x == tf.x && tf.x[8] == SYS_WRITE
    requires v.ep.caller == TASK_A && v.ep.replyCap == 0 && v.ep.override == tf.x[1] && v.bDead == w.bDead
    requires v.ep.hasPending == (w.ep.receiver == NONE) && v.ep.receiver == NONE
    requires if w.ep.receiver == NONE then
               v.ep.pendingLen == tf.x[1] && v.ep.pendingMsg[..tf.x[1]] == bytes && (!w.bDead ==> v.b == w.b)
             else
               !w.bDead && v.b.elr == l.bRecv && v.b.x[0] == tf.x[1] && v.buf[..tf.x[1]] == bytes
    requires w.ep.receiver == NONE ==> !HoldsBytes(l, w)
    ensures WireOk(l, v) && OnTheWire(l, v) == Chars(bytes)
  {
  }

  // ---------------------------------------------------------------- task_b

  /** On the wire alone: the server writes what it holds. */
  lemma ServedWire(l: Layout, w: Wire, v: Wire)
    requires WireOk(l, w) && l.bWrite != l.bRecv && l.bWrite != l.bReply
    requires v.ep == w.ep && v.a == w.a && v.b.elr == l.bWrite
    ensures WireOk(l, v) && (!w.ep.hasPending ==> OnTheWire(l, v) == [])
  {
  }

  /** The server writes what it has received: exactly the bytes in flight. */
  lemma BServeStep(l: Layout, s: Kernel, tf: TrapFrame, w: nat)
    requires Wired(l, s) && s.current == TASK_B && s.el0.elr == l.bRecv && s.el0.x[0] != MINUS_ONE
    requires Syscall(tf, SYS_WRITE, l.bWrite) && tf.x[0] == l.recvBuf && tf.x[1] == s.el0.x[0]
    ensures TrapStep(s, tf, w).Ok?
    ensures var r := TrapStep(s, tf, w).value;
            Wired(l, r) && OnTheWire(l, WireOf(l, r)) == [] && r.uart == s.uart + OnTheWire(l, WireOf(l, s))
  {
    BWrites(l, s, tf, w);
    TrapTaskView(s, tf, w);
    BHolds(l, s);
    DirectWriteReturns(s, tf, w);
    LoadPrefix(s.mem, l.recvBuf, tf.x[1]);
    var r := TrapStep(s, tf, w).value;
    assert OtherView(s, tf, r, TASK_A);
    ClientKept(l, s, tf, r);
    ServedWire(l, WireOf(l, s), WireOf(l, r));
  }

  /** A server that runs at the receive point holds task_a's request, and all of it. */
  lemma BHolds(l: Layout, s: Kernel)
    requires Wired(l, s) && s.current == TASK_B && s.el0.elr == l.bRecv && s.el0.x[0] != MINUS_ONE
    ensures HoldsBytes(l, WireOf(l, s)) && !s.eps[EP_UART].hasPending && s.el0.x[0] <= IPC_MSG_SIZE
    ensures RangeOk(l.recvBuf, s.el0.x[0])
    ensures OnTheWire(l, WireOf(l, s)) == Chars(Load(s.mem, l.recvBuf, 256)[..s.el0.x[0]])
  {
    WhoSleeps(s);
    AwakeIsUnnamed(s);
  }

  /** The announcement of the OFF build. */
  lemma BAnnounceStep(l: Layout, s: Kernel, tf: TrapFrame, w: nat)
    requires Wired(l, s) && s.current == TASK_B && s.el0.elr == s.build.entryB && Syscall(tf, SYS_WRITE, l.bReady)
    ensures TrapStep(s, tf, w).Ok?
    ensures var r := TrapStep(s, tf, w).value;
            Wired(l, r) && OnTheWire(l, WireOf(l, r)) == OnTheWire(l, WireOf(l, s))
  {
    BWrites(l, s, tf, w);
    TrapTaskView(s, tf, w);
    QuietTrap(l, s, tf, w);
    RefusedMemory(s, tf, w);
    var r := TrapStep(s, tf, w).value;
    assert OtherView(s, tf, r, TASK_A);
    ClientKept(l, s, tf, r);
    AnnouncedWire(l, WireOf(l, s), WireOf(l, r));
  }

  /** On the wire alone: the server moves between two points at which it holds nothing. */
  lemma AnnouncedWire(l: Layout, w: Wire, v: Wire)
    requires WireOk(l, w) && w.b.elr != l.bRecv && v.b.elr != l.bRecv && v.b.elr != l.bReply
    requires v.ep == w.ep && v.a == w.a
    ensures WireOk(l, v) && OnTheWire(l, v) == OnTheWire(l, w)
  {
  }

  /** The acknowledgement: the client gets its length back, a zero length included. */
  lemma BReplyStep(l: Layout, s: Kernel, tf: TrapFrame, w: nat)
    requires Wired(l, s) && s.current == TASK_B && s.el0.elr == l.bWrite
    requires Syscall(tf, SYS_IPC_REPLY, l.bReply) && tf.x[0] == EP_UART && tf.x[1] == l.recvBuf && tf.x[2] == 0
    ensures TrapStep(s, tf, w).Ok? && OnTheWire(l, WireOf(l, s)) == []
    ensures var r := TrapStep(s, tf, w).value;
            Wired(l, r) && OnTheWire(l, WireOf(l, r)) == []
  {
    BReplies(l, s, tf, w);
    TrapTaskView(s, tf, w);
    WhoSleeps(s);
    assert s.eps[EP_UART].owner == TASK_B && Busy(l, s) && RangeOk(l.recvBuf, 0);
    ReplyReturns(s, tf, w, EP_UART, l.recvBuf, 0);
    var r := TrapStep(s, tf, w).value;
    WhoSleeps(r);
    assert OtherView(s, tf, r, TASK_A);
    RepliedWire(l, WireOf(l, s), WireOf(l, r));
  }

  lemma RepliedWire(l: Layout, w: Wire, v: Wire)
    requires WireOk(l, w) && l.bRecv != l.bReply && l.bRecv != l.bWrite
    requires w.b.elr == l.bWrite && w.ep.caller == TASK_A && !w.ep.hasPending
    requires v.ep == ClearCaller(w.ep) && v.b.elr == l.bReply && v.bRuns
    requires v.a == WithX0(w.a, if w.ep.override != 0 then w.ep.override else 0)
    ensures WireOk(l, v) && OnTheWire(l, v) == [] && OnTheWire(l, w) == []
  {
  }

  /** The receive: takes the queued request whole, or sleeps with nothing in flight. */
  lemma BReceiveStep(l: Layout, s: Kernel, tf: TrapFrame, w: nat)
    requires Wired(l, s) && s.current == TASK_B && RecvCall(l, tf) && !Busy(l, s)
    ensures TrapStep(s, tf, w).Ok?
    ensures var r := TrapStep(s, tf, w).value;
            && Wired(l, r) && r.uart == s.uart
            && OnTheWire(l, WireOf(l, r)) == OnTheWire(l, WireOf(l, s))
  {
    BReceives(l, s, tf, w);
    TrapTaskView(s, tf, w);
    ANotDead(s, tf, w);
    WhoSleeps(s);
    AwakeIsUnnamed(s);
    assert s.eps[EP_UART].owner == TASK_B;
    RecvReturns(s, tf, w, EP_UART, l.recvBuf, 0);
    var r := TrapStep(s, tf, w).value;
    assert OtherView(s, tf, r, TASK_A);
    ClientKept(l, s, tf, r);
    var ep := s.eps[EP_UART];
    if ep.hasPending {
      TakenBytes(s.mem, r.mem, l.recvBuf, ep.pendingMsg[..ep.pendingLen]);
    }
    ReceivedWire(l, WireOf(l, s), WireOf(l, r));
  }

  lemma TakenBytes(m: Mem, r: Mem, buf: u64, bytes: seq<byte>)
    requires RangeOk(buf, 256) && |bytes| <= 256
    requires r == if |bytes| > 0 then Store(m, buf, bytes) else m
    ensures Load(r, buf, 256)[..|bytes|] == bytes
  {
    LoadPrefix(r, buf, |bytes|);
    if |bytes| > 0 {
      assert Load(Store(m, buf, bytes), buf, |bytes|) == bytes;
    }
  }

  lemma ReceivedWire(l: Layout, w: Wire, v: Wire)
    requires WireOk(l, w) && !w.bDead && !v.bDead && !HoldsBytes(l, w) && l.bRecv != l.bReply
    requires v.a == w.a && v.b.elr == l.bRecv && |w.ep.pendingMsg| == 256 && |v.buf| == 256
    requires w.ep.hasPending ==> w.ep.pendingLen <= 256
    requires w.ep.receiver == NONE
    requires if w.ep.hasPending then
               v.ep == ClearPending(w.ep) && v.b.x[0] == w.ep.pendingLen
               && v.buf[..w.ep.pendingLen] == w.ep.pendingMsg[..w.ep.pendingLen]
             else exists ptr: u64, cap: u64 :: v.ep == SetReceiver(w.ep, TASK_B, ptr, cap)
    ensures WireOk(l, v) && OnTheWire(l, v) == OnTheWire(l, w)
  {
  }

  /** The injected crash finds no client waiting and no request queued: nothing is lost. */
  lemma BCrashStep(l: Layout, s: Kernel, tf: TrapFrame, w: nat, before: Mem)
    requires Wired(l, s.(mem := before)) && s.current == TASK_B && s.el0.elr == l.bReply
    requires !IsSvc(tf) && InSandbox(tf.elr) && Crashed(l, s.mem)
    requires Load(s.mem, l.recvBuf, 256) == Load(before, l.recvBuf, 256)
    ensures TrapStep(s, tf, w).Ok?
    ensures var r := TrapStep(s, tf, w).value;
            Wired(l, r) && OnTheWire(l, WireOf(l, r)) == OnTheWire(l, WireOf(l, s)) == []
  {
    var s0 := s.(mem := before);
    assert WireOf(l, s0) == WireOf(l, s);
    BCrashes(l, s, tf, w, before);
    SameKernelKeeps(s0, s);
    TrapTaskView(s, tf, w);
    PlainMemory(s, tf, w);
    DeathLeaves(s, tf, w, EP_UART);
    PlainEps(s, tf, w, EP_UART);
    WhoSleeps(s0);
    var r := TrapStep(s, tf, w).value;
    assert OtherView(s, tf, r, TASK_A);
    assert s.eps[EP_UART].owner == TASK_B;
    CrashedWire(l, WireOf(l, s), WireOf(l, r));
  }

  lemma CrashedWire(l: Layout, w: Wire, v: Wire)
    requires WireOk(l, w) && !w.bDead && w.b.elr == l.bReply && l.bReply != l.bRecv
    requires v.ep == w.ep && v.a == w.a && v.bDead
    ensures WireOk(l, v) && OnTheWire(l, v) == [] && OnTheWire(l, w) == []
  {
  }

  // ---------------------------------------------------------------- task_c

  lemma CStep(l: Layout, s: Kernel, e: Event)
    requires Wired(l, s) && s.current == TASK_C && e.Trap? && TrapOfC(l, s, e) && s.mem == e.mem
    ensures TrapStep(s, e.tf, e.w).Ok?
    ensures var r := TrapStep(s, e.tf, e.w).value;
            Wired(l, r) && OnTheWire(l, WireOf(l, r)) == OnTheWire(l, WireOf(l, s))
  {
    assert s.(mem := e.mem) == s;
    StepC(l, s, e);
    TrapTaskView(s, e.tf, e.w);
    CFrame(l, s, e.tf, e.w);
    var r := TrapStep(s, e.tf, e.w).value;
    assert OtherView(s, e.tf, r, TASK_A) && OtherView(s, e.tf, r, TASK_B);
    ClientKept(l, s, e.tf, r);
    WhoSleeps(s);
    WhoSleeps(r);
    assert ThreadOk(s.build, s.threads[TASK_B], TASK_B);
    OthersMove(l, WireOf(l, s), WireOf(l, r));
  }

  /** Whatever the supervisor does leaves the endpoint and the memory alone. */
  lemma CFrame(l: Layout, s: Kernel, tf: TrapFrame, w: nat)
    requires UserRunning(s) && s.current == TASK_C && InSandbox(tf.elr) && IsSvc(tf)
    requires tf.x[8] == SYS_WRITE || tf.x[8] == SYS_SUPERVISE_WAIT || tf.x[8] == SYS_TASK_RESTART
    ensures TrapStep(s, tf, w).Ok?
    ensures TrapStep(s, tf, w).value.eps[EP_UART] == s.eps[EP_UART] && TrapStep(s, tf, w).value.mem == s.mem
  {
    if tf.x[8] == SYS_WRITE {
      RefusedMemory(s, tf, w);
      RequestMoves(s, tf, w, EP_UART);
    } else {
      PlainMemory(s, tf, w);
      PlainMoves(s, tf, w, EP_UART);
    }
  }
}
