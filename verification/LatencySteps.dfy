/** Every step of the LATENCY system keeps its invariant. */
module LatencySteps {
  import opened Base
  import opened Memory
  import opened State
  import opened Threads
  import opened Ipc
  import opened Machine
  import opened Invariant
  import opened Runs
  import opened Context
  import opened Frames
  import opened Overlap
  import opened RpcKernel
  import opened Mailbox
  import opened Shipped
  import opened ShippedSteps
  import opened Latency

  lemma LoadPrefix(m: Mem, ptr: u64, n: nat)
    requires RangeOk(ptr, 256) && n <= 256
    ensures Load(m, ptr, n) == Load(m, ptr, 256)[..n]
  {
  }

  /** The paths read no memory but the kept buffers. */
  lemma PathsKept(l: Bench, s: Kernel, mem: Mem)
    requires Fits(s) && l.Places(s.build) && BuffersKept(l, s.build, s.mem, mem)
    ensures var r := s.(mem := mem);
            && (WritePath(l, s) ==> WritePath(l, r))
            && (EchoPath(l, s) ==> EchoPath(l, r))
            && (ClientOk(l, s) ==> ClientOk(l, r))
  {
    LoadPrefix(mem, l.cBuf, 1);
    LoadPrefix(s.mem, l.cBuf, 1);
    hide Load;
  }

  lemma InFlightKept(l: Bench, s: Kernel, mem: Mem)
    requires Fits(s) && l.Places(s.build) && BuffersKept(l, s.build, s.mem, mem)
    ensures InFlight(l, s.(mem := mem)) == InFlight(l, s)
  {
    forall n | 0 <= n <= 256 ensures Load(mem, l.bBuf, n) == Load(s.mem, l.bBuf, n) {
      LoadPrefix(mem, l.bBuf, n);
      LoadPrefix(s.mem, l.bBuf, n);
    }
    hide Load;
  }

  lemma BenchMemSwap(l: Bench, s: Kernel, mem: Mem, log: seq<UartItem>)
    requires BenchOk(l, s, log) && BuffersKept(l, s.build, s.mem, mem)
    ensures BenchOk(l, s.(mem := mem), log)
  {
    SameKernelKeeps(s, s.(mem := mem));
    hide Inv, Common, WritePath, EchoPath, ClientOk, InFlight;
    PathsKept(l, s, mem);
    InFlightKept(l, s, mem);
  }

  lemma StoreElsewhere(m: Mem, dst: u64, bytes: seq<byte>, at: u64, n: nat)
    requires InSandbox(dst) && dst + |bytes| <= SANDBOX_END && InSandbox(at) && at + n <= SANDBOX_END
    requires Apart(dst, |bytes|, at, n)
    ensures Load(Store(m, dst, bytes), at, n) == Load(m, at, n)
  {
  }

  /** A copy or store into one buffer leaves a buffer apart from it alone. */
  lemma ElsewhereKept(m: Mem, dst: u64, src: u64, bytes: seq<byte>, at: u64, n: nat)
    requires InSandbox(dst) && dst + |bytes| <= SANDBOX_END && InSandbox(at) && at + n <= SANDBOX_END
    requires Apart(dst, |bytes|, at, n)
    ensures Load(Store(m, dst, bytes), at, n) == Load(m, at, n)
    ensures InSandbox(src) && src + |bytes| <= SANDBOX_END ==>
              Load(CopyWithin(m, dst, src, |bytes|), at, n) == Load(m, at, n)
  {
    StoreElsewhere(m, dst, bytes, at, n);
    if InSandbox(src) && src + |bytes| <= SANDBOX_END {
      var r := CopyWithin(m, dst, src, |bytes|);
      forall k | 0 <= k < n ensures Load(r, at, n)[k] == Load(m, at, n)[k] {
        ForwardCopyAt(m, dst - SANDBOX_BASE, src - SANDBOX_BASE, |bytes|, at - SANDBOX_BASE + k);
      }
      assert Load(r, at, n) == Load(m, at, n);
    }
  }

  // ---------------------------------------------------------------- the client

  /** What the step of a running client owes, whatever it asked for. */
  ghost predicate ClientAfter(s: Kernel, tf: TrapFrame, r: Kernel) {
    && Fits(s) && Fits(r) && s.current == TASK_A && Inv(r) && TaskView(s, tf, r) && r.build == s.build
    && r.waiter == NONE && !Dead(r, TASK_A) && !RestartAsked(tf)
  }

  lemma ClientView(l: Bench, s: Kernel, tf: TrapFrame, w: nat, log: seq<UartItem>)
    requires BenchOk(l, s, log) && s.current == TASK_A && InSandbox(tf.elr) && IsSvc(tf)
    requires tf.x[8] == SYS_YIELD || tf.x[8] == SYS_WRITE || tf.x[8] == SYS_IPC_CALL
    ensures TrapStep(s, tf, w).Ok? && ClientAfter(s, tf, TrapStep(s, tf, w).value)
  {
    TrapTaskView(s, tf, w);
    ANotDead(s, tf, w);
    TrapKeepsWaiter(s, tf, w);
  }

  /** Neither notices nor the supervisor's slot move unless a task waits for them or dies. */
  lemma TrapKeepsWaiter(s: Kernel, tf: TrapFrame, w: nat)
    requires UserRunning(s) && InSandbox(tf.elr) && IsSvc(tf)
    requires tf.x[8] != SYS_EXIT && tf.x[8] != SYS_SUPERVISE_WAIT
    ensures TrapStep(s, tf, w).Ok?
    ensures TrapStep(s, tf, w).value.waiter == s.waiter && TrapStep(s, tf, w).value.build == s.build
  {
    HandleTrapInv(s, tf);
    HandlerMail(s, tf);
    var (s1, how) := HandleTrap(s, tf).value;
    if how.ToKernel? {
      NotDyingCall(s, tf);
      ReturnEps(s1, w, 0);
    } else {
      AnsweredRuns(s, tf, w);
    }
  }

  lemma ClientYields(l: Bench, s: Kernel, tf: TrapFrame, w: nat, log: seq<UartItem>)
    requires BenchOk(l, s, log) && s.current == TASK_A && InSandbox(tf.elr) && IsSvc(tf) && tf.x[8] == SYS_YIELD
    ensures TrapStep(s, tf, w).Ok? && BenchOk(l, TrapStep(s, tf, w).value, log)
  {
    ClientView(l, s, tf, w, log);
    HandleTrapInv(s, tf);
    var s1 := HandleTrap(s, tf).value.0;
    ReturnEps(s1, w, EP_UART);
    ReturnEps(s1, w, EP_BENCH);
    var r := TrapStep(s, tf, w).value;
    ServersSame(l, s, tf, r, log);
  }

  /** A step of the client that touches neither endpoint nor memory. */
  lemma ServersSame(l: Bench, s: Kernel, tf: TrapFrame, r: Kernel, log: seq<UartItem>)
    requires BenchOk(l, s, log) && ClientAfter(s, tf, r)
    requires r.eps[EP_UART] == s.eps[EP_UART] && r.eps[EP_BENCH] == s.eps[EP_BENCH] && r.mem == s.mem
    requires tf.x[8] == SYS_YIELD || (tf.x[8] == SYS_WRITE && Pc(r, TASK_A).x[0] == tf.x[1])
    ensures BenchOk(l, r, r.uart) && InFlight(l, s) == [] && s.uart == log
  {
    WhoSleepsHere(s);
    WhoSleepsHere(r);
    assert OtherView(s, tf, r, TASK_B) && OtherView(s, tf, r, TASK_C);
  }

  /** A direct write (the MONO kernel): the bytes go out at once and their number comes back. */
  lemma ClientWritesDirect(l: Bench, s: Kernel, tf: TrapFrame, w: nat, log: seq<UartItem>)
    requires BenchOk(l, s, log) && s.current == TASK_A && InSandbox(tf.elr) && Writes(l, s.mem, tf) && !s.build.micro
    ensures TrapStep(s, tf, w).Ok?
    ensures BenchOk(l, TrapStep(s, tf, w).value, log + Chars(Load(s.mem, tf.x[0], tf.x[1])))
  {
    ClientView(l, s, tf, w, log);
    AnsweredRuns(s, tf, w);
    var r := TrapStep(s, tf, w).value;
    ServersSame(l, s, tf, r, log);
    assert InFlight(l, r) == [] by {
      WhoSleepsHere(r);
    }
  }

  lemma ClientParked(l: Bench, s: Kernel, tf: TrapFrame, w: nat, log: seq<UartItem>)
    requires BenchOk(l, s, log) && s.current == TASK_A && InSandbox(tf.elr) && IsSvc(tf)
    requires tf.x[8] == SYS_WRITE || tf.x[8] == SYS_IPC_CALL
    requires Parks(s, tf)
    ensures TrapStep(s, tf, w).Ok? && ClientAfter(s, tf, TrapStep(s, tf, w).value)
    ensures TrapStep(s, tf, w).value.current != TASK_A ==>
              Pc(TrapStep(s, tf, w).value, TASK_A) == UserCtx(tf.x, tf.sp, tf.elr, tf.spsr)
  {
    ClientView(l, s, tf, w, log);
    assert s.(mem := s.mem) == s;
    TrapOwnCtx(s, Trap(s.mem, tf, w));
  }

  /** The routed write (the MICRO kernel), queued or handed to the sleeping server. */
  lemma ClientWritesRouted(l: Bench, s: Kernel, tf: TrapFrame, w: nat, log: seq<UartItem>)
    requires BenchOk(l, s, log) && s.current == TASK_A && InSandbox(tf.elr) && Writes(l, s.mem, tf) && s.build.micro
    ensures TrapStep(s, tf, w).Ok?
    ensures BenchOk(l, TrapStep(s, tf, w).value, log + Chars(Load(s.mem, tf.x[0], tf.x[1])))
  {
    WhoSleepsHere(s);
    assert s.eps[EP_UART].owner == TASK_B;
    assert Accepting(s.eps[EP_UART]) && Parks(s, tf);
    ClientParked(l, s, tf, w, log);
    var len := tf.x[1];
    SubmitReturns(s, tf, w, EP_UART, tf.x[0], len, 0, 0, len, EP_UART);
    SubmitReturns(s, tf, w, EP_UART, tf.x[0], len, 0, 0, len, EP_BENCH);
    var r := TrapStep(s, tf, w).value;
    RoutedMemory(l, s, tf);
    RoutedServers(l, s, tf, r, log);
  }

  /** After a routed write the server's buffer holds the message if it was asleep. */
  lemma RoutedMemory(l: Bench, s: Kernel, tf: TrapFrame)
    requires Fits(s) && l.Places(s.build) && Writes(l, s.mem, tf)
    requires s.eps[EP_UART].receiver != NONE ==> s.eps[EP_UART].bufPtr == l.bBuf && s.eps[EP_UART].bufCap == 256
    ensures s.eps[EP_UART].receiver != NONE ==>
              Load(MemAfterSubmit(s, EP_UART, tf.x[0], tf.x[1]), l.bBuf, tf.x[1]) == Load(s.mem, tf.x[0], tf.x[1])
    ensures s.eps[EP_UART].receiver == NONE ==> MemAfterSubmit(s, EP_UART, tf.x[0], tf.x[1]) == s.mem
  {
    if s.eps[EP_UART].receiver != NONE {
      var bytes := Load(s.mem, tf.x[0], tf.x[1]);
      DirectCopy(s.mem, MemAfterSubmit(s, EP_UART, tf.x[0], tf.x[1]), l.bBuf, tf.x[0], tf.x[1], bytes);
      assert bytes[..tf.x[1]] == bytes;
      IntactExactly(bytes, Overtake(l.bBuf, tf.x[0], tf.x[1]));
    }
  }

  lemma RoutedServers(l: Bench, s: Kernel, tf: TrapFrame, r: Kernel, log: seq<UartItem>)
    requires BenchOk(l, s, log) && ClientAfter(s, tf, r) && Writes(l, s.mem, tf) && Accepting(s.eps[EP_UART])
    requires r.eps[EP_UART] == AfterSubmit(s, EP_UART, tf.x[0], tf.x[1], 0, 0, tf.x[1])
    requires r.eps[EP_BENCH] == s.eps[EP_BENCH] && r.uart == s.uart
    requires s.eps[EP_UART].receiver != NONE ==>
               X0Of(r, s.eps[EP_UART].receiver) == tf.x[1]
               && Load(r.mem, l.bBuf, tf.x[1]) == Load(s.mem, tf.x[0], tf.x[1])
    requires r.current != TASK_A ==> Pc(r, TASK_A) == UserCtx(tf.x, tf.sp, tf.elr, tf.spsr)
    ensures BenchOk(l, r, log + Chars(Load(s.mem, tf.x[0], tf.x[1])))
  {
    WhoSleepsHere(s);
    WhoSleepsHere(r);
    assert OtherView(s, tf, r, TASK_B) && OtherView(s, tf, r, TASK_C);
    assert r.current != TASK_A;
    var bytes := Load(s.mem, tf.x[0], tf.x[1]);
    assert InFlight(l, s) == [] && s.uart == log;
    assert InFlight(l, r) == Chars(bytes) by {
      if s.eps[EP_UART].receiver == NONE {
        assert r.eps[EP_UART].pendingMsg[..r.eps[EP_UART].pendingLen] == bytes;
      }
    }
  }

  /** The round trip's request, queued or handed to the sleeping echo server. */
  lemma ClientPings(l: Bench, s: Kernel, tf: TrapFrame, w: nat, log: seq<UartItem>)
    requires BenchOk(l, s, log) && s.current == TASK_A && InSandbox(tf.elr) && Pings(l, s.mem, tf)
    ensures TrapStep(s, tf, w).Ok? && BenchOk(l, TrapStep(s, tf, w).value, log)
  {
    WhoSleepsHere(s);
    assert s.eps[EP_BENCH].owner == TASK_C;
    assert Accepting(s.eps[EP_BENCH]) && Parks(s, tf);
    ClientParked(l, s, tf, w, log);
    PingReturns(l, s, tf, w);
    var r := TrapStep(s, tf, w).value;
    hide WritePath, EchoPath, ClientOk, InFlight, TrapStep, Inv;
    PingServers(l, s, tf, r, log);
  }

  lemma PingSubmits(l: Bench, s: Kernel, tf: TrapFrame)
    requires UserRunning(s) && RangeOk(l.reply, 1) && Pings(l, s.mem, tf) && Accepting(s.eps[EP_BENCH])
    ensures HandleTrap(s, tf) == Submit(s, tf, EP_BENCH, tf.x[1], 1, l.reply, 1, 0)
  {
    hide Submit;
  }

  lemma PingReturns(l: Bench, s: Kernel, tf: TrapFrame, w: nat)
    requires UserRunning(s) && InSandbox(tf.elr) && l.Places(s.build) && Pings(l, s.mem, tf)
    requires Accepting(s.eps[EP_BENCH])
    requires var ep := s.eps[EP_BENCH]; ep.receiver != NONE ==> ep.bufPtr == l.cBuf && ep.bufCap == 256
    ensures TrapStep(s, tf, w).Ok?
    ensures var r := TrapStep(s, tf, w).value;
            && r.eps[EP_BENCH] == AfterSubmit(s, EP_BENCH, tf.x[1], 1, l.reply, 1, 0)
            && r.eps[EP_UART] == s.eps[EP_UART] && r.uart == s.uart
            && (s.eps[EP_BENCH].receiver != NONE ==>
                  X0Of(r, s.eps[EP_BENCH].receiver) == 1 && Load(r.mem, l.cBuf, 1) == [PING])
  {
    PingSubmits(l, s, tf);
    hide Inv, HandleTrap, Submit, ReturnStep;
    SubmitReturns(s, tf, w, EP_BENCH, tf.x[1], 1, l.reply, 1, 0, EP_UART);
    SubmitReturns(s, tf, w, EP_BENCH, tf.x[1], 1, l.reply, 1, 0, EP_BENCH);
    var r := TrapStep(s, tf, w).value;
    if s.eps[EP_BENCH].receiver != NONE {
      DirectCopy(s.mem, r.mem, l.cBuf, tf.x[1], 1, [PING]);
    }
  }

  lemma PingServers(l: Bench, s: Kernel, tf: TrapFrame, r: Kernel, log: seq<UartItem>)
    requires BenchOk(l, s, log) && ClientAfter(s, tf, r) && Pings(l, s.mem, tf) && Accepting(s.eps[EP_BENCH])
    requires r.eps[EP_BENCH] == AfterSubmit(s, EP_BENCH, tf.x[1], 1, l.reply, 1, 0)
    requires r.eps[EP_UART] == s.eps[EP_UART] && r.uart == s.uart
    requires s.eps[EP_BENCH].receiver != NONE ==>
               X0Of(r, s.eps[EP_BENCH].receiver) == 1 && Load(r.mem, l.cBuf, 1) == [PING]
    requires r.current != TASK_A ==> Pc(r, TASK_A) == UserCtx(tf.x, tf.sp, tf.elr, tf.spsr)
    ensures BenchOk(l, r, log)
  {
    WhoSleepsHere(s);
    WhoSleepsHere(r);
    assert OtherView(s, tf, r, TASK_B) && OtherView(s, tf, r, TASK_C);
    assert r.current != TASK_A;
  }

  // ---------------------------------------------------------------- the servers

  /** What every step of a server owes. */
  ghost predicate ServerAfter(s: Kernel, tf: TrapFrame, r: Kernel) {
    && Fits(s) && Fits(r) && 0 <= s.current < IDLE && Inv(r) && TaskView(s, tf, r)
    && r.build == s.build && r.waiter == NONE && !Dead(r, s.current) && !RestartAsked(tf)
  }

  lemma ServerView(l: Bench, s: Kernel, tf: TrapFrame, w: nat, log: seq<UartItem>)
    requires BenchOk(l, s, log) && s.current != IDLE && InSandbox(tf.elr) && IsSvc(tf)
    requires tf.x[8] == SYS_WRITE || tf.x[8] == SYS_IPC_RECV || tf.x[8] == SYS_IPC_REPLY
    ensures TrapStep(s, tf, w).Ok? && ServerAfter(s, tf, TrapStep(s, tf, w).value)
  {
    TrapTaskView(s, tf, w);
    ANotDead(s, tf, w);
    TrapKeepsWaiter(s, tf, w);
  }

  /** A receive on the server's own endpoint `k`, up to the next entry into EL0. */
  lemma RecvReturns(s: Kernel, tf: TrapFrame, w: nat, k: nat, buf: u64, i: nat)
    requires UserRunning(s) && 0 < k < EP_COUNT && i < EP_COUNT && s.eps[k].owner == s.current
    requires Syscall(tf, SYS_IPC_RECV, tf.elr) && tf.x[0] == k && tf.x[1] == buf && tf.x[2] == 256 && RangeOk(buf, 256)
    ensures TrapStep(s, tf, w).Ok?
    ensures var r := TrapStep(s, tf, w).value;
            var ep := s.eps[k];
            && r.uart == s.uart
            && (i != k ==> r.eps[i] == s.eps[i])
            && (if ep.hasPending then
                  && r.eps[k] == ClearPending(ep)
                  && r.current == s.current && r.el0.x[0] == ep.pendingLen
                  && r.mem == (if ep.pendingLen > 0 then Store(s.mem, buf, ep.pendingMsg[..ep.pendingLen]) else s.mem)
                else
                  r.eps[k] == SetReceiver(ep, s.current, buf, 256) && r.mem == s.mem)
  {
    AwakeIsUnnamed(s);
    RecvParks(s, tf);
    HandleTrapInv(s, tf);
    if s.eps[k].hasPending {
      AnsweredRuns(s, tf, w);
    } else {
      ReturnEps(HandleTrap(s, tf).value.0, w, k);
      ReturnEps(HandleTrap(s, tf).value.0, w, i);
    }
  }

  lemma UartWrites(l: Bench, s: Kernel, tf: TrapFrame, w: nat, log: seq<UartItem>)
    requires BenchOk(l, s, log) && s.current == TASK_B && s.el0.elr == l.bRecv && s.el0.x[0] != MINUS_ONE
    requires Syscall(tf, SYS_WRITE, l.bWrite) && tf.x[0] == l.bBuf && tf.x[1] == s.el0.x[0]
    ensures TrapStep(s, tf, w).Ok? && BenchOk(l, TrapStep(s, tf, w).value, log)
  {
    ServerView(l, s, tf, w, log);
    assert ToWrite(l, s) && RangeOk(l.bBuf, tf.x[1]);
    AnsweredRuns(s, tf, w);
    var r := TrapStep(s, tf, w).value;
    WhoSleepsHere(s);
    WhoSleepsHere(r);
    assert OtherView(s, tf, r, TASK_A) && OtherView(s, tf, r, TASK_C);
    assert r.uart == s.uart + InFlight(l, s) && InFlight(l, r) == [];
  }

  lemma UartReceives(l: Bench, s: Kernel, tf: TrapFrame, w: nat, log: seq<UartItem>)
    requires BenchOk(l, s, log) && s.current == TASK_B && !ToWrite(l, s) && !ToAck(l, s)
    requires Syscall(tf, SYS_IPC_RECV, l.bRecv) && tf.x[0] == EP_UART && tf.x[1] == l.bBuf && tf.x[2] == 256
    ensures TrapStep(s, tf, w).Ok? && BenchOk(l, TrapStep(s, tf, w).value, log)
  {
    ServerView(l, s, tf, w, log);
    assert s.eps[EP_UART].owner == TASK_B;
    RecvReturns(s, tf, w, EP_UART, l.bBuf, EP_BENCH);
    var r := TrapStep(s, tf, w).value;
    var ep := s.eps[EP_UART];
    if ep.hasPending {
      StoredBytes(l, s.mem, r.mem, ep.pendingMsg[..ep.pendingLen]);
    }
    UartTook(l, s, tf, r, log);
  }

  /** The queued message is in task_b's buffer; the other buffers are as they were. */
  lemma StoredBytes(l: Bench, m: Mem, r: Mem, bytes: seq<byte>)
    requires RangeOk(l.bBuf, 256) && RangeOk(l.cBuf, 256) && RangeOk(l.reply, 1) && |bytes| <= 256
    requires Apart(l.bBuf, 256, l.cBuf, 256) && Apart(l.bBuf, 256, l.reply, 1)
    requires r == if |bytes| > 0 then Store(m, l.bBuf, bytes) else m
    ensures Load(r, l.bBuf, |bytes|) == bytes
    ensures Load(r, l.cBuf, 1) == Load(m, l.cBuf, 1) && Load(r, l.reply, 1) == Load(m, l.reply, 1)
  {
    if |bytes| > 0 {
      ElsewhereKept(m, l.bBuf, 0, bytes, l.cBuf, 1);
      ElsewhereKept(m, l.bBuf, 0, bytes, l.reply, 1);
    }
  }

  lemma UartTook(l: Bench, s: Kernel, tf: TrapFrame, r: Kernel, log: seq<UartItem>)
    requires BenchOk(l, s, log) && ServerAfter(s, tf, r) && s.current == TASK_B && tf.elr == l.bRecv
    requires !ToWrite(l, s) && !ToAck(l, s)
    requires r.uart == s.uart && r.eps[EP_BENCH] == s.eps[EP_BENCH]
    requires var ep := s.eps[EP_UART];
             if ep.hasPending then
               r.eps[EP_UART] == ClearPending(ep) && r.current == TASK_B && r.el0.x[0] == ep.pendingLen
               && Load(r.mem, l.bBuf, ep.pendingLen) == ep.pendingMsg[..ep.pendingLen]
             else r.eps[EP_UART] == SetReceiver(ep, TASK_B, l.bBuf, 256)
    requires Load(r.mem, l.cBuf, 1) == Load(s.mem, l.cBuf, 1) && Load(r.mem, l.reply, 1) == Load(s.mem, l.reply, 1)
    ensures BenchOk(l, r, log)
  {
    WhoSleepsHere(s);
    WhoSleepsHere(r);
    assert OtherView(s, tf, r, TASK_A) && OtherView(s, tf, r, TASK_C);
    assert InFlight(l, r) == InFlight(l, s);
  }

  lemma UartAcks(l: Bench, s: Kernel, tf: TrapFrame, w: nat, log: seq<UartItem>)
    requires BenchOk(l, s, log) && s.current == TASK_B && s.el0.elr == l.bWrite
    requires Syscall(tf, SYS_IPC_REPLY, l.bReply) && tf.x[0] == EP_UART && tf.x[1] == l.bBuf && tf.x[2] == 0
    ensures TrapStep(s, tf, w).Ok? && BenchOk(l, TrapStep(s, tf, w).value, log)
  {
    ServerView(l, s, tf, w, log);
    assert ToAck(l, s) && s.eps[EP_UART].owner == TASK_B && RangeOk(l.bBuf, 0);
    WhoSleepsHere(s);
    ReplyReturns(s, tf, w, EP_UART, l.bBuf, 0);
    var r := TrapStep(s, tf, w).value;
    WhoSleepsHere(r);
    assert OtherView(s, tf, r, TASK_A) && OtherView(s, tf, r, TASK_C);
  }

  /** An accepted reply on the server's own endpoint `k`. */
  lemma ReplyReturns(s: Kernel, tf: TrapFrame, w: nat, k: nat, buf: u64, len: nat)
    requires UserRunning(s) && 0 < k < EP_COUNT && s.eps[k].owner == s.current && s.eps[k].caller != NONE
    requires Syscall(tf, SYS_IPC_REPLY, tf.elr) && tf.x[0] == k && tf.x[1] == buf && tf.x[2] == len
    requires len <= IPC_MSG_SIZE && RangeOk(buf, len)
    ensures TrapStep(s, tf, w).Ok?
    ensures var r := TrapStep(s, tf, w).value;
            var ep := s.eps[k];
            var n := Min(len, ep.replyCap);
            && r.uart == s.uart && r.current == s.current
            && r.eps == s.eps[k := ClearCaller(ep)]
            && r.mem == (if n > 0 then CopyWithin(s.mem, ep.replyPtr, buf, n) else s.mem)
            && X0Of(r, ep.caller) == (if ep.override != 0 then ep.override else n)
  {
    ReplyInv(s, tf);
    AnsweredRuns(s, tf, w);
    assert Named(s, CallerOf(k)) in Blocked(s);
  }

  lemma EchoReceives(l: Bench, s: Kernel, tf: TrapFrame, w: nat, log: seq<UartItem>)
    requires BenchOk(l, s, log) && s.current == TASK_C && !ToEcho(l, s)
    requires Syscall(tf, SYS_IPC_RECV, l.cRecv) && tf.x[0] == EP_BENCH && tf.x[1] == l.cBuf && tf.x[2] == 256
    ensures TrapStep(s, tf, w).Ok? && BenchOk(l, TrapStep(s, tf, w).value, log)
  {
    ServerView(l, s, tf, w, log);
    assert s.eps[EP_BENCH].owner == TASK_C;
    RecvReturns(s, tf, w, EP_BENCH, l.cBuf, EP_UART);
    var r := TrapStep(s, tf, w).value;
    var ep := s.eps[EP_BENCH];
    if ep.hasPending {
      assert ep.pendingMsg[..1] == [PING];
      EchoBytes(l, s.mem, l.cBuf, [PING]);
    }
    EchoTook(l, s, tf, r, log);
  }

  /** Storing one byte into the echo server's buffer or the reply byte. */
  lemma EchoBytes(l: Bench, m: Mem, at: u64, bytes: seq<byte>)
    requires RangeOk(l.bBuf, 256) && RangeOk(l.cBuf, 256) && RangeOk(l.reply, 1) && |bytes| == 1
    requires Apart(l.bBuf, 256, l.cBuf, 256) && Apart(l.bBuf, 256, l.reply, 1)
    requires at == l.cBuf || at == l.reply
    ensures Load(Store(m, at, bytes), at, 1) == bytes
    ensures forall n :: 0 <= n <= 256 ==> Load(Store(m, at, bytes), l.bBuf, n) == Load(m, l.bBuf, n)
  {
    forall n | 0 <= n <= 256 ensures Load(Store(m, at, bytes), l.bBuf, n) == Load(m, l.bBuf, n) {
      ElsewhereKept(m, at, 0, bytes, l.bBuf, n);
    }
  }

  lemma EchoTook(l: Bench, s: Kernel, tf: TrapFrame, r: Kernel, log: seq<UartItem>)
    requires BenchOk(l, s, log) && ServerAfter(s, tf, r) && s.current == TASK_C && tf.elr == l.cRecv && !ToEcho(l, s)
    requires r.uart == s.uart && r.eps[EP_UART] == s.eps[EP_UART]
    requires var ep := s.eps[EP_BENCH];
             if ep.hasPending then
               r.eps[EP_BENCH] == ClearPending(ep) && r.current == TASK_C && r.el0.x[0] == 1
               && Load(r.mem, l.cBuf, 1) == [PING]
             else r.eps[EP_BENCH] == SetReceiver(ep, TASK_C, l.cBuf, 256) && r.mem == s.mem
    requires forall n :: 0 <= n <= 256 ==> Load(r.mem, l.bBuf, n) == Load(s.mem, l.bBuf, n)
    ensures BenchOk(l, r, log)
  {
    WhoSleepsHere(s);
    WhoSleepsHere(r);
    assert OtherView(s, tf, r, TASK_A) && OtherView(s, tf, r, TASK_B);
    assert InFlight(l, r) == InFlight(l, s);
  }

  lemma EchoReplies(l: Bench, s: Kernel, tf: TrapFrame, w: nat, log: seq<UartItem>)
    requires BenchOk(l, s, log) && s.current == TASK_C && ToEcho(l, s)
    requires Syscall(tf, SYS_IPC_REPLY, l.cReply) && tf.x[0] == EP_BENCH && tf.x[1] == l.cBuf && tf.x[2] == s.el0.x[0]
    ensures TrapStep(s, tf, w).Ok? && BenchOk(l, TrapStep(s, tf, w).value, log)
  {
    ServerView(l, s, tf, w, log);
    assert s.eps[EP_BENCH].owner == TASK_C && RangeOk(l.cBuf, 1);
    ReplyReturns(s, tf, w, EP_BENCH, l.cBuf, 1);
    var r := TrapStep(s, tf, w).value;
    CopyWithinIsStore(s.mem, l.reply, l.cBuf, 1);
    EchoBytes(l, s.mem, l.reply, [PING]);
    EchoAnswered(l, s, tf, r, log);
  }

  lemma EchoAnswered(l: Bench, s: Kernel, tf: TrapFrame, r: Kernel, log: seq<UartItem>)
    requires BenchOk(l, s, log) && ServerAfter(s, tf, r) && s.current == TASK_C && tf.elr == l.cReply && ToEcho(l, s)
    requires r.uart == s.uart && r.eps == s.eps[EP_BENCH := ClearCaller(s.eps[EP_BENCH])]
    requires X0Of(r, TASK_A) == 1 && Load(r.mem, l.reply, 1) == [PING]
    requires forall n :: 0 <= n <= 256 ==> Load(r.mem, l.bBuf, n) == Load(s.mem, l.bBuf, n)
    ensures BenchOk(l, r, log)
  {
    WhoSleepsHere(s);
    WhoSleepsHere(r);
    assert OtherView(s, tf, r, TASK_A) && OtherView(s, tf, r, TASK_B);
    assert InFlight(l, r) == InFlight(l, s);
  }

  // ---------------------------------------------------------------- any event

  /** The bytes a direct write would put on the line for this event. */
  function Emits(s: Kernel, e: Event): (items: seq<UartItem>)
    ensures items != [] ==> e.Trap? && IsSvc(e.tf) && RangeOk(e.tf.x[0], e.tf.x[1]) {
    if e.Trap? && s.current == TASK_A && IsSvc(e.tf) && e.tf.x[8] == SYS_WRITE && RangeOk(e.tf.x[0], e.tf.x[1])
    then Chars(Load(e.mem, e.tf.x[0], e.tf.x[1])) else []
  }

  /** The clock and the idle pass do not reach what the invariant reads. */
  lemma BenchClock(l: Bench, s: Kernel, r: Kernel, log: seq<UartItem>)
    requires BenchOk(l, s, log) && Inv(r) && r.current == s.current
    requires r == s.(threads := r.threads, ticks := r.ticks, resched := r.resched)
    requires forall i :: 0 <= i < IDLE ==>
               r.threads[i].ctx == s.threads[i].ctx && r.threads[i].task == s.threads[i].task
    ensures BenchOk(l, r, log)
  {
    assert InFlight(l, r) == InFlight(l, s);
  }

  lemma BenchTick(l: Bench, s: Kernel, log: seq<UartItem>)
    requires BenchOk(l, s, log)
    ensures BenchOk(l, Tick(s), log)
  {
    TickKeepsInv(s);
    TickFrame(s);
    hide WritePath, EchoPath, ClientOk, InFlight, Common;
    BenchClock(l, s, Tick(s), log);
  }

  lemma BenchTrap(l: Bench, s: Kernel, e: Event, log: seq<UartItem>)
    requires BenchOk(l, s, log) && ByBench(l, s, e) && e.Trap? && s.current != IDLE
    ensures Step(s, e).Ok? && BenchOk(l, Step(s, e).value, log + Emits(s, e))
  {
    assert log + [] == log;
    var s0 := s.(mem := e.mem);
    BenchMemSwap(l, s, e.mem, log);
    hide Inv, WritePath, EchoPath, ClientOk, InFlight, TrapStep;
    if s.current == TASK_A {
      ClientStep(l, s0, e.tf, e.w, log);
    } else if s.current == TASK_B {
      UartStep(l, s0, e.tf, e.w, log);
    } else {
      EchoStep(l, s0, e.tf, e.w, log);
    }
  }

  lemma BenchStep(l: Bench, s: Kernel, e: Event, log: seq<UartItem>)
    requires BenchOk(l, s, log) && ByBench(l, s, e)
    ensures Do(s, e).Ok? && BenchOk(l, Do(s, e).value, log + Emits(s, e))
  {
    assert log + [] == log;
    if e.Trap? && s.current != IDLE {
      BenchTrap(l, s, e, log);
    } else if e.TimerTick? {
      BenchTick(l, s, log);
    } else if s.current == IDLE {
      IdleStep(s, e);
      BenchClock(l, s, Do(s, e).value, log);
    }
  }

  lemma ClientStep(l: Bench, s: Kernel, tf: TrapFrame, w: nat, log: seq<UartItem>)
    requires BenchOk(l, s, log) && s.current == TASK_A && ClientTrap(l, s, Trap(s.mem, tf, w))
    ensures TrapStep(s, tf, w).Ok?
    ensures BenchOk(l, TrapStep(s, tf, w).value, log + Emits(s, Trap(s.mem, tf, w)))
  {
    assert log + [] == log;
    if IsSvc(tf) && tf.x[8] == SYS_YIELD {
      ClientYields(l, s, tf, w, log);
    } else if Writes(l, s.mem, tf) {
      if s.build.micro {
        ClientWritesRouted(l, s, tf, w, log);
      } else {
        ClientWritesDirect(l, s, tf, w, log);
      }
    } else {
      ClientPings(l, s, tf, w, log);
    }
  }

  lemma UartStep(l: Bench, s: Kernel, tf: TrapFrame, w: nat, log: seq<UartItem>)
    requires BenchOk(l, s, log) && s.current == TASK_B && UartTrap(l, s, Trap(s.mem, tf, w))
    ensures TrapStep(s, tf, w).Ok? && BenchOk(l, TrapStep(s, tf, w).value, log)
  {
    if s.el0.elr == l.bRecv && s.el0.x[0] != MINUS_ONE {
      UartWrites(l, s, tf, w, log);
    } else if s.el0.elr == l.bWrite {
      UartAcks(l, s, tf, w, log);
    } else {
      UartReceives(l, s, tf, w, log);
    }
  }

  lemma EchoStep(l: Bench, s: Kernel, tf: TrapFrame, w: nat, log: seq<UartItem>)
    requires BenchOk(l, s, log) && s.current == TASK_C && EchoTrap(l, s, Trap(s.mem, tf, w))
    ensures TrapStep(s, tf, w).Ok? && BenchOk(l, TrapStep(s, tf, w).value, log)
  {
    if s.el0.elr == l.cRecv && s.el0.x[0] != MINUS_ONE {
      EchoReplies(l, s, tf, w, log);
    } else {
      EchoReceives(l, s, tf, w, log);
    }
  }
}
