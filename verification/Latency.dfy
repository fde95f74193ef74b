/** The shipped EL0 programs in the LATENCY build: what the benchmark client may do, and
    the two servers. Program points are the addresses EL0 is entered at. */
module Latency {
  import opened Base
  import opened Memory
  import opened State
  import opened Machine
  import opened Invariant
  import opened Shipped

  const PING: byte := 0x5A

  /** Addresses behind the servers' system calls, their buffers, and the client's reply byte. */
  datatype Bench = Bench(
    bRecv: u64, bWrite: u64, bReply: u64,
    cRecv: u64, cReply: u64,
    bBuf: u64, cBuf: u64, reply: u64)
  {
    predicate Places(b: Build) {
      && b.LayoutOk() && b.latency
      && bRecv != bWrite && bRecv != bReply && bWrite != bReply
      && b.entryB != bRecv && b.entryB != bWrite && b.entryB != bReply
      && cRecv != cReply && b.entryC != cRecv && b.entryC != cReply
      && RangeOk(bBuf, 256) && RangeOk(cBuf, 256) && RangeOk(reply, 1)
      && Apart(bBuf, 256, cBuf, 256) && Apart(bBuf, 256, reply, 1) && Apart(cBuf, 256, reply, 1)
    }
  }

  predicate Apart(p: u64, n: nat, q: u64, m: nat) {
    p + n <= q || q + m <= p
  }

  /** EL0 leaves the servers' receive buffers and the reply byte as the kernel left them. */
  predicate BuffersKept(l: Bench, b: Build, m: Mem, r: Mem)
    requires l.Places(b)
  {
    && Load(r, l.bBuf, 256) == Load(m, l.bBuf, 256)
    && Load(r, l.cBuf, 256) == Load(m, l.cBuf, 256)
    && Load(r, l.reply, 1) == Load(m, l.reply, 1)
  }

  ghost predicate Writes(l: Bench, mem: Mem, tf: TrapFrame) {
    IsSvc(tf) && tf.x[8] == SYS_WRITE && GoodWrite(l.bBuf, mem, tf)
  }

  predicate Pings(l: Bench, mem: Mem, tf: TrapFrame) {
    IsSvc(tf) && tf.x[8] == SYS_IPC_CALL && tf.x[0] == EP_BENCH && RangeOk(tf.x[1], 1)
    && Load(mem, tf.x[1], 1) == [PING] && tf.x[2] == 1 && tf.x[3] == l.reply && tf.x[4] == 1
  }

  /** task_a: yields, writes of up to 256 bytes from its own buffers, one-byte round trips on
      the benchmark endpoint, in any order and any number. */
  ghost predicate ClientTrap(l: Bench, s: Kernel, e: Event)
    requires e.Trap?
  {
    InSandbox(e.tf.elr)
    && ((IsSvc(e.tf) && e.tf.x[8] == SYS_YIELD) || Writes(l, e.mem, e.tf) || Pings(l, e.mem, e.tf))
  }

  /** task_b: receive, write what came, acknowledge; no injected crash in this build. */
  predicate UartTrap(l: Bench, s: Kernel, e: Event)
    requires e.Trap?
  {
    var pc, x0 := s.el0.elr, s.el0.x[0];
    if pc == l.bRecv && x0 != MINUS_ONE then
      Syscall(e.tf, SYS_WRITE, l.bWrite) && e.tf.x[0] == l.bBuf && e.tf.x[1] == x0
    else if pc == l.bWrite then
      Syscall(e.tf, SYS_IPC_REPLY, l.bReply) && e.tf.x[0] == EP_UART && e.tf.x[1] == l.bBuf && e.tf.x[2] == 0
    else
      Syscall(e.tf, SYS_IPC_RECV, l.bRecv) && e.tf.x[0] == EP_UART && e.tf.x[1] == l.bBuf && e.tf.x[2] == 256
  }

  /** task_c: receive and echo. */
  predicate EchoTrap(l: Bench, s: Kernel, e: Event)
    requires e.Trap?
  {
    var pc, x0 := s.el0.elr, s.el0.x[0];
    if pc == l.cRecv && x0 != MINUS_ONE then
      Syscall(e.tf, SYS_IPC_REPLY, l.cReply) && e.tf.x[0] == EP_BENCH && e.tf.x[1] == l.cBuf && e.tf.x[2] == x0
    else
      Syscall(e.tf, SYS_IPC_RECV, l.cRecv) && e.tf.x[0] == EP_BENCH && e.tf.x[1] == l.cBuf && e.tf.x[2] == 256
  }

  ghost predicate ByBench(l: Bench, s: Kernel, e: Event)
    requires l.Places(s.build)
  {
    e.Trap? && Enabled(s, e) ==>
      && BuffersKept(l, s.build, s.mem, e.mem)
      && (if s.current == TASK_A then ClientTrap(l, s, e)
          else if s.current == TASK_B then UartTrap(l, s, e)
          else EchoTrap(l, s, e))
  }

  // ---------------------------------------------------------------- the system invariant

  /** task_b holds bytes it has not written yet, or has not acknowledged yet. */
  predicate ToWrite(l: Bench, s: Kernel)
    requires |s.threads| == THREAD_COUNT
  {
    !Sleeps(s, TASK_B) && Pc(s, TASK_B).elr == l.bRecv && Pc(s, TASK_B).x[0] != MINUS_ONE
  }

  predicate ToAck(l: Bench, s: Kernel)
    requires |s.threads| == THREAD_COUNT
  {
    !Sleeps(s, TASK_B) && Pc(s, TASK_B).elr == l.bWrite
  }

  predicate ToEcho(l: Bench, s: Kernel)
    requires |s.threads| == THREAD_COUNT
  {
    !Sleeps(s, TASK_C) && Pc(s, TASK_C).elr == l.cRecv && Pc(s, TASK_C).x[0] != MINUS_ONE
  }

  /** The UART endpoint, its server, and the client's write in between. */
  predicate WritePath(l: Bench, s: Kernel)
    requires |s.threads| == THREAD_COUNT && |s.eps| == EP_COUNT
  {
    var ep, a, b := s.eps[EP_UART], Pc(s, TASK_A), Pc(s, TASK_B);
    && (ep.caller == NONE || ep.caller == TASK_A)
    && (ep.hasPending ==> ep.caller == TASK_A && ep.pendingLen == a.x[1])
    && (ep.receiver != NONE ==> ep.caller == NONE && ep.bufPtr == l.bBuf && ep.bufCap == 256)
    && (ep.caller == TASK_A ==>
          a.x[8] == SYS_WRITE && a.x[1] <= IPC_MSG_SIZE && ep.replyCap == 0 && ep.override == a.x[1])
    && (b.elr == s.build.entryB || b.elr == l.bRecv || b.elr == l.bWrite || b.elr == l.bReply)
    && (Sleeps(s, TASK_B) ==> b.elr == l.bRecv)
    && (ToWrite(l, s) || ToAck(l, s) <==> ep.caller == TASK_A && !ep.hasPending)
    && (ToWrite(l, s) ==> b.x[0] == a.x[1])
  }

  /** The benchmark endpoint, the echo server, and the byte in between. */
  predicate EchoPath(l: Bench, s: Kernel)
    requires |s.threads| == THREAD_COUNT && |s.eps| == EP_COUNT && l.Places(s.build)
  {
    var ep, a, c := s.eps[EP_BENCH], Pc(s, TASK_A), Pc(s, TASK_C);
    && (ep.caller == NONE || ep.caller == TASK_A)
    && (ep.hasPending ==> ep.caller == TASK_A && |ep.pendingMsg| > 0 && ep.pendingLen == 1 && ep.pendingMsg[0] == PING)
    && (ep.receiver != NONE ==> ep.caller == NONE && ep.bufPtr == l.cBuf && ep.bufCap == 256)
    && (ep.caller == TASK_A ==>
          a.x[8] == SYS_IPC_CALL && ep.replyPtr == l.reply && ep.replyCap == 1 && ep.override == 0)
    && (c.elr == s.build.entryC || c.elr == l.cRecv || c.elr == l.cReply)
    && (Sleeps(s, TASK_C) ==> c.elr == l.cRecv)
    && (ToEcho(l, s) <==> ep.caller == TASK_A && !ep.hasPending)
    && (ToEcho(l, s) ==> c.x[0] == 1 && Load(s.mem, l.cBuf, 1) == [PING])
  }

  /** The client, when it is not blocked: its last write returned its length, its last round
      trip returned 1 and brought the byte back. */
  predicate ClientOk(l: Bench, s: Kernel)
    requires |s.threads| == THREAD_COUNT && l.Places(s.build)
  {
    var a := Pc(s, TASK_A);
    !Sleeps(s, TASK_A) ==>
      && (a.x[8] == SYS_WRITE ==> a.x[0] == a.x[1])
      && (a.x[8] == SYS_IPC_CALL ==> a.x[0] == 1 && Load(s.mem, l.reply, 1) == [PING])
  }

  /** The bytes of a routed write that are not on the UART line yet. */
  function InFlight(l: Bench, s: Kernel): seq<UartItem>
    requires Fits(s) && l.Places(s.build)
  {
    var ep := s.eps[EP_UART];
    if ep.hasPending then Chars(ep.pendingMsg[..ep.pendingLen])
    else if ToWrite(l, s) && Pc(s, TASK_B).x[0] <= 256 then Chars(Load(s.mem, l.bBuf, Pc(s, TASK_B).x[0]))
    else []
  }

  ghost predicate BenchOk(l: Bench, s: Kernel, log: seq<UartItem>) {
    && Inv(s) && l.Places(s.build)
    && !Dead(s, TASK_A) && !Dead(s, TASK_B) && !Dead(s, TASK_C) && s.waiter == NONE
    && WritePath(l, s)
    && EchoPath(l, s)
    && ClientOk(l, s)
    && s.uart + InFlight(l, s) == log
  }

  /** In this system, who sleeps is told by the two endpoints. */
  lemma WhoSleepsHere(s: Kernel)
    requires Inv(s) && s.waiter == NONE
    requires s.eps[EP_UART].caller == NONE || s.eps[EP_UART].caller == TASK_A
    requires s.eps[EP_BENCH].caller == NONE || s.eps[EP_BENCH].caller == TASK_A
    requires s.build.latency
    ensures Sleeps(s, TASK_A) <==> s.eps[EP_UART].caller == TASK_A || s.eps[EP_BENCH].caller == TASK_A
    ensures !(s.eps[EP_UART].caller == TASK_A && s.eps[EP_BENCH].caller == TASK_A)
    ensures Sleeps(s, TASK_B) <==> s.eps[EP_UART].receiver == TASK_B
    ensures Sleeps(s, TASK_C) <==> s.eps[EP_BENCH].receiver == TASK_C
    ensures s.eps[EP_UART].receiver == NONE || s.eps[EP_UART].receiver == TASK_B
    ensures s.eps[EP_BENCH].receiver == NONE || s.eps[EP_BENCH].receiver == TASK_C
  {
    assert s.eps[EP_BENCH].owner == TASK_C && s.eps[0].owner == NONE && s.eps[EP_UART].owner == TASK_B;
    assert Named(s, CallerOf(EP_UART)) == s.eps[EP_UART].caller;
    assert Named(s, CallerOf(EP_BENCH)) == s.eps[EP_BENCH].caller;
    assert Named(s, ReceiverOf(EP_UART)) == s.eps[EP_UART].receiver;
    assert Named(s, ReceiverOf(EP_BENCH)) == s.eps[EP_BENCH].receiver;
    forall i | i in Blocked(s)
      ensures i == s.eps[EP_UART].caller || i == s.eps[EP_UART].receiver
              || i == s.eps[EP_BENCH].caller || i == s.eps[EP_BENCH].receiver
    {
      var w :| Named(s, w) == i;
    }
    assert forall i: nat :: i < IDLE ==> (Sleeps(s, i) <==> i in Blocked(s));
  }

  lemma BenchBoot(l: Bench, b: Build, mem: Mem)
    requires l.Places(b)
    ensures BenchOk(l, Boot(b, mem), [])
  {
    BootInv(b, mem);
  }
}
