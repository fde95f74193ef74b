/** The three shipped EL0 programs in the OFF and RECOVERY builds, as constraints on the
    traps they make. A program point is the address EL0 is entered at, so the kernel's own
    saved ELR carries each program's position across blocking, yielding and restarting. */
module Shipped {
  import opened Base
  import opened Memory
  import opened State
  import opened Machine
  import opened Invariant
  import opened Overlap

  /** Where the compiler and linker put things: the addresses behind each system call of
      task_b and task_c, task_b's receive buffer, and the crashed-once flag. */
  datatype Layout = Layout(
    off: bool,
    bReady: u64, bRecv: u64, bWrite: u64, bReply: u64,
    cReady: u64, cWait: u64, cRestart: u64, cSaid: u64,
    recvBuf: u64, flag: u64)
  {
    predicate Suits(b: Build) {
      && b.LayoutOk()
      && bReady != bRecv && bReady != bWrite && bReady != bReply
      && bRecv != bWrite && bRecv != bReply && bWrite != bReply
      && b.entryB != bReady && b.entryB != bRecv && b.entryB != bWrite && b.entryB != bReply
      && cReady != cWait && cReady != cRestart && cReady != cSaid
      && cWait != cRestart && cWait != cSaid && cRestart != cSaid
      && b.entryC != cReady && b.entryC != cWait && b.entryC != cRestart && b.entryC != cSaid
      && RangeOk(recvBuf, 256) && RangeOk(flag, 4)
      && (flag + 4 <= recvBuf || recvBuf + 256 <= flag)
    }

    predicate BPoint(b: Build, pc: u64) {
      pc == b.entryB || pc == bReady || pc == bRecv || pc == bWrite || pc == bReply
    }

    predicate CPoint(b: Build, pc: u64) {
      pc == b.entryC || pc == cReady || pc == cWait || pc == cRestart || pc == cSaid
    }
  }

  /** `g_uart_server_crashed_once` is nonzero. */
  predicate Crashed(l: Layout, m: Mem)
    requires RangeOk(l.flag, 4)
  {
    Load(m, l.flag, 4) != [0, 0, 0, 0]
  }

  /** A write the two kernels are to treat alike: valid, within the message limit, and from a
      buffer that the server's receive buffer `buf` is harmless to. */
  ghost predicate GoodWrite(buf: u64, mem: Mem, tf: TrapFrame) {
    && RangeOk(tf.x[0], tf.x[1]) && tf.x[1] <= IPC_MSG_SIZE
    && Harmless(Load(mem, tf.x[0], tf.x[1]), Overtake(buf, tf.x[0], tf.x[1]))
  }

  predicate Syscall(tf: TrapFrame, nr: u64, next: u64) {
    IsSvc(tf) && tf.x[8] == nr && tf.elr == next && InSandbox(next)
  }

  predicate RecvCall(l: Layout, tf: TrapFrame) {
    Syscall(tf, SYS_IPC_RECV, l.bRecv) && tf.x[0] == EP_UART && tf.x[1] == l.recvBuf && tf.x[2] == 256
  }

  /** task_a, whatever its timing: it only yields, reads the clock, and writes. */
  predicate TrapOfA(l: Layout, s: Kernel, e: Event)
    requires e.Trap? && RangeOk(l.flag, 4)
  {
    && IsSvc(e.tf) && InSandbox(e.tf.elr)
    && (e.tf.x[8] == SYS_YIELD || e.tf.x[8] == SYS_TIME_TICKS || e.tf.x[8] == SYS_WRITE)
    && Crashed(l, e.mem) == Crashed(l, s.mem)
  }

  /** task_b, the UART server: announce (OFF only), then receive, write, reply; after its
      first reply it sets the flag and executes a breakpoint. */
  predicate TrapOfB(l: Layout, s: Kernel, e: Event)
    requires e.Trap? && RangeOk(l.flag, 4)
  {
    var pc, x0 := s.el0.elr, s.el0.x[0];
    if pc == l.bReply && !Crashed(l, s.mem) then
      !IsSvc(e.tf) && InSandbox(e.tf.elr) && Crashed(l, e.mem)
    else
      && Crashed(l, e.mem) == Crashed(l, s.mem)
      && (if pc == s.build.entryB && l.off then Syscall(e.tf, SYS_WRITE, l.bReady)
          else if pc == l.bRecv && x0 != MINUS_ONE then
            Syscall(e.tf, SYS_WRITE, l.bWrite) && e.tf.x[0] == l.recvBuf && e.tf.x[1] == x0
          else if pc == l.bWrite then
            Syscall(e.tf, SYS_IPC_REPLY, l.bReply) && e.tf.x[0] == EP_UART && e.tf.x[1] == l.recvBuf
            && e.tf.x[2] == 0
          else RecvCall(l, e.tf))
  }

  /** task_c, the supervisor: announce (OFF only), then wait for a death and restart task_b. */
  predicate TrapOfC(l: Layout, s: Kernel, e: Event)
    requires e.Trap? && RangeOk(l.flag, 4)
  {
    var pc, x0 := s.el0.elr, s.el0.x[0];
    && Crashed(l, e.mem) == Crashed(l, s.mem)
    && (if pc == s.build.entryC && l.off then Syscall(e.tf, SYS_WRITE, l.cReady)
        else if pc == l.cWait && x0 == TASK_B then
          Syscall(e.tf, SYS_TASK_RESTART, l.cRestart) && e.tf.x[0] == TASK_B
        else if pc == l.cRestart && x0 == 0 && l.off then Syscall(e.tf, SYS_WRITE, l.cSaid)
        else Syscall(e.tf, SYS_SUPERVISE_WAIT, l.cWait))
  }

  /** The event is one the shipped programs can cause in `s` (ticks and idle passes always are). */
  predicate ByShipped(l: Layout, s: Kernel, e: Event)
    requires RangeOk(l.flag, 4)
  {
    e.Trap? && Enabled(s, e) ==>
      if s.current == TASK_A then TrapOfA(l, s, e)
      else if s.current == TASK_B then TrapOfB(l, s, e)
      else TrapOfC(l, s, e)
  }

  // ---------------------------------------------------------------- the system invariant

  /** The registers task `i` has or will resume with. */
  function Pc(s: Kernel, i: nat): UserCtx
    requires |s.threads| == THREAD_COUNT && i < IDLE
  {
    if s.current == i then s.el0 else s.threads[i].ctx
  }

  /** task_c has been told of task_b's death and has not asked for the restart yet. */
  predicate Held(l: Layout, s: Kernel)
    requires |s.threads| == THREAD_COUNT
  {
    !s.threads[TASK_C].task.TaskBlocked? && Pc(s, TASK_C).elr == l.cWait && Pc(s, TASK_C).x[0] == TASK_B
  }

  predicate Dead(s: Kernel, i: nat)
    requires |s.threads| == THREAD_COUNT && i < IDLE
  {
    s.threads[i].task.TaskDead?
  }

  predicate Sleeps(s: Kernel, i: nat)
    requires |s.threads| == THREAD_COUNT && i < IDLE
  {
    s.threads[i].task.TaskBlocked?
  }

  /** The UART endpoint as the shipped clients use it. */
  predicate UartOk(l: Layout, ep: Endpoint) {
    && (ep.caller == NONE || ep.caller == TASK_A)
    && (ep.hasPending ==> ep.caller == TASK_A)
    && (ep.receiver != NONE ==> ep.caller == NONE && ep.bufPtr == l.recvBuf && ep.bufCap == 256)
  }

  /** task_b holds a request it has not answered yet. */
  predicate Busy(l: Layout, s: Kernel)
    requires |s.threads| == THREAD_COUNT
  {
    var pc := Pc(s, TASK_B);
    !Dead(s, TASK_B) && !Sleeps(s, TASK_B)
    && ((pc.elr == l.bRecv && pc.x[0] != MINUS_ONE) || pc.elr == l.bWrite)
  }

  /** task_b: where it can be, and that it is busy exactly when task_a's request is in its hands. */
  predicate ServerOk(l: Layout, s: Kernel)
    requires |s.threads| == THREAD_COUNT && |s.eps| == EP_COUNT
  {
    var ep, pc := s.eps[EP_UART], Pc(s, TASK_B);
    && (!Dead(s, TASK_B) ==> l.BPoint(s.build, pc.elr))
    && (Sleeps(s, TASK_B) ==> pc.elr == l.bRecv)
    && (Busy(l, s) <==> ep.caller == TASK_A && !ep.hasPending)
  }

  /** task_b's death notice: while it is dead the notice is in exactly one place, and a
      notice exists only while it is dead. */
  predicate NoticeOk(l: Layout, s: Kernel)
    requires |s.threads| == THREAD_COUNT && RangeOk(l.flag, 4)
  {
    && !Dead(s, TASK_A) && !Dead(s, TASK_C)
    && l.CPoint(s.build, Pc(s, TASK_C).elr)
    && (Sleeps(s, TASK_C) ==> Pc(s, TASK_C).elr == l.cWait)
    && (Dead(s, TASK_B) ==> Crashed(l, s.mem))
    && (s.death == NONE || s.death == TASK_B)
    && (Dead(s, TASK_B) <==> s.death == TASK_B || Held(l, s))
    && !(s.death == TASK_B && Held(l, s))
  }

  ghost predicate SystemOk(l: Layout, s: Kernel) {
    && Inv(s) && !s.build.latency && l.Suits(s.build)
    && UartOk(l, s.eps[EP_UART])
    && ServerOk(l, s)
    && NoticeOk(l, s)
  }

  /** In this system, who sleeps is told by the UART endpoint and the supervisor's slot. */
  lemma WhoSleeps(s: Kernel)
    requires Inv(s) && !s.build.latency
    ensures Sleeps(s, TASK_B) <==> s.eps[EP_UART].receiver == TASK_B || s.eps[EP_UART].caller == TASK_B
    ensures Sleeps(s, TASK_C) <==> s.waiter == TASK_C || s.eps[EP_UART].caller == TASK_C
    ensures Sleeps(s, TASK_A) <==> s.eps[EP_UART].caller == TASK_A
    ensures s.eps[EP_UART].receiver != NONE ==> s.eps[EP_UART].receiver == TASK_B
  {
    assert s.eps[EP_BENCH].owner == NONE && s.eps[0].owner == NONE && s.eps[EP_UART].owner == TASK_B;
    assert Named(s, CallerOf(EP_UART)) == s.eps[EP_UART].caller;
    assert Named(s, ReceiverOf(EP_UART)) == s.eps[EP_UART].receiver;
    assert Named(s, SupervisorWait) == s.waiter;
    forall i | i in Blocked(s) ensures i == s.eps[EP_UART].caller || i == s.eps[EP_UART].receiver || i == s.waiter {
      var w :| Named(s, w) == i;
    }
    assert forall i: nat :: i < IDLE ==> (Sleeps(s, i) <==> i in Blocked(s));
  }

  /** Some user task can always run: the system never falls into the idle thread. */
  lemma SomeoneRuns(l: Layout, s: Kernel)
    requires SystemOk(l, s)
    ensures s.current != IDLE
    ensures UserSelectable(s, TASK_A) || UserSelectable(s, TASK_B) || UserSelectable(s, TASK_C)
  {
    WhoSleeps(s);
    assert forall i :: 0 <= i < IDLE ==> ThreadOk(s.build, s.threads[i], i);
    if !UserSelectable(s, TASK_A) {
      assert s.eps[EP_UART].caller == TASK_A;
      if Dead(s, TASK_B) {
        assert UserSelectable(s, TASK_C);
      } else {
        assert UserSelectable(s, TASK_B);
      }
    }
  }

  lemma BootOk(l: Layout, b: Build, mem: Mem)
    requires l.Suits(b) && !b.latency
    ensures SystemOk(l, Boot(b, mem))
  {
    BootInv(b, mem);
  }
}
