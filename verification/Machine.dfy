/** System-call dispatch, the return continuation, and whole runs of the kernel. */
module Machine {
  import opened Base
  import opened Memory
  import opened State
  import opened Threads
  import opened Ipc
  import opened Supervisor

  function Chars(bytes: seq<byte>): (r: seq<UartItem>)
    ensures |r| == |bytes|
    ensures forall k :: 0 <= k < |r| ==> r[k] == Char(bytes[k])
  {
    seq(|bytes|, i requires 0 <= i < |bytes| => Char(bytes[i]))
  }

  /** The line `r` is `line` with the `len` bytes at `ptr` behind it, lowest address first. */
  ghost predicate Extends(line: seq<UartItem>, r: seq<UartItem>, mem: Mem, ptr: u64, len: u64)
    requires RangeOk(ptr, len)
  {
    && |r| == |line| + len && r[..|line|] == line
    && forall k :: 0 <= k < len ==> r[|line|..][k] == Char(mem[ptr - 0x40E0_0000..][k])
  }

  function DirectWrite(s: Kernel, buf: u64, len: u64): (r: Kernel)
    requires Fits(s) && RangeOk(buf, len)
    ensures Fits(r) && Extends(s.uart, r.uart, s.mem, buf, len)
  {
    s.(uart := s.uart + Chars(Load(s.mem, buf, len)))
  }

  function Write(s: Kernel, tf: TrapFrame): (r: Result<(Kernel, Leave)>)
    requires Fits(s)
    ensures r.Ok? ==> Fits(r.value.0) && r.value.0.build == s.build
  {
    var buf, len := tf.x[0], tf.x[1];
    if buf == 0 || !RangeOk(buf, len) then Refuse(s)
    else if s.build.micro then
      var slot :- CurrentUserSlot(s);
      if slot != TASK_B && slot != TASK_C then
        if len > IPC_MSG_SIZE then Refuse(s) else RouteUartWrite(s, tf, buf, len)
      else Ok((DirectWrite(s, buf, len), ToUser(len)))
    else Ok((DirectWrite(s, buf, len), ToUser(len)))
  }

  function RedirectOnly(s: Kernel, tf: TrapFrame, reason: Reason): (r: Result<(Kernel, Leave)>)
    requires Fits(s)
    ensures r.Ok? ==> Fits(r.value.0) && r.value.0.build == s.build
  {
    var s1 :- Redirect(s, tf, reason);
    Ok((s1, ToKernel))
  }

  /** `syscall_dispatch` for a trap from EL0. */
  function Dispatch(s: Kernel, tf: TrapFrame): (r: Result<(Kernel, Leave)>)
    requires Fits(s)
    ensures r.Ok? ==> Fits(r.value.0) && r.value.0.build == s.build
  {
    var nr := tf.x[8];
    if nr == SYS_YIELD then RedirectOnly(s, tf, Yield)
    else if nr == SYS_TIME_TICKS then Ok((s, ToUser(s.ticks)))
    else if nr == SYS_WRITE then Write(s, tf)
    else if nr == SYS_EXIT then RedirectOnly(s, tf, Exit)
    else if nr == SYS_IPC_CALL then Call(s, tf)
    else if nr == SYS_IPC_RECV then Recv(s, tf)
    else if nr == SYS_IPC_REPLY then Reply(s, tf)
    else if nr == SYS_SUPERVISE_WAIT then Wait(s, tf)
    else if nr == SYS_TASK_RESTART then RestartCall(s, tf.x[0])
    else Refuse(s)
  }

  function TaskName(t: Thread): string {
    if t.name.Some? then t.name.value else "unknown"
  }

  predicate IsSvc(tf: TrapFrame) {
    (tf.esr / 0x400_0000) % 64 == EC_SVC
  }

  /** The exception class of SVC is 0x15, in bits 31 to 26; bits 25 to 0 and 63 to 32 are free. */
  lemma SvcByEsr(tf: TrapFrame)
    ensures IsSvc(tf) <==> 0x5400_0000 <= tf.esr % 0x1_0000_0000 < 0x5800_0000
  {
    var high, low := tf.esr / 0x1_0000_0000, tf.esr % 0x1_0000_0000;
    assert tf.esr == (high * 64 + low / 0x400_0000) * 0x400_0000 + low % 0x400_0000;
    assert tf.esr / 0x400_0000 == high * 64 + low / 0x400_0000;
  }

  /** `exception_sync_el0`: a system call, or a fault that kills the task. */
  function HandleTrap(s: Kernel, tf: TrapFrame): (r: Result<(Kernel, Leave)>)
    requires Fits(s)
    ensures r.Ok? ==> Fits(r.value.0) && r.value.0.build == s.build
  {
    if IsSvc(tf) then Dispatch(s, tf)
    else if !CurrentTaskOk(s) then Panicked(FaultWithoutTask)
    else
      var line := FaultLine(TaskName(s.threads[s.current]), tf.esr, tf.elr, tf.far);
      RedirectOnly(s.(uart := s.uart + [line]), tf, Fault)
  }

  /** The first half of `user_task_return_step`: park the task as its reason says; a dying
      task is taken out of every queue and reported to the supervisor. */
  function Park(s: Kernel): (r: Result<Kernel>)
    requires Fits(s)
    ensures r.Ok? ==> Fits(r.value) && r.value.current == s.current != NONE
  {
    if !CurrentTaskOk(s) then Panicked(InvalidCurrentTask)
    else
      var cur := s.current;
      var t := s.threads[cur].(cont := InReturnStep);
      match t.reason
      case NoReason => Panicked(UnknownReturnReason)
      case Yield => Ok(SetThread(s, cur, t.(task := TaskRunnable, state := ThreadRunnable)))
      case IpcBlock => Ok(SetThread(s, cur, t.(task := TaskBlocked, state := ThreadRunnable)))
      case NotifyBlock => Ok(SetThread(s, cur, t.(task := TaskBlocked, state := ThreadRunnable)))
      case _ =>
        DeathKeepsCurrent(MarkDead(s), cur, 0);
        var cleaned :- DeathFrom(MarkDead(s), cur, 0);
        NoteDeath(cleaned, cur)
  }

  /** The current task is marked dead; an orderly exit is announced on the UART. */
  function MarkDead(s: Kernel): (r: Kernel)
    requires Fits(s) && s.current != NONE
    ensures Fits(r) && r.current == s.current
  {
    var t := s.threads[s.current];
    var line := if t.reason.Exit? then [ExitLine(TaskName(t))] else [];
    SetThread(s, s.current, t.(cont := InReturnStep, task := TaskDead, state := ThreadStopped))
    .(uart := s.uart + line)
  }

  lemma DeathKeepsCurrent(s: Kernel, slot: nat, e: nat)
    requires Fits(s) && e <= EP_COUNT
    ensures DeathFrom(s, slot, e).Ok? ==> DeathFrom(s, slot, e).value.current == s.current
    decreases EP_COUNT - e
  {
  }

  /** `user_task_return_step` and what follows it up to the next entry into EL0 or idle. */
  function ReturnStep(s: Kernel, w: nat): (r: Result<Kernel>)
    requires Fits(s)
    ensures r.Ok? ==> Fits(r.value)
  {
    var parked :- Park(s);
    SwitchAndResume(parked.(resched := true), w)
  }

  function SwitchAndResume(s: Kernel, w: nat): (r: Result<Kernel>)
    requires Fits(s) && s.current != NONE
    ensures r.Ok? ==> Fits(r.value)
  {
    var s1 :- ReschedPoint(s, w);
    TicksKeepCurrent(s.(resched := false), w);
    Resume(s1)
  }

  lemma TicksKeepCurrent(s: Kernel, n: nat)
    requires Fits(s)
    ensures Ticks(s, n).current == s.current
    decreases n
  {
  }

  /** One atomic step as seen from outside the kernel. EL0 code, running between traps, may
      have left any bytes in the sandbox and any registers in the frame. */
  datatype Event =
    | Trap(mem: Mem, tf: TrapFrame, w: nat)
    | TimerTick
    | IdlePass(w: nat)

  predicate Enabled(s: Kernel, e: Event) {
    match e
    case Trap(_, _, _) => s.current != NONE && s.current != IDLE
    case TimerTick => true
    case IdlePass(_) => s.current == IDLE
  }

  function TrapStep(s: Kernel, tf: TrapFrame, w: nat): (r: Result<Kernel>)
    requires Fits(s)
    ensures r.Ok? ==> Fits(r.value)
  {
    var (s1, out) :- HandleTrap(s, tf);
    match out
    case ToUser(x0) => Ok(s1.(el0 := FrameCtx(tf, x0)))
    case ToKernel => ReturnStep(s1, w)
  }

  function Step(s: Kernel, e: Event): (r: Result<Kernel>)
    requires Fits(s) && Enabled(s, e)
    ensures r.Ok? ==> Fits(r.value)
  {
    match e
    case Trap(mem, tf, w) => TrapStep(s.(mem := mem), tf, w)
    case TimerTick => Ok(Tick(s))
    case IdlePass(w) => SwitchAndResume(s, w)
  }

  /** The state `kernel_main` reaches once `thread_start` has put task_a into EL0. */
  function Initial(b: Build, mem: Mem): (r: Kernel)
    ensures Fits(r)
  {
    Kernel(b, InitThreads(b), NONE, NONE, 0, false, InitEndpoints(b), NONE, NONE, mem, [],
           UserCtx(ZeroRegs(), 0, 0, 0))
  }

  function Boot(b: Build, mem: Mem): (r: Kernel)
    ensures Fits(r)
  {
    var s := SwitchTo(Initial(b, mem), TASK_A);
    EnterEl0(SetThread(s, TASK_A, s.threads[TASK_A].(started := true)), TASK_A)
  }
}
