/** The kernel's data: thread control blocks, IPC endpoints, the supervisor's two slots,
    the scheduler's globals, and what the kernel shares with the outside (the sandbox
    memory, the UART line, the registers EL0 was last entered with). */
module State {
  import opened Base
  import opened Memory

  datatype ThreadState = ThreadRunnable | ThreadRunning | ThreadStopped
  datatype TaskState = TaskRunnable | TaskRunning | TaskBlocked | TaskDead
  datatype ThreadKind = IdleThread | UserThread
  datatype Reason = NoReason | Yield | Exit | Fault | IpcBlock | NotifyBlock

  /** Where a thread's saved kernel context continues: not yet run, inside the return step
      (just behind its reschedule point), or inside the idle loop. */
  datatype Continuation = Bootstrap | InReturnStep | InIdleLoop

  /** The general registers x0..x30. */
  type Regs = x: seq<u64> | |x| == 31 witness seq(31, _ => 0)

  datatype UserCtx = UserCtx(x: Regs, sp: u64, elr: u64, spsr: u64)

  datatype Thread = Thread(
    cont: Continuation,
    state: ThreadState,
    kind: ThreadKind,
    quantum: nat,
    ctx: UserCtx,
    task: TaskState,
    reason: Reason,
    entry: u64,
    userSp: u64,
    name: Option<string>,
    started: bool)

  datatype Endpoint = Endpoint(
    owner: int,
    hasPending: bool,
    pendingLen: nat,
    pendingMsg: seq<byte>,
    caller: int,
    replyPtr: u64,
    replyCap: u64,
    override: u64,
    receiver: int,
    bufPtr: u64,
    bufCap: u64)

  /** The UART line. The kernel's own log lines are single items; their text is not modelled. */
  datatype UartItem = Char(c: byte) | ExitLine(task: string) | FaultLine(task: string, esr: u64, elr: u64, far: u64)

  datatype TrapFrame = TrapFrame(x: Regs, sp: u64, elr: u64, spsr: u64, esr: u64, far: u64)

  /** How a trap handler leaves: back to the task with a value in x0, or redirected to the
      kernel's return continuation. */
  datatype Leave = ToUser(x0: u64) | ToKernel

  /** Build-time choices: the kernel flavor, the benchmark mode, and where the linker put
      the three entry points. */
  datatype Build = Build(micro: bool, latency: bool, entryA: u64, entryB: u64, entryC: u64) {
    /** What `validate_el0_layout` checks of the entry points. */
    predicate LayoutOk() {
      && SANDBOX_BASE <= entryA < CODE_END
      && SANDBOX_BASE <= entryB < CODE_END
      && SANDBOX_BASE <= entryC < CODE_END
    }
  }

  datatype Kernel = Kernel(
    build: Build,
    threads: seq<Thread>,
    current: int,
    currentTask: int,
    ticks: u64,
    resched: bool,
    eps: seq<Endpoint>,
    death: int,
    waiter: int,
    mem: Mem,
    uart: seq<UartItem>,
    el0: UserCtx)

  predicate BufferOk(ptr: u64, cap: u64) {
    cap == 0 || RangeOk(ptr, cap)
  }

  /** The shape the C declarations give an endpoint, and the safety of the buffers it
      keeps across a trap. */
  predicate EndpointFits(ep: Endpoint) {
    && |ep.pendingMsg| == IPC_MSG_SIZE
    && ep.pendingLen <= IPC_MSG_SIZE
    && BufferOk(ep.replyPtr, ep.replyCap)
    && BufferOk(ep.bufPtr, ep.bufCap)
  }

  /** Everything array indexing and the deferred copies rely on. */
  predicate Fits(s: Kernel) {
    && |s.threads| == THREAD_COUNT
    && |s.eps| == EP_COUNT
    && NONE <= s.current < THREAD_COUNT
    && NONE <= s.currentTask < THREAD_COUNT
    && (forall e :: 0 <= e < EP_COUNT ==> EndpointFits(s.eps[e]))
  }

  predicate ValidEp(e: u64) {
    0 < e < EP_COUNT
  }

  /** EL0 runs next with these registers: the trap frame's, x0 replaced by `x0`. */
  function FrameCtx(tf: TrapFrame, x0: u64): UserCtx {
    UserCtx(tf.x[0 := x0], tf.sp, tf.elr, tf.spsr)
  }
}
