/** Constants, machine-width types and failure types shared by every module. */
module Base {

  datatype Option<+T> = None | Some(value: T)

  /** Every way the kernel can stop in `panic` on the paths modelled here. */
  datatype Panic =
    | NoSelectableThread
    | InvalidUserThread
    | InvalidCurrentTask
    | UnknownReturnReason
    | ContinuationOnNonUser
    | DeadTaskResumed
    | ResumeElrOutside
    | WakeOutOfRange
    | WakeNotUser
    | WakeDead
    | RedirectWithoutTask
    | TrapElrOutside
    | FaultWithoutTask

  datatype Result<+T> = Ok(value: T) | Panicked(reason: Panic) {
    predicate IsFailure() {
      Panicked?
    }

    function PropagateFailure<U>(): Result<U>
      requires Panicked?
    {
      Panicked(reason)
    }

    function Extract(): T
      requires Ok?
    {
      value
    }
  }

  /** What a kernel method reports: it either ran to its end or stopped in `panic`. */
  datatype Outcome = Done | Halted(reason: Panic) {
    predicate IsFailure() {
      Halted?
    }

    function PropagateFailure(): Outcome
      requires Halted?
    {
      this
    }
  }

  const TWO64: int := 0x1_0000_0000_0000_0000

  type u64 = x: int | 0 <= x < TWO64
  type byte = x: int | 0 <= x < 256

  const MINUS_ONE: u64 := 0xFFFF_FFFF_FFFF_FFFF

  // Thread slots and scheduler constants (thread.h)
  const THREAD_COUNT: nat := 4
  const TASK_A: nat := 0
  const TASK_B: nat := 1
  const TASK_C: nat := 2
  const IDLE: nat := 3
  const QUANTUM_TICKS: nat := 10
  const NONE: int := -1

  // Endpoints (ipc.h)
  const IPC_MSG_SIZE: nat := 256
  const EP_UART: nat := 1
  const EP_BENCH: nat := 2
  const EP_COUNT: nat := 3

  // EL0 sandbox (config.h)
  const SANDBOX_SIZE: nat := 0x20_0000
  const SANDBOX_BASE: u64 := 0x40E0_0000
  const SANDBOX_END: u64 := 0x4100_0000
  const CODE_END: u64 := 0x40E1_0000
  const STACK_TOP_A: u64 := 0x40FE_0000
  const STACK_TOP_B: u64 := 0x4100_0000
  const STACK_TOP_C: u64 := 0x40FC_0000
  const SPSR_EL0T_MASKED: u64 := 0x3C0

  // System call numbers (syscall.h) and the exception class of SVC
  const SYS_YIELD: u64 := 0
  const SYS_TIME_TICKS: u64 := 1
  const SYS_WRITE: u64 := 2
  const SYS_EXIT: u64 := 3
  const SYS_IPC_CALL: u64 := 4
  const SYS_IPC_RECV: u64 := 5
  const SYS_IPC_REPLY: u64 := 6
  const SYS_SUPERVISE_WAIT: u64 := 7
  const SYS_TASK_RESTART: u64 := 8
  const EC_SVC: int := 0x15

  function Min(a: int, b: int): (r: int)
    ensures r <= a && r <= b && (r == a || r == b)
  {
    if a < b then a else b
  }
}
