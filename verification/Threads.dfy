/** Scheduling, user-task bookkeeping and timer ticks: the state transformers of thread.c. */
module Threads {
  import opened Base
  import opened Memory
  import opened State

  function SetThread(s: Kernel, i: nat, t: Thread): (r: Kernel)
    requires i < |s.threads|
  {
    s.(threads := s.threads[i := t])
  }

  predicate Selectable(t: Thread) {
    && !t.state.ThreadStopped?
    && !(t.kind.UserThread? && (t.task.TaskDead? || t.task.TaskBlocked?))
  }

  /** A selectable user slot other than the current one; the idle slot is the last. */
  predicate Candidate(ts: seq<Thread>, cur: int, idx: int) {
    0 <= idx < |ts| - 1 && idx != cur && Selectable(ts[idx])
  }

  /** The first candidate met when probing `start + i`, `start + i + 1`, ... once round. */
  function Scan(ts: seq<Thread>, cur: int, start: nat, i: nat): (r: int)
    requires |ts| > 0
    ensures r != NONE ==> Candidate(ts, cur, r)
    decreases |ts| + 1 - i
  {
    if i > |ts| then NONE
    else if Candidate(ts, cur, (start + i) % |ts|) then (start + i) % |ts|
    else Scan(ts, cur, start, i + 1)
  }

  function PickNext(ts: seq<Thread>, cur: int): (r: Result<nat>)
    requires |ts| > 0 && NONE <= cur < |ts|
    ensures r.Ok? ==> r.value < |ts| && Selectable(ts[r.value])
  {
    var found := Scan(ts, cur, if cur == NONE then |ts| - 1 else cur, 1);
    if found != NONE then Ok(found)
    else if cur != NONE && Selectable(ts[cur]) && cur != |ts| - 1 then Ok(cur)
    else if Selectable(ts[|ts| - 1]) then Ok(|ts| - 1)
    else Panicked(NoSelectableThread)
  }

  function SwitchTo(s: Kernel, next: nat): (r: Kernel)
    requires Fits(s) && next < THREAD_COUNT
    ensures Fits(r)
  {
    if next == s.current then s
    else
      var s1 :=
        if s.current != NONE && s.threads[s.current].state.ThreadRunning?
        then SetThread(s, s.current, s.threads[s.current].(state := ThreadRunnable))
        else s;
      var t := s1.threads[next].(
        state := ThreadRunning,
        quantum := if s1.threads[next].quantum == 0 then QUANTUM_TICKS else s1.threads[next].quantum);
      SetThread(s1, next, t).(current := next)
  }

  function Tick(s: Kernel): (r: Kernel)
    requires Fits(s)
    ensures Fits(r)
  {
    var s1 := s.(ticks := (s.ticks + 1) % TWO64);
    if s.current == NONE then s1
    else
      var t := s.threads[s.current];
      var left := if t.quantum > 0 then t.quantum - 1 else 0;
      if left == 0
      then SetThread(s1, s.current, t.(quantum := QUANTUM_TICKS)).(resched := true)
      else SetThread(s1, s.current, t.(quantum := left))
  }

  function Ticks(s: Kernel, n: nat): (r: Kernel)
    requires Fits(s)
    ensures Fits(r)
    decreases n
  {
    if n == 0 then s else Ticks(Tick(s), n - 1)
  }

  /** `thread_resched_point`. Interrupts open once the request is consumed, so `w` timer
      ticks may still be charged to the outgoing thread before the switch. */
  function ReschedPoint(s: Kernel, w: nat): (r: Result<Kernel>)
    requires Fits(s)
    ensures r.Ok? ==> Fits(r.value)
  {
    var s1 := s.(resched := false);
    if !s.resched then Ok(s1)
    else
      var s2 := Ticks(s1, w);
      var next :- PickNext(s2.threads, s2.current);
      Ok(SwitchTo(s2, next))
  }

  /** The check every EL0-originated path makes before trusting `g_current_task`. */
  predicate CurrentTaskOk(s: Kernel)
    requires Fits(s)
  {
    s.currentTask != NONE && s.currentTask == s.current && s.threads[s.currentTask].kind.UserThread?
  }

  function CurrentUserSlot(s: Kernel): (r: Result<nat>)
    requires Fits(s)
    ensures r.Ok? ==> r.value == s.current < THREAD_COUNT
  {
    if CurrentTaskOk(s) then Ok(s.currentTask) else Panicked(InvalidCurrentTask)
  }

  function Wake(s: Kernel, slot: int, x0: u64): (r: Result<Kernel>)
    requires Fits(s)
    ensures r.Ok? ==> Fits(r.value) && r.value == s.(threads := r.value.threads)
  {
    if !(0 <= slot < THREAD_COUNT) then Panicked(WakeOutOfRange)
    else
      var t := s.threads[slot];
      if !t.kind.UserThread? then Panicked(WakeNotUser)
      else if t.state.ThreadStopped? || t.task.TaskDead? then Panicked(WakeDead)
      else
        Ok(SetThread(s, slot, t.(
          ctx := t.ctx.(x := t.ctx.x[0 := x0]), task := TaskRunnable, state := ThreadRunnable)))
  }

  /** `thread_user_trap_redirect`: park the trapped registers and go to the return step. */
  function Redirect(s: Kernel, tf: TrapFrame, reason: Reason): (r: Result<Kernel>)
    requires Fits(s)
    ensures r.Ok? ==> Fits(r.value) && r.value == s.(threads := r.value.threads)
  {
    if !CurrentTaskOk(s) then Panicked(RedirectWithoutTask)
    else if !InSandbox(tf.elr) then Panicked(TrapElrOutside)
    else
      Ok(SetThread(s, s.current, s.threads[s.current].(
        ctx := UserCtx(tf.x, tf.sp, tf.elr, tf.spsr), reason := reason)))
  }

  function ZeroRegs(): (x: Regs)
    ensures forall i :: 0 <= i < 31 ==> x[i] == 0
  {
    seq(31, _ => 0)
  }

  function UserTaskInit(t: Thread, name: Option<string>, entry: u64, sp: u64): Thread {
    Thread(t.cont, t.state, t.kind, t.quantum, UserCtx(ZeroRegs(), sp, entry, SPSR_EL0T_MASKED),
           TaskRunnable, NoReason, entry, sp, name, false)
  }

  /** `thread_user_restart`: the new kernel, and 0 or -1. */
  function Restart(s: Kernel, slot: u64): (r: (Kernel, int))
    requires Fits(s)
    ensures Fits(r.0) && r.0.build == s.build
  {
    if slot >= THREAD_COUNT then (s, -1)
    else
      var t := s.threads[slot];
      if !t.kind.UserThread? then (s, -1)
      else if !t.task.TaskDead? || !t.state.ThreadStopped? then (s, -1)
      else if t.entry == 0 || t.userSp == 0 || t.name.None? then (s, -1)
      else
        (SetThread(s, slot, UserTaskInit(t, t.name, t.entry, t.userSp).(state := ThreadRunnable))
         .(resched := true), 0)
  }

  /** The freshly initialised control block of a slot (`thread_init_slot`). */
  function InitSlot(kind: ThreadKind): Thread {
    Thread(Bootstrap, ThreadRunnable, kind, QUANTUM_TICKS, UserCtx(ZeroRegs(), 0, 0, 0),
           TaskDead, NoReason, 0, 0, None, false)
  }

  function InitThreads(b: Build): (ts: seq<Thread>)
    ensures |ts| == THREAD_COUNT
  {
    [ UserTaskInit(InitSlot(UserThread), Some("task_a"), b.entryA, STACK_TOP_A),
      UserTaskInit(InitSlot(UserThread), Some("task_b"), b.entryB, STACK_TOP_B),
      UserTaskInit(InitSlot(UserThread), Some("task_c"), b.entryC, STACK_TOP_C),
      InitSlot(IdleThread) ]
  }

  /** Bootstrapped user threads enter EL0 through here. */
  function EnterEl0(s: Kernel, slot: nat): (r: Kernel)
    requires Fits(s) && slot < THREAD_COUNT
    ensures Fits(r)
  {
    var t := s.threads[slot].(state := ThreadRunning, task := TaskRunning);
    SetThread(s, slot, t).(currentTask := slot, el0 := t.ctx)
  }

  /** What the thread that now owns the CPU does next: start, or go on from where its kernel
      context was saved, up to EL0 (or up to the wait inside the idle loop). */
  function Resume(s: Kernel): (r: Result<Kernel>)
    requires Fits(s) && s.current != NONE
    ensures r.Ok? ==> Fits(r.value)
  {
    var t := s.threads[s.current];
    match t.cont
    case Bootstrap =>
      if s.current == IDLE then Ok(SetThread(s, IDLE, t.(cont := InIdleLoop)))
      else if !t.kind.UserThread? then Panicked(InvalidUserThread)
      else Ok(EnterEl0(SetThread(s, s.current, t.(started := true)), s.current))
    case InIdleLoop => Ok(s)
    case InReturnStep =>
      if !t.kind.UserThread? then Panicked(ContinuationOnNonUser)
      else if t.state.ThreadStopped? || t.task.TaskDead? || t.task.TaskBlocked? then Panicked(DeadTaskResumed)
      else if !InSandbox(t.ctx.elr) then Panicked(ResumeElrOutside)
      else Ok(EnterEl0(SetThread(s, s.current, t.(reason := NoReason)), s.current))
  }
}
