/** The inductive invariant tying the wait slots, the task states and the scheduler's
    globals together, and its preservation by every atomic step. */
module Invariant {
  import opened Base
  import opened Memory
  import opened State
  import opened Threads
  import opened Ipc
  import opened Supervisor
  import opened Machine

  /** The places in the kernel that can name a sleeping task. */
  datatype WaitSlot = CallerOf(e: nat) | ReceiverOf(e: nat) | SupervisorWait

  function Named(s: Kernel, w: WaitSlot): int
    requires |s.eps| == EP_COUNT
  {
    match w
    case CallerOf(e) => if e < EP_COUNT then s.eps[e].caller else NONE
    case ReceiverOf(e) => if e < EP_COUNT then s.eps[e].receiver else NONE
    case SupervisorWait => s.waiter
  }

  /** The wait slots in use name exactly the tasks in `sleepers`, each once. */
  ghost predicate WaitsMatch(s: Kernel, sleepers: set<int>)
    requires |s.eps| == EP_COUNT
  {
    && (forall w :: Named(s, w) != NONE ==> Named(s, w) in sleepers)
    && (forall i :: i in sleepers ==> exists w :: Named(s, w) == i)
    && (forall v, w :: Named(s, v) == Named(s, w) != NONE ==> v == w)
  }

  function EntryOf(b: Build, i: int): u64 {
    if i == TASK_A then b.entryA else if i == TASK_B then b.entryB else b.entryC
  }

  function StackOf(i: int): u64 {
    if i == TASK_A then STACK_TOP_A else if i == TASK_B then STACK_TOP_B else STACK_TOP_C
  }

  function NameOf(i: int): string {
    if i == TASK_A then "task_a" else if i == TASK_B then "task_b" else "task_c"
  }

  predicate ThreadOk(b: Build, t: Thread, i: int) {
    && 1 <= t.quantum <= QUANTUM_TICKS
    && if i == IDLE then
         t.kind.IdleThread? && t.task.TaskDead? && !t.state.ThreadStopped? && !t.cont.InReturnStep?
       else
         && t.kind.UserThread?
         && (t.task.TaskDead? <==> t.state.ThreadStopped?)
         && InSandbox(t.ctx.elr)
         && InSandbox(t.entry) && t.entry == EntryOf(b, i)
         && t.userSp == StackOf(i)
         && t.name == Some(NameOf(i))
         && !t.cont.InIdleLoop?
  }

  predicate EndpointOk(ep: Endpoint) {
    && !(ep.hasPending && ep.receiver != NONE)
    && (ep.receiver != NONE ==> ep.receiver == ep.owner)
    && (ep.caller == NONE ==> ep == ClearCaller(ep))
    && (ep.receiver == NONE ==> ep == ClearReceiver(ep))
    && (!ep.hasPending ==> ep == ClearPending(ep))
    && (ep.owner == NONE ==> ep.caller == NONE && ep.receiver == NONE && !ep.hasPending)
  }

  function Owner(b: Build, e: nat): int {
    if e == EP_UART then TASK_B else if e == EP_BENCH && b.latency then TASK_C else NONE
  }

  predicate MailboxOk(s: Kernel) {
    && NONE <= s.death < IDLE
    && (s.waiter == NONE || s.waiter == TASK_C)
    && (s.waiter != NONE ==> s.death == NONE)
  }

  /** What holds at every point the proofs stop at, inside the kernel or out of it. */
  ghost predicate Common(s: Kernel) {
    && Fits(s)
    && s.current != NONE
    && 0 <= s.currentTask < IDLE
    && (s.current != IDLE ==> s.currentTask == s.current)
    && (forall i :: 0 <= i < THREAD_COUNT ==> ThreadOk(s.build, s.threads[i], i))
    && (forall e :: 0 <= e < EP_COUNT ==> EndpointOk(s.eps[e]) && s.eps[e].owner == Owner(s.build, e))
    && (forall i :: 0 <= i < IDLE && i != s.current && s.threads[i].cont.Bootstrap? ==>
          s.threads[i].reason.NoReason?)
    && MailboxOk(s)
  }

  function Blocked(s: Kernel): set<int>
    requires |s.threads| == THREAD_COUNT
  {
    set i | 0 <= i < IDLE && s.threads[i].task.TaskBlocked?
  }

  /** Exactly the current thread runs. */
  ghost predicate OneRunning(s: Kernel)
    requires |s.threads| == THREAD_COUNT
  {
    && (forall i :: 0 <= i < THREAD_COUNT ==> (s.threads[i].state.ThreadRunning? <==> i == s.current))
    && (forall i :: 0 <= i < IDLE ==> (s.threads[i].task.TaskRunning? <==> i == s.current))
  }

  predicate UserSelectable(s: Kernel, i: int)
    requires |s.threads| == THREAD_COUNT
  {
    0 <= i < IDLE && Selectable(s.threads[i])
  }

  /** The invariant at the atomic boundary: EL0 runs, or the idle loop waits. */
  ghost predicate Inv(s: Kernel) {
    && Common(s)
    && OneRunning(s)
    && WaitsMatch(s, Blocked(s))
    && (s.current != IDLE ==> s.threads[s.current].reason.NoReason?)
    && (s.current == IDLE ==> s.threads[IDLE].cont.InIdleLoop? && forall i :: !UserSelectable(s, i))
  }

  predicate IsBlock(r: Reason) {
    r.IpcBlock? || r.NotifyBlock?
  }

  /** A trap handler has redirected the current task. */
  ghost predicate Redirected(s: Kernel) {
    && Common(s)
    && OneRunning(s)
    && s.current != IDLE
    && !s.threads[s.current].reason.NoReason?
    && WaitsMatch(s, Blocked(s) + if IsBlock(s.threads[s.current].reason) then {s.current} else {})
  }

  /** The current task has been parked and nothing runs until the switch. */
  ghost predicate Parked(s: Kernel) {
    && Common(s)
    && s.current != IDLE
    && s.threads[s.current].cont.InReturnStep?
    && (forall i :: 0 <= i < THREAD_COUNT ==> !s.threads[i].state.ThreadRunning?)
    && (forall i :: 0 <= i < IDLE ==> !s.threads[i].task.TaskRunning?)
    && WaitsMatch(s, Blocked(s))
  }

  lemma BootInv(b: Build, mem: Mem)
    requires b.LayoutOk()
    ensures Inv(Boot(b, mem))
  {
    var s := Boot(b, mem);
    assert Blocked(s) == {};
  }

  /** The parts of the state the invariant does not read. */
  ghost predicate SameKernel(s: Kernel, r: Kernel) {
    r == s.(mem := r.mem, uart := r.uart, resched := r.resched, el0 := r.el0)
  }

  lemma SameKernelKeeps(s: Kernel, r: Kernel)
    requires SameKernel(s, r) && |s.threads| == THREAD_COUNT && |s.eps| == EP_COUNT
    ensures Blocked(r) == Blocked(s)
    ensures Common(s) ==> Common(r)
    ensures Inv(s) ==> Inv(r)
    ensures Parked(s) ==> Parked(r)
  {
    assert forall w :: Named(r, w) == Named(s, w);
    assert forall i :: UserSelectable(r, i) == UserSelectable(s, i);
  }

  // ---------------------------------------------------------------- ticks

  /** A tick touches the clock, the request flag, and the current thread's quantum. */
  lemma TickFrame(s: Kernel)
    requires Common(s)
    ensures var r := Tick(s);
            && r == s.(ticks := r.ticks, resched := r.resched, threads := r.threads)
            && (forall i :: 0 <= i < THREAD_COUNT ==>
                  r.threads[i] == s.threads[i].(quantum := r.threads[i].quantum)
                  && 1 <= r.threads[i].quantum <= QUANTUM_TICKS)
            && Blocked(r) == Blocked(s)
            && Common(r)
  {
    var r := Tick(s);
    assert forall i :: 0 <= i < THREAD_COUNT && i != s.current ==> r.threads[i] == s.threads[i];
    assert 1 <= s.threads[s.current].quantum <= QUANTUM_TICKS by {
      assert ThreadOk(s.build, s.threads[s.current], s.current);
    }
  }

  lemma TickKeepsInv(s: Kernel)
    requires Inv(s)
    ensures Inv(Tick(s))
  {
    var r := Tick(s);
    TickFrame(s);
    assert forall w :: Named(r, w) == Named(s, w);
    assert forall i :: UserSelectable(r, i) == UserSelectable(s, i);
  }

  lemma TickKeepsParked(s: Kernel)
    requires Parked(s)
    ensures Parked(Tick(s))
  {
    var r := Tick(s);
    TickFrame(s);
    assert forall w :: Named(r, w) == Named(s, w);
  }

  lemma {:induction false} TicksKeep(s: Kernel, n: nat)
    requires Parked(s) || Inv(s)
    ensures Parked(s) ==> Parked(Ticks(s, n))
    ensures Inv(s) ==> Inv(Ticks(s, n))
    decreases n
  {
    if n > 0 {
      if Parked(s) {
        TickKeepsParked(s);
      }
      if Inv(s) {
        TickKeepsInv(s);
      }
      TicksKeep(Tick(s), n - 1);
    }
  }

  // ---------------------------------------------------------------- wait slots

  lemma AddSleeper(s: Kernel, r: Kernel, sleepers: set<int>, w0: WaitSlot, i: int)
    requires |s.eps| == |r.eps| == EP_COUNT
    requires WaitsMatch(s, sleepers) && i !in sleepers && NONE !in sleepers
    requires Named(s, w0) == NONE && Named(r, w0) == i != NONE
    requires forall w :: w != w0 ==> Named(r, w) == Named(s, w)
    ensures WaitsMatch(r, sleepers + {i})
  {
    forall j | j in sleepers + {i} ensures exists w :: Named(r, w) == j {
      if j != i {
        var w :| Named(s, w) == j;
        assert w != w0 && Named(r, w) == j;
      }
    }
  }

  lemma RemoveSleeper(s: Kernel, r: Kernel, sleepers: set<int>, w0: WaitSlot)
    requires |s.eps| == |r.eps| == EP_COUNT
    requires WaitsMatch(s, sleepers)
    requires Named(s, w0) != NONE && Named(r, w0) == NONE
    requires forall w :: w != w0 ==> Named(r, w) == Named(s, w)
    ensures WaitsMatch(r, sleepers - {Named(s, w0)})
  {
    forall j | j in sleepers - {Named(s, w0)} ensures exists w :: Named(r, w) == j {
      var w :| Named(s, w) == j;
      assert w != w0 && Named(r, w) == j;
    }
  }

  // ---------------------------------------------------------------- trap handlers

  /** What every handler owes: it stays in `Inv` when it answers at once, reaches
      `Redirected` when it blocks, and can only stop on an ELR outside the sandbox. */
  ghost predicate Handled(s: Kernel, tf: TrapFrame, out: Result<(Kernel, Leave)>) {
    match out
    case Ok((r, ToUser(_))) => Inv(r) && r.current == s.current
    case Ok((r, ToKernel)) => Redirected(r) && r.current == s.current && InSandbox(tf.elr)
    case Panicked(p) => p == TrapElrOutside && !InSandbox(tf.elr)
  }

  ghost predicate UserRunning(s: Kernel) {
    Inv(s) && s.current != IDLE
  }

  lemma PlaceInv(s: Kernel, e: nat, src: u64, len: nat, replyPtr: u64, replyCap: u64, override: u64)
    requires UserRunning(s) && 0 < e < EP_COUNT && len <= IPC_MSG_SIZE && RangeOk(src, len)
    requires BufferOk(replyPtr, replyCap)
    requires s.eps[e].owner != NONE && !s.eps[e].hasPending && s.eps[e].caller == NONE
    ensures var out := Place(s, e, SetCaller(s.eps[e], s.current, replyPtr, replyCap, override), src, len);
            out.Ok? && Common(out.value) && OneRunning(out.value) && out.value.current == s.current
            && out.value.threads[s.current] == s.threads[s.current]
            && WaitsMatch(out.value, Blocked(out.value) + {s.current})
  {
    var cur := s.current;
    var ep := SetCaller(s.eps[e], cur, replyPtr, replyCap, override);
    var mid := SetEp(s, e, ep);
    AddSleeper(s, mid, Blocked(s), CallerOf(e), cur);
    if ep.receiver != NONE {
      assert Named(s, ReceiverOf(e)) == ep.receiver;
      DeliverInv(s, e, src, len, ep);
    } else {
      var r := Place(s, e, ep, src, len).value;
      assert forall w :: Named(r, w) == Named(mid, w);
      SetEpKeeps(s, e, SetPending(ep, Load(s.mem, src, len)), false);
    }
  }

  /** A delivery is a copy, a wake and a cleared receiver. */
  lemma DeliverEffect(s: Kernel, e: nat, src: u64, len: nat, ep: Endpoint)
    requires UserRunning(s) && 0 < e < EP_COUNT && len <= IPC_MSG_SIZE && RangeOk(src, len)
    requires EndpointFits(ep) && ep.receiver != NONE && ep.receiver in Blocked(s)
    ensures var out := Place(s, e, ep, src, len);
            && out.Ok?
            && var woken := Wake(s.(mem := out.value.mem), ep.receiver, Min(len, ep.bufCap));
               woken.Ok? && out.value == SetEp(woken.value, e, ClearReceiver(ep)).(resched := true)
  {
    hide CopyWithin, WaitsMatch;
    assert ThreadOk(s.build, s.threads[ep.receiver], ep.receiver);
  }

  /** Handing the request to the sleeping receiver: the receiver leaves the sleepers. */
  lemma DeliverInv(s: Kernel, e: nat, src: u64, len: nat, ep: Endpoint)
    requires UserRunning(s) && 0 < e < EP_COUNT && len <= IPC_MSG_SIZE && RangeOk(src, len)
    requires EndpointFits(ep) && EndpointOk(ClearReceiver(ep)) && ep.owner == s.eps[e].owner
    requires ep.receiver == s.eps[e].receiver && ep.receiver in Blocked(s)
    requires WaitsMatch(SetEp(s, e, ep), Blocked(s) + {s.current})
    ensures var out := Place(s, e, ep, src, len);
            out.Ok? && Common(out.value) && OneRunning(out.value) && out.value.current == s.current
            && out.value.threads[s.current] == s.threads[s.current]
            && WaitsMatch(out.value, Blocked(out.value) + {s.current})
  {
    var i := ep.receiver;
    DeliverEffect(s, e, src, len, ep);
    hide Place, Wake, CopyWithin, RangeOk, ThreadOk, MailboxOk, EndpointFits;
    var r := Place(s, e, ep, src, len).value;
    var s1 := s.(mem := r.mem);
    SameKernelKeeps(s, s1);
    WakeKeeps(s1, i, Min(len, ep.bufCap));
    SetEpKeeps(Wake(s1, i, Min(len, ep.bufCap)).value, e, ClearReceiver(ep), true);
    DeliverWaits(s, r, e, ep);
    assert Blocked(r) + {s.current} == Blocked(s) + {s.current} - {i};
  }

  lemma DeliverWaits(s: Kernel, r: Kernel, e: nat, ep: Endpoint)
    requires |s.eps| == EP_COUNT && |s.threads| == THREAD_COUNT && 0 < e < EP_COUNT
    requires ep.receiver != NONE && WaitsMatch(SetEp(s, e, ep), Blocked(s) + {s.current})
    requires r.eps == s.eps[e := ClearReceiver(ep)] && r.waiter == s.waiter
    ensures WaitsMatch(r, Blocked(s) + {s.current} - {ep.receiver})
  {
    var mid := SetEp(s, e, ep);
    assert Named(mid, ReceiverOf(e)) == ep.receiver && Named(r, ReceiverOf(e)) == NONE;
    RemoveSleeper(mid, r, Blocked(s) + {s.current}, ReceiverOf(e));
  }

  lemma SetEpKeeps(s: Kernel, e: nat, ep: Endpoint, resched: bool)
    requires Common(s) && e < EP_COUNT && EndpointFits(ep) && EndpointOk(ep) && ep.owner == s.eps[e].owner
    ensures var r := SetEp(s, e, ep).(resched := resched || s.resched);
            Common(r) && Blocked(r) == Blocked(s) && (OneRunning(s) ==> OneRunning(r))
  {
  }

  /** Waking a sleeper touches nothing but that task: its x0, and its two states. */
  lemma WakeKeeps(s: Kernel, i: int, x0: u64)
    requires Common(s) && i in Blocked(s) && !s.threads[i].state.ThreadRunning?
    ensures Wake(s, i, x0).Ok?
    ensures var r := Wake(s, i, x0).value;
            && Common(r)
            && r == s.(threads := r.threads)
            && r.threads == s.threads[i := r.threads[i]]
            && r.threads[i].task.TaskRunnable? && r.threads[i].state.ThreadRunnable?
            && r.threads[i].cont == s.threads[i].cont
            && Blocked(r) == Blocked(s) - {i}
            && (OneRunning(s) ==> OneRunning(r))
  {
  }

  lemma SubmitInv(s: Kernel, tf: TrapFrame, e: nat, src: u64, len: nat,
                  replyPtr: u64, replyCap: u64, override: u64)
    requires UserRunning(s) && 0 < e < EP_COUNT && len <= IPC_MSG_SIZE && RangeOk(src, len)
    requires BufferOk(replyPtr, replyCap)
    requires s.eps[e].owner != NONE && !s.eps[e].hasPending && s.eps[e].caller == NONE
    ensures Handled(s, tf, Submit(s, tf, e, src, len, replyPtr, replyCap, override))
  {
    PlaceInv(s, e, src, len, replyPtr, replyCap, override);
    var placed := Place(s, e, SetCaller(s.eps[e], s.current, replyPtr, replyCap, override), src, len).value;
    RedirectInv(placed, tf, IpcBlock);
  }

  lemma RedirectInv(s: Kernel, tf: TrapFrame, reason: Reason)
    requires Common(s) && OneRunning(s) && s.current != IDLE && !reason.NoReason?
    requires WaitsMatch(s, Blocked(s) + if IsBlock(reason) then {s.current} else {})
    ensures Handled(s, tf, RedirectOnly(s, tf, reason))
  {
    if InSandbox(tf.elr) {
      var r := Redirect(s, tf, reason).value;
      assert Blocked(r) == Blocked(s);
      assert forall w :: Named(r, w) == Named(s, w);
    }
  }

  lemma CallInv(s: Kernel, tf: TrapFrame)
    requires UserRunning(s)
    ensures Handled(s, tf, Call(s, tf))
  {
    if Call(s, tf) != Refuse(s) {
      SubmitInv(s, tf, tf.x[0], tf.x[1], tf.x[2], tf.x[3], tf.x[4], 0);
    }
  }

  lemma WriteInv(s: Kernel, tf: TrapFrame)
    requires UserRunning(s)
    ensures Handled(s, tf, Write(s, tf))
  {
    var out := Write(s, tf);
    if out != Refuse(s) {
      if s.build.micro && s.current == TASK_A {
        SubmitInv(s, tf, EP_UART, tf.x[0], tf.x[1], 0, 0, tf.x[1]);
      } else {
        assert forall w :: Named(out.value.0, w) == Named(s, w);
        assert Blocked(out.value.0) == Blocked(s);
      }
    }
  }

  lemma RecvInv(s: Kernel, tf: TrapFrame)
    requires UserRunning(s)
    ensures Handled(s, tf, Recv(s, tf))
  {
    var out := Recv(s, tf);
    if out != Refuse(s) {
      var e := tf.x[0];
      if s.eps[e].hasPending {
        assert forall w :: Named(out.value.0, w) == Named(s, w);
        assert Blocked(out.value.0) == Blocked(s);
      } else {
        ListenInv(s, e, tf.x[1], tf.x[2]);
        RedirectInv(SetEp(s, e, SetReceiver(s.eps[e], s.current, tf.x[1], tf.x[2])), tf, IpcBlock);
      }
    }
  }

  /** The owner registers itself as the sleeping receiver. */
  lemma ListenInv(s: Kernel, e: nat, ptr: u64, cap: u64)
    requires UserRunning(s) && 0 < e < EP_COUNT && RangeOk(ptr, cap)
    requires s.eps[e].owner == s.current && !s.eps[e].hasPending && s.eps[e].receiver == NONE
    ensures var r := SetEp(s, e, SetReceiver(s.eps[e], s.current, ptr, cap));
            Common(r) && OneRunning(r) && WaitsMatch(r, Blocked(r) + {s.current})
  {
    var r := SetEp(s, e, SetReceiver(s.eps[e], s.current, ptr, cap));
    AddSleeper(s, r, Blocked(s), ReceiverOf(e), s.current);
    assert Blocked(r) == Blocked(s);
  }

  lemma ReplyInv(s: Kernel, tf: TrapFrame)
    requires UserRunning(s)
    ensures Handled(s, tf, Reply(s, tf))
  {
    if Reply(s, tf) != Refuse(s) {
      var e := tf.x[0];
      var ep := s.eps[e];
      assert Named(s, CallerOf(e)) == ep.caller;
      var copied := Min(tf.x[2], ep.replyCap);
      var m := if copied > 0 then CopyWithin(s.mem, ep.replyPtr, tf.x[1], copied) else s.mem;
      var x0 := if ep.override != 0 then ep.override else copied;
      AnswerInv(s, s.(mem := m), e, x0);
    }
  }

  /** Waking the caller of endpoint `e` with its answer. */
  lemma AnswerInv(s: Kernel, s1: Kernel, e: nat, x0: u64)
    requires UserRunning(s) && SameKernel(s, s1) && e < EP_COUNT && s.eps[e].caller in Blocked(s)
    ensures var out := Wake(s1, s.eps[e].caller, x0);
            out.Ok? && Inv(SetEp(out.value, e, ClearCaller(s.eps[e])).(resched := true))
    ensures Wake(s1, s.eps[e].caller, x0).value.current == s.current
  {
    var ep := s.eps[e];
    SameKernelKeeps(s, s1);
    WakeKeeps(s1, ep.caller, x0);
    var s2 := Wake(s1, ep.caller, x0).value;
    SetEpKeeps(s2, e, ClearCaller(ep), true);
    var r := SetEp(s2, e, ClearCaller(ep)).(resched := true);
    assert Named(s, CallerOf(e)) == ep.caller && Named(r, CallerOf(e)) == NONE;
    RemoveSleeper(s, r, Blocked(s), CallerOf(e));
  }

  lemma WaitInv(s: Kernel, tf: TrapFrame)
    requires UserRunning(s)
    ensures Handled(s, tf, Wait(s, tf))
  {
    if s.current == TASK_C {
      if s.death != NONE {
        var r := Wait(s, tf).value.0;
        assert forall w :: Named(r, w) == Named(s, w);
        assert Blocked(r) == Blocked(s);
      } else {
        assert s.waiter == Named(s, SupervisorWait) == NONE;
        var r := s.(waiter := TASK_C);
        AddSleeper(s, r, Blocked(s), SupervisorWait, TASK_C);
        assert Blocked(r) == Blocked(s);
        RedirectInv(r, tf, NotifyBlock);
      }
    }
  }

  lemma RestartInv(s: Kernel, tf: TrapFrame)
    requires UserRunning(s)
    ensures Handled(s, tf, RestartCall(s, tf.x[0]))
  {
    var out := RestartCall(s, tf.x[0]);
    var r := out.value.0;
    assert forall w :: Named(r, w) == Named(s, w);
    assert Blocked(r) == Blocked(s);
  }

  lemma DispatchInv(s: Kernel, tf: TrapFrame)
    requires UserRunning(s)
    ensures Handled(s, tf, Dispatch(s, tf))
  {
    var nr := tf.x[8];
    if nr == SYS_YIELD {
      RedirectInv(s, tf, Yield);
    } else if nr == SYS_TIME_TICKS {
    } else if nr == SYS_WRITE {
      WriteInv(s, tf);
    } else if nr == SYS_EXIT {
      RedirectInv(s, tf, Exit);
    } else if nr == SYS_IPC_CALL {
      CallInv(s, tf);
    } else if nr == SYS_IPC_RECV {
      RecvInv(s, tf);
    } else if nr == SYS_IPC_REPLY {
      ReplyInv(s, tf);
    } else if nr == SYS_SUPERVISE_WAIT {
      WaitInv(s, tf);
    } else if nr == SYS_TASK_RESTART {
      RestartInv(s, tf);
    }
  }

  lemma HandleTrapInv(s: Kernel, tf: TrapFrame)
    requires UserRunning(s)
    ensures Handled(s, tf, HandleTrap(s, tf))
  {
    if !IsSvc(tf) {
      var line := FaultLine(TaskName(s.threads[s.current]), tf.esr, tf.elr, tf.far);
      var r := s.(uart := s.uart + [line]);
      assert forall w :: Named(r, w) == Named(s, w);
      assert Blocked(r) == Blocked(s);
      RedirectInv(r, tf, Fault);
    } else {
      DispatchInv(s, tf);
    }
  }

  // ---------------------------------------------------------------- the return step

  ghost predicate DeadParked(s: Kernel) {
    Parked(s) && s.threads[s.current].task.TaskDead?
  }

  /** Cleaning one endpoint after a death: the dying task is in no wait slot, so only the
      caller of an endpoint it owned can be affected, and that caller is safe to wake. */
  lemma DeathAtInv(s: Kernel, e: nat)
    requires DeadParked(s) && e < EP_COUNT
    ensures var out := DeathAt(s, s.current, e);
            out.Ok? && DeadParked(out.value) && out.value.current == s.current
            && out.value.waiter == s.waiter && out.value.death == s.death
    ensures s.eps[e].caller != s.current && s.eps[e].receiver != s.current
  {
    var ep := s.eps[e];
    assert Named(s, CallerOf(e)) == ep.caller && Named(s, ReceiverOf(e)) == ep.receiver;
    if ep.owner == s.current && ep.caller != NONE {
      AbortCaller(s, e);
    } else {
      assert s.eps[e := ep] == s.eps;
      assert DeathAt(s, s.current, e) == Ok(s);
    }
  }

  lemma AbortCaller(s: Kernel, e: nat)
    requires DeadParked(s) && e < EP_COUNT && s.eps[e].caller in Blocked(s)
    ensures var out := Wake(s, s.eps[e].caller, MINUS_ONE);
            out.Ok? && DeadParked(SetEp(out.value, e, ClearPending(ClearCaller(s.eps[e]))).(resched := true))
    ensures Wake(s, s.eps[e].caller, MINUS_ONE).value.current == s.current
  {
    var ep := s.eps[e];
    WakeKeeps(s, ep.caller, MINUS_ONE);
    var s1 := Wake(s, ep.caller, MINUS_ONE).value;
    SetEpKeeps(s1, e, ClearPending(ClearCaller(ep)), true);
    var r := SetEp(s1, e, ClearPending(ClearCaller(ep))).(resched := true);
    assert Named(s, CallerOf(e)) == ep.caller && Named(r, CallerOf(e)) == NONE;
    RemoveSleeper(s, r, Blocked(s), CallerOf(e));
  }

  lemma {:induction false} DeathFromInv(s: Kernel, e: nat)
    requires DeadParked(s) && e <= EP_COUNT
    ensures var out := DeathFrom(s, s.current, e);
            out.Ok? && DeadParked(out.value) && out.value.current == s.current
    decreases EP_COUNT - e
  {
    if e < EP_COUNT {
      DeathAtInv(s, e);
      DeathFromInv(DeathAt(s, s.current, e).value, e + 1);
    }
  }

  lemma NoteDeathInv(s: Kernel)
    requires DeadParked(s)
    ensures var out := NoteDeath(s, s.current);
            out.Ok? && Parked(out.value) && out.value.current == s.current
  {
    assert Named(s, SupervisorWait) == s.waiter;
    if s.waiter != NONE {
      WakeKeeps(s, s.waiter, s.current);
      var r := NoteDeath(s, s.current).value;
      RemoveSleeper(s, r, Blocked(s), SupervisorWait);
    } else {
      var r := NoteDeath(s, s.current).value;
      assert forall w :: Named(r, w) == Named(s, w);
      assert Blocked(r) == Blocked(s);
    }
  }

  lemma ParkLiveEffect(s: Kernel)
    requires Redirected(s) && !s.threads[s.current].reason.Exit? && !s.threads[s.current].reason.Fault?
    ensures var t := s.threads[s.current];
            Park(s) == Ok(s.(threads := s.threads[s.current := t.(
              cont := InReturnStep, state := ThreadRunnable,
              task := if IsBlock(t.reason) then TaskBlocked else TaskRunnable)]))
  {
    hide DeathFrom, NoteDeath, MarkDead;
  }

  lemma ParkLive(s: Kernel)
    requires Redirected(s) && !s.threads[s.current].reason.Exit? && !s.threads[s.current].reason.Fault?
    ensures Park(s).Ok? && Parked(Park(s).value) && Park(s).value.current == s.current
  {
    ParkLiveEffect(s);
    hide Park, EndpointOk, EndpointFits, MailboxOk;
    var r := Park(s).value;
    assert Blocked(r) == Blocked(s) + if IsBlock(s.threads[s.current].reason) then {s.current} else {};
    assert forall w :: Named(r, w) == Named(s, w);
  }

  lemma MarkDeadInv(s: Kernel)
    requires Redirected(s) && !IsBlock(s.threads[s.current].reason)
    ensures DeadParked(MarkDead(s))
  {
    var r := MarkDead(s);
    assert Blocked(r) == Blocked(s);
    assert forall w :: Named(r, w) == Named(s, w);
  }

  lemma ParkInv(s: Kernel)
    requires Redirected(s)
    ensures Park(s).Ok? && Parked(Park(s).value) && Park(s).value.current == s.current
  {
    if s.threads[s.current].reason.Exit? || s.threads[s.current].reason.Fault? {
      MarkDeadInv(s);
      DeathFromInv(MarkDead(s), 0);
      NoteDeathInv(DeathFrom(MarkDead(s), s.current, 0).value);
    } else {
      ParkLive(s);
    }
  }

  /** From a parked kernel the idle thread is always there to be picked. */
  lemma PickOk(s: Kernel)
    requires Common(s)
    ensures PickNext(s.threads, s.current).Ok?
  {
    assert Selectable(s.threads[IDLE]);
  }

  lemma {:induction false} ScanMisses(ts: seq<Thread>, cur: int, start: nat, i: nat, k: nat)
    requires |ts| > 0 && i <= k <= |ts| && Scan(ts, cur, start, i) == NONE
    ensures !Candidate(ts, cur, (start + k) % |ts|)
    decreases k - i
  {
    if i < k {
      ScanMisses(ts, cur, start, i + 1, k);
    }
  }

  /** Falling through to the idle slot means no user slot is selectable. */
  lemma PickIdleMeansNone(s: Kernel)
    requires Common(s) && PickNext(s.threads, s.current) == Ok(IDLE)
    ensures forall i :: !UserSelectable(s, i)
  {
    forall i | UserSelectable(s, i) ensures false {
      if i != s.current {
        var k := if i > s.current then i - s.current else i + THREAD_COUNT - s.current;
        ScanMisses(s.threads, s.current, s.current, 1, k);
      }
    }
  }

  /** The kernel between the switch and the entry into EL0 (or the idle wait). */
  ghost predicate Switched(s: Kernel) {
    && Common(s.(currentTask := if s.current != IDLE then s.current else s.currentTask))
    && 0 <= s.currentTask < IDLE
    && (forall i :: 0 <= i < THREAD_COUNT && s.threads[i].state.ThreadRunning? ==> i == s.current)
    && (s.current == IDLE ==> s.threads[IDLE].state.ThreadRunning?)
    && (forall i :: 0 <= i < IDLE ==> !s.threads[i].task.TaskRunning?)
    && WaitsMatch(s, Blocked(s))
    && Selectable(s.threads[s.current])
    && (s.threads[s.current].cont.Bootstrap? && s.current != IDLE ==> s.threads[s.current].reason.NoReason?)
    && (s.current == IDLE ==> forall i :: !UserSelectable(s, i))
  }

  /** With nobody running and no quantum empty, the switch changes no more than this. */
  lemma SwitchEffect(s: Kernel, next: nat)
    requires Parked(s) && next < THREAD_COUNT
    ensures SwitchTo(s, next) == s.(current := next, threads := SwitchTo(s, next).threads)
    ensures SwitchTo(s, next).threads ==
              if next == s.current then s.threads else s.threads[next := s.threads[next].(state := ThreadRunning)]
  {
    assert ThreadOk(s.build, s.threads[next], next);
  }

  lemma SwitchCommon(s: Kernel, r: Kernel, next: nat)
    requires Parked(s) && next < THREAD_COUNT && Selectable(s.threads[next])
    requires r == s.(current := next, threads := r.threads)
    requires r.threads ==
               if next == s.current then s.threads else s.threads[next := s.threads[next].(state := ThreadRunning)]
    ensures Common(r.(currentTask := if next != IDLE then next else s.currentTask))
    ensures next != IDLE && r.threads[next].cont.Bootstrap? ==> r.threads[next].reason.NoReason?
  {
    hide EndpointOk, EndpointFits;
  }

  lemma SwitchParked(s: Kernel, next: nat)
    requires Parked(s) && PickNext(s.threads, s.current) == Ok(next)
    ensures Switched(SwitchTo(s, next)) && SwitchTo(s, next).current == next
  {
    if next == IDLE {
      PickIdleMeansNone(s);
    }
    SwitchEffect(s, next);
    var r := SwitchTo(s, next);
    SwitchCommon(s, r, next);
    hide PickNext, SwitchTo;
    assert Blocked(r) == Blocked(s);
    assert forall w :: Named(r, w) == Named(s, w);
    assert forall i :: i != next ==> UserSelectable(r, i) == UserSelectable(s, i);
  }

  lemma ResumeSwitched(s: Kernel)
    requires Switched(s)
    ensures Resume(s).Ok? && Inv(Resume(s).value) && Resume(s).value.current == s.current
  {
    if s.current == IDLE {
      var r := Resume(s).value;
      assert Blocked(r) == Blocked(s);
      assert forall w :: Named(r, w) == Named(s, w);
      assert forall i :: UserSelectable(r, i) == UserSelectable(s, i);
    } else {
      ResumeUser(s);
    }
  }

  lemma ResumeUser(s: Kernel)
    requires Switched(s) && s.current != IDLE
    ensures Resume(s).Ok? && Inv(Resume(s).value) && Resume(s).value.current == s.current
  {
    var r := Resume(s).value;
    assert Blocked(r) == Blocked(s);
    assert forall w :: Named(r, w) == Named(s, w);
  }

  lemma SwitchAndResumeInv(s: Kernel, w: nat)
    requires (Parked(s) && s.resched) || (Inv(s) && s.current == IDLE)
    ensures SwitchAndResume(s, w).Ok? && Inv(SwitchAndResume(s, w).value)
  {
    var s1 := s.(resched := false);
    SameKernelKeeps(s, s1);
    if s.resched {
      TicksKeep(s1, w);
      var s2 := Ticks(s1, w);
      TicksKeepCurrent(s1, w);
      PickOk(s2);
      var next := PickNext(s2.threads, s2.current).value;
      if Parked(s) {
        SwitchParked(s2, next);
        ResumeSwitched(SwitchTo(s2, next));
      } else {
        assert !UserSelectable(s2, next);
      }
    }
  }

  // ---------------------------------------------------------------- steps and runs

  /** What the invariant needs of EL0: a trap comes from a task running inside the sandbox. */
  predicate TrapInside(e: Event) {
    e.Trap? ==> InSandbox(e.tf.elr)
  }

  lemma TrapStepInv(s: Kernel, tf: TrapFrame, w: nat)
    requires UserRunning(s)
    ensures TrapStep(s, tf, w).Ok? ==> Inv(TrapStep(s, tf, w).value)
    ensures TrapStep(s, tf, w).Panicked? ==>
              !InSandbox(tf.elr) && TrapStep(s, tf, w).reason == TrapElrOutside
  {
    HandleTrapInv(s, tf);
    var out := HandleTrap(s, tf);
    if out.Ok? {
      var (s1, how) := out.value;
      if how.ToUser? {
        SameKernelKeeps(s1, TrapStep(s, tf, w).value);
      } else {
        ParkInv(s1);
        SameKernelKeeps(Park(s1).value, Park(s1).value.(resched := true));
        SwitchAndResumeInv(Park(s1).value.(resched := true), w);
      }
    }
  }

  lemma StepInv(s: Kernel, e: Event)
    requires Inv(s) && Enabled(s, e)
    ensures Step(s, e).Ok? ==> Inv(Step(s, e).value)
    ensures Step(s, e).Panicked? ==> e.Trap? && !TrapInside(e) && Step(s, e).reason == TrapElrOutside
  {
    match e
    case Trap(mem, tf, w) =>
      SameKernelKeeps(s, s.(mem := mem));
      TrapStepInv(s.(mem := mem), tf, w);
    case TimerTick => TickKeepsInv(s);
    case IdlePass(w) => SwitchAndResumeInv(s, w);
  }
}
