/** The kernel as it runs: global variables that handlers update in place. Every method is
    proved against the state transformer of the same name. */
module KernelGlobals {
  import opened Base
  import opened Memory
  import opened State
  import T = Threads
  import I = Ipc
  import S = Supervisor
  import M = Machine
  import opened Invariant

  /** A copy loop's next element, filling `b` from the front with `a`. */
  lemma PrefixNext<A>(a: seq<A>, b: seq<A>, i: nat)
    requires i < |a| <= |b|
    ensures (a[..i] + b[i..])[i := a[i]] == a[..i + 1] + b[i + 1..]
  {
  }

  /** The same at an offset into a larger store. */
  lemma StoreNext<A>(m: seq<A>, at: nat, a: seq<A>, i: nat)
    requires i < |a| && at + i < |m|
    ensures (m[..at] + a[..i] + m[at + i..])[at + i := a[i]] == m[..at] + a[..i + 1] + m[at + i + 1..]
  {
  }

  lemma PlaceAfterSet(s: Kernel, e: nat, ep: Endpoint, src: u64, len: nat)
    requires Fits(s) && e < EP_COUNT && EndpointFits(ep) && len <= IPC_MSG_SIZE && RangeOk(src, len)
    ensures I.Place(I.SetEp(s, e, ep), e, ep, src, len) == I.Place(s, e, ep, src, len)
  {
    hide CopyWithin;
    var s1 := I.SetEp(s, e, ep);
    if ep.receiver != NONE {
      assert s1.eps[e := I.ClearReceiver(ep)] == s.eps[e := I.ClearReceiver(ep)];
    } else {
      var queued := I.SetPending(ep, Load(s.mem, src, len));
      assert s1.eps[e := queued] == s.eps[e := queued];
    }
  }

  /** The cleanup of an endpoint, told from the endpoint as it is when its caller is looked at. */
  lemma CleanAfterSet(s: Kernel, e: nat, ep: Endpoint, slot: nat)
    requires Fits(s) && e < EP_COUNT && EndpointFits(ep)
    requires ep == if s.eps[e].receiver == slot then I.ClearReceiver(s.eps[e]) else s.eps[e]
    ensures var s1 := I.SetEp(s, e, ep);
            I.DeathAt(s, slot, e) ==
              if ep.owner == slot && ep.caller != NONE then
                match T.Wake(s1, ep.caller, MINUS_ONE)
                case Panicked(p) => Panicked(p)
                case Ok(k) => Ok(I.SetEp(k, e, I.ClearPending(I.ClearCaller(ep))).(resched := true))
              else if ep.caller == slot then Ok(I.SetEp(s1, e, I.ClearPending(I.ClearCaller(ep))))
              else Ok(s1)
  {
    var done := I.ClearPending(I.ClearCaller(ep));
    assert s.eps[e := ep][e := done] == s.eps[e := done];
  }

  class Globals {
    const build: Build
    const threads: array<Thread>
    var current: int
    var currentTask: int
    var ticks: u64
    var resched: bool
    const eps: array<Endpoint>
    var death: int
    var waiter: int
    const mem: array<byte>
    var uart: seq<UartItem>
    var el0: UserCtx

    /** The value of all globals together. */
    ghost function View(): Kernel
      reads this, threads, eps, mem
      requires mem.Length == SANDBOX_SIZE
    {
      Kernel(build, threads[..], current, currentTask, ticks, resched, eps[..], death, waiter, mem[..],
             uart, el0)
    }

    ghost predicate Valid()
      reads this, threads, eps, mem
    {
      mem.Length == SANDBOX_SIZE && Fits(View())
    }

    /** The handler behaved as `r` says: same new state, or the same panic. */
    ghost predicate Did(r: Result<Kernel>, o: Outcome)
      reads this, threads, eps, mem
    {
      match r
      case Ok(k) => o == Done && Valid() && View() == k
      case Panicked(p) => o == Halted(p)
    }

    /** As `Did`, for handlers that also decide how the trap is left. */
    ghost predicate Left(r: Result<(Kernel, Leave)>, o: Outcome, out: Leave)
      reads this, threads, eps, mem
    {
      match r
      case Ok(p) => o == Done && out == p.1 && Valid() && View() == p.0
      case Panicked(p) => o == Halted(p)
    }

    /** The globals as `kernel_main` initialises them; the sandbox holds what was loaded there. */
    constructor (b: Build, loaded: Mem)
      ensures fresh(threads) && fresh(eps) && fresh(mem)
      ensures Valid() && View() == M.Initial(b, loaded)
    {
      build := b;
      threads := new Thread[THREAD_COUNT](_ => T.InitSlot(UserThread));
      eps := new Endpoint[EP_COUNT](_ => I.InitEndpoint(NONE));
      mem := new byte[SANDBOX_SIZE](i requires 0 <= i < SANDBOX_SIZE => loaded[i]);
      uart, el0 := [], UserCtx(T.ZeroRegs(), 0, 0, 0);
      ticks, resched, current, currentTask := 0, false, NONE, NONE;
      death, waiter := NONE, NONE;
      new;
      assert mem[..] == loaded;
      threads[TASK_A] := T.UserTaskInit(threads[TASK_A], Some("task_a"), b.entryA, STACK_TOP_A);
      threads[TASK_B] := T.UserTaskInit(threads[TASK_B], Some("task_b"), b.entryB, STACK_TOP_B);
      threads[TASK_C] := T.UserTaskInit(threads[TASK_C], Some("task_c"), b.entryC, STACK_TOP_C);
      threads[IDLE] := T.InitSlot(IdleThread);
      eps[EP_UART] := eps[EP_UART].(owner := TASK_B);
      if b.latency {
        eps[EP_BENCH] := eps[EP_BENCH].(owner := TASK_C);
      }
    }

    /** `thread_start`: task_a is bootstrapped into EL0. */
    method Start()
      requires Valid() && View() == M.Initial(build, mem[..])
      modifies this, threads
      ensures Valid() && View() == M.Boot(build, mem[..])
      ensures build.LayoutOk() ==> Inv(View())
    {
      if build.LayoutOk() {
        BootInv(build, mem[..]);
      }
      SwitchTo(TASK_A);
      threads[TASK_A] := threads[TASK_A].(started := true);
      EnterEl0(TASK_A);
    }

    /** `thread_tick_irq`. */
    method TickIrq()
      requires Valid()
      modifies this, threads
      ensures Valid() && View() == T.Tick(old(View()))
    {
      ticks := (ticks + 1) % TWO64;
      if current == NONE {
        return;
      }
      if threads[current].quantum > 0 {
        threads[current] := threads[current].(quantum := threads[current].quantum - 1);
      }
      if threads[current].quantum == 0 {
        threads[current] := threads[current].(quantum := QUANTUM_TICKS);
        resched := true;
      }
    }

    /** `pick_next_thread`. */
    method PickNextThread() returns (o: Outcome, next: nat)
      requires Valid()
      ensures match T.PickNext(threads[..], current)
              case Ok(n) => o == Done && next == n < THREAD_COUNT
              case Panicked(p) => o == Halted(p)
    {
      var start := if current == NONE then IDLE else current;
      ghost var ts := threads[..];
      for i := 1 to THREAD_COUNT + 1
        invariant T.Scan(ts, current, start, 1) == T.Scan(ts, current, start, i)
      {
        var idx := (start + i) % THREAD_COUNT;
        if idx == IDLE {
          continue;
        }
        if idx != current && T.Selectable(threads[idx]) {
          return Done, idx;
        }
      }
      if current != NONE && T.Selectable(threads[current]) && current != IDLE {
        return Done, current;
      }
      if T.Selectable(threads[IDLE]) {
        return Done, IDLE;
      }
      return Halted(NoSelectableThread), 0;
    }

    /** `thread_switch_to` up to the context switch. */
    method SwitchTo(next: nat)
      requires Valid() && next < THREAD_COUNT
      modifies this, threads
      ensures Valid() && View() == T.SwitchTo(old(View()), next)
    {
      if next == current {
        return;
      }
      if current != NONE && threads[current].state.ThreadRunning? {
        threads[current] := threads[current].(state := ThreadRunnable);
      }
      threads[next] := threads[next].(state := ThreadRunning);
      current := next;
      if threads[next].quantum == 0 {
        threads[next] := threads[next].(quantum := QUANTUM_TICKS);
      }
    }

    /** `thread_resched_point`; `w` timer interrupts arrive while it runs unmasked. */
    method ReschedPoint(w: nat) returns (o: Outcome)
      requires Valid()
      modifies this, threads
      ensures Did(T.ReschedPoint(old(View()), w), o)
    {
      var pending := resched;
      resched := false;
      if !pending {
        return Done;
      }
      ghost var s := View();
      for i := 0 to w
        invariant Valid() && T.Ticks(s, w) == T.Ticks(View(), w - i)
      {
        TickIrq();
      }
      var next :- PickNextThread();
      SwitchTo(next);
      return Done;
    }

    /** `thread_current_user_slot`. */
    method CurrentUserSlot() returns (o: Outcome, slot: nat)
      requires Valid()
      ensures match T.CurrentUserSlot(View())
              case Ok(n) => o == Done && slot == n < THREAD_COUNT
              case Panicked(p) => o == Halted(p)
    {
      if currentTask == NONE || currentTask != current || !threads[currentTask].kind.UserThread? {
        return Halted(InvalidCurrentTask), 0;
      }
      return Done, currentTask;
    }

    /** The register loop shared by redirect and task initialisation. */
    method CopyRegs(slot: nat, x: Regs)
      requires Valid() && slot < THREAD_COUNT
      modifies threads
      ensures Valid()
      ensures var t := old(threads[slot]);
              View() == T.SetThread(old(View()), slot, t.(ctx := t.ctx.(x := x)))
    {
      ghost var was := threads[slot];
      ghost var before := threads[..];
      assert x[..0] + was.ctx.x[0..] == was.ctx.x;
      for i := 0 to 31
        invariant threads[..] == before[slot := was.(ctx := was.ctx.(x := x[..i] + was.ctx.x[i..]))]
      {
        var t := threads[slot];
        PrefixNext(x, was.ctx.x, i);
        threads[slot] := t.(ctx := t.ctx.(x := t.ctx.x[i := x[i]]));
      }
      assert x[..31] + was.ctx.x[31..] == x;
    }

    /** `thread_user_trap_redirect`. */
    method TrapRedirect(tf: TrapFrame, reason: Reason) returns (o: Outcome)
      requires Valid()
      modifies threads
      ensures Did(T.Redirect(old(View()), tf, reason), o)
    {
      if currentTask == NONE || currentTask != current || !threads[currentTask].kind.UserThread? {
        return Halted(RedirectWithoutTask);
      }
      if tf.elr < SANDBOX_BASE || tf.elr >= SANDBOX_END {
        return Halted(TrapElrOutside);
      }
      CopyRegs(current, tf.x);
      var t := threads[current];
      threads[current] := t.(ctx := t.ctx.(sp := tf.sp, elr := tf.elr, spsr := tf.spsr), reason := reason);
      return Done;
    }

    /** `thread_user_wake_with_x0`. */
    method WakeWithX0(slot: int, retval: u64) returns (o: Outcome)
      requires Valid()
      modifies threads
      ensures Did(T.Wake(old(View()), slot, retval), o)
    {
      if slot < 0 || slot >= THREAD_COUNT {
        return Halted(WakeOutOfRange);
      }
      var t := threads[slot];
      if !t.kind.UserThread? {
        return Halted(WakeNotUser);
      }
      if t.state.ThreadStopped? || t.task.TaskDead? {
        return Halted(WakeDead);
      }
      threads[slot] := t.(ctx := t.ctx.(x := t.ctx.x[0 := retval]), task := TaskRunnable, state := ThreadRunnable);
      return Done;
    }

    /** `user_task_init` on an existing slot. */
    method UserTaskInit(slot: nat, name: Option<string>, entry: u64, sp: u64)
      requires Valid() && slot < THREAD_COUNT
      modifies threads
      ensures Valid() && View() == T.SetThread(old(View()), slot, T.UserTaskInit(old(threads[slot]), name, entry, sp))
    {
      CopyRegs(slot, T.ZeroRegs());
      var t := threads[slot];
      threads[slot] := t.(ctx := t.ctx.(sp := sp, elr := entry, spsr := SPSR_EL0T_MASKED), task := TaskRunnable,
                          reason := NoReason, entry := entry, userSp := sp, name := name, started := false);
    }

    /** `thread_user_restart`. */
    method UserRestart(slot: u64) returns (rc: int)
      requires Valid()
      modifies this, threads
      ensures Valid() && (View(), rc) == T.Restart(old(View()), slot)
    {
      if slot >= THREAD_COUNT {
        return -1;
      }
      if !threads[slot].kind.UserThread? {
        return -1;
      }
      if !threads[slot].task.TaskDead? || !threads[slot].state.ThreadStopped? {
        return -1;
      }
      var entry, sp, name := threads[slot].entry, threads[slot].userSp, threads[slot].name;
      if entry == 0 || sp == 0 || name.None? {
        return -1;
      }
      ghost var before := threads[..];
      UserTaskInit(slot, name, entry, sp);
      threads[slot] := threads[slot].(state := ThreadRunnable);
      resched := true;
      assert threads[..] == before[slot := T.UserTaskInit(before[slot], name, entry, sp).(state := ThreadRunnable)];
      return 0;
    }

    // ---------------------------------------------------------------- byte copies

    /** `bytes_copy` between two EL0 buffers. */
    method BytesCopy(dst: u64, src: u64, len: nat)
      requires Valid()
      requires InSandbox(dst) && dst + len <= SANDBOX_END
      requires InSandbox(src) && src + len <= SANDBOX_END
      modifies mem
      ensures Valid() && View() == old(View()).(mem := CopyWithin(old(mem[..]), dst, src, len))
    {
      ghost var m: Mem := mem[..];
      for i := 0 to len
        invariant mem[..] == ForwardCopy(m, dst - SANDBOX_BASE, src - SANDBOX_BASE, i)
      {
        mem[dst - SANDBOX_BASE + i] := mem[src - SANDBOX_BASE + i];
      }
    }

    /** `bytes_copy` from an EL0 buffer into the queue slot of endpoint `e`. */
    method BytesIn(e: nat, src: u64, len: nat)
      requires Valid() && e < EP_COUNT && len <= IPC_MSG_SIZE && RangeOk(src, len)
      modifies eps
      ensures Valid()
      ensures var ep := old(eps[e]);
              View() == I.SetEp(old(View()), e, ep.(pendingMsg := Load(mem[..], src, len) + ep.pendingMsg[len..]))
    {
      ghost var was, before := eps[e], eps[..];
      ghost var bytes := Load(mem[..], src, len);
      assert bytes[..0] + was.pendingMsg[0..] == was.pendingMsg;
      for i := 0 to len
        invariant eps[..] == before[e := was.(pendingMsg := bytes[..i] + was.pendingMsg[i..])]
      {
        PrefixNext(bytes, was.pendingMsg, i);
        eps[e] := eps[e].(pendingMsg := eps[e].pendingMsg[i := mem[src - SANDBOX_BASE + i]]);
      }
      assert bytes[..len] == bytes;
    }

    /** `bytes_copy` from the queue slot of endpoint `e` into an EL0 buffer. */
    method BytesOut(e: nat, dst: u64, len: nat)
      requires Valid() && e < EP_COUNT && len <= IPC_MSG_SIZE && InSandbox(dst) && dst + len <= SANDBOX_END
      modifies mem
      ensures Valid()
      ensures View() == old(View()).(mem := Store(old(mem[..]), dst, eps[e].pendingMsg[..len]))
    {
      ghost var m: Mem := mem[..];
      var at := dst - SANDBOX_BASE;
      for i := 0 to len
        invariant mem[..] == m[..at] + eps[e].pendingMsg[..i] + m[at + i..]
      {
        StoreNext(m, at, eps[e].pendingMsg, i);
        mem[at + i] := eps[e].pendingMsg[i];
      }
    }

    /** `uart_write_direct`. */
    method UartWriteDirect(buf: u64, len: u64) returns (written: u64)
      requires Valid() && RangeOk(buf, len)
      modifies this
      ensures Valid() && View() == M.DirectWrite(old(View()), buf, len) && written == len
      ensures M.Extends(old(uart), uart, mem[..], buf, len)
    {
      ghost var line, bytes := uart, Load(mem[..], buf, len);
      var i: nat := 0;
      while i < len
        invariant i <= len && uart == line + M.Chars(bytes[..i])
        invariant View() == old(View()).(uart := uart)
      {
        assert bytes[..i + 1] == bytes[..i] + [bytes[i]];
        assert bytes[i] == mem[buf - SANDBOX_BASE + i];
        uart := uart + [Char(mem[buf - SANDBOX_BASE + i])];
        i := i + 1;
      }
      assert bytes[..len] == bytes;
      return i;
    }

    // ---------------------------------------------------------------- endpoints

    method ClearPending(e: nat)
      requires Valid() && e < EP_COUNT
      modifies eps
      ensures Valid() && View() == I.SetEp(old(View()), e, I.ClearPending(old(eps[e])))
    {
      eps[e] := eps[e].(hasPending := false);
      eps[e] := eps[e].(pendingLen := 0);
    }

    method ClearCaller(e: nat)
      requires Valid() && e < EP_COUNT
      modifies eps
      ensures Valid() && View() == I.SetEp(old(View()), e, I.ClearCaller(old(eps[e])))
    {
      eps[e] := eps[e].(caller := NONE, replyPtr := 0, replyCap := 0, override := 0);
    }

    method ClearReceiver(e: nat)
      requires Valid() && e < EP_COUNT
      modifies eps
      ensures Valid() && View() == I.SetEp(old(View()), e, I.ClearReceiver(old(eps[e])))
    {
      eps[e] := eps[e].(receiver := NONE, bufPtr := 0, bufCap := 0);
    }

    /** The loop body of `ipc_handle_task_death`. */
    method CleanEndpoint(slot: nat, e: nat) returns (o: Outcome)
      requires Valid() && e < EP_COUNT
      modifies this, threads, eps
      ensures Did(I.DeathAt(old(View()), slot, e), o)
    {
      ghost var s := View();
      ghost var ep := if s.eps[e].receiver == slot then I.ClearReceiver(s.eps[e]) else s.eps[e];
      if eps[e].receiver == slot {
        ClearReceiver(e);
      }
      assert View() == I.SetEp(s, e, ep);
      CleanAfterSet(s, e, ep, slot);
      if eps[e].owner == slot && eps[e].caller != NONE {
        :- WakeWithX0(eps[e].caller, MINUS_ONE);
        ghost var woken := View();
        ClearCaller(e);
        ClearPending(e);
        assert eps[..] == woken.eps[e := I.ClearPending(I.ClearCaller(ep))];
        resched := true;
      } else if eps[e].caller == slot {
        ClearCaller(e);
        ClearPending(e);
        assert eps[..] == s.eps[e := ep][e := I.ClearPending(I.ClearCaller(ep))];
      }
      return Done;
    }

    /** `ipc_handle_task_death`. */
    method HandleTaskDeath(slot: nat) returns (o: Outcome)
      requires Valid()
      modifies this, threads, eps
      ensures Did(I.DeathFrom(old(View()), slot, 0), o)
    {
      ghost var s := View();
      for e := 0 to EP_COUNT
        invariant Valid() && I.DeathFrom(s, slot, 0) == I.DeathFrom(View(), slot, e)
      {
        :- CleanEndpoint(slot, e);
      }
      return Done;
    }

    /** Delivery to a sleeping receiver, or queueing, as both call paths do it. */
    method Place(e: nat, src: u64, len: nat) returns (o: Outcome)
      requires Valid() && e < EP_COUNT && len <= IPC_MSG_SIZE && RangeOk(src, len)
      modifies this, threads, eps, mem
      ensures Did(I.Place(old(View()), e, old(eps[e]), src, len), o)
    {
      if eps[e].receiver != NONE {
        var delivered := Min(len, eps[e].bufCap);
        if delivered > 0 {
          BytesCopy(eps[e].bufPtr, src, delivered);
        }
        :- WakeWithX0(eps[e].receiver, delivered);
        ClearReceiver(e);
        resched := true;
      } else {
        ghost var before := eps[..];
        assert Load(mem[..], src, 0) + before[e].pendingMsg[0..] == before[e].pendingMsg;
        if len > 0 {
          BytesIn(e, src, len);
        }
        assert eps[..] == before[e := before[e].(pendingMsg := eps[e].pendingMsg)];
        eps[e] := eps[e].(pendingLen := len, hasPending := true);
      }
      return Done;
    }

    /** The accepted part of `ipc_syscall_call` and `ipc_route_uart_write`. */
    method Submit(tf: TrapFrame, e: nat, src: u64, len: nat, replyPtr: u64, replyCap: u64, override: u64)
      returns (o: Outcome, out: Leave)
      requires Valid() && e < EP_COUNT && len <= IPC_MSG_SIZE && RangeOk(src, len) && BufferOk(replyPtr, replyCap)
      modifies this, threads, eps, mem
      ensures Left(I.Submit(old(View()), tf, e, src, len, replyPtr, replyCap, override), o, out)
    {
      out := ToKernel;
      var slot :- CurrentUserSlot();
      eps[e] := eps[e].(caller := slot, replyPtr := replyPtr, replyCap := replyCap, override := override);
      ghost var s := old(View());
      ghost var ep := I.SetCaller(s.eps[e], slot, replyPtr, replyCap, override);
      assert View() == I.SetEp(s, e, ep);
      PlaceAfterSet(s, e, ep, src, len);
      hide I.Place, T.Redirect;
      :- Place(e, src, len);
      :- TrapRedirect(tf, IpcBlock);
      return Done, ToKernel;
    }

    /** `ipc_syscall_call`. */
    method IpcCall(tf: TrapFrame) returns (o: Outcome, out: Leave)
      requires Valid()
      modifies this, threads, eps, mem
      ensures Left(I.Call(old(View()), tf), o, out)
      ensures o.Done? && out.ToKernel? ==> Valid() && I.AwaitsReply(View(), tf.x[0], old(current), tf.x[3], tf.x[4])
    {
      if I.Call(View(), tf).Ok? && I.Call(View(), tf).value.1.ToKernel? {
        I.CallAwaitsReply(View(), tf);
      }
      var e := tf.x[0];
      if !ValidEp(e) || tf.x[2] > IPC_MSG_SIZE {
        return Done, ToUser(MINUS_ONE);
      }
      if eps[e].owner == NONE {
        return Done, ToUser(MINUS_ONE);
      }
      if !RangeOk(tf.x[1], tf.x[2]) || !RangeOk(tf.x[3], tf.x[4]) {
        return Done, ToUser(MINUS_ONE);
      }
      if eps[e].hasPending || eps[e].caller != NONE {
        return Done, ToUser(MINUS_ONE);
      }
      o, out := Submit(tf, e, tf.x[1], tf.x[2], tf.x[3], tf.x[4], 0);
    }

    /** `ipc_syscall_recv`. */
    method IpcRecv(tf: TrapFrame) returns (o: Outcome, out: Leave)
      requires Valid()
      modifies this, threads, eps, mem
      ensures Left(I.Recv(old(View()), tf), o, out)
    {
      var e, ptr, cap := tf.x[0], tf.x[1], tf.x[2];
      out := ToUser(MINUS_ONE);
      if !ValidEp(e) || eps[e].owner == NONE || !RangeOk(ptr, cap) {
        return Done, out;
      }
      var slot :- CurrentUserSlot();
      if eps[e].owner != slot {
        return Done, out;
      }
      if eps[e].hasPending {
        var delivered := Min(eps[e].pendingLen, cap);
        if delivered > 0 {
          BytesOut(e, ptr, delivered);
        }
        ClearPending(e);
        return Done, ToUser(delivered);
      }
      if eps[e].receiver != NONE {
        return Done, out;
      }
      eps[e] := eps[e].(receiver := slot, bufPtr := ptr, bufCap := cap);
      :- TrapRedirect(tf, IpcBlock);
      return Done, ToKernel;
    }

    /** `ipc_syscall_reply`. */
    method IpcReply(tf: TrapFrame) returns (o: Outcome, out: Leave)
      requires Valid()
      modifies this, threads, eps, mem
      ensures Left(I.Reply(old(View()), tf), o, out)
    {
      var e, ptr, len := tf.x[0], tf.x[1], tf.x[2];
      out := ToUser(MINUS_ONE);
      if !ValidEp(e) || len > IPC_MSG_SIZE {
        return Done, out;
      }
      if eps[e].owner == NONE || !RangeOk(ptr, len) {
        return Done, out;
      }
      var slot :- CurrentUserSlot();
      if eps[e].owner != slot || eps[e].caller == NONE {
        return Done, out;
      }
      var copied := Min(len, eps[e].replyCap);
      if copied > 0 {
        BytesCopy(eps[e].replyPtr, ptr, copied);
      }
      var result: u64 := copied;
      if eps[e].override != 0 {
        result := eps[e].override;
      }
      :- WakeWithX0(eps[e].caller, result);
      ClearCaller(e);
      resched := true;
      return Done, ToUser(0);
    }

    /** `ipc_route_uart_write`. */
    method RouteUartWrite(tf: TrapFrame, buf: u64, len: u64) returns (o: Outcome, out: Leave)
      requires Valid()
      modifies this, threads, eps, mem
      ensures Left(I.RouteUartWrite(old(View()), tf, buf, len), o, out)
    {
      if len > IPC_MSG_SIZE {
        return Done, ToUser(MINUS_ONE);
      }
      if eps[EP_UART].owner == NONE || !RangeOk(buf, len) {
        return Done, ToUser(MINUS_ONE);
      }
      if eps[EP_UART].hasPending || eps[EP_UART].caller != NONE {
        return Done, ToUser(MINUS_ONE);
      }
      o, out := Submit(tf, EP_UART, buf, len, 0, 0, len);
    }

    // ---------------------------------------------------------------- the supervisor

    /** `supervisor_note_task_death`. */
    method NoteTaskDeath(slot: nat) returns (o: Outcome)
      requires Valid() && slot < THREAD_COUNT
      modifies this, threads
      ensures Did(S.NoteDeath(old(View()), slot), o)
    {
      if slot == waiter {
        waiter := NONE;
      }
      if waiter != NONE {
        :- WakeWithX0(waiter, slot);
        waiter := NONE;
        resched := true;
        return Done;
      }
      death := slot;
      return Done;
    }

    /** `supervisor_syscall_wait`. */
    method SupervisorWait(tf: TrapFrame) returns (o: Outcome, out: Leave)
      requires Valid()
      modifies this, threads
      ensures Left(S.Wait(old(View()), tf), o, out)
    {
      out := ToUser(MINUS_ONE);
      var slot :- CurrentUserSlot();
      if slot != TASK_C {
        return Done, out;
      }
      if death != NONE {
        var notice: u64 := death % 0x1_0000_0000;
        death := NONE;
        return Done, ToUser(notice);
      }
      if waiter != NONE {
        return Done, out;
      }
      waiter := slot;
      :- TrapRedirect(tf, NotifyBlock);
      return Done, ToKernel;
    }

    /** `supervisor_syscall_restart`. */
    method SupervisorRestart(slot: u64) returns (o: Outcome, out: Leave)
      requires Valid()
      modifies this, threads
      ensures Left(S.RestartCall(old(View()), slot), o, out)
    {
      out := ToUser(MINUS_ONE);
      var cur :- CurrentUserSlot();
      if cur != TASK_C {
        return Done, out;
      }
      if slot != TASK_B {
        return Done, out;
      }
      var rc := UserRestart(slot);
      if rc != 0 {
        return Done, out;
      }
      return Done, ToUser(0);
    }

    // ---------------------------------------------------------------- traps

    method Write(tf: TrapFrame) returns (o: Outcome, out: Leave)
      requires Valid()
      modifies this, threads, eps, mem
      ensures Left(M.Write(old(View()), tf), o, out)
    {
      var buf, len := tf.x[0], tf.x[1];
      out := ToUser(MINUS_ONE);
      if buf == 0 {
        return Done, out;
      }
      if !RangeOk(buf, len) {
        return Done, out;
      }
      if build.micro {
        var slot :- CurrentUserSlot();
        if slot != TASK_B && slot != TASK_C {
          if len > IPC_MSG_SIZE {
            return Done, out;
          }
          o, out := RouteUartWrite(tf, buf, len);
          return;
        }
      }
      var written := UartWriteDirect(buf, len);
      return Done, ToUser(written);
    }

    /** A redirect whose caller ignores the result register. */
    method RedirectOnly(tf: TrapFrame, reason: Reason) returns (o: Outcome, out: Leave)
      requires Valid()
      modifies threads
      ensures Left(M.RedirectOnly(old(View()), tf, reason), o, out)
    {
      out := ToKernel;
      :- TrapRedirect(tf, reason);
      return Done, ToKernel;
    }

    /** `syscall_dispatch`. */
    method Dispatch(tf: TrapFrame) returns (o: Outcome, out: Leave)
      requires Valid()
      modifies this, threads, eps, mem
      ensures Left(M.Dispatch(old(View()), tf), o, out)
      ensures tf.x[8] == 1 ==> o.Done? && out == ToUser(old(ticks)) && Valid() && View() == old(View())
    {
      var nr := tf.x[8];
      if nr == SYS_YIELD {
        o, out := RedirectOnly(tf, Yield);
      } else if nr == SYS_TIME_TICKS {
        return Done, ToUser(ticks);
      } else if nr == SYS_WRITE {
        o, out := Write(tf);
      } else if nr == SYS_EXIT {
        o, out := RedirectOnly(tf, Exit);
      } else if nr == SYS_IPC_CALL {
        o, out := IpcCall(tf);
      } else if nr == SYS_IPC_RECV {
        o, out := IpcRecv(tf);
      } else if nr == SYS_IPC_REPLY {
        o, out := IpcReply(tf);
      } else if nr == SYS_SUPERVISE_WAIT {
        o, out := SupervisorWait(tf);
      } else if nr == SYS_TASK_RESTART {
        o, out := SupervisorRestart(tf.x[0]);
      } else {
        return Done, ToUser(MINUS_ONE);
      }
    }

    /** `thread_user_fault`. */
    method UserFault(tf: TrapFrame) returns (o: Outcome, out: Leave)
      requires Valid() && !M.IsSvc(tf)
      modifies this, threads
      ensures Left(M.HandleTrap(old(View()), tf), o, out)
    {
      if currentTask == NONE || currentTask != current || !threads[currentTask].kind.UserThread? {
        return Halted(FaultWithoutTask), ToKernel;
      }
      uart := uart + [FaultLine(M.TaskName(threads[current]), tf.esr, tf.elr, tf.far)];
      o, out := RedirectOnly(tf, Fault);
    }

    /** `exception_sync_el0`. */
    method SyncEl0(tf: TrapFrame) returns (o: Outcome, out: Leave)
      requires Valid()
      modifies this, threads, eps, mem
      ensures Left(M.HandleTrap(old(View()), tf), o, out)
      ensures 0x5400_0000 <= tf.esr % 0x1_0000_0000 < 0x5800_0000 ==> Left(M.Dispatch(old(View()), tf), o, out)
      ensures !(0x5400_0000 <= tf.esr % 0x1_0000_0000 < 0x5800_0000) && o.Done? ==>
                out.ToKernel? && |uart| == |old(uart)| + 1 && uart[|uart| - 1].FaultLine?
    {
      M.SvcByEsr(tf);
      if M.IsSvc(tf) {
        o, out := Dispatch(tf);
      } else {
        o, out := UserFault(tf);
      }
    }

    // ---------------------------------------------------------------- back to EL0

    /** `thread_enter_el0`. */
    method EnterEl0(slot: nat)
      requires Valid() && slot < THREAD_COUNT
      modifies this, threads
      ensures Valid() && View() == T.EnterEl0(old(View()), slot)
    {
      currentTask := slot;
      threads[slot] := threads[slot].(state := ThreadRunning, task := TaskRunning);
      el0 := threads[slot].ctx;
    }

    /** The dying branch of `user_task_return_step`. */
    method Die() returns (o: Outcome)
      requires Valid() && T.CurrentTaskOk(View())
      requires threads[current].reason.Exit? || threads[current].reason.Fault?
      modifies this, threads, eps
      ensures Did(M.Park(old(View())), o)
    {
      var slot := current;
      M.DeathKeepsCurrent(M.MarkDead(View()), slot, 0);
      if threads[slot].reason.Exit? {
        uart := uart + [ExitLine(M.TaskName(threads[slot]))];
      }
      threads[slot] := threads[slot].(cont := InReturnStep, task := TaskDead, state := ThreadStopped);
      assert View() == M.MarkDead(old(View()));
      :- HandleTaskDeath(slot);
      :- NoteTaskDeath(slot);
      return Done;
    }

    /** `user_task_return_step` up to its reschedule point. */
    method Park() returns (o: Outcome)
      requires Valid()
      modifies this, threads, eps
      ensures Did(M.Park(old(View())), o)
    {
      if currentTask == NONE || currentTask != current || !threads[currentTask].kind.UserThread? {
        return Halted(InvalidCurrentTask);
      }
      var slot := current;
      match threads[slot].reason {
        case NoReason =>
          return Halted(UnknownReturnReason);
        case Yield =>
          threads[slot] := threads[slot].(cont := InReturnStep, task := TaskRunnable, state := ThreadRunnable);
        case IpcBlock =>
          threads[slot] := threads[slot].(cont := InReturnStep, task := TaskBlocked, state := ThreadRunnable);
        case NotifyBlock =>
          threads[slot] := threads[slot].(cont := InReturnStep, task := TaskBlocked, state := ThreadRunnable);
        case _ =>
          :- Die();
      }
      return Done;
    }

    /** The thread that owns the CPU goes on from its saved kernel context. */
    method Resume() returns (o: Outcome)
      requires Valid() && current != NONE
      modifies this, threads
      ensures Did(T.Resume(old(View())), o)
    {
      var slot := current;
      match threads[slot].cont {
        case Bootstrap =>
          if slot == IDLE {
            threads[slot] := threads[slot].(cont := InIdleLoop);
            return Done;
          }
          if !threads[slot].kind.UserThread? {
            return Halted(InvalidUserThread);
          }
          threads[slot] := threads[slot].(started := true);
          EnterEl0(slot);
        case InIdleLoop =>
        case InReturnStep =>
          if !threads[slot].kind.UserThread? {
            return Halted(ContinuationOnNonUser);
          }
          var t := threads[slot];
          if t.state.ThreadStopped? || t.task.TaskDead? || t.task.TaskBlocked? {
            return Halted(DeadTaskResumed);
          }
          threads[slot] := t.(state := ThreadRunning, task := TaskRunning, reason := NoReason);
          currentTask := slot;
          if t.ctx.elr < SANDBOX_BASE || t.ctx.elr >= SANDBOX_END {
            return Halted(ResumeElrOutside);
          }
          el0 := threads[slot].ctx;
      }
      return Done;
    }

    method SwitchAndResume(w: nat) returns (o: Outcome)
      requires Valid() && current != NONE
      modifies this, threads
      ensures Did(M.SwitchAndResume(old(View()), w), o)
    {
      M.TicksKeepCurrent(View().(resched := false), w);
      :- ReschedPoint(w);
      o := Resume();
    }

    /** One trap from EL0 to the next entry into EL0 or idle. */
    method OnTrap(tf: TrapFrame, w: nat) returns (o: Outcome)
      requires Valid()
      modifies this, threads, eps, mem
      ensures Did(M.TrapStep(old(View()), tf, w), o)
      ensures UserRunning(old(View())) && InSandbox(tf.elr) ==> o == Done && Valid() && Inv(View())
    {
      ghost var s := View();
      if UserRunning(s) {
        TrapStepInv(s, tf, w);
      }
      hide M.HandleTrap, M.Park, M.SwitchAndResume, Inv, Redirected;
      var out :- SyncEl0(tf);
      match out {
        case ToUser(x0) =>
          el0 := FrameCtx(tf, x0);
        case ToKernel =>
          :- Park();
          resched := true;
          :- SwitchAndResume(w);
      }
      return Done;
    }

    /** The timer interrupt, taken in EL0 or in the idle loop. */
    method OnTick()
      requires Valid() && Inv(View())
      modifies this, threads
      ensures Valid() && View() == T.Tick(old(View())) && Inv(View())
    {
      TickKeepsInv(View());
      TickIrq();
    }

    /** One round of the idle loop. */
    method OnIdle(w: nat) returns (o: Outcome)
      requires Valid() && Inv(View()) && current == IDLE
      modifies this, threads
      ensures o == Done && Did(M.SwitchAndResume(old(View()), w), o) && Inv(View())
    {
      SwitchAndResumeInv(View(), w);
      o := SwitchAndResume(w);
    }
  }
}
