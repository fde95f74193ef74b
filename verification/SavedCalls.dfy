/** What the kernel remembers of a sleeping task is what the task asked for: every wait slot
    agrees with the sleeper's own saved registers. */
module SavedCalls {
  import opened Base
  import opened Memory
  import opened State
  import opened Ipc
  import opened Machine
  import opened Invariant
  import opened Runs
  import opened Context
  import opened Frames
  import opened RpcKernel
  import opened Shapes
  import opened Buffers
  import opened KernelGraph

  /** The waiting caller of endpoint `k`: an `ipc_call` (number 4) with the endpoint in x0, the
      length in x2, the reply buffer in x3 and x4; or a routed `write` (number 2), which is owed
      its length x1 and takes no bytes. */
  predicate CallerSaved(ep: Endpoint, c: UserCtx, k: nat) {
    || (c.x[8] == 4 && c.x[0] == k && ep.replyPtr == c.x[3] && ep.replyCap == c.x[4] && ep.override == 0
        && (ep.hasPending ==> ep.pendingLen == c.x[2]))
    || (c.x[8] == 2 && k == 1 && ep.replyPtr == 0 && ep.replyCap == 0 && ep.override == c.x[1]
        && (ep.hasPending ==> ep.pendingLen == c.x[1]))
  }

  /** The sleeping receiver: an `ipc_recv` (number 5) with the buffer in x1 and x2. */
  predicate ReceiverSaved(ep: Endpoint, c: UserCtx, k: nat) {
    c.x[8] == 5 && c.x[0] == k && ep.bufPtr == c.x[1] && ep.bufCap == c.x[2]
  }

  /** The registers task `i` sleeps with. */
  function CtxOf(s: Kernel, i: int): UserCtx
    requires |s.threads| == THREAD_COUNT && 0 <= i < THREAD_COUNT
  {
    s.threads[i].ctx
  }

  ghost predicate SavedAt(s: Kernel, k: nat)
    requires Fits(s) && k < EP_COUNT
  {
    var ep := s.eps[k];
    && (ep.caller != NONE ==> 0 <= ep.caller < IDLE && CallerSaved(ep, CtxOf(s, ep.caller), k))
    && (ep.receiver != NONE ==> 0 <= ep.receiver < IDLE && ReceiverSaved(ep, CtxOf(s, ep.receiver), k))
  }

  /** All slots agree; the waiting supervisor asked with `supervise_wait` (number 7). */
  ghost predicate Saved(s: Kernel)
    requires Fits(s)
  {
    SavedAt(s, EP_UART) && SavedAt(s, EP_BENCH)
    && (s.waiter != NONE ==> 0 <= s.waiter < IDLE && CtxOf(s, s.waiter).x[8] == 7)
  }

  // ---------------------------------------------------------------- one trap

  /** Endpoint `k` after a trap, whole. */
  function EpAfter(s: Kernel, tf: TrapFrame, k: nat): Endpoint
    requires UserRunning(s) && 0 < k < EP_COUNT
  {
    var ep := s.eps[k];
    match MoveOf(s, tf, k)
    case Stay => ep
    case Asked =>
      if tf.x[8] == SYS_IPC_CALL then AfterSubmit(s, k, tf.x[1], tf.x[2], tf.x[3], tf.x[4], 0)
      else AfterSubmit(s, k, tf.x[0], tf.x[1], 0, 0, tf.x[1])
    case Taken => ClearPending(ep)
    case Slept => SetReceiver(ep, s.current, tf.x[1], tf.x[2])
    case Replied => ClearCaller(ep)
    case OwnerDied => ClearPending(ClearCaller(ep))
  }

  lemma EpMoves(s: Kernel, tf: TrapFrame, w: nat, k: nat)
    requires UserRunning(s) && InSandbox(tf.elr) && 0 < k < EP_COUNT
    ensures TrapStep(s, tf, w).Ok? && TrapStep(s, tf, w).value.eps[k] == EpAfter(s, tf, k)
  {
    TrapMoves(s, tf, w, k);
    var m := MoveOf(s, tf, k);
    if m.Asked? {
      AskedEp(s, tf, w, k);
    } else if m.Taken? || m.Slept? {
      ReceivedEp(s, tf, w, k);
    } else if m.Replied? {
      ReplyEps(s, tf, k);
      AnsweredRuns(s, tf, w);
    } else if m.OwnerDied? {
      PlainEps(s, tf, w, k);
    }
  }

  lemma AskedEp(s: Kernel, tf: TrapFrame, w: nat, k: nat)
    requires UserRunning(s) && InSandbox(tf.elr) && 0 < k < EP_COUNT && MoveOf(s, tf, k).Asked?
    ensures TrapStep(s, tf, w).Ok? && TrapStep(s, tf, w).value.eps[k] == EpAfter(s, tf, k)
  {
    if tf.x[8] == SYS_IPC_CALL {
      SubmitReturns(s, tf, w, k, tf.x[1], tf.x[2], tf.x[3], tf.x[4], 0, k);
    } else {
      RoutedWrite(s, tf);
      SubmitReturns(s, tf, w, k, tf.x[0], tf.x[1], 0, 0, tf.x[1], k);
    }
    hide Inv, Common, ReturnStep;
  }

  lemma ReceivedEp(s: Kernel, tf: TrapFrame, w: nat, k: nat)
    requires UserRunning(s) && InSandbox(tf.elr) && 0 < k < EP_COUNT
    requires MoveOf(s, tf, k).Taken? || MoveOf(s, tf, k).Slept?
    ensures TrapStep(s, tf, w).Ok? && TrapStep(s, tf, w).value.eps[k] == EpAfter(s, tf, k)
  {
    HandleTrapInv(s, tf);
    RecvEffect(s, tf);
    hide HandleTrap, Inv, ReturnStep, Parks;
    if HandleTrap(s, tf).value.1.ToKernel? {
      ReturnEps(HandleTrap(s, tf).value.0, w, k);
    } else {
      AnsweredRuns(s, tf, w);
    }
  }

  /** A task that sleeps before and after a trap keeps its registers. */
  lemma SleeperKept(s: Kernel, tf: TrapFrame, w: nat, j: nat)
    requires UserRunning(s) && InSandbox(tf.elr) && j < IDLE && j != s.current
    requires TrapStep(s, tf, w).Ok? && Inv(TrapStep(s, tf, w).value)
    requires TrapStep(s, tf, w).value.threads[j].task.TaskBlocked? && s.threads[j].task.TaskBlocked?
    ensures CtxOf(TrapStep(s, tf, w).value, j) == CtxOf(s, j)
  {
    TrapOtherCtx(s, tf, w, j);
  }

  /** Whom the endpoint names sleeps, before and after. */
  lemma NamedSleepers(s: Kernel, k: nat)
    requires Inv(s) && 0 < k < EP_COUNT
    ensures var ep := s.eps[k];
            && (ep.caller != NONE ==> 0 <= ep.caller < IDLE && s.threads[ep.caller].task.TaskBlocked?)
            && (ep.receiver != NONE ==> 0 <= ep.receiver < IDLE && s.threads[ep.receiver].task.TaskBlocked?)
            && (s.waiter != NONE ==> 0 <= s.waiter < IDLE && s.threads[s.waiter].task.TaskBlocked?)
  {
    assert Named(s, CallerOf(k)) == s.eps[k].caller && Named(s, ReceiverOf(k)) == s.eps[k].receiver;
    assert Named(s, SupervisorWait) == s.waiter;
  }

  /** The registers a parking trap leaves with its task. */
  lemma OwnSaved(s: Kernel, tf: TrapFrame, w: nat)
    requires UserRunning(s) && InSandbox(tf.elr) && Parks(s, tf)
    ensures TrapStep(s, tf, w).Ok?
    ensures CtxOf(TrapStep(s, tf, w).value, s.current) == UserCtx(tf.x, tf.sp, tf.elr, tf.spsr)
  {
    assert s.(mem := s.mem) == s;
    TrapOwnCtx(s, Trap(s.mem, tf, w));
  }

  lemma SavedAtAfter(s: Kernel, tf: TrapFrame, w: nat, k: nat)
    requires UserRunning(s) && InSandbox(tf.elr) && 0 < k < EP_COUNT && SavedAt(s, k)
    ensures TrapStep(s, tf, w).Ok? && SavedAt(TrapStep(s, tf, w).value, k)
  {
    TrapStepInv(s, tf, w);
    EpMoves(s, tf, w, k);
    AwakeIsUnnamed(s);
    var r := TrapStep(s, tf, w).value;
    NamedSleepers(r, k);
    assert Fits(s) && Fits(r);
    EpShape(s, tf, k);
    hide Inv, TrapStep, EpAfter, CallerSaved, ReceiverSaved;
    var ep := r.eps[k];
    if ep.caller == s.current || ep.receiver == s.current {
      NewSlot(s, tf, w, k);
    }
    if ep.caller != NONE && ep.caller != s.current {
      KeptSlot(s, tf, w, k, ep.caller);
      CallerStays(s.eps[k], ep, CtxOf(s, ep.caller), k);
    }
    if ep.receiver != NONE && ep.receiver != s.current {
      KeptSlot(s, tf, w, k, ep.receiver);
      ReceiverStays(s.eps[k], ep, CtxOf(s, ep.receiver), k);
    }
  }

  lemma CallerStays(ep: Endpoint, r: Endpoint, c: UserCtx, k: nat)
    requires CallerSaved(ep, c, k) && r.replyPtr == ep.replyPtr && r.replyCap == ep.replyCap
    requires r.override == ep.override && (r.hasPending ==> ep.hasPending && r.pendingLen == ep.pendingLen)
    ensures CallerSaved(r, c, k)
  {
  }

  lemma ReceiverStays(ep: Endpoint, r: Endpoint, c: UserCtx, k: nat)
    requires ReceiverSaved(ep, c, k) && r.bufPtr == ep.bufPtr && r.bufCap == ep.bufCap
    ensures ReceiverSaved(r, c, k)
  {
  }

  /** What `EpAfter` can name, and that whoever stays named stays with the same arguments. */
  lemma EpShape(s: Kernel, tf: TrapFrame, k: nat)
    requires UserRunning(s) && 0 < k < EP_COUNT
    ensures var ep, r := s.eps[k], EpAfter(s, tf, k);
            && (r.caller != NONE && r.caller != s.current ==>
                  && r.caller == ep.caller && r.replyPtr == ep.replyPtr && r.replyCap == ep.replyCap
                  && r.override == ep.override && (r.hasPending ==> ep.hasPending && r.pendingLen == ep.pendingLen))
            && (r.receiver != NONE && r.receiver != s.current ==>
                  r.receiver == ep.receiver && r.bufPtr == ep.bufPtr && r.bufCap == ep.bufCap)
            && (r.caller == s.current ==> MoveOf(s, tf, k).Asked?)
            && (r.receiver == s.current ==> MoveOf(s, tf, k).Slept?)
  {
    AwakeIsUnnamed(s);
    hide Inv, MoveOf;
  }

  /** A sleeper that stays named keeps its registers. */
  lemma KeptSlot(s: Kernel, tf: TrapFrame, w: nat, k: nat, j: int)
    requires UserRunning(s) && InSandbox(tf.elr) && 0 < k < EP_COUNT && TrapStep(s, tf, w).Ok?
    requires Inv(TrapStep(s, tf, w).value) && TrapStep(s, tf, w).value.eps[k] == EpAfter(s, tf, k)
    requires j != NONE && j != s.current
    requires var r := TrapStep(s, tf, w).value; r.eps[k].caller == j || r.eps[k].receiver == j
    ensures 0 <= j < IDLE && CtxOf(TrapStep(s, tf, w).value, j) == CtxOf(s, j)
  {
    EpShape(s, tf, k);
    NamedSleepers(s, k);
    NamedSleepers(TrapStep(s, tf, w).value, k);
    hide Inv, TrapStep, EpAfter;
    SleeperKept(s, tf, w, j);
  }

  /** The task that has just been parked is recorded with the registers it trapped with. */
  lemma NewSlot(s: Kernel, tf: TrapFrame, w: nat, k: nat)
    requires UserRunning(s) && InSandbox(tf.elr) && 0 < k < EP_COUNT && TrapStep(s, tf, w).Ok?
    requires var r := EpAfter(s, tf, k); r.caller == s.current || r.receiver == s.current
    ensures var ep, c := EpAfter(s, tf, k), CtxOf(TrapStep(s, tf, w).value, s.current);
            && (ep.caller == s.current ==> CallerSaved(ep, c, k))
            && (ep.receiver == s.current ==> ReceiverSaved(ep, c, k))
  {
    EpShape(s, tf, k);
    ParkingMoves(s, tf, k);
    OwnSaved(s, tf, w);
    hide Inv, TrapStep, Parks;
  }

  lemma SavedTrap(s: Kernel, tf: TrapFrame, w: nat)
    requires UserRunning(s) && InSandbox(tf.elr) && Saved(s)
    ensures TrapStep(s, tf, w).Ok? && Saved(TrapStep(s, tf, w).value)
  {
    SavedAtAfter(s, tf, w, EP_UART);
    SavedAtAfter(s, tf, w, EP_BENCH);
    WaiterMoves(s, tf, w);
    TrapStepInv(s, tf, w);
    NamedSleepers(s, EP_UART);
    var r := TrapStep(s, tf, w).value;
    NamedSleepers(r, EP_UART);
    AwakeIsUnnamed(s);
    hide Inv, TrapStep, SavedAt, Parks;
    if r.waiter == s.current {
      OwnSaved(s, tf, w);
    } else if r.waiter != NONE {
      SleeperKept(s, tf, w, r.waiter);
    }
  }

  // ---------------------------------------------------------------- whole runs

  /** Ticks and idle passes move no slot and no register. */
  lemma SavedQuiet(s: Kernel, r: Kernel)
    requires Fits(s) && Fits(r) && Saved(s) && r.eps == s.eps && r.waiter == s.waiter
    requires forall i :: 0 <= i < IDLE ==> CtxOf(r, i) == CtxOf(s, i)
    ensures Saved(r)
  {
  }

  lemma SavedEvent(s: Kernel, e: Event)
    requires Inv(s) && TrapInside(e) && Saved(s)
    ensures Do(s, e).Ok? && Inv(Do(s, e).value) && Saved(Do(s, e).value)
  {
    if Enabled(s, e) {
      StepInv(s, e);
      match e
      case Trap(mem, tf, w) =>
        SwapSaved(s, mem);
        hide Inv, TrapStep, Saved;
        SavedTrap(s.(mem := mem), tf, w);
      case TimerTick =>
        TickFrame(s);
        hide Inv, Saved;
        SavedQuiet(s, Do(s, e).value);
      case IdlePass(_) =>
        IdleStep(s, e);
        hide Inv, Saved, Step;
        SavedQuiet(s, Do(s, e).value);
    }
  }

  lemma SwapSaved(s: Kernel, mem: Mem)
    requires Inv(s) && Saved(s)
    ensures Inv(s.(mem := mem)) && Saved(s.(mem := mem))
  {
    SameKernelKeeps(s, s.(mem := mem));
  }

  lemma {:induction false} SavedRun(s: Kernel, es: seq<Event>)
    requires Fits(s) && Inv(s) && Saved(s) && StaysInside(es)
    ensures Run(s, es).Ok? && Inv(Run(s, es).value) && Saved(Run(s, es).value)
    decreases |es|
  {
    hide Inv, Saved, Do;
    if es != [] {
      assert TrapInside(es[0]);
      SavedEvent(s, es[0]);
      SavedRun(Do(s, es[0]).value, es[1..]);
    }
  }

  /** In every reachable state the reply buffer, the receive buffer, the length owed and the
      length queued are those in the registers the sleeper trapped with. */
  lemma SavedFromBoot(b: Build, mem: Mem, es: seq<Event>)
    requires b.LayoutOk() && StaysInside(es)
    ensures Run(Boot(b, mem), es).Ok? && Saved(Run(Boot(b, mem), es).value)
  {
    BootInv(b, mem);
    SavedRun(Boot(b, mem), es);
  }
}
