/** The wait graph of the kernel, and what each trap does to it. */
module KernelGraph {
  import opened Base
  import opened Memory
  import opened State
  import opened Machine
  import opened Invariant
  import opened Runs
  import opened Context
  import opened Frames
  import opened RpcKernel
  import opened Mailbox
  import opened Shapes
  import opened Buffers
  import opened Resumption
  import opened WaitGraph

  /** What the wait slots say of task `i`. */
  function StatusOf(s: Kernel, i: nat): Status
    requires Fits(s) && i < IDLE
  {
    Told(s.threads[i].task.TaskDead?, s.waiter, s.eps[EP_UART], s.eps[EP_BENCH], i)
  }

  function Told(dead: bool, waiter: int, uart: Endpoint, bench: Endpoint, i: nat): Status {
    if dead then Gone
    else if waiter == i then Watches
    else if uart.caller == i then Asks(uart.owner)
    else if bench.caller == i then Asks(bench.owner)
    else if uart.receiver == i then if uart.caller == NONE then Listens else Stuck
    else if bench.receiver == i then if bench.caller == NONE then Listens else Stuck
    else Awake
  }

  function GraphOf(s: Kernel): Graph
    requires Fits(s)
  {
    [StatusOf(s, TASK_A), StatusOf(s, TASK_B), StatusOf(s, TASK_C)]
  }

  /** Task `i` occurs in at most one slot. */
  predicate NamedOnce(dead: bool, waiter: int, uart: Endpoint, bench: Endpoint, i: nat) {
    && (uart.receiver == i ==> uart.owner == i) && (bench.receiver == i ==> bench.owner == i)
    && (dead ==> waiter != i && uart.caller != i && bench.caller != i && uart.receiver != i && bench.receiver != i)
    && (waiter == i ==> uart.caller != i && bench.caller != i && uart.receiver != i && bench.receiver != i)
    && (uart.caller == i ==> bench.caller != i && uart.receiver != i && bench.receiver != i)
    && (bench.caller == i ==> uart.receiver != i && bench.receiver != i)
    && !(uart.receiver == i && bench.receiver == i)
  }

  predicate InSlot(waiter: int, uart: Endpoint, bench: Endpoint, i: nat) {
    waiter == i || uart.caller == i || bench.caller == i || uart.receiver == i || bench.receiver == i
  }

  /** A blocked task is in exactly one slot, any other task in none. */
  lemma IsNamedOnce(s: Kernel, i: nat)
    requires Inv(s) && i < IDLE
    ensures NamedOnce(s.threads[i].task.TaskDead?, s.waiter, s.eps[EP_UART], s.eps[EP_BENCH], i)
    ensures s.threads[i].task.TaskBlocked? <==> InSlot(s.waiter, s.eps[EP_UART], s.eps[EP_BENCH], i)
  {
    assert Named(s, SupervisorWait) == s.waiter;
    assert Named(s, CallerOf(EP_UART)) == s.eps[EP_UART].caller;
    assert Named(s, CallerOf(EP_BENCH)) == s.eps[EP_BENCH].caller;
    assert Named(s, ReceiverOf(EP_UART)) == s.eps[EP_UART].receiver;
    assert Named(s, ReceiverOf(EP_BENCH)) == s.eps[EP_BENCH].receiver;
    assert EndpointOk(s.eps[EP_UART]) && EndpointOk(s.eps[EP_BENCH]) && EndpointOk(s.eps[0]) && s.eps[0].owner == NONE;
    assert i in Blocked(s) <==> s.threads[i].task.TaskBlocked?;
    if i in Blocked(s) {
      var w :| Named(s, w) == i;
      SlotCases(s, w);
    }
    hide ThreadOk, MailboxOk, EndpointFits;
  }

  lemma SlotCases(s: Kernel, w: WaitSlot)
    requires Fits(s) && s.eps[0].caller == NONE && s.eps[0].receiver == NONE && Named(s, w) != NONE
    ensures Named(s, w) >= 0 ==> InSlot(s.waiter, s.eps[EP_UART], s.eps[EP_BENCH], Named(s, w))
  {
  }

  /** Each slot is told by the status of the task it names. */
  ghost predicate SlotsTold(s: Kernel, i: nat)
    requires Fits(s) && i < IDLE
  {
    var t := StatusOf(s, i);
    && (s.waiter == i <==> t.Watches?)
    && (forall k :: 0 < k < EP_COUNT && s.eps[k].caller == i ==> t == Asks(s.eps[k].owner))
    && (forall k :: 0 < k < EP_COUNT && s.eps[k].receiver == i ==>
          s.eps[k].owner == i && t == if s.eps[k].caller == NONE then Listens else Stuck)
    && (t.Awake? <==> !s.threads[i].task.TaskBlocked? && !s.threads[i].task.TaskDead?)
    && (t.Gone? <==> s.threads[i].task.TaskDead?)
  }

  lemma StatusTells(s: Kernel, i: nat)
    requires Inv(s) && i < IDLE
    ensures SlotsTold(s, i)
  {
    IsNamedOnce(s, i);
    hide Inv;
  }

  lemma GraphConsistent(s: Kernel)
    requires Inv(s)
    ensures Consistent(GraphOf(s))
  {
    StatusTells(s, TASK_A);
    StatusTells(s, TASK_B);
    StatusTells(s, TASK_C);
    assert s.eps[EP_UART].owner == Owner(s.build, EP_UART) && s.eps[EP_BENCH].owner == Owner(s.build, EP_BENCH);
  }

  // ---------------------------------------------------------------- one trap

  /** The supervisor's slot after a trap. */
  lemma WaiterMoves(s: Kernel, tf: TrapFrame, w: nat)
    requires UserRunning(s) && InSandbox(tf.elr)
    ensures TrapStep(s, tf, w).Ok?
    ensures TrapStep(s, tf, w).value.waiter ==
              if Dies(tf) then NONE else if IsWait(tf) && Parks(s, tf) then s.current else s.waiter
  {
    ParksExactly(s, tf);
    HandleTrapInv(s, tf);
    HandleReason(s, tf);
    WaiterHandled(s, tf);
    hide HandleTrap, Inv, ReturnStep, Parks;
    if HandleTrap(s, tf).value.1.ToUser? {
      AnsweredRuns(s, tf, w);
    } else if Dies(tf) {
      ReturnMail(HandleTrap(s, tf).value.0, w);
    } else {
      ReturnEps(HandleTrap(s, tf).value.0, w, 0);
    }
  }

  lemma WaiterHandled(s: Kernel, tf: TrapFrame)
    requires UserRunning(s) && HandleTrap(s, tf).Ok?
    ensures HandleTrap(s, tf).value.0.waiter ==
              if IsWait(tf) && Parks(s, tf) then s.current else s.waiter
  {
    if IsWait(tf) {
      AwakeIsUnnamed(s);
      WaitMail(s, tf);
    } else {
      HandlerMail(s, tf);
    }
  }

  predicate Restarts(s: Kernel, tf: TrapFrame) {
    RestartAsked(tf) && s.current == TASK_C && tf.x[0] == TASK_B
  }

  /** Who else is dead after a trap. */
  lemma DeadMoves(s: Kernel, tf: TrapFrame, w: nat, i: nat)
    requires UserRunning(s) && InSandbox(tf.elr) && i < IDLE && i != s.current
    ensures TrapStep(s, tf, w).Ok?
    ensures TrapStep(s, tf, w).value.threads[i].task.TaskDead? <==>
              s.threads[i].task.TaskDead? && !(Restarts(s, tf) && i == TASK_B)
  {
    TrapOtherCtx(s, tf, w, i);
    if RestartAsked(tf) {
      RestartEffect(s, tf, w, i);
    }
  }

  lemma RestartEffect(s: Kernel, tf: TrapFrame, w: nat, i: nat)
    requires UserRunning(s) && i < IDLE && i != s.current && RestartAsked(tf)
    ensures TrapStep(s, tf, w).Ok?
    ensures TrapStep(s, tf, w).value.threads[i].task.TaskDead? <==>
              s.threads[i].task.TaskDead? && !(Restarts(s, tf) && i == TASK_B)
  {
    AnsweredRuns(s, tf, w);
    assert ThreadOk(s.build, s.threads[TASK_B], TASK_B);
  }

  /** The trap wakes task `i`. */
  predicate WakesUp(s: Kernel, tf: TrapFrame, i: nat)
    requires Fits(s) && i < IDLE
  {
    || Rouses(s, tf, EP_UART, i)
    || Rouses(s, tf, EP_BENCH, i)
    || (Dies(tf) && s.waiter == i)
    || (Restarts(s, tf) && i == TASK_B && s.threads[i].task.TaskDead?)
  }

  predicate Rouses(s: Kernel, tf: TrapFrame, k: nat, i: nat)
    requires Fits(s) && k < EP_COUNT
  {
    var m := MoveOf(s, tf, k);
    (m.Asked? && s.eps[k].receiver == i) || ((m.Replied? || m.OwnerDied?) && s.eps[k].caller == i)
  }

  /** When an endpoint makes which move. */
  predicate MoveAllowed(ep: Endpoint, cur: int, m: Move) {
    && (m.Asked? ==> ep.caller == NONE)
    && (m.Taken? || m.Slept? || m.Replied? || m.OwnerDied? ==> ep.owner == cur)
    && (m.Slept? ==> ep.receiver == NONE)
  }

  lemma MovesAllowed(s: Kernel, tf: TrapFrame, k: nat)
    requires UserRunning(s) && 0 < k < EP_COUNT
    ensures MoveAllowed(s.eps[k], s.current, MoveOf(s, tf, k))
  {
    AwakeIsUnnamed(s);
    assert EndpointOk(s.eps[k]);
    hide RangeOk;
  }

  lemma ToldAfter(dead: bool, waiter: int, uart: Endpoint, bench: Endpoint, i: nat, cur: nat,
                  mu: Move, mb: Move, dead1: bool, waiter1: int, uart1: Endpoint, bench1: Endpoint)
    requires NamedOnce(dead, waiter, uart, bench, i) && i != cur
    requires MoveAllowed(uart, cur, mu) && MoveAllowed(bench, cur, mb)
    requires SlotsMoved(uart, cur, mu, uart1) && SlotsMoved(bench, cur, mb, bench1)
    requires waiter1 == waiter || waiter1 == cur || waiter1 == NONE
    requires waiter1 == cur ==> waiter != i
    requires dead1 ==> dead
    ensures var roused := (mu.Asked? && uart.receiver == i) || ((mu.Replied? || mu.OwnerDied?) && uart.caller == i)
                          || (mb.Asked? && bench.receiver == i) || ((mb.Replied? || mb.OwnerDied?) && bench.caller == i)
                          || (waiter1 == NONE && waiter == i) || (dead && !dead1);
            Told(dead1, waiter1, uart1, bench1, i) == if roused then Awake else Told(dead, waiter, uart, bench, i)
  {
  }

  /** What a trap does to the slots and the life of task `i`. */
  predicate SlotFacts(s: Kernel, tf: TrapFrame, r: Kernel, i: nat)
    requires Fits(s) && Fits(r) && i < IDLE
  {
    && SlotsMoved(s.eps[EP_UART], s.current, MoveOf(s, tf, EP_UART), r.eps[EP_UART])
    && SlotsMoved(s.eps[EP_BENCH], s.current, MoveOf(s, tf, EP_BENCH), r.eps[EP_BENCH])
    && r.waiter == (if Dies(tf) then NONE else if IsWait(tf) && Parks(s, tf) then s.current else s.waiter)
    && (r.threads[i].task.TaskDead? <==> s.threads[i].task.TaskDead? && !(Restarts(s, tf) && i == TASK_B))
  }

  lemma SlotsAfter(s: Kernel, tf: TrapFrame, w: nat, i: nat)
    requires UserRunning(s) && InSandbox(tf.elr) && i < IDLE && i != s.current
    ensures TrapStep(s, tf, w).Ok? && SlotFacts(s, tf, TrapStep(s, tf, w).value, i)
  {
    WaiterMoves(s, tf, w);
    DeadMoves(s, tf, w, i);
    TrapMoves(s, tf, w, EP_UART);
    TrapMoves(s, tf, w, EP_BENCH);
    hide Inv, TrapStep, MoveOf, Parks, Dies, Restarts, SlotsMoved;
  }

  lemma StatusAfter(s: Kernel, tf: TrapFrame, r: Kernel, i: nat)
    requires UserRunning(s) && Fits(r) && i < IDLE && i != s.current && SlotFacts(s, tf, r, i)
    ensures StatusOf(r, i) == if WakesUp(s, tf, i) then Awake else StatusOf(s, i)
  {
    IsNamedOnce(s, i);
    if IsWait(tf) && Parks(s, tf) {
      WaitTaken(s, tf);
    }
    MovesAllowed(s, tf, EP_UART);
    MovesAllowed(s, tf, EP_BENCH);
    hide Inv, MoveOf, Parks, Told, Dies, Restarts, NamedOnce, MoveAllowed, SlotsMoved;
    ToldAfter(s.threads[i].task.TaskDead?, s.waiter, s.eps[EP_UART], s.eps[EP_BENCH], i, s.current,
              MoveOf(s, tf, EP_UART), MoveOf(s, tf, EP_BENCH),
              r.threads[i].task.TaskDead?, r.waiter, r.eps[EP_UART], r.eps[EP_BENCH]);
  }

  /** The other tasks keep their status or are woken, exactly so. */
  lemma OthersMove(s: Kernel, tf: TrapFrame, w: nat, i: nat)
    requires UserRunning(s) && InSandbox(tf.elr) && i < IDLE && i != s.current
    ensures TrapStep(s, tf, w).Ok?
    ensures StatusOf(TrapStep(s, tf, w).value, i) == if WakesUp(s, tf, i) then Awake else StatusOf(s, i)
  {
    SlotsAfter(s, tf, w, i);
    hide Inv, TrapStep, SlotFacts, StatusOf, WakesUp;
    StatusAfter(s, tf, TrapStep(s, tf, w).value, i);
  }

  /** A wait that parks found the supervisor's slot free. */
  lemma WaitTaken(s: Kernel, tf: TrapFrame)
    requires UserRunning(s) && IsWait(tf) && Parks(s, tf)
    ensures s.waiter == NONE
  {
    AwakeIsUnnamed(s);
  }

  /** What the trap makes of its own task, told from the registers and the endpoint. */
  function OwnStatus(s: Kernel, tf: TrapFrame): Status
    requires Fits(s)
  {
    if !Parks(s, tf) || Yields(tf) then Awake
    else if Dies(tf) then Gone
    else if IsRequest(tf) then Asks(s.eps[EndpointOf(tf)].owner)
    else if tf.x[8] == SYS_IPC_RECV then if s.eps[EndpointOf(tf)].caller == NONE then Listens else Stuck
    else Watches
  }

  /** Which moves a parking trap makes. */
  lemma ParkingMoves(s: Kernel, tf: TrapFrame, k: nat)
    requires UserRunning(s) && 0 < k < EP_COUNT
    ensures MoveOf(s, tf, k).Asked? <==> Parks(s, tf) && IsRequest(tf) && k == EndpointOf(tf)
    ensures MoveOf(s, tf, k).Slept? <==>
              Parks(s, tf) && IsSvc(tf) && tf.x[8] == SYS_IPC_RECV && k == EndpointOf(tf)
    ensures MoveOf(s, tf, k).OwnerDied? <==> Dies(tf) && Serves(s.eps[k], s.current)
    ensures MoveOf(s, tf, k).Replied? ==> !Parks(s, tf)
  {
    AwakeIsUnnamed(s);
    assert s.eps[0].owner == NONE;
    hide RangeOk;
  }

  lemma OwnMoves(s: Kernel, tf: TrapFrame, w: nat)
    requires UserRunning(s) && InSandbox(tf.elr)
    ensures TrapStep(s, tf, w).Ok?
    ensures StatusOf(TrapStep(s, tf, w).value, s.current) == OwnStatus(s, tf)
  {
    AwakeIsUnnamed(s);
    WaiterMoves(s, tf, w);
    TaskAfterTrap(s, tf, w);
    TrapMoves(s, tf, w, EP_UART);
    TrapMoves(s, tf, w, EP_BENCH);
    hide Inv, TrapStep, MoveOf;
    OwnTold(s, tf, TrapStep(s, tf, w).value);
  }

  lemma OwnTold(s: Kernel, tf: TrapFrame, r: Kernel)
    requires UserRunning(s) && Fits(r)
    requires SlotsMoved(s.eps[EP_UART], s.current, MoveOf(s, tf, EP_UART), r.eps[EP_UART])
    requires SlotsMoved(s.eps[EP_BENCH], s.current, MoveOf(s, tf, EP_BENCH), r.eps[EP_BENCH])
    requires r.waiter == (if Dies(tf) then NONE else if IsWait(tf) && Parks(s, tf) then s.current else s.waiter)
    requires r.threads[s.current].task.TaskDead? <==> Dies(tf)
    ensures StatusOf(r, s.current) == OwnStatus(s, tf)
  {
    AwakeIsUnnamed(s);
    ParkingMoves(s, tf, EP_UART);
    ParkingMoves(s, tf, EP_BENCH);
    if Parks(s, tf) {
      ParkingKinds(s, tf);
    }
    assert s.eps[0].owner == NONE;
    hide Inv, MoveOf;
  }

  /** The traps that park are a yield, a death, a request, a receive and a wait. */
  lemma ParkingKinds(s: Kernel, tf: TrapFrame)
    requires UserRunning(s) && Parks(s, tf)
    ensures Yields(tf) || Dies(tf) || IsRequest(tf) || (IsSvc(tf) && tf.x[8] == SYS_IPC_RECV) || IsWait(tf)
    ensures IsRequest(tf) || (IsSvc(tf) && tf.x[8] == SYS_IPC_RECV) ==> 0 < EndpointOf(tf) < EP_COUNT
  {
  }

  /** Whom a parking trap wakes, told from the graph. */
  lemma WakesMatch(s: Kernel, tf: TrapFrame, i: nat)
    requires UserRunning(s) && i < IDLE && i != s.current && Parks(s, tf) && !Yields(tf)
    ensures WakesUp(s, tf, i) <==> WokenBy(GraphOf(s), s.current, OwnStatus(s, tf), i)
  {
    StatusTells(s, i);
    ParkingMoves(s, tf, EP_UART);
    ParkingMoves(s, tf, EP_BENCH);
    ParkingKinds(s, tf);
    assert s.eps[EP_UART].owner == Owner(s.build, EP_UART) && s.eps[EP_BENCH].owner == Owner(s.build, EP_BENCH);
    assert GraphOf(s)[i] == StatusOf(s, i);
    RestartNeverParks(s, tf);
    hide Inv, MoveOf, Parks;
  }

  lemma RestartNeverParks(s: Kernel, tf: TrapFrame)
    requires Fits(s) && Parks(s, tf)
    ensures !Restarts(s, tf)
  {
  }
}
