/** All that one trap does outside the endpoints: thread table, clock, request flag, UART line,
    death notice. */
module Effects {
  import opened Base
  import opened Memory
  import opened State
  import opened Threads
  import opened Ipc
  import opened Supervisor
  import opened Machine
  import opened Invariant
  import opened Runs
  import opened Context
  import opened Frames
  import opened Scheduler
  import opened Shapes
  import opened Resumption
  import opened KernelGraph
  import opened WaitGraph

  // ---------------------------------------------------------------- the switch

  /** Ticks touch the current thread's quantum and no other field of the thread table. */
  lemma {:induction false} TicksThreads(s: Kernel, n: nat)
    requires Fits(s) && s.current != NONE
    ensures Ticks(s, n).current == s.current
    ensures var t := s.threads[s.current].(quantum := Ticks(s, n).threads[s.current].quantum);
            Ticks(s, n).threads == s.threads[s.current := t]
    decreases n
  {
    if n == 0 {
      assert s.threads == s.threads[s.current := s.threads[s.current]];
    } else {
      TicksThreads(Tick(s), n - 1);
    }
  }

  /** The quantum left after `w` more ticks. */
  function QuantumAt(q: nat, w: nat): nat {
    10 - (w + 10 - q) % 10
  }

  /** A thread as it is when it enters EL0: a fresh one is marked started, a returning one has
      its reason cleared. */
  function Entered(t: Thread): Thread {
    (if t.cont.Bootstrap? then t.(started := true) else t.(reason := NoReason))
    .(state := ThreadRunning, task := TaskRunning)
  }

  /** A thread behind the switch, with its quantum then. */
  function Picked(t: Thread, quantum: nat, picked: bool): Thread {
    var u := t.(quantum := quantum);
    if picked then Entered(u) else u
  }

  function QuantumAfterTicks(s: Kernel, w: nat, j: int): nat
    requires |s.threads| == THREAD_COUNT && 0 <= j < IDLE
  {
    if j == s.current then QuantumAt(s.threads[j].quantum, w) else s.threads[j].quantum
  }

  lemma TickedEffects(s: Kernel, w: nat)
    requires Parked(s)
    ensures var r := Ticks(s.(resched := false), w);
            && Parked(r) && r.current == s.current
            && r.ticks == (s.ticks + w) % TWO64
            && (r.resched <==> w >= s.threads[s.current].quantum)
            && forall j :: 0 <= j < IDLE ==>
                 r.threads[j] == s.threads[j].(quantum := QuantumAfterTicks(s, w, j))
  {
    var s1 := s.(resched := false);
    hide Parked, Common, Requests;
    ParkedFacts(s);
    SameKernelKeeps(s, s1);
    ParkedFacts(s1);
    hide Fits;
    TicksThreads(s1, w);
    TicksKeep(s1, w);
    QuantumAfter(s1, w);
    RequestsSeen(w, s.threads[s.current].quantum);
  }

  lemma ParkedFacts(s: Kernel)
    requires Parked(s)
    ensures Common(s) && Fits(s) && 0 <= s.current < IDLE
    ensures forall j :: 0 <= j < IDLE ==> 1 <= s.threads[j].quantum <= 10
  {
    assert forall j :: 0 <= j < IDLE ==> ThreadOk(s.build, s.threads[j], j);
  }

  lemma DispatchEffects(s: Kernel)
    requires Parked(s)
    ensures PickNext(s.threads, s.current).Ok?
    ensures var out := Resume(SwitchTo(s, PickNext(s.threads, s.current).value));
            && out.Ok?
            && var r := out.value;
               && r.ticks == s.ticks && r.resched == s.resched && |r.threads| == THREAD_COUNT
               && forall j :: 0 <= j < IDLE ==>
                    r.threads[j] == if j == r.current then Entered(s.threads[j]) else s.threads[j]
  {
    PickOk(s);
    var next := PickNext(s.threads, s.current).value;
    SwitchEffect(s, next);
    SwitchParked(s, next);
    hide PickNext, SwitchTo, Resume, WaitsMatch, Common;
    ResumeEffect(SwitchTo(s, next));
  }

  /** From the parked state to the next entry: thread table, clock and request flag. */
  lemma SwitchEffects(s: Kernel, w: nat)
    requires Parked(s) && s.resched
    ensures SwitchAndResume(s, w).Ok?
    ensures var r := SwitchAndResume(s, w).value;
            && r.ticks == (s.ticks + w) % TWO64
            && (r.resched <==> w >= s.threads[s.current].quantum)
            && |r.threads| == THREAD_COUNT
            && forall j :: 0 <= j < IDLE ==>
                 r.threads[j] == Picked(s.threads[j], QuantumAfterTicks(s, w, j), j == r.current)
  {
    TickedEffects(s, w);
    var s2 := Ticks(s.(resched := false), w);
    assert Fits(s) && s.current != NONE;
    hide Parked, Resume, SwitchTo, PickNext, Ticks, QuantumAfterTicks, Entered;
    DispatchEffects(s2);
    assert SwitchAndResume(s, w) == Resume(SwitchTo(s2, PickNext(s2.threads, s2.current).value));
  }

  lemma RequestsSeen(w: nat, q: nat)
    requires 1 <= q <= 10
    ensures (w + 10 - q) / 10 > 0 <==> w >= q
    ensures 1 <= QuantumAt(q, w) <= 10
  {
  }

  lemma ResumeEffect(s: Kernel)
    requires Switched(s)
    ensures Resume(s).Ok?
    ensures var r := Resume(s).value;
            && r.current == s.current && r.ticks == s.ticks && r.resched == s.resched
            && |r.threads| == THREAD_COUNT
            && forall j :: 0 <= j < IDLE ==>
                 r.threads[j] == if j == s.current then Entered(s.threads[j]) else s.threads[j]
  {
    ResumeSwitched(s);
  }

  // ---------------------------------------------------------------- the trapping task itself

  /** Its control block after the handler: untouched by an answer; with the trapped registers
      and the reason if it is to be parked. */
  lemma HandlerOwn(s: Kernel, tf: TrapFrame)
    requires UserRunning(s) && HandleTrap(s, tf).Ok?
    ensures var (s1, how) := HandleTrap(s, tf).value;
            && s1.current == s.current && |s1.threads| == THREAD_COUNT
            && s1.threads[s.current] ==
                 if how.ToUser? then s.threads[s.current]
                 else s.threads[s.current].(ctx := UserCtx(tf.x, tf.sp, tf.elr, tf.spsr), reason := ReasonFor(tf))
  {
    HandleTrapInv(s, tf);
    HandleReason(s, tf);
    OwnButReason(s, tf);
  }

  /** The same but for the reason. */
  ghost predicate OwnKept(s: Kernel, tf: TrapFrame, out: Result<(Kernel, Leave)>)
    requires Fits(s) && 0 <= s.current < IDLE
  {
    out.Ok? ==>
      var (s1, how) := out.value;
      && s1.current == s.current && |s1.threads| == THREAD_COUNT
      && var t, u := s.threads[s.current], s1.threads[s.current];
         u == if how.ToUser? then t
              else t.(ctx := UserCtx(tf.x, tf.sp, tf.elr, tf.spsr), reason := u.reason)
  }

  lemma CallOwn(s: Kernel, tf: TrapFrame)
    requires UserRunning(s)
    ensures OwnKept(s, tf, Call(s, tf))
  {
    if Call(s, tf).Ok? && Call(s, tf).value.1.ToKernel? {
      SubmitOwn(s, tf, tf.x[0], tf.x[1], tf.x[2], tf.x[3], tf.x[4], 0);
    }
    hide Submit;
  }

  lemma WriteOwn(s: Kernel, tf: TrapFrame)
    requires UserRunning(s)
    ensures OwnKept(s, tf, Write(s, tf))
  {
    if Write(s, tf).Ok? && Write(s, tf).value.1.ToKernel? {
      SubmitOwn(s, tf, EP_UART, tf.x[0], tf.x[1], 0, 0, tf.x[1]);
    }
    hide Submit;
  }

  lemma RecvOwn(s: Kernel, tf: TrapFrame)
    requires UserRunning(s)
    ensures OwnKept(s, tf, Recv(s, tf))
  {
    hide RangeOk, Store;
  }

  lemma WaitOwn(s: Kernel, tf: TrapFrame)
    requires UserRunning(s)
    ensures OwnKept(s, tf, Wait(s, tf)) && OwnKept(s, tf, RestartCall(s, tf.x[0]))
  {
    assert ThreadOk(s.build, s.threads[s.current], s.current);
  }

  lemma RedirectOwn(s: Kernel, uart: seq<UartItem>, tf: TrapFrame, reason: Reason)
    requires UserRunning(s)
    ensures OwnKept(s, tf, RedirectOnly(s.(uart := uart), tf, reason))
  {
  }

  lemma AnswerOwn(s: Kernel, tf: TrapFrame, x0: u64)
    requires UserRunning(s)
    ensures OwnKept(s, tf, Ok((s, ToUser(x0))))
  {
  }

  lemma OwnButReason(s: Kernel, tf: TrapFrame)
    requires UserRunning(s)
    ensures OwnKept(s, tf, HandleTrap(s, tf))
  {
    assert Fits(s) && CurrentTaskOk(s) && s.(uart := s.uart) == s;
    hide OwnKept, Call, Write, Recv, Reply, Wait, RestartCall, Inv, RedirectOnly;
    var nr := tf.x[8];
    if !IsSvc(tf) {
      RedirectOwn(s, s.uart + [FaultLine(TaskName(s.threads[s.current]), tf.esr, tf.elr, tf.far)], tf, Fault);
    } else if nr == SYS_YIELD {
      RedirectOwn(s, s.uart, tf, Yield);
    } else if nr == SYS_WRITE {
      WriteOwn(s, tf);
    } else if nr == SYS_EXIT {
      RedirectOwn(s, s.uart, tf, Exit);
    } else if nr == SYS_IPC_CALL {
      CallOwn(s, tf);
    } else if nr == SYS_IPC_RECV {
      RecvOwn(s, tf);
    } else if nr == SYS_IPC_REPLY {
      ReplyOwn(s, tf);
    } else if nr == SYS_SUPERVISE_WAIT || nr == SYS_TASK_RESTART {
      WaitOwn(s, tf);
    } else {
      AnswerOwn(s, tf, if nr == SYS_TIME_TICKS then s.ticks else MINUS_ONE);
    }
  }

  lemma SubmitOwn(s: Kernel, tf: TrapFrame, k: nat, src: u64, len: nat, rp: u64, rc: u64, ov: u64)
    requires UserRunning(s) && 0 < k < EP_COUNT && len <= IPC_MSG_SIZE && RangeOk(src, len) && BufferOk(rp, rc)
    requires Accepting(s.eps[k]) && Submit(s, tf, k, src, len, rp, rc, ov).Ok?
    ensures var (s1, how) := Submit(s, tf, k, src, len, rp, rc, ov).value;
            && how.ToKernel? && s1.current == s.current && |s1.threads| == THREAD_COUNT
            && var t, u := s.threads[s.current], s1.threads[s.current];
               u == t.(ctx := UserCtx(tf.x, tf.sp, tf.elr, tf.spsr), reason := u.reason)
  {
    PlaceInv(s, k, src, len, rp, rc, ov);
    hide Place;
  }

  lemma ReplyOwn(s: Kernel, tf: TrapFrame)
    requires UserRunning(s)
    ensures OwnKept(s, tf, Reply(s, tf))
  {
    AwakeIsUnnamed(s);
  }

  /** Parking: the continuation and both states, and no other field. */
  lemma ParkOwn(s: Kernel)
    requires Redirected(s)
    ensures Park(s).Ok?
    ensures var t := s.threads[s.current];
            && Park(s).value.current == s.current && |Park(s).value.threads| == THREAD_COUNT
            && Park(s).value.threads[s.current] == t.(
                 cont := InReturnStep,
                 state := if Dying(t) then ThreadStopped else ThreadRunnable,
                 task := if Dying(t) then TaskDead else if IsBlock(t.reason) then TaskBlocked else TaskRunnable)
  {
    ParkInv(s);
    if Dying(s.threads[s.current]) {
      var dead := MarkDead(s);
      MarkDeadInv(s);
      DeathFromInv(dead, 0);
      DeathFromOthers(dead, 0);
      NoteDeathOthers(DeathFrom(dead, s.current, 0).value);
      hide DeathFrom, NoteDeath, Common, WaitsMatch;
    } else {
      ParkLiveEffect(s);
    }
  }

  // ---------------------------------------------------------------- every thread after a trap

  /** The control block a parking trap leaves its own task with. */
  function OwnParked(s: Kernel, tf: TrapFrame): Thread
    requires Fits(s) && 0 <= s.current < IDLE
  {
    s.threads[s.current].(
      ctx := UserCtx(tf.x, tf.sp, tf.elr, tf.spsr),
      reason := ReasonFor(tf),
      cont := InReturnStep,
      state := if Dies(tf) then ThreadStopped else ThreadRunnable,
      task := if Dies(tf) then TaskDead else if Yields(tf) then TaskRunnable else TaskBlocked)
  }

  /** Task `j` after a parking trap and before the switch: parked, woken with a value in x0, or
      untouched. */
  function Rested(s: Kernel, tf: TrapFrame, r: Kernel, j: nat): Thread
    requires Fits(s) && Fits(r) && 0 <= s.current < IDLE && j < IDLE
  {
    var t := s.threads[j];
    if j == s.current then OwnParked(s, tf)
    else if WakesUp(s, tf, j) then
      t.(ctx := WithX0(t.ctx, r.threads[j].ctx.x[0]), task := TaskRunnable, state := ThreadRunnable)
    else t
  }

  /** A parking trap, up to the next entry into EL0, seen by every thread: at rest as above, its
      quantum run down if it was charged, and entered if it is the one picked. The clock has
      moved by the ticks charged; another switch is requested if they used the quantum up. */
  lemma ParkingThreads(s: Kernel, tf: TrapFrame, w: nat, j: nat)
    requires UserRunning(s) && InSandbox(tf.elr) && Parks(s, tf) && j < IDLE
    ensures TrapStep(s, tf, w).Ok?
    ensures var r := TrapStep(s, tf, w).value;
            && r.threads[j] == Picked(Rested(s, tf, r, j), QuantumAfterTicks(s, w, j), j == r.current)
            && r.ticks == (s.ticks + w) % 0x1_0000_0000_0000_0000
            && (r.resched <==> w >= s.threads[s.current].quantum)
  {
    TrapStepInv(s, tf, w);
    ParkedThreads(s, tf, w, j);
    if j != s.current {
      OthersMove(s, tf, w, j);
      StatusTells(s, j);
      StatusTells(TrapStep(s, tf, w).value, j);
      hide Inv, TrapStep, Seated, Parks;
      RestedOther(s, tf, TrapStep(s, tf, w).value, w, j);
    }
  }

  lemma RestedOther(s: Kernel, tf: TrapFrame, r: Kernel, w: nat, j: nat)
    requires Fits(s) && Fits(r) && 0 <= s.current < IDLE && j < IDLE && j != s.current
    requires SlotsTold(s, j) && SlotsTold(r, j) && !Restarts(s, tf)
    requires StatusOf(r, j) == if WakesUp(s, tf, j) then Awake else StatusOf(s, j)
    requires exists u :: Seated(s, tf, r, w, j, u)
    ensures r.threads[j] == Picked(Rested(s, tf, r, j), QuantumAfterTicks(s, w, j), j == r.current)
  {
    hide StatusOf, MoveOf, QuantumAfterTicks;
  }

  /** Task `j` rested as `u` before the switch that made `r`. */
  ghost predicate Seated(s: Kernel, tf: TrapFrame, r: Kernel, w: nat, j: nat, u: Thread)
    requires Fits(s) && |r.threads| == THREAD_COUNT && 0 <= s.current < IDLE && j < IDLE
  {
    && (if j == s.current then u == OwnParked(s, tf) else OtherTask(s.threads[j], u))
    && r.threads[j] == Picked(u, QuantumAfterTicks(s, w, j), j == r.current)
  }

  /** The same with the rest state of another task told only as kept or woken. */
  lemma ParkedThreads(s: Kernel, tf: TrapFrame, w: nat, j: nat)
    requires UserRunning(s) && InSandbox(tf.elr) && Parks(s, tf) && j < IDLE
    ensures TrapStep(s, tf, w).Ok?
    ensures var r := TrapStep(s, tf, w).value;
            && |r.threads| == THREAD_COUNT
            && r.ticks == (s.ticks + w) % TWO64
            && (r.resched <==> w >= s.threads[s.current].quantum)
            && exists u :: Seated(s, tf, r, w, j, u)
  {
    ParksExactly(s, tf);
    HandleTrapInv(s, tf);
    HandlerOwn(s, tf);
    HandleTrapOthers(s, tf);
    RestartNeverParks(s, tf);
    NoRestartParks(s, tf);
    ClockHandled(s, tf);
    var s1 := HandleTrap(s, tf).value.0;
    hide HandleTrap, Parks, Inv;
    ReturnThreads(s, s1, tf, w, j);
  }

  lemma NoRestartParks(s: Kernel, tf: TrapFrame)
    requires Fits(s) && Parks(s, tf)
    ensures !RestartAsked(tf)
  {
  }

  /** No handler moves the clock. */
  lemma ClockHandled(s: Kernel, tf: TrapFrame)
    requires UserRunning(s) && HandleTrap(s, tf).Ok?
    ensures HandleTrap(s, tf).value.0.ticks == s.ticks
  {
  }

  /** The kernel `p` between the parking and the switch, against the kernel `s` that was trapped. */
  ghost predicate AtRest(s: Kernel, tf: TrapFrame, p: Kernel)
    requires Fits(s) && 0 <= s.current < IDLE
  {
    && |p.threads| == THREAD_COUNT && p.current == s.current && p.ticks == s.ticks
    && forall j :: 0 <= j < IDLE ==>
         && p.threads[j].quantum == s.threads[j].quantum
         && if j == s.current then p.threads[j] == OwnParked(s, tf) else OtherTask(s.threads[j], p.threads[j])
  }

  lemma PutToRest(s: Kernel, s1: Kernel, tf: TrapFrame)
    requires Fits(s) && 0 <= s.current < IDLE && Redirected(s1) && s1.current == s.current && s1.ticks == s.ticks
    requires OthersKept(s, s1)
    requires s1.threads[s.current] ==
               s.threads[s.current].(ctx := UserCtx(tf.x, tf.sp, tf.elr, tf.spsr), reason := ReasonFor(tf))
    ensures Park(s1).Ok? && AtRest(s, tf, Park(s1).value)
  {
    ParkOwn(s1);
    ParkOthers(s1);
    ParkTicks(s1);
    var p := Park(s1).value;
    hide Park, Redirected, Common;
    OthersChain(s, s1, p);
    forall j | 0 <= j < IDLE && j != s.current ensures p.threads[j].quantum == s.threads[j].quantum {
      assert OtherTask(s.threads[j], p.threads[j]);
    }
    OwnRests(s.threads[s.current], tf);
  }

  lemma OwnRests(t: Thread, tf: TrapFrame)
    ensures var u := t.(ctx := UserCtx(tf.x, tf.sp, tf.elr, tf.spsr), reason := ReasonFor(tf));
            && (Dying(u) <==> Dies(tf))
            && (!Dies(tf) ==> (IsBlock(u.reason) <==> !Yields(tf)))
  {
  }

  lemma QuantumSame(s: Kernel, p: Kernel, w: nat, j: nat)
    requires |s.threads| == |p.threads| == THREAD_COUNT && j < IDLE
    requires p.current == s.current && p.threads[j].quantum == s.threads[j].quantum
    ensures QuantumAfterTicks(p, w, j) == QuantumAfterTicks(s, w, j)
  {
  }

  lemma ReturnThreads(s: Kernel, s1: Kernel, tf: TrapFrame, w: nat, j: nat)
    requires Fits(s) && 0 <= s.current < IDLE && Redirected(s1) && s1.current == s.current && s1.ticks == s.ticks
    requires OthersKept(s, s1) && j < IDLE
    requires s1.threads[s.current] ==
               s.threads[s.current].(ctx := UserCtx(tf.x, tf.sp, tf.elr, tf.spsr), reason := ReasonFor(tf))
    ensures ReturnStep(s1, w).Ok?
    ensures var r := ReturnStep(s1, w).value;
            && |r.threads| == THREAD_COUNT
            && r.ticks == (s.ticks + w) % TWO64
            && (r.resched <==> w >= s.threads[s.current].quantum)
            && exists u :: Seated(s, tf, r, w, j, u)
  {
    ParkInv(s1);
    PutToRest(s, s1, tf);
    hide Park, Parked, Redirected, SwitchAndResume, Common, OtherTask, OwnParked, Seated;
    var p := Park(s1).value;
    SameKernelKeeps(p, p.(resched := true));
    SwitchedFrom(s, tf, p.(resched := true), w, j);
  }

  lemma SwitchedFrom(s: Kernel, tf: TrapFrame, p: Kernel, w: nat, j: nat)
    requires Fits(s) && 0 <= s.current < IDLE && Parked(p) && p.resched && AtRest(s, tf, p) && j < IDLE
    ensures SwitchAndResume(p, w).Ok?
    ensures var r := SwitchAndResume(p, w).value;
            && |r.threads| == THREAD_COUNT
            && r.ticks == (s.ticks + w) % TWO64
            && (r.resched <==> w >= s.threads[s.current].quantum)
            && exists u :: Seated(s, tf, r, w, j, u)
  {
    hide Parked, Common, SwitchAndResume, OtherTask, OwnParked, Picked, QuantumAfterTicks;
    ParkedFacts(p);
    QuantumSame(s, p, w, j);
    SwitchEffects(p, w);
    assert Seated(s, tf, SwitchAndResume(p, w).value, w, j, p.threads[j]);
  }

  lemma ParkTicks(s: Kernel)
    requires Redirected(s)
    ensures Park(s).Ok? && Park(s).value.ticks == s.ticks
  {
    ParkInv(s);
    if Dying(s.threads[s.current]) {
      ParkDyingEps(s, 0);
    } else {
      ParkLiveEffect(s);
    }
    hide Park;
  }
}
