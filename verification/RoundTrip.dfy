/** Calls and receives over whole runs, told from the registers of the two tasks alone. */
module RoundTrip {
  import opened Base
  import opened Memory
  import opened State
  import opened Machine
  import opened Invariant
  import opened Runs
  import opened Context
  import opened Overlap
  import opened RpcKernel
  import opened Shapes
  import opened Buffers
  import opened KernelGraph
  import opened LatencySteps
  import opened SavedCalls

  /** A system call with number `nr` by the running task of `s`. */
  predicate IsCall(s: Kernel, e: Event, nr: u64) {
    e.Trap? && Enabled(s, e) && TrapInside(e) && IsSvc(e.tf) && e.tf.x[8] == nr
  }

  /** The registers a trap was taken with. */
  function Trapped(e: Event): UserCtx
    requires e.Trap?
  {
    UserCtx(e.tf.x, e.tf.sp, e.tf.elr, e.tf.spsr)
  }

  /** Task `c` was parked by event `e` in `s` and has slept over the run `es` since. */
  ghost predicate SleptSince(s: Kernel, e: Event, es: seq<Event>, c: nat)
    requires Fits(s) && c < IDLE
  {
    && e.Trap? && Enabled(s, e) && s.current == c && Parks(s.(mem := e.mem), e.tf)
    && Do(s, e).Ok? && Away(Do(s, e).value, es, c)
    && Run(Do(s, e).value, es).Ok? && Run(Do(s, e).value, es).value.threads[c].task.TaskBlocked?
  }

  /** It still has the registers it trapped with. */
  lemma StillTrapped(s: Kernel, e: Event, es: seq<Event>, c: nat)
    requires Inv(s) && Saved(s) && TrapInside(e) && StaysInside(es) && c < IDLE && SleptSince(s, e, es, c)
    ensures var m := Run(Do(s, e).value, es).value;
            Inv(m) && Saved(m) && CtxOf(m, c) == Trapped(e)
  {
    var m0 := Do(s, e).value;
    SavedEvent(s, e);
    SavedRun(m0, es);
    SwapSaved(s, e.mem);
    OwnSaved(s.(mem := e.mem), e.tf, e.w);
    hide Saved, Inv, TrapStep, Parks;
    NotDeadThen(m0, es, c);
    if m0.threads[c].task.TaskBlocked? {
      BlockedResumes(m0, es, c);
    } else {
      AwakeThen(m0, es, c);
    }
  }

  /** A task that sleeps at the end of a run it was away from was not dead at its start. */
  lemma NotDeadThen(s: Kernel, es: seq<Event>, c: nat)
    requires Inv(s) && StaysInside(es) && c < IDLE && Away(s, es, c)
    requires Run(s, es).Ok? && Run(s, es).value.threads[c].task.TaskBlocked?
    ensures !s.threads[c].task.TaskDead?
  {
    if s.threads[c].task.TaskDead? {
      DeadStays(s, es, c);
    }
  }

  /** From dead a task comes back runnable, and does not block without running. */
  lemma {:induction false} DeadStays(s: Kernel, es: seq<Event>, c: nat)
    requires Fits(s) && Inv(s) && StaysInside(es) && c < IDLE && Away(s, es, c) && s.threads[c].task.TaskDead?
    ensures Run(s, es).Ok? && !Run(s, es).value.threads[c].task.TaskBlocked?
    decreases |es|
  {
    if es != [] {
      assert TrapInside(es[0]);
      StepOtherCtx(s, es[0], c);
      var m := Do(s, es[0]).value;
      hide Inv, Do;
      if |es| > 1 {
        if m.threads[c].task.TaskDead? {
          DeadStays(m, es[1..], c);
        } else {
          AwayAlive(m, es[1..], c);
        }
      }
    }
  }

  lemma AwayAlive(s: Kernel, es: seq<Event>, c: nat)
    requires Inv(s) && StaysInside(es) && c < IDLE && Away(s, es, c)
    requires !s.threads[c].task.TaskDead? && !s.threads[c].task.TaskBlocked?
    ensures Run(s, es).Ok? && !Run(s, es).value.threads[c].task.TaskBlocked?
  {
    OneRunningTask(s, c);
    RunnableResumes(s, es, c);
    RunInv(s, es);
    OneRunningTask(Run(s, es).value, c);
  }

  /** An awake task does not come to sleep without running. */
  lemma AwakeThen(s: Kernel, es: seq<Event>, c: nat)
    requires Inv(s) && StaysInside(es) && c < IDLE && Away(s, es, c)
    requires !s.threads[c].task.TaskDead?
    requires Run(s, es).Ok? && Run(s, es).value.threads[c].task.TaskBlocked?
    ensures s.threads[c].task.TaskBlocked?
  {
    if !s.threads[c].task.TaskBlocked? {
      AwayAlive(s, es, c);
    }
  }

  /** A sleeper's registers say in which slot it is. */
  lemma SlotOf(s: Kernel, c: nat)
    requires Inv(s) && Saved(s) && c < IDLE && s.threads[c].task.TaskBlocked?
    ensures var x := CtxOf(s, c).x;
            && (x[8] == 4 ==> 0 < x[0] < EP_COUNT && s.eps[x[0]].caller == c)
            && (x[8] == 5 ==> 0 < x[0] < EP_COUNT && s.eps[x[0]].receiver == c)
  {
    IsNamedOnce(s, c);
    hide Inv;
  }

  // ---------------------------------------------------------------- the reply

  /** An accepted reply, seen from the replier: it gets 0. */
  ghost predicate Replied(s: Kernel, e: Event, k: u64)
    requires Fits(s)
  {
    IsCall(s, e, 6) && e.tf.x[0] == k && Do(s, e).Ok? && Do(s, e).value.el0.x[0] == 0
  }

  lemma RepliedMeans(s: Kernel, e: Event, k: u64)
    requires Inv(s) && Fits(s) && 0 < k < EP_COUNT && Replied(s, e, k) && s.mem == e.mem
    ensures UserRunning(s) && Replies(s, e.tf) && EndpointOf(e.tf) == k
    ensures e.tf.x[2] <= IPC_MSG_SIZE && s.eps[k].owner == s.current && s.eps[k].caller != NONE
  {
    assert s.(mem := e.mem) == s;
    ReplyEps(s, e.tf, k);
    AnsweredRuns(s, e.tf, e.w);
    if !Replies(s, e.tf) {
      RepliesOr(s, e.tf);
    }
    hide Inv, HandleTrap, MoveOf, ReturnStep;
  }

  lemma RepliesOr(s: Kernel, tf: TrapFrame)
    requires UserRunning(s) && IsSvc(tf) && tf.x[8] == 6 && 0 < tf.x[0] < EP_COUNT && !Replies(s, tf)
    ensures HandleTrap(s, tf) == Ok((s, ToUser(MINUS_ONE)))
  {
  }

  /** What a reply leaves with the caller of endpoint `k`: exactly the delivered bytes at the
      address the endpoint holds, their number in x0, every other register kept. */
  lemma ReplyLands(s: Kernel, e: Event, k: u64, c: nat)
    requires Inv(s) && Saved(s) && Fits(s) && 0 < k < EP_COUNT && Replied(s, e, k) && s.mem == e.mem
    requires c < IDLE && s.eps[k].caller == c && CtxOf(s, c).x[8] == 4
    ensures Do(s, e).Ok?
    ensures var r, x := Do(s, e).value, CtxOf(s, c).x;
            var n := Min(e.tf.x[2], x[4]);
            && n <= e.tf.x[2] <= IPC_MSG_SIZE && RangeOk(e.tf.x[1], e.tf.x[2])
            && Peek(r.mem, x[3], n) == Arrives(Load(e.mem, e.tf.x[1], e.tf.x[2])[..n], Overtake(x[3], e.tf.x[1], n))
            && CtxOf(r, c) == WithX0(CtxOf(s, c), n) && !r.threads[c].task.TaskBlocked?
  {
    RepliedMeans(s, e, k);
    assert s.(mem := e.mem) == s;
    ReplyArrives(s, e.tf, e.w);
    ReplyReturns(s, e.tf, e.w, k, e.tf.x[1], e.tf.x[2]);
    NamedSleepers(s, k);
    AwakeIsUnnamed(s);
    TrapOtherCtx(s, e.tf, e.w, c);
    assert SavedAt(s, k);
    CallerGone(s, e, k, c);
    hide Inv, TrapStep, Saved;
  }

  /** The replied caller sleeps no longer. */
  lemma CallerGone(s: Kernel, e: Event, k: u64, c: nat)
    requires Inv(s) && Fits(s) && 0 < k < EP_COUNT && Replied(s, e, k) && s.mem == e.mem
    requires c < IDLE && s.eps[k].caller == c
    ensures Do(s, e).Ok? && !Do(s, e).value.threads[c].task.TaskBlocked?
  {
    RepliedMeans(s, e, k);
    assert s.(mem := e.mem) == s;
    AwakeIsUnnamed(s);
    OthersMove(s, e.tf, e.w, c);
    ReplyEps(s, e.tf, k);
    StepInv(s, e);
    StatusTells(Do(s, e).value, c);
    assert MoveOf(s, e.tf, k).Replied? && Rouses(s, e.tf, k, c);
    assert k == EP_UART || k == EP_BENCH;
    hide Inv, TrapStep, HandleTrap, StatusOf;
  }

  /** The round trip: from an accepted call with registers x0..x4, over any run while the caller
      sleeps, an accepted reply on the same endpoint puts the first min(reply length, x4) bytes
      of the reply at address x3, as a rising copy delivers them, and the caller comes out of it
      with exactly the registers it called with, but for their number in x0. */
  lemma ReplyReachesCaller(s: Kernel, call: Event, es: seq<Event>, reply: Event, c: nat)
    requires Inv(s) && Saved(s) && StaysInside(es) && c < IDLE
    requires IsCall(s, call, 4) && SleptSince(s, call, es, c)
    requires Replied(Run(Do(s, call).value, es).value, reply, call.tf.x[0])
    ensures var m := Run(Do(s, call).value, es).value;
            var n := Min(reply.tf.x[2], call.tf.x[4]);
            && Do(m, reply).Ok?
            && n <= reply.tf.x[2] <= IPC_MSG_SIZE && RangeOk(reply.tf.x[1], reply.tf.x[2])
            && var r, sent := Do(m, reply).value, Load(reply.mem, reply.tf.x[1], reply.tf.x[2])[..n];
               && Peek(r.mem, call.tf.x[3], n) == Arrives(sent, Overtake(call.tf.x[3], reply.tf.x[1], n))
               && CtxOf(r, c) == WithX0(Trapped(call), n) && !r.threads[c].task.TaskBlocked?
  {
    StillTrapped(s, call, es, c);
    var m := Run(Do(s, call).value, es).value;
    SlotOf(m, c);
    SwapSaved(m, reply.mem);
    assert m.(mem := reply.mem).(mem := reply.mem) == m.(mem := reply.mem);
    hide Inv, Saved, Run, TrapStep, IsSvc;
    ReplyLands(m.(mem := reply.mem), reply, call.tf.x[0], c);
  }

  // ---------------------------------------------------------------- the request

  /** Where a request's bytes lie, and how many there are. */
  function SentFrom(tf: TrapFrame): u64 {
    if tf.x[8] == 4 then tf.x[1] else tf.x[0]
  }

  function SentCount(tf: TrapFrame): u64 {
    if tf.x[8] == 4 then tf.x[2] else tf.x[1]
  }

  /** An accepted request to endpoint `k`: a call that names it, or a write sent to the server. */
  ghost predicate Requested(s: Kernel, e: Event, k: u64)
    requires Fits(s)
  {
    && ((IsCall(s, e, 4) && e.tf.x[0] == k) || (IsCall(s, e, 2) && k == 1))
    && Parks(s.(mem := e.mem), e.tf)
  }

  lemma RequestLands(s: Kernel, e: Event, k: u64, c: nat)
    requires Inv(s) && Saved(s) && Fits(s) && 0 < k < EP_COUNT && Requested(s, e, k) && s.mem == e.mem
    requires c < IDLE && s.eps[k].receiver == c && CtxOf(s, c).x[8] == 5
    ensures Do(s, e).Ok?
    ensures var r, x := Do(s, e).value, CtxOf(s, c).x;
            var src, len := SentFrom(e.tf), SentCount(e.tf);
            var n := Min(len, x[2]);
            && len <= IPC_MSG_SIZE && RangeOk(src, len)
            && Peek(r.mem, x[1], n) == Arrives(Load(e.mem, src, len)[..n], Overtake(x[1], src, n))
            && CtxOf(r, c) == WithX0(CtxOf(s, c), n) && !r.threads[c].task.TaskBlocked?
  {
    assert s.(mem := e.mem) == s;
    RequestResult(s, e, k);
    AwakeIsUnnamed(s);
    NamedSleepers(s, k);
    TrapOtherCtx(s, e.tf, e.w, c);
    assert SavedAt(s, k);
    ReceiverGone(s, e, k, c);
    var r, ep, src, len := Do(s, e).value, s.eps[k], SentFrom(e.tf), SentCount(e.tf);
    hide Inv, TrapStep, Saved, Parks;
    DirectCopy(s.mem, r.mem, ep.bufPtr, src, Min(len, ep.bufCap), Load(s.mem, src, len));
  }

  lemma RequestResult(s: Kernel, e: Event, k: u64)
    requires Inv(s) && Fits(s) && 0 < k < EP_COUNT && Requested(s, e, k) && s.mem == e.mem
    ensures UserRunning(s) && Do(s, e).Ok?
    ensures SentCount(e.tf) <= IPC_MSG_SIZE && RangeOk(SentFrom(e.tf), SentCount(e.tf)) && Accepting(s.eps[k])
    ensures Do(s, e).value.mem == MemAfterSubmit(s, k, SentFrom(e.tf), SentCount(e.tf))
    ensures s.eps[k].receiver != NONE ==>
              X0Of(Do(s, e).value, s.eps[k].receiver) == Min(SentCount(e.tf), s.eps[k].bufCap)
  {
    assert s.(mem := e.mem) == s;
    assert Fits(s) && 0 <= s.current < IDLE;
    hide Inv, TrapStep, Parks;
    if e.tf.x[8] == 4 {
      CallResult(s, e.tf, e.w, k);
    } else {
      WriteResult(s, e.tf, e.w);
    }
  }

  lemma CallResult(s: Kernel, tf: TrapFrame, w: nat, k: u64)
    requires UserRunning(s) && InSandbox(tf.elr) && IsSvc(tf) && tf.x[8] == 4 && tf.x[0] == k && Parks(s, tf)
    ensures 0 < k < EP_COUNT && tf.x[2] <= IPC_MSG_SIZE && RangeOk(tf.x[1], tf.x[2]) && Accepting(s.eps[k])
    ensures TrapStep(s, tf, w).Ok? && TrapStep(s, tf, w).value.mem == MemAfterSubmit(s, k, tf.x[1], tf.x[2])
    ensures s.eps[k].receiver != NONE ==>
              X0Of(TrapStep(s, tf, w).value, s.eps[k].receiver) == Min(tf.x[2], s.eps[k].bufCap)
  {
    SubmitReturns(s, tf, w, k, tf.x[1], tf.x[2], tf.x[3], tf.x[4], 0, k);
    hide Inv, Common, ReturnStep;
  }

  lemma WriteResult(s: Kernel, tf: TrapFrame, w: nat)
    requires UserRunning(s) && InSandbox(tf.elr) && IsSvc(tf) && tf.x[8] == 2 && Parks(s, tf)
    ensures tf.x[1] <= IPC_MSG_SIZE && RangeOk(tf.x[0], tf.x[1]) && Accepting(s.eps[1])
    ensures TrapStep(s, tf, w).Ok? && TrapStep(s, tf, w).value.mem == MemAfterSubmit(s, 1, tf.x[0], tf.x[1])
    ensures s.eps[1].receiver != NONE ==>
              X0Of(TrapStep(s, tf, w).value, s.eps[1].receiver) == Min(tf.x[1], s.eps[1].bufCap)
  {
    RoutedWrite(s, tf);
    SubmitReturns(s, tf, w, EP_UART, tf.x[0], tf.x[1], 0, 0, tf.x[1], EP_UART);
    hide Inv, Common, ReturnStep, HandleTrap;
  }

  /** The receiver that got the request sleeps no longer. */
  lemma ReceiverGone(s: Kernel, e: Event, k: u64, c: nat)
    requires Inv(s) && Fits(s) && 0 < k < EP_COUNT && Requested(s, e, k) && s.mem == e.mem
    requires c < IDLE && s.eps[k].receiver == c
    ensures Do(s, e).Ok? && !Do(s, e).value.threads[c].task.TaskBlocked?
  {
    RequestResult(s, e, k);
    assert s.(mem := e.mem) == s;
    AwakeIsUnnamed(s);
    OthersMove(s, e.tf, e.w, c);
    ParkingMoves(s, e.tf, k);
    StepInv(s, e);
    StatusTells(Do(s, e).value, c);
    assert MoveOf(s, e.tf, k).Asked? && Rouses(s, e.tf, k, c);
    assert k == EP_UART || k == EP_BENCH;
    hide Inv, TrapStep, StatusOf;
  }

  /** The other half: from a receive that went to sleep with registers x0..x2, over any run while
      it sleeps, an accepted request on the same endpoint puts the first min(length, x2) bytes of
      the message at address x1, and the receiver comes out of it with exactly the registers it
      received with, but for their number in x0. */
  lemma RequestReachesReceiver(s: Kernel, recv: Event, es: seq<Event>, request: Event, c: nat)
    requires Inv(s) && Saved(s) && StaysInside(es) && c < IDLE
    requires IsCall(s, recv, 5) && SleptSince(s, recv, es, c)
    requires Requested(Run(Do(s, recv).value, es).value, request, recv.tf.x[0])
    ensures var m := Run(Do(s, recv).value, es).value;
            var src, len := SentFrom(request.tf), SentCount(request.tf);
            var n := Min(len, recv.tf.x[2]);
            && Do(m, request).Ok? && len <= IPC_MSG_SIZE && RangeOk(src, len)
            && var r := Do(m, request).value;
               && Peek(r.mem, recv.tf.x[1], n) ==
                    Arrives(Load(request.mem, src, len)[..n], Overtake(recv.tf.x[1], src, n))
               && CtxOf(r, c) == WithX0(Trapped(recv), n) && !r.threads[c].task.TaskBlocked?
  {
    StillTrapped(s, recv, es, c);
    var m := Run(Do(s, recv).value, es).value;
    SlotOf(m, c);
    SwapSaved(m, request.mem);
    assert m.(mem := request.mem).(mem := request.mem) == m.(mem := request.mem);
    hide Inv, Saved, Run, TrapStep, IsSvc, Parks;
    RequestLands(m.(mem := request.mem), request, recv.tf.x[0], c);
  }
}
