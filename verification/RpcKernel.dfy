/** Every endpoint of the kernel refines the abstract call protocol, over every run. */
module RpcKernel {
  import opened Base
  import opened Memory
  import opened State
  import opened Ipc
  import opened Machine
  import opened Invariant
  import opened Runs
  import opened Context
  import opened Frames
  import opened Overlap
  import opened Rpc

  /** The trap asks endpoint `k` for something: an explicit call, or a SYS_write that the
      MICRO kernel routes to the UART endpoint. */
  function Asks(s: Kernel, tf: TrapFrame, k: nat): Option<Request> {
    if IsSvc(tf) && tf.x[8] == SYS_IPC_CALL && tf.x[0] == k && RangeOk(tf.x[1], tf.x[2]) then
      Some(Request(s.current, Load(s.mem, tf.x[1], tf.x[2]), tf.x[3], tf.x[4], false))
    else if IsSvc(tf) && tf.x[8] == SYS_WRITE && k == EP_UART && s.build.micro && s.current == TASK_A
            && RangeOk(tf.x[0], tf.x[1]) then
      Some(Request(s.current, Load(s.mem, tf.x[0], tf.x[1]), 0, 0, true))
    else None
  }

  /** Where the bytes of that request lie. */
  function Source(tf: TrapFrame): u64 {
    if tf.x[8] == SYS_IPC_CALL then tf.x[1] else tf.x[0]
  }

  /** How far the sleeping receiver's buffer starts inside the bytes the trap delivers. */
  function GapAt(s: Kernel, tf: TrapFrame, k: nat): nat
    requires |s.eps| == EP_COUNT && k < EP_COUNT && Asks(s, tf, k).Some?
  {
    var ep := s.eps[k];
    Overtake(ep.bufPtr, Source(tf), Min(|Asks(s, tf, k).value.msg|, ep.bufCap))
  }

  function X0Of(s: Kernel, slot: int): u64 {
    if 0 <= slot < |s.threads| then s.threads[slot].ctx.x[0] else 0
  }

  function Peek(m: Mem, ptr: u64, n: nat): (bytes: seq<byte>) {
    if n < TWO64 && RangeOk(ptr, n) then Load(m, ptr, n) else []
  }

  /** What a trap by the current task of `s` lets its parties observe at endpoint `k`, given
      the kernel `r` after the step: which task blocked, was answered or died, the values in
      x0, and the bytes in the owner's buffer. */
  function Observe(s: Kernel, tf: TrapFrame, r: Kernel, k: nat): (acts: seq<Act>)
    requires Fits(s) && Fits(r) && s.current != NONE && k < EP_COUNT
  {
    var ep := s.eps[k];
    var me := r.threads[s.current];
    if Asks(s, tf, k).Some? && me.task.TaskBlocked? then
      [Ask(Asks(s, tf, k).value)]
      + if ep.receiver == NONE then []
        else [Take(Peek(r.mem, ep.bufPtr, X0Of(r, ep.receiver)), ep.bufCap, GapAt(s, tf, k))]
    else if IsSvc(tf) && tf.x[8] == SYS_IPC_RECV && tf.x[0] == k && me.task.TaskRunning?
            && r.el0.x[0] != MINUS_ONE then
      [Take(Peek(r.mem, tf.x[1], r.el0.x[0]), tf.x[2], 0)]
    else if IsSvc(tf) && tf.x[8] == SYS_IPC_REPLY && tf.x[0] == k && r.el0.x[0] == 0 then
      [Answer(ep.caller, tf.x[2], X0Of(r, ep.caller))]
    else if me.task.TaskDead? && Serves(ep, s.current) then
      [Abort(ep.caller, X0Of(r, ep.caller))]
    else []
  }

  /** The endpoint stores exactly the protocol state. */
  predicate Matches(ep: Endpoint, p: Protocol)
    requires EndpointFits(ep)
  {
    && (p.call.None? <==> ep.caller == NONE)
    && (p.call.Some? ==>
          var c := p.call.value;
          && c.slot == ep.caller && ep.replyPtr == c.reply
          && (if c.isWrite then ep.override == |c.msg| && ep.replyCap == 0
              else ep.override == 0 && ep.replyCap == c.cap))
    && (p.untaken.None? <==> !ep.hasPending)
    && (p.untaken.Some? ==> p.untaken.value == ep.pendingMsg[..ep.pendingLen])
  }

  // ---------------------------------------------------------------- the handlers, at endpoint k

  lemma PlaceEps(s: Kernel, k: nat, src: u64, len: nat, replyPtr: u64, replyCap: u64, override: u64)
    requires UserRunning(s) && 0 < k < EP_COUNT && len <= IPC_MSG_SIZE && RangeOk(src, len)
    requires BufferOk(replyPtr, replyCap)
    requires s.eps[k].owner != NONE && !s.eps[k].hasPending && s.eps[k].caller == NONE
    ensures var ep := s.eps[k];
            var asked := SetCaller(ep, s.current, replyPtr, replyCap, override);
            var out := Place(s, k, asked, src, len);
            && out.Ok? && OthersKept(s, out.value) && Common(out.value) && OneRunning(out.value)
            && WaitsMatch(out.value, Blocked(out.value) + {s.current})
            && (if ep.receiver == NONE then
                  out.value.mem == s.mem
                  && out.value.eps == s.eps[k := SetPending(asked, Load(s.mem, src, len))]
                else
                  var n := Min(len, ep.bufCap);
                  && out.value.eps == s.eps[k := ClearReceiver(asked)]
                  && out.value.mem == (if n > 0 then CopyWithin(s.mem, ep.bufPtr, src, n) else s.mem)
                  && ep.receiver != s.current
                  && 0 <= ep.receiver < IDLE
                  && out.value.threads[ep.receiver].task.TaskRunnable?
                  && out.value.threads[ep.receiver].ctx.x[0] == n)
  {
    PlaceInv(s, k, src, len, replyPtr, replyCap, override);
    PlaceOthers(s, k, src, len, replyPtr, replyCap, override);
    assert s.eps[k].receiver != NONE ==> Named(s, ReceiverOf(k)) in Blocked(s);
  }

  /** A task that waits to run keeps its x0 through the return step. */
  lemma ReturnKeepsX0(s: Kernel, w: nat, j: nat)
    requires Redirected(s) && j < IDLE && j != s.current && s.threads[j].task.TaskRunnable?
    ensures ReturnStep(s, w).Ok?
    ensures ReturnStep(s, w).value.threads[j].ctx == s.threads[j].ctx
  {
    ParkInv(s);
    ParkOthers(s);
    var p := Park(s).value.(resched := true);
    SameKernelKeeps(Park(s).value, p);
    SwitchKeepsCtx(p, w);
    assert OtherTask(s.threads[j], p.threads[j]);
  }

  /** An accepted request and the caller's return step, as any endpoint `i`, the memory and
      the woken receiver see them. */
  lemma SubmitReturns(s: Kernel, tf: TrapFrame, w: nat, k: nat, src: u64, len: nat,
                      replyPtr: u64, replyCap: u64, override: u64, i: nat)
    requires UserRunning(s) && InSandbox(tf.elr) && 0 < k < EP_COUNT && i < EP_COUNT
    requires len <= IPC_MSG_SIZE && RangeOk(src, len) && BufferOk(replyPtr, replyCap)
    requires Accepting(s.eps[k])
    ensures var out := Submit(s, tf, k, src, len, replyPtr, replyCap, override);
            out.Ok? && out.value.1.ToKernel? && ReturnStep(out.value.0, w).Ok?
    ensures var r := ReturnStep(Submit(s, tf, k, src, len, replyPtr, replyCap, override).value.0, w).value;
            && r.threads[s.current].task.TaskBlocked?
            && r.eps[i] == (if i == k then AfterSubmit(s, k, src, len, replyPtr, replyCap, override) else s.eps[i])
            && r.mem == MemAfterSubmit(s, k, src, len)
            && (s.eps[k].receiver != NONE ==> X0Of(r, s.eps[k].receiver) == Min(len, s.eps[k].bufCap))
            && r.uart == s.uart && r.death == s.death && r.waiter == s.waiter && r.build == s.build
  {
    SubmitHandled(s, tf, k, src, len, replyPtr, replyCap, override);
    var s1 := Submit(s, tf, k, src, len, replyPtr, replyCap, override).value.0;
    ReturnEps(s1, w, i);
    if s.eps[k].receiver != NONE {
      ReturnKeepsX0(s1, w, s.eps[k].receiver);
    }
  }

  function AfterSubmit(s: Kernel, k: nat, src: u64, len: nat, replyPtr: u64, replyCap: u64, override: u64): Endpoint
    requires Fits(s) && k < EP_COUNT && NONE < s.current && len <= IPC_MSG_SIZE && RangeOk(src, len)
  {
    var asked := SetCaller(s.eps[k], s.current, replyPtr, replyCap, override);
    if asked.receiver == NONE then SetPending(asked, Load(s.mem, src, len)) else ClearReceiver(asked)
  }

  function MemAfterSubmit(s: Kernel, k: nat, src: u64, len: nat): Mem
    requires Fits(s) && k < EP_COUNT && len <= IPC_MSG_SIZE && RangeOk(src, len)
  {
    var ep := s.eps[k];
    var n := Min(len, ep.bufCap);
    if ep.receiver != NONE && n > 0 then CopyWithin(s.mem, ep.bufPtr, src, n) else s.mem
  }

  lemma SubmitHandled(s: Kernel, tf: TrapFrame, k: nat, src: u64, len: nat,
                      replyPtr: u64, replyCap: u64, override: u64)
    requires UserRunning(s) && InSandbox(tf.elr) && 0 < k < EP_COUNT
    requires len <= IPC_MSG_SIZE && RangeOk(src, len) && BufferOk(replyPtr, replyCap)
    requires Accepting(s.eps[k])
    ensures var out := Submit(s, tf, k, src, len, replyPtr, replyCap, override);
            out.Ok? && out.value.1.ToKernel? && Redirected(out.value.0)
    ensures var s1 := Submit(s, tf, k, src, len, replyPtr, replyCap, override).value.0;
            && s1.current == s.current && s1.threads[s.current].reason.IpcBlock?
            && s1.eps == s.eps[k := AfterSubmit(s, k, src, len, replyPtr, replyCap, override)]
            && s1.mem == MemAfterSubmit(s, k, src, len)
            && s1.uart == s.uart && s1.death == s.death && s1.waiter == s.waiter && s1.build == s.build
            && (s.eps[k].receiver != NONE ==>
                  var o := s.eps[k].receiver;
                  && 0 <= o < IDLE && o != s.current && s1.threads[o].task.TaskRunnable?
                  && s1.threads[o].ctx.x[0] == Min(len, s.eps[k].bufCap))
  {
    PlaceEps(s, k, src, len, replyPtr, replyCap, override);
    SubmitInv(s, tf, k, src, len, replyPtr, replyCap, override);
  }

  /** The protocol's side of an accepted request. */
  lemma AskSim(ep: Endpoint, p: Protocol, c: Request, after: Endpoint,
                got: seq<byte>, gap: nat)
    requires EndpointFits(ep) && EndpointFits(after) && Matches(ep, p) && Accepting(ep) && |c.msg| <= IPC_MSG_SIZE
    requires c.slot >= 0
    requires after.caller == c.slot && after.replyPtr == c.reply && after.hasPending == (ep.receiver == NONE)
    requires if c.isWrite then after.override == |c.msg| && after.replyCap == 0
             else after.override == 0 && after.replyCap == c.cap
    requires after.hasPending ==> after.pendingMsg[..after.pendingLen] == c.msg
    requires ep.receiver != NONE ==> Delivers(Take(got, ep.bufCap, gap), c.msg)
    ensures var acts := [Ask(c)] + if ep.receiver == NONE then [] else [Take(got, ep.bufCap, gap)];
            Acts(p, acts).Some? && Matches(after, Acts(p, acts).value)
  {
    assert Acts(p, [Ask(c)]) == Some(Protocol(Some(c), Some(c.msg))) by {
      assert [Ask(c)][1..] == [];
    }
    if ep.receiver == NONE {
      assert [Ask(c)] + [] == [Ask(c)];
    } else {
      var t := Take(got, ep.bufCap, gap);
      ActsChain(p, [Ask(c)], [t]);
      assert [t][1..] == [];
    }
  }

  lemma LoadCut(m: Mem, src: u64, len: nat, n: nat)
    requires InSandbox(src) && src + len <= SANDBOX_END && n <= len
    ensures Load(m, src, n) == Load(m, src, len)[..n]
  {
  }

  /** What a direct copy leaves in the buffer. */
  lemma DirectCopy(m: Mem, r: Mem, dst: u64, src: u64, n: nat, msg: seq<byte>)
    requires |msg| <= IPC_MSG_SIZE && RangeOk(src, |msg|) && n <= |msg| && msg == Load(m, src, |msg|)
    requires n > 0 ==> RangeOk(dst, n)
    requires r == if n > 0 then CopyWithin(m, dst, src, n) else m
    ensures Peek(r, dst, n) == Arrives(msg[..n], Overtake(dst, src, n))
  {
    if n > 0 {
      CopyDelivers(m, dst, src, n);
      LoadCut(m, src, |msg|, n);
      StoreThenPeek(m, r, dst, Arrives(msg[..n], Overtake(dst, src, n)));
    }
  }

  // ---------------------------------------------------------------- one trap

  ghost predicate Simulated(s: Kernel, tf: TrapFrame, r: Kernel, k: nat, p: Protocol)
    requires Fits(s) && Fits(r) && s.current != NONE && k < EP_COUNT
  {
    Acts(p, Observe(s, tf, r, k)).Some? && Matches(r.eps[k], Acts(p, Observe(s, tf, r, k)).value)
  }

  lemma OneAct(p: Protocol, a: Act)
    ensures Acts(p, [a]) == Act1(p, a)
  {
    assert [a][1..] == [];
  }

  /** A trap that is answered at once leaves the task running. */
  lemma AnsweredRuns(s: Kernel, tf: TrapFrame, w: nat)
    requires UserRunning(s) && HandleTrap(s, tf).Ok? && HandleTrap(s, tf).value.1.ToUser?
    ensures var (s1, how) := HandleTrap(s, tf).value;
            var r := TrapStep(s, tf, w).value;
            && TrapStep(s, tf, w) == Ok(s1.(el0 := FrameCtx(tf, how.x0)))
            && r.el0.x[0] == how.x0
            && r.threads[s.current].task.TaskRunning?
            && r.threads == s1.threads && r.eps == s1.eps && r.mem == s1.mem
  {
    HandleTrapInv(s, tf);
  }

  /** A request the handler hands to `Submit`. */
  lemma AcceptedSim(s: Kernel, tf: TrapFrame, w: nat, k: nat, p: Protocol,
                    e: nat, src: u64, len: nat, rp: u64, rc: u64, ov: u64)
    requires Fits(s) && UserRunning(s) && InSandbox(tf.elr) && 0 < k < EP_COUNT && Matches(s.eps[k], p)
    requires 0 < e < EP_COUNT && len <= IPC_MSG_SIZE && RangeOk(src, len) && BufferOk(rp, rc)
    requires Accepting(s.eps[e])
    requires HandleTrap(s, tf) == Submit(s, tf, e, src, len, rp, rc, ov)
    requires IsSvc(tf) && (tf.x[8] == SYS_IPC_CALL || tf.x[8] == SYS_WRITE)
    requires e != k ==> Asks(s, tf, k).None?
    requires e == k ==> Asks(s, tf, k) == Some(Request(s.current, Load(s.mem, src, len), rp, rc, tf.x[8] == SYS_WRITE))
                        && Source(tf) == src && ov == (if tf.x[8] == SYS_WRITE then len else 0)
                        && (tf.x[8] == SYS_WRITE ==> rc == 0)
    ensures TrapStep(s, tf, w).Ok? && Simulated(s, tf, TrapStep(s, tf, w).value, k, p)
  {
    hide Inv, Redirected, Common;
    SubmitReturns(s, tf, w, e, src, len, rp, rc, ov, k);
    var r := TrapStep(s, tf, w).value;
    if e == k {
      var c := Asks(s, tf, k).value;
      var ep := s.eps[k];
      if ep.receiver != NONE {
        DirectCopy(s.mem, r.mem, ep.bufPtr, src, Min(len, ep.bufCap), c.msg);
      } else {
        assert r.eps[k].pendingMsg[..len] == c.msg;
      }
      AskSim(ep, p, c, r.eps[k], Peek(r.mem, ep.bufPtr, X0Of(r, ep.receiver)), GapAt(s, tf, k));
    }
  }

  lemma RequestSim(s: Kernel, tf: TrapFrame, w: nat, k: nat, p: Protocol)
    requires Fits(s) && UserRunning(s) && InSandbox(tf.elr) && 0 < k < EP_COUNT && Matches(s.eps[k], p)
    requires IsSvc(tf) && (tf.x[8] == SYS_IPC_CALL || tf.x[8] == SYS_WRITE)
    ensures TrapStep(s, tf, w).Ok? && Simulated(s, tf, TrapStep(s, tf, w).value, k, p)
  {
    hide Inv, Redirected, Common;
    ParksExactly(s, tf);
    HandleTrapInv(s, tf);
    if !Parks(s, tf) {
      AnsweredRuns(s, tf, w);
      assert HandleTrap(s, tf).value.0.eps == s.eps;
    } else if tf.x[8] == SYS_IPC_CALL {
      AcceptedSim(s, tf, w, k, p, tf.x[0], tf.x[1], tf.x[2], tf.x[3], tf.x[4], 0);
    } else {
      AcceptedSim(s, tf, w, k, p, EP_UART, tf.x[0], tf.x[1], 0, 0, tf.x[1]);
    }
  }

  /** A reception answered from the queue. */
  lemma RecvNowSim(s: Kernel, tf: TrapFrame, w: nat, k: nat, p: Protocol)
    requires UserRunning(s) && 0 < k < EP_COUNT && Matches(s.eps[k], p)
    requires IsSvc(tf) && tf.x[8] == SYS_IPC_RECV
    requires HandleTrap(s, tf).Ok? && HandleTrap(s, tf).value.1.ToUser?
    ensures TrapStep(s, tf, w).Ok? && Simulated(s, tf, TrapStep(s, tf, w).value, k, p)
  {
    AnsweredRuns(s, tf, w);
    var r := TrapStep(s, tf, w).value;
    if Recv(s, tf) != Refuse(s) && tf.x[0] == k {
      var ep := s.eps[k];
      var n := Min(ep.pendingLen, tf.x[2]);
      StoreThenPeek(s.mem, r.mem, tf.x[1], ep.pendingMsg[..n]);
      assert ep.pendingMsg[..n] == ep.pendingMsg[..ep.pendingLen][..n];
      OneAct(p, Take(Peek(r.mem, tf.x[1], n), tf.x[2], 0));
    }
  }

  lemma StoreThenPeek(m: Mem, r: Mem, ptr: u64, bytes: seq<byte>)
    requires |bytes| <= IPC_MSG_SIZE && (|bytes| > 0 ==> RangeOk(ptr, |bytes|))
    requires r == if |bytes| > 0 then Store(m, ptr, bytes) else m
    ensures Peek(r, ptr, |bytes|) == bytes
  {
    if |bytes| > 0 {
      assert Load(Store(m, ptr, bytes), ptr, |bytes|) == bytes;
    }
  }

  lemma RecvSim(s: Kernel, tf: TrapFrame, w: nat, k: nat, p: Protocol)
    requires Fits(s) && UserRunning(s) && InSandbox(tf.elr) && 0 < k < EP_COUNT && Matches(s.eps[k], p)
    requires IsSvc(tf) && tf.x[8] == SYS_IPC_RECV
    ensures TrapStep(s, tf, w).Ok? && Simulated(s, tf, TrapStep(s, tf, w).value, k, p)
  {
    hide Inv, Redirected, Common;
    ParksExactly(s, tf);
    HandleTrapInv(s, tf);
    if Parks(s, tf) {
      ReturnEps(HandleTrap(s, tf).value.0, w, k);
    } else {
      RecvNowSim(s, tf, w, k, p);
    }
  }

  lemma ReplySim(s: Kernel, tf: TrapFrame, w: nat, k: nat, p: Protocol)
    requires Fits(s) && UserRunning(s) && InSandbox(tf.elr) && 0 < k < EP_COUNT && Matches(s.eps[k], p)
    requires IsSvc(tf) && tf.x[8] == SYS_IPC_REPLY
    ensures TrapStep(s, tf, w).Ok? && Simulated(s, tf, TrapStep(s, tf, w).value, k, p)
  {
    hide Inv, Redirected, Common;
    ParksExactly(s, tf);
    HandleTrapInv(s, tf);
    AnsweredRuns(s, tf, w);
    var r := TrapStep(s, tf, w).value;
    if r.el0.x[0] == 0 && tf.x[0] == k {
      var ep := s.eps[k];
      assert Named(s, CallerOf(k)) == ep.caller;
      OneAct(p, Answer(ep.caller, tf.x[2], X0Of(r, ep.caller)));
    }
  }

  predicate Plain(tf: TrapFrame) {
    !(IsSvc(tf) && (tf.x[8] == SYS_WRITE || SYS_IPC_CALL <= tf.x[8] <= SYS_IPC_REPLY))
  }

  /** The handlers outside ipc.c leave the endpoints and the memory to the return step. */
  lemma PlainKeepsEps(s: Kernel, tf: TrapFrame)
    requires UserRunning(s) && Plain(tf) && HandleTrap(s, tf).Ok?
    ensures var (s1, how) := HandleTrap(s, tf).value;
            s1.eps == s.eps && s1.mem == s.mem && s1.current == s.current && s1.build == s.build
  {
    HandleTrapInv(s, tf);
  }

  /** What such a trap shows: an abort, if it kills a task that serves a caller. */
  lemma PlainObserved(s: Kernel, tf: TrapFrame, r: Kernel, k: nat)
    requires Fits(s) && Fits(r) && s.current != NONE && k < EP_COUNT && Plain(tf)
    ensures Observe(s, tf, r, k) ==
              if r.threads[s.current].task.TaskDead? && Serves(s.eps[k], s.current)
              then [Abort(s.eps[k].caller, X0Of(r, s.eps[k].caller))] else []
  {
  }

  /** Traps that are no IPC: the endpoint changes only if they kill its owner. */
  lemma PlainSim(s: Kernel, tf: TrapFrame, w: nat, k: nat, p: Protocol)
    requires Fits(s) && UserRunning(s) && InSandbox(tf.elr) && 0 < k < EP_COUNT && Matches(s.eps[k], p) && Plain(tf)
    ensures TrapStep(s, tf, w).Ok? && Simulated(s, tf, TrapStep(s, tf, w).value, k, p)
  {
    assert s.current != NONE;
    hide Inv, TrapStep, Observe, Serves, AfterDeath;
    PlainReturns(s, tf, w, k);
    var r := TrapStep(s, tf, w).value;
    PlainObserved(s, tf, r, k);
    if r.threads[s.current].task.TaskDead? && Serves(s.eps[k], s.current) {
      OneAct(p, Abort(s.eps[k].caller, X0Of(r, s.eps[k].caller)));
      AfterService(s.eps[k], s.current);
    } else {
      AfterNoService(s.eps[k], s.current);
    }
  }

  lemma AfterService(ep: Endpoint, slot: int)
    requires Serves(ep, slot)
    ensures AfterDeath(ep, slot) == ClearPending(ClearCaller(ep)) && ep.caller != NONE
  {
  }

  lemma AfterNoService(ep: Endpoint, slot: int)
    ensures !Serves(ep, slot) ==> AfterDeath(ep, slot) == ep
  {
  }

  /** Endpoint `k` and the caller behind it after such a trap. */
  lemma PlainReturns(s: Kernel, tf: TrapFrame, w: nat, k: nat)
    requires UserRunning(s) && InSandbox(tf.elr) && k < EP_COUNT && Plain(tf)
    ensures TrapStep(s, tf, w).Ok?
    ensures var r := TrapStep(s, tf, w).value;
            if r.threads[s.current].task.TaskDead? then
              && r.eps[k] == AfterDeath(s.eps[k], s.current)
              && (Serves(s.eps[k], s.current) ==> X0Of(r, s.eps[k].caller) == MINUS_ONE)
            else r.eps[k] == s.eps[k]
  {
    HandleTrapInv(s, tf);
    PlainKeepsEps(s, tf);
    hide Inv, Redirected, Common, HandleTrap, ReturnStep, AfterDeath, Serves;
    if HandleTrap(s, tf).value.1.ToKernel? {
      ReturnEps(HandleTrap(s, tf).value.0, w, k);
    } else {
      AnsweredRuns(s, tf, w);
    }
  }

  lemma TrapSim(s: Kernel, tf: TrapFrame, w: nat, k: nat, p: Protocol)
    requires UserRunning(s) && InSandbox(tf.elr) && 0 < k < EP_COUNT && Matches(s.eps[k], p)
    ensures TrapStep(s, tf, w).Ok? && Simulated(s, tf, TrapStep(s, tf, w).value, k, p)
  {
    if IsSvc(tf) && (tf.x[8] == SYS_IPC_CALL || tf.x[8] == SYS_WRITE) {
      RequestSim(s, tf, w, k, p);
    } else if IsSvc(tf) && tf.x[8] == SYS_IPC_RECV {
      RecvSim(s, tf, w, k, p);
    } else if IsSvc(tf) && tf.x[8] == SYS_IPC_REPLY {
      ReplySim(s, tf, w, k, p);
    } else {
      PlainSim(s, tf, w, k, p);
    }
  }

  // ---------------------------------------------------------------- runs

  /** What one event lets the parties of endpoint `k` observe. */
  function EventActs(s: Kernel, e: Event, k: nat): seq<Act>
    requires Fits(s) && k < EP_COUNT
  {
    if Enabled(s, e) && e.Trap? && Step(s, e).Ok?
    then Observe(s.(mem := e.mem), e.tf, Step(s, e).value, k) else []
  }

  function History(s: Kernel, es: seq<Event>, k: nat): seq<Act>
    requires Fits(s) && k < EP_COUNT
    decreases |es|
  {
    if es == [] || Do(s, es[0]).Panicked? then []
    else EventActs(s, es[0], k) + History(Do(s, es[0]).value, es[1..], k)
  }

  lemma EventSim(s: Kernel, e: Event, k: nat, p: Protocol)
    requires Inv(s) && TrapInside(e) && 0 < k < EP_COUNT && Matches(s.eps[k], p)
    ensures Do(s, e).Ok?
    ensures var q := Acts(p, EventActs(s, e, k));
            q.Some? && Matches(Do(s, e).value.eps[k], q.value)
  {
    if Enabled(s, e) {
      StepInv(s, e);
      match e
      case Trap(mem, tf, w) =>
        SameKernelKeeps(s, s.(mem := mem));
        TrapSim(s.(mem := mem), tf, w, k, p);
      case TimerTick =>
      case IdlePass(w) => IdleStep(s, e);
    }
  }

  lemma {:induction false} RunSim(s: Kernel, es: seq<Event>, k: nat, p: Protocol)
    requires Inv(s) && StaysInside(es) && 0 < k < EP_COUNT && Matches(s.eps[k], p)
    ensures Run(s, es).Ok? && Inv(Run(s, es).value)
    ensures Acts(p, History(s, es, k)).Some?
    ensures Matches(Run(s, es).value.eps[k], Acts(p, History(s, es, k)).value)
    decreases |es|
  {
    if es != [] {
      assert TrapInside(es[0]);
      EventSim(s, es[0], k, p);
      var m := Do(s, es[0]).value;
      if Enabled(s, es[0]) {
        StepInv(s, es[0]);
      }
      var q := Acts(p, EventActs(s, es[0], k)).value;
      RunSim(m, es[1..], k, q);
      ActsChain(p, EventActs(s, es[0], k), History(m, es[1..], k));
    }
  }

  /** Over every run, with any server, any clients and any buffers, what can be observed at an
      endpoint is a history the abstract protocol allows, and the endpoint stores exactly the
      protocol's state. In particular, while a caller is blocked, its message as captured at
      call time is either still queued or the last thing delivered to the owner, unharmed
      exactly when the two buffers are harmless to each other. */
  lemma EndpointsRefineCalls(b: Build, mem: Mem, es: seq<Event>, k: nat)
    requires b.LayoutOk() && StaysInside(es) && 0 < k < EP_COUNT
    ensures Run(Boot(b, mem), es).Ok?
    ensures var acts := History(Boot(b, mem), es, k);
            var ep := Run(Boot(b, mem), es).value.eps[k];
            && Acts(QUIET, acts).Some?
            && Matches(ep, Acts(QUIET, acts).value)
            && (ep.caller != NONE ==>
                  var msg := Acts(QUIET, acts).value.call.value.msg;
                  || (ep.hasPending && ep.pendingMsg[..ep.pendingLen] == msg)
                  || (acts != [] && Delivers(acts[|acts| - 1], msg)
                      && (acts[|acts| - 1].bytes == msg[..Min(|msg|, acts[|acts| - 1].room)] <==>
                          Harmless(msg[..Min(|msg|, acts[|acts| - 1].room)], acts[|acts| - 1].gap))))
  {
    BootInv(b, mem);
    assert Matches(Boot(b, mem).eps[k], QUIET);
    hide Boot, Inv, Run, History, Delivers, Harmless, Acts;
    RunSim(Boot(b, mem), es, k, QUIET);
    var acts := History(Boot(b, mem), es, k);
    if Run(Boot(b, mem), es).value.eps[k].caller != NONE {
      OpenCallIsQueuedOrTaken(acts, Acts(QUIET, acts).value);
      var msg := Acts(QUIET, acts).value.call.value.msg;
      if acts != [] && Delivers(acts[|acts| - 1], msg) {
        DeliversIntact(acts[|acts| - 1], msg);
      }
    }
  }
}
