/** Deferred buffer pointers: they stay inside the sandbox, and each trap writes no memory
    but the one buffer it delivers to. */
module Buffers {
  import opened Base
  import opened Memory
  import opened State
  import opened Ipc
  import opened Machine
  import opened Invariant
  import opened Runs
  import opened Frames
  import opened Overlap
  import opened RpcKernel

  datatype Range = Range(ptr: u64, n: nat)

  const NOWHERE: Range := Range(0, 0)

  predicate Covers(d: Range, a: int) {
    d.ptr <= a < d.ptr + d.n
  }

  /** The endpoint a system call addresses, and the length of what it sends. */
  function EndpointOf(tf: TrapFrame): nat {
    if tf.x[8] == SYS_WRITE then EP_UART else if ValidEp(tf.x[0]) then tf.x[0] else 0
  }

  function SentLength(tf: TrapFrame): nat {
    if tf.x[8] == SYS_WRITE then tf.x[1] else tf.x[2]
  }

  predicate IsRequest(tf: TrapFrame) {
    IsSvc(tf) && (tf.x[8] == SYS_IPC_CALL || tf.x[8] == SYS_WRITE)
  }

  predicate TakesQueued(s: Kernel, tf: TrapFrame)
    requires Fits(s)
  {
    var ep := s.eps[EndpointOf(tf)];
    IsSvc(tf) && tf.x[8] == SYS_IPC_RECV && ep.owner == s.current != NONE && ep.hasPending && RangeOk(tf.x[1], tf.x[2])
  }

  predicate Replies(s: Kernel, tf: TrapFrame)
    requires Fits(s)
  {
    var ep := s.eps[EndpointOf(tf)];
    && IsSvc(tf) && tf.x[8] == SYS_IPC_REPLY && ep.owner == s.current != NONE && ep.caller != NONE
    && tf.x[2] <= IPC_MSG_SIZE && RangeOk(tf.x[1], tf.x[2])
  }

  /** Where a trap delivers bytes: the sleeping receiver's buffer, the receiver's own, or the
      waiting caller's reply buffer. */
  function Destination(s: Kernel, tf: TrapFrame): Range
    requires Fits(s)
  {
    var ep := s.eps[EndpointOf(tf)];
    if IsRequest(tf) then
      if Parks(s, tf) && ep.receiver != NONE then Range(ep.bufPtr, Min(SentLength(tf), ep.bufCap)) else NOWHERE
    else if TakesQueued(s, tf) then Range(tf.x[1], Min(ep.pendingLen, tf.x[2]))
    else if Replies(s, tf) then Range(ep.replyPtr, Min(tf.x[2], ep.replyCap))
    else NOWHERE
  }

  /** Memory changed nowhere outside `d`. */
  ghost predicate OnlyAt(m: Mem, r: Mem, d: Range) {
    forall a :: InSandbox(a) && !Covers(d, a) ==> r[a - SANDBOX_BASE] == m[a - SANDBOX_BASE]
  }

  lemma CopyOnlyAt(m: Mem, dst: u64, src: u64, n: nat)
    requires InSandbox(dst) && dst + n <= SANDBOX_END && InSandbox(src) && src + n <= SANDBOX_END
    ensures OnlyAt(m, CopyWithin(m, dst, src, n), Range(dst, n))
  {
    forall a | InSandbox(a) && !Covers(Range(dst, n), a)
      ensures CopyWithin(m, dst, src, n)[a - SANDBOX_BASE] == m[a - SANDBOX_BASE]
    {
      ForwardCopyAt(m, dst - SANDBOX_BASE, src - SANDBOX_BASE, n, a - SANDBOX_BASE);
    }
  }

  lemma StoreOnlyAt(m: Mem, dst: u64, bytes: seq<byte>)
    requires InSandbox(dst) && dst + |bytes| <= SANDBOX_END
    ensures OnlyAt(m, Store(m, dst, bytes), Range(dst, |bytes|))
  {
  }

  /** A trap writes its destination and nothing else. */
  lemma OnlyDestinationWritten(s: Kernel, tf: TrapFrame, w: nat)
    requires UserRunning(s) && InSandbox(tf.elr)
    ensures Destination(s, tf).n > 0 ==> RangeOk(Destination(s, tf).ptr, Destination(s, tf).n)
    ensures TrapStep(s, tf, w).Ok? && OnlyAt(s.mem, TrapStep(s, tf, w).value.mem, Destination(s, tf))
  {
    if Plain(tf) {
      PlainMemory(s, tf, w);
    } else if IsRequest(tf) {
      RequestMemory(s, tf, w);
    } else if tf.x[8] == SYS_IPC_RECV {
      RecvMemory(s, tf, w);
    } else {
      ReplyMemory(s, tf, w);
    }
  }

  lemma PlainMemory(s: Kernel, tf: TrapFrame, w: nat)
    requires UserRunning(s) && InSandbox(tf.elr) && Plain(tf)
    ensures TrapStep(s, tf, w).Ok? && TrapStep(s, tf, w).value.mem == s.mem
  {
    HandleTrapInv(s, tf);
    PlainKeepsEps(s, tf);
    hide Inv, Common, HandleTrap, ReturnStep;
    if HandleTrap(s, tf).value.1.ToKernel? {
      ReturnEps(HandleTrap(s, tf).value.0, w, 0);
    } else {
      AnsweredRuns(s, tf, w);
    }
  }

  lemma RequestMemory(s: Kernel, tf: TrapFrame, w: nat)
    requires UserRunning(s) && InSandbox(tf.elr) && IsRequest(tf)
    ensures Destination(s, tf).n > 0 ==> RangeOk(Destination(s, tf).ptr, Destination(s, tf).n)
    ensures TrapStep(s, tf, w).Ok? && OnlyAt(s.mem, TrapStep(s, tf, w).value.mem, Destination(s, tf))
  {
    assert Fits(s);
    hide Inv, Redirected, Common, TrapStep;
    if !Parks(s, tf) {
      RefusedMemory(s, tf, w);
    } else if tf.x[8] == SYS_IPC_CALL {
      CallMemory(s, tf, w);
    } else {
      WriteMemory(s, tf, w);
    }
  }

  lemma CallMemory(s: Kernel, tf: TrapFrame, w: nat)
    requires UserRunning(s) && InSandbox(tf.elr) && IsSvc(tf) && tf.x[8] == SYS_IPC_CALL && Parks(s, tf)
    ensures Destination(s, tf).n > 0 ==> RangeOk(Destination(s, tf).ptr, Destination(s, tf).n)
    ensures TrapStep(s, tf, w).Ok? && OnlyAt(s.mem, TrapStep(s, tf, w).value.mem, Destination(s, tf))
  {
    assert Fits(s);
    hide Inv, Redirected, Common, ReturnStep, Submit, RangeOk;
    SubmitMemory(s, tf, w, tf.x[0], tf.x[1], tf.x[2], tf.x[3], tf.x[4], 0);
  }

  lemma RoutedWrite(s: Kernel, tf: TrapFrame)
    requires UserRunning(s) && IsSvc(tf) && tf.x[8] == SYS_WRITE && Parks(s, tf)
    ensures tf.x[1] <= IPC_MSG_SIZE && RangeOk(tf.x[0], tf.x[1]) && Accepting(s.eps[EP_UART])
    ensures HandleTrap(s, tf) == Submit(s, tf, EP_UART, tf.x[0], tf.x[1], 0, 0, tf.x[1])
  {
    hide Submit;
  }

  lemma WriteMemory(s: Kernel, tf: TrapFrame, w: nat)
    requires UserRunning(s) && InSandbox(tf.elr) && IsSvc(tf) && tf.x[8] == SYS_WRITE && Parks(s, tf)
    ensures Destination(s, tf).n > 0 ==> RangeOk(Destination(s, tf).ptr, Destination(s, tf).n)
    ensures TrapStep(s, tf, w).Ok? && OnlyAt(s.mem, TrapStep(s, tf, w).value.mem, Destination(s, tf))
  {
    assert Fits(s);
    RoutedWrite(s, tf);
    hide Inv, Redirected, Common, ReturnStep, Submit, HandleTrap, RangeOk, Parks;
    SubmitMemory(s, tf, w, EP_UART, tf.x[0], tf.x[1], 0, 0, tf.x[1]);
  }

  lemma RefusedMemory(s: Kernel, tf: TrapFrame, w: nat)
    requires UserRunning(s) && IsRequest(tf) && !Parks(s, tf)
    ensures TrapStep(s, tf, w).Ok? && TrapStep(s, tf, w).value.mem == s.mem
  {
    ParksExactly(s, tf);
    HandleTrapInv(s, tf);
    AnsweredRuns(s, tf, w);
  }

  lemma SubmitMemory(s: Kernel, tf: TrapFrame, w: nat, e: nat, src: u64, len: nat, rp: u64, rc: u64, ov: u64)
    requires UserRunning(s) && InSandbox(tf.elr) && 0 < e < EP_COUNT
    requires len <= IPC_MSG_SIZE && RangeOk(src, len) && BufferOk(rp, rc) && Accepting(s.eps[e])
    ensures var out := Submit(s, tf, e, src, len, rp, rc, ov);
            out.Ok? && out.value.1.ToKernel? && ReturnStep(out.value.0, w).Ok?
    ensures var r := ReturnStep(Submit(s, tf, e, src, len, rp, rc, ov).value.0, w).value;
            var d := if s.eps[e].receiver != NONE then Range(s.eps[e].bufPtr, Min(len, s.eps[e].bufCap)) else NOWHERE;
            (d.n > 0 ==> RangeOk(d.ptr, d.n)) && OnlyAt(s.mem, r.mem, d)
  {
    SubmitReturns(s, tf, w, e, src, len, rp, rc, ov, e);
    var n := Min(len, s.eps[e].bufCap);
    if s.eps[e].receiver != NONE && n > 0 {
      CopyOnlyAt(s.mem, s.eps[e].bufPtr, src, n);
    }
  }

  lemma RecvMemory(s: Kernel, tf: TrapFrame, w: nat)
    requires UserRunning(s) && InSandbox(tf.elr) && IsSvc(tf) && tf.x[8] == SYS_IPC_RECV
    ensures Destination(s, tf).n > 0 ==> RangeOk(Destination(s, tf).ptr, Destination(s, tf).n)
    ensures TrapStep(s, tf, w).Ok? && OnlyAt(s.mem, TrapStep(s, tf, w).value.mem, Destination(s, tf))
  {
    HandleTrapInv(s, tf);
    RecvMem(s, tf);
    hide Inv, Common, HandleTrap, ReturnStep;
    if HandleTrap(s, tf).value.1.ToKernel? {
      ReturnEps(HandleTrap(s, tf).value.0, w, 0);
    } else {
      AnsweredRuns(s, tf, w);
    }
  }

  lemma RecvMem(s: Kernel, tf: TrapFrame)
    requires UserRunning(s) && IsSvc(tf) && tf.x[8] == SYS_IPC_RECV && HandleTrap(s, tf).Ok?
    ensures OnlyAt(s.mem, HandleTrap(s, tf).value.0.mem, Destination(s, tf))
  {
    if TakesQueued(s, tf) {
      var ep := s.eps[EndpointOf(tf)];
      StoreOnlyAt(s.mem, tf.x[1], ep.pendingMsg[..Min(ep.pendingLen, tf.x[2])]);
    }
  }

  lemma ReplyMemory(s: Kernel, tf: TrapFrame, w: nat)
    requires UserRunning(s) && InSandbox(tf.elr) && IsSvc(tf) && tf.x[8] == SYS_IPC_REPLY
    ensures Destination(s, tf).n > 0 ==> RangeOk(Destination(s, tf).ptr, Destination(s, tf).n)
    ensures TrapStep(s, tf, w).Ok? && OnlyAt(s.mem, TrapStep(s, tf, w).value.mem, Destination(s, tf))
  {
    ReplyAnswers(s, tf);
    ReplyMem(s, tf);
    AnsweredRuns(s, tf, w);
    hide Inv, Common, HandleTrap;
  }

  lemma ReplyMem(s: Kernel, tf: TrapFrame)
    requires UserRunning(s) && IsSvc(tf) && tf.x[8] == SYS_IPC_REPLY
    ensures HandleTrap(s, tf).Ok? && HandleTrap(s, tf).value.1.ToUser?
    ensures var r, ep, n := HandleTrap(s, tf).value.0, s.eps[EndpointOf(tf)], Destination(s, tf).n;
            r.mem == if n > 0 then CopyWithin(s.mem, ep.replyPtr, tf.x[1], n) else s.mem
    ensures OnlyAt(s.mem, HandleTrap(s, tf).value.0.mem, Destination(s, tf))
  {
    ReplyInv(s, tf);
    var ep, n := s.eps[EndpointOf(tf)], Destination(s, tf).n;
    if n > 0 {
      CopyOnlyAt(s.mem, ep.replyPtr, tf.x[1], n);
    }
  }

  /** What the waiting caller finds in its reply buffer: the first bytes of the reply, as many
      as it has room for, as a rising copy delivers them; unharmed exactly when its buffer
      does not start strictly inside them or they repeat with that period. */
  lemma ReplyArrives(s: Kernel, tf: TrapFrame, w: nat)
    requires UserRunning(s) && InSandbox(tf.elr) && Replies(s, tf)
    ensures TrapStep(s, tf, w).Ok?
    ensures var d := Destination(s, tf);
            var sent := Load(s.mem, tf.x[1], tf.x[2])[..d.n];
            var got, gap := Peek(TrapStep(s, tf, w).value.mem, d.ptr, d.n), Overtake(d.ptr, tf.x[1], d.n);
            && got == Arrives(sent, gap)
            && (got == sent <==> Harmless(sent, gap))
  {
    ReplyMemory(s, tf, w);
    ReplyMem(s, tf);
    AnsweredRuns(s, tf, w);
    var d := Destination(s, tf);
    DirectCopy(s.mem, TrapStep(s, tf, w).value.mem, d.ptr, tf.x[1], d.n, Load(s.mem, tf.x[1], tf.x[2]));
    IntactExactly(Load(s.mem, tf.x[1], tf.x[2])[..d.n], Overtake(d.ptr, tf.x[1], d.n));
  }

  /** Every byte address of the buffer lies in the sandbox. */
  ghost predicate Inside(ptr: u64, cap: u64) {
    forall k: nat :: k < cap ==> InSandbox(ByteAddress(ptr, k))
  }

  /** In every reachable state each buffer an endpoint keeps across a trap is inside the
      sandbox, byte by byte, and a queued message fits its slot. */
  lemma DeferredBuffersStaySafe(b: Build, mem: Mem, es: seq<Event>, e: nat)
    requires b.LayoutOk() && StaysInside(es) && e < EP_COUNT
    ensures Run(Boot(b, mem), es).Ok?
    ensures var ep := Run(Boot(b, mem), es).value.eps[e];
            Inside(ep.replyPtr, ep.replyCap) && Inside(ep.bufPtr, ep.bufCap) && ep.pendingLen <= IPC_MSG_SIZE
  {
    BootInv(b, mem);
    RunInv(Boot(b, mem), es);
    var ep := Run(Boot(b, mem), es).value.eps[e];
    RangeOkIsContainment(ep.replyPtr, ep.replyCap);
    RangeOkIsContainment(ep.bufPtr, ep.bufCap);
  }
}
