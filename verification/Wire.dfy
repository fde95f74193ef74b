/** task_a's writes in the OFF and RECOVERY builds, across the server's crash and restart: the
    part of the state a routed write passes through, and its invariant. */
module Wire {
  import opened Base
  import opened Memory
  import opened State
  import opened Machine
  import opened Runs
  import opened Shipped

  /** EL0 leaves the server's receive buffer as the kernel left it, and task_a's writes are good. */
  ghost predicate Careful(l: Layout, s: Kernel, e: Event)
    requires RangeOk(l.recvBuf, 256)
  {
    e.Trap? && Enabled(s, e) ==>
      && Load(e.mem, l.recvBuf, 256) == Load(s.mem, l.recvBuf, 256)
      && (s.current == TASK_A && e.tf.x[8] == SYS_WRITE ==> GoodWrite(l.recvBuf, e.mem, e.tf))
  }

  /** The endpoint, the registers of client and server, and the server's buffer. */
  datatype Wire = Wire(ep: Endpoint, a: UserCtx, b: UserCtx, bDead: bool, bRuns: bool, buf: seq<byte>)

  function WireOf(l: Layout, s: Kernel): Wire
    requires Fits(s) && RangeOk(l.recvBuf, 256)
  {
    Wire(s.eps[EP_UART], Pc(s, TASK_A), Pc(s, TASK_B), Dead(s, TASK_B), s.current == TASK_B,
         Load(s.mem, l.recvBuf, 256))
  }

  /** The server holds bytes it has not written yet. */
  predicate HoldsBytes(l: Layout, w: Wire) {
    !w.bDead && w.ep.receiver == NONE && w.b.elr == l.bRecv && w.b.x[0] != MINUS_ONE
  }

  predicate WireOk(l: Layout, w: Wire) {
    && (w.ep.caller == TASK_A ==>
          w.a.x[8] == SYS_WRITE && w.a.x[1] <= IPC_MSG_SIZE && w.ep.replyCap == 0 && w.ep.override == w.a.x[1])
    && (w.ep.hasPending ==> w.ep.pendingLen == w.a.x[1])
    && (HoldsBytes(l, w) ==> w.b.x[0] == w.a.x[1])
    && (!w.bDead && w.b.elr == l.bReply ==> w.bRuns && w.ep.caller == NONE && !w.ep.hasPending)
    && (w.ep.caller == NONE && w.a.x[8] == SYS_WRITE ==> w.a.x[0] == w.a.x[1] <= IPC_MSG_SIZE)
  }

  /** The bytes of a write that are accepted and not on the UART line yet. */
  function OnTheWire(l: Layout, w: Wire): seq<UartItem> {
    if w.ep.hasPending then
      if w.ep.pendingLen <= |w.ep.pendingMsg| then Chars(w.ep.pendingMsg[..w.ep.pendingLen]) else []
    else if HoldsBytes(l, w) && w.b.x[0] <= |w.buf| then Chars(w.buf[..w.b.x[0]])
    else []
  }

  ghost predicate Wired(l: Layout, s: Kernel) {
    SystemOk(l, s) && WireOk(l, WireOf(l, s))
  }

  /** What a step appends to the UART line. */
  function NewItems(s: Kernel, r: Kernel): seq<UartItem> {
    if |s.uart| <= |r.uart| then r.uart[|s.uart|..] else []
  }

  /** The items an event puts on the line for task_a: by its own direct write, or by the server
      writing what it has received. */
  function OnBehalf(l: Layout, s: Kernel, e: Event): seq<UartItem>
    requires Fits(s)
  {
    if e.Trap? && Enabled(s, e) && Do(s, e).Ok?
       && (s.current == TASK_A || (s.current == TASK_B && s.el0.elr == l.bRecv))
    then NewItems(s, Do(s, e).value) else []
  }

  /** Who sleeps is told by the endpoint; a client that runs has nothing in flight. */
  lemma ClientRuns(l: Layout, s: Kernel)
    requires SystemOk(l, s) && s.current == TASK_A
    ensures var ep := s.eps[EP_UART];
            Accepting(ep) && !HoldsBytes(l, WireOf(l, s)) && OnTheWire(l, WireOf(l, s)) == []
  {
    WhoSleeps(s);
    assert s.eps[EP_UART].owner == TASK_B;
  }
}
