/** Synchronous IPC: the state transformers of ipc.c. */
module Ipc {
  import opened Base
  import opened Memory
  import opened State
  import opened Threads

  /** IPC work changes no more than endpoints, memory, the thread table and the request flag. */
  predicate IpcOnly(s: Kernel, r: Kernel) {
    r == s.(eps := r.eps, mem := r.mem, threads := r.threads, resched := r.resched)
  }

  function SetEp(s: Kernel, e: nat, ep: Endpoint): (r: Kernel)
    requires e < |s.eps|
  {
    s.(eps := s.eps[e := ep])
  }

  function ClearPending(ep: Endpoint): Endpoint {
    ep.(hasPending := false, pendingLen := 0)
  }

  function ClearCaller(ep: Endpoint): Endpoint {
    ep.(caller := NONE, replyPtr := 0, replyCap := 0, override := 0)
  }

  function ClearReceiver(ep: Endpoint): Endpoint {
    ep.(receiver := NONE, bufPtr := 0, bufCap := 0)
  }

  function SetCaller(ep: Endpoint, slot: nat, replyPtr: u64, replyCap: u64, override: u64): Endpoint {
    ep.(caller := slot, replyPtr := replyPtr, replyCap := replyCap, override := override)
  }

  function SetReceiver(ep: Endpoint, slot: nat, bufPtr: u64, bufCap: u64): Endpoint {
    ep.(receiver := slot, bufPtr := bufPtr, bufCap := bufCap)
  }

  function SetPending(ep: Endpoint, bytes: seq<byte>): Endpoint
    requires |bytes| <= |ep.pendingMsg|
  {
    ep.(pendingMsg := bytes + ep.pendingMsg[|bytes|..], pendingLen := |bytes|, hasPending := true)
  }

  function InitEndpoint(owner: int): Endpoint {
    Endpoint(owner, false, 0, seq(IPC_MSG_SIZE, _ => 0), NONE, 0, 0, 0, NONE, 0, 0)
  }

  /** `ipc_init`: the UART endpoint belongs to task_b; the benchmark endpoint to task_c in
      latency builds only. */
  function InitEndpoints(b: Build): (eps: seq<Endpoint>)
    ensures |eps| == EP_COUNT
    ensures forall e :: 0 <= e < EP_COUNT ==> EndpointFits(eps[e])
  {
    [InitEndpoint(NONE), InitEndpoint(TASK_B), InitEndpoint(if b.latency then TASK_C else NONE)]
  }

  /** Cleanup of endpoint `e` when task `slot` has died. */
  function DeathAt(s: Kernel, slot: nat, e: nat): (r: Result<Kernel>)
    requires Fits(s) && e < EP_COUNT
    ensures r.Ok? ==> Fits(r.value)
  {
    var ep := if s.eps[e].receiver == slot then ClearReceiver(s.eps[e]) else s.eps[e];
    if ep.owner == slot && ep.caller != NONE then
      var woken :- Wake(s, ep.caller, MINUS_ONE);
      Ok(SetEp(woken, e, ClearPending(ClearCaller(ep))).(resched := true))
    else if ep.caller == slot then
      Ok(SetEp(s, e, ClearPending(ClearCaller(ep))))
    else
      Ok(SetEp(s, e, ep))
  }

  /** `ipc_handle_task_death` from endpoint `e` on. */
  function DeathFrom(s: Kernel, slot: nat, e: nat): (r: Result<Kernel>)
    requires Fits(s) && e <= EP_COUNT
    ensures r.Ok? ==> Fits(r.value)
    decreases EP_COUNT - e
  {
    if e == EP_COUNT then Ok(s)
    else
      var s1 :- DeathAt(s, slot, e);
      DeathFrom(s1, slot, e + 1)
  }

  /** Hand the request to a sleeping receiver, or queue it. */
  function Place(s: Kernel, e: nat, ep: Endpoint, src: u64, len: nat): (r: Result<Kernel>)
    requires Fits(s) && e < EP_COUNT && EndpointFits(ep) && len <= IPC_MSG_SIZE && RangeOk(src, len)
    ensures r.Ok? ==> Fits(r.value) && IpcOnly(s, r.value)
  {
    if ep.receiver != NONE then
      var delivered := Min(len, ep.bufCap);
      var m := if delivered > 0 then CopyWithin(s.mem, ep.bufPtr, src, delivered) else s.mem;
      var woken :- Wake(s.(mem := m), ep.receiver, delivered);
      Ok(SetEp(woken, e, ClearReceiver(ep)).(resched := true))
    else
      Ok(SetEp(s, e, SetPending(ep, Load(s.mem, src, len))))
  }

  /** The part `ipc_syscall_call` and `ipc_route_uart_write` have in common once a request is
      accepted: record the caller, place the request, block the caller. */
  function Submit(s: Kernel, tf: TrapFrame, e: nat, src: u64, len: nat,
                  replyPtr: u64, replyCap: u64, override: u64): (r: Result<(Kernel, Leave)>)
    requires Fits(s) && e < EP_COUNT && len <= IPC_MSG_SIZE
    requires RangeOk(src, len) && BufferOk(replyPtr, replyCap)
    ensures r.Ok? ==> Fits(r.value.0) && IpcOnly(s, r.value.0)
  {
    var slot :- CurrentUserSlot(s);
    var ep := SetCaller(s.eps[e], slot, replyPtr, replyCap, override);
    var s1 :- Place(s, e, ep, src, len);
    var s2 :- Redirect(s1, tf, IpcBlock);
    Ok((s2, ToKernel))
  }

  function Refuse(s: Kernel): (r: Result<(Kernel, Leave)>) {
    Ok((s, ToUser(MINUS_ONE)))
  }

  function Call(s: Kernel, tf: TrapFrame): (r: Result<(Kernel, Leave)>)
    requires Fits(s)
    ensures r.Ok? ==> Fits(r.value.0) && IpcOnly(s, r.value.0)
  {
    if !ValidEp(tf.x[0]) || tf.x[2] > IPC_MSG_SIZE then Refuse(s)
    else
      var ep := s.eps[tf.x[0]];
      if ep.owner == NONE then Refuse(s)
      else if !RangeOk(tf.x[1], tf.x[2]) || !RangeOk(tf.x[3], tf.x[4]) then Refuse(s)
      else if ep.hasPending || ep.caller != NONE then Refuse(s)
      else Submit(s, tf, tf.x[0], tf.x[1], tf.x[2], tf.x[3], tf.x[4], 0)
  }

  /** Task `slot` is owed a reply at endpoint `e`, into the `cap` bytes at `ptr`. */
  predicate AwaitsReply(s: Kernel, e: int, slot: int, ptr: u64, cap: u64)
    requires Fits(s)
  {
    && 0 < e < 3 && s.eps[e].caller == slot
    && s.eps[e].replyPtr == ptr && s.eps[e].replyCap == cap && s.eps[e].override == 0
  }

  lemma CallAwaitsReply(s: Kernel, tf: TrapFrame)
    requires Fits(s) && Call(s, tf).Ok? && Call(s, tf).value.1.ToKernel?
    ensures AwaitsReply(Call(s, tf).value.0, tf.x[0], s.current, tf.x[3], tf.x[4])
  {
  }

  function Recv(s: Kernel, tf: TrapFrame): (r: Result<(Kernel, Leave)>)
    requires Fits(s)
    ensures r.Ok? ==> Fits(r.value.0) && IpcOnly(s, r.value.0)
  {
    if !ValidEp(tf.x[0]) then Refuse(s)
    else
      var ep := s.eps[tf.x[0]];
      if ep.owner == NONE || !RangeOk(tf.x[1], tf.x[2]) then Refuse(s)
      else
        var slot :- CurrentUserSlot(s);
        if ep.owner != slot then Refuse(s)
        else if ep.hasPending then
          var delivered := Min(ep.pendingLen, tf.x[2]);
          var m := if delivered > 0 then Store(s.mem, tf.x[1], ep.pendingMsg[..delivered]) else s.mem;
          Ok((SetEp(s.(mem := m), tf.x[0], ClearPending(ep)), ToUser(delivered)))
        else if ep.receiver != NONE then Refuse(s)
        else
          var s1 := SetEp(s, tf.x[0], SetReceiver(ep, slot, tf.x[1], tf.x[2]));
          var s2 :- Redirect(s1, tf, IpcBlock);
          Ok((s2, ToKernel))
  }

  function Reply(s: Kernel, tf: TrapFrame): (r: Result<(Kernel, Leave)>)
    requires Fits(s)
    ensures r.Ok? ==> Fits(r.value.0) && IpcOnly(s, r.value.0)
  {
    if !ValidEp(tf.x[0]) || tf.x[2] > IPC_MSG_SIZE then Refuse(s)
    else
      var ep := s.eps[tf.x[0]];
      if ep.owner == NONE || !RangeOk(tf.x[1], tf.x[2]) then Refuse(s)
      else
        var slot :- CurrentUserSlot(s);
        if ep.owner != slot || ep.caller == NONE then Refuse(s)
        else
          var copied := Min(tf.x[2], ep.replyCap);
          var m := if copied > 0 then CopyWithin(s.mem, ep.replyPtr, tf.x[1], copied) else s.mem;
          var x0 := if ep.override != 0 then ep.override else copied;
          var woken :- Wake(s.(mem := m), ep.caller, x0);
          Ok((SetEp(woken, tf.x[0], ClearCaller(ep)).(resched := true), ToUser(0)))
  }

  /** `ipc_route_uart_write`: a SYS_write turned into a request on the UART endpoint. */
  function RouteUartWrite(s: Kernel, tf: TrapFrame, buf: u64, len: u64): (r: Result<(Kernel, Leave)>)
    requires Fits(s)
    ensures r.Ok? ==> Fits(r.value.0) && IpcOnly(s, r.value.0)
  {
    if len > IPC_MSG_SIZE then Refuse(s)
    else
      var ep := s.eps[EP_UART];
      if ep.owner == NONE || !RangeOk(buf, len) then Refuse(s)
      else if ep.hasPending || ep.caller != NONE then Refuse(s)
      else Submit(s, tf, EP_UART, buf, len, 0, 0, len)
  }
}
