/** Which combinations of blocked caller, pending request and sleeping receiver an endpoint
    can be in. */
module Shapes {
  import opened Base
  import opened Memory
  import opened State
  import opened Ipc
  import opened Machine
  import opened Invariant
  import opened Runs
  import opened Frames
  import opened RpcKernel

  datatype Shape = Shape(caller: bool, pending: bool, receiver: bool)

  function ShapeOf(ep: Endpoint): Shape {
    Shape(ep.caller != NONE, ep.hasPending, ep.receiver != NONE)
  }

  /** What one trap does to endpoint `k`, case by case. */
  datatype Move = Stay | Asked | Taken | Slept | Replied | OwnerDied

  function MoveOf(s: Kernel, tf: TrapFrame, k: nat): Move
    requires Fits(s) && k < EP_COUNT
  {
    var ep := s.eps[k];
    if !IsSvc(tf) || tf.x[8] == SYS_EXIT then if Serves(ep, s.current) then OwnerDied else Stay
    else if tf.x[8] == SYS_IPC_CALL && tf.x[0] == k then if Parks(s, tf) then Asked else Stay
    else if tf.x[8] == SYS_WRITE && k == EP_UART then if Parks(s, tf) then Asked else Stay
    else if tf.x[8] == SYS_IPC_RECV && tf.x[0] == k && ep.owner == s.current && RangeOk(tf.x[1], tf.x[2])
    then if ep.hasPending then Taken else Slept
    else if tf.x[8] == SYS_IPC_REPLY && tf.x[0] == k && tf.x[2] <= IPC_MSG_SIZE && ep.owner == s.current
            && ep.caller != NONE && RangeOk(tf.x[1], tf.x[2]) then Replied
    else Stay
  }

  function Moved(h: Shape, m: Move): Shape {
    match m
    case Stay => h
    case Asked => if h.receiver then Shape(true, false, false) else Shape(true, true, false)
    case Taken => h.(pending := false)
    case Slept => h.(receiver := true)
    case Replied => h.(caller := false)
    case OwnerDied => Shape(false, false, h.receiver)
  }

  /** Who the endpoint names after a move made by task `cur`. */
  predicate SlotsMoved(ep: Endpoint, cur: int, m: Move, r: Endpoint) {
    && r.owner == ep.owner
    && r.caller == (if m.Asked? then cur else if m.Replied? || m.OwnerDied? then NONE else ep.caller)
    && r.receiver == (if m.Asked? then NONE else if m.Slept? then cur else ep.receiver)
  }

  /** Endpoint `k` after a trap, told from the trap alone; where nothing happens to it, it
      is not touched at all. */
  lemma TrapMoves(s: Kernel, tf: TrapFrame, w: nat, k: nat)
    requires UserRunning(s) && InSandbox(tf.elr) && 0 < k < EP_COUNT
    ensures MovesRight(s, tf, w, k)
  {
    if Plain(tf) {
      PlainMoves(s, tf, w, k);
    } else if tf.x[8] == SYS_IPC_CALL || tf.x[8] == SYS_WRITE {
      RequestMoves(s, tf, w, k);
    } else if tf.x[8] == SYS_IPC_RECV {
      RecvMoves(s, tf, w, k);
    } else {
      ReplyMoves(s, tf, w, k);
    }
  }

  ghost predicate MovesRight(s: Kernel, tf: TrapFrame, w: nat, k: nat)
    requires Fits(s) && k < EP_COUNT
  {
    && TrapStep(s, tf, w).Ok?
    && var r := TrapStep(s, tf, w).value;
       && ShapeOf(r.eps[k]) == Moved(ShapeOf(s.eps[k]), MoveOf(s, tf, k))
       && SlotsMoved(s.eps[k], s.current, MoveOf(s, tf, k), r.eps[k])
       && (MoveOf(s, tf, k).Stay? ==> r.eps[k] == s.eps[k])
  }

  lemma RecvMoves(s: Kernel, tf: TrapFrame, w: nat, k: nat)
    requires UserRunning(s) && InSandbox(tf.elr) && 0 < k < EP_COUNT
    requires IsSvc(tf) && tf.x[8] == SYS_IPC_RECV
    ensures MovesRight(s, tf, w, k)
  {
    HandleTrapInv(s, tf);
    RecvEps(s, tf, k);
    if HandleTrap(s, tf).value.1.ToKernel? {
      ReturnEps(HandleTrap(s, tf).value.0, w, k);
    } else {
      AnsweredRuns(s, tf, w);
    }
  }

  /** A receive by anyone but the owner changes nothing; by the owner it takes the queued
      request or registers the sleeper. */
  lemma RecvEffect(s: Kernel, tf: TrapFrame)
    requires UserRunning(s) && IsSvc(tf) && tf.x[8] == SYS_IPC_RECV && HandleTrap(s, tf).Ok?
    ensures var (s1, how) := HandleTrap(s, tf).value;
            if ValidEp(tf.x[0]) && s.eps[tf.x[0]].owner == s.current && RangeOk(tf.x[1], tf.x[2]) then
              var ep := s.eps[tf.x[0]];
              if ep.hasPending then
                s1.eps == s.eps[tf.x[0] := ClearPending(ep)] && how.ToUser?
              else
                && s1.eps == s.eps[tf.x[0] := SetReceiver(ep, s.current, tf.x[1], tf.x[2])]
                && how.ToKernel? && s1.threads[s.current].reason.IpcBlock?
            else s1.eps == s.eps && how.ToUser?
  {
    AwakeIsUnnamed(s);
    hide RangeOk, Store, Common, WaitsMatch;
  }

  lemma RecvEps(s: Kernel, tf: TrapFrame, k: nat)
    requires UserRunning(s) && InSandbox(tf.elr) && 0 < k < EP_COUNT
    requires IsSvc(tf) && tf.x[8] == SYS_IPC_RECV && HandleTrap(s, tf).Ok?
    ensures var (s1, how) := HandleTrap(s, tf).value;
            && ShapeOf(s1.eps[k]) == Moved(ShapeOf(s.eps[k]), MoveOf(s, tf, k))
            && SlotsMoved(s.eps[k], s.current, MoveOf(s, tf, k), s1.eps[k])
            && (MoveOf(s, tf, k).Stay? ==> s1.eps[k] == s.eps[k])
            && (how.ToKernel? ==> s1.threads[s.current].reason.IpcBlock?)
  {
    RecvEffect(s, tf);
    hide HandleTrap, RangeOk, Inv, Common;
  }

  lemma ReplyMoves(s: Kernel, tf: TrapFrame, w: nat, k: nat)
    requires UserRunning(s) && 0 < k < EP_COUNT
    requires IsSvc(tf) && tf.x[8] == SYS_IPC_REPLY
    ensures MovesRight(s, tf, w, k)
  {
    ReplyEps(s, tf, k);
    AnsweredRuns(s, tf, w);
  }

  lemma ReplyEps(s: Kernel, tf: TrapFrame, k: nat)
    requires UserRunning(s) && 0 < k < EP_COUNT
    requires IsSvc(tf) && tf.x[8] == SYS_IPC_REPLY
    ensures HandleTrap(s, tf).Ok? && HandleTrap(s, tf).value.1.ToUser?
    ensures HandleTrap(s, tf).value.0.eps[k] ==
              if MoveOf(s, tf, k).Replied? then ClearCaller(s.eps[k]) else s.eps[k]
    ensures MoveOf(s, tf, k).Replied? || MoveOf(s, tf, k).Stay?
  {
    ReplyInv(s, tf);
  }

  lemma PlainReason(s: Kernel, tf: TrapFrame)
    requires UserRunning(s) && Plain(tf) && HandleTrap(s, tf).Ok?
    ensures var (s1, how) := HandleTrap(s, tf).value;
            && (!IsSvc(tf) || tf.x[8] == SYS_EXIT ==> how.ToKernel?)
            && (how.ToKernel? ==> (Dying(s1.threads[s.current]) <==> !IsSvc(tf) || tf.x[8] == SYS_EXIT))
  {
    HandleTrapInv(s, tf);
  }

  lemma PlainMoves(s: Kernel, tf: TrapFrame, w: nat, k: nat)
    requires UserRunning(s) && InSandbox(tf.elr) && 0 < k < EP_COUNT && Plain(tf)
    ensures MovesRight(s, tf, w, k)
  {
    PlainEps(s, tf, w, k);
    ShapeAfterDeath(s.eps[k], s.current);
  }

  lemma PlainEps(s: Kernel, tf: TrapFrame, w: nat, k: nat)
    requires UserRunning(s) && InSandbox(tf.elr) && 0 < k < EP_COUNT && Plain(tf)
    ensures TrapStep(s, tf, w).Ok?
    ensures TrapStep(s, tf, w).value.eps[k] ==
              if !IsSvc(tf) || tf.x[8] == SYS_EXIT then AfterDeath(s.eps[k], s.current) else s.eps[k]
  {
    HandleTrapInv(s, tf);
    PlainKeepsEps(s, tf);
    PlainReason(s, tf);
    var (s1, how) := HandleTrap(s, tf).value;
    if how.ToKernel? {
      ReturnEps(s1, w, k);
    } else {
      AnsweredRuns(s, tf, w);
    }
  }

  lemma ShapeAfterDeath(ep: Endpoint, slot: int)
    ensures var m := if Serves(ep, slot) then OwnerDied else Stay;
            ShapeOf(AfterDeath(ep, slot)) == Moved(ShapeOf(ep), m) && SlotsMoved(ep, slot, m, AfterDeath(ep, slot))
    ensures !Serves(ep, slot) ==> AfterDeath(ep, slot) == ep
  {
  }

  lemma RequestMoves(s: Kernel, tf: TrapFrame, w: nat, k: nat)
    requires Fits(s) && UserRunning(s) && InSandbox(tf.elr) && 0 < k < EP_COUNT
    requires IsSvc(tf) && (tf.x[8] == SYS_IPC_CALL || tf.x[8] == SYS_WRITE)
    ensures MovesRight(s, tf, w, k)
  {
    hide Inv, Redirected, Common;
    ParksExactly(s, tf);
    HandleTrapInv(s, tf);
    if !Parks(s, tf) {
      AnsweredRuns(s, tf, w);
    } else if tf.x[8] == SYS_IPC_CALL {
      SubmitMoves(s, tf, w, k, tf.x[0], tf.x[1], tf.x[2], tf.x[3], tf.x[4], 0);
    } else {
      SubmitMoves(s, tf, w, k, EP_UART, tf.x[0], tf.x[1], 0, 0, tf.x[1]);
    }
  }

  lemma SubmitMoves(s: Kernel, tf: TrapFrame, w: nat, k: nat,
                    e: nat, src: u64, len: nat, rp: u64, rc: u64, ov: u64)
    requires UserRunning(s) && InSandbox(tf.elr) && 0 < k < EP_COUNT && 0 < e < EP_COUNT
    requires len <= IPC_MSG_SIZE && RangeOk(src, len) && BufferOk(rp, rc) && Accepting(s.eps[e])
    ensures var out := Submit(s, tf, e, src, len, rp, rc, ov);
            out.Ok? && out.value.1.ToKernel? && ReturnStep(out.value.0, w).Ok?
    ensures var r := ReturnStep(Submit(s, tf, e, src, len, rp, rc, ov).value.0, w).value;
            && ShapeOf(r.eps[k]) == Moved(ShapeOf(s.eps[k]), if e == k then Asked else Stay)
            && SlotsMoved(s.eps[k], s.current, if e == k then Asked else Stay, r.eps[k])
            && (e != k ==> r.eps[k] == s.eps[k])
  {
    SubmitReturns(s, tf, w, e, src, len, rp, rc, ov, k);
  }

  /** What a dying owner leaves at its endpoint. The cleanup is complete exactly unless a
      request is queued whose caller is gone (the owner replied before it received): that
      request survives, and the endpoint turns every new call down until the restarted owner
      receives it. */
  lemma DeathLeaves(s: Kernel, tf: TrapFrame, w: nat, k: nat)
    requires UserRunning(s) && InSandbox(tf.elr) && 0 < k < EP_COUNT
    requires (!IsSvc(tf) || tf.x[8] == SYS_EXIT) && s.eps[k].owner == s.current
    ensures TrapStep(s, tf, w).Ok?
    ensures var r := TrapStep(s, tf, w).value;
            && ShapeOf(r.eps[k]) == Shape(false, s.eps[k].hasPending && s.eps[k].caller == NONE, false)
            && (Accepting(r.eps[k]) <==> !(s.eps[k].hasPending && s.eps[k].caller == NONE))
            && (!Accepting(r.eps[k]) ==> r.eps[k] == s.eps[k])
  {
    PlainEps(s, tf, w, k);
    AwakeIsUnnamed(s);
    assert EndpointOk(s.eps[k]) && s.eps[k].owner != NONE;
  }

  // ---------------------------------------------------------------- the wedge

  /** The owner sleeps in receive beside its own waiting caller. */
  predicate Wedged(s: Kernel, k: nat)
    requires |s.eps| == EP_COUNT && k < EP_COUNT
  {
    s.eps[k].caller != NONE && s.eps[k].receiver != NONE
  }

  /** Exactly how an endpoint gets into this state: its owner receives again, with nothing queued,
      while the caller it has not answered waits. */
  lemma WedgedExactly(s: Kernel, tf: TrapFrame, w: nat, k: nat)
    requires UserRunning(s) && InSandbox(tf.elr) && 0 < k < EP_COUNT && !Wedged(s, k)
    ensures TrapStep(s, tf, w).Ok?
    ensures Wedged(TrapStep(s, tf, w).value, k) <==>
              && IsSvc(tf) && tf.x[8] == SYS_IPC_RECV && tf.x[0] == k && RangeOk(tf.x[1], tf.x[2])
              && s.eps[k].owner == s.current && s.eps[k].caller != NONE && !s.eps[k].hasPending
  {
    TrapMoves(s, tf, w, k);
    WedgingMove(s, tf, k);
    hide Inv, Parks, TrapStep, MoveOf;
  }

  lemma WedgingMove(s: Kernel, tf: TrapFrame, k: nat)
    requires UserRunning(s) && k < EP_COUNT && !Wedged(s, k)
    ensures var h := Moved(ShapeOf(s.eps[k]), MoveOf(s, tf, k));
            (h.caller && h.receiver) <==>
              && IsSvc(tf) && tf.x[8] == SYS_IPC_RECV && tf.x[0] == k && RangeOk(tf.x[1], tf.x[2])
              && s.eps[k].owner == s.current && s.eps[k].caller != NONE && !s.eps[k].hasPending
  {
    AwakeIsUnnamed(s);
    assert EndpointOk(s.eps[k]);
    hide Inv, Parks, RangeOk;
  }

  lemma WedgedStep(s: Kernel, e: Event, k: nat)
    requires Inv(s) && TrapInside(e) && 0 < k < EP_COUNT && Wedged(s, k)
    ensures Do(s, e).Ok? && Inv(Do(s, e).value) && Do(s, e).value.eps[k] == s.eps[k]
  {
    if Enabled(s, e) {
      StepInv(s, e);
      match e
      case Trap(mem, tf, w) =>
        var s0 := s.(mem := mem);
        SameKernelKeeps(s, s0);
        WedgedTrap(s0, tf, w, k);
      case TimerTick =>
      case IdlePass(w) => IdleStep(s, e);
    }
  }

  lemma WedgedTrap(s: Kernel, tf: TrapFrame, w: nat, k: nat)
    requires UserRunning(s) && InSandbox(tf.elr) && 0 < k < EP_COUNT && Wedged(s, k)
    ensures TrapStep(s, tf, w).Ok? && TrapStep(s, tf, w).value.eps[k] == s.eps[k]
  {
    AwakeIsUnnamed(s);
    TrapMoves(s, tf, w, k);
    assert MoveOf(s, tf, k).Stay?;
  }

  /** Once wedged, an endpoint stays as it is for good: whatever the other tasks do, neither
      the caller nor the owner ever runs again. */
  lemma {:induction false} WedgedForever(s: Kernel, es: seq<Event>, k: nat)
    requires Inv(s) && StaysInside(es) && 0 < k < EP_COUNT && Wedged(s, k)
    ensures Run(s, es).Ok?
    ensures var r := Run(s, es).value;
            && r.eps[k] == s.eps[k]
            && var c, o := s.eps[k].caller, s.eps[k].owner;
               && 0 <= c < IDLE && r.threads[c].task.TaskBlocked? && r.current != c
               && 0 <= o < IDLE && r.threads[o].task.TaskBlocked? && r.current != o
    decreases |es|
  {
    if es == [] {
      assert Named(s, CallerOf(k)) in Blocked(s) && Named(s, ReceiverOf(k)) in Blocked(s);
    } else {
      assert TrapInside(es[0]);
      WedgedStep(s, es[0], k);
      WedgedForever(Do(s, es[0]).value, es[1..], k);
    }
  }

  // ---------------------------------------------------------------- six shapes, or four

  /** A pending request never waits beside a sleeping receiver. */
  predicate Possible(h: Shape) {
    !(h.pending && h.receiver)
  }

  /** In every reachable state of every run, each endpoint is in one of the six shapes
      without a lost wakeup. */
  lemma SixShapes(b: Build, mem: Mem, es: seq<Event>, k: nat)
    requires b.LayoutOk() && StaysInside(es) && k < EP_COUNT
    ensures Run(Boot(b, mem), es).Ok? && Possible(ShapeOf(Run(Boot(b, mem), es).value.eps[k]))
  {
    BootInv(b, mem);
    RunInv(Boot(b, mem), es);
  }

  /** Quiet, requested, being served, or listening. */
  predicate Orderly(h: Shape) {
    Possible(h) && (h.pending ==> h.caller) && !(h.caller && h.receiver)
  }

  // The discipline, on the server's own history: what it has asked for and been answered.

  /** The server's receive at `k` was accepted: it went to sleep, or got something but -1. */
  predicate ReceiveAccepted(s: Kernel, tf: TrapFrame, r: Kernel, k: nat)
    requires |r.threads| == THREAD_COUNT && 0 <= s.current < THREAD_COUNT
  {
    IsSvc(tf) && tf.x[8] == SYS_IPC_RECV && tf.x[0] == k
    && (r.threads[s.current].task.TaskBlocked? || r.el0.x[0] != MINUS_ONE)
  }

  predicate ReplyAccepted(tf: TrapFrame, r: Kernel, k: nat) {
    IsSvc(tf) && tf.x[8] == SYS_IPC_REPLY && tf.x[0] == k && r.el0.x[0] == 0
  }

  /** Whether the server owes a reply: set by an accepted receive, cleared by an accepted reply
      or by its death. Only its own traps move it. */
  function Ledger(s: Kernel, e: Event, k: nat, owing: bool): bool
    requires Fits(s) && k < EP_COUNT
  {
    if !e.Trap? || !Enabled(s, e) || Do(s, e).Panicked? || s.eps[k].owner != s.current then owing
    else
      var r := Do(s, e).value;
      if r.threads[s.current].task.TaskDead? then false
      else if ReceiveAccepted(s, e.tf, r, k) then true
      else if ReplyAccepted(e.tf, r, k) then false
      else owing
  }

  /** The server receives only when it owes no reply, and replies only when it owes one. */
  predicate Disciplined(s: Kernel, e: Event, k: nat, owing: bool)
    requires |s.eps| == EP_COUNT && k < EP_COUNT
  {
    e.Trap? && IsSvc(e.tf) && e.tf.x[0] == k && s.eps[k].owner == s.current ==>
      && (e.tf.x[8] == SYS_IPC_RECV ==> !owing)
      && (e.tf.x[8] == SYS_IPC_REPLY ==> owing)
  }

  ghost predicate DisciplinedRun(s: Kernel, es: seq<Event>, k: nat, owing: bool)
    requires Fits(s) && k < EP_COUNT
    decreases |es|
  {
    es != [] ==>
      && Disciplined(s, es[0], k, owing)
      && (Do(s, es[0]).Ok? ==> DisciplinedRun(Do(s, es[0]).value, es[1..], k, Ledger(s, es[0], k, owing)))
  }

  /** The ledger told from the endpoint: a request received and not answered, or a receive that
      still sleeps. */
  predicate LedgerOk(ep: Endpoint, owing: bool) {
    owing <==> (ep.caller != NONE && !ep.hasPending) || ep.receiver != NONE
  }

  function LedgerMove(m: Move, owing: bool): bool {
    match m
    case Taken => true
    case Slept => true
    case Replied => false
    case _ => owing
  }

  /** On a server that lives, the ledger follows the endpoint's moves. */
  lemma LedgerIsMove(s: Kernel, e: Event, k: nat, owing: bool)
    requires Inv(s) && TrapInside(e) && 0 < k < EP_COUNT && e.Trap? && Enabled(s, e) && s.eps[k].owner == s.current
    ensures Do(s, e).Ok?
    ensures Ledger(s, e, k, owing) ==
              if !IsSvc(e.tf) || e.tf.x[8] == SYS_EXIT then false
              else LedgerMove(MoveOf(s.(mem := e.mem), e.tf, k), owing)
  {
    var s0 := s.(mem := e.mem);
    SameKernelKeeps(s, s0);
    TrapMoves(s0, e.tf, e.w, k);
    TaskAfterTrap(s0, e.tf, e.w);
    if IsSvc(e.tf) && e.tf.x[8] == SYS_IPC_RECV {
      RecvSeen(s0, e.tf, e.w, k);
    } else if IsSvc(e.tf) && e.tf.x[8] == SYS_IPC_REPLY {
      ReplySeen(s0, e.tf, e.w, k);
    }
  }

  /** A trap kills its task exactly if it is a fault or an exit. */
  lemma TaskAfterTrap(s: Kernel, tf: TrapFrame, w: nat)
    requires UserRunning(s) && InSandbox(tf.elr)
    ensures TrapStep(s, tf, w).Ok?
    ensures TrapStep(s, tf, w).value.threads[s.current].task.TaskDead? <==> !IsSvc(tf) || tf.x[8] == SYS_EXIT
  {
    HandleTrapInv(s, tf);
    HandleReason(s, tf);
    hide HandleTrap, Inv, ReturnStep;
    if HandleTrap(s, tf).value.1.ToKernel? {
      ReturnEps(HandleTrap(s, tf).value.0, w, 0);
    } else {
      AnsweredRuns(s, tf, w);
    }
  }

  /** Why a task is parked, told from its trap. */
  lemma HandleReason(s: Kernel, tf: TrapFrame)
    requires UserRunning(s) && HandleTrap(s, tf).Ok?
    ensures var (s1, how) := HandleTrap(s, tf).value;
            && s1.current == s.current
            && (!IsSvc(tf) || tf.x[8] == SYS_EXIT ==> how.ToKernel?)
            && (how.ToKernel? ==> s1.threads[s.current].reason == ReasonFor(tf))
  {
    HandleTrapInv(s, tf);
    ParksExactly(s, tf);
    if Parks(s, tf) && IsSvc(tf) {
      if tf.x[8] == SYS_IPC_CALL {
        SubmitReason(s, tf, tf.x[0], tf.x[1], tf.x[2], tf.x[3], tf.x[4], 0);
      } else if tf.x[8] == SYS_WRITE {
        SubmitReason(s, tf, EP_UART, tf.x[0], tf.x[1], 0, 0, tf.x[1]);
      }
    }
  }

  lemma SubmitReason(s: Kernel, tf: TrapFrame, k: nat, src: u64, len: nat, rp: u64, rc: u64, ov: u64)
    requires UserRunning(s) && 0 < k < EP_COUNT && len <= IPC_MSG_SIZE && RangeOk(src, len) && BufferOk(rp, rc)
    requires Submit(s, tf, k, src, len, rp, rc, ov).Ok?
    ensures var (s1, how) := Submit(s, tf, k, src, len, rp, rc, ov).value;
            how.ToKernel? && s1.threads[s.current].reason.IpcBlock?
  {
    hide Place, WaitsMatch;
  }

  function ReasonFor(tf: TrapFrame): Reason {
    if !IsSvc(tf) then Fault
    else if tf.x[8] == SYS_EXIT then Exit
    else if tf.x[8] == SYS_YIELD then Yield
    else if tf.x[8] == SYS_SUPERVISE_WAIT then NotifyBlock
    else IpcBlock
  }

  lemma RecvSeen(s: Kernel, tf: TrapFrame, w: nat, k: nat)
    requires UserRunning(s) && InSandbox(tf.elr) && 0 < k < EP_COUNT && s.eps[k].owner == s.current
    requires IsSvc(tf) && tf.x[8] == SYS_IPC_RECV
    ensures TrapStep(s, tf, w).Ok?
    ensures ReceiveAccepted(s, tf, TrapStep(s, tf, w).value, k) <==> MoveOf(s, tf, k).Taken? || MoveOf(s, tf, k).Slept?
  {
    RecvParks(s, tf);
    HandleTrapInv(s, tf);
    AwakeIsUnnamed(s);
    if Parks(s, tf) {
      ReturnEps(HandleTrap(s, tf).value.0, w, k);
    } else {
      AnsweredRuns(s, tf, w);
    }
  }

  lemma ReplySeen(s: Kernel, tf: TrapFrame, w: nat, k: nat)
    requires UserRunning(s) && 0 < k < EP_COUNT && s.eps[k].owner == s.current
    requires IsSvc(tf) && tf.x[8] == SYS_IPC_REPLY
    ensures TrapStep(s, tf, w).Ok?
    ensures ReplyAccepted(tf, TrapStep(s, tf, w).value, k) <==> MoveOf(s, tf, k).Replied?
  {
    ReplyInv(s, tf);
    AnsweredRuns(s, tf, w);
  }

  /** A disciplined server keeps its endpoint in the four orderly shapes, whatever its clients
      and the other tasks do, its own deaths and restarts included. */
  lemma {:induction false} FourShapes(s: Kernel, es: seq<Event>, k: nat, owing: bool)
    requires Inv(s) && StaysInside(es) && 0 < k < EP_COUNT && DisciplinedRun(s, es, k, owing)
    requires Orderly(ShapeOf(s.eps[k])) && LedgerOk(s.eps[k], owing)
    ensures Run(s, es).Ok? && Orderly(ShapeOf(Run(s, es).value.eps[k]))
    decreases |es|
  {
    if es != [] {
      assert TrapInside(es[0]);
      OrderlyStep(s, es[0], k, owing);
      FourShapes(Do(s, es[0]).value, es[1..], k, Ledger(s, es[0], k, owing));
    }
  }

  lemma OrderlyStep(s: Kernel, e: Event, k: nat, owing: bool)
    requires Inv(s) && TrapInside(e) && 0 < k < EP_COUNT && Disciplined(s, e, k, owing)
    requires Orderly(ShapeOf(s.eps[k])) && LedgerOk(s.eps[k], owing)
    ensures Do(s, e).Ok? && Inv(Do(s, e).value) && Orderly(ShapeOf(Do(s, e).value.eps[k]))
    ensures LedgerOk(Do(s, e).value.eps[k], Ledger(s, e, k, owing))
  {
    if Enabled(s, e) {
      StepInv(s, e);
      match e
      case Trap(mem, tf, w) =>
        var s0 := s.(mem := mem);
        SameKernelKeeps(s, s0);
        TrapMoves(s0, tf, w, k);
        AwakeIsUnnamed(s0);
        hide Inv, MoveOf, Step, TrapStep;
        if s.eps[k].owner == s.current {
          LedgerIsMove(s, e, k, owing);
        }
        OrderlyMove(s0, e, k, owing);
      case TimerTick =>
      case IdlePass(w) => IdleStep(s, e);
    }
  }

  lemma OrderlyMove(s: Kernel, e: Event, k: nat, owing: bool)
    requires UserRunning(s) && k < EP_COUNT && Orderly(ShapeOf(s.eps[k])) && LedgerOk(s.eps[k], owing)
    requires e.Trap? && Disciplined(s, e, k, owing)
    requires s.eps[k].receiver != s.current
    ensures var m := MoveOf(s, e.tf, k);
            var h := Moved(ShapeOf(s.eps[k]), m);
            && Orderly(h)
            && var mine := s.eps[k].owner == s.current;
               var after := if !mine then owing
                            else if !IsSvc(e.tf) || e.tf.x[8] == SYS_EXIT then false
                            else LedgerMove(m, owing);
               after <==> (h.caller && !h.pending) || h.receiver
  {
    assert EndpointOk(s.eps[k]);
  }

  /** From boot no server owes anything. */
  lemma DisciplineFromBoot(b: Build, mem: Mem, es: seq<Event>, k: nat)
    requires b.LayoutOk() && StaysInside(es) && 0 < k < EP_COUNT && DisciplinedRun(Boot(b, mem), es, k, false)
    ensures Run(Boot(b, mem), es).Ok? && Orderly(ShapeOf(Run(Boot(b, mem), es).value.eps[k]))
  {
    BootInv(b, mem);
    FourShapes(Boot(b, mem), es, k, false);
  }
}
