/** What the return step leaves alone: after the handler, only a death touches endpoints,
    and the switch touches nothing outside the thread table and the scheduler's globals. */
module Frames {
  import opened Base
  import opened State
  import opened Threads
  import opened Ipc
  import opened Supervisor
  import opened Machine
  import opened Invariant
  import opened Context

  /** `r` differs from `s` at most in the thread table and the scheduler's globals. */
  ghost predicate SchedulerOnly(s: Kernel, r: Kernel) {
    r == s.(threads := r.threads, current := r.current, currentTask := r.currentTask,
            ticks := r.ticks, resched := r.resched, el0 := r.el0)
  }

  lemma {:induction false} TicksSchedulerOnly(s: Kernel, n: nat)
    requires Fits(s)
    ensures SchedulerOnly(s, Ticks(s, n))
    decreases n
  {
    if n > 0 {
      TicksSchedulerOnly(Tick(s), n - 1);
    }
  }

  lemma SwitchToSchedulerOnly(s: Kernel, next: nat)
    requires Fits(s) && next < THREAD_COUNT
    ensures SchedulerOnly(s, SwitchTo(s, next))
  {
  }

  lemma ResumeSchedulerOnly(s: Kernel)
    requires Fits(s) && s.current != NONE && Resume(s).Ok?
    ensures SchedulerOnly(s, Resume(s).value)
  {
  }

  lemma SwitchSchedulerOnly(s: Kernel, w: nat)
    requires Fits(s) && s.current != NONE && SwitchAndResume(s, w).Ok?
    ensures SchedulerOnly(s, SwitchAndResume(s, w).value)
  {
    var s1 := s.(resched := false);
    TicksSchedulerOnly(s1, w);
    TicksKeepCurrent(s1, w);
    var s3 := ReschedPoint(s, w).value;
    if s.resched {
      var s2 := Ticks(s1, w);
      SwitchToSchedulerOnly(s2, PickNext(s2.threads, s2.current).value);
    }
    ResumeSchedulerOnly(s3);
  }

  /** The endpoint as the death of `slot` leaves it, when `slot` sleeps nowhere. */
  function AfterDeath(ep: Endpoint, slot: int): Endpoint {
    if ep.owner == slot && ep.caller != NONE then ClearPending(ClearCaller(ep)) else ep
  }

  /** `c` has been woken with -1. */
  predicate Aborted(s: Kernel, c: int)
    requires |s.threads| == THREAD_COUNT
  {
    0 <= c < IDLE && s.threads[c].task.TaskRunnable? && s.threads[c].ctx.x[0] == MINUS_ONE
  }

  predicate Serves(ep: Endpoint, slot: int) {
    ep.owner == slot && ep.caller != NONE
  }

  lemma DeathAtEps(s: Kernel, e: nat)
    requires DeadParked(s) && e < EP_COUNT
    ensures DeathAt(s, s.current, e).Ok?
    ensures var r := DeathAt(s, s.current, e).value;
            && r == s.(threads := r.threads, resched := r.resched, eps := r.eps)
            && r.eps == s.eps[e := AfterDeath(s.eps[e], s.current)]
            && OthersKept(s, r)
            && (Serves(s.eps[e], s.current) ==> Aborted(r, s.eps[e].caller))
  {
    assert Fits(s) && 0 <= s.current < IDLE;
    hide DeathAt, DeadParked;
    DeathAtEffect(s, e);
    DeathAtOthers(s, e);
    assert s.eps[e := s.eps[e]] == s.eps;
  }

  lemma {:induction false} DeathFromEps(s: Kernel, e: nat, k: nat)
    requires DeadParked(s) && e <= EP_COUNT && k < EP_COUNT
    ensures DeathFrom(s, s.current, e).Ok?
    ensures var r := DeathFrom(s, s.current, e).value;
            && r == s.(threads := r.threads, resched := r.resched, eps := r.eps)
            && r.eps[k] == (if e <= k then AfterDeath(s.eps[k], s.current) else s.eps[k])
            && (e <= k && Serves(s.eps[k], s.current) ==> Aborted(r, s.eps[k].caller))
    decreases EP_COUNT - e
  {
    if e < EP_COUNT {
      DeathAtInv(s, e);
      DeathAtEps(s, e);
      var m := DeathAt(s, s.current, e).value;
      DeathFromEps(m, e + 1, k);
      DeathFromOthers(m, e + 1);
      if e == k && Serves(s.eps[k], s.current) {
        StaysAborted(m, DeathFrom(m, s.current, e + 1).value, s.eps[k].caller);
      }
    }
  }

  lemma StaysAborted(m: Kernel, r: Kernel, c: int)
    requires |m.threads| == |r.threads| == THREAD_COUNT && OthersKept(m, r) && Aborted(m, c) && c != m.current
    ensures Aborted(r, c)
  {
    assert OtherTask(m.threads[c], r.threads[c]);
  }

  predicate Dying(t: Thread) {
    t.reason.Exit? || t.reason.Fault?
  }

  lemma ParkDyingEps(s: Kernel, k: nat)
    requires Redirected(s) && k < EP_COUNT && Dying(s.threads[s.current])
    ensures Park(s).Ok?
    ensures var r := Park(s).value;
            && r == s.(threads := r.threads, resched := r.resched, eps := r.eps, uart := r.uart,
                       death := r.death, waiter := r.waiter)
            && r.eps[k] == AfterDeath(s.eps[k], s.current)
            && r.threads[s.current].task.TaskDead?
            && (Serves(s.eps[k], s.current) ==> Aborted(r, s.eps[k].caller))
  {
    var dead := MarkDead(s);
    MarkDeadInv(s);
    DeathFromInv(dead, 0);
    DeathFromEps(dead, 0, k);
    var m := DeathFrom(dead, s.current, 0).value;
    DeathFromOthers(dead, 0);
    NoteDeathOthers(m);
    NoteDeathFrame(m, s.current);
    if Serves(dead.eps[k], s.current) {
      StaysAborted(m, NoteDeath(m, s.current).value, dead.eps[k].caller);
    }
  }

  lemma NoteDeathFrame(s: Kernel, slot: nat)
    requires Fits(s) && slot < THREAD_COUNT && NoteDeath(s, slot).Ok?
    ensures var r := NoteDeath(s, slot).value;
            r == s.(threads := r.threads, resched := r.resched, death := r.death, waiter := r.waiter)
  {
  }

  /** From a parked state to the next entry into EL0: the scheduler's globals and one task's
      start are all that changes. */
  lemma SwitchReturns(p: Kernel, w: nat)
    requires Parked(p) && p.resched
    ensures SwitchAndResume(p, w).Ok?
    ensures var r := SwitchAndResume(p, w).value;
            && SchedulerOnly(p, r) && 0 <= p.current < IDLE && |r.threads| == THREAD_COUNT
            && Resumed(p, r)
            && (r.threads[p.current].task.TaskDead? <==> p.threads[p.current].task.TaskDead?)
            && (r.threads[p.current].task.TaskBlocked? <==> p.threads[p.current].task.TaskBlocked?)
  {
    SwitchKeepsCtx(p, w);
    SwitchSchedulerOnly(p, w);
    hide SwitchAndResume, Common, WaitsMatch;
  }

  lemma LivingReturns(s: Kernel, w: nat)
    requires Redirected(s) && !Dying(s.threads[s.current])
    ensures ReturnStep(s, w).Ok?
    ensures var r := ReturnStep(s, w).value;
            && r.mem == s.mem && r.build == s.build && r.eps == s.eps
            && r.death == s.death && r.waiter == s.waiter && r.uart == s.uart
            && |r.threads| == THREAD_COUNT
            && !r.threads[s.current].task.TaskDead?
            && (r.threads[s.current].task.TaskBlocked? <==> IsBlock(s.threads[s.current].reason))
  {
    ParkInv(s);
    ParkLiveEffect(s);
    var p := Park(s).value.(resched := true);
    SameKernelKeeps(Park(s).value, p);
    SwitchReturns(p, w);
    hide Park, SwitchAndResume, Common, Parked, WaitsMatch, Resumed;
  }

  lemma DyingReturns(s: Kernel, w: nat, k: nat)
    requires Redirected(s) && k < EP_COUNT && Dying(s.threads[s.current])
    ensures ReturnStep(s, w).Ok?
    ensures var r := ReturnStep(s, w).value;
            && r.mem == s.mem && r.build == s.build
            && r.eps[k] == AfterDeath(s.eps[k], s.current)
            && r.threads[s.current].task.TaskDead?
            && (Serves(s.eps[k], s.current) ==>
                  var c := s.eps[k].caller;
                  0 <= c < IDLE && !r.threads[c].task.TaskBlocked? && r.threads[c].ctx.x[0] == MINUS_ONE)
  {
    ParkInv(s);
    ParkDyingEps(s, k);
    var p := Park(s).value.(resched := true);
    SameKernelKeeps(Park(s).value, p);
    SwitchReturns(p, w);
    hide Park, SwitchAndResume, Common, Parked, Redirected, WaitsMatch;
  }

  /** The return step from a redirected trap, seen from endpoint `k`. */
  lemma ReturnEps(s: Kernel, w: nat, k: nat)
    requires Redirected(s) && k < EP_COUNT
    ensures ReturnStep(s, w).Ok?
    ensures var r := ReturnStep(s, w).value;
            var t := s.threads[s.current];
            && r.mem == s.mem && r.build == s.build
            && r.eps[k] == (if Dying(t) then AfterDeath(s.eps[k], s.current) else s.eps[k])
            && (r.threads[s.current].task.TaskDead? <==> Dying(t))
            && (r.threads[s.current].task.TaskBlocked? <==> IsBlock(t.reason))
            && (!Dying(t) ==> r.death == s.death && r.waiter == s.waiter && r.uart == s.uart)
            && (Dying(t) && Serves(s.eps[k], s.current) ==>
                  var c := s.eps[k].caller;
                  0 <= c < IDLE && !r.threads[c].task.TaskBlocked? && r.threads[c].ctx.x[0] == MINUS_ONE)
  {
    assert Fits(s) && s.current != NONE;
    hide Redirected, ReturnStep, AfterDeath, Fits, Serves;
    if Dying(s.threads[s.current]) {
      DyingReturns(s, w, k);
    } else {
      LivingReturns(s, w);
    }
  }
}
