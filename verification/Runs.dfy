/** Whole runs: safety, the exact condition for a panic, the idle end state, and the
    integrity of the saved user registers. */
module Runs {
  import opened Base
  import opened Memory
  import opened State
  import opened Threads
  import opened Ipc
  import opened Supervisor
  import opened Machine
  import opened Invariant

  /** One event; an event that cannot occur in `s` leaves it alone. */
  function Do(s: Kernel, e: Event): (r: Result<Kernel>)
    requires Fits(s)
    ensures r.Ok? ==> Fits(r.value)
  {
    if Enabled(s, e) then Step(s, e) else Ok(s)
  }

  function Run(s: Kernel, es: seq<Event>): (r: Result<Kernel>)
    requires Fits(s)
    ensures r.Ok? ==> Fits(r.value)
    decreases |es|
  {
    if es == [] then Ok(s)
    else
      var s1 :- Do(s, es[0]);
      Run(s1, es[1..])
  }

  lemma RunCons(s: Kernel, e: Event, es: seq<Event>)
    requires Fits(s) && Do(s, e).Ok?
    ensures Run(s, [e] + es) == Run(Do(s, e).value, es)
  {
    assert ([e] + es)[1..] == es;
  }

  lemma {:induction false} RunAppend(s: Kernel, a: seq<Event>, b: seq<Event>)
    requires Fits(s) && Run(s, a).Ok?
    ensures Run(s, a + b) == Run(Run(s, a).value, b)
    decreases |a|
  {
    if a == [] {
      assert a + b == b;
    } else {
      assert (a + b)[0] == a[0] && (a + b)[1..] == a[1..] + b;
      RunAppend(Do(s, a[0]).value, a[1..], b);
    }
  }

  /** EL0 may trap with any registers and memory, as long as it runs inside its sandbox. */
  ghost predicate StaysInside(es: seq<Event>) {
    forall k :: 0 <= k < |es| ==> TrapInside(es[k])
  }

  lemma {:induction false} RunInv(s: Kernel, es: seq<Event>)
    requires Inv(s) && StaysInside(es)
    ensures Run(s, es).Ok? && Inv(Run(s, es).value)
    decreases |es|
  {
    if es != [] {
      assert TrapInside(es[0]);
      if Enabled(s, es[0]) {
        StepInv(s, es[0]);
      }
      RunInv(Do(s, es[0]).value, es[1..]);
    }
  }

  /** No run of any EL0 code that stays inside the sandbox makes the kernel panic. In every
      state it reaches a user task is blocked exactly when one wait slot names it, and then
      only one does; a task is dead exactly when its thread is stopped; and exactly one
      thread runs, the current one. */
  lemma SafeRuns(b: Build, mem: Mem, es: seq<Event>)
    requires b.LayoutOk() && StaysInside(es)
    ensures Run(Boot(b, mem), es).Ok?
    ensures var s := Run(Boot(b, mem), es).value;
            && (forall i :: 0 <= i < IDLE ==>
                  (s.threads[i].task.TaskBlocked? <==> exists w :: Named(s, w) == i))
            && (forall v, w :: Named(s, v) == Named(s, w) != NONE ==> v == w)
            && (forall i :: 0 <= i < IDLE ==>
                  (s.threads[i].task.TaskDead? <==> s.threads[i].state.ThreadStopped?))
            && (forall i :: 0 <= i < THREAD_COUNT ==>
                  (s.threads[i].state.ThreadRunning? <==> i == s.current))
            && (forall i :: 0 <= i < THREAD_COUNT ==> 1 <= s.threads[i].quantum <= QUANTUM_TICKS)
  {
    BootInv(b, mem);
    RunInv(Boot(b, mem), es);
    var s := Run(Boot(b, mem), es).value;
    forall i | 0 <= i < IDLE
      ensures s.threads[i].task.TaskBlocked? <==> exists w :: Named(s, w) == i
    {
      assert i in Blocked(s) <==> s.threads[i].task.TaskBlocked?;
      assert forall w :: Named(s, w) == i ==> i in Blocked(s);
    }
    assert forall i :: 0 <= i < THREAD_COUNT ==> ThreadOk(s.build, s.threads[i], i);
  }

  /** The endpoint takes a new request now. */
  predicate Accepting(ep: Endpoint) {
    ep.owner != NONE && !ep.hasPending && ep.caller == NONE
  }

  /** The traps that send the task through the return continuation, told from the trap and
      the kernel state before it. */
  predicate Parks(s: Kernel, tf: TrapFrame)
    requires Fits(s)
  {
    var nr := tf.x[8];
    || !IsSvc(tf)
    || nr == SYS_YIELD
    || nr == SYS_EXIT
    || (nr == SYS_WRITE && s.build.micro && s.current == TASK_A && RangeOk(tf.x[0], tf.x[1])
        && tf.x[1] <= IPC_MSG_SIZE && Accepting(s.eps[EP_UART]))
    || (nr == SYS_IPC_CALL && ValidEp(tf.x[0]) && tf.x[2] <= IPC_MSG_SIZE && RangeOk(tf.x[1], tf.x[2])
        && RangeOk(tf.x[3], tf.x[4]) && Accepting(s.eps[tf.x[0]]))
    || (nr == SYS_IPC_RECV && ValidEp(tf.x[0]) && RangeOk(tf.x[1], tf.x[2])
        && s.eps[tf.x[0]].owner == s.current && !s.eps[tf.x[0]].hasPending)
    || (nr == SYS_SUPERVISE_WAIT && s.current == TASK_C && s.death == NONE)
  }

  lemma AwakeIsUnnamed(s: Kernel)
    requires UserRunning(s)
    ensures s.waiter != s.current
    ensures forall e :: 0 <= e < EP_COUNT ==> s.eps[e].caller != s.current && s.eps[e].receiver != s.current
  {
    assert s.current !in Blocked(s);
    assert Named(s, SupervisorWait) == s.waiter;
    forall e | 0 <= e < EP_COUNT ensures s.eps[e].caller != s.current && s.eps[e].receiver != s.current {
      assert Named(s, CallerOf(e)) == s.eps[e].caller && Named(s, ReceiverOf(e)) == s.eps[e].receiver;
    }
  }

  /** The handler does not answer at once. */
  predicate NotAnswered(out: Result<(Kernel, Leave)>) {
    !(out.Ok? && out.value.1.ToUser?)
  }

  lemma CallParks(s: Kernel, tf: TrapFrame)
    requires UserRunning(s) && IsSvc(tf) && tf.x[8] == SYS_IPC_CALL
    ensures Parks(s, tf) <==> NotAnswered(Call(s, tf))
  {
    if Parks(s, tf) {
      SubmitInv(s, tf, tf.x[0], tf.x[1], tf.x[2], tf.x[3], tf.x[4], 0);
    }
  }

  lemma WriteParks(s: Kernel, tf: TrapFrame)
    requires UserRunning(s) && IsSvc(tf) && tf.x[8] == SYS_WRITE
    ensures Parks(s, tf) <==> NotAnswered(Write(s, tf))
  {
    if Parks(s, tf) {
      SubmitInv(s, tf, EP_UART, tf.x[0], tf.x[1], 0, 0, tf.x[1]);
    }
  }

  lemma RecvParks(s: Kernel, tf: TrapFrame)
    requires UserRunning(s) && IsSvc(tf) && tf.x[8] == SYS_IPC_RECV
    ensures Parks(s, tf) <==> NotAnswered(Recv(s, tf))
  {
    AwakeIsUnnamed(s);
  }

  lemma ReplyAnswers(s: Kernel, tf: TrapFrame)
    requires UserRunning(s)
    ensures !NotAnswered(Reply(s, tf))
  {
    ReplyInv(s, tf);
  }

  lemma WaitParks(s: Kernel, tf: TrapFrame)
    requires UserRunning(s) && IsSvc(tf) && tf.x[8] == SYS_SUPERVISE_WAIT
    ensures Parks(s, tf) <==> NotAnswered(Wait(s, tf))
  {
    AwakeIsUnnamed(s);
  }

  /** A handler redirects exactly the traps listed in `Parks`. */
  lemma ParksExactly(s: Kernel, tf: TrapFrame)
    requires UserRunning(s)
    ensures Parks(s, tf) <==> NotAnswered(HandleTrap(s, tf))
  {
    if IsSvc(tf) {
      var nr := tf.x[8];
      if nr == SYS_IPC_CALL {
        CallParks(s, tf);
      } else if nr == SYS_WRITE {
        WriteParks(s, tf);
      } else if nr == SYS_IPC_RECV {
        RecvParks(s, tf);
      } else if nr == SYS_IPC_REPLY {
        ReplyAnswers(s, tf);
      } else if nr == SYS_SUPERVISE_WAIT {
        WaitParks(s, tf);
      }
    }
  }

  /** Exactly when a step panics: a trap that must be parked comes from an ELR outside the
      sandbox. (The kernel checks the ELR only when it parks a task, so a plain answer to a
      system call from outside does not stop it.) */
  lemma PanicsExactly(s: Kernel, e: Event)
    requires Inv(s) && Enabled(s, e)
    ensures Step(s, e).Panicked? <==> e.Trap? && !InSandbox(e.tf.elr) && Parks(s.(mem := e.mem), e.tf)
    ensures Step(s, e).Panicked? ==> Step(s, e).reason == TrapElrOutside
  {
    StepInv(s, e);
    if e.Trap? {
      var s0 := s.(mem := e.mem);
      SameKernelKeeps(s, s0);
      ParksExactly(s0, e.tf);
      HandleTrapInv(s0, e.tf);
    }
  }

  /** No parking trap of the run is taken at an ELR outside the sandbox. */
  ghost predicate ParksInside(s: Kernel, es: seq<Event>)
    requires Fits(s)
    decreases |es|
  {
    es != [] ==>
      && !(Enabled(s, es[0]) && es[0].Trap? && !InSandbox(es[0].tf.elr) && Parks(s.(mem := es[0].mem), es[0].tf))
      && (Do(s, es[0]).Ok? ==> ParksInside(Do(s, es[0]).value, es[1..]))
  }

  /** Exactly which runs reach their end, EL0 free to jump anywhere. */
  lemma {:induction false} RunsExactly(s: Kernel, es: seq<Event>)
    requires Fits(s) && Inv(s)
    ensures Run(s, es).Ok? <==> ParksInside(s, es)
    ensures Run(s, es).Ok? ==> Inv(Run(s, es).value)
    decreases |es|
  {
    if es != [] {
      if Enabled(s, es[0]) {
        PanicsExactly(s, es[0]);
        StepInv(s, es[0]);
      }
      hide Inv, Step, Parks;
      if Do(s, es[0]).Ok? {
        RunsExactly(Do(s, es[0]).value, es[1..]);
      }
    }
  }

  // ---------------------------------------------------------------- idle

  /** `r` is `s` with nothing changed but the clock, the request flag and idle's quantum. */
  ghost predicate OnlyClock(s: Kernel, r: Kernel)
    requires |s.threads| == THREAD_COUNT
  {
    exists q: nat {:trigger s.threads[IDLE].(quantum := q)} ::
      r == s.(ticks := r.ticks, resched := r.resched, threads := s.threads[IDLE := s.threads[IDLE].(quantum := q)])
  }

  lemma IdleStep(s: Kernel, e: Event)
    requires Inv(s) && s.current == IDLE
    ensures Do(s, e).Ok? && Inv(Do(s, e).value) && OnlyClock(s, Do(s, e).value)
  {
    assert OnlyClock(s, s) by {
      assert s.threads[IDLE].(quantum := s.threads[IDLE].quantum) == s.threads[IDLE];
    }
    if Enabled(s, e) {
      StepInv(s, e);
      var r := Step(s, e).value;
      if e.TimerTick? {
        OneTickAtIdle(s);
      } else if s.resched {
        var s1 := s.(resched := false);
        SameKernelKeeps(s, s1);
        IdleTicks(s1, e.w);
        var s2 := Ticks(s1, e.w);
        PickOk(s2);
        var next := PickNext(s2.threads, s2.current).value;
        assert !UserSelectable(s2, next);
        assert r == s2;
      } else {
        assert r == s;
      }
    }
  }

  lemma OneTickAtIdle(s: Kernel)
    requires Inv(s) && s.current == IDLE
    ensures OnlyClock(s, Tick(s))
  {
    var q := Tick(s).threads[IDLE].quantum;
    assert Tick(s).threads == s.threads[IDLE := s.threads[IDLE].(quantum := q)];
  }

  lemma {:induction false} IdleTicks(s: Kernel, n: nat)
    requires Inv(s) && s.current == IDLE
    ensures Inv(Ticks(s, n)) && Ticks(s, n).current == IDLE && OnlyClock(s, Ticks(s, n))
    decreases n
  {
    if n == 0 {
      assert s.threads[IDLE].(quantum := s.threads[IDLE].quantum) == s.threads[IDLE];
    } else {
      TickKeepsInv(s);
      OneTickAtIdle(s);
      IdleTicks(Tick(s), n - 1);
      OnlyClockChains(s, Tick(s), Ticks(s, n));
    }
  }

  lemma OnlyClockChains(s: Kernel, m: Kernel, r: Kernel)
    requires |s.threads| == |m.threads| == THREAD_COUNT && OnlyClock(s, m) && OnlyClock(m, r)
    ensures OnlyClock(s, r)
  {
    var q :| r == m.(ticks := r.ticks, resched := r.resched,
                     threads := m.threads[IDLE := m.threads[IDLE].(quantum := q)]);
    assert r == s.(ticks := r.ticks, resched := r.resched,
                   threads := s.threads[IDLE := s.threads[IDLE].(quantum := q)]);
  }

  /** Idle is the end: it is entered only when no user task is selectable, and from then on no
      event, whatever it is, changes more than the clock, the flag and idle's own quantum. */
  lemma {:induction false} IdleIsAbsorbing(s: Kernel, es: seq<Event>)
    requires Inv(s) && s.current == IDLE
    ensures Run(s, es).Ok? && OnlyClock(s, Run(s, es).value)
    ensures forall i :: !UserSelectable(Run(s, es).value, i)
    decreases |es|
  {
    if es == [] {
      assert s.threads[IDLE].(quantum := s.threads[IDLE].quantum) == s.threads[IDLE];
    } else {
      IdleStep(s, es[0]);
      var m := Do(s, es[0]).value;
      IdleIsAbsorbing(m, es[1..]);
      OnlyClockChains(s, m, Run(s, es).value);
    }
  }
}
