/** How long task_a's write takes in the OFF and RECOVERY systems, crash and restart included. */
module Progress {
  import opened Base
  import opened Memory
  import opened State
  import opened Machine
  import opened Invariant
  import opened Runs
  import opened Context
  import opened RpcKernel
  import opened Scheduler
  import opened Fairness
  import opened Shipped
  import opened ShippedSteps
  import opened ShippedRuns
  import opened LatencySteps
  import opened Wire
  import opened WireSteps
  import opened WireRuns

  /** The traps the server makes from a program point to its next acknowledgement. */
  function ServerRank(l: Layout, b: Build, pc: u64, x0: u64): nat {
    if pc == l.bWrite then 1
    else if pc == l.bRecv && x0 != MINUS_ONE then 2
    else if pc == b.entryB && l.off then 4
    else 3
  }

  /** The announcement the supervisor makes before its next wait. */
  function Announces(l: Layout, b: Build, pc: u64, x0: u64): nat {
    if l.off && (pc == b.entryC || (pc == l.cRestart && x0 == 0)) then 1 else 0
  }

  /** The traps task_b and task_c make at most before a waiting task_a is answered. */
  function Rank(l: Layout, s: Kernel): nat
    requires |s.threads| == THREAD_COUNT
  {
    var b, c := Pc(s, TASK_B), Pc(s, TASK_C);
    var toWait := Announces(l, s.build, c.elr, c.x[0]) + 1;
    var anew := if l.off then 4 else 3;
    if Dead(s, TASK_B) then (if Held(l, s) then 0 else toWait) + 1 + (if l.off then 2 else 1) + anew
    else ServerRank(l, s.build, b.elr, b.x[0]) + if Sleeps(s, TASK_C) then 0 else toWait
  }

  lemma RankBound(l: Layout, s: Kernel)
    requires |s.threads| == THREAD_COUNT
    ensures Rank(l, s) <= if l.off then 9 else 6
  {
  }

  /** task_a is answered, or the wait is shorter by a trap. */
  ghost predicate Nearer(l: Layout, s: Kernel, r: Kernel) {
    |s.threads| == |r.threads| == THREAD_COUNT && (!Sleeps(r, TASK_A) || Rank(l, r) < Rank(l, s))
  }

  /** The supervisor as a trap of task_b that reports nothing leaves it. */
  lemma SupervisorKept(l: Layout, s: Kernel, tf: TrapFrame, r: Kernel)
    requires SystemOk(l, s) && SystemOk(l, r) && TaskViewOf(s, tf, r, TASK_C) && r.waiter == s.waiter
    ensures Sleeps(r, TASK_C) == Sleeps(s, TASK_C) && Pc(r, TASK_C) == Pc(s, TASK_C)
  {
    WhoSleeps(s);
    WhoSleeps(r);
  }

  // ---------------------------------------------------------------- task_b

  lemma BAnnounceNearer(l: Layout, s: Kernel, tf: TrapFrame, w: nat)
    requires Wired(l, s) && s.current == TASK_B && l.off
    requires s.el0.elr == s.build.entryB && Syscall(tf, SYS_WRITE, l.bReady)
    ensures TrapStep(s, tf, w).Ok? && Nearer(l, s, TrapStep(s, tf, w).value)
  {
    BWrites(l, s, tf, w);
    TrapTaskView(s, tf, w);
    QuietTrap(l, s, tf, w);
    ANotDead(s, tf, w);
    var r := TrapStep(s, tf, w).value;
    assert OtherView(s, tf, r, TASK_C);
    SupervisorKept(l, s, tf, r);
    OneRunningTask(s, TASK_B);
    hide Inv, TrapStep, UartOk, ServerOk, NoticeOk;
  }

  lemma BServeNearer(l: Layout, s: Kernel, tf: TrapFrame, w: nat)
    requires Wired(l, s) && s.current == TASK_B && s.el0.elr == l.bRecv && s.el0.x[0] != MINUS_ONE
    requires Syscall(tf, SYS_WRITE, l.bWrite)
    ensures TrapStep(s, tf, w).Ok? && Nearer(l, s, TrapStep(s, tf, w).value)
  {
    BWrites(l, s, tf, w);
    TrapTaskView(s, tf, w);
    QuietTrap(l, s, tf, w);
    ANotDead(s, tf, w);
    var r := TrapStep(s, tf, w).value;
    assert OtherView(s, tf, r, TASK_C);
    SupervisorKept(l, s, tf, r);
    OneRunningTask(s, TASK_B);
    hide Inv, TrapStep, UartOk, ServerOk, NoticeOk;
  }

  lemma BReplyNearer(l: Layout, s: Kernel, tf: TrapFrame, w: nat)
    requires Wired(l, s) && s.current == TASK_B && s.el0.elr == l.bWrite
    requires Syscall(tf, SYS_IPC_REPLY, l.bReply) && tf.x[0] == EP_UART && tf.x[1] == l.recvBuf && tf.x[2] == 0
    ensures TrapStep(s, tf, w).Ok? && Nearer(l, s, TrapStep(s, tf, w).value)
  {
    BReplies(l, s, tf, w);
    WhoSleeps(s);
    assert s.eps[EP_UART].owner == TASK_B && Busy(l, s) && RangeOk(l.recvBuf, 0);
    ReplyReturns(s, tf, w, EP_UART, l.recvBuf, 0);
    WhoSleeps(TrapStep(s, tf, w).value);
  }

  lemma BReceiveNearer(l: Layout, s: Kernel, tf: TrapFrame, w: nat)
    requires Wired(l, s) && s.current == TASK_B && RecvCall(l, tf) && !Busy(l, s) && Sleeps(s, TASK_A)
    requires l.BPoint(s.build, s.el0.elr) && !(s.el0.elr == l.bRecv && s.el0.x[0] != MINUS_ONE) && s.el0.elr != l.bWrite
    ensures TrapStep(s, tf, w).Ok? && Nearer(l, s, TrapStep(s, tf, w).value)
  {
    BReceives(l, s, tf, w);
    TrapTaskView(s, tf, w);
    RecvResult(l, s, tf, w);
    WhoSleeps(s);
    var r := TrapStep(s, tf, w).value;
    assert OtherView(s, tf, r, TASK_C);
    SupervisorKept(l, s, tf, r);
    OneRunningTask(s, TASK_B);
    assert s.eps[EP_UART].hasPending;
    hide Inv, TrapStep, UartOk, ServerOk, NoticeOk;
  }

  // ---------------------------------------------------------------- task_c

  lemma CAnnounceNearer(l: Layout, s: Kernel, tf: TrapFrame, w: nat)
    requires Wired(l, s) && s.current == TASK_C && l.off && IsSvc(tf) && tf.x[8] == SYS_WRITE && InSandbox(tf.elr)
    requires s.el0.elr == s.build.entryC || (s.el0.elr == l.cRestart && s.el0.x[0] == 0)
    requires tf.elr == l.cReady || tf.elr == l.cSaid
    ensures TrapStep(s, tf, w).Ok? && Nearer(l, s, TrapStep(s, tf, w).value)
  {
    CWrites(l, s, tf, w);
    TrapTaskView(s, tf, w);
    QuietTrap(l, s, tf, w);
    var r := TrapStep(s, tf, w).value;
    assert OtherView(s, tf, r, TASK_B);
    ServerKept(l, s, tf, r);
    OneRunningTask(s, TASK_C);
    OneRunningTask(r, TASK_C);
    hide Inv, TrapStep, UartOk, ServerOk, NoticeOk;
  }

  lemma CWaitNearer(l: Layout, s: Kernel, tf: TrapFrame, w: nat)
    requires Wired(l, s) && s.current == TASK_C && Syscall(tf, SYS_SUPERVISE_WAIT, l.cWait) && !Held(l, s)
    requires Announces(l, s.build, s.el0.elr, s.el0.x[0]) == 0
    ensures TrapStep(s, tf, w).Ok? && Nearer(l, s, TrapStep(s, tf, w).value)
  {
    CWaits(l, s, tf, w);
    TrapTaskView(s, tf, w);
    WaitResult(s, tf, w);
    var r := TrapStep(s, tf, w).value;
    assert OtherView(s, tf, r, TASK_B);
    ServerKept(l, s, tf, r);
    OneRunningTask(s, TASK_C);
    OneRunningTask(r, TASK_C);
    WhoSleeps(r);
    hide Inv, TrapStep, UartOk, ServerOk;
  }

  lemma CRestartNearer(l: Layout, s: Kernel, tf: TrapFrame, w: nat)
    requires Wired(l, s) && s.current == TASK_C && Held(l, s)
    requires Syscall(tf, SYS_TASK_RESTART, l.cRestart) && tf.x[0] == TASK_B
    ensures TrapStep(s, tf, w).Ok? && Nearer(l, s, TrapStep(s, tf, w).value)
  {
    CRestarts(l, s, tf, w);
    TrapTaskView(s, tf, w);
    RestartSucceeds(s, tf);
    AnsweredRuns(s, tf, w);
    HandleTrapInv(s, tf);
    var r := TrapStep(s, tf, w).value;
    assert OtherView(s, tf, r, TASK_B);
    assert ThreadOk(s.build, s.threads[TASK_B], TASK_B);
    assert r.build == s.build && r.current == TASK_C;
    hide Inv, TrapStep, HandleTrap, UartOk, ServerOk;
  }

  // ---------------------------------------------------------------- any event

  lemma BNearer(l: Layout, s: Kernel, e: Event)
    requires Wired(l, s) && s.current == TASK_B && Sleeps(s, TASK_A) && e.Trap? && TrapOfB(l, s, e)
    requires Wired(l, s.(mem := e.mem)) && (s.el0.elr == l.bReply ==> Crashed(l, s.mem))
    ensures TrapStep(s.(mem := e.mem), e.tf, e.w).Ok?
    ensures Nearer(l, s, TrapStep(s.(mem := e.mem), e.tf, e.w).value)
  {
    var s0, pc := s.(mem := e.mem), s.el0.elr;
    ServerPoints(l, s);
    assert Busy(l, s0) == Busy(l, s) && Rank(l, s0) == Rank(l, s) && Fits(s0);
    hide Wired, Fits, TrapStep, Busy, Rank;
    if pc == s.build.entryB && l.off {
      BAnnounceNearer(l, s0, e.tf, e.w);
    } else if pc == l.bRecv && s.el0.x[0] != MINUS_ONE {
      BServeNearer(l, s0, e.tf, e.w);
    } else if pc == l.bWrite {
      BReplyNearer(l, s0, e.tf, e.w);
    } else {
      BReceiveNearer(l, s0, e.tf, e.w);
    }
  }

  lemma CNearer(l: Layout, s: Kernel, e: Event)
    requires Wired(l, s) && s.current == TASK_C && e.Trap? && TrapOfC(l, s, e) && Wired(l, s.(mem := e.mem))
    ensures TrapStep(s.(mem := e.mem), e.tf, e.w).Ok?
    ensures Nearer(l, s, TrapStep(s.(mem := e.mem), e.tf, e.w).value)
  {
    var s0, pc := s.(mem := e.mem), s.el0.elr;
    HeldSeen(l, s);
    assert Held(l, s0) == Held(l, s) && Rank(l, s0) == Rank(l, s) && Fits(s0);
    hide Wired, Fits, TrapStep, Held, Rank;
    if pc == l.cWait && s.el0.x[0] == TASK_B {
      CRestartNearer(l, s0, e.tf, e.w);
    } else if e.tf.x[8] == SYS_WRITE {
      CAnnounceNearer(l, s0, e.tf, e.w);
    } else {
      CWaitNearer(l, s0, e.tf, e.w);
    }
  }

  /** A running supervisor holds the notice exactly at its wait point, with task_b in x0. */
  lemma HeldSeen(l: Layout, s: Kernel)
    requires Wired(l, s) && s.current == TASK_C
    ensures Held(l, s) <==> s.el0.elr == l.cWait && s.el0.x[0] == TASK_B
    ensures l.Suits(s.build)
  {
    OneRunningTask(s, TASK_C);
  }

  /** While task_a waits, the server is not at its acknowledgement point: it cannot crash. */
  lemma NoCrashWhileWaiting(l: Layout, s: Kernel)
    requires Wired(l, s) && Sleeps(s, TASK_A)
    ensures s.current != TASK_A && s.current != IDLE && Fits(s)
    ensures s.current == TASK_B ==> s.el0.elr != l.bReply
  {
    WhoSleeps(s);
    SomeoneRuns(l, s);
    OneRunningTask(s, TASK_A);
    OneRunningTask(s, TASK_B);
  }

  /** Every trap brings the answer nearer; ticks leave it where it is. */
  lemma EventNearer(l: Layout, s: Kernel, e: Event)
    requires Wired(l, s) && Sleeps(s, TASK_A) && ByShipped(l, s, e) && Careful(l, s, e)
    ensures Do(s, e).Ok? && Wired(l, Do(s, e).value)
    ensures if e.Trap? && Enabled(s, e) then Nearer(l, s, Do(s, e).value)
            else Sleeps(Do(s, e).value, TASK_A) && Rank(l, Do(s, e).value) == Rank(l, s)
  {
    WireStep(l, s, e);
    NoCrashWhileWaiting(l, s);
    match e
    case Trap(mem, tf, w) =>
      if s.current == TASK_B {
        WireSwap(l, s, mem);
        BNearer(l, s, e);
      } else {
        WireSwap(l, s, mem);
        CNearer(l, s, e);
      }
    case TimerTick => TickFrame(s);
    case IdlePass(_) =>
  }

  // ---------------------------------------------------------------- runs

  /** How many traps a run contains. */
  function Traps(s: Kernel, es: seq<Event>): nat
    requires Fits(s)
    decreases |es|
  {
    if es == [] || Do(s, es[0]).Panicked? then 0
    else (if es[0].Trap? && Enabled(s, es[0]) then 1 else 0) + Traps(Do(s, es[0]).value, es[1..])
  }

  ghost predicate AnsweredAt(l: Layout, s: Kernel, es: seq<Event>, k: nat)
    requires Fits(s) && k <= |es|
  {
    Run(s, es[..k]).Ok? && Wired(l, Run(s, es[..k]).value) && !Sleeps(Run(s, es[..k]).value, TASK_A)
  }

  /** Once its write is accepted, task_a is answered before the run has made `Rank` traps: at most
      six, or nine with the announcements of the OFF build. */
  lemma {:induction false} AnsweredWithin(l: Layout, s: Kernel, es: seq<Event>)
    requires Fits(s) && RangeOk(l.recvBuf, 256) && RangeOk(l.flag, 4)
    requires Wired(l, s) && Sleeps(s, TASK_A) && ShippedRun(l, s, es) && CarefulRun(l, s, es)
    requires Traps(s, es) >= Rank(l, s)
    ensures Rank(l, s) <= if l.off then 9 else 6
    ensures exists k :: 0 < k <= |es| && AnsweredAt(l, s, es, k)
    decreases |es|
  {
    assert |s.threads| == THREAD_COUNT;
    hide Wired, Fits, Do, Rank, ShippedRun, CarefulRun, AnsweredAt, Nearer, Careful, ByShipped;
    RankBound(l, s);
    RankPositive(l, s);
    FirstOfRun(l, s, es);
    EventNearer(l, s, es[0]);
    var m := Do(s, es[0]).value;
    WiredFits(l, m);
    CountFirst(l, s, es);
    if Sleeps(m, TASK_A) {
      AnsweredWithin(l, m, es[1..]);
      var k :| 0 < k <= |es[1..]| && AnsweredAt(l, m, es[1..], k);
      LaterAnswered(l, s, es, k);
    } else {
      AnsweredNow(l, s, es);
    }
  }

  lemma CountFirst(l: Layout, s: Kernel, es: seq<Event>)
    requires Fits(s) && es != [] && Do(s, es[0]).Ok?
    requires if es[0].Trap? && Enabled(s, es[0]) then Nearer(l, s, Do(s, es[0]).value)
             else Rank(l, Do(s, es[0]).value) == Rank(l, s)
    ensures Traps(s, es) >= Rank(l, s) && Sleeps(Do(s, es[0]).value, TASK_A) ==>
              Traps(Do(s, es[0]).value, es[1..]) >= Rank(l, Do(s, es[0]).value)
  {
    hide Do, Rank;
  }

  lemma LaterAnswered(l: Layout, s: Kernel, es: seq<Event>, k: nat)
    requires Fits(s) && es != [] && Do(s, es[0]).Ok? && k < |es|
    requires AnsweredAt(l, Do(s, es[0]).value, es[1..], k)
    ensures AnsweredAt(l, s, es, k + 1)
  {
    RunPrefix(s, es, k + 1);
    hide Wired, Do, Run;
  }

  lemma AnsweredNow(l: Layout, s: Kernel, es: seq<Event>)
    requires Fits(s) && es != [] && Do(s, es[0]).Ok?
    requires Wired(l, Do(s, es[0]).value) && !Sleeps(Do(s, es[0]).value, TASK_A)
    ensures AnsweredAt(l, s, es, 1)
  {
    RunPrefix(s, es, 1);
    hide Wired, Do;
  }

  lemma RankPositive(l: Layout, s: Kernel)
    requires |s.threads| == THREAD_COUNT
    ensures Rank(l, s) > 0
  {
  }

  lemma {:induction false} ReturnStepsSplit(s: Kernel, es: seq<Event>, k: nat)
    requires Fits(s) && k <= |es| && Run(s, es[..k]).Ok?
    ensures ReturnSteps(s, es) == ReturnSteps(s, es[..k]) + ReturnSteps(Run(s, es[..k]).value, es[k..])
    decreases k
  {
    if k == 0 {
      assert es[0..] == es;
    } else {
      RunPrefix(s, es, k);
      assert es[..k][1..] == es[1..][..k - 1] && es[k..] == es[1..][k - 1..];
      ReturnStepsSplit(Do(s, es[0]).value, es[1..], k - 1);
    }
  }

  lemma {:induction false} ReturnStepsAppend(s: Kernel, a: seq<Event>, b: seq<Event>)
    requires Fits(s) && Run(s, a).Ok?
    ensures ReturnSteps(s, a + b) == ReturnSteps(s, a) + ReturnSteps(Run(s, a).value, b)
  {
    assert (a + b)[..|a|] == a && (a + b)[|a|..] == b;
    ReturnStepsSplit(s, a + b, |a|);
  }

  /** task_a has the CPU after `k` events. */
  ghost predicate ClientAt(s: Kernel, es: seq<Event>, k: nat)
    requires Fits(s) && k <= |es|
  {
    Run(s, es[..k]).Ok? && Run(s, es[..k]).value.current == TASK_A
  }

  /** An accepted write comes back: as soon as the run has made nine traps (six without the
      announcements) and after them three return steps, task_a has been back in EL0. */
  lemma WriteComesBack(l: Layout, s: Kernel, first: seq<Event>, rest: seq<Event>)
    requires Wired(l, s) && Sleeps(s, TASK_A) && Fits(s) && RangeOk(l.recvBuf, 256) && RangeOk(l.flag, 4)
    requires ShippedRun(l, s, first) && CarefulRun(l, s, first) && StaysInside(first + rest)
    requires Traps(s, first) >= (if l.off then 9 else 6)
    requires Run(s, first).Ok? && ReturnSteps(Run(s, first).value, rest) >= 3
    ensures exists k :: 0 < k <= |first + rest| && ClientAt(s, first + rest, k)
  {
    assert |s.threads| == THREAD_COUNT;
    hide Wired, Fits, Run, ReturnSteps, AnsweredAt, ShippedRun, CarefulRun, Rank, ClientAt;
    RankBound(l, s);
    AnsweredWithin(l, s, first);
    var k :| 0 < k <= |first| && AnsweredAt(l, s, first, k);
    FromAnswer(l, s, first, rest, k);
  }

  lemma FromAnswer(l: Layout, s: Kernel, first: seq<Event>, rest: seq<Event>, k: nat)
    requires Fits(s) && StaysInside(first + rest) && 0 < k <= |first| && AnsweredAt(l, s, first, k)
    requires Run(s, first).Ok? && ReturnSteps(Run(s, first).value, rest) >= 3
    ensures exists j :: 0 < j <= |first + rest| && ClientAt(s, first + rest, j)
  {
    Cut(first, rest, k);
    hide Wired, Fits, Run, ReturnSteps, TrapInside, ClientAt;
    var m := Run(s, first[..k]).value;
    RunAppend(s, first[..k], first[k..]);
    ReturnStepsAppend(m, first[k..], rest);
    var j := TailComesBack(l, m, first[k..] + rest);
    BackAt(s, first + rest, k, j);
  }

  lemma Cut(first: seq<Event>, rest: seq<Event>, k: nat)
    requires k <= |first|
    ensures first == first[..k] + first[k..]
    ensures (first + rest)[..k] == first[..k] && (first + rest)[k..] == first[k..] + rest
    ensures StaysInside(first + rest) ==> StaysInside(first[k..] + rest)
  {
    if StaysInside(first + rest) {
      forall j | 0 <= j < |first[k..] + rest| ensures TrapInside((first[k..] + rest)[j]) {
        assert (first[k..] + rest)[j] == (first + rest)[k + j];
      }
    }
  }

  lemma TailComesBack(l: Layout, s: Kernel, es: seq<Event>) returns (j: nat)
    requires Wired(l, s) && !Sleeps(s, TASK_A) && Fits(s) && StaysInside(es) && ReturnSteps(s, es) >= 3
    ensures j <= |es| && ClientAt(s, es, j)
  {
    AnsweredRunsOn(l, s);
    if s.current == TASK_A {
      return 0;
    }
    DistanceBound(THREAD_COUNT, s.current, TASK_A);
    EntersWithin(s, es, TASK_A);
    j :| 0 < j <= |es| && EntersAt(s, es, j, TASK_A);
  }

  lemma TakeTwice<A>(es: seq<A>, k: nat, j: nat)
    requires k <= |es| && j <= |es[k..]|
    ensures es[..k + j] == es[..k] + es[k..][..j]
  {
  }

  lemma BackAt(s: Kernel, es: seq<Event>, k: nat, j: nat)
    requires Fits(s) && k <= |es| && j <= |es[k..]| && Run(s, es[..k]).Ok?
    requires ClientAt(Run(s, es[..k]).value, es[k..], j)
    ensures ClientAt(s, es, k + j)
  {
    TakeTwice(es, k, j);
    hide Run, Fits;
    RunAppend(s, es[..k], es[k..][..j]);
  }

  /** An answered task_a runs or waits to run. */
  lemma AnsweredRunsOn(l: Layout, s: Kernel)
    requires Wired(l, s) && !Sleeps(s, TASK_A)
    ensures Inv(s) && 0 <= s.current < IDLE
    ensures s.current == TASK_A || s.threads[TASK_A].task.TaskRunnable?
  {
    SomeoneRuns(l, s);
    OneRunningTask(s, TASK_A);
  }
}
