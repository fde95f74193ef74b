/** The clock system call over whole runs: what it answers is how many ticks there have been. */
module Clock {
  import opened Base
  import opened Memory
  import opened State
  import opened Threads
  import opened Machine
  import opened Invariant
  import opened Runs
  import opened Scheduler
  import opened Effects
  import opened Abi

  /** The ticks that occur in one event: a timer interrupt is one; a trap that takes its task
      off the CPU, and an idle pass that finds a request, wait for theirs. */
  function EventTicks(s: Kernel, e: Event): nat
    requires Fits(s)
  {
    match e
    case TimerTick => 1
    case Trap(mem, tf, w) => if Enabled(s, e) && Leaves(s.(mem := mem), tf) then w else 0
    case IdlePass(w) => if Enabled(s, e) && s.resched then w else 0
  }

  function TicksIn(s: Kernel, es: seq<Event>): nat
    requires Fits(s)
    decreases |es|
  {
    if es == [] || Do(s, es[0]).Panicked? then 0
    else EventTicks(s, es[0]) + TicksIn(Do(s, es[0]).value, es[1..])
  }

  lemma TrapTicks(s: Kernel, tf: TrapFrame, w: nat)
    requires UserRunning(s) && InSandbox(tf.elr)
    ensures TrapStep(s, tf, w).Ok?
    ensures TrapStep(s, tf, w).value.ticks == if Leaves(s, tf) then (s.ticks + w) % TWO64 else s.ticks
  {
    LeavesParks(s, tf);
    hide Leaves, TrapStep, Parks, Inv, Granted;
    if Leaves(s, tf) {
      ParkedThreads(s, tf, w, 0);
    } else {
      AnsweredExactly(s, tf, w);
    }
  }

  lemma TickClock(s: Kernel)
    requires Fits(s)
    ensures Tick(s).ticks == (s.ticks + 1) % TWO64
  {
  }

  lemma SameClock(t: u64)
    ensures (t + 0) % TWO64 == t
  {
  }

  lemma EventTicksCount(s: Kernel, e: Event)
    requires Inv(s) && TrapInside(e)
    ensures Do(s, e).Ok? && Inv(Do(s, e).value)
    ensures Do(s, e).value.ticks == (s.ticks + EventTicks(s, e)) % TWO64
  {
    hide Inv, TrapStep, SwitchAndResume, Tick, Leaves;
    InvFits(s);
    SameClock(s.ticks);
    if Enabled(s, e) {
      StepInv(s, e);
      match e
      case Trap(mem, tf, w) =>
        SwapInv(s, mem);
        TrapTicks(s.(mem := mem), tf, w);
      case TimerTick =>
        TickClock(s);
      case IdlePass(w) =>
        IdleCharges(s, w);
    }
  }

  lemma InvFits(s: Kernel)
    requires Inv(s)
    ensures Fits(s) && 0 <= s.current < THREAD_COUNT
  {
  }

  lemma SwapInv(s: Kernel, mem: Mem)
    requires Inv(s)
    ensures Inv(s.(mem := mem))
  {
    SameKernelKeeps(s, s.(mem := mem));
  }

  lemma IdleCharges(s: Kernel, w: nat)
    requires Inv(s) && s.current == IDLE
    ensures Step(s, IdlePass(w)).Ok?
    ensures Step(s, IdlePass(w)).value.ticks == if s.resched then (s.ticks + w) % TWO64 else s.ticks
  {
    StepInv(s, IdlePass(w));
    if s.resched {
      var s1 := s.(resched := false);
      SameKernelKeeps(s, s1);
      QuantumAfter(s1, w);
      IdleTicks(s1, w);
      var s2 := Ticks(s1, w);
      PickOk(s2);
      assert !UserSelectable(s2, PickNext(s2.threads, s2.current).value);
    }
  }

  /** Over every run the kernel's clock moves by the ticks that occur in it, modulo 2^64. */
  lemma {:induction false} ClockCounts(s: Kernel, es: seq<Event>)
    requires Fits(s) && Inv(s) && StaysInside(es)
    ensures Run(s, es).Ok? && Inv(Run(s, es).value)
    ensures Run(s, es).value.ticks == (s.ticks + TicksIn(s, es)) % 0x1_0000_0000_0000_0000
    decreases |es|
  {
    hide Inv, Do, EventTicks;
    if es != [] {
      assert TrapInside(es[0]);
      EventTicksCount(s, es[0]);
      ClockCounts(Do(s, es[0]).value, es[1..]);
      CountsOn(s.ticks, EventTicks(s, es[0]), TicksIn(Do(s, es[0]).value, es[1..]));
    }
  }

  /** A clock read: system call number 1 by the running task. */
  predicate Reads(s: Kernel, e: Event) {
    Enabled(s, e) && e.Trap? && SysCall(e.tf, 1)
  }

  /** A clock read answers with the kernel's clock and changes nothing else. */
  lemma ReadClock(s: Kernel, e: Event)
    requires Inv(s) && Reads(s, e)
    ensures Do(s, e) == Ok(s.(mem := e.mem, el0 := UserCtx(e.tf.x[0 := s.ticks], e.tf.sp, e.tf.elr, e.tf.spsr)))
  {
    SameKernelKeeps(s, s.(mem := e.mem));
    AnsweredExactly(s.(mem := e.mem), e.tf, e.w);
  }

  /** In every run from boot a clock read leaves its task running, with the number of ticks
      there have been in the run, modulo 2^64, in x0. */
  lemma ReadsTicksSinceBoot(b: Build, mem: Mem, es: seq<Event>, e: Event)
    requires b.LayoutOk() && StaysInside(es)
    ensures Run(Boot(b, mem), es).Ok?
    ensures var s := Run(Boot(b, mem), es).value;
            Reads(s, e) ==>
              && Do(s, e).Ok? && Do(s, e).value.current == s.current
              && Do(s, e).value.el0.x[0] == TicksIn(Boot(b, mem), es) % 0x1_0000_0000_0000_0000
  {
    BootInv(b, mem);
    ClockCounts(Boot(b, mem), es);
    var s := Run(Boot(b, mem), es).value;
    if Reads(s, e) {
      ReadClock(s, e);
    }
  }

  /** It is a clock read and answers `v`. */
  predicate ReadsAs(s: Kernel, e: Event, v: u64)
    requires Fits(s)
  {
    Reads(s, e) && Do(s, e).Ok? && Do(s, e).value.el0.x[0] == v
  }

  /** Two clock reads, by whichever tasks, with any run between them: the answers differ by
      exactly the ticks of that run. */
  lemma ReadsDiffer(s: Kernel, first: Event, es: seq<Event>, second: Event, v1: u64, v2: u64)
    requires Inv(s) && ReadsAs(s, first, v1) && StaysInside(es)
    ensures Run(Do(s, first).value, es).Ok?
    ensures var m := Do(s, first).value;
            ReadsAs(Run(m, es).value, second, v2) ==>
              (v2 - v1) % 0x1_0000_0000_0000_0000 == TicksIn(m, es) % 0x1_0000_0000_0000_0000
  {
    ReadClock(s, first);
    var m := Do(s, first).value;
    SameKernelKeeps(s, m);
    hide Inv, Do, TicksIn, Run;
    ClockCounts(m, es);
    var t := Run(m, es).value;
    if ReadsAs(t, second, v2) {
      ReadClock(t, second);
      Difference(v1, TicksIn(m, es), v2);
    }
  }

  lemma Difference(a: u64, n: nat, b: u64)
    requires b == (a + n) % TWO64
    ensures (b - a) % TWO64 == n % TWO64
  {
    var q := (a + n) / TWO64;
    assert b - a == n - q * TWO64;
    ModShift(n, q);
  }

  lemma ModShift(n: int, q: int)
    ensures (n - q * TWO64) % TWO64 == n % TWO64
  {
    var m := n - q * TWO64;
    assert n == (m / TWO64 + q) * TWO64 + m % TWO64;
  }

  lemma CountsOn(a: u64, n: nat, k: nat)
    ensures ((a + n) % TWO64 + k) % TWO64 == (a + (n + k)) % TWO64
  {
    ModShift(a + n + k, (a + n) / TWO64);
  }
}
