/** Over every run of the LATENCY system the MICRO kernel's routed SYS_write is the MONO
    kernel's direct one, and no benchmark operation fails. */
module LatencyRuns {
  import opened Base
  import opened Memory
  import opened State
  import opened Ipc
  import opened Machine
  import opened Invariant
  import opened Runs
  import opened RpcKernel
  import opened Shipped
  import opened Latency
  import opened LatencySteps

  ghost predicate BenchRun(l: Bench, s: Kernel, es: seq<Event>)
    requires Fits(s) && l.Places(s.build)
    decreases |es|
  {
    es != [] ==>
      && ByBench(l, s, es[0])
      && (Do(s, es[0]).Ok? && l.Places(Do(s, es[0]).value.build) ==> BenchRun(l, Do(s, es[0]).value, es[1..]))
  }

  /** What the client's writes of a run put on the line when each is emitted at once, in
      order: the UART output of a kernel with direct writes. */
  function DirectLog(s: Kernel, es: seq<Event>): seq<UartItem>
    requires Fits(s)
    decreases |es|
  {
    if es == [] || Do(s, es[0]).Panicked? then []
    else Emits(s, es[0]) + DirectLog(Do(s, es[0]).value, es[1..])
  }

  lemma BenchFits(l: Bench, s: Kernel, log: seq<UartItem>)
    requires BenchOk(l, s, log)
    ensures Fits(s) && l.Places(s.build)
  {
  }

  lemma NoEvent(s: Kernel, es: seq<Event>)
    requires Fits(s) && es == []
    ensures Run(s, es) == Ok(s) && DirectLog(s, es) == []
  {
  }

  lemma FirstEvent(l: Bench, s: Kernel, es: seq<Event>)
    requires Fits(s) && l.Places(s.build) && es != [] && BenchRun(l, s, es)
    ensures ByBench(l, s, es[0])
    ensures Do(s, es[0]).Ok? && l.Places(Do(s, es[0]).value.build) ==> BenchRun(l, Do(s, es[0]).value, es[1..])
    ensures Do(s, es[0]).Ok? ==> Run(s, es) == Run(Do(s, es[0]).value, es[1..])
    ensures Do(s, es[0]).Ok? ==> DirectLog(s, es) == Emits(s, es[0]) + DirectLog(Do(s, es[0]).value, es[1..])
  {
  }

  lemma {:induction false} BenchSafe(l: Bench, s: Kernel, es: seq<Event>, log: seq<UartItem>)
    requires Fits(s) && BenchOk(l, s, log) && BenchRun(l, s, es)
    ensures Run(s, es).Ok? && BenchOk(l, Run(s, es).value, log + DirectLog(s, es))
    decreases |es|
  {
    hide BenchOk, Fits, Do, Emits, Run, DirectLog, BenchRun;
    BenchFits(l, s, log);
    if es == [] {
      NoEvent(s, es);
      assert log + [] == log;
    } else {
      FirstEvent(l, s, es);
      BenchStep(l, s, es[0], log);
      var m := Do(s, es[0]).value;
      BenchFits(l, m, log + Emits(s, es[0]));
      var now, later := Emits(s, es[0]), DirectLog(m, es[1..]);
      BenchSafe(l, m, es[1..], log + now);
      assert (log + now) + later == log + (now + later);
    }
  }

  /** The routed write refines the direct one. In every reachable state the UART line is the
      direct log, up to the bytes of the one write still in flight; whenever the client runs,
      nothing is in flight: its last write is on the line, byte for byte and in order, and
      has returned its length, a zero length included. */
  lemma RoutedWritesAreDirectWrites(l: Bench, b: Build, mem: Mem, es: seq<Event>)
    requires l.Places(b) && BenchRun(l, Boot(b, mem), es)
    ensures Run(Boot(b, mem), es).Ok?
    ensures var s := Run(Boot(b, mem), es).value;
            && l.Places(s.build)
            && s.uart + InFlight(l, s) == DirectLog(Boot(b, mem), es)
            && (s.current == TASK_A ==>
                  && s.uart == DirectLog(Boot(b, mem), es)
                  && (s.el0.x[8] == SYS_WRITE ==> s.el0.x[0] == s.el0.x[1]))
  {
    BenchBoot(l, b, mem);
    BenchSafe(l, Boot(b, mem), es, []);
    var s := Run(Boot(b, mem), es).value;
    assert [] + DirectLog(Boot(b, mem), es) == DirectLog(Boot(b, mem), es);
    ClientRunsAlone(l, s, DirectLog(Boot(b, mem), es));
  }

  lemma ClientRunsAlone(l: Bench, s: Kernel, log: seq<UartItem>)
    requires BenchOk(l, s, log)
    ensures s.current == TASK_A ==> InFlight(l, s) == [] && s.uart == log && !Sleeps(s, TASK_A)
  {
    WhoSleepsHere(s);
    assert s.uart + [] == s.uart;
  }

  /** The direct write of the MONO kernel, for any task and any length: the reference that
      `DirectLog` adds up. */
  lemma MonoWritesDirectly(s: Kernel, tf: TrapFrame, w: nat)
    requires UserRunning(s) && !s.build.micro && IsSvc(tf) && tf.x[8] == SYS_WRITE
    ensures TrapStep(s, tf, w).Ok?
    ensures var r := TrapStep(s, tf, w).value;
            if RangeOk(tf.x[0], tf.x[1]) then
              Extends(s.uart, r.uart, s.mem, tf.x[0], tf.x[1]) && r.el0.x[0] == tf.x[1]
            else r.uart == s.uart && r.el0.x[0] == MINUS_ONE
  {
    AnsweredRuns(s, tf, w);
  }

  lemma ExtendedBy(line: seq<UartItem>, r: seq<UartItem>, mem: Mem, ptr: u64, len: u64, items: seq<UartItem>)
    requires RangeOk(ptr, len) && Extends(line, r, mem, ptr, len) && |items| == len
    requires forall k :: 0 <= k < len ==> items[k] == Char(mem[ptr - 0x40E0_0000..][k])
    ensures r == line + items
  {
    assert r[|line|..] == items;
  }

  /** The log is `before`, then the bytes of the write `e`, lowest address first, then `after`. */
  ghost predicate Contributes(before: seq<UartItem>, e: Event, after: seq<UartItem>, log: seq<UartItem>)
    requires e.Trap? && RangeOk(e.tf.x[0], e.tf.x[1])
  {
    var n := |before| + e.tf.x[1];
    |log| >= n && Extends(before, log[..n], e.mem, e.tf.x[0], e.tf.x[1]) && log[n..] == after
  }

  /** What one client write of a run contributes to the direct log, and where. */
  lemma {:induction false} DirectLogAt(s: Kernel, es: seq<Event>, i: nat)
    requires Fits(s) && i < |es| && Run(s, es[..i]).Ok? && IsClientWrite(Run(s, es[..i]).value, es[i])
    requires Do(Run(s, es[..i]).value, es[i]).Ok?
    ensures var m := Do(Run(s, es[..i]).value, es[i]).value;
            Contributes(DirectLog(s, es[..i]), es[i], DirectLog(m, es[i + 1..]), DirectLog(s, es))
    decreases i
  {
    hide Do, Fits, Emits, Contributes;
    if i == 0 {
      EmitsBytes(s, es[0]);
      EmitsContributes(es[0], Emits(s, es[0]), DirectLog(Do(s, es[0]).value, es[1..]));
    } else {
      assert es[..i][0] == es[0] && es[..i][1..] == es[1..][..i - 1];
      var m := Do(s, es[0]).value;
      DirectLogAt(m, es[1..], i - 1);
      assert es[1..][i - 1] == es[i] && es[1..][i..] == es[i + 1..];
      var later := DirectLog(Do(Run(s, es[..i]).value, es[i]).value, es[i + 1..]);
      ContributesBehind(Emits(s, es[0]), DirectLog(m, es[1..][..i - 1]), es[i], later, DirectLog(m, es[1..]));
    }
  }

  lemma ContributesBehind(head: seq<UartItem>, before: seq<UartItem>, e: Event, after: seq<UartItem>,
                          log: seq<UartItem>)
    requires e.Trap? && RangeOk(e.tf.x[0], e.tf.x[1]) && Contributes(before, e, after, log)
    ensures Contributes(head + before, e, after, head + log)
  {
    var n := |before| + e.tf.x[1];
    var whole := (head + log)[..|head| + n];
    assert whole == head + log[..n];
    assert whole[..|head + before|] == head + before;
    assert whole[|head + before|..] == log[..n][|before|..];
    assert (head + log)[|head| + n..] == after;
  }

  /** The bytes of one client write, one by one. */
  lemma EmitsBytes(s: Kernel, e: Event)
    requires IsClientWrite(s, e)
    ensures RangeOk(e.tf.x[0], e.tf.x[1]) && |Emits(s, e)| == e.tf.x[1]
    ensures forall k :: 0 <= k < e.tf.x[1] ==> Emits(s, e)[k] == Char(e.mem[e.tf.x[0] - 0x40E0_0000..][k])
  {
  }

  lemma EmitsContributes(e: Event, items: seq<UartItem>, after: seq<UartItem>)
    requires e.Trap? && RangeOk(e.tf.x[0], e.tf.x[1]) && |items| == e.tf.x[1]
    requires forall k :: 0 <= k < |items| ==> items[k] == Char(e.mem[e.tf.x[0] - 0x40E0_0000..][k])
    ensures Contributes([], e, after, items + after)
  {
    assert (items + after)[..|items|] == items && items[0..] == items;
  }

  predicate IsClientWrite(s: Kernel, e: Event) {
    e.Trap? && s.current == TASK_A && IsSvc(e.tf) && e.tf.x[8] == SYS_WRITE && RangeOk(e.tf.x[0], e.tf.x[1])
  }

  /** The client's write traps in a run, in order. */
  function ClientWrites(s: Kernel, es: seq<Event>): seq<Event>
    requires Fits(s)
    decreases |es|
  {
    if es == [] || Do(s, es[0]).Panicked? then []
    else (if IsClientWrite(s, es[0]) then [es[0]] else []) + ClientWrites(Do(s, es[0]).value, es[1..])
  }

  /** One such trap on a MONO kernel whose task_a runs. */
  lemma MonoPlaysOne(t: Kernel, s: Kernel, e: Event)
    requires Inv(t) && t.current == TASK_A && !t.build.micro && IsClientWrite(s, e)
    ensures Do(t, e).Ok? && Inv(Do(t, e).value) && Do(t, e).value.current == TASK_A
    ensures !Do(t, e).value.build.micro && Do(t, e).value.uart == t.uart + Emits(s, e)
    ensures Do(t, e).value.el0.x[0] == e.tf.x[1]
  {
    StepInv(t, e);
    var t0 := t.(mem := e.mem);
    SameKernelKeeps(t, t0);
    MonoWritesDirectly(t0, e.tf, e.w);
    EmitsBytes(s, e);
    ExtendedBy(t.uart, Do(t, e).value.uart, e.mem, e.tf.x[0], e.tf.x[1], Emits(s, e));
    HandleTrapInv(t0, e.tf);
  }

  /** A MONO kernel fed with the client's write traps of any run produces the direct log. */
  lemma {:induction false} MonoPlays(t: Kernel, s: Kernel, es: seq<Event>)
    requires Fits(s) && Fits(t) && Inv(t) && t.current == TASK_A && !t.build.micro
    ensures Run(t, ClientWrites(s, es)).Ok?
    ensures Run(t, ClientWrites(s, es)).value.uart == t.uart + DirectLog(s, es)
    decreases |es|
  {
    hide Inv, Emits, Fits, Do, IsClientWrite;
    if es != [] && Do(s, es[0]).Ok? {
      var e, m := es[0], Do(s, es[0]).value;
      if IsClientWrite(s, e) {
        MonoPlaysOne(t, s, e);
        MonoPlays(Do(t, e).value, m, es[1..]);
        assert ClientWrites(s, es)[1..] == ClientWrites(m, es[1..]);
        assert (t.uart + Emits(s, e)) + DirectLog(m, es[1..]) == t.uart + DirectLog(s, es);
      } else {
        NothingEmitted(s, e);
        MonoPlays(t, m, es[1..]);
        assert ClientWrites(s, es) == ClientWrites(m, es[1..]);
        assert DirectLog(s, es) == DirectLog(m, es[1..]);
      }
    }
  }

  lemma NothingEmitted(s: Kernel, e: Event)
    ensures !IsClientWrite(s, e) ==> Emits(s, e) == []
  {
  }

  /** MICRO refines MONO: to every run of the LATENCY system there is a run of the MONO kernel
      on the client's own write traps, and the two UART lines agree up to the bytes of the one
      write in flight, and agree outright whenever the client runs. */
  lemma MicroRefinesMono(l: Bench, b: Build, mem: Mem, es: seq<Event>)
    requires l.Places(b) && BenchRun(l, Boot(b, mem), es)
    ensures var mono := Run(Boot(b.(micro := false), mem), ClientWrites(Boot(b, mem), es));
            var micro := Run(Boot(b, mem), es);
            && mono.Ok? && micro.Ok? && l.Places(micro.value.build)
            && mono.value.uart == micro.value.uart + InFlight(l, micro.value)
            && (micro.value.current == TASK_A ==> mono.value.uart == micro.value.uart)
  {
    var t := Boot(b.(micro := false), mem);
    BootInv(b.(micro := false), mem);
    RoutedWritesAreDirectWrites(l, b, mem, es);
    MonoPlays(t, Boot(b, mem), es);
    assert t.uart == [];
    assert [] + DirectLog(Boot(b, mem), es) == DirectLog(Boot(b, mem), es);
  }

  /** Exactly when the MICRO kernel turns a write by task_a down at once although the MONO
      kernel would have performed it: the message limit, or an endpoint still in use. */
  lemma MicroRefusesExactly(s: Kernel, tf: TrapFrame)
    requires UserRunning(s) && s.build.micro && s.current == TASK_A && IsSvc(tf) && tf.x[8] == SYS_WRITE
    requires RangeOk(tf.x[0], tf.x[1])
    ensures HandleTrap(s, tf) == Refuse(s) <==> tf.x[1] > IPC_MSG_SIZE || !Accepting(s.eps[EP_UART])
  {
    WriteParks(s, tf);
  }

  // ---------------------------------------------------------------- no benchmark failures

  /** One finished operation of the client, read off its registers when it traps again: the
      system call it made, the length it passed, the value it got, and the reply byte. */
  datatype Finished = Finished(nr: u64, len: u64, x0: u64, reply: seq<byte>)

  /** The finished operations of a run, in order. */
  function Operations(l: Bench, s: Kernel, es: seq<Event>): seq<Finished>
    requires Fits(s) && RangeOk(l.reply, 1)
    decreases |es|
  {
    if es == [] || Do(s, es[0]).Panicked? then []
    else
      var now := if es[0].Trap? && s.current == TASK_A
                 then [Finished(s.el0.x[8], s.el0.x[1], s.el0.x[0], Load(s.mem, l.reply, 1))] else [];
      now + Operations(l, Do(s, es[0]).value, es[1..])
  }

  predicate Succeeded(f: Finished) {
    && (f.nr == SYS_WRITE ==> f.x0 == f.len)
    && (f.nr == SYS_IPC_CALL ==> f.x0 == 1 && f.reply == [PING])
  }

  lemma ClientSucceeded(l: Bench, s: Kernel, log: seq<UartItem>)
    requires BenchOk(l, s, log) && s.current == TASK_A
    ensures Succeeded(Finished(s.el0.x[8], s.el0.x[1], s.el0.x[0], Load(s.mem, l.reply, 1)))
  {
    ClientRunsAlone(l, s, log);
  }

  lemma {:induction false} OperationsSucceed(l: Bench, s: Kernel, es: seq<Event>, log: seq<UartItem>)
    requires BenchOk(l, s, log) && BenchRun(l, s, es)
    ensures forall k :: 0 <= k < |Operations(l, s, es)| ==> Succeeded(Operations(l, s, es)[k])
    decreases |es|
  {
    hide BenchOk, Fits, Do, Emits, BenchRun;
    BenchFits(l, s, log);
    if es != [] {
      FirstEvent(l, s, es);
      BenchStep(l, s, es[0], log);
      BenchFits(l, Do(s, es[0]).value, log + Emits(s, es[0]));
      if s.current == TASK_A {
        ClientSucceeded(l, s, log);
      }
      OperationsSucceed(l, Do(s, es[0]).value, es[1..], log + Emits(s, es[0]));
    }
  }

  /** In both flavors, for any number of operations: every write returns its length and every
      round trip returns 1 with the payload echoed. */
  lemma NoBenchmarkFailure(l: Bench, b: Build, mem: Mem, es: seq<Event>)
    requires l.Places(b) && BenchRun(l, Boot(b, mem), es)
    ensures forall k :: 0 <= k < |Operations(l, Boot(b, mem), es)| ==>
              Succeeded(Operations(l, Boot(b, mem), es)[k])
  {
    BenchBoot(l, b, mem);
    OperationsSucceed(l, Boot(b, mem), es, []);
  }
}
