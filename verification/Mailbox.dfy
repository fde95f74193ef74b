/** The supervisor's death notices refine a one-place cell that later deaths overwrite. */
module Mailbox {
  import opened Base
  import opened Memory
  import opened State
  import opened Ipc
  import opened Supervisor
  import opened Machine
  import opened Invariant
  import opened Runs
  import opened Context
  import opened Frames
  import opened RpcKernel

  datatype Note = Died(slot: int) | Told(value: int)

  /** The cell after one note; a delivery is legal only of what the cell holds. */
  function Put(cell: Option<int>, n: Note): (r: Option<Option<int>>) {
    match n
    case Died(d) => Some(Some(d))
    case Told(v) => if cell == Some(v) then Some(None) else None
  }

  function Cell(cell: Option<int>, notes: seq<Note>): (r: Option<Option<int>>)
    decreases |notes|
  {
    if notes == [] then Some(cell)
    else
      var c := Put(cell, notes[0]);
      if c.None? then None else Cell(c.value, notes[1..])
  }

  lemma {:induction false} CellChain(cell: Option<int>, a: seq<Note>, b: seq<Note>)
    ensures Cell(cell, a + b) == if Cell(cell, a).None? then None else Cell(Cell(cell, a).value, b)
    decreases |a|
  {
    if a == [] {
      assert a + b == b;
    } else {
      assert (a + b)[0] == a[0] && (a + b)[1..] == a[1..] + b;
      if Put(cell, a[0]).Some? {
        CellChain(Put(cell, a[0]).value, a[1..], b);
      }
    }
  }

  /** In a legal history every delivery directly follows the death it reports: it is the most
      recent death, it was not delivered before, and deaths overwritten in between are lost. */
  lemma DeliveryMatches(notes: seq<Note>, j: nat)
    requires Cell(None, notes).Some? && j < |notes| && notes[j].Told?
    ensures j > 0 && notes[j - 1] == Died(notes[j].value)
  {
    assert notes == notes[..j] + notes[j..];
    CellChain(None, notes[..j], notes[j..]);
    var c := Cell(None, notes[..j]).value;
    assert c == Some(notes[j].value);
    assert j > 0;
    assert notes[..j] == notes[..j - 1] + [notes[j - 1]];
    CellChain(None, notes[..j - 1], [notes[j - 1]]);
    assert [notes[j - 1]][1..] == [];
  }

  // ---------------------------------------------------------------- the kernel

  /** What a trap by the current task of `s` shows: its own death, and the value the
      supervisor gets, by being woken or as the answer to its own wait. */
  function Notes(s: Kernel, tf: TrapFrame, r: Kernel): seq<Note>
    requires Fits(s) && Fits(r) && s.current != NONE
  {
    if r.threads[s.current].task.TaskDead? then
      [Died(s.current)] + if s.waiter == NONE then [] else [Told(X0Of(r, s.waiter))]
    else if IsSvc(tf) && tf.x[8] == SYS_SUPERVISE_WAIT && r.threads[s.current].task.TaskRunning?
            && r.el0.x[0] != MINUS_ONE then [Told(r.el0.x[0])]
    else []
  }

  predicate Stores(s: Kernel, cell: Option<int>) {
    if cell.None? then s.death == NONE else s.death == cell.value != NONE
  }

  lemma ParkDyingMail(s: Kernel)
    requires Redirected(s) && Dying(s.threads[s.current])
    ensures Park(s).Ok?
    ensures var r := Park(s).value;
            && r.threads[s.current].task.TaskDead?
            && (if s.waiter == NONE then r.death == s.current && r.waiter == NONE
                else r.death == s.death && r.waiter == NONE && s.waiter == TASK_C && s.waiter != s.current
                     && r.threads[TASK_C].task.TaskRunnable? && r.threads[TASK_C].ctx.x[0] == s.current)
  {
    var dead := MarkDead(s);
    MarkDeadInv(s);
    DeathFromInv(dead, 0);
    DeathFromEps(dead, 0, 0);
    var m := DeathFrom(dead, s.current, 0).value;
    NoteDeathMail(m);
  }

  lemma NoteDeathMail(s: Kernel)
    requires DeadParked(s)
    ensures NoteDeath(s, s.current).Ok?
    ensures var r := NoteDeath(s, s.current).value;
            && r.threads[s.current] == s.threads[s.current]
            && (if s.waiter == NONE then r.death == s.current && r.waiter == NONE
                else r.death == s.death && r.waiter == NONE && s.waiter == TASK_C && s.waiter != s.current
                     && r.threads[TASK_C].task.TaskRunnable? && r.threads[TASK_C].ctx.x[0] == s.current)
  {
    NoteDeathOthers(s);
    assert s.waiter != NONE ==> Named(s, SupervisorWait) in Blocked(s);
  }

  lemma ReturnMail(s: Kernel, w: nat)
    requires Redirected(s) && Dying(s.threads[s.current])
    ensures ReturnStep(s, w).Ok?
    ensures var r := ReturnStep(s, w).value;
            && r.threads[s.current].task.TaskDead?
            && r.waiter == NONE
            && (if s.waiter == NONE then r.death == s.current
                else r.death == s.death && X0Of(r, s.waiter) == s.current
                     && s.waiter == TASK_C && !r.threads[TASK_C].task.TaskBlocked?)
  {
    ParkInv(s);
    ParkDyingMail(s);
    var p := Park(s).value.(resched := true);
    SameKernelKeeps(Park(s).value, p);
    SwitchKeepsCtx(p, w);
    SwitchSchedulerOnly(p, w);
  }

  predicate IsWait(tf: TrapFrame) {
    IsSvc(tf) && tf.x[8] == SYS_SUPERVISE_WAIT
  }

  /** No handler moves a notice, except the supervisor's own wait. */
  lemma HandlerMail(s: Kernel, tf: TrapFrame)
    requires UserRunning(s) && HandleTrap(s, tf).Ok? && !IsWait(tf)
    ensures HandleTrap(s, tf).value.0.death == s.death
    ensures HandleTrap(s, tf).value.0.waiter == s.waiter
  {
  }

  lemma WaitMail(s: Kernel, tf: TrapFrame)
    requires UserRunning(s) && Wait(s, tf).Ok?
    ensures var (s1, how) := Wait(s, tf).value;
            var taken := s.current == TASK_C && s.death != NONE;
            && s1.death == (if taken then NONE else s.death)
            && (if taken then how == ToUser(s.death) else how == ToKernel || how == ToUser(MINUS_ONE))
            && (how.ToKernel? ==> s1.threads[s.current].reason.NotifyBlock?)
  {
  }

  ghost predicate MailSim(s: Kernel, tf: TrapFrame, r: Kernel, cell: Option<int>)
    requires Fits(s) && Fits(r) && s.current != NONE
  {
    Cell(cell, Notes(s, tf, r)).Some? && Stores(r, Cell(cell, Notes(s, tf, r)).value)
  }

  lemma TrapMail(s: Kernel, tf: TrapFrame, w: nat, cell: Option<int>)
    requires UserRunning(s) && InSandbox(tf.elr) && Stores(s, cell)
    ensures TrapStep(s, tf, w).Ok? && MailSim(s, tf, TrapStep(s, tf, w).value, cell)
  {
    HandleTrapInv(s, tf);
    var (s1, how) := HandleTrap(s, tf).value;
    if how.ToUser? {
      AnsweredMail(s, tf, w, cell);
    } else if Dying(s1.threads[s.current]) {
      if IsWait(tf) {
        WaitIsNotDying(s, tf);
      } else {
        DyingMail(s, tf, w, cell);
      }
    } else {
      ParkedMail(s, tf, w, cell);
    }
  }

  lemma AnsweredMail(s: Kernel, tf: TrapFrame, w: nat, cell: Option<int>)
    requires UserRunning(s) && Stores(s, cell)
    requires HandleTrap(s, tf).Ok? && HandleTrap(s, tf).value.1.ToUser?
    ensures TrapStep(s, tf, w).Ok? && MailSim(s, tf, TrapStep(s, tf, w).value, cell)
  {
    AnsweredRuns(s, tf, w);
    assert [Told(s.death)][1..] == [];
    if IsWait(tf) {
      WaitMail(s, tf);
    } else {
      HandlerMail(s, tf);
    }
  }

  lemma ParkedMove(s: Kernel, tf: TrapFrame)
    requires UserRunning(s) && HandleTrap(s, tf).Ok? && HandleTrap(s, tf).value.1.ToKernel?
    ensures var s1 := HandleTrap(s, tf).value.0;
            s1.death == s.death && (IsWait(tf) ==> s1.threads[s.current].reason.NotifyBlock?)
  {
    if IsWait(tf) {
      WaitMail(s, tf);
    } else {
      HandlerMail(s, tf);
    }
  }

  lemma ParkedMail(s: Kernel, tf: TrapFrame, w: nat, cell: Option<int>)
    requires Fits(s) && UserRunning(s) && InSandbox(tf.elr) && Stores(s, cell)
    requires HandleTrap(s, tf).Ok? && HandleTrap(s, tf).value.1.ToKernel?
    requires !Dying(HandleTrap(s, tf).value.0.threads[s.current])
    ensures TrapStep(s, tf, w).Ok? && MailSim(s, tf, TrapStep(s, tf, w).value, cell)
  {
    ParkedMove(s, tf);
    hide Inv, Redirected, Common, HandleTrap, ReturnStep;
    HandleTrapInv(s, tf);
    ReturnEps(HandleTrap(s, tf).value.0, w, 0);
  }

  lemma WaitIsNotDying(s: Kernel, tf: TrapFrame)
    requires UserRunning(s) && IsWait(tf) && HandleTrap(s, tf).Ok? && HandleTrap(s, tf).value.1.ToKernel?
    ensures !Dying(HandleTrap(s, tf).value.0.threads[s.current])
  {
    WaitMail(s, tf);
  }

  lemma DyingMail(s: Kernel, tf: TrapFrame, w: nat, cell: Option<int>)
    requires Fits(s) && UserRunning(s) && InSandbox(tf.elr) && Stores(s, cell) && !IsWait(tf)
    requires HandleTrap(s, tf).Ok? && HandleTrap(s, tf).value.1.ToKernel?
    requires Dying(HandleTrap(s, tf).value.0.threads[s.current])
    ensures TrapStep(s, tf, w).Ok? && MailSim(s, tf, TrapStep(s, tf, w).value, cell)
  {
    WaitingMeansEmpty(s, cell);
    hide Inv, Common, HandleTrap, ReturnStep;
    HandleTrapInv(s, tf);
    HandlerMail(s, tf);
    ReturnMail(HandleTrap(s, tf).value.0, w);
    TwoNotes(s.current, cell);
  }

  lemma TwoNotes(d: int, cell: Option<int>)
    ensures Cell(cell, [Died(d)] + []) == Some(Some(d))
    ensures Cell(cell, [Died(d)] + [Told(d)]) == Some(None)
  {
    CellChain(cell, [Died(d)], [Told(d)]);
    assert [Told(d)][1..] == [] && [Died(d)][1..] == [] && [Died(d)] + [] == [Died(d)];
  }

  function NoteHistory(s: Kernel, es: seq<Event>): seq<Note>
    requires Fits(s)
    decreases |es|
  {
    if es == [] || Do(s, es[0]).Panicked? then []
    else EventNotes(s, es[0]) + NoteHistory(Do(s, es[0]).value, es[1..])
  }

  /** The notes one event adds to the history. */
  function EventNotes(s: Kernel, e: Event): seq<Note>
    requires Fits(s)
  {
    if Enabled(s, e) && e.Trap? && Step(s, e).Ok? then Notes(s.(mem := e.mem), e.tf, Step(s, e).value) else []
  }

  lemma EventMail(s: Kernel, e: Event, cell: Option<int>)
    requires Inv(s) && TrapInside(e) && Stores(s, cell)
    ensures Do(s, e).Ok? && Inv(Do(s, e).value)
    ensures var c := Cell(cell, EventNotes(s, e));
            c.Some? && Stores(Do(s, e).value, c.value)
  {
    if Enabled(s, e) {
      StepInv(s, e);
      match e
      case Trap(mem, tf, w) =>
        SameKernelKeeps(s, s.(mem := mem));
        TrapMail(s.(mem := mem), tf, w, cell);
      case TimerTick =>
      case IdlePass(w) => IdleStep(s, e);
    }
  }

  lemma {:induction false} RunMail(s: Kernel, es: seq<Event>, cell: Option<int>)
    requires Fits(s) && Inv(s) && StaysInside(es) && Stores(s, cell)
    ensures Run(s, es).Ok?
    ensures Cell(cell, NoteHistory(s, es)).Some?
    ensures Stores(Run(s, es).value, Cell(cell, NoteHistory(s, es)).value)
    decreases |es|
  {
    hide Inv, Do, EventNotes, Stores;
    if es != [] {
      assert TrapInside(es[0]);
      EventMail(s, es[0], cell);
      var m := Do(s, es[0]).value;
      var now := EventNotes(s, es[0]);
      RunMail(m, es[1..], Cell(cell, now).value);
      CellChain(cell, now, NoteHistory(m, es[1..]));
    }
  }

  /** Over every run: what is observed of deaths and notices is a legal history of the cell,
      the pending slot is the cell's content, and a waiting supervisor means an empty cell. */
  lemma MailboxRefinesCell(b: Build, mem: Mem, es: seq<Event>)
    requires b.LayoutOk() && StaysInside(es)
    ensures Run(Boot(b, mem), es).Ok?
    ensures var s := Run(Boot(b, mem), es).value;
            var notes := NoteHistory(Boot(b, mem), es);
            && Cell(None, notes).Some?
            && Stores(s, Cell(None, notes).value)
            && (s.waiter != NONE ==> Cell(None, notes) == Some(None))
  {
    BootInv(b, mem);
    RunMail(Boot(b, mem), es, None);
    RunInv(Boot(b, mem), es);
    WaitingMeansEmpty(Run(Boot(b, mem), es).value, Cell(None, NoteHistory(Boot(b, mem), es)).value);
  }

  lemma WaitingMeansEmpty(s: Kernel, cell: Option<int>)
    requires Inv(s) && Stores(s, cell)
    ensures s.waiter != NONE ==> cell.None?
  {
  }
}
