/** Who waits for whom, and which tasks can ever run again: the wait slots as a small graph. */
module WaitGraph {
  import opened Base

  /** What a task is doing: it can be picked; it waits for a reply from `owner`; it sleeps in
      receive, alone or beside its own waiting caller; it waits for a death; it is dead. */
  datatype Status = Awake | Asks(owner: int) | Listens | Stuck | Watches | Gone

  type Graph = g: seq<Status> | |g| == IDLE witness seq(IDLE, _ => Awake)

  /** Task `i` can run within `n` wakes: it is awake, or what it waits for can come from a task
      that can run within `n - 1`. A reply comes from the owner, a request or a death from any
      other task, a restart of task_b from task_c. */
  predicate CanIn(g: Graph, i: int, n: nat)
    decreases n, 0
  {
    0 <= i < IDLE &&
    match g[i]
    case Awake => true
    case Asks(o) => n > 0 && CanIn(g, o, n - 1)
    case Listens => n > 0 && AnotherCan(g, i, n - 1)
    case Watches => n > 0 && AnotherCan(g, i, n - 1)
    case Gone => n > 0 && i == TASK_B && CanIn(g, TASK_C, n - 1)
    case Stuck => false
  }

  predicate AnotherCan(g: Graph, i: int, n: nat)
    decreases n, 1
  {
    || (i != TASK_A && CanIn(g, TASK_A, n))
    || (i != TASK_B && CanIn(g, TASK_B, n))
    || (i != TASK_C && CanIn(g, TASK_C, n))
  }

  /** The least fixpoint. */
  ghost predicate CanRun(g: Graph, i: int) {
    exists n: nat :: CanIn(g, i, n)
  }

  /** Asleep for good. */
  ghost predicate Hangs(g: Graph, i: int) {
    0 <= i < IDLE && !g[i].Awake? && !g[i].Gone? && !CanRun(g, i)
  }

  lemma {:induction false} MoreWakes(g: Graph, i: int, n: nat)
    requires CanIn(g, i, n)
    ensures CanIn(g, i, n + 1)
    decreases n
  {
    if n > 0 {
      forall j | CanIn(g, j, n - 1) ensures CanIn(g, j, n) {
        MoreWakes(g, j, n - 1);
      }
    }
  }

  /** One more level, given who can run at the level below. */
  predicate Next(g: Graph, i: int, a: bool, b: bool, c: bool) {
    0 <= i < IDLE &&
    match g[i]
    case Awake => true
    case Asks(o) => (o == TASK_A && a) || (o == TASK_B && b) || (o == TASK_C && c)
    case Listens => (i != TASK_A && a) || (i != TASK_B && b) || (i != TASK_C && c)
    case Watches => (i != TASK_A && a) || (i != TASK_B && b) || (i != TASK_C && c)
    case Gone => i == TASK_B && c
    case Stuck => false
  }

  lemma OneLevel(g: Graph, i: int, n: nat)
    ensures CanIn(g, i, n + 1) == Next(g, i, CanIn(g, TASK_A, n), CanIn(g, TASK_B, n), CanIn(g, TASK_C, n))
  {
    assert AnotherCan(g, i, n) <==>
      || (i != TASK_A && CanIn(g, TASK_A, n))
      || (i != TASK_B && CanIn(g, TASK_B, n))
      || (i != TASK_C && CanIn(g, TASK_C, n));
  }

  lemma NextKeeps(g: Graph, i: int, a: bool, b: bool, c: bool, a1: bool, b1: bool, c1: bool)
    requires (a ==> a1) && (b ==> b1) && (c ==> c1) && Next(g, i, a, b, c)
    ensures Next(g, i, a1, b1, c1)
  {
  }

  /** Levels of three tasks settle after two wakes. */
  lemma LevelsSettle(g: Graph, i: int, a: bool, b: bool, c: bool)
    requires a == g[TASK_A].Awake? && b == g[TASK_B].Awake? && c == g[TASK_C].Awake?
    ensures var (a1, b1, c1) := (Next(g, TASK_A, a, b, c), Next(g, TASK_B, a, b, c), Next(g, TASK_C, a, b, c));
            var (a2, b2, c2) := (Next(g, TASK_A, a1, b1, c1), Next(g, TASK_B, a1, b1, c1), Next(g, TASK_C, a1, b1, c1));
            Next(g, i, a2, b2, c2) ==> Next(g, i, a1, b1, c1)
  {
  }

  lemma Settles(g: Graph, i: int)
    ensures CanIn(g, i, 3) ==> CanIn(g, i, 2)
  {
    var a, b, c := CanIn(g, TASK_A, 0), CanIn(g, TASK_B, 0), CanIn(g, TASK_C, 0);
    assert a == g[TASK_A].Awake? && b == g[TASK_B].Awake? && c == g[TASK_C].Awake?;
    OneLevel(g, TASK_A, 0);
    OneLevel(g, TASK_B, 0);
    OneLevel(g, TASK_C, 0);
    OneLevel(g, TASK_A, 1);
    OneLevel(g, TASK_B, 1);
    OneLevel(g, TASK_C, 1);
    OneLevel(g, i, 1);
    OneLevel(g, i, 2);
    hide CanIn, Next;
    LevelsSettle(g, i, a, b, c);
  }

  lemma {:induction false} TwoWakes(g: Graph, i: int, n: nat)
    requires CanIn(g, i, n)
    ensures CanIn(g, i, 2)
    decreases n
  {
    if n < 2 {
      MoreWakes(g, i, n);
      if n == 0 {
        MoreWakes(g, i, 1);
      }
    } else if n > 2 {
      forall j | CanIn(g, j, n - 1) ensures CanIn(g, j, 2) {
        TwoWakes(g, j, n - 1);
      }
      OneLevel(g, i, n - 1);
      OneLevel(g, i, 2);
      NextKeeps(g, i, CanIn(g, TASK_A, n - 1), CanIn(g, TASK_B, n - 1), CanIn(g, TASK_C, n - 1),
                CanIn(g, TASK_A, 2), CanIn(g, TASK_B, 2), CanIn(g, TASK_C, 2));
      Settles(g, i);
    }
  }

  /** The fixpoint is reached after two wakes. */
  lemma CanRunInTwo(g: Graph, i: int)
    ensures CanRun(g, i) <==> CanIn(g, i, 2)
  {
    if CanRun(g, i) {
      var n: nat :| CanIn(g, i, n);
      TwoWakes(g, i, n);
    }
  }

  // ---------------------------------------------------------------- steps

  /** What the running task `cur` may do to a sleeper's wait. */
  predicate Wakeable(g: Graph, i: nat, cur: nat)
    requires i < IDLE && cur < IDLE
  {
    g[i] == Asks(cur) || g[i].Listens? || g[i].Watches? || (g[i].Gone? && i == TASK_B && cur == TASK_C)
  }

  /** A step made by task `cur`: the others keep their status or are woken. */
  predicate StepsTo(g: Graph, h: Graph, cur: nat) {
    cur < IDLE && g[cur].Awake?
    && forall i: nat :: i < IDLE && i != cur ==> h[i] == g[i] || (h[i].Awake? && Wakeable(g, i, cur))
  }

  /** No step lets a task run that could not run before it. */
  lemma {:induction false} NoRevival(g: Graph, h: Graph, cur: nat, i: int, n: nat)
    requires StepsTo(g, h, cur) && CanIn(h, i, n)
    ensures CanIn(g, i, n + 1)
    decreases n
  {
    if n > 0 {
      forall j | CanIn(h, j, n - 1) ensures CanIn(g, j, n) {
        NoRevival(g, h, cur, j, n - 1);
      }
    }
    assert CanIn(g, cur, n);
  }

  // ---------------------------------------------------------------- the start of a hang

  /** `CanRun` written out. */
  predicate CanTwo(g: Graph, i: int) {
    var (a, b, c) := (g[TASK_A].Awake?, g[TASK_B].Awake?, g[TASK_C].Awake?);
    Next(g, i, Next(g, TASK_A, a, b, c), Next(g, TASK_B, a, b, c), Next(g, TASK_C, a, b, c))
  }

  lemma CanRunWrittenOut(g: Graph, i: int)
    ensures CanRun(g, i) <==> CanTwo(g, i)
  {
    CanRunInTwo(g, i);
    OneLevel(g, TASK_A, 0);
    OneLevel(g, TASK_B, 0);
    OneLevel(g, TASK_C, 0);
    OneLevel(g, i, 1);
    hide Next;
    assert forall j :: CanIn(g, j, 0) <==> 0 <= j < IDLE && g[j].Awake?;
  }

  /** What the kernel's bookkeeping allows: only task_b and task_c own an endpoint, only task_c
      supervises, and a receiver whose caller waits is stuck. */
  predicate Consistent(g: Graph) {
    forall i :: 0 <= i < IDLE ==> FitsIn(g, i, g[i])
  }

  predicate FitsIn(g: Graph, i: int, t: Status) {
    && (t.Asks? ==> (t.owner == TASK_B || t.owner == TASK_C) && (t.owner != i ==> !g[t.owner].Listens?))
    && (t.Listens? || t.Stuck? ==> i == TASK_B || i == TASK_C)
    && (t.Watches? ==> i == TASK_C)
  }

  /** Task `i` is woken by task `cur` taking up status `t`: a request wakes the listening owner,
      a death the callers it served and the supervisor. */
  predicate WokenBy(g: Graph, cur: nat, t: Status, i: nat)
    requires i < IDLE
  {
    match t
    case Asks(o) => i == o && g[i].Listens?
    case Gone => g[i] == Asks(cur) || g[i].Watches?
    case _ => false
  }

  /** `h` is `g` after task `cur` has been parked with status `t`. */
  predicate ParkedTo(g: Graph, h: Graph, cur: nat, t: Status) {
    cur < IDLE && h[cur] == t
    && forall i: nat :: i < IDLE && i != cur ==> h[i] == if WokenBy(g, cur, t, i) then Awake else g[i]
  }

  predicate NobodyElse(g: Graph, cur: nat) {
    forall i: nat :: i < IDLE && i != cur ==> !g[i].Awake?
  }

  /** The owner `o` can answer a request of `cur`: it is awake or listens, or the third task is
      awake and is what the owner waits for, or can wake or restart it. */
  predicate Answers(g: Graph, cur: nat, o: int)
    requires 0 <= o < IDLE
  {
    o != cur
    && (g[o].Awake? || g[o].Listens?
        || exists x: nat :: x < IDLE && x != cur && x != o && g[x].Awake?
             && (g[o].Watches? || g[o] == Asks(x) || (g[o].Gone? && o == TASK_B && x == TASK_C)))
  }

  /** What the death of `cur` leaves without help: a listener when nobody else is awake or woken,
      or a caller of the dead task_b when its only restarter dies. */
  predicate LeftBehind(g: Graph, cur: nat, i: nat)
    requires i < IDLE
  {
    i != cur
    && ((g[i].Listens? && forall x: nat :: x < IDLE && x != i && x != cur ==>
           !g[x].Awake? && g[x] != Asks(cur) && !g[x].Watches?)
        || (g[i] == Asks(TASK_B) && g[TASK_B].Gone? && cur == TASK_C))
  }

  /** When parking task `cur` with status `t` makes some task hang. */
  predicate StartsHang(g: Graph, cur: nat, t: Status) {
    match t
    case Awake => false
    case Asks(o) => !(0 <= o < IDLE && Answers(g, cur, o))
    case Listens => NobodyElse(g, cur)
    case Watches => NobodyElse(g, cur)
    case Stuck => true
    case Gone => exists i: nat :: i < IDLE && LeftBehind(g, cur, i)
  }

  /** The statuses a parked task can take: its own endpoint has a waiting caller exactly if it
      is stuck. */
  predicate FitsNow(g: Graph, cur: nat, t: Status) {
    && (t.Asks? ==> t.owner == TASK_B || t.owner == TASK_C)
    && (t.Listens? || t.Stuck? ==> cur == TASK_B || cur == TASK_C)
    && (t.Listens? ==> forall i :: 0 <= i < IDLE ==> g[i] != Asks(cur))
    && (t.Watches? ==> cur == TASK_C)
  }

  ghost predicate HangStarted(g: Graph, h: Graph) {
    exists i :: Hangs(h, i) && !Hangs(g, i)
  }

  /** `Hangs` written out. */
  predicate HangsTwo(g: Graph, i: int) {
    0 <= i < IDLE && !g[i].Awake? && !g[i].Gone? && !CanTwo(g, i)
  }

  predicate StartsTwo(g: Graph, h: Graph) {
    || (HangsTwo(h, TASK_A) && !HangsTwo(g, TASK_A))
    || (HangsTwo(h, TASK_B) && !HangsTwo(g, TASK_B))
    || (HangsTwo(h, TASK_C) && !HangsTwo(g, TASK_C))
  }

  lemma HangWrittenOut(g: Graph, h: Graph)
    ensures HangStarted(g, h) <==> StartsTwo(g, h)
  {
    forall i ensures (Hangs(g, i) <==> HangsTwo(g, i)) && (Hangs(h, i) <==> HangsTwo(h, i)) {
      CanRunWrittenOut(g, i);
      CanRunWrittenOut(h, i);
    }
    hide CanTwo, CanRun;
    if HangStarted(g, h) {
      var i :| Hangs(h, i) && !Hangs(g, i);
      assert i == TASK_A || i == TASK_B || i == TASK_C;
    }
    if StartsTwo(g, h) {
      assert Hangs(h, TASK_A) || Hangs(h, TASK_B) || Hangs(h, TASK_C);
    }
  }

  lemma AsksStarts(g: Graph, h: Graph, cur: nat, o: int)
    requires Consistent(g) && cur < IDLE && g[cur].Awake? && (o == TASK_B || o == TASK_C)
    requires ParkedTo(g, h, cur, Asks(o))
    ensures StartsTwo(g, h) <==> !Answers(g, cur, o)
  {
    ThirdTask(g, cur, o);
  }

  /** `Answers` with the third task named. */
  lemma ThirdTask(g: Graph, cur: nat, o: int)
    requires cur < IDLE && (o == TASK_B || o == TASK_C)
    ensures o != cur ==>
              var x: nat := 3 - cur - o;
              var help := g[o].Watches? || g[o] == Asks(x) || (g[o].Gone? && o == TASK_B && x == TASK_C);
              Answers(g, cur, o) <==> g[o].Awake? || g[o].Listens? || (g[x].Awake? && help)
  {
    if o != cur && Answers(g, cur, o) && !g[o].Awake? && !g[o].Listens? {
      var x: nat :| x < IDLE && x != cur && x != o && g[x].Awake?
                    && (g[o].Watches? || g[o] == Asks(x) || (g[o].Gone? && o == TASK_B && x == TASK_C));
      assert x == 3 - cur - o;
    }
  }

  lemma SleepsStarts(g: Graph, h: Graph, cur: nat, t: Status)
    requires Consistent(g) && cur < IDLE && g[cur].Awake? && FitsNow(g, cur, t)
    requires (t.Listens? || t.Watches? || t.Stuck?) && ParkedTo(g, h, cur, t)
    ensures StartsTwo(g, h) <==> t.Stuck? || NobodyElse(g, cur)
  {
  }

  lemma DeathStarts(g: Graph, h: Graph, cur: nat)
    requires Consistent(g) && cur < IDLE && g[cur].Awake? && ParkedTo(g, h, cur, Gone)
    ensures StartsTwo(g, h) <==> LeftBehind(g, cur, TASK_A) || LeftBehind(g, cur, TASK_B) || LeftBehind(g, cur, TASK_C)
  {
  }

  /** Exactly which parkings make some task hang that did not hang before. */
  lemma StartsHangExactly(g: Graph, h: Graph, cur: nat, t: Status)
    requires Consistent(g) && cur < IDLE && g[cur].Awake? && !t.Awake? && FitsNow(g, cur, t)
    requires ParkedTo(g, h, cur, t)
    ensures HangStarted(g, h) <==> StartsHang(g, cur, t)
  {
    HangWrittenOut(g, h);
    match t
    case Asks(o) => AsksStarts(g, h, cur, o);
    case Gone =>
      DeathStarts(g, h, cur);
      if StartsHang(g, cur, t) {
        var i: nat :| i < IDLE && LeftBehind(g, cur, i);
        assert i == TASK_A || i == TASK_B || i == TASK_C;
      }
    case _ => SleepsStarts(g, h, cur, t);
  }

  lemma {:induction false} StillCan(g: Graph, h: Graph, cur: nat, i: int, n: nat)
    requires StepsTo(g, h, cur) && h[cur].Awake? && CanIn(g, i, n)
    ensures CanIn(h, i, n)
    decreases n
  {
    if n > 0 {
      var m: nat := n - 1;
      forall j | CanIn(g, j, m) ensures CanIn(h, j, m) {
        StillCan(g, h, cur, j, m);
      }
    }
  }

  /** A step that leaves its task awake starts no hang. */
  lemma NoneStarts(g: Graph, h: Graph, cur: nat)
    requires StepsTo(g, h, cur) && h[cur].Awake?
    ensures !HangStarted(g, h)
  {
    forall i | Hangs(h, i) ensures Hangs(g, i) {
      if CanRun(g, i) {
        var n: nat :| CanIn(g, i, n);
        StillCan(g, h, cur, i, n);
      }
    }
  }

  /** Two owners that ask each other hang, whatever the third task does. */
  lemma MutualWait(g: Graph)
    requires g[TASK_B] == Asks(TASK_C) && g[TASK_C] == Asks(TASK_B)
    ensures Hangs(g, TASK_B) && Hangs(g, TASK_C)
  {
    CanRunWrittenOut(g, TASK_B);
    CanRunWrittenOut(g, TASK_C);
  }

  /** A caller of the dead task_b hangs exactly when task_c can never restart it. */
  lemma CallToTheDead(g: Graph, i: nat)
    requires i < IDLE && g[i] == Asks(TASK_B) && g[TASK_B].Gone?
    ensures Hangs(g, i) <==> !CanRun(g, TASK_C)
  {
    CanRunWrittenOut(g, i);
    CanRunWrittenOut(g, TASK_C);
  }
}
