/** Fairness of the round-robin pick for any number of threads, and the quantum arithmetic. */
module Scheduler {
  import opened Base
  import opened State
  import opened Threads
  import opened Invariant

  /** How far the scan that starts behind `cur` has to go to reach slot `i`: 1..n. */
  function Distance(n: nat, cur: int, i: nat): (d: nat)
    requires i < n && 0 <= cur < n
    ensures 1 <= d <= n && (cur + d) % n == i
  {
    if i > cur then Ahead(n, cur, i) else Behind(n, cur, i)
  }

  function Ahead(n: nat, cur: int, i: nat): (d: nat)
    requires 0 <= cur < i < n
    ensures 1 <= d <= n && (cur + d) % n == i
  {
    i - cur
  }

  function Behind(n: nat, cur: int, i: nat): (d: nat)
    requires 0 <= i <= cur < n
    ensures 1 <= d <= n && (cur + d) % n == i
  {
    WrapOnce(n, i);
    i + n - cur
  }

  lemma WrapOnce(n: nat, i: nat)
    requires i < n
    ensures (i + n) % n == i
  {
  }

  /** The scan stops at the candidate with the least distance, and only there. */
  lemma {:induction false} ScanIsNearest(ts: seq<Thread>, cur: nat, i: nat, j: nat)
    requires cur < |ts| && j < |ts| && Candidate(ts, cur, j) && 1 <= i <= Distance(|ts|, cur, j)
    ensures var p := Scan(ts, cur, cur, i);
            p != NONE && i <= Distance(|ts|, cur, p) <= Distance(|ts|, cur, j)
    decreases |ts| - i
  {
    var n := |ts|;
    var here := (cur + i) % n;
    if Candidate(ts, cur, here) {
      DistanceUnique(n, cur, i);
    } else {
      assert i != Distance(n, cur, j);
      ScanIsNearest(ts, cur, i + 1, j);
    }
  }

  lemma DistanceUnique(n: nat, cur: nat, d: nat)
    requires cur < n && 1 <= d <= n
    ensures Distance(n, cur, (cur + d) % n) == d
  {
    if cur + d >= n {
      WrapOnce(n, cur + d - n);
    }
  }

  /** The picked slot, characterised without the scan: the selectable user slot met first
      going round from the current one, the current one itself only if no other is left,
      and the idle slot (the last) only if no user slot is selectable at all. */
  lemma PickIsNearest(ts: seq<Thread>, cur: nat, p: nat)
    requires cur < |ts| && PickNext(ts, cur) == Ok(p)
    ensures forall j {:trigger Selectable(ts[j])} :: 0 <= j < |ts| - 1 && Selectable(ts[j]) ==>
              p != |ts| - 1 && Distance(|ts|, cur, p) <= Distance(|ts|, cur, j)
  {
    forall j | 0 <= j < |ts| - 1 && Selectable(ts[j])
      ensures p != |ts| - 1 && Distance(|ts|, cur, p) <= Distance(|ts|, cur, j)
    {
      if j != cur {
        assert Candidate(ts, cur, j);
        ScanIsNearest(ts, cur, 1, j);
      }
    }
  }

  /** Successive picks over a changing thread table: `picks[k]` was chosen from `tables[k]`
      with the previous pick (at first `cur`) current. */
  ghost predicate PickRun(tables: seq<seq<Thread>>, cur: nat, picks: seq<nat>, n: nat) {
    && |tables| == |picks|
    && cur < n
    && (forall k :: 0 <= k < |tables| ==> |tables[k]| == n)
    && (forall k :: 0 <= k < |picks| ==> picks[k] < n)
    && (forall k :: 0 <= k < |picks| ==>
          PickNext(tables[k], Before(cur, picks, k)) == Ok(picks[k]))
  }

  function Before(cur: nat, picks: seq<nat>, k: nat): nat
    requires k <= |picks|
  {
    if k == 0 then cur else picks[k - 1]
  }

  /** Bounded bypass: a user slot that stays selectable is picked within as many picks as its
      distance from the current slot, hence within n - 1 picks once another slot runs. */
  lemma {:induction false} RoundRobin(tables: seq<seq<Thread>>, cur: nat, picks: seq<nat>, n: nat, i: nat)
    requires PickRun(tables, cur, picks, n) && i < n - 1
    requires forall k :: 0 <= k < |tables| ==> Selectable(tables[k][i])
    requires |picks| >= Distance(n, cur, i)
    ensures exists k :: 0 <= k < Distance(n, cur, i) && picks[k] == i
    decreases Distance(n, cur, i)
  {
    var p := picks[0];
    assert PickNext(tables[0], Before(cur, picks, 0)) == Ok(p);
    PickIsNearest(tables[0], cur, p);
    assert Selectable(tables[0][i]);
    if p != i {
      CloserNext(n, cur, p, i);
      assert PickRun(tables[1..], p, picks[1..], n) by {
        forall k | 0 <= k < |picks| - 1
          ensures PickNext(tables[1..][k], Before(p, picks[1..], k)) == Ok(picks[1..][k])
        {
          assert PickNext(tables[k + 1], Before(cur, picks, k + 1)) == Ok(picks[k + 1]);
        }
      }
      RoundRobin(tables[1..], p, picks[1..], n, i);
      var k :| 0 <= k < Distance(n, p, i) && picks[1..][k] == i;
      assert picks[k + 1] == i;
    }
  }

  lemma CloserNext(n: nat, cur: nat, p: nat, i: nat)
    requires cur < n && p < n && i < n && p != i
    requires Distance(n, cur, p) <= Distance(n, cur, i)
    ensures Distance(n, p, i) + Distance(n, cur, p) == Distance(n, cur, i)
  {
  }

  /** From another slot than `i`, the bound is at most n - 1. */
  lemma DistanceBound(n: nat, cur: nat, i: nat)
    requires cur < n && i < n
    ensures Distance(n, cur, i) <= n - 1 <==> cur != i
  {
  }

  // ---------------------------------------------------------------- quantum arithmetic

  /** How many of the next `k` ticks request a reschedule, counted tick by tick. */
  function Requests(s: Kernel, k: nat): nat
    requires Fits(s) && s.current != NONE
    decreases k
  {
    if k == 0 then 0
    else (if s.threads[s.current].quantum <= 1 then 1 else 0) + Requests(Tick(s), k - 1)
  }

  ghost predicate Counting(s: Kernel) {
    Fits(s) && s.current != NONE && 1 <= s.threads[s.current].quantum <= QUANTUM_TICKS
  }

  lemma {:induction false} CountdownAfter(s: Kernel, k: nat)
    requires Counting(s)
    ensures var q := s.threads[s.current].quantum;
            && Ticks(s, k).current == s.current
            && Ticks(s, k).threads[s.current].quantum ==
                 QUANTUM_TICKS - (k + QUANTUM_TICKS - q) % QUANTUM_TICKS
            && Requests(s, k) == (k + QUANTUM_TICKS - q) / QUANTUM_TICKS
    decreases k
  {
    var q := s.threads[s.current].quantum;
    if k > 0 {
      var s1 := Tick(s);
      CountdownAfter(s1, k - 1);
      assert s1.threads[s1.current].quantum == if q == 1 then QUANTUM_TICKS else q - 1;
      if q == 1 {
        CycleStep(k);
      }
    }
  }

  lemma {:induction false} FlagAndClockAfter(s: Kernel, k: nat)
    requires Counting(s)
    ensures Ticks(s, k).resched <==> s.resched || Requests(s, k) > 0
    ensures Ticks(s, k).ticks == (s.ticks + k) % TWO64
    decreases k
  {
    if k > 0 {
      FlagAndClockAfter(Tick(s), k - 1);
      ClockStep(s.ticks, k);
    }
  }

  /** `k` ticks on one thread from a quantum of `q`: the countdown, the number of reschedule
      requests raised, the request flag and the 64-bit clock. */
  lemma QuantumAfter(s: Kernel, k: nat)
    requires Common(s)
    ensures var q := s.threads[s.current].quantum;
            var r := Ticks(s, k);
            && r.current == s.current
            && r.threads[s.current].quantum == QUANTUM_TICKS - (k + QUANTUM_TICKS - q) % QUANTUM_TICKS
            && Requests(s, k) == (k + QUANTUM_TICKS - q) / QUANTUM_TICKS
            && (r.resched <==> s.resched || Requests(s, k) > 0)
            && r.ticks == (s.ticks + k) % TWO64
  {
    assert ThreadOk(s.build, s.threads[s.current], s.current);
    CountdownAfter(s, k);
    FlagAndClockAfter(s, k);
  }

  lemma CycleStep(k: nat)
    requires k > 0
    ensures (k + 9) / QUANTUM_TICKS == (k - 1) / QUANTUM_TICKS + 1
    ensures (k + 9) % QUANTUM_TICKS == (k - 1) % QUANTUM_TICKS
  {
  }

  lemma ClockStep(t: u64, k: nat)
    requires k > 0
    ensures ((t + 1) % TWO64 + (k - 1)) % TWO64 == (t + k) % TWO64
  {
    if t + 1 == TWO64 {
      assert t + k == TWO64 + (k - 1);
    }
  }

  /** The reload inside `thread_switch_to` never happens: no reachable quantum is zero. */
  lemma SwitchNeverReloads(s: Kernel, next: nat)
    requires Common(s) && next < THREAD_COUNT
    ensures SwitchTo(s, next).threads[next].quantum == s.threads[next].quantum
  {
    assert ThreadOk(s.build, s.threads[next], next);
  }
}
