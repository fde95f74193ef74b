/** The benchmark as a whole: what the client measures on the kernel it runs on. */
module Benchmark {
  import opened Base
  import opened Memory
  import opened State
  import opened Machine
  import opened Latency
  import opened LatencyRuns
  import opened Samples

  /** The shots are operations of the run with system call `nr`, in order, with the values the
      kernel returned; the writes measured are of one byte. `at` says which operations. */
  ghost predicate Measured(ops: seq<Finished>, nr: u64, shots: seq<Shot>, at: seq<nat>) {
    && |at| == |shots|
    && (forall i, j :: 0 <= i < j < |at| ==> at[i] < at[j])
    && (forall k :: 0 <= k < |at| ==> at[k] < |ops| && IsShot(ops[at[k]], nr, shots[k]))
  }

  predicate IsShot(op: Finished, nr: u64, t: Shot) {
    op.nr == nr && (nr == SYS_WRITE ==> op.len == 1) && t.ret == op.x0
  }

  lemma ShotsReturnOne(l: Bench, b: Build, mem: Mem, es: seq<Event>, nr: u64, shots: seq<Shot>, at: seq<nat>)
    requires l.Places(b) && BenchRun(l, Boot(b, mem), es) && (nr == SYS_WRITE || nr == SYS_IPC_CALL)
    requires Measured(Operations(l, Boot(b, mem), es), nr, shots, at)
    ensures forall k :: 0 <= k < |shots| ==> shots[k].ret == 1
  {
    NoBenchmarkFailure(l, b, mem, es);
    hide Operations, BenchRun, Boot;
    forall k | 0 <= k < |shots| ensures shots[k].ret == 1 {
      assert Succeeded(Operations(l, Boot(b, mem), es)[at[k]]);
      assert IsShot(Operations(l, Boot(b, mem), es)[at[k]], nr, shots[k]);
    }
  }

  /** Sample `k` is what the counter advanced by in iteration `k`. */
  predicate EachReading(raw: seq<u64>, shots: seq<Shot>) {
    |raw| == |shots|
    && forall k :: 0 <= k < |raw| ==> (shots[k].start + raw[k]) % 0x1_0000_0000_0000_0000 == shots[k].end
  }

  lemma AllReadings(raw: seq<u64>, shots: seq<Shot>)
    requires Readings(raw, shots, 1) && forall k :: 0 <= k < |shots| ==> shots[k].ret == 1
    ensures EachReading(raw, shots)
  {
    AllSucceed(shots);
    forall k | 0 <= k < |shots| ensures k < |raw| && (shots[k].start + raw[k]) % TWO64 == shots[k].end {
      assert ReadingAt(raw, shots, 1, k);
      AllSucceed(shots[..k]);
    }
  }

  lemma {:induction false} AllSucceed(shots: seq<Shot>)
    requires forall k :: 0 <= k < |shots| ==> shots[k].ret == 1
    ensures Successes(shots, 1) == |shots|
  {
    if shots != [] {
      AllSucceed(shots[..|shots| - 1]);
    }
  }

  /** Both latency tests, in both flavors, whatever the counter reads: every iteration is a
      success, none fails, and the statistics are those of all iterations. */
  method RunBenchmark(ghost l: Bench, ghost b: Build, ghost mem: Mem, ghost es: seq<Event>, ghost nr: u64,
                      samples: array<u64>, shots: seq<Shot>, ghost at: seq<nat>)
    returns (success: nat, min: u64, median: u64, max: u64, total: u64, failures: nat)
    requires |shots| <= samples.Length
    requires l.Places(b) && BenchRun(l, Boot(b, mem), es) && (nr == SYS_WRITE || nr == SYS_IPC_CALL)
    requires Measured(Operations(l, Boot(b, mem), es), nr, shots, at)
    modifies samples
    ensures failures == 0 && success == |shots|
    ensures success > 0 ==> Sorted(samples[..success]) && min == samples[0] && max == samples[success - 1]
    ensures success > 0 ==> multiset(samples[..success]) == multiset(Good(shots, 1)) && min <= median <= max
    ensures median == MedianOf(Good(shots, 1)) && IsMedian(median, samples[..success])
    ensures exists raw :: EachReading(raw, shots) && multiset(raw) == multiset(samples[..success])
    ensures TotalOf(total, shots, 1)
  {
    ShotsReturnOne(l, b, mem, es, nr, shots, at);
    hide Operations, BenchRun, Boot, Measured;
    success, min, median, max, total, failures := Measure(samples, shots, 1);
    ghost var raw :| Readings(raw, shots, 1) && multiset(raw) == multiset(samples[..success]);
    AllReadings(raw, shots);
  }
}
