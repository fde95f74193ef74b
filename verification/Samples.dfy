/** The benchmark client's arithmetic: collecting samples, sorting them in place, the median. */
module Samples {
  import opened Base

  ghost predicate Sorted(s: seq<u64>) {
    forall i, j :: 0 <= i < j < |s| ==> s[i] <= s[j]
  }

  /** `key` placed behind the last element that does not exceed it, counted from the right. */
  function Insert(s: seq<u64>, key: u64): (r: seq<u64>)
    ensures |r| == |s| + 1
  {
    if s == [] || s[|s| - 1] <= key then s + [key]
    else Insert(s[..|s| - 1], key) + [s[|s| - 1]]
  }

  function InsertionSort(s: seq<u64>): (r: seq<u64>)
    ensures |r| == |s|
  {
    if s == [] then [] else Insert(InsertionSort(s[..|s| - 1]), s[|s| - 1])
  }

  /** A bound on the elements and the key bounds the result. */
  lemma {:induction false} InsertBelow(s: seq<u64>, key: u64, bound: u64)
    requires key <= bound && forall k :: 0 <= k < |s| ==> s[k] <= bound
    ensures forall k :: 0 <= k <= |s| ==> Insert(s, key)[k] <= bound
  {
    if s != [] && s[|s| - 1] > key {
      InsertBelow(s[..|s| - 1], key, bound);
    }
  }

  lemma {:induction false} InsertSorted(s: seq<u64>, key: u64)
    requires Sorted(s)
    ensures Sorted(Insert(s, key))
  {
    if s != [] && s[|s| - 1] > key {
      var init, last := s[..|s| - 1], s[|s| - 1];
      InsertSorted(init, key);
      InsertBelow(init, key, last);
      SortedEnd(Insert(init, key), last);
    }
  }

  lemma SortedEnd(s: seq<u64>, last: u64)
    requires Sorted(s) && forall k :: 0 <= k < |s| ==> s[k] <= last
    ensures Sorted(s + [last])
  {
  }

  lemma {:induction false} InsertBag(s: seq<u64>, key: u64)
    ensures multiset(Insert(s, key)) == multiset(s) + multiset{key}
  {
    if s != [] && s[|s| - 1] > key {
      InsertBag(s[..|s| - 1], key);
      assert s == s[..|s| - 1] + [s[|s| - 1]];
    }
  }

  /** The sort yields the sorted permutation of its input. */
  lemma {:induction false} SortCorrect(s: seq<u64>)
    ensures Sorted(InsertionSort(s))
    ensures multiset(InsertionSort(s)) == multiset(s)
  {
    if s != [] {
      SortCorrect(s[..|s| - 1]);
      InsertSorted(InsertionSort(s[..|s| - 1]), s[|s| - 1]);
      InsertBag(InsertionSort(s[..|s| - 1]), s[|s| - 1]);
      assert s == s[..|s| - 1] + [s[|s| - 1]];
    }
  }

  /** Elements greater than the key at the right end stay where they are. */
  lemma {:induction false} InsertLeftOf(p: seq<u64>, q: seq<u64>, key: u64)
    requires forall k :: 0 <= k < |q| ==> q[k] > key
    requires p == [] || p[|p| - 1] <= key
    ensures Insert(p + q, key) == p + [key] + q
    decreases |q|
  {
    if q == [] {
      assert p + q == p;
    } else {
      var init := q[..|q| - 1];
      assert (p + q)[..|p + q| - 1] == p + init;
      InsertLeftOf(p, init, key);
      assert p + [key] + q == p + [key] + init + [q[|q| - 1]];
    }
  }

  /** A key sunk to place `j`, the larger elements moved one place up, is inserted. */
  lemma SunkAt(was: seq<u64>, now: seq<u64>, i: nat, j: nat, key: u64)
    requires j <= i < |was| == |now| && now[j] == key
    requires forall k :: 0 <= k < j ==> now[k] == was[k]
    requires forall k :: j < k <= i ==> now[k] == was[k - 1] && now[k] > key
    requires j == 0 || was[j - 1] <= key
    ensures now[..i + 1] == Insert(was[..i], key)
  {
    hide Insert;
    ShiftedPart(was, now, i, j, key);
    Splits(was, now, i, j);
    InsertLeftOf(was[..j], was[j..i], key);
  }

  lemma ShiftedPart(was: seq<u64>, now: seq<u64>, i: nat, j: nat, key: u64)
    requires j <= i < |was| == |now|
    requires forall k :: j < k <= i ==> now[k] == was[k - 1] && now[k] > key
    ensures now[j + 1..i + 1] == was[j..i]
    ensures forall k :: 0 <= k < i - j ==> was[j..i][k] > key
  {
    forall k | 0 <= k < i - j ensures was[j..i][k] == now[j + 1..i + 1][k] > key {
      var at := j + 1 + k;
      assert now[at] == was[at - 1];
    }
  }

  lemma Splits(was: seq<u64>, now: seq<u64>, i: nat, j: nat)
    requires j <= i < |was| == |now|
    requires forall k :: 0 <= k < j ==> now[k] == was[k]
    ensures was[..i] == was[..j] + was[j..i]
    ensures now[..i + 1] == was[..j] + [now[j]] + now[j + 1..i + 1]
  {
    assert now[..j] == was[..j];
    assert now[..i + 1] == now[..j] + [now[j]] + now[j + 1..i + 1];
  }

  /** The inner loop of the sort: element `i` sinks into the sorted part to its left. */
  method SinkInto(a: array<u64>, i: nat)
    requires i < a.Length
    modifies a
    ensures a[..i + 1] == Insert(old(a[..i]), old(a[i]))
    ensures a[i + 1..] == old(a[i + 1..])
  {
    ghost var was := a[..];
    var key := a[i];
    var j := i;
    while j > 0 && a[j - 1] > key
      invariant 0 <= j <= i
      invariant forall k :: 0 <= k < j ==> a[k] == was[k]
      invariant forall k :: j < k <= i ==> a[k] == was[k - 1] && a[k] > key
      invariant forall k :: i < k < a.Length ==> a[k] == was[k]
    {
      a[j] := a[j - 1];
      j := j - 1;
    }
    a[j] := key;
    SunkAt(was, a[..], i, j, key);
  }

  /** `bench_sort_u64`: the first `count` samples are sorted in place, the rest is untouched. */
  method SortInPlace(a: array<u64>, count: nat)
    requires count <= a.Length
    modifies a
    ensures a[..count] == InsertionSort(old(a[..count]))
    ensures a[count..] == old(a[count..])
  {
    ghost var was := a[..];
    ShortIsSorted(was);
    var i := 1;
    while i < count
      invariant 1 <= i
      invariant i <= count || count == 0
      invariant forall k :: i <= k < a.Length ==> a[k] == was[k]
      invariant count == 0 ==> a[..] == was
      invariant count > 0 ==> a[..i] == InsertionSort(was[..i])
    {
      SinkInto(a, i);
      assert was[..i + 1][..i] == was[..i];
      i := i + 1;
    }
  }

  lemma ShortIsSorted(s: seq<u64>)
    ensures InsertionSort(s[..0]) == s[..0]
    ensures s != [] ==> InsertionSort(s[..1]) == s[..1]
  {
    if s != [] {
      assert s[..1] == [s[0]] && s[..1][..0] == [];
    }
  }

  /** The middle of an ordered list; the mean of the middle two is rounded down. */
  function Middle(t: seq<u64>): int {
    var n := |t|;
    if n == 0 then 0
    else if n % 2 == 1 then t[n / 2]
    else
      var lower: int := t[n / 2 - 1];
      var upper: int := t[n / 2];
      (lower + upper) / 2
  }

  /** The median of the samples, defined on their sorted order. */
  function MedianOf(s: seq<u64>): int {
    Middle(InsertionSort(s))
  }

  /** The mean without the overflowing sum. */
  lemma MeanOf(lower: int, upper: int)
    requires lower <= upper
    ensures lower + (upper - lower) / 2 == (lower + upper) / 2
  {
  }

  lemma SortedPair(s: seq<u64>, i: nat)
    requires i + 1 < |s|
    ensures InsertionSort(s)[i] <= InsertionSort(s)[i + 1]
  {
    SortCorrect(s);
    hide InsertionSort;
  }

  lemma Halves(n: nat)
    ensures n % 2 == 0 <==> n == 2 * (n / 2)
    ensures n % 2 == 1 <==> n == 2 * (n / 2) + 1
  {
  }

  lemma MiddleOf(t: seq<u64>, mid: nat)
    ensures |t| == 2 * mid + 1 ==> Middle(t) == t[mid]
    ensures |t| == 2 * mid && mid > 0 ==> Middle(t) == (t[mid - 1] as int + t[mid] as int) / 2
  {
    assert |t| == 2 * mid + 1 || |t| == 2 * mid ==> |t| / 2 == mid;
  }

  /** `m` is the middle of the ordered samples: the middle one itself, or the two in the middle
      add up to its double or one more; 0 if there is none. */
  predicate IsMedian(m: u64, t: seq<u64>) {
    var half := |t| / 2;
    if |t| == 0 then m == 0
    else if |t| % 2 == 1 then m == t[half]
    else 2 * m <= t[half - 1] + t[half] <= 2 * m + 1
  }

  /** `bench_median_u64`: every intermediate value fits 64 bits, also where the sum of the two
      middle samples would not. */
  method Median(a: array<u64>, count: nat) returns (m: u64)
    requires count <= a.Length
    modifies a
    ensures m == MedianOf(old(a[..count])) && IsMedian(m, a[..count])
    ensures count > 0 ==> a[..count] == InsertionSort(old(a[..count]))
    ensures a[count..] == old(a[count..])
  {
    if count == 0 {
      return 0;
    }
    ghost var was := a[..count];
    SortInPlace(a, count);
    ghost var sorted := a[..count];
    var mid := count / 2;
    Halves(count);
    MiddleOf(sorted, mid);
    if count % 2 == 0 {
      SortedPair(was, mid - 1);
      var lower: u64 := a[mid - 1];
      var upper: u64 := a[mid];
      assert lower == sorted[mid - 1] && upper == sorted[mid];
      var gap: u64 := upper - lower;
      MeanOf(lower, upper);
      m := lower + gap / 2;
    } else {
      m := a[mid];
      assert m == sorted[mid];
    }
  }

  // ---------------------------------------------------------------- collecting

  /** What the client sees of one benchmark operation. */
  datatype Shot = Shot(start: u64, ret: u64, end: u64)

  function Elapsed(t: Shot): u64 {
    (t.end - t.start) % TWO64
  }

  /** The samples of the successful shots, in order. */
  function Good(shots: seq<Shot>, expected: u64): (r: seq<u64>)
    ensures |r| <= |shots|
  {
    if shots == [] then []
    else
      var init := Good(shots[..|shots| - 1], expected);
      var t := shots[|shots| - 1];
      if t.ret == expected then init + [Elapsed(t)] else init
  }

  function Sum(s: seq<u64>): nat {
    if s == [] then 0 else Sum(s[..|s| - 1]) + s[|s| - 1]
  }

  /** A sample added to its start reading gives its end reading, the counter wrapping at 2^64. */
  lemma ElapsedIs(t: Shot)
    ensures (t.start + Elapsed(t)) % 0x1_0000_0000_0000_0000 == t.end
    ensures t.start <= t.end ==> Elapsed(t) == t.end - t.start
  {
  }

  /** How many shots returned the expected value. */
  function Successes(shots: seq<Shot>, expected: u64): nat {
    if shots == [] then 0
    else Successes(shots[..|shots| - 1], expected) + if shots[|shots| - 1].ret == expected then 1 else 0
  }

  /** One sample to each success, in order: what its counter advanced by from start to end. */
  ghost predicate Readings(samples: seq<u64>, shots: seq<Shot>, expected: u64) {
    && |samples| == Successes(shots, expected)
    && forall i :: 0 <= i < |shots| && shots[i].ret == expected ==> ReadingAt(samples, shots, expected, i)
  }

  predicate ReadingAt(samples: seq<u64>, shots: seq<Shot>, expected: u64, i: nat)
    requires i < |shots|
  {
    var k := Successes(shots[..i], expected);
    k < |samples| && (shots[i].start + samples[k]) % 0x1_0000_0000_0000_0000 == shots[i].end
  }

  /** The start and the end readings of the successes, added up. */
  function Starts(shots: seq<Shot>, expected: u64): nat {
    if shots == [] then 0
    else
      var t := shots[|shots| - 1];
      Starts(shots[..|shots| - 1], expected) + if t.ret == expected then t.start else 0
  }

  function Ends(shots: seq<Shot>, expected: u64): nat {
    if shots == [] then 0
    else
      var t := shots[|shots| - 1];
      Ends(shots[..|shots| - 1], expected) + if t.ret == expected then t.end else 0
  }

  /** The total is what the end readings exceed the start readings by, modulo 2^64. */
  predicate TotalOf(total: int, shots: seq<Shot>, expected: u64) {
    (total + Starts(shots, expected)) % 0x1_0000_0000_0000_0000 == Ends(shots, expected) % 0x1_0000_0000_0000_0000
  }

  lemma {:induction false} GoodReadings(shots: seq<Shot>, expected: u64)
    ensures Readings(Good(shots, expected), shots, expected)
  {
    if shots != [] {
      var n := |shots| - 1;
      var init, good := shots[..n], Good(shots[..n], expected);
      GoodReadings(init, expected);
      ElapsedIs(shots[n]);
      hide Elapsed;
      forall i | 0 <= i < |shots| && shots[i].ret == expected
        ensures ReadingAt(Good(shots, expected), shots, expected, i)
      {
        if i < n {
          assert init[..i] == shots[..i] && ReadingAt(good, init, expected, i);
        }
      }
    }
  }

  lemma SumNext(s: seq<u64>, x: u64)
    ensures Sum(s + [x]) == Sum(s) + x
  {
    assert (s + [x])[..|s|] == s;
  }

  lemma {:induction false} GoodTotal(shots: seq<Shot>, expected: u64)
    ensures TotalOf(Sum(Good(shots, expected)), shots, expected)
  {
    if shots != [] {
      var t, init := shots[|shots| - 1], shots[..|shots| - 1];
      var good := Good(init, expected);
      GoodTotal(init, expected);
      hide Sum, Elapsed;
      if t.ret == expected {
        SumNext(good, Elapsed(t));
        ElapsedIs(t);
        AddsUp(Sum(good), Starts(init, expected), Ends(init, expected), Elapsed(t), t.start, t.end);
      }
    }
  }

  lemma AddsUp(a: int, s: int, e: int, da: int, ds: int, de: int)
    requires (a + s) % TWO64 == e % TWO64 && (da + ds) % TWO64 == de % TWO64
    ensures (a + da + (s + ds)) % TWO64 == (e + de) % TWO64
  {
    var p, q := (a + s) / TWO64 - e / TWO64, (da + ds) / TWO64 - de / TWO64;
    assert a + da + (s + ds) == e + de + (p + q) * TWO64;
    var m := e + de;
    assert m + (p + q) * TWO64 == (m / TWO64 + p + q) * TWO64 + m % TWO64;
  }

  /** The wrapped sum serves as well. */
  lemma TotalWraps(sum: nat, shots: seq<Shot>, expected: u64)
    requires TotalOf(sum, shots, expected)
    ensures TotalOf(sum % TWO64, shots, expected)
  {
    var m := sum % TWO64 + Starts(shots, expected);
    assert sum + Starts(shots, expected) == m + (sum / TWO64) * TWO64;
    assert m + (sum / TWO64) * TWO64 == (m / TWO64 + sum / TWO64) * TWO64 + m % TWO64;
  }

  predicate IsMin(m: u64, s: seq<u64>) {
    if s == [] then m == 0 else m in s && forall k :: 0 <= k < |s| ==> m <= s[k]
  }

  predicate IsMax(m: u64, s: seq<u64>) {
    if s == [] then m == 0 else m in s && forall k :: 0 <= k < |s| ==> s[k] <= m
  }

  lemma GoodNext(shots: seq<Shot>, i: nat, expected: u64)
    requires i < |shots|
    ensures Good(shots[..i + 1], expected) ==
              Good(shots[..i], expected) + if shots[i].ret == expected then [Elapsed(shots[i])] else []
  {
    assert shots[..i + 1][..i] == shots[..i];
  }

  /** The accumulators describe the samples collected so far. */
  predicate Summary(good: seq<u64>, min: u64, max: u64, total: u64) {
    IsMin(min, good) && IsMax(max, good) && total == Sum(good) % TWO64
  }

  /** One more sample in the running minimum, maximum and wrapped total. */
  lemma NextStats(good: seq<u64>, x: u64, min: u64, max: u64, total: u64)
    requires Summary(good, min, max, total)
    ensures Summary(good + [x], if good == [] || x < min then x else min, if x > max then x else max,
                    (total + x) % TWO64)
  {
    assert (good + [x])[..|good|] == good;
    var q := Sum(good) / TWO64;
    assert Sum(good) + x == q * TWO64 + (total + x);
  }

  /** The collection loop shared by the write and the round-trip benchmark; `shots` is what
      the counter and the system call returned in each iteration. */
  method Collect(samples: array<u64>, shots: seq<Shot>, expected: u64)
    returns (success: nat, min: u64, max: u64, total: u64, failures: nat)
    requires |shots| <= samples.Length
    modifies samples
    ensures success == |Good(shots, expected)| && success + failures == |shots|
    ensures samples[..success] == Good(shots, expected)
    ensures samples[success..] == old(samples[success..])
    ensures Summary(Good(shots, expected), min, max, total)
    ensures Readings(samples[..success], shots, expected)
    ensures IsMin(min, samples[..success]) && IsMax(max, samples[..success]) && TotalOf(total, shots, expected)
  {
    hide Summary, Good, Elapsed;
    success, min, max, total, failures := 0, 0, 0, 0, 0;
    ghost var good: seq<u64> := [];
    ghost var was := samples[..];
    NothingYet(shots, expected);
    for i := 0 to |shots|
      invariant good == Good(shots[..i], expected)
      invariant success == |good| && success + failures == i
      invariant samples[..success] == good
      invariant samples[success..] == was[success..]
      invariant Summary(good, min, max, total)
    {
      GoodNext(shots, i, expected);
      if shots[i].ret != expected {
        failures := failures + 1;
        continue;
      }
      var elapsed := Elapsed(shots[i]);
      NextStats(good, elapsed, min, max, total);
      good := good + [elapsed];
      samples[success] := elapsed;
      success := success + 1;
      assert samples[success..] == was[success - 1..][1..] == was[success..];
      total := (total + elapsed) % TWO64;
      if success == 1 || elapsed < min {
        min := elapsed;
      }
      if elapsed > max {
        max := elapsed;
      }
    }
    assert shots[..|shots|] == shots;
    GoodReadings(shots, expected);
    GoodTotals(shots, expected, min, max, total);
  }

  lemma GoodTotals(shots: seq<Shot>, expected: u64, min: u64, max: u64, total: u64)
    requires Summary(Good(shots, expected), min, max, total)
    ensures IsMin(min, Good(shots, expected)) && IsMax(max, Good(shots, expected)) && TotalOf(total, shots, expected)
  {
    GoodTotal(shots, expected);
    TotalWraps(Sum(Good(shots, expected)), shots, expected);
  }

  lemma NothingYet(shots: seq<Shot>, expected: u64)
    ensures Good(shots[..0], expected) == [] && Summary([], 0, 0, 0)
  {
  }

  /** The extremes of the samples are the ends of their sorted order. */
  lemma EndsOfSorted(s: seq<u64>, min: u64, max: u64)
    requires s != [] && IsMin(min, s) && IsMax(max, s)
    ensures InsertionSort(s)[0] == min && InsertionSort(s)[|s| - 1] == max
  {
    SortCorrect(s);
    var t := InsertionSort(s);
    assert min in multiset(s) && max in multiset(s);
    assert min in t && max in t;
    assert t[0] in multiset(t) && t[|s| - 1] in multiset(t);
    assert t[0] in s && t[|s| - 1] in s;
  }

  /** `MedianOf` lies between the extremes. */
  lemma MedianBetween(s: seq<u64>, min: u64, max: u64)
    requires s != [] && IsMin(min, s) && IsMax(max, s)
    ensures min <= MedianOf(s) <= max
  {
    EndsOfSorted(s, min, max);
    SortCorrect(s);
  }

  /** One benchmark as `bench_run_latency` runs it: collect, then take the median. With at
      least one success the reported minimum and maximum are the ends of the sorted samples
      and enclose the median; if every operation returned its expected value, there are no
      failures and as many samples as iterations. */
  method Measure(samples: array<u64>, shots: seq<Shot>, expected: u64)
    returns (success: nat, min: u64, median: u64, max: u64, total: u64, failures: nat)
    requires |shots| <= samples.Length
    modifies samples
    ensures success + failures == |shots| && success == |Good(shots, expected)|
    ensures median == MedianOf(Good(shots, expected)) && IsMedian(median, samples[..success])
    ensures exists raw :: Readings(raw, shots, expected) && multiset(raw) == multiset(samples[..success])
    ensures TotalOf(total, shots, expected)
    ensures success > 0 ==>
              && Sorted(samples[..success]) && multiset(samples[..success]) == multiset(Good(shots, expected))
              && min == samples[0] && max == samples[success - 1] && min <= median <= max
    ensures (forall k :: 0 <= k < |shots| ==> shots[k].ret == expected) ==> failures == 0 && success == |shots|
  {
    success, min, max, total, failures := Collect(samples, shots, expected);
    median := Median(samples, success);
    ghost var good := Good(shots, expected);
    GoodReadings(shots, expected);
    if success > 0 {
      SortCorrect(good);
      EndsOfSorted(good, min, max);
      MedianBetween(good, min, max);
      assert samples[0] == samples[..success][0] && samples[success - 1] == samples[..success][success - 1];
    }
    if forall k :: 0 <= k < |shots| ==> shots[k].ret == expected {
      AllGood(shots, expected);
    }
  }

  lemma {:induction false} AllGood(shots: seq<Shot>, expected: u64)
    requires forall k :: 0 <= k < |shots| ==> shots[k].ret == expected
    ensures |Good(shots, expected)| == |shots|
  {
    if shots != [] {
      AllGood(shots[..|shots| - 1], expected);
    }
  }
}
