/** The EL0 sandbox as a flat byte store, the buffer range checks, and the
    forward byte copy every IPC path uses. */
module Memory {
  import opened Base

  /** The sandbox contents: byte `k` sits at address `SANDBOX_BASE + k`. */
  type Mem = m: seq<byte> | |m| == SANDBOX_SIZE witness seq(SANDBOX_SIZE, _ => 0)

  predicate InSandbox(a: int) {
    SANDBOX_BASE <= a < SANDBOX_END
  }

  /** `el0_buf_range_ok` (ipc.c), which `el0_write_range_ok` (syscall.c) mirrors:
      the subtraction is made only once `start` is known to be inside. */
  predicate RangeOk(ptr: u64, len: u64) {
    if ptr == 0 then false
    else if len == 0 then SANDBOX_BASE <= ptr && ptr < SANDBOX_END
    else if ptr < SANDBOX_BASE || ptr >= SANDBOX_END then false
    else !(len > SANDBOX_END - ptr)
  }

  /** The address of byte `k` of a buffer, as 64-bit pointer arithmetic computes it. */
  function ByteAddress(ptr: u64, k: nat): int {
    (ptr + k) % TWO64
  }

  /** The check accepts exactly the buffers that start in the sandbox and whose every
      byte lies there; no accepted range wraps around the 64-bit address space. */
  lemma RangeOkIsContainment(ptr: u64, len: u64)
    ensures RangeOk(ptr, len) <==>
              InSandbox(ptr) && forall k: nat :: k < len ==> InSandbox(ByteAddress(ptr, k))
    ensures RangeOk(ptr, len) ==> ptr + len <= SANDBOX_END < TWO64
  {
    if InSandbox(ptr) && !RangeOk(ptr, len) {
      assert !InSandbox(ByteAddress(ptr, SANDBOX_END - ptr));
    }
  }

  function Load(m: Mem, ptr: u64, len: nat): (bytes: seq<byte>)
    requires InSandbox(ptr) && ptr + len <= SANDBOX_END
    ensures |bytes| == len
  {
    m[ptr - SANDBOX_BASE..ptr - SANDBOX_BASE + len]
  }

  function Store(m: Mem, ptr: u64, bytes: seq<byte>): (r: Mem)
    requires InSandbox(ptr) && ptr + |bytes| <= SANDBOX_END
  {
    m[..ptr - SANDBOX_BASE] + bytes + m[ptr - SANDBOX_BASE + |bytes|..]
  }

  /** The bytes of `m` with the range `[d, d + n)` overwritten one byte at a time, in
      rising order, from `[s, s + n)` of the same store. */
  function ForwardCopy(m: seq<byte>, d: nat, s: nat, n: nat): (r: seq<byte>)
    requires d + n <= |m| && s + n <= |m|
    ensures |r| == |m|
  {
    if n == 0 then m
    else
      var done := ForwardCopy(m, d, s, n - 1);
      done[d + n - 1 := done[s + n - 1]]
  }

  /** Outside the destination nothing moves. Inside, unless the destination starts strictly
      inside the source, byte `k` is the byte the source held there before the copy. */
  lemma {:induction false} ForwardCopyAt(m: seq<byte>, d: nat, s: nat, n: nat, k: nat)
    requires d + n <= |m| && s + n <= |m| && k < |m|
    ensures !(d <= k < d + n) ==> ForwardCopy(m, d, s, n)[k] == m[k]
    ensures d <= k < d + n && !(s < d < s + n) ==> ForwardCopy(m, d, s, n)[k] == m[s + (k - d)]
  {
    if n > 0 {
      ForwardCopyAt(m, d, s, n - 1, k);
      if k == d + n - 1 {
        ForwardCopyAt(m, d, s, n - 1, s + n - 1);
      }
    }
  }

  /** A destination that starts `p` bytes into the source is filled with the first `p`
      source bytes over and over. */
  lemma {:induction false} ForwardCopyRepeats(m: seq<byte>, s: nat, p: nat, n: nat, k: nat)
    requires 0 < p && s + p + n <= |m| && k < n
    ensures ForwardCopy(m, s + p, s, n)[s + p + k] == m[s + k % p]
  {
    var prev := ForwardCopy(m, s + p, s, n - 1);
    if k < n - 1 {
      ForwardCopyRepeats(m, s, p, n - 1, k);
    } else if k < p {
      ForwardCopyAt(m, s + p, s, n - 1, s + k);
      assert prev[s + k] == m[s + k];
      ModSmall(k, p);
    } else {
      ForwardCopyRepeats(m, s, p, n - 1, k - p);
      assert prev[s + p + (k - p)] == m[s + (k - p) % p];
      ModStep(k, p);
    }
  }

  lemma ModSmall(a: nat, p: nat)
    requires a < p
    ensures a % p == a
  {
  }

  lemma MultipleIsFar(d: int, p: int)
    requires 0 < p
    ensures d >= 1 ==> d * p >= p
    ensures d <= -1 ==> d * p <= -p
  {
    if d >= 1 {
      assert d * p == (d - 1) * p + p;
    } else if d <= -1 {
      assert d * p == (d + 1) * p - p;
    }
  }

  lemma ModStep(a: nat, p: nat)
    requires 0 < p <= a
    ensures (a - p) % p == a % p
  {
    var d := a / p - 1 - (a - p) / p;
    assert d * p == (a - p) % p - a % p;
    MultipleIsFar(d, p);
  }

  /** Copying inside the sandbox, as `bytes_copy` does it. */
  function CopyWithin(m: Mem, dst: u64, src: u64, len: nat): (r: Mem)
    requires InSandbox(dst) && dst + len <= SANDBOX_END
    requires InSandbox(src) && src + len <= SANDBOX_END
  {
    ForwardCopy(m, dst - SANDBOX_BASE, src - SANDBOX_BASE, len)
  }

  /** When the destination does not start strictly inside the source, the copy stores the
      bytes the source held beforehand. */
  lemma CopyWithinIsStore(m: Mem, dst: u64, src: u64, len: nat)
    requires InSandbox(dst) && dst + len <= SANDBOX_END
    requires InSandbox(src) && src + len <= SANDBOX_END
    requires !(src < dst < src + len)
    ensures CopyWithin(m, dst, src, len) == Store(m, dst, Load(m, src, len))
  {
    var d, s := dst - SANDBOX_BASE, src - SANDBOX_BASE;
    forall k | 0 <= k < |m|
      ensures ForwardCopy(m, d, s, len)[k] == Store(m, dst, Load(m, src, len))[k]
    {
      ForwardCopyAt(m, d, s, len, k);
    }
  }
}
