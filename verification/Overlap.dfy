/** What a rising byte copy delivers when the destination overlaps the source. */
module Overlap {
  import opened Base
  import opened Memory

  predicate RepeatsAt(bytes: seq<byte>, p: nat, i: nat)
    requires 0 < p
  {
    i < |bytes| ==> bytes[i] == bytes[i % p]
  }

  /** The bytes repeat with period `p`. */
  ghost predicate Repeats(bytes: seq<byte>, p: nat)
    requires 0 < p
  {
    forall i: nat :: RepeatsAt(bytes, p, i)
  }

  /** How far behind the source's start the destination starts, if strictly inside the
      source; 0 if it does not. */
  function Overtake(dst: u64, src: u64, n: nat): (gap: nat)
    ensures gap == 0 || gap < n
  {
    if src < dst < src + n then dst - src else 0
  }

  /** What arrives of `bytes` over such a distance: the bytes themselves, or their first
      `gap` over and over. */
  function Arrives(bytes: seq<byte>, gap: nat): (r: seq<byte>)
    requires gap == 0 || gap < |bytes|
    ensures |r| == |bytes|
    ensures forall i :: 0 <= i < |r| ==> r[i] == if gap == 0 then bytes[i] else bytes[i % gap]
  {
    if gap == 0 then bytes else seq(|bytes|, i requires 0 <= i => bytes[i % gap])
  }

  /** They arrive intact exactly without overlap, or when they repeat with that period. */
  ghost predicate Harmless(bytes: seq<byte>, gap: nat) {
    gap == 0 || Repeats(bytes, gap)
  }

  lemma IntactExactly(bytes: seq<byte>, gap: nat)
    requires gap == 0 || gap < |bytes|
    ensures Arrives(bytes, gap) == bytes <==> Harmless(bytes, gap)
  {
    if gap > 0 && Arrives(bytes, gap) == bytes {
      forall i: nat ensures RepeatsAt(bytes, gap, i) {
        assert i < |bytes| ==> Arrives(bytes, gap)[i] == bytes[i % gap];
      }
    }
    if gap > 0 && Repeats(bytes, gap) {
      forall i: nat | i < |bytes| ensures Arrives(bytes, gap)[i] == bytes[i] {
        assert RepeatsAt(bytes, gap, i);
      }
    }
  }

  lemma StoreByte(m: Mem, dst: u64, bytes: seq<byte>, k: nat)
    requires InSandbox(dst) && dst + |bytes| <= SANDBOX_END && k < |m|
    ensures Store(m, dst, bytes)[k] ==
              var d := dst - SANDBOX_BASE; if d <= k < d + |bytes| then bytes[k - d] else m[k]
  {
  }

  /** Every copy inside the sandbox, overlapping or not, told as a store. */
  lemma CopyDelivers(m: Mem, dst: u64, src: u64, n: nat)
    requires InSandbox(dst) && dst + n <= SANDBOX_END && InSandbox(src) && src + n <= SANDBOX_END
    ensures CopyWithin(m, dst, src, n) == Store(m, dst, Arrives(Load(m, src, n), Overtake(dst, src, n)))
  {
    var gap := Overtake(dst, src, n);
    if gap == 0 {
      CopyWithinIsStore(m, dst, src, n);
    } else {
      var bytes := Arrives(Load(m, src, n), gap);
      forall k | 0 <= k < |m| ensures CopyWithin(m, dst, src, n)[k] == Store(m, dst, bytes)[k] {
        StoreByte(m, dst, bytes, k);
        var d := dst - SANDBOX_BASE;
        if d <= k < d + n {
          ForwardCopyRepeats(m, src - SANDBOX_BASE, gap, n, k - d);
        } else {
          ForwardCopyAt(m, d, src - SANDBOX_BASE, n, k);
        }
      }
    }
  }

  lemma StoreOneToOne(m: Mem, dst: u64, a: seq<byte>, b: seq<byte>)
    requires InSandbox(dst) && |a| == |b| && dst + |a| <= SANDBOX_END
    ensures Store(m, dst, a) == Store(m, dst, b) <==> a == b
  {
    if Store(m, dst, a) == Store(m, dst, b) {
      forall i | 0 <= i < |a| ensures a[i] == b[i] {
        StoreByte(m, dst, a, dst - SANDBOX_BASE + i);
        StoreByte(m, dst, b, dst - SANDBOX_BASE + i);
      }
    }
  }

  /** The direct copy and the copy through a queue leave the same memory exactly when the
      bytes arrive intact. */
  lemma CopyAgreesExactly(m: Mem, dst: u64, src: u64, n: nat)
    requires InSandbox(dst) && dst + n <= SANDBOX_END && InSandbox(src) && src + n <= SANDBOX_END
    ensures CopyWithin(m, dst, src, n) == Store(m, dst, Load(m, src, n)) <==>
            Harmless(Load(m, src, n), Overtake(dst, src, n))
  {
    var bytes, gap := Load(m, src, n), Overtake(dst, src, n);
    CopyDelivers(m, dst, src, n);
    IntactExactly(bytes, gap);
    StoreOneToOne(m, dst, Arrives(bytes, gap), bytes);
  }
}
