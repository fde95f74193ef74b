/** Call/reply matching. An endpoint, seen through what its clients and its owner can
    observe, behaves as an abstract one-call-at-a-time remote procedure call. */
module Rpc {
  import opened Base
  import opened Overlap

  // ---------------------------------------------------------------- the abstract protocol

  /** An accepted request: who asked, the bytes at that moment, where the caller takes the reply
      and how many bytes of it, and whether it is a routed SYS_write (which is owed its length). */
  datatype Request = Request(slot: int, msg: seq<byte>, reply: u64, cap: u64, isWrite: bool)

  /** `Take` carries the bytes delivered, the room the owner offered, and how far the owner's
      buffer starts inside the bytes being sent (0 if it does not, and out of the queue). */
  datatype Act =
    | Ask(request: Request)
    | Take(bytes: seq<byte>, room: u64, gap: nat)
    | Answer(slot: int, len: u64, x0: u64)
    | Abort(slot: int, x0: u64)

  /** The call in progress, and the request the owner has not received yet. */
  datatype Protocol = Protocol(call: Option<Request>, untaken: Option<seq<byte>>)

  const QUIET: Protocol := Protocol(None, None)

  function Owed(c: Request, len: u64): int {
    if c.isWrite then |c.msg| else Min(len, c.cap)
  }

  /** The act delivers message `msg`, cut to the room, as a rising copy delivers it. */
  predicate Delivers(a: Act, msg: seq<byte>) {
    a.Take?
    && var cut := msg[..Min(|msg|, a.room)];
       (a.gap == 0 || a.gap < |cut|) && a.bytes == Arrives(cut, a.gap)
  }

  /** It delivers the message unharmed exactly when there is no overlap, or when the message
      repeats with that period anyway. */
  lemma DeliversIntact(a: Act, msg: seq<byte>)
    requires Delivers(a, msg)
    ensures var cut := msg[..Min(|msg|, a.room)];
            a.bytes == cut <==> Harmless(cut, a.gap)
  {
    IntactExactly(msg[..Min(|msg|, a.room)], a.gap);
  }

  /** The acts the protocol allows, and what they lead to. */
  function Act1(p: Protocol, a: Act): (r: Option<Protocol>) {
    match a
    case Ask(c) =>
      if p.call.None? && p.untaken.None? then Some(Protocol(Some(c), Some(c.msg))) else None
    case Take(_, _, _) =>
      if p.untaken.Some? && Delivers(a, p.untaken.value)
      then Some(p.(untaken := None)) else None
    case Answer(slot, len, x0) =>
      if p.call.Some? && p.call.value.slot == slot && x0 == Owed(p.call.value, len)
      then Some(p.(call := None)) else None
    case Abort(slot, x0) =>
      if p.call.Some? && p.call.value.slot == slot && x0 == MINUS_ONE then Some(QUIET) else None
  }

  function Acts(p: Protocol, acts: seq<Act>): (r: Option<Protocol>)
    decreases |acts|
  {
    if acts == [] then Some(p)
    else
      var q := Act1(p, acts[0]);
      if q.None? then None else Acts(q.value, acts[1..])
  }

  lemma {:induction false} ActsChain(p: Protocol, a: seq<Act>, b: seq<Act>)
    ensures Acts(p, a + b) == if Acts(p, a).None? then None else Acts(Acts(p, a).value, b)
    decreases |a|
  {
    if a == [] {
      assert a + b == b;
    } else {
      assert (a + b)[0] == a[0] && (a + b)[1..] == a[1..] + b;
      var q := Act1(p, a[0]);
      if q.Some? {
        ActsChain(q.value, a[1..], b);
      }
    }
  }

  lemma ActsSplit(acts: seq<Act>, j: nat)
    requires j < |acts| && Acts(QUIET, acts).Some?
    ensures Acts(QUIET, acts[..j]).Some?
    ensures Act1(Acts(QUIET, acts[..j]).value, acts[j]).Some?
    ensures Acts(QUIET, acts[..j + 1]) == Act1(Acts(QUIET, acts[..j]).value, acts[j])
  {
    assert acts == acts[..j] + acts[j..];
    ActsChain(QUIET, acts[..j], acts[j..]);
    assert acts[..j + 1] == acts[..j] + [acts[j]];
    ActsChain(QUIET, acts[..j], [acts[j]]);
    var p := Acts(QUIET, acts[..j]).value;
    assert acts[j..][0] == acts[j];
    assert Acts(p, [acts[j]]) == Act1(p, acts[j]) by {
      assert [acts[j]][1..] == [];
    }
  }

  /** `acts[i]` asked for `c`, and no later act but receptions followed. */
  ghost predicate OpenedAt(acts: seq<Act>, i: nat, c: Request) {
    i < |acts| && acts[i] == Ask(c) && forall m :: i < m < |acts| ==> acts[m].Take?
  }

  /** `acts[i]` asked with message `msg`, and it has been neither taken, aborted nor
      followed by another request. */
  ghost predicate QueuedAt(acts: seq<Act>, i: nat, msg: seq<byte>) {
    i < |acts| && acts[i].Ask? && acts[i].request.msg == msg && forall m :: i < m < |acts| ==> acts[m].Answer?
  }

  /** A request is open or queued only because of the last one asked. */
  lemma {:induction false} Origin(acts: seq<Act>, p: Protocol)
    requires Acts(QUIET, acts) == Some(p)
    ensures p.call.Some? ==> exists i :: OpenedAt(acts, i, p.call.value)
    ensures p.untaken.Some? ==> exists i :: QueuedAt(acts, i, p.untaken.value)
    ensures p.call.Some? && p.untaken.Some? ==> p.untaken.value == p.call.value.msg
    decreases |acts|
  {
    if acts != [] {
      var n := |acts| - 1;
      ActsSplit(acts, n);
      assert acts[..n + 1] == acts;
      var q := Acts(QUIET, acts[..n]).value;
      Origin(acts[..n], q);
      hide Acts, Delivers, Owed, QueuedAt, OpenedAt;
      if acts[n].Ask? {
        JustAsked(acts, p.call.value);
      } else {
        if p.call.Some? {
          var i :| OpenedAt(acts[..n], i, q.call.value);
          StaysOpen(acts, i, p.call.value);
        }
        if p.untaken.Some? {
          var i :| QueuedAt(acts[..n], i, q.untaken.value);
          StaysQueued(acts, i, p.untaken.value);
        }
      }
    }
  }

  lemma JustAsked(acts: seq<Act>, c: Request)
    requires acts != [] && acts[|acts| - 1] == Ask(c)
    ensures OpenedAt(acts, |acts| - 1, c) && QueuedAt(acts, |acts| - 1, c.msg)
  {
  }

  lemma StaysOpen(acts: seq<Act>, i: nat, c: Request)
    requires acts != [] && acts[|acts| - 1].Take? && OpenedAt(acts[..|acts| - 1], i, c)
    ensures OpenedAt(acts, i, c)
  {
  }

  lemma StaysQueued(acts: seq<Act>, i: nat, msg: seq<byte>)
    requires acts != [] && acts[|acts| - 1].Answer? && QueuedAt(acts[..|acts| - 1], i, msg)
    ensures QueuedAt(acts, i, msg)
  {
  }

  /** In any history the protocol allows, a completion goes to the task of the last request
      before it, with no other request or completion in between: its own reply's value, or
      -1 on an abort. So no request completes twice, and none completes unasked. */
  lemma CompletionMatches(acts: seq<Act>, j: nat)
    requires Acts(QUIET, acts).Some? && j < |acts| && (acts[j].Answer? || acts[j].Abort?)
    ensures exists i, c :: OpenedAt(acts[..j], i, c) && c.slot == acts[j].slot
              && acts[j].x0 == if acts[j].Answer? then Owed(c, acts[j].len) else MINUS_ONE
  {
    ActsSplit(acts, j);
    var p := Acts(QUIET, acts[..j]).value;
    Origin(acts[..j], p);
    var i :| OpenedAt(acts[..j], i, p.call.value);
  }

  /** What the owner receives is the message of the last request before it, cut to the
      owner's buffer, and no earlier act has received that message. It is that message byte
      for byte exactly when the buffers are harmless to each other. */
  lemma ReceptionMatches(acts: seq<Act>, j: nat)
    requires Acts(QUIET, acts).Some? && j < |acts| && acts[j].Take?
    ensures exists i, msg :: QueuedAt(acts[..j], i, msg) && Delivers(acts[j], msg)
              && (acts[j].bytes == msg[..Min(|msg|, acts[j].room)] <==>
                  Harmless(msg[..Min(|msg|, acts[j].room)], acts[j].gap))
  {
    ActsSplit(acts, j);
    var p := Acts(QUIET, acts[..j]).value;
    Origin(acts[..j], p);
    var i :| QueuedAt(acts[..j], i, p.untaken.value);
    DeliversIntact(acts[j], p.untaken.value);
  }

  /** While a call is open, either its message is still queued as captured, or the last
      reception is of that message. */
  lemma OpenCallIsQueuedOrTaken(acts: seq<Act>, p: Protocol)
    requires Acts(QUIET, acts) == Some(p) && p.call.Some?
    ensures p.untaken == Some(p.call.value.msg)
            || (acts != [] && Delivers(acts[|acts| - 1], p.call.value.msg))
  {
    hide Delivers;
    Origin(acts, p);
    if p.untaken.None? {
      var n := |acts| - 1;
      var i :| OpenedAt(acts, i, p.call.value);
      ActsSplit(acts, n);
      assert acts[..n + 1] == acts;
      Origin(acts[..n], Acts(QUIET, acts[..n]).value);
      LastTake(Acts(QUIET, acts[..n]).value, acts[n], p);
    }
  }

  lemma LastTake(q: Protocol, a: Act, p: Protocol)
    requires Act1(q, a) == Some(p) && p.call.Some? && p.untaken.None?
    requires q.call.Some? && q.untaken.Some? ==> q.untaken.value == q.call.value.msg
    ensures q.untaken.Some? ==> Delivers(a, p.call.value.msg)
  {
  }
}
