/** One multiplexed stream: its inbound queue, its half-closes and its death. */
module MuxStream {
  import opened Bytes
  import opened Wrappers

  const MAX_INBOUND := 8 * 0x10_0000

  /** Why a stream stopped working. */
  datatype Cause = ResetBy(reason: seq<byte>) | RefusedBy(reason: seq<byte>) | SessionFailed | ClosedPipe

  /** What an Open call is waiting for: the first answer settles it. */
  datatype Answer = Unanswered | Granted | Denied(cause: Cause)

  datatype Stream = Stream(queue: seq<seq<byte>>, queued: nat, peerClosed: bool, writeClosed: bool,
                           dead: bool, err: Option<Cause>, answer: Answer)

  datatype Delivery = Queued | Ignored | Overflow
  datatype ReadOutcome = Chunk(data: seq<byte>) | EndOfStream | ReadFailed(cause: Cause) | Blocked
  datatype WriteCheck = MayWrite | WriteFailed(cause: Cause) | WriteAfterClose

  const NEW_STREAM := Stream([], 0, false, false, false, None, Unanswered)

  function Flatten(q: seq<seq<byte>>): seq<byte> {
    if q == [] then [] else q[0] + Flatten(q[1..])
  }

  function Deliver(s: Stream, p: seq<byte>): (Stream, Delivery) {
    if s.dead || s.peerClosed then (s, Ignored)
    else if s.queued + |p| > MAX_INBOUND then (s, Overflow)
    else (s.(queue := s.queue + [p], queued := s.queued + |p|), Queued)
  }

  function PeerClose(s: Stream): Stream { s.(peerClosed := true) }

  function Settle(s: Stream, a: Answer): Stream {
    if s.answer.Unanswered? then s.(answer := a) else s
  }

  function MarkDead(s: Stream, c: Cause): Stream {
    if s.dead then s
    else Settle(s.(dead := true, err := Some(c), queue := [], queued := 0), Denied(c))
  }

  /** One look at the queue by a Read into a buffer of n bytes. */
  function Read(s: Stream, n: nat): (Stream, ReadOutcome)
    requires Consistent(s)
  {
    if |s.queue| > 0 then
      var head := s.queue[0];
      var k := if n < |head| then n else |head|;
      FlattenLength(s.queue);
      (s.(queue := if k == |head| then s.queue[1..] else [head[k..]] + s.queue[1..], queued := s.queued - k),
       Chunk(head[..k]))
    else if s.dead then (s, ReadFailed(s.err.value))
    else if s.peerClosed then (s, EndOfStream)
    else (s, Blocked)
  }

  function CheckWrite(s: Stream): WriteCheck
    requires Consistent(s)
  {
    if s.dead then WriteFailed(s.err.value) else if s.writeClosed then WriteAfterClose else MayWrite
  }

  /** CloseWrite up to the CLOSE frame: whether one is to be sent. */
  function CloseWriting(s: Stream): (Stream, bool) {
    if s.dead || s.writeClosed then (s, false) else (s.(writeClosed := true), true)
  }

  /** The accounting every operation keeps: the count is the bytes waiting, bounded; a dead stream holds nothing. */
  predicate Consistent(s: Stream) {
    && s.queued == |Flatten(s.queue)| <= MAX_INBOUND
    && (s.dead ==> s.queue == [] && s.err.Some?)
  }

  lemma {:induction false} FlattenAppend(q: seq<seq<byte>>, p: seq<byte>)
    ensures Flatten(q + [p]) == Flatten(q) + p
  {
    if q == [] {
      assert Flatten([p]) == p + Flatten([p][1..]);
      assert q + [p] == [p];
    } else {
      FlattenAppend(q[1..], p);
      assert (q + [p])[1..] == q[1..] + [p];
    }
  }

  lemma FlattenLength(q: seq<seq<byte>>)
    requires q != []
    ensures |Flatten(q)| == |q[0]| + |Flatten(q[1..])|
  {
  }

  /**
   * A payload reaching a live stream its peer has not closed is queued whole or overflows: never
   * trimmed, never silently lost.
   */
  lemma DeliverWholeOrOverflow(s: Stream, p: seq<byte>)
    requires Consistent(s)
    ensures var (t, d) := Deliver(s, p);
            && Consistent(t)
            && (d.Ignored? <==> s.dead || s.peerClosed)
            && (d.Overflow? <==> !s.dead && !s.peerClosed && |Flatten(s.queue)| + |p| > 8_388_608)
            && Flatten(t.queue) == (if d.Queued? then Flatten(s.queue) + p else Flatten(s.queue))
            && t.(queue := s.queue, queued := s.queued) == s
  {
    FlattenAppend(s.queue, p);
  }

  /** Taking n bytes of the head chunk, all of it or part, takes them from the front of what waits. */
  lemma TakeHead(q: seq<seq<byte>>, k: nat)
    requires q != [] && k <= |q[0]|
    ensures var rest := if k == |q[0]| then q[1..] else [q[0][k..]] + q[1..];
            q[0][..k] + Flatten(rest) == Flatten(q)
  {
  }

  /**
   * Read hands out the front of what waits, at most n bytes, and leaves the rest; it answers EOF only
   * for a live, drained, peer-closed stream.
   */
  lemma ReadTakesFront(s: Stream, n: nat)
    requires Consistent(s)
    ensures var (t, r) := Read(s, n);
            && Consistent(t)
            && (r.Chunk? ==> |r.data| <= n && r.data + Flatten(t.queue) == Flatten(s.queue) && !s.dead)
            && (!r.Chunk? ==> t == s)
            && (r.EndOfStream? <==> s.queue == [] && !s.dead && s.peerClosed)
            && (r.ReadFailed? <==> s.dead)
            && (r.Chunk? && n > 0 && r.data == [] ==> s.queue[0] == [])
            && t.(queue := s.queue, queued := s.queued) == s
  {
    if s.queue != [] {
      var k := if n < |s.queue[0]| then n else |s.queue[0]|;
      TakeHead(s.queue, k);
    }
  }

  /** The first cause of death is the one reported, and it settles an unanswered Open. */
  lemma FirstDeathWins(s: Stream, c: Cause, d: Cause)
    requires Consistent(s)
    ensures Consistent(MarkDead(s, c)) && MarkDead(MarkDead(s, c), d) == MarkDead(s, c)
    ensures !MarkDead(s, c).answer.Unanswered? || s.dead
    ensures !s.dead && s.answer.Unanswered? ==> MarkDead(s, c).answer == Denied(c)
  {
  }

  /** The stream as the program holds it: each method is one critical section under its mutex. */
  class Conn {
    var queue: seq<seq<byte>>
    var queued: nat
    var peerClosed: bool
    var writeClosed: bool
    var dead: bool
    var err: Option<Cause>
    var answer: Answer

    ghost function State(): Stream reads this {
      Stream(queue, queued, peerClosed, writeClosed, dead, err, answer)
    }

    constructor ()
      ensures State() == NEW_STREAM
    {
      queue, queued, peerClosed, writeClosed, dead, err, answer := [], 0, false, false, false, None, Unanswered;
    }

    method DeliverBytes(p: seq<byte>) returns (d: Delivery)
      modifies this
      ensures (State(), d) == Deliver(old(State()), p)
    {
      if dead || peerClosed {
        return Ignored;
      }
      if queued + |p| > MAX_INBOUND {
        return Overflow;
      }
      queue := queue + [p];
      queued := queued + |p|;
      return Queued;
    }

    method ClosedByPeer() returns (both: bool)
      modifies this
      ensures State() == PeerClose(old(State())) && both == writeClosed
    {
      peerClosed := true;
      both := writeClosed;
    }

    method Answered(a: Answer)
      modifies this
      ensures State() == Settle(old(State()), a)
    {
      if answer.Unanswered? {
        answer := a;
      }
    }

    method Kill(c: Cause)
      modifies this
      ensures State() == MarkDead(old(State()), c)
    {
      if !dead {
        dead, err := true, Some(c);
        queue, queued := [], 0;
        Answered(Denied(c));
      }
    }

    /** One pass of Read over the queue, copying into buf. */
    method ReadInto(buf: array<byte>) returns (r: ReadOutcome)
      requires Consistent(State())
      modifies this, buf
      ensures (State(), r) == Read(old(State()), buf.Length)
      ensures r.Chunk? ==> |r.data| <= buf.Length && buf[..|r.data|] == r.data
      ensures buf[if r.Chunk? then |r.data| else 0..] == old(buf[..])[if r.Chunk? then |r.data| else 0..]
    {
      if |queue| > 0 {
        var head := queue[0];
        FlattenLength(queue);
        var n := if buf.Length < |head| then buf.Length else |head|;
        ghost var was := buf[..];
        for i := 0 to n
          invariant State() == old(State())
          invariant buf[..i] == head[..i] && buf[i..] == was[i..]
        {
          buf[i] := head[i];
        }
        if n == |head| {
          queue := queue[1..];
        } else {
          queue := queue[0 := head[n..]];
          assert queue == [head[n..]] + old(queue)[1..];
        }
        queued := queued - n;
        return Chunk(head[..n]);
      }
      if dead {
        return ReadFailed(err.value);
      }
      if peerClosed {
        return EndOfStream;
      }
      return Blocked;
    }

    method BeginCloseWrite() returns (send: bool, both: bool)
      modifies this
      ensures (State(), send) == CloseWriting(old(State())) && both == peerClosed
    {
      both := peerClosed;
      if dead || writeClosed {
        return false, both;
      }
      writeClosed := true;
      send := true;
    }
  }
}
