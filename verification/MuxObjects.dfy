/**
 * The session and the sending half of a stream as the objects the program
 * holds, each critical section tied to the step that stands for it.
 */
module MuxObjects {
  import opened Bytes
  import opened Wrappers
  import opened FrameCodec
  import opened MuxStream
  import opened MuxSession

  /** A session: its stream table, its next id, its accept queue and its read loop. */
  class Mux {
    const opener: bool
    var entries: map<uint32, Entry>
    var table: set<uint32>
    var nextID: uint32
    ghost var opens: nat
    var failed: bool
    var dooms: set<uint32>
    var closed: bool
    var backlog: seq<uint32>
    var loop: Task
    var stopped: bool
    var violated: bool
    var threads: map<nat, Task>

    ghost function Value(): Session reads this {
      Session(opener, entries, table, opens, failed, dooms, closed, backlog, loop, stopped, violated, threads)
    }

    /** The id counter is the count of opens, wrapped to 32 bits. */
    ghost predicate Valid() reads this { nextID == NextID(Value()) }

    constructor (asOpener: bool)
      ensures Valid() && Value() == NewSession(asOpener)
    {
      opener := asOpener;
      entries, table, nextID, opens := map[], {}, 1, 0;
      failed, dooms, closed, backlog := false, {}, false, [];
      loop, stopped, violated, threads := Done, false, false, map[];
    }

    /** Open's section: a fresh id and its stream in the table. */
    method RegisterStream() returns (id: uint32)
      requires Valid()
      modifies this
      ensures Valid() && Value() == Register(old(Value())) && id == old(nextID)
    {
      id := nextID;
      nextID := (nextID as int + 2) % 0x1_0000_0000;
      entries := entries[id := NewEntry(Registered)];
      table := table + {id};
      opens := opens + 1;
    }

    /** fail's section, once: the table is emptied and its streams are left to be marked dead. */
    method FailOnce()
      requires Valid()
      modifies this
      ensures Valid() && Value() == Fail(old(Value()))
    {
      if !failed {
        failed, dooms := true, table;
        table := {};
      }
    }

    method Remove(id: uint32)
      requires Valid()
      modifies `table
      ensures Valid() && table == old(table) - {id}
    {
      table := table - {id};
    }

    method ProtocolError()
      requires Valid()
      modifies this
      ensures Valid() && Value() == Violation(old(Value()))
    {
      loop, stopped, violated := SendThen(ResetFrame(0, []), true), true, true;
    }

    /** The peer's OPEN: an id of its own, odd and not in use, and a place in the backlog or "busy". */
    method HandleOpen(id: uint32)
      requires Valid()
      modifies this
      ensures Valid() && Value() == DispatchOpen(old(Value()), id)
    {
      if opener || id == 0 || id % 2 == 0 || id in table {
        ProtocolError();
        return;
      }
      table := table + {id};
      if |backlog| < ACCEPT_BACKLOG {
        entries := entries[id := NewEntry(Offered)];
        backlog := backlog + [id];
      } else {
        entries := entries[id := NewEntry(Gone)];
        loop := RemoveThenMark(id, RefusedBy(BUSY), Some(Frame(TYPE_REFUSE, id, BUSY)));
      }
    }

    /** One pass of the read loop over a frame. */
    method HandleFrame(f: Frame)
      requires Valid() && loop.Done? && !stopped
      modifies this
      ensures Valid() && Value() == Dispatch(old(Value()), f)
    {
      if f.ty == TYPE_OPEN {
        HandleOpen(f.stream);
      } else if f.ty == TYPE_DATA {
        if f.stream in table {
          loop := HandData(f.stream, f.payload);
        } else if f.stream in entries {
          entries := entries[f.stream := entries[f.stream].(lost := true)];
        }
      } else if f.ty == TYPE_ACCEPT || f.ty == TYPE_REFUSE || f.ty == TYPE_CLOSE || f.ty == TYPE_RESET {
        HandleControl(f);
      } else {
        ProtocolError();
      }
    }

    method HandleControl(f: Frame)
      requires Valid()
      modifies this
      ensures Valid() && Value() == old(Value()).(loop := ControlTask(old(Value()), f).0,
              stopped := ControlTask(old(Value()), f).1)
    {
      loop, stopped := Done, false;
      if f.ty == TYPE_RESET && f.stream == 0 {
        loop, stopped := FailNow, true;
      } else if f.stream in table {
        if f.ty == TYPE_CLOSE {
          loop := HandClose(f.stream);
        } else if f.ty == TYPE_RESET {
          loop := RemoveThenMark(f.stream, ResetBy(f.payload), None);
        } else {
          loop := HandAnswer(f.stream, if f.ty == TYPE_REFUSE then Denied(RefusedBy(f.payload)) else Granted);
        }
      }
    }

    /** The program takes the oldest offer. */
    method TakeOffered() returns (id: uint32)
      requires Valid() && backlog != [] && backlog[0] in entries
      modifies this
      ensures Valid() && Value() == Accept(old(Value())) && id == old(backlog)[0]
    {
      id := backlog[0];
      entries := entries[id := entries[id].(phase := Taken)];
      backlog := backlog[1..];
    }
  }

  // ---- writing ---------------------------------------------------------------------

  /** The payloads a write is cut into. */
  function Chunks(p: seq<byte>): seq<seq<byte>>
    decreases |p|
  {
    if p == [] then [] else if |p| <= MAX_PAYLOAD then [p] else [p[..MAX_PAYLOAD]] + Chunks(p[MAX_PAYLOAD..])
  }

  function DataFrames(id: uint32, p: seq<byte>): (fs: seq<Frame>)
    ensures AllValid(fs)
  {
    ChunksJoin(p);
    seq(|Chunks(p)|, i requires 0 <= i < |Chunks(p)| => Frame(TYPE_DATA, id, Chunks(p)[i]))
  }

  /** The chunks are the bytes written, each fit for a frame and none empty. */
  lemma {:induction false} ChunksJoin(p: seq<byte>)
    ensures Flatten(Chunks(p)) == p
    ensures forall i :: 0 <= i < |Chunks(p)| ==> 0 < |Chunks(p)[i]| <= MAX_PAYLOAD
    decreases |p|
  {
    if |p| > MAX_PAYLOAD {
      var rest := Chunks(p[MAX_PAYLOAD..]);
      ChunksJoin(p[MAX_PAYLOAD..]);
      assert Chunks(p)[1..] == rest;
      assert forall i :: 1 <= i < |Chunks(p)| ==> Chunks(p)[i] == rest[i - 1];
    } else if p != [] {
      assert Chunks(p)[1..] == [];
    }
  }

  lemma FirstFrame(id: uint32, p: seq<byte>)
    requires p != []
    ensures var n := if |p| < MAX_PAYLOAD then |p| else MAX_PAYLOAD;
            DataFrames(id, p) == [Frame(TYPE_DATA, id, p[..n])] + DataFrames(id, p[n..])
  {
    var n := if |p| < MAX_PAYLOAD then |p| else MAX_PAYLOAD;
    if |p| <= MAX_PAYLOAD {
      assert p[..n] == p && p[n..] == [] && Chunks(p[n..]) == [];
    }
    assert Chunks(p) == [p[..n]] + Chunks(p[n..]);
    var fs, gs := DataFrames(id, p), [Frame(TYPE_DATA, id, p[..n])] + DataFrames(id, p[n..]);
    assert forall i :: 0 <= i < |fs| ==> fs[i] == gs[i];
  }

  /** The first written bytes of p have gone out behind was, as the first of its frames. */
  ghost predicate Underway(id: uint32, p: seq<byte>, written: nat, sent: seq<Frame>, was: seq<byte>, sink: seq<byte>) {
    && written <= |p| && AllValid(sent) && (written == 0 ==> sent == [])
    && sent + DataFrames(id, p[written..]) == DataFrames(id, p) && sink == was + EncodeAll(sent)
  }

  /** One more frame of what is left to write. */
  lemma SendOne(id: uint32, p: seq<byte>, written: nat, sent: seq<Frame>, was: seq<byte>, sink: seq<byte>, n: nat)
    requires Underway(id, p, written, sent, was, sink) && written < |p|
    requires n == if |p| - written < MAX_PAYLOAD then |p| - written else MAX_PAYLOAD
    ensures var f := Frame(TYPE_DATA, id, p[written..][..n]);
            f.Valid() && Underway(id, p, written + n, sent + [f], was, sink + Wire(f))
  {
    var rest := p[written..];
    var f := Frame(TYPE_DATA, id, rest[..n]);
    FirstFrame(id, rest);
    EncodeAllAppend(sent, f);
    assert rest[n..] == p[written + n..];
    assert sent + ([f] + DataFrames(id, rest[n..])) == (sent + [f]) + DataFrames(id, rest[n..]);
    assert was + EncodeAll(sent) + Wire(f) == was + (EncodeAll(sent) + Wire(f));
  }

  lemma AllSent(id: uint32, p: seq<byte>, sent: seq<Frame>, was: seq<byte>, sink: seq<byte>)
    requires Underway(id, p, |p|, sent, was, sink)
    ensures sink == was + EncodeAll(DataFrames(id, p))
  {
    assert sent + [] == sent;
  }

  /** The sending half of a stream over a connection that takes every frame. */
  class Sender {
    const id: uint32
    const conn: Conn
    const w: FrameCodec.Writer

    constructor (stream: uint32, c: Conn, out: FrameCodec.Writer)
      ensures id == stream && conn == c && w == out
    {
      id, conn, w := stream, c, out;
    }

    /**
     * Write: the bytes go out in frames of at most MAX_PAYLOAD, or none when
     * the stream is dead or closed for writing; nothing to write is no error.
     */
    method Write(p: seq<byte>) returns (written: nat, check: WriteCheck)
      requires Consistent(conn.State())
      modifies w
      ensures check == if p == [] then MayWrite else CheckWrite(conn.State())
      ensures written == if check.MayWrite? then |p| else 0
      ensures w.sink == old(w.sink) + if check.MayWrite? then EncodeAll(DataFrames(id, p)) else []
    {
      written := 0;
      var rest := p;
      ghost var was, sent := w.sink, [];
      assert Underway(id, p, 0, sent, was, w.sink);
      while rest != []
        invariant written <= |p| && rest == p[written..]
        invariant Underway(id, p, written, sent, was, w.sink)
        invariant written > 0 ==> CheckWrite(conn.State()).MayWrite?
        decreases |rest|
      {
        if conn.dead {
          return written, WriteFailed(conn.err.value);
        }
        if conn.writeClosed {
          return written, WriteAfterClose;
        }
        var n := if |rest| < MAX_PAYLOAD then |rest| else MAX_PAYLOAD;
        var f := Frame(TYPE_DATA, id, rest[..n]);
        SendOne(id, p, written, sent, was, w.sink, n);
        var ok := w.Write(f);
        sent := sent + [f];
        written := written + n;
        rest := rest[n..];
      }
      AllSent(id, p, sent, was, w.sink);
      check := MayWrite;
    }
  }

  /** What the peer decodes from a write is frames of this stream whose payloads are the bytes written. */
  lemma WriteDecodes(id: uint32, p: seq<byte>)
    ensures var frames := DecodeAll(EncodeAll(DataFrames(id, p))).0;
            && frames == DataFrames(id, p)
            && Flatten(seq(|frames|, i requires 0 <= i < |frames| => frames[i].payload)) == p
  {
    ChunksJoin(p);
    var fs := DataFrames(id, p);
    var last := Frame(TYPE_CLOSE, id, []);
    assert Wire(last) != [] && [] < Wire(last);
    StreamRoundTrip(fs, last, []);
    assert EncodeAll(fs) + [] == EncodeAll(fs);
    assert seq(|fs|, i requires 0 <= i < |fs| => fs[i].payload) == Chunks(p);
  }
}
