/**
 * Two sessions joined by two pipes of frames. The steps of both interleave in
 * any order; writes and reads may fail at any moment.
 */
module MuxSystem {
  import opened Bytes
  import opened Wrappers
  import opened FrameCodec
  import opened MuxStream
  import opened MuxSession
  import opened MuxInvariant

  datatype System = System(a: Session, b: Session, ab: Pipe, ba: Pipe)

  /** Session a opens streams, session b accepts them. */
  const INITIAL := System(NewSession(true), NewSession(false), Pipe([], false), Pipe([], false))

  /** One step of one side, if it can be taken. */
  function Next(s: System, byOpener: bool, ev: Event): System {
    if byOpener then
      if Enabled(s.a, s.ba, ev) then var (a, ab, ba) := Step(s.a, s.ab, s.ba, ev); System(a, s.b, ab, ba) else s
    else
      if Enabled(s.b, s.ab, ev) then var (b, ba, ab) := Step(s.b, s.ba, s.ab, ev); System(s.a, b, ab, ba) else s
  }

  /** The state after a run: any sequence of steps of either side. */
  function Run(evs: seq<(bool, Event)>): System {
    if evs == [] then INITIAL
    else var last := evs[|evs| - 1]; Next(Run(evs[..|evs| - 1]), last.0, last.1)
  }

  // ---- one stream in one direction ---------------------------------------------------

  /** What matters of the sending end: whether frames may carry the id, and what was written. */
  datatype Tx = Tx(known: bool, sent: seq<byte>, closed: bool)

  /** What the read loop has in hand for the stream. */
  datatype Hand = Nothing | InHand(data: seq<byte>) | CloseInHand | Leaving

  datatype Rx = Rx(known: bool, recv: seq<byte>, lost: bool, dead: bool, peerClosed: bool, inTable: bool, hand: Hand)

  function TxOf(s: Session, i: uint32): Tx {
    if Known(s, i) then Tx(true, s.entries[i].sent, s.entries[i].closeSent) else Tx(false, [], false)
  }

  function HandOf(t: Task, i: uint32): Hand {
    match t
    case HandData(j, p) => if i == j then InHand(p) else Nothing
    case HandClose(j) => if i == j then CloseInHand else Nothing
    case ResetCheck(j, _) => if i == j then Leaving else Nothing
    case RemoveThenMark(j, _, _) => if i == j then Leaving else Nothing
    case _ => Nothing
  }

  function RxOf(s: Session, i: uint32): Rx {
    if i in s.entries then
      var e := s.entries[i];
      Rx(Known(s, i), e.recv, e.lost, e.st.dead, e.st.peerClosed, i in s.table, HandOf(s.loop, i))
    else Rx(false, [], false, false, false, false, Nothing)
  }

  /** The frames for stream i, in order. */
  function OfStream(fs: seq<Frame>, i: uint32): seq<Frame> {
    if fs == [] then []
    else if fs[0].stream == i then [fs[0]] + OfStream(fs[1..], i)
    else OfStream(fs[1..], i)
  }

  /** The payload bytes the frames carry. */
  function DataOf(fs: seq<Frame>): seq<byte> {
    if fs == [] then []
    else (if fs[0].ty == TYPE_DATA then fs[0].payload else []) + DataOf(fs[1..])
  }

  function HeldBytes(h: Hand): seq<byte> { if h.InHand? then h.data else [] }

  /** A stream that has lost bytes will not take or finish any more. */
  predicate Deaf(rx: Rx) {
    || rx.dead
    || (!rx.peerClosed && !rx.hand.InHand? && !rx.hand.CloseInHand? && (!rx.inTable || rx.hand.Leaving?))
  }

  predicate Types(fs: seq<Frame>, fromOpener: bool) {
    forall k :: 0 <= k < |fs| ==>
      && TYPE_OPEN <= fs[k].ty <= TYPE_RESET
      && (fs[k].ty == TYPE_OPEN ==> fromOpener && k == 0)
  }

  /** Nothing is carried after the CLOSE. */
  predicate CloseEndsData(fs: seq<Frame>) {
    forall j, k :: 0 <= j < k < |fs| && fs[j].ty == TYPE_CLOSE ==> fs[k].ty != TYPE_DATA && fs[k].ty != TYPE_CLOSE
  }

  predicate NoData(fs: seq<Frame>) { forall k :: 0 <= k < |fs| ==> fs[k].ty != TYPE_DATA }

  predicate HasClosing(fs: seq<Frame>) { exists k :: 0 <= k < |fs| && fs[k].ty == TYPE_CLOSE }

  /** The invariant of one stream in one direction, over the frames in flight for it. */
  predicate Flow(tx: Tx, rx: Rx, fs: seq<Frame>, fromOpener: bool) {
    && Types(fs, fromOpener) && CloseEndsData(fs)
    && (HasClosing(fs) ==> tx.closed)
    && (!tx.known ==> fs == [])
    && (if fromOpener then
          && (rx.known ==> tx.known && (fs == [] || fs[0].ty != TYPE_OPEN))
          && (tx.known && !rx.known ==> fs != [] && fs[0].ty == TYPE_OPEN)
        else tx.known ==> rx.known)
    && (!rx.known ==> rx.recv == [] && !rx.lost && !rx.peerClosed && rx.hand.Nothing?)
    && (rx.peerClosed || rx.hand.CloseInHand? ==>
          tx.closed && !HasClosing(fs) && NoData(fs) && !rx.hand.InHand?)
    && (if rx.lost then rx.recv <= tx.sent && Deaf(rx)
        else rx.recv + HeldBytes(rx.hand) + DataOf(fs) == tx.sent)
  }

  /** Both ends of one direction, for every stream; stream 0 carries only a last RESET. */
  ghost predicate Joined(x: Session, y: Session, p: Pipe) {
    && x.opener != y.opener
    && (forall i: uint32 {:trigger OfStream(p.frames, i)} ::
          i != 0 ==> Flow(TxOf(x, i), RxOf(y, i), OfStream(p.frames, i), x.opener))
    && (forall k :: 0 <= k < |p.frames| ==> p.frames[k].Valid() && (p.frames[k].stream == 0 ==> p.frames[k].ty == TYPE_RESET))
  }

  ghost predicate Inv(s: System) {
    && s.a.opener && !s.b.opener
    && Local(s.a) && Local(s.b)
    && Joined(s.a, s.b, s.ab) && Joined(s.b, s.a, s.ba)
  }

  // ---- frames in flight ----------------------------------------------------------------

  lemma {:induction false} OfStreamAppend(fs: seq<Frame>, f: Frame, i: uint32)
    ensures OfStream(fs + [f], i) == OfStream(fs, i) + (if f.stream == i then [f] else [])
  {
    if fs == [] {
      assert fs + [f] == [f] && [f][1..] == [];
    } else {
      OfStreamAppend(fs[1..], f, i);
      assert (fs + [f])[1..] == fs[1..] + [f];
    }
  }

  lemma {:induction false} DataOfAppend(fs: seq<Frame>, f: Frame)
    ensures DataOf(fs + [f]) == DataOf(fs) + (if f.ty == TYPE_DATA then f.payload else [])
  {
    if fs == [] {
      assert fs + [f] == [f] && [f][1..] == [];
    } else {
      DataOfAppend(fs[1..], f);
      assert (fs + [f])[1..] == fs[1..] + [f];
    }
  }

  lemma {:induction false} NoDataNothing(fs: seq<Frame>)
    requires NoData(fs)
    ensures DataOf(fs) == []
  {
    if fs != [] {
      NoDataNothing(fs[1..]);
    }
  }

  // ---- one stream: what each kind of step does to the flow ---------------------------------

  lemma AppendFacts(fs: seq<Frame>, f: Frame)
    ensures HasClosing(fs + [f]) <==> HasClosing(fs) || f.ty == TYPE_CLOSE
    ensures NoData(fs + [f]) <==> NoData(fs) && f.ty != TYPE_DATA
    ensures CloseEndsData(fs) && (f.ty in {TYPE_DATA, TYPE_CLOSE} ==> !HasClosing(fs)) ==> CloseEndsData(fs + [f])
  {
    var t := fs + [f];
    assert t[|fs|] == f;
    assert forall k :: 0 <= k < |fs| ==> t[k] == fs[k];
    if HasClosing(fs) {
      var k :| 0 <= k < |fs| && fs[k].ty == TYPE_CLOSE;
      assert t[k].ty == TYPE_CLOSE;
    }
    if HasClosing(t) && f.ty != TYPE_CLOSE {
      var k :| 0 <= k < |t| && t[k].ty == TYPE_CLOSE;
      assert fs[k].ty == TYPE_CLOSE;
    }
  }

  /** The sender appends one frame. */
  lemma FlowPut(tx: Tx, rx: Rx, fs: seq<Frame>, fromOpener: bool, f: Frame, tx': Tx)
    requires Flow(tx, rx, fs, fromOpener) && tx'.known
    requires tx.known || (fromOpener && f.ty == TYPE_OPEN && fs == [] && !rx.known)
    requires tx.known ==> f.ty in {TYPE_ACCEPT, TYPE_REFUSE, TYPE_DATA, TYPE_CLOSE, TYPE_RESET}
    requires f.ty in {TYPE_DATA, TYPE_CLOSE} ==> !tx.closed
    requires tx'.sent == tx.sent + (if f.ty == TYPE_DATA then f.payload else [])
    requires tx'.closed == (tx.closed || f.ty == TYPE_CLOSE)
    ensures Flow(tx', rx, fs + [f], fromOpener)
  {
    AppendFacts(fs, f);
    PutBytes(tx, rx, fs, f, tx');
    AppendTypes(fs, f, fromOpener);
  }

  lemma AppendTypes(fs: seq<Frame>, f: Frame, fromOpener: bool)
    requires Types(fs, fromOpener) && TYPE_OPEN <= f.ty <= TYPE_RESET
    requires f.ty == TYPE_OPEN ==> fromOpener && fs == []
    ensures Types(fs + [f], fromOpener) && (fs + [f])[0] == if fs == [] then f else fs[0]
  {
  }

  lemma PutBytes(tx: Tx, rx: Rx, fs: seq<Frame>, f: Frame, tx': Tx)
    requires if rx.lost then rx.recv <= tx.sent && Deaf(rx) else rx.recv + HeldBytes(rx.hand) + DataOf(fs) == tx.sent
    requires tx'.sent == tx.sent + (if f.ty == TYPE_DATA then f.payload else [])
    ensures if rx.lost then rx.recv <= tx'.sent && Deaf(rx)
            else rx.recv + HeldBytes(rx.hand) + DataOf(fs + [f]) == tx'.sent
  {
    DataOfAppend(fs, f);
  }

  lemma TailFacts(fs: seq<Frame>)
    requires fs != [] && CloseEndsData(fs)
    ensures CloseEndsData(fs[1..])
    ensures HasClosing(fs) <==> fs[0].ty == TYPE_CLOSE || HasClosing(fs[1..])
    ensures fs[0].ty == TYPE_CLOSE ==> !HasClosing(fs[1..]) && NoData(fs[1..])
    ensures NoData(fs) ==> NoData(fs[1..]) && fs[0].ty != TYPE_DATA
  {
  }

  /** The receiving end after the read loop has dispatched a frame of the stream. */
  function AfterTake(rx: Rx, f: Frame): Rx {
    if f.ty == TYPE_OPEN then rx.(known := true, inTable := true)
    else if f.ty == TYPE_DATA then
      if rx.inTable then rx.(hand := InHand(f.payload)) else rx.(lost := true)
    else if f.ty == TYPE_CLOSE && rx.inTable then rx.(hand := CloseInHand)
    else if f.ty == TYPE_RESET && rx.inTable then rx.(hand := Leaving)
    else rx
  }

  /** The reader takes the first frame: the rest still flows, the frame's own bytes being in hand or lost. */
  lemma FlowTake(tx: Tx, rx: Rx, fs: seq<Frame>, fromOpener: bool)
    requires Flow(tx, rx, fs, fromOpener) && fs != [] && rx.hand.Nothing?
    ensures Flow(tx, AfterTake(rx, fs[0]), fs[1..], fromOpener)
  {
    TailFacts(fs);
    assert Types(fs[1..], fromOpener) by {
      assert forall k :: 0 <= k < |fs[1..]| ==> fs[1..][k] == fs[k + 1];
    }
    TakeBytes(tx, rx, fs, fromOpener);
  }

  lemma TakeBytes(tx: Tx, rx: Rx, fs: seq<Frame>, fromOpener: bool)
    requires Flow(tx, rx, fs, fromOpener) && fs != [] && rx.hand.Nothing?
    ensures var rx' := AfterTake(rx, fs[0]);
            if rx'.lost then rx'.recv <= tx.sent && Deaf(rx')
            else rx'.recv + HeldBytes(rx'.hand) + DataOf(fs[1..]) == tx.sent
  {
    TailFacts(fs);
    var f := fs[0];
    if f.ty == TYPE_DATA {
      assert rx.recv + HeldBytes(rx.hand) == rx.recv;
      assert rx.recv + (f.payload + DataOf(fs[1..])) == rx.recv + f.payload + DataOf(fs[1..]);
    } else {
      assert DataOf(fs) == DataOf(fs[1..]);
    }
  }

  // ---- all streams ---------------------------------------------------------------------------

  lemma SentNothing(x: Session, x': Session, y: Session, p: Pipe, p': Pipe)
    requires Joined(x, y, p) && x'.opener == x.opener && p'.frames == p.frames
    requires forall i: uint32 :: i != 0 ==> TxOf(x', i) == TxOf(x, i)
    ensures Joined(x', y, p')
  {
  }

  /** The sender wrote frame f, for a stream it may speak for. */
  lemma SentOne(x: Session, x': Session, y: Session, p: Pipe, f: Frame)
    requires Joined(x, y, p) && x'.opener == x.opener && f.Valid()
    requires f.stream == 0 ==> f.ty == TYPE_RESET
    requires forall i: uint32 :: i != 0 && i != f.stream ==> TxOf(x', i) == TxOf(x, i)
    requires f.stream != 0 ==>
      var tx, tx' := TxOf(x, f.stream), TxOf(x', f.stream);
      && tx'.known
      && (tx.known || (x.opener && f.ty == TYPE_OPEN && !RxOf(y, f.stream).known))
      && (tx.known ==> f.ty in {TYPE_ACCEPT, TYPE_REFUSE, TYPE_DATA, TYPE_CLOSE, TYPE_RESET})
      && (f.ty in {TYPE_DATA, TYPE_CLOSE} ==> !tx.closed)
      && tx'.sent == tx.sent + (if f.ty == TYPE_DATA then f.payload else [])
      && tx'.closed == (tx.closed || f.ty == TYPE_CLOSE)
    ensures Joined(x', y, p.(frames := p.frames + [f]))
  {
    var p' := p.(frames := p.frames + [f]);
    forall i: uint32 | i != 0 ensures Flow(TxOf(x', i), RxOf(y, i), OfStream(p'.frames, i), x.opener) {
      assert Flow(TxOf(x, i), RxOf(y, i), OfStream(p.frames, i), x.opener);
      OfStreamAppend(p.frames, f, i);
      if i == f.stream {
        FlowPut(TxOf(x, i), RxOf(y, i), OfStream(p.frames, i), x.opener, f, TxOf(x', i));
      } else {
        assert OfStream(p.frames, i) + [] == OfStream(p.frames, i);
      }
    }
  }

  /** A receiving end that only loses interest: it dies, leaves the table, or its Open gets going. */
  predicate Quieter(r: Rx, q: Rx, fromOpener: bool) {
    && q.recv == r.recv && q.lost == r.lost && q.peerClosed == r.peerClosed
    && (r.dead ==> q.dead)
    && (q.inTable ==> r.inTable || (!r.known && !fromOpener))
    && (q.known == r.known || (q.known && !fromOpener))
    && (q.hand == r.hand || (r.hand.Leaving? && q.hand.Nothing? && (q.dead || !q.inTable)))
  }

  lemma GotQuieter(x: Session, y: Session, y': Session, p: Pipe)
    requires Joined(x, y, p) && y'.opener == y.opener
    requires forall i: uint32 :: i != 0 ==> Quieter(RxOf(y, i), RxOf(y', i), x.opener)
    ensures Joined(x, y', p)
  {
    forall i: uint32 | i != 0 ensures Flow(TxOf(x, i), RxOf(y', i), OfStream(p.frames, i), x.opener) {
      assert Flow(TxOf(x, i), RxOf(y, i), OfStream(p.frames, i), x.opener);
      assert Quieter(RxOf(y, i), RxOf(y', i), x.opener);
    }
  }

  /** Stream i's receiving end changed, the others did not. */
  lemma GotOne(x: Session, y: Session, y': Session, p: Pipe, i: uint32)
    requires Joined(x, y, p) && y'.opener == y.opener && i != 0
    requires forall j: uint32 :: j != 0 && j != i ==> RxOf(y', j) == RxOf(y, j)
    requires Flow(TxOf(x, i), RxOf(y', i), OfStream(p.frames, i), x.opener)
    ensures Joined(x, y', p)
  {
  }
}
