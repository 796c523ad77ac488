/** Every step of either session keeps the two ends of every stream in agreement. */
module MuxRuns {
  import opened Bytes
  import opened Wrappers
  import opened FrameCodec
  import opened MuxStream
  import opened MuxSession
  import opened MuxInvariant
  import opened MuxSystem

  /** Neither end of any stream looks different. */
  ghost predicate SameEnds(x: Session, x': Session) {
    && x'.opener == x.opener
    && forall i: uint32 :: i != 0 ==> TxOf(x', i) == TxOf(x, i) && RxOf(x', i) == RxOf(x, i)
  }

  lemma SameEndsKeep(x: Session, x': Session, y: Session, out: Pipe, out': Pipe, inn: Pipe)
    requires Joined(x, y, out) && Joined(y, x, inn) && SameEnds(x, x') && out'.frames == out.frames
    ensures Joined(x', y, out') && Joined(y, x', inn)
  {
    SentNothing(x, x', y, out, out');
    GotQuieter(y, x, x', inn);
  }

  /** The ends depend on a stream's entry only through these fields. */
  lemma SameEntry(x: Session, i: uint32, e: Entry)
    requires i in x.entries
    requires var d := x.entries[i];
             && Silent(e.phase) == Silent(d.phase) && e.sent == d.sent && e.closeSent == d.closeSent
             && e.recv == d.recv && e.lost == d.lost && e.st.dead == d.st.dead && e.st.peerClosed == d.st.peerClosed
    ensures SameEnds(x, Update(x, i, e))
  {
  }

  // ---- sections that neither write a frame nor change what has arrived ----------------

  lemma QuietHandover(x: Session, i: uint32, p: Phase, th: nat, t: Task)
    requires i in x.entries && Silent(p) == Silent(x.entries[i].phase)
    ensures SameEnds(x, WithPhase(x, i, p)) && SameEnds(x, Spawn(WithPhase(x, i, p), th, t))
  {
    SameEntry(x, i, x.entries[i].(phase := p));
    QuietSpawn(WithPhase(x, i, p), th, t);
  }

  lemma QuietAccept(x: Session)
    requires x.backlog != [] && InPhase(x, x.backlog[0], Offered)
    ensures SameEnds(x, Accept(x))
  {
    SameEntry(x, x.backlog[0], x.entries[x.backlog[0]].(phase := Taken));
  }

  lemma QuietWrite(x: Session, i: uint32, p: seq<byte>)
    requires i in x.entries
    ensures SameEnds(x, BeginWrite(x, i, p))
  {
    SameEntry(x, i, x.entries[i].(writer := HasData(p)));
  }

  lemma QuietCloseWrite(x: Session, i: uint32)
    requires i in x.entries
    ensures SameEnds(x, BeginCloseWrite(x, i))
  {
    var e := x.entries[i];
    SameEntry(x, i, e.(st := CloseWriting(e.st).0, writer := HasClose(e.st.peerClosed)));
  }

  lemma QuietRead(x: Session, i: uint32, n: nat)
    requires i in x.entries && Consistent(x.entries[i].st)
    ensures SameEnds(x, ReadSome(x, i, n))
  {
    ReadTakesFront(x.entries[i].st, n);
    SameEntry(x, i, ReadSome(x, i, n).entries[i]);
  }

  lemma QuietSpawn(x: Session, th: nat, t: Task)
    ensures SameEnds(x, Spawn(x, th, t))
  {
  }

  // ---- sections that write a frame ------------------------------------------------------

  /** What Put did: nothing, or one valid frame more. */
  lemma PutEffect(s: Session, out: Pipe, f: Frame, ok: bool)
    ensures var (o, sent) := Put(s, out, f, ok);
            if sent then f.Valid() && o == out.(frames := out.frames + [f]) else o.frames == out.frames
  {
  }

  /** A stream whose OPEN goes out becomes known, with nothing sent, and nothing else about any end changes. */
  lemma OpeningEnds(x: Session, i: uint32, j: uint32)
    requires InPhase(x, i, Registered)
    ensures var x' := WithPhase(x, i, Opening);
            && x'.opener == x.opener
            && TxOf(x, i) == Tx(false, [], false)
            && TxOf(x', j) == (if j == i then Tx(true, x.entries[i].sent, x.entries[i].closeSent) else TxOf(x, j))
            && RxOf(x', j) == if j == i then RxOf(x, j).(known := true) else RxOf(x, j)
  {
  }

  lemma OpenSentJoins(x: Session, y: Session, out: Pipe, inn: Pipe, i: uint32, target: seq<byte>)
    requires Local(x) && Joined(x, y, out) && Joined(y, x, inn) && InPhase(x, i, Registered)
    requires Frame(TYPE_OPEN, i, target).Valid()
    ensures var x' := WithPhase(x, i, Opening);
            Joined(x', y, out.(frames := out.frames + [Frame(TYPE_OPEN, i, target)])) && Joined(y, x', inn)
  {
    assert StreamOk(x, i);
    assert Flow(TxOf(x, i), RxOf(y, i), OfStream(out.frames, i), x.opener);
    var x' := WithPhase(x, i, Opening);
    forall j: uint32
      ensures j != i ==> TxOf(x', j) == TxOf(x, j)
      ensures Quieter(RxOf(x, j), RxOf(x', j), y.opener)
    {
      OpeningEnds(x, i, j);
    }
    OpeningEnds(x, i, i);
    SentOne(x, x', y, out, Frame(TYPE_OPEN, i, target));
    GotQuieter(y, x, x', inn);
  }

  /** Writing a frame while the ends stay as they are: an acceptance, a reset, a refusal. */
  lemma PutJoins(x: Session, y: Session, out: Pipe, f: Frame, ok: bool)
    requires Joined(x, y, out)
    requires f.ty == TYPE_RESET || f.ty == TYPE_REFUSE || f.ty == TYPE_ACCEPT
    requires if f.stream == 0 then f.ty == TYPE_RESET else Known(x, f.stream)
    ensures Joined(x, y, Put(x, out, f, ok).0)
  {
    PutEffect(x, out, f, ok);
    if Put(x, out, f, ok).1 {
      SentOne(x, x, y, out, f);
    } else {
      SentNothing(x, x, y, out, Put(x, out, f, ok).0);
    }
  }

  lemma OpenWriteJoins(x: Session, y: Session, out: Pipe, inn: Pipe, i: uint32, target: seq<byte>, ok: bool, th: nat)
    requires Local(x) && Joined(x, y, out) && Joined(y, x, inn) && InPhase(x, i, Registered)
    ensures var (x', o) := WriteOpen(x, out, i, target, ok, th); Joined(x', y, o) && Joined(y, x', inn)
  {
    var f := Frame(TYPE_OPEN, i, target);
    PutEffect(x, out, f, ok);
    if Put(x, out, f, ok).1 {
      OpenSentJoins(x, y, out, inn, i, target);
    } else {
      SameEntry(x, i, x.entries[i].(phase := Unsent));
      QuietSpawn(WithPhase(x, i, Unsent), th, FailNow);
      SameEndsKeep(x, WriteOpen(x, out, i, target, ok, th).0, y, out, Put(x, out, f, ok).0, inn);
    }
  }

  lemma AnswerYesJoins(x: Session, y: Session, out: Pipe, inn: Pipe, i: uint32, ok: bool, th: nat)
    requires Local(x) && Joined(x, y, out) && Joined(y, x, inn) && InPhase(x, i, Taken) && i != 0
    ensures var (x', o) := AnswerYes(x, out, i, ok, th); Joined(x', y, o) && Joined(y, x', inn)
  {
    var f := Frame(TYPE_ACCEPT, i, []);
    var x' := AnswerYes(x, out, i, ok, th).0;
    PutJoins(x, y, out, f, ok);
    SameEntry(x, i, x.entries[i].(phase := x'.entries[i].phase));
    SameEndsKeep(x, x', y, Put(x, out, f, ok).0, Put(x, out, f, ok).0, inn);
  }

  lemma WriterSends(x: Session, y: Session, out: Pipe, inn: Pipe, i: uint32, ok: bool, f: Frame)
    requires Local(x) && Joined(x, y, out) && Joined(y, x, inn) && i in x.entries
    requires var w := x.entries[i].writer;
             (w.HasData? && f == Frame(TYPE_DATA, i, w.data)) || (w.HasClose? && f == Frame(TYPE_CLOSE, i, []))
    ensures var (x', o) := RunWriter(x, out, i, ok); Joined(x', y, o) && Joined(y, x', inn)
  {
    assert StreamOk(x, i);
    var (x', o) := RunWriter(x, out, i, ok);
    PutEffect(x, out, f, ok);
    if Put(x, out, f, ok).1 {
      SentOne(x, x', y, out, f);
    } else {
      SentNothing(x, x', y, out, o);
    }
    GotQuieter(y, x, x', inn);
  }

  /** Sections that only lose interest: nothing is written and nothing new arrives. */
  lemma QuieterJoins(x: Session, x': Session, y: Session, out: Pipe, inn: Pipe)
    requires Joined(x, y, out) && Joined(y, x, inn) && x'.opener == x.opener
    requires forall i: uint32 :: i != 0 ==> TxOf(x', i) == TxOf(x, i) && Quieter(RxOf(x, i), RxOf(x', i), y.opener)
    ensures Joined(x', y, out) && Joined(y, x', inn)
  {
    SentNothing(x, x', y, out, out);
    GotQuieter(y, x, x', inn);
  }

  lemma WriterJoins(x: Session, y: Session, out: Pipe, inn: Pipe, i: uint32, ok: bool)
    requires Local(x) && Joined(x, y, out) && Joined(y, x, inn) && i in x.entries
    ensures var (x', o) := RunWriter(x, out, i, ok); Joined(x', y, o) && Joined(y, x', inn)
  {
    match x.entries[i].writer
    case HasData(p) => WriterSends(x, y, out, inn, i, ok, Frame(TYPE_DATA, i, p));
    case HasClose(_) => WriterSends(x, y, out, inn, i, ok, Frame(TYPE_CLOSE, i, []));
    case _ => WriterEnds(x, y, out, inn, i, ok);
  }

  lemma RemoveJoins(x: Session, y: Session, out: Pipe, inn: Pipe, i: uint32)
    requires Joined(x, y, out) && Joined(y, x, inn)
    ensures var x' := x.(table := x.table - {i}); Joined(x', y, out) && Joined(y, x', inn)
  {
    QuieterJoins(x, x.(table := x.table - {i}), y, out, inn);
  }

  lemma FailJoins(x: Session, y: Session, out: Pipe, inn: Pipe)
    requires Joined(x, y, out) && Joined(y, x, inn)
    ensures Joined(Fail(x), y, out) && Joined(y, Fail(x), inn)
  {
    QuieterJoins(x, Fail(x), y, out, inn);
  }

  lemma WriterEnds(x: Session, y: Session, out: Pipe, inn: Pipe, i: uint32, ok: bool)
    requires Joined(x, y, out) && Joined(y, x, inn) && i in x.entries
    requires !x.entries[i].writer.HasData? && !x.entries[i].writer.HasClose?
    ensures var (x', o) := RunWriter(x, out, i, ok); Joined(x', y, o) && Joined(y, x', inn)
  {
    var u := Update(x, i, x.entries[i].(writer := Idle));
    SameEntry(x, i, x.entries[i].(writer := Idle));
    SameEndsKeep(x, u, y, out, out, inn);
    match x.entries[i].writer
    case HasRemove => RemoveJoins(u, y, out, inn, i);
    case HasFailed => FailJoins(u, y, out, inn);
    case Idle =>
  }

  // ---- the table and the tasks --------------------------------------------------------------

  lemma RegisterJoins(x: Session, y: Session, out: Pipe, inn: Pipe)
    requires Local(x) && Joined(x, y, out) && Joined(y, x, inn) && x.opener && NextID(x) !in x.entries
    ensures Joined(Register(x), y, out) && Joined(y, Register(x), inn)
  {
    SentNothing(x, Register(x), y, out, out);
    GotQuieter(y, x, Register(x), inn);
  }

  lemma DoomJoins(x: Session, y: Session, out: Pipe, inn: Pipe, i: uint32)
    requires Joined(x, y, out) && Joined(y, x, inn) && i in x.entries
    ensures Joined(Doom(x, i), y, out) && Joined(y, Doom(x, i), inn)
  {
    QuieterJoins(x, Doom(x, i), y, out, inn);
  }

  lemma AffectSends(x: Session, t: Task, j: uint32)
    requires TaskEnabled(x, t)
    ensures TxOf(Affect(x, t), j) == TxOf(x, j) && Affect(x, t).opener == x.opener && Affect(x, t).loop == x.loop
  {
  }

  /** A task of a thread, or of the read loop, writes at most a frame the stream may carry. */
  lemma TaskJoins(x: Session, y: Session, out: Pipe, t: Task, ok: bool, z: Session)
    requires Local(x) && Joined(x, y, out) && TaskEnabled(x, t) && TaskOk(x, t, false)
    requires z == Affect(x, t).(loop := z.loop, threads := z.threads)
    ensures Joined(z, y, Emit(x, out, t, ok))
  {
    var o := Emit(x, out, t, ok);
    if t.SendThen? {
      PutJoins(x, y, out, t.frame, ok);
    }
    forall j: uint32 | j != 0 ensures TxOf(z, j) == TxOf(x, j) {
      AffectSends(x, t, j);
    }
    AffectSends(x, t, 0);
    SentNothing(x, z, y, o, o);
  }

  // ---- tasks that hand nothing over: the arriving ends only lose interest --------------------

  lemma RemoveQuieter(x: Session, i: uint32, j: uint32, fromOpener: bool)
    ensures Quieter(RxOf(x, j), RxOf(x.(table := x.table - {i}), j), fromOpener)
  {
  }

  lemma MarkQuieter(x: Session, i: uint32, c: Cause, j: uint32, fromOpener: bool)
    requires i in x.entries
    ensures Quieter(RxOf(x, j), RxOf(Update(x, i, x.entries[i].(st := MarkDead(x.entries[i].st, c))), j), fromOpener)
  {
  }

  lemma FailQuieter(x: Session, j: uint32, fromOpener: bool)
    ensures Quieter(RxOf(x, j), RxOf(Fail(x), j), fromOpener)
  {
  }

  lemma TaskQuieter(x: Session, t: Task, j: uint32, fromOpener: bool)
    requires TaskEnabled(x, t) && TaskOk(x, t, false) && j != 0
    ensures Quieter(RxOf(x, j), RxOf(Affect(x, t), j), fromOpener)
  {
    match t
    case RemoveThenMark(i, _, _) => RemoveQuieter(x, i, j, fromOpener);
    case RemoveOnly(i) => RemoveQuieter(x, i, j, fromOpener);
    case MarkThen(i, c, _) => MarkQuieter(x, i, c, j, fromOpener);
    case FailNow => FailQuieter(x, j, fromOpener);
    case CloseBegin(i) => QuietCloseWrite(x, i);
    case _ =>
  }

  /** The read loop moving on lets go of a stream only once it is dead or out of the table. */
  lemma LoopMovesOn(x: Session, out: Pipe, ok: bool, j: uint32)
    requires TaskEnabled(x, x.loop) && TaskOk(x, x.loop, false) && Local(x)
    ensures var h, h' := HandOf(x.loop, j), HandOf(Follow(x, out, x.loop, ok), j);
            var q := RxOf(Affect(x, x.loop), j);
            h' == h || (h.Leaving? && h'.Nothing? && (q.dead || !q.inTable))
  {
  }

  lemma ThreadJoins(x: Session, y: Session, out: Pipe, inn: Pipe, th: nat, ok: bool)
    requires Local(x) && Joined(x, y, out) && Joined(y, x, inn) && th in x.threads && TaskEnabled(x, x.threads[th])
    ensures var (x', o) := RunThread(x, out, th, ok); Joined(x', y, o) && Joined(y, x', inn)
  {
    var t := x.threads[th];
    var x' := RunThread(x, out, th, ok).0;
    TaskJoins(x, y, out, t, ok, x');
    forall j: uint32 | j != 0 ensures Quieter(RxOf(x, j), RxOf(x', j), y.opener) {
      TaskQuieter(x, t, j, y.opener);
      AffectSends(x, t, j);
      assert RxOf(x', j) == RxOf(Affect(x, t), j);
    }
    AffectSends(x, t, 0);
    GotQuieter(y, x, x', inn);
  }

  lemma TaskInLoopJoins(x: Session, y: Session, out: Pipe, inn: Pipe, ok: bool)
    requires Local(x) && Joined(x, y, out) && Joined(y, x, inn) && TaskEnabled(x, x.loop) && TaskOk(x, x.loop, false)
    ensures var (x', o) := RunLoop(x, out, ok); Joined(x', y, o) && Joined(y, x', inn)
  {
    var x' := RunLoop(x, out, ok).0;
    var u := Affect(x, x.loop);
    TaskJoins(x, y, out, x.loop, ok, x');
    forall j: uint32 | j != 0 ensures Quieter(RxOf(x, j), RxOf(x', j), y.opener) {
      TaskQuieter(x, x.loop, j, y.opener);
      LoopMovesOn(x, out, ok, j);
      AffectSends(x, x.loop, j);
      OnlyHand(u, x'.loop, j);
    }
    AffectSends(x, x.loop, 0);
    GotQuieter(y, x, x', inn);
  }

  lemma OnlyHand(u: Session, t: Task, j: uint32)
    ensures RxOf(u.(loop := t), j) == if j in u.entries then RxOf(u, j).(hand := HandOf(t, j)) else RxOf(u, j)
  {
  }

  // ---- handing over -------------------------------------------------------------------------

  /** The receiving end after the payload in hand has been delivered. */
  function AfterDeliver(rx: Rx, d: Delivery): Rx
    requires rx.hand.InHand?
  {
    match d
    case Queued => rx.(recv := rx.recv + rx.hand.data, hand := Nothing)
    case Ignored => rx.(lost := true, hand := Nothing)
    case Overflow => rx.(lost := true, hand := Leaving)
  }

  lemma FlowDeliver(tx: Tx, rx: Rx, fs: seq<Frame>, fromOpener: bool, d: Delivery)
    requires Flow(tx, rx, fs, fromOpener) && rx.hand.InHand?
    requires d.Ignored? ==> rx.dead || rx.peerClosed
    requires d.Queued? ==> !rx.dead
    ensures Flow(tx, AfterDeliver(rx, d), fs, fromOpener)
  {
  }

  /** What handing over does to each stream's ends. */
  lemma HandDataEnds(x: Session, out: Pipe, ok: bool, j: uint32)
    requires Local(x) && TaskEnabled(x, x.loop) && x.loop.HandData?
    ensures var x' := RunLoop(x, out, ok).0;
            && TxOf(x', j) == TxOf(x, j)
            && RxOf(x', j) == if j != x.loop.id then RxOf(x, j)
                              else AfterDeliver(RxOf(x, j), Deliver(x.entries[j].st, x.loop.data).1)
  {
    var HandData(i, p) := x.loop;
    assert StreamOk(x, i);
    var (st, d) := Deliver(x.entries[i].st, p);
    DeliverWholeOrOverflow(x.entries[i].st, p);
  }

  lemma HandCloseEnds(x: Session, out: Pipe, ok: bool, j: uint32)
    requires Local(x) && TaskEnabled(x, x.loop) && x.loop.HandClose?
    ensures var x' := RunLoop(x, out, ok).0;
            && TxOf(x', j) == TxOf(x, j)
            && RxOf(x', j) == if j == x.loop.id then RxOf(x, j).(peerClosed := true, hand := Nothing) else RxOf(x, j)
  {
  }

  lemma HandAnswerEnds(x: Session, out: Pipe, ok: bool, j: uint32)
    requires Local(x) && TaskEnabled(x, x.loop) && x.loop.HandAnswer?
    ensures var x' := RunLoop(x, out, ok).0;
            TxOf(x', j) == TxOf(x, j) && RxOf(x', j) == RxOf(x, j)
  {
  }

  lemma HandEnds(x: Session, out: Pipe, ok: bool, j: uint32)
    requires Local(x) && TaskEnabled(x, x.loop) && (x.loop.HandData? || x.loop.HandClose? || x.loop.HandAnswer?)
    ensures var (x', o) := RunLoop(x, out, ok);
            && o == out && x'.opener == x.opener && TxOf(x', j) == TxOf(x, j)
            && (j != x.loop.id || x.loop.HandAnswer? ==> RxOf(x', j) == RxOf(x, j))
            && (j == x.loop.id && x.loop.HandClose? ==> RxOf(x', j) == RxOf(x, j).(peerClosed := true, hand := Nothing))
            && (j == x.loop.id && x.loop.HandData? ==>
                  RxOf(x', j) == AfterDeliver(RxOf(x, j), Deliver(x.entries[j].st, x.loop.data).1))
  {
    match x.loop
    case HandData(_, _) => HandDataEnds(x, out, ok, j);
    case HandClose(_) => HandCloseEnds(x, out, ok, j);
    case HandAnswer(_, _) => HandAnswerEnds(x, out, ok, j);
  }

  lemma HandJoins(x: Session, y: Session, out: Pipe, inn: Pipe, ok: bool)
    requires Local(x) && Joined(x, y, out) && Joined(y, x, inn)
    requires TaskEnabled(x, x.loop) && (x.loop.HandData? || x.loop.HandClose? || x.loop.HandAnswer?)
    ensures var (x', o) := RunLoop(x, out, ok); Joined(x', y, o) && Joined(y, x', inn)
  {
    var i := x.loop.id;
    var x' := RunLoop(x, out, ok).0;
    forall j: uint32 ensures TxOf(x', j) == TxOf(x, j) && (j != i ==> RxOf(x', j) == RxOf(x, j)) {
      HandEnds(x, out, ok, j);
    }
    HandEnds(x, out, ok, i);
    SentNothing(x, x', y, out, out);
    assert StreamOk(x, i);
    assert Flow(TxOf(y, i), RxOf(x, i), OfStream(inn.frames, i), y.opener);
    if x.loop.HandData? {
      FlowDeliver(TxOf(y, i), RxOf(x, i), OfStream(inn.frames, i), y.opener, Deliver(x.entries[i].st, x.loop.data).1);
    }
    GotOne(y, x, x', inn, i);
  }

  lemma LoopJoins(x: Session, y: Session, out: Pipe, inn: Pipe, ok: bool)
    requires Local(x) && Joined(x, y, out) && Joined(y, x, inn) && TaskEnabled(x, x.loop)
    ensures var (x', o) := RunLoop(x, out, ok); Joined(x', y, o) && Joined(y, x', inn)
  {
    if x.loop.HandData? || x.loop.HandClose? || x.loop.HandAnswer? {
      HandJoins(x, y, out, inn, ok);
    } else {
      TaskInLoopJoins(x, y, out, inn, ok);
    }
  }

  // ---- taking a frame ------------------------------------------------------------------------

  /** Whatever a correct peer has put first on the pipe is welcome: neither side drives the other to a protocol error. */
  lemma NextFrameWelcome(x: Session, y: Session, inn: Pipe)
    requires Local(x) && Local(y) && Joined(y, x, inn) && inn.frames != []
    ensures FrameWelcome(x, inn.frames[0])
  {
    var f := inn.frames[0];
    var i := f.stream;
    assert 0 in x.entries ==> StreamOk(x, 0);
    if i != 0 {
      var fs := OfStream(inn.frames, i);
      assert fs[0] == f;
      assert Flow(TxOf(y, i), RxOf(x, i), fs, y.opener);
      assert i in y.entries && StreamOk(y, i);
      assert i in x.entries ==> StreamOk(x, i);
    }
  }

  /** The loop takes a task for stream i, or none: only what it has in hand changes. */
  lemma LoopTakes(x: Session, t: Task, stopped: bool, j: uint32)
    ensures var x' := x.(loop := t, stopped := stopped);
            && TxOf(x', j) == TxOf(x, j)
            && RxOf(x', j) == if j in x.entries then RxOf(x, j).(hand := HandOf(t, j)) else RxOf(x, j)
  {
  }

  lemma DispatchDataEnds(x: Session, f: Frame, j: uint32)
    requires x.loop.Done? && j != 0 && f.ty == TYPE_DATA && f.stream in x.entries
    ensures var x' := DispatchData(x, f.stream, f.payload);
            && x'.opener == x.opener && TxOf(x', j) == TxOf(x, j)
            && RxOf(x', j) == if j == f.stream then AfterTake(RxOf(x, j), f) else RxOf(x, j)
  {
    if f.stream in x.table {
      LoopTakes(x, HandData(f.stream, f.payload), x.stopped, j);
    }
  }

  lemma DispatchControlEnds(x: Session, f: Frame, j: uint32)
    requires x.loop.Done? && j != 0 && f.ty in {TYPE_CLOSE, TYPE_RESET, TYPE_ACCEPT, TYPE_REFUSE}
    requires f.stream != 0 ==> f.stream in x.entries
    requires f.stream == 0 ==> f.ty == TYPE_RESET
    ensures var (t, last) := ControlTask(x, f);
            RxOf(x.(loop := t, stopped := last), j) == if j == f.stream then AfterTake(RxOf(x, j), f) else RxOf(x, j)
  {
  }

  /** Dispatching a frame of a stream already known moves its receiving end as AfterTake says, and no other. */
  lemma DispatchEnds(x: Session, f: Frame, j: uint32)
    requires x.loop.Done? && !x.stopped && FrameWelcome(x, f) && j != 0 && f.ty != TYPE_OPEN
    requires f.stream != 0 ==> f.stream in x.entries
    ensures var x' := Dispatch(x, f);
            && x'.opener == x.opener && TxOf(x', j) == TxOf(x, j)
            && RxOf(x', j) == if j == f.stream then AfterTake(RxOf(x, j), f) else RxOf(x, j)
  {
    if f.ty == TYPE_DATA {
      DispatchDataEnds(x, f, j);
    } else {
      DispatchControlEnds(x, f, j);
      LoopTakes(x, ControlTask(x, f).0, ControlTask(x, f).1, j);
    }
  }

  /** An OPEN brings a stream into the table; one refused for a full backlog is leaving already. */
  lemma DispatchOpenEnds(x: Session, f: Frame, j: uint32)
    requires Local(x) && x.loop.Done? && !x.stopped && FrameWelcome(x, f) && j != 0 && f.ty == TYPE_OPEN
    ensures var x' := Dispatch(x, f);
            && x'.opener == x.opener
            && (j != f.stream ==> RxOf(x', j) == RxOf(x, j) && TxOf(x', j) == TxOf(x, j))
            && (j == f.stream ==>
                  && TxOf(x, j) == Tx(false, [], false) && TxOf(x', j) == Tx(true, [], false)
                  && RxOf(x', j).(hand := Nothing) == AfterTake(RxOf(x, j), f)
                  && (RxOf(x', j).hand.Nothing? || RxOf(x', j).hand.Leaving?))
  {
    var x' := Dispatch(x, f);
    var u := Update(x, f.stream, NewEntry(x'.entries[f.stream].phase)).(table := x.table + {f.stream}, backlog := x'.backlog);
    assert x' == u.(loop := x'.loop, stopped := u.stopped);
    LoopTakes(u, x'.loop, u.stopped, j);
    JoinEnds(x, f.stream, x'.entries[f.stream].phase, x'.backlog, j);
  }

  lemma JoinEnds(x: Session, i: uint32, p: Phase, backlog: seq<uint32>, j: uint32)
    requires i !in x.entries && x.loop.Done? && !Silent(p)
    ensures var u := Update(x, i, NewEntry(p)).(table := x.table + {i}, backlog := backlog);
            && (j != i ==> RxOf(u, j) == RxOf(x, j) && TxOf(u, j) == TxOf(x, j))
            && TxOf(x, i) == Tx(false, [], false) && TxOf(u, i) == Tx(true, [], false)
            && RxOf(x, i) == Rx(false, [], false, false, false, false, Nothing)
            && RxOf(u, i) == RxOf(x, i).(known := true, inTable := true)
  {
  }

  lemma ReceiveTakes(x: Session, y: Session, inn: Pipe)
    requires Local(x) && Local(y) && Joined(y, x, inn) && inn.frames != [] && x.loop.Done? && !x.stopped
    ensures Joined(y, Dispatch(x, inn.frames[0]), inn.(frames := inn.frames[1..]))
  {
    var f := inn.frames[0];
    var x' := Dispatch(x, f);
    var inn' := inn.(frames := inn.frames[1..]);
    NextFrameWelcome(x, y, inn);
    KnownStream(x, y, inn);
    forall j: uint32 | j != 0 ensures Flow(TxOf(y, j), RxOf(x', j), OfStream(inn'.frames, j), y.opener) {
      assert Flow(TxOf(y, j), RxOf(x, j), OfStream(inn.frames, j), y.opener);
      if f.ty == TYPE_OPEN {
        DispatchOpenEnds(x, f, j);
      } else {
        DispatchEnds(x, f, j);
      }
      if j == f.stream {
        FlowTake(TxOf(y, j), RxOf(x, j), OfStream(inn.frames, j), y.opener);
        assert OfStream(inn'.frames, j) == OfStream(inn.frames, j)[1..];
      }
    }
  }

  lemma KnownStream(x: Session, y: Session, inn: Pipe)
    requires Local(x) && Joined(y, x, inn) && inn.frames != []
    ensures var f := inn.frames[0];
            && (f.stream != 0 ==> Known(y, f.stream))
            && (f.stream != 0 && f.ty != TYPE_OPEN ==> Known(x, f.stream))
  {
    var f := inn.frames[0];
    if f.stream != 0 {
      var fs := OfStream(inn.frames, f.stream);
      assert fs[0] == f;
      assert Flow(TxOf(y, f.stream), RxOf(x, f.stream), fs, y.opener);
    }
  }

  lemma ReceiveSends(x: Session, y: Session, out: Pipe, inn: Pipe)
    requires Local(x) && Local(y) && Joined(x, y, out) && Joined(y, x, inn) && inn.frames != [] && x.loop.Done? && !x.stopped
    ensures Joined(Dispatch(x, inn.frames[0]), y, out)
  {
    var f := inn.frames[0];
    var x' := Dispatch(x, f);
    NextFrameWelcome(x, y, inn);
    KnownStream(x, y, inn);
    forall j: uint32 | j != 0 ensures Flow(TxOf(x', j), RxOf(y, j), OfStream(out.frames, j), x.opener) {
      assert Flow(TxOf(x, j), RxOf(y, j), OfStream(out.frames, j), x.opener);
      if f.ty == TYPE_OPEN {
        DispatchOpenEnds(x, f, j);
      } else {
        DispatchEnds(x, f, j);
      }
    }
  }

  // ---- every step ------------------------------------------------------------------------------

  /** The steps that open, offer and answer. */
  predicate Opens(ev: Event) {
    ev.OpenCall? || ev.OpenWrite? || ev.AcceptOffer? || Settles(ev)
  }

  predicate Settles(ev: Event) { ev.OpenReturn? || ev.OpenDies? || ev.OpenCancel? || ev.RefuseOffer? }

  predicate Uses(ev: Event) { ev.WriteCall? || ev.CloseWriteCall? || ev.ReadCall? || ev.ResetCall? || ev.CloseCall? }

  lemma StepJoins(x: Session, y: Session, out: Pipe, inn: Pipe, ev: Event)
    requires Local(x) && Local(y) && Joined(x, y, out) && Joined(y, x, inn) && Enabled(x, inn, ev)
    requires ev.OpenCall? ==> x.opens < MAX_OPENS
    ensures var (x', out', inn') := Step(x, out, inn, ev); Joined(x', y, out') && Joined(y, x', inn')
  {
    if Opens(ev) {
      OpenJoins(x, y, out, inn, ev);
    } else if Uses(ev) {
      UserJoins(x, y, out, inn, ev);
    } else {
      match ev
      case WriterRuns(i, ok) => WriterJoins(x, y, out, inn, i, ok);
      case Receive =>
        ReceiveTakes(x, y, inn);
        ReceiveSends(x, y, out, inn);
      case LoopRuns(ok) => LoopJoins(x, y, out, inn, ok);
      case ThreadRuns(th, ok) => ThreadJoins(x, y, out, inn, th, ok);
      case DoomNext(i) => DoomJoins(x, y, out, inn, i);
      case _ => QuietJoins(x, y, out, inn, ev);
    }
  }

  lemma OpenJoins(x: Session, y: Session, out: Pipe, inn: Pipe, ev: Event)
    requires Local(x) && Local(y) && Joined(x, y, out) && Joined(y, x, inn) && Enabled(x, inn, ev)
    requires Opens(ev) && (ev.OpenCall? ==> x.opens < MAX_OPENS)
    ensures var (x', out', inn') := Step(x, out, inn, ev); Joined(x', y, out') && Joined(y, x', inn')
  {
    match ev
    case OpenCall =>
      RegisterKeeps(x);
      RegisterJoins(x, y, out, inn);
    case OpenWrite(i, target, ok, th) => OpenWriteJoins(x, y, out, inn, i, target, ok, th);
    case AcceptOffer(i, ok, th) =>
      assert StreamOk(x, i);
      AnswerYesJoins(x, y, out, inn, i, ok, th);
    case _ => SettleJoins(x, y, out, inn, ev);
  }

  lemma SettleJoins(x: Session, y: Session, out: Pipe, inn: Pipe, ev: Event)
    requires Joined(x, y, out) && Joined(y, x, inn) && Enabled(x, inn, ev) && Settles(ev)
    ensures var (x', out', inn') := Step(x, out, inn, ev); Joined(x', y, out') && Joined(y, x', inn')
  {
    match ev
    case OpenReturn(i, th) => FinishOpenJoins(x, y, out, inn, i, th);
    case OpenDies(i) => HandoverJoins(x, y, out, inn, i, Gone, 0, Done);
    case OpenCancel(i, th) => HandoverJoins(x, y, out, inn, i, Gone, th, ResetCheck(i, CANCELLED));
    case RefuseOffer(i, reason, th) =>
      HandoverJoins(x, y, out, inn, i, Gone, th, RemoveThenMark(i, RefusedBy(reason), Some(Frame(TYPE_REFUSE, i, reason))));
  }

  lemma FinishOpenJoins(x: Session, y: Session, out: Pipe, inn: Pipe, i: uint32, th: nat)
    requires Joined(x, y, out) && Joined(y, x, inn) && InPhase(x, i, Opening)
    ensures Joined(FinishOpen(x, i, th), y, out) && Joined(y, FinishOpen(x, i, th), inn)
  {
    if x.entries[i].st.answer.Granted? {
      HandoverJoins(x, y, out, inn, i, Usable, th, RemoveOnly(i));
    } else {
      HandoverJoins(x, y, out, inn, i, Gone, th, RemoveOnly(i));
    }
  }

  /** Calls on a stream in the program's hands, up to where they write. */
  lemma UserJoins(x: Session, y: Session, out: Pipe, inn: Pipe, ev: Event)
    requires Joined(x, y, out) && Joined(y, x, inn) && Enabled(x, inn, ev)
    requires Uses(ev)
    ensures var (x', out', inn') := Step(x, out, inn, ev); Joined(x', y, out') && Joined(y, x', inn')
  {
    match ev {
      case WriteCall(i, p) => QuietWrite(x, i, p);
      case CloseWriteCall(i) => QuietCloseWrite(x, i);
      case ReadCall(i, n) => QuietRead(x, i, n);
      case ResetCall(i, reason, th) => QuietSpawn(x, th, ResetCheck(i, reason));
      case CloseCall(i, th) => QuietSpawn(x, th, BeginClose(x, i, th).threads[th]);
    }
    SameEndsKeep(x, Step(x, out, inn, ev).0, y, out, out, inn);
  }

  /** An Open call ending, an offer turned down: a stream changes hands and a task may start. */
  lemma HandoverJoins(x: Session, y: Session, out: Pipe, inn: Pipe, i: uint32, p: Phase, th: nat, t: Task)
    requires Joined(x, y, out) && Joined(y, x, inn) && i in x.entries && Silent(p) == Silent(x.entries[i].phase)
    ensures Joined(WithPhase(x, i, p), y, out) && Joined(y, WithPhase(x, i, p), inn)
    ensures var x' := Spawn(WithPhase(x, i, p), th, t); Joined(x', y, out) && Joined(y, x', inn)
  {
    QuietHandover(x, i, p, th, t);
    SameEndsKeep(x, WithPhase(x, i, p), y, out, out, inn);
    SameEndsKeep(x, Spawn(WithPhase(x, i, p), th, t), y, out, out, inn);
  }

  lemma QuietJoins(x: Session, y: Session, out: Pipe, inn: Pipe, ev: Event)
    requires Local(x) && Joined(x, y, out) && Joined(y, x, inn) && Enabled(x, inn, ev)
    requires ev.TakeOffer? || ev.SessionClose? || ev.ReceiveError? || ev.DoomsDone?
    ensures var (x', out', inn') := Step(x, out, inn, ev); Joined(x', y, out') && Joined(y, x', inn')
  {
    match ev {
      case TakeOffer => QuietAccept(x);
      case SessionClose(_, th) => QuietSpawn(x, th, BeginSessionClose(x, ev.why, th).threads[th]);
      case ReceiveError =>
      case DoomsDone =>
    }
    SameEndsKeep(x, Step(x, out, inn, ev).0, y, out, out, inn);
  }
}
