/**
 * What an Open call is told. Two histories, one of the frames a side has put
 * on its pipe and one of what its program has asked for, against what the
 * streams of both sides come to.
 */
module MuxAnswers {
  import opened Bytes
  import opened Wrappers
  import opened FrameCodec
  import opened MuxStream
  import opened MuxSession
  import opened MuxInvariant
  import opened MuxSystem
  import opened MuxRuns
  import opened MuxTheorems
  import opened MuxTable
  import Failure = MuxFailure

  /**
   * What a side has done so far: the frames it has put on its pipe, the streams
   * it has turned away and why, those its program has reset and why, the Opens
   * it has given up, the streams it has closed.
   */
  datatype Book = Book(wrote: set<Frame>, refused: map<uint32, seq<byte>>, reset: set<(uint32, seq<byte>)>,
                       cancelled: set<uint32>, closed: set<uint32>)

  /** A call noted down. An OPEN that comes in while sixteen offers wait is turned away by the session itself. */
  function Noted(b: Book, s: Session, inn: Pipe, ev: Event): Book {
    match ev
    case RefuseOffer(i, reason, _) => b.(refused := b.refused[i := reason])
    case ResetCall(i, reason, _) => b.(reset := b.reset + {(i, reason)})
    case OpenCancel(i, _) => b.(cancelled := b.cancelled + {i})
    case CloseCall(i, _) => b.(closed := b.closed + {i})
    case Receive =>
      if inn.frames != [] && inn.frames[0].ty == TYPE_OPEN && |s.backlog| >= 16
      then b.(refused := b.refused[inn.frames[0].stream := Ascii("busy")]) else b
    case _ => b
  }

  function Wrote(b: Book, out: Pipe): Book { b.(wrote := b.wrote + set f | f in out.frames) }

  function PipeFrom(s: System, opener: bool): Pipe { if opener then s.ab else s.ba }

  function BookOf(evs: seq<(bool, Event)>, opener: bool): Book {
    if evs == [] then Book({}, map[], {}, {}, {})
    else
      var before, last := evs[..|evs| - 1], evs[|evs| - 1];
      var s, b := Run(before), BookOf(before, opener);
      var x, inn := Ends(s, opener).0, PipeFrom(s, !opener);
      Wrote(if last.0 == opener && Enabled(x, inn, last.1) then Noted(b, x, inn, last.1) else b, PipeFrom(Run(evs), opener))
  }

  // ---- what is true of a stream ---------------------------------------------------------

  /** The side itself has a reason to reset stream i. */
  predicate OwnReset(s: Session, b: Book, i: uint32, why: seq<byte>) {
    || (i, why) in b.reset
    || (i in b.cancelled && why == Ascii("open cancelled"))
    || (i in b.closed && why == Ascii("closed"))
    || (i in s.entries && s.entries[i].lost && why == Ascii("receive buffer overflow"))
  }

  /** A cause of death or denial is what happened, given the frames w the peer has written. */
  predicate CauseTrue(s: Session, b: Book, w: set<Frame>, i: uint32, c: Cause) {
    match c
    case RefusedBy(r) => Frame(TYPE_REFUSE, i, r) in w || (i in b.refused && b.refused[i] == r)
    case ResetBy(r) => Frame(TYPE_RESET, i, r) in w || OwnReset(s, b, i, r)
    case SessionFailed => s.failed
    case ClosedPipe => i in b.closed
  }

  /** A frame the side writes says what is so. */
  predicate FrameTrue(s: Session, b: Book, f: Frame) {
    f.stream == 0 ||
    (&& (f.ty == TYPE_ACCEPT ==> f.payload == [] && InPhase(s, f.stream, Usable) && !s.opener)
     && (f.ty == TYPE_REFUSE ==> f.stream in b.refused && b.refused[f.stream] == f.payload)
     && (f.ty == TYPE_RESET ==> OwnReset(s, b, f.stream, f.payload)))
  }

  predicate TaskTrue(s: Session, b: Book, w: set<Frame>, t: Task) {
    match t
    case ResetCheck(i, why) => OwnReset(s, b, i, why)
    case RemoveThenMark(i, c, reply) => CauseTrue(s, b, w, i, c) && (reply.Some? ==> reply.value.ty != TYPE_ACCEPT && FrameTrue(s, b, reply.value))
    case MarkThen(i, c, reply) => CauseTrue(s, b, w, i, c) && (reply.Some? ==> reply.value.ty != TYPE_ACCEPT && FrameTrue(s, b, reply.value))
    case SendThen(f, _) => f.ty != TYPE_ACCEPT && FrameTrue(s, b, f)
    case CloseBegin(i) => i in b.closed
    case CloseWait(i) => i in b.closed
    case HandAnswer(i, a) =>
      && (a.Granted? ==> Frame(TYPE_ACCEPT, i, []) in w)
      && (a.Denied? ==> a.cause.RefusedBy? && Frame(TYPE_REFUSE, i, a.cause.reason) in w)
    case _ => true
  }

  predicate StreamTrue(s: Session, b: Book, w: set<Frame>, i: uint32)
    requires i in s.entries
  {
    var e := s.entries[i];
    && (e.st.answer.Granted? ==> Frame(TYPE_ACCEPT, i, []) in w)
    && (e.st.answer.Denied? ==> CauseTrue(s, b, w, i, e.st.answer.cause) && (e.st.dead || e.st.answer.cause.RefusedBy?))
    && (e.st.err.Some? ==> CauseTrue(s, b, w, i, e.st.err.value))
    && (e.phase.Usable? ==> if s.opener then e.st.answer.Granted? else Frame(TYPE_ACCEPT, i, []) in b.wrote)
  }

  ghost predicate Honest(s: Session, b: Book, w: set<Frame>) {
    && (forall i {:trigger StreamTrue(s, b, w, i)} :: i in s.entries ==> StreamTrue(s, b, w, i))
    && TaskTrue(s, b, w, s.loop)
    && (forall th {:trigger s.threads[th]} :: th in s.threads ==> TaskTrue(s, b, w, s.threads[th]))
    && (forall f :: f in b.wrote ==> FrameTrue(s, b, f))
    && (forall i :: i in b.refused ==> InPhase(s, i, Gone) && !s.opener)
  }

  // ---- what stays true -------------------------------------------------------------------

  predicate Ahead(s: Session, t: Session) {
    && t.opener == s.opener && (s.failed ==> t.failed) && s.entries.Keys <= t.entries.Keys
    && forall i :: i in s.entries ==>
         var d, e := s.entries[i], t.entries[i];
         (d.lost ==> e.lost) && (d.phase.Usable? || d.phase.Gone? ==> e.phase == d.phase)
  }

  predicate Grown(b: Book, c: Book) {
    && b.wrote <= c.wrote && b.reset <= c.reset && b.cancelled <= c.cancelled && b.closed <= c.closed
    && forall i :: i in b.refused ==> i in c.refused && c.refused[i] == b.refused[i]
  }

  lemma CauseStays(s: Session, t: Session, b: Book, c: Book, w: set<Frame>, i: uint32, why: Cause)
    requires CauseTrue(s, b, w, i, why) && Ahead(s, t) && Grown(b, c)
    ensures CauseTrue(t, c, w, i, why)
  {
  }

  lemma FrameStays(s: Session, t: Session, b: Book, c: Book, f: Frame)
    requires FrameTrue(s, b, f) && Ahead(s, t) && Grown(b, c)
    ensures FrameTrue(t, c, f)
  {
  }

  lemma TaskStays(s: Session, t: Session, b: Book, c: Book, w: set<Frame>, task: Task)
    requires TaskTrue(s, b, w, task) && Ahead(s, t) && Grown(b, c)
    ensures TaskTrue(t, c, w, task)
  {
  }

  /** The stream's answer, cause of death and holder are as before, or at least not Usable. */
  predicate SameFate(d: Entry, e: Entry) {
    && e.st.answer == d.st.answer && e.st.err == d.st.err && (d.st.dead ==> e.st.dead)
    && (e.phase.Usable? ==> d.phase.Usable?)
  }

  lemma StreamStays(s: Session, t: Session, b: Book, c: Book, w: set<Frame>, i: uint32)
    requires i in s.entries && StreamTrue(s, b, w, i) && Ahead(s, t) && Grown(b, c) && SameFate(s.entries[i], t.entries[i])
    ensures StreamTrue(t, c, w, i)
  {
  }

  /** A step that only has to answer for what it changed. */
  lemma Advance(s: Session, t: Session, b: Book, c: Book, w: set<Frame>)
    requires Honest(s, b, w) && Ahead(s, t) && Grown(b, c)
    requires forall i :: i in t.entries ==> (i in s.entries && SameFate(s.entries[i], t.entries[i])) || StreamTrue(t, c, w, i)
    requires t.loop == s.loop || TaskTrue(t, c, w, t.loop)
    requires forall th :: th in t.threads ==> (th in s.threads && t.threads[th] == s.threads[th]) || TaskTrue(t, c, w, t.threads[th])
    requires forall f :: f in c.wrote ==> f in b.wrote || FrameTrue(t, c, f)
    requires forall i :: i in c.refused ==> i in b.refused || (InPhase(t, i, Gone) && !t.opener)
    ensures Honest(t, c, w)
  {
    forall i | i in t.entries ensures StreamTrue(t, c, w, i) {
      if i in s.entries && SameFate(s.entries[i], t.entries[i]) {
        StreamStays(s, t, b, c, w, i);
      }
    }
    if t.loop == s.loop {
      TaskStays(s, t, b, c, w, s.loop);
    }
    forall th | th in t.threads ensures TaskTrue(t, c, w, t.threads[th]) {
      if th in s.threads && t.threads[th] == s.threads[th] {
        TaskStays(s, t, b, c, w, s.threads[th]);
      }
    }
    forall f | f in c.wrote ensures FrameTrue(t, c, f) {
      if f in b.wrote {
        FrameStays(s, t, b, c, f);
      }
    }
  }

  // ---- every step ----------------------------------------------------------------------

  ghost predicate Ready(s: Session, b: Book, w: set<Frame>, out: Pipe) {
    Local(s) && Honest(s, b, w) && (forall f :: f in out.frames ==> f in b.wrote)
  }

  lemma PutWrote(s: Session, out: Pipe, f: Frame, ok: bool, b: Book)
    requires forall g :: g in out.frames ==> g in b.wrote
    ensures var (o, sent) := Put(s, out, f, ok);
            Wrote(b, o).wrote == (if sent then b.wrote + {f} else b.wrote)
  {
  }

  /** The side's book with what it has put on the pipe since. */
  lemma WroteMore(s: Session, b: Book, w: set<Frame>, o: Pipe)
    requires Honest(s, b, w) && forall f :: f in o.frames ==> f in b.wrote || FrameTrue(s, b, f)
    ensures Honest(s, Wrote(b, o), w)
  {
    var c := Wrote(b, o);
    assert Grown(b, c) && Ahead(s, s);
    forall f | f in c.wrote && f !in b.wrote ensures FrameTrue(s, c, f) {
      FrameStays(s, s, b, c, f);
    }
    Advance(s, s, b, c, w);
  }

  // ---- building blocks ----------------------------------------------------------------

  /** One entry changes, not what the stream came to. */
  lemma EntryHonest(s: Session, b: Book, w: set<Frame>, i: uint32, e: Entry)
    requires Honest(s, b, w) && i in s.entries && SameFate(s.entries[i], e)
    requires (s.entries[i].lost ==> e.lost) && (e.phase == s.entries[i].phase || s.entries[i].phase.Offered? || s.entries[i].phase.Registered?)
    ensures Honest(Update(s, i, e), b, w)
  {
    Advance(s, Update(s, i, e), b, b, w);
  }

  lemma SpawnHonest(s: Session, b: Book, w: set<Frame>, th: nat, task: Task)
    requires Honest(s, b, w) && TaskTrue(s, b, w, task)
    ensures Honest(Spawn(s, th, task), b, w)
  {
    var t := Spawn(s, th, task);
    assert Ahead(s, t) && Grown(b, b);
    TaskStays(s, t, b, b, w, task);
    Advance(s, t, b, b, w);
  }

  lemma LoopHonest(s: Session, b: Book, w: set<Frame>, task: Task, stopped: bool)
    requires Honest(s, b, w) && TaskTrue(s, b, w, task)
    ensures Honest(s.(loop := task, stopped := stopped), b, w)
  {
    var t := s.(loop := task, stopped := stopped);
    assert Ahead(s, t) && Grown(b, b);
    TaskStays(s, t, b, b, w, task);
    Advance(s, t, b, b, w);
  }

  /** Streams, calls and read loop are as they were. */
  lemma RestHonest(s: Session, t: Session, b: Book, w: set<Frame>)
    requires Honest(s, b, w) && t.opener == s.opener && t.entries == s.entries && t.loop == s.loop && t.threads == s.threads
    requires s.failed ==> t.failed
    ensures Honest(t, b, w)
  {
    Advance(s, t, b, b, w);
  }

  /** A stream changes hands. */
  lemma PhaseHonest(s: Session, b: Book, w: set<Frame>, i: uint32, p: Phase)
    requires Honest(s, b, w) && i in s.entries && !s.entries[i].phase.Usable? && !s.entries[i].phase.Gone?
    requires p.Usable? ==> if s.opener then s.entries[i].st.answer.Granted? else Frame(TYPE_ACCEPT, i, []) in b.wrote
    ensures Honest(WithPhase(s, i, p), b, w)
  {
    var t := WithPhase(s, i, p);
    assert Ahead(s, t) && Grown(b, b);
    assert StreamTrue(s, b, w, i);
    if p.Usable? {
      StreamStays(s, Update(s, i, s.entries[i]), b, b, w, i);
      assert StreamTrue(t, b, w, i);
    }
    Advance(s, t, b, b, w);
  }

  /** A new stream. */
  lemma JoinHonest(s: Session, b: Book, w: set<Frame>, i: uint32, p: Phase)
    requires Honest(s, b, w) && i !in s.entries && !p.Usable?
    ensures Honest(Update(s, i, NewEntry(p)), b, w)
  {
    Advance(s, Update(s, i, NewEntry(p)), b, b, w);
  }

  /** Calls of the program noted down. */
  lemma NotedMore(s: Session, b: Book, c: Book, w: set<Frame>)
    requires Honest(s, b, w) && Grown(b, c) && c.wrote == b.wrote
    requires forall i :: i in c.refused ==> i in b.refused || (InPhase(s, i, Gone) && !s.opener)
    ensures Honest(s, c, w)
  {
    Advance(s, s, b, c, w);
  }

  // ---- the steps -----------------------------------------------------------------------

  lemma RegisterHonest(s: Session, b: Book, w: set<Frame>)
    requires Local(s) && Honest(s, b, w) && s.opener && s.opens < MAX_OPENS
    ensures Honest(Register(s), b, w)
  {
    RegisterKeeps(s);
    JoinHonest(s, b, w, NextID(s), Registered);
    RestHonest(Update(s, NextID(s), NewEntry(Registered)), Register(s), b, w);
  }

  lemma WriteOpenHonest(s: Session, b: Book, w: set<Frame>, out: Pipe, i: uint32, target: seq<byte>, ok: bool, th: nat)
    requires Ready(s, b, w, out) && InPhase(s, i, Registered)
    ensures var (t, o) := WriteOpen(s, out, i, target, ok, th); Honest(t, Wrote(b, o), w)
  {
    var (o, sent) := Put(s, out, Frame(TYPE_OPEN, i, target), ok);
    var p := if sent then Opening else Unsent;
    PhaseHonest(s, b, w, i, p);
    SpawnHonest(WithPhase(s, i, p), b, w, th, FailNow);
    WroteMore(WriteOpen(s, out, i, target, ok, th).0, b, w, o);
  }

  lemma AnswerYesHonest(s: Session, b: Book, w: set<Frame>, out: Pipe, i: uint32, ok: bool, th: nat)
    requires Ready(s, b, w, out) && InPhase(s, i, Taken)
    ensures var (t, o) := AnswerYes(s, out, i, ok, th); Honest(t, Wrote(b, o), w)
  {
    assert StreamOk(s, i);
    var f := Frame(TYPE_ACCEPT, i, []);
    var (o, sent) := Put(s, out, f, ok);
    PutWrote(s, out, f, ok, b);
    if sent {
      AcceptWritten(s, b, w, i, Wrote(b, o));
    } else {
      PhaseHonest(s, b, w, i, Gone);
      SpawnHonest(WithPhase(s, i, Gone), b, w, th, FailNow);
      WroteMore(AnswerYes(s, out, i, ok, th).0, b, w, o);
    }
  }

  lemma AcceptWritten(s: Session, b: Book, w: set<Frame>, i: uint32, c: Book)
    requires Honest(s, b, w) && InPhase(s, i, Taken) && !s.opener && c == b.(wrote := b.wrote + {Frame(TYPE_ACCEPT, i, [])})
    ensures Honest(WithPhase(s, i, Usable), c, w)
  {
    var t := WithPhase(s, i, Usable);
    assert Ahead(s, t) && Grown(b, c);
    assert StreamTrue(s, b, w, i);
    assert StreamTrue(t, c, w, i) by {
      FateHolds(s, t, b, c, w, i);
    }
    Advance(s, t, b, c, w);
  }

  /** What is true of a stream whoever holds it. */
  predicate FateTrue(s: Session, b: Book, w: set<Frame>, i: uint32)
    requires i in s.entries
  {
    var st := s.entries[i].st;
    && (st.answer.Granted? ==> Frame(TYPE_ACCEPT, i, []) in w)
    && (st.answer.Denied? ==> CauseTrue(s, b, w, i, st.answer.cause) && (st.dead || st.answer.cause.RefusedBy?))
    && (st.err.Some? ==> CauseTrue(s, b, w, i, st.err.value))
  }

  lemma FateHolds(s: Session, t: Session, b: Book, c: Book, w: set<Frame>, i: uint32)
    requires i in s.entries && StreamTrue(s, b, w, i) && Ahead(s, t) && Grown(b, c) && t.entries[i].st == s.entries[i].st
    ensures FateTrue(t, c, w, i)
  {
  }

  lemma FinishOpenHonest(s: Session, b: Book, w: set<Frame>, i: uint32, th: nat)
    requires Local(s) && Honest(s, b, w) && InPhase(s, i, Opening)
    ensures Honest(FinishOpen(s, i, th), b, w)
  {
    assert StreamOk(s, i);
    if s.entries[i].st.answer.Granted? {
      PhaseHonest(s, b, w, i, Usable);
    } else {
      PhaseHonest(s, b, w, i, Gone);
      SpawnHonest(WithPhase(s, i, Gone), b, w, th, RemoveOnly(i));
    }
  }

  lemma CancelOpenHonest(s: Session, b: Book, w: set<Frame>, i: uint32, th: nat)
    requires Honest(s, b, w) && InPhase(s, i, Opening)
    ensures Honest(CancelOpen(s, i, th), b.(cancelled := b.cancelled + {i}), w)
  {
    var c := b.(cancelled := b.cancelled + {i});
    PhaseHonest(s, b, w, i, Gone);
    NotedMore(WithPhase(s, i, Gone), b, c, w);
    SpawnHonest(WithPhase(s, i, Gone), c, w, th, ResetCheck(i, CANCELLED));
  }

  lemma AnswerNoHonest(s: Session, b: Book, w: set<Frame>, i: uint32, reason: seq<byte>, th: nat)
    requires Local(s) && Honest(s, b, w) && InPhase(s, i, Taken)
    ensures Honest(AnswerNo(s, i, reason, th), b.(refused := b.refused[i := reason]), w)
  {
    assert StreamOk(s, i);
    var c := b.(refused := b.refused[i := reason]);
    assert i !in b.refused;
    PhaseHonest(s, b, w, i, Gone);
    NotedMore(WithPhase(s, i, Gone), b, c, w);
    SpawnHonest(WithPhase(s, i, Gone), c, w, th, RemoveThenMark(i, RefusedBy(reason), Some(Frame(TYPE_REFUSE, i, reason))));
  }

  lemma CloseHonest(s: Session, b: Book, w: set<Frame>, i: uint32, th: nat)
    requires Honest(s, b, w) && i in s.entries
    ensures Honest(BeginClose(s, i, th), b.(closed := b.closed + {i}), w)
  {
    var c := b.(closed := b.closed + {i});
    NotedMore(s, b, c, w);
    SpawnHonest(s, c, w, th, BeginClose(s, i, th).threads[th]);
  }

  lemma ResetHonest(s: Session, b: Book, w: set<Frame>, i: uint32, reason: seq<byte>, th: nat)
    requires Honest(s, b, w)
    ensures Honest(Spawn(s, th, ResetCheck(i, reason)), b.(reset := b.reset + {(i, reason)}), w)
  {
    var c := b.(reset := b.reset + {(i, reason)});
    NotedMore(s, b, c, w);
    SpawnHonest(s, c, w, th, ResetCheck(i, reason));
  }

  /** Stream i's entry is e, what it came to as before; nothing else but the table and the failure has changed. */
  predicate OnlyEntry(s: Session, t: Session, i: uint32, e: Entry)
    requires i in s.entries
  {
    && t.entries == s.entries[i := e] && t.opener == s.opener && t.loop == s.loop && t.threads == s.threads && (s.failed ==> t.failed)
    && SameFate(s.entries[i], e) && e.lost == s.entries[i].lost && e.phase == s.entries[i].phase
  }

  lemma EntryOnly(s: Session, i: uint32, e: Entry)
    requires i in s.entries && SameFate(s.entries[i], e) && e.lost == s.entries[i].lost && e.phase == s.entries[i].phase
    ensures OnlyEntry(s, Update(s, i, e), i, e) && OnlyEntry(s, Fail(Update(s, i, e)), i, e)
    ensures OnlyEntry(s, Update(s, i, e).(table := s.table - {i}), i, e)
  {
  }

  /** The holder of a write lock leaves what the stream came to alone. */
  lemma WriterEffect(s: Session, out: Pipe, i: uint32, ok: bool) returns (e: Entry)
    requires i in s.entries
    ensures OnlyEntry(s, RunWriter(s, out, i, ok).0, i, e)
  {
    var d := s.entries[i];
    match d.writer
    case Idle =>
      e := d;
      assert s.entries == s.entries[i := d];
    case HasData(p) =>
      var sent := Put(s, out, Frame(TYPE_DATA, i, p), ok).1;
      e := if sent then d.(writer := Idle, sent := d.sent + p) else d.(writer := HasFailed);
      EntryOnly(s, i, e);
    case HasClose(both) =>
      var sent := Put(s, out, Frame(TYPE_CLOSE, i, []), ok).1;
      e := if sent then d.(writer := if both then HasRemove else Idle, closeSent := true) else d.(writer := HasFailed);
      EntryOnly(s, i, e);
    case HasRemove =>
      e := d.(writer := Idle);
      EntryOnly(s, i, e);
    case HasFailed =>
      e := d.(writer := Idle);
      EntryOnly(s, i, e);
  }

  /** And what it sends is DATA or CLOSE. */
  lemma WriterPuts(s: Session, out: Pipe, i: uint32, ok: bool)
    requires i in s.entries
    ensures forall f :: f in RunWriter(s, out, i, ok).1.frames ==> f in out.frames || f.ty in {TYPE_DATA, TYPE_CLOSE}
  {
  }

  lemma WriterHonest(s: Session, b: Book, w: set<Frame>, out: Pipe, i: uint32, ok: bool)
    requires Ready(s, b, w, out) && i in s.entries
    ensures var (t, o) := RunWriter(s, out, i, ok); Honest(t, Wrote(b, o), w)
  {
    var (t, o) := RunWriter(s, out, i, ok);
    var e := WriterEffect(s, out, i, ok);
    WriterPuts(s, out, i, ok);
    EntryHonest(s, b, w, i, e);
    RestHonest(Update(s, i, e), t, b, w);
    WroteMore(t, b, w, o);
  }

  lemma DoomHonest(s: Session, b: Book, w: set<Frame>, i: uint32)
    requires Local(s) && Honest(s, b, w) && i in s.dooms
    ensures Honest(Doom(s, i), b, w)
  {
    MarkHonest(s, b, w, i, SessionFailed);
    RestHonest(Update(s, i, s.entries[i].(st := MarkDead(s.entries[i].st, SessionFailed))), Doom(s, i), b, w);
  }

  lemma MarkHonest(s: Session, b: Book, w: set<Frame>, i: uint32, c: Cause)
    requires Honest(s, b, w) && i in s.entries && CauseTrue(s, b, w, i, c)
    ensures Honest(Update(s, i, s.entries[i].(st := MarkDead(s.entries[i].st, c))), b, w)
  {
    var t := Update(s, i, s.entries[i].(st := MarkDead(s.entries[i].st, c)));
    assert StreamTrue(s, b, w, i);
    assert Ahead(s, t) && Grown(b, b);
    CauseStays(s, t, b, b, w, i, c);
    if s.entries[i].st.answer.Denied? {
      CauseStays(s, t, b, b, w, i, s.entries[i].st.answer.cause);
    }
    if s.entries[i].st.err.Some? {
      CauseStays(s, t, b, b, w, i, s.entries[i].st.err.value);
    }
    Advance(s, t, b, b, w);
  }

  // ---- calls in flight -----------------------------------------------------------------------

  lemma AnswerHonest(s: Session, b: Book, w: set<Frame>, i: uint32, a: Answer)
    requires Honest(s, b, w) && i in s.entries && TaskTrue(s, b, w, HandAnswer(i, a))
    ensures Honest(Update(s, i, s.entries[i].(st := Settle(s.entries[i].st, a))), b, w)
  {
    var t := Update(s, i, s.entries[i].(st := Settle(s.entries[i].st, a)));
    assert StreamTrue(s, b, w, i);
    assert Ahead(s, t) && Grown(b, b);
    if s.entries[i].st.err.Some? {
      CauseStays(s, t, b, b, w, i, s.entries[i].st.err.value);
    }
    if s.entries[i].st.answer.Denied? {
      CauseStays(s, t, b, b, w, i, s.entries[i].st.answer.cause);
    }
    Advance(s, t, b, b, w);
  }

  lemma AffectHonest(s: Session, b: Book, w: set<Frame>, t: Task)
    requires Local(s) && Honest(s, b, w) && TaskEnabled(s, t) && TaskTrue(s, b, w, t)
    ensures Honest(Affect(s, t), b, w)
  {
    match t
    case RemoveThenMark(_, _, _) => RestHonest(s, Affect(s, t), b, w);
    case RemoveOnly(_) => RestHonest(s, Affect(s, t), b, w);
    case MarkThen(i, c, _) => MarkHonest(s, b, w, i, c);
    case FailNow => RestHonest(s, Fail(s), b, w);
    case CloseBegin(i) => EntryHonest(s, b, w, i, BeginCloseWrite(s, i).entries[i]);
    case HandData(i, p) => EntryHonest(s, b, w, i, Affect(s, t).entries[i]);
    case HandClose(i) => EntryHonest(s, b, w, i, Affect(s, t).entries[i]);
    case HandAnswer(i, a) => AnswerHonest(s, b, w, i, a);
    case _ =>
  }

  lemma AffectAhead(s: Session, t: Task)
    requires TaskEnabled(s, t)
    ensures Ahead(s, Affect(s, t))
    ensures t.HandData? && Follow(s, Pipe([], false), t, true).ResetCheck? ==> Affect(s, t).entries[t.id].lost
  {
  }

  lemma FollowTrue(s: Session, b: Book, w: set<Frame>, out: Pipe, t: Task, ok: bool)
    requires TaskEnabled(s, t) && TaskTrue(s, b, w, t)
    ensures TaskTrue(Affect(s, t), b, w, Follow(s, out, t, ok))
  {
    AffectAhead(s, t);
    var u := Affect(s, t);
    assert Grown(b, b);
    match t
    case ResetCheck(i, why) => FrameStays(s, u, b, b, ResetFrame(i, why));
    case RemoveThenMark(i, c, reply) => TaskStays(s, u, b, b, w, MarkThen(i, c, reply));
    case MarkThen(i, c, reply) =>
      if reply.Some? {
        FrameStays(s, u, b, b, reply.value);
      }
    case _ =>
  }

  lemma EmitHonest(s: Session, t: Session, b: Book, w: set<Frame>, out: Pipe, task: Task, ok: bool)
    requires Honest(t, b, w) && (forall f :: f in out.frames ==> f in b.wrote) && (task.SendThen? ==> FrameTrue(t, b, task.frame))
    ensures Honest(t, Wrote(b, Emit(s, out, task, ok)), w)
  {
    WroteMore(t, b, w, Emit(s, out, task, ok));
  }

  lemma RunThreadHonest(s: Session, b: Book, w: set<Frame>, out: Pipe, th: nat, ok: bool)
    requires Ready(s, b, w, out) && th in s.threads && TaskEnabled(s, s.threads[th])
    ensures var (t, o) := RunThread(s, out, th, ok); Honest(t, Wrote(b, o), w)
  {
    var task := s.threads[th];
    AffectHonest(s, b, w, task);
    FollowTrue(s, b, w, out, task, ok);
    SpawnHonest(Affect(s, task), b, w, th, Follow(s, out, task, ok));
    EmitHonest(s, RunThread(s, out, th, ok).0, b, w, out, task, ok);
  }

  lemma RunLoopHonest(s: Session, b: Book, w: set<Frame>, out: Pipe, ok: bool)
    requires Ready(s, b, w, out) && TaskEnabled(s, s.loop)
    ensures var (t, o) := RunLoop(s, out, ok); Honest(t, Wrote(b, o), w)
  {
    AffectHonest(s, b, w, s.loop);
    FollowTrue(s, b, w, out, s.loop, ok);
    var u := Affect(s, s.loop);
    LoopHonest(u, b, w, Follow(s, out, s.loop, ok), u.stopped);
    EmitHonest(s, RunLoop(s, out, ok).0, b, w, out, s.loop, ok);
  }

  // ---- the read loop -------------------------------------------------------------------

  /** The peer puts nothing into an ACCEPT. */
  predicate Plain(w: set<Frame>) { forall f :: f in w && f.ty == TYPE_ACCEPT && f.stream != 0 ==> f.payload == [] }

  lemma DispatchOpenHonest(s: Session, b: Book, w: set<Frame>, i: uint32)
    requires Local(s) && Honest(s, b, w) && s.loop.Done? && !s.opener && i % 2 == 1 && i !in s.entries
    ensures var c := if |s.backlog| >= 16 then b.(refused := b.refused[i := Ascii("busy")]) else b; Honest(DispatchOpen(s, i), c, w)
  {
    if |s.backlog| < 16 {
      JoinHonest(s, b, w, i, Offered);
      RestHonest(Update(s, i, NewEntry(Offered)), DispatchOpen(s, i), b, w);
    } else {
      var c := b.(refused := b.refused[i := Ascii("busy")]);
      var joined := Update(s, i, NewEntry(Gone));
      JoinHonest(s, b, w, i, Gone);
      NotedMore(joined, b, c, w);
      var t := joined.(table := s.table + {i});
      RestHonest(joined, t, c, w);
      LoopHonest(t, c, w, RemoveThenMark(i, RefusedBy(BUSY), Some(Frame(TYPE_REFUSE, i, BUSY))), t.stopped);
    }
  }

  lemma ControlTrue(s: Session, b: Book, w: set<Frame>, f: Frame)
    requires f in w && Plain(w) && f.ty in {TYPE_ACCEPT, TYPE_REFUSE, TYPE_CLOSE, TYPE_RESET} && (f.stream == 0 ==> f.ty == TYPE_RESET)
    ensures TaskTrue(s, b, w, ControlTask(s, f).0)
  {
  }

  lemma DispatchHonest(s: Session, b: Book, w: set<Frame>, inn: Pipe)
    requires Local(s) && Honest(s, b, w) && s.loop.Done? && !s.stopped && inn.frames != [] && inn.frames[0] in w && Plain(w)
    requires FrameWelcome(s, inn.frames[0])
    ensures Honest(Dispatch(s, inn.frames[0]), Noted(b, s, inn, Receive), w)
  {
    var f := inn.frames[0];
    var i := f.stream;
    if f.ty == TYPE_OPEN {
      DispatchOpenHonest(s, b, w, i);
    } else if f.ty == TYPE_DATA {
      if i in s.table {
        LoopHonest(s, b, w, HandData(i, f.payload), s.stopped);
      } else if i in s.entries {
        EntryHonest(s, b, w, i, s.entries[i].(lost := true));
      }
    } else {
      var (t, last) := ControlTask(s, f);
      ControlTrue(s, b, w, f);
      LoopHonest(s, b, w, t, last);
    }
  }

  // ---- every step ----------------------------------------------------------------------

  lemma UseHonest(s: Session, b: Book, w: set<Frame>, out: Pipe, inn: Pipe, ev: Event)
    requires Honest(s, b, w) && Enabled(s, inn, ev) && Uses(ev)
    ensures Honest(Step(s, out, inn, ev).0, Noted(b, s, inn, ev), w)
  {
    match ev
    case WriteCall(i, p) => EntryHonest(s, b, w, i, BeginWrite(s, i, p).entries[i]);
    case CloseWriteCall(i) => EntryHonest(s, b, w, i, BeginCloseWrite(s, i).entries[i]);
    case ReadCall(i, n) =>
      ReadTakesFront(s.entries[i].st, n);
      EntryHonest(s, b, w, i, ReadSome(s, i, n).entries[i]);
    case ResetCall(i, reason, th) => ResetHonest(s, b, w, i, reason, th);
    case CloseCall(i, th) => CloseHonest(s, b, w, i, th);
  }

  lemma SettleHonest(s: Session, b: Book, w: set<Frame>, out: Pipe, inn: Pipe, ev: Event)
    requires Local(s) && Honest(s, b, w) && Enabled(s, inn, ev) && Settles(ev)
    ensures Honest(Step(s, out, inn, ev).0, Noted(b, s, inn, ev), w)
  {
    match ev
    case OpenReturn(i, th) => FinishOpenHonest(s, b, w, i, th);
    case OpenDies(i) => PhaseHonest(s, b, w, i, Gone);
    case OpenCancel(i, th) => CancelOpenHonest(s, b, w, i, th);
    case RefuseOffer(i, reason, th) => AnswerNoHonest(s, b, w, i, reason, th);
  }

  /** The steps that write nothing. */
  lemma QuietHonest(s: Session, b: Book, w: set<Frame>, out: Pipe, inn: Pipe, ev: Event)
    requires Local(s) && Honest(s, b, w) && Enabled(s, inn, ev)
    requires ev.TakeOffer? || ev.ReceiveError? || ev.SessionClose? || ev.DoomNext? || ev.DoomsDone?
    ensures Honest(Step(s, out, inn, ev).0, b, w)
  {
    match ev
    case TakeOffer =>
      var i := s.backlog[0];
      PhaseHonest(s, b, w, i, Taken);
      RestHonest(WithPhase(s, i, Taken), Accept(s), b, w);
    case ReceiveError => LoopHonest(s, b, w, FailNow, true);
    case SessionClose(why, th) => SpawnHonest(s, b, w, th, BeginSessionClose(s, why, th).threads[th]);
    case DoomNext(i) => DoomHonest(s, b, w, i);
    case DoomsDone => RestHonest(s, s.(closed := true), b, w);
  }

  /** Every step of a side leaves it as its book says. */
  lemma StepHonest(s: Session, b: Book, w: set<Frame>, out: Pipe, inn: Pipe, ev: Event)
    requires Ready(s, b, w, out) && Enabled(s, inn, ev) && Plain(w) && (forall f :: f in inn.frames ==> f in w)
    requires ev.OpenCall? ==> s.opens < MAX_OPENS
    requires ev.Receive? ==> FrameWelcome(s, inn.frames[0])
    ensures var (t, o, _) := Step(s, out, inn, ev); Honest(t, Wrote(Noted(b, s, inn, ev), o), w)
  {
    match ev
    case OpenWrite(i, target, ok, th) => WriteOpenHonest(s, b, w, out, i, target, ok, th);
    case AcceptOffer(i, ok, th) => AnswerYesHonest(s, b, w, out, i, ok, th);
    case WriterRuns(i, ok) => WriterHonest(s, b, w, out, i, ok);
    case LoopRuns(ok) => RunLoopHonest(s, b, w, out, ok);
    case ThreadRuns(th, ok) => RunThreadHonest(s, b, w, out, th, ok);
    case _ =>
      StillHonest(s, b, w, out, inn, ev);
      WroteMore(Step(s, out, inn, ev).0, Noted(b, s, inn, ev), w, out);
  }

  lemma StillHonest(s: Session, b: Book, w: set<Frame>, out: Pipe, inn: Pipe, ev: Event)
    requires Ready(s, b, w, out) && Enabled(s, inn, ev) && Plain(w) && (forall f :: f in inn.frames ==> f in w)
    requires !ev.OpenWrite? && !ev.AcceptOffer? && !ev.WriterRuns? && !ev.LoopRuns? && !ev.ThreadRuns?
    requires ev.OpenCall? ==> s.opens < MAX_OPENS
    requires ev.Receive? ==> FrameWelcome(s, inn.frames[0])
    ensures var (t, o, _) := Step(s, out, inn, ev); o == out && Honest(t, Noted(b, s, inn, ev), w)
  {
    if Settles(ev) {
      SettleHonest(s, b, w, out, inn, ev);
    } else if Uses(ev) {
      UseHonest(s, b, w, out, inn, ev);
    } else if ev.OpenCall? {
      RegisterHonest(s, b, w);
    } else if ev.Receive? {
      DispatchHonest(s, b, w, inn);
    } else {
      QuietHonest(s, b, w, out, inn, ev);
    }
  }

  // ---- both sides ----------------------------------------------------------------------

  lemma PeerWrote(s: Session, b: Book, w: set<Frame>, v: set<Frame>)
    requires Honest(s, b, w) && w <= v
    ensures Honest(s, b, v)
  {
    forall i | i in s.entries ensures StreamTrue(s, b, v, i) {
      assert StreamTrue(s, b, w, i);
    }
  }

  ghost predicate Carried(out: Pipe, b: Book) { forall f :: f in out.frames ==> f in b.wrote }

  lemma NothingNew(b: Book, out: Pipe)
    requires Carried(out, b)
    ensures Wrote(b, out) == b
  {
    assert b.wrote + (set f | f in out.frames) == b.wrote;
  }

  /** What the two books say of the two sides. */
  ghost predicate BothHonest(s: System, a: Book, b: Book) {
    && Honest(s.a, a, b.wrote) && Honest(s.b, b, a.wrote) && Carried(s.ab, a) && Carried(s.ba, b)
  }

  lemma HonestPlain(s: Session, b: Book, w: set<Frame>)
    requires Honest(s, b, w)
    ensures Plain(b.wrote)
  {
  }

  /** The books after one step. */
  function Grow(s: System, b: Book, opener: bool, byOpener: bool, ev: Event): Book {
    var x, inn := Ends(s, opener).0, PipeFrom(s, !opener);
    Wrote(if byOpener == opener && Enabled(x, inn, ev) then Noted(b, x, inn, ev) else b, PipeFrom(Next(s, byOpener, ev), opener))
  }

  lemma OneSideHonest(x: Session, y: Session, out: Pipe, inn: Pipe, ev: Event, b: Book, c: Book)
    requires Local(x) && Local(y) && Joined(y, x, inn) && Enabled(x, inn, ev) && (ev.OpenCall? ==> x.opens < MAX_OPENS)
    requires Honest(x, b, c.wrote) && Honest(y, c, b.wrote) && Carried(out, b) && Carried(inn, c)
    ensures var (t, o, i) := Step(x, out, inn, ev); var d := Wrote(Noted(b, x, inn, ev), o);
            Honest(t, d, c.wrote) && Honest(y, c, d.wrote) && Carried(o, d) && Carried(i, c)
  {
    HonestPlain(y, c, b.wrote);
    if ev.Receive? { NextFrameWelcome(x, y, inn); }
    StepHonest(x, b, c.wrote, out, inn, ev);
    var d := Wrote(Noted(b, x, inn, ev), Step(x, out, inn, ev).1);
    PeerWrote(y, c, b.wrote, d.wrote);
    StepTakes(x, out, inn, ev);
  }

  lemma StepTakes(x: Session, out: Pipe, inn: Pipe, ev: Event)
    requires Enabled(x, inn, ev)
    ensures forall f :: f in Step(x, out, inn, ev).2.frames ==> f in inn.frames
  {
  }

  lemma NextHonest(s: System, a: Book, b: Book, byOpener: bool, ev: Event)
    requires Inv(s) && BothHonest(s, a, b) && (byOpener && ev.OpenCall? ==> s.a.opens < MAX_OPENS)
    ensures BothHonest(Next(s, byOpener, ev), Grow(s, a, true, byOpener, ev), Grow(s, b, false, byOpener, ev))
  {
    NothingNew(a, s.ab);
    NothingNew(b, s.ba);
    if byOpener && Enabled(s.a, s.ba, ev) {
      OneSideHonest(s.a, s.b, s.ab, s.ba, ev, a, b);
      NothingNew(b, Step(s.a, s.ab, s.ba, ev).2);
    }
    if !byOpener && Enabled(s.b, s.ab, ev) {
      OneSideHonest(s.b, s.a, s.ba, s.ab, ev, b, a);
      NothingNew(a, Step(s.b, s.ba, s.ab, ev).2);
    }
  }

  lemma {:induction false} RunHonest(evs: seq<(bool, Event)>)
    requires OpenCalls(evs) <= MAX_OPENS
    ensures BothHonest(Run(evs), BookOf(evs, true), BookOf(evs, false))
  {
    if evs != [] {
      var before, last := evs[..|evs| - 1], evs[|evs| - 1];
      RunHonest(before);
      RunKeeps(before);
      NextHonest(Run(before), BookOf(before, true), BookOf(before, false), last.0, last.1);
    }
  }

  // ---- what the two sides are told ---------------------------------------------------------

  lemma UsableThere(s: System, a: Book, b: Book, i: uint32)
    requires Inv(s) && BothHonest(s, a, b) && InPhase(s.a, i, Usable)
    ensures Frame(TYPE_ACCEPT, i, []) in b.wrote && InPhase(s.b, i, Usable)
  {
    assert StreamTrue(s.a, a, b.wrote, i) && StreamOk(s.a, i);
    assert FrameTrue(s.b, b, Frame(TYPE_ACCEPT, i, []));
  }

  lemma RefusedThere(s: System, a: Book, b: Book, i: uint32, reason: seq<byte>)
    requires Inv(s) && BothHonest(s, a, b) && i in s.a.entries && s.a.entries[i].st.answer == Denied(RefusedBy(reason))
    ensures Frame(TYPE_REFUSE, i, reason) in b.wrote && i in b.refused && b.refused[i] == reason && InPhase(s.b, i, Gone)
  {
    assert StreamTrue(s.a, a, b.wrote, i) && StreamOk(s.a, i);
    assert FrameTrue(s.b, b, Frame(TYPE_REFUSE, i, reason));
  }

  lemma AcceptedThere(s: System, a: Book, b: Book, i: uint32)
    requires Inv(s) && BothHonest(s, a, b) && InPhase(s.b, i, Usable)
    ensures Frame(TYPE_ACCEPT, i, []) in b.wrote && i !in b.refused
    ensures forall reason :: Frame(TYPE_REFUSE, i, reason) !in b.wrote
  {
    assert StreamTrue(s.b, b, a.wrote, i) && StreamOk(s.b, i);
    assert forall f :: f in b.wrote && f.stream == i && f.ty == TYPE_REFUSE ==> i in b.refused;
  }

  /** The opener has a stream only when the acceptor has written ACCEPT for it, and has it too. */
  lemma UsableMeansAccepted(evs: seq<(bool, Event)>, i: uint32)
    requires OpenCalls(evs) <= MAX_OPENS && InPhase(Run(evs).a, i, Usable)
    ensures Frame(TYPE_ACCEPT, i, []) in BookOf(evs, false).wrote && InPhase(Run(evs).b, i, Usable)
  {
    RunHonest(evs);
    RunKeeps(evs);
    UsableThere(Run(evs), BookOf(evs, true), BookOf(evs, false), i);
  }

  /**
   * An Open is told of a refusal only when the acceptor has written that refusal, its program or its
   * full backlog having refused with that reason.
   */
  lemma RefusalIsReal(evs: seq<(bool, Event)>, i: uint32, reason: seq<byte>)
    requires OpenCalls(evs) <= MAX_OPENS && i in Run(evs).a.entries
             && Run(evs).a.entries[i].st.answer == Denied(RefusedBy(reason))
    ensures Frame(TYPE_REFUSE, i, reason) in BookOf(evs, false).wrote
    ensures i in BookOf(evs, false).refused && BookOf(evs, false).refused[i] == reason && InPhase(Run(evs).b, i, Gone)
  {
    RunHonest(evs);
    RunKeeps(evs);
    RefusedThere(Run(evs), BookOf(evs, true), BookOf(evs, false), i, reason);
  }

  /** A stream the acceptor's program has is never refused, neither told so nor written so; the ACCEPT for it has been written. */
  lemma AcceptedNeverRefused(evs: seq<(bool, Event)>, i: uint32)
    requires OpenCalls(evs) <= MAX_OPENS && InPhase(Run(evs).b, i, Usable)
    ensures Frame(TYPE_ACCEPT, i, []) in BookOf(evs, false).wrote
    ensures forall reason :: Frame(TYPE_REFUSE, i, reason) !in BookOf(evs, false).wrote
    ensures i in Run(evs).a.entries ==> !(Run(evs).a.entries[i].st.answer.Denied? && Run(evs).a.entries[i].st.answer.cause.RefusedBy?)
  {
    RunHonest(evs);
    RunKeeps(evs);
    var s, a, b := Run(evs), BookOf(evs, true), BookOf(evs, false);
    AcceptedThere(s, a, b, i);
    if i in s.a.entries && s.a.entries[i].st.answer.Denied? && s.a.entries[i].st.answer.cause.RefusedBy? {
      RefusedThere(s, a, b, i, s.a.entries[i].st.answer.cause.reason);
    }
  }

  /**
   * A stream dies of a reset only when one of both ends had a reason to reset it: its program, a given-
   * up Open, a close, an overflow.
   */
  lemma ResetsHaveCauses(evs: seq<(bool, Event)>, opener: bool, i: uint32, why: seq<byte>)
    requires OpenCalls(evs) <= MAX_OPENS && i in Ends(Run(evs), opener).0.entries
    requires Ends(Run(evs), opener).0.entries[i].st.err == Some(ResetBy(why))
    ensures var (x, y) := Ends(Run(evs), opener); OwnReset(x, BookOf(evs, opener), i, why) || OwnReset(y, BookOf(evs, !opener), i, why)
  {
    RunHonest(evs);
    RunKeeps(evs);
    var (x, y) := Ends(Run(evs), opener);
    ResetThere(x, y, BookOf(evs, opener), BookOf(evs, !opener), i, why);
  }

  lemma ResetThere(x: Session, y: Session, b: Book, c: Book, i: uint32, why: seq<byte>)
    requires Local(x) && Honest(x, b, c.wrote) && Honest(y, c, b.wrote) && i in x.entries
             && x.entries[i].st.err == Some(ResetBy(why))
    ensures OwnReset(x, b, i, why) || OwnReset(y, c, i, why)
  {
    assert StreamTrue(x, b, c.wrote, i) && StreamOk(x, i);
    if Frame(TYPE_RESET, i, why) in c.wrote {
      assert FrameTrue(y, c, Frame(TYPE_RESET, i, why));
    }
  }

  // ---- answers arrive ----------------------------------------------------------------------

  predicate Answers(f: Frame) { f.stream != 0 && f.ty in {TYPE_ACCEPT, TYPE_REFUSE} }

  predicate Told(s: Session, i: uint32)
    requires i in s.entries
  {
    !s.entries[i].st.answer.Unanswered? || (s.loop.HandAnswer? && s.loop.id == i)
  }

  /** An answer off the pipe has reached its Open, or the read loop has it in hand, or the stream has left the table. */
  ghost predicate Arrived(s: Session, w: set<Frame>, inn: Pipe) {
    forall f :: f in w && Answers(f) ==> f.stream in s.entries && (f in inn.frames || f.stream !in s.table || Told(s, f.stream))
  }

  /** No answer is taken back, and the read loop's is handed over. */
  predicate KeepsTold(s: Session, t: Session) {
    && s.entries.Keys <= t.entries.Keys && t.table <= s.table + (t.entries.Keys - s.entries.Keys)
    && forall i :: i in s.entries && Told(s, i) ==> Told(t, i)
  }

  predicate AnswerKept(s: Session, t: Session) {
    && (forall i :: i in s.entries ==> i in t.entries && (!s.entries[i].st.answer.Unanswered? ==> !t.entries[i].st.answer.Unanswered?))
    && (s.loop.HandAnswer? ==> t.loop == s.loop)
  }

  lemma KeptTold(s: Session, t: Session)
    requires AnswerKept(s, t) && Failure.Moved(s, t)
    ensures KeepsTold(s, t)
  {
  }

  lemma OpenTold(s: Session, out: Pipe, inn: Pipe, ev: Event)
    requires Local(s) && Enabled(s, inn, ev) && Opens(ev) && (ev.OpenCall? ==> s.opens < MAX_OPENS)
    ensures AnswerKept(s, Step(s, out, inn, ev).0)
  {
    if ev.OpenCall? { RegisterKeeps(s); }
  }

  lemma UseTold(s: Session, out: Pipe, inn: Pipe, ev: Event)
    requires Local(s) && Enabled(s, inn, ev) && Uses(ev)
    ensures AnswerKept(s, Step(s, out, inn, ev).0)
  {
    if ev.ReadCall? {
      ReadTakesFront(s.entries[ev.id].st, ev.n);
    }
  }

  lemma WriterTold(s: Session, out: Pipe, i: uint32, ok: bool)
    requires i in s.entries
    ensures AnswerKept(s, RunWriter(s, out, i, ok).0)
  {
    var e := WriterEffect(s, out, i, ok);
  }

  lemma AffectTold(s: Session, t: Task)
    requires TaskEnabled(s, t)
    ensures AnswerKept(s, Affect(s, t))
    ensures t.HandAnswer? && !t.answer.Unanswered? ==> !Affect(s, t).entries[t.id].st.answer.Unanswered?
  {
  }

  lemma StepTold(s: Session, out: Pipe, inn: Pipe, ev: Event)
    requires Local(s) && Enabled(s, inn, ev) && !ev.Receive? && (ev.OpenCall? ==> s.opens < MAX_OPENS)
    ensures KeepsTold(s, Step(s, out, inn, ev).0)
  {
    Failure.StepMoves(s, out, inn, ev);
    var t := Step(s, out, inn, ev).0;
    if ev.LoopRuns? {
      AffectTold(s, s.loop);
    } else {
      if Opens(ev) {
        OpenTold(s, out, inn, ev);
      } else if Uses(ev) {
        UseTold(s, out, inn, ev);
      } else if ev.WriterRuns? {
        WriterTold(s, out, ev.id, ev.ok);
      } else if ev.ThreadRuns? {
        AffectTold(s, s.threads[ev.th]);
      }
      KeptTold(s, t);
    }
  }

  lemma DispatchTold(s: Session, inn: Pipe)
    requires Local(s) && s.loop.Done? && !s.stopped && inn.frames != [] && FrameWelcome(s, inn.frames[0])
    ensures var f, t := inn.frames[0], Dispatch(s, inn.frames[0]);
            && s.entries.Keys <= t.entries.Keys && t.table <= s.table + (t.entries.Keys - s.entries.Keys)
            && (forall i :: i in s.entries && !s.entries[i].st.answer.Unanswered? ==> !t.entries[i].st.answer.Unanswered?)
            && (Answers(f) && f.stream in t.table ==> f.stream in s.entries && Told(t, f.stream))
  {
    Failure.DispatchMoves(s, inn.frames[0]);
  }

  lemma ReceiveArrives(s: Session, w: set<Frame>, inn: Pipe)
    requires Local(s) && Arrived(s, w, inn) && s.loop.Done? && !s.stopped && inn.frames != [] && FrameWelcome(s, inn.frames[0])
    ensures Arrived(Dispatch(s, inn.frames[0]), w, inn.(frames := inn.frames[1..]))
  {
    var g, t, rest := inn.frames[0], Dispatch(s, inn.frames[0]), inn.frames[1..];
    DispatchTold(s, inn);
    forall f | f in w && Answers(f) ensures f.stream in t.entries && (f in rest || f.stream !in t.table || Told(t, f.stream)) {
      assert inn.frames == [g] + rest;
      assert f in inn.frames <==> f == g || f in rest;
    }
  }

  lemma StepArrives(s: Session, w: set<Frame>, out: Pipe, inn: Pipe, ev: Event)
    requires Local(s) && Arrived(s, w, inn) && Enabled(s, inn, ev) && (ev.OpenCall? ==> s.opens < MAX_OPENS)
    requires ev.Receive? ==> FrameWelcome(s, inn.frames[0])
    ensures var (t, _, i) := Step(s, out, inn, ev); Arrived(t, w, i)
  {
    if ev.Receive? {
      ReceiveArrives(s, w, inn);
    } else {
      StepTold(s, out, inn, ev);
    }
  }

  /** Frames the peer writes are on the pipe, for streams this side has. */
  lemma PeerArrives(x: Session, y: Session, c: Book, d: Book, w: set<Frame>, inn: Pipe, o: Pipe)
    requires Arrived(x, c.wrote, inn) && d.wrote == c.wrote + (set f | f in o.frames) && inn.frames <= o.frames
    requires Local(y) && Joined(y, x, o) && Honest(y, d, w) && !y.opener
    ensures Arrived(x, d.wrote, o)
  {
    forall f | f in d.wrote && Answers(f) && f !in c.wrote ensures f in o.frames && f.stream in x.entries {
      assert FrameTrue(y, d, f);
      assert f.stream in y.entries && StreamOk(y, f.stream);
      assert Flow(TxOf(y, f.stream), RxOf(x, f.stream), OfStream(o.frames, f.stream), y.opener);
    }
  }

  lemma StepAppends(s: Session, out: Pipe, inn: Pipe, ev: Event)
    requires Enabled(s, inn, ev)
    ensures out.frames <= Step(s, out, inn, ev).1.frames
  {
    if ev.WriterRuns? {
      WriterAppends(s, out, ev.id, ev.ok);
    }
  }

  lemma WriterAppends(s: Session, out: Pipe, i: uint32, ok: bool)
    requires i in s.entries
    ensures out.frames <= RunWriter(s, out, i, ok).1.frames
  {
  }

  lemma {:induction false} RunArrives(evs: seq<(bool, Event)>)
    requires OpenCalls(evs) <= MAX_OPENS
    ensures Arrived(Run(evs).a, BookOf(evs, false).wrote, Run(evs).ba)
  {
    if evs != [] {
      var before, last := evs[..|evs| - 1], evs[|evs| - 1];
      RunArrives(before);
      RunKeeps(before);
      RunHonest(before);
      RunHonest(evs);
      RunKeeps(evs);
      NextArrives(Run(before), BookOf(before, true), BookOf(before, false), last.0, last.1);
    }
  }

  lemma NextArrives(s: System, a: Book, b: Book, byOpener: bool, ev: Event)
    requires Inv(s) && BothHonest(s, a, b) && Arrived(s.a, b.wrote, s.ba) && (byOpener && ev.OpenCall? ==> s.a.opens < MAX_OPENS)
    ensures Arrived(Next(s, byOpener, ev).a, Grow(s, b, false, byOpener, ev).wrote, Next(s, byOpener, ev).ba)
  {
    NextKeeps(s, byOpener, ev);
    NextHonest(s, a, b, byOpener, ev);
    NothingNew(b, s.ba);
    if byOpener && Enabled(s.a, s.ba, ev) {
      if ev.Receive? { NextFrameWelcome(s.a, s.b, s.ba); }
      StepArrives(s.a, b.wrote, s.ab, s.ba, ev);
      StepTakes(s.a, s.ab, s.ba, ev);
      NothingNew(b, Step(s.a, s.ab, s.ba, ev).2);
    }
    if !byOpener && Enabled(s.b, s.ab, ev) {
      StepAppends(s.b, s.ba, s.ab, ev);
      var t, d := Next(s, byOpener, ev), Grow(s, b, false, byOpener, ev);
      PeerArrives(s.a, t.b, b, d, Grow(s, a, true, byOpener, ev).wrote, s.ba, t.ba);
    }
  }

  lemma AnsweredThere(s: System, a: Book, b: Book, f: Frame)
    requires Inv(s) && BothHonest(s, a, b) && Arrived(s.a, b.wrote, s.ba)
    requires f in b.wrote && Answers(f) && f !in s.ba.frames && s.a.loop.Done? && f.stream in s.a.table
    ensures f.stream in s.a.entries
    ensures s.a.entries[f.stream].st.answer == if f.ty == TYPE_ACCEPT then Granted else Denied(RefusedBy(f.payload))
  {
    var i := f.stream;
    assert i in s.a.entries && StreamOk(s.a, i) && StreamTrue(s.a, a, b.wrote, i) && FrameTrue(s.b, b, f);
    match s.a.entries[i].st.answer
    case Granted => assert FrameTrue(s.b, b, Frame(TYPE_ACCEPT, i, []));
    case Denied(c) => RefusedThere(s, a, b, i, c.reason);
  }

  /**
   * Once an answer the acceptor has written is off the pipe and the opener's
   * read loop is done with it, a stream still in the opener's table has that
   * answer: granted when accepted, denied with the acceptor's reason when refused.
   */
  lemma AnswersArrive(evs: seq<(bool, Event)>, f: Frame)
    requires OpenCalls(evs) <= MAX_OPENS && f in BookOf(evs, false).wrote && f.stream != 0 && f.ty in {TYPE_ACCEPT, TYPE_REFUSE}
    requires f !in Run(evs).ba.frames && Run(evs).a.loop.Done? && f.stream in Run(evs).a.table
    ensures f.stream in Run(evs).a.entries
    ensures Run(evs).a.entries[f.stream].st.answer == if f.ty == TYPE_ACCEPT then Granted else Denied(RefusedBy(f.payload))
  {
    RunHonest(evs);
    RunKeeps(evs);
    RunArrives(evs);
    AnsweredThere(Run(evs), BookOf(evs, true), BookOf(evs, false), f);
  }

  // ---- refusals go out -----------------------------------------------------------------

  /** The call is on its way to writing f, or to failing the session. */
  predicate Owes(t: Task, f: Frame) {
    match t
    case RemoveThenMark(_, _, reply) => reply == Some(f)
    case MarkThen(_, _, reply) => reply == Some(f)
    case SendThen(g, _) => g == f
    case FailNow => true
    case _ => false
  }

  ghost predicate Owed(s: Session, b: Book, i: uint32)
    requires i in b.refused
  {
    var f := Frame(TYPE_REFUSE, i, b.refused[i]);
    f in b.wrote || s.failed || Owes(s.loop, f) || exists th :: th in s.threads && Owes(s.threads[th], f)
  }

  ghost predicate AllOwed(s: Session, b: Book) { forall i {:trigger Owed(s, b, i)} :: i in b.refused ==> Owed(s, b, i) }

  /** A step that starts calls on free threads and leaves the read loop to its task. */
  lemma OwedStays(s: Session, t: Session, b: Book, c: Book, th: nat, task: Task)
    requires AllOwed(s, b) && b.wrote <= c.wrote && (s.failed ==> t.failed) && (t.loop == s.loop || s.loop.Done?)
    requires t.threads == s.threads || (FreeThread(s, th) && t.threads == s.threads[th := task])
    requires forall i :: i in c.refused ==>
               (i in b.refused && c.refused[i] == b.refused[i]) || Owes(t.loop, Frame(TYPE_REFUSE, i, c.refused[i]))
               || (th in t.threads && Owes(t.threads[th], Frame(TYPE_REFUSE, i, c.refused[i])))
    ensures AllOwed(t, c)
  {
    forall i | i in c.refused ensures Owed(t, c, i) {
      var f := Frame(TYPE_REFUSE, i, c.refused[i]);
      if i in b.refused && c.refused[i] == b.refused[i] {
        assert Owed(s, b, i);
        if exists k :: k in s.threads && Owes(s.threads[k], f) {
          var k :| k in s.threads && Owes(s.threads[k], f);
          assert k in t.threads && t.threads[k] == s.threads[k];
        }
      }
    }
  }

  /** A task that owes the frame writes it, fails the session, or owes it still. */
  lemma OwesOn(s: Session, out: Pipe, t: Task, ok: bool, f: Frame)
    requires TaskEnabled(s, t) && Owes(t, f)
    ensures f in Emit(s, out, t, ok).frames || Affect(s, t).failed || Owes(Follow(s, out, t, ok), f)
  {
  }

  lemma ThreadOwed(s: Session, b: Book, out: Pipe, th: nat, ok: bool)
    requires AllOwed(s, b) && th in s.threads && TaskEnabled(s, s.threads[th])
    ensures AllOwed(RunThread(s, out, th, ok).0, Wrote(b, RunThread(s, out, th, ok).1))
  {
    var task := s.threads[th];
    var (t, o) := RunThread(s, out, th, ok);
    ThreadsUntouched(s, task);
    AffectRest(s, task);
    forall i | i in b.refused ensures Owed(t, Wrote(b, o), i) {
      assert Owed(s, b, i);
      var f := Frame(TYPE_REFUSE, i, b.refused[i]);
      if Owes(task, f) {
        OwesOn(s, out, task, ok, f);
        assert th in t.threads;
      } else if exists k :: k in s.threads && Owes(s.threads[k], f) {
        var k :| k in s.threads && Owes(s.threads[k], f);
        assert k in t.threads && t.threads[k] == s.threads[k];
      }
    }
  }

  lemma LoopOwed(s: Session, b: Book, out: Pipe, ok: bool)
    requires AllOwed(s, b) && TaskEnabled(s, s.loop)
    ensures AllOwed(RunLoop(s, out, ok).0, Wrote(b, RunLoop(s, out, ok).1))
  {
    var task := s.loop;
    var (t, o) := RunLoop(s, out, ok);
    ThreadsUntouched(s, task);
    AffectRest(s, task);
    forall i | i in b.refused ensures Owed(t, Wrote(b, o), i) {
      assert Owed(s, b, i);
      var f := Frame(TYPE_REFUSE, i, b.refused[i]);
      if Owes(task, f) {
        OwesOn(s, out, task, ok, f);
      }
    }
  }

  lemma AffectRest(s: Session, t: Task)
    requires TaskEnabled(s, t)
    ensures Affect(s, t).loop == s.loop && (s.failed ==> Affect(s, t).failed)
  {
  }

  lemma OtherOwed(s: Session, b: Book, out: Pipe, inn: Pipe, ev: Event)
    requires Local(s) && AllOwed(s, b) && Enabled(s, inn, ev) && !ev.LoopRuns? && !ev.ThreadRuns? && !ev.Receive?
    requires ev.OpenCall? ==> s.opens < MAX_OPENS
    ensures AllOwed(Step(s, out, inn, ev).0, Wrote(Noted(b, s, inn, ev), Step(s, out, inn, ev).1))
  {
    var (t, o, _) := Step(s, out, inn, ev);
    var c := Wrote(Noted(b, s, inn, ev), o);
    var th := if ev.OpenWrite? || ev.OpenReturn? || ev.OpenCancel? || ev.AcceptOffer? || ev.RefuseOffer? || ev.ResetCall? || ev.CloseCall? || ev.SessionClose?
              then ev.th else 0;
    if ev.WriterRuns? {
      var e := WriterEffect(s, out, ev.id, ev.ok);
    }
    OwedStays(s, t, b, c, th, if th in t.threads then t.threads[th] else Done);
  }

  lemma ReceiveOwed(s: Session, b: Book, out: Pipe, inn: Pipe)
    requires Local(s) && AllOwed(s, b) && Enabled(s, inn, Receive) && FrameWelcome(s, inn.frames[0])
    ensures AllOwed(Dispatch(s, inn.frames[0]), Wrote(Noted(b, s, inn, Receive), out))
  {
    var f := inn.frames[0];
    var t := Dispatch(s, f);
    var c := Wrote(Noted(b, s, inn, Receive), out);
    if f.ty == TYPE_OPEN && |s.backlog| >= 16 {
      assert t.loop == RemoveThenMark(f.stream, RefusedBy(BUSY), Some(Frame(TYPE_REFUSE, f.stream, BUSY)));
    }
    OwedStays(s, t, b, c, 0, Done);
  }

  lemma StepOwed(s: Session, b: Book, out: Pipe, inn: Pipe, ev: Event)
    requires Local(s) && AllOwed(s, b) && Enabled(s, inn, ev) && (ev.OpenCall? ==> s.opens < MAX_OPENS)
    requires ev.Receive? ==> FrameWelcome(s, inn.frames[0])
    ensures AllOwed(Step(s, out, inn, ev).0, Wrote(Noted(b, s, inn, ev), Step(s, out, inn, ev).1))
  {
    match ev
    case LoopRuns(ok) => LoopOwed(s, b, out, ok);
    case ThreadRuns(th, ok) => ThreadOwed(s, b, out, th, ok);
    case Receive => ReceiveOwed(s, b, out, inn);
    case _ => OtherOwed(s, b, out, inn, ev);
  }

  lemma {:induction false} RunOwed(evs: seq<(bool, Event)>)
    requires OpenCalls(evs) <= MAX_OPENS
    ensures AllOwed(Run(evs).b, BookOf(evs, false))
  {
    if evs != [] {
      var before, last := evs[..|evs| - 1], evs[|evs| - 1];
      RunOwed(before);
      RunKeeps(before);
      RunHonest(before);
      NextOwed(Run(before), BookOf(before, true), BookOf(before, false), last.0, last.1);
    }
  }

  lemma NextOwed(s: System, a: Book, b: Book, byOpener: bool, ev: Event)
    requires Inv(s) && BothHonest(s, a, b) && AllOwed(s.b, b)
    ensures AllOwed(Next(s, byOpener, ev).b, Grow(s, b, false, byOpener, ev))
  {
    NothingNew(b, s.ba);
    if byOpener && Enabled(s.a, s.ba, ev) {
      StepTakes(s.a, s.ab, s.ba, ev);
      NothingNew(b, Step(s.a, s.ab, s.ba, ev).2);
    }
    if !byOpener && Enabled(s.b, s.ab, ev) {
      if ev.Receive? { NextFrameWelcome(s.b, s.a, s.ab); }
      StepOwed(s.b, b, s.ba, s.ab, ev);
    }
  }

  lemma SettledOwesNothing(s: Session, b: Book, i: uint32)
    requires AllOwed(s, b) && Settled(s) && !s.failed && i in b.refused
    ensures Frame(TYPE_REFUSE, i, b.refused[i]) in b.wrote
  {
    assert Owed(s, b, i);
  }

  lemma AgreedThere(s: System, a: Book, b: Book, i: uint32)
    requires Inv(s) && BothHonest(s, a, b) && Arrived(s.a, b.wrote, s.ba) && AllOwed(s.b, b) && i in s.a.table
    requires (forall f :: f in s.ba.frames ==> f.stream != i) && s.a.loop.Done? && Settled(s.b) && !s.b.failed
    ensures i in s.a.entries
    ensures InPhase(s.b, i, Usable) ==> s.a.entries[i].st.answer == Granted
    ensures i in b.refused ==> s.a.entries[i].st.answer == Denied(RefusedBy(b.refused[i]))
  {
    assert StreamOk(s.a, i);
    if InPhase(s.b, i, Usable) {
      AcceptedThere(s, a, b, i);
      AnsweredThere(s, a, b, Frame(TYPE_ACCEPT, i, []));
    }
    if i in b.refused {
      SettledOwesNothing(s.b, b, i);
      AnsweredThere(s, a, b, Frame(TYPE_REFUSE, i, b.refused[i]));
    }
  }

  /**
   * With no frame of the stream on its way to the opener, the opener's read
   * loop idle, the acceptor settled and not failed, a stream still in the
   * opener's table has been told what became of it: granted when the
   * acceptor's program has it, refused with its reason when it was turned away.
   */
  lemma AnswersAgree(evs: seq<(bool, Event)>, i: uint32)
    requires OpenCalls(evs) <= MAX_OPENS && i in Run(evs).a.table
    requires (forall f :: f in Run(evs).ba.frames ==> f.stream != i) && Run(evs).a.loop.Done?
    requires Settled(Run(evs).b) && !Run(evs).b.failed
    ensures i in Run(evs).a.entries
    ensures InPhase(Run(evs).b, i, Usable) ==> Run(evs).a.entries[i].st.answer == Granted
    ensures i in BookOf(evs, false).refused ==> Run(evs).a.entries[i].st.answer == Denied(RefusedBy(BookOf(evs, false).refused[i]))
  {
    RunKeeps(evs);
    RunHonest(evs);
    RunArrives(evs);
    RunOwed(evs);
    AgreedThere(Run(evs), BookOf(evs, true), BookOf(evs, false), i);
  }
}
