/**
 * A session and its threads: the stream table, the read loop, and the calls a
 * program has in flight, as one state whose steps are the critical sections.
 */
module MuxSession {
  import opened Bytes
  import opened Wrappers
  import opened FrameCodec
  import opened MuxStream

  const ACCEPT_BACKLOG := 16
  /** How many OPENs fit before the 32-bit stream ids wrap round. */
  const MAX_OPENS := 0x8000_0000

  function Ascii(s: string): seq<byte> { seq(|s|, i requires 0 <= i < |s| => s[i] as int % 256) }

  const OVERFLOW := Ascii("receive buffer overflow")
  const BUSY := Ascii("busy")
  const CLOSED := Ascii("closed")
  const CANCELLED := Ascii("open cancelled")

  /** Whose hands a stream is in. */
  datatype Phase =
    | Registered   // an Open call has the id, its OPEN is not written yet
    | Unsent       // its OPEN could not be written
    | Opening      // an Open call waits for the answer
    | Offered      // a Pending nobody has taken
    | Taken        // a Pending the program has not answered
    | Usable       // the program has the stream
    | Gone         // the program never got it

  /** What the holder of a stream's write lock does next. */
  datatype Writer = Idle | HasData(data: seq<byte>) | HasClose(both: bool) | HasRemove | HasFailed

  /** A stream and its history: bytes sent, accepted into the queue, handed to the program; whether a payload was dropped. */
  datatype Entry = Entry(st: Stream, phase: Phase, writer: Writer,
                         sent: seq<byte>, closeSent: bool, recv: seq<byte>, got: seq<byte>, lost: bool)

  /** The next critical section of a call in flight. */
  datatype Task =
    | Done
    | ResetCheck(id: uint32, reason: seq<byte>)
    | RemoveThenMark(id: uint32, cause: Cause, reply: Option<Frame>)
    | MarkThen(id: uint32, cause: Cause, reply: Option<Frame>)
    | RemoveOnly(id: uint32)
    | SendThen(frame: Frame, thenFail: bool)
    | FailNow
    | CloseBegin(id: uint32)
    | CloseWait(id: uint32)
    | HandData(id: uint32, data: seq<byte>)
    | HandClose(id: uint32)
    | HandAnswer(id: uint32, answer: Answer)

  datatype Session = Session(opener: bool, entries: map<uint32, Entry>, table: set<uint32>, opens: nat,
                             failed: bool, dooms: set<uint32>, closed: bool, backlog: seq<uint32>,
                             loop: Task, stopped: bool, violated: bool, threads: map<nat, Task>)

  /** One direction of the connection: frames in flight, and whether a write has failed. */
  datatype Pipe = Pipe(frames: seq<Frame>, cut: bool)

  datatype Event =
    | OpenCall
    | OpenWrite(id: uint32, target: seq<byte>, ok: bool, th: nat)
    | OpenReturn(id: uint32, th: nat)
    | OpenDies(id: uint32)
    | OpenCancel(id: uint32, th: nat)
    | TakeOffer
    | AcceptOffer(id: uint32, ok: bool, th: nat)
    | RefuseOffer(id: uint32, reason: seq<byte>, th: nat)
    | WriteCall(id: uint32, data: seq<byte>)
    | CloseWriteCall(id: uint32)
    | WriterRuns(id: uint32, ok: bool)
    | ReadCall(id: uint32, n: nat)
    | ResetCall(id: uint32, reason: seq<byte>, th: nat)
    | CloseCall(id: uint32, th: nat)
    | SessionClose(why: Option<seq<byte>>, th: nat)
    | Receive
    | ReceiveError
    | LoopRuns(ok: bool)
    | ThreadRuns(th: nat, ok: bool)
    | DoomNext(id: uint32)
    | DoomsDone

  function NewEntry(phase: Phase): Entry { Entry(NEW_STREAM, phase, Idle, [], false, [], [], false) }

  function NewSession(opener: bool): Session {
    Session(opener, map[], {}, 0, false, {}, false, [], Done, false, false, map[])
  }

  function NextID(s: Session): uint32 { (1 + 2 * s.opens) % 0x1_0000_0000 }

  function Update(s: Session, i: uint32, e: Entry): Session { s.(entries := s.entries[i := e]) }

  function Spawn(s: Session, th: nat, t: Task): Session { s.(threads := s.threads[th := t]) }

  predicate FreeThread(s: Session, th: nat) { th in s.threads ==> s.threads[th].Done? }

  /** One Writer.Write: a frame goes out whole, or the write fails. */
  function Put(s: Session, out: Pipe, f: Frame, ok: bool): (Pipe, bool) {
    if !f.Valid() || s.closed || out.cut then (out, false)
    else if ok then (out.(frames := out.frames + [f]), true)
    else (out.(cut := true), false)
  }

  function Fail(s: Session): Session {
    if s.failed then s else s.(failed := true, dooms := s.table, table := {})
  }

  function ResetFrame(i: uint32, reason: seq<byte>): Frame { Frame(TYPE_RESET, i, reason) }

  // ---- calls in flight ----------------------------------------------------------

  predicate TaskEnabled(s: Session, t: Task) {
    match t
    case Done => false
    case SendThen(_, _) => true
    case FailNow => true
    case CloseBegin(i) => i in s.entries && s.entries[i].writer.Idle?
    case CloseWait(i) => i in s.entries && s.entries[i].writer.Idle?
    case _ => t.id in s.entries
  }

  /** What the section does to the session. */
  function Affect(s: Session, t: Task): Session
    requires TaskEnabled(s, t)
  {
    match t
    case RemoveThenMark(i, _, _) => s.(table := s.table - {i})
    case RemoveOnly(i) => s.(table := s.table - {i})
    case MarkThen(i, c, _) => Update(s, i, s.entries[i].(st := MarkDead(s.entries[i].st, c)))
    case FailNow => Fail(s)
    case CloseBegin(i) => BeginCloseWrite(s, i)
    case HandData(i, p) =>
      var e := s.entries[i];
      var (st, d) := Deliver(e.st, p);
      Update(s, i, if d.Queued? then e.(st := st, recv := e.recv + p) else e.(lost := true))
    case HandClose(i) => Update(s, i, s.entries[i].(st := PeerClose(s.entries[i].st)))
    case HandAnswer(i, a) => Update(s, i, s.entries[i].(st := Settle(s.entries[i].st, a)))
    case _ => s
  }

  /** What it writes. */
  function Emit(s: Session, out: Pipe, t: Task, ok: bool): Pipe {
    if t.SendThen? then Put(s, out, t.frame, ok).0 else out
  }

  /** What the call does next. */
  function Follow(s: Session, out: Pipe, t: Task, ok: bool): Task
    requires TaskEnabled(s, t)
  {
    match t
    case ResetCheck(i, why) =>
      if s.entries[i].st.dead then Done else RemoveThenMark(i, ResetBy(why), Some(ResetFrame(i, why)))
    case RemoveThenMark(i, c, reply) => MarkThen(i, c, reply)
    case MarkThen(_, _, reply) => if reply.Some? then SendThen(reply.value, false) else Done
    case SendThen(f, thenFail) => if thenFail || !Put(s, out, f, ok).1 then FailNow else Done
    case CloseBegin(i) => CloseWait(i)
    case CloseWait(i) => RemoveThenMark(i, ClosedPipe, None)
    case HandData(i, p) => if Deliver(s.entries[i].st, p).1.Overflow? then ResetCheck(i, OVERFLOW) else Done
    case HandClose(i) => if s.entries[i].st.writeClosed then RemoveOnly(i) else Done
    case _ => Done
  }

  // ---- the read loop -------------------------------------------------------------

  function Violation(s: Session): Session {
    s.(loop := SendThen(ResetFrame(0, []), true), stopped := true, violated := true)
  }

  function DispatchOpen(s: Session, i: uint32): Session {
    if s.opener || i == 0 || i % 2 == 0 || i in s.table then Violation(s)
    else
      var reg := s.(table := s.table + {i});
      if |s.backlog| < ACCEPT_BACKLOG then
        Update(reg, i, NewEntry(Offered)).(backlog := s.backlog + [i])
      else
        Update(reg, i, NewEntry(Gone)).(loop := RemoveThenMark(i, RefusedBy(BUSY), Some(Frame(TYPE_REFUSE, i, BUSY))))
  }

  /** A payload for no stream in the table is dropped. */
  function DispatchData(s: Session, i: uint32, p: seq<byte>): Session {
    if i in s.table then s.(loop := HandData(i, p))
    else if i in s.entries then Update(s, i, s.entries[i].(lost := true))
    else s
  }

  /** The task an answer, a CLOSE or a RESET gives the read loop, and whether it is the loop's last. */
  function ControlTask(s: Session, f: Frame): (Task, bool) {
    if f.ty == TYPE_RESET && f.stream == 0 then (FailNow, true)
    else if f.stream !in s.table then (Done, false)
    else if f.ty == TYPE_CLOSE then (HandClose(f.stream), false)
    else if f.ty == TYPE_RESET then (RemoveThenMark(f.stream, ResetBy(f.payload), None), false)
    else (HandAnswer(f.stream, if f.ty == TYPE_REFUSE then Denied(RefusedBy(f.payload)) else Granted), false)
  }

  /** What the read loop does with one frame. */
  function Dispatch(s: Session, f: Frame): Session
    requires s.loop.Done? && !s.stopped
  {
    if f.ty == TYPE_OPEN then DispatchOpen(s, f.stream)
    else if f.ty == TYPE_DATA then DispatchData(s, f.stream, f.payload)
    else if f.ty in {TYPE_ACCEPT, TYPE_REFUSE, TYPE_CLOSE, TYPE_RESET} then
      var (t, last) := ControlTask(s, f);
      s.(loop := t, stopped := last)
    else Violation(s)
  }

  // ---- events --------------------------------------------------------------------

  predicate InPhase(s: Session, i: uint32, p: Phase) { i in s.entries && s.entries[i].phase == p }

  predicate Enabled(s: Session, inn: Pipe, ev: Event) {
    match ev
    case OpenCall => s.opener && !s.failed
    case OpenWrite(i, _, _, th) => InPhase(s, i, Registered) && FreeThread(s, th)
    case OpenReturn(i, th) => InPhase(s, i, Opening) && !s.entries[i].st.answer.Unanswered? && FreeThread(s, th)
    case OpenDies(i) => InPhase(s, i, Opening) && s.entries[i].st.dead
    case OpenCancel(i, th) => InPhase(s, i, Opening) && FreeThread(s, th)
    case TakeOffer => s.backlog != [] && InPhase(s, s.backlog[0], Offered)
    case AcceptOffer(i, _, th) => InPhase(s, i, Taken) && FreeThread(s, th)
    case RefuseOffer(i, _, th) => InPhase(s, i, Taken) && FreeThread(s, th)
    case WriteCall(i, p) => InPhase(s, i, Usable) && s.entries[i].writer.Idle? && 0 < |p| <= MAX_PAYLOAD
    case CloseWriteCall(i) => InPhase(s, i, Usable) && s.entries[i].writer.Idle?
    case WriterRuns(i, _) => i in s.entries && !s.entries[i].writer.Idle?
    case ReadCall(i, _) => InPhase(s, i, Usable) && Consistent(s.entries[i].st)
    case ResetCall(i, _, th) => InPhase(s, i, Usable) && FreeThread(s, th)
    case CloseCall(i, th) => InPhase(s, i, Usable) && FreeThread(s, th)
    case SessionClose(_, th) => FreeThread(s, th)
    case Receive => s.loop.Done? && !s.stopped && inn.frames != []
    case ReceiveError => s.loop.Done? && !s.stopped
    case LoopRuns(_) => TaskEnabled(s, s.loop)
    case ThreadRuns(th, _) => th in s.threads && TaskEnabled(s, s.threads[th])
    case DoomNext(i) => i in s.dooms && i in s.entries
    case DoomsDone => s.failed && s.dooms == {}
  }

  /** The next section of the call holding stream i's write lock. */
  function RunWriter(s: Session, out: Pipe, i: uint32, ok: bool): (Session, Pipe)
    requires i in s.entries
  {
    var e := s.entries[i];
    match e.writer
    case Idle => (s, out)
    case HasData(p) =>
      var (o, sent) := Put(s, out, Frame(TYPE_DATA, i, p), ok);
      (Update(s, i, if sent then e.(writer := Idle, sent := e.sent + p) else e.(writer := HasFailed)), o)
    case HasClose(both) =>
      var (o, sent) := Put(s, out, Frame(TYPE_CLOSE, i, []), ok);
      (Update(s, i, if sent then e.(writer := if both then HasRemove else Idle, closeSent := true)
                    else e.(writer := HasFailed)), o)
    case HasRemove => (Update(s, i, e.(writer := Idle)).(table := s.table - {i}), out)
    case HasFailed => (Fail(Update(s, i, e.(writer := Idle))), out)
  }

  // ---- the calls a program makes, up to their next section -------------------------

  function Register(s: Session): Session {
    Update(s, NextID(s), NewEntry(Registered)).(table := s.table + {NextID(s)}, opens := s.opens + 1)
  }

  function WithPhase(s: Session, i: uint32, p: Phase): Session
    requires i in s.entries
  {
    Update(s, i, s.entries[i].(phase := p))
  }

  function WriteOpen(s: Session, out: Pipe, i: uint32, target: seq<byte>, ok: bool, th: nat): (Session, Pipe)
    requires i in s.entries
  {
    var (o, sent) := Put(s, out, Frame(TYPE_OPEN, i, target), ok);
    (if sent then WithPhase(s, i, Opening) else Spawn(WithPhase(s, i, Unsent), th, FailNow), o)
  }

  function FinishOpen(s: Session, i: uint32, th: nat): Session
    requires i in s.entries
  {
    if s.entries[i].st.answer.Granted? then WithPhase(s, i, Usable)
    else Spawn(WithPhase(s, i, Gone), th, RemoveOnly(i))
  }

  function CancelOpen(s: Session, i: uint32, th: nat): Session
    requires i in s.entries
  {
    Spawn(WithPhase(s, i, Gone), th, ResetCheck(i, CANCELLED))
  }

  function Accept(s: Session): Session
    requires s.backlog != [] && s.backlog[0] in s.entries
  {
    WithPhase(s, s.backlog[0], Taken).(backlog := s.backlog[1..])
  }

  function AnswerYes(s: Session, out: Pipe, i: uint32, ok: bool, th: nat): (Session, Pipe)
    requires i in s.entries
  {
    var (o, sent) := Put(s, out, Frame(TYPE_ACCEPT, i, []), ok);
    (if sent then WithPhase(s, i, Usable) else Spawn(WithPhase(s, i, Gone), th, FailNow), o)
  }

  function AnswerNo(s: Session, i: uint32, reason: seq<byte>, th: nat): Session
    requires i in s.entries
  {
    Spawn(WithPhase(s, i, Gone), th, RemoveThenMark(i, RefusedBy(reason), Some(Frame(TYPE_REFUSE, i, reason))))
  }

  function BeginWrite(s: Session, i: uint32, p: seq<byte>): Session
    requires i in s.entries
  {
    var e := s.entries[i];
    if e.st.dead || e.st.writeClosed then s else Update(s, i, e.(writer := HasData(p)))
  }

  function BeginCloseWrite(s: Session, i: uint32): Session
    requires i in s.entries
  {
    var e := s.entries[i];
    var (st, send) := CloseWriting(e.st);
    if send then Update(s, i, e.(st := st, writer := HasClose(e.st.peerClosed))) else s
  }

  function ReadSome(s: Session, i: uint32, n: nat): Session
    requires i in s.entries && Consistent(s.entries[i].st)
  {
    var e := s.entries[i];
    var (st, r) := Read(e.st, n);
    Update(s, i, e.(st := st, got := if r.Chunk? then e.got + r.data else e.got))
  }

  function BeginClose(s: Session, i: uint32, th: nat): Session
    requires i in s.entries
  {
    var st := s.entries[i].st;
    Spawn(s, th, if st.peerClosed || st.dead then CloseBegin(i) else ResetCheck(i, CLOSED))
  }

  function BeginSessionClose(s: Session, why: Option<seq<byte>>, th: nat): Session {
    Spawn(s, th, if why.Some? then SendThen(ResetFrame(0, why.value), true) else FailNow)
  }

  function RunLoop(s: Session, out: Pipe, ok: bool): (Session, Pipe)
    requires TaskEnabled(s, s.loop)
  {
    (Affect(s, s.loop).(loop := Follow(s, out, s.loop, ok)), Emit(s, out, s.loop, ok))
  }

  function RunThread(s: Session, out: Pipe, th: nat, ok: bool): (Session, Pipe)
    requires th in s.threads && TaskEnabled(s, s.threads[th])
  {
    var t := s.threads[th];
    (Spawn(Affect(s, t), th, Follow(s, out, t, ok)), Emit(s, out, t, ok))
  }

  function Doom(s: Session, i: uint32): Session
    requires i in s.entries
  {
    var e := s.entries[i];
    Update(s, i, e.(st := MarkDead(e.st, SessionFailed))).(dooms := s.dooms - {i})
  }

  function Step(s: Session, out: Pipe, inn: Pipe, ev: Event): (Session, Pipe, Pipe)
    requires Enabled(s, inn, ev)
  {
    match ev
    case OpenCall => (Register(s), out, inn)
    case OpenWrite(i, target, ok, th) => var (t, o) := WriteOpen(s, out, i, target, ok, th); (t, o, inn)
    case OpenReturn(i, th) => (FinishOpen(s, i, th), out, inn)
    case OpenDies(i) => (WithPhase(s, i, Gone), out, inn)
    case OpenCancel(i, th) => (CancelOpen(s, i, th), out, inn)
    case TakeOffer => (Accept(s), out, inn)
    case AcceptOffer(i, ok, th) => var (t, o) := AnswerYes(s, out, i, ok, th); (t, o, inn)
    case RefuseOffer(i, reason, th) => (AnswerNo(s, i, reason, th), out, inn)
    case WriteCall(i, p) => (BeginWrite(s, i, p), out, inn)
    case CloseWriteCall(i) => (BeginCloseWrite(s, i), out, inn)
    case WriterRuns(i, ok) => var (t, o) := RunWriter(s, out, i, ok); (t, o, inn)
    case ReadCall(i, n) => (ReadSome(s, i, n), out, inn)
    case ResetCall(i, reason, th) => (Spawn(s, th, ResetCheck(i, reason)), out, inn)
    case CloseCall(i, th) => (BeginClose(s, i, th), out, inn)
    case SessionClose(why, th) => (BeginSessionClose(s, why, th), out, inn)
    case Receive => (Dispatch(s, inn.frames[0]), out, inn.(frames := inn.frames[1..]))
    case ReceiveError => (s.(loop := FailNow, stopped := true), out, inn)
    case LoopRuns(ok) => var (t, o) := RunLoop(s, out, ok); (t, o, inn)
    case ThreadRuns(th, ok) => var (t, o) := RunThread(s, out, th, ok); (t, o, inn)
    case DoomNext(i) => (Doom(s, i), out, inn)
    case DoomsDone => (s.(closed := true), out, inn)
  }
}
