# masseuse-camlink: a verified model

masseuse-camlink carries a camera and a stimulation unit from a home computer
to an enclave. This project models the parts of it that decide something, and
proves what they promise over every input or every run:

- **Tunnel** (`FrameCodec`, `Mux*`): the frame codec, and two multiplexed
  sessions joined by two pipes of frames. A run interleaves the critical
  sections of all goroutines of both sides; writes and reads may fail at any
  moment.
- **Device** (`Estim*`): the fail-closed hold on one stimulation unit and its
  companion session. Every goroutine is a task whose next critical section,
  driver call or latch access is one step; the device lock is held between
  steps.
- **Serving** (`Serve*`): the gate that drops whole video frames, continuity
  of RTP across publishers, the handover of a publication, and holding packets
  for the source's time.
- **Packages and releases** (`Pesig*`, `Payload*`, `Machosig*`): the payload
  behind a Windows executable, Authenticode and Mach-O signature stripping,
  with what a signing tool does as a specification.
- **Policy** (`Releases`, `Floors*`): release order, claim checks, and floors
  that may only tighten a served policy.
- **Gateway, update** (`Gateway`, `Swap*`): the gateway's control state, and the
  all-or-nothing swap of installed files.

Where the program updates an object in place, a class holds its fields and
each method is one critical section, tied by its contract to a function of the
old state; the theorems are about those functions over all runs. Loops over
bytes, packets, entries and digits are loops. `dafny verify dfyconfig.toml`
checks everything. Beside the functions stand what the bytes, the calls or the
frames alone say: the histories of `MuxAnswers`, `GatewayRuns` and `ServeHandover`,
the records of `MachosigTables`, the `*Exactly` lemmas over raw files and strings.

What is taken from the environment: in the tunnel, a write puts a whole frame
on the pipe or fails and cuts that direction, and reads may fail at any time;
each pending stream is answered once. A driver raises the output only in a step
it polled the latch for and never past the level its Execute was given, may
lower it at any time, and its release never raises it
(internal/estim/estim.go:408-448). Time does not go backwards. A publisher
releases its publication once, and announces a handover only while it has not.
JSON is a codec that decodes what it encoded, SHA-256 and lower-casing are
functions. A Mach-O reader says whether it opens a file and how many commands
it finds.

Findings, each stated by a lemma:

- A session that fails ends the streams in its table at that moment; an OPEN
  taken in between then and the closing of the connection makes a stream that
  stays alive, against the comment on `Close` that every stream fails
  (`MuxFailure.LateOpenOutlivesFailure`). `MuxFailure.FailureExactly` says which
  streams are over, in every run; the side that opens streams loses them all
  (`MuxFailure.OpenerLosesAll`).
- Stream ids wrap after 2^31 opens; one open more can end the acceptor's session
  (`MuxTheorems.OneOpenTooMany`).
- A detach can be overtaken by an arming, which leaves the device armed with no
  session attached, exactly when the arming is still waiting for the device as
  the detach begins (`EstimOvertaking.OvertakenExactly`). Otherwise the device
  stays down (`EstimDetach.DetachQuiescence`).
- Stripping an Authenticode signature loses zeros an executable already had past
  its image when they are exactly the signing tool's padding, and keeps the
  tool's own padding of any other overlay (`PesigSigning.StripUndoesSigning`).
- Applying floors is idempotent unless it filled in host suffixes one of which
  is blank (`FloorsTighten.ApplyIdempotent`); and a raised policy can refuse what
  both the served one and the floors accept (`FloorsTighten.ApplyCanBeStricter`),
  exactly when a list both have is met by no common entry
  (`FloorsTighten.RaisedExactly`).
- A swap is all or nothing exactly when no two staged entries are installed
  under one name (`SwapCollision.AllOrNothingExactly`): an entry staged under the
  installed program's name, beside a program staged under another, loses the
  old program beyond undo, or ends up in `.previous` itself.

One comment in the source is not followed: `OnDevice` is documented as called
without any lock held (internal/estim/runtime.go:120-122), but Open, Release,
Close and HealthCheck call it with the device lock held, and so does the model.

## Model

| member | source | states |
|---|---|---|
| FrameCodec.DecodeExactly | internal/frame/frame.go:97-132 | Decode answers a frame exactly when the buffer starts with that valid frame's encoding, and consumes just that |
| FrameCodec.PrefixIsShort | internal/frame/frame.go:115-170 | every proper prefix of an encoding asks for more; a reader whose source ends there reports an unexpected end |
| FrameCodec.WireUnique | internal/frame/frame.go:97-132 | no encoding is the start of another followed by anything |
| FrameCodec.EncodeInjective | internal/frame/frame.go:97-110 | equal encodings are of equal frames |
| FrameCodec.ReaderAgreesWithDecode | internal/frame/frame.go:115-170 | the blocking reader and the buffer decoder agree on every input, errors included |
| FrameCodec.StreamRoundTrip | internal/frame/frame.go:97-170 | frames encoded end to end, cut anywhere inside a further one, decode and read back to exactly the whole ones |
| FrameCodec.Reader.ReadFull | internal/frame/frame.go:147-170 | fills the buffer from the front of the source, or takes all there is |
| FrameCodec.Reader.Read | internal/frame/frame.go:147-170 | reads one frame or its error and leaves the rest, as the reader's specification says |
| FrameCodec.Writer.Write | internal/frame/frame.go:187-197 | a valid frame goes out whole, an invalid one not at all |
| Bytes.LittleEndian | internal/pesig/pesig.go:80-172 | two, four and eight bytes are read as numbers with the least significant byte first |
| FrameCodec.WireLayout | internal/frame/frame.go:1-10 | a frame on the wire is one byte of type, stream and length with the most significant byte first, and the payload, and nothing else is its encoding |
| FrameCodec.ValidFrames | internal/frame/frame.go:29-72 | valid are exactly types 1 to 9 with at most 65536 bytes, and the stream frames are numbered 1 to 6 |
| MuxStream.DeliverWholeOrOverflow | internal/mux/mux.go:343-358 | a payload is queued whole, overflows the 8 MiB bound, or meets a dead or closed stream; the byte count stays that of the queue |
| MuxStream.ReadTakesFront | internal/mux/mux.go:394-426 | Read hands out the front of what waits and leaves the rest; EOF only from a live, drained, closed stream |
| MuxStream.FirstDeathWins | internal/mux/mux.go:371-392 | a second cause of death changes nothing; the first settles an unanswered Open |
| MuxStream.Conn.DeliverBytes | internal/mux/mux.go:343-358 | the delivery section, on the stream's fields |
| MuxStream.Conn.ClosedByPeer | internal/mux/mux.go:360-369 | the peer's CLOSE, and whether both sides are now closed |
| MuxStream.Conn.Answered | internal/mux/mux.go:264-274 | the first answer to an Open settles it |
| MuxStream.Conn.Kill | internal/mux/mux.go:371-386 | death empties the queue, once |
| MuxStream.Conn.ReadInto | internal/mux/mux.go:396-426 | one pass of Read copies into the caller's buffer just what it takes off the queue |
| MuxStream.Conn.BeginCloseWrite | internal/mux/mux.go:457-480 | CLOSE is to be sent once, and only by a live stream |
| MuxObjects.Mux.RegisterStream | internal/mux/mux.go:144-157 | a fresh odd id, wrapping at 32 bits, and its stream in the table |
| MuxObjects.Mux.FailOnce | internal/mux/mux.go:124-141 | the first failure empties the table and leaves its streams to be marked dead |
| MuxObjects.Mux.Remove | internal/mux/mux.go:225-229 | takes one id out of the table |
| MuxObjects.Mux.ProtocolError | internal/mux/mux.go:117-122 | a reset of the session, then its failure |
| MuxObjects.Mux.HandleOpen | internal/mux/mux.go:243-263 | an OPEN is offered, refused as busy past 16 waiting, or a protocol error |
| MuxObjects.Mux.HandleControl | internal/mux/mux.go:264-291 | an answer, a CLOSE or a RESET leads the read loop to the section the dispatch specification names, and a RESET of stream 0 to its end; that this tells a stream its true answer is `MuxAnswers.RunHonest` |
| MuxObjects.Mux.HandleFrame | internal/mux/mux.go:231-298 | one pass of the read loop is the dispatch step of the run model |
| MuxObjects.Mux.TakeOffered | internal/mux/mux.go:204-217 | the oldest offer is taken |
| MuxObjects.ChunksJoin | internal/mux/mux.go:428-454 | the chunks of a write are the bytes written, none empty, each fit for a frame |
| MuxObjects.Sender.Write | internal/mux/mux.go:428-454 | over a connection that takes every frame, all bytes go out as DATA of the stream, or none and the error if it is dead or closed; an empty write is no error |
| MuxObjects.WriteDecodes | internal/mux/mux.go:428-454 | what the peer decodes from a write is DATA whose payloads are the bytes written |
| MuxInvariant.StepKeeps | internal/mux/mux.go:107-511 | every critical section of a session keeps its invariant as long as the frame it reads is one a correct peer sends |
| MuxSystem.FlowPut | internal/mux/mux.go:428-480 | a frame sent keeps the agreement between a stream's two ends |
| MuxSystem.FlowTake | internal/mux/mux.go:231-298 | so does a frame taken off the pipe, its bytes in hand or known lost |
| MuxRuns.StepJoins | internal/mux/mux.go:107-511 | every step of either session keeps the two ends of every stream in agreement |
| MuxRuns.NextFrameWelcome | internal/mux/mux.go:231-298 | whatever a correct peer put first on the pipe is no protocol error |
| MuxTheorems.RunKeeps | internal/mux/mux.go:79-511 | the system invariant holds in every run of at most 2^31 opens |
| MuxTheorems.ReadsArePrefixes | internal/mux/mux.go:343-454 | for every run, stream and direction, what Read returned is a prefix of what the peer's Write sent |
| MuxTheorems.EofOnlyAfterEverything | internal/mux/mux.go:360-426 | at EOF all the peer sent has been read and its CLOSE has been sent |
| MuxTheorems.NothingWithheld | internal/mux/mux.go:343-426 | with nothing in flight, a stream in the table with a drained queue has delivered every byte sent |
| MuxTheorems.ClosedForGood | internal/mux/mux.go:428-480 | once CLOSE is sent no continuation of the run sends another byte on the stream |
| MuxTheorems.NoProtocolErrors | internal/mux/mux.go:231-298 | two correct sessions never reach a protocol error, all ids are odd, and every queue counts its bytes and stays within its bound |
| MuxTheorems.ReusedIdIsFatal | internal/mux/mux.go:243-251 | an OPEN with an id the acceptor still holds, whichever, fails its session |
| MuxTheorems.OneOpenTooMany | internal/mux/mux.go:148-157 | the bound of 2^31 opens is tight: a run with one more ends in a protocol error |
| MuxTable.TableExactly | internal/mux/mux.go:225-229 | in a settled session a stream out of the table is dead, refused or closed both ways; a dead one is out, and one closed both ways is out unless the session failed |
| MuxFailure.StepMoves | internal/mux/mux.go:107-511 | streams join at the table and leave it for good, failing empties it, and a failed opener gains none |
| MuxFailure.FailureExactly | internal/mux/mux.go:106-141 | in every run, in a failed and settled session a stream is over (dead, or out of the table refused or closed both ways) exactly when it did not join after the failing or has left the table by itself, and those not over are those in the table |
| MuxFailure.OpenerLosesAll | internal/mux/mux.go:124-141 | a failed opener's table is empty, and once settled its streams are all over |
| MuxFailure.LateOpenOutlivesFailure | internal/mux/mux.go:106-141 | a run in which the acceptor has failed, closed and settled with a stream offered, in its table and not dead |
| MuxFailure.LateStreamCanEnd | internal/mux/mux.go:184-202 | a late stream the program refuses is over too: joining late alone does not decide it |
| MuxAnswers.RunHonest | internal/mux/mux.go:144-298 | in every run, what a stream was answered, why it died and every answer and RESET written agree with the frames the other side has put on the pipe and the calls its program has made |
| MuxAnswers.UsableMeansAccepted | internal/mux/mux.go:158-167 | the opener has a stream only when the acceptor has written ACCEPT for it and its program has it |
| MuxAnswers.RefusalIsReal | internal/mux/mux.go:264-274 | an Open is told of a refusal only when REFUSE with that reason was written, by the program refusing it so or as busy with sixteen offers waiting |
| MuxAnswers.AcceptedNeverRefused | internal/mux/mux.go:184-202 | a stream the acceptor's program has is never refused, neither written so nor told so, and its ACCEPT has been written |
| MuxAnswers.AnswersArrive | internal/mux/mux.go:264-274 | an answer written and off the pipe is the answer of its stream, if that is still in the opener's table |
| MuxAnswers.AnswersAgree | internal/mux/mux.go:158-202 | with no frame of it in flight and the acceptor settled and not failed, a stream in the opener's table is granted if the acceptor has it and denied with the acceptor's reason if it turned it away |
| MuxAnswers.ResetsHaveCauses | internal/mux/mux.go:275-291 | a stream dies of a reset only when one of both ends had a reason to reset it: its program, a given-up Open, a close, an overflow |
| MuxResets.EndedStreamsDie | internal/mux/mux.go:184-202 | a stream reset, closed, given up or turned away is dead and out of the table once the calls in flight are through |
| MuxResets.ResetEndsBoth | internal/mux/mux.go:275-291 | a stream that died of a reset is out of the other end's table too, once settled with no frame of it in flight |
| MuxEnding.ClosedSessionsFail | internal/mux/mux.go:106-141 | a session closed by its program, or whose read loop has ended, has failed once its calls are through |
| MuxEnding.StopsExactly | internal/mux/mux.go:231-298 | of the frames a correct peer sends the read loop stops at a RESET of the whole session and at nothing else |
| EstimRuntime.LevelMaxFor | internal/estim/estim.go:404-406 | never over the device's top or the scale, nor over the settings |
| EstimRuntime.Window | internal/estim/runtime.go:178-183 | a window between nothing and 30 minutes, the configured one when that fits |
| EstimRuntime.LostMeansEveryReadingFailed | internal/estim/runtime.go:509-562 | a device is given up exactly when each of the tries failed and none for a shutdown |
| EstimRuntime.Runtime.IsArmed | internal/estim/runtime.go:201-209 | held, before its deadline and with the latch clear |
| EstimRuntime.Runtime.RequestCancel | internal/estim/runtime.go:281-284 | sets the latch and nothing else |
| EstimRuntime.Runtime.ClearDeadlines | internal/estim/runtime.go:327 | ends the arm window and its renewal |
| EstimRuntime.Runtime.ReleaseOutputs | internal/estim/runtime.go:685-693 | a driver's release zeroes the output, or fails and leaves no more than there was |
| EstimRuntime.Runtime.GiveUp | internal/estim/runtime.go:474-491 | a fault forgets the device, latched and unarmed, and leaves its output as it is |
| EstimRuntime.Runtime.GiveUpLost | internal/estim/runtime.go:549-561 | a device that stopped answering is given up and then released as far as it can be |
| EstimRuntime.Runtime.Hold | internal/estim/runtime.go:334-372 | a device found is held at zero |
| EstimRuntime.Runtime.LetGo | internal/estim/runtime.go:565-584 | closing releases the device as far as it can and forgets it and the arm |
| EstimRuntime.Runtime.ReleaseDevice | internal/estim/runtime.go:677-708 | how a release ended: at zero if the driver's went through, otherwise with no device held, or at shutdown with it still held |
| EstimRuntime.Runtime.SettleArm | internal/estim/runtime.go:591-626 | an arming that worked opens a window from now; one that failed latches |
| EstimRuntime.Runtime.ExtendArm | internal/estim/runtime.go:632-640 | only an armed device's window is pushed on, to now plus the window |
| EstimRuntime.Runtime.RenewedDevice | internal/estim/runtime.go:647-672 | the device's own countdown is recorded only while armed |
| EstimRuntime.Runtime.SetSettings | internal/estim/runtime.go:247-271 | valid settings are taken; the device is released when armed unless the power stays and the level fits |
| EstimRuntime.Runtime.HealthCheck | internal/estim/runtime.go:509-562 | two tries armed, three otherwise; a lost device is a fault |
| EstimSystem.Session.CompanionAttached | internal/estim/session.go:447-468 | attaching marks the session and says whether it is another than before |
| EstimSystem.Session.HeartbeatAcked | internal/estim/session.go:404-418 | an acknowledgment is noted, and is this session's own only while attached |
| EstimSystem.Session.Forget | internal/estim/session.go:300-317 | a detach first ends the attachment |
| EstimSystem.Session.TryArm | internal/estim/session.go:644-661 | one arming at a time, attached, with a device held and not armed |
| EstimSystem.Session.ArmReturned | internal/estim/session.go:659-670 | the arming in flight is over |
| EstimSystem.Session.TakeTurn | internal/estim/session.go:517-526 | one command at a time |
| EstimSystem.Session.CommandDone | internal/estim/session.go:592-599 | the turn is given back |
| EstimSystem.PlayOn | internal/estim/runtime.go:591-825 | a run continued is one run |
| EstimInvariant.StepKeeps | internal/estim/runtime.go:334-825 | every step of every goroutine keeps the lock discipline, the output bound and the window bound |
| EstimInvariant.PlayKeeps | internal/estim/runtime.go:334-825 | so the invariant holds in every run, whatever the calls, their order and the driver's failures |
| EstimTheorems.ZeroWithoutDeadline | internal/estim/runtime.go:591-708 | if releases succeed, whenever nobody has the device lock and no deadline stands the held device's output is zero |
| EstimTheorems.LevelBounded | internal/estim/runtime.go:776-825 | the output never passes the device's top, nor, once a command has raised it, what that command was given when it started, for a driver that keeps to what it is given |
| EstimTheorems.LatchSticks | internal/estim/runtime.go:776-825 | a latch set while an Execute has the device stays set until it returns, and its driver raises at most once more, the step already polled for |
| EstimTheorems.WindowBounded | internal/estim/runtime.go:178-209 | the deadline is at most 30 minutes past the last arming or extension, and the device's countdown never passes it |
| EstimTheorems.OnlyTheseRenew | internal/estim/runtime.go:591-640 | only an arming that worked and an extension of an armed device move the deadline on, and then to now plus the window |
| EstimTheorems.ExtendsOnlyInSession | internal/estim/session.go:404-418 | an acknowledgment leads to an extension exactly when it is for the session attached, or names none and one is attached |
| EstimTheorems.WindowOpens | internal/estim/runtime.go:591-640 | an arming that worked and an extension of an armed device set the deadline to now plus the configured window, or 30 minutes |
| EstimTheorems.OnlyAcksExtend | internal/estim/session.go:404-418 | nothing but an acknowledgment that found its session attached begins an extension |
| EstimDriving.DriverStartsArmed | internal/estim/runtime.go:776-825 | in every reachable state a goroutine gets on to the driver only from a held device, before its deadline, with the latch clear |
| EstimDriving.RefusedOutsideWindow | internal/estim/runtime.go:800-812 | an actuation command whose turn comes outside the window releases the device instead |
| EstimDriving.DriverGetsBounded | internal/estim/runtime.go:776-825 | the driver is given exactly the commands within bounds, with the least of the three level limits; others release the device |
| EstimDriving.AllowedMeansBounded | internal/estim/estim.go:592-629 | the capability check admits exactly the commands within the numbers of device, settings and scales |
| EstimDriving.OneCommandAtATime | internal/estim/session.go:517-599 | in every run at most one command is on its way to the device or on it |
| EstimDriving.OnlyStartsRamp | internal/estim/runtime.go:776-825 | nothing but a command past all checks gets a driver to execute |
| EstimDriving.ExpiryReleases | internal/estim/runtime.go:712-721 | the expiry check releases exactly a device whose deadline has come |
| EstimDriving.SettingsRelease | internal/estim/runtime.go:247-271 | which new settings release an armed device: those that change the power range or no longer bear the level last read |
| EstimDriving.StaleExactly | internal/estim/session.go:364-378 | a heartbeat tick detaches exactly when the last acknowledgment is over 15 seconds old |
| EstimDriving.ArmingStarts | internal/estim/session.go:644-661 | an arming starts only for an attached session, on a held device not armed, one at a time |
| EstimDriving.HeldOnceReleased | internal/estim/runtime.go:334-372 | a device is held only once its release and a full reading worked, and then at zero and unarmed |
| EstimDriving.HealthLoses | internal/estim/runtime.go:509-562 | a reading that keeps failing gives the device up, latched and unarmed; one that works keeps it |
| EstimDriving.ReleaseKeepsOrLoses | internal/estim/runtime.go:677-708 | a release that is not through leaves a held device only when the program was ending |
| EstimStopping.CommandsHeard | internal/estim/session.go:445-526 | a command is taken up for the session attached, a stop from whichever session as long as one is |
| EstimStopping.CommandsTaken | internal/estim/session.go:517-629 | a stop latches at once and goes on whatever is running; any other command only when none is, with an id and well formed |
| EstimStopping.ReleasesGoThrough | internal/estim/runtime.go:677-825 | whoever is on the way from a stop, a fault or a limit to a release gets there: no device held or one brought down, and the arm over |
| EstimStopping.FailuresRelease | internal/estim/runtime.go:776-825 | every end of an actuation but a clean one releases the device |
| EstimStopping.SelectionsWait | internal/estim/runtime.go:420-455 | a selection goes on only while nothing is armed, and lets a held device go only for another |
| EstimStopping.SettingsHeard | internal/estim/session.go:473-496 | settings are taken only for the session attached, and only valid ones |
| EstimStopping.RenewsExactly | internal/estim/runtime.go:642-672 | a device's own countdown is renewed only while armed and a minute behind the window, and recorded only if still armed |
| EstimDetach.DetachQuiescence | internal/estim/session.go:300-317 | a detach that met no arming waiting for the device leaves it unarmed and no driver executing in every state until the next attach; the output zero if its release went through, and otherwise that of no held device unless the release was cut off by shutdown |
| EstimDetach.DisarmLasts | internal/estim/runtime.go:591-825 | once disarmed with no session attached, no step arms, drives or raises the output until one attaches |
| EstimOvertaking.OvertakenExactly | internal/estim/session.go:300-317 | in every reachable state where a detach is about to begin, some continuation ends detached and armed exactly when an arming is then waiting for the device |
| EstimOvertaking.ArmingWins | internal/estim/session.go:644-678 | with an arming waiting, whatever else holds the device, the detach can go through and the arming after it |
| EstimOvertaking.DetachDuringArming | internal/estim/session.go:644-678 | a run that ends detached and armed |
| EstimOvertaking.StaleTickDetaches | internal/estim/session.go:364-378 | a heartbeat tick over 15 s after the last acknowledgment goes through a detach, after which, if it met no arming waiting, the device is unarmed |
| ServeNal.ClassifyH264 | internal/serve/gate.go:200-234 | the scan classifies an H.264 payload as its specification does |
| ServeNal.ClassifyH265 | internal/serve/gate.go:239-273 | the scan classifies an H.265 payload as its specification does |
| ServeNal.AggregateKind | internal/serve/gate.go:200-273 | an aggregation packet of RFC 6184 section 5.7.1 or RFC 7798 section 4.4.2 is a keyframe exactly when a unit in it starts one |
| ServeNal.FragmentKind | internal/serve/gate.go:200-273 | a fragment of RFC 6184 section 5.8 or RFC 7798 section 4.4.3 is what its unit is if it starts it, and says nothing otherwise |
| ServeUnits.ClassesExactly | internal/serve/gate.go:185-273 | a payload is a keyframe's exactly when a unit begun in it is of type 5, 7 or 8 (H.265: 16-21, 32-34), and another frame's exactly when none is and one is of type 1-4 (H.265: 0-15) |
| ServeUnits.PacketClasses | internal/serve/gate.go:185-273 | the same for packets built from a single unit, an aggregation or a fragment, by the types of the units begun in them |
| ServeTrack.Track.BeginsAccessUnit | internal/serve/gate.go:83-89 | a packet begins an access unit when its timestamp is new |
| ServeTrack.Track.Classified | internal/serve/gate.go:185-193 | what a packet carries, or a keyframe per access unit for a codec not known |
| ServeTrack.Track.Arrived | internal/serve/gate.go:109-121 | dropping starts only with an access unit that finds the tunnel behind |
| ServeTrack.Track.Settled | internal/serve/gate.go:122-140 | the first packet that says what it is settles its access unit, and an ended episode is reported |
| ServeTrack.Track.AdmitPacket | internal/serve/gate.go:109-148 | admit as a whole: the packet's fate, the gate's state and the episode |
| ServeTrack.Track.Readied | internal/serve/gate.go:154-175 | the continuity a packet is stamped with |
| ServeTrack.Track.Stamp | internal/serve/gate.go:154-181 | source, number and timestamp as the readers are owed them |
| ServeTrack.Track.TakenOver | internal/serve/serve.go:595-599 | a new publisher marks the track |
| ServeRuns.GateDecidesWholeUnits | internal/serve/gate.go:109-148 | packet by packet the gate does what deciding whole access units does: all, none, or the suffix from the packet that recognises a keyframe uncongested |
| ServeRuns.UnitPasses | internal/serve/gate.go:109-148 | what passes of one access unit is a suffix of it |
| ServeRuns.ResumesAtKeyframe | internal/serve/gate.go:122-140 | the first packet out after a dropped one starts a keyframe and saw no congestion |
| ServeRuns.DropsFromCongestion | internal/serve/gate.go:109-121 | dropping starts exactly with a congested packet that begins an access unit |
| ServeRuns.EpisodeCounts | internal/serve/gate.go:91-148 | an episode reports exactly the packets dropped since the last one out and the access units they began |
| ServeRuns.ReadersSeeOneStream | internal/serve/gate.go:154-181 | over any publishers and drops: one SSRC, consecutive numbers, source time steps within a publisher, and at a change a step of max(1, gap times clock) |
| ServeUnits.ResumesOnKeyUnit | internal/serve/gate.go:109-148 | the first packet out after a dropped one starts a unit of a keyframe, with the tunnel caught up |
| ServeUnits.ResumesExactly | internal/serve/gate.go:109-148 | while dropping, an access unit goes out from packet k on exactly when k is the first packet that says anything, starts a unit of a keyframe and finds the tunnel caught up |
| ServeUnits.UnknownCodec | internal/serve/gate.go:185-198 | of a codec the gate cannot read an access unit goes out whole or not at all, by its first packet |
| ServeTimed.TimedWriter.Flush | internal/serve/timed.go:110-129 | every held packet is written, in order, whatever fails; the first error is returned |
| ServeTimed.TimedWriter.Write | internal/serve/timed.go:58-105 | writes, holds or flushes as the step function says, returning the first error of the writes it caused |
| ServeTimed.MediasApart | internal/serve/timed.go:64-69 | each media is held and written as if it were alone |
| ServeTimed.HoldsThenWrites | internal/serve/timed.go:58-129 | in closed form, which packets wait, when the hold ends and what time every packet goes out with |
| ServeTimed.NothingLost | internal/serve/timed.go:58-129 | in any interleaving a media's packets are written or held, once each, in order, fewer than 256 held |
| ServeTimed.ReportTimesAll | internal/serve/timed.go:77-83 | a report in time gives every packet up to it the source's time |
| ServePublication.PlayKeeps | internal/serve/serve.go:341-644 | the accounting of publishers holds in every run |
| ServePublication.PublishersAccounted | internal/serve/serve.go:522-602 | while open, the publishers not yet released are those owed and, unless released, the current one |
| ServePublication.ClosesOnlyUnpublished | internal/serve/serve.go:534-564 | neither a release nor the grace timer closes it while a publisher remains |
| ServePublication.NeverAbandoned | internal/serve/serve.go:534-564 | open without a publisher, this generation's timer is set or has gone off |
| ServePublication.Hold.Announce | internal/serve/serve.go:522-529 | a handover is armed until a deadline |
| ServePublication.Hold.Left | internal/serve/serve.go:534-564 | a release is owed, closes, or waits with a timer of its generation |
| ServePublication.Hold.Joined | internal/serve/serve.go:573-602 | a joining publisher stops the timer and owes its predecessor's release |
| ServePublication.Hold.IsStale | internal/serve/serve.go:551-559 | a timer closes only while its own generation waits |
| ServeHandover.HandoverExactly | internal/serve/serve.go:522-602 | a handover is armed until exactly the last announcement's deadline, eight seconds if it names none, unless somebody joined on it or the stream closed |
| ServeHandover.JoinsExactly | internal/serve/serve.go:341-360 | another publisher can join exactly while that deadline is ahead |
| ServeHandover.LeavingExactly | internal/serve/serve.go:534-564 | a release ends an open stream exactly when nobody else is left and no handover is armed; under one it starts the timer for what is left of it |
| ServeHandover.WaitsUntilDue | internal/serve/serve.go:534-564 | without a replacement and a Close the stream stays open until that timer is due, whatever older timers do |
| ServeHandover.DueEnds | internal/serve/serve.go:546-564 | the due timer ends the stream, unless somebody has joined first |
| Pesig.FindImageEnd | internal/pesig/pesig.go:139-161 | the section loop finds the furthest end of raw data |
| Pesig.ParseHead | internal/pesig/pesig.go:80-114 | the DOS and COFF headers, or none |
| Pesig.ParseOptional | internal/pesig/pesig.go:115-164 | the optional header's fields and the sections behind it |
| Pesig.Parse | internal/pesig/pesig.go:80-172 | the header as specified, or the error of the check that fails |
| Pesig.Cut | internal/pesig/pesig.go:195-210 | a signed file is cut at its table, and at its image when only the tool's padding lies between |
| Pesig.ClearFields | internal/pesig/pesig.go:211-214 | security entry and checksum become zero and nothing else changes |
| Pesig.Strip | internal/pesig/pesig.go:188-216 | the stripped file, or the error |
| Pesig.LayoutInsensitive | internal/pesig/pesig.go:80-172 | neither an overlay nor the fields signing writes change how a file parses |
| PesigSigning.SignParses | internal/pesig/pesig.go:80-172 | a signed file parses to the same layout and the table put on |
| PesigSigning.StripUndoesSigning | internal/pesig/pesig.go:179-226 | stripping the signed file and the plain one agree exactly when nothing lies past the image, or the overlay ends on 8 and is not just the padding |
| PesigExactly.ParsesExactly | internal/pesig/pesig.go:80-172 | a header is read exactly when the file has it, field by field at the format's offsets, with the image ending where the furthest section's raw data does |
| PesigExactly.StripsExactly | internal/pesig/pesig.go:179-216 | Strip gives a file exactly when it is what is left in front of the signature, less the padding to eight, with checksum and security entry zero |
| Payload.Check | internal/payload/payload.go:118-132 | the first bad entry, or the manifest's files and the total size |
| Payload.Append | internal/payload/payload.go:98-157 | the package, or the error |
| Payload.Pack | internal/payload/payload.go:143-156 | executable, alignment, files, manifest and footer, grown by appends |
| Payload.Walk | internal/payload/payload.go:255-278 | the first bad file, or where each starts and where the last ends |
| Payload.FindFooter | internal/payload/payload.go:198-225 | the search back over at most seven zeros |
| Payload.LocateAt | internal/payload/payload.go:227-284 | a footer's payload, or the error |
| Payload.Locate | internal/payload/payload.go:198-284 | the payload of a file, or why there is none |
| Payload.Open | internal/payload/payload.go:300-307 | the first file of that name, and none only if no file has it |
| Payload.Strip | internal/payload/payload.go:389-398 | the file up to its payload |
| PayloadRoundTrip.ShiftedMisses | internal/payload/payload.go:198-225 | a footer shifted by one to seven bytes never looks like one |
| PayloadRoundTrip.AppendLocates | internal/payload/payload.go:98-284 | what Append made, Locate reads back in full, with up to seven zeros after it; the length is a multiple of 8 |
| PayloadRoundTrip.SectionsHoldData | internal/payload/payload.go:255-307 | each file's section is its data |
| PayloadRoundTrip.StripsBack | internal/payload/payload.go:389-398 | Strip gives back exactly the executable |
| PayloadRoundTrip.SignedPackageStrips | internal/pesig/pesig.go:188-216 | the signature comes off a signed package and leaves the package of the normalized executable |
| PayloadRoundTrip.SignedPackageLocates | internal/payload/payload.go:198-225 | the payload is found in a signed package too |
| PayloadRoundTrip.SignThenStrip | internal/payload/payload.go:389-398 | append, sign, strip the signature, strip the payload: the published executable, normalized |
| PayloadPaths.ValidExactly | internal/payload/payload.go:162-183 | a name is taken exactly when it is 1 to 200 bytes of allowed characters and every segment goes one directory further down |
| PayloadPaths.AppendedStayBelow | internal/payload/payload.go:98-132 | every entry Append takes resolves strictly below the directory, without leaving it, to a place of its own, and holds no backslash, colon or control character |
| PayloadPaths.LocatedStayBelow | internal/payload/payload.go:198-284 | so does every file of a payload Locate finds, whoever made it |
| PayloadExactly.LocatesExactly | internal/payload/payload.go:198-284 | Locate answers a payload exactly when the file has it: magic, numbers, manifest and files end to end as the format describes them |
| PayloadExactly.AppendsExactly | internal/payload/payload.go:98-157 | Append takes an executable and entries exactly when it is an unsigned PE file that ends with its image, and names, sizes and manifest are within the limits |
| Machosig.ReadCommand | internal/machosig/machosig.go:116-124 | one load command, or which check it fails |
| Machosig.TakeCommand | internal/machosig/machosig.go:124-156 | what a command adds to the walk: a segment, a table's end, the signature if it is last |
| Machosig.WalkCommands | internal/machosig/machosig.go:100-156 | the walk, or its first error |
| Machosig.ReadLayout | internal/machosig/machosig.go:74-190 | the layout once every check has passed |
| Machosig.TakeOut | internal/machosig/machosig.go:170-182 | the signature command leaves the header |
| Machosig.Edit | internal/machosig/machosig.go:170-201 | command removed, __LINKEDIT resized, file cut, in a copy |
| Machosig.Strip | internal/machosig/machosig.go:74-202 | the stripped file, or the error |
| MachosigSigning.WalkAlike | internal/machosig/machosig.go:100-156 | the walk does not see the sizes signing changes |
| MachosigSigning.CanBeSigned | internal/machosig/machosig.go:14-22 | a file with zeroed room for the command can be signed with any filler, signature and vmsize |
| MachosigSigning.StripForgetsSignature | internal/machosig/machosig.go:14-22 | signed with any filler, signature and vmsize, a file strips to what it strips to unsigned, exactly when only zeros follow its tables or no filler was put in |
| MachosigSigning.StripIdempotent | internal/machosig/machosig.go:74-202 | what Strip gave, it gives back |
| MachosigSigning.StripChangesNothing | internal/machosig/machosig.go:67-73 | an unsigned file is left as it is exactly when its tables end it, or something other than zeros follows, and vmsize is filesize |
| MachosigTables.CommandTop | internal/machosig/machosig.go:124-150 | the walk takes a command's tables to end at the furthest end its record names: offset plus as many items of the table's kind |
| MachosigTables.WalkTold | internal/machosig/machosig.go:100-156 | over the bytes of any load commands the walk finds the furthest table any of them names, the last __LINKEDIT segment and the signature |
| MachosigTables.EveryFile | internal/machosig/machosig.go:100-156 | every file with a layout is made of such commands |
| MachosigTables.CutExactly | internal/machosig/machosig.go:184-190 | a file is cut behind every table its commands name: at the furthest end, or the segment's start, when only zeros follow, and otherwise where its signature began or not at all |
| MachosigTables.BytesExactly | internal/machosig/machosig.go:170-201 | every byte left is the file's, but for the segment's two sizes and, when signed, the counts and the place of the signature's command |
| MachosigAccepts.AcceptsExactly | internal/machosig/machosig.go:74-190 | a file made of these commands is stripped exactly when header, segment, signature and tables lie as they must |
| Releases.ReadNumber | internal/attest/attest.go:178-190 | a part is a number of one to nine digits, and that number |
| Releases.ReleaseNumbers | internal/attest/attest.go:160-192 | a tag's three numbers and its pre-release, or not a release |
| Releases.Compare | internal/attest/attest.go:205-228 | numbers first, then a pre-release before its release |
| Releases.ReadsWhatIsWritten | internal/attest/attest.go:160-192 | every tag written reads back to its numbers and pre-release |
| Releases.CompareIsPreorder | internal/attest/attest.go:205-228 | on all strings the comparison is antisymmetric and transitive |
| Releases.OrderOfReleases | internal/attest/attest.go:200-228 | on tags it is the order of their numbers and pre-releases, builds ignored |
| Releases.ReleasesExactly | internal/attest/attest.go:160-192 | a string is a release exactly when it is v, three numbers of one to nine digits, a pre-release behind a dash or none, and nothing or a plus and anything; and it reads as these numbers |
| Floors.HostAllowed | internal/attest/attest.go:889-907 | a host, not an address, under one of the suffixes |
| Floors.SignerKeyID | internal/attest/attest.go:508-517 | a listed key that signed the image, and none only if there is none |
| Floors.CheckStamp | internal/attest/attest.go:578-588 | the release stamp against the policy's minimum |
| Floors.CheckClaims | internal/attest/attest.go:559-658 | every reason to refuse, in order |
| Floors.RefsTransitive | internal/attest/floors.go:188-196 | containment of image references is transitive over tags, digests and paths |
| Floors.HostsTransitive | internal/attest/floors.go:165-186 | a host under a suffix under a floor is under the floor |
| Floors.HeldPolicy.Apply | internal/attest/floors.go:83-163 | the policy raised in place and every contradiction with a floor |
| FloorsTighten.AcceptsMeansMeets | internal/attest/attest.go:559-658 | no reason to refuse exactly when every check passes |
| FloorsTighten.ApplyOnlyTightens | internal/attest/floors.go:72-163 | without contradictions, whatever the raised policy accepts the served one accepts and every floor is met |
| FloorsTighten.RaisedExactly | internal/attest/floors.go:83-163 | the raised policy accepts exactly what the served one accepts, meets every floor, is signed by a key in both lists and is hosted under a served suffix under a floor |
| FloorsTighten.ApplyCanBeStricter | internal/attest/floors.go:83-163 | the other way need not hold: an enclave both accept and the raised policy refuses |
| FloorsTighten.KeepsAll | internal/attest/floors.go:99-136 | narrowing a list drops nothing exactly when every entry qualifies |
| FloorsTighten.ApplyIdempotent | internal/attest/floors.go:83-163 | applied to its own result it objects to nothing and changes nothing, exactly when it filled in no blank host suffix |
| FloorsMeaning.HostsExactly | internal/attest/attest.go:889-907 | a host is let through exactly when it is no address and is some name, a dot and a suffix |
| FloorsMeaning.RefsExactly | internal/attest/floors.go:188-196 | a reference lies under a prefix exactly when it is the image, the image with a tag or digest, or anything under a path |
| FloorsMeaning.TrimsSlashes | internal/attest/attest.go:611-613 | two trainer addresses are compared but for the slashes they end with |
| FloorsMeaning.RefusalsExactly | internal/attest/attest.go:559-658 | the reasons listed are exactly those there are, each in its own words, and an enclave is accepted exactly when there is none |
| FloorsMeaning.ObjectionsExactly | internal/attest/floors.go:83-163 | Apply objects for exactly the reasons there are |
| FloorsMeaning.RaisedWithinFloors | internal/attest/floors.go:83-163 | without objections the raised source is the floors', the keys are in both lists, the minimum is no older than the floor, the switches are as strict, and nothing else changed |
| Gateway.TargetBelongsAlways | internal/gateway/gateway.go:265-523 | in every run the target is its connector's: nobody else is expected or attached while it stands |
| Gateway.ReExpectKeepsTarget | internal/gateway/gateway.go:453-490 | a new expectation keeps the target exactly when it is for the target's connector, attached or expected |
| Gateway.AttachedTicketNeverExpires | internal/gateway/gateway.go:217-238 | an attached connector's ticket stays good |
| Gateway.TargetSurvives | internal/gateway/gateway.go:457-466 | a target outlives drops, re-dials and new tickets of its connector |
| Gateway.Server.HandleExpect | internal/gateway/gateway.go:453-490 | the new expectation, and the session to close |
| Gateway.Server.HandleTarget | internal/gateway/gateway.go:492-513 | a target is taken only through an attached connector |
| Gateway.Server.ForgetSession | internal/gateway/gateway.go:515-523 | clearing forgets expectation and target |
| Gateway.Server.DropConnector | internal/gateway/gateway.go:290-298 | the attached session is dropped and closed |
| Gateway.Server.AttachConnector | internal/gateway/gateway.go:265-280 | a handshake counts only for the expectation that stands |
| Gateway.Server.DetachConnector | internal/gateway/gateway.go:282-288 | only the session attached detaches |
| Gateway.Server.Admit | internal/gateway/gateway.go:219-238 | the expectation a ticket is good for |
| GatewayRuns.AdmitsExactly | internal/gateway/gateway.go:217-238 | after any calls a ticket is admitted exactly when the last expectation, not cleared since, has its hash and has not expired or its connector has been attached under it |
| GatewayRuns.AttachedExactly | internal/gateway/gateway.go:265-298 | the tunnel held is that of the last accepted handshake, unless it ended, was dropped, or another connector was expected since |
| GatewayRuns.TargetExactly | internal/gateway/gateway.go:453-523 | the target is the last chosen while a tunnel was held, if nothing was cleared and no other connector expected since |
| Swap.Installer.Mv | internal/update/install.go:249-255 | a rename is logged exactly when it works |
| Swap.Installer.Undo | internal/update/install.go:243-248 | the log is undone from its end and .previous removed |
| Swap.Installer.PutInPlace | internal/update/install.go:256-277 | one entry: what it displaces moved aside, then itself moved in, up to the rename that fails |
| Swap.Installer.SwapFiles | internal/update/install.go:231-279 | the entries in order up to the first failure, then the undo |
| Swap.DistinctSwaps | internal/update/install.go:215-279 | with distinct targets, whichever renames fail, every entry is in place and nothing else moved, or everything is where it was |
| SwapCollision.CollisionLosesFile | internal/update/install.go:256-277 | for every staged directory with a shared target some course of the renames ends as neither |
| SwapCollision.FailureLoses | internal/update/install.go:243-277 | when the target was installed, failing to move the second entry in leaves nothing under its name after the undo |
| SwapCollision.AllOrNothingExactly | internal/update/install.go:215-279 | a swap is all or nothing, whichever renames fail, exactly when the targets are distinct |
| SwapNames.ClashExactly | internal/update/install.go:256-277 | targets are distinct exactly unless the program and a file of its installed name are staged side by side |
| SwapNames.SwapsByName | internal/update/install.go:215-279 | without such a clash a swap installs every entry under its name, the program under the one it runs under, and sets aside what they displace, or leaves every file where it was |
| SwapNames.WorkingSwapGoesThrough | internal/update/install.go:231-279 | it goes through when every rename works |

## Left out

- MuxObjects.Sender.Write: the connection takes every frame and nothing closes the stream meanwhile; failing writes and interleavings are steps of the run model (`MuxSession.RunWriter`), where a Write call is its frames one by one.
- Swap.Installer.SwapFiles: failures of ReadDir and MkdirAll, before anything has moved; a directory tree is one entry; undo renames work.
- EstimDetach.DetachQuiescence: the promise needs that no arming waits for the device as the detach begins; `EstimOvertaking.OvertakenExactly` shows that this is exact.
- EstimTheorems.LevelBounded: against the settings in force when the command started, since settings change without the device lock; that a driver keeps to the level it is given is its contract and taken as such.
- EstimTheorems.WindowBounded: an extension is made after the acknowledgment it answers, by as much as scheduling delays it; the window runs from the extension.
- ServeRuns.ReadersSeeOneStream: gap times clock is computed in floating point by the program and exactly here; a step of 2^32 or more is whatever the platform's conversion gives, an input of the model.
- ServePublication.PublishersAccounted: one Publish is one step; one that stalls between its check and its join for longer than the grace is not modelled, nor a packet of the old publisher in flight at a join.
- Pesig.Parse: reading at the end of a file is a failure even for no bytes, so an image with no sections that ends there is refused, as by the program's reader.
- Machosig.Strip: the package that opens the file is a parameter; __LINKEDIT lies after the load commands where the theorems say so.
- Floors.HeldPolicy.Apply: strings compare by character; validation of the served policy, token verification and the nonce bindings behind `Claims.bound` are not modelled.
- Gateway.Server.HandleTarget: the check of the address itself.
- Universal Mach-O files: taken apart slice by slice by the program, refused here as by Strip.
- The device's outbox, telemetry ring and status messages: queues and reports that decide nothing about the output.
- The fault path stores the latch between two sections; here it is merged with the one it adjoins. The two reads before an automatic arming are one step.
- The sender-report time a packet carries to the readers, and setting a source's clock aside when it is far off.
- Reading back, hashing and extracting a payload on disk: hashing and file system calls.
- The gateway's relays, its own streams and its status: they read the control state and do not change it.
- The bundle form of an update, staging, and the updater's later undo after a failed restart.
- Network, TLS, WebSocket, HTTP, RTSP, Bluetooth, serial and ffmpeg code, the desktop window, menus and messages.
