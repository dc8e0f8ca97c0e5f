/**
 One call of `resumeThread` and the live drains that follow it, cut at every `await`
 (`packages/client-node/src/runtime-event-recovery.ts`, lines 349-707 and 804-886).

 `Pc` names the `await` at which the session is suspended. Between two of the session's own steps
 the environment may deliver events, stop the thread, close the manager or exit the client; that
 includes the microtask gaps between an awaited call settling and its caller going on.
 */
module RecoverySession {
  import opened Wrappers
  import opened RuntimeCursors
  import opened RecoveryBarrier
  import opened RecoveryBuffers

  type ThreadId = Id

  datatype Phase = Buffering | Draining | Live | Failed | Stopped

  /** Why an awaited call rejected: a stream integrity error, a cursor error code, or anything else. */
  datatype Failure = Integrity(reason: Reason) | CursorRpc(expired: bool) | Other

  /** Who awaits `snapshotAndResume`. */
  datatype Origin = Starting | LiveDrain

  /** Who awaits `resumeFrom`. */
  datatype Caller = Direct | FromSnapshot(attempt: nat, origin: Origin)

  /** Who awaits `deliverBatch`. */
  datatype Loop = InResume(caller: Caller) | InDrain

  datatype Pc =
    | AwaitSnapshot(attempt: nat, origin: Origin)
    | AwaitApply(attempt: nat, origin: Origin, snapshotCursor: Option<Position>)
    | AwaitResume(caller: Caller, afterCursor: Position)
    | AwaitHandler(loop: Loop, event: Event, rest: seq<Event>, previous: Position)
    | Delivered(loop: Loop)
    | Rejected(loop: Loop, failure: Failure)
    | Resumed(caller: Caller)
    | Failing(origin: Origin)
    | DrainSettled
    | Idle
    | CallRejected

  /** What the host of the manager observes, in order. */
  datatype Entry =
    | Anchor(position: Position)            // a starting cursor: the caller's checkpoint or an applied snapshot
    | Handed(event: Event)                  // onDurableEvent was called
    | Completed(event: Event)               // ... and its promise resolved while the session was active
    | RecoveryStarted                       // snapshotAndResume was entered
    | SnapshotRequested
    | SnapshotApplied                       // applySnapshot was called
    | EphemeralSeen                         // onEphemeralEvent was called
    | ErrorReported                         // onError was called

  datatype Session = Session(
    thread: ThreadId,
    phase: Phase,
    checkpoint: Position,
    buffers: Buffers,
    pc: Pc,
    log: seq<Entry>)

  /** What `acceptEvent` makes of a notification for the session's thread. */
  datatype Arrival = OtherRuntimeInstance | Ephemeral | NotRecoverable | Durable(event: Event)

  /** How an awaited call settles. */
  datatype Completion =
    | SnapshotReceived(recoveryProjection: bool, eventCursor: Option<Position>)
    | ApplyReturned
    | ResumeReturned(barrier: Barrier)
    | HandlerReturned
    | CallFailed(failure: Failure)
    | Microtask

  predicate Terminal(phase: Phase) {
    phase.Failed? || phase.Stopped?
  }

  /** `assertActive`; `owned` says that the manager is open and its map still holds this session. */
  predicate Active(s: Session, owned: bool) {
    owned && !Terminal(s.phase)
  }

  function FallbackReason(failure: Failure): Option<Reason> {
    match failure
    case Integrity(reason) => Some(reason)
    case CursorRpc(expired) => Some(if expired then CursorExpired else CursorGap)
    case Other => None
  }

  // ---------------------------------------------------------------------------------------------
  // Synchronous pieces of the async methods
  // ---------------------------------------------------------------------------------------------

  function FailState(s: Session): Session {
    if Terminal(s.phase) then s
    else s.(phase := Failed, buffers := ClearBuffer(s.buffers), log := s.log + [ErrorReported])
  }

  /** The loop head of `snapshotAndResume`, up to `requestSnapshot`. */
  function RequestSnapshot(s: Session, attempt: nat, origin: Origin, owned: bool): Session {
    if !Active(s, owned) then s.(pc := Failing(origin))
    else s.(phase := Buffering, pc := AwaitSnapshot(attempt, origin), log := s.log + [SnapshotRequested])
  }

  /** `snapshotAndResume` up to its first `await`. */
  function SnapshotAndResume(s: Session, origin: Origin, owned: bool): Session {
    if !Active(s, owned) then s.(pc := Failing(origin))
    else RequestSnapshot(s.(log := s.log + [RecoveryStarted]), 0, origin, owned)
  }

  /** `deliverBatch` up to its next `await`. */
  function Deliver(s: Session, loop: Loop, batch: seq<Event>, previous: Position, owned: bool): Session
    decreases |batch|
  {
    if batch == [] then s.(pc := Delivered(loop))
    else if !Active(s, owned) then s.(pc := Rejected(loop, Other))
    else
      match Distance(previous, Some(batch[0].cursor))
      case Err(_) => s.(pc := Rejected(loop, Integrity(CursorConflict)))
      case Ok(distance) =>
        if distance <= 0 then Deliver(s, loop, batch[1..], previous, owned)
        else if distance != 1 then s.(pc := Rejected(loop, Integrity(StreamGap)))
        else s.(log := s.log + [Handed(batch[0])], pc := AwaitHandler(loop, batch[0], batch[1..], previous))
  }

  /** The `catch` of `drainLive`. */
  function CatchDrain(s: Session, failure: Failure, owned: bool): Session {
    if failure.Integrity? then SnapshotAndResume(s, LiveDrain, owned)
    else FailState(s).(pc := DrainSettled)
  }

  /** One round of the `while` loop of `drainLive`: take the buffer and start delivering it. */
  function DrainRound(s: Session, owned: bool): Session {
    if s.buffers.buffer == [] then s.(pc := DrainSettled)
    else
      var taken := s.(buffers := TakeBuffer(s.buffers));
      match PrepareBatch(taken.buffers, s.buffers.buffer)
      case Err(reason) => CatchDrain(taken, Integrity(reason), owned)
      case Ok(batch) => Deliver(taken, InDrain, batch, taken.checkpoint, owned)
  }

  function ThrowOrDrain(s: Session, owned: bool): Session {
    match s.buffers.integrityError
    case Some(reason) => CatchDrain(s, Integrity(reason), owned)
    case None => DrainRound(s, owned)
  }

  /** `scheduleLiveDrain`; a drain is under way exactly when a live session is not idle. */
  function ScheduleLiveDrain(s: Session, owned: bool): Session {
    if s.phase.Live? && s.pc.Idle? && (s.buffers.buffer != [] || s.buffers.integrityError.Some?)
    then ThrowOrDrain(s, owned)
    else s
  }

  /** `catch` of `resumeThread`. */
  function CatchCall(s: Session): Session {
    FailState(s).(pc := CallRejected)
  }

  // ---------------------------------------------------------------------------------------------
  // Continuations
  // ---------------------------------------------------------------------------------------------

  function OnSnapshot(s: Session, attempt: nat, origin: Origin, c: Completion, owned: bool): Session {
    if c.SnapshotReceived? && Active(s, owned) && c.recoveryProjection
    then s.(log := s.log + [SnapshotApplied], pc := AwaitApply(attempt, origin, c.eventCursor))
    else s.(pc := Failing(origin))
  }

  function OnApplied(s: Session, attempt: nat, origin: Origin, cursor: Option<Position>, c: Completion, owned: bool): Session {
    if c.ApplyReturned? && Active(s, owned) && cursor.Some? then
      s.(buffers := ForgetSeen(ClearBuffer(s.buffers)),
         checkpoint := cursor.value,
         phase := Buffering,
         log := s.log + [Anchor(cursor.value)],
         pc := AwaitResume(FromSnapshot(attempt, origin), cursor.value))
    else s.(pc := Failing(origin))
  }

  function OnResumeResult(s: Session, caller: Caller, afterCursor: Position, c: Completion, owned: bool): Session {
    if c.CallFailed? then s.(pc := Rejected(InResume(caller), c.failure))
    else if !c.ResumeReturned? || !Active(s, owned) then s.(pc := Rejected(InResume(caller), Other))
    else
      var draining := s.(phase := Draining);
      match s.buffers.integrityError
      case Some(reason) => draining.(pc := Rejected(InResume(caller), Integrity(reason)))
      case None =>
        var taken := draining.(buffers := TakeBuffer(s.buffers));
        match ValidateBarrier(s.buffers.buffer, afterCursor, c.barrier)
        case Err(reason) => taken.(pc := Rejected(InResume(caller), Integrity(reason)))
        case Ok(batch) => Deliver(taken, InResume(caller), batch, afterCursor, owned)
  }

  function OnHandler(limits: Limits, s: Session, loop: Loop, event: Event, rest: seq<Event>, c: Completion, owned: bool): Session {
    if c.CallFailed? then s.(pc := Rejected(loop, c.failure))
    else if !c.HandlerReturned? || !Active(s, owned) then s.(pc := Rejected(loop, Other))
    else
      var remembered := s.(
        checkpoint := Some(event.cursor),
        log := s.log + [Completed(event)],
        buffers := RememberDelivered(limits, s.buffers, event));
      Deliver(remembered, loop, rest, Some(event.cursor), owned)
  }

  function OnDelivered(s: Session, loop: Loop, owned: bool): Session {
    if loop.InDrain? then ThrowOrDrain(s, owned)
    else
      match s.buffers.integrityError
      case Some(reason) => s.(pc := Rejected(loop, Integrity(reason)))
      case None =>
        if s.buffers.buffer == [] then s.(pc := Resumed(loop.caller))
        else
          var taken := s.(buffers := TakeBuffer(s.buffers));
          match PrepareBatch(taken.buffers, s.buffers.buffer)
          case Err(reason) => taken.(pc := Rejected(loop, Integrity(reason)))
          case Ok(batch) => Deliver(taken, loop, batch, taken.checkpoint, owned)
  }

  function OnRejected(s: Session, loop: Loop, failure: Failure, owned: bool): Session {
    if loop.InDrain? then CatchDrain(s, failure, owned)
    else if loop.caller.Direct? then
      if FallbackReason(failure).None? then CatchCall(s) else SnapshotAndResume(s, Starting, owned)
    else if FallbackReason(failure).None? || loop.caller.attempt == 1 then s.(pc := Failing(loop.caller.origin))
    else RequestSnapshot(s, loop.caller.attempt + 1, loop.caller.origin, owned)
  }

  function OnResumed(s: Session, caller: Caller, owned: bool): Session {
    if caller.FromSnapshot? && caller.origin.LiveDrain? then
      if Active(s, owned) then s.(phase := Live, pc := DrainSettled) else FailState(s).(pc := DrainSettled)
    else if !Active(s, owned) then CatchCall(s)
    else ScheduleLiveDrain(s.(phase := Live, pc := Idle), owned)
  }

  function OnFailing(s: Session, origin: Origin): Session {
    if origin.Starting? then CatchCall(s) else FailState(s).(pc := DrainSettled)
  }

  /** Runs the continuation of the `await` at which the session is suspended. */
  function Continue(limits: Limits, s: Session, c: Completion, owned: bool): Session {
    match s.pc
    case AwaitSnapshot(attempt, origin) => OnSnapshot(s, attempt, origin, c, owned)
    case AwaitApply(attempt, origin, cursor) => OnApplied(s, attempt, origin, cursor, c, owned)
    case AwaitResume(caller, afterCursor) => OnResumeResult(s, caller, afterCursor, c, owned)
    case AwaitHandler(loop, event, rest, _) => OnHandler(limits, s, loop, event, rest, c, owned)
    case Delivered(loop) => OnDelivered(s, loop, owned)
    case Rejected(loop, failure) => OnRejected(s, loop, failure, owned)
    case Resumed(caller) => OnResumed(s, caller, owned)
    case Failing(origin) => OnFailing(s, origin)
    case DrainSettled => ScheduleLiveDrain(s.(pc := Idle), owned)
    case Idle => s
    case CallRejected => s
  }

  // ---------------------------------------------------------------------------------------------
  // Environment steps
  // ---------------------------------------------------------------------------------------------

  /** `acceptEvent`, for the session that owns the thread. */
  function Accept(limits: Limits, s: Session, arrival: Arrival, owned: bool): Session {
    if Terminal(s.phase) then s
    else
      match arrival
      case OtherRuntimeInstance => ScheduleLiveDrain(s.(buffers := MarkIntegrity(s.buffers, CursorConflict)), owned)
      case NotRecoverable => ScheduleLiveDrain(s.(buffers := MarkIntegrity(s.buffers, CursorConflict)), owned)
      case Ephemeral => if s.phase.Live? then s.(log := s.log + [EphemeralSeen]) else s
      case Durable(event) => ScheduleLiveDrain(s.(buffers := BufferEvent(limits, s.buffers, event)), owned)
  }

  /** `stopThread` and `close`, for one session. */
  function Stop(s: Session): Session {
    s.(phase := Stopped, buffers := ClearBuffer(s.buffers))
  }

  datatype StartKind = NoCheckpoint | OtherInstance | Checkpoint(cursor: Position)

  /** `resumeThread` up to its first `await`. */
  function Start(thread: ThreadId, kind: StartKind): Session {
    var cursor := if kind.Checkpoint? then kind.cursor else None;
    var session := Session(thread, Buffering, cursor, Empty, Idle, [Anchor(cursor)]);
    if kind.Checkpoint? then session.(pc := AwaitResume(Direct, cursor))
    else SnapshotAndResume(session, Starting, true)
  }
}
