/**
 Safety of one recovery session, over every interleaving of its own continuations with arrivals,
 stops, closes and client exits: what is handed to the host is contiguous, the checkpoint is the
 last confirmed position, the buffers stay bounded and indexed, terminal phases are silent, and a
 snapshot recovery makes at most two attempts.
 */
module RecoverySafety {
  import opened Wrappers
  import opened RuntimeCursors
  import opened RecoveryBarrier
  import opened RecoveryBuffers
  import opened RecoverySession

  // ---------------------------------------------------------------------------------------------
  // Reading the log of host calls
  // ---------------------------------------------------------------------------------------------

  /** Where the stream stands: the last starting cursor or handed event. */
  ghost function StreamPosition(log: seq<Entry>): Position {
    if log == [] then None
    else
      match log[|log| - 1]
      case Anchor(position) => position
      case Handed(event) => Some(event.cursor)
      case _ => StreamPosition(log[..|log| - 1])
  }

  /** What the host has confirmed: the last starting cursor or completed event. */
  ghost function ConfirmedPosition(log: seq<Entry>): Position {
    if log == [] then None
    else
      match log[|log| - 1]
      case Anchor(position) => position
      case Completed(event) => Some(event.cursor)
      case _ => ConfirmedPosition(log[..|log| - 1])
  }

  /** Snapshot requests since the last recovery began. */
  ghost function RequestsInRecovery(log: seq<Entry>): nat {
    if log == [] then 0
    else
      match log[|log| - 1]
      case RecoveryStarted => 0
      case SnapshotRequested => RequestsInRecovery(log[..|log| - 1]) + 1
      case _ => RequestsInRecovery(log[..|log| - 1])
  }

  /** Every handed event is one step after the position reached before it. */
  ghost predicate Stepwise(log: seq<Entry>) {
    log == [] ||
    (&& Stepwise(log[..|log| - 1])
     && (log[|log| - 1].Handed? ==>
           && log[0].Anchor?
           && Distance(StreamPosition(log[..|log| - 1]), Some(log[|log| - 1].event.cursor)) == Ok(1)))
  }

  ghost predicate AtMostTwoAttempts(log: seq<Entry>) {
    forall n :: 0 <= n <= |log| ==> RequestsInRecovery(log[..n]) <= 2
  }

  // ---------------------------------------------------------------------------------------------
  // The invariant
  // ---------------------------------------------------------------------------------------------

  ghost predicate Settled(s: Session) {
    StreamPosition(s.log) == s.checkpoint
  }

  ghost predicate AttemptOk(s: Session, caller: Caller) {
    caller.FromSnapshot? ==> caller.attempt < 2 && RequestsInRecovery(s.log) == caller.attempt + 1
  }

  ghost predicate LoopOk(s: Session, loop: Loop) {
    && (loop.InResume? ==> AttemptOk(s, loop.caller))
    && (loop.InDrain? ==> s.phase.Live? || Terminal(s.phase))
    && (loop.InResume? ==> !s.phase.Live?)
  }

  ghost predicate PcOk(s: Session) {
    match s.pc
    case AwaitSnapshot(attempt, _) => !s.phase.Live? && attempt < 2 && RequestsInRecovery(s.log) == attempt + 1
    case AwaitApply(attempt, _, _) => !s.phase.Live? && attempt < 2 && RequestsInRecovery(s.log) == attempt + 1
    case AwaitResume(caller, afterCursor) =>
      && !s.phase.Live? && AttemptOk(s, caller)
      && Settled(s) && afterCursor == s.checkpoint && s.buffers.seenOrder == []
    case AwaitHandler(loop, event, rest, previous) =>
      && LoopOk(s, loop)
      && StreamPosition(s.log) == Some(event.cursor)
      && previous == s.checkpoint
      && Unseen(s.buffers, [event] + rest)
    case Delivered(loop) => LoopOk(s, loop) && Settled(s)
    case Rejected(loop, _) => LoopOk(s, loop)
    case Resumed(caller) => AttemptOk(s, caller) && Settled(s) && !s.phase.Live?
    case Failing(_) => true
    case DrainSettled => (s.phase.Live? || Terminal(s.phase)) && (s.phase.Live? ==> Settled(s))
    case Idle =>
      && (s.phase.Live? || Terminal(s.phase))
      && (s.phase.Live? ==> Settled(s) && s.buffers.buffer == [] && s.buffers.integrityError.None?)
    case CallRejected => Terminal(s.phase)
  }

  /** Everything but the program counter. */
  ghost predicate Sound(limits: Limits, s: Session) {
    && Consistent(limits, s.buffers)
    && s.log != [] && s.log[0].Anchor?
    && Stepwise(s.log)
    && AtMostTwoAttempts(s.log)
    && s.checkpoint == ConfirmedPosition(s.log)
    && (Terminal(s.phase) ==> s.buffers.buffer == [] && s.buffers.integrityError.None?)
  }

  ghost predicate Safe(limits: Limits, s: Session) {
    Sound(limits, s) && PcOk(s)
  }

  // ---------------------------------------------------------------------------------------------
  // Extending the log
  // ---------------------------------------------------------------------------------------------

  lemma LogExtends(log: seq<Entry>, entry: Entry)
    requires log != [] && log[0].Anchor? && Stepwise(log) && AtMostTwoAttempts(log)
    requires entry.Handed? ==> Distance(StreamPosition(log), Some(entry.event.cursor)) == Ok(1)
    requires entry.SnapshotRequested? ==> RequestsInRecovery(log) < 2
    ensures var extended := log + [entry];
            && extended[0].Anchor? && Stepwise(extended) && AtMostTwoAttempts(extended)
            && StreamPosition(extended) ==
               (match entry case Anchor(p) => p case Handed(e) => Some(e.cursor) case _ => StreamPosition(log))
            && ConfirmedPosition(extended) ==
               (match entry case Anchor(p) => p case Completed(e) => Some(e.cursor) case _ => ConfirmedPosition(log))
            && RequestsInRecovery(extended) ==
               (match entry case RecoveryStarted => 0
                            case SnapshotRequested => RequestsInRecovery(log) + 1
                            case _ => RequestsInRecovery(log))
  {
    var extended := log + [entry];
    assert extended[..|log|] == log;
    forall n | 0 <= n <= |extended| ensures RequestsInRecovery(extended[..n]) <= 2 {
      if n <= |log| {
        assert extended[..n] == log[..n];
      } else {
        assert extended[..n] == extended;
        assert log[..|log|] == log;
      }
    }
  }

  // ---------------------------------------------------------------------------------------------
  // Each synchronous piece
  // ---------------------------------------------------------------------------------------------

  lemma FailStateSafe(limits: Limits, s: Session)
    requires Sound(limits, s)
    ensures Sound(limits, FailState(s)) && Terminal(FailState(s).phase)
  {
    if !Terminal(s.phase) {
      LogExtends(s.log, ErrorReported);
    }
  }

  lemma CatchCallSafe(limits: Limits, s: Session)
    requires Sound(limits, s)
    ensures Safe(limits, CatchCall(s))
  {
    FailStateSafe(limits, s);
  }

  lemma RequestSnapshotSafe(limits: Limits, s: Session, attempt: nat, origin: Origin, owned: bool)
    requires Sound(limits, s) && attempt < 2
    requires RequestsInRecovery(s.log) == attempt
    ensures Safe(limits, RequestSnapshot(s, attempt, origin, owned))
  {
    if Active(s, owned) {
      LogExtends(s.log, SnapshotRequested);
    }
  }

  lemma SnapshotAndResumeSafe(limits: Limits, s: Session, origin: Origin, owned: bool)
    requires Sound(limits, s)
    ensures Safe(limits, SnapshotAndResume(s, origin, owned))
  {
    if Active(s, owned) {
      LogExtends(s.log, RecoveryStarted);
      RequestSnapshotSafe(limits, s.(log := s.log + [RecoveryStarted]), 0, origin, owned);
    }
  }

  lemma {:induction false} DeliverSafe(limits: Limits, s: Session, loop: Loop, batch: seq<Event>, previous: Position, owned: bool)
    requires Sound(limits, s) && Settled(s) && previous == s.checkpoint
    requires LoopOk(s, loop) && Unseen(s.buffers, batch)
    ensures Safe(limits, Deliver(s, loop, batch, previous, owned))
    decreases |batch|
  {
    if batch != [] && Active(s, owned) {
      var step := Distance(previous, Some(batch[0].cursor));
      if step.Ok? && step.value <= 0 {
        UnseenSuffix(s.buffers, batch);
        DeliverSafe(limits, s, loop, batch[1..], previous, owned);
      } else if step == Ok(1) {
        LogExtends(s.log, Handed(batch[0]));
        assert batch == [batch[0]] + batch[1..];
      }
    }
  }

  lemma CatchDrainSafe(limits: Limits, s: Session, failure: Failure, owned: bool)
    requires Sound(limits, s)
    ensures Safe(limits, CatchDrain(s, failure, owned))
  {
    if failure.Integrity? {
      SnapshotAndResumeSafe(limits, s, LiveDrain, owned);
    } else {
      FailStateSafe(limits, s);
    }
  }

  lemma ThrowOrDrainSafe(limits: Limits, s: Session, owned: bool)
    requires Sound(limits, s) && Settled(s) && (s.phase.Live? || Terminal(s.phase))
    ensures Safe(limits, ThrowOrDrain(s, owned))
  {
    if s.buffers.integrityError.Some? {
      CatchDrainSafe(limits, s, Integrity(s.buffers.integrityError.value), owned);
    } else if s.buffers.buffer != [] {
      var taken := s.(buffers := TakeBuffer(s.buffers));
      PrepareBatchSpec(taken.buffers, s.buffers.buffer);
      match PrepareBatch(taken.buffers, s.buffers.buffer) {
        case Err(reason) => CatchDrainSafe(limits, taken, Integrity(reason), owned);
        case Ok(batch) => DeliverSafe(limits, taken, InDrain, batch, taken.checkpoint, owned);
      }
    }
  }

  lemma ScheduleLiveDrainSafe(limits: Limits, s: Session, owned: bool)
    requires Sound(limits, s)
    requires s.pc.Idle? ==> (s.phase.Live? || Terminal(s.phase)) && (s.phase.Live? ==> Settled(s))
    requires !s.pc.Idle? ==> PcOk(s)
    ensures Safe(limits, ScheduleLiveDrain(s, owned))
  {
    if s.phase.Live? && s.pc.Idle? && (s.buffers.buffer != [] || s.buffers.integrityError.Some?) {
      ThrowOrDrainSafe(limits, s, owned);
    }
  }

  // ---------------------------------------------------------------------------------------------
  // Each continuation
  // ---------------------------------------------------------------------------------------------

  lemma OnSnapshotSafe(limits: Limits, s: Session, c: Completion, owned: bool)
    requires Safe(limits, s) && s.pc.AwaitSnapshot?
    ensures Safe(limits, OnSnapshot(s, s.pc.attempt, s.pc.origin, c, owned))
  {
    LogExtends(s.log, SnapshotApplied);
  }

  lemma OnAppliedSafe(limits: Limits, s: Session, c: Completion, owned: bool)
    requires Safe(limits, s) && s.pc.AwaitApply?
    ensures Safe(limits, OnApplied(s, s.pc.attempt, s.pc.origin, s.pc.snapshotCursor, c, owned))
  {
    if s.pc.snapshotCursor.Some? {
      LogExtends(s.log, Anchor(s.pc.snapshotCursor.value));
    }
  }

  lemma OnResumeResultSafe(limits: Limits, s: Session, c: Completion, owned: bool)
    requires Safe(limits, s) && s.pc.AwaitResume?
    ensures Safe(limits, OnResumeResult(s, s.pc.caller, s.pc.afterCursor, c, owned))
  {
    if c.ResumeReturned? && Active(s, owned) && s.buffers.integrityError.None? {
      var taken := s.(phase := Draining, buffers := TakeBuffer(s.buffers));
      var batch := ValidateBarrier(s.buffers.buffer, s.pc.afterCursor, c.barrier);
      if batch.Ok? {
        AcceptedBatchIsUnseen(taken.buffers, s.buffers.buffer, s.pc.afterCursor, c.barrier);
        DeliverSafe(limits, taken, InResume(s.pc.caller), batch.value, s.pc.afterCursor, owned);
      }
    }
  }

  /** The first batch skips the seen check, which is sound because the window is empty then. */
  lemma AcceptedBatchIsUnseen(b: Buffers, batch: seq<Event>, afterCursor: Position, barrier: Barrier)
    requires DistinctIds(batch) && DistinctCursors(batch)
    requires SeenIndexed(b) && b.seenOrder == []
    requires ValidateBarrier(batch, afterCursor, barrier).Ok?
    ensures Unseen(b, ValidateBarrier(batch, afterCursor, barrier).value)
  {
    AcceptedBatchStartsWithTheReplay(batch, afterCursor, barrier);
    var result := ValidateBarrier(batch, afterCursor, barrier).value;
    assert b.seenByEventId == map[];
    assert forall i :: 0 <= i < |result| ==> result[i] in result && result[i] in batch;
    forall i, j | 0 <= i < j < |result|
      ensures result[i].eventId != result[j].eventId && result[i].cursor != result[j].cursor
    {
      assert result[i] != result[j];
    }
  }

  lemma OnHandlerSafe(limits: Limits, s: Session, c: Completion, owned: bool)
    requires limits.Valid() && Safe(limits, s) && s.pc.AwaitHandler?
    ensures Safe(limits, OnHandler(limits, s, s.pc.loop, s.pc.event, s.pc.rest, c, owned))
  {
    if c.HandlerReturned? && Active(s, owned) {
      var event := s.pc.event;
      RememberKeepsConsistent(limits, s.buffers, event, s.pc.rest);
      LogExtends(s.log, Completed(event));
      var remembered := s.(
        checkpoint := Some(event.cursor),
        log := s.log + [Completed(event)],
        buffers := RememberDelivered(limits, s.buffers, event));
      DeliverSafe(limits, remembered, s.pc.loop, s.pc.rest, Some(event.cursor), owned);
    }
  }

  lemma OnDeliveredSafe(limits: Limits, s: Session, owned: bool)
    requires Safe(limits, s) && s.pc.Delivered?
    ensures Safe(limits, OnDelivered(s, s.pc.loop, owned))
  {
    if s.pc.loop.InDrain? {
      ThrowOrDrainSafe(limits, s, owned);
    } else if s.buffers.integrityError.None? && s.buffers.buffer != [] {
      var taken := s.(buffers := TakeBuffer(s.buffers));
      PrepareBatchSpec(taken.buffers, s.buffers.buffer);
      var batch := PrepareBatch(taken.buffers, s.buffers.buffer);
      if batch.Ok? {
        DeliverSafe(limits, taken, s.pc.loop, batch.value, taken.checkpoint, owned);
      }
    }
  }

  lemma OnRejectedSafe(limits: Limits, s: Session, owned: bool)
    requires Safe(limits, s) && s.pc.Rejected?
    ensures Safe(limits, OnRejected(s, s.pc.loop, s.pc.failure, owned))
  {
    if s.pc.loop.InDrain? {
      CatchDrainSafe(limits, s, s.pc.failure, owned);
    } else if s.pc.loop.caller.Direct? {
      if FallbackReason(s.pc.failure).None? {
        CatchCallSafe(limits, s);
      } else {
        SnapshotAndResumeSafe(limits, s, Starting, owned);
      }
    } else if s.pc.loop.caller.attempt == 0 {
      RequestSnapshotSafe(limits, s, 1, s.pc.loop.caller.origin, owned);
    }
  }

  lemma OnResumedSafe(limits: Limits, s: Session, owned: bool)
    requires Safe(limits, s) && s.pc.Resumed?
    ensures Safe(limits, OnResumed(s, s.pc.caller, owned))
  {
    if Active(s, owned) {
      ScheduleLiveDrainSafe(limits, s.(phase := Live, pc := Idle), owned);
    } else {
      CatchCallSafe(limits, s);
      FailStateSafe(limits, s);
    }
  }

  lemma OnFailingSafe(limits: Limits, s: Session, origin: Origin)
    requires Safe(limits, s)
    ensures Safe(limits, OnFailing(s, origin))
  {
    if origin.Starting? {
      CatchCallSafe(limits, s);
    } else {
      FailStateSafe(limits, s);
    }
  }

  /** Every continuation of a session keeps it safe. */
  lemma ContinueKeepsSafe(limits: Limits, s: Session, c: Completion, owned: bool)
    requires limits.Valid() && Safe(limits, s)
    ensures Safe(limits, Continue(limits, s, c, owned))
  {
    match s.pc
    case AwaitSnapshot(_, _) => OnSnapshotSafe(limits, s, c, owned);
    case AwaitApply(_, _, _) => OnAppliedSafe(limits, s, c, owned);
    case AwaitResume(_, _) => OnResumeResultSafe(limits, s, c, owned);
    case AwaitHandler(_, _, _, _) => OnHandlerSafe(limits, s, c, owned);
    case Delivered(_) => OnDeliveredSafe(limits, s, owned);
    case Rejected(_, _) => OnRejectedSafe(limits, s, owned);
    case Resumed(_) => OnResumedSafe(limits, s, owned);
    case Failing(origin) => OnFailingSafe(limits, s, origin);
    case DrainSettled => ScheduleLiveDrainSafe(limits, s.(pc := Idle), owned);
    case Idle =>
    case CallRejected =>
  }

  /** Arrivals touch the buffer and the integrity error only. */
  ghost predicate SameWindow(b: Buffers, after: Buffers) {
    b.seenOrder == after.seenOrder && b.seenByEventId == after.seenByEventId && b.seenByCursor == after.seenByCursor
  }

  lemma BufferEventKeepsWindow(limits: Limits, b: Buffers, event: Event)
    ensures SameWindow(b, BufferEvent(limits, b, event))
  {
  }

  lemma ArrivalSafe(limits: Limits, s: Session, buffers: Buffers, owned: bool)
    requires Safe(limits, s) && !Terminal(s.phase)
    requires Consistent(limits, buffers) && SameWindow(s.buffers, buffers)
    ensures Safe(limits, ScheduleLiveDrain(s.(buffers := buffers), owned))
  {
    var arrived := s.(buffers := buffers);
    assert !arrived.pc.Idle? ==> PcOk(arrived);
    ScheduleLiveDrainSafe(limits, arrived, owned);
  }

  /** Every notification keeps the session safe, at whichever await it is suspended. */
  lemma AcceptKeepsSafe(limits: Limits, s: Session, arrival: Arrival, owned: bool)
    requires limits.Valid() && Safe(limits, s)
    ensures Safe(limits, Accept(limits, s, arrival, owned))
  {
    if !Terminal(s.phase) {
      match arrival
      case OtherRuntimeInstance => ArrivalSafe(limits, s, MarkIntegrity(s.buffers, CursorConflict), owned);
      case NotRecoverable => ArrivalSafe(limits, s, MarkIntegrity(s.buffers, CursorConflict), owned);
      case Ephemeral => LogExtends(s.log, EphemeralSeen);
      case Durable(event) =>
        BufferEventKeepsConsistent(limits, s.buffers, event);
        BufferEventKeepsWindow(limits, s.buffers, event);
        ArrivalSafe(limits, s, BufferEvent(limits, s.buffers, event), owned);
    }
  }

  lemma StopKeepsSafe(limits: Limits, s: Session)
    requires Safe(limits, s)
    ensures Safe(limits, Stop(s))
  {
  }

  lemma FailKeepsSafe(limits: Limits, s: Session)
    requires Safe(limits, s)
    ensures Safe(limits, FailState(s))
  {
    if !Terminal(s.phase) {
      LogExtends(s.log, ErrorReported);
    }
  }

  lemma StartIsSafe(limits: Limits, thread: ThreadId, kind: StartKind)
    requires limits.Valid()
    ensures Safe(limits, Start(thread, kind))
  {
    var cursor := if kind.Checkpoint? then kind.cursor else None;
    var log := [Anchor(cursor)];
    assert log[..0] == [] && log[..1] == log;
    assert Stepwise(log) && AtMostTwoAttempts(log);
    if !kind.Checkpoint? {
      SnapshotAndResumeSafe(limits, Session(thread, Buffering, cursor, Empty, Idle, log), Starting, true);
    }
  }
}
