/**
 Nothing accepted is lost: once the barrier accepts a replay, every replayed event reaches the host
 and the checkpoint ends at the barrier, as long as the session stays active and handlers return.
 */
module RecoveryProgress {
  import opened Wrappers
  import opened RuntimeCursors
  import opened RecoveryBarrier
  import opened RecoveryBuffers
  import opened RecoverySession
  import opened RecoverySafety
  import opened RecoveryManager

  /** Lets `n` handlers return, one after the other. */
  function AfterHandlers(limits: Limits, s: Session, n: nat): Session
    decreases n
  {
    if n == 0 then s else AfterHandlers(limits, Continue(limits, s, HandlerReturned, true), n - 1)
  }

  /** Each of the first `n` events is one step after the one before it. */
  ghost predicate StepsFrom(previous: Position, batch: seq<RecoveryBarrier.Event>, n: nat)
    requires n <= |batch|
  {
    forall i :: 0 <= i < n ==> StepsAt(previous, batch, i)
  }

  ghost predicate StepsAt(previous: Position, batch: seq<RecoveryBarrier.Event>, i: nat)
    requires i < |batch|
  {
    Distance(if i == 0 then previous else Some(batch[i - 1].cursor), Some(batch[i].cursor)) == Ok(1)
  }

  /** One round: the first event is handed over, its handler returns, and delivery goes on behind it. */
  lemma OneHandler(limits: Limits, s: Session, loop: Loop, batch: seq<RecoveryBarrier.Event>, previous: Position) returns (next: Session)
    requires Active(s, true) && batch != [] && StepsAt(previous, batch, 0)
    ensures Active(next, true) && next.checkpoint == Some(batch[0].cursor)
    ensures HandedIn(next.log) == HandedIn(s.log) + [batch[0]]
    ensures Continue(limits, Deliver(s, loop, batch, previous, true), HandlerReturned, true) ==
            Deliver(next, loop, batch[1..], Some(batch[0].cursor), true)
  {
    var delivering := Deliver(s, loop, batch, previous, true);
    var event := batch[0];
    assert delivering.pc == AwaitHandler(loop, event, batch[1..], previous);
    next := delivering.(
      checkpoint := Some(event.cursor),
      log := delivering.log + [Completed(event)],
      buffers := RememberDelivered(limits, delivering.buffers, event));
    HandedAndCompleted(s.log, event);
  }

  lemma HandedAndCompleted(log: seq<Entry>, event: RecoveryBarrier.Event)
    ensures HandedIn(log + [Handed(event)] + [Completed(event)]) == HandedIn(log) + [event]
  {
    assert (log + [Handed(event)])[..|log|] == log;
    var extended := log + [Handed(event)];
    assert (extended + [Completed(event)])[..|extended|] == extended;
  }

  lemma StepsBehindFirst(previous: Position, batch: seq<RecoveryBarrier.Event>, n: nat)
    requires 0 < n <= |batch| && StepsFrom(previous, batch, n)
    ensures StepsAt(previous, batch, 0) && StepsFrom(Some(batch[0].cursor), batch[1..], n - 1)
  {
    assert StepsAt(previous, batch, 0);
    forall i | 0 <= i < n - 1 ensures StepsAt(Some(batch[0].cursor), batch[1..], i) {
      assert StepsAt(previous, batch, i + 1);
    }
  }

  lemma PrefixBehindFirst<T>(before: seq<T>, batch: seq<T>, n: nat)
    requires 0 < n <= |batch|
    ensures before + batch[..n] == before + [batch[0]] + batch[1..][..n - 1]
  {
  }

  lemma {:induction false} StepsAreHandedOver(limits: Limits, s: Session, loop: Loop, batch: seq<RecoveryBarrier.Event>, previous: Position, n: nat)
    requires Active(s, true) && s.checkpoint == previous && n <= |batch| && StepsFrom(previous, batch, n)
    ensures var after := AfterHandlers(limits, Deliver(s, loop, batch, previous, true), n);
            && HandedIn(s.log) + batch[..n] <= HandedIn(after.log)
            && after.checkpoint == (if n == 0 then previous else Some(batch[n - 1].cursor))
            && Active(after, true)
    decreases n
  {
    if n == 0 {
      DeliverOnlyHands(s, loop, batch, previous);
      assert HandedIn(s.log) + batch[..0] == HandedIn(s.log);
    } else {
      StepsBehindFirst(previous, batch, n);
      var next := OneHandler(limits, s, loop, batch, previous);
      StepsAreHandedOver(limits, next, loop, batch[1..], Some(batch[0].cursor), n - 1);
      PrefixBehindFirst(HandedIn(s.log), batch, n);
    }
  }

  lemma {:induction false} DeliverOnlyHands(s: Session, loop: Loop, batch: seq<RecoveryBarrier.Event>, previous: Position)
    requires Active(s, true)
    ensures var after := Deliver(s, loop, batch, previous, true);
            && HandedIn(s.log) <= HandedIn(after.log)
            && after.checkpoint == s.checkpoint && Active(after, true)
    decreases |batch|
  {
    if batch != [] {
      var step := Distance(previous, Some(batch[0].cursor));
      if step.Ok? && step.value <= 0 {
        DeliverOnlyHands(s, loop, batch[1..], previous);
      } else {
        assert (s.log + [Handed(batch[0])])[..|s.log|] == s.log;
      }
    }
  }

  /**
   When the resume call returns with a barrier that the buffered batch satisfies, the host is handed
   the whole replay in order, and after the last handler the checkpoint stands at the barrier.
   */
  lemma AcceptedReplayReachesTheHost(limits: Limits, s: Session, barrier: Barrier)
    requires Safe(limits, s) && s.pc.AwaitResume? && !Terminal(s.phase) && s.buffers.integrityError.None?
    requires ValidateBarrier(s.buffers.buffer, s.pc.afterCursor, barrier).Ok?
    ensures var after := AfterHandlers(limits, Continue(limits, s, ResumeReturned(barrier), true), barrier.replayedCount);
            && Ordinal(after.checkpoint) == Ordinal(barrier.throughCursor)
            && exists replay :: && |replay| == barrier.replayedCount
                                && Contiguous(s.pc.afterCursor, replay)
                                && HandedIn(s.log) + replay <= HandedIn(after.log)
  {
    var afterCursor, n := s.pc.afterCursor, barrier.replayedCount;
    var batch := ValidateBarrier(s.buffers.buffer, afterCursor, barrier).value;
    AcceptedBatchSteps(s.buffers.buffer, afterCursor, barrier);
    var taken := s.(phase := Draining, buffers := TakeBuffer(s.buffers));
    assert Continue(limits, s, ResumeReturned(barrier), true) == Deliver(taken, InResume(s.pc.caller), batch, afterCursor, true);
    StepsAreHandedOver(limits, taken, InResume(s.pc.caller), batch, afterCursor, n);
    assert Contiguous(afterCursor, batch[..n]);
  }

  /** The accepted batch begins with the replay, one step after another, and the replay ends at the barrier. */
  lemma AcceptedBatchSteps(buffer: seq<RecoveryBarrier.Event>, afterCursor: Position, barrier: Barrier)
    requires DistinctCursors(buffer) && ValidateBarrier(buffer, afterCursor, barrier).Ok?
    ensures var batch, n := ValidateBarrier(buffer, afterCursor, barrier).value, barrier.replayedCount;
            && n <= |batch| && StepsFrom(afterCursor, batch, n) && Contiguous(afterCursor, batch[..n])
            && Ordinal(if n == 0 then afterCursor else Some(batch[n - 1].cursor)) == Ordinal(barrier.throughCursor)
  {
    AcceptedBatchStartsWithTheReplay(buffer, afterCursor, barrier);
    BarrierAcceptsIffComplete(buffer, afterCursor, barrier);
    ReplaySteps(ValidateBarrier(buffer, afterCursor, barrier).value, buffer, afterCursor, barrier.replayedCount);
  }

  lemma ReplaySteps(batch: seq<RecoveryBarrier.Event>, buffer: seq<RecoveryBarrier.Event>, afterCursor: Position, n: nat)
    requires n <= |batch| && PairwiseComparable(buffer)
    requires forall e :: e in batch ==> e in buffer
    requires forall e :: e in buffer ==> Comparable(Some(e.cursor), afterCursor)
    requires forall i :: 0 <= i < n ==> batch[i].cursor.threadSequence == Ordinal(afterCursor) + 1 + i
    ensures StepsFrom(afterCursor, batch, n)
    ensures Contiguous(afterCursor, batch[..n])
  {
    forall i | 0 <= i < n ensures StepsAt(afterCursor, batch, i) {
      assert batch[i] in batch;
      if i == 0 {
        DistanceAgreesWithCompare(afterCursor, Some(batch[0].cursor));
      } else {
        assert EventsComparable(batch[i - 1], batch[i]);
        DistanceAgreesWithCompare(Some(batch[i - 1].cursor), Some(batch[i].cursor));
      }
    }
    forall k, l | 0 <= k < l < n ensures batch[k].cursor.eventLogId == batch[l].cursor.eventLogId {
      assert EventsComparable(batch[k], batch[l]);
    }
  }
}
