/**
 The recovery manager: which session owns a thread, the published checkpoints, and every run of
 the manager against an arbitrary environment
 (`packages/client-node/src/runtime-event-recovery.ts`, lines 316-520).

 A session is an index into `sessions`: the identity of the program's state object. Sessions stay
 in the list after the map of owners has dropped them, because their suspended calls still go on.
 */
module RecoveryManager {
  import opened Wrappers
  import opened RuntimeCursors
  import opened RecoveryBarrier
  import opened RecoveryBuffers
  import opened RecoverySession
  import opened RecoverySafety

  datatype Manager = Manager(
    limits: Limits,
    closed: bool,
    sessions: seq<Session>,
    states: map<ThreadId, nat>,
    checkpoints: map<ThreadId, Position>)

  datatype Event =
    | ResumeThread(thread: ThreadId, kind: StartKind)
    | Settle(session: nat, completion: Completion)
    | Arrive(thread: ThreadId, arrival: Arrival)
    | StopThread(thread: ThreadId)
    | Close
    | ClientExit

  function Initial(limits: Limits): Manager {
    Manager(limits, false, [], map[], map[])
  }

  /** `states.get(threadId) === state`. */
  predicate Owns(m: Manager, i: nat)
    requires i < |m.sessions|
  {
    m.sessions[i].thread in m.states && m.states[m.sessions[i].thread] == i
  }

  /** The last checkpoint among new log entries; the program publishes each one as it sets it. */
  function LastPublished(entries: seq<Entry>): Option<Position> {
    if entries == [] then None
    else
      match entries[|entries| - 1]
      case Anchor(position) => Some(position)
      case Completed(event) => Some(Some(event.cursor))
      case _ => LastPublished(entries[..|entries| - 1])
  }

  function NewEntries(before: Session, after: Session): seq<Entry> {
    if |before.log| <= |after.log| then after.log[|before.log|..] else []
  }

  /** Stores a session after one of its steps, with the checkpoints that step published. */
  function Store(m: Manager, i: nat, after: Session): Manager
    requires i < |m.sessions|
  {
    var published := LastPublished(NewEntries(m.sessions[i], after));
    m.(sessions := m.sessions[i := after],
       checkpoints := if published.Some? then m.checkpoints[after.thread := published.value] else m.checkpoints)
  }

  function OnResumeThread(m: Manager, thread: ThreadId, kind: StartKind): Manager {
    if m.closed || thread in m.states then m
    else WithNewSession(m, Start(thread, kind))
  }

  function WithNewSession(m: Manager, started: Session): Manager {
    m.(sessions := m.sessions + [started],
       states := m.states[started.thread := |m.sessions|],
       checkpoints := m.checkpoints[started.thread := started.checkpoint])
  }

  function OnSettle(m: Manager, i: nat, c: Completion): Manager
    requires i < |m.sessions|
  {
    var before := m.sessions[i];
    var after := Continue(m.limits, before, c, !m.closed && Owns(m, i));
    var stored := Store(m, i, after);
    // the catch of resumeThread deletes by thread id, whichever session the map holds by then
    if after.pc.CallRejected? && !before.pc.CallRejected? then stored.(states := m.states - {before.thread}) else stored
  }

  function OnArrive(m: Manager, thread: ThreadId, arrival: Arrival): Manager {
    if thread !in m.states || m.states[thread] >= |m.sessions| then m
    else
      var i := m.states[thread];
      Store(m, i, Accept(m.limits, m.sessions[i], arrival, !m.closed))
  }

  function OnStopThread(m: Manager, thread: ThreadId): Manager {
    if thread !in m.states || m.states[thread] >= |m.sessions| then m
    else
      var i := m.states[thread];
      m.(sessions := m.sessions[i := Stop(m.sessions[i])], states := m.states - {thread})
  }

  function OnClose(m: Manager): Manager {
    if m.closed then m
    else
      m.(closed := true,
         sessions := seq(|m.sessions|, i requires 0 <= i < |m.sessions| => if Owns(m, i) then Stop(m.sessions[i]) else m.sessions[i]),
         states := map[])
  }

  function OnClientExit(m: Manager): Manager {
    m.(sessions := seq(|m.sessions|, i requires 0 <= i < |m.sessions| => if Owns(m, i) then FailState(m.sessions[i]) else m.sessions[i]))
  }

  function Step(m: Manager, e: Event): Manager {
    match e
    case ResumeThread(thread, kind) => OnResumeThread(m, thread, kind)
    case Settle(i, c) => if i < |m.sessions| then OnSettle(m, i, c) else m
    case Arrive(thread, arrival) => OnArrive(m, thread, arrival)
    case StopThread(thread) => OnStopThread(m, thread)
    case Close => OnClose(m)
    case ClientExit => OnClientExit(m)
  }

  function Run(m: Manager, events: seq<Event>): Manager {
    if events == [] then m else Step(Run(m, events[..|events| - 1]), events[|events| - 1])
  }

  // ---------------------------------------------------------------------------------------------
  // How a session changes in one step
  // ---------------------------------------------------------------------------------------------

  /** The log only grows; without ownership nothing is published; terminal sessions stay silent. */
  ghost predicate Evolves(before: Session, after: Session, owned: bool) {
    && after.thread == before.thread
    && before.log <= after.log
    && (!owned ==> LastPublished(after.log[|before.log|..]).None? && after.checkpoint == before.checkpoint)
    && (Terminal(before.phase) ==> after.log == before.log && after.phase == before.phase && after.checkpoint == before.checkpoint)
    && (after.pc.CallRejected? && !before.pc.CallRejected? ==> Terminal(after.phase))
    && (!CallUnsettled(before) ==> !CallUnsettled(after) && (after.pc.CallRejected? ==> before.pc.CallRejected?))
  }

  ghost predicate FromCall(caller: Caller) {
    caller.Direct? || caller.origin.Starting?
  }

  /** The session's `resumeThread` call has neither returned nor thrown. */
  ghost predicate CallUnsettled(s: Session) {
    match s.pc
    case AwaitSnapshot(_, origin) => origin.Starting?
    case AwaitApply(_, origin, _) => origin.Starting?
    case AwaitResume(caller, _) => FromCall(caller)
    case AwaitHandler(loop, _, _, _) => loop.InResume? && FromCall(loop.caller)
    case Delivered(loop) => loop.InResume? && FromCall(loop.caller)
    case Rejected(loop, _) => loop.InResume? && FromCall(loop.caller)
    case Resumed(caller) => FromCall(caller)
    case Failing(origin) => origin.Starting?
    case DrainSettled => false
    case Idle => false
    case CallRejected => false
  }

  lemma NothingPublished(log: seq<Entry>, entry: Entry)
    requires !entry.Anchor? && !entry.Completed?
    ensures LastPublished((log + [entry])[|log|..]).None?
  {
    assert (log + [entry])[|log|..] == [entry];
    assert [entry][..0] == [];
  }

  lemma NothingNew(log: seq<Entry>)
    ensures LastPublished(log[|log|..]).None?
  {
  }

  lemma {:induction false} DeliverEvolves(s: Session, loop: Loop, batch: seq<RecoveryBarrier.Event>, previous: Position, owned: bool)
    ensures var after := Deliver(s, loop, batch, previous, owned);
            && after.thread == s.thread && after.phase == s.phase && after.checkpoint == s.checkpoint
            && s.log <= after.log
            && (!Active(s, owned) ==> after.log == s.log)
            && (after.pc.AwaitHandler? || after.pc.Delivered? || after.pc.Rejected?) && after.pc.loop == loop
    decreases |batch|
  {
    if batch != [] && Active(s, owned) {
      var step := Distance(previous, Some(batch[0].cursor));
      if step.Ok? && step.value <= 0 {
        DeliverEvolves(s, loop, batch[1..], previous, owned);
      }
    }
  }

  lemma SnapshotAndResumeEvolves(s: Session, origin: Origin, owned: bool)
    ensures var after := SnapshotAndResume(s, origin, owned);
            && after.thread == s.thread && after.checkpoint == s.checkpoint
            && s.log <= after.log
            && (!Active(s, owned) ==> after.log == s.log && after.phase == s.phase)
            && (after.pc.AwaitSnapshot? || after.pc.Failing?) && after.pc.origin == origin
  {
  }

  lemma ThrowOrDrainEvolves(s: Session, owned: bool)
    ensures var after := ThrowOrDrain(s, owned);
            && after.thread == s.thread && after.checkpoint == s.checkpoint
            && s.log <= after.log
            && (Terminal(s.phase) ==> after.log == s.log && after.phase == s.phase)
            && (!owned ==> LastPublished(after.log[|s.log|..]).None?)
            && !CallUnsettled(after) && !after.pc.CallRejected?
  {
    CatchEvolves(s, owned);
    if s.buffers.integrityError.None? && s.buffers.buffer != [] {
      var taken := s.(buffers := TakeBuffer(s.buffers));
      CatchEvolves(taken, owned);
      var batch := PrepareBatch(taken.buffers, s.buffers.buffer);
      if batch.Ok? {
        DeliverEvolves(taken, InDrain, batch.value, taken.checkpoint, owned);
        NothingNew(s.log);
      }
    }
    NothingNew(s.log);
  }

  lemma CatchEvolves(s: Session, owned: bool)
    ensures forall failure ::
              var after := CatchDrain(s, failure, owned);
              && after.thread == s.thread && after.checkpoint == s.checkpoint
              && s.log <= after.log
              && (Terminal(s.phase) ==> after.log == s.log && after.phase == s.phase)
              && (!owned ==> LastPublished(after.log[|s.log|..]).None?)
              && !CallUnsettled(after) && !after.pc.CallRejected?
  {
    NothingNew(s.log);
    NothingPublished(s.log, ErrorReported);
  }

  lemma ContinueEvolves(limits: Limits, s: Session, c: Completion, owned: bool)
    ensures Evolves(s, Continue(limits, s, c, owned), owned)
  {
    NothingNew(s.log);
    NothingPublished(s.log, ErrorReported);
    match s.pc
    case AwaitSnapshot(_, _) =>
    case AwaitApply(_, _, _) =>
    case AwaitResume(caller, afterCursor) => ResumeResultEvolves(s, caller, afterCursor, c, owned);
    case AwaitHandler(loop, event, rest, _) => HandlerEvolves(limits, s, loop, event, rest, c, owned);
    case Delivered(loop) => DeliveredEvolves(s, loop, owned);
    case Rejected(loop, failure) => RejectedEvolves(s, loop, failure, owned);
    case Resumed(caller) => ResumedEvolves(s, caller, owned);
    case Failing(_) =>
    case DrainSettled => ThrowOrDrainEvolves(s.(pc := Idle), owned);
    case Idle =>
    case CallRejected =>
  }

  lemma ResumeResultEvolves(s: Session, caller: Caller, afterCursor: Position, c: Completion, owned: bool)
    requires s.pc.AwaitResume? && s.pc.caller == caller
    ensures Evolves(s, OnResumeResult(s, caller, afterCursor, c, owned), owned)
  {
    NothingNew(s.log);
    if c.ResumeReturned? && Active(s, owned) && s.buffers.integrityError.None? {
      var taken := s.(phase := Draining, buffers := TakeBuffer(s.buffers));
      var batch := ValidateBarrier(s.buffers.buffer, afterCursor, c.barrier);
      if batch.Ok? {
        DeliverEvolves(taken, InResume(caller), batch.value, afterCursor, owned);
      }
    }
  }

  lemma HandlerEvolves(limits: Limits, s: Session, loop: Loop, event: RecoveryBarrier.Event, rest: seq<RecoveryBarrier.Event>, c: Completion, owned: bool)
    requires s.pc.AwaitHandler? && s.pc.loop == loop
    ensures Evolves(s, OnHandler(limits, s, loop, event, rest, c, owned), owned)
  {
    NothingNew(s.log);
    if c.HandlerReturned? && Active(s, owned) {
      var remembered := s.(
        checkpoint := Some(event.cursor),
        log := s.log + [Completed(event)],
        buffers := RememberDelivered(limits, s.buffers, event));
      DeliverEvolves(remembered, loop, rest, Some(event.cursor), owned);
    }
  }

  lemma DeliveredEvolves(s: Session, loop: Loop, owned: bool)
    requires s.pc.Delivered? && s.pc.loop == loop
    ensures Evolves(s, OnDelivered(s, loop, owned), owned)
  {
    NothingNew(s.log);
    if loop.InDrain? {
      ThrowOrDrainEvolves(s, owned);
    } else if s.buffers.integrityError.None? && s.buffers.buffer != [] {
      var taken := s.(buffers := TakeBuffer(s.buffers));
      var batch := PrepareBatch(taken.buffers, s.buffers.buffer);
      if batch.Ok? {
        DeliverEvolves(taken, loop, batch.value, taken.checkpoint, owned);
      }
    }
  }

  lemma RejectedEvolves(s: Session, loop: Loop, failure: Failure, owned: bool)
    requires s.pc.Rejected? && s.pc.loop == loop
    ensures Evolves(s, OnRejected(s, loop, failure, owned), owned)
  {
    NothingNew(s.log);
    NothingPublished(s.log, ErrorReported);
    CatchEvolves(s, owned);
    SnapshotAndResumeEvolves(s, Starting, owned);
  }

  lemma ResumedEvolves(s: Session, caller: Caller, owned: bool)
    requires s.pc.Resumed? && s.pc.caller == caller
    ensures Evolves(s, OnResumed(s, caller, owned), owned)
  {
    NothingNew(s.log);
    NothingPublished(s.log, ErrorReported);
    if Active(s, owned) {
      ThrowOrDrainEvolves(s.(phase := Live, pc := Idle), owned);
    }
  }

  lemma AcceptEvolves(limits: Limits, s: Session, arrival: Arrival, owned: bool)
    ensures Evolves(s, Accept(limits, s, arrival, owned), owned)
  {
    NothingNew(s.log);
    NothingPublished(s.log, EphemeralSeen);
    ThrowOrDrainEvolves(s.(buffers := MarkIntegrity(s.buffers, CursorConflict)), owned);
    if arrival.Durable? {
      ThrowOrDrainEvolves(s.(buffers := BufferEvent(limits, s.buffers, arrival.event)), owned);
    }
  }

  // ---------------------------------------------------------------------------------------------
  // The manager's invariant
  // ---------------------------------------------------------------------------------------------

  ghost function Threads(m: Manager): (threads: seq<ThreadId>)
    ensures |threads| == |m.sessions|
  {
    seq(|m.sessions|, i requires 0 <= i < |m.sessions| => m.sessions[i].thread)
  }

  /** No later session was started for the same thread. */
  ghost predicate Newest(threads: seq<ThreadId>, i: nat)
    requires i < |threads|
  {
    forall j :: i < j < |threads| ==> threads[j] != threads[i]
  }

  ghost predicate SessionsSafe(m: Manager) {
    forall i :: 0 <= i < |m.sessions| ==> Safe(m.limits, m.sessions[i])
  }

  /** The map of owners holds the newest session of a thread, or none. */
  ghost predicate OwnersNewest(m: Manager) {
    forall t :: t in m.states ==>
                  m.states[t] < |m.sessions| && m.sessions[m.states[t]].thread == t && Newest(Threads(m), m.states[t])
  }

  ghost predicate CheckpointsPublished(m: Manager) {
    forall i :: 0 <= i < |m.sessions| && Newest(Threads(m), i) ==> CheckpointPublished(m, i)
  }

  ghost predicate Inv(m: Manager) {
    && m.limits.Valid()
    && (m.closed ==> m.states == map[])
    && SessionsSafe(m) && OwnersNewest(m) && CheckpointsPublished(m)
  }

  /** `getCheckpoint` answers with the checkpoint of this session. */
  ghost predicate CheckpointPublished(m: Manager, i: nat)
    requires i < |m.sessions|
  {
    m.sessions[i].thread in m.checkpoints && m.checkpoints[m.sessions[i].thread] == m.sessions[i].checkpoint
  }

  lemma {:induction false} ConfirmedSplits(log: seq<Entry>, extended: seq<Entry>)
    requires log <= extended
    ensures ConfirmedPosition(extended) ==
            var published := LastPublished(extended[|log|..]);
            if published.Some? then published.value else ConfirmedPosition(log)
    decreases |extended|
  {
    if |extended| > |log| {
      var init := extended[..|extended| - 1];
      assert extended[|log|..][..|extended| - |log| - 1] == init[|log|..];
      ConfirmedSplits(log, init);
    } else {
      assert extended == log;
    }
  }

  lemma StoreKeepsInv(m: Manager, i: nat, after: Session)
    requires Inv(m) && i < |m.sessions|
    requires Safe(m.limits, after) && Evolves(m.sessions[i], after, Owns(m, i))
    ensures Inv(Store(m, i, after))
    ensures Threads(Store(m, i, after)) == Threads(m)
  {
    assert Safe(m.limits, m.sessions[i]);
    StoreKeepsOwners(m, i, after);
    StorePublishes(m, i, after);
  }

  lemma StoreKeepsOwners(m: Manager, i: nat, after: Session)
    requires OwnersNewest(m) && i < |m.sessions| && after.thread == m.sessions[i].thread
    ensures OwnersNewest(Store(m, i, after))
    ensures Threads(Store(m, i, after)) == Threads(m)
  {
    assert Threads(Store(m, i, after)) == Threads(m);
  }

  lemma StorePublishes(m: Manager, i: nat, after: Session)
    requires OwnersNewest(m) && CheckpointsPublished(m) && i < |m.sessions|
    requires Evolves(m.sessions[i], after, Owns(m, i))
    requires m.sessions[i].checkpoint == ConfirmedPosition(m.sessions[i].log)
    requires after.checkpoint == ConfirmedPosition(after.log)
    ensures CheckpointsPublished(Store(m, i, after))
  {
    var stored := Store(m, i, after);
    StoreKeepsOwners(m, i, after);
    ConfirmedSplits(m.sessions[i].log, after.log);
    forall j | 0 <= j < |stored.sessions| && Newest(Threads(stored), j) ensures CheckpointPublished(stored, j) {
      assert CheckpointPublished(m, j);
      if m.sessions[j].thread == m.sessions[i].thread && Owns(m, i) {
        OwnerIsTheNewest(m, i, j);
      }
    }
  }

  lemma OwnerIsTheNewest(m: Manager, i: nat, j: nat)
    requires OwnersNewest(m) && i < |m.sessions| && j < |m.sessions|
    requires Owns(m, i) && Newest(Threads(m), j) && m.sessions[i].thread == m.sessions[j].thread
    ensures i == j
  {
    assert Newest(Threads(m), i);
    assert Threads(m)[i] == Threads(m)[j];
  }

  lemma ForgetClaimKeepsInv(m: Manager, thread: ThreadId)
    requires Inv(m)
    ensures Inv(m.(states := m.states - {thread}))
  {
    var after := m.(states := m.states - {thread});
    assert Threads(after) == Threads(m);
    forall j | 0 <= j < |m.sessions| && Newest(Threads(after), j) ensures CheckpointPublished(after, j) {
      assert CheckpointPublished(m, j);
    }
  }

  lemma ResumeThreadKeepsInv(m: Manager, thread: ThreadId, kind: StartKind)
    requires Inv(m)
    ensures Inv(OnResumeThread(m, thread, kind))
  {
    if !m.closed && thread !in m.states {
      StartIsSafe(m.limits, thread, kind);
      NewSessionKeepsInv(m, Start(thread, kind));
    }
  }

  lemma NewSessionKeepsPublished(m: Manager, started: Session)
    requires CheckpointsPublished(m)
    ensures CheckpointsPublished(WithNewSession(m, started))
  {
    var after := WithNewSession(m, started);
    assert Threads(after) == Threads(m) + [started.thread];
    forall j | 0 <= j < |after.sessions| && Newest(Threads(after), j) ensures CheckpointPublished(after, j) {
      if j < |m.sessions| {
        assert Threads(after)[|m.sessions|] == started.thread && Threads(after)[j] == m.sessions[j].thread;
        NewestWithout(Threads(m), started.thread, j);
        assert CheckpointPublished(m, j);
      }
    }
  }

  lemma NewSessionKeepsOwners(m: Manager, started: Session)
    requires OwnersNewest(m) && started.thread !in m.states
    ensures OwnersNewest(WithNewSession(m, started))
  {
    var after := WithNewSession(m, started);
    assert Threads(after) == Threads(m) + [started.thread];
    forall t | t in m.states ensures Newest(Threads(after), m.states[t]) {
      assert Newest(Threads(m), m.states[t]) && t != started.thread;
      assert Threads(m)[m.states[t]] == t;
    }
  }

  lemma NewSessionKeepsInv(m: Manager, started: Session)
    requires Inv(m) && !m.closed && started.thread !in m.states && Safe(m.limits, started)
    ensures Inv(WithNewSession(m, started))
  {
    NewSessionKeepsOwners(m, started);
    NewSessionKeepsPublished(m, started);
  }

  lemma NewestWithout(threads: seq<ThreadId>, thread: ThreadId, j: nat)
    requires j < |threads| && Newest(threads + [thread], j)
    ensures Newest(threads, j)
  {
    forall k | j < k < |threads| ensures threads[k] != threads[j] {
      assert (threads + [thread])[k] == threads[k];
    }
  }

  /** Sessions were stopped or failed in place; the map of owners is unchanged or empty. */
  lemma SessionsChangedInPlace(m: Manager, after: Manager)
    requires OwnersNewest(m) && CheckpointsPublished(m)
    requires after == m.(sessions := after.sessions, closed := after.closed, states := after.states)
    requires after.states == m.states || after.states == map[]
    requires |after.sessions| == |m.sessions|
    requires forall j :: 0 <= j < |m.sessions| ==>
                           && after.sessions[j].thread == m.sessions[j].thread
                           && after.sessions[j].checkpoint == m.sessions[j].checkpoint
    ensures OwnersNewest(after) && CheckpointsPublished(after)
  {
    assert Threads(after) == Threads(m);
    forall j | 0 <= j < |m.sessions| && Newest(Threads(after), j) ensures CheckpointPublished(after, j) {
      assert CheckpointPublished(m, j);
    }
  }

  lemma SettleKeepsInv(m: Manager, i: nat, c: Completion)
    requires Inv(m) && i < |m.sessions|
    ensures Inv(OnSettle(m, i, c))
  {
    var owned := !m.closed && Owns(m, i);
    assert Safe(m.limits, m.sessions[i]);
    assert owned == Owns(m, i);
    ContinueKeepsSafe(m.limits, m.sessions[i], c, owned);
    ContinueEvolves(m.limits, m.sessions[i], c, owned);
    var after := Continue(m.limits, m.sessions[i], c, owned);
    StoreKeepsInv(m, i, after);
    ForgetClaimKeepsInv(Store(m, i, after), m.sessions[i].thread);
  }

  lemma ArriveKeepsInv(m: Manager, thread: ThreadId, arrival: Arrival)
    requires Inv(m)
    ensures Inv(OnArrive(m, thread, arrival))
  {
    if thread in m.states {
      var i := m.states[thread];
      assert Safe(m.limits, m.sessions[i]);
      assert Owns(m, i) == !m.closed;
      AcceptKeepsSafe(m.limits, m.sessions[i], arrival, !m.closed);
      AcceptEvolves(m.limits, m.sessions[i], arrival, !m.closed);
      StoreKeepsInv(m, i, Accept(m.limits, m.sessions[i], arrival, !m.closed));
    }
  }

  lemma StopThreadKeepsInv(m: Manager, thread: ThreadId)
    requires Inv(m)
    ensures Inv(OnStopThread(m, thread))
  {
    if thread in m.states {
      var i := m.states[thread];
      var stopped := m.(sessions := m.sessions[i := Stop(m.sessions[i])]);
      StopKeepsSafe(m.limits, m.sessions[i]);
      SessionsChangedInPlace(m, stopped);
      ForgetClaimKeepsInv(stopped, thread);
    }
  }

  /** Every step of the manager keeps every session safe and every checkpoint published. */
  lemma StepKeepsInv(m: Manager, e: Event)
    requires Inv(m)
    ensures Inv(Step(m, e))
  {
    match e
    case ResumeThread(thread, kind) => ResumeThreadKeepsInv(m, thread, kind);
    case Settle(i, c) =>
      if i < |m.sessions| {
        SettleKeepsInv(m, i, c);
      }
    case Arrive(thread, arrival) => ArriveKeepsInv(m, thread, arrival);
    case StopThread(thread) => StopThreadKeepsInv(m, thread);
    case Close => CloseKeepsInv(m);
    case ClientExit => ClientExitKeepsInv(m);
  }

  lemma CloseKeepsInv(m: Manager)
    requires Inv(m)
    ensures Inv(OnClose(m))
  {
    if !m.closed {
      var after := OnClose(m);
      forall j | 0 <= j < |m.sessions| ensures Safe(m.limits, after.sessions[j]) {
        StopKeepsSafe(m.limits, m.sessions[j]);
      }
      SessionsChangedInPlace(m, after);
    }
  }

  lemma ClientExitKeepsInv(m: Manager)
    requires Inv(m)
    ensures Inv(OnClientExit(m))
  {
    var after := OnClientExit(m);
    forall j | 0 <= j < |m.sessions| ensures Safe(m.limits, after.sessions[j]) {
      FailKeepsSafe(m.limits, m.sessions[j]);
    }
    SessionsChangedInPlace(m, after);
  }

  /** Every run of the manager is safe. */
  lemma {:induction false} EveryRunIsSafe(limits: Limits, events: seq<Event>)
    requires limits.Valid()
    ensures Inv(Run(Initial(limits), events))
  {
    if events != [] {
      EveryRunIsSafe(limits, events[..|events| - 1]);
      StepKeepsInv(Run(Initial(limits), events[..|events| - 1]), events[|events| - 1]);
    }
  }

  // ---------------------------------------------------------------------------------------------
  // Main results
  // ---------------------------------------------------------------------------------------------

  /** The events handed to the host in a stretch of the log. */
  ghost function HandedIn(log: seq<Entry>): seq<RecoveryBarrier.Event> {
    if log == [] then []
    else if log[|log| - 1].Handed? then HandedIn(log[..|log| - 1]) + [log[|log| - 1].event]
    else HandedIn(log[..|log| - 1])
  }

  /** `events` continue `from` one sequence number at a time, within one event log. */
  ghost predicate Contiguous(from: Position, events: seq<RecoveryBarrier.Event>) {
    && (forall k :: 0 <= k < |events| ==> events[k].cursor.threadSequence == Ordinal(from) + 1 + k)
    && (forall k, l :: 0 <= k < l < |events| ==> events[k].cursor.eventLogId == events[l].cursor.eventLogId)
    && (from.Some? ==> forall k :: 0 <= k < |events| ==> events[k].cursor.eventLogId == from.value.eventLogId)
  }

  lemma {:induction false} StepwiseIsContiguous(log: seq<Entry>, a: nat)
    requires Stepwise(log) && a < |log| && log[a].Anchor?
    requires forall i :: a < i < |log| ==> !log[i].Anchor?
    ensures var handed := HandedIn(log[a + 1..]);
            && Contiguous(log[a].position, handed)
            && StreamPosition(log) == if handed == [] then log[a].position else Some(handed[|handed| - 1].cursor)
    decreases |log|
  {
    if a == |log| - 1 {
      assert log[a + 1..] == [];
    } else {
      var init, last := log[..|log| - 1], log[|log| - 1];
      StepwiseIsContiguous(init, a);
      assert log[a + 1..][..|log| - a - 2] == init[a + 1..];
      if last.Handed? {
        DistanceAgreesWithCompare(StreamPosition(init), Some(last.event.cursor));
      }
    }
  }

  lemma {:induction false} StepwisePrefix(log: seq<Entry>, n: nat)
    requires Stepwise(log) && n <= |log|
    ensures Stepwise(log[..n])
    decreases |log|
  {
    if n < |log| {
      StepwisePrefix(log[..|log| - 1], n);
      assert log[..|log| - 1][..n] == log[..n];
    } else {
      assert log[..n] == log;
    }
  }

  /**
   In every run, between one starting cursor and the next, the events handed to `onDurableEvent`
   carry the sequence numbers right after that cursor, without a gap, a repeat or a reorder - for any
   arrival order or duplication, and after the seen window has evicted old ids.
   */
  lemma HandedEventsAreContiguous(limits: Limits, events: seq<Event>, i: nat, a: nat, b: nat)
    requires limits.Valid()
    requires i < |Run(Initial(limits), events).sessions|
    requires var log := Run(Initial(limits), events).sessions[i].log;
             && a < b <= |log| && log[a].Anchor?
             && forall k :: a < k < b ==> !log[k].Anchor?
    ensures var log := Run(Initial(limits), events).sessions[i].log;
            Contiguous(log[a].position, HandedIn(log[a + 1..b]))
  {
    EveryRunIsSafe(limits, events);
    var log := Run(Initial(limits), events).sessions[i].log;
    StepwisePrefix(log, b);
    StepwiseIsContiguous(log[..b], a);
    assert log[..b][a + 1..] == log[a + 1..b];
  }

  /** `getCheckpoint` is the last confirmed position of the newest session of the thread. */
  lemma CheckpointIsTheLastConfirmed(limits: Limits, events: seq<Event>, i: nat)
    requires limits.Valid()
    requires i < |Run(Initial(limits), events).sessions| && Newest(Threads(Run(Initial(limits), events)), i)
    ensures var m := Run(Initial(limits), events);
            && m.sessions[i].thread in m.checkpoints
            && m.checkpoints[m.sessions[i].thread] == ConfirmedPosition(m.sessions[i].log)
  {
    EveryRunIsSafe(limits, events);
    var m := Run(Initial(limits), events);
    assert CheckpointPublished(m, i);
  }

  /** A snapshot recovery asks for at most two snapshots, at every moment of every run. */
  lemma AtMostTwoSnapshotsPerRecovery(limits: Limits, events: seq<Event>, i: nat, n: nat)
    requires limits.Valid()
    requires i < |Run(Initial(limits), events).sessions| && n <= |Run(Initial(limits), events).sessions[i].log|
    ensures RequestsInRecovery(Run(Initial(limits), events).sessions[i].log[..n]) <= 2
  {
    EveryRunIsSafe(limits, events);
  }

  /** In every reachable state each buffer is bounded and indexed, and its seen maps are inverse. */
  lemma BuffersStayBounded(limits: Limits, events: seq<Event>, i: nat)
    requires limits.Valid()
    requires i < |Run(Initial(limits), events).sessions|
    ensures var b := Run(Initial(limits), events).sessions[i].buffers;
            && |b.buffer| <= limits.maxBufferedEvents
            && b.bufferBytes == SumBytes(b.buffer) <= limits.maxBufferedBytes
            && Indexed(b)
            && |b.seenOrder| <= limits.maxBufferedEvents
            && SeenIndexed(b)
  {
    EveryRunIsSafe(limits, events);
    RunKeepsLimits(limits, events);
  }

  lemma {:induction false} RunKeepsLimits(limits: Limits, events: seq<Event>)
    ensures Run(Initial(limits), events).limits == limits
  {
    if events != [] {
      RunKeepsLimits(limits, events[..|events| - 1]);
    }
  }

  /** A live session without a drain under way has nothing left to deliver or to report. */
  lemma QuietMeansDelivered(limits: Limits, events: seq<Event>, i: nat)
    requires limits.Valid()
    requires i < |Run(Initial(limits), events).sessions|
    requires var s := Run(Initial(limits), events).sessions[i]; s.phase.Live? && s.pc.Idle?
    ensures var s := Run(Initial(limits), events).sessions[i];
            && s.buffers.buffer == [] && s.buffers.integrityError.None?
            && s.checkpoint == StreamPosition(s.log)
  {
    EveryRunIsSafe(limits, events);
  }

  lemma StepKeepsTerminal(m: Manager, e: Event, i: nat)
    requires i < |m.sessions| && Terminal(m.sessions[i].phase)
    ensures |Step(m, e).sessions| >= |m.sessions|
    ensures Terminal(Step(m, e).sessions[i].phase)
    ensures Step(m, e).sessions[i].log == m.sessions[i].log
    ensures m.sessions[i].phase.Stopped? ==> Step(m, e).sessions[i].phase.Stopped?
  {
    match e
    case Settle(j, c) =>
      if j < |m.sessions| {
        ContinueEvolves(m.limits, m.sessions[j], c, !m.closed && Owns(m, j));
      }
    case Arrive(thread, arrival) =>
      if thread in m.states && m.states[thread] < |m.sessions| {
        AcceptEvolves(m.limits, m.sessions[m.states[thread]], arrival, !m.closed);
      }
    case _ =>
  }

  /** Failed and stopped are absorbing, and from then on the host hears nothing more. */
  lemma {:induction false} TerminalIsAbsorbingAndSilent(m: Manager, events: seq<Event>, i: nat)
    requires i < |m.sessions| && Terminal(m.sessions[i].phase)
    ensures var after := Run(m, events);
            && i < |after.sessions|
            && Terminal(after.sessions[i].phase)
            && after.sessions[i].log == m.sessions[i].log
            && (m.sessions[i].phase.Stopped? ==> after.sessions[i].phase.Stopped?)
  {
    if events != [] {
      TerminalIsAbsorbingAndSilent(m, events[..|events| - 1], i);
      StepKeepsTerminal(Run(m, events[..|events| - 1]), events[|events| - 1], i);
    }
  }

  // ---------------------------------------------------------------------------------------------
  // Ownership of a thread
  // ---------------------------------------------------------------------------------------------

  /** Every session that is still recovering or live is the one the map holds for its thread. */
  ghost predicate ClaimsHold(m: Manager) {
    forall i :: 0 <= i < |m.sessions| && !Terminal(m.sessions[i].phase) ==> Owns(m, i)
  }

  /** This event makes the `resumeThread` call of session `i` throw. */
  ghost predicate RejectsCall(m: Manager, e: Event, i: nat)
    requires i < |m.sessions|
  {
    && e.Settle? && e.session == i
    && !m.sessions[i].pc.CallRejected?
    && Continue(m.limits, m.sessions[i], e.completion, !m.closed && Owns(m, i)).pc.CallRejected?
  }

  /** A call is rejected while another, running session holds the thread. */
  ghost predicate RejectsUnderNewOwner(m: Manager, e: Event) {
    exists i, j :: && 0 <= i < |m.sessions| && 0 <= j < |m.sessions| && i != j
                   && m.sessions[i].thread == m.sessions[j].thread
                   && Owns(m, j) && !Terminal(m.sessions[j].phase)
                   && RejectsCall(m, e, i)
  }

  lemma ResumeThreadKeepsClaims(m: Manager, thread: ThreadId, kind: StartKind)
    requires OwnersNewest(m) && ClaimsHold(m)
    ensures ClaimsHold(OnResumeThread(m, thread, kind))
  {
    if !m.closed && thread !in m.states {
      var after := OnResumeThread(m, thread, kind);
      forall j | 0 <= j < |m.sessions| && !Terminal(m.sessions[j].phase) ensures Owns(after, j) {
        assert Owns(m, j);
      }
    }
  }

  lemma ArriveKeepsClaims(m: Manager, thread: ThreadId, arrival: Arrival)
    requires OwnersNewest(m) && ClaimsHold(m)
    ensures ClaimsHold(OnArrive(m, thread, arrival))
  {
    if thread in m.states {
      var i := m.states[thread];
      var after := Accept(m.limits, m.sessions[i], arrival, !m.closed);
      AcceptEvolves(m.limits, m.sessions[i], arrival, !m.closed);
      StoreKeepsClaims(m, i, after);
    }
  }

  lemma StoreKeepsClaims(m: Manager, i: nat, after: Session)
    requires ClaimsHold(m) && i < |m.sessions|
    requires after.thread == m.sessions[i].thread && (Terminal(m.sessions[i].phase) ==> Terminal(after.phase))
    ensures ClaimsHold(Store(m, i, after))
  {
    var stored := Store(m, i, after);
    forall j | 0 <= j < |stored.sessions| && !Terminal(stored.sessions[j].phase) ensures Owns(stored, j) {
      assert !Terminal(m.sessions[j].phase) && Owns(m, j);
    }
  }

  lemma StopThreadKeepsClaims(m: Manager, thread: ThreadId)
    requires OwnersNewest(m) && ClaimsHold(m)
    ensures ClaimsHold(OnStopThread(m, thread))
  {
    if thread in m.states {
      var after := OnStopThread(m, thread);
      forall j | 0 <= j < |after.sessions| && !Terminal(after.sessions[j].phase) ensures Owns(after, j) {
        assert j != m.states[thread] && Owns(m, j);
      }
    }
  }

  lemma CloseAndExitKeepClaims(m: Manager)
    requires OwnersNewest(m) && ClaimsHold(m)
    ensures ClaimsHold(OnClose(m)) && ClaimsHold(OnClientExit(m))
  {
    forall j | 0 <= j < |m.sessions| && !Terminal(m.sessions[j].phase) ensures Owns(m, j) {
    }
  }

  /** Claims survive a step exactly when it is not the rejection of an older call on the thread. */
  lemma ClaimLostIffStaleCallRejects(m: Manager, e: Event)
    requires Inv(m) && ClaimsHold(m)
    ensures ClaimsHold(Step(m, e)) <==> !RejectsUnderNewOwner(m, e)
  {
    if e.Settle? {
      if e.session < |m.sessions| {
        SettleClaims(m, e.session, e.completion);
      }
    } else {
      assert !RejectsUnderNewOwner(m, e);
      OtherStepsKeepClaims(m, e);
    }
  }

  lemma OtherStepsKeepClaims(m: Manager, e: Event)
    requires Inv(m) && ClaimsHold(m) && !e.Settle?
    ensures ClaimsHold(Step(m, e))
  {
    match e
    case ResumeThread(thread, kind) => ResumeThreadKeepsClaims(m, thread, kind);
    case Arrive(thread, arrival) => ArriveKeepsClaims(m, thread, arrival);
    case StopThread(thread) => StopThreadKeepsClaims(m, thread);
    case Close => CloseAndExitKeepClaims(m);
    case ClientExit => CloseAndExitKeepClaims(m);
  }

  lemma SettleClaims(m: Manager, i: nat, c: Completion)
    requires OwnersNewest(m) && ClaimsHold(m) && i < |m.sessions|
    ensures ClaimsHold(OnSettle(m, i, c)) <==> !RejectsUnderNewOwner(m, Settle(i, c))
  {
    var e := Settle(i, c);
    var after := Continue(m.limits, m.sessions[i], c, !m.closed && Owns(m, i));
    ContinueEvolves(m.limits, m.sessions[i], c, !m.closed && Owns(m, i));
    StoreKeepsClaims(m, i, after);
    if RejectsCall(m, e, i) {
      RejectedCallClaims(m, i, after, e);
    }
  }

  lemma RejectedCallClaims(m: Manager, i: nat, after: Session, e: Event)
    requires OwnersNewest(m) && ClaimsHold(m) && i < |m.sessions| && RejectsCall(m, e, i)
    requires Terminal(after.phase) && ClaimsHold(Store(m, i, after)) && after.thread == m.sessions[i].thread
    ensures ClaimsHold(Store(m, i, after).(states := m.states - {m.sessions[i].thread})) <==> !RejectsUnderNewOwner(m, e)
  {
    var thread := m.sessions[i].thread;
    var dropped := Store(m, i, after).(states := m.states - {thread});
    if RejectsUnderNewOwner(m, e) {
      var j :| 0 <= j < |m.sessions| && i != j && m.sessions[j].thread == thread
               && Owns(m, j) && !Terminal(m.sessions[j].phase);
      assert dropped.sessions[j] == m.sessions[j] && !Owns(dropped, j);
    } else {
      forall j | 0 <= j < |dropped.sessions| && !Terminal(dropped.sessions[j].phase) ensures Owns(dropped, j) {
        assert j != i && Owns(m, j);
        assert m.sessions[j].thread != thread;
      }
    }
  }

  /**
   The claim can indeed be lost: stop a thread while its snapshot is awaited, resume it again, and
   let the first call go on. Its `catch` deletes the new session's entry, and the next durable event
   of the thread is refused although the new session is still buffering.
   */
  lemma StaleRejectionDropsTheNewClaim()
    ensures var events := [ResumeThread(5, NoCheckpoint), StopThread(5), ResumeThread(5, NoCheckpoint),
                           Settle(0, SnapshotReceived(true, Some(None))), Settle(0, Microtask)];
            var m := Run(Initial(Limits(10, 1000)), events);
            && |m.sessions| == 2 && m.sessions[1].phase.Buffering? && m.sessions[1].thread == 5
            && !ClaimsHold(m)
            && forall arrival :: Step(m, Arrive(5, arrival)) == m
  {
    var m0 := Initial(Limits(10, 1000));
    var started := AwaitingFirstSnapshot(5);
    var stopped := started.(phase := Stopped);
    var m3 := m0.(sessions := [stopped, started], states := map[5 := 1], checkpoints := map[5 := None]);
    var again := [ResumeThread(5, NoCheckpoint), StopThread(5), ResumeThread(5, NoCheckpoint)];
    StoppedAndResumed(m0, m3);
    var m4 := m3.(sessions := [stopped.(pc := Failing(Starting)), started]);
    StaleCallGoesOn(m3, m4, Settle(0, SnapshotReceived(true, Some(None))));
    var m5 := m4.(sessions := [stopped.(pc := CallRejected), started], states := map[]);
    StaleCallThrows(m4, m5);
    assert !Owns(m5, 1);
    var received, throws := Settle(0, SnapshotReceived(true, Some(None))), Settle(0, Microtask);
    RunNext(m0, again, received, m3, m4);
    RunNext(m0, again + [received], throws, m4, m5);
    assert again + [received] + [throws] ==
           [ResumeThread(5, NoCheckpoint), StopThread(5), ResumeThread(5, NoCheckpoint), received, throws];
  }

  lemma StoppedAndResumed(m: Manager, after: Manager)
    requires m.sessions == [] && m.states == map[] && m.checkpoints == map[] && !m.closed
    requires after == m.(sessions := [AwaitingFirstSnapshot(5).(phase := Stopped), AwaitingFirstSnapshot(5)],
                         states := map[5 := 1], checkpoints := map[5 := None])
    ensures Run(m, [ResumeThread(5, NoCheckpoint), StopThread(5), ResumeThread(5, NoCheckpoint)]) == after
  {
    var started := AwaitingFirstSnapshot(5);
    StartAwaitsSnapshot(5);
    var m1 := m.(sessions := [started], states := map[5 := 0], checkpoints := map[5 := None]);
    assert Step(m, ResumeThread(5, NoCheckpoint)) == m1;
    var m2 := m1.(sessions := [started.(phase := Stopped)], states := map[]);
    assert Step(m1, StopThread(5)) == m2;
    assert Step(m2, ResumeThread(5, NoCheckpoint)) == after;
    var resume, stop := ResumeThread(5, NoCheckpoint), StopThread(5);
    RunNext(m, [], resume, m, m1);
    assert [] + [resume] == [resume] && [resume] + [stop] == [resume, stop] && [resume, stop] + [resume] == [resume, stop, resume];
    RunNext(m, [resume], stop, m1, m2);
    RunNext(m, [resume, stop], resume, m2, after);
  }

  function AwaitingFirstSnapshot(thread: ThreadId): Session {
    Session(thread, Buffering, None, Empty, AwaitSnapshot(0, Starting), [Anchor(None), RecoveryStarted, SnapshotRequested])
  }

  lemma StartAwaitsSnapshot(thread: ThreadId)
    ensures Start(thread, NoCheckpoint) == AwaitingFirstSnapshot(thread)
  {
    assert [Anchor(None)] + [RecoveryStarted] + [SnapshotRequested] == [Anchor(None), RecoveryStarted, SnapshotRequested];
  }

  lemma StaleCallGoesOn(m: Manager, after: Manager, e: Event)
    requires |m.sessions| == 2 && m.sessions[0].phase.Stopped? && m.sessions[0].pc == AwaitSnapshot(0, Starting)
    requires e == Settle(0, SnapshotReceived(true, Some(None)))
    requires after == m.(sessions := [m.sessions[0].(pc := Failing(Starting)), m.sessions[1]])
    ensures Step(m, e) == after
  {
    var failing := m.sessions[0].(pc := Failing(Starting));
    assert Continue(m.limits, m.sessions[0], e.completion, !m.closed && Owns(m, 0)) == failing;
    assert NewEntries(m.sessions[0], failing) == [];
    assert m.sessions[0 := failing] == [failing, m.sessions[1]];
  }

  lemma StaleCallThrows(m: Manager, after: Manager)
    requires |m.sessions| == 2 && m.sessions[0].phase.Stopped? && m.sessions[0].pc == Failing(Starting)
    requires m.states == map[m.sessions[0].thread := 1]
    requires after == m.(sessions := [m.sessions[0].(pc := CallRejected), m.sessions[1]], states := map[])
    ensures Step(m, Settle(0, Microtask)) == after
  {
    var rejected := m.sessions[0].(pc := CallRejected);
    assert Continue(m.limits, m.sessions[0], Microtask, !m.closed && Owns(m, 0)) == rejected;
    assert NewEntries(m.sessions[0], rejected) == [];
    assert m.sessions[0 := rejected] == [rejected, m.sessions[1]];
    assert m.states - {m.sessions[0].thread} == map[];
  }

  lemma RunNext(m: Manager, events: seq<Event>, e: Event, before: Manager, after: Manager)
    requires Run(m, events) == before && Step(before, e) == after
    ensures Run(m, events + [e]) == after
  {
    assert (events + [e])[..|events|] == events;
  }

  /** The host never resumes a thread while an earlier call for it is still unsettled. */
  ghost predicate CallsDoNotOverlap(m: Manager, e: Event) {
    e.ResumeThread? ==> forall i :: 0 <= i < |m.sessions| && m.sessions[i].thread == e.thread ==> !CallUnsettled(m.sessions[i])
  }

  ghost predicate Disciplined(m: Manager, events: seq<Event>) {
    events == [] ||
    (&& Disciplined(m, events[..|events| - 1])
     && CallsDoNotOverlap(Run(m, events[..|events| - 1]), events[|events| - 1]))
  }

  ghost predicate UnsettledIsNewest(m: Manager) {
    forall i :: 0 <= i < |m.sessions| && CallUnsettled(m.sessions[i]) ==> Newest(Threads(m), i)
  }

  /** No settled call of this step becomes unsettled, and no session changes its thread. */
  ghost predicate SettlesOnly(m: Manager, after: Manager) {
    && Threads(after) == Threads(m)
    && forall i :: 0 <= i < |m.sessions| && CallUnsettled(after.sessions[i]) ==> CallUnsettled(m.sessions[i])
  }

  lemma StoreSettlesOnly(m: Manager, i: nat, after: Session)
    requires i < |m.sessions| && after.thread == m.sessions[i].thread
    requires CallUnsettled(after) ==> CallUnsettled(m.sessions[i])
    ensures SettlesOnly(m, Store(m, i, after))
  {
    assert Threads(Store(m, i, after)) == Threads(m);
  }

  lemma SettleSettlesOnly(m: Manager, i: nat, c: Completion)
    requires i < |m.sessions|
    ensures SettlesOnly(m, OnSettle(m, i, c))
  {
    var owned := !m.closed && Owns(m, i);
    ContinueEvolves(m.limits, m.sessions[i], c, owned);
    StoreSettlesOnly(m, i, Continue(m.limits, m.sessions[i], c, owned));
    assert Threads(OnSettle(m, i, c)) == Threads(m);
  }

  lemma ArriveSettlesOnly(m: Manager, thread: ThreadId, arrival: Arrival)
    requires OwnersNewest(m)
    ensures SettlesOnly(m, OnArrive(m, thread, arrival))
  {
    if thread in m.states {
      var i := m.states[thread];
      AcceptEvolves(m.limits, m.sessions[i], arrival, !m.closed);
      StoreSettlesOnly(m, i, Accept(m.limits, m.sessions[i], arrival, !m.closed));
    }
  }

  lemma StopSettlesOnly(m: Manager, thread: ThreadId)
    requires OwnersNewest(m)
    ensures SettlesOnly(m, OnStopThread(m, thread))
  {
    if thread in m.states {
      assert Threads(OnStopThread(m, thread)) == Threads(m);
    }
  }

  lemma CloseSettlesOnly(m: Manager)
    ensures SettlesOnly(m, OnClose(m))
  {
    assert Threads(OnClose(m)) == Threads(m);
  }

  lemma ClientExitSettlesOnly(m: Manager)
    ensures SettlesOnly(m, OnClientExit(m))
  {
    assert Threads(OnClientExit(m)) == Threads(m);
  }

  lemma StepSettlesOnly(m: Manager, e: Event)
    requires OwnersNewest(m) && !e.ResumeThread?
    ensures SettlesOnly(m, Step(m, e))
  {
    match e
    case Settle(j, c) =>
      if j < |m.sessions| {
        SettleSettlesOnly(m, j, c);
      }
    case Arrive(thread, arrival) => ArriveSettlesOnly(m, thread, arrival);
    case StopThread(thread) => StopSettlesOnly(m, thread);
    case Close => CloseSettlesOnly(m);
    case ClientExit => ClientExitSettlesOnly(m);
  }

  lemma UnsettledStaysNewest(m: Manager, e: Event)
    requires OwnersNewest(m) && UnsettledIsNewest(m) && CallsDoNotOverlap(m, e)
    ensures UnsettledIsNewest(Step(m, e))
  {
    var after := Step(m, e);
    if e.ResumeThread? {
      if !m.closed && e.thread !in m.states {
        assert Threads(after) == Threads(m) + [e.thread];
        forall i | 0 <= i < |m.sessions| && CallUnsettled(m.sessions[i]) ensures Newest(Threads(after), i) {
          assert Newest(Threads(m), i) && Threads(m)[i] != e.thread;
        }
      }
    } else {
      StepSettlesOnly(m, e);
    }
  }

  /**
   If the host waits for a call to settle before it resumes the same thread again, a claimed thread
   stays claimed for as long as its session is recovering or live.
   */
  lemma {:induction false} DisciplinedRunsKeepClaims(limits: Limits, events: seq<Event>)
    requires limits.Valid() && Disciplined(Initial(limits), events)
    ensures ClaimsHold(Run(Initial(limits), events))
    ensures UnsettledIsNewest(Run(Initial(limits), events))
  {
    if events != [] {
      var init, e := events[..|events| - 1], events[|events| - 1];
      var m := Run(Initial(limits), init);
      DisciplinedRunsKeepClaims(limits, init);
      EveryRunIsSafe(limits, init);
      UnsettledStaysNewest(m, e);
      ClaimLostIffStaleCallRejects(m, e);
      RejectionNeedsUnsettledCall(m, e);
    }
  }

  lemma RejectionNeedsUnsettledCall(m: Manager, e: Event)
    requires OwnersNewest(m) && UnsettledIsNewest(m)
    ensures !RejectsUnderNewOwner(m, e)
  {
    if e.Settle? && e.session < |m.sessions| {
      var i := e.session;
      ContinueEvolves(m.limits, m.sessions[i], e.completion, !m.closed && Owns(m, i));
      if RejectsCall(m, e, i) {
        assert CallUnsettled(m.sessions[i]) && Newest(Threads(m), i);
        forall j | 0 <= j < |m.sessions| && m.sessions[j].thread == m.sessions[i].thread && Owns(m, j) ensures j == i {
          OwnerIsTheNewest(m, j, i);
        }
      }
    }
  }
}
