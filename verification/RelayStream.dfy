/**
 The sequenced stream of the browser's relay client: frames are applied in order, gaps are covered by
 refreshing every open thread, and a restarted companion opens a new epoch
 (`packages/relay-client/src/client.ts`, lines 886-901, 976-991, 1024-1038 and 1100-1228).
 */
module RelayStream {
  type ThreadId = nat

  datatype Frame = Frame(thread: ThreadId, sequence: nat)

  /**
   One `Promise.all` over the threads that were open when the recovery began. `start` is where the
   log says so.
   */
  datatype Recovery = Recovery(epoch: nat, through: int, start: nat, waiting: set<ThreadId>, done: bool)

  /** What the client did, in order. */
  datatype Entry =
    | Applied(epoch: nat, sequence: int, thread: ThreadId)
    | Acked(epoch: nat, through: int)
    | Opened(epoch: nat, thread: ThreadId)
    | Began(epoch: nat, recovery: nat, threads: set<ThreadId>)
    | Refreshed(epoch: nat, recovery: nat, thread: ThreadId)
    | Covered(epoch: nat, after: int, through: int, recovery: nat, start: nat)

  /** `arrived` remembers the sequence numbers received in this epoch; the program does not keep it. */
  datatype Stream = Stream(
    last: int,
    recovering: bool,
    epoch: nat,
    resynchronizing: bool,
    buffer: map<int, Frame>,
    threads: set<ThreadId>,
    socketOpen: bool,
    recoveries: seq<Recovery>,
    log: seq<Entry>,
    arrived: set<int>)

  const EMPTY_RELAY_SEQUENCE_CURSOR: int := -1

  // ---------------------------------------------------------------------------------------------
  // Operations
  // ---------------------------------------------------------------------------------------------

  function SendAck(s: Stream): Stream {
    if s.socketOpen then s.(log := s.log + [Acked(s.epoch, s.last)]) else s
  }

  /** `#applySequencedMessage` and the assignment to `#lastRelaySequence` behind it. */
  function ApplyFrame(s: Stream, frame: Frame): Stream {
    s.(threads := s.threads + {frame.thread},
       last := frame.sequence,
       log := s.log + [Applied(s.epoch, frame.sequence, frame.thread)])
  }

  function BeginGapRecovery(s: Stream, through: int): Stream {
    if through <= s.last then SendAck(s)
    else if s.recovering then s
    else
      s.(recovering := true,
         recoveries := s.recoveries + [Recovery(s.epoch, through, |s.log|, s.threads, false)],
         log := s.log + [Began(s.epoch, |s.recoveries|, s.threads)])
  }

  function Reconcile(s: Stream, sequence: int): Stream {
    if !s.resynchronizing then s
    else if sequence > s.last then s.(resynchronizing := false)
    else
      s.(resynchronizing := false, epoch := s.epoch + 1, last := EMPTY_RELAY_SEQUENCE_CURSOR,
         buffer := map[], recovering := false, arrived := {})
  }

  function AcceptReconciled(s: Stream, frame: Frame): Stream {
    var received := s.(arrived := s.arrived + {frame.sequence});
    if frame.sequence <= s.last then SendAck(received)
    else if s.recovering then received.(buffer := s.buffer[frame.sequence := frame])
    else if frame.sequence != s.last + 1 then
      BeginGapRecovery(received.(buffer := s.buffer[frame.sequence := frame]), frame.sequence - 1)
    else SendAck(ApplyFrame(received, frame))
  }

  function AcceptFrame(s: Stream, frame: Frame): Stream {
    AcceptReconciled(Reconcile(s, frame.sequence), frame)
  }

  function AcceptGap(s: Stream, through: nat): Stream {
    BeginGapRecovery(Reconcile(s, through), through)
  }

  /** The smallest buffered sequence number. */
  function FirstBuffered(keys: set<int>): (first: int)
    requires keys != {}
    ensures first in keys && forall key :: key in keys ==> first <= key
  {
    SmallestExists(keys);
    var first :| first in keys && forall key :: key in keys ==> first <= key;
    first
  }

  lemma {:induction false} SmallestExists(keys: set<int>)
    requires keys != {}
    ensures exists first :: first in keys && forall key :: key in keys ==> first <= key
    decreases |keys|
  {
    var some := AnyOf(keys);
    var rest := keys - {some};
    if rest == {} {
      assert keys == {some};
    } else {
      SmallestExists(rest);
      var first :| first in rest && forall key :: key in rest ==> first <= key;
      var smaller := if some < first then some else first;
      assert forall key :: key in keys ==> key == some || key in rest;
      assert smaller in keys && forall key :: key in keys ==> smaller <= key;
    }
  }

  lemma AnyOf(keys: set<int>) returns (some: int)
    requires keys != {}
    ensures some in keys
  {
    assert (forall key :: key !in keys) ==> keys == {};
    some :| some in keys;
  }

  /** One round of the drain. */
  function TakeNext(s: Stream): Stream
    requires s.last + 1 in s.buffer
  {
    SendAck(ApplyFrame(s.(buffer := s.buffer - {s.last + 1}), s.buffer[s.last + 1]))
  }

  function Drain(s: Stream): Stream
    decreases |s.buffer|
  {
    if s.recovering then s
    else if s.last + 1 in s.buffer then
      SizeShrinks(s.buffer, s.last + 1);
      Drain(TakeNext(s))
    else if s.buffer.Keys != {} && FirstBuffered(s.buffer.Keys) > s.last + 1
    then BeginGapRecovery(s, FirstBuffered(s.buffer.Keys) - 1)
    else s
  }

  lemma SizeShrinks(buffer: map<int, Frame>, key: int)
    requires key in buffer
    ensures |buffer - {key}| < |buffer|
  {
    assert buffer.Keys == (buffer - {key}).Keys + {key};
    assert |buffer.Keys| == |buffer| && |(buffer - {key}).Keys| == |buffer - {key}|;
  }

  predicate Awaited(s: Stream, i: nat) {
    i < |s.recoveries| && !s.recoveries[i].done
  }

  function Finish(s: Stream, i: nat): Stream
    requires i < |s.recoveries|
  {
    s.(recoveries := s.recoveries[i := s.recoveries[i].(done := true)])
  }

  function Discard(buffer: map<int, Frame>, through: int): map<int, Frame> {
    map key | key in buffer && key > through :: buffer[key]
  }

  /** The part of a completion before the buffer is drained. */
  function Advance(s: Stream, i: nat): Stream
    requires i < |s.recoveries|
  {
    var recovery := s.recoveries[i];
    SendAck(Finish(s, i).(last := recovery.through,
                          buffer := Discard(s.buffer, recovery.through),
                          recovering := false,
                          log := s.log + [CoveredBy(s, i)]))
  }

  function CoveredBy(s: Stream, i: nat): Entry
    requires i < |s.recoveries|
  {
    Covered(s.epoch, s.last, s.recoveries[i].through, i, s.recoveries[i].start)
  }

  function RecoveryCompletes(s: Stream, i: nat): Stream {
    if !Awaited(s, i) || s.recoveries[i].waiting != {} then s
    else if s.recoveries[i].epoch != s.epoch then Finish(s, i)
    else Drain(Advance(s, i))
  }

  function RecoveryFails(s: Stream, i: nat): Stream {
    if !Awaited(s, i) || s.recoveries[i].waiting == {} then s
    else if s.recoveries[i].epoch != s.epoch then Finish(s, i)
    else Finish(s, i).(recovering := false, socketOpen := false)
  }

  function ThreadRefreshed(s: Stream, i: nat, thread: ThreadId): Stream {
    if !Awaited(s, i) then s
    else
      s.(recoveries := s.recoveries[i := s.recoveries[i].(waiting := s.recoveries[i].waiting - {thread})],
         log := s.log + [Refreshed(s.epoch, i, thread)])
  }

  datatype Event =
    | FrameArrives(frame: Frame)
    | GapArrives(gapThrough: nat)
    | RefreshEnds(recovery: nat, thread: ThreadId)
    | Completes(recovery: nat)
    | Fails(recovery: nat)
    | SessionReady
    | WorkspaceBackOnline
    | SocketCloses
    | OpensThread(thread: ThreadId)

  function Step(s: Stream, e: Event): Stream {
    match e
    case FrameArrives(frame) => AcceptFrame(s, frame)
    case GapArrives(through) => AcceptGap(s, through)
    case RefreshEnds(i, thread) => ThreadRefreshed(s, i, thread)
    case Completes(i) => RecoveryCompletes(s, i)
    case Fails(i) => RecoveryFails(s, i)
    case SessionReady => SendAck(s.(resynchronizing := true, socketOpen := true))
    case WorkspaceBackOnline => s.(resynchronizing := true)
    case SocketCloses => s.(socketOpen := false)
    case OpensThread(thread) => s.(threads := s.threads + {thread}, log := s.log + [Opened(s.epoch, thread)])
  }

  function Run(s: Stream, events: seq<Event>): Stream {
    if events == [] then s else Step(Run(s, events[..|events| - 1]), events[|events| - 1])
  }

  function Initial(): Stream {
    Stream(EMPTY_RELAY_SEQUENCE_CURSOR, false, 0, false, map[], {}, false, [], [], {})
  }

  // ---------------------------------------------------------------------------------------------
  // Reading the log
  // ---------------------------------------------------------------------------------------------

  /** How far an epoch got: the last sequence number that was applied or covered in it. */
  function Position(log: seq<Entry>, epoch: nat): int {
    if log == [] then EMPTY_RELAY_SEQUENCE_CURSOR
    else
      match log[|log| - 1]
      case Applied(e, sequence, _) => if e == epoch then sequence else Position(log[..|log| - 1], epoch)
      case Covered(e, _, through, _, _) => if e == epoch then through else Position(log[..|log| - 1], epoch)
      case _ => Position(log[..|log| - 1], epoch)
  }

  /** The threads that were opened, by the application or by the first frame for them. */
  function OpenThreads(log: seq<Entry>): set<ThreadId> {
    if log == [] then {}
    else
      var last := log[|log| - 1];
      OpenThreads(log[..|log| - 1]) + if last.Applied? || last.Opened? then {last.thread} else {}
  }

  ghost predicate RefreshedAfter(log: seq<Entry>, start: nat, recovery: nat, thread: ThreadId) {
    exists d :: start < d < |log| && log[d].Refreshed? && log[d].recovery == recovery && log[d].thread == thread
  }

  /** The log shows that recovery `i` began at `start` and has refreshed all its threads but `waiting`. */
  ghost predicate Underway(log: seq<Entry>, i: nat, epoch: nat, start: nat, waiting: set<ThreadId>) {
    && start < |log| && log[start].Began? && log[start].epoch == epoch && log[start].recovery == i
    && forall thread :: thread in log[start].threads && thread !in waiting ==> RefreshedAfter(log, start, i, thread)
  }

  /** An entry continues its epoch where the log stands: no gap, no repetition, no early acknowledgement. */
  ghost predicate Fits(log: seq<Entry>, entry: Entry) {
    && (log != [] ==> log[|log| - 1].epoch <= entry.epoch)
    && match entry
       case Applied(epoch, sequence, _) => sequence == Position(log, epoch) + 1
       case Acked(epoch, through) => through == Position(log, epoch)
       case Began(_, _, threads) => threads == OpenThreads(log)
       case Covered(epoch, after, through, i, start) =>
         after == Position(log, epoch) < through && Underway(log, i, epoch, start, {})
       case _ => true
  }

  ghost predicate Stepwise(log: seq<Entry>) {
    log != [] ==> Stepwise(log[..|log| - 1]) && Fits(log[..|log| - 1], log[|log| - 1])
  }

  lemma LogGrows(log: seq<Entry>, entry: Entry)
    ensures Stepwise(log + [entry]) <==> Stepwise(log) && Fits(log, entry)
    ensures forall epoch :: epoch != entry.epoch ==> Position(log + [entry], epoch) == Position(log, epoch)
    ensures entry.Applied? ==> Position(log + [entry], entry.epoch) == entry.sequence
    ensures entry.Covered? ==> Position(log + [entry], entry.epoch) == entry.through
    ensures !entry.Applied? && !entry.Covered? ==> Position(log + [entry], entry.epoch) == Position(log, entry.epoch)
    ensures OpenThreads(log + [entry]) == OpenThreads(log) + if entry.Applied? || entry.Opened? then {entry.thread} else {}
  {
    assert (log + [entry])[..|log|] == log;
  }

  lemma UnderwayGrows(log: seq<Entry>, entry: Entry, i: nat, epoch: nat, start: nat, waiting: set<ThreadId>)
    requires Underway(log, i, epoch, start, waiting)
    ensures Underway(log + [entry], i, epoch, start, waiting)
    ensures entry.Refreshed? && entry.recovery == i ==> Underway(log + [entry], i, epoch, start, waiting - {entry.thread})
  {
    var after := log + [entry];
    forall thread | thread in log[start].threads && thread !in waiting ensures RefreshedAfter(after, start, i, thread) {
      var d :| start < d < |log| && log[d].Refreshed? && log[d].recovery == i && log[d].thread == thread;
      assert after[d] == log[d];
    }
    if entry.Refreshed? && entry.recovery == i {
      assert after[|log|] == entry;
      assert RefreshedAfter(after, start, i, entry.thread);
    }
  }

  lemma {:induction false} NothingInLaterEpochs(log: seq<Entry>, epoch: nat)
    requires Stepwise(log) && (log != [] ==> log[|log| - 1].epoch < epoch)
    ensures Position(log, epoch) == EMPTY_RELAY_SEQUENCE_CURSOR
  {
    if log != [] {
      NothingInLaterEpochs(log[..|log| - 1], epoch);
    }
  }

  // ---------------------------------------------------------------------------------------------
  // The invariant
  // ---------------------------------------------------------------------------------------------

  ghost predicate LogOk(s: Stream) {
    && Stepwise(s.log) && Position(s.log, s.epoch) == s.last && s.last >= EMPTY_RELAY_SEQUENCE_CURSOR
    && (s.log != [] ==> s.log[|s.log| - 1].epoch <= s.epoch)
    && s.threads == OpenThreads(s.log)
  }

  /** The log tells of every recovery when it began and which refreshes it still waits for. */
  ghost predicate RecoveriesLogged(s: Stream) {
    forall i :: 0 <= i < |s.recoveries| ==> RecoveryLogged(s, i)
  }

  ghost predicate RecoveryLogged(s: Stream, i: nat)
    requires i < |s.recoveries|
  {
    Underway(s.log, i, s.recoveries[i].epoch, s.recoveries[i].start, s.recoveries[i].waiting)
  }

  predicate Live(s: Stream, i: int) {
    0 <= i < |s.recoveries| && !s.recoveries[i].done && s.recoveries[i].epoch == s.epoch
  }

  /** While recovering, exactly one recovery of this epoch is awaited, and it leads past `last`. */
  ghost predicate RecoveriesOk(s: Stream) {
    && (s.recovering <==> exists i :: Live(s, i))
    && (forall i, j :: Live(s, i) && Live(s, j) ==> i == j)
    && (forall i :: Live(s, i) ==> s.last < s.recoveries[i].through)
    && (forall i :: 0 <= i < |s.recoveries| ==> s.recoveries[i].epoch <= s.epoch)
  }

  /** Every frame of this epoch that arrived is applied, covered or still buffered. */
  ghost predicate BufferOk(s: Stream) {
    Stored(s.buffer, s.arrived, s.last)
  }

  ghost predicate Stored(buffer: map<int, Frame>, arrived: set<int>, last: int) {
    && (forall key :: key in buffer ==> buffer[key].sequence == key)
    && (forall sequence :: sequence in arrived ==> sequence <= last || sequence in buffer)
  }

  ghost predicate Inv(s: Stream) {
    LogOk(s) && RecoveriesOk(s) && RecoveriesLogged(s) && BufferOk(s)
  }

  /** Appending to the log keeps what it says about every recovery. */
  lemma LoggedGrows(s: Stream, entry: Entry, after: Stream)
    requires RecoveriesLogged(s)
    requires after.log == s.log + [entry] && |after.recoveries| == |s.recoveries|
    requires forall i :: 0 <= i < |s.recoveries| ==>
                           && after.recoveries[i].epoch == s.recoveries[i].epoch
                           && after.recoveries[i].start == s.recoveries[i].start
                           && (after.recoveries[i].waiting == s.recoveries[i].waiting
                               || (&& entry.Refreshed? && entry.recovery == i
                                   && after.recoveries[i].waiting == s.recoveries[i].waiting - {entry.thread}))
    ensures RecoveriesLogged(after)
  {
    forall i | 0 <= i < |after.recoveries| ensures RecoveryLogged(after, i) {
      assert RecoveryLogged(s, i);
      UnderwayGrows(s.log, entry, i, s.recoveries[i].epoch, s.recoveries[i].start, s.recoveries[i].waiting);
    }
  }

  lemma SameLogged(s: Stream, after: Stream)
    requires RecoveriesLogged(s)
    requires after.log == s.log && |after.recoveries| == |s.recoveries|
    requires forall i :: 0 <= i < |s.recoveries| ==>
                           && after.recoveries[i].epoch == s.recoveries[i].epoch
                           && after.recoveries[i].start == s.recoveries[i].start
                           && after.recoveries[i].waiting == s.recoveries[i].waiting
    ensures RecoveriesLogged(after)
  {
    forall i | 0 <= i < |after.recoveries| ensures RecoveryLogged(after, i) {
      assert RecoveryLogged(s, i);
    }
  }

  lemma AckKeepsInv(s: Stream)
    requires Inv(s)
    ensures Inv(SendAck(s))
  {
    if s.socketOpen {
      var entry := Acked(s.epoch, s.last);
      LogGrows(s.log, entry);
      LoggedGrows(s, entry, SendAck(s));
      SameRecoveries(s, SendAck(s));
    }
  }

  lemma SameRecoveries(s: Stream, after: Stream)
    requires RecoveriesOk(s)
    requires after.recoveries == s.recoveries && after.epoch == s.epoch && after.recovering == s.recovering
    requires after.last == s.last || !s.recovering
    ensures RecoveriesOk(after)
  {
    forall i | Live(after, i) ensures Live(s, i) {
    }
    if s.recovering {
      var i :| Live(s, i);
      assert Live(after, i);
    }
  }

  lemma ApplyKeepsInv(s: Stream, frame: Frame)
    requires LogOk(s) && RecoveriesOk(s) && RecoveriesLogged(s) && !s.recovering && frame.sequence == s.last + 1
    requires Stored(s.buffer, s.arrived, s.last + 1)
    ensures Inv(ApplyFrame(s, frame))
  {
    var entry := Applied(s.epoch, frame.sequence, frame.thread);
    LogGrows(s.log, entry);
    LoggedGrows(s, entry, ApplyFrame(s, frame));
    SameRecoveries(s, ApplyFrame(s, frame));
  }

  lemma BeginKeepsInv(s: Stream, through: int)
    requires Inv(s)
    ensures Inv(BeginGapRecovery(s, through))
    ensures BeginGapRecovery(s, through).recovering == (s.recovering || through > s.last)
  {
    if through <= s.last {
      AckKeepsInv(s);
    } else if !s.recovering {
      NewRecoveryOk(s, through);
      NewRecoveryLogged(s, through);
      LogGrows(s.log, Began(s.epoch, |s.recoveries|, s.threads));
    }
  }

  lemma NewRecoveryOk(s: Stream, through: int)
    requires RecoveriesOk(s) && !s.recovering && through > s.last
    ensures RecoveriesOk(BeginGapRecovery(s, through))
  {
    var after := BeginGapRecovery(s, through);
    assert Live(after, |s.recoveries|);
    forall i | Live(after, i) ensures i == |s.recoveries| {
      if i < |s.recoveries| {
        assert Live(s, i);
      }
    }
  }

  lemma NewRecoveryLogged(s: Stream, through: int)
    requires RecoveriesLogged(s) && !s.recovering && through > s.last
    ensures RecoveriesLogged(BeginGapRecovery(s, through))
  {
    var after := BeginGapRecovery(s, through);
    LoggedGrows(s, after.log[|s.log|], after.(recoveries := s.recoveries));
    forall i | 0 <= i < |after.recoveries| ensures RecoveryLogged(after, i) {
      if i < |s.recoveries| {
        assert RecoveryLogged(after.(recoveries := s.recoveries), i);
      }
    }
  }

  lemma ReconcileKeepsInv(s: Stream, sequence: int)
    requires Inv(s)
    ensures Inv(Reconcile(s, sequence))
  {
    var after := Reconcile(s, sequence);
    SameLogged(s, after);
    if s.resynchronizing && sequence <= s.last {
      NothingInLaterEpochs(s.log, s.epoch + 1);
      assert forall i :: 0 <= i < |s.recoveries| ==> s.recoveries[i].epoch < after.epoch;
    } else {
      SameRecoveries(s, after);
    }
  }

  lemma StoreKeepsInv(s: Stream, frame: Frame)
    requires Inv(s)
    ensures Inv(s.(arrived := s.arrived + {frame.sequence}, buffer := s.buffer[frame.sequence := frame]))
  {
    var stored := s.(arrived := s.arrived + {frame.sequence}, buffer := s.buffer[frame.sequence := frame]);
    SameRecoveries(s, stored);
    SameLogged(s, stored);
  }

  lemma AcceptReconciledKeepsInv(s: Stream, frame: Frame)
    requires Inv(s)
    ensures Inv(AcceptReconciled(s, frame))
  {
    if frame.sequence <= s.last {
      OldKeepsInv(s, frame);
    } else if s.recovering || frame.sequence != s.last + 1 {
      AheadKeepsInv(s, frame);
    } else {
      NextKeepsInv(s, frame);
    }
  }

  lemma OldKeepsInv(s: Stream, frame: Frame)
    requires Inv(s) && frame.sequence <= s.last
    ensures Inv(AcceptReconciled(s, frame))
  {
    var received := s.(arrived := s.arrived + {frame.sequence});
    SameRecoveries(s, received);
    SameLogged(s, received);
    AckKeepsInv(received);
  }

  lemma AheadKeepsInv(s: Stream, frame: Frame)
    requires Inv(s) && frame.sequence > s.last && (s.recovering || frame.sequence != s.last + 1)
    ensures Inv(AcceptReconciled(s, frame))
  {
    StoreKeepsInv(s, frame);
    BeginKeepsInv(s.(arrived := s.arrived + {frame.sequence}, buffer := s.buffer[frame.sequence := frame]), frame.sequence - 1);
  }

  lemma NextKeepsInv(s: Stream, frame: Frame)
    requires Inv(s) && !s.recovering && frame.sequence == s.last + 1
    ensures Inv(AcceptReconciled(s, frame))
  {
    var received := s.(arrived := s.arrived + {frame.sequence});
    SameRecoveries(s, received);
    SameLogged(s, received);
    ApplyKeepsInv(received, frame);
    AckKeepsInv(ApplyFrame(received, frame));
  }

  /** Nothing at or below `last` is buffered. */
  ghost predicate Ahead(s: Stream) {
    forall key :: key in s.buffer ==> key > s.last
  }

  /** A drain that starts ahead leaves nothing behind: either the buffer is empty or a recovery runs. */
  lemma {:induction false} DrainSpec(s: Stream)
    requires Inv(s) && Ahead(s)
    ensures Inv(Drain(s)) && Ahead(Drain(s)) && CaughtUp(Drain(s))
    decreases |s.buffer|
  {
    if !s.recovering && s.last + 1 in s.buffer {
      SizeShrinks(s.buffer, s.last + 1);
      TakeKeepsInv(s);
      DrainSpec(TakeNext(s));
    } else {
      DrainStops(s);
    }
  }

  ghost predicate CaughtUp(s: Stream) {
    s.recovering || s.buffer == map[]
  }

  lemma DrainStops(s: Stream)
    requires Inv(s) && Ahead(s) && (s.recovering || s.last + 1 !in s.buffer)
    ensures Inv(Drain(s)) && Ahead(Drain(s)) && CaughtUp(Drain(s))
  {
    if !s.recovering {
      if s.buffer.Keys == {} {
        assert Drain(s) == s;
        NoKeys(s.buffer);
      } else {
        var first := FirstIsAhead(s);
        assert Drain(s) == BeginGapRecovery(s, first - 1);
        BeginKeepsInv(s, first - 1);
        BeginKeepsBuffer(s, first - 1);
      }
    }
  }

  lemma NoKeys(buffer: map<int, Frame>)
    requires buffer.Keys == {}
    ensures buffer == map[]
  {
  }

  lemma FirstIsAhead(s: Stream) returns (first: int)
    requires Ahead(s) && s.last + 1 !in s.buffer && s.buffer.Keys != {}
    ensures first == FirstBuffered(s.buffer.Keys) > s.last + 1
  {
    first := FirstBuffered(s.buffer.Keys);
  }

  lemma BeginKeepsBuffer(s: Stream, through: int)
    ensures BeginGapRecovery(s, through).buffer == s.buffer && BeginGapRecovery(s, through).last == s.last
  {
  }

  lemma StoredWithout(buffer: map<int, Frame>, arrived: set<int>, next: int)
    requires Stored(buffer, arrived, next - 1) && (forall key :: key in buffer ==> key >= next)
    ensures Stored(buffer - {next}, arrived, next)
    ensures forall key :: key in buffer - {next} ==> key > next
  {
  }

  lemma TakeKeepsInv(s: Stream)
    requires Inv(s) && !s.recovering && Ahead(s) && s.last + 1 in s.buffer
    ensures Inv(TakeNext(s)) && Ahead(TakeNext(s)) && TakeNext(s).buffer == s.buffer - {s.last + 1}
  {
    var frame := s.buffer[s.last + 1];
    StoredWithout(s.buffer, s.arrived, s.last + 1);
    var taken := s.(buffer := s.buffer - {s.last + 1});
    SameRecoveries(s, taken);
    SameLogged(s, taken);
    TakenKeepsInv(s, taken, frame);
  }

  lemma TakenKeepsInv(s: Stream, taken: Stream, frame: Frame)
    requires LogOk(s) && frame.sequence == s.last + 1
    requires taken == s.(buffer := taken.buffer) && RecoveriesOk(taken) && RecoveriesLogged(taken) && !taken.recovering
    requires Stored(taken.buffer, taken.arrived, taken.last + 1)
    ensures Inv(SendAck(ApplyFrame(taken, frame)))
  {
    ApplyKeepsInv(taken, frame);
    AckKeepsInv(ApplyFrame(taken, frame));
  }

  lemma AdvanceKeepsInv(s: Stream, i: nat)
    requires Inv(s) && Live(s, i) && s.recoveries[i].waiting == {}
    ensures var after := Advance(s, i);
            Inv(after) && Ahead(after) && !after.recovering && after.epoch == s.epoch
  {
    var recovery := s.recoveries[i];
    assert RecoveryLogged(s, i);
    LogGrows(s.log, CoveredBy(s, i));
    var covered := Finish(s, i).(last := recovery.through,
                                 buffer := Discard(s.buffer, recovery.through),
                                 recovering := false,
                                 log := s.log + [CoveredBy(s, i)]);
    NoneLive(s, i, covered);
    LoggedGrows(s, CoveredBy(s, i), covered);
    assert LogOk(covered) && BufferOk(covered);
    AckKeepsInv(covered);
  }

  lemma NoneLive(s: Stream, i: nat, after: Stream)
    requires RecoveriesOk(s) && Live(s, i)
    requires after.recoveries == Finish(s, i).recoveries && after.epoch == s.epoch && !after.recovering
    ensures RecoveriesOk(after)
  {
    forall j | Live(after, j) ensures false {
      assert Live(s, j);
    }
  }

  /** Finishing a recovery of an older epoch changes nothing but its own mark. */
  lemma UpdateKeepsRecoveries(s: Stream, i: nat, updated: Recovery, after: Stream)
    requires RecoveriesOk(s) && i < |s.recoveries|
    requires updated.epoch == s.recoveries[i].epoch && updated.through == s.recoveries[i].through
    requires updated.done == s.recoveries[i].done || updated.epoch != s.epoch
    requires after == s.(recoveries := s.recoveries[i := updated], log := after.log)
    ensures RecoveriesOk(after)
  {
    forall j ensures Live(after, j) <==> Live(s, j) {
    }
    if s.recovering {
      var j :| Live(s, j);
      assert Live(after, j);
    }
  }

  lemma CompletesKeepsInv(s: Stream, i: nat)
    requires Inv(s)
    ensures Inv(RecoveryCompletes(s, i))
  {
    if Awaited(s, i) && s.recoveries[i].waiting == {} {
      if s.recoveries[i].epoch != s.epoch {
        UpdateKeepsRecoveries(s, i, s.recoveries[i].(done := true), Finish(s, i));
        SameLogged(s, Finish(s, i));
      } else {
        AdvanceKeepsInv(s, i);
        DrainSpec(Advance(s, i));
      }
    }
  }

  lemma FailsKeepsInv(s: Stream, i: nat)
    requires Inv(s)
    ensures Inv(RecoveryFails(s, i))
  {
    if Awaited(s, i) && s.recoveries[i].waiting != {} {
      SameLogged(s, RecoveryFails(s, i));
      if s.recoveries[i].epoch != s.epoch {
        UpdateKeepsRecoveries(s, i, s.recoveries[i].(done := true), Finish(s, i));
      } else {
        NoneLive(s, i, RecoveryFails(s, i));
      }
    }
  }

  lemma RefreshKeepsInv(s: Stream, i: nat, thread: ThreadId)
    requires Inv(s)
    ensures Inv(ThreadRefreshed(s, i, thread))
  {
    if Awaited(s, i) {
      var entry := Refreshed(s.epoch, i, thread);
      LogGrows(s.log, entry);
      LoggedGrows(s, entry, ThreadRefreshed(s, i, thread));
      UpdateKeepsRecoveries(s, i, s.recoveries[i].(waiting := s.recoveries[i].waiting - {thread}), ThreadRefreshed(s, i, thread));
    }
  }

  lemma OpenKeepsInv(s: Stream, thread: ThreadId)
    requires Inv(s)
    ensures Inv(Step(s, OpensThread(thread)))
  {
    var after := Step(s, OpensThread(thread));
    LogGrows(s.log, Opened(s.epoch, thread));
    LoggedGrows(s, Opened(s.epoch, thread), after);
    SameRecoveries(s, after);
  }

  lemma FlagsKeepInv(s: Stream, resynchronizing: bool, socketOpen: bool)
    requires Inv(s)
    ensures Inv(s.(resynchronizing := resynchronizing, socketOpen := socketOpen))
  {
    SameRecoveries(s, s.(resynchronizing := resynchronizing, socketOpen := socketOpen));
    SameLogged(s, s.(resynchronizing := resynchronizing, socketOpen := socketOpen));
  }

  lemma StepKeepsInv(s: Stream, e: Event)
    requires Inv(s)
    ensures Inv(Step(s, e))
  {
    match e
    case FrameArrives(frame) =>
      ReconcileKeepsInv(s, frame.sequence);
      AcceptReconciledKeepsInv(Reconcile(s, frame.sequence), frame);
    case GapArrives(through) =>
      ReconcileKeepsInv(s, through);
      BeginKeepsInv(Reconcile(s, through), through);
    case RefreshEnds(i, thread) => RefreshKeepsInv(s, i, thread);
    case Completes(i) => CompletesKeepsInv(s, i);
    case Fails(i) => FailsKeepsInv(s, i);
    case SessionReady =>
      FlagsKeepInv(s, true, true);
      AckKeepsInv(s.(resynchronizing := true, socketOpen := true));
    case WorkspaceBackOnline => FlagsKeepInv(s, true, s.socketOpen);
    case SocketCloses => FlagsKeepInv(s, s.resynchronizing, false);
    case OpensThread(thread) => OpenKeepsInv(s, thread);
  }

  lemma {:induction false} EveryRunKeepsInv(events: seq<Event>)
    ensures Inv(Run(Initial(), events))
  {
    if events != [] {
      EveryRunKeepsInv(events[..|events| - 1]);
      StepKeepsInv(Run(Initial(), events[..|events| - 1]), events[|events| - 1]);
    }
  }

  // ---------------------------------------------------------------------------------------------
  // Main results
  // ---------------------------------------------------------------------------------------------

  /** Within one epoch, what was applied or covered earlier lies below what is applied later. */
  lemma {:induction false} PositionNeverFalls(log: seq<Entry>, i: nat, epoch: nat)
    requires Stepwise(log) && i <= |log|
    ensures Position(log[..i], epoch) <= Position(log, epoch)
    decreases |log|
  {
    if i == |log| {
      assert log[..i] == log;
    } else {
      assert log[..|log| - 1][..i] == log[..i];
      PositionNeverFalls(log[..|log| - 1], i, epoch);
    }
  }

  lemma {:induction false} StepwiseAt(log: seq<Entry>, i: nat)
    requires Stepwise(log) && i < |log|
    ensures Stepwise(log[..i + 1]) && Stepwise(log[..i]) && Fits(log[..i], log[i])
    decreases |log|
  {
    if i == |log| - 1 {
      assert log[..i + 1] == log;
    } else {
      assert log[..|log| - 1][..i] == log[..i] && log[..|log| - 1][..i + 1] == log[..i + 1];
      StepwiseAt(log[..|log| - 1], i);
    }
  }

  /** Frames are applied in strictly increasing order within an epoch: none twice, none overtaken. */
  lemma AppliedInOrder(events: seq<Event>, i: nat, j: nat)
    requires var log := Run(Initial(), events).log;
             i < j < |log| && log[i].Applied? && log[j].Applied? && log[i].epoch == log[j].epoch
    ensures var log := Run(Initial(), events).log; log[i].sequence < log[j].sequence
  {
    EveryRunKeepsInv(events);
    var log := Run(Initial(), events).log;
    StepwiseAt(log, i);
    StepwiseAt(log, j);
    assert log[..j][..i + 1] == log[..i + 1];
    assert log[..i + 1][..i] == log[..i];
    PositionNeverFalls(log[..j], i + 1, log[j].epoch);
  }

  ghost predicate AccountsFor(entry: Entry, epoch: nat, sequence: int) {
    || (entry.Applied? && entry.epoch == epoch && entry.sequence == sequence)
    || (entry.Covered? && entry.epoch == epoch && entry.after < sequence <= entry.through)
  }

  lemma {:induction false} Tiled(log: seq<Entry>, epoch: nat, sequence: nat) returns (k: nat)
    requires Stepwise(log) && sequence <= Position(log, epoch)
    ensures k < |log| && AccountsFor(log[k], epoch, sequence)
  {
    var entry := log[|log| - 1];
    if AccountsFor(entry, epoch, sequence) {
      k := |log| - 1;
    } else {
      k := Tiled(log[..|log| - 1], epoch, sequence);
    }
  }

  /**
   Every acknowledged sequence number had been applied, or lies in a prefix that a recovery covered.
   */
  lemma AcknowledgedIsAccountedFor(events: seq<Event>, a: nat, sequence: nat)
    requires var log := Run(Initial(), events).log; a < |log| && log[a].Acked? && sequence <= log[a].through
    ensures var log := Run(Initial(), events).log; exists k :: 0 <= k < a && AccountsFor(log[k], log[a].epoch, sequence)
  {
    EveryRunKeepsInv(events);
    var log := Run(Initial(), events).log;
    StepwiseAt(log, a);
    var k := Tiled(log[..a], log[a].epoch, sequence);
    assert log[k] == log[..a][k];
  }

  /**
   A prefix counts as covered only after every thread that was open when its recovery began - in the
   same epoch - has been refreshed since.
   */
  lemma CoveredMeansRefreshed(events: seq<Event>, k: nat, thread: ThreadId)
    requires var log := Run(Initial(), events).log;
             k < |log| && log[k].Covered?
    ensures var log := Run(Initial(), events).log;
            && log[k].start < k && log[log[k].start].Began? && log[log[k].start].epoch == log[k].epoch
            && (thread in OpenThreads(log[..log[k].start]) ==>
                  exists d :: && log[k].start < d < k
                              && log[d].Refreshed? && log[d].recovery == log[k].recovery && log[d].thread == thread)
  {
    EveryRunKeepsInv(events);
    var log := Run(Initial(), events).log;
    var start := log[k].start;
    StepwiseAt(log, k);
    assert Underway(log[..k], log[k].recovery, log[k].epoch, start, {});
    StepwiseAt(log, start);
    assert log[start] == log[..k][start];
    assert thread in OpenThreads(log[..start]) ==> RefreshedAfter(log[..k], start, log[k].recovery, thread);
  }

  lemma AccountedRaises(log: seq<Entry>, i: nat, j: nat, epoch: nat, sequence: int)
    requires Stepwise(log) && i < j <= |log| && AccountsFor(log[i], epoch, sequence)
    ensures Position(log[..j], epoch) >= sequence
  {
    StepwiseAt(log, i);
    assert log[..i + 1][..i] == log[..i];
    if j < |log| {
      StepwiseAt(log, j);
    } else {
      assert log[..j] == log;
    }
    assert log[..j][..i + 1] == log[..i + 1];
    PositionNeverFalls(log[..j], i + 1, epoch);
  }

  lemma AccountedAbove(log: seq<Entry>, j: nat, epoch: nat, sequence: int)
    requires Stepwise(log) && j < |log| && AccountsFor(log[j], epoch, sequence)
    ensures Position(log[..j], epoch) < sequence
  {
    StepwiseAt(log, j);
  }

  /** A sequence number is accounted for once: by one application or by one recovery. */
  lemma AccountedForOnce(events: seq<Event>, i: nat, j: nat, epoch: nat, sequence: int)
    requires var log := Run(Initial(), events).log;
             i < |log| && j < |log| && AccountsFor(log[i], epoch, sequence) && AccountsFor(log[j], epoch, sequence)
    ensures i == j
  {
    EveryRunKeepsInv(events);
    var log := Run(Initial(), events).log;
    AccountedAbove(log, i, epoch, sequence);
    AccountedAbove(log, j, epoch, sequence);
    if i < j {
      AccountedRaises(log, i, j, epoch, sequence);
    } else if j < i {
      AccountedRaises(log, j, i, epoch, sequence);
    }
  }

  /**
   After a recovery of the current epoch completes, the buffer is empty or the next recovery is
   already running.
   */
  lemma CompletionCatchesUp(events: seq<Event>, i: nat)
    requires var s := Run(Initial(), events); Live(s, i) && s.recoveries[i].waiting == {}
    ensures var s := Run(Initial(), events);
            var after := RecoveryCompletes(s, i);
            && s.recovering && after.last >= s.recoveries[i].through
            && (after.recovering || after.buffer == map[])
            && CoveredBy(s, i) in after.log
  {
    EveryRunKeepsInv(events);
    var s := Run(Initial(), events);
    AdvanceKeepsInv(s, i);
    var advanced := Advance(s, i);
    DrainSpec(advanced);
    DrainExtends(advanced);
    assert advanced.log[|s.log|] == CoveredBy(s, i);
  }

  lemma {:induction false} DrainExtends(s: Stream)
    requires forall key :: key in s.buffer ==> s.buffer[key].sequence == key
    ensures Drain(s).last >= s.last && |Drain(s).log| >= |s.log| && Drain(s).log[..|s.log|] == s.log
    decreases |s.buffer|
  {
    if !s.recovering && s.last + 1 in s.buffer {
      SizeShrinks(s.buffer, s.last + 1);
      var next := TakeNext(s);
      DrainExtends(next);
      assert next.log[..|s.log|] == s.log;
      assert Drain(next).log[..|s.log|] == Drain(next).log[..|next.log|][..|s.log|];
    }
  }

  /** No frame of the current epoch that ever arrived is lost: it was applied, covered, or is buffered. */
  lemma NoFrameIsLost(events: seq<Event>, sequence: nat)
    requires sequence in Run(Initial(), events).arrived
    ensures var s := Run(Initial(), events);
            || sequence in s.buffer
            || exists k :: 0 <= k < |s.log| && AccountsFor(s.log[k], s.epoch, sequence)
  {
    EveryRunKeepsInv(events);
    var s := Run(Initial(), events);
    if sequence !in s.buffer {
      var k := Tiled(s.log, s.epoch, sequence);
    }
  }

  /**
   A restarted companion is noticed iff the first sequenced frame after a reconnect is not ahead of
   what was applied; then everything starts over, and that frame is applied or kept behind a recovery.
   */
  lemma RestartOpensAnEpoch(s: Stream, frame: Frame)
    ensures var after := AcceptFrame(s, frame);
            && after.epoch == s.epoch + (if s.resynchronizing && frame.sequence <= s.last then 1 else 0)
            && !after.resynchronizing
            && (after.epoch > s.epoch ==>
                  if frame.sequence == 0 then after.last == 0 && after.buffer == map[] && !after.recovering
                  else
                    && after.last == EMPTY_RELAY_SEQUENCE_CURSOR && after.buffer == map[frame.sequence := frame]
                    && after.recovering
                    && after.recoveries[|s.recoveries|..] == [Recovery(after.epoch, frame.sequence - 1, |s.log|, s.threads, false)])
  {
    if s.resynchronizing && frame.sequence <= s.last && frame.sequence > 0 {
      var reopened := Reconcile(s, frame.sequence);
      assert reopened.buffer[frame.sequence := frame] == map[frame.sequence := frame];
      var after := AcceptFrame(s, frame);
      assert after.recoveries[..|s.recoveries|] == s.recoveries;
    }
  }

  // ---------------------------------------------------------------------------------------------
  // When frames are buffered although no recovery runs
  // ---------------------------------------------------------------------------------------------

  /** A recovery of this epoch fails while frames are buffered. */
  predicate FailsOverFrames(s: Stream, e: Event) {
    e.Fails? && Live(s, e.recovery) && s.recoveries[e.recovery].waiting != {} && s.buffer != map[]
  }

  /** A frame or gap that opens a new epoch or lies beyond the next frame to come. */
  predicate Restores(s: Stream, e: Event) {
    match e
    case FrameArrives(frame) => (s.resynchronizing && frame.sequence <= s.last) || frame.sequence > s.last + 1
    case GapArrives(through) => (s.resynchronizing && through <= s.last) || through > s.last
    case _ => false
  }

  /** A stream that is caught up stays so unless a recovery fails over buffered frames. */
  lemma CaughtUpUnlessFailure(s: Stream, e: Event)
    requires Inv(s) && CaughtUp(s)
    ensures CaughtUp(Step(s, e)) <==> !FailsOverFrames(s, e)
  {
    match e
    case FrameArrives(frame) => FrameKeepsCaughtUp(s, frame);
    case GapArrives(through) => BeginKeepsBuffer(Reconcile(s, through), through);
    case Completes(i) => CompletionKeepsCaughtUp(s, i);
    case Fails(i) => FailureBreaksCaughtUp(s, i);
    case _ =>
  }

  lemma FrameKeepsCaughtUp(s: Stream, frame: Frame)
    requires CaughtUp(s)
    ensures CaughtUp(AcceptFrame(s, frame))
  {
    assert CaughtUp(Reconcile(s, frame.sequence));
  }

  lemma CompletionKeepsCaughtUp(s: Stream, i: nat)
    requires Inv(s) && CaughtUp(s)
    ensures CaughtUp(RecoveryCompletes(s, i))
  {
    if Live(s, i) && s.recoveries[i].waiting == {} {
      AdvanceKeepsInv(s, i);
      DrainSpec(Advance(s, i));
    }
  }

  lemma FailureBreaksCaughtUp(s: Stream, i: nat)
    requires Inv(s) && CaughtUp(s)
    ensures CaughtUp(RecoveryFails(s, i)) <==> !FailsOverFrames(s, Fails(i))
  {
  }

  /** A stream that is not caught up is again exactly with a frame or gap that makes it recover or start over. */
  lemma CaughtUpIffRestored(s: Stream, e: Event)
    requires Inv(s) && !CaughtUp(s)
    ensures CaughtUp(Step(s, e)) <==> Restores(s, e)
  {
    match e
    case FrameArrives(frame) =>
      ReconcileKeepsInv(s, frame.sequence);
    case GapArrives(through) =>
      ReconcileKeepsInv(s, through);
      BeginKeepsBuffer(Reconcile(s, through), through);
    case Completes(i) => assert !Live(s, i);
    case Fails(i) => assert !Live(s, i);
    case _ =>
  }

  predicate FailureAt(events: seq<Event>, k: nat)
    requires k < |events|
  {
    FailsOverFrames(Run(Initial(), events[..k]), events[k])
  }

  predicate RestoredAt(events: seq<Event>, k: nat)
    requires k < |events|
  {
    Restores(Run(Initial(), events[..k]), events[k])
  }

  ghost predicate RestoredBehind(events: seq<Event>, k: nat) {
    exists m :: k < m < |events| && RestoredAt(events, m)
  }

  ghost predicate EveryFailureRestored(events: seq<Event>) {
    forall k :: 0 <= k < |events| && FailureAt(events, k) ==> RestoredBehind(events, k)
  }

  /** What one more event does to the condition: a failure breaks it, a restoring event makes it good. */
  lemma OneMoreEvent(events: seq<Event>)
    requires events != []
    ensures var last := |events| - 1;
            EveryFailureRestored(events) <==>
            !FailureAt(events, last) && (RestoredAt(events, last) || EveryFailureRestored(events[..last]))
  {
    var last := |events| - 1;
    PrefixesAgree(events);
    assert !RestoredBehind(events, last);
    if !FailureAt(events, last) {
      if RestoredAt(events, last) {
        assert forall k :: 0 <= k < last ==> RestoredBehind(events, k);
      } else if EveryFailureRestored(events[..last]) {
        forall k | 0 <= k < last && FailureAt(events, k) ensures RestoredBehind(events, k) {
          assert FailureAt(events[..last], k);
          RestoredLater(events, k);
        }
      } else {
        var k :| 0 <= k < last && FailureAt(events[..last], k) && !RestoredBehind(events[..last], k);
        assert FailureAt(events, k);
        NotRestoredLater(events, k);
      }
    }
  }

  /**
   After a run, frames are buffered without a recovery iff some recovery failed over buffered frames
   and neither a new epoch nor a frame or gap ahead of the next frame has arrived since.
   */
  lemma {:induction false} CaughtUpIff(events: seq<Event>)
    ensures CaughtUp(Run(Initial(), events)) <==> EveryFailureRestored(events)
  {
    if events != [] {
      var init, last := events[..|events| - 1], |events| - 1;
      var before := Run(Initial(), init);
      EveryRunKeepsInv(init);
      CaughtUpIff(init);
      OneMoreEvent(events);
      if CaughtUp(before) {
        CaughtUpUnlessFailure(before, events[last]);
        NoFailureRestores(before, events[last]);
      } else {
        CaughtUpIffRestored(before, events[last]);
        NoFailureBehind(before, events[last]);
      }
    }
  }

  lemma NoFailureRestores(s: Stream, e: Event)
    ensures !(FailsOverFrames(s, e) && Restores(s, e))
  {
  }

  lemma NoFailureBehind(s: Stream, e: Event)
    requires Inv(s) && !CaughtUp(s)
    ensures !FailsOverFrames(s, e)
  {
    assert forall i :: !Live(s, i);
  }

  lemma PrefixesAgree(events: seq<Event>)
    requires events != []
    ensures forall k :: 0 <= k < |events| - 1 ==>
                          (FailureAt(events, k) <==> FailureAt(events[..|events| - 1], k))
                          && (RestoredAt(events, k) <==> RestoredAt(events[..|events| - 1], k))
  {
    assert forall k :: 0 <= k < |events| - 1 ==> events[..|events| - 1][..k] == events[..k];
  }

  lemma RestoredLater(events: seq<Event>, k: nat)
    requires events != [] && RestoredBehind(events[..|events| - 1], k)
    ensures RestoredBehind(events, k)
  {
    PrefixesAgree(events);
    var m :| k < m < |events| - 1 && RestoredAt(events[..|events| - 1], m);
    assert RestoredAt(events, m);
  }

  lemma NotRestoredLater(events: seq<Event>, k: nat)
    requires events != [] && !RestoredBehind(events[..|events| - 1], k) && !RestoredAt(events, |events| - 1)
    ensures !RestoredBehind(events, k)
  {
    PrefixesAgree(events);
    forall m | k < m < |events| ensures !RestoredAt(events, m) {
      if m < |events| - 1 {
        assert !RestoredAt(events[..|events| - 1], m);
      }
    }
  }

  /** After a failed recovery frames stay buffered although no recovery runs. */
  lemma FailureLeavesFramesBuffered()
    ensures exists events :: var s := Run(Initial(), events); !s.recovering && s.buffer != map[]
  {
    var opens := OpensThread(0);
    var arrives := FrameArrives(Frame(0, 5));
    var events := [opens, arrives, Fails(0)];
    assert events[..2] == [opens, arrives] && [opens, arrives][..1] == [opens] && [opens][..0] == [];
    var begun := Run(Initial(), [opens]);
    assert [opens][..|[opens]| - 1] == [];
    assert Run(Initial(), []) == Initial();
    assert begun == Step(Run(Initial(), []), opens);
    assert begun.threads == {0} && begun.recoveries == [] && begun.last == -1;
    var waiting := Run(Initial(), [opens, arrives]);
    assert waiting == AcceptReconciled(begun, Frame(0, 5));
    assert waiting.recoveries == [Recovery(0, 4, |begun.log|, {0}, false)] && waiting.recovering;
    assert Run(Initial(), events) == RecoveryFails(waiting, 0);
    assert 5 in Run(Initial(), events).buffer;
  }

  // ---------------------------------------------------------------------------------------------
  // Recoveries of an older epoch
  // ---------------------------------------------------------------------------------------------

  /** What was opened, begun, applied, covered and acknowledged, without where it stands in the log. */
  function Outcomes(log: seq<Entry>): seq<Entry> {
    if log == [] then []
    else
      Outcomes(log[..|log| - 1]) +
      match log[|log| - 1]
      case Refreshed(_, _, _) => []
      case Covered(epoch, after, through, recovery, _) => [Covered(epoch, after, through, recovery, 0)]
      case entry => [entry]
  }

  predicate SameCourse(x: Recovery, y: Recovery) {
    x.epoch == y.epoch && x.through == y.through && x.waiting == y.waiting && x.done == y.done
  }

  /** The same stream up to recovery `i`, which belongs to an older epoch. */
  ghost predicate Alike(a: Stream, b: Stream, i: nat) {
    && a == b.(log := a.log, recoveries := a.recoveries)
    && Outcomes(a.log) == Outcomes(b.log)
    && i < |a.recoveries| == |b.recoveries|
    && a.recoveries[i].epoch == b.recoveries[i].epoch < a.epoch
    && forall j :: 0 <= j < |a.recoveries| && j != i ==> SameCourse(a.recoveries[j], b.recoveries[j])
  }

  lemma OutcomesGrow(log: seq<Entry>, entry: Entry)
    ensures Outcomes(log + [entry]) ==
            Outcomes(log) +
            (if entry.Refreshed? then []
             else if entry.Covered? then [entry.(start := 0)]
             else [entry])
  {
    assert (log + [entry])[..|log|] == log;
  }

  /** Two logs that say the same still do when the same is appended. */
  lemma OutcomesStaySame(x: seq<Entry>, y: seq<Entry>, entry: Entry, other: Entry)
    requires Outcomes(x) == Outcomes(y)
    requires entry == other || (entry.Refreshed? && other.Refreshed?)
             || (entry.Covered? && other.Covered? && entry.(start := 0) == other.(start := 0))
    ensures Outcomes(x + [entry]) == Outcomes(y + [other])
  {
    OutcomesGrow(x, entry);
    OutcomesGrow(y, other);
  }

  lemma AckAlike(a: Stream, b: Stream, i: nat)
    requires Alike(a, b, i)
    ensures Alike(SendAck(a), SendAck(b), i)
  {
    OutcomesStaySame(a.log, b.log, Acked(a.epoch, a.last), Acked(a.epoch, a.last));
  }

  lemma ApplyAlike(a: Stream, b: Stream, i: nat, frame: Frame)
    requires Alike(a, b, i)
    ensures Alike(ApplyFrame(a, frame), ApplyFrame(b, frame), i)
  {
    OutcomesStaySame(a.log, b.log, Applied(a.epoch, frame.sequence, frame.thread), Applied(a.epoch, frame.sequence, frame.thread));
  }

  lemma BeginAlike(a: Stream, b: Stream, i: nat, through: int)
    requires Alike(a, b, i)
    ensures Alike(BeginGapRecovery(a, through), BeginGapRecovery(b, through), i)
  {
    if through <= a.last {
      AckAlike(a, b, i);
    } else if !a.recovering {
      NewRecoveryAlike(a, b, i, through);
    }
  }

  lemma NewRecoveryAlike(a: Stream, b: Stream, i: nat, through: int)
    requires Alike(a, b, i) && through > a.last && !a.recovering
    ensures Alike(BeginGapRecovery(a, through), BeginGapRecovery(b, through), i)
  {
    var began := Began(a.epoch, |a.recoveries|, a.threads);
    OutcomesStaySame(a.log, b.log, began, began);
    CoursesAppend(a.recoveries, b.recoveries, i,
                  Recovery(a.epoch, through, |a.log|, a.threads, false), Recovery(a.epoch, through, |b.log|, a.threads, false));
  }

  lemma CoursesAppend(xs: seq<Recovery>, ys: seq<Recovery>, i: nat, x: Recovery, y: Recovery)
    requires i < |xs| == |ys| && SameCourse(x, y)
    requires forall j :: 0 <= j < |xs| && j != i ==> SameCourse(xs[j], ys[j])
    ensures forall j :: 0 <= j < |xs + [x]| && j != i ==> SameCourse((xs + [x])[j], (ys + [y])[j])
  {
  }

  lemma ReconcileAlike(a: Stream, b: Stream, i: nat, sequence: int)
    requires Alike(a, b, i)
    ensures Alike(Reconcile(a, sequence), Reconcile(b, sequence), i)
  {
  }

  function Received(s: Stream, frame: Frame): Stream {
    s.(arrived := s.arrived + {frame.sequence})
  }

  lemma AcceptAlike(a: Stream, b: Stream, i: nat, frame: Frame)
    requires Alike(a, b, i)
    ensures Alike(AcceptReconciled(a, frame), AcceptReconciled(b, frame), i)
  {
    if frame.sequence <= a.last {
      OldAlike(a, b, i, frame);
    } else if a.recovering || frame.sequence != a.last + 1 {
      AheadAlike(a, b, i, frame);
    } else {
      NextAlike(a, b, i, frame);
    }
  }

  lemma OldAlike(a: Stream, b: Stream, i: nat, frame: Frame)
    requires Alike(a, b, i) && frame.sequence <= a.last
    ensures Alike(AcceptReconciled(a, frame), AcceptReconciled(b, frame), i)
  {
    AckAlike(Received(a, frame), Received(b, frame), i);
  }

  lemma AheadAlike(a: Stream, b: Stream, i: nat, frame: Frame)
    requires Alike(a, b, i) && frame.sequence > a.last && (a.recovering || frame.sequence != a.last + 1)
    ensures Alike(AcceptReconciled(a, frame), AcceptReconciled(b, frame), i)
  {
    KeepAlike(Received(a, frame), Received(b, frame), i, frame);
  }

  lemma NextAlike(a: Stream, b: Stream, i: nat, frame: Frame)
    requires Alike(a, b, i) && !a.recovering && frame.sequence == a.last + 1
    ensures Alike(AcceptReconciled(a, frame), AcceptReconciled(b, frame), i)
  {
    ApplyAlike(Received(a, frame), Received(b, frame), i, frame);
    AckAlike(ApplyFrame(Received(a, frame), frame), ApplyFrame(Received(b, frame), frame), i);
  }

  lemma KeepAlike(a: Stream, b: Stream, i: nat, frame: Frame)
    requires Alike(a, b, i)
    ensures var keptA, keptB := a.(buffer := a.buffer[frame.sequence := frame]), b.(buffer := b.buffer[frame.sequence := frame]);
            && Alike(keptA, keptB, i)
            && Alike(BeginGapRecovery(keptA, frame.sequence - 1), BeginGapRecovery(keptB, frame.sequence - 1), i)
  {
    BeginAlike(a.(buffer := a.buffer[frame.sequence := frame]), b.(buffer := b.buffer[frame.sequence := frame]), i, frame.sequence - 1);
  }

  lemma {:induction false} DrainAlike(a: Stream, b: Stream, i: nat)
    requires Alike(a, b, i)
    ensures Alike(Drain(a), Drain(b), i)
    decreases |a.buffer|
  {
    if !a.recovering && a.last + 1 in a.buffer {
      var key := a.last + 1;
      SizeShrinks(a.buffer, key);
      var lessA, lessB := a.(buffer := a.buffer - {key}), b.(buffer := b.buffer - {key});
      ApplyAlike(lessA, lessB, i, a.buffer[key]);
      AckAlike(ApplyFrame(lessA, a.buffer[key]), ApplyFrame(lessB, b.buffer[key]), i);
      DrainAlike(TakeNext(a), TakeNext(b), i);
    } else if !a.recovering && a.buffer.Keys != {} && FirstBuffered(a.buffer.Keys) > a.last + 1 {
      BeginAlike(a, b, i, FirstBuffered(a.buffer.Keys) - 1);
    }
  }

  lemma AdvanceAlike(a: Stream, b: Stream, i: nat, k: nat)
    requires Alike(a, b, i) && k < |a.recoveries| && k != i
    ensures Alike(Advance(a, k), Advance(b, k), i)
  {
    assert SameCourse(a.recoveries[k], b.recoveries[k]);
    OutcomesStaySame(a.log, b.log, CoveredBy(a, k), CoveredBy(b, k));
    var through := a.recoveries[k].through;
    var left := Discard(a.buffer, through);
    AckAlike(Finish(a, k).(last := through, buffer := left, recovering := false, log := a.log + [CoveredBy(a, k)]),
             Finish(b, k).(last := through, buffer := left, recovering := false, log := b.log + [CoveredBy(b, k)]), i);
  }

  lemma FinishAlike(a: Stream, b: Stream, i: nat, k: nat)
    requires Alike(a, b, i) && k < |a.recoveries|
    ensures Alike(Finish(a, k), Finish(b, k), i)
    ensures k == i ==> Alike(Finish(a, k), b, i) && Alike(a, Finish(b, k), i)
  {
    if k != i {
      assert SameCourse(a.recoveries[k], b.recoveries[k]);
    }
  }

  /** What becomes of the stale recovery itself in either run. */
  lemma StaleEndsAlike(a: Stream, b: Stream, i: nat)
    requires Alike(a, b, i)
    ensures Alike(RecoveryCompletes(a, i), RecoveryCompletes(b, i), i)
    ensures Alike(RecoveryFails(a, i), RecoveryFails(b, i), i)
    ensures Alike(RecoveryCompletes(a, i), b, i) && Alike(RecoveryFails(a, i), b, i)
  {
    FinishAlike(a, b, i, i);
    var finished := Finish(a, i);
    FinishAlike(finished, b, i, i);
    assert RecoveryCompletes(a, i) in {a, finished} && RecoveryFails(a, i) in {a, finished};
    assert RecoveryCompletes(b, i) in {b, Finish(b, i)} && RecoveryFails(b, i) in {b, Finish(b, i)};
  }

  lemma CompletesAlike(a: Stream, b: Stream, i: nat, k: nat)
    requires Alike(a, b, i) && k != i
    ensures Alike(RecoveryCompletes(a, k), RecoveryCompletes(b, k), i)
  {
    if k < |a.recoveries| {
      assert SameCourse(a.recoveries[k], b.recoveries[k]);
      if Awaited(a, k) && a.recoveries[k].waiting == {} {
        if a.recoveries[k].epoch == a.epoch {
          AdvanceAlike(a, b, i, k);
          DrainAlike(Advance(a, k), Advance(b, k), i);
        } else {
          FinishAlike(a, b, i, k);
        }
      }
    }
  }

  lemma FailsAlike(a: Stream, b: Stream, i: nat, k: nat)
    requires Alike(a, b, i) && k != i
    ensures Alike(RecoveryFails(a, k), RecoveryFails(b, k), i)
  {
    if k < |a.recoveries| {
      assert SameCourse(a.recoveries[k], b.recoveries[k]);
      FinishAlike(a, b, i, k);
    }
  }

  lemma RefreshAlike(a: Stream, b: Stream, i: nat, k: nat, thread: ThreadId)
    requires Alike(a, b, i)
    ensures Alike(ThreadRefreshed(a, k, thread), ThreadRefreshed(b, k, thread), i)
  {
    if k == i {
      StaleRefreshAlike(a, b, i, thread);
    } else {
      OtherRefreshAlike(a, b, i, k, thread);
    }
  }

  lemma OtherRefreshAlike(a: Stream, b: Stream, i: nat, k: nat, thread: ThreadId)
    requires Alike(a, b, i) && k != i
    ensures Alike(ThreadRefreshed(a, k, thread), ThreadRefreshed(b, k, thread), i)
  {
    if k < |a.recoveries| {
      assert SameCourse(a.recoveries[k], b.recoveries[k]);
      OutcomesStaySame(a.log, b.log, Refreshed(a.epoch, k, thread), Refreshed(b.epoch, k, thread));
    }
  }

  lemma StaleRefreshAlike(a: Stream, b: Stream, i: nat, thread: ThreadId)
    requires Alike(a, b, i)
    ensures Alike(ThreadRefreshed(a, i, thread), ThreadRefreshed(b, i, thread), i)
  {
    OutcomesGrow(a.log, Refreshed(a.epoch, i, thread));
    OutcomesGrow(b.log, Refreshed(b.epoch, i, thread));
  }

  lemma StepAlike(a: Stream, b: Stream, i: nat, e: Event)
    requires Alike(a, b, i)
    ensures Alike(Step(a, e), Step(b, e), i)
  {
    match e
    case FrameArrives(frame) =>
      ReconcileAlike(a, b, i, frame.sequence);
      AcceptAlike(Reconcile(a, frame.sequence), Reconcile(b, frame.sequence), i, frame);
    case GapArrives(through) =>
      ReconcileAlike(a, b, i, through);
      BeginAlike(Reconcile(a, through), Reconcile(b, through), i, through);
    case RefreshEnds(k, thread) => RefreshAlike(a, b, i, k, thread);
    case Completes(k) =>
      if k == i {
        StaleEndsAlike(a, b, i);
      } else {
        CompletesAlike(a, b, i, k);
      }
    case Fails(k) =>
      if k == i {
        StaleEndsAlike(a, b, i);
      } else {
        FailsAlike(a, b, i, k);
      }
    case SessionReady => AckAlike(a.(resynchronizing := true, socketOpen := true), b.(resynchronizing := true, socketOpen := true), i);
    case WorkspaceBackOnline =>
    case SocketCloses =>
    case OpensThread(thread) =>
      OutcomesStaySame(a.log, b.log, Opened(a.epoch, thread), Opened(a.epoch, thread));
  }

  lemma {:induction false} RunAlike(a: Stream, b: Stream, i: nat, events: seq<Event>)
    requires Alike(a, b, i)
    ensures Alike(Run(a, events), Run(b, events), i)
  {
    if events != [] {
      RunAlike(a, b, i, events[..|events| - 1]);
      StepAlike(Run(a, events[..|events| - 1]), Run(b, events[..|events| - 1]), i, events[|events| - 1]);
    }
  }

  lemma {:induction false} RunConcat(s: Stream, events: seq<Event>, more: seq<Event>)
    ensures Run(s, events + more) == Run(Run(s, events), more)
    decreases |more|
  {
    if more == [] {
      assert events + more == events;
    } else {
      assert (events + more)[..|events + more| - 1] == events + more[..|more| - 1];
      RunConcat(s, events, more[..|more| - 1]);
    }
  }

  /**
   The end of a recovery that was begun in an older epoch has no effect, now or later: with it and
   without it, the same frames are applied, covered and acknowledged in every continuation.
   */
  lemma StaleEndNeverMatters(events: seq<Event>, i: nat, e: Event, more: seq<Event>)
    requires e == Completes(i) || e == Fails(i)
    requires var s := Run(Initial(), events); Awaited(s, i) && s.recoveries[i].epoch != s.epoch
    ensures Alike(Run(Initial(), events + [e] + more), Run(Initial(), events + more), i)
  {
    var s := Run(Initial(), events);
    assert Alike(s, s, i) by {
      EveryRunKeepsInv(events);
    }
    assert (events + [e])[..|events|] == events;
    assert Run(Initial(), events + [e]) == Step(s, e);
    RunConcat(Initial(), events + [e], more);
    RunConcat(Initial(), events, more);
    StaleEndsAlike(s, s, i);
    RunAlike(Step(s, e), s, i, more);
  }

  // ---------------------------------------------------------------------------------------------
  // The object that the program updates in place
  // ---------------------------------------------------------------------------------------------

  class RelayClientStream {
    var lastRelaySequence: int
    var recovering: bool
    var streamEpoch: nat
    var resynchronizing: bool
    var sequencedBuffer: map<int, Frame>
    var threads: set<ThreadId>
    var socketOpen: bool
    var recoveries: seq<Recovery>
    var log: seq<Entry>
    var arrived: set<int>

    function View(): Stream
      reads this
    {
      Stream(lastRelaySequence, recovering, streamEpoch, resynchronizing, sequencedBuffer, threads, socketOpen, recoveries, log, arrived)
    }

    constructor ()
      ensures View() == Initial() && Inv(View())
    {
      lastRelaySequence, recovering, streamEpoch, resynchronizing := EMPTY_RELAY_SEQUENCE_CURSOR, false, 0, false;
      sequencedBuffer, threads, socketOpen, recoveries, log, arrived := map[], {}, false, [], [], {};
      EveryRunKeepsInv([]);
    }

    method SendAcknowledgement()
      modifies this`log
      ensures View() == SendAck(old(View()))
    {
      if socketOpen {
        log := log + [Acked(streamEpoch, lastRelaySequence)];
      }
    }

    method ApplySequencedMessage(frame: Frame)
      modifies this`threads, this`log, this`lastRelaySequence
      ensures View() == ApplyFrame(old(View()), frame)
    {
      threads := threads + {frame.thread};
      log := log + [Applied(streamEpoch, frame.sequence, frame.thread)];
      lastRelaySequence := frame.sequence;
    }

    /** Afterwards the number is behind the stream, or exactly one recovery is under way. */
    method BeginRecovery(through: int)
      modifies this`recovering, this`recoveries, this`log
      ensures View() == BeginGapRecovery(old(View()), through)
      ensures Inv(old(View())) ==>
                && Inv(View())
                && (through <= lastRelaySequence || exists i :: Live(View(), i) && forall j :: Live(View(), j) ==> j == i)
    {
      if Inv(View()) {
        BeginKeepsInv(View(), through);
      }
      if through <= lastRelaySequence {
        SendAcknowledgement();
        return;
      }
      if recovering {
        return;
      }
      recovering := true;
      var started := Recovery(streamEpoch, through, |log|, threads, false);
      log := log + [Began(streamEpoch, |recoveries|, threads)];
      recoveries := recoveries + [started];
    }

    /** The first number after a reconnect is ahead afterwards; in a new epoch nothing old has an effect. */
    method ReconcileStream(sequence: int)
      modifies this
      ensures View() == Reconcile(old(View()), sequence) && log == old(log)
      ensures !resynchronizing && (old(resynchronizing) && sequence >= 0 ==> sequence > lastRelaySequence)
      ensures Inv(old(View())) ==>
                && Inv(View())
                && (streamEpoch > old(streamEpoch) ==> sequencedBuffer == map[] && forall i :: !Live(View(), i))
    {
      ghost var before := View();
      if Inv(before) {
        ReconcileKeepsInv(before, sequence);
        assert Reconcile(before, sequence).epoch > before.epoch ==> forall i :: !Live(Reconcile(before, sequence), i);
      }
      if !resynchronizing {
        return;
      }
      resynchronizing := false;
      if sequence > lastRelaySequence {
        return;
      }
      streamEpoch := streamEpoch + 1;
      lastRelaySequence := EMPTY_RELAY_SEQUENCE_CURSOR;
      sequencedBuffer := map[];
      recovering := false;
      arrived := {};
    }

    /** `#acceptSequencedMessage`. */
    method AcceptSequencedMessage(frame: Frame)
      requires Inv(View())
      modifies this
      ensures View() == AcceptFrame(old(View()), frame) && Inv(View())
    {
      ReconcileStream(frame.sequence);
      AcceptReconciledMessage(frame);
      StepKeepsInv(old(View()), FrameArrives(frame));
    }

    /** The part of `#acceptSequencedMessage` behind the reconciliation. */
    method AcceptReconciledMessage(frame: Frame)
      modifies this
      ensures View() == AcceptReconciled(old(View()), frame)
      ensures frame.sequence <= lastRelaySequence || (frame.sequence in sequencedBuffer && recovering)
      ensures lastRelaySequence != old(lastRelaySequence) ==>
                !old(recovering) && lastRelaySequence == frame.sequence == old(lastRelaySequence) + 1
      ensures Inv(old(View())) ==> Inv(View()) && (CaughtUp(old(View())) ==> CaughtUp(View()))
    {
      if Inv(View()) {
        AcceptReconciledKeepsInv(View(), frame);
      }
      arrived := arrived + {frame.sequence};
      if frame.sequence <= lastRelaySequence {
        SendAcknowledgement();
        return;
      }
      if recovering {
        sequencedBuffer := sequencedBuffer[frame.sequence := frame];
        return;
      }
      if frame.sequence != lastRelaySequence + 1 {
        sequencedBuffer := sequencedBuffer[frame.sequence := frame];
        BeginRecovery(frame.sequence - 1);
        return;
      }
      ApplySequencedMessage(frame);
      SendAcknowledgement();
    }

    /** `#drainSequencedBuffer`. */
    method DrainSequencedBuffer()
      modifies this
      ensures View() == Drain(old(View()))
    {
      while !recovering && lastRelaySequence + 1 in sequencedBuffer
        invariant Drain(View()) == Drain(old(View()))
        decreases |sequencedBuffer|
      {
        var next := sequencedBuffer[lastRelaySequence + 1];
        ghost var before := View();
        SizeShrinks(sequencedBuffer, lastRelaySequence + 1);
        sequencedBuffer := sequencedBuffer - {lastRelaySequence + 1};
        ApplySequencedMessage(next);
        SendAcknowledgement();
        assert View() == TakeNext(before);
      }
      if !recovering && sequencedBuffer.Keys != {} {
        var first := FirstBuffered(sequencedBuffer.Keys);
        if first > lastRelaySequence + 1 {
          BeginRecovery(first - 1);
        }
      }
    }

    /** The continuation of a recovery whose refreshes all succeeded. */
    method RecoverySucceeded(i: nat)
      requires Inv(View()) && Awaited(View(), i) && recoveries[i].waiting == {}
      modifies this
      ensures View() == RecoveryCompletes(old(View()), i) && Inv(View())
    {
      CompletesKeepsInv(View(), i);
      if streamEpoch != recoveries[i].epoch {
        recoveries := recoveries[i := recoveries[i].(done := true)];
        return;
      }
      CoverPrefix(i);
      DrainSequencedBuffer();
    }

    method CoverPrefix(i: nat)
      requires i < |recoveries|
      modifies this
      ensures View() == Advance(old(View()), i)
    {
      var recovery := recoveries[i];
      recoveries := recoveries[i := recovery.(done := true)];
      log := log + [Covered(streamEpoch, lastRelaySequence, recovery.through, i, recovery.start)];
      lastRelaySequence := recovery.through;
      DiscardThrough(recovery.through);
      recovering := false;
      SendAcknowledgement();
    }

    method DiscardThrough(through: int)
      modifies this`sequencedBuffer
      ensures sequencedBuffer == Discard(old(sequencedBuffer), through)
    {
      var remaining := sequencedBuffer.Keys;
      while remaining != {}
        invariant remaining <= old(sequencedBuffer).Keys
        invariant sequencedBuffer ==
                  map key | key in old(sequencedBuffer) && (key in remaining || key > through) :: old(sequencedBuffer)[key]
        decreases remaining
      {
        var key := FirstBuffered(remaining);
        if key <= through {
          sequencedBuffer := sequencedBuffer - {key};
        }
        remaining := remaining - {key};
      }
    }
  }
}
