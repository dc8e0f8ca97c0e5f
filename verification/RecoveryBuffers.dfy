/**
 The bounded buffer and the seen window of one recovering thread
 (`packages/client-node/src/runtime-event-recovery.ts`, lines 647-675 and 709-818).
 */
module RecoveryBuffers {
  import opened Wrappers
  import opened RuntimeCursors
  import opened RecoveryBarrier

  datatype Seen = Seen(cursor: Cursor, fingerprint: Id)

  datatype Limits = Limits(maxBufferedEvents: nat, maxBufferedBytes: nat) {
    /** The constructor of the manager refuses anything else. */
    predicate Valid() {
      maxBufferedEvents > 0 && maxBufferedBytes > 0
    }
  }

  /**
   The collections of one recovery state. `seenOrder` is the insertion order of `seenByEventId`,
   which the program reads off its map when it evicts.
   */
  datatype Buffers = Buffers(
    buffer: seq<Event>,
    bufferedByEventId: map<Id, Seen>,
    bufferedByCursor: map<Cursor, Id>,
    bufferBytes: int,
    seenOrder: seq<Id>,
    seenByEventId: map<Id, Seen>,
    seenByCursor: map<Cursor, Id>,
    integrityError: Option<Reason>)

  const Empty := Buffers([], map[], map[], 0, [], map[], map[], None)

  function Identity(event: Event): Seen {
    Seen(event.cursor, event.fingerprint)
  }

  // ---------------------------------------------------------------------------------------------
  // Specification of the synchronous operations
  // ---------------------------------------------------------------------------------------------

  function MarkIntegrity(b: Buffers, reason: Reason): Buffers {
    if b.integrityError.None? then b.(integrityError := Some(reason)) else b
  }

  function TakeBuffer(b: Buffers): Buffers {
    b.(buffer := [], bufferedByEventId := map[], bufferedByCursor := map[], bufferBytes := 0)
  }

  function ClearBuffer(b: Buffers): Buffers {
    TakeBuffer(b).(integrityError := None)
  }

  function ForgetSeen(b: Buffers): Buffers {
    b.(seenOrder := [], seenByEventId := map[], seenByCursor := map[])
  }

  function EventAtCursor(b: Buffers, cursor: Cursor): Option<Id> {
    if cursor in b.bufferedByCursor then Some(b.bufferedByCursor[cursor])
    else if cursor in b.seenByCursor then Some(b.seenByCursor[cursor])
    else None
  }

  function BufferEvent(limits: Limits, b: Buffers, event: Event): Buffers {
    if event.eventId in b.seenByEventId then
      if b.seenByEventId[event.eventId] != Identity(event) then MarkIntegrity(b, CursorConflict) else b
    else if event.eventId in b.bufferedByEventId then
      if b.bufferedByEventId[event.eventId] != Identity(event) then MarkIntegrity(b, CursorConflict) else b
    else
      var atCursor := EventAtCursor(b, event.cursor);
      if atCursor.Some? && atCursor.value != event.eventId then MarkIntegrity(b, CursorConflict)
      else if |b.buffer| + 1 > limits.maxBufferedEvents || b.bufferBytes + event.bytes > limits.maxBufferedBytes then
        MarkIntegrity(ClearBuffer(b), BufferOverflow)
      else PushEvent(b, event)
  }

  /** A series of arriving events. */
  function BufferAll(limits: Limits, b: Buffers, events: seq<Event>): Buffers {
    if events == [] then b else BufferEvent(limits, BufferAll(limits, b, events[..|events| - 1]), events[|events| - 1])
  }

  function PushEvent(b: Buffers, event: Event): Buffers {
    b.(buffer := b.buffer + [event],
       bufferBytes := b.bufferBytes + event.bytes,
       bufferedByEventId := b.bufferedByEventId[event.eventId := Identity(event)],
       bufferedByCursor := b.bufferedByCursor[event.cursor := event.eventId])
  }

  /** Drops the oldest remembered event. */
  function EvictOldest(b: Buffers): Buffers
    requires b.seenOrder != []
  {
    var oldest := b.seenOrder[0];
    b.(seenOrder := b.seenOrder[1..],
       seenByEventId := b.seenByEventId - {oldest},
       seenByCursor := if oldest in b.seenByEventId then b.seenByCursor - {b.seenByEventId[oldest].cursor} else b.seenByCursor)
  }

  function EvictExcess(limits: Limits, b: Buffers): Buffers
    decreases |b.seenOrder|
  {
    if |b.seenOrder| > limits.maxBufferedEvents then EvictExcess(limits, EvictOldest(b)) else b
  }

  function RecordSeen(b: Buffers, event: Event): Buffers {
    b.(seenOrder := if event.eventId in b.seenByEventId then b.seenOrder else b.seenOrder + [event.eventId],
       seenByEventId := b.seenByEventId[event.eventId := Identity(event)],
       seenByCursor := b.seenByCursor[event.cursor := event.eventId])
  }

  function RememberDelivered(limits: Limits, b: Buffers, event: Event): Buffers {
    EvictExcess(limits, RecordSeen(b, event))
  }

  /** Drops what was already delivered; a conflict with it is an integrity failure. */
  function DropSeen(b: Buffers, batch: seq<Event>): Result<seq<Event>, Reason> {
    if batch == [] then Ok([])
    else
      match DropSeen(b, batch[..|batch| - 1])
      case Err(reason) => Err(reason)
      case Ok(kept) =>
        var event := batch[|batch| - 1];
        if event.eventId in b.seenByEventId then
          if b.seenByEventId[event.eventId] != Identity(event) then Err(CursorConflict) else Ok(kept)
        else if event.cursor in b.seenByCursor && b.seenByCursor[event.cursor] != event.eventId then Err(CursorConflict)
        else Ok(kept + [event])
  }

  function PrepareBatch(b: Buffers, batch: seq<Event>): Result<seq<Event>, Reason> {
    match SortByCursor(batch)
    case Err(_) => Err(CursorConflict)
    case Ok(sorted) => DropSeen(b, sorted)
  }

  // ---------------------------------------------------------------------------------------------
  // What every operation keeps
  // ---------------------------------------------------------------------------------------------

  ghost function SumBytes(events: seq<Event>): nat {
    if events == [] then 0 else SumBytes(events[..|events| - 1]) + events[|events| - 1].bytes
  }

  ghost predicate DistinctIds(events: seq<Event>) {
    forall i, j :: 0 <= i < j < |events| ==> events[i].eventId != events[j].eventId
  }

  /** The two indexes hold exactly the ids and the cursors of the buffer, each once. */
  ghost predicate Indexed(b: Buffers) {
    && DistinctIds(b.buffer) && DistinctCursors(b.buffer)
    && (forall id {:trigger HasId(b.buffer, id)} :: id in b.bufferedByEventId ==> HasId(b.buffer, id))
    && (forall c {:trigger HasCursor(b.buffer, c)} :: c in b.bufferedByCursor ==> HasCursor(b.buffer, c))
    && (forall e :: e in b.buffer ==> IsIndexed(b, e))
  }

  ghost predicate IsIndexed(b: Buffers, e: Event) {
    && e.eventId in b.bufferedByEventId && b.bufferedByEventId[e.eventId] == Identity(e)
    && e.cursor in b.bufferedByCursor && b.bufferedByCursor[e.cursor] == e.eventId
  }

  ghost predicate HasId(events: seq<Event>, id: Id) {
    exists e :: e in events && e.eventId == id
  }

  ghost predicate HasCursor(events: seq<Event>, cursor: Cursor) {
    exists e :: e in events && e.cursor == cursor
  }

  ghost predicate Bounded(limits: Limits, b: Buffers) {
    && |b.buffer| <= limits.maxBufferedEvents
    && b.bufferBytes == SumBytes(b.buffer) <= limits.maxBufferedBytes
  }

  /** The seen maps are inverse bijections, listed oldest first without repetition. */
  ghost predicate SeenIndexed(b: Buffers) {
    && (forall i, j :: 0 <= i < j < |b.seenOrder| ==> b.seenOrder[i] != b.seenOrder[j])
    && (forall id :: id in b.seenByEventId <==> id in b.seenOrder)
    && (forall id :: id in b.seenByEventId ==>
                       b.seenByEventId[id].cursor in b.seenByCursor && b.seenByCursor[b.seenByEventId[id].cursor] == id)
    && (forall c :: c in b.seenByCursor ==>
                      b.seenByCursor[c] in b.seenByEventId && b.seenByEventId[b.seenByCursor[c]].cursor == c)
  }

  ghost predicate Consistent(limits: Limits, b: Buffers) {
    && Indexed(b)
    && Bounded(limits, b)
    && SeenIndexed(b)
    && |b.seenOrder| <= limits.maxBufferedEvents
  }

  /** None of the events was delivered within the seen window, and none occurs twice. */
  ghost predicate Unseen(b: Buffers, batch: seq<Event>) {
    && DistinctIds(batch) && DistinctCursors(batch)
    && (forall e :: e in batch ==> e.eventId !in b.seenByEventId && e.cursor !in b.seenByCursor)
  }

  lemma DistinctAppend(events: seq<Event>, event: Event)
    requires DistinctIds(events) && DistinctCursors(events)
    requires forall e :: e in events ==> e.eventId != event.eventId && e.cursor != event.cursor
    ensures DistinctIds(events + [event]) && DistinctCursors(events + [event])
  {
    assert forall i :: 0 <= i < |events| ==> events[i] in events;
  }

  lemma PushKeepsIndexed(b: Buffers, event: Event)
    requires Indexed(b)
    requires event.eventId !in b.bufferedByEventId && event.cursor !in b.bufferedByCursor
    ensures Indexed(PushEvent(b, event))
  {
    var after := PushEvent(b, event);
    assert forall e :: e in after.buffer <==> e in b.buffer || e == event;
    forall e | e in b.buffer
      ensures e.eventId != event.eventId && e.cursor != event.cursor && IsIndexed(after, e)
    {
      assert IsIndexed(b, e);
    }
    DistinctAppend(b.buffer, event);
    forall id | id in after.bufferedByEventId ensures HasId(after.buffer, id) {
      if id != event.eventId {
        assert HasId(b.buffer, id);
      } else {
        assert event in after.buffer;
      }
    }
    forall c | c in after.bufferedByCursor ensures HasCursor(after.buffer, c) {
      if c != event.cursor {
        assert HasCursor(b.buffer, c);
      } else {
        assert event in after.buffer;
      }
    }
  }

  /** Whether `BufferEvent` gets as far as the capacity check. */
  predicate Admissible(b: Buffers, event: Event) {
    && event.eventId !in b.seenByEventId
    && event.eventId !in b.bufferedByEventId
    && (EventAtCursor(b, event.cursor).None? || EventAtCursor(b, event.cursor).value == event.eventId)
  }

  ghost predicate FitsInto(limits: Limits, b: Buffers, event: Event) {
    && Consistent(limits, b) && Admissible(b, event)
    && |b.buffer| + 1 <= limits.maxBufferedEvents && b.bufferBytes + event.bytes <= limits.maxBufferedBytes
  }

  lemma BufferEventCases(limits: Limits, b: Buffers, event: Event)
    ensures var after := BufferEvent(limits, b, event);
            || after == b
            || after == MarkIntegrity(b, CursorConflict)
            || after == MarkIntegrity(ClearBuffer(b), BufferOverflow)
            || (&& Admissible(b, event) && after == PushEvent(b, event)
                && |b.buffer| + 1 <= limits.maxBufferedEvents
                && b.bufferBytes + event.bytes <= limits.maxBufferedBytes)
  {
  }

  lemma PushKeepsConsistent(limits: Limits, b: Buffers, event: Event)
    requires FitsInto(limits, b, event)
    ensures Consistent(limits, PushEvent(b, event))
  {
    if event.cursor in b.bufferedByCursor {
      CursorIsIndexed(b, event.cursor);
    }
    PushKeepsIndexed(b, event);
    assert PushEvent(b, event).buffer[..|b.buffer|] == b.buffer;
  }

  lemma BufferEventKeepsConsistent(limits: Limits, b: Buffers, event: Event)
    requires limits.Valid() && Consistent(limits, b)
    ensures Consistent(limits, BufferEvent(limits, b, event))
  {
    BufferEventCases(limits, b, event);
    if BufferEvent(limits, b, event).buffer != b.buffer && BufferEvent(limits, b, event).buffer != [] {
      PushKeepsConsistent(limits, b, event);
    }
  }

  /** The event is buffered, or was delivered within the seen window. */
  predicate Known(b: Buffers, e: Event) {
    || (e.eventId in b.seenByEventId && b.seenByEventId[e.eventId] == Identity(e))
    || (e.eventId in b.bufferedByEventId && b.bufferedByEventId[e.eventId] == Identity(e))
  }

  /**
   No event is lost silently: as long as no integrity failure is noted, every event that arrived and
   every event that was known before is still known, and the buffer only grew at its end.
   */
  lemma {:induction false} NothingIsLostSilently(limits: Limits, b: Buffers, events: seq<Event>)
    requires BufferAll(limits, b, events).integrityError.None?
    ensures var after := BufferAll(limits, b, events);
            && b.integrityError.None?
            && b.buffer <= after.buffer
            && (forall e :: e in events ==> Known(after, e))
            && KnowsMore(b, after)
  {
    if events != [] {
      var init, last := events[..|events| - 1], events[|events| - 1];
      assert events == init + [last];
      OneEventIsNotLost(limits, BufferAll(limits, b, init), last);
      NothingIsLostSilently(limits, b, init);
    }
  }

  lemma OneEventIsNotLost(limits: Limits, b: Buffers, event: Event)
    requires BufferEvent(limits, b, event).integrityError.None?
    ensures var after := BufferEvent(limits, b, event);
            b.integrityError.None? && b.buffer <= after.buffer && Known(after, event) && KnowsMore(b, after)
  {
    BufferEventCases(limits, b, event);
  }

  ghost predicate KnowsMore(b: Buffers, after: Buffers) {
    forall e :: Known(b, e) ==> Known(after, e)
  }

  lemma {:induction false} PrefixBytes(events: seq<Event>, n: nat)
    requires n < |events|
    ensures SumBytes(events[..n]) + events[n].bytes == SumBytes(events[..n + 1]) <= SumBytes(events)
    decreases |events| - n
  {
    assert events[..n + 1][..n] == events[..n];
    if n + 1 < |events| {
      PrefixBytes(events, n + 1);
    } else {
      assert events[..n + 1] == events;
    }
  }

  /** The two indexes are determined by the buffer. */
  lemma IndexesAreUnique(a: Buffers, b: Buffers)
    requires Indexed(a) && Indexed(b) && a.buffer == b.buffer
    ensures a.bufferedByEventId == b.bufferedByEventId && a.bufferedByCursor == b.bufferedByCursor
  {
    IndexesAgree(a, b);
    IndexesAgree(b, a);
  }

  lemma IndexesAgree(a: Buffers, b: Buffers)
    requires Indexed(a) && Indexed(b) && a.buffer == b.buffer
    ensures forall id :: id in a.bufferedByEventId ==>
                           id in b.bufferedByEventId && b.bufferedByEventId[id] == a.bufferedByEventId[id]
    ensures forall c :: c in a.bufferedByCursor ==>
                          c in b.bufferedByCursor && b.bufferedByCursor[c] == a.bufferedByCursor[c]
  {
    forall id | id in a.bufferedByEventId
      ensures id in b.bufferedByEventId && b.bufferedByEventId[id] == a.bufferedByEventId[id]
    {
      assert HasId(a.buffer, id);
      var e :| e in a.buffer && e.eventId == id;
      assert IsIndexed(a, e) && IsIndexed(b, e);
    }
    forall c | c in a.bufferedByCursor
      ensures c in b.bufferedByCursor && b.bufferedByCursor[c] == a.bufferedByCursor[c]
    {
      assert HasCursor(a.buffer, c);
      var e :| e in a.buffer && e.cursor == c;
      assert IsIndexed(a, e) && IsIndexed(b, e);
    }
  }

  ghost predicate RebuiltTo(limits: Limits, b: Buffers, after: Buffers, n: nat)
    requires n <= |b.buffer|
  {
    && Consistent(limits, after)
    && after.buffer == b.buffer[..n]
    && after.integrityError == b.integrityError
    && after.seenOrder == b.seenOrder && after.seenByEventId == b.seenByEventId && after.seenByCursor == b.seenByCursor
  }

  lemma RebuildNext(limits: Limits, b: Buffers, after: Buffers, n: nat)
    requires Consistent(limits, b) && Unseen(b, b.buffer) && n < |b.buffer| && RebuiltTo(limits, b, after, n)
    ensures RebuiltTo(limits, b, BufferEvent(limits, after, b.buffer[n]), n + 1)
  {
    var event := b.buffer[n];
    assert event in b.buffer;
    assert forall e :: e in after.buffer ==> e.eventId != event.eventId && e.cursor != event.cursor;
    assert event.eventId !in after.bufferedByEventId by {
      assert event.eventId in after.bufferedByEventId ==> HasId(after.buffer, event.eventId);
    }
    assert event.cursor !in after.bufferedByCursor by {
      assert event.cursor in after.bufferedByCursor ==> HasCursor(after.buffer, event.cursor);
    }
    PrefixBytes(b.buffer, n);
    PushKeepsConsistent(limits, after, event);
  }

  lemma {:induction false} Rebuild(limits: Limits, b: Buffers, n: nat)
    requires Consistent(limits, b) && Unseen(b, b.buffer) && n <= |b.buffer|
    ensures RebuiltTo(limits, b, BufferAll(limits, TakeBuffer(b), b.buffer[..n]), n)
  {
    if n > 0 {
      Rebuild(limits, b, n - 1);
      assert b.buffer[..n][..n - 1] == b.buffer[..n - 1];
      RebuildNext(limits, b, BufferAll(limits, TakeBuffer(b), b.buffer[..n - 1]), n - 1);
    }
  }

  /** Events that were taken and not delivered can be buffered again: that restores the very same state. */
  lemma TakenCanBeBufferedAgain(limits: Limits, b: Buffers)
    requires Consistent(limits, b) && Unseen(b, b.buffer)
    ensures BufferAll(limits, TakeBuffer(b), b.buffer) == b
  {
    Rebuild(limits, b, |b.buffer|);
    assert b.buffer[..|b.buffer|] == b.buffer;
    IndexesAreUnique(b, BufferAll(limits, TakeBuffer(b), b.buffer));
  }

  lemma CursorIsIndexed(b: Buffers, cursor: Cursor)
    requires Indexed(b) && cursor in b.bufferedByCursor
    ensures b.bufferedByCursor[cursor] in b.bufferedByEventId
  {
    assert HasCursor(b.buffer, cursor);
    var e :| e in b.buffer && e.cursor == cursor;
    assert IsIndexed(b, e);
  }

  lemma EvictOldestKeepsSeen(b: Buffers)
    requires SeenIndexed(b) && b.seenOrder != []
    ensures SeenIndexed(EvictOldest(b))
    ensures EvictOldest(b).seenByEventId.Keys == b.seenByEventId.Keys - {b.seenOrder[0]}
    ensures EvictOldest(b).seenByCursor.Keys <= b.seenByCursor.Keys
  {
    var after := EvictOldest(b);
    var oldest := b.seenOrder[0];
    assert b.seenOrder == [oldest] + after.seenOrder;
    assert oldest in b.seenByEventId && oldest !in after.seenOrder;
    assert forall id :: id in after.seenByEventId <==> id in after.seenOrder by {
      assert forall id :: id in b.seenOrder <==> id == oldest || id in after.seenOrder;
    }
    EvictOldestKeepsInverse(b);
  }

  lemma EvictOldestKeepsInverse(b: Buffers)
    requires SeenIndexed(b) && b.seenOrder != []
    ensures var after := EvictOldest(b);
            && (forall id :: id in after.seenByEventId ==>
                  && after.seenByEventId[id].cursor in after.seenByCursor
                  && after.seenByCursor[after.seenByEventId[id].cursor] == id)
            && (forall c :: c in after.seenByCursor ==>
                  && after.seenByCursor[c] in after.seenByEventId
                  && after.seenByEventId[after.seenByCursor[c]].cursor == c)
  {
    var oldest := b.seenOrder[0];
    assert oldest in b.seenByEventId;
    forall id | id in b.seenByEventId && id != oldest
      ensures b.seenByEventId[id].cursor != b.seenByEventId[oldest].cursor
    {
      assert b.seenByCursor[b.seenByEventId[id].cursor] == id;
    }
  }

  lemma {:induction false} EvictExcessKeepsSeen(limits: Limits, b: Buffers)
    requires SeenIndexed(b)
    ensures var after := EvictExcess(limits, b);
            && SeenIndexed(after)
            && |after.seenOrder| <= limits.maxBufferedEvents
            && after.seenByEventId.Keys <= b.seenByEventId.Keys
            && after.seenByCursor.Keys <= b.seenByCursor.Keys
            && after == b.(seenOrder := after.seenOrder, seenByEventId := after.seenByEventId, seenByCursor := after.seenByCursor)
    decreases |b.seenOrder|
  {
    if |b.seenOrder| > limits.maxBufferedEvents {
      EvictOldestKeepsSeen(b);
      EvictExcessKeepsSeen(limits, EvictOldest(b));
    }
  }

  lemma RecordKeepsSeen(b: Buffers, event: Event)
    requires SeenIndexed(b) && event.eventId !in b.seenByEventId && event.cursor !in b.seenByCursor
    ensures SeenIndexed(RecordSeen(b, event))
  {
    assert event.eventId !in b.seenOrder;
  }

  lemma UnseenHead(b: Buffers, event: Event, rest: seq<Event>)
    requires Unseen(b, [event] + rest)
    ensures event.eventId !in b.seenByEventId && event.cursor !in b.seenByCursor
    ensures Unseen(b, rest)
    ensures forall e :: e in rest ==> e.eventId != event.eventId && e.cursor != event.cursor
  {
    var batch := [event] + rest;
    assert batch[0] == event && event in batch;
    assert forall i :: 0 <= i < |rest| ==> batch[i + 1] == rest[i];
    assert forall e :: e in rest ==> e in batch;
    forall e | e in rest ensures e.eventId != event.eventId && e.cursor != event.cursor {
      var i :| 0 <= i < |rest| && rest[i] == e;
      assert batch[i + 1] == e;
    }
  }

  /** Delivering an unseen event keeps the maps inverse, the window bounded, and the rest unseen. */
  lemma RememberKeepsConsistent(limits: Limits, b: Buffers, event: Event, rest: seq<Event>)
    requires limits.Valid() && Consistent(limits, b)
    requires Unseen(b, [event] + rest)
    ensures Consistent(limits, RememberDelivered(limits, b, event))
    ensures Unseen(RememberDelivered(limits, b, event), rest)
    ensures RememberDelivered(limits, b, event).buffer == b.buffer
    ensures RememberDelivered(limits, b, event).integrityError == b.integrityError
  {
    UnseenHead(b, event, rest);
    RememberSeen(limits, b, event);
    var after := RememberDelivered(limits, b, event);
    IndexedIgnoresSeen(b, after);
    RecordKeepsUnseen(b, event, rest);
    StaysUnseen(RecordSeen(b, event), after, rest);
  }

  lemma RememberSeen(limits: Limits, b: Buffers, event: Event)
    requires SeenIndexed(b) && event.eventId !in b.seenByEventId && event.cursor !in b.seenByCursor
    ensures var after := RememberDelivered(limits, b, event);
            && SeenIndexed(after)
            && |after.seenOrder| <= limits.maxBufferedEvents
            && after.seenByEventId.Keys <= RecordSeen(b, event).seenByEventId.Keys
            && after.seenByCursor.Keys <= RecordSeen(b, event).seenByCursor.Keys
            && after == b.(seenOrder := after.seenOrder, seenByEventId := after.seenByEventId, seenByCursor := after.seenByCursor)
  {
    RecordKeepsSeen(b, event);
    EvictExcessKeepsSeen(limits, RecordSeen(b, event));
  }

  lemma IndexedIgnoresSeen(b: Buffers, after: Buffers)
    requires Indexed(b)
    requires after == b.(seenOrder := after.seenOrder, seenByEventId := after.seenByEventId, seenByCursor := after.seenByCursor)
    ensures Indexed(after)
  {
  }

  lemma RecordKeepsUnseen(b: Buffers, event: Event, rest: seq<Event>)
    requires Unseen(b, rest)
    requires forall e :: e in rest ==> e.eventId != event.eventId && e.cursor != event.cursor
    ensures Unseen(RecordSeen(b, event), rest)
  {
  }

  lemma StaysUnseen(b: Buffers, after: Buffers, batch: seq<Event>)
    requires Unseen(b, batch)
    requires after.seenByEventId.Keys <= b.seenByEventId.Keys && after.seenByCursor.Keys <= b.seenByCursor.Keys
    ensures Unseen(after, batch)
  {
    forall e | e in batch ensures e.eventId !in after.seenByEventId && e.cursor !in after.seenByCursor {
      assert e.eventId !in b.seenByEventId.Keys && e.cursor !in b.seenByCursor.Keys;
    }
  }

  lemma UnseenSuffix(b: Buffers, batch: seq<Event>)
    requires Unseen(b, batch) && batch != []
    ensures Unseen(b, batch[1..])
  {
    assert forall e :: e in batch[1..] ==> e in batch;
  }

  /** Its id was delivered with other content, or its cursor was delivered under another id. */
  predicate Conflicts(b: Buffers, e: Event) {
    if e.eventId in b.seenByEventId then b.seenByEventId[e.eventId] != Identity(e) else e.cursor in b.seenByCursor
  }

  lemma {:induction false} DropSeenFailsIffConflict(b: Buffers, batch: seq<Event>)
    requires SeenIndexed(b)
    ensures DropSeen(b, batch) == Err(CursorConflict) || DropSeen(b, batch).Ok?
    ensures DropSeen(b, batch).Err? <==> exists e :: e in batch && Conflicts(b, e)
  {
    if batch != [] {
      var init, last := batch[..|batch| - 1], batch[|batch| - 1];
      assert batch == init + [last];
      DropSeenFailsIffConflict(b, init);
      LastDecides(b, batch);
      if DropSeen(b, init).Err? {
        var e :| e in init && Conflicts(b, e);
        assert e in batch;
      } else if Conflicts(b, last) {
        assert last in batch;
      }
    }
  }

  lemma LastDecides(b: Buffers, batch: seq<Event>)
    requires SeenIndexed(b) && batch != []
    ensures DropSeen(b, batch).Err? <==> DropSeen(b, batch[..|batch| - 1]).Err? || Conflicts(b, batch[|batch| - 1])
  {
    var last := batch[|batch| - 1];
    assert last.cursor in b.seenByCursor ==> b.seenByCursor[last.cursor] in b.seenByEventId;
  }

  lemma {:induction false} DropSeenKeepsOrder(b: Buffers, batch: seq<Event>)
    requires StrictlySorted(batch) && DropSeen(b, batch).Ok?
    ensures var kept := DropSeen(b, batch).value; StrictlySorted(kept) && forall e :: e in kept ==> e in batch
  {
    if batch != [] {
      var init, last := batch[..|batch| - 1], batch[|batch| - 1];
      assert batch == init + [last];
      DropSeenKeepsOrder(b, init);
      var kept, extended := DropSeen(b, init).value, DropSeen(b, batch).value;
      if extended != kept {
        assert extended == kept + [last];
        forall i | 0 <= i < |kept| ensures kept[i].cursor.threadSequence < last.cursor.threadSequence {
          assert kept[i] in init;
          var j :| 0 <= j < |init| && init[j] == kept[i];
          assert batch[j] == kept[i];
        }
      }
    }
  }

  lemma {:induction false} DropSeenSpec(b: Buffers, batch: seq<Event>)
    requires SeenIndexed(b) && DistinctIds(batch) && DistinctCursors(batch)
    ensures DropSeen(b, batch).Ok? ==>
              var kept := DropSeen(b, batch).value;
              && Unseen(b, kept)
              && (forall e :: e in kept <==> e in batch && e.eventId !in b.seenByEventId)
  {
    if batch != [] {
      var init, last := batch[..|batch| - 1], batch[|batch| - 1];
      assert batch == init + [last];
      DropSeenSpec(b, init);
      var kept := DropSeen(b, init);
      if kept.Ok? && DropSeen(b, batch).Ok? {
        forall e | e in kept.value ensures e.eventId != last.eventId && e.cursor != last.cursor {
          assert e in init;
          var i :| 0 <= i < |init| && init[i] == e;
          assert batch[i] == e;
        }
        if last.eventId !in b.seenByEventId {
          assert last.cursor !in b.seenByCursor;
          var extended := kept.value + [last];
          assert forall i :: 0 <= i < |kept.value| ==> extended[i] in kept.value;
        }
      }
    }
  }

  lemma DistinctIdsPermute(a: seq<Event>, b: seq<Event>)
    requires multiset(a) == multiset(b) && DistinctIds(a) && DistinctCursors(a)
    ensures DistinctIds(b)
  {
    SameMembers(a, b);
    DistinctCursorsPermute(a, b);
    forall i, j | 0 <= i < j < |b| ensures b[i].eventId != b[j].eventId {
      assert b[i] in a && b[j] in a && b[i] != b[j];
    }
  }

  /**
   Preparing fails iff two cursors cannot be compared or an event conflicts with a delivered one.
   Otherwise exactly the events that were not delivered are left, in the order of their cursors.
   */
  lemma PrepareBatchSpec(b: Buffers, batch: seq<Event>)
    requires SeenIndexed(b) && DistinctIds(batch) && DistinctCursors(batch)
    ensures PrepareBatch(b, batch).Err? <==> !PairwiseComparable(batch) || exists e :: e in batch && Conflicts(b, e)
    ensures PrepareBatch(b, batch).Ok? ==>
              var kept := PrepareBatch(b, batch).value;
              && Unseen(b, kept)
              && (forall e :: e in kept <==> e in batch && e.eventId !in b.seenByEventId)
              && StrictlySorted(kept)
  {
    SortByCursorSpec(batch);
    if SortByCursor(batch).Ok? {
      var sorted := SortByCursor(batch).value;
      SameMembers(sorted, batch);
      DistinctCursorsPermute(batch, sorted);
      DistinctIdsPermute(batch, sorted);
      SortedDistinctIsStrict(sorted);
      DropSeenSpec(b, sorted);
      DropSeenFailsIffConflict(b, sorted);
      if DropSeen(b, sorted).Ok? {
        DropSeenKeepsOrder(b, sorted);
      }
    }
  }

  // ---------------------------------------------------------------------------------------------
  // The record that the program updates in place
  // ---------------------------------------------------------------------------------------------

  class ThreadRecoveryBuffers {
    var buffer: seq<Event>
    var bufferedByEventId: map<Id, Seen>
    var bufferedByCursor: map<Cursor, Id>
    var bufferBytes: int
    var seenOrder: seq<Id>
    var seenByEventId: map<Id, Seen>
    var seenByCursor: map<Cursor, Id>
    var integrityError: Option<Reason>

    function View(): Buffers
      reads this
    {
      Buffers(buffer, bufferedByEventId, bufferedByCursor, bufferBytes, seenOrder, seenByEventId, seenByCursor, integrityError)
    }

    constructor ()
      ensures View() == Empty
      ensures forall limits: Limits :: limits.Valid() ==> Consistent(limits, View())
    {
      buffer, bufferedByEventId, bufferedByCursor, bufferBytes := [], map[], map[], 0;
      seenOrder, seenByEventId, seenByCursor, integrityError := [], map[], map[], None;
    }

    /** The first failure stays until the buffer is cleared. */
    method MarkIntegrityFailure(reason: Reason)
      modifies this`integrityError
      ensures View() == MarkIntegrity(old(View()), reason)
      ensures integrityError.Some? && (old(integrityError).Some? ==> integrityError == old(integrityError))
      ensures forall limits: Limits :: Consistent(limits, old(View())) ==> Consistent(limits, View())
    {
      if integrityError.None? {
        integrityError := Some(reason);
      }
    }

    /** Forgets the buffer and the failure, and no delivered event. */
    method Clear()
      modifies this
      ensures View() == ClearBuffer(old(View()))
      ensures forall limits: Limits :: Consistent(limits, old(View())) ==> Consistent(limits, View())
      ensures forall e :: Known(View(), e) <==> e.eventId in old(seenByEventId) && old(seenByEventId)[e.eventId] == Identity(e)
    {
      buffer, bufferBytes := [], 0;
      bufferedByEventId, bufferedByCursor := map[], map[];
      integrityError := None;
    }

    /** What is taken can be buffered again, as long as none of it is delivered in between. */
    method Take() returns (batch: seq<Event>)
      modifies this
      ensures batch == old(buffer) && View() == TakeBuffer(old(View()))
      ensures forall limits: Limits :: Consistent(limits, old(View())) ==>
                && Consistent(limits, View())
                && |batch| <= limits.maxBufferedEvents && SumBytes(batch) <= limits.maxBufferedBytes
                && DistinctIds(batch) && DistinctCursors(batch)
                && (Unseen(View(), batch) ==> BufferAll(limits, View(), batch) == old(View()))
    {
      ghost var before := View();
      forall limits: Limits | Consistent(limits, before) && Unseen(before, buffer)
        ensures BufferAll(limits, TakeBuffer(before), buffer) == before
      {
        TakenCanBeBufferedAgain(limits, before);
      }
      batch := buffer;
      buffer, bufferBytes := [], 0;
      bufferedByEventId, bufferedByCursor := map[], map[];
    }

    method BufferDurableEvent(limits: Limits, event: Event)
      requires limits.Valid() && Consistent(limits, View())
      modifies this
      ensures View() == BufferEvent(limits, old(View()), event)
      ensures Consistent(limits, View())
    {
      ghost var before := View();
      BufferEventKeepsConsistent(limits, before, event);
      if event.eventId in seenByEventId {
        if seenByEventId[event.eventId] != Identity(event) {
          MarkIntegrityFailure(CursorConflict);
        }
        return;
      }
      if event.eventId in bufferedByEventId {
        if bufferedByEventId[event.eventId] != Identity(event) {
          MarkIntegrityFailure(CursorConflict);
        }
        return;
      }
      var atCursor := EventAtCursor(View(), event.cursor);
      if atCursor.Some? && atCursor.value != event.eventId {
        MarkIntegrityFailure(CursorConflict);
        return;
      }
      if |buffer| + 1 > limits.maxBufferedEvents || bufferBytes + event.bytes > limits.maxBufferedBytes {
        Clear();
        MarkIntegrityFailure(BufferOverflow);
        return;
      }
      Push(event);
    }

    /** An event that passed the checks is known from now on, and what was known stays so. */
    method Push(event: Event)
      modifies this
      ensures View() == PushEvent(old(View()), event)
      ensures Known(View(), event)
      ensures event.eventId !in old(bufferedByEventId) ==> KnowsMore(old(View()), View())
      ensures forall limits: Limits :: FitsInto(limits, old(View()), event) ==> Consistent(limits, View())
    {
      ghost var before := View();
      forall limits: Limits | FitsInto(limits, before, event) ensures Consistent(limits, PushEvent(before, event)) {
        PushKeepsConsistent(limits, before, event);
      }
      buffer := buffer + [event];
      bufferBytes := bufferBytes + event.bytes;
      bufferedByEventId := bufferedByEventId[event.eventId := Identity(event)];
      bufferedByCursor := bufferedByCursor[event.cursor := event.eventId];
    }

    method Remember(limits: Limits, event: Event)
      requires limits.Valid() && Consistent(limits, View()) && Unseen(View(), [event])
      modifies this
      ensures View() == RememberDelivered(limits, old(View()), event)
      ensures Consistent(limits, View())
    {
      assert [event] + [] == [event];
      RememberKeepsConsistent(limits, View(), event, []);
      ghost var recorded := RecordSeen(View(), event);
      if event.eventId !in seenByEventId {
        seenOrder := seenOrder + [event.eventId];
      }
      seenByEventId := seenByEventId[event.eventId := Identity(event)];
      seenByCursor := seenByCursor[event.cursor := event.eventId];
      while |seenOrder| > limits.maxBufferedEvents
        invariant EvictExcess(limits, View()) == EvictExcess(limits, recorded)
      {
        var oldestEventId := seenOrder[0];
        ghost var next := EvictOldest(View());
        if oldestEventId in seenByEventId {
          var oldest := seenByEventId[oldestEventId];
          seenByCursor := seenByCursor - {oldest.cursor};
        }
        seenByEventId := seenByEventId - {oldestEventId};
        seenOrder := seenOrder[1..];
        assert View() == next;
      }
    }

    /** Filters a sorted batch against the seen window, as the program's `filter` callback does. */
    method Prepare(batch: seq<Event>) returns (result: Result<seq<Event>, Reason>)
      ensures result == PrepareBatch(View(), batch)
      ensures SeenIndexed(View()) && DistinctIds(batch) && DistinctCursors(batch) && result.Ok? ==>
                && Unseen(View(), result.value)
                && forall e :: e in result.value <==> e in batch && e.eventId !in seenByEventId
    {
      if SeenIndexed(View()) && DistinctIds(batch) && DistinctCursors(batch) {
        PrepareBatchSpec(View(), batch);
      }
      var sorting := SortByCursor(batch);
      if sorting.Err? {
        return Err(CursorConflict);
      }
      var sorted := sorting.value;
      var kept: seq<Event> := [];
      for i := 0 to |sorted|
        invariant DropSeen(View(), sorted[..i]) == Ok(kept)
      {
        var event := sorted[i];
        assert sorted[..i + 1][..i] == sorted[..i];
        if event.eventId in seenByEventId {
          if seenByEventId[event.eventId] != Identity(event) {
            DropSeenStopsEarly(View(), sorted, i + 1);
            return Err(CursorConflict);
          }
        } else if event.cursor in seenByCursor && seenByCursor[event.cursor] != event.eventId {
          DropSeenStopsEarly(View(), sorted, i + 1);
          return Err(CursorConflict);
        } else {
          kept := kept + [event];
        }
      }
      assert sorted[..|sorted|] == sorted;
      result := Ok(kept);
    }
  }

  lemma {:induction false} DropSeenStopsEarly(b: Buffers, batch: seq<Event>, n: nat)
    requires n <= |batch| && DropSeen(b, batch[..n]) == Err(CursorConflict)
    ensures DropSeen(b, batch) == Err(CursorConflict)
    decreases |batch| - n
  {
    if n == |batch| {
      assert batch[..n] == batch;
    } else {
      assert batch[..n + 1][..n] == batch[..n];
      DropSeenStopsEarly(b, batch, n + 1);
    }
  }
}
