/**
 The replay barrier of durable event recovery
 (`packages/client-node/src/runtime-event-recovery.ts`, `validateBarrier` and `prepareBatch`).

 A replay request answers with the cursor it replayed through and the number of events it sent.
 The events themselves arrived before the answer, out of order and mixed with live ones.
 */
module RecoveryBarrier {
  import opened Wrappers
  import opened RuntimeCursors

  /** The fingerprint stands for the digest of everything but the process-local sequence. */
  datatype Event = Event(eventId: Id, cursor: Cursor, fingerprint: Id, bytes: nat)

  datatype Reason =
    | Initial
    | RuntimeRestarted
    | CursorExpired
    | CursorGap
    | StreamGap
    | BufferOverflow
    | CursorConflict

  datatype Barrier = Barrier(throughCursor: Position, replayedCount: nat)

  // ---------------------------------------------------------------------------------------------
  // Sorting with a comparator that throws
  // ---------------------------------------------------------------------------------------------

  function InsertByCursor(event: Event, sorted: seq<Event>): Result<seq<Event>, CursorError> {
    if sorted == [] then Ok([event])
    else
      match Compare(Some(event.cursor), Some(sorted[0].cursor))
      case Err(error) => Err(error)
      case Ok(order) =>
        if order < 0 then Ok([event] + sorted)
        else
          match InsertByCursor(event, sorted[1..])
          case Err(error) => Err(error)
          case Ok(tail) => Ok([sorted[0]] + tail)
  }

  /** `batch.sort(...)`: stable, and it fails as soon as the comparator throws. */
  function SortByCursor(batch: seq<Event>): Result<seq<Event>, CursorError> {
    if batch == [] then Ok([])
    else
      match SortByCursor(batch[..|batch| - 1])
      case Err(error) => Err(error)
      case Ok(sorted) => InsertByCursor(batch[|batch| - 1], sorted)
  }

  ghost predicate EventsComparable(x: Event, y: Event) {
    Comparable(Some(x.cursor), Some(y.cursor))
  }

  ghost predicate PairwiseComparable(batch: seq<Event>) {
    forall x, y :: x in batch && y in batch ==> EventsComparable(x, y)
  }

  ghost predicate Sorted(batch: seq<Event>) {
    forall i, j :: 0 <= i < j < |batch| ==> batch[i].cursor.threadSequence <= batch[j].cursor.threadSequence
  }

  ghost predicate StrictlySorted(batch: seq<Event>) {
    forall i, j :: 0 <= i < j < |batch| ==> batch[i].cursor.threadSequence < batch[j].cursor.threadSequence
  }

  ghost predicate DistinctCursors(batch: seq<Event>) {
    forall i, j :: 0 <= i < j < |batch| ==> batch[i].cursor != batch[j].cursor
  }

  lemma {:induction false} InsertFailsIffIncomparable(event: Event, sorted: seq<Event>)
    requires Sorted(sorted) && PairwiseComparable(sorted)
    ensures InsertByCursor(event, sorted).Ok? <==> forall x :: x in sorted ==> EventsComparable(event, x)
  {
    if sorted != [] {
      var order := Compare(Some(event.cursor), Some(sorted[0].cursor));
      assert order.Ok? <==> EventsComparable(event, sorted[0]);
      assert sorted == [sorted[0]] + sorted[1..];
      if order.Ok? {
        if order.value < 0 {
          forall x | x in sorted ensures EventsComparable(event, x) {
            assert EventsComparable(sorted[0], x);
          }
        } else {
          InsertFailsIffIncomparable(event, sorted[1..]);
        }
      }
    }
  }

  lemma {:induction false} InsertPermutes(event: Event, sorted: seq<Event>)
    requires InsertByCursor(event, sorted).Ok?
    ensures multiset(InsertByCursor(event, sorted).value) == multiset(sorted) + multiset{event}
  {
    if sorted != [] {
      assert sorted == [sorted[0]] + sorted[1..];
      if Compare(Some(event.cursor), Some(sorted[0].cursor)).value >= 0 {
        InsertPermutes(event, sorted[1..]);
      }
    }
  }

  lemma {:induction false} InsertSorts(event: Event, sorted: seq<Event>)
    requires Sorted(sorted) && InsertByCursor(event, sorted).Ok?
    ensures Sorted(InsertByCursor(event, sorted).value)
  {
    if sorted != [] && Compare(Some(event.cursor), Some(sorted[0].cursor)).value >= 0 {
      InsertSorts(event, sorted[1..]);
      InsertPermutes(event, sorted[1..]);
      var tail := InsertByCursor(event, sorted[1..]).value;
      forall x | x in tail ensures sorted[0].cursor.threadSequence <= x.cursor.threadSequence {
        assert x in multiset(tail);
        assert x == event || x in sorted[1..];
      }
    }
  }

  /** Sorting fails iff two events of the batch cannot be compared; otherwise it sorts. */
  lemma {:induction false} SortByCursorSpec(batch: seq<Event>)
    ensures SortByCursor(batch).Ok? <==> PairwiseComparable(batch)
    ensures SortByCursor(batch).Ok? ==>
              Sorted(SortByCursor(batch).value) && multiset(SortByCursor(batch).value) == multiset(batch)
  {
    if batch != [] {
      var init, last := batch[..|batch| - 1], batch[|batch| - 1];
      assert batch == init + [last];
      SortByCursorSpec(init);
      var sorted := SortByCursor(init);
      if sorted.Ok? {
        SameMembers(sorted.value, init);
        InsertFailsIffIncomparable(last, sorted.value);
        if InsertByCursor(last, sorted.value).Ok? {
          InsertSorts(last, sorted.value);
          InsertPermutes(last, sorted.value);
          forall x, y | x in batch && y in batch ensures EventsComparable(x, y) {
            assert x in init || x == last;
            assert y in init || y == last;
          }
        } else {
          assert last in batch;
        }
      } else {
        assert forall x :: x in init ==> x in batch;
      }
    }
  }

  lemma FirstIsMember(batch: seq<Event>)
    ensures batch != [] ==> batch[0] in batch
  {
  }

  lemma SameMembers(a: seq<Event>, b: seq<Event>)
    requires multiset(a) == multiset(b)
    ensures |a| == |b|
    ensures forall x :: x in a <==> x in b
  {
    assert |multiset(a)| == |a| && |multiset(b)| == |b|;
    assert forall x :: x in a <==> x in multiset(a);
    assert forall x :: x in b <==> x in multiset(b);
  }

  lemma DistinctMembers(batch: seq<Event>, x: Event, y: Event)
    requires DistinctCursors(batch) && x in batch && y in batch && x != y
    ensures x.cursor != y.cursor
  {
  }

  lemma OccursOnce(batch: seq<Event>, e: Event)
    requires DistinctCursors(batch) && e in batch
    ensures multiset(batch)[e] == 1
  {
    var k :| 0 <= k < |batch| && batch[k] == e;
    assert batch == batch[..k] + [e] + batch[k + 1..];
    assert e !in batch[..k] && e !in batch[k + 1..];
  }

  lemma OccursTwice(batch: seq<Event>, i: nat, j: nat)
    requires i < j < |batch| && batch[i] == batch[j]
    ensures multiset(batch)[batch[i]] >= 2
  {
    assert batch == batch[..i] + [batch[i]] + batch[i + 1..j] + [batch[j]] + batch[j + 1..];
  }

  lemma DistinctCursorsPermute(a: seq<Event>, b: seq<Event>)
    requires multiset(a) == multiset(b) && DistinctCursors(a)
    ensures DistinctCursors(b)
  {
    SameMembers(a, b);
    forall i, j | 0 <= i < j < |b| ensures b[i].cursor != b[j].cursor {
      OccursOnce(a, b[i]);
      if b[i] == b[j] {
        OccursTwice(b, i, j);
        assert false;
      }
      DistinctMembers(a, b[i], b[j]);
    }
  }

  lemma SortedDistinctIsStrict(batch: seq<Event>)
    requires Sorted(batch) && PairwiseComparable(batch) && DistinctCursors(batch)
    ensures StrictlySorted(batch)
  {
    forall i, j | 0 <= i < j < |batch|
      ensures batch[i].cursor.threadSequence < batch[j].cursor.threadSequence
    {
      assert EventsComparable(batch[i], batch[j]);
      DistanceAgreesWithCompare(Some(batch[i].cursor), Some(batch[j].cursor));
    }
  }

  // ---------------------------------------------------------------------------------------------
  // The barrier check
  // ---------------------------------------------------------------------------------------------

  /** The events strictly after `position`; a cursor of another log makes the filter throw. */
  function FilterAfter(batch: seq<Event>, position: Position): Result<seq<Event>, CursorError> {
    if batch == [] then Ok([])
    else
      match (if position.None? then Ok(1) else Compare(Some(batch[0].cursor), position))
      case Err(error) => Err(error)
      case Ok(order) =>
        match FilterAfter(batch[1..], position)
        case Err(error) => Err(error)
        case Ok(tail) => Ok(if order > 0 then [batch[0]] + tail else tail)
  }

  /** The events up to and including `cursor`. */
  function FilterThrough(batch: seq<Event>, cursor: Cursor): Result<seq<Event>, CursorError> {
    if batch == [] then Ok([])
    else
      match Compare(Some(batch[0].cursor), Some(cursor))
      case Err(error) => Err(error)
      case Ok(order) =>
        match FilterThrough(batch[1..], cursor)
        case Err(error) => Err(error)
        case Ok(tail) => Ok(if order <= 0 then [batch[0]] + tail else tail)
  }

  function ReplayedPart(after: seq<Event>, throughCursor: Position): Result<seq<Event>, CursorError> {
    if throughCursor.None? then Ok([]) else FilterThrough(after, throughCursor.value)
  }

  function ValidateBarrier(batch: seq<Event>, afterCursor: Position, barrier: Barrier): Result<seq<Event>, Reason> {
    match SortByCursor(batch)
    case Err(_) => Err(CursorConflict)
    case Ok(prepared) =>
      match FilterAfter(prepared, afterCursor)
      case Err(_) => Err(CursorConflict)
      case Ok(after) =>
        match ReplayedPart(after, barrier.throughCursor)
        case Err(_) => Err(CursorConflict)
        case Ok(replayed) =>
          match CheckReplay(replayed, afterCursor, barrier)
          case Some(reason) => Err(reason)
          case None => Ok(after)
  }

  /** The count, the last cursor and the distance, in the order the program checks them. */
  function CheckReplay(replayed: seq<Event>, afterCursor: Position, barrier: Barrier): Option<Reason> {
    if |replayed| != barrier.replayedCount then Some(StreamGap)
    else if barrier.replayedCount == 0 then
      match Compare(afterCursor, barrier.throughCursor)
      case Err(_) => Some(CursorConflict)
      case Ok(order) => if order != 0 then Some(StreamGap) else None
    else
      match Compare(Some(replayed[|replayed| - 1].cursor), barrier.throughCursor)
      case Err(_) => Some(CursorConflict)
      case Ok(order) =>
        if order != 0 then Some(StreamGap)
        else
          match Distance(afterCursor, barrier.throughCursor)
          case Err(_) => Some(CursorConflict)
          case Ok(distance) => if distance != barrier.replayedCount then Some(StreamGap) else None
  }

  /** Every event of the batch can be placed relative to both ends of the replayed interval. */
  ghost predicate Placeable(batch: seq<Event>, afterCursor: Position, throughCursor: Position) {
    && PairwiseComparable(batch)
    && (forall e :: e in batch ==> Comparable(Some(e.cursor), afterCursor))
    && (forall e :: e in batch && e.cursor.threadSequence > Ordinal(afterCursor) ==> Comparable(Some(e.cursor), throughCursor))
    && Comparable(afterCursor, throughCursor)
  }

  /** The batch holds an event for every sequence number of the announced interval. */
  ghost predicate Covers(batch: seq<Event>, afterCursor: Position, throughCursor: Position) {
    forall n :: Ordinal(afterCursor) < n <= Ordinal(throughCursor) ==> HasSequence(batch, n)
  }

  ghost predicate HasSequence(batch: seq<Event>, n: int) {
    exists e :: e in batch && e.cursor.threadSequence == n
  }

  lemma {:induction false} FilterAfterSpec(batch: seq<Event>, position: Position)
    requires StrictlySorted(batch)
    ensures FilterAfter(batch, position).Ok? <==> forall e :: e in batch ==> Comparable(Some(e.cursor), position)
    ensures FilterAfter(batch, position).Ok? ==>
              var result := FilterAfter(batch, position).value;
              && StrictlySorted(result)
              && forall e :: e in result <==> e in batch && e.cursor.threadSequence > Ordinal(position)
  {
    if batch != [] {
      assert batch == [batch[0]] + batch[1..];
      FilterAfterSpec(batch[1..], position);
      DistanceAgreesWithCompare(Some(batch[0].cursor), position);
    }
  }

  lemma {:induction false} FilterThroughSpec(batch: seq<Event>, cursor: Cursor)
    requires StrictlySorted(batch)
    ensures FilterThrough(batch, cursor).Ok? <==> forall e :: e in batch ==> Comparable(Some(e.cursor), Some(cursor))
    ensures FilterThrough(batch, cursor).Ok? ==>
              var result := FilterThrough(batch, cursor).value;
              && StrictlySorted(result)
              && result <= batch
              && forall e :: e in result <==> e in batch && e.cursor.threadSequence <= cursor.threadSequence
  {
    if batch != [] {
      assert batch == [batch[0]] + batch[1..];
      FilterThroughSpec(batch[1..], cursor);
      DistanceAgreesWithCompare(Some(batch[0].cursor), Some(cursor));
      var tail := FilterThrough(batch[1..], cursor);
      if tail.Ok? && batch[0].cursor.threadSequence > cursor.threadSequence {
        FirstIsMember(tail.value);
        assert tail.value == [];
      }
    }
  }

  /** Pigeonhole, one way: a strictly increasing run of full length leaves no number out. */
  lemma FullRunIsExact(run: seq<Event>, low: int)
    requires StrictlySorted(run)
    requires forall i :: 0 <= i < |run| ==> low < run[i].cursor.threadSequence <= low + |run|
    ensures forall i :: 0 <= i < |run| ==> run[i].cursor.threadSequence == low + 1 + i
  {
    forall i | 0 <= i < |run| ensures run[i].cursor.threadSequence == low + 1 + i {
      RunGrowsFrom(run, low, i);
      RunGrowsTo(run, low + |run|, i);
    }
  }

  lemma {:induction false} RunGrowsFrom(run: seq<Event>, low: int, i: nat)
    requires StrictlySorted(run) && i < |run|
    requires low < run[0].cursor.threadSequence
    ensures run[i].cursor.threadSequence >= low + 1 + i
  {
    if i > 0 {
      RunGrowsFrom(run, low, i - 1);
    }
  }

  lemma {:induction false} RunGrowsTo(run: seq<Event>, high: int, i: nat)
    requires StrictlySorted(run) && i < |run|
    requires run[|run| - 1].cursor.threadSequence <= high
    ensures run[i].cursor.threadSequence <= high - (|run| - 1 - i)
    decreases |run| - i
  {
    if i < |run| - 1 {
      RunGrowsTo(run, high, i + 1);
    }
  }

  /** Pigeonhole, the other way: a strictly increasing run that leaves no number out is exact. */
  lemma {:induction false} CoveringRunIsExact(run: seq<Event>, low: int, high: int)
    requires StrictlySorted(run) && low <= high
    requires forall e :: e in run ==> low < e.cursor.threadSequence <= high
    requires forall n :: low < n <= high ==> HasSequence(run, n)
    ensures |run| == high - low
    decreases high - low
  {
    if low == high {
      FirstIsMember(run);
    } else {
      assert HasSequence(run, low + 1);
      assert run[0] in run;
      assert run[0].cursor.threadSequence == low + 1;
      assert run == [run[0]] + run[1..];
      forall n | low + 1 < n <= high ensures HasSequence(run[1..], n) {
        assert HasSequence(run, n);
        var e :| e in run && e.cursor.threadSequence == n;
        assert e in run[1..];
      }
      CoveringRunIsExact(run[1..], low + 1, high);
    }
  }

  /** The checks on the replayed part pass iff it is the whole interval. */
  lemma ReplayPassesIffExact(replayed: seq<Event>, afterCursor: Position, barrier: Barrier)
    requires StrictlySorted(replayed)
    requires forall e :: e in replayed ==>
                           && Ordinal(afterCursor) < e.cursor.threadSequence <= Ordinal(barrier.throughCursor)
                           && Comparable(Some(e.cursor), barrier.throughCursor)
    ensures CheckReplay(replayed, afterCursor, barrier).None? <==>
              && Comparable(afterCursor, barrier.throughCursor)
              && Ordinal(barrier.throughCursor) - Ordinal(afterCursor) == barrier.replayedCount
              && Covers(replayed, afterCursor, barrier.throughCursor)
    ensures CheckReplay(replayed, afterCursor, barrier).None? ==> |replayed| == barrier.replayedCount
  {
    var through := barrier.throughCursor;
    DistanceAgreesWithCompare(afterCursor, through);
    if replayed != [] {
      assert replayed[|replayed| - 1] in replayed;
      DistanceAgreesWithCompare(Some(replayed[|replayed| - 1].cursor), through);
    }
    if CheckReplay(replayed, afterCursor, barrier).None? {
      FullRunIsExact(replayed, Ordinal(afterCursor));
      forall n | Ordinal(afterCursor) < n <= Ordinal(through) ensures HasSequence(replayed, n) {
        var e := replayed[n - Ordinal(afterCursor) - 1];
        assert e in replayed && e.cursor.threadSequence == n;
      }
    } else if && Comparable(afterCursor, through) && Covers(replayed, afterCursor, through)
              && Ordinal(through) - Ordinal(afterCursor) == barrier.replayedCount {
      CoveringRunIsExact(replayed, Ordinal(afterCursor), Ordinal(through));
      FullRunIsExact(replayed, Ordinal(afterCursor));
      assert false;
    }
  }

  /**
   The barrier accepts a buffered batch iff everything is comparable, the announced count is the
   distance between the two ends, and no sequence number of the interval is missing - whatever the
   arrival order and whatever later live events the batch holds as well.
   */
  lemma BarrierAcceptsIffComplete(batch: seq<Event>, afterCursor: Position, barrier: Barrier)
    requires DistinctCursors(batch)
    ensures ValidateBarrier(batch, afterCursor, barrier).Ok? <==>
              && Placeable(batch, afterCursor, barrier.throughCursor)
              && Ordinal(barrier.throughCursor) - Ordinal(afterCursor) == barrier.replayedCount
              && Covers(batch, afterCursor, barrier.throughCursor)
  {
    var through := barrier.throughCursor;
    SortByCursorSpec(batch);
    if PairwiseComparable(batch) {
      var prepared := SortByCursor(batch).value;
      PreparedIsStrict(batch);
      FilterAfterSpec(prepared, afterCursor);
      if FilterAfter(prepared, afterCursor).Ok? {
        var after := FilterAfter(prepared, afterCursor).value;
        ReplayedPartSpec(after, through);
        if ReplayedPart(after, through).Ok? {
          var replayed := ReplayedPart(after, through).value;
          ReplayPassesIffExact(replayed, afterCursor, barrier);
          CoversFilters(batch, replayed, afterCursor, through);
        }
      }
    }
  }

  lemma ReplayedPartSpec(after: seq<Event>, throughCursor: Position)
    requires StrictlySorted(after)
    ensures ReplayedPart(after, throughCursor).Ok? <==> forall e :: e in after ==> Comparable(Some(e.cursor), throughCursor)
    ensures ReplayedPart(after, throughCursor).Ok? ==>
              var result := ReplayedPart(after, throughCursor).value;
              && StrictlySorted(result)
              && result <= after
              && forall e :: e in result <==> e in after && e.cursor.threadSequence <= Ordinal(throughCursor)
  {
    if throughCursor.Some? {
      FilterThroughSpec(after, throughCursor.value);
    }
  }

  lemma CoversFilters(batch: seq<Event>, part: seq<Event>, afterCursor: Position, throughCursor: Position)
    requires forall e :: e in part <==>
                           e in batch && Ordinal(afterCursor) < e.cursor.threadSequence <= Ordinal(throughCursor)
    ensures Covers(batch, afterCursor, throughCursor) <==> Covers(part, afterCursor, throughCursor)
  {
    forall n | Ordinal(afterCursor) < n <= Ordinal(throughCursor)
      ensures HasSequence(batch, n) <==> HasSequence(part, n)
    {
    }
  }

  lemma PreparedIsStrict(batch: seq<Event>)
    requires DistinctCursors(batch) && PairwiseComparable(batch)
    ensures SortByCursor(batch).Ok?
    ensures StrictlySorted(SortByCursor(batch).value)
    ensures forall e :: e in SortByCursor(batch).value <==> e in batch
  {
    SortByCursorSpec(batch);
    var prepared := SortByCursor(batch).value;
    SameMembers(prepared, batch);
    DistinctCursorsPermute(batch, prepared);
    SortedDistinctIsStrict(prepared);
  }

  /** What is accepted is delivered from the very next sequence number, in order. */
  lemma AcceptedBatchStartsWithTheReplay(batch: seq<Event>, afterCursor: Position, barrier: Barrier)
    requires DistinctCursors(batch) && ValidateBarrier(batch, afterCursor, barrier).Ok?
    ensures var result := ValidateBarrier(batch, afterCursor, barrier).value;
            && StrictlySorted(result)
            && (forall e :: e in result <==> e in batch && e.cursor.threadSequence > Ordinal(afterCursor))
            && barrier.replayedCount <= |result|
            && (forall i :: 0 <= i < barrier.replayedCount ==>
                              result[i].cursor.threadSequence == Ordinal(afterCursor) + 1 + i)
  {
    SortByCursorSpec(batch);
    PreparedIsStrict(batch);
    var prepared := SortByCursor(batch).value;
    FilterAfterSpec(prepared, afterCursor);
    BarrierAcceptsIffComplete(batch, afterCursor, barrier);
    var after := FilterAfter(prepared, afterCursor).value;
    ReplayedPartSpec(after, barrier.throughCursor);
    var replayed := ReplayedPart(after, barrier.throughCursor).value;
    ReplayPassesIffExact(replayed, afterCursor, barrier);
    FullRunIsExact(replayed, Ordinal(afterCursor));
  }

  /** Two strictly sorted sequences with the same members are the same sequence. */
  lemma {:induction false} StrictlySortedIsUnique(a: seq<Event>, b: seq<Event>)
    requires StrictlySorted(a) && StrictlySorted(b)
    requires forall e :: e in a <==> e in b
    ensures a == b
  {
    if a == [] {
      FirstIsMember(b);
    } else {
      assert a[0] in a && a[0] in b;
      assert b[0] in b && b[0] in a;
      assert a[0] == b[0];
      assert a == [a[0]] + a[1..] && b == [b[0]] + b[1..];
      assert forall e :: e in a[1..] <==> e in a && e != a[0];
      assert forall e :: e in b[1..] <==> e in b && e != b[0];
      StrictlySortedIsUnique(a[1..], b[1..]);
    }
  }

  /** The verdict, the reason for refusing and the delivered order ignore the order of arrival. */
  lemma ArrivalOrderIsIrrelevant(batch: seq<Event>, other: seq<Event>, afterCursor: Position, barrier: Barrier)
    requires multiset(batch) == multiset(other) && DistinctCursors(batch)
    ensures ValidateBarrier(batch, afterCursor, barrier) == ValidateBarrier(other, afterCursor, barrier)
  {
    SortByCursorSpec(batch);
    SortByCursorSpec(other);
    SameMembers(batch, other);
    DistinctCursorsPermute(batch, other);
    if PairwiseComparable(batch) {
      PreparedIsStrict(batch);
      PreparedIsStrict(other);
      StrictlySortedIsUnique(SortByCursor(batch).value, SortByCursor(other).value);
    }
  }

  /**
   Distinct cursors matter: the recovery buffer guarantees them, but on its own the check counts
   one duplicated event twice and accepts a batch in which sequence 0 is missing.
   */
  lemma DuplicateCursorsWouldPass()
    ensures var twice := Event(1, Cursor(7, 1, 1), 0, 10);
            && ValidateBarrier([twice, twice], None, Barrier(Some(Cursor(7, 1, 1)), 2)).Ok?
            && !Covers([twice, twice], None, Some(Cursor(7, 1, 1)))
  {
    var twice := Event(1, Cursor(7, 1, 1), 0, 10);
    var through := Cursor(7, 1, 1);
    var batch := [twice, twice];
    assert batch[..1] == [twice] && [twice][..0] == [];
    assert InsertByCursor(twice, [twice]) == Ok([twice, twice]) by {
      assert [twice][1..] == [];
      assert InsertByCursor(twice, []) == Ok([twice]);
      assert [twice] + [twice] == [twice, twice];
    }
    assert SortByCursor([twice]) == Ok([twice]);
    assert SortByCursor(batch) == Ok(batch);
    assert batch[1..] == [twice] && [twice][1..] == [];
    assert FilterAfter([], None) == Ok([]);
    assert FilterAfter([twice], None) == Ok([twice]) by {
      assert [twice] + [] == [twice];
    }
    assert FilterAfter(batch, None) == Ok(batch);
    assert FilterThrough([], through) == Ok([]);
    assert FilterThrough([twice], through) == Ok([twice]) by {
      assert [twice] + [] == [twice];
    }
    assert FilterThrough(batch, through) == Ok(batch);
    assert !HasSequence(batch, 0);
  }

  predicate IsWithin(e: Event, low: int, high: int) {
    low < e.cursor.threadSequence <= high
  }

  /** The events of the interval, with every repetition. */
  function Within(batch: seq<Event>, low: int, high: int): seq<Event> {
    if batch == [] then []
    else (if IsWithin(batch[0], low, high) then [batch[0]] else []) + Within(batch[1..], low, high)
  }

  lemma {:induction false} WithinCounts(batch: seq<Event>, low: int, high: int, e: Event)
    ensures multiset(Within(batch, low, high))[e] == if IsWithin(e, low, high) then multiset(batch)[e] else 0
  {
    if batch != [] {
      assert batch == [batch[0]] + batch[1..];
      WithinCounts(batch[1..], low, high, e);
    }
  }

  lemma {:induction false} FilterAfterCounts(batch: seq<Event>, position: Position, e: Event)
    requires FilterAfter(batch, position).Ok?
    ensures multiset(FilterAfter(batch, position).value)[e] ==
            if e.cursor.threadSequence > Ordinal(position) then multiset(batch)[e] else 0
  {
    if batch != [] {
      assert batch == [batch[0]] + batch[1..];
      FilterAfterCounts(batch[1..], position, e);
      DistanceAgreesWithCompare(Some(batch[0].cursor), position);
    }
  }

  lemma {:induction false} FilterThroughCounts(batch: seq<Event>, cursor: Cursor, e: Event)
    requires FilterThrough(batch, cursor).Ok?
    ensures multiset(FilterThrough(batch, cursor).value)[e] ==
            if e.cursor.threadSequence <= cursor.threadSequence then multiset(batch)[e] else 0
  {
    if batch != [] {
      assert batch == [batch[0]] + batch[1..];
      FilterThroughCounts(batch[1..], cursor, e);
      DistanceAgreesWithCompare(Some(batch[0].cursor), Some(cursor));
    }
  }

  lemma SortedCons(head: Event, tail: seq<Event>, batch: seq<Event>)
    requires Sorted([head] + batch) && Sorted(tail) && forall x :: x in tail ==> x in batch
    ensures Sorted([head] + tail)
  {
    forall x | x in tail ensures head.cursor.threadSequence <= x.cursor.threadSequence {
      var k :| 0 <= k < |batch| && batch[k] == x;
      assert ([head] + batch)[0] == head && ([head] + batch)[k + 1] == x;
    }
  }

  lemma {:induction false} FilterAfterKeepsOrder(batch: seq<Event>, position: Position)
    requires Sorted(batch) && FilterAfter(batch, position).Ok?
    ensures Sorted(FilterAfter(batch, position).value)
    ensures forall x :: x in FilterAfter(batch, position).value ==> x in batch
  {
    if batch != [] {
      assert batch == [batch[0]] + batch[1..];
      FilterAfterKeepsOrder(batch[1..], position);
      SortedCons(batch[0], FilterAfter(batch[1..], position).value, batch[1..]);
    }
  }

  lemma {:induction false} FilterThroughKeepsOrder(batch: seq<Event>, cursor: Cursor)
    requires Sorted(batch) && FilterThrough(batch, cursor).Ok?
    ensures Sorted(FilterThrough(batch, cursor).value)
    ensures forall x :: x in FilterThrough(batch, cursor).value ==> x in batch
  {
    if batch != [] {
      assert batch == [batch[0]] + batch[1..];
      FilterThroughKeepsOrder(batch[1..], cursor);
      SortedCons(batch[0], FilterThrough(batch[1..], cursor).value, batch[1..]);
    }
  }

  /** What the checks look at are the events of the interval, sorted, each as often as the batch holds it. */
  lemma ReplayedIsWithin(batch: seq<Event>, afterCursor: Position, throughCursor: Position)
    requires SortByCursor(batch).Ok? && FilterAfter(SortByCursor(batch).value, afterCursor).Ok?
    requires ReplayedPart(FilterAfter(SortByCursor(batch).value, afterCursor).value, throughCursor).Ok?
    ensures var replayed := ReplayedPart(FilterAfter(SortByCursor(batch).value, afterCursor).value, throughCursor).value;
            && Sorted(replayed) && PairwiseComparable(replayed)
            && multiset(replayed) == multiset(Within(batch, Ordinal(afterCursor), Ordinal(throughCursor)))
  {
    SortByCursorSpec(batch);
    var prepared := SortByCursor(batch).value;
    SameMembers(prepared, batch);
    var after := FilterAfter(prepared, afterCursor).value;
    var replayed := ReplayedPart(after, throughCursor).value;
    FilterAfterKeepsOrder(prepared, afterCursor);
    if throughCursor.Some? {
      FilterThroughKeepsOrder(after, throughCursor.value);
    }
    forall e: Event
      ensures multiset(replayed)[e] == multiset(Within(batch, Ordinal(afterCursor), Ordinal(throughCursor)))[e]
    {
      WithinCounts(batch, Ordinal(afterCursor), Ordinal(throughCursor), e);
      FilterAfterCounts(prepared, afterCursor, e);
      if throughCursor.Some? {
        FilterThroughCounts(after, throughCursor.value, e);
      }
    }
  }

  /** A run without enough events leaves a number out. */
  lemma {:induction false} CoveringNeedsLength(run: seq<Event>, low: int, high: int)
    requires low <= high && forall n :: low < n <= high ==> HasSequence(run, n)
    ensures |run| >= high - low
    decreases high - low
  {
    if low < high {
      assert HasSequence(run, high);
      var e :| e in run && e.cursor.threadSequence == high;
      var k :| 0 <= k < |run| && run[k] == e;
      var rest := run[..k] + run[k + 1..];
      forall n | low < n <= high - 1 ensures HasSequence(rest, n) {
        StillCovered(run, k, n);
      }
      CoveringNeedsLength(rest, low, high - 1);
    }
  }

  lemma StillCovered(run: seq<Event>, k: nat, n: int)
    requires k < |run| && HasSequence(run, n) && run[k].cursor.threadSequence != n
    ensures HasSequence(run[..k] + run[k + 1..], n)
  {
    var e :| e in run && e.cursor.threadSequence == n;
    var m :| 0 <= m < |run| && run[m] == e;
    var rest := run[..k] + run[k + 1..];
    assert rest[if m < k then m else m - 1] == e;
  }

  /** A run of exactly the length of the interval that leaves no number out has distinct cursors. */
  lemma CoveringRunIsDistinct(run: seq<Event>, low: int, high: int)
    requires low <= high && |run| == high - low && forall n :: low < n <= high ==> HasSequence(run, n)
    ensures DistinctCursors(run)
  {
    forall i, j | 0 <= i < j < |run| ensures run[i].cursor != run[j].cursor {
      if run[i].cursor == run[j].cursor {
        var rest := run[..j] + run[j + 1..];
        forall n | low < n <= high ensures HasSequence(rest, n) {
          if run[j].cursor.threadSequence == n {
            assert rest[i] == run[i];
          } else {
            StillCovered(run, j, n);
          }
        }
        CoveringNeedsLength(rest, low, high);
      }
    }
  }

  /** An accepted batch is complete exactly if no cursor of the replayed interval occurs in it twice. */
  lemma AcceptedIsCompleteIffDistinct(batch: seq<Event>, afterCursor: Position, barrier: Barrier)
    requires ValidateBarrier(batch, afterCursor, barrier).Ok?
    ensures Covers(batch, afterCursor, barrier.throughCursor) <==>
            DistinctCursors(Within(batch, Ordinal(afterCursor), Ordinal(barrier.throughCursor)))
  {
    var low, high := Ordinal(afterCursor), Ordinal(barrier.throughCursor);
    var after := FilterAfter(SortByCursor(batch).value, afterCursor).value;
    var replayed := ReplayedPart(after, barrier.throughCursor).value;
    var part := Within(batch, low, high);
    ReplayedIsWithin(batch, afterCursor, barrier.throughCursor);
    WithinMembers(batch, low, high);
    SameMembers(replayed, part);
    CoversFilters(batch, replayed, afterCursor, barrier.throughCursor);
    DistanceAgreesWithCompare(afterCursor, barrier.throughCursor);
    FullRunCoversIffDistinct(replayed, afterCursor, barrier.throughCursor);
    if DistinctCursors(part) {
      DistinctCursorsPermute(part, replayed);
    } else if DistinctCursors(replayed) {
      DistinctCursorsPermute(replayed, part);
    }
  }

  lemma WithinMembers(batch: seq<Event>, low: int, high: int)
    ensures forall e :: e in Within(batch, low, high) <==> e in batch && IsWithin(e, low, high)
  {
    forall e ensures e in Within(batch, low, high) <==> e in batch && IsWithin(e, low, high) {
      WithinCounts(batch, low, high, e);
      assert e in Within(batch, low, high) <==> multiset(Within(batch, low, high))[e] > 0;
      assert e in batch <==> multiset(batch)[e] > 0;
    }
  }

  lemma FullRunCoversIffDistinct(run: seq<Event>, afterCursor: Position, throughCursor: Position)
    requires Sorted(run) && PairwiseComparable(run) && |run| == Ordinal(throughCursor) - Ordinal(afterCursor)
    requires forall e :: e in run ==> IsWithin(e, Ordinal(afterCursor), Ordinal(throughCursor))
    ensures Covers(run, afterCursor, throughCursor) <==> DistinctCursors(run)
  {
    var low, high := Ordinal(afterCursor), Ordinal(throughCursor);
    if DistinctCursors(run) {
      SortedDistinctIsStrict(run);
      assert forall i :: 0 <= i < |run| ==> IsWithin(run[i], low, high);
      FullRunIsExact(run, low);
      forall n | low < n <= high ensures HasSequence(run, n) {
        assert run[n - low - 1] in run;
      }
    } else if Covers(run, afterCursor, throughCursor) {
      CoveringRunIsDistinct(run, low, high);
    }
  }
}
