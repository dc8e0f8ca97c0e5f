/**
 Cursors of one thread's durable event log, their order and their signed distance
 (`packages/protocol/src/index.ts`).

 A cursor is an opaque string in the program; its validated form is exactly the triple below,
 with a canonical decimal sequence, so two cursor strings are equal iff the triples are.
 */
module RuntimeCursors {
  import opened Wrappers

  /** Identifiers are only ever compared for equality. */
  type Id = nat

  datatype Cursor = Cursor(eventLogId: Id, threadSequence: nat, eventId: Id)

  /** `None` is the program's `null`: the position before sequence zero. */
  type Position = Option<Cursor>

  datatype CursorError = DifferentLogs | ConflictAtSequence

  /** The check shared by comparison and distance. */
  function AssertComparable(left: Cursor, right: Cursor): Option<CursorError> {
    if left.eventLogId != right.eventLogId then Some(DifferentLogs)
    else if left.threadSequence == right.threadSequence && left.eventId != right.eventId then Some(ConflictAtSequence)
    else None
  }

  function Compare(left: Position, right: Position): Result<int, CursorError> {
    if left.None? then Ok(if right.None? then 0 else -1)
    else if right.None? then Ok(1)
    else
      match AssertComparable(left.value, right.value)
      case Some(error) => Err(error)
      case None =>
        if left.value.threadSequence < right.value.threadSequence then Ok(-1)
        else if left.value.threadSequence > right.value.threadSequence then Ok(1)
        else Ok(0)
  }

  function Distance(from: Position, to: Position): Result<int, CursorError> {
    if from.None? then
      if to.None? then Ok(0) else Ok(to.value.threadSequence + 1)
    else if to.None? then Ok(-(from.value.threadSequence + 1))
    else
      match AssertComparable(from.value, to.value)
      case Some(error) => Err(error)
      case None => Ok(to.value.threadSequence - from.value.threadSequence)
  }

  /** Positions of one log on a number line: `null` sits at -1. */
  function Ordinal(position: Position): int {
    match position
    case None => -1
    case Some(cursor) => cursor.threadSequence
  }

  ghost predicate Comparable(left: Position, right: Position) {
    left.None? || right.None? || AssertComparable(left.value, right.value).None?
  }

  /** Comparison and distance fail on the same pairs, and otherwise agree in sign. */
  lemma DistanceAgreesWithCompare(a: Position, b: Position)
    ensures Compare(a, b).Ok? <==> Comparable(a, b)
    ensures Distance(a, b).Ok? <==> Comparable(a, b)
    ensures Comparable(a, b) ==>
              && Distance(a, b).value == Ordinal(b) - Ordinal(a)
              && (Compare(a, b).value < 0 <==> Distance(a, b).value > 0)
              && (Compare(a, b).value == 0 <==> Distance(a, b).value == 0)
              && (Compare(a, b).value > 0 <==> Distance(a, b).value < 0)
    ensures Comparable(a, b) && Compare(a, b).value == 0 ==> a == b
  {
  }

  lemma DistanceIsAntisymmetric(a: Position, b: Position)
    ensures Distance(a, b).Ok? <==> Distance(b, a).Ok?
    ensures Distance(a, b).Ok? ==> Distance(b, a).value == -Distance(a, b).value
  {
  }

  /**
   Distances add up along three positions exactly when the outer two are comparable: `null` in the
   middle is comparable with two unrelated logs, and two events may claim one sequence.
   */
  lemma DistanceIsAdditive(a: Position, b: Position, c: Position)
    requires Distance(a, b).Ok? && Distance(b, c).Ok?
    ensures Distance(a, c) == Ok(Distance(a, b).value + Distance(b, c).value) <==> Comparable(a, c)
    ensures !Comparable(a, c) ==> Distance(a, c).Err?
  {
    DistanceAgreesWithCompare(a, b);
    DistanceAgreesWithCompare(b, c);
    DistanceAgreesWithCompare(a, c);
  }

  /** A concrete triple on which additivity fails, through `null`. */
  lemma DistanceThroughNullMayFail()
    ensures var a, c := Some(Cursor(1, 4, 10)), Some(Cursor(2, 7, 20));
            && Distance(a, None).Ok? && Distance(None, c).Ok? && Distance(a, c) == Err(DifferentLogs)
  {
  }

  /** Within one log the comparison is transitive. */
  lemma CompareIsTransitive(a: Position, b: Position, c: Position)
    requires Comparable(a, b) && Comparable(b, c) && Comparable(a, c)
    requires Compare(a, b).value <= 0 && Compare(b, c).value <= 0
    ensures Compare(a, c).value <= 0
    ensures Compare(a, c).value == 0 ==> a == b == c
  {
  }
}
