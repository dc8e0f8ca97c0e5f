/**
 The per-workspace replay buffer of sequenced relay frames
 (`packages/companion/src/relay-frame-buffer.ts`, lines 139-253).
 */
module RelayFrameBuffer {
  import opened Wrappers

  /** The body stands for everything in a frame but its sequence number. */
  type Body = nat

  datatype Frame = Frame(relaySequence: nat, body: Body)

  datatype Stored = Stored(frame: Frame, bytes: nat)

  datatype Gap = Gap(fromRelaySequence: int, throughRelaySequence: int)

  datatype Replay = Replay(frames: seq<Frame>, gap: Option<Gap>)

  datatype InvalidSequence = InvalidSequence

  datatype Buffer = Buffer(
    maxEvents: nat,
    maxBytes: nat,
    entries: seq<Stored>,
    nextSequence: nat,
    retainedBytes: int,
    droppedThroughSequence: int)

  function Empty(maxEvents: nat, maxBytes: nat): Buffer {
    Buffer(maxEvents, maxBytes, [], 0, 0, -1)
  }

  function Highest(b: Buffer): int {
    b.nextSequence - 1
  }

  // ---------------------------------------------------------------------------------------------
  // Specification of the operations
  // ---------------------------------------------------------------------------------------------

  function DropOldest(b: Buffer): Buffer {
    if b.entries == [] then b
    else
      var removed := b.entries[0];
      b.(entries := b.entries[1..],
         retainedBytes := b.retainedBytes - removed.bytes,
         droppedThroughSequence :=
           if removed.frame.relaySequence > b.droppedThroughSequence then removed.frame.relaySequence
           else b.droppedThroughSequence)
  }

  predicate OverLimits(b: Buffer) {
    |b.entries| > b.maxEvents || (b.retainedBytes > b.maxBytes && |b.entries| > 0)
  }

  function EnforceLimits(b: Buffer): Buffer
    decreases |b.entries|
  {
    if OverLimits(b) && b.entries != [] then EnforceLimits(DropOldest(b)) else b
  }

  function Push(b: Buffer, body: Body, bytes: nat): Buffer {
    b.(nextSequence := b.nextSequence + 1,
       entries := b.entries + [Stored(Frame(b.nextSequence, body), bytes)],
       retainedBytes := b.retainedBytes + bytes)
  }

  function Append(b: Buffer, body: Body, bytes: nat): Buffer {
    EnforceLimits(Push(b, body, bytes))
  }

  function DropThrough(b: Buffer, throughRelaySequence: int): Buffer
    decreases |b.entries|
  {
    if b.entries != [] && b.entries[0].frame.relaySequence <= throughRelaySequence
    then DropThrough(DropOldest(b), throughRelaySequence)
    else b
  }

  function Acknowledge(b: Buffer, throughRelaySequence: int): Result<Buffer, InvalidSequence> {
    if throughRelaySequence < -1 then Err(InvalidSequence)
    else if throughRelaySequence > Highest(b) then Ok(b)
    else Ok(DropThrough(b, throughRelaySequence))
  }

  function FramesAfter(entries: seq<Stored>, afterRelaySequence: int): seq<Frame> {
    if entries == [] then []
    else
      (if entries[0].frame.relaySequence > afterRelaySequence then [entries[0].frame] else [])
      + FramesAfter(entries[1..], afterRelaySequence)
  }

  function ReplayAfter(b: Buffer, afterRelaySequence: int): Result<Replay, InvalidSequence> {
    if afterRelaySequence < -1 then Err(InvalidSequence)
    else
      Ok(Replay(
           FramesAfter(b.entries, afterRelaySequence),
           if afterRelaySequence < b.droppedThroughSequence
           then Some(Gap(afterRelaySequence + 1, b.droppedThroughSequence))
           else None))
  }

  // ---------------------------------------------------------------------------------------------
  // What every operation keeps
  // ---------------------------------------------------------------------------------------------

  ghost function SumBytes(entries: seq<Stored>): nat {
    if entries == [] then 0 else entries[0].bytes + SumBytes(entries[1..])
  }

  /** Entries are contiguous and end at the highest sequence; everything before was dropped. */
  ghost predicate Contiguous(b: Buffer) {
    && |b.entries| <= b.nextSequence
    && (forall i :: 0 <= i < |b.entries| ==> b.entries[i].frame.relaySequence == b.nextSequence - |b.entries| + i)
    && b.droppedThroughSequence == b.nextSequence - |b.entries| - 1
    && b.retainedBytes == SumBytes(b.entries)
  }

  ghost predicate WithinLimits(b: Buffer) {
    |b.entries| <= b.maxEvents && b.retainedBytes <= b.maxBytes
  }

  ghost predicate Valid(b: Buffer) {
    b.maxEvents > 0 && b.maxBytes > 0 && Contiguous(b) && WithinLimits(b)
  }

  /** `after` is `b` without some of its oldest entries. */
  ghost predicate DropsOldest(b: Buffer, after: Buffer) {
    && |after.entries| <= |b.entries|
    && after.entries == b.entries[|b.entries| - |after.entries|..]
    && after == b.(entries := after.entries,
                   retainedBytes := after.retainedBytes,
                   droppedThroughSequence := after.droppedThroughSequence)
  }

  lemma DropOldestKeepsContiguous(b: Buffer)
    requires Contiguous(b) && b.entries != []
    ensures Contiguous(DropOldest(b)) && DropsOldest(b, DropOldest(b)) && |DropOldest(b).entries| == |b.entries| - 1
    ensures DropOldest(b).droppedThroughSequence == b.droppedThroughSequence + 1
  {
    assert b.entries[0].frame.relaySequence == b.nextSequence - |b.entries|;
    assert b.entries == [b.entries[0]] + b.entries[1..];
  }

  lemma SumBytesAppends(entries: seq<Stored>, last: Stored)
    ensures SumBytes(entries + [last]) == SumBytes(entries) + last.bytes
  {
    if entries == [] {
      assert entries + [last] == [last];
      assert [last][1..] == [];
    } else {
      assert (entries + [last])[1..] == entries[1..] + [last];
    }
  }

  /** Limits are met by dropping the fewest oldest entries that meets them. */
  lemma {:induction false} EnforceLimitsDropsFewest(b: Buffer)
    requires Contiguous(b)
    ensures var after := EnforceLimits(b);
            && Contiguous(after) && WithinLimits(after)
            && DropsOldest(b, after)
            && (forall n :: 0 <= n < |b.entries| - |after.entries| ==>
                  |b.entries[n..]| > b.maxEvents || SumBytes(b.entries[n..]) > b.maxBytes)
    decreases |b.entries|
  {
    if OverLimits(b) {
      DropOldestKeepsContiguous(b);
      EnforceLimitsDropsFewest(DropOldest(b));
      var after := EnforceLimits(b);
      forall n | 0 <= n < |b.entries| - |after.entries|
        ensures |b.entries[n..]| > b.maxEvents || SumBytes(b.entries[n..]) > b.maxBytes
      {
        if n > 0 {
          assert b.entries[n..] == DropOldest(b).entries[n - 1..];
        } else {
          assert b.entries[0..] == b.entries;
        }
      }
    } else {
      assert b.entries[0..] == b.entries;
    }
  }

  lemma AppendKeepsValid(b: Buffer, body: Body, bytes: nat)
    requires Valid(b)
    ensures Valid(Append(b, body, bytes))
    ensures Append(b, body, bytes).nextSequence == b.nextSequence + 1
    ensures DropsOldest(Push(b, body, bytes), Append(b, body, bytes))
  {
    SumBytesAppends(b.entries, Stored(Frame(b.nextSequence, body), bytes));
    EnforceLimitsDropsFewest(Push(b, body, bytes));
  }

  /** An acknowledgement drops exactly the entries up to it, and never more than there are. */
  lemma {:induction false} DropThroughSpec(b: Buffer, throughRelaySequence: int)
    requires Valid(b) && throughRelaySequence <= Highest(b)
    ensures var after := DropThrough(b, throughRelaySequence);
            && Valid(after)
            && DropsOldest(b, after)
            && after.droppedThroughSequence ==
               (if throughRelaySequence > b.droppedThroughSequence then throughRelaySequence else b.droppedThroughSequence)
    decreases |b.entries|
  {
    if b.entries != [] && b.entries[0].frame.relaySequence <= throughRelaySequence {
      DropOldestKeepsContiguous(b);
      DropThroughSpec(DropOldest(b), throughRelaySequence);
    } else {
      assert b.entries[0..] == b.entries;
    }
  }

  lemma AcknowledgeKeepsValid(b: Buffer, throughRelaySequence: int)
    requires Valid(b)
    ensures Acknowledge(b, throughRelaySequence).Ok? <==> throughRelaySequence >= -1
    ensures Acknowledge(b, throughRelaySequence).Ok? ==>
              var after := Acknowledge(b, throughRelaySequence).value;
              && Valid(after) && after.nextSequence == b.nextSequence
              && DropsOldest(b, after)
              && (throughRelaySequence > Highest(b) ==> after == b)
  {
    assert b.entries[0..] == b.entries;
    if -1 <= throughRelaySequence <= Highest(b) {
      DropThroughSpec(b, throughRelaySequence);
    }
  }

  /** The frames of the entries from position `from` on. */
  function FramesFrom(entries: seq<Stored>, from: nat): (frames: seq<Frame>)
    requires from <= |entries|
    ensures |frames| == |entries| - from
    ensures forall i :: 0 <= i < |entries| - from ==> frames[i] == entries[from + i].frame
  {
    seq(|entries| - from, i requires 0 <= i < |entries| - from => entries[from + i].frame)
  }

  /** How many of the entries, which begin at `low`, lie at or before `after`. */
  function Skipped(count: nat, low: nat, after: int): (skipped: nat)
    ensures skipped <= count
  {
    if after < low then 0 else if after - low + 1 > count then count else after - low + 1
  }

  lemma {:induction false} AllFramesAfter(entries: seq<Stored>, after: int)
    requires forall i :: 0 <= i < |entries| ==> entries[i].frame.relaySequence > after
    ensures FramesAfter(entries, after) == FramesFrom(entries, 0)
  {
    if entries != [] {
      AllFramesAfter(entries[1..], after);
      assert FramesFrom(entries, 0) == [entries[0].frame] + FramesFrom(entries[1..], 0);
    }
  }

  lemma FirstIsSkipped(entries: seq<Stored>, after: int)
    requires entries != [] && entries[0].frame.relaySequence <= after
    ensures FramesAfter(entries, after) == FramesAfter(entries[1..], after)
  {
  }

  lemma FramesFromTail(entries: seq<Stored>, from: nat)
    requires from < |entries|
    ensures FramesFrom(entries[1..], from) == FramesFrom(entries, from + 1)
  {
  }

  lemma TailIsNumbered(entries: seq<Stored>, low: nat)
    requires entries != [] && Numbered(entries, low)
    ensures entries[0].frame.relaySequence == low && Numbered(entries[1..], low + 1)
  {
  }

  ghost predicate Numbered(entries: seq<Stored>, low: nat) {
    forall i :: 0 <= i < |entries| ==> entries[i].frame.relaySequence == low + i
  }

  /** The frames behind `after` are a suffix of the entries. */
  lemma {:induction false} FramesAfterSpec(entries: seq<Stored>, low: nat, after: int)
    requires Numbered(entries, low)
    ensures FramesAfter(entries, after) == FramesFrom(entries, Skipped(|entries|, low, after))
    decreases |entries|
  {
    if after < low {
      AllFramesAfter(entries, after);
    } else if entries != [] {
      TailIsNumbered(entries, low);
      FirstIsSkipped(entries, after);
      FramesAfterSpec(entries[1..], low + 1, after);
      FramesFromTail(entries, Skipped(|entries| - 1, low + 1, after));
    }
  }

  // ---------------------------------------------------------------------------------------------
  // Every history of appends and acknowledgements
  // ---------------------------------------------------------------------------------------------

  datatype Op = AppendOp(body: Body, bytes: nat) | AckOp(throughRelaySequence: int)

  function Apply(b: Buffer, op: Op): Buffer {
    match op
    case AppendOp(body, bytes) => Append(b, body, bytes)
    case AckOp(through) =>
      match Acknowledge(b, through)
      case Ok(after) => after
      case Err(_) => b
  }

  function Run(b: Buffer, ops: seq<Op>): Buffer {
    if ops == [] then b else Apply(Run(b, ops[..|ops| - 1]), ops[|ops| - 1])
  }

  /** Everything ever appended, in order; a frame's sequence number is its place here. */
  function Appended(ops: seq<Op>): seq<Frame> {
    if ops == [] then []
    else
      var before := Appended(ops[..|ops| - 1]);
      match ops[|ops| - 1]
      case AppendOp(body, _) => before + [Frame(|before|, body)]
      case AckOp(_) => before
  }

  /** The retained entries are the tail of everything appended. */
  ghost predicate RetainsTail(b: Buffer, frames: seq<Frame>) {
    && b.nextSequence == |frames|
    && |b.entries| <= |frames|
    && forall i :: 0 <= i < |b.entries| ==> b.entries[i].frame == frames[|frames| - |b.entries| + i]
  }

  lemma DropsRetainTail(b: Buffer, after: Buffer, frames: seq<Frame>)
    requires RetainsTail(b, frames) && DropsOldest(b, after)
    ensures RetainsTail(after, frames)
  {
  }

  lemma AppendRetainsTail(b: Buffer, body: Body, bytes: nat, frames: seq<Frame>)
    requires RetainsTail(b, frames) && DropsOldest(Push(b, body, bytes), Append(b, body, bytes))
    ensures RetainsTail(Append(b, body, bytes), frames + [Frame(|frames|, body)])
  {
    DropsRetainTail(Push(b, body, bytes), Append(b, body, bytes), frames + [Frame(|frames|, body)]);
  }

  lemma {:induction false} EveryHistoryIsValid(maxEvents: nat, maxBytes: nat, ops: seq<Op>)
    requires maxEvents > 0 && maxBytes > 0
    ensures var b := Run(Empty(maxEvents, maxBytes), ops);
            && Valid(b) && b.maxEvents == maxEvents && b.maxBytes == maxBytes
            && RetainsTail(b, Appended(ops))
  {
    if ops != [] {
      EveryHistoryIsValid(maxEvents, maxBytes, ops[..|ops| - 1]);
      var b := Run(Empty(maxEvents, maxBytes), ops[..|ops| - 1]);
      match ops[|ops| - 1] {
        case AppendOp(body, bytes) =>
          AppendKeepsValid(b, body, bytes);
          AppendRetainsTail(b, body, bytes, Appended(ops[..|ops| - 1]));
        case AckOp(through) =>
          AcknowledgeKeepsValid(b, through);
          if Acknowledge(b, through).Ok? {
            DropsRetainTail(b, Acknowledge(b, through).value, Appended(ops));
          }
      }
    }
  }

  /**
   After every history, a replay from any position tiles everything beyond it: the gap covers what
   was dropped, and the frames are exactly the appended ones from there to the highest sequence.
   */
  lemma ReplayTilesTheRest(maxEvents: nat, maxBytes: nat, ops: seq<Op>, after: int)
    requires maxEvents > 0 && maxBytes > 0 && after >= -1
    ensures var b := Run(Empty(maxEvents, maxBytes), ops);
            var all := Appended(ops);
            && ReplayAfter(b, after).Ok?
            && var replay := ReplayAfter(b, after).value;
               var start := if replay.gap.Some? then replay.gap.value.throughRelaySequence + 1 else after + 1;
               && (replay.gap.Some? ==> replay.gap.value.fromRelaySequence == after + 1 < start <= |all|)
               && (if start <= |all| then replay.frames == all[start..] else replay.frames == [])
  {
    EveryHistoryIsValid(maxEvents, maxBytes, ops);
    ReplayOfTail(Run(Empty(maxEvents, maxBytes), ops), Appended(ops), after);
  }

  lemma ReplayOfTail(b: Buffer, all: seq<Frame>, after: int)
    requires Contiguous(b) && RetainsTail(b, all) && after >= -1
    ensures ReplayAfter(b, after).Ok?
    ensures var replay := ReplayAfter(b, after).value;
            var start := if replay.gap.Some? then replay.gap.value.throughRelaySequence + 1 else after + 1;
            && (replay.gap.Some? ==> replay.gap.value.fromRelaySequence == after + 1 < start <= |all|)
            && (if start <= |all| then replay.frames == all[start..] else replay.frames == [])
  {
    var low := b.nextSequence - |b.entries|;
    var start := if after < low then low else after + 1;
    FramesOfTail(b.entries, low, all, after);
    assert (if b.droppedThroughSequence > after then b.droppedThroughSequence + 1 else after + 1) == start;
  }

  lemma FramesOfTail(entries: seq<Stored>, low: nat, all: seq<Frame>, after: int)
    requires |all| == low + |entries| && after >= -1
    requires forall i :: 0 <= i < |entries| ==> entries[i].frame == all[low + i] && entries[i].frame.relaySequence == low + i
    ensures var start := if after < low then low else after + 1;
            FramesAfter(entries, after) == if start <= |all| then all[start..] else []
  {
    FramesAfterSpec(entries, low, after);
    var frames, start := FramesAfter(entries, after), if after < low then low else after + 1;
    if start <= |all| {
      forall i | 0 <= i < |all| - start ensures frames[i] == all[start + i] {
        assert entries[start - low + i].frame == all[low + (start - low + i)];
      }
    }
  }

  // ---------------------------------------------------------------------------------------------
  // The object that the program updates in place
  // ---------------------------------------------------------------------------------------------

  class CompanionRelayFrameBuffer {
    const maxEvents: nat
    const maxBytes: nat
    var entries: seq<Stored>
    var nextSequence: nat
    var retainedBytes: int
    var droppedThroughSequence: int

    function View(): Buffer
      reads this
    {
      Buffer(maxEvents, maxBytes, entries, nextSequence, retainedBytes, droppedThroughSequence)
    }

    constructor (maxEvents: nat, maxBytes: nat)
      requires maxEvents > 0 && maxBytes > 0
      ensures View() == Empty(maxEvents, maxBytes) && Valid(View())
    {
      this.maxEvents, this.maxBytes := maxEvents, maxBytes;
      entries, nextSequence, retainedBytes, droppedThroughSequence := [], 0, 0, -1;
    }

    /** The constructor of the program, with its two range checks. */
    static method Create(maxEvents: int, maxBytes: int) returns (result: Result<CompanionRelayFrameBuffer, string>)
      ensures result.Ok? <==> maxEvents >= 1 && maxBytes >= 1
      ensures result.Ok? ==> fresh(result.value) && Valid(result.value.View()) && result.value.View() == Empty(maxEvents, maxBytes)
    {
      if maxEvents < 1 {
        return Err("maxEvents must be a positive integer");
      }
      if maxBytes < 1 {
        return Err("maxBytes must be a positive integer");
      }
      var created := new CompanionRelayFrameBuffer(maxEvents, maxBytes);
      return Ok(created);
    }

    /** The entries stay contiguous, and no replay from behind the dropped entry misses a frame. */
    method DropOldestEntry()
      modifies this
      ensures View() == DropOldest(old(View()))
      ensures Contiguous(old(View())) ==>
                && Contiguous(View()) && DropsOldest(old(View()), View()) && Highest(View()) == Highest(old(View()))
                && droppedThroughSequence == old(droppedThroughSequence) + (if old(entries) == [] then 0 else 1)
                && forall after :: after >= droppedThroughSequence ==>
                                     FramesAfter(entries, after) == FramesAfter(old(entries), after)
    {
      ghost var before := View();
      if Contiguous(before) && entries != [] {
        DropOldestKeepsContiguous(before);
        assert entries[0].frame.relaySequence == droppedThroughSequence + 1;
      }
      if entries == [] {
        return;
      }
      var removed := entries[0];
      entries := entries[1..];
      retainedBytes := retainedBytes - removed.bytes;
      if removed.frame.relaySequence > droppedThroughSequence {
        droppedThroughSequence := removed.frame.relaySequence;
      }
    }

    method EnforceLimitsNow()
      requires Contiguous(View())
      modifies this
      ensures View() == EnforceLimits(old(View()))
      ensures Contiguous(View()) && WithinLimits(View())
    {
      EnforceLimitsDropsFewest(View());
      while |entries| > maxEvents || (retainedBytes > maxBytes && |entries| > 0)
        invariant EnforceLimits(View()) == EnforceLimits(old(View()))
        decreases |entries|
      {
        DropOldestEntry();
      }
    }

    method AppendFrame(body: Body, bytes: nat) returns (frame: Frame)
      requires Valid(View())
      modifies this
      ensures View() == Append(old(View()), body, bytes) && Valid(View())
      ensures frame == Frame(old(nextSequence), body)
    {
      AppendKeepsValid(View(), body, bytes);
      SumBytesAppends(entries, Stored(Frame(nextSequence, body), bytes));
      frame := Frame(nextSequence, body);
      nextSequence := nextSequence + 1;
      entries := entries + [Stored(frame, bytes)];
      retainedBytes := retainedBytes + bytes;
      EnforceLimitsNow();
    }

    /** `appendRuntimeEvent`: an event without a relay projection is skipped. */
    method AppendRuntimeEvent(projected: Option<Body>, bytes: nat) returns (frame: Option<Frame>)
      requires Valid(View())
      modifies this
      ensures Valid(View())
      ensures projected.None? ==> frame.None? && View() == old(View())
      ensures projected.Some? ==>
                && View() == Append(old(View()), projected.value, bytes)
                && frame == Some(Frame(old(nextSequence), projected.value))
    {
      if projected.None? {
        return None;
      }
      var appended := AppendFrame(projected.value, bytes);
      return Some(appended);
    }

    method AcknowledgeThrough(throughRelaySequence: int) returns (result: Result<(), InvalidSequence>)
      requires Valid(View())
      modifies this
      ensures Valid(View())
      ensures result.Ok? <==> Acknowledge(old(View()), throughRelaySequence).Ok?
      ensures View() == if result.Ok? then Acknowledge(old(View()), throughRelaySequence).value else old(View())
    {
      if throughRelaySequence < -1 {
        return Err(InvalidSequence);
      }
      if throughRelaySequence > nextSequence - 1 {
        return Ok(());
      }
      DropThroughNow(throughRelaySequence);
      DropThroughSpec(old(View()), throughRelaySequence);
      return Ok(());
    }

    /** The loop of `acknowledge`. */
    method DropThroughNow(throughRelaySequence: int)
      modifies this
      ensures View() == DropThrough(old(View()), throughRelaySequence)
      ensures entries != [] ==> entries[0].frame.relaySequence > throughRelaySequence
    {
      while entries != [] && entries[0].frame.relaySequence <= throughRelaySequence
        invariant DropThrough(View(), throughRelaySequence) == DropThrough(old(View()), throughRelaySequence)
        decreases |entries|
      {
        DropOldestEntry();
      }
    }

    method ReplayFrames(afterRelaySequence: int) returns (result: Result<Replay, InvalidSequence>)
      requires Valid(View())
      ensures result == ReplayAfter(View(), afterRelaySequence)
      ensures result.Ok? ==>
                && |result.value.frames| <= |entries|
                && (forall i :: 0 <= i < |result.value.frames| ==>
                      result.value.frames[i] == entries[|entries| - |result.value.frames| + i].frame)
                && |result.value.frames| ==
                   (if afterRelaySequence >= nextSequence then 0
                    else if afterRelaySequence >= droppedThroughSequence then nextSequence - 1 - afterRelaySequence
                    else |entries|)
    {
      FramesAfterSpec(entries, nextSequence - |entries|, afterRelaySequence);
      if afterRelaySequence < -1 {
        return Err(InvalidSequence);
      }
      var gap := None;
      if afterRelaySequence < droppedThroughSequence {
        gap := Some(Gap(afterRelaySequence + 1, droppedThroughSequence));
      }
      return Ok(Replay(FramesAfter(entries, afterRelaySequence), gap));
    }
  }
}
