/**
 Answering terminal queries in a byte stream that arrives in arbitrary pieces, and splitting such a
 stream into lines (`benchmarks/chat-pty/benchmark.py`, lines 77, 881-886 and 1063-1100).
 */
module TerminalQueries {

  type Bytes = seq<int>

  const ESC: int := 27
  const KITTY_QUERY: Bytes := [27, 91, 63, 117]
  const CURSOR_QUERY: Bytes := [27, 91, 54, 110]
  const DEVICE_QUERY: Bytes := [27, 91, 99]
  const QUERIES: seq<Bytes> := [KITTY_QUERY, CURSOR_QUERY, DEVICE_QUERY]

  /** What happens to the outside, byte by byte: the screen is fed, or a write that answers a query is attempted. */
  datatype Action =
    | Fed(byte: int)
    | Answered(query: nat)

  // ---------------------------------------------------------------------------------------------
  // The reference: one byte at a time, looking at everything that arrived
  // ---------------------------------------------------------------------------------------------

  predicate IsSuffix(part: Bytes, stream: Bytes) {
    |part| <= |stream| && stream[|stream| - |part|..] == part
  }

  /** Query `q` has just arrived completely. */
  predicate Arrived(stream: Bytes, q: nat) {
    q < |QUERIES| && IsSuffix(QUERIES[q], stream)
  }

  function Answer(stream: Bytes): seq<Action> {
    if Arrived(stream, 0) then [Answered(0)]
    else if Arrived(stream, 1) then [Answered(1)]
    else if Arrived(stream, 2) then [Answered(2)]
    else []
  }

  /** A stream that is fed byte by byte and reacted to after each byte. */
  function Steps(react: Bytes -> seq<Action>, before: Bytes, chunk: Bytes): seq<Action> {
    if chunk == [] then []
    else Steps(react, before, chunk[..|chunk| - 1]) + [Fed(chunk[|chunk| - 1])] + react(before + chunk)
  }

  /** What happens while `chunk` arrives behind `before`. */
  function Actions(before: Bytes, chunk: Bytes): seq<Action> {
    Steps(Answer, before, chunk)
  }

  // ---------------------------------------------------------------------------------------------
  // The tail that is kept between two pieces
  // ---------------------------------------------------------------------------------------------

  predicate IsPrefix(part: Bytes, whole: Bytes) {
    |part| <= |whole| && whole[..|part|] == part
  }

  /** The beginning of some query, but not all of it. */
  predicate IsProperBeginning(part: Bytes) {
    exists q :: 0 <= q < |QUERIES| && |part| < |QUERIES[q]| && IsPrefix(part, QUERIES[q])
  }

  function LastBytes(stream: Bytes, length: nat): Bytes {
    if length >= |stream| then stream else stream[|stream| - length..]
  }

  /** The longest end of the stream, of at most three bytes, with which a query may continue. */
  function Tail(stream: Bytes): Bytes {
    if IsProperBeginning(LastBytes(stream, 3)) then LastBytes(stream, 3)
    else if IsProperBeginning(LastBytes(stream, 2)) then LastBytes(stream, 2)
    else if IsProperBeginning(LastBytes(stream, 1)) then LastBytes(stream, 1)
    else []
  }

  lemma BeginningsAre(part: Bytes)
    ensures IsProperBeginning(part) <==>
            part == [] || part == [27] || part == [27, 91] || part == [27, 91, 63] || part == [27, 91, 54]
  {
    if part == [] {
      assert IsPrefix(part, QUERIES[0]);
    } else if part == [27] {
      assert IsPrefix(part, QUERIES[0]);
    } else if part == [27, 91] {
      assert IsPrefix(part, QUERIES[0]);
    } else if part == [27, 91, 63] {
      assert IsPrefix(part, QUERIES[0]);
    } else if part == [27, 91, 54] {
      assert IsPrefix(part, QUERIES[1]);
    }
    if IsProperBeginning(part) {
      var q :| 0 <= q < |QUERIES| && |part| < |QUERIES[q]| && IsPrefix(part, QUERIES[q]);
      assert part == QUERIES[q][..|part|];
    }
  }

  lemma NoLongerTail(stream: Bytes, part: Bytes)
    requires IsSuffix(part, stream) && IsProperBeginning(part)
    ensures |part| <= |Tail(stream)|
  {
    BeginningsAre(part);
    assert part == LastBytes(stream, |part|);
  }

  /** The tail is the longest end of the stream that a query may continue. */
  lemma TailSpec(stream: Bytes)
    ensures IsSuffix(Tail(stream), stream) && IsProperBeginning(Tail(stream))
  {
    BeginningsAre([]);
    LastIsSuffix(stream, 1);
    LastIsSuffix(stream, 2);
    LastIsSuffix(stream, 3);
    assert IsSuffix([], stream);
    var part := Tail(stream);
    assert part == LastBytes(stream, 1) || part == LastBytes(stream, 2) || part == LastBytes(stream, 3) || part == [];
  }

  lemma LastIsSuffix(stream: Bytes, length: nat)
    ensures IsSuffix(LastBytes(stream, length), stream)
  {
  }

  lemma SuffixOfSuffix(part: Bytes, longer: Bytes, stream: Bytes)
    requires IsSuffix(part, stream) && IsSuffix(longer, stream) && |part| <= |longer|
    ensures IsSuffix(part, longer)
  {
  }

  lemma SuffixConcat(part: Bytes, stream: Bytes, chunk: Bytes)
    requires IsSuffix(part, stream)
    ensures IsSuffix(part + chunk, stream + chunk)
  {
  }

  /** An end that reaches back behind the chunk consists of an end of what was there before and the chunk. */
  lemma ReachesBack(part: Bytes, before: Bytes, chunk: Bytes) returns (early: Bytes)
    requires IsSuffix(part, before + chunk) && |part| > |chunk|
    ensures part == early + chunk && IsSuffix(early, before)
  {
    early := part[..|part| - |chunk|];
    assert (before + chunk)[|before|..] == chunk;
  }

  lemma EarlyIsBeginning(early: Bytes, chunk: Bytes, q: nat)
    requires q < |QUERIES| && IsPrefix(early + chunk, QUERIES[q]) && |early| < |QUERIES[q]|
    ensures IsProperBeginning(early)
  {
    assert (early + chunk)[..|early|] == early;
    assert IsPrefix(early, QUERIES[q]);
  }

  /** Whether a query has arrived can be seen from the tail and the new bytes. */
  lemma ArrivedInTail(before: Bytes, chunk: Bytes, q: nat)
    requires chunk != []
    ensures Arrived(before + chunk, q) <==> Arrived(Tail(before) + chunk, q)
  {
    TailSpec(before);
    SuffixConcat(Tail(before), before, chunk);
    if Arrived(before + chunk, q) {
      var query := QUERIES[q];
      if |query| > |chunk| {
        var early := ReachesBack(query, before, chunk);
        EarlyIsBeginning(early, chunk, q);
        NoLongerTail(before, early);
      }
      SuffixOfSuffix(query, Tail(before) + chunk, before + chunk);
    }
  }

  /** The new tail lies within the old one and the new bytes. */
  lemma TailReachesNoFurther(before: Bytes, chunk: Bytes)
    ensures |Tail(before + chunk)| <= |Tail(before) + chunk|
  {
    var tail := Tail(before + chunk);
    TailSpec(before + chunk);
    if |tail| > |chunk| {
      var early := ReachesBack(tail, before, chunk);
      var q :| 0 <= q < |QUERIES| && |tail| < |QUERIES[q]| && IsPrefix(tail, QUERIES[q]);
      EarlyIsBeginning(early, chunk, q);
      NoLongerTail(before, early);
    }
  }

  /** The new tail can be computed from the old one and the new bytes. */
  lemma TailOfTail(before: Bytes, chunk: Bytes)
    ensures Tail(before + chunk) == Tail(Tail(before) + chunk)
  {
    var stream, known := before + chunk, Tail(before) + chunk;
    TailSpec(before);
    SuffixConcat(Tail(before), before, chunk);
    TailSpec(stream);
    TailSpec(known);
    TailReachesNoFurther(before, chunk);
    SuffixOfSuffix(Tail(stream), known, stream);
    NoLongerTail(known, Tail(stream));
    SuffixTransitive(Tail(known), known, stream);
    NoLongerTail(stream, Tail(known));
    SameSuffix(Tail(stream), Tail(known), stream);
  }

  lemma SuffixTransitive(part: Bytes, longer: Bytes, stream: Bytes)
    requires IsSuffix(part, longer) && IsSuffix(longer, stream)
    ensures IsSuffix(part, stream)
  {
  }

  lemma SameSuffix(a: Bytes, b: Bytes, stream: Bytes)
    requires IsSuffix(a, stream) && IsSuffix(b, stream) && |a| == |b|
    ensures a == b
  {
  }

  lemma AnswerInTail(before: Bytes, chunk: Bytes)
    requires chunk != []
    ensures Answer(before + chunk) == Answer(Tail(before) + chunk)
  {
    ArrivedInTail(before, chunk, 0);
    ArrivedInTail(before, chunk, 1);
    ArrivedInTail(before, chunk, 2);
  }

  lemma {:induction false} StepsAgree(react: Bytes -> seq<Action>, a: Bytes, b: Bytes, chunk: Bytes)
    requires forall n :: 0 < n <= |chunk| ==> react(a + chunk[..n]) == react(b + chunk[..n])
    ensures Steps(react, a, chunk) == Steps(react, b, chunk)
  {
    if chunk != [] {
      var init := chunk[..|chunk| - 1];
      assert forall n :: 0 < n <= |init| ==> init[..n] == chunk[..n];
      StepsAgree(react, a, b, init);
      assert chunk[..|chunk|] == chunk;
    }
  }

  /** What a chunk causes depends on the past only through the tail. */
  lemma ActionsInTail(before: Bytes, chunk: Bytes)
    ensures Actions(before, chunk) == Actions(Tail(before), chunk)
  {
    forall n | 0 < n <= |chunk| ensures Answer(before + chunk[..n]) == Answer(Tail(before) + chunk[..n]) {
      AnswerInTail(before, chunk[..n]);
    }
    StepsAgree(Answer, before, Tail(before), chunk);
  }

  lemma {:induction false} StepsConcat(react: Bytes -> seq<Action>, before: Bytes, a: Bytes, b: Bytes)
    ensures Steps(react, before, a + b) == Steps(react, before, a) + Steps(react, before + a, b)
    decreases |b|
  {
    if b == [] {
      assert a + b == a;
    } else {
      var init := b[..|b| - 1];
      assert (a + b)[..|a + b| - 1] == a + init;
      assert before + (a + b) == before + a + b;
      StepsConcat(react, before, a, init);
    }
  }

  // ---------------------------------------------------------------------------------------------
  // Pieces
  // ---------------------------------------------------------------------------------------------

  function Join(pieces: seq<Bytes>): Bytes {
    if pieces == [] then [] else Join(pieces[..|pieces| - 1]) + pieces[|pieces| - 1]
  }

  function TailAfter(pieces: seq<Bytes>): Bytes {
    if pieces == [] then [] else Tail(TailAfter(pieces[..|pieces| - 1]) + pieces[|pieces| - 1])
  }

  /** The tail kept after some pieces is the tail of everything that arrived. */
  lemma {:induction false} TailOfPieces(pieces: seq<Bytes>)
    ensures TailAfter(pieces) == Tail(Join(pieces))
  {
    if pieces == [] {
      BeginningsAre([]);
    } else {
      var init, last := pieces[..|pieces| - 1], pieces[|pieces| - 1];
      TailOfPieces(init);
      TailOfTail(Join(init), last);
    }
  }

  // ---------------------------------------------------------------------------------------------
  // Writes that fail
  // ---------------------------------------------------------------------------------------------

  /** A query ends `end` bytes into the chunk. */
  ghost predicate QueryEnds(tail: Bytes, chunk: Bytes, end: int) {
    1 <= end <= |chunk| && Answer(tail + chunk[..end]) != []
  }

  /** A query ended earlier in the chunk and its answer could not be written. */
  ghost predicate GivenUp(fails: int -> bool, tail: Bytes, chunk: Bytes, end: int) {
    exists e :: 1 <= e < end && QueryEnds(tail, chunk, e) && fails(e)
  }

  /** What is attempted behind the last byte of `stream`, which begins with the tail. */
  ghost function Attempt(fails: int -> bool, tail: Bytes, stream: Bytes): seq<Action> {
    if |stream| < |tail| || GivenUp(fails, tail, stream[|tail|..], |stream| - |tail|) then [] else Answer(stream)
  }

  ghost function Attempting(fails: int -> bool, tail: Bytes): Bytes -> seq<Action> {
    s => Attempt(fails, tail, s)
  }

  /** What one piece causes when the answer to a query that ends at `e` cannot be written if `fails(e)`. */
  ghost function PieceActions(fails: int -> bool, tail: Bytes, chunk: Bytes): seq<Action> {
    Steps(Attempting(fails, tail), tail, chunk)
  }

  lemma AttemptIs(fails: int -> bool, tail: Bytes, chunk: Bytes, n: nat)
    requires n <= |chunk|
    ensures Attempting(fails, tail)(tail + chunk[..n]) ==
            if GivenUp(fails, tail, chunk, n) then [] else Answer(tail + chunk[..n])
  {
    var part := chunk[..n];
    assert (tail + part)[|tail|..] == part;
    forall e | 1 <= e <= n ensures QueryEnds(tail, part, e) <==> QueryEnds(tail, chunk, e) {
      assert part[..e] == chunk[..e];
    }
  }

  function FedBytes(actions: seq<Action>): Bytes {
    if actions == [] then []
    else FedBytes(actions[..|actions| - 1]) + if actions[|actions| - 1].Fed? then [actions[|actions| - 1].byte] else []
  }

  function Answers(actions: seq<Action>): seq<nat> {
    if actions == [] then []
    else Answers(actions[..|actions| - 1]) + if actions[|actions| - 1].Answered? then [actions[|actions| - 1].query] else []
  }

  lemma {:induction false} ProjectionsConcat(a: seq<Action>, b: seq<Action>)
    ensures FedBytes(a + b) == FedBytes(a) + FedBytes(b) && Answers(a + b) == Answers(a) + Answers(b)
    decreases |b|
  {
    if b == [] {
      assert a + b == a;
    } else {
      assert (a + b)[..|a + b| - 1] == a + b[..|b| - 1];
      ProjectionsConcat(a, b[..|b| - 1]);
    }
  }

  /** One answer at most, and nothing else. */
  predicate AtMostOneAnswer(actions: seq<Action>) {
    actions == [] || (|actions| == 1 && actions[0].Answered?)
  }

  lemma ProjectOne(before: seq<Action>, byte: int, answer: seq<Action>)
    requires AtMostOneAnswer(answer)
    ensures FedBytes(before + [Fed(byte)] + answer) == FedBytes(before) + [byte]
    ensures Answers(before + [Fed(byte)] + answer) == Answers(before) + if answer == [] then [] else [answer[0].query]
  {
    ProjectionsConcat(before + [Fed(byte)], answer);
    ProjectionsConcat(before, [Fed(byte)]);
    assert [Fed(byte)][..0] == [];
    if answer != [] {
      assert answer[..0] == [];
    }
  }

  /** Whatever the reactions, exactly the bytes of the chunk are fed. */
  lemma {:induction false} StepsFeedTheChunk(react: Bytes -> seq<Action>, before: Bytes, chunk: Bytes)
    requires forall s :: AtMostOneAnswer(react(s))
    ensures FedBytes(Steps(react, before, chunk)) == chunk
  {
    if chunk != [] {
      var init := chunk[..|chunk| - 1];
      StepsFeedTheChunk(react, before, init);
      ProjectOne(Steps(react, before, init), chunk[|chunk| - 1], react(before + chunk));
    }
  }

  lemma AttemptsAreAnswers(fails: int -> bool, tail: Bytes)
    ensures forall s :: AtMostOneAnswer(Attempting(fails, tail)(s))
  {
  }

  /** Within the first `n` bytes, only the last query that ends has an answer that fails. */
  ghost predicate NothingLost(fails: int -> bool, tail: Bytes, chunk: Bytes, n: int) {
    forall d, e :: 1 <= d < e <= n && QueryEnds(tail, chunk, d) && QueryEnds(tail, chunk, e) ==> !fails(d)
  }

  lemma NothingLostGrows(fails: int -> bool, tail: Bytes, chunk: Bytes, n: nat)
    requires 0 < n <= |chunk|
    ensures NothingLost(fails, tail, chunk, n) <==>
            NothingLost(fails, tail, chunk, n - 1) && !(QueryEnds(tail, chunk, n) && GivenUp(fails, tail, chunk, n))
  {
  }

  /** One byte more, behind which `a` happens instead of `b`. */
  lemma OneByteMore(attempted: seq<Action>, all: seq<Action>, byte: int, a: seq<Action>, b: seq<Action>)
    requires AtMostOneAnswer(b) && (a == [] || a == b) && |Answers(attempted)| <= |Answers(all)|
    ensures var x, y := attempted + ([Fed(byte)] + a), all + ([Fed(byte)] + b);
            && |Answers(x)| <= |Answers(y)|
            && (|Answers(x)| == |Answers(y)| <==> |Answers(attempted)| == |Answers(all)| && a == b)
            && (attempted == all && a == b ==> x == y)
  {
    OneMoreCount(attempted, byte, a);
    OneMoreCount(all, byte, b);
  }

  lemma OneMoreCount(before: seq<Action>, byte: int, answer: seq<Action>)
    requires AtMostOneAnswer(answer)
    ensures |Answers(before + ([Fed(byte)] + answer))| == |Answers(before)| + |answer|
  {
    ProjectOne(before, byte, answer);
    assert before + ([Fed(byte)] + answer) == before + [Fed(byte)] + answer;
  }

  /** Failing writes can only cost answers, and cost none iff each of them answers the last query of the piece. */
  lemma {:induction false} LostAnswers(fails: int -> bool, tail: Bytes, chunk: Bytes, n: nat)
    requires n <= |chunk|
    ensures var attempted, all := Steps(Attempting(fails, tail), tail, chunk[..n]), Steps(Answer, tail, chunk[..n]);
            && |Answers(attempted)| <= |Answers(all)|
            && (|Answers(attempted)| == |Answers(all)| <==> NothingLost(fails, tail, chunk, n))
            && (NothingLost(fails, tail, chunk, n) ==> attempted == all)
  {
    if n > 0 {
      LostAnswers(fails, tail, chunk, n - 1);
      NothingLostGrows(fails, tail, chunk, n);
      AttemptIs(fails, tail, chunk, n);
      LostByte(fails, tail, chunk, n);
    }
  }

  lemma LostByte(fails: int -> bool, tail: Bytes, chunk: Bytes, n: nat)
    requires 0 < n <= |chunk|
    requires |Answers(Steps(Attempting(fails, tail), tail, chunk[..n - 1]))| <= |Answers(Steps(Answer, tail, chunk[..n - 1]))|
    ensures var attempted, all := Steps(Attempting(fails, tail), tail, chunk[..n - 1]), Steps(Answer, tail, chunk[..n - 1]);
            var x, y := Steps(Attempting(fails, tail), tail, chunk[..n]), Steps(Answer, tail, chunk[..n]);
            && |Answers(x)| <= |Answers(y)|
            && (|Answers(x)| == |Answers(y)| <==>
                  |Answers(attempted)| == |Answers(all)| && Attempting(fails, tail)(tail + chunk[..n]) == Answer(tail + chunk[..n]))
            && (attempted == all && Attempting(fails, tail)(tail + chunk[..n]) == Answer(tail + chunk[..n]) ==> x == y)
  {
    AttemptIs(fails, tail, chunk, n);
    StepsOnce(Attempting(fails, tail), tail, chunk, n);
    StepsOnce(Answer, tail, chunk, n);
    OneByteMore(Steps(Attempting(fails, tail), tail, chunk[..n - 1]), Steps(Answer, tail, chunk[..n - 1]), chunk[n - 1],
                Attempting(fails, tail)(tail + chunk[..n]), Answer(tail + chunk[..n]));
  }

  // ---------------------------------------------------------------------------------------------
  // Main results about pieces
  // ---------------------------------------------------------------------------------------------

  /** The writes of a piece that begins `base` bytes into the stream. */
  function Behind(fails: int -> bool, base: int): int -> bool {
    end => fails(base + end)
  }

  /**
   What happens when the pieces are read one after another, with only the tail kept in between, and
   the answer to a query that ends `n` bytes into the stream cannot be written if `fails(n)`.
   */
  ghost function ActionsOf(fails: int -> bool, pieces: seq<Bytes>): seq<Action> {
    if pieces == [] then []
    else
      var init := pieces[..|pieces| - 1];
      ActionsOf(fails, init) + PieceActions(Behind(fails, |Join(init)|), TailAfter(init), pieces[|pieces| - 1])
  }

  /** The bytes that reach the screen depend only on the stream, whatever writes fail. */
  lemma {:induction false} BytesFedDoNotDependOnPieces(fails: int -> bool, pieces: seq<Bytes>)
    ensures FedBytes(ActionsOf(fails, pieces)) == Join(pieces)
  {
    if pieces != [] {
      var init, last := pieces[..|pieces| - 1], pieces[|pieces| - 1];
      BytesFedDoNotDependOnPieces(fails, init);
      AttemptsAreAnswers(Behind(fails, |Join(init)|), TailAfter(init));
      StepsFeedTheChunk(Attempting(Behind(fails, |Join(init)|), TailAfter(init)), TailAfter(init), last);
      ProjectionsConcat(ActionsOf(fails, init), PieceActions(Behind(fails, |Join(init)|), TailAfter(init), last));
    }
  }

  /** In piece `p` no query ends behind one whose answer cannot be written. */
  ghost predicate FailsLast(fails: int -> bool, pieces: seq<Bytes>, p: nat)
    requires p < |pieces|
  {
    NothingLost(Behind(fails, |Join(pieces[..p])|), Join(pieces[..p]), pieces[p], |pieces[p]|)
  }

  lemma QueryEndsInTail(before: Bytes, chunk: Bytes, end: int)
    ensures QueryEnds(before, chunk, end) <==> QueryEnds(Tail(before), chunk, end)
  {
    if 1 <= end <= |chunk| {
      AnswerInTail(before, chunk[..end]);
    }
  }

  lemma NothingLostInTail(fails: int -> bool, before: Bytes, chunk: Bytes, n: int)
    ensures NothingLost(fails, before, chunk, n) <==> NothingLost(fails, Tail(before), chunk, n)
  {
    forall end ensures QueryEnds(before, chunk, end) <==> QueryEnds(Tail(before), chunk, end) {
      QueryEndsInTail(before, chunk, end);
    }
  }

  /** The last piece: what it loses, and what it does when it loses nothing. */
  lemma LastPiece(fails: int -> bool, pieces: seq<Bytes>)
    requires pieces != []
    ensures var init, last := pieces[..|pieces| - 1], pieces[|pieces| - 1];
            var attempted, all := PieceActions(Behind(fails, |Join(init)|), TailAfter(init), last), Actions(Join(init), last);
            && |Answers(attempted)| <= |Answers(all)|
            && (|Answers(attempted)| == |Answers(all)| <==> FailsLast(fails, pieces, |pieces| - 1))
            && (FailsLast(fails, pieces, |pieces| - 1) ==> attempted == all)
  {
    var init, last := pieces[..|pieces| - 1], pieces[|pieces| - 1];
    TailOfPieces(init);
    ActionsInTail(Join(init), last);
    NothingLostInTail(Behind(fails, |Join(init)|), Join(init), last, |last|);
    LostAnswers(Behind(fails, |Join(init)|), TailAfter(init), last, |last|);
    assert last[..|last|] == last;
  }

  lemma StreamSplits(pieces: seq<Bytes>)
    requires pieces != []
    ensures var init, last := pieces[..|pieces| - 1], pieces[|pieces| - 1];
            && Actions([], Join(pieces)) == Actions([], Join(init)) + Actions(Join(init), last)
            && Answers(Actions([], Join(pieces))) == Answers(Actions([], Join(init))) + Answers(Actions(Join(init), last))
  {
    var init, last := pieces[..|pieces| - 1], pieces[|pieces| - 1];
    StepsConcat(Answer, [], Join(init), last);
    assert [] + Join(init) == Join(init);
    ProjectionsConcat(Actions([], Join(init)), Actions(Join(init), last));
  }

  ghost predicate AllFailLast(fails: int -> bool, pieces: seq<Bytes>) {
    forall p :: 0 <= p < |pieces| ==> FailsLast(fails, pieces, p)
  }

  lemma AllFailLastGrows(fails: int -> bool, pieces: seq<Bytes>)
    requires pieces != []
    ensures AllFailLast(fails, pieces) <==> AllFailLast(fails, pieces[..|pieces| - 1]) && FailsLast(fails, pieces, |pieces| - 1)
  {
    var init := pieces[..|pieces| - 1];
    forall p | 0 <= p < |init| ensures FailsLast(fails, pieces, p) <==> FailsLast(fails, init, p) {
      assert init[..p] == pieces[..p];
    }
  }

  /**
   The queries answered, and the places of the answers between the bytes, depend only on the stream
   and not on the pieces in which it is read, iff every write that fails answers the last query that
   ends in its piece. Otherwise answers are missing.
   */
  lemma {:induction false} PiecesDoNotMatterIff(fails: int -> bool, pieces: seq<Bytes>)
    ensures |Answers(ActionsOf(fails, pieces))| <= |Answers(Actions([], Join(pieces)))|
    ensures |Answers(ActionsOf(fails, pieces))| == |Answers(Actions([], Join(pieces)))| <==> AllFailLast(fails, pieces)
    ensures ActionsOf(fails, pieces) == Actions([], Join(pieces)) <==> AllFailLast(fails, pieces)
  {
    if pieces != [] {
      var init, last := pieces[..|pieces| - 1], pieces[|pieces| - 1];
      PiecesDoNotMatterIff(fails, init);
      LastPiece(fails, pieces);
      StreamSplits(pieces);
      AllFailLastGrows(fails, pieces);
      ProjectionsConcat(ActionsOf(fails, init), PieceActions(Behind(fails, |Join(init)|), TailAfter(init), last));
    }
  }

  /** When every write succeeds, pieces never matter. */
  lemma PiecesDoNotMatter(pieces: seq<Bytes>)
    ensures ActionsOf(n => false, pieces) == Actions([], Join(pieces))
  {
    PiecesDoNotMatterIff(n => false, pieces);
  }

  /** Two device queries of which the first cannot be answered: read at once, the second is not answered either. */
  lemma FailedWriteMakesPiecesMatter()
    ensures var fails := (n: int) => n == 3;
            && |Answers(ActionsOf(fails, [DEVICE_QUERY + DEVICE_QUERY]))| < |Answers(ActionsOf(fails, [DEVICE_QUERY, DEVICE_QUERY]))|
  {
    var fails := (n: int) => n == 3;
    var q := DEVICE_QUERY;
    var whole, split := [q + q], [q, q];
    JoinTwo(q);
    TwoQueriesEnd();
    assert !FailsLast(fails, whole, 0) by {
      assert whole[..0] == [] && Join([]) == [] && Behind(fails, 0)(3);
      assert QueryEnds([], q + q, 3) && QueryEnds([], q + q, 6);
    }
    forall p | 0 <= p < |split| ensures FailsLast(fails, split, p) {
      OneQueryEnds(Join(split[..p]));
    }
    PiecesDoNotMatterIff(fails, whole);
    PiecesDoNotMatterIff(fails, split);
  }

  lemma JoinTwo(q: Bytes)
    ensures Join([q + q]) == q + q == Join([q, q])
  {
    assert [q + q][..0] == [] && [q, q][..1] == [q] && [q][..0] == [];
    assert [] + (q + q) == q + q && [] + q == q;
    assert Join([q]) == q;
  }

  lemma TwoQueriesEnd()
    ensures QueryEnds([], DEVICE_QUERY + DEVICE_QUERY, 3) && QueryEnds([], DEVICE_QUERY + DEVICE_QUERY, 6)
  {
    var s := DEVICE_QUERY + DEVICE_QUERY;
    assert [] + s[..3] == DEVICE_QUERY && [] + s[..6] == s;
    assert IsSuffix(QUERIES[2], [] + s[..3]) && IsSuffix(QUERIES[2], [] + s[..6]);
  }

  /** Within one device query no other query ends before its last byte. */
  lemma OneQueryEnds(before: Bytes)
    ensures forall e :: 1 <= e < 3 ==> !QueryEnds(before, DEVICE_QUERY, e)
  {
    forall e | 1 <= e < 3 ensures !QueryEnds(before, DEVICE_QUERY, e) {
      var stream := before + DEVICE_QUERY[..e];
      assert stream[|stream| - 1] == DEVICE_QUERY[e - 1];
      LastByteOfQuery(stream, 0);
      LastByteOfQuery(stream, 1);
      LastByteOfQuery(stream, 2);
    }
  }

  lemma LastByteOfQuery(stream: Bytes, q: nat)
    ensures Arrived(stream, q) ==> stream != [] && stream[|stream| - 1] != 27 && stream[|stream| - 1] != 91
  {
    if Arrived(stream, q) {
      assert stream[|stream| - 1] == QUERIES[q][|QUERIES[q]| - 1];
    }
  }

  // ---------------------------------------------------------------------------------------------
  // The program: search each query in the piece, sort what was found, feed and answer in turn
  // ---------------------------------------------------------------------------------------------

  predicate OccursAt(stream: Bytes, query: Bytes, i: int) {
    0 <= i && i + |query| <= |stream| && stream[i..i + |query|] == query
  }

  /** `bytes.find`: the first occurrence from `offset` on, or -1. */
  function Find(stream: Bytes, query: Bytes, offset: nat): (index: int)
    ensures index == -1 || (offset <= index && OccursAt(stream, query, index))
    ensures forall i :: offset <= i < (if index == -1 then |stream| + 1 else index) ==> !OccursAt(stream, query, i)
    decreases |stream| - offset
  {
    if offset + |query| > |stream| then -1
    else if OccursAt(stream, query, offset) then offset
    else Find(stream, query, offset + 1)
  }

  /** Only the first byte of a query is ESC. */
  predicate EscapeFirst(query: Bytes) {
    query != [] && query[0] == ESC && forall k :: 1 <= k < |query| ==> query[k] != ESC
  }

  /** So a query cannot start within another occurrence of itself. */
  lemma NoOverlap(stream: Bytes, query: Bytes, i: int, j: int)
    requires EscapeFirst(query) && OccursAt(stream, query, i) && i < j < i + |query|
    ensures !OccursAt(stream, query, j)
  {
    assert stream[j] == stream[i..i + |query|][j - i] == query[j - i];
    StartsWithEscape(stream, query, j);
  }

  lemma StartsWithEscape(stream: Bytes, query: Bytes, j: int)
    requires EscapeFirst(query)
    ensures OccursAt(stream, query, j) ==> stream[j] == ESC
  {
    if OccursAt(stream, query, j) {
      assert stream[j] == stream[j..j + |query|][0];
    }
  }

  lemma OccursIffArrived(stream: Bytes, q: nat, end: nat)
    requires q < |QUERIES| && end <= |stream|
    ensures Arrived(stream[..end], q) <==> OccursAt(stream, QUERIES[q], end - |QUERIES[q]|)
  {
    var query := QUERIES[q];
    if |query| <= end {
      assert stream[..end][end - |query|..] == stream[end - |query|..end];
    }
  }

  /** The last byte tells the queries apart, so two of them never end at the same place. */
  lemma OneArrives(stream: Bytes, p: nat, q: nat)
    requires Arrived(stream, p) && Arrived(stream, q)
    ensures p == q
  {
    assert stream[|stream| - 1] == QUERIES[p][|QUERIES[p]| - 1];
    assert stream[|stream| - 1] == QUERIES[q][|QUERIES[q]| - 1];
  }

  predicate Increasing(places: seq<int>) {
    forall k, l :: 0 <= k < l < |places| ==> places[k] < places[l]
  }

  /** All places from `from` on and before `offset` where the query occurs, in order. */
  ghost predicate Found(stream: Bytes, query: Bytes, from: int, places: seq<int>, offset: int) {
    && (forall i :: i in places <==> from <= i < offset && OccursAt(stream, query, i))
    && Increasing(places)
  }

  /** Between one hit of the search and the place where it goes on, there is no other occurrence. */
  lemma NextPlace(stream: Bytes, query: Bytes, offset: nat, index: int, i: int)
    requires EscapeFirst(query) && index == Find(stream, query, offset) >= 0 && offset <= i < index + |query|
    ensures OccursAt(stream, query, i) <==> i == index
  {
    if i > index {
      NoOverlap(stream, query, index, i);
    }
  }

  lemma OneMorePlace(stream: Bytes, query: Bytes, from: int, places: seq<int>, offset: nat, index: int)
    requires EscapeFirst(query) && Found(stream, query, from, places, offset)
    requires index == Find(stream, query, offset) >= 0
    ensures Found(stream, query, from, if from <= index then places + [index] else places, index + |query|)
  {
    var after := if from <= index then places + [index] else places;
    assert offset <= index;
    forall i ensures i in after <==> from <= i < index + |query| && OccursAt(stream, query, i) {
      assert i in after <==> i in places || (i == index && from <= index);
      if offset <= i < index + |query| {
        NextPlace(stream, query, offset, index, i);
      }
    }
    IncreasingGrows(places, index);
  }

  lemma IncreasingGrows(places: seq<int>, next: int)
    requires Increasing(places) && forall i :: i in places ==> i < next
    ensures Increasing(places + [next])
  {
    assert forall k :: 0 <= k < |places| ==> places[k] in places;
  }

  /** The search loop for one query: its occurrences that end behind the first `tailLength` bytes. */
  method FindAll(stream: Bytes, query: Bytes, tailLength: nat) returns (places: seq<int>)
    requires EscapeFirst(query)
    ensures Found(stream, query, tailLength + 1 - |query|, places, |stream| + 1)
  {
    places := [];
    var offset: nat := 0;
    var index := Find(stream, query, offset);
    while index >= 0
      invariant index == Find(stream, query, offset)
      invariant Found(stream, query, tailLength + 1 - |query|, places, offset)
      decreases |stream| + 1 - offset
    {
      OneMorePlace(stream, query, tailLength + 1 - |query|, places, offset, index);
      if index + |query| - tailLength > 0 {
        places := places + [index];
      }
      offset := index + |query|;
      index := Find(stream, query, offset);
    }
  }

  /** Query `query` ends `end` bytes into the chunk. */
  datatype Match = Match(end: int, query: nat)

  ghost predicate IsMatch(tail: Bytes, chunk: Bytes, m: Match) {
    m.query < |QUERIES| && 0 < m.end <= |chunk| && Arrived(tail + chunk[..m.end], m.query)
  }

  function ToMatches(places: seq<int>, q: nat, tailLength: nat): (matches: seq<Match>)
    requires q < |QUERIES|
    ensures |matches| == |places|
  {
    seq(|places|, k requires 0 <= k < |places| => Match(places[k] + |QUERIES[q]| - tailLength, q))
  }

  lemma MatchIsPlace(tail: Bytes, chunk: Bytes, m: Match)
    requires m.query < |QUERIES|
    ensures IsMatch(tail, chunk, m) <==>
            0 < m.end && OccursAt(tail + chunk, QUERIES[m.query], m.end + |tail| - |QUERIES[m.query]|)
  {
    if 0 < m.end <= |chunk| {
      assert (tail + chunk)[..|tail| + m.end] == tail + chunk[..m.end];
      OccursIffArrived(tail + chunk, m.query, |tail| + m.end);
    }
  }

  lemma PlacesAreMatches(tail: Bytes, chunk: Bytes, q: nat, places: seq<int>)
    requires q < |QUERIES|
    requires Found(tail + chunk, QUERIES[q], |tail| + 1 - |QUERIES[q]|, places, |tail + chunk| + 1)
    ensures forall m :: m in ToMatches(places, q, |tail|) <==> m.query == q && IsMatch(tail, chunk, m)
  {
    var matches := ToMatches(places, q, |tail|);
    forall m ensures m in matches <==> m.query == q && IsMatch(tail, chunk, m) {
      if m.query == q {
        MatchIsPlace(tail, chunk, m);
        var place := m.end + |tail| - |QUERIES[q]|;
        assert place in places <==> 0 < m.end && OccursAt(tail + chunk, QUERIES[q], place);
        if place in places {
          var k :| 0 <= k < |places| && places[k] == place;
          assert matches[k] == m;
        }
      }
    }
  }

  /** No two matches end at the same place. */
  ghost predicate DistinctEnds(matches: seq<Match>) {
    forall k, l :: 0 <= k < l < |matches| ==> matches[k].end != matches[l].end
  }

  predicate Sorted(matches: seq<Match>) {
    forall k, l :: 0 <= k < l < |matches| ==> matches[k].end < matches[l].end
  }

  function Insert(sorted: seq<Match>, m: Match): seq<Match> {
    if sorted == [] || sorted[|sorted| - 1].end <= m.end then sorted + [m]
    else Insert(sorted[..|sorted| - 1], m) + [sorted[|sorted| - 1]]
  }

  /** `sorted(matches, key=...)`. */
  function SortByEnd(matches: seq<Match>): seq<Match> {
    if matches == [] then [] else Insert(SortByEnd(matches[..|matches| - 1]), matches[|matches| - 1])
  }

  lemma {:induction false} InsertSpec(sorted: seq<Match>, m: Match)
    requires Sorted(sorted) && forall x :: x in sorted ==> x.end != m.end
    ensures Sorted(Insert(sorted, m))
    ensures forall x :: x in Insert(sorted, m) <==> x in sorted || x == m
  {
    if sorted != [] && sorted[|sorted| - 1].end > m.end {
      var init, last := sorted[..|sorted| - 1], sorted[|sorted| - 1];
      assert sorted == init + [last];
      InsertSpec(init, m);
      assert forall k :: 0 <= k < |init| ==> init[k].end < last.end;
      assert forall x :: x in Insert(init, m) ==> x.end < last.end;
    }
  }

  lemma {:induction false} SortSpec(matches: seq<Match>)
    requires DistinctEnds(matches)
    ensures Sorted(SortByEnd(matches))
    ensures forall x :: x in SortByEnd(matches) <==> x in matches
  {
    if matches != [] {
      var init, last := matches[..|matches| - 1], matches[|matches| - 1];
      assert matches == init + [last];
      SortSpec(init);
      InsertSpec(SortByEnd(init), last);
    }
  }

  /** Distinct ends, for the matches of one query and for those of several. */
  lemma EndsDiffer(tail: Bytes, chunk: Bytes, a: seq<Match>, b: seq<Match>)
    requires DistinctEnds(a) && DistinctEnds(b)
    requires forall m :: m in a + b ==> IsMatch(tail, chunk, m)
    requires forall x, y :: x in a && y in b ==> x.query != y.query
    ensures DistinctEnds(a + b)
  {
    forall k, l | 0 <= k < l < |a + b| ensures (a + b)[k].end != (a + b)[l].end {
      var x, y := (a + b)[k], (a + b)[l];
      assert IsMatch(tail, chunk, x) && IsMatch(tail, chunk, y);
      if x.end == y.end {
        OneArrives(tail + chunk[..x.end], x.query, y.query);
      }
    }
  }

  lemma IncreasingMatches(places: seq<int>, q: nat, tailLength: nat)
    requires q < |QUERIES| && Increasing(places)
    ensures DistinctEnds(ToMatches(places, q, tailLength))
  {
  }

  /** All matches of the chunk, in the order of their ends. */
  ghost predicate AllMatches(tail: Bytes, chunk: Bytes, matches: seq<Match>) {
    Sorted(matches) && forall m :: m in matches <==> IsMatch(tail, chunk, m)
  }

  /** All queries that end in the chunk, in the order in which they end. */
  method FindMatches(tail: Bytes, chunk: Bytes) returns (matches: seq<Match>)
    ensures AllMatches(tail, chunk, matches)
  {
    var combined := tail + chunk;
    var kitty := FindAll(combined, QUERIES[0], |tail|);
    var cursor := FindAll(combined, QUERIES[1], |tail|);
    var device := FindAll(combined, QUERIES[2], |tail|);
    PlacesAreMatches(tail, chunk, 0, kitty);
    PlacesAreMatches(tail, chunk, 1, cursor);
    PlacesAreMatches(tail, chunk, 2, device);
    IncreasingMatches(kitty, 0, |tail|);
    IncreasingMatches(cursor, 1, |tail|);
    IncreasingMatches(device, 2, |tail|);
    var a, b, c := ToMatches(kitty, 0, |tail|), ToMatches(cursor, 1, |tail|), ToMatches(device, 2, |tail|);
    EndsDiffer(tail, chunk, a, b);
    EndsDiffer(tail, chunk, a + b, c);
    SortSpec(a + b + c);
    matches := SortByEnd(a + b + c);
  }

  function FedAll(bytes: Bytes): seq<Action> {
    seq(|bytes|, i requires 0 <= i < |bytes| => Fed(bytes[i]))
  }

  lemma StepsOnce(react: Bytes -> seq<Action>, tail: Bytes, chunk: Bytes, b: nat)
    requires 0 < b <= |chunk|
    ensures Steps(react, tail, chunk[..b]) ==
            Steps(react, tail, chunk[..b - 1]) + ([Fed(chunk[b - 1])] + react(tail + chunk[..b]))
  {
    assert chunk[..b][..b - 1] == chunk[..b - 1];
  }

  lemma FedAllGrows(chunk: Bytes, a: nat, b: nat)
    requires a < b <= |chunk|
    ensures FedAll(chunk[a..b]) == FedAll(chunk[a..b - 1]) + [Fed(chunk[b - 1])]
  {
  }

  lemma Reassociate(a: seq<Action>, b: seq<Action>, c: seq<Action>, d: seq<Action>)
    ensures (a + b) + (c + d) == a + (b + c) + d
  {
  }

  /** A stretch of the chunk without a reaction before its last byte. */
  lemma {:induction false} QuietStretch(react: Bytes -> seq<Action>, tail: Bytes, chunk: Bytes, a: nat, b: nat)
    requires a < b <= |chunk|
    requires forall end :: a < end < b ==> react(tail + chunk[..end]) == []
    ensures Steps(react, tail, chunk[..b]) == Steps(react, tail, chunk[..a]) + FedAll(chunk[a..b]) + react(tail + chunk[..b])
  {
    StepsOnce(react, tail, chunk, b);
    FedAllGrows(chunk, a, b);
    var sofar, fed := Steps(react, tail, chunk[..a]), FedAll(chunk[a..b - 1]);
    if a < b - 1 {
      QuietStretch(react, tail, chunk, a, b - 1);
      assert sofar + fed + [] == sofar + fed;
    } else {
      assert sofar + [] == sofar;
    }
    Reassociate(sofar, fed, [Fed(chunk[b - 1])], react(tail + chunk[..b]));
  }

  lemma AnswerIsMatch(tail: Bytes, chunk: Bytes, end: int)
    requires 0 < end <= |chunk|
    ensures (forall q: nat :: !IsMatch(tail, chunk, Match(end, q))) ==> Answer(tail + chunk[..end]) == []
    ensures forall q: nat :: IsMatch(tail, chunk, Match(end, q)) ==> Answer(tail + chunk[..end]) == [Answered(q)]
  {
    assert forall q: nat :: Arrived(tail + chunk[..end], q) <==> IsMatch(tail, chunk, Match(end, q));
    forall q: nat | IsMatch(tail, chunk, Match(end, q)) ensures Answer(tail + chunk[..end]) == [Answered(q)] {
      forall p: nat | Arrived(tail + chunk[..end], p) ensures p == q {
        OneArrives(tail + chunk[..end], p, q);
      }
    }
  }

  /** Between two matches that follow each other in order, no query ends. */
  lemma NothingBetween(tail: Bytes, chunk: Bytes, matches: seq<Match>, k: nat, end: int)
    requires Sorted(matches) && (forall m :: m in matches <==> IsMatch(tail, chunk, m)) && k <= |matches|
    requires 0 < end <= |chunk| && (k > 0 ==> matches[k - 1].end < end) && (k < |matches| ==> end < matches[k].end)
    ensures Answer(tail + chunk[..end]) == []
  {
    forall q: nat ensures !IsMatch(tail, chunk, Match(end, q)) {
      if Match(end, q) in matches {
        var l :| 0 <= l < |matches| && matches[l] == Match(end, q);
      }
    }
    AnswerIsMatch(tail, chunk, end);
  }

  /** Where the first `k` matches end. */
  function EndOf(matches: seq<Match>, k: nat): int
    requires k <= |matches|
  {
    if k == 0 then 0 else matches[k - 1].end
  }

  /** No query of the first `k` matches has an answer that cannot be written. */
  ghost predicate NoneFailed(fails: int -> bool, matches: seq<Match>, k: int)
    requires k <= |matches|
  {
    forall j :: 0 <= j < k ==> !fails(matches[j].end)
  }

  /** Feeding up to the next match and attempting to answer it. */
  lemma NextMatch(fails: int -> bool, tail: Bytes, chunk: Bytes, matches: seq<Match>, k: nat)
    requires AllMatches(tail, chunk, matches) && k < |matches| && NoneFailed(fails, matches, k)
    ensures 0 <= EndOf(matches, k) < matches[k].end <= |chunk|
    ensures var react := Attempting(fails, tail);
            Steps(react, tail, chunk[..matches[k].end]) ==
            Steps(react, tail, chunk[..EndOf(matches, k)]) + FedAll(chunk[EndOf(matches, k)..matches[k].end]) + [Answered(matches[k].query)]
  {
    var m := matches[k];
    assert m in matches && IsMatch(tail, chunk, m);
    assert k > 0 ==> matches[k - 1] in matches && IsMatch(tail, chunk, matches[k - 1]);
    forall end | EndOf(matches, k) < end < m.end ensures Attempting(fails, tail)(tail + chunk[..end]) == [] {
      NothingBetween(tail, chunk, matches, k, end);
      AttemptIs(fails, tail, chunk, end);
    }
    QuietStretch(Attempting(fails, tail), tail, chunk, EndOf(matches, k), m.end);
    AnswerIsMatch(tail, chunk, m.end);
    AttemptIs(fails, tail, chunk, m.end);
    NotGivenUp(fails, tail, chunk, matches, k);
  }

  lemma EndsAreMatches(tail: Bytes, chunk: Bytes, matches: seq<Match>, e: int) returns (j: nat)
    requires AllMatches(tail, chunk, matches) && QueryEnds(tail, chunk, e)
    ensures j < |matches| && matches[j].end == e
  {
    AnswerIsMatch(tail, chunk, e);
    var q: nat :| IsMatch(tail, chunk, Match(e, q));
    j :| 0 <= j < |matches| && matches[j] == Match(e, q);
  }

  lemma NotGivenUp(fails: int -> bool, tail: Bytes, chunk: Bytes, matches: seq<Match>, k: nat)
    requires AllMatches(tail, chunk, matches) && k < |matches| && NoneFailed(fails, matches, k)
    ensures !GivenUp(fails, tail, chunk, matches[k].end)
  {
    forall e | 1 <= e < matches[k].end && QueryEnds(tail, chunk, e) ensures !fails(e) {
      var j := EndsAreMatches(tail, chunk, matches, e);
      assert j < k;
    }
  }

  lemma LastMatchEnds(tail: Bytes, chunk: Bytes, matches: seq<Match>, k: nat)
    requires AllMatches(tail, chunk, matches) && k <= |matches|
    ensures 0 <= EndOf(matches, k) <= |chunk|
  {
    assert k > 0 ==> matches[k - 1] in matches && IsMatch(tail, chunk, matches[k - 1]);
  }

  /** Behind the last match, or behind one whose answer could not be written, nothing is answered. */
  lemma RestIsQuiet(fails: int -> bool, tail: Bytes, chunk: Bytes, matches: seq<Match>, k: nat, end: int)
    requires AllMatches(tail, chunk, matches) && k <= |matches| && EndOf(matches, k) < end <= |chunk| && 0 < end
    requires k == |matches| || (k > 0 && fails(matches[k - 1].end))
    ensures Attempting(fails, tail)(tail + chunk[..end]) == []
  {
    AttemptIs(fails, tail, chunk, end);
    if k == |matches| {
      NothingBetween(tail, chunk, matches, |matches|, end);
    } else {
      FailedMatchGivesUp(fails, tail, chunk, matches, k, end);
    }
  }

  lemma QuietRest(react: Bytes -> seq<Action>, tail: Bytes, chunk: Bytes, last: nat)
    requires last <= |chunk| && forall end :: last < end <= |chunk| ==> react(tail + chunk[..end]) == []
    ensures Steps(react, tail, chunk) == Steps(react, tail, chunk[..last]) + FedAll(chunk[last..])
  {
    assert chunk[..|chunk|] == chunk && chunk[last..|chunk|] == chunk[last..];
    if last < |chunk| {
      QuietStretch(react, tail, chunk, last, |chunk|);
    }
  }

  lemma FailedMatchGivesUp(fails: int -> bool, tail: Bytes, chunk: Bytes, matches: seq<Match>, k: nat, end: int)
    requires AllMatches(tail, chunk, matches) && 0 < k <= |matches| && fails(matches[k - 1].end)
    requires matches[k - 1].end < end
    ensures GivenUp(fails, tail, chunk, end)
  {
    var m := matches[k - 1];
    assert m in matches && IsMatch(tail, chunk, m);
    AnswerIsMatch(tail, chunk, m.end);
    assert QueryEnds(tail, chunk, m.end);
  }

  predicate InOrder(chunk: Bytes, matches: seq<Match>) {
    forall k :: 0 <= k < |matches| ==> 0 <= EndOf(matches, k) < matches[k].end <= |chunk|
  }

  lemma MatchesInOrder(tail: Bytes, chunk: Bytes, matches: seq<Match>)
    requires AllMatches(tail, chunk, matches)
    ensures InOrder(chunk, matches)
  {
    forall k | 0 <= k < |matches| ensures 0 <= EndOf(matches, k) < matches[k].end <= |chunk| {
      assert matches[k] in matches && IsMatch(tail, chunk, matches[k]);
      LastMatchEnds(tail, chunk, matches, k);
    }
  }

  /** What the program does for the first `k` matches. */
  function Script(chunk: Bytes, matches: seq<Match>, k: nat): seq<Action>
    requires InOrder(chunk, matches) && k <= |matches|
  {
    if k == 0 then []
    else Script(chunk, matches, k - 1) + FedAll(chunk[EndOf(matches, k - 1)..matches[k - 1].end]) + [Answered(matches[k - 1].query)]
  }

  /** How many matches are answered before the loop ends: all, or up to the first write that fails. */
  function Attempted(fails: int -> bool, matches: seq<Match>, k: nat): (n: nat)
    requires k <= |matches|
    ensures k <= n <= |matches|
    decreases |matches| - k
  {
    if k == |matches| then k
    else if fails(matches[k].end) then k + 1
    else Attempted(fails, matches, k + 1)
  }

  lemma {:induction false} AttemptedStops(fails: int -> bool, matches: seq<Match>, k: nat)
    requires k <= |matches|
    ensures var n := Attempted(fails, matches, k);
            && (forall j :: k <= j < n - 1 ==> !fails(matches[j].end))
            && (n == |matches| || (n > 0 && fails(matches[n - 1].end)))
    decreases |matches| - k
  {
    if k < |matches| && !fails(matches[k].end) {
      AttemptedStops(fails, matches, k + 1);
    }
  }

  /** From the end of one match to the end of the next, the bytes between are fed and the match is answered. */
  ghost predicate StepOf(react: Bytes -> seq<Action>, tail: Bytes, chunk: Bytes, matches: seq<Match>, j: nat)
    requires InOrder(chunk, matches) && j < |matches|
  {
    Steps(react, tail, chunk[..matches[j].end]) ==
    Steps(react, tail, chunk[..EndOf(matches, j)]) + FedAll(chunk[EndOf(matches, j)..matches[j].end]) + [Answered(matches[j].query)]
  }

  lemma {:induction false} ScriptIsSteps(react: Bytes -> seq<Action>, tail: Bytes, chunk: Bytes, matches: seq<Match>, k: nat)
    requires InOrder(chunk, matches) && k <= |matches|
    requires forall j :: 0 <= j < k ==> StepOf(react, tail, chunk, matches, j)
    ensures 0 <= EndOf(matches, k) <= |chunk|
    ensures Script(chunk, matches, k) == Steps(react, tail, chunk[..EndOf(matches, k)])
  {
    if k > 0 {
      ScriptIsSteps(react, tail, chunk, matches, k - 1);
      assert StepOf(react, tail, chunk, matches, k - 1);
    }
  }

  /** Feeding and answering in the order of the matches is what happens byte by byte. */
  lemma ScriptIsPiece(fails: int -> bool, tail: Bytes, chunk: Bytes, matches: seq<Match>)
    requires AllMatches(tail, chunk, matches) && InOrder(chunk, matches)
    ensures var n := Attempted(fails, matches, 0);
            && 0 <= EndOf(matches, n) <= |chunk|
            && Script(chunk, matches, n) + FedAll(chunk[EndOf(matches, n)..]) == PieceActions(fails, tail, chunk)
  {
    var n := Attempted(fails, matches, 0);
    AttemptedStops(fails, matches, 0);
    forall j | 0 <= j < n ensures StepOf(Attempting(fails, tail), tail, chunk, matches, j) {
      NextMatch(fails, tail, chunk, matches, j);
    }
    ScriptIsSteps(Attempting(fails, tail), tail, chunk, matches, n);
    forall end | EndOf(matches, n) < end <= |chunk| ensures Attempting(fails, tail)(tail + chunk[..end]) == [] {
      RestIsQuiet(fails, tail, chunk, matches, n, end);
    }
    QuietRest(Attempting(fails, tail), tail, chunk, EndOf(matches, n));
  }

  /** `_respond_to_terminal_queries`; the write that answers a query ending at `e` raises iff `fails(e)`. */
  method RespondToTerminalQueries(tail: Bytes, chunk: Bytes, fails: int -> bool) returns (actions: seq<Action>, newTail: Bytes)
    ensures actions == PieceActions(fails, tail, chunk) && newTail == Tail(tail + chunk)
  {
    var matches := FindMatches(tail, chunk);
    MatchesInOrder(tail, chunk, matches);
    ScriptIsPiece(fails, tail, chunk, matches);
    newTail := FindTail(tail + chunk);
    actions := FeedAndAnswer(chunk, matches, fails);
  }

  /** Feeds the screen up to each match and answers it, until a write fails, and feeds the rest. */
  method FeedAndAnswer(chunk: Bytes, matches: seq<Match>, fails: int -> bool) returns (actions: seq<Action>)
    requires InOrder(chunk, matches)
    ensures var n := Attempted(fails, matches, 0);
            && 0 <= EndOf(matches, n) <= |chunk|
            && actions == Script(chunk, matches, n) + FedAll(chunk[EndOf(matches, n)..])
  {
    actions := [];
    var chunkOffset: nat := 0;
    var k: nat := 0;
    while k < |matches|
      invariant k <= |matches| && chunkOffset == EndOf(matches, k) <= |chunk|
      invariant actions == Script(chunk, matches, k)
      invariant Attempted(fails, matches, 0) == Attempted(fails, matches, k)
    {
      var end := matches[k].end;
      actions := actions + FedAll(chunk[chunkOffset..end]) + [Answered(matches[k].query)];
      chunkOffset := end;
      if fails(end) {
        break;
      }
      k := k + 1;
    }
    actions := actions + FedAll(chunk[chunkOffset..]);
  }

  /** The loop that looks for the longest end which some query may continue. */
  method FindTail(combined: Bytes) returns (tail: Bytes)
    ensures tail == Tail(combined)
  {
    tail := [];
    for length := 1 to 4
      invariant length == 1 ==> tail == []
      invariant length > 1 ==>
                  tail == (if length > 3 && IsProperBeginning(LastBytes(combined, 3)) then LastBytes(combined, 3)
                           else if length > 2 && IsProperBeginning(LastBytes(combined, 2)) then LastBytes(combined, 2)
                           else if IsProperBeginning(LastBytes(combined, 1)) then LastBytes(combined, 1)
                           else [])
    {
      var suffix := LastBytes(combined, length);
      if IsProperBeginning(suffix) {
        tail := suffix;
      }
    }
  }

  // ---------------------------------------------------------------------------------------------
  // Lines
  // ---------------------------------------------------------------------------------------------

  const NEWLINE: int := 10

  /** The complete lines received so far and the beginning of the next one. */
  datatype Lines = Lines(complete: seq<Bytes>, buffer: Bytes)

  /** The reference: one byte at a time. */
  function Receive(lines: Lines, bytes: Bytes): Lines {
    if bytes == [] then lines
    else
      var before, byte := Receive(lines, bytes[..|bytes| - 1]), bytes[|bytes| - 1];
      if byte == NEWLINE then Lines(before.complete + [before.buffer], [])
      else Lines(before.complete, before.buffer + [byte])
  }

  /** `bytes.split(b"\n")`: at least one part. */
  function Split(bytes: Bytes): (parts: seq<Bytes>)
    ensures |parts| > 0
  {
    if bytes == [] then [[]]
    else if bytes[0] == NEWLINE then [[]] + Split(bytes[1..])
    else
      var parts := Split(bytes[1..]);
      [[bytes[0]] + parts[0]] + parts[1..]
  }

  lemma {:induction false} ReceiveConcat(lines: Lines, a: Bytes, b: Bytes)
    ensures Receive(lines, a + b) == Receive(Receive(lines, a), b)
    decreases |b|
  {
    if b == [] {
      assert a + b == a;
    } else {
      assert (a + b)[..|a + b| - 1] == a + b[..|b| - 1];
      ReceiveConcat(lines, a, b[..|b| - 1]);
    }
  }

  lemma ReceiveOne(lines: Lines, byte: int)
    ensures Receive(lines, [byte]) ==
            if byte == NEWLINE then Lines(lines.complete + [lines.buffer], []) else Lines(lines.complete, lines.buffer + [byte])
  {
    assert [byte][..0] == [];
  }

  /** The lines that the parts of a split complete, the first part ending the line begun in `buffer`. */
  function Reassemble(complete: seq<Bytes>, buffer: Bytes, parts: seq<Bytes>): Lines
    requires parts != []
    decreases |parts|
  {
    if |parts| == 1 then Lines(complete, buffer + parts[0])
    else Reassemble(complete + [buffer + parts[0]], [], parts[1..])
  }

  /** Splitting the new bytes gives what receiving them byte by byte gives. */
  lemma {:induction false} SplitReceives(complete: seq<Bytes>, buffer: Bytes, bytes: Bytes)
    ensures Receive(Lines(complete, buffer), bytes) == Reassemble(complete, buffer, Split(bytes))
    decreases |bytes|
  {
    if bytes == [] {
      assert buffer + [] == buffer;
    } else {
      var byte, rest := bytes[0], bytes[1..];
      assert bytes == [byte] + rest;
      ReceiveConcat(Lines(complete, buffer), [byte], rest);
      ReceiveOne(Lines(complete, buffer), byte);
      if byte == NEWLINE {
        SplitReceives(complete + [buffer], [], rest);
        LineEnds(complete, buffer, Split(rest));
      } else {
        SplitReceives(complete, buffer + [byte], rest);
        LineGoesOn(complete, buffer, byte, Split(rest));
      }
    }
  }

  lemma LineEnds(complete: seq<Bytes>, buffer: Bytes, parts: seq<Bytes>)
    requires parts != []
    ensures Reassemble(complete, buffer, [[]] + parts) == Reassemble(complete + [buffer], [], parts)
  {
    assert ([[]] + parts)[1..] == parts;
    assert buffer + [] == buffer;
  }

  lemma LineGoesOn(complete: seq<Bytes>, buffer: Bytes, byte: int, parts: seq<Bytes>)
    requires parts != []
    ensures Reassemble(complete, buffer, [[byte] + parts[0]] + parts[1..]) == Reassemble(complete, buffer + [byte], parts)
  {
    assert ([[byte] + parts[0]] + parts[1..])[1..] == parts[1..];
    assert buffer + ([byte] + parts[0]) == buffer + [byte] + parts[0];
  }

  lemma {:induction false} NoNewlineIsOnePart(line: Bytes, bytes: Bytes)
    requires NEWLINE !in line
    ensures Split(line + bytes) == [line + Split(bytes)[0]] + Split(bytes)[1..]
  {
    if line == [] {
      assert line + bytes == bytes;
      assert [] + Split(bytes)[0] == Split(bytes)[0];
    } else {
      assert (line + bytes)[1..] == line[1..] + bytes;
      NoNewlineIsOnePart(line[1..], bytes);
      assert [line[0]] + (line[1..] + Split(bytes)[0]) == line + Split(bytes)[0];
    }
  }

  lemma {:induction false} BufferHasNoNewline(lines: Lines, bytes: Bytes)
    requires NEWLINE !in lines.buffer
    ensures NEWLINE !in Receive(lines, bytes).buffer
  {
    if bytes != [] {
      BufferHasNoNewline(lines, bytes[..|bytes| - 1]);
    }
  }

  /** `_feed_rpc_output`: it receives the chunk as if byte by byte, so pieces do not matter. */
  method FeedRpcOutput(lines: Lines, chunk: Bytes) returns (after: Lines)
    requires NEWLINE !in lines.buffer
    ensures after == Receive(lines, chunk) && NEWLINE !in after.buffer
  {
    var parts := Split(lines.buffer + chunk);
    assert parts[0..] == parts;
    BufferJoinsFirstPart(lines, chunk);
    BufferHasNoNewline(lines, chunk);
    var complete := lines.complete;
    var last := |parts| - 1;
    for i := 0 to last
      invariant Reassemble(complete, [], parts[i..]) == Receive(lines, chunk)
    {
      assert parts[i..][1..] == parts[i + 1..] && [] + parts[i] == parts[i];
      complete := complete + [parts[i]];
    }
    assert [] + parts[last] == parts[last];
    after := Lines(complete, parts[last]);
  }

  lemma BufferJoinsFirstPart(lines: Lines, chunk: Bytes)
    requires NEWLINE !in lines.buffer
    ensures Reassemble(lines.complete, [], Split(lines.buffer + chunk)) == Receive(lines, chunk)
  {
    var parts := Split(chunk);
    NoNewlineIsOnePart(lines.buffer, chunk);
    SplitReceives(lines.complete, lines.buffer, chunk);
    var joined := [lines.buffer + parts[0]] + parts[1..];
    assert joined[1..] == parts[1..];
    assert [] + (lines.buffer + parts[0]) == lines.buffer + parts[0];
  }

  lemma {:induction false} LinesOfPieces(lines: Lines, pieces: seq<Bytes>)
    ensures ReceiveAll(lines, pieces) == Receive(lines, Join(pieces))
  {
    if pieces != [] {
      var init, last := pieces[..|pieces| - 1], pieces[|pieces| - 1];
      LinesOfPieces(lines, init);
      ReceiveConcat(lines, Join(init), last);
    }
  }

  function ReceiveAll(lines: Lines, pieces: seq<Bytes>): Lines {
    if pieces == [] then lines else Receive(ReceiveAll(lines, pieces[..|pieces| - 1]), pieces[|pieces| - 1])
  }
}
