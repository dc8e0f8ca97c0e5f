/**
 The pending-request table of the browser client, which sends mutations again after every reconnect,
 together with the companion's request caches that receive them
 (`packages/relay-client/src/client.ts`, lines 1046-1098, 1303-1485, and module `RelayRequestCache`).
 */
module RelayResend {
  import opened Wrappers
  import opened RelayRequestCache

  datatype Pending = Pending(request: Request, sent: bool)

  /** `NotAnswered` stands for every error that claims to know the request was not carried out. */
  datatype Verdict =
    | Answered(answer: Answer)
    | OutcomeUnknown
    | NotAnswered

  datatype Outcome = Outcome(key: Key, verdict: Verdict)

  datatype Reply = Reply(key: Key, answer: Answer)

  /**
   `requests` binds every request id drawn so far, by this client or by another one of the same
   companion; `network` and `replies` hold what was ever sent and may arrive any number of times.
   */
  datatype System = System(
    bridge: World,
    requests: map<Key, Request>,
    own: seq<Key>,
    pending: map<Key, Pending>,
    outcomes: seq<Outcome>,
    network: set<Request>,
    replies: set<Reply>,
    online: bool,
    socketOpen: bool)

  predicate IsMutation(request: Request) {
    request.kind != Plain
  }

  // ---------------------------------------------------------------------------------------------
  // The client
  // ---------------------------------------------------------------------------------------------

  function SendPending(s: System, key: Key): System
    requires key in s.pending
  {
    if !s.online || !s.socketOpen then s
    else
      s.(network := s.network + {s.pending[key].request},
         pending := s.pending[key := s.pending[key].(sent := true)])
  }

  function SettlePending(s: System, key: Key, verdict: Verdict): System {
    if key !in s.pending then s
    else s.(pending := s.pending - {key}, outcomes := s.outcomes + [Outcome(key, verdict)])
  }

  /** The error of an abort, a timeout or a final close: unknown iff a mutation may have been carried out. */
  function GivenUp(p: Pending): Verdict {
    if IsMutation(p.request) && p.sent then OutcomeUnknown else NotAnswered
  }

  function Expire(s: System, key: Key): System {
    if key in s.pending then SettlePending(s, key, GivenUp(s.pending[key])) else s
  }

  /** `own` restricted to `pending` is the insertion order of the program's table. */
  function ReplayMutations(s: System, keys: seq<Key>): System {
    if keys == [] then s
    else
      var rest := ReplayMutations(s, keys[..|keys| - 1]);
      var key := keys[|keys| - 1];
      if key in rest.pending && IsMutation(rest.pending[key].request) then SendPending(rest, key) else rest
  }

  function RejectQueries(s: System, keys: seq<Key>): System {
    if keys == [] then s
    else
      var rest := RejectQueries(s, keys[..|keys| - 1]);
      var key := keys[|keys| - 1];
      if key in rest.pending && !IsMutation(rest.pending[key].request) then SettlePending(rest, key, NotAnswered) else rest
  }

  function RejectAll(s: System, keys: seq<Key>): System {
    if keys == [] then s else Expire(RejectAll(s, keys[..|keys| - 1]), keys[|keys| - 1])
  }

  /** `#request`: refused while offline; the request id is freshly drawn. */
  function Submit(s: System, request: Request): System {
    if !s.online || request.key in s.requests then s
    else
      SendPending(
        s.(requests := s.requests[request.key := request],
           own := s.own + [request.key],
           pending := s.pending[request.key := Pending(request, false)]),
        request.key)
  }

  // ---------------------------------------------------------------------------------------------
  // Steps of the whole system
  // ---------------------------------------------------------------------------------------------

  datatype Action =
    | Submits(request: Request)
    | AnotherClientSends(request: Request)
    | ComesOnline
    | GoesOffline
    | SocketCloses
    | ConnectionLost
    | Expires(key: Key)
    | ClosesForGood
    | Arrives(request: Request)
    | ReplyArrives(reply: Reply)
    | BridgeSteps(event: Event)

  function OnArrives(s: System, request: Request): System {
    if request !in s.network || s.bridge.cache.generation.None? then s
    else
      s.(bridge := OnDelivered(s.bridge, request),
         replies := s.replies + {Reply(request.key, AnswerTo(s.bridge.cache, request, |s.bridge.executions|))})
  }

  function Act(s: System, action: Action): System {
    match action
    case Submits(request) => Submit(s, request)
    case AnotherClientSends(request) =>
      if request.key in s.requests then s
      else s.(requests := s.requests[request.key := request], network := s.network + {request})
    case ComesOnline => ReplayMutations(s.(online := true, socketOpen := true), s.own)
    case GoesOffline => s.(online := false)
    case SocketCloses => s.(socketOpen := false)
    case ConnectionLost => RejectQueries(s.(online := false, socketOpen := false), s.own)
    case Expires(key) => Expire(s, key)
    case ClosesForGood => RejectAll(s.(online := false, socketOpen := false), s.own)
    case Arrives(request) => OnArrives(s, request)
    case ReplyArrives(reply) => if reply in s.replies then SettlePending(s, reply.key, Answered(reply.answer)) else s
    case BridgeSteps(event) => if event.Delivered? then s else s.(bridge := Step(s.bridge, event))
  }

  function Acts(s: System, actions: seq<Action>): System {
    if actions == [] then s else Act(Acts(s, actions[..|actions| - 1]), actions[|actions| - 1])
  }

  function Fresh(maxEntries: nat): System {
    System(Initial(maxEntries), map[], [], map[], [], {}, {}, false, false)
  }

  // ---------------------------------------------------------------------------------------------
  // The invariant
  // ---------------------------------------------------------------------------------------------

  /** One request per id, everywhere: in the network, in the table and in the executions. */
  ghost predicate Bound(s: System) {
    && (forall key :: key in s.requests ==> s.requests[key].key == key)
    && (forall request :: request in s.network ==> request.key in s.requests && s.requests[request.key] == request)
    && (forall key :: key in s.pending ==> key in s.requests && s.pending[key].request == s.requests[key])
    && (forall i :: 0 <= i < |s.bridge.executions| ==> s.bridge.executions[i] in s.network)
  }

  /** Every request of this client is pending or has exactly one outcome. */
  ghost predicate SettledOnce(s: System) {
    && (forall i, j :: 0 <= i < j < |s.outcomes| ==> s.outcomes[i].key != s.outcomes[j].key)
    && (forall i :: 0 <= i < |s.outcomes| ==> s.outcomes[i].key !in s.pending && s.outcomes[i].key in s.own)
    && (forall key :: key in s.pending ==> key in s.own)
    && (forall key :: key in s.own ==> key in s.requests && (key in s.pending || HasOutcome(s, key)))
  }

  ghost predicate HasOutcome(s: System, key: Key) {
    exists i :: 0 <= i < |s.outcomes| && s.outcomes[i].key == key
  }

  ghost predicate OutcomeOk(s: System, o: Outcome) {
    && o.key in s.requests
    && match o.verdict
       case Answered(answer) => Reply(o.key, answer) in s.replies
       case OutcomeUnknown => IsMutation(s.requests[o.key]) && s.requests[o.key] in s.network
       case NotAnswered => IsMutation(s.requests[o.key]) ==> s.requests[o.key] !in s.network
  }

  /** What the client believes about sending is true. */
  ghost predicate SentOk(s: System) {
    && (forall key :: key in s.pending ==> (s.pending[key].sent <==> s.pending[key].request in s.network))
    && (forall i :: 0 <= i < |s.outcomes| ==> OutcomeOk(s, s.outcomes[i]))
  }

  ghost predicate ReplyOk(w: World, reply: Reply) {
    && reply.answer.Response?
    && reply.answer.execution < |w.executions|
    && w.executions[reply.answer.execution].key == reply.key
  }

  ghost predicate RepliesOk(s: System) {
    forall reply :: reply in s.replies ==> ReplyOk(s.bridge, reply)
  }

  ghost predicate BridgeOk(s: System) {
    Inv(s.bridge) && OnceUntilEvicted(s.bridge) && s.bridge.cache.maxEntries > 0
  }

  ghost predicate SystemInv(s: System) {
    BridgeOk(s) && Bound(s) && SettledOnce(s) && SentOk(s) && RepliesOk(s)
  }

  lemma SendKeepsInv(s: System, key: Key)
    requires SystemInv(s) && key in s.pending
    ensures SystemInv(SendPending(s, key))
  {
    var after := SendPending(s, key);
    if s.online && s.socketOpen {
      forall k | k in after.own ensures k in after.pending || HasOutcome(after, k) {
        assert k in s.pending || HasOutcome(s, k);
      }
      forall i | 0 <= i < |after.outcomes| ensures OutcomeOk(after, after.outcomes[i]) {
        assert OutcomeOk(s, s.outcomes[i]);
      }
    }
  }

  lemma SettleKeepsInv(s: System, key: Key, verdict: Verdict)
    requires SystemInv(s)
    requires key in s.pending ==> OutcomeOk(s, Outcome(key, verdict))
    ensures SystemInv(SettlePending(s, key, verdict))
  {
    var after := SettlePending(s, key, verdict);
    if key in s.pending {
      forall k | k in after.own ensures k in after.pending || HasOutcome(after, k) {
        if k == key {
          assert after.outcomes[|s.outcomes|].key == key;
        } else if k !in s.pending {
          var i :| 0 <= i < |s.outcomes| && s.outcomes[i].key == k;
          assert after.outcomes[i].key == k;
        }
      }
      forall i | 0 <= i < |after.outcomes| ensures OutcomeOk(after, after.outcomes[i]) {
        if i < |s.outcomes| {
          assert OutcomeOk(s, s.outcomes[i]);
        }
      }
    }
  }

  lemma {:induction false} ReplayKeepsInv(s: System, keys: seq<Key>)
    requires SystemInv(s)
    ensures SystemInv(ReplayMutations(s, keys))
  {
    if keys != [] {
      ReplayKeepsInv(s, keys[..|keys| - 1]);
      var rest := ReplayMutations(s, keys[..|keys| - 1]);
      if keys[|keys| - 1] in rest.pending {
        SendKeepsInv(rest, keys[|keys| - 1]);
      }
    }
  }

  lemma {:induction false} RejectQueriesKeepsInv(s: System, keys: seq<Key>)
    requires SystemInv(s)
    ensures SystemInv(RejectQueries(s, keys))
  {
    if keys != [] {
      RejectQueriesKeepsInv(s, keys[..|keys| - 1]);
      var rest, key := RejectQueries(s, keys[..|keys| - 1]), keys[|keys| - 1];
      if key in rest.pending && !IsMutation(rest.pending[key].request) {
        SettleKeepsInv(rest, key, NotAnswered);
      }
    }
  }

  lemma ExpireKeepsInv(s: System, key: Key)
    requires SystemInv(s)
    ensures SystemInv(Expire(s, key))
  {
    if key in s.pending {
      SettleKeepsInv(s, key, GivenUp(s.pending[key]));
    }
  }

  lemma {:induction false} RejectAllKeepsInv(s: System, keys: seq<Key>)
    requires SystemInv(s)
    ensures SystemInv(RejectAll(s, keys))
  {
    if keys != [] {
      RejectAllKeepsInv(s, keys[..|keys| - 1]);
      ExpireKeepsInv(RejectAll(s, keys[..|keys| - 1]), keys[|keys| - 1]);
    }
  }

  lemma SubmitKeepsInv(s: System, request: Request)
    requires SystemInv(s)
    ensures SystemInv(Submit(s, request))
  {
    if s.online && request.key !in s.requests {
      var added := s.(requests := s.requests[request.key := request],
                      own := s.own + [request.key],
                      pending := s.pending[request.key := Pending(request, false)]);
      forall k | k in added.own ensures k in added.requests && (k in added.pending || HasOutcome(added, k)) {
        if k != request.key {
          assert k in s.own;
          assert k in s.pending || HasOutcome(s, k);
        }
      }
      forall i | 0 <= i < |added.outcomes| ensures OutcomeOk(added, added.outcomes[i]) {
        assert OutcomeOk(s, s.outcomes[i]);
      }
      SendKeepsInv(added, request.key);
    }
  }

  lemma AnotherClientKeepsInv(s: System, request: Request)
    requires SystemInv(s)
    ensures SystemInv(Act(s, AnotherClientSends(request)))
  {
    var after := Act(s, AnotherClientSends(request));
    if request.key !in s.requests {
      forall k | k in after.own ensures k in after.pending || HasOutcome(after, k) {
        assert k in s.pending || HasOutcome(s, k);
      }
      forall i | 0 <= i < |after.outcomes| ensures OutcomeOk(after, after.outcomes[i]) {
        assert OutcomeOk(s, s.outcomes[i]);
      }
    }
  }

  /** A step of the bridge keeps the invariant if its executions stay within what the network carries. */
  lemma BridgeKeepsInv(s: System, event: Event)
    requires SystemInv(s)
    requires event.Delivered? ==> event.request in s.network
    ensures SystemInv(s.(bridge := Step(s.bridge, event)))
  {
    var after := s.(bridge := Step(s.bridge, event));
    StepKeepsInv(s.bridge, event);
    StepRunsOnce(s.bridge, event);
    StepExtendsLogs(s.bridge, event);
    forall i | 0 <= i < |after.bridge.executions| ensures after.bridge.executions[i] in s.network {
      if i < |s.bridge.executions| {
        assert after.bridge.executions[i] == s.bridge.executions[i];
      }
    }
    forall k | k in after.own ensures k in after.pending || HasOutcome(after, k) {
      assert k in s.pending || HasOutcome(s, k);
    }
    RepliesStayOk(s, event);
    forall i | 0 <= i < |after.outcomes| ensures OutcomeOk(after, after.outcomes[i]) {
      assert OutcomeOk(s, s.outcomes[i]);
    }
  }

  lemma RepliesStayOk(s: System, event: Event)
    requires RepliesOk(s)
    ensures RepliesOk(s.(bridge := Step(s.bridge, event)))
  {
    StepExtendsLogs(s.bridge, event);
    forall reply | reply in s.replies ensures ReplyOk(Step(s.bridge, event), reply) {
      assert ReplyOk(s.bridge, reply);
      var i := reply.answer.execution;
      assert Step(s.bridge, event).executions[..|s.bridge.executions|][i] == s.bridge.executions[i];
    }
  }

  /** A request that arrives is never a conflict: its id was bound to one frame when it was drawn. */
  lemma ArrivalIsAnswered(s: System, request: Request)
    requires BridgeOk(s) && Bound(s) && request in s.network && s.bridge.cache.generation.Some?
    ensures ReplyOk(OnDelivered(s.bridge, request), Reply(request.key, AnswerTo(s.bridge.cache, request, |s.bridge.executions|)))
  {
    var existing := Existing(s.bridge.cache, request.key);
    if existing.Some? {
      assert EntryOk(s.bridge, request.key, existing.value);
      assert s.bridge.executions[existing.value.execution] in s.network;
      assert s.bridge.executions[existing.value.execution] == request;
    }
  }

  lemma ArrivesKeepsInv(s: System, request: Request)
    requires SystemInv(s)
    ensures SystemInv(OnArrives(s, request))
  {
    if request in s.network && s.bridge.cache.generation.Some? {
      BridgeKeepsInv(s, Delivered(request));
      ArrivalIsAnswered(s, request);
      var delivered := s.(bridge := OnDelivered(s.bridge, request));
      var after := OnArrives(s, request);
      forall k | k in after.own ensures k in after.pending || HasOutcome(after, k) {
        assert k in delivered.pending || HasOutcome(delivered, k);
      }
      forall i | 0 <= i < |after.outcomes| ensures OutcomeOk(after, after.outcomes[i]) {
        assert OutcomeOk(delivered, delivered.outcomes[i]);
      }
    }
  }

  lemma SwitchKeepsInv(s: System, online: bool, socketOpen: bool)
    requires SystemInv(s)
    ensures SystemInv(s.(online := online, socketOpen := socketOpen))
  {
    var after := s.(online := online, socketOpen := socketOpen);
    forall k | k in after.own ensures k in after.pending || HasOutcome(after, k) {
      assert k in s.pending || HasOutcome(s, k);
    }
    forall i | 0 <= i < |after.outcomes| ensures OutcomeOk(after, after.outcomes[i]) {
      assert OutcomeOk(s, s.outcomes[i]);
    }
  }

  lemma ActKeepsInv(s: System, action: Action)
    requires SystemInv(s)
    ensures SystemInv(Act(s, action))
  {
    match action
    case Submits(request) => SubmitKeepsInv(s, request);
    case AnotherClientSends(request) => AnotherClientKeepsInv(s, request);
    case ComesOnline =>
      SwitchKeepsInv(s, true, true);
      ReplayKeepsInv(s.(online := true, socketOpen := true), s.own);
    case GoesOffline => SwitchKeepsInv(s, false, s.socketOpen);
    case SocketCloses => SwitchKeepsInv(s, s.online, false);
    case ConnectionLost =>
      SwitchKeepsInv(s, false, false);
      RejectQueriesKeepsInv(s.(online := false, socketOpen := false), s.own);
    case Expires(key) => ExpireKeepsInv(s, key);
    case ClosesForGood =>
      SwitchKeepsInv(s, false, false);
      RejectAllKeepsInv(s.(online := false, socketOpen := false), s.own);
    case Arrives(request) => ArrivesKeepsInv(s, request);
    case ReplyArrives(reply) =>
      if reply in s.replies {
        SettleKeepsInv(s, reply.key, Answered(reply.answer));
      }
    case BridgeSteps(event) =>
      if !event.Delivered? {
        BridgeKeepsInv(s, event);
      }
  }

  lemma {:induction false} EveryRunKeepsSystemInv(maxEntries: nat, actions: seq<Action>)
    requires maxEntries > 0
    ensures SystemInv(Acts(Fresh(maxEntries), actions))
  {
    if actions != [] {
      EveryRunKeepsSystemInv(maxEntries, actions[..|actions| - 1]);
      ActKeepsInv(Acts(Fresh(maxEntries), actions[..|actions| - 1]), actions[|actions| - 1]);
    }
  }

  // ---------------------------------------------------------------------------------------------
  // Main results
  // ---------------------------------------------------------------------------------------------

  /**
   Whatever is lost, repeated or delayed on the way: a request that is no longer pending has exactly
   one outcome; an answer comes from an execution of that very request; a mutation that was reported
   as not carried out never ran; and no request that any client sends is answered by a conflict.
   */
  lemma OutcomesAreTruthful(maxEntries: nat, actions: seq<Action>, i: nat)
    requires maxEntries > 0
    requires i < |Acts(Fresh(maxEntries), actions).outcomes|
    ensures var s := Acts(Fresh(maxEntries), actions);
            var outcome := s.outcomes[i];
            && outcome.key in s.requests && outcome.key !in s.pending
            && (forall j :: 0 <= j < |s.outcomes| && j != i ==> s.outcomes[j].key != outcome.key)
            && (outcome.verdict.Answered? ==>
                  && outcome.verdict.answer.Response?
                  && outcome.verdict.answer.execution < |s.bridge.executions|
                  && s.bridge.executions[outcome.verdict.answer.execution] == s.requests[outcome.key])
            && (outcome.verdict.NotAnswered? && IsMutation(s.requests[outcome.key]) ==>
                  forall e :: 0 <= e < |s.bridge.executions| ==> s.bridge.executions[e].key != outcome.key)
            && (outcome.verdict.OutcomeUnknown? ==> s.requests[outcome.key] in s.network)
  {
    EveryRunKeepsSystemInv(maxEntries, actions);
    var s := Acts(Fresh(maxEntries), actions);
    var outcome := s.outcomes[i];
    assert OutcomeOk(s, outcome);
    if outcome.verdict.Answered? {
      assert ReplyOk(s.bridge, Reply(outcome.key, outcome.verdict.answer));
      assert s.bridge.executions[outcome.verdict.answer.execution] in s.network;
    }
    if outcome.verdict.NotAnswered? && IsMutation(s.requests[outcome.key]) {
      forall e | 0 <= e < |s.bridge.executions| ensures s.bridge.executions[e].key != outcome.key {
        assert s.bridge.executions[e] in s.network;
      }
    }
  }

  /** Resending never makes a mutation run twice while its cache entry is not evicted. */
  lemma ResendingRunsOnce(maxEntries: nat, actions: seq<Action>, earlier: nat, later: nat)
    requires maxEntries > 0
    requires var w := Acts(Fresh(maxEntries), actions).bridge;
             && earlier < later < |w.executions|
             && w.executions[earlier].key == w.executions[later].key && w.executions[earlier].kind == Mutation
    ensures var w := Acts(Fresh(maxEntries), actions).bridge;
            w.executions[later] == w.executions[earlier] && earlier in w.evicted
  {
    EveryRunKeepsSystemInv(maxEntries, actions);
    var s := Acts(Fresh(maxEntries), actions);
    assert s.bridge.executions[earlier] in s.network && s.bridge.executions[later] in s.network;
  }

  /** A request of this client is always pending or settled, and never both. */
  lemma NothingIsForgotten(maxEntries: nat, actions: seq<Action>, key: Key)
    requires maxEntries > 0
    requires key in Acts(Fresh(maxEntries), actions).own
    ensures var s := Acts(Fresh(maxEntries), actions); key in s.pending <==> !HasOutcome(s, key)
  {
    EveryRunKeepsSystemInv(maxEntries, actions);
  }

  /** A lost connection rejects exactly the pending queries; mutations stay pending as they are. */
  lemma LostConnectionKeepsMutations(maxEntries: nat, actions: seq<Action>, key: Key)
    requires maxEntries > 0
    ensures var s := Acts(Fresh(maxEntries), actions);
            var after := Act(s, ConnectionLost);
            && (key in after.pending <==> key in s.pending && IsMutation(s.pending[key].request))
            && (key in after.pending ==> after.pending[key] == s.pending[key])
  {
    EveryRunKeepsSystemInv(maxEntries, actions);
    var s := Acts(Fresh(maxEntries), actions);
    RejectsExactlyQueries(s.(online := false, socketOpen := false), s.own, key);
  }

  lemma {:induction false} RejectsExactlyQueries(s: System, keys: seq<Key>, key: Key)
    ensures var after := RejectQueries(s, keys);
            && (key in after.pending <==> key in s.pending && (IsMutation(s.pending[key].request) || key !in keys))
            && (key in after.pending ==> after.pending[key] == s.pending[key])
  {
    if keys != [] {
      RejectsExactlyQueries(s, keys[..|keys| - 1], key);
      assert keys == keys[..|keys| - 1] + [keys[|keys| - 1]];
    }
  }

  /** When the client is back online, every pending mutation has been sent on the new connection. */
  lemma ReconnectResendsMutations(maxEntries: nat, actions: seq<Action>, key: Key)
    requires maxEntries > 0
    requires var s := Acts(Fresh(maxEntries), actions); key in s.pending && IsMutation(s.pending[key].request)
    ensures var s := Acts(Fresh(maxEntries), actions);
            var after := Act(s, ComesOnline);
            && key in after.pending && after.pending[key].sent
            && after.pending[key].request == s.pending[key].request && s.pending[key].request in after.network
  {
    EveryRunKeepsSystemInv(maxEntries, actions);
    var s := Acts(Fresh(maxEntries), actions);
    ResendsEach(s.(online := true, socketOpen := true), s.own, key);
  }

  lemma {:induction false} ResendsEach(s: System, keys: seq<Key>, key: Key)
    requires s.online && s.socketOpen && key in s.pending && IsMutation(s.pending[key].request)
    ensures var after := ReplayMutations(s, keys);
            && after.online && after.socketOpen && s.network <= after.network
            && key in after.pending && after.pending[key].request == s.pending[key].request
            && (key in keys ==> after.pending[key].sent && s.pending[key].request in after.network)
  {
    if keys != [] {
      ResendsEach(s, keys[..|keys| - 1], key);
      assert keys == keys[..|keys| - 1] + [keys[|keys| - 1]];
    }
  }
}
