/**
 Client capabilities of the Node client: which server requests it may dispatch while handlers are
 registered and withdrawn and the Runtime acknowledges capability revisions one by one
 (`packages/client-node/src/index.ts`, lines 734-849, 917-983, 1524-1566 and 1662-1680, for protocol
 versions with dynamic capabilities).
 */
module Capabilities {

  type Method = nat
  type HandlerId = nat
  type RequestId = nat

  /** One queued `client.capabilities.set`; the oldest is the one that has been sent. */
  datatype Sync = Sync(revision: nat, methods: set<Method>)

  /** What happened, in order. */
  datatype Entry =
    | Registered(name: Method)
    | Unregistered(name: Method)
    | Advertised(revision: nat, methods: set<Method>)
    | Acknowledged(revision: nat, methods: set<Method>)
    | Dispatched(name: Method)

  datatype Client = Client(
    available: set<Method>,
    required: set<Method>,
    started: bool,
    failed: bool,
    handlers: map<Method, HandlerId>,
    firstRevisions: map<Method, nat>,
    revision: nat,
    acknowledgedRevision: nat,
    acknowledged: set<Method>,
    syncs: seq<Sync>,
    inFlight: map<RequestId, Method>,
    log: seq<Entry>)

  // ---------------------------------------------------------------------------------------------
  // Steps
  // ---------------------------------------------------------------------------------------------

  datatype Event =
    | Initialized
    | Registers(name: Method, handler: HandlerId)
    | Unregisters(name: Method, handler: HandlerId)
    | AcknowledgementArrives(revision: nat, methods: set<Method>)
    | RequestArrives(id: RequestId, name: Method)
    | RequestEnds(id: RequestId)
    | ConnectionFails

  function Offered(c: Client): set<Method> {
    set name | name in c.handlers && name in c.available
  }

  /** Methods without a first revision get this one. */
  function Marked(first: map<Method, nat>, methods: set<Method>, revision: nat): map<Method, nat> {
    map name | name in first.Keys + methods :: if name in first then first[name] else revision
  }

  function QueueSync(c: Client): Client {
    var revision, methods := c.revision + 1, Offered(c);
    c.(revision := revision,
       firstRevisions := Marked(c.firstRevisions, methods, revision),
       syncs := c.syncs + [Sync(revision, methods)],
       log := c.log + [Advertised(revision, methods)])
  }

  function OnInitialized(c: Client): Client {
    if c.started || c.failed then c else QueueSync(c.(started := true))
  }

  function SetHandler(c: Client, name: Method, handler: HandlerId): Client {
    c.(handlers := c.handlers[name := handler],
       log := if name in c.handlers then c.log else c.log + [Registered(name)])
  }

  /** A handler that known another one inherits what was advertised for the method. */
  function OnRegisters(c: Client, name: Method, handler: HandlerId): Client {
    if c.failed then c
    else if c.started && name !in c.handlers then QueueSync(SetHandler(c, name, handler))
    else SetHandler(c, name, handler)
  }

  function RemoveHandler(c: Client, name: Method): Client {
    c.(handlers := c.handlers - {name}, firstRevisions := c.firstRevisions - {name}, log := c.log + [Unregistered(name)])
  }

  function Retire(c: Client, name: Method): Client {
    c.(inFlight := map id | id in c.inFlight && c.inFlight[id] != name :: c.inFlight[id])
  }

  /** The closure that registering returned. */
  function OnUnregisters(c: Client, name: Method, handler: HandlerId): Client {
    if name !in c.handlers || c.handlers[name] != handler then c
    else if c.started && name in c.required then c.(failed := true)
    else if c.started then QueueSync(Retire(RemoveHandler(c, name), name))
    else RemoveHandler(c, name)
  }

  function OnAcknowledgement(c: Client, revision: nat, methods: set<Method>): Client {
    if c.failed || c.syncs == [] then c
    else if revision != c.syncs[0].revision || !(methods <= c.syncs[0].methods) then c.(failed := true)
    else
      c.(acknowledgedRevision := revision, acknowledged := methods, syncs := c.syncs[1..],
         log := c.log + [Acknowledged(revision, methods)])
  }

  /** Whether `handleServerRequest` hands a request to a handler rather than answering "Method not found". */
  predicate MayDispatch(c: Client, name: Method) {
    && c.started && name in c.available
    && name in c.acknowledged && name in c.firstRevisions
    && c.acknowledgedRevision >= c.firstRevisions[name]
    && name in c.handlers
  }

  function OnRequest(c: Client, id: RequestId, name: Method): Client {
    if c.failed then c
    else if id in c.inFlight then c.(failed := true)
    else if MayDispatch(c, name) then c.(inFlight := c.inFlight[id := name], log := c.log + [Dispatched(name)])
    else c
  }

  function Step(c: Client, e: Event): Client {
    match e
    case Initialized => OnInitialized(c)
    case Registers(name, handler) => OnRegisters(c, name, handler)
    case Unregisters(name, handler) => OnUnregisters(c, name, handler)
    case AcknowledgementArrives(revision, methods) => OnAcknowledgement(c, revision, methods)
    case RequestArrives(id, name) => OnRequest(c, id, name)
    case RequestEnds(id) => c.(inFlight := c.inFlight - {id})
    case ConnectionFails => c.(failed := true)
  }

  function Run(c: Client, events: seq<Event>): Client {
    if events == [] then c else Step(Run(c, events[..|events| - 1]), events[|events| - 1])
  }

  function Initial(available: set<Method>, required: set<Method>): Client {
    Client(available, required, false, false, map[], map[], 0, 0, {}, [], map[], [])
  }

  // ---------------------------------------------------------------------------------------------
  // What the log says about a method
  // ---------------------------------------------------------------------------------------------

  /**
   A registration waits until it has been advertised and a revision at least that new has been
   acknowledged; then the last acknowledgement decides.
   */
  datatype Status =
    | Absent
    | Fresh
    | Waiting(first: nat)
    | Decided(first: nat, accepted: bool)

  function After(status: Status, name: Method, entry: Entry): Status {
    match entry
    case Registered(m) => if m == name then Fresh else status
    case Unregistered(m) => if m == name then Absent else status
    case Advertised(revision, methods) => if status == Fresh && name in methods then Waiting(revision) else status
    case Acknowledged(revision, methods) =>
      if (status.Waiting? || status.Decided?) && revision >= status.first then Decided(status.first, name in methods) else status
    case Dispatched(_) => status
  }

  function StatusOf(log: seq<Entry>, name: Method): Status {
    if log == [] then Absent else After(StatusOf(log[..|log| - 1], name), name, log[|log| - 1])
  }

  lemma StatusGrows(log: seq<Entry>, entry: Entry, name: Method)
    ensures StatusOf(log + [entry], name) == After(StatusOf(log, name), name, entry)
  {
    assert (log + [entry])[..|log|] == log;
  }

  /** What must have happened before an entry. */
  ghost predicate Fits(log: seq<Entry>, entry: Entry) {
    match entry
    case Dispatched(name) => StatusOf(log, name).Decided? && StatusOf(log, name).accepted
    case Acknowledged(revision, methods) => WasAdvertised(log, revision, methods) && NewerThanAll(log, revision)
    case _ => true
  }

  ghost predicate WasAdvertised(log: seq<Entry>, revision: nat, methods: set<Method>) {
    exists k :: 0 <= k < |log| && log[k].Advertised? && log[k].revision == revision && methods <= log[k].methods
  }

  ghost predicate NewerThanAll(log: seq<Entry>, revision: nat) {
    forall k :: 0 <= k < |log| && log[k].Acknowledged? ==> log[k].revision < revision
  }

  ghost predicate Stepwise(log: seq<Entry>) {
    forall k :: 0 <= k < |log| ==> Fits(log[..k], log[k])
  }

  lemma LogGrows(log: seq<Entry>, entry: Entry)
    requires Stepwise(log) && Fits(log, entry)
    ensures Stepwise(log + [entry])
  {
    var after := log + [entry];
    forall k | 0 <= k < |after| ensures Fits(after[..k], after[k]) {
      if k < |log| {
        assert after[..k] == log[..k];
      } else {
        assert after[..k] == log;
      }
    }
  }

  // ---------------------------------------------------------------------------------------------
  // The invariant
  // ---------------------------------------------------------------------------------------------

  /** The tables say about a method what the log says. */
  ghost predicate MethodOk(c: Client, name: Method) {
    match StatusOf(c.log, name)
    case Absent => name !in c.handlers && name !in c.firstRevisions
    case Fresh => name in c.handlers && name !in c.firstRevisions
    case Waiting(first) =>
      name in c.handlers && name in c.firstRevisions && c.firstRevisions[name] == first && c.acknowledgedRevision < first
    case Decided(first, accepted) =>
      && name in c.handlers && name in c.firstRevisions && c.firstRevisions[name] == first
      && first <= c.acknowledgedRevision && (accepted <==> name in c.acknowledged)
  }

  /** Revisions are acknowledged in the order in which they were queued. */
  ghost predicate SyncsOk(c: Client) {
    && c.revision == c.acknowledgedRevision + |c.syncs|
    && (forall i :: 0 <= i < |c.syncs| ==>
          c.syncs[i].revision == c.acknowledgedRevision + 1 + i && WasAdvertised(c.log, c.syncs[i].revision, c.syncs[i].methods))
    && (forall k :: 0 <= k < |c.log| && c.log[k].Acknowledged? ==> c.log[k].revision <= c.acknowledgedRevision)
  }

  ghost predicate Inv(c: Client) {
    && (forall name :: MethodOk(c, name))
    && SyncsOk(c) && Stepwise(c.log)
    && (forall name :: name in c.firstRevisions ==> name in c.available && c.started)
    && (forall id :: id in c.inFlight ==> c.inFlight[id] in c.handlers)
  }

  lemma AdvertisedStays(log: seq<Entry>, entry: Entry, revision: nat, methods: set<Method>)
    requires WasAdvertised(log, revision, methods)
    ensures WasAdvertised(log + [entry], revision, methods)
  {
    var k :| 0 <= k < |log| && log[k].Advertised? && log[k].revision == revision && methods <= log[k].methods;
    assert (log + [entry])[k] == log[k];
  }

  lemma SyncsStay(c: Client, entry: Entry, after: Client)
    requires SyncsOk(c) && !entry.Acknowledged?
    requires after.log == c.log + [entry] && after.syncs == c.syncs
    requires after.revision == c.revision && after.acknowledgedRevision == c.acknowledgedRevision
    ensures SyncsOk(after)
  {
    forall i | 0 <= i < |c.syncs| ensures WasAdvertised(after.log, c.syncs[i].revision, c.syncs[i].methods) {
      AdvertisedStays(c.log, entry, c.syncs[i].revision, c.syncs[i].methods);
    }
  }

  lemma QueueSyncKeepsInv(c: Client)
    requires Inv(c) && c.started
    ensures Inv(QueueSync(c))
  {
    var after := QueueSync(c);
    var entry := Advertised(c.revision + 1, Offered(c));
    LogGrows(c.log, entry);
    forall name ensures MethodOk(after, name) {
      StatusGrows(c.log, entry, name);
      assert MethodOk(c, name);
    }
    QueueSyncKeepsSyncs(c);
  }

  lemma QueueSyncKeepsSyncs(c: Client)
    requires SyncsOk(c)
    ensures SyncsOk(QueueSync(c))
  {
    var after := QueueSync(c);
    assert after.log[|c.log|] == Advertised(c.revision + 1, Offered(c));
    forall i | 0 <= i < |after.syncs| ensures WasAdvertised(after.log, after.syncs[i].revision, after.syncs[i].methods) {
      if i < |c.syncs| {
        AdvertisedStays(c.log, after.log[|c.log|], c.syncs[i].revision, c.syncs[i].methods);
      }
    }
  }

  lemma SetHandlerKeepsInv(c: Client, name: Method, handler: HandlerId)
    requires Inv(c)
    ensures Inv(SetHandler(c, name, handler))
  {
    var after := SetHandler(c, name, handler);
    if name in c.handlers {
      forall m ensures MethodOk(after, m) {
        assert MethodOk(c, m);
      }
    } else {
      LogGrows(c.log, Registered(name));
      SyncsStay(c, Registered(name), after);
      forall m ensures MethodOk(after, m) {
        StatusGrows(c.log, Registered(name), m);
        assert MethodOk(c, m);
      }
    }
  }

  lemma RemoveHandlerKeepsInv(c: Client, name: Method)
    requires Inv(c) && name in c.handlers
    requires forall id :: id in c.inFlight ==> c.inFlight[id] != name
    ensures Inv(RemoveHandler(c, name))
  {
    var after := RemoveHandler(c, name);
    LogGrows(c.log, Unregistered(name));
    SyncsStay(c, Unregistered(name), after);
    forall m ensures MethodOk(after, m) {
      StatusGrows(c.log, Unregistered(name), m);
      assert MethodOk(c, m);
    }
  }

  lemma RetireKeepsInv(c: Client, name: Method)
    requires Inv(c)
    ensures Inv(Retire(c, name))
  {
    forall m ensures MethodOk(Retire(c, name), m) {
      assert MethodOk(c, m);
    }
  }

  lemma OnUnregistersKeepsInv(c: Client, name: Method, handler: HandlerId)
    requires Inv(c) && (!c.started ==> c.inFlight == map[])
    ensures Inv(OnUnregisters(c, name, handler))
  {
    if name in c.handlers && c.handlers[name] == handler {
      if c.started && name in c.required {
        FlagsKeepInv(c, c.(failed := true));
      } else if c.started {
        RetireKeepsInv(c, name);
        RemoveHandlerKeepsInv(Retire(c, name), name);
        assert Retire(RemoveHandler(c, name), name) == RemoveHandler(Retire(c, name), name);
        QueueSyncKeepsInv(RemoveHandler(Retire(c, name), name));
      } else {
        RemoveHandlerKeepsInv(c, name);
      }
    }
  }

  lemma FlagsKeepInv(c: Client, after: Client)
    requires Inv(c) && after == c.(failed := after.failed, started := after.started, inFlight := after.inFlight)
    requires c.started ==> after.started
    requires forall id :: id in after.inFlight ==> after.inFlight[id] in c.handlers
    ensures Inv(after)
  {
    forall m ensures MethodOk(after, m) {
      assert MethodOk(c, m);
    }
  }

  lemma OnAcknowledgementKeepsInv(c: Client, revision: nat, methods: set<Method>)
    requires Inv(c)
    ensures Inv(OnAcknowledgement(c, revision, methods))
  {
    var after := OnAcknowledgement(c, revision, methods);
    if after.log != c.log {
      var entry := Acknowledged(revision, methods);
      NarrowerWasAdvertised(c.log, revision, c.syncs[0].methods, methods);
      LogGrows(c.log, entry);
      forall m ensures MethodOk(after, m) {
        StatusGrows(c.log, entry, m);
        assert MethodOk(c, m);
      }
      AcknowledgementKeepsSyncs(c, revision, methods);
    } else {
      FlagsKeepInv(c, after);
    }
  }

  lemma NarrowerWasAdvertised(log: seq<Entry>, revision: nat, methods: set<Method>, fewer: set<Method>)
    requires WasAdvertised(log, revision, methods) && fewer <= methods
    ensures WasAdvertised(log, revision, fewer)
  {
  }

  lemma AcknowledgementKeepsSyncs(c: Client, revision: nat, methods: set<Method>)
    requires SyncsOk(c) && !c.failed && c.syncs != [] && revision == c.syncs[0].revision && methods <= c.syncs[0].methods
    ensures SyncsOk(OnAcknowledgement(c, revision, methods))
  {
    var after := OnAcknowledgement(c, revision, methods);
    forall i | 0 <= i < |after.syncs|
      ensures after.syncs[i].revision == after.acknowledgedRevision + 1 + i
      ensures WasAdvertised(after.log, after.syncs[i].revision, after.syncs[i].methods)
    {
      assert after.syncs[i] == c.syncs[i + 1];
      AdvertisedStays(c.log, Acknowledged(revision, methods), c.syncs[i + 1].revision, c.syncs[i + 1].methods);
    }
  }

  lemma OnRequestKeepsInv(c: Client, id: RequestId, name: Method)
    requires Inv(c)
    ensures Inv(OnRequest(c, id, name))
  {
    var after := OnRequest(c, id, name);
    if after.log != c.log {
      DispatchIffDecided(c, id, name);
      LogGrows(c.log, Dispatched(name));
      SyncsStay(c, Dispatched(name), after);
      forall m ensures MethodOk(after, m) {
        StatusGrows(c.log, Dispatched(name), m);
        assert MethodOk(c, m);
      }
    } else {
      FlagsKeepInv(c, after);
    }
  }

  /**
   A server request is handed to a handler iff a revision at least as new as the one that first
   advertised the current registration has been acknowledged and the last acknowledgement accepted
   the method.
   */
  lemma DispatchIffDecided(c: Client, id: RequestId, name: Method)
    requires Inv(c) && !c.failed && id !in c.inFlight
    ensures OnRequest(c, id, name).log != c.log <==>
            StatusOf(c.log, name).Decided? && StatusOf(c.log, name).accepted
  {
    assert MethodOk(c, name);
  }

  /** Before initialization nothing is dispatched. */
  ghost predicate Idle(c: Client) {
    !c.started ==> c.inFlight == map[]
  }

  lemma StepKeepsInv(c: Client, e: Event)
    requires Inv(c) && Idle(c)
    ensures Inv(Step(c, e)) && Idle(Step(c, e))
  {
    match e
    case Initialized =>
      if !c.started && !c.failed {
        FlagsKeepInv(c, c.(started := true));
        QueueSyncKeepsInv(c.(started := true));
      }
    case Registers(name, handler) =>
      SetHandlerKeepsInv(c, name, handler);
      if c.started {
        QueueSyncKeepsInv(SetHandler(c, name, handler));
      }
    case Unregisters(name, handler) => OnUnregistersKeepsInv(c, name, handler);
    case AcknowledgementArrives(revision, methods) => OnAcknowledgementKeepsInv(c, revision, methods);
    case RequestArrives(id, name) => OnRequestKeepsInv(c, id, name);
    case RequestEnds(id) => FlagsKeepInv(c, c.(inFlight := c.inFlight - {id}));
    case ConnectionFails => FlagsKeepInv(c, c.(failed := true));
  }

  lemma {:induction false} EveryRunKeepsInv(available: set<Method>, required: set<Method>, events: seq<Event>)
    ensures Inv(Run(Initial(available, required), events)) && Idle(Run(Initial(available, required), events))
  {
    if events != [] {
      EveryRunKeepsInv(available, required, events[..|events| - 1]);
      StepKeepsInv(Run(Initial(available, required), events[..|events| - 1]), events[|events| - 1]);
    }
  }

  // ---------------------------------------------------------------------------------------------
  // Main results
  // ---------------------------------------------------------------------------------------------

  /** No request is ever dispatched on the strength of an acknowledgement for an earlier registration. */
  lemma DispatchedOnlyIfDecided(available: set<Method>, required: set<Method>, events: seq<Event>, k: nat)
    requires var log := Run(Initial(available, required), events).log; k < |log| && log[k].Dispatched?
    ensures var log := Run(Initial(available, required), events).log;
            var status := StatusOf(log[..k], log[k].name);
            status.Decided? && status.accepted
  {
    EveryRunKeepsInv(available, required, events);
    var log := Run(Initial(available, required), events).log;
    assert Fits(log[..k], log[k]);
  }

  /** Every acknowledgement that takes effect accepts only methods that the same revision had advertised. */
  lemma AcknowledgedWasAdvertised(available: set<Method>, required: set<Method>, events: seq<Event>, k: nat)
    requires var log := Run(Initial(available, required), events).log; k < |log| && log[k].Acknowledged?
    ensures var log := Run(Initial(available, required), events).log;
            WasAdvertised(log[..k], log[k].revision, log[k].methods)
  {
    EveryRunKeepsInv(available, required, events);
    var log := Run(Initial(available, required), events).log;
    assert Fits(log[..k], log[k]);
  }

  /** Acknowledged revisions increase. */
  lemma AcknowledgementsIncrease(available: set<Method>, required: set<Method>, events: seq<Event>, j: nat, k: nat)
    requires var log := Run(Initial(available, required), events).log;
             j < k < |log| && log[j].Acknowledged? && log[k].Acknowledged?
    ensures var log := Run(Initial(available, required), events).log; log[j].revision < log[k].revision
  {
    EveryRunKeepsInv(available, required, events);
    var log := Run(Initial(available, required), events).log;
    assert Fits(log[..k], log[k]);
    assert log[..k][j] == log[j];
  }

  /** After a handler is withdrawn, no request for its method is being handled. */
  lemma WithdrawnMethodIsQuiet(available: set<Method>, required: set<Method>, events: seq<Event>, id: RequestId)
    requires id in Run(Initial(available, required), events).inFlight
    ensures var c := Run(Initial(available, required), events);
            c.inFlight[id] in c.handlers && StatusOf(c.log, c.inFlight[id]) != Absent
  {
    EveryRunKeepsInv(available, required, events);
    var c := Run(Initial(available, required), events);
    assert MethodOk(c, c.inFlight[id]);
  }

  // ---------------------------------------------------------------------------------------------
  // The object that the program updates in place
  // ---------------------------------------------------------------------------------------------

  /** The loop that gives every newly offered method its first revision. */
  method MarkOffered(first: map<Method, nat>, offered: set<Method>, revision: nat) returns (marked: map<Method, nat>)
    ensures marked == Marked(first, offered, revision)
  {
    marked := first;
    var remaining := offered;
    while remaining != {}
      invariant remaining <= offered
      invariant marked == Marked(first, offered - remaining, revision)
      decreases remaining
    {
      assert (forall name :: name !in remaining) ==> remaining == {};
      var name :| name in remaining;
      assert offered - (remaining - {name}) == offered - remaining + {name};
      if name !in marked {
        marked := marked[name := revision];
      }
      remaining := remaining - {name};
    }
    assert offered - remaining == offered;
  }

  class NodeClientCapabilities {
    const available: set<Method>
    const required: set<Method>
    var started: bool
    var failed: bool
    var handlers: map<Method, HandlerId>
    var firstRevisions: map<Method, nat>
    var revision: nat
    var acknowledgedRevision: nat
    var acknowledged: set<Method>
    var syncs: seq<Sync>
    var inFlight: map<RequestId, Method>
    var log: seq<Entry>

    function View(): Client
      reads this
    {
      Client(available, required, started, failed, handlers, firstRevisions, revision, acknowledgedRevision, acknowledged,
             syncs, inFlight, log)
    }

    constructor (available: set<Method>, required: set<Method>)
      ensures View() == Initial(available, required) && Inv(View()) && Idle(View())
    {
      this.available, this.required, started, failed := available, required, false, false;
      handlers, firstRevisions, revision, acknowledgedRevision := map[], map[], 0, 0;
      acknowledged, syncs, inFlight, log := {}, [], map[], [];
      EveryRunKeepsInv(available, required, []);
    }

    /** `queueServerRequestCapabilitySync`. */
    method QueueCapabilitySync()
      modifies this`revision, this`firstRevisions, this`syncs, this`log
      ensures View() == QueueSync(old(View()))
    {
      var offered := Offered(View());
      revision := revision + 1;
      firstRevisions := MarkOffered(firstRevisions, offered, revision);
      syncs := syncs + [Sync(revision, offered)];
      log := log + [Advertised(revision, offered)];
    }

    /** `registerServerRequestHandler`. */
    method RegisterHandler(name: Method, handler: HandlerId)
      requires Inv(View()) && Idle(View())
      modifies this
      ensures View() == OnRegisters(old(View()), name, handler) && Inv(View()) && Idle(View())
    {
      StepKeepsInv(View(), Registers(name, handler));
      if failed {
        return;
      }
      var known := name in handlers;
      handlers := handlers[name := handler];
      if !known {
        log := log + [Registered(name)];
        if started {
          QueueCapabilitySync();
        }
      }
    }

    /** `retireServerRequestsForMethod`. */
    method RetireRequests(name: Method)
      modifies this`inFlight
      ensures View() == Retire(old(View()), name)
    {
      var remaining := inFlight.Keys;
      while remaining != {}
        invariant remaining <= old(inFlight).Keys
        invariant inFlight ==
                  map id | id in old(inFlight) && (id in remaining || old(inFlight)[id] != name) :: old(inFlight)[id]
        decreases remaining
      {
        assert (forall id :: id !in remaining) ==> remaining == {};
        var id :| id in remaining;
        if inFlight[id] == name {
          inFlight := inFlight - {id};
        }
        remaining := remaining - {id};
      }
    }

    /** The closure that registering returned. */
    method UnregisterHandler(name: Method, handler: HandlerId)
      requires Inv(View()) && Idle(View())
      modifies this
      ensures View() == OnUnregisters(old(View()), name, handler) && Inv(View()) && Idle(View())
    {
      StepKeepsInv(View(), Unregisters(name, handler));
      if name !in handlers || handlers[name] != handler {
        return;
      }
      if started && name in required {
        failed := true;
        return;
      }
      handlers := handlers - {name};
      firstRevisions := firstRevisions - {name};
      log := log + [Unregistered(name)];
      if started {
        RetireRequests(name);
        QueueCapabilitySync();
      }
    }

    /** `acceptClientCapabilitiesSetResult`, for the request that is outstanding. */
    method AcceptAcknowledgement(acknowledgedRevision: nat, methods: set<Method>)
      requires Inv(View()) && Idle(View())
      modifies this
      ensures View() == OnAcknowledgement(old(View()), acknowledgedRevision, methods) && Inv(View()) && Idle(View())
    {
      StepKeepsInv(View(), AcknowledgementArrives(acknowledgedRevision, methods));
      if failed || syncs == [] {
        return;
      }
      if acknowledgedRevision != syncs[0].revision || !(methods <= syncs[0].methods) {
        failed := true;
        return;
      }
      this.acknowledgedRevision := acknowledgedRevision;
      acknowledged := methods;
      syncs := syncs[1..];
      log := log + [Acknowledged(acknowledgedRevision, methods)];
    }

    /** `handleServerRequest`. */
    method HandleServerRequest(id: RequestId, name: Method) returns (dispatched: bool)
      requires Inv(View()) && Idle(View())
      modifies this
      ensures View() == OnRequest(old(View()), id, name) && Inv(View()) && Idle(View())
      ensures dispatched <==>
                && !old(failed) && id !in old(inFlight)
                && StatusOf(old(log), name).Decided? && StatusOf(old(log), name).accepted
    {
      StepKeepsInv(View(), RequestArrives(id, name));
      if failed {
        return false;
      }
      if id in inFlight {
        failed := true;
        return false;
      }
      DispatchIffDecided(View(), id, name);
      if !MayDispatch(View(), name) {
        return false;
      }
      inFlight := inFlight[id := name];
      log := log + [Dispatched(name)];
      return true;
    }
  }
}
