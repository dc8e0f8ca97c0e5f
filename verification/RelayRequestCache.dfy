/**
 The request caches of the companion's relay bridge: a mutation that is delivered again - on the same
 or on a later connection - joins the execution it started before, until its entry is evicted
 (`packages/companion/src/relay-bridge-v11.ts`, lines 503-555, 599-613 and 683-701).
 */
module RelayRequestCache {
  import opened Wrappers

  datatype Key = Key(workspaceId: nat, requestId: nat)

  /** `Plain` stands for every method that is not a mutation: it is executed without any cache. */
  datatype Kind = Plain | Mutation | Candidate

  datatype Request = Request(key: Key, fingerprint: nat, kind: Kind)

  /**
   A cached promise. Promises are identified by the execution that settles them; only interaction
   candidates remember the generation they came through.
   */
  datatype Entry = Entry(fingerprint: nat, execution: nat, generation: Option<nat>)

  /** `order` lists the keys of `settled` as the program's insertion-ordered map iterates them. */
  datatype Cache = Cache(
    maxEntries: nat,
    inFlight: map<Key, Entry>,
    settled: map<Key, Entry>,
    order: seq<Key>,
    generation: Option<nat>)

  datatype Answer =
    | Conflict
    | Response(execution: nat)

  /**
   The caches together with what happened so far: the request of every execution, the executions
   whose entry was evicted, and the keys whose settled entry was stored or read, in order.
   */
  datatype World = World(
    cache: Cache,
    executions: seq<Request>,
    evicted: seq<nat>,
    uses: seq<Key>,
    connections: nat)

  // ---------------------------------------------------------------------------------------------
  // An insertion-ordered map
  // ---------------------------------------------------------------------------------------------

  function Without(order: seq<Key>, key: Key): seq<Key> {
    if order == [] then []
    else if order[0] == key then Without(order[1..], key)
    else [order[0]] + Without(order[1..], key)
  }

  function DeleteSettled(c: Cache, key: Key): Cache {
    c.(settled := c.settled - {key}, order := Without(c.order, key))
  }

  function SetSettled(c: Cache, key: Key, entry: Entry): Cache {
    c.(settled := c.settled[key := entry], order := if key in c.settled then c.order else c.order + [key])
  }

  // ---------------------------------------------------------------------------------------------
  // Operations
  // ---------------------------------------------------------------------------------------------

  function Existing(c: Cache, key: Key): Option<Entry> {
    if key in c.inFlight then Some(c.inFlight[key])
    else if key in c.settled then Some(c.settled[key])
    else None
  }

  function Touch(c: Cache, key: Key): Cache {
    if key in c.settled then SetSettled(DeleteSettled(c, key), key, c.settled[key]) else c
  }

  function Evict(c: Cache): (after: Cache)
    ensures after == c.(settled := after.settled, order := after.order)
    decreases |c.order|
  {
    if |c.order| > c.maxEntries && c.order != [] then Evict(EvictOldest(c)) else c
  }

  function EvictOldest(c: Cache): Cache
    requires c.order != []
  {
    c.(settled := c.settled - {c.order[0]}, order := c.order[1..])
  }

  /** What `resolveRuntimeRequest` answers, and whether it starts an execution to do so. */
  function AnswerTo(c: Cache, request: Request, execution: nat): Answer {
    match Existing(c, request.key)
    case Some(entry) => if entry.fingerprint == request.fingerprint then Response(entry.execution) else Conflict
    case None => Response(execution)
  }

  function Starts(c: Cache, request: Request): bool {
    Existing(c, request.key).None?
  }

  function Deliver(c: Cache, request: Request, execution: nat): Cache {
    match Existing(c, request.key)
    case Some(entry) => if entry.fingerprint == request.fingerprint then Touch(c, request.key) else c
    case None =>
      if request.kind == Plain then c
      else
        var entry := Entry(request.fingerprint, execution, if request.kind == Candidate then c.generation else None);
        c.(inFlight := c.inFlight[request.key := entry])
  }

  predicate AwaitsSettling(c: Cache, key: Key, execution: nat) {
    key in c.inFlight && c.inFlight[key].execution == execution
  }

  function SettleRequest(c: Cache, key: Key, execution: nat): Cache {
    if AwaitsSettling(c, key, execution)
    then Evict(SetSettled(c.(inFlight := c.inFlight - {key}), key, c.inFlight[key]))
    else c
  }

  /** `releaseCurrentGeneration` forgets the candidates that came through the connection that ends. */
  function Release(c: Cache): Cache {
    match c.generation
    case None => c
    case Some(_) =>
      c.(generation := None,
         inFlight := map key | key in c.inFlight && c.inFlight[key].generation != c.generation :: c.inFlight[key])
  }

  // ---------------------------------------------------------------------------------------------
  // Runs
  // ---------------------------------------------------------------------------------------------

  datatype Event =
    | Connect
    | Disconnect
    | Delivered(request: Request)
    | Settles(execution: nat)

  function OnDelivered(w: World, request: Request): World {
    if w.cache.generation.None? then w
    else
      var touched := Existing(w.cache, request.key).Some? && request.key in w.cache.settled
                     && Existing(w.cache, request.key).value.fingerprint == request.fingerprint;
      w.(cache := Deliver(w.cache, request, |w.executions|),
         executions := if Starts(w.cache, request) then w.executions + [request] else w.executions,
         uses := if touched then w.uses + [request.key] else w.uses)
  }

  /** The executions whose settled entries do not survive the eviction loop. */
  function Evicted(c: Cache): seq<nat>
    decreases |c.order|
  {
    if |c.order| > c.maxEntries && c.order != []
    then (if c.order[0] in c.settled then [c.settled[c.order[0]].execution] else []) + Evicted(EvictOldest(c))
    else []
  }

  function OnSettles(w: World, execution: nat): World {
    if execution >= |w.executions| then w
    else
      var key := w.executions[execution].key;
      if !AwaitsSettling(w.cache, key, execution) then w
      else
        w.(cache := SettleRequest(w.cache, key, execution),
           evicted := w.evicted
                      + Evicted(SetSettled(w.cache.(inFlight := w.cache.inFlight - {key}), key, w.cache.inFlight[key])),
           uses := w.uses + [key])
  }

  function Step(w: World, e: Event): World {
    match e
    case Connect =>
      w.(cache := Release(w.cache).(generation := Some(w.connections)), connections := w.connections + 1)
    case Disconnect => w.(cache := Release(w.cache))
    case Delivered(request) => OnDelivered(w, request)
    case Settles(execution) => OnSettles(w, execution)
  }

  function Run(w: World, events: seq<Event>): World {
    if events == [] then w else Step(Run(w, events[..|events| - 1]), events[|events| - 1])
  }

  function Initial(maxEntries: nat): World {
    World(Cache(maxEntries, map[], map[], [], None), [], [], [], 0)
  }

  // ---------------------------------------------------------------------------------------------
  // The invariant
  // ---------------------------------------------------------------------------------------------

  predicate Distinct(order: seq<Key>) {
    forall i, j :: 0 <= i < j < |order| ==> order[i] != order[j]
  }

  /** Keys are in one cache at most, and `order` lists the settled ones, each once. */
  ghost predicate Shaped(c: Cache) {
    && Distinct(c.order)
    && (forall key :: key in c.settled <==> key in c.order)
    && (forall key :: key in c.inFlight ==> key !in c.settled)
  }

  predicate Holds(c: Cache, key: Key, execution: nat) {
    || (key in c.inFlight && c.inFlight[key].execution == execution)
    || (key in c.settled && c.settled[key].execution == execution)
  }

  ghost predicate EntryOk(w: World, key: Key, entry: Entry) {
    && entry.execution < |w.executions|
    && var request := w.executions[entry.execution];
    && request.key == key && request.fingerprint == entry.fingerprint
    && request.kind != Plain
    && (entry.generation.Some? <==> request.kind == Candidate)
  }

  ghost predicate Accounted(w: World, execution: nat)
    requires execution < |w.executions|
  {
    w.executions[execution].kind == Mutation ==>
      (execution in w.evicted <==> !Holds(w.cache, w.executions[execution].key, execution))
  }

  ghost predicate Inv(w: World) {
    && Shaped(w.cache) && |w.cache.order| <= w.cache.maxEntries
    && (forall key :: key in w.cache.inFlight ==> EntryOk(w, key, w.cache.inFlight[key]))
    && (forall key :: key in w.cache.settled ==> EntryOk(w, key, w.cache.settled[key]))
    && (forall execution :: 0 <= execution < |w.executions| ==> Accounted(w, execution))
    && (forall execution :: execution in w.evicted ==> execution < |w.executions|)
  }

  lemma DistinctCons(head: Key, tail: seq<Key>)
    ensures Distinct([head] + tail) <==> head !in tail && Distinct(tail)
  {
    var all := [head] + tail;
    assert all[0] == head;
    assert forall i :: 0 <= i < |tail| ==> all[i + 1] == tail[i];
  }

  lemma {:induction false} WithoutSpec(order: seq<Key>, key: Key)
    requires Distinct(order)
    ensures Distinct(Without(order, key))
    ensures forall k :: k in Without(order, key) <==> k in order && k != key
    ensures |Without(order, key)| == if key in order then |order| - 1 else |order|
    ensures key !in order ==> Without(order, key) == order
  {
    if order != [] {
      var head, tail := order[0], order[1..];
      assert order == [head] + tail;
      DistinctCons(head, tail);
      WithoutSpec(tail, key);
      DistinctCons(head, Without(tail, key));
    }
  }

  lemma {:induction false} WithoutConcat(a: seq<Key>, b: seq<Key>, key: Key)
    ensures Without(a + b, key) == Without(a, key) + Without(b, key)
  {
    if a == [] {
      assert a + b == b;
    } else {
      assert (a + b)[1..] == a[1..] + b;
      WithoutConcat(a[1..], b, key);
    }
  }

  lemma MovedToEnd(order: seq<Key>, key: Key)
    requires Distinct(order)
    ensures Distinct(Without(order, key) + [key])
    ensures forall k :: k in Without(order, key) + [key] <==> k in order || k == key
  {
    WithoutSpec(order, key);
  }

  lemma StoredAgain(entries: map<Key, Entry>, key: Key)
    requires key in entries
    ensures (entries - {key})[key := entries[key]] == entries
  {
  }

  lemma TouchMoves(c: Cache, key: Key)
    ensures Touch(c, key) == c.(order := if key in c.settled then Without(c.order, key) + [key] else c.order)
  {
    if key in c.settled {
      StoredAgain(c.settled, key);
      assert key !in (c.settled - {key});
    }
  }

  lemma TouchKeepsShaped(c: Cache, key: Key)
    requires Shaped(c)
    ensures Shaped(Touch(c, key)) && |Touch(c, key).order| == |c.order|
  {
    TouchMoves(c, key);
    if key in c.settled {
      WithoutSpec(c.order, key);
      MovedToEnd(c.order, key);
    }
  }

  /** With one entry too many, exactly the oldest is evicted. */
  lemma EvictOne(c: Cache)
    requires Shaped(c) && |c.order| <= c.maxEntries + 1
    ensures |c.order| <= c.maxEntries ==> Evict(c) == c && Evicted(c) == []
    ensures |c.order| > c.maxEntries ==>
              && Evict(c) == EvictOldest(c)
              && c.order[0] in c.settled && Evicted(c) == [c.settled[c.order[0]].execution]
    ensures Shaped(Evict(c))
  {
    if |c.order| > c.maxEntries {
      var rest := EvictOldest(c);
      DistinctCons(c.order[0], rest.order);
      assert c.order == [c.order[0]] + rest.order;
      assert Evict(c) == Evict(rest) == rest;
      assert Evicted(rest) == [];
    }
  }

  /** A key that settles moves from the one cache to the end of the other. */
  function Moved(c: Cache, key: Key): Cache
    requires key in c.inFlight
  {
    SetSettled(c.(inFlight := c.inFlight - {key}), key, c.inFlight[key])
  }

  lemma MovedKeepsShaped(c: Cache, key: Key)
    requires Shaped(c) && key in c.inFlight
    ensures Shaped(Moved(c, key)) && Moved(c, key).order == c.order + [key]
  {
  }

  // ---------------------------------------------------------------------------------------------
  // Every step keeps the invariant
  // ---------------------------------------------------------------------------------------------

  lemma DeliveredKeepsInv(w: World, request: Request)
    requires Inv(w)
    ensures Inv(OnDelivered(w, request))
  {
    var c, after := w.cache, OnDelivered(w, request);
    if c.generation.Some? {
      match Existing(c, request.key) {
        case Some(entry) =>
          TouchKeepsShaped(c, request.key);
          TouchMoves(c, request.key);
          assert after.executions == w.executions;
          assert after.cache == c.(order := after.cache.order);
          forall e | 0 <= e < |w.executions| ensures Accounted(after, e) {
            assert Accounted(w, e);
          }
        case None =>
          StartedKeepsInv(w, request);
      }
    }
  }

  lemma StartedKeepsInv(w: World, request: Request)
    requires Inv(w) && w.cache.generation.Some? && Existing(w.cache, request.key).None?
    ensures Inv(OnDelivered(w, request))
  {
    var after := OnDelivered(w, request);
    assert after.evicted == w.evicted;
    forall e | 0 <= e < |after.executions| ensures Accounted(after, e) {
      if e < |w.executions| {
        assert Accounted(w, e);
      }
    }
  }

  lemma MovedKeepsAccounts(w: World, key: Key)
    requires Inv(w) && key in w.cache.inFlight
    ensures var before := w.(cache := Moved(w.cache, key));
            && (forall k :: k in before.cache.inFlight ==> EntryOk(before, k, before.cache.inFlight[k]))
            && (forall k :: k in before.cache.settled ==> EntryOk(before, k, before.cache.settled[k]))
            && (forall e :: 0 <= e < |w.executions| ==> Accounted(before, e))
  {
    var before := w.(cache := Moved(w.cache, key));
    assert EntryOk(w, key, w.cache.inFlight[key]);
    forall e | 0 <= e < |w.executions| ensures Accounted(before, e) {
      assert Accounted(w, e);
    }
  }

  lemma SettlesKeepsInv(w: World, execution: nat)
    requires Inv(w) && w.cache.maxEntries > 0
    ensures Inv(OnSettles(w, execution))
  {
    if execution < |w.executions| && AwaitsSettling(w.cache, w.executions[execution].key, execution) {
      var key := w.executions[execution].key;
      var moved := Moved(w.cache, key);
      MovedKeepsShaped(w.cache, key);
      MovedKeepsAccounts(w, key);
      EvictionKeepsAccounts(w.(cache := moved), OnSettles(w, execution));
    }
  }

  lemma EvictionKeepsAccounts(w: World, after: World)
    requires Shaped(w.cache) && |w.cache.order| <= w.cache.maxEntries + 1
    requires forall key :: key in w.cache.inFlight ==> EntryOk(w, key, w.cache.inFlight[key])
    requires forall key :: key in w.cache.settled ==> EntryOk(w, key, w.cache.settled[key])
    requires forall execution :: 0 <= execution < |w.executions| ==> Accounted(w, execution)
    requires forall execution :: execution in w.evicted ==> execution < |w.executions|
    requires after == w.(cache := Evict(w.cache), evicted := w.evicted + Evicted(w.cache), uses := after.uses)
    ensures Inv(after)
  {
    EvictOne(w.cache);
    if |w.cache.order| > w.cache.maxEntries {
      var oldest := w.cache.order[0];
      assert EntryOk(w, oldest, w.cache.settled[oldest]);
    }
    forall e | 0 <= e < |after.executions| ensures Accounted(after, e) {
      assert Accounted(w, e);
    }
  }

  lemma ReleaseKeepsInv(w: World, after: World)
    requires Inv(w)
    requires after == w.(cache := Release(w.cache).(generation := after.cache.generation), connections := after.connections)
    ensures Inv(after)
  {
    forall e | 0 <= e < |w.executions| ensures Accounted(after, e) {
      assert Accounted(w, e);
    }
  }

  lemma StepKeepsInv(w: World, e: Event)
    requires Inv(w) && w.cache.maxEntries > 0
    ensures Inv(Step(w, e)) && Step(w, e).cache.maxEntries == w.cache.maxEntries
  {
    match e
    case Connect => ReleaseKeepsInv(w, Step(w, e));
    case Disconnect => ReleaseKeepsInv(w, Step(w, e));
    case Delivered(request) =>
      DeliveredKeepsInv(w, request);
    case Settles(execution) =>
      SettlesKeepsInv(w, execution);
  }

  lemma {:induction false} EveryRunKeepsInv(maxEntries: nat, events: seq<Event>)
    requires maxEntries > 0
    ensures Inv(Run(Initial(maxEntries), events))
    ensures Run(Initial(maxEntries), events).cache.maxEntries == maxEntries
  {
    if events != [] {
      EveryRunKeepsInv(maxEntries, events[..|events| - 1]);
      StepKeepsInv(Run(Initial(maxEntries), events[..|events| - 1]), events[|events| - 1]);
    }
  }

  // ---------------------------------------------------------------------------------------------
  // Main results
  // ---------------------------------------------------------------------------------------------

  /** A mutation that runs again does so only after the entry of its earlier execution was evicted. */
  ghost predicate OnceUntilEvicted(w: World) {
    forall i, j :: 0 <= i < j < |w.executions| && w.executions[i].key == w.executions[j].key
                   && w.executions[i].kind == Mutation && w.executions[j].kind == Mutation ==>
                     i in w.evicted
  }

  /** `OnceUntilEvicted` across any deliveries, settlements and connections. */
  lemma {:induction false} AtMostOnceUntilEvicted(maxEntries: nat, events: seq<Event>)
    requires maxEntries > 0
    ensures OnceUntilEvicted(Run(Initial(maxEntries), events))
  {
    if events != [] {
      EveryRunKeepsInv(maxEntries, events[..|events| - 1]);
      AtMostOnceUntilEvicted(maxEntries, events[..|events| - 1]);
      StepRunsOnce(Run(Initial(maxEntries), events[..|events| - 1]), events[|events| - 1]);
    }
  }

  lemma StepRunsOnce(w: World, e: Event)
    requires Inv(w) && OnceUntilEvicted(w)
    ensures OnceUntilEvicted(Step(w, e))
  {
    var after := Step(w, e);
    StepExtendsLogs(w, e);
    forall i, j | && 0 <= i < j < |after.executions| && after.executions[i].key == after.executions[j].key
                  && after.executions[i].kind == Mutation && after.executions[j].kind == Mutation
      ensures i in after.evicted
    {
      assert Accounted(w, i);
      assert after.executions[i] == w.executions[i];
      assert i in w.evicted;
      assert i in after.evicted[..|w.evicted|];
    }
  }

  lemma StepExtendsLogs(w: World, e: Event)
    ensures var after := Step(w, e);
            && |w.executions| <= |after.executions| <= |w.executions| + 1
            && after.executions[..|w.executions|] == w.executions
            && (|after.executions| > |w.executions| ==>
                  e.Delivered? && Existing(w.cache, e.request.key).None? && after.executions == w.executions + [e.request])
            && |w.evicted| <= |after.evicted| && after.evicted[..|w.evicted|] == w.evicted
  {
  }

  /**
   While the entry of a mutation has not been evicted, every delivery of its key with its
   fingerprint is answered by that one execution, every other delivery of its key is a conflict, and
   neither starts anything. Once it has been evicted its execution answers nothing any more.
   */
  lemma SameAnswerIffNotEvicted(w: World, execution: nat, request: Request)
    requires Inv(w) && w.cache.generation.Some?
    requires execution < |w.executions| && w.executions[execution].kind == Mutation
    requires request.key == w.executions[execution].key
    ensures var answer := AnswerTo(w.cache, request, |w.executions|);
            if execution in w.evicted then answer != Response(execution)
            else
              && answer == (if request.fingerprint == w.executions[execution].fingerprint then Response(execution) else Conflict)
              && OnDelivered(w, request).executions == w.executions
  {
    assert Accounted(w, execution);
  }

  /** Neither capacity nor the end of a connection takes an entry away whose execution is still running. */
  lemma InFlightLeavesOnlyBySettling(w: World, e: Event, key: Key)
    requires Inv(w) && w.cache.maxEntries > 0
    requires key in w.cache.inFlight && w.executions[w.cache.inFlight[key].execution].kind == Mutation
    ensures var after := Step(w, e).cache;
            if e == Settles(w.cache.inFlight[key].execution) then
              && key !in after.inFlight && key in after.settled && after.settled[key] == w.cache.inFlight[key]
              && after.order != [] && after.order[|after.order| - 1] == key
            else
              key in after.inFlight && after.inFlight[key] == w.cache.inFlight[key]
  {
    assert EntryOk(w, key, w.cache.inFlight[key]);
    match e
    case Settles(execution) => SettlingMovesOneKey(w, execution, key);
    case Delivered(request) => TouchMoves(w.cache, request.key);
    case _ =>
  }

  lemma SettlingMovesOneKey(w: World, execution: nat, key: Key)
    requires Inv(w) && w.cache.maxEntries > 0 && key in w.cache.inFlight
    ensures var after := OnSettles(w, execution).cache;
            if execution == w.cache.inFlight[key].execution then
              && key !in after.inFlight && key in after.settled && after.settled[key] == w.cache.inFlight[key]
              && after.order != [] && after.order[|after.order| - 1] == key
            else
              key in after.inFlight && after.inFlight[key] == w.cache.inFlight[key]
  {
    assert EntryOk(w, key, w.cache.inFlight[key]);
    if execution < |w.executions| && AwaitsSettling(w.cache, w.executions[execution].key, execution) {
      var moving := w.executions[execution].key;
      MovedKeepsShaped(w.cache, moving);
      EvictOne(Moved(w.cache, moving));
      if moving == key {
        NewestSurvives(Moved(w.cache, key), key);
      }
    }
  }

  lemma NewestSurvives(c: Cache, key: Key)
    requires Shaped(c) && 0 < c.maxEntries && 0 < |c.order| <= c.maxEntries + 1 && c.order[|c.order| - 1] == key
    ensures var after := Evict(c); after.order != [] && after.order[|after.order| - 1] == key
    ensures key in Evict(c).settled && Evict(c).settled[key] == c.settled[key]
  {
    EvictOne(c);
  }

  /** Every candidate in flight came through the connection that is up. */
  ghost predicate CandidatesAreCurrent(c: Cache) {
    forall key :: key in c.inFlight && c.inFlight[key].generation.Some? ==> c.inFlight[key].generation == c.generation
  }

  /**
   A candidate is never joined by a delivery on a later connection while it runs: when its connection
   ends its entry goes, and a mutation's stays.
   */
  lemma {:induction false} CandidatesEndWithTheirConnection(maxEntries: nat, events: seq<Event>)
    requires maxEntries > 0
    ensures CandidatesAreCurrent(Run(Initial(maxEntries), events).cache)
  {
    if events != [] {
      var before, e := Run(Initial(maxEntries), events[..|events| - 1]), events[|events| - 1];
      CandidatesEndWithTheirConnection(maxEntries, events[..|events| - 1]);
      if e.Delivered? {
        TouchMoves(before.cache, e.request.key);
      } else if e.Settles? {
        SettlingOnlyRemoves(before, e.execution);
      }
    }
  }

  lemma SettlingOnlyRemoves(w: World, execution: nat)
    ensures var after := OnSettles(w, execution).cache;
            && after.generation == w.cache.generation
            && forall key :: key in after.inFlight ==> key in w.cache.inFlight && after.inFlight[key] == w.cache.inFlight[key]
  {
  }

  // ---------------------------------------------------------------------------------------------
  // Eviction is exactly least-recently-used
  // ---------------------------------------------------------------------------------------------

  /** All keys ever used, ordered by their last use. */
  function ByLastUse(uses: seq<Key>): (order: seq<Key>)
  {
    if uses == [] then []
    else Without(ByLastUse(uses[..|uses| - 1]), uses[|uses| - 1]) + [uses[|uses| - 1]]
  }

  function Newest(order: seq<Key>, n: nat): seq<Key> {
    if |order| <= n then order else order[|order| - n..]
  }

  /** The keys used after the last use of `key`. */
  function UsedSince(uses: seq<Key>, key: Key): set<Key> {
    if uses == [] then {}
    else
      var last := uses[|uses| - 1];
      if last == key then {} else UsedSince(uses[..|uses| - 1], key) + {last}
  }

  lemma {:induction false} ByLastUseSpec(uses: seq<Key>)
    ensures Distinct(ByLastUse(uses))
    ensures forall k :: k in ByLastUse(uses) <==> k in uses
  {
    if uses != [] {
      var init, last := uses[..|uses| - 1], uses[|uses| - 1];
      assert uses == init + [last];
      ByLastUseSpec(init);
      MovedToEnd(ByLastUse(init), last);
    }
  }

  lemma ConcatDistinct(a: seq<Key>, b: seq<Key>)
    requires Distinct(a + b)
    ensures Distinct(a) && Distinct(b)
    ensures forall k :: k in a ==> k !in b
  {
    assert forall i :: 0 <= i < |a| ==> (a + b)[i] == a[i];
    assert forall i :: 0 <= i < |b| ==> (a + b)[|a| + i] == b[i];
  }

  lemma NewestOfConcat(older: seq<Key>, newest: seq<Key>, n: nat)
    requires |newest| == n || (|newest| < n && older == [])
    ensures Newest(older + newest, n) == newest
  {
    if older == [] {
      assert older + newest == newest;
    } else {
      assert (older + newest)[|older|..] == newest;
    }
  }

  lemma Reassociate(a: seq<Key>, b: seq<Key>, c: seq<Key>)
    ensures (a + b) + c == a + (b + c)
  {
  }

  /** What one more use does to the newest `n` keys. */
  lemma NewestAfterUse(order: seq<Key>, key: Key, n: nat)
    requires Distinct(order) && n > 0
    ensures var newest := Newest(order, n);
            Newest(Without(order, key) + [key], n) ==
            if key in newest then Without(newest, key) + [key]
            else if |newest| < n then newest + [key]
            else newest[1..] + [key]
  {
    var newest := Newest(order, n);
    var older := order[..|order| - |newest|];
    assert order == older + newest;
    WithoutConcat(older, newest, key);
    NewestAfterUseOf(older, newest, key, n);
  }

  lemma NewestAfterUseOf(older: seq<Key>, newest: seq<Key>, key: Key, n: nat)
    requires Distinct(older + newest) && n > 0
    requires |newest| == n || (|newest| < n && older == [])
    ensures Newest(Without(older, key) + Without(newest, key) + [key], n) ==
            if key in newest then Without(newest, key) + [key]
            else if |newest| < n then newest + [key]
            else newest[1..] + [key]
  {
    ConcatDistinct(older, newest);
    WithoutSpec(older, key);
    WithoutSpec(newest, key);
    var left := Without(older, key);
    if key in newest || |newest| < n {
      Reassociate(left, Without(newest, key), [key]);
      NewestOfConcat(left, Without(newest, key) + [key], n);
    } else {
      assert newest == [newest[0]] + newest[1..];
      Reassociate(left, [newest[0]], newest[1..]);
      Reassociate(left + [newest[0]], newest[1..], [key]);
      NewestOfConcat(left + [newest[0]], newest[1..] + [key], n);
    }
  }

  /** The settled cache holds exactly the `maxEntries` most recently used keys, oldest use first. */
  lemma {:induction false} SettledAreTheMostRecentlyUsed(maxEntries: nat, events: seq<Event>)
    requires maxEntries > 0
    ensures var w := Run(Initial(maxEntries), events);
            w.cache.order == Newest(ByLastUse(w.uses), maxEntries)
  {
    if events != [] {
      var before, e := Run(Initial(maxEntries), events[..|events| - 1]), events[|events| - 1];
      EveryRunKeepsInv(maxEntries, events[..|events| - 1]);
      SettledAreTheMostRecentlyUsed(maxEntries, events[..|events| - 1]);
      StepKeepsRecency(before, e);
    }
  }

  lemma ByLastUseGrows(uses: seq<Key>, key: Key)
    ensures ByLastUse(uses + [key]) == Without(ByLastUse(uses), key) + [key]
    ensures Distinct(ByLastUse(uses))
  {
    assert (uses + [key])[..|uses|] == uses;
    ByLastUseSpec(uses);
  }

  lemma DeliveredKeepsRecency(w: World, request: Request)
    requires Inv(w) && w.cache.maxEntries > 0
    requires w.cache.order == Newest(ByLastUse(w.uses), w.cache.maxEntries)
    ensures OnDelivered(w, request).cache.order == Newest(ByLastUse(OnDelivered(w, request).uses), w.cache.maxEntries)
  {
    TouchMoves(w.cache, request.key);
    ByLastUseGrows(w.uses, request.key);
    NewestAfterUse(ByLastUse(w.uses), request.key, w.cache.maxEntries);
  }

  lemma SettlesKeepsRecency(w: World, execution: nat)
    requires Inv(w) && w.cache.maxEntries > 0
    requires w.cache.order == Newest(ByLastUse(w.uses), w.cache.maxEntries)
    ensures OnSettles(w, execution).cache.order == Newest(ByLastUse(OnSettles(w, execution).uses), w.cache.maxEntries)
  {
    if execution < |w.executions| && AwaitsSettling(w.cache, w.executions[execution].key, execution) {
      var key := w.executions[execution].key;
      MovedKeepsShaped(w.cache, key);
      EvictOne(Moved(w.cache, key));
      ByLastUseGrows(w.uses, key);
      NewestAfterUse(ByLastUse(w.uses), key, w.cache.maxEntries);
    }
  }

  lemma StepKeepsRecency(w: World, e: Event)
    requires Inv(w) && w.cache.maxEntries > 0
    requires w.cache.order == Newest(ByLastUse(w.uses), w.cache.maxEntries)
    ensures Step(w, e).cache.order == Newest(ByLastUse(Step(w, e).uses), w.cache.maxEntries)
  {
    match e
    case Delivered(request) => DeliveredKeepsRecency(w, request);
    case Settles(execution) => SettlesKeepsRecency(w, execution);
    case _ =>
  }

  /** Moving another key to the end keeps `key` and what is behind it, with that key last. */
  lemma MovingAnother(before: seq<Key>, key: Key, behind: seq<Key>, last: Key)
    requires Distinct(before + [key] + behind) && last != key
    ensures Without(before + [key] + behind, last) + [last] == Without(before, last) + [key] + (Without(behind, last) + [last])
    ensures forall k :: k in Without(behind, last) + [last] <==> k in behind || k == last
  {
    ConcatDistinct(before + [key], behind);
    WithoutConcat(before + [key], behind, last);
    WithoutConcat(before, [key], last);
    WithoutSpec(behind, last);
    assert Without([key], last) == [key];
    Reassociate(Without(before, last) + [key], Without(behind, last), [last]);
  }

  /** `UsedSince` are the keys behind `key` in the order of last use. */
  lemma {:induction false} PositionByLastUse(uses: seq<Key>, key: Key) returns (before: seq<Key>, behind: seq<Key>)
    requires key in uses
    ensures ByLastUse(uses) == before + [key] + behind
    ensures forall k :: k in behind <==> k in UsedSince(uses, key)
  {
    var init, last := uses[..|uses| - 1], uses[|uses| - 1];
    assert uses == init + [last];
    ByLastUseSpec(init);
    if last == key {
      before, behind := Without(ByLastUse(init), last), [];
    } else {
      before, behind := PositionByLastUse(init, key);
      MovingAnother(before, key, behind, last);
      before, behind := Without(before, last), Without(behind, last) + [last];
    }
  }

  lemma {:induction false} DistinctCount(order: seq<Key>, keys: set<Key>)
    requires Distinct(order) && forall k :: k in order <==> k in keys
    ensures |keys| == |order|
  {
    if order != [] {
      DistinctCons(order[0], order[1..]);
      assert order == [order[0]] + order[1..];
      DistinctCount(order[1..], keys - {order[0]});
    } else {
      assert keys == {};
    }
  }

  /**
   When a settled mutation is delivered again, it runs again iff at least `maxEntries` other keys
   were stored or read since its own last use.
   */
  lemma RerunsIffDisplaced(maxEntries: nat, events: seq<Event>, request: Request)
    requires maxEntries > 0
    requires var w := Run(Initial(maxEntries), events);
             && w.cache.generation.Some? && request.key in w.uses && request.key !in w.cache.inFlight
    ensures var w := Run(Initial(maxEntries), events);
            |OnDelivered(w, request).executions| > |w.executions| <==> |UsedSince(w.uses, request.key)| >= maxEntries
  {
    var w := Run(Initial(maxEntries), events);
    EveryRunKeepsInv(maxEntries, events);
    SettledAreTheMostRecentlyUsed(maxEntries, events);
    var order := ByLastUse(w.uses);
    ByLastUseSpec(w.uses);
    var before, behind := PositionByLastUse(w.uses, request.key);
    ConcatDistinct(before + [request.key], behind);
    DistinctCount(behind, UsedSince(w.uses, request.key));
    NewestHolds(order, maxEntries, |before|);
  }

  lemma NewestHolds(order: seq<Key>, n: nat, i: nat)
    requires Distinct(order) && i < |order|
    ensures order[i] in Newest(order, n) <==> |order| - 1 - i < n
  {
    var newest := Newest(order, n);
    var skipped := |order| - |newest|;
    if |order| - 1 - i < n {
      assert newest[i - skipped] == order[i];
    } else {
      assert forall j :: 0 <= j < |newest| ==> newest[j] == order[skipped + j];
    }
  }

  // ---------------------------------------------------------------------------------------------
  // The maps that the program updates in place
  // ---------------------------------------------------------------------------------------------

  class CompanionRequestCache {
    const maxEntries: nat
    var inFlight: map<Key, Entry>
    var settled: map<Key, Entry>
    var order: seq<Key>
    var generation: Option<nat>

    function View(): Cache
      reads this
    {
      Cache(maxEntries, inFlight, settled, order, generation)
    }

    constructor (maxEntries: nat)
      requires maxEntries > 0
      ensures View() == Initial(maxEntries).cache
    {
      this.maxEntries := maxEntries;
      inFlight, settled, order, generation := map[], map[], [], None;
    }

    method ResolveRuntimeRequest(request: Request, execution: nat) returns (answer: Answer, starts: bool)
      modifies this
      ensures View() == Deliver(old(View()), request, execution)
      ensures answer == AnswerTo(old(View()), request, execution)
      ensures starts <==> request.key !in old(inFlight) && request.key !in old(settled)
    {
      var existing := Existing(View(), request.key);
      if existing.Some? {
        if existing.value.fingerprint != request.fingerprint {
          return Conflict, false;
        }
        if request.key in settled {
          var entry := settled[request.key];
          settled, order := settled - {request.key}, Without(order, request.key);
          settled, order := settled[request.key := entry], order + [request.key];
        }
        return Response(existing.value.execution), false;
      }
      if request.kind != Plain {
        var through := if request.kind == Candidate then generation else None;
        inFlight := inFlight[request.key := Entry(request.fingerprint, execution, through)];
      }
      return Response(execution), true;
    }

    method SettleEntry(key: Key, execution: nat)
      modifies this
      ensures View() == SettleRequest(old(View()), key, execution)
    {
      if key !in inFlight || inFlight[key].execution != execution {
        return;
      }
      var entry := inFlight[key];
      inFlight := inFlight - {key};
      order := if key in settled then order else order + [key];
      settled := settled[key := entry];
      while |order| > maxEntries && order != []
        invariant Evict(View()) == SettleRequest(old(View()), key, execution)
        decreases |order|
      {
        settled, order := settled - {order[0]}, order[1..];
      }
    }

    method ReleaseCurrentGeneration()
      modifies this
      ensures View() == Release(old(View()))
    {
      var current := generation;
      generation := None;
      if current.Some? {
        var remaining := inFlight.Keys;
        while remaining != {}
          invariant remaining <= old(inFlight).Keys
          invariant inFlight == map key | key in old(inFlight) && (key in remaining || old(inFlight)[key].generation != current) :: old(inFlight)[key]
          invariant View() == old(View()).(inFlight := inFlight, generation := None)
          decreases remaining
        {
          var key :| key in remaining;
          if inFlight[key].generation == current {
            inFlight := inFlight - {key};
          }
          remaining := remaining - {key};
        }
      }
    }
  }
}
