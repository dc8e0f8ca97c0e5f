/**
 Transport generations of the companion's relay bridge: what is sent on one connection, what counts
 as advertised, and which acknowledgements may trim the replay buffers
 (`packages/companion/src/relay-bridge-v11.ts`, lines 262-371, 423-439, 615-730, and
 `classifyRelayAck` in `packages/relay-protocol/src/index.ts`).
 */
module RelayBridge {
  import opened Wrappers
  import opened RelayFrameBuffer

  type WorkspaceId = nat

  /** One task of a generation's send queue. */
  datatype Item =
    | Announce
    | GapNotice(workspace: WorkspaceId, from: int, through: int)
    | FrameMessage(workspace: WorkspaceId, sequence: int)
    | Response

  /**
   `queue` holds every task ever enqueued, `settled` how many of them have finished, and `sending`
   whether the next one has called `transport.send`. `base` remembers, per workspace, what was
   acknowledged when the connection was made; the program keeps that only in the replay it sends.
   */
  datatype Generation = Generation(
    queue: seq<Item>,
    settled: nat,
    sending: bool,
    advertisedThrough: map<WorkspaceId, int>,
    base: map<WorkspaceId, int>)

  datatype Bridge = Bridge(
    workspaces: seq<WorkspaceId>,
    buffers: map<WorkspaceId, Buffer>,
    acknowledged: map<WorkspaceId, int>,
    generation: Option<Generation>,
    closed: bool)

  function GetOr(m: map<WorkspaceId, int>, key: WorkspaceId): int {
    if key in m then m[key] else -1
  }

  // ---------------------------------------------------------------------------------------------
  // Acknowledgement classification
  // ---------------------------------------------------------------------------------------------

  datatype AckDisposition = Advance | Duplicate | Invalid

  function ClassifyAck(acknowledgedThrough: int, advertisedThrough: int, incomingThrough: int): AckDisposition {
    if acknowledgedThrough < -1 || advertisedThrough < -1 || incomingThrough < -1 || incomingThrough > advertisedThrough
    then Invalid
    else if incomingThrough > acknowledgedThrough then Advance
    else Duplicate
  }

  // ---------------------------------------------------------------------------------------------
  // Steps
  // ---------------------------------------------------------------------------------------------

  datatype Event =
    | Append(workspace: WorkspaceId, body: Body, bytes: nat)
    | AppendOversized(workspace: WorkspaceId, body: Body, bytes: nat)
    | Connect
    | TaskStarts
    | TaskSettles(ok: bool)
    | TransportClosed
    | Ack(workspace: WorkspaceId, through: int)
    | Respond
    | Close

  function Enqueue(b: Bridge, item: Item): Bridge {
    match b.generation
    case None => b
    case Some(g) => b.(generation := Some(g.(queue := g.queue + [item])))
  }

  /** The items that replay one workspace: its gap, if any, and its retained frames. */
  function ReplayItems(workspace: WorkspaceId, buffer: Buffer, acknowledged: int): seq<Item> {
    match ReplayAfter(buffer, acknowledged)
    case Err(_) => []
    case Ok(replay) =>
      (if replay.gap.Some?
       then [GapNotice(workspace, replay.gap.value.fromRelaySequence, replay.gap.value.throughRelaySequence)]
       else [])
      + FrameItems(workspace, replay.frames)
  }

  function FrameItems(workspace: WorkspaceId, frames: seq<Frame>): seq<Item> {
    seq(|frames|, i requires 0 <= i < |frames| => FrameMessage(workspace, frames[i].relaySequence))
  }

  /** What connecting enqueues for one workspace. */
  function ItemsFor(workspace: WorkspaceId, buffers: map<WorkspaceId, Buffer>, acknowledged: map<WorkspaceId, int>): seq<Item> {
    if workspace in buffers then ReplayItems(workspace, buffers[workspace], GetOr(acknowledged, workspace)) else []
  }

  function ConnectItems(workspaces: seq<WorkspaceId>, buffers: map<WorkspaceId, Buffer>, acknowledged: map<WorkspaceId, int>): seq<Item> {
    if workspaces == [] then [Announce]
    else
      var last := workspaces[|workspaces| - 1];
      ConnectItems(workspaces[..|workspaces| - 1], buffers, acknowledged) + ItemsFor(last, buffers, acknowledged)
  }

  function NewGeneration(b: Bridge): Generation {
    Generation(
      ConnectItems(b.workspaces, b.buffers, b.acknowledged), 0, false, map[],
      map workspace | workspace in b.workspaces :: GetOr(b.acknowledged, workspace))
  }

  function MarkAdvertised(advertised: map<WorkspaceId, int>, workspace: WorkspaceId, sequence: int): map<WorkspaceId, int> {
    var current := GetOr(advertised, workspace);
    advertised[workspace := if sequence > current then sequence else current]
  }

  function MarkItem(advertised: map<WorkspaceId, int>, item: Item): map<WorkspaceId, int> {
    match item
    case GapNotice(workspace, _, through) => MarkAdvertised(advertised, workspace, through)
    case FrameMessage(workspace, sequence) => MarkAdvertised(advertised, workspace, sequence)
    case _ => advertised
  }

  /** The head task finished sending: what it carried is advertised from now on. */
  function Settled(g: Generation): Generation
    requires g.settled < |g.queue|
  {
    g.(settled := g.settled + 1, sending := false, advertisedThrough := MarkItem(g.advertisedThrough, g.queue[g.settled]))
  }

  function OnAppend(b: Bridge, workspace: WorkspaceId, body: Body, bytes: nat): Bridge {
    if workspace !in b.buffers then b
    else
      var before := b.buffers[workspace];
      Enqueue(b.(buffers := b.buffers[workspace := RelayFrameBuffer.Append(before, body, bytes)]),
              FrameMessage(workspace, before.nextSequence))
  }

  function OnConnect(b: Bridge): Bridge {
    if b.closed then b else b.(generation := Some(NewGeneration(b)))
  }

  function OnTaskStarts(b: Bridge): Bridge {
    match b.generation
    case None => b
    case Some(g) => if g.settled < |g.queue| then b.(generation := Some(g.(sending := true))) else b
  }

  function OnTaskSettles(b: Bridge, ok: bool): Bridge {
    match b.generation
    case None => b
    case Some(g) =>
      if !g.sending || g.settled >= |g.queue| then b
      else if !ok then b.(generation := None)
      else b.(generation := Some(Settled(g)))
  }

  function AdvertisedThrough(b: Bridge, workspace: WorkspaceId): int {
    match b.generation
    case None => -1
    case Some(g) => GetOr(g.advertisedThrough, workspace)
  }

  function OnAck(b: Bridge, workspace: WorkspaceId, through: int): Bridge {
    if b.generation.None? || workspace !in b.buffers then b
    else if ClassifyAck(GetOr(b.acknowledged, workspace), AdvertisedThrough(b, workspace), through) != Advance then b
    else
      match Acknowledge(b.buffers[workspace], through)
      case Err(_) => b
      case Ok(trimmed) =>
        b.(acknowledged := b.acknowledged[workspace := through], buffers := b.buffers[workspace := trimmed])
  }

  function Step(b: Bridge, e: Event): Bridge {
    match e
    case Append(workspace, body, bytes) => OnAppend(b, workspace, body, bytes)
    case AppendOversized(workspace, body, bytes) => OnAppend(b.(generation := None), workspace, body, bytes)
    case Connect => OnConnect(b)
    case TaskStarts => OnTaskStarts(b)
    case TaskSettles(ok) => OnTaskSettles(b, ok)
    case TransportClosed => b.(generation := None)
    case Ack(workspace, through) => OnAck(b, workspace, through)
    case Respond => Enqueue(b, Response)
    case Close => b.(closed := true, generation := None)
  }

  function Run(b: Bridge, events: seq<Event>): Bridge {
    if events == [] then b else Step(Run(b, events[..|events| - 1]), events[|events| - 1])
  }

  function Initial(workspaces: seq<WorkspaceId>, maxEvents: nat, maxBytes: nat): Bridge {
    Bridge(workspaces, map workspace | workspace in workspaces :: Empty(maxEvents, maxBytes), map[], None, false)
  }

  // ---------------------------------------------------------------------------------------------
  // One contiguous run per workspace
  // ---------------------------------------------------------------------------------------------

  predicate Concerns(item: Item, workspace: WorkspaceId) {
    (item.GapNotice? || item.FrameMessage?) && item.workspace == workspace
  }

  /** The sequenced items of one workspace, in queue order. */
  function Of(workspace: WorkspaceId, queue: seq<Item>): (items: seq<Item>)
    ensures forall i :: 0 <= i < |items| ==> Concerns(items[i], workspace)
  {
    if queue == [] then []
    else
      var items := Of(workspace, queue[..|queue| - 1]);
      if Concerns(queue[|queue| - 1], workspace) then items + [queue[|queue| - 1]] else items
  }

  function First(item: Item): int
    requires item.GapNotice? || item.FrameMessage?
  {
    if item.GapNotice? then item.from else item.sequence
  }

  function Last(item: Item): int
    requires item.GapNotice? || item.FrameMessage?
  {
    if item.GapNotice? then item.through else item.sequence
  }

  /** The items cover the sequence numbers after `low` up to `high`, each once, in order. */
  ghost predicate Chain(items: seq<Item>, low: int, high: int) {
    if items == [] then low == high
    else
      var last := items[|items| - 1];
      && (last.GapNotice? || last.FrameMessage?)
      && First(last) <= Last(last) == high
      && Chain(items[..|items| - 1], low, First(last) - 1)
  }

  lemma {:induction false} OfSplits(workspace: WorkspaceId, a: seq<Item>, b: seq<Item>)
    ensures Of(workspace, a + b) == Of(workspace, a) + Of(workspace, b)
  {
    if b == [] {
      assert a + b == a;
    } else {
      assert (a + b)[..|a + b| - 1] == a + b[..|b| - 1];
      OfSplits(workspace, a, b[..|b| - 1]);
    }
  }

  lemma {:induction false} OfAll(workspace: WorkspaceId, items: seq<Item>)
    requires forall i :: 0 <= i < |items| ==> Concerns(items[i], workspace)
    ensures Of(workspace, items) == items
  {
    if items != [] {
      OfAll(workspace, items[..|items| - 1]);
    }
  }

  lemma {:induction false} OfNone(workspace: WorkspaceId, items: seq<Item>)
    requires forall i :: 0 <= i < |items| ==> !Concerns(items[i], workspace)
    ensures Of(workspace, items) == []
  {
    if items != [] {
      OfNone(workspace, items[..|items| - 1]);
    }
  }

  lemma {:induction false} ChainGrows(items: seq<Item>, low: int, high: int)
    requires Chain(items, low, high)
    ensures low <= high
  {
    if items != [] {
      ChainGrows(items[..|items| - 1], low, First(items[|items| - 1]) - 1);
    }
  }

  lemma {:induction false} ChainSplits(a: seq<Item>, b: seq<Item>, low: int, high: int) returns (middle: int)
    requires Chain(a + b, low, high)
    ensures Chain(a, low, middle) && Chain(b, middle, high)
    decreases |b|
  {
    if b == [] {
      assert a + b == a;
      middle := high;
    } else {
      var last := b[|b| - 1];
      assert (a + b)[|a + b| - 1] == last;
      assert (a + b)[..|a + b| - 1] == a + b[..|b| - 1];
      middle := ChainSplits(a, b[..|b| - 1], low, First(last) - 1);
    }
  }

  /** Everything in a chain's interval is carried by one of its items. */
  lemma {:induction false} ChainCovers(items: seq<Item>, low: int, high: int, n: int)
    requires Chain(items, low, high) && low < n <= high
    ensures exists i :: && 0 <= i < |items| && (items[i].GapNotice? || items[i].FrameMessage?)
                        && First(items[i]) <= n <= Last(items[i])
  {
    var last := items[|items| - 1];
    if n < First(last) {
      ChainCovers(items[..|items| - 1], low, First(last) - 1, n);
    }
  }

  // ---------------------------------------------------------------------------------------------
  // The invariant
  // ---------------------------------------------------------------------------------------------

  ghost predicate WorkspaceOk(b: Bridge, workspace: WorkspaceId)
    requires workspace in b.buffers
  {
    && Valid(b.buffers[workspace])
    && -1 <= GetOr(b.acknowledged, workspace) <= b.buffers[workspace].droppedThroughSequence
  }

  /** The part of a workspace's run that has been sent. */
  function Sent(g: Generation, workspace: WorkspaceId): seq<Item>
    requires g.settled <= |g.queue|
  {
    Of(workspace, g.queue[..g.settled])
  }

  /** What one connection has enqueued, sent and advertised for one workspace. */
  ghost predicate RunOk(g: Generation, workspace: WorkspaceId, highest: int, acknowledged: int) {
    && g.settled <= |g.queue|
    && workspace in g.base && -1 <= g.base[workspace] <= acknowledged
    && Chain(Of(workspace, g.queue), g.base[workspace], highest)
    && (if Sent(g, workspace) == [] then GetOr(g.advertisedThrough, workspace) == -1
        else Chain(Sent(g, workspace), g.base[workspace], GetOr(g.advertisedThrough, workspace)))
  }

  ghost predicate GenerationOk(b: Bridge, g: Generation, workspace: WorkspaceId)
    requires workspace in b.buffers
  {
    RunOk(g, workspace, Highest(b.buffers[workspace]), GetOr(b.acknowledged, workspace))
  }

  ghost predicate BuffersOk(b: Bridge) {
    forall w :: w in b.buffers ==> WorkspaceOk(b, w)
  }

  ghost predicate RunsOk(b: Bridge) {
    b.generation.Some? ==> forall w :: w in b.buffers ==> GenerationOk(b, b.generation.value, w)
  }

  ghost predicate Inv(b: Bridge) {
    && Distinct(b.workspaces)
    && (forall w :: w in b.buffers <==> w in b.workspaces)
    && BuffersOk(b)
    && RunsOk(b)
  }

  lemma FrameItemsChain(workspace: WorkspaceId, frames: seq<Frame>, low: int)
    requires forall i :: 0 <= i < |frames| ==> frames[i].relaySequence == low + 1 + i
    ensures Chain(FrameItems(workspace, frames), low, low + |frames|)
    decreases |frames|
  {
    if frames != [] {
      FrameItemsChain(workspace, frames[..|frames| - 1], low);
      assert FrameItems(workspace, frames)[..|frames| - 1] == FrameItems(workspace, frames[..|frames| - 1]);
    }
  }

  lemma {:induction false} ChainAppends(a: seq<Item>, b: seq<Item>, low: int, middle: int, high: int)
    requires Chain(a, low, middle) && Chain(b, middle, high)
    ensures Chain(a + b, low, high)
    decreases |b|
  {
    if b == [] {
      assert a + b == a;
    } else {
      var last := b[|b| - 1];
      assert (a + b)[..|a + b| - 1] == a + b[..|b| - 1];
      ChainAppends(a, b[..|b| - 1], low, middle, First(last) - 1);
    }
  }

  lemma FramesAfterDropped(buffer: Buffer, acknowledged: int)
    requires Valid(buffer) && -1 <= acknowledged <= buffer.droppedThroughSequence
    ensures var frames := FramesAfter(buffer.entries, acknowledged);
            && buffer.droppedThroughSequence + |frames| == Highest(buffer)
            && forall i :: 0 <= i < |frames| ==> frames[i].relaySequence == buffer.droppedThroughSequence + 1 + i
  {
    FramesAfterSpec(buffer.entries, buffer.nextSequence - |buffer.entries|, acknowledged);
  }

  /** The replay of a workspace is one run from its acknowledged mark to its highest sequence. */
  lemma ReplayItemsChain(workspace: WorkspaceId, buffer: Buffer, acknowledged: int)
    requires Valid(buffer) && -1 <= acknowledged <= buffer.droppedThroughSequence
    ensures var items := ReplayItems(workspace, buffer, acknowledged);
            Chain(items, acknowledged, Highest(buffer))
  {
    FramesAfterDropped(buffer, acknowledged);
    ReplayChain(workspace, FramesAfter(buffer.entries, acknowledged), acknowledged, buffer.droppedThroughSequence);
  }

  lemma ReplayChain(workspace: WorkspaceId, frames: seq<Frame>, acknowledged: int, dropped: int)
    requires acknowledged <= dropped
    requires forall i :: 0 <= i < |frames| ==> frames[i].relaySequence == dropped + 1 + i
    ensures var notice := if acknowledged < dropped then [GapNotice(workspace, acknowledged + 1, dropped)] else [];
            Chain(notice + FrameItems(workspace, frames), acknowledged, dropped + |frames|)
  {
    FrameItemsChain(workspace, frames, dropped);
    if acknowledged < dropped {
      var gap := [GapNotice(workspace, acknowledged + 1, dropped)];
      assert gap[..0] == [];
      assert Chain(gap, acknowledged, dropped);
      ChainAppends(gap, FrameItems(workspace, frames), acknowledged, dropped, dropped + |frames|);
    } else {
      assert [] + FrameItems(workspace, frames) == FrameItems(workspace, frames);
    }
  }

  lemma ReplayItemsConcern(workspace: WorkspaceId, buffer: Buffer, acknowledged: int)
    ensures forall i :: 0 <= i < |ReplayItems(workspace, buffer, acknowledged)| ==>
                          Concerns(ReplayItems(workspace, buffer, acknowledged)[i], workspace)
  {
  }

  lemma ItemsForConcern(other: WorkspaceId, buffers: map<WorkspaceId, Buffer>, acknowledged: map<WorkspaceId, int>, workspace: WorkspaceId)
    ensures Of(workspace, ItemsFor(other, buffers, acknowledged)) ==
            if other == workspace then ItemsFor(workspace, buffers, acknowledged) else []
  {
    var items := ItemsFor(other, buffers, acknowledged);
    if other in buffers {
      ReplayItemsConcern(other, buffers[other], GetOr(acknowledged, other));
    }
    if other == workspace {
      OfAll(workspace, items);
    } else {
      OfNone(workspace, items);
    }
  }

  lemma {:induction false} ConnectItemsOf(workspaces: seq<WorkspaceId>, buffers: map<WorkspaceId, Buffer>, acknowledged: map<WorkspaceId, int>, workspace: WorkspaceId)
    requires Distinct(workspaces)
    ensures Of(workspace, ConnectItems(workspaces, buffers, acknowledged)) ==
            if workspace in workspaces then ItemsFor(workspace, buffers, acknowledged) else []
  {
    if workspaces == [] {
      OfNone(workspace, [Announce]);
    } else {
      var init, last := workspaces[..|workspaces| - 1], workspaces[|workspaces| - 1];
      DistinctInit(workspaces, workspace);
      ConnectItemsOf(init, buffers, acknowledged, workspace);
      OfSplits(workspace, ConnectItems(init, buffers, acknowledged), ItemsFor(last, buffers, acknowledged));
      ItemsForConcern(last, buffers, acknowledged, workspace);
      EmptyIsNeutral(ItemsFor(workspace, buffers, acknowledged));
    }
  }

  ghost predicate Distinct(workspaces: seq<WorkspaceId>) {
    forall i, j :: 0 <= i < j < |workspaces| ==> workspaces[i] != workspaces[j]
  }

  lemma DistinctInit(workspaces: seq<WorkspaceId>, workspace: WorkspaceId)
    requires workspaces != [] && Distinct(workspaces)
    ensures Distinct(workspaces[..|workspaces| - 1])
    ensures workspaces[|workspaces| - 1] !in workspaces[..|workspaces| - 1]
    ensures workspace in workspaces <==> workspace in workspaces[..|workspaces| - 1] || workspace == workspaces[|workspaces| - 1]
  {
  }

  lemma EmptyIsNeutral(items: seq<Item>)
    ensures items + [] == items && [] + items == items
  {
  }

  lemma ConnectedRunOk(b: Bridge, workspace: WorkspaceId)
    requires Distinct(b.workspaces)
    requires workspace in b.workspaces && workspace in b.buffers && WorkspaceOk(b, workspace)
    ensures GenerationOk(b, NewGeneration(b), workspace)
  {
    var g := NewGeneration(b);
    assert g.queue[..0] == [];
    ConnectItemsOf(b.workspaces, b.buffers, b.acknowledged, workspace);
    ReplayItemsChain(workspace, b.buffers[workspace], GetOr(b.acknowledged, workspace));
  }

  lemma ConnectKeepsInv(b: Bridge)
    requires Inv(b)
    ensures Inv(OnConnect(b))
  {
    if !b.closed {
      var after := OnConnect(b);
      forall w | w in b.buffers ensures GenerationOk(after, NewGeneration(b), w) && WorkspaceOk(after, w) {
        assert WorkspaceOk(b, w);
        ConnectedRunOk(b, w);
      }
    }
  }

  /** Enqueuing changes one workspace's run at its end only. */
  lemma EnqueueSplits(g: Generation, item: Item, workspace: WorkspaceId)
    requires g.settled <= |g.queue|
    ensures Of(workspace, g.queue + [item]) ==
            if Concerns(item, workspace) then Of(workspace, g.queue) + [item] else Of(workspace, g.queue)
    ensures (g.queue + [item])[..g.settled] == g.queue[..g.settled]
  {
    assert (g.queue + [item])[..|g.queue|] == g.queue;
  }

  lemma EnqueueFrameExtendsRun(g: Generation, workspace: WorkspaceId, highest: int, acknowledged: int)
    requires RunOk(g, workspace, highest, acknowledged)
    ensures RunOk(g.(queue := g.queue + [FrameMessage(workspace, highest + 1)]), workspace, highest + 1, acknowledged)
  {
    var item := FrameMessage(workspace, highest + 1);
    EnqueueSplits(g, item, workspace);
    ChainSnoc(Of(workspace, g.queue), g.base[workspace], highest, item);
    SentStays(g, item, workspace);
  }

  lemma SentStays(g: Generation, item: Item, workspace: WorkspaceId)
    requires g.settled <= |g.queue|
    ensures Sent(g.(queue := g.queue + [item]), workspace) == Sent(g, workspace)
  {
    assert (g.queue + [item])[..g.settled] == g.queue[..g.settled];
  }

  lemma ChainSnoc(items: seq<Item>, low: int, high: int, item: Item)
    requires Chain(items, low, high)
    requires item.FrameMessage? && item.sequence == high + 1
    ensures Chain(items + [item], low, high + 1)
  {
    assert (items + [item])[..|items|] == items;
  }

  lemma EnqueueOtherKeepsRun(g: Generation, item: Item, workspace: WorkspaceId, highest: int, acknowledged: int)
    requires RunOk(g, workspace, highest, acknowledged) && !Concerns(item, workspace)
    ensures RunOk(g.(queue := g.queue + [item]), workspace, highest, acknowledged)
  {
    EnqueueSplits(g, item, workspace);
    SentStays(g, item, workspace);
  }

  lemma AppendKeepsInv(b: Bridge, workspace: WorkspaceId, body: Body, bytes: nat)
    requires Inv(b)
    ensures Inv(OnAppend(b, workspace, body, bytes))
  {
    if workspace in b.buffers {
      assert WorkspaceOk(b, workspace);
      AppendKeepsMark(b.buffers[workspace], body, bytes);
      GrownBufferKeepsInv(b, workspace, RelayFrameBuffer.Append(b.buffers[workspace], body, bytes));
    }
  }

  lemma GrownBufferKeepsInv(b: Bridge, workspace: WorkspaceId, grown: Buffer)
    requires Inv(b) && workspace in b.buffers
    requires Valid(grown) && Highest(grown) == Highest(b.buffers[workspace]) + 1
    requires grown.droppedThroughSequence >= b.buffers[workspace].droppedThroughSequence
    ensures Inv(Enqueue(b.(buffers := b.buffers[workspace := grown]), FrameMessage(workspace, Highest(grown))))
  {
    GrownBuffersOk(b, workspace, grown);
    GrownRunsOk(b, workspace, grown);
  }

  lemma GrownBuffersOk(b: Bridge, workspace: WorkspaceId, grown: Buffer)
    requires BuffersOk(b) && workspace in b.buffers && Valid(grown)
    requires grown.droppedThroughSequence >= b.buffers[workspace].droppedThroughSequence
    ensures BuffersOk(Enqueue(b.(buffers := b.buffers[workspace := grown]), FrameMessage(workspace, Highest(grown))))
  {
    var after := Enqueue(b.(buffers := b.buffers[workspace := grown]), FrameMessage(workspace, Highest(grown)));
    forall w | w in after.buffers ensures WorkspaceOk(after, w) {
      assert WorkspaceOk(b, w);
    }
  }

  lemma GrownRunsOk(b: Bridge, workspace: WorkspaceId, grown: Buffer)
    requires RunsOk(b) && workspace in b.buffers
    requires Highest(grown) == Highest(b.buffers[workspace]) + 1
    ensures RunsOk(Enqueue(b.(buffers := b.buffers[workspace := grown]), FrameMessage(workspace, Highest(grown))))
  {
    var item := FrameMessage(workspace, Highest(grown));
    var after := Enqueue(b.(buffers := b.buffers[workspace := grown]), item);
    if b.generation.Some? {
      forall w | w in after.buffers ensures GenerationOk(after, after.generation.value, w) {
        assert GenerationOk(b, b.generation.value, w);
        EnqueuedRunOk(b, workspace, item, w);
      }
    }
  }

  lemma EnqueuedRunOk(b: Bridge, workspace: WorkspaceId, item: Item, w: WorkspaceId)
    requires b.generation.Some? && workspace in b.buffers && w in b.buffers
    requires item == FrameMessage(workspace, Highest(b.buffers[workspace]) + 1)
    requires GenerationOk(b, b.generation.value, w)
    ensures RunOk(b.generation.value.(queue := b.generation.value.queue + [item]), w,
                  if w == workspace then Highest(b.buffers[w]) + 1 else Highest(b.buffers[w]),
                  GetOr(b.acknowledged, w))
  {
    if w == workspace {
      EnqueueFrameExtendsRun(b.generation.value, w, Highest(b.buffers[w]), GetOr(b.acknowledged, w));
    } else {
      EnqueueOtherKeepsRun(b.generation.value, item, w, Highest(b.buffers[w]), GetOr(b.acknowledged, w));
    }
  }

  lemma AppendKeepsMark(buffer: Buffer, body: Body, bytes: nat)
    requires Valid(buffer)
    ensures var after := RelayFrameBuffer.Append(buffer, body, bytes);
            && Valid(after)
            && Highest(after) == Highest(buffer) + 1
            && after.droppedThroughSequence >= buffer.droppedThroughSequence
  {
    AppendKeepsValid(buffer, body, bytes);
  }

  lemma RespondKeepsInv(b: Bridge)
    requires Inv(b)
    ensures Inv(Enqueue(b, Response))
  {
    var after := Enqueue(b, Response);
    forall w | w in b.buffers ensures WorkspaceOk(after, w) {
      assert WorkspaceOk(b, w);
    }
    if b.generation.Some? {
      forall w | w in b.buffers ensures GenerationOk(after, after.generation.value, w) {
        assert GenerationOk(b, b.generation.value, w);
        EnqueueOtherKeepsRun(b.generation.value, Response, w, Highest(b.buffers[w]), GetOr(b.acknowledged, w));
      }
    }
  }

  /** The settled part of a run is a run, and what is advertised lies within it. */
  lemma AdvertisedWithinRun(g: Generation, workspace: WorkspaceId, highest: int, acknowledged: int)
    requires RunOk(g, workspace, highest, acknowledged)
    ensures -1 <= GetOr(g.advertisedThrough, workspace) <= highest
    ensures Sent(g, workspace) != [] ==> g.base[workspace] < GetOr(g.advertisedThrough, workspace)
  {
    var sent, unsent := Sent(g, workspace), Of(workspace, g.queue[g.settled..]);
    assert g.queue == g.queue[..g.settled] + g.queue[g.settled..];
    OfSplits(workspace, g.queue[..g.settled], g.queue[g.settled..]);
    ChainGrows(Of(workspace, g.queue), g.base[workspace], highest);
    if sent != [] {
      var middle := ChainSplits(sent, unsent, g.base[workspace], highest);
      ChainEnd(sent, g.base[workspace], middle, GetOr(g.advertisedThrough, workspace));
      ChainGrows(unsent, middle, highest);
      ChainGrows(sent[..|sent| - 1], g.base[workspace], First(sent[|sent| - 1]) - 1);
    }
  }

  lemma ChainEnd(items: seq<Item>, low: int, high: int, other: int)
    requires items != [] && Chain(items, low, high) && Chain(items, low, other)
    ensures high == other
  {
  }

  lemma SettleExtendsRun(g: Generation, workspace: WorkspaceId, highest: int, acknowledged: int)
    requires RunOk(g, workspace, highest, acknowledged) && g.settled < |g.queue|
    ensures RunOk(Settled(g), workspace, highest, acknowledged)
  {
    var item := g.queue[g.settled];
    var prefix := g.queue[..g.settled + 1];
    assert prefix[..g.settled] == g.queue[..g.settled];
    if Concerns(item, workspace) {
      SettleOwnItem(g, workspace, highest, acknowledged);
    } else {
      assert Of(workspace, prefix) == Sent(g, workspace);
    }
  }

  /** What is sent with the next item is a chain from where the run began. */
  lemma SentIsChain(g: Generation, workspace: WorkspaceId, highest: int) returns (middle: int)
    requires g.settled < |g.queue| && workspace in g.base && Chain(Of(workspace, g.queue), g.base[workspace], highest)
    ensures Chain(Of(workspace, g.queue[..g.settled + 1]), g.base[workspace], middle)
  {
    var prefix, suffix := g.queue[..g.settled + 1], g.queue[g.settled + 1..];
    assert g.queue == prefix + suffix;
    OfSplits(workspace, prefix, suffix);
    middle := ChainSplits(Of(workspace, prefix), Of(workspace, suffix), g.base[workspace], highest);
  }

  lemma SettleOwnItem(g: Generation, workspace: WorkspaceId, highest: int, acknowledged: int)
    requires RunOk(g, workspace, highest, acknowledged) && g.settled < |g.queue|
    requires Concerns(g.queue[g.settled], workspace)
    ensures Sent(Settled(g), workspace) != []
    ensures Chain(Sent(Settled(g), workspace), g.base[workspace], GetOr(Settled(g).advertisedThrough, workspace))
  {
    var more := Of(workspace, g.queue[..g.settled + 1]);
    assert more == Sent(g, workspace) + [g.queue[g.settled]] by {
      assert g.queue[..g.settled + 1][..g.settled] == g.queue[..g.settled];
    }
    var middle := SentIsChain(g, workspace, highest);
    SnocIsAdvertised(g.advertisedThrough, Sent(g, workspace), g.queue[g.settled], workspace, g.base[workspace], middle);
  }

  /** An item that goes on from what is advertised advertises its last number. */
  lemma SnocIsAdvertised(advertised: map<WorkspaceId, int>, sent: seq<Item>, item: Item, workspace: WorkspaceId, low: int, high: int)
    requires Concerns(item, workspace) && Chain(sent + [item], low, high) && low >= -1
    requires if sent == [] then GetOr(advertised, workspace) == -1 else Chain(sent, low, GetOr(advertised, workspace))
    ensures Chain(sent + [item], low, GetOr(MarkItem(advertised, item), workspace))
  {
    assert (sent + [item])[..|sent|] == sent;
    ChainGrows(sent, low, First(item) - 1);
    if sent != [] {
      ChainEnd(sent, low, First(item) - 1, GetOr(advertised, workspace));
    }
    assert GetOr(MarkItem(advertised, item), workspace) == Last(item) == high;
  }

  lemma TaskSettlesKeepsInv(b: Bridge, ok: bool)
    requires Inv(b)
    ensures Inv(OnTaskSettles(b, ok))
  {
    var after := OnTaskSettles(b, ok);
    forall w | w in b.buffers ensures WorkspaceOk(after, w) {
      assert WorkspaceOk(b, w);
    }
    if ok && b.generation.Some? && b.generation.value.sending && b.generation.value.settled < |b.generation.value.queue| {
      forall w | w in b.buffers ensures GenerationOk(after, after.generation.value, w) {
        assert GenerationOk(b, b.generation.value, w);
        SettleExtendsRun(b.generation.value, w, Highest(b.buffers[w]), GetOr(b.acknowledged, w));
      }
    }
  }

  lemma DropThroughKeepsLater(buffer: Buffer, through: int)
    requires Valid(buffer) && through <= Highest(buffer)
    ensures forall e :: e in buffer.entries && e.frame.relaySequence > through ==> e in DropThrough(buffer, through).entries
  {
    DropThroughSpec(buffer, through);
    var after := DropThrough(buffer, through);
    forall e | e in buffer.entries && e.frame.relaySequence > through ensures e in after.entries {
      var i :| 0 <= i < |buffer.entries| && buffer.entries[i] == e;
      assert e == after.entries[i - (|buffer.entries| - |after.entries|)];
    }
  }

  /**
   An acknowledgement takes effect iff it lies strictly above what was acknowledged and at most at
   what this connection advertised; then it trims no frame that was not advertised.
   */
  lemma AckAdvancesWithinAdvertised(b: Bridge, workspace: WorkspaceId, through: int)
    requires Inv(b) && b.generation.Some? && workspace in b.buffers
    ensures var after := OnAck(b, workspace, through);
            && (after != b <==> GetOr(b.acknowledged, workspace) < through <= AdvertisedThrough(b, workspace))
            && (after != b ==>
                  && GetOr(after.acknowledged, workspace) == through
                  && through <= AdvertisedThrough(b, workspace) <= Highest(b.buffers[workspace]))
            && (forall e :: e in b.buffers[workspace].entries && e.frame.relaySequence > AdvertisedThrough(b, workspace) ==>
                  e in after.buffers[workspace].entries)
  {
    var buffer := b.buffers[workspace];
    assert WorkspaceOk(b, workspace) && GenerationOk(b, b.generation.value, workspace);
    AdvertisedWithinRun(b.generation.value, workspace, Highest(buffer), GetOr(b.acknowledged, workspace));
    if GetOr(b.acknowledged, workspace) < through <= AdvertisedThrough(b, workspace) {
      DropThroughKeepsLater(buffer, through);
      var after := b.(acknowledged := b.acknowledged[workspace := through],
                      buffers := b.buffers[workspace := DropThrough(buffer, through)]);
      assert OnAck(b, workspace, through) == after;
      assert after.acknowledged[workspace] == through;
    }
  }

  lemma AckKeepsRun(g: Generation, workspace: WorkspaceId, highest: int, acknowledged: int, later: int)
    requires RunOk(g, workspace, highest, acknowledged) && acknowledged <= later
    ensures RunOk(g, workspace, highest, later)
  {
  }

  lemma AckKeepsBuffers(b: Bridge, workspace: WorkspaceId, through: int)
    requires Inv(b) && workspace in b.buffers && GetOr(b.acknowledged, workspace) < through <= Highest(b.buffers[workspace])
    ensures var after := Acked(b, workspace, through); forall w :: w in after.buffers ==> WorkspaceOk(after, w)
  {
    var after := Acked(b, workspace, through);
    assert WorkspaceOk(b, workspace);
    DropThroughSpec(b.buffers[workspace], through);
    forall w | w in after.buffers ensures WorkspaceOk(after, w) {
      assert WorkspaceOk(b, w);
    }
  }

  lemma AckKeepsRuns(b: Bridge, workspace: WorkspaceId, through: int)
    requires Inv(b) && workspace in b.buffers && GetOr(b.acknowledged, workspace) < through <= Highest(b.buffers[workspace])
    requires b.generation.Some?
    ensures var after := Acked(b, workspace, through); forall w :: w in after.buffers ==> GenerationOk(after, b.generation.value, w)
  {
    var after := Acked(b, workspace, through);
    assert WorkspaceOk(b, workspace);
    DropThroughSpec(b.buffers[workspace], through);
    forall w | w in after.buffers ensures GenerationOk(after, b.generation.value, w) {
      assert GenerationOk(b, b.generation.value, w);
      AckKeepsRun(b.generation.value, w, Highest(b.buffers[w]), GetOr(b.acknowledged, w), GetOr(after.acknowledged, w));
    }
  }

  /** The bridge after an acknowledgement took effect. */
  function Acked(b: Bridge, workspace: WorkspaceId, through: int): Bridge
    requires workspace in b.buffers
  {
    b.(acknowledged := b.acknowledged[workspace := through],
       buffers := b.buffers[workspace := DropThrough(b.buffers[workspace], through)])
  }

  lemma AckKeepsInv(b: Bridge, workspace: WorkspaceId, through: int)
    requires Inv(b)
    ensures Inv(OnAck(b, workspace, through))
  {
    if b.generation.Some? && workspace in b.buffers && OnAck(b, workspace, through) != b {
      AckAdvancesWithinAdvertised(b, workspace, through);
      assert OnAck(b, workspace, through) == Acked(b, workspace, through);
      AckKeepsBuffers(b, workspace, through);
      AckKeepsRuns(b, workspace, through);
    }
  }

  lemma SameButGenerationKeepsInv(b: Bridge, after: Bridge)
    requires Inv(b)
    requires after == b.(generation := after.generation, closed := after.closed)
    requires after.generation.Some? ==>
               && b.generation.Some?
               && after.generation.value == b.generation.value.(sending := after.generation.value.sending)
    ensures Inv(after)
  {
    forall w | w in b.buffers ensures WorkspaceOk(after, w) {
      assert WorkspaceOk(b, w);
    }
    if after.generation.Some? {
      forall w | w in b.buffers ensures GenerationOk(after, after.generation.value, w) {
        assert GenerationOk(b, b.generation.value, w);
      }
    }
  }

  lemma StepKeepsInv(b: Bridge, e: Event)
    requires Inv(b)
    ensures Inv(Step(b, e))
  {
    match e
    case Append(workspace, body, bytes) => AppendKeepsInv(b, workspace, body, bytes);
    case AppendOversized(workspace, body, bytes) =>
      SameButGenerationKeepsInv(b, b.(generation := None));
      AppendKeepsInv(b.(generation := None), workspace, body, bytes);
    case Connect => ConnectKeepsInv(b);
    case TaskStarts => SameButGenerationKeepsInv(b, OnTaskStarts(b));
    case TaskSettles(ok) => TaskSettlesKeepsInv(b, ok);
    case TransportClosed => SameButGenerationKeepsInv(b, b.(generation := None));
    case Ack(workspace, through) => AckKeepsInv(b, workspace, through);
    case Respond => RespondKeepsInv(b);
    case Close => SameButGenerationKeepsInv(b, b.(closed := true, generation := None));
  }

  // ---------------------------------------------------------------------------------------------
  // Main results
  // ---------------------------------------------------------------------------------------------

  lemma {:induction false} EveryRunKeepsInv(workspaces: seq<WorkspaceId>, maxEvents: nat, maxBytes: nat, events: seq<Event>)
    requires maxEvents > 0 && maxBytes > 0
    requires Distinct(workspaces)
    ensures Inv(Run(Initial(workspaces, maxEvents, maxBytes), events))
  {
    if events == [] {
      var b := Initial(workspaces, maxEvents, maxBytes);
      forall w | w in b.buffers ensures WorkspaceOk(b, w) {
        assert b.buffers[w] == Empty(maxEvents, maxBytes);
      }
    } else {
      EveryRunKeepsInv(workspaces, maxEvents, maxBytes, events[..|events| - 1]);
      StepKeepsInv(Run(Initial(workspaces, maxEvents, maxBytes), events[..|events| - 1]), events[|events| - 1]);
    }
  }

  /**
   On every connection, the frames and gap notices of a workspace - replayed ones and those appended
   while connected - form one run that starts right after the mark acknowledged at connect time and
   ends at the highest sequence; the part already sent ends at the advertised mark.
   */
  lemma OneRunPerConnection(workspaces: seq<WorkspaceId>, maxEvents: nat, maxBytes: nat, events: seq<Event>, workspace: WorkspaceId)
    requires maxEvents > 0 && maxBytes > 0 && workspace in workspaces
    requires Distinct(workspaces)
    requires Run(Initial(workspaces, maxEvents, maxBytes), events).generation.Some?
    ensures var b := Run(Initial(workspaces, maxEvents, maxBytes), events);
            var g := b.generation.value;
            && workspace in b.buffers && workspace in g.base && g.settled <= |g.queue|
            && Chain(Of(workspace, g.queue), g.base[workspace], Highest(b.buffers[workspace]))
            && (Sent(g, workspace) != [] ==> Chain(Sent(g, workspace), g.base[workspace], AdvertisedThrough(b, workspace)))
            && AdvertisedThrough(b, workspace) <= Highest(b.buffers[workspace])
  {
    EveryRunKeepsInv(workspaces, maxEvents, maxBytes, events);
    RunKeepsWorkspaces(Initial(workspaces, maxEvents, maxBytes), events);
    var b := Run(Initial(workspaces, maxEvents, maxBytes), events);
    assert GenerationOk(b, b.generation.value, workspace);
    AdvertisedWithinRun(b.generation.value, workspace, Highest(b.buffers[workspace]), GetOr(b.acknowledged, workspace));
  }

  lemma {:induction false} RunKeepsWorkspaces(b: Bridge, events: seq<Event>)
    ensures Run(b, events).workspaces == b.workspaces
  {
    if events != [] {
      RunKeepsWorkspaces(b, events[..|events| - 1]);
      StepKeepsWorkspaces(Run(b, events[..|events| - 1]), events[|events| - 1]);
    }
  }

  lemma StepKeepsWorkspaces(b: Bridge, e: Event)
    ensures Step(b, e).workspaces == b.workspaces
  {
  }

  /** Whatever is newly acknowledged was carried by an item this connection finished sending. */
  lemma AcknowledgedWasSent(b: Bridge, workspace: WorkspaceId, through: int, n: int)
    requires Inv(b) && b.generation.Some? && workspace in b.buffers
    requires OnAck(b, workspace, through) != b
    requires GetOr(b.acknowledged, workspace) < n <= through
    ensures var g := b.generation.value;
            && g.settled <= |g.queue|
            && exists i :: && 0 <= i < |Sent(g, workspace)|
                           && First(Sent(g, workspace)[i]) <= n <= Last(Sent(g, workspace)[i])
  {
    var g := b.generation.value;
    assert GenerationOk(b, g, workspace);
    AckAdvancesWithinAdvertised(b, workspace, through);
    ChainCovers(Sent(g, workspace), g.base[workspace], AdvertisedThrough(b, workspace), n);
  }

  // ---------------------------------------------------------------------------------------------
  // The object that the program updates in place
  // ---------------------------------------------------------------------------------------------

  class CompanionRelayBridge {
    const workspaces: seq<WorkspaceId>
    var buffers: map<WorkspaceId, Buffer>
    var acknowledged: map<WorkspaceId, int>
    var generation: Option<Generation>
    var closed: bool

    function View(): Bridge
      reads this
    {
      Bridge(workspaces, buffers, acknowledged, generation, closed)
    }

    constructor (workspaces: seq<WorkspaceId>, maxEvents: nat, maxBytes: nat)
      requires maxEvents > 0 && maxBytes > 0 && Distinct(workspaces)
      ensures View() == Initial(workspaces, maxEvents, maxBytes) && Inv(View())
    {
      this.workspaces := workspaces;
      buffers := map workspace | workspace in workspaces :: Empty(maxEvents, maxBytes);
      acknowledged, generation, closed := map[], None, false;
      EveryRunKeepsInv(workspaces, maxEvents, maxBytes, []);
    }

    /** The listener that the bridge registers on every workspace's frame buffer. */
    method BufferedFrame(workspace: WorkspaceId, body: Body, bytes: nat)
      requires Inv(View())
      modifies this
      ensures View() == OnAppend(old(View()), workspace, body, bytes) && Inv(View())
    {
      if workspace in buffers {
        var sequence := buffers[workspace].nextSequence;
        buffers := buffers[workspace := RelayFrameBuffer.Append(buffers[workspace], body, bytes)];
        if generation.Some? {
          generation := Some(generation.value.(queue := generation.value.queue + [FrameMessage(workspace, sequence)]));
        }
      }
      AppendKeepsInv(old(View()), workspace, body, bytes);
    }

    /** What replays one workspace leads from its acknowledged to its highest number without a hole. */
    method ReplayWorkspace(workspace: WorkspaceId) returns (items: seq<Item>)
      ensures items == ItemsFor(workspace, buffers, acknowledged)
      ensures forall i :: 0 <= i < |items| ==> Concerns(items[i], workspace)
      ensures Inv(View()) && workspace in buffers ==>
                Chain(items, GetOr(acknowledged, workspace), Highest(buffers[workspace]))
    {
      if workspace in buffers {
        ReplayItemsConcern(workspace, buffers[workspace], GetOr(acknowledged, workspace));
        if Inv(View()) {
          assert WorkspaceOk(View(), workspace);
          ReplayItemsChain(workspace, buffers[workspace], GetOr(acknowledged, workspace));
        }
      }
      items := [];
      if workspace in buffers {
        var replay := ReplayAfter(buffers[workspace], GetOr(acknowledged, workspace));
        if replay.Ok? {
          if replay.value.gap.Some? {
            var gap := replay.value.gap.value;
            items := [GapNotice(workspace, gap.fromRelaySequence, gap.throughRelaySequence)];
          }
          items := items + FrameItems(workspace, replay.value.frames);
        }
      }
    }

    /** Computes what a new connection sends first: the announcement and every workspace's replay. */
    method ReplayEverything() returns (queue: seq<Item>)
      ensures queue == ConnectItems(workspaces, buffers, acknowledged)
    {
      queue := [Announce];
      for i := 0 to |workspaces|
        invariant queue == ConnectItems(workspaces[..i], buffers, acknowledged)
      {
        var items := ReplayWorkspace(workspaces[i]);
        assert workspaces[..i + 1][..i] == workspaces[..i];
        queue := queue + items;
      }
      assert workspaces[..|workspaces|] == workspaces;
    }

    /** Ends the current connection, announces the device and replays every workspace in turn. */
    method ConnectTransport()
      requires Inv(View())
      modifies this`generation
      ensures View() == OnConnect(old(View())) && Inv(View())
    {
      ConnectKeepsInv(View());
      if closed {
        return;
      }
      var queue := ReplayEverything();
      var base := map workspace | workspace in workspaces :: GetOr(acknowledged, workspace);
      generation := Some(Generation(queue, 0, false, map[], base));
    }

    method TaskSettled(ok: bool)
      requires Inv(View())
      modifies this`generation
      ensures View() == OnTaskSettles(old(View()), ok) && Inv(View())
    {
      TaskSettlesKeepsInv(View(), ok);
      if generation.Some? && generation.value.sending && generation.value.settled < |generation.value.queue| {
        generation := if ok then Some(Settled(generation.value)) else None;
      }
    }

    method HandleAck(workspace: WorkspaceId, through: int) returns (disposition: Option<AckDisposition>)
      requires Inv(View())
      modifies this
      ensures View() == OnAck(old(View()), workspace, through) && Inv(View())
      ensures disposition == Some(Advance) <==>
                && old(generation).Some? && workspace in old(buffers)
                && GetOr(old(acknowledged), workspace) < through <= AdvertisedThrough(old(View()), workspace)
    {
      AckKeepsInv(View(), workspace, through);
      if generation.None? || workspace !in buffers {
        return None;
      }
      AckAdvancesWithinAdvertised(View(), workspace, through);
      assert WorkspaceOk(View(), workspace);
      var decided := ClassifyAck(GetOr(acknowledged, workspace), AdvertisedThrough(View(), workspace), through);
      if decided == Advance {
        var trimmed := Acknowledge(buffers[workspace], through);
        if trimmed.Ok? {
          acknowledged := acknowledged[workspace := through];
          buffers := buffers[workspace := trimmed.value];
        }
      }
      return Some(decided);
    }
  }
}
