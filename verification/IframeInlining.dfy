/**
 Inlining the snapshots of nested frames into the snapshot of a page: the work list of frames grows
 while it is processed, and every collected node appears once in the result
 (`agents/browser-use/src/browser-observation.ts`, lines 33-48 and 86-213).
 */
module IframeInlining {
  import opened Wrappers

  type FrameId = nat

  /** `payload` stands for everything else a node says; `iframe` for an iframe with a backend node. */
  datatype Node = Node(payload: nat, ref: Option<nat>, iframe: bool, children: seq<Node>)

  datatype Snapshot = Snapshot(nodes: seq<Node>, refs: seq<nat>, nodeCount: nat, truncated: bool, maxNodes: nat)

  /** Child snapshots by the number of the element reference of their iframe. */
  type Frames = map<nat, seq<Node>>

  // ---------------------------------------------------------------------------------------------
  // What a list of nodes contains
  // ---------------------------------------------------------------------------------------------

  /** Something that can be counted in a list of nodes, at any depth. */
  datatype Feature = AnyNode | Payload(payload: nat) | Ref(ref: nat)

  function CountOwn(node: Node, f: Feature): nat {
    match f
    case AnyNode => 1
    case Payload(payload) => if node.payload == payload then 1 else 0
    case Ref(ref) => if node.ref == Some(ref) then 1 else 0
  }

  function Count(nodes: seq<Node>, f: Feature): nat {
    if nodes == [] then 0
    else CountOwn(nodes[0], f) + Count(nodes[0].children, f) + Count(nodes[1..], f)
  }

  function Size(nodes: seq<Node>): nat {
    Count(nodes, AnyNode)
  }

  predicate AllFlat(nodes: seq<Node>) {
    forall i :: 0 <= i < |nodes| ==> nodes[i].children == []
  }

  ghost predicate NoneUpTo(nodes: seq<Node>, r: nat) {
    forall k: nat :: k <= r ==> Count(nodes, Ref(k)) == 0
  }

  /** Every snapshot carries only references that were drawn after that of its iframe. */
  ghost predicate Forward(frames: Frames, bound: nat) {
    forall r :: r in frames ==> r <= bound && NoneUpTo(frames[r], r)
  }

  lemma {:induction false} CountConcat(a: seq<Node>, b: seq<Node>, f: Feature)
    ensures Count(a + b, f) == Count(a, f) + Count(b, f)
  {
    if a == [] {
      assert a + b == b;
    } else {
      assert (a + b)[1..] == a[1..] + b;
      CountConcat(a[1..], b, f);
    }
  }

  lemma CountCons(node: Node, rest: seq<Node>, f: Feature)
    ensures Count([node] + rest, f) == CountOwn(node, f) + Count(node.children, f) + Count(rest, f)
  {
    assert ([node] + rest)[1..] == rest;
  }

  lemma HeadRefs(nodes: seq<Node>, r: nat)
    requires nodes != [] && NoneUpTo(nodes, r)
    ensures NoneUpTo(nodes[0].children, r) && NoneUpTo(nodes[1..], r)
    ensures nodes[0].ref.Some? ==> nodes[0].ref.value > r
  {
    forall k: nat | k <= r
      ensures Count(nodes[0].children, Ref(k)) == 0 && Count(nodes[1..], Ref(k)) == 0 && nodes[0].ref != Some(k)
    {
      assert Count(nodes, Ref(k)) == 0;
    }
  }

  // ---------------------------------------------------------------------------------------------
  // Inlining
  // ---------------------------------------------------------------------------------------------

  /**
   `inlineTreeIframeSnapshots`. It terminates because a nested snapshot carries later references
   only: `low` is a reference below all those of `nodes`, `bound` one that no frame exceeds.
   */
  function InlineTree(nodes: seq<Node>, frames: Frames, ghost low: nat, ghost bound: nat): seq<Node>
    requires Forward(frames, bound) && NoneUpTo(nodes, low)
    decreases bound - low, Size(nodes)
  {
    if nodes == [] then []
    else
      HeadRefs(nodes, low);
      var node := nodes[0];
      var nested := InlineTree(node.children, frames, low, bound);
      var inlined := Framed(node, frames, low, bound);
      [node.(children := nested + inlined)] + InlineTree(nodes[1..], frames, low, bound)
  }

  /** What is inlined below a node that is the iframe of a collected snapshot. */
  function Framed(node: Node, frames: Frames, ghost low: nat, ghost bound: nat): seq<Node>
    requires Forward(frames, bound) && (node.ref.Some? ==> node.ref.value > low)
    decreases bound - low, 0
  {
    if node.ref.Some? && node.ref.value in frames then InlineTree(frames[node.ref.value], frames, node.ref.value, bound) else []
  }

  /** `inlineFlatIframeSnapshots`: the nodes of a frame follow its iframe. */
  function InlineFlat(nodes: seq<Node>, frames: Frames, ghost low: nat, ghost bound: nat): seq<Node>
    requires Forward(frames, bound) && NoneUpTo(nodes, low)
    decreases bound - low, Size(nodes)
  {
    if nodes == [] then []
    else
      HeadRefs(nodes, low);
      var node := nodes[0];
      [node] + FramedFlat(node, frames, low, bound) + InlineFlat(nodes[1..], frames, low, bound)
  }

  function FramedFlat(node: Node, frames: Frames, ghost low: nat, ghost bound: nat): seq<Node>
    requires Forward(frames, bound) && (node.ref.Some? ==> node.ref.value > low)
    decreases bound - low, 0
  {
    if node.ref.Some? && node.ref.value in frames then InlineFlat(frames[node.ref.value], frames, node.ref.value, bound) else []
  }

  /** The parts of a result: the node, what was below it, its frame, and the rest of the list. */
  lemma TreeParts(nodes: seq<Node>, frames: Frames, low: nat, bound: nat, f: Feature)
    requires Forward(frames, bound) && NoneUpTo(nodes, low) && nodes != []
    ensures NoneUpTo(nodes[0].children, low) && NoneUpTo(nodes[1..], low) && (nodes[0].ref.Some? ==> nodes[0].ref.value > low)
    ensures Count(InlineTree(nodes, frames, low, bound), f) ==
            CountOwn(nodes[0], f)
            + Count(InlineTree(nodes[0].children, frames, low, bound), f)
            + Count(Framed(nodes[0], frames, low, bound), f)
            + Count(InlineTree(nodes[1..], frames, low, bound), f)
  {
    HeadRefs(nodes, low);
    var nested := InlineTree(nodes[0].children, frames, low, bound);
    var framed := Framed(nodes[0], frames, low, bound);
    CountConcat(nested, framed, f);
    CountCons(nodes[0].(children := nested + framed), InlineTree(nodes[1..], frames, low, bound), f);
  }

  lemma FlatParts(nodes: seq<Node>, frames: Frames, low: nat, bound: nat, f: Feature)
    requires Forward(frames, bound) && NoneUpTo(nodes, low) && nodes != [] && nodes[0].children == []
    ensures NoneUpTo(nodes[1..], low) && (nodes[0].ref.Some? ==> nodes[0].ref.value > low)
    ensures Count(InlineFlat(nodes, frames, low, bound), f) ==
            CountOwn(nodes[0], f)
            + Count(FramedFlat(nodes[0], frames, low, bound), f)
            + Count(InlineFlat(nodes[1..], frames, low, bound), f)
  {
    HeadRefs(nodes, low);
    var framed := FramedFlat(nodes[0], frames, low, bound);
    var rest := InlineFlat(nodes[1..], frames, low, bound);
    CountConcat(framed, rest, f);
    CountCons(nodes[0], framed + rest, f);
    assert [nodes[0]] + framed + rest == [nodes[0]] + (framed + rest);
  }

  /** On snapshots without nesting both modes collect the same nodes. */
  lemma {:induction false} FlatCollectsTheSame(nodes: seq<Node>, frames: Frames, low: nat, bound: nat, f: Feature)
    requires Forward(frames, bound) && NoneUpTo(nodes, low)
    requires AllFlat(nodes) && forall r :: r in frames ==> AllFlat(frames[r])
    ensures Count(InlineFlat(nodes, frames, low, bound), f) == Count(InlineTree(nodes, frames, low, bound), f)
    decreases bound - low, Size(nodes)
  {
    if nodes != [] {
      TreeParts(nodes, frames, low, bound, f);
      FlatParts(nodes, frames, low, bound, f);
      if nodes[0].ref.Some? && nodes[0].ref.value in frames {
        FlatCollectsTheSame(frames[nodes[0].ref.value], frames, nodes[0].ref.value, bound, f);
      }
      FlatCollectsTheSame(nodes[1..], frames, low, bound, f);
    }
  }

  // ---------------------------------------------------------------------------------------------
  // One more frame
  // ---------------------------------------------------------------------------------------------

  /** No reference of the nodes has a frame. */
  ghost predicate Unframed(nodes: seq<Node>, frames: Frames) {
    forall r :: r in frames ==> Count(nodes, Ref(r)) == 0
  }

  /** Such nodes stay as they are. */
  lemma {:induction false} NothingToInline(nodes: seq<Node>, frames: Frames, low: nat, bound: nat)
    requires Forward(frames, bound) && NoneUpTo(nodes, low) && Unframed(nodes, frames)
    ensures InlineTree(nodes, frames, low, bound) == nodes
    decreases Size(nodes)
  {
    if nodes != [] {
      HeadRefs(nodes, low);
      HeadUnframed(nodes, frames);
      var node := nodes[0];
      NothingToInline(node.children, frames, low, bound);
      NothingToInline(nodes[1..], frames, low, bound);
      assert node.children + [] == node.children;
      assert node.(children := node.children) == node;
      assert [node] + nodes[1..] == nodes;
    }
  }

  lemma HeadUnframed(nodes: seq<Node>, frames: Frames)
    requires nodes != [] && Unframed(nodes, frames)
    ensures Unframed(nodes[0].children, frames) && Unframed(nodes[1..], frames)
    ensures nodes[0].ref.Some? ==> nodes[0].ref.value !in frames
  {
    forall r | r in frames
      ensures Count(nodes[0].children, Ref(r)) == 0 && Count(nodes[1..], Ref(r)) == 0 && nodes[0].ref != Some(r)
    {
      assert Count(nodes, Ref(r)) == 0;
    }
  }

  /** The frame of one more iframe, none of whose references has a frame yet. */
  ghost predicate Addable(frames: Frames, r: nat, extra: seq<Node>, bound: nat) {
    && Forward(frames, bound) && r !in frames && r <= bound && NoneUpTo(extra, r)
    && Unframed(extra, frames) && Forward(frames[r := extra], bound)
  }

  lemma AddableIsForward(frames: Frames, r: nat, extra: seq<Node>, bound: nat)
    requires Forward(frames, bound) && r !in frames && r <= bound && NoneUpTo(extra, r) && Unframed(extra, frames)
    ensures Addable(frames, r, extra, bound)
  {
  }

  /** When the reference `r` occurs once in a result, its frame adds exactly its own nodes to it. */
  lemma {:induction false} OneMoreFrame(nodes: seq<Node>, frames: Frames, low: nat, bound: nat, r: nat, extra: seq<Node>, f: Feature)
    requires Addable(frames, r, extra, bound) && NoneUpTo(nodes, low)
    requires Count(InlineTree(nodes, frames, low, bound), Ref(r)) <= 1
    ensures Count(InlineTree(nodes, frames[r := extra], low, bound), f) ==
            Count(InlineTree(nodes, frames, low, bound), f)
            + if Count(InlineTree(nodes, frames, low, bound), Ref(r)) == 1 then Count(extra, f) else 0
    decreases bound - low, Size(nodes)
  {
    if nodes != [] {
      TreeParts(nodes, frames, low, bound, f);
      TreeParts(nodes, frames, low, bound, Ref(r));
      TreeParts(nodes, frames[r := extra], low, bound, f);
      OneMoreFrame(nodes[0].children, frames, low, bound, r, extra, f);
      OneMoreFrame(nodes[1..], frames, low, bound, r, extra, f);
      OneMoreFramed(nodes[0], frames, low, bound, r, extra, f);
    }
  }

  lemma {:induction false} OneMoreFramed(node: Node, frames: Frames, low: nat, bound: nat, r: nat, extra: seq<Node>, f: Feature)
    requires Addable(frames, r, extra, bound) && (node.ref.Some? ==> node.ref.value > low)
    requires Count(Framed(node, frames, low, bound), Ref(r)) <= 1
    ensures Count(Framed(node, frames[r := extra], low, bound), f) ==
            Count(Framed(node, frames, low, bound), f)
            + if node.ref == Some(r) || Count(Framed(node, frames, low, bound), Ref(r)) == 1 then Count(extra, f) else 0
    ensures node.ref == Some(r) ==> Framed(node, frames, low, bound) == []
    decreases bound - low, 0
  {
    if node.ref == Some(r) {
      ExtraUnframed(frames, r, extra, bound);
      NothingToInline(extra, frames[r := extra], r, bound);
    } else if node.ref.Some? && node.ref.value in frames {
      OneMoreFrame(frames[node.ref.value], frames, node.ref.value, bound, r, extra, f);
    }
  }

  lemma ExtraUnframed(frames: Frames, r: nat, extra: seq<Node>, bound: nat)
    requires Addable(frames, r, extra, bound)
    ensures Unframed(extra, frames[r := extra])
  {
  }

  // ---------------------------------------------------------------------------------------------
  // Collecting iframes
  // ---------------------------------------------------------------------------------------------

  datatype Target = Target(node: Node, frame: FrameId)

  /** `collectIframeNodes`: every iframe with a backend node, parents before children. */
  function CollectIframes(nodes: seq<Node>): seq<Node> {
    if nodes == [] then []
    else (if nodes[0].iframe then [nodes[0]] else []) + CollectIframes(nodes[0].children) + CollectIframes(nodes[1..])
  }

  /** `collectIframeSnapshotTargets`: the iframes whose frame could be determined. */
  function TargetsOf(iframes: seq<Node>, frameOf: Node -> Option<FrameId>): seq<Target> {
    if iframes == [] then []
    else
      var frame := frameOf(iframes[0]);
      (if frame.Some? then [Target(iframes[0], frame.value)] else []) + TargetsOf(iframes[1..], frameOf)
  }

  function IframeCount(iframes: seq<Node>, r: nat): nat {
    if iframes == [] then 0 else CountOwn(iframes[0], Ref(r)) + IframeCount(iframes[1..], r)
  }

  function TargetCount(targets: seq<Target>, r: nat): nat {
    if targets == [] then 0 else CountOwn(targets[0].node, Ref(r)) + TargetCount(targets[1..], r)
  }

  lemma {:induction false} IframeCountConcat(a: seq<Node>, b: seq<Node>, r: nat)
    ensures IframeCount(a + b, r) == IframeCount(a, r) + IframeCount(b, r)
  {
    if a == [] {
      assert a + b == b;
    } else {
      assert (a + b)[1..] == a[1..] + b;
      IframeCountConcat(a[1..], b, r);
    }
  }

  lemma {:induction false} TargetCountConcat(a: seq<Target>, b: seq<Target>, r: nat)
    ensures TargetCount(a + b, r) == TargetCount(a, r) + TargetCount(b, r)
  {
    if a == [] {
      assert a + b == b;
    } else {
      assert (a + b)[1..] == a[1..] + b;
      TargetCountConcat(a[1..], b, r);
    }
  }

  /** A reference is collected at most as often as it occurs. */
  lemma {:induction false} CollectedAtMost(nodes: seq<Node>, r: nat)
    ensures IframeCount(CollectIframes(nodes), r) <= Count(nodes, Ref(r))
    decreases Size(nodes)
  {
    if nodes != [] {
      var own := if nodes[0].iframe then [nodes[0]] else [];
      CollectedAtMost(nodes[0].children, r);
      CollectedAtMost(nodes[1..], r);
      IframeCountConcat(own + CollectIframes(nodes[0].children), CollectIframes(nodes[1..]), r);
      IframeCountConcat(own, CollectIframes(nodes[0].children), r);
      assert IframeCount(own, r) <= CountOwn(nodes[0], Ref(r));
    }
  }

  lemma {:induction false} TargetsAtMost(iframes: seq<Node>, frameOf: Node -> Option<FrameId>, r: nat)
    ensures TargetCount(TargetsOf(iframes, frameOf), r) <= IframeCount(iframes, r)
  {
    if iframes != [] {
      TargetsAtMost(iframes[1..], frameOf, r);
      var frame := frameOf(iframes[0]);
      if frame.Some? {
        assert ([Target(iframes[0], frame.value)] + TargetsOf(iframes[1..], frameOf))[1..] == TargetsOf(iframes[1..], frameOf);
      } else {
        assert [] + TargetsOf(iframes[1..], frameOf) == TargetsOf(iframes[1..], frameOf);
      }
    }
  }

  lemma TargetsOfNodes(nodes: seq<Node>, frameOf: Node -> Option<FrameId>, r: nat)
    ensures TargetCount(TargetsOf(CollectIframes(nodes), frameOf), r) <= Count(nodes, Ref(r))
  {
    CollectedAtMost(nodes, r);
    TargetsAtMost(CollectIframes(nodes), frameOf, r);
  }

  lemma TargetAt(targets: seq<Target>, index: nat, r: nat)
    requires index < |targets| && targets[index].node.ref == Some(r)
    ensures TargetCount(targets, r) >= TargetCount(targets[..index], r) + 1
    ensures TargetCount(targets[..index + 1], r) >= 1
  {
    assert targets == targets[..index] + ([targets[index]] + targets[index + 1..]);
    TargetCountConcat(targets[..index], [targets[index]] + targets[index + 1..], r);
    assert ([targets[index]] + targets[index + 1..])[1..] == targets[index + 1..];
    assert targets[..index + 1] == targets[..index] + [targets[index]];
    TargetCountConcat(targets[..index], [targets[index]], r);
  }

  lemma MoreTargets(targets: seq<Target>, m: nat, n: nat, r: nat)
    requires m <= n <= |targets|
    ensures TargetCount(targets[..m], r) <= TargetCount(targets[..n], r)
  {
    assert targets[..n] == targets[..m] + targets[m..n];
    TargetCountConcat(targets[..m], targets[m..n], r);
  }

  // ---------------------------------------------------------------------------------------------
  // Snapshots
  // ---------------------------------------------------------------------------------------------

  function One(condition: bool): nat {
    if condition then 1 else 0
  }

  /** The references behind `initial`, in the order in which they are drawn. */
  function RefRange(initial: nat, n: nat): seq<nat> {
    seq(n, i => initial + 1 + i)
  }

  /**
   What `createBrowserAxSnapshot` returns (`packages/browser/src/runtime/ax-snapshot.ts`, lines
   295-527): at most `maxNodes` nodes, counted, and fresh references that each occur once.
   */
  ghost predicate GoodSnapshot(s: Snapshot, initial: nat, maxNodes: nat, interactiveOnly: bool) {
    && Size(s.nodes) == s.nodeCount <= maxNodes == s.maxNodes
    && |s.refs| <= s.nodeCount && s.refs == RefRange(initial, |s.refs|)
    && (forall r: nat :: Count(s.nodes, Ref(r)) == One(initial < r <= initial + |s.refs|))
    && (interactiveOnly ==> AllFlat(s.nodes))
  }

  function NextRefCount(refs: seq<nat>): nat {
    if refs == [] then 0
    else
      var max := NextRefCount(refs[..|refs| - 1]);
      if refs[|refs| - 1] > max then refs[|refs| - 1] else max
  }

  lemma {:induction false} NextRefCountIs(initial: nat, n: nat)
    ensures NextRefCount(RefRange(initial, n)) == if n == 0 then 0 else initial + n
  {
    if n > 0 {
      assert RefRange(initial, n)[..n - 1] == RefRange(initial, n - 1);
      NextRefCountIs(initial, n - 1);
    }
  }

  function Total(children: seq<Snapshot>, f: Feature): nat {
    if children == [] then 0 else Total(children[..|children| - 1], f) + Count(children[|children| - 1].nodes, f)
  }

  function AllRefs(children: seq<Snapshot>): seq<nat> {
    if children == [] then [] else AllRefs(children[..|children| - 1]) + children[|children| - 1].refs
  }

  function AllNodeCounts(children: seq<Snapshot>): nat {
    if children == [] then 0 else AllNodeCounts(children[..|children| - 1]) + children[|children| - 1].nodeCount
  }

  /** What has been collected: nothing lost, nothing twice, and the budget kept. */
  ghost predicate Sound(root: Snapshot, frames: Frames, children: seq<Snapshot>, refCount: nat, remaining: nat, bound: nat) {
    && Forward(frames, bound) && NoneUpTo(root.nodes, 0) && refCount + remaining <= bound
    && (forall r :: r in frames ==> 0 < r <= refCount)
    && (forall r: nat :: Count(InlineTree(root.nodes, frames, 0, bound), Ref(r)) == One(0 < r <= refCount))
    && (forall f :: Count(InlineTree(root.nodes, frames, 0, bound), f) == Count(root.nodes, f) + Total(children, f))
    && root.nodeCount + AllNodeCounts(children) + remaining == root.maxNodes
    && Total(children, AnyNode) == AllNodeCounts(children)
    && root.refs + AllRefs(children) == RefRange(0, refCount)
  }

  /** Nothing collected yet. */
  lemma SoundAtFirst(root: Snapshot, interactiveOnly: bool)
    requires GoodSnapshot(root, 0, root.maxNodes, interactiveOnly)
    ensures Sound(root, map[], [], |root.refs|, root.maxNodes - root.nodeCount, |root.refs| + root.maxNodes - root.nodeCount)
    ensures InlineTree(root.nodes, map[], 0, |root.refs| + root.maxNodes - root.nodeCount) == root.nodes
    ensures NextRefCount(root.refs) == |root.refs|
  {
    NoRefZero(root, interactiveOnly);
    NothingToInline(root.nodes, map[], 0, |root.refs| + root.maxNodes - root.nodeCount);
    NextRefCountIs(0, |root.refs|);
    assert root.refs + [] == root.refs;
  }

  lemma NoRefZero(root: Snapshot, interactiveOnly: bool)
    requires GoodSnapshot(root, 0, root.maxNodes, interactiveOnly)
    ensures NoneUpTo(root.nodes, 0)
  {
  }

  /** One more child snapshot. */
  lemma SoundGrows(root: Snapshot, frames: Frames, children: seq<Snapshot>, refCount: nat, remaining: nat, bound: nat, r: nat, child: Snapshot, interactiveOnly: bool)
    requires Sound(root, frames, children, refCount, remaining, bound)
    requires r !in frames && 0 < r <= refCount && GoodSnapshot(child, refCount, remaining, interactiveOnly)
    ensures Sound(root, frames[r := child.nodes], children + [child], refCount + |child.refs|, remaining - child.nodeCount, bound)
  {
    var extra := child.nodes;
    ChildIsAddable(frames, refCount, bound, r, child, remaining, interactiveOnly);
    var before, after := InlineTree(root.nodes, frames, 0, bound), InlineTree(root.nodes, frames[r := extra], 0, bound);
    assert (children + [child])[..|children|] == children;
    assert Count(before, Ref(r)) == 1;
    forall f ensures Count(after, f) == Count(root.nodes, f) + Total(children + [child], f) {
      OneMoreFrame(root.nodes, frames, 0, bound, r, extra, f);
    }
    forall k: nat ensures Count(after, Ref(k)) == One(0 < k <= refCount + |child.refs|) {
      OneMoreFrame(root.nodes, frames, 0, bound, r, extra, Ref(k));
    }
    assert root.refs + AllRefs(children + [child]) == RefRange(0, refCount + |child.refs|) by {
      assert root.refs + (AllRefs(children) + child.refs) == root.refs + AllRefs(children) + child.refs;
    }
  }

  lemma ChildIsAddable(frames: Frames, refCount: nat, bound: nat, r: nat, child: Snapshot, remaining: nat, interactiveOnly: bool)
    requires Forward(frames, bound) && refCount + remaining <= bound && forall k :: k in frames ==> 0 < k <= refCount
    requires r !in frames && 0 < r <= refCount && GoodSnapshot(child, refCount, remaining, interactiveOnly)
    ensures Addable(frames, r, child.nodes, bound)
  {
    AddableIsForward(frames, r, child.nodes, bound);
  }

  // ---------------------------------------------------------------------------------------------
  // The work list
  // ---------------------------------------------------------------------------------------------

  /** Every pending reference has been drawn and is pending once; every frame's reference is behind `index`. */
  ghost predicate PendingOk(pending: seq<Target>, index: nat, frames: Frames, refCount: nat) {
    && index <= |pending|
    && (forall r: nat :: TargetCount(pending, r) <= One(0 < r <= refCount))
    && (forall r :: r in frames ==> TargetCount(pending[..index], r) >= 1)
  }

  lemma PendingAtFirst(root: Snapshot, interactiveOnly: bool, frameOf: Node -> Option<FrameId>)
    requires GoodSnapshot(root, 0, root.maxNodes, interactiveOnly)
    ensures PendingOk(TargetsOf(CollectIframes(root.nodes), frameOf), 0, map[], |root.refs|)
  {
    forall r: nat ensures TargetCount(TargetsOf(CollectIframes(root.nodes), frameOf), r) <= One(0 < r <= |root.refs|) {
      TargetsOfNodes(root.nodes, frameOf, r);
    }
  }

  lemma PendingMovesOn(pending: seq<Target>, index: nat, frames: Frames, refCount: nat)
    requires PendingOk(pending, index, frames, refCount) && index < |pending|
    ensures PendingOk(pending, index + 1, frames, refCount)
  {
    forall r | r in frames ensures TargetCount(pending[..index + 1], r) >= 1 {
      MoreTargets(pending, index, index + 1, r);
    }
  }

  /** The reference of the next target has been drawn and has no frame yet. */
  lemma NextTargetIsNew(pending: seq<Target>, index: nat, frames: Frames, refCount: nat, r: nat)
    requires PendingOk(pending, index, frames, refCount) && index < |pending| && pending[index].node.ref == Some(r)
    ensures r !in frames && 0 < r <= refCount
  {
    TargetAt(pending, index, r);
    assert TargetCount(pending, r) <= One(0 < r <= refCount);
  }

  lemma PendingGrows(pending: seq<Target>, index: nat, frames: Frames, refCount: nat, r: nat, child: Snapshot, remaining: nat, interactiveOnly: bool, frameOf: Node -> Option<FrameId>)
    requires PendingOk(pending, index, frames, refCount) && index < |pending| && pending[index].node.ref == Some(r)
    requires GoodSnapshot(child, refCount, remaining, interactiveOnly)
    ensures PendingOk(pending + TargetsOf(CollectIframes(child.nodes), frameOf), index + 1, frames[r := child.nodes], refCount + |child.refs|)
  {
    var nested := TargetsOf(CollectIframes(child.nodes), frameOf);
    forall k: nat ensures TargetCount(pending + nested, k) <= One(0 < k <= refCount + |child.refs|) {
      TargetsOfNodes(child.nodes, frameOf, k);
      TargetCountConcat(pending, nested, k);
      assert TargetCount(pending, k) <= One(0 < k <= refCount);
    }
    assert (pending + nested)[..index + 1] == pending[..index + 1];
    TargetAt(pending, index, r);
    forall k | k in frames ensures TargetCount(pending[..index + 1], k) >= 1 {
      MoreTargets(pending, index, index + 1, k);
    }
  }

  /**
   The browser: which frame an iframe shows, which snapshot of a frame it returns when so many
   references have been drawn and so many nodes are left, and which frames may be inlined.
   */
  datatype Browser = Browser(
    frameOf: Node -> Option<FrameId>,
    snapshotOf: (FrameId, nat, nat) -> Option<Snapshot>,
    allowed: Option<set<FrameId>>)

  /** Every snapshot it returns is one that `createBrowserAxSnapshot` can return. */
  ghost predicate GoodBrowser(browser: Browser, interactiveOnly: bool) {
    forall f, r: nat, m: nat ::
      browser.snapshotOf(f, r, m).Some? ==> GoodSnapshot(browser.snapshotOf(f, r, m).value, r, m, interactiveOnly)
  }

  /** The variables of the loop. `taken` records for which targets a snapshot was collected. */
  datatype Work = Work(
    frames: Frames,
    children: seq<Snapshot>,
    refCount: nat,
    remaining: nat,
    truncated: bool,
    visited: set<FrameId>,
    pending: seq<Target>,
    index: nat,
    taken: seq<nat>)

  function Bound(root: Snapshot): int {
    |root.refs| + root.maxNodes - root.nodeCount
  }

  ghost predicate WorkOk(root: Snapshot, w: Work, interactiveOnly: bool) {
    && 0 <= Bound(root) && Sound(root, w.frames, w.children, w.refCount, w.remaining, Bound(root))
    && PendingOk(w.pending, w.index, w.frames, w.refCount)
    && (interactiveOnly ==> FlatFrames(w.frames))
  }

  ghost predicate FlatFrames(frames: Frames) {
    forall r :: r in frames ==> AllFlat(frames[r])
  }

  // ---------------------------------------------------------------------------------------------
  // Which frames are collected
  // ---------------------------------------------------------------------------------------------

  function TargetsIn(browser: Browser, nodes: seq<Node>): seq<Target> {
    TargetsOf(CollectIframes(nodes), browser.frameOf)
  }

  /** The work list: the targets of the page, then those of each collected snapshot in turn. */
  function WorkList(browser: Browser, root: Snapshot, children: seq<Snapshot>): seq<Target> {
    if children == [] then TargetsIn(browser, root.nodes)
    else WorkList(browser, root, children[..|children| - 1]) + TargetsIn(browser, children[|children| - 1].nodes)
  }

  function Drawn(root: Snapshot, children: seq<Snapshot>): nat {
    |root.refs| + |AllRefs(children)|
  }

  function Left(root: Snapshot, children: seq<Snapshot>): int {
    root.maxNodes - root.nodeCount - AllNodeCounts(children)
  }

  predicate MayInline(browser: Browser, target: Target) {
    browser.allowed.None? || target.frame in browser.allowed.value
  }

  predicate Wanted(browser: Browser, target: Target) {
    MayInline(browser, target) && target.node.ref.Some?
  }

  /** No earlier wanted target shows the same frame. */
  ghost predicate FirstSeen(browser: Browser, pending: seq<Target>, i: nat)
    requires i < |pending|
  {
    forall j :: 0 <= j < i && Wanted(browser, pending[j]) ==> pending[j].frame != pending[i].frame
  }

  predicate Usable(answer: Option<Snapshot>) {
    answer.Some? && answer.value.nodeCount > 0 && answer.value.refs != []
  }

  /** What the browser answers for a target when `children` have been collected; nothing, once no node is left. */
  function AnswerFor(browser: Browser, root: Snapshot, children: seq<Snapshot>, target: Target): Option<Snapshot> {
    if Left(root, children) < 0 then None
    else browser.snapshotOf(target.frame, Drawn(root, children), Left(root, children))
  }

  predicate Increasing(taken: seq<nat>) {
    forall k, l :: 0 <= k < l < |taken| ==> taken[k] < taken[l]
  }

  /** How many snapshots had been collected when target `i` was looked at. */
  function TakenBefore(taken: seq<nat>, i: int): (n: nat)
    ensures n <= |taken|
  {
    if taken == [] then 0 else if taken[|taken| - 1] < i then |taken| else TakenBefore(taken[..|taken| - 1], i)
  }

  /** The nodes of each collected snapshot, by the reference of the iframe they belong to. */
  function FramesOf(pending: seq<Target>, taken: seq<nat>, children: seq<Snapshot>): Frames {
    if children == [] || |taken| < |children| then map[]
    else
      var last := |children| - 1;
      var before := FramesOf(pending, taken[..last], children[..last]);
      if taken[last] < |pending| && pending[taken[last]].node.ref.Some?
      then before[pending[taken[last]].node.ref.value := children[last].nodes] else before
  }

  /** Each collected snapshot is the browser's answer for its target, given what was collected before. */
  ghost predicate Provenance(browser: Browser, root: Snapshot, w: Work) {
    && |w.taken| == |w.children| && Increasing(w.taken)
    && (forall k :: 0 <= k < |w.taken| ==> ComesFrom(browser, root, w, k))
    && w.frames == FramesOf(w.pending, w.taken, w.children)
  }

  ghost predicate ComesFrom(browser: Browser, root: Snapshot, w: Work, k: nat)
    requires k < |w.taken| == |w.children|
  {
    && w.taken[k] < w.index && w.taken[k] < |w.pending|
    && AnswerFor(browser, root, w.children[..k], w.pending[w.taken[k]]) == Some(w.children[k])
  }

  /** A target that was looked at has been collected iff it is wanted, first seen, and its answer is of use. */
  ghost predicate Decided(browser: Browser, root: Snapshot, w: Work, i: nat)
    requires i < |w.pending| && |w.taken| == |w.children|
  {
    var before := w.children[..TakenBefore(w.taken, i)];
    && (MayInline(browser, w.pending[i]) ==> Left(root, before) > 0)
    && (i in w.taken <==>
          && Wanted(browser, w.pending[i]) && FirstSeen(browser, w.pending, i)
          && Usable(AnswerFor(browser, root, before, w.pending[i])))
  }

  predicate AnyTruncated(children: seq<Snapshot>) {
    exists k :: 0 <= k < |children| && children[k].truncated
  }

  /** What the loop has done so far is determined by the page and the browser. */
  ghost predicate Explained(browser: Browser, root: Snapshot, w: Work) {
    && w.index <= |w.pending|
    && w.pending == WorkList(browser, root, w.children)
    && Provenance(browser, root, w)
    && (forall i :: 0 <= i < w.index ==> Decided(browser, root, w, i))
    && w.refCount == Drawn(root, w.children) && w.remaining == Left(root, w.children)
  }

  ghost predicate VisitedOk(browser: Browser, w: Work) {
    && w.index <= |w.pending|
    && forall f :: f in w.visited <==> exists j :: 0 <= j < w.index && Wanted(browser, w.pending[j]) && w.pending[j].frame == f
  }

  lemma {:induction false} TakenBeforeGrows(taken: seq<nat>, i: int, next: nat)
    requires i <= next
    ensures TakenBefore(taken + [next], i) == TakenBefore(taken, i)
  {
    assert (taken + [next])[..|taken|] == taken;
  }

  lemma AllTakenBefore(taken: seq<nat>, i: int)
    requires forall k :: 0 <= k < |taken| ==> taken[k] < i
    ensures TakenBefore(taken, i) == |taken|
  {
  }

  function FirstState(browser: Browser, root: Snapshot): Work
    requires root.nodeCount <= root.maxNodes
  {
    Work(map[], [], NextRefCount(root.refs), root.maxNodes - root.nodeCount, root.truncated, {},
         TargetsIn(browser, root.nodes), 0, [])
  }

  lemma FirstWorkExplained(browser: Browser, root: Snapshot, interactiveOnly: bool)
    requires GoodSnapshot(root, 0, root.maxNodes, interactiveOnly)
    ensures Explained(browser, root, FirstState(browser, root)) && VisitedOk(browser, FirstState(browser, root))
  {
    NextRefCountIs(0, |root.refs|);
  }

  /** A target that is passed over. */
  lemma SkippedExplained(browser: Browser, root: Snapshot, w: Work, after: Work)
    requires Explained(browser, root, w) && w.index < |w.pending|
    requires after == w.(index := w.index + 1, visited := after.visited)
    requires MayInline(browser, w.pending[w.index]) ==> w.remaining > 0
    requires !(&& Wanted(browser, w.pending[w.index]) && FirstSeen(browser, w.pending, w.index)
               && Usable(AnswerFor(browser, root, w.children, w.pending[w.index])))
    ensures Explained(browser, root, after)
  {
    forall k | 0 <= k < |w.taken| ensures ComesFrom(browser, root, after, k) {
      assert ComesFrom(browser, root, w, k);
    }
    forall i | 0 <= i < after.index ensures Decided(browser, root, after, i) {
      if i < w.index {
        assert Decided(browser, root, w, i);
      } else {
        LastIsNotTaken(browser, root, w);
        assert w.children[..|w.children|] == w.children;
      }
    }
  }

  lemma LastIsNotTaken(browser: Browser, root: Snapshot, w: Work)
    requires Provenance(browser, root, w)
    ensures TakenBefore(w.taken, w.index) == |w.taken| && w.index !in w.taken
  {
    forall k | 0 <= k < |w.taken| ensures w.taken[k] < w.index {
      assert ComesFrom(browser, root, w, k);
    }
    AllTakenBefore(w.taken, w.index);
  }

  lemma VisitedGrows(browser: Browser, w: Work, after: Work)
    requires VisitedOk(browser, w) && w.index < |w.pending| && after.index == w.index + 1
    requires |w.pending| <= |after.pending| && after.pending[..|w.pending|] == w.pending
    requires after.visited == if Wanted(browser, w.pending[w.index]) then w.visited + {w.pending[w.index].frame} else w.visited
    ensures VisitedOk(browser, after)
  {
    assert forall j :: 0 <= j < |w.pending| ==> after.pending[j] == w.pending[j];
  }

  lemma VisitedIsSeen(browser: Browser, w: Work)
    requires VisitedOk(browser, w) && w.index < |w.pending|
    ensures w.pending[w.index].frame in w.visited <==> !FirstSeen(browser, w.pending, w.index)
  {
  }

  /** A target whose snapshot is collected. */
  lemma TakenExplained(browser: Browser, root: Snapshot, w: Work, r: nat, child: Snapshot)
    requires Explained(browser, root, w) && w.index < |w.pending| && w.pending[w.index].node.ref == Some(r)
    requires Wanted(browser, w.pending[w.index]) && FirstSeen(browser, w.pending, w.index) && w.remaining > 0
    requires AnswerFor(browser, root, w.children, w.pending[w.index]) == Some(child) && Usable(Some(child))
    requires child.nodeCount <= w.remaining && NextRefCount(child.refs) == w.refCount + |child.refs|
    ensures Explained(browser, root, Taken(browser, w, r, child))
  {
    var after := Taken(browser, w, r, child);
    LastIsNotTaken(browser, root, w);
    assert after.children[..|w.children|] == w.children && after.taken[..|w.taken|] == w.taken;
    TakenProvenance(browser, root, w, r, child);
    forall i | 0 <= i < after.index ensures Decided(browser, root, after, i) {
      TakenBeforeGrows(w.taken, i, w.index);
      var n := TakenBefore(w.taken, i);
      assert after.children[..n] == w.children[..n];
      assert after.pending[i] == w.pending[i];
      assert FirstSeen(browser, after.pending, i) <==> FirstSeen(browser, w.pending, i) by {
        assert forall j :: 0 <= j < i ==> after.pending[j] == w.pending[j];
      }
      if i < w.index {
        assert Decided(browser, root, w, i);
        assert i in after.taken <==> i in w.taken;
      } else {
        assert w.children[..|w.children|] == w.children;
        assert after.taken[|w.taken|] == i;
      }
    }
  }

  lemma TakenProvenance(browser: Browser, root: Snapshot, w: Work, r: nat, child: Snapshot)
    requires Provenance(browser, root, w) && w.index < |w.pending| && w.pending[w.index].node.ref == Some(r)
    requires AnswerFor(browser, root, w.children, w.pending[w.index]) == Some(child) && child.nodeCount <= w.remaining
    ensures Provenance(browser, root, Taken(browser, w, r, child))
  {
    var after := Taken(browser, w, r, child);
    forall k | 0 <= k < |after.taken| ensures ComesFrom(browser, root, after, k) {
      if k < |w.taken| {
        assert ComesFrom(browser, root, w, k);
        assert after.children[..k] == w.children[..k];
        assert after.pending[w.taken[k]] == w.pending[w.taken[k]];
      } else {
        assert after.children[..k] == w.children;
      }
    }
    forall k | 0 <= k < |w.taken| ensures w.taken[k] < w.index {
      assert ComesFrom(browser, root, w, k);
    }
    assert after.children[..|w.children|] == w.children && after.taken[..|w.taken|] == w.taken;
    FramesOfLonger(w.pending, TargetsIn(browser, child.nodes), w.taken, w.children);
  }

  lemma {:induction false} FramesOfLonger(pending: seq<Target>, more: seq<Target>, taken: seq<nat>, children: seq<Snapshot>)
    requires |taken| == |children| && forall k :: 0 <= k < |taken| ==> taken[k] < |pending|
    ensures FramesOf(pending + more, taken, children) == FramesOf(pending, taken, children)
  {
    if children != [] {
      FramesOfLonger(pending, more, taken[..|taken| - 1], children[..|children| - 1]);
    }
  }

  lemma FirstWork(browser: Browser, root: Snapshot, interactiveOnly: bool)
    requires GoodSnapshot(root, 0, root.maxNodes, interactiveOnly)
    ensures WorkOk(root, FirstState(browser, root), interactiveOnly)
  {
    SoundAtFirst(root, interactiveOnly);
    PendingAtFirst(root, interactiveOnly, browser.frameOf);
  }

  lemma SkippedWork(root: Snapshot, w: Work, interactiveOnly: bool, after: Work)
    requires WorkOk(root, w, interactiveOnly) && w.index < |w.pending|
    requires after == w.(index := w.index + 1, visited := after.visited)
    ensures WorkOk(root, after, interactiveOnly)
  {
    PendingMovesOn(w.pending, w.index, w.frames, w.refCount);
  }

  /** The work after a child snapshot was taken for the next target. */
  function Taken(browser: Browser, w: Work, r: nat, child: Snapshot): Work
    requires child.nodeCount <= w.remaining && w.index < |w.pending|
  {
    Work(w.frames[r := child.nodes], w.children + [child], NextRefCount(child.refs), w.remaining - child.nodeCount,
         w.truncated || child.truncated, w.visited + {w.pending[w.index].frame}, w.pending + TargetsIn(browser, child.nodes),
         w.index + 1, w.taken + [w.index])
  }

  lemma TakenWork(browser: Browser, root: Snapshot, w: Work, interactiveOnly: bool, r: nat, child: Snapshot)
    requires WorkOk(root, w, interactiveOnly) && w.index < |w.pending| && w.pending[w.index].node.ref == Some(r)
    requires GoodSnapshot(child, w.refCount, w.remaining, interactiveOnly) && child.refs != []
    ensures WorkOk(root, Taken(browser, w, r, child), interactiveOnly)
  {
    NextTargetIsNew(w.pending, w.index, w.frames, w.refCount, r);
    TakenSound(browser, root, w, interactiveOnly, r, child);
    TakenPending(browser, root, w, interactiveOnly, r, child);
    if interactiveOnly {
      FlatGrows(w.frames, r, child.nodes);
    }
  }

  lemma TakenSound(browser: Browser, root: Snapshot, w: Work, interactiveOnly: bool, r: nat, child: Snapshot)
    requires WorkOk(root, w, interactiveOnly) && w.index < |w.pending| && r !in w.frames && 0 < r <= w.refCount
    requires GoodSnapshot(child, w.refCount, w.remaining, interactiveOnly) && child.refs != []
    ensures var after := Taken(browser, w, r, child);
            Sound(root, after.frames, after.children, after.refCount, after.remaining, Bound(root))
  {
    NextRefCountIs(w.refCount, |child.refs|);
    SoundGrows(root, w.frames, w.children, w.refCount, w.remaining, Bound(root), r, child, interactiveOnly);
  }

  lemma TakenPending(browser: Browser, root: Snapshot, w: Work, interactiveOnly: bool, r: nat, child: Snapshot)
    requires PendingOk(w.pending, w.index, w.frames, w.refCount)
    requires w.index < |w.pending| && w.pending[w.index].node.ref == Some(r)
    requires GoodSnapshot(child, w.refCount, w.remaining, interactiveOnly) && child.refs != []
    ensures var after := Taken(browser, w, r, child);
            PendingOk(after.pending, after.index, after.frames, after.refCount)
  {
    NextRefCountIs(w.refCount, |child.refs|);
    PendingGrows(w.pending, w.index, w.frames, w.refCount, r, child, w.remaining, interactiveOnly, browser.frameOf);
  }

  lemma FlatGrows(frames: Frames, r: nat, nodes: seq<Node>)
    requires FlatFrames(frames) && AllFlat(nodes)
    ensures FlatFrames(frames[r := nodes])
  {
  }

  /**
   The loop of `inlineIframeSnapshots`. Its work list grows while it runs; it ends because every
   snapshot that adds to the list uses up some of the remaining nodes. It stops before the end of
   the list only when no node is left for a target that may be inlined.
   */
  method CollectFrames(browser: Browser, root: Snapshot, interactiveOnly: bool) returns (w: Work)
    requires GoodSnapshot(root, 0, root.maxNodes, interactiveOnly) && GoodBrowser(browser, interactiveOnly)
    ensures WorkOk(root, w, interactiveOnly)
    ensures Explained(browser, root, w)
    ensures w.index < |w.pending| ==> w.remaining == 0 && MayInline(browser, w.pending[w.index])
    ensures w.truncated <==> root.truncated || AnyTruncated(w.children) || w.index < |w.pending|
  {
    FirstWorking(browser, root, interactiveOnly);
    w := FirstState(browser, root);
    while w.index < |w.pending|
      invariant Working(browser, root, w, interactiveOnly)
      decreases w.remaining, |w.pending| - w.index
    {
      if MayInline(browser, w.pending[w.index]) && w.remaining == 0 {
        StoppedIsExplained(browser, root, w, interactiveOnly);
        w := w.(truncated := true);
        return;
      }
      w := LookAt(browser, root, w, interactiveOnly);
    }
  }

  /** What the loop keeps. */
  ghost predicate Working(browser: Browser, root: Snapshot, w: Work, interactiveOnly: bool) {
    && WorkOk(root, w, interactiveOnly) && Explained(browser, root, w) && VisitedOk(browser, w)
    && (w.truncated <==> root.truncated || AnyTruncated(w.children))
  }

  lemma FirstWorking(browser: Browser, root: Snapshot, interactiveOnly: bool)
    requires GoodSnapshot(root, 0, root.maxNodes, interactiveOnly)
    ensures Working(browser, root, FirstState(browser, root), interactiveOnly)
  {
    FirstWork(browser, root, interactiveOnly);
    FirstWorkExplained(browser, root, interactiveOnly);
  }

  /** Noting that nodes were left out changes nothing about those that were not. */
  lemma StoppedIsExplained(browser: Browser, root: Snapshot, w: Work, interactiveOnly: bool)
    requires Working(browser, root, w, interactiveOnly)
    ensures WorkOk(root, w.(truncated := true), interactiveOnly) && Explained(browser, root, w.(truncated := true))
  {
    var after := w.(truncated := true);
    forall k | 0 <= k < |w.taken| ensures ComesFrom(browser, root, after, k) {
      assert ComesFrom(browser, root, w, k);
    }
    forall i | 0 <= i < w.index ensures Decided(browser, root, after, i) {
      assert Decided(browser, root, w, i);
    }
  }

  /** One round of the loop, for a target within the budget. */
  method LookAt(browser: Browser, root: Snapshot, w: Work, interactiveOnly: bool) returns (after: Work)
    requires GoodBrowser(browser, interactiveOnly) && Working(browser, root, w, interactiveOnly) && w.index < |w.pending|
    requires MayInline(browser, w.pending[w.index]) ==> w.remaining > 0
    ensures Working(browser, root, after, interactiveOnly)
    ensures after.remaining < w.remaining || (after.remaining == w.remaining && |after.pending| - after.index < |w.pending| - w.index)
  {
    var target := w.pending[w.index];
    VisitedIsSeen(browser, w);
    after := w.(index := w.index + 1);
    if Wanted(browser, target) {
      after := after.(visited := w.visited + {target.frame});
      if target.frame !in w.visited {
        var answer := browser.snapshotOf(target.frame, w.refCount, w.remaining);
        if Usable(answer) {
          after := Take(browser, root, w, interactiveOnly, target.node.ref.value, answer.value);
          return;
        }
      }
    }
    assert after.visited == if Wanted(browser, target) then w.visited + {target.frame} else w.visited;
    SkippedWork(root, w, interactiveOnly, after);
    SkippedExplained(browser, root, w, after);
    VisitedGrows(browser, w, after);
  }

  method Take(browser: Browser, root: Snapshot, w: Work, interactiveOnly: bool, r: nat, child: Snapshot) returns (after: Work)
    requires Working(browser, root, w, interactiveOnly)
    requires w.index < |w.pending| && w.pending[w.index].node.ref == Some(r)
    requires Wanted(browser, w.pending[w.index]) && FirstSeen(browser, w.pending, w.index) && w.remaining > 0
    requires GoodSnapshot(child, w.refCount, w.remaining, interactiveOnly)
    requires AnswerFor(browser, root, w.children, w.pending[w.index]) == Some(child) && Usable(Some(child))
    ensures Working(browser, root, after, interactiveOnly) && after.remaining < w.remaining
  {
    NextRefCountIs(w.refCount, |child.refs|);
    after := Taken(browser, w, r, child);
    TakenWork(browser, root, w, interactiveOnly, r, child);
    TakenExplained(browser, root, w, r, child);
    VisitedGrows(browser, w, after);
    TruncatedGrows(w.children, child);
  }

  lemma TruncatedGrows(children: seq<Snapshot>, child: Snapshot)
    ensures AnyTruncated(children + [child]) <==> AnyTruncated(children) || child.truncated
  {
    if AnyTruncated(children) {
      var k :| 0 <= k < |children| && children[k].truncated;
      assert (children + [child])[k].truncated;
    }
    if child.truncated {
      assert (children + [child])[|children|].truncated;
    }
  }

  /** The nodes of the page with the given frames inlined, in the mode of the page. */
  function Inlined(root: Snapshot, interactiveOnly: bool, frames: Frames): seq<Node>
    requires 0 <= Bound(root) && Forward(frames, Bound(root)) && NoneUpTo(root.nodes, 0)
  {
    if interactiveOnly then InlineFlat(root.nodes, frames, 0, Bound(root)) else InlineTree(root.nodes, frames, 0, Bound(root))
  }

  /**
   `inlineIframeSnapshots`. The frames inlined are exactly those that the work list, the browser's
   answers and the budget call for; the result holds the page with exactly these, keeps the node
   budget, numbers its references through, and contains whatever the page or a collected frame
   contained exactly as often.
   */
  method InlineIframeSnapshots(browser: Browser, root: Snapshot, interactiveOnly: bool) returns (result: Snapshot, w: Work)
    requires GoodSnapshot(root, 0, root.maxNodes, interactiveOnly) && GoodBrowser(browser, interactiveOnly)
    ensures WorkOk(root, w, interactiveOnly) && Explained(browser, root, w)
    ensures w.index < |w.pending| ==> w.remaining == 0 && MayInline(browser, w.pending[w.index])
    ensures result.nodes == Inlined(root, interactiveOnly, w.frames)
    ensures result.truncated <==> root.truncated || AnyTruncated(w.children) || w.index < |w.pending|
    ensures Size(result.nodes) == result.nodeCount <= root.maxNodes == result.maxNodes
    ensures result.refs == root.refs + AllRefs(w.children) == RefRange(0, |result.refs|)
    ensures forall r: nat :: Count(result.nodes, Ref(r)) == One(0 < r <= |result.refs|)
    ensures forall f :: Count(result.nodes, f) == Count(root.nodes, f) + Total(w.children, f)
  {
    w := CollectFrames(browser, root, interactiveOnly);
    var nodes := InlineAll(root, interactiveOnly, w);
    result := Snapshot(nodes, root.refs + AllRefs(w.children), root.nodeCount + AllNodeCounts(w.children), w.truncated, root.maxNodes);
  }

  /** Inlining in the mode of the page. */
  method InlineAll(root: Snapshot, interactiveOnly: bool, w: Work) returns (nodes: seq<Node>)
    requires GoodSnapshot(root, 0, root.maxNodes, interactiveOnly) && WorkOk(root, w, interactiveOnly)
    ensures nodes == Inlined(root, interactiveOnly, w.frames)
    ensures forall f :: Count(nodes, f) == Count(root.nodes, f) + Total(w.children, f)
    ensures forall r: nat :: Count(nodes, Ref(r)) == One(0 < r <= w.refCount)
  {
    if interactiveOnly {
      nodes := InlineFlat(root.nodes, w.frames, 0, Bound(root));
      assert FlatFrames(w.frames);
      forall f ensures Count(nodes, f) == Count(InlineTree(root.nodes, w.frames, 0, Bound(root)), f) {
        FlatCollectsTheSame(root.nodes, w.frames, 0, Bound(root), f);
      }
    } else {
      nodes := InlineTree(root.nodes, w.frames, 0, Bound(root));
    }
  }
}
