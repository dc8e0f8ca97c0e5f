/**
 Workspace leases: every acquisition of the same lease is one attachment in a linked chain, and the
 map points to the newest attachment that is not released
 (`packages/companion/src/lease-manager.ts`, lines 3-65).
 */
module Leases {

  datatype Kind = Client | Turn | ShellSession | Approval

  /** The program's key joins kind and id by a colon that no kind contains, so keys are the pairs. */
  datatype Lease = Lease(kind: Kind, id: string)

  class Attachment {
    const lease: Lease
    const previous: Attachment?
    var released: bool

    /** Where it stands among the acquisitions of its lease, and how many of them lie below its link. */
    ghost const position: nat
    ghost const below: nat

    constructor (lease: Lease, previous: Attachment?, ghost position: nat, ghost below: nat)
      ensures this.lease == lease && this.previous == previous && !released
      ensures this.position == position && this.below == below
    {
      this.lease, this.previous, this.position, this.below, released := lease, previous, position, below, false;
    }
  }

  // ---------------------------------------------------------------------------------------------
  // Chains: the acquisitions of one lease, oldest first, and the set of attachments that are released
  // ---------------------------------------------------------------------------------------------

  /** Every attachment from position `from` on, up to `to`, is released. */
  ghost predicate AllReleased(chain: seq<Attachment>, released: set<Attachment>, from: int, to: int)
    requires 0 <= from && to <= |chain|
  {
    forall j :: from <= j < to ==> chain[j] in released
  }

  /** The link of the attachment at position `i` skips only attachments that are released. */
  ghost predicate LinkOk(chain: seq<Attachment>, released: set<Attachment>, i: nat)
    requires i < |chain|
  {
    var a := chain[i];
    && a.position == i && a.below <= i
    && a.previous == (if a.below == 0 then null else chain[a.below - 1])
    && AllReleased(chain, released, a.below, i)
  }

  ghost predicate Linked(chain: seq<Attachment>, released: set<Attachment>) {
    forall i :: 0 <= i < |chain| ==> LinkOk(chain, released, i)
  }

  /** `head` is the newest attachment that is not released, or null if all are released. */
  ghost predicate HeadOf(chain: seq<Attachment>, released: set<Attachment>, head: Attachment?) {
    if head == null then AllReleased(chain, released, 0, |chain|)
    else
      && head.position < |chain| && chain[head.position] == head && head !in released
      && AllReleased(chain, released, head.position + 1, |chain|)
  }

  /** An acquisition: the new attachment links to the head and becomes the head. */
  lemma AcquireKeepsChain(chain: seq<Attachment>, released: set<Attachment>, head: Attachment?, a: Attachment)
    requires Linked(chain, released) && HeadOf(chain, released, head) && a !in released
    requires a.position == |chain| && a.previous == head && a.below == (if head == null then 0 else head.position + 1)
    ensures Linked(chain + [a], released) && HeadOf(chain + [a], released, a)
  {
    forall i | 0 <= i < |chain + [a]| ensures LinkOk(chain + [a], released, i) {
      if i < |chain| {
        assert LinkOk(chain, released, i);
      }
    }
  }

  /** Releasing an attachment that is not the head of this chain. */
  lemma ReleaseKeepsChain(chain: seq<Attachment>, released: set<Attachment>, head: Attachment?, a: Attachment)
    requires Linked(chain, released)
    ensures Linked(chain, released + {a})
    ensures HeadOf(chain, released, head) && a != head ==> HeadOf(chain, released + {a}, head)
  {
    forall i | 0 <= i < |chain| ensures LinkOk(chain, released + {a}, i) {
      assert LinkOk(chain, released, i);
    }
  }

  /** The walk along the links, one step: above the link everything is released. */
  lemma WalkStep(chain: seq<Attachment>, released: set<Attachment>, i: nat)
    requires i < |chain| && Linked(chain, released) && AllReleased(chain, released, i, |chain|)
    ensures var a := chain[i];
            && a.below <= i && AllReleased(chain, released, a.below, |chain|)
            && a.previous == (if a.below == 0 then null else chain[a.below - 1])
  {
    assert LinkOk(chain, released, i);
  }

  /** The walk ends at the newest attachment that is not released. */
  lemma WalkEnds(chain: seq<Attachment>, released: set<Attachment>, rest: nat)
    requires rest <= |chain| && Linked(chain, released) && AllReleased(chain, released, rest, |chain|)
    requires rest > 0 ==> chain[rest - 1] !in released
    ensures HeadOf(chain, released, if rest == 0 then null else chain[rest - 1])
  {
    if rest > 0 {
      assert LinkOk(chain, released, rest - 1);
    }
  }

  // ---------------------------------------------------------------------------------------------
  // The manager
  // ---------------------------------------------------------------------------------------------

  class WorkspaceLeaseManager {
    var leases: map<Lease, Attachment>

    /** The attachments of each lease since it was last released by force, oldest first. */
    ghost var acquired: map<Lease, seq<Attachment>>

    /** Every attachment this manager ever created, and those of them that are released. */
    ghost var attachments: set<Attachment>
    ghost var released: set<Attachment>

    ghost function Since(lease: Lease): seq<Attachment>
      reads this
    {
      if lease in acquired then acquired[lease] else []
    }

    ghost function Head(lease: Lease): Attachment?
      reads this
    {
      if lease in leases then leases[lease] else null
    }

    ghost predicate ChainOk(lease: Lease)
      reads this
    {
      && (forall i :: 0 <= i < |Since(lease)| ==> Since(lease)[i] in attachments && Since(lease)[i].lease == lease)
      && (lease in leases ==> leases[lease] in attachments && leases[lease].lease == lease)
      && Linked(Since(lease), released) && HeadOf(Since(lease), released, Head(lease))
    }

    ghost predicate Valid()
      reads this, attachments
    {
      && released <= attachments
      && (forall a :: a in attachments ==> (a.released <==> a in released))
      && (forall lease: Lease :: ChainOk(lease))
    }

    /** Some attachment acquired since the last forced release is not released. */
    ghost predicate Held(lease: Lease)
      reads this, Since(lease)
    {
      exists i :: 0 <= i < |Since(lease)| && !Since(lease)[i].released
    }

    constructor ()
      ensures Valid() && leases == map[] && acquired == map[] && attachments == {}
    {
      leases, acquired, attachments, released := map[], map[], {}, {};
    }

    /** Acquires a lease; the returned attachment stands for the closure that releases it. */
    method Acquire(lease: Lease) returns (attachment: Attachment)
      requires Valid()
      modifies this
      ensures Valid() && fresh(attachment) && !attachment.released && attachment.lease == lease
      ensures attachments == old(attachments) + {attachment} && released == old(released)
      ensures acquired == old(acquired)[lease := old(Since(lease)) + [attachment]]
      ensures leases == old(leases)[lease := attachment]
    {
      ghost var chain, head := Since(lease), Head(lease);
      assert ChainOk(lease);
      attachment := new Attachment(
        lease, if lease in leases then leases[lease] else null, |chain|, if head == null then 0 else head.position + 1);
      leases := leases[lease := attachment];
      acquired := acquired[lease := chain + [attachment]];
      attachments := attachments + {attachment};
      AcquireKeepsChain(chain, released, head, attachment);
      forall other: Lease ensures ChainOk(other) {
        assert old(ChainOk(other));
        assert other != lease ==> Since(other) == old(Since(other)) && Head(other) == old(Head(other));
      }
    }

    /** The closure that `acquire` returns. Calling it again changes nothing. */
    method ReleaseAttachment(attachment: Attachment)
      requires Valid() && attachment in attachments
      modifies this`leases, this`released, attachment
      ensures Valid() && attachment.released && released == old(released) + {attachment}
      ensures old(attachment.released) ==> leases == old(leases)
      ensures forall lease: Lease :: lease != attachment.lease ==> Head(lease) == old(Head(lease))
    {
      if attachment.released {
        return;
      }
      var lease := attachment.lease;
      ghost var chain, head := Since(lease), Head(lease);
      assert ChainOk(lease);
      ReleaseKeepsChain(chain, released, head, attachment);
      attachment.released := true;
      ghost var before := released;
      released := released + {attachment};
      if lease in leases && leases[lease] == attachment {
        RestoreNewest(lease, attachment, chain);
      }
      forall other: Lease ensures ChainOk(other) {
        assert old(ChainOk(other));
        ReleaseKeepsChain(Since(other), before, Head(other), attachment);
        assert other != lease ==> Head(other) == old(Head(other));
      }
    }

    /** Walks the chain from the released head to the newest attachment that is still held. */
    method RestoreNewest(lease: Lease, attachment: Attachment, ghost chain: seq<Attachment>)
      requires Linked(chain, released) && attachment.position < |chain| && chain[attachment.position] == attachment
      requires AllReleased(chain, released, attachment.position, |chain|)
      requires forall a :: a in chain ==> (a.released <==> a in released)
      modifies this`leases
      ensures HeadOf(chain, released, Head(lease))
      ensures lease in leases ==> leases[lease] in chain
      ensures lease in leases ==> leases == old(leases)[lease := leases[lease]]
      ensures lease !in leases ==> leases == old(leases) - {lease}
    {
      WalkStep(chain, released, attachment.position);
      var replacement := attachment.previous;
      ghost var rest: nat := attachment.below;
      while replacement != null && replacement.released
        invariant rest <= |chain|
        invariant replacement == (if rest == 0 then null else chain[rest - 1])
        invariant AllReleased(chain, released, rest, |chain|)
        invariant leases == old(leases)
        decreases rest
      {
        WalkStep(chain, released, rest - 1);
        rest := replacement.below;
        replacement := replacement.previous;
      }
      WalkEnds(chain, released, rest);
      if replacement == null {
        leases := leases - {lease};
      } else {
        leases := leases[lease := replacement];
      }
    }

    /** `release`: gives a lease up whatever its attachments are. */
    method ReleaseByForce(lease: Lease) returns (existed: bool)
      requires Valid()
      modifies this`leases, this`acquired
      ensures Valid() && acquired == old(acquired) - {lease} && leases == old(leases) - {lease}
      ensures existed <==> old(Held(lease))
    {
      assert ChainOk(lease);
      existed := lease in leases;
      HeldIffPresent(lease);
      leases := leases - {lease};
      acquired := acquired - {lease};
      forall other: Lease ensures ChainOk(other) {
        assert old(ChainOk(other));
        assert other != lease ==> Since(other) == old(Since(other)) && Head(other) == old(Head(other));
      }
    }

    /** A key is present iff some attachment acquired since its last forced release is not released. */
    lemma HeldIffPresent(lease: Lease)
      requires Valid()
      ensures lease in leases <==> Held(lease)
    {
      assert ChainOk(lease);
      if lease in leases {
        assert Since(lease)[leases[lease].position] == leases[lease];
      }
    }

    method Has(lease: Lease) returns (present: bool)
      requires Valid()
      ensures present <==> Held(lease)
    {
      HeldIffPresent(lease);
      present := lease in leases;
    }

    /** The Runtime may be stopped iff no lease is held. */
    method CanStopRuntime() returns (canStop: bool)
      requires Valid()
      ensures canStop <==> forall lease: Lease :: !Held(lease)
    {
      canStop := |leases| == 0;
      forall lease: Lease ensures lease in leases <==> Held(lease) {
        HeldIffPresent(lease);
      }
      assert !canStop ==> exists lease :: lease in leases;
    }
  }
}
