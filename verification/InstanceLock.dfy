/**
 The queue of operations on one browser instance: a chain of promises in which every caller waits for
 the one before it, and a cancelled waiter still passes the turn on only after its predecessor
 (`agents/browser-use/src/browser-instance-lock.ts`, lines 27-137).
 */
module InstanceLock {
  import opened Wrappers

  type InstanceId = nat

  /**
   `Waiting` inside `waitForTurn`; `Rejecting` and `HasTurn` when it has been decided but the caller
   has not continued; `Abandoned` when a cancelled caller has left only its promise in the queue.
   */
  datatype Phase = Waiting | Rejecting | Abandoned | HasTurn | Running | Released

  /** One call that got past the first cancellation check, with the promise it queued. */
  datatype Ticket = Ticket(instance: InstanceId, prior: Option<nat>, cancellable: bool, cancelled: bool, phase: Phase)

  datatype Entry =
    | Started(ticket: nat)
    | Ended(ticket: nat)

  datatype Lock = Lock(tails: map<InstanceId, nat>, tickets: seq<Ticket>, log: seq<Entry>)

  datatype Event =
    | Arrives(instance: InstanceId, cancellable: bool, cancelled: bool)
    | Cancels(ticket: nat)
    | SeesPriorReleased(ticket: nat)
    | Continues(ticket: nat, waitCallbackThrows: bool)
    | RunEnds(ticket: nat)

  // ---------------------------------------------------------------------------------------------
  // Steps
  // ---------------------------------------------------------------------------------------------

  predicate IsReleased(s: Lock, t: int) {
    0 <= t < |s.tickets| && s.tickets[t].phase == Released
  }

  predicate PriorReleased(s: Lock, t: nat)
    requires t < |s.tickets|
  {
    s.tickets[t].prior.None? || IsReleased(s, s.tickets[t].prior.value)
  }

  function SetPhase(s: Lock, t: nat, phase: Phase): Lock
    requires t < |s.tickets|
  {
    s.(tickets := s.tickets[t := s.tickets[t].(phase := phase)])
  }

  /** `release` and `cleanupTail`. */
  function Release(s: Lock, t: nat): Lock
    requires t < |s.tickets|
  {
    var instance := s.tickets[t].instance;
    SetPhase(s, t, Released).(tails := if instance in s.tails && s.tails[instance] == t then s.tails - {instance} else s.tails)
  }

  function StartRun(s: Lock, t: nat): Lock
    requires t < |s.tickets|
  {
    SetPhase(s, t, Running).(log := s.log + [Started(t)])
  }

  /** The queue with one more waiting ticket at the end. */
  function Queue(s: Lock, instance: InstanceId, cancellable: bool): Lock {
    var prior := if instance in s.tails then Some(s.tails[instance]) else None;
    s.(tickets := s.tickets + [Ticket(instance, prior, cancellable, false, Waiting)],
       tails := s.tails[instance := |s.tickets|])
  }

  function Arrive(s: Lock, instance: InstanceId, cancellable: bool, cancelled: bool): Lock {
    if cancellable && cancelled then s
    else
      var queued := Queue(s, instance, cancellable);
      if instance in s.tails then queued else StartRun(queued, |s.tickets|)
  }

  function Cancel(s: Lock, t: nat): Lock {
    if t >= |s.tickets| || !s.tickets[t].cancellable || s.tickets[t].cancelled then s
    else
      var ticket := s.tickets[t];
      s.(tickets := s.tickets[t := ticket.(cancelled := true, phase := if ticket.phase == Waiting then Rejecting else ticket.phase)])
  }

  /** The reaction to the predecessor's promise. */
  function SeePrior(s: Lock, t: nat): Lock {
    if t >= |s.tickets| || !PriorReleased(s, t) then s
    else
      match s.tickets[t].phase
      case Waiting => SetPhase(s, t, if s.tickets[t].cancelled then Rejecting else HasTurn)
      case Abandoned => Release(s, t)
      case _ => s
  }

  /** The caller's continuation behind `waitForTurn`. */
  function Continue(s: Lock, t: nat, waitCallbackThrows: bool): Lock {
    if t >= |s.tickets| then s
    else
      match s.tickets[t].phase
      case Rejecting => SetPhase(s, t, Abandoned)
      case HasTurn => if waitCallbackThrows || s.tickets[t].cancelled then Release(s, t) else StartRun(s, t)
      case _ => s
  }

  function EndRun(s: Lock, t: nat): Lock {
    if t >= |s.tickets| || s.tickets[t].phase != Running then s
    else Release(s, t).(log := s.log + [Ended(t)])
  }

  function Step(s: Lock, e: Event): Lock {
    match e
    case Arrives(instance, cancellable, cancelled) => Arrive(s, instance, cancellable, cancelled)
    case Cancels(t) => Cancel(s, t)
    case SeesPriorReleased(t) => SeePrior(s, t)
    case Continues(t, throws) => Continue(s, t, throws)
    case RunEnds(t) => EndRun(s, t)
  }

  function Run(s: Lock, events: seq<Event>): Lock {
    if events == [] then s else Step(Run(s, events[..|events| - 1]), events[|events| - 1])
  }

  function Initial(): Lock {
    Lock(map[], [], [])
  }

  // ---------------------------------------------------------------------------------------------
  // The invariant
  // ---------------------------------------------------------------------------------------------

  predicate Earlier(s: Lock, u: int, t: int) {
    0 <= u < t < |s.tickets| && s.tickets[u].instance == s.tickets[t].instance
  }

  predicate PastWaiting(phase: Phase) {
    phase == HasTurn || phase == Running || phase == Released
  }

  /** A ticket that has its turn has only released tickets before it in its queue. */
  ghost predicate InTurn(s: Lock) {
    forall u, t :: Earlier(s, u, t) && PastWaiting(s.tickets[t].phase) ==> IsReleased(s, u)
  }

  /** `prior` is the next ticket before this one in its queue; without one, all before it are released. */
  ghost predicate Chained(s: Lock) {
    && (forall t :: 0 <= t < |s.tickets| && s.tickets[t].prior.Some? ==> Earlier(s, s.tickets[t].prior.value, t))
    && (forall u, t :: Earlier(s, u, t) ==>
                         IsReleased(s, u) || (s.tickets[t].prior.Some? && u <= s.tickets[t].prior.value))
  }

  /** The map holds the last ticket of every queue that is not finished, and nothing else. */
  ghost predicate TailsOk(s: Lock) {
    && (forall instance :: instance in s.tails ==>
          && s.tails[instance] < |s.tickets| && s.tickets[s.tails[instance]].instance == instance
          && !IsReleased(s, s.tails[instance]))
    && (forall t :: 0 <= t < |s.tickets| && s.tickets[t].instance in s.tails ==> t <= s.tails[s.tickets[t].instance])
    && (forall t :: 0 <= t < |s.tickets| && !IsReleased(s, t) ==> s.tickets[t].instance in s.tails)
  }

  /** Runs of one instance start in the order of arrival, each after the end of the one before. */
  ghost predicate Fits(s: Lock, log: seq<Entry>, entry: Entry) {
    && entry.ticket < |s.tickets| && entry !in log
    && (entry.Started? ==> OthersEnded(s, log, entry.ticket))
    && (entry.Ended? ==> Started(entry.ticket) in log)
  }

  ghost predicate OthersEnded(s: Lock, log: seq<Entry>, t: nat)
    requires t < |s.tickets|
  {
    forall u: nat :: (u < |s.tickets| && u != t && Started(u) in log && s.tickets[u].instance == s.tickets[t].instance) ==>
                       u < t && Ended(u) in log
  }

  ghost predicate Stepwise(s: Lock, log: seq<Entry>) {
    log != [] ==> Stepwise(s, log[..|log| - 1]) && Fits(s, log[..|log| - 1], log[|log| - 1])
  }

  ghost predicate StartedOk(s: Lock) {
    forall t: nat :: Started(t) in s.log ==> t < |s.tickets| && (s.tickets[t].phase == Running || Ended(t) in s.log)
  }

  ghost predicate EndedOk(s: Lock) {
    forall t: nat :: Ended(t) in s.log ==> IsReleased(s, t)
  }

  ghost predicate RunningOk(s: Lock) {
    forall t: nat :: t < |s.tickets| && s.tickets[t].phase == Running ==> Started(t) in s.log
  }

  ghost predicate LogOk(s: Lock) {
    Stepwise(s, s.log) && StartedOk(s) && EndedOk(s) && RunningOk(s)
  }

  ghost predicate Inv(s: Lock) {
    InTurn(s) && Chained(s) && TailsOk(s) && LogOk(s)
  }

  /** Two tables with the same queues. */
  ghost predicate SameQueues(before: Lock, after: Lock) {
    && |before.tickets| <= |after.tickets|
    && forall t :: 0 <= t < |before.tickets| ==> after.tickets[t].instance == before.tickets[t].instance
  }

  lemma {:induction false} StepwiseUnder(before: Lock, after: Lock, log: seq<Entry>)
    requires Stepwise(before, log) && SameQueues(before, after)
    requires forall k :: 0 <= k < |log| ==> log[k].ticket < |before.tickets|
    ensures Stepwise(after, log)
  {
    if log != [] {
      StepwiseUnder(before, after, log[..|log| - 1]);
      assert forall u: nat :: Started(u) in log[..|log| - 1] ==> u < |before.tickets|;
    }
  }

  lemma {:induction false} LogTickets(s: Lock, log: seq<Entry>)
    requires Stepwise(s, log)
    ensures forall k :: 0 <= k < |log| ==> log[k].ticket < |s.tickets|
  {
    if log != [] {
      LogTickets(s, log[..|log| - 1]);
    }
  }

  lemma LogGrows(s: Lock, log: seq<Entry>, entry: Entry)
    ensures Stepwise(s, log + [entry]) <==> Stepwise(s, log) && Fits(s, log, entry)
  {
    assert (log + [entry])[..|log|] == log;
  }

  /** A ticket whose predecessor is released has only released tickets before it. */
  lemma AllBeforeReleased(s: Lock, t: nat)
    requires InTurn(s) && Chained(s) && t < |s.tickets| && PriorReleased(s, t)
    ensures forall u :: Earlier(s, u, t) ==> IsReleased(s, u)
  {
    forall u | Earlier(s, u, t) ensures IsReleased(s, u) {
      if s.tickets[t].prior.Some? && u < s.tickets[t].prior.value {
        assert Earlier(s, u, s.tickets[t].prior.value);
      }
    }
  }

  /** Changing the phase of a ticket that is not released yet. */
  lemma SetPhaseKeepsQueue(s: Lock, t: nat, phase: Phase, after: Lock)
    requires InTurn(s) && Chained(s) && t < |s.tickets| && !IsReleased(s, t)
    requires |after.tickets| == |s.tickets| && after.tickets == s.tickets[t := after.tickets[t]]
    requires after.tickets[t].instance == s.tickets[t].instance && after.tickets[t].prior == s.tickets[t].prior
    requires after.tickets[t].phase == phase
    requires PastWaiting(phase) ==> forall u :: Earlier(s, u, t) ==> IsReleased(s, u)
    ensures InTurn(after) && Chained(after)
  {
    assert forall u, v :: Earlier(after, u, v) <==> Earlier(s, u, v);
    assert forall u :: IsReleased(s, u) ==> IsReleased(after, u);
  }

  lemma SetPhaseKeepsTails(s: Lock, t: nat, after: Lock)
    requires TailsOk(s) && t < |s.tickets| && !IsReleased(s, t)
    requires |after.tickets| == |s.tickets| && after.tickets == s.tickets[t := after.tickets[t]] && after.tails == s.tails
    requires after.tickets[t].instance == s.tickets[t].instance && after.tickets[t].phase != Released
    ensures TailsOk(after)
  {
    assert forall u :: IsReleased(s, u) <==> IsReleased(after, u);
  }

  lemma SetPhaseKeepsLog(s: Lock, t: nat, after: Lock)
    requires LogOk(s) && t < |s.tickets| && s.tickets[t].phase != Running && s.tickets[t].phase != Released
    requires |after.tickets| == |s.tickets| && after.tickets == s.tickets[t := after.tickets[t]] && after.log == s.log
    requires after.tickets[t].instance == s.tickets[t].instance && after.tickets[t].phase != Running
    ensures LogOk(after)
  {
    LogTickets(s, s.log);
    StepwiseUnder(s, after, s.log);
  }

  lemma ReleaseKeepsInv(s: Lock, t: nat)
    requires Inv(s) && t < |s.tickets| && !IsReleased(s, t)
    requires forall u :: Earlier(s, u, t) ==> IsReleased(s, u)
    ensures InTurn(Release(s, t)) && Chained(Release(s, t)) && TailsOk(Release(s, t))
    ensures s.tickets[t].phase != Running ==> LogOk(Release(s, t))
  {
    var after := Release(s, t);
    SetPhaseKeepsQueue(s, t, Released, after);
    ReleaseKeepsTails(s, t);
    if s.tickets[t].phase != Running {
      SetPhaseKeepsLog(s, t, after);
    }
  }

  lemma ReleaseKeepsTails(s: Lock, t: nat)
    requires TailsOk(s) && t < |s.tickets| && !IsReleased(s, t)
    requires forall u :: Earlier(s, u, t) ==> IsReleased(s, u)
    ensures TailsOk(Release(s, t))
  {
    var after := Release(s, t);
    assert forall u :: u != t ==> (IsReleased(s, u) <==> IsReleased(after, u));
    forall u | 0 <= u < |after.tickets| && !IsReleased(after, u) ensures after.tickets[u].instance in after.tails {
      assert u != t;
      assert s.tickets[u].instance in s.tails;
      if s.tickets[u].instance == s.tickets[t].instance {
        assert !Earlier(s, u, t);
      }
    }
  }

  /** The oldest unfinished ticket of its queue. */
  ghost predicate IsNext(s: Lock, t: nat) {
    Inv(s) && t < |s.tickets| && !IsReleased(s, t) && forall u :: Earlier(s, u, t) ==> IsReleased(s, u)
  }

  lemma TailLeftIffQueued(s: Lock, t: nat)
    requires IsNext(s, t)
    ensures s.tickets[t].instance in Release(s, t).tails <==> exists u :: Earlier(Release(s, t), t, u)
  {
    var instance := s.tickets[t].instance;
    assert instance in s.tails;
    var tail := s.tails[instance];
    assert forall u :: Earlier(Release(s, t), t, u) <==> Earlier(s, t, u);
    if tail == t {
      assert forall u :: Earlier(s, t, u) ==> u <= tail;
    } else {
      assert !Earlier(s, tail, t);
      assert Earlier(s, t, tail);
    }
  }

  lemma StartedBefore(s: Lock, t: nat, u: nat)
    requires InTurn(s) && LogOk(s) && t < |s.tickets| && s.tickets[t].phase != Released
    requires forall v :: Earlier(s, v, t) ==> IsReleased(s, v)
    requires u < |s.tickets| && u != t && Started(u) in s.log && s.tickets[u].instance == s.tickets[t].instance
    ensures u < t && Ended(u) in s.log
  {
    assert u < t ==> Earlier(s, u, t);
    assert t < u ==> Earlier(s, t, u);
  }

  lemma StartKeepsLog(s: Lock, t: nat)
    requires InTurn(s) && LogOk(s) && t < |s.tickets| && s.tickets[t].phase != Running && s.tickets[t].phase != Released
    requires forall u :: Earlier(s, u, t) ==> IsReleased(s, u)
    ensures LogOk(StartRun(s, t))
  {
    StartStepwise(s, t);
    StartedIsLogged(s, t);
  }

  lemma StartStepwise(s: Lock, t: nat)
    requires InTurn(s) && LogOk(s) && t < |s.tickets| && s.tickets[t].phase != Running && s.tickets[t].phase != Released
    requires forall u :: Earlier(s, u, t) ==> IsReleased(s, u)
    ensures Stepwise(StartRun(s, t), StartRun(s, t).log)
  {
    var after := StartRun(s, t);
    LogTickets(s, s.log);
    StepwiseUnder(s, after, s.log);
    LogGrows(after, s.log, Started(t));
    forall u: nat | u < |s.tickets| && u != t && Started(u) in s.log && s.tickets[u].instance == s.tickets[t].instance
      ensures u < t && Ended(u) in s.log
    {
      StartedBefore(s, t, u);
    }
    assert OthersEnded(after, s.log, t);
  }

  lemma StartedIsLogged(s: Lock, t: nat)
    requires StartedOk(s) && EndedOk(s) && RunningOk(s) && t < |s.tickets| && s.tickets[t].phase != Released
    ensures StartedOk(StartRun(s, t)) && EndedOk(StartRun(s, t)) && RunningOk(StartRun(s, t))
  {
    var after := StartRun(s, t);
    assert after.log[|s.log|] == Started(t);
    assert forall entry :: entry in after.log <==> entry in s.log || entry == Started(t);
  }

  lemma EndKeepsLog(s: Lock, t: nat)
    requires LogOk(s) && t < |s.tickets| && s.tickets[t].phase == Running
    ensures LogOk(EndRun(s, t))
  {
    EndStepwise(s, t);
    EndIsLogged(s, t);
  }

  lemma EndStepwise(s: Lock, t: nat)
    requires LogOk(s) && t < |s.tickets| && s.tickets[t].phase == Running
    ensures Stepwise(EndRun(s, t), EndRun(s, t).log)
  {
    var after := EndRun(s, t);
    LogTickets(s, s.log);
    StepwiseUnder(s, after, s.log);
    LogGrows(after, s.log, Ended(t));
  }

  lemma EndIsLogged(s: Lock, t: nat)
    requires StartedOk(s) && EndedOk(s) && RunningOk(s) && t < |s.tickets| && s.tickets[t].phase == Running
    ensures StartedOk(EndRun(s, t)) && EndedOk(EndRun(s, t)) && RunningOk(EndRun(s, t))
  {
    var after := EndRun(s, t);
    assert after.log[|s.log|] == Ended(t);
    assert forall entry :: entry in after.log <==> entry in s.log || entry == Ended(t);
  }

  lemma StartKeepsInv(s: Lock, t: nat)
    requires Inv(s) && t < |s.tickets| && s.tickets[t].phase != Running && s.tickets[t].phase != Released
    requires forall u :: Earlier(s, u, t) ==> IsReleased(s, u)
    ensures Inv(StartRun(s, t))
  {
    SetPhaseKeepsQueue(s, t, Running, StartRun(s, t));
    SetPhaseKeepsTails(s, t, StartRun(s, t));
    StartKeepsLog(s, t);
  }

  lemma PhaseKeepsInv(s: Lock, t: nat, after: Lock)
    requires Inv(s) && t < |s.tickets| && s.tickets[t].phase != Running && s.tickets[t].phase != Released
    requires |after.tickets| == |s.tickets| && after == s.(tickets := s.tickets[t := after.tickets[t]])
    requires after.tickets[t].instance == s.tickets[t].instance && after.tickets[t].prior == s.tickets[t].prior
    requires after.tickets[t].phase != Running && after.tickets[t].phase != Released
    requires PastWaiting(after.tickets[t].phase) ==> forall u :: Earlier(s, u, t) ==> IsReleased(s, u)
    ensures Inv(after)
  {
    SetPhaseKeepsQueue(s, t, after.tickets[t].phase, after);
    SetPhaseKeepsTails(s, t, after);
    SetPhaseKeepsLog(s, t, after);
  }

  /** A signal that fires behind the wait is only remembered. */
  lemma FlagKeepsInv(s: Lock, t: nat)
    requires Inv(s) && t < |s.tickets|
    ensures Inv(s.(tickets := s.tickets[t := s.tickets[t].(cancelled := true)]))
  {
    var after := s.(tickets := s.tickets[t := s.tickets[t].(cancelled := true)]);
    assert forall u, v :: Earlier(after, u, v) <==> Earlier(s, u, v);
    assert forall u :: IsReleased(s, u) <==> IsReleased(after, u);
    LogTickets(s, s.log);
    StepwiseUnder(s, after, s.log);
  }

  lemma CancelKeepsInv(s: Lock, t: nat)
    requires Inv(s)
    ensures Inv(Cancel(s, t))
  {
    if t < |s.tickets| && s.tickets[t].cancellable && !s.tickets[t].cancelled {
      if s.tickets[t].phase == Waiting {
        PhaseKeepsInv(s, t, Cancel(s, t));
      } else {
        FlagKeepsInv(s, t);
        assert s.tickets[t].(cancelled := true) == s.tickets[t].(cancelled := true, phase := s.tickets[t].phase);
      }
    }
  }

  lemma QueueKeepsQueues(s: Lock, instance: InstanceId, cancellable: bool)
    requires InTurn(s) && Chained(s) && TailsOk(s)
    ensures InTurn(Queue(s, instance, cancellable)) && Chained(Queue(s, instance, cancellable))
  {
    var after := Queue(s, instance, cancellable);
    assert forall u :: u < |s.tickets| ==> (IsReleased(s, u) <==> IsReleased(after, u));
    assert forall u, v :: v < |s.tickets| ==> (Earlier(after, u, v) <==> Earlier(s, u, v));
  }

  lemma QueueKeepsTails(s: Lock, instance: InstanceId, cancellable: bool)
    requires TailsOk(s)
    ensures TailsOk(Queue(s, instance, cancellable))
  {
    var after := Queue(s, instance, cancellable);
    assert forall u :: u < |s.tickets| ==> (IsReleased(s, u) <==> IsReleased(after, u));
  }

  lemma QueueKeepsLog(s: Lock, instance: InstanceId, cancellable: bool)
    requires LogOk(s)
    ensures LogOk(Queue(s, instance, cancellable))
  {
    var after := Queue(s, instance, cancellable);
    assert forall u :: u < |s.tickets| ==> (IsReleased(s, u) <==> IsReleased(after, u));
    LogTickets(s, s.log);
    StepwiseUnder(s, after, s.log);
  }

  lemma ArriveKeepsInv(s: Lock, instance: InstanceId, cancellable: bool, cancelled: bool)
    requires Inv(s)
    ensures Inv(Arrive(s, instance, cancellable, cancelled))
  {
    if !(cancellable && cancelled) {
      var queued := Queue(s, instance, cancellable);
      QueueKeepsQueues(s, instance, cancellable);
      QueueKeepsTails(s, instance, cancellable);
      QueueKeepsLog(s, instance, cancellable);
      if instance !in s.tails {
        AllBeforeReleased(queued, |s.tickets|);
        StartKeepsInv(queued, |s.tickets|);
      }
    }
  }

  lemma SeePriorKeepsInv(s: Lock, t: nat)
    requires Inv(s)
    ensures Inv(SeePrior(s, t))
  {
    if t < |s.tickets| && PriorReleased(s, t) {
      AllBeforeReleased(s, t);
      if s.tickets[t].phase == Waiting {
        PhaseKeepsInv(s, t, SeePrior(s, t));
      } else if s.tickets[t].phase == Abandoned {
        ReleaseKeepsInv(s, t);
      }
    }
  }

  lemma ContinueKeepsInv(s: Lock, t: nat, throws: bool)
    requires Inv(s)
    ensures Inv(Continue(s, t, throws))
  {
    if t < |s.tickets| && s.tickets[t].phase == Rejecting {
      PhaseKeepsInv(s, t, Continue(s, t, throws));
    } else if t < |s.tickets| && s.tickets[t].phase == HasTurn {
      ReleaseKeepsInv(s, t);
      StartKeepsInv(s, t);
    }
  }

  lemma EndRunKeepsInv(s: Lock, t: nat)
    requires Inv(s)
    ensures Inv(EndRun(s, t))
  {
    if t < |s.tickets| && s.tickets[t].phase == Running {
      ReleaseKeepsInv(s, t);
      EndKeepsLog(s, t);
      LogIsApart(Release(s, t), EndRun(s, t));
    }
  }

  lemma LogIsApart(s: Lock, after: Lock)
    requires InTurn(s) && Chained(s) && TailsOk(s) && after == s.(log := after.log)
    ensures InTurn(after) && Chained(after) && TailsOk(after)
  {
    assert forall u :: IsReleased(s, u) <==> IsReleased(after, u);
    assert forall u, v :: Earlier(after, u, v) <==> Earlier(s, u, v);
  }

  lemma StepKeepsInv(s: Lock, e: Event)
    requires Inv(s)
    ensures Inv(Step(s, e))
  {
    match e
    case Arrives(instance, cancellable, cancelled) => ArriveKeepsInv(s, instance, cancellable, cancelled);
    case Cancels(t) => CancelKeepsInv(s, t);
    case SeesPriorReleased(t) => SeePriorKeepsInv(s, t);
    case Continues(t, throws) => ContinueKeepsInv(s, t, throws);
    case RunEnds(t) => EndRunKeepsInv(s, t);
  }

  lemma {:induction false} EveryRunKeepsInv(events: seq<Event>)
    ensures Inv(Run(Initial(), events))
  {
    if events != [] {
      EveryRunKeepsInv(events[..|events| - 1]);
      StepKeepsInv(Run(Initial(), events[..|events| - 1]), events[|events| - 1]);
    }
  }

  // ---------------------------------------------------------------------------------------------
  // Main results
  // ---------------------------------------------------------------------------------------------

  /** At most one operation runs on an instance at any time. */
  lemma MutualExclusion(events: seq<Event>, t: nat, u: nat)
    requires var s := Run(Initial(), events);
             && t < |s.tickets| && u < |s.tickets| && s.tickets[t].instance == s.tickets[u].instance
             && s.tickets[t].phase == Running && s.tickets[u].phase == Running
    ensures t == u
  {
    EveryRunKeepsInv(events);
    var s := Run(Initial(), events);
    assert t < u ==> Earlier(s, t, u);
    assert u < t ==> Earlier(s, u, t);
  }

  lemma {:induction false} StepwiseAt(s: Lock, log: seq<Entry>, k: nat)
    requires Stepwise(s, log) && k < |log|
    ensures Fits(s, log[..k], log[k])
    decreases |log|
  {
    if k < |log| - 1 {
      assert log[..|log| - 1][..k] == log[..k];
      StepwiseAt(s, log[..|log| - 1], k);
    }
  }

  /** Operations on one instance start in the order of their calls, each after the end of the one before. */
  lemma StartsInArrivalOrder(events: seq<Event>, j: nat, k: nat)
    requires var s := Run(Initial(), events);
             && j < k < |s.log| && s.log[j].Started? && s.log[k].Started?
             && s.log[j].ticket < |s.tickets| && s.log[k].ticket < |s.tickets|
             && s.tickets[s.log[j].ticket].instance == s.tickets[s.log[k].ticket].instance
    ensures var log := Run(Initial(), events).log;
            && log[j].ticket < log[k].ticket
            && exists m :: j < m < k && log[m] == Ended(log[j].ticket)
  {
    EveryRunKeepsInv(events);
    var s := Run(Initial(), events);
    StepwiseAt(s, s.log, k);
    var before := s.log[..k];
    assert before[j] == s.log[j];
    assert Started(s.log[j].ticket) in before && Started(s.log[k].ticket) !in before;
    var m :| 0 <= m < k && before[m] == Ended(s.log[j].ticket);
    EndFollowsStart(s, s.log, m, j);
  }

  lemma EndFollowsStart(s: Lock, log: seq<Entry>, m: nat, j: nat)
    requires Stepwise(s, log) && m < |log| && j < |log| && log[j].Started? && log[m] == Ended(log[j].ticket)
    ensures j < m
  {
    StepwiseAt(s, log, m);
    StepwiseAt(s, log, j);
    var started :| 0 <= started < m && log[..m][started] == log[j];
    if started < j {
      NoRepetition(s, log, started, j);
    } else if j < started {
      NoRepetition(s, log, j, started);
    }
  }

  lemma NoRepetition(s: Lock, log: seq<Entry>, i: nat, j: nat)
    requires Stepwise(s, log) && i < j < |log|
    ensures log[i] != log[j]
  {
    StepwiseAt(s, log, j);
    assert log[..j][i] == log[i];
  }

  /** A call that was cancelled by the time it would start never runs, and an uncancelled one that has its turn does. */
  lemma StartsIffNotCancelled(s: Lock, t: nat, waitCallbackThrows: bool)
    requires t < |s.tickets| && Started(t) !in s.log
    ensures Started(t) in Continue(s, t, waitCallbackThrows).log <==>
            s.tickets[t].phase == HasTurn && !s.tickets[t].cancelled && !waitCallbackThrows
  {
    var after := Continue(s, t, waitCallbackThrows);
    assert |after.log| > |s.log| ==> after.log[|s.log|] == Started(t);
  }

  /** Released tickets form a prefix of every queue: a cancelled waiter never lets others overtake. */
  lemma ReleasedInOrder(events: seq<Event>, u: nat, t: nat)
    requires var s := Run(Initial(), events); Earlier(s, u, t) && IsReleased(s, t)
    ensures IsReleased(Run(Initial(), events), u)
  {
    EveryRunKeepsInv(events);
  }

  /** The map has an entry for an instance iff some call for it is not finished, and then it is the last one. */
  lemma TailIffUnfinished(events: seq<Event>, instance: InstanceId)
    ensures var s := Run(Initial(), events);
            && (instance in s.tails <==>
                  exists t: nat :: t < |s.tickets| && s.tickets[t].instance == instance && !IsReleased(s, t))
            && (instance in s.tails ==>
                  forall t: nat :: t < |s.tickets| && s.tickets[t].instance == instance ==> t <= s.tails[instance])
  {
    EveryRunKeepsInv(events);
  }

  // ---------------------------------------------------------------------------------------------
  // The queue always drains
  // ---------------------------------------------------------------------------------------------

  function Rank(phase: Phase): nat {
    match phase
    case Waiting => 3
    case Rejecting => 2
    case HasTurn => 2
    case Abandoned => 1
    case Running => 1
    case Released => 0
  }

  function Remaining(tickets: seq<Ticket>): nat {
    if tickets == [] then 0 else Rank(tickets[|tickets| - 1].phase) + Remaining(tickets[..|tickets| - 1])
  }

  lemma {:induction false} RemainingFalls(tickets: seq<Ticket>, t: nat, changed: Ticket)
    requires t < |tickets|
    ensures Remaining(tickets[t := changed]) == Remaining(tickets) - Rank(tickets[t].phase) + Rank(changed.phase)
    decreases |tickets|
  {
    var init := tickets[..|tickets| - 1];
    if t < |tickets| - 1 {
      RemainingFalls(init, t, changed);
      assert tickets[t := changed][..|tickets| - 1] == init[t := changed];
    } else {
      assert tickets[t := changed][..|tickets| - 1] == init;
    }
  }

  /** What the oldest unfinished ticket does next when nothing else happens. */
  function NextEvent(s: Lock, t: nat): Event
    requires t < |s.tickets|
  {
    match s.tickets[t].phase
    case Running => RunEnds(t)
    case Rejecting => Continues(t, false)
    case HasTurn => Continues(t, false)
    case _ => SeesPriorReleased(t)
  }

  predicate Internal(e: Event) {
    e.SeesPriorReleased? || e.Continues? || e.RunEnds?
  }

  /** The oldest unfinished ticket can always take its next step, which brings the queue closer to its end. */
  lemma OldestCanProgress(s: Lock, t: nat)
    requires Inv(s) && t < |s.tickets| && !IsReleased(s, t)
    requires forall u :: Earlier(s, u, t) ==> IsReleased(s, u)
    ensures Internal(NextEvent(s, t))
    ensures Remaining(Step(s, NextEvent(s, t)).tickets) < Remaining(s.tickets)
  {
    var after := Step(s, NextEvent(s, t));
    assert PriorReleased(s, t);
    RemainingFalls(s.tickets, t, after.tickets[t]);
    assert after.tickets == s.tickets[t := after.tickets[t]];
  }

  lemma {:induction false} NoneRemaining(tickets: seq<Ticket>, t: nat)
    requires t < |tickets| && Remaining(tickets) == 0
    ensures tickets[t].phase == Released
    decreases |tickets|
  {
    if t < |tickets| - 1 {
      NoneRemaining(tickets[..|tickets| - 1], t);
    }
  }

  lemma {:induction false} OldestUnfinished(s: Lock, n: nat) returns (t: nat)
    requires n <= |s.tickets| && Remaining(s.tickets[..n]) > 0
    ensures t < n && !IsReleased(s, t) && forall u :: 0 <= u < t ==> IsReleased(s, u)
    decreases n
  {
    assert s.tickets[..n][..n - 1] == s.tickets[..n - 1];
    if Remaining(s.tickets[..n - 1]) > 0 {
      t := OldestUnfinished(s, n - 1);
    } else {
      t := n - 1;
      forall u | 0 <= u < t ensures IsReleased(s, u) {
        NoneRemaining(s.tickets[..n - 1], u);
      }
    }
  }

  lemma {:induction false} RunConcat(s: Lock, events: seq<Event>, more: seq<Event>)
    ensures Run(s, events + more) == Run(Run(s, events), more)
    decreases |more|
  {
    if more == [] {
      assert events + more == events;
    } else {
      assert (events + more)[..|events + more| - 1] == events + more[..|more| - 1];
      RunConcat(s, events, more[..|more| - 1]);
    }
  }

  /** Cancelled while it waited, and not running since. */
  predicate GivenUp(s: Lock, t: nat) {
    && t < |s.tickets| && Started(t) !in s.log
    && (s.tickets[t].phase == Rejecting || s.tickets[t].phase == Abandoned || s.tickets[t].phase == Released)
  }

  lemma {:induction false} StaysGivenUp(s: Lock, t: nat, more: seq<Event>)
    requires GivenUp(s, t)
    ensures GivenUp(Run(s, more), t)
  {
    if more != [] {
      StaysGivenUp(s, t, more[..|more| - 1]);
      GivenUpNext(Run(s, more[..|more| - 1]), t, more[|more| - 1]);
    }
  }

  lemma GivenUpNext(s: Lock, t: nat, e: Event)
    requires GivenUp(s, t)
    ensures GivenUp(Step(s, e), t)
  {
  }

  /** A call that was cancelled while it waited never runs, whatever happens later. */
  lemma GivenUpNeverStarts(events: seq<Event>, more: seq<Event>, t: nat)
    requires var s := Run(Initial(), events);
             t < |s.tickets| && (s.tickets[t].phase == Rejecting || s.tickets[t].phase == Abandoned)
    ensures Started(t) !in Run(Initial(), events + more).log
  {
    EveryRunKeepsInv(events);
    var s := Run(Initial(), events);
    assert Ended(t) in s.log ==> IsReleased(s, t);
    StaysGivenUp(s, t, more);
    RunConcat(Initial(), events, more);
  }

  ghost predicate Idle(s: Lock) {
    (forall t: nat :: t < |s.tickets| ==> IsReleased(s, t)) && s.tails == map[]
  }

  lemma IdleWhenNoneRemains(s: Lock)
    requires TailsOk(s) && Remaining(s.tickets) == 0
    ensures Idle(s)
  {
    forall t: nat | t < |s.tickets| ensures IsReleased(s, t) {
      NoneRemaining(s.tickets, t);
    }
  }

  lemma {:induction false} Drains(s: Lock) returns (more: seq<Event>)
    requires Inv(s)
    ensures forall k :: 0 <= k < |more| ==> Internal(more[k])
    ensures Idle(Run(s, more))
    decreases Remaining(s.tickets)
  {
    if Remaining(s.tickets) == 0 {
      more := [];
      IdleWhenNoneRemains(s);
    } else {
      assert s.tickets[..|s.tickets|] == s.tickets;
      var t := OldestUnfinished(s, |s.tickets|);
      var next := NextEvent(s, t);
      OldestCanProgress(s, t);
      StepKeepsInv(s, next);
      var rest := Drains(Step(s, next));
      more := [next] + rest;
      RunOne(s, next);
      RunConcat(s, [next], rest);
    }
  }

  lemma RunOne(s: Lock, e: Event)
    ensures Run(s, [e]) == Step(s, e)
  {
    assert [e][..0] == [];
  }

  /**
   From every reachable state the calls that are queued can finish without any further call or
   cancellation: nobody is stuck behind a waiter that gave up.
   */
  lemma QueueDrains(events: seq<Event>) returns (more: seq<Event>)
    ensures forall k :: 0 <= k < |more| ==> Internal(more[k])
    ensures Idle(Run(Initial(), events + more))
  {
    EveryRunKeepsInv(events);
    more := Drains(Run(Initial(), events));
    RunConcat(Initial(), events, more);
  }

  // ---------------------------------------------------------------------------------------------
  // The map that the program updates in place
  // ---------------------------------------------------------------------------------------------

  class BrowserInstanceLock {
    var lockTails: map<InstanceId, nat>
    var tickets: seq<Ticket>
    var log: seq<Entry>

    function View(): Lock
      reads this
    {
      Lock(lockTails, tickets, log)
    }

    constructor ()
      ensures View() == Initial() && Inv(View())
    {
      lockTails, tickets, log := map[], [], [];
      EveryRunKeepsInv([]);
    }

    /** The synchronous part of `withBrowserInstanceLock`; it runs at once when nobody is queued. */
    method Enter(instance: InstanceId, cancellable: bool, cancelled: bool) returns (started: bool)
      requires Inv(View())
      modifies this
      ensures View() == Arrive(old(View()), instance, cancellable, cancelled) && Inv(View())
      ensures started <==> !(cancellable && cancelled) && instance !in old(lockTails)
    {
      ArriveKeepsInv(View(), instance, cancellable, cancelled);
      if cancellable && cancelled {
        return false;
      }
      var current := |tickets|;
      var prior := if instance in lockTails then Some(lockTails[instance]) else None;
      lockTails := lockTails[instance := current];
      tickets := tickets + [Ticket(instance, prior, cancellable, false, Waiting)];
      if prior.Some? {
        return false;
      }
      tickets := tickets[current := tickets[current].(phase := Running)];
      log := log + [Started(current)];
      return true;
    }

    /**
     `release` and `cleanupTail`: the queue goes on in order, and the map forgets the instance exactly
     if nobody is queued behind the ticket.
     */
    method ReleaseTicket(t: nat)
      requires t < |tickets|
      modifies this`tickets, this`lockTails
      ensures View() == Release(old(View()), t)
      ensures IsNext(old(View()), t) ==>
                && InTurn(View()) && Chained(View()) && TailsOk(View())
                && (old(tickets)[t].phase != Running ==> Inv(View()))
                && (tickets[t].instance in lockTails <==> exists u :: Earlier(View(), t, u))
    {
      ghost var before := View();
      if IsNext(before, t) {
        ReleaseKeepsInv(before, t);
        TailLeftIffQueued(before, t);
      }
      var instance := tickets[t].instance;
      tickets := tickets[t := tickets[t].(phase := Released)];
      if instance in lockTails && lockTails[instance] == t {
        lockTails := lockTails - {instance};
      }
    }

    /** The caller goes on behind `waitForTurn`: it gives up, passes the turn on, or runs. */
    method ContinueCall(t: nat, waitCallbackThrows: bool) returns (started: bool)
      requires Inv(View()) && t < |tickets|
      modifies this
      ensures View() == Continue(old(View()), t, waitCallbackThrows) && Inv(View())
      ensures started <==> old(tickets)[t].phase == HasTurn && !waitCallbackThrows && !old(tickets)[t].cancelled
    {
      ContinueKeepsInv(View(), t, waitCallbackThrows);
      if tickets[t].phase == Rejecting {
        tickets := tickets[t := tickets[t].(phase := Abandoned)];
        return false;
      }
      if tickets[t].phase != HasTurn {
        return false;
      }
      if waitCallbackThrows || tickets[t].cancelled {
        ReleaseTicket(t);
        return false;
      }
      tickets := tickets[t := tickets[t].(phase := Running)];
      log := log + [Started(t)];
      return true;
    }

    /** The end of `run`, normal or not. */
    method FinishRun(t: nat)
      requires Inv(View()) && t < |tickets| && tickets[t].phase == Running
      modifies this
      ensures View() == EndRun(old(View()), t) && Inv(View())
    {
      EndRunKeepsInv(View(), t);
      ReleaseTicket(t);
      log := log + [Ended(t)];
    }
  }
}
