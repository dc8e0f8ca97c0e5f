/**
 The companion's interaction broker: every request of the Runtime settles once, however remote
 candidates, rejections, policies, deadlines, aborts and the end of the binding race
 (`packages/companion/src/interaction-broker.ts`, lines 282-951).
 */
module InteractionBroker {
  import opened Wrappers

  type InteractionId = nat
  type ApprovalId = nat
  type GenerationId = nat
  type WorkspaceId = nat

  /** An approval request carries the id of its approval; a user input request carries none. */
  datatype Interaction = Interaction(
    id: InteractionId,
    approval: Option<ApprovalId>,
    turn: nat,
    runtimeAborted: bool,
    listening: bool,
    leased: bool,
    requestPublished: bool,
    active: Option<nat>)

  datatype Candidate = Approve | Reject | Input

  datatype Progress = Authorizing | Deciding | Done

  /**
   A candidate being processed. A candidate that repeats the active one's request id joins it or is
   refused, depending on its fingerprint; neither starts anything, so fingerprints are left out. A legacy approval has no generation; it starts at the local policy. */
  datatype Attempt = Attempt(
    interaction: nat,
    request: Option<nat>,
    generation: Option<GenerationId>,
    candidate: Candidate,
    controllerAborted: bool,
    progress: Progress)

  datatype Outcome =
    | Approved(attempt: nat)
    | Rejected
    | Answered(attempt: nat)
    | Cancelled

  /** What can be observed from outside, in order. */
  datatype Entry =
    | RequestSent(interaction: nat, workspace: WorkspaceId)
    | TerminalSent(interaction: nat, workspace: WorkspaceId, resolved: bool)
    | Settled(interaction: nat, outcome: Outcome)
    | ResponderAllowed(attempt: nat)
    | PolicyAllowed(attempt: nat)
    | GenerationEnded(generation: GenerationId)

  /** `records` lists every interaction ever registered; its position stands for the object's identity. */
  datatype Broker = Broker(
    pending: map<InteractionId, nat>,
    approvalInteractions: map<ApprovalId, InteractionId>,
    workspace: Option<WorkspaceId>,
    closed: bool,
    records: seq<Interaction>,
    attempts: seq<Attempt>,
    log: seq<Entry>)

  // ---------------------------------------------------------------------------------------------
  // Settling
  // ---------------------------------------------------------------------------------------------

  predicate StillPending(b: Broker, i: nat)
    requires i < |b.records|
  {
    b.records[i].id in b.pending && b.pending[b.records[i].id] == i
  }

  function AbortController(attempts: seq<Attempt>, active: Option<nat>): seq<Attempt> {
    if active.Some? && active.value < |attempts|
    then attempts[active.value := attempts[active.value].(controllerAborted := true)]
    else attempts
  }

  /** The terminal frame: only behind a published request, and only while a workspace is bound. */
  function Terminal(b: Broker, i: nat, outcome: Outcome): seq<Entry>
    requires i < |b.records|
  {
    if b.records[i].requestPublished && b.workspace.Some?
    then [TerminalSent(i, b.workspace.value, outcome != Cancelled)]
    else []
  }

  function Finish(b: Broker, i: nat, outcome: Outcome): Broker
    requires i < |b.records|
  {
    if !StillPending(b, i) then b
    else
      var r := b.records[i];
      b.(pending := b.pending - {r.id},
         approvalInteractions := if r.approval.Some? then b.approvalInteractions - {r.approval.value} else b.approvalInteractions,
         records := b.records[i := r.(listening := false, leased := false)],
         attempts := AbortController(b.attempts, r.active),
         log := b.log + Terminal(b, i, outcome) + [Settled(i, outcome)])
  }

  /** Cancels the first `n` interactions that are pending and belong to `turn`, if one is given. */
  function CancelFirst(b: Broker, n: nat, turn: Option<nat>): Broker
    requires n <= |b.records|
    ensures |CancelFirst(b, n, turn).records| == |b.records|
  {
    if n == 0 then b
    else
      CancelOne(CancelFirst(b, n - 1, turn), n - 1, turn)
  }

  function CancelOne(b: Broker, i: nat, turn: Option<nat>): Broker
    requires i < |b.records|
    ensures |CancelOne(b, i, turn).records| == |b.records|
  {
    if turn.None? || b.records[i].turn == turn.value then Finish(b, i, Cancelled) else b
  }

  function CancelAll(b: Broker): Broker {
    CancelFirst(b, |b.records|, None)
  }

  // ---------------------------------------------------------------------------------------------
  // Registration
  // ---------------------------------------------------------------------------------------------

  /** What the environment decides while an interaction is activated. */
  datatype Activation = Activation(aborted: bool, expired: bool, publishes: bool, abortsMeanwhile: bool, expiresMeanwhile: bool)

  /** A registration that is refused before it becomes pending: listener and lease are given back. */
  function Refuse(b: Broker, r: Interaction): Broker {
    b.(records := b.records + [r.(listening := false, leased := false)],
       log := b.log + [Settled(|b.records|, Cancelled)])
  }

  function Enter(b: Broker, r: Interaction): Broker {
    b.(records := b.records + [r],
       pending := b.pending[r.id := |b.records|],
       approvalInteractions := if r.approval.Some? then b.approvalInteractions[r.approval.value := r.id] else b.approvalInteractions)
  }

  function PublishRequest(b: Broker, i: nat): Broker
    requires i < |b.records|
  {
    if b.workspace.None? then b
    else
      b.(records := b.records[i := b.records[i].(requestPublished := true)],
         log := b.log + [RequestSent(i, b.workspace.value)])
  }

  /** `registerApproval` / `registerUserInput` with `activatePending`. */
  function Register(b: Broker, id: InteractionId, approval: Option<ApprovalId>, turn: nat, e: Activation): Broker {
    var r := Interaction(id, approval, turn, e.aborted, true, true, false, None);
    if approval.Some? && approval.value in b.approvalInteractions then Refuse(b, r)
    else if b.closed || b.workspace.None? then Refuse(b, r)
    else if id in b.pending then Refuse(b, r)
    else if e.expired then Refuse(b, r)
    else
      var i, entered := |b.records|, Enter(b, r);
      if e.aborted then Finish(entered, i, Cancelled)
      else if !e.publishes then Finish(entered, i, Cancelled)
      else
        var published := PublishRequest(entered, i);
        if e.abortsMeanwhile then Finish(published.(records := published.records[i := published.records[i].(runtimeAborted := true)]), i, Cancelled)
        else if e.expiresMeanwhile then Finish(published, i, Cancelled)
        else published
  }

  // ---------------------------------------------------------------------------------------------
  // Candidates
  // ---------------------------------------------------------------------------------------------

  predicate Ended(b: Broker, generation: Option<GenerationId>) {
    generation.Some? && GenerationEnded(generation.value) in b.log
  }

  function SetActive(b: Broker, i: nat, active: Option<nat>): Broker
    requires i < |b.records|
  {
    b.(records := b.records[i := b.records[i].(active := active)])
  }

  /** The active candidate of an interaction, after dropping one whose connection has ended. */
  function DropStale(b: Broker, i: nat): Broker
    requires i < |b.records|
  {
    var active := b.records[i].active;
    if active.Some? && active.value < |b.attempts| && Ended(b, b.attempts[active.value].generation)
    then SetActive(b.(attempts := AbortController(b.attempts, active)), i, None)
    else b
  }

  /** `submitCandidate` up to its first `await`. `matches` tells whether thread, turn and method agree. */
  function Submit(b: Broker, id: InteractionId, matches: bool, request: nat, generation: GenerationId, candidate: Candidate): Broker {
    if b.closed || b.workspace.None? || id !in b.pending || !matches || Ended(b, Some(generation)) then b
    else
      var i := b.pending[id];
      if i >= |b.records| then b
      else
        var dropped := DropStale(b, i);
        var active := dropped.records[i].active;
        var attempt := Attempt(i, Some(request), Some(generation), candidate, false, Authorizing);
        var started := dropped.(attempts := dropped.attempts + [attempt]);
        if active.None? then SetActive(started, i, Some(|dropped.attempts|))
        else if active.value < |dropped.attempts| && dropped.attempts[active.value].request == Some(request) then dropped
        else started
  }

  function EndAttempt(b: Broker, a: nat): Broker
    requires a < |b.attempts|
  {
    b.(attempts := b.attempts[a := b.attempts[a].(progress := Done)])
  }

  /** Another candidate is in progress for the interaction of attempt `a`. */
  predicate Blocked(b: Broker, a: nat)
    requires a < |b.attempts| && b.attempts[a].interaction < |b.records|
  {
    var active := b.records[b.attempts[a].interaction].active;
    && active.Some?
    && (active.value < |b.attempts| ==> b.attempts[active.value].request != b.attempts[a].request)
    && b.attempts[a].candidate != Reject
  }

  /** The candidate answers the kind of request the interaction is. */
  predicate Fitting(b: Broker, a: nat)
    requires a < |b.attempts| && b.attempts[a].interaction < |b.records|
  {
    b.attempts[a].candidate == Input <==> b.records[b.attempts[a].interaction].approval.None?
  }

  /** `process` behind the responder policy, which returned `allowed`; `valid` is the schema's verdict. */
  function ResponderReturns(b: Broker, a: nat, allowed: bool, valid: bool): Broker {
    if a >= |b.attempts| || b.attempts[a].progress != Authorizing || b.attempts[a].interaction >= |b.records| then b
    else
      var attempt, ended := b.attempts[a], EndAttempt(b, a);
      if Ended(b, attempt.generation) || !StillPending(b, attempt.interaction) || !allowed then ended
      else
        var noted := ended.(log := b.log + [ResponderAllowed(a)]);
        if !valid || Blocked(b, a) || !Fitting(b, a) then noted
        else
          match attempt.candidate
          case Input => Finish(noted, attempt.interaction, Answered(a))
          case Reject => Finish(noted.(attempts := AbortController(noted.attempts, b.records[attempt.interaction].active)), attempt.interaction, Rejected)
          case Approve =>
            if b.closed || b.workspace.None? then noted
            else noted.(attempts := b.attempts[a := attempt.(progress := Deciding)])
  }

  function ResponderThrows(b: Broker, a: nat): Broker {
    if a >= |b.attempts| || b.attempts[a].progress != Authorizing then b else EndAttempt(b, a)
  }

  datatype Decision = Allow | Deny | RequireLocalConfirmation

  /** The signal that `approveCandidate` checks: the connection's, or a legacy candidate's own. */
  predicate SignalAborted(b: Broker, attempt: Attempt) {
    if attempt.generation.Some? then Ended(b, attempt.generation) else attempt.controllerAborted
  }

  /** `approveCandidate` behind the local policy. */
  function PolicyReturns(b: Broker, a: nat, decision: Decision): Broker {
    if a >= |b.attempts| || b.attempts[a].progress != Deciding || b.attempts[a].interaction >= |b.records| then b
    else
      var attempt, ended := b.attempts[a], EndAttempt(b, a);
      if SignalAborted(b, attempt) || !StillPending(b, attempt.interaction) then ended
      else
        match decision
        case Deny => Finish(ended, attempt.interaction, Rejected)
        case RequireLocalConfirmation => ended
        case Allow => Finish(ended.(log := b.log + [PolicyAllowed(a)]), attempt.interaction, Approved(a))
  }

  /** A local policy that throws, returns something else or is aborted fails closed. */
  function PolicyThrows(b: Broker, a: nat): Broker {
    if a >= |b.attempts| || b.attempts[a].progress != Deciding || b.attempts[a].interaction >= |b.records| then b
    else
      var attempt, ended := b.attempts[a], EndAttempt(b, a);
      if SignalAborted(b, attempt) || !StillPending(b, attempt.interaction) then ended
      else Finish(ended, attempt.interaction, Cancelled)
  }

  /** `clearCandidateAttempt`, once the attempt has ended. */
  function ClearAttempt(b: Broker, a: nat): Broker {
    if a >= |b.attempts| || b.attempts[a].progress != Done || b.attempts[a].interaction >= |b.records| then b
    else if b.records[b.attempts[a].interaction].active == Some(a) then SetActive(b, b.attempts[a].interaction, None)
    else b
  }

  /** `submitLegacyApprovalCandidate`, which has no responder policy. `matches`: thread and turn agree. */
  function SubmitLegacy(b: Broker, approval: ApprovalId, matches: bool, reject: bool): Broker {
    if approval !in b.approvalInteractions || b.approvalInteractions[approval] !in b.pending || !matches then b
    else
      var i := b.pending[b.approvalInteractions[approval]];
      if i >= |b.records| || b.records[i].approval.None? then b
      else if reject then
        Finish(b.(attempts := AbortController(b.attempts, b.records[i].active)), i, Rejected)
      else if b.records[i].active.Some? || b.closed || b.workspace.None? then b
      else
        var attempt := Attempt(i, None, None, Approve, false, Deciding);
        SetActive(b.(attempts := b.attempts + [attempt]), i, Some(|b.attempts|))
  }

  // ---------------------------------------------------------------------------------------------
  // Steps
  // ---------------------------------------------------------------------------------------------

  datatype Event =
    | Binds(workspace: WorkspaceId)
    | BindingReleased
    | Closes
    | Registers(id: InteractionId, approval: Option<ApprovalId>, turn: nat, activation: Activation)
    | RuntimeAborts(interaction: nat)
    | DeadlineFires(interaction: nat, expired: bool)
    | TurnEnds(turn: nat)
    | GenerationEnds(generation: GenerationId)
    | Submits(id: InteractionId, matches: bool, request: nat, generation: GenerationId, candidate: Candidate)
    | SubmitsLegacy(approvalId: ApprovalId, matches: bool, reject: bool)
    | ResponderDecides(attempt: nat, allowed: bool, valid: bool)
    | ResponderFails(attempt: nat)
    | PolicyDecides(attempt: nat, decision: Decision)
    | PolicyFails(attempt: nat)
    | AttemptSettles(attempt: nat)

  function OnRuntimeAborts(b: Broker, i: nat): Broker {
    if i >= |b.records| || b.records[i].runtimeAborted then b
    else
      var aborted := b.(records := b.records[i := b.records[i].(runtimeAborted := true)]);
      if b.records[i].listening then Finish(aborted, i, Cancelled) else aborted
  }

  function Step(b: Broker, e: Event): Broker {
    match e
    case Binds(workspace) => if b.closed || b.workspace.Some? then b else b.(workspace := Some(workspace))
    case BindingReleased => if b.workspace.None? then b else CancelAll(b).(workspace := None)
    case Closes => if b.closed then b else CancelAll(b.(closed := true)).(workspace := None)
    case Registers(id, approval, turn, activation) => Register(b, id, approval, turn, activation)
    case RuntimeAborts(i) => OnRuntimeAborts(b, i)
    case DeadlineFires(i, expired) => if i < |b.records| && expired then Finish(b, i, Cancelled) else b
    case TurnEnds(turn) => CancelFirst(b, |b.records|, Some(turn))
    case GenerationEnds(generation) => b.(log := b.log + [GenerationEnded(generation)])
    case Submits(id, matches, request, generation, candidate) =>
      Submit(b, id, matches, request, generation, candidate)
    case SubmitsLegacy(approval, matches, reject) => SubmitLegacy(b, approval, matches, reject)
    case ResponderDecides(a, allowed, valid) => ResponderReturns(b, a, allowed, valid)
    case ResponderFails(a) => ResponderThrows(b, a)
    case PolicyDecides(a, decision) => PolicyReturns(b, a, decision)
    case PolicyFails(a) => PolicyThrows(b, a)
    case AttemptSettles(a) => ClearAttempt(b, a)
  }

  function Run(b: Broker, events: seq<Event>): Broker {
    if events == [] then b else Step(Run(b, events[..|events| - 1]), events[|events| - 1])
  }

  function Initial(): Broker {
    Broker(map[], map[], None, false, [], [], [])
  }

  // ---------------------------------------------------------------------------------------------
  // Reading the log
  // ---------------------------------------------------------------------------------------------

  function One(condition: bool): nat {
    if condition then 1 else 0
  }

  function Requests(log: seq<Entry>, i: nat): nat {
    if log == [] then 0
    else Requests(log[..|log| - 1], i) + One(log[|log| - 1].RequestSent? && log[|log| - 1].interaction == i)
  }

  function Terminals(log: seq<Entry>, i: nat): nat {
    if log == [] then 0
    else Terminals(log[..|log| - 1], i) + One(log[|log| - 1].TerminalSent? && log[|log| - 1].interaction == i)
  }

  function Settlements(log: seq<Entry>, i: nat): nat {
    if log == [] then 0
    else Settlements(log[..|log| - 1], i) + One(log[|log| - 1].Settled? && log[|log| - 1].interaction == i)
  }

  /**
   What must have happened before an entry: a terminal frame follows its request, on the same
   workspace; a policy is only heard while its interaction is open and its connection alive; and an
   approval that came through a connection was allowed by that candidate's responder policy and by
   the local policy while the connection lived.
   */
  ghost predicate Fits(attempts: seq<Attempt>, log: seq<Entry>, entry: Entry) {
    match entry
    case RequestSent(i, _) => Settlements(log, i) == 0
    case TerminalSent(i, workspace, _) => RequestSent(i, workspace) in log && Settlements(log, i) == 0
    case Settled(i, outcome) =>
      && Settlements(log, i) == 0
      && (outcome.Approved? ==> ApprovedOk(attempts, log, i, outcome.attempt))
      && (outcome.Answered? ==> ResponderAllowed(outcome.attempt) in log && Concerns(attempts, outcome.attempt, i))
    case ResponderAllowed(a) => a < |attempts| && Settlements(log, attempts[a].interaction) == 0 && Alive(attempts, log, a)
    case PolicyAllowed(a) => a < |attempts| && Settlements(log, attempts[a].interaction) == 0 && Alive(attempts, log, a)
    case GenerationEnded(_) => true
  }

  ghost predicate Alive(attempts: seq<Attempt>, log: seq<Entry>, a: nat)
    requires a < |attempts|
  {
    attempts[a].generation.Some? ==> GenerationEnded(attempts[a].generation.value) !in log
  }

  ghost predicate Concerns(attempts: seq<Attempt>, a: nat, i: nat) {
    a < |attempts| && attempts[a].interaction == i
  }

  ghost predicate ApprovedOk(attempts: seq<Attempt>, log: seq<Entry>, i: nat, a: nat) {
    && Concerns(attempts, a, i) && attempts[a].candidate == Approve
    && PolicyAllowed(a) in log && Alive(attempts, log, a)
    && (attempts[a].generation.Some? ==> ResponderAllowed(a) in log)
  }

  ghost predicate Stepwise(attempts: seq<Attempt>, log: seq<Entry>) {
    log != [] ==> Stepwise(attempts, log[..|log| - 1]) && Fits(attempts, log[..|log| - 1], log[|log| - 1])
  }

  lemma LogGrows(attempts: seq<Attempt>, log: seq<Entry>, entry: Entry)
    ensures Stepwise(attempts, log + [entry]) <==> Stepwise(attempts, log) && Fits(attempts, log, entry)
    ensures forall i :: Requests(log + [entry], i) == Requests(log, i) + One(entry.RequestSent? && entry.interaction == i)
    ensures forall i :: Terminals(log + [entry], i) == Terminals(log, i) + One(entry.TerminalSent? && entry.interaction == i)
    ensures forall i :: Settlements(log + [entry], i) == Settlements(log, i) + One(entry.Settled? && entry.interaction == i)
  {
    assert (log + [entry])[..|log|] == log;
  }

  /** Two attempt tables that agree on what an attempt is for. */
  ghost predicate SameAttempts(before: seq<Attempt>, after: seq<Attempt>) {
    && |before| <= |after|
    && forall a :: 0 <= a < |before| ==>
                     after[a] == before[a].(controllerAborted := after[a].controllerAborted, progress := after[a].progress)
  }

  lemma {:induction false} StepwiseUnder(before: seq<Attempt>, after: seq<Attempt>, log: seq<Entry>)
    requires Stepwise(before, log) && SameAttempts(before, after)
    ensures Stepwise(after, log)
  {
    if log != [] {
      StepwiseUnder(before, after, log[..|log| - 1]);
    }
  }

  // ---------------------------------------------------------------------------------------------
  // The invariant
  // ---------------------------------------------------------------------------------------------

  /** `approvalInteractions` is exactly the inverse index of the pending approvals. */
  ghost predicate Indexed(b: Broker) {
    && (forall id :: id in b.pending ==> b.pending[id] < |b.records| && b.records[b.pending[id]].id == id)
    && (forall approval :: approval in b.approvalInteractions ==>
          && b.approvalInteractions[approval] in b.pending
          && b.records[b.pending[b.approvalInteractions[approval]]].approval == Some(approval))
    && (forall id :: id in b.pending && b.records[b.pending[id]].approval.Some? ==>
          && b.records[b.pending[id]].approval.value in b.approvalInteractions
          && b.approvalInteractions[b.records[b.pending[id]].approval.value] == id)
  }

  ghost predicate Bound(b: Broker) {
    && (b.pending != map[] ==> b.workspace.Some? && !b.closed)
    && (b.closed ==> b.workspace.None?)
  }

  /** The books of one interaction: settled once, a terminal frame iff a request was sent and it settled. */
  ghost predicate RecordOk(b: Broker, i: nat)
    requires i < |b.records|
  {
    var r := b.records[i];
    && Settlements(b.log, i) == One(!StillPending(b, i))
    && Requests(b.log, i) == One(r.requestPublished)
    && Terminals(b.log, i) == One(r.requestPublished && !StillPending(b, i))
    && (r.listening <==> StillPending(b, i)) && (r.leased <==> StillPending(b, i))
    && (StillPending(b, i) && r.requestPublished ==> b.workspace.Some? && RequestSent(i, b.workspace.value) in b.log)
  }

  ghost predicate NoneBeyond(b: Broker) {
    forall i :: i >= |b.records| ==> Settlements(b.log, i) == 0 && Requests(b.log, i) == 0 && Terminals(b.log, i) == 0
  }

  ghost predicate AttemptsOk(b: Broker) {
    && (forall a :: 0 <= a < |b.attempts| ==> b.attempts[a].interaction < |b.records|)
    && (forall a :: 0 <= a < |b.attempts| && b.attempts[a].progress == Deciding ==>
          && b.attempts[a].candidate == Approve
          && (b.attempts[a].generation.Some? ==> ResponderAllowed(a) in b.log))
  }

  ghost predicate Books(b: Broker) {
    forall i :: 0 <= i < |b.records| ==> RecordOk(b, i)
  }

  ghost predicate Inv(b: Broker) {
    Indexed(b) && Bound(b) && Books(b) && NoneBeyond(b) && AttemptsOk(b) && Stepwise(b.attempts, b.log)
  }

  // ---------------------------------------------------------------------------------------------
  // Settling keeps the invariant
  // ---------------------------------------------------------------------------------------------

  lemma FinishLog(b: Broker, i: nat, outcome: Outcome)
    requires i < |b.records| && StillPending(b, i)
    ensures var log := Finish(b, i, outcome).log;
            && (forall j :: Settlements(log, j) == Settlements(b.log, j) + One(j == i))
            && (forall j :: Requests(log, j) == Requests(b.log, j))
            && (forall j :: Terminals(log, j) ==
                            Terminals(b.log, j) + One(j == i && b.records[i].requestPublished && b.workspace.Some?))
            && (forall entry :: entry in b.log ==> entry in log)
  {
    var terminal, settled := Terminal(b, i, outcome), Settled(i, outcome);
    if terminal == [] {
      assert b.log + terminal == b.log;
    } else {
      LogGrows(b.attempts, b.log, terminal[0]);
    }
    LogGrows(b.attempts, b.log + terminal, settled);
  }

  /** The terminal frame of an open interaction fits behind the log. */
  lemma TerminalFits(b: Broker, i: nat, outcome: Outcome)
    requires i < |b.records| && StillPending(b, i) && RecordOk(b, i) && Stepwise(b.attempts, b.log)
    ensures Stepwise(b.attempts, b.log + Terminal(b, i, outcome))
    ensures Settlements(b.log + Terminal(b, i, outcome), i) == 0
  {
    var terminal := Terminal(b, i, outcome);
    if terminal == [] {
      assert b.log + terminal == b.log;
    } else {
      LogGrows(b.attempts, b.log, terminal[0]);
    }
  }

  /** What justified an outcome still does when a terminal frame has been sent. */
  lemma JustifiedBehindTerminal(b: Broker, i: nat, outcome: Outcome)
    requires i < |b.records|
    requires outcome.Approved? ==> ApprovedOk(b.attempts, b.log, i, outcome.attempt)
    requires outcome.Answered? ==> ResponderAllowed(outcome.attempt) in b.log
    ensures var log := b.log + Terminal(b, i, outcome);
            && (outcome.Approved? ==> ApprovedOk(b.attempts, log, i, outcome.attempt))
            && (outcome.Answered? ==> ResponderAllowed(outcome.attempt) in log)
  {
  }

  lemma FinishStepwise(b: Broker, i: nat, outcome: Outcome)
    requires i < |b.records| && StillPending(b, i) && RecordOk(b, i) && Stepwise(b.attempts, b.log)
    requires outcome.Approved? ==> ApprovedOk(b.attempts, b.log, i, outcome.attempt)
    requires outcome.Answered? ==> ResponderAllowed(outcome.attempt) in b.log && Concerns(b.attempts, outcome.attempt, i)
    ensures Stepwise(b.attempts, Finish(b, i, outcome).log)
  {
    var log := b.log + Terminal(b, i, outcome);
    TerminalFits(b, i, outcome);
    JustifiedBehindTerminal(b, i, outcome);
    assert Fits(b.attempts, log, Settled(i, outcome));
    AppendedFits(b.attempts, log, Settled(i, outcome));
  }

  lemma AppendedFits(attempts: seq<Attempt>, log: seq<Entry>, entry: Entry)
    requires Stepwise(attempts, log) && Fits(attempts, log, entry)
    ensures Stepwise(attempts, log + [entry])
  {
    assert (log + [entry])[..|log|] == log;
  }

  lemma FinishIndexed(b: Broker, i: nat, outcome: Outcome)
    requires i < |b.records| && StillPending(b, i) && Indexed(b) && Bound(b)
    ensures Indexed(Finish(b, i, outcome)) && Bound(Finish(b, i, outcome))
  {
    var after := Finish(b, i, outcome);
    var r := b.records[i];
    forall approval | approval in after.approvalInteractions
      ensures after.approvalInteractions[approval] in after.pending
    {
      var id := b.approvalInteractions[approval];
      assert b.records[b.pending[id]].approval == Some(approval);
    }
  }

  lemma FinishBooks(b: Broker, i: nat, outcome: Outcome)
    requires i < |b.records| && StillPending(b, i) && Indexed(b) && Books(b) && NoneBeyond(b)
    ensures Books(Finish(b, i, outcome)) && NoneBeyond(Finish(b, i, outcome))
  {
    var after := Finish(b, i, outcome);
    FinishLog(b, i, outcome);
    forall j | 0 <= j < |after.records| ensures RecordOk(after, j) {
      assert RecordOk(b, j);
      if j == i {
        FinishOwnBook(b, i, outcome);
      } else {
        FinishOtherBook(b, i, outcome, j);
      }
    }
  }

  lemma FinishOwnBook(b: Broker, i: nat, outcome: Outcome)
    requires i < |b.records| && StillPending(b, i) && RecordOk(b, i)
    ensures RecordOk(Finish(b, i, outcome), i)
  {
    FinishLog(b, i, outcome);
  }

  lemma FinishOtherBook(b: Broker, i: nat, outcome: Outcome, j: nat)
    requires i < |b.records| && StillPending(b, i) && j < |b.records| && j != i && RecordOk(b, j)
    ensures RecordOk(Finish(b, i, outcome), j)
  {
    FinishLog(b, i, outcome);
    assert StillPending(Finish(b, i, outcome), j) <==> StillPending(b, j);
  }

  lemma AbortKeepsAttempts(attempts: seq<Attempt>, active: Option<nat>)
    ensures SameAttempts(attempts, AbortController(attempts, active)) && |AbortController(attempts, active)| == |attempts|
    ensures forall a :: 0 <= a < |attempts| ==> AbortController(attempts, active)[a].progress == attempts[a].progress
  {
  }

  lemma FinishKeepsInv(b: Broker, i: nat, outcome: Outcome)
    requires Inv(b) && i < |b.records|
    requires outcome.Approved? ==> ApprovedOk(b.attempts, b.log, i, outcome.attempt)
    requires outcome.Answered? ==> ResponderAllowed(outcome.attempt) in b.log && Concerns(b.attempts, outcome.attempt, i)
    ensures Inv(Finish(b, i, outcome)) && !StillPending(Finish(b, i, outcome), i)
  {
    if StillPending(b, i) {
      assert RecordOk(b, i);
      FinishIndexed(b, i, outcome);
      FinishBooks(b, i, outcome);
      FinishStepwise(b, i, outcome);
      FinishLog(b, i, outcome);
      AbortKeepsAttempts(b.attempts, b.records[i].active);
      StepwiseUnder(b.attempts, Finish(b, i, outcome).attempts, Finish(b, i, outcome).log);
    }
  }

  lemma FinishShrinks(b: Broker, i: nat, outcome: Outcome)
    requires i < |b.records|
    ensures var after := Finish(b, i, outcome);
            && after.closed == b.closed && after.workspace == b.workspace
            && |after.records| == |b.records|
            && after.pending.Keys <= b.pending.Keys
            && (forall j :: 0 <= j < |b.records| && !StillPending(b, j) ==> !StillPending(after, j))
            && !StillPending(after, i)
  {
  }

  lemma CancelOneKeepsInv(b: Broker, i: nat, turn: Option<nat>)
    requires Inv(b) && i < |b.records|
    ensures Inv(CancelOne(b, i, turn))
  {
    FinishKeepsInv(b, i, Cancelled);
  }

  /** What every single cancellation keeps, the loop keeps. */
  lemma {:induction false} CancelFirstKeeps(kept: Broker -> bool, b: Broker, n: nat, turn: Option<nat>)
    requires kept(b) && n <= |b.records|
    requires forall x: Broker, i: nat :: kept(x) && i < |x.records| ==> kept(CancelOne(x, i, turn))
    ensures kept(CancelFirst(b, n, turn))
  {
    if n > 0 {
      CancelFirstKeeps(kept, b, n - 1, turn);
    }
  }

  lemma CancelFirstKeepsInv(b: Broker, n: nat, turn: Option<nat>)
    requires Inv(b) && n <= |b.records|
    ensures Inv(CancelFirst(b, n, turn))
  {
    forall x: Broker, i: nat | Inv(x) && i < |x.records| ensures Inv(CancelOne(x, i, turn)) {
      CancelOneKeepsInv(x, i, turn);
    }
    CancelFirstKeeps(x => Inv(x), b, n, turn);
  }

  lemma {:induction false} CancelFirstShrinks(b: Broker, n: nat, turn: Option<nat>)
    requires n <= |b.records|
    ensures CancelFirst(b, n, turn).closed == b.closed && CancelFirst(b, n, turn).workspace == b.workspace
    ensures turn.None? ==> forall i :: 0 <= i < n ==> !StillPending(CancelFirst(b, n, turn), i)
  {
    if n > 0 {
      CancelFirstShrinks(b, n - 1, turn);
      FinishShrinks(CancelFirst(b, n - 1, turn), n - 1, Cancelled);
    }
  }

  /** After `cancelAll` nothing is pending, so the workspace may be unbound and the broker closed. */
  lemma CancelAllEmpties(b: Broker)
    requires Inv(b)
    ensures Inv(CancelAll(b)) && CancelAll(b).pending == map[] && CancelAll(b).approvalInteractions == map[]
  {
    var after := CancelAll(b);
    CancelFirstKeepsInv(b, |b.records|, None);
    CancelFirstShrinks(b, |b.records|, None);
    NonePending(after);
  }

  lemma NonePending(b: Broker)
    requires Indexed(b) && forall i :: 0 <= i < |b.records| ==> !StillPending(b, i)
    ensures b.pending == map[] && b.approvalInteractions == map[]
  {
    assert forall id :: id in b.pending ==> StillPending(b, b.pending[id]);
  }

  lemma UnbindKeepsInv(b: Broker, closed: bool)
    requires Inv(b) && b.pending == map[]
    ensures Inv(b.(workspace := None, closed := closed))
  {
    var after := b.(workspace := None, closed := closed);
    forall i | 0 <= i < |after.records| ensures RecordOk(after, i) {
      assert RecordOk(b, i);
    }
  }

  lemma BindKeepsInv(b: Broker, workspace: WorkspaceId)
    requires Inv(b) && !b.closed && b.workspace.None?
    ensures Inv(b.(workspace := Some(workspace)))
  {
    var after := b.(workspace := Some(workspace));
    forall i | 0 <= i < |after.records| ensures RecordOk(after, i) {
      assert RecordOk(b, i);
      assert StillPending(after, i) == StillPending(b, i);
    }
  }

  // ---------------------------------------------------------------------------------------------
  // Registering keeps the invariant
  // ---------------------------------------------------------------------------------------------

  lemma RefuseKeepsInv(b: Broker, r: Interaction)
    requires Inv(b) && !r.requestPublished
    ensures Inv(Refuse(b, r))
  {
    var after := Refuse(b, r);
    LogGrows(b.attempts, b.log, Settled(|b.records|, Cancelled));
    RefuseIndexed(b, r);
    forall i | 0 <= i < |after.records| ensures RecordOk(after, i) {
      if i < |b.records| {
        assert RecordOk(b, i);
        assert StillPending(after, i) == StillPending(b, i);
      }
    }
  }

  lemma RefuseIndexed(b: Broker, r: Interaction)
    requires Indexed(b) && Bound(b)
    ensures Indexed(Refuse(b, r)) && Bound(Refuse(b, r))
    ensures !StillPending(Refuse(b, r), |b.records|)
  {
  }

  lemma EnterKeepsInv(b: Broker, r: Interaction)
    requires Inv(b) && !b.closed && b.workspace.Some?
    requires r.id !in b.pending && (r.approval.Some? ==> r.approval.value !in b.approvalInteractions)
    requires r.listening && r.leased && !r.requestPublished
    ensures Inv(Enter(b, r)) && StillPending(Enter(b, r), |b.records|)
  {
    var after := Enter(b, r);
    EnterIndexed(b, r);
    forall i | 0 <= i < |after.records| ensures RecordOk(after, i) {
      if i < |b.records| {
        assert RecordOk(b, i);
        assert StillPending(after, i) == StillPending(b, i);
      }
    }
  }

  lemma EnterIndexed(b: Broker, r: Interaction)
    requires Indexed(b)
    requires r.id !in b.pending && (r.approval.Some? ==> r.approval.value !in b.approvalInteractions)
    ensures Indexed(Enter(b, r))
  {
    var after := Enter(b, r);
    forall approval | approval in after.approvalInteractions
      ensures after.approvalInteractions[approval] in after.pending
      ensures after.records[after.pending[after.approvalInteractions[approval]]].approval == Some(approval)
    {
      if approval in b.approvalInteractions {
        assert b.approvalInteractions[approval] in b.pending;
      }
    }
  }

  lemma PublishKeepsBook(b: Broker, i: nat, j: nat)
    requires i < |b.records| && j < |b.records| && StillPending(b, i) && !b.records[i].requestPublished
    requires b.workspace.Some? && RecordOk(b, j)
    ensures RecordOk(PublishRequest(b, i), j)
  {
    var after := PublishRequest(b, i);
    LogGrows(b.attempts, b.log, RequestSent(i, b.workspace.value));
    assert after.log[|b.log|] == RequestSent(i, b.workspace.value);
    assert StillPending(after, j) == StillPending(b, j);
  }

  lemma PublishKeepsInv(b: Broker, i: nat)
    requires Inv(b) && i < |b.records| && StillPending(b, i) && !b.records[i].requestPublished
    ensures Inv(PublishRequest(b, i))
  {
    if b.workspace.Some? {
      var after := PublishRequest(b, i);
      assert RecordOk(b, i);
      LogGrows(b.attempts, b.log, RequestSent(i, b.workspace.value));
      assert Books(after) by {
        forall j | 0 <= j < |after.records| ensures RecordOk(after, j) {
          assert RecordOk(b, j);
          PublishKeepsBook(b, i, j);
        }
      }
      PublishKeepsRest(b, i);
    }
  }

  lemma PublishKeepsRest(b: Broker, i: nat)
    requires i < |b.records| && b.workspace.Some? && Indexed(b) && Bound(b) && NoneBeyond(b) && AttemptsOk(b)
    ensures var after := PublishRequest(b, i); Indexed(after) && Bound(after) && NoneBeyond(after) && AttemptsOk(after)
  {
    LogGrows(b.attempts, b.log, RequestSent(i, b.workspace.value));
  }

  /** Fields that only the processing of candidates and the Runtime's abort signal read. */
  lemma SideFieldKeepsInv(b: Broker, i: nat, active: Option<nat>, runtimeAborted: bool)
    requires Inv(b) && i < |b.records|
    ensures Inv(b.(records := b.records[i := b.records[i].(active := active, runtimeAborted := runtimeAborted)]))
  {
    var after := b.(records := b.records[i := b.records[i].(active := active, runtimeAborted := runtimeAborted)]);
    forall j | 0 <= j < |after.records| ensures RecordOk(after, j) {
      assert RecordOk(b, j);
      assert StillPending(after, j) == StillPending(b, j);
    }
  }

  lemma RegisterKeepsInv(b: Broker, id: InteractionId, approval: Option<ApprovalId>, turn: nat, e: Activation)
    requires Inv(b)
    ensures Inv(Register(b, id, approval, turn, e))
  {
    var r := Interaction(id, approval, turn, e.aborted, true, true, false, None);
    if (approval.Some? && approval.value in b.approvalInteractions) || b.closed || b.workspace.None? || id in b.pending || e.expired {
      RefuseKeepsInv(b, r);
    } else {
      var i, entered := |b.records|, Enter(b, r);
      EnterKeepsInv(b, r);
      if e.aborted || !e.publishes {
        FinishKeepsInv(entered, i, Cancelled);
      } else {
        PublishKeepsInv(entered, i);
        var published := PublishRequest(entered, i);
        SideFieldKeepsInv(published, i, published.records[i].active, true);
        var aborted := published.(records := published.records[i := published.records[i].(runtimeAborted := true)]);
        assert aborted == published.(records := published.records[i := published.records[i].(active := published.records[i].active, runtimeAborted := true)]);
        FinishKeepsInv(aborted, i, Cancelled);
        FinishKeepsInv(published, i, Cancelled);
      }
    }
  }

  // ---------------------------------------------------------------------------------------------
  // Candidates keep the invariant
  // ---------------------------------------------------------------------------------------------

  lemma AttemptsChangeKeepsInv(b: Broker, attempts: seq<Attempt>)
    requires Inv(b) && SameAttempts(b.attempts, attempts)
    requires AttemptsOk(b.(attempts := attempts))
    ensures Inv(b.(attempts := attempts))
  {
    var after := b.(attempts := attempts);
    StepwiseUnder(b.attempts, attempts, b.log);
    forall i | 0 <= i < |after.records| ensures RecordOk(after, i) {
      assert RecordOk(b, i);
      assert StillPending(after, i) == StillPending(b, i);
    }
  }

  lemma EndAttemptKeepsInv(b: Broker, a: nat)
    requires Inv(b) && a < |b.attempts|
    ensures Inv(EndAttempt(b, a))
  {
    AttemptsChangeKeepsInv(b, EndAttempt(b, a).attempts);
  }

  lemma AbortKeepsInv(b: Broker, active: Option<nat>)
    requires Inv(b)
    ensures Inv(b.(attempts := AbortController(b.attempts, active)))
  {
    AbortKeepsAttempts(b.attempts, active);
    AttemptsChangeKeepsInv(b, AbortController(b.attempts, active));
  }

  /** Recording a decision or the end of a connection. */
  lemma NoteKeepsInv(b: Broker, entry: Entry)
    requires Inv(b) && Fits(b.attempts, b.log, entry)
    requires entry.ResponderAllowed? || entry.PolicyAllowed? || entry.GenerationEnded?
    ensures Inv(b.(log := b.log + [entry]))
  {
    var after := b.(log := b.log + [entry]);
    LogGrows(b.attempts, b.log, entry);
    forall i | 0 <= i < |after.records| ensures RecordOk(after, i) {
      assert RecordOk(b, i);
      assert StillPending(after, i) == StillPending(b, i);
    }
  }

  lemma DropStaleKeepsInv(b: Broker, i: nat)
    requires Inv(b) && i < |b.records|
    ensures Inv(DropStale(b, i)) && |DropStale(b, i).attempts| == |b.attempts| && |DropStale(b, i).records| == |b.records|
  {
    var active := b.records[i].active;
    AbortKeepsInv(b, active);
    var aborted := b.(attempts := AbortController(b.attempts, active));
    SetActiveKeepsInv(aborted, i, None);
  }

  lemma SetActiveKeepsInv(b: Broker, i: nat, active: Option<nat>)
    requires Inv(b) && i < |b.records|
    ensures Inv(SetActive(b, i, active))
  {
    SideFieldKeepsInv(b, i, active, b.records[i].runtimeAborted);
    assert b.records[i].(active := active, runtimeAborted := b.records[i].runtimeAborted) == b.records[i].(active := active);
  }

  lemma StartKeepsInv(b: Broker, attempt: Attempt)
    requires Inv(b) && attempt.interaction < |b.records|
    requires attempt.progress == Deciding ==> attempt.candidate == Approve && attempt.generation.None?
    ensures Inv(b.(attempts := b.attempts + [attempt]))
  {
    AttemptsChangeKeepsInv(b, b.attempts + [attempt]);
  }

  lemma SubmitKeepsInv(b: Broker, id: InteractionId, matches: bool, request: nat, generation: GenerationId, candidate: Candidate)
    requires Inv(b)
    ensures Inv(Submit(b, id, matches, request, generation, candidate))
  {
    if id in b.pending {
      var i := b.pending[id];
      DropStaleKeepsInv(b, i);
      var dropped := DropStale(b, i);
      var attempt := Attempt(i, Some(request), Some(generation), candidate, false, Authorizing);
      StartKeepsInv(dropped, attempt);
      SetActiveKeepsInv(dropped.(attempts := dropped.attempts + [attempt]), i, Some(|dropped.attempts|));
    }
  }

  lemma SubmitLegacyKeepsInv(b: Broker, approval: ApprovalId, matches: bool, reject: bool)
    requires Inv(b)
    ensures Inv(SubmitLegacy(b, approval, matches, reject))
  {
    if approval in b.approvalInteractions && b.approvalInteractions[approval] in b.pending {
      var i := b.pending[b.approvalInteractions[approval]];
      if reject {
        AbortKeepsInv(b, b.records[i].active);
        FinishKeepsInv(b.(attempts := AbortController(b.attempts, b.records[i].active)), i, Rejected);
      } else {
        var attempt := Attempt(i, None, None, Approve, false, Deciding);
        StartKeepsInv(b, attempt);
        SetActiveKeepsInv(b.(attempts := b.attempts + [attempt]), i, Some(|b.attempts|));
      }
    }
  }

  /** The part of `ResponderReturns` behind an allowed and recorded decision. */
  lemma AuthorizedKeepsInv(b: Broker, a: nat, valid: bool)
    requires Inv(b) && a < |b.attempts| && b.attempts[a].progress == Authorizing
    requires !Ended(b, b.attempts[a].generation) && StillPending(b, b.attempts[a].interaction)
    ensures Inv(ResponderReturns(b, a, true, valid))
  {
    var attempt, ended := b.attempts[a], EndAttempt(b, a);
    EndAttemptKeepsInv(b, a);
    assert RecordOk(b, attempt.interaction);
    NoteKeepsInv(ended, ResponderAllowed(a));
    var noted := ended.(log := b.log + [ResponderAllowed(a)]);
    assert noted.log[|b.log|] == ResponderAllowed(a);
    if valid && !Blocked(b, a) && Fitting(b, a) {
      match attempt.candidate {
        case Input => FinishKeepsInv(noted, attempt.interaction, Answered(a));
        case Reject =>
          AbortKeepsInv(noted, b.records[attempt.interaction].active);
          FinishKeepsInv(noted.(attempts := AbortController(noted.attempts, b.records[attempt.interaction].active)), attempt.interaction, Rejected);
        case Approve =>
          var attempts := b.attempts[a := attempt.(progress := Deciding)];
          DecidingOk(noted, a, attempts);
          AttemptsChangeKeepsInv(noted, attempts);
      }
    }
  }

  lemma DecidingOk(b: Broker, a: nat, attempts: seq<Attempt>)
    requires AttemptsOk(b) && a < |b.attempts| == |attempts|
    requires b.attempts[a].candidate == Approve && ResponderAllowed(a) in b.log
    requires attempts == b.attempts[a := b.attempts[a].(progress := Deciding)]
    ensures AttemptsOk(b.(attempts := attempts)) && SameAttempts(b.attempts, attempts)
  {
  }

  lemma ResponderReturnsKeepsInv(b: Broker, a: nat, allowed: bool, valid: bool)
    requires Inv(b)
    ensures Inv(ResponderReturns(b, a, allowed, valid))
  {
    if a < |b.attempts| && b.attempts[a].progress == Authorizing {
      EndAttemptKeepsInv(b, a);
      if allowed && !Ended(b, b.attempts[a].generation) && StillPending(b, b.attempts[a].interaction) {
        AuthorizedKeepsInv(b, a, valid);
      }
    }
  }

  lemma PolicyReturnsKeepsInv(b: Broker, a: nat, decision: Decision)
    requires Inv(b)
    ensures Inv(PolicyReturns(b, a, decision))
  {
    if a < |b.attempts| && b.attempts[a].progress == Deciding {
      var attempt, ended := b.attempts[a], EndAttempt(b, a);
      EndAttemptKeepsInv(b, a);
      if !SignalAborted(b, attempt) && StillPending(b, attempt.interaction) {
        assert RecordOk(b, attempt.interaction);
        FinishKeepsInv(ended, attempt.interaction, Rejected);
        NoteKeepsInv(ended, PolicyAllowed(a));
        var noted := ended.(log := b.log + [PolicyAllowed(a)]);
        assert noted.log[|b.log|] == PolicyAllowed(a);
        FinishKeepsInv(noted, attempt.interaction, Approved(a));
      }
    }
  }

  lemma PolicyThrowsKeepsInv(b: Broker, a: nat)
    requires Inv(b)
    ensures Inv(PolicyThrows(b, a))
  {
    if a < |b.attempts| && b.attempts[a].progress == Deciding {
      EndAttemptKeepsInv(b, a);
      FinishKeepsInv(EndAttempt(b, a), b.attempts[a].interaction, Cancelled);
    }
  }

  lemma OnRuntimeAbortsKeepsInv(b: Broker, i: nat)
    requires Inv(b)
    ensures Inv(OnRuntimeAborts(b, i))
  {
    if i < |b.records| && !b.records[i].runtimeAborted {
      SideFieldKeepsInv(b, i, b.records[i].active, true);
      var r := b.records[i];
      assert r.(active := r.active, runtimeAborted := true) == r.(runtimeAborted := true);
      FinishKeepsInv(b.(records := b.records[i := r.(runtimeAborted := true)]), i, Cancelled);
    }
  }

  lemma BindingStepKeepsInv(b: Broker, e: Event)
    requires Inv(b) && (e.Binds? || e.BindingReleased? || e.Closes?)
    ensures Inv(Step(b, e))
  {
    match e
    case Binds(workspace) =>
      if !b.closed && b.workspace.None? {
        BindKeepsInv(b, workspace);
      }
    case BindingReleased =>
      CancelAllEmpties(b);
      CancelFirstShrinks(b, |b.records|, None);
      UnbindKeepsInv(CancelAll(b), b.closed);
    case Closes =>
      CancelAllEmpties(b);
      UnbindKeepsInv(CancelAll(b), true);
      if !b.closed {
        ClosingCancels(b);
      }
  }

  /** `close` marks the broker closed before it cancels; cancelling does not look at that mark. */
  lemma {:induction false} ClosingFirst(b: Broker, n: nat, turn: Option<nat>)
    requires n <= |b.records|
    ensures CancelFirst(b.(closed := true), n, turn) == CancelFirst(b, n, turn).(closed := true)
  {
    if n > 0 {
      ClosingFirst(b, n - 1, turn);
    }
  }

  lemma ClosingCancels(b: Broker)
    ensures Step(b, Closes) == if b.closed then b else CancelAll(b).(workspace := None, closed := true)
  {
    ClosingFirst(b, |b.records|, None);
  }

  lemma StepKeepsInv(b: Broker, e: Event)
    requires Inv(b)
    ensures Inv(Step(b, e))
  {
    match e
    case Binds(_) => BindingStepKeepsInv(b, e);
    case BindingReleased => BindingStepKeepsInv(b, e);
    case Closes => BindingStepKeepsInv(b, e);
    case Registers(id, approval, turn, activation) => RegisterKeepsInv(b, id, approval, turn, activation);
    case RuntimeAborts(i) => OnRuntimeAbortsKeepsInv(b, i);
    case DeadlineFires(i, expired) =>
      if i < |b.records| {
        FinishKeepsInv(b, i, Cancelled);
      }
    case TurnEnds(turn) => CancelFirstKeepsInv(b, |b.records|, Some(turn));
    case GenerationEnds(generation) => NoteKeepsInv(b, GenerationEnded(generation));
    case Submits(id, matches, request, generation, candidate) => SubmitKeepsInv(b, id, matches, request, generation, candidate);
    case SubmitsLegacy(approval, matches, reject) => SubmitLegacyKeepsInv(b, approval, matches, reject);
    case ResponderDecides(a, allowed, valid) => ResponderReturnsKeepsInv(b, a, allowed, valid);
    case ResponderFails(a) =>
      if a < |b.attempts| {
        EndAttemptKeepsInv(b, a);
      }
    case PolicyDecides(a, decision) => PolicyReturnsKeepsInv(b, a, decision);
    case PolicyFails(a) => PolicyThrowsKeepsInv(b, a);
    case AttemptSettles(a) =>
      if a < |b.attempts| {
        SetActiveKeepsInv(b, b.attempts[a].interaction, None);
      }
  }

  lemma {:induction false} EveryRunKeepsInv(events: seq<Event>)
    ensures Inv(Run(Initial(), events))
  {
    if events != [] {
      EveryRunKeepsInv(events[..|events| - 1]);
      StepKeepsInv(Run(Initial(), events[..|events| - 1]), events[|events| - 1]);
    }
  }

  // ---------------------------------------------------------------------------------------------
  // Main results
  // ---------------------------------------------------------------------------------------------

  lemma {:induction false} StepwiseAt(attempts: seq<Attempt>, log: seq<Entry>, k: nat)
    requires Stepwise(attempts, log) && k < |log|
    ensures Fits(attempts, log[..k], log[k])
    decreases |log|
  {
    if k < |log| - 1 {
      assert log[..|log| - 1][..k] == log[..k];
      StepwiseAt(attempts, log[..|log| - 1], k);
    }
  }

  lemma {:induction false} CountedIfThere(log: seq<Entry>, j: nat)
    requires j < |log|
    ensures log[j].Settled? ==> Settlements(log, log[j].interaction) > 0
    decreases |log|
  {
    if j < |log| - 1 {
      CountedIfThere(log[..|log| - 1], j);
    }
  }

  /**
   The Runtime's promise of an interaction is settled exactly when the interaction is no longer
   pending, and never a second time; its lease is held exactly as long.
   */
  lemma SettledExactlyOnce(events: seq<Event>, i: nat)
    requires i < |Run(Initial(), events).records|
    ensures var b := Run(Initial(), events);
            && Settlements(b.log, i) == (if StillPending(b, i) then 0 else 1)
            && (b.records[i].leased <==> StillPending(b, i))
  {
    EveryRunKeepsInv(events);
    assert RecordOk(Run(Initial(), events), i);
  }

  /** Whichever outcome settles an interaction first excludes every other one, in particular an approval. */
  lemma FirstOutcomeWins(events: seq<Event>, j: nat, k: nat)
    requires var log := Run(Initial(), events).log;
             j < k < |log| && log[j].Settled? && log[k].Settled?
    ensures var log := Run(Initial(), events).log; log[j].interaction != log[k].interaction
  {
    EveryRunKeepsInv(events);
    var b := Run(Initial(), events);
    StepwiseAt(b.attempts, b.log, k);
    CountedIfThere(b.log[..k], j);
  }

  /**
   A published request is followed by exactly one attempt to publish its end once it is settled, and
   by none while it is pending; an interaction whose request was not published gets no terminal frame.
   */
  lemma OneTerminalPerRequest(events: seq<Event>, i: nat)
    requires i < |Run(Initial(), events).records|
    ensures var b := Run(Initial(), events);
            && Requests(b.log, i) <= 1
            && Terminals(b.log, i) == (if StillPending(b, i) then 0 else Requests(b.log, i))
  {
    EveryRunKeepsInv(events);
    assert RecordOk(Run(Initial(), events), i);
  }

  /** A terminal frame goes to the workspace that was sent the request before. */
  lemma TerminalFollowsItsRequest(events: seq<Event>, k: nat)
    requires k < |Run(Initial(), events).log| && Run(Initial(), events).log[k].TerminalSent?
    ensures var log := Run(Initial(), events).log;
            exists j :: 0 <= j < k && log[j] == RequestSent(log[k].interaction, log[k].workspace)
  {
    EveryRunKeepsInv(events);
    var b := Run(Initial(), events);
    StepwiseAt(b.attempts, b.log, k);
    assert RequestSent(b.log[k].interaction, b.log[k].workspace) in b.log[..k];
  }

  /**
   An approval that came through a connection reaches the Runtime only if, before that and while the
   interaction was open, that very candidate's responder policy and the local policy both allowed it
   and its connection had not ended.
   */
  lemma ApprovedOnlyIfAllowed(events: seq<Event>, k: nat)
    requires var log := Run(Initial(), events).log;
             k < |log| && log[k].Settled? && log[k].outcome.Approved?
    ensures var b := Run(Initial(), events);
            var a := b.log[k].outcome.attempt;
            && a < |b.attempts| && b.attempts[a].interaction == b.log[k].interaction
            && PolicyAllowed(a) in b.log[..k]
            && Settlements(b.log[..k], b.log[k].interaction) == 0
            && (b.attempts[a].generation.Some? ==>
                  && ResponderAllowed(a) in b.log[..k]
                  && GenerationEnded(b.attempts[a].generation.value) !in b.log[..k])
  {
    EveryRunKeepsInv(events);
    var b := Run(Initial(), events);
    StepwiseAt(b.attempts, b.log, k);
  }

  /** The decision of the local policy settles an approval iff it is heard in time, and then as decided. */
  lemma PolicyDecidesIffInTime(events: seq<Event>, a: nat, decision: Decision)
    requires var b := Run(Initial(), events); a < |b.attempts| && b.attempts[a].progress == Deciding
    ensures var b := Run(Initial(), events);
            var after := PolicyReturns(b, a, decision);
            var i := b.attempts[a].interaction;
            && i < |b.records|
            && var inTime := StillPending(b, i) && !SignalAborted(b, b.attempts[a]);
            && (inTime && decision == Allow <==> Settled(i, Approved(a)) in after.log && Settled(i, Approved(a)) !in b.log)
            && (inTime && decision == Deny <==> Settled(i, Rejected) in after.log && Settled(i, Rejected) !in b.log)
            && (!inTime || decision == RequireLocalConfirmation ==> after.log == b.log && after.pending == b.pending)
  {
    EveryRunKeepsInv(events);
    var b := Run(Initial(), events);
    var i := b.attempts[a].interaction;
    assert RecordOk(b, i);
    if StillPending(b, i) {
      NotSettledYet(b.log, i, Approved(a));
      NotSettledYet(b.log, i, Rejected);
      if !SignalAborted(b, b.attempts[a]) && decision != RequireLocalConfirmation {
        var outcome := if decision == Allow then Approved(a) else Rejected;
        var after := PolicyReturns(b, a, decision);
        assert after.log[|after.log| - 1] == Settled(i, outcome);
      }
    }
  }

  lemma NotSettledYet(log: seq<Entry>, i: nat, outcome: Outcome)
    requires Settlements(log, i) == 0
    ensures Settled(i, outcome) !in log
  {
    if Settled(i, outcome) in log {
      var j :| 0 <= j < |log| && log[j] == Settled(i, outcome);
      CountedIfThere(log, j);
    }
  }

  // ---------------------------------------------------------------------------------------------
  // What later steps leave as it is
  // ---------------------------------------------------------------------------------------------

  /** The log only grows at its end, and no attempt changes what it is for. */
  ghost predicate Extends(b: Broker, after: Broker) {
    b.log <= after.log && SameAttempts(b.attempts, after.attempts) && |b.records| <= |after.records|
  }

  lemma ExtendsTransitive(a: Broker, b: Broker, c: Broker)
    requires Extends(a, b) && Extends(b, c)
    ensures Extends(a, c)
  {
    assert c.log[..|a.log|] == c.log[..|b.log|][..|a.log|];
  }

  lemma FinishExtends(b: Broker, i: nat, outcome: Outcome)
    requires i < |b.records|
    ensures Extends(b, Finish(b, i, outcome))
  {
  }

  lemma {:induction false} CancelFirstExtends(b: Broker, n: nat, turn: Option<nat>)
    requires n <= |b.records|
    ensures Extends(b, CancelFirst(b, n, turn))
  {
    if n > 0 {
      var before := CancelFirst(b, n - 1, turn);
      CancelFirstExtends(b, n - 1, turn);
      FinishExtends(before, n - 1, Cancelled);
      ExtendsTransitive(b, before, CancelFirst(b, n, turn));
    }
  }

  lemma RegisterExtends(b: Broker, id: InteractionId, approval: Option<ApprovalId>, turn: nat, e: Activation)
    ensures Extends(b, Register(b, id, approval, turn, e))
  {
  }

  lemma SubmitExtends(b: Broker, id: InteractionId, matches: bool, request: nat, generation: GenerationId, candidate: Candidate)
    ensures Extends(b, Submit(b, id, matches, request, generation, candidate))
  {
  }

  lemma ResponderExtends(b: Broker, a: nat, allowed: bool, valid: bool)
    ensures Extends(b, ResponderReturns(b, a, allowed, valid))
  {
    if a < |b.attempts| && b.attempts[a].interaction < |b.records| {
      var noted := EndAttempt(b, a).(log := b.log + [ResponderAllowed(a)]);
      var i := b.attempts[a].interaction;
      var aborted := noted.(attempts := AbortController(noted.attempts, b.records[i].active));
      assert Extends(b, noted) && Extends(b, aborted);
      FinishExtends(noted, i, Answered(a));
      FinishExtends(aborted, i, Rejected);
      ExtendsTransitive(b, noted, Finish(noted, i, Answered(a)));
      ExtendsTransitive(b, aborted, Finish(aborted, i, Rejected));
    }
  }

  lemma PolicyExtends(b: Broker, a: nat, decision: Decision)
    ensures Extends(b, PolicyReturns(b, a, decision))
  {
    if a < |b.attempts| && b.attempts[a].interaction < |b.records| {
      var i, ended := b.attempts[a].interaction, EndAttempt(b, a);
      var noted := ended.(log := b.log + [PolicyAllowed(a)]);
      assert Extends(b, ended) && Extends(b, noted);
      FinishExtends(ended, i, Rejected);
      FinishExtends(noted, i, Approved(a));
      ExtendsTransitive(b, ended, Finish(ended, i, Rejected));
      ExtendsTransitive(b, noted, Finish(noted, i, Approved(a)));
    }
  }

  lemma PolicyFailureExtends(b: Broker, a: nat)
    ensures Extends(b, PolicyThrows(b, a))
  {
  }

  lemma SubmitLegacyExtends(b: Broker, approval: ApprovalId, matches: bool, reject: bool)
    ensures Extends(b, SubmitLegacy(b, approval, matches, reject))
  {
  }

  lemma AbortExtends(b: Broker, i: nat)
    ensures Extends(b, OnRuntimeAborts(b, i))
  {
  }

  lemma StepExtends(b: Broker, e: Event)
    ensures Extends(b, Step(b, e))
  {
    match e
    case BindingReleased => CancelFirstExtends(b, |b.records|, None);
    case Closes => CancelFirstExtends(b.(closed := true), |b.records|, None);
    case Registers(id, approval, turn, activation) => RegisterExtends(b, id, approval, turn, activation);
    case TurnEnds(turn) => CancelFirstExtends(b, |b.records|, Some(turn));
    case Submits(id, matches, request, generation, candidate) => SubmitExtends(b, id, matches, request, generation, candidate);
    case ResponderDecides(a, allowed, valid) => ResponderExtends(b, a, allowed, valid);
    case PolicyDecides(a, decision) => PolicyExtends(b, a, decision);
    case PolicyFails(a) => PolicyFailureExtends(b, a);
    case SubmitsLegacy(approval, matches, reject) => SubmitLegacyExtends(b, approval, matches, reject);
    case RuntimeAborts(i) => AbortExtends(b, i);
    case DeadlineFires(i, expired) =>
      if i < |b.records| {
        FinishExtends(b, i, Cancelled);
      }
    case _ =>
  }

  lemma {:induction false} RunExtends(b: Broker, events: seq<Event>)
    ensures Extends(b, Run(b, events))
  {
    if events != [] {
      var before := Run(b, events[..|events| - 1]);
      RunExtends(b, events[..|events| - 1]);
      StepExtends(before, events[|events| - 1]);
      ExtendsTransitive(b, before, Run(b, events));
    }
  }

  lemma {:induction false} RunConcat(b: Broker, events: seq<Event>, more: seq<Event>)
    ensures Run(b, events + more) == Run(Run(b, events), more)
    decreases |more|
  {
    if more == [] {
      assert events + more == events;
    } else {
      assert (events + more)[..|events + more| - 1] == events + more[..|more| - 1];
      RunConcat(b, events, more[..|more| - 1]);
    }
  }

  lemma RunThen(events: seq<Event>, e: Event)
    ensures Run(Initial(), events + [e]) == Step(Run(Initial(), events), e)
  {
    assert (events + [e])[..|events|] == events;
  }

  /** Once settled, an interaction keeps its outcome in every continuation. */
  lemma OutcomeIsFinal(events: seq<Event>, more: seq<Event>, i: nat, outcome: Outcome)
    requires Settled(i, outcome) in Run(Initial(), events).log
    ensures forall other :: Settled(i, other) in Run(Initial(), events + more).log <==> other == outcome
  {
    RunConcat(Initial(), events, more);
    RunExtends(Run(Initial(), events), more);
    assert Settled(i, outcome) in Run(Initial(), events + more).log;
    forall other | Settled(i, other) in Run(Initial(), events + more).log ensures other == outcome {
      OneOutcome(events + more, i, outcome, other);
    }
  }

  lemma OneOutcome(events: seq<Event>, i: nat, outcome: Outcome, other: Outcome)
    requires Settled(i, outcome) in Run(Initial(), events).log && Settled(i, other) in Run(Initial(), events).log
    ensures other == outcome
  {
    var log := Run(Initial(), events).log;
    var j :| 0 <= j < |log| && log[j] == Settled(i, outcome);
    var k :| 0 <= k < |log| && log[k] == Settled(i, other);
    if j < k {
      FirstOutcomeWins(events, j, k);
    } else if k < j {
      FirstOutcomeWins(events, k, j);
    }
  }

  /** The responder's rejection of a pending approval is heard. */
  predicate CanReject(b: Broker, a: nat) {
    && a < |b.attempts| && b.attempts[a].progress == Authorizing && b.attempts[a].candidate == Reject
    && b.attempts[a].interaction < |b.records| && StillPending(b, b.attempts[a].interaction)
    && !Ended(b, b.attempts[a].generation) && b.records[b.attempts[a].interaction].approval.Some?
  }

  /**
   An allowed rejection of a pending approval settles it at once, although another candidate may be
   waiting for its local policy, and nothing that happens later gives it another outcome.
   */
  lemma RejectionSupersedes(events: seq<Event>, a: nat, more: seq<Event>)
    requires CanReject(Run(Initial(), events), a)
    ensures var i := Run(Initial(), events).attempts[a].interaction;
            forall outcome :: Settled(i, outcome) in Run(Initial(), events + [ResponderDecides(a, true, true)] + more).log <==>
                                outcome == Rejected
  {
    var b, e := Run(Initial(), events), ResponderDecides(a, true, true);
    RunThen(events, e);
    var after := Step(b, e);
    assert after.log[|after.log| - 1] == Settled(b.attempts[a].interaction, Rejected);
    OutcomeIsFinal(events + [e], more, b.attempts[a].interaction, Rejected);
  }

  /** The end of a turn cancels exactly the pending interactions of that turn. */
  lemma {:induction false} TurnEndCancelsItsTurn(b: Broker, n: nat, turn: nat, i: nat)
    requires i < |b.records| && n <= |b.records|
    ensures var after := CancelFirst(b, n, Some(turn));
            && after.records[i].id == b.records[i].id && after.records[i].turn == b.records[i].turn
            && (StillPending(after, i) <==> StillPending(b, i) && !(i < n && b.records[i].turn == turn))
  {
    if n > 0 {
      TurnEndCancelsItsTurn(b, n - 1, turn, i);
      TurnEndCancelsItsTurn(b, n - 1, turn, n - 1);
      FinishSpares(CancelFirst(b, n - 1, Some(turn)), n - 1, Cancelled, i);
    }
  }

  lemma FinishSpares(b: Broker, i: nat, outcome: Outcome, j: nat)
    requires i < |b.records| && j < |b.records|
    ensures var after := Finish(b, i, outcome);
            && after.records[j].id == b.records[j].id && after.records[j].turn == b.records[j].turn
            && (StillPending(after, j) <==> StillPending(b, j) && j != i)
  {
  }

  /**
   A registration becomes pending, with its request published, iff the broker is bound, neither the
   approval nor the interaction is pending already, and it is neither expired nor aborted; otherwise
   it is settled at once.
   */
  lemma PendingIffAdmitted(events: seq<Event>, id: InteractionId, approval: Option<ApprovalId>, turn: nat, e: Activation)
    ensures var b := Run(Initial(), events);
            var after := Register(b, id, approval, turn, e);
            var admitted := && b.workspace.Some? && id !in b.pending && (approval.Some? ==> approval.value !in b.approvalInteractions)
                            && !e.expired && !e.aborted && e.publishes && !e.abortsMeanwhile && !e.expiresMeanwhile;
            && |after.records| == |b.records| + 1
            && (StillPending(after, |b.records|) <==> admitted)
            && (admitted ==> after.log == b.log + [RequestSent(|b.records|, b.workspace.value)])
  {
    EveryRunKeepsInv(events);
    var b := Run(Initial(), events);
    assert id in b.pending ==> b.pending[id] < |b.records|;
  }

  /** A candidate that has not approved when its connection ends never does. */
  lemma EndedCandidateNeverApproves(events: seq<Event>, more: seq<Event>, a: nat, i: nat)
    requires var b := Run(Initial(), events);
             a < |b.attempts| && Ended(b, b.attempts[a].generation) && Settled(i, Approved(a)) !in b.log
    ensures Settled(i, Approved(a)) !in Run(Initial(), events + more).log
  {
    var b, after := Run(Initial(), events), Run(Initial(), events + more);
    RunConcat(Initial(), events, more);
    RunExtends(b, more);
    if Settled(i, Approved(a)) in after.log {
      var k :| 0 <= k < |after.log| && after.log[k] == Settled(i, Approved(a));
      ApprovedOnlyIfAllowed(events + more, k);
      InLaterPrefix(b.log, after.log, k, Settled(i, Approved(a)), GenerationEnded(b.attempts[a].generation.value));
    }
  }

  lemma InLaterPrefix(log: seq<Entry>, later: seq<Entry>, k: nat, absent: Entry, entry: Entry)
    requires log <= later && k < |later| && later[k] == absent && absent !in log && entry in log
    ensures entry in later[..k]
  {
    var m :| 0 <= m < |log| && log[m] == entry;
    assert later[m] == log[m];
    assert k >= |log|;
  }

  /** The active candidate of a pending interaction lost its connection; `generation` is another one, alive. */
  predicate Superseded(b: Broker, id: InteractionId, generation: GenerationId) {
    && !b.closed && b.workspace.Some? && id in b.pending && b.pending[id] < |b.records| && !Ended(b, Some(generation))
    && b.records[b.pending[id]].active.Some? && b.records[b.pending[id]].active.value < |b.attempts|
    && Ended(b, b.attempts[b.records[b.pending[id]].active.value].generation)
  }

  /**
   A candidate whose connection has ended does not stand in the way of the next one: that one can
   still be approved, and the ended one never is.
   */
  lemma StaleCandidateMakesRoom(events: seq<Event>, id: InteractionId, request: nat, generation: GenerationId, more: seq<Event>)
    requires Superseded(Run(Initial(), events), id, generation)
    requires var b := Run(Initial(), events); b.records[b.pending[id]].approval.Some?
    ensures var b := Run(Initial(), events);
            var i, n, submits := b.pending[id], |b.attempts|, Submits(id, true, request, generation, Approve);
            && Settled(i, Approved(n)) in
               Run(Initial(), events + [submits] + [ResponderDecides(n, true, true)] + [PolicyDecides(n, Allow)]).log
            && Settled(i, Approved(b.records[i].active.value)) !in Run(Initial(), events + [submits] + more).log
  {
    var b := Run(Initial(), events);
    var submits := Submits(id, true, request, generation, Approve);
    assert Indexed(b) && Superseded(b, id, generation) by {
      EveryRunKeepsInv(events);
    }
    RunThree(events, submits, ResponderDecides(|b.attempts|, true, true), PolicyDecides(|b.attempts|, Allow));
    NextTakesOver(b, id, request, generation);
    BothAllow(Step(b, submits), b.pending[id], |b.attempts|);
    StaleIsOver(events, b.pending[id], [submits] + more);
    assert events + [submits] + more == events + ([submits] + more);
  }

  /** The candidate that lost its connection while the interaction was pending never approves it. */
  lemma StaleIsOver(events: seq<Event>, i: nat, more: seq<Event>)
    requires var b := Run(Initial(), events);
             && i < |b.records| && StillPending(b, i) && b.records[i].active.Some?
             && b.records[i].active.value < |b.attempts| && Ended(b, b.attempts[b.records[i].active.value].generation)
    ensures Settled(i, Approved(Run(Initial(), events).records[i].active.value)) !in Run(Initial(), events + more).log
  {
    var b := Run(Initial(), events);
    assert RecordOk(b, i) by {
      EveryRunKeepsInv(events);
    }
    NotSettledYet(b.log, i, Approved(b.records[i].active.value));
    EndedCandidateNeverApproves(events, more, b.records[i].active.value, i);
  }

  lemma RunThree(events: seq<Event>, x: Event, y: Event, z: Event)
    ensures Run(Initial(), events + [x] + [y] + [z]) == Step(Step(Step(Run(Initial(), events), x), y), z)
  {
    RunThen(events, x);
    RunThen(events + [x], y);
    RunThen(events + [x] + [y], z);
  }

  /** Attempt `n` is the active candidate of the pending approval `i`, and its connection lives. */
  predicate CanApprove(b: Broker, i: nat, n: nat) {
    && n < |b.attempts| && b.attempts[n].interaction == i && b.attempts[n].candidate == Approve
    && b.attempts[n].progress == Authorizing && !Ended(b, b.attempts[n].generation) && b.attempts[n].generation.Some?
    && i < |b.records| && b.records[i].active == Some(n) && b.records[i].approval.Some? && StillPending(b, i)
    && !b.closed && b.workspace.Some?
  }

  lemma NextTakesOver(b: Broker, id: InteractionId, request: nat, generation: GenerationId)
    requires Indexed(b) && Superseded(b, id, generation) && b.records[b.pending[id]].approval.Some?
    ensures CanApprove(Step(b, Submits(id, true, request, generation, Approve)), b.pending[id], |b.attempts|)
  {
    assert Step(b, Submits(id, true, request, generation, Approve)) == Submit(b, id, true, request, generation, Approve);
  }

  lemma BothAllow(b: Broker, i: nat, n: nat)
    requires CanApprove(b, i, n)
    ensures Settled(i, Approved(n)) in Step(Step(b, ResponderDecides(n, true, true)), PolicyDecides(n, Allow)).log
  {
    var heard := Step(b, ResponderDecides(n, true, true));
    assert heard == ResponderReturns(b, n, true, true);
    assert heard.attempts[n].progress == Deciding && StillPending(heard, i) && heard.log == b.log + [ResponderAllowed(n)];
    var decided := Step(heard, PolicyDecides(n, Allow));
    assert decided == PolicyReturns(heard, n, Allow);
    assert decided.log[|decided.log| - 1] == Settled(i, Approved(n));
  }

  /** Once the broker is closed or its binding released, every interaction ever registered is settled. */
  lemma NothingOutlivesTheBinding(events: seq<Event>, i: nat)
    requires var b := Run(Initial(), events); i < |b.records| && (b.closed || b.workspace.None?)
    ensures var b := Run(Initial(), events);
            Settlements(b.log, i) == 1 && b.pending == map[] && b.approvalInteractions == map[]
  {
    EveryRunKeepsInv(events);
    var b := Run(Initial(), events);
    assert RecordOk(b, i);
    NonePending(b);
  }

  /** The index of approvals holds exactly the pending approvals, each under its own interaction. */
  lemma ApprovalIndexIsExact(events: seq<Event>, approval: ApprovalId, id: InteractionId)
    ensures var b := Run(Initial(), events);
            (approval in b.approvalInteractions && b.approvalInteractions[approval] == id) <==>
            (id in b.pending && b.pending[id] < |b.records| && b.records[b.pending[id]].approval == Some(approval))
  {
    EveryRunKeepsInv(events);
  }

  // ---------------------------------------------------------------------------------------------
  // The object that the program updates in place
  // ---------------------------------------------------------------------------------------------

  class CompanionInteractionBroker {
    var pending: map<InteractionId, nat>
    var approvalInteractions: map<ApprovalId, InteractionId>
    var workspace: Option<WorkspaceId>
    var closed: bool
    var records: seq<Interaction>
    var attempts: seq<Attempt>
    var log: seq<Entry>

    function View(): Broker
      reads this
    {
      Broker(pending, approvalInteractions, workspace, closed, records, attempts, log)
    }

    constructor ()
      ensures View() == Initial() && Inv(View())
    {
      pending, approvalInteractions, workspace, closed, records, attempts, log := map[], map[], None, false, [], [], [];
      EveryRunKeepsInv([]);
    }

    /** `finish`. */
    method FinishInteraction(i: nat, outcome: Outcome) returns (finished: bool)
      requires i < |records|
      modifies this
      ensures View() == Finish(old(View()), i, outcome)
      ensures finished <==> StillPending(old(View()), i)
    {
      var record := records[i];
      if record.id !in pending || pending[record.id] != i {
        return false;
      }
      pending := pending - {record.id};
      if record.approval.Some? {
        approvalInteractions := approvalInteractions - {record.approval.value};
      }
      records := records[i := record.(listening := false, leased := false)];
      attempts := AbortController(attempts, record.active);
      if record.requestPublished && workspace.Some? {
        log := log + [TerminalSent(i, workspace.value, outcome != Cancelled)];
      }
      log := log + [Settled(i, outcome)];
      return true;
    }

    /** The loops of `cancelTurn` and `cancelAll` over the pending interactions, oldest first. */
    method CancelPending(turn: Option<nat>)
      modifies this
      ensures View() == CancelFirst(old(View()), |old(records)|, turn)
    {
      for n := 0 to |records|
        invariant |records| == |old(records)|
        invariant View() == CancelFirst(old(View()), n, turn)
      {
        if turn.None? || records[n].turn == turn.value {
          var _ := FinishInteraction(n, Cancelled);
        }
      }
    }

    method ReleaseBinding()
      requires Inv(View())
      modifies this
      ensures View() == Step(old(View()), BindingReleased) && Inv(View())
      ensures old(workspace).Some? ==> pending == map[] && approvalInteractions == map[] && workspace.None?
    {
      StepKeepsInv(View(), BindingReleased);
      if workspace.None? {
        return;
      }
      CancelAllEmpties(View());
      CancelPending(None);
      workspace := None;
    }

    method CloseBroker()
      requires Inv(View())
      modifies this
      ensures View() == Step(old(View()), Closes) && Inv(View()) && closed
    {
      StepKeepsInv(View(), Closes);
      if closed {
        return;
      }
      closed := true;
      CancelFirstShrinks(View(), |records|, None);
      CancelPending(None);
      workspace := None;
    }

    /** The continuation of `approveCandidate` behind the local policy. */
    method LocalPolicyDecided(a: nat, decision: Decision) returns (accepted: bool)
      requires Inv(View()) && a < |attempts| && attempts[a].progress == Deciding
      modifies this
      ensures View() == PolicyReturns(old(View()), a, decision) && Inv(View())
      ensures accepted <==>
                && decision == Allow && !SignalAborted(old(View()), old(attempts)[a])
                && StillPending(old(View()), old(attempts)[a].interaction)
    {
      PolicyReturnsKeepsInv(View(), a, decision);
      var attempt := attempts[a];
      var aborted := SignalAborted(View(), attempt);
      attempts := attempts[a := attempt.(progress := Done)];
      if aborted || !StillPending(View(), attempt.interaction) {
        return false;
      }
      if decision == Deny {
        var _ := FinishInteraction(attempt.interaction, Rejected);
        return false;
      }
      if decision == RequireLocalConfirmation {
        return false;
      }
      log := log + [PolicyAllowed(a)];
      accepted := FinishInteraction(attempt.interaction, Approved(a));
    }
  }
}
