/**
 The audit log read as an account: replaying an approval's events gives its status, its
 decision, its execution and its assessment, and fails on any trail the system cannot write.
 */
module Ledger {
  import opened Prelude
  import opened Timestamps
  import opened Records

  datatype ExecutionAccount = ExecutionAccount(
    executionId: string,
    status: ExecutionStatus,
    actor: string,
    claimedAt: DateTime,
    completedAt: Option<DateTime>,
    failure: Option<FailureCategory>)

  /** `status` is `None` before the approval exists. */
  datatype Account = Account(
    status: Option<ApprovalStatus>,
    decidedAt: Option<DateTime>,
    approver: Option<string>,
    execution: Option<ExecutionAccount>,
    commitment: Option<Digest>)

  const BLANK := Account(None, None, None, None, None)

  predicate Bare(p: AuditPayload) {
    p.executionId.None? && p.eventId.None? && p.failure.None? && p.commitment.None?
  }

  function Decide(a: Account, p: AuditPayload, status: ApprovalStatus, approver: Option<string>): Option<Account> {
    if a.status == Some(Pending) && Bare(p) && p.status == ApprovalStatusName(status)
    then Some(a.(status := Some(status), decidedAt := Some(p.at), approver := approver))
    else None
  }

  function Finish(a: Account, p: AuditPayload, status: ExecutionStatus): Option<Account> {
    if a.execution.Some? && a.execution.value.status == Claimed
       && p.executionId == Some(a.execution.value.executionId) && p.actor == a.execution.value.actor
       && p.commitment.None? && p.status == ExecutionStatusName(status) && (status == Succeeded) == p.failure.None?
    then Some(a.(execution := Some(a.execution.value.(status := status, completedAt := Some(p.at),
                                                      failure := p.failure))))
    else None
  }

  /** One event read against the account so far; `None` when the system never writes it there. */
  function Advance(a: Account, p: AuditPayload): Option<Account> {
    match p.kind
    case ApprovalCreated =>
      if a == BLANK && Bare(p) && p.status == PendingName then Some(a.(status := Some(Pending))) else None
    case ApprovalApproved => Decide(a, p, Approved, Some(p.actor))
    case ApprovalRejected => Decide(a, p, Rejected, Some(p.actor))
    case ApprovalExpired => if p.actor == SYSTEM_ACTOR then Decide(a, p, Expired, None) else None
    case TransitionRejected =>
      if a.status.Some? && a.status.value != Pending && p.status == ApprovalStatusName(a.status.value) && Bare(p)
         && (a.execution.Some? ==> a.execution.value.status != Prepared)
      then Some(a) else None
    case ExecutionAuthorized =>
      if a.status == Some(Approved) && a.execution.None? && p.executionId.Some? && p.status == PendingName
         && p.failure.None? && p.commitment.None?
      then Some(a.(execution := Some(ExecutionAccount(p.executionId.value, Prepared, p.actor, p.at, None, None))))
      else None
    case ExecutionClaimed =>
      if a.execution == Some(ExecutionAccount(if p.executionId.Some? then p.executionId.value else "", Prepared,
                                              p.actor, p.at, None, None))
         && p.executionId.Some? && p.status == ClaimedName && p.failure.None? && p.commitment.None?
      then Some(a.(execution := Some(a.execution.value.(status := Claimed))))
      else None
    case ExecutionSucceeded => Finish(a, p, Succeeded)
    case ExecutionFailed => Finish(a, p, Failed)
    case ExecutionUnknown => Finish(a, p, Unknown)
    case ReconciliationRecorded =>
      if a.execution.Some? && a.execution.value.status == Unknown && a.commitment.None? && p.commitment.Some?
         && p.executionId == Some(a.execution.value.executionId) && p.status == UnknownName && p.failure.None?
      then Some(a.(commitment := p.commitment))
      else None
  }

  function Replay(events: seq<AuditEvent>): Option<Account> {
    if events == [] then Some(BLANK)
    else match Replay(events[..|events| - 1]) {
      case None => None
      case Some(a) => Advance(a, events[|events| - 1].payload)
    }
  }

  lemma ReplayAppend(events: seq<AuditEvent>, e: AuditEvent)
    ensures Replay(events + [e]) == match Replay(events) case None => None case Some(a) => Advance(a, e.payload)
  {
    assert (events + [e])[..|events|] == events;
  }

  // ---------------------------------------------------------------- the shape of a trail

  /** The kinds of a trail's events, refused transitions left out. */
  function Story(events: seq<AuditEvent>): seq<AuditKind> {
    if events == [] then []
    else
      var kind := events[|events| - 1].payload.kind;
      Story(events[..|events| - 1]) + (if kind == TransitionRejected then [] else [kind])
  }

  function DecisionStory(status: ApprovalStatus): seq<AuditKind> {
    match status
    case Pending => [ApprovalCreated]
    case Approved => [ApprovalCreated, ApprovalApproved]
    case Rejected => [ApprovalCreated, ApprovalRejected]
    case Expired => [ApprovalCreated, ApprovalExpired]
  }

  function ExecutionStory(status: ExecutionStatus): seq<AuditKind> {
    match status
    case Prepared => [ExecutionAuthorized]
    case Claimed => [ExecutionAuthorized, ExecutionClaimed]
    case Succeeded => [ExecutionAuthorized, ExecutionClaimed, ExecutionSucceeded]
    case Failed => [ExecutionAuthorized, ExecutionClaimed, ExecutionFailed]
    case Unknown => [ExecutionAuthorized, ExecutionClaimed, ExecutionUnknown]
  }

  /** The only story an account can come from. */
  function StoryOf(a: Account): seq<AuditKind> {
    (if a.status.None? then [] else DecisionStory(a.status.value)) +
    (if a.execution.None? then [] else ExecutionStory(a.execution.value.status)) +
    (if a.commitment.None? then [] else [ReconciliationRecorded])
  }

  ghost predicate AccountSane(a: Account) {
    && (a.status.None? ==> a == BLANK)
    && (a.execution.Some? ==> a.status == Some(Approved))
    && (a.commitment.Some? ==> a.execution.Some? && a.execution.value.status == Unknown)
  }

  /** One legal event extends the story by its own kind, or by nothing when it is a refusal. */
  lemma AdvanceExtendsStory(a: Account, p: AuditPayload)
    requires AccountSane(a) && Advance(a, p).Some?
    ensures AccountSane(Advance(a, p).value)
    ensures StoryOf(Advance(a, p).value) == StoryOf(a) + (if p.kind == TransitionRejected then [] else [p.kind])
  {
  }

  /**
   Every replayable trail, refusals aside, is: created; then one decision at most; after an
   approval, authorised, claimed, one outcome; after UNKNOWN, one reconciliation - cut off anywhere.
   */
  lemma {:induction false} TrailTellsOneStory(events: seq<AuditEvent>)
    requires Replay(events).Some?
    ensures AccountSane(Replay(events).value)
    ensures Story(events) == StoryOf(Replay(events).value)
    decreases |events|
  {
    if events != [] {
      var n := |events| - 1;
      TrailTellsOneStory(events[..n]);
      AdvanceExtendsStory(Replay(events[..n]).value, events[n].payload);
    }
  }

  lemma {:induction false} ReplayPrefix(events: seq<AuditEvent>, k: nat)
    requires k <= |events| && Replay(events).Some?
    ensures Replay(events[..k]).Some?
    decreases |events|
  {
    hide Advance;
    if k < |events| {
      ReplayPrefix(events[..|events| - 1], k);
      assert events[..|events| - 1][..k] == events[..k];
    } else {
      assert events[..k] == events;
    }
  }

  lemma ReplayStep(events: seq<AuditEvent>, i: nat)
    requires i < |events| && Replay(events).Some?
    ensures Replay(events[..i]).Some?
    ensures Replay(events[..i + 1]) == Advance(Replay(events[..i]).value, events[i].payload)
    ensures Replay(events[..i + 1]).Some?
  {
    hide Advance;
    ReplayPrefix(events, i);
    ReplayPrefix(events, i + 1);
    assert events[..i + 1][..i] == events[..i];
  }

  /** In a trail that is not cut between them, AUTHORIZED and CLAIMED are adjacent and agree. */
  lemma AuthorizedThenClaimed(events: seq<AuditEvent>, i: nat)
    requires Replay(events).Some? && i < |events|
    requires events[i].payload.kind == ExecutionAuthorized && i + 1 < |events|
    ensures events[i + 1].payload.kind == ExecutionClaimed
    ensures events[i + 1].payload.executionId == events[i].payload.executionId
    ensures events[i + 1].payload.actor == events[i].payload.actor
  {
    hide Advance, Replay;
    ReplayStep(events, i);
    ReplayStep(events, i + 1);
    TrailTellsOneStory(events[..i]);
    OnlyClaimFollows(Replay(events[..i]).value, events[i].payload, events[i + 1].payload);
  }

  lemma OnlyClaimFollows(a: Account, p: AuditPayload, q: AuditPayload)
    requires AccountSane(a) && p.kind == ExecutionAuthorized && Advance(a, p).Some?
    requires Advance(Advance(a, p).value, q).Some?
    ensures q.kind == ExecutionClaimed && q.executionId == p.executionId && q.actor == p.actor
  {
  }

  /** A refused transition is never recorded between AUTHORIZED and CLAIMED. */
  lemma RefusalsAvoidClaims(events: seq<AuditEvent>, i: nat)
    requires Replay(events).Some? && i + 1 < |events| && events[i + 1].payload.kind == TransitionRejected
    ensures events[i].payload.kind != ExecutionAuthorized
  {
    hide Advance, Replay;
    ReplayStep(events, i);
    ReplayStep(events, i + 1);
    if events[i].payload.kind == ExecutionAuthorized {
      NoRefusalAfterAuthorized(Replay(events[..i]).value, events[i].payload, events[i + 1].payload);
    }
  }

  lemma NoRefusalAfterAuthorized(a: Account, p: AuditPayload, q: AuditPayload)
    requires p.kind == ExecutionAuthorized && q.kind == TransitionRejected && Advance(a, p).Some?
    ensures Advance(Advance(a, p).value, q) == None
  {
  }

  /** A refused transition is recorded only after the decision. */
  lemma RefusalsFollowDecision(events: seq<AuditEvent>, i: nat)
    requires Replay(events).Some? && i < |events| && events[i].payload.kind == TransitionRejected
    ensures exists d | 0 <= d < i :: events[d].payload.kind in {ApprovalApproved, ApprovalRejected, ApprovalExpired}
  {
    ReplayStep(events, i);
    DecidedEarlier(events[..i]);
    var d :| 0 <= d < i && events[..i][d].payload.kind in {ApprovalApproved, ApprovalRejected, ApprovalExpired};
    assert events[d].payload.kind == events[..i][d].payload.kind;
  }

  lemma {:induction false} DecidedEarlier(events: seq<AuditEvent>)
    requires Replay(events).Some? && Replay(events).value.status.Some? && Replay(events).value.status.value != Pending
    ensures exists d | 0 <= d < |events| ::
              events[d].payload.kind in {ApprovalApproved, ApprovalRejected, ApprovalExpired}
  {
    TrailTellsOneStory(events);
    var kind := DecisionStory(Replay(events).value.status.value)[1];
    assert kind in {ApprovalApproved, ApprovalRejected, ApprovalExpired};
    assert Story(events)[1] == kind;
    StoryElement(events, kind);
  }

  lemma {:induction false} StoryElement(events: seq<AuditEvent>, kind: AuditKind)
    requires kind in Story(events)
    ensures exists d | 0 <= d < |events| :: events[d].payload.kind == kind
    decreases |events|
  {
    var n := |events| - 1;
    if kind in Story(events[..n]) {
      StoryElement(events[..n], kind);
      var d :| 0 <= d < n && events[..n][d].payload.kind == kind;
      assert events[d].payload.kind == kind;
    } else {
      assert events[n].payload.kind == kind;
    }
  }
}
