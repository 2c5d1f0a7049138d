/**
 The two services over the repository.  Left undisturbed, each service call is the protocol's
 own moves one after the other; the gaps between them are where other threads and crashes fall.
 */
module Service {
  import opened Prelude
  import opened Timestamps
  import opened Texts
  import opened Records
  import opened Transactions
  import opened Preservation
  import opened Frames
  import opened Policy
  import opened Protocol
  import opened Repository

  class ApprovalService {
    const config: Config
    const repository: SQLiteRepository

    constructor (config: Config, repository: SQLiteRepository)
      requires repository.rules == config.rules
      ensures this.config == config && this.repository == repository
    {
      this.config, this.repository := config, repository;
    }

    /** `None` when policy does not ask for a human, or the record itself is refused. */
    method Create(ghost s: System, event: Event, intelligence: Intelligence, approvalId: string, now: DateTime,
                  expiresAt: DateTime,
                  actor: Actor, auditId: string) returns (r: Option<Result<Draft, Fault>>)
      requires repository.rules == config.rules && s.db == repository.Tables()
      modifies repository
      ensures repository.Tables() ==
              Step(config, s, CreateApproval(event, intelligence, approvalId, now, expiresAt, actor, auditId)).db
      ensures r.Some? && r.value.Ok? ==>
                var move := CreateApproval(event, intelligence, approvalId, now, expiresAt, actor, auditId);
                Step(config, s, move).origins ==
                s.origins[approvalId := Origin(event, intelligence, now, expiresAt, actor)]
      ensures r.Some? && r.value.Ok? ==>
                && approvalId in repository.Tables().approvals
                && repository.Tables().approvals[approvalId].status == Pending
                && CreatedFrom(config, Origin(event, intelligence, now, expiresAt, actor),
                               repository.Tables().approvals[approvalId])
      ensures r.Some? ==> Evaluate(config.threshold, event, intelligence, "1.0").decision == RequireHumanApproval
    {
      var draft := DraftFor(config, event, intelligence, approvalId, now, expiresAt);
      if draft.None? || !Before(now, expiresAt) {
        return None;
      }
      DraftIsSound(config, event, intelligence, approvalId, now, expiresAt);
      CreatedRow(config, repository.Tables(), draft.value, Origin(event, intelligence, now, expiresAt, actor), auditId);
      hide CreateTx, DraftFor, CreatedFrom, Evaluate, DraftSound, Documents;
      var stored := repository.Create(draft.value, now, actor, auditId);
      return Some(stored);
    }

    method Approve(ghost s: System, approvalId: string, now: DateTime, actor: Actor,
                   auditId: string) returns (r: Result<ApprovalRow, Fault>)
      requires repository.rules == config.rules && s.db == repository.Tables()
      modifies repository
      ensures repository.Tables() == Step(config, s, Protocol.Approve(approvalId, now, actor, auditId)).db
      ensures r.Ok? ==>
                && approvalId in repository.Tables().approvals && repository.Tables().approvals[approvalId] == r.value
                && r.value.status == Approved && r.value.approver == Some(actor) && r.value.decidedAt == Some(now)
                && r.value.reason == None
    {
      TransitionAnswers(config.rules, repository.Tables(), approvalId, Approved, now, actor, None, auditId);
      hide TransitionTx;
      r := repository.Transition(approvalId, Approved, now, actor, None, auditId);
    }

    /** `None` when the request's own validator refuses the reason; otherwise its sanitized form is stored. */
    method Reject(ghost s: System, approvalId: string, reason: string, now: DateTime, actor: Actor, auditId: string)
      returns (r: Option<Result<ApprovalRow, Fault>>)
      requires repository.rules == config.rules && s.db == repository.Tables()
      modifies repository
      ensures repository.Tables() == Step(config, s, Protocol.Reject(approvalId, reason, now, actor, auditId)).db
      ensures r.Some? <==> ReadableReason(config.rules.unsafeReason, reason)
      ensures r.Some? && r.value.Ok? ==>
                && approvalId in repository.Tables().approvals
                && repository.Tables().approvals[approvalId] == r.value.value
                && r.value.value.status == Rejected && r.value.value.approver == Some(actor)
                && r.value.value.decidedAt == Some(now) && r.value.value.reason == Some(Strip(reason))
    {
      TransitionAnswers(config.rules, repository.Tables(), approvalId, Rejected, now, actor,
                        RequestedReason(config.rules.unsafeReason, reason), auditId);
      hide TransitionTx;
      var validated := RequestedReason(config.rules.unsafeReason, reason);
      if validated.None? {
        return None;
      }
      var stored := repository.Transition(approvalId, Rejected, now, actor, validated, auditId);
      return Some(stored);
    }
  }

  /** A stored draft is found as its row. */
  lemma CreatedRow(config: Config, db: Db, d: Draft, o: Origin, auditId: string)
    requires Documents(config, o.event, o.intelligence, d.provenance) && DraftSound(config.rules, d)
    requires d.createdAt == o.createdAt && d.expiresAt == o.expiresAt
    ensures var (db', r) := CreateTx(config.rules, db, d, o.createdAt, o.creator, auditId);
            r.Ok? ==>
              && d.approvalId in db'.approvals && db'.approvals[d.approvalId].status == Pending
              && CreatedFrom(config, o, db'.approvals[d.approvalId])
  {
    hide Documents, StorableActor, SequenceTaken, InsertBySequence, EventsOf;
  }

  /** A decision that is answered is the row as decided, and is stored. */
  lemma TransitionAnswers(rules: Rules, db: Db, id: string, target: ApprovalStatus, now: DateTime, actor: string,
                          reason: Option<string>, auditId: string)
    ensures var (db', r) := TransitionTx(rules, db, id, target, now, actor, reason, auditId);
            r.Ok? ==>
              && target in {Approved, Rejected} && id in db'.approvals && r.value == db'.approvals[id]
              && r.value.status == target && r.value.approver == Some(actor) && r.value.decidedAt == Some(now)
              && r.value.reason == if target == Rejected then reason else None
  {
    hide ApprovalSoundness, ExpireTx, ApprovalReadable, StorableReason, DecideTx;
    if id in db.approvals && target in {Approved, Rejected} {
      DecidesRow(rules, db, id, DecidedRow(db.approvals[id], target, now, actor, reason),
                 DecisionEvent(id, db.approvals[id], target, now, actor, auditId));
    }
  }

  lemma DecidesRow(rules: Rules, db: Db, id: string, row: ApprovalRow, p: AuditPayload)
    requires id in db.approvals && p.approvalId == id
    ensures DecideTx(rules, db, id, row, p).Some? ==>
              var db' := DecideTx(rules, db, id, row, p).value;
              id in db'.approvals && db'.approvals[id] ==
                row.(count := db'.approvals[id].count, head := db'.approvals[id].head)
  {
    hide StorableActor, SequenceTaken, InsertBySequence, EventsOf;
  }

  class ExecutionService {
    const config: Config
    const repository: SQLiteRepository
    var calls: seq<Call>

    constructor (config: Config, repository: SQLiteRepository)
      requires repository.rules == config.rules
      ensures this.config == config && this.repository == repository && calls == []
    {
      this.config, this.repository, calls := config, repository, [];
    }

    /** The one external effect; how it ends is not determined here. */
    method CallExecutor(approvalId: string, executionId: string, parameters: Parameters, outcome: Outcome)
      modifies this`calls
      ensures calls == old(calls) + [Call(approvalId, executionId, parameters, outcome)]
    {
      calls := calls + [Call(approvalId, executionId, parameters, outcome)];
    }

    method Execute(ghost s: System, approvalId: string, now: DateTime, actor: Actor, executionId: string,
                   auditId: string, auditId': string,
                   outcome: Outcome, later: DateTime, auditId'': string) returns (r: Result<ExecutionBody, Fault>)
      requires repository.rules == config.rules
      requires s.db == repository.Tables() && s.calls == calls && PcOf(s, 0) == Idle
      modifies this`calls, repository
      ensures var start := StartExecution(0, approvalId, now, actor, executionId, auditId, auditId');
              var s' := Run(config, s, [start, CallProvider(0, outcome), FinishExecution(0, later, auditId'')]);
              repository.Tables() == s'.db && calls == s'.calls && PcOf(s', 0) == Idle
      ensures r.Ok? ==>
                && Tells(outcome, r.value.status, r.value.failure)
                && calls == old(calls) + [Call(approvalId, executionId, r.value.parameters, outcome)]
                && r.value.executionId == executionId && r.value.approvalId == approvalId && r.value.actor == actor
                && r.value.createdAt == now && r.value.claimedAt == now && r.value.completedAt == Some(later)
                && executionId in repository.Tables().executions
                && repository.Tables().executions[executionId].body == r.value
      ensures |calls| == |old(calls)| ==> r.Err? && repository.Tables() == old(repository.Tables())
    {
      hide *;
      ExecuteMoves(config, s, approvalId, now, actor, executionId, auditId, auditId', outcome, later, auditId'');
      ClaimFrame(config.rules, s.db, approvalId, now, actor, executionId, auditId, auditId');
      var claimed := repository.Claim(approvalId, now, actor, executionId, auditId, auditId');
      if claimed.Err? {
        return Err(claimed.error);
      }
      var parameters := claimed.value.approval.terms.parameters.value;
      CallExecutor(approvalId, executionId, parameters, outcome);
      CompleteFrame(config.rules, repository.Tables(), executionId, RecordedStatus(outcome), later,
                    RecordedFailure(outcome), auditId'');
      r := RecordOutcome(executionId, outcome, later, auditId'');
      if r.Ok? {
        FinishedAs(claimed.value.execution, outcome, later);
        ClaimedAs(config.rules, approvalId, claimed.value.approval, parameters, executionId, now, actor);
        StoredAs(config.rules, claimed.value.execution);
        StoredAs(config.rules, r.value);
      }
    }

    /** Every way the call can end writes its own status. */
    method RecordOutcome(executionId: string, outcome: Outcome, later: DateTime,
                         auditId: string) returns (r: Result<ExecutionBody, Fault>)
      modifies repository
      ensures (repository.Tables(), r) ==
              CompleteTx(repository.rules, old(repository.Tables()), executionId, RecordedStatus(outcome), later,
                         RecordedFailure(outcome), auditId)
      ensures r.Ok? ==> Tells(outcome, r.value.status, r.value.failure) && r.value.completedAt == Some(later)
    {
      hide CompleteTx, Tells;
      CompleteFrame(repository.rules, repository.Tables(), executionId, RecordedStatus(outcome), later,
                    RecordedFailure(outcome), auditId);
      RecordedTells(outcome, RecordedStatus(outcome), RecordedFailure(outcome));
      match outcome
      case Returned =>
        r := repository.Complete(executionId, Succeeded, later, None, auditId);
      case ProviderError(category, definitive) =>
        r := repository.Complete(executionId, if definitive then Failed else Unknown, later, Some(FailureOf(category)),
                                 auditId);
      case OtherException =>
        r := repository.Complete(executionId, Unknown, later, Some(UnknownOutcome), auditId);
    }
  }

  lemma FinishedAs(body: ExecutionBody, outcome: Outcome, later: DateTime)
    ensures var finished := FinishedBody(body, RecordedStatus(outcome), later, RecordedFailure(outcome));
            && Tells(outcome, finished.status, finished.failure)
            && finished == body.(status := finished.status, failure := finished.failure, completedAt := Some(later))
  {
    RecordedTells(outcome, RecordedStatus(outcome), RecordedFailure(outcome));
    hide Tells, RecordedStatus, RecordedFailure;
  }

  lemma ClaimedAs(rules: Rules, id: string, row: ApprovalRow, p: Parameters, executionId: string, now: DateTime,
                  actor: string)
    ensures var b := ClaimedBody(rules, id, row, p, executionId, now, actor);
            && b.executionId == executionId && b.approvalId == id && b.parameters == p && b.actor == actor
            && b.createdAt == now && b.claimedAt == now
  {
  }

  lemma StoredAs(rules: Rules, body: ExecutionBody)
    ensures ExecutionRowOf(rules, body).body == body
  {
  }

  /** The three moves of one undisturbed call, in the terms of the repository's transactions. */
  lemma ExecuteMoves(config: Config, s: System, approvalId: string, now: DateTime, actor: Actor, executionId: string,
                     auditId: string,
                     auditId': string, outcome: Outcome, later: DateTime, auditId'': string)
    requires PcOf(s, 0) == Idle
    ensures var start := StartExecution(0, approvalId, now, actor, executionId, auditId, auditId');
            var s' := Run(config, s, [start, CallProvider(0, outcome), FinishExecution(0, later, auditId'')]);
            var (db, r) := ClaimTx(config.rules, s.db, approvalId, now, actor, executionId, auditId, auditId');
            && (r.Err? ==> s'.db == s.db && s'.calls == s.calls && PcOf(s', 0) == Idle)
            && (r.Ok? ==>
                  && r.value.approval.terms.parameters.Some?
                  && s'.db == CompleteTx(config.rules, db, executionId, RecordedStatus(outcome), later,
                                         RecordedFailure(outcome), auditId'').0
                  && s'.calls == s.calls + [Call(approvalId, executionId, r.value.approval.terms.parameters.value,
                                                 outcome)]
                  && PcOf(s', 0) == Idle)
  {
    hide ClaimTx, CompleteTx, ClaimRefusal, Run;
    ThreeMoves(config, s, StartExecution(0, approvalId, now, actor, executionId, auditId, auditId'),
               CallProvider(0, outcome), FinishExecution(0, later, auditId''));
    ClaimFrame(config.rules, s.db, approvalId, now, actor, executionId, auditId, auditId');
    hide ClaimedBody, ExecutionRowOf;
  }

  lemma ThreeMoves(config: Config, s: System, a: Move, b: Move, c: Move)
    ensures Run(config, s, [a, b, c]) == Step(config, Step(config, Step(config, s, a), b), c)
  {
    hide Step;
    assert [a, b, c][..2] == [a, b] && [a, b][..1] == [a] && [a][..0] == [];
    assert Run(config, s, [a]) == Step(config, s, a);
    assert Run(config, s, [a, b]) == Step(config, Step(config, s, a), b);
  }
}
