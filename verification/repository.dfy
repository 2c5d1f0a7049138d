/**
 The approval and execution repository, statement by statement.

 Every method runs inside one exclusive write transaction: it starts from the committed tables,
 changes them in place, and either commits or restores what it started from.  The transaction
 functions of `Transactions` say what each method amounts to.
 */
module Repository {
  import opened Prelude
  import opened Timestamps
  import opened Texts
  import opened Records
  import opened AuditTrail
  import opened Transactions

  lemma AppendIgnoresExecutions(rules: Rules, db: Db, executions: map<string, ExecutionRow>, p: AuditPayload,
                                prev: Digest)
    ensures Append(rules, db.(executions := executions), p, prev) ==
            match Append(rules, db, p, prev) case None => None case Some(db') => Some(db'.(executions := executions))
  {
  }

  class SQLiteRepository {
    const rules: Rules
    var approvals: map<string, ApprovalRow>
    var events: map<string, seq<AuditEvent>>
    var auditIds: set<string>
    var executions: map<string, ExecutionRow>
    var executionOf: map<string, string>
    var assessments: map<string, AssessmentRow>
    var assessmentIds: set<string>

    function Tables(): Db
      reads this
    {
      Db(approvals, events, auditIds, executions, executionOf, assessments, assessmentIds)
    }

    constructor (rules: Rules)
      ensures this.rules == rules && Tables() == EMPTY_DB
    {
      this.rules := rules;
      approvals, events, auditIds := map[], map[], {};
      executions, executionOf := map[], map[];
      assessments, assessmentIds := map[], {};
    }

    method Rollback(saved: Db)
      modifies this
      ensures Tables() == saved
    {
      approvals, events, auditIds := saved.approvals, saved.events, saved.auditIds;
      executions, executionOf := saved.executions, saved.executionOf;
      assessments, assessmentIds := saved.assessments, saved.assessmentIds;
    }

    /** `_append_audit`: INSERT the event, then move the approval's count and head. */
    method AppendAudit(p: AuditPayload, prev: Digest) returns (inserted: bool)
      requires p.approvalId in approvals
      modifies this
      ensures inserted <==> Append(rules, old(Tables()), p, prev).Some?
      ensures Tables() == if inserted then Append(rules, old(Tables()), p, prev).value else old(Tables())
    {
      var rows := EventsOf(Tables(), p.approvalId);
      var event := NextEvent(rules, p, prev);
      if p.id in auditIds || SequenceTaken(rows, p.sequence) || !StorableActor(p.actor) {
        return false;
      }
      events := events[p.approvalId := InsertBySequence(rows, event)];
      auditIds := auditIds + {p.id};
      approvals := approvals[p.approvalId := approvals[p.approvalId].(count := p.sequence, head := event.hash)];
      return true;
    }

    /** `_verify_integrity` on the rows as they stand. */
    method VerifyIntegrity(row: ApprovalRow, id: string) returns (soundness: Soundness)
      ensures soundness == ApprovalSoundness(rules, row, EventsOf(Tables(), id))
    {
      var verdict := VerifyAuditChain(rules, EventsOf(Tables(), id), row.count, row.head);
      if verdict != Intact {
        return if verdict == Broken then Tampered else Malformed;
      }
      if !ProvenanceReadable(row.provenance) {
        return Malformed;
      }
      if rules.provenance(row.provenance) != row.provenanceHash {
        return Tampered;
      }
      if !ApprovalReadable(rules, row) {
        return Malformed;
      }
      if row.provenance.terms != row.terms || row.terms.policyVersion != POLICY_VERSION
         || row.terms.decision != RequireHumanApproval
      {
        return Tampered;
      }
      return Sound;
    }

    /** `_verify_execution` on the rows as they stand. */
    method VerifyExecution(x: ExecutionRow, row: ApprovalRow, malformed: Fault) returns (fault: Option<Fault>)
      ensures fault == ExecutionFault(rules, x, row, EventsOf(Tables(), x.body.approvalId),
                                      EventsOf(Tables(), x.body.approvalId), malformed)
    {
      var id := x.body.approvalId;
      var verdict := VerifyAuditChain(rules, EventsOf(Tables(), id), row.count, row.head);
      if verdict != Intact {
        return if verdict == Broken then Some(ExecutionIntegrity) else Some(malformed);
      }
      var soundness := VerifyIntegrity(row, id);
      if soundness != Sound {
        return if soundness == Tampered then Some(ProvenanceInvalid) else Some(malformed);
      }
      if !ExecutionReadable(x.body) {
        return Some(malformed);
      }
      var parametersHash := rules.parameters(x.body.parameters);
      if || rules.execution(x.body) != x.integrityHash
         || parametersHash != x.body.parametersHash
         || row.terms.parameters != Some(x.body.parameters)
         || row.provenanceHash != x.body.provenanceHash
         || row.terms.policyVersion != x.body.policyVersion
         || row.terms.action != AddContactTag
      {
        return Some(ExecutionIntegrity);
      }
      return None;
    }

    // -------------------------------------------------------------- approvals

    method Create(d: Draft, now: DateTime, actor: string, auditId: string) returns (r: Result<Draft, Fault>)
      modifies this
      ensures (Tables(), r) == CreateTx(rules, old(Tables()), d, now, actor, auditId)
    {
      var saved := Tables();
      if d.approvalId in approvals || d.terms.policyVersion != POLICY_VERSION
         || d.terms.decision != RequireHumanApproval
      {
        return Err(ApprovalConflict);
      }
      var row := DraftRow(d);
      approvals := approvals[d.approvalId := row];
      var inserted := AppendAudit(ApprovalEvent(d.approvalId, row, auditId, ApprovalCreated, Pending, actor, now),
                                  GENESIS);
      if !inserted {
        Rollback(saved);
        return Err(ApprovalConflict);
      }
      return Ok(d);
    }

    /** UPDATE of one approval WHERE its status is still PENDING; the row count it reports. */
    method UpdatePending(id: string, row: ApprovalRow) returns (rowcount: nat)
      modifies this`approvals
      ensures rowcount == if id in old(approvals) && old(approvals)[id].status == Pending then 1 else 0
      ensures approvals == if rowcount == 1 then old(approvals)[id := row] else old(approvals)
    {
      if id in approvals && approvals[id].status == Pending {
        approvals := approvals[id := row];
        return 1;
      }
      return 0;
    }

    method Expire(id: string, now: DateTime, auditId: string) returns (inserted: bool)
      requires id in approvals && approvals[id].status == Pending
      modifies this
      ensures inserted <==> ExpireTx(rules, old(Tables()), id, now, auditId).Some?
      ensures inserted ==> Some(Tables()) == ExpireTx(rules, old(Tables()), id, now, auditId)
    {
      var row := approvals[id];
      var rowcount := UpdatePending(id, ExpiredRow(row, now));
      assert rowcount == 1;  // the conflict branch of a lost update cannot be taken
      inserted := AppendAudit(ApprovalEvent(id, row, auditId, ApprovalExpired, Expired, SYSTEM_ACTOR, now), row.head);
    }

    method Get(id: string, now: DateTime, auditId: string) returns (r: Result<ApprovalRow, Fault>)
      modifies this
      ensures (Tables(), r) == GetTx(rules, old(Tables()), id, now, auditId)
    {
      var saved := Tables();
      if id !in approvals {
        return Err(ApprovalNotFound);
      }
      var row := approvals[id];
      var soundness := VerifyIntegrity(row, id);
      if soundness != Sound {
        return Err(ProvenanceIntegrity);
      }
      if row.status == Pending && Lapsed(row, now) {
        var inserted := Expire(id, now, auditId);
        if !inserted {
          Rollback(saved);
          return Err(ApprovalPersistence);
        }
        row := approvals[id];
      }
      return Ok(row);
    }

    method Transition(id: string, target: ApprovalStatus, now: DateTime, actor: string, reason: Option<string>,
                      auditId: string)
      returns (r: Result<ApprovalRow, Fault>)
      modifies this
      ensures (Tables(), r) == TransitionTx(rules, old(Tables()), id, target, now, actor, reason, auditId)
    {
      if target !in {Approved, Rejected} {
        return Err(InvalidState);
      }
      var saved := Tables();
      if id !in approvals {
        return Err(ApprovalNotFound);
      }
      var row := approvals[id];
      var soundness := VerifyIntegrity(row, id);
      if soundness != Sound {
        return Err(ProvenanceIntegrity);
      }
      if row.status == Pending && Lapsed(row, now) {
        var inserted := Expire(id, now, auditId);
        if !inserted {
          Rollback(saved);
          return Err(ApprovalPersistence);
        }
        return Err(ApprovalLapsedFault);
      }
      if row.status != Pending {
        var inserted := AppendAudit(ApprovalEvent(id, row, auditId, TransitionRejected, row.status, actor, now),
                                    row.head);
        return if inserted then Err(InvalidState) else Err(ApprovalPersistence);
      }
      if target == Rejected && reason.Some? && !StorableReason(reason.value) {
        return Err(ApprovalPersistence);
      }
      var rowcount := UpdatePending(id, DecidedRow(row, target, now, actor, reason));
      assert rowcount == 1;  // the conflict branch of a lost update cannot be taken
      var inserted := AppendAudit(ApprovalEvent(id, row, auditId, DecisionKind(target), target, actor, now), row.head);
      if !inserted {
        Rollback(saved);
        return Err(ApprovalPersistence);
      }
      return if ApprovalReadable(rules, approvals[id]) then Ok(approvals[id]) else Err(ProvenanceIntegrity);
    }

    // -------------------------------------------------------------- executions

    /** UPDATE of one execution WHERE its status is still `from`; the row count it reports. */
    method UpdateExecution(executionId: string, from: ExecutionStatus, x: ExecutionRow) returns (rowcount: nat)
      modifies this`executions
      ensures rowcount == if executionId in old(executions) && old(executions)[executionId].body.status == from then 1
                else 0
      ensures executions == if rowcount == 1 then old(executions)[executionId := x] else old(executions)
    {
      if executionId in executions && executions[executionId].body.status == from {
        executions := executions[executionId := x];
        return 1;
      }
      return 0;
    }

    /**
     Inserts a PENDING row that already carries the CLAIMED hash, records the authorisation,
     turns the row to CLAIMED and records the claim.
     */
    method InsertClaim(id: string, body: ExecutionBody, auditId: string, auditId': string) returns (committed: bool)
      requires id in approvals && body.status == Claimed && body.executionId !in executions
      modifies this
      ensures var result := RecordClaim(rules, Inserted(rules, old(Tables()), id, body.executionId, body), id, body,
                                        auditId, auditId');
              committed == result.Some? && Tables() == if committed then result.value else old(Tables())
    {
      var saved := Tables();
      var executionId := body.executionId;
      var row := approvals[id];
      ghost var target := Inserted(rules, saved, id, executionId, body);
      var p := ExecutionEvent(id, row, executionId, auditId, ExecutionAuthorized, Prepared, body.actor, body.claimedAt,
                              None);
      var integrityHash := rules.execution(body);
      executions := executions[executionId := ExecutionRow(body.(status := Prepared), integrityHash)];
      executionOf := executionOf[id := executionId];
      ghost var pending := executions;
      AppendIgnoresExecutions(rules, target, pending, p, row.head);
      var inserted := AppendAudit(p, row.head);
      if !inserted {
        Rollback(saved);
        return false;
      }
      var rowcount := UpdateExecution(executionId, Prepared, ExecutionRow(body, integrityHash));
      assert rowcount == 1;  // the conflict branch of a lost update cannot be taken
      assert executions == target.executions;
      row := approvals[id];
      var p' := ExecutionEvent(id, row, executionId, auditId', ExecutionClaimed, Claimed, body.actor,
                                body.claimedAt, None);
      inserted := AppendAudit(p', row.head);
      if !inserted {
        Rollback(saved);
        return false;
      }
      return true;
    }

    method Claim(id: string, now: DateTime, actor: string, executionId: string, auditId: string, auditId': string)
      returns (r: Result<Claim, Fault>)
      modifies this
      ensures (Tables(), r) == ClaimTx(rules, old(Tables()), id, now, actor, executionId, auditId, auditId')
    {
      if id !in approvals {
        return Err(ApprovalNotFound);
      }
      var row := approvals[id];
      var verdict := VerifyAuditChain(rules, EventsOf(Tables(), id), row.count, row.head);
      if verdict != Intact {
        return Err(ExecutionIntegrity);
      }
      var soundness := VerifyIntegrity(row, id);
      if soundness != Sound {
        return Err(ProvenanceInvalid);
      }
      if row.status == Expired || Lapsed(row, now) {
        return Err(ExecutionApprovalLapsed);
      }
      if row.status != Approved {
        return Err(NotApproved);
      }
      if row.terms.policyVersion != POLICY_VERSION || row.terms.action != AddContactTag || row.terms.parameters.None? {
        return Err(ActionNotAllowed);
      }
      if id in executionOf {
        var claimed := executionOf[id] in executions && executions[executionOf[id]].body.status == Claimed;
        return if claimed then Err(AlreadyClaimed) else Err(AlreadyCompleted);
      }
      if executionId in executions {
        return Err(ExecutionConflict);
      }
      var body := ClaimedBody(rules, id, row, row.terms.parameters.value, executionId, now, actor);
      var committed := InsertClaim(id, body, auditId, auditId');
      if !committed {
        return Err(ExecutionConflict);
      }
      return if ExecutionReadable(body) then Ok(Transactions.Claim(body, row)) else Err(ExecutionIntegrity);
    }

    method Complete(executionId: string, target: ExecutionStatus, now: DateTime, failure: Option<FailureCategory>,
                    auditId: string)
      returns (r: Result<ExecutionBody, Fault>)
      modifies this
      ensures (Tables(), r) == CompleteTx(rules, old(Tables()), executionId, target, now, failure, auditId)
    {
      if !Terminal(target) || (target == Succeeded) != failure.None? {
        return Err(ExecutionConflict);
      }
      var saved := Tables();
      if executionId !in executions {
        return Err(ExecutionNotFound);
      }
      var x := executions[executionId];
      var id := x.body.approvalId;
      if id !in approvals {
        return Err(ApprovalNotFound);
      }
      var fault := VerifyExecution(x, approvals[id], ExecutionIntegrity);
      if fault.Some? {
        return Err(fault.value);
      }
      if x.body.status != Claimed {
        return Err(AlreadyCompleted);
      }
      var body := FinishedBody(x.body, target, now, failure);
      var rowcount := UpdateExecution(executionId, Claimed, ExecutionRow(body, rules.execution(body)));
      assert rowcount == 1;  // the conflict branch of a lost update cannot be taken
      var row := approvals[id];
      var p := ExecutionEvent(id, row, executionId, auditId, OutcomeKind(target), target, x.body.actor, now, failure);
      var inserted := AppendAudit(p, row.head);
      if !inserted {
        Rollback(saved);
        return Err(ExecutionPersistence);
      }
      return Ok(executions[executionId].body);
    }

    method GetReconciliation(executionId: string) returns (r: Result<AssessmentBody, Fault>)
      ensures r == ReadAssessment(rules, Tables(), executionId)
    {
      if executionId !in assessments {
        return Err(ExecutionNotFound);
      }
      var y := assessments[executionId];
      if !AssessmentReadable(y.body) {
        return Err(ReconciliationIntegrity);
      }
      var expected := rules.assessment(y.body, y.prev);
      if executionId !in executions {
        return Err(ExecutionNotFound);
      }
      var x := executions[executionId];
      if || expected != y.hash
         || y.prev != GENESIS
         || x.body.status != Unknown
         || x.integrityHash != y.body.originalHash
         || x.body.provenanceHash != y.body.provenanceHash
      {
        return Err(ReconciliationIntegrity);
      }
      return Ok(y.body);
    }

    method Reconcile(executionId: string, outcome: DeclaredOutcome, reason: string, now: DateTime, actor: string,
                     assessmentId: string, auditId: string) returns (r: Result<AssessmentBody, Fault>)
      modifies this
      ensures (Tables(), r) == ReconcileTx(rules, old(Tables()), executionId, outcome, reason, now, actor, assessmentId,
                                           auditId)
    {
      hide ExecutionFault, ReadAssessment, Assess, StorableReason, StorableActor, InsertBySequence;
      var saved := Tables();
      if executionId !in executions {
        return Err(ExecutionNotFound);
      }
      var x := executions[executionId];
      var id := x.body.approvalId;
      if id !in approvals {
        return Err(ApprovalNotFound);
      }
      var fault := VerifyExecution(x, approvals[id], ReconciliationIntegrity);
      if fault.Some? {
        return Err(fault.value);
      }
      if x.body.status != Unknown {
        return Err(NotReconciliable);
      }
      if executionId in assessments || assessmentId in assessmentIds || !StorableReason(reason) {
        return Err(AlreadyAssessed);
      }
      var y := Assess(rules, executionId, x, assessmentId, outcome, reason, now, actor);
      assessments := assessments[executionId := y];
      assessmentIds := assessmentIds + {assessmentId};
      var row := approvals[id];
      var inserted := AppendAudit(AssessmentEvent(executionId, row, x, auditId, actor, now, y.hash), row.head);
      if !inserted {
        Rollback(saved);
        return Err(AlreadyAssessed);
      }
      r := GetReconciliation(executionId);
    }

    method GetExecution(executionId: string) returns (r: Result<ExecutionBody, Fault>)
      ensures r == ReadExecution(rules, Tables(), executionId)
    {
      if executionId !in executions {
        return Err(ExecutionNotFound);
      }
      var x := executions[executionId];
      if x.body.approvalId !in approvals {
        return Err(ApprovalNotFound);
      }
      var fault := VerifyExecution(x, approvals[x.body.approvalId], ExecutionIntegrity);
      return if fault.Some? then Err(fault.value) else Ok(x.body);
    }
  }
}
