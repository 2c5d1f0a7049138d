/**
 Which calls leave tables that every model accepts: for any actor and any reason, the condition
 is stated on what the caller passes and on the tables it finds.
 */
module Admissibility {
  import opened Prelude
  import opened Timestamps
  import opened Texts
  import opened Records
  import opened AuditTrail
  import opened Transactions
  import opened Invariants
  import opened Preservation
  import opened Progress
  import opened Outcomes
  import opened Policy
  import opened Protocol
  import opened Guarantees

  // ---------------------------------------------------------------- create

  /** A key or a length check refuses the row or its event. */
  predicate CreateRefusedFor(db: Db, d: Draft, actor: string, auditId: string) {
    d.approvalId in db.approvals || auditId in db.auditIds || !StorableActor(actor)
  }

  /** `create` leaves acceptable tables exactly when it is refused or its actor is a valid identifier. */
  lemma CreateExactly(rules: Rules, db: Db, d: Draft, now: DateTime, actor: string, auditId: string)
    requires Inv(rules, db) && DraftSound(rules, d)
    ensures Inv(rules, CreateTx(rules, db, d, now, actor, auditId).0) <==>
              CreateRefusedFor(db, d, actor, auditId) || ValidActor(actor)
  {
    CreateKeepsInv(rules, db, d, now, actor, auditId);
    if CreateRefusedFor(db, d, actor, auditId) {
      CreateRefused(rules, db, d, now, actor, auditId);
    } else {
      DraftTerms(rules, d);
      TablesIndexed(rules, db);
      hide Inv, CreateTx, ExecutionsIndexed, StorableActor, ValidActor, DraftSound, Appended;
      CreateEffect(rules, db, d, now, actor, auditId);
      GrowsAuditIds(rules, Drafted(db, d), CreatedEvent(d, now, actor, auditId));
    }
  }

  lemma GrowsAuditIds(rules: Rules, db: Db, p: AuditPayload)
    requires p.approvalId in db.approvals
    ensures p.id in Appended(rules, db, p).auditIds
  {
  }

  // ---------------------------------------------------------------- transition

  /** The call changes nothing: wrong target, unknown or unreadable approval, repeated identifier, or a length check. */
  predicate TransitionRefused(db: Db, id: string, target: ApprovalStatus, actor: string, reason: Option<string>,
                              auditId: string) {
    || target !in {Approved, Rejected}
    || id !in db.approvals
    || |EventsOf(db, id)| > 1_000_000
    || auditId in db.auditIds
    || !StorableActor(actor)
    || (db.approvals[id].status == Pending && target == Rejected && reason.Some? && !StorableReason(reason.value))
  }

  lemma RefusedTransition(rules: Rules, db: Db, id: string, target: ApprovalStatus, now: DateTime, actor: string,
                          reason: Option<string>, auditId: string)
    requires Inv(rules, db) && TransitionRefused(db, id, target, actor, reason, auditId)
    requires id in db.approvals ==> !(db.approvals[id].status == Pending && Lapsed(db.approvals[id], now))
    ensures TransitionTx(rules, db, id, target, now, actor, reason, auditId).0 == db
  {
    hide Inv, ApprovalSoundness, Append, DecideTx, StorableActor, StorableReason, ApprovalReadable, DecidedRow,
         DecisionKind;
    if id in db.approvals && target in {Approved, Rejected} {
      var row := db.approvals[id];
      ApprovalAccepted(rules, db, id);
      AppendsAtEnd(rules, db, db, RefuseEvent(id, row, now, actor, auditId));
      var p := DecisionEvent(id, row, target, now, actor, auditId);
      var row' := DecidedRow(row, target, now, actor, reason);
      AppendsAtEnd(rules, db, WithRow(db, id, row'), p);
      assert DecideTx(rules, db, id, row', p) == Append(rules, WithRow(db, id, row'), p,
                                                        row.head) by { DecideIs(rules, db, id, row', p); }
    }
  }

  lemma AcceptedTransition(rules: Rules, db: Db, id: string, target: ApprovalStatus, now: DateTime, actor: string,
                           reason: Option<string>, auditId: string)
    requires Inv(rules, db) && !TransitionRefused(db, id, target, actor, reason, auditId)
    requires !(db.approvals[id].status == Pending && Lapsed(db.approvals[id], now))
    ensures TransitionTx(rules, db, id, target, now, actor, reason, auditId).0 != db
  {
    hide Inv, ApprovalSoundness, Append, DecideTx, StorableActor, StorableReason, ApprovalReadable, DecidedRow,
         DecisionKind, Appended;
    var row := db.approvals[id];
    ApprovalAccepted(rules, db, id);
    if row.status != Pending {
      var p := RefuseEvent(id, row, now, actor, auditId);
      AppendsAtEnd(rules, db, db, p);
      GrowsAuditIds(rules, db, p);
    } else {
      var p := DecisionEvent(id, row, target, now, actor, auditId);
      var row' := DecidedRow(row, target, now, actor, reason);
      AppendsAtEnd(rules, db, WithRow(db, id, row'), p);
      DecideIs(rules, db, id, row', p);
      GrowsAuditIds(rules, WithRow(db, id, row'), p);
    }
  }

  /** `transition` leaves acceptable tables exactly when it is refused or what it stores is admissible. */
  lemma TransitionExactly(rules: Rules, db: Db, id: string, target: ApprovalStatus, now: DateTime, actor: string,
                          reason: Option<string>, auditId: string)
    requires Inv(rules, db)
    ensures Inv(rules, TransitionTx(rules, db, id, target, now, actor, reason, auditId).0) <==>
            || TransitionRefused(db, id, target, actor, reason, auditId)
            || Admissible(rules, db.approvals[id], target, now, actor, reason)
  {
    hide Inv, TransitionTx, Admissible, Lapsed, StorableActor, StorableReason, EventsOf;
    TransitionKeepsInv(rules, db, id, target, now, actor, reason, auditId);
    if id in db.approvals && db.approvals[id].status == Pending && Lapsed(db.approvals[id], now) {
      LapsedAdmissible(rules, db.approvals[id], target, now, actor, reason);
    } else if TransitionRefused(db, id, target, actor, reason, auditId) {
      RefusedTransition(rules, db, id, target, now, actor, reason, auditId);
    } else {
      AcceptedTransition(rules, db, id, target, now, actor, reason, auditId);
    }
  }

  lemma LapsedAdmissible(rules: Rules, row: ApprovalRow, target: ApprovalStatus, now: DateTime, actor: string,
                         reason: Option<string>)
    requires row.status == Pending && Lapsed(row, now)
    ensures Admissible(rules, row, target, now, actor, reason)
  {
  }

  // ---------------------------------------------------------------- claim

  /** The call changes nothing: the approval may not be claimed, has an execution, or a key or length check refuses. */
  predicate ClaimRefused(rules: Rules, db: Db, id: string, now: DateTime, actor: string, executionId: string,
                         auditId: string, auditId': string)
  {
    || id !in db.approvals
    || ClaimRefusal(rules, db.approvals[id], EventsOf(db, id), now).Some?
    || id in db.executionOf
    || executionId in db.executions
    || !ClaimIdsFresh(db, auditId, auditId')
    || !StorableActor(actor)
  }

  /** The fields of a claimed execution: the caller's, the approval's, and nothing yet of an outcome. */
  predicate FreshlyClaimed(rules: Rules, row: ApprovalRow, b: ExecutionBody, id: string, now: DateTime, actor: string,
                           executionId: string) {
    && row.terms.parameters.Some?
    && b == ExecutionBody(executionId, id, row.terms.eventId, row.terms.parameters.value, Claimed, now, now, None, None,
                          row.provenanceHash, "1.0", actor, rules.parameters(row.terms.parameters.value))
  }

  lemma ClaimCases(rules: Rules, db: Db, id: string, now: DateTime, actor: string, executionId: string, auditId: string,
                   auditId': string)
    requires Inv(rules, db)
    ensures var (db', r) := ClaimTx(rules, db, id, now, actor, executionId, auditId, auditId');
            if ClaimRefused(rules, db, id, now, actor, executionId, auditId, auditId') then db' == db && r.Err?
            else
              var row := db.approvals[id];
              && row.terms.parameters.Some?
              && var body := ClaimedBody(rules, id, row, row.terms.parameters.value, executionId, now, actor);
                 && db' == AfterClaim(rules, db, id, body, auditId, auditId')
                 && r == if ExecutionReadable(body) then Ok(Claim(body, row)) else Err(ExecutionIntegrity)
  {
    hide Inv, Inspect, ApprovalSoundness, RecordClaim, AfterClaim, StorableActor, ExecutionReadable;
    if id in db.approvals && ClaimRefusal(rules, db.approvals[id], EventsOf(db, id), now).None?
       && id !in db.executionOf && executionId !in db.executions
    {
      ClaimEffect(rules, db, id, db.approvals[id].terms.parameters.value, now, actor, executionId, auditId, auditId');
    }
  }

  lemma ClaimIsStored(rules: Rules, db: Db, id: string, body: ExecutionBody, auditId: string, auditId': string)
    requires id in db.approvals
    ensures var db' := AfterClaim(rules, db, id, body, auditId, auditId');
            && body.executionId in db'.executions && db'.executions[body.executionId] == ExecutionRowOf(rules, body)
  {
  }

  lemma ClaimedBodyTexts(rules: Rules, row: ApprovalRow, id: string, p: Parameters, executionId: string, now: DateTime,
                         actor: string)
    requires row.terms.policyVersion == POLICY_VERSION
    ensures var body := ClaimedBody(rules, id, row, p, executionId, now, actor);
            && body.executionId == executionId && body.actor == actor && body.approvalId == id
            && (ExecutionReadable(body) <==> ValidActor(actor))
  {
    hide ValidActor;
  }

  lemma BodyFresh(rules: Rules, row: ApprovalRow, id: string, p: Parameters, executionId: string, now: DateTime,
                  actor: string)
    requires row.terms.policyVersion == POLICY_VERSION && row.terms.parameters == Some(p)
    ensures FreshlyClaimed(rules, row, ClaimedBody(rules, id, row, p, executionId, now, actor), id, now, actor,
                           executionId)
  {
  }

  lemma ClaimablePolicy(rules: Rules, row: ApprovalRow, events: seq<AuditEvent>, now: DateTime)
    requires ClaimRefusal(rules, row, events, now).None?
    ensures row.terms.policyVersion == POLICY_VERSION && row.terms.parameters.Some?
  {
    hide Inspect, ApprovalSoundness;
  }

  /** `claim` leaves acceptable tables exactly when it is refused or its actor is a valid identifier. */
  lemma ClaimExactly(rules: Rules, db: Db, id: string, now: DateTime, actor: string, executionId: string,
                     auditId: string, auditId': string)
    requires Inv(rules, db)
    ensures Inv(rules, ClaimTx(rules, db, id, now, actor, executionId, auditId, auditId').0) <==>
            ClaimRefused(rules, db, id, now, actor, executionId, auditId, auditId') || ValidActor(actor)
  {
    hide Inv, ClaimTx, ClaimRefusal, AfterClaim, ValidActor, StorableActor, ExecutionReadable, ClaimedBody;
    ClaimKeepsInv(rules, db, id, now, actor, executionId, auditId, auditId');
    ClaimCases(rules, db, id, now, actor, executionId, auditId, auditId');
    if !ClaimRefused(rules, db, id, now, actor, executionId, auditId, auditId') {
      var row := db.approvals[id];
      var p := row.terms.parameters.value;
      ClaimablePolicy(rules, row, EventsOf(db, id), now);
      ClaimedBodyTexts(rules, row, id, p, executionId, now, actor);
      ClaimIsStored(rules, db, id, ClaimedBody(rules, id, row, p, executionId, now, actor), auditId, auditId');
    }
  }

  lemma UnreadableExecution(rules: Rules, db: Db, executionId: string)
    requires executionId in db.executions && !ExecutionReadable(db.executions[executionId].body)
    ensures ReadExecution(rules, db, executionId).Err?
  {
    hide Inspect, ApprovalSoundness, ExecutionReadable, ExecutionMatches;
  }

  lemma ReadableExecution(rules: Rules, db: Db, executionId: string)
    requires Inv(rules, db) && executionId in db.executions
    requires |EventsOf(db, db.executions[executionId].body.approvalId)| <= 1_000_000
    ensures ReadExecution(rules, db, executionId) == Ok(db.executions[executionId].body)
  {
    hide Inv, ExecutionFault;
    ExecutionAccepted(rules, db, executionId, ExecutionIntegrity);
  }

  /**
   In every reachable state: a refused claim changes nothing; every other one is committed, is
   answered with the execution exactly for a valid actor, and with room left in the chain the
   execution can be read exactly then.
   */
  lemma ClaimReadsBack(config: Config, actions: seq<Move>, id: string, now: DateTime, actor: string,
                       executionId: string,
                       auditId: string, auditId': string)
    ensures var db := Reached(config, actions).db;
            var (db', r) := ClaimTx(config.rules, db, id, now, actor, executionId, auditId, auditId');
            if ClaimRefused(config.rules, db, id, now, actor, executionId, auditId, auditId') then db' == db && r.Err?
            else
              && executionId in db'.executions && db'.executions[executionId].body.status == Claimed
              && (r.Ok? <==> ValidActor(actor))
              && (r.Ok? ==>
                    && r.value == Claim(db'.executions[executionId].body, db.approvals[id])
                    && FreshlyClaimed(config.rules, db.approvals[id], r.value.execution, id, now, actor, executionId))
              && (r.Err? ==> r.error == ExecutionIntegrity)
              && (ValidActor(actor) && |EventsOf(db, id)| + 2 <= 1_000_000 ==>
                    ReadExecution(config.rules, db', executionId) == Ok(db'.executions[executionId].body))
              && (!ValidActor(actor) ==> ReadExecution(config.rules, db', executionId).Err?)
  {
    ReachedTables(config, actions);
    hide Reached;
    ClaimReads(config.rules, Reached(config, actions).db, id, now, actor, executionId, auditId, auditId');
    hide *;
  }

  lemma ClaimReads(rules: Rules, db: Db, id: string, now: DateTime, actor: string, executionId: string, auditId: string,
                   auditId': string)
    requires Inv(rules, db)
    ensures var (db', r) := ClaimTx(rules, db, id, now, actor, executionId, auditId, auditId');
            if ClaimRefused(rules, db, id, now, actor, executionId, auditId, auditId') then db' == db && r.Err?
            else
              && executionId in db'.executions && db'.executions[executionId].body.status == Claimed
              && (r.Ok? <==> ValidActor(actor))
              && (r.Ok? ==>
                    && r.value == Claim(db'.executions[executionId].body, db.approvals[id])
                    && FreshlyClaimed(rules, db.approvals[id], r.value.execution, id, now, actor, executionId))
              && (r.Err? ==> r.error == ExecutionIntegrity)
              && (ValidActor(actor) && |EventsOf(db, id)| + 2 <= 1_000_000 ==>
                    ReadExecution(rules, db', executionId) == Ok(db'.executions[executionId].body))
              && (!ValidActor(actor) ==> ReadExecution(rules, db', executionId).Err?)
  {
    ClaimCases(rules, db, id, now, actor, executionId, auditId, auditId');
    if !ClaimRefused(rules, db, id, now, actor, executionId, auditId, auditId') {
      hide Inv, ClaimTx, ClaimRefusal, AfterClaim, ValidActor, StorableActor, ExecutionReadable, ReadExecution,
           EventsOf;
      var row := db.approvals[id];
      var p := row.terms.parameters.value;
      var body := ClaimedBody(rules, id, row, p, executionId, now, actor);
      var db' := ClaimTx(rules, db, id, now, actor, executionId, auditId, auditId').0;
      ClaimablePolicy(rules, row, EventsOf(db, id), now);
      ClaimedBodyTexts(rules, row, id, p, executionId, now, actor);
      ClaimIsStored(rules, db, id, body, auditId, auditId');
      BodyFresh(rules, row, id, p, executionId, now, actor);
      if ValidActor(actor) {
        ClaimKeepsInv(rules, db, id, now, actor, executionId, auditId, auditId');
        ClaimAddsTwo(rules, db, id, now, actor, executionId, auditId, auditId');
        if |EventsOf(db, id)| + 2 <= 1_000_000 {
          ReadableExecution(rules, db', executionId);
        }
      } else {
        UnreadableExecution(rules, db', executionId);
      }
    }
  }

  // ---------------------------------------------------------------- reconcile

  /**
   The call changes nothing: unknown, unreadable, not UNKNOWN or assessed already, or a key or
   length check refuses.
   */
  predicate ReconcileRefused(db: Db, executionId: string, reason: string, actor: string, assessmentId: string,
                             auditId: string) {
    || executionId !in db.executions
    || |EventsOf(db, db.executions[executionId].body.approvalId)| > 1_000_000
    || db.executions[executionId].body.status != Unknown
    || executionId in db.assessments
    || assessmentId in db.assessmentIds
    || !StorableReason(reason)
    || auditId in db.auditIds
    || !StorableActor(actor)
  }

  /**
   The stored assessment: what the caller declared, the execution as it was found, the predecessor
   of 64 zeros, and the digest of just that.
   */
  predicate Declares(rules: Rules, y: AssessmentRow, x: ExecutionRow, executionId: string, outcome: DeclaredOutcome,
                     reason: string, now: DateTime, actor: string, assessmentId: string) {
    && y.body == AssessmentBody(assessmentId, executionId, x.body.approvalId, x.body.provenanceHash,
                                x.body.policyVersion, x.integrityHash, actor, now, outcome, reason)
    && (forall i | 0 <= i < 64 :: y.prev[i] == '0')
    && y.hash == rules.assessment(y.body, y.prev)
  }

  lemma AssessDeclares(rules: Rules, executionId: string, x: ExecutionRow, assessmentId: string,
                       outcome: DeclaredOutcome, reason: string, now: DateTime, actor: string)
    ensures Declares(rules, Assess(rules, executionId, x, assessmentId, outcome, reason, now, actor), x, executionId,
                     outcome, reason, now, actor, assessmentId)
  {
    ZerosAre(64);
    hide Zeros;
  }

  lemma ReconcileCases(rules: Rules, db: Db, executionId: string, outcome: DeclaredOutcome, reason: string,
                       now: DateTime,
                       actor: string, assessmentId: string, auditId: string)
    requires Inv(rules, db)
    ensures var (db', r) := ReconcileTx(rules, db, executionId, outcome, reason, now, actor, assessmentId, auditId);
            if ReconcileRefused(db, executionId, reason, actor, assessmentId, auditId) then db' == db && r.Err?
            else
              && db.executions[executionId].body.approvalId in db.approvals
              && var y := Assess(rules, executionId, db.executions[executionId], assessmentId, outcome, reason, now,
                                 actor);
                 && db' == AfterAssess(rules, db, executionId, y, auditId)
                 && r == ReadAssessment(rules, db', executionId)
  {
    hide Inv, ExecutionFault, Append, AfterAssess, ReadAssessment, StorableActor, StorableReason;
    if executionId in db.executions {
      var y := Assess(rules, executionId, db.executions[executionId], assessmentId, outcome, reason, now, actor);
      ExecutionAccepted(rules, db, executionId, ReconciliationIntegrity);
      AssessAppends(rules, db, executionId, y, auditId);
    }
  }

  lemma AssessmentIsStored(rules: Rules, db: Db, executionId: string, y: AssessmentRow, auditId: string)
    requires executionId in db.executions && db.executions[executionId].body.approvalId in db.approvals
    ensures var db' := AfterAssess(rules, db, executionId, y, auditId);
            executionId in db'.assessments && db'.assessments[executionId] == y
  {
  }

  /**
   `reconcile` leaves acceptable tables exactly when it is refused or its texts are ones the
   assessment model accepts.
   */
  lemma ReconcileExactly(rules: Rules, db: Db, executionId: string, outcome: DeclaredOutcome, reason: string,
                         now: DateTime,
                         actor: string, assessmentId: string, auditId: string)
    requires Inv(rules, db)
    ensures Inv(rules, ReconcileTx(rules, db, executionId, outcome, reason, now, actor, assessmentId, auditId).0) <==>
            ReconcileRefused(db, executionId, reason, actor, assessmentId, auditId) || ReadableAssessment(actor, reason)
  {
    hide Inv, ReconcileTx, AfterAssess, ReadAssessment, StorableActor, StorableReason, ReadableAssessment, Assess;
    ReconcileKeepsInv(rules, db, executionId, outcome, reason, now, actor, assessmentId, auditId);
    ReconcileCases(rules, db, executionId, outcome, reason, now, actor, assessmentId, auditId);
    if !ReconcileRefused(db, executionId, reason, actor, assessmentId, auditId) {
      AssessmentIsStored(rules, db, executionId,
                         Assess(rules, executionId, db.executions[executionId], assessmentId, outcome, reason, now,
                                actor), auditId);
    }
  }

  lemma UnreadableAssessment(rules: Rules, db: Db, executionId: string)
    requires executionId in db.assessments && !AssessmentReadable(db.assessments[executionId].body)
    ensures ReadAssessment(rules, db, executionId) == Err(ReconciliationIntegrity)
  {
    hide AssessmentReadable;
  }

  /**
   In every reachable state: a refused assessment changes nothing; every other one is stored, and
   this call and every later `get_reconciliation` answer it exactly when the assessment model
   accepts its actor and its reason.
   */
  lemma ReconcileReadsBack(config: Config, actions: seq<Move>, executionId: string, outcome: DeclaredOutcome,
                           reason: string,
                           now: DateTime, actor: string, assessmentId: string, auditId: string)
    ensures var db := Reached(config, actions).db;
            var (db', r) := ReconcileTx(config.rules, db, executionId, outcome, reason, now, actor, assessmentId,
                                        auditId);
            if ReconcileRefused(db, executionId, reason, actor, assessmentId, auditId) then db' == db && r.Err?
            else
              && executionId in db'.assessments
              && Declares(config.rules, db'.assessments[executionId], db.executions[executionId], executionId, outcome,
                          reason, now, actor, assessmentId)
              && r == ReadAssessment(config.rules, db', executionId)
              && (if ReadableAssessment(actor, reason) then r == Ok(db'.assessments[executionId].body)
                  else r == Err(ReconciliationIntegrity))
  {
    ReachedTables(config, actions);
    hide Reached;
    ReconcileReads(config.rules, Reached(config, actions).db, executionId, outcome, reason, now, actor, assessmentId,
                   auditId);
    hide *;
  }

  lemma AssessedTexts(rules: Rules, executionId: string, x: ExecutionRow, assessmentId: string,
                      outcome: DeclaredOutcome, reason: string,
                      now: DateTime, actor: string)
    requires x.body.policyVersion == POLICY_VERSION
    ensures AssessmentReadable(Assess(rules, executionId, x, assessmentId, outcome, reason, now, actor).body) <==>
              ReadableAssessment(actor, reason)
  {
    hide ValidActor, ReadableAssessmentReason;
  }

  lemma StoredPolicy(rules: Rules, db: Db, executionId: string)
    requires Inv(rules, db) && executionId in db.executions
    ensures db.executions[executionId].body.policyVersion == POLICY_VERSION
  {
    hide Inv;
    ExecutionRows(rules, db, executionId);
  }

  lemma ReconcileReads(rules: Rules, db: Db, executionId: string, outcome: DeclaredOutcome, reason: string,
                       now: DateTime,
                       actor: string, assessmentId: string, auditId: string)
    requires Inv(rules, db)
    ensures var (db', r) := ReconcileTx(rules, db, executionId, outcome, reason, now, actor, assessmentId, auditId);
            if ReconcileRefused(db, executionId, reason, actor, assessmentId, auditId) then db' == db && r.Err?
            else
              && executionId in db'.assessments
              && Declares(rules, db'.assessments[executionId], db.executions[executionId], executionId, outcome,
                          reason, now, actor, assessmentId)
              && r == ReadAssessment(rules, db', executionId)
              && (if ReadableAssessment(actor, reason) then r == Ok(db'.assessments[executionId].body)
                  else r == Err(ReconciliationIntegrity))
  {
    hide Inv, ReconcileTx, AfterAssess, ReadAssessment, StorableActor, StorableReason, ReadableAssessment, Assess,
         AssessmentReadable, Declares;
    ReconcileCases(rules, db, executionId, outcome, reason, now, actor, assessmentId, auditId);
    if !ReconcileRefused(db, executionId, reason, actor, assessmentId, auditId) {
      var x := db.executions[executionId];
      var y := Assess(rules, executionId, x, assessmentId, outcome, reason, now, actor);
      var db' := ReconcileTx(rules, db, executionId, outcome, reason, now, actor, assessmentId, auditId).0;
      StoredPolicy(rules, db, executionId);
      AssessedTexts(rules, executionId, x, assessmentId, outcome, reason, now, actor);
      AssessmentIsStored(rules, db, executionId, y, auditId);
      AssessDeclares(rules, executionId, x, assessmentId, outcome, reason, now, actor);
      if ReadableAssessment(actor, reason) {
        ReconcileKeepsInv(rules, db, executionId, outcome, reason, now, actor, assessmentId, auditId);
        AssessmentAccepted(rules, db', executionId);
      } else {
        UnreadableAssessment(rules, db', executionId);
      }
    }
  }
}
