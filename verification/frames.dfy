/** What each operation may change, on any tables whatever, and what it leaves when it raises. */
module Frames {
  import opened Prelude
  import opened Timestamps
  import opened Texts
  import opened Records
  import opened AuditTrail
  import opened Transactions

  lemma AppendFrame(rules: Rules, db: Db, p: AuditPayload, prev: Digest)
    requires Append(rules, db, p, prev).Some?
    ensures var db' := Append(rules, db, p, prev).value;
            && db'.executions == db.executions && db'.executionOf == db.executionOf
            && db'.assessments == db.assessments && db'.assessmentIds == db.assessmentIds
            && db'.approvals.Keys == db.approvals.Keys
            && p.approvalId in db.approvals && db'.approvals[p.approvalId].terms == db.approvals[p.approvalId].terms
            && db'.auditIds == db.auditIds + {p.id} && p.id !in db.auditIds
  {
  }

  lemma CreateFrame(rules: Rules, db: Db, d: Draft, now: DateTime, actor: string, auditId: string)
    ensures var (db', r) := CreateTx(rules, db, d, now, actor, auditId);
            && (r.Err? ==> db' == db)
            && (r.Ok? ==>
                  && d.approvalId !in db.approvals
                  && db'.approvals.Keys == db.approvals.Keys + {d.approvalId}
                  && db'.approvals[d.approvalId].terms == d.terms)
            && db'.executions == db.executions && db'.executionOf == db.executionOf
  {
    hide Append;
    var mid := db.(approvals := db.approvals[d.approvalId := DraftRow(d)]);
    var p := CreatedEvent(d, now, actor, auditId);
    assert mid.approvals.Keys == db.approvals.Keys + {d.approvalId};
    if Append(rules, mid, p, GENESIS).Some? {
      AppendFrame(rules, mid, p, GENESIS);
    }
  }

  lemma DecideFrame(rules: Rules, db: Db, id: string, row: ApprovalRow, p: AuditPayload)
    requires id in db.approvals && DecideTx(rules, db, id, row, p).Some?
    ensures var db' := DecideTx(rules, db, id, row, p).value;
            && db'.executions == db.executions && db'.executionOf == db.executionOf && db'.assessments == db.assessments
            && db'.approvals.Keys == db.approvals.Keys
  {
    hide Append;
    var mid := db.(approvals := db.approvals[id := row]);
    assert mid.approvals.Keys == db.approvals.Keys;
    AppendFrame(rules, mid, p, db.approvals[id].head);
  }

  lemma ExpireFrame(rules: Rules, db: Db, id: string, now: DateTime, auditId: string)
    requires id in db.approvals && ExpireTx(rules, db, id, now, auditId).Some?
    ensures var db' := ExpireTx(rules, db, id, now, auditId).value;
            && db'.executions == db.executions && db'.executionOf == db.executionOf && db'.assessments == db.assessments
            && db'.approvals.Keys == db.approvals.Keys
  {
    hide DecideTx, ApprovalEvent;
    var row := db.approvals[id];
    DecideFrame(rules, db, id, ExpiredRow(row, now), ExpireEvent(id, row, now, auditId));
  }

  /** Reading an approval changes tables only by expiring it, and never when it raises. */
  lemma GetFrame(rules: Rules, db: Db, id: string, now: DateTime, auditId: string)
    ensures var (db', r) := GetTx(rules, db, id, now, auditId);
            && (r.Err? ==> db' == db)
            && (db' != db ==> id in db.approvals && Some(db') == ExpireTx(rules, db, id, now, auditId))
            && db'.executions == db.executions && db'.executionOf == db.executionOf && db'.assessments == db.assessments
            && db'.approvals.Keys == db.approvals.Keys
  {
    hide ApprovalSoundness, ExpireTx;
    if id in db.approvals && ExpireTx(rules, db, id, now, auditId).Some? {
      ExpireFrame(rules, db, id, now, auditId);
    }
  }

  /** Where the tables of a transition come from. */
  lemma TransitionCases(rules: Rules, db: Db, id: string, target: ApprovalStatus, now: DateTime, actor: string,
                        reason: Option<string>, auditId: string)
    requires id in db.approvals && TransitionTx(rules, db, id, target, now, actor, reason, auditId).0 != db
    ensures var db' := TransitionTx(rules, db, id, target, now, actor, reason, auditId).0;
            var row := db.approvals[id];
            && target in {Approved, Rejected}
            && if row.status == Pending && Lapsed(row, now) then Some(db') == ExpireTx(rules, db, id, now, auditId)
               else if row.status != Pending
               then Some(db') == Append(rules, db, RefuseEvent(id, row, now, actor, auditId), row.head)
               else Some(db') == DecideTx(rules, db, id, DecidedRow(row, target, now, actor, reason),
                                          DecisionEvent(id, row, target, now, actor, auditId))
  {
    hide ApprovalSoundness, ExpireTx, Append, DecideTx, DecidedRow, ApprovalReadable, ApprovalEvent, StorableReason;
  }

  /** Which error goes with which change. */
  lemma TransitionErrors(rules: Rules, db: Db, id: string, target: ApprovalStatus, now: DateTime, actor: string,
                         reason: Option<string>, auditId: string)
    requires id in db.approvals && TransitionTx(rules, db, id, target, now, actor, reason, auditId).0 != db
    ensures var (db', r) := TransitionTx(rules, db, id, target, now, actor, reason, auditId);
            var row := db.approvals[id];
            && ApprovalSoundness(rules, row, EventsOf(db, id)) == Sound
            && (row.status == Pending && Lapsed(row, now) ==> r == Err(ApprovalLapsedFault))
            && (row.status != Pending ==> r == Err(InvalidState))
            && (row.status == Pending && !Lapsed(row, now) && r.Err? ==>
                  r.error == ProvenanceIntegrity && (id in db'.approvals ==>
                      !ApprovalReadable(rules, db'.approvals[id])))
  {
    hide ApprovalSoundness, ExpireTx, Append, DecideTx, DecidedRow, ApprovalReadable, ApprovalEvent, StorableReason,
         EventsOf;
  }

  /**
   A transition that raises leaves every table alone except when it expires the approval, when
   it records a refused transition, or when it stores a decision whose texts the approval model
   then refuses to read back.
   */
  lemma TransitionFrame(rules: Rules, db: Db, id: string, target: ApprovalStatus, now: DateTime, actor: string,
                        reason: Option<string>, auditId: string)
    ensures var (db', r) := TransitionTx(rules, db, id, target, now, actor, reason, auditId);
            && (r.Err? && db' != db ==>
                  && id in db.approvals
                  && var row := db.approvals[id];
                     || (r.error == ApprovalLapsedFault && row.status == Pending && Lapsed(row, now)
                         && Some(db') == ExpireTx(rules, db, id, now, auditId))
                     || (r.error == InvalidState && row.status != Pending
                         && Some(db') == Append(rules, db, RefuseEvent(id, row, now, actor, auditId), row.head))
                     || (r.error == ProvenanceIntegrity && row.status == Pending && !Lapsed(row, now)
                         && id in db'.approvals && db'.approvals[id].status == target
                         && !ReadsBack(rules, target, actor, reason)))
            && db'.executions == db.executions && db'.executionOf == db.executionOf && db'.assessments == db.assessments
            && db'.approvals.Keys == db.approvals.Keys
  {
    var db' := TransitionTx(rules, db, id, target, now, actor, reason, auditId).0;
    if id in db.approvals && db' != db {
      var row := db.approvals[id];
      TransitionCases(rules, db, id, target, now, actor, reason, auditId);
      TransitionErrors(rules, db, id, target, now, actor, reason, auditId);
      hide TransitionTx, ApprovalSoundness, Append, ExpireTx, DecideTx, DecidedRow, ApprovalReadable, ReadsBack, Lapsed,
           ApprovalEvent, DecisionEvent;
      if row.status == Pending && Lapsed(row, now) {
        ExpireFrame(rules, db, id, now, auditId);
      } else if row.status != Pending {
        AppendFrame(rules, db, RefuseEvent(id, row, now, actor, auditId), row.head);
      } else {
        var p := DecisionEvent(id, row, target, now, actor, auditId);
        DecideFrame(rules, db, id, DecidedRow(row, target, now, actor, reason), p);
        DecidedReadable(rules, db, id, target, now, actor, reason, p);
      }
    }
  }

  lemma SoundReadable(rules: Rules, row: ApprovalRow, events: seq<AuditEvent>)
    requires ApprovalSoundness(rules, row, events) == Sound
    ensures ApprovalReadable(rules, row)
  {
    hide ValidActor, ReadableReason;
  }

  /** A decision stored on a readable row can be read back exactly when its texts satisfy the approval model. */
  lemma DecidedReadable(rules: Rules, db: Db, id: string, target: ApprovalStatus, now: DateTime, actor: string,
                        reason: Option<string>, p: AuditPayload)
    requires id in db.approvals && target in {Approved, Rejected}
    requires DecideTx(rules, db, id, DecidedRow(db.approvals[id], target, now, actor, reason), p).Some?
    ensures var db' := DecideTx(rules, db, id, DecidedRow(db.approvals[id], target, now, actor, reason), p).value;
            && id in db'.approvals && db'.approvals[id].status == target
            && (ApprovalReadable(rules, db.approvals[id]) ==> (ApprovalReadable(rules, db'.approvals[id]) <==>
                   ReadsBack(rules, target, actor, reason)))
            && (ApprovalSoundness(rules, db.approvals[id], EventsOf(db, id)) == Sound ==>
                   ApprovalReadable(rules, db.approvals[id]))
  {
    if ApprovalSoundness(rules, db.approvals[id], EventsOf(db, id)) == Sound {
      SoundReadable(rules, db.approvals[id], EventsOf(db, id));
    }
    hide ApprovalSoundness, ValidActor, ReadableReason, StorableReason, StorableActor, InsertBySequence, NextEvent;
  }

  /**
   A claim either raises and changes nothing, or adds exactly one execution for an approval that
   had none.  For an actor the execution model refuses it raises after it has committed.
   */
  lemma ClaimFrame(rules: Rules, db: Db, id: string, now: DateTime, actor: string, executionId: string, auditId: string,
                   auditId': string)
    ensures var (db', r) := ClaimTx(rules, db, id, now, actor, executionId, auditId, auditId');
            && (r.Err? && db' != db ==> r.error == ExecutionIntegrity && !ValidActor(actor))
            && (r.Ok? ==>
                  && id in db.approvals && id !in db.executionOf && executionId !in db.executions
                  && r.value.approval == db.approvals[id] && r.value.approval.terms.parameters.Some?
                  && ClaimRefusal(rules, db.approvals[id], EventsOf(db, id), now).None?
                  && r.value.execution == ClaimedBody(rules, id, db.approvals[id],
                                                      r.value.approval.terms.parameters.value, executionId, now, actor)
                  && db'.executions == db.executions[executionId := ExecutionRowOf(rules, r.value.execution)]
                  && db'.executionOf == db.executionOf[id := executionId])
            && db'.approvals.Keys == db.approvals.Keys && db'.assessments == db.assessments
  {
    hide Inspect, ApprovalSoundness, RecordClaim, ValidActor;
    if id in db.approvals && ClaimRefusal(rules, db.approvals[id], EventsOf(db, id), now).None?
       && id !in db.executionOf && executionId !in db.executions
    {
      var body := ClaimedBody(rules, id, db.approvals[id], db.approvals[id].terms.parameters.value, executionId, now,
                              actor);
      RecordFrame(rules, Inserted(rules, db, id, executionId, body), id, body, auditId, auditId');
    }
  }

  lemma RecordFrame(rules: Rules, db: Db, id: string, body: ExecutionBody, auditId: string, auditId': string)
    requires id in db.approvals
    ensures RecordClaim(rules, db, id, body, auditId, auditId').Some? ==>
              var db' := RecordClaim(rules, db, id, body, auditId, auditId').value;
              && db'.executions == db.executions && db'.executionOf == db.executionOf
              && db'.assessments == db.assessments
              && db'.approvals.Keys == db.approvals.Keys
  {
    hide Append;
    var row := db.approvals[id];
    var p := ExecutionEvent(id, row, body.executionId, auditId, ExecutionAuthorized, Prepared, body.actor,
                            body.claimedAt, None);
    if Append(rules, db, p, row.head).Some? {
      AppendFrame(rules, db, p, row.head);
      var mid := Append(rules, db, p, row.head).value;
      assert id in mid.approvals.Keys;
      var row' := mid.approvals[id];
      var p' := ExecutionEvent(id, row', body.executionId, auditId', ExecutionClaimed, Claimed, body.actor,
                               body.claimedAt, None);
      if Append(rules, mid, p', row'.head).Some? {
        AppendFrame(rules, mid, p', row'.head);
      }
    }
  }

  /** Completion either raises and changes nothing, or turns exactly one CLAIMED row into its outcome. */
  lemma CompleteFrame(rules: Rules, db: Db, executionId: string, target: ExecutionStatus, now: DateTime,
                      failure: Option<FailureCategory>, auditId: string)
    ensures var (db', r) := CompleteTx(rules, db, executionId, target, now, failure, auditId);
            && (r.Err? ==> db' == db)
            && (r.Ok? ==>
                  && executionId in db.executions && db.executions[executionId].body.status == Claimed
                  && r.value == FinishedBody(db.executions[executionId].body, target, now, failure)
                  && db'.executions == db.executions[executionId := ExecutionRowOf(rules, r.value)])
            && db'.executionOf == db.executionOf && db'.assessments == db.assessments
            && db'.approvals.Keys == db.approvals.Keys
  {
    hide ExecutionFault, Append;
    if executionId in db.executions && db.executions[executionId].body.approvalId in db.approvals {
      var x := db.executions[executionId];
      var id := x.body.approvalId;
      var mid := db.(executions := db.executions[executionId := ExecutionRowOf(rules,
                                                                               FinishedBody(x.body, target, now,
                                                                                   failure))]);
      var p := ExecutionEvent(id, db.approvals[id], executionId, auditId, OutcomeKind(target), target, x.body.actor,
                              now, failure);
      if Append(rules, mid, p, db.approvals[id].head).Some? {
        AppendFrame(rules, mid, p, db.approvals[id].head);
      }
    }
  }

  /**
   Reconciliation never touches the execution: it raises and changes nothing, or adds one
   assessment.  For texts the assessment model refuses it raises after it has committed.
   */
  lemma ReconcileFrame(rules: Rules, db: Db, executionId: string, outcome: DeclaredOutcome, reason: string,
                       now: DateTime,
                       actor: string, assessmentId: string, auditId: string)
    ensures var (db', r) := ReconcileTx(rules, db, executionId, outcome, reason, now, actor, assessmentId, auditId);
            && (r.Err? && db' != db ==> r.error == ReconciliationIntegrity && !ReadableAssessment(actor, reason))
            && (r.Ok? ==>
                  && executionId in db.executions && db.executions[executionId].body.status == Unknown
                  && executionId !in db.assessments && assessmentId !in db.assessmentIds
                  && db'.assessments == db.assessments[executionId :=
                       Assess(rules, executionId, db.executions[executionId], assessmentId, outcome, reason, now,
                              actor)])
            && db'.executions == db.executions && db'.executionOf == db.executionOf
            && db'.approvals.Keys == db.approvals.Keys
  {
    hide Append, Inspect, ApprovalSoundness, ValidActor, ReadableAssessmentReason, StorableReason;
    if executionId in db.executions && db.executions[executionId].body.approvalId in db.approvals {
      var x := db.executions[executionId];
      var row := db.approvals[x.body.approvalId];
      var y := Assess(rules, executionId, x, assessmentId, outcome, reason, now, actor);
      var mid := db.(assessments := db.assessments[executionId := y],
                     assessmentIds := db.assessmentIds + {assessmentId});
      var p := AssessmentEvent(executionId, row, x, auditId, actor, now, y.hash);
      if Append(rules, mid, p, row.head).Some? {
        AppendFrame(rules, mid, p, row.head);
      }
    }
  }
}
