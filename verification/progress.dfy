/** What later states of the tables keep from earlier ones, and when the verifiers accept. */
module Progress {
  import opened Prelude
  import opened Timestamps
  import opened Texts
  import opened Records
  import opened AuditTrail
  import opened Transactions
  import opened Invariants
  import opened Preservation

  // ---------------------------------------------------------------- the verifiers accept what the operations wrote

  /** A readable chain is accepted by every verifier; an overlong one is refused by every verifier. */
  lemma ApprovalAccepted(rules: Rules, db: Db, id: string)
    requires Inv(rules, db) && id in db.approvals
    ensures |EventsOf(db, id)| <= MAX_SEQUENCE <==>
              ApprovalSoundness(rules, db.approvals[id], EventsOf(db, id)) == Sound
    ensures |EventsOf(db, id)| <= MAX_SEQUENCE ==>
              Inspect(rules, EventsOf(db, id), db.approvals[id].count, db.approvals[id].head) == Intact
    ensures |EventsOf(db, id)| > MAX_SEQUENCE ==>
              Inspect(rules, EventsOf(db, id), db.approvals[id].count, db.approvals[id].head) == Unreadable
  {
    CoherentLinked(rules, db, id);
    CoherentRows(rules, db, id);
    hide Inv, Linked, DistinctIds, KnownActors, Inspect;
    var row, events := db.approvals[id], EventsOf(db, id);
    InspectAccepts(rules, events, row.count, row.head);
    if |events| > MAX_SEQUENCE {
      InspectUnreadable(rules, events, row.head);
    }
  }

  lemma CoherentRows(rules: Rules, db: Db, id: string)
    requires Inv(rules, db) && id in db.approvals
    ensures RowSound(rules, db.approvals[id]) && ExpiryExact(db.approvals[id]) && db.approvals[id].approvalId == id
  {
    CoherentAt(rules, db, id);
    hide Inv, ChainCoherent;
  }

  lemma ExecutionFaultCases(rules: Rules, x: ExecutionRow, row: ApprovalRow, events: seq<AuditEvent>, malformed: Fault)
    requires ExecutionReadable(x.body) && ExecutionMatches(rules, x, row)
    ensures ApprovalSoundness(rules, row, events) == Sound ==>
              ExecutionFault(rules, x, row, events, events, malformed) == None
    ensures Inspect(rules, events, row.count, row.head) == Unreadable ==>
              ExecutionFault(rules, x, row, events, events, malformed) == Some(malformed)
  {
    hide ExecutionReadable, ExecutionMatches, Inspect;
  }

  /** An execution is verified exactly while its approval's chain is readable. */
  lemma ExecutionAccepted(rules: Rules, db: Db, executionId: string, malformed: Fault)
    requires Inv(rules, db) && executionId in db.executions
    ensures var x := db.executions[executionId];
            var events := EventsOf(db, x.body.approvalId);
            && x.body.approvalId in db.approvals
            && ExecutionFault(rules, x, db.approvals[x.body.approvalId], events, events, malformed) ==
               if |events| <= MAX_SEQUENCE then None else Some(malformed)
  {
    var x := db.executions[executionId];
    var id := x.body.approvalId;
    assert id in db.approvals && ExecutionReadable(x.body) && ExecutionMatches(rules, x, db.approvals[id]) by {
      hide Inv;
      ExecutionRows(rules, db, executionId);
    }
    hide *;
    ApprovalAccepted(rules, db, id);
    ExecutionFaultCases(rules, x, db.approvals[id], EventsOf(db, id), malformed);
  }

  lemma ExecutionRows(rules: Rules, db: Db, executionId: string)
    requires Inv(rules, db) && executionId in db.executions
    ensures var x := db.executions[executionId];
            x.body.approvalId in db.approvals
              && ExecutionSound(rules, x.body.approvalId, db.approvals[x.body.approvalId], x)
  {
    ExecutionInView(rules, db, executionId);
    CoherentAt(rules, db, db.executions[executionId].body.approvalId);
    hide Inv, ChainCoherent, RowSound, ExecutionSound;
  }

  /** Recorded assessments can always be read back. */
  lemma AssessmentAccepted(rules: Rules, db: Db, executionId: string)
    requires Inv(rules, db) && executionId in db.assessments
    ensures ReadAssessment(rules, db, executionId) == Ok(db.assessments[executionId].body)
  {
    assert executionId in db.executions by { hide AllCoherent, EventsIndexed; }
    ExecutionInView(rules, db, executionId);
    CoherentAt(rules, db, db.executions[executionId].body.approvalId);
    hide Inv, ChainCoherent, RowSound, ExecutionSound;
  }

  // ---------------------------------------------------------------- what never changes

  predicate RowLater(r: ApprovalRow, r': ApprovalRow) {
    && r'.approvalId == r.approvalId
    && r'.terms == r.terms
    && r'.createdAt == r.createdAt
    && r'.expiresAt == r.expiresAt
    && r'.provenance == r.provenance
    && r'.provenanceHash == r.provenanceHash
    && (r.status != Pending ==>
          r'.status == r.status && r'.decidedAt == r.decidedAt && r'.approver == r.approver && r'.reason == r.reason)
  }

  predicate ExecutionLater(x: ExecutionRow, x': ExecutionRow) {
    && x'.body == x.body.(status := x'.body.status, completedAt := x'.body.completedAt, failure := x'.body.failure)
    && (x.body.status != Claimed ==> x' == x)
    && (x'.body.status == Claimed || Terminal(x'.body.status) || x' == x)
  }

  /** Rows are only completed, chains only grow, and past the sequence bound nothing moves. */
  ghost predicate ViewLater(v: View, v': View) {
    match v'
    case View(row, events, execution, assessment) =>
      && RowLater(v.row, row)
      && v.events <= events
      && (v.execution.Some? ==> execution.Some? && ExecutionLater(v.execution.value, execution.value))
      && (v.assessment.Some? ==> assessment == v.assessment)
      && (|v.events| > MAX_SEQUENCE ==> v' == v)
      && (|events| <= |v.events| || |events| <= MAX_SEQUENCE + 2)
  }

  lemma ViewLaterTransitive(u: View, v: View, w: View)
    requires ViewLater(u, v) && ViewLater(v, w)
    ensures ViewLater(u, w)
  {
  }

  ghost predicate Later(db: Db, db': Db) {
    match db'
    case Db(approvals, _, _, _, _, _, _) =>
      && db.approvals.Keys <= approvals.Keys
      && forall id | id in db.approvals :: ViewLater(ViewOf(db, id), ViewOf(db', id))
  }

  lemma LaterReflexive(db: Db)
    ensures Later(db, db)
  {
    hide ViewOf;
  }

  lemma LaterTransitive(a: Db, b: Db, c: Db)
    requires Later(a, b) && Later(b, c)
    ensures Later(a, c)
  {
    hide ViewOf, ViewLater;
    forall id | id in a.approvals ensures ViewLater(ViewOf(a, id), ViewOf(c, id)) {
      assert id in b.approvals.Keys;
      ViewLaterTransitive(ViewOf(a, id), ViewOf(b, id), ViewOf(c, id));
    }
  }

  lemma OneViewLater(db: Db, db': Db, id: string)
    requires OnlyViewChanged(db, db', id)
    requires id in db.approvals ==> ViewLater(ViewOf(db, id), ViewOf(db', id))
    ensures Later(db, db')
  {
    hide ViewOf;
    assert db.approvals.Keys <= db'.approvals.Keys;
  }

  lemma GrownLater(rules: Rules, v: View, w: View, p: AuditPayload)
    requires ViewLater(v, w) && w.events == v.events && |v.events| <= MAX_SEQUENCE
    ensures ViewLater(v, Grown(rules, w, p))
  {
  }

  /** An operation that rewrote one approval's rows and appended an event to a readable chain. */
  lemma OperationLater(rules: Rules, db: Db, mid: Db, p: AuditPayload)
    requires p.approvalId in db.approvals && p.approvalId in mid.approvals
    requires Rewritten(db, mid, p.approvalId) && EventsIndexed(db)
    requires |EventsOf(db, p.approvalId)| <= MAX_SEQUENCE
    requires ViewLater(ViewOf(db, p.approvalId), ViewOf(mid, p.approvalId))
    ensures Later(db, Appended(rules, mid, p))
  {
    assert ViewOf(mid, p.approvalId).events == ViewOf(db, p.approvalId).events;
    hide Appended, EventsIndexed, ExecutionsIndexed, ViewLater;
    RewrittenAppended(rules, db, mid, p);
    AppendedViews(rules, mid, p);
    GrownLater(rules, ViewOf(db, p.approvalId), ViewOf(mid, p.approvalId), p);
    hide ViewOf, Rewritten;
    OneViewLater(db, Appended(rules, mid, p), p.approvalId);
  }

  // ---------------------------------------------------------------- every operation moves forward

  lemma CreateLater(rules: Rules, db: Db, d: Draft, now: DateTime, actor: string, auditId: string)
    requires Inv(rules, db)
    ensures Later(db, CreateTx(rules, db, d, now, actor, auditId).0)
  {
    LaterReflexive(db);
    hide AllCoherent, EventsIndexed, ExecutionsIndexed, Later, OnlyViewChanged, Appended, StorableActor;
    if d.approvalId !in db.approvals && d.terms.policyVersion == POLICY_VERSION
       && d.terms.decision == RequireHumanApproval
    {
      if auditId in db.auditIds || !StorableActor(actor) {
        CreateRefused(rules, db, d, now, actor, auditId);
      } else {
        TablesIndexed(rules, db);
        CreateEffect(rules, db, d, now, actor, auditId);
        OneViewLater(db, Appended(rules, Drafted(db, d), CreatedEvent(d, now, actor, auditId)), d.approvalId);
      }
    }
  }

  lemma DecideLater(rules: Rules, db: Db, id: string, row: ApprovalRow, p: AuditPayload)
    requires Inv(rules, db) && id in db.approvals && p.approvalId == id && |EventsOf(db, id)| <= MAX_SEQUENCE
    requires RowLater(db.approvals[id], row)
    ensures Later(db, Appended(rules, WithRow(db, id, row), p))
  {
    hide AllCoherent, EventsIndexed, ExecutionsIndexed, Rewritten, Later, Appended;
    RowOnly(db, id, row);
    assert ViewLater(ViewOf(db, id), ViewOf(WithRow(db, id, row), id)) by {
      assert ViewOf(db, id).row == db.approvals[id] && ViewOf(db, id).events == EventsOf(db, id);
      hide ViewOf;
    }
    hide ViewOf, ViewLater;
    OperationLater(rules, db, WithRow(db, id, row), p);
  }

  lemma ExpireLater(rules: Rules, db: Db, id: string, now: DateTime, auditId: string)
    requires Inv(rules, db) && id in db.approvals && db.approvals[id].status == Pending && Lapsed(db.approvals[id], now)
    requires |EventsOf(db, id)| <= MAX_SEQUENCE && ExpireTx(rules, db, id, now, auditId).Some?
    ensures Later(db, ExpireTx(rules, db, id, now, auditId).value)
  {
    hide Inv, Later, ExpireTx, Appended, EventsOf;
    ExpireKeepsInv(rules, db, id, now, auditId);
    DecideLater(rules, db, id, ExpiredRow(db.approvals[id], now), ExpireEvent(id, db.approvals[id], now, auditId));
  }

  lemma GetLater(rules: Rules, db: Db, id: string, now: DateTime, auditId: string)
    requires Inv(rules, db)
    ensures Later(db, GetTx(rules, db, id, now, auditId).0)
  {
    LaterReflexive(db);
    hide Inv, ApprovalSoundness, ExpireTx, Later;
    if id in db.approvals {
      ApprovalAccepted(rules, db, id);
      if |EventsOf(db, id)| <= MAX_SEQUENCE && db.approvals[id].status == Pending && Lapsed(db.approvals[id], now)
         && ExpireTx(rules, db, id, now, auditId).Some?
      {
        ExpireLater(rules, db, id, now, auditId);
      }
    }
  }

  lemma RefuseLater(rules: Rules, db: Db, id: string, now: DateTime, actor: string, auditId: string)
    requires Inv(rules, db) && id in db.approvals && |EventsOf(db, id)| <= MAX_SEQUENCE
    ensures Later(db, Appended(rules, db, RefuseEvent(id, db.approvals[id], now, actor, auditId)))
  {
    hide AllCoherent, Appended, Later;
    assert Rewritten(db, db, id);
    assert ViewLater(ViewOf(db, id), ViewOf(db, id)) by { hide ViewOf; }
    hide EventsIndexed, ExecutionsIndexed, Rewritten, ViewOf, ViewLater;
    OperationLater(rules, db, db, RefuseEvent(id, db.approvals[id], now, actor, auditId));
  }

  /** Whatever the actor and the reason, a transition only moves forward. */
  lemma TransitionLater(rules: Rules, db: Db, id: string, target: ApprovalStatus, now: DateTime, actor: string,
                        reason: Option<string>, auditId: string)
    requires Inv(rules, db)
    ensures Later(db, TransitionTx(rules, db, id, target, now, actor, reason, auditId).0)
  {
    LaterReflexive(db);
    hide Inv, ApprovalSoundness, ExpireTx, Append, DecideTx, Appended, Later, StorableActor, ApprovalReadable;
    if id in db.approvals && target in {Approved, Rejected} && |EventsOf(db, id)| > MAX_SEQUENCE {
      ApprovalAccepted(rules, db, id);
    } else if id in db.approvals && target in {Approved, Rejected} {
      var row := db.approvals[id];
      if row.status != Pending {
        AppendsAtEnd(rules, db, db, RefuseEvent(id, row, now, actor, auditId));
        RefuseLater(rules, db, id, now, actor, auditId);
      } else if Lapsed(row, now) {
        if ExpireTx(rules, db, id, now, auditId).Some? {
          ExpireLater(rules, db, id, now, auditId);
        }
      } else {
        hide EventsOf;
        var row' := DecidedRow(row, target, now, actor, reason);
        var p := DecisionEvent(id, row, target, now, actor, auditId);
        if DecideTx(rules, db, id, row', p).Some? {
          DecideIsAppended(rules, db, id, row', p);
          DecideLater(rules, db, id, row', p);
        }
      }
    }
  }

  lemma ClaimedViewLater(rules: Rules, id: string, v: View, body: ExecutionBody, auditId: string, auditId': string)
    requires v.execution.None? && |v.events| <= MAX_SEQUENCE
    ensures ViewLater(v, ClaimedView(rules, id, v, body, auditId, auditId'))
  {
  }

  lemma ClaimLater(rules: Rules, db: Db, id: string, now: DateTime, actor: string, executionId: string, auditId: string,
                   auditId': string)
    requires Inv(rules, db)
    ensures Later(db, ClaimTx(rules, db, id, now, actor, executionId, auditId, auditId').0)
  {
    LaterReflexive(db);
    hide Inv, Inspect, ApprovalSoundness, RecordClaim, AfterClaim, Later, StorableActor, ExecutionReadable;
    if id in db.approvals && ClaimRefusal(rules, db.approvals[id], EventsOf(db, id), now).None?
       && id !in db.executionOf && executionId !in db.executions
    {
      var p := db.approvals[id].terms.parameters.value;
      var body := ClaimedBody(rules, id, db.approvals[id], p, executionId, now, actor);
      ClaimEffect(rules, db, id, p, now, actor, executionId, auditId, auditId');
      ApprovalAccepted(rules, db, id);
      AfterClaimView(rules, db, id, body, auditId, auditId');
      assert ViewOf(db, id).events == EventsOf(db, id) && ViewOf(db, id).execution.None?;
      hide ClaimedView, OnlyViewChanged, ViewLater, ClaimRefusal, ViewOf;
      ClaimedViewLater(rules, id, ViewOf(db, id), body, auditId, auditId');
      OneViewLater(db, AfterClaim(rules, db, id, body, auditId, auditId'), id);
    }
  }

  lemma FinishedViewLater(v: View, x: ExecutionRow, x': ExecutionRow)
    requires v.execution == Some(x) && x.body.status == Claimed && |v.events| <= MAX_SEQUENCE
    requires x'.body == x.body.(status := x'.body.status, completedAt := x'.body.completedAt,
                                failure := x'.body.failure)
    requires Terminal(x'.body.status)
    ensures ViewLater(v, v.(execution := Some(x')))
  {
  }

  lemma AfterCompleteLater(rules: Rules, db: Db, executionId: string, target: ExecutionStatus, now: DateTime,
                           failure: Option<FailureCategory>, auditId: string)
    requires Inv(rules, db) && executionId in db.executions && db.executions[executionId].body.status == Claimed
    requires Terminal(target) && (target == Succeeded) == failure.None?
    requires |EventsOf(db, db.executions[executionId].body.approvalId)| <= MAX_SEQUENCE
    ensures db.executions[executionId].body.approvalId in db.approvals
    ensures Later(db, AfterComplete(rules, db, executionId, target, now, failure, auditId))
  {
    hide *;
    ExecutionInView(rules, db, executionId);
    TablesIndexed(rules, db);
    var x := db.executions[executionId];
    var id := x.body.approvalId;
    var x' := ExecutionRowOf(rules, FinishedBody(x.body, target, now, failure));
    FinishedShape(rules, x, target, now, failure);
    UpdatedViews(db, executionId, x');
    CoherentAt(rules, db, id);
    FinishedViewLater(ViewOf(db, id), x, x');
    CompletedIs(rules, db, executionId, target, now, failure, auditId);
    OperationLater(rules, db, Updated(db, executionId, x'),
                   OutcomeEvent(db.approvals[id], x.body, target, now, failure, auditId));
  }

  lemma FinishedShape(rules: Rules, x: ExecutionRow, target: ExecutionStatus, now: DateTime,
                      failure: Option<FailureCategory>)
    requires Terminal(target)
    ensures var x' := ExecutionRowOf(rules, FinishedBody(x.body, target, now, failure));
            && x'.body.executionId == x.body.executionId && x'.body.approvalId == x.body.approvalId
            && Terminal(x'.body.status)
            && x'.body == x.body.(status := x'.body.status, completedAt := x'.body.completedAt,
                                  failure := x'.body.failure)
  {
  }

  lemma CompletedIs(rules: Rules, db: Db, executionId: string, target: ExecutionStatus, now: DateTime,
                    failure: Option<FailureCategory>, auditId: string)
    requires executionId in db.executions && db.executions[executionId].body.approvalId in db.approvals
    ensures var x := db.executions[executionId];
            var id := x.body.approvalId;
            var mid := Updated(db, executionId, ExecutionRowOf(rules, FinishedBody(x.body, target, now, failure)));
            var p := OutcomeEvent(db.approvals[id], x.body, target, now, failure, auditId);
            && p.approvalId == id && id in mid.approvals
            && AfterComplete(rules, db, executionId, target, now, failure, auditId) == Appended(rules, mid, p)
  {
    hide Appended, FinishedBody;
  }

  lemma CompleteLater(rules: Rules, db: Db, executionId: string, target: ExecutionStatus, now: DateTime,
                      failure: Option<FailureCategory>, auditId: string)
    requires Inv(rules, db)
    ensures Later(db, CompleteTx(rules, db, executionId, target, now, failure, auditId).0)
  {
    LaterReflexive(db);
    hide Inv, ExecutionFault, Append, AfterComplete, Later;
    if Terminal(target) && (target == Succeeded) == failure.None? && executionId in db.executions
       && db.executions[executionId].body.status == Claimed
    {
      ExecutionAccepted(rules, db, executionId, ExecutionIntegrity);
      CompleteEffect(rules, db, executionId, target, now, failure, auditId);
      if |EventsOf(db, db.executions[executionId].body.approvalId)| <= MAX_SEQUENCE {
        AfterCompleteLater(rules, db, executionId, target, now, failure, auditId);
      }
    }
  }

  lemma AssessedLater(rules: Rules, db: Db, executionId: string, y: AssessmentRow, p: AuditPayload)
    requires Inv(rules, db) && executionId in db.executions && executionId !in db.assessments
    requires p.approvalId == db.executions[executionId].body.approvalId
    requires |EventsOf(db, p.approvalId)| <= MAX_SEQUENCE && p.approvalId in db.approvals
    ensures Later(db, Appended(rules, Assessed(db, executionId, y), p))
  {
    var id := p.approvalId;
    hide AllCoherent, EventsIndexed, ExecutionsIndexed, Appended, Rewritten, Later, ViewOf;
    ExecutionInView(rules, db, executionId);
    AssessedViews(db, executionId, y);
    assert |ViewOf(db, id).events| == |EventsOf(db, id)| by { CoherentAt(rules, db, id); }
    assert ViewLater(ViewOf(db, id), ViewOf(Assessed(db, executionId, y), id));
    hide ViewLater;
    OperationLater(rules, db, Assessed(db, executionId, y), p);
  }

  lemma ReconcileLater(rules: Rules, db: Db, executionId: string, outcome: DeclaredOutcome, reason: string,
                       now: DateTime,
                       actor: string, assessmentId: string, auditId: string)
    requires Inv(rules, db)
    ensures Later(db, ReconcileTx(rules, db, executionId, outcome, reason, now, actor, assessmentId, auditId).0)
  {
    LaterReflexive(db);
    hide Inv, ExecutionFault, Append, Appended, ReadAssessment, Later, StorableActor, StorableReason;
    if executionId in db.executions && db.executions[executionId].body.status == Unknown
       && executionId !in db.assessments
    {
      var x := db.executions[executionId];
      var y := Assess(rules, executionId, x, assessmentId, outcome, reason, now, actor);
      ExecutionAccepted(rules, db, executionId, ReconciliationIntegrity);
      AssessAppends(rules, db, executionId, y, auditId);
      if |EventsOf(db, x.body.approvalId)| <= MAX_SEQUENCE {
        AssessedLater(rules, db, executionId, y,
                      AssessmentEvent(executionId, db.approvals[x.body.approvalId], x, auditId, actor, now, y.hash));
      }
    }
  }
}
